/**
 The incrementally rehashed hash table: two bucket tables that are live at once during a rehash,
 and the invariant that makes them one finite map.
 */
module DictState {
  import opened Basics
  import opened Words

  datatype Entry<K, V> = Entry(key: K, val: V)

  /** One of the two tables: `ht_size_exp`, `ht_table` and `ht_used`. A bucket is its chain, head first. */
  datatype Table<K, V> = Table(exp: int, buckets: seq<seq<Entry<K, V>>>, used: int)

  /** The tables and the rehash position; -1 when no rehash is in progress. */
  datatype State<K, V> = State(t0: Table<K, V>, t1: Table<K, V>, rehashidx: int)

  function ResetTable<K, V>(): Table<K, V> {
    Table(-1, [], 0)
  }

  function FreshTable<K, V>(exp: nat): Table<K, V> {
    Table(exp, seq(Pow2(exp), _ => []), 0)
  }

  predicate Rehashing<K, V>(s: State<K, V>) {
    s.rehashidx != -1
  }

  function Count<K, V>(buckets: seq<seq<Entry<K, V>>>): nat {
    if buckets == [] then 0 else |buckets[0]| + Count(buckets[1..])
  }

  function ChainFind<K(==), V>(c: seq<Entry<K, V>>, k: K): Option<V> {
    if c == [] then None else if c[0].key == k then Some(c[0].val) else ChainFind(c[1..], k)
  }

  // ---- The invariant ----

  /** Every entry of bucket i hashes to i, and no key is chained twice. */
  ghost predicate BucketOk<K, V>(hash: K -> nat, exp: nat, i: nat, c: seq<Entry<K, V>>) {
    && (forall j :: 0 <= j < |c| ==> Low(hash(c[j].key), exp) == i)
    && (forall j, l :: 0 <= j < l < |c| ==> c[j].key != c[l].key)
  }

  predicate TableShape<K, V>(t: Table<K, V>) {
    if t.exp == -1 then t.buckets == [] else 0 <= t.exp <= 60 && |t.buckets| == Pow2(t.exp)
  }

  ghost predicate TableOk<K, V>(hash: K -> nat, t: Table<K, V>) {
    && TableShape(t)
    && t.used == Count(t.buckets)
    && forall i :: 0 <= i < |t.buckets| ==> BucketOk(hash, t.exp, i, t.buckets[i])
  }

  /** The bucket a key belongs to. */
  function Slot<K, V>(hash: K -> nat, t: Table<K, V>, k: K): (i: nat)
    requires TableShape(t) && t.exp != -1
    ensures i < |t.buckets|
  {
    LowBound(hash(k), t.exp);
    Low(hash(k), t.exp)
  }

  function Lookup<K(==), V>(hash: K -> nat, t: Table<K, V>, k: K): Option<V>
    requires TableShape(t)
  {
    if t.exp == -1 then None else ChainFind(t.buckets[Slot(hash, t, k)], k)
  }

  ghost predicate StateShape<K, V>(s: State<K, V>) {
    && TableShape(s.t0)
    && TableShape(s.t1)
    && (!Rehashing(s) ==> s.t1 == ResetTable())
    && (Rehashing(s) ==> s.t0.exp != -1 && s.t1.exp != -1 && 0 <= s.rehashidx <= |s.t0.buckets|)
    && (forall i :: 0 <= i < s.rehashidx ==> s.t0.buckets[i] == [])
  }

  ghost predicate Inv<K(!new), V>(hash: K -> nat, s: State<K, V>) {
    && StateShape(s)
    && TableOk(hash, s.t0)
    && TableOk(hash, s.t1)
    && (forall k :: Lookup(hash, s.t0, k) == None || Lookup(hash, s.t1, k) == None)
  }

  /** What the two tables together hold for a key. */
  function Get<K(==), V>(hash: K -> nat, s: State<K, V>, k: K): Option<V>
    requires TableShape(s.t0) && TableShape(s.t1)
  {
    match Lookup(hash, s.t0, k)
    case Some(v) => Some(v)
    case None => Lookup(hash, s.t1, k)
  }

  /** The tables hold exactly the finite map `m`. */
  ghost predicate Represents<K(!new), V>(hash: K -> nat, s: State<K, V>, m: map<K, V>)
    requires TableShape(s.t0) && TableShape(s.t1)
  {
    && (forall k :: Get(hash, s, k) == if k in m then Some(m[k]) else None)
    && |m| == s.t0.used + s.t1.used
  }

  // ---- Chains and counts ----

  lemma {:induction false} ChainFindIff<K, V>(c: seq<Entry<K, V>>, k: K)
    ensures ChainFind(c, k).Some? <==> exists j :: 0 <= j < |c| && c[j].key == k
  {
    if c != [] {
      ChainFindIff(c[1..], k);
      if c[0].key != k && ChainFind(c, k).Some? {
        var j :| 0 <= j < |c[1..]| && c[1..][j].key == k;
        assert c[j + 1].key == k;
      }
      if j :| 0 <= j < |c| && c[j].key == k && c[0].key != k {
        assert c[1..][j - 1].key == k;
      }
    }
  }

  lemma {:induction false} ChainFindAt<K, V>(c: seq<Entry<K, V>>, j: nat)
    requires j < |c| && forall a, b :: 0 <= a < b < |c| ==> c[a].key != c[b].key
    ensures ChainFind(c, c[j].key) == Some(c[j].val)
  {
    if j > 0 { ChainFindAt(c[1..], j - 1); }
  }

  lemma {:induction false} ChainRemove<K, V>(c: seq<Entry<K, V>>, j: nat, k: K)
    requires j < |c| && forall a, b :: 0 <= a < b < |c| ==> c[a].key != c[b].key
    ensures ChainFind(c[..j] + c[j + 1..], k) == if k == c[j].key then None else ChainFind(c, k)
  {
    var d := c[..j] + c[j + 1..];
    if j == 0 {
      assert d == c[1..];
      ChainFindIff(d, k);
    } else {
      assert d[1..] == c[1..][..j - 1] + c[1..][j..];
      ChainRemove(c[1..], j - 1, k);
    }
  }

  lemma {:induction false} ChainSet<K, V>(c: seq<Entry<K, V>>, j: nat, v: V, k: K)
    requires j < |c| && forall a, b :: 0 <= a < b < |c| ==> c[a].key != c[b].key
    ensures ChainFind(c[j := Entry(c[j].key, v)], k) == if k == c[j].key then Some(v) else ChainFind(c, k)
  {
    if j > 0 {
      assert c[j := Entry(c[j].key, v)][1..] == c[1..][j - 1 := Entry(c[j].key, v)];
      ChainSet(c[1..], j - 1, v, k);
    }
  }

  lemma {:induction false} CountUpdate<K, V>(b: seq<seq<Entry<K, V>>>, i: nat, c: seq<Entry<K, V>>)
    requires i < |b|
    ensures Count(b[i := c]) == Count(b) - |b[i]| + |c|
  {
    if i == 0 {
      assert b[i := c][1..] == b[1..];
    } else {
      assert b[i := c][1..] == b[1..][i - 1 := c];
      CountUpdate(b[1..], i - 1, c);
    }
  }

  lemma {:induction false} CountZero<K, V>(b: seq<seq<Entry<K, V>>>)
    ensures Count(b) == 0 <==> forall i :: 0 <= i < |b| ==> b[i] == []
  {
    if b != [] {
      CountZero(b[1..]);
      assert Count(b) == 0 ==> forall i :: 0 <= i < |b| ==> b[i] == [] by {
        if Count(b) == 0 {
          forall i | 0 <= i < |b| ensures b[i] == [] {
            if i > 0 { assert b[1..][i - 1] == []; }
          }
        }
      }
    }
  }

  // ---- Changing one bucket ----

  /** A table with one chain replaced and its count adjusted. */
  function SetBucket<K, V>(t: Table<K, V>, i: nat, c: seq<Entry<K, V>>): Table<K, V>
    requires i < |t.buckets|
  {
    t.(buckets := t.buckets[i := c], used := t.used - |t.buckets[i]| + |c|)
  }

  lemma {:induction false} SetBucketOk<K, V>(hash: K -> nat, t: Table<K, V>, i: nat, c: seq<Entry<K, V>>)
    requires TableOk(hash, t) && i < |t.buckets| && BucketOk(hash, t.exp, i, c)
    ensures TableOk(hash, SetBucket(t, i, c))
  {
    CountUpdate(t.buckets, i, c);
  }

  lemma {:induction false} SetBucketLookup<K, V>(hash: K -> nat, t: Table<K, V>, i: nat, c: seq<Entry<K, V>>, k: K)
    requires TableShape(t) && i < |t.buckets|
    ensures TableShape(SetBucket(t, i, c)) && t.exp != -1
    ensures Lookup(hash, SetBucket(t, i, c), k) ==
            if Slot(hash, t, k) == i then ChainFind(c, k) else Lookup(hash, t, k)
  {
  }

  lemma {:induction false} FreshTableOk<K, V>(hash: K -> nat, exp: nat)
    requires exp <= 60
    ensures TableOk(hash, FreshTable<K, V>(exp))
    ensures forall k :: Lookup(hash, FreshTable<K, V>(exp), k) == None
  {
    CountZero(FreshTable<K, V>(exp).buckets);
  }

  // ---- One rehash move ----

  /** Unlink the head of bucket i of the old table and push it onto its bucket of the new table. */
  function MoveHead<K, V>(hash: K -> nat, s: State<K, V>, i: nat): State<K, V>
    requires StateShape(s) && Rehashing(s) && i < |s.t0.buckets| && s.t0.buckets[i] != []
  {
    var e := s.t0.buckets[i][0];
    var h := Slot(hash, s.t1, e.key);
    s.(t0 := SetBucket(s.t0, i, s.t0.buckets[i][1..]), t1 := SetBucket(s.t1, h, [e] + s.t1.buckets[h]))
  }

  lemma {:induction false} MoveHeadInv<K(!new), V>(hash: K -> nat, s: State<K, V>, i: nat)
    requires Inv(hash, s) && Rehashing(s) && s.rehashidx <= i < |s.t0.buckets| && s.t0.buckets[i] != []
    ensures Inv(hash, MoveHead(hash, s, i))
    ensures forall k :: Get(hash, MoveHead(hash, s, i), k) == Get(hash, s, k)
  {
    var s' := MoveHead(hash, s, i);
    var c := s.t0.buckets[i];
    var e := c[0];
    var h := Slot(hash, s.t1, e.key);
    var d := s.t1.buckets[h];
    assert Lookup(hash, s.t0, e.key) == Some(e.val) by { ChainFindAt(c, 0); }
    assert BucketOk(hash, s.t1.exp, h, [e] + d) by {
      ChainFindIff(d, e.key);
      assert forall l :: 0 <= l < |d| ==> d[l].key != e.key;
    }
    SetBucketOk(hash, s.t0, i, c[1..]);
    SetBucketOk(hash, s.t1, h, [e] + d);
    forall k
      ensures Lookup(hash, s'.t0, k) == if k == e.key then None else Lookup(hash, s.t0, k)
      ensures Lookup(hash, s'.t1, k) == if k == e.key then Some(e.val) else Lookup(hash, s.t1, k)
    {
      SetBucketLookup(hash, s.t0, i, c[1..], k);
      SetBucketLookup(hash, s.t1, h, [e] + d, k);
      ChainRemove(c, 0, k);
      assert c[..0] + c[1..] == c[1..];
      assert ([e] + d)[1..] == d;
    }
  }

  lemma {:induction false} MoveHeadKeeps<K(!new), V>(hash: K -> nat, s: State<K, V>, i: nat, m: map<K, V>)
    requires Inv(hash, s) && Represents(hash, s, m)
    requires Rehashing(s) && s.rehashidx <= i < |s.t0.buckets| && s.t0.buckets[i] != []
    ensures Inv(hash, MoveHead(hash, s, i)) && Represents(hash, MoveHead(hash, s, i), m)
  {
    MoveHeadInv(hash, s, i);
  }

  /** Move bucket i of the old table head by head until it is empty. */
  function MoveAll<K, V>(hash: K -> nat, s: State<K, V>, i: nat): State<K, V>
    requires StateShape(s) && Rehashing(s) && s.rehashidx <= i < |s.t0.buckets|
    decreases |s.t0.buckets[i]|
  {
    if s.t0.buckets[i] == [] then s else MoveAll(hash, MoveHead(hash, s, i), i)
  }

  lemma {:induction false} MoveAllKeeps<K(!new), V>(hash: K -> nat, s: State<K, V>, i: nat, m: map<K, V>)
    requires Inv(hash, s) && Represents(hash, s, m) && Rehashing(s) && s.rehashidx <= i < |s.t0.buckets|
    ensures var s' := MoveAll(hash, s, i);
            && Inv(hash, s') && Represents(hash, s', m) && s'.t0.buckets == s.t0.buckets[i := []]
            && s'.t0.used == s.t0.used - |s.t0.buckets[i]| && s'.t0.exp == s.t0.exp && s'.rehashidx == s.rehashidx
    decreases |s.t0.buckets[i]|
  {
    MoveAllRepresents(hash, s, i, m);
    MoveAllShape(hash, s, i);
  }

  lemma {:induction false} MoveAllRepresents<K(!new), V>(hash: K -> nat, s: State<K, V>, i: nat, m: map<K, V>)
    requires Inv(hash, s) && Represents(hash, s, m) && Rehashing(s) && s.rehashidx <= i < |s.t0.buckets|
    ensures Inv(hash, MoveAll(hash, s, i)) && Represents(hash, MoveAll(hash, s, i), m)
    decreases |s.t0.buckets[i]|
  {
    if s.t0.buckets[i] != [] {
      MoveHeadKeeps(hash, s, i, m);
      MoveAllRepresents(hash, MoveHead(hash, s, i), i, m);
    }
  }

  lemma {:induction false} MoveAllShape<K, V>(hash: K -> nat, s: State<K, V>, i: nat)
    requires StateShape(s) && Rehashing(s) && s.rehashidx <= i < |s.t0.buckets|
    ensures var s' := MoveAll(hash, s, i);
            && s'.t0.buckets == s.t0.buckets[i := []] && s'.t0.used == s.t0.used - |s.t0.buckets[i]|
            && s'.t0.exp == s.t0.exp && s'.rehashidx == s.rehashidx
    decreases |s.t0.buckets[i]|
  {
    if s.t0.buckets[i] != [] {
      var h := MoveHead(hash, s, i);
      MoveAllShape(hash, h, i);
      assert h.t0.buckets[i := []] == s.t0.buckets[i := []];
    }
  }

  /** A state that differs from a represented one at one present key represents the updated map. */
  lemma {:induction false} RepresentsSet<K(!new), V>(hash: K -> nat, s: State<K, V>, s': State<K, V>, m: map<K, V>,
      k: K, v: V)
    requires TableShape(s.t0) && TableShape(s.t1) && TableShape(s'.t0) && TableShape(s'.t1)
    requires Represents(hash, s, m) && Get(hash, s, k).Some?
    requires s'.t0.used + s'.t1.used == s.t0.used + s.t1.used
    requires forall k' :: Get(hash, s', k') == if k' == k then Some(v) else Get(hash, s, k')
    ensures k in m && Represents(hash, s', m[k := v])
  {
    assert m[k := v].Keys == m.Keys;
  }

  lemma {:induction false} RepresentsAdd<K(!new), V>(hash: K -> nat, s: State<K, V>, s': State<K, V>, m: map<K, V>,
      k: K, v: V)
    requires TableShape(s.t0) && TableShape(s.t1) && TableShape(s'.t0) && TableShape(s'.t1)
    requires Represents(hash, s, m) && k !in m
    requires s'.t0.used + s'.t1.used == s.t0.used + s.t1.used + 1
    requires forall k' :: Get(hash, s', k') == if k' == k then Some(v) else Get(hash, s, k')
    ensures Represents(hash, s', m[k := v])
  {
    assert m[k := v].Keys == m.Keys + {k};
  }

  lemma {:induction false} RepresentsDrop<K(!new), V>(hash: K -> nat, s: State<K, V>, s': State<K, V>, m: map<K, V>,
      k: K)
    requires TableShape(s.t0) && TableShape(s.t1) && TableShape(s'.t0) && TableShape(s'.t1)
    requires Represents(hash, s, m) && Get(hash, s, k).Some?
    requires s'.t0.used + s'.t1.used == s.t0.used + s.t1.used - 1
    requires forall k' :: Get(hash, s', k') == if k' == k then None else Get(hash, s, k')
    ensures k in m && Represents(hash, s', m - {k})
  {
    assert m.Keys == (m - {k}).Keys + {k};
  }

  /** Emptying a bucket changes no table's size. */
  lemma {:induction false} MovedSizes<K, V>(hash: K -> nat, s: State<K, V>, i: nat)
    requires StateShape(s) && Rehashing(s) && s.rehashidx <= i < |s.t0.buckets|
    ensures MoveAll(hash, s, i).t0.exp == s.t0.exp && MoveAll(hash, s, i).t1.exp == s.t1.exp
    decreases |s.t0.buckets[i]|
  {
    if s.t0.buckets[i] != [] { MovedSizes(hash, MoveHead(hash, s, i), i); }
  }
}

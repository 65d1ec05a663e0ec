/**
 The entries of the hash table in the heap: every bucket is a chain of entries linked by `next`. The loops
 that relink, link and unlink entries are proved to act on the chains as `DictState` acts on its buckets.
 */
module DictChains {
  import opened Basics
  import opened Words
  import opened DictState

  /** `dictEntry`. */
  class Link<K, V> {
    const key: K
    var val: V
    var next: Link?<K, V>

    constructor (key: K, val: V)
      ensures this.key == key && this.val == val && next == null
    {
      this.key, this.val, next := key, val, null;
    }
  }

  // ---- Chains ----

  ghost function EntryAt<K, V>(c: seq<Link<K, V>>, k: int): Link?<K, V> {
    if 0 <= k < |c| then c[k] else null
  }

  /** The chain that starts at a pointer, under the `next` pointers nx. */
  ghost predicate Chained<K, V>(nx: map<Link<K, V>, Link?<K, V>>, head: Link?<K, V>, c: seq<Link<K, V>>) {
    head == EntryAt(c, 0) && forall k :: 0 <= k < |c| ==> c[k] in nx && nx[c[k]] == EntryAt(c, k + 1)
  }

  /** No entry stands in two places. */
  ghost predicate Apart<K, V>(rows: seq<seq<Link<K, V>>>) {
    forall i, k, j, l :: 0 <= i < |rows| && 0 <= k < |rows[i]| && 0 <= j < |rows| && 0 <= l < |rows[j]| ==>
      rows[i][k] == rows[j][l] ==> i == j && k == l
  }

  /** Every head but one starts its row, and no entry stands in two places; `Inside` opens the statement. */
  ghost predicate Heads<K, V>(nx: map<Link<K, V>, Link?<K, V>>, heads: seq<Link?<K, V>>, rows: seq<seq<Link<K, V>>>,
      but: int)
  {
    |heads| == |rows| && forall k: int {:trigger Inside(k)} :: Inside(k) ==>
      Apart(rows) && forall i :: 0 <= i < |rows| && i != but ==> Chained(nx, heads[i], rows[i])
  }

  ghost function Next<K, V>(xs: set<Link<K, V>>): map<Link<K, V>, Link?<K, V>>
    reads xs
  {
    map x | x in xs :: x.next
  }

  /** Every head but one starts its row, which starts at `de` instead; `Inside` opens the statement. */
  ghost predicate Ready<K, V>(nx: map<Link<K, V>, Link?<K, V>>, heads: seq<Link?<K, V>>, rows: seq<seq<Link<K, V>>>,
      idx: nat, de: Link?<K, V>)
  {
    idx < |rows| == |heads| && forall k: int {:trigger Inside(k)} :: Inside(k) ==>
      Heads(nx, heads, rows, idx) && Chained(nx, de, rows[idx])
  }

  /** The heap holds both tables on the entries xs: the rows of the first, then those of the second. */
  ghost predicate Holds<K, V>(t0: array<Link?<K, V>>, t1: array<Link?<K, V>>, xs: set<Link<K, V>>,
      rows: seq<seq<Link<K, V>>>)
    reads t0, t1, xs
  {
    t0 != t1 && Heads(Next(xs), t0[..] + t1[..], rows, -1)
  }

  /** The same, except that the row of bucket idx of the first table starts at `de`. */
  ghost predicate Open<K, V>(t0: array<Link?<K, V>>, t1: array<Link?<K, V>>, xs: set<Link<K, V>>,
      rows: seq<seq<Link<K, V>>>, idx: nat, de: Link?<K, V>)
    reads t0, t1, xs
  {
    t0 != t1 && idx < t0.Length && Ready(Next(xs), t0[..] + t1[..], rows, idx, de)
  }

  // ---- Relinking one entry ----

  /** The first entry of a row goes to the front of another row. */
  ghost function Shifted<K, V>(rows: seq<seq<Link<K, V>>>, from: nat, to: nat): (r: seq<seq<Link<K, V>>>)
    requires from < |rows| && to < |rows| && from != to && rows[from] != []
    ensures |r| == |rows|
  {
    rows[from := rows[from][1..]][to := [rows[from][0]] + rows[to]]
  }

  /** Where an entry of the shifted rows stood before. */
  ghost function Origin(from: nat, to: nat, i: nat, k: nat): (nat, nat) {
    if i == from then (i, k + 1) else if i == to then (if k == 0 then (from, 0) else (i, k - 1)) else (i, k)
  }

  lemma {:induction false} ShiftedAt<K, V>(rows: seq<seq<Link<K, V>>>, from: nat, to: nat, i: nat, k: nat)
    requires from < |rows| && to < |rows| && from != to && rows[from] != []
    requires i < |rows| && k < |Shifted(rows, from, to)[i]|
    ensures var (a, b) := Origin(from, to, i, k);
      a < |rows| && b < |rows[a]| && Shifted(rows, from, to)[i][k] == rows[a][b]
  {
  }

  lemma {:induction false} ShiftedApart<K, V>(rows: seq<seq<Link<K, V>>>, from: nat, to: nat)
    requires from < |rows| && to < |rows| && from != to && rows[from] != [] && Apart(rows)
    ensures Apart(Shifted(rows, from, to))
  {
    var r := Shifted(rows, from, to);
    forall i, k, j, l | 0 <= i < |r| && 0 <= k < |r[i]| && 0 <= j < |r| && 0 <= l < |r[j]| && r[i][k] == r[j][l]
      ensures i == j && k == l
    {
      ShiftedAt(rows, from, to, i, k);
      ShiftedAt(rows, from, to, j, l);
      assert Origin(from, to, i, k) == Origin(from, to, j, l);
    }
  }

  /** A chain without the entry does not see its pointer change. */
  lemma {:induction false} Unseen<K, V>(nx: map<Link<K, V>, Link?<K, V>>, head: Link?<K, V>, c: seq<Link<K, V>>,
      x: Link<K, V>, to: Link?<K, V>)
    requires Chained(nx, head, c) && x !in c
    ensures Chained(nx[x := to], head, c)
  {
  }

  lemma {:induction false} InFront<K, V>(nx: map<Link<K, V>, Link?<K, V>>, x: Link<K, V>, c: seq<Link<K, V>>)
    requires x in nx && Chained(nx, nx[x], c)
    ensures Chained(nx, x, [x] + c)
  {
    var d := [x] + c;
    forall k | 0 <= k < |d| ensures d[k] in nx && nx[d[k]] == EntryAt(d, k + 1) {
      assert EntryAt(d, k + 1) == EntryAt(c, k);
    }
  }

  lemma {:induction false} Rest<K, V>(nx: map<Link<K, V>, Link?<K, V>>, c: seq<Link<K, V>>)
    requires c != [] && Chained(nx, c[0], c)
    ensures Chained(nx, nx[c[0]], c[1..])
  {
    var d := c[1..];
    forall k | 0 <= k < |d| ensures d[k] in nx && nx[d[k]] == EntryAt(d, k + 1) {
      assert d[k] == c[k + 1] && EntryAt(d, k + 1) == EntryAt(c, k + 2);
    }
    assert EntryAt(d, 0) == EntryAt(c, 1);
  }

  /** Relinking the first entry of the open row to the front of another row. */
  lemma {:induction false} ShiftedHeads<K, V>(nx: map<Link<K, V>, Link?<K, V>>, heads: seq<Link?<K, V>>,
      rows: seq<seq<Link<K, V>>>, from: nat, to: nat)
    requires from < |rows| && to < |rows| && from != to && rows[from] != []
    requires Ready(nx, heads, rows, from, rows[from][0]) && rows[from][0] in nx
    ensures var x := rows[from][0];
      var nx', r := nx[x := heads[to]], Shifted(rows, from, to);
      Ready(nx', heads[to := x], r, from, nx[x])
  {
    assert Inside(0);
    var x, r := rows[from][0], Shifted(rows, from, to);
    var nx' := nx[x := heads[to]];
    ShiftedApart(rows, from, to);
    forall i | 0 <= i < |rows| && i != from ensures Chained(nx', heads[to := x][i], r[i]) {
      Unseen(nx, heads[i], rows[i], x, heads[to]);
      if i == to { InFront(nx', x, rows[to]); }
    }
    Rest(nx, rows[from]);
    Unseen(nx, nx[x], rows[from][1..], x, heads[to]);
  }

  /** The three assignments, on the pointers alone. */
  method Repoint<K, V>(t0: array<Link?<K, V>>, t1: array<Link?<K, V>>, de: Link<K, V>, h: nat,
      ghost xs: set<Link<K, V>>)
      returns (nextde: Link?<K, V>)
    requires t0 != t1 && h < t1.Length && de in xs
    modifies de`next, t1
    ensures nextde == old(de.next) && Next(xs) == old(Next(xs))[de := old(t1[h])]
    ensures t0[..] + t1[..] == old(t0[..] + t1[..])[t0.Length + h := de]
  {
    nextde := de.next;
    de.next := t1[h];
    t1[h] := de;
  }

  lemma {:induction false} FirstOf<K, V>(nx: map<Link<K, V>, Link?<K, V>>, heads: seq<Link?<K, V>>,
      rows: seq<seq<Link<K, V>>>, idx: nat, de: Link<K, V>)
    requires Ready(nx, heads, rows, idx, de)
    ensures rows[idx] != [] && rows[idx][0] == de && de in nx
  {
    assert Inside(0);
  }

  lemma {:induction false} InSecond<T>(a: seq<T>, b: seq<T>, h: nat)
    requires h < |b|
    ensures (a + b)[|a| + h] == b[h]
  {
  }

  /** One turn of the chain loop of `dictRehash`. */
  method MoveOne<K, V>(t0: array<Link?<K, V>>, t1: array<Link?<K, V>>, idx: nat, de: Link<K, V>, h: nat,
      ghost xs: set<Link<K, V>>, ghost rows: seq<seq<Link<K, V>>>) returns (nextde: Link?<K, V>)
    requires Open(t0, t1, xs, rows, idx, de) && h < t1.Length
    modifies xs`next, t1
    ensures rows[idx] != [] && rows[idx][0] == de
    ensures Open(t0, t1, xs, Shifted(rows, idx, t0.Length + h), idx, nextde)
  {
    ghost var nx, heads, to := Next(xs), t0[..] + t1[..], t0.Length + h;
    FirstOf(nx, heads, rows, idx, de);
    InSecond(t0[..], t1[..], h);
    ShiftedHeads(nx, heads, rows, idx, to);
    nextde := Repoint(t0, t1, de, h, xs);
  }

  // ---- What the chains stand for ----

  ghost function Vals<K, V>(xs: set<Link<K, V>>): map<Link<K, V>, Entry<K, V>>
    reads xs
  {
    map x | x in xs :: Entry(x.key, x.val)
  }

  /** The chain's entries are those of a bucket. */
  ghost predicate IsRow<K, V>(vals: map<Link<K, V>, Entry<K, V>>, c: seq<Link<K, V>>, bucket: seq<Entry<K, V>>) {
    |c| == |bucket| && forall k :: 0 <= k < |c| ==> c[k] in vals && vals[c[k]] == bucket[k] && c[k].key == bucket[k].key
  }

  /** The rows are the buckets of the two tables. */
  ghost predicate Stands<K, V>(vals: map<Link<K, V>, Entry<K, V>>, rows: seq<seq<Link<K, V>>>,
      buckets: seq<seq<Entry<K, V>>>)
  {
    |rows| == |buckets| && forall i :: 0 <= i < |rows| ==> IsRow(vals, rows[i], buckets[i])
  }

  /** Shifting an entry from its bucket to its bucket of the second table is the step of the tables. */
  lemma {:induction false} ShiftMeans<K, V>(hash: K -> nat, s: State<K, V>, i: nat, rows: seq<seq<Link<K, V>>>,
      h: nat, vals: map<Link<K, V>, Entry<K, V>>)
    requires StateShape(s) && Rehashing(s) && i < |s.t0.buckets| && Stands(vals, rows, s.t0.buckets + s.t1.buckets)
    requires rows[i] != [] && h == Slot(hash, s.t1, rows[i][0].key)
    ensures s.t0.buckets[i] != []
    ensures var s' := MoveHead(hash, s, i);
      Stands(vals, Shifted(rows, i, |s.t0.buckets| + h), s'.t0.buckets + s'.t1.buckets)
  {
    var to, b := |s.t0.buckets| + h, s.t0.buckets + s.t1.buckets;
    assert IsRow(vals, rows[i], b[i]) && IsRow(vals, rows[to], b[to]);
    var s' := MoveHead(hash, s, i);
    assert s'.t0.buckets + s'.t1.buckets == b[i := b[i][1..]][to := [b[i][0]] + b[to]];
  }

  /** One turn of the loop, with the tables it stands for. */
  method RelinkTurn<K, V>(hash: K -> nat, t0: array<Link?<K, V>>, t1: array<Link?<K, V>>, exp: nat, idx: nat,
      de0: Link<K, V>, ghost xs: set<Link<K, V>>, ghost rows0: seq<seq<Link<K, V>>>, ghost s0: State<K, V>)
      returns (de: Link?<K, V>, ghost rows: seq<seq<Link<K, V>>>, ghost s: State<K, V>)
    requires Open(t0, t1, xs, rows0, idx, de0) && Stands(Vals(xs), rows0, s0.t0.buckets + s0.t1.buckets)
    requires StateShape(s0) && Rehashing(s0) && s0.rehashidx <= idx < t0.Length == |s0.t0.buckets|
    requires s0.t1.exp == exp && |s0.t1.buckets| == t1.Length
    modifies xs`next, t1
    ensures Open(t0, t1, xs, rows, idx, de) && Stands(Vals(xs), rows, s.t0.buckets + s.t1.buckets)
    ensures StateShape(s) && Rehashing(s) && s.rehashidx == s0.rehashidx && s.t1.exp == exp
    ensures |s.t0.buckets| == t0.Length && |s.t1.buckets| == t1.Length && |rows[idx]| < |rows0[idx]|
    ensures MoveAll(hash, s, idx) == MoveAll(hash, s0, idx)
  {
    ghost var vals := Vals(xs);
    FirstOf(Next(xs), t0[..] + t1[..], rows0, idx, de0);
    LowBound(hash(de0.key), exp);
    var h := Low(hash(de0.key), exp);
    ShiftMeans(hash, s0, idx, rows0, h, vals);
    rows, s := Shifted(rows0, idx, t0.Length + h), MoveHead(hash, s0, idx);
    de := MoveOne(t0, t1, idx, de0, h, xs, rows0);
    assert Vals(xs) == vals;
  }

  /** The chain loop of `dictRehash`: it ends with the chains that the tables have after the whole move. */
  method RelinkBucket<K, V>(hash: K -> nat, t0: array<Link?<K, V>>, t1: array<Link?<K, V>>, exp: nat, idx: nat,
      ghost xs: set<Link<K, V>>, ghost rows0: seq<seq<Link<K, V>>>, ghost s0: State<K, V>)
      returns (ghost rows: seq<seq<Link<K, V>>>)
    requires Holds(t0, t1, xs, rows0) && Stands(Vals(xs), rows0, s0.t0.buckets + s0.t1.buckets)
    requires StateShape(s0) && Rehashing(s0) && s0.rehashidx <= idx < t0.Length == |s0.t0.buckets|
    requires s0.t1.exp == exp && |s0.t1.buckets| == t1.Length
    modifies xs`next, t0, t1
    ensures Holds(t0, t1, xs, rows)
    ensures var s := MoveAll(hash, s0, idx); Stands(Vals(xs), rows, s.t0.buckets + s.t1.buckets)
  {
    rows := rows0;
    ghost var s := s0;
    var de := t0[idx];
    OpenRow(Next(xs), t0[..] + t1[..], rows, idx);
    while de != null
      invariant Open(t0, t1, xs, rows, idx, de) && Stands(Vals(xs), rows, s.t0.buckets + s.t1.buckets)
      invariant StateShape(s) && Rehashing(s) && s.rehashidx == s0.rehashidx && s.t1.exp == exp
      invariant |s.t0.buckets| == t0.Length && |s.t1.buckets| == t1.Length
      invariant MoveAll(hash, s, idx) == MoveAll(hash, s0, idx)
      decreases |rows[idx]|
    {
      de, rows, s := RelinkTurn(hash, t0, t1, exp, idx, de, xs, rows, s);
    }
    ghost var heads := t0[..] + t1[..];
    CloseRow(Next(xs), heads, rows, idx);
    MovedOut(hash, s, idx, rows, Vals(xs));
    t0[idx] := null;
    assert t0[..] + t1[..] == heads[idx := null];
  }

  lemma {:induction false} OpenRow<K, V>(nx: map<Link<K, V>, Link?<K, V>>, heads: seq<Link?<K, V>>,
      rows: seq<seq<Link<K, V>>>, i: nat)
    requires Heads(nx, heads, rows, -1) && i < |rows|
    ensures Ready(nx, heads, rows, i, heads[i])
  {
    assert Inside(0);
  }

  lemma {:induction false} CloseRow<K, V>(nx: map<Link<K, V>, Link?<K, V>>, heads: seq<Link?<K, V>>,
      rows: seq<seq<Link<K, V>>>, i: nat)
    requires Ready(nx, heads, rows, i, null)
    ensures rows[i] == [] && Heads(nx, heads[i := null], rows, -1)
  {
    assert Inside(0);
  }

  lemma {:induction false} MovedOut<K, V>(hash: K -> nat, s: State<K, V>, i: nat, rows: seq<seq<Link<K, V>>>,
      vals: map<Link<K, V>, Entry<K, V>>)
    requires StateShape(s) && Rehashing(s) && s.rehashidx <= i < |s.t0.buckets|
    requires Stands(vals, rows, s.t0.buckets + s.t1.buckets) && rows[i] == []
    ensures MoveAll(hash, s, i) == s
  {
    assert IsRow(vals, rows[i], (s.t0.buckets + s.t1.buckets)[i]);
  }

  // ---- Linking and unlinking an entry of one table ----

  ghost predicate Table<K, V>(t: array<Link?<K, V>>, xs: set<Link<K, V>>, rows: seq<seq<Link<K, V>>>)
    reads t, xs
  {
    Heads(Next(xs), t[..], rows, -1)
  }

  ghost function Cut<T>(c: seq<T>, j: nat): (r: seq<T>)
    requires j < |c|
    ensures |r| == |c| - 1 && forall k :: 0 <= k < |r| ==> r[k] == c[if k < j then k else k + 1]
  {
    c[..j] + c[j + 1..]
  }

  /** Removing entries keeps the rows apart. */
  lemma {:induction false} CutApart<K, V>(rows: seq<seq<Link<K, V>>>, i: nat, j: nat)
    requires Apart(rows) && i < |rows| && j < |rows[i]|
    ensures Apart(rows[i := Cut(rows[i], j)])
  {
    var r := rows[i := Cut(rows[i], j)];
    forall a, k, b, l | 0 <= a < |r| && 0 <= k < |r[a]| && 0 <= b < |r| && 0 <= l < |r[b]| && r[a][k] == r[b][l]
      ensures a == b && k == l
    {
      assert r[a][k] == rows[a][if a == i && k >= j then k + 1 else k];
      assert r[b][l] == rows[b][if b == i && l >= j then l + 1 else l];
    }
  }

  /** The pointer before entry j skips it. */
  lemma {:induction false} CutChained<K, V>(nx: map<Link<K, V>, Link?<K, V>>, head: Link?<K, V>, c: seq<Link<K, V>>,
      j: nat)
    requires Chained(nx, head, c) && j < |c| && forall k, l :: 0 <= k < l < |c| ==> c[k] != c[l]
    ensures if j == 0 then Chained(nx, EntryAt(c, 1), Cut(c, 0))
            else Chained(nx[c[j - 1] := EntryAt(c, j + 1)], head, Cut(c, j))
  {
    var d, nx' := Cut(c, j), if j == 0 then nx else nx[c[j - 1] := EntryAt(c, j + 1)];
    forall k | 0 <= k < |d| ensures d[k] in nx' && nx'[d[k]] == EntryAt(d, k + 1) {
      assert EntryAt(d, k + 1) == EntryAt(c, if k + 1 < j then k + 1 else k + 2);
    }
  }

  lemma {:induction false} CutHeads<K, V>(nx: map<Link<K, V>, Link?<K, V>>, heads: seq<Link?<K, V>>,
      rows: seq<seq<Link<K, V>>>, i: nat, j: nat)
    requires Heads(nx, heads, rows, -1) && i < |rows| && j < |rows[i]|
    ensures var c, rows' := rows[i], rows[i := Cut(rows[i], j)];
      if j == 0 then Heads(nx, heads[i := EntryAt(c, 1)], rows', -1)
      else c[j - 1] in nx && Heads(nx[c[j - 1] := EntryAt(c, j + 1)], heads, rows', -1)
  {
    assert Inside(0);
    var c := rows[i];
    assert forall k, l :: 0 <= k < l < |c| ==> rows[i][k] != rows[i][l];
    CutApart(rows, i, j);
    CutChained(nx, heads[i], c, j);
    if j > 0 {
      forall a | 0 <= a < |rows| && a != i ensures Chained(nx[c[j - 1] := EntryAt(c, j + 1)], heads[a], rows[a]) {
        assert c[j - 1] == rows[i][j - 1];
        Unseen(nx, heads[a], rows[a], c[j - 1], EntryAt(c, j + 1));
      }
    }
  }

  /** The buckets after an entry is taken out. */
  lemma {:induction false} CutMeans<K, V>(vals: map<Link<K, V>, Entry<K, V>>, rows: seq<seq<Link<K, V>>>,
      buckets: seq<seq<Entry<K, V>>>, i: nat, j: nat)
    requires Stands(vals, rows, buckets) && i < |rows| && j < |rows[i]|
    ensures j < |buckets[i]| && Stands(vals, rows[i := Cut(rows[i], j)], buckets[i := Cut(buckets[i], j)])
  {
    assert IsRow(vals, rows[i], buckets[i]);
  }

  /** The place of a key in a chain, or none: the walk with `prevHe` behind `he`. */
  method Walk<K(==), V>(head: Link?<K, V>, key: K, ghost xs: set<Link<K, V>>, ghost c: seq<Link<K, V>>)
      returns (prev: Link?<K, V>, he: Link?<K, V>, ghost j: nat)
    requires Chained(Next(xs), head, c)
    ensures j <= |c| && prev == EntryAt(c, j - 1) && he == EntryAt(c, j)
    ensures (forall k :: 0 <= k < j ==> c[k].key != key) && (he != null ==> he.key == key)
  {
    prev, he, j := null, head, 0;
    while he != null && he.key != key
      invariant j <= |c| && prev == EntryAt(c, j - 1) && he == EntryAt(c, j)
      invariant forall k :: 0 <= k < j ==> c[k].key != key
      decreases |c| - j
    {
      assert c[j] in Next(xs);
      prev, he := he, he.next;
      j := j + 1;
    }
  }

  /** The inner loop of `dictGenericDelete`: the first entry with the key leaves its chain, or nothing changes. */
  method UnlinkEntry<K(==), V>(t: array<Link?<K, V>>, idx: nat, key: K, ghost xs: set<Link<K, V>>,
      ghost rows0: seq<seq<Link<K, V>>>, ghost buckets: seq<seq<Entry<K, V>>>)
      returns (he: Link?<K, V>, ghost j: nat, ghost rows: seq<seq<Link<K, V>>>)
    requires Table(t, xs, rows0) && Stands(Vals(xs), rows0, buckets) && idx < t.Length
    modifies xs`next, t
    ensures |rows0| == |buckets| == t.Length
    ensures he == null ==> rows == rows0 && Table(t, xs, rows) && ChainFind(buckets[idx], key) == None
    ensures he != null ==>
      && j < |buckets[idx]| && buckets[idx][j] == Entry(he.key, he.val) && he.key == key
      && (forall k :: 0 <= k < j ==> buckets[idx][k].key != key)
      && Table(t, xs, rows) && Stands(Vals(xs), rows, buckets[idx := Cut(buckets[idx], j)])
  {
    ghost var nx, vals := Next(xs), Vals(xs);
    rows := rows0;
    RowChained(nx, t[..], rows, idx);
    assert IsRow(vals, rows[idx], buckets[idx]);
    var prev;
    prev, he, j := Walk(t[idx], key, xs, rows[idx]);
    if he == null {
      Missing(buckets[idx], key);
      return;
    }
    CutMeans(vals, rows, buckets, idx, j);
    rows := rows[idx := Cut(rows[idx], j)];
    Remove(t, idx, prev, he, xs, rows0, j);
  }

  method Remove<K, V>(t: array<Link?<K, V>>, idx: nat, prev: Link?<K, V>, he: Link<K, V>, ghost xs: set<Link<K, V>>,
      ghost rows: seq<seq<Link<K, V>>>, ghost j: nat)
    requires Table(t, xs, rows) && idx < t.Length && j < |rows[idx]|
    requires prev == EntryAt(rows[idx], j - 1) && he == rows[idx][j]
    modifies xs`next, t
    ensures Table(t, xs, rows[idx := Cut(rows[idx], j)]) && Vals(xs) == old(Vals(xs))
  {
    ghost var nx, heads, c := Next(xs), t[..], rows[idx];
    RowChained(nx, heads, rows, idx);
    CutHeads(nx, heads, rows, idx, j);
    assert he in nx && nx[he] == EntryAt(c, j + 1);
    Skip(t, idx, prev, he, xs);
  }

  /** `prevHe->next = he->next`, or the head of the bucket. */
  method Skip<K, V>(t: array<Link?<K, V>>, idx: nat, prev: Link?<K, V>, he: Link<K, V>, ghost xs: set<Link<K, V>>)
    requires idx < t.Length && he in xs && (prev != null ==> prev in xs)
    modifies xs`next, t
    ensures prev == null ==> Next(xs) == old(Next(xs)) && t[..] == old(t[..])[idx := old(he.next)]
    ensures prev != null ==> Next(xs) == old(Next(xs))[prev := old(he.next)] && t[..] == old(t[..])
  {
    if prev != null {
      prev.next := he.next;
    } else {
      t[idx] := he.next;
    }
  }

  lemma {:induction false} RowChained<K, V>(nx: map<Link<K, V>, Link?<K, V>>, heads: seq<Link?<K, V>>,
      rows: seq<seq<Link<K, V>>>, i: nat)
    requires Heads(nx, heads, rows, -1) && i < |rows|
    ensures Chained(nx, heads[i], rows[i])
  {
    assert Inside(0);
  }

  lemma {:induction false} Missing<K, V>(c: seq<Entry<K, V>>, key: K)
    requires forall k :: 0 <= k < |c| ==> c[k].key != key
    ensures ChainFind(c, key) == None
    decreases |c|
  {
    if c != [] { Missing(c[1..], key); }
  }

  // ---- Linking a new entry ----

  lemma {:induction false} PushHeads<K, V>(nx: map<Link<K, V>, Link?<K, V>>, heads: seq<Link?<K, V>>,
      rows: seq<seq<Link<K, V>>>, i: nat, e: Link<K, V>)
    requires Heads(nx, heads, rows, -1) && i < |rows| && e !in nx
    ensures Heads(nx[e := heads[i]], heads[i := e], rows[i := [e] + rows[i]], -1)
  {
    assert Inside(0);
    var nx', r := nx[e := heads[i]], rows[i := [e] + rows[i]];
    assert forall a, k :: 0 <= a < |rows| && 0 <= k < |rows[a]| ==> rows[a][k] in nx;
    forall a | 0 <= a < |rows| ensures Chained(nx', heads[i := e][a], r[a]) {
      Unseen(nx, heads[a], rows[a], e, heads[i]);
      if a == i { InFront(nx', e, rows[i]); }
    }
    forall a, k, b, l | 0 <= a < |r| && 0 <= k < |r[a]| && 0 <= b < |r| && 0 <= l < |r[b]| && r[a][k] == r[b][l]
      ensures a == b && k == l
    {
      assert (a == i && k == 0) || r[a][k] == rows[a][if a == i then k - 1 else k];
      assert (b == i && l == 0) || r[b][l] == rows[b][if b == i then l - 1 else l];
    }
  }

  /** The end of `dictAddRaw`: the new entry becomes the head of its bucket. */
  method LinkEntry<K, V>(t: array<Link?<K, V>>, idx: nat, entry: Link<K, V>, ghost xs: set<Link<K, V>>,
      ghost rows: seq<seq<Link<K, V>>>, ghost buckets: seq<seq<Entry<K, V>>>)
    requires Table(t, xs, rows) && Stands(Vals(xs), rows, buckets) && idx < t.Length && entry !in xs
    modifies entry`next, t
    ensures |rows| == |buckets| == t.Length
    ensures Table(t, xs + {entry}, rows[idx := [entry] + rows[idx]])
    ensures Stands(Vals(xs + {entry}), rows[idx := [entry] + rows[idx]],
              buckets[idx := [Entry(entry.key, entry.val)] + buckets[idx]])
  {
    ghost var nx, heads, vals := Next(xs), t[..], Vals(xs);
    PushHeads(nx, heads, rows, idx, entry);
    PushMeans(vals, rows, buckets, idx, entry, Entry(entry.key, entry.val));
    entry.next := t[idx];
    t[idx] := entry;
    assert t[..] == heads[idx := entry];
    assert Next(xs + {entry}) == nx[entry := heads[idx]];
    assert Vals(xs + {entry}) == vals[entry := Entry(entry.key, entry.val)];
  }

  lemma {:induction false} PushMeans<K, V>(vals: map<Link<K, V>, Entry<K, V>>, rows: seq<seq<Link<K, V>>>,
      buckets: seq<seq<Entry<K, V>>>, i: nat, x: Link<K, V>, e: Entry<K, V>)
    requires Stands(vals, rows, buckets) && i < |rows| && x !in vals && x.key == e.key
    ensures Stands(vals[x := e], rows[i := [x] + rows[i]], buckets[i := [e] + buckets[i]])
  {
    forall a | 0 <= a < |rows| ensures IsRow(vals[x := e], rows[a], buckets[a]) {
      assert IsRow(vals, rows[a], buckets[a]);
    }
    assert IsRow(vals[x := e], [x] + rows[i], [e] + buckets[i]);
  }
}

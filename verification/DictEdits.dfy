/**
 The changes the dictionary's operations make to its two tables, as functions on states, and the
 proof that each keeps the invariant and changes the represented map as it should.
 */
module DictEdits {
  import opened Basics
  import opened Words
  import opened DictState

  // ---- One entry more, one entry less, one value changed ----

  /** Push an entry onto its bucket: of the new table during a rehash, of the old one otherwise. */
  function Insert<K, V>(hash: K -> nat, s: State<K, V>, e: Entry<K, V>): State<K, V>
    requires StateShape(s) && s.t0.exp != -1
  {
    if Rehashing(s) then
      var h := Slot(hash, s.t1, e.key); s.(t1 := SetBucket(s.t1, h, [e] + s.t1.buckets[h]))
    else
      var h := Slot(hash, s.t0, e.key); s.(t0 := SetBucket(s.t0, h, [e] + s.t0.buckets[h]))
  }

  lemma {:induction false} PushOk<K(!new), V>(hash: K -> nat, t: Table<K, V>, e: Entry<K, V>)
    requires TableOk(hash, t) && t.exp != -1 && Lookup(hash, t, e.key) == None
    ensures var h := Slot(hash, t, e.key); var t' := SetBucket(t, h, [e] + t.buckets[h]);
            && TableOk(hash, t')
            && forall k :: Lookup(hash, t', k) == if k == e.key then Some(e.val) else Lookup(hash, t, k)
  {
    var h := Slot(hash, t, e.key);
    var d := t.buckets[h];
    assert BucketOk(hash, t.exp, h, [e] + d) by {
      ChainFindIff(d, e.key);
      assert forall l :: 0 <= l < |d| ==> d[l].key != e.key;
    }
    SetBucketOk(hash, t, h, [e] + d);
    forall k
      ensures Lookup(hash, SetBucket(t, h, [e] + d), k) == if k == e.key then Some(e.val) else Lookup(hash, t, k)
    {
      SetBucketLookup(hash, t, h, [e] + d, k);
      assert ([e] + d)[1..] == d;
    }
  }

  lemma {:induction false} InsertInv<K(!new), V>(hash: K -> nat, s: State<K, V>, e: Entry<K, V>, m: map<K, V>)
    requires Inv(hash, s) && Represents(hash, s, m) && s.t0.exp != -1 && e.key !in m
    ensures Inv(hash, Insert(hash, s, e)) && Represents(hash, Insert(hash, s, e), m[e.key := e.val])
  {
    assert Get(hash, s, e.key) == None;
    InsertGets(hash, s, e);
    RepresentsAdd(hash, s, Insert(hash, s, e), m, e.key, e.val);
  }

  lemma {:induction false} InsertGets<K(!new), V>(hash: K -> nat, s: State<K, V>, e: Entry<K, V>)
    requires Inv(hash, s) && s.t0.exp != -1 && Get(hash, s, e.key) == None
    ensures var s' := Insert(hash, s, e);
      && Inv(hash, s') && s'.t0.used + s'.t1.used == s.t0.used + s.t1.used + 1
      && forall k :: Get(hash, s', k) == if k == e.key then Some(e.val) else Get(hash, s, k)
  {
    PushOk(hash, if Rehashing(s) then s.t1 else s.t0, e);
  }

  /** The state with entry j of bucket i unlinked from table 0 or table 1. */
  function Unlink<K, V>(s: State<K, V>, first: bool, i: nat, j: nat): State<K, V>
    requires i < |(if first then s.t0 else s.t1).buckets| && j < |(if first then s.t0 else s.t1).buckets[i]|
  {
    if first then
      var c := s.t0.buckets[i]; s.(t0 := SetBucket(s.t0, i, c[..j] + c[j + 1..]))
    else
      var c := s.t1.buckets[i]; s.(t1 := SetBucket(s.t1, i, c[..j] + c[j + 1..]))
  }

  lemma {:induction false} UnlinkOk<K(!new), V>(hash: K -> nat, t: Table<K, V>, i: nat, j: nat)
    requires TableOk(hash, t) && i < |t.buckets| && j < |t.buckets[i]|
    ensures var c := t.buckets[i]; var t' := SetBucket(t, i, c[..j] + c[j + 1..]);
            && TableOk(hash, t')
            && Lookup(hash, t, c[j].key) == Some(c[j].val)
            && forall k :: Lookup(hash, t', k) == if k == c[j].key then None else Lookup(hash, t, k)
  {
    var c := t.buckets[i];
    var d := c[..j] + c[j + 1..];
    SetBucketOk(hash, t, i, d);
    ChainFindAt(c, j);
    forall k
      ensures Lookup(hash, SetBucket(t, i, d), k) == if k == c[j].key then None else Lookup(hash, t, k)
    {
      SetBucketLookup(hash, t, i, d, k);
      ChainRemove(c, j, k);
    }
  }

  /** Exchanging the old table for one that differs at a single key. */
  lemma {:induction false} ChangeFirst<K(!new), V>(hash: K -> nat, s: State<K, V>, t: Table<K, V>, k: K, v: Option<V>)
    requires Inv(hash, s) && TableOk(hash, t) && t.exp == s.t0.exp && Lookup(hash, s.t0, k).Some?
    requires forall i :: 0 <= i < s.rehashidx ==> t.buckets[i] == []
    requires forall k' :: Lookup(hash, t, k') == if k' == k then v else Lookup(hash, s.t0, k')
    ensures Inv(hash, s.(t0 := t))
    ensures forall k' :: Get(hash, s.(t0 := t), k') == if k' == k then v else Get(hash, s, k')
  {
  }

  /** Exchanging the new table for one that differs at a single key. */
  lemma {:induction false} ChangeSecond<K(!new), V>(hash: K -> nat, s: State<K, V>, t: Table<K, V>, k: K, v: Option<V>)
    requires Inv(hash, s) && TableOk(hash, t) && t.exp == s.t1.exp && Lookup(hash, s.t1, k).Some?
    requires forall k' :: Lookup(hash, t, k') == if k' == k then v else Lookup(hash, s.t1, k')
    ensures Inv(hash, s.(t1 := t))
    ensures forall k' :: Get(hash, s.(t1 := t), k') == if k' == k then v else Get(hash, s, k')
  {
  }

  lemma {:induction false} UnlinkInv<K(!new), V>(hash: K -> nat, s: State<K, V>, first: bool, i: nat, j: nat,
      m: map<K, V>)
    requires Inv(hash, s) && Represents(hash, s, m)
    requires i < |(if first then s.t0 else s.t1).buckets| && j < |(if first then s.t0 else s.t1).buckets[i]|
    ensures var k := (if first then s.t0 else s.t1).buckets[i][j].key;
            k in m && Inv(hash, Unlink(s, first, i, j)) && Represents(hash, Unlink(s, first, i, j), m - {k})
  {
    UnlinkGets(hash, s, first, i, j);
    RepresentsDrop(hash, s, Unlink(s, first, i, j), m, (if first then s.t0 else s.t1).buckets[i][j].key);
  }

  lemma {:induction false} UnlinkGets<K(!new), V>(hash: K -> nat, s: State<K, V>, first: bool, i: nat, j: nat)
    requires Inv(hash, s)
    requires i < |(if first then s.t0 else s.t1).buckets| && j < |(if first then s.t0 else s.t1).buckets[i]|
    ensures var x, s' := (if first then s.t0 else s.t1).buckets[i][j].key, Unlink(s, first, i, j);
      && Inv(hash, s') && s'.t0.used + s'.t1.used == s.t0.used + s.t1.used - 1 && Get(hash, s, x).Some?
      && forall k :: Get(hash, s', k) == if k == x then None else Get(hash, s, k)
  {
    var t := if first then s.t0 else s.t1;
    var c := t.buckets[i];
    var t' := SetBucket(t, i, c[..j] + c[j + 1..]);
    UnlinkOk(hash, t, i, j);
    if first {
      ChangeFirst(hash, s, t', c[j].key, None);
    } else {
      ChangeSecond(hash, s, t', c[j].key, None);
    }
  }

  /** The state with the value of entry j of bucket i overwritten. */
  function Overwrite<K, V>(s: State<K, V>, first: bool, i: nat, j: nat, v: V): State<K, V>
    requires i < |(if first then s.t0 else s.t1).buckets| && j < |(if first then s.t0 else s.t1).buckets[i]|
  {
    if first then
      var c := s.t0.buckets[i]; s.(t0 := SetBucket(s.t0, i, c[j := Entry(c[j].key, v)]))
    else
      var c := s.t1.buckets[i]; s.(t1 := SetBucket(s.t1, i, c[j := Entry(c[j].key, v)]))
  }

  lemma {:induction false} OverwriteOk<K(!new), V>(hash: K -> nat, t: Table<K, V>, i: nat, j: nat, v: V)
    requires TableOk(hash, t) && i < |t.buckets| && j < |t.buckets[i]|
    ensures var c := t.buckets[i]; var t' := SetBucket(t, i, c[j := Entry(c[j].key, v)]);
            && TableOk(hash, t')
            && Lookup(hash, t, c[j].key) == Some(c[j].val)
            && forall k :: Lookup(hash, t', k) == if k == c[j].key then Some(v) else Lookup(hash, t, k)
  {
    var c := t.buckets[i];
    var d := c[j := Entry(c[j].key, v)];
    SetBucketOk(hash, t, i, d);
    ChainFindAt(c, j);
    forall k
      ensures Lookup(hash, SetBucket(t, i, d), k) == if k == c[j].key then Some(v) else Lookup(hash, t, k)
    {
      SetBucketLookup(hash, t, i, d, k);
      ChainSet(c, j, v, k);
    }
  }

  lemma {:induction false} OverwriteInv<K(!new), V>(hash: K -> nat, s: State<K, V>, first: bool, i: nat, j: nat,
      v: V, m: map<K, V>)
    requires Inv(hash, s) && Represents(hash, s, m)
    requires i < |(if first then s.t0 else s.t1).buckets| && j < |(if first then s.t0 else s.t1).buckets[i]|
    ensures var k := (if first then s.t0 else s.t1).buckets[i][j].key;
            k in m && Inv(hash, Overwrite(s, first, i, j, v))
              && Represents(hash, Overwrite(s, first, i, j, v), m[k := v])
  {
    var t := if first then s.t0 else s.t1;
    var c := t.buckets[i];
    var t' := SetBucket(t, i, c[j := Entry(c[j].key, v)]);
    OverwriteOk(hash, t, i, j, v);
    if first {
      ChangeFirst(hash, s, t', c[j].key, Some(v));
    } else {
      ChangeSecond(hash, s, t', c[j].key, Some(v));
    }
    RepresentsSet(hash, s, Overwrite(s, first, i, j, v), m, c[j].key, v);
  }

  // ---- The end of a rehash and the start of one ----

  /** Once the old table has no entries left the new one takes its place. */
  lemma {:induction false} FinishInv<K(!new), V>(hash: K -> nat, s: State<K, V>, m: map<K, V>)
    requires Inv(hash, s) && Represents(hash, s, m) && Rehashing(s) && s.t0.used == 0
    ensures var s' := State(s.t1, ResetTable(), -1); Inv(hash, s') && Represents(hash, s', m)
  {
    CountZero(s.t0.buckets);
    assert forall k :: Lookup(hash, s.t0, k) == None;
  }

  /** With entries left in the old table there is a non-empty bucket at or after the rehash position. */
  lemma {:induction false} BucketAhead<K(!new), V>(hash: K -> nat, s: State<K, V>)
    requires Inv(hash, s) && Rehashing(s) && s.t0.used != 0
    ensures exists i :: s.rehashidx <= i < |s.t0.buckets| && s.t0.buckets[i] != []
  {
    CountZero(s.t0.buckets);
  }

  lemma {:induction false} AdvanceInv<K(!new), V>(hash: K -> nat, s: State<K, V>, m: map<K, V>)
    requires Inv(hash, s) && Represents(hash, s, m) && Rehashing(s)
    requires s.rehashidx < |s.t0.buckets| && s.t0.buckets[s.rehashidx] == []
    ensures var s' := s.(rehashidx := s.rehashidx + 1); Inv(hash, s') && Represents(hash, s', m)
    ensures s.t0.used != 0 ==> s.rehashidx + 1 < |s.t0.buckets|
  {
    SameTables(hash, s, s.(rehashidx := s.rehashidx + 1), m);
    if s.t0.used != 0 { BucketBehind(hash, s); }
  }

  lemma {:induction false} BucketBehind<K(!new), V>(hash: K -> nat, s: State<K, V>)
    requires Inv(hash, s) && Rehashing(s) && s.t0.used != 0
    requires s.rehashidx < |s.t0.buckets| && s.t0.buckets[s.rehashidx] == []
    ensures s.rehashidx + 1 < |s.t0.buckets|
  {
    BucketAhead(hash, s);
  }

  /** What the tables hold does not depend on the rehash position. */
  lemma {:induction false} SameTables<K(!new), V>(hash: K -> nat, s: State<K, V>, s': State<K, V>, m: map<K, V>)
    requires Inv(hash, s) && Represents(hash, s, m) && s'.t0 == s.t0 && s'.t1 == s.t1 && StateShape(s')
    ensures Inv(hash, s') && Represents(hash, s', m)
  {
    assert forall k :: Get(hash, s', k) == Get(hash, s, k);
  }

  /** Moving the bucket at the rehash position and stepping past it. */
  lemma {:induction false} MovedInv<K(!new), V>(hash: K -> nat, s: State<K, V>, m: map<K, V>)
    requires Inv(hash, s) && Represents(hash, s, m) && Rehashing(s)
    requires s.rehashidx < |s.t0.buckets| && s.t0.buckets[s.rehashidx] != []
    ensures var s' := MoveAll(hash, s, s.rehashidx).(rehashidx := s.rehashidx + 1);
            Inv(hash, s') && Represents(hash, s', m) && s'.t0.used < s.t0.used
  {
    MoveAllKeeps(hash, s, s.rehashidx, m);
    StepPast(hash, s, MoveAll(hash, s, s.rehashidx), m);
  }

  lemma {:induction false} StepPast<K(!new), V>(hash: K -> nat, s: State<K, V>, moved: State<K, V>, m: map<K, V>)
    requires Inv(hash, moved) && Represents(hash, moved, m) && Rehashing(s) && moved.rehashidx == s.rehashidx
    requires s.rehashidx < |s.t0.buckets| && moved.t0.buckets == s.t0.buckets[s.rehashidx := []]
    ensures Inv(hash, moved.(rehashidx := s.rehashidx + 1)) && Represents(hash, moved.(rehashidx := s.rehashidx + 1), m)
  {
    AdvanceInv(hash, moved, m);
  }

  /** The first table, or the second one and the start of a rehash. */
  function Start<K, V>(s: State<K, V>, exp: nat): State<K, V> {
    if s.t0.exp == -1 then s.(t0 := FreshTable(exp)) else s.(t1 := FreshTable(exp), rehashidx := 0)
  }

  lemma {:induction false} StartInv<K(!new), V>(hash: K -> nat, s: State<K, V>, exp: nat, m: map<K, V>)
    requires Inv(hash, s) && Represents(hash, s, m) && !Rehashing(s) && exp <= 60
    ensures Inv(hash, Start(s, exp)) && Represents(hash, Start(s, exp), m)
  {
    FreshTableOk<K, V>(hash, exp);
    CountZero(FreshTable<K, V>(exp).buckets);
  }

  // ---- What a paused dictionary may do ----

  /** One change of the tables that is not a rehash step. */
  datatype Edit<K, V> =
    | Keep
    | Link(e: Entry<K, V>)
    | Set(first: bool, i: nat, j: nat, v: V)
    | Drop(first: bool, i: nat, j: nat)
    | Grow(exp: nat)

  ghost predicate HasEntry<K, V>(s: State<K, V>, first: bool, i: nat, j: nat) {
    var t := if first then s.t0 else s.t1;
    i < |t.buckets| && j < |t.buckets[i]|
  }

  /** The edit can be made, and only a key in `gone` is deleted by it. */
  ghost predicate Enabled<K, V>(hash: K -> nat, s: State<K, V>, d: Edit<K, V>, gone: set<K>)
    requires StateShape(s)
  {
    match d
    case Keep => true
    case Link(e) => s.t0.exp != -1 && Get(hash, s, e.key) == None
    case Set(first, i, j, v) => HasEntry(s, first, i, j)
    case Drop(first, i, j) => HasEntry(s, first, i, j) && (if first then s.t0 else s.t1).buckets[i][j].key in gone
    case Grow(exp) => exp <= 60 && !Rehashing(s)
  }

  ghost function Apply<K, V>(hash: K -> nat, s: State<K, V>, d: Edit<K, V>, gone: set<K>): State<K, V>
    requires StateShape(s) && Enabled(hash, s, d, gone)
  {
    match d
    case Keep => s
    case Link(e) => Insert(hash, s, e)
    case Set(first, i, j, v) => Overwrite(s, first, i, j, v)
    case Drop(first, i, j) => Unlink(s, first, i, j)
    case Grow(exp) => Start(s, exp)
  }

  ghost predicate EditStep<K(!new), V(!new)>(hash: K -> nat, s: State<K, V>, s': State<K, V>, gone: set<K>)
    requires StateShape(s)
  {
    exists d :: Enabled(hash, s, d, gone) && s' == Apply(hash, s, d, gone)
  }

  /** At most an expansion followed by one change of an entry. */
  ghost predicate Edited<K(!new), V(!new)>(hash: K -> nat, s: State<K, V>, s': State<K, V>, gone: set<K>) {
    exists mid :: Inv(hash, s) && Inv(hash, mid) && EditStep(hash, s, mid, gone) && EditStep(hash, mid, s', gone)
  }

  lemma {:induction false} EditedVia<K(!new), V(!new)>(hash: K -> nat, s: State<K, V>, mid: State<K, V>,
      s': State<K, V>, gone: set<K>)
    requires Inv(hash, s) && Inv(hash, mid) && EditStep(hash, s, mid, gone) && EditStep(hash, mid, s', gone)
    ensures Edited(hash, s, s', gone)
  {
  }

  lemma {:induction false} KeepStep<K(!new), V(!new)>(hash: K -> nat, s: State<K, V>, gone: set<K>)
    requires StateShape(s)
    ensures EditStep(hash, s, s, gone)
  {
    assert Enabled(hash, s, Keep, gone) && Apply(hash, s, Keep, gone) == s;
  }

  lemma {:induction false} DropStep<K(!new), V(!new)>(hash: K -> nat, s: State<K, V>, first: bool, i: nat, j: nat)
    requires StateShape(s) && HasEntry(s, first, i, j)
    ensures EditStep(hash, s, Unlink(s, first, i, j), {(if first then s.t0 else s.t1).buckets[i][j].key})
  {
    var gone := {(if first then s.t0 else s.t1).buckets[i][j].key};
    assert Enabled(hash, s, Drop(first, i, j), gone) && Unlink(s, first, i, j)
      == Apply(hash, s, Drop(first, i, j), gone);
  }

  lemma {:induction false} SetStep<K(!new), V(!new)>(hash: K -> nat, s: State<K, V>, first: bool, i: nat, j: nat, v: V)
    requires StateShape(s) && HasEntry(s, first, i, j)
    ensures EditStep(hash, s, Overwrite(s, first, i, j, v), {})
  {
    assert Enabled(hash, s, Set(first, i, j, v), {}) && Overwrite(s, first, i, j, v)
      == Apply(hash, s, Set(first, i, j, v), {});
  }

  lemma {:induction false} LinkStep<K(!new), V(!new)>(hash: K -> nat, s: State<K, V>, e: Entry<K, V>)
    requires StateShape(s) && s.t0.exp != -1 && Get(hash, s, e.key) == None
    ensures EditStep(hash, s, Insert(hash, s, e), {})
  {
    assert Enabled(hash, s, Link(e), {}) && Insert(hash, s, e) == Apply(hash, s, Link(e), {});
  }
}

/**
 The dictionary's operations. Every method keeps the two-table invariant and acts on the ghost
 finite map `m`; a rehash step leaves `m` alone.
 */
module DictOps {
  import opened Basics
  import opened Words
  import opened DictState
  import opened DictEdits

  const INITIAL_EXP: nat := 2
  const INITIAL_SIZE: nat := 4
  const FORCE_RESIZE_RATIO: nat := 5

  /** 2^64, the number of values of an unsigned long, and LONG_MAX. */
  const WORD: nat := 0x1_0000_0000_0000_0000
  const LONG_MAX: nat := 0x7FFF_FFFF_FFFF_FFFF

  /** The outcome of adding a key: `NoRoom` is a refused expansion, reported like an existing key. */
  datatype AddResult = Added | Exists | NoRoom

  lemma {:induction false} Pow2Halves()
    ensures Pow2(2) == INITIAL_SIZE && Pow2(4) == 16 && Pow2(8) == 0x100 && Pow2(16) == 0x1_0000
      && Pow2(32) == 0x1_0000_0000
  {
    assert Pow2(2) == 4 && Pow2(4) == 16;
    Pow2Add(4, 4);
    Pow2Add(8, 8);
    Pow2Add(16, 16);
  }

  lemma {:induction false} Pow2Sixty()
    ensures Pow2(60) == 0x1000_0000_0000_0000
  {
    Pow2Halves();
    Pow2Add(32, 16);
    Pow2Add(48, 8);
    Pow2Add(56, 4);
  }

  lemma {:induction false} Pow2Values()
    ensures Pow2(2) == INITIAL_SIZE && Pow2(60) == 0x1000_0000_0000_0000 && Pow2(61) == 0x2000_0000_0000_0000
    ensures Pow2(62) == 0x4000_0000_0000_0000 && Pow2(63) == 0x8000_0000_0000_0000 && Pow2(64) == WORD
  {
    Pow2Halves();
    Pow2Sixty();
    Pow2Doubles(60);
    Pow2Doubles(61);
    Pow2Doubles(62);
    Pow2Doubles(63);
  }

  lemma {:induction false} Pow2Doubles(e: nat)
    ensures Pow2(e + 1) == 2 * Pow2(e)
  {
  }

  /** The overflow test of `_dictExpand` refuses exactly the tables of more than 2^60 buckets. */
  lemma {:induction false} OverflowIff(exp: nat)
    requires exp <= 63
    ensures (Pow2(exp) * 8) % WORD < Pow2(exp) <==> exp > 60
  {
    Pow2Values();
    if exp <= 60 {
      Pow2Monotone(exp, 60);
    }
  }

  /** The least exponent, from the initial one up, whose table holds a number of entries. */
  predicate Least(e: int, size: nat) {
    e >= INITIAL_EXP && size <= Pow2(e) && (e > INITIAL_EXP ==> Pow2(e - 1) < size)
  }

  lemma {:induction false} LeastFour(e: nat)
    requires Least(e, 4)
    ensures e == 2
  {
    if e > 2 { Pow2Monotone(2, e - 1); }
  }

  /** `_dictNextExp`: the first power of two at or above a size, from the initial size up. */
  method NextExp(size: nat) returns (e: nat)
    ensures e <= 63 && if size >= LONG_MAX then e == 63 else Least(e, size)
  {
    if size >= LONG_MAX {
      return 63;
    }
    Pow2Values();
    e := INITIAL_EXP;
    while Pow2(e) < size
      invariant INITIAL_EXP <= e <= 63
      invariant e > INITIAL_EXP ==> Pow2(e - 1) < size
      decreases 63 - e
    {
      e := e + 1;
    }
  }

  /** The size part of `_dictExpand`: the exponent of the new table, or None where the size overflows. */
  method NewExp(size: nat) returns (r: Option<nat>)
    ensures match r case None => size > Pow2(60) case Some(e) => e <= 60 && Least(e, size)
  {
    var exp := NextExp(size);
    var newsize := Pow2(exp);
    OverflowIff(exp);
    if newsize < size || (newsize * 8) % WORD < newsize {
      Pow2Values();
      if size < LONG_MAX { Pow2Monotone(60, exp - 1); }
      return None;
    }
    return Some(exp);
  }

  /** The first entry of a chain with the given key, or -1. */
  method ChainIndex<K(==), V>(c: seq<Entry<K, V>>, key: K) returns (j: int)
    ensures -1 <= j < |c|
    ensures j == -1 ==> ChainFind(c, key) == None
    ensures j >= 0 ==> c[j].key == key && ChainFind(c, key) == Some(c[j].val)
  {
    j := 0;
    while j < |c|
      invariant 0 <= j <= |c|
      invariant ChainFind(c[j..], key) == ChainFind(c, key)
    {
      if c[j].key == key {
        return;
      }
      assert c[j..][1..] == c[j + 1..];
      j := j + 1;
    }
    j := -1;
  }

  /** The size that `dictResize` asks for. */
  function Minimal<K, V>(s: State<K, V>): nat {
    if s.t0.used < INITIAL_SIZE then INITIAL_SIZE else s.t0.used
  }

  /** A rehash goes on: the tables keep their sizes, and between one and eleven buckets are passed. */
  ghost predicate GoesOn<K, V>(s: State<K, V>, s': State<K, V>) {
    && Rehashing(s') && s'.t0.exp == s.t0.exp && s'.t1.exp == s.t1.exp
    && s.rehashidx < s'.rehashidx <= s.rehashidx + 11
  }

  /** A rehash is over: what was the new table is the first one. */
  ghost predicate Over<K, V>(s: State<K, V>, s': State<K, V>) {
    s'.t0.exp == s.t1.exp
  }

  /** What an unpaused operation does to a rehash that it meets. */
  ghost predicate Pushed<K, V>(s: State<K, V>, s': State<K, V>) {
    Rehashing(s) ==> GoesOn(s, s') || Over(s, s')
  }

  ghost predicate SameSizes<K, V>(s: State<K, V>, s': State<K, V>) {
    s'.t0.exp == s.t0.exp && s'.t1.exp == s.t1.exp && s'.rehashidx == s.rehashidx
  }

  /**
   A rehash is over after finitely many unpaused operations, whatever they are: at most as many as the old
   table has buckets left, and one.
   */
  lemma {:induction false} RehashEnds<K, V>(run: seq<State<K, V>>)
    requires run != [] && Rehashing(run[0]) && forall i :: 0 <= i < |run| ==> StateShape(run[i])
    requires forall i :: 0 <= i < |run| - 1 ==> Pushed(run[i], run[i + 1])
    requires |run| > |run[0].t0.buckets| - run[0].rehashidx + 1
    ensures exists i :: 0 <= i < |run| - 1 && run[i].t1.exp == run[0].t1.exp && Over(run[i], run[i + 1])
  {
    if forall i :: 0 <= i < |run| - 1 && run[i].t1.exp == run[0].t1.exp ==> !Over(run[i], run[i + 1]) {
      StillOn(run, |run| - 1);
    }
  }

  lemma {:induction false} StillOn<K, V>(run: seq<State<K, V>>, n: nat)
    requires n < |run| && Rehashing(run[0]) && forall i :: 0 <= i < |run| ==> StateShape(run[i])
    requires forall i :: 0 <= i < |run| - 1 ==> Pushed(run[i], run[i + 1])
    requires forall i :: 0 <= i < |run| - 1 && run[i].t1.exp == run[0].t1.exp ==> !Over(run[i], run[i + 1])
    ensures Rehashing(run[n]) && run[n].t0.exp == run[0].t0.exp && run[n].t1.exp == run[0].t1.exp
    ensures run[n].rehashidx >= run[0].rehashidx + n
  {
    if n > 0 {
      StillOn(run, n - 1);
      assert Pushed(run[n - 1], run[n - 1 + 1]);
    }
  }

  class Dict<K(!new, ==), V(!new)> {
    const hash: K -> nat
    var t0: Table<K, V>
    var t1: Table<K, V>
    var rehashidx: int
    var pauserehash: int
    var canResize: bool
    ghost var m: map<K, V>

    ghost function S(): State<K, V>
      reads this
    {
      State(t0, t1, rehashidx)
    }

    ghost predicate Valid()
      reads this
    {
      && Inv(hash, S())
      && Represents(hash, S(), m)
    }

    constructor (hash: K -> nat)
      ensures Valid() && this.hash == hash && m == map[] && pauserehash == 0 && canResize
    {
      this.hash := hash;
      t0, t1 := ResetTable(), ResetTable();
      rehashidx, pauserehash, canResize := -1, 0, true;
      m := map[];
    }

    /** `_dictExpand`, without the allocation failure. */
    method Expand(size: nat) returns (ok: bool, ghost e: nat)
      requires Valid()
      modifies this`t0, this`t1, this`rehashidx
      ensures Valid() && EditStep(hash, old(S()), S(), {})
      ensures ok ==>
        old(rehashidx) == -1 && old(t0.used) <= size && Least(e, size) && old(t0.exp) != e
        && S() == Start(old(S()), e)
      ensures !ok ==> S() == old(S())
      ensures !ok && old(rehashidx) == -1 && old(t0.used) <= size ==> size > Pow2(60) || Least(t0.exp, size)
    {
      KeepStep(hash, S(), {});
      e := 0;
      if rehashidx != -1 || t0.used > size {
        return false, e;
      }
      var exp := NewExp(size);
      if exp == None || exp.value == t0.exp {
        return false, e;
      }
      Install(exp.value);
      return true, exp.value;
    }

    /** The new table is the first one, or the second one and the start of a rehash. */
    method Install(exp: nat)
      requires Valid() && rehashidx == -1 && exp <= 60
      modifies this`t0, this`t1, this`rehashidx
      ensures Valid() && S() == Start(old(S()), exp) && EditStep(hash, old(S()), S(), {})
    {
      ghost var s := S();
      StartInv(hash, s, exp, m);
      assert Enabled(hash, s, Grow(exp), {}) && Apply(hash, s, Grow(exp), {}) == Start(s, exp);
      if t0.exp == -1 {
        t0 := FreshTable(exp);
      } else {
        t1 := FreshTable(exp);
        rehashidx := 0;
      }
    }

    /** `dictResize`: shrink to the smallest table that holds all entries. */
    method Resize() returns (ok: bool, ghost e: nat)
      requires Valid()
      modifies this`t0, this`t1, this`rehashidx
      ensures Valid()
      ensures ok ==>
        canResize && old(rehashidx) == -1 && Least(e, Minimal(old(S()))) && old(t0.exp) != e
        && S() == Start(old(S()), e)
      ensures !ok ==> S() == old(S())
      ensures !ok && canResize && rehashidx == -1 ==> Minimal(S()) > Pow2(60) || Least(t0.exp, Minimal(S()))
    {
      e := 0;
      if !canResize || rehashidx != -1 {
        return false, e;
      }
      var minimal := t0.used;
      if minimal < INITIAL_SIZE {
        minimal := INITIAL_SIZE;
      }
      assert minimal == Minimal(S());
      ok, e := Expand(minimal);
    }

    /** The chain loop of `dictRehash`: relink every entry of the bucket at the rehash position. */
    method RelinkBucket(ghost moved: State<K, V>)
      requires StateShape(S()) && 0 <= rehashidx < |t0.buckets| && moved == MoveAll(hash, S(), rehashidx)
      modifies this`t0, this`t1
      ensures S() == moved
    {
      ghost var s0 := S();
      ghost var s := s0;
      var de := t0.buckets[rehashidx];
      while de != []
        invariant t0.buckets == s0.t0.buckets
        invariant s == State(Table(t0.exp, t0.buckets[rehashidx := de], t0.used), t1, rehashidx)
        invariant StateShape(s) && MoveAll(hash, s, rehashidx) == MoveAll(hash, s0, rehashidx)
        decreases |de|
      {
        s := MoveHead(hash, s, rehashidx);
        var nextde := de[1..];
        var h := Slot(hash, t1, de[0].key);
        t1 := t1.(buckets := t1.buckets[h := [de[0]] + t1.buckets[h]]);
        t0 := t0.(used := t0.used - 1);
        t1 := t1.(used := t1.used + 1);
        de := nextde;
      }
      t0 := t0.(buckets := t0.buckets[rehashidx := []]);
    }

    method MoveBucket()
      requires Valid() && 0 <= rehashidx < |t0.buckets| && t0.buckets[rehashidx] != []
      modifies this`t0, this`t1, this`rehashidx
      ensures Valid() && rehashidx == old(rehashidx) + 1 && t0.used < old(t0.used)
      ensures t0.exp == old(t0.exp) && t1.exp == old(t1.exp)
    {
      ghost var s := S();
      ghost var moved := MoveAll(hash, s, s.rehashidx);
      MovedInv(hash, s, m);
      MovedSizes(hash, s, s.rehashidx);
      RelinkBucket(moved);
      rehashidx := rehashidx + 1;
      assert S() == moved.(rehashidx := s.rehashidx + 1);
    }

    /** Move one whole bucket, after at most `visits0` empty ones. */
    method RehashBucket(visits0: int) returns (visits: int, gaveUp: bool)
      requires Valid() && rehashidx != -1 && t0.used != 0
      modifies this`t0, this`t1, this`rehashidx
      ensures Valid() && rehashidx > old(rehashidx) && t0.exp == old(t0.exp) && t1.exp == old(t1.exp)
      ensures !gaveUp ==> t0.used < old(t0.used)
      ensures rehashidx == old(rehashidx) + (visits0 - visits) + (if gaveUp then 0 else 1)
      ensures visits <= visits0 && (visits0 > 0 ==> visits >= 0 && (visits == 0 <==> gaveUp))
    {
      visits, gaveUp := SkipEmpty(visits0);
      if !gaveUp {
        MoveBucket();
      }
    }

    /** Step past one empty bucket. */
    method Advance()
      requires Valid() && rehashidx != -1 && t0.used != 0 && 0 <= rehashidx < |t0.buckets|
        && t0.buckets[rehashidx] == []
      modifies this`rehashidx
      ensures Valid() && rehashidx == old(rehashidx) + 1 < |t0.buckets|
    {
      ghost var s := S();
      AdvanceInv(hash, s, m);
      rehashidx := rehashidx + 1;
      assert S() == s.(rehashidx := s.rehashidx + 1);
    }

    /** Advance over empty buckets, giving up when the visits are used up; a full bucket is ahead. */
    method SkipEmpty(visits0: int) returns (visits: int, gaveUp: bool)
      requires Valid() && rehashidx != -1 && t0.used != 0
      modifies this`rehashidx
      ensures Valid() && old(rehashidx) <= rehashidx < |t0.buckets|
      ensures gaveUp ==> rehashidx > old(rehashidx)
      ensures !gaveUp ==> t0.buckets[rehashidx] != []
      ensures rehashidx - old(rehashidx) == visits0 - visits
      ensures visits0 > 0 ==> visits >= 0 && (visits == 0 <==> gaveUp)
    {
      visits := visits0;
      assert |t0.buckets| > rehashidx by { BucketAhead(hash, S()); }
      while t0.buckets[rehashidx] == []
        invariant Valid() && old(rehashidx) <= rehashidx < |t0.buckets|
        invariant rehashidx - old(rehashidx) == visits0 - visits && (visits0 > 0 ==> visits > 0)
        decreases |t0.buckets| - rehashidx
      {
        Advance();
        visits := visits - 1;
        if visits == 0 {
          return visits, true;
        }
      }
      gaveUp := false;
    }

    /** The new table replaces the emptied old one. */
    method Finish()
      requires Valid() && rehashidx != -1 && t0.used == 0
      modifies this`t0, this`t1, this`rehashidx
      ensures Valid() && S() == State(old(t1), ResetTable(), -1)
    {
      FinishInv(hash, S(), m);
      t0 := t1;
      t1 := ResetTable();
      rehashidx := -1;
    }

    /**
     `dictRehash`: any number of steps leaves the map alone; the result says whether the rehash goes on. With
     n0 > 0 at most n0 buckets are moved and at most 10 * n0 empty ones passed, of which the code stops at the last.
     */
    method Rehash(n0: int) returns (more: bool, ghost moved: nat, ghost passed: nat)
      requires Valid()
      modifies this`t0, this`t1, this`rehashidx
      ensures Valid()
      ensures more <==> rehashidx != -1
      ensures old(rehashidx) == -1 ==> S() == old(S())
      ensures old(rehashidx) != -1 && n0 != 0 ==> rehashidx == -1 || rehashidx > old(rehashidx)
      ensures n0 > 0 ==> moved <= n0 && passed <= 10 * n0
      ensures more ==> rehashidx == old(rehashidx) + moved + passed
      ensures more && n0 > 0 ==> moved == n0 || passed == 10 * n0
      ensures more ==> t0.exp == old(t0.exp) && t1.exp == old(t1.exp)
      ensures old(rehashidx) != -1 && !more ==> t0.exp == old(t1.exp)
    {
      var n := n0;
      var emptyVisits := n * 10;
      moved, passed := 0, 0;
      if rehashidx == -1 {
        return false, moved, passed;
      }
      while n != 0 && t0.used != 0
        invariant Valid() && rehashidx != -1
        invariant rehashidx == old(rehashidx) + moved + passed && t0.exp == old(t0.exp) && t1.exp == old(t1.exp)
        invariant moved == n0 - n && passed == 10 * n0 - emptyVisits
        invariant n0 > 0 ==> n >= 0 && emptyVisits > 0
        decreases t0.used
      {
        n := n - 1;
        var gaveUp;
        ghost var visits := emptyVisits;
        emptyVisits, gaveUp := RehashBucket(emptyVisits);
        passed := passed + (visits - emptyVisits);
        if gaveUp {
          return true, moved, passed;
        }
        moved := moved + 1;
      }
      if t0.used == 0 {
        Finish();
        return false, moved, passed;
      }
      return true, moved, passed;
    }

    /** `_dictRehashStep`: one step unless rehashing is paused. */
    method RehashStep()
      requires Valid()
      modifies this`t0, this`t1, this`rehashidx
      ensures Valid()
      ensures old(rehashidx) == -1 || pauserehash != 0 ==> S() == old(S())
      ensures pauserehash == 0 ==> Pushed(old(S()), S())
    {
      if pauserehash == 0 {
        var more, moved, passed := Rehash(1);
      }
    }

    /** What every lookup and change begins with. */
    method StepIfRehashing()
      requires Valid()
      modifies this`t0, this`t1, this`rehashidx
      ensures Valid()
      ensures old(rehashidx) == -1 || pauserehash != 0 ==> S() == old(S())
      ensures pauserehash == 0 ==> Pushed(old(S()), S())
    {
      if rehashidx != -1 {
        RehashStep();
      }
    }

    /** The two-table search loop: the place of a key, if it has one. */
    method Locate(key: K) returns (found: bool, first: bool, i: nat, j: nat)
      requires Valid() && t0.exp != -1
      ensures found <==> key in m
      ensures var t := if first then t0 else t1;
              found ==> i < |t.buckets| && j < |t.buckets[i]| && t.buckets[i][j] == Entry(key, m[key])
    {
      first := true;
      i := Slot(hash, t0, key);
      var at := ChainIndex(t0.buckets[i], key);
      assert Get(hash, S(), key) == if key in m then Some(m[key]) else None;
      if at >= 0 {
        return true, true, i, at;
      }
      if rehashidx == -1 {
        return false, true, i, 0;
      }
      i := Slot(hash, t1, key);
      at := ChainIndex(t1.buckets[i], key);
      if at >= 0 {
        return true, false, i, at;
      }
      return false, false, i, 0;
    }

    /** `dictFind`. */
    method Find(key: K) returns (r: Option<V>)
      requires Valid()
      modifies this`t0, this`t1, this`rehashidx
      ensures Valid()
      ensures r == if key in m then Some(m[key]) else None
      ensures old(rehashidx) == -1 || pauserehash != 0 ==> S() == old(S())
      ensures pauserehash == 0 && m != map[] ==> Pushed(old(S()), S())
    {
      EmptyIff();
      if t0.used + t1.used == 0 {
        return None;
      }
      StepIfRehashing();
      assert t0.exp != -1;
      var found, first, i, j := Locate(key);
      if found {
        return Some((if first then t0 else t1).buckets[i][j].val);
      }
      return None;
    }

    /** A full table is to grow: the type allows it, and resizing is on or there are more than five entries a bucket. */
    ghost predicate ToGrow(allowed: bool)
      reads this
      requires rehashidx == -1 && t0.exp != -1 && |t0.buckets| > 0
    {
      t0.used >= |t0.buckets| && (canResize || t0.used / |t0.buckets| > 5) && allowed
    }

    /** `_dictExpandIfNeeded`; `allowed` is the answer of the type's expandAllowed callback. */
    method ExpandIfNeeded(allowed: bool) returns (ok: bool, ghost e: nat)
      requires Valid()
      modifies this`t0, this`t1, this`rehashidx
      ensures Valid()
      ensures EditStep(hash, old(S()), S(), {})
      ensures ok ==> t0.exp != -1
      ensures !ok ==> S() == old(S()) && rehashidx == -1 && t0.used >= Pow2(60)
      ensures old(rehashidx) != -1 ==> S() == old(S())
      ensures old(rehashidx) == -1 && old(t0.exp) == -1 ==> ok && S() == Start(old(S()), 2)
      ensures old(rehashidx) == -1 && old(t0.exp) != -1 ==>
        if old(|t0.buckets| > 0 && ToGrow(allowed)) then ok ==> Least(e, old(t0.used) + 1) && S() == Start(old(S()), e)
        else S() == old(S())
      ensures old(t0.exp) != -1 ==> t0.exp == old(t0.exp)
      ensures ok && allowed && canResize && rehashidx == -1 ==> t0.used < |t0.buckets|
    {
      KeepStep(hash, S(), {});
      e := 0;
      if rehashidx != -1 {
        return true, e;
      }
      if t0.exp == -1 {
        Pow2Values();
        ok, e := Expand(INITIAL_SIZE);
        LeastFour(e);
        return;
      }
      if t0.used >= |t0.buckets| && (canResize || t0.used / |t0.buckets| > FORCE_RESIZE_RATIO) && allowed {
        ok, e := Expand(t0.used + 1);
        return;
      }
      return true, e;
    }

    /** Chain a new entry at the head of its bucket: of the new table while a rehash is in progress. */
    method LinkHead(key: K, val: V)
      requires Valid() && t0.exp != -1 && key !in m
      modifies this`t0, this`t1, this`m
      ensures Valid() && m == old(m)[key := val]
      ensures EditStep(hash, old(S()), S(), {}) && SameSizes(old(S()), S())
      ensures rehashidx == -1 ==> t0.used == old(t0.used) + 1 && |t0.buckets| == old(|t0.buckets|)
    {
      ghost var s := S();
      KeyAbsent(key);
      LinkStep(hash, s, Entry(key, val));
      InsertInv(hash, s, Entry(key, val), m);
      if rehashidx != -1 {
        var h := Slot(hash, t1, key);
        t1 := t1.(buckets := t1.buckets[h := [Entry(key, val)] + t1.buckets[h]], used := t1.used + 1);
      } else {
        var h := Slot(hash, t0, key);
        t0 := t0.(buckets := t0.buckets[h := [Entry(key, val)] + t0.buckets[h]], used := t0.used + 1);
      }
      m := m[key := val];
      assert S() == Insert(hash, s, Entry(key, val));
    }

    lemma KeyAbsent(key: K)
      requires Valid() && key !in m
      ensures Get(hash, S(), key) == None
    {
    }

    /** Overwrite the value of an entry of table 0 in place. */
    method SetVal0(i: nat, j: nat, val: V)
      requires Valid() && i < |t0.buckets| && j < |t0.buckets[i]|
      modifies this`t0, this`m
      ensures Valid() && m == old(m[t0.buckets[i][j].key := val])
      ensures EditStep(hash, old(S()), S(), {}) && SameSizes(old(S()), S())
    {
      var c := t0.buckets[i];
      ghost var s := S();
      OverwriteInv(hash, s, true, i, j, val, m);
      SetStep(hash, s, true, i, j, val);
      t0 := t0.(buckets := t0.buckets[i := c[j := Entry(c[j].key, val)]]);
      m := m[c[j].key := val];
      assert S() == Overwrite(s, true, i, j, val);
    }

    /** Overwrite the value of an entry of table 1 in place. */
    method SetVal1(i: nat, j: nat, val: V)
      requires Valid() && i < |t1.buckets| && j < |t1.buckets[i]|
      modifies this`t1, this`m
      ensures Valid() && m == old(m[t1.buckets[i][j].key := val])
      ensures EditStep(hash, old(S()), S(), {}) && SameSizes(old(S()), S())
    {
      var c := t1.buckets[i];
      ghost var s := S();
      OverwriteInv(hash, s, false, i, j, val, m);
      SetStep(hash, s, false, i, j, val);
      t1 := t1.(buckets := t1.buckets[i := c[j := Entry(c[j].key, val)]]);
      m := m[c[j].key := val];
      assert S() == Overwrite(s, false, i, j, val);
    }

    /** Unlink an entry from its chain in table 0. */
    method Unlink0(i: nat, j: nat)
      requires Valid() && i < |t0.buckets| && j < |t0.buckets[i]|
      modifies this`t0, this`m
      ensures Valid() && m == old(m - {t0.buckets[i][j].key})
      ensures EditStep(hash, old(S()), S(), {old(t0.buckets[i][j].key)}) && SameSizes(old(S()), S())
    {
      var c := t0.buckets[i];
      ghost var s := S();
      UnlinkInv(hash, s, true, i, j, m);
      DropStep(hash, s, true, i, j);
      t0 := t0.(buckets := t0.buckets[i := c[..j] + c[j + 1..]], used := t0.used - 1);
      m := m - {c[j].key};
      assert S() == Unlink(s, true, i, j);
    }

    /** Unlink an entry from its chain in table 1. */
    method Unlink1(i: nat, j: nat)
      requires Valid() && i < |t1.buckets| && j < |t1.buckets[i]|
      modifies this`t1, this`m
      ensures Valid() && m == old(m - {t1.buckets[i][j].key})
      ensures EditStep(hash, old(S()), S(), {old(t1.buckets[i][j].key)}) && SameSizes(old(S()), S())
    {
      var c := t1.buckets[i];
      ghost var s := S();
      UnlinkInv(hash, s, false, i, j, m);
      DropStep(hash, s, false, i, j);
      t1 := t1.(buckets := t1.buckets[i := c[..j] + c[j + 1..]], used := t1.used - 1);
      m := m - {c[j].key};
      assert S() == Unlink(s, false, i, j);
    }

    /** The part of `dictAddRaw` after the rehash step. */
    method AddHere(key: K, val: V, allowed: bool) returns (r: AddResult)
      requires Valid()
      modifies this`t0, this`t1, this`rehashidx, this`m
      ensures Valid()
      ensures r == Added ==> key !in old(m) && m == old(m)[key := val] && Edited(hash, old(S()), S(), {})
      ensures r != Added ==> m == old(m) && EditStep(hash, old(S()), S(), {})
      ensures r == Exists ==> key in m
      ensures r == NoRoom ==> rehashidx == -1 && t0.used >= Pow2(60)
      ensures old(rehashidx) != -1 ==> SameSizes(old(S()), S())
      ensures old(t0.exp) != -1 ==> t0.exp == old(t0.exp)
      ensures r == Added && allowed && canResize && rehashidx == -1 ==> t0.used <= |t0.buckets|
    {
      ghost var s, e := S(), 0;
      var ok;
      ok, e := ExpandIfNeeded(allowed);
      if !ok {
        return NoRoom;
      }
      ghost var mid := S();
      r := LinkAbsent(key, val);
      if r == Added { EditedVia(hash, s, mid, S(), {}); }
    }

    /** The part of `dictAddRaw` that looks for the key and links a new entry where there is none. */
    method LinkAbsent(key: K, val: V) returns (r: AddResult)
      requires Valid() && t0.exp != -1
      modifies this`t0, this`t1, this`m
      ensures Valid() && r != NoRoom
      ensures r == Added ==> key !in old(m) && m == old(m)[key := val] && EditStep(hash, old(S()), S(), {})
      ensures SameSizes(old(S()), S()) && |t0.buckets| == old(|t0.buckets|)
      ensures r == Added && rehashidx == -1 ==> t0.used == old(t0.used) + 1
      ensures r == Exists ==> m == old(m) && key in m && S() == old(S())
    {
      var found, first, i, j := Locate(key);
      if found {
        return Exists;
      }
      LinkHead(key, val);
      return Added;
    }

    /** `dictAddRaw` followed by setting the value. */
    method AddRaw(key: K, val: V, allowed: bool) returns (r: AddResult)
      requires Valid()
      modifies this`t0, this`t1, this`rehashidx, this`m
      ensures Valid()
      ensures r == Added ==> key !in old(m) && m == old(m)[key := val]
      ensures r != Added ==> m == old(m)
      ensures r == Exists ==> key in m
      ensures r == NoRoom ==> rehashidx == -1 && t0.used >= Pow2(60)
      ensures pauserehash != 0 && r == Added ==> Edited(hash, old(S()), S(), {})
      ensures pauserehash != 0 && r != Added ==> EditStep(hash, old(S()), S(), {})
      ensures pauserehash == 0 ==> Pushed(old(S()), S())
      ensures r == Added && allowed && canResize && rehashidx == -1 ==> t0.used <= |t0.buckets|
    {
      StepIfRehashing();
      r := AddHere(key, val, allowed);
    }

    /** `dictAdd`: true is DICT_OK. */
    method Add(key: K, val: V, allowed: bool) returns (ok: bool)
      requires Valid()
      modifies this`t0, this`t1, this`rehashidx, this`m
      ensures Valid()
      ensures ok ==> key !in old(m) && m == old(m)[key := val]
      ensures !ok ==> m == old(m) && (key in m || (rehashidx == -1 && t0.used >= Pow2(60)))
      ensures pauserehash == 0 ==> Pushed(old(S()), S())
      ensures ok && allowed && canResize && rehashidx == -1 ==> t0.used <= |t0.buckets|
    {
      var r := AddRaw(key, val, allowed);
      return r == Added;
    }

    /** `dictReplace`. A refused expansion leaves `existing` NULL, which the code then dereferences: None. */
    method Replace(key: K, val: V, allowed: bool) returns (added: Option<bool>)
      requires Valid()
      modifies this`t0, this`t1, this`rehashidx, this`m
      ensures Valid()
      ensures added.Some? ==> m == old(m)[key := val] && (added.value <==> key !in old(m))
      ensures added == None ==> m == old(m) && rehashidx == -1 && t0.used >= Pow2(60)
      ensures added.Some? && pauserehash != 0 ==> Edited(hash, old(S()), S(), {})
      ensures pauserehash == 0 ==> Pushed(old(S()), S())
    {
      var r := AddRaw(key, val, allowed);
      ghost var mid := S();
      if r == Added {
        return Some(true);
      }
      if r == NoRoom {
        return None;
      }
      SetExisting(key, val);
      if pauserehash != 0 {
        EditedVia(hash, old(S()), mid, S(), {});
      }
      return Some(false);
    }

    /** Overwrite the value of a key that is present. */
    method SetExisting(key: K, val: V)
      requires Valid() && key in m
      modifies this`t0, this`t1, this`m
      ensures Valid() && m == old(m)[key := val] && EditStep(hash, old(S()), S(), {}) && SameSizes(old(S()), S())
    {
      assert t0.exp != -1 by { PresentAllocated(); }
      var found, first, i, j := Locate(key);
      if first {
        SetVal0(i, j, val);
      } else {
        SetVal1(i, j, val);
      }
    }

    lemma {:induction false} PresentAllocated()
      requires Valid() && m != map[]
      ensures t0.exp != -1
    {
      var k :| k in m;
      assert Get(hash, S(), k).Some?;
    }

    /** The part of `dictGenericDelete` after the rehash step. */
    method DeleteHere(key: K) returns (r: Option<V>)
      requires Valid() && t0.exp != -1
      modifies this`t0, this`t1, this`m
      ensures Valid() && m == old(m) - {key}
      ensures r == if key in old(m) then Some(old(m)[key]) else None
      ensures EditStep(hash, old(S()), S(), {key}) && SameSizes(old(S()), S())
    {
      var found, first, i, j := Locate(key);
      if !found {
        KeepStep(hash, S(), {key});
        return None;
      }
      r := Some((if first then t0 else t1).buckets[i][j].val);
      if first {
        Unlink0(i, j);
      } else {
        Unlink1(i, j);
      }
    }

    /** `dictGenericDelete`: the removed value, or None. */
    method Delete(key: K) returns (r: Option<V>)
      requires Valid()
      modifies this`t0, this`t1, this`rehashidx, this`m
      ensures Valid() && m == old(m) - {key}
      ensures r == if key in old(m) then Some(old(m)[key]) else None
      ensures pauserehash != 0 ==> EditStep(hash, old(S()), S(), {key})
      ensures pauserehash == 0 && old(m) != map[] ==> Pushed(old(S()), S())
    {
      EmptyIff();
      if t0.used + t1.used == 0 {
        KeepStep(hash, S(), {key});
        return None;
      }
      r := DeletePresent(key);
    }

    method DeletePresent(key: K) returns (r: Option<V>)
      requires Valid() && m != map[]
      modifies this`t0, this`t1, this`rehashidx, this`m
      ensures Valid() && m == old(m) - {key}
      ensures r == if key in old(m) then Some(old(m)[key]) else None
      ensures pauserehash != 0 ==> EditStep(hash, old(S()), S(), {key})
      ensures pauserehash == 0 ==> Pushed(old(S()), S())
    {
      StepIfRehashing();
      PresentAllocated();
      r := DeleteHere(key);
    }

    lemma {:induction false} EmptyIff()
      requires Valid()
      ensures t0.used + t1.used == 0 <==> m == map[]
    {
      assert |m| == 0 <==> m == map[];
    }
  }
}

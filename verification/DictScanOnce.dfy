/** A call of the scan emits no entry twice, and a whole scan of an unchanged dictionary emits each entry once. */
module DictScanOnce {
  import opened Basics
  import opened Words
  import opened DictState
  import opened DictScan

  /** How often a key stands in a list of entries. */
  function Times<K(==), V>(out: seq<Entry<K, V>>, k: K): nat {
    if out == [] then 0 else (if out[0].key == k then 1 else 0) + Times(out[1..], k)
  }

  lemma {:induction false} TimesJoin<K, V>(a: seq<Entry<K, V>>, b: seq<Entry<K, V>>, k: K)
    ensures Times(a + b, k) == Times(a, k) + Times(b, k)
  {
    if a == [] {
      assert a + b == b;
    } else {
      TimesJoin(a[1..], b, k);
      assert (a + b)[1..] == a[1..] + b;
    }
  }

  lemma {:induction false} TimesMember<K, V>(out: seq<Entry<K, V>>, e: Entry<K, V>)
    requires e in out
    ensures Times(out, e.key) > 0
  {
    if out[0] != e { TimesMember(out[1..], e); }
  }

  // ---- One chain ----

  lemma {:induction false} ChainTimes<K, V>(c: seq<Entry<K, V>>, k: K)
    requires forall j, l :: 0 <= j < l < |c| ==> c[j].key != c[l].key
    ensures Times(c, k) == if ChainFind(c, k).Some? then 1 else 0
  {
    if c != [] {
      ChainTimes(c[1..], k);
      ChainFindIff(c[1..], k);
      if c[0].key == k {
        forall j | 0 <= j < |c[1..]| ensures c[1..][j].key != k { assert c[1..][j] == c[j + 1]; }
      }
    }
  }

  lemma {:induction false} BucketTimes<K, V>(hash: K -> nat, t: Table<K, V>, i: nat, k: K)
    requires TableOk(hash, t) && i < |t.buckets|
    ensures Times(t.buckets[i], k) == if Lookup(hash, t, k).Some? && Low(hash(k), t.exp) == i then 1 else 0
  {
    var c := t.buckets[i];
    ChainTimes(c, k);
    ChainFindIff(c, k);
    if Times(c, k) > 0 {
      var j :| 0 <= j < |c| && c[j].key == k;
      assert Low(hash(c[j].key), t.exp) == i;
    }
  }

  // ---- One call ----

  lemma {:induction false} SameBlock(u: nat, v: nat, e0: nat, e1: nat)
    requires e0 <= e1 && Low(u, e1) == Low(v, e1)
    ensures Reverse(u, e1) == Reverse(v, e1) && Reverse(u, e0) == Reverse(v, e0)
  {
    ReverseLow(u, e1);
    ReverseLow(v, e1);
    BlockOrder(u, v, e0, e1);
    BlockOrder(v, u, e0, e1);
  }

  lemma {:induction false} NextBlock(v: nat, e: nat, w: nat)
    requires e <= w && NextCursor(v, e, w) != 0
    ensures Reverse(NextCursor(v, e, w), e) == Reverse(v, e) + 1
  {
    NextCursorBlock(v, e, w);
    BlockNumber(NextCursor(v, e, w), Reverse(v, e) + 1, e, w);
  }

  /** The loop over the larger table visits no bucket twice and stays in one block of the smaller table. */
  lemma {:induction false} LoopTimes<K, V>(hash: K -> nat, t: Table<K, V>, v: nat, e0: nat, w: nat, k: K)
    requires TableOk(hash, t) && e0 <= t.exp <= w
    ensures var n := Times(LargeLoop(v, e0, t.exp, w, t.buckets).1, k);
      && n <= 1
      && (n > 0 ==>
        Lookup(hash, t, k).Some? && Reverse(hash(k), e0) == Reverse(v, e0)
        && Reverse(hash(k), t.exp) >= Reverse(v, t.exp))
    decreases Pow2(w) - Reverse(v, w)
  {
    var e1 := t.exp;
    LowBound(v, e1);
    BucketTimes(hash, t, Low(v, e1), k);
    if Low(hash(k), e1) == Low(v, e1) { SameBlock(hash(k), v, e0, e1); }
    NextCursorProgress(v, e1, w);
    ReverseOfZero(e0);
    ReverseOfZero(e1);
    var v' := NextCursor(v, e1, w);
    if Low(v', e1) != Low(v', e0) {
      CoarseStep(v, e0, e1, w);
      NextBlock(v, e1, w);
      LoopTimes(hash, t, v', e0, w, k);
      TimesJoin(t.buckets[Low(v, e1)], LargeLoop(v', e0, e1, w, t.buckets).1, k);
    }
  }

  /** The exponent whose blocks the cursor counts: the smaller of the live tables'. */
  function Coarse<K, V>(s: State<K, V>): int {
    if Rehashing(s) then Ordered(s).0.exp else s.t0.exp
  }

  ghost predicate Filled<K(!new), V>(hash: K -> nat, s: State<K, V>) {
    Inv(hash, s) && Scannable(s) && s.t0.used + s.t1.used != 0
  }

  lemma {:induction false} CoarseBound<K(!new), V>(hash: K -> nat, s: State<K, V>)
    requires Filled(hash, s)
    ensures 0 <= Coarse(s) <= 60
  {
    if Rehashing(s) { OrderedExponents(s); }
  }

  /** A call emits no key twice, and only keys of the block its cursor is in. */
  lemma {:induction false} CallOnce<K(!new), V>(hash: K -> nat, s: State<K, V>, v: nat, w: nat, k: K)
    requires Filled(hash, s) && w >= 60
    ensures 0 <= Coarse(s)
    ensures var n := Times(Scan(s, v, w).1, k);
      n <= 1 && (n > 0 ==> Get(hash, s, k).Some? && Reverse(hash(k), Coarse(s)) == Reverse(v, Coarse(s)))
  {
    CoarseBound(hash, s);
    if Rehashing(s) {
      OrderedExponents(s);
      var (small, large) := Ordered(s);
      BothOnce(hash, small, large, v, w, k);
    } else {
      LowBound(v, s.t0.exp);
      BucketTimes(hash, s.t0, Low(v, s.t0.exp), k);
      if Low(hash(k), s.t0.exp) == Low(v, s.t0.exp) { SameBlock(hash(k), v, s.t0.exp, s.t0.exp); }
    }
  }

  lemma {:induction false} BothOnce<K, V>(hash: K -> nat, small: Table<K, V>, large: Table<K, V>, v: nat, w: nat, k: K)
    requires TableOk(hash, small) && TableOk(hash, large) && 0 <= small.exp <= large.exp <= w
    requires Lookup(hash, small, k) == None || Lookup(hash, large, k) == None
    ensures Low(v, small.exp) < |small.buckets|
    ensures var n := Times(small.buckets[Low(v, small.exp)] + LargeLoop(v, small.exp, large.exp, w, large.buckets).1,
      k);
      n <= 1 && (n > 0 ==>
        (Lookup(hash, small, k).Some? || Lookup(hash, large, k).Some?)
        && Reverse(hash(k), small.exp) == Reverse(v, small.exp))
  {
    LowBound(v, small.exp);
    var c, out := small.buckets[Low(v, small.exp)], LargeLoop(v, small.exp, large.exp, w, large.buckets).1;
    BucketTimes(hash, small, Low(v, small.exp), k);
    LoopTimes(hash, large, v, small.exp, w, k);
    TimesJoin(c, out, k);
    if Low(hash(k), small.exp) == Low(v, small.exp) { SameBlock(hash(k), v, small.exp, small.exp); }
  }

  /** A call moves the cursor to the next block, or to zero after the last one. */
  lemma {:induction false} CallNext<K(!new), V>(hash: K -> nat, s: State<K, V>, v: nat, w: nat)
    requires Filled(hash, s) && w >= 60
    ensures 0 <= Coarse(s)
    ensures var u := Scan(s, v, w).0;
      if Reverse(v, Coarse(s)) + 1 == Pow2(Coarse(s)) then u == 0
      else u != 0 && Reverse(u, Coarse(s)) == Reverse(v, Coarse(s)) + 1
  {
    CoarseBound(hash, s);
    var e := Coarse(s);
    if Rehashing(s) {
      OrderedExponents(s);
      var (small, large) := Ordered(s);
      LargeLoopEnds(v, e, large.exp, w, large.buckets);
      var u := LargeLoop(v, e, large.exp, w, large.buckets).0;
      if u != 0 { BlockNumber(u, Reverse(v, e) + 1, e, w); }
    } else {
      NextCursorBlock(v, e, w);
      if NextCursor(v, e, w) != 0 { NextBlock(v, e, w); }
    }
  }

  // ---- A whole scan of an unchanged dictionary ----

  /** One scan, from zero to the first zero, with the same state at every call. */
  ghost predicate Steady<K(!new), V>(hash: K -> nat, s: State<K, V>, states: seq<State<K, V>>, cursors: seq<nat>,
      w: nat) {
    && ScanRun(hash, states, cursors, w) && Filled(hash, s)
    && (forall i :: 0 <= i < |states| ==> states[i] == s)
    && (forall i :: 0 < i < |states| ==> cursors[i] != 0)
  }

  lemma {:induction false} SteadyAt<K(!new), V>(hash: K -> nat, s: State<K, V>, states: seq<State<K, V>>,
      cursors: seq<nat>, w: nat, i: nat)
    requires Steady(hash, s, states, cursors, w) && i < |states|
    ensures 0 <= Coarse(s) && Reverse(cursors[i], Coarse(s)) == i
  {
    CoarseBound(hash, s);
    if i == 0 {
      ReverseOfZero(Coarse(s));
    } else {
      SteadyAt(hash, s, states, cursors, w, i - 1);
      CallNext(hash, s, cursors[i - 1], w);
      assert states[i - 1] == s && cursors[i - 1 + 1] == Scan(states[i - 1], cursors[i - 1], w).0;
    }
  }

  /** The scan takes one call for each bucket of the smaller table. */
  lemma {:induction false} SteadyCalls<K(!new), V>(hash: K -> nat, s: State<K, V>, states: seq<State<K, V>>,
      cursors: seq<nat>, w: nat)
    requires Steady(hash, s, states, cursors, w)
    ensures 0 <= Coarse(s) && |states| == Pow2(Coarse(s))
  {
    var n := |states| - 1;
    SteadyAt(hash, s, states, cursors, w, n);
    CallNext(hash, s, cursors[n], w);
    assert states[n] == s && cursors[n + 1] == Scan(states[n], cursors[n], w).0;
  }

  /** How often the first n calls emit a key. */
  ghost function Emitted<K(!new), V>(hash: K -> nat, states: seq<State<K, V>>, cursors: seq<nat>, w: nat, k: K,
      n: nat): nat
    requires ScanRun(hash, states, cursors, w) && n <= |states|
  {
    if n == 0 then 0
    else Emitted(hash, states, cursors, w, k, n - 1) + Times(Scan(states[n - 1], cursors[n - 1], w).1, k)
  }

  lemma {:induction false} EmittedBound<K(!new), V>(hash: K -> nat, s: State<K, V>, states: seq<State<K, V>>,
      cursors: seq<nat>, w: nat, k: K, n: nat)
    requires Steady(hash, s, states, cursors, w) && n <= |states|
    ensures 0 <= Coarse(s)
    ensures var x := Emitted(hash, states, cursors, w, k, n);
      x <= 1 && (x > 0 ==> Get(hash, s, k).Some? && Reverse(hash(k), Coarse(s)) < n)
  {
    CoarseBound(hash, s);
    if n > 0 {
      EmittedBound(hash, s, states, cursors, w, k, n - 1);
      SteadyAt(hash, s, states, cursors, w, n - 1);
      CallOnce(hash, s, cursors[n - 1], w, k);
      assert states[n - 1] == s;
    }
  }

  lemma {:induction false} EmittedGrows<K(!new), V>(hash: K -> nat, states: seq<State<K, V>>, cursors: seq<nat>,
      w: nat, k: K, m: nat, n: nat)
    requires ScanRun(hash, states, cursors, w) && m <= n <= |states|
    ensures Emitted(hash, states, cursors, w, k, m) <= Emitted(hash, states, cursors, w, k, n)
    decreases n
  {
    if m < n { EmittedGrows(hash, states, cursors, w, k, m, n - 1); }
  }

  /** A whole scan of an unchanged dictionary emits each of its keys exactly once, and nothing else. */
  lemma {:induction false} ScanOnce<K(!new), V>(hash: K -> nat, s: State<K, V>, states: seq<State<K, V>>,
      cursors: seq<nat>, w: nat, k: K)
    requires Steady(hash, s, states, cursors, w)
    ensures Emitted(hash, states, cursors, w, k, |states|) == if Get(hash, s, k).Some? then 1 else 0
  {
    EmittedBound(hash, s, states, cursors, w, k, |states|);
    if Get(hash, s, k).Some? {
      ScanComplete(hash, states, cursors, w, k);
      var i :| 0 <= i < |states| && EmittedAt(hash, states, cursors, w, k, i);
      TimesMember(Scan(states[i], cursors[i], w).1, Entry(k, Get(hash, s, k).value));
      EmittedGrows(hash, states, cursors, w, k, i + 1, |states|);
    }
  }
}

/**
 The stateless scan. A cursor is read as a bit-reversed number, and one call covers the interval of
 reversed hashes from the old cursor up to the new one, in whichever of the two tables an entry lives.
 A whole scan therefore meets every entry that stays present, whatever valid states the dictionary
 goes through between the calls.
 */
module DictScan {
  import opened Basics
  import opened Words
  import opened BitStrings
  import opened DictState
  import opened DictOps

  // Everything up to the scan itself is for words of w bits; an unsigned long has 64.

  /** `v | ~mask`: the cursor with every bit above the table's mask set. */
  function SetAbove(v: nat, e: nat, w: nat): nat
    requires e <= w
  {
    (Pow2(w - e) - 1) * Pow2(e) + Low(v, e)
  }

  /** Set the unmasked bits, reverse, add one as an unsigned word, reverse back. */
  function NextCursor(v: nat, e: nat, w: nat): nat
    requires e <= w
  {
    Reverse((Reverse(SetAbove(v, e, w), w) + 1) % Pow2(w), w)
  }

  // ---- Products ----

  lemma {:induction false} ProductOrder(a: nat, b: nat, q: nat)
    requires q > 0
    ensures a <= b ==> a * q <= b * q
    ensures a < b ==> (a + 1) * q <= b * q
    ensures (a + 1) * q == a * q + q
    ensures a * q == b * q ==> a == b
  {
    if a < b {
      assert (b - a) * q == b * q - a * q;
      AtLeastOnce(b - a, q);
    } else if b < a {
      assert (a - b) * q == a * q - b * q;
      AtLeastOnce(a - b, q);
    }
  }

  lemma {:induction false} BlocksOrdered(a: nat, x: nat, b: nat, y: nat, q: nat)
    requires x < q && y < q && a * q + x <= b * q + y
    ensures a <= b
    ensures a < b ==> (a + 1) * q <= b * q + y
  {
    ProductOrder(a, b, q);
    ProductOrder(b, a, q);
  }

  lemma {:induction false} LastBlock(a: nat, b: nat, p: nat, q: nat)
    requires a < p && b < q && a * q + b + 1 == p * q
    ensures a + 1 == p
  {
    ProductOrder(a + 1, p, q);
    ProductOrder(a, p, q);
  }

  lemma {:induction false} Carry(a: nat, b: nat, a': nat, b': nat, q: nat)
    requires b < q && b' < q && a' * q + b' == a * q + b + 1
    ensures if b' != 0 then a' == a else a' == a + 1
  {
    ProductOrder(a, a', q);
    ProductOrder(a', a, q);
    ProductOrder(a + 1, a', q);
  }

  // ---- The cursor as a reversed number ----

  lemma {:induction false} ReverseOfZero(w: nat)
    ensures Reverse(0, w) == 0 && Low(0, w) == 0
  {
    if w > 0 { ReverseOfZero(w - 1); }
  }

  /** Reversed, the cursor with its upper bits set is the last word of its block. */
  lemma {:induction false} SetAboveReversed(v: nat, e: nat, w: nat)
    requires e <= w
    ensures Reverse(SetAbove(v, e, w), w) + 1 == (Reverse(v, e) + 1) * Pow2(w - e)
  {
    var f := w - e;
    var x := SetAbove(v, e, w);
    LowBound(v, e);
    Join(Pow2(f) - 1, Low(v, e), e);
    ReverseSplit(x, e, f);
    ReverseLow(x, e);
    ReverseLow(v, e);
    ReverseOnes(f);
    ProductOrder(Reverse(v, e), 0, Pow2(f));
  }

  /** The next cursor is the start of the next block of the table, or zero after the last block. */
  lemma {:induction false} NextCursorBlock(v: nat, e: nat, w: nat)
    requires e <= w
    ensures Reverse(v, e) < Pow2(e)
    ensures NextCursor(v, e, w) == 0 <==> Reverse(v, e) + 1 == Pow2(e)
    ensures Reverse(v, e) + 1 < Pow2(e) ==> Reverse(NextCursor(v, e, w), w) == (Reverse(v, e) + 1) * Pow2(w - e)
  {
    SetAboveReversed(v, e, w);
    ReverseBound(v, e);
    Pow2Add(e, w - e);
    ProductOrder(Reverse(v, e) + 1, Pow2(e), Pow2(w - e));
    NextWord((Reverse(v, e) + 1) * Pow2(w - e), w);
  }

  lemma {:induction false} NextWord(n: nat, w: nat)
    requires 0 < n <= Pow2(w)
    ensures Reverse(n % Pow2(w), w) == 0 <==> n == Pow2(w)
    ensures n < Pow2(w) ==> Reverse(Reverse(n % Pow2(w), w), w) == n
  {
    if n < Pow2(w) {
      assert n % Pow2(w) == n by { ModUnique(n, 0, Pow2(w), n); }
      assert Reverse(Reverse(n, w), w) == n by { ReverseInvolution(n, w); LowWhole(n, w); }
      assert Reverse(n, w) != 0 by { ReverseOfZero(w); }
    } else {
      assert n % Pow2(w) == 0 by { ModUnique(n, 1, Pow2(w), 0); }
      ReverseOfZero(w);
    }
  }

  lemma {:induction false} BlocksCompared(ru: nat, a: nat, x: nat, rv: nat, b: nat, y: nat, q: nat)
    requires ru == a * q + x && rv == b * q + y && x < q && y < q && ru <= rv
    ensures a <= b
    ensures a < b ==> (a + 1) * q <= rv
  {
    BlocksOrdered(a, x, b, y, q);
  }

  /** Order of reversed words, block by block. */
  lemma {:induction false} BlockOrder(u: nat, v: nat, e: nat, w: nat)
    requires e <= w && Reverse(u, w) <= Reverse(v, w)
    ensures Reverse(u, e) <= Reverse(v, e)
    ensures Reverse(u, e) < Reverse(v, e) ==> (Reverse(u, e) + 1) * Pow2(w - e) <= Reverse(v, w)
  {
    var f := w - e;
    ReverseSplit(u, e, f);
    ReverseSplit(v, e, f);
    ReverseBound(High(u, e), f);
    ReverseBound(High(v, e), f);
    BlocksCompared(Reverse(u, w), Reverse(u, e), Reverse(High(u, e), f),
                   Reverse(v, w), Reverse(v, e), Reverse(High(v, e), f), Pow2(f));
  }

  /** Every step moves the reversed cursor strictly forward, until it wraps to zero. */
  lemma {:induction false} NextCursorProgress(v: nat, e: nat, w: nat)
    requires e <= w
    ensures NextCursor(v, e, w) == 0 || Reverse(v, w) < Reverse(NextCursor(v, e, w), w) < Pow2(w)
  {
    NextCursorBlock(v, e, w);
    ReverseSplit(v, e, w - e);
    ReverseBound(High(v, e), w - e);
    ReverseBound(NextCursor(v, e, w), w);
    ProductOrder(Reverse(v, e), 0, Pow2(w - e));
  }

  /** Covering one table: a hash at or after the cursor is in the cursor's bucket or at or after the next cursor. */
  lemma {:induction false} BucketOrLater(v: nat, h: nat, e: nat, w: nat)
    requires e <= w && Reverse(v, w) <= Reverse(h, w)
    ensures Low(h, e) == Low(v, e) || (NextCursor(v, e, w) != 0 && Reverse(NextCursor(v, e, w), w) <= Reverse(h, w))
  {
    BlockOrder(v, h, e, w);
    NextCursorBlock(v, e, w);
    ReverseBound(h, e);
    if Reverse(v, e) == Reverse(h, e) {
      ReverseInjective(v, h, e);
    }
  }

  // ---- The loop over the larger table ----

  /** Visit the larger table's buckets from the cursor until the bits between the two masks are zero again. */
  function LargeLoop<K, V>(v: nat, e0: nat, e1: nat, w: nat, buckets: seq<seq<Entry<K, V>>>): (nat, seq<Entry<K, V>>)
    requires e0 <= e1 <= w && |buckets| == Pow2(e1)
    decreases Pow2(w) - Reverse(v, w)
  {
    LowBound(v, e1);
    var c := buckets[Low(v, e1)];
    var v' := NextCursor(v, e1, w);
    NextCursorProgress(v, e1, w);
    ReverseOfZero(e0);
    ReverseOfZero(e1);
    if Low(v', e1) == Low(v', e0) then (v', c)
    else var (u, rest) := LargeLoop(v', e0, e1, w, buckets); (u, c + rest)
  }

  lemma {:induction false} LargeLoopCovers<K, V>(v: nat, e0: nat, e1: nat, w: nat, buckets: seq<seq<Entry<K, V>>>,
      h: nat, e: Entry<K, V>)
    requires e0 <= e1 <= w && |buckets| == Pow2(e1)
    requires Reverse(v, w) <= Reverse(h, w) && Low(h, e1) < |buckets| && e in buckets[Low(h, e1)]
    ensures var (u, out) := LargeLoop(v, e0, e1, w, buckets); e in out || (u != 0 && Reverse(u, w) <= Reverse(h, w))
    decreases Pow2(w) - Reverse(v, w)
  {
    LowBound(v, e1);
    BucketOrLater(v, h, e1, w);
    NextCursorProgress(v, e1, w);
    var v' := NextCursor(v, e1, w);
    if Low(h, e1) != Low(v, e1) && Low(v', e1) != Low(v', e0) {
      LargeLoopCovers(v', e0, e1, w, buckets, h, e);
    }
  }

  lemma {:induction false} LowSplit(v: nat, a: nat, b: nat)
    ensures Low(v, a + b) == Low(v, a) + Pow2(a) * Low(High(v, a), b)
    decreases a
  {
    if a > 0 {
      LowSplit(v / 2, a - 1, b);
      var x := Low(High(v, a), b);
      assert x == Low(High(v / 2, a - 1), b);
      Doubled(Pow2(a - 1), x);
    }
  }

  lemma {:induction false} Doubled(p: nat, x: nat)
    ensures 2 * p * x == 2 * (p * x)
  {
  }

  /** The bits between two masks are zero exactly when the reversed block is a multiple of the step. */
  lemma {:induction false} MiddleBits(v: nat, e0: nat, d: nat)
    ensures Low(v, e0 + d) == Low(v, e0) <==> Reverse(High(v, e0), d) == 0
  {
    LowSplit(v, e0, d);
    var x := High(v, e0);
    ReverseOfZero(d);
    ReverseLow(x, d);
    if Low(x, d) > 0 {
      AtLeastOnce(Low(x, d), Pow2(e0));
      if Reverse(x, d) == 0 {
        ReverseInjective(x, 0, d);
      }
    }
  }

  /** When the larger table's last block has been visited, so has the smaller table's. */
  lemma {:induction false} CoarseEnd(v: nat, e0: nat, d: nat)
    requires Reverse(v, e0 + d) + 1 == Pow2(e0 + d)
    ensures Reverse(v, e0) + 1 == Pow2(e0)
  {
    ReverseSplit(v, e0, d);
    ReverseBound(High(v, e0), d);
    ReverseBound(v, e0);
    Pow2Add(e0, d);
    LastBlock(Reverse(v, e0), Reverse(High(v, e0), d), Pow2(e0), Pow2(d));
  }

  /** Moving to the next fine block keeps the coarse block unless the middle bits wrap to zero. */
  lemma {:induction false} CoarseAdvance(v: nat, v': nat, e0: nat, d: nat)
    requires Reverse(v', e0 + d) == Reverse(v, e0 + d) + 1
    ensures if Low(v', e0 + d) != Low(v', e0) then Reverse(v', e0) == Reverse(v, e0)
            else Reverse(v', e0) == Reverse(v, e0) + 1 && Reverse(v', e0 + d) == (Reverse(v, e0) + 1) * Pow2(d)
  {
    ReverseSplit(v, e0, d);
    ReverseSplit(v', e0, d);
    ReverseBound(High(v, e0), d);
    ReverseBound(High(v', e0), d);
    MiddleBits(v', e0, d);
    Carry(Reverse(v, e0), Reverse(High(v, e0), d), Reverse(v', e0), Reverse(High(v', e0), d), Pow2(d));
  }

  lemma {:induction false} FlattenBlock(n: nat, d: nat, f: nat)
    ensures (n * Pow2(d)) * Pow2(f) == n * Pow2(d + f)
  {
    Pow2Add(d, f);
    assert (n * Pow2(d)) * Pow2(f) == n * (Pow2(d) * Pow2(f));
  }

  /** One step in the larger table: the coarse block changes exactly when the loop stops. */
  lemma {:induction false} CoarseStep(v: nat, e0: nat, e1: nat, w: nat)
    requires e0 <= e1 <= w
    ensures var v' := NextCursor(v, e1, w);
            if Low(v', e1) != Low(v', e0) then v' != 0 && Reverse(v', e0) == Reverse(v, e0)
            else if Reverse(v, e0) + 1 == Pow2(e0) then v' == 0
            else v' != 0 && Reverse(v', w) == (Reverse(v, e0) + 1) * Pow2(w - e0)
  {
    var d := e1 - e0;
    var v' := NextCursor(v, e1, w);
    NextCursorBlock(v, e1, w);
    if v' == 0 {
      ReverseOfZero(e0);
      ReverseOfZero(e1);
      CoarseEnd(v, e0, d);
    } else {
      BlockNumber(v', Reverse(v, e1) + 1, e1, w);
      CoarseAdvance(v, v', e0, d);
      ReverseBound(v', e0);
      FlattenBlock(Reverse(v, e0) + 1, d, w - e1);
    }
  }

  /** A word whose reversal starts block n of a table has block number n. */
  lemma {:induction false} BlockNumber(v: nat, n: nat, e: nat, w: nat)
    requires e <= w && Reverse(v, w) == n * Pow2(w - e)
    ensures Reverse(v, e) == n
  {
    var f := w - e;
    ReverseSplit(v, e, f);
    ReverseBound(High(v, e), f);
    var r := Reverse(High(v, e), f);
    Join(Reverse(v, e), r, f);
    Join(n, 0, f);
  }

  /** The loop ends at the start of the next block of the smaller table. */
  lemma {:induction false} LargeLoopEnds<K, V>(v: nat, e0: nat, e1: nat, w: nat, buckets: seq<seq<Entry<K, V>>>)
    requires e0 <= e1 <= w && |buckets| == Pow2(e1)
    ensures var u := LargeLoop(v, e0, e1, w, buckets).0;
            if Reverse(v, e0) + 1 == Pow2(e0) then u == 0
            else u != 0 && Reverse(u, w) == (Reverse(v, e0) + 1) * Pow2(w - e0)
    decreases Pow2(w) - Reverse(v, w)
  {
    NextCursorProgress(v, e1, w);
    CoarseStep(v, e0, e1, w);
    var v' := NextCursor(v, e1, w);
    if Low(v', e1) != Low(v', e0) {
      LargeLoopEnds(v', e0, e1, w, buckets);
    }
  }

  // ---- One call of `dictScan` ----

  ghost predicate Scannable<K, V>(s: State<K, V>) {
    StateShape(s) && (s.t0.used + s.t1.used != 0 ==> s.t0.exp != -1)
  }

  lemma {:induction false} InvScannable<K(!new), V>(hash: K -> nat, s: State<K, V>)
    requires Inv(hash, s)
    ensures Scannable(s)
  {
  }

  /** The smaller and the larger of the two live tables. */
  function Ordered<K, V>(s: State<K, V>): (Table<K, V>, Table<K, V>) {
    if |s.t0.buckets| > |s.t1.buckets| then (s.t1, s.t0) else (s.t0, s.t1)
  }

  lemma {:induction false} OrderedExponents<K, V>(s: State<K, V>)
    requires StateShape(s) && Rehashing(s)
    ensures 0 <= Ordered(s).0.exp <= Ordered(s).1.exp <= 60
  {
    if s.t0.exp <= s.t1.exp {
      Pow2Monotone(s.t0.exp, s.t1.exp);
      if |s.t0.buckets| > |s.t1.buckets| {
        assert false;
      }
    } else {
      Pow2Monotone(s.t1.exp, s.t0.exp - 1);
    }
  }

  /** The new cursor and the entries emitted by one call on state `s` with cursor `v`. */
  ghost function Scan<K, V>(s: State<K, V>, v: nat, w: nat): (nat, seq<Entry<K, V>>)
    requires Scannable(s) && w >= 60
  {
    if s.t0.used + s.t1.used == 0 then (0, [])
    else if !Rehashing(s) then
      LowBound(v, s.t0.exp);
      (NextCursor(v, s.t0.exp, w), s.t0.buckets[Low(v, s.t0.exp)])
    else
      OrderedExponents(s);
      var (small, large) := Ordered(s);
      LowBound(v, small.exp);
      var (u, out) := LargeLoop(v, small.exp, large.exp, w, large.buckets);
      (u, small.buckets[Low(v, small.exp)] + out)
  }

  lemma {:induction false} ChainFindMember<K, V>(c: seq<Entry<K, V>>, k: K)
    requires ChainFind(c, k).Some?
    ensures Entry(k, ChainFind(c, k).value) in c
  {
    if c[0].key == k {
      assert c[0] == Entry(k, c[0].val);
    } else {
      ChainFindMember(c[1..], k);
    }
  }

  /** In the smaller table a hash at or after the cursor is in the cursor's bucket or after the loop's end. */
  lemma {:induction false} SmallCovers<K, V>(v: nat, e0: nat, e1: nat, w: nat, buckets: seq<seq<Entry<K, V>>>, h: nat)
    requires e0 <= e1 <= w && |buckets| == Pow2(e1) && Reverse(v, w) <= Reverse(h, w)
    ensures var u := LargeLoop(v, e0, e1, w, buckets).0;
            Low(h, e0) == Low(v, e0) || (u != 0 && Reverse(u, w) <= Reverse(h, w))
  {
    LargeLoopEnds(v, e0, e1, w, buckets);
    BlockOrder(v, h, e0, w);
    ReverseBound(h, e0);
    if Reverse(v, e0) == Reverse(h, e0) {
      ReverseInjective(v, h, e0);
    }
  }

  /** One call covers: an entry at or after the cursor is emitted, or is still at or after the new, non-zero cursor. */
  lemma {:induction false} ScanCovers<K(!new), V>(hash: K -> nat, s: State<K, V>, v: nat, w: nat, k: K)
    requires Inv(hash, s) && w >= 60
    requires Get(hash, s, k).Some? && Reverse(v, w) <= Reverse(hash(k), w)
    ensures Scannable(s)
    ensures var (u, out) := Scan(s, v, w);
            Entry(k, Get(hash, s, k).value) in out || (u != 0 && Reverse(u, w) <= Reverse(hash(k), w))
  {
    InvScannable(hash, s);
    var h := hash(k);
    var e := Entry(k, Get(hash, s, k).value);
    var t := if Lookup(hash, s.t0, k).Some? then s.t0 else s.t1;
    var c := t.buckets[Slot(hash, t, k)];
    ChainFindMember(c, k);
    HoldsEntry(hash, s, k);
    if !Rehashing(s) {
      BucketOrLater(v, h, s.t0.exp, w);
    } else {
      OrderedExponents(s);
      var (small, large) := Ordered(s);
      if t == large {
        LargeLoopCovers(v, small.exp, large.exp, w, large.buckets, h, e);
      } else {
        SmallCovers(v, small.exp, large.exp, w, large.buckets, h);
      }
    }
  }

  lemma {:induction false} HoldsEntry<K(!new), V>(hash: K -> nat, s: State<K, V>, k: K)
    requires Inv(hash, s) && Get(hash, s, k).Some?
    ensures s.t0.used + s.t1.used > 0
  {
    CountZero(s.t0.buckets);
    CountZero(s.t1.buckets);
  }

  /** Every call moves the reversed cursor strictly forward, so a scan cannot go round in circles. */
  lemma {:induction false} ScanProgress<K(!new), V>(hash: K -> nat, s: State<K, V>, v: nat, w: nat)
    requires Inv(hash, s) && w >= 60
    ensures Scannable(s)
    ensures var u := Scan(s, v, w).0; u == 0 || Reverse(v, w) < Reverse(u, w) < Pow2(w)
  {
    InvScannable(hash, s);
    if s.t0.used + s.t1.used != 0 {
      if !Rehashing(s) {
        NextCursorProgress(v, s.t0.exp, w);
      } else {
        OrderedExponents(s);
        var (small, large) := Ordered(s);
        LargeLoopProgress(v, small.exp, large.exp, w, large.buckets);
      }
    }
  }

  lemma {:induction false} LargeLoopProgress<K, V>(v: nat, e0: nat, e1: nat, w: nat, buckets: seq<seq<Entry<K, V>>>)
    requires e0 <= e1 <= w && |buckets| == Pow2(e1)
    ensures var u := LargeLoop(v, e0, e1, w, buckets).0; u == 0 || Reverse(v, w) < Reverse(u, w) < Pow2(w)
    decreases Pow2(w) - Reverse(v, w)
  {
    NextCursorProgress(v, e1, w);
    var v' := NextCursor(v, e1, w);
    if Low(v', e1) != Low(v', e0) {
      CoarseStep(v, e0, e1, w);
      LargeLoopProgress(v', e0, e1, w, buckets);
    }
  }

  lemma {:induction false} ChainHolds<K(!new), V>(hash: K -> nat, s: State<K, V>, t: Table<K, V>, i: nat,
      e: Entry<K, V>)
    requires Inv(hash, s) && (t == s.t0 || t == s.t1) && i < |t.buckets| && e in t.buckets[i]
    ensures Get(hash, s, e.key) == Some(e.val)
  {
    var j :| 0 <= j < |t.buckets[i]| && t.buckets[i][j] == e;
    ChainFindAt(t.buckets[i], j);
  }

  lemma {:induction false} LargeLoopSound<K, V>(v: nat, e0: nat, e1: nat, w: nat, buckets: seq<seq<Entry<K, V>>>,
      e: Entry<K, V>)
    requires e0 <= e1 <= w && |buckets| == Pow2(e1) && e in LargeLoop(v, e0, e1, w, buckets).1
    ensures exists i :: 0 <= i < |buckets| && e in buckets[i]
    decreases Pow2(w) - Reverse(v, w)
  {
    LowBound(v, e1);
    NextCursorProgress(v, e1, w);
    var v' := NextCursor(v, e1, w);
    if e !in buckets[Low(v, e1)] {
      CoarseStep(v, e0, e1, w);
      LargeLoopSound(v', e0, e1, w, buckets, e);
    }
  }

  /** A call emits only entries of the dictionary, with their current values. */
  lemma {:induction false} ScanSound<K(!new), V>(hash: K -> nat, s: State<K, V>, v: nat, w: nat, e: Entry<K, V>)
    requires Inv(hash, s) && w >= 60 && Scannable(s) && e in Scan(s, v, w).1
    ensures Get(hash, s, e.key) == Some(e.val)
  {
    if !Rehashing(s) {
      LowBound(v, s.t0.exp);
      ChainHolds(hash, s, s.t0, Low(v, s.t0.exp), e);
    } else {
      OrderedExponents(s);
      var (small, large) := Ordered(s);
      LowBound(v, small.exp);
      if e in small.buckets[Low(v, small.exp)] {
        ChainHolds(hash, s, small, Low(v, small.exp), e);
      } else {
        LargeLoopSound(v, small.exp, large.exp, w, large.buckets, e);
        var i :| 0 <= i < |large.buckets| && e in large.buckets[i];
        ChainHolds(hash, s, large, i, e);
      }
    }
  }

  // ---- Whole scans ----

  /**
   A complete scan: call i is made on states[i], a valid state reached from the previous one by any adds,
   deletes, expansions, shrinks and rehash steps; the cursors start at zero and the last call returns zero.
   */
  ghost predicate ScanRun<K(!new), V>(hash: K -> nat, states: seq<State<K, V>>, cursors: seq<nat>, w: nat) {
    && w >= 60
    && |cursors| == |states| + 1 && cursors[0] == 0 && |states| > 0
    && (forall i :: 0 <= i < |states| ==> Inv(hash, states[i]) && Scannable(states[i]))
    && (forall i :: 0 <= i < |states| ==> cursors[i + 1] == Scan(states[i], cursors[i], w).0)
    && cursors[|states|] == 0
  }

  /** The entry that state i holds for `k` is emitted by call i. */
  ghost predicate EmittedAt<K(!new), V>(hash: K -> nat, states: seq<State<K, V>>, cursors: seq<nat>, w: nat, k: K,
      i: nat)
    requires ScanRun(hash, states, cursors, w) && i < |states|
  {
    match Get(hash, states[i], k)
    case None => false
    case Some(x) => Entry(k, x) in Scan(states[i], cursors[i], w).1
  }

  /** Until a key has been emitted it lies at or after the reversed cursor. */
  lemma {:induction false} NotPassed<K(!new), V>(hash: K -> nat, states: seq<State<K, V>>, cursors: seq<nat>, w: nat,
      k: K, n: nat)
    requires ScanRun(hash, states, cursors, w) && n <= |states|
    requires forall i :: 0 <= i < |states| ==> Get(hash, states[i], k).Some?
    requires forall i :: 0 <= i < n ==> !EmittedAt(hash, states, cursors, w, k, i)
    ensures Reverse(cursors[n], w) <= Reverse(hash(k), w)
    ensures n > 0 ==> cursors[n] != 0
  {
    if n == 0 {
      ReverseOfZero(w);
    } else {
      NotPassed(hash, states, cursors, w, k, n - 1);
      ScanCovers(hash, states[n - 1], cursors[n - 1], w, k);
      assert !EmittedAt(hash, states, cursors, w, k, n - 1);
    }
  }

  /** Every entry present for the whole scan is emitted by some call of it. */
  lemma {:induction false} ScanComplete<K(!new), V>(hash: K -> nat, states: seq<State<K, V>>, cursors: seq<nat>,
      w: nat, k: K)
    requires ScanRun(hash, states, cursors, w)
    requires forall i :: 0 <= i < |states| ==> Get(hash, states[i], k).Some?
    ensures exists i :: 0 <= i < |states| && EmittedAt(hash, states, cursors, w, k, i)
  {
    if forall i :: 0 <= i < |states| ==> !EmittedAt(hash, states, cursors, w, k, i) {
      NotPassed(hash, states, cursors, w, k, |states|);
    }
  }

  // ---- The code ----

  /** Hand every entry of a chain to the callback, in order. */
  method EmitChain<K, V>(c: seq<Entry<K, V>>, out: seq<Entry<K, V>>) returns (out': seq<Entry<K, V>>)
    ensures out' == out + c
  {
    out' := out;
    var de := c;
    while de != []
      invariant out' + de == out + c
      decreases |de|
    {
      out' := out' + [de[0]];
      de := de[1..];
    }
  }

  lemma {:induction false} AllOnes(bits: seq<bool>)
    requires forall i :: 0 <= i < |bits| ==> bits[i]
    ensures Number(bits) == Pow2(|bits|) - 1
    decreases |bits|
  {
    if bits != [] { AllOnes(bits[1..]); }
  }

  /** Setting the bits from e on, as numbers. */
  lemma {:induction false} SetAboveBits(a: seq<bool>, b: seq<bool>, e: nat)
    requires |a| == |b| && e <= |a| && forall i :: 0 <= i < |a| ==> b[i] == (i >= e || a[i])
    ensures Number(b) == SetAbove(Number(a), e, |a|)
    decreases e
  {
    if e == 0 {
      AllOnes(b);
    } else {
      SetAboveBits(a[1..], b[1..], e - 1);
      var n, x := Number(a), Pow2(|a| - e) - 1;
      assert n / 2 == Number(a[1..]) && n % 2 == (if a[0] then 1 else 0);
      assert x * Pow2(e) == 2 * (x * Pow2(e - 1));
    }
  }

  /** The number of a register goes up by one and wraps around. */
  method Increment(v: Register, ghost w: nat) returns (v': Register)
    requires w == 64
    ensures Number(v') == (Number(v) + 1) % Pow2(w)
  {
    var n := (Number(v) + 1) % Pow2(64);
    NumberBinary(n, w);
    v' := Binary(n, 64);
  }

  lemma {:induction false} NextCursorFrom(v: nat, e: nat, w: nat, n: nat)
    requires e <= w && n == SetAbove(v, e, w)
    ensures NextCursor(v, e, w) == Reverse((Reverse(n, w) + 1) % Pow2(w), w)
  {
  }

  /** The same on the bits of a 64-bit cursor, with `rev` as the code computes it. */
  method BumpRegister(v: Register, e: nat, ghost w: nat) returns (v': Register)
    requires e <= w && w == 64
    ensures Number(v') == NextCursor(Number(v), e, w)
  {
    v' := SetFrom(v, e, w);
    ghost var n := Number(v');
    NextCursorFrom(Number(v), e, w, n);
    v' := BumpReversed(v', n, w);
  }

  method BumpReversed(v: Register, ghost n: nat, ghost w: nat) returns (v': Register)
    requires w == 64 && Number(v) == n
    ensures Number(v') == Reverse((Reverse(n, w) + 1) % Pow2(w), w)
  {
    v' := RevNumber(v, w);
    v' := Increment(v', w);
    v' := RevNumber(v', w);
  }

  method RevNumber(v: Register, ghost w: nat) returns (v': Register)
    requires w == 64
    ensures Number(v') == Reverse(Number(v), w)
  {
    v' := Rev(v);
  }

  /** `v |= ~m` with the low e bits in m. */
  method SetFrom(v: Register, e: nat, ghost w: nat) returns (v': Register)
    requires e <= 64 && w == 64
    ensures Number(v') == SetAbove(Number(v), e, w)
  {
    v' := Or(v, Not(seq(64, i => i < e)));
    SetAboveBits(v, v', e);
  }

  /** A cursor has the 64 bits of an unsigned long; `Inside` opens the statement. */
  ghost predicate WordWide(w: nat) {
    forall k: int {:trigger Inside(k)} :: Inside(k) ==> w == 64
  }

  /** `v |= ~m; v = rev(v); v++; v = rev(v);` on a cursor held as a number. */
  method BumpCursor(v: nat, e: nat, w: nat) returns (v': nat)
    requires e <= w && WordWide(w) && v < Pow2(w)
    ensures v' == NextCursor(v, e, w) && v' < Pow2(w)
  {
    assert Inside(0);
    NumberBinary(v, w);
    var r: Register := Binary(v, w);
    r := BumpRegister(r, e, w);
    NumberBound(r);
    v' := Number(r);
  }

  /** The do-while loop over the expansions of the cursor in the larger table. */
  method ScanLarge<K, V>(v0: nat, e0: nat, e1: nat, w: nat, buckets: seq<seq<Entry<K, V>>>, out0: seq<Entry<K, V>>)
      returns (v: nat, out: seq<Entry<K, V>>)
    requires e0 <= e1 <= w && WordWide(w) && v0 < Pow2(w) && |buckets| == Pow2(e1)
    ensures v == LargeLoop(v0, e0, e1, w, buckets).0
    ensures out == out0 + LargeLoop(v0, e0, e1, w, buckets).1
  {
    v, out := v0, out0;
    ghost var whole := LargeLoop(v0, e0, e1, w, buckets);
    while true
      invariant v < Pow2(w) && LargeLoop(v, e0, e1, w, buckets).0 == whole.0
      invariant out + LargeLoop(v, e0, e1, w, buckets).1 == out0 + whole.1
      decreases Pow2(w) - Reverse(v, w)
    {
      LowBound(v, e1);
      NextCursorProgress(v, e1, w);
      CoarseStep(v, e0, e1, w);
      out := EmitChain(buckets[Low(v, e1)], out);
      v := BumpCursor(v, e1, w);
      if Low(v, e1) == Low(v, e0) {
        return;
      }
    }
  }

  /** `dictScan` on cursors of 64 bits, with a callback that only records the entries it is given. */
  method ScanCall<K(!new, ==), V(!new)>(d: Dict<K, V>, v0: nat, w: nat) returns (v: nat, out: seq<Entry<K, V>>)
    requires d.Valid() && w >= 60 && WordWide(w) && v0 < Pow2(w)
    modifies d`pauserehash
    ensures d.Valid() && d.pauserehash == old(d.pauserehash)
    ensures Scannable(d.S()) && v == Scan(d.S(), v0, w).0 && out == Scan(d.S(), v0, w).1
  {
    ghost var s := d.S();
    InvScannable(d.hash, s);
    if d.t0.used + d.t1.used == 0 {
      return 0, [];
    }
    d.pauserehash := d.pauserehash + 1;
    v, out := ScanTables(s, d.t0, d.t1, d.rehashidx, v0, w);
    d.pauserehash := d.pauserehash - 1;
  }

  method ScanTables<K, V>(ghost s: State<K, V>, t0: Table<K, V>, t1: Table<K, V>, rehashidx: int, v0: nat, w: nat)
      returns (v: nat, out: seq<Entry<K, V>>)
    requires s == State(t0, t1, rehashidx) && Scannable(s) && w >= 60 && WordWide(w) && v0 < Pow2(w)
      && t0.used + t1.used != 0
    ensures v == Scan(s, v0, w).0 && out == Scan(s, v0, w).1
  {
    if rehashidx == -1 {
      LowBound(v0, t0.exp);
      out := EmitChain(t0.buckets[Low(v0, t0.exp)], []);
      v := BumpCursor(v0, t0.exp, w);
    } else {
      OrderedExponents(s);
      var small, large := t0, t1;
      if |small.buckets| > |large.buckets| {
        small, large := t1, t0;
      }
      v, out := ScanBoth(small, large, v0, w);
    }
  }

  /** The bucket of the smaller table, then its expansions in the larger one. */
  method ScanBoth<K, V>(small: Table<K, V>, large: Table<K, V>, v0: nat, w: nat) returns (v: nat, out: seq<Entry<K, V>>)
    requires 0 <= small.exp <= large.exp <= w && WordWide(w) && v0 < Pow2(w)
    requires |small.buckets| == Pow2(small.exp) && |large.buckets| == Pow2(large.exp)
    ensures Low(v0, small.exp) < |small.buckets|
    ensures var r := LargeLoop(v0, small.exp, large.exp, w, large.buckets);
      v == r.0 && out == small.buckets[Low(v0, small.exp)] + r.1
  {
    LowBound(v0, small.exp);
    out := EmitChain(small.buckets[Low(v0, small.exp)], []);
    v, out := ScanLarge(v0, small.exp, large.exp, w, large.buckets, out);
  }
}

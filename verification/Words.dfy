/**
 Unsigned words as the hash table uses them. A word is a natural number read bit by bit: `Low(v, e)`
 is `v & ((1 << e) - 1)`, `High(v, e)` is `v >> e` and `Reverse(v, w)` is the w-bit reversal that
 the scan cursor is counted in.
 */
module Words {
  function Pow2(e: nat): (p: nat)
    ensures p > 0
  {
    if e == 0 then 1 else 2 * Pow2(e - 1)
  }

  /** The low `e` bits of `v`. */
  function Low(v: nat, e: nat): nat
    decreases e
  {
    if e == 0 then 0 else v % 2 + 2 * Low(v / 2, e - 1)
  }

  /** `v` without its low `e` bits, shifted down. */
  function High(v: nat, e: nat): nat
    decreases e
  {
    if e == 0 then v else High(v / 2, e - 1)
  }

  /** The low `w` bits of `v` in the opposite order. */
  function Reverse(v: nat, w: nat): nat
    decreases w
  {
    if w == 0 then 0 else (v % 2) * Pow2(w - 1) + Reverse(v / 2, w - 1)
  }

  lemma {:induction false} Pow2Add(a: nat, b: nat)
    ensures Pow2(a + b) == Pow2(a) * Pow2(b)
  {
    if a > 0 { Pow2Add(a - 1, b); }
  }

  lemma {:induction false} Pow2Monotone(a: nat, b: nat)
    requires a <= b
    ensures Pow2(a) <= Pow2(b)
  {
    if a < b { Pow2Monotone(a, b - 1); }
  }

  lemma {:induction false} LowBound(v: nat, e: nat)
    ensures Low(v, e) < Pow2(e)
    decreases e
  {
    if e > 0 { LowBound(v / 2, e - 1); }
  }

  /** A number below 2^e keeps all its bits under the mask. */
  lemma {:induction false} LowWhole(v: nat, e: nat)
    requires v < Pow2(e)
    ensures Low(v, e) == v
    decreases e
  {
    if e > 0 { LowWhole(v / 2, e - 1); }
  }

  /** Joining a high part and a low part and then splitting gives the parts back. */
  lemma {:induction false} Join(a: nat, b: nat, k: nat)
    requires b < Pow2(k)
    ensures Low(a * Pow2(k) + b, k) == b
    ensures High(a * Pow2(k) + b, k) == a
    decreases k
  {
    if k > 0 {
      var x := a * Pow2(k) + b;
      assert x == 2 * (a * Pow2(k - 1)) + b by {
        assert a * Pow2(k) == a * (2 * Pow2(k - 1)) == 2 * (a * Pow2(k - 1));
      }
      assert x % 2 == b % 2 && x / 2 == a * Pow2(k - 1) + b / 2;
      Join(a, b / 2, k - 1);
    }
  }

  lemma {:induction false} ReverseBound(v: nat, w: nat)
    ensures Reverse(v, w) < Pow2(w)
    decreases w
  {
    if w > 0 {
      ReverseBound(v / 2, w - 1);
      Once(v % 2, Pow2(w - 1));
    }
  }

  lemma {:induction false} Once(b: nat, p: nat)
    requires b < 2
    ensures b * p == if b == 0 then 0 else p
  {
  }

  /** The reversal of e+f bits is the reversal of the low e bits above the reversal of the rest. */
  lemma {:induction false} ReverseSplit(v: nat, e: nat, f: nat)
    ensures Reverse(v, e + f) == Reverse(v, e) * Pow2(f) + Reverse(High(v, e), f)
    decreases e
  {
    if e > 0 {
      ReverseSplit(v / 2, e - 1, f);
      Pow2Add(e - 1, f);
      SplitStep(v % 2, Pow2(e - 1), Pow2(f), Reverse(v / 2, e - 1), Pow2(e - 1 + f), Reverse(High(v, e), f),
        Reverse(v / 2, e - 1 + f), Reverse(v, e), Reverse(v, e + f));
    }
  }

  lemma {:induction false} SplitStep(b: nat, p: nat, q: nat, r: nat, pq: nat, h: nat, below: nat, low: nat, whole: nat)
    requires pq == p * q && below == r * q + h && low == b * p + r && whole == b * pq + below
    ensures whole == low * q + h
  {
    Distribute(b, p, q, r);
  }

  lemma {:induction false} Distribute(b: nat, p: nat, q: nat, r: nat)
    ensures b * (p * q) + r * q == (b * p + r) * q
  {
    calc {
      (b * p + r) * q;
      (b * p) * q + r * q;
    }
  }

  lemma {:induction false} ReverseLow(v: nat, e: nat)
    ensures Reverse(Low(v, e), e) == Reverse(v, e)
    decreases e
  {
    if e > 0 {
      assert Low(v, e) % 2 == v % 2 && Low(v, e) / 2 == Low(v / 2, e - 1);
      ReverseLow(v / 2, e - 1);
    }
  }

  /** Reversing twice gives the masked word back. */
  lemma {:induction false} ReverseInvolution(v: nat, w: nat)
    ensures Reverse(Reverse(v, w), w) == Low(v, w)
    decreases w
  {
    if w > 0 {
      ReverseTop(v, w);
      ReverseLow(Reverse(v, w), w - 1);
      ReverseInvolution(v / 2, w - 1);
    }
  }

  /** The lowest bit goes to the top: below it stands the reversal of the other bits. */
  lemma {:induction false} ReverseTop(v: nat, w: nat)
    requires w > 0
    ensures var x := Reverse(v, w);
      Low(x, w - 1) == Reverse(v / 2, w - 1) && Reverse(x, w) == Reverse(x, w - 1) * 2 + v % 2
  {
    var x, y := Reverse(v, w), Reverse(v / 2, w - 1);
    ReverseBound(v / 2, w - 1);
    Join(v % 2, y, w - 1);
    ReverseSplit(x, w - 1, 1);
    OneBit(v % 2);
  }

  lemma {:induction false} OneBit(b: nat)
    requires b < 2
    ensures Pow2(1) == 2 && Reverse(b, 1) == b
  {
    assert Pow2(0) == 1 && Reverse(b / 2, 0) == 0;
  }

  lemma {:induction false} ReverseOnes(f: nat)
    ensures Reverse(Pow2(f) - 1, f) == Pow2(f) - 1
  {
    if f > 0 {
      assert (Pow2(f) - 1) % 2 == 1 && (Pow2(f) - 1) / 2 == Pow2(f - 1) - 1;
      ReverseOnes(f - 1);
    }
  }

  /** Two words with the same reversed low e bits agree on those bits. */
  lemma {:induction false} ReverseInjective(u: nat, v: nat, e: nat)
    requires Reverse(u, e) == Reverse(v, e)
    ensures Low(u, e) == Low(v, e)
  {
    ReverseInvolution(u, e);
    ReverseInvolution(v, e);
  }

  // ---- The bit trick of `rev` ----

  /** A machine register: bit i of the word at index i. */
  type Register = r: seq<bool> | |r| == 64 witness seq(64, _ => false)

  function Number(bits: seq<bool>): nat {
    if bits == [] then 0 else (if bits[0] then 1 else 0) + 2 * Number(bits[1..])
  }

  function Shr(v: Register, s: nat): Register
    requires s <= 64
  {
    seq(64, i requires 0 <= i < 64 => i + s < 64 && v[i + s])
  }

  function Shl(v: Register, s: nat): Register
    requires s <= 64
  {
    seq(64, i requires 0 <= i < 64 => i >= s && v[i - s])
  }

  function And(a: Register, b: Register): Register {
    seq(64, i requires 0 <= i < 64 => a[i] && b[i])
  }

  function Or(a: Register, b: Register): Register {
    seq(64, i requires 0 <= i < 64 => a[i] || b[i])
  }

  function Xor(a: Register, b: Register): Register {
    seq(64, i requires 0 <= i < 64 => a[i] != b[i])
  }

  function Not(a: Register): Register {
    seq(64, i requires 0 <= i < 64 => !a[i])
  }

  /** A field width that tiles the register: 2s divides 64. */
  predicate FieldWidth(s: nat) {
    s == 32 || s == 16 || s == 8 || s == 4 || s == 2 || s == 1
  }

  /** Bit i lies in the lower field of a pair of w-bit fields: the bits that the swap mask selects. */
  predicate LowerField(i: int, w: nat)
    requires w > 0
  {
    i % (2 * w) < w
  }

  /** Where bit i comes from once all fields of at least w bits have been exchanged. */
  function Source(i: int, w: nat): int
    requires w > 0
  {
    64 - w - i + 2 * (i % w)
  }

  lemma {:induction false} AtLeastOnce(d: int, w: int)
    requires d >= 1 && w >= 0
    ensures d * w >= w
  {
    assert d * w == w + (d - 1) * w;
    assert (d - 1) * w >= 0;
  }

  lemma {:induction false} ModUnique(i: int, q: int, w: int, r: int)
    requires 0 <= r < w && i == q * w + r
    ensures i % w == r
  {
    var d := i / w - q;
    assert d * w == (i / w) * w - q * w;
    assert d * w == r - i % w;
    if d >= 1 {
      AtLeastOnce(d, w);
    } else if d <= -1 {
      assert (-d) * w == -(d * w);
      AtLeastOnce(-d, w);
    }
  }

  /** The two fields of a pair: adding or dropping one field width stays in the pair. */
  lemma {:induction false} PairOfFields(i: int, w: nat)
    requires w > 0
    ensures LowerField(i, w) ==> i % w == i % (2 * w) && (i + w) % (2 * w) == i % w + w
    ensures !LowerField(i, w) ==> i % w == i % (2 * w) - w && (i - w) % (2 * w) == i % w
  {
    var q, r := i / (2 * w), i % (2 * w);
    assert i == q * (2 * w) + r == (2 * q) * w + r;
    if LowerField(i, w) {
      ModUnique(i, 2 * q, w, r);
      ModUnique(i + w, q, 2 * w, r + w);
    } else {
      assert i == (2 * q + 1) * w + (r - w);
      ModUnique(i, 2 * q + 1, w, r - w);
      ModUnique(i - w, q, 2 * w, r - w);
    }
  }

  /** Halving the field width splits every field of the swap mask. */
  lemma {:induction false} MaskStep(s: nat, i: int)
    requires s > 0
    ensures LowerField(i, s) == (LowerField(i, 2 * s) != LowerField(i - s, 2 * s))
  {
    var q, r := i / (4 * s), i % (4 * s);
    MaskAt(s, i, q, r);
    if r < s {
      ModUnique(i - s, q - 1, 4 * s, r + 3 * s);
    } else {
      ModUnique(i - s, q, 4 * s, r - s);
    }
  }

  /** The place in a field of twice the width gives the place in the field. */
  lemma {:induction false} MaskAt(s: nat, i: int, q: int, r: int)
    requires s > 0 && i == q * (4 * s) + r && 0 <= r < 4 * s
    ensures i % (2 * s) == if r < 2 * s then r else r - 2 * s
  {
    assert q * (4 * s) == (2 * q) * (2 * s);
    if r < 2 * s {
      ModUnique(i, 2 * q, 2 * s, r);
    } else {
      ModUnique(i, 2 * q + 1, 2 * s, r - 2 * s);
    }
  }

  lemma {:induction false} FieldInRegister(s: nat, i: nat)
    requires FieldWidth(s) && i < 64
    ensures LowerField(i, s) ==> i + s < 64
    ensures !LowerField(i, s) ==> i >= s
  {
    if s == 32 {
      assert LowerField(i, s) == (i % 64 < 32);
    } else if s == 16 {
      assert LowerField(i, s) == (i % 32 < 16);
    } else if s == 8 {
      assert LowerField(i, s) == (i % 16 < 8);
    } else if s == 4 {
      assert LowerField(i, s) == (i % 8 < 4);
    } else if s == 2 {
      assert LowerField(i, s) == (i % 4 < 2);
    } else {
      assert LowerField(i, s) == (i % 2 < 1);
    }
  }

  /** Exchanging fields of s bits moves every source by one field. */
  lemma {:induction false} SourceStep(s: nat, i: nat)
    requires FieldWidth(s) && i < 64
    ensures LowerField(i, s) ==> i + s < 64 && Source(i, s) == Source(i + s, 2 * s)
    ensures !LowerField(i, s) ==> i >= s && Source(i, s) == Source(i - s, 2 * s)
  {
    FieldInRegister(s, i);
    PairOfFields(i, s);
  }

  predicate MaskFor(mask: Register, w: nat)
    requires w > 0
  {
    forall i :: 0 <= i < 64 ==> mask[i] == LowerField(i, w)
  }

  /** Every bit of v has come from where it should, with fields of w bits still whole. */
  predicate Moved(v0: Register, v: Register, w: nat)
    requires w > 0
  {
    forall i :: 0 <= i < 64 ==> 0 <= Source(i, w) < 64 && v[i] == v0[Source(i, w)]
  }

  method NextMask(mask: Register, s: nat) returns (mask': Register)
    requires FieldWidth(s) && MaskFor(mask, 2 * s)
    ensures MaskFor(mask', s)
  {
    mask' := Xor(mask, Shl(mask, s));
    forall i | 0 <= i < 64 ensures mask'[i] == LowerField(i, s) {
      MaskStep(s, i);
      if i < s { ModUnique(i - s, -1, 4 * s, i + 3 * s); }
    }
  }

  lemma {:induction false} SwappedAt(v: Register, mask: Register, s: nat, i: nat)
    requires FieldWidth(s) && i < 64 && mask[i] == LowerField(i, s)
    requires if LowerField(i, s) then i + s < 64 else i >= s
    ensures Or(And(Shr(v, s), mask), And(Shl(v, s), Not(mask)))[i] == if LowerField(i, s) then v[i + s] else v[i - s]
  {
  }

  method SwapFields(ghost v0: Register, v: Register, mask: Register, s: nat) returns (v': Register)
    requires FieldWidth(s) && MaskFor(mask, s) && Moved(v0, v, 2 * s)
    ensures Moved(v0, v', s)
  {
    v' := Or(And(Shr(v, s), mask), And(Shl(v, s), Not(mask)));
    forall i | 0 <= i < 64 ensures 0 <= Source(i, s) < 64 && v'[i] == v0[Source(i, s)] {
      SourceStep(s, i);
      SwappedAt(v, mask, s, i);
    }
  }

  lemma {:induction false} RevStart(v: Register)
    ensures MaskFor(seq(64, _ => true), 64) && Moved(v, v, 64)
  {
    forall i | 0 <= i < 64 ensures LowerField(i, 64) && Source(i, 64) == i {
      assert i % 128 == i && i % 64 == i;
    }
  }

  lemma {:induction false} HalfWidth(s: nat)
    requires FieldWidth(s)
    ensures s / 2 > 0 ==> FieldWidth(s / 2) && s == 2 * (s / 2)
    ensures s / 2 == 0 ==> s == 1
  {
  }

  /** `rev`: exchanging fields of 32, 16, 8, 4, 2 and 1 bits reverses the whole register. */
  method Rev(v0: Register) returns (v: Register)
    ensures forall i :: 0 <= i < 64 ==> v[i] == v0[63 - i]
    ensures Number(v) == Reverse(Number(v0), |v0|)
  {
    var s: nat := 64;
    var mask: Register := seq(64, _ => true);
    v := v0;
    ghost var w := s;
    RevStart(v0);
    s := s / 2;
    while s > 0
      invariant if s > 0 then FieldWidth(s) && w == 2 * s else w == 1
      invariant MaskFor(mask, w) && Moved(v0, v, w)
      decreases s
    {
      mask := NextMask(mask, s);
      v := SwapFields(v0, v, mask, s);
      w := s;
      HalfWidth(s);
      s := s / 2;
    }
    Reversed(v0, v);
  }

  lemma {:induction false} Reversed(v0: Register, v: Register)
    requires Moved(v0, v, 1)
    ensures forall i :: 0 <= i < 64 ==> v[i] == v0[63 - i]
    ensures Number(v) == Reverse(Number(v0), |v0|)
  {
    forall i | 0 <= i < 64 ensures v[i] == v0[63 - i] {
      assert Source(i, 1) == 63 - i;
    }
    NumberReversed(v0, v);
  }

  lemma {:induction false} NumberSnoc(bits: seq<bool>, b: bool)
    ensures Number(bits + [b]) == Number(bits) + (if b then Pow2(|bits|) else 0)
  {
    if bits == [] {
      assert bits + [b] == [b] && [b][1..] == [];
    } else {
      assert (bits + [b])[1..] == bits[1..] + [b];
      NumberSnoc(bits[1..], b);
    }
  }

  /** Reversing a register's bits reverses the word it holds. */
  lemma {:induction false} NumberReversed(a: seq<bool>, b: seq<bool>)
    requires |a| == |b|
    requires forall i :: 0 <= i < |a| ==> b[i] == a[|a| - 1 - i]
    ensures Number(b) == Reverse(Number(a), |a|)
  {
    if a != [] {
      var n := |a| - 1;
      NumberReversed(a[1..], b[..n]);
      NumberSnoc(b[..n], b[n]);
      assert b == b[..n] + [b[n]];
      LowestBit(a);
    }
  }

  lemma {:induction false} LowestBit(a: seq<bool>)
    requires a != []
    ensures Number(a) % 2 == (if a[0] then 1 else 0) && Number(a) / 2 == Number(a[1..])
  {
  }
}

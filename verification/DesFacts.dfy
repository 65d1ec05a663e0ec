/** Facts about the cipher's tables and the cipher itself, which the standard (FIPS 46-3) or its designers state. */
module DesFacts {
  import opened Words
  import opened BitStrings
  import opened DesTables
  import opened Des

  // ---- The bit selections ----

  /** The initial permutation, the expansion and the first choice of key bits in closed form. */
  lemma {:induction false} IpFormula(i: nat)
    requires i < 64
    ensures Ip(i) == (if i < 32 then 58 + i / 8 * 2 else 49 + i / 8 * 2) - i % 8 * 8
  {
  }

  lemma {:induction false} ExpandFormula(i: nat)
    requires i < 48
    ensures Expand(i) == (4 * (i / 6) + i % 6 + 31) % 32 + 1
  {
  }

  lemma {:induction false} Choose1Formula(i: nat)
    requires i < 56
    ensures Choose1(i) ==
      if i < 28 then 57 - i % 8 * 8 + i / 8
      else if i < 52 then 63 - (i - 28) % 8 * 8 - (i - 28) / 8
      else 28 - (i - 52) * 8
  {
  }

  lemma {:induction false} NoParity(i: nat)
    requires i < 56
    ensures Choose1(i) % 8 != 0
  {
  }

  lemma {:induction false} Choose1Apart(i: nat, j: nat)
    requires i < j < 56
    ensures Choose1(i) != Choose1(j)
  {
    Choose1Formula(i);
    Choose1Formula(j);
  }

  /** The eight bits of the key that are left out are the last ones of its bytes; no other bit is used twice. */
  lemma {:induction false} ParityUnused(i: nat, j: nat)
    requires i < j < 56
    ensures Choose1(i) % 8 != 0 && Choose1(j) % 8 != 0 && Choose1(i) != Choose1(j)
  {
    NoParity(i);
    NoParity(j);
    Choose1Apart(i, j);
  }

  /** The first 24 bits of a subkey come from the first half, the others from the second. */
  lemma {:induction false} Choose2Halves(i: nat)
    requires i < 48
    ensures if i < 24 then Choose2(i) <= 28 else Choose2(i) > 28
  {
  }

  lemma {:induction false} Choose2Apart(i: nat, j: nat)
    requires i < j < 48
    ensures Choose2(i) != Choose2(j)
  {
    if j < 24 { Choose2First(i, j); } else if i >= 24 { Choose2Second(i, j); }
      else { Choose2Halves(i); Choose2Halves(j); }
  }

  lemma {:induction false} Choose2First(i: nat, j: nat)
    requires i < j < 24
    ensures Choose2(i) != Choose2(j)
  {
  }

  lemma {:induction false} Choose2Second(i: nat, j: nat)
    requires 24 <= i < j < 48
    ensures Choose2(i) != Choose2(j)
  {
  }

  /** P is a permutation: no bit is taken twice. */
  lemma {:induction false} SpreadApart(i: nat, j: nat)
    requires i < j < 32
    ensures Spread(i) != Spread(j)
  {
  }

  /** The key halves turn by one place before the first two rounds, the ninth and the last, by two before the others. */
  lemma {:induction false} MovesFormula(i: nat)
    requires i < 16
    ensures Moves(i) == if i == 0 || i == 1 || i == 8 || i == 15 then 1 else 2
  {
  }

  // ---- The S boxes ----

  predicate Bit0(v: int) { v == 1 || v == 3 || v == 5 || v == 7 || v == 9 || v == 11 || v == 13 || v == 15 }
  predicate Bit1(v: int) { v == 2 || v == 3 || v == 6 || v == 7 || v == 10 || v == 11 || v == 14 || v == 15 }
  predicate Bit2(v: int) { 4 <= v < 8 || 12 <= v }
  predicate Bit3(v: int) { v >= 8 }

  lemma {:induction false} FourBits(v: int)
    requires 0 <= v < 16
    ensures Four(v) == [Bit3(v), Bit2(v), Bit1(v), Bit0(v)]
  {
  }

  /** At least two of the four output bits differ. */
  predicate TwoDiffer(v: int, w: int) {
    var p, q, r, s := Bit0(v) != Bit0(w), Bit1(v) != Bit1(w), Bit2(v) != Bit2(w), Bit3(v) != Bit3(w);
    (p && q) || (p && r) || (p && s) || (q && r) || (q && s) || (r && s)
  }

  lemma {:induction false} Flips1(a: bool, b: bool, c: bool, d: bool, e: bool, f: bool)
    ensures TwoDiffer(S1(a, b, c, d, e, f), S1(!a, b, c, d, e, f))
    ensures TwoDiffer(S1(a, b, c, d, e, f), S1(a, !b, c, d, e, f))
    ensures TwoDiffer(S1(a, b, c, d, e, f), S1(a, b, !c, d, e, f))
  {
  }

  lemma {:induction false} LowFlips1(a: bool, b: bool, c: bool, d: bool, e: bool, f: bool)
    ensures TwoDiffer(S1(a, b, c, d, e, f), S1(a, b, c, !d, e, f))
    ensures TwoDiffer(S1(a, b, c, d, e, f), S1(a, b, c, d, !e, f))
    ensures TwoDiffer(S1(a, b, c, d, e, f), S1(a, b, c, d, e, !f))
  {
  }

  lemma {:induction false} Pairs1(a: bool, b: bool, c: bool, d: bool, e: bool, f: bool, x: bool, y: bool)
    ensures TwoDiffer(S1(a, b, c, d, e, f), S1(a, b, !c, !d, e, f))
    ensures S1(a, b, c, d, e, f) != S1(!a, !b, x, y, e, f)
  {
  }

  lemma {:induction false} Rows1(a: bool, b: bool, c: bool, d: bool, e: bool, f: bool,
      b': bool, c': bool, d': bool, e': bool)
    requires (b, c, d, e) != (b', c', d', e')
    ensures S1(a, b, c, d, e, f) != S1(a, b', c', d', e', f)
  {
  }

  lemma {:induction false} Flips2(a: bool, b: bool, c: bool, d: bool, e: bool, f: bool)
    ensures TwoDiffer(S2(a, b, c, d, e, f), S2(!a, b, c, d, e, f))
    ensures TwoDiffer(S2(a, b, c, d, e, f), S2(a, !b, c, d, e, f))
    ensures TwoDiffer(S2(a, b, c, d, e, f), S2(a, b, !c, d, e, f))
  {
  }

  lemma {:induction false} LowFlips2(a: bool, b: bool, c: bool, d: bool, e: bool, f: bool)
    ensures TwoDiffer(S2(a, b, c, d, e, f), S2(a, b, c, !d, e, f))
    ensures TwoDiffer(S2(a, b, c, d, e, f), S2(a, b, c, d, !e, f))
    ensures TwoDiffer(S2(a, b, c, d, e, f), S2(a, b, c, d, e, !f))
  {
  }

  lemma {:induction false} Pairs2(a: bool, b: bool, c: bool, d: bool, e: bool, f: bool, x: bool, y: bool)
    ensures TwoDiffer(S2(a, b, c, d, e, f), S2(a, b, !c, !d, e, f))
    ensures S2(a, b, c, d, e, f) != S2(!a, !b, x, y, e, f)
  {
  }

  lemma {:induction false} Rows2(a: bool, b: bool, c: bool, d: bool, e: bool, f: bool,
      b': bool, c': bool, d': bool, e': bool)
    requires (b, c, d, e) != (b', c', d', e')
    ensures S2(a, b, c, d, e, f) != S2(a, b', c', d', e', f)
  {
  }

  lemma {:induction false} Flips3(a: bool, b: bool, c: bool, d: bool, e: bool, f: bool)
    ensures TwoDiffer(S3(a, b, c, d, e, f), S3(!a, b, c, d, e, f))
    ensures TwoDiffer(S3(a, b, c, d, e, f), S3(a, !b, c, d, e, f))
    ensures TwoDiffer(S3(a, b, c, d, e, f), S3(a, b, !c, d, e, f))
  {
  }

  lemma {:induction false} LowFlips3(a: bool, b: bool, c: bool, d: bool, e: bool, f: bool)
    ensures TwoDiffer(S3(a, b, c, d, e, f), S3(a, b, c, !d, e, f))
    ensures TwoDiffer(S3(a, b, c, d, e, f), S3(a, b, c, d, !e, f))
    ensures TwoDiffer(S3(a, b, c, d, e, f), S3(a, b, c, d, e, !f))
  {
  }

  lemma {:induction false} Pairs3(a: bool, b: bool, c: bool, d: bool, e: bool, f: bool, x: bool, y: bool)
    ensures TwoDiffer(S3(a, b, c, d, e, f), S3(a, b, !c, !d, e, f))
    ensures S3(a, b, c, d, e, f) != S3(!a, !b, x, y, e, f)
  {
  }

  lemma {:induction false} Rows3(a: bool, b: bool, c: bool, d: bool, e: bool, f: bool,
      b': bool, c': bool, d': bool, e': bool)
    requires (b, c, d, e) != (b', c', d', e')
    ensures S3(a, b, c, d, e, f) != S3(a, b', c', d', e', f)
  {
  }

  lemma {:induction false} Flips4(a: bool, b: bool, c: bool, d: bool, e: bool, f: bool)
    ensures TwoDiffer(S4(a, b, c, d, e, f), S4(!a, b, c, d, e, f))
    ensures TwoDiffer(S4(a, b, c, d, e, f), S4(a, !b, c, d, e, f))
    ensures TwoDiffer(S4(a, b, c, d, e, f), S4(a, b, !c, d, e, f))
  {
  }

  lemma {:induction false} LowFlips4(a: bool, b: bool, c: bool, d: bool, e: bool, f: bool)
    ensures TwoDiffer(S4(a, b, c, d, e, f), S4(a, b, c, !d, e, f))
    ensures TwoDiffer(S4(a, b, c, d, e, f), S4(a, b, c, d, !e, f))
    ensures TwoDiffer(S4(a, b, c, d, e, f), S4(a, b, c, d, e, !f))
  {
  }

  lemma {:induction false} Pairs4(a: bool, b: bool, c: bool, d: bool, e: bool, f: bool, x: bool, y: bool)
    ensures TwoDiffer(S4(a, b, c, d, e, f), S4(a, b, !c, !d, e, f))
    ensures S4(a, b, c, d, e, f) != S4(!a, !b, x, y, e, f)
  {
  }

  lemma {:induction false} Rows4(a: bool, b: bool, c: bool, d: bool, e: bool, f: bool,
      b': bool, c': bool, d': bool, e': bool)
    requires (b, c, d, e) != (b', c', d', e')
    ensures S4(a, b, c, d, e, f) != S4(a, b', c', d', e', f)
  {
  }

  lemma {:induction false} Flips5(a: bool, b: bool, c: bool, d: bool, e: bool, f: bool)
    ensures TwoDiffer(S5(a, b, c, d, e, f), S5(!a, b, c, d, e, f))
    ensures TwoDiffer(S5(a, b, c, d, e, f), S5(a, !b, c, d, e, f))
    ensures TwoDiffer(S5(a, b, c, d, e, f), S5(a, b, !c, d, e, f))
  {
  }

  lemma {:induction false} LowFlips5(a: bool, b: bool, c: bool, d: bool, e: bool, f: bool)
    ensures TwoDiffer(S5(a, b, c, d, e, f), S5(a, b, c, !d, e, f))
    ensures TwoDiffer(S5(a, b, c, d, e, f), S5(a, b, c, d, !e, f))
    ensures TwoDiffer(S5(a, b, c, d, e, f), S5(a, b, c, d, e, !f))
  {
  }

  lemma {:induction false} Pairs5(a: bool, b: bool, c: bool, d: bool, e: bool, f: bool, x: bool, y: bool)
    ensures TwoDiffer(S5(a, b, c, d, e, f), S5(a, b, !c, !d, e, f))
    ensures S5(a, b, c, d, e, f) != S5(!a, !b, x, y, e, f)
  {
  }

  lemma {:induction false} Rows5(a: bool, b: bool, c: bool, d: bool, e: bool, f: bool,
      b': bool, c': bool, d': bool, e': bool)
    requires (b, c, d, e) != (b', c', d', e')
    ensures S5(a, b, c, d, e, f) != S5(a, b', c', d', e', f)
  {
  }

  lemma {:induction false} Flips6(a: bool, b: bool, c: bool, d: bool, e: bool, f: bool)
    ensures TwoDiffer(S6(a, b, c, d, e, f), S6(!a, b, c, d, e, f))
    ensures TwoDiffer(S6(a, b, c, d, e, f), S6(a, !b, c, d, e, f))
    ensures TwoDiffer(S6(a, b, c, d, e, f), S6(a, b, !c, d, e, f))
  {
  }

  lemma {:induction false} LowFlips6(a: bool, b: bool, c: bool, d: bool, e: bool, f: bool)
    ensures TwoDiffer(S6(a, b, c, d, e, f), S6(a, b, c, !d, e, f))
    ensures TwoDiffer(S6(a, b, c, d, e, f), S6(a, b, c, d, !e, f))
    ensures TwoDiffer(S6(a, b, c, d, e, f), S6(a, b, c, d, e, !f))
  {
  }

  lemma {:induction false} Pairs6(a: bool, b: bool, c: bool, d: bool, e: bool, f: bool, x: bool, y: bool)
    ensures TwoDiffer(S6(a, b, c, d, e, f), S6(a, b, !c, !d, e, f))
    ensures S6(a, b, c, d, e, f) != S6(!a, !b, x, y, e, f)
  {
  }

  lemma {:induction false} Rows6(a: bool, b: bool, c: bool, d: bool, e: bool, f: bool,
      b': bool, c': bool, d': bool, e': bool)
    requires (b, c, d, e) != (b', c', d', e')
    ensures S6(a, b, c, d, e, f) != S6(a, b', c', d', e', f)
  {
  }

  lemma {:induction false} Flips7(a: bool, b: bool, c: bool, d: bool, e: bool, f: bool)
    ensures TwoDiffer(S7(a, b, c, d, e, f), S7(!a, b, c, d, e, f))
    ensures TwoDiffer(S7(a, b, c, d, e, f), S7(a, !b, c, d, e, f))
    ensures TwoDiffer(S7(a, b, c, d, e, f), S7(a, b, !c, d, e, f))
  {
  }

  lemma {:induction false} LowFlips7(a: bool, b: bool, c: bool, d: bool, e: bool, f: bool)
    ensures TwoDiffer(S7(a, b, c, d, e, f), S7(a, b, c, !d, e, f))
    ensures TwoDiffer(S7(a, b, c, d, e, f), S7(a, b, c, d, !e, f))
    ensures TwoDiffer(S7(a, b, c, d, e, f), S7(a, b, c, d, e, !f))
  {
  }

  lemma {:induction false} Pairs7(a: bool, b: bool, c: bool, d: bool, e: bool, f: bool, x: bool, y: bool)
    ensures TwoDiffer(S7(a, b, c, d, e, f), S7(a, b, !c, !d, e, f))
    ensures S7(a, b, c, d, e, f) != S7(!a, !b, x, y, e, f)
  {
  }

  lemma {:induction false} Rows7(a: bool, b: bool, c: bool, d: bool, e: bool, f: bool,
      b': bool, c': bool, d': bool, e': bool)
    requires (b, c, d, e) != (b', c', d', e')
    ensures S7(a, b, c, d, e, f) != S7(a, b', c', d', e', f)
  {
  }

  lemma {:induction false} Flips8(a: bool, b: bool, c: bool, d: bool, e: bool, f: bool)
    ensures TwoDiffer(S8(a, b, c, d, e, f), S8(!a, b, c, d, e, f))
    ensures TwoDiffer(S8(a, b, c, d, e, f), S8(a, !b, c, d, e, f))
    ensures TwoDiffer(S8(a, b, c, d, e, f), S8(a, b, !c, d, e, f))
  {
  }

  lemma {:induction false} LowFlips8(a: bool, b: bool, c: bool, d: bool, e: bool, f: bool)
    ensures TwoDiffer(S8(a, b, c, d, e, f), S8(a, b, c, !d, e, f))
    ensures TwoDiffer(S8(a, b, c, d, e, f), S8(a, b, c, d, !e, f))
    ensures TwoDiffer(S8(a, b, c, d, e, f), S8(a, b, c, d, e, !f))
  {
  }

  lemma {:induction false} Pairs8(a: bool, b: bool, c: bool, d: bool, e: bool, f: bool, x: bool, y: bool)
    ensures TwoDiffer(S8(a, b, c, d, e, f), S8(a, b, !c, !d, e, f))
    ensures S8(a, b, c, d, e, f) != S8(!a, !b, x, y, e, f)
  {
  }

  lemma {:induction false} Rows8(a: bool, b: bool, c: bool, d: bool, e: bool, f: bool,
      b': bool, c': bool, d': bool, e': bool)
    requires (b, c, d, e) != (b', c', d', e')
    ensures S8(a, b, c, d, e, f) != S8(a, b', c', d', e', f)
  {
  }

  /** Every row of every box is a permutation of 0 to 15: sixteen different values below sixteen. */
  lemma {:induction false} RowsPermute(n: nat, a: bool, b: bool, c: bool, d: bool, e: bool, f: bool,
      b': bool, c': bool, d': bool, e': bool)
    requires n < 8 && (b, c, d, e) != (b', c', d', e')
    ensures 0 <= Box(n, a, b, c, d, e, f) < 16
    ensures Box(n, a, b, c, d, e, f) != Box(n, a, b', c', d', e', f)
  {
    match n
    case 0 => Rows1(a, b, c, d, e, f, b', c', d', e');
    case 1 => Rows2(a, b, c, d, e, f, b', c', d', e');
    case 2 => Rows3(a, b, c, d, e, f, b', c', d', e');
    case 3 => Rows4(a, b, c, d, e, f, b', c', d', e');
    case 4 => Rows5(a, b, c, d, e, f, b', c', d', e');
    case 5 => Rows6(a, b, c, d, e, f, b', c', d', e');
    case 6 => Rows7(a, b, c, d, e, f, b', c', d', e');
    case 7 => Rows8(a, b, c, d, e, f, b', c', d', e');
  }

  /** Changing one input bit of a box changes at least two output bits. */
  lemma {:induction false} OneBitTwo(n: nat, a: bool, b: bool, c: bool, d: bool, e: bool, f: bool)
    requires n < 8
    ensures var v := Box(n, a, b, c, d, e, f);
      && TwoDiffer(v, Box(n, !a, b, c, d, e, f)) && TwoDiffer(v, Box(n, a, !b, c, d, e, f))
      && TwoDiffer(v, Box(n, a, b, !c, d, e, f)) && TwoDiffer(v, Box(n, a, b, c, !d, e, f))
      && TwoDiffer(v, Box(n, a, b, c, d, !e, f)) && TwoDiffer(v, Box(n, a, b, c, d, e, !f))
  {
    match n
    case 0 => Flips1(a, b, c, d, e, f); LowFlips1(a, b, c, d, e, f);
    case 1 => Flips2(a, b, c, d, e, f); LowFlips2(a, b, c, d, e, f);
    case 2 => Flips3(a, b, c, d, e, f); LowFlips3(a, b, c, d, e, f);
    case 3 => Flips4(a, b, c, d, e, f); LowFlips4(a, b, c, d, e, f);
    case 4 => Flips5(a, b, c, d, e, f); LowFlips5(a, b, c, d, e, f);
    case 5 => Flips6(a, b, c, d, e, f); LowFlips6(a, b, c, d, e, f);
    case 6 => Flips7(a, b, c, d, e, f); LowFlips7(a, b, c, d, e, f);
    case 7 => Flips8(a, b, c, d, e, f); LowFlips8(a, b, c, d, e, f);
  }

  /**
   Changing the middle two bits changes at least two output bits; changing the first two, and the next two in
   any way, changes the output.
   */
  lemma {:induction false} TwoBitsDiffer(n: nat, a: bool, b: bool, c: bool, d: bool, e: bool, f: bool, x: bool, y: bool)
    requires n < 8
    ensures TwoDiffer(Box(n, a, b, c, d, e, f), Box(n, a, b, !c, !d, e, f))
    ensures Box(n, a, b, c, d, e, f) != Box(n, !a, !b, x, y, e, f)
  {
    match n
    case 0 => Pairs1(a, b, c, d, e, f, x, y);
    case 1 => Pairs2(a, b, c, d, e, f, x, y);
    case 2 => Pairs3(a, b, c, d, e, f, x, y);
    case 3 => Pairs4(a, b, c, d, e, f, x, y);
    case 4 => Pairs5(a, b, c, d, e, f, x, y);
    case 5 => Pairs6(a, b, c, d, e, f, x, y);
    case 6 => Pairs7(a, b, c, d, e, f, x, y);
    case 7 => Pairs8(a, b, c, d, e, f, x, y);
  }

  // ---- The key schedule ----

  /** How far the key halves have turned after n rounds, all told. */
  function Total(n: nat): (r: nat)
    requires n <= 16
    ensures r <= 28
  {
    match n
    case 0 => 0 case 1 => 1 case 2 => 2 case 3 => 4 case 4 => 6 case 5 => 8 case 6 => 10 case 7 => 12 case 8 => 14
    case 9 => 15 case 10 => 17 case 11 => 19 case 12 => 21 case 13 => 23 case 14 => 25 case 15 => 27 case 16 => 28
  }

  /** The place of a bit in its half, m places on. */
  function Turned(m: nat, j: nat): (r: nat)
    requires m <= 28 && j < 56
    ensures r < 56
  {
    if j + m < 28 || (28 <= j && j + m < 56) then j + m else j + m - 28
  }

  lemma {:induction false} RolAt(d: Halves, m: nat, j: nat)
    requires m <= 28 && j < 56
    ensures Rol(d, m)[j] == d[Turned(m, j)]
  {
  }

  lemma {:induction false} TotalStep(n: nat)
    requires n < 16
    ensures Total(n + 1) == Total(n) + Moves(n) <= 28
  {
  }

  lemma {:induction false} TurnedTwice(l: nat, m: nat, j: nat)
    requires l + m <= 28 && j < 56
    ensures Turned(l, Turned(m, j)) == Turned(l + m, j)
  {
  }

  lemma {:induction false} RotatedAt(key: Block, n: nat, j: nat)
    requires n <= 16 && j < 56
    ensures Total(n) <= 28 && Rotated(key, n)[j] == Chosen(key)[Turned(Total(n), j)]
  {
    if n == 0 {
      assert Turned(0, j) == j;
    } else {
      TotalStep(n - 1);
      RotatedAt(key, n - 1, Turned(Moves(n - 1), j));
      RotatedStep(key, n - 1, j, Moves(n - 1), Total(n - 1));
    }
  }

  lemma {:induction false} RotatedStep(key: Block, n: nat, j: nat, m: nat, t: nat)
    requires n < 16 && j < 56 && m == Moves(n) && t + m <= 28
    requires Rotated(key, n)[Turned(m, j)] == Chosen(key)[Turned(t, Turned(m, j))]
    ensures Rotated(key, n + 1)[j] == Chosen(key)[Turned(t + m, j)]
  {
    RolAt(Rotated(key, n), m, j);
    TurnedTwice(t, m, j);
  }

  /** After the sixteen rounds the key halves are back where they were. */
  lemma {:induction false} HalvesReturn(key: Block)
    ensures Rotated(key, 16) == Chosen(key)
  {
    forall j | 0 <= j < 56 ensures Rotated(key, 16)[j] == Chosen(key)[j] { BackHome(key, j); }
  }

  lemma {:induction false} BackHome(key: Block, j: nat)
    requires j < 56
    ensures Rotated(key, 16)[j] == Chosen(key)[j]
  {
    RotatedAt(key, 16, j);
  }
}

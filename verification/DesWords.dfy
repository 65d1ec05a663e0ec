/**
 Rounds on words: when halves, key bits and box outputs are given as numbers, what makes them a run of the rounds.
 Bit i of a number is bit i of the half or block as the code unpacks it, the lowest bit of a byte first.
 */
module DesWords {
  import opened Basics
  import opened Words
  import opened BitStrings
  import opened DesTables
  import opened Des
  import opened DesFacts
  import opened Masks

  predicate On8(v: bv8, i: nat)
    requires i < 6
  {
    if i == 0 then v & 0x1 != 0 else if i == 1 then v & 0x2 != 0 else if i == 2 then v & 0x4 != 0
    else if i == 3 then v & 0x8 != 0 else if i == 4 then v & 0x10 != 0 else v & 0x20 != 0
  }

  function Whole(v: bv64): Block {
    seq(64, i requires 0 <= i < 64 => On64(v, i))
  }

  // ---- The round on words ----

  /** The key halves as a word. */
  function Turning(d: bv64): Halves {
    seq(56, i requires 0 <= i < 56 => On64(d, i))
  }

  /** The four bits of a number, the highest first. */
  predicate Fits(v: int, a: bool, b: bool, c: bool, d: bool) {
    Bit3(v) == a && Bit2(v) == b && Bit1(v) == c && Bit0(v) == d
  }

  /** The input of the boxes. */
  function Feed(r: bv32, d: bv64): (x: Bits)
    ensures |x| == 48
  {
    XorBits(ExpandOf(Half(r)), SubKeyOf(Turning(d)))
  }

  lemma {:induction false} FeedAt(r: bv32, d: bv64, j: nat)
    requires j < 48
    ensures Feed(r, d)[j] == (On32(r, Expand(j) - 1) != On64(d, Choose2(j) - 1))
  {
    var e, c := Expand(j) - 1, Choose2(j) - 1;
    assert ExpandOf(Half(r))[j] == Half(r)[e] && SubKeyOf(Turning(d))[j] == Turning(d)[c];
  }

  /** The six bits for a box. */
  function Piece(d: Bits, q: nat): (r: Bits)
    requires |d| == 48 && q < 8
    ensures |r| == 6
  {
    d[6 * q..6 * (q + 1)]
  }

  /** Word w holds the six bits for box q. */
  ghost predicate SixIs(x: Bits, q: nat, w: bv8)
    requires |x| == 48 && q < 8
  {
    forall m :: 0 <= m < 6 ==> On8(w, m) == x[6 * q + m]
  }

  lemma {:induction false} FedSixAt(r: bv32, d: bv64, q: nat, w: bv8, m: nat)
    requires q < 8 && m < 6 && On8(w, m) == (On32(r, Expand(6 * q + m) - 1) != On64(d, Choose2(6 * q + m) - 1))
    ensures On8(w, m) == Feed(r, d)[6 * q + m]
  {
    FeedAt(r, d, 6 * q + m);
  }

  /** The expanded half and the chosen key bits give w for box q; `Inside` opens the statement, as in the next ones. */
  ghost predicate SixFed(r: bv32, d: bv64, q: nat, w: bv8)
    requires q < 8
  {
    forall u: int {:trigger Inside(u)} :: Inside(u) ==>
      forall m :: 0 <= m < 6 ==> On8(w, m) == (On32(r, Expand(6 * q + m) - 1) != On64(d, Choose2(6 * q + m) - 1))
  }

  /** Box q gives v for w. */
  ghost predicate Boxed(q: nat, w: bv8, v: int)
    requires q < 8
  {
    forall u: int {:trigger Inside(u)} :: Inside(u) ==>
      v == Box(q, w & 0x1 != 0, w & 0x2 != 0, w & 0x4 != 0, w & 0x8 != 0, w & 0x10 != 0, w & 0x20 != 0)
  }

  lemma {:induction false} SixFedIs(r: bv32, d: bv64, q: nat, w: bv8)
    requires q < 8
    requires forall m :: 0 <= m < 6 ==>
      On8(w, m) == (On32(r, Expand(6 * q + m) - 1) != On64(d, Choose2(6 * q + m) - 1))
    ensures SixFed(r, d, q, w)
  {
  }

  lemma {:induction false} BoxedIs(q: nat, w: bv8, v: int)
    requires q < 8
    requires v == Box(q, w & 0x1 != 0, w & 0x2 != 0, w & 0x4 != 0, w & 0x8 != 0, w & 0x10 != 0, w & 0x20 != 0)
    ensures Boxed(q, w, v)
  {
  }

  lemma {:induction false} FedSix(r: bv32, d: bv64, q: nat, w: bv8)
    requires q < 8 && SixFed(r, d, q, w)
    ensures SixIs(Feed(r, d), q, w)
  {
    assert Inside(0);
    forall m | 0 <= m < 6 ensures On8(w, m) == Feed(r, d)[6 * q + m] { FedSixAt(r, d, q, w, m); }
  }

  /** Four neighbouring bits of a half. */
  function Quarter(y: bv32, q: nat): (r: Bits)
    requires q < 8
    ensures |r| == 4
  {
    [On32(y, 4 * q), On32(y, 4 * q + 1), On32(y, 4 * q + 2), On32(y, 4 * q + 3)]
  }

  /** What box q gives for its six bits of d is the quarter q of y; `Inside` opens the statement. */
  ghost predicate Gives(d: Bits, y: bv32, q: nat)
    requires |d| == 48 && q < 8
  {
    forall u: int {:trigger Inside(u)} :: Inside(u) ==> Looked(q, Piece(d, q)) == Quarter(y, q)
  }

  lemma {:induction false} GivesFour(x: Bits, y: bv32, q: nat, w: bv8, v: int)
    requires |x| == 48 && q < 8 && SixIs(x, q, w)
    requires Boxed(q, w, v)
    requires Fits(v, On32(y, 4 * q), On32(y, 4 * q + 1), On32(y, 4 * q + 2), On32(y, 4 * q + 3))
    ensures Gives(x, y, q)
  {
    assert Inside(0);
    SixBits(x, q, w);
    LookedSix(q, Piece(x, q), v, w & 0x1 != 0, w & 0x2 != 0, w & 0x4 != 0, w & 0x8 != 0, w & 0x10 != 0, w & 0x20 != 0);
    QuarterFour(y, q, v);
  }

  lemma {:induction false} SixBits(x: Bits, q: nat, w: bv8)
    requires |x| == 48 && q < 8 && SixIs(x, q, w)
    ensures var six := Piece(x, q);
      && six[0] == (w & 0x1 != 0) && six[1] == (w & 0x2 != 0) && six[2] == (w & 0x4 != 0)
      && six[3] == (w & 0x8 != 0) && six[4] == (w & 0x10 != 0) && six[5] == (w & 0x20 != 0)
  {
    assert On8(w, 0) == x[6 * q + 0] && On8(w, 1) == x[6 * q + 1] && On8(w, 2) == x[6 * q + 2];
    assert On8(w, 3) == x[6 * q + 3] && On8(w, 4) == x[6 * q + 4] && On8(w, 5) == x[6 * q + 5];
  }

  lemma {:induction false} QuarterFour(y: bv32, q: nat, v: int)
    requires q < 8 && 0 <= v < 16
    requires Fits(v, On32(y, 4 * q), On32(y, 4 * q + 1), On32(y, 4 * q + 2), On32(y, 4 * q + 3))
    ensures Four(v) == Quarter(y, q)
  {
    FourBits(v);
  }

  lemma {:induction false} LookedSix(q: nat, six: Bits, v: int, b0: bool, b1: bool, b2: bool, b3: bool, b4: bool,
      b5: bool)
    requires q < 8 && |six| == 6 && v == Box(q, b0, b1, b2, b3, b4, b5)
    requires six[0] == b0 && six[1] == b1 && six[2] == b2 && six[3] == b3 && six[4] == b4 && six[5] == b5
    ensures Looked(q, six) == Four(v)
  {
  }

  /** Output bit m of box q, the outputs side by side. */
  lemma {:induction false} SubstitutedAt(box: (nat, Bits) -> Bits, d: Bits, n: nat, q: nat, m: nat)
    requires Nibbles(box) && |d| == 48 && q < n <= 8 && m < 4
    ensures |Substituted(box, d, n)| == 4 * n
    ensures Substituted(box, d, n)[4 * q + m] == box(q, d[6 * q..6 * (q + 1)])[m]
  {
    SubstitutedLength(box, d, n);
    SubstitutedLength(box, d, n - 1);
    if q < n - 1 { SubstitutedAt(box, d, n - 1, q, m); }
  }

  ghost predicate Quarters(d: Bits, y: bv32)
    requires |d| == 48
  {
    forall q :: 0 <= q < 8 ==> Gives(d, y, q)
  }

  lemma {:induction false} QuartersAre(d: Bits, y: bv32)
    requires |d| == 48
    requires Gives(d, y, 0) && Gives(d, y, 1) && Gives(d, y, 2) && Gives(d, y, 3)
    requires Gives(d, y, 4) && Gives(d, y, 5) && Gives(d, y, 6) && Gives(d, y, 7)
    ensures Quarters(d, y)
  {
  }

  lemma {:induction false} SubstitutedIs(d: Bits, y: bv32)
    requires |d| == 48 && Quarters(d, y)
    ensures Substituted(Looked, d, 8) == Half(y)
  {
    SubstitutedLength(Looked, d, 8);
    forall s | 0 <= s < 32 ensures Substituted(Looked, d, 8)[s] == Half(y)[s] {
      SubstitutedBit(d, y, s / 4, s % 4);
    }
  }

  lemma {:induction false} SubstitutedBit(d: Bits, y: bv32, q: nat, m: nat)
    requires |d| == 48 && q < 8 && m < 4 && Quarters(d, y)
    ensures |Substituted(Looked, d, 8)| == 32 && Substituted(Looked, d, 8)[4 * q + m] == Half(y)[4 * q + m]
  {
    SubstitutedAt(Looked, d, 8, q, m);
    QuarterOf(d, y, q, m) by { assert Gives(d, y, q) && Inside(0); }
  }

  lemma {:induction false} QuarterOf(d: Bits, y: bv32, q: nat, m: nat)
    requires |d| == 48 && q < 8 && m < 4 && Looked(q, Piece(d, q)) == Quarter(y, q)
    ensures Looked(q, Piece(d, q))[m] == Half(y)[4 * q + m]
  {
    QuarterIs(Half(y), q, m, On32(y, 4 * q), On32(y, 4 * q + 1), On32(y, 4 * q + 2), On32(y, 4 * q + 3));
  }

  lemma {:induction false} QuarterIs(y: Bits, q: nat, m: nat, a: bool, b: bool, c: bool, d: bool)
    requires |y| == 32 && q < 8 && m < 4
    requires a == y[4 * q] && b == y[4 * q + 1] && c == y[4 * q + 2] && d == y[4 * q + 3]
    ensures [a, b, c, d][m] == y[4 * q + m]
  {
  }

  /** Word c holds the chosen bits of key k. */
  ghost predicate Picked(k: bv64, c: bv64) {
    forall u: int {:trigger Inside(u)} :: Inside(u) ==> Chosen(Whole(k)) == Turning(c)
  }

  lemma {:induction false} PickedIs(k: bv64, c: bv64)
    requires forall j :: 0 <= j < 56 ==> On64(c, j) == On64(k, Choose1(j) - 1)
    ensures Picked(k, c)
  {
    assert Chosen(Whole(k)) == Turning(c);
  }

  lemma {:induction false} RotatedIs(key: Block, n: nat, d: Halves)
    requires n <= 16
    requires forall j :: 0 <= j < 56 ==> d[j] == Chosen(key)[Turned(Total(n), j)]
    ensures Rotated(key, n) == d
  {
    forall j | 0 <= j < 56 ensures Rotated(key, n)[j] == d[j] { RotatedAt(key, n, j); }
  }

  lemma {:induction false} KeyIs(k: bv64, c: bv64, n: nat, d: bv64)
    requires n < 16 && Picked(k, c) && TurnedTo(c, n, d)
    ensures SubKeys(Whole(k))[n] == SubKeyOf(Turning(d))
  {
    forall j | 0 <= j < 56 ensures Turning(d)[j] == Turning(c)[Turned(Total(n + 1), j)] { TurnedAt(c, n, d, j); }
    KeyBits(Whole(k), Turning(c), n, Turning(d)) by { assert Inside(0); }
  }

  lemma {:induction false} TurnedAt(c: bv64, n: nat, d: bv64, j: nat)
    requires n < 16 && j < 56 && TurnedTo(c, n, d)
    ensures Turning(d)[j] == Turning(c)[Turned(Total(n + 1), j)]
  {
    assert Inside(0);
  }

  lemma {:induction false} KeyBits(key: Block, c: Halves, n: nat, d: Halves)
    requires n < 16 && Chosen(key) == c
    requires forall j :: 0 <= j < 56 ==> d[j] == c[Turned(Total(n + 1), j)]
    ensures SubKeys(key)[n] == SubKeyOf(d)
  {
    RotatedIs(key, n + 1, d);
  }

  /** Word d holds the key halves as they stand in round n, c as they were chosen. */
  ghost predicate TurnedTo(c: bv64, n: nat, d: bv64)
    requires n < 16
  {
    forall u: int {:trigger Inside(u)} :: Inside(u) ==>
      forall j :: 0 <= j < 56 ==> On64(d, j) == On64(c, Turned(Total(n + 1), j))
  }

  /** Word y, spread out, changes half l into half x. */
  ghost predicate MixedTo(l: bv32, y: bv32, x: bv32) {
    forall u: int {:trigger Inside(u)} :: Inside(u) ==>
      forall i :: 0 <= i < 32 ==> On32(x, i) == (On32(l, i) != On32(y, Spread(i) - 1))
  }

  /** The rounds from n on lead from halves l and r to halves p and q. */
  ghost predicate Leads(k: bv64, n: nat, l: bv32, r: bv32, p: bv32, q: bv32)
    requires n < 16
  {
    forall u: int {:trigger Inside(u)} :: Inside(u) ==>
      Rounds(Half(l) + Half(r), SubKeys(Whole(k))[n..])
      == Half(p) + Half(q)
  }

  lemma {:induction false} OneRound(k: bv64, c: bv64, n: nat, l: bv32, r: bv32, d: bv64, y: bv32, x: bv32)
    requires n < 16 && Picked(k, c)
    requires TurnedTo(c, n, d) && BoxesGive(r, d, y) && MixedTo(l, y, x)
    ensures Round(Half(l) + Half(r), SubKeys(Whole(k))[n]) == Half(x) + Half(r)
  {
    var f := Mix(Half(r), SubKeys(Whole(k))[n]);
    assert f == SpreadOf(Half(y)) by {
      KeyIs(k, c, n, d);
      assert Inside(0);
    }
    forall i | 0 <= i < 32 ensures XorBits(Half(l), f)[i] == Half(x)[i] { MixedBit(l, y, x, i); }
    RoundHalves(Half(l), Half(r), SubKeys(Whole(k))[n], Half(x));
  }

  lemma {:induction false} MixedBit(l: bv32, y: bv32, x: bv32, i: nat)
    requires i < 32 && MixedTo(l, y, x)
    ensures (Half(l)[i] != SpreadOf(Half(y))[i]) == Half(x)[i]
  {
    assert Inside(0);
    var s := Spread(i) - 1;
    assert SpreadOf(Half(y))[i] == Half(y)[s] == On32(y, s);
  }

  lemma {:induction false} RoundHalves(l: Bits, r: Bits, key: SubKey, x: Bits)
    requires |l| == 32 && |r| == 32 && |x| == 32
    requires forall i :: 0 <= i < 32 ==> XorBits(l, Mix(r, key))[i] == x[i]
    ensures Round(l + r, key) == x + r
  {
    assert (l + r)[..32] == l && (l + r)[32..] == r;
    assert XorBits(l, Mix(r, key)) == x;
  }

  lemma {:induction false} Onward(k: bv64, n: nat, l: bv32, r: bv32, x: bv32, p: bv32, q: bv32)
    requires n < 16 && Round(Half(l) + Half(r), SubKeys(Whole(k))[n]) == Half(x) + Half(r)
    requires if n < 15 then Leads(k, n + 1, r, x, p, q) else p == x && q == r
    ensures Leads(k, n, l, r, p, q)
  {
    assert Inside(0);
    var keys, b := SubKeys(Whole(k)), Half(x) + Half(r);
    assert keys[n..][0] == keys[n] && keys[n..][1..] == keys[n + 1..];
    assert b[..32] == Half(x) && b[32..] == Half(r);
  }

  lemma {:induction false} BoxesIs(x: Bits,
      w0: bv8, w1: bv8, w2: bv8, w3: bv8, w4: bv8, w5: bv8, w6: bv8, w7: bv8,
      v0: int, v1: int, v2: int, v3: int, v4: int, v5: int, v6: int, v7: int, y: bv32)
    requires |x| == 48
    requires SixIs(x, 0, w0) && SixIs(x, 1, w1) && SixIs(x, 2, w2) && SixIs(x, 3, w3)
    requires SixIs(x, 4, w4) && SixIs(x, 5, w5) && SixIs(x, 6, w6) && SixIs(x, 7, w7)
    requires Boxed(0, w0, v0)
    requires Boxed(1, w1, v1)
    requires Boxed(2, w2, v2)
    requires Boxed(3, w3, v3)
    requires Boxed(4, w4, v4)
    requires Boxed(5, w5, v5)
    requires Boxed(6, w6, v6)
    requires Boxed(7, w7, v7)
    requires Fits(v0, y & 0x1 != 0, y & 0x2 != 0, y & 0x4 != 0, y & 0x8 != 0)
    requires Fits(v1, y & 0x10 != 0, y & 0x20 != 0, y & 0x40 != 0, y & 0x80 != 0)
    requires Fits(v2, y & 0x100 != 0, y & 0x200 != 0, y & 0x400 != 0, y & 0x800 != 0)
    requires Fits(v3, y & 0x1000 != 0, y & 0x2000 != 0, y & 0x4000 != 0, y & 0x8000 != 0)
    requires Fits(v4, y & 0x10000 != 0, y & 0x20000 != 0, y & 0x40000 != 0, y & 0x80000 != 0)
    requires Fits(v5, y & 0x100000 != 0, y & 0x200000 != 0, y & 0x400000 != 0, y & 0x800000 != 0)
    requires Fits(v6, y & 0x1000000 != 0, y & 0x2000000 != 0, y & 0x4000000 != 0, y & 0x8000000 != 0)
    requires Fits(v7, y & 0x10000000 != 0, y & 0x20000000 != 0, y & 0x40000000 != 0, y & 0x80000000 != 0)
    ensures Substituted(Looked, x, 8) == Half(y)
  {
    GivesFour(x, y, 0, w0, v0);
    GivesFour(x, y, 1, w1, v1);
    GivesFour(x, y, 2, w2, v2);
    GivesFour(x, y, 3, w3, v3);
    GivesFour(x, y, 4, w4, v4);
    GivesFour(x, y, 5, w5, v5);
    GivesFour(x, y, 6, w6, v6);
    GivesFour(x, y, 7, w7, v7);
    QuartersAre(x, y);
    SubstitutedIs(x, y);
  }

  /** In a round with key bits d the boxes turn half r into y; `Inside` opens the statement. */
  ghost predicate BoxesGive(r: bv32, d: bv64, y: bv32) {
    forall u: int {:trigger Inside(u)} :: Inside(u) ==> Substituted(Looked, Feed(r, d), 8) == Half(y)
  }

  /** The inputs w and the outputs v of the boxes are the witnesses. */
  lemma {:induction false} Witnessed(r: bv32, d: bv64, y: bv32,
      w0: bv8, w1: bv8, w2: bv8, w3: bv8, w4: bv8, w5: bv8, w6: bv8, w7: bv8,
      v0: int, v1: int, v2: int, v3: int, v4: int, v5: int, v6: int, v7: int)
    requires SixFed(r, d, 0, w0) && SixFed(r, d, 1, w1) && SixFed(r, d, 2, w2) && SixFed(r, d, 3, w3)
    requires SixFed(r, d, 4, w4) && SixFed(r, d, 5, w5) && SixFed(r, d, 6, w6) && SixFed(r, d, 7, w7)
    requires Boxed(0, w0, v0) && Boxed(1, w1, v1) && Boxed(2, w2, v2) && Boxed(3, w3, v3)
    requires Boxed(4, w4, v4) && Boxed(5, w5, v5) && Boxed(6, w6, v6) && Boxed(7, w7, v7)
    requires Fits(v0, y & 0x1 != 0, y & 0x2 != 0, y & 0x4 != 0, y & 0x8 != 0)
    requires Fits(v1, y & 0x10 != 0, y & 0x20 != 0, y & 0x40 != 0, y & 0x80 != 0)
    requires Fits(v2, y & 0x100 != 0, y & 0x200 != 0, y & 0x400 != 0, y & 0x800 != 0)
    requires Fits(v3, y & 0x1000 != 0, y & 0x2000 != 0, y & 0x4000 != 0, y & 0x8000 != 0)
    requires Fits(v4, y & 0x10000 != 0, y & 0x20000 != 0, y & 0x40000 != 0, y & 0x80000 != 0)
    requires Fits(v5, y & 0x100000 != 0, y & 0x200000 != 0, y & 0x400000 != 0, y & 0x800000 != 0)
    requires Fits(v6, y & 0x1000000 != 0, y & 0x2000000 != 0, y & 0x4000000 != 0, y & 0x8000000 != 0)
    requires Fits(v7, y & 0x10000000 != 0, y & 0x20000000 != 0, y & 0x40000000 != 0, y & 0x80000000 != 0)
    ensures BoxesGive(r, d, y)
  {
    FedSix(r, d, 0, w0);
    FedSix(r, d, 1, w1);
    FedSix(r, d, 2, w2);
    FedSix(r, d, 3, w3);
    FedSix(r, d, 4, w4);
    FedSix(r, d, 5, w5);
    FedSix(r, d, 6, w6);
    FedSix(r, d, 7, w7);
    BoxesIs(Feed(r, d), w0, w1, w2, w3, w4, w5, w6, w7, v0, v1, v2, v3, v4, v5, v6, v7, y);
  }

  lemma {:induction false} EightBoxed(w0: bv8, w1: bv8, w2: bv8, w3: bv8, w4: bv8, w5: bv8, w6: bv8, w7: bv8,
      v0: int, v1: int, v2: int, v3: int, v4: int, v5: int, v6: int, v7: int)
    requires v0 == Box(0, w0 & 0x1 != 0, w0 & 0x2 != 0, w0 & 0x4 != 0, w0 & 0x8 != 0, w0 & 0x10 != 0, w0 & 0x20 != 0)
    requires v1 == Box(1, w1 & 0x1 != 0, w1 & 0x2 != 0, w1 & 0x4 != 0, w1 & 0x8 != 0, w1 & 0x10 != 0, w1 & 0x20 != 0)
    requires v2 == Box(2, w2 & 0x1 != 0, w2 & 0x2 != 0, w2 & 0x4 != 0, w2 & 0x8 != 0, w2 & 0x10 != 0, w2 & 0x20 != 0)
    requires v3 == Box(3, w3 & 0x1 != 0, w3 & 0x2 != 0, w3 & 0x4 != 0, w3 & 0x8 != 0, w3 & 0x10 != 0, w3 & 0x20 != 0)
    requires v4 == Box(4, w4 & 0x1 != 0, w4 & 0x2 != 0, w4 & 0x4 != 0, w4 & 0x8 != 0, w4 & 0x10 != 0, w4 & 0x20 != 0)
    requires v5 == Box(5, w5 & 0x1 != 0, w5 & 0x2 != 0, w5 & 0x4 != 0, w5 & 0x8 != 0, w5 & 0x10 != 0, w5 & 0x20 != 0)
    requires v6 == Box(6, w6 & 0x1 != 0, w6 & 0x2 != 0, w6 & 0x4 != 0, w6 & 0x8 != 0, w6 & 0x10 != 0, w6 & 0x20 != 0)
    requires v7 == Box(7, w7 & 0x1 != 0, w7 & 0x2 != 0, w7 & 0x4 != 0, w7 & 0x8 != 0, w7 & 0x10 != 0, w7 & 0x20 != 0)
    ensures Boxed(0, w0, v0) && Boxed(1, w1, v1) && Boxed(2, w2, v2) && Boxed(3, w3, v3)
    ensures Boxed(4, w4, v4) && Boxed(5, w5, v5) && Boxed(6, w6, v6) && Boxed(7, w7, v7)
  {
    BoxedIs(0, w0, v0);
    BoxedIs(1, w1, v1);
    BoxedIs(2, w2, v2);
    BoxedIs(3, w3, v3);
    BoxedIs(4, w4, v4);
    BoxedIs(5, w5, v5);
    BoxedIs(6, w6, v6);
    BoxedIs(7, w7, v7);
  }

  lemma {:induction false} TurnedIs(c: bv64, n: nat, d: bv64)
    requires n < 16 && forall j :: 0 <= j < 56 ==> On64(d, j) == On64(c, Turned(Total(n + 1), j))
    ensures TurnedTo(c, n, d)
  {
  }

  lemma {:induction false} MixedIs(l: bv32, y: bv32, x: bv32)
    requires forall i :: 0 <= i < 32 ==> On32(x, i) == (On32(l, i) != On32(y, Spread(i) - 1))
    ensures MixedTo(l, y, x)
  {
  }

  lemma {:induction false} RoundIs(k: bv64, c: bv64, n: nat, l: bv32, r: bv32, d: bv64, y: bv32, x: bv32, p: bv32,
      q: bv32)
    requires n < 16 && Picked(k, c) && TurnedTo(c, n, d) && BoxesGive(r, d, y) && MixedTo(l, y, x)
    requires if n < 15 then Leads(k, n + 1, r, x, p, q) else p == x && q == r
    ensures Leads(k, n, l, r, p, q)
  {
    OneRound(k, c, n, l, r, d, y, x);
    Onward(k, n, l, r, x, p, q);
  }

  /** All sixteen rounds. */
  ghost predicate Enciphers(k: bv64, l: bv32, r: bv32, p: bv32, q: bv32) {
    forall u: int {:trigger Inside(u)} :: Inside(u) ==>
      Rounds(Half(l) + Half(r), SubKeys(Whole(k))) == Half(p) + Half(q)
  }

  lemma {:induction false} FirstRound(k: bv64, c: bv64, l: bv32, r: bv32, d: bv64, y: bv32, x: bv32, p: bv32, q: bv32)
    requires Picked(k, c) && TurnedTo(c, 0, d) && BoxesGive(r, d, y) && MixedTo(l, y, x) && Leads(k, 1, r, x, p, q)
    ensures Enciphers(k, l, r, p, q)
  {
    RoundIs(k, c, 0, l, r, d, y, x, p, q);
    AllRounds(k, l, r, p, q);
  }

  lemma {:induction false} AllRounds(k: bv64, l: bv32, r: bv32, p: bv32, q: bv32)
    requires Leads(k, 0, l, r, p, q)
    ensures Enciphers(k, l, r, p, q)
  {
    assert Inside(0);
    assert SubKeys(Whole(k))[0..] == SubKeys(Whole(k));
  }

  // ---- Blocks as words ----

  lemma {:induction false} JoinedAt(a: Bits, b: Bits, q: nat, m: nat)
    requires |a| == 8 && m < 8 && 8 * q + m < 8 + |b|
    ensures (a + b)[8 * q + m] == if q == 0 then a[m] else b[8 * (q - 1) + m]
  {
  }

  lemma {:induction false} ToBitsAt(bytes: seq<Byte>, q: nat, m: nat)
    requires q < |bytes| && m < 8
    ensures ToBits(bytes)[8 * q + m] == Binary(bytes[q], 8)[m]
    decreases |bytes|
  {
    if q == 0 {
      JoinedAt(Binary(bytes[0], 8), ToBits(bytes[1..]), 0, m);
    } else {
      ToBitsAt(bytes[1..], q - 1, m);
      ToBitsNext(bytes, q, m);
    }
  }

  lemma {:induction false} ToBitsNext(bytes: seq<Byte>, q: nat, m: nat)
    requires 0 < q < |bytes| && m < 8
    ensures ToBits(bytes)[8 * q + m] == ToBits(bytes[1..])[8 * (q - 1) + m]
  {
    JoinedAt(Binary(bytes[0], 8), ToBits(bytes[1..]), q, m);
  }

  lemma {:induction false} BitsAre(w: Block, a: Byte, b: Byte, c: Byte, d: Byte, e: Byte, f: Byte, g: Byte, h: Byte)
    requires forall m :: 0 <= m < 8 ==> w[0 + m] == ByteOn(a, m)
    requires forall m :: 0 <= m < 8 ==> w[8 + m] == ByteOn(b, m)
    requires forall m :: 0 <= m < 8 ==> w[16 + m] == ByteOn(c, m)
    requires forall m :: 0 <= m < 8 ==> w[24 + m] == ByteOn(d, m)
    requires forall m :: 0 <= m < 8 ==> w[32 + m] == ByteOn(e, m)
    requires forall m :: 0 <= m < 8 ==> w[40 + m] == ByteOn(f, m)
    requires forall m :: 0 <= m < 8 ==> w[48 + m] == ByteOn(g, m)
    requires forall m :: 0 <= m < 8 ==> w[56 + m] == ByteOn(h, m)
    ensures Written([a, b, c, d, e, f, g, h], w)
  {
    var s: Eight := [a, b, c, d, e, f, g, h];
    ByteIn(s, w, 0, a);
    ByteIn(s, w, 1, b);
    ByteIn(s, w, 2, c);
    ByteIn(s, w, 3, d);
    ByteIn(s, w, 4, e);
    ByteIn(s, w, 5, f);
    ByteIn(s, w, 6, g);
    ByteIn(s, w, 7, h);
    AllSame(w, ToBits(s));
  }

  ghost predicate Same(w: Block, z: Block, q: int) {
    forall i :: 8 * q <= i < 8 * q + 8 && 0 <= i < 64 ==> w[i] == z[i]
  }

  lemma {:induction false} AllSame(w: Block, z: Block)
    requires forall q :: 0 <= q < 8 ==> Same(w, z, q)
    ensures w == z
  {
    forall i | 0 <= i < 64 ensures w[i] == z[i] { assert Same(w, z, i / 8); }
  }

  lemma {:induction false} BitIn(s: Eight, q: nat, m: nat)
    requires q < 8 && m < 8
    ensures ToBits(s)[8 * q + m] == ByteOn(s[q], m)
  {
    ToBitsAt(s, q, m);
    ByteAt(s[q], m);
  }

  lemma {:induction false} ByteIn(s: Eight, w: Block, q: nat, v: Byte)
    requires q < 8 && s[q] == v && forall m :: 0 <= m < 8 ==> w[8 * q + m] == ByteOn(v, m)
    ensures Same(w, ToBits(s), q)
  {
    forall i | 8 * q <= i < 8 * q + 8 ensures w[i] == ToBits(s)[i] {
      BitIn(s, q, i - 8 * q);
      assert w[8 * q + (i - 8 * q)] == ByteOn(v, i - 8 * q);
    }
  }

  ghost predicate Written(s: Eight, w: Block) {
    forall u: int {:trigger Inside(u)} :: Inside(u) ==> ToBits(s) == w
  }

  lemma {:induction false} IpIs(d: Block, l: Bits, r: Bits)
    requires |l| == 32 && |r| == 32
    requires forall i :: 0 <= i < 32 ==> d[Ip(i) - 1] == l[i]
    requires forall i :: 0 <= i < 32 ==> d[Ip(i + 32) - 1] == r[i]
    ensures IpOf(d) == l + r
  {
    forall i | 0 <= i < 64 ensures IpOf(d)[i] == (l + r)[i] {
      if i >= 32 { UpperIp(d, r, i - 32); }
    }
  }

  lemma {:induction false} UpperIp(d: Block, r: Bits, k: nat)
    requires |r| == 32 && k < 32
    requires forall i :: 0 <= i < 32 ==> d[Ip(i + 32) - 1] == r[i]
    ensures IpOf(d)[k + 32] == r[k]
  {
  }

  /** Rounds that lead from the permuted input to the permuted output are an encryption. */
  lemma {:induction false} Known(key: Eight, data: Eight, out: Eight, k: Block, d: Block, z: Block)
    requires Written(key, k) && Written(data, d) && Written(out, z) && Rounds(IpOf(d), SubKeys(k)) == IpOf(z)
    ensures Encrypted(key, data) == Some(out)
  {
    assert Inside(0);
    IpUndone(z);
    BytesBack(out);
    OneBlock(data, SubKeys(k));
  }

  lemma {:induction false} OneBlock(e: Eight, keys: seq<SubKey>)
    ensures Blocks(e, keys) == Through(e, keys)
  {
    assert e[..8] == e && e[8..] == [];
  }

  lemma {:induction false} KnownWords(key: Eight, data: Eight, out: Eight, k: bv64, d: bv64, z: bv64, l: bv32, r: bv32,
      p: bv32, q: bv32)
    requires Written(key, Whole(k)) && Written(data, Whole(d)) && Written(out, Whole(z))
    requires IpOf(Whole(d)) == Half(l) + Half(r) && IpOf(Whole(z)) == Half(p) + Half(q)
    requires Enciphers(k, l, r, p, q)
    ensures Encrypted(key, data) == Some(out)
  {
    assert Rounds(IpOf(Whole(d)), SubKeys(Whole(k))) == IpOf(Whole(z)) by { assert Inside(0); }
    Known(key, data, out, Whole(k), Whole(d), Whole(z));
  }
}

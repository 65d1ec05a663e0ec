/** The published check value of CRC-32, digit by digit. */
module CrcCheck {
  import opened Basics
  import opened Words
  import opened BitStrings
  import opened Masks
  import opened Crc

  // ---- Numbers of 32 bits ----

  lemma {:induction false} BinaryWidth(n: nat, w: nat, x: nat, m: nat)
    requires m < w && m < x
    ensures Binary(n, w)[m] == Binary(n, x)[m]
    decreases w
  {
    if m > 0 { BinaryWidth(n / 2, w - 1, x - 1, m - 1); }
  }

  lemma {:induction false} BinaryHigh(n: nat, w: nat, k: nat, m: nat)
    requires k + m < w
    ensures Binary(n, w)[k + m] == Binary(Halved(n, k), w - k)[m]
    decreases k
  {
    if k > 0 { BinaryHigh(n / 2, w - 1, k - 1, m); }
  }

  function Halved(n: nat, k: nat): nat {
    if k == 0 then n else Halved(n / 2, k - 1)
  }

  lemma {:induction false} HalvedEight(n: nat)
    ensures Halved(n, 8) == n / 256
  {
    assert Halved(n, 8) == Halved(n / 2, 7) == Halved(n / 2 / 2, 6) == Halved(n / 2 / 2 / 2, 5);
    assert Halved(n / 2 / 2 / 2, 5) == Halved(n / 2 / 2 / 2 / 2, 4) == Halved(n / 2 / 2 / 2 / 2 / 2, 3);
    var x := n / 2 / 2 / 2 / 2 / 2;
    assert Halved(x, 3) == Halved(x / 2, 2) == Halved(x / 2 / 2, 1) == Halved(x / 2 / 2 / 2, 0);
  }

  /** Byte q of a number. */
  lemma {:induction false} NextByte(n: nat, w: nat, q: nat, m: nat)
    requires 8 + q + m < w
    ensures Binary(n, w)[8 + q + m] == Binary(n / 256, w - 8)[q + m]
  {
    BinaryHigh(n, w, 8, q + m);
    HalvedEight(n);
  }

  lemma {:induction false} LowByte(n: nat, w: nat, m: nat)
    requires 8 <= w && m < 8
    ensures Binary(n, w)[m] == ByteOn(n, m)
  {
    BinaryWidth(n, w, 8, m);
    ByteAt(n, m);
  }

  lemma {:induction false} SecondByte(n: nat, w: nat, m: nat)
    requires 16 <= w && m < 8
    ensures Binary(n, w)[8 + m] == ByteOn(n / 256, m)
  {
    NextByte(n, w, 0, m);
    LowByte(n / 256, w - 8, m);
  }

  lemma {:induction false} ThirdByte(n: nat, w: nat, m: nat)
    requires 24 <= w && m < 8
    ensures Binary(n, w)[16 + m] == ByteOn(n / 256 / 256, m)
  {
    NextByte(n, w, 8, m);
    SecondByte(n / 256, w - 8, m);
  }

  lemma {:induction false} FourthByte(n: nat, w: nat, m: nat)
    requires 32 <= w && m < 8
    ensures Binary(n, w)[24 + m] == ByteOn(n / 256 / 256 / 256, m)
  {
    NextByte(n, w, 16, m);
    ThirdByte(n / 256, w - 8, m);
  }

  lemma {:induction false} WordIs(n: nat, v: bv32)
    requires forall m :: 0 <= m < 8 ==> On32(v, 0 + m) == ByteOn(n, m)
    requires forall m :: 0 <= m < 8 ==> On32(v, 8 + m) == ByteOn(n / 256, m)
    requires forall m :: 0 <= m < 8 ==> On32(v, 16 + m) == ByteOn(n / 256 / 256, m)
    requires forall m :: 0 <= m < 8 ==> On32(v, 24 + m) == ByteOn(n / 256 / 256 / 256, m)
    ensures Binary(n, 32) == Half(v)
  {
    forall i | 0 <= i < 32 ensures Binary(n, 32)[i] == Half(v)[i] { WordAt(n, v, i); }
  }

  lemma {:induction false} WordAt(n: nat, v: bv32, i: nat)
    requires i < 32
    requires forall m :: 0 <= m < 8 ==> On32(v, 0 + m) == ByteOn(n, m)
    requires forall m :: 0 <= m < 8 ==> On32(v, 8 + m) == ByteOn(n / 256, m)
    requires forall m :: 0 <= m < 8 ==> On32(v, 16 + m) == ByteOn(n / 256 / 256, m)
    requires forall m :: 0 <= m < 8 ==> On32(v, 24 + m) == ByteOn(n / 256 / 256 / 256, m)
    ensures Binary(n, 32)[i] == On32(v, i)
  {
    if i < 8 {
      LowByte(n, 32, i);
      assert On32(v, 0 + i) == ByteOn(n, i);
    } else if i < 16 {
      SecondByte(n, 32, i - 8);
      assert On32(v, 8 + (i - 8)) == ByteOn(n / 256, i - 8);
    } else if i < 24 {
      ThirdByte(n, 32, i - 16);
      assert On32(v, 16 + (i - 16)) == ByteOn(n / 256 / 256, i - 16);
    } else {
      FourthByte(n, 32, i - 24);
      assert On32(v, 24 + (i - 24)) == ByteOn(n / 256 / 256 / 256, i - 24);
    }
  }

  lemma {:induction false} PolyIs()
    ensures POLY == Half(0xEDB88320)
  {
    WordIs(0xEDB88320, 0xEDB88320);
  }

  lemma {:induction false} OnesIs()
    ensures ONES == Half(0xFFFFFFFF)
  {
    WordIs(0xFFFFFFFF, 0xFFFFFFFF);
  }

  lemma {:induction false} AnswerIs()
    ensures Binary(0xCBF43926, 32) == Half(0xCBF43926)
  {
    WordIs(0xCBF43926, 0xCBF43926);
  }

  // ---- Steps on numbers ----

  /** One step of the division; `Inside` opens the statement, as in the next ones. */
  ghost predicate Shifts(c: bv32, d: bv32) {
    forall u: int {:trigger Inside(u)} :: Inside(u) ==> Shift(Half(c)) == Half(d)
  }

  ghost predicate Entered(c: bv32, b: nat, x: bv32) {
    forall u: int {:trigger Inside(u)} :: Inside(u) ==> XorBits(Half(c), Wide(Binary(b, 8))) == Half(x)
  }

  ghost predicate Fed(c: bv32, b: nat, d: bv32) {
    forall u: int {:trigger Inside(u)} :: Inside(u) ==> Bits(XorBits(Half(c), Wide(Binary(b, 8))), 8) == Half(d)
  }

  lemma {:induction false} ShiftIs(c: bv32, d: bv32)
    requires forall i :: 0 <= i < 32 ==>
      On32(d, i) == ((i < 31 && On32(c, i + 1)) != (On32(c, 0) && On32(0xEDB88320, i)))
    ensures Shifts(c, d)
  {
    PolyIs();
    forall i | 0 <= i < 32 ensures Shift(Half(c))[i] == Half(d)[i] { ShiftAt(c, i); }
    assert Shift(Half(c)) == Half(d);
  }

  lemma {:induction false} ShiftAt(c: bv32, i: nat)
    requires i < 32 && POLY == Half(0xEDB88320)
    ensures Shift(Half(c))[i] == ((i < 31 && On32(c, i + 1)) != (On32(c, 0) && On32(0xEDB88320, i)))
  {
    var h := Half(c);
    assert Down(h, 1)[i] == (i < 31 && h[i + 1]);
  }

  lemma {:induction false} XorIs(c: bv32, b: nat, x: bv32)
    requires forall i :: 0 <= i < 32 ==> On32(x, i) == (On32(c, i) != (i < 8 && ByteOn(b, i)))
    ensures Entered(c, b, x)
  {
    forall i | 0 <= i < 32 ensures XorBits(Half(c), Wide(Binary(b, 8)))[i] == Half(x)[i] { XorAt(c, b, i); }
    assert XorBits(Half(c), Wide(Binary(b, 8))) == Half(x);
  }

  lemma {:induction false} XorAt(c: bv32, b: nat, i: nat)
    requires i < 32
    ensures XorBits(Half(c), Wide(Binary(b, 8)))[i] == (On32(c, i) != (i < 8 && ByteOn(b, i)))
  {
    if i < 8 { ByteAt(b, i); }
  }

  lemma {:induction false} EightShifts(c: bv32, b: nat, x: bv32, d1: bv32, d2: bv32, d3: bv32, d4: bv32, d5: bv32,
      d6: bv32, d7: bv32, d8: bv32)
    requires Entered(c, b, x) && Shifts(x, d1) && Shifts(d1, d2) && Shifts(d2, d3) && Shifts(d3, d4)
    requires Shifts(d4, d5) && Shifts(d5, d6) && Shifts(d6, d7) && Shifts(d7, d8)
    ensures Fed(c, b, d8)
  {
    assert Inside(0);
    BitsEight(Half(x), Half(d1), Half(d2), Half(d3), Half(d4), Half(d5), Half(d6), Half(d7), Half(d8));
  }

  lemma {:induction false} BitsEight(x: Word, d1: Word, d2: Word, d3: Word, d4: Word, d5: Word, d6: Word, d7: Word,
      d8: Word)
    requires Shift(x) == d1 && Shift(d1) == d2 && Shift(d2) == d3 && Shift(d3) == d4
    requires Shift(d4) == d5 && Shift(d5) == d6 && Shift(d6) == d7 && Shift(d7) == d8
    ensures Bits(x, 8) == d8
  {
    assert Bits(x, 8) == Bits(d1, 7) == Bits(d2, 6);
    assert Bits(d2, 6) == Bits(d3, 5) == Bits(d4, 4);
    assert Bits(d4, 4) == Bits(d5, 3) == Bits(d6, 2);
    assert Bits(d6, 2) == Bits(d7, 1) == Bits(d8, 0);
  }

  // ---- The digits 1 to 9 ----

  lemma {:induction false} Digit1()
    ensures Fed(0xffffffff, 0x31, 0x7c231048)
  {
    XorIs(0xffffffff, 0x31, 0xffffffce);
    ShiftIs(0xffffffce, 0x7fffffe7); ShiftIs(0x7fffffe7, 0xd2477cd3);
    ShiftIs(0xd2477cd3, 0x849b3d49); ShiftIs(0x849b3d49, 0xaff51d84);
    ShiftIs(0xaff51d84, 0x57fa8ec2); ShiftIs(0x57fa8ec2, 0x2bfd4761);
    ShiftIs(0x2bfd4761, 0xf8462090); ShiftIs(0xf8462090, 0x7c231048);
    EightShifts(0xffffffff, 0x31, 0xffffffce, 0x7fffffe7, 0xd2477cd3, 0x849b3d49, 0xaff51d84,
      0x57fa8ec2, 0x2bfd4761, 0xf8462090, 0x7c231048);
  }

  lemma {:induction false} Digit2()
    ensures Fed(0x7c231048, 0x32, 0xb0acbb32)
  {
    XorIs(0x7c231048, 0x32, 0x7c23107a);
    ShiftIs(0x7c23107a, 0x3e11883d); ShiftIs(0x3e11883d, 0xf2b0473e);
    ShiftIs(0xf2b0473e, 0x7958239f); ShiftIs(0x7958239f, 0xd11492ef);
    ShiftIs(0xd11492ef, 0x8532ca57); ShiftIs(0x8532ca57, 0xaf21e60b);
    ShiftIs(0xaf21e60b, 0xba287025); ShiftIs(0xba287025, 0xb0acbb32);
    EightShifts(0x7c231048, 0x32, 0x7c23107a, 0x3e11883d, 0xf2b0473e, 0x7958239f, 0xd11492ef,
      0x8532ca57, 0xaf21e60b, 0xba287025, 0xb0acbb32);
  }

  lemma {:induction false} Digit3()
    ensures Fed(0xb0acbb32, 0x33, 0x77b79c2d)
  {
    XorIs(0xb0acbb32, 0x33, 0xb0acbb01);
    ShiftIs(0xb0acbb01, 0xb5eedea0); ShiftIs(0xb5eedea0, 0x5af76f50);
    ShiftIs(0x5af76f50, 0x2d7bb7a8); ShiftIs(0x2d7bb7a8, 0x16bddbd4);
    ShiftIs(0x16bddbd4, 0x0b5eedea); ShiftIs(0x0b5eedea, 0x05af76f5);
    ShiftIs(0x05af76f5, 0xef6f385a); ShiftIs(0xef6f385a, 0x77b79c2d);
    EightShifts(0xb0acbb32, 0x33, 0xb0acbb01, 0xb5eedea0, 0x5af76f50, 0x2d7bb7a8, 0x16bddbd4,
      0x0b5eedea, 0x05af76f5, 0xef6f385a, 0x77b79c2d);
  }

  lemma {:induction false} Digit4()
    ensures Fed(0x77b79c2d, 0x34, 0x641c1f5c)
  {
    XorIs(0x77b79c2d, 0x34, 0x77b79c19);
    ShiftIs(0x77b79c19, 0xd6634d2c); ShiftIs(0xd6634d2c, 0x6b31a696);
    ShiftIs(0x6b31a696, 0x3598d34b); ShiftIs(0x3598d34b, 0xf774ea85);
    ShiftIs(0xf774ea85, 0x9602f662); ShiftIs(0x9602f662, 0x4b017b31);
    ShiftIs(0x4b017b31, 0xc8383eb8); ShiftIs(0xc8383eb8, 0x641c1f5c);
    EightShifts(0x77b79c2d, 0x34, 0x77b79c19, 0xd6634d2c, 0x6b31a696, 0x3598d34b, 0xf774ea85,
      0x9602f662, 0x4b017b31, 0xc8383eb8, 0x641c1f5c);
  }

  lemma {:induction false} Digit5()
    ensures Fed(0x641c1f5c, 0x35, 0x340ac5e3)
  {
    XorIs(0x641c1f5c, 0x35, 0x641c1f69);
    ShiftIs(0x641c1f69, 0xdfb68c94); ShiftIs(0xdfb68c94, 0x6fdb464a);
    ShiftIs(0x6fdb464a, 0x37eda325); ShiftIs(0x37eda325, 0xf64e52b2);
    ShiftIs(0xf64e52b2, 0x7b272959); ShiftIs(0x7b272959, 0xd02b178c);
    ShiftIs(0xd02b178c, 0x68158bc6); ShiftIs(0x68158bc6, 0x340ac5e3);
    EightShifts(0x641c1f5c, 0x35, 0x641c1f69, 0xdfb68c94, 0x6fdb464a, 0x37eda325, 0xf64e52b2,
      0x7b272959, 0xd02b178c, 0x68158bc6, 0x340ac5e3);
  }

  lemma {:induction false} Digit6()
    ensures Fed(0x340ac5e3, 0x36, 0xf68d2c9e)
  {
    XorIs(0x340ac5e3, 0x36, 0x340ac5d5);
    ShiftIs(0x340ac5d5, 0xf7bde1ca); ShiftIs(0xf7bde1ca, 0x7bdef0e5);
    ShiftIs(0x7bdef0e5, 0xd057fb52); ShiftIs(0xd057fb52, 0x682bfda9);
    ShiftIs(0x682bfda9, 0xd9ad7df4); ShiftIs(0xd9ad7df4, 0x6cd6befa);
    ShiftIs(0x6cd6befa, 0x366b5f7d); ShiftIs(0x366b5f7d, 0xf68d2c9e);
    EightShifts(0x340ac5e3, 0x36, 0x340ac5d5, 0xf7bde1ca, 0x7bdef0e5, 0xd057fb52, 0x682bfda9,
      0xd9ad7df4, 0x6cd6befa, 0x366b5f7d, 0xf68d2c9e);
  }

  lemma {:induction false} Digit7()
    ensures Fed(0xf68d2c9e, 0x37, 0xaffc9660)
  {
    XorIs(0xf68d2c9e, 0x37, 0xf68d2ca9);
    ShiftIs(0xf68d2ca9, 0x96fe1574); ShiftIs(0x96fe1574, 0x4b7f0aba);
    ShiftIs(0x4b7f0aba, 0x25bf855d); ShiftIs(0x25bf855d, 0xff67418e);
    ShiftIs(0xff67418e, 0x7fb3a0c7); ShiftIs(0x7fb3a0c7, 0xd2615343);
    ShiftIs(0xd2615343, 0x84882a81); ShiftIs(0x84882a81, 0xaffc9660);
    EightShifts(0xf68d2c9e, 0x37, 0xf68d2ca9, 0x96fe1574, 0x4b7f0aba, 0x25bf855d, 0xff67418e,
      0x7fb3a0c7, 0xd2615343, 0x84882a81, 0xaffc9660);
  }

  lemma {:induction false} Digit8()
    ensures Fed(0xaffc9660, 0x38, 0x651f2550)
  {
    XorIs(0xaffc9660, 0x38, 0xaffc9658);
    ShiftIs(0xaffc9658, 0x57fe4b2c); ShiftIs(0x57fe4b2c, 0x2bff2596);
    ShiftIs(0x2bff2596, 0x15ff92cb); ShiftIs(0x15ff92cb, 0xe7474a45);
    ShiftIs(0xe7474a45, 0x9e1b2602); ShiftIs(0x9e1b2602, 0x4f0d9301);
    ShiftIs(0x4f0d9301, 0xca3e4aa0); ShiftIs(0xca3e4aa0, 0x651f2550);
    EightShifts(0xaffc9660, 0x38, 0xaffc9658, 0x57fe4b2c, 0x2bff2596, 0x15ff92cb, 0xe7474a45,
      0x9e1b2602, 0x4f0d9301, 0xca3e4aa0, 0x651f2550);
  }

  lemma {:induction false} Digit9()
    ensures Fed(0x651f2550, 0x39, 0x340bc6d9)
  {
    XorIs(0x651f2550, 0x39, 0x651f2569);
    ShiftIs(0x651f2569, 0xdf371194); ShiftIs(0xdf371194, 0x6f9b88ca);
    ShiftIs(0x6f9b88ca, 0x37cdc465); ShiftIs(0x37cdc465, 0xf65e6112);
    ShiftIs(0xf65e6112, 0x7b2f3089); ShiftIs(0x7b2f3089, 0xd02f1b64);
    ShiftIs(0xd02f1b64, 0x68178db2); ShiftIs(0x68178db2, 0x340bc6d9);
    EightShifts(0x651f2550, 0x39, 0x651f2569, 0xdf371194, 0x6f9b88ca, 0x37cdc465, 0xf65e6112,
      0x7b2f3089, 0xd02f1b64, 0x68178db2, 0x340bc6d9);
  }

  /** A byte more. */
  lemma {:induction false} FeedNext(c: bv32, b: nat, d: bv32, data: seq<Byte>, out: Word)
    requires Fed(c, b, d) && Feed(Half(d), data) == out
    ensures Feed(Half(c), [Binary(b, 8)] + data) == out
  {
    assert Inside(0);
    assert ([Binary(b, 8)] + data)[1..] == data;
  }

  function Digits(k: nat): (r: seq<Byte>)
    requires 1 <= k <= 10
    decreases 10 - k
  {
    if k == 10 then [] else [Binary(0x30 + k, 8)] + Digits(k + 1)
  }

  lemma {:induction false} From9()
    ensures Feed(Half(0x651f2550), Digits(9)) == Half(0x340bc6d9)
  {
    Digit9();
    FeedNext(0x651f2550, 0x39, 0x340bc6d9, Digits(10), Half(0x340bc6d9));
  }

  lemma {:induction false} From8()
    ensures Feed(Half(0xaffc9660), Digits(8)) == Half(0x340bc6d9)
  {
    Digit8();
    From9();
    FeedNext(0xaffc9660, 0x38, 0x651f2550, Digits(9), Half(0x340bc6d9));
  }

  lemma {:induction false} From7()
    ensures Feed(Half(0xf68d2c9e), Digits(7)) == Half(0x340bc6d9)
  {
    Digit7();
    From8();
    FeedNext(0xf68d2c9e, 0x37, 0xaffc9660, Digits(8), Half(0x340bc6d9));
  }

  lemma {:induction false} From6()
    ensures Feed(Half(0x340ac5e3), Digits(6)) == Half(0x340bc6d9)
  {
    Digit6();
    From7();
    FeedNext(0x340ac5e3, 0x36, 0xf68d2c9e, Digits(7), Half(0x340bc6d9));
  }

  lemma {:induction false} From5()
    ensures Feed(Half(0x641c1f5c), Digits(5)) == Half(0x340bc6d9)
  {
    Digit5();
    From6();
    FeedNext(0x641c1f5c, 0x35, 0x340ac5e3, Digits(6), Half(0x340bc6d9));
  }

  lemma {:induction false} From4()
    ensures Feed(Half(0x77b79c2d), Digits(4)) == Half(0x340bc6d9)
  {
    Digit4();
    From5();
    FeedNext(0x77b79c2d, 0x34, 0x641c1f5c, Digits(5), Half(0x340bc6d9));
  }

  lemma {:induction false} From3()
    ensures Feed(Half(0xb0acbb32), Digits(3)) == Half(0x340bc6d9)
  {
    Digit3();
    From4();
    FeedNext(0xb0acbb32, 0x33, 0x77b79c2d, Digits(4), Half(0x340bc6d9));
  }

  lemma {:induction false} From2()
    ensures Feed(Half(0x7c231048), Digits(2)) == Half(0x340bc6d9)
  {
    Digit2();
    From3();
    FeedNext(0x7c231048, 0x32, 0xb0acbb32, Digits(3), Half(0x340bc6d9));
  }

  lemma {:induction false} From1()
    ensures Feed(Half(0xffffffff), Digits(1)) == Half(0x340bc6d9)
  {
    Digit1();
    From2();
    FeedNext(0xffffffff, 0x31, 0x7c231048, Digits(2), Half(0x340bc6d9));
  }

  lemma {:induction false} XorWords(a: bv32, b: bv32, c: bv32)
    requires forall i :: 0 <= i < 32 ==> On32(c, i) == (On32(a, i) != On32(b, i))
    ensures XorBits(Half(a), Half(b)) == Half(c)
  {
  }

  lemma {:induction false} Finished()
    ensures XorBits(Half(0x340bc6d9), Half(0xFFFFFFFF)) == Half(0xCBF43926)
  {
    XorWords(0x340bc6d9, 0xFFFFFFFF, 0xCBF43926);
  }

  /** The checksum of the text 123456789 is the published check value. */
  lemma {:induction false} CheckValue()
    ensures Crc32(Zeros(32), Digits(1)) == Binary(0xCBF43926, 32)
  {
    OnesIs();
    AnswerIs();
    assert XorBits(Zeros(32), ONES) == ONES;
    From1();
    Finished();
  }
}

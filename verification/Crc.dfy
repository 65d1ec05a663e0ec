/** CRC-32: the table-driven loop against the bit-by-bit reflected definition (section 8 of RFC 1952). */
module Crc {
  import opened Words
  import opened BitStrings

  type Word = w: seq<bool> | |w| == 32 witness seq(32, _ => false)
  type Byte = b: seq<bool> | |b| == 8 witness seq(8, _ => false)

  const POLY: Word := Binary(0xEDB88320, 32)
  const ONES: Word := Binary(0xFFFFFFFF, 32)

  /** `c >> n`. */
  function Down(c: Word, n: nat): Word
    requires n <= 32
  {
    c[n..] + Zeros(n)
  }

  /** Divide one bit out. */
  function Shift(c: Word): Word {
    if c[0] then XorBits(Down(c, 1), POLY) else Down(c, 1)
  }

  function Bits(c: Word, n: nat): Word
    decreases n
  {
    if n == 0 then c else Bits(Shift(c), n - 1)
  }

  function Wide(b: Byte): Word { b + Zeros(24) }

  /** The register after every byte has been fed in, lowest bit first. */
  function Feed(c: Word, data: seq<Byte>): Word
    decreases |data|
  {
    if data == [] then c else Feed(Bits(XorBits(c, Wide(data[0])), 8), data[1..])
  }

  /** The checksum of a non-empty input that continues from an earlier checksum; 0 for none. */
  function Crc32(crc: Word, data: seq<Byte>): Word {
    if data == [] then Zeros(32) else XorBits(Feed(XorBits(crc, ONES), data), ONES)
  }

  // ---- The table ----

  predicate Table(t: seq<Word>) {
    |t| == 256 && forall i :: 0 <= i < 256 ==> t[i] == Bits(Binary(i, 32), 8)
  }

  /** `_crc32_initial_table`. */
  method InitialTable() returns (t: seq<Word>)
    ensures Table(t)
  {
    t := [];
    for i := 0 to 256
      invariant |t| == i && forall k :: 0 <= k < i ==> t[k] == Bits(Binary(k, 32), 8)
    {
      var c := DivideByte(Binary(i, 32));
      t := t + [c];
    }
  }

  method DivideByte(c0: Word) returns (c: Word)
    ensures c == Bits(c0, 8)
  {
    c := c0;
    for bit := 0 to 8
      invariant Bits(c, 8 - bit) == Bits(c0, 8)
    {
      ghost var next := Shift(c);
      assert Bits(c, 8 - bit) == Bits(next, 7 - bit);
      c := ShiftOnce(c);
    }
  }

  method ShiftOnce(c0: Word) returns (c: Word)
    ensures c == Shift(c0)
  {
    if c0[0] {
      c := XorBits(Down(c0, 1), POLY);
    } else {
      c := Down(c0, 1);
    }
  }

  // ---- One byte through the table ----

  lemma {:induction false} ShiftXor(a: Word, b: Word)
    ensures Shift(XorBits(a, b)) == XorBits(Shift(a), Shift(b))
  {
    assert Down(XorBits(a, b), 1) == XorBits(Down(a, 1), Down(b, 1));
  }

  /** Dividing is linear. */
  lemma {:induction false} BitsXor(a: Word, b: Word, n: nat)
    ensures Bits(XorBits(a, b), n) == XorBits(Bits(a, n), Bits(b, n))
    decreases n
  {
    if n > 0 {
      ShiftXor(a, b);
      BitsXor(Shift(a), Shift(b), n - 1);
    }
  }

  /** Bits above the lowest n only move down. */
  lemma {:induction false} BitsHigh(h: seq<bool>, low: nat, n: nat)
    requires |h| + n + low == 32
    ensures Bits(Zeros(n) + h + Zeros(low), n) == h + Zeros(low + n)
    decreases n
  {
    var c := Zeros(n) + h + Zeros(low);
    if n == 0 {
      assert c == h + Zeros(low + n);
    } else {
      assert Shift(c) == Zeros(n - 1) + h + Zeros(low + 1);
      BitsHigh(h, low + 1, n - 1);
    }
  }

  lemma {:induction false} BitsSplit(x: Word)
    ensures Bits(x, 8) == XorBits(Down(x, 8), Bits(Wide(x[..8]), 8))
  {
    var high := Zeros(8) + x[8..] + Zeros(0);
    assert x == XorBits(high, Wide(x[..8]));
    BitsXor(high, Wide(x[..8]), 8);
    BitsHigh(x[8..], 0, 8);
  }

  /** One step of the loop feeds one byte. */
  lemma {:induction false} TableStep(t: seq<Word>, c: Word, b: Byte)
    requires Table(t)
    ensures Number(XorBits(c[..8], b)) < 256
    ensures XorBits(Down(c, 8), t[Number(XorBits(c[..8], b))]) == Bits(XorBits(c, Wide(b)), 8)
  {
    var low, x := XorBits(c[..8], b), XorBits(c, Wide(b));
    NumberBound(low);
    EightBits();
    BinaryNumber(low, 32);
    assert x[..8] == low && Down(x, 8) == Down(c, 8);
    BitsSplit(x);
  }

  lemma {:induction false} EightBits()
    ensures Pow2(8) == 256
  {
    assert Pow2(4) == 16;
  }

  /** `crc32` computes the bit-by-bit checksum, for every starting value and input. */
  method TableCrc(t: seq<Word>, crc0: Word, data: seq<Byte>) returns (crc: Word)
    requires Table(t)
    ensures crc == Crc32(crc0, data)
  {
    if data == [] { return Zeros(32); }
    crc := XorBits(crc0, ONES);
    for i := 0 to |data|
      invariant Feed(crc, data[i..]) == Feed(XorBits(crc0, ONES), data)
    {
      TableStep(t, crc, data[i]);
      assert data[i..][1..] == data[i + 1..];
      crc := XorBits(Down(crc, 8), t[Number(XorBits(crc[..8], data[i]))]);
    }
    crc := XorBits(crc, ONES);
  }

  // ---- Chaining ----

  lemma {:induction false} FeedAppend(c: Word, a: seq<Byte>, b: seq<Byte>)
    ensures Feed(c, a + b) == Feed(Feed(c, a), b)
    decreases |a|
  {
    if a == [] {
      assert a + b == b;
    } else {
      assert (a + b)[1..] == a[1..] + b;
      FeedAppend(Bits(XorBits(c, Wide(a[0])), 8), a[1..], b);
    }
  }

  /** A checksum can be continued piece by piece; an empty piece breaks the chain by answering 0. */
  lemma {:induction false} Chaining(c: Word, a: seq<Byte>, b: seq<Byte>)
    requires a != [] && b != []
    ensures Crc32(Crc32(c, a), b) == Crc32(c, a + b)
  {
    FeedAppend(XorBits(c, ONES), a, b);
    XorTwice(Feed(XorBits(c, ONES), a), ONES);
  }
}

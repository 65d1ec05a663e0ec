/** Numbers written out in a proof, and their bits. */
module Masks {
  import opened BitStrings

  predicate On32(v: bv32, i: nat)
    requires i < 32
  {
    if i < 16 then
      if i < 8 then
        if i < 4 then
          if i == 0 then v & 0x1 != 0 else if i == 1 then v & 0x2 != 0
          else if i == 2 then v & 0x4 != 0 else v & 0x8 != 0
        else
          if i == 4 then v & 0x10 != 0 else if i == 5 then v & 0x20 != 0
          else if i == 6 then v & 0x40 != 0 else v & 0x80 != 0
      else
        if i < 12 then
          if i == 8 then v & 0x100 != 0 else if i == 9 then v & 0x200 != 0
          else if i == 10 then v & 0x400 != 0 else v & 0x800 != 0
        else
          if i == 12 then v & 0x1000 != 0 else if i == 13 then v & 0x2000 != 0
          else if i == 14 then v & 0x4000 != 0 else v & 0x8000 != 0
    else
      if i < 24 then
        if i < 20 then
          if i == 16 then v & 0x10000 != 0 else if i == 17 then v & 0x20000 != 0
          else if i == 18 then v & 0x40000 != 0 else v & 0x80000 != 0
        else
          if i == 20 then v & 0x100000 != 0 else if i == 21 then v & 0x200000 != 0
          else if i == 22 then v & 0x400000 != 0 else v & 0x800000 != 0
      else
        if i < 28 then
          if i == 24 then v & 0x1000000 != 0 else if i == 25 then v & 0x2000000 != 0
          else if i == 26 then v & 0x4000000 != 0 else v & 0x8000000 != 0
        else
          if i == 28 then v & 0x10000000 != 0 else if i == 29 then v & 0x20000000 != 0
          else if i == 30 then v & 0x40000000 != 0 else v & 0x80000000 != 0
  }

  predicate On64(v: bv64, i: nat)
    requires i < 64
  {
    if i < 32 then On32((v & 0xffff_ffff) as bv32, i) else On32((v >> 32) as bv32, i - 32)
  }

  function Half(v: bv32): (r: seq<bool>)
    ensures |r| == 32
  {
    seq(32, i requires 0 <= i < 32 => On32(v, i))
  }

  /** Bit m of a byte, the lowest first. */
  predicate ByteOn(v: int, m: nat)
    requires m < 8
  {
    match m
    case 0 => v % 2 == 1
    case 1 => v / 2 % 2 == 1
    case 2 => v / 2 / 2 % 2 == 1
    case 3 => v / 2 / 2 / 2 % 2 == 1
    case 4 => v / 2 / 2 / 2 / 2 % 2 == 1
    case 5 => v / 2 / 2 / 2 / 2 / 2 % 2 == 1
    case 6 => v / 2 / 2 / 2 / 2 / 2 / 2 % 2 == 1
    case 7 => v / 2 / 2 / 2 / 2 / 2 / 2 / 2 % 2 == 1
  }

  lemma {:induction false} BinaryAt(v: nat, w: nat, m: nat)
    requires 0 < m < w
    ensures Binary(v, w)[m] == Binary(v / 2, w - 1)[m - 1]
  {
  }

  lemma {:induction false} BinaryFirst(v: nat, w: nat)
    requires 0 < w
    ensures Binary(v, w)[0] == (v % 2 == 1)
  {
  }

  lemma {:induction false} NibbleAt(v: nat, m: nat)
    requires m < 4
    ensures Binary(v, 4)[m] == ((if m == 0 then v else if m == 1 then v / 2 else if m == 2 then v / 2 / 2
      else v / 2 / 2 / 2) % 2 == 1)
  {
    if m >= 1 { BinaryAt(v, 4, m); }
    if m >= 2 { BinaryAt(v / 2, 3, m - 1); }
    if m >= 3 { BinaryAt(v / 2 / 2, 2, m - 2); }
  }

  lemma {:induction false} ByteAt(v: nat, m: nat)
    requires m < 8
    ensures Binary(v, 8)[m] == ByteOn(v, m)
  {
    if m < 4 { ByteLow(v, m); } else { ByteHigh(v, m); }
  }

  lemma {:induction false} ByteLow(v: nat, m: nat)
    requires m < 4
    ensures Binary(v, 8)[m] == ByteOn(v, m)
  {
    if m >= 1 { BinaryAt(v, 8, m); }
    if m >= 2 { BinaryAt(v / 2, 7, m - 1); }
    if m >= 3 { BinaryAt(v / 2 / 2, 6, m - 2); }
  }

  lemma {:induction false} ByteHigh(v: nat, m: nat)
    requires 4 <= m < 8
    ensures Binary(v, 8)[m] == ByteOn(v, m)
  {
    BinaryAt(v, 8, m);
    BinaryAt(v / 2, 7, m - 1);
    BinaryAt(v / 2 / 2, 6, m - 2);
    BinaryAt(v / 2 / 2 / 2, 5, m - 3);
    NibbleAt(v / 2 / 2 / 2 / 2, m - 4);
  }
}

/** The complementation property of the standard: complementing key and data complements the ciphertext. */
module DesComplement {
  import opened Basics
  import opened Words
  import opened BitStrings
  import opened DesTables
  import opened Des

  function Not(b: Bits): (r: Bits)
    ensures |r| == |b| && forall i :: 0 <= i < |b| ==> r[i] == !b[i]
  {
    seq(|b|, i requires 0 <= i < |b| => !b[i])
  }

  function Flipped(bytes: seq<Byte>): (r: seq<Byte>)
    ensures |r| == |bytes| && forall i :: 0 <= i < |bytes| ==> r[i] == 255 - bytes[i]
  {
    seq(|bytes|, i requires 0 <= i < |bytes| => 255 - bytes[i])
  }

  function NotAll(keys: seq<SubKey>): (r: seq<SubKey>)
    ensures |r| == |keys| && forall i :: 0 <= i < |keys| ==> r[i] == Not(keys[i])
  {
    seq(|keys|, i requires 0 <= i < |keys| => Not(keys[i]))
  }

  lemma {:induction false} NotJoined(a: Bits, b: Bits)
    ensures Not(a + b) == Not(a) + Not(b)
  {
  }

  lemma {:induction false} NotTwice(b: Bits)
    ensures Not(Not(b)) == b
  {
  }

  // ---- Bytes ----

  lemma {:induction false} FlippedDigits(n: nat, w: nat)
    requires n < Pow2(w)
    ensures Binary(Pow2(w) - 1 - n, w) == Not(Binary(n, w))
    decreases w
  {
    if w > 0 {
      FlippedDigits(n / 2, w - 1);
      var m := Pow2(w) - 1 - n;
      assert m / 2 == Pow2(w - 1) - 1 - n / 2 && (m % 2 == 1) == !(n % 2 == 1);
      NotJoined([n % 2 == 1], Binary(n / 2, w - 1));
      assert Not([n % 2 == 1]) == [m % 2 == 1];
    }
  }

  lemma {:induction false} FlippedByte(v: Byte)
    ensures Binary(255 - v, 8) == Not(Binary(v, 8))
  {
    assert Pow2(4) == 16;
    FlippedDigits(v, 8);
  }

  lemma {:induction false} FlippedBits(bytes: seq<Byte>)
    ensures ToBits(Flipped(bytes)) == Not(ToBits(bytes))
    decreases |bytes|
  {
    if bytes == [] {
      assert Flipped(bytes) == [];
    } else {
      FlippedBits(bytes[1..]);
      FlippedFirstByte(bytes, Binary(bytes[0], 8), ToBits(bytes[1..]));
    }
  }

  lemma {:induction false} FlippedFirstByte(bytes: seq<Byte>, first: Bits, rest: Bits)
    requires bytes != [] && first == Binary(bytes[0], 8) && ToBits(Flipped(bytes[1..])) == Not(rest)
    ensures ToBits(Flipped(bytes)) == Not(first + rest)
  {
    var f := Flipped(bytes);
    FlippedTail(bytes);
    FlippedByte(bytes[0]);
    FirstByte(f, Not(first), Not(rest));
    NotJoined(first, rest);
  }

  lemma {:induction false} FlippedTail(bytes: seq<Byte>)
    requires bytes != []
    ensures Flipped(bytes)[0] == 255 - bytes[0] && Flipped(bytes)[1..] == Flipped(bytes[1..])
  {
  }

  lemma {:induction false} FirstByte(bytes: seq<Byte>, first: Bits, rest: Bits)
    requires bytes != [] && Binary(bytes[0], 8) == first && ToBits(bytes[1..]) == rest
    ensures ToBits(bytes) == first + rest
  {
  }

  lemma {:induction false} FlippedBytes(bits: Bits)
    requires |bits| % 8 == 0
    ensures ToBytes(Not(bits)) == Flipped(ToBytes(bits))
  {
    BitsBack(bits);
    FlippedBits(ToBytes(bits));
    BytesBack(Flipped(ToBytes(bits)));
  }

  // ---- Rounds ----

  /** The round function does not see the complement: the two combined inputs are the same. */
  lemma {:induction false} MixBlind(r: Bits, key: SubKey)
    requires |r| == 32
    ensures Mix(Not(r), Not(key)) == Mix(r, key)
  {
    assert XorBits(ExpandOf(Not(r)), Not(key)) == XorBits(ExpandOf(r), key);
  }

  lemma {:induction false} RoundComplement(b: Block, key: SubKey)
    ensures Round(Not(b), Not(key)) == Not(Round(b, key)) && Swap(Not(b)) == Not(Swap(b))
  {
    var l, r := b[..32], b[32..];
    assert Not(b)[..32] == Not(l) && Not(b)[32..] == Not(r);
    MixBlind(r, key);
    var f := Mix(r, key);
    assert XorBits(Not(l), f) == Not(XorBits(l, f));
    NotJoined(XorBits(l, f), r);
    NotJoined(r, l);
  }

  lemma {:induction false} RoundsComplement(b: Block, keys: seq<SubKey>)
    ensures Rounds(Not(b), NotAll(keys)) == Not(Rounds(b, keys))
    decreases |keys|
  {
    if keys != [] {
      var c := Round(b, keys[0]);
      RoundComplement(b, keys[0]);
      RoundComplement(c, keys[0]);
      assert NotAll(keys)[1..] == NotAll(keys[1..]);
      if |keys| > 1 { RoundsComplement(Swap(c), keys[1..]); }
    }
  }

  // ---- Subkeys ----

  lemma {:induction false} RotatedComplement(key: Block, n: nat)
    requires n <= 16
    ensures Rotated(Not(key), n) == Not(Rotated(key, n))
  {
    if n == 0 {
      assert Chosen(Not(key)) == Not(Chosen(key));
    } else {
      RotatedComplement(key, n - 1);
      RolComplement(Rotated(key, n - 1), Moves(n - 1));
    }
  }

  lemma {:induction false} RolComplement(d: Halves, t: nat)
    requires t <= 28
    ensures Rol(Not(d), t) == Not(Rol(d, t))
  {
  }

  lemma {:induction false} SubKeysComplement(key: Block)
    ensures SubKeys(Not(key)) == NotAll(SubKeys(key))
  {
    forall n | 0 <= n < 16 ensures SubKeys(Not(key))[n] == Not(SubKeys(key)[n]) {
      RotatedComplement(key, n + 1);
      assert SubKeyOf(Not(Rotated(key, n + 1))) == Not(SubKeyOf(Rotated(key, n + 1)));
    }
  }

  // ---- Whole inputs ----

  lemma {:induction false} ThroughComplement(e: Eight, keys: seq<SubKey>)
    ensures Through(Flipped(e), NotAll(keys)) == Flipped(Through(e, keys))
  {
    FlippedBits(e);
    var start := ToBits(e);
    assert IpOf(Not(start)) == Not(IpOf(start));
    RoundsComplement(IpOf(start), keys);
    var end := Rounds(IpOf(start), keys);
    assert IpBackOf(Not(end)) == Not(IpBackOf(end));
    FlippedBytes(IpBackOf(end));
  }

  lemma {:induction false} FlippedJoined(a: seq<Byte>, b: seq<Byte>)
    ensures Flipped(a + b) == Flipped(a) + Flipped(b)
  {
  }

  lemma {:induction false} FlippedParts(data: seq<Byte>)
    requires |data| >= 8
    ensures Flipped(data)[..8] == Flipped(data[..8]) && Flipped(data)[8..] == Flipped(data[8..])
  {
  }

  lemma {:induction false} BlocksComplement(data: seq<Byte>, keys: seq<SubKey>)
    requires |data| % 8 == 0
    ensures Blocks(Flipped(data), NotAll(keys)) == Flipped(Blocks(data, keys))
    decreases |data|
  {
    if data == [] {
      assert Flipped(data) == [] && Flipped(Blocks(data, keys)) == [];
    } else {
      var t, r := Through(data[..8], keys), Blocks(data[8..], keys);
      assert Blocks(data, keys) == t + r;
      FlippedFirst(data, keys, t, r) by { BlocksComplement(data[8..], keys); }
      FlippedJoined(t, r);
    }
  }

  lemma {:induction false} FlippedFirst(data: seq<Byte>, keys: seq<SubKey>, t: Eight, r: seq<Byte>)
    requires data != [] && |data| % 8 == 0 && t == Through(data[..8], keys)
    requires Blocks(Flipped(data[8..]), NotAll(keys)) == Flipped(r)
    ensures Blocks(Flipped(data), NotAll(keys)) == Flipped(t) + Flipped(r)
  {
    FlippedParts(data);
    ThroughComplement(data[..8], keys);
    FirstBlock(Flipped(data), NotAll(keys), Flipped(t), Flipped(r));
  }

  lemma {:induction false} FirstBlock(data: seq<Byte>, keys: seq<SubKey>, t: Eight, r: seq<Byte>)
    requires data != [] && |data| % 8 == 0 && t == Through(data[..8], keys) && r == Blocks(data[8..], keys)
    ensures Blocks(data, keys) == t + r
  {
  }

  /** Complementing every bit of key and data complements every bit of the ciphertext. */
  lemma {:induction false} EncryptedComplement(key: Eight, data: seq<Byte>)
    requires data != [] && |data| % 8 == 0
    ensures Encrypted(key, data).Some?
      && Encrypted(Flipped(key), Flipped(data)) == Some(Flipped(Encrypted(key, data).value))
  {
    FlippedBits(key);
    SubKeysComplement(ToBits(key));
    BlocksComplement(data, SubKeys(ToBits(key)));
  }
}

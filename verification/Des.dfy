/** DES in its electronic code book mode: decryption undoes encryption (FIPS 46-3). */
module Des {
  import opened Basics
  import opened Words
  import opened BitStrings
  import opened DesTables

  type Byte = b: int | 0 <= b < 256
  type Bits = seq<bool>

  // ---- Bytes and bits ----

  /** `Char8ToBit64`: each byte, lowest bit first. */
  function ToBits(bytes: seq<Byte>): (r: Bits)
    ensures |r| == 8 * |bytes|
  {
    if bytes == [] then [] else Binary(bytes[0], 8) + ToBits(bytes[1..])
  }

  /** `Bit64ToChar8`. */
  function ToBytes(bits: Bits): (r: seq<Byte>)
    requires |bits| % 8 == 0
    ensures 8 * |r| == |bits|
    decreases |bits|
  {
    if bits == [] then [] else ByteBound(bits[..8]); [Number(bits[..8])] + ToBytes(bits[8..])
  }

  lemma {:induction false} ByteBound(bits: Bits)
    requires |bits| == 8
    ensures Number(bits) < 256
  {
    NumberBound(bits);
    assert Pow2(4) == 16;
  }

  lemma {:induction false} BytesBack(bytes: seq<Byte>)
    ensures ToBytes(ToBits(bytes)) == bytes
    decreases |bytes|
  {
    if bytes != [] {
      BytesBack(bytes[1..]);
      var r := ToBits(bytes);
      assert r[..8] == Binary(bytes[0], 8) && r[8..] == ToBits(bytes[1..]);
      assert bytes[0] < Pow2(8) by { assert Pow2(4) == 16; }
      NumberBinary(bytes[0], 8);
    }
  }

  lemma {:induction false} BitsBack(bits: Bits)
    requires |bits| % 8 == 0
    ensures ToBits(ToBytes(bits)) == bits
    decreases |bits|
  {
    if bits != [] {
      BitsBack(bits[8..]);
      BinaryNumber(bits[..8], 8);
      assert bits[..8] + Zeros(0) == bits[..8];
      assert bits == bits[..8] + bits[8..];
    }
  }

  // ---- Permutations ----

  function IpOf(d: Bits): (r: Bits)
    requires |d| == 64
    ensures |r| == 64
  {
    seq(64, i requires 0 <= i < 64 => d[Ip(i) - 1])
  }

  function IpBackOf(d: Bits): (r: Bits)
    requires |d| == 64
    ensures |r| == 64
  {
    seq(64, i requires 0 <= i < 64 => d[IpBack(i) - 1])
  }

  lemma {:induction false} IpUndone(d: Bits)
    requires |d| == 64
    ensures IpBackOf(IpOf(d)) == d && IpOf(IpBackOf(d)) == d
  {
    var a, b := IpBackOf(IpOf(d)), IpOf(IpBackOf(d));
    forall i | 0 <= i < 64 ensures a[i] == d[i] && b[i] == d[i] {
      Inverse(i);
    }
  }

  // ---- The round function ----

  function ExpandOf(r: Bits): (x: Bits)
    requires |r| == 32
    ensures |x| == 48
  {
    seq(48, i requires 0 <= i < 48 => r[Expand(i) - 1])
  }

  function SpreadOf(r: Bits): (x: Bits)
    requires |r| == 32
    ensures |x| == 32
  {
    seq(32, i requires 0 <= i < 32 => r[Spread(i) - 1])
  }

  function Four(v: int): (r: Bits)
    ensures |r| == 4
  {
    [v / 8 % 2 == 1, v / 4 % 2 == 1, v / 2 % 2 == 1, v % 2 == 1]
  }

  /** What S box n gives for its six bits. */
  function Looked(n: nat, six: Bits): (r: Bits)
    ensures |r| == 4
  {
    if n >= 8 || |six| != 6 then Four(0)
    else Four(Box(n, six[0], six[1], six[2], six[3], six[4], six[5]))
  }

  ghost predicate Nibbles(box: (nat, Bits) -> Bits) {
    forall n, six :: |box(n, six)| == 4
  }

  /** The first n boxes, side by side. */
  function Substituted(box: (nat, Bits) -> Bits, d: Bits, n: nat): (r: Bits)
    requires |d| == 48 && n <= 8
  {
    if n == 0 then [] else Substituted(box, d, n - 1) + box(n - 1, d[6 * (n - 1)..6 * n])
  }

  lemma {:induction false} SubstitutedLength(box: (nat, Bits) -> Bits, d: Bits, n: nat)
    requires Nibbles(box) && |d| == 48 && n <= 8
    ensures |Substituted(box, d, n)| == 4 * n
  {
    if n > 0 { SubstitutedLength(box, d, n - 1); }
  }

  function Mix(r: Bits, key: Bits): (x: Bits)
    requires |r| == 32 && |key| == 48
    ensures |x| == 32
  {
    SubstitutedLength(Looked, XorBits(ExpandOf(r), key), 8);
    SpreadOf(Substituted(Looked, XorBits(ExpandOf(r), key), 8))
  }

  /** `DES_SBOX` works in place: a box's output never overtakes the input still to be read. */
  method SubstituteInPlace(box: (nat, Bits) -> Bits, data: array<bool>)
    requires Nibbles(box) && data.Length == 48
    modifies data
    ensures data[..32] == Substituted(box, old(data[..]), 8)
  {
    ghost var d := data[..];
    for n := 0 to 8
      invariant data[..4 * n] == Substituted(box, d, n)
      invariant forall i :: 6 * n <= i < 48 ==> data[i] == d[i]
    {
      assert data[6 * n..6 * n + 6] == d[6 * n..6 * (n + 1)];
      var f := box(n, data[6 * n..6 * n + 6]);
      WriteFour(data, 4 * n, f);
    }
  }

  method WriteFour(data: array<bool>, at: nat, f: Bits)
    requires |f| == 4 && at + 4 <= data.Length
    modifies data
    ensures data[..at + 4] == old(data[..at]) + f
    ensures forall i :: at + 4 <= i < data.Length ==> data[i] == old(data[i])
  {
    data[at], data[at + 1], data[at + 2], data[at + 3] := f[0], f[1], f[2], f[3];
  }

  // ---- The Feistel network ----

  type Block = b: Bits | |b| == 64 witness seq(64, _ => false)
  type SubKey = k: Bits | |k| == 48 witness seq(48, _ => false)

  /** One round: the left half is mixed with the right. */
  function Round(b: Block, key: SubKey): Block {
    XorBits(b[..32], Mix(b[32..], key)) + b[32..]
  }

  function Swap(b: Block): Block {
    b[32..] + b[..32]
  }

  /** All rounds, with no swap after the last. */
  function Rounds(b: Block, keys: seq<SubKey>): Block
    decreases |keys|
  {
    if keys == [] then b
    else if |keys| == 1 then Round(b, keys[0])
    else Rounds(Swap(Round(b, keys[0])), keys[1..])
  }

  function LastKeyFirst(keys: seq<SubKey>): (r: seq<SubKey>)
    ensures |r| == |keys|
  {
    if keys == [] then [] else LastKeyFirst(keys[1..]) + [keys[0]]
  }

  lemma {:induction false} RoundTwice(b: Block, key: SubKey)
    ensures Round(Round(b, key), key) == b && Swap(Swap(b)) == b
  {
    var r := Round(b, key);
    var mixed := Mix(b[32..], key);
    assert r[32..] == b[32..] && r[..32] == XorBits(b[..32], mixed);
    XorTwice(b[..32], mixed);
  }

  /** The last key of a longer list acts after a swap. */
  lemma {:induction false} RoundsLast(b: Block, keys: seq<SubKey>, k: SubKey)
    requires keys != []
    ensures Rounds(b, keys + [k]) == Round(Swap(Rounds(b, keys)), k)
    decreases |keys|
  {
    assert (keys + [k])[1..] == keys[1..] + [k];
    if |keys| == 1 {
      assert keys[1..] + [k] == [k];
    } else {
      RoundsLast(Swap(Round(b, keys[0])), keys[1..], k);
    }
  }

  /** The rounds with the keys in the opposite order undo the rounds. */
  lemma {:induction false} RoundsUndone(b: Block, keys: seq<SubKey>)
    ensures Rounds(Rounds(b, keys), LastKeyFirst(keys)) == b
    decreases |keys|
  {
    if |keys| == 1 {
      RoundTwice(b, keys[0]);
      assert LastKeyFirst(keys) == [keys[0]];
    } else if |keys| > 1 {
      var c := Swap(Round(b, keys[0]));
      RoundsUndone(c, keys[1..]);
      RoundsLast(Rounds(b, keys), LastKeyFirst(keys[1..]), keys[0]);
      RoundTwice(b, keys[0]);
      RoundTwice(Round(b, keys[0]), keys[0]);
    }
  }

  // ---- Subkeys ----

  type Halves = h: Bits | |h| == 56 witness seq(56, _ => false)

  /** `DES_ROL`: both 28-bit halves rotate left. */
  function Rol(d: Halves, t: nat): Halves
    requires t <= 28
  {
    d[t..28] + d[..t] + d[28 + t..] + d[28..28 + t]
  }

  function Chosen(key: Block): Halves {
    seq(56, i requires 0 <= i < 56 => key[Choose1(i) - 1])
  }

  function Rotated(key: Block, n: nat): Halves
    requires n <= 16
  {
    if n == 0 then Chosen(key) else Rol(Rotated(key, n - 1), Moves(n - 1))
  }

  function SubKeyOf(d: Halves): SubKey {
    seq(48, i requires 0 <= i < 48 => d[Choose2(i) - 1])
  }

  function SubKeys(key: Block): (r: seq<SubKey>)
    ensures |r| == 16
  {
    seq(16, n requires 0 <= n < 16 => SubKeyOf(Rotated(key, n + 1)))
  }

  method MakeSubKeys(key: Block) returns (keys: seq<SubKey>)
    ensures keys == SubKeys(key)
  {
    var temp := Chosen(key);
    keys := [];
    for n := 0 to 16
      invariant temp == Rotated(key, n)
      invariant |keys| == n && forall i :: 0 <= i < n ==> keys[i] == SubKeys(key)[i]
    {
      temp := Rol(temp, Moves(n));
      keys := keys + [SubKeyOf(temp)];
    }
  }

  // ---- Blocks ----

  type Eight = e: seq<Byte> | |e| == 8 witness [0, 0, 0, 0, 0, 0, 0, 0]

  /** A block through the network with the given keys. */
  function Through(e: Eight, keys: seq<SubKey>): Eight {
    ToBytes(IpBackOf(Rounds(IpOf(ToBits(e)), keys)))
  }

  lemma {:induction false} ThroughUndone(e: Eight, keys: seq<SubKey>)
    ensures Through(Through(e, keys), LastKeyFirst(keys)) == e
  {
    var start := IpOf(ToBits(e));
    var out := Rounds(start, keys);
    BitsBack(IpBackOf(out));
    IpUndone(out);
    RoundsUndone(start, keys);
    IpUndone(ToBits(e));
    BytesBack(e);
  }

  /** A round as the code takes it: the expanded half is combined with the key and goes through the boxes in place. */
  method RoundInPlace(b: Block, key: SubKey) returns (r: Block)
    ensures r == Round(b, key)
  {
    var x := XorBits(ExpandOf(b[32..]), key);
    var data := new bool[48](i requires 0 <= i < 48 => x[i]);
    assert data[..] == x;
    SubstituteInPlace(Looked, data);
    r := XorBits(b[..32], SpreadOf(data[..32])) + b[32..];
  }

  /** `__des_encryptBlock`. */
  method EncryptBlock(e: Eight, keys: seq<SubKey>) returns (r: Eight)
    requires |keys| == 16
    ensures r == Through(e, keys)
  {
    var bits := IpOf(ToBits(e));
    for cnt := 0 to 16
      invariant |bits| == 64 && (cnt < 16 ==> Rounds(bits, keys[cnt..]) == Rounds(IpOf(ToBits(e)), keys))
      invariant cnt == 16 ==> bits == Rounds(IpOf(ToBits(e)), keys)
    {
      assert keys[cnt..][1..] == keys[cnt + 1..] && keys[cnt..][0] == keys[cnt];
      bits := RoundInPlace(bits, keys[cnt]);
      if cnt != 15 { bits := Swap(bits); }
    }
    r := ToBytes(IpBackOf(bits));
  }

  lemma {:induction false} LastKeyFirstAt(keys: seq<SubKey>, i: nat)
    requires i < |keys|
    ensures LastKeyFirst(keys)[i] == keys[|keys| - 1 - i]
    decreases |keys|
  {
    if i < |keys| - 1 { LastKeyFirstAt(keys[1..], i); }
  }

  /** `__des_decryptBlock`: the subkeys from the last to the first. */
  method DecryptBlock(e: Eight, keys: seq<SubKey>) returns (r: Eight)
    requires |keys| == 16
    ensures r == Through(e, LastKeyFirst(keys))
  {
    ghost var back := LastKeyFirst(keys);
    var bits := IpOf(ToBits(e));
    for cnt := 16 downto 0
      invariant |bits| == 64 && (cnt > 0 ==> Rounds(bits, back[16 - cnt..]) == Rounds(IpOf(ToBits(e)), back))
      invariant cnt == 0 ==> bits == Rounds(IpOf(ToBits(e)), back)
    {
      ghost var j := 15 - cnt;
      assert back[j..][1..] == back[j + 1..] && back[j..][0] == back[j];
      LastKeyFirstAt(keys, j);
      bits := RoundInPlace(bits, keys[cnt]);
      if cnt != 0 { bits := Swap(bits); }
    }
    r := ToBytes(IpBackOf(bits));
  }

  // ---- Whole inputs ----

  function Blocks(data: seq<Byte>, keys: seq<SubKey>): (r: seq<Byte>)
    requires |data| % 8 == 0
    ensures |r| == |data|
    decreases |data|
  {
    if data == [] then [] else Through(data[..8], keys) + Blocks(data[8..], keys)
  }

  function Encrypted(key: Eight, data: seq<Byte>): Option<seq<Byte>> {
    if data == [] || |data| % 8 != 0 then None else Some(Blocks(data, SubKeys(ToBits(key))))
  }

  function Decrypted(key: Eight, data: seq<Byte>): Option<seq<Byte>> {
    if data == [] || |data| % 8 != 0 then None else Some(Blocks(data, LastKeyFirst(SubKeys(ToBits(key)))))
  }

  lemma {:induction false} BlocksUndone(data: seq<Byte>, keys: seq<SubKey>)
    requires |data| % 8 == 0
    ensures Blocks(Blocks(data, keys), LastKeyFirst(keys)) == data
    decreases |data|
  {
    if data != [] {
      ThroughUndone(data[..8], keys);
      BlocksUndone(data[8..], keys);
      BlocksCons(Through(data[..8], keys), Blocks(data[8..], keys), LastKeyFirst(keys));
      assert data == data[..8] + data[8..];
    }
  }

  lemma {:induction false} BlocksCons(first: Eight, rest: seq<Byte>, keys: seq<SubKey>)
    requires |rest| % 8 == 0
    ensures Blocks(first + rest, keys) == Through(first, keys) + Blocks(rest, keys)
  {
    assert (first + rest)[..8] == first && (first + rest)[8..] == rest;
  }

  /** `des_decrypt` undoes `des_encrypt` for every key and every input of whole blocks. */
  lemma {:induction false} DecryptUndoes(key: Eight, data: seq<Byte>)
    requires data != [] && |data| % 8 == 0
    ensures Encrypted(key, data).Some? && Decrypted(key, Encrypted(key, data).value) == Some(data)
  {
    BlocksUndone(data, SubKeys(ToBits(key)));
  }

  /** `des_encrypt` and `des_decrypt`: block after block; an input that is not whole blocks is refused. */
  method Crypt(key: Eight, data: seq<Byte>, decrypt: bool) returns (r: Option<seq<Byte>>)
    ensures r == if decrypt then Decrypted(key, data) else Encrypted(key, data)
  {
    if data == [] || |data| % 8 != 0 { return None; }
    var keys := MakeSubKeys(ToBits(key));
    var out := CryptBlocks(data, keys, decrypt);
    return Some(out);
  }

  method CryptBlocks(data: seq<Byte>, keys: seq<SubKey>, decrypt: bool) returns (out: seq<Byte>)
    requires |data| % 8 == 0 && |keys| == 16
    ensures out == Blocks(data, if decrypt then LastKeyFirst(keys) else keys)
  {
    ghost var order := if decrypt then LastKeyFirst(keys) else keys;
    out := [];
    var offset := 0;
    DoneStart(data, order);
    while |data| - offset >= 8
      invariant 0 <= offset <= |data| && offset % 8 == 0
      invariant Done(out, data, offset, order)
      decreases |data| - offset
    {
      out := NextBlock(out, data, offset, keys, decrypt, order);
      offset := offset + 8;
    }
    DoneEnd(out, data, offset, order);
  }

  lemma {:induction false} DoneStart(data: seq<Byte>, keys: seq<SubKey>)
    requires |data| % 8 == 0
    ensures Done([], data, 0, keys)
  {
    assert data[0..] == data && [] + Blocks(data, keys) == Blocks(data, keys);
  }

  /** The output so far and the blocks still to come make up the whole; `Inside` opens the statement. */
  ghost predicate Done(out: seq<Byte>, data: seq<Byte>, offset: int, keys: seq<SubKey>)
    requires 0 <= offset <= |data| && offset % 8 == 0 && |data| % 8 == 0
  {
    forall k: int {:trigger Inside(k)} :: Inside(k) ==> out + Blocks(data[offset..], keys) == Blocks(data, keys)
  }

  lemma {:induction false} DoneStep(out: seq<Byte>, data: seq<Byte>, offset: nat, keys: seq<SubKey>)
    requires offset + 8 <= |data| && offset % 8 == 0 && |data| % 8 == 0 && Done(out, data, offset, keys)
    ensures Done(out + Through(data[offset..offset + 8], keys), data, offset + 8, keys)
  {
    assert Inside(0);
    BlocksStep(out, data, offset, keys);
  }

  lemma {:induction false} DoneEnd(out: seq<Byte>, data: seq<Byte>, offset: nat, keys: seq<SubKey>)
    requires |data| - 8 < offset <= |data| && offset % 8 == 0 && |data| % 8 == 0 && Done(out, data, offset, keys)
    ensures out == Blocks(data, keys)
  {
    assert Inside(0);
    assert data[offset..] == [] && out + [] == out;
  }

  method NextBlock(out0: seq<Byte>, data: seq<Byte>, offset: nat, keys: seq<SubKey>, decrypt: bool,
      ghost order: seq<SubKey>)
      returns (out: seq<Byte>)
    requires |keys| == 16 && order == if decrypt then LastKeyFirst(keys) else keys
    requires offset + 8 <= |data| && offset % 8 == 0 && |data| % 8 == 0 && Done(out0, data, offset, order)
    ensures Done(out, data, offset + 8, order)
  {
    DoneStep(out0, data, offset, order);
    var block := CryptBlock(data[offset..offset + 8], keys, decrypt);
    assert block == Through(data[offset..offset + 8], order);
    out := out0 + block;
  }

  method CryptBlock(e: Eight, keys: seq<SubKey>, decrypt: bool) returns (r: Eight)
    requires |keys| == 16
    ensures r == Through(e, if decrypt then LastKeyFirst(keys) else keys)
  {
    if decrypt { r := DecryptBlock(e, keys); } else { r := EncryptBlock(e, keys); }
  }

  lemma {:induction false} BlocksStep(out: seq<Byte>, data: seq<Byte>, offset: nat, keys: seq<SubKey>)
    requires offset + 8 <= |data| && offset % 8 == 0 && |data| % 8 == 0
    ensures out + Blocks(data[offset..], keys)
      == (out + Through(data[offset..offset + 8], keys)) + Blocks(data[offset + 8..], keys)
  {
    var rest := data[offset..];
    assert rest[..8] == data[offset..offset + 8] && rest[8..] == data[offset + 8..];
  }
}

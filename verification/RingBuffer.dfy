/** The byte ring: two free-running 32-bit counters over a power-of-two buffer, refining a queue. */
module RingBuffer {
  import opened Words

  type Byte = b: int | 0 <= b < 256

  const WRAP: nat := 0x1_0000_0000

  /** Arithmetic of `uint32_t`. */
  function U32(x: int): nat { x % WRAP }

  function Min(a: nat, b: nat): nat { if a < b then a else b }

  // ---- Positions ----

  /** x & (size - 1) for a power of two. */
  function Slot(x: nat, size: nat): (r: nat)
    requires size > 0
    ensures r < size
  {
    x % size
  }

  /** Adding before or after the reduction makes no difference. */
  lemma {:induction false} SlotAdd(x: nat, j: nat, size: nat)
    requires size > 0 && j <= size
    ensures Slot(x + j, size) == if Slot(x, size) + j < size then Slot(x, size) + j
      else if j < size || Slot(x, size) > 0 then Slot(x, size) + j - size else 0
  {
    var q, r := x / size, x % size;
    assert x == size * q + r;
    if r + j < size {
      ModUnique(x + j, q, size, r + j);
    } else {
      assert size * (q + 1) == size * q + size;
      ModUnique(x + j, q + 1, size, r + j - size);
    }
  }

  /** Slots less than a buffer apart differ. */
  lemma {:induction false} SlotsDiffer(x: nat, i: nat, j: nat, size: nat)
    requires i < j < i + size
    ensures Slot(x + i, size) != Slot(x + j, size)
  {
    SlotAdd(x + i, j - i, size);
    assert x + i + (j - i) == x + j;
  }

  /** A counter that wraps at 2^32 still names the same slot. */
  lemma {:induction false} SlotWraps(x: nat, k: nat)
    requires k <= 32
    ensures Pow2(k) > 0 && Slot(U32(x), Pow2(k)) == Slot(x, Pow2(k))
  {
    Pow2Add(k, 32 - k);
    WrapIsPow2();
    ModOfMod(x, WRAP, Pow2(k), Pow2(32 - k));
  }

  lemma {:induction false} ModOfMod(x: nat, w: nat, d: nat, m: nat)
    requires w == d * m && d > 0 && w > 0
    ensures x % w % d == x % d
  {
    var q, r := x / w, x % w;
    var a, b := r / d, r % d;
    assert x == w * q + r && r == d * a + b;
    Regroup(d, m, q, a);
    assert x == (m * q + a) * d + b;
    ModUnique(x, m * q + a, d, b);
  }

  lemma {:induction false} Regroup(d: nat, m: nat, q: nat, a: nat)
    ensures d * m * q + d * a == d * (m * q + a)
  {
  }

  lemma {:induction false} WrapIsPow2()
    ensures Pow2(32) == WRAP
  {
    assert Pow2(8) == 256 by { assert Pow2(4) == 16; }
    Pow2Add(8, 8);
    Pow2Add(16, 16);
  }

  // ---- The ring as a value ----

  /** Where a copy of length n that starts at slot `at` puts its j-th byte. */
  function Place(at: nat, j: nat, size: nat): (r: nat)
    requires at < size && j < size
    ensures r < size
  {
    if at + j < size then at + j else at + j - size
  }

  /** The queued bytes, oldest first. */
  function Queued(buf: seq<Byte>, out: nat, len: nat): (r: seq<Byte>)
    requires |buf| > 0
    ensures |r| == len && forall i :: 0 <= i < len ==> r[i] == buf[Slot(out + i, |buf|)]
  {
    seq(len, i requires 0 <= i < len => buf[Slot(out + i, |buf|)])
  }

  predicate Untouched(at: nat, n: nat, size: nat, s: nat)
    requires at < size
  {
    forall j :: 0 <= j < n && j < size ==> s != Place(at, j, size)
  }

  /** What two block copies leave in the buffer. */
  predicate Copied(before: seq<Byte>, after: seq<Byte>, at: nat, data: seq<Byte>) {
    && 0 < |before| == |after| && at < |before| && |data| <= |before|
    && (forall j :: 0 <= j < |data| && j < |before| ==> after[Place(at, j, |before|)] == data[j])
    && (forall s :: 0 <= s < |before| && Untouched(at, |data|, |before|, s) ==> after[s] == before[s])
  }

  lemma {:induction false} PlaceIsSlot(x: nat, j: nat, size: nat)
    requires j < size
    ensures Place(Slot(x, size), j, size) == Slot(x + j, size)
  {
    SlotAdd(x, j, size);
  }

  lemma {:induction false} PutAt(before: seq<Byte>, after: seq<Byte>, out: nat, len: nat, data: seq<Byte>, i: nat)
    requires |before| > 0 && len + |data| <= |before| && Copied(before, after, Slot(out + len, |before|), data)
    requires i < len + |data|
    ensures after[Slot(out + i, |before|)] == if i < len then before[Slot(out + i, |before|)] else data[i - len]
  {
    var size, at := |before|, Slot(out + len, |before|);
    if i >= len {
      PlaceIsSlot(out + len, i - len, size);
      assert out + len + (i - len) == out + i;
    } else {
      forall j | 0 <= j < |data| && j < size ensures Slot(out + i, size) != Place(at, j, size) {
        PlaceIsSlot(out + len, j, size);
        SlotsDiffer(out, i, len + j, size);
        assert out + len + j == out + (len + j);
      }
    }
  }

  /** Appending to the ring appends to the queue. */
  lemma {:induction false} PutQueued(before: seq<Byte>, after: seq<Byte>, out: nat, len: nat, data: seq<Byte>)
    requires |before| > 0 && len + |data| <= |before| && Copied(before, after, Slot(out + len, |before|), data)
    ensures Queued(after, out, len + |data|) == Queued(before, out, len) + data
  {
    var r, q := Queued(after, out, len + |data|), Queued(before, out, len) + data;
    forall i | 0 <= i < len + |data| ensures r[i] == q[i] {
      PutAt(before, after, out, len, data, i);
    }
  }

  lemma {:induction false} GetQueued(buf: seq<Byte>, out: nat, len: nat, n: nat)
    requires |buf| > 0 && n <= len
    ensures Queued(buf, out + n, len - n) == Queued(buf, out, len)[n..]
  {
    var r, q := Queued(buf, out + n, len - n), Queued(buf, out, len);
    forall i | 0 <= i < len - n ensures r[i] == q[n..][i] {
      assert out + n + i == out + (n + i);
    }
  }

  lemma {:induction false} SlotSame(x: nat, i: nat, k: nat)
    requires k <= 32
    ensures Slot(U32(x) + i, Pow2(k)) == Slot(x + i, Pow2(k))
  {
    SlotWraps(U32(x) + i, k);
    SlotWraps(x + i, k);
    WrapAdd(x, i);
  }

  lemma {:induction false} WrapAdd(x: nat, i: nat)
    ensures U32(U32(x) + i) == U32(x + i)
  {
  }

  /** A wrapped counter stands for the same queue. */
  lemma {:induction false} SameQueue(buf: seq<Byte>, x: nat, k: nat, len: nat)
    requires k <= 32 && |buf| == Pow2(k)
    ensures Queued(buf, U32(x), len) == Queued(buf, x, len)
  {
    var r, q := Queued(buf, U32(x), len), Queued(buf, x, len);
    forall i | 0 <= i < len ensures r[i] == q[i] {
      SlotSame(x, i, k);
    }
  }

  // ---- The ring ----

  class Ring {
    const buffer: array<Byte>
    ghost const k: nat
    var inn: nat
    var out: nat

    /** `ckfifo_init` with a buffer of 2^k bytes. */
    constructor (buffer: array<Byte>, ghost k: nat)
      requires k <= 31 && buffer.Length == Pow2(k)
      ensures Valid() && this.buffer == buffer && Contents() == []
    {
      this.buffer, this.k, inn, out := buffer, k, 0, 0;
    }

    ghost predicate Valid()
      reads this
    {
      && k <= 31 && buffer.Length == Pow2(k) && inn < WRAP && out < WRAP
      && U32(inn - out) <= buffer.Length
    }

    function Length(): nat
      reads this
    {
      U32(inn - out)
    }

    ghost function Contents(): seq<Byte>
      reads this, buffer
      requires Valid()
    {
      Queued(buffer[..], out, Length())
    }

    /** The two `memcpy` calls of a put. */
    method CopyIn(at: nat, data: seq<Byte>)
      requires at < buffer.Length && |data| <= buffer.Length
      modifies buffer
      ensures Copied(old(buffer[..]), buffer[..], at, data)
    {
      for j := 0 to |data|
        invariant forall i :: 0 <= i < j ==> buffer[Place(at, i, buffer.Length)] == data[i]
        invariant forall s ::
          0 <= s < buffer.Length && Untouched(at, j, buffer.Length, s)
          ==> buffer[s] == old(buffer[s])
      {
        buffer[Place(at, j, buffer.Length)] := data[j];
      }
    }

    /** The copy of a put, as the queue sees it. */
    method Append(data: seq<Byte>, ghost len: nat)
      requires buffer.Length > 0 && len + |data| <= buffer.Length
      requires Slot(inn, buffer.Length) == Slot(out + len, buffer.Length)
      modifies buffer
      ensures Queued(buffer[..], out, len + |data|) == old(Queued(buffer[..], out, len)) + data
    {
      ghost var was := buffer[..];
      CopyIn(Slot(inn, buffer.Length), data);
      PutQueued(was, buffer[..], out, len, data);
    }

    /** `ckfifo_put`: as many bytes as fit are appended. */
    method Put(data: seq<Byte>) returns (n: nat)
      requires Valid() && |data| < WRAP
      modifies this`inn, buffer
      ensures Valid() && n == Min(|data|, buffer.Length - old(Length()))
      ensures Contents() == old(Contents()) + data[..n]
    {
      var size := buffer.Length;
      ghost var len := Length();
      PutCounters(inn, out, k, |data|);
      n := Min(|data|, U32(size - inn + out));
      ghost var q := Contents();
      Append(data[..n], len);
      assert Queued(buffer[..], out, len + n) == q + data[..n];
      Bump(n, len);
      assert Length() == len + n;
    }

    /** `ring->in += n`. */
    method Bump(n: nat, ghost len: nat)
      requires Valid() && U32(U32(inn + n) - out) == len + n <= buffer.Length
      modifies this`inn
      ensures Valid() && Length() == len + n
    {
      inn := U32(inn + n);
    }

    /** The two `memcpy` calls of a get. */
    method CopyOut(at: nat, n: nat) returns (data: seq<Byte>)
      requires at < buffer.Length && n <= buffer.Length
      ensures |data| == n && forall j :: 0 <= j < n ==> data[j] == buffer[Place(at, j, buffer.Length)]
    {
      data := [];
      for j := 0 to n
        invariant |data| == j && forall i :: 0 <= i < j ==> data[i] == buffer[Place(at, i, buffer.Length)]
      {
        data := data + [buffer[Place(at, j, buffer.Length)]];
      }
    }

    /** `ckfifo_get`: the oldest bytes, as many as there are; a drained ring starts again from zero. */
    method Get(size: nat) returns (data: seq<Byte>)
      requires Valid() && size < WRAP
      modifies this
      ensures Valid() && |data| == Min(size, old(Length()))
      ensures old(Contents()) == data + Contents()
      ensures if Length() == 0 then inn == 0 && out == 0 else inn == old(inn) && out == U32(old(out) + |data|)
    {
      ghost var len := Length();
      var n := Min(size, U32(inn - out));
      data := CopyOut(Slot(out, buffer.Length), n);
      ghost var q := Contents();
      Taken(buffer[..], out, len, data);
      GetQueued(buffer[..], out, len, n);
      assert q == q[..n] + q[n..];
      Drop(n);
    }

    /** `ring->out += n`, and back to zero when nothing is left. */
    method Drop(n: nat)
      requires Valid() && n <= Length()
      modifies this`inn, this`out
      ensures Valid() && Contents() == Queued(buffer[..], old(out) + n, old(Length()) - n)
      ensures if Length() == 0 then inn == 0 && out == 0 else inn == old(inn) && out == U32(old(out) + n)
    {
      SameQueue(buffer[..], out + n, k, Length() - n);
      Shrunk(inn, out, n);
      out := U32(out + n);
      if inn == out { inn, out := 0, 0; }
    }
  }

  lemma {:induction false} Taken(buf: seq<Byte>, out: nat, len: nat, data: seq<Byte>)
    requires 0 < |buf| && |data| <= len <= |buf|
    requires forall j :: 0 <= j < |data| ==> data[j] == buf[Place(Slot(out, |buf|), j, |buf|)]
    ensures data == Queued(buf, out, len)[..|data|]
  {
    var q := Queued(buf, out, len);
    forall j | 0 <= j < |data| ensures data[j] == q[j] {
      if j < |buf| { PlaceIsSlot(out, j, |buf|); }
    }
  }

  /** How much fits, where it goes, and what the counters then say. */
  lemma {:induction false} PutCounters(inn: nat, out: nat, k: nat, wanted: nat)
    requires inn < WRAP && out < WRAP && k <= 31 && U32(inn - out) <= Pow2(k)
    ensures var size, len := Pow2(k), U32(inn - out);
      var n := Min(wanted, U32(size - inn + out));
      && U32(size - inn + out) == size - len && U32(U32(inn + n) - out) == len + n
      && Slot(inn, size) == Slot(out + len, size)
  {
    FitsWord(k);
    Free(Pow2(k), inn, out);
    PutPlace(inn, out, k);
    Grown(inn, out, U32(inn - out), Min(wanted, Pow2(k) - U32(inn - out)));
  }

  lemma {:induction false} PutPlace(inn: nat, out: nat, k: nat)
    requires inn < WRAP && out < WRAP && k <= 31
    ensures Slot(inn, Pow2(k)) == Slot(out + U32(inn - out), Pow2(k))
  {
    Ahead(inn, out);
    SlotWraps(out + U32(inn - out), k);
  }

  lemma {:induction false} FitsWord(k: nat)
    requires k <= 31
    ensures Pow2(k) <= 0x8000_0000
  {
    Pow2Monotone(k, 31);
    WrapIsPow2();
  }

  lemma {:induction false} Free(size: nat, inn: nat, out: nat)
    requires inn < WRAP && out < WRAP && U32(inn - out) <= size <= 0x8000_0000
    ensures U32(size - inn + out) == size - U32(inn - out)
  {
  }

  lemma {:induction false} Ahead(inn: nat, out: nat)
    requires inn < WRAP && out < WRAP
    ensures U32(out + U32(inn - out)) == inn
  {
  }

  lemma {:induction false} Grown(inn: nat, out: nat, len: nat, n: nat)
    requires inn < WRAP && out < WRAP && len == U32(inn - out) && len + n <= 0x8000_0000
    ensures U32(U32(inn + n) - out) == len + n
  {
  }

  lemma {:induction false} Shrunk(inn: nat, out: nat, n: nat)
    requires inn < WRAP && out < WRAP && n <= U32(inn - out)
    ensures U32(inn - U32(out + n)) == U32(inn - out) - n
    ensures U32(inn - out) == n <==> inn == U32(out + n)
  {
  }
}

/** Words and blocks as strings of bits, lowest bit first. */
module BitStrings {
  import opened Words

  function Zeros(n: nat): (r: seq<bool>)
    ensures |r| == n && forall i :: 0 <= i < n ==> !r[i]
  {
    seq(n, i => false)
  }

  function XorBits(a: seq<bool>, b: seq<bool>): (r: seq<bool>)
    requires |a| == |b|
    ensures |r| == |a| && forall i :: 0 <= i < |a| ==> r[i] == (a[i] != b[i])
  {
    seq(|a|, i requires 0 <= i < |a| => a[i] != b[i])
  }

  /** Doing it twice undoes it. */
  lemma {:induction false} XorTwice(a: seq<bool>, b: seq<bool>)
    requires |a| == |b|
    ensures XorBits(XorBits(a, b), b) == a
  {
  }

  /** The bits of a number. */
  function Binary(n: nat, w: nat): (r: seq<bool>)
    ensures |r| == w
    decreases w
  {
    if w == 0 then [] else [n % 2 == 1] + Binary(n / 2, w - 1)
  }

  lemma {:induction false} BinaryZero(w: nat)
    ensures Binary(0, w) == Zeros(w)
    decreases w
  {
    if w > 0 { BinaryZero(w - 1); }
  }

  /** Reading the bits of a number back, in any width that holds it. */
  lemma {:induction false} BinaryNumber(bits: seq<bool>, w: nat)
    requires |bits| <= w
    ensures Binary(Number(bits), w) == bits + Zeros(w - |bits|)
    decreases w
  {
    if bits == [] {
      BinaryZero(w);
      assert bits + Zeros(w) == Zeros(w);
    } else {
      BinaryNumber(bits[1..], w - 1);
      var n, m := Number(bits), Number(bits[1..]);
      assert n / 2 == m && (n % 2 == 1) == bits[0];
      assert [bits[0]] + (bits[1..] + Zeros(w - |bits|)) == bits + Zeros(w - |bits|);
    }
  }

  lemma {:induction false} NumberBound(bits: seq<bool>)
    ensures Number(bits) < Pow2(|bits|)
    decreases |bits|
  {
    if bits != [] { NumberBound(bits[1..]); }
  }

  lemma {:induction false} NumberBinary(n: nat, w: nat)
    requires n < Pow2(w)
    ensures Number(Binary(n, w)) == n
    decreases w
  {
    if w > 0 {
      NumberBinary(n / 2, w - 1);
      assert Binary(n, w)[1..] == Binary(n / 2, w - 1);
    }
  }
}

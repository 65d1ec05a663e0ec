/** What several modules share. */
module Basics {
  datatype Option<+T> = None | Some(value: T)

  /** A sequence without its element at i, or the same sequence where there is none. */
  function Without<T>(s: seq<T>, i: int): (r: seq<T>)
    ensures 0 <= i < |s| ==> |r| == |s| - 1
    ensures forall k :: 0 <= i < |s| && 0 <= k < |s| - 1 ==> r[k] == if k < i then s[k] else s[k + 1]
    ensures !(0 <= i < |s|) ==> r == s
  {
    if 0 <= i < |s| then s[..i] + s[i + 1..] else s
  }

  function Lower(c: char): char {
    if 'A' <= c <= 'Z' then (c as int + 32) as char else c
  }

  function Fold(s: string): string {
    seq(|s|, i requires 0 <= i < |s| => Lower(s[i]))
  }

  /** `strcasecmp` says equal. */
  predicate Same(a: string, b: string) {
    Fold(a) == Fold(b)
  }

  /** True of every number: a quantifier guarded by it is opened only where it is mentioned. */
  predicate Inside(k: int) { true }
}

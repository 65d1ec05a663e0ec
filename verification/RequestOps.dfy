/** The loops that read a request key, and what an accepted key means for the configuration tree. */
module RequestOps {
  import opened Basics
  import opened ConfigModel
  import opened ConfigUpdate
  import opened ConfigRoot
  import opened RequestPath

  /** `rt_is_array_syntax`: one pass that remembers where the brackets are. */
  method IsArraySyntax(key: string) returns (r: Syntax)
    ensures r == ArraySyntax(key)
  {
    var left, right := -1, -1;
    for cursor := 0 to |key|
      invariant left == -1 || (0 <= left < cursor && key[left] == '[')
      invariant right == -1 || (0 <= right < cursor && key[right] == ']')
      invariant forall j :: 0 <= j < cursor && key[j] == '[' ==> j == left
      invariant forall j :: 0 <= j < cursor && key[j] == ']' ==> j == right
    {
      if key[cursor] == '[' {
        if left >= 0 { return Wrong; }
        left := cursor;
      }
      if key[cursor] == ']' {
        if right >= 0 { return Wrong; }
        right := cursor;
      }
    }
    if left < 0 && right < 0 { return Plain; }
    if left < 0 || right < 0 || right < left || left == 0 || right != |key| - 1 || right == left + 1 { return Wrong; }
    return Bracketed(left, right);
  }

  /** `strchr` for a dot. */
  method FindDot(s: string) returns (i: int)
    ensures i == IndexOf(s, '.')
  {
    i := 0;
    while i < |s|
      invariant 0 <= i <= |s| && forall j :: 0 <= j < i ==> s[j] != '.'
    {
      if s[i] == '.' { return; }
      i := i + 1;
    }
    i := -1;
  }

  /** One turn of the loop: the segment before the dot; nothing may be missing on either side of it. */
  method ReadSegment(cursor: string, ending: nat, done: seq<Seg>) returns (more: Option<seq<Seg>>)
    requires ending == IndexOf(cursor, '.')
    ensures if more.Some? then Walk(cursor, done) == Walk(cursor[ending + 1..], more.value)
      else Walk(cursor, done) == None
  {
    if ending == 0 { return None; }
    more := Next(cursor[..ending], done);
    if ending + 1 == |cursor| { return None; }
  }

  /** `rt_separate_segment`: the cursor, a pointer into the key, moves from dot to dot. */
  method SeparateKey(key: string) returns (r: Option<seq<Seg>>)
    ensures r == Separate(key)
  {
    var cursor, done := key, [];
    var ending := FindDot(cursor);
    while ending >= 0
      invariant ending == IndexOf(cursor, '.') && Walk(cursor, done) == Walk(key, [])
      decreases |cursor|
    {
      var more := ReadSegment(cursor, ending, done);
      if more == None { return None; }
      done, cursor := more.value, cursor[ending + 1..];
      ending := FindDot(cursor);
    }
    if cursor != "" {
      var more := Next(cursor, done);
      if more == None { return None; }
      done := more.value;
    }
    return Some(Finish(done));
  }

  /** Every accepted key is a path the configuration tree can be asked for. */
  lemma {:induction false} AcceptedIsPath(key: string)
    requires key != "" && Separate(key).Some?
    ensures Path(Separate(key).value)
  {
    AcceptedKeys(key);
    FirstTwo(Separate(key).value);
    TailFits(Separate(key).value);
  }

  lemma {:induction false} FirstTwo(p: seq<Seg>)
    requires WellFormed(p)
    ensures forall i :: 0 <= i < |p| && i < 2 ==> p[i].index == -1 && p[i].kind == if i == 0 then DIR else ARCHIVE
  {
    var q := Unfinish(p);
    forall i | 0 <= i < |p| && i < 2 ensures p[i].index == -1 && p[i].kind == if i == 0 then DIR else ARCHIVE {
      assert SegmentOk(q[i], i);
    }
  }

  lemma {:induction false} TailFits(p: seq<Seg>)
    requires WellFormed(p)
    ensures |p| > 2 ==> Tail(p[2..])
  {
    if |p| > 2 {
      var t := p[2..];
      forall i | 0 <= i < |t| ensures SegOk(t[i], i == |t| - 1) {
        SegmentFits(p, i + 2);
      }
    }
  }

  lemma {:induction false} SegmentFits(p: seq<Seg>, i: nat)
    requires WellFormed(p) && 2 <= i < |p|
    ensures SegOk(p[i], i == |p| - 1)
  {
    assert SegmentOk(Unfinish(p)[i], i);
  }

  /** The index is cut to 32 bits before it is checked, so this key names item 0. */
  lemma {:induction false} WrappedIndex()
    ensures AllDigits("4294967296") && ReadIndex("4294967296") == Some(0)
  {
    var s := "4294967296";
    assert AllDigits(s);
    assert s[..9] == "429496729" && s[..9][..8] == "42949672" && s[..9][..8][..7] == "4294967";
    assert NumberOf("4294967") == 4294967 by { Seven(); }
    assert NumberOf("42949672") == 42949672;
    assert NumberOf("429496729") == 429496729;
    assert NumberOf(s) == 4294967296;
  }

  lemma {:induction false} Seven()
    ensures AllDigits("4294967") && NumberOf("4294967") == 4294967
  {
    assert "4294967"[..6] == "429496" && "429496"[..5] == "42949" && "42949"[..4] == "4294" && "4294"[..3] == "429";
    assert "429"[..2] == "42" && "42"[..1] == "4" && "4"[..0] == "";
    assert NumberOf("4") == 4;
    assert NumberOf("42") == 42;
    assert NumberOf("429") == 429;
    assert NumberOf("4294") == 4294;
    assert NumberOf("42949") == 42949;
    assert NumberOf("429496") == 429496;
  }
}

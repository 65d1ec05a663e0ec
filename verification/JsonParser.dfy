/** The parse buffer: a cursor moved over the text, proved to find what the text functions say. */
module JsonParser {
  import opened Basics
  import opened JsonValue
  import opened JsonText
  import opened JsonBuffer
  import opened JsonRoundTrip

  function Joined<T>(before: seq<T>, r: Option<Parsed<seq<T>>>): Option<Parsed<seq<T>>> {
    if r.Some? then Some(Parsed(before + r.value.item, r.value.next)) else None
  }

  class ParseBuffer {
    const content: string
    var offset: nat
    var depth: nat

    constructor (text: string)
      ensures Valid() && content == text + [NUL] && offset == 0 && depth == 0
    {
      content, offset, depth := text + [NUL], 0, 0;
    }

    ghost predicate Valid()
      reads this
    {
      Content(content) && offset <= |content|
    }

    /** `buffer_skip_whitespace`. */
    method SkipWhitespace()
      requires Valid()
      modifies this`offset
      ensures Valid() && offset == Skip(content, old(offset))
    {
      while offset < |content| && content[offset] as int <= 32
        invariant offset <= |content| && Skip(content, offset) == Skip(content, old(offset))
        decreases |content| - offset
      {
        offset := offset + 1;
      }
      if offset == |content| { offset := offset - 1; }
    }

    /** The first loop of `parse_string`: find the closing quote. */
    method FindClosing(start: nat) returns (end: Option<nat>)
      requires start <= |content|
      ensures end == Closing(content, start)
    {
      var k := start;
      while k < |content| && content[k] != QUOTE
        invariant Closing(content, k) == Closing(content, start)
        decreases |content| - k
      {
        if content[k] == BACKSLASH {
          if k + 1 >= |content| { return None; }
          k := k + 1;
        }
        k := k + 1;
      }
      if k >= |content| { return None; }
      return Some(k);
    }

    /** The second loop of `parse_string`: copy, undoing the escapes. */
    method CopyUnescaped(start: nat, end: nat) returns (r: Option<string>)
      requires start <= end < |content|
      ensures r == Unescape(content, start, end)
    {
      var k, out := start, "";
      Unprefixed(Unescape(content, start, end));
      while k < end
        invariant Unescape(content, start, end) == Prefixed(out, Unescape(content, k, end))
        decreases end - k
      {
        if content[k] != BACKSLASH {
          Longer(out, [content[k]], Unescape(content, k + 1, end));
          out, k := out + [content[k]], k + 1;
        } else if content[k + 1] == 'u' {
          var u := Utf16Literal(content, k, end);
          if u == None { return None; }
          Longer(out, u.value.bytes, Unescape(content, k + u.value.length, end));
          out, k := out + u.value.bytes, k + u.value.length;
        } else {
          var ch := Long(content[k + 1]);
          if ch == None { return None; }
          Longer(out, [ch.value], Unescape(content, k + 2, end));
          out, k := out + [ch.value], k + 2;
        }
      }
      assert out + "" == out;
      return Some(out);
    }

    /** `parse_string`. */
    method ReadString() returns (r: Option<string>)
      requires Valid() && offset < |content|
      modifies this`offset
      ensures Valid()
      ensures var p := ParseString(content, old(offset));
        if r.Some? then p == Some(Parsed(r.value, offset)) else p == None
    {
      if content[offset] != QUOTE { return None; }
      var end := FindClosing(offset + 1);
      if end == None { return None; }
      var s := CopyUnescaped(offset + 1, end.value);
      if s == None { return None; }
      offset := end.value + 1;
      return Some(Cut(s.value));
    }

    /** `parse_value`. */
    method ReadValue() returns (r: Option<Json>)
      requires Valid() && offset < |content|
      modifies this
      ensures Valid()
      ensures var p := Value(content, old(offset), old(depth));
        if r.Some? then p == Some(Parsed(r.value, offset)) && depth == old(depth) else p == None
      decreases |content| - offset, 3
    {
      var c := content[offset];
      if c == 'n' || c == 'f' || c == 't' {
        var k := Keyword(content, offset);
        if k == None { return None; }
        offset := k.value.next;
        return Some(k.value.item);
      } else if c == QUOTE {
        var s := ReadString();
        return if s.Some? then Some(Str(s.value)) else None;
      } else if c == '[' {
        r := ReadArray();
      } else if c == '{' {
        r := ReadObject();
      } else {
        return None;
      }
    }

    /** `parse_array`. */
    method ReadArray() returns (r: Option<Json>)
      requires Valid() && offset < |content| && content[offset] == '['
      modifies this
      ensures Valid()
      ensures var p := ArrayValue(content, old(offset), old(depth));
        if r.Some? then p == Some(Parsed(r.value, offset)) && depth == old(depth) else p == None
      decreases |content| - offset, 2
    {
      if depth >= NESTING_LIMIT { return None; }
      depth := depth + 1;
      var from := offset;
      offset := offset + 1;
      SkipWhitespace();
      var items := [];
      if content[offset] != ']' {
        offset := from;
        var read := ReadElements();
        if read == None { return None; }
        items := read.value;
      } else {
        offset := offset + 1;
      }
      depth := depth - 1;
      return Some(Arr(items));
    }

    /** The loop of `parse_array`; the cursor stands before the first element. */
    method ReadElements() returns (r: Option<seq<Json>>)
      requires Valid() && offset < |content|
      modifies this
      ensures Valid()
      ensures var p := Elements(content, old(offset) + 1, old(depth));
        if r.Some? then p == Some(Parsed(r.value, offset)) && depth == old(depth) else p == None
      decreases |content| - offset, 1
    {
      var items := [];
      ghost var whole := Elements(content, offset + 1, depth);
      ElementsDueStart(content, offset, depth);
      while true
        invariant Valid() && old(offset) <= offset < |content| && depth == old(depth)
        invariant ElementsDue(whole, items, content, offset, depth)
        decreases |content| - offset
      {
        var x := ReadElement(whole, items);
        if x == None { return None; }
        items := items + [x.value];
        if content[offset] != ',' { break; }
      }
      if content[offset] != ']' { return None; }
      offset := offset + 1;
      return Some(items);
    }

    /** One turn of the loop: the cursor moves from one separator to the next. */
    method ReadElement(ghost whole: Option<Parsed<seq<Json>>>, ghost before: seq<Json>) returns (x: Option<Json>)
      requires Valid() && offset < |content| && ElementsDue(whole, before, content, offset, depth)
      modifies this
      ensures Valid()
      ensures x == None ==> whole == None
      ensures x.Some? ==> old(offset) < offset < |content| && depth == old(depth)
      ensures x.Some? && content[offset] == ',' ==> ElementsDue(whole, before + [x.value], content, offset, depth)
      ensures x.Some? && content[offset] == ']' ==> whole == Some(Parsed(before + [x.value], offset + 1))
      ensures x.Some? && content[offset] != ',' && content[offset] != ']' ==> whole == None
      decreases |content| - offset, 0
    {
      ghost var at := offset;
      ElementsDueEnd(whole, before, content, at, depth);
      if offset + 1 == |content| { return None; }
      offset := offset + 1;
      SkipWhitespace();
      x := ReadValue();
      if x == None { return None; }
      ElementsDueStep(whole, before, content, at, Parsed(x.value, offset), depth);
      SkipWhitespace();
    }

    /** `parse_object`. */
    method ReadObject() returns (r: Option<Json>)
      requires Valid() && offset < |content| && content[offset] == '{'
      modifies this
      ensures Valid()
      ensures var p := ObjectValue(content, old(offset), old(depth));
        if r.Some? then p == Some(Parsed(r.value, offset)) && depth == old(depth) else p == None
      decreases |content| - offset, 2
    {
      if depth >= NESTING_LIMIT { return None; }
      depth := depth + 1;
      var from := offset;
      offset := offset + 1;
      SkipWhitespace();
      var ms := [];
      if content[offset] != '}' {
        offset := from;
        var read := ReadMembers();
        if read == None { return None; }
        ms := read.value;
      } else {
        offset := offset + 1;
      }
      depth := depth - 1;
      return Some(Obj(ms));
    }

    /** The loop of `parse_object`; the cursor stands before the first member. */
    method ReadMembers() returns (r: Option<seq<Member>>)
      requires Valid() && offset < |content|
      modifies this
      ensures Valid()
      ensures var p := Members(content, old(offset) + 1, old(depth));
        if r.Some? then p == Some(Parsed(r.value, offset)) && depth == old(depth) else p == None
      decreases |content| - offset, 1
    {
      var ms := [];
      ghost var whole := Members(content, offset + 1, depth);
      MembersDueStart(content, offset, depth);
      while true
        invariant Valid() && old(offset) <= offset < |content| && depth == old(depth)
        invariant MembersDue(whole, ms, content, offset, depth)
        decreases |content| - offset
      {
        var x := ReadNamed(whole, ms);
        if x == None { return None; }
        ms := ms + [x.value];
        if content[offset] != ',' { break; }
      }
      if content[offset] != '}' { return None; }
      offset := offset + 1;
      return Some(ms);
    }

    /** One turn of the loop: the cursor moves from one separator to the next. */
    method ReadNamed(ghost whole: Option<Parsed<seq<Member>>>, ghost before: seq<Member>) returns (x: Option<Member>)
      requires Valid() && offset < |content| && MembersDue(whole, before, content, offset, depth)
      modifies this
      ensures Valid()
      ensures x == None ==> whole == None
      ensures x.Some? ==> old(offset) < offset < |content| && depth == old(depth)
      ensures x.Some? && content[offset] == ',' ==> MembersDue(whole, before + [x.value], content, offset, depth)
      ensures x.Some? && content[offset] == '}' ==> whole == Some(Parsed(before + [x.value], offset + 1))
      ensures x.Some? && content[offset] != ',' && content[offset] != '}' ==> whole == None
      decreases |content| - offset, 0
    {
      ghost var at := offset;
      MembersDueEnd(whole, before, content, at, depth);
      if offset + 1 == |content| { return None; }
      offset := offset + 1;
      x := ReadMember();
      if x == None { return None; }
      MembersDueStep(whole, before, content, at, Parsed(x.value, offset), depth);
      SkipWhitespace();
    }

    /** A name, a colon and a value. */
    method ReadMember() returns (r: Option<Member>)
      requires Valid() && offset < |content|
      modifies this
      ensures Valid() && (r.Some? ==> depth == old(depth) && old(offset) < offset)
      ensures MemberRead(content, old(offset), old(depth), if r.Some? then Some(Parsed(r.value, offset)) else None)
      decreases |content| - offset, 4
    {
      ghost var c, i, d := content, offset, depth;
      SkipWhitespace();
      var name := ReadString();
      if name == None { return None; }
      ghost var q := offset;
      SkipWhitespace();
      if content[offset] != ':' { return None; }
      offset := offset + 1;
      SkipWhitespace();
      var v := ReadValue();
      OneMemberIs(c, i, d, Parsed(name.value, q), if v.Some? then Some(Parsed(v.value, offset)) else None);
      if v == None { return None; }
      return Some(Member(name.value, v.value));
    }
  }

  /** `cJSON_Parse`. */
  method ParseText(text: string) returns (r: Option<Json>)
    ensures r == Parse(text)
  {
    var b := new ParseBuffer(text);
    if |b.content| > 4 && At(b.content, 0, BOM) { b.offset := 3; }
    b.SkipWhitespace();
    r := b.ReadValue();
  }

  /** A value written out and read back by the two loops is the same value, unless it is nested too deep to be read. */
  method SaveAndLoad(j: Json, format: bool) returns (r: Option<Json>)
    requires Clean(j)
    ensures r == if Within(j, NESTING_LIMIT) then Some(j) else None
  {
    var out := new PrintBuffer(format);
    out.PrintValue(j);
    assert out.text == "" + Print(j, format, 0) == Print(j, format, 0);
    RoundTrip(j, format);
    r := ParseText(out.text);
  }

  /** The whole array is what was read before and what is still to be read behind the separator; `Inside` opens it. */
  ghost predicate ElementsDue(whole: Option<Parsed<seq<Json>>>, before: seq<Json>, c: string, at: nat, depth: nat)
    requires Content(c) && at < |c|
  {
    forall k: int {:trigger Inside(k)} :: Inside(k) ==> whole == Joined(before, Elements(c, at + 1, depth))
  }

  lemma {:induction false} ElementsDueStart(c: string, at: nat, depth: nat)
    requires Content(c) && at < |c|
    ensures ElementsDue(Elements(c, at + 1, depth), [], c, at, depth)
  {
    Unjoined(Elements(c, at + 1, depth));
  }

  lemma {:induction false} ElementsDueEnd(whole: Option<Parsed<seq<Json>>>, before: seq<Json>, c: string, at: nat,
      depth: nat)
    requires Content(c) && at < |c| && ElementsDue(whole, before, c, at, depth)
    ensures at + 1 == |c| || Value(c, Skip(c, at + 1), depth) == None ==> whole == None
  {
    assert Inside(0);
  }

  lemma {:induction false} ElementsDueStep(whole: Option<Parsed<seq<Json>>>, before: seq<Json>, c: string, at: nat,
      p: Parsed<Json>, depth: nat)
    requires Content(c) && at + 1 < |c| && ElementsDue(whole, before, c, at, depth)
    requires Value(c, Skip(c, at + 1), depth) == Some(p)
    ensures p.next <= |c|
    ensures var z := Skip(c, p.next);
      if c[z] == ',' then ElementsDue(whole, before + [p.item], c, z, depth)
      else whole == if c[z] == ']' then Some(Parsed(before + [p.item], z + 1)) else None
  {
    assert Inside(0);
    assert Elements(c, at + 1, depth) == MoreElements(c, p, depth);
    JoinedMore(before, p.item, Elements(c, Skip(c, p.next) + 1, depth));
  }

  /** What reading a name, a colon and a value gives; `Inside` opens it. */
  ghost predicate MemberRead(c: string, i: nat, depth: nat, r: Option<Parsed<Member>>)
    requires Content(c) && i < |c|
  {
    forall k: int {:trigger Inside(k)} :: Inside(k) ==> OneMember(c, i, depth) == r
  }

  lemma {:induction false} OneMemberIs(c: string, i: nat, depth: nat, name: Parsed<string>, v: Option<Parsed<Json>>)
    requires Content(c) && i < |c| && ParseString(c, Skip(c, i)) == Some(name) && name.next <= |c|
    requires var k := Skip(c, name.next); c[k] == ':' && Value(c, Skip(c, k + 1), depth) == v
    ensures MemberRead(c, i, depth, if v.Some? then Some(Parsed(Member(name.item, v.value.item), v.value.next))
      else None)
  {
  }

  /** The whole object is what was read before and what is still to be read behind the separator; `Inside` opens it. */
  ghost predicate MembersDue(whole: Option<Parsed<seq<Member>>>, before: seq<Member>, c: string, at: nat, depth: nat)
    requires Content(c) && at < |c|
  {
    forall k: int {:trigger Inside(k)} :: Inside(k) ==> whole == Joined(before, Members(c, at + 1, depth))
  }

  lemma {:induction false} MembersDueStart(c: string, at: nat, depth: nat)
    requires Content(c) && at < |c|
    ensures MembersDue(Members(c, at + 1, depth), [], c, at, depth)
  {
    Unjoined(Members(c, at + 1, depth));
  }

  lemma {:induction false} MembersDueEnd(whole: Option<Parsed<seq<Member>>>, before: seq<Member>, c: string, at: nat,
      depth: nat)
    requires Content(c) && at < |c| && MembersDue(whole, before, c, at, depth)
    ensures at + 1 == |c| || MemberRead(c, at + 1, depth, None) ==> whole == None
  {
    assert Inside(0);
  }

  lemma {:induction false} MembersDueStep(whole: Option<Parsed<seq<Member>>>, before: seq<Member>, c: string,
      at: nat, p: Parsed<Member>, depth: nat)
    requires Content(c) && at + 1 < |c| && MembersDue(whole, before, c, at, depth)
    requires MemberRead(c, at + 1, depth, Some(p))
    ensures p.next <= |c|
    ensures var z := Skip(c, p.next);
      if c[z] == ',' then MembersDue(whole, before + [p.item], c, z, depth)
      else whole == if c[z] == '}' then Some(Parsed(before + [p.item], z + 1)) else None
  {
    assert Inside(0);
    assert Members(c, at + 1, depth) == MoreMembers(c, p, depth);
    JoinedMore(before, p.item, Members(c, Skip(c, p.next) + 1, depth));
  }

  lemma {:induction false} Unjoined<T>(r: Option<Parsed<seq<T>>>)
    ensures Joined([], r) == r
  {
    if r.Some? { assert [] + r.value.item == r.value.item; }
  }

  lemma {:induction false} Unprefixed(r: Option<string>)
    ensures Prefixed("", r) == r
  {
    if r.Some? { assert "" + r.value == r.value; }
  }

  lemma {:induction false} Longer(a: string, b: string, r: Option<string>)
    ensures Prefixed(a, Prefixed(b, r)) == Prefixed(a + b, r)
  {
    if r.Some? { assert a + (b + r.value) == (a + b) + r.value; }
  }

  lemma {:induction false} JoinedMore<T>(before: seq<T>, x: T, r: Option<Parsed<seq<T>>>)
    ensures r.Some? ==> Joined(before, Some(Parsed([x] + r.value.item, r.value.next))) == Joined(before + [x], r)
  {
    if r.Some? { assert before + ([x] + r.value.item) == (before + [x]) + r.value.item; }
  }
}

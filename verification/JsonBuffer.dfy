/** The printing and parsing loops over their buffers, each proved to do what the text functions say. */
module JsonBuffer {
  import opened Basics
  import opened JsonValue
  import opened JsonText

  // ---- Printing a string into a buffer of the computed size ----

  lemma {:induction false} EscapeSnoc(s: string, i: nat)
    requires i < |s|
    ensures Escape(s[..i + 1]) == Escape(s[..i]) + EscapeChar(s[i])
  {
    assert s[..i + 1] == s[..i] + [s[i]];
    EscapeAppend(s[..i], [s[i]]);
    assert Escape([s[i]]) == EscapeChar(s[i]) + [] == EscapeChar(s[i]);
  }

  lemma {:induction false} EscapeAppend(a: string, b: string)
    ensures Escape(a + b) == Escape(a) + Escape(b)
    decreases |a|
  {
    if a == [] {
      assert a + b == b;
    } else {
      assert (a + b)[1..] == a[1..] + b;
      EscapeAppend(a[1..], b);
    }
  }

  /** The first loop of `print_string_ptr`: one more for a short escape, five more for `\uXXXX`. */
  method EscapedLength(input: string) returns (n: nat)
    ensures n == |Escape(input)|
  {
    var extra := 0;
    for i := 0 to |input|
      invariant i + extra == |Escape(input[..i])|
    {
      EscapeSnoc(input, i);
      if Short(input[i]).Some? {
        extra := extra + 1;
      } else if input[i] as int < 32 {
        extra := extra + 5;
      }
    }
    assert input[..|input|] == input;
    n := |input| + extra;
  }

  /** The second loop writes the escapes; the precomputed length is exactly filled. */
  method WriteEscaped(output: array<char>, input: string) returns (p: nat)
    requires output.Length >= 1 + |Escape(input)|
    modifies output
    ensures p == 1 + |Escape(input)| && output[..p] == old(output[..1]) + Escape(input)
  {
    p := 1;
    ghost var first, done := output[..1], "";
    for i := 0 to |input|
      invariant done == Escape(input[..i]) && p == 1 + |done| <= output.Length && output[..p] == first + done
    {
      EscapeSnoc(input, i);
      EscapeRest(input, i + 1);
      p := WriteMore(output, p, EscapeChar(input[i]), first, done);
      done := done + EscapeChar(input[i]);
    }
    assert input[..|input|] == input;
  }

  /** One character's escape goes behind what is written already. */
  method WriteMore(output: array<char>, p: nat, e: string, ghost first: string, ghost done: string) returns (q: nat)
    requires p + |e| <= output.Length && output[..p] == first + done
    modifies output
    ensures q == p + |e| && output[..q] == first + (done + e)
  {
    q := WriteAt(output, p, e);
    assert (first + done) + e == first + (done + e);
  }

  /** `print_string_ptr`. */
  method PrintString(input: string) returns (output: array<char>)
    ensures output[..] == Quote(input)
  {
    var n := EscapedLength(input);
    output := new char[n + 2];
    output[0] := QUOTE;
    var p := WriteEscaped(output, input);
    output[p] := QUOTE;
    assert output[..p] == [QUOTE] + Escape(input);
    assert output[..] == output[..p] + [QUOTE];
  }

  lemma {:induction false} EscapeRest(s: string, i: nat)
    requires i <= |s|
    ensures |Escape(s[..i])| <= |Escape(s)|
    decreases |s| - i
  {
    if i < |s| {
      EscapeSnoc(s, i);
      EscapeRest(s, i + 1);
    } else {
      assert s[..i] == s;
    }
  }

  method WriteAt(output: array<char>, p: nat, e: string) returns (q: nat)
    requires p + |e| <= output.Length
    modifies output
    ensures q == p + |e| && output[..q] == old(output[..p]) + e
  {
    ghost var before := output[..p];
    for k := 0 to |e|
      invariant output[..p + k] == before + e[..k]
    {
      output[p + k] := e[k];
      assert output[..p + k + 1] == output[..p + k] + [e[k]];
      assert e[..k + 1] == e[..k] + [e[k]];
    }
    q := p + |e|;
  }

  // ---- The print buffer ----

  class PrintBuffer {
    var text: string
    var depth: nat
    const format: bool

    constructor (format: bool)
      ensures text == "" && depth == 0 && this.format == format
    {
      text, depth, this.format := "", 0, format;
    }

    /** `print_value`: exactly the text of the value is added. */
    method PrintValue(j: Json)
      modifies this
      ensures text == old(text) + Print(j, format, old(depth)) && depth == old(depth)
      decreases j, 0
    {
      match j
      case Null => text := text + "null";
      case False => text := text + "false";
      case True => text := text + "true";
      case Str(s) =>
        var quoted := PrintString(s);
        text := text + quoted[..];
      case Arr(items) => PrintArray(items);
      case Obj(ms) => PrintObject(ms);
    }

    method PrintArray(items: seq<Json>)
      modifies this
      ensures text == old(text) + Print(Arr(items), format, old(depth)) && depth == old(depth)
      decreases items, 2
    {
      ghost var start := text;
      text := text + "[";
      depth := depth + 1;
      PrintElements(items);
      Around(start, "[", PrintItems(items, format, depth), "]");
      text := text + "]";
      depth := depth - 1;
    }

    /** The loop of `print_array`. */
    method PrintElements(items: seq<Json>)
      modifies this
      ensures text == old(text) + PrintItems(items, format, depth) && depth == old(depth)
      decreases items, 1
    {
      for i := 0 to |items|
        invariant depth == old(depth)
        invariant old(text) + PrintItems(items, format, depth) == text + PrintItems(items[i..], format, depth)
      {
        ghost var was, p, rest := text, Print(items[i], format, depth), PrintItems(items[i + 1..], format, depth);
        assert items[i..][1..] == items[i + 1..] && items[i..][0] == items[i];
        PrintValue(items[i]);
        if i + 1 < |items| {
          Chain(was, p, Space(format), rest);
          text := text + ("," + Space(format));
        }
      }
    }

    method PrintTabs(n: nat)
      modifies this
      ensures text == old(text) + Tabs(n) && depth == old(depth)
    {
      for i := 0 to n
        invariant text == old(text) + Tabs(i) && depth == old(depth)
      {
        text := text + ['\t'];
      }
    }

    method PrintObject(ms: seq<Member>)
      modifies this
      ensures text == old(text) + Print(Obj(ms), format, old(depth)) && depth == old(depth)
      decreases ms, 2
    {
      ghost var start, inner := text, PrintMembers(ms, format, depth + 1);
      text := text + ("{" + Newline(format));
      depth := depth + 1;
      PrintAllMembers(ms);
      depth := depth - 1;
      Brace(start, Newline(format), inner, Indent(format, depth));
      if format { PrintTabs(depth); }
      text := text + "}";
    }

    /** The loop of `print_object`. */
    method PrintAllMembers(ms: seq<Member>)
      modifies this
      ensures text == old(text) + PrintMembers(ms, format, depth) && depth == old(depth)
      decreases ms, 1
    {
      for i := 0 to |ms|
        invariant depth == old(depth)
        invariant old(text) + PrintMembers(ms, format, depth) == text + PrintMembers(ms[i..], format, depth)
      {
        ghost var was, p, rest := text, PrintMember(ms[i], format, depth), PrintMembers(ms[i + 1..], format, depth);
        assert ms[i..][1..] == ms[i + 1..] && ms[i..][0] == ms[i];
        PrintOne(ms[i]);
        Chain(was, p, Newline(format), rest);
        text := text + ((if i + 1 < |ms| then "," else "") + Newline(format));
      }
    }

    method PrintOne(m: Member)
      modifies this
      ensures text == old(text) + PrintMember(m, format, old(depth)) && depth == old(depth)
      decreases m, 1
    {
      ghost var was := text;
      PrintIndent();
      var name := PrintString(m.name);
      text := text + (name[..] + (":" + Tab(format)));
      PrintValue(m.value);
      Colon(was, Indent(format, depth), Quote(m.name), Tab(format), Print(m.value, format, depth));
    }

    method PrintIndent()
      modifies this
      ensures text == old(text) + Indent(format, depth) && depth == old(depth)
    {
      if format { PrintTabs(depth); }
    }
  }

  lemma {:induction false} Colon(was: string, indent: string, name: string, tab: string, value: string)
    ensures ((was + indent) + (name + (":" + tab))) + value == was + (indent + (name + (":" + (tab + value))))
  {
  }

  lemma {:induction false} Chain(was: string, p: string, blank: string, rest: string)
    ensures was + (p + ("," + (blank + rest))) == ((was + p) + ("," + blank)) + rest
    ensures was + (p + blank) == ((was + p) + ("" + blank)) + "" && was + p == (was + p) + ""
  {
  }

  lemma {:induction false} Around(start: string, open: string, inner: string, close: string)
    ensures ((start + open) + inner) + close == start + (open + (inner + close))
  {
  }

  lemma {:induction false} Brace(start: string, nl: string, inner: string, indent: string)
    ensures (((start + ("{" + nl)) + inner) + indent) + "}" == start + ("{" + (nl + (inner + (indent + "}"))))
    ensures ((start + ("{" + nl)) + inner) + "}" == start + ("{" + (nl + (inner + ("" + "}"))))
  {
  }
}

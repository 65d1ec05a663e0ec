/** The text of a JSON value as cJSON prints it, and the value of a text as cJSON parses it. */
module JsonText {
  import opened Basics
  import opened JsonValue

  const NUL: char := 0 as char
  const QUOTE: char := 34 as char
  const BACKSLASH: char := 92 as char
  const NESTING_LIMIT: nat := 1000

  // ---- Printing ----

  /** The letter that follows the backslash in a two-character escape. */
  function Short(c: char): Option<char> {
    if c == QUOTE || c == BACKSLASH then Some(c)
    else if c as int == 8 then Some('b')
    else if c as int == 9 then Some('t')
    else if c as int == 10 then Some('n')
    else if c as int == 12 then Some('f')
    else if c as int == 13 then Some('r')
    else None
  }

  function Hex(d: nat): char
    requires d < 16
  {
    if d < 10 then (d + 48) as char else (d + 87) as char
  }

  /** `%04x` of a character below 32. */
  function Hex4(n: nat): string
    requires n < 65536
  {
    [Hex(n / 16 / 16 / 16), Hex(n / 16 / 16 % 16), Hex(n / 16 % 16), Hex(n % 16)]
  }

  function EscapeChar(c: char): string {
    if Short(c).Some? then [BACKSLASH, Short(c).value]
    else if c as int < 32 then [BACKSLASH, 'u'] + Hex4(c as int)
    else [c]
  }

  function Escape(s: string): string {
    if s == [] then [] else EscapeChar(s[0]) + Escape(s[1..])
  }

  function Quote(s: string): string {
    [QUOTE] + (Escape(s) + [QUOTE])
  }

  function Tabs(n: nat): (r: string)
    ensures |r| == n
  {
    seq(n, i => '\t')
  }

  function Print(j: Json, fmt: bool, depth: nat): string
    decreases j, 0
  {
    match j
    case Null => "null"
    case False => "false"
    case True => "true"
    case Str(s) => Quote(s)
    case Arr(items) => "[" + (PrintItems(items, fmt, depth + 1) + "]")
    case Obj(ms) => "{" + (Newline(fmt) + (PrintMembers(ms, fmt, depth + 1) + (Indent(fmt, depth) + "}")))
  }

  function Newline(fmt: bool): string { if fmt then "\n" else "" }
  function Space(fmt: bool): string { if fmt then " " else "" }
  function Tab(fmt: bool): string { if fmt then "\t" else "" }
  function Indent(fmt: bool, depth: nat): string { if fmt then Tabs(depth) else "" }

  function PrintItems(items: seq<Json>, fmt: bool, depth: nat): string
    decreases items, 1
  {
    if items == [] then ""
    else if |items| == 1 then Print(items[0], fmt, depth)
    else Print(items[0], fmt, depth) + ("," + (Space(fmt) + PrintItems(items[1..], fmt, depth)))
  }

  function PrintMembers(ms: seq<Member>, fmt: bool, depth: nat): string
    decreases ms, 1
  {
    if ms == [] then ""
    else if |ms| == 1 then PrintMember(ms[0], fmt, depth) + Newline(fmt)
    else PrintMember(ms[0], fmt, depth) + ("," + (Newline(fmt) + PrintMembers(ms[1..], fmt, depth)))
  }

  function PrintMember(m: Member, fmt: bool, depth: nat): string
    decreases m, 0
  {
    Indent(fmt, depth) + (Quote(m.name) + (":" + (Tab(fmt) + Print(m.value, fmt, depth))))
  }

  // ---- Parsing ----

  /** What the parser reads: the text with its terminator. */
  predicate Content(c: string) {
    |c| > 0 && c[|c| - 1] == NUL
  }

  /** `buffer_skip_whitespace`: control characters and blanks; never past the last character. */
  function Skip(c: string, i: nat): (k: nat)
    requires Content(c) && i <= |c|
    ensures k < |c| && (i < |c| ==> i <= k) && (i == |c| ==> k == i - 1)
    ensures k == |c| - 1 || c[k] as int > 32
    decreases |c| - i
  {
    if i < |c| && c[i] as int <= 32 then Skip(c, i + 1)
    else if i == |c| then i - 1
    else i
  }

  /** Where the closing quote of a string is: escapes are skipped two characters at a time. */
  function Closing(c: string, k: nat): (e: Option<nat>)
    ensures e.Some? ==> k <= e.value < |c| && c[e.value] == QUOTE
    decreases |c| - k
  {
    if k >= |c| then None
    else if c[k] == QUOTE then Some(k)
    else if c[k] != BACKSLASH then Closing(c, k + 1)
    else if k + 1 >= |c| then None
    else Closing(c, k + 2)
  }

  function HexDigit(c: char): Option<nat> {
    if '0' <= c <= '9' then Some(c as nat - 48)
    else if 'A' <= c <= 'F' then Some(c as nat - 55)
    else if 'a' <= c <= 'f' then Some(c as nat - 87)
    else None
  }

  /** `parse_hex4`: a bad digit makes the whole number 0. */
  function ParseHex4(c: string, k: nat): (n: nat)
    requires k + 4 <= |c|
    ensures n < 65536
  {
    var a, b, d, e := HexDigit(c[k]), HexDigit(c[k + 1]), HexDigit(c[k + 2]), HexDigit(c[k + 3]);
    if a.Some? && b.Some? && d.Some? && e.Some? then a.value * 4096 + b.value * 256 + d.value * 16 + e.value else 0
  }

  /** The bytes of a code point, 10xxxxxx after the first. */
  function Utf8(n: nat): (r: string)
    requires n < 0x110000
    ensures 1 <= |r| <= 4
  {
    if n < 0x80 then [n as char]
    else if n < 0x800 then [(0xC0 + n / 64) as char, (0x80 + n % 64) as char]
    else if n < 0x10000 then [(0xE0 + n / 64 / 64) as char, (0x80 + n / 64 % 64) as char, (0x80 + n % 64) as char]
    else [(0xF0 + n / 64 / 64 / 64) as char, (0x80 + n / 64 / 64 % 64) as char, (0x80 + n / 64 % 64) as char,
      (0x80 + n % 64) as char]
  }

  datatype Literal = Literal(bytes: string, length: nat)

  /** `utf16_literal_to_utf8`: one escape, or the two of a surrogate pair. */
  function Utf16Literal(c: string, k: nat, end: nat): (r: Option<Literal>)
    requires k < end < |c|
    ensures r.Some? ==> r.value.length >= 6
  {
    if end - k < 6 then None else
    var first := ParseHex4(c, k + 2);
    if 0xDC00 <= first <= 0xDFFF then None
    else if 0xD800 <= first <= 0xDBFF then
      if end - k < 12 || c[k + 6] != BACKSLASH || c[k + 7] != 'u' then None else
      var second := ParseHex4(c, k + 8);
      if 0xDC00 <= second <= 0xDFFF then Some(Literal(Utf8(0x10000 + first % 1024 * 1024 + second % 1024), 12))
      else None
    else Some(Literal(Utf8(first), 6))
  }

  /** The character an escape letter other than `u` stands for. */
  function Long(c: char): Option<char> {
    if c == 'b' then Some(8 as char)
    else if c == 'f' then Some(12 as char)
    else if c == 'n' then Some(10 as char)
    else if c == 'r' then Some(13 as char)
    else if c == 't' then Some(9 as char)
    else if c == QUOTE || c == BACKSLASH || c == '/' then Some(c)
    else None
  }

  /** The characters between k and the closing quote at `end`, unescaped. */
  function Unescape(c: string, k: nat, end: nat): Option<string>
    requires end < |c|
    decreases |c| - k
  {
    if k >= end then Some("")
    else if c[k] != BACKSLASH then Prefixed([c[k]], Unescape(c, k + 1, end))
    else if c[k + 1] == 'u' then
      match Utf16Literal(c, k, end)
      case None => None
      case Some(u) => Prefixed(u.bytes, Unescape(c, k + u.length, end))
    else if Long(c[k + 1]).Some? then Prefixed([Long(c[k + 1]).value], Unescape(c, k + 2, end))
    else None
  }

  function Prefixed(a: string, r: Option<string>): Option<string> {
    if r.Some? then Some(a + r.value) else None
  }

  /** A C string ends at its first NUL. */
  function Cut(s: string): string {
    if s == [] || s[0] == NUL then [] else [s[0]] + Cut(s[1..])
  }

  datatype Parsed<+T> = Parsed(item: T, next: nat)

  function ParseString(c: string, i: nat): (r: Option<Parsed<string>>)
    requires i < |c|
    ensures r.Some? ==> i < r.value.next <= |c|
  {
    if c[i] != QUOTE then None else
    match Closing(c, i + 1)
    case None => None
    case Some(end) =>
      match Unescape(c, i + 1, end)
      case None => None
      case Some(s) => Some(Parsed(Cut(s), end + 1))
  }

  /** The text s stands at position i. `Look` names the place that a proof wants to compare. */
  predicate At(c: string, i: nat, s: string) {
    i + |s| <= |c| && forall k {:trigger Look(k)} :: Look(k) && 0 <= k < |s| ==> c[i + k] == s[k]
  }

  predicate Look(k: int) { true }

  /** `parse_value`. Numbers are not part of this model. */
  function Value(c: string, i: nat, depth: nat): (r: Option<Parsed<Json>>)
    requires Content(c) && i < |c|
    ensures r.Some? ==> i < r.value.next <= |c|
    decreases |c| - i, 4
  {
    if c[i] == 'n' || c[i] == 'f' || c[i] == 't' then Keyword(c, i)
    else if c[i] == QUOTE then StringValue(c, i)
    else if c[i] == '[' then ArrayValue(c, i, depth)
    else if c[i] == '{' then ObjectValue(c, i, depth)
    else None
  }

  function Keyword(c: string, i: nat): (r: Option<Parsed<Json>>)
    ensures r.Some? ==> i < r.value.next <= |c|
  {
    if At(c, i, "null") then Some(Parsed(Null, i + 4))
    else if At(c, i, "false") then Some(Parsed(False, i + 5))
    else if At(c, i, "true") then Some(Parsed(True, i + 4))
    else None
  }

  function StringValue(c: string, i: nat): (r: Option<Parsed<Json>>)
    requires i < |c|
    ensures r.Some? ==> i < r.value.next <= |c|
  {
    match ParseString(c, i)
    case None => None
    case Some(p) => Some(Parsed(Str(p.item), p.next))
  }

  /** `parse_array`. */
  function ArrayValue(c: string, i: nat, depth: nat): (r: Option<Parsed<Json>>)
    requires Content(c) && i < |c| && c[i] == '['
    ensures r.Some? ==> i < r.value.next <= |c|
    decreases |c| - i, 3
  {
    if depth >= NESTING_LIMIT then None
    else if c[Skip(c, i + 1)] == ']' then Some(Parsed(Arr([]), Skip(c, i + 1) + 1))
    else match Elements(c, i + 1, depth + 1)
      case None => None
      case Some(p) => Some(Parsed(Arr(p.item), p.next))
  }

  /** `parse_object`. */
  function ObjectValue(c: string, i: nat, depth: nat): (r: Option<Parsed<Json>>)
    requires Content(c) && i < |c| && c[i] == '{'
    ensures r.Some? ==> i < r.value.next <= |c|
    decreases |c| - i, 3
  {
    if depth >= NESTING_LIMIT then None
    else if c[Skip(c, i + 1)] == '}' then Some(Parsed(Obj([]), Skip(c, i + 1) + 1))
    else match Members(c, i + 1, depth + 1)
      case None => None
      case Some(p) => Some(Parsed(Obj(p.item), p.next))
  }

  /** Values separated by commas, up to the closing bracket. */
  function Elements(c: string, i: nat, depth: nat): (r: Option<Parsed<seq<Json>>>)
    requires Content(c) && i <= |c|
    ensures r.Some? ==> i < r.value.next <= |c|
    decreases |c| - i, 6
  {
    if i == |c| then None else
    match Value(c, Skip(c, i), depth)
    case None => None
    case Some(p) => MoreElements(c, p, depth)
  }

  function MoreElements(c: string, p: Parsed<Json>, depth: nat): (r: Option<Parsed<seq<Json>>>)
    requires Content(c) && p.next <= |c|
    ensures r.Some? ==> p.next <= r.value.next <= |c|
    decreases |c| - p.next, 7
  {
    var k := Skip(c, p.next);
    if c[k] == ',' then
      match Elements(c, k + 1, depth)
      case None => None
      case Some(rest) => Some(Parsed([p.item] + rest.item, rest.next))
    else if c[k] == ']' then Some(Parsed([p.item], k + 1))
    else None
  }

  /** Named values separated by commas, up to the closing brace. */
  function Members(c: string, i: nat, depth: nat): (r: Option<Parsed<seq<Member>>>)
    requires Content(c) && i <= |c|
    ensures r.Some? ==> i < r.value.next <= |c|
    decreases |c| - i, 6
  {
    if i == |c| then None else
    match OneMember(c, i, depth)
    case None => None
    case Some(p) => MoreMembers(c, p, depth)
  }

  function OneMember(c: string, i: nat, depth: nat): (r: Option<Parsed<Member>>)
    requires Content(c) && i < |c|
    ensures r.Some? ==> i < r.value.next <= |c|
    decreases |c| - i, 5
  {
    match ParseString(c, Skip(c, i))
    case None => None
    case Some(name) =>
      var k := Skip(c, name.next);
      if c[k] != ':' then None else
      match Value(c, Skip(c, k + 1), depth)
      case None => None
      case Some(p) => Some(Parsed(Member(name.item, p.item), p.next))
  }

  function MoreMembers(c: string, p: Parsed<Member>, depth: nat): (r: Option<Parsed<seq<Member>>>)
    requires Content(c) && p.next <= |c|
    ensures r.Some? ==> p.next <= r.value.next <= |c|
    decreases |c| - p.next, 7
  {
    var k := Skip(c, p.next);
    if c[k] == ',' then
      match Members(c, k + 1, depth)
      case None => None
      case Some(rest) => Some(Parsed([p.item] + rest.item, rest.next))
    else if c[k] == '}' then Some(Parsed([p.item], k + 1))
    else None
  }

  const BOM: string := [0xEF as char, 0xBB as char, 0xBF as char]

  /** `cJSON_Parse`: a byte order mark is skipped, what follows the value is ignored. */
  function Parse(text: string): Option<Json> {
    var c := text + [NUL];
    var start := if |c| > 4 && At(c, 0, BOM) then 3 else 0;
    match Value(c, Skip(c, start), 0)
    case None => None
    case Some(p) => Some(p.item)
  }
}

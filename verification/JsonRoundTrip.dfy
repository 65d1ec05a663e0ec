/** Parsing what was printed gives the value back, formatted or not. */
module JsonRoundTrip {
  import opened Basics
  import opened JsonValue
  import opened JsonText
  import opened JsonGrammar

  // ---- Values the text can carry ----

  predicate NulFree(s: string) {
    forall i :: 0 <= i < |s| ==> s[i] != NUL
  }

  predicate Clean(j: Json) {
    match j
    case Str(s) => NulFree(s)
    case Arr(items) => forall i :: 0 <= i < |items| ==> Clean(items[i])
    case Obj(ms) => forall i :: 0 <= i < |ms| ==> NulFree(ms[i].name) && Clean(ms[i].value)
    case _ => true
  }

  /** Nested at most this deep in arrays and objects. */
  predicate Within(j: Json, limit: int) {
    match j
    case Arr(items) => limit > 0 && forall i :: 0 <= i < |items| ==> Within(items[i], limit - 1)
    case Obj(ms) => limit > 0 && forall i :: 0 <= i < |ms| ==> Within(ms[i].value, limit - 1)
    case _ => true
  }

  predicate ItemsClean(items: seq<Json>) {
    forall x :: 0 <= x < |items| ==> Clean(items[x])
  }

  predicate ItemsWithin(items: seq<Json>, limit: int) {
    forall x :: 0 <= x < |items| ==> Within(items[x], limit)
  }

  predicate MembersClean(ms: seq<Member>) {
    forall x :: 0 <= x < |ms| ==> NulFree(ms[x].name) && Clean(ms[x].value)
  }

  predicate MembersWithin(ms: seq<Member>, limit: int) {
    forall x :: 0 <= x < |ms| ==> Within(ms[x].value, limit)
  }

  // ---- Reading pieces of a text ----

  lemma {:induction false} AtSplit(c: string, i: nat, a: string, b: string)
    requires At(c, i, a + b)
    ensures At(c, i, a) && At(c, i + |a|, b)
  {
    forall k | Look(k) && 0 <= k < |a| ensures c[i + k] == a[k] {
      AtIndex(c, i, a + b, k);
    }
    forall k | Look(k) && 0 <= k < |b| ensures c[i + |a| + k] == b[k] {
      AtIndex(c, i, a + b, |a| + k);
    }
  }

  lemma {:induction false} AtIndex(c: string, i: nat, s: string, k: nat)
    requires At(c, i, s) && k < |s|
    ensures c[i + k] == s[k]
  {
    assert Look(k);
  }

  /** Blanks are skipped up to the next visible character. */
  lemma {:induction false} SkipTo(c: string, i: nat, k: nat)
    requires Content(c) && i <= k < |c| && c[k] as int > 32
    requires forall x :: i <= x < k ==> c[x] as int <= 32
    ensures Skip(c, i) == k
    decreases k - i
  {
    if i < k { SkipTo(c, i + 1, k); }
  }

  lemma {:induction false} SkipOver(c: string, i: nat, blanks: string)
    requires Content(c) && At(c, i, blanks) && i + |blanks| < |c| && c[i + |blanks|] as int > 32
    requires forall x :: 0 <= x < |blanks| ==> blanks[x] as int <= 32
    ensures Skip(c, i) == i + |blanks|
  {
    forall x | i <= x < i + |blanks| ensures c[x] as int <= 32 { AtIndex(c, i, blanks, x - i); }
    SkipTo(c, i, i + |blanks|);
  }

  // ---- Strings ----

  lemma {:induction false} HexBack(d: nat)
    requires d < 16
    ensures HexDigit(Hex(d)) == Some(d) && DigitOf(Hex(d)) == d
  {
  }

  lemma {:induction false} Hex4At(c: string, k: nat, n: nat)
    requires n < 65536 && At(c, k, Hex4(n))
    ensures c[k] == Hex(n / 16 / 16 / 16) && c[k + 1] == Hex(n / 16 / 16 % 16)
    ensures c[k + 2] == Hex(n / 16 % 16) && c[k + 3] == Hex(n % 16)
  {
    AtIndex(c, k, Hex4(n), 0);
    AtIndex(c, k, Hex4(n), 1);
    AtIndex(c, k, Hex4(n), 2);
    AtIndex(c, k, Hex4(n), 3);
  }

  lemma {:induction false} Hex4Back(c: string, k: nat, n: nat)
    requires n < 65536 && At(c, k, Hex4(n))
    ensures ParseHex4(c, k) == n
  {
    Hex4At(c, k, n);
    HexBack(n / 16 / 16 / 16);
    HexBack(n / 16 / 16 % 16);
    HexBack(n / 16 % 16);
    HexBack(n % 16);
  }

  lemma {:induction false} Hex4Number(c: string, k: nat, n: nat)
    requires n < 65536 && At(c, k, Hex4(n))
    ensures Number(c, k, true) == Some(n)
  {
    Hex4At(c, k, n);
    HexBack(n / 16 / 16 / 16);
    HexBack(n / 16 / 16 % 16);
    HexBack(n / 16 % 16);
    HexBack(n % 16);
    DigitsSame(c, k, n / 16 / 16 / 16, n / 16 / 16 % 16, n / 16 % 16, n % 16);
  }

  /** What is printed for a character is a unit of the grammar that stands for it. */
  lemma {:induction false} EscapeUnit(c: string, k: nat, ch: char, end: nat)
    requires At(c, k, EscapeChar(ch)) && k + |EscapeChar(ch)| <= end < |c|
    ensures Unit(c, k, k + |EscapeChar(ch)|, end, [ch], true)
  {
    var e := EscapeChar(ch);
    AtIndex(c, k, e, 0);
    if |e| == 2 {
      AtIndex(c, k, e, 1);
    } else if |e| == 6 {
      AtIndex(c, k, e, 1);
      AtSplit(c, k, [BACKSLASH, 'u'], Hex4(ch as int));
      Hex4Number(c, k + 2, ch as int);
      assert IsUtf8([ch], ch as int);
    }
  }

  /** A character with a short escape is printed as that one; a slash is printed as it is. */
  lemma {:induction false} ShortPrinted(ch: char, letter: char)
    requires ShortPair(letter, ch) && letter != '/'
    ensures EscapeChar(ch) == ['\\', letter]
  {
  }

  /** Any other control character is printed as a number, and all other characters as they are. */
  lemma {:induction false} OtherPrinted(ch: char)
    requires forall letter :: ShortPair(letter, ch) ==> letter == '/'
    ensures if ch as int < 32 then |EscapeChar(ch)| == 6 else EscapeChar(ch) == [ch]
  {
    assert !ShortPair('\"', ch) && !ShortPair('\\', ch) && !ShortPair('b', ch) && !ShortPair('f', ch);
    assert !ShortPair('n', ch) && !ShortPair('r', ch) && !ShortPair('t', ch);
  }

  lemma {:induction false} EscapeStands(c: string, k: nat, s: string, end: nat)
    requires At(c, k, Escape(s)) && end == k + |Escape(s)| < |c|
    ensures Stands(c, k, end, s, true)
    decreases |s|
  {
    if s != [] {
      var e, rest := EscapeChar(s[0]), Escape(s[1..]);
      assert Escape(s) == e + rest;
      AtSplit(c, k, e, rest);
      EscapeUnit(c, k, s[0], end);
      EscapeStands(c, k + |e|, s[1..], end);
      assert s[..1] == [s[0]];
    }
  }

  /** The closing quote of an escaped string is the one that was printed. */
  lemma {:induction false} ClosingBack(c: string, k: nat, s: string)
    requires At(c, k, Escape(s) + [QUOTE])
    ensures Closing(c, k) == Some(k + |Escape(s)|)
  {
    LastQuote(c, k, Escape(s));
    ClosingThere(c, k, k + |Escape(s)|, s) by { EscapeStands(c, k, s, k + |Escape(s)|); }
  }

  lemma {:induction false} UnescapeBack(c: string, k: nat, s: string, end: nat)
    requires At(c, k, Escape(s)) && end == k + |Escape(s)| < |c|
    ensures Unescape(c, k, end) == Some(s)
  {
    EscapeStands(c, k, s, end);
    StandsRead(c, k, end, s, true);
  }

  lemma {:induction false} CutClean(s: string)
    requires NulFree(s)
    ensures Cut(s) == s
    decreases |s|
  {
    if s != [] {
      CutClean(s[1..]);
      assert [s[0]] + s[1..] == s;
    }
  }

  /** A printed string is a string of the grammar. */
  lemma {:induction false} PrintedString(c: string, i: nat, s: string)
    requires At(c, i, Quote(s))
    ensures Quoted(c, i, s, i + |Quote(s)|)
  {
    var e := Escape(s);
    QuoteParts(c, i, s, e);
    QuotedAround(c, i, s, i + 1 + |e|) by { EscapeStands(c, i + 1, s, i + 1 + |e|); }
  }

  lemma {:induction false} QuoteParts(c: string, i: nat, s: string, e: string)
    requires e == Escape(s) && At(c, i, Quote(s))
    ensures |Quote(s)| == |e| + 2 && i + 1 + |e| < |c| && c[i] == QUOTE && At(c, i + 1, e) && c[i + 1 + |e|] == QUOTE
  {
    QuoteLayout(c, i, e);
    LastQuote(c, i + 1, e);
  }

  lemma {:induction false} LastQuote(c: string, k: nat, e: string)
    requires At(c, k, e + [QUOTE])
    ensures At(c, k, e) && k + |e| < |c| && c[k + |e|] == QUOTE
  {
    AtSplit(c, k, e, [QUOTE]);
    AtIndex(c, k + |e|, [QUOTE], 0);
  }

  lemma {:induction false} QuotedAround(c: string, i: nat, s: string, end: nat)
    requires i < end < |c| && c[i] == QUOTE && c[end] == QUOTE && Stands(c, i + 1, end, s, true)
    ensures Quoted(c, i, s, end + 1)
  {
  }

  /** Escaping and quoting are undone. */
  lemma {:induction false} StringBack(c: string, i: nat, s: string)
    requires NulFree(s) && At(c, i, Quote(s))
    ensures i < |c| && ParseString(c, i) == Some(Parsed(s, i + |Quote(s)|))
  {
    PrintedString(c, i, s);
    QuotedRead(c, i, s, i + |Quote(s)|);
    CutClean(s);
  }

  lemma {:induction false} QuoteLayout(c: string, i: nat, e: string)
    requires At(c, i, [QUOTE] + (e + [QUOTE]))
    ensures i < |c| && c[i] == QUOTE && At(c, i + 1, e + [QUOTE]) && At(c, i + 1, e)
  {
    AtSplit(c, i, [QUOTE], e + [QUOTE]);
    AtIndex(c, i, [QUOTE], 0);
    AtSplit(c, i + 1, e, [QUOTE]);
  }

  // ---- What a text denotes ----

  lemma {:induction false} FirstVisible(j: Json, fmt: bool, depth: nat)
    ensures var t := Print(j, fmt, depth); |t| > 0 && 32 < t[0] as int < 128 && t[0] != ']'
  {
  }

  /** The text from i to e denotes a value; blanks may stand between tokens. */
  ghost predicate Denotes(c: string, i: nat, j: Json, e: nat)
    requires Content(c)
    decreases j, 0
  {
    i < e < |c| && match j
    case Null => At(c, i, "null") && e == i + 4
    case False => At(c, i, "false") && e == i + 5
    case True => At(c, i, "true") && e == i + 4
    case Str(s) => Spelt(c, i, s, e)
    case Arr(items) => c[i] == '[' && DenotesItems(c, i + 1, items, e)
    case Obj(ms) => c[i] == '{' && DenotesMembers(c, i + 1, ms, e)
  }

  ghost predicate DenotesItems(c: string, i: nat, items: seq<Json>, e: nat)
    requires Content(c)
    decreases items, 1
  {
    i < |c| && if items == [] then c[Skip(c, i)] == ']' && e == Skip(c, i) + 1
    else exists e1 {:trigger AfterItem(c, e1, items, e)} ::
      Denotes(c, Skip(c, i), items[0], e1)
      && AfterItem(c, e1, items, e)
  }

  ghost predicate AfterItem(c: string, e1: nat, items: seq<Json>, e: nat)
    requires Content(c) && items != []
    decreases items, 0
  {
    e1 < |c| && var z := Skip(c, e1);
    if |items| == 1 then c[z] == ']' && e == z + 1 else c[z] == ',' && DenotesItems(c, z + 1, items[1..], e)
  }

  ghost predicate DenotesMembers(c: string, i: nat, ms: seq<Member>, e: nat)
    requires Content(c)
    decreases ms, 2
  {
    i < |c| && if ms == [] then c[Skip(c, i)] == '}' && e == Skip(c, i) + 1
    else exists e1 {:trigger AfterMember(c, e1, ms, e)} :: DenotesMember(c, i, ms[0], e1) && AfterMember(c, e1, ms, e)
  }

  ghost predicate DenotesMember(c: string, i: nat, m: Member, e1: nat)
    requires Content(c)
    decreases m, 1
  {
    i < |c| && exists q {:trigger AfterName(c, q, m, e1)} :: Spelt(c, Skip(c, i), m.name, q) && AfterName(c, q, m, e1)
  }

  ghost predicate AfterName(c: string, q: nat, m: Member, e1: nat)
    requires Content(c)
    decreases m, 0
  {
    q < |c| && c[Skip(c, q)] == ':' && Denotes(c, Skip(c, Skip(c, q) + 1), m.value, e1)
  }

  ghost predicate AfterMember(c: string, e1: nat, ms: seq<Member>, e: nat)
    requires Content(c) && ms != []
    decreases ms, 0
  {
    e1 < |c| && var z := Skip(c, e1);
    if |ms| == 1 then c[z] == '}' && e == z + 1 else c[z] == ',' && DenotesMembers(c, z + 1, ms[1..], e)
  }

  /** A value, a comma, blanks and the rest. */
  lemma {:induction false} CommaLayout(c: string, k: nat, p: string, blanks: string, rest: string, close: string)
    requires At(c, k, p + ("," + (blanks + rest)) + close)
    ensures var k1 := k + |p|;
      && At(c, k, p) && k1 < |c| && c[k1] == ','
      && At(c, k1 + 1, blanks) && At(c, k1 + 1 + |blanks|, rest + close)
  {
    assert p + ("," + (blanks + rest)) + close == p + ("," + (blanks + (rest + close)));
    AtSplit(c, k, p, "," + (blanks + (rest + close)));
    AtSplit(c, k + |p|, ",", blanks + (rest + close));
    AtIndex(c, k + |p|, ",", 0);
    AtSplit(c, k + |p| + 1, blanks, rest + close);
  }

  predicate Blank(s: string) {
    forall x :: 0 <= x < |s| ==> s[x] as int <= 32
  }

  lemma {:induction false} Blanks(fmt: bool, pd: nat)
    ensures Blank(Newline(fmt)) && Blank(Tab(fmt)) && Blank(Space(fmt)) && Blank(Indent(fmt, pd))
    ensures Blank(Newline(fmt) + Indent(fmt, pd))
  {
  }

  /** Blanks and then more blanks are skipped together. */
  lemma {:induction false} SkipBoth(c: string, i: nat, a: string, b: string)
    requires Content(c) && Blank(a) && Blank(b) && At(c, i, a) && At(c, i + |a|, b)
    requires i + |a| + |b| < |c| && c[i + |a| + |b|] as int > 32
    ensures Skip(c, i) == i + |a| + |b|
  {
    forall x | i <= x < i + |a| + |b| ensures c[x] as int <= 32 {
      if x < i + |a| { AtIndex(c, i, a, x - i); } else { AtIndex(c, i + |a|, b, x - i - |a|); }
    }
    SkipTo(c, i, i + |a| + |b|);
  }

  /** Indentation, name, colon, value. */
  lemma {:induction false} MemberLayout(c: string, k: nat, ind: string, name: string, tab: string, value: string)
    requires At(c, k, ind + (name + (":" + (tab + value))))
    ensures var q := k + |ind|;
      var q2 := q + |name|;
      && At(c, k, ind) && At(c, q, name) && q2 < |c| && c[q2] == ':'
      && At(c, q2 + 1, tab) && At(c, q2 + 1 + |tab|, value)
  {
    AtSplit(c, k, ind, name + (":" + (tab + value)));
    AtSplit(c, k + |ind|, name, ":" + (tab + value));
    AtSplit(c, k + |ind| + |name|, ":", tab + value);
    AtIndex(c, k + |ind| + |name|, ":", 0);
    AtSplit(c, k + |ind| + |name| + 1, tab, value);
  }

  /** A printed value denotes itself. */
  lemma {:induction false} Printed(c: string, i: nat, j: Json, fmt: bool, pd: nat)
    requires Content(c) && Clean(j) && At(c, i, Print(j, fmt, pd)) && i + |Print(j, fmt, pd)| < |c|
    ensures Denotes(c, i, j, i + |Print(j, fmt, pd)|)
    decreases j, 1
  {
    match j
    case Arr(items) => PrintedArray(c, i, items, fmt, pd, i + |Print(j, fmt, pd)|);
    case Obj(ms) => PrintedObject(c, i, ms, fmt, pd, i + |Print(j, fmt, pd)|);
    case Str(s) =>
      PrintedString(c, i, s);
      QuotedSpelt(c, i, s, i + |Quote(s)|);
      CutClean(s);
    case _ =>
  }

  lemma {:induction false} PrintedArray(c: string, i: nat, items: seq<Json>, fmt: bool, pd: nat, e: nat)
    requires ItemsClean(items)
    requires Content(c) && At(c, i, Print(Arr(items), fmt, pd)) && e == i + |Print(Arr(items), fmt, pd)| < |c|
    ensures i < e < |c| && c[i] == '[' && DenotesItems(c, i + 1, items, e)
    decreases items, 2
  {
    ArrayLayout(c, i, items, fmt, pd);
    PrintedItems(c, i + 1, i + 1, items, fmt, pd + 1, e);
  }

  lemma {:induction false} PrintedObject(c: string, i: nat, ms: seq<Member>, fmt: bool, pd: nat, e: nat)
    requires MembersClean(ms)
    requires Content(c) && At(c, i, Print(Obj(ms), fmt, pd)) && e == i + |Print(Obj(ms), fmt, pd)| < |c|
    ensures i < e < |c| && c[i] == '{' && DenotesMembers(c, i + 1, ms, e)
    decreases ms, 3
  {
    ObjectLayout(c, i, ms, fmt, pd);
    PrintedMembers(c, i + 1, ms, fmt, pd, i + 1 + |Newline(fmt)|, e);
  }

  lemma {:induction false} ArrayLayout(c: string, i: nat, items: seq<Json>, fmt: bool, pd: nat)
    requires Content(c) && At(c, i, Print(Arr(items), fmt, pd))
    ensures |Print(Arr(items), fmt, pd)| == |PrintItems(items, fmt, pd + 1)| + 2
    ensures i + 1 < |c| && c[i] == '[' && Skip(c, i + 1) == i + 1 && At(c, i + 1, PrintItems(items, fmt, pd + 1) + "]")
  {
    var inner := PrintItems(items, fmt, pd + 1);
    AtSplit(c, i, "[", inner + "]");
    AtIndex(c, i, "[", 0);
    FirstOfItems(c, i + 1, items, fmt, pd + 1);
    SkipTo(c, i + 1, i + 1);
  }

  lemma {:induction false} ObjectLayout(c: string, i: nat, ms: seq<Member>, fmt: bool, pd: nat)
    requires At(c, i, Print(Obj(ms), fmt, pd))
    ensures var nl, t := Newline(fmt), PrintMembers(ms, fmt, pd + 1) + (Indent(fmt, pd) + "}");
      && |Print(Obj(ms), fmt, pd)| == 1 + |nl| + |t| && |t| == |PrintMembers(ms, fmt, pd + 1)| + |Indent(fmt, pd)| + 1
      && i + 1 < |c| && c[i] == '{' && At(c, i + 1, nl) && At(c, i + 1 + |nl|, t)
  {
    var nl, t := Newline(fmt), PrintMembers(ms, fmt, pd + 1) + (Indent(fmt, pd) + "}");
    AtSplit(c, i, "{", nl + t);
    AtIndex(c, i, "{", 0);
    AtSplit(c, i + 1, nl, t);
  }

  lemma {:induction false} FirstOfItems(c: string, k: nat, items: seq<Json>, fmt: bool, pd: nat)
    requires At(c, k, PrintItems(items, fmt, pd) + "]")
    ensures k < |c| && c[k] as int > 32
  {
    if items != [] { FirstVisible(items[0], fmt, pd); }
    AtIndex(c, k, PrintItems(items, fmt, pd) + "]", 0);
  }

  lemma {:induction false} LastItemLayout(c: string, k: nat, items: seq<Json>, fmt: bool, pd: nat)
    requires |items| == 1 && At(c, k, PrintItems(items, fmt, pd) + "]")
    ensures var p := Print(items[0], fmt, pd);
      |PrintItems(items, fmt, pd)| == |p| && At(c, k, p) && k + |p| < |c| && c[k + |p|] == ']'
  {
    var p := Print(items[0], fmt, pd);
    AtSplit(c, k, p, "]");
    AtIndex(c, k + |p|, "]", 0);
  }

  lemma {:induction false} MoreItemsLayout(c: string, k: nat, items: seq<Json>, fmt: bool, pd: nat)
    requires |items| > 1 && At(c, k, PrintItems(items, fmt, pd) + "]") && Content(c)
    ensures var p, rest := Print(items[0], fmt, pd), PrintItems(items[1..], fmt, pd);
      var k1 := k + |p|;
      var k2 := k1 + 1 + |Space(fmt)|;
      && |PrintItems(items, fmt, pd)| == |p| + 1 + |Space(fmt)| + |rest|
      && At(c, k, p) && k1 + 1 < |c| && c[k1] == ',' && Skip(c, k1 + 1) == k2 && At(c, k2, rest + "]")
  {
    var p, sp, rest := Print(items[0], fmt, pd), Space(fmt), PrintItems(items[1..], fmt, pd);
    CommaLayout(c, k, p, sp, rest, "]");
    FirstOfItems(c, k + |p| + 1 + |sp|, items[1..], fmt, pd);
    SkipOver(c, k + |p| + 1, sp);
  }

  lemma {:induction false} PrintedItems(c: string, i: nat, k: nat, items: seq<Json>, fmt: bool, pd: nat, e: nat)
    requires ItemsClean(items)
    requires Content(c) && i < |c| && Skip(c, i) == k
    requires At(c, k, PrintItems(items, fmt, pd) + "]") && e == k + |PrintItems(items, fmt, pd)| + 1 < |c|
    ensures DenotesItems(c, i, items, e)
    decreases items, 1
  {
    if items == [] {
      AtIndex(c, k, PrintItems(items, fmt, pd) + "]", 0);
    } else {
      var k1 := k + |Print(items[0], fmt, pd)|;
      PrintedItem(c, k, items, fmt, pd, k1, e);
      Printed(c, k, items[0], fmt, pd);
    }
  }

  lemma {:induction false} PrintedItem(c: string, k: nat, items: seq<Json>, fmt: bool, pd: nat, k1: nat, e: nat)
    requires ItemsClean(items)
    requires Content(c) && items != [] && At(c, k, PrintItems(items, fmt, pd) + "]")
    requires k1 == k + |Print(items[0], fmt, pd)| && e == k + |PrintItems(items, fmt, pd)| + 1 < |c|
    ensures k1 < |c| && At(c, k, Print(items[0], fmt, pd)) && AfterItem(c, k1, items, e)
    decreases items, 0
  {
    if |items| == 1 {
      LastItemLayout(c, k, items, fmt, pd);
    } else {
      MoreItemsLayout(c, k, items, fmt, pd);
      PrintedItems(c, k1 + 1, k1 + 1 + |Space(fmt)|, items[1..], fmt, pd, e);
    }
    SkipTo(c, k1, k1);
  }

  /** The closing brace, alone on its line. */
  lemma {:induction false} ClosingBrace(c: string, i: nat, fmt: bool, pd: nat)
    requires Content(c) && At(c, i, Newline(fmt)) && At(c, i + |Newline(fmt)|, Indent(fmt, pd) + "}")
    ensures var z := i + |Newline(fmt)| + |Indent(fmt, pd)|; z < |c| && Skip(c, i) == z && c[z] == '}'
  {
    var k := i + |Newline(fmt)|;
    AtSplit(c, k, Indent(fmt, pd), "}");
    AtIndex(c, k + |Indent(fmt, pd)|, "}", 0);
    Blanks(fmt, pd);
    SkipBoth(c, i, Newline(fmt), Indent(fmt, pd));
  }

  lemma {:induction false} LastMemberLayout(c: string, k: nat, ms: seq<Member>, fmt: bool, pd: nat)
    requires |ms| == 1 && Content(c) && At(c, k, PrintMembers(ms, fmt, pd + 1) + (Indent(fmt, pd) + "}"))
    ensures var p := PrintMember(ms[0], fmt, pd + 1);
      var z := k + |p| + |Newline(fmt)| + |Indent(fmt, pd)|;
      && |PrintMembers(ms, fmt, pd + 1)| == |p| + |Newline(fmt)| && At(c, k, p)
      && z < |c| && Skip(c, k + |p|) == z && c[z] == '}'
  {
    var p := PrintMember(ms[0], fmt, pd + 1);
    LastLayout(c, k, p, Newline(fmt), Indent(fmt, pd) + "}");
    ClosingBrace(c, k + |p|, fmt, pd);
  }

  lemma {:induction false} LastLayout(c: string, k: nat, p: string, nl: string, close: string)
    requires At(c, k, p + nl + close)
    ensures At(c, k, p) && At(c, k + |p|, nl) && At(c, k + |p| + |nl|, close)
  {
    assert p + nl + close == p + (nl + close);
    AtSplit(c, k, p, nl + close);
    AtSplit(c, k + |p|, nl, close);
  }

  lemma {:induction false} MoreMembersLayout(c: string, k: nat, ms: seq<Member>, fmt: bool, pd: nat)
    requires |ms| > 1 && At(c, k, PrintMembers(ms, fmt, pd + 1) + (Indent(fmt, pd) + "}"))
    ensures var p, nl, rest := PrintMember(ms[0], fmt, pd + 1), Newline(fmt), PrintMembers(ms[1..], fmt, pd + 1);
      var k1 := k + |p|;
      && |PrintMembers(ms, fmt, pd + 1)| == |p| + 1 + |nl| + |rest|
      && At(c, k, p) && k1 + 1 < |c| && c[k1] == ',' && At(c, k1 + 1, nl)
      && At(c, k1 + 1 + |nl|, rest + (Indent(fmt, pd) + "}"))
  {
    var p, nl, rest, close := PrintMember(ms[0], fmt, pd + 1), Newline(fmt), PrintMembers(ms[1..], fmt, pd + 1),
      Indent(fmt, pd) + "}";
    CommaLayout(c, k, p, nl, rest, close);
  }

  lemma {:induction false} PrintedMembers(c: string, i: nat, ms: seq<Member>, fmt: bool, pd: nat, k: nat, e: nat)
    requires MembersClean(ms)
    requires Content(c) && i < |c| && At(c, i, Newline(fmt)) && k == i + |Newline(fmt)|
    requires At(c, k, PrintMembers(ms, fmt, pd + 1) + (Indent(fmt, pd) + "}"))
    requires e == k + |PrintMembers(ms, fmt, pd + 1)| + |Indent(fmt, pd)| + 1 < |c|
    ensures DenotesMembers(c, i, ms, e)
    decreases ms, 2
  {
    if ms == [] {
      PrintedNone(c, i, fmt, pd);
    } else {
      var k1 := k + |PrintMember(ms[0], fmt, pd + 1)|;
      PrintedAfter(c, k, ms, fmt, pd, k1, e);
      PrintedMember(c, i, ms[0], fmt, pd, k1);
    }
  }

  lemma {:induction false} PrintedNone(c: string, i: nat, fmt: bool, pd: nat)
    requires Content(c) && i < |c| && At(c, i, Newline(fmt))
    requires At(c, i + |Newline(fmt)|, PrintMembers([], fmt, pd + 1) + (Indent(fmt, pd) + "}"))
    ensures DenotesMembers(c, i, [], i + |Newline(fmt)| + |Indent(fmt, pd)| + 1)
  {
    assert PrintMembers([], fmt, pd + 1) + (Indent(fmt, pd) + "}") == Indent(fmt, pd) + "}";
    ClosingBrace(c, i, fmt, pd);
  }

  lemma {:induction false} PrintedAfter(c: string, k: nat, ms: seq<Member>, fmt: bool, pd: nat, k1: nat, e: nat)
    requires MembersClean(ms)
    requires Content(c) && ms != [] && At(c, k, PrintMembers(ms, fmt, pd + 1) + (Indent(fmt, pd) + "}"))
    requires k1 == k + |PrintMember(ms[0], fmt, pd + 1)|
    requires e == k + |PrintMembers(ms, fmt, pd + 1)| + |Indent(fmt, pd)| + 1 < |c|
    ensures k1 < |c| && At(c, k, PrintMember(ms[0], fmt, pd + 1)) && AfterMember(c, k1, ms, e)
    decreases ms, 1
  {
    if |ms| == 1 {
      LastMemberLayout(c, k, ms, fmt, pd);
      LastAfter(c, k1, ms, e);
    } else {
      MoreMembersLayout(c, k, ms, fmt, pd);
      PrintedMore(c, k1, ms, fmt, pd, e);
    }
  }

  lemma {:induction false} LastAfter(c: string, k1: nat, ms: seq<Member>, e: nat)
    requires Content(c) && |ms| == 1 && k1 < |c| && c[Skip(c, k1)] == '}' && e == Skip(c, k1) + 1
    ensures AfterMember(c, k1, ms, e)
  {
  }

  lemma {:induction false} PrintedMore(c: string, k1: nat, ms: seq<Member>, fmt: bool, pd: nat, e: nat)
    requires MembersClean(ms)
    requires Content(c) && |ms| > 1 && k1 + 1 < |c| && c[k1] == ',' && At(c, k1 + 1, Newline(fmt))
    requires At(c, k1 + 1 + |Newline(fmt)|, PrintMembers(ms[1..], fmt, pd + 1) + (Indent(fmt, pd) + "}"))
    requires e == k1 + 1 + |Newline(fmt)| + |PrintMembers(ms[1..], fmt, pd + 1)| + |Indent(fmt, pd)| + 1 < |c|
    ensures AfterMember(c, k1, ms, e)
    decreases ms, 0
  {
    SkipTo(c, k1, k1);
    PrintedMembers(c, k1 + 1, ms[1..], fmt, pd, k1 + 1 + |Newline(fmt)|, e);
  }

  lemma {:induction false} PrintedMember(c: string, i: nat, m: Member, fmt: bool, pd: nat, e: nat)
    requires NulFree(m.name) && Clean(m.value)
    requires Content(c) && At(c, i, Newline(fmt)) && At(c, i + |Newline(fmt)|, PrintMember(m, fmt, pd + 1))
    requires e == i + |Newline(fmt)| + |PrintMember(m, fmt, pd + 1)| < |c|
    ensures DenotesMember(c, i, m, e)
    decreases m, 3
  {
    MemberText(m, fmt, pd + 1, Indent(fmt, pd + 1), Quote(m.name), Tab(fmt), Print(m.value, fmt, pd + 1));
    PrintedWords(c, i, m, fmt, pd, Newline(fmt), Indent(fmt, pd + 1), Quote(m.name), Tab(fmt),
      Print(m.value, fmt, pd + 1), PrintMember(m, fmt, pd + 1), e);
  }

  lemma {:induction false} PrintedWords(c: string, i: nat, m: Member, fmt: bool, pd: nat,
      nl: string, ind: string, name: string, tab: string, value: string, text: string, e: nat)
    requires Content(c) && NulFree(m.name) && Clean(m.value)
    requires nl == Newline(fmt) && ind == Indent(fmt, pd + 1) && tab == Tab(fmt)
    requires name == Quote(m.name) && value == Print(m.value, fmt, pd + 1)
    requires name != [] && name[0] as int > 32 && value != [] && value[0] as int > 32
    requires text == ind + (name + (":" + (tab + value))) && |text| == |ind| + |name| + 1 + |tab| + |value|
    requires At(c, i, nl) && At(c, i + |nl|, text) && e == i + |nl| + |text| < |c|
    ensures DenotesMember(c, i, m, e)
    decreases m, 2
  {
    Blanks(fmt, pd + 1);
    PrintedTokens(c, i, m, fmt, pd + 1, nl, ind, name, tab, value, e);
  }

  lemma {:induction false} PrintedTokens(c: string, i: nat, m: Member, fmt: bool, pd: nat,
      nl: string, ind: string, name: string, tab: string, value: string, e: nat)
    requires NulFree(m.name) && Clean(m.value)
    requires Content(c) && Blank(nl) && Blank(ind) && Blank(tab) && name == Quote(m.name)
      && value == Print(m.value, fmt, pd)
    requires name != [] && name[0] as int > 32 && value != [] && value[0] as int > 32
    requires At(c, i, nl) && At(c, i + |nl|, ind + (name + (":" + (tab + value))))
    requires e == i + |nl| + |ind| + |name| + 1 + |tab| + |value| < |c|
    ensures DenotesMember(c, i, m, e)
    decreases m, 1
  {
    TokenSkips(c, i, nl, ind, name, tab, value);
    PrintedValue(c, i, m, fmt, pd, i + |nl| + |ind|, name, i + |nl| + |ind| + |name| + 1 + |tab|, value, e);
  }

  lemma {:induction false} PrintedValue(c: string, i: nat, m: Member, fmt: bool, pd: nat, q: nat, name: string,
      q3: nat, value: string, e: nat)
    requires NulFree(m.name) && Clean(m.value)
    requires Content(c) && i < |c| && name == Quote(m.name) && value == Print(m.value, fmt, pd)
    requires q + |name| + 1 <= q3 < |c| && Skip(c, i) == q && At(c, q, name) && c[q + |name|] == ':'
      && Skip(c, q + |name| + 1) == q3
    requires At(c, q3, value) && e == q3 + |value| < |c|
    ensures DenotesMember(c, i, m, e)
    decreases m, 0
  {
    Printed(c, q3, m.value, fmt, pd);
    PrintedString(c, q, m.name);
    QuotedSpelt(c, q, m.name, q + |name|);
    CutClean(m.name);
    SkipTo(c, q + |name|, q + |name|);
    assert AfterName(c, q + |name|, m, e);
  }

  lemma {:induction false} MemberText(m: Member, fmt: bool, pd: nat, ind: string, name: string, tab: string,
      value: string)
    requires ind == Indent(fmt, pd) && name == Quote(m.name) && tab == Tab(fmt) && value == Print(m.value, fmt, pd)
    ensures PrintMember(m, fmt, pd) == ind + (name + (":" + (tab + value)))
    ensures |PrintMember(m, fmt, pd)| == |ind| + |name| + 1 + |tab| + |value|
    ensures name != [] && name[0] as int > 32 && value != [] && value[0] as int > 32
  {
    FirstVisible(m.value, fmt, pd);
  }

  lemma {:induction false} TokenSkips(c: string, i: nat, nl: string, ind: string, name: string, tab: string,
      value: string)
    requires Content(c) && Blank(nl) && Blank(ind) && Blank(tab)
    requires name != [] && name[0] as int > 32 && value != [] && value[0] as int > 32
    requires At(c, i, nl) && At(c, i + |nl|, ind + (name + (":" + (tab + value))))
    ensures var q := i + |nl| + |ind|;
      var q2 := q + |name|;
      var q3 := q2 + 1 + |tab|;
      && q3 < |c| && Skip(c, i) == q && At(c, q, name) && c[q2] == ':' && Skip(c, q2 + 1) == q3 && At(c, q3, value)
  {
    MemberLayout(c, i + |nl|, ind, name, tab, value);
    var q := i + |nl| + |ind|;
    AtIndex(c, q, name, 0);
    SkipBoth(c, i, nl, ind);
    SkipToValue(c, q + |name| + 1, tab, value);
  }

  lemma {:induction false} SkipToValue(c: string, i: nat, tab: string, value: string)
    requires Content(c) && Blank(tab) && At(c, i, tab) && At(c, i + |tab|, value) && value != [] && value[0] as int > 32
    ensures i + |tab| < |c| && Skip(c, i) == i + |tab|
  {
    AtIndex(c, i + |tab|, value, 0);
    SkipOver(c, i, tab);
  }

  // ---- What a text denotes is what the parser finds ----

  lemma {:induction false} KeywordBack(c: string, i: nat, j: Json, e: nat, depth: nat)
    requires Content(c) && (j.Null? || j.False? || j.True?) && Denotes(c, i, j, e)
    ensures Value(c, i, depth) == Keyword(c, i) == Some(Parsed(j, e))
  {
    var word := if j.Null? then "null" else if j.False? then "false" else "true";
    AtIndex(c, i, word, 0);
    if At(c, i, "null") { AtIndex(c, i, "null", 0); }
    if At(c, i, "false") { AtIndex(c, i, "false", 0); }
  }

  lemma {:induction false} WithinTail(ms: seq<Member>, limit: int)
    requires ms != [] && MembersWithin(ms, limit)
    ensures Within(ms[0].value, limit) && MembersWithin(ms[1..], limit)
  {
  }

  lemma {:induction false} ValueBack(c: string, i: nat, j: Json, e: nat, depth: nat)
    requires Content(c) && Denotes(c, i, j, e) && Within(j, NESTING_LIMIT - depth)
    ensures Value(c, i, depth) == Some(Parsed(j, e))
    decreases j, 0
  {
    match j
    case Str(s) => StringValueBack(c, i, s, e, depth);
    case Arr(items) =>
      ItemsFine(items, NESTING_LIMIT - depth);
      ArrayBack(c, i, items, e, depth);
    case Obj(ms) =>
      MembersFine(ms, NESTING_LIMIT - depth);
      ObjectBack(c, i, ms, e, depth);
    case _ =>
      KeywordBack(c, i, j, e, depth);
  }

  /** The first character decides how a value is read. */
  lemma {:induction false} ValueIs(c: string, i: nat, depth: nat)
    requires Content(c) && i < |c|
    ensures c[i] == QUOTE ==> Value(c, i, depth) == StringValue(c, i)
    ensures c[i] == '[' ==> Value(c, i, depth) == ArrayValue(c, i, depth)
    ensures c[i] == '{' ==> Value(c, i, depth) == ObjectValue(c, i, depth)
    ensures c[i] == 'n' || c[i] == 'f' || c[i] == 't' ==> Value(c, i, depth) == Keyword(c, i)
  {
  }

  lemma {:induction false} StringValueBack(c: string, i: nat, s: string, e: nat, depth: nat)
    requires Content(c) && Spelt(c, i, s, e)
    ensures Value(c, i, depth) == Some(Parsed(Str(s), e))
  {
    SpeltRead(c, i, s, e);
    ValueIs(c, i, depth);
  }

  lemma {:induction false} ItemsFine(items: seq<Json>, limit: int)
    requires Within(Arr(items), limit)
    ensures limit > 0 && ItemsWithin(items, limit - 1)
  {
  }

  lemma {:induction false} MembersFine(ms: seq<Member>, limit: int)
    requires Within(Obj(ms), limit)
    ensures limit > 0 && MembersWithin(ms, limit - 1)
  {
  }

  lemma {:induction false} ArrayBack(c: string, i: nat, items: seq<Json>, e: nat, depth: nat)
    requires Content(c) && i < |c| && c[i] == '[' && DenotesItems(c, i + 1, items, e)
    requires ItemsWithin(items, NESTING_LIMIT - depth - 1) && depth < NESTING_LIMIT
    ensures Value(c, i, depth) == Some(Parsed(Arr(items), e))
    decreases items, 2
  {
    if items != [] { ItemsBack(c, i + 1, items, e, depth + 1); }
    ValueIs(c, i, depth);
    assert ArrayValue(c, i, depth) == Some(Parsed(Arr(items), e));
  }

  lemma {:induction false} ObjectBack(c: string, i: nat, ms: seq<Member>, e: nat, depth: nat)
    requires Content(c) && i < |c| && c[i] == '{' && DenotesMembers(c, i + 1, ms, e)
    requires MembersWithin(ms, NESTING_LIMIT - depth - 1) && depth < NESTING_LIMIT
    ensures Value(c, i, depth) == Some(Parsed(Obj(ms), e))
    decreases ms, 4
  {
    if ms != [] { MembersBack(c, i + 1, ms, e, depth + 1); }
    ValueIs(c, i, depth);
    assert ObjectValue(c, i, depth) == Some(Parsed(Obj(ms), e));
  }

  lemma {:induction false} Begins(c: string, i: nat, j: Json, e: nat)
    requires Content(c) && Denotes(c, i, j, e)
    ensures c[i] != ']'
  {
    match j
    case Null => AtIndex(c, i, "null", 0);
    case False => AtIndex(c, i, "false", 0);
    case True => AtIndex(c, i, "true", 0);
    case _ =>
  }

  lemma {:induction false} ItemsBack(c: string, i: nat, items: seq<Json>, e: nat, depth: nat)
    requires Content(c) && items != [] && DenotesItems(c, i, items, e) && ItemsWithin(items, NESTING_LIMIT - depth)
    ensures c[Skip(c, i)] != ']' && Elements(c, i, depth) == Some(Parsed(items, e))
    decreases items, 1
  {
    var e1 :| Denotes(c, Skip(c, i), items[0], e1) && AfterItem(c, e1, items, e);
    Begins(c, Skip(c, i), items[0], e1);
    ValueBack(c, Skip(c, i), items[0], e1, depth);
    AfterItemBack(c, e1, items, e, depth);
  }

  lemma {:induction false} AfterItemBack(c: string, e1: nat, items: seq<Json>, e: nat, depth: nat)
    requires Content(c) && items != [] && AfterItem(c, e1, items, e) && ItemsWithin(items, NESTING_LIMIT - depth)
    ensures MoreElements(c, Parsed(items[0], e1), depth) == Some(Parsed(items, e))
    decreases items, 0
  {
    if |items| == 1 {
      assert items == [items[0]];
    } else {
      ItemsBack(c, Skip(c, e1) + 1, items[1..], e, depth);
      assert items == [items[0]] + items[1..];
    }
  }

  lemma {:induction false} MembersStep(c: string, i: nat, depth: nat, ms: seq<Member>, e1: nat, e: nat)
    requires Content(c) && i < |c| && ms != [] && OneMember(c, i, depth) == Some(Parsed(ms[0], e1)) && e1 < |c|
    requires var z := Skip(c, e1);
      if |ms| == 1 then c[z] == '}' && e == z + 1
      else c[z] == ',' && Members(c, z + 1, depth) == Some(Parsed(ms[1..], e))
    ensures Members(c, i, depth) == Some(Parsed(ms, e))
  {
    MoreMembersStep(c, depth, ms, e1, e);
  }

  lemma {:induction false} MoreMembersStep(c: string, depth: nat, ms: seq<Member>, e1: nat, e: nat)
    requires Content(c) && ms != [] && e1 < |c|
    requires var z := Skip(c, e1);
      if |ms| == 1 then c[z] == '}' && e == z + 1
      else c[z] == ',' && Members(c, z + 1, depth) == Some(Parsed(ms[1..], e))
    ensures MoreMembers(c, Parsed(ms[0], e1), depth) == Some(Parsed(ms, e))
  {
    assert |ms| == 1 ==> [ms[0]] == ms;
    assert [ms[0]] + ms[1..] == ms;
  }

  lemma {:induction false} MembersBack(c: string, i: nat, ms: seq<Member>, e: nat, depth: nat)
    requires Content(c) && ms != [] && DenotesMembers(c, i, ms, e) && MembersWithin(ms, NESTING_LIMIT - depth)
    ensures c[Skip(c, i)] != '}' && Members(c, i, depth) == Some(Parsed(ms, e))
    decreases ms, 3
  {
    var e1 :| DenotesMember(c, i, ms[0], e1) && AfterMember(c, e1, ms, e);
    WithinTail(ms, NESTING_LIMIT - depth);
    MemberBack(c, i, ms[0], e1, depth);
    AfterBack(c, e1, ms, e, depth);
    MembersStep(c, i, depth, ms, e1, e);
  }

  lemma {:induction false} AfterBack(c: string, e1: nat, ms: seq<Member>, e: nat, depth: nat)
    requires Content(c) && ms != [] && AfterMember(c, e1, ms, e) && MembersWithin(ms[1..], NESTING_LIMIT - depth)
    ensures var z := Skip(c, e1);
      if |ms| == 1 then c[z] == '}' && e == z + 1
      else c[z] == ',' && Members(c, z + 1, depth) == Some(Parsed(ms[1..], e))
    decreases ms, 2
  {
    if |ms| > 1 { MembersBack(c, Skip(c, e1) + 1, ms[1..], e, depth); }
  }

  lemma {:induction false} MemberBack(c: string, i: nat, m: Member, e1: nat, depth: nat)
    requires Content(c) && DenotesMember(c, i, m, e1) && Within(m.value, NESTING_LIMIT - depth)
    ensures c[Skip(c, i)] == QUOTE && OneMember(c, i, depth) == Some(Parsed(m, e1))
    decreases m, 1
  {
    var q :| Spelt(c, Skip(c, i), m.name, q) && AfterName(c, q, m, e1);
    NameRead(c, Skip(c, i), m.name, q);
    AfterNameBack(c, i, q, m, e1, depth);
  }

  lemma {:induction false} NameRead(c: string, k: nat, name: string, q: nat)
    requires Spelt(c, k, name, q)
    ensures k < |c| && c[k] == QUOTE && ParseString(c, k) == Some(Parsed(name, q))
  {
    SpeltRead(c, k, name, q);
  }

  lemma {:induction false} AfterNameBack(c: string, i: nat, q: nat, m: Member, e1: nat, depth: nat)
    requires Content(c) && i < |c| && ParseString(c, Skip(c, i)) == Some(Parsed(m.name, q))
    requires AfterName(c, q, m, e1) && Within(m.value, NESTING_LIMIT - depth)
    ensures OneMember(c, i, depth) == Some(Parsed(m, e1))
    decreases m, 0
  {
    ValueBack(c, Skip(c, Skip(c, q) + 1), m.value, e1, depth);
    OneMemberStep(c, i, depth, m.name, q, Parsed(m.value, e1));
  }

  lemma {:induction false} OneMemberStep(c: string, i: nat, depth: nat, name: string, q: nat, p: Parsed<Json>)
    requires Content(c) && i < |c| && q < |c| && ParseString(c, Skip(c, i)) == Some(Parsed(name, q))
    requires c[Skip(c, q)] == ':' && Value(c, Skip(c, Skip(c, q) + 1), depth) == Some(p)
    ensures OneMember(c, i, depth) == Some(Parsed(Member(name, p.item), p.next))
  {
  }

  // ---- Too deep a nesting is refused ----

  lemma {:induction false} ValueDeep(c: string, i: nat, j: Json, e: nat, depth: nat)
    requires Content(c) && Denotes(c, i, j, e) && !Within(j, NESTING_LIMIT - depth)
    ensures Value(c, i, depth) == None
    decreases j, 0
  {
    ValueIs(c, i, depth);
    match j
    case Arr(items) =>
      assert !ItemsWithin(items, NESTING_LIMIT - depth - 1) || depth >= NESTING_LIMIT;
      if depth < NESTING_LIMIT { ItemsDeep(c, i + 1, items, e, depth + 1); }
    case Obj(ms) =>
      assert !MembersWithin(ms, NESTING_LIMIT - depth - 1) || depth >= NESTING_LIMIT;
      if depth < NESTING_LIMIT { MembersDeep(c, i + 1, ms, e, depth + 1); }
  }

  lemma {:induction false} DeepRest(items: seq<Json>, limit: int)
    requires items != [] && !ItemsWithin(items, limit)
    ensures Within(items[0], limit) ==> |items| > 1 && !ItemsWithin(items[1..], limit)
  {
    var x :| 0 <= x < |items| && !Within(items[x], limit);
    if x > 0 { assert items[1..][x - 1] == items[x]; }
  }

  lemma {:induction false} ItemsDeep(c: string, i: nat, items: seq<Json>, e: nat, depth: nat)
    requires Content(c) && DenotesItems(c, i, items, e) && !ItemsWithin(items, NESTING_LIMIT - depth)
    ensures c[Skip(c, i)] != ']' && Elements(c, i, depth) == None
    decreases items, 1
  {
    var e1 :| Denotes(c, Skip(c, i), items[0], e1) && AfterItem(c, e1, items, e);
    Begins(c, Skip(c, i), items[0], e1);
    DeepRest(items, NESTING_LIMIT - depth);
    if Within(items[0], NESTING_LIMIT - depth) {
      ValueBack(c, Skip(c, i), items[0], e1, depth);
      AfterItemDeep(c, e1, items, e, depth);
    } else {
      ValueDeep(c, Skip(c, i), items[0], e1, depth);
    }
  }

  lemma {:induction false} AfterItemDeep(c: string, e1: nat, items: seq<Json>, e: nat, depth: nat)
    requires Content(c) && |items| > 1 && AfterItem(c, e1, items, e)
    requires !ItemsWithin(items[1..], NESTING_LIMIT - depth)
    ensures MoreElements(c, Parsed(items[0], e1), depth) == None
    decreases items, 0
  {
    ItemsDeep(c, Skip(c, e1) + 1, items[1..], e, depth);
  }

  lemma {:induction false} DeepTail(ms: seq<Member>, limit: int)
    requires ms != [] && !MembersWithin(ms, limit)
    ensures Within(ms[0].value, limit) ==> |ms| > 1 && !MembersWithin(ms[1..], limit)
  {
    var x :| 0 <= x < |ms| && !Within(ms[x].value, limit);
    if x > 0 { assert ms[1..][x - 1] == ms[x]; }
  }

  lemma {:induction false} MembersDeep(c: string, i: nat, ms: seq<Member>, e: nat, depth: nat)
    requires Content(c) && DenotesMembers(c, i, ms, e)
    requires !MembersWithin(ms, NESTING_LIMIT - depth)
    ensures c[Skip(c, i)] != '}' && Members(c, i, depth) == None
    decreases ms, 3
  {
    var e1 :| DenotesMember(c, i, ms[0], e1) && AfterMember(c, e1, ms, e);
    DeepTail(ms, NESTING_LIMIT - depth);
    MembersDeepAt(c, i, ms, e1, e, depth);
  }

  lemma {:induction false} MembersDeepAt(c: string, i: nat, ms: seq<Member>, e1: nat, e: nat, depth: nat)
    requires Content(c) && ms != [] && DenotesMember(c, i, ms[0], e1) && AfterMember(c, e1, ms, e)
    requires Within(ms[0].value, NESTING_LIMIT - depth) ==>
      |ms| > 1 && !MembersWithin(ms[1..], NESTING_LIMIT - depth)
    ensures c[Skip(c, i)] == QUOTE && Members(c, i, depth) == None
    decreases ms, 2
  {
    if Within(ms[0].value, NESTING_LIMIT - depth) {
      MemberBack(c, i, ms[0], e1, depth);
      LaterDeep(c, i, ms, e1, e, depth);
    } else {
      MemberDeep(c, i, ms[0], e1, depth);
      MembersNone(c, i, depth);
    }
  }

  lemma {:induction false} LaterDeep(c: string, i: nat, ms: seq<Member>, e1: nat, e: nat, depth: nat)
    requires Content(c) && i < |c| && |ms| > 1 && OneMember(c, i, depth) == Some(Parsed(ms[0], e1))
      && AfterMember(c, e1, ms, e)
    requires !MembersWithin(ms[1..], NESTING_LIMIT - depth)
    ensures Members(c, i, depth) == None
    decreases ms, 1
  {
    AfterDeep(c, e1, ms, e, depth);
    MembersStop(c, i, depth, Parsed(ms[0], e1));
  }

  lemma {:induction false} MembersNone(c: string, i: nat, depth: nat)
    requires Content(c) && i < |c| && OneMember(c, i, depth) == None
    ensures Members(c, i, depth) == None
  {
  }

  lemma {:induction false} AfterDeep(c: string, e1: nat, ms: seq<Member>, e: nat, depth: nat)
    requires Content(c) && |ms| > 1 && AfterMember(c, e1, ms, e)
    requires !MembersWithin(ms[1..], NESTING_LIMIT - depth)
    ensures MoreMembers(c, Parsed(ms[0], e1), depth) == None
    decreases ms, 0
  {
    MembersDeep(c, Skip(c, e1) + 1, ms[1..], e, depth);
  }

  lemma {:induction false} MembersStop(c: string, i: nat, depth: nat, p: Parsed<Member>)
    requires Content(c) && i < |c| && OneMember(c, i, depth) == Some(p) && MoreMembers(c, p, depth) == None
    ensures Members(c, i, depth) == None
  {
  }

  lemma {:induction false} MemberDeep(c: string, i: nat, m: Member, e1: nat, depth: nat)
    requires Content(c) && DenotesMember(c, i, m, e1) && !Within(m.value, NESTING_LIMIT - depth)
    ensures c[Skip(c, i)] == QUOTE && OneMember(c, i, depth) == None
    decreases m, 1
  {
    var q :| Spelt(c, Skip(c, i), m.name, q) && AfterName(c, q, m, e1);
    NameRead(c, Skip(c, i), m.name, q);
    AfterNameDeep(c, i, q, m, e1, depth);
  }

  lemma {:induction false} AfterNameDeep(c: string, i: nat, q: nat, m: Member, e1: nat, depth: nat)
    requires Content(c) && i < |c| && ParseString(c, Skip(c, i)) == Some(Parsed(m.name, q))
    requires AfterName(c, q, m, e1) && !Within(m.value, NESTING_LIMIT - depth)
    ensures OneMember(c, i, depth) == None
    decreases m, 0
  {
    ValueDeep(c, Skip(c, Skip(c, q) + 1), m.value, e1, depth);
  }

  // ---- The whole text ----

  /**
   Parsing the printed text gives the same tree, members and duplicates in order, exactly when the tree is
   nested no deeper than the parser's limit; a deeper one is refused.
   */
  lemma {:induction false} RoundTrip(j: Json, fmt: bool)
    requires Clean(j)
    ensures Parse(Print(j, fmt, 0)) == if Within(j, 1000) then Some(j) else None
  {
    var c := Print(j, fmt, 0) + [NUL];
    FirstVisible(j, fmt, 0);
    if At(c, 0, BOM) { AtIndex(c, 0, BOM, 0); }
    SkipTo(c, 0, 0);
    Printed(c, 0, j, fmt, 0);
    if Within(j, NESTING_LIMIT) {
      ValueBack(c, 0, j, |Print(j, fmt, 0)|, 0);
    } else {
      ValueDeep(c, 0, j, |Print(j, fmt, 0)|, 0);
    }
  }

  lemma {:induction false} PrintedPair(fmt: bool)
    ensures Print(Arr([True, Null]), fmt, 1) == if fmt then "[true, null]" else "[true,null]"
  {
    var items := [True, Null];
    assert items[1..] == [Null];
    assert PrintItems([Null], fmt, 2) == "null";
    assert PrintItems(items, fmt, 2) == if fmt then "true, null" else "true,null";
  }

  lemma {:induction false} PrintedName(fmt: bool, value: Json, text: string)
    requires Print(value, fmt, 1) == text
    ensures PrintMember(Member("a", value), fmt, 1) == if fmt then "\t\"a\":\t" + text else "\"a\":" + text
  {
    assert Escape("a") == "a" by {
      assert "a"[1..] == "" && EscapeChar('a') == "a";
    }
    assert Quote("a") == "\"a\"";
    assert Indent(true, 1) == "\t" && Indent(false, 1) == "";
  }

  lemma {:induction false} PrintedObjectOfOne(fmt: bool, m: Member, text: string)
    requires PrintMember(m, fmt, 1) == text
    ensures Print(Obj([m]), fmt, 0) == if fmt then "{\n" + text + "\n}" else "{" + text + "}"
  {
    var t := PrintMembers([m], fmt, 1);
    assert t == text + Newline(fmt);
    assert Print(Obj([m]), fmt, 0) == "{" + (Newline(fmt) + (t + (Indent(fmt, 0) + "}")));
    assert Indent(fmt, 0) == "";
    Joined(fmt, text, t);
  }

  lemma {:induction false} Joined(fmt: bool, text: string, t: string)
    requires t == text + Newline(fmt)
    ensures "{" + (Newline(fmt) + (t + ("" + "}"))) == if fmt then "{\n" + text + "\n}" else "{" + text + "}"
  {
  }

  /** The two formats, on one tree. */
  lemma {:induction false} PrintedFormats(fmt: bool)
    ensures Print(Obj([Member("a", Arr([True, Null]))]), fmt, 0)
      == if fmt then "{\n" + ("\t\"a\":\t" + "[true, null]") + "\n}" else "{" + ("\"a\":" + "[true,null]") + "}"
  {
    PrintedPair(fmt);
    var value := Arr([True, Null]);
    var text := Print(value, fmt, 1);
    PrintedName(fmt, value, text);
    PrintedObjectOfOne(fmt, Member("a", value), PrintMember(Member("a", value), fmt, 1));
  }

  // ---- Code points written as UTF-16 escapes ----

  lemma {:induction false} PairSplit(m: nat, q: nat, r: nat)
    requires m < 0x100000 && q == m / 1024 && r == m % 1024
    ensures q < 1024 && (0xD800 + q) % 1024 == q && (0xDC00 + r) % 1024 == r && q * 1024 + r == m
  {
  }

  /** The two escapes that stand for a code point above 0xFFFF (section 7 of RFC 8259). */
  function Surrogates(n: nat): string
    requires 0x10000 <= n < 0x110000
  {
    [BACKSLASH, 'u'] + (Hex4(0xD800 + (n - 0x10000) / 1024) + ([BACKSLASH, 'u'] + Hex4(0xDC00 + (n - 0x10000) % 1024)))
  }

  /** Any code point above 0xFFFF, escaped as a surrogate pair, is read as that code point. */
  lemma {:induction false} SurrogatesBack(c: string, k: nat, n: nat, end: nat)
    requires 0x10000 <= n < 0x110000 && At(c, k, Surrogates(n)) && k + 12 <= end < |c|
    ensures Utf16Literal(c, k, end).Some? && Decode(Utf16Literal(c, k, end).value.bytes) == Some(n)
    ensures Utf16Literal(c, k, end).value.length == 12
  {
    var m := n - 0x10000;
    SurrogateParts(c, k, m);
    PairSplit(m, m / 1024, m % 1024);
    PairLiteral(c, k, end, 0xD800 + m / 1024, 0xDC00 + m % 1024, n);
    Utf8Decodes(n);
  }

  lemma {:induction false} PairLiteral(c: string, k: nat, end: nat, hi: nat, lo: nat, n: nat)
    requires k + 12 <= end < |c| && c[k + 6] == BACKSLASH && c[k + 7] == 'u'
    requires ParseHex4(c, k + 2) == hi && 0xD800 <= hi <= 0xDBFF && ParseHex4(c, k + 8) == lo && 0xDC00 <= lo <= 0xDFFF
    requires n == 0x10000 + hi % 1024 * 1024 + lo % 1024 < 0x110000
    ensures Utf16Literal(c, k, end) == Some(Literal(Utf8(n), 12))
  {
  }

  lemma {:induction false} SurrogateParts(c: string, k: nat, m: nat)
    requires m < 0x100000 && At(c, k, Surrogates(m + 0x10000))
    ensures k + 12 <= |c| && c[k + 6] == BACKSLASH && c[k + 7] == 'u'
    ensures ParseHex4(c, k + 2) == 0xD800 + m / 1024 && ParseHex4(c, k + 8) == 0xDC00 + m % 1024
  {
    var hi, lo, u := 0xD800 + m / 1024, 0xDC00 + m % 1024, [BACKSLASH, 'u'];
    AtSplit(c, k, u, Hex4(hi) + (u + Hex4(lo)));
    AtSplit(c, k + 2, Hex4(hi), u + Hex4(lo));
    AtSplit(c, k + 6, u, Hex4(lo));
    AtIndex(c, k + 6, u, 0);
    AtIndex(c, k + 6, u, 1);
    Hex4Back(c, k + 2, hi);
    Hex4Back(c, k + 8, lo);
  }

  /** Any other code point that is not half a pair is read from one escape. */
  lemma {:induction false} EscapeBack(c: string, k: nat, n: nat, end: nat)
    requires n < 0x10000 && !(0xD800 <= n <= 0xDFFF) && At(c, k, [BACKSLASH, 'u'] + Hex4(n)) && k + 6 <= end < |c|
    ensures Utf16Literal(c, k, end).Some? && Decode(Utf16Literal(c, k, end).value.bytes) == Some(n)
  {
    AtSplit(c, k, [BACKSLASH, 'u'], Hex4(n));
    Hex4Back(c, k + 2, n);
    Utf8Decodes(n);
  }
}

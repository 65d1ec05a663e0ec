/**
 Section 7 of RFC 8259: how the characters between two quotes stand for a string, and what of it the parser reads.
 The relations are defined without the parser's own tables.
 */
module JsonGrammar {
  import opened Basics
  import opened JsonText

  // ---- The grammar ----

  /** The value of a hexadecimal digit in either case, or -1. */
  function DigitOf(c: char): (d: int)
    ensures -1 <= d < 16
  {
    if '0' <= c <= '9' then c as int - '0' as int
    else if 'a' <= c <= 'f' then 10 + c as int - 'a' as int
    else if 'A' <= c <= 'F' then 10 + c as int - 'A' as int
    else -1
  }

  /** The number that m hexadecimal digits write. */
  function Digits(c: string, k: nat, m: nat): (n: Option<nat>)
    requires k + m <= |c| && m <= 4
    ensures n.Some? ==> n.value < match m case 0 => 1 case 1 => 0x10 case 2 => 0x100 case 3 => 0x1000 case 4 => 0x10000
  {
    if m == 0 then Some(0)
    else if Digits(c, k, m - 1).None? || DigitOf(c[k + m - 1]) < 0 then None
    else Some(16 * Digits(c, k, m - 1).value + DigitOf(c[k + m - 1]))
  }

  /** Four hexadecimal digits. The parser takes anything else for zero, which is not in the grammar. */
  function Number(c: string, k: nat, strict: bool): (n: Option<nat>)
    requires k + 4 <= |c|
    ensures n.Some? ==> n.value < 0x10000
  {
    if Digits(c, k, 4).Some? then Digits(c, k, 4)
    else if strict then None
    else Some(0)
  }

  /** The letter of a short escape and the character it means. */
  predicate ShortPair(letter: char, meaning: char) {
    || (letter == '\"' && meaning == '\"')
    || (letter == '\\' && meaning == '\\')
    || (letter == '/' && meaning == '/')
    || (letter == 'b' && meaning as int == 8)
    || (letter == 'f' && meaning as int == 12)
    || (letter == 'n' && meaning as int == 10)
    || (letter == 'r' && meaning as int == 13)
    || (letter == 't' && meaning as int == 9)
  }

  /** The code point that a UTF-8 sequence stands for (section 3 of RFC 3629). */
  function Decode(s: string): Option<nat> {
    if |s| == 1 && s[0] as int < 0x80 then Some(s[0] as int)
    else if |s| == 2 && Lead(s[0], 0xC0, 32) && Tail(s[1]) then Some((s[0] as int - 0xC0) * 64 + Six(s[1]))
    else if |s| == 3 && Lead(s[0], 0xE0, 16) && Tail(s[1]) && Tail(s[2]) then
      Some((s[0] as int - 0xE0) * 4096 + Six(s[1]) * 64 + Six(s[2]))
    else if |s| == 4 && Lead(s[0], 0xF0, 8) && Tail(s[1]) && Tail(s[2]) && Tail(s[3]) then
      Some((s[0] as int - 0xF0) * 262144 + Six(s[1]) * 4096 + Six(s[2]) * 64 + Six(s[3]))
    else None
  }

  predicate Lead(c: char, mark: int, count: int) { mark <= c as int < mark + count }
  predicate Tail(c: char) { 0x80 <= c as int < 0xC0 }
  function Six(c: char): (n: nat) requires Tail(c) ensures n < 64 { c as int - 0x80 }

  /** The one way to write a code point: decoding to it, and no longer than needed. */
  predicate IsUtf8(t: string, n: nat) {
    Decode(t) == Some(n) && |t| == if n < 0x80 then 1 else if n < 0x800 then 2 else if n < 0x10000 then 3 else 4
  }

  /** The escape from i to k, or the pair of escapes, with the number of a code point. */
  predicate CodeUnit(c: string, i: nat, k: nat, t: string, strict: bool)
    requires i < k <= |c|
  {
    if k == i + 6 then
      var n := Number(c, i + 2, strict);
      n.Some? && !(0xD800 <= n.value <= 0xDFFF) && IsUtf8(t, n.value)
    else
      k == i + 12 && c[i + 6] == '\\' && c[i + 7] == 'u' &&
      var hi, lo := Number(c, i + 2, strict), Number(c, i + 8, strict);
      && hi.Some? && 0xD800 <= hi.value <= 0xDBFF && lo.Some? && 0xDC00 <= lo.value <= 0xDFFF
      && IsUtf8(t, 0x10000 + (hi.value - 0xD800) * 0x400 + (lo.value - 0xDC00))
  }

  /**
   The characters from i to k are one unit of the string that ends at e, and stand for the bytes t. Strictly,
   a character stands for itself only from the blank on; the parser takes the control characters as well, and
   a short escape across the end.
   */
  predicate Unit(c: string, i: nat, k: nat, e: nat, t: string, strict: bool)
    requires i < e < |c|
  {
    if c[i] != '\\' then k == i + 1 && t == [c[i]] && (strict ==> c[i] as int >= 0x20 && c[i] != '\"')
    else if c[i + 1] != 'u' then k == i + 2 && (strict ==> k <= e) && |t| == 1 && ShortPair(c[i + 1], t[0])
    else i < k <= e && CodeUnit(c, i, k, t, strict)
  }

  /** The characters from i to e stand for s, unit by unit. */
  ghost predicate Stands(c: string, i: nat, e: nat, s: string, strict: bool)
    requires e < |c|
    decreases |c| - i
  {
    if i >= e then s == "" && (strict ==> i == e)
    else exists k, t {:trigger Unit(c, i, k, e, t, strict)} ::
      Unit(c, i, k, e, t, strict) && |t| <= |s| && s[..|t|] == t && Stands(c, k, e, s[|t|..], strict)
  }

  /** A string of the grammar stands from i to e, quotes included. */
  ghost predicate Quoted(c: string, i: nat, s: string, e: nat) {
    i + 2 <= e <= |c| && c[i] == '\"' && c[e - 1] == '\"' && Stands(c, i + 1, e - 1, s, true)
  }

  /** What the parser accepts as a string, and the C string it makes of it. */
  ghost predicate Spelt(c: string, i: nat, s: string, e: nat) {
    && i + 2 <= e <= |c| && c[i] == '\"' && Closing(c, i + 1) == Some((e - 1) as nat)
    && exists full :: Stands(c, i + 1, e - 1, full, false) && s == Cut(full)
  }

  // ---- One unit ----

  lemma {:induction false} DigitSame(c: char)
    ensures HexDigit(c) == if DigitOf(c) >= 0 then Some(DigitOf(c) as nat) else None
  {
  }

  lemma {:induction false} NumberSame(c: string, k: nat, strict: bool)
    requires k + 4 <= |c|
    ensures Number(c, k, strict) == Some(ParseHex4(c, k)) || (strict && Number(c, k, strict) == None)
  {
    DigitsSame(c, k, DigitOf(c[k]), DigitOf(c[k + 1]), DigitOf(c[k + 2]), DigitOf(c[k + 3]));
    DigitSame(c[k]);
    DigitSame(c[k + 1]);
    DigitSame(c[k + 2]);
    DigitSame(c[k + 3]);
  }

  lemma {:induction false} DigitsSame(c: string, k: nat, x: int, y: int, z: int, w: int)
    requires k + 4 <= |c| && x == DigitOf(c[k]) && y == DigitOf(c[k + 1]) && z == DigitOf(c[k + 2])
      && w == DigitOf(c[k + 3])
    ensures Digits(c, k, 4) == if x < 0 || y < 0 || z < 0 || w < 0 then None
      else Some(16 * (16 * (16 * x + y) + z) + w)
  {
    assert Digits(c, k, 0) == Some(0);
    assert Digits(c, k, 1) == if x < 0 then None else Some(x as nat);
    assert Digits(c, k, 2) == if x < 0 || y < 0 then None else Some((16 * x + y) as nat);
    assert Digits(c, k, 3) == if x < 0 || y < 0 || z < 0 then None else Some((16 * (16 * x + y) + z) as nat);
  }

  lemma {:induction false} Utf8Decodes(n: nat)
    requires n < 0x110000
    ensures Decode(Utf8(n)) == Some(n)
  {
    var a := n / 64;
    var b := a / 64;
    assert n == a * 64 + n % 64 && a == b * 64 + a % 64 && b == b / 64 * 64 + b % 64;
  }

  lemma {:induction false} Utf8Fits(n: nat)
    requires n < 0x110000
    ensures IsUtf8(Utf8(n), n)
  {
    Utf8Decodes(n);
  }

  lemma {:induction false} Parts(n: nat, a: nat, b: nat)
    requires b < 64 && n == a * 64 + b
    ensures n / 64 == a && n % 64 == b
  {
  }

  /** There is no other way to write a code point. */
  lemma {:induction false} Utf8Only(t: string, n: nat)
    requires n < 0x110000 && IsUtf8(t, n)
    ensures t == Utf8(n)
  {
    if |t| == 2 {
      Parts(n, t[0] as int - 0xC0, Six(t[1]));
    } else if |t| == 3 {
      var a := (t[0] as int - 0xE0) * 64 + Six(t[1]);
      Parts(n, a, Six(t[2]));
      Parts(a, t[0] as int - 0xE0, Six(t[1]));
    } else if |t| == 4 {
      var b := (t[0] as int - 0xF0) * 64 + Six(t[1]);
      var a := b * 64 + Six(t[2]);
      Parts(n, a, Six(t[3]));
      Parts(a, b, Six(t[2]));
      Parts(b, t[0] as int - 0xF0, Six(t[1]));
    }
  }

  lemma {:induction false} PairNumber(hi: nat, lo: nat)
    requires 0xD800 <= hi <= 0xDBFF && 0xDC00 <= lo <= 0xDFFF
    ensures 0x10000 + hi % 1024 * 1024 + lo % 1024 == 0x10000 + (hi - 0xD800) * 0x400 + (lo - 0xDC00) < 0x110000
  {
    assert hi % 1024 == hi - 0xD800 && lo % 1024 == lo - 0xDC00;
  }

  lemma {:induction false} CodeRead(c: string, i: nat, k: nat, e: nat, t: string, strict: bool)
    requires i < k <= e < |c| && c[i] == '\\' && c[i + 1] == 'u' && CodeUnit(c, i, k, t, strict)
    ensures Utf16Literal(c, i, e) == Some(Literal(t, k - i))
  {
    if k == i + 6 { OneRead(c, i, e, t, strict); } else { TwoRead(c, i, e, t, strict); }
  }

  lemma {:induction false} OneRead(c: string, i: nat, e: nat, t: string, strict: bool)
    requires i + 6 <= e < |c| && CodeUnit(c, i, i + 6, t, strict)
    ensures Utf16Literal(c, i, e) == Some(Literal(t, 6))
  {
    NumberSame(c, i + 2, strict);
    SingleRead(c, i, e, t, Number(c, i + 2, strict).value);
  }

  lemma {:induction false} TwoRead(c: string, i: nat, e: nat, t: string, strict: bool)
    requires i + 12 <= e < |c| && CodeUnit(c, i, i + 12, t, strict)
    ensures Utf16Literal(c, i, e) == Some(Literal(t, 12))
  {
    var hi, lo := Number(c, i + 2, strict).value, Number(c, i + 8, strict).value;
    assert hi == ParseHex4(c, i + 2) by { NumberSame(c, i + 2, strict); }
    assert lo == ParseHex4(c, i + 8) by { NumberSame(c, i + 8, strict); }
    PairRead(c, i, e, t, hi, lo);
  }

  lemma {:induction false} SingleRead(c: string, i: nat, e: nat, t: string, n: nat)
    requires i + 6 <= e < |c| && n == ParseHex4(c, i + 2) && !(0xD800 <= n <= 0xDFFF) && IsUtf8(t, n)
    ensures Utf16Literal(c, i, e) == Some(Literal(t, 6))
  {
    Utf8Only(t, n);
  }

  lemma {:induction false} PairRead(c: string, i: nat, e: nat, t: string, hi: nat, lo: nat)
    requires i + 12 <= e < |c| && c[i + 6] == '\\' && c[i + 7] == 'u'
    requires hi == ParseHex4(c, i + 2) && 0xD800 <= hi <= 0xDBFF && lo == ParseHex4(c, i + 8) && 0xDC00 <= lo <= 0xDFFF
    requires IsUtf8(t, 0x10000 + (hi - 0xD800) * 0x400 + (lo - 0xDC00))
    ensures Utf16Literal(c, i, e) == Some(Literal(t, 12))
  {
    PairNumber(hi, lo);
    Utf8Only(t, 0x10000 + (hi - 0xD800) * 0x400 + (lo - 0xDC00));
  }

  /** A unit is read as the bytes it stands for. */
  lemma {:induction false} UnitRead(c: string, i: nat, k: nat, e: nat, t: string, strict: bool)
    requires i < e < |c| && Unit(c, i, k, e, t, strict)
    ensures i < k && Unescape(c, i, e) == Prefixed(t, Unescape(c, k, e))
  {
    if c[i] == '\\' {
      if c[i + 1] == 'u' {
        CodeRead(c, i, k, e, t, strict);
      } else {
        assert t == [t[0]];
      }
    }
  }

  lemma {:induction false} PrefixedBy(t: string, s: string, r: Option<string>)
    requires |t| <= |s| && s[..|t|] == t && r == Some(s[|t|..])
    ensures Prefixed(t, r) == Some(s)
  {
    assert s == t + s[|t|..];
  }

  /** Characters that stand for s are read as s. */
  lemma {:induction false} StandsRead(c: string, i: nat, e: nat, s: string, strict: bool)
    requires e < |c| && Stands(c, i, e, s, strict)
    ensures Unescape(c, i, e) == Some(s)
    decreases |c| - i
  {
    if i < e {
      var k, t :| Unit(c, i, k, e, t, strict) && |t| <= |s| && s[..|t|] == t && Stands(c, k, e, s[|t|..], strict);
      UnitRead(c, i, k, e, t, strict);
      StandsRead(c, k, e, s[|t|..], strict);
      PrefixedBy(t, s, Unescape(c, k, e));
    }
  }

  // ---- What is read stands there ----

  lemma {:induction false} CodeStands(c: string, i: nat, e: nat)
    requires i < e < |c| && c[i] == '\\' && c[i + 1] == 'u' && Utf16Literal(c, i, e).Some?
    ensures var u := Utf16Literal(c, i, e).value;
      i + u.length <= e && CodeUnit(c, i, i + u.length, u.bytes, false)
  {
    var hi := ParseHex4(c, i + 2);
    if 0xD800 <= hi <= 0xDBFF {
      PairStands(c, i, hi, ParseHex4(c, i + 8));
    } else {
      OneStands(c, i, hi);
    }
  }

  lemma {:induction false} OneStands(c: string, i: nat, n: nat)
    requires i + 6 <= |c| && n == ParseHex4(c, i + 2) && !(0xD800 <= n <= 0xDFFF)
    ensures CodeUnit(c, i, i + 6, Utf8(n), false)
  {
    NumberSame(c, i + 2, false);
    Utf8Fits(n);
  }

  lemma {:induction false} PairStands(c: string, i: nat, hi: nat, lo: nat)
    requires i + 12 <= |c| && c[i + 6] == '\\' && c[i + 7] == 'u'
    requires hi == ParseHex4(c, i + 2) && 0xD800 <= hi <= 0xDBFF && lo == ParseHex4(c, i + 8) && 0xDC00 <= lo <= 0xDFFF
    ensures 0x10000 + hi % 1024 * 1024 + lo % 1024 < 0x110000
    ensures CodeUnit(c, i, i + 12, Utf8(0x10000 + hi % 1024 * 1024 + lo % 1024), false)
  {
    assert Number(c, i + 2, false) == Some(hi) by { NumberSame(c, i + 2, false); }
    assert Number(c, i + 8, false) == Some(lo) by { NumberSame(c, i + 8, false); }
    PairNumber(hi, lo);
    Utf8Fits(0x10000 + (hi - 0xD800) * 0x400 + (lo - 0xDC00));
  }

  lemma {:induction false} UnitThere(c: string, i: nat, e: nat) returns (k: nat, t: string)
    requires i < e < |c| && Unescape(c, i, e).Some?
    ensures i < k && Unit(c, i, k, e, t, false) && Unescape(c, i, e) == Prefixed(t, Unescape(c, k, e))
  {
    if c[i] != '\\' {
      k, t := i + 1, [c[i]];
    } else if c[i + 1] == 'u' {
      CodeStands(c, i, e);
      var u := Utf16Literal(c, i, e).value;
      k, t := i + u.length, u.bytes;
    } else {
      k, t := i + 2, [Long(c[i + 1]).value];
    }
  }

  /** And only such characters are read as s. */
  lemma {:induction false} ReadStands(c: string, i: nat, e: nat, s: string)
    requires e < |c| && Unescape(c, i, e) == Some(s)
    ensures Stands(c, i, e, s, false)
    decreases |c| - i
  {
    if i < e {
      var k, t := UnitThere(c, i, e);
      var rest := Unescape(c, k, e).value;
      assert s == t + rest;
      assert s[..|t|] == t && s[|t|..] == rest;
      if k < |c| { ReadStands(c, k, e, rest); }
    }
  }

  // ---- The closing quote ----

  lemma {:induction false} Plain(c: char)
    requires DigitOf(c) >= 0
    ensures c != QUOTE && c != BACKSLASH
  {
  }

  lemma {:induction false} ClosingNumber(c: string, k: nat)
    requires k + 4 <= |c| && Number(c, k, true).Some?
    ensures Closing(c, k) == Closing(c, k + 4)
  {
    DigitsSame(c, k, DigitOf(c[k]), DigitOf(c[k + 1]), DigitOf(c[k + 2]), DigitOf(c[k + 3]));
    Plain(c[k]);
    Plain(c[k + 1]);
    Plain(c[k + 2]);
    Plain(c[k + 3]);
    assert Closing(c, k) == Closing(c, k + 1);
    assert Closing(c, k + 1) == Closing(c, k + 2);
    assert Closing(c, k + 2) == Closing(c, k + 3);
  }

  lemma {:induction false} ClosingUnit(c: string, i: nat, k: nat, e: nat, t: string)
    requires i < e < |c| && Unit(c, i, k, e, t, true)
    ensures Closing(c, i) == Closing(c, k)
  {
    if c[i] == '\\' && c[i + 1] == 'u' {
      ClosingNumber(c, i + 2);
      if k == i + 12 {
        assert Closing(c, i + 6) == Closing(c, i + 8);
        ClosingNumber(c, i + 8);
      }
    }
  }

  lemma {:induction false} ClosingThere(c: string, i: nat, e: nat, s: string)
    requires e < |c| && c[e] == QUOTE && Stands(c, i, e, s, true)
    ensures Closing(c, i) == Some(e)
    decreases |c| - i
  {
    if i < e {
      var k, t :| Unit(c, i, k, e, t, true) && |t| <= |s| && s[..|t|] == t && Stands(c, k, e, s[|t|..], true);
      UnitRead(c, i, k, e, t, true);
      ClosingUnit(c, i, k, e, t);
      ClosingThere(c, k, e, s[|t|..]);
    }
  }

  // ---- Whole strings ----

  /** Every string of the grammar is read as what it stands for, up to its first NUL, and to its end. */
  lemma {:induction false} QuotedRead(c: string, i: nat, s: string, e: nat)
    requires Quoted(c, i, s, e)
    ensures ParseString(c, i) == Some(Parsed(Cut(s), e))
  {
    ParsedAs(c, i, s, e - 1) by {
      ClosingThere(c, i + 1, e - 1, s);
      StandsRead(c, i + 1, e - 1, s, true);
    }
  }

  lemma {:induction false} SpeltRead(c: string, i: nat, s: string, e: nat)
    requires Spelt(c, i, s, e)
    ensures ParseString(c, i) == Some(Parsed(s, e))
  {
    var full :| Stands(c, i + 1, e - 1, full, false) && s == Cut(full);
    ParsedAs(c, i, full, e - 1) by { StandsRead(c, i + 1, e - 1, full, false); }
  }

  lemma {:induction false} ParsedAs(c: string, i: nat, full: string, end: nat)
    requires i < end < |c| && c[i] == QUOTE && Closing(c, i + 1) == Some(end) && Unescape(c, i + 1, end) == Some(full)
    ensures ParseString(c, i) == Some(Parsed(Cut(full), end + 1))
  {
  }

  lemma {:induction false} ReadSpelt(c: string, i: nat, s: string, e: nat)
    requires i < |c| && ParseString(c, i) == Some(Parsed(s, e))
    ensures Spelt(c, i, s, e)
  {
    var end := Closing(c, i + 1).value;
    ReadStands(c, i + 1, end, Unescape(c, i + 1, end).value);
  }

  /** A string is read exactly when it is spelt there. */
  lemma {:induction false} SpeltIff(c: string, i: nat, s: string, e: nat)
    requires i < |c|
    ensures ParseString(c, i) == Some(Parsed(s, e)) <==> Spelt(c, i, s, e)
  {
    if Spelt(c, i, s, e) { SpeltRead(c, i, s, e); }
    if ParseString(c, i) == Some(Parsed(s, e)) { ReadSpelt(c, i, s, e); }
  }

  lemma {:induction false} QuotedSpelt(c: string, i: nat, s: string, e: nat)
    requires Quoted(c, i, s, e)
    ensures Spelt(c, i, Cut(s), e)
  {
    QuotedRead(c, i, s, e);
    ReadSpelt(c, i, Cut(s), e);
  }
}

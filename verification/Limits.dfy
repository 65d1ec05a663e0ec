/** The limits and the special characters of names, values and request keys, in numbers. */
module Limits {
  import opened Basics
  import opened JsonValue
  import opened ConfigModel
  import opened RequestPath

  // ---- Names and values ----

  /** The characters that no name may hold. */
  predicate Forbidden(c: char) {
    || c == '.' || c == '[' || c == ']' || c == '$' || c == '?'
    || c == ',' || c == '%' || c == '#' || c == '+' || c == '='
  }

  lemma {:induction false} ForbiddenIff(c: char)
    ensures c in INVALID <==> Forbidden(c)
  {
    assert INVALID[0] == '.' && INVALID[1] == '[' && INVALID[2] == ']' && INVALID[3] == '$' && INVALID[4] == '?';
    assert INVALID[5] == ',' && INVALID[6] == '%' && INVALID[7] == '#' && INVALID[8] == '+' && INVALID[9] == '=';
  }

  /** A name is kept whole exactly when it has 1 to 191 characters and none of the forbidden ones. */
  lemma {:induction false} NameOkIff(s: string)
    ensures NameOk(s) <==> 1 <= |s| <= 191 && forall i :: 0 <= i < |s| ==> !Forbidden(s[i])
  {
    forall i | 0 <= i < |s| ensures s[i] in INVALID <==> Forbidden(s[i]) { ForbiddenIff(s[i]); }
  }

  /** Too long a name is shown by its first 24 characters and a mark, one with a forbidden character not at all. */
  lemma {:induction false} NameShown(s: string)
    ensures NameOk(s) ==> SavedName(s) == Some(s)
    ensures 192 <= |s| && (forall i :: 0 <= i < 191 ==> !Forbidden(s[i]))
      ==> SavedName(s) == Some(s[..24] + "(jessldr:out-of-limit)")
    ensures SavedName(s) == None <==> s == "" || exists i :: 0 <= i < |s| && i < 191 && Forbidden(s[i])
  {
    var kept := if |s| >= 192 then s[..191] else s;
    forall i | 0 <= i < |kept| ensures kept[i] in INVALID <==> Forbidden(kept[i]) { ForbiddenIff(kept[i]); }
    assert forall i :: 0 <= i < |kept| ==> kept[i] == s[i];
  }

  /** A text of 256 characters or more is cut and marked, as a field after 24 and as an array item after 64. */
  lemma {:induction false} ValueShown(name: string, no: nat, s: string)
    requires NameOk(name)
    ensures |s| <= 255 ==> LoadNode(name, Str(s)) == Some(Field(name, s)) && LoadItem(no, Str(s)) == ItemField(no, s)
    ensures |s| >= 256 ==> LoadNode(name, Str(s)) == Some(Field(name, s[..24] + "(jessldr:out-of-limit)"))
    ensures |s| >= 256 ==> LoadItem(no, Str(s)) == ItemField(no, s[..64] + "(jessldr:out-of-limit)")
  {
    NameShown(name);
  }

  // ---- Request keys ----

  /** The numbers that stand for the four symbols: above every index by the code of the character. */
  predicate Symbol(c: char, index: int) {
    c in {'$', '?', '+', '*'} && index == 0x7FFFFF00 + c as int
  }

  lemma {:induction false} SymbolRead(c: char, index: int)
    requires Symbol(c, index)
    ensures ReadIndex([c]) == Some(index)
  {
    if c == '$' {
      assert [c] == "$";
    } else if c == '?' {
      assert [c] == "?";
    } else if c == '+' {
      assert [c] == "+";
    } else {
      assert [c] == "*";
    }
  }

  /** An index of a segment: none, a number up to 255, or a symbol. */
  predicate IndexMeant(index: int) {
    index == -1 || 0 <= index <= 255 || exists c :: Symbol(c, index)
  }

  lemma {:induction false} IndexOkIff(index: int)
    ensures IndexOk(index) <==> IndexMeant(index)
  {
    assert Symbol('$', 0x7FFFFF24) && Symbol('?', 0x7FFFFF3F) && Symbol('+', 0x7FFFFF2B) && Symbol('*', 0x7FFFFF2A);
  }

  /**
   The kind of segment i of n: directory, archive, then scopes and arrays, and a field as the last of three
   or more.
   */
  function KindOf(i: nat, n: nat, index: int): Kind {
    if i == 0 then DIR else if i == 1 then ARCHIVE
    else if index >= 0 then ARRAY
    else if i == n - 1 then FIELD else LOGIC
  }

  predicate SegmentMeant(s: Seg, i: nat, n: nat) {
    && s.name != "" && (forall k :: 0 <= k < |s.name| ==> s.name[k] != '.' && s.name[k] != '[' && s.name[k] != ']')
    && IndexMeant(s.index) && |SegText(s)| <= 191 && (i < 2 ==> s.index == -1)
    && (i < n - 1 ==> !Symbol('*', s.index)) && s.kind == KindOf(i, n, s.index)
  }

  lemma {:induction false} SegmentIff(p: seq<Seg>, i: nat)
    requires i < |p|
    ensures SegmentMeant(p[i], i, |p|) <==>
      SegmentOk(Unfinish(p)[i], i) && (i < |p| - 1 ==> Unfinish(p)[i].index != SYM_ENTIRE)
      && p[i] == Finish(Unfinish(p))[i]
  {
    IndexOkIff(p[i].index);
    assert SegText(Unfinish(p)[i]) == SegText(p[i]);
  }

  /** A path is well formed exactly when it has 1 to 10 such segments. */
  lemma {:induction false} WellFormedIff(p: seq<Seg>)
    ensures WellFormed(p) <==> 1 <= |p| <= 10 && forall i :: 0 <= i < |p| ==> SegmentMeant(p[i], i, |p|)
  {
    forall i | 0 <= i < |p|
      ensures SegmentMeant(p[i], i, |p|) <==>
        SegmentOk(Unfinish(p)[i], i) && (i < |p| - 1 ==> Unfinish(p)[i].index != SYM_ENTIRE)
        && p[i] == Finish(Unfinish(p))[i]
    {
      SegmentIff(p, i);
    }
  }
}

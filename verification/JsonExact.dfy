/** The parser reads exactly the texts that denote a value nested within its limit, and nothing else. */
module JsonExact {
  import opened Basics
  import opened JsonValue
  import opened JsonText
  import opened JsonGrammar
  import opened JsonRoundTrip

  // ---- What the parser finds is what the text denotes ----

  lemma {:induction false} KeywordSound(c: string, i: nat)
    requires Content(c) && Keyword(c, i).Some?
    ensures var p := Keyword(c, i).value;
      Denotes(c, i, p.item, p.next) && (p.item.Null? || p.item.False? || p.item.True?)
  {
    var p := Keyword(c, i).value;
    var word := if p.item.Null? then "null" else if p.item.False? then "false" else "true";
    AtIndex(c, i, word, |word| - 1);
  }

  /** A value that is found is denoted there, and is nested within the limit. */
  lemma {:induction false} ValueSound(c: string, i: nat, j: Json, e: nat, depth: nat)
    requires Content(c) && i < |c| && Value(c, i, depth) == Some(Parsed(j, e))
    ensures Denotes(c, i, j, e) && Within(j, NESTING_LIMIT - depth)
    decreases |c| - i, 4
  {
    if c[i] == QUOTE {
      StringSound(c, i, j, e);
    } else if c[i] == '[' {
      ArraySound(c, i, j, e, depth);
    } else if c[i] == '{' {
      ObjectSound(c, i, j, e, depth);
    } else {
      KeywordSound(c, i);
    }
  }

  lemma {:induction false} StringSound(c: string, i: nat, j: Json, e: nat)
    requires Content(c) && i < |c| && StringValue(c, i) == Some(Parsed(j, e))
    ensures j.Str? && Denotes(c, i, j, e)
  {
    var s := ParseString(c, i).value.item;
    ReadSpelt(c, i, s, e);
    assert c[e - 1] == QUOTE;
  }

  lemma {:induction false} ArraySound(c: string, i: nat, j: Json, e: nat, depth: nat)
    requires Content(c) && i < |c| && c[i] == '[' && ArrayValue(c, i, depth) == Some(Parsed(j, e))
    ensures j.Arr? && Denotes(c, i, j, e) && Within(j, NESTING_LIMIT - depth)
    decreases |c| - i, 3
  {
    if c[Skip(c, i + 1)] != ']' { ElementsSound(c, i + 1, j.items, e, depth + 1); }
  }

  lemma {:induction false} ElementsSound(c: string, i: nat, items: seq<Json>, e: nat, depth: nat)
    requires Content(c) && i <= |c| && Elements(c, i, depth) == Some(Parsed(items, e))
    ensures items != [] && i < e < |c| && DenotesItems(c, i, items, e) && ItemsWithin(items, NESTING_LIMIT - depth)
    decreases |c| - i, 6
  {
    var p := Value(c, Skip(c, i), depth).value;
    ValueSound(c, Skip(c, i), p.item, p.next, depth);
    MoreElementsSound(c, p, items, e, depth);
  }

  lemma {:induction false} MoreElementsSound(c: string, p: Parsed<Json>, items: seq<Json>, e: nat, depth: nat)
    requires Content(c) && p.next <= |c| && MoreElements(c, p, depth) == Some(Parsed(items, e))
    requires Within(p.item, NESTING_LIMIT - depth)
    ensures items != [] && items[0] == p.item && p.next < e < |c| && AfterItem(c, p.next, items, e)
    ensures ItemsWithin(items, NESTING_LIMIT - depth)
    decreases |c| - p.next, 7
  {
    var z := Skip(c, p.next);
    if c[z] == ',' {
      var rest := Elements(c, z + 1, depth).value.item;
      ElementsSound(c, z + 1, rest, e, depth);
      assert items == [p.item] + rest && items[1..] == rest;
    }
  }

  lemma {:induction false} ObjectSound(c: string, i: nat, j: Json, e: nat, depth: nat)
    requires Content(c) && i < |c| && c[i] == '{' && ObjectValue(c, i, depth) == Some(Parsed(j, e))
    ensures j.Obj? && Denotes(c, i, j, e) && Within(j, NESTING_LIMIT - depth)
    decreases |c| - i, 3
  {
    if c[Skip(c, i + 1)] != '}' { MembersSound(c, i + 1, j.members, e, depth + 1); }
  }

  lemma {:induction false} MembersSound(c: string, i: nat, ms: seq<Member>, e: nat, depth: nat)
    requires Content(c) && i <= |c| && Members(c, i, depth) == Some(Parsed(ms, e))
    ensures ms != [] && i < e < |c| && DenotesMembers(c, i, ms, e) && MembersWithin(ms, NESTING_LIMIT - depth)
    decreases |c| - i, 6
  {
    var p := OneMember(c, i, depth).value;
    OneMemberSound(c, i, p.item, p.next, depth);
    MoreMembersSound(c, p, ms, e, depth);
  }

  lemma {:induction false} OneMemberSound(c: string, i: nat, m: Member, e: nat, depth: nat)
    requires Content(c) && i < |c| && OneMember(c, i, depth) == Some(Parsed(m, e))
    ensures DenotesMember(c, i, m, e) && Within(m.value, NESTING_LIMIT - depth)
    decreases |c| - i, 5
  {
    var name := ParseString(c, Skip(c, i)).value;
    var k := Skip(c, name.next);
    ValueSound(c, Skip(c, k + 1), m.value, e, depth);
    NameSound(c, i, m, e, name.next) by { ReadSpelt(c, Skip(c, i), name.item, name.next); }
  }

  lemma {:induction false} NameSound(c: string, i: nat, m: Member, e: nat, q: nat)
    requires Content(c) && i < |c| && Spelt(c, Skip(c, i), m.name, q) && c[Skip(c, q)] == ':'
    requires Denotes(c, Skip(c, Skip(c, q) + 1), m.value, e)
    ensures DenotesMember(c, i, m, e)
  {
    assert c[q - 1] == QUOTE;
    assert AfterName(c, q, m, e);
  }

  lemma {:induction false} MoreMembersSound(c: string, p: Parsed<Member>, ms: seq<Member>, e: nat, depth: nat)
    requires Content(c) && p.next <= |c| && MoreMembers(c, p, depth) == Some(Parsed(ms, e))
    requires Within(p.item.value, NESTING_LIMIT - depth)
    ensures ms != [] && ms[0] == p.item && p.next < e < |c| && AfterMember(c, p.next, ms, e)
    ensures MembersWithin(ms, NESTING_LIMIT - depth)
    decreases |c| - p.next, 7
  {
    var z := Skip(c, p.next);
    if c[z] == ',' {
      var rest := Members(c, z + 1, depth).value.item;
      MembersSound(c, z + 1, rest, e, depth);
      assert ms == [p.item] + rest && ms[1..] == rest;
    }
  }

  /** A value is found, up to e, exactly when the text denotes it there and it is nested within the limit. */
  lemma {:induction false} ValueIff(c: string, i: nat, j: Json, e: nat, depth: nat)
    requires Content(c) && i < |c|
    ensures Value(c, i, depth) == Some(Parsed(j, e)) <==> Denotes(c, i, j, e) && Within(j, NESTING_LIMIT - depth)
  {
    if Value(c, i, depth) == Some(Parsed(j, e)) { ValueSound(c, i, j, e, depth); }
    if Denotes(c, i, j, e) && Within(j, NESTING_LIMIT - depth) { ValueBack(c, i, j, e, depth); }
  }

  /** A text denotes one value only, and ends at one place. */
  lemma {:induction false} OneMeaning(c: string, i: nat, j1: Json, e1: nat, j2: Json, e2: nat)
    requires Content(c) && Denotes(c, i, j1, e1) && Within(j1, NESTING_LIMIT)
    requires Denotes(c, i, j2, e2)
    ensures j1 == j2 && e1 == e2
  {
    ValueBack(c, i, j1, e1, 0);
    if Within(j2, NESTING_LIMIT) { ValueBack(c, i, j2, e2, 0); } else { ValueDeep(c, i, j2, e2, 0); }
  }

  /** Where the value of a whole text begins: after a byte order mark and blanks. */
  function Start(text: string): nat {
    var c := text + [NUL];
    Skip(c, if |text| >= 4 && At(c, 0, BOM) then 3 else 0)
  }

  /** The text denotes j from its start; what follows the value does not matter. */
  ghost predicate Means(text: string, j: Json) {
    exists e: nat :: Denotes(text + [NUL], Start(text), j, e)
  }

  /** A text is accepted, and gives j, exactly when it denotes j nested at most 1000 deep. */
  lemma {:induction false} ParseIff(text: string, j: Json)
    ensures Parse(text) == Some(j) <==> Means(text, j) && Within(j, 1000)
  {
    var c, i := text + [NUL], Start(text);
    ParseStart(text, c, i);
    if Parse(text) == Some(j) {
      ValueSound(c, i, j, Value(c, i, 0).value.next, 0);
    }
    if Means(text, j) && Within(j, 1000) {
      var e: nat :| Denotes(c, i, j, e);
      ValueBack(c, i, j, e, 0);
    }
  }

  lemma {:induction false} ParseStart(text: string, c: string, i: nat)
    requires c == text + [NUL] && i == Start(text)
    ensures i < |c| && Parse(text) == match Value(c, i, 0) case None => None case Some(p) => Some(p.item)
  {
  }

}

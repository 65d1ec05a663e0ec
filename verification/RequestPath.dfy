/** Request keys: `dir.archive.scope.array[3].field` and back. */
module RequestPath {
  import opened Basics
  import opened ConfigModel
  import opened Decimals

  const MAX_DEPTH: int := 10

  // ---- Reading an index ----

  predicate IsDigit(c: char) { '0' <= c <= '9' }

  predicate AllDigits(s: string) {
    forall i :: 0 <= i < |s| ==> IsDigit(s[i])
  }

  /** The number a string of digits stands for. */
  function NumberOf(s: string): (n: nat)
    requires AllDigits(s)
  {
    if s == "" then 0 else 10 * NumberOf(s[..|s| - 1]) + (s[|s| - 1] as int - '0' as int)
  }

  const LONG_MAX: int := 0x7FFF_FFFF_FFFF_FFFF

  /** `atoi`: the number, held at the largest `long`, cut to 32 bits with sign. */
  function Atoi(s: string): int
    requires AllDigits(s)
  {
    var n := NumberOf(s);
    var low := (if n > LONG_MAX then LONG_MAX else n) % 0x1_0000_0000;
    if low >= 0x8000_0000 then low - 0x1_0000_0000 else low
  }

  /** The index between the brackets: one of four symbols, or a number below 256. */
  function ReadIndex(s: string): (r: Option<int>)
    requires s != ""
    ensures r.Some? ==> 0 <= r.value < MAX_ITEMS || r.value in {SYM_LAST, SYM_SIZE, SYM_ADD, SYM_ENTIRE}
  {
    if s == "$" then Some(SYM_LAST)
    else if s == "?" then Some(SYM_SIZE)
    else if s == "+" then Some(SYM_ADD)
    else if s == "*" then Some(SYM_ENTIRE)
    else if !AllDigits(s) then None
    else if 0 <= Atoi(s) < MAX_ITEMS then Some(Atoi(s))
    else None
  }

  // ---- Reading a segment ----

  /** The first occurrence of a character, or -1. */
  function IndexOf(s: string, c: char): (i: int)
    ensures -1 <= i < |s|
    ensures i >= 0 ==> s[i] == c && forall j :: 0 <= j < i ==> s[j] != c
    ensures i == -1 ==> forall j :: 0 <= j < |s| ==> s[j] != c
  {
    if s == "" then -1 else if s[0] == c then 0 else var i := IndexOf(s[1..], c); if i < 0 then -1 else i + 1
  }

  predicate Twice(s: string, c: char) {
    exists i, j :: 0 <= i < j < |s| && s[i] == c && s[j] == c
  }

  datatype Syntax = Wrong | Plain | Bracketed(left: int, right: int)

  /** `rt_is_array_syntax`: one pair of brackets, at the end, around something and behind something. */
  function ArraySyntax(key: string): (r: Syntax) {
    var left, right := IndexOf(key, '['), IndexOf(key, ']');
    if Twice(key, '[') || Twice(key, ']') then Wrong
    else if left < 0 && right < 0 then Plain
    else if left < 0 || right < 0 || right < left || left == 0 || right != |key| - 1 || right == left + 1 then Wrong
    else Bracketed(left, right)
  }

  datatype Named = Named(name: string, index: int)

  /** `rt_standardize_segment`. */
  function Standardize(key: string): Option<Named> {
    match ArraySyntax(key)
    case Wrong => None
    case Plain => Some(Named(key, -1))
    case Bracketed(left, right) =>
      match ReadIndex(key[left + 1..right])
      case None => None
      case Some(index) => Some(Named(key[..left], index))
  }

  /** `rt_analyze_segment`: the first two segments are never arrays. */
  function Analyze(key: string, depth: nat): Option<Seg> {
    match Standardize(key)
    case None => None
    case Some(n) =>
      if depth < 2 then
        if n.index < 0 then Some(Seg(n.name, n.index, if depth == 0 then DIR else ARCHIVE)) else None
      else Some(Seg(n.name, n.index, if n.index < 0 then LOGIC else ARRAY))
  }

  // ---- Reading a key ----

  /** One more segment, if there is room for it and the one before it is not `[*]`. */
  function Next(text: string, done: seq<Seg>): (r: Option<seq<Seg>>)
    ensures r.Some? ==> |r.value| == |done| + 1
  {
    if |done| >= MAX_DEPTH || |text| >= MAX_NAME then None else
    match Analyze(text, |done|)
    case None => None
    case Some(s) =>
      if |done| > 0 && done[|done| - 1].kind == ARRAY && done[|done| - 1].index == SYM_ENTIRE then None
      else Some(done + [s])
  }

  /** The segments of the rest of a key, after those already done. */
  function Walk(key: string, done: seq<Seg>): (r: Option<seq<Seg>>)
    decreases |key|
  {
    var dot := IndexOf(key, '.');
    if dot < 0 then (if key == "" then Some(done) else Next(key, done))
    else if dot == 0 || dot == |key| - 1 then
      None
    else match Next(key[..dot], done)
      case None => None
      case Some(more) => Walk(key[dot + 1..], more)
  }

  /** The last scope of a path of three or more is a field. */
  function Finish(p: seq<Seg>): (r: seq<Seg>)
    ensures |r| == |p|
  {
    if |p| >= 3 && p[|p| - 1].kind == LOGIC then p[|p| - 1 := p[|p| - 1].(kind := FIELD)] else p
  }

  /** `rt_separate_segment`. */
  function Separate(key: string): Option<seq<Seg>> {
    match Walk(key, [])
    case None => None
    case Some(p) => Some(Finish(p))
  }

  // ---- Writing a key ----

  function IndexText(index: int): string
    requires index >= 0
  {
    if index == SYM_LAST then "$"
    else if index == SYM_SIZE then "?"
    else if index == SYM_ADD then "+"
    else if index == SYM_ENTIRE then "*"
    else Decimal(index)
  }

  function SegText(s: Seg): string {
    if s.index < 0 then s.name else s.name + "[" + IndexText(s.index) + "]"
  }

  function Render(p: seq<Seg>): string {
    if p == [] then "" else if |p| == 1 then SegText(p[0]) else SegText(p[0]) + "." + Render(p[1..])
  }

  // ---- The grammar ----

  predicate PlainName(s: string) {
    s != "" && forall i :: 0 <= i < |s| ==> s[i] != '.' && s[i] != '[' && s[i] != ']'
  }

  predicate IndexOk(index: int) {
    index == -1 || 0 <= index < MAX_ITEMS || index in {SYM_LAST, SYM_SIZE, SYM_ADD, SYM_ENTIRE}
  }

  /** The kind a segment has by its place and its index; the last of three or more is a field. */
  function KindAt(i: nat, index: int): Kind {
    if i == 0 then DIR else if i == 1 then ARCHIVE else if index < 0 then LOGIC else ARRAY
  }

  predicate SegmentOk(s: Seg, i: nat) {
    && PlainName(s.name) && IndexOk(s.index) && |SegText(s)| < MAX_NAME
    && (i < 2 ==> s.index == -1) && s.kind == KindAt(i, s.index)
  }

  predicate Segments(p: seq<Seg>) {
    && |p| <= MAX_DEPTH
    && (forall i :: 0 <= i < |p| ==> SegmentOk(p[i], i))
    && (forall i :: 0 <= i < |p| - 1 ==> p[i].index != SYM_ENTIRE)
  }

  /** The kinds before the last scope is made a field. */
  function Unfinish(p: seq<Seg>): (r: seq<Seg>)
    ensures |r| == |p|
  {
    if |p| >= 3 && p[|p| - 1].kind == FIELD then p[|p| - 1 := p[|p| - 1].(kind := LOGIC)] else p
  }

  /** One to ten plain names; plain indices or the four symbols, on neither of the first two; `*` only last. */
  predicate WellFormed(p: seq<Seg>) {
    p != [] && Segments(Unfinish(p)) && p == Finish(Unfinish(p))
  }

  // ---- Indices ----

  lemma {:induction false} DecimalDigits(n: nat)
    ensures Decimal(n) != "" && AllDigits(Decimal(n)) && NumberOf(Decimal(n)) == n
    decreases n
  {
    if n < 10 {
      assert Decimal(n)[..0] == "";
    } else {
      DecimalDigits(n / 10);
      var d := Decimal(n);
      assert d[..|d| - 1] == Decimal(n / 10);
    }
  }

  lemma {:induction false} DecimalLength(n: nat)
    requires n < 256
    ensures |Decimal(n)| == if n < 10 then 1 else if n < 100 then 2 else 3
  {
    if n >= 10 {
      assert |Decimal(n)| == |Decimal(n / 10)| + 1;
      if n >= 100 { assert |Decimal(n / 10)| == |Decimal(n / 10 / 10)| + 1; }
    }
  }

  lemma {:induction false} IndexBack(index: int)
    requires IndexOk(index) && index >= 0
    ensures var t := IndexText(index); t != "" && ReadIndex(t) == Some(index)
    ensures forall i :: 0 <= i < |IndexText(index)| ==> IndexText(index)[i] !in {'.', '[', ']'}
  {
    if index < MAX_ITEMS {
      DecimalDigits(index);
      var t := Decimal(index);
      assert IsDigit(t[0]);
    }
  }

  lemma {:induction false} IndexShorter(s: string)
    requires s != "" && ReadIndex(s).Some?
    ensures |IndexText(ReadIndex(s).value)| <= |s|
  {
    var n := ReadIndex(s).value;
    if n < MAX_ITEMS {
      DecimalLength(n);
      if |s| == 1 {
        assert s[..0] == "" && IsDigit(s[0]);
        assert NumberOf(s) == 10 * NumberOf(s[..0]) + (s[0] as int - '0' as int);
      } else if |s| == 2 {
        assert s[..1][..0] == "" && IsDigit(s[0]) && IsDigit(s[1]) && s[..1][0] == s[0];
        assert NumberOf(s) == 10 * NumberOf(s[..1]) + (s[1] as int - '0' as int);
      }
    }
  }

  /**
   A string of digits is read as an index exactly when its number fits a `long` and its low 32 bits are below
   256; and the index read is the number written exactly when that number is below 256.
   */
  lemma {:induction false} IndexAsWritten(s: string)
    requires s != "" && AllDigits(s)
    ensures ReadIndex(s).Some? <==> NumberOf(s) <= LONG_MAX && NumberOf(s) % 0x1_0000_0000 < MAX_ITEMS
    ensures ReadIndex(s) == Some(NumberOf(s)) <==> NumberOf(s) < MAX_ITEMS
  {
    assert IsDigit(s[0]);
  }

  // ---- Segments ----

  lemma {:induction false} PlainSyntax(name: string)
    requires PlainName(name)
    ensures ArraySyntax(name) == Plain
  {
  }

  lemma {:induction false} BracketSyntax(name: string, t: string)
    requires PlainName(name) && t != "" && forall i :: 0 <= i < |t| ==> t[i] != '[' && t[i] != ']'
    ensures var key := name + "[" + t + "]";
      ArraySyntax(key) == Bracketed(|name|, |key| - 1) && key[|name| + 1..|key| - 1] == t && key[..|name|] == name
  {
    var key := name + "[" + t + "]";
    var n := |name|;
    assert key[n] == '[' && key[|key| - 1] == ']';
    assert forall i :: 0 <= i < n ==> key[i] == name[i];
    assert forall i :: n < i < |key| - 1 ==> key[i] == t[i - n - 1];
  }

  /** A written segment is read back. */
  lemma {:induction false} SegmentBack(s: Seg, i: nat)
    requires SegmentOk(s, i)
    ensures Analyze(SegText(s), i) == Some(s)
  {
    if s.index < 0 {
      PlainSyntax(s.name);
    } else {
      IndexBack(s.index);
      BracketSyntax(s.name, IndexText(s.index));
    }
  }

  lemma {:induction false} SegTextPlain(s: Seg, i: nat)
    requires SegmentOk(s, i)
    ensures SegText(s) != "" && forall j :: 0 <= j < |SegText(s)| ==> SegText(s)[j] != '.'
  {
    if s.index >= 0 { IndexBack(s.index); }
  }

  /** A segment that is read obeys the grammar. */
  lemma {:induction false} SegmentRead(text: string, depth: nat)
    requires text != "" && |text| < MAX_NAME && (forall i :: 0 <= i < |text| ==> text[i] != '.')
    requires Analyze(text, depth).Some?
    ensures SegmentOk(Analyze(text, depth).value, depth)
  {
    match ArraySyntax(text)
    case Plain =>
    case Bracketed(left, right) =>
      IndexShorter(text[left + 1..right]);
      assert forall i :: 0 <= i < left ==> text[..left][i] == text[i];
      assert forall i :: 0 <= i < left ==> text[i] != ']';
  }

  // ---- Keys ----

  lemma {:induction false} FirstDot(a: string, b: string)
    requires forall j :: 0 <= j < |a| ==> a[j] != '.'
    ensures IndexOf(a + "." + b, '.') == |a|
  {
    var s := a + "." + b;
    assert s[|a|] == '.';
    assert forall j :: 0 <= j < |a| ==> s[j] == a[j];
  }

  lemma {:induction false} NextBack(p: seq<Seg>, i: nat)
    requires Segments(p) && i < |p|
    ensures Next(SegText(p[i]), p[..i]) == Some(p[..i + 1])
  {
    SegmentBack(p[i], i);
    assert p[..i] + [p[i]] == p[..i + 1];
    if i > 0 { assert p[..i][i - 1] == p[i - 1]; }
  }

  lemma {:induction false} WalkStep(t: string, more: string, done: seq<Seg>, next: seq<Seg>)
    requires t != "" && more != "" && (forall j :: 0 <= j < |t| ==> t[j] != '.') && Next(t, done) == Some(next)
    ensures Walk(t + "." + more, done) == Walk(more, next)
  {
    FirstDot(t, more);
    var key := t + "." + more;
    assert key[..|t|] == t && key[|t| + 1..] == more;
  }

  lemma {:induction false} WalkBack(p: seq<Seg>, i: nat)
    requires Segments(p) && i < |p|
    ensures Render(p[i..]) != "" && Walk(Render(p[i..]), p[..i]) == Some(p)
    decreases |p| - i
  {
    var rest, t := p[i..], SegText(p[i]);
    SegTextPlain(p[i], i);
    NextBack(p, i);
    if i == |p| - 1 {
      assert Render(rest) == t && p[..i + 1] == p;
    } else {
      assert rest[1..] == p[i + 1..];
      WalkBack(p, i + 1);
      WalkStep(t, Render(p[i + 1..]), p[..i], p[..i + 1]);
    }
  }

  lemma {:induction false} NextOk(text: string, done: seq<Seg>)
    requires Segments(done) && text != "" && (forall i :: 0 <= i < |text| ==> text[i] != '.') && Next(text, done).Some?
    ensures Segments(Next(text, done).value)
  {
    SegmentRead(text, |done|);
    var s := Analyze(text, |done|).value;
    var r := done + [s];
    forall i | 0 <= i < |r| - 1 ensures r[i].index != SYM_ENTIRE {
      assert SegmentOk(done[i], i);
    }
  }

  lemma {:induction false} WalkOk(key: string, done: seq<Seg>)
    requires Segments(done) && Walk(key, done).Some?
    ensures Segments(Walk(key, done).value) && |Walk(key, done).value| >= |done| + if key == "" then 0 else 1
    decreases |key|
  {
    var dot := IndexOf(key, '.');
    if dot < 0 {
      if key != "" { NextOk(key, done); }
    } else {
      NextOk(key[..dot], done);
      var more, rest := Next(key[..dot], done).value, key[dot + 1..];
      assert Walk(key, done) == Walk(rest, more);
      WalkOk(rest, more);
    }
  }

  lemma {:induction false} FinishTwice(p: seq<Seg>)
    requires Segments(p)
    ensures Unfinish(Finish(p)) == p
  {
    if p != [] { assert SegmentOk(p[|p| - 1], |p| - 1); }
  }

  /** Writing a path and reading it back gives the same names, indices and kinds. */
  lemma {:induction false} PathBack(p: seq<Seg>)
    requires WellFormed(p)
    ensures Separate(Render(p)) == Some(p)
  {
    var q := Unfinish(p);
    WalkBack(q, 0);
    assert q[0..] == q && q[..0] == [];
    SameText(p, q);
  }

  lemma {:induction false} SameText(p: seq<Seg>, q: seq<Seg>)
    requires |p| == |q| && forall i :: 0 <= i < |p| ==> p[i].name == q[i].name && p[i].index == q[i].index
    ensures Render(p) == Render(q)
    decreases |p|
  {
    if |p| > 1 { SameText(p[1..], q[1..]); }
  }

  // ---- Which number an index names ----

  /** The number between a segment's brackets, if there is one. */
  function Written(text: string): Option<nat> {
    match ArraySyntax(text)
    case Bracketed(left, right) =>
      var t := text[left + 1..right];
      if AllDigits(t) then Some(NumberOf(t)) else None
    case _ => None
  }

  /** The texts between the dots. */
  function Pieces(key: string): (r: seq<string>)
    ensures |r| > 0
    decreases |key|
  {
    var dot := IndexOf(key, '.');
    if dot < 0 then [key] else [key[..dot]] + Pieces(key[dot + 1..])
  }

  /**
   A numbered segment below the archive is accepted exactly when its number fits and its low 32 bits are
   below 256.
   */
  lemma {:induction false} NumberedSegment(text: string, depth: nat)
    requires Written(text).Some? && depth >= 2
    ensures Analyze(text, depth).Some? <==>
      Written(text).value <= LONG_MAX
      && Written(text).value % 0x1_0000_0000 < MAX_ITEMS
    ensures Analyze(text, depth).Some? ==>
      (Analyze(text, depth).value.index == Written(text).value <==> Written(text).value < MAX_ITEMS)
  {
    var b := ArraySyntax(text);
    IndexAsWritten(text[b.left + 1..b.right]);
  }

  lemma {:induction false} NextAdds(text: string, done: seq<Seg>)
    requires Next(text, done).Some?
    ensures var more := Next(text, done).value;
      more[..|done|] == done && Analyze(text, |done|) == Some(more[|done|])
  {
  }

  /** One turn of the walk over a key with a dot. */
  lemma {:induction false} WalkOn(key: string, done: seq<Seg>, more: seq<Seg>, rest: string)
    requires IndexOf(key, '.') >= 0 && Walk(key, done).Some?
    requires rest == key[IndexOf(key, '.') + 1..] && Next(key[..IndexOf(key, '.')], done) == Some(more)
    ensures rest != "" && Walk(key, done) == Walk(rest, more)
  {
  }

  lemma {:induction false} WalkShape(key: string, done: seq<Seg>)
    requires key != "" && Walk(key, done).Some?
    ensures var p := Walk(key, done).value; |p| == |done| + |Pieces(key)| && p[..|done|] == done
    decreases |key|
  {
    var dot := IndexOf(key, '.');
    if dot < 0 {
      NextAdds(key, done);
    } else {
      var more, rest := Next(key[..dot], done).value, key[dot + 1..];
      NextAdds(key[..dot], done);
      WalkOn(key, done, more, rest);
      WalkShape(rest, more);
      StillFirst(Walk(rest, more).value, more, done);
    }
  }

  lemma {:induction false} StillFirst(p: seq<Seg>, more: seq<Seg>, done: seq<Seg>)
    requires |done| <= |more| <= |p| && p[..|more|] == more && more[..|done|] == done
    ensures p[..|done|] == done
  {
    assert p[..|done|] == p[..|more|][..|done|];
  }

  lemma {:induction false} PiecesOn(key: string, i: nat)
    requires IndexOf(key, '.') >= 0 && i < |Pieces(key)|
    ensures var dot := IndexOf(key, '.');
      |Pieces(key)| == |Pieces(key[dot + 1..])| + 1 && Pieces(key)[i] == if i == 0 then key[..dot]
      else Pieces(key[dot + 1..])[i - 1]
  {
    var dot := IndexOf(key, '.');
    Behind(key[..dot], Pieces(key[dot + 1..]), i);
  }

  lemma {:induction false} Behind(first: string, rest: seq<string>, i: nat)
    requires i <= |rest|
    ensures ([first] + rest)[i] == if i == 0 then first else rest[i - 1]
  {
  }

  lemma {:induction false} FirstPiece(key: string, done: seq<Seg>)
    requires key != "" && Walk(key, done).Some?
    ensures |Walk(key, done).value| > |done| && Analyze(Pieces(key)[0], |done|) == Some(Walk(key, done).value[|done|])
  {
    var dot := IndexOf(key, '.');
    if dot < 0 {
      NextAdds(key, done);
    } else {
      var more, rest := Next(key[..dot], done).value, key[dot + 1..];
      NextAdds(key[..dot], done);
      WalkOn(key, done, more, rest);
      WalkShape(rest, more);
      assert Walk(rest, more).value[|done|] == Walk(rest, more).value[..|more|][|done|];
    }
  }

  /** Each piece of an accepted key gives one segment. */
  lemma {:induction false} WalkPieces(key: string, done: seq<Seg>, i: nat, p: seq<Seg>, n: nat)
    requires key != "" && Walk(key, done) == Some(p) && i < |Pieces(key)| && n == |done| + i
    ensures |p| == |done| + |Pieces(key)| && Analyze(Pieces(key)[i], n) == Some(p[n])
    decreases |key|, 1
  {
    WalkShape(key, done);
    if i == 0 {
      FirstPiece(key, done);
    } else {
      LaterPiece(key, done, i, p, n);
    }
  }

  lemma {:induction false} WalkMore(key: string, done: seq<Seg>) returns (more: seq<Seg>, rest: string)
    requires Walk(key, done).Some? && |Pieces(key)| > 1
    ensures IndexOf(key, '.') >= 0 && rest == key[IndexOf(key, '.') + 1..] && rest != ""
    ensures |more| == |done| + 1 && Walk(key, done) == Walk(rest, more)
  {
    var dot := IndexOf(key, '.');
    rest := key[dot + 1..];
    more := Next(key[..dot], done).value;
  }

  lemma {:induction false} LaterPiece(key: string, done: seq<Seg>, i: nat, p: seq<Seg>, n: nat)
    requires key != "" && Walk(key, done) == Some(p) && 0 < i < |Pieces(key)| && n == |done| + i
    ensures |p| == |done| + |Pieces(key)| && Analyze(Pieces(key)[i], n) == Some(p[n])
    decreases |key|, 0
  {
    var more, rest := WalkMore(key, done);
    PiecesOn(key, i);
    WalkPieces(rest, more, i - 1, p, n);
  }

  /** The indices of an accepted key are the numbers written in it exactly when all of these are below 256. */
  lemma {:induction false} NumbersAsWritten(key: string)
    requires key != "" && Separate(key).Some?
    ensures |Separate(key).value| == |Pieces(key)|
    ensures (forall i ::
      0 <= i < |Pieces(key)| && Written(Pieces(key)[i]).Some?
      ==> Separate(key).value[i].index == Written(Pieces(key)[i]).value)
      <==> (forall i ::
        0 <= i < |Pieces(key)| && Written(Pieces(key)[i]).Some?
        ==> Written(Pieces(key)[i]).value < MAX_ITEMS)
  {
    WalkPieces(key, [], 0, Walk(key, []).value, 0);
    var p, t := Separate(key).value, Pieces(key);
    forall i | 0 <= i < |t| && Written(t[i]).Some?
      ensures p[i].index == Written(t[i]).value <==> Written(t[i]).value < MAX_ITEMS
    {
      NumberAt(key, i);
    }
  }

  lemma {:induction false} NumberAt(key: string, i: nat)
    requires key != "" && Separate(key).Some? && i < |Pieces(key)| == |Separate(key).value|
      && Written(Pieces(key)[i]).Some?
    ensures Separate(key).value[i].index == Written(Pieces(key)[i]).value <==> Written(Pieces(key)[i]).value < MAX_ITEMS
  {
    WalkPieces(key, [], i, Walk(key, []).value, i);
    var text := Pieces(key)[i];
    var b := ArraySyntax(text);
    IndexAsWritten(text[b.left + 1..b.right]);
    if i >= 2 { NumberedSegment(text, i); }
  }

  /** Every key that is accepted gives a path that obeys the grammar, and so one that its own text gives again. */
  lemma {:induction false} AcceptedKeys(key: string)
    requires key != "" && Separate(key).Some?
    ensures WellFormed(Separate(key).value) && Separate(Render(Separate(key).value)) == Separate(key)
  {
    WalkOk(key, []);
    var q := Walk(key, []).value;
    FinishTwice(q);
    PathBack(Finish(q));
  }
}

/**
 What reads and writes mean on the JSON alone, without the index: which string a path reads, how a write ends,
 and which plain index `$` stands for. The index is proved to follow.
 */
module ConfigReference {
  import opened Basics
  import opened JsonValue
  import opened Decimals
  import opened ConfigModel
  import opened ConfigUpdate
  import opened ConfigLaws
  import opened ConfigRoot

  // ---- Names ----

  /** `strcasecmp` takes two characters for one exactly when they are equal or the two cases of a Latin letter. */
  predicate SameLetter(a: char, b: char) {
    a == b || ('A' <= a <= 'Z' && b as int == a as int + 32) || ('A' <= b <= 'Z' && a as int == b as int + 32)
  }

  lemma {:induction false} SameIff(a: string, b: string)
    ensures Same(a, b) <==> |a| == |b| && forall i :: 0 <= i < |a| ==> SameLetter(a[i], b[i])
  {
    if Same(a, b) {
      forall i | 0 <= i < |a| ensures SameLetter(a[i], b[i]) {
        assert Lower(a[i]) == Fold(a)[i] == Fold(b)[i] == Lower(b[i]);
      }
    } else if |a| == |b| {
      var i :| 0 <= i < |a| && Fold(a)[i] != Fold(b)[i];
      assert Lower(a[i]) != Lower(b[i]);
    }
  }

  // ---- Reading ----

  /** The string at a path below an archive's JSON object. */
  function ReadJson(ms: seq<Member>, p: seq<Seg>): Option<string>
    requires |p| > 0
    decreases |p|, 2
  {
    var j := FindMember(ms, p[0].name);
    if j < 0 then None else ReadValue(ms[j].value, p)
  }

  function ReadValue(v: Json, p: seq<Seg>): Option<string>
    requires |p| > 0
    decreases |p|, 1
  {
    match v
    case Str(s) => if |p| == 1 && p[0].kind == FIELD then Some(Shown(s, 24)) else None
    case Obj(ms) => if |p| > 1 && p[0].kind == LOGIC then ReadJson(ms, p[1..]) else None
    case Arr(js) =>
      if p[0].kind != ARRAY || js == [] then None
      else if p[0].index == SYM_SIZE then (if |p| == 1 then Some(Decimal(|js|)) else None)
      else if p[0].index == SYM_LAST then ReadItem(js[|js| - 1], p)
      else if 0 <= p[0].index < |js| then ReadItem(js[p[0].index], p)
      else None
    case _ => None
  }

  function ReadItem(v: Json, p: seq<Seg>): Option<string>
    requires |p| > 0
    decreases |p|, 0
  {
    match v
    case Str(s) => if |p| == 1 then Some(Shown(s, 64)) else None
    case Obj(ms) => if |p| > 1 then ReadJson(ms, p[1..]) else None
    case _ => None
  }

  /** The index answers every path, plain or not, as the JSON does. */
  lemma {:induction false} SearchReads(kids: seq<Node>, ms: seq<Member>, p: seq<Seg>)
    requires Agree(kids, ms) && |p| > 0
    ensures Search(kids, p) == ReadJson(ms, p)
    decreases |p|, 2
  {
    var i := Find(kids, p[0].name);
    FindBoth(ms, p[0].name);
    AgreeAt(kids, ms);
    if i >= 0 { NodeReads(kids[i], ms[i], p); }
  }

  lemma {:induction false} NodeReads(n: Node, m: Member, p: seq<Seg>)
    requires AgreeNode(n, m) && |p| > 0
    ensures SearchNode(n, p) == ReadValue(m.value, p)
    decreases |p|, 1
  {
    match n
    case Field(_, _) =>
    case Scope(_, sub) => if |p| > 1 { SearchReads(sub, m.value.members, p[1..]); }
    case Array(_, items, size) => ItemsRead(items, size, m.value.items, p);
  }

  lemma {:induction false} ItemsRead(items: seq<Item>, size: int, js: seq<Json>, p: seq<Seg>)
    requires AgreeItems(items, size, js) && |p| > 0
    ensures SearchArray(items, size, p) == ReadValue(Arr(js), p)
    decreases |p|, 0
  {
    if js != [] && p[0].kind == ARRAY {
      var k := if p[0].index == SYM_LAST then |js| - 1 else p[0].index;
      if 0 <= k < |js| {
        assert items[k] == LoadItem(k, js[k]) && ItemLoadable(js[k]);
        if items[k].ItemScope? && |p| > 1 { SearchReads(items[k].kids, js[k].members, p[1..]); }
      }
    }
  }

  function ReadRoot(ds: seq<Dir>, p: seq<Seg>): Option<string>
    requires |p| > 0
  {
    var i := FindDir(ds, p[0].name);
    if i < 0 then None else if |p| == 1 then Some(ds[i].value) else
    var j := FindArchive(ds[i].archives, p[1].name);
    if j < 0 then None else if |p| == 2 then Some(ds[i].archives[j].path)
    else ReadJson(ds[i].archives[j].ms, p[2..])
  }

  /** From the root, every read is a read of the JSON. */
  lemma {:induction false} RootReads(ds: seq<Dir>, p: seq<Seg>)
    requires Valid(ds) && |p| > 0
    ensures SearchRoot(ds, p) == ReadRoot(ds, p)
  {
    var i := FindDir(ds, p[0].name);
    if i >= 0 && |p| > 1 {
      var j := FindArchive(ds[i].archives, p[1].name);
      if j >= 0 && |p| > 2 {
        assert p[1..][1..] == p[2..];
        SearchReads(ds[i].archives[j].kids, ds[i].archives[j].ms, p[2..]);
      }
    }
  }

  // ---- How a write ends ----

  /** A path can be built from nothing: every array in it starts at its first item. */
  predicate Buildable(p: seq<Seg>) {
    forall i :: 0 <= i < |p| && p[i].kind == ARRAY ==> p[i].index == 0 || p[i].index == SYM_ADD
  }

  function Ended(ok: bool): Outcome {
    if ok then Done else Failed
  }

  /** A text is overwritten, or is the value already. */
  function Overwritten(s: string, v: string): Outcome {
    if s == v then NoChange else Done
  }

  function OutcomeOf(ms: seq<Member>, p: seq<Seg>, v: string): Outcome
    requires |p| > 0
    decreases |p|, 2
  {
    var j := FindMember(ms, p[0].name);
    if j < 0 then Ended(v != DELETED && Buildable(p)) else OutcomeAt(ms[j].value, p, v)
  }

  function OutcomeAt(x: Json, p: seq<Seg>, v: string): Outcome
    requires |p| > 0
    decreases |p|, 1
  {
    match x
    case Str(s) =>
      if p[0].kind == ARRAY || |p| > 1 then Failed
      else if v == DELETED then Done else Overwritten(Shown(s, 24), v)
    case Obj(ms) =>
      if p[0].kind == ARRAY then Failed
      else if |p| > 1 then OutcomeOf(ms, p[1..], v) else Ended(v == DELETED)
    case Arr(js) =>
      if p[0].kind != ARRAY then Failed
      else if p[0].index == |js| || p[0].index == SYM_ADD then
        Ended(v != DELETED && |js| < 256 && (|p| == 1 || Buildable(p[1..])))
      else if js == [] then Failed
      else if p[0].index == SYM_ENTIRE then Ended(v == DELETED)
      else if p[0].index == SYM_LAST then OutcomeIn(js[|js| - 1], p, v)
      else if 0 <= p[0].index < |js| then OutcomeIn(js[p[0].index], p, v)
      else Failed
    case _ => Failed
  }

  /** In the array item that the first segment reaches. */
  function OutcomeIn(x: Json, p: seq<Seg>, v: string): Outcome
    requires |p| > 0
    decreases |p|, 0
  {
    match x
    case Str(s) => if |p| > 1 then Failed else if v == DELETED then Done else Overwritten(Shown(s, 64), v)
    case Obj(ms) => if |p| > 1 then OutcomeOf(ms, p[1..], v) else Ended(v == DELETED)
    case _ => Failed
  }

  lemma {:induction false} BuildableTail(p: seq<Seg>)
    requires p != []
    ensures Buildable(p) <==>
      (p[0].kind == ARRAY ==> p[0].index == 0 || p[0].index == SYM_ADD) && Buildable(p[1..])
  {
    if Buildable(p[1..]) {
      forall i | 1 <= i < |p| && p[i].kind == ARRAY ensures p[i].index == 0 || p[i].index == SYM_ADD {
        assert p[i] == p[1..][i - 1];
      }
    }
  }

  lemma {:induction false} AppendEnds(kids: seq<Node>, ms: seq<Member>, p: seq<Seg>, v: string)
    requires Tail(p)
    ensures AppendKids(kids, ms, p, v).out == Ended(Buildable(p))
    decreases |p|, 1
  {
    BuildableTail(p);
    match p[0].kind
    case FIELD => assert |p| == 1;
    case LOGIC => AppendEnds([], [], p[1..], v);
    case ARRAY => if p[0].index == 0 || p[0].index == SYM_ADD { AppendItemEnds([], 0, [], p, v); }
    case _ => assert false;
  }

  lemma {:induction false} AppendItemEnds(items: seq<Item>, size: int, js: seq<Json>, p: seq<Seg>, v: string)
    requires Tail(p) && size >= 0 && (p[0].index == size || p[0].index == SYM_ADD)
    ensures AppendItem(items, size, js, p, v).out == Ended(size < 256 && (|p| == 1 || Buildable(p[1..])))
    ensures Buildable([])
    decreases |p|, 0
  {
    if |p| > 1 { AppendEnds([], [], p[1..], v); }
  }

  /** Every write and deletion ends as the JSON says, for every path the parser lets through. */
  lemma {:induction false} UpdateEnds(kids: seq<Node>, ms: seq<Member>, p: seq<Seg>, v: string)
    requires Agree(kids, ms) && Tail(p)
    ensures Update(kids, ms, p, v).out == OutcomeOf(ms, p, v)
    decreases |p|, 3
  {
    var i := Find(kids, p[0].name);
    FindBoth(ms, p[0].name);
    AgreeAt(kids, ms);
    if i < 0 { AppendEnds(kids, ms, p, v); } else { NodeEnds(kids[i], ms[i], p, v); }
  }

  lemma {:induction false} NodeEnds(n: Node, m: Member, p: seq<Seg>, v: string)
    requires AgreeNode(n, m) && Tail(p)
    ensures UpdateNode(n, m.value, p, v).out == OutcomeAt(m.value, p, v)
    decreases |p|, 2
  {
    match n
    case Field(_, _) =>
    case Scope(_, sub) => if |p| > 1 { UpdateEnds(sub, m.value.members, p[1..], v); }
    case Array(_, items, size) => if p[0].kind == ARRAY { ItemsEnd(items, size, m.value.items, p, v); }
  }

  lemma {:induction false} ItemsEnd(items: seq<Item>, size: int, js: seq<Json>, p: seq<Seg>, v: string)
    requires AgreeItems(items, size, js) && Tail(p) && p[0].kind == ARRAY
    ensures UpdateArray(items, size, js, p, v).out == OutcomeAt(Arr(js), p, v)
    decreases |p|, 1
  {
    if p[0].index == size || p[0].index == SYM_ADD {
      AppendItemEnds(items, size, js, p, v);
    } else {
      var k := if p[0].index == SYM_LAST then size - 1 else p[0].index;
      if 0 <= k < size { ItemEnds(items, size, js, p, v, k); }
    }
  }

  lemma {:induction false} ItemEnds(items: seq<Item>, size: int, js: seq<Json>, p: seq<Seg>, v: string, k: nat)
    requires AgreeItems(items, size, js) && Tail(p) && p[0].kind == ARRAY && p[0].index != size && p[0].index != SYM_ADD
    requires k == (if p[0].index == SYM_LAST then size - 1 else p[0].index) < size
    ensures UpdateArray(items, size, js, p, v).out == OutcomeIn(js[k], p, v)
    decreases |p|, 0
  {
    AtItem(items, size, js, p, v, k);
    if |p| > 1 && items[k].ItemScope? { UpdateEnds(items[k].kids, js[k].members, p[1..], v); }
  }

  /** How a request ends, read off the directories and the JSON. */
  function RootOutcome(ds: seq<Dir>, p: seq<Seg>, v: string, room: bool): Outcome
    requires |p| > 0
  {
    var i := FindDir(ds, p[0].name);
    if v == "" || i < 0 || |p| == 1 then Failed else
    var j := FindArchive(ds[i].archives, p[1].name);
    if j >= 0 then
      if |p| == 2 then Ended(v == DELETED) else OutcomeOf(ds[i].archives[j].ms, p[2..], v)
    else
      Ended(|p| > 2 && v != DELETED && room && |ds[i].value| + |p[1].name| + 5 < 256 && Buildable(p[2..]))
  }

  lemma {:induction false} RootEnds(ds: seq<Dir>, p: seq<Seg>, v: string, room: bool)
    requires Valid(ds) && Path(p)
    ensures UpdateRoot(ds, p, v, room).out == RootOutcome(ds, p, v, room)
  {
    var i := FindDir(ds, p[0].name);
    if v != "" && i >= 0 && |p| > 1 {
      assert |p| > 2 ==> p[1..][1..] == p[2..];
      var j := FindArchive(ds[i].archives, p[1].name);
      if |p| > 2 {
        if j >= 0 {
          UpdateEnds(ds[i].archives[j].kids, ds[i].archives[j].ms, p[2..], v);
        } else {
          AppendEnds([], [], p[2..], v);
        }
      }
    }
  }

  // ---- The last item ----

  /** The path with every `$` that reaches an array with items replaced by the index of its last item. */
  function Resolved(kids: seq<Node>, p: seq<Seg>): (r: seq<Seg>)
    ensures |r| == |p|
    decreases |p|, 2
  {
    if p == [] then [] else
    var i := Find(kids, p[0].name);
    if i < 0 then p else match kids[i]
      case Field(_, _) => p
      case Scope(_, sub) => [p[0]] + Resolved(sub, p[1..])
      case Array(_, items, _) => if p[0].kind == ARRAY then ResolvedIn(items, p) else p
  }

  function ResolvedIn(items: seq<Item>, p: seq<Seg>): (r: seq<Seg>)
    requires |p| > 0
    ensures |r| == |p|
    decreases |p|, 0
  {
    var k := if p[0].index == SYM_LAST && items != [] then |items| - 1 else p[0].index;
    [p[0].(index := k)] + if 0 <= k < |items| && items[k].ItemScope? then Resolved(items[k].kids, p[1..]) else p[1..]
  }

  /** `x[$]` is `x[size - 1]`: reading, writing, deleting and the path that is meant are the same. */
  lemma {:induction false} LastItem(items: seq<Item>, size: int, js: seq<Json>, p: seq<Seg>, v: string)
    requires AgreeItems(items, size, js) && size > 0 && |p| > 0 && p[0].kind == ARRAY && p[0].index == SYM_LAST
    ensures var q := [p[0].(index := size - 1)] + p[1..];
      && SearchArray(items, size, p) == SearchArray(items, size, q)
      && UpdateArray(items, size, js, p, v) == UpdateArray(items, size, js, q, v)
      && TargetArray(items, size, p) == TargetArray(items, size, q)
      && TargetArray(items, size, p)[0].index == size - 1
  {
    var q := [p[0].(index := size - 1)] + p[1..];
    assert q[1..] == p[1..];
    assert items[size - 1] == LoadItem(size - 1, js[size - 1]);
  }

  lemma {:induction false} SearchResolved(kids: seq<Node>, ms: seq<Member>, p: seq<Seg>)
    requires Agree(kids, ms) && |p| > 0
    ensures Search(kids, p) == Search(kids, Resolved(kids, p))
    decreases |p|, 1
  {
    var i, q := Find(kids, p[0].name), Resolved(kids, p);
    AgreeAt(kids, ms);
    if i >= 0 {
      match kids[i]
      case Field(_, _) =>
      case Scope(_, sub) =>
        if |p| > 1 {
          assert q[1..] == Resolved(sub, p[1..]);
          SearchResolved(sub, ms[i].value.members, p[1..]);
        }
      case Array(_, items, size) =>
        if p[0].kind == ARRAY { SearchResolvedIn(items, size, ms[i].value.items, p); }
    }
  }

  lemma {:induction false} SearchResolvedIn(items: seq<Item>, size: int, js: seq<Json>, p: seq<Seg>)
    requires AgreeItems(items, size, js) && |p| > 0 && p[0].kind == ARRAY
    ensures SearchArray(items, size, p) == SearchArray(items, size, ResolvedIn(items, p))
    decreases |p|, 0
  {
    var k := if p[0].index == SYM_LAST && items != [] then |items| - 1 else p[0].index;
    if 0 <= k < |items| {
      var q := ResolvedIn(items, p);
      assert items[k] == LoadItem(k, js[k]) && ItemLoadable(js[k]);
      if items[k].ItemScope? && |p| > 1 {
        assert q[1..] == Resolved(items[k].kids, p[1..]);
        SearchResolved(items[k].kids, js[k].members, p[1..]);
      }
    }
  }

  lemma {:induction false} UpdateResolved(kids: seq<Node>, ms: seq<Member>, p: seq<Seg>, v: string)
    requires Agree(kids, ms) && Tail(p)
    ensures Tail(Resolved(kids, p)) && Update(kids, ms, p, v) == Update(kids, ms, Resolved(kids, p), v)
    decreases |p|, 3
  {
    var i, q := Find(kids, p[0].name), Resolved(kids, p);
    FindBoth(ms, p[0].name);
    AgreeAt(kids, ms);
    if i >= 0 { NodeResolved(kids[i], ms[i], p, v, q); }
  }

  lemma {:induction false} NodeResolved(n: Node, m: Member, p: seq<Seg>, v: string, q: seq<Seg>)
    requires AgreeNode(n, m) && Tail(p)
    requires q == match n
      case Field(_, _) => p
      case Scope(_, sub) => [p[0]] + Resolved(sub, p[1..])
      case Array(_, items, _) => if p[0].kind == ARRAY then ResolvedIn(items, p) else p
    ensures Tail(q) && q[0].name == p[0].name && UpdateNode(n, m.value, p, v) == UpdateNode(n, m.value, q, v)
    decreases |p|, 2
  {
    match n
    case Field(_, _) =>
    case Scope(_, sub) =>
      assert q[1..] == Resolved(sub, p[1..]);
      if |p| > 1 {
        TailOn(p);
        UpdateResolved(sub, m.value.members, p[1..], v);
        TailCons(p, q);
      } else {
        assert q == p;
      }
    case Array(_, items, size) => if p[0].kind == ARRAY { UpdateResolvedIn(items, size, m.value.items, p, v); }
  }

  lemma {:induction false} TailOn(p: seq<Seg>)
    requires Tail(p) && |p| > 1
    ensures Tail(p[1..])
  {
  }

  /** A first segment that keeps its form before a tail that is one. */
  lemma {:induction false} TailCons(p: seq<Seg>, q: seq<Seg>)
    requires Tail(p) && |p| == |q| && (|q| > 1 ==> Tail(q[1..]))
    requires q[0].name == p[0].name && q[0].kind == p[0].kind
      && (q[0].index == p[0].index || (0 <= q[0].index < SYM <= p[0].index))
    ensures Tail(q)
  {
    forall i | 0 <= i < |q| ensures SegOk(q[i], i == |q| - 1) {
      if i > 0 { assert q[i] == q[1..][i - 1]; }
    }
  }

  lemma {:induction false} UpdateResolvedIn(items: seq<Item>, size: int, js: seq<Json>, p: seq<Seg>, v: string)
    requires AgreeItems(items, size, js) && Tail(p) && p[0].kind == ARRAY
    ensures var q := ResolvedIn(items, p);
      Tail(q) && q[0].name == p[0].name && UpdateArray(items, size, js, p, v) == UpdateArray(items, size, js, q, v)
    decreases |p|, 1
  {
    var k := if p[0].index == SYM_LAST && items != [] then |items| - 1 else p[0].index;
    var q := ResolvedIn(items, p);
    assert q[0] == p[0].(index := k);
    if 0 <= k < |items| {
      ReachedResolved(items, size, js, p, v, k);
    } else {
      assert q == p;
    }
  }

  lemma {:induction false} ReachedResolved(items: seq<Item>, size: int, js: seq<Json>, p: seq<Seg>, v: string, k: nat)
    requires AgreeItems(items, size, js) && Tail(p) && p[0].kind == ARRAY && k < |items|
    requires k == if p[0].index == SYM_LAST then |items| - 1 else p[0].index
    ensures var q := ResolvedIn(items, p);
      Tail(q) && UpdateArray(items, size, js, p, v) == UpdateArray(items, size, js, q, v)
    decreases |p|, 0
  {
    var q := ResolvedIn(items, p);
    AtItem(items, size, js, p, v, k);
    if |p| > 1 {
      TailOn(p);
      if items[k].ItemScope? {
        assert q[1..] == Resolved(items[k].kids, p[1..]);
        UpdateResolved(items[k].kids, js[k].members, p[1..], v);
      } else {
        assert q[1..] == p[1..];
      }
    }
    TailCons(p, q);
    AtItem(items, size, js, q, v, k);
  }

  lemma {:induction false} TargetResolved(kids: seq<Node>, ms: seq<Member>, p: seq<Seg>)
    requires Agree(kids, ms) && Tail(p)
    ensures Target(kids, p) == Target(kids, Resolved(kids, p))
    decreases |p|, 1
  {
    var i, q := Find(kids, p[0].name), Resolved(kids, p);
    AgreeAt(kids, ms);
    if i >= 0 {
      match kids[i]
      case Field(_, _) =>
      case Scope(_, sub) =>
        assert q[1..] == Resolved(sub, p[1..]);
        if |p| > 1 { TargetResolved(sub, ms[i].value.members, p[1..]); }
      case Array(_, items, size) =>
        if p[0].kind == ARRAY { TargetResolvedIn(items, size, ms[i].value.items, p); }
    }
  }

  lemma {:induction false} TargetResolvedIn(items: seq<Item>, size: int, js: seq<Json>, p: seq<Seg>)
    requires AgreeItems(items, size, js) && Tail(p) && p[0].kind == ARRAY
    ensures TargetArray(items, size, p) == TargetArray(items, size, ResolvedIn(items, p))
    decreases |p|, 0
  {
    var k := if p[0].index == SYM_LAST && items != [] then |items| - 1 else p[0].index;
    var q := ResolvedIn(items, p);
    if 0 <= k < |items| {
      assert items[k] == LoadItem(k, js[k]) && ItemLoadable(js[k]);
      if items[k].ItemScope? {
        assert q[1..] == Resolved(items[k].kids, p[1..]);
        if |p| > 1 { TargetResolved(items[k].kids, js[k].members, p[1..]); }
      } else {
        assert q[1..] == p[1..];
      }
    } else {
      assert q == p;
    }
  }

  function ResolvedRoot(ds: seq<Dir>, p: seq<Seg>): (r: seq<Seg>)
    requires |p| > 2
    ensures |r| == |p|
  {
    var i := FindDir(ds, p[0].name);
    var j := if i < 0 then -1 else FindArchive(ds[i].archives, p[1].name);
    if j < 0 then p else p[..2] + Resolved(ds[i].archives[j].kids, p[2..])
  }

  /** From the root: `$` reads, writes, deletes and means the last item of the array it reaches. */
  lemma {:induction false} RootResolved(ds: seq<Dir>, p: seq<Seg>, v: string, room: bool)
    requires Valid(ds) && Path(p) && |p| > 2
    ensures var q := ResolvedRoot(ds, p);
      && SearchRoot(ds, p) == SearchRoot(ds, q)
      && UpdateRoot(ds, p, v, room) == UpdateRoot(ds, q, v, room)
      && TargetRoot(ds, p) == TargetRoot(ds, q)
  {
    var i := FindDir(ds, p[0].name);
    if i >= 0 && FindArchive(ds[i].archives, p[1].name) >= 0 {
      var a := ds[i].archives[FindArchive(ds[i].archives, p[1].name)];
      var q := ResolvedRoot(ds, p);
      assert p[1..][1..] == p[2..] && q[1..][1..] == q[2..] == Resolved(a.kids, p[2..]) && q[..2] == p[..2];
      assert q[0] == p[0] && q[1] == p[1];
      SearchResolved(a.kids, a.ms, p[2..]);
      UpdateResolved(a.kids, a.ms, p[2..], v);
      TargetResolved(a.kids, a.ms, p[2..]);
    }
  }
}

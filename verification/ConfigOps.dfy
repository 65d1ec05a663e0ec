/** Step-by-step operations on the configuration tree: the cursor search, and the removal of items and subtrees. */
module ConfigOps {
  import opened Basics
  import opened JsonValue
  import opened ConfigModel
  import opened ConfigUpdate
  import opened ConfigLaws
  import opened ConfigRoot
  import opened Decimals

  // ---- Search with a cursor ----

  /** The tree that the next segment is looked up in. */
  datatype Cursor = AtDirs(dirs: seq<Dir>) | AtArchives(archives: seq<Archive>) | AtKids(kids: seq<Node>)

  function SearchFrom(c: Cursor, p: seq<Seg>): Option<string>
    requires |p| > 0
  {
    match c
    case AtDirs(ds) => SearchRoot(ds, p)
    case AtArchives(xs) => SearchArchives(xs, p)
    case AtKids(kids) => Search(kids, p)
  }

  datatype Hop = Down(cursor: Cursor) | Answer(value: string) | Stop

  function Then(h: Hop, rest: seq<Seg>): Option<string> {
    match h
    case Answer(value) => Some(value)
    case Stop => None
    case Down(next) => if rest == [] then None else SearchFrom(next, rest)
  }

  /** One turn of the loop of `rt_search`: follow the first segment, answer, or fail. */
  method Follow(c: Cursor, p: seq<Seg>) returns (h: Hop)
    requires |p| > 0
    ensures SearchFrom(c, p) == Then(h, p[1..])
  {
    var s, last := p[0], |p| == 1;
    h := Stop;
    match c
    case AtDirs(ds) =>
      var i := FindDir(ds, s.name);
      if i >= 0 { h := if last then Answer(ds[i].value) else Down(AtArchives(ds[i].archives)); }
      assert SearchRoot(ds, p) == Then(h, p[1..]);
    case AtArchives(xs) =>
      var i := FindArchive(xs, s.name);
      if i >= 0 { h := if last then Answer(xs[i].path) else Down(AtKids(xs[i].kids)); }
      assert SearchArchives(xs, p) == Then(h, p[1..]);
    case AtKids(kids) =>
      var i := Find(kids, s.name);
      if i >= 0 {
        match kids[i]
        case Field(_, value) => if last && s.kind == FIELD { h := Answer(value); }
        case Scope(_, sub) => if !last && s.kind == LOGIC { h := Down(AtKids(sub)); }
        case Array(_, items, size) =>
          h := FollowItem(items, size, p);
      }
      assert Search(kids, p) == Then(h, p[1..]);
  }

  method FollowItem(items: seq<Item>, size: int, p: seq<Seg>) returns (h: Hop)
    requires |p| > 0
    ensures SearchArray(items, size, p) == Then(h, p[1..])
  {
    var s, last := p[0], |p| == 1;
    h := Stop;
    if s.kind == ARRAY && items != [] && size > 0 {
      if s.index == SYM_SIZE {
        if last { h := Answer(Decimal(size)); }
      } else if s.index != SYM_ADD && s.index != SYM_ENTIRE {
        var k := Pick(size, s.index);
        if 0 <= k < |items| {
          match items[k]
          case ItemScope(_, sub) => h := Down(AtKids(sub));
          case ItemField(_, value) => if last { h := Answer(value); }
        }
      }
    }
  }

  /** `rt_search`: the loop finds what the recursive search says. */
  method ReadPath(ds: seq<Dir>, p: seq<Seg>) returns (r: Option<string>)
    requires |p| > 0
    ensures r == SearchRoot(ds, p)
  {
    var c := AtDirs(ds);
    for i := 0 to |p|
      invariant SearchRoot(ds, p) == if i < |p| then SearchFrom(c, p[i..]) else None
    {
      var h := Follow(c, p[i..]);
      assert p[i..][1..] == p[i + 1..];
      match h
      case Answer(value) => return Some(value);
      case Stop => return None;
      case Down(next) => c := next;
    }
    return None;
  }

  // ---- Removing an array item ----

  /** `rt_safe_delete_array_item`: unlink, then lower the label of every later item. */
  method RemoveItem(items: seq<Item>, k: nat) returns (r: seq<Item>)
    requires k < |items|
    ensures r == DropItem(items, k)
  {
    r := Without(items, k);
    for pos := k to |r|
      invariant |r| == |items| - 1
      invariant forall j :: 0 <= j < pos ==> r[j] == DropItem(items, k)[j]
      invariant forall j :: pos <= j < |r| ==> r[j] == items[j + 1]
    {
      r := r[pos := r[pos].(no := r[pos].no - 1)];
    }
  }

  // ---- Removing a whole subtree ----

  /**
   `rt_deep_delete_range`: the children go first, one by one and in whatever order the tree's shape offers
   them, each from the index and from the JSON; then the node itself. Nothing else is touched.
   */
  method DeepDelete(kids: seq<Node>, ms: seq<Member>, i: nat) returns (kids': seq<Node>, ms': seq<Member>)
    requires Agree(kids, ms) && i < |kids|
    ensures kids' == Without(kids, i) && ms' == Without(ms, i)
    decreases kids[i], 1
  {
    AgreeAt(kids, ms);
    var n := kids[i];
    kids', ms' := kids, ms;
    match n {
    case Field(_, _) =>
    case Scope(name, sub) =>
      var empty, none := ClearLevel(sub, ms[i].value.members);
      kids', ms' := kids[i := Scope(name, empty)], Put(ms, i, Obj(none));
    case Array(name, items, size) =>
      var js := ClearItems(items, ms[i].value.items);
      kids', ms' := kids[i := Array(name, [], 0)], Put(ms, i, Arr(js));
    }
    RemoveHere(kids, ms, i, kids', ms');
    kids', ms' := Without(kids', Find(kids', n.name)), Without(ms', FindMember(ms', n.name));
  }

  lemma {:induction false} RemoveHere(kids: seq<Node>, ms: seq<Member>, i: nat, kids': seq<Node>, ms': seq<Member>)
    requires Agree(kids, ms) && i < |kids| == |kids'| == |ms'| == |ms|
    requires kids' == kids[i := kids'[i]] && kids'[i].name == kids[i].name
    requires ms' == ms[i := ms'[i]] && ms'[i].name == ms[i].name
    ensures Without(kids', Find(kids', kids[i].name)) == Without(kids, i)
    ensures Without(ms', FindMember(ms', kids[i].name)) == Without(ms, i)
  {
    AgreeAt(kids, ms);
    forall j | 0 <= j < i ensures !Same(kids'[j].name, kids[i].name) && !Same(ms'[j].name, kids[i].name) {
      Distinct(kids, ms, j, i);
    }
  }

  method ClearLevel(kids: seq<Node>, ms: seq<Member>) returns (kids': seq<Node>, ms': seq<Member>)
    requires Agree(kids, ms)
    ensures kids' == [] && ms' == []
    decreases kids, 0
  {
    kids', ms' := kids, ms;
    while kids' != []
      invariant Agree(kids', ms')
      invariant forall x :: x in kids' ==> x in kids
      decreases |kids'|
    {
      var r: nat :| r < |kids'|;
      assert kids'[r] in kids;
      AgreeAt(kids', ms');
      AgreeDrop(kids', ms', r);
      kids', ms' := DeepDelete(kids', ms', r);
    }
    AgreeAt(kids', ms');
  }

  function KidsOf(item: Item): Option<seq<Node>> {
    if item.ItemScope? then Some(item.kids) else None
  }

  /** The items from d on, whatever they are numbered now. */
  predicate Rest(left: seq<Item>, items: seq<Item>, d: nat) {
    |left| + d == |items| && forall j :: 0 <= j < |left| ==> KidsOf(left[j]) == KidsOf(items[j + d])
  }

  lemma {:induction false} RestStep(left: seq<Item>, items: seq<Item>, d: nat)
    requires Rest(left, items, d) && left != []
    ensures Rest(DropItem(left, 0), items, d + 1)
  {
    var r := DropItem(left, 0);
    forall j | 0 <= j < |r| ensures KidsOf(r[j]) == KidsOf(items[j + (d + 1)]) {
      assert KidsOf(left[j + 1]) == KidsOf(items[j + 1 + d]);
    }
  }

  /** The items of an array are deleted from the front. */
  method ClearItems(items: seq<Item>, js: seq<Json>) returns (js': seq<Json>)
    requires AgreeItems(items, |js|, js)
    ensures js' == []
    decreases items, 0
  {
    var left := items;
    js' := js;
    for d := 0 to |items|
      invariant AgreeItems(left, |js'|, js')
      invariant Rest(left, items, d)
    {
      assert KidsOf(left[0]) == KidsOf(items[d]);
      DropItemAgrees(left, js', 0);
      RestStep(left, items, d);
      if left[0].ItemScope? {
        left, js' := ClearFirst(left, js');
      } else {
        left := RemoveItem(left, 0);
        js' := Without(js', 0);
      }
    }
  }

  method ClearFirst(items: seq<Item>, js: seq<Json>) returns (items': seq<Item>, js': seq<Json>)
    requires AgreeItems(items, |js|, js) && items != [] && items[0].ItemScope?
    ensures items' == DropItem(items, 0) && js' == Without(js, 0)
    decreases items[0].kids, 1
  {
    assert items[0] == LoadItem(0, js[0]) && ItemLoadable(js[0]);
    var empty, none := ClearLevel(items[0].kids, js[0].members);
    DropOver(items, ItemScope(0, empty), js, Obj(none));
    items', js' := items[0 := ItemScope(0, empty)], js[0 := Obj(none)];
    items' := RemoveItem(items', 0);
    js' := Without(js', 0);
  }

  lemma {:induction false} DropOver(items: seq<Item>, item: Item, js: seq<Json>, j: Json)
    requires |items| == |js| > 0
    ensures DropItem(items[0 := item], 0) == DropItem(items, 0) && Without(js[0 := j], 0) == Without(js, 0)
  {
  }
}

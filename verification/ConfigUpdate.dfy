/**
 Writing a configuration value: one call edits the index and the JSON tree side by side. A level of the
 index is paired with the JSON object under it, an array node with the JSON array under it.
 */
module ConfigUpdate {
  import opened Basics
  import opened JsonValue
  import opened ConfigModel

  /** `rt_config_update` returns 0, 1 or a negative number. */
  datatype Outcome = Done | NoChange | Failed

  datatype Level = Level(out: Outcome, kids: seq<Node>, ms: seq<Member>)
  datatype Spot = Spot(out: Outcome, gone: bool, node: Node, json: Json)
  datatype Items = Items(out: Outcome, gone: bool, items: seq<Item>, size: int, js: seq<Json>)

  // ---- Appending ----

  /** `rt_append` under an archive, a logic scope or an object item. A failure keeps what it built. */
  function AppendKids(kids: seq<Node>, ms: seq<Member>, p: seq<Seg>, v: string): (r: Level)
    ensures r.out != NoChange
    decreases |p|, 1
  {
    if p == [] then Level(Done, kids, ms) else
    match p[0].kind
    case FIELD => Level(Done, kids + [Field(p[0].name, v)], ms + [Member(p[0].name, Str(v))])
    case LOGIC =>
      var r := AppendKids([], [], p[1..], v);
      Level(r.out, kids + [Scope(p[0].name, r.kids)], ms + [Member(p[0].name, Obj(r.ms))])
    case ARRAY =>
      if p[0].index != 0 && p[0].index != SYM_ADD then Level(Failed, kids, ms) else
      var r := AppendItem([], 0, [], p, v);
      Level(r.out, kids + [Array(p[0].name, r.items, r.size)], ms + [Member(p[0].name, Arr(r.js))])
    case ARCHIVE => Level(Failed, kids, ms)
    case DIR => Level(Done, kids, ms)
  }

  /** `rt_append` under an array node. */
  function AppendItem(items: seq<Item>, size: int, js: seq<Json>, p: seq<Seg>, v: string): (r: Items)
    requires |p| > 0
    ensures r.out != NoChange
    decreases |p|, 0
  {
    if size < 0 || (p[0].index != size && p[0].index != SYM_ADD) then Items(Failed, false, items, size, js)
    else if size >= MAX_ITEMS then Items(Failed, false, items, size, js)
    else if |p| == 1 then Items(Done, false, items + [ItemField(size, v)], size + 1, js + [Str(v)])
    else
      var r := AppendKids([], [], p[1..], v);
      Items(r.out, false, items + [ItemScope(size, r.kids)], size + 1, js + [Obj(r.ms)])
  }

  // ---- Deleting one array item ----

  /** Item i leaves the list and the later items are relabelled one lower. */
  function DropItem(items: seq<Item>, i: nat): (r: seq<Item>)
    requires i < |items|
    ensures |r| == |items| - 1
  {
    seq(|items| - 1, k requires 0 <= k < |items| - 1 =>
      if k < i then items[k] else items[k + 1].(no := items[k + 1].no - 1))
  }

  // ---- Updating ----

  function ValueAt(ms: seq<Member>, j: int): Json {
    if 0 <= j < |ms| then ms[j].value else Null
  }

  function Put(ms: seq<Member>, j: int, v: Json): seq<Member> {
    if 0 <= j < |ms| then ms[j := Member(ms[j].name, v)] else ms
  }

  /** `rt_config_update` from one level on: a missing name is appended, a known one is updated or deleted. */
  function Update(kids: seq<Node>, ms: seq<Member>, p: seq<Seg>, v: string): Level
    requires |p| > 0
    decreases |p|, 2
  {
    var i, j := Find(kids, p[0].name), FindMember(ms, p[0].name);
    if i < 0 then (if v == DELETED then Level(Failed, kids, ms) else AppendKids(kids, ms, p, v)) else
    var r := UpdateNode(kids[i], ValueAt(ms, j), p, v);
    if r.gone then Level(r.out, Without(kids, i), Without(ms, j))
    else Level(r.out, kids[i := r.node], Put(ms, j, r.json))
  }

  /** From a node whose name matches on, with the JSON value under it. */
  function UpdateNode(n: Node, json: Json, p: seq<Seg>, v: string): (r: Spot)
    requires |p| > 0
    ensures r.node.name == n.name
    decreases |p|, 1
  {
    var failed := Spot(Failed, false, n, json);
    if n.Array? != (p[0].kind == ARRAY) then failed else
    match n
    case Field(name, value) =>
      if |p| > 1 then failed
      else if v == DELETED then Spot(Done, true, n, json)
      else if value == v then Spot(NoChange, false, n, json)
      else if json.Str? then Spot(Done, false, Field(name, v), Str(v))
      else failed
    case Scope(name, sub) =>
      if |p| > 1 then
        var r := Update(sub, if json.Obj? then json.members else [], p[1..], v);
        Spot(r.out, false, Scope(name, r.kids), Obj(r.ms))
      else if v == DELETED then Spot(Done, true, n, json)
      else failed
    case Array(name, items, size) =>
      var r := UpdateArray(items, size, if json.Arr? then json.items else [], p, v);
      Spot(r.out, r.gone, Array(name, r.items, r.size), Arr(r.js))
  }

  /** From an array node on. */
  function UpdateArray(items: seq<Item>, size: int, js: seq<Json>, p: seq<Seg>, v: string): Items
    requires |p| > 0
    decreases |p|, 0
  {
    var failed := Items(Failed, false, items, size, js);
    var index := p[0].index;
    if (size >= 0 && index == size) || index == SYM_ADD then
      (if v == DELETED then failed else AppendItem(items, size, js, p, v))
    else if size <= 0 || items == [] then failed
    else if index == SYM_ENTIRE then
      (if v == DELETED then Items(Done, true, [], 0, []) else failed)
    else
      var k := Pick(size, index);
      if !(0 <= k < |items| && k < |js|) then failed
      else if |p| == 1 then UpdateItem(items, size, js, k, v)
      else match items[k]
      case ItemField(_, _) => failed
      case ItemScope(no, sub) =>
        var r := Update(sub, if js[k].Obj? then js[k].members else [], p[1..], v);
        Items(r.out, false, items[k := ItemScope(no, r.kids)], size, js[k := Obj(r.ms)])
  }

  /** The array item itself is the target. */
  function UpdateItem(items: seq<Item>, size: int, js: seq<Json>, k: nat, v: string): Items
    requires k < |items| && k < |js|
  {
    if v == DELETED then Items(Done, false, DropItem(items, k), size - 1, Without(js, k))
    else match items[k]
    case ItemScope(_, _) => Items(Failed, false, items, size, js)
    case ItemField(no, value) =>
      if value == v then Items(NoChange, false, items, size, js)
      else if !js[k].Str? then Items(Failed, false, items, size, js)
      else Items(Done, false, items[k := ItemField(no, v)], size, js[k := Str(v)])
  }

  // ---- Request paths below an archive ----

  /** The grammar `rt_separate_segment` enforces from the third segment on. */
  predicate SegOk(s: Seg, last: bool) {
    && 0 < |s.name| < MAX_NAME
    && (s.kind == ARRAY <==> s.index >= 0)
    && (s.kind == ARRAY || s.kind == if last then FIELD else LOGIC)
    && (s.index == SYM_ENTIRE ==> last)
  }

  predicate Tail(p: seq<Seg>) {
    |p| > 0 && forall i :: 0 <= i < |p| ==> SegOk(p[i], i == |p| - 1)
  }

  /** The loader would keep every name of the path; array names are not inspected. */
  predicate Loads(p: seq<Seg>) {
    forall i :: 0 <= i < |p| ==> p[i].kind == ARRAY || NameOk(p[i].name)
  }

  /** The segments that an append creates before it ends or fails: it stops at an array that does not start at 0. */
  function BuiltNew(p: seq<Seg>): seq<Seg> {
    if p == [] then []
    else if p[0].kind == FIELD then [p[0]]
    else if p[0].kind == LOGIC || (p[0].kind == ARRAY && (p[0].index == 0 || p[0].index == SYM_ADD))
      then [p[0]] + BuiltNew(p[1..])
    else []
  }

  /** The segments of the path that a write creates, whether it then succeeds or fails. */
  function Built(kids: seq<Node>, p: seq<Seg>): seq<Seg>
    decreases |p|, 2
  {
    if p == [] then [] else
    var i := Find(kids, p[0].name);
    if i < 0 then BuiltNew(p) else BuiltAt(kids[i], p)
  }

  function BuiltAt(n: Node, p: seq<Seg>): seq<Seg>
    requires |p| > 0
    decreases |p|, 1
  {
    if n.Array? != (p[0].kind == ARRAY) then [] else
    match n
    case Field(_, _) => []
    case Scope(_, sub) => Built(sub, p[1..])
    case Array(_, items, size) => BuiltIn(items, size, p)
  }

  function BuiltIn(items: seq<Item>, size: int, p: seq<Seg>): seq<Seg>
    requires |p| > 0
    decreases |p|, 0
  {
    if p[0].index == SYM_ADD || p[0].index == size then (if size < MAX_ITEMS then BuiltNew(p[1..]) else []) else
    var k := Pick(size, p[0].index);
    if 0 <= k < |items| && items[k].ItemScope? then Built(items[k].kids, p[1..]) else []
  }

  // ---- The index stays what the loader would build ----

  predicate Agree(kids: seq<Node>, ms: seq<Member>) {
    Loadable(ms) && kids == Load(ms)
  }

  predicate AgreeItems(items: seq<Item>, size: int, js: seq<Json>) {
    && (forall i :: 0 <= i < |js| ==> ItemLoadable(js[i]))
    && size == |js| < SYM && items == LoadItems(js)
  }

  predicate AgreeNode(n: Node, m: Member) {
    Kept(m) && ValueLoadable(m.value) && LoadNode(m.name, m.value) == Some(n)
  }

  lemma {:induction false} AgreeAt(kids: seq<Node>, ms: seq<Member>)
    requires Agree(kids, ms)
    ensures |kids| == |ms|
    ensures forall i :: 0 <= i < |ms| ==> kids[i].name == ms[i].name && AgreeNode(kids[i], ms[i])
  {
    Indexed(ms);
  }

  lemma {:induction false} AgreeFrom(kids: seq<Node>, ms: seq<Member>)
    requires Unique(ms) && |kids| == |ms|
    requires forall i :: 0 <= i < |ms| ==> AgreeNode(kids[i], ms[i])
    ensures Agree(kids, ms)
  {
    Indexed(ms);
  }

  lemma {:induction false} AgreeAdd(kids: seq<Node>, ms: seq<Member>, n: Node, m: Member)
    requires Agree(kids, ms) && AgreeNode(n, m) && Find(kids, m.name) < 0
    ensures Agree(kids + [n], ms + [m])
  {
    AgreeAt(kids, ms);
    AgreeFrom(kids + [n], ms + [m]);
  }

  lemma {:induction false} AgreeSet(kids: seq<Node>, ms: seq<Member>, i: nat, n: Node, v: Json)
    requires Agree(kids, ms) && i < |kids| == |ms| && AgreeNode(n, Member(ms[i].name, v))
    ensures Agree(kids[i := n], Put(ms, i, v))
  {
    AgreeAt(kids, ms);
    AgreeFrom(kids[i := n], Put(ms, i, v));
  }

  lemma {:induction false} AgreeDrop(kids: seq<Node>, ms: seq<Member>, i: nat)
    requires Agree(kids, ms) && i < |kids| == |ms|
    ensures Agree(Without(kids, i), Without(ms, i))
  {
    AgreeAt(kids, ms);
    AgreeFrom(Without(kids, i), Without(ms, i));
  }

  lemma {:induction false} NoneAgree()
    ensures Agree([], []) && AgreeItems([], 0, [])
  {
  }

  lemma {:induction false} BuiltTail(p: seq<Seg>)
    requires p != [] && Loads(BuiltNew(p))
    ensures BuiltNew(p) != [] ==> p[0].kind == ARRAY || NameOk(p[0].name)
    ensures BuiltNew(p) != [] && p[0].kind != FIELD ==> Loads(BuiltNew(p[1..]))
  {
    var b := BuiltNew(p);
    assert b != [] ==> b[0] == p[0];
    if b != [] && p[0].kind != FIELD {
      var rest := BuiltNew(p[1..]);
      forall i | 0 <= i < |rest| ensures rest[i].kind == ARRAY || NameOk(rest[i].name) { assert b[i + 1] == rest[i]; }
    }
  }

  lemma {:induction false} AppendAgrees(kids: seq<Node>, ms: seq<Member>, p: seq<Seg>, v: string)
    requires Agree(kids, ms) && Tail(p) && Loads(BuiltNew(p)) && |v| < MAX_VALUE && Find(kids, p[0].name) < 0
    ensures var r := AppendKids(kids, ms, p, v); Agree(r.kids, r.ms)
    decreases |p|, 1
  {
    var r := AppendKids(kids, ms, p, v);
    NoneAgree();
    BuiltTail(p);
    match p[0].kind
    case FIELD =>
      AgreeAdd(kids, ms, Field(p[0].name, v), Member(p[0].name, Str(v)));
    case LOGIC =>
      var below := AppendKids([], [], p[1..], v);
      AppendAgrees([], [], p[1..], v);
      AgreeAdd(kids, ms, Scope(p[0].name, below.kids), Member(p[0].name, Obj(below.ms)));
    case ARRAY =>
      if p[0].index == 0 || p[0].index == SYM_ADD {
        AppendItemAgrees([], 0, [], p, v);
        var below := AppendItem([], 0, [], p, v);
        AgreeAdd(kids, ms, Array(p[0].name, below.items, below.size), Member(p[0].name, Arr(below.js)));
      }
    case _ => assert false;
  }

  lemma {:induction false} AppendItemAgrees(items: seq<Item>, size: int, js: seq<Json>, p: seq<Seg>, v: string)
    requires AgreeItems(items, size, js) && Tail(p) && (size < MAX_ITEMS ==> Loads(BuiltNew(p[1..]))) && |v| < MAX_VALUE
    ensures var r := AppendItem(items, size, js, p, v); AgreeItems(r.items, r.size, r.js)
    decreases |p|, 0
  {
    if size < MAX_ITEMS && (p[0].index == size || p[0].index == SYM_ADD) {
      if |p| == 1 {
        AgreeItemsAdd(items, size, js, ItemField(size, v), Str(v));
      } else {
        NoneAgree();
        AppendAgrees([], [], p[1..], v);
        var below := AppendKids([], [], p[1..], v);
        AgreeItemsAdd(items, size, js, ItemScope(size, below.kids), Obj(below.ms));
      }
    }
  }

  lemma {:induction false} AgreeItemsAdd(items: seq<Item>, size: int, js: seq<Json>, item: Item, j: Json)
    requires AgreeItems(items, size, js) && size < MAX_ITEMS && ItemLoadable(j) && item == LoadItem(size, j)
    ensures AgreeItems(items + [item], size + 1, js + [j])
  {
    assert items + [item] == LoadItems(js + [j]);
  }

  /** Every write, whatever its outcome, leaves the index equal to the one rebuilt from the JSON. */
  lemma {:induction false} UpdateAgrees(kids: seq<Node>, ms: seq<Member>, p: seq<Seg>, v: string)
    requires Agree(kids, ms) && Tail(p) && (v == DELETED || Loads(Built(kids, p))) && |v| < MAX_VALUE
    ensures var r := Update(kids, ms, p, v); Agree(r.kids, r.ms)
    decreases |p|, 2
  {
    var i := Find(kids, p[0].name);
    FindBoth(ms, p[0].name);
    AgreeAt(kids, ms);
    if i < 0 {
      if v != DELETED { AppendAgrees(kids, ms, p, v); }
    } else {
      var r := UpdateNode(kids[i], ms[i].value, p, v);
      UpdateNodeAgrees(kids[i], ms[i], p, v);
      if r.gone { AgreeDrop(kids, ms, i); } else { AgreeSet(kids, ms, i, r.node, r.json); }
    }
  }

  lemma {:induction false} UpdateNodeAgrees(n: Node, m: Member, p: seq<Seg>, v: string)
    requires AgreeNode(n, m) && Tail(p) && (v == DELETED || Loads(BuiltAt(n, p))) && |v| < MAX_VALUE
    ensures var r := UpdateNode(n, m.value, p, v); AgreeNode(r.node, Member(m.name, r.json))
    decreases |p|, 1
  {
    match n
    case Field(_, _) => UpdateFieldAgrees(n, m, p, v);
    case Scope(_, sub) =>
      if |p| > 1 && p[0].kind != ARRAY { UpdateAgrees(sub, m.value.members, p[1..], v); }
      UpdateScopeAgrees(n, m, p, v);
    case Array(_, items, size) =>
      if p[0].kind == ARRAY { UpdateArrayAgrees(items, size, m.value.items, p, v); }
      UpdateItemsAgrees(n, m, p, v);
  }

  lemma {:induction false} UpdateFieldAgrees(n: Node, m: Member, p: seq<Seg>, v: string)
    requires AgreeNode(n, m) && n.Field? && |p| > 0 && |v| < MAX_VALUE
    ensures var r := UpdateNode(n, m.value, p, v); AgreeNode(r.node, Member(m.name, r.json))
  {
  }

  /** A scope agrees after the update when what is below it does. */
  lemma {:induction false} UpdateScopeAgrees(n: Node, m: Member, p: seq<Seg>, v: string)
    requires AgreeNode(n, m) && n.Scope? && |p| > 0
    requires |p| > 1 && p[0].kind != ARRAY ==> var r := Update(n.kids, m.value.members, p[1..], v); Agree(r.kids, r.ms)
    ensures var r := UpdateNode(n, m.value, p, v); AgreeNode(r.node, Member(m.name, r.json))
  {
  }

  /** An array agrees after the update when its items do. */
  lemma {:induction false} UpdateItemsAgrees(n: Node, m: Member, p: seq<Seg>, v: string)
    requires AgreeNode(n, m) && n.Array? && |p| > 0
    requires p[0].kind == ARRAY ==>
      var r := UpdateArray(n.items, n.size, m.value.items, p, v); AgreeItems(r.items, r.size, r.js)
    ensures var r := UpdateNode(n, m.value, p, v); AgreeNode(r.node, Member(m.name, r.json))
  {
  }

  lemma {:induction false} AgreeItemsSet(items: seq<Item>, size: int, js: seq<Json>, k: nat, item: Item, j: Json)
    requires AgreeItems(items, size, js) && k < |js| && ItemLoadable(j) && item == LoadItem(k, j)
    ensures AgreeItems(items[k := item], size, js[k := j])
  {
    assert items[k := item] == LoadItems(js[k := j]);
  }

  /** The update of an array at an index that picks an item. */
  lemma {:induction false} AtItem(items: seq<Item>, size: int, js: seq<Json>, p: seq<Seg>, v: string, k: int)
    requires AgreeItems(items, size, js) && |p| > 0 && k == Pick(size, p[0].index) && 0 <= k < |items|
    ensures items[k] == LoadItem(k, js[k]) && ItemLoadable(js[k])
    ensures UpdateArray(items, size, js, p, v) ==
      if |p| == 1 then UpdateItem(items, size, js, k, v)
      else if items[k].ItemField? then Items(Failed, false, items, size, js)
      else
        var r := Update(items[k].kids, js[k].members, p[1..], v);
        Items(r.out, false, items[k := items[k].(kids := r.kids)], size, js[k := Obj(r.ms)])
  {
    assert items[k] == LoadItem(k, js[k]) && ItemLoadable(js[k]);
  }

  lemma {:induction false} UpdateArrayAgrees(items: seq<Item>, size: int, js: seq<Json>, p: seq<Seg>, v: string)
    requires AgreeItems(items, size, js) && Tail(p) && (v == DELETED || Loads(BuiltIn(items, size, p)))
      && |v| < MAX_VALUE
    ensures var r := UpdateArray(items, size, js, p, v); AgreeItems(r.items, r.size, r.js)
    decreases |p|, 0
  {
    var index := p[0].index;
    if index == size || index == SYM_ADD {
      if v != DELETED { AppendItemAgrees(items, size, js, p, v); }
    } else if index == SYM_ENTIRE {
      NoneAgree();
    } else {
      var k := Pick(size, index);
      if k >= 0 {
        assert items[k] == LoadItem(k, js[k]) && ItemLoadable(js[k]);
        if |p| == 1 {
          UpdateItemAgrees(items, size, js, k, v);
        } else if items[k].ItemScope? {
          UpdateAgrees(items[k].kids, js[k].members, p[1..], v);
          var r := Update(items[k].kids, js[k].members, p[1..], v);
          AgreeItemsSet(items, size, js, k, ItemScope(k, r.kids), Obj(r.ms));
        }
      }
    }
  }

  /** Deleting item k: later items move down one place, labels, size and JSON positions with them. */
  lemma {:induction false} UpdateItemAgrees(items: seq<Item>, size: int, js: seq<Json>, k: nat, v: string)
    requires AgreeItems(items, size, js) && |v| < MAX_VALUE && k < |js|
    ensures var r := UpdateItem(items, size, js, k, v); AgreeItems(r.items, r.size, r.js)
  {
    if v == DELETED {
      DropItemAgrees(items, js, k);
    } else if js[k].Str? {
      AgreeItemsSet(items, size, js, k, ItemField(k, v), Str(v));
    }
  }

  lemma {:induction false} DropItemAgrees(items: seq<Item>, js: seq<Json>, k: nat)
    requires AgreeItems(items, |js|, js) && k < |js|
    ensures AgreeItems(DropItem(items, k), |js| - 1, Without(js, k))
  {
    var r, w := DropItem(items, k), Without(js, k);
    forall j | 0 <= j < |w| ensures ItemLoadable(w[j]) && r[j] == LoadItem(j, w[j]) {
      DroppedAt(items, js, k, j);
    }
    assert r == LoadItems(w);
  }

  lemma {:induction false} DroppedAt(items: seq<Item>, js: seq<Json>, k: nat, j: nat)
    requires AgreeItems(items, |js|, js) && k < |js| && j < |js| - 1
    ensures var v := Without(js, k)[j]; ItemLoadable(v) && DropItem(items, k)[j] == LoadItem(j, v)
  {
    var i := if j < k then j else j + 1;
    assert ItemLoadable(js[i]) && items[i] == LoadItem(i, js[i]);
    if j >= k { Relabelled(j, js[i]); }
  }

  lemma {:induction false} Relabelled(j: nat, v: Json)
    requires ShapedItem(v)
    ensures LoadItem(j + 1, v).(no := j) == LoadItem(j, v) && LoadItem(j + 1, v).no == j + 1
  {
  }
}

/**
 The configuration tree: an index of nodes over the JSON tree of every archive, the loader that builds
 the index from JSON, and the path search that reads it.
 */
module ConfigModel {
  import opened Basics
  import opened JsonValue
  import opened Decimals

  // ---- Names and values ----

  const MAX_NAME: nat := 192
  const MAX_VALUE: nat := 256
  const MAX_ITEMS: int := 256
  const DELETED: string := "deleted"
  const OUT_OF_LIMIT: string := "(jessldr:out-of-limit)"
  const INVALID: string := ".[]$?,%#+="

  /** Index symbols lie above every plain index; an array is smaller than that. */
  const SYM: int := 0x7FFFFF00
  const SYM_LAST: int := 0x7FFFFF24
  const SYM_SIZE: int := 0x7FFFFF3F
  const SYM_ADD: int := 0x7FFFFF2B
  const SYM_ENTIRE: int := 0x7FFFFF2A

  /** A name the loader accepts and keeps whole. */
  predicate NameOk(s: string) {
    0 < |s| < MAX_NAME && !HasInvalid(s)
  }

  predicate HasInvalid(s: string) {
    exists i :: 0 <= i < |s| && s[i] in INVALID
  }

  /** A value as the loader shows it: too long a string is cut and marked. */
  function Shown(s: string, keep: nat): string
    requires keep <= MAX_VALUE
  {
    if |s| >= MAX_VALUE then s[..keep] + OUT_OF_LIMIT else s
  }

  // ---- The index ----

  datatype Node =
    | Field(name: string, value: string)
    | Scope(name: string, kids: seq<Node>)
    | Array(name: string, items: seq<Item>, size: int)

  /** An array item carries its own number as its scope name. */
  datatype Item = ItemScope(no: int, kids: seq<Node>) | ItemField(no: int, value: string)

  /** The first node with a name, or -1: a search of the level's AVL tree. */
  function Find(kids: seq<Node>, name: string): (i: int)
    ensures -1 <= i < |kids|
    ensures i >= 0 ==> Same(kids[i].name, name) && forall j :: 0 <= j < i ==> !Same(kids[j].name, name)
    ensures i == -1 ==> forall j :: 0 <= j < |kids| ==> !Same(kids[j].name, name)
  {
    if kids == [] then -1
    else if Same(kids[0].name, name) then 0
    else var i := Find(kids[1..], name); if i < 0 then -1 else i + 1
  }

  /** The first member with a name, or -1: `get_object_item` without case. */
  function FindMember(ms: seq<Member>, name: string): (i: int)
    ensures -1 <= i < |ms|
    ensures i >= 0 ==> Same(ms[i].name, name) && forall j :: 0 <= j < i ==> !Same(ms[j].name, name)
    ensures i == -1 ==> forall j :: 0 <= j < |ms| ==> !Same(ms[j].name, name)
  {
    if ms == [] then -1
    else if Same(ms[0].name, name) then 0
    else var i := FindMember(ms[1..], name); if i < 0 then -1 else i + 1
  }

  // ---- The loader ----

  /** Every array item is an object or a string; the loader gives any other item no proper node. */
  predicate Shaped(ms: seq<Member>) {
    forall i :: 0 <= i < |ms| ==> ShapedValue(ms[i].value)
  }

  predicate ShapedValue(v: Json) {
    match v
    case Obj(ms) => Shaped(ms)
    case Arr(items) => forall i :: 0 <= i < |items| ==> ShapedItem(items[i])
    case _ => true
  }

  predicate ShapedItem(v: Json) {
    match v
    case Str(_) => true
    case Obj(ms) => Shaped(ms)
    case _ => false
  }

  /** `ldr_organize_scope_name`: a bad character scraps the name, too long a name is cut and marked. */
  function SavedName(s: string): Option<string> {
    var kept := if |s| >= MAX_NAME then s[..MAX_NAME - 1] else s;
    if s == [] || HasInvalid(kept) then None
    else if |s| >= MAX_NAME then Some(s[..24] + OUT_OF_LIMIT)
    else Some(s)
  }

  /** `ldr_next_misc`: members in order; one whose name is already indexed stays out. */
  function Load(ms: seq<Member>): (kids: seq<Node>)
    requires Shaped(ms)
    decreases ms, 2
  {
    if ms == [] then [] else
    var m := ms[|ms| - 1];
    var before := Load(ms[..|ms| - 1]);
    match LoadNode(m.name, m.value)
    case None => before
    case Some(n) => if Find(before, n.name) >= 0 then before else before + [n]
  }

  function LoadNode(name: string, v: Json): (n: Option<Node>)
    requires ShapedValue(v)
    decreases v, 1
  {
    match v
    case Arr(items) => Some(Array(name, LoadItems(items), |items|))
    case Str(s) =>
      (match SavedName(name)
       case None => None
       case Some(saved) => Some(Field(saved, Shown(s, 24))))
    case Obj(ms) =>
      (match SavedName(name)
       case None => None
       case Some(saved) => Some(Scope(saved, Load(ms))))
    case _ => None
  }

  function LoadItems(items: seq<Json>): (r: seq<Item>)
    requires forall i :: 0 <= i < |items| ==> ShapedItem(items[i])
    ensures |r| == |items|
    ensures forall i :: 0 <= i < |items| ==> r[i] == LoadItem(i, items[i])
    decreases items, 2
  {
    seq(|items|, i requires 0 <= i < |items| => LoadItem(i, items[i]))
  }

  function LoadItem(no: nat, v: Json): Item
    requires ShapedItem(v)
    decreases v, 1
  {
    match v
    case Str(s) => ItemField(no, Shown(s, 64))
    case Obj(ms) => ItemScope(no, Load(ms))
  }

  // ---- What is loaded without loss ----

  predicate Unique(ms: seq<Member>) {
    forall i, j :: 0 <= i < j < |ms| ==> !Same(ms[i].name, ms[j].name)
  }

  /** The loader keeps this member under its own name: an array's name is not inspected. */
  predicate Kept(m: Member) {
    match m.value
    case Arr(_) => 0 < |m.name| < MAX_NAME
    case Str(_) => NameOk(m.name)
    case Obj(_) => NameOk(m.name)
    case _ => false
  }

  predicate Flat(ms: seq<Member>) {
    Unique(ms) && forall i :: 0 <= i < |ms| ==> Kept(ms[i])
  }

  /** Every object has distinct good names, and every leaf is a string. */
  predicate Loadable(ms: seq<Member>)
    ensures Loadable(ms) ==> Shaped(ms)
  {
    Flat(ms) && forall i :: 0 <= i < |ms| ==> ValueLoadable(ms[i].value)
  }

  predicate ValueLoadable(v: Json)
    ensures ValueLoadable(v) ==> ShapedValue(v)
  {
    match v
    case Str(_) => true
    case Obj(ms) => Loadable(ms)
    case Arr(items) => |items| < SYM && forall i :: 0 <= i < |items| ==> ItemLoadable(items[i])
    case _ => false
  }

  predicate ItemLoadable(v: Json)
    ensures ItemLoadable(v) ==> ShapedItem(v)
  {
    match v
    case Str(_) => true
    case Obj(ms) => Loadable(ms)
    case _ => false
  }

  lemma {:induction false} KeptNode(m: Member)
    requires Kept(m) && ShapedValue(m.value)
    ensures LoadNode(m.name, m.value).Some? && LoadNode(m.name, m.value).value.name == m.name
  {
  }

  /** One node per member, in order, when the names are good and distinct. */
  lemma {:induction false} Indexed(ms: seq<Member>)
    requires Flat(ms) && Shaped(ms)
    ensures |Load(ms)| == |ms|
    ensures forall i :: 0 <= i < |ms| ==>
      Load(ms)[i].name == ms[i].name
      && LoadNode(ms[i].name, ms[i].value) == Some(Load(ms)[i])
  {
    if ms != [] {
      var n := |ms| - 1;
      Indexed(ms[..n]);
      KeptNode(ms[n]);
      LastIndexed(ms, Load(ms[..n]), LoadNode(ms[n].name, ms[n].value).value);
    }
  }

  lemma {:induction false} LastIndexed(ms: seq<Member>, before: seq<Node>, last: Node)
    requires Flat(ms) && Shaped(ms) && |ms| > 0 && |before| == |ms| - 1 && before == Load(ms[..|ms| - 1])
    requires forall i :: 0 <= i < |before| ==>
      before[i].name == ms[..|ms| - 1][i].name
      && LoadNode(ms[..|ms| - 1][i].name, ms[..|ms| - 1][i].value) == Some(before[i])
    requires LoadNode(ms[|ms| - 1].name, ms[|ms| - 1].value) == Some(last) && last.name == ms[|ms| - 1].name
    ensures Load(ms) == before + [last]
    ensures forall i :: 0 <= i < |ms| ==>
      Load(ms)[i].name == ms[i].name
      && LoadNode(ms[i].name, ms[i].value) == Some(Load(ms)[i])
  {
    var n := |ms| - 1;
    forall i | 0 <= i < n ensures before[i].name == ms[i].name && !Same(before[i].name, last.name) {
      assert ms[..n][i] == ms[i];
    }
    forall i | 0 <= i < |ms|
      ensures (before + [last])[i].name == ms[i].name && LoadNode(ms[i].name, ms[i].value) == Some((before + [last])[i])
    {
      if i < n { assert ms[..n][i] == ms[i]; }
    }
  }

  /** A loaded level answers to a name exactly where the JSON object does. */
  lemma {:induction false} FindBoth(ms: seq<Member>, name: string)
    requires Flat(ms) && Shaped(ms)
    ensures Find(Load(ms), name) == FindMember(ms, name)
  {
    Indexed(ms);
  }

  // ---- Reading ----

  datatype Kind = DIR | ARCHIVE | LOGIC | ARRAY | FIELD

  /** One segment of a request path; index -1 where the segment has no brackets. */
  datatype Seg = Seg(name: string, index: int, kind: Kind)

  /** Which item an index reaches, or -1. */
  function Pick(size: int, index: int): (k: int)
    ensures k >= 0 ==> k < size
    ensures k >= 0 ==> index == SYM_LAST || k == index
  {
    if index == SYM_LAST then (if size > 0 then size - 1 else -1)
    else if 0 <= index < size then index
    else -1
  }

  /** `rt_search` from one level of the index. */
  function Search(kids: seq<Node>, p: seq<Seg>): Option<string>
    requires |p| > 0
    decreases |p|, 3
  {
    var i := Find(kids, p[0].name);
    if i < 0 then None else SearchNode(kids[i], p)
  }

  function SearchNode(n: Node, p: seq<Seg>): Option<string>
    requires |p| > 0
    decreases |p|, 2
  {
    match n
    case Field(_, value) => if |p| == 1 && p[0].kind == FIELD then Some(value) else None
    case Scope(_, sub) => if |p| == 1 || p[0].kind != LOGIC then None else Search(sub, p[1..])
    case Array(_, items, size) => SearchArray(items, size, p)
  }

  function SearchArray(items: seq<Item>, size: int, p: seq<Seg>): Option<string>
    requires |p| > 0
    decreases |p|, 1
  {
    if p[0].kind != ARRAY || items == [] || size <= 0 then None
    else if p[0].index == SYM_SIZE then (if |p| == 1 then Some(Decimal(size)) else None)
    else if p[0].index == SYM_ADD || p[0].index == SYM_ENTIRE then None
    else
      var k := Pick(size, p[0].index);
      if 0 <= k < |items| then SearchItem(items[k], p) else None
  }

  function SearchItem(item: Item, p: seq<Seg>): Option<string>
    requires |p| > 0
    decreases |p|, 0
  {
    match item
    case ItemScope(_, sub) => if |p| == 1 then None else Search(sub, p[1..])
    case ItemField(_, value) => if |p| == 1 then Some(value) else None
  }
}

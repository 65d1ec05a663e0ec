/**
 Which names may be written. A request key may hold characters that the loader refuses in a name, so a
 write can create an entry that a reload would lose; this module says exactly when.
 */
module ConfigNames {
  import opened Basics
  import opened JsonValue
  import opened ConfigModel
  import opened ConfigUpdate

  lemma {:induction false} AppendShaped(kids: seq<Node>, ms: seq<Member>, p: seq<Seg>, v: string)
    requires Shaped(ms)
    ensures Shaped(AppendKids(kids, ms, p, v).ms)
    decreases |p|
  {
    if p != [] {
      if p[0].kind == LOGIC {
        AppendShaped([], [], p[1..], v);
      } else if p[0].kind == ARRAY && |p| > 1 {
        AppendShaped([], [], p[1..], v);
      }
    }
  }

  lemma {:induction false} LoadSnoc(ms: seq<Member>, m: Member)
    requires ShapedValue(m.value) && Shaped(ms)
    ensures Shaped(ms + [m])
    ensures var n := LoadNode(m.name, m.value);
      Load(ms + [m]) == if n.Some? && Find(Load(ms), n.value.name) < 0 then Load(ms) + [n.value] else Load(ms)
  {
    assert (ms + [m])[..|ms|] == ms;
    assert (ms + [m])[|ms|] == m;
  }

  lemma {:induction false} BadName(s: string)
    requires 0 < |s| < MAX_NAME && !NameOk(s)
    ensures SavedName(s) == None
  {
  }

  /** An append that creates a name the loader refuses is lost by a reload, even where the append then fails. */
  lemma {:induction false} AppendLost(kids: seq<Node>, ms: seq<Member>, p: seq<Seg>, v: string)
    requires Agree(kids, ms) && Tail(p) && Find(kids, p[0].name) < 0 && !Loads(BuiltNew(p))
    ensures var r := AppendKids(kids, ms, p, v); Shaped(r.ms) && r.kids != Load(r.ms)
    decreases |p|, 2
  {
    var r := AppendKids(kids, ms, p, v);
    AppendShaped(kids, ms, p, v);
    var m := r.ms[|ms|];
    assert r.ms == ms + [m] && Shaped(r.ms) && ShapedValue(m.value);
    LoadSnoc(ms, m);
    AppendedLost(kids, ms, p, v);
    assert r.kids[|kids|].name == p[0].name == m.name;
  }

  lemma {:induction false} BuiltFirst(p: seq<Seg>)
    requires p != [] && !Loads(BuiltNew(p))
    ensures p[0].kind == ARRAY || NameOk(p[0].name) ==> p[0].kind != FIELD && !Loads(BuiltNew(p[1..]))
  {
    var b := BuiltNew(p);
    assert b != [] ==> b[0] == p[0];
    assert b == [] || p[0].kind == FIELD || b[1..] == BuiltNew(p[1..]);
  }

  lemma {:induction false} AppendedLost(kids: seq<Node>, ms: seq<Member>, p: seq<Seg>, v: string)
    requires Agree(kids, ms) && Tail(p) && Find(kids, p[0].name) < 0 && !Loads(BuiltNew(p))
    ensures var r := AppendKids(kids, ms, p, v);
      && |r.kids| == |kids| + 1 && |r.ms| == |ms| + 1 && ShapedValue(r.ms[|ms|].value)
      && LoadNode(p[0].name, r.ms[|ms|].value) != Some(r.kids[|kids|])
    decreases |p|, 1
  {
    NoneAgree();
    AppendShaped(kids, ms, p, v);
    BuiltFirst(p);
    assert ShapedValue(AppendKids(kids, ms, p, v).ms[|ms|].value);
    if p[0].kind == ARRAY {
      AppendItemLost([], 0, [], p, v);
    } else if NameOk(p[0].name) {
      AppendLost([], [], p[1..], v);
    } else {
      BadName(p[0].name);
    }
  }

  lemma {:induction false} AppendItemLost(items: seq<Item>, size: int, js: seq<Json>, p: seq<Seg>, v: string)
    requires AgreeItems(items, size, js) && Tail(p) && (p[0].index == size || p[0].index == SYM_ADD)
    requires size < MAX_ITEMS && !Loads(BuiltNew(p[1..]))
    ensures var r := AppendItem(items, size, js, p, v);
      (forall i :: 0 <= i < |r.js| ==> ShapedItem(r.js[i])) && r.items != LoadItems(r.js)
    decreases |p|, 0
  {
    NoneAgree();
    var r := AppendItem(items, size, js, p, v);
    AppendLost([], [], p[1..], v);
    ItemLost(r.items, r.js, size);
  }

  /** One item that a reload would build differently is enough. */
  lemma {:induction false} ItemLost(items: seq<Item>, js: seq<Json>, k: nat)
    requires k < |items| == |js| && (forall i :: 0 <= i < |js| ==> ShapedItem(js[i])) && items[k] != LoadItem(k, js[k])
    ensures items != LoadItems(js)
  {
  }

  /**
   A write, done or failed, leaves the index as a reload would build it exactly when it deletes or every
   segment it creates has a name the loader keeps.
   */
  lemma {:induction false} AgreesIff(kids: seq<Node>, ms: seq<Member>, p: seq<Seg>, v: string)
    requires Agree(kids, ms) && Tail(p) && |v| < MAX_VALUE
    ensures var r := Update(kids, ms, p, v);
      Shaped(r.ms) && (r.kids == Load(r.ms) <==> v == DELETED || Loads(Built(kids, p)))
  {
    if v == DELETED || Loads(Built(kids, p)) { UpdateAgrees(kids, ms, p, v); } else { UpdateLost(kids, ms, p, v); }
  }

  lemma {:induction false} UpdateLost(kids: seq<Node>, ms: seq<Member>, p: seq<Seg>, v: string)
    requires Agree(kids, ms) && Tail(p) && v != DELETED
    requires !Loads(Built(kids, p))
    ensures var r := Update(kids, ms, p, v); Shaped(r.ms) && r.kids != Load(r.ms)
    decreases |p|, 3
  {
    var i := Find(kids, p[0].name);
    FindBoth(ms, p[0].name);
    AgreeAt(kids, ms);
    if i < 0 {
      AppendLost(kids, ms, p, v);
    } else {
      var r := UpdateNode(kids[i], ms[i].value, p, v);
      UpdateNodeLost(kids[i], ms[i], p, v);
      var after := Put(ms, i, r.json);
      assert Flat(after) && Shaped(after);
      Indexed(after);
      assert after[i] == Member(ms[i].name, r.json);
    }
  }

  lemma {:induction false} UpdateNodeLost(n: Node, m: Member, p: seq<Seg>, v: string)
    requires AgreeNode(n, m) && Tail(p) && v != DELETED
    requires !Loads(BuiltAt(n, p))
    ensures var r := UpdateNode(n, m.value, p, v);
      && !r.gone && Kept(Member(m.name, r.json)) && ShapedValue(r.json)
      && LoadNode(m.name, r.json) != Some(r.node)
    decreases |p|, 2
  {
    match n
    case Field(_, _) =>
    case Scope(_, sub) => UpdateLost(sub, m.value.members, p[1..], v);
    case Array(_, items, size) => UpdateArrayLost(items, size, m.value.items, p, v);
  }

  lemma {:induction false} UpdateArrayLost(items: seq<Item>, size: int, js: seq<Json>, p: seq<Seg>, v: string)
    requires AgreeItems(items, size, js) && Tail(p) && v != DELETED
    requires !Loads(BuiltIn(items, size, p))
    ensures var r := UpdateArray(items, size, js, p, v);
      !r.gone && (forall i :: 0 <= i < |r.js| ==> ShapedItem(r.js[i])) && r.items != LoadItems(r.js)
    decreases |p|, 1
  {
    if p[0].index == size || p[0].index == SYM_ADD {
      AppendItemLost(items, size, js, p, v);
    } else {
      ReachedLost(items, size, js, p, v, Pick(size, p[0].index));
    }
  }

  lemma {:induction false} ReachedLost(items: seq<Item>, size: int, js: seq<Json>, p: seq<Seg>, v: string, k: int)
    requires AgreeItems(items, size, js) && Tail(p) && v != DELETED && p[0].index != size && p[0].index != SYM_ADD
    requires k == Pick(size, p[0].index) && !Loads(BuiltIn(items, size, p))
    ensures var r := UpdateArray(items, size, js, p, v);
      !r.gone && (forall i :: 0 <= i < |r.js| ==> ShapedItem(r.js[i])) && r.items != LoadItems(r.js)
    decreases |p|, 0
  {
    assert 0 <= k < |items| && items[k].ItemScope? && |p| > 1 && !Loads(Built(items[k].kids, p[1..]));
    assert items[k] == LoadItem(k, js[k]) && ItemLoadable(js[k]);
    var u := Update(items[k].kids, js[k].members, p[1..], v);
    UpdateLost(items[k].kids, js[k].members, p[1..], v);
    var items', js' := items[k := ItemScope(k, u.kids)], js[k := Obj(u.ms)];
    ItemLost(items', js', k);
    assert UpdateArray(items, size, js, p, v) == Items(u.out, false, items', size, js');
  }

  /** A segment with a `#` is accepted in a key and refused by the loader. */
  predicate Hashed(s: Seg) {
    1 < |s.name| && s.name[1] == '#' && s.kind != ARRAY
  }

  lemma {:induction false} HashedRefused(s: Seg)
    requires Hashed(s)
    ensures !NameOk(s.name)
  {
    assert INVALID[7] == '#';
    assert s.name[1] in INVALID;
  }

  lemma {:induction false} HashedLost(p: seq<Seg>, v: string)
    requires Tail(p) && Hashed(p[0])
    ensures var r := Update([], [], p, v);
      v != DELETED ==> r == AppendKids([], [], p, v) && Shaped(r.ms) && r.kids != Load(r.ms)
  {
    HashedRefused(p[0]);
    assert BuiltNew(p)[0] == p[0];
    NoneAgree();
    AppendLost([], [], p, v);
  }

  /**
   A concrete loss: `a#b` is a legal key segment and an illegal name for the loader, so its value is not read
   after a reload.
   */
  lemma {:induction false} LossExample()
    ensures var p := [Seg("a#b", -1, FIELD)];
      var r := Update([], [], p, "1");
      && Tail(p) && r.out == Done && r.kids == [Field("a#b", "1")] && Search(r.kids, p) == Some("1")
      && Shaped(r.ms) && Load(r.ms) == [] && Search(Load(r.ms), p) == None
  {
    var p := [Seg("a#b", -1, FIELD)];
    HashedRefused(p[0]);
    BadName("a#b");
    LoadSnoc([], Member("a#b", Str("1")));
    assert [] + [Member("a#b", Str("1"))] == [Member("a#b", Str("1"))];
  }

  /** A write that fails below such a name has already left it in the index. */
  lemma {:induction false} FailedLossExample()
    ensures var p := [Seg("a#b", -1, LOGIC), Seg("x", 5, ARRAY)];
      var r := Update([], [], p, "1");
      Tail(p) && r.out == Failed && r.kids == [Scope("a#b", [])] && Shaped(r.ms) && r.kids != Load(r.ms)
  {
    var p := [Seg("a#b", -1, LOGIC), Seg("x", 5, ARRAY)];
    assert p[1..] == [Seg("x", 5, ARRAY)];
    HashedLost(p, "1");
  }
}

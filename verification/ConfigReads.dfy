/**
 What a reload changes for reads. A write that creates a name the loader refuses is taken back by a reload:
 every plain path then answers as before the write.
 */
module ConfigReads {
  import opened Basics
  import opened JsonValue
  import opened ConfigModel
  import opened ConfigUpdate
  import opened ConfigLaws
  import opened ConfigNames

  // ---- A reload takes the write back ----

  lemma {:induction false} AppendTakenBack(kids: seq<Node>, ms: seq<Member>, p: seq<Seg>, v: string, q: seq<Seg>)
    requires Agree(kids, ms) && Tail(p) && Find(kids, p[0].name) < 0 && !Loads(BuiltNew(p)) && |q| > 0 && Numeric(q)
    ensures var r := AppendKids(kids, ms, p, v); Shaped(r.ms) && Search(Load(r.ms), q) == Search(kids, q)
    decreases |p|, 2
  {
    var r := AppendKids(kids, ms, p, v);
    AppendShaped(kids, ms, p, v);
    AppendedLost(kids, ms, p, v);
    var m := r.ms[|ms|];
    assert r.ms == ms + [m] && m.name == p[0].name;
    LoadSnoc(ms, m);
    var n := LoadNode(m.name, m.value);
    if n.Some? && Find(kids, n.value.name) < 0 {
      FindSnoc(kids, n.value, q[0].name);
      NewNodeSilent(kids, ms, p, v, q);
    }
  }

  /** What a reload keeps of an append answers to nothing. */
  lemma {:induction false} NewNodeSilent(kids: seq<Node>, ms: seq<Member>, p: seq<Seg>, v: string, q: seq<Seg>)
    requires Agree(kids, ms) && Tail(p) && Find(kids, p[0].name) < 0 && !Loads(BuiltNew(p)) && |q| > 0 && Numeric(q)
    ensures var r := AppendKids(kids, ms, p, v);
      && |r.ms| == |ms| + 1 && ShapedValue(r.ms[|ms|].value)
      && var n := LoadNode(p[0].name, r.ms[|ms|].value); n.Some? ==> SearchNode(n.value, q) == None
    decreases |p|, 1
  {
    NoneAgree();
    BuiltFirst(p);
    AppendedLost(kids, ms, p, v);
    if p[0].kind == ARRAY {
      ItemTakenBack([], 0, [], p, v, q);
    } else if !NameOk(p[0].name) {
      BadName(p[0].name);
    } else if |q| > 1 {
      AppendTakenBack([], [], p[1..], v, q[1..]);
    }
  }

  predicate AllShapedItems(js: seq<Json>) {
    forall i :: 0 <= i < |js| ==> ShapedItem(js[i])
  }

  lemma {:induction false} LoadItemsAdd(js: seq<Json>, ms: seq<Member>)
    requires AllShapedItems(js) && Shaped(ms)
    ensures AllShapedItems(js + [Obj(ms)]) && LoadItems(js + [Obj(ms)]) == LoadItems(js) + [ItemScope(|js|, Load(ms))]
  {
  }

  lemma {:induction false} LoadItemsSet(js: seq<Json>, k: nat, ms: seq<Member>)
    requires AllShapedItems(js) && Shaped(ms) && k < |js|
    ensures AllShapedItems(js[k := Obj(ms)])
    ensures LoadItems(js[k := Obj(ms)]) == LoadItems(js)[k := ItemScope(k, Load(ms))]
  {
  }

  /** A new object item in which nothing is found answers to no plain path. */
  lemma {:induction false} ItemAdded(items: seq<Item>, size: int, kids: seq<Node>, q: seq<Seg>)
    requires size == |items| < SYM && |q| > 0 && q[0].index < SYM
    requires q[0].index == size && |q| > 1 ==> Search(kids, q[1..]) == None
    ensures SearchArray(items + [ItemScope(size, kids)], size + 1, q) == SearchArray(items, size, q)
  {
    var k := Pick(size + 1, q[0].index);
    if 0 <= k < size { assert (items + [ItemScope(size, kids)])[k] == items[k]; }
  }

  lemma {:induction false} ItemSwapped(items: seq<Item>, size: int, k: nat, kids: seq<Node>, q: seq<Seg>)
    requires size == |items| < SYM && k < size && items[k].ItemScope? && |q| > 0 && q[0].index < SYM
    requires |q| > 1 ==> Search(kids, q[1..]) == Search(items[k].kids, q[1..])
    ensures SearchArray(items[k := ItemScope(k, kids)], size, q) == SearchArray(items, size, q)
  {
    assert q[0].index != k ==> items[k := ItemScope(k, kids)] != [];
  }

  lemma {:induction false} ItemTakenBack(items: seq<Item>, size: int, js: seq<Json>, p: seq<Seg>, v: string,
      q: seq<Seg>)
    requires AgreeItems(items, size, js) && Tail(p) && (p[0].index == size || p[0].index == SYM_ADD)
    requires size < MAX_ITEMS && !Loads(BuiltNew(p[1..])) && |q| > 0 && Numeric(q)
    ensures var r := AppendItem(items, size, js, p, v);
      AllShapedItems(r.js) && |r.js| == r.size && SearchArray(LoadItems(r.js), r.size, q) == SearchArray(items, size, q)
    decreases |p|, 0
  {
    NoneAgree();
    AppendLost([], [], p[1..], v);
    var below := AppendKids([], [], p[1..], v);
    if |q| > 1 { AppendTakenBack([], [], p[1..], v, q[1..]); }
    EmptyItem(items, size, js, below.ms, q);
    AppendedItem(items, size, js, p, v);
  }

  lemma {:induction false} EmptyItem(items: seq<Item>, size: int, js: seq<Json>, ms: seq<Member>, q: seq<Seg>)
    requires AgreeItems(items, size, js) && Shaped(ms) && |q| > 0 && q[0].index < SYM
    requires |q| > 1 ==> Search(Load(ms), q[1..]) == None
    ensures AllShapedItems(js + [Obj(ms)])
    ensures SearchArray(LoadItems(js + [Obj(ms)]), size + 1, q) == SearchArray(items, size, q)
  {
    LoadItemsAdd(js, ms);
    ItemAdded(items, size, Load(ms), q);
  }

  lemma {:induction false} AppendedItem(items: seq<Item>, size: int, js: seq<Json>, p: seq<Seg>, v: string)
    requires 0 <= size < MAX_ITEMS && |p| > 1 && (p[0].index == size || p[0].index == SYM_ADD)
    ensures AppendItem(items, size, js, p, v).js == js + [Obj(AppendKids([], [], p[1..], v).ms)]
    ensures AppendItem(items, size, js, p, v).size == size + 1
  {
  }

  /** Whatever its outcome, a write that creates a refused name is gone for every plain read after a reload. */
  lemma {:induction false} TakenBack(kids: seq<Node>, ms: seq<Member>, p: seq<Seg>, v: string, q: seq<Seg>)
    requires Agree(kids, ms) && Tail(p) && v != DELETED && !Loads(Built(kids, p)) && |q| > 0 && Numeric(q)
    ensures var r := Update(kids, ms, p, v); Shaped(r.ms) && Search(Load(r.ms), q) == Search(kids, q)
    decreases |p|, 3
  {
    var i := Find(kids, p[0].name);
    FindBoth(ms, p[0].name);
    AgreeAt(kids, ms);
    if i < 0 {
      AppendTakenBack(kids, ms, p, v, q);
    } else {
      var r := UpdateNode(kids[i], ms[i].value, p, v);
      UpdateNodeLost(kids[i], ms[i], p, v);
      LoadPut(kids, ms, i, r.json);
      var n := LoadNode(ms[i].name, r.json).value;
      SearchSet(kids, i, n, q);
      if Find(kids, q[0].name) == i { NodeTakenBack(kids[i], ms[i], p, v, q); }
    }
  }

  /** Loading a level one of whose values was replaced. */
  lemma {:induction false} LoadPut(kids: seq<Node>, ms: seq<Member>, i: nat, v: Json)
    requires Agree(kids, ms) && i < |kids| == |ms| && Kept(Member(ms[i].name, v)) && ShapedValue(v)
    ensures var n := LoadNode(ms[i].name, v);
      Shaped(Put(ms, i, v)) && n.Some? && n.value.name == kids[i].name && Load(Put(ms, i, v)) == kids[i := n.value]
  {
    var after := Put(ms, i, v);
    AgreeAt(kids, ms);
    KeptNode(Member(ms[i].name, v));
    assert Flat(after) && Shaped(after);
    Indexed(after);
    Indexed(ms);
  }

  lemma {:induction false} NodeTakenBack(n: Node, m: Member, p: seq<Seg>, v: string, q: seq<Seg>)
    requires AgreeNode(n, m) && Tail(p) && v != DELETED && !Loads(BuiltAt(n, p)) && |q| > 0 && Numeric(q)
    ensures var r := UpdateNode(n, m.value, p, v);
      && ShapedValue(r.json) && LoadNode(m.name, r.json).Some?
      && SearchNode(LoadNode(m.name, r.json).value, q) == SearchNode(n, q)
    decreases |p|, 2
  {
    UpdateNodeLost(n, m, p, v);
    KeptNode(Member(m.name, UpdateNode(n, m.value, p, v).json));
    match n
    case Field(_, _) =>
    case Scope(_, sub) =>
      if |q| > 1 { TakenBack(sub, m.value.members, p[1..], v, q[1..]); }
    case Array(_, items, size) => ArrayTakenBack(items, size, m.value.items, p, v, q);
  }

  lemma {:induction false} ArrayTakenBack(items: seq<Item>, size: int, js: seq<Json>, p: seq<Seg>, v: string,
      q: seq<Seg>)
    requires AgreeItems(items, size, js) && Tail(p) && v != DELETED && !Loads(BuiltIn(items, size, p))
    requires |q| > 0 && Numeric(q)
    ensures var r := UpdateArray(items, size, js, p, v);
      && AllShapedItems(r.js) && |r.js| == r.size
      && SearchArray(LoadItems(r.js), r.size, q) == SearchArray(items, size, q)
    decreases |p|, 1
  {
    if p[0].index == size || p[0].index == SYM_ADD {
      ItemTakenBack(items, size, js, p, v, q);
    } else {
      BelowTakenBack(items, size, js, p, v, q, Pick(size, p[0].index));
    }
  }

  lemma {:induction false} BelowTakenBack(items: seq<Item>, size: int, js: seq<Json>, p: seq<Seg>, v: string,
      q: seq<Seg>, k: int)
    requires AgreeItems(items, size, js) && Tail(p) && v != DELETED && !Loads(BuiltIn(items, size, p))
    requires |q| > 0 && Numeric(q) && p[0].index != size && p[0].index != SYM_ADD && k == Pick(size, p[0].index)
    ensures var r := UpdateArray(items, size, js, p, v);
      && AllShapedItems(r.js) && |r.js| == r.size
      && SearchArray(LoadItems(r.js), r.size, q) == SearchArray(items, size, q)
    decreases |p|, 0
  {
    assert 0 <= k < |items| && items[k].ItemScope? && |p| > 1 && !Loads(Built(items[k].kids, p[1..]));
    AtItem(items, size, js, p, v, k);
    var u := Update(items[k].kids, js[k].members, p[1..], v);
    UpdateLost(items[k].kids, js[k].members, p[1..], v);
    LoadItemsSet(js, k, u.ms);
    if |q| > 1 { TakenBack(items[k].kids, js[k].members, p[1..], v, q[1..]); }
    ItemSwapped(items, size, k, Load(u.ms), q);
  }

  // ---- The path a write creates was not readable before ----

  lemma {:induction false} NotThere(kids: seq<Node>, ms: seq<Member>, p: seq<Seg>)
    requires Agree(kids, ms) && Tail(p) && Built(kids, p) != []
    ensures Search(kids, Target(kids, p)) == None
    decreases |p|, 2
  {
    var i := Find(kids, p[0].name);
    AgreeAt(kids, ms);
    if i >= 0 { NotAt(kids[i], ms[i], p); }
  }

  lemma {:induction false} NotAt(n: Node, m: Member, p: seq<Seg>)
    requires AgreeNode(n, m) && Tail(p) && BuiltAt(n, p) != []
    ensures SearchNode(n, TargetNode(n, p)) == None
    decreases |p|, 1
  {
    var t := TargetNode(n, p);
    match n
    case Field(_, _) =>
    case Scope(_, sub) =>
      if |p| > 1 {
        assert t[1..] == Target(sub, p[1..]);
        NotThere(sub, m.value.members, p[1..]);
      }
    case Array(_, items, size) => NotIn(items, size, m.value.items, p);
  }

  lemma {:induction false} NotIn(items: seq<Item>, size: int, js: seq<Json>, p: seq<Seg>)
    requires AgreeItems(items, size, js) && Tail(p) && BuiltIn(items, size, p) != []
    ensures SearchArray(items, size, TargetArray(items, size, p)) == None
    decreases |p|, 0
  {
    if p[0].index != size && p[0].index != SYM_ADD {
      var k := Pick(size, p[0].index);
      assert items[k] == LoadItem(k, js[k]) && ItemLoadable(js[k]);
      if items[k].ItemScope? && |p| > 1 {
        assert TargetArray(items, size, p)[1..] == Target(items[k].kids, p[1..]);
        NotThere(items[k].kids, js[k].members, p[1..]);
      }
    }
  }

  // ---- The path that a successful write means is plain ----

  lemma {:induction false} FreshPlain(kids: seq<Node>, ms: seq<Member>, p: seq<Seg>, v: string)
    requires Tail(p) && AppendKids(kids, ms, p, v).out == Done
    ensures Numeric(Fresh(p))
    decreases |p|, 1
  {
    match p[0].kind
    case FIELD => assert |p| == 1;
    case LOGIC =>
      FreshPlain([], [], p[1..], v);
      FreshTail(p);
    case ARRAY =>
      ItemPlain([], 0, [], p, v);
      FreshTail(p);
    case _ => assert false;
  }

  lemma {:induction false} FreshTail(p: seq<Seg>)
    requires p != [] && Numeric(Fresh(p[1..])) && (p[0].index < SYM || p[0].index == SYM_ADD)
    ensures Numeric(Fresh(p))
  {
    forall i | 0 <= i < |p| ensures Fresh(p)[i].index < SYM {
      if i > 0 { assert Fresh(p)[i] == Fresh(p[1..])[i - 1]; }
    }
  }

  lemma {:induction false} ItemPlain(items: seq<Item>, size: int, js: seq<Json>, p: seq<Seg>, v: string)
    requires Tail(p) && AppendItem(items, size, js, p, v).out == Done
    ensures Numeric(Fresh(p[1..])) && (p[0].index == size || p[0].index == SYM_ADD) && size < MAX_ITEMS
    decreases |p|, 0
  {
    if |p| > 1 { FreshPlain([], [], p[1..], v); }
  }

  lemma {:induction false} NumericCons(s: Seg, rest: seq<Seg>)
    requires s.index < SYM && Numeric(rest)
    ensures Numeric([s] + rest)
  {
  }

  lemma {:induction false} TargetPlain(kids: seq<Node>, ms: seq<Member>, p: seq<Seg>, v: string)
    requires Agree(kids, ms) && Tail(p) && v != DELETED && Update(kids, ms, p, v).out == Done
    ensures Numeric(Target(kids, p))
    decreases |p|, 2
  {
    var i := Find(kids, p[0].name);
    FindBoth(ms, p[0].name);
    AgreeAt(kids, ms);
    if i < 0 { FreshPlain(kids, ms, p, v); } else { NodePlain(kids[i], ms[i], p, v); }
  }

  lemma {:induction false} NodePlain(n: Node, m: Member, p: seq<Seg>, v: string)
    requires AgreeNode(n, m) && Tail(p) && v != DELETED && UpdateNode(n, m.value, p, v).out == Done
    ensures Numeric(TargetNode(n, p))
    decreases |p|, 1
  {
    match n
    case Field(_, _) =>
    case Scope(_, sub) =>
      TargetPlain(sub, m.value.members, p[1..], v);
      NumericCons(p[0], Target(sub, p[1..]));
    case Array(_, items, size) => ArrayPlain(items, size, m.value.items, p, v);
  }

  lemma {:induction false} ArrayPlain(items: seq<Item>, size: int, js: seq<Json>, p: seq<Seg>, v: string)
    requires AgreeItems(items, size, js) && Tail(p) && v != DELETED && UpdateArray(items, size, js, p, v).out == Done
    ensures Numeric(TargetArray(items, size, p))
    decreases |p|, 0
  {
    var k := Pick(size, p[0].index);
    if p[0].index == size || p[0].index == SYM_ADD {
      ItemPlain(items, size, js, p, v);
      NumericCons(p[0].(index := size), Fresh(p[1..]));
    } else {
      AtItem(items, size, js, p, v, k);
      if |p| > 1 {
        TargetPlain(items[k].kids, js[k].members, p[1..], v);
        NumericCons(p[0].(index := k), Target(items[k].kids, p[1..]));
      }
    }
  }

  // ---- When reads agree with the reload ----

  /**
   A successful write that creates a refused name reads its value at its path; after a reload that path is
   unknown.
   */
  lemma {:induction false} LostRead(kids: seq<Node>, ms: seq<Member>, p: seq<Seg>, v: string)
    requires Agree(kids, ms) && Tail(p) && v != DELETED && !Loads(Built(kids, p)) && Update(kids, ms, p, v).out == Done
    ensures var r, t := Update(kids, ms, p, v), Target(kids, p);
      Shaped(r.ms) && Numeric(t) && Search(r.kids, t) == Some(v) && Search(Load(r.ms), t) == None
  {
    TargetPlain(kids, ms, p, v);
    ReadOverWrite(kids, ms, p, v);
    TakenBack(kids, ms, p, v, Target(kids, p));
    NotThere(kids, ms, p);
  }

  /**
   Every plain path reads the same before and after a reload exactly when the write deletes, does not get
   done, or creates only segments whose names the loader keeps.
   */
  lemma {:induction false} ReadsIff(kids: seq<Node>, ms: seq<Member>, p: seq<Seg>, v: string)
    requires Agree(kids, ms) && Tail(p) && |v| < MAX_VALUE
    ensures var r := Update(kids, ms, p, v);
      Shaped(r.ms) && ((forall q :: |q| > 0 && Numeric(q) ==> Search(r.kids, q) == Search(Load(r.ms), q)) <==>
        v == DELETED || r.out != Done || Loads(Built(kids, p)))
  {
    var r := Update(kids, ms, p, v);
    AgreesIff(kids, ms, p, v);
    if v != DELETED && !Loads(Built(kids, p)) {
      if r.out == Done {
        LostRead(kids, ms, p, v);
      } else {
        forall q: seq<Seg> | |q| > 0 && Numeric(q) ensures Search(r.kids, q) == Search(Load(r.ms), q) {
          Frame(kids, ms, p, v, q);
          TakenBack(kids, ms, p, v, q);
        }
      }
    }
  }
}

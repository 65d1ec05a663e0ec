/** What a write does to later reads: the written path reads the value, every other path is as before. */
module ConfigLaws {
  import opened Basics
  import opened JsonValue
  import opened ConfigModel
  import opened ConfigUpdate

  // ---- Paths ----

  /** Segments that hold plain indices only. */
  predicate Numeric(p: seq<Seg>) {
    forall i :: 0 <= i < |p| ==> p[i].index < SYM
  }

  predicate SameSeg(a: Seg, b: Seg) {
    Same(a.name, b.name) && (a.kind == ARRAY ==> a.index == b.index)
  }

  /** The two paths differ at most in letter case, and in kinds a read would refuse. */
  predicate SamePath(p: seq<Seg>, q: seq<Seg>) {
    |p| == |q| && forall i :: 0 <= i < |p| ==> SameSeg(p[i], q[i])
  }

  lemma {:induction false} SamePathStep(p: seq<Seg>, q: seq<Seg>)
    requires |p| > 0 && |q| > 0 && SameSeg(p[0], q[0])
    ensures SamePath(p, q) <==> SamePath(p[1..], q[1..])
  {
    if SamePath(p[1..], q[1..]) {
      forall i | 0 <= i < |p| ensures SameSeg(p[i], q[i]) {
        if i > 0 { assert SameSeg(p[1..][i - 1], q[1..][i - 1]); }
      }
    }
  }

  /** The path of a new entry: `+` counts as item 0 of a new array. */
  function Fresh(p: seq<Seg>): (r: seq<Seg>)
    ensures |r| == |p|
  {
    seq(|p|, i requires 0 <= i < |p| => if p[i].index == SYM_ADD then p[i].(index := 0) else p[i])
  }

  /** The plain path a write to p means: `$` is the last item, `+` the one after it. */
  function Target(kids: seq<Node>, p: seq<Seg>): (r: seq<Seg>)
    ensures |r| == |p|
    ensures p != [] ==> r[0].name == p[0].name
    decreases |p|, 2
  {
    if p == [] then [] else
    var i := Find(kids, p[0].name);
    if i < 0 then Fresh(p) else TargetNode(kids[i], p)
  }

  function TargetNode(n: Node, p: seq<Seg>): (r: seq<Seg>)
    requires |p| > 0
    ensures |r| == |p| && r[0].name == p[0].name
    decreases |p|, 1
  {
    match n
    case Field(_, _) => p
    case Scope(_, sub) => [p[0]] + Target(sub, p[1..])
    case Array(_, items, size) => TargetArray(items, size, p)
  }

  function TargetArray(items: seq<Item>, size: int, p: seq<Seg>): (r: seq<Seg>)
    requires |p| > 0
    ensures |r| == |p| && r[0].name == p[0].name
    decreases |p|, 0
  {
    if p[0].index == SYM_ADD || p[0].index == size then [p[0].(index := size)] + Fresh(p[1..]) else
    var k := Pick(size, p[0].index);
    if !(0 <= k < |items|) then p else
    match items[k]
    case ItemField(_, _) => [p[0].(index := k)] + p[1..]
    case ItemScope(_, sub) => [p[0].(index := k)] + Target(sub, p[1..])
  }

  /** A plain path means itself. */
  lemma {:induction false} TargetOfPlain(kids: seq<Node>, p: seq<Seg>)
    requires Numeric(p)
    ensures Target(kids, p) == p
    decreases |p|, 1
  {
    if p != [] {
      assert Numeric(p[1..]);
      assert Fresh(p) == p && [p[0]] + p[1..] == p;
      var i := Find(kids, p[0].name);
      if i >= 0 {
        if kids[i].Scope? {
          TargetOfPlain(kids[i].kids, p[1..]);
        } else if kids[i].Array? {
          TargetArrayOfPlain(kids[i].items, kids[i].size, p);
        }
      }
    }
  }

  lemma {:induction false} TargetArrayOfPlain(items: seq<Item>, size: int, p: seq<Seg>)
    requires Numeric(p) && |p| > 0
    ensures TargetArray(items, size, p) == p
    decreases |p|, 0
  {
    assert Numeric(p[1..]);
    assert Fresh(p[1..]) == p[1..];
    assert [p[0].(index := p[0].index)] + p[1..] == p;
    var k := Pick(size, p[0].index);
    if 0 <= k < |items| && items[k].ItemScope? { TargetOfPlain(items[k].kids, p[1..]); }
  }

  // ---- One level ----

  lemma {:induction false} FindSnoc(kids: seq<Node>, n: Node, name: string)
    ensures var i := Find(kids, name);
      Find(kids + [n], name) == if i >= 0 then i else if Same(n.name, name) then |kids| else -1
  {
    var r := Find(kids + [n], name);
    assert (kids + [n])[|kids|] == n;
    assert forall j :: 0 <= j < |kids| ==> (kids + [n])[j] == kids[j];
  }

  lemma {:induction false} FindSet(kids: seq<Node>, i: nat, n: Node, name: string)
    requires i < |kids| && n.name == kids[i].name
    ensures Find(kids[i := n], name) == Find(kids, name)
  {
    assert forall j :: 0 <= j < |kids| ==> kids[i := n][j].name == kids[j].name;
  }

  // ---- The written path reads the value ----

  lemma {:induction false} AppendReads(kids: seq<Node>, ms: seq<Member>, p: seq<Seg>, v: string)
    requires Tail(p) && Find(kids, p[0].name) < 0 && AppendKids(kids, ms, p, v).out == Done
    ensures Search(AppendKids(kids, ms, p, v).kids, Fresh(p)) == Some(v)
    decreases |p|, 1
  {
    assert Fresh(p)[1..] == Fresh(p[1..]);
    var r := AppendKids(kids, ms, p, v);
    var n := r.kids[|kids|];
    assert r.kids == kids + [n];
    FindSnoc(kids, n, p[0].name);
    match p[0].kind
    case FIELD =>
    case LOGIC => AppendReads([], [], p[1..], v);
    case ARRAY =>
      assert Fresh(p) == [p[0].(index := 0)] + Fresh(p[1..]);
      AppendItemReads([], 0, [], p, v);
    case _ => assert false;
  }

  lemma {:induction false} AppendItemReads(items: seq<Item>, size: int, js: seq<Json>, p: seq<Seg>, v: string)
    requires Tail(p) && p[0].kind == ARRAY && size == |items| && AppendItem(items, size, js, p, v).out == Done
    ensures var r := AppendItem(items, size, js, p, v);
      SearchArray(r.items, r.size, [p[0].(index := size)] + Fresh(p[1..])) == Some(v)
    decreases |p|, 0
  {
    assert ([p[0].(index := size)] + Fresh(p[1..]))[1..] == Fresh(p[1..]);
    if |p| > 1 { AppendReads([], [], p[1..], v); }
  }

  /** After a write that did not fail, the path it means reads the value written. */
  lemma {:induction false} ReadOverWrite(kids: seq<Node>, ms: seq<Member>, p: seq<Seg>, v: string)
    requires Agree(kids, ms) && Tail(p) && v != DELETED
    requires Update(kids, ms, p, v).out != Failed
    ensures Search(Update(kids, ms, p, v).kids, Target(kids, p)) == Some(v)
    decreases |p|, 3
  {
    var i := Find(kids, p[0].name);
    FindBoth(ms, p[0].name);
    AgreeAt(kids, ms);
    if i < 0 {
      AppendReads(kids, ms, p, v);
    } else {
      var r := UpdateNode(kids[i], ms[i].value, p, v);
      ReadOverWriteNode(kids[i], ms[i], p, v);
      FindSet(kids, i, r.node, p[0].name);
    }
  }

  lemma {:induction false} ReadOverWriteNode(n: Node, m: Member, p: seq<Seg>, v: string)
    requires AgreeNode(n, m) && Tail(p) && v != DELETED
    requires UpdateNode(n, m.value, p, v).out != Failed
    ensures var r := UpdateNode(n, m.value, p, v); !r.gone && SearchNode(r.node, TargetNode(n, p)) == Some(v)
    decreases |p|, 2
  {
    match n
    case Field(_, _) =>
    case Scope(_, sub) =>
      ReadOverWrite(sub, m.value.members, p[1..], v);
      assert TargetNode(n, p)[1..] == Target(sub, p[1..]);
    case Array(_, items, size) =>
      ReadOverWriteArray(items, size, m.value.items, p, v);
  }

  lemma {:induction false} ReadOverWriteArray(items: seq<Item>, size: int, js: seq<Json>, p: seq<Seg>, v: string)
    requires AgreeItems(items, size, js) && Tail(p) && v != DELETED && p[0].kind == ARRAY
    requires UpdateArray(items, size, js, p, v).out != Failed
    ensures var r := UpdateArray(items, size, js, p, v);
      !r.gone && SearchArray(r.items, r.size, TargetArray(items, size, p)) == Some(v)
    decreases |p|, 1
  {
    if p[0].index == size || p[0].index == SYM_ADD {
      AppendItemReads(items, size, js, p, v);
    } else {
      ReadOverWriteItem(items, size, js, p, v, Pick(size, p[0].index));
    }
  }

  lemma {:induction false} ReadOverWriteItem(items: seq<Item>, size: int, js: seq<Json>, p: seq<Seg>, v: string, k: int)
    requires AgreeItems(items, size, js) && Tail(p) && v != DELETED && p[0].kind == ARRAY
    requires p[0].index != size && p[0].index != SYM_ADD && k == Pick(size, p[0].index)
    requires UpdateArray(items, size, js, p, v).out != Failed
    ensures var r := UpdateArray(items, size, js, p, v);
      !r.gone && SearchArray(r.items, r.size, TargetArray(items, size, p)) == Some(v)
    decreases |p|, 0
  {
    AtItem(items, size, js, p, v, k);
    if |p| == 1 {
      ItemReads(items, size, js, p, v, k);
    } else {
      var u := Update(items[k].kids, js[k].members, p[1..], v);
      ReadOverWrite(items[k].kids, js[k].members, p[1..], v);
      BelowItemReads(items, size, p, v, k, u.kids);
    }
  }

  lemma {:induction false} BelowItemReads(items: seq<Item>, size: int, p: seq<Seg>, v: string, k: nat, kids: seq<Node>)
    requires |p| > 1 && p[0].kind == ARRAY && p[0].index != size && p[0].index != SYM_ADD && size < SYM
    requires k == Pick(size, p[0].index) && k < |items| && items[k].ItemScope?
    requires Search(kids, Target(items[k].kids, p[1..])) == Some(v)
    ensures SearchArray(items[k := items[k].(kids := kids)], size, TargetArray(items, size, p)) == Some(v)
  {
    assert TargetArray(items, size, p)[1..] == Target(items[k].kids, p[1..]);
  }

  lemma {:induction false} ItemReads(items: seq<Item>, size: int, js: seq<Json>, p: seq<Seg>, v: string, k: nat)
    requires AgreeItems(items, size, js) && |p| == 1 && v != DELETED && p[0].kind == ARRAY
    requires p[0].index != size && p[0].index != SYM_ADD && k == Pick(size, p[0].index) && k < |items|
    requires UpdateItem(items, size, js, k, v).out != Failed
    ensures var r := UpdateItem(items, size, js, k, v);
      !r.gone && SearchArray(r.items, r.size, TargetArray(items, size, p)) == Some(v)
  {
  }

  // ---- Every other path is as before ----

  lemma {:induction false} AppendFrame(kids: seq<Node>, ms: seq<Member>, p: seq<Seg>, v: string, q: seq<Seg>)
    requires Tail(p) && Find(kids, p[0].name) < 0 && |q| > 0 && Numeric(q)
    requires AppendKids(kids, ms, p, v).out == Done ==> !SamePath(Fresh(p), q)
    ensures Search(AppendKids(kids, ms, p, v).kids, q) == Search(kids, q)
    decreases |p|, 2
  {
    var r := AppendKids(kids, ms, p, v);
    if r.kids != kids {
      var n := r.kids[|kids|];
      assert r.kids == kids + [n] && n.name == p[0].name;
      FindSnoc(kids, n, q[0].name);
      if Same(n.name, q[0].name) { AppendedSilent(kids, ms, p, v, q); }
    }
  }

  /** What an append builds answers to no path but its own. */
  lemma {:induction false} AppendedSilent(kids: seq<Node>, ms: seq<Member>, p: seq<Seg>, v: string, q: seq<Seg>)
    requires Tail(p) && |q| > 0 && Numeric(q) && Same(p[0].name, q[0].name)
    requires AppendKids(kids, ms, p, v).out == Done ==> !SamePath(Fresh(p), q)
    requires AppendKids(kids, ms, p, v).kids != kids
    ensures SearchNode(AppendKids(kids, ms, p, v).kids[|kids|], q) == None
    decreases |p|, 1
  {
    var t := Fresh(p);
    assert t[1..] == Fresh(p[1..]);
    match p[0].kind
    case FIELD =>
      assert SameSeg(t[0], q[0]);
    case LOGIC =>
      if |q| > 1 {
        SamePathStep(t, q);
        AppendFrame([], [], p[1..], v, q[1..]);
      }
    case ARRAY =>
      assert t == [p[0].(index := 0)] + Fresh(p[1..]);
      AppendItemFrame([], 0, [], p, v, q);
    case _ => assert false;
  }

  lemma {:induction false} AppendItemFrame(items: seq<Item>, size: int, js: seq<Json>, p: seq<Seg>, v: string,
      q: seq<Seg>)
    requires Tail(p) && p[0].kind == ARRAY && size == |items| && |q| > 0 && Numeric(q) && Same(p[0].name, q[0].name)
    requires AppendItem(items, size, js, p, v).out == Done ==> !SamePath([p[0].(index := size)] + Fresh(p[1..]), q)
    ensures var r := AppendItem(items, size, js, p, v); SearchArray(r.items, r.size, q) == SearchArray(items, size, q)
    decreases |p|, 0
  {
    var t := [p[0].(index := size)] + Fresh(p[1..]);
    assert t[1..] == Fresh(p[1..]);
    var r := AppendItem(items, size, js, p, v);
    if r.items != items && q[0].index == size {
      assert SameSeg(t[0], q[0]);
      if |p| > 1 && |q| > 1 {
        SamePathStep(t, q);
        AppendFrame([], [], p[1..], v, q[1..]);
      }
    }
  }

  /** A write, done or failed, changes no plain path but the one it means. */
  lemma {:induction false} Frame(kids: seq<Node>, ms: seq<Member>, p: seq<Seg>, v: string, q: seq<Seg>)
    requires Agree(kids, ms) && Tail(p) && v != DELETED && |q| > 0 && Numeric(q)
    requires Update(kids, ms, p, v).out == Done ==> !SamePath(Target(kids, p), q)
    ensures Search(Update(kids, ms, p, v).kids, q) == Search(kids, q)
    decreases |p|, 3
  {
    var i := Find(kids, p[0].name);
    FindBoth(ms, p[0].name);
    AgreeAt(kids, ms);
    if i < 0 {
      AppendFrame(kids, ms, p, v, q);
    } else {
      var r := UpdateNode(kids[i], ms[i].value, p, v);
      KeepsNode(kids[i], ms[i].value, p, v);
      SearchSet(kids, i, r.node, q);
      if Find(kids, q[0].name) == i { FrameNode(kids[i], ms[i], p, v, q); }
    }
  }

  lemma {:induction false} KeepsNode(n: Node, json: Json, p: seq<Seg>, v: string)
    requires |p| > 0 && v != DELETED
    ensures !UpdateNode(n, json, p, v).gone
  {
  }

  lemma {:induction false} FrameNode(n: Node, m: Member, p: seq<Seg>, v: string, q: seq<Seg>)
    requires AgreeNode(n, m) && Tail(p) && v != DELETED && |q| > 0 && Numeric(q) && Same(p[0].name, q[0].name)
    requires UpdateNode(n, m.value, p, v).out == Done ==> !SamePath(TargetNode(n, p), q)
    ensures SearchNode(UpdateNode(n, m.value, p, v).node, q) == SearchNode(n, q)
    decreases |p|, 2
  {
    var t := TargetNode(n, p);
    match n
    case Field(_, _) =>
      if |p| == 1 && p[0].kind != ARRAY { assert SameSeg(p[0], q[0]); }
    case Scope(_, sub) =>
      if |p| > 1 && |q| > 1 && p[0].kind != ARRAY {
        assert t[1..] == Target(sub, p[1..]);
        SamePathStep(t, q);
        Frame(sub, m.value.members, p[1..], v, q[1..]);
      }
    case Array(_, items, size) =>
      if p[0].kind == ARRAY { FrameArray(items, size, m.value.items, p, v, q); }
  }

  lemma {:induction false} FrameArray(items: seq<Item>, size: int, js: seq<Json>, p: seq<Seg>, v: string, q: seq<Seg>)
    requires AgreeItems(items, size, js) && Tail(p) && v != DELETED && p[0].kind == ARRAY
    requires |q| > 0 && Numeric(q) && Same(p[0].name, q[0].name)
    requires UpdateArray(items, size, js, p, v).out == Done ==> !SamePath(TargetArray(items, size, p), q)
    ensures var r := UpdateArray(items, size, js, p, v); SearchArray(r.items, r.size, q) == SearchArray(items, size, q)
    decreases |p|, 1
  {
    if p[0].index == size || p[0].index == SYM_ADD {
      AppendItemFrame(items, size, js, p, v, q);
    } else {
      var k := Pick(size, p[0].index);
      var r := UpdateArray(items, size, js, p, v);
      if k >= 0 {
        assert items[k] == LoadItem(k, js[k]) && ItemLoadable(js[k]);
        SearchArraySet(items, size, k, r.items[k], q);
        if q[0].index == k { FrameItem(items, size, js, p, v, q, k); }
      }
    }
  }

  lemma {:induction false} SearchArraySet(items: seq<Item>, size: int, k: nat, item: Item, q: seq<Seg>)
    requires size == |items| && k < size < SYM && |q| > 0 && Numeric(q)
    ensures SearchArray(items[k := item], size, q)
      == if q[0].kind == ARRAY && q[0].index == k then SearchItem(item, q) else SearchArray(items, size, q)
    ensures q[0].kind == ARRAY && q[0].index == k ==> SearchArray(items, size, q) == SearchItem(items[k], q)
  {
  }

  lemma {:induction false} FrameItem(items: seq<Item>, size: int, js: seq<Json>, p: seq<Seg>, v: string, q: seq<Seg>,
      k: nat)
    requires AgreeItems(items, size, js) && Tail(p) && v != DELETED && p[0].kind == ARRAY
    requires p[0].index != size && p[0].index != SYM_ADD && p[0].index != SYM_ENTIRE && k == Pick(size, p[0].index)
      && k < |js|
    requires |q| > 0 && Numeric(q) && Same(p[0].name, q[0].name) && q[0].index == k
    requires UpdateArray(items, size, js, p, v).out == Done ==> !SamePath(TargetArray(items, size, p), q)
    ensures SearchItem(UpdateArray(items, size, js, p, v).items[k], q) == SearchItem(items[k], q)
    decreases |p|, 0
  {
    assert items[k] == LoadItem(k, js[k]) && ItemLoadable(js[k]);
    var t := TargetArray(items, size, p);
    assert SameSeg(t[0], q[0]);
    if |p| > 1 && items[k].ItemScope? && |q| > 1 {
      assert t[1..] == Target(items[k].kids, p[1..]);
      SamePathStep(t, q);
      Frame(items[k].kids, js[k].members, p[1..], v, q[1..]);
    }
  }

  // ---- Deletion ----

  /** Where a plain path's answer came from before the deletion of t: nowhere if it runs through t. */
  function Behind(t: seq<Seg>, q: seq<Seg>): (r: Option<seq<Seg>>)
    requires |t| > 0 && |q| > 0
    ensures r.Some? ==> |r.value| == |q| && r.value[0].name == q[0].name
    decreases |t|
  {
    if !Same(t[0].name, q[0].name) then Some(q)
    else if |t| == 1 then
      if t[0].kind != ARRAY || t[0].index == SYM_ENTIRE then None
      else if q[0].index < t[0].index then Some(q)
      else Some([q[0].(index := q[0].index + 1)] + q[1..])
    else if !SameSeg(t[0], q[0]) || |q| == 1 then Some(q)
    else match Behind(t[1..], q[1..])
      case None => None
      case Some(rest) => Some([q[0]] + rest)
  }

  function Was(kids: seq<Node>, b: Option<seq<Seg>>): Option<string>
    requires b.Some? ==> |b.value| > 0
  {
    if b.Some? then Search(kids, b.value) else None
  }

  lemma {:induction false} FindWithout(kids: seq<Node>, ms: seq<Member>, i: nat, name: string)
    requires Agree(kids, ms) && i < |kids|
    ensures var f := Find(kids, name);
      Find(Without(kids, i), name) == if f == i then -1 else if f > i then f - 1 else f
  {
    var f, w := Find(kids, name), Without(kids, i);
    if f == i {
      forall j | 0 <= j < |w| ensures !Same(w[j].name, name) { Distinct(kids, ms, i, if j < i then j else j + 1); }
    } else if f >= 0 {
      assert w[if f > i then f - 1 else f] == kids[f];
    }
  }

  lemma {:induction false} Distinct(kids: seq<Node>, ms: seq<Member>, i: nat, j: nat)
    requires Agree(kids, ms) && i < |kids| && j < |kids| && i != j
    ensures !Same(kids[i].name, kids[j].name)
  {
    AgreeAt(kids, ms);
  }

  /** Deletion removes exactly what is below its path, and later items of an array move down by one. */
  lemma {:induction false} DeleteReads(kids: seq<Node>, ms: seq<Member>, p: seq<Seg>, q: seq<Seg>)
    requires Agree(kids, ms) && Tail(p) && |q| > 0 && Numeric(q)
    requires Update(kids, ms, p, DELETED).out == Done
    ensures Search(Update(kids, ms, p, DELETED).kids, q) == Was(kids, Behind(Target(kids, p), q))
    decreases |p|, 3
  {
    var i := Find(kids, p[0].name);
    FindBoth(ms, p[0].name);
    AgreeAt(kids, ms);
    var r := UpdateNode(kids[i], ms[i].value, p, DELETED);
    if r.gone { SearchWithout(kids, ms, i, q); } else { SearchSet(kids, i, r.node, q); }
    if Same(p[0].name, q[0].name) { DeleteReadsNode(kids[i], ms[i], p, q); }
  }

  lemma {:induction false} SearchWithout(kids: seq<Node>, ms: seq<Member>, i: nat, q: seq<Seg>)
    requires Agree(kids, ms) && i < |kids| && |q| > 0
    ensures Search(Without(kids, i), q) == if Find(kids, q[0].name) == i then None else Search(kids, q)
  {
    FindWithout(kids, ms, i, q[0].name);
  }

  lemma {:induction false} SearchSet(kids: seq<Node>, i: nat, n: Node, q: seq<Seg>)
    requires i < |kids| && n.name == kids[i].name && |q| > 0
    ensures Search(kids[i := n], q) == if Find(kids, q[0].name) == i then SearchNode(n, q) else Search(kids, q)
  {
    FindSet(kids, i, n, q[0].name);
  }

  lemma {:induction false} DeleteReadsNode(n: Node, m: Member, p: seq<Seg>, q: seq<Seg>)
    requires AgreeNode(n, m) && Tail(p) && |q| > 0 && Numeric(q) && Same(p[0].name, q[0].name)
    requires UpdateNode(n, m.value, p, DELETED).out == Done
    ensures var r, b := UpdateNode(n, m.value, p, DELETED), Behind(TargetNode(n, p), q);
      if r.gone then b == None
      else SearchNode(r.node, q) == if b.Some? then SearchNode(n, b.value) else None
    decreases |p|, 2
  {
    var t := TargetNode(n, p);
    match n
    case Field(_, _) =>
    case Scope(_, sub) =>
      if |p| > 1 && |q| > 1 {
        assert t[1..] == Target(sub, p[1..]);
        DeleteReads(sub, m.value.members, p[1..], q[1..]);
        DeeperBehind(t, q);
      }
    case Array(_, items, size) =>
      DeleteReadsArray(items, size, m.value.items, p, q);
  }

  lemma {:induction false} DeeperBehind(t: seq<Seg>, q: seq<Seg>)
    requires |t| > 1 && |q| > 1 && SameSeg(t[0], q[0])
    ensures var b, c := Behind(t, q), Behind(t[1..], q[1..]);
      b.Some? == c.Some? && (b.Some? ==> b.value[0] == q[0] && b.value[1..] == c.value)
  {
  }

  lemma {:induction false} DeleteReadsArray(items: seq<Item>, size: int, js: seq<Json>, p: seq<Seg>, q: seq<Seg>)
    requires AgreeItems(items, size, js) && Tail(p) && p[0].kind == ARRAY
    requires |q| > 0 && Numeric(q) && Same(p[0].name, q[0].name)
    requires UpdateArray(items, size, js, p, DELETED).out == Done
    ensures var r, b := UpdateArray(items, size, js, p, DELETED), Behind(TargetArray(items, size, p), q);
      if r.gone then b == None
      else SearchArray(r.items, r.size, q) == if b.Some? then SearchArray(items, size, b.value) else None
    decreases |p|, 1
  {
    var k := Pick(size, p[0].index);
    if p[0].index != SYM_ENTIRE {
      if |p| == 1 {
        DropItemReads(items, size, k, q);
      } else {
        DeleteReadsItem(items, size, js, p, q, k);
      }
    }
  }

  lemma {:induction false} DeleteReadsItem(items: seq<Item>, size: int, js: seq<Json>, p: seq<Seg>, q: seq<Seg>, k: nat)
    requires AgreeItems(items, size, js) && Tail(p) && p[0].kind == ARRAY && |p| > 1
    requires |q| > 0 && Numeric(q) && Same(p[0].name, q[0].name)
    requires UpdateArray(items, size, js, p, DELETED).out == Done && k == Pick(size, p[0].index)
    ensures var r, b := UpdateArray(items, size, js, p, DELETED), Behind(TargetArray(items, size, p), q);
      !r.gone && SearchArray(r.items, r.size, q) == if b.Some? then SearchArray(items, size, b.value) else None
    decreases |p|, 0
  {
    assert items[k] == LoadItem(k, js[k]) && ItemLoadable(js[k]);
    var t, r := TargetArray(items, size, p), UpdateArray(items, size, js, p, DELETED);
    SearchArraySet(items, size, k, r.items[k], q);
    if q[0].index == k && |q| > 1 {
      assert t[1..] == Target(items[k].kids, p[1..]);
      DeleteReads(items[k].kids, js[k].members, p[1..], q[1..]);
      DeeperBehind(t, q);
      var b := Behind(t, q);
      if b.Some? { SearchArrayAt(items, size, k, b.value); }
    } else {
      assert Behind(t, q) == Some(q);
    }
  }

  lemma {:induction false} SearchArrayAt(items: seq<Item>, size: int, k: nat, q: seq<Seg>)
    requires size == |items| && k < size < SYM && |q| > 0 && q[0].index == k
    ensures SearchArray(items, size, q) == if q[0].kind == ARRAY then SearchItem(items[k], q) else None
  {
  }

  lemma {:induction false} DropItemReads(items: seq<Item>, size: int, k: nat, q: seq<Seg>)
    requires size == |items| && k < size < SYM && |q| > 0 && Numeric(q)
    ensures SearchArray(DropItem(items, k), size - 1, q)
      == if q[0].index < k then SearchArray(items, size, q)
        else SearchArray(items, size, [q[0].(index := q[0].index + 1)] + q[1..])
  {
    var shifted := [q[0].(index := q[0].index + 1)] + q[1..];
    assert shifted[1..] == q[1..];
  }
}

/**
 A write as the server performs it: a cursor follows the path as far as it matches, and what the last match
 calls for is appended, updated or deleted there.
 */
module ConfigWrite {
  import opened Basics
  import opened JsonValue
  import opened ConfigModel
  import opened ConfigUpdate
  import opened ConfigRoot
  import ConfigOps

  /** The tree in which the next segment is looked up. */
  datatype Place = AtRoot(dirs: seq<Dir>) | AtDir(dir: Dir) | AtLevel(kids: seq<Node>, ms: seq<Member>)

  datatype Written = Written(out: Outcome, place: Place)

  /** The recursive update from a place on. */
  function UpdateFrom(c: Place, p: seq<Seg>, v: string, room: bool): Written
    requires |p| > 0
  {
    match c
    case AtRoot(ds) => var r := UpdateRoot(ds, p, v, room); Written(r.out, AtRoot(r.dirs))
    case AtDir(d) => var r := UpdateArchives(d, p, v, room); Written(r.out, AtDir(d.(archives := r.archives)))
    case AtLevel(kids, ms) => var r := Update(kids, ms, p, v); Written(r.out, AtLevel(r.kids, r.ms))
  }

  predicate PlaceOk(c: Place) {
    match c
    case AtRoot(ds) => Valid(ds)
    case AtDir(d) => ShelfOk(d.archives)
    case AtLevel(kids, ms) => Agree(kids, ms)
  }

  /** What the segments still to come look like at a place. */
  predicate PathAt(c: Place, p: seq<Seg>)
    ensures PathAt(c, p) ==> |p| > 0
  {
    match c
    case AtRoot(_) => Path(p)
    case AtDir(_) => |p| > 0 && (|p| > 1 ==> Tail(p[1..]))
    case AtLevel(_, _) => Tail(p)
  }

  // ---- One match ----

  /** A match that the cursor has passed: the tree it was found in, and where. */
  datatype Frame =
    | InDirs(dirs: seq<Dir>, i: nat)
    | InShelf(dir: Dir, i: nat)
    | InScope(kids: seq<Node>, ms: seq<Member>, i: nat)
    | InItem(kids: seq<Node>, ms: seq<Member>, i: nat, k: nat)

  predicate FrameOk(f: Frame) {
    match f
    case InDirs(ds, i) => i < |ds|
    case InShelf(d, i) => i < |d.archives|
    case InScope(kids, ms, i) => i < |kids| && i < |ms| && kids[i].Scope? && ms[i].value.Obj?
    case InItem(kids, ms, i, k) => i < |kids| && i < |ms| && ItemAt(kids[i], ms[i].value, k)
  }

  predicate ItemAt(n: Node, v: Json, k: nat) {
    n.Array? && v.Arr? && k < |n.items| && k < |v.items| && n.items[k].ItemScope? && v.items[k].Obj?
  }

  /** The tree that the cursor enters through the match. */
  function Below(f: Frame): Place
    requires FrameOk(f)
  {
    match f
    case InDirs(ds, i) => AtDir(ds[i])
    case InShelf(d, i) => AtLevel(d.archives[i].kids, d.archives[i].ms)
    case InScope(kids, ms, i) => AtLevel(kids[i].kids, ms[i].value.members)
    case InItem(kids, ms, i, k) => AtLevel(kids[i].items[k].kids, ms[i].value.items[k].members)
  }

  /** The tree around the match, with what the cursor entered replaced by c. */
  function Around(f: Frame, c: Place): Place
    requires FrameOk(f)
  {
    match (f, c)
    case (InDirs(ds, i), AtDir(d)) => AtRoot(ds[i := d])
    case (InShelf(d, i), AtLevel(kids, ms)) =>
      AtDir(d.(archives := d.archives[i := d.archives[i].(kids := kids, ms := ms)]))
    case (InScope(above, ams, i), AtLevel(kids, ms)) =>
      AtLevel(above[i := above[i].(kids := kids)], Put(ams, i, Obj(ms)))
    case (InItem(above, ams, i, k), AtLevel(kids, ms)) =>
      var n, js := above[i], ams[i].value.items;
      AtLevel(above[i := n.(items := n.items[k := n.items[k].(kids := kids)])], Put(ams, i, Arr(js[k := Obj(ms)])))
    case _ => c
  }

  /** How one turn of `rt_reach_last_match_scope` ends: on to the next segment, at the last one, or short of it. */
  datatype Match = Onward(frame: Frame) | Full(i: nat) | Absent | NoItem(i: nat) | Refused

  function Turn(c: Place, p: seq<Seg>): Match
    requires |p| > 0
  {
    match c
    case AtRoot(ds) =>
      var i := FindDir(ds, p[0].name);
      if i < 0 then Absent else if |p| == 1 then Full(i) else Onward(InDirs(ds, i))
    case AtDir(d) =>
      var i := FindArchive(d.archives, p[0].name);
      if i < 0 then Absent else if |p| == 1 then Full(i) else Onward(InShelf(d, i))
    case AtLevel(kids, ms) =>
      var i := Find(kids, p[0].name);
      if i < 0 then Absent
      else if kids[i].Array? != (p[0].kind == ARRAY) then Refused
      else match kids[i]
        case Field(_, _) => if |p| == 1 then Full(i) else Refused
        case Scope(_, _) => if |p| == 1 then Full(i) else Onward(InScope(kids, ms, i))
        case Array(_, items, size) => TurnArray(kids, ms, i, items, size, p)
  }

  function TurnArray(kids: seq<Node>, ms: seq<Member>, i: nat, items: seq<Item>, size: int, p: seq<Seg>): Match
    requires |p| > 0
  {
    var index, k := p[0].index, Pick(size, p[0].index);
    if size >= 0 && index == size then NoItem(i)
    else if size <= 0 || items == [] then (if index == SYM_ADD then NoItem(i) else Refused)
    else if 0 <= k < |items| then
      if |p| == 1 then Full(i)
      else if items[k].ItemScope? then Onward(InItem(kids, ms, i, k))
      else Refused
    else if index == SYM_ADD then NoItem(i)
    else if index == SYM_ENTIRE then Full(i)
    else Refused
  }

  // ---- The recursive update at a matched node ----

  lemma {:induction false} AtNode(kids: seq<Node>, ms: seq<Member>, p: seq<Seg>, v: string, i: nat)
    requires Agree(kids, ms) && |p| > 0 && i == Find(kids, p[0].name)
    ensures i < |kids| == |ms| && AgreeNode(kids[i], ms[i])
    ensures kids[i := kids[i]] == kids && Put(ms, i, ms[i].value) == ms
    ensures var r := UpdateNode(kids[i], ms[i].value, p, v);
      Update(kids, ms, p, v) == if r.gone then ConfigUpdate.Level(r.out, Without(kids, i), Without(ms, i))
                                else ConfigUpdate.Level(r.out, kids[i := r.node], Put(ms, i, r.json))
  {
    FindBoth(ms, p[0].name);
    AgreeAt(kids, ms);
    assert ms[i] == Member(ms[i].name, ms[i].value);
  }

  lemma {:induction false} AtArray(n: Node, m: Member, p: seq<Seg>, v: string)
    requires AgreeNode(n, m) && |p| > 0 && n.Array? && p[0].kind == ARRAY
    ensures m.value.Arr? && AgreeItems(n.items, n.size, m.value.items)
    ensures var r := UpdateArray(n.items, n.size, m.value.items, p, v);
      UpdateNode(n, m.value, p, v) == Spot(r.out, r.gone, Array(n.name, r.items, r.size), Arr(r.js))
  {
  }

  /** The last segment names an item. */
  lemma {:induction false} AtLastItem(kids: seq<Node>, ms: seq<Member>, p: seq<Seg>, v: string, i: nat, k: int)
    requires Agree(kids, ms) && |p| == 1 && i == Find(kids, p[0].name) && i < |kids| && kids[i].Array?
      && p[0].kind == ARRAY
    requires k == Pick(kids[i].size, p[0].index) && 0 <= k < |kids[i].items|
    ensures i < |ms| && ms[i].value.Arr? && k < |ms[i].value.items|
    ensures var r := UpdateItem(kids[i].items, kids[i].size, ms[i].value.items, k, v);
      Update(kids, ms, p, v) ==
        ConfigUpdate.Level(r.out, kids[i := Array(kids[i].name, r.items, r.size)], Put(ms, i, Arr(r.js)))
  {
    AtNode(kids, ms, p, v, i);
    AtArray(kids[i], ms[i], p, v);
    AtItem(kids[i].items, kids[i].size, ms[i].value.items, p, v, k);
    ItemStays(kids[i].items, kids[i].size, ms[i].value.items, k, v);
  }

  lemma {:induction false} ItemStays(items: seq<Item>, size: int, js: seq<Json>, k: nat, v: string)
    requires k < |items| && k < |js|
    ensures !UpdateItem(items, size, js, k, v).gone
  {
  }

  /** The last segment names an array as a whole. */
  lemma {:induction false} AtEntire(kids: seq<Node>, ms: seq<Member>, p: seq<Seg>, v: string, i: nat)
    requires Agree(kids, ms) && Tail(p) && i == Find(kids, p[0].name) && i < |kids| && kids[i].Array?
      && p[0].kind == ARRAY
    requires p[0].index == SYM_ENTIRE && (kids[i].size > 0 && kids[i].items != [])
    ensures i < |ms|
    ensures Update(kids, ms, p, v) ==
      if v == DELETED then ConfigUpdate.Level(Done, Without(kids, i), Without(ms, i))
      else ConfigUpdate.Level(Failed, kids, ms)
  {
    AtNode(kids, ms, p, v, i);
    AtArray(kids[i], ms[i], p, v);
  }

  /** A matched array is there as a whole, or the item is. */
  lemma {:induction false} FullArray(c: Place, p: seq<Seg>, i: nat)
    requires PlaceOk(c) && PathAt(c, p) && c.AtLevel? && Turn(c, p) == Full(i) && i < |c.kids| && c.kids[i].Array?
    ensures var n, k := c.kids[i], Pick(c.kids[i].size, p[0].index);
      && i == Find(c.kids, p[0].name) && p[0].kind == ARRAY && n.size > 0 && n.items != []
      && if p[0].index == SYM_ENTIRE then true else |p| == 1 && 0 <= k < |n.items|
  {
    AtNode(c.kids, c.ms, p, DELETED, i);
    AtArray(c.kids[i], c.ms[i], p, DELETED);
  }

  /** The last segment names a field or a scope. */
  lemma {:induction false} AtPlain(kids: seq<Node>, ms: seq<Member>, p: seq<Seg>, v: string, i: nat)
    requires Agree(kids, ms) && |p| == 1 && i == Find(kids, p[0].name) && i < |kids| && !kids[i].Array?
      && p[0].kind != ARRAY
    ensures i < |ms|
    ensures Update(kids, ms, p, v) ==
      if v == DELETED then ConfigUpdate.Level(Done, Without(kids, i), Without(ms, i))
      else if kids[i].Scope? then ConfigUpdate.Level(Failed, kids, ms)
      else if kids[i].value == v then ConfigUpdate.Level(NoChange, kids, ms)
      else ConfigUpdate.Level(Done, kids[i := Field(kids[i].name, v)], Put(ms, i, Str(v)))
  {
    AtNode(kids, ms, p, v, i);
  }

  // ---- Passing a match, and being refused ----

  /** A match passed leads to a well-formed place, and the update below it is the update here. */
  lemma {:induction false} OnwardStep(c: Place, p: seq<Seg>, v: string, room: bool)
    requires PlaceOk(c) && PathAt(c, p) && v != "" && Turn(c, p).Onward?
    ensures var f := Turn(c, p).frame;
      && |p| > 1 && FrameOk(f) && PlaceOk(Below(f)) && PathAt(Below(f), p[1..])
      && var r := UpdateFrom(Below(f), p[1..], v, room);
         UpdateFrom(c, p, v, room) == Written(r.out, Around(f, r.place))
  {
    match c
    case AtRoot(ds) => assert |p| > 2 ==> p[1..][1..] == p[2..];
    case AtDir(_) =>
    case AtLevel(kids, ms) => OnwardLevel(kids, ms, p, v);
  }

  lemma {:induction false} OnwardLevel(kids: seq<Node>, ms: seq<Member>, p: seq<Seg>, v: string)
    requires Agree(kids, ms) && Tail(p) && Turn(AtLevel(kids, ms), p).Onward?
    ensures var f := Turn(AtLevel(kids, ms), p).frame;
      && |p| > 1 && FrameOk(f) && Below(f).AtLevel? && PlaceOk(Below(f)) && Tail(p[1..])
      && (f.InScope? || f.InItem?)
      && var r, u := Update(Below(f).kids, Below(f).ms, p[1..], v), Update(kids, ms, p, v);
         u.out == r.out && AtLevel(u.kids, u.ms) == Around(f, AtLevel(r.kids, r.ms))
  {
    var i := Find(kids, p[0].name);
    if kids[i].Array? {
      OnwardItem(kids, ms, p, v, i, Pick(kids[i].size, p[0].index));
    } else {
      OnwardScope(kids, ms, p, v, i);
    }
  }

  lemma {:induction false} OnwardScope(kids: seq<Node>, ms: seq<Member>, p: seq<Seg>, v: string, i: nat)
    requires Agree(kids, ms) && |p| > 1 && i == Find(kids, p[0].name) && i < |kids| && kids[i].Scope?
      && p[0].kind != ARRAY
    ensures i < |ms| && ms[i].value.Obj?
    ensures var f := InScope(kids, ms, i);
      && FrameOk(f) && PlaceOk(Below(f))
      && var r, u := Update(Below(f).kids, Below(f).ms, p[1..], v), Update(kids, ms, p, v);
         u.out == r.out && AtLevel(u.kids, u.ms) == Around(f, AtLevel(r.kids, r.ms))
  {
    AtNode(kids, ms, p, v, i);
  }

  lemma {:induction false} OnwardItem(kids: seq<Node>, ms: seq<Member>, p: seq<Seg>, v: string, i: nat, k: int)
    requires Agree(kids, ms) && |p| > 1 && i == Find(kids, p[0].name) && i < |kids| && kids[i].Array?
      && p[0].kind == ARRAY
    requires k == Pick(kids[i].size, p[0].index) && 0 <= k < |kids[i].items| && kids[i].items[k].ItemScope?
    ensures i < |ms| && ItemAt(kids[i], ms[i].value, k)
    ensures var f := InItem(kids, ms, i, k);
      && FrameOk(f) && PlaceOk(Below(f))
      && var r, u := Update(Below(f).kids, Below(f).ms, p[1..], v), Update(kids, ms, p, v);
         u.out == r.out && AtLevel(u.kids, u.ms) == Around(f, AtLevel(r.kids, r.ms))
  {
    AtNode(kids, ms, p, v, i);
    AtArray(kids[i], ms[i], p, v);
    AtItem(kids[i].items, kids[i].size, ms[i].value.items, p, v, k);
  }

  /** The turn that refuses leaves the tree as it is. */
  lemma {:induction false} RefusedStep(c: Place, p: seq<Seg>, v: string, room: bool)
    requires PlaceOk(c) && PathAt(c, p) && Turn(c, p) == Refused
    ensures UpdateFrom(c, p, v, room) == Written(Failed, c)
  {
    var i := Find(c.kids, p[0].name);
    AtNode(c.kids, c.ms, p, v, i);
    RefusedNode(c.kids[i], c.ms[i], c.kids, c.ms, i, p, v);
  }

  lemma {:induction false} RefusedNode(n: Node, m: Member, kids: seq<Node>, ms: seq<Member>, i: nat, p: seq<Seg>,
      v: string)
    requires AgreeNode(n, m) && Tail(p)
    requires n.Array? != (p[0].kind == ARRAY) || (n.Field? && |p| > 1)
             || (n.Array? && TurnArray(kids, ms, i, n.items, n.size, p) == Refused)
    ensures UpdateNode(n, m.value, p, v) == Spot(Failed, false, n, m.value)
  {
    if n.Array? && p[0].kind == ARRAY {
      AtArray(n, m, p, v);
      RefusedArray(n.items, n.size, m.value.items, p, v);
    }
  }

  lemma {:induction false} RefusedArray(items: seq<Item>, size: int, js: seq<Json>, p: seq<Seg>, v: string)
    requires AgreeItems(items, size, js) && Tail(p) && TurnArray([], [], 0, items, size, p) == Refused
    ensures UpdateArray(items, size, js, p, v) == Items(Failed, false, items, size, js)
  {
    var k := Pick(size, p[0].index);
    if 0 <= k < |items| { AtItem(items, size, js, p, v, k); }
  }

  // ---- What the last match calls for ----

  /** `rt_append`, or nothing where there is no node to append under or the request deletes. */
  method AppendAt(c: Place, p: seq<Seg>, v: string, room: bool) returns (w: Written)
    requires PlaceOk(c) && PathAt(c, p) && v != "" && Turn(c, p) == Absent
    ensures w == UpdateFrom(c, p, v, room)
  {
    w := Written(Failed, c);
    if v == DELETED || c.AtRoot? { return; }
    match c
    case AtDir(d) =>
      if |p| > 1 {
        var r := AppendArchive(d, p, v, room);
        w := Written(r.out, AtDir(d.(archives := r.archives)));
      }
    case AtLevel(kids, ms) =>
      var r := AppendKids(kids, ms, p, v);
      w := Written(r.out, AtLevel(r.kids, r.ms));
  }

  /** `rt_append` under an array that exists. */
  method AppendItemAt(c: Place, i: nat, p: seq<Seg>, v: string, ghost room: bool) returns (w: Written)
    requires PlaceOk(c) && PathAt(c, p) && Turn(c, p) == NoItem(i)
    ensures w == UpdateFrom(c, p, v, room)
  {
    var kids, ms := c.kids, c.ms;
    AtNode(kids, ms, p, v, i);
    AtArray(kids[i], ms[i], p, v);
    var n, js := kids[i], ms[i].value.items;
    w := Written(Failed, c);
    if v != DELETED {
      var r := AppendItem(n.items, n.size, js, p, v);
      assert UpdateArray(n.items, n.size, js, p, v) == r && !r.gone;
      w := Written(r.out, AtLevel(kids[i := Array(n.name, r.items, r.size)], Put(ms, i, Arr(r.js))));
    }
  }

  /** `rt_delete` on a node of a level: a field, a scope or a whole array goes with all it holds, an item alone. */
  method DeleteAt(kids: seq<Node>, ms: seq<Member>, i: nat, p: seq<Seg>) returns (w: Written)
    requires Agree(kids, ms) && Tail(p) && Turn(AtLevel(kids, ms), p) == Full(i)
    ensures var r := Update(kids, ms, p, DELETED); w == Written(r.out, AtLevel(r.kids, r.ms))
  {
    var n := kids[i];
    if n.Array? {
      FullArray(AtLevel(kids, ms), p, i);
      if p[0].index != SYM_ENTIRE {
        w := DeleteItemAt(kids, ms, i, p, Pick(n.size, p[0].index));
        return;
      }
      AtEntire(kids, ms, p, DELETED, i);
    } else {
      AtPlain(kids, ms, p, DELETED, i);
    }
    var kids', ms' := ConfigOps.DeepDelete(kids, ms, i);
    w := Written(Done, AtLevel(kids', ms'));
  }

  method DeleteItemAt(kids: seq<Node>, ms: seq<Member>, i: nat, p: seq<Seg>, k: nat) returns (w: Written)
    requires Agree(kids, ms) && |p| == 1 && i == Find(kids, p[0].name) && i < |kids| && kids[i].Array?
      && p[0].kind == ARRAY
    requires k == Pick(kids[i].size, p[0].index) && k < |kids[i].items|
    ensures var r := Update(kids, ms, p, DELETED); w == Written(r.out, AtLevel(r.kids, r.ms))
  {
    AtLastItem(kids, ms, p, DELETED, i, k);
    var n, js := kids[i], ms[i].value.items;
    var items := ConfigOps.RemoveItem(n.items, k);
    w := Written(Done, AtLevel(kids[i := Array(n.name, items, n.size - 1)], Put(ms, i, Arr(Without(js, k)))));
  }

  /** `rt_field_update` and `rt_array_field_update`: only a field and a text item take a value. */
  method OverwriteAt(kids: seq<Node>, ms: seq<Member>, i: nat, p: seq<Seg>, v: string) returns (w: Written)
    requires Agree(kids, ms) && Tail(p) && Turn(AtLevel(kids, ms), p) == Full(i) && v != DELETED
    ensures var r := Update(kids, ms, p, v); w == Written(r.out, AtLevel(r.kids, r.ms))
  {
    var n := kids[i];
    w := Written(Failed, AtLevel(kids, ms));
    if n.Array? {
      FullArray(AtLevel(kids, ms), p, i);
      if p[0].index == SYM_ENTIRE {
        AtEntire(kids, ms, p, v, i);
      } else {
        w := OverwriteItemAt(kids, ms, i, p, v, Pick(n.size, p[0].index));
      }
    } else {
      AtPlain(kids, ms, p, v, i);
      if n.Field? {
        w := if n.value == v then Written(NoChange, AtLevel(kids, ms))
             else Written(Done, AtLevel(kids[i := Field(n.name, v)], Put(ms, i, Str(v))));
      }
    }
  }

  method OverwriteItemAt(kids: seq<Node>, ms: seq<Member>, i: nat, p: seq<Seg>, v: string, k: nat) returns (w: Written)
    requires Agree(kids, ms) && |p| == 1 && i == Find(kids, p[0].name) && i < |kids| && kids[i].Array?
      && p[0].kind == ARRAY
    requires k == Pick(kids[i].size, p[0].index) && k < |kids[i].items|
    ensures var r := Update(kids, ms, p, v); w == Written(r.out, AtLevel(r.kids, r.ms))
  {
    AtLastItem(kids, ms, p, v, i, k);
    var r := UpdateItem(kids[i].items, kids[i].size, ms[i].value.items, k, v);
    w := Written(r.out, AtLevel(kids[i := Array(kids[i].name, r.items, r.size)], Put(ms, i, Arr(r.js))));
  }

  /** The last segment is matched: an archive can be deleted, a directory neither written nor deleted. */
  method ChangeAt(c: Place, i: nat, p: seq<Seg>, v: string, ghost room: bool) returns (w: Written)
    requires PlaceOk(c) && PathAt(c, p) && Turn(c, p) == Full(i)
    ensures w == UpdateFrom(c, p, v, room)
  {
    match c
    case AtRoot(_) => w := Written(Failed, c);
    case AtDir(d) =>
      w := if v == DELETED then Written(Done, AtDir(d.(archives := Without(d.archives, i)))) else Written(Failed, c);
    case AtLevel(kids, ms) =>
      if v == DELETED { w := DeleteAt(kids, ms, i, p); } else { w := OverwriteAt(kids, ms, i, p, v); }
  }

  // ---- The whole write ----

  predicate StackOk(fs: seq<Frame>) {
    forall i :: 0 <= i < |fs| ==> FrameOk(fs[i])
  }

  /** The tree around all the matches, the last one innermost. */
  function Rebuilt(fs: seq<Frame>, w: Written): Written
    requires StackOk(fs)
  {
    if fs == [] then w else Rebuilt(fs[..|fs| - 1], Written(w.out, Around(fs[|fs| - 1], w.place)))
  }

  /** `rt_reach_last_match_scope`: the cursor stops where the path is matched in full or no further. */
  method Reach(ds: seq<Dir>, p: seq<Seg>, ghost v: string, ghost room: bool)
    returns (fs: seq<Frame>, c: Place, offset: nat)
    requires Valid(ds) && Path(p) && v != ""
    ensures offset < |p| && PlaceOk(c) && PathAt(c, p[offset..]) && !Turn(c, p[offset..]).Onward? && StackOk(fs)
    ensures UpdateFrom(AtRoot(ds), p, v, room) == Rebuilt(fs, UpdateFrom(c, p[offset..], v, room))
  {
    fs, c, offset := [], AtRoot(ds), 0;
    assert p[0..] == p;
    while Turn(c, p[offset..]).Onward?
      invariant offset < |p| && PlaceOk(c) && PathAt(c, p[offset..]) && StackOk(fs)
      invariant UpdateFrom(AtRoot(ds), p, v, room) == Rebuilt(fs, UpdateFrom(c, p[offset..], v, room))
      decreases |p| - offset
    {
      var f := Turn(c, p[offset..]).frame;
      OnwardStep(c, p[offset..], v, room);
      assert p[offset..][1..] == p[offset + 1..];
      assert (fs + [f])[..|fs|] == fs;
      fs, c, offset := fs + [f], Below(f), offset + 1;
    }
  }

  /** `rt_config_update`: the cursor and one change at its end do what the recursive update says. */
  method WritePath(ds: seq<Dir>, p: seq<Seg>, v: string, room: bool) returns (out: Outcome, ds': seq<Dir>)
    requires Valid(ds) && Path(p)
    ensures Root(out, ds') == UpdateRoot(ds, p, v, room)
  {
    if v == "" { return Failed, ds; }
    var fs, c, offset := Reach(ds, p, v, room);
    var w;
    match Turn(c, p[offset..]) {
      case Refused => RefusedStep(c, p[offset..], v, room); w := Written(Failed, c);
      case Absent => w := AppendAt(c, p[offset..], v, room);
      case NoItem(i) => w := AppendItemAt(c, i, p[offset..], v, room);
      case Full(i) => w := ChangeAt(c, i, p[offset..], v, room);
    }
    while fs != []
      invariant StackOk(fs) && UpdateFrom(AtRoot(ds), p, v, room) == Rebuilt(fs, w)
    {
      fs, w := fs[..|fs| - 1], Written(w.out, Around(fs[|fs| - 1], w.place));
    }
    return w.out, w.place.dirs;
  }

  // ---- The server's tree ----

  class Config {
    var dirs: seq<Dir>

    /** Every archive starts as the loader builds it over its JSON. */
    constructor (ds: seq<Dir>)
      requires Valid(ds)
      ensures dirs == ds
    {
      dirs := ds;
    }

    method Read(p: seq<Seg>) returns (r: Option<string>)
      requires |p| > 0
      ensures r == SearchRoot(dirs, p)
    {
      r := ConfigOps.ReadPath(dirs, p);
    }

    /**
     The tree is the one a reload would build exactly when the request creates no refused name, and a value
     written is read back.
     */
    method Write(p: seq<Seg>, v: string, room: bool) returns (out: Outcome)
      requires Valid(dirs) && Accepted(Request(p, v, room))
      modifies this
      ensures Root(out, dirs) == UpdateRoot(old(dirs), p, v, room)
      ensures AllShaped(dirs) && (Reloaded(dirs) == dirs <==> Keeps(old(dirs), Request(p, v, room)))
      ensures Keeps(old(dirs), Request(p, v, room)) ==> Valid(dirs)
      ensures out != Failed && v != DELETED ==> |p| > 2 && SearchRoot(dirs, TargetRoot(old(dirs), p)) == Some(v)
    {
      RootKeptIff(dirs, Request(p, v, room));
      ghost var was := dirs;
      out, dirs := WritePath(dirs, p, v, room);
      if out != Failed && v != DELETED { RootReadOverWrite(was, p, v, room); }
    }
  }
}

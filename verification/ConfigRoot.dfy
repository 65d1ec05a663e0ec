/** The whole configuration: directories of archives, requests against it, and runs of requests. */
module ConfigRoot {
  import opened Basics
  import opened JsonValue
  import opened ConfigModel
  import opened ConfigUpdate
  import opened ConfigLaws
  import ConfigNames

  /** An archive: its index and the JSON object the index is built over. */
  datatype Archive = Archive(name: string, path: string, kids: seq<Node>, ms: seq<Member>)
  datatype Dir = Dir(name: string, value: string, archives: seq<Archive>)

  function FindDir(ds: seq<Dir>, name: string): (i: int)
    ensures -1 <= i < |ds|
    ensures i >= 0 ==> Same(ds[i].name, name) && forall j :: 0 <= j < i ==> !Same(ds[j].name, name)
    ensures i == -1 ==> forall j :: 0 <= j < |ds| ==> !Same(ds[j].name, name)
  {
    if ds == [] then -1
    else if Same(ds[0].name, name) then 0
    else var i := FindDir(ds[1..], name); if i < 0 then -1 else i + 1
  }

  function FindArchive(xs: seq<Archive>, name: string): (i: int)
    ensures -1 <= i < |xs|
    ensures i >= 0 ==> Same(xs[i].name, name) && forall j :: 0 <= j < i ==> !Same(xs[j].name, name)
    ensures i == -1 ==> forall j :: 0 <= j < |xs| ==> !Same(xs[j].name, name)
  {
    if xs == [] then -1
    else if Same(xs[0].name, name) then 0
    else var i := FindArchive(xs[1..], name); if i < 0 then -1 else i + 1
  }

  // ---- Requests ----

  /** What `rt_separate_segment` accepts. */
  predicate Path(p: seq<Seg>) {
    && 0 < |p|
    && (forall i :: 0 <= i < |p| && i < 2 ==> p[i].index == -1 && p[i].kind == if i == 0 then DIR else ARCHIVE)
    && (|p| > 2 ==> Tail(p[2..]))
  }

  function SearchArchives(xs: seq<Archive>, p: seq<Seg>): Option<string>
    requires |p| > 0
  {
    var j := FindArchive(xs, p[0].name);
    if j < 0 then None
    else if |p| == 1 then Some(xs[j].path)
    else Search(xs[j].kids, p[1..])
  }

  function SearchRoot(ds: seq<Dir>, p: seq<Seg>): Option<string>
    requires |p| > 0
  {
    var i := FindDir(ds, p[0].name);
    if i < 0 then None
    else if |p| == 1 then Some(ds[i].value)
    else SearchArchives(ds[i].archives, p[1..])
  }

  datatype Shelf = Shelf(out: Outcome, archives: seq<Archive>)

  /** A write below a directory; `room` is whether the file system can take one more file. */
  function UpdateArchives(d: Dir, p: seq<Seg>, v: string, room: bool): Shelf
    requires |p| > 0
  {
    var j := FindArchive(d.archives, p[0].name);
    if j >= 0 then
      if |p| == 1 then
        (if v == DELETED then Shelf(Done, Without(d.archives, j)) else Shelf(Failed, d.archives))
      else
        var a := d.archives[j];
        var r := Update(a.kids, a.ms, p[1..], v);
        Shelf(r.out, d.archives[j := a.(kids := r.kids, ms := r.ms)])
    else if |p| == 1 || v == DELETED then Shelf(Failed, d.archives)
    else AppendArchive(d, p, v, room)
  }

  /** `rt_append` under a directory: a new archive, and what the rest of the path puts into it. */
  function AppendArchive(d: Dir, p: seq<Seg>, v: string, room: bool): Shelf
    requires |p| > 0
  {
    var path := d.value + p[0].name + ".json";
    if !room || |path| >= MAX_VALUE then Shelf(Failed, d.archives) else
    var r := AppendKids([], [], p[1..], v);
    Shelf(r.out, d.archives + [Archive(p[0].name, path, r.kids, r.ms)])
  }

  datatype Root = Root(out: Outcome, dirs: seq<Dir>)

  /** `rt_config_update`. An empty value is refused, and a directory itself is neither written nor deleted here. */
  function UpdateRoot(ds: seq<Dir>, p: seq<Seg>, v: string, room: bool): Root
    requires |p| > 0
  {
    var i := FindDir(ds, p[0].name);
    if v == "" || i < 0 || |p| == 1 then Root(Failed, ds) else
    var r := UpdateArchives(ds[i], p[1..], v, room);
    Root(r.out, ds[i := ds[i].(archives := r.archives)])
  }

  // ---- The index of every archive agrees with its JSON, over whole runs ----

  predicate ShelfOk(xs: seq<Archive>) {
    && (forall i :: 0 <= i < |xs| ==> Agree(xs[i].kids, xs[i].ms))
    && (forall i, j :: 0 <= i < j < |xs| ==> !Same(xs[i].name, xs[j].name))
  }

  predicate Valid(ds: seq<Dir>) {
    forall i :: 0 <= i < |ds| ==> ShelfOk(ds[i].archives)
  }

  /** Every archive's JSON can be loaded: array items are objects or strings. */
  predicate AllShaped(ds: seq<Dir>) {
    forall i :: 0 <= i < |ds| ==> ShelfShaped(ds[i].archives)
  }

  predicate ShelfShaped(xs: seq<Archive>) {
    forall i :: 0 <= i < |xs| ==> Shaped(xs[i].ms)
  }

  /** What loading every archive's JSON again would give. */
  function Reloaded(ds: seq<Dir>): (r: seq<Dir>)
    requires AllShaped(ds)
    ensures |r| == |ds| && forall i :: 0 <= i < |ds| ==> r[i] == ds[i].(archives := ReloadedShelf(ds[i].archives))
  {
    seq(|ds|, i requires 0 <= i < |ds| => ds[i].(archives := ReloadedShelf(ds[i].archives)))
  }

  function ReloadedShelf(xs: seq<Archive>): (r: seq<Archive>)
    requires ShelfShaped(xs)
    ensures |r| == |xs| && forall i :: 0 <= i < |xs| ==> r[i] == xs[i].(kids := Load(xs[i].ms))
  {
    seq(|xs|, i requires 0 <= i < |xs| => xs[i].(kids := Load(xs[i].ms)))
  }

  datatype Request = Request(path: seq<Seg>, value: string, room: bool)

  /** A request the parser lets through. */
  predicate Accepted(r: Request) {
    Path(r.path) && |r.value| < MAX_VALUE
  }

  /** An accepted request all of whose names the loader would keep. */
  predicate Sound(r: Request) {
    Accepted(r) && (|r.path| > 2 ==> Loads(r.path[2..]))
  }

  function Run(ds: seq<Dir>, rs: seq<Request>): seq<Dir>
    requires forall i :: 0 <= i < |rs| ==> Accepted(rs[i])
  {
    if rs == [] then ds else
    var r := rs[|rs| - 1];
    assert Accepted(r);
    UpdateRoot(Run(ds, rs[..|rs| - 1]), r.path, r.value, r.room).dirs
  }

  lemma {:induction false} NewLoads(p: seq<Seg>)
    requires Loads(p)
    ensures Loads(BuiltNew(p))
  {
    if p != [] {
      assert Loads(p[1..]);
      NewLoads(p[1..]);
    }
  }

  lemma {:induction false} BuiltLoads(kids: seq<Node>, p: seq<Seg>)
    requires Loads(p)
    ensures Loads(Built(kids, p))
    decreases |p|, 1
  {
    if p != [] {
      assert Loads(p[1..]);
      NewLoads(p);
      var i := Find(kids, p[0].name);
      if i >= 0 {
        if kids[i].Scope? {
          BuiltLoads(kids[i].kids, p[1..]);
        } else if kids[i].Array? {
          BuiltInLoads(kids[i].items, kids[i].size, p);
        }
      }
    }
  }

  lemma {:induction false} BuiltInLoads(items: seq<Item>, size: int, p: seq<Seg>)
    requires Loads(p) && |p| > 0
    ensures Loads(BuiltIn(items, size, p))
    decreases |p|, 0
  {
    assert Loads(p[1..]);
    NewLoads(p[1..]);
    var k := Pick(size, p[0].index);
    if 0 <= k < |items| && items[k].ItemScope? { BuiltLoads(items[k].kids, p[1..]); }
  }

  lemma {:induction false} ShelfAdd(xs: seq<Archive>, a: Archive)
    requires ShelfOk(xs) && Agree(a.kids, a.ms) && FindArchive(xs, a.name) < 0
    ensures ShelfOk(xs + [a])
  {
  }

  lemma {:induction false} ShelfSet(xs: seq<Archive>, i: nat, a: Archive)
    requires ShelfOk(xs) && i < |xs| && Agree(a.kids, a.ms) && a.name == xs[i].name
    ensures ShelfOk(xs[i := a])
  {
  }

  lemma {:induction false} ShelfDrop(xs: seq<Archive>, i: nat)
    requires ShelfOk(xs) && i < |xs|
    ensures ShelfOk(Without(xs, i))
  {
    var w := Without(xs, i);
    forall j, k | 0 <= j < k < |w| ensures !Same(w[j].name, w[k].name) {
      assert w[j] == xs[if j < i then j else j + 1];
      assert w[k] == xs[if k < i then k else k + 1];
    }
  }

  /** The segments that a write below a directory creates in an archive. */
  function BuiltShelf(d: Dir, p: seq<Seg>, room: bool): seq<Seg>
    requires |p| > 0
  {
    var j := FindArchive(d.archives, p[0].name);
    if j >= 0 then Built(d.archives[j].kids, p[1..])
    else if room && |d.value + p[0].name + ".json"| < MAX_VALUE then BuiltNew(p[1..])
    else []
  }

  /** The request creates no name that the loader refuses. */
  predicate Keeps(ds: seq<Dir>, r: Request)
    requires |r.path| > 0
  {
    var i := FindDir(ds, r.path[0].name);
    r.value == "" || r.value == DELETED || i < 0 || |r.path| < 3 || Loads(BuiltShelf(ds[i], r.path[1..], r.room))
  }

  lemma {:induction false} SoundKeeps(ds: seq<Dir>, r: Request)
    requires Sound(r)
    ensures Keeps(ds, r)
  {
    var i := FindDir(ds, r.path[0].name);
    if i >= 0 && |r.path| >= 3 {
      var p := r.path[1..];
      assert p[1..] == r.path[2..];
      NewLoads(p[1..]);
      var j := FindArchive(ds[i].archives, p[0].name);
      if j >= 0 { BuiltLoads(ds[i].archives[j].kids, p[1..]); }
    }
  }

  /** A shelf with one archive whose index is not the loader's is not the reloaded one. */
  lemma {:induction false} OneDiffers(xs: seq<Archive>, i: nat)
    requires ShelfShaped(xs) && i < |xs| && xs[i].kids != Load(xs[i].ms)
    ensures ReloadedShelf(xs) != xs
  {
    assert ReloadedShelf(xs)[i].kids != xs[i].kids;
  }

  lemma {:induction false} ShelfReloads(xs: seq<Archive>)
    requires ShelfOk(xs)
    ensures ShelfShaped(xs) && ReloadedShelf(xs) == xs
  {
    assert forall i :: 0 <= i < |xs| ==> xs[i] == xs[i].(kids := Load(xs[i].ms));
  }

  lemma {:induction false} KnownShelf(d: Dir, p: seq<Seg>, v: string, room: bool, j: nat)
    requires ShelfOk(d.archives) && |p| > 1 && |v| < MAX_VALUE && Tail(p[1..])
    requires j < |d.archives| && j == FindArchive(d.archives, p[0].name)
    ensures var xs, keeps := UpdateArchives(d, p, v, room).archives, v == DELETED
      || Loads(Built(d.archives[j].kids, p[1..]));
      ShelfShaped(xs) && (ReloadedShelf(xs) == xs <==> keeps) && (keeps ==> ShelfOk(xs))
  {
    var a, xs := d.archives[j], UpdateArchives(d, p, v, room).archives;
    ConfigNames.AgreesIff(a.kids, a.ms, p[1..], v);
    if v == DELETED || Loads(Built(a.kids, p[1..])) {
      UpdateAgrees(a.kids, a.ms, p[1..], v);
      ShelfSet(d.archives, j, xs[j]);
      ShelfReloads(xs);
    } else {
      OneDiffers(xs, j);
    }
  }

  lemma {:induction false} NewShelf(d: Dir, p: seq<Seg>, v: string)
    requires ShelfOk(d.archives) && |p| > 1 && |v| < MAX_VALUE && v != DELETED && Tail(p[1..])
    requires FindArchive(d.archives, p[0].name) < 0 && |d.value + p[0].name + ".json"| < MAX_VALUE
    ensures var xs, keeps := UpdateArchives(d, p, v, true).archives, Loads(BuiltNew(p[1..]));
      ShelfShaped(xs) && (ReloadedShelf(xs) == xs <==> keeps) && (keeps ==> ShelfOk(xs))
  {
    var xs, n := UpdateArchives(d, p, v, true).archives, |d.archives|;
    NoneAgree();
    if Loads(BuiltNew(p[1..])) {
      AppendAgrees([], [], p[1..], v);
      ShelfAdd(d.archives, xs[n]);
      ShelfReloads(xs);
    } else {
      ConfigNames.AppendLost([], [], p[1..], v);
      OneDiffers(xs, n);
    }
  }

  lemma {:induction false} ShelfKeptIff(d: Dir, p: seq<Seg>, v: string, room: bool)
    requires ShelfOk(d.archives) && |p| > 0 && |v| < MAX_VALUE && (|p| > 1 ==> Tail(p[1..]))
    ensures var xs, keeps := UpdateArchives(d, p, v, room).archives, v == DELETED || |p| == 1
      || Loads(BuiltShelf(d, p, room));
      ShelfShaped(xs) && (ReloadedShelf(xs) == xs <==> keeps) && (keeps ==> ShelfOk(xs))
  {
    var j := FindArchive(d.archives, p[0].name);
    ShelfReloads(d.archives);
    if |p| == 1 {
      if j >= 0 && v == DELETED {
        ShelfDrop(d.archives, j);
        ShelfReloads(Without(d.archives, j));
      }
    } else if j >= 0 {
      KnownShelf(d, p, v, room, j);
    } else if v != DELETED && room && |d.value + p[0].name + ".json"| < MAX_VALUE {
      NewShelf(d, p, v);
    }
  }

  lemma {:induction false} TreeReloads(ds: seq<Dir>)
    requires Valid(ds)
    ensures AllShaped(ds) && Reloaded(ds) == ds
  {
    forall i | 0 <= i < |ds| ensures ShelfShaped(ds[i].archives) && ReloadedShelf(ds[i].archives) == ds[i].archives {
      ShelfReloads(ds[i].archives);
    }
    assert Reloaded(ds) == ds;
  }

  /** Replacing one shelf of a sound tree leaves a tree that is its own reload exactly when the new shelf is. */
  lemma {:induction false} OneShelf(ds: seq<Dir>, i: nat, xs: seq<Archive>)
    requires Valid(ds) && i < |ds| && ShelfShaped(xs)
    ensures var after := ds[i := ds[i].(archives := xs)];
      AllShaped(after) && (Reloaded(after) == after <==> ReloadedShelf(xs) == xs)
  {
    TreeReloads(ds);
    var after := ds[i := ds[i].(archives := xs)];
    if ReloadedShelf(xs) == xs {
      forall k | 0 <= k < |ds| ensures Reloaded(after)[k] == after[k] {
        if k != i { assert Reloaded(ds)[k] == ds[k]; }
      }
    } else {
      assert Reloaded(after)[i].archives != after[i].archives;
    }
  }

  /** A request, done or failed, leaves the tree that a reload would build exactly when it creates no refused name. */
  lemma {:induction false} RootKeptIff(ds: seq<Dir>, r: Request)
    requires Valid(ds) && Accepted(r)
    ensures var after := UpdateRoot(ds, r.path, r.value, r.room).dirs;
      AllShaped(after) && (Reloaded(after) == after <==> Keeps(ds, r)) && (Keeps(ds, r) ==> Valid(after))
  {
    var i := FindDir(ds, r.path[0].name);
    TreeReloads(ds);
    if r.value != "" && i >= 0 && |r.path| > 1 {
      var p := r.path[1..];
      assert |r.path| > 2 ==> p[1..] == r.path[2..];
      ShelfKeptIff(ds[i], p, r.value, r.room);
      OneShelf(ds, i, UpdateArchives(ds[i], p, r.value, r.room).archives);
    }
  }

  /** After every request of the run the tree is the one that a reload would build. */
  predicate AgreesThroughout(ds: seq<Dir>, rs: seq<Request>)
    requires forall i :: 0 <= i < |rs| ==> Accepted(rs[i])
  {
    var end := Run(ds, rs);
    AllShaped(end) && Reloaded(end) == end && (rs == [] || AgreesThroughout(ds, rs[..|rs| - 1]))
  }

  /** No request of the run creates a refused name in the tree it meets. */
  predicate KeepsThroughout(ds: seq<Dir>, rs: seq<Request>)
    requires forall i :: 0 <= i < |rs| ==> Accepted(rs[i])
  {
    if rs == [] then true else
    var before, r := rs[..|rs| - 1], rs[|rs| - 1];
    assert Accepted(r);
    KeepsThroughout(ds, before) && Keeps(Run(ds, before), r)
  }

  lemma {:induction false} RunAgreesIff(ds: seq<Dir>, rs: seq<Request>)
    requires Valid(ds) && forall i :: 0 <= i < |rs| ==> Accepted(rs[i])
    ensures AgreesThroughout(ds, rs) <==> KeepsThroughout(ds, rs)
    ensures KeepsThroughout(ds, rs) ==> Valid(Run(ds, rs))
  {
    if rs == [] {
      TreeReloads(ds);
    } else {
      var before, r := rs[..|rs| - 1], rs[|rs| - 1];
      RunAgreesIff(ds, before);
      if KeepsThroughout(ds, before) { RootKeptIff(Run(ds, before), r); }
    }
  }

  /** After every such run, its requests done or failed, every read answers as it would on the reloaded tree. */
  lemma {:induction false} IndexAgrees(ds: seq<Dir>, rs: seq<Request>, q: seq<Seg>)
    requires Valid(ds) && (forall i :: 0 <= i < |rs| ==> Accepted(rs[i])) && KeepsThroughout(ds, rs) && |q| > 0
    ensures Valid(Run(ds, rs)) && AllShaped(Run(ds, rs))
    ensures SearchRoot(Run(ds, rs), q) == SearchRoot(Reloaded(Run(ds, rs)), q)
  {
    RunAgreesIff(ds, rs);
    TreeReloads(Run(ds, rs));
  }

  /** Requests whose names the loader keeps make such a run from every tree. */
  lemma {:induction false} SoundRun(ds: seq<Dir>, rs: seq<Request>)
    requires forall i :: 0 <= i < |rs| ==> Accepted(rs[i]) && Sound(rs[i])
    ensures KeepsThroughout(ds, rs)
  {
    if rs != [] {
      var before, r := rs[..|rs| - 1], rs[|rs| - 1];
      SoundRun(ds, before);
      SoundKeeps(Run(ds, before), r);
    }
  }

  // ---- Read over write, from the root ----

  function TargetRoot(ds: seq<Dir>, p: seq<Seg>): (t: seq<Seg>)
    requires |p| > 2
    ensures |t| == |p|
  {
    var i := FindDir(ds, p[0].name);
    var j := if i < 0 then -1 else FindArchive(ds[i].archives, p[1].name);
    p[..2] + if j < 0 then Fresh(p[2..]) else Target(ds[i].archives[j].kids, p[2..])
  }

  lemma {:induction false} TargetRootOfPlain(ds: seq<Dir>, p: seq<Seg>)
    requires |p| > 2 && Numeric(p)
    ensures TargetRoot(ds, p) == p
  {
    assert Numeric(p[2..]);
    assert Fresh(p[2..]) == p[2..];
    assert p[..2] + p[2..] == p;
    var i := FindDir(ds, p[0].name);
    if i >= 0 && FindArchive(ds[i].archives, p[1].name) >= 0 {
      TargetOfPlain(ds[i].archives[FindArchive(ds[i].archives, p[1].name)].kids, p[2..]);
    }
  }

  lemma {:induction false} FindDirSet(ds: seq<Dir>, i: nat, d: Dir, name: string)
    requires i < |ds| && d.name == ds[i].name
    ensures FindDir(ds[i := d], name) == FindDir(ds, name)
  {
    assert forall j :: 0 <= j < |ds| ==> ds[i := d][j].name == ds[j].name;
  }

  lemma {:induction false} FindArchiveSet(xs: seq<Archive>, i: nat, a: Archive, name: string)
    requires i < |xs| && a.name == xs[i].name
    ensures FindArchive(xs[i := a], name) == FindArchive(xs, name)
  {
    assert forall j :: 0 <= j < |xs| ==> xs[i := a][j].name == xs[j].name;
  }

  lemma {:induction false} FindArchiveSnoc(xs: seq<Archive>, a: Archive, name: string)
    ensures var i := FindArchive(xs, name);
      FindArchive(xs + [a], name) == if i >= 0 then i else if Same(a.name, name) then |xs| else -1
  {
    assert (xs + [a])[|xs|] == a;
    assert forall j :: 0 <= j < |xs| ==> (xs + [a])[j] == xs[j];
  }

  lemma {:induction false} FindArchiveWithout(xs: seq<Archive>, i: nat, name: string)
    requires ShelfOk(xs) && i < |xs|
    ensures var f := FindArchive(xs, name);
      FindArchive(Without(xs, i), name) == if f == i then -1 else if f > i then f - 1 else f
  {
    var f, w := FindArchive(xs, name), Without(xs, i);
    if f == i {
      forall j | 0 <= j < |w| ensures !Same(w[j].name, name) {
        var h := if j < i then j else j + 1;
        assert w[j] == xs[h] && Same(xs[i].name, name);
        assert !Same(xs[if h < i then h else i].name, xs[if h < i then i else h].name);
      }
    } else if f >= 0 {
      assert w[if f > i then f - 1 else f] == xs[f];
    }
  }

  /** A write that did not fail is read back at the path it means. */
  lemma {:induction false} RootReadOverWrite(ds: seq<Dir>, p: seq<Seg>, v: string, room: bool)
    requires Valid(ds) && Path(p) && |p| > 2 && v != DELETED
    requires UpdateRoot(ds, p, v, room).out != Failed
    ensures SearchRoot(UpdateRoot(ds, p, v, room).dirs, TargetRoot(ds, p)) == Some(v)
  {
    var i := FindDir(ds, p[0].name);
    var d, t := ds[i], TargetRoot(ds, p);
    var r := UpdateArchives(d, p[1..], v, room);
    FindDirSet(ds, i, d.(archives := r.archives), p[0].name);
    assert t[1..][1..] == t[2..] && p[1..][1..] == p[2..];
    var j := FindArchive(d.archives, p[1].name);
    if j < 0 {
      FindArchiveSnoc(d.archives, r.archives[|d.archives|], p[1].name);
      AppendReads([], [], p[2..], v);
    } else {
      FindArchiveSet(d.archives, j, r.archives[j], p[1].name);
      ReadOverWrite(d.archives[j].kids, d.archives[j].ms, p[2..], v);
    }
  }

  /** A path of plain names and numbers is read back as it was written. */
  lemma {:induction false} PlainReadOverWrite(ds: seq<Dir>, p: seq<Seg>, v: string, room: bool)
    requires Valid(ds) && Path(p) && |p| > 2 && Numeric(p) && v != DELETED
    requires UpdateRoot(ds, p, v, room).out != Failed
    ensures SearchRoot(UpdateRoot(ds, p, v, room).dirs, p) == Some(v)
  {
    RootReadOverWrite(ds, p, v, room);
    TargetRootOfPlain(ds, p);
  }

  /** The archive a write had to create becomes readable too; nothing else does. */
  predicate NewArchive(ds: seq<Dir>, p: seq<Seg>, q: seq<Seg>)
    requires |p| > 0 && |q| > 0
  {
    && |q| == 2 && |p| > 2 && Same(p[0].name, q[0].name) && Same(p[1].name, q[1].name)
    && FindDir(ds, p[0].name) >= 0 && FindArchive(ds[FindDir(ds, p[0].name)].archives, p[1].name) < 0
  }

  /** A write, done or failed, leaves every plain path but its own as it was. */
  lemma {:induction false} RootFrame(ds: seq<Dir>, p: seq<Seg>, v: string, room: bool, q: seq<Seg>)
    requires Valid(ds) && Path(p) && |p| > 2 && v != DELETED && |q| > 0 && Numeric(q)
    requires UpdateRoot(ds, p, v, room).out == Done ==> !SamePath(TargetRoot(ds, p), q)
    requires !NewArchive(ds, p, q)
    ensures SearchRoot(UpdateRoot(ds, p, v, room).dirs, q) == SearchRoot(ds, q)
  {
    var i := FindDir(ds, p[0].name);
    if v != "" && i >= 0 {
      var d := ds[i];
      var r := UpdateArchives(d, p[1..], v, room);
      FindDirSet(ds, i, d.(archives := r.archives), q[0].name);
      if FindDir(ds, q[0].name) == i && |q| > 1 {
        assert p[1..][1..] == p[2..];
        ShelfFrame(ds, p, v, room, q, i);
      }
    }
  }

  lemma {:induction false} DeeperSame(p: seq<Seg>, q: seq<Seg>)
    requires |p| > 2 && |q| > 2 && SameSeg(p[0], q[0]) && SameSeg(p[1], q[1])
    ensures SamePath(p, q) <==> SamePath(p[2..], q[2..])
  {
    SamePathStep(p, q);
    SamePathStep(p[1..], q[1..]);
    assert p[1..][1..] == p[2..] && q[1..][1..] == q[2..];
  }

  lemma {:induction false} ShelfFrame(ds: seq<Dir>, p: seq<Seg>, v: string, room: bool, q: seq<Seg>, i: nat)
    requires Valid(ds) && Path(p) && |p| > 2 && v != DELETED && |q| > 1 && Numeric(q)
    requires i < |ds| && i == FindDir(ds, p[0].name) == FindDir(ds, q[0].name)
    requires UpdateArchives(ds[i], p[1..], v, room).out == Done ==> !SamePath(TargetRoot(ds, p), q)
    requires !NewArchive(ds, p, q)
    ensures SearchArchives(UpdateArchives(ds[i], p[1..], v, room).archives, q[1..])
      == SearchArchives(ds[i].archives, q[1..])
  {
    var d, t, j := ds[i], TargetRoot(ds, p), FindArchive(ds[i].archives, p[1].name);
    assert p[1..][1..] == p[2..] && q[1..][1..] == q[2..] && Numeric(q[2..]);
    if |q| > 2 && Same(p[1].name, q[1].name) { DeeperSame(t, q); }
    if j >= 0 {
      KnownFrame(d, p[1..], v, room, q[1..], j);
    } else {
      NewFrame(d, p[1..], v, room, q[1..]);
    }
  }

  lemma {:induction false} KnownFrame(d: Dir, p: seq<Seg>, v: string, room: bool, q: seq<Seg>, j: nat)
    requires ShelfOk(d.archives) && |p| > 1 && Tail(p[1..]) && v != DELETED && |q| > 0 && Numeric(q[1..])
    requires j < |d.archives| && j == FindArchive(d.archives, p[0].name)
    requires UpdateArchives(d, p, v, room).out == Done && |q| > 1 && Same(p[0].name, q[0].name) ==>
      !SamePath(Target(d.archives[j].kids, p[1..]), q[1..])
    ensures SearchArchives(UpdateArchives(d, p, v, room).archives, q) == SearchArchives(d.archives, q)
  {
    var r := UpdateArchives(d, p, v, room);
    FindArchiveSet(d.archives, j, r.archives[j], q[0].name);
    if FindArchive(d.archives, q[0].name) == j && |q| > 1 {
      Frame(d.archives[j].kids, d.archives[j].ms, p[1..], v, q[1..]);
    }
  }

  lemma {:induction false} NewFrame(d: Dir, p: seq<Seg>, v: string, room: bool, q: seq<Seg>)
    requires |p| > 1 && Tail(p[1..]) && v != DELETED && |q| > 0 && Numeric(q[1..])
    requires FindArchive(d.archives, p[0].name) < 0 && (Same(p[0].name, q[0].name) ==> |q| > 1)
    requires UpdateArchives(d, p, v, room).out == Done && |q| > 1 && Same(p[0].name, q[0].name)
      ==> !SamePath(Fresh(p[1..]), q[1..])
    ensures SearchArchives(UpdateArchives(d, p, v, room).archives, q) == SearchArchives(d.archives, q)
  {
    var r := UpdateArchives(d, p, v, room);
    if r.archives != d.archives {
      FindArchiveSnoc(d.archives, r.archives[|d.archives|], q[0].name);
      if |q| > 1 && Same(p[0].name, q[0].name) { AppendFrame([], [], p[1..], v, q[1..]); }
    }
  }

  /** Where a plain path's answer came from before a deletion. */
  function BehindRoot(ds: seq<Dir>, p: seq<Seg>, q: seq<Seg>): Option<seq<Seg>>
    requires |p| >= 2 && |q| > 0
  {
    if |q| == 1 || !Same(p[0].name, q[0].name) || !Same(p[1].name, q[1].name) then Some(q)
    else if |p| == 2 then None
    else if |q| == 2 then Some(q)
    else match Behind(TargetRoot(ds, p)[2..], q[2..])
      case None => None
      case Some(rest) => Some(q[..2] + rest)
  }

  function WasRoot(ds: seq<Dir>, b: Option<seq<Seg>>): Option<string> {
    if b.Some? && |b.value| > 0 then SearchRoot(ds, b.value) else None
  }

  /** A deletion removes exactly what lies below its path; later array items move down by one. */
  lemma {:induction false} RootDelete(ds: seq<Dir>, p: seq<Seg>, room: bool, q: seq<Seg>)
    requires Valid(ds) && Path(p) && |p| >= 2 && |q| > 0 && Numeric(q)
    requires UpdateRoot(ds, p, "deleted", room).out == Done
    ensures SearchRoot(UpdateRoot(ds, p, "deleted", room).dirs, q) == WasRoot(ds, BehindRoot(ds, p, q))
  {
    var i := FindDir(ds, p[0].name);
    var d := ds[i];
    var r := UpdateArchives(d, p[1..], DELETED, room);
    FindDirSet(ds, i, d.(archives := r.archives), q[0].name);
    if FindDir(ds, q[0].name) == i && |q| > 1 {
      ShelfDelete(ds, p, room, q, i);
    }
  }

  lemma {:induction false} ShelfDelete(ds: seq<Dir>, p: seq<Seg>, room: bool, q: seq<Seg>, i: nat)
    requires Valid(ds) && Path(p) && |p| >= 2 && |q| > 1 && Numeric(q)
    requires i < |ds| && i == FindDir(ds, p[0].name) == FindDir(ds, q[0].name)
    requires UpdateArchives(ds[i], p[1..], DELETED, room).out == Done
    ensures SearchArchives(UpdateArchives(ds[i], p[1..], DELETED, room).archives, q[1..])
      == WasRoot(ds, BehindRoot(ds, p, q))
  {
    var d := ds[i];
    var j := FindArchive(d.archives, p[1].name);
    if |p| == 2 {
      ArchiveDelete(d.archives, j, q[1..]);
    } else {
      assert p[1..][1..] == p[2..];
      BelowDelete(ds, p, q, i, j);
    }
  }

  lemma {:induction false} BelowDelete(ds: seq<Dir>, p: seq<Seg>, q: seq<Seg>, i: nat, j: nat)
    requires Valid(ds) && Path(p) && |p| > 2 && |q| > 1 && Numeric(q)
    requires i < |ds| && i == FindDir(ds, p[0].name) == FindDir(ds, q[0].name)
    requires j < |ds[i].archives| && j == FindArchive(ds[i].archives, p[1].name)
    requires Update(ds[i].archives[j].kids, ds[i].archives[j].ms, p[2..], DELETED).out == Done
    ensures var a := ds[i].archives[j];
      var u := Update(a.kids, a.ms, p[2..], DELETED);
      SearchArchives(ds[i].archives[j := a.(kids := u.kids, ms := u.ms)], q[1..]) == WasRoot(ds, BehindRoot(ds, p, q))
  {
    var a := ds[i].archives[j];
    var u := Update(a.kids, a.ms, p[2..], DELETED);
    assert q[1..][1..] == q[2..];
    FindArchiveSet(ds[i].archives, j, a.(kids := u.kids, ms := u.ms), q[1].name);
    if FindArchive(ds[i].archives, q[1].name) == j && |q| > 2 { DeeperDelete(ds, p, q, i, j); }
  }

  lemma {:induction false} ArchiveDelete(xs: seq<Archive>, j: nat, q: seq<Seg>)
    requires ShelfOk(xs) && j < |xs| && |q| > 0
    ensures SearchArchives(Without(xs, j), q) == if FindArchive(xs, q[0].name) == j then None else SearchArchives(xs, q)
  {
    FindArchiveWithout(xs, j, q[0].name);
  }

  lemma {:induction false} DeeperDelete(ds: seq<Dir>, p: seq<Seg>, q: seq<Seg>, i: nat, j: nat)
    requires Valid(ds) && Path(p) && |p| > 2 && |q| > 2 && Numeric(q)
    requires i < |ds| && i == FindDir(ds, p[0].name) == FindDir(ds, q[0].name)
    requires j < |ds[i].archives| && j == FindArchive(ds[i].archives, p[1].name)
      == FindArchive(ds[i].archives, q[1].name)
    requires Update(ds[i].archives[j].kids, ds[i].archives[j].ms, p[2..], DELETED).out == Done
    ensures var a := ds[i].archives[j];
      Search(Update(a.kids, a.ms, p[2..], DELETED).kids, q[2..]) == WasRoot(ds, BehindRoot(ds, p, q))
  {
    var a, t := ds[i].archives[j], TargetRoot(ds, p);
    assert Numeric(q[2..]);
    assert t[2..] == Target(a.kids, p[2..]);
    DeleteReads(a.kids, a.ms, p[2..], q[2..]);
    var b := Behind(t[2..], q[2..]);
    if b.Some? {
      var c := q[..2] + b.value;
      assert BehindRoot(ds, p, q) == Some(c);
      assert c[1..][1..] == b.value && c[1..][0] == q[1] && c[0] == q[0];
    }
  }
}

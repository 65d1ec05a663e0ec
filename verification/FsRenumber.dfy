/** Renumbering the directories of a layout through an AVL index from old ids to slots. */
module FsRenumber {
  import opened Basics
  import opened FsModel
  import AvlModel
  import AvlTree

  // ---- What renumbering does ----

  /** The slot of the first live directory with an id, or -1. */
  function Owner(ds: seq<Dir>, dirid: int): (i: int)
    ensures -1 <= i < |ds|
    ensures i >= 0 ==> ds[i].id == dirid > 0
    ensures forall j :: 0 <= j < (if i < 0 then |ds| else i) ==> !(ds[j].id == dirid > 0)
  {
    if ds == [] then -1
    else if ds[0].id == dirid > 0 then 0
    else var i := Owner(ds[1..], dirid); if i < 0 then -1 else i + 1
  }

  function IdOf(i: nat): int { (i + 1) * 65536 }

  predicate Stale(ds: seq<Dir>) {
    exists i :: 0 <= i < |ds| && ds[i].id > 0 && ds[i].id != IdOf(i)
  }

  function NewDir(d: Dir, i: nat): Dir {
    if d.id > 0 then d.(id := IdOf(i)) else d
  }

  function NewDirs(ds: seq<Dir>): (r: seq<Dir>)
    ensures |r| == |ds| && forall i :: 0 <= i < |ds| ==> r[i] == NewDir(ds[i], i)
  {
    seq(|ds|, i requires 0 <= i < |ds| => NewDir(ds[i], i))
  }

  function NewFile(ds: seq<Dir>, f: File, k: nat): File {
    var i := Owner(ds, f.dirid);
    if f.id <= 0 || i < 0 then f else f.(dirid := IdOf(i), id := IdOf(i) + k + 1)
  }

  function NewFiles(ds: seq<Dir>, fs: seq<File>): (r: seq<File>)
    ensures |r| == |fs|
    ensures forall k :: 0 <= k < |fs| ==> r[k] == if Stale(ds) then NewFile(ds, fs[k], k) else fs[k]
  {
    seq(|fs|, k requires 0 <= k < |fs| => if Stale(ds) then NewFile(ds, fs[k], k) else fs[k])
  }

  // ---- What it promises ----

  /** Every live directory gets the id of its slot, every live file stays in its directory's slot. */
  lemma {:induction false} KeepsOwners(ds: seq<Dir>, fs: seq<File>)
    ensures forall i :: 0 <= i < |ds| && ds[i].id > 0 ==> NewDirs(ds)[i] == ds[i].(id := (i + 1) * 65536)
    ensures forall k :: 0 <= k < |fs| && fs[k].id > 0 && Owner(ds, fs[k].dirid) >= 0 ==>
      Owner(NewDirs(ds), NewFiles(ds, fs)[k].dirid) == Owner(ds, fs[k].dirid)
  {
    forall k | 0 <= k < |fs| && fs[k].id > 0 && Owner(ds, fs[k].dirid) >= 0
      ensures Owner(NewDirs(ds), NewFiles(ds, fs)[k].dirid) == Owner(ds, fs[k].dirid)
    {
      var i := Owner(ds, fs[k].dirid);
      if !Stale(ds) { assert ds[i].id == IdOf(i); }
      assert NewFiles(ds, fs)[k].dirid == IdOf(i);
      OwnerOfSlot(ds, i);
    }
  }

  /**
   When a directory has not the id of its slot, every owned live file gets an id made of its directory's new id
   and its own slot, and keeps the rest. Every other file stays as it is.
   */
  lemma {:induction false} NewFileIds(ds: seq<Dir>, fs: seq<File>, i: nat, k: nat)
    requires i < |ds| && ds[i].id > 0 && ds[i].id != (i + 1) * 65536 && k < |fs|
    ensures var f, g := fs[k], NewFiles(ds, fs)[k];
      if f.id > 0 && Owner(ds, f.dirid) >= 0 then
        g == f.(dirid := (Owner(ds, f.dirid) + 1) * 65536, id := (Owner(ds, f.dirid) + 1) * 65536 + k + 1)
      else g == f
  {
    assert ds[i].id != IdOf(i);
  }

  /** When every directory has the id of its slot, nothing changes. */
  lemma {:induction false} NothingToDo(ds: seq<Dir>, fs: seq<File>)
    requires forall i :: 0 <= i < |ds| && ds[i].id > 0 ==> ds[i].id == (i + 1) * 65536
    ensures NewDirs(ds) == ds && NewFiles(ds, fs) == fs
  {
    assert !Stale(ds);
  }

  /** No two owned live files get the same id. */
  lemma {:induction false} NewIdsApart(ds: seq<Dir>, fs: seq<File>, k: nat, m: nat)
    requires Stale(ds) && k < m < |fs| <= 65535
    requires fs[k].id > 0 && Owner(ds, fs[k].dirid) >= 0 && fs[m].id > 0 && Owner(ds, fs[m].dirid) >= 0
    ensures NewFiles(ds, fs)[k].id != NewFiles(ds, fs)[m].id
  {
    var i :| 0 <= i < |ds| && ds[i].id > 0 && ds[i].id != IdOf(i);
    NewFileIds(ds, fs, i, k);
    NewFileIds(ds, fs, i, m);
  }

  lemma {:induction false} OwnerOfSlot(ds: seq<Dir>, i: nat)
    requires i < |ds| && ds[i].id > 0
    ensures Owner(NewDirs(ds), IdOf(i)) == i
  {
    var j := Owner(NewDirs(ds), IdOf(i));
    assert NewDirs(ds)[i].id == IdOf(i) > 0;
    assert NewDirs(ds)[j].id == IdOf(j);
  }

  /** No live directory owned the file, but one has its directory id after the renumbering. */
  ghost predicate Captured(ds: seq<Dir>, f: File) {
    Owner(ds, f.dirid) < 0 && exists i :: 0 <= i < |ds| && ds[i].id > 0 && f.dirid == IdOf(i)
  }

  /** A live file keeps its owner, or its having none, exactly when no renumbered directory captures it. */
  lemma {:induction false} KeepsOwnerIff(ds: seq<Dir>, fs: seq<File>, k: nat)
    requires k < |fs| && fs[k].id > 0
    ensures Owner(NewDirs(ds), NewFiles(ds, fs)[k].dirid) == Owner(ds, fs[k].dirid) <==> !Captured(ds, fs[k])
  {
    var d := fs[k].dirid;
    if Owner(ds, d) >= 0 {
      KeepsOwners(ds, fs);
    } else {
      assert NewFiles(ds, fs)[k].dirid == d;
      if Captured(ds, fs[k]) {
        var i :| 0 <= i < |ds| && ds[i].id > 0 && d == IdOf(i);
        OwnerOfSlot(ds, i);
      }
    }
  }

  /** Running it again changes nothing. */
  lemma {:induction false} Idempotent(ds: seq<Dir>, fs: seq<File>)
    ensures NewDirs(NewDirs(ds)) == NewDirs(ds)
    ensures NewFiles(NewDirs(ds), NewFiles(ds, fs)) == NewFiles(ds, fs)
  {
    assert !Stale(NewDirs(ds));
  }

  /** A file whose directory is gone can fall into another directory: the promise needs the owner. */
  lemma {:induction false} OrphanExample()
    ensures var ds, fs := [Dir(7, "a")], [File(65537, "f", 65536, 0, 0)];
      Owner(ds, fs[0].dirid) == -1 && Owner(NewDirs(ds), NewFiles(ds, fs)[0].dirid) == 0
  {
    var ds := [Dir(7, "a")];
    assert ds[0].id != IdOf(0);
    assert NewDirs(ds)[0].id == 65536;
  }

  // ---- The index ----

  datatype Key = Key(dirid: int, section: int)

  /** `fs_inner_compare`; ids are positive, so the difference does not overflow. */
  function Compare(a: Key, b: Key): int { a.dirid - b.dirid }

  ghost predicate ByDirid(cmp: AvlModel.Order<Key>) {
    forall a, b :: cmp(a, b) == Compare(a, b)
  }

  type Entry = AvlModel.Node<Key>

  /** The nodes are the first slots of the live ids among the first n directories. */
  ghost predicate Indexes(s: seq<Entry>, ds: seq<Dir>, n: nat) {
    && (forall x :: x in s ==> 0 <= x.key.section < n && x.key.section == Owner(ds, x.key.dirid))
    && (forall i :: 0 <= i < n && i < |ds| && ds[i].id > 0 ==> exists x :: x in s && x.key.dirid == ds[i].id)
  }

  lemma {:induction false} IndexStep(cmp: AvlModel.Order<Key>, s: seq<Entry>, ds: seq<Dir>, n: nat, e: Entry)
    requires ByDirid(cmp) && n < |ds| && ds[n].id > 0 && e.key == Key(ds[n].id, n)
    requires Indexes(s, ds, n) && (AvlModel.Absent(cmp, s, e.key) || AvlModel.ListInsert(cmp, s, e) == s)
    ensures Indexes(AvlModel.ListInsert(cmp, s, e), ds, n + 1)
  {
    if AvlModel.Absent(cmp, s, e.key) {
      InsertedMembers(cmp, s, e);
      FirstSlot(cmp, s, ds, n, e);
      IndexAdded(s, AvlModel.ListInsert(cmp, s, e), ds, n, e);
    } else {
      IndexKept(cmp, s, ds, n, e);
    }
  }

  lemma {:induction false} IndexKept(cmp: AvlModel.Order<Key>, s: seq<Entry>, ds: seq<Dir>, n: nat, e: Entry)
    requires ByDirid(cmp) && n < |ds| && ds[n].id > 0 && e.key == Key(ds[n].id, n)
    requires Indexes(s, ds, n) && !AvlModel.Absent(cmp, s, e.key)
    ensures Indexes(s, ds, n + 1)
  {
    var k :| 0 <= k < |s| && cmp(e.key, s[k].key) == 0;
    assert s[k] in s && s[k].key.dirid == ds[n].id;
  }

  lemma {:induction false} FirstSlot(cmp: AvlModel.Order<Key>, s: seq<Entry>, ds: seq<Dir>, n: nat, e: Entry)
    requires ByDirid(cmp) && n < |ds| && ds[n].id > 0 && e.key == Key(ds[n].id, n)
    requires Indexes(s, ds, n) && AvlModel.Absent(cmp, s, e.key)
    ensures Owner(ds, ds[n].id) == n
  {
  }

  lemma {:induction false} IndexAdded(s: seq<Entry>, r: seq<Entry>, ds: seq<Dir>, n: nat, e: Entry)
    requires n < |ds| && ds[n].id > 0 && e.key == Key(ds[n].id, n) && Owner(ds, ds[n].id) == n
    requires Indexes(s, ds, n) && forall x :: x in r <==> x in s || x == e
    ensures Indexes(r, ds, n + 1)
  {
    assert e in r;
  }

  lemma {:induction false} InsertedMembers(cmp: AvlModel.Order<Key>, s: seq<Entry>, e: Entry)
    requires AvlModel.Absent(cmp, s, e.key)
    ensures forall x :: x in AvlModel.ListInsert(cmp, s, e) <==> x in s || x == e
  {
    if s != [] && cmp(e.key, s[0].key) > 0 {
      assert AvlModel.Absent(cmp, s[1..], e.key);
      InsertedMembers(cmp, s[1..], e);
      assert s == [s[0]] + s[1..];
    }
  }

  lemma {:induction false} IndexSkip(s: seq<Entry>, ds: seq<Dir>, n: nat)
    requires n < |ds| && ds[n].id <= 0 && Indexes(s, ds, n)
    ensures Indexes(s, ds, n + 1)
  {
  }

  /** Looking an id up in the whole index finds the owner's slot. */
  lemma {:induction false} IndexFind(cmp: AvlModel.Order<Key>, s: seq<Entry>, ds: seq<Dir>, key: Key)
    requires ByDirid(cmp) && Indexes(s, ds, |ds|)
    ensures var f := AvlModel.ListFind(cmp, s, key);
      if f.Some? then f.value.key.section == Owner(ds, key.dirid) >= 0 else Owner(ds, key.dirid) == -1
  {
    AvlModel.ListRemoveAbsent(cmp, s, key);
    var f := AvlModel.ListFind(cmp, s, key);
    if f.Some? {
      var k := AvlModel.ListIndex(cmp, s, key);
      assert s[k] in s;
    }
  }

  lemma {:induction false} InsertIndex(cmp: AvlModel.Order<Key>, t: AvlModel.Tree<Key>, ds: seq<Dir>, n: nat, e: Entry)
    requires ByDirid(cmp) && AvlTree.Good(cmp, t) && n < |ds| && ds[n].id > 0 && e.key == Key(ds[n].id, n)
    requires Indexes(AvlModel.Inorder(t), ds, n)
    ensures var u := AvlModel.Insert(cmp, t, e);
      && AvlTree.Good(cmp, u) && Indexes(AvlModel.Inorder(u), ds, n + 1)
      && AvlTree.Nodes(u) <= AvlTree.Nodes(t) + {e}
  {
    AvlTree.InsertGood(cmp, t, e);
    AvlTree.InsertNodes(cmp, t, e);
    AvlModel.InsertInorder(cmp, t, e);
    AvlModel.ListInsertContents(cmp, AvlModel.Inorder(t), e);
    IndexStep(cmp, AvlModel.Inorder(t), ds, n, e);
  }

  /** Removing the root's key takes exactly the root out. */
  lemma {:induction false} RemoveRoot<K(!new)>(cmp: AvlModel.Order<K>, t: AvlModel.Tree<K>, key: K)
    requires AvlTree.Good(cmp, t) && t.Fork? && cmp(key, t.node.key) == 0
    ensures var r := AvlModel.Remove(cmp, t, key);
      && r.1 == Some(t.node) && AvlTree.Good(cmp, r.0) && AvlTree.Nodes(r.0) <= AvlTree.Nodes(t)
      && multiset(AvlModel.Inorder(r.0)) + multiset{t.node} == multiset(AvlModel.Inorder(t))
      && |AvlModel.Inorder(r.0)| < |AvlModel.Inorder(t)|
  {
    AvlTree.RemoveGood(cmp, t, key);
    AvlTree.RemoveNodes(cmp, t, key);
    AvlModel.RemoveInorder(cmp, t, key);
    AvlModel.ListFindAt(cmp, AvlModel.Inorder(t.left), t.node, AvlModel.Inorder(t.right), key);
    OneLess(cmp, AvlModel.Inorder(t), key);
  }

  lemma {:induction false} OneLess<K(!new)>(cmp: AvlModel.Order<K>, s: seq<AvlModel.Node<K>>, key: K)
    requires AvlModel.ListFind(cmp, s, key).Some?
    ensures var r := AvlModel.ListRemove(cmp, s, key);
      multiset(r) + multiset{AvlModel.ListFind(cmp, s, key).value} == multiset(s) && |r| < |s|
  {
    AvlModel.ListRemoveOne(cmp, s, key);
    var i := AvlModel.ListIndex(cmp, s, key);
    assert s == s[..i] + [s[i]] + s[i + 1..];
  }

  // ---- The three loops ----

  /**
   The heap holds the index: an ordered, balanced tree over the nodes ns. It is spelled so that a loop
   which only passes it on need not look inside; `Inside` opens it.
   */
  ghost predicate Holds(root: AvlModel.Node?<Key>, cmp: AvlModel.Order<Key>, t: AvlModel.Tree<Key>, ns: set<Entry>)
    reads ns
  {
    forall k: int {:trigger Inside(k)} :: Inside(k) ==>
      ns == AvlTree.Nodes(t) && ByDirid(cmp) && AvlTree.Rep(root, t) && AvlTree.Good(cmp, t)
  }

  /** The index covers the first n directories. */
  ghost predicate Covers(t: AvlModel.Tree<Key>, ds: seq<Dir>, n: nat) {
    forall k: int {:trigger Inside(k)} :: Inside(k) ==> Indexes(AvlModel.Inorder(t), ds, n)
  }

  ghost predicate Lists(t: AvlModel.Tree<Key>, s: seq<Entry>) {
    forall k: int {:trigger Inside(k)} :: Inside(k) ==> s == AvlModel.Inorder(t)
  }

  /** The index after slot n has been looked at. */
  method Enter(root0: AvlModel.Node?<Key>, cmp: AvlModel.Order<Key>, ghost t0: AvlModel.Tree<Key>,
      ghost ns0: set<Entry>,
      node: Entry, ghost ds: seq<Dir>)
      returns (root: AvlModel.Node?<Key>, ghost t: AvlModel.Tree<Key>, ghost ns: set<Entry>)
    requires Holds(root0, cmp, t0, ns0) && node !in ns0
    requires 0 <= node.key.section < |ds| && ds[node.key.section].id == node.key.dirid > 0
    requires Covers(t0, ds, node.key.section)
    modifies ns0, node
    ensures Holds(root, cmp, t, ns) && ns <= ns0 + {node} && Covers(t, ds, node.key.section + 1)
  {
    assert Inside(0);
    InsertIndex(cmp, t0, ds, node.key.section, node);
    t := AvlModel.Insert(cmp, t0, node);
    ns := AvlTree.Nodes(t);
    root := AvlTree.AvlInsert(root0, node, cmp, t0);
  }

  lemma {:induction false} Skipped(t: AvlModel.Tree<Key>, ds: seq<Dir>, n: nat)
    requires Covers(t, ds, n) && n < |ds| && ds[n].id <= 0
    ensures Covers(t, ds, n + 1)
  {
    assert Inside(0);
    IndexSkip(AvlModel.Inorder(t), ds, n);
  }

  /** The first i directories have their new ids. */
  ghost predicate Numbered(dirs: seq<Dir>, ds: seq<Dir>, i: int) {
    |dirs| == |ds| && forall k: int {:trigger Inside(k)} :: Inside(k) ==> AllNumbered(dirs, ds, i)
  }

  predicate AllNumbered(dirs: seq<Dir>, ds: seq<Dir>, i: int) {
    |dirs| == |ds| && forall j :: 0 <= j < |ds| ==> dirs[j] == if j < i then NewDir(ds[j], j) else ds[j]
  }

  lemma {:induction false} NumberedAt(dirs: seq<Dir>, ds: seq<Dir>, i: int, j: nat)
    requires Numbered(dirs, ds, i) && j < |ds|
    ensures dirs[j] == if j < i then NewDir(ds[j], j) else ds[j]
  {
    assert Inside(0);
  }

  predicate StaleBelow(ds: seq<Dir>, i: int) {
    exists j :: 0 <= j < i && j < |ds| && ds[j].id > 0 && ds[j].id != IdOf(j)
  }

  lemma {:induction false} StaleNext(ds: seq<Dir>, i: nat)
    requires i < |ds|
    ensures StaleBelow(ds, i + 1) <==> StaleBelow(ds, i) || (ds[i].id > 0 && ds[i].id != IdOf(i))
  {
  }

  /** A directory's old id goes into the index under its slot. */
  method IndexOne(id: int, i: nat, root0: AvlModel.Node?<Key>, cmp: AvlModel.Order<Key>, ghost t0: AvlModel.Tree<Key>,
      ghost ns0: set<Entry>, ghost ds: seq<Dir>)
      returns (root: AvlModel.Node?<Key>, ghost t: AvlModel.Tree<Key>, ghost ns: set<Entry>)
    requires Holds(root0, cmp, t0, ns0) && Covers(t0, ds, i) && i < |ds| && ds[i].id == id > 0
    modifies ns0
    ensures Holds(root, cmp, t, ns) && Covers(t, ds, i + 1) && fresh(ns - ns0)
  {
    var node := new AvlModel.Node(Key(id, i));
    root, t, ns := Enter(root0, cmp, t0, ns0, node, ds);
  }

  method NumberOne(dir: array<Dir>, i: nat, ghost ds: seq<Dir>, ghost root: AvlModel.Node?<Key>,
      ghost cmp: AvlModel.Order<Key>,
      ghost t: AvlModel.Tree<Key>, ghost ns: set<Entry>) returns (changed: bool)
    requires Numbered(dir[..], ds, i) && i < dir.Length && dir[i].id > 0 && Holds(root, cmp, t, ns)
    modifies dir
    ensures Numbered(dir[..], ds, i + 1) && changed == (ds[i].id != IdOf(i)) && Holds(root, cmp, t, ns)
  {
    changed := dir[i].id != IdOf(i);
    NumberStep(dir[..], ds, i);
    if changed {
      dir[i] := dir[i].(id := IdOf(i));
    }
  }

  lemma {:induction false} NumberStep(dirs: seq<Dir>, ds: seq<Dir>, i: nat)
    requires Numbered(dirs, ds, i) && i < |ds|
    ensures dirs[i] == ds[i] && Numbered(dirs[i := NewDir(ds[i], i)], ds, i + 1)
  {
    assert Inside(0);
  }

  /** The state of the first loop before slot i. */
  ghost predicate Indexing(dirs: seq<Dir>, ds: seq<Dir>, i: nat, t: AvlModel.Tree<Key>, stale: bool) {
    Numbered(dirs, ds, i) && Covers(t, ds, i) && stale == StaleBelow(ds, i)
  }

  /** One turn of the first loop. */
  method NumberTurn(dir: array<Dir>, i: nat, ghost ds: seq<Dir>, root0: AvlModel.Node?<Key>, cmp: AvlModel.Order<Key>,
      ghost t0: AvlModel.Tree<Key>, ghost ns0: set<Entry>, stale0: bool)
      returns (root: AvlModel.Node?<Key>, ghost t: AvlModel.Tree<Key>, ghost ns: set<Entry>, stale: bool)
    requires Holds(root0, cmp, t0, ns0) && i < dir.Length && Indexing(dir[..], ds, i, t0, stale0)
    modifies dir, ns0
    ensures Holds(root, cmp, t, ns) && fresh(ns - ns0) && Indexing(dir[..], ds, i + 1, t, stale)
  {
    root, t, ns, stale := root0, t0, ns0, stale0;
    StaleNext(ds, i);
    NumberStep(dir[..], ds, i);
    if dir[i].id > 0 {
      root, t, ns := IndexOne(dir[i].id, i, root, cmp, t, ns, ds);
      var changed := NumberOne(dir, i, ds, root, cmp, t, ns);
      stale := stale || changed;
    } else {
      Skipped(t, ds, i);
      assert dir[..][i := NewDir(ds[i], i)] == dir[..];
    }
  }

  /** The first loop: number the directories by slot and index their old ids. */
  method NumberDirs(dir: array<Dir>, cmp: AvlModel.Order<Key>, ghost ds: seq<Dir>)
      returns (root: AvlModel.Node?<Key>, ghost t: AvlModel.Tree<Key>, ghost ns: set<Entry>, stale: bool)
    requires Holds(null, cmp, AvlModel.Leaf, {}) && dir[..] == ds
    modifies dir
    ensures Numbered(dir[..], ds, |ds|) && stale == StaleBelow(ds, |ds|)
    ensures Holds(root, cmp, t, ns) && fresh(ns) && Covers(t, ds, |ds|)
  {
    root, t, ns, stale := null, AvlModel.Leaf, {}, false;
    for i := 0 to dir.Length
      invariant Holds(root, cmp, t, ns) && fresh(ns) && Indexing(dir[..], ds, i, t, stale)
    {
      root, t, ns, stale := NumberTurn(dir, i, ds, root, cmp, t, ns, stale);
    }
  }

  method SlotOf(root: AvlModel.Node?<Key>, cmp: AvlModel.Order<Key>, ghost t: AvlModel.Tree<Key>, ghost ns: set<Entry>,
      dirid: int, ghost ds: seq<Dir>) returns (slot: int)
    requires Holds(root, cmp, t, ns) && Covers(t, ds, |ds|)
    ensures slot == Owner(ds, dirid)
  {
    assert Inside(0);
    var key := Key(dirid, 0);
    var node, _ := AvlTree.AvlSearch(root, key, cmp, t);
    IndexFind(cmp, AvlModel.Inorder(t), ds, key);
    slot := if node == null then -1 else node.key.section;
  }

  /** The first k files have followed their directories. */
  predicate Moved(files: seq<File>, fs: seq<File>, ds: seq<Dir>, k: int) {
    |files| == |fs| && forall j :: 0 <= j < |fs| ==> files[j] == if j < k then NewFile(ds, fs[j], j) else fs[j]
  }

  /** A live file follows its directory. */
  method FileMoved(dir: array<Dir>, f: File, k: nat, root: AvlModel.Node?<Key>, cmp: AvlModel.Order<Key>,
      ghost t: AvlModel.Tree<Key>, ghost ns: set<Entry>, ghost ds: seq<Dir>) returns (g: File)
    requires Holds(root, cmp, t, ns) && Covers(t, ds, |ds|) && Numbered(dir[..], ds, |ds|)
    ensures g == NewFile(ds, f, k)
  {
    g := f;
    if f.id > 0 {
      var slot := SlotOf(root, cmp, t, ns, f.dirid, ds);
      if slot >= 0 {
        NumberedAt(dir[..], ds, |ds|, slot);
        var id := dir[slot].id;
        g := f.(dirid := id, id := id + k + 1);
      }
    }
  }

  /** The second loop. */
  method MoveFiles(dir: array<Dir>, archive: array<File>, root: AvlModel.Node?<Key>, cmp: AvlModel.Order<Key>,
      ghost t: AvlModel.Tree<Key>, ghost ns: set<Entry>, ghost ds: seq<Dir>, ghost fs: seq<File>)
    requires Holds(root, cmp, t, ns) && Covers(t, ds, |ds|) && Numbered(dir[..], ds, |ds|) && archive[..] == fs
    modifies archive
    ensures Holds(root, cmp, t, ns) && Moved(archive[..], fs, ds, |fs|)
  {
    for k := 0 to archive.Length
      invariant Holds(root, cmp, t, ns) && Moved(archive[..], fs, ds, k)
    {
      archive[k] := FileMoved(dir, archive[k], k, root, cmp, t, ns, ds);
    }
  }

  method TakeRoot(root0: AvlModel.Node<Key>, cmp: AvlModel.Order<Key>, ghost t0: AvlModel.Tree<Key>,
      ghost ns0: set<Entry>,
      ghost s0: seq<Entry>)
      returns (root: AvlModel.Node?<Key>, ghost t: AvlModel.Tree<Key>, ghost ns: set<Entry>, ghost s: seq<Entry>,
        rm: Entry)
    requires Holds(root0, cmp, t0, ns0) && Lists(t0, s0)
    modifies ns0
    ensures Holds(root, cmp, t, ns) && ns <= ns0 && Lists(t, s)
    ensures multiset(s) + multiset{rm} == multiset(s0) && |s| < |s0|
  {
    assert Inside(0);
    var key := Key(root0.key.dirid, 0);
    RemoveRoot(cmp, t0, key);
    t := AvlModel.Remove(cmp, t0, key).0;
    ns, s := AvlTree.Nodes(t), AvlModel.Inorder(t);
    var out;
    root, out := AvlTree.AvlRemove(root0, key, null, cmp, t0);
    rm := out;
  }

  /** What is freed and what is left make up the whole; `Inside` opens it. */
  ghost predicate Accounted(freed: seq<Entry>, s: seq<Entry>, all: multiset<Entry>) {
    forall k: int {:trigger Inside(k)} :: Inside(k) ==> multiset(freed) + multiset(s) == all
  }

  lemma {:induction false} OneMore(freed: seq<Entry>, rm: Entry, s: seq<Entry>, s0: seq<Entry>, all: multiset<Entry>)
    requires Accounted(freed, s0, all) && multiset(s) + multiset{rm} == multiset(s0)
    ensures Accounted(freed + [rm], s, all)
  {
    assert Inside(0);
  }

  /** The third loop: the root is removed until the index is empty; every node comes out once. */
  method TearDown(root0: AvlModel.Node?<Key>, cmp: AvlModel.Order<Key>, ghost t0: AvlModel.Tree<Key>,
      ghost ns0: set<Entry>)
      returns (freed: seq<Entry>)
    requires Holds(root0, cmp, t0, ns0)
    modifies ns0
    ensures multiset(freed) == multiset(AvlModel.Inorder(t0))
  {
    var root := root0;
    ghost var t, ns, s, all := t0, ns0, AvlModel.Inorder(t0), multiset(AvlModel.Inorder(t0));
    freed := [];
    while root != null
      invariant Holds(root, cmp, t, ns) && ns <= ns0 && Lists(t, s) && Accounted(freed, s, all)
      decreases |s|
    {
      var rm: Entry;
      ghost var s0 := s;
      root, t, ns, s, rm := TakeRoot(root, cmp, t, ns, s);
      OneMore(freed, rm, s, s0, all);
      freed := freed + [rm];
    }
    assert Inside(0);
  }

  /** A directory to renumber is in the index. */
  lemma {:induction false} StaleIndexed(root: AvlModel.Node?<Key>, cmp: AvlModel.Order<Key>, t: AvlModel.Tree<Key>,
      ns: set<Entry>, ds: seq<Dir>)
    requires Holds(root, cmp, t, ns) && Covers(t, ds, |ds|) && StaleBelow(ds, |ds|)
    ensures root != null
  {
    assert Inside(0);
    var i :| 0 <= i < |ds| && ds[i].id > 0 && ds[i].id != IdOf(i);
    var x :| x in AvlModel.Inorder(t) && x.key.dirid == ds[i].id;
  }

  lemma {:induction false} Renumbered(dirs: seq<Dir>, files: seq<File>, ds: seq<Dir>, fs: seq<File>)
    requires Numbered(dirs, ds, |ds|) && if StaleBelow(ds, |ds|) then Moved(files, fs, ds, |fs|) else files == fs
    ensures dirs == NewDirs(ds) && files == NewFiles(ds, fs)
  {
    assert StaleBelow(ds, |ds|) <==> Stale(ds);
    assert Inside(0);
  }

  /** `fs_update_seq`: both arrays of the layout are renumbered in place. */
  method UpdateSeq(dir: array<Dir>, archive: array<File>)
    modifies dir, archive
    ensures dir[..] == NewDirs(old(dir[..])) && archive[..] == NewFiles(old(dir[..]), old(archive[..]))
  {
    var cmp: AvlModel.Order<Key> := Compare;
    ghost var ds, fs := dir[..], archive[..];
    assert Holds(null, cmp, AvlModel.Leaf, {});
    var root, t, ns, stale := NumberDirs(dir, cmp, ds);
    if stale { StaleIndexed(root, cmp, t, ns, ds); }
    if stale && root != null { MoveFiles(dir, archive, root, cmp, t, ns, ds, fs); }
    Renumbered(dir[..], archive[..], ds, fs);
    var freed := TearDown(root, cmp, t, ns);
  }
}

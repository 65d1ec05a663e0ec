/**
 The virtual file system's layout: 128 directory slots, 256 file slots and a bit mask of the file slots in
 use. Each operation is a function on layouts; every layout reached from the empty one is consistent.
 */
module FsModel {
  import opened Basics

  const MAX_DIR: int := 128
  const MAX_ARCH: int := 256
  const MAX_MASK: int := 32
  const MAX_FILE_SIZE: int := 8192
  const EEXIST: int := 17

  /** An id that is not positive marks a slot as free. */
  datatype Dir = Dir(id: int, name: string)
  datatype File = File(id: int, name: string, dirid: int, size: int, section: int)

  const NO_DIR: Dir := Dir(0, "")
  const NO_FILE: File := File(0, "", 0, 0, 0)

  datatype Layout = Layout(mask: seq<bv8>, dirs: seq<Dir>, files: seq<File>)

  predicate Sized(l: Layout) {
    |l.mask| == MAX_MASK && |l.dirs| == MAX_DIR && |l.files| == MAX_ARCH
  }

  const EMPTY: Layout := Layout(seq(MAX_MASK, i => 0), seq(MAX_DIR, i => NO_DIR), seq(MAX_ARCH, i => NO_FILE))

  // ---- The bit mask ----

  function BitMask(j: nat): bv8
    requires j < 8
  {
    match j
    case 0 => 0x01 case 1 => 0x02 case 2 => 0x04 case 3 => 0x08
    case 4 => 0x10 case 5 => 0x20 case 6 => 0x40 case 7 => 0x80
  }

  predicate OnByte(b: bv8, r: nat)
    requires r < 8
  {
    b & BitMask(r) != 0
  }

  function ByteSet(b: bv8, r: nat, used: bool): bv8
    requires r < 8
  {
    if used then b | BitMask(r) else b & !BitMask(r)
  }

  predicate Bit(mask: seq<bv8>, k: nat)
    requires k / 8 < |mask|
  {
    OnByte(mask[k / 8], k % 8)
  }

  /** `fs_set_section_bitmask` for an index in range. */
  function SetBit(mask: seq<bv8>, k: nat, used: bool): (r: seq<bv8>)
    requires k / 8 < |mask|
    ensures |r| == |mask|
  {
    mask[k / 8 := ByteSet(mask[k / 8], k % 8, used)]
  }

  lemma {:induction false} ByteBits(b: bv8, i: nat, j: nat)
    requires i < 8 && j < 8
    ensures (b | BitMask(i)) & BitMask(j) != 0 <==> i == j || b & BitMask(j) != 0
    ensures (b & !BitMask(i)) & BitMask(j) != 0 <==> i != j && b & BitMask(j) != 0
  {
    ByteOr(b, BitMask(i), BitMask(j));
    ByteAnd(b, BitMask(i), BitMask(j));
    assert i != j ==> BitMask(i) & BitMask(j) == 0;
  }

  lemma {:induction false} ByteOr(b: bv8, x: bv8, y: bv8)
    ensures (b | x) & y == (b & y) | (x & y)
  {
  }

  lemma {:induction false} ByteAnd(b: bv8, x: bv8, y: bv8)
    ensures x & y == 0 ==> (b & !x) & y == b & y
    ensures (b & !x) & x == 0
  {
  }

  lemma {:induction false} SetByteAt(b: bv8, r: nat, used: bool, r2: nat)
    requires r < 8 && r2 < 8
    ensures OnByte(ByteSet(b, r, used), r2) == if r == r2 then used else OnByte(b, r2)
  {
    ByteBits(b, r, r2);
  }

  /** Setting or clearing one bit leaves every other one alone. */
  lemma {:induction false} SetBitAt(mask: seq<bv8>, k: nat, used: bool, i: nat)
    requires k / 8 < |mask| && i / 8 < |mask|
    ensures Bit(SetBit(mask, k, used), i) == if i == k then used else Bit(mask, i)
  {
    SetBitHere(mask, k / 8, k % 8, used, i / 8, i % 8);
    SamePlace(k, i);
  }

  lemma {:induction false} SetBitHere(mask: seq<bv8>, q: nat, r: nat, used: bool, q2: nat, r2: nat)
    requires q < |mask| && q2 < |mask| && r < 8 && r2 < 8
    ensures OnByte(mask[q := ByteSet(mask[q], r, used)][q2], r2) == if q == q2 && r == r2 then used
      else OnByte(mask[q2], r2)
  {
    SetByteAt(mask[q], r, used, r2);
  }

  lemma {:induction false} SamePlace(k: nat, i: nat)
    ensures k == i <==> k / 8 == i / 8 && k % 8 == i % 8
  {
  }

  // ---- Searching ----

  /** `fs_search_dir_byname`. */
  function FindDir(ds: seq<Dir>, name: string): (i: int)
    ensures -1 <= i < |ds|
    ensures i >= 0 ==> Same(name, ds[i].name) && ds[i].id > 0
    ensures forall j :: 0 <= j < (if i < 0 then |ds| else i) ==> !(Same(name, ds[j].name) && ds[j].id > 0)
  {
    if ds == [] then -1
    else if Same(name, ds[0].name) && ds[0].id > 0 then 0
    else var i := FindDir(ds[1..], name); if i < 0 then -1 else i + 1
  }

  /** `fs_seek_free_dir_location`. */
  function FreeDir(ds: seq<Dir>): (i: int)
    ensures -1 <= i < |ds|
    ensures i >= 0 ==> ds[i].id <= 0
    ensures forall j :: 0 <= j < (if i < 0 then |ds| else i) ==> ds[j].id > 0
  {
    if ds == [] then -1
    else if ds[0].id <= 0 then 0
    else var i := FreeDir(ds[1..]); if i < 0 then -1 else i + 1
  }

  /** `fs_search_file_byname`. */
  function FindFile(fs: seq<File>, name: string, dirid: int): (i: int)
    ensures -1 <= i < |fs|
    ensures i >= 0 ==> fs[i].dirid == dirid && Same(fs[i].name, name)
    ensures forall j :: 0 <= j < (if i < 0 then |fs| else i) ==> !(fs[j].dirid == dirid && Same(fs[j].name, name))
  {
    if fs == [] then -1
    else if fs[0].dirid == dirid && Same(fs[0].name, name) then 0
    else var i := FindFile(fs[1..], name, dirid); if i < 0 then -1 else i + 1
  }

  /** `fs_search_free_section`: the lowest clear bit from k on. */
  function FreeBit(mask: seq<bv8>, k: nat): (i: int)
    requires |mask| == MAX_MASK && k <= MAX_ARCH
    ensures i == -1 || k <= i < MAX_ARCH
    ensures i >= 0 ==> !Bit(mask, i) && forall j :: k <= j < i ==> Bit(mask, j)
    ensures i == -1 ==> forall j :: k <= j < MAX_ARCH ==> Bit(mask, j)
    decreases MAX_ARCH - k
  {
    if k == MAX_ARCH then -1 else if !Bit(mask, k) then k else FreeBit(mask, k + 1)
  }

  // ---- The operations ----

  datatype Step = Step(code: int, layout: Layout)

  /** `fs_allocate_dir`: the id of the new directory, or a negative code. */
  function AllocateDir(l: Layout, name: string): Step
    requires Sized(l)
  {
    if Same(name, "proc") || FindDir(l.dirs, name) >= 0 then Step(-EEXIST, l) else
    var i := FreeDir(l.dirs);
    if i < 0 then Step(-1, l) else
    Step((1 + i) * 65536, l.(dirs := l.dirs[i := Dir((1 + i) * 65536, name)]))
  }

  /**
   `fs_allocate_file`: the slot of the new file, or a negative code. The bit is taken before the slot is
   looked at.
   */
  function AllocateFile(l: Layout, name: string, dirid: int, size: int): Step
    requires Sized(l)
  {
    if size < 0 || dirid <= 0 || size >= MAX_FILE_SIZE then Step(-1, l)
    else if FindFile(l.files, name, dirid) >= 0 then Step(-EEXIST, l) else
    var n := FreeBit(l.mask, 0);
    if n < 0 then Step(-1, l) else
    var held := l.(mask := SetBit(l.mask, n, true));
    if l.files[n].id > 0 then Step(-1, held) else
    Step(n, held.(files := l.files[n := File(dirid + n + 1, name, dirid, size, n)]))
  }

  /** The mask bit named by a file's own section field is cleared, if there is one. */
  function Release(mask: seq<bv8>, section: int): (r: seq<bv8>)
    ensures |r| == |mask|
  {
    if section < 0 || section / 8 >= |mask| then mask else SetBit(mask, section, false)
  }

  /** `fs_delete_file`. */
  function DeleteFile(l: Layout, section: int): Step
    requires Sized(l)
  {
    if !(0 <= section < MAX_ARCH) || l.files[section].id <= 0 then Step(-1, l) else
    Step(0, l.(mask := Release(l.mask, l.files[section].section), files := l.files[section := NO_FILE]))
  }

  predicate Owned(f: File, dirid: int) {
    f.id > 0 && f.dirid == dirid
  }

  /** The files of a directory among the first n slots are dropped. */
  function DropFiles(l: Layout, dirid: int, n: nat): (r: Layout)
    requires Sized(l) && n <= MAX_ARCH
    ensures Sized(r) && r.dirs == l.dirs
    ensures forall k :: n <= k < MAX_ARCH ==> r.files[k] == l.files[k]
  {
    if n == 0 then l else
    var r := DropFiles(l, dirid, n - 1);
    if Owned(r.files[n - 1], dirid) then
      r.(mask := Release(r.mask, r.files[n - 1].section), files := r.files[n - 1 := NO_FILE])
    else r
  }

  /** `fs_delete_dir`: the directory and every file in it. */
  function DeleteDir(l: Layout, name: string): Step
    requires Sized(l)
  {
    var i := FindDir(l.dirs, name);
    if i < 0 then Step(-1, l) else
    Step(0, DropFiles(l.(dirs := l.dirs[i := NO_DIR]), l.dirs[i].id, MAX_ARCH))
  }

  // ---- Consistency ----

  predicate DirsOk(ds: seq<Dir>) {
    && |ds| == MAX_DIR
    && (forall i :: 0 <= i < |ds| ==> ds[i] == NO_DIR || ds[i].id == (1 + i) * 65536)
    && (forall i, j :: 0 <= i < j < |ds| && ds[i].id > 0 && ds[j].id > 0 ==> !Same(ds[i].name, ds[j].name))
  }

  /** The slot of the directory with an id. */
  function Slot(dirid: int): int { dirid / 65536 - 1 }

  predicate LiveDir(ds: seq<Dir>, dirid: int) {
    dirid > 0 && 0 <= Slot(dirid) < |ds| && ds[Slot(dirid)].id == dirid
  }

  predicate FileOk(ds: seq<Dir>, f: File, k: int) {
    f == NO_FILE || (f.section == k && f.id == f.dirid + k + 1 && LiveDir(ds, f.dirid))
  }

  predicate FilesOk(ds: seq<Dir>, fs: seq<File>) {
    && |fs| == MAX_ARCH
    && (forall k :: 0 <= k < |fs| ==> FileOk(ds, fs[k], k))
    && (forall j, k :: 0 <= j < k < |fs| && fs[j].id > 0 && fs[k].id > 0 && fs[j].dirid == fs[k].dirid ==>
          !Same(fs[j].name, fs[k].name))
  }

  predicate MaskOk(mask: seq<bv8>, fs: seq<File>) {
    |mask| == MAX_MASK && |fs| == MAX_ARCH && forall k :: 0 <= k < MAX_ARCH ==> (Bit(mask, k) <==> fs[k].id > 0)
  }

  predicate Consistent(l: Layout) {
    Sized(l) && DirsOk(l.dirs) && FilesOk(l.dirs, l.files) && MaskOk(l.mask, l.files)
  }

  lemma {:induction false} EmptyConsistent()
    ensures Consistent(EMPTY)
  {
    forall k | 0 <= k < MAX_ARCH ensures !Bit(EMPTY.mask, k) { NoBit(k % 8); }
  }

  lemma {:induction false} NoBit(r: nat)
    requires r < 8
    ensures !OnByte(0, r)
  {
  }

  lemma {:induction false} DirAllocated(l: Layout, name: string)
    requires Consistent(l)
    ensures Consistent(AllocateDir(l, name).layout)
    ensures var r := AllocateDir(l, name).code;
      r > 0 <==> !Same(name, "proc") && FindDir(l.dirs, name) < 0 && exists i :: 0 <= i < 128 && l.dirs[i] == NO_DIR
  {
  }

  lemma {:induction false} MaskSet(mask: seq<bv8>, fs: seq<File>, k: nat, f: File)
    requires MaskOk(mask, fs) && k < MAX_ARCH
    ensures MaskOk(SetBit(mask, k, f.id > 0), fs[k := f])
  {
    var m, g := SetBit(mask, k, f.id > 0), fs[k := f];
    forall i | 0 <= i < MAX_ARCH ensures Bit(m, i) <==> g[i].id > 0 {
      SetBitAt(mask, k, f.id > 0, i);
    }
  }

  predicate NameTaken(fs: seq<File>, name: string, dirid: int) {
    exists k :: 0 <= k < |fs| && Owned(fs[k], dirid) && Same(fs[k].name, name)
  }

  predicate NoSlot(fs: seq<File>) {
    forall k :: 0 <= k < |fs| ==> fs[k].id > 0
  }

  /** The requests for a file that are turned down: bad arguments, a name taken in the directory, or no free slot. */
  predicate Refused(l: Layout, name: string, dirid: int, size: int) {
    size < 0 || dirid <= 0 || size >= 8192 || NameTaken(l.files, name, dirid) || NoSlot(l.files)
  }

  lemma {:induction false} TakenFound(ds: seq<Dir>, fs: seq<File>, name: string, dirid: int)
    requires FilesOk(ds, fs) && dirid > 0
    ensures FindFile(fs, name, dirid) >= 0 <==> NameTaken(fs, name, dirid)
  {
    var i := FindFile(fs, name, dirid);
    if i >= 0 { assert FileOk(ds, fs[i], i); }
  }

  lemma {:induction false} NoneFree(mask: seq<bv8>, fs: seq<File>)
    requires MaskOk(mask, fs)
    ensures FreeBit(mask, 0) < 0 <==> NoSlot(fs)
    ensures FreeBit(mask, 0) >= 0 ==> fs[FreeBit(mask, 0)].id <= 0
  {
    var n := FreeBit(mask, 0);
    if n < 0 {
      forall k | 0 <= k < MAX_ARCH ensures fs[k].id > 0 { assert Bit(mask, k); }
    }
  }

  lemma {:induction false} FileAllocFails(l: Layout, name: string, dirid: int, size: int)
    requires Consistent(l)
    ensures AllocateFile(l, name, dirid, size).code < 0 <==> Refused(l, name, dirid, size)
    ensures Refused(l, name, dirid, size) ==> AllocateFile(l, name, dirid, size).layout == l
  {
    if dirid > 0 { TakenFound(l.dirs, l.files, name, dirid); }
    NoneFree(l.mask, l.files);
    FailsWhen(l, name, dirid, size);
  }

  lemma {:induction false} FailsWhen(l: Layout, name: string, dirid: int, size: int)
    requires Sized(l) && (FreeBit(l.mask, 0) < 0 <==> NoSlot(l.files))
    requires dirid > 0 ==> (FindFile(l.files, name, dirid) >= 0 <==> NameTaken(l.files, name, dirid))
    requires FreeBit(l.mask, 0) >= 0 ==> l.files[FreeBit(l.mask, 0)].id <= 0
    ensures AllocateFile(l, name, dirid, size).code < 0 <==> Refused(l, name, dirid, size)
    ensures Refused(l, name, dirid, size) ==> AllocateFile(l, name, dirid, size).layout == l
  {
  }

  lemma {:induction false} FileMade(l: Layout, name: string, dirid: int, size: int, n: nat)
    requires Sized(l) && 0 <= size < MAX_FILE_SIZE && dirid > 0 && FindFile(l.files, name, dirid) < 0
    requires n == FreeBit(l.mask, 0) && l.files[n].id <= 0
    ensures AllocateFile(l, name, dirid, size).layout
      == l.(mask := SetBit(l.mask, n, true), files := l.files[n := File(dirid + n + 1, name, dirid, size, n)])
  {
  }

  /**
   The code does not look whether the directory exists: a file that is made keeps the layout consistent
   exactly when it does.
   */
  lemma {:induction false} FileAllocated(l: Layout, name: string, dirid: int, size: int)
    requires Consistent(l)
    ensures Consistent(AllocateFile(l, name, dirid, size).layout)
      <==> LiveDir(l.dirs, dirid) || Refused(l, name, dirid, size)
  {
    var after := AllocateFile(l, name, dirid, size).layout;
    if Refused(l, name, dirid, size) {
      assert after == l by { FileAllocFails(l, name, dirid, size); }
    } else {
      assert Consistent(after) <==> LiveDir(l.dirs, dirid) by { NewFileStored(l, name, dirid, size); }
    }
  }

  lemma {:induction false} NewFileStored(l: Layout, name: string, dirid: int, size: int)
    requires Consistent(l) && !Refused(l, name, dirid, size)
    ensures Consistent(AllocateFile(l, name, dirid, size).layout) <==> LiveDir(l.dirs, dirid)
  {
    TakenFound(l.dirs, l.files, name, dirid);
    NoneFree(l.mask, l.files);
    var n := FreeBit(l.mask, 0);
    FileMade(l, name, dirid, size, n);
    FileStored(l, n, File(dirid + n + 1, name, dirid, size, n));
  }

  lemma {:induction false} FileStored(l: Layout, n: nat, f: File)
    requires Consistent(l) && n < MAX_ARCH && f.section == n && f.id == f.dirid + n + 1 && f.dirid > 0
    requires FindFile(l.files, f.name, f.dirid) < 0
    ensures Consistent(l.(mask := SetBit(l.mask, n, true), files := l.files[n := f])) <==> LiveDir(l.dirs, f.dirid)
  {
    if LiveDir(l.dirs, f.dirid) {
      MaskSet(l.mask, l.files, n, f);
      FilesSet(l.dirs, l.files, n, f);
    } else {
      assert !FileOk(l.dirs, l.files[n := f][n], n);
    }
  }

  lemma {:induction false} FilesSet(ds: seq<Dir>, fs: seq<File>, n: nat, f: File)
    requires FilesOk(ds, fs) && n < |fs| && FileOk(ds, f, n)
    requires f.id > 0 ==> FindFile(fs, f.name, f.dirid) < 0
    ensures FilesOk(ds, fs[n := f])
  {
  }

  /** One slot and its mask bit are freed, or nothing changes. */
  lemma {:induction false} FileDeleted(l: Layout, section: int)
    requires Consistent(l)
    ensures Consistent(DeleteFile(l, section).layout)
    ensures var r := DeleteFile(l, section);
      if 0 <= section < 256 && l.files[section].id > 0 then
        && r.code == 0 && r.layout.files == l.files[section := NO_FILE] && r.layout.dirs == l.dirs
        && forall k :: 0 <= k < 256 ==> (Bit(r.layout.mask, k) <==> k != section && Bit(l.mask, k))
      else r == Step(-1, l)
  {
    if 0 <= section < MAX_ARCH && l.files[section].id > 0 {
      assert FileOk(l.dirs, l.files[section], section);
      MaskSet(l.mask, l.files, section, NO_FILE);
      FilesSet(l.dirs, l.files, section, NO_FILE);
      forall k | 0 <= k < MAX_ARCH
        ensures Bit(SetBit(l.mask, section, false), k) <==> k != section && Bit(l.mask, k)
      {
        SetBitAt(l.mask, section, false, k);
      }
    }
  }

  lemma {:induction false} FilesDropped(l: Layout, dirid: int, n: nat)
    requires Consistent(l) && n <= MAX_ARCH
    ensures Consistent(DropFiles(l, dirid, n))
    ensures forall k :: 0 <= k < n ==>
      DropFiles(l, dirid, n).files[k] == if Owned(l.files[k], dirid) then NO_FILE else l.files[k]
  {
    if n > 0 {
      FilesDropped(l, dirid, n - 1);
      var r := DropFiles(l, dirid, n - 1);
      if Owned(r.files[n - 1], dirid) { FileDeleted(r, n - 1); }
    }
  }

  /** A directory goes with exactly its own files. */
  /** A directory goes with exactly its own files and their mask bits, or nothing changes. */
  lemma {:induction false} DirDeleted(l: Layout, name: string)
    requires Consistent(l)
    ensures Consistent(DeleteDir(l, name).layout)
    ensures var i, r := FindDir(l.dirs, name), DeleteDir(l, name);
      if i < 0 then r == Step(-1, l)
      else
        && r.code == 0 && r.layout.dirs == l.dirs[i := NO_DIR]
        && (forall k :: 0 <= k < 256 ==>
              r.layout.files[k] == if Owned(l.files[k], l.dirs[i].id) then NO_FILE else l.files[k])
        && forall k :: 0 <= k < 256 ==> (Bit(r.layout.mask, k) <==> Bit(l.mask, k) && !Owned(l.files[k], l.dirs[i].id))
  {
    var i := FindDir(l.dirs, name);
    if i >= 0 {
      DropCommutes(l, l.dirs[i := NO_DIR], l.dirs[i].id, MAX_ARCH);
      FilesDropped(l, l.dirs[i].id, MAX_ARCH);
      var r := DropFiles(l, l.dirs[i].id, MAX_ARCH);
      forall k | 0 <= k < MAX_ARCH ensures FileOk(l.dirs[i := NO_DIR], r.files[k], k) {
        assert FileOk(l.dirs, l.files[k], k);
      }
      MaskFollows(l, r, l.dirs[i].id);
    }
  }

  lemma {:induction false} MaskFollows(l: Layout, r: Layout, dirid: int)
    requires Consistent(l) && Consistent(r)
    requires forall k :: 0 <= k < 256 ==> r.files[k] == if Owned(l.files[k], dirid) then NO_FILE else l.files[k]
    ensures forall k :: 0 <= k < 256 ==> (Bit(r.mask, k) <==> Bit(l.mask, k) && !Owned(l.files[k], dirid))
  {
  }

  lemma {:induction false} DropCommutes(l: Layout, ds: seq<Dir>, dirid: int, n: nat)
    requires Sized(l) && |ds| == MAX_DIR && n <= MAX_ARCH
    ensures DropFiles(l.(dirs := ds), dirid, n) == DropFiles(l, dirid, n).(dirs := ds)
  {
    if n > 0 { DropCommutes(l, ds, dirid, n - 1); }
  }

  // ---- Whole runs ----

  datatype Op =
    | Mkdir(name: string)
    | Create(name: string, dirid: int, size: int)
    | Unlink(section: int)
    | Rmdir(name: string)

  function Apply(l: Layout, op: Op): Step
    requires Sized(l)
  {
    match op
    case Mkdir(name) => AllocateDir(l, name)
    case Create(name, dirid, size) => AllocateFile(l, name, dirid, size)
    case Unlink(section) => DeleteFile(l, section)
    case Rmdir(name) => DeleteDir(l, name)
  }

  /** A file is asked for in a directory that exists then, or the request is turned down. */
  predicate Placed(l: Layout, op: Op) {
    op.Create? ==> LiveDir(l.dirs, op.dirid) || Refused(l, op.name, op.dirid, op.size)
  }

  predicate PlacedThroughout(l: Layout, ops: seq<Op>)
    requires Sized(l)
    decreases |ops|
  {
    ops == [] || (Placed(l, ops[0]) && Sized(Apply(l, ops[0]).layout)
      && PlacedThroughout(Apply(l, ops[0]).layout, ops[1..]))
  }

  predicate ConsistentThroughout(l: Layout, ops: seq<Op>)
    decreases |ops|
  {
    Consistent(l) && (ops == [] || ConsistentThroughout(Apply(l, ops[0]).layout, ops[1..]))
  }

  lemma {:induction false} OpConsistent(l: Layout, op: Op)
    requires Consistent(l)
    ensures Consistent(Apply(l, op).layout) <==> Placed(l, op)
  {
    match op
    case Mkdir(name) => DirAllocated(l, name);
    case Create(name, dirid, size) => FileAllocated(l, name, dirid, size);
    case Unlink(section) => FileDeleted(l, section);
    case Rmdir(name) => DirDeleted(l, name);
  }

  /** Every layout of a run is consistent exactly when every file it makes is made in a directory that exists then. */
  lemma {:induction false} RunConsistent(l: Layout, ops: seq<Op>)
    requires Consistent(l)
    ensures ConsistentThroughout(l, ops) <==> PlacedThroughout(l, ops)
    decreases |ops|
  {
    if ops != [] {
      OpConsistent(l, ops[0]);
      if Placed(l, ops[0]) { RunConsistent(Apply(l, ops[0]).layout, ops[1..]); }
    }
  }

  /** In a consistent layout no two live entries, directories or files, have the same id. */
  lemma {:induction false} IdsUnique(l: Layout)
    requires Consistent(l)
    ensures forall i, j :: 0 <= i < j < 128 && l.dirs[i].id > 0 ==> l.dirs[i].id != l.dirs[j].id
    ensures forall j, k :: 0 <= j < k < 256 && l.files[j].id > 0 ==> l.files[j].id != l.files[k].id
    ensures forall i, k :: 0 <= i < MAX_DIR && 0 <= k < MAX_ARCH && l.dirs[i].id > 0 ==> l.dirs[i].id != l.files[k].id
  {
    forall j, k | 0 <= j < k < MAX_ARCH && l.files[j].id > 0 ensures l.files[j].id != l.files[k].id {
      assert FileOk(l.dirs, l.files[j], j) && FileOk(l.dirs, l.files[k], k);
    }
    forall i, k | 0 <= i < MAX_DIR && 0 <= k < MAX_ARCH && l.dirs[i].id > 0 ensures l.dirs[i].id != l.files[k].id {
      assert FileOk(l.dirs, l.files[k], k);
    }
  }
}

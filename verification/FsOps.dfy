/** The file system's operations over the arrays of the layout, each proved to do what the layout functions say. */
module FsOps {
  import opened Basics
  import opened FsModel
  import opened FsEffects

  class FileSystem {
    const mask: array<bv8>
    const dir: array<Dir>
    const archive: array<File>

    ghost predicate Shaped()
      reads this
    {
      mask.Length == MAX_MASK && dir.Length == MAX_DIR && archive.Length == MAX_ARCH
    }

    ghost function Now(): (l: Layout)
      reads this, mask, dir, archive
      requires Shaped()
      ensures Sized(l)
    {
      Layout(mask[..], dir[..], archive[..])
    }

    constructor ()
      ensures Shaped() && fresh(mask) && fresh(dir) && fresh(archive) && Consistent(Now())
    {
      mask := new bv8[MAX_MASK](i => 0);
      dir := new Dir[MAX_DIR](i => NO_DIR);
      archive := new File[MAX_ARCH](i => NO_FILE);
      new;
      assert mask[..] == EMPTY.mask && dir[..] == EMPTY.dirs && archive[..] == EMPTY.files;
      EmptyConsistent();
    }

    /** `fs_search_free_section` with the bit taken on success: byte by byte, bit by bit. */
    method TakeFreeSection() returns (n: int)
      requires Shaped()
      modifies mask
      ensures n == FreeBit(old(mask[..]), 0)
      ensures mask[..] == if n < 0 then old(mask[..]) else SetBit(old(mask[..]), n, true)
    {
      ghost var was := mask[..];
      for i := 0 to MAX_MASK
        invariant mask[..] == was && FreeBit(was, 8 * i) == FreeBit(was, 0)
      {
        var j := ClearBitOf(mask[i]);
        FreeInByte(was, i, j);
        if j < 8 {
          n := TakeBit(i, j);
          return;
        }
      }
      n := -1;
    }

    method TakeBit(i: nat, j: nat) returns (n: nat)
      requires Shaped() && i < MAX_MASK && j < 8
      modifies mask
      ensures n == 8 * i + j && mask[..] == SetBit(old(mask[..]), n, true)
    {
      n := 8 * i + j;
      PlaceOf(i, j);
      mask[i] := ByteSet(mask[i], j, true);
    }

    /** `fs_set_section_bitmask` with 0. */
    method ClearSection(index: int)
      requires Shaped()
      modifies mask
      ensures mask[..] == Release(old(mask[..]), index)
    {
      if index < 0 { return; }
      var i := index / 8;
      if i >= MAX_MASK { return; }
      mask[i] := ByteSet(mask[i], index % 8, false);
    }

    /** `fs_search_dir_byname`. */
    method SearchDirByName(name: string) returns (i: int)
      requires Shaped()
      ensures i == FindDir(dir[..], name)
    {
      i := 0;
      while i < MAX_DIR
        invariant 0 <= i <= MAX_DIR
        invariant forall j :: 0 <= j < i ==> !(Same(name, dir[j].name) && dir[j].id > 0)
      {
        if Same(name, dir[i].name) && dir[i].id > 0 {
          return;
        }
        i := i + 1;
      }
      i := -1;
    }

    method SeekFreeDir() returns (i: int)
      requires Shaped()
      ensures i == FreeDir(dir[..])
    {
      i := 0;
      while i < MAX_DIR
        invariant 0 <= i <= MAX_DIR
        invariant forall j :: 0 <= j < i ==> dir[j].id > 0
      {
        if dir[i].id <= 0 { return; }
        i := i + 1;
      }
      i := -1;
    }

    method SearchFileByName(name: string, dirid: int) returns (i: int)
      requires Shaped()
      ensures i == FindFile(archive[..], name, dirid)
    {
      i := 0;
      while i < MAX_ARCH
        invariant 0 <= i <= MAX_ARCH
        invariant forall j :: 0 <= j < i ==> !(archive[j].dirid == dirid && Same(archive[j].name, name))
      {
        if archive[i].dirid == dirid && Same(archive[i].name, name) { return; }
        i := i + 1;
      }
      i := -1;
    }

    /** `fs_allocate_dir`. */
    method Mkdir(name: string) returns (code: int)
      requires Shaped() && Consistent(Now())
      modifies dir
      ensures Step(code, Now()) == AllocateDir(old(Now()), name) && Consistent(Now())
      ensures code > 0 ==> code % 65536 == 0 && dir[..] == old(dir[..])[code / 65536 - 1 := Dir(code, name)]
      ensures code <= 0 ==> dir[..] == old(dir[..])
    {
      DirAllocated(Now(), name);
      DirMadeAt(Now(), name);
      if Same(name, "proc") { return -EEXIST; }
      var found := SearchDirByName(name);
      if found >= 0 { return -EEXIST; }
      var i := SeekFreeDir();
      if i < 0 { return -1; }
      dir[i] := Dir((1 + i) * 65536, name);
      code := dir[i].id;
    }

    /** `fs_allocate_file`. */
    method Create(name: string, dirid: int, size: int) returns (code: int)
      requires Shaped() && Consistent(Now())
      modifies mask, archive
      ensures Step(code, Now()) == AllocateFile(old(Now()), name, dirid, size)
      ensures Asked(old(Now()), name, dirid, size, Step(code, Now()))
    {
      FileAsked(Now(), name, dirid, size);
      code := Allocate(name, dirid, size);
    }

    method Allocate(name: string, dirid: int, size: int) returns (code: int)
      requires Shaped()
      modifies mask, archive
      ensures Step(code, Now()) == AllocateFile(old(Now()), name, dirid, size)
    {
      if size < 0 || dirid <= 0 || size >= MAX_FILE_SIZE { return -1; }
      var found := SearchFileByName(name, dirid);
      if found >= 0 { return -EEXIST; }
      code := Fill(name, dirid, size);
    }

    method Fill(name: string, dirid: int, size: int) returns (code: int)
      requires Shaped() && 0 <= size < MAX_FILE_SIZE && dirid > 0 && FindFile(archive[..], name, dirid) < 0
      modifies mask, archive
      ensures Step(code, Now()) == AllocateFile(old(Now()), name, dirid, size)
    {
      ghost var was, free := Now(), FreeBit(mask[..], 0);
      var n := TakeFreeSection();
      if n < 0 {
        assert Now() == was;
        return -1;
      }
      ghost var held := was.(mask := SetBit(was.mask, free, true));
      assert Now() == held;
      if archive[n].id > 0 { return -1; }
      Store(n, File(dirid + n + 1, name, dirid, size, n));
      code := n;
    }

    method Store(n: nat, f: File)
      requires n < archive.Length
      modifies archive
      ensures archive[..] == old(archive[..])[n := f]
    {
      archive[n] := f;
    }

    /** `fs_delete_file`. */
    method Unlink(section: int) returns (code: int)
      requires Shaped() && Consistent(Now())
      modifies mask, archive
      ensures Step(code, Now()) == DeleteFile(old(Now()), section) && Consistent(Now())
      ensures code == if 0 <= section < 256 && old(archive[..])[section].id > 0 then 0 else -1
      ensures archive[..] == if code == 0 then old(archive[..])[section := NO_FILE] else old(archive[..])
      ensures forall k :: 0 <= k < 256 ==>
        (Bit(mask[..], k) <==> Bit(old(mask[..]), k) && !(code == 0 && k == section))
    {
      FileDeleted(Now(), section);
      if section < 0 || section >= MAX_ARCH { return -1; }
      if archive[section].id <= 0 { return -1; }
      ClearSection(archive[section].section);
      archive[section] := NO_FILE;
      code := 0;
    }

    /** `fs_delete_dir`. */
    method Rmdir(name: string) returns (code: int)
      requires Shaped() && Consistent(Now())
      modifies mask, dir, archive
      ensures Step(code, Now()) == DeleteDir(old(Now()), name) && Consistent(Now())
      ensures code == if FindDir(old(dir[..]), name) >= 0 then 0 else -1
      ensures code == 0 ==> var i := FindDir(old(dir[..]), name);
        && dir[..] == old(dir[..])[i := NO_DIR]
        && forall k :: 0 <= k < 256 ==>
             archive[k] == if Owned(old(archive[k]), old(dir[..])[i].id) then NO_FILE else old(archive[k])
    {
      DirDeleted(Now(), name);
      var d := SearchDirByName(name);
      if d < 0 { return -1; }
      var dirid := dir[d].id;
      dir[d] := NO_DIR;
      DropAll(dirid);
      code := 0;
    }

    method DropAll(dirid: int)
      requires Shaped()
      modifies mask, archive
      ensures Now() == DropFiles(old(Now()), dirid, MAX_ARCH)
    {
      for i := 0 to MAX_ARCH
        invariant Now() == DropFiles(old(Now()), dirid, i)
      {
        if archive[i].id > 0 && archive[i].dirid == dirid {
          ClearSection(archive[i].section);
          archive[i] := NO_FILE;
        }
      }
    }
  }

  /** The inner loop: the lowest clear bit of a byte, or 8. */
  method ClearBitOf(b: bv8) returns (j: nat)
    ensures j <= 8 && (j < 8 ==> !OnByte(b, j)) && forall x :: 0 <= x < j ==> OnByte(b, x)
  {
    j := 0;
    while j < 8
      invariant j <= 8 && forall x :: 0 <= x < j ==> OnByte(b, x)
    {
      if !OnByte(b, j) { return; }
      j := j + 1;
    }
  }

  lemma {:induction false} FreeInByte(mask: seq<bv8>, i: nat, j: nat)
    requires |mask| == MAX_MASK && i < MAX_MASK && j <= 8
    requires (j < 8 ==> !OnByte(mask[i], j)) && forall x :: 0 <= x < j ==> OnByte(mask[i], x)
    ensures if j < 8 then FreeBit(mask, 8 * i) == 8 * i + j else FreeBit(mask, 8 * i) == FreeBit(mask, 8 * i + 8)
  {
    forall k | 8 * i <= k < 8 * i + j ensures Bit(mask, k) {
      PlaceOf(i, k - 8 * i);
    }
    FreeSkip(mask, 8 * i, 8 * i + j);
    if j < 8 { PlaceOf(i, j); }
  }

  lemma {:induction false} PlaceOf(i: nat, x: nat)
    requires x < 8
    ensures (8 * i + x) / 8 == i && (8 * i + x) % 8 == x
  {
  }

  lemma {:induction false} FreeSkip(mask: seq<bv8>, k: nat, m: nat)
    requires |mask| == MAX_MASK && k <= m <= MAX_ARCH && forall j :: k <= j < m ==> Bit(mask, j)
    ensures FreeBit(mask, k) == FreeBit(mask, m)
    decreases m - k
  {
    if k < m { FreeSkip(mask, k + 1, m); }
  }
}

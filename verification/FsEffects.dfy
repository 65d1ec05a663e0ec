/** What the file system's operations change, and that an allocation and the deletion of what it made cancel. */
module FsEffects {
  import opened Basics
  import opened FsModel

  /** The first slot of a free file: its bit is clear and every slot before it is taken. */
  predicate FirstFree(l: Layout, n: int)
    requires Sized(l)
  {
    0 <= n < 256 && l.files[n] == NO_FILE && forall k :: 0 <= k < n ==> l.files[k].id > 0
  }

  /** A file that is made takes the first free slot and its mask bit, is found there, and nothing else changes. */
  lemma {:induction false} FileMadeAt(l: Layout, name: string, dirid: int, size: int)
    requires Consistent(l) && !Refused(l, name, dirid, size)
    ensures var r := AllocateFile(l, name, dirid, size);
      && FirstFree(l, r.code) && r.layout.dirs == l.dirs
      && r.layout.files == l.files[r.code := File(dirid + r.code + 1, name, dirid, size, r.code)]
      && (forall k :: 0 <= k < 256 ==> (Bit(r.layout.mask, k) <==> k == r.code || Bit(l.mask, k)))
      && FindFile(r.layout.files, name, dirid) == r.code
  {
    TakenFound(l.dirs, l.files, name, dirid);
    FreeIsFirst(l);
    var n := FreeBit(l.mask, 0);
    MadeHere(l, name, dirid, size, n);
    OneBitMore(l.mask, n);
    FoundAt(l.files, name, dirid, n, File(dirid + n + 1, name, dirid, size, n));
  }

  lemma {:induction false} FreeIsFirst(l: Layout)
    requires Consistent(l) && !NoSlot(l.files)
    ensures FirstFree(l, FreeBit(l.mask, 0))
  {
    NoneFree(l.mask, l.files);
    var n := FreeBit(l.mask, 0);
    assert FileOk(l.dirs, l.files[n], n);
  }

  lemma {:induction false} MadeHere(l: Layout, name: string, dirid: int, size: int, n: nat)
    requires Sized(l) && 0 <= size < 8192 && dirid > 0 && FindFile(l.files, name, dirid) < 0
    requires n == FreeBit(l.mask, 0) && n < 256 && l.files[n] == NO_FILE
    ensures AllocateFile(l, name, dirid, size) ==
      Step(n, l.(mask := SetBit(l.mask, n, true), files := l.files[n := File(dirid + n + 1, name, dirid, size, n)]))
  {
  }

  lemma {:induction false} OneBitMore(mask: seq<bv8>, n: nat)
    requires |mask| == 32 && n < 256
    ensures forall k :: 0 <= k < 256 ==> (Bit(SetBit(mask, n, true), k) <==> k == n || Bit(mask, k))
  {
    forall k | 0 <= k < 256 ensures Bit(SetBit(mask, n, true), k) <==> k == n || Bit(mask, k) {
      SetBitAt(mask, n, true, k);
    }
  }

  /** What a request for a file answers and does, whatever it asks for. */
  ghost predicate Asked(l: Layout, name: string, dirid: int, size: int, r: Step)
    requires Sized(l)
  {
    && Sized(r.layout) && r.layout.dirs == l.dirs && (r.code < 0 <==> Refused(l, name, dirid, size))
    && (Consistent(r.layout) <==> LiveDir(l.dirs, dirid) || Refused(l, name, dirid, size))
    && (r.code < 0 ==> r.layout == l)
    && (r.code >= 0 ==>
          && FirstFree(l, r.code) && FindFile(r.layout.files, name, dirid) == r.code
          && r.layout.files == l.files[r.code := File(dirid + r.code + 1, name, dirid, size, r.code)]
          && forall k :: 0 <= k < 256 ==> (Bit(r.layout.mask, k) <==> k == r.code || Bit(l.mask, k)))
  }

  lemma {:induction false} FileAsked(l: Layout, name: string, dirid: int, size: int)
    requires Consistent(l)
    ensures Asked(l, name, dirid, size, AllocateFile(l, name, dirid, size))
  {
    FileAllocFails(l, name, dirid, size);
    FileAllocated(l, name, dirid, size);
    if !Refused(l, name, dirid, size) { FileMadeAt(l, name, dirid, size); }
  }

  lemma {:induction false} FoundAt(fs: seq<File>, name: string, dirid: int, n: nat, f: File)
    requires n < |fs| && FindFile(fs, name, dirid) < 0 && f.dirid == dirid && f.name == name
    ensures FindFile(fs[n := f], name, dirid) == n
  {
    var i := FindFile(fs[n := f], name, dirid);
    assert Same(fs[n := f][n].name, name);
    assert forall j :: 0 <= j < n ==> fs[n := f][j] == fs[j];
  }

  /** After a file is deleted its name is free in its directory, and a file of that name can be made there. */
  lemma {:induction false} NameFreed(l: Layout, section: int, size: int)
    requires Consistent(l) && 0 <= section < 256 && l.files[section].id > 0 && 0 <= size < 8192
    ensures var f, after := l.files[section], DeleteFile(l, section).layout;
      && !NameTaken(after.files, f.name, f.dirid) && !Refused(after, f.name, f.dirid, size)
      && AllocateFile(after, f.name, f.dirid, size).code >= 0
  {
    var f, after := l.files[section], DeleteFile(l, section).layout;
    FileDeleted(l, section);
    assert FileOk(l.dirs, f, section);
    forall k | 0 <= k < 256 && Owned(after.files[k], f.dirid) ensures !Same(after.files[k].name, f.name) {
      assert k != section && after.files[k] == l.files[k];
      assert !Same(l.files[if k < section then k else section].name, l.files[if k < section then section else k].name);
    }
    assert after.files[section].id <= 0;
    FileAllocFails(after, f.name, f.dirid, size);
  }

  /** A directory that is made takes the first free slot, with the id of that slot, and is found there. */
  lemma {:induction false} DirMadeAt(l: Layout, name: string)
    requires Consistent(l)
    ensures var r := AllocateDir(l, name);
      if Same(name, "proc") || FindDir(l.dirs, name) >= 0 then r == Step(-17, l)
      else if forall k :: 0 <= k < 128 ==> l.dirs[k].id > 0 then r == Step(-1, l)
      else
        var i := r.code / 65536 - 1;
        && 0 <= i < 128 && r.code == (i + 1) * 65536 && l.dirs[i] == NO_DIR
        && (forall k :: 0 <= k < i ==> l.dirs[k].id > 0)
        && r.layout == l.(dirs := l.dirs[i := Dir(r.code, name)]) && FindDir(r.layout.dirs, name) == i
  {
    if !Same(name, "proc") && FindDir(l.dirs, name) < 0 && FreeDir(l.dirs) >= 0 {
      var i := FreeDir(l.dirs);
      DirFoundAt(l.dirs, name, i, Dir((1 + i) * 65536, name));
    }
  }

  lemma {:induction false} DirFoundAt(ds: seq<Dir>, name: string, n: nat, d: Dir)
    requires n < |ds| && FindDir(ds, name) < 0 && d.name == name && d.id > 0
    ensures FindDir(ds[n := d], name) == n
  {
    var i := FindDir(ds[n := d], name);
    assert Same(name, ds[n := d][n].name);
    assert forall j :: 0 <= j < n ==> ds[n := d][j] == ds[j];
  }

  // ---- Made and deleted again ----

  lemma {:induction false} BitBack(b: bv8, r: nat)
    requires r < 8 && !OnByte(b, r)
    ensures ByteSet(ByteSet(b, r, true), r, false) == b
  {
    ByteBack(b, BitMask(r));
  }

  lemma {:induction false} ByteBack(b: bv8, m: bv8)
    requires b & m == 0
    ensures (b | m) & !m == b
  {
  }

  lemma {:induction false} MaskBack(mask: seq<bv8>, n: nat)
    requires n / 8 < |mask| && !Bit(mask, n)
    ensures SetBit(SetBit(mask, n, true), n, false) == mask
  {
    BitBack(mask[n / 8], n % 8);
  }

  /** Deleting the file just made gives the layout back, bit for bit. */
  lemma {:induction false} FileUndone(l: Layout, name: string, dirid: int, size: int)
    requires Consistent(l) && !Refused(l, name, dirid, size)
    ensures var r := AllocateFile(l, name, dirid, size); DeleteFile(r.layout, r.code) == Step(0, l)
  {
    FileMadeAt(l, name, dirid, size);
    NoneFree(l.mask, l.files);
    var n := FreeBit(l.mask, 0);
    TakenFound(l.dirs, l.files, name, dirid);
    FileMade(l, name, dirid, size, n);
    MaskBack(l.mask, n);
    assert l.files[n := File(dirid + n + 1, name, dirid, size, n)][n := NO_FILE] == l.files;
  }

  /** Deleting the directory just made gives the layout back. */
  lemma {:induction false} DirUndone(l: Layout, name: string)
    requires Consistent(l) && AllocateDir(l, name).code > 0
    ensures DeleteDir(AllocateDir(l, name).layout, name) == Step(0, l)
  {
    DirMadeAt(l, name);
    DirAllocated(l, name);
    var made := AllocateDir(l, name);
    var i, l' := FindDir(made.layout.dirs, name), made.layout;
    DirDeleted(l', name);
    forall k | 0 <= k < 256 ensures !Owned(l'.files[k], made.code) {
      assert FileOk(l.dirs, l.files[k], k);
    }
    NoneDropped(l'.(dirs := l'.dirs[i := NO_DIR]), made.code, MAX_ARCH);
    assert l'.dirs[i := NO_DIR] == l.dirs;
  }

  lemma {:induction false} NoneDropped(l: Layout, dirid: int, n: nat)
    requires Sized(l) && n <= MAX_ARCH && forall k :: 0 <= k < 256 ==> !Owned(l.files[k], dirid)
    ensures DropFiles(l, dirid, n) == l
  {
    if n > 0 { NoneDropped(l, dirid, n - 1); }
  }
}

/**
  The file system on the disk: two system files (the free map and the directory)
  with headers in sectors 0 and 1, and the files listed in the directory.  The
  invariant says who owns every sector.
 */
module FileSystems {
  import opened Common
  import opened BitMaps
  import opened Codec
  import opened Storage
  import opened FileHeaders
  import opened OpenFiles
  import D = Directories

  const NumDirEntries: nat := 10
  const DirectoryFileSize: nat := D.EntrySize * NumDirEntries

  // What the disk says: the sector of the free map, the header of the directory
  // file, the marked sectors, the directory, and the headers of the listed files.
  datatype Layout = Layout(m: int, dir: Header, marked: set<nat>, table: seq<D.Entry>, headers: seq<Header>)

  predicate InUse(l: Layout, e: int) {
    0 <= e < NumDirEntries <= |l.table| && l.table[e].inUse
  }

  predicate DirFileOk(h: Header) {
    && FileHeaders.Shaped(h) && h.numBytes == DirectoryFileSize && h.numSectors == 2
    && OnDisk(h.data[0]) && OnDisk(h.data[1]) && h.data[0] != h.data[1]
  }

  // The layout is what is read off the disk.
  ghost predicate Describes(l: Layout, d: Image) {
    && MapFileOk(d) && l.m == MapSector(d) && l.marked == MapBits(d)
    && l.dir == Decode(d[1]) && DirFileOk(l.dir) && WellMapped(l.dir, d) && l.table == D.DecodeTable(Content(l.dir, d))
    && |l.headers| == NumDirEntries
    && forall e :: InUse(l, e) ==> OnDisk(l.table[e].sector) && l.headers[e] == Decode(d[l.table[e].sector])
  }

  // The sectors of the system itself.
  function System(l: Layout): seq<int>
    requires DirFileOk(l.dir)
  {
    [0, 1, l.m, l.dir.data[0], l.dir.data[1]]
  }

  // A file's header agrees with itself.
  predicate FileOk(h: Header, sector: int) {
    Sound(h) && h.hdrSector == sector && h.numBytes >= 0 && h.numSectors == SectorsFor(h.numBytes)
  }

  // The sectors of a listed file: its header and what its header owns.
  function FileSectors(h: Header, sector: int, d: Image): seq<int>
    requires Sound(h)
  {
    [sector] + Owned(h, d)
  }

  ghost predicate FilesOk(l: Layout) {
    |l.table| == NumDirEntries && |l.headers| == NumDirEntries && forall e :: InUse(l, e) ==> FileOk(l.headers[e], l.table[e].sector)
  }

  // Sector x belongs to the file in entry e.
  ghost predicate OwnedBy(l: Layout, d: Image, e: int, x: int)
    requires FilesOk(l)
  {
    InUse(l, e) && x in FileSectors(l.headers[e], l.table[e].sector, d)
  }

  // Every sector of the disk has at most one owner, once, and is marked exactly
  // when it has one.
  ghost predicate Consistent(l: Layout, d: Image)
    requires DirFileOk(l.dir)
  {
    && FilesOk(l) && D.Shaped(l.table) && D.UniqueNames(l.table)
    && NoDup(System(l)) && (forall x <- System(l) :: OnDisk(x))
    && (forall e :: InUse(l, e) ==> NoDup(FileSectors(l.headers[e], l.table[e].sector, d)))
    && (forall e, x :: OwnedBy(l, d, e, x) ==> OnDisk(x) && x !in System(l))
    && (forall e, f, x :: OwnedBy(l, d, e, x) && OwnedBy(l, d, f, x) ==> e == f)
    && (forall x: nat :: x in l.marked <==> x in System(l) || exists e :: OwnedBy(l, d, e, x))
  }

  // The invariant.  It is quantified over a dummy, so that a proof sees what is
  // inside only where it calls Inside: unfolded wherever it is passed on, it takes many
  // proofs to the resource limit and some beyond.
  ghost predicate FsOk(l: Layout, d: Image) {
    && DirFileOk(l.dir) && FilesOk(l)
    && forall look {:trigger Inspect(look)} :: Inspect(look) ==> Describes(l, d) && Consistent(l, d)
  }

  predicate Inspect(look: int) { true }

  // The headers of the two system files are in memory.
  ghost predicate Mounted(l: Layout, d: Image, mapHdr: Header, dirHdr: Header) {
    && FsOk(l, d) && dirHdr == l.dir
    && forall look {:trigger Inspect(look)} :: Inspect(look) ==> mapHdr == Decode(d[0])
  }

  lemma InsideMounted(l: Layout, d: Image, mapHdr: Header, dirHdr: Header)
    requires Mounted(l, d, mapHdr, dirHdr)
    ensures Describes(l, d) && Consistent(l, d) && mapHdr == Decode(d[0])
  {
    assert Inspect(0);
  }

  lemma Inside(l: Layout, d: Image)
    requires FsOk(l, d)
    ensures Describes(l, d) && Consistent(l, d)
  {
    assert Inspect(0);
  }

  // ------------------------------------------------------------------------ frames

  lemma OwnedFrame(h: Header, d: Image, d': Image)
    requires Sound(h) && forall x :: x in Owned(h, d) && OnDisk(x) ==> d'[x] == d[x]
    ensures Owned(h, d') == Owned(h, d)
  {
    if h.numSectors > NumDirect {
      var x := h.data[NumDirect - 1];
      assert x in h.data;
      assert x in Owned(h, d);
    }
  }

  // A block of a well-mapped file is one of the sectors it owns.
  lemma BlockOwned(h: Header, d: Image, k: nat)
    requires WellMapped(h, d) && k < h.numSectors
    ensures BlockSector(h, d, k) in Owned(h, d)
  {
    if h.numSectors <= NumDirect {
      assert h.data[..h.numSectors][k] == h.data[k];
    } else if k < NumDirect - 1 {
      assert h.data[k] in h.data;
    } else {
      assert Entries(d[h.data[NumDirect - 1]], h.numSectors - (NumDirect - 1))[k - (NumDirect - 1)] == BlockSector(h, d, k);
    }
  }

  // A file none of whose sectors is written keeps its bytes.
  lemma ContentFrame(h: Header, d: Image, d': Image)
    requires WellMapped(h, d) && forall x :: x in Owned(h, d) && OnDisk(x) ==> d'[x] == d[x]
    ensures WellMapped(h, d') && Content(h, d') == Content(h, d)
  {
    if h.numSectors > NumDirect {
      assert h.data[NumDirect - 1] in h.data;
      assert h.data[NumDirect - 1] in Owned(h, d);
    }
    SameMapping(h, d, d');
    forall i | 0 <= i < h.numBytes ensures RawByte(h, d', i) == RawByte(h, d, i) {
      BlockOwned(h, d, i / SectorSize);
    }
  }

  // ---------------------------------------------------------------- one file changes

  // l' on d' is l on d with the file in entry e0 changed: created, removed or
  // extended.  The other files and the system are as they were.
  ghost predicate OthersKept(l: Layout, d: Image, l': Layout, d': Image, e0: nat)
    requires FilesOk(l) && FilesOk(l')
  {
    && l'.m == l.m && l'.dir == l.dir
    && (forall e :: 0 <= e < NumDirEntries && e != e0 ==> l'.table[e] == l.table[e] && l'.headers[e] == l.headers[e])
    && (forall e, x :: e != e0 && OwnedBy(l, d, e, x) && OnDisk(x) ==> d'[x] == d[x])
  }

  // Another file owns what it owned.
  lemma OtherFile(l: Layout, d: Image, l': Layout, d': Image, e0: nat, e: int)
    requires FilesOk(l) && FilesOk(l') && OthersKept(l, d, l', d', e0) && InUse(l, e) && e != e0
    ensures InUse(l', e) && FileSectors(l'.headers[e], l'.table[e].sector, d') == FileSectors(l.headers[e], l.table[e].sector, d)
  {
    forall x | x in Owned(l.headers[e], d) && OnDisk(x) ensures d'[x] == d[x] {
      assert OwnedBy(l, d, e, x);
    }
    OwnedFrame(l.headers[e], d, d');
  }

  lemma OthersOwn(l: Layout, d: Image, l': Layout, d': Image, e0: nat, e: int, x: int)
    requires FilesOk(l) && FilesOk(l') && OthersKept(l, d, l', d', e0) && e != e0
    ensures OwnedBy(l', d', e, x) <==> OwnedBy(l, d, e, x)
  {
    if InUse(l, e) { OtherFile(l, d, l', d', e0, e); }
  }

  // The changed file has taken only sectors that were its own or free, and the
  // marks follow.
  ghost predicate TakesFreeOnly(l: Layout, d: Image, l': Layout, d': Image, e0: nat)
    requires FilesOk(l) && FilesOk(l')
  {
    && (InUse(l', e0) ==> NoDup(FileSectors(l'.headers[e0], l'.table[e0].sector, d')))
    && (forall x :: OwnedBy(l', d', e0, x) ==> OnDisk(x) && (OwnedBy(l, d, e0, x) || x !in l.marked))
    && (forall x: nat :: x in l'.marked <==> (x in l.marked && !OwnedBy(l, d, e0, x)) || OwnedBy(l', d', e0, x))
  }

  lemma MarksFollow(l: Layout, d: Image, l': Layout, d': Image, e0: nat, x: nat)
    requires DirFileOk(l.dir) && Consistent(l, d) && DirFileOk(l'.dir) && FilesOk(l') && e0 < NumDirEntries
    requires OthersKept(l, d, l', d', e0) && TakesFreeOnly(l, d, l', d', e0)
    ensures x in l'.marked <==> x in System(l') || exists e :: OwnedBy(l', d', e, x)
  {
    if OwnedBy(l', d', e0, x) {
      assert x in l'.marked;
    } else if x in l.marked && !OwnedBy(l, d, e0, x) {
      if x !in System(l) {
        var e :| OwnedBy(l, d, e, x);
        OthersOwn(l, d, l', d', e0, e, x);
      }
    } else {
      forall e ensures !OwnedBy(l', d', e, x) {
        if e != e0 { OthersOwn(l, d, l', d', e0, e, x); }
      }
    }
  }

  // So the sectors are still owned once each.
  lemma OneFileChanged(l: Layout, d: Image, l': Layout, d': Image, e0: nat)
    requires DirFileOk(l.dir) && Consistent(l, d) && DirFileOk(l'.dir) && FilesOk(l') && e0 < NumDirEntries
    requires D.Shaped(l'.table) && D.UniqueNames(l'.table)
    requires OthersKept(l, d, l', d', e0) && TakesFreeOnly(l, d, l', d', e0)
    ensures Consistent(l', d')
  {
    forall e | InUse(l', e) ensures NoDup(FileSectors(l'.headers[e], l'.table[e].sector, d')) {
      if e != e0 { OtherFile(l, d, l', d', e0, e); }
    }
    forall e, x | OwnedBy(l', d', e, x) ensures OnDisk(x) && x !in System(l') {
      OwnerOutsideSystem(l, d, l', d', e0, e, x);
    }
    forall e, f, x | OwnedBy(l', d', e, x) && OwnedBy(l', d', f, x) ensures e == f {
      OneOwner(l, d, l', d', e0, e, f, x);
    }
    forall x: nat ensures x in l'.marked <==> x in System(l') || exists e :: OwnedBy(l', d', e, x) {
      MarksFollow(l, d, l', d', e0, x);
    }
  }

  lemma OwnerOutsideSystem(l: Layout, d: Image, l': Layout, d': Image, e0: nat, e: int, x: int)
    requires DirFileOk(l.dir) && Consistent(l, d) && DirFileOk(l'.dir) && FilesOk(l')
    requires OthersKept(l, d, l', d', e0) && TakesFreeOnly(l, d, l', d', e0) && OwnedBy(l', d', e, x)
    ensures OnDisk(x) && x !in System(l')
  {
    if e != e0 { OthersOwn(l, d, l', d', e0, e, x); }
    else { assert x in System(l) && OnDisk(x) ==> x in l.marked; }
  }

  lemma OneOwner(l: Layout, d: Image, l': Layout, d': Image, e0: nat, e: int, f: int, x: int)
    requires DirFileOk(l.dir) && Consistent(l, d) && DirFileOk(l'.dir) && FilesOk(l')
    requires OthersKept(l, d, l', d', e0) && TakesFreeOnly(l, d, l', d', e0)
    requires OwnedBy(l', d', e, x) && OwnedBy(l', d', f, x)
    ensures e == f
  {
    if e != e0 { OthersOwn(l, d, l', d', e0, e, x); }
    if f != e0 { OthersOwn(l, d, l', d', e0, f, x); }
  }

  // -------------------------------------------------------------- system files kept

  // The sectors that hold the contents of the free map and the directory.
  function SystemData(l: Layout): seq<int>
    requires DirFileOk(l.dir)
  {
    [l.m, l.dir.data[0], l.dir.data[1]]
  }

  // Apart from the contents of the system files, no sector in use was written.
  ghost predicate UsedKept(l: Layout, d: Image, d': Image)
    requires DirFileOk(l.dir)
  {
    forall x: nat :: x in l.marked && OnDisk(x) && x !in SystemData(l) ==> d'[x] == d[x]
  }

  // The system files hold the new marks and the new table.
  ghost predicate SystemHolds(l: Layout, d': Image, marked: set<nat>, table: seq<D.Entry>)
    requires DirFileOk(l.dir)
  {
    && MapFileOk(d') && MapSector(d') == l.m && MapBits(d') == marked
    && WellMapped(l.dir, d') && D.DecodeTable(Content(l.dir, d')) == table
  }

  // The layout after entry e0 has changed to `entry`, with header h.
  function Changed(l: Layout, e0: nat, marked: set<nat>, entry: D.Entry, h: Header): Layout
    requires e0 < |l.table| == |l.headers|
  {
    l.(marked := marked, table := l.table[e0 := entry], headers := l.headers[e0 := h])
  }

  lemma ChangedSame(l: Layout, e: nat)
    requires e < |l.table| == |l.headers|
    ensures Changed(l, e, l.marked, l.table[e], l.headers[e]) == l
  {
  }

  lemma SystemDataInSystem(l: Layout)
    requires DirFileOk(l.dir)
    ensures forall x :: x in SystemData(l) ==> x in System(l)
    ensures 0 in System(l) && 1 in System(l)
    ensures NoDup(System(l)) ==> 0 !in SystemData(l) && 1 !in SystemData(l)
  {
    var s := System(l);
    assert s[0] == 0 && s[1] == 1 && s[2] == l.m && s[3] == l.dir.data[0] && s[4] == l.dir.data[1];
  }

  lemma SystemMarked(l: Layout, d: Image)
    requires DirFileOk(l.dir) && Consistent(l, d)
    ensures forall x: nat :: x in System(l) ==> x in l.marked
    ensures 0 in l.marked && 1 in l.marked && 0 !in SystemData(l) && 1 !in SystemData(l)
  {
    SystemDataInSystem(l);
  }

  lemma OwnedIsMarked(l: Layout, d: Image, e: int, x: int)
    requires DirFileOk(l.dir) && Consistent(l, d) && OwnedBy(l, d, e, x)
    ensures OnDisk(x) && x in l.marked && x !in SystemData(l)
  {
    SystemDataInSystem(l);
  }

  lemma HeaderSectorMarked(l: Layout, d: Image, e: int)
    requires DirFileOk(l.dir) && Consistent(l, d) && InUse(l, e)
    ensures OnDisk(l.table[e].sector) && l.table[e].sector in l.marked && l.table[e].sector !in SystemData(l)
  {
    var x := l.table[e].sector;
    assert FileSectors(l.headers[e], x, d)[0] == x;
    OwnedIsMarked(l, d, e, x);
  }

  lemma StillDescribes(l: Layout, d: Image, d': Image, e0: nat, marked: set<nat>, entry: D.Entry, h: Header)
    requires FsOk(l, d) && e0 < NumDirEntries && UsedKept(l, d, d') && SystemHolds(l, d', marked, l.table[e0 := entry])
    requires entry.inUse ==> OnDisk(entry.sector) && h == Decode(d'[entry.sector])
    ensures Describes(Changed(l, e0, marked, entry, h), d')
  {
    Inside(l, d);
    var l' := Changed(l, e0, marked, entry, h);
    SystemMarked(l, d);
    assert d'[1] == d[1];
    forall e | InUse(l', e) ensures OnDisk(l'.table[e].sector) && l'.headers[e] == Decode(d'[l'.table[e].sector]) {
      if e != e0 { HeaderSectorMarked(l, d, e); }
    }
  }

  lemma StillKept(l: Layout, d: Image, d': Image, e0: nat, marked: set<nat>, entry: D.Entry, h: Header)
    requires FsOk(l, d) && e0 < NumDirEntries && UsedKept(l, d, d')
    requires entry.inUse ==> FileOk(h, entry.sector)
    ensures FilesOk(Changed(l, e0, marked, entry, h))
    ensures OthersKept(l, d, Changed(l, e0, marked, entry, h), d', e0)
  {
    Inside(l, d);
    var l' := Changed(l, e0, marked, entry, h);
    forall e | InUse(l', e) ensures FileOk(l'.headers[e], l'.table[e].sector) {
      if e != e0 { assert InUse(l, e); }
    }
    forall e, x | e != e0 && OwnedBy(l, d, e, x) && OnDisk(x) ensures d'[x] == d[x] {
      OwnedIsMarked(l, d, e, x);
    }
  }

  // --------------------------------------------------------------- creation, removal

  lemma CreatedTakes(l: Layout, d: Image, l': Layout, d': Image, at: nat)
    requires FilesOk(l) && FilesOk(l') && !InUse(l, at) && InUse(l', at)
    requires NoDup(FileSectors(l'.headers[at], l'.table[at].sector, d'))
    requires forall x :: x in FileSectors(l'.headers[at], l'.table[at].sector, d') ==> OnDisk(x) && x !in l.marked
    requires Adds(l.marked, FileSectors(l'.headers[at], l'.table[at].sector, d'), l'.marked)
    ensures TakesFreeOnly(l, d, l', d', at)
  {
    forall x: nat ensures x in l'.marked <==> (x in l.marked && !OwnedBy(l, d, at, x)) || OwnedBy(l', d', at, x) {
      assert OwnedBy(l', d', at, x) <==> x in FileSectors(l'.headers[at], l'.table[at].sector, d');
    }
  }

  // A file that has just been created: its sectors were free, and they are what
  // has been marked.
  lemma CreatedOk(l: Layout, d: Image, d': Image, at: nat, marked: set<nat>, entry: D.Entry, h: Header)
    requires FsOk(l, d) && at < NumDirEntries && !l.table[at].inUse && UsedKept(l, d, d') && SystemHolds(l, d', marked, l.table[at := entry])
    requires entry.inUse && OnDisk(entry.sector) && h == Decode(d'[entry.sector]) && FileOk(h, entry.sector)
    requires D.Shaped(l.table[at := entry]) && D.UniqueNames(l.table[at := entry])
    requires NoDup(FileSectors(h, entry.sector, d'))
    requires forall x :: x in FileSectors(h, entry.sector, d') ==> OnDisk(x) && x !in l.marked
    requires Adds(l.marked, FileSectors(h, entry.sector, d'), marked)
    ensures FsOk(Changed(l, at, marked, entry, h), d')
  {
    Inside(l, d);
    var l' := Changed(l, at, marked, entry, h);
    assert Describes(l', d') by { StillDescribes(l, d, d', at, marked, entry, h); }
    assert Consistent(l', d') by {
      StillKept(l, d, d', at, marked, entry, h);
      CreatedTakes(l, d, l', d', at);
      OneFileChanged(l, d, l', d', at);
    }
  }

  // A file that has been removed: exactly its sectors are free again.
  lemma RemovedOk(l: Layout, d: Image, d': Image, e0: nat, marked: set<nat>)
    requires FsOk(l, d) && InUse(l, e0) && UsedKept(l, d, d')
    requires SystemHolds(l, d', marked, l.table[e0 := l.table[e0].(inUse := false)])
    requires D.UniqueNames(l.table[e0 := l.table[e0].(inUse := false)])
    requires Removes(l.marked, FileSectors(l.headers[e0], l.table[e0].sector, d), marked)
    ensures FsOk(Changed(l, e0, marked, l.table[e0].(inUse := false), l.headers[e0]), d')
  {
    Inside(l, d);
    var entry := l.table[e0].(inUse := false);
    var l' := Changed(l, e0, marked, entry, l.headers[e0]);
    StillDescribes(l, d, d', e0, marked, entry, l.headers[e0]);
    StillKept(l, d, d', e0, marked, entry, l.headers[e0]);
    assert TakesFreeOnly(l, d, l', d', e0) by {
      forall x: nat ensures x in l'.marked <==> x in l.marked && !OwnedBy(l, d, e0, x) {
        assert OwnedBy(l, d, e0, x) <==> x in FileSectors(l.headers[e0], l.table[e0].sector, d);
      }
    }
    OneFileChanged(l, d, l', d', e0);
  }

  // ---------------------------------------------------------------------- writing

  // Outside the file in entry e0 and the free map, no sector in use was written.
  ghost predicate OthersUsedKept(l: Layout, d: Image, d': Image, e0: nat)
    requires FilesOk(l)
  {
    forall x: nat :: x in l.marked && OnDisk(x) && x != l.m && !OwnedBy(l, d, e0, x) ==> d'[x] == d[x]
  }

  lemma SystemKept(l: Layout, d: Image, d': Image, e0: nat, x: nat)
    requires DirFileOk(l.dir) && Consistent(l, d) && OthersUsedKept(l, d, d', e0) && x in System(l) && x != l.m
    ensures OnDisk(x) && d'[x] == d[x]
  {
    assert !OwnedBy(l, d, e0, x);
  }

  lemma DirectoryKept(l: Layout, d: Image, d': Image, e0: nat)
    requires DirFileOk(l.dir) && WellMapped(l.dir, d) && Consistent(l, d) && OthersUsedKept(l, d, d', e0)
    ensures d'[0] == d[0] && d'[1] == d[1] && WellMapped(l.dir, d') && Content(l.dir, d') == Content(l.dir, d)
  {
    var s := System(l);
    assert s[0] == 0 && s[1] == 1 && s[2] == l.m && s[3] == l.dir.data[0] && s[4] == l.dir.data[1];
    SystemKept(l, d, d', e0, s[0]);
    SystemKept(l, d, d', e0, s[1]);
    SystemKept(l, d, d', e0, s[3]);
    SystemKept(l, d, d', e0, s[4]);
    assert Owned(l.dir, d) == [s[3], s[4]];
    ContentFrame(l.dir, d, d');
  }

  lemma OtherHeaderKept(l: Layout, d: Image, d': Image, e0: nat, e: int)
    requires FsOk(l, d) && InUse(l, e0) && InUse(l, e) && e != e0 && OthersUsedKept(l, d, d', e0)
    ensures OnDisk(l.table[e].sector) && l.headers[e] == Decode(d'[l.table[e].sector])
  {
    Inside(l, d);
    HeaderSectorMarked(l, d, e);
    OwnHeaderOnly(l, d, e, e0);
  }

  lemma WrittenDescribes(l: Layout, d: Image, d': Image, e0: nat, marked: set<nat>, h: Header)
    requires FsOk(l, d) && InUse(l, e0) && OthersUsedKept(l, d, d', e0)
    requires MapFileOk(d') && MapSector(d') == l.m && MapBits(d') == marked
    requires OnDisk(l.table[e0].sector) && h == Decode(d'[l.table[e0].sector])
    ensures Describes(Changed(l, e0, marked, l.table[e0], h), d')
  {
    var l' := Changed(l, e0, marked, l.table[e0], h);
    assert l'.table == l.table;
    assert l.dir == Decode(d'[1]) && WellMapped(l.dir, d') && l.table == D.DecodeTable(Content(l.dir, d')) by {
      Inside(l, d);
      DirectoryKept(l, d, d', e0);
    }
    forall e | InUse(l', e) ensures OnDisk(l'.table[e].sector) && l'.headers[e] == Decode(d'[l'.table[e].sector]) {
      if e != e0 { OtherHeaderKept(l, d, d', e0, e); }
    }
  }

  lemma OwnHeaderOnly(l: Layout, d: Image, e: int, e0: int)
    requires DirFileOk(l.dir) && Consistent(l, d) && InUse(l, e) && InUse(l, e0) && e != e0
    ensures !OwnedBy(l, d, e0, l.table[e].sector)
  {
    assert FileSectors(l.headers[e], l.table[e].sector, d)[0] == l.table[e].sector;
    assert OwnedBy(l, d, e, l.table[e].sector);
  }

  // A file that has been written to, and perhaps has grown: it owns what it owned
  // and sectors that were free, and these are newly marked.
  lemma WrittenOk(l: Layout, d: Image, d': Image, e0: nat, marked: set<nat>, h: Header)
    requires FsOk(l, d) && InUse(l, e0) && OthersUsedKept(l, d, d', e0)
    requires MapFileOk(d') && MapSector(d') == l.m && MapBits(d') == marked
    requires OnDisk(l.table[e0].sector) && h == Decode(d'[l.table[e0].sector]) && FileOk(h, l.table[e0].sector)
    requires var before, after := FileSectors(l.headers[e0], l.table[e0].sector, d), FileSectors(h, l.table[e0].sector, d');
             && NoDup(after) && Adds(l.marked, after, marked)
             && (forall x :: x in before ==> x in after)
             && (forall x :: x in after ==> OnDisk(x) && (x in before || x !in l.marked))
    ensures FsOk(Changed(l, e0, marked, l.table[e0], h), d')
  {
    Inside(l, d);
    var l' := Changed(l, e0, marked, l.table[e0], h);
    assert Describes(l', d') by { WrittenDescribes(l, d, d', e0, marked, h); }
    assert Consistent(l', d') by {
      WrittenKept(l, d, d', e0, marked, h);
      WrittenTakes(l, d, l', d', e0);
      OneFileChanged(l, d, l', d', e0);
    }
  }

  lemma WrittenKept(l: Layout, d: Image, d': Image, e0: nat, marked: set<nat>, h: Header)
    requires DirFileOk(l.dir) && Consistent(l, d) && InUse(l, e0) && OthersUsedKept(l, d, d', e0) && FileOk(h, l.table[e0].sector)
    ensures var l' := Changed(l, e0, marked, l.table[e0], h);
            l'.table == l.table && FilesOk(l') && OthersKept(l, d, l', d', e0)
  {
    var l' := Changed(l, e0, marked, l.table[e0], h);
    assert l'.table == l.table;
    forall e | InUse(l', e) ensures FileOk(l'.headers[e], l'.table[e].sector) { assert InUse(l, e); }
    forall e, x | e != e0 && OwnedBy(l, d, e, x) && OnDisk(x) ensures d'[x] == d[x] {
      OwnedIsMarked(l, d, e, x);
    }
  }

  lemma WrittenTakes(l: Layout, d: Image, l': Layout, d': Image, e0: nat)
    requires FilesOk(l) && FilesOk(l') && InUse(l, e0) && InUse(l', e0)
    requires var before, after := FileSectors(l.headers[e0], l.table[e0].sector, d), FileSectors(l'.headers[e0], l'.table[e0].sector, d');
             && NoDup(after) && Adds(l.marked, after, l'.marked)
             && (forall x :: x in before ==> x in after)
             && (forall x :: x in after ==> OnDisk(x) && (x in before || x !in l.marked))
    ensures TakesFreeOnly(l, d, l', d', e0)
  {
    forall x: nat ensures x in l'.marked <==> (x in l.marked && !OwnedBy(l, d, e0, x)) || OwnedBy(l', d', e0, x) {
      assert OwnedBy(l, d, e0, x) <==> x in FileSectors(l.headers[e0], l.table[e0].sector, d);
      assert OwnedBy(l', d', e0, x) <==> x in FileSectors(l'.headers[e0], l'.table[e0].sector, d');
    }
  }

  // A listed file of any size but NumDirect sectors is well mapped, and apart from
  // the system.
  lemma FileMapped(h: Header, sector: int, d: Image)
    requires FileOk(h, sector) && h.numSectors != NumDirect && NoDup(FileSectors(h, sector, d))
    requires forall x :: x in FileSectors(h, sector, d) ==> OnDisk(x)
    ensures WellMapped(h, d)
    ensures forall k :: 0 <= k < h.numSectors ==> BlockSector(h, d, k) in FileSectors(h, sector, d) && BlockSector(h, d, k) != sector
    ensures h.numSectors > NumDirect ==> h.data[NumDirect - 1] in FileSectors(h, sector, d) && h.data[NumDirect - 1] != sector
  {
    FileApart(h, sector, d);
    var f := FileSectors(h, sector, d);
    forall k | 0 <= k < h.numSectors ensures BlockSector(h, d, k) == f[BlockIndex(h, k)] { BlockAtIndex(h, sector, d, k); }
    if h.numSectors > NumDirect {
      assert f[h.numSectors - (NumDirect - 1) + NumDirect] == h.data[NumDirect - 1];
    }
  }

  lemma FileApart(h: Header, sector: int, d: Image)
    requires FileOk(h, sector) && h.numSectors != NumDirect && NoDup(FileSectors(h, sector, d))
    ensures forall k :: 0 <= k < h.numSectors ==> BlockSector(h, d, k) in FileSectors(h, sector, d) && BlockSector(h, d, k) != sector
    ensures h.numSectors > NumDirect ==> h.data[NumDirect - 1] in FileSectors(h, sector, d) && h.data[NumDirect - 1] != sector
  {
    var f := FileSectors(h, sector, d);
    assert f[0] == sector;
    forall k | 0 <= k < h.numSectors ensures BlockSector(h, d, k) in f && BlockSector(h, d, k) != sector {
      BlockAtIndex(h, sector, d, k);
      assert f[BlockIndex(h, k)] in f;
    }
    if h.numSectors > NumDirect {
      var i := h.numSectors - (NumDirect - 1) + NumDirect;
      assert f[i] == h.data[NumDirect - 1] && f[i] in f;
    }
  }

  // Where block k stands among the sectors of the file.
  function BlockIndex(h: Header, k: nat): nat
    requires k < h.numSectors
  {
    if h.numSectors <= NumDirect then 1 + k
    else if k < NumDirect - 1 then 1 + (h.numSectors - (NumDirect - 1)) + k
    else 1 + k - (NumDirect - 1)
  }

  lemma BlockAtIndex(h: Header, sector: int, d: Image, k: nat)
    requires Sound(h) && h.numSectors != NumDirect && k < h.numSectors
    ensures BlockIndex(h, k) < |FileSectors(h, sector, d)| && BlockSector(h, d, k) == FileSectors(h, sector, d)[BlockIndex(h, k)]
  {
  }

  // -------------------------------------------------------------- the sectors taken

  // The files whose creation and removal keep the invariant: direct ones, and
  // indirect ones that fit the index table, as long as there are enough free
  // sectors below 128 for the file, its index block and its header.
  predicate Creatable(marked: set<nat>, n: nat) {
    n <= NumDirect || (n <= MaxSectors && n + 2 <= |LowFree(marked)|)
  }

  lemma LowFreeBound(marked: set<nat>)
    requires marked <= Run(0, NumSectors)
    ensures |LowFree(marked)| <= NumSectors - |marked|
  {
    var both := LowFree(marked) + marked;
    assert LowFree(marked) !! marked;
    assert |both| == |LowFree(marked)| + |marked|;
    RunSize(0, NumSectors);
    SubsetSize(both, Run(0, NumSectors));
  }

  lemma MarkedOnDisk(l: Layout, d: Image)
    requires FsOk(l, d)
    ensures l.marked <= Run(0, NumSectors) && |l.marked| <= NumSectors
  {
    Inside(l, d);
    forall x | x in l.marked ensures x in Run(0, NumSectors) {
      if x !in System(l) {
        var e :| OwnedBy(l, d, e, x);
        assert OnDisk(x);
      }
    }
    SomeClear(l.marked, NumSectors);
  }

  // The header sector, then what Allocate took: free before, and apart from the
  // system files.  d1 is the disk after Allocate, d' the disk after the header and
  // the system files have been written.
  lemma NewFileSectors(l: Layout, d: Image, sector: nat, marked1: set<nat>, h: Header, d1: Image, now: set<nat>, blocks: seq<int>, d': Image)
    requires DirFileOk(l.dir) && Consistent(l, d) && Finds(l.marked, sector, marked1)
    requires AllocatedAs(h, d, d1, marked1, now, blocks) && Readable(blocks)
    requires forall x :: OnDisk(x) && x != sector && x !in SystemData(l) ==> d'[x] == d1[x]
    ensures Sound(h) && Owned(h, d') == Owned(h, d1)
    ensures NoDup(FileSectors(h, sector, d')) && Adds(l.marked, FileSectors(h, sector, d'), now)
    ensures forall x :: x in FileSectors(h, sector, d') ==> OnDisk(x) && x !in l.marked
  {
    AllocatedGivesBack(h, d, d1, marked1, now, blocks);
    GivenBackIff(h, d, d1, marked1, now, blocks);
    SystemMarked(l, d);
    SystemDataInSystem(l);
    var o := Owned(h, d1);
    forall x | x in o ensures OnDisk(x) && x !in marked1 {
      TakenFresh(h, d, d1, marked1, now, blocks, x);
    }
    assert sector in marked1;
    OwnedFrame(h, d1, d');
    var f := FileSectors(h, sector, d');
    assert f == [sector] + o;
  }

  lemma TakenFresh(h: Header, d: Image, d1: Image, was: set<nat>, now: set<nat>, blocks: seq<int>, x: int)
    requires AllocatedAs(h, d, d1, was, now, blocks) && Sound(h) && SameElements(Owned(h, d1), Claims(h, blocks)) && x in Owned(h, d1)
    ensures OnDisk(x) && x !in was
  {
    var c := Claims(h, blocks);
    assert x in c;
    var k :| 0 <= k < |c| && c[k] == x;
  }

  lemma NewFileKeepsUsed(l: Layout, d: Image, sector: nat, marked1: set<nat>, h: Header, d1: Image, now: set<nat>, blocks: seq<int>, d': Image)
    requires DirFileOk(l.dir) && Finds(l.marked, sector, marked1) && AllocatedAs(h, d, d1, marked1, now, blocks)
    requires forall x :: OnDisk(x) && x != sector && x !in SystemData(l) ==> d'[x] == d1[x]
    ensures UsedKept(l, d, d')
  {
    if |blocks| > NumDirect {
      assert Claims(h, blocks)[|blocks|] == h.data[NumDirect - 1];
    }
  }

  // --------------------------------------------------------------------- formatting

  // The first free sectors of a new disk.
  lemma FirstAllocations(blocks: seq<int>, start: nat, marked: set<nat>)
    requires (forall x: nat :: x in marked <==> x < start) && blocks != [] && start + |blocks| <= NumSectors
    requires FirstRun(marked, blocks) && blocks[0] !in marked
    ensures forall k :: 0 <= k < |blocks| ==> blocks[k] == start + k
  {
    assert FreeRun(marked, start, |blocks|);
    assert blocks[0] == blocks[0] + 0;
  }

  lemma RunExists(start: nat, marked: set<nat>, n: nat)
    requires (forall x: nat :: x in marked <==> x < start) && start + n <= NumSectors
    ensures !NoRun(marked, n) && |marked| == start
  {
    assert FreeRun(marked, start, n);
    RunSize(0, start);
    assert marked == Run(0, start);
  }

  // The headers of the system files on a new disk: the free map in sector 2, the
  // directory in sectors 3 and 4.
  predicate NewSystem(mapHdr: Header, dir: Header) {
    && FileHeaders.Shaped(mapHdr) && mapHdr.numBytes == SectorSize && mapHdr.numSectors == 1 && mapHdr.data[0] == 2
    && DirFileOk(dir) && dir.data[0] == 3 && dir.data[1] == 4
  }

  lemma NewSystemFiles(mapHdr: Header, dir: Header, d: Image)
    requires NewSystem(mapHdr, dir) && Decode(d[0]) == mapHdr
    ensures MapFileOk(d) && MapSector(d) == 2 && WellMapped(dir, d)
  {
  }

  lemma EmptyConsistent(l: Layout, d: Image)
    requires DirFileOk(l.dir) && l.m == 2 && l.dir.data[0] == 3 && l.dir.data[1] == 4
    requires |l.table| == |l.headers| == NumDirEntries && D.Shaped(l.table) && forall e :: !InUse(l, e)
    requires forall x: nat :: x in l.marked <==> x < 5
    ensures Consistent(l, d)
  {
    assert System(l) == [0, 1, 2, 3, 4];
    assert D.UniqueNames(l.table) by {
      forall i | 0 <= i < |l.table| ensures !l.table[i].inUse { assert !InUse(l, i); }
    }
    assert forall e, x :: !OwnedBy(l, d, e, x);
  }

  lemma FormattedOk(d: Image, mapHdr: Header, l: Layout)
    requires NewSystem(mapHdr, l.dir) && Decode(d[0]) == mapHdr && Decode(d[1]) == l.dir
    requires MapFileOk(d) && MapBits(d) == l.marked && l.m == 2
    requires WellMapped(l.dir, d) && D.DecodeTable(Content(l.dir, d)) == l.table && |l.headers| == NumDirEntries
    requires (forall e :: !InUse(l, e)) && forall x: nat :: x in l.marked <==> x < 5
    ensures FsOk(l, d)
  {
    EmptyConsistent(l, d);
  }

  // ---------------------------------------------------------- steps of a write-back

  // The header sector of a new file, and its index block, are not system sectors.
  lemma NewSectorsApart(l: Layout, d: Image, sector: nat, marked1: set<nat>, h: Header, d1: Image, now: set<nat>, blocks: seq<int>)
    requires DirFileOk(l.dir) && Consistent(l, d) && Finds(l.marked, sector, marked1)
    requires AllocatedAs(h, d, d1, marked1, now, blocks)
    ensures sector !in System(l) && forall x :: x in System(l) ==> d1[x] == d[x]
  {
    SystemMarked(l, d);
    if |blocks| > NumDirect {
      assert Claims(h, blocks)[|blocks|] == h.data[NumDirect - 1];
    }
  }

  // The free map is found through sector 0 only.
  lemma SameMapFile(d: Image, d': Image)
    requires MapFileOk(d) && d'[0] == d[0]
    ensures MapFileOk(d') && MapSector(d') == MapSector(d) && Decode(d'[0]) == Decode(d[0])
  {
  }

  lemma HeaderAfterFlush(l: Layout, sector: nat, h: Header, d2: Image, d4: Image)
    requires DirFileOk(l.dir) && FileHeaders.Shaped(h) && sector < NumSectors && sector !in SystemData(l) && d2[sector] == Encode(h)
    requires forall x :: OnDisk(x) && x !in SystemData(l) ==> d4[x] == d2[x]
    ensures Decode(d4[sector]) == h
  {
    HeaderRoundTrip(h);
  }

  // The directory is not in the sector of the free map.
  lemma DirectoryAfterMap(l: Layout, d3: Image, d4: Image)
    requires DirFileOk(l.dir) && NoDup(System(l)) && WellMapped(l.dir, d3) && OnDisk(l.m) && d4 == d3[l.m := d4[l.m]]
    ensures WellMapped(l.dir, d4) && Content(l.dir, d4) == Content(l.dir, d3)
  {
    var s := System(l);
    assert s[2] == l.m && s[3] == l.dir.data[0] && s[4] == l.dir.data[1];
    assert Owned(l.dir, d3) == [s[3], s[4]];
    ContentFrame(l.dir, d3, d4);
  }

  lemma SameOwner(h: Header, h': Header, d: Image)
    requires Sound(h) && h' == h.(hdrSector := h'.hdrSector)
    ensures Sound(h') && Owned(h', d) == Owned(h, d)
  {
  }

  // Only the contents of the system files were written.
  ghost predicate SystemOnly(l: Layout, d: Image, d': Image)
    requires DirFileOk(l.dir)
  {
    forall x :: OnDisk(x) && x !in SystemData(l) ==> d'[x] == d[x]
  }

  lemma MapAfterDirectory(l: Layout, d: Image, d': Image)
    requires DirFileOk(l.dir) && NoDup(System(l)) && MapFileOk(d) && MapSector(d) == l.m
    requires forall x :: OnDisk(x) && x != l.dir.data[0] && x != l.dir.data[1] ==> d'[x] == d[x]
    ensures MapFileOk(d') && MapSector(d') == l.m && MapBits(d') == MapBits(d) && Decode(d'[0]) == Decode(d[0])
  {
    var s := System(l);
    assert s[0] == 0 && s[2] == l.m && s[3] == l.dir.data[0] && s[4] == l.dir.data[1];
    SameMap(d, d');
  }

  // A header sector found and a file allocated, in memory and (for an index block)
  // on the disk d1, with nothing else written yet.
  ghost predicate NewFile(l: Layout, d: Image, sector: nat, marked1: set<nat>, h: Header, d1: Image, now: set<nat>, blocks: seq<int>) {
    && Finds(l.marked, sector, marked1)
    && AllocatedAs(h, d, d1, marked1, now, blocks) && Readable(blocks)
    && h.numBytes >= 0 && h.numSectors == SectorsFor(h.numBytes)
  }

  // The table has got an entry for it.
  ghost predicate NewEntry(l: Layout, at: nat, table: seq<D.Entry>, sector: int) {
    && |l.table| == NumDirEntries == |table| && at < NumDirEntries && !l.table[at].inUse && table == l.table[at := table[at]]
    && table[at].inUse && table[at].sector == sector && D.Shaped(table) && D.UniqueNames(table)
  }

  lemma BeforeFlush(l: Layout, d: Image, sector: nat, marked1: set<nat>, h: Header, d1: Image, d2: Image, now: set<nat>, blocks: seq<int>)
    requires FsOk(l, d) && NewFile(l, d, sector, marked1, h, d1, now, blocks) && d2 == d1[sector := d2[sector]]
    ensures NoDup(System(l)) && MapFileOk(d2) && MapSector(d2) == l.m && WellMapped(l.dir, d2) && Decode(d2[0]) == Decode(d[0])
  {
    Inside(l, d);
    NewSectorsApart(l, d, sector, marked1, h, d1, now, blocks);
    SystemDataInSystem(l);
    SameMapFile(d, d2);
    SameMapping(l.dir, d, d2);
  }

  lemma CreateFlushed(l: Layout, d: Image, sector: nat, marked1: set<nat>, h: Header, d1: Image, d2: Image, now: set<nat>, blocks: seq<int>,
                      at: nat, table: seq<D.Entry>, d4: Image)
    requires FsOk(l, d) && NewFile(l, d, sector, marked1, h, d1, now, blocks) && NewEntry(l, at, table, sector)
    requires d2 == d1[sector := Encode(h.(hdrSector := sector))] && SystemOnly(l, d2, d4) && SystemHolds(l, d4, now, table)
    ensures FsOk(Changed(l, at, now, table[at], h.(hdrSector := sector)), d4) && UsedKept(l, d, d4)
  {
    var h' := h.(hdrSector := sector);
    assert sector !in SystemData(l) by {
      Inside(l, d);
      NewSectorsApart(l, d, sector, marked1, h, d1, now, blocks);
      SystemDataInSystem(l);
    }
    assert forall x :: OnDisk(x) && x != sector && x !in SystemData(l) ==> d4[x] == d1[x];
    assert h' == Decode(d4[sector]) by { HeaderAfterFlush(l, sector, h', d2, d4); }
    assert UsedKept(l, d, d4) by { NewFileKeepsUsed(l, d, sector, marked1, h, d1, now, blocks, d4); }
    assert Sound(h) && NoDup(FileSectors(h, sector, d4)) && Adds(l.marked, FileSectors(h, sector, d4), now)
           && forall x :: x in FileSectors(h, sector, d4) ==> OnDisk(x) && x !in l.marked by {
      Inside(l, d);
      NewFileSectors(l, d, sector, marked1, h, d1, now, blocks, d4);
    }
    assert FileOk(h', sector) && FileSectors(h', sector, d4) == FileSectors(h, sector, d4) by { SameOwner(h, h', d4); }
    assert FsOk(Changed(l, at, now, table[at], h'), d4) by { CreatedOk(l, d, d4, at, now, table[at], h'); }
  }

  // ------------------------------------------------------------ what callers can rely on

  // Why Create answers FALSE: the name is there, no sector is left for the header,
  // the directory is full, or too few sectors are left for the data.
  predicate RefusesCreate(l: Layout, key: seq<Byte>, n: nat) {
    || D.Lookup(l.table, key, 0).Some?
    || |l.marked| == NumSectors
    || D.Full(l.table)
    || NumSectors - (|l.marked| + 1) < n
  }

  // Why it runs into the ASSERT of FirstFind: with the sector for the header taken,
  // there are enough free sectors but no run of them for a direct file.
  ghost predicate HaltsCreate(l: Layout, key: seq<Byte>, n: nat) {
    && !RefusesCreate(l, key, n) && n <= NumDirect
    && exists sector, marked :: Finds(l.marked, sector, marked) && NoRun(marked, n)
  }

  // It takes two sectors to be stopped there.
  lemma SmallNeverHalts(l: Layout, d: Image, key: seq<Byte>, n: nat)
    requires FsOk(l, d) && n <= 1
    ensures !HaltsCreate(l, key, n)
  {
    MarkedOnDisk(l, d);
    forall sector, marked | Finds(l.marked, sector, marked) && !RefusesCreate(l, key, n) ensures !NoRun(marked, n) {
      FindsSize(l.marked, sector, marked);
      SmallRuns(marked);
    }
  }

  lemma FindsOnce(was: set<nat>, sector: int, marked: set<nat>, sector': int, marked': set<nat>)
    requires Finds(was, sector, marked) && Finds(was, sector', marked')
    ensures sector == sector' && marked == marked'
  {
  }

  // Entry `at` was free and now lists the new file, of the size asked for; the
  // other entries are as they were.
  ghost predicate CreatedFile(l: Layout, l': Layout, at: nat, key: seq<Byte>, size: nat) {
    && |l.table| == NumDirEntries == |l.headers| && |l'.table| == NumDirEntries == |l'.headers| && D.FirstFree(l.table, at)
    && l' == Changed(l, at, l'.marked, l'.table[at], l'.headers[at])
    && D.Named(l'.table[at], key) && l'.headers[at].numBytes == size
  }

  // Entry e listed the file under that name and now is free; exactly the sectors of
  // the file are free again.
  ghost predicate RemovedFile(l: Layout, l': Layout, d: Image, e: nat, key: seq<Byte>) {
    && FilesOk(l) && InUse(l, e) && D.Lookup(l.table, key, 0) == Some(e)
    && l' == Changed(l, e, l'.marked, l.table[e].(inUse := false), l.headers[e])
    && Removes(l.marked, FileSectors(l.headers[e], l.table[e].sector, d), l'.marked)
  }

  // Every listed header sector is a sector, so -1 means that a name is not found.
  lemma EntrySectors(l: Layout, d: Image)
    requires FsOk(l, d)
    ensures forall e :: 0 <= e < |l.table| && l.table[e].inUse ==> OnDisk(l.table[e].sector)
  {
    Inside(l, d);
    forall e | 0 <= e < |l.table| && l.table[e].inUse ensures OnDisk(l.table[e].sector) {
      assert InUse(l, e);
    }
  }

  // With the header sector taken, the file is creatable exactly when its blocks come
  // out readable.
  lemma CreatableIff(marked: set<nat>, sector: int, marked1: set<nat>, n: nat)
    requires marked <= Run(0, NumSectors) && Finds(marked, sector, marked1) && sector != -1 && NumDirect < n <= MaxSectors
    ensures Creatable(marked, n) <==> n < |LowFree(marked1)|
    ensures Creatable(marked, n) ==> n < NumSectors - |marked1|
  {
    FindsSize(marked, sector, marked1);
    LowFreeBound(marked1);
    if LowFree(marked) == {} { assert LowFree(marked1) == {}; }
  }

  // After the header sector has been taken, an indirect file still fits below 128.
  lemma EnoughLow(l: Layout, d: Image, sector: int, marked1: set<nat>, n: nat)
    requires FsOk(l, d) && Finds(l.marked, sector, marked1) && sector != -1 && Creatable(l.marked, n)
    ensures |marked1| == |l.marked| + 1 <= NumSectors
    ensures n > NumDirect ==> n <= MaxSectors && n < NumSectors - |marked1| && n < |LowFree(marked1)|
  {
    MarkedOnDisk(l, d);
    FindsSize(l.marked, sector, marked1);
    LowFreeBound(marked1);
    SomeClear(marked1, NumSectors);
  }

  // ----------------------------------------------------------------------- removal

  // What Remove finds on the disk for a listed file.
  lemma ListedFile(l: Layout, d: Image, e: int)
    requires FsOk(l, d) && InUse(l, e)
    ensures OnDisk(l.table[e].sector) && Decode(d[l.table[e].sector]) == l.headers[e]
    ensures FileOk(l.headers[e], l.table[e].sector) && GivesBack(l.headers[e], d, l.marked)
    ensures l.table[e].sector in l.marked && l.table[e].sector !in Owned(l.headers[e], d)
  {
    assert OnDisk(l.table[e].sector) && Decode(d[l.table[e].sector]) == l.headers[e] && l.table[e].sector in l.marked by {
      Inside(l, d);
      HeaderSectorMarked(l, d, e);
    }
    ListedGivesBack(l, d, e);
  }

  lemma ListedGivesBack(l: Layout, d: Image, e: int)
    requires FsOk(l, d) && InUse(l, e)
    ensures GivesBack(l.headers[e], d, l.marked) && l.table[e].sector !in Owned(l.headers[e], d)
  {
    var f, o := FileSectors(l.headers[e], l.table[e].sector, d), Owned(l.headers[e], d);
    FileNoDup(l, d, e);
    assert f[0] == l.table[e].sector;
    forall k | 0 <= k < |o| ensures OnDisk(o[k]) && o[k] in l.marked && o[k] == f[k + 1] {
      assert o[k] in f;
      assert OwnedBy(l, d, e, o[k]);
      OwnedFacts(l, d, e, o[k]);
    }
  }

  // The header block is given back after the data blocks.
  lemma HeaderGivenBack(was: set<nat>, h: Header, d: Image, mid: set<nat>, sector: nat, now: set<nat>)
    requires Sound(h) && Removes(was, Owned(h, d), mid) && now == mid - {sector}
    ensures Removes(was, FileSectors(h, sector, d), now)
  {
  }

  lemma RemoveFlushed(l: Layout, d: Image, e: nat, d': Image, now: set<nat>, table: seq<D.Entry>)
    requires FsOk(l, d) && InUse(l, e) && table == l.table[e := l.table[e].(inUse := false)] && D.UniqueNames(table)
    requires Removes(l.marked, FileSectors(l.headers[e], l.table[e].sector, d), now)
    requires SystemOnly(l, d, d') && SystemHolds(l, d', now, table)
    ensures FsOk(Changed(l, e, now, table[e], l.headers[e]), d') && UsedKept(l, d, d')
  {
    RemovedOk(l, d, d', e, now);
  }

  lemma BeforeRemoveFlush(l: Layout, d: Image, mapHdr: Header, dirHdr: Header)
    requires Mounted(l, d, mapHdr, dirHdr)
    ensures NoDup(System(l)) && MapFileOk(d) && MapSector(d) == l.m && WellMapped(l.dir, d) && mapHdr == Decode(d[0])
  {
    InsideMounted(l, d, mapHdr, dirHdr);
  }

  // ------------------------------------------------------------- contents of others

  // What the found part of a file owns, the file owns.
  lemma FoundOwned(h: Header, d: Image, x: int)
    requires Sound(h) && Sound(Found(h)) && x in Owned(Found(h), d)
    ensures x in Owned(h, d)
  {
    if h.numSectors == NumDirect {
      var k :| 0 <= k < NumDirect - 1 && h.data[..NumDirect - 1][k] == x;
      assert h.data[..NumDirect][k] == x;
    }
  }

  // Creating and removing files leaves the bytes of the others alone.
  lemma OtherContentKept(l: Layout, d: Image, d': Image, e: int)
    requires FsOk(l, d) && InUse(l, e) && WellMapped(Found(l.headers[e]), d) && UsedKept(l, d, d')
    ensures WellMapped(Found(l.headers[e]), d') && Content(Found(l.headers[e]), d') == Content(Found(l.headers[e]), d)
  {
    Inside(l, d);
    forall x | x in Owned(Found(l.headers[e]), d) && OnDisk(x) ensures d'[x] == d[x] {
      FoundOwned(l.headers[e], d, x);
      assert x in FileSectors(l.headers[e], l.table[e].sector, d);
      OwnedIsMarked(l, d, e, x);
    }
    ContentFrame(Found(l.headers[e]), d, d');
  }

  // ------------------------------------------------------- single facts, read off

  lemma OwnedFacts(l: Layout, d: Image, e: int, x: int)
    requires FsOk(l, d) && OwnedBy(l, d, e, x)
    ensures OnDisk(x) && x in l.marked && x !in System(l)
  {
    Inside(l, d);
    OwnedIsMarked(l, d, e, x);
  }

  lemma SoleOwner(l: Layout, d: Image, e: int, f: int, x: int)
    requires FsOk(l, d) && OwnedBy(l, d, e, x) && OwnedBy(l, d, f, x)
    ensures e == f
  {
    Inside(l, d);
  }

  lemma SystemFacts(l: Layout, d: Image)
    requires FsOk(l, d)
    ensures OnDisk(l.m) && l.m != 0 && 0 in l.marked && l.m in l.marked && 0 in System(l) && l.m in System(l)
  {
    Inside(l, d);
    SystemMarked(l, d);
    assert System(l)[0] == 0 && System(l)[2] == l.m;
  }

  lemma MapFacts(l: Layout, d: Image)
    requires FsOk(l, d)
    ensures MapFileOk(d) && l.m == MapSector(d) && l.marked == MapBits(d)
  {
    Inside(l, d);
  }

  lemma SystemDirectoryKept(l: Layout, d: Image, d': Image, e: nat)
    requires FsOk(l, d) && OthersUsedKept(l, d, d', e)
    ensures d'[0] == d[0]
  {
    Inside(l, d);
    DirectoryKept(l, d, d', e);
  }

  lemma FileNoDup(l: Layout, d: Image, e: int)
    requires FsOk(l, d) && InUse(l, e)
    ensures NoDup(FileSectors(l.headers[e], l.table[e].sector, d))
  {
    Inside(l, d);
  }

  // So does writing to a file.
  lemma OtherContentWritten(l: Layout, d: Image, d': Image, e0: nat, e: int)
    requires FsOk(l, d) && InUse(l, e0) && InUse(l, e) && e != e0 && WellMapped(Found(l.headers[e]), d) && OthersUsedKept(l, d, d', e0)
    ensures WellMapped(Found(l.headers[e]), d') && Content(Found(l.headers[e]), d') == Content(Found(l.headers[e]), d)
  {
    forall x | x in Owned(Found(l.headers[e]), d) && OnDisk(x) ensures d'[x] == d[x] {
      FoundOwned(l.headers[e], d, x);
      assert OwnedBy(l, d, e, x);
      OwnedFacts(l, d, e, x);
      SystemFacts(l, d);
      if OwnedBy(l, d, e0, x) { SoleOwner(l, d, e0, e, x); }
    }
    ContentFrame(Found(l.headers[e]), d, d');
  }

  // --------------------------------------------------------------- writes to a file

  // A listed file can be written up to `end` when at most one direct sector has to be
  // added, and there is one; one of exactly NumDirect sectors, before its last sector.
  predicate Writable(h: Header, marked: set<nat>, end: nat) {
    && end < 0x8000_0000
    && if h.numSectors == NumDirect then SectorsFor(end) < NumDirect
       else end <= h.numBytes || SectorsFor(end) == h.numSectors || (SectorsFor(end) == h.numSectors + 1 < NumDirect && |marked| < NumSectors)
  }

  lemma ListedMapped(l: Layout, d: Image, e: int)
    requires FsOk(l, d) && InUse(l, e) && l.headers[e].numSectors != NumDirect
    ensures WellMapped(l.headers[e], d)
    ensures forall k :: 0 <= k < l.headers[e].numSectors ==> OwnedBy(l, d, e, BlockSector(l.headers[e], d, k)) && BlockSector(l.headers[e], d, k) != l.table[e].sector
    ensures l.headers[e].numSectors > NumDirect ==> OwnedBy(l, d, e, l.headers[e].data[NumDirect - 1]) && l.headers[e].data[NumDirect - 1] != l.table[e].sector
  {
    FileNoDup(l, d, e);
    forall x | x in FileSectors(l.headers[e], l.table[e].sector, d) ensures OnDisk(x) {
      assert OwnedBy(l, d, e, x);
      OwnedFacts(l, d, e, x);
    }
    FileMapped(l.headers[e], l.table[e].sector, d);
  }

  // The found part of a listed file is well mapped, and its blocks are the file's own.
  lemma ListedFound(l: Layout, d: Image, e: int)
    requires FsOk(l, d) && InUse(l, e)
    ensures WellMapped(Found(l.headers[e]), d)
    ensures forall k :: 0 <= k < Found(l.headers[e]).numSectors ==>
              OwnedBy(l, d, e, BlockSector(Found(l.headers[e]), d, k)) && BlockSector(Found(l.headers[e]), d, k) != l.table[e].sector
    ensures l.headers[e].numSectors > NumDirect ==> OwnedBy(l, d, e, l.headers[e].data[NumDirect - 1]) && l.headers[e].data[NumDirect - 1] != l.table[e].sector
  {
    if l.headers[e].numSectors == NumDirect { ListedLastSlot(l, d, e); } else { ListedMapped(l, d, e); }
  }

  lemma ListedLastSlot(l: Layout, d: Image, e: int)
    requires FsOk(l, d) && InUse(l, e) && l.headers[e].numSectors == NumDirect
    ensures LastSlotUsed(l.headers[e]) && WellMapped(Found(l.headers[e]), d)
    ensures forall k :: 0 <= k < NumDirect - 1 ==> OwnedBy(l, d, e, l.headers[e].data[k]) && l.headers[e].data[k] != l.table[e].sector
  {
    var h, f := l.headers[e], FileSectors(l.headers[e], l.table[e].sector, d);
    FileNoDup(l, d, e);
    assert f[0] == l.table[e].sector;
    forall k | 0 <= k < NumDirect - 1 ensures f[1 + k] == h.data[k] && OnDisk(h.data[k]) && OwnedBy(l, d, e, h.data[k]) {
      assert h.data[..NumDirect][k] == h.data[k];
      assert f[1 + k] in f;
      OwnedFacts(l, d, e, h.data[k]);
    }
  }

  // The sectors of a listed file are marked and apart from the system and the header.
  lemma ListedApart(l: Layout, d: Image, e: int, x: int)
    requires FsOk(l, d) && OwnedBy(l, d, e, x) && x != l.table[e].sector
    ensures x in l.marked && x !in {0, l.m, l.headers[e].hdrSector}
  {
    OwnedFacts(l, d, e, x);
    SystemFacts(l, d);
  }

  lemma ListedHeader(l: Layout, d: Image, e: int)
    requires FsOk(l, d) && InUse(l, e)
    ensures OnDisk(l.headers[e].hdrSector) && l.headers[e].hdrSector in l.marked && l.headers[e].hdrSector !in {0, l.m}
  {
    var h, sector := l.headers[e], l.table[e].sector;
    assert OwnedBy(l, d, e, sector) by { assert FileSectors(h, sector, d)[0] == sector; }
    OwnedFacts(l, d, e, sector);
    SystemFacts(l, d);
  }

  lemma ListedCanGrow(l: Layout, d: Image, e: int, end: nat)
    requires FsOk(l, d) && InUse(l, e) && Writable(l.headers[e], l.marked, end) && end > l.headers[e].numBytes
    ensures CanGrow(l.headers[e], d, l.m, l.marked, end)
  {
    ListedMapped(l, d, e);
    SystemFacts(l, d);
    ListedHeader(l, d, e);
    var h := l.headers[e];
    forall k | 0 <= k < h.numSectors ensures BlockSector(h, d, k) in l.marked && BlockSector(h, d, k) !in {0, l.m, h.hdrSector} {
      ListedApart(l, d, e, BlockSector(h, d, k));
    }
    if h.numSectors > NumDirect { ListedApart(l, d, e, h.data[NumDirect - 1]); }
  }

  // Writing blocks of the file e touches nothing that others own,
  lemma BlocksAreOwn(l: Layout, d: Image, e: nat, d': Image, from: seq<Byte>, position: nat)
    requires FsOk(l, d) && InUse(l, e)
    requires WellMapped(Found(l.headers[e]), d) && Spliced(Found(l.headers[e]), d, d', from, position)
    ensures OthersUsedKept(l, d, d', e) && OnDisk(l.m) && d'[l.m] == d[l.m]
  {
    var h := Found(l.headers[e]);
    ListedFound(l, d, e);
    SystemFacts(l, d);
    forall x: nat | OnDisk(x) && !OwnedBy(l, d, e, x) ensures d'[x] == d[x] {
      assert !IsBlock(h, d, 0, h.numSectors, x);
    }
    if OwnedBy(l, d, e, l.m) { OwnedFacts(l, d, e, l.m); }
  }

  // nor the header and the index block of the file itself.
  lemma MetadataKept(l: Layout, d: Image, e: nat, d': Image, from: seq<Byte>, position: nat)
    requires FsOk(l, d) && InUse(l, e) && OnDisk(l.table[e].sector)
    requires WellMapped(Found(l.headers[e]), d) && Spliced(Found(l.headers[e]), d, d', from, position)
    ensures d'[l.table[e].sector] == d[l.table[e].sector]
    ensures Owned(l.headers[e], d') == Owned(l.headers[e], d)
  {
    var h := Found(l.headers[e]);
    ListedFound(l, d, e);
    assert !IsBlock(h, d, 0, h.numSectors, l.table[e].sector);
    if h.numSectors > NumDirect { assert !IsBlock(h, d, 0, h.numSectors, h.data[NumDirect - 1]); }
  }

  lemma SplicedFs(l: Layout, d: Image, e: nat, d': Image, from: seq<Byte>, position: nat)
    requires FsOk(l, d) && InUse(l, e)
    requires WellMapped(Found(l.headers[e]), d) && Spliced(Found(l.headers[e]), d, d', from, position)
    ensures FsOk(l, d') && OthersUsedKept(l, d, d', e)
  {
    BlocksAreOwn(l, d, e, d', from, position);
    ListedFile(l, d, e);
    MetadataKept(l, d, e, d', from, position);
    SystemDirectoryKept(l, d, d', e);
    MapFacts(l, d);
    SameMap(d, d');
    WrittenSame(l, d, d', e);
  }

  lemma WrittenSame(l: Layout, d: Image, d': Image, e: nat)
    requires FsOk(l, d) && InUse(l, e) && OthersUsedKept(l, d, d', e) && OnDisk(l.table[e].sector)
    requires MapFileOk(d') && MapSector(d') == l.m && MapBits(d') == l.marked
    requires d'[l.table[e].sector] == d[l.table[e].sector] && Owned(l.headers[e], d') == Owned(l.headers[e], d)
    ensures FsOk(l, d')
  {
    var f := FileSectors(l.headers[e], l.table[e].sector, d);
    forall x | x in f ensures OnDisk(x) && x in l.marked {
      assert OwnedBy(l, d, e, x);
      OwnedFacts(l, d, e, x);
    }
    FileNoDup(l, d, e);
    ListedFile(l, d, e);
    WrittenOk(l, d, d', e, l.marked, l.headers[e]);
    ChangedSame(l, e);
  }

  // ------------------------------------------------------------- a write that extends

  // A file h on d that has grown to h' and been written, with the header and the
  // free map (in sector m) on the way.
  ghost predicate GrownOn(h: Header, d: Image, m: int, marked: set<nat>, h': Header, marked': set<nat>, mid: Image, d': Image, from: seq<Byte>, position: nat) {
    && position + |from| > h.numBytes && CanGrow(h, d, m, marked, position + |from|)
    && Grew(h, marked, h', marked', position + |from|)
    && OnDisk(h'.hdrSector) && mid == Mid(d, m, h', mid[m]) && WellMapped(h', mid) && Spliced(h', mid, d', from, position)
  }

  // The new sector, if one was needed.
  function NewSector(h: Header, h': Header): seq<int>
    requires FileHeaders.Shaped(h')
  {
    if 0 <= h.numSectors < NumDirect && h'.numSectors > h.numSectors then [h'.data[h.numSectors]] else []
  }

  // Sectors that are neither the header, nor the free map, nor a block of the grown
  // file, are as they were.
  lemma GrownElsewhere(h: Header, d: Image, m: int, marked: set<nat>, h': Header, marked': set<nat>, mid: Image, d': Image, from: seq<Byte>, position: nat, x: int)
    requires GrownOn(h, d, m, marked, h', marked', mid, d', from, position)
    requires OnDisk(x) && x != m && x !in NewSector(h, h') && forall k :: 0 <= k < h.numSectors ==> BlockSector(h, d, k) != x
    ensures d'[x] == if x == h.hdrSector then Encode(h') else d[x]
  {
    GrownBlocks(h, d, m, marked, h', marked', position + |from|);
    GrownMapped(h, d, m, marked, h', marked', position + |from|, mid[m]);
    assert !IsBlock(h', mid, 0, h'.numSectors, x) by {
      forall k | 0 <= k < h'.numSectors ensures BlockSector(h', mid, k) != x {
        assert BlockSector(h', mid, k) == BlockSector(h', d, k);
        assert k < h.numSectors ==> BlockSector(h', d, k) == BlockSector(h, d, k);
      }
    }
  }

  lemma GrownOwned(h: Header, d: Image, m: int, marked: set<nat>, h': Header, marked': set<nat>, mid: Image, d': Image, from: seq<Byte>, position: nat)
    requires GrownOn(h, d, m, marked, h', marked', mid, d', from, position)
    ensures Sound(h') && Owned(h', d') == Owned(h, d) + NewSector(h, h')
  {
    if h'.numSectors > h.numSectors {
      assert h'.data[..h'.numSectors] == h.data[..h.numSectors] + [h'.data[h.numSectors]];
    } else if h.numSectors > NumDirect {
      GrownElsewhere(h, d, m, marked, h', marked', mid, d', from, position, h.data[NumDirect - 1]);
    }
  }

  lemma GrownMarks(h: Header, d: Image, m: int, marked: set<nat>, h': Header, marked': set<nat>, mid: Image, d': Image, from: seq<Byte>, position: nat)
    requires GrownOn(h, d, m, marked, h', marked', mid, d', from, position)
    ensures Adds(marked, NewSector(h, h'), marked') && forall x :: x in NewSector(h, h') ==> OnDisk(x) && x !in marked
  {
  }

  lemma GrownFs(l: Layout, d: Image, e: nat, h': Header, mid: Image, d': Image, from: seq<Byte>, position: nat)
    requires FsOk(l, d) && InUse(l, e) && l.headers[e].numSectors != NumDirect
    requires MapFileOk(d') && MapSector(d') == l.m
    requires GrownOn(l.headers[e], d, l.m, l.marked, h', MapBits(d'), mid, d', from, position)
    ensures FsOk(Changed(l, e, MapBits(d'), l.table[e], h'), d') && OthersUsedKept(l, d, d', e)
  {
    var h, sector, marked' := l.headers[e], l.table[e].sector, MapBits(d');
    ListedMapped(l, d, e);
    ListedFile(l, d, e);
    GrownMarks(h, d, l.m, l.marked, h', marked', mid, d', from, position);
    assert OthersUsedKept(l, d, d', e) by { GrownOthers(l, d, e, h', marked', mid, d', from, position); }
    assert h' == Decode(d'[sector]) by {
      GrownElsewhere(h, d, l.m, l.marked, h', marked', mid, d', from, position, sector);
      HeaderRoundTrip(h');
    }
    GrownOwned(h, d, l.m, l.marked, h', marked', mid, d', from, position);
    GrownSectors(l, d, e, h', marked', d');
    WrittenOk(l, d, d', e, marked', h');
  }

  lemma GrownOthers(l: Layout, d: Image, e: nat, h': Header, marked': set<nat>, mid: Image, d': Image, from: seq<Byte>, position: nat)
    requires FsOk(l, d) && InUse(l, e) && l.headers[e].numSectors != NumDirect
    requires GrownOn(l.headers[e], d, l.m, l.marked, h', marked', mid, d', from, position)
    ensures OthersUsedKept(l, d, d', e)
  {
    var h, sector := l.headers[e], l.table[e].sector;
    ListedMapped(l, d, e);
    GrownMarks(h, d, l.m, l.marked, h', marked', mid, d', from, position);
    assert OwnedBy(l, d, e, sector) by { assert FileSectors(h, sector, d)[0] == sector; }
    forall x: nat | x in l.marked && OnDisk(x) && x != l.m && !OwnedBy(l, d, e, x) ensures d'[x] == d[x] {
      GrownElsewhere(h, d, l.m, l.marked, h', marked', mid, d', from, position, x);
    }
  }

  lemma GrownSectors(l: Layout, d: Image, e: nat, h': Header, marked': set<nat>, d': Image)
    requires FsOk(l, d) && InUse(l, e) && Sound(h') && Owned(h', d') == Owned(l.headers[e], d) + NewSector(l.headers[e], h')
    requires Adds(l.marked, NewSector(l.headers[e], h'), marked') && forall x :: x in NewSector(l.headers[e], h') ==> OnDisk(x) && x !in l.marked
    ensures var before, after := FileSectors(l.headers[e], l.table[e].sector, d), FileSectors(h', l.table[e].sector, d');
            && NoDup(after) && Adds(l.marked, after, marked')
            && (forall x :: x in before ==> x in after)
            && (forall x :: x in after ==> OnDisk(x) && (x in before || x !in l.marked))
  {
    var before, after := FileSectors(l.headers[e], l.table[e].sector, d), FileSectors(h', l.table[e].sector, d');
    FileNoDup(l, d, e);
    assert after == before + NewSector(l.headers[e], h');
    forall x | x in before ensures OnDisk(x) && x in l.marked {
      assert OwnedBy(l, d, e, x);
      OwnedFacts(l, d, e, x);
    }
    NoDupConcat(before, NewSector(l.headers[e], h'));
  }

  lemma MountedStill(l: Layout, d: Image, d': Image, e: nat, l': Layout, mapHdr: Header, dirHdr: Header)
    requires Mounted(l, d, mapHdr, dirHdr) && OthersUsedKept(l, d, d', e) && FsOk(l', d') && l'.dir == l.dir
    ensures Mounted(l', d', mapHdr, dirHdr)
  {
    InsideMounted(l, d, mapHdr, dirHdr);
    SystemDirectoryKept(l, d, d', e);
  }
}

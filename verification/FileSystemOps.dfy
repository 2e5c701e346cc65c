/**
  The operations of the file system: each fetches the directory and the free map
  from the disk, changes them in memory, and writes them back.
 */
module FileSystemOps {
  import opened Common
  import opened BitMaps
  import opened Codec
  import opened Storage
  import opened FileHeaders
  import opened OpenFiles
  import opened FileSystems
  import opened FileStores
  import D = Directories
  import StaleSlots

  // The two calls of Allocate while formatting; their ASSERTs hold.
  method AllocateSystemFiles(freeMap: BitMap, mapHdr: FileHeader, dirHdr: FileHeader, disk: SectorDisk)
    requires freeMap.Valid() && freeMap.numBits == NumSectors && freeMap.Marked() == {0, 1}
    requires mapHdr.Valid() && dirHdr.Valid() && mapHdr != dirHdr
    modifies freeMap.words, mapHdr, dirHdr, disk
    ensures mapHdr.Valid() && dirHdr.Valid() && NewSystem(mapHdr.View(), dirHdr.View()) && disk.image == old(disk.image)
    ensures forall x: nat :: x in freeMap.Marked() <==> x < 5
  {
    ghost var blocks := AllocateFirst(freeMap, mapHdr, NumSectors / 8, disk, 2);
    ghost var more := AllocateFirst(freeMap, dirHdr, DirectoryFileSize, disk, 3);
    assert mapHdr.dataSectors[..1][0] == blocks[0];
    assert dirHdr.dataSectors[..2][0] == more[0] && dirHdr.dataSectors[..2][1] == more[1];
  }

  // Allocate a small file on a disk whose first sectors are in use.
  method AllocateFirst(freeMap: BitMap, hdr: FileHeader, size: nat, disk: SectorDisk, start: nat) returns (ghost blocks: seq<int>)
    requires freeMap.Valid() && freeMap.numBits == NumSectors && hdr.Valid()
    requires 0 < size <= 5 * SectorSize && start < 10 && forall x: nat :: x in freeMap.Marked() <==> x < start
    modifies freeMap.words, hdr, disk
    ensures hdr.Valid() && hdr.numBytes == size && hdr.numSectors == SectorsFor(size) == |blocks| && disk.image == old(disk.image)
    ensures hdr.dataSectors[..hdr.numSectors] == blocks && forall k :: 0 <= k < |blocks| ==> blocks[k] == start + k
    ensures forall x: nat :: x in freeMap.Marked() <==> x < start + SectorsFor(size)
  {
    ghost var was := freeMap.Marked();
    RunExists(start, was, SectorsFor(size));
    var r, b := hdr.Allocate(freeMap, size, disk);
    blocks := b;
    FirstAllocations(blocks, start, was);
    forall x: nat ensures x in freeMap.Marked() <==> x < start + |blocks| {
      if start <= x < start + |blocks| { assert blocks[x - start] == x; }
    }
  }

  // What Create and then Remove do with the free map: take a sector for the header,
  // allocate the data, write the header; fetch it again, deallocate, clear the header
  // sector.  Where the allocation succeeds, the marks are restored (and no ASSERT
  // fires) exactly for creatable files.
  method TakeAndGiveBack(freeMap: BitMap, size: nat, disk: SectorDisk) returns (a: Allocation, aborted: bool)
    requires freeMap.Valid() && freeMap.numBits == NumSectors && |freeMap.Marked()| < NumSectors && size < 0x8000_0000
    modifies freeMap.words, disk
    ensures a == Allocated ==>
              (!aborted && freeMap.Marked() == old(freeMap.Marked()) <==> Creatable(old(freeMap.Marked()), SectorsFor(size)))
  {
    ghost var was := freeMap.Marked();
    ghost var f;
    var sector;
    a, sector, f := TakeFile(freeMap, size, disk);
    if a != Allocated { return a, true; }
    aborted := ReturnFile(freeMap, sector, disk, was, f);
  }

  // The calls of Create,
  method TakeFile(freeMap: BitMap, size: nat, disk: SectorDisk) returns (a: Allocation, sector: Int32, ghost f: Allocating)
    requires freeMap.Valid() && freeMap.numBits == NumSectors && |freeMap.Marked()| < NumSectors && size < 0x8000_0000
    modifies freeMap.words, disk
    ensures OnDisk(sector) && Finds(old(freeMap.Marked()), sector, f.marked1)
    ensures a == Allocated ==> f.h.numSectors == SectorsFor(size) && AllocatedOn(f) && freeMap.Marked() == f.now
    ensures a == Allocated ==> disk.image == f.d1[sector := Encode(f.h.(hdrSector := sector))]
  {
    sector := FindFree(freeMap);
    ghost var marked1, d := freeMap.Marked(), disk.image;
    SomeClear(marked1, NumSectors);
    var hdr := new FileHeader();
    ghost var blocks;
    a, blocks := hdr.Allocate(freeMap, size, disk);
    f := Allocating(marked1, hdr.View(), d, disk.image, freeMap.Marked(), blocks);
    if a == Allocated { hdr.WriteBack(disk, sector); }
  }

  // and those of Remove.
  method ReturnFile(freeMap: BitMap, sector: nat, disk: SectorDisk, ghost was: set<nat>, ghost f: Allocating) returns (aborted: bool)
    requires freeMap.Valid() && freeMap.numBits == NumSectors && freeMap.Marked() == f.now && sector < NumSectors
    requires was <= Run(0, NumSectors) && Finds(was, sector, f.marked1) && AllocatedOn(f)
    requires disk.image == f.d1[sector := Encode(f.h.(hdrSector := sector))]
    modifies freeMap.words
    ensures !aborted && freeMap.Marked() == was <==> Creatable(was, f.h.numSectors)
  {
    ghost var h := f.h.(hdrSector := sector);
    HeaderRoundTrip(h);
    var fileHdr := new FileHeader();
    fileHdr.FetchFrom(disk, sector);
    NewFileOwns(was, sector, f, disk.image);
    SameOwner(f.h, h, disk.image);
    aborted := fileHdr.Deallocate(freeMap, disk);
    if !aborted {
      GivenBackExactly(was, sector, f, freeMap.Marked());
      freeMap.Clear(sector);
    }
  }

  // What a call of Allocate has done after a sector has been found.
  datatype Allocating = Allocating(marked1: set<nat>, h: Header, d: Image, d1: Image, now: set<nat>, blocks: seq<int>)

  ghost predicate AllocatedOn(f: Allocating) {
    var Allocating(marked1, h, d, d1, now, blocks) := f;
    && FileHeaders.Shaped(h) && 0 <= h.numSectors <= MaxSectors && |marked1| <= NumSectors && h.numSectors <= NumSectors - |marked1|
    && (h.numSectors <= NumDirect || h.numSectors < NumSectors - |marked1| ==> AllocatedAs(h, d, d1, marked1, now, blocks))
    && (NumDirect < h.numSectors < NumSectors - |marked1| ==> (Readable(blocks) <==> h.numSectors < |LowFree(marked1)|))
    && (NumDirect < h.numSectors == NumSectors - |marked1| ==> LosesLast(h, d1, marked1))
  }

  // The header, written to its sector, still owns what it owned; and Deallocate is
  // stopped when the last block was lost, and not when the file is creatable.
  lemma NewFileOwns(was: set<nat>, sector: int, f: Allocating, d2: Image)
    requires was <= Run(0, NumSectors) && Finds(was, sector, f.marked1) && sector != -1 && AllocatedOn(f)
    requires d2 == f.d1[sector := d2[sector]]
    ensures Sound(f.h) && Owned(f.h, d2) == Owned(f.h, f.d1)
    ensures Creatable(was, f.h.numSectors) ==> GivesBack(f.h, f.d1, f.now) && AllOnDisk(Owned(f.h, f.d1))
    ensures NumDirect < f.h.numSectors == NumSectors - |f.marked1| ==> !AllOnDisk(Owned(f.h, f.d1)) && !Creatable(was, f.h.numSectors)
  {
    var Allocating(marked1, h, d, d1, now, blocks) := f;
    if h.numSectors > NumDirect { CreatableIff(was, sector, marked1, h.numSectors); }
    if NumDirect < h.numSectors == NumSectors - |marked1| {
      var n := h.numSectors - (NumDirect - 1);
      assert Owned(h, d1)[n - 1] == IndexEntry(d1[h.data[NumDirect - 1]], n - 1) == -1;
    } else {
      GivenBackIff(h, d, d1, marked1, now, blocks);
      if h.numSectors > NumDirect { assert Claims(h, blocks)[|blocks|] == h.data[NumDirect - 1]; }
      if Creatable(was, h.numSectors) { AllocatedGivesBack(h, d, d1, marked1, now, blocks); }
    }
  }

  // Without the file's sectors, the marks are those before exactly when the file was
  // creatable: otherwise a block at sector 128 or above stays marked.
  lemma GivenBackExactly(was: set<nat>, sector: int, f: Allocating, after: set<nat>)
    requires was <= Run(0, NumSectors) && Finds(was, sector, f.marked1) && sector != -1 && AllocatedOn(f)
    requires f.h.numSectors <= NumDirect || f.h.numSectors < NumSectors - |f.marked1|
    requires Sound(f.h) && Removes(f.now, Owned(f.h, f.d1), after)
    ensures after - {sector} == was <==> Creatable(was, f.h.numSectors)
  {
    var Allocating(marked1, h, d, d1, now, blocks) := f;
    if h.numSectors > NumDirect { CreatableIff(was, sector, marked1, h.numSectors); }
    if Readable(blocks) {
      AllocatedGivesBack(h, d, d1, marked1, now, blocks);
      assert after == marked1;
    } else {
      var k :| NumDirect - 1 <= k < |blocks| && blocks[k] >= 128;
      UnreadableLost(h, d1, blocks, k);
      var x := Claims(h, blocks)[k];
      assert x in Claims(h, blocks);
      assert x in after && x !in marked1 && x != sector;
    }
  }

  // Allocate the system files and write their headers to sectors 0 and 1.
  method WriteSystemHeaders(freeMap: BitMap, disk: SectorDisk) returns (ghost mapView: Header, ghost dirView: Header)
    requires freeMap.Valid() && freeMap.numBits == NumSectors && freeMap.Marked() == {0, 1}
    modifies freeMap.words, disk
    ensures NewSystem(mapView, dirView) && Decode(disk.image[0]) == mapView && Decode(disk.image[1]) == dirView
    ensures forall x: nat :: x in freeMap.Marked() <==> x < 5
  {
    var mapHdr := new FileHeader();
    var dirHdr := new FileHeader();
    AllocateSystemFiles(freeMap, mapHdr, dirHdr, disk);
    mapHdr.WriteBack(disk, 0);
    mapView := mapHdr.View();
    HeaderRoundTrip(mapView);
    dirHdr.WriteBack(disk, 1);
    dirView := dirHdr.View();
    HeaderRoundTrip(dirView);
  }

  class FileSystem {
    const disk: SectorDisk
    const freeMapFile: OpenFile
    const directoryFile: OpenFile
    ghost var l: Layout

    ghost predicate Opened()
      reads freeMapFile.hdr, directoryFile.hdr
    {
      && freeMapFile.disk == disk && directoryFile.disk == disk && freeMapFile.hdr != directoryFile.hdr
      && freeMapFile.Valid() && directoryFile.Valid()
    }

    ghost predicate Valid()
      reads this, disk, freeMapFile.hdr, directoryFile.hdr
    {
      Opened() && Mounted(l, disk.image, freeMapFile.hdr.View(), directoryFile.hdr.View())
    }

    // The constructor with format == TRUE: a disk with no files.
    constructor Format(synchDisk: SectorDisk)
      modifies synchDisk
      ensures Valid() && disk == synchDisk && fresh(freeMapFile.hdr) && fresh(directoryFile.hdr)
      ensures forall e :: !InUse(l, e)
      ensures forall x: nat :: x in l.marked <==> x < 5
    {
      var freeMap := new BitMap(NumSectors);
      freeMap.Mark(0);
      freeMap.Mark(1);
      ghost var mapHdr, dirHdr := WriteSystemHeaders(freeMap, synchDisk);
      disk := synchDisk;
      freeMapFile := new OpenFile(synchDisk, 0);
      directoryFile := new OpenFile(synchDisk, 1);
      new;
      FlushEmpty(freeMap, mapHdr, dirHdr);
    }

    // The initial contents of the two system files.
    method FlushEmpty(freeMap: BitMap, ghost mapHdr: Header, ghost dirHdr: Header)
      requires Opened() && freeMap.Valid() && freeMap.numBits == NumSectors && forall x: nat :: x in freeMap.Marked() <==> x < 5
      requires NewSystem(mapHdr, dirHdr) && Decode(disk.image[0]) == mapHdr && Decode(disk.image[1]) == dirHdr
      requires freeMapFile.hdr.View() == mapHdr && directoryFile.hdr.View() == dirHdr
      modifies this, disk, freeMapFile.hdr, directoryFile.hdr
      ensures Valid() && (forall e :: !InUse(l, e)) && forall x: nat :: x in l.marked <==> x < 5
    {
      var directory := new D.Directory(NumDirEntries);
      NewSystemFiles(mapHdr, dirHdr, disk.image);
      WriteBackMap(freeMap, freeMapFile);
      ghost var d := disk.image;
      NewSystemFiles(mapHdr, dirHdr, d);
      WriteBackDirectory(directory, dirHdr);
      SameMap(d, disk.image);
      l := Layout(2, dirHdr, freeMap.Marked(), directory.table, seq(NumDirEntries, _ => dirHdr));
      FormattedOk(disk.image, mapHdr, l);
    }

    // Directory::FetchFrom
    method FetchDirectory(directory: D.Directory)
      requires Valid()
      modifies directory
      ensures directory.Valid() && directory.table == l.table && |l.table| == NumDirEntries && D.UniqueNames(l.table)
    {
      InsideMounted(l, disk.image, freeMapFile.hdr.View(), directoryFile.hdr.View());
      ReadsLocated(l.dir, disk.image, DirectoryFileSize, 0);
      var bytes := directoryFile.ReadAt(DirectoryFileSize, 0);
      WholeSlice(Content(l.dir, disk.image));
      directory.table := D.DecodeTable(bytes.value);
    }

    // BitMap::FetchFrom, from the free map file
    method FetchFreeMap(freeMap: BitMap)
      requires Valid() && freeMap.Valid() && freeMap.numBits == NumSectors
      modifies freeMap.words
      ensures freeMap.Marked() == l.marked
    {
      InsideMounted(l, disk.image, freeMapFile.hdr.View(), directoryFile.hdr.View());
      FetchMap(freeMap, freeMapFile);
    }

    // Directory::WriteBack
    method WriteBackDirectory(directory: D.Directory, ghost dir: Header)
      requires Opened() && directory.Valid() && |directory.table| == NumDirEntries
      requires directoryFile.hdr.View() == dir && DirFileOk(dir) && WellMapped(dir, disk.image)
      modifies directoryFile.hdr, disk
      ensures Opened() && directoryFile.hdr.View() == dir && freeMapFile.hdr.View() == old(freeMapFile.hdr.View())
      ensures WellMapped(dir, disk.image) && D.DecodeTable(Content(dir, disk.image)) == directory.table
      ensures forall x :: OnDisk(x) && x != dir.data[0] && x != dir.data[1] ==> disk.image[x] == old(disk.image)[x]
    {
      var bytes := D.EncodeTable(directory.table);
      ghost var d := disk.image;
      var written;
      ghost var c;
      written, c := directoryFile.WriteAt(bytes, 0);
      DirectoryWritten(dir, d, directory.table, c, disk.image);
    }

    // Write the directory and the free map back, in either order.
    method Flush(directory: D.Directory, freeMap: BitMap, mapFirst: bool)
      requires Opened() && DirFileOk(l.dir) && NoDup(System(l)) && directory.Valid() && |directory.table| == NumDirEntries
      requires freeMap.Valid() && freeMap.numBits == NumSectors
      requires MapFileOk(disk.image) && MapSector(disk.image) == l.m && WellMapped(l.dir, disk.image)
      requires freeMapFile.hdr.View() == Decode(disk.image[0]) && directoryFile.hdr.View() == l.dir
      modifies disk, freeMapFile.hdr, directoryFile.hdr
      ensures Opened() && freeMapFile.hdr.View() == Decode(disk.image[0]) && directoryFile.hdr.View() == l.dir
      ensures SystemHolds(l, disk.image, freeMap.Marked(), directory.table)
      ensures SystemOnly(l, old(disk.image), disk.image)
    {
      SystemDataInSystem(l);
      ghost var d := disk.image;
      if mapFirst {
        WriteBackMap(freeMap, freeMapFile);
        DirectoryAfterMap(l, d, disk.image);
        ghost var d1 := disk.image;
        WriteBackDirectory(directory, l.dir);
        MapAfterDirectory(l, d1, disk.image);
      } else {
        WriteBackDirectory(directory, l.dir);
        ghost var d1 := disk.image;
        SameMapFile(d, d1);
        WriteBackMap(freeMap, freeMapFile);
        DirectoryAfterMap(l, d1, disk.image);
      }
    }

    // The end of Create: flush the header, the directory and the free map.
    method FinishCreate(hdr: FileHeader, directory: D.Directory, freeMap: BitMap, sector: nat,
                        ghost at: nat, ghost d: Image, ghost marked1: set<nat>, ghost blocks: seq<int>)
      requires Opened() && Mounted(l, d, freeMapFile.hdr.View(), directoryFile.hdr.View())
      requires hdr.Valid() && directory.Valid() && freeMap.Valid() && freeMap.numBits == NumSectors
      requires hdr != freeMapFile.hdr && hdr != directoryFile.hdr
      requires NewFile(l, d, sector, marked1, hdr.View(), disk.image, freeMap.Marked(), blocks)
      requires NewEntry(l, at, directory.table, sector)
      modifies this, disk, hdr, freeMapFile.hdr, directoryFile.hdr
      ensures Valid() && UsedKept(old(l), d, disk.image)
      ensures l == Changed(old(l), at, freeMap.Marked(), directory.table[at], old(hdr.View()).(hdrSector := sector))
    {
      ghost var h, d1 := hdr.View(), disk.image;
      assert freeMapFile.hdr.View() == Decode(d[0]) by { InsideMounted(l, d, freeMapFile.hdr.View(), directoryFile.hdr.View()); }
      hdr.WriteBack(disk, sector);
      ghost var d2 := disk.image;
      BeforeFlush(l, d, sector, marked1, h, d1, d2, freeMap.Marked(), blocks);
      Flush(directory, freeMap, false);
      CreateFlushed(l, d, sector, marked1, h, d1, d2, freeMap.Marked(), blocks, at, directory.table, disk.image);
      l := Changed(l, at, freeMap.Marked(), directory.table[at], h.(hdrSector := sector));
    }

    // Fetch the directory and look a name up.
    method LookUp(name: seq<Byte>) returns (directory: D.Directory, sector: int)
      requires Valid()
      ensures Valid() && fresh(directory) && directory.Valid() && directory.table == l.table
      ensures |l.table| == NumDirEntries && D.UniqueNames(l.table)
      ensures var e := D.Lookup(l.table, D.Key(name), 0);
              if e == None then sector == -1 else sector == l.table[e.value].sector && OnDisk(sector)
    {
      EntrySectors(l, disk.image);
      directory := new D.Directory(NumDirEntries);
      FetchDirectory(directory);
      sector := directory.Find(name);
    }

    // The first half of Create: find a header sector and enter the name, in memory.
    method EnterName(name: seq<Byte>) returns (ok: bool, directory: D.Directory, freeMap: BitMap, sector: Int32, ghost at: nat)
      requires Valid()
      ensures Valid() && fresh(directory) && fresh(freeMap) && fresh(freeMap.words)
      ensures directory.Valid() && freeMap.Valid() && freeMap.numBits == NumSectors
      ensures !ok <==> D.Lookup(l.table, D.Key(name), 0).Some? || |l.marked| == NumSectors || D.Full(l.table)
      ensures ok ==> Finds(l.marked, sector, freeMap.Marked()) && sector != -1
      ensures ok ==> NewEntry(l, at, directory.table, sector) && D.FirstFree(l.table, at) && D.Named(directory.table[at], D.Key(name))
    {
      ok, sector, at := false, -1, 0;
      MarkedOnDisk(l, disk.image);
      var found;
      directory, found := LookUp(name);
      freeMap := new BitMap(NumSectors);
      if found != -1 { return; }
      FetchFreeMap(freeMap);
      sector := FindSector(freeMap);
      FindsSize(l.marked, sector, freeMap.Marked());
      if sector == -1 { return; }
      ok, at := directory.Add(name, sector);
      assert ok ==> NewEntry(l, at, directory.table, sector);
    }

    // Create a file.  When the answer is not Done the disk is as it was.
    method Create(name: seq<Byte>, initialSize: nat) returns (r: Outcome, ghost at: nat)
      requires Valid() && initialSize < 0x8000_0000 && Creatable(l.marked, SectorsFor(initialSize))
      modifies this, disk, freeMapFile.hdr, directoryFile.hdr
      ensures Valid() && r != Skipped
      ensures r != Done ==> disk.image == old(disk.image) && l == old(l)
      ensures r == Refused <==> RefusesCreate(old(l), D.Key(name), SectorsFor(initialSize))
      ensures r == Halted <==> HaltsCreate(old(l), D.Key(name), SectorsFor(initialSize))
      ensures r == Done ==> CreatedFile(old(l), l, at, D.Key(name), initialSize) && UsedKept(old(l), old(disk.image), disk.image)
    {
      var ok, directory, freeMap, sector, index := EnterName(name);
      at := index;
      if !ok { return Refused, 0; }
      ghost var was, marked1 := l.marked, freeMap.Marked();
      r := CompleteCreate(directory, freeMap, sector, initialSize, at);
      forall s, m | Finds(was, s, m) ensures m == marked1 { FindsOnce(was, sector, marked1, s, m); }
    }

    // The second half of Create: allocate the data blocks and flush everything.
    method CompleteCreate(directory: D.Directory, freeMap: BitMap, sector: nat, initialSize: nat, ghost at: nat) returns (r: Outcome)
      requires Valid() && initialSize < 0x8000_0000 && Creatable(l.marked, SectorsFor(initialSize))
      requires directory.Valid() && freeMap.Valid() && freeMap.numBits == NumSectors
      requires Finds(l.marked, sector, freeMap.Marked()) && NewEntry(l, at, directory.table, sector)
      modifies this, disk, freeMapFile.hdr, directoryFile.hdr, freeMap.words
      ensures Valid() && r != Skipped
      ensures r != Done ==> disk.image == old(disk.image) && l == old(l)
      ensures r == Refused <==> NumSectors - (|old(l).marked| + 1) < SectorsFor(initialSize)
      ensures r == Halted <==> r != Refused && SectorsFor(initialSize) <= NumDirect && NoRun(old(freeMap.Marked()), SectorsFor(initialSize))
      ensures r == Done ==> UsedKept(old(l), old(disk.image), disk.image) && |l.headers| == NumDirEntries && l.headers[at].numBytes == initialSize
      ensures r == Done ==> l == Changed(old(l), at, l.marked, directory.table[at], l.headers[at])
    {
      ghost var d, marked1 := disk.image, freeMap.Marked();
      var hdr := new FileHeader();
      EnoughLow(l, d, sector, marked1, SectorsFor(initialSize));
      var a, blocks := AllocateNew(hdr, freeMap, initialSize, l, sector, marked1);
      if a == NoSpace { return Refused; }
      if a == Stopped { return Halted; }
      FinishCreate(hdr, directory, freeMap, sector, at, d, marked1, blocks);
      r := Done;
    }

    // The call of Allocate: with enough sectors of the right kind it is sound.
    method AllocateNew(hdr: FileHeader, freeMap: BitMap, size: nat, ghost l: Layout, ghost sector: nat, ghost marked1: set<nat>)
      returns (a: Allocation, ghost blocks: seq<int>)
      requires hdr.Valid() && freeMap.Valid() && freeMap.numBits == NumSectors && freeMap.Marked() == marked1 && size < 0x8000_0000
      requires Finds(l.marked, sector, marked1)
      requires SectorsFor(size) > NumDirect ==>
                 SectorsFor(size) <= MaxSectors && SectorsFor(size) < NumSectors - |marked1| && SectorsFor(size) < |LowFree(marked1)|
      modifies hdr, freeMap.words, disk
      ensures hdr.Valid() && hdr.numBytes == size && a in {NoSpace, Stopped, Allocated}
      ensures a == NoSpace <==> NumSectors - |marked1| < SectorsFor(size)
      ensures a == Stopped <==> a != NoSpace && SectorsFor(size) <= NumDirect && NoRun(marked1, SectorsFor(size))
      ensures a != Allocated ==> disk.image == old(disk.image)
      ensures a == Allocated ==> NewFile(l, old(disk.image), sector, marked1, hdr.View(), disk.image, freeMap.Marked(), blocks)
    {
      a, blocks := hdr.Allocate(freeMap, size, disk);
    }

    // Remove a file: its header sector and exactly the sectors it owns become free.
    method Remove(name: seq<Byte>) returns (removed: bool, ghost e: nat)
      requires Valid()
      modifies this, disk, freeMapFile.hdr, directoryFile.hdr
      ensures Valid()
      ensures removed <==> D.Lookup(old(l).table, D.Key(name), 0).Some?
      ensures !removed ==> disk.image == old(disk.image) && l == old(l)
      ensures removed ==> RemovedFile(old(l), l, old(disk.image), e, D.Key(name)) && UsedKept(old(l), old(disk.image), disk.image)
    {
      e := 0;
      ghost var d := disk.image;
      var directory, sector := LookUp(name);
      if sector == -1 { return false, 0; }
      e := D.Lookup(l.table, D.Key(name), 0).value;
      ListedFile(l, d, e);
      var freeMap := new BitMap(NumSectors);
      FetchFreeMap(freeMap);
      GiveBack(freeMap, sector, l.headers[e], l.marked);
      var _ := directory.Remove(name);
      FinishRemove(directory, freeMap, e);
      removed := true;
    }

    // The end of Remove: flush the free map and the directory.
    method FinishRemove(directory: D.Directory, freeMap: BitMap, ghost e: nat)
      requires Valid() && InUse(l, e) && directory.Valid() && freeMap.Valid() && freeMap.numBits == NumSectors
      requires directory.table == l.table[e := l.table[e].(inUse := false)] && D.UniqueNames(directory.table)
      requires Removes(l.marked, FileSectors(l.headers[e], l.table[e].sector, disk.image), freeMap.Marked())
      modifies this, disk, freeMapFile.hdr, directoryFile.hdr
      ensures Valid() && UsedKept(old(l), old(disk.image), disk.image)
      ensures l == Changed(old(l), e, freeMap.Marked(), directory.table[e], old(l).headers[e])
    {
      ghost var d := disk.image;
      BeforeRemoveFlush(l, d, freeMapFile.hdr.View(), directoryFile.hdr.View());
      Flush(directory, freeMap, true);
      RemoveFlushed(l, d, e, disk.image, freeMap.Marked(), directory.table);
      l := Changed(l, e, freeMap.Marked(), directory.table[e], l.headers[e]);
    }

    // Deallocate the data blocks and the header block; no ASSERT fires.
    method GiveBack(freeMap: BitMap, sector: nat, ghost h: Header, ghost marked: set<nat>)
      requires freeMap.Valid() && freeMap.numBits == NumSectors && freeMap.Marked() == marked && sector < NumSectors
      requires Decode(disk.image[sector]) == h && Sound(h) && GivesBack(h, disk.image, marked)
      modifies freeMap.words
      ensures Removes(marked, FileSectors(h, sector, disk.image), freeMap.Marked())
    {
      var fileHdr := new FileHeader();
      fileHdr.FetchFrom(disk, sector);
      var aborted := fileHdr.Deallocate(freeMap, disk);
      assert !aborted;
      ghost var mid := freeMap.Marked();
      freeMap.Clear(sector);
      HeaderGivenBack(marked, h, disk.image, mid, sector, freeMap.Marked());
    }

    // Open a file by name; null when it is not there.
    method Open(name: seq<Byte>) returns (file: OpenFile?)
      requires Valid()
      ensures Valid()
      ensures file == null <==> D.Lookup(l.table, D.Key(name), 0) == None
      ensures file != null ==> && fresh(file) && fresh(file.hdr) && file.Valid() && file.disk == disk && file.seekPosition == 0
                               && file.hdr.View() == l.headers[D.Lookup(l.table, D.Key(name), 0).value]
    {
      var directory, sector := LookUp(name);
      file := null;
      if sector >= 0 {
        ListedFile(l, disk.image, D.Lookup(l.table, D.Key(name), 0).value);
        file := new OpenFile(disk, sector);
      }
    }

    // Write through an open handle whose header is up to date.
    method WriteTo(file: OpenFile, from: seq<Byte>, position: nat, ghost e: nat)
      requires Valid() && InUse(l, e) && file.Valid() && file.disk == disk && file.hdr.View() == l.headers[e]
      requires file.hdr != freeMapFile.hdr && file.hdr != directoryFile.hdr
      requires Writable(l.headers[e], l.marked, position + |from|)
      modifies this, disk, file.hdr
      ensures Valid() && file.Valid() && FileWritten(old(l), old(disk.image), l, disk.image, e, from, position)
      ensures file.hdr.View() == l.headers[e]
    {
      ghost var was, d, mapHdr, dirHdr := l, disk.image, freeMapFile.hdr.View(), directoryFile.hdr.View();
      ghost var c := WriteWithin(file, from, position, e, was, d);
      l := WriteFinished(was, e, from, position, d, disk.image, c, mapHdr, dirHdr);
    }

    // The call of WriteAt, which is within the bounds of the tables.
    method WriteWithin(file: OpenFile, from: seq<Byte>, position: nat, ghost e: nat, ghost was: Layout, ghost d: Image) returns (ghost c: Call)
      requires file.Valid() && file.disk == disk && disk.image == d && FsOk(was, d) && InUse(was, e) && file.hdr.View() == was.headers[e]
      requires Writable(was.headers[e], was.marked, position + |from|)
      modifies disk, file.hdr
      ensures file.Valid() && file.hdr.View() == c.h' && disk.image == c.d'
      ensures c.h == was.headers[e] && c.d == d && c.from == from && c.position == position
      ensures if from == [] then c.d' == c.d && c.h' == c.h else Writes(c)
    {
      WriteInBounds(was, d, e, position + |from|);
      var written;
      written, c := file.WriteAt(from, position);
    }

    // Whether a write up to `end` is within what the file system does correctly.
    method CanWrite(file: OpenFile, end: nat, ghost e: nat) returns (ok: bool)
      requires Valid() && InUse(l, e) && file.Valid() && file.hdr.View() == l.headers[e]
      ensures ok <==> Writable(l.headers[e], l.marked, end)
    {
      var freeMap := new BitMap(NumSectors);
      FetchFreeMap(freeMap);
      MarkedOnDisk(l, disk.image);
      var clear := freeMap.NumClear();
      var n := file.hdr.numSectors;
      ok := end < 0x8000_0000
            && if n == NumDirect then SectorsFor(end) < NumDirect
               else end <= file.hdr.numBytes || SectorsFor(end) == n || (SectorsFor(end) == n + 1 < NumDirect && clear > 0);
    }

    // Whether a creation is.
    method CanCreate(n: nat) returns (ok: bool)
      requires Valid()
      ensures ok <==> Creatable(l.marked, n)
    {
      var freeMap := new BitMap(NumSectors);
      FetchFreeMap(freeMap);
      var low := CountLow(freeMap);
      ok := n <= NumDirect || (n <= MaxSectors && n + 2 <= low);
    }

    // The layout, the disk and the files on it.
    ghost function Now(): State
      requires FilesOk(l)
      reads this, disk
    {
      State(l, disk.image, Files(l, disk.image))
    }

    method PerformCreate(c: Command) returns (r: Outcome)
      requires Valid() && c.CreateFile?
      modifies this, disk, freeMapFile.hdr, directoryFile.hdr
      ensures Valid() && Leads(old(Now()), c, r, Now())
    {
      var ok := CanCreate(SectorsFor(c.size));
      if c.size >= 0x8000_0000 || !ok { return Skipped; }
      ghost var was, d := l, disk.image;
      ghost var at;
      r, at := Create(c.name, c.size);
      FilesAt(was, d, KeyOf(c));
      if r == Done { CreatedFiles(was, d, l, disk.image, at, KeyOf(c), c.size); }
    }

    method PerformRemove(c: Command) returns (r: Outcome)
      requires Valid() && c.RemoveFile?
      modifies this, disk, freeMapFile.hdr, directoryFile.hdr
      ensures Valid() && Leads(old(Now()), c, r, Now())
    {
      ghost var was, d := l, disk.image;
      var removed, e := Remove(c.name);
      if !removed { return Refused; }
      RemovedFiles(was, d, l, disk.image, e, KeyOf(c));
      FilesAt(was, d, KeyOf(c));
      return Done;
    }

    method PerformWrite(c: Command) returns (r: Outcome)
      requires Valid() && c.WriteFile?
      modifies this, disk, freeMapFile.hdr, directoryFile.hdr
      ensures Valid() && Leads(old(Now()), c, r, Now())
    {
      ghost var was, d := l, disk.image;
      var file := Open(c.name);
      if file == null { return Refused; }
      ghost var e := D.Lookup(l.table, KeyOf(c), 0).value;
      var ok := CanWrite(file, c.position + |c.bytes|, e);
      if !ok { return Skipped; }
      WriteTo(file, c.bytes, c.position, e);
      WrittenFiles(was, d, l, disk.image, e, KeyOf(c), c.bytes, c.position);
      FilesAt(was, d, KeyOf(c));
      return Done;
    }

    method Perform(c: Command) returns (r: Outcome)
      requires Valid()
      modifies this, disk, freeMapFile.hdr, directoryFile.hdr
      ensures Valid() && Leads(old(Now()), c, r, Now())
    {
      match c
      case CreateFile(_, _) => r := PerformCreate(c);
      case RemoveFile(_) => r := PerformRemove(c);
      case WriteFile(_, _, _) => r := PerformWrite(c);
    }

    // Every run of commands, up to the point where the machine stops, is a run of
    // updates of the map from names to bytes, and each command has the outcome it must.
    method Execute(commands: seq<Command>) returns (results: seq<Outcome>, ghost states: seq<State>)
      requires Valid()
      modifies this, disk, freeMapFile.hdr, directoryFile.hdr
      ensures Valid()
      ensures Ran(states, commands, results) && states[0] == old(Now()) && states[|results|] == Now()
      ensures forall i :: 0 <= i < |results| - 1 ==> results[i] != Halted
      ensures |results| < |commands| ==> results != [] && results[|results| - 1] == Halted
    {
      ghost var start := Now();
      ghost var now := start;
      results, states := [], [start];
      RanStart(start, commands);
      while |results| < |commands| && (results == [] || results[|results| - 1] != Halted)
        invariant Valid() && Now() == now
        invariant |states| == |results| + 1 && states[0] == start && states[|results|] == now
        invariant Ran(states, commands, results)
        invariant forall i :: 0 <= i < |results| - 1 ==> results[i] != Halted
        decreases |commands| - |results|
      {
        var r;
        r, now := ExecuteNext(commands, results, states, now);
        results, states := results + [r], states + [now];
      }
    }

    // One more command of a run.
    method ExecuteNext(commands: seq<Command>, results: seq<Outcome>, ghost states: seq<State>, ghost now: State) returns (r: Outcome, ghost next: State)
      requires Valid() && Now() == now && Ran(states, commands, results) && |results| < |commands| && states[|results|] == now
      modifies this, disk, freeMapFile.hdr, directoryFile.hdr
      ensures Valid() && Now() == next && Ran(states + [next], commands, results + [r])
    {
      r := Perform(commands[|results|]);
      next := Now();
      RanSnoc(states, commands, results, r, next);
    }

    // Open a file by name and read from it, within what is found of it: the bytes are
    // those of the map.
    method ReadFrom(name: seq<Byte>, numBytes: int, position: nat) returns (r: Option<seq<Byte>>)
      requires Valid()
      requires D.Key(name) in Now().files ==> Now().files[D.Key(name)].whole || position + numBytes <= |Now().files[D.Key(name)].c|
      ensures r == None <==> D.Key(name) !in Now().files
      ensures r.Some? ==> r.value == Slice(Now().files[D.Key(name)].c, numBytes, position)
    {
      FilesAt(l, disk.image, D.Key(name));
      var file := Open(name);
      if file == null { return None; }
      ReadsFound(l, disk.image, D.Lookup(l.table, D.Key(name), 0).value, numBytes, position);
      r := file.ReadAt(numBytes, position);
    }
  }

  lemma ReadsFound(l: Layout, d: Image, e: nat, numBytes: int, position: nat)
    requires FsOk(l, d) && InUse(l, e) && Sized(l.headers[e]) && Sized(Found(l.headers[e]))
    requires l.headers[e].numSectors == NumDirect ==> position + numBytes <= Found(l.headers[e]).numBytes
    ensures ReadLocated(l.headers[e], d, numBytes, position)
    ensures Slice(Content(l.headers[e], d), numBytes, position) == Slice(Content(Found(l.headers[e]), d), numBytes, position)
  {
    ListedFound(l, d, e);
    ReadsLocated(Found(l.headers[e]), d, numBytes, position);
    if l.headers[e].numSectors == NumDirect {
      ListedLastSlot(l, d, e);
      SliceFound(l.headers[e], d, numBytes, position);
      ReadFound(l.headers[e], d, numBytes, position);
    }
  }

  // The free sectors below n.
  function FreeBelow(marked: set<nat>, n: nat): set<nat> {
    set i: nat | i < n && i !in marked
  }

  lemma FreeBelowNext(marked: set<nat>, n: nat)
    ensures FreeBelow(marked, n + 1) == if n in marked then FreeBelow(marked, n) else FreeBelow(marked, n) + {n}
  {
  }

  method CountLow(freeMap: BitMap) returns (low: nat)
    requires freeMap.Valid() && freeMap.numBits == NumSectors
    ensures low == |LowFree(freeMap.Marked())|
  {
    low := 0;
    ghost var marked := freeMap.Marked();
    for i := 0 to 128
      invariant low == |FreeBelow(marked, i)|
    {
      var isSet := freeMap.Test(i);
      if !isSet { low := low + 1; }
      FreeBelowNext(marked, i);
    }
    assert LowFree(marked) == FreeBelow(marked, 128);
  }

  // What writing the directory file back does.
  lemma DirectoryWritten(dir: Header, d: Image, table: seq<D.Entry>, c: Call, d': Image)
    requires D.Shaped(table) && |table| == NumDirEntries && DirFileOk(dir) && WellMapped(dir, d)
    requires c.h == dir && c.d == d && c.from == D.EncodeTable(table) && c.position == 0 && c.d' == d' && Writes(c)
    ensures c.h' == dir && WellMapped(dir, d') && D.DecodeTable(Content(dir, d')) == table
    ensures forall x :: OnDisk(x) && x != dir.data[0] && x != dir.data[1] ==> d'[x] == d[x]
  {
    WritesWithin(c);
    SplicedContent(dir, d, d', c.from, 0);
    D.TableRoundTrip(table);
    assert Content(dir, d') == c.from;
    forall x | OnDisk(x) && x != dir.data[0] && x != dir.data[1] ensures d'[x] == d[x] {
      assert !IsBlock(dir, d, 0, dir.numSectors, x);
    }
  }

  lemma BeforeWrite(l: Layout, d: Image, e: nat, end: nat)
    requires FsOk(l, d) && InUse(l, e) && Writable(l.headers[e], l.marked, end)
    ensures WellMapped(Found(l.headers[e]), d) && MapFileOk(d) && l.m == MapSector(d) && l.marked == MapBits(d)
    ensures l.headers[e].numSectors == NumDirect ==> LastSlotUsed(l.headers[e]) && end <= l.headers[e].numBytes
    ensures end > l.headers[e].numBytes ==> CanGrow(l.headers[e], d, l.m, l.marked, end)
    ensures InBounds(l.headers[e], d, end)
  {
    ListedFound(l, d, e);
    MapFacts(l, d);
    if l.headers[e].numSectors == NumDirect {
      ListedLastSlot(l, d, e);
    } else {
      if end <= l.headers[e].numBytes { MoreBytesMoreSectors(end, l.headers[e].numBytes); }
      if end > l.headers[e].numBytes { ListedCanGrow(l, d, e, end); }
    }
  }

  // For a direct file and a write that ends within the slots that are read directly,
  // the writes that are let through are exactly those that harm no other sector.
  lemma WritableIffCovered(h: Header, marked: set<nat>, end: nat)
    requires 0 <= h.numBytes && h.numSectors == SectorsFor(h.numBytes) <= NumDirect && SectorsFor(end) < NumDirect && end < 0x8000_0000
    ensures Writable(h, marked, end) <==> StaleSlots.Covered(h, marked, end)
  {
    if end <= h.numBytes { MoreBytesMoreSectors(end, h.numBytes); } else { MoreBytesMoreSectors(h.numBytes, end); }
  }

  lemma WriteInBounds(l: Layout, d: Image, e: nat, end: nat)
    requires FsOk(l, d) && InUse(l, e) && Writable(l.headers[e], l.marked, end)
    ensures InBounds(l.headers[e], d, end)
  {
    BeforeWrite(l, d, e, end);
  }

  // The layout and what holds of it once WriteAt has returned.
  lemma WriteFinished(l: Layout, e: nat, from: seq<Byte>, position: nat, d: Image, d': Image, c: Call, mapHdr: Header, dirHdr: Header) returns (l': Layout)
    requires Mounted(l, d, mapHdr, dirHdr) && InUse(l, e) && Writable(l.headers[e], l.marked, position + |from|)
    requires c.h == l.headers[e] && c.d == d && c.d' == d' && c.from == from && c.position == position
    requires if from == [] then d' == d && c.h' == c.h else Writes(c)
    ensures Mounted(l', d', mapHdr, dirHdr) && FileWritten(l, d, l', d', e, from, position) && l'.headers[e] == c.h'
  {
    BeforeWrite(l, d, e, position + |from|);
    WriteMeans(l, d, e, from, position, c);
    if l.headers[e].numSectors == NumDirect && from != [] { BeforeLast(position, |from|); }
    WriteDone(l, d, e, c.h', d', from, position, mapHdr, dirHdr);
    l' := AfterWrite(l, e, c.h', d', from, position);
  }

  // What a call of WriteAt has done to a file that can be written.
  lemma WriteMeans(l: Layout, d: Image, e: nat, from: seq<Byte>, position: nat, c: Call)
    requires InUse(l, e) && |l.headers| == NumDirEntries && WellMapped(Found(l.headers[e]), d) && MapFileOk(d) && l.m == MapSector(d) && l.marked == MapBits(d)
    requires l.headers[e].numSectors == NumDirect ==>
               LastSlotUsed(l.headers[e]) && SectorsFor(position + |from|) < NumDirect && position + |from| <= l.headers[e].numBytes
    requires position + |from| > l.headers[e].numBytes ==> CanGrow(l.headers[e], d, l.m, l.marked, position + |from|)
    requires from != [] ==> Writes(c) && c.h == l.headers[e] && c.d == d && c.from == from && c.position == position
    ensures from != [] && position + |from| <= l.headers[e].numBytes ==>
              !c.stopped && c.h' == l.headers[e] && Spliced(Found(l.headers[e]), d, c.d', from, position)
    ensures from != [] && position + |from| > l.headers[e].numBytes ==> !c.stopped && GrownAndSpliced(l.headers[e], d, c.h', c.d', from, position)
  {
    if from != [] {
      if l.headers[e].numSectors == NumDirect { WritesFound(c); }
      else if position + |from| <= l.headers[e].numBytes { WritesWithin(c); }
      else { WritesBeyond(c); }
    }
  }

  lemma NothingWritten(l: Layout, d: Image, e: nat, position: nat)
    requires FsOk(l, d) && InUse(l, e) && WellMapped(Found(l.headers[e]), d)
    ensures FileWritten(l, d, l, d, e, [], position)
  {
    ChangedSame(l, e);
  }

  lemma WrittenWithin(l: Layout, d: Image, e: nat, d': Image, from: seq<Byte>, position: nat, mapHdr: Header, dirHdr: Header)
    requires Mounted(l, d, mapHdr, dirHdr) && InUse(l, e) && from != []
    requires WellMapped(Found(l.headers[e]), d) && position + |from| <= Found(l.headers[e]).numBytes && Spliced(Found(l.headers[e]), d, d', from, position)
    ensures Mounted(l, d', mapHdr, dirHdr) && FileWritten(l, d, l, d', e, from, position)
  {
    SplicedFs(l, d, e, d', from, position);
    SplicedContent(Found(l.headers[e]), d, d', from, position);
    MountedStill(l, d, d', e, l, mapHdr, dirHdr);
    ChangedSame(l, e);
  }

  lemma WrittenBeyond(l: Layout, d: Image, e: nat, h': Header, d': Image, from: seq<Byte>, position: nat, mapHdr: Header, dirHdr: Header)
    requires Mounted(l, d, mapHdr, dirHdr) && InUse(l, e) && l.headers[e].numSectors != NumDirect && from != []
    requires MapFileOk(d) && l.m == MapSector(d) && l.marked == MapBits(d)
    requires position + |from| > l.headers[e].numBytes && CanGrow(l.headers[e], d, l.m, l.marked, position + |from|)
    requires GrownAndSpliced(l.headers[e], d, h', d', from, position)
    ensures MapFileOk(d')
    ensures Mounted(Changed(l, e, MapBits(d'), l.table[e], h'), d', mapHdr, dirHdr)
    ensures FileWritten(l, d, Changed(l, e, MapBits(d'), l.table[e], h'), d', e, from, position)
  {
    var h, mid, l' := l.headers[e], Mid(d, l.m, h', d'[l.m]), Changed(l, e, MapBits(d'), l.table[e], h');
    assert mid == Mid(d, l.m, h', mid[l.m]);
    assert FsOk(l', d') && OthersUsedKept(l, d, d', e) by { GrownFs(l, d, e, h', mid, d', from, position); }
    MountedStill(l, d, d', e, l', mapHdr, dirHdr);
    ContentBeyond(h, d, l.m, l.marked, h', MapBits(d'), mid, d', from, position);
  }

  // The layout after a write.
  ghost function AfterWrite(l: Layout, e: nat, h': Header, d': Image, from: seq<Byte>, position: nat): Layout
    requires FilesOk(l) && InUse(l, e) && (from != [] && position + |from| > l.headers[e].numBytes ==> MapFileOk(d'))
  {
    if from == [] || position + |from| <= l.headers[e].numBytes then l else Changed(l, e, MapBits(d'), l.table[e], h')
  }

  lemma WriteDone(l: Layout, d: Image, e: nat, h': Header, d': Image, from: seq<Byte>, position: nat, mapHdr: Header, dirHdr: Header)
    requires Mounted(l, d, mapHdr, dirHdr) && InUse(l, e) && WellMapped(Found(l.headers[e]), d)
    requires from == [] ==> d' == d && h' == l.headers[e]
    requires l.headers[e].numSectors == NumDirect ==> position + |from| <= Found(l.headers[e]).numBytes && position + |from| <= l.headers[e].numBytes
    requires from != [] && position + |from| <= l.headers[e].numBytes ==> h' == l.headers[e] && Spliced(Found(l.headers[e]), d, d', from, position)
    requires from != [] && position + |from| > l.headers[e].numBytes ==>
               && MapFileOk(d) && l.m == MapSector(d) && l.marked == MapBits(d)
               && CanGrow(l.headers[e], d, l.m, l.marked, position + |from|) && GrownAndSpliced(l.headers[e], d, h', d', from, position)
    ensures from != [] && position + |from| > l.headers[e].numBytes ==> MapFileOk(d')
    ensures var l' := AfterWrite(l, e, h', d', from, position);
            && Mounted(l', d', mapHdr, dirHdr) && FileWritten(l, d, l', d', e, from, position) && l'.headers[e] == h'
  {
    if from == [] {
      NothingWritten(l, d, e, position);
    } else if position + |from| <= l.headers[e].numBytes {
      WrittenWithin(l, d, e, d', from, position, mapHdr, dirHdr);
    } else {
      WrittenBeyond(l, d, e, h', d', from, position, mapHdr, dirHdr);
    }
  }

  lemma ContentBeyond(h: Header, d: Image, m: int, marked: set<nat>, h': Header, marked': set<nat>, mid: Image, d': Image, from: seq<Byte>, position: nat)
    requires GrownOn(h, d, m, marked, h', marked', mid, d', from, position) && from != []
    ensures WellMapped(h', d') && WrittenContent(Content(h, d), Content(h', d'), from, position)
  {
    GrownContent(h, d, m, marked, h', marked', mid, d', from, position);
  }
}

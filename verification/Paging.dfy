/**
  Demand paging with one inverted page table: entry j describes frame j.  A page
  is brought in from the backing file when it is first touched.  Seen from the
  threads, this is one flat byte memory each, in which a byte holds what was
  written last, or what the backing file holds, or zero.
 */
module Paging {
  import opened Common
  import opened BitMaps
  import opened Codec

  const PageSize: nat := 128
  const NumPhysPages: nat := 32
  const MemorySize: nat := NumPhysPages * PageSize

  datatype Translation = Translation(virtualPage: int, physicalPage: int, valid: bool, readOnly: bool, used: bool, dirty: bool, thread: int)

  datatype Exception = NoException | PageFault | ReadOnly | BusError | AddressError

  // ----------------------------------------------------------- the reference: flat memory

  // A store by a thread: `bytes` from address `addr` on.
  datatype Store = Store(pid: int, addr: nat, bytes: seq<Byte>)

  predicate Covers(s: Store, pid: int, a: nat) {
    s.pid == pid && s.addr <= a < s.addr + |s.bytes|
  }

  // The initial contents: the backing file, padded with zeros.
  function Initial(backing: seq<Byte>, a: nat): Byte {
    if a < |backing| then backing[a] else 0
  }

  // The byte at address a of a thread's memory after these stores: the last store
  // that covers it decides.
  function FlatByte(backing: seq<Byte>, stores: seq<Store>, pid: int, a: nat): Byte {
    if stores == [] then Initial(backing, a)
    else
      var last := stores[|stores| - 1];
      if Covers(last, pid, a) then last.bytes[a - last.addr] else FlatByte(backing, stores[..|stores| - 1], pid, a)
  }

  function FlatBytes(backing: seq<Byte>, stores: seq<Store>, pid: int, a: nat, size: nat): (b: seq<Byte>)
    ensures |b| == size
  {
    seq<Byte>(size, i requires 0 <= i < size => FlatByte(backing, stores, pid, a + i))
  }

  // What a load of that size makes of the bytes: a char is signed, a short is not.
  function Loaded(b: seq<Byte>): Int32
    requires |b| in {1, 2, 4}
  {
    if |b| == 1 then SignedChar(b[0])
    else if |b| == 2 then b[0] + 0x100 * b[1]
    else DecodeInt(b)
  }

  // The bytes that a store of that size writes.
  function Stored(value: Int32, size: nat): (b: seq<Byte>)
    requires size in {1, 2, 4}
    ensures |b| == size
  {
    EncodeInt(value)[..size]
  }

  // Loading what was stored gives the value back, cut to its size.
  lemma LoadStored(value: Int32, size: nat)
    requires size in {1, 2, 4}
    ensures size == 4 ==> Loaded(Stored(value, size)) == value
    ensures size == 2 ==> Loaded(Stored(value, size)) == value % 0x1_0000
    ensures size == 1 ==> Loaded(Stored(value, size)) == SignedChar(value % 0x100)
  {
    if size == 4 {
      IntRoundTrip(value);
      assert EncodeInt(value)[..4] == EncodeInt(value);
    } else {
      NatBytes(value % 0x1_0000_0000);
      LowPart(value);
    }
  }

  lemma LowPart(value: Int32)
    ensures var u := value % 0x1_0000_0000;
            u % 0x100 == value % 0x100 && u % 0x100 + 0x100 * (u / 0x100 % 0x100) == value % 0x1_0000
  {
    var u, q := value % 0x1_0000_0000, value / 0x1_0000_0000;
    assert value == u + 0x1_0000_0000 * q;
    DropMultiple(u, q * 0x100_0000);
    DropBigMultiple(u, q * 0x1_0000);
    TwoDigits(u);
  }

  // The digits of a word do not depend on whether its sign is counted.
  lemma HighPart(value: Int32)
    ensures var u := value % 0x1_0000_0000;
            && u / 0x100 % 0x100 == value / 0x100 % 0x100
            && u / 0x100 / 0x100 % 0x100 == value / 0x1_0000 % 0x100
            && u / 0x100 / 0x100 / 0x100 % 0x100 == value / 0x100_0000 % 0x100
            && u / 0x100 / 0x100 % 0x100 + 0x100 * (u / 0x100 / 0x100 / 0x100 % 0x100) == value / 0x1_0000 % 0x1_0000
  {
    var u, q := value % 0x1_0000_0000, value / 0x1_0000_0000;
    assert value == u + 0x1_0000_0000 * q;
    Shifted(u, 0x100_0000 * q);
    Shifted(u / 0x100, 0x1_0000 * q);
    Shifted(u / 0x100 / 0x100, 0x100 * q);
    DivTwice(value);
    DropMultiple(u / 0x100, 0x1_0000 * q);
    DropMultiple(u / 0x100 / 0x100, 0x100 * q);
    DropMultiple(u / 0x100 / 0x100 / 0x100, q);
    TwoDigits(u / 0x100 / 0x100);
    DropBigMultiple(u / 0x100 / 0x100, q);
  }

  lemma Shifted(u: int, k: int)
    ensures (u + 0x100 * k) / 0x100 == u / 0x100 + k
  {
  }

  lemma DivTwice(v: int)
    ensures v / 0x100 / 0x100 == v / 0x1_0000 && v / 0x1_0000 / 0x100 == v / 0x100_0000
  {
  }

  lemma DropMultiple(u: int, k: int)
    ensures (u + 0x100 * k) % 0x100 == u % 0x100
  {
  }

  lemma DropBigMultiple(u: int, k: int)
    ensures (u + 0x1_0000 * k) % 0x1_0000 == u % 0x1_0000
  {
  }

  lemma TwoDigits(u: nat)
    ensures u % 0x100 + 0x100 * (u / 0x100 % 0x100) == u % 0x1_0000
  {
    var v := u / 0x100;
    var low := u % 0x100 + 0x100 * (v % 0x100);
    assert u == low + 0x1_0000 * (v / 0x100);
    DropBigMultiple(low, v / 0x100);
  }

  // The low end comes first: a word in memory is its two halves, the low one first, and
  // each of its bytes, the lowest first; and a shorter store is the beginning of a longer.
  lemma LowEndFirst(value: Int32)
    ensures var b := Stored(value, 4);
            && Loaded(b[..2]) == value % 0x1_0000 && Loaded(b[2..]) == value / 0x1_0000 % 0x1_0000
            && Loaded(b[..1]) == SignedChar(value % 0x100) && Loaded(b[1..2]) == SignedChar(value / 0x100 % 0x100)
            && Loaded(b[2..3]) == SignedChar(value / 0x1_0000 % 0x100) && Loaded(b[3..]) == SignedChar(value / 0x100_0000 % 0x100)
            && Stored(value, 2) == b[..2] && Stored(value, 1) == b[..1]
  {
    var u := value % 0x1_0000_0000;
    NatBytes(u);
    LowPart(value);
    HighPart(value);
    assert Stored(value, 4) == EncodeInt(value);
  }

  // A run: loads and stores of any threads in any order, and what the loads return
  // on flat memory.
  datatype Access = LoadFrom(pid: int, addr: nat, size: nat) | StoreTo(pid: int, addr: nat, size: nat, value: Int32)

  predicate WellSized(run: seq<Access>) {
    forall i :: 0 <= i < |run| ==> run[i].size in {1, 2, 4}
  }

  function StoreOf(a: Access): seq<Store>
    requires a.size in {1, 2, 4}
  {
    match a
    case LoadFrom(_, _, _) => []
    case StoreTo(pid, addr, size, value) => [Store(pid, addr, Stored(value, size))]
  }

  function ValueOf(backing: seq<Byte>, stores: seq<Store>, a: Access): seq<Int32>
    requires a.size in {1, 2, 4}
  {
    match a
    case LoadFrom(pid, addr, size) => [Loaded(FlatBytes(backing, stores, pid, addr, size))]
    case StoreTo(_, _, _, _) => []
  }

  function StoresOf(stores: seq<Store>, run: seq<Access>): seq<Store>
    requires WellSized(run)
  {
    if run == [] then stores else StoresOf(stores, run[..|run| - 1]) + StoreOf(run[|run| - 1])
  }

  function ValuesOf(backing: seq<Byte>, stores: seq<Store>, run: seq<Access>): seq<Int32>
    requires WellSized(run)
  {
    if run == [] then []
    else
      var before := run[..|run| - 1];
      ValuesOf(backing, stores, before) + ValueOf(backing, StoresOf(stores, before), run[|run| - 1])
  }

  // -------------------------------------------------------------------- page table

  predicate Maps(e: Translation, pid: int, vpn: int) {
    e.virtualPage == vpn && e.valid && e.thread == pid
  }

  // The last of the first n entries that maps the page.
  function FindEntry(t: seq<Translation>, pid: int, vpn: int, n: nat): (r: Option<nat>)
    requires n <= |t|
    ensures r.Some? ==> r.value < n && Maps(t[r.value], pid, vpn)
    ensures r.None? ==> forall j :: 0 <= j < n ==> !Maps(t[j], pid, vpn)
  {
    if n == 0 then None else if Maps(t[n - 1], pid, vpn) then Some(n - 1) else FindEntry(t, pid, vpn, n - 1)
  }

  // The byte at virtual address a, resident or not.
  function VirtualByte(t: seq<Translation>, mem: seq<Byte>, backing: seq<Byte>, pid: int, a: nat): Byte
    requires |t| == NumPhysPages && |mem| == MemorySize
  {
    match FindEntry(t, pid, a / PageSize, NumPhysPages)
    case None => Initial(backing, a)
    case Some(j) => mem[j * PageSize + a % PageSize]
  }

  // Valid entries map different pages, each to its own frame; frame j is marked
  // exactly when entry j is valid; frames never used hold zeros.
  ghost predicate TableOk(t: seq<Translation>, mem: seq<Byte>, marked: set<nat>) {
    && |t| == NumPhysPages && |mem| == MemorySize
    && (forall j :: 0 <= j < NumPhysPages ==> (j in marked <==> t[j].valid) && !t[j].readOnly)
    && (forall j :: 0 <= j < NumPhysPages && t[j].valid ==> t[j].physicalPage == j)
    && (forall i, j :: 0 <= i < j < NumPhysPages && t[i].valid && t[j].valid ==>
          !(t[i].virtualPage == t[j].virtualPage && t[i].thread == t[j].thread))
    && (forall j, k :: 0 <= j < NumPhysPages && !t[j].valid && j * PageSize <= k < (j + 1) * PageSize ==> mem[k] == 0)
  }

  // The page table and the memory hold exactly the flat memory of every thread.
  ghost predicate Represents(t: seq<Translation>, mem: seq<Byte>, backing: seq<Byte>, stores: seq<Store>)
    requires |t| == NumPhysPages && |mem| == MemorySize
  {
    forall pid: int, a: nat :: VirtualByte(t, mem, backing, pid, a) == FlatByte(backing, stores, pid, a)
  }

  // The entry found is the only one.
  lemma FoundUnique(t: seq<Translation>, mem: seq<Byte>, marked: set<nat>, pid: int, vpn: int, j: nat)
    requires TableOk(t, mem, marked) && j < NumPhysPages && Maps(t[j], pid, vpn)
    ensures FindEntry(t, pid, vpn, NumPhysPages) == Some(j)
  {
    var r := FindEntry(t, pid, vpn, NumPhysPages);
    assert r.Some?;
    assert r.value == j;
  }

  // ------------------------------------------------------------------- a page fault

  // What the handler leaves: a fresh frame for the page, filled from the backing
  // file as far as that goes.
  ghost predicate BroughtIn(t: seq<Translation>, mem: seq<Byte>, backing: seq<Byte>, pid: int, vpn: nat, f: nat, t': seq<Translation>, mem': seq<Byte>) {
    && |t| == |t'| == NumPhysPages && |mem| == |mem'| == MemorySize && f < NumPhysPages
    && t' == t[f := t[f].(virtualPage := vpn, physicalPage := f, valid := true, thread := pid)]
    && (forall k :: 0 <= k < MemorySize && !(f * PageSize <= k < (f + 1) * PageSize) ==> mem'[k] == mem[k])
    && (forall k :: f * PageSize <= k < (f + 1) * PageSize ==>
          mem'[k] == if (vpn - f) * PageSize + k < |backing| then backing[(vpn - f) * PageSize + k] else mem[k])
  }

  lemma FaultKeepsTable(t: seq<Translation>, mem: seq<Byte>, marked: set<nat>, backing: seq<Byte>, pid: int, vpn: nat, f: nat, t': seq<Translation>, mem': seq<Byte>)
    requires TableOk(t, mem, marked) && f < NumPhysPages && !t[f].valid && FindEntry(t, pid, vpn, NumPhysPages) == None
    requires BroughtIn(t, mem, backing, pid, vpn, f, t', mem')
    ensures TableOk(t', mem', marked + {f})
  {
    forall i, j | 0 <= i < j < NumPhysPages && t'[i].valid && t'[j].valid
      ensures !(t'[i].virtualPage == t'[j].virtualPage && t'[i].thread == t'[j].thread)
    {
      assert i != f ==> !Maps(t[i], pid, vpn);
      assert j != f ==> !Maps(t[j], pid, vpn);
    }
    forall j, k | 0 <= j < NumPhysPages && !t'[j].valid && j * PageSize <= k < (j + 1) * PageSize ensures mem'[k] == 0 {
      assert j != f;
    }
  }

  // The fault itself is invisible: no byte of any thread changes.
  lemma FaultKeepsByte(t: seq<Translation>, mem: seq<Byte>, marked: set<nat>, backing: seq<Byte>, pid: int, vpn: nat, f: nat, t': seq<Translation>, mem': seq<Byte>, p: int, a: nat)
    requires TableOk(t, mem, marked) && f < NumPhysPages && !t[f].valid && FindEntry(t, pid, vpn, NumPhysPages) == None
    requires BroughtIn(t, mem, backing, pid, vpn, f, t', mem') && TableOk(t', mem', marked + {f})
    ensures VirtualByte(t', mem', backing, p, a) == VirtualByte(t, mem, backing, p, a)
  {
    var page := a / PageSize;
    if p == pid && page == vpn {
      FoundUnique(t', mem', marked + {f}, p, page, f);
      assert a == vpn * PageSize + a % PageSize;
    } else {
      var r := FindEntry(t, p, page, NumPhysPages);
      if r.Some? {
        assert r.value != f;
        FoundUnique(t', mem', marked + {f}, p, page, r.value);
      } else {
        assert forall j :: 0 <= j < NumPhysPages ==> !Maps(t'[j], p, page);
      }
    }
  }

  // ------------------------------------------------------------------------- a store

  // Writing resident bytes changes those bytes of that thread, and no others.
  lemma StoreByte(t: seq<Translation>, mem: seq<Byte>, marked: set<nat>, backing: seq<Byte>, s: Store, j: nat, mem': seq<Byte>, p: int, a: nat)
    requires TableOk(t, mem, marked) && |mem'| == MemorySize && |s.bytes| + s.addr % PageSize <= PageSize
    requires j < NumPhysPages && Maps(t[j], s.pid, s.addr / PageSize)
    requires forall k :: 0 <= k < MemorySize ==>
               mem'[k] == if 0 <= k - (j * PageSize + s.addr % PageSize) < |s.bytes| then s.bytes[k - (j * PageSize + s.addr % PageSize)] else mem[k]
    ensures VirtualByte(t, mem', backing, p, a) == if Covers(s, p, a) then s.bytes[a - s.addr] else VirtualByte(t, mem, backing, p, a)
  {
    var page := a / PageSize;
    var r := FindEntry(t, p, page, NumPhysPages);
    FoundUnique(t, mem, marked, s.pid, s.addr / PageSize, j);
    assert a == page * PageSize + a % PageSize;
    assert s.addr == s.addr / PageSize * PageSize + s.addr % PageSize;
    if Covers(s, p, a) {
      assert page == s.addr / PageSize;
    } else if r == Some(j) {
      assert Maps(t[j], p, page);
    }
  }

  // Setting the use and dirty bits of an entry changes nothing else.
  ghost predicate SameButBits(t: seq<Translation>, t': seq<Translation>) {
    |t'| == |t| && forall j :: 0 <= j < |t| ==> t'[j] == t[j].(used := t'[j].used, dirty := t'[j].dirty)
  }

  // The entry of the page has been used, and written to if `writing`.
  function Touched(t: seq<Translation>, pid: int, vpn: int, writing: bool): seq<Translation>
    requires |t| == NumPhysPages
  {
    match FindEntry(t, pid, vpn, NumPhysPages)
    case None => t
    case Some(j) => t[j := t[j].(used := true, dirty := t[j].dirty || writing)]
  }

  lemma {:induction false} BitsKeepEntry(t: seq<Translation>, t': seq<Translation>, pid: int, vpn: int, n: nat)
    requires SameButBits(t, t') && n <= |t|
    ensures FindEntry(t', pid, vpn, n) == FindEntry(t, pid, vpn, n)
    decreases n
  {
    if n > 0 { BitsKeepEntry(t, t', pid, vpn, n - 1); }
  }

  lemma BitsKeep(t: seq<Translation>, t': seq<Translation>, mem: seq<Byte>, marked: set<nat>, backing: seq<Byte>, stores: seq<Store>)
    requires TableOk(t, mem, marked) && Represents(t, mem, backing, stores) && SameButBits(t, t')
    ensures TableOk(t', mem, marked) && Represents(t', mem, backing, stores)
  {
    forall pid: int, a: nat ensures VirtualByte(t', mem, backing, pid, a) == FlatByte(backing, stores, pid, a) {
      BitsKeepEntry(t, t', pid, a / PageSize, NumPhysPages);
      assert VirtualByte(t, mem, backing, pid, a) == FlatByte(backing, stores, pid, a);
    }
  }

  // --------------------------------------------------------------------- the machine

  predicate Aligned(addr: nat, size: nat) {
    (size == 4 ==> addr % 4 == 0) && (size == 2 ==> addr % 2 == 0)
  }

  // A load returns a value; both stop when an ASSERT of the kernel fires: on an
  // address that is not aligned, or when no frame is left.
  datatype Outcome = Value(value: Int32) | Halted

  class Machine {
    const pageTable: array<Translation>
    const mainMemory: array<Byte>
    const memoryMap: BitMap
    const backing: seq<Byte>
    ghost var stores: seq<Store>

    ghost predicate Sized() {
      && pageTable.Length == NumPhysPages && mainMemory.Length == MemorySize
      && memoryMap.Valid() && memoryMap.numBits == NumPhysPages
    }

    ghost predicate Valid()
      reads this, pageTable, mainMemory, memoryMap.words
    {
      && Sized()
      && TableOk(pageTable[..], mainMemory[..], memoryMap.Marked())
      && Represents(pageTable[..], mainMemory[..], backing, stores)
    }

    // Every entry invalid, memory zero, every frame free.
    constructor (file: seq<Byte>)
      ensures Valid() && backing == file && stores == [] && fresh(pageTable) && fresh(mainMemory) && fresh(memoryMap.words)
    {
      pageTable := new Translation[NumPhysPages](j => Translation(-1, j, false, false, false, false, -1));
      mainMemory := new Byte[MemorySize](_ => 0);
      memoryMap := new BitMap(NumPhysPages);
      backing := file;
      stores := [];
      new;
      forall pid: int, a: nat ensures VirtualByte(pageTable[..], mainMemory[..], backing, pid, a) == FlatByte(backing, stores, pid, a) {
        assert FindEntry(pageTable[..], pid, a / PageSize, NumPhysPages) == None;
      }
    }

    // Machine::Translate: look through the whole table for the page of this thread.
    method Translate(pid: int, virtAddr: nat, size: nat, writing: bool) returns (e: Exception, physAddr: nat)
      requires Valid() && size in {1, 2, 4}
      modifies pageTable
      ensures Valid() && SameButBits(old(pageTable[..]), pageTable[..])
      ensures e == AddressError <==> !Aligned(virtAddr, size)
      ensures e == PageFault <==> Aligned(virtAddr, size) && FindEntry(old(pageTable[..]), pid, virtAddr / PageSize, NumPhysPages) == None
      ensures e in {NoException, AddressError, PageFault}
      ensures e == NoException ==> Located(pageTable[..], pid, virtAddr, physAddr) && physAddr + size <= MemorySize
      ensures pageTable[..] == if e == NoException then Touched(old(pageTable[..]), pid, virtAddr / PageSize, writing) else old(pageTable[..])
    {
      physAddr := 0;
      if (size == 4 && virtAddr % 4 != 0) || (size == 2 && virtAddr % 2 != 0) { return AddressError, 0; }
      var vpn, offset := virtAddr / PageSize, virtAddr % PageSize;
      var j := SearchTable(pid, vpn);
      if j == None { return PageFault, 0; }
      var entry := pageTable[j.value];
      if entry.readOnly && writing {
        e := ReadOnly;
        return;
      }
      if entry.physicalPage < 0 || entry.physicalPage >= NumPhysPages {
        e := BusError;
        return;
      }
      Touch(j.value, writing);
      physAddr := entry.physicalPage * PageSize + offset;
      SamePage(virtAddr, size, 0);
      assert Maps(pageTable[..][j.value], pid, vpn);
      e := NoException;
    }

    method SearchTable(pid: int, vpn: int) returns (r: Option<nat>)
      requires Sized()
      ensures r == FindEntry(pageTable[..], pid, vpn, NumPhysPages)
    {
      r := None;
      for j := 0 to NumPhysPages
        invariant r == FindEntry(pageTable[..], pid, vpn, j)
      {
        if pageTable[j].virtualPage == vpn && pageTable[j].valid && pageTable[j].thread == pid { r := Some(j); }
      }
    }

    // Set the use bit, and the dirty bit on a write.
    method Touch(j: nat, writing: bool)
      requires Valid() && j < NumPhysPages
      modifies pageTable
      ensures Valid() && SameButBits(old(pageTable[..]), pageTable[..])
      ensures pageTable[..] == old(pageTable[..])[j := old(pageTable[j]).(used := true, dirty := old(pageTable[j]).dirty || writing)]
    {
      ghost var t := pageTable[..];
      pageTable[j] := pageTable[j].(used := true, dirty := pageTable[j].dirty || writing);
      assert pageTable[..] == t[j := pageTable[j]];
      BitsKeep(t, pageTable[..], mainMemory[..], memoryMap.Marked(), backing, stores);
    }

    // The page-fault branch of the handler: take a frame, enter the page, fill the
    // frame from the backing file.  An ASSERT stops the machine when no frame is left.
    method HandlePageFault(pid: int, virtAddr: nat) returns (aborted: bool)
      requires Valid() && FindEntry(pageTable[..], pid, virtAddr / PageSize, NumPhysPages) == None
      modifies pageTable, mainMemory, memoryMap.words
      ensures Valid()
      ensures aborted <==> forall j: nat :: j < NumPhysPages ==> j in old(memoryMap.Marked())
      ensures !aborted ==> exists f :: 0 <= f < NumPhysPages && Maps(pageTable[f], pid, virtAddr / PageSize) && memoryMap.Marked() == old(memoryMap.Marked()) + {f}
      ensures aborted ==> memoryMap.Marked() == old(memoryMap.Marked()) && pageTable[..] == old(pageTable[..])
    {
      var vpn := virtAddr / PageSize;
      ghost var t, mem, marked := pageTable[..], mainMemory[..], memoryMap.Marked();
      var frame := memoryMap.Find();
      if frame == -1 { return true; }
      pageTable[frame] := pageTable[frame].(virtualPage := vpn, physicalPage := frame, valid := true, thread := pid);
      assert pageTable[..] == t[frame := pageTable[frame]];
      FillFrame(frame, vpn);
      assert BroughtIn(t, mem, backing, pid, vpn, frame, pageTable[..], mainMemory[..]);
      FaultKeepsTable(t, mem, marked, backing, pid, vpn, frame, pageTable[..], mainMemory[..]);
      forall p: int, a: nat ensures VirtualByte(pageTable[..], mainMemory[..], backing, p, a) == FlatByte(backing, stores, p, a) {
        FaultKeepsByte(t, mem, marked, backing, pid, vpn, frame, pageTable[..], mainMemory[..], p, a);
        assert VirtualByte(t, mem, backing, p, a) == FlatByte(backing, stores, p, a);
      }
      return false;
    }

    // executable->ReadAt(&mainMemory[paddr], PageSize, code_pos): as many bytes as
    // the file has there.
    method FillFrame(f: nat, vpn: nat)
      requires Sized() && f < NumPhysPages
      modifies mainMemory
      ensures forall k :: 0 <= k < MemorySize && !(f * PageSize <= k < (f + 1) * PageSize) ==> mainMemory[k] == old(mainMemory[k])
      ensures forall k :: f * PageSize <= k < (f + 1) * PageSize ==>
                mainMemory[k] == if (vpn - f) * PageSize + k < |backing| then backing[(vpn - f) * PageSize + k] else old(mainMemory[k])
    {
      var paddr, pos := f * PageSize, vpn * PageSize;
      for i := 0 to PageSize
        invariant forall k :: 0 <= k < MemorySize && !(paddr <= k < paddr + i) ==> mainMemory[k] == old(mainMemory[k])
        invariant forall k :: paddr <= k < paddr + i ==>
                    mainMemory[k] == if pos - paddr + k < |backing| then backing[pos - paddr + k] else old(mainMemory[k])
      {
        if pos + i < |backing| { mainMemory[paddr + i] := backing[pos + i]; }
      }
    }

    // Translate, take the fault if there is one, and translate again: the second
    // translation succeeds.
    method Locate(pid: int, addr: nat, size: nat, writing: bool) returns (physAddr: Option<nat>)
      requires Valid() && size in {1, 2, 4}
      modifies pageTable, mainMemory, memoryMap.words
      ensures Valid()
      ensures physAddr == None <==> !Aligned(addr, size) || NoFrame(old(pageTable[..]), old(memoryMap.Marked()), pid, addr)
      ensures physAddr == None ==> SameButBits(old(pageTable[..]), pageTable[..]) && memoryMap.Marked() == old(memoryMap.Marked())
      ensures physAddr.Some? ==> Located(pageTable[..], pid, addr, physAddr.value) && physAddr.value + size <= MemorySize
    {
      var e, p := Translate(pid, addr, size, writing);
      if e == AddressError { return None; }
      if e == PageFault {
        BitsKeepEntry(old(pageTable[..]), pageTable[..], pid, addr / PageSize, NumPhysPages);
        var aborted := HandlePageFault(pid, addr);
        if aborted { return None; }
        e, p := Translate(pid, addr, size, writing);
      }
      return Some(p);
    }

    // Machine::ReadMem
    method ReadMem(pid: int, addr: nat, size: nat) returns (r: Outcome)
      requires Valid() && size in {1, 2, 4}
      modifies pageTable, mainMemory, memoryMap.words
      ensures Valid()
      ensures r == Halted <==> !Aligned(addr, size) || NoFrame(old(pageTable[..]), old(memoryMap.Marked()), pid, addr)
      ensures r == Halted ==> SameButBits(old(pageTable[..]), pageTable[..]) && memoryMap.Marked() == old(memoryMap.Marked())
      ensures r.Value? ==> r.value == Loaded(FlatBytes(backing, stores, pid, addr, size))
    {
      var p := Locate(pid, addr, size, false);
      if p == None { return Halted; }
      ResidentBytes(pageTable[..], mainMemory[..], memoryMap.Marked(), backing, stores, pid, addr, size, p.value);
      assert mainMemory[p.value..p.value + size] == mainMemory[..][p.value..p.value + size];
      return Value(Loaded(mainMemory[p.value..p.value + size]));
    }

    // Machine::WriteMem; false when the machine has stopped.
    method WriteMem(pid: int, addr: nat, size: nat, value: Int32) returns (done: bool)
      requires Valid() && size in {1, 2, 4}
      modifies this`stores, pageTable, mainMemory, memoryMap.words
      ensures Valid()
      ensures done <==> Aligned(addr, size) && !NoFrame(old(pageTable[..]), old(memoryMap.Marked()), pid, addr)
      ensures !done ==> SameButBits(old(pageTable[..]), pageTable[..]) && memoryMap.Marked() == old(memoryMap.Marked())
      ensures stores == if done then old(stores) + [Store(pid, addr, Stored(value, size))] else old(stores)
    {
      var p := Locate(pid, addr, size, true);
      if p == None { return false; }
      var bytes := Stored(value, size);
      ghost var mem, s := mainMemory[..], Store(pid, addr, bytes);
      CopyIn(p.value, bytes);
      StoreDone(pageTable[..], mem, memoryMap.Marked(), backing, stores, s, p.value, mainMemory[..]);
      stores := stores + [s];
      return true;
    }

    // One access, and whether the machine goes on after it.
    method Perform(a: Access) returns (values: seq<Int32>, done: bool)
      requires Valid() && a.size in {1, 2, 4}
      modifies this`stores, pageTable, mainMemory, memoryMap.words
      ensures Valid()
      ensures done ==> values == ValueOf(backing, old(stores), a) && stores == old(stores) + StoreOf(a)
      ensures !done ==> values == [] && stores == old(stores) && Stuck(pageTable[..], memoryMap.Marked(), a)
    {
      values := [];
      ghost var t := pageTable[..];
      match a
      case LoadFrom(pid, addr, size) =>
        var r := ReadMem(pid, addr, size);
        done := r.Value?;
        if done { values := [r.value]; } else { BitsKeepEntry(t, pageTable[..], pid, addr / PageSize, NumPhysPages); }
      case StoreTo(pid, addr, size, value) =>
        done := WriteMem(pid, addr, size, value);
        if !done { BitsKeepEntry(t, pageTable[..], pid, addr / PageSize, NumPhysPages); }
    }

    // Every run behaves as on flat memory, as far as it gets: it stops early only on
    // an address that is not aligned or when no frame is left.
    method Run(run: seq<Access>) returns (values: seq<Int32>, performed: nat)
      requires Valid() && WellSized(run)
      modifies this`stores, pageTable, mainMemory, memoryMap.words
      ensures Valid() && performed <= |run| && WellSized(run[..performed])
      ensures values == ValuesOf(backing, old(stores), run[..performed]) && stores == StoresOf(old(stores), run[..performed])
      ensures performed < |run| ==> Stuck(pageTable[..], memoryMap.Marked(), run[performed])
    {
      values := [];
      for i := 0 to |run|
        invariant Valid() && values == ValuesOf(backing, old(stores), run[..i]) && stores == StoresOf(old(stores), run[..i])
      {
        assert run[..i + 1][..i] == run[..i];
        var more, done := Perform(run[i]);
        if !done { return values, i; }
        values := values + more;
      }
      assert run[..|run|] == run;
      performed := |run|;
    }

    method CopyIn(at: nat, bytes: seq<Byte>)
      requires at + |bytes| <= mainMemory.Length
      modifies mainMemory
      ensures forall k :: 0 <= k < mainMemory.Length ==> mainMemory[k] == if 0 <= k - at < |bytes| then bytes[k - at] else old(mainMemory[k])
    {
      for i := 0 to |bytes|
        invariant forall k :: 0 <= k < mainMemory.Length ==> mainMemory[k] == if 0 <= k - at < i then bytes[k - at] else old(mainMemory[k])
      {
        mainMemory[at + i] := bytes[i];
      }
    }
  }

  // A resident byte is the byte of flat memory.
  lemma ResidentByte(t: seq<Translation>, mem: seq<Byte>, marked: set<nat>, backing: seq<Byte>, stores: seq<Store>, pid: int, addr: nat, size: nat, physAddr: nat, i: nat)
    requires TableOk(t, mem, marked) && Represents(t, mem, backing, stores) && Located(t, pid, addr, physAddr)
    requires size in {1, 2, 4} && Aligned(addr, size) && i < size
    ensures physAddr + i < MemorySize && mem[physAddr + i] == FlatByte(backing, stores, pid, addr + i)
  {
    var j :| 0 <= j < NumPhysPages && Maps(t[j], pid, addr / PageSize) && physAddr == j * PageSize + addr % PageSize;
    SamePage(addr, size, i);
    FoundUnique(t, mem, marked, pid, addr / PageSize, j);
    assert VirtualByte(t, mem, backing, pid, addr + i) == FlatByte(backing, stores, pid, addr + i);
  }

  lemma ResidentBytes(t: seq<Translation>, mem: seq<Byte>, marked: set<nat>, backing: seq<Byte>, stores: seq<Store>, pid: int, addr: nat, size: nat, physAddr: nat)
    requires TableOk(t, mem, marked) && Represents(t, mem, backing, stores) && Located(t, pid, addr, physAddr)
    requires size in {1, 2, 4} && Aligned(addr, size) && physAddr + size <= MemorySize
    ensures mem[physAddr..physAddr + size] == FlatBytes(backing, stores, pid, addr, size)
  {
    var there, flat := mem[physAddr..physAddr + size], FlatBytes(backing, stores, pid, addr, size);
    forall i | 0 <= i < size ensures there[i] == flat[i] {
      ResidentByte(t, mem, marked, backing, stores, pid, addr, size, physAddr, i);
    }
  }

  lemma StoreKeepsTable(t: seq<Translation>, mem: seq<Byte>, marked: set<nat>, j: nat, physAddr: nat, bytes: seq<Byte>, mem': seq<Byte>)
    requires TableOk(t, mem, marked) && |mem'| == MemorySize && j < NumPhysPages && t[j].valid
    requires j * PageSize <= physAddr && physAddr + |bytes| <= (j + 1) * PageSize
    requires forall k :: 0 <= k < MemorySize ==> mem'[k] == if 0 <= k - physAddr < |bytes| then bytes[k - physAddr] else mem[k]
    ensures TableOk(t, mem', marked)
  {
  }

  // After a store the memory represents one store more.
  lemma StoreDone(t: seq<Translation>, mem: seq<Byte>, marked: set<nat>, backing: seq<Byte>, stores: seq<Store>, s: Store, physAddr: nat, mem': seq<Byte>)
    requires TableOk(t, mem, marked) && Represents(t, mem, backing, stores) && Located(t, s.pid, s.addr, physAddr)
    requires |s.bytes| in {1, 2, 4} && Aligned(s.addr, |s.bytes|) && |mem'| == MemorySize
    requires forall k :: 0 <= k < MemorySize ==> mem'[k] == if 0 <= k - physAddr < |s.bytes| then s.bytes[k - physAddr] else mem[k]
    ensures TableOk(t, mem', marked) && Represents(t, mem', backing, stores + [s])
  {
    var j :| 0 <= j < NumPhysPages && Maps(t[j], s.pid, s.addr / PageSize) && physAddr == j * PageSize + s.addr % PageSize;
    SamePage(s.addr, |s.bytes|, 0);
    StoreKeepsTable(t, mem, marked, j, physAddr, s.bytes, mem');
    assert (stores + [s])[..|stores|] == stores;
    forall p: int, a: nat ensures VirtualByte(t, mem', backing, p, a) == FlatByte(backing, stores + [s], p, a) {
      StoreByte(t, mem, marked, backing, s, j, mem', p, a);
      assert VirtualByte(t, mem, backing, p, a) == FlatByte(backing, stores, p, a);
    }
  }

  // Why an access stops the machine.
  ghost predicate Stuck(t: seq<Translation>, marked: set<nat>, a: Access)
    requires |t| == NumPhysPages
  {
    !Aligned(a.addr, a.size) || NoFrame(t, marked, a.pid, a.addr)
  }

  // The page is in frame j, and physAddr is the address within it.
  ghost predicate Located(t: seq<Translation>, pid: int, addr: nat, physAddr: nat)
    requires |t| == NumPhysPages
  {
    exists j :: 0 <= j < NumPhysPages && Maps(t[j], pid, addr / PageSize) && physAddr == j * PageSize + addr % PageSize
  }

  // An aligned access stays within one page.
  lemma SamePage(addr: nat, size: nat, i: nat)
    requires size in {1, 2, 4} && Aligned(addr, size) && i < size
    ensures addr % PageSize + size <= PageSize
    ensures (addr + i) / PageSize == addr / PageSize && (addr + i) % PageSize == addr % PageSize + i
  {
    var q, o := addr / PageSize, addr % PageSize;
    assert addr == PageSize * q + o;
    assert o + size <= PageSize by { AlignedOffset(q, o, size); }
    WithinPage(q, o + i);
  }

  lemma AlignedOffset(q: nat, o: nat, size: nat)
    requires size in {1, 2, 4} && Aligned(PageSize * q + o, size) && o < PageSize
    ensures o + size <= PageSize
  {
    DropFours(o, 32 * q);
    DropTwos(o, 64 * q);
  }

  lemma DropFours(o: nat, k: nat)
    ensures (4 * k + o) % 4 == o % 4
  {
  }

  lemma DropTwos(o: nat, k: nat)
    ensures (2 * k + o) % 2 == o % 2
  {
  }

  lemma WithinPage(q: nat, o: nat)
    requires o < PageSize
    ensures (PageSize * q + o) / PageSize == q && (PageSize * q + o) % PageSize == o
  {
  }

  // The page is not resident and no frame is free.
  ghost predicate NoFrame(t: seq<Translation>, marked: set<nat>, pid: int, addr: nat)
    requires |t| == NumPhysPages
  {
    FindEntry(t, pid, addr / PageSize, NumPhysPages) == None && forall j: nat :: j < NumPhysPages ==> j in marked
  }
}

/**
  The four-entry first-in first-out cache in front of the disk.  A miss reads
  the disk and overwrites the entry at the pointer; a write goes to the disk
  only and leaves the cache as it is.
 */
module SectorCaches {
  import opened Common

  const CacheSize: nat := 4

  type Sector = seq<Byte>

  datatype Entry = Entry(valid: bool, sector: nat, data: Sector)

  // `fills` is history: the sectors that were missed, oldest first.
  datatype Store = Store(disk: seq<Sector>, cache: seq<Entry>, fifo: nat, fills: seq<nat>)

  datatype Op = ReadOp(n: nat) | WriteOp(n: nat, data: Sector)

  predicate Matches(e: Entry, n: nat) {
    e.valid && e.sector == n
  }

  // The first entry from k on that holds sector n.
  function Search(cache: seq<Entry>, n: nat, k: nat): (r: Option<nat>)
    requires k <= |cache|
    ensures r.Some? ==> k <= r.value < |cache| && Matches(cache[r.value], n)
    ensures r.None? ==> forall j :: k <= j < |cache| ==> !Matches(cache[j], n)
    decreases |cache| - k
  {
    if k == |cache| then None
    else if Matches(cache[k], n) then Some(k)
    else Search(cache, n, k + 1)
  }

  function Find(s: Store, n: nat): Option<nat> { Search(s.cache, n, 0) }

  predicate Cached(s: Store, n: nat) { Find(s, n).Some? }

  // Overwrite the entry at the pointer and move the pointer on.
  function Fill(s: Store, n: nat, data: Sector): Store
    requires s.fifo < |s.cache|
  {
    s.(cache := s.cache[s.fifo := Entry(true, n, data)],
       fifo := (s.fifo + 1) % CacheSize,
       fills := s.fills + [n])
  }

  predicate Shape(s: Store) {
    |s.cache| == CacheSize && s.fifo < CacheSize
  }

  // What ReadSector hands back.
  function ReadData(s: Store, n: nat): Sector
    requires Shape(s) && n < |s.disk|
  {
    if Cached(s, n) then s.cache[Find(s, n).value].data else s.disk[n]
  }

  function Read(s: Store, n: nat): Store
    requires Shape(s) && n < |s.disk|
  {
    if Cached(s, n) then s else Fill(s, n, s.disk[n])
  }

  function Write(s: Store, n: nat, data: Sector): Store
    requires n < |s.disk|
  {
    s.(disk := s.disk[n := data])
  }

  function Do(s: Store, op: Op): Store
    requires Shape(s) && op.n < |s.disk|
  {
    match op
    case ReadOp(n) => Read(s, n)
    case WriteOp(n, data) => Write(s, n, data)
  }

  // ---------------------------------------------------------------- invariant

  // The slot used by the j-th fill.
  function Slot(j: nat): nat { j % CacheSize }

  // Entry k holds the latest fill that used slot k, so the valid entries are
  // the last four fills and the next victim is the oldest of them.
  predicate InFillOrder(s: Store) {
    && Shape(s)
    && s.fifo == Slot(|s.fills|)
    && (forall k :: |s.fills| <= k < CacheSize ==> !s.cache[k].valid)
    && (forall j :: 0 <= j < |s.fills| && |s.fills| <= j + CacheSize ==>
          s.cache[Slot(j)].valid && s.cache[Slot(j)].sector == s.fills[j])
  }

  predicate NoSectorTwice(s: Store) {
    forall j, k :: 0 <= j < k < |s.cache| && s.cache[j].valid && s.cache[k].valid ==> s.cache[j].sector != s.cache[k].sector
  }

  predicate Coherent(s: Store) {
    forall k :: 0 <= k < |s.cache| && s.cache[k].valid ==> s.cache[k].sector < |s.disk| && s.cache[k].data == s.disk[s.cache[k].sector]
  }

  lemma SlotSpread(a: nat, b: nat)
    requires a < b < a + CacheSize
    ensures Slot(a) != Slot(b)
  {
  }

  lemma DoKeepsOrder(s: Store, op: Op)
    requires InFillOrder(s) && NoSectorTwice(s) && op.n < |s.disk|
    ensures InFillOrder(Do(s, op)) && NoSectorTwice(Do(s, op)) && |Do(s, op).disk| == |s.disk|
  {
    var s' := Do(s, op);
    if op.ReadOp? && !Cached(s, op.n) {
      var m := |s.fills|;
      forall j | 0 <= j < |s'.fills| && |s'.fills| <= j + CacheSize
        ensures s'.cache[Slot(j)].valid && s'.cache[Slot(j)].sector == s'.fills[j]
      {
        if j < m { SlotSpread(j, m); }
      }
    }
  }

  // ---------------------------------------------------------------- every run

  function Start(disk: seq<Sector>, junk: Sector): Store {
    Store(disk, seq(CacheSize, _ => Entry(false, 0, junk)), 0, [])
  }

  predicate InRange(ops: seq<Op>, sectors: nat) {
    forall k :: 0 <= k < |ops| ==> ops[k].n < sectors
  }

  function After(s: Store, ops: seq<Op>): Store
    requires InFillOrder(s) && NoSectorTwice(s) && InRange(ops, |s.disk|)
    decreases |ops|
  {
    if ops == [] then s
    else
      DoKeepsOrder(s, ops[0]);
      After(Do(s, ops[0]), ops[1..])
  }

  // Started with every entry invalid, no run ever caches a sector twice, and
  // the entries are always the last four fills, each in its slot.
  lemma {:induction false} EvictionOrder(s: Store, ops: seq<Op>)
    requires InFillOrder(s) && NoSectorTwice(s) && InRange(ops, |s.disk|)
    ensures InFillOrder(After(s, ops)) && NoSectorTwice(After(s, ops)) && |After(s, ops).disk| == |s.disk|
    decreases |ops|
  {
    if ops != [] {
      DoKeepsOrder(s, ops[0]);
      EvictionOrder(Do(s, ops[0]), ops[1..]);
    }
  }

  // A fill evicts the sector filled four fills earlier, and no other.
  lemma EvictsOldest(s: Store, n: nat, m: nat)
    requires InFillOrder(s) && NoSectorTwice(s) && n < |s.disk| && !Cached(s, n)
    ensures Cached(Read(s, n), n)
    ensures m != n ==> (Cached(Read(s, n), m) <==>
              Cached(s, m) && !(|s.fills| >= CacheSize && m == s.fills[|s.fills| - CacheSize]))
  {
    var s' := Read(s, n);
    var len := |s.fills|;
    assert Matches(s'.cache[s.fifo], n);
    if m != n {
      if len >= CacheSize {
        assert Slot(len - CacheSize) == s.fifo;
        assert Matches(s.cache[s.fifo], s.fills[len - CacheSize]);
      }
      if Cached(s, m) {
        var k := Find(s, m).value;
        assert k != s.fifo ==> Matches(s'.cache[k], m);
      }
      if Cached(s', m) {
        var k := Find(s', m).value;
        assert Matches(s.cache[k], m);
      }
    }
  }

  // What reading returns, against what the disk holds.
  lemma CoherentIffReadsCurrent(s: Store)
    requires Shape(s) && NoSectorTwice(s)
    requires forall k :: 0 <= k < |s.cache| && s.cache[k].valid ==> s.cache[k].sector < |s.disk|
    ensures Coherent(s) <==> forall n :: 0 <= n < |s.disk| ==> ReadData(s, n) == s.disk[n]
  {
    if forall n :: 0 <= n < |s.disk| ==> ReadData(s, n) == s.disk[n] {
      forall k | 0 <= k < |s.cache| && s.cache[k].valid ensures s.cache[k].data == s.disk[s.cache[k].sector] {
        var n := s.cache[k].sector;
        assert Matches(s.cache[k], n);
        assert Find(s, n).value == k;
        assert ReadData(s, n) == s.disk[n];
      }
    }
  }

  // The exact condition under which one operation keeps reads current: it is
  // not a write that changes a sector the cache holds.
  lemma KeepsCoherentIff(s: Store, op: Op)
    requires InFillOrder(s) && NoSectorTwice(s) && Coherent(s) && op.n < |s.disk|
    ensures Coherent(Do(s, op)) <==> !(op.WriteOp? && Cached(s, op.n) && op.data != s.disk[op.n])
  {
    var s' := Do(s, op);
    if op.WriteOp? && Cached(s, op.n) {
      var k := Find(s, op.n).value;
      assert s'.cache[k].data == s.disk[op.n] && s'.disk[op.n] == op.data;
    } else if op.WriteOp? {
      forall k | 0 <= k < |s.cache| && s.cache[k].valid ensures s.cache[k].sector != op.n {
        assert !Matches(s.cache[k], op.n);
      }
    }
  }

  // No write of the run hits a sector cached at that moment.
  predicate WritesMissCache(s: Store, ops: seq<Op>)
    requires InFillOrder(s) && NoSectorTwice(s) && InRange(ops, |s.disk|)
    decreases |ops|
  {
    if ops == [] then true
    else
      DoKeepsOrder(s, ops[0]);
      && !(ops[0].WriteOp? && Cached(s, ops[0].n))
      && WritesMissCache(Do(s, ops[0]), ops[1..])
  }

  // On every run of that kind, reading any sector afterwards, cached or not,
  // returns what the disk holds at that moment.
  lemma {:induction false} ReadsCurrent(s: Store, ops: seq<Op>, n: nat)
    requires InFillOrder(s) && NoSectorTwice(s) && Coherent(s) && InRange(ops, |s.disk|)
    requires WritesMissCache(s, ops) && n < |s.disk|
    ensures var e := After(s, ops);
            Coherent(e) && Shape(e) && |e.disk| == |s.disk| && ReadData(e, n) == e.disk[n]
    decreases |ops|
  {
    if ops == [] {
      CoherentIffReadsCurrent(s);
    } else {
      DoKeepsOrder(s, ops[0]);
      KeepsCoherentIff(s, ops[0]);
      ReadsCurrent(Do(s, ops[0]), ops[1..], n);
    }
  }

  // The hypothesis is needed: read a sector, overwrite it, read it again.
  lemma StaleRead(disk: seq<Sector>, junk: Sector, n: nat, data: Sector)
    requires n < |disk| && data != disk[n]
    ensures var e := After(Start(disk, junk), [ReadOp(n), WriteOp(n, data)]);
            Shape(e) && |e.disk| == |disk| && e.disk[n] == data && ReadData(e, n) == disk[n]
  {
    var s0 := Start(disk, junk);
    var ops := [ReadOp(n), WriteOp(n, data)];
    EvictionOrder(s0, ops);
    var s1 := Do(s0, ops[0]);
    assert Find(s0, n).None?;
    assert Matches(s1.cache[0], n);
    DoKeepsOrder(s0, ops[0]);
    DoKeepsOrder(s1, ops[1]);
    var s2 := Do(s1, ops[1]);
    assert After(s2, ops[1..][1..]) == s2;
    assert After(s1, ops[1..]) == s2;
  }

  // ---------------------------------------------------------- how long a read is old

  // The entry of the j-th fill stays as it is until the fourth fill after it, whatever
  // is written in between.
  lemma {:induction false} EntryStays(s: Store, ops: seq<Op>, j: nat)
    requires InFillOrder(s) && NoSectorTwice(s) && InRange(ops, |s.disk|) && j < |s.fills|
    requires |After(s, ops).fills| <= j + CacheSize
    ensures Shape(After(s, ops)) && |s.fills| <= |After(s, ops).fills| && After(s, ops).cache[Slot(j)] == s.cache[Slot(j)]
    decreases |ops|
  {
    EvictionOrder(s, ops);
    if ops != [] {
      DoKeepsOrder(s, ops[0]);
      var s' := Do(s, ops[0]);
      EntryStays(s', ops[1..], j);
      if |s'.fills| > |s.fills| { SlotSpread(j, |s.fills|); }
    }
  }

  // So a sector is read back as it was when it was filled as long as at most three fills
  // have happened since; and as it is on the disk once it is not cached any more.
  lemma ReadBackAsFilled(s: Store, ops: seq<Op>, j: nat)
    requires InFillOrder(s) && NoSectorTwice(s) && InRange(ops, |s.disk|)
    requires j < |s.fills| <= j + CacheSize && s.fills[j] < |s.disk|
    ensures var e, n := After(s, ops), s.fills[j];
            && InFillOrder(e) && |e.disk| == |s.disk|
            && (|e.fills| <= j + CacheSize ==> ReadData(e, n) == s.cache[Slot(j)].data)
            && (!Cached(e, n) ==> ReadData(e, n) == e.disk[n])
  {
    EvictionOrder(s, ops);
    var e, n := After(s, ops), s.fills[j];
    if |e.fills| <= j + CacheSize {
      EntryStays(s, ops, j);
      assert Matches(e.cache[Slot(j)], n);
      var k := Find(e, n).value;
      assert k == Slot(j);
    }
  }

  // The accesses of FileSystem::Create for a direct file and a directory in sectors d0
  // and d1: fetch the directory and the free map (in sector m), write the header,
  // write the directory back (its last sector is read in first) and the free map.
  function CreateAccesses(d0: nat, d1: nat, m: nat, h: nat, header: Sector, dir0: Sector, dir1: Sector, map': Sector): seq<Op> {
    [ReadOp(d0), ReadOp(d1), ReadOp(m), WriteOp(h, header), ReadOp(d1), WriteOp(d0, dir0), WriteOp(d1, dir1), WriteOp(m, map')]
  }

  // One access adds at most one fill, and a write none.
  lemma {:induction false} FewFills(s: Store, ops: seq<Op>)
    requires InFillOrder(s) && NoSectorTwice(s) && InRange(ops, |s.disk|)
    ensures |s.fills| <= |After(s, ops).fills| <= |s.fills| + Misses(ops)
    decreases |ops|
  {
    if ops != [] {
      DoKeepsOrder(s, ops[0]);
      FewFills(Do(s, ops[0]), ops[1..]);
    }
  }

  // At most this many accesses miss.
  function Misses(ops: seq<Op>): nat
    decreases |ops|
  {
    if ops == [] then 0 else (if ops[0].ReadOp? then 1 else 0) + Misses(ops[1..])
  }

  // With the directory not cached before, a Find after the Create reads the directory as
  // it was before: the new name is not in it.
  lemma FindReadsOldDirectory(s: Store, d0: nat, d1: nat, m: nat, h: nat, header: Sector, dir0: Sector, dir1: Sector, map': Sector)
    requires InFillOrder(s) && NoSectorTwice(s) && d0 < |s.disk| && d1 < |s.disk| && m < |s.disk| && h < |s.disk|
    requires d0 != d1 && d0 != m && d0 != h && !Cached(s, d0)
    ensures var ops := CreateAccesses(d0, d1, m, h, header, dir0, dir1, map');
            && InRange(ops, |s.disk|)
            && var e := After(s, ops);
               Shape(e) && |e.disk| == |s.disk| && e.disk[d0] == dir0 && ReadData(e, d0) == s.disk[d0]
  {
    var ops := CreateAccesses(d0, d1, m, h, header, dir0, dir1, map');
    var s1 := Do(s, ops[0]);
    DoKeepsOrder(s, ops[0]);
    EvictionOrder(s, ops);
    FewFills(s1, ops[1..]);
    MissesOfCreate(d0, d1, m, h, header, dir0, dir1, map');
    ReadBackAsFilled(s1, ops[1..], |s.fills|);
    LastWriteStays(s, ops, 5);
    assert ops[5] == WriteOp(d0, dir0);
  }

  lemma MissesCons(op: Op, ops: seq<Op>)
    ensures Misses([op] + ops) == (if op.ReadOp? then 1 else 0) + Misses(ops)
  {
    assert ([op] + ops)[1..] == ops;
  }

  lemma MissesOfCreate(d0: nat, d1: nat, m: nat, h: nat, header: Sector, dir0: Sector, dir1: Sector, map': Sector)
    ensures Misses(CreateAccesses(d0, d1, m, h, header, dir0, dir1, map')[1..]) == 3
  {
    var writes := [WriteOp(d0, dir0)] + ([WriteOp(d1, dir1)] + ([WriteOp(m, map')] + []));
    MissesCons(WriteOp(m, map'), []);
    MissesCons(WriteOp(d1, dir1), [WriteOp(m, map')] + []);
    MissesCons(WriteOp(d0, dir0), [WriteOp(d1, dir1)] + ([WriteOp(m, map')] + []));
    MissesCons(ReadOp(d1), writes);
    MissesCons(WriteOp(h, header), [ReadOp(d1)] + writes);
    MissesCons(ReadOp(m), [WriteOp(h, header)] + ([ReadOp(d1)] + writes));
    MissesCons(ReadOp(d1), [ReadOp(m)] + ([WriteOp(h, header)] + ([ReadOp(d1)] + writes)));
    assert CreateAccesses(d0, d1, m, h, header, dir0, dir1, map')[1..]
           == [ReadOp(d1)] + ([ReadOp(m)] + ([WriteOp(h, header)] + ([ReadOp(d1)] + writes)));
  }

  // What the disk holds in a sector is what was written to it last.
  lemma {:induction false} LastWriteStays(s: Store, ops: seq<Op>, k: nat)
    requires InFillOrder(s) && NoSectorTwice(s) && InRange(ops, |s.disk|) && k < |ops| && ops[k].WriteOp?
    requires forall i :: k < i < |ops| && ops[i].WriteOp? ==> ops[i].n != ops[k].n
    ensures |After(s, ops).disk| == |s.disk| && After(s, ops).disk[ops[k].n] == ops[k].data
    decreases |ops|
  {
    DoKeepsOrder(s, ops[0]);
    EvictionOrder(s, ops);
    if k == 0 { UnwrittenStays(Do(s, ops[0]), ops[1..], ops[0].n); } else { LastWriteStays(Do(s, ops[0]), ops[1..], k - 1); }
  }

  lemma {:induction false} UnwrittenStays(s: Store, ops: seq<Op>, n: nat)
    requires InFillOrder(s) && NoSectorTwice(s) && InRange(ops, |s.disk|) && n < |s.disk|
    requires forall i :: 0 <= i < |ops| && ops[i].WriteOp? ==> ops[i].n != n
    ensures |After(s, ops).disk| == |s.disk| && After(s, ops).disk[n] == s.disk[n]
    decreases |ops|
  {
    EvictionOrder(s, ops);
    if ops != [] {
      DoKeepsOrder(s, ops[0]);
      UnwrittenStays(Do(s, ops[0]), ops[1..], n);
    }
  }

  // ------------------------------------------------------------- the object itself

  // SynchDisk's data: the cache, its pointer, and the disk behind it.  Waiting
  // for the device is the subject of module DiskRequests.
  class CachedDisk {
    var disk: seq<Sector>
    const cache: array<Entry>
    var fifo: nat
    ghost var fills: seq<nat>

    ghost function View(): Store
      reads this, cache
    {
      Store(disk, cache[..], fifo, fills)
    }

    ghost predicate Valid()
      reads this, cache
    {
      cache.Length == CacheSize && InFillOrder(View()) && NoSectorTwice(View())
    }

    constructor (contents: seq<Sector>, junk: Sector)
      ensures Valid() && fresh(cache) && View() == Start(contents, junk)
    {
      disk := contents;
      fifo := 0;
      fills := [];
      cache := new Entry[CacheSize](_ => Entry(false, 0, junk));
      new;
      assert cache[..] == seq(CacheSize, _ => Entry(false, 0, junk));
    }

    method ReadSector(n: nat) returns (data: Sector)
      requires Valid() && n < |disk|
      modifies this, cache
      ensures Valid() && View() == Read(old(View()), n) && data == ReadData(old(View()), n)
    {
      DoKeepsOrder(View(), ReadOp(n));
      ghost var was := cache[..];
      var find := -1;
      for i := 0 to CacheSize
        invariant find == -1 && cache[..] == was
        invariant Search(was, n, 0) == Search(was, n, i)
      {
        if cache[i].valid && cache[i].sector == n {
          find := i;
          break;
        }
      }
      assert Search(was, n, 0) == if find == -1 then None else Some(find);
      if find == -1 {
        data := disk[n];
        cache[fifo] := Entry(true, n, data);
        fifo := (fifo + 1) % CacheSize;
        fills := fills + [n];
        assert cache[..] == was[old(fifo) := Entry(true, n, data)];
      } else {
        data := cache[find].data;
      }
    }

    method WriteSector(n: nat, data: Sector)
      requires Valid() && n < |disk|
      modifies this
      ensures Valid() && View() == Write(old(View()), n, data)
    {
      disk := disk[n := data];
    }
  }
}

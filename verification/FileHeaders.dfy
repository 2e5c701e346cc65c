/**
  File headers: the table of sectors of a file, with a single index block for
  larger files.  The table has NumDirect slots; from NumDirect + 1 sectors on,
  the last slot is the sector of the index block, whose entries are written as
  ints and read back as one signed char each.
 */
module FileHeaders {
  import opened Common
  import opened BitMaps
  import opened Codec
  import opened Storage

  const NumDirect: nat := 26
  const IndexEntries: nat := 32
  const MaxSectors: nat := NumDirect - 1 + IndexEntries

  // A header as it is stored; the three timestamps in front of these fields are
  // not modelled and are laid out as zero.
  datatype Header = Header(hdrSector: Int32, numBytes: Int32, numSectors: Int32, data: seq<Int32>)

  predicate Shaped(h: Header) { |h.data| == NumDirect }

  function Encode(h: Header): Sector
    requires Shaped(h)
  {
    EncodeInts([0, 0, 0, h.hdrSector, h.numBytes, h.numSectors] + h.data)
  }

  function Decode(s: Sector): (h: Header)
    ensures Shaped(h)
  {
    var xs := DecodeInts(s);
    Header(xs[3], xs[4], xs[5], xs[6..])
  }

  // A header survives being written to its sector and fetched again.
  lemma HeaderRoundTrip(h: Header)
    requires Shaped(h)
    ensures Decode(Encode(h)) == h
  {
    IntsRoundTrip([0, 0, 0, h.hdrSector, h.numBytes, h.numSectors] + h.data);
  }

  // Where the fields lie: behind the timestamps the sector of the header, the length,
  // the number of sectors and the table, four bytes each.
  lemma HeaderLayout(h: Header, k: nat)
    requires Shaped(h) && k < NumDirect
    ensures var s := Encode(h);
            && s[12..16] == EncodeInt(h.hdrSector) && s[16..20] == EncodeInt(h.numBytes) && s[20..24] == EncodeInt(h.numSectors)
            && s[24 + 4 * k..28 + 4 * k] == EncodeInt(h.data[k])
  {
    var xs := [0, 0, 0, h.hdrSector, h.numBytes, h.numSectors] + h.data;
    IntAt(xs, 3);
    IntAt(xs, 4);
    IntAt(xs, 5);
    IntAt(xs, 6 + k);
  }

  // ------------------------------------------------------------------- the mapping

  predicate OnDisk(x: int) { 0 <= x < NumSectors }

  // Entry j of an index block, as it is read back.
  function IndexEntry(s: Sector, j: nat): int
    requires j < IndexEntries
  {
    SignedChar(s[4 * j])
  }

  // The sector that holds block k of the file.  When the index block would have to
  // be read from outside the disk, the disk's ASSERT stops the machine; -1, which
  // is not a sector either, stands for that.
  function BlockSector(h: Header, d: Image, k: nat): int
    requires Shaped(h) && k < MaxSectors
  {
    if k < NumDirect - 1 then h.data[k]
    else if OnDisk(h.data[NumDirect - 1]) then IndexEntry(d[h.data[NumDirect - 1]], k - (NumDirect - 1))
    else -1
  }

  // The header and the disk as Allocate leaves them when `blocks` are the
  // sectors it took for the data, in order.
  ghost predicate LaidOut(h: Header, d: Image, blocks: seq<int>) {
    && Shaped(h) && h.numSectors == |blocks| <= MaxSectors
    && (forall k :: 0 <= k < |blocks| ==> OnDisk(blocks[k]))
    && (if |blocks| <= NumDirect then h.data[..|blocks|] == blocks
        else
          && h.data[..NumDirect - 1] == blocks[..NumDirect - 1]
          && OnDisk(h.data[NumDirect - 1])
          && forall k :: NumDirect - 1 <= k < |blocks| ==> IndexHolds(d[h.data[NumDirect - 1]], k - (NumDirect - 1), blocks[k]))
  }

  // The index block holds the int x as its entry j.
  predicate IndexHolds(s: Sector, j: nat, x: int) {
    j < IndexEntries && s[4 * j..4 * j + 4] == if -0x8000_0000 <= x < 0x8000_0000 then EncodeInt(x) else []
  }

  // An entry is read back as written exactly when it fits in a signed char.
  lemma EntryReadBack(s: Sector, j: nat, x: int)
    requires OnDisk(x) && IndexHolds(s, j, x)
    ensures IndexEntry(s, j) == x <==> x < 128
  {
    assert s[4 * j] == s[4 * j..4 * j + 4][0] == IntByte(x, 0) == x % 256;
  }

  // Blocks that fit: below sector 128 wherever the index block is needed.
  predicate Readable(blocks: seq<int>) {
    |blocks| > NumDirect ==> forall k :: NumDirect - 1 <= k < |blocks| ==> blocks[k] < 128
  }

  // For every size but one, ByteToSector maps block k to the k-th allocated
  // sector, for all k, exactly when the indirect sectors lie below 128.
  lemma MappingAgreesIff(h: Header, d: Image, blocks: seq<int>)
    requires LaidOut(h, d, blocks) && |blocks| != NumDirect
    ensures (forall k :: 0 <= k < |blocks| ==> BlockSector(h, d, k) == blocks[k]) <==> Readable(blocks)
  {
    if |blocks| > NumDirect {
      forall k | NumDirect - 1 <= k < |blocks| ensures BlockSector(h, d, k) == blocks[k] <==> blocks[k] < 128 {
        EntryReadBack(d[h.data[NumDirect - 1]], k - (NumDirect - 1), blocks[k]);
      }
    }
    forall k | 0 <= k < |blocks| && k < NumDirect - 1 ensures BlockSector(h, d, k) == blocks[k] {
      assert |blocks| <= NumDirect ==> h.data[..|blocks|][k] == blocks[k];
      assert |blocks| > NumDirect ==> h.data[..NumDirect - 1][k] == blocks[k];
    }
  }

  // With exactly NumDirect sectors the last block is direct for Allocate and an
  // index block for ByteToSector: the file's own first byte in that block
  // decides where the block is looked for.
  lemma LastDirectIff(h: Header, d: Image, blocks: seq<int>, content: Sector)
    requires LaidOut(h, d, blocks) && |blocks| == NumDirect
    ensures BlockSector(h, d[blocks[NumDirect - 1] := content], NumDirect - 1) == blocks[NumDirect - 1]
            <==> SignedChar(content[0]) == blocks[NumDirect - 1]
  {
    assert h.data[..NumDirect][NumDirect - 1] == blocks[NumDirect - 1];
  }

  // ------------------------------------------------------------ taking sectors

  // `now` is `was` with the elements of s added; and the two sequences hold the
  // same elements.
  ghost predicate Adds(was: set<nat>, s: seq<int>, now: set<nat>) {
    forall x: nat :: x in now <==> x in was || x in s
  }

  ghost predicate SameElements(s: seq<int>, t: seq<int>) {
    forall x :: x in s <==> x in t
  }

  // The free sectors that an index entry can name.
  function LowFree(marked: set<nat>): set<nat> {
    set i: nat | i < 128 && i !in marked
  }

  lemma SubsetSize(x: set<nat>, y: set<nat>)
    requires x <= y
    ensures |x| <= |y| && (|x| == |y| ==> x == y)
  {
    assert y == x + (y - x);
  }

  // A bitmap has a clear bit exactly when fewer bits are marked than it has.
  lemma SomeClear(marked: set<nat>, n: nat)
    requires marked <= Run(0, n)
    ensures |marked| <= n
    ensures |marked| == n <==> forall i: nat :: i < n ==> i in marked
  {
    RunSize(0, n);
    SubsetSize(marked, Run(0, n));
    if forall i: nat :: i < n ==> i in marked { assert marked == Run(0, n); }
    if |marked| == n { assert forall i: nat :: i < n ==> i in Run(0, n); }
  }

  // `got` is what a number of calls of Find in a row return, from the marks
  // `was` to the marks `now`: fresh sectors as long as there are any, then -1;
  ghost predicate TakenSectors(was: set<nat>, got: seq<int>) {
    forall k :: 0 <= k < |got| ==> if k < NumSectors - |was| then OnDisk(got[k]) && got[k] !in was else got[k] == -1
  }

  // exactly these sectors are marked, each once;
  ghost predicate TakenMarks(was: set<nat>, got: seq<int>, now: set<nat>) {
    if |got| <= NumSectors - |was| then NoDup(got) && Adds(was, got, now) && |now| == |was| + |got|
    else |now| == NumSectors
  }

  // and low sectors come first.
  ghost predicate TakenLow(was: set<nat>, got: seq<int>, now: set<nat>) {
    |got| <= NumSectors - |was| && |got| <= |LowFree(was)| ==>
      (forall k :: 0 <= k < |got| ==> got[k] < 128) && |LowFree(now)| == |LowFree(was)| - |got|
  }

  // They come in increasing order, and nothing below one of them stays free.
  ghost predicate TakenInOrder(was: set<nat>, got: seq<int>, now: set<nat>) {
    |got| <= NumSectors - |was| ==>
      && (forall j, k :: 0 <= j < k < |got| ==> got[j] < got[k])
      && (forall k, i: nat :: 0 <= k < |got| && i < got[k] ==> i in now)
  }

  ghost predicate Taken(was: set<nat>, got: seq<int>, now: set<nat>) {
    && now <= Run(0, NumSectors) && |was| <= NumSectors
    && TakenSectors(was, got) && TakenMarks(was, got, now) && TakenLow(was, got, now) && TakenInOrder(was, got, now)
  }

  // What a call of Find does.
  ghost predicate Finds(marked: set<nat>, r: int, marked': set<nat>) {
    && (r == -1 <==> forall i: nat :: i < NumSectors ==> i in marked)
    && (r == -1 ==> marked' == marked)
    && (r != -1 ==> OnDisk(r) && r !in marked && marked' == marked + {r} && forall i: nat :: i < r ==> i in marked)
  }

  lemma FindsSize(marked: set<nat>, r: int, marked': set<nat>)
    requires marked <= Run(0, NumSectors) && Finds(marked, r, marked')
    ensures marked' <= Run(0, NumSectors)
    ensures |marked'| == |marked| + if r == -1 then 0 else 1
    ensures r == -1 <==> |marked| == NumSectors
    ensures r != -1 && LowFree(marked) != {} ==> r < 128 && |LowFree(marked')| == |LowFree(marked)| - 1
  {
    SomeClear(marked, NumSectors);
    if r != -1 && LowFree(marked) != {} {
      var i :| i in LowFree(marked);
      assert r <= i;
      assert LowFree(marked') == LowFree(marked) - {r};
    }
  }

  lemma TakenMarksSnoc(was: set<nat>, got: seq<int>, now: set<nat>, r: int, now': set<nat>)
    requires Taken(was, got, now) && Finds(now, r, now')
    ensures TakenMarks(was, got + [r], now')
  {
    FindsSize(now, r, now');
    if |got| < NumSectors - |was| {
      forall k | 0 <= k < |got| ensures got[k] != r { assert got[k] in got; }
    }
  }

  // The next sector found lies above those found before.
  lemma TakenOrderSnoc(was: set<nat>, got: seq<int>, now: set<nat>, r: int, now': set<nat>)
    requires Taken(was, got, now) && Finds(now, r, now')
    ensures TakenInOrder(was, got + [r], now')
  {
    FindsSize(now, r, now');
    if |got| < NumSectors - |was| {
      forall k | 0 <= k < |got| ensures got[k] < r { assert got[k] in got; }
    }
  }

  lemma TakenSnoc(was: set<nat>, got: seq<int>, now: set<nat>, r: int, now': set<nat>)
    requires Taken(was, got, now) && Finds(now, r, now')
    ensures Taken(was, got + [r], now')
  {
    FindsSize(now, r, now');
    TakenMarksSnoc(was, got, now, r, now');
    TakenOrderSnoc(was, got, now, r, now');
    assert TakenSectors(was, got + [r]) by {
      assert |got| < NumSectors - |was| ==> |now| < NumSectors;
      assert |got| >= NumSectors - |was| ==> |now| == NumSectors;
    }
    assert TakenLow(was, got + [r], now');
  }

  method FindSector(freeMap: BitMap) returns (r: Int32)
    requires freeMap.Valid() && freeMap.numBits == NumSectors
    modifies freeMap.words
    ensures Finds(old(freeMap.Marked()), r, freeMap.Marked())
  {
    r := freeMap.Find();
  }

  // Find on a map with a free sector.
  method FindFree(freeMap: BitMap) returns (r: Int32)
    requires freeMap.Valid() && freeMap.numBits == NumSectors && |freeMap.Marked()| < NumSectors
    modifies freeMap.words
    ensures Finds(old(freeMap.Marked()), r, freeMap.Marked()) && r != -1
  {
    SomeClear(freeMap.Marked(), NumSectors);
    r := freeMap.Find();
  }

  lemma TakenNone(was: set<nat>)
    requires was <= Run(0, NumSectors)
    ensures Taken(was, [], was)
  {
    SomeClear(was, NumSectors);
  }

  // A number of calls of Find in a row.
  method TakeSectors(freeMap: BitMap, count: nat) returns (got: seq<Int32>)
    requires freeMap.Valid() && freeMap.numBits == NumSectors
    modifies freeMap.words
    ensures |got| == count && Taken(old(freeMap.Marked()), got, freeMap.Marked())
  {
    got := [];
    ghost var was := freeMap.Marked();
    TakenNone(was);
    for i := 0 to count
      invariant |got| == i && Taken(was, got, freeMap.Marked())
    {
      ghost var now := freeMap.Marked();
      var r := FindSector(freeMap);
      TakenSnoc(was, got, now, r, freeMap.Marked());
      got := got + [r];
    }
  }

  // ------------------------------------------------------------- what a file owns

  function SectorsFor(bytes: nat): nat { DivRoundUp(bytes, SectorSize) }

  // The bytes fit into so many sectors, and not into fewer.
  lemma FewestSectors(bytes: nat, n: nat)
    ensures bytes <= n * SectorSize <==> SectorsFor(bytes) <= n
  {
  }

  // The first n entries of an index block, as they are read back.
  function Entries(s: Sector, n: nat): (r: seq<int>)
    requires n <= IndexEntries
    ensures |r| == n && forall j :: 0 <= j < n ==> r[j] == IndexEntry(s, j)
  {
    seq(n, j requires 0 <= j < n => IndexEntry(s, j))
  }

  // The sectors that Deallocate gives back: the table, and beyond NumDirect
  // sectors also the entries of the index block.
  function Owned(h: Header, d: Image): seq<int>
    requires Sound(h)
  {
    if h.numSectors <= NumDirect then h.data[..h.numSectors]
    else Entries(d[h.data[NumDirect - 1]], h.numSectors - (NumDirect - 1)) + h.data
  }

  predicate Sound(h: Header) {
    Shaped(h) && 0 <= h.numSectors <= MaxSectors && (h.numSectors > NumDirect ==> OnDisk(h.data[NumDirect - 1]))
  }

  // All that Allocate takes: the blocks, and the index block if there is one.
  function Claims(h: Header, blocks: seq<int>): seq<int>
    requires Shaped(h)
  {
    if |blocks| <= NumDirect then blocks else blocks + [h.data[NumDirect - 1]]
  }

  // A successful Allocate: `blocks` were free, are laid out in the header and the
  // index block, and together with the index block are all that is newly marked.
  ghost predicate AllocatedAs(h: Header, d: Image, d': Image, was: set<nat>, now: set<nat>, blocks: seq<int>) {
    && LaidOut(h, d', blocks)
    && NoDup(Claims(h, blocks))
    && (forall k :: 0 <= k < |Claims(h, blocks)| ==> OnDisk(Claims(h, blocks)[k]) && Claims(h, blocks)[k] !in was)
    && Adds(was, Claims(h, blocks), now)
    && (if |blocks| <= NumDirect then d' == d else d' == d[h.data[NumDirect - 1] := d'[h.data[NumDirect - 1]]])
  }

  // What Deallocate gives back is what Allocate took, exactly when the index
  // entries are readable; so only then are the marks restored.
  lemma GivenBackIff(h: Header, d: Image, d': Image, was: set<nat>, now: set<nat>, blocks: seq<int>)
    requires AllocatedAs(h, d, d', was, now, blocks)
    ensures Sound(h)
    ensures (forall x: nat :: x in was <==> x in now && x !in Owned(h, d')) <==> Readable(blocks)
    ensures Readable(blocks) ==> SameElements(Owned(h, d'), Claims(h, blocks))
  {
    if |blocks| <= NumDirect {
      assert Owned(h, d') == blocks;
    } else {
      forall k | NumDirect - 1 <= k < |blocks| ensures IndexEntry(d'[h.data[NumDirect - 1]], k - (NumDirect - 1)) == blocks[k] <==> blocks[k] < 128 {
        EntryReadBack(d'[h.data[NumDirect - 1]], k - (NumDirect - 1), blocks[k]);
      }
      if Readable(blocks) {
        ReadableOwned(h, d', blocks);
      } else {
        var k :| NumDirect - 1 <= k < |blocks| && blocks[k] >= 128;
        UnreadableLost(h, d', blocks, k);
        assert blocks[k] == Claims(h, blocks)[k];
      }
    }
  }

  lemma ReadableOwned(h: Header, d: Image, blocks: seq<int>)
    requires LaidOut(h, d, blocks) && |blocks| > NumDirect
    requires forall k :: NumDirect - 1 <= k < |blocks| ==> IndexEntry(d[h.data[NumDirect - 1]], k - (NumDirect - 1)) == blocks[k]
    ensures SameElements(Owned(h, d), Claims(h, blocks))
  {
    var c := Claims(h, blocks);
    var n := |blocks| - (NumDirect - 1);
    assert h.data == blocks[..NumDirect - 1] + [h.data[NumDirect - 1]];
    assert Owned(h, d) == blocks[NumDirect - 1..] + h.data;
    assert blocks == blocks[..NumDirect - 1] + blocks[NumDirect - 1..];
  }

  // A block at sector 128 or above is not among the sectors given back.
  lemma UnreadableLost(h: Header, d: Image, blocks: seq<int>, k: nat)
    requires LaidOut(h, d, blocks) && |blocks| > NumDirect && NoDup(Claims(h, blocks))
    requires NumDirect - 1 <= k < |blocks| && blocks[k] >= 128
    ensures blocks[k] !in Owned(h, d)
  {
    assert blocks[k] !in Entries(d[h.data[NumDirect - 1]], |blocks| - (NumDirect - 1));
    var c := Claims(h, blocks);
    forall i | 0 <= i < NumDirect ensures h.data[i] != blocks[k] {
      assert h.data[i] == if i < NumDirect - 1 then c[i] else c[|blocks|];
      assert i < NumDirect - 1 ==> h.data[..NumDirect - 1][i] == blocks[i];
      assert blocks[k] == c[k];
    }
  }

  // No run of free sectors of that size.
  ghost predicate NoRun(marked: set<nat>, size: nat) {
    forall i: nat :: i + size <= NumSectors ==> !FreeRun(marked, i, size)
  }

  // The blocks are the first run of free sectors of their size.
  ghost predicate FirstRun(marked: set<nat>, blocks: seq<int>) {
    forall k :: 0 <= k < |blocks| ==>
      blocks[k] == blocks[0] + k && blocks[0] >= 0 && forall i: nat :: i < blocks[0] ==> !FreeRun(marked, i, |blocks|)
  }

  // FirstFind on the free map.  It never reports that there is no run: with
  // enough free sectors it finds one or stops in Test's ASSERT, so Allocate's
  // search sector by sector is never reached.
  method FindRun(freeMap: BitMap, size: nat) returns (r: Option<nat>)
    requires freeMap.Valid() && freeMap.numBits == NumSectors && size <= NumSectors - |freeMap.Marked()|
    modifies freeMap.words
    ensures r == None <==> NoRun(old(freeMap.Marked()), size)
    ensures r == None ==> freeMap.Marked() == old(freeMap.Marked())
    ensures r.Some? ==> && r.value + size <= NumSectors && FreeRun(old(freeMap.Marked()), r.value, size)
                        && (forall i: nat :: i < r.value ==> !FreeRun(old(freeMap.Marked()), i, size))
                        && freeMap.Marked() == old(freeMap.Marked()) + Run(r.value, size)
  {
    ghost var was := freeMap.Marked();
    SmallRuns(was);
    var s := freeMap.FirstFind(size);
    match s
    case At(start) => r := Some(start);
    case Aborted => r := None;
    case NotFound => assert false;
  }

  lemma SmallRuns(marked: set<nat>)
    requires marked <= Run(0, NumSectors)
    ensures FreeRun(marked, 0, 0)
    ensures |marked| < NumSectors ==> exists i: nat :: i < NumSectors && FreeRun(marked, i, 1)
  {
    SomeClear(marked, NumSectors);
    if |marked| < NumSectors {
      var i: nat :| i < NumSectors && i !in marked;
      assert FreeRun(marked, i, 1);
    }
  }

  lemma RunAllocated(h: Header, d: Image, was: set<nat>, start: nat, blocks: seq<int>)
    requires Shaped(h) && 0 <= h.numSectors <= NumDirect && blocks == seq(h.numSectors, i => start + i)
    requires forall k :: 0 <= k < h.numSectors ==> h.data[k] == start + k
    requires start + h.numSectors <= NumSectors && FreeRun(was, start, h.numSectors)
    requires forall i: nat :: i < start ==> !FreeRun(was, i, h.numSectors)
    ensures AllocatedAs(h, d, d, was, was + Run(start, h.numSectors), blocks) && FirstRun(was, blocks)
  {
    assert h.data[..h.numSectors] == blocks;
    forall x: nat ensures x in blocks <==> x in Run(start, h.numSectors) {
      if x in Run(start, h.numSectors) { assert blocks[x - start] == x; }
    }
  }

  lemma TakenConcat(was: set<nat>, a: seq<int>, mid: set<nat>, b: seq<int>, now: set<nat>)
    requires Taken(was, a, mid) && Taken(mid, b, now) && |a| <= NumSectors - |was|
    ensures Taken(was, a + b, now)
  {
    assert TakenSectors(was, a + b) by {
      forall k | 0 <= k < |a + b|
        ensures if k < NumSectors - |was| then OnDisk((a + b)[k]) && (a + b)[k] !in was else (a + b)[k] == -1
      {
        if k >= |a| { assert (a + b)[k] == b[k - |a|]; }
      }
    }
    if |a + b| <= NumSectors - |was| {
      NoDupConcat(a, b);
    }
    TakenOrderConcat(was, a, mid, b, now);
  }

  lemma TakenOrderConcat(was: set<nat>, a: seq<int>, mid: set<nat>, b: seq<int>, now: set<nat>)
    requires Taken(was, a, mid) && Taken(mid, b, now) && |a| <= NumSectors - |was|
    ensures TakenInOrder(was, a + b, now)
  {
    if |a + b| <= NumSectors - |was| {
      var c := a + b;
      forall j, k | 0 <= j < k < |c| ensures c[j] < c[k] {
        if j < |a| <= k {
          assert c[k] == b[k - |a|] && b[k - |a|] !in mid;
          assert a[j] in a && a[j] in mid;
        }
      }
      forall k, i: nat | 0 <= k < |c| && i < c[k] ensures i in now {
        assert c[k] == if k < |a| then a[k] else b[k - |a|];
      }
    }
  }

  // More sectors than there are free ones below 128: the last one is not below.
  lemma LastIsHigh(was: set<nat>, got: seq<int>, now: set<nat>)
    requires Taken(was, got, now) && |LowFree(was)| < |got| <= NumSectors - |was|
    ensures got[|got| - 1] >= 128
  {
    if got[|got| - 1] < 128 {
      forall k | 0 <= k < |got| ensures got[k] in LowFree(was) { }
      DistinctWithin(got, LowFree(was));
    }
  }

  lemma {:induction false} DistinctWithin(s: seq<int>, x: set<nat>)
    requires NoDup(s) && forall k :: 0 <= k < |s| ==> s[k] in x
    ensures |s| <= |x|
    decreases |s|
  {
    if s != [] {
      var last := s[|s| - 1];
      DistinctWithin(s[..|s| - 1], x - {last});
      assert |x - {last}| == |x| - 1;
    }
  }

  lemma NoDupConcat(a: seq<int>, b: seq<int>)
    requires NoDup(a) && NoDup(b) && forall k :: 0 <= k < |b| ==> b[k] !in a
    ensures NoDup(a + b)
  {
    forall i, j | 0 <= i < j < |a + b| ensures (a + b)[i] != (a + b)[j] {
      if i < |a| <= j { assert a[i] in a; }
    }
  }

  // The sectors as they are taken, in the order in which they are claimed.
  lemma MiddleLast(a: seq<int>, x: int, b: seq<int>)
    requires NoDup(a + [x] + b)
    ensures NoDup(a + b + [x]) && SameElements(a + b + [x], a + [x] + b)
  {
    var s, t := a + [x] + b, a + b + [x];
    forall i, j | 0 <= i < j < |t| ensures t[i] != t[j] {
      assert t[i] == s[if i < |a| then i else i + 1];
      assert t[j] == if j < |a| then s[j] else if j < |a| + |b| then s[j + 1] else s[|a|];
    }
  }

  // What the indirect Allocate leaves: the header's table and the index block
  // lay out the blocks,
  lemma IndirectLaidOut(h: Header, d: Image, index: seq<Int32>, direct: seq<int>, idx: int, second: seq<int>)
    requires Shaped(h) && |direct| == NumDirect - 1 && |index| == IndexEntries && |second| <= IndexEntries && second == index[..|second|]
    requires h.numSectors == |direct| + |second| && NumDirect < h.numSectors
    requires h.data == direct + [idx] && OnDisk(idx)
    requires forall k :: 0 <= k < |direct + second| ==> OnDisk((direct + second)[k])
    ensures LaidOut(h, d[idx := EncodeInts(index)], direct + second)
  {
    var blocks := direct + second;
    var d' := d[idx := EncodeInts(index)];
    forall k | NumDirect - 1 <= k < |blocks| ensures IndexHolds(d'[idx], k - (NumDirect - 1), blocks[k]) {
      IntAt(index, k - (NumDirect - 1));
      assert blocks[k] == second[k - (NumDirect - 1)] == index[k - (NumDirect - 1)];
    }
    assert h.data[..NumDirect - 1] == blocks[..NumDirect - 1];
  }

  // and they are the sectors taken.
  lemma IndirectClaims(direct: seq<int>, idx: int, second: seq<int>, was: set<nat>, now: set<nat>)
    requires Taken(was, direct + [idx] + second, now) && |direct| + 1 + |second| <= NumSectors - |was|
    ensures NoDup(direct + second + [idx]) && Adds(was, direct + second + [idx], now)
    ensures forall k :: 0 <= k < |direct + second + [idx]| ==> OnDisk((direct + second + [idx])[k]) && (direct + second + [idx])[k] !in was
    ensures |direct| + 1 + |second| <= |LowFree(was)| ==> forall k :: 0 <= k < |direct + second| ==> (direct + second)[k] < 128
    ensures second != [] && |direct| + 1 + |second| > |LowFree(was)| ==> second[|second| - 1] >= 128
  {
    if second != [] && |direct| + 1 + |second| > |LowFree(was)| { LastIsHigh(was, direct + [idx] + second, now); }
    var got, claims := direct + [idx] + second, direct + second + [idx];
    MiddleLast(direct, idx, second);
    forall k | 0 <= k < |claims|
      ensures OnDisk(claims[k]) && claims[k] !in was && (|got| <= |LowFree(was)| ==> claims[k] < 128)
    {
      ClaimIsGot(direct, idx, second, k);
    }
    forall k | 0 <= k < |direct + second| ensures (direct + second)[k] == claims[k] {}
  }

  lemma IndirectAllocated(h: Header, d: Image, index: seq<Int32>, direct: seq<int>, idx: int, second: seq<int>, was: set<nat>, now: set<nat>)
    requires Shaped(h) && |direct| == NumDirect - 1 && |index| == IndexEntries && |second| <= IndexEntries && second == index[..|second|]
    requires h.numSectors == |direct| + |second| && NumDirect < h.numSectors
    requires h.data == direct + [idx] && OnDisk(idx)
    requires Taken(was, direct + [idx] + second, now) && h.numSectors + 1 <= NumSectors - |was|
    ensures AllocatedAs(h, d, d[idx := EncodeInts(index)], was, now, direct + second)
    ensures Readable(direct + second) <==> h.numSectors < |LowFree(was)|
  {
    var blocks := direct + second;
    assert blocks + [idx] == Claims(h, blocks);
    IndirectClaims(direct, idx, second, was, now);
    assert blocks[|blocks| - 1] == second[|second| - 1];
    assert forall k :: 0 <= k < |blocks| ==> OnDisk(blocks[k]) by {
      forall k | 0 <= k < |blocks| ensures OnDisk(blocks[k]) { assert blocks[k] == (blocks + [idx])[k]; }
    }
    assert LaidOut(h, d[idx := EncodeInts(index)], blocks) by { IndirectLaidOut(h, d, index, direct, idx, second); }
  }

  // The calls of Find for an indirect file of n sectors.
  method TakeIndirect(freeMap: BitMap, n: nat) returns (direct: seq<Int32>, idx: Int32, second: seq<Int32>)
    requires freeMap.Valid() && freeMap.numBits == NumSectors
    requires NumDirect < n <= MaxSectors && n <= NumSectors - |freeMap.Marked()|
    modifies freeMap.words
    ensures |direct| == NumDirect - 1 && |second| == n - NumDirect + 1 && OnDisk(idx) && idx !in old(freeMap.Marked())
    ensures Taken(old(freeMap.Marked()), direct + [idx] + second, freeMap.Marked())
    ensures n == NumSectors - |old(freeMap.Marked())| ==> second[|second| - 1] == -1
  {
    ghost var was := freeMap.Marked();
    direct := TakeSectors(freeMap, NumDirect - 1);
    ghost var m1 := freeMap.Marked();
    idx := FindSector(freeMap);
    ghost var m2 := freeMap.Marked();
    second := TakeSectors(freeMap, n - NumDirect + 1);
    IndirectTaken(was, direct, m1, idx, m2, second, freeMap.Marked());
  }

  lemma IndirectTaken(was: set<nat>, direct: seq<int>, m1: set<nat>, idx: int, m2: set<nat>, second: seq<int>, now: set<nat>)
    requires Taken(was, direct, m1) && Finds(m1, idx, m2) && Taken(m2, second, now)
    requires second != [] && |direct| + |second| <= NumSectors - |was|
    ensures OnDisk(idx) && idx !in was && Taken(was, direct + [idx] + second, now)
    ensures |direct| + |second| == NumSectors - |was| ==> second[|second| - 1] == -1
  {
    TakenSnoc(was, direct, m1, idx, m2);
    var table := direct + [idx];
    assert table[|direct|] == idx;
    assert Taken(was, table + second, now) by { TakenConcat(was, table, m2, second, now); }
    assert (table + second)[|direct| + |second|] == second[|second| - 1];
  }

  // An indirect file that uses up the last free sector: its index block is on a fresh
  // sector, and its last block is nowhere.
  predicate LosesLast(h: Header, d: Image, was: set<nat>) {
    && Shaped(h) && NumDirect < h.numSectors <= MaxSectors
    && OnDisk(h.data[NumDirect - 1]) && h.data[NumDirect - 1] !in was
    && BlockSector(h, d, h.numSectors - 1) == -1
  }

  // An entry of -1 is read back as -1.
  lemma LastLost(index: seq<Int32>, j: nat, x: int)
    requires |index| == IndexEntries && j < IndexEntries && index[j] == x == -1
    ensures IndexEntry(EncodeInts(index), j) == -1
  {
    IntAt(index, j);
    assert EncodeInts(index)[4 * j] == EncodeInts(index)[4 * j..4 * j + 4][0] == IntByte(-1, 0);
  }

  lemma ClaimIsGot(direct: seq<int>, idx: int, second: seq<int>, k: nat)
    requires k < |direct + second + [idx]|
    ensures var got := direct + [idx] + second;
            (direct + second + [idx])[k] == got[if k < |direct| then k else if k < |direct| + |second| then k + 1 else |direct|]
  {
  }

  // --------------------------------------------------------- giving sectors back

  // Sectors of the disk, each once, all of them marked.
  ghost predicate Clearable(sectors: seq<int>, marked: set<nat>) {
    NoDup(sectors) && forall k :: 0 <= k < |sectors| ==> OnDisk(sectors[k]) && sectors[k] in marked
  }

  ghost predicate Removes(was: set<nat>, s: seq<int>, now: set<nat>) {
    forall x: nat :: x in now <==> x in was && x !in s
  }

  // What Deallocate relies on.
  ghost predicate GivesBack(h: Header, d: Image, marked: set<nat>)
    requires Sound(h)
  {
    Clearable(Owned(h, d), marked)
  }

  lemma RemovesParts(was: set<nat>, a: seq<int>, mid: set<nat>, b: seq<int>, now: set<nat>)
    requires Removes(was, a, mid) && Removes(mid, b, now)
    ensures Removes(was, a + b, now)
  {
  }

  // Deallocate undoes Allocate: what it gives back is marked, each sector once,
  // and without it the marks are those before Allocate.
  lemma AllocatedGivesBack(h: Header, d: Image, d': Image, was: set<nat>, now: set<nat>, blocks: seq<int>)
    requires AllocatedAs(h, d, d', was, now, blocks) && Readable(blocks)
    ensures Sound(h) && GivesBack(h, d', now)
    ensures forall after: set<nat> :: Removes(now, Owned(h, d'), after) ==> after == was
  {
    GivenBackIff(h, d, d', was, now, blocks);
    var o, c := Owned(h, d'), Claims(h, blocks);
    forall k | 0 <= k < |o| ensures OnDisk(o[k]) && o[k] in now {
      assert o[k] in c;
      var i :| 0 <= i < |c| && c[i] == o[k];
    }
    OwnedNoDup(h, d', blocks);
    forall after: set<nat> | Removes(now, o, after) ensures after == was {
      assert forall x: nat :: x in after <==> x in was;
    }
  }

  lemma OwnedNoDup(h: Header, d: Image, blocks: seq<int>)
    requires LaidOut(h, d, blocks) && NoDup(Claims(h, blocks)) && Readable(blocks)
    ensures Sound(h) && NoDup(Owned(h, d))
  {
    if |blocks| > NumDirect {
      var o, c := Owned(h, d), Claims(h, blocks);
      var n := |blocks| - (NumDirect - 1);
      forall k | 0 <= k < |o| ensures o[k] == c[if k < n then NumDirect - 1 + k else if k < n + NumDirect - 1 then k - n else |blocks|] {
        if k < n {
          EntryReadBack(d[h.data[NumDirect - 1]], k, blocks[NumDirect - 1 + k]);
        } else if k < n + NumDirect - 1 {
          assert o[k] == h.data[k - n] == h.data[..NumDirect - 1][k - n];
        }
      }
    }
  }

  ghost predicate AllOnDisk(sectors: seq<int>) {
    forall k :: 0 <= k < |sectors| ==> OnDisk(sectors[k])
  }

  // Clear one sector after the other.  With `tested` each is ASSERTed to be marked;
  // the ASSERT of Clear is there in any case.
  method ClearAll(freeMap: BitMap, sectors: seq<int>, tested: bool) returns (aborted: bool)
    requires freeMap.Valid() && freeMap.numBits == NumSectors
    modifies freeMap.words
    ensures !aborted <==> if tested then Clearable(sectors, old(freeMap.Marked())) else AllOnDisk(sectors)
    ensures !aborted ==> Removes(old(freeMap.Marked()), sectors, freeMap.Marked())
  {
    ghost var was := freeMap.Marked();
    for i := 0 to |sectors|
      invariant Removes(was, sectors[..i], freeMap.Marked())
      invariant if tested then Clearable(sectors[..i], was) else AllOnDisk(sectors[..i])
    {
      var x := sectors[i];
      if x < 0 || x >= NumSectors { return true; }
      if tested {
        var marked := freeMap.Test(x);
        if !marked {
          assert x in was ==> x in sectors[..i];
          return true;
        }
      }
      freeMap.Clear(x);
      assert sectors[..i + 1] == sectors[..i] + [x];
    }
    assert sectors[..|sectors|] == sectors;
    return false;
  }

  method ClearBoth(freeMap: BitMap, entries: seq<int>, table: seq<int>) returns (aborted: bool)
    requires freeMap.Valid() && freeMap.numBits == NumSectors
    modifies freeMap.words
    ensures !aborted <==> AllOnDisk(entries + table)
    ensures !aborted ==> Removes(old(freeMap.Marked()), entries + table, freeMap.Marked())
  {
    ghost var was, all := freeMap.Marked(), entries + table;
    assert forall k :: 0 <= k < |entries| ==> entries[k] == all[k];
    assert forall k :: 0 <= k < |table| ==> table[k] == all[|entries| + k];
    aborted := ClearAll(freeMap, entries, false);
    if aborted { return; }
    ghost var mid := freeMap.Marked();
    aborted := ClearAll(freeMap, table, false);
    if !aborted { RemovesParts(was, entries, mid, table, freeMap.Marked()); }
  }

  // ------------------------------------------------------------------- growing

  // What ExtendFile can do: succeed, perhaps with one new sector; find too few
  // sectors; store past the end of the table; or, for a header with more sectors
  // than its length asks for, fall off the end of the function.
  datatype Extension = Extended(taken: int) | NoRoom | PastTable | FellOff

  function Grown(h: Header, newLength: nat, sector: Int32): Header
    requires Shaped(h) && 0 <= h.numSectors < NumDirect && newLength < 0x8000_0000
  {
    h.(numBytes := newLength, numSectors := SectorsFor(newLength), data := h.data[h.numSectors := sector])
  }

  lemma MoreBytesMoreSectors(a: nat, b: nat)
    requires a <= b
    ensures SectorsFor(a) <= SectorsFor(b)
  {
  }

  // A grown direct file owns its old sectors and the new one, each once, exactly
  // when it has grown by one sector: any further slots were never filled.
  lemma GrownOwnsIff(h: Header, newLength: nat, sector: Int32)
    requires Shaped(h) && newLength < 0x8000_0000 && 0 <= h.numSectors < SectorsFor(newLength) <= NumDirect
    requires NoDup(h.data[..h.numSectors]) && sector !in h.data[..h.numSectors]
    ensures var g := Grown(h, newLength, sector);
            (NoDup(g.data[..g.numSectors]) && SameElements(g.data[..g.numSectors], h.data[..h.numSectors] + [sector]))
            <==> g.numSectors == h.numSectors + 1
  {
    var g := Grown(h, newLength, sector);
    var before, after := h.data[..h.numSectors] + [sector], g.data[..g.numSectors];
    assert g.data[..h.numSectors + 1] == before;
    if g.numSectors > h.numSectors + 1 && NoDup(after) {
      var x := after[h.numSectors + 1];
      assert x in after;
      forall k | 0 <= k < |before| ensures before[k] != x { assert before[k] == after[k]; }
      assert x !in before;
    }
  }

  // --------------------------------------------------------------- the header object

  // Allocate answers TRUE or FALSE, or runs into the ASSERT of Test inside
  // FirstFind, or writes past the end of its index table.
  datatype Allocation = Allocated | NoSpace | Stopped | Overrun

  class FileHeader {
    var hdrSector: Int32
    var numBytes: Int32
    var numSectors: Int32
    var dataSectors: seq<Int32>

    ghost predicate Valid()
      reads this
    {
      |dataSectors| == NumDirect
    }

    ghost function View(): Header
      reads this
    {
      Header(hdrSector, numBytes, numSectors, dataSectors)
    }

    // A new header holds garbage.
    constructor ()
      ensures Valid()
    {
      hdrSector, numBytes, numSectors := *, *, *;
      assert |seq<Int32>(NumDirect, _ => 0)| == NumDirect;
      var garbage: seq<Int32> :| |garbage| == NumDirect;
      dataSectors := garbage;
    }

    method FetchFrom(disk: SectorDisk, sector: nat)
      requires sector < NumSectors
      modifies this
      ensures Valid() && View() == Decode(disk.image[sector])
    {
      var s := disk.ReadSector(sector);
      var xs := DecodeInts(s);
      hdrSector, numBytes, numSectors, dataSectors := xs[3], xs[4], xs[5], xs[6..];
    }

    method WriteBack(disk: SectorDisk, sector: nat)
      requires Valid() && sector < NumSectors
      modifies this`hdrSector, disk
      ensures hdrSector == sector && disk.image == old(disk.image)[sector := Encode(View())]
    {
      hdrSector := sector;
      disk.WriteSector(sector, EncodeInts([0, 0, 0, hdrSector, numBytes, numSectors] + dataSectors));
    }

    method ByteToSector(disk: SectorDisk, offset: nat) returns (s: int)
      requires Valid() && offset < MaxSectors * SectorSize
      ensures s == BlockSector(View(), disk.image, offset / SectorSize)
    {
      if offset < SectorSize * (NumDirect - 1) {
        s := dataSectors[offset / SectorSize];
      } else {
        var secondIndexPosition := (offset - SectorSize * (NumDirect - 1)) / SectorSize;
        if dataSectors[NumDirect - 1] < 0 || dataSectors[NumDirect - 1] >= NumSectors { return -1; }
        var secondIndex := disk.ReadSector(dataSectors[NumDirect - 1]);
        s := SignedChar(secondIndex[secondIndexPosition * 4]);
      }
    }

    method FillRun(start: nat)
      requires Valid() && 0 <= numSectors <= NumDirect && start + numSectors <= NumSectors
      modifies this`dataSectors
      ensures Valid() && forall k :: 0 <= k < numSectors ==> dataSectors[k] == start + k
    {
      for i := 0 to numSectors
        invariant Valid()
        invariant forall k :: 0 <= k < i ==> dataSectors[k] == start + k
      {
        dataSectors := dataSectors[i := start + i];
      }
    }

    // A file of at most NumDirect sectors gets the first free run.
    method AllocateDirect(freeMap: BitMap, disk: SectorDisk) returns (r: Allocation, ghost blocks: seq<int>)
      requires Valid() && freeMap.Valid() && freeMap.numBits == NumSectors
      requires 0 <= numSectors <= NumDirect && numSectors <= NumSectors - |freeMap.Marked()|
      modifies this`dataSectors, freeMap.words
      ensures Valid() && r in {Allocated, Stopped}
      ensures r.Stopped? <==> NoRun(old(freeMap.Marked()), numSectors)
      ensures r.Stopped? ==> freeMap.Marked() == old(freeMap.Marked())
      ensures r.Allocated? ==> AllocatedAs(View(), disk.image, disk.image, old(freeMap.Marked()), freeMap.Marked(), blocks)
      ensures r.Allocated? ==> FirstRun(old(freeMap.Marked()), blocks)
    {
      blocks := [];
      var freeSpace := FindRun(freeMap, numSectors);
      if freeSpace == None { return Stopped, []; }
      var start := freeSpace.value;
      FillRun(start);
      blocks := seq(numSectors, i => start + i);
      RunAllocated(View(), disk.image, old(freeMap.Marked()), start, blocks);
      r := Allocated;
    }

    // A larger file gets its sectors one by one, with an index block in between
    // that the check for free space has not counted.
    method AllocateIndirect(freeMap: BitMap, disk: SectorDisk) returns (ghost blocks: seq<int>)
      requires Valid() && freeMap.Valid() && freeMap.numBits == NumSectors
      requires NumDirect < numSectors <= MaxSectors && numSectors <= NumSectors - |freeMap.Marked()|
      modifies this`dataSectors, freeMap.words, disk
      ensures Valid()
      ensures numSectors < NumSectors - |old(freeMap.Marked())| ==>
                AllocatedAs(View(), old(disk.image), disk.image, old(freeMap.Marked()), freeMap.Marked(), blocks)
      ensures numSectors < NumSectors - |old(freeMap.Marked())| ==> (Readable(blocks) <==> numSectors < |LowFree(old(freeMap.Marked()))|)
      ensures numSectors == NumSectors - |old(freeMap.Marked())| ==> LosesLast(View(), disk.image, old(freeMap.Marked()))
    {
      ghost var was := freeMap.Marked();
      var direct, idx, second := TakeIndirect(freeMap, numSectors);
      dataSectors := direct + [idx];
      assert |seq<Int32>(IndexEntries - |second|, _ => 0)| == IndexEntries - |second|;
      var garbage: seq<Int32> :| |garbage| == IndexEntries - |second|;
      var secondIndex := second + garbage;
      disk.WriteSector(idx, EncodeInts(secondIndex));
      blocks := direct + second;
      assert secondIndex[..|second|] == second;
      if numSectors < NumSectors - |was| {
        IndirectAllocated(View(), old(disk.image), secondIndex, direct, idx, second, was, freeMap.Marked());
      } else {
        LastLost(secondIndex, |second| - 1, second[|second| - 1]);
      }
    }

    method Allocate(freeMap: BitMap, fileSize: nat, disk: SectorDisk) returns (r: Allocation, ghost blocks: seq<int>)
      requires Valid() && freeMap.Valid() && freeMap.numBits == NumSectors && fileSize < 0x8000_0000
      modifies this`numBytes, this`numSectors, this`dataSectors, freeMap.words, disk
      ensures Valid() && numBytes == fileSize && numSectors == SectorsFor(fileSize)
      ensures r.NoSpace? <==> NumSectors - |old(freeMap.Marked())| < numSectors
      ensures r.Stopped? <==> !r.NoSpace? && numSectors <= NumDirect && NoRun(old(freeMap.Marked()), numSectors)
      ensures r.Overrun? <==> !r.NoSpace? && numSectors > MaxSectors
      ensures !r.Allocated? ==> freeMap.Marked() == old(freeMap.Marked()) && disk.image == old(disk.image)
      ensures r.Allocated? && (numSectors <= NumDirect || numSectors < NumSectors - |old(freeMap.Marked())|) ==>
                AllocatedAs(View(), old(disk.image), disk.image, old(freeMap.Marked()), freeMap.Marked(), blocks)
      ensures r.Allocated? && numSectors <= NumDirect ==> FirstRun(old(freeMap.Marked()), blocks)
      ensures r.Allocated? && NumDirect < numSectors < NumSectors - |old(freeMap.Marked())| ==>
                (Readable(blocks) <==> numSectors < |LowFree(old(freeMap.Marked()))|)
      ensures r.Allocated? && numSectors > NumDirect && numSectors == NumSectors - |old(freeMap.Marked())| ==>
                LosesLast(View(), disk.image, old(freeMap.Marked()))
    {
      blocks := [];
      numBytes := fileSize;
      numSectors := SectorsFor(fileSize);
      var clear := freeMap.NumClear();
      if clear < numSectors { return NoSpace, []; }
      if numSectors <= NumDirect {
        r, blocks := AllocateDirect(freeMap, disk);
      } else if numSectors > MaxSectors {
        r := Overrun;
      } else {
        blocks := AllocateIndirect(freeMap, disk);
        r := Allocated;
      }
    }

    // Give back the sectors of the file; an ASSERT stops the machine when one of
    // them is not a sector, or a direct one is not marked.
    method Deallocate(freeMap: BitMap, disk: SectorDisk) returns (aborted: bool)
      requires Valid() && Sound(View()) && freeMap.Valid() && freeMap.numBits == NumSectors
      modifies freeMap.words
      ensures !aborted <==> if numSectors <= NumDirect then GivesBack(View(), disk.image, old(freeMap.Marked()))
                            else AllOnDisk(Owned(View(), disk.image))
      ensures !aborted ==> Removes(old(freeMap.Marked()), Owned(View(), disk.image), freeMap.Marked())
    {
      ghost var owned := Owned(View(), disk.image);
      if numSectors <= NumDirect {
        var direct := dataSectors[..numSectors];
        assert owned == direct;
        aborted := ClearAll(freeMap, direct, true);
      } else {
        var secondIndex := disk.ReadSector(dataSectors[NumDirect - 1]);
        var entries := Entries(secondIndex, numSectors - NumDirect + 1);
        assert owned == entries + dataSectors;
        aborted := ClearBoth(freeMap, entries, dataSectors);
      }
    }

    // Grow the file.  The loop over the new sectors returns in its first turn, so
    // one sector is taken however many are needed; beyond the table the store
    // goes past its end.
    method ExtendFile(freeMap: BitMap, bytes: nat) returns (r: Extension)
      requires Valid() && freeMap.Valid() && freeMap.numBits == NumSectors
      requires numBytes >= 0 && numSectors >= 0 && numBytes + bytes < 0x8000_0000
      modifies this`numBytes, this`numSectors, this`dataSectors, freeMap.words
      ensures Valid()
      ensures r.NoRoom? <==> NumSectors - |old(freeMap.Marked())| < SectorsFor(old(numBytes) + bytes) - old(numSectors)
      ensures r.FellOff? <==> SectorsFor(old(numBytes) + bytes) < old(numSectors)
      ensures r.PastTable? <==> !r.NoRoom? && SectorsFor(old(numBytes) + bytes) > old(numSectors) >= NumDirect
      ensures !r.Extended? ==> View() == old(View()) && freeMap.Marked() == old(freeMap.Marked())
      ensures r.Extended? && SectorsFor(old(numBytes) + bytes) == old(numSectors) ==>
                View() == old(View()).(numBytes := old(numBytes) + bytes) && freeMap.Marked() == old(freeMap.Marked())
      ensures r.Extended? && SectorsFor(old(numBytes) + bytes) > old(numSectors) ==>
                && Finds(old(freeMap.Marked()), r.taken, freeMap.Marked()) && r.taken != -1
                && View() == Grown(old(View()), old(numBytes) + bytes, r.taken)
    {
      var newFileLength := numBytes + bytes;
      var newNumSectors := SectorsFor(newFileLength);
      var clear := freeMap.NumClear();
      if newNumSectors == numSectors {
        numBytes := newFileLength;
        return Extended(-1);
      }
      if clear < newNumSectors - numSectors { return NoRoom; }
      if newNumSectors < numSectors { return FellOff; }
      if numSectors >= NumDirect { return PastTable; }
      var temp := FindFree(freeMap);
      ghost var grown := Grown(View(), newFileLength, temp);
      dataSectors := dataSectors[numSectors := temp];
      numBytes := newFileLength;
      numSectors := newNumSectors;
      assert View() == grown;
      return Extended(temp);
    }
  }
}

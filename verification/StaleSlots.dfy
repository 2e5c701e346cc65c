/**
  Writes that a file cannot grow for.  WriteAt does not look at what ExtendFile
  answers, and ExtendFile takes one sector where several are needed; either way the
  write goes on through slots of the table that were never filled.  For files that
  end within the direct slots, this module says exactly when that can happen and
  what it does to the disk.
 */
module StaleSlots {
  import opened Common
  import opened BitMaps
  import opened Codec
  import opened Storage
  import opened FileHeaders
  import opened OpenFiles

  // ------------------------------------------------ the sectors that a write reaches

  // Only the sectors in the slots of the write change.
  lemma {:induction false} WriteThroughElsewhere(h: Header, d: Image, k: nat, end: nat, first: nat, buf: seq<Byte>, x: nat)
    requires FileHeaders.Shaped(h) && first <= k <= end < NumDirect && |buf| == (end - first) * SectorSize && OnDisk(x)
    requires forall j :: k <= j < end ==> h.data[j] != x
    ensures WriteThrough(h, d, k, end, first, buf).image[x] == d[x]
    decreases end - k
  {
    if k < end && OnDisk(h.data[k]) {
      var d' := d[h.data[k] := buf[(k - first) * SectorSize..(k - first + 1) * SectorSize]];
      WriteThroughElsewhere(h, d', k + 1, end, first, buf, x);
    }
  }

  lemma TailElsewhere(h: Header, d: Image, from: seq<Byte>, position: nat, garbage: seq<Byte>, x: nat)
    requires TailStarts(h, |from|, position, garbage) && Last(position, |from|) < NumDirect - 1 && OnDisk(x)
    requires forall j :: First(position) <= j <= Last(position, |from|) ==> h.data[j] != x
    ensures Tail(h, d, from, position, garbage).image[x] == d[x]
  {
    FirstAndLast(position, |from|);
    WriteThroughElsewhere(h, d, First(position), Last(position, |from|) + 1, First(position), Prepared(Content(h, d), garbage, from, position), x);
  }

  // And the sector in the last one ends up with the end of the buffer.
  lemma {:induction false} WriteThroughLast(h: Header, d: Image, k: nat, end: nat, first: nat, buf: seq<Byte>)
    requires FileHeaders.Shaped(h) && first <= k < end < NumDirect && |buf| == (end - first) * SectorSize
    requires (forall j :: k <= j < end ==> OnDisk(h.data[j])) && OnDisk(h.data[end - 1])
    ensures var w := WriteThrough(h, d, k, end, first, buf);
            !w.stopped && w.image[h.data[end - 1]] == buf[(end - 1 - first) * SectorSize..(end - first) * SectorSize]
    decreases end - k
  {
    var d' := d[h.data[k] := buf[(k - first) * SectorSize..(k - first + 1) * SectorSize]];
    if k + 1 < end {
      WriteThroughLast(h, d', k + 1, end, first, buf);
    } else {
      assert WriteThrough(h, d', end, end, first, buf) == Written(d', false);
    }
  }

  // A read of one sector looks at one slot.
  lemma SectorLocated(h: Header, d: Image, k: nat)
    requires Sized(h) && k < NumDirect - 1 && OnDisk(h.data[k])
    ensures ReadLocated(h, d, SectorSize, k * SectorSize)
  {
    var n := |Slice(Content(h, d), SectorSize, k * SectorSize)|;
    if n > 0 { OneSector(k, n); }
  }

  lemma OneSector(k: nat, n: nat)
    requires 0 < n <= SectorSize
    ensures First(k * SectorSize) == k == Last(k * SectorSize, n)
  {
  }

  // The slots of a write are sectors.
  ghost predicate SlotsOnDisk(h: Header, position: nat, n: nat) {
    && FileHeaders.Shaped(h) && n > 0 && Last(position, n) < NumDirect - 1
    && (forall j :: First(position) <= j <= Last(position, n) ==> OnDisk(h.data[j]))
    && OnDisk(h.data[First(position)]) && OnDisk(h.data[Last(position, n)])
  }

  lemma TailIsWriteThrough(h: Header, d: Image, from: seq<Byte>, position: nat, garbage: seq<Byte>)
    requires TailStarts(h, |from|, position, garbage) && SlotsOnDisk(h, position, |from|)
    ensures var first := First(position);
            Tail(h, d, from, position, garbage) == WriteThrough(h, d, first, Last(position, |from|) + 1, first, Prepared(Content(h, d), garbage, from, position))
  {
    SectorLocated(h, d, First(position));
    SectorLocated(h, d, Last(position, |from|));
  }

  // The end of a buffer, as long as a sector.
  function EndOf(buf: seq<Byte>): (r: seq<Byte>)
    ensures |buf| >= SectorSize ==> |r| == SectorSize
  {
    if |buf| >= SectorSize then buf[|buf| - SectorSize..] else buf
  }

  // What writing through the slots first, ..., last needs to run to its end.
  ghost predicate RunsThrough(h: Header, first: nat, last: nat, buf: seq<Byte>) {
    && FileHeaders.Shaped(h) && first <= last < NumDirect - 1 && |buf| == (last + 1 - first) * SectorSize
    && (forall j :: first <= j <= last ==> OnDisk(h.data[j])) && OnDisk(h.data[last])
  }

  lemma TailRunsThrough(h: Header, d: Image, from: seq<Byte>, position: nat, garbage: seq<Byte>)
    requires TailStarts(h, |from|, position, garbage) && SlotsOnDisk(h, position, |from|)
    ensures RunsThrough(h, First(position), Last(position, |from|), Prepared(Content(h, d), garbage, from, position))
  {
    FirstAndLast(position, |from|);
  }

  // The call is not stopped, and the sector in its last slot holds the end of the buffer.
  ghost predicate EndsAs(w: Written, sector: int, end: seq<Byte>) {
    !w.stopped && OnDisk(sector) && w.image[sector] == end
  }

  lemma WriteThroughEnds(h: Header, d: Image, first: nat, last: nat, buf: seq<Byte>)
    requires RunsThrough(h, first, last, buf)
    ensures EndsAs(WriteThrough(h, d, first, last + 1, first, buf), h.data[last], EndOf(buf))
  {
    WriteThroughLast(h, d, first, last + 1, first, buf);
    EndOfBuffer(buf, first, last);
  }

  lemma TailLast(h: Header, d: Image, from: seq<Byte>, position: nat, garbage: seq<Byte>)
    requires TailStarts(h, |from|, position, garbage) && SlotsOnDisk(h, position, |from|)
    ensures EndsAs(Tail(h, d, from, position, garbage), h.data[Last(position, |from|)], EndOf(Prepared(Content(h, d), garbage, from, position)))
  {
    assert RunsThrough(h, First(position), Last(position, |from|), Prepared(Content(h, d), garbage, from, position)) by {
      TailRunsThrough(h, d, from, position, garbage);
    }
    var w := WriteThrough(h, d, First(position), Last(position, |from|) + 1, First(position), Prepared(Content(h, d), garbage, from, position));
    assert EndsAs(w, h.data[Last(position, |from|)], EndOf(Prepared(Content(h, d), garbage, from, position))) by {
      WriteThroughEnds(h, d, First(position), Last(position, |from|), Prepared(Content(h, d), garbage, from, position));
    }
    assert Tail(h, d, from, position, garbage) == w by { TailIsWriteThrough(h, d, from, position, garbage); }
  }

  lemma EndOfBuffer(buf: seq<Byte>, first: nat, last: nat)
    requires first <= last && |buf| == (last + 1 - first) * SectorSize
    ensures buf[(last - first) * SectorSize..(last + 1 - first) * SectorSize] == EndOf(buf)
  {
  }

  // Where the last byte of a write lands in its sector.
  function LastOffset(position: nat, n: nat): (at: nat)
    requires n > 0
    ensures at < SectorSize
  {
    (position + n - 1) % SectorSize
  }

  lemma LastByteInBuffer(h: Header, d: Image, from: seq<Byte>, position: nat, garbage: seq<Byte>)
    requires TailStarts(h, |from|, position, garbage)
    ensures |garbage| >= SectorSize && EndOf(Prepared(Content(h, d), garbage, from, position))[LastOffset(position, |from|)] == from[|from| - 1]
  {
    FirstAndLast(position, |from|);
    OffsetInBuffer(position, |from|, First(position), Last(position, |from|));
    OverlayEnd(LastRead(Content(h, d), garbage, position, |from|), position - First(position) * SectorSize, from, LastOffset(position, |from|));
  }

  lemma OverlayEnd(b: seq<Byte>, at: nat, from: seq<Byte>, offset: nat)
    requires from != [] && at + |from| <= |b| && |b| >= SectorSize && offset < SectorSize && |b| - SectorSize + offset == at + |from| - 1
    ensures EndOf(Overlay(b, at, from))[offset] == from[|from| - 1]
  {
  }

  lemma OffsetInBuffer(position: nat, n: nat, first: nat, last: nat)
    requires n > 0 && first == First(position) && last == Last(position, n)
    ensures (last + 1 - first) * SectorSize - SectorSize + LastOffset(position, n) == position + n - 1 - first * SectorSize
  {
  }

  // --------------------------------------------------------------- the exact condition

  // The file with anything at all in the slots beyond its sectors.
  ghost predicate SameFile(h: Header, g: Header) {
    && FileHeaders.Shaped(h) && FileHeaders.Shaped(g) && 0 <= h.numSectors < NumDirect
    && g == h.(data := g.data) && g.data[..h.numSectors] == h.data[..h.numSectors]
  }

  // Every sector is as it was, apart from those of the file, its header, the free map
  // and the sector that was taken.
  ghost predicate Unharmed(h: Header, d: Image, mid: Image, d': Image) {
    && FileHeaders.Shaped(h) && 0 <= h.numSectors < NumDirect && MapFileOk(d) && MapFileOk(mid)
    && forall x: nat :: Elsewhere(h, d, mid, x) ==> d'[x] == d[x]
  }

  ghost predicate Elsewhere(h: Header, d: Image, mid: Image, x: nat) {
    && FileHeaders.Shaped(h) && 0 <= h.numSectors < NumDirect && MapFileOk(d) && MapFileOk(mid)
    && OnDisk(x) && x !in h.data[..h.numSectors] && x != h.hdrSector && x != MapSector(d)
    && !(x in MapBits(mid) && x !in MapBits(d))
  }

  // The file has the sectors up to `end`, or lacks one and a sector is free.
  predicate Covered(h: Header, marked: set<nat>, end: nat) {
    SectorsFor(end) <= h.numSectors || (SectorsFor(end) == h.numSectors + 1 && |marked| < NumSectors)
  }

  // A direct file, apart from its header and the free map, and a write of n bytes that
  // ends within its direct slots.
  ghost predicate DirectWrite(h: Header, d: Image, position: nat, n: nat) {
    && MapFileOk(d) && KeptApart(h, d, MapSector(d), MapBits(d)) && h.numSectors < NumDirect
    && n > 0 && SectorsFor(position + n) < NumDirect
  }

  lemma LastSlot(position: nat, n: nat)
    requires n > 0
    ensures Last(position, n) == SectorsFor(position + n) - 1
  {
    FirstAndLast(position, n);
  }

  // A call of WriteAt that writes n bytes to the file at that position, with anything in
  // the slots beyond its sectors.
  ghost predicate WritesTo(c: Call, h: Header, d: Image, position: nat, n: nat) {
    SameFile(h, c.h) && c.d == d && c.position == position && |c.from| == n && Writes(c)
  }

  // A covered write harms no other sector, whatever the other slots and the buffers
  // hold.
  lemma CoveredUnharmed(c: Call, h: Header)
    requires DirectWrite(h, c.d, c.position, |c.from|) && Covered(h, MapBits(c.d), c.End()) && SameFile(h, c.h) && Writes(c)
    ensures Unharmed(h, c.d, c.mid, c.d')
  {
    StartedMap(c.h, c.d, c.h', c.mid, c.End());
    forall x: nat | Elsewhere(h, c.d, c.mid, x) ensures c.d'[x] == c.d[x] { CoveredKeeps(c, h, x); }
  }

  lemma StartedMap(h: Header, d: Image, h': Header, mid: Image, end: nat)
    requires Started(h, d, h', mid, end) && MapFileOk(d)
    ensures MapFileOk(mid)
  {
    InsideStarted(h, d, h', mid, end);
  }

  lemma CoveredKeeps(c: Call, h: Header, x: nat)
    requires DirectWrite(h, c.d, c.position, |c.from|) && Covered(h, MapBits(c.d), c.End()) && SameFile(h, c.h) && Writes(c)
    requires Elsewhere(h, c.d, c.mid, x)
    ensures c.d'[x] == c.d[x]
  {
    StartedSlots(h, c.d, c.h, c.End(), c.h', c.mid, x);
    TailKeeps(c.h', c.mid, c.from, c.position, c.garbage, x);
  }

  lemma StartedSlots(h: Header, d: Image, g: Header, end: nat, h': Header, mid: Image, x: nat)
    requires MapFileOk(d) && WellMapped(h, d) && SectorsFor(end) < NumDirect && Covered(h, MapBits(d), end) && SameFile(h, g)
    requires Started(g, d, h', mid, end) && Elsewhere(h, d, mid, x)
    ensures FileHeaders.Shaped(h') && d[x] == mid[x] && forall j :: 0 <= j < SectorsFor(end) ==> h'.data[j] != x
  {
    InsideStarted(g, d, h', mid, end);
    CoveredSlots(h, d, g, end, h', mid, x);
  }

  lemma TailKeeps(h: Header, d: Image, from: seq<Byte>, position: nat, garbage: seq<Byte>, x: nat)
    requires TailStarts(h, |from|, position, garbage) && SectorsFor(position + |from|) < NumDirect && OnDisk(x)
    requires forall j :: 0 <= j < SectorsFor(position + |from|) ==> h.data[j] != x
    ensures Tail(h, d, from, position, garbage).image[x] == d[x]
  {
    LastSlot(position, |from|);
    TailElsewhere(h, d, from, position, garbage, x);
  }

  lemma CoveredSlots(h: Header, d: Image, g: Header, end: nat, h': Header, mid: Image, x: nat)
    requires MapFileOk(d) && WellMapped(h, d) && SectorsFor(end) < NumDirect && Covered(h, MapBits(d), end) && SameFile(h, g)
    requires MaybeExtended(g, d, h', mid, end) && Elsewhere(h, d, mid, x)
    ensures FileHeaders.Shaped(h') && d[x] == mid[x] && forall j :: 0 <= j < SectorsFor(end) ==> h'.data[j] != x
  {
    if end <= g.numBytes { MoreBytesMoreSectors(end, g.numBytes); }
    else { MoreBytesMoreSectors(g.numBytes, end); }
    forall j | 0 <= j < SectorsFor(end) ensures h'.data[j] != x {
      if j < h.numSectors {
        assert h'.data[j] == g.data[j] == g.data[..h.numSectors][j] == h.data[..h.numSectors][j];
      } else {
        assert j == h.numSectors && h'.data[j] in MapBits(mid) && h'.data[j] !in MapBits(d);
      }
    }
  }

  // Otherwise some contents of the slots and some bytes make it overwrite sector 0,
  // the header of the free map.
  function Pointing(h: Header, x: Int32): Header
    requires FileHeaders.Shaped(h) && 0 <= h.numSectors < NumDirect
  {
    h.(data := h.data[..h.numSectors] + seq(NumDirect - h.numSectors, _ => x))
  }

  // The free map with one more sector marked, as it is stored.
  lemma MarkedImage(d: Image, r: nat) returns (map': Sector)
    requires MapFileOk(d) && r < NumSectors
    ensures Members(DecodeWords(map'), NumSectors) == MapBits(d) + {r}
  {
    var words := DecodeWords(d[MapSector(d)]);
    var w := words[r / BitsInWord];
    var mask := Bit(r % BitsInWord);
    MarkPuts(w, mask, r % BitsInWord);
    MembersPut(words, NumSectors, r, w | mask, true);
    var words' := words[r / BitsInWord := w | mask];
    WordsRoundTrip(words');
    map' := EncodeWords(words');
  }

  lemma {:induction false} LeastFree(marked: set<nat>, from: nat) returns (r: nat)
    requires from <= NumSectors && (forall i: nat :: i < from ==> i in marked) && exists i: nat :: i < NumSectors && i !in marked
    ensures r < NumSectors && r !in marked && forall i: nat :: i < r ==> i in marked
    decreases NumSectors - from
  {
    if from !in marked { r := from; } else { r := LeastFree(marked, from + 1); }
  }

  // What ExtendFile does is defined whatever the slots hold,
  lemma HeaderExtends(g: Header, marked: set<nat>, end: nat) returns (h': Header, taken: Option<nat>)
    requires Sized(g) && g.numSectors >= 0 && end < 0x8000_0000 && marked <= Run(0, NumSectors)
    requires SectorsFor(end) > g.numSectors ==> g.numSectors < NumDirect
    ensures taken.Some? ==> taken.value < NumSectors
    ensures h'.hdrSector == g.hdrSector && Extends(g, marked, h', if taken.Some? then marked + {taken.value} else marked, end)
  {
    var n := SectorsFor(end);
    SomeClear(marked, NumSectors);
    if n == g.numSectors {
      h', taken := g.(numBytes := end), None;
    } else if n < g.numSectors || NumSectors - |marked| < n - g.numSectors {
      h', taken := g, None;
    } else {
      var r := LeastFree(marked, 0);
      h', taken := Grown(g, end, r), Some(r);
      assert h'.data[g.numSectors] == r;
    }
  }

  // and so is the disk after it.
  lemma MidMap(d: Image, h': Header, map': Sector)
    requires MapFileOk(d) && FileHeaders.Shaped(h') && OnDisk(h'.hdrSector) && h'.hdrSector !in {0, MapSector(d)}
    ensures var mid := Mid(d, MapSector(d), h', map');
            MapFileOk(mid) && MapSector(mid) == MapSector(d) && MapBits(mid) == Members(DecodeWords(map'), NumSectors) && mid[MapSector(d)] == map'
  {
  }

  lemma ExtensionExists(g: Header, d: Image, end: nat) returns (h': Header, mid: Image)
    requires InBounds(g, d, end) && end > g.numBytes && MapBits(d) <= Run(0, NumSectors)
    ensures ExtendedOn(g, d, h', mid, end)
  {
    var taken, map';
    h', taken := HeaderExtends(g, MapBits(d), end);
    if taken.Some? { map' := MarkedImage(d, taken.value); } else { map' := d[MapSector(d)]; }
    mid := Mid(d, MapSector(d), h', map');
    MidMap(d, h', map');
  }

  lemma UncoveredHarms(h: Header, d: Image, position: nat, n: nat) returns (c: Call)
    requires DirectWrite(h, d, position, n) && !Covered(h, MapBits(d), position + n)
    ensures WritesTo(c, h, d, position, n) && !Unharmed(h, d, c.mid, c.d')
  {
    var g := Pointing(h, 0);
    PointingInBounds(h, d, position + n);
    MapBitsOnDisk(d);
    var h', mid := ExtensionExists(g, d, position + n);
    UncoveredSlots(h, d, position, n, h', mid);
    var from, garbage, w := HarmfulBytes(h', mid, position, n);
    ZeroHarmed(h, d, h', mid, w.image);
    c := CallOf(g, d, from, position, garbage, h', mid, w.image, w.stopped);
  }

  lemma ZeroHarmed(h: Header, d: Image, h': Header, mid: Image, d': Image)
    requires MapFileOk(d) && KeptApart(h, d, MapSector(d), MapBits(d)) && h.numSectors < NumDirect && MapFileOk(mid)
    requires FileHeaders.Shaped(h') && h'.hdrSector == h.hdrSector && mid == Mid(d, MapSector(d), h', mid[MapSector(d)])
    requires d'[0] != mid[0]
    ensures !Unharmed(h, d, mid, d')
  {
    forall k | 0 <= k < h.numSectors ensures h.data[..h.numSectors][k] != 0 { assert BlockSector(h, d, k) == h.data[k]; }
    assert Elsewhere(h, d, mid, 0);
  }

  // An uncovered write is beyond the end of the file, and within the bounds.
  lemma PointingInBounds(h: Header, d: Image, end: nat)
    requires MapFileOk(d) && KeptApart(h, d, MapSector(d), MapBits(d)) && h.numSectors < NumDirect && SectorsFor(end) < NumDirect
    requires SectorsFor(end) > h.numSectors
    ensures SameFile(h, Pointing(h, 0)) && end > h.numBytes && InBounds(Pointing(h, 0), d, end)
  {
    if end <= h.numBytes { MoreBytesMoreSectors(end, h.numBytes); }
  }

  lemma HarmfulBytes(h: Header, d: Image, position: nat, n: nat) returns (from: seq<Byte>, garbage: seq<Byte>, w: Written)
    requires Sized(h) && SlotsOnDisk(h, position, n) && h.data[Last(position, n)] == 0
    ensures |from| == n && TailStarts(h, n, position, garbage) && w == Tail(h, d, from, position, garbage) && w.image[0] != d[0]
  {
    var v: Byte := if d[0][LastOffset(position, n)] == 0 then 1 else 0;
    from := seq(n, _ => v);
    FirstAndLast(position, n);
    garbage := seq((Last(position, n) + 1 - First(position)) * SectorSize, _ => 0);
    w := Tail(h, d, from, position, garbage);
    ZeroOverwritten(h, d, from, position, garbage);
  }

  lemma ZeroOverwritten(h: Header, d: Image, from: seq<Byte>, position: nat, garbage: seq<Byte>)
    requires TailStarts(h, |from|, position, garbage) && SlotsOnDisk(h, position, |from|) && h.data[Last(position, |from|)] == 0
    requires from[|from| - 1] != d[0][LastOffset(position, |from|)]
    ensures Tail(h, d, from, position, garbage).image[0] != d[0]
  {
    TailLast(h, d, from, position, garbage);
    LastByteInBuffer(h, d, from, position, garbage);
  }

  lemma MapBitsOnDisk(d: Image)
    requires MapFileOk(d)
    ensures MapBits(d) <= Run(0, NumSectors)
  {
  }

  // The last slot of an uncovered write was never filled, and the earlier ones are
  // those of the file, the sector taken and slots like it.
  lemma UncoveredSlots(h: Header, d: Image, position: nat, n: nat, h': Header, mid: Image)
    requires DirectWrite(h, d, position, n) && !Covered(h, MapBits(d), position + n)
    requires ExtendedOn(Pointing(h, 0), d, h', mid, position + n)
    ensures Sized(h') && SlotsOnDisk(h', position, n) && h'.data[Last(position, n)] == 0
  {
    MapBitsOnDisk(d);
    forall j | 0 <= j < h.numSectors ensures OnDisk(h.data[j]) { assert BlockSector(h, d, j) == h.data[j]; }
    var m := SectorsFor(position + n);
    PointingSlots(h, MapBits(d), MapBits(mid), m, position + n, h');
    SlotsFrom(h', position, n, m);
  }

  lemma SlotsFrom(h: Header, position: nat, n: nat, m: nat)
    requires FileHeaders.Shaped(h) && n > 0 && m == SectorsFor(position + n) < NumDirect && forall j :: 0 <= j < m ==> OnDisk(h.data[j])
    ensures SlotsOnDisk(h, position, n) && Last(position, n) == m - 1
  {
    LastSlot(position, n);
    FirstAndLast(position, n);
  }

  lemma PointingSlots(h: Header, marked: set<nat>, marked': set<nat>, n: nat, end: nat, h': Header)
    requires Sized(h) && 0 <= h.numSectors < n == SectorsFor(end) < NumDirect && !Covered(h, marked, end)
    requires marked <= Run(0, NumSectors) && forall j :: 0 <= j < h.numSectors ==> OnDisk(h.data[j])
    requires Extends(Pointing(h, 0), marked, h', marked', end)
    ensures Sized(h') && h'.data[n - 1] == 0 && forall j :: 0 <= j < n ==> OnDisk(h'.data[j])
  {
    SomeClear(marked, NumSectors);
  }

  // So a write stays off all other sectors, for all contents of the unused slots and
  // all buffers, exactly when it is covered.
  lemma UnharmedIff(h: Header, d: Image, position: nat, n: nat)
    requires DirectWrite(h, d, position, n)
    ensures (forall c :: WritesTo(c, h, d, position, n) ==> Unharmed(h, d, c.mid, c.d')) <==> Covered(h, MapBits(d), position + n)
  {
    if Covered(h, MapBits(d), position + n) {
      forall c | WritesTo(c, h, d, position, n) ensures Unharmed(h, d, c.mid, c.d') { CoveredUnharmed(c, h); }
    } else {
      var c := UncoveredHarms(h, d, position, n);
    }
  }

  // --------------------------------------------------------------------- two inputs

  // The free map is full and a file of one sector has 0 in its second slot: writing
  // one byte at its end leaves the header as it was and replaces sector 0, the header
  // of the free map, by that byte and garbage.
  lemma RefusedOverwrites(c: Call, v: Byte)
    requires MapFileOk(c.d) && |MapBits(c.d)| == NumSectors
    requires FileHeaders.Shaped(c.h) && c.h.numBytes == SectorSize && c.h.numSectors == 1 && c.h.data[1] == 0
    requires c.from == [v] && c.position == SectorSize && Writes(c)
    ensures !c.stopped && c.h' == c.h && c.d'[0] == [v] + c.garbage[1..]
  {
    InsideStarted(c.h, c.d, c.h', c.mid, c.End());
    assert SectorsFor(SectorSize + |[v]|) == 2;
    assert c.h' == c.h;
    ByteOverGarbage(c.h', c.mid, v, 1, c.garbage);
  }

  // There is room, and a file of one sector has 0 in its third slot: writing one byte
  // one sector beyond its end takes one sector, gives the file three, and does the
  // same to sector 0.
  lemma GrowthByTwoOverwrites(c: Call, v: Byte)
    requires MapFileOk(c.d) && |MapBits(c.d)| + 2 <= NumSectors
    requires FileHeaders.Shaped(c.h) && c.h.numBytes == SectorSize && c.h.numSectors == 1 && c.h.data[2] == 0
    requires c.from == [v] && c.position == 2 * SectorSize && Writes(c)
    ensures !c.stopped && c.h'.numSectors == 3 && c.d'[0] == [v] + c.garbage[1..]
    ensures MapFileOk(c.mid) && MapBits(c.mid) == MapBits(c.d) + {c.h'.data[1]}
  {
    InsideStarted(c.h, c.d, c.h', c.mid, c.End());
    assert SectorsFor(2 * SectorSize + |[v]|) == 3;
    assert c.h' == Grown(c.h, 2 * SectorSize + 1, c.h'.data[1]);
    ByteOverGarbage(c.h', c.mid, v, 2, c.garbage);
  }

  // One byte at the start of a sector that the file does not have, or has for that
  // byte only.
  lemma ByteOverGarbage(h: Header, d: Image, v: Byte, k: nat, garbage: seq<Byte>)
    requires TailStarts(h, |[v]|, k * SectorSize, garbage) && k < NumDirect - 1 && h.data[k] == 0 && h.numBytes <= k * SectorSize + 1
    ensures var w := Tail(h, d, [v], k * SectorSize, garbage);
            |garbage| == SectorSize && !w.stopped && w.image[0] == [v] + garbage[1..]
  {
    OneSector(k, 1);
    TailLast(h, d, [v], k * SectorSize, garbage);
    OneByteBuffer(Content(h, d), garbage, v, k);
  }

  lemma OneByteBuffer(c: seq<Byte>, garbage: seq<Byte>, v: Byte, k: nat)
    requires Room(garbage, k * SectorSize, |[v]|) && |c| <= k * SectorSize + 1
    ensures |garbage| == SectorSize && Prepared(c, garbage, [v], k * SectorSize) == [v] + garbage[1..]
  {
    OneSector(k, 1);
    assert |Slice(c, SectorSize, k * SectorSize)| <= 1;
  }
}

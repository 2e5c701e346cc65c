/**
  Open files: reading and writing byte ranges on top of whole sectors, with
  growth of the file, as operations on a plain sequence of bytes.
 */
module OpenFiles {
  import opened Common
  import opened BitMaps
  import opened Codec
  import opened Storage
  import opened FileHeaders

  // ------------------------------------------------------------- a file as bytes

  // The blocks of the file are distinct sectors of the disk, and none of them is
  // the index block.
  ghost predicate WellMapped(h: Header, d: Image) {
    && Sound(h) && h.numSectors != NumDirect
    && 0 <= h.numBytes && h.numSectors == SectorsFor(h.numBytes)
    && (forall k :: 0 <= k < h.numSectors ==> OnDisk(BlockSector(h, d, k)))
    && (forall j, k :: 0 <= j < k < h.numSectors ==> BlockSector(h, d, j) != BlockSector(h, d, k))
    && (h.numSectors > NumDirect ==> forall k :: 0 <= k < h.numSectors ==> BlockSector(h, d, k) != h.data[NumDirect - 1])
  }

  // What Allocate lays out can be read and written: for every size but NumDirect
  // sectors, and with the indirect sectors below 128, the blocks are mapped to
  // distinct sectors, none of them the index block.
  lemma AllocatedWellMapped(h: Header, d: Image, d': Image, was: set<nat>, now: set<nat>, blocks: seq<int>)
    requires AllocatedAs(h, d, d', was, now, blocks) && Readable(blocks) && |blocks| != NumDirect
    requires 0 <= h.numBytes && h.numSectors == SectorsFor(h.numBytes)
    ensures WellMapped(h, d') && forall k :: 0 <= k < h.numSectors ==> BlockSector(h, d', k) == blocks[k]
  {
    MappingAgreesIff(h, d', blocks);
    var c := Claims(h, blocks);
    forall k | 0 <= k < |blocks| ensures blocks[k] == c[k] {}
    if |blocks| > NumDirect { assert c[|blocks|] == h.data[NumDirect - 1]; }
  }

  // A length for which ByteToSector stays inside the index block.
  predicate Sized(h: Header) { Shaped(h) && 0 <= h.numBytes <= MaxSectors * SectorSize }

  // Byte i of the sectors of the file; 0 stands for a byte that is not on the disk.
  function RawByte(h: Header, d: Image, i: nat): Byte
    requires Shaped(h) && i < MaxSectors * SectorSize
  {
    var s := BlockSector(h, d, i / SectorSize);
    if OnDisk(s) then d[s][i % SectorSize] else 0
  }

  function Content(h: Header, d: Image): (c: seq<Byte>)
    requires Sized(h)
    ensures |c| == h.numBytes
  {
    seq(h.numBytes, i requires 0 <= i < h.numBytes => RawByte(h, d, i))
  }

  // A sector is one of the blocks first, ..., end - 1.
  ghost predicate IsBlock(h: Header, d: Image, first: nat, end: nat, s: int)
    requires WellMapped(h, d) && end <= h.numSectors
  {
    exists k :: first <= k < end && BlockSector(h, d, k) == s
  }

  // Blocks first, ..., end - 1 of the file have been overwritten from a buffer
  // that starts at block first; the rest of the disk is as it was.
  ghost predicate Overwritten(h: Header, d: Image, d': Image, first: nat, end: nat, buf: seq<Byte>)
    requires WellMapped(h, d) && first <= end <= h.numSectors && |buf| >= (end - first) * SectorSize
  {
    && (forall s :: 0 <= s < NumSectors && !IsBlock(h, d, first, end, s) ==> d'[s] == d[s])
    && (forall k :: first <= k < end ==> d'[BlockSector(h, d, k)] == buf[(k - first) * SectorSize..(k - first + 1) * SectorSize])
  }

  // The mapping depends on the header and on the index block only.
  lemma SameMapping(h: Header, d: Image, d': Image)
    requires WellMapped(h, d) && (h.numSectors > NumDirect ==> d'[h.data[NumDirect - 1]] == d[h.data[NumDirect - 1]])
    ensures WellMapped(h, d') && forall k :: 0 <= k < h.numSectors ==> BlockSector(h, d', k) == BlockSector(h, d, k)
  {
    forall k | 0 <= k < h.numSectors ensures BlockSector(h, d', k) == BlockSector(h, d, k) {
    }
  }

  lemma OverwrittenMapped(h: Header, d: Image, d': Image, first: nat, end: nat, buf: seq<Byte>)
    requires WellMapped(h, d) && first <= end <= h.numSectors && |buf| >= (end - first) * SectorSize
    requires Overwritten(h, d, d', first, end, buf)
    ensures WellMapped(h, d') && forall k :: 0 <= k < h.numSectors ==> BlockSector(h, d', k) == BlockSector(h, d, k)
  {
    if h.numSectors > NumDirect {
      assert !IsBlock(h, d, first, end, h.data[NumDirect - 1]);
    }
    SameMapping(h, d, d');
  }

  lemma OverwriteOne(h: Header, d: Image, d': Image, first: nat, k: nat, buf: seq<Byte>)
    requires WellMapped(h, d) && first <= k < h.numSectors && |buf| >= (k + 1 - first) * SectorSize
    requires Overwritten(h, d, d', first, k, buf)
    ensures Overwritten(h, d, d'[BlockSector(h, d, k) := buf[(k - first) * SectorSize..(k - first + 1) * SectorSize]], first, k + 1, buf)
  {
    var b := BlockSector(h, d, k);
    assert IsBlock(h, d, first, k + 1, b);
    forall s | 0 <= s < NumSectors && !IsBlock(h, d, first, k + 1, s) ensures s != b && !IsBlock(h, d, first, k, s) {
    }
  }

  // ------------------------------------------------------------------ the splice

  // A buffer for the blocks first, ..., last that holds the new bytes in their
  // place and, within the file, the old ones elsewhere.
  ghost predicate Buffered(h: Header, d: Image, first: nat, last: nat, buf: seq<Byte>, from: seq<Byte>, position: nat)
    requires WellMapped(h, d) && first <= last < h.numSectors && |buf| == (last + 1 - first) * SectorSize
  {
    forall i :: first * SectorSize <= i < (last + 1) * SectorSize && i < h.numBytes ==>
      buf[i - first * SectorSize] == if position <= i < position + |from| then from[i - position] else RawByte(h, d, i)
  }

  // The file after a write within its length: the new bytes spliced in, all other
  // bytes of the file and all other sectors of the disk unchanged.
  ghost predicate Spliced(h: Header, d: Image, d': Image, from: seq<Byte>, position: nat)
    requires WellMapped(h, d)
  {
    && WellMapped(h, d')
    && (forall k :: 0 <= k < h.numSectors ==> BlockSector(h, d', k) == BlockSector(h, d, k))
    && (forall s :: 0 <= s < NumSectors && !IsBlock(h, d, 0, h.numSectors, s) ==> d'[s] == d[s])
    && (forall i :: 0 <= i < h.numBytes ==>
          RawByte(h, d', i) == if position <= i < position + |from| then from[i - position] else RawByte(h, d, i))
  }

  lemma SpliceDone(h: Header, d: Image, d': Image, first: nat, last: nat, buf: seq<Byte>, from: seq<Byte>, position: nat)
    requires WellMapped(h, d) && first <= last < h.numSectors && |buf| == (last + 1 - first) * SectorSize
    requires Overwritten(h, d, d', first, last + 1, buf) && Buffered(h, d, first, last, buf, from, position)
    requires first * SectorSize <= position && position + |from| <= (last + 1) * SectorSize
    ensures Spliced(h, d, d', from, position)
  {
    OverwrittenMapped(h, d, d', first, last + 1, buf);
    forall s | 0 <= s < NumSectors && !IsBlock(h, d, 0, h.numSectors, s) ensures d'[s] == d[s] {
      assert !IsBlock(h, d, first, last + 1, s);
    }
    forall i | 0 <= i < h.numBytes
      ensures RawByte(h, d', i) == if position <= i < position + |from| then from[i - position] else RawByte(h, d, i)
    {
      SpliceByte(h, d, d', first, last, buf, from, position, i);
    }
  }

  lemma SpliceByte(h: Header, d: Image, d': Image, first: nat, last: nat, buf: seq<Byte>, from: seq<Byte>, position: nat, i: nat)
    requires WellMapped(h, d) && WellMapped(h, d') && first <= last < h.numSectors && |buf| == (last + 1 - first) * SectorSize
    requires Overwritten(h, d, d', first, last + 1, buf) && Buffered(h, d, first, last, buf, from, position)
    requires first * SectorSize <= position && position + |from| <= (last + 1) * SectorSize
    requires forall k :: 0 <= k < h.numSectors ==> BlockSector(h, d', k) == BlockSector(h, d, k)
    requires i < h.numBytes
    ensures RawByte(h, d', i) == if position <= i < position + |from| then from[i - position] else RawByte(h, d, i)
  {
    var k := i / SectorSize;
    var s := BlockSector(h, d, k);
    if first <= k <= last {
      assert d'[s] == buf[(k - first) * SectorSize..(k - first + 1) * SectorSize];
      assert i == k * SectorSize + i % SectorSize;
      assert first * SectorSize <= i < (last + 1) * SectorSize;
      assert RawByte(h, d, i) == d[s][i % SectorSize];
      assert buf[i - first * SectorSize] == if position <= i < position + |from| then from[i - position] else RawByte(h, d, i);
      assert d'[s][i % SectorSize] == buf[(k - first) * SectorSize + i % SectorSize] == buf[i - first * SectorSize];
    } else {
      assert !IsBlock(h, d, first, last + 1, s);
    }
  }

  // bcopy(bytes, &buf[at], |bytes|)
  function Overlay(buf: seq<Byte>, at: nat, bytes: seq<Byte>): (r: seq<Byte>)
    requires at + |bytes| <= |buf|
    ensures |r| == |buf|
    ensures forall i {:trigger r[i]} :: 0 <= i < |buf| ==> r[i] == if at <= i < at + |bytes| then bytes[i - at] else buf[i]
  {
    seq(|buf|, i requires 0 <= i < |buf| => if at <= i < at + |bytes| then bytes[i - at] else buf[i])
  }

  // The part of a request that lies within the content.
  function Slice(c: seq<Byte>, numBytes: int, position: nat): seq<Byte> {
    if numBytes <= 0 || position >= |c| then [] else c[position..if position + numBytes > |c| then |c| else position + numBytes]
  }

  // Byte i of the content is among the bytes returned exactly when it was asked for, and
  // is in its place there.
  lemma SliceIff(c: seq<Byte>, numBytes: int, position: nat, i: nat)
    ensures 0 <= i - position < |Slice(c, numBytes, position)| <==> position <= i < position + numBytes && i < |c|
    ensures 0 <= i - position < |Slice(c, numBytes, position)| ==> i < |c| && Slice(c, numBytes, position)[i - position] == c[i]
  {
  }

  function First(position: nat): nat { position / SectorSize }

  function Last(position: nat, n: nat): nat
    requires n > 0
  {
    (position + n - 1) / SectorSize
  }

  predicate FirstAligned(position: nat) { position == First(position) * SectorSize }

  predicate LastAligned(position: nat, n: nat)
    requires n > 0
  {
    position + n == (Last(position, n) + 1) * SectorSize
  }

  // When the last sector of a write is read in before it is changed.
  predicate ReadsLast(position: nat, n: nat)
    requires n > 0
  {
    !LastAligned(position, n) && (First(position) != Last(position, n) || FirstAligned(position))
  }

  // The part of the content and the buffer that a write works on.
  predicate Room(garbage: seq<Byte>, position: nat, n: nat) {
    n > 0 && |garbage| == (Last(position, n) + 1 - First(position)) * SectorSize
  }

  // The buffer after the first sector has been read in, if it is to be kept in
  // part; after the last one; and after the new bytes have been copied in.
  function FirstRead(c: seq<Byte>, garbage: seq<Byte>, position: nat, n: nat): (b: seq<Byte>)
    requires Room(garbage, position, n)
    ensures |b| == |garbage|
  {
    if FirstAligned(position) then garbage else Overlay(garbage, 0, Slice(c, SectorSize, First(position) * SectorSize))
  }

  function LastRead(c: seq<Byte>, garbage: seq<Byte>, position: nat, n: nat): (b: seq<Byte>)
    requires Room(garbage, position, n)
    ensures |b| == |garbage|
  {
    var b := FirstRead(c, garbage, position, n);
    if !ReadsLast(position, n) then b
    else Overlay(b, (Last(position, n) - First(position)) * SectorSize, Slice(c, SectorSize, Last(position, n) * SectorSize))
  }

  function Prepared(c: seq<Byte>, garbage: seq<Byte>, from: seq<Byte>, position: nat): (b: seq<Byte>)
    requires Room(garbage, position, |from|)
    ensures |b| == |garbage|
  {
    Overlay(LastRead(c, garbage, position, |from|), position - First(position) * SectorSize, from)
  }

  lemma FirstAndLast(position: nat, n: nat)
    requires n > 0
    ensures First(position) * SectorSize <= position < (First(position) + 1) * SectorSize
    ensures Last(position, n) * SectorSize < position + n <= (Last(position, n) + 1) * SectorSize
    ensures First(position) <= Last(position, n)
  {
  }

  // A sector read in from the content, and what it puts into a buffer at `at`.
  lemma SliceAt(c: seq<Byte>, start: nat, i: nat)
    requires start <= i < start + SectorSize && i < |c|
    ensures i - start < |Slice(c, SectorSize, start)| <= SectorSize && Slice(c, SectorSize, start)[i - start] == c[i]
  {
  }

  lemma OverlaidSlice(b: seq<Byte>, at: nat, c: seq<Byte>, start: nat, i: nat)
    requires at + SectorSize <= |b| && start <= i < start + SectorSize && i < |c|
    ensures |Slice(c, SectorSize, start)| <= SectorSize && Overlay(b, at, Slice(c, SectorSize, start))[at + i - start] == c[i]
  {
    SliceAt(c, start, i);
  }

  // A byte of the first sector that is not overwritten by what follows is kept,
  lemma FirstKept(c: seq<Byte>, garbage: seq<Byte>, position: nat, n: nat, i: nat)
    requires Room(garbage, position, n) && !FirstAligned(position)
    requires First(position) * SectorSize <= i < (First(position) + 1) * SectorSize && i < |c|
    ensures FirstRead(c, garbage, position, n)[i - First(position) * SectorSize] == c[i]
  {
    FirstAndLast(position, n);
    OverlaidSlice(garbage, 0, c, First(position) * SectorSize, i);
  }

  // so a byte before the write is kept,
  lemma KeptBefore(c: seq<Byte>, garbage: seq<Byte>, position: nat, n: nat, i: nat)
    requires Room(garbage, position, n) && First(position) * SectorSize <= i < position && i < |c|
    ensures LastRead(c, garbage, position, n)[i - First(position) * SectorSize] == c[i]
  {
    FirstAndLast(position, n);
    FirstKept(c, garbage, position, n, i);
    var first, last := First(position), Last(position, n);
    if ReadsLast(position, n) {
      assert i - first * SectorSize < (last - first) * SectorSize;
    }
  }

  // and so is a byte of the file after it: of the last sector, when that is read in,
  lemma LastKept(c: seq<Byte>, garbage: seq<Byte>, position: nat, n: nat, i: nat)
    requires Room(garbage, position, n) && ReadsLast(position, n)
    requires Last(position, n) * SectorSize <= i < (Last(position, n) + 1) * SectorSize && i < |c|
    ensures LastRead(c, garbage, position, n)[i - First(position) * SectorSize] == c[i]
  {
    FirstAndLast(position, n);
    LastOverlaid(FirstRead(c, garbage, position, n), c, First(position), Last(position, n), i);
  }

  lemma LastOverlaid(b: seq<Byte>, c: seq<Byte>, first: nat, last: nat, i: nat)
    requires first <= last && |b| == (last + 1 - first) * SectorSize && last * SectorSize <= i < (last + 1) * SectorSize && i < |c|
    ensures |Slice(c, SectorSize, last * SectorSize)| <= SectorSize
    ensures Overlay(b, (last - first) * SectorSize, Slice(c, SectorSize, last * SectorSize))[i - first * SectorSize] == c[i]
  {
    OverlaidSlice(b, (last - first) * SectorSize, c, last * SectorSize, i);
  }

  // or of the first one, when that is the last one too.
  lemma KeptAfter(c: seq<Byte>, garbage: seq<Byte>, position: nat, n: nat, i: nat)
    requires Room(garbage, position, n) && position + n <= i < (Last(position, n) + 1) * SectorSize && i < |c|
    ensures LastRead(c, garbage, position, n)[i - First(position) * SectorSize] == c[i]
  {
    FirstAndLast(position, n);
    if ReadsLast(position, n) { LastKept(c, garbage, position, n, i); } else { FirstKept(c, garbage, position, n, i); }
  }

  // The prepared buffer, whatever the garbage in it: old bytes where the write
  // does not reach, new bytes where it does.
  lemma PreparedAt(c: seq<Byte>, garbage: seq<Byte>, from: seq<Byte>, position: nat, i: nat)
    requires Room(garbage, position, |from|)
    requires First(position) * SectorSize <= i < (Last(position, |from|) + 1) * SectorSize && i < |c|
    ensures Prepared(c, garbage, from, position)[i - First(position) * SectorSize]
            == if position <= i < position + |from| then from[i - position] else c[i]
  {
    if i < position { KeptBefore(c, garbage, position, |from|, i); }
    else if i >= position + |from| { KeptAfter(c, garbage, position, |from|, i); }
  }

  // ---------------------------------------------------------- through the table

  // Reading and writing go through the table whatever is in it; a slot that is not
  // a sector stops the machine, in the ASSERT of the disk.

  ghost predicate Located(h: Header, d: Image, first: nat, end: nat)
    requires Shaped(h) && end <= MaxSectors
  {
    forall k :: first <= k < end ==> OnDisk(BlockSector(h, d, k))
  }

  // ReadAt meets only sectors of the disk.
  ghost predicate ReadLocated(h: Header, d: Image, numBytes: int, position: nat)
    requires Sized(h)
  {
    var n := |Slice(Content(h, d), numBytes, position)|;
    n > 0 ==> Located(h, d, First(position), Last(position, n) + 1)
  }

  datatype Written = Written(image: Image, stopped: bool)

  // Write the blocks k, ..., end - 1 from a buffer that starts at block first, each
  // to where the table says at that moment.
  function WriteThrough(h: Header, d: Image, k: nat, end: nat, first: nat, buf: seq<Byte>): Written
    requires Shaped(h) && first <= k <= end <= MaxSectors && |buf| == (end - first) * SectorSize
    decreases end - k
  {
    if k == end then Written(d, false)
    else
      var s := BlockSector(h, d, k);
      if !OnDisk(s) then Written(d, true)
      else WriteThrough(h, d[s := buf[(k - first) * SectorSize..(k - first + 1) * SectorSize]], k + 1, end, first, buf)
  }

  // What the end of WriteAt needs to be within bounds.
  ghost predicate TailStarts(h: Header, n: nat, position: nat, garbage: seq<Byte>) {
    Sized(h) && n > 0 && Last(position, n) < MaxSectors && Room(garbage, position, n)
  }

  // The end of WriteAt, after the file has been extended or not: read in the first
  // and the last sector if they are to be kept in part, then write.
  ghost function Tail(h: Header, d: Image, from: seq<Byte>, position: nat, garbage: seq<Byte>): Written
    requires TailStarts(h, |from|, position, garbage)
  {
    var first, last := First(position), Last(position, |from|);
    if !TailReads(h, d, from, position) then Written(d, true)
    else WriteThrough(h, d, first, last + 1, first, Prepared(Content(h, d), garbage, from, position))
  }

  lemma TailIs(h: Header, d: Image, from: seq<Byte>, position: nat, garbage: seq<Byte>)
    requires TailStarts(h, |from|, position, garbage)
    ensures var first, last := First(position), Last(position, |from|);
            Tail(h, d, from, position, garbage)
            == if !TailReads(h, d, from, position) then Written(d, true)
               else WriteThrough(h, d, first, last + 1, first, Prepared(Content(h, d), garbage, from, position))
  {
  }

  // The sectors that are read in are sectors.
  ghost predicate TailReads(h: Header, d: Image, from: seq<Byte>, position: nat)
    requires Sized(h) && from != []
  {
    && (FirstAligned(position) || ReadLocated(h, d, SectorSize, First(position) * SectorSize))
    && (!ReadsLast(position, |from|) || ReadLocated(h, d, SectorSize, Last(position, |from|) * SectorSize))
  }

  // On a well-mapped file, writing through the table overwrites its blocks,
  lemma {:induction false} WriteThroughOverwrites(h: Header, d: Image, d': Image, k: nat, end: nat, first: nat, buf: seq<Byte>)
    requires WellMapped(h, d) && first <= k <= end <= h.numSectors && |buf| == (end - first) * SectorSize
    requires Overwritten(h, d, d', first, k, buf)
    ensures var w := WriteThrough(h, d', k, end, first, buf);
            !w.stopped && Overwritten(h, d, w.image, first, end, buf)
    decreases end - k
  {
    if k < end {
      OverwrittenMapped(h, d, d', first, k, buf);
      OverwriteOne(h, d, d', first, k, buf);
      var s := BlockSector(h, d', k);
      WriteThroughOverwrites(h, d, d'[s := buf[(k - first) * SectorSize..(k - first + 1) * SectorSize]], k + 1, end, first, buf);
    }
  }

  lemma PreparedBuffered(h: Header, d: Image, from: seq<Byte>, position: nat, garbage: seq<Byte>)
    requires WellMapped(h, d) && from != [] && position + |from| <= h.numBytes && Room(garbage, position, |from|)
    ensures Last(position, |from|) < h.numSectors
    ensures Buffered(h, d, First(position), Last(position, |from|), Prepared(Content(h, d), garbage, from, position), from, position)
  {
    var c := Content(h, d);
    forall i | First(position) * SectorSize <= i < (Last(position, |from|) + 1) * SectorSize && i < h.numBytes
      ensures Prepared(c, garbage, from, position)[i - First(position) * SectorSize]
              == if position <= i < position + |from| then from[i - position] else RawByte(h, d, i)
    {
      PreparedAt(c, garbage, from, position, i);
    }
  }

  lemma TailWrites(h: Header, d: Image, from: seq<Byte>, position: nat, garbage: seq<Byte>)
    requires WellMapped(h, d) && TailStarts(h, |from|, position, garbage)
    ensures Tail(h, d, from, position, garbage)
            == WriteThrough(h, d, First(position), Last(position, |from|) + 1, First(position), Prepared(Content(h, d), garbage, from, position))
  {
    ReadsLocated(h, d, SectorSize, First(position) * SectorSize);
    ReadsLocated(h, d, SectorSize, Last(position, |from|) * SectorSize);
  }

  lemma WriteThroughSplices(h: Header, d: Image, from: seq<Byte>, position: nat, buf: seq<Byte>)
    requires WellMapped(h, d) && from != [] && Last(position, |from|) < h.numSectors
    requires |buf| == (Last(position, |from|) + 1 - First(position)) * SectorSize
    requires Buffered(h, d, First(position), Last(position, |from|), buf, from, position)
    ensures var w := WriteThrough(h, d, First(position), Last(position, |from|) + 1, First(position), buf);
            !w.stopped && Spliced(h, d, w.image, from, position)
  {
    var first, last := First(position), Last(position, |from|);
    FirstAndLast(position, |from|);
    WriteThroughOverwrites(h, d, d, first, last + 1, first, buf);
    SpliceDone(h, d, WriteThrough(h, d, first, last + 1, first, buf).image, first, last, buf, from, position);
  }

  // so a write within its length splices the bytes in and is not stopped.
  lemma TailSplices(h: Header, d: Image, from: seq<Byte>, position: nat, garbage: seq<Byte>)
    requires WellMapped(h, d) && TailStarts(h, |from|, position, garbage) && position + |from| <= h.numBytes
    ensures var w := Tail(h, d, from, position, garbage);
            !w.stopped && Spliced(h, d, w.image, from, position)
  {
    TailWrites(h, d, from, position, garbage);
    PreparedBuffered(h, d, from, position, garbage);
    WriteThroughSplices(h, d, from, position, Prepared(Content(h, d), garbage, from, position));
  }

  lemma ReadsLocated(h: Header, d: Image, numBytes: int, position: nat)
    requires WellMapped(h, d)
    ensures ReadLocated(h, d, numBytes, position)
  {
    var n := |Slice(Content(h, d), numBytes, position)|;
    if n > 0 { assert position + n <= h.numBytes; }
  }

  // --------------------------------------------------------------- the free map file

  function MapSector(d: Image): int { Decode(d[0]).data[0] }

  // The header in sector 0 describes the free map: one sector, filled exactly.
  predicate MapFileOk(d: Image) {
    var h := Decode(d[0]);
    h.numBytes == SectorSize && h.numSectors == 1 && OnDisk(h.data[0]) && h.data[0] != 0
  }

  // The sectors that the free map on the disk marks as used.
  function MapBits(d: Image): set<nat>
    requires MapFileOk(d)
  {
    Members(DecodeWords(d[MapSector(d)]), NumSectors)
  }

  // The free map is found through sector 0 and one more sector.
  lemma SameMap(d: Image, d': Image)
    requires MapFileOk(d) && d'[0] == d[0] && d'[MapSector(d)] == d[MapSector(d)]
    ensures MapFileOk(d') && MapSector(d') == MapSector(d) && MapBits(d') == MapBits(d)
  {
  }

  lemma MapFileMapped(d: Image)
    requires MapFileOk(d)
    ensures WellMapped(Decode(d[0]), d) && Content(Decode(d[0]), d) == d[MapSector(d)]
    ensures BlockSector(Decode(d[0]), d, 0) == MapSector(d)
  {
  }

  // ---------------------------------------------------------------------- growth

  // The file, its header and the free map (in sector m) do not overlap and are all
  // marked.
  ghost predicate KeptApart(h: Header, d: Image, m: int, marked: set<nat>) {
    && WellMapped(h, d) && OnDisk(m) && OnDisk(h.hdrSector)
    && 0 != m && m != h.hdrSector && h.hdrSector != 0
    && {0, m, h.hdrSector} <= marked
    && (forall k :: 0 <= k < h.numSectors ==> BlockSector(h, d, k) in marked && BlockSector(h, d, k) !in {0, m, h.hdrSector})
    && (h.numSectors > NumDirect ==> h.data[NumDirect - 1] in marked && h.data[NumDirect - 1] !in {0, m, h.hdrSector})
  }

  // When a file can be extended to newLength as intended: at most one sector is
  // needed, which is free and has a direct slot that is not the last one.
  ghost predicate CanGrow(h: Header, d: Image, m: int, marked: set<nat>, newLength: nat) {
    && KeptApart(h, d, m, marked) && newLength < 0x8000_0000
    && (SectorsFor(newLength) != h.numSectors ==>
          SectorsFor(newLength) == h.numSectors + 1 < NumDirect && |marked| < NumSectors)
  }

  // What the header and the marks are after ExtendFile, whatever it answered: grown
  // within the last sector; the same, because the sectors are more than enough or
  // too few are free; or grown by all the sectors needed, of which one was taken.
  ghost predicate Extends(h: Header, marked: set<nat>, h': Header, marked': set<nat>, newLength: nat) {
    && Shaped(h) && Shaped(h') && 0 <= h.numSectors && newLength < 0x8000_0000
    && var n := SectorsFor(newLength);
       if n == h.numSectors then h' == h.(numBytes := newLength) && marked' == marked
       else if n < h.numSectors || NumSectors - |marked| < n - h.numSectors then h' == h && marked' == marked
       else
         && h.numSectors < NumDirect && OnDisk(h'.data[h.numSectors])
         && h' == Grown(h, newLength, h'.data[h.numSectors])
         && Finds(marked, h'.data[h.numSectors], marked')
  }

  // The header has grown to the new length, with the least free sector added
  // where one was needed, and exactly that sector is newly marked.
  ghost predicate Grew(h: Header, marked: set<nat>, h': Header, marked': set<nat>, newLength: nat) {
    Extends(h, marked, h', marked', newLength) && h.numBytes < h'.numBytes == newLength
  }

  // The disk once the header and the free map of a grown file have been written.
  function Mid(d: Image, m: int, h': Header, map': Sector): Image
    requires Shaped(h') && OnDisk(h'.hdrSector) && OnDisk(m)
  {
    d[h'.hdrSector := Encode(h')][m := map']
  }

  // When WriteAt is within the bounds of its tables up to `end`: it does not go beyond
  // the index block, nor does ExtendFile store past the end of the table; and the
  // header can be written back to its own sector.
  ghost predicate InBounds(h: Header, d: Image, end: nat) {
    && Sized(h) && SectorsFor(end) <= MaxSectors
    && (end > h.numBytes ==>
          && MapFileOk(d) && OnDisk(h.hdrSector) && h.hdrSector !in {0, MapSector(d)}
          && h.numSectors >= 0 && (SectorsFor(end) > h.numSectors ==> h.numSectors < NumDirect))
  }

  // The file has been extended to `end`, or not, on the disk mid.
  ghost predicate ExtendedOn(h: Header, d: Image, h': Header, mid: Image, end: nat) {
    && MapFileOk(d) && MapFileOk(mid) && MapSector(mid) == MapSector(d)
    && Extends(h, MapBits(d), h', MapBits(mid), end)
    && OnDisk(h'.hdrSector) && mid == Mid(d, MapSector(d), h', mid[MapSector(d)])
  }

  // The header and the disk after the extension, if there is one.
  ghost predicate MaybeExtended(h: Header, d: Image, h': Header, mid: Image, end: nat) {
    if end > h.numBytes then ExtendedOn(h, d, h', mid, end) else h' == h && mid == d
  }

  // The same, quantified over a dummy, so that a proof sees what is inside only where
  // it calls InsideStarted.  Methods that only pass it on stay cheap to verify that
  // way; unfolded in them, it takes them to the resource limit.
  ghost predicate Started(h: Header, d: Image, h': Header, mid: Image, end: nat) {
    forall look {:trigger LookInside(look)} :: LookInside(look) ==> MaybeExtended(h, d, h', mid, end)
  }

  predicate LookInside(look: int) { true }

  lemma InsideStarted(h: Header, d: Image, h': Header, mid: Image, end: nat)
    requires Started(h, d, h', mid, end)
    ensures MaybeExtended(h, d, h', mid, end)
  {
    assert LookInside(0);
  }

  // A call of WriteAt from the header h and the disk d: the header becomes h', by way
  // of the disk mid, and the disk d'; or the machine is stopped.
  datatype Call = Call(h: Header, d: Image, from: seq<Byte>, position: nat, garbage: seq<Byte>, h': Header, mid: Image, d': Image, stopped: bool) {
    function End(): nat { position + |from| }
  }

  ghost predicate Writes(c: Call) {
    && Started(c.h, c.d, c.h', c.mid, c.End())
    && TailStarts(c.h', |c.from|, c.position, c.garbage)
    && Tail(c.h', c.mid, c.from, c.position, c.garbage) == Written(c.d', c.stopped)
  }

  lemma ExtendsGrew(h: Header, d: Image, m: int, marked: set<nat>, h': Header, marked': set<nat>, newLength: nat)
    requires CanGrow(h, d, m, marked, newLength) && newLength > h.numBytes && Extends(h, marked, h', marked', newLength)
    ensures Grew(h, marked, h', marked', newLength)
  {
    MoreBytesMoreSectors(h.numBytes, newLength);
  }

  lemma StillSized(h: Header, marked: set<nat>, h': Header, marked': set<nat>, newLength: nat)
    requires Sized(h) && SectorsFor(newLength) <= MaxSectors && Extends(h, marked, h', marked', newLength)
    ensures Sized(h')
  {
  }

  lemma GrownBlocks(h: Header, d: Image, m: int, marked: set<nat>, h': Header, marked': set<nat>, newLength: nat)
    requires CanGrow(h, d, m, marked, newLength) && newLength > h.numBytes && Grew(h, marked, h', marked', newLength)
    ensures WellMapped(h', d)
    ensures forall k :: 0 <= k < h'.numSectors ==> BlockSector(h', d, k) !in {0, m, h.hdrSector}
    ensures forall k :: 0 <= k < h.numSectors ==> BlockSector(h', d, k) == BlockSector(h, d, k)
  {
    forall k | 0 <= k < h.numSectors ensures BlockSector(h', d, k) == BlockSector(h, d, k) {}
    if SectorsFor(newLength) != h.numSectors {
      assert BlockSector(h', d, h.numSectors) == h'.data[h.numSectors] && h'.data[h.numSectors] !in marked;
    }
  }

  // The grown file is well mapped on the disk as written so far.
  lemma GrownMapped(h: Header, d: Image, m: int, marked: set<nat>, h': Header, marked': set<nat>, newLength: nat, map': Sector)
    requires CanGrow(h, d, m, marked, newLength) && newLength > h.numBytes && Grew(h, marked, h', marked', newLength)
    ensures OnDisk(h'.hdrSector) && h'.hdrSector == h.hdrSector
    ensures WellMapped(h', Mid(d, m, h', map'))
    ensures forall k :: 0 <= k < h'.numSectors ==> BlockSector(h', Mid(d, m, h', map'), k) == BlockSector(h', d, k)
  {
    GrownBlocks(h, d, m, marked, h', marked', newLength);
    SameMapping(h', d, Mid(d, m, h', map'));
  }

  // new char[size]: garbage of that size.
  method NewBuffer(size: nat) returns (buf: seq<Byte>)
    ensures |buf| == size
  {
    assert |seq<Byte>(size, _ => 0)| == size;
    buf :| |buf| == size;
  }

  // ---------------------------------------------------------------- the open file

  class OpenFile {
    const disk: SectorDisk
    const fileSector: nat
    const hdr: FileHeader
    var seekPosition: nat

    ghost predicate Valid()
      reads hdr
    {
      hdr.Valid()
    }

    constructor (d: SectorDisk, sector: nat)
      requires sector < NumSectors
      ensures Valid() && fresh(hdr) && disk == d && fileSector == sector && seekPosition == 0
      ensures hdr.View() == Decode(d.image[sector])
    {
      disk := d;
      fileSector := sector;
      seekPosition := 0;
      hdr := new FileHeader();
      new;
      hdr.FetchFrom(disk, sector);
    }

    // Read the sectors first, ..., last into one buffer; None when the disk stops
    // the machine.
    method ReadBlocks(first: nat, last: nat) returns (buf: Option<seq<Byte>>)
      requires Valid() && first <= last < MaxSectors
      ensures buf.Some? <==> Located(hdr.View(), disk.image, first, last + 1)
      ensures buf.Some? ==> |buf.value| == (last + 1 - first) * SectorSize
      ensures buf.Some? ==> forall i :: first * SectorSize <= i < (last + 1) * SectorSize ==> buf.value[i - first * SectorSize] == RawByte(hdr.View(), disk.image, i)
    {
      var bytes: seq<Byte> := [];
      for i := first to last + 1
        invariant |bytes| == (i - first) * SectorSize && Located(hdr.View(), disk.image, first, i)
        invariant forall j :: 0 <= j < |bytes| ==> bytes[j] == RawByte(hdr.View(), disk.image, first * SectorSize + j)
      {
        var sector := hdr.ByteToSector(disk, i * SectorSize);
        if sector < 0 || sector >= NumSectors { return None; }
        var data := disk.ReadSector(sector);
        forall j | 0 <= j < SectorSize ensures data[j] == RawByte(hdr.View(), disk.image, i * SectorSize + j) {
          assert (i * SectorSize + j) / SectorSize == i && (i * SectorSize + j) % SectorSize == j;
        }
        bytes := bytes + data;
      }
      return Some(bytes);
    }

    // The bytes of the request that lie within the file.
    method ReadAt(numBytes: int, position: nat) returns (into: Option<seq<Byte>>)
      requires Valid() && Sized(hdr.View())
      ensures into.Some? <==> ReadLocated(hdr.View(), disk.image, numBytes, position)
      ensures into.Some? ==> into.value == Slice(Content(hdr.View(), disk.image), numBytes, position)
    {
      var fileLength := hdr.numBytes;
      if numBytes <= 0 || position >= fileLength { return Some([]); }
      var count := if position + numBytes > fileLength then fileLength - position else numBytes;
      var firstSector := position / SectorSize;
      var lastSector := (position + count - 1) / SectorSize;
      var buf := ReadBlocks(firstSector, lastSector);
      if buf == None { return None; }
      var skip := position - firstSector * SectorSize;
      var bytes := buf.value[skip..skip + count];
      forall j | 0 <= j < count ensures bytes[j] == Content(hdr.View(), disk.image)[position + j] {
        assert bytes[j] == buf.value[position + j - firstSector * SectorSize];
      }
      return Some(bytes);
    }

    // Read in the first sector, if it is only partly overwritten,
    method KeepFirst(garbage: seq<Byte>, position: nat, n: nat, ghost h: Header, ghost d: Image) returns (buf: Option<seq<Byte>>)
      requires Valid() && hdr.View() == h && disk.image == d && Sized(h) && Room(garbage, position, n)
      ensures buf.Some? <==> FirstAligned(position) || ReadLocated(h, d, SectorSize, First(position) * SectorSize)
      ensures buf.Some? ==> buf.value == FirstRead(Content(h, d), garbage, position, n)
    {
      buf := Some(garbage);
      if !FirstAligned(position) {
        var bytes := ReadAt(SectorSize, First(position) * SectorSize);
        if bytes == None { return None; }
        buf := Some(Overlay(garbage, 0, bytes.value));
      }
    }

    // and the last one.
    method KeepLast(b: seq<Byte>, position: nat, n: nat, ghost garbage: seq<Byte>, ghost h: Header, ghost d: Image) returns (buf: Option<seq<Byte>>)
      requires Valid() && hdr.View() == h && disk.image == d && Sized(h) && Room(garbage, position, n)
      requires b == FirstRead(Content(h, d), garbage, position, n)
      ensures buf.Some? <==> !ReadsLast(position, n) || ReadLocated(h, d, SectorSize, Last(position, n) * SectorSize)
      ensures buf.Some? ==> buf.value == LastRead(Content(h, d), garbage, position, n)
    {
      buf := Some(b);
      if ReadsLast(position, n) {
        var bytes := ReadAt(SectorSize, Last(position, n) * SectorSize);
        if bytes == None { return None; }
        buf := Some(Overlay(b, (Last(position, n) - First(position)) * SectorSize, bytes.value));
      }
    }

    // The buffer of a write: garbage, then the old bytes of a first or last sector that
    // is only partly overwritten, then the new bytes.
    method FillBuffer(from: seq<Byte>, position: nat, ghost h: Header, ghost d: Image) returns (buf: Option<seq<Byte>>, ghost garbage: seq<Byte>)
      requires Valid() && hdr.View() == h && disk.image == d
      requires Sized(h) && from != [] && Last(position, |from|) < MaxSectors
      ensures TailStarts(h, |from|, position, garbage)
      ensures buf.Some? <==> TailReads(h, d, from, position)
      ensures buf.Some? ==> buf.value == Prepared(Content(h, d), garbage, from, position)
    {
      var firstSector := position / SectorSize;
      var lastSector := (position + |from| - 1) / SectorSize;
      var space := NewBuffer((lastSector + 1 - firstSector) * SectorSize);
      garbage := space;
      buf := KeepFirst(space, position, |from|, h, d);
      if buf == None { return; }
      buf := KeepLast(buf.value, position, |from|, garbage, h, d);
      if buf == None { return; }
      buf := Some(Overlay(buf.value, position - firstSector * SectorSize, from));
    }

    // Write the modified sectors back.
    method WriteBlocks(buf: seq<Byte>, first: nat, last: nat, ghost h: Header, ghost d: Image) returns (stopped: bool)
      requires Valid() && hdr.View() == h && disk.image == d
      requires first <= last < MaxSectors && |buf| == (last + 1 - first) * SectorSize
      modifies disk
      ensures Written(disk.image, stopped) == WriteThrough(h, d, first, last + 1, first, buf)
    {
      for i := first to last + 1
        invariant WriteThrough(h, disk.image, i, last + 1, first, buf) == WriteThrough(h, d, first, last + 1, first, buf)
      {
        var sector := hdr.ByteToSector(disk, i * SectorSize);
        if sector < 0 || sector >= NumSectors { return true; }
        disk.WriteSector(sector, buf[(i - first) * SectorSize..(i - first + 1) * SectorSize]);
      }
      return false;
    }

    // The end of WriteAt.
    method WriteSectors(from: seq<Byte>, position: nat, ghost h: Header, ghost d: Image) returns (stopped: bool, ghost garbage: seq<Byte>)
      requires Valid() && hdr.View() == h && disk.image == d
      requires Sized(h) && from != [] && Last(position, |from|) < MaxSectors
      modifies disk
      ensures TailStarts(h, |from|, position, garbage)
      ensures Written(disk.image, stopped) == Tail(h, d, from, position, garbage)
    {
      var firstSector, lastSector := First(position), Last(position, |from|);
      FirstAndLast(position, |from|);
      var buf;
      buf, garbage := FillBuffer(from, position, h, d);
      TailIs(h, d, from, position, garbage);
      if buf == None { return true, garbage; }
      stopped := WriteBlocks(buf.value, firstSector, lastSector, h, d);
    }

    // Lines of WriteAt that extend the file: fetch the free map, grow the header,
    // write both back, whatever ExtendFile answers.  The free map file itself never
    // needs to grow, so the write nested in here does not come back to this point.
    method Extend(newLength: nat, ghost h: Header, ghost d: Image) returns (ghost h': Header, ghost mid: Image)
      requires Valid() && hdr.View() == h && disk.image == d && newLength > h.numBytes && InBounds(h, d, newLength)
      modifies hdr, disk
      ensures Valid() && hdr.View() == h' && disk.image == mid
      ensures ExtendedOn(h, d, h', mid, newLength)
      decreases 2
    {
      var freeMap := new BitMap(NumSectors);
      var freeMapFile := new OpenFile(disk, 0);
      FetchMap(freeMap, freeMapFile);
      h' := GrowHeader(freeMap, newLength);
      ghost var d1 := d[h'.hdrSector := Encode(h')];
      hdr.WriteBack(disk, hdr.hdrSector);
      SameMap(d, d1);
      WriteBackMap(freeMap, freeMapFile);
      mid := disk.image;
      ExtensionWritten(h, d, h', freeMap.Marked(), mid, newLength);
    }

    // The call of ExtendFile, whose answer nobody looks at.
    method GrowHeader(freeMap: BitMap, newLength: nat) returns (ghost h': Header)
      requires Valid() && freeMap.Valid() && freeMap.numBits == NumSectors
      requires 0 <= hdr.numBytes < newLength < 0x8000_0000 && hdr.numSectors >= 0
      requires SectorsFor(newLength) > hdr.numSectors ==> hdr.numSectors < NumDirect
      modifies hdr, freeMap.words
      ensures Valid() && hdr.View() == h' && h'.hdrSector == old(hdr.hdrSector)
      ensures Extends(old(hdr.View()), old(freeMap.Marked()), h', freeMap.Marked(), newLength)
    {
      SomeClear(freeMap.Marked(), NumSectors);
      var _ := hdr.ExtendFile(freeMap, newLength - hdr.numBytes);
      h' := hdr.View();
    }

    // The extension, if there is one.
    method Start(end: nat, ghost h: Header, ghost d: Image) returns (ghost h': Header, ghost mid: Image)
      requires Valid() && hdr.View() == h && disk.image == d && InBounds(h, d, end)
      modifies hdr, disk
      ensures Valid() && hdr.View() == h' && disk.image == mid
      ensures Started(h, d, h', mid, end) && Sized(h')
      decreases if end > hdr.numBytes then 3 else 0, 0
    {
      h', mid := h, d;
      if end > hdr.numBytes { h', mid := Extend(end, h, d); }
      StartedSized(h, d, h', mid, end);
    }

    // WriteAt with something to write.
    method WriteBytes(from: seq<Byte>, position: nat, ghost h: Header, ghost d: Image)
      returns (stopped: bool, ghost h': Header, ghost mid: Image, ghost garbage: seq<Byte>, ghost d': Image)
      requires Valid() && hdr.View() == h && disk.image == d && from != [] && InBounds(h, d, position + |from|)
      modifies hdr, disk
      ensures Valid() && hdr.View() == h' && disk.image == d'
      ensures Started(h, d, h', mid, position + |from|)
      ensures TailStarts(h', |from|, position, garbage)
      ensures Written(d', stopped) == Tail(h', mid, from, position, garbage)
      decreases if position + |from| > hdr.numBytes then 3 else 0, 1
    {
      LastInBounds(position, |from|);
      h', mid := Start(position + |from|, h, d);
      stopped, garbage := WriteSectors(from, position, h', mid);
      d' := disk.image;
    }

    // None when the disk stops the machine.
    method WriteAt(from: seq<Byte>, position: nat) returns (written: Option<nat>, ghost c: Call)
      requires Valid() && (from != [] ==> InBounds(hdr.View(), disk.image, position + |from|))
      modifies hdr, disk
      ensures Valid() && (written.Some? ==> written.value == |from|)
      ensures c.h == old(hdr.View()) && c.d == old(disk.image) && c.from == from && c.position == position
      ensures c.h' == hdr.View() && c.d' == disk.image && (c.stopped <==> written == None)
      ensures if from == [] then c.d' == c.d && c.h' == c.h && !c.stopped else Writes(c)
      decreases if position + |from| > hdr.numBytes then 3 else 0, 2
    {
      ghost var h, d := hdr.View(), disk.image;
      if from == [] { return Some(0), Call(h, d, from, position, [], h, d, d, false); }
      var stopped, h', mid, garbage, d' := WriteBytes(from, position, h, d);
      c := CallOf(h, d, from, position, garbage, h', mid, d', stopped);
      written := if stopped then None else Some(|from|);
    }
  }

  lemma CallOf(h: Header, d: Image, from: seq<Byte>, position: nat, garbage: seq<Byte>, h': Header, mid: Image, d': Image, stopped: bool) returns (c: Call)
    requires Started(h, d, h', mid, position + |from|) && TailStarts(h', |from|, position, garbage)
    requires Written(d', stopped) == Tail(h', mid, from, position, garbage)
    ensures Writes(c) && c == Call(h, d, from, position, garbage, h', mid, d', stopped)
  {
    c := Call(h, d, from, position, garbage, h', mid, d', stopped);
  }

  lemma ExtensionWritten(h: Header, d: Image, h': Header, marked': set<nat>, mid: Image, end: nat)
    requires MapFileOk(d) && MapFileOk(mid) && MapSector(mid) == MapSector(d) && MapBits(mid) == marked'
    requires Extends(h, MapBits(d), h', marked', end) && OnDisk(h'.hdrSector)
    requires mid == d[h'.hdrSector := Encode(h')][MapSector(d) := mid[MapSector(d)]]
    ensures ExtendedOn(h, d, h', mid, end)
  {
  }

  lemma StartedSized(h: Header, d: Image, h': Header, mid: Image, end: nat)
    requires InBounds(h, d, end) && Started(h, d, h', mid, end)
    ensures Sized(h')
  {
    InsideStarted(h, d, h', mid, end);
    if end > h.numBytes { StillSized(h, MapBits(d), h', MapBits(mid), end); }
  }

  lemma LastInBounds(position: nat, n: nat)
    requires n > 0 && SectorsFor(position + n) <= MaxSectors
    ensures Last(position, n) < MaxSectors
  {
    FirstAndLast(position, n);
  }

  // In terms of the file: a write within its length splices the bytes in,
  lemma WritesWithin(c: Call)
    requires WellMapped(c.h, c.d) && c.End() <= c.h.numBytes && Writes(c)
    ensures !c.stopped && c.h' == c.h && Spliced(c.h, c.d, c.d', c.from, c.position)
  {
    InsideStarted(c.h, c.d, c.h', c.mid, c.End());
    TailSplices(c.h, c.d, c.from, c.position, c.garbage);
  }

  // and one beyond it, where the file can grow, grows it and splices them in.
  lemma WritesBeyond(c: Call)
    requires MapFileOk(c.d) && CanGrow(c.h, c.d, MapSector(c.d), MapBits(c.d), c.End()) && c.End() > c.h.numBytes && Writes(c)
    ensures !c.stopped && GrownAndSpliced(c.h, c.d, c.h', c.d', c.from, c.position)
  {
    InsideStarted(c.h, c.d, c.h', c.mid, c.End());
    GrownThenSpliced(c.h, c.d, c.from, c.position, c.garbage, c.h', c.mid);
  }

  lemma GrownThenSpliced(h: Header, d: Image, from: seq<Byte>, position: nat, garbage: seq<Byte>, h': Header, mid: Image)
    requires MapFileOk(d) && CanGrow(h, d, MapSector(d), MapBits(d), position + |from|) && position + |from| > h.numBytes
    requires ExtendedOn(h, d, h', mid, position + |from|) && TailStarts(h', |from|, position, garbage)
    ensures var w := Tail(h', mid, from, position, garbage);
            !w.stopped && GrownAndSpliced(h, d, h', w.image, from, position)
  {
    ExtendsGrew(h, d, MapSector(d), MapBits(d), h', MapBits(mid), position + |from|);
    GrownMapped(h, d, MapSector(d), MapBits(d), h', MapBits(mid), position + |from|, mid[MapSector(d)]);
    TailSplices(h', mid, from, position, garbage);
    MapUntouched(h, d, h', mid, Tail(h', mid, from, position, garbage).image, from, position);
  }

  // ------------------------------------------------------- files of NumDirect sectors

  // The part of a file that ByteToSector finds: of a file of exactly NumDirect sectors,
  // those in the slots before the last one.
  function Found(h: Header): Header {
    if h.numSectors == NumDirect then h.(numBytes := (NumDirect - 1) * SectorSize, numSectors := NumDirect - 1) else h
  }

  // A file of exactly NumDirect sectors, whose length agrees.
  predicate LastSlotUsed(h: Header) {
    Shaped(h) && h.numSectors == NumDirect && (NumDirect - 1) * SectorSize < h.numBytes <= NumDirect * SectorSize
  }

  lemma LocatedFound(h: Header, d: Image, first: nat, end: nat)
    requires Shaped(h) && end <= MaxSectors
    ensures Located(h, d, first, end) <==> Located(Found(h), d, first, end)
  {
    assert forall k :: first <= k < end ==> BlockSector(Found(h), d, k) == BlockSector(h, d, k);
  }

  // A read within that part.
  lemma SliceFound(h: Header, d: Image, numBytes: int, position: nat)
    requires LastSlotUsed(h) && position + numBytes <= Found(h).numBytes
    ensures Slice(Content(h, d), numBytes, position) == Slice(Content(Found(h), d), numBytes, position)
  {
  }

  lemma ReadFound(h: Header, d: Image, numBytes: int, position: nat)
    requires LastSlotUsed(h) && position + numBytes <= Found(h).numBytes
    ensures ReadLocated(h, d, numBytes, position) <==> ReadLocated(Found(h), d, numBytes, position)
  {
    SliceFound(h, d, numBytes, position);
    var n := |Slice(Content(h, d), numBytes, position)|;
    if n > 0 {
      FirstAndLast(position, n);
      LocatedFound(h, d, First(position), Last(position, n) + 1);
    }
  }

  lemma {:induction false} WriteThroughFound(h: Header, d: Image, k: nat, end: nat, first: nat, buf: seq<Byte>)
    requires Shaped(h) && first <= k <= end <= MaxSectors && |buf| == (end - first) * SectorSize
    ensures WriteThrough(Found(h), d, k, end, first, buf) == WriteThrough(h, d, k, end, first, buf)
    decreases end - k
  {
    if k < end {
      var s := BlockSector(h, d, k);
      assert BlockSector(Found(h), d, k) == s;
      if OnDisk(s) { WriteThroughFound(h, d[s := buf[(k - first) * SectorSize..(k - first + 1) * SectorSize]], k + 1, end, first, buf); }
    }
  }

  lemma PreparedFound(h: Header, d: Image, garbage: seq<Byte>, from: seq<Byte>, position: nat)
    requires LastSlotUsed(h) && Room(garbage, position, |from|) && First(position) <= Last(position, |from|) < NumDirect - 1
    ensures Prepared(Content(h, d), garbage, from, position) == Prepared(Content(Found(h), d), garbage, from, position)
  {
    SliceFound(h, d, SectorSize, First(position) * SectorSize);
    SliceFound(h, d, SectorSize, Last(position, |from|) * SectorSize);
  }

  lemma TailReadsFound(h: Header, d: Image, from: seq<Byte>, position: nat)
    requires LastSlotUsed(h) && from != [] && First(position) <= Last(position, |from|) < NumDirect - 1
    ensures TailReads(h, d, from, position) <==> TailReads(Found(h), d, from, position)
  {
    ReadFound(h, d, SectorSize, First(position) * SectorSize);
    ReadFound(h, d, SectorSize, Last(position, |from|) * SectorSize);
  }

  // A write that ends before its last sector is a write to that part.
  lemma TailFound(h: Header, d: Image, from: seq<Byte>, position: nat, garbage: seq<Byte>)
    requires LastSlotUsed(h) && TailStarts(h, |from|, position, garbage) && First(position) <= Last(position, |from|) < NumDirect - 1
    ensures TailStarts(Found(h), |from|, position, garbage)
    ensures Tail(h, d, from, position, garbage) == Tail(Found(h), d, from, position, garbage)
  {
    assert TailReads(h, d, from, position) <==> TailReads(Found(h), d, from, position) by { TailReadsFound(h, d, from, position); }
    var buf := Prepared(Content(h, d), garbage, from, position);
    assert buf == Prepared(Content(Found(h), d), garbage, from, position) by { PreparedFound(h, d, garbage, from, position); }
    var first, end := First(position), Last(position, |from|) + 1;
    assert WriteThrough(Found(h), d, first, end, first, buf) == WriteThrough(h, d, first, end, first, buf) by {
      WriteThroughFound(h, d, first, end, first, buf);
    }
    TailIs(h, d, from, position, garbage);
    TailIs(Found(h), d, from, position, garbage);
  }

  lemma WritesFound(c: Call)
    requires LastSlotUsed(c.h) && WellMapped(Found(c.h), c.d) && SectorsFor(c.End()) < NumDirect && Writes(c)
    ensures !c.stopped && c.h' == c.h && Spliced(Found(c.h), c.d, c.d', c.from, c.position)
  {
    InsideStarted(c.h, c.d, c.h', c.mid, c.End());
    BeforeLast(c.position, |c.from|);
    TailFound(c.h, c.d, c.from, c.position, c.garbage);
    TailSplices(Found(c.h), c.d, c.from, c.position, c.garbage);
  }

  lemma BeforeLast(position: nat, n: nat)
    requires n > 0 && SectorsFor(position + n) < NumDirect
    ensures position + n <= (NumDirect - 1) * SectorSize && First(position) <= Last(position, n) < NumDirect - 1
  {
    FirstAndLast(position, n);
  }

  // OpenFile::Read; the synchronisation around it is the subject of module
  // ReadersWriters.
  method ReadNext(file: OpenFile, numBytes: int) returns (into: Option<seq<Byte>>)
    requires file.Valid() && Sized(file.hdr.View())
    modifies file`seekPosition
    ensures into.Some? <==> ReadLocated(file.hdr.View(), file.disk.image, numBytes, old(file.seekPosition))
    ensures into.Some? ==> into.value == Slice(Content(file.hdr.View(), file.disk.image), numBytes, old(file.seekPosition))
    ensures file.seekPosition == old(file.seekPosition) + if into.Some? then |into.value| else 0
  {
    into := file.ReadAt(numBytes, file.seekPosition);
    if into.Some? { file.seekPosition := file.seekPosition + |into.value|; }
  }

  // Reading in pieces gives the same bytes as reading at once.
  lemma ReadsAddUp(c: seq<Byte>, position: nat, a: nat, b: nat)
    ensures Slice(c, a, position) + Slice(c, b, position + |Slice(c, a, position)|) == Slice(c, a + b, position)
  {
  }

  // BitMap::FetchFrom
  method FetchMap(freeMap: BitMap, file: OpenFile)
    requires freeMap.Valid() && freeMap.numBits == NumSectors && file.Valid()
    requires MapFileOk(file.disk.image) && file.hdr.View() == Decode(file.disk.image[0])
    modifies freeMap.words
    ensures freeMap.Marked() == MapBits(file.disk.image)
  {
    ghost var d := file.disk.image;
    MapFileMapped(d);
    ReadsLocated(Decode(d[0]), d, freeMap.numWords * 4, 0);
    var bytes := file.ReadAt(freeMap.numWords * 4, 0);
    WholeSlice(Content(Decode(d[0]), d));
    LoadWords(freeMap, bytes.value);
  }

  lemma WholeSlice(c: seq<Byte>)
    ensures Slice(c, |c|, 0) == c
  {
  }

  method LoadWords(freeMap: BitMap, bytes: seq<Byte>)
    requires freeMap.Valid() && |bytes| == 4 * freeMap.numWords
    modifies freeMap.words
    ensures freeMap.words[..] == DecodeWords(bytes)
  {
    ghost var ws := DecodeWords(bytes);
    for i := 0 to freeMap.numWords
      invariant forall k :: 0 <= k < i ==> freeMap.words[k] == ws[k]
    {
      var w := DecodeWord(bytes[4 * i..4 * i + 4]);
      assert w == ws[i];
      freeMap.words[i] := w;
    }
  }

  // BitMap::WriteBack
  method WriteBackMap(freeMap: BitMap, file: OpenFile)
    requires freeMap.Valid() && freeMap.numBits == NumSectors && file.Valid()
    requires MapFileOk(file.disk.image) && file.hdr.View() == Decode(file.disk.image[0])
    modifies file.hdr, file.disk
    ensures file.Valid() && file.hdr.View() == old(file.hdr.View())
    ensures MapFileOk(file.disk.image) && MapSector(file.disk.image) == MapSector(old(file.disk.image))
    ensures MapBits(file.disk.image) == freeMap.Marked()
    ensures file.disk.image == old(file.disk.image)[MapSector(old(file.disk.image)) := file.disk.image[MapSector(old(file.disk.image))]]
    decreases 1
  {
    ghost var d := file.disk.image;
    MapFileMapped(d);
    var bytes := EncodeWords(freeMap.words[..]);
    var _, c := file.WriteAt(bytes, 0);
    WritesWithin(c);
    MapRewritten(d, file.disk.image, bytes);
    WordsRoundTrip(freeMap.words[..]);
  }

  lemma MapRewritten(d: Image, d': Image, bytes: seq<Byte>)
    requires MapFileOk(d) && |bytes| == SectorSize && WellMapped(Decode(d[0]), d) && Spliced(Decode(d[0]), d, d', bytes, 0)
    ensures MapFileOk(d') && MapSector(d') == MapSector(d) && d' == d[MapSector(d) := bytes]
  {
    MapFileMapped(d);
    OneBlockRewritten(Decode(d[0]), d, d', MapSector(d), bytes);
  }

  // A file of one sector that has been rewritten as a whole.
  lemma OneBlockRewritten(h: Header, d: Image, d': Image, m: int, bytes: seq<Byte>)
    requires WellMapped(h, d) && h.numSectors == 1 && h.numBytes == SectorSize == |bytes| && OnDisk(m) && BlockSector(h, d, 0) == m
    requires Spliced(h, d, d', bytes, 0)
    ensures d' == d[m := bytes]
  {
    forall s | 0 <= s < NumSectors && s != m ensures d'[s] == d[s] {
      assert !IsBlock(h, d, 0, h.numSectors, s);
    }
    forall i | 0 <= i < SectorSize ensures d'[m][i] == bytes[i] { OneBlockByte(h, d, d', m, bytes, i); }
    assert d'[m] == bytes;
  }

  lemma OneBlockByte(h: Header, d: Image, d': Image, m: int, bytes: seq<Byte>, i: nat)
    requires WellMapped(h, d) && h.numSectors == 1 && h.numBytes == SectorSize == |bytes| && OnDisk(m) && BlockSector(h, d, 0) == m
    requires Spliced(h, d, d', bytes, 0) && i < SectorSize
    ensures d'[m][i] == bytes[i]
  {
    assert BlockSector(h, d', 0) == m;
    assert RawByte(h, d', i) == bytes[i];
  }

  // A write that extended the file.
  ghost predicate GrownAndSpliced(h: Header, d: Image, h': Header, d': Image, from: seq<Byte>, position: nat) {
    && MapFileOk(d) && MapFileOk(d') && MapSector(d') == MapSector(d)
    && Grew(h, MapBits(d), h', MapBits(d'), position + |from|)
    && OnDisk(h'.hdrSector)
    && WellMapped(h', Mid(d, MapSector(d), h', d'[MapSector(d)]))
    && Spliced(h', Mid(d, MapSector(d), h', d'[MapSector(d)]), d', from, position)
  }

  // Writing the file's own blocks touches neither the free map nor its header.
  lemma BlocksApart(h: Header, d: Image, m: int, marked: set<nat>, h': Header, marked': set<nat>, mid: Image, d': Image, from: seq<Byte>, position: nat)
    requires CanGrow(h, d, m, marked, position + |from|) && position + |from| > h.numBytes
    requires Grew(h, marked, h', marked', position + |from|)
    requires OnDisk(h'.hdrSector) && mid == Mid(d, m, h', mid[m])
    requires WellMapped(h', mid) && Spliced(h', mid, d', from, position)
    ensures d'[m] == mid[m] && d'[0] == mid[0]
  {
    GrownBlocks(h, d, m, marked, h', marked', position + |from|);
    GrownMapped(h, d, m, marked, h', marked', position + |from|, mid[m]);
    assert !IsBlock(h', mid, 0, h'.numSectors, m);
    assert !IsBlock(h', mid, 0, h'.numSectors, 0);
  }

  lemma MapUntouched(h: Header, d: Image, h': Header, mid: Image, d': Image, from: seq<Byte>, position: nat)
    requires MapFileOk(d) && MapFileOk(mid) && MapSector(mid) == MapSector(d)
    requires CanGrow(h, d, MapSector(d), MapBits(d), position + |from|) && position + |from| > h.numBytes
    requires Grew(h, MapBits(d), h', MapBits(mid), position + |from|)
    requires OnDisk(h'.hdrSector) && mid == Mid(d, MapSector(d), h', mid[MapSector(d)])
    requires WellMapped(h', mid) && Spliced(h', mid, d', from, position)
    ensures GrownAndSpliced(h, d, h', d', from, position)
  {
    var m := MapSector(d);
    BlocksApart(h, d, m, MapBits(d), h', MapBits(mid), mid, d', from, position);
    SameMap(mid, d');
  }

  // ------------------------------------------------------ what a write means

  // In terms of bytes: a write within the file replaces a stretch of it,
  lemma SplicedContent(h: Header, d: Image, d': Image, from: seq<Byte>, position: nat)
    requires WellMapped(h, d) && position + |from| <= h.numBytes && Spliced(h, d, d', from, position)
    ensures Content(h, d') == Content(h, d)[..position] + from + Content(h, d)[position + |from|..]
  {
    var c, c' := Content(h, d), Content(h, d');
    var r := c[..position] + from + c[position + |from|..];
    forall i | 0 <= i < h.numBytes ensures c'[i] == r[i] {
      assert RawByte(h, d', i) == if position <= i < position + |from| then from[i - position] else RawByte(h, d, i);
    }
  }

  // and one that extends it keeps what was before the position and ends with the
  // new bytes; a gap in between holds what the sectors happened to hold.
  lemma GrownContent(h: Header, d: Image, m: int, marked: set<nat>, h': Header, marked': set<nat>, mid: Image, d': Image, from: seq<Byte>, position: nat)
    requires position + |from| > h.numBytes && CanGrow(h, d, m, marked, position + |from|)
    requires Grew(h, marked, h', marked', position + |from|)
    requires OnDisk(h'.hdrSector) && mid == Mid(d, m, h', mid[m]) && WellMapped(h', mid) && Spliced(h', mid, d', from, position)
    ensures WellMapped(h', d') && |Content(h', d')| == position + |from|
    ensures position <= h.numBytes ==> Content(h', d') == Content(h, d)[..position] + from
    ensures position > h.numBytes ==> Content(h', d')[..h.numBytes] == Content(h, d) && Content(h', d')[position..] == from
  {
    var c, c' := Content(h, d), Content(h', d');
    assert |c'| == position + |from|;
    forall i | 0 <= i < position + |from|
      ensures position <= i ==> c'[i] == from[i - position]
      ensures i < position && i < h.numBytes ==> c'[i] == c[i]
    {
      GrownByte(h, d, m, marked, h', marked', mid, d', from, position, i);
    }
  }

  lemma GrownByte(h: Header, d: Image, m: int, marked: set<nat>, h': Header, marked': set<nat>, mid: Image, d': Image, from: seq<Byte>, position: nat, i: nat)
    requires position + |from| > h.numBytes && CanGrow(h, d, m, marked, position + |from|)
    requires Grew(h, marked, h', marked', position + |from|)
    requires OnDisk(h'.hdrSector) && mid == Mid(d, m, h', mid[m]) && WellMapped(h', mid) && Spliced(h', mid, d', from, position)
    requires i < position + |from|
    ensures h'.numBytes == position + |from|
    ensures position <= i ==> RawByte(h', d', i) == from[i - position]
    ensures i < position && i < h.numBytes ==> RawByte(h', d', i) == RawByte(h, d, i)
  {
    assert RawByte(h', d', i) == if position <= i < position + |from| then from[i - position] else RawByte(h', mid, i);
    if i < position && i < h.numBytes {
      GrownBlocks(h, d, m, marked, h', marked', position + |from|);
      GrownMapped(h, d, m, marked, h', marked', position + |from|, mid[m]);
      KeptByte(h, d, m, h', mid, i);
    }
  }

  lemma KeptByte(h: Header, d: Image, m: int, h': Header, mid: Image, i: nat)
    requires WellMapped(h, d) && WellMapped(h', mid) && i < h.numBytes <= h'.numBytes && OnDisk(m) && OnDisk(h'.hdrSector)
    requires mid == Mid(d, m, h', mid[m])
    requires BlockSector(h', mid, i / SectorSize) == BlockSector(h, d, i / SectorSize)
    requires BlockSector(h, d, i / SectorSize) !in {m, h'.hdrSector}
    ensures RawByte(h', mid, i) == RawByte(h, d, i)
  {
  }
}

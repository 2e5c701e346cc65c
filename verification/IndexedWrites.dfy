/**
  Writes to a file with an index block.  The entries of the index block are written as
  ints and read back as one signed char each, so a write reaches the sectors that were
  allocated for it exactly when those of its blocks that go through the index block
  lie below 128.
 */
module IndexedWrites {
  import opened Common
  import opened Storage
  import opened Codec
  import opened FileHeaders
  import opened OpenFiles

  // A file of more than NumDirect sectors, as Allocate lays it out.
  ghost predicate IndexedFile(h: Header, d: Image, blocks: seq<int>) {
    && LaidOut(h, d, blocks) && |blocks| > NumDirect && NoDup(Claims(h, blocks))
    && 0 <= h.numBytes && |blocks| == SectorsFor(h.numBytes)
  }

  // The blocks first, ..., last can be read back from the index block, as far as they
  // go through it.
  predicate RangeReadable(blocks: seq<int>, first: nat, last: nat) {
    forall k :: first <= k <= last && NumDirect - 1 <= k < |blocks| ==> blocks[k] < 128
  }

  // A call of WriteAt that writes n bytes to the file at that position.
  ghost predicate CallOn(c: Call, h: Header, d: Image, position: nat, n: nat) {
    c.h == h && c.d == d && c.position == position && |c.from| == n && Writes(c)
  }

  // The bytes are in the blocks allocated for them, and no other sector has changed.
  ghost predicate LandsAs(w: Written, d: Image, blocks: seq<int>, from: seq<Byte>, position: nat) {
    && !w.stopped
    && (forall j :: 0 <= j < |from| ==> Holds(w.image, blocks, position + j, from[j]))
    && forall x :: OnDisk(x) && x !in blocks ==> w.image[x] == d[x]
  }

  ghost predicate Lands(c: Call, blocks: seq<int>) {
    LandsAs(Written(c.d', c.stopped), c.d, blocks, c.from, c.position)
  }

  // Byte i of a file with these blocks is b.
  predicate Holds(d: Image, blocks: seq<int>, i: nat, b: Byte) {
    i / SectorSize < |blocks| && OnDisk(blocks[i / SectorSize]) && d[blocks[i / SectorSize]][i % SectorSize] == b
  }

  // ------------------------------------------------------------------- where it lands

  lemma ReadableBlock(h: Header, d: Image, blocks: seq<int>, k: nat)
    requires IndexedFile(h, d, blocks) && k < |blocks|
    ensures BlockSector(h, d, k) == blocks[k] <==> k < NumDirect - 1 || blocks[k] < 128
  {
    if k < NumDirect - 1 {
      assert h.data[..NumDirect - 1][k] == blocks[..NumDirect - 1][k];
    } else {
      EntryReadBack(d[h.data[NumDirect - 1]], k - (NumDirect - 1), blocks[k]);
    }
  }

  // The blocks first, ..., end - 1 are where the table says, and the index block is not
  // among them.
  ghost predicate MappedRange(h: Header, d: Image, blocks: seq<int>, first: nat, end: nat) {
    && Shaped(h) && first <= end <= |blocks| <= MaxSectors && OnDisk(h.data[NumDirect - 1])
    && (forall k :: first <= k < end ==> OnDisk(blocks[k]) && BlockSector(h, d, k) == blocks[k] && blocks[k] != h.data[NumDirect - 1])
    && (forall j, k :: first <= j < k < end ==> blocks[j] != blocks[k])
  }

  // They have been written from a buffer up to block k.
  ghost predicate WrittenUpTo(d: Image, d': Image, blocks: seq<int>, first: nat, k: nat, buf: seq<Byte>)
    requires first <= k <= |blocks| && |buf| >= (k - first) * SectorSize
  {
    && (forall j :: first <= j < k ==> OnDisk(blocks[j]) && d'[blocks[j]] == buf[(j - first) * SectorSize..(j - first + 1) * SectorSize])
    && (forall x :: OnDisk(x) && (forall j :: first <= j < k ==> blocks[j] != x) ==> d'[x] == d[x])
  }

  lemma OneMore(h: Header, d: Image, d': Image, blocks: seq<int>, first: nat, k: nat, end: nat, buf: seq<Byte>)
    requires MappedRange(h, d, blocks, first, end) && first <= k < end && |buf| == (end - first) * SectorSize
    requires WrittenUpTo(d, d', blocks, first, k, buf)
    ensures BlockSector(h, d', k) == blocks[k] && OnDisk(blocks[k])
    ensures WrittenUpTo(d, d'[blocks[k] := buf[(k - first) * SectorSize..(k - first + 1) * SectorSize]], blocks, first, k + 1, buf)
  {
    assert d'[h.data[NumDirect - 1]] == d[h.data[NumDirect - 1]];
    assert BlockSector(h, d', k) == BlockSector(h, d, k);
    var d2 := d'[blocks[k] := buf[(k - first) * SectorSize..(k - first + 1) * SectorSize]];
    forall x | OnDisk(x) && (forall j :: first <= j < k + 1 ==> blocks[j] != x) ensures d2[x] == d[x] {
      assert blocks[k] != x;
    }
  }

  lemma {:induction false} ThroughBlocks(h: Header, d: Image, d': Image, blocks: seq<int>, k: nat, end: nat, first: nat, buf: seq<Byte>)
    requires MappedRange(h, d, blocks, first, end) && first <= k <= end && |buf| == (end - first) * SectorSize
    requires WrittenUpTo(d, d', blocks, first, k, buf)
    ensures var w := WriteThrough(h, d', k, end, first, buf);
            !w.stopped && WrittenUpTo(d, w.image, blocks, first, end, buf)
    decreases end - k
  {
    if k < end {
      OneMore(h, d, d', blocks, first, k, end, buf);
      ThroughBlocks(h, d, d'[blocks[k] := buf[(k - first) * SectorSize..(k - first + 1) * SectorSize]], blocks, k + 1, end, first, buf);
    }
  }

  // A read of one sector looks at one block.
  lemma BlockLocated(h: Header, d: Image, k: nat)
    requires Sized(h) && k < MaxSectors && OnDisk(BlockSector(h, d, k))
    ensures ReadLocated(h, d, SectorSize, k * SectorSize)
  {
    var n := |Slice(Content(h, d), SectorSize, k * SectorSize)|;
    if n > 0 { BlockAlone(k, n); }
  }

  lemma BlockAlone(k: nat, n: nat)
    requires 0 < n <= SectorSize
    ensures First(k * SectorSize) == k == Last(k * SectorSize, n)
  {
  }

  lemma RangeMapped(h: Header, d: Image, blocks: seq<int>, first: nat, last: nat)
    requires IndexedFile(h, d, blocks) && first <= last < |blocks| && RangeReadable(blocks, first, last)
    ensures MappedRange(h, d, blocks, first, last + 1)
  {
    var c := Claims(h, blocks);
    assert c[|blocks|] == h.data[NumDirect - 1];
    forall k | first <= k <= last ensures OnDisk(blocks[k]) && BlockSector(h, d, k) == blocks[k] && blocks[k] != h.data[NumDirect - 1] {
      ReadableBlock(h, d, blocks, k);
      assert c[k] == blocks[k];
    }
    forall j, k | first <= j < k <= last ensures blocks[j] != blocks[k] { assert c[j] == blocks[j] && c[k] == blocks[k]; }
  }

  lemma TailThrough(h: Header, d: Image, blocks: seq<int>, from: seq<Byte>, position: nat, garbage: seq<Byte>)
    requires TailStarts(h, |from|, position, garbage) && Last(position, |from|) < |blocks|
    requires MappedRange(h, d, blocks, First(position), Last(position, |from|) + 1)
    ensures var w, first, last := Tail(h, d, from, position, garbage), First(position), Last(position, |from|);
            !w.stopped && WrittenUpTo(d, w.image, blocks, first, last + 1, Prepared(Content(h, d), garbage, from, position))
  {
    FirstAndLast(position, |from|);
    var first, last := First(position), Last(position, |from|);
    assert OnDisk(blocks[first]) && OnDisk(blocks[last]);
    BlockLocated(h, d, first);
    BlockLocated(h, d, last);
    ThroughBlocks(h, d, d, blocks, first, last + 1, first, Prepared(Content(h, d), garbage, from, position));
  }

  // A byte of the buffer in its block.
  lemma ByteInBlock(d: Image, d': Image, blocks: seq<int>, first: nat, last: nat, buf: seq<Byte>, i: nat, b: Byte)
    requires first <= last < |blocks| && |buf| == (last + 1 - first) * SectorSize
    requires 0 <= i - first * SectorSize < |buf| && buf[i - first * SectorSize] == b
    requires WrittenUpTo(d, d', blocks, first, last + 1, buf)
    ensures Holds(d', blocks, i, b)
  {
    var k := i / SectorSize;
    assert first <= k <= last && i == k * SectorSize + i % SectorSize;
    assert d'[blocks[k]] == buf[(k - first) * SectorSize..(k - first + 1) * SectorSize];
  }

  lemma ReadableLands(c: Call, blocks: seq<int>)
    requires IndexedFile(c.h, c.d, blocks) && c.End() <= c.h.numBytes && Writes(c)
    requires RangeReadable(blocks, First(c.position), Last(c.position, |c.from|))
    ensures Lands(c, blocks)
  {
    WithinFile(c, blocks);
    ReadableTail(c.h, c.d, blocks, c.from, c.position, c.garbage);
  }

  lemma ReadableTail(h: Header, d: Image, blocks: seq<int>, from: seq<Byte>, position: nat, garbage: seq<Byte>)
    requires IndexedFile(h, d, blocks) && TailStarts(h, |from|, position, garbage) && First(position) <= Last(position, |from|) < |blocks|
    requires RangeReadable(blocks, First(position), Last(position, |from|))
    ensures LandsAs(Tail(h, d, from, position, garbage), d, blocks, from, position)
  {
    RangeMapped(h, d, blocks, First(position), Last(position, |from|));
    TailThrough(h, d, blocks, from, position, garbage);
    PreparedCarries(Content(h, d), garbage, from, position);
    WrittenLands(d, Tail(h, d, from, position, garbage).image, blocks, First(position), Last(position, |from|),
                 Prepared(Content(h, d), garbage, from, position), from, position);
  }

  // The buffer holds these bytes from an offset on.
  predicate Carries(buf: seq<Byte>, from: seq<Byte>, offset: nat) {
    offset + |from| <= |buf| && forall j :: 0 <= j < |from| ==> buf[offset + j] == from[j]
  }

  lemma PreparedCarries(c: seq<Byte>, garbage: seq<Byte>, from: seq<Byte>, position: nat)
    requires Room(garbage, position, |from|)
    ensures First(position) * SectorSize <= position && Carries(Prepared(c, garbage, from, position), from, position - First(position) * SectorSize)
  {
    FirstAndLast(position, |from|);
  }

  lemma WrittenLands(d: Image, d': Image, blocks: seq<int>, first: nat, last: nat, buf: seq<Byte>, from: seq<Byte>, position: nat)
    requires first <= last < |blocks| && |buf| == (last + 1 - first) * SectorSize && first * SectorSize <= position
    requires Carries(buf, from, position - first * SectorSize) && WrittenUpTo(d, d', blocks, first, last + 1, buf)
    ensures forall j :: 0 <= j < |from| ==> Holds(d', blocks, position + j, from[j])
    ensures forall x :: OnDisk(x) && x !in blocks ==> d'[x] == d[x]
  {
    forall j | 0 <= j < |from| ensures Holds(d', blocks, position + j, from[j]) {
      ByteInBlock(d, d', blocks, first, last, buf, position + j, from[j]);
    }
  }

  // A write within the file does not extend it and stays within its blocks.
  lemma WithinFile(c: Call, blocks: seq<int>)
    requires IndexedFile(c.h, c.d, blocks) && c.End() <= c.h.numBytes && Writes(c)
    ensures c.h' == c.h && c.mid == c.d && First(c.position) <= Last(c.position, |c.from|) < |blocks|
  {
    InsideStarted(c.h, c.d, c.h', c.mid, c.End());
    FirstAndLast(c.position, |c.from|);
  }

  // --------------------------------------------------------------- where it does not

  // A sector at 128 or above is reached through no index entry, so only through the
  // direct slots.
  lemma {:induction false} NeverReached(h: Header, d: Image, k: nat, end: nat, first: nat, buf: seq<Byte>, x: nat)
    requires Shaped(h) && first <= k <= end <= MaxSectors && |buf| == (end - first) * SectorSize
    requires 128 <= x < NumSectors && forall j :: 0 <= j < NumDirect - 1 ==> h.data[j] != x
    ensures WriteThrough(h, d, k, end, first, buf).image[x] == d[x]
    decreases end - k
  {
    if k < end {
      var s := BlockSector(h, d, k);
      if OnDisk(s) {
        assert s != x;
        NeverReached(h, d[s := buf[(k - first) * SectorSize..(k - first + 1) * SectorSize]], k + 1, end, first, buf, x);
      }
    }
  }

  lemma TailNeverReaches(h: Header, d: Image, from: seq<Byte>, position: nat, garbage: seq<Byte>, x: nat)
    requires TailStarts(h, |from|, position, garbage)
    requires 128 <= x < NumSectors && forall j :: 0 <= j < NumDirect - 1 ==> h.data[j] != x
    ensures Tail(h, d, from, position, garbage).image[x] == d[x]
  {
    TailIs(h, d, from, position, garbage);
    FirstAndLast(position, |from|);
    if TailReads(h, d, from, position) {
      NeverReached(h, d, First(position), Last(position, |from|) + 1, First(position), Prepared(Content(h, d), garbage, from, position), x);
    }
  }

  lemma NotDirect(h: Header, d: Image, blocks: seq<int>, k: nat)
    requires IndexedFile(h, d, blocks) && NumDirect - 1 <= k < |blocks|
    ensures forall j :: 0 <= j < NumDirect - 1 ==> h.data[j] != blocks[k]
  {
    var c := Claims(h, blocks);
    forall j | 0 <= j < NumDirect - 1 ensures h.data[j] != blocks[k] {
      assert h.data[..NumDirect - 1][j] == blocks[..NumDirect - 1][j];
      assert c[j] == blocks[j] && c[k] == blocks[k];
    }
  }

  // A byte of the write in block k.
  lemma ByteOfBlock(position: nat, n: nat, k: nat) returns (i: nat)
    requires n > 0 && First(position) <= k <= Last(position, n)
    ensures position <= i < position + n && i / SectorSize == k
  {
    FirstAndLast(position, n);
    i := if k * SectorSize < position then position else k * SectorSize;
  }

  lemma UnreadableCall(h: Header, d: Image, blocks: seq<int>, position: nat, n: nat, k: nat) returns (c: Call)
    requires IndexedFile(h, d, blocks) && n > 0 && position + n <= h.numBytes
    requires First(position) <= k <= Last(position, n) && NumDirect - 1 <= k < |blocks| && blocks[k] >= 128
    ensures CallOn(c, h, d, position, n) && !Lands(c, blocks)
  {
    var i := ByteOfBlock(position, n, k);
    var v: Byte := if d[blocks[k]][i % SectorSize] == 0 then 1 else 0;
    var from: seq<Byte> := seq(n, _ => v);
    FirstAndLast(position, n);
    var garbage: seq<Byte> := seq((Last(position, n) + 1 - First(position)) * SectorSize, _ => 0);
    var w := Tail(h, d, from, position, garbage);
    NotDirect(h, d, blocks, k);
    TailNeverReaches(h, d, from, position, garbage, blocks[k]);
    c := CallOf(h, d, from, position, garbage, h, d, w.image, w.stopped);
    assert c.from[i - position] == v && !Holds(c.d', blocks, position + (i - position), v);
  }

  // A write within a file with an index block lands in the blocks allocated for it and
  // nowhere else, whatever the bytes and the garbage, exactly when the blocks it goes to
  // through the index block lie below 128.
  lemma LandsIff(h: Header, d: Image, blocks: seq<int>, position: nat, n: nat)
    requires IndexedFile(h, d, blocks) && n > 0 && position + n <= h.numBytes
    ensures (forall c :: CallOn(c, h, d, position, n) ==> Lands(c, blocks)) <==> RangeReadable(blocks, First(position), Last(position, n))
  {
    if RangeReadable(blocks, First(position), Last(position, n)) {
      forall c | CallOn(c, h, d, position, n) ensures Lands(c, blocks) { ReadableLands(c, blocks); }
    } else {
      var k :| First(position) <= k <= Last(position, n) && NumDirect - 1 <= k < |blocks| && blocks[k] >= 128;
      var c := UnreadableCall(h, d, blocks, position, n, k);
    }
  }
}

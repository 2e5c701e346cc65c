/**
  The timing of the simulated disk: seeks, rotation and the track buffer.  The
  disk turns by one sector every RotationTime ticks, so during the slot
  [k * RotationTime, (k + 1) * RotationTime) the sector with offset
  k % SectorsPerTrack of the track under the head passes by.
 */
module DiskTiming {
  import opened Common
  import opened Storage

  const RotationTime: int := 500
  const SeekTime: int := 500

  function Track(sector: int): int { sector / SectorsPerTrack }

  function Abs(x: int): nat { if x < 0 then -x else x }

  // ------------------------------------------------------------------ arithmetic

  // How long the seek takes.
  function SeekTicks(last: nat, sector: nat): nat {
    Abs(Track(sector) - Track(last)) * SeekTime
  }

  // How long until the next sector boundary after the seek.
  function Rotation(now: nat, last: nat, sector: nat): nat {
    var over := (now + SeekTicks(last, sector)) % RotationTime;
    if over > 0 then RotationTime - over else 0
  }

  function ModuloDiff(to: nat, from: nat): nat {
    ((to % SectorsPerTrack - from % SectorsPerTrack) + SectorsPerTrack) % SectorsPerTrack
  }

  // The first sector boundary at which the head is settled on the new track.
  function TimeAfter(now: nat, last: nat, sector: nat): nat {
    now + SeekTicks(last, sector) + Rotation(now, last, sector)
  }

  predicate InBuffer(now: nat, last: nat, bufferInit: nat, sector: nat) {
    && SeekTicks(last, sector) == 0
    && (TimeAfter(now, last, sector) - bufferInit) / RotationTime > ModuloDiff(sector, bufferInit / RotationTime)
  }

  function Latency(now: nat, last: nat, bufferInit: nat, sector: nat, writing: bool): nat {
    if !writing && InBuffer(now, last, bufferInit, sector) then RotationTime
    else
      SeekTicks(last, sector) + Rotation(now, last, sector)
      + ModuloDiff(sector, TimeAfter(now, last, sector) / RotationTime) * RotationTime + RotationTime
  }

  predicate Boundary(t: nat) { t % RotationTime == 0 }

  // The requested sector passes by during slot k.
  predicate Passes(sector: nat, k: nat) { k % SectorsPerTrack == sector % SectorsPerTrack }

  lemma TimeAfterBoundary(now: nat, last: nat, sector: nat)
    ensures Boundary(TimeAfter(now, last, sector))
    ensures 0 <= TimeAfter(now, last, sector) - (now + SeekTicks(last, sector)) < RotationTime
  {
    var t := now + SeekTicks(last, sector);
    assert t == t / RotationTime * RotationTime + t % RotationTime;
  }

  // The seek time is a distance between tracks: zero exactly on the same track, the
  // same in both directions, SeekTime from one track to the next, and adding up along
  // the tracks; so it is never longer than a detour.
  lemma SeekIsDistance(a: nat, b: nat, c: nat)
    ensures SeekTicks(a, b) == 0 <==> Track(a) == Track(b)
    ensures SeekTicks(a, b) == SeekTicks(b, a)
    ensures SeekTicks(a, c) <= SeekTicks(a, b) + SeekTicks(b, c)
    ensures Track(b) == Track(a) + 1 ==> SeekTicks(a, b) == SeekTime
    ensures Track(a) <= Track(b) <= Track(c) ==> SeekTicks(a, c) == SeekTicks(a, b) + SeekTicks(b, c)
  {
  }

  // Tracks are the stretches of SectorsPerTrack sectors, from sector 0 on.
  lemma NextTrack(sector: nat)
    ensures Track(sector + SectorsPerTrack) == Track(sector) + 1
    ensures sector < SectorsPerTrack ==> Track(sector) == 0
    ensures Track(sector) <= Track(sector + 1) <= Track(sector) + 1
    ensures Track(sector + 1) == Track(sector) <==> !Passes(0, sector + 1)
  {
  }

  // ModuloDiff counts the slots until the sector's own slot begins: it is the
  // distance to the first slot at or after `from` in which the sector passes.
  lemma ModuloDiffFirst(sector: nat, from: nat)
    ensures ModuloDiff(sector, from) < SectorsPerTrack
    ensures Passes(sector, from + ModuloDiff(sector, from))
    ensures forall k :: from <= k < from + ModuloDiff(sector, from) ==> !Passes(sector, k)
  {
    var d := ModuloDiff(sector, from);
    var f, s := from % SectorsPerTrack, sector % SectorsPerTrack;
    assert from == from / SectorsPerTrack * SectorsPerTrack + f;
    assert d == if s >= f then s - f else s - f + SectorsPerTrack;
    forall k | from <= k < from + d ensures !Passes(sector, k) {
      assert k % SectorsPerTrack == (f + (k - from)) % SectorsPerTrack;
    }
  }

  // The read can be served from the buffer exactly when the sector passed, from
  // start to end, since the buffer began to be loaded.
  lemma InBufferIff(now: nat, last: nat, bufferInit: nat, sector: nat)
    requires Boundary(bufferInit) && bufferInit <= now && SeekTicks(last, sector) == 0
    ensures InBuffer(now, last, bufferInit, sector) <==>
            exists k: nat :: Passes(sector, k) && bufferInit <= k * RotationTime && (k + 1) * RotationTime <= TimeAfter(now, last, sector)
  {
    TimeAfterBoundary(now, last, sector);
    var b, e := bufferInit / RotationTime, TimeAfter(now, last, sector) / RotationTime;
    assert bufferInit == b * RotationTime && TimeAfter(now, last, sector) == e * RotationTime;
    ModuloDiffFirst(sector, b);
    var first := b + ModuloDiff(sector, b);
    assert InBuffer(now, last, bufferInit, sector) <==> first < e;
    if first < e {
      assert Passes(sector, first) && bufferInit <= first * RotationTime && (first + 1) * RotationTime <= TimeAfter(now, last, sector);
    }
    forall k: nat | Passes(sector, k) && bufferInit <= k * RotationTime && (k + 1) * RotationTime <= TimeAfter(now, last, sector)
      ensures first < e
    {
      assert b <= k < e;
    }
  }

  // Otherwise the request ends at a sector boundary, just after the requested
  // sector, and that is the first time the sector passes once the head has settled.
  lemma LatencyAligned(now: nat, last: nat, bufferInit: nat, sector: nat, writing: bool)
    requires writing || !InBuffer(now, last, bufferInit, sector)
    ensures var end := now + Latency(now, last, bufferInit, sector, writing);
            && Boundary(end)
            && end / RotationTime >= 1
            && var k := end / RotationTime - 1;
               && Passes(sector, k)
               && TimeAfter(now, last, sector) <= k * RotationTime
               && forall j: nat :: TimeAfter(now, last, sector) <= j * RotationTime && j < k ==> !Passes(sector, j)
  {
    TimeAfterBoundary(now, last, sector);
    var after := TimeAfter(now, last, sector);
    var e := after / RotationTime;
    ModuloDiffFirst(sector, e);
    FirstPassing(sector, after, e, e + ModuloDiff(sector, e), now + Latency(now, last, bufferInit, sector, writing));
  }

  // A request that ends with slot k, the first one from slot e on in which the sector
  // passes.
  lemma FirstPassing(sector: nat, after: nat, e: nat, k: nat, end: nat)
    requires after == e * RotationTime && e <= k && Passes(sector, k) && end == (k + 1) * RotationTime
    requires forall j :: e <= j < k ==> !Passes(sector, j)
    ensures Boundary(end) && end / RotationTime == k + 1 && after <= k * RotationTime
    ensures forall j: nat :: after <= j * RotationTime && j < k ==> !Passes(sector, j)
  {
  }

  // ---------------------------------------------------------------- head history

  // A seek: the head leaves at `at` and is settled on `track` from `settled` on.
  datatype Move = Move(at: nat, settled: nat, track: int)

  // The track under the head at time t, None while it moves.
  function TrackAt(moves: seq<Move>, t: nat): Option<int> {
    if moves == [] then None
    else
      var m := moves[|moves| - 1];
      if m.at <= t then (if m.settled <= t then Some(m.track) else None)
      else TrackAt(moves[..|moves| - 1], t)
  }

  // The sector passes under the head, from start to end, during slot k.
  ghost predicate PassesUnderHead(moves: seq<Move>, sector: nat, k: nat) {
    && Passes(sector, k)
    && forall t: nat :: k * RotationTime <= t < (k + 1) * RotationTime ==> TrackAt(moves, t) == Some(Track(sector))
  }

  lemma SettledAfter(moves: seq<Move>, t: nat)
    requires moves != [] && moves[|moves| - 1].at <= moves[|moves| - 1].settled <= t
    ensures TrackAt(moves, t) == Some(moves[|moves| - 1].track)
  {
  }

  // ------------------------------------------------------------------- the device

  class Disk {
    var lastSector: nat
    var bufferInit: nat
    var active: bool

    ghost var clock: nat          // the latest time the device has seen
    ghost var doneAt: nat         // when the latest request completes
    ghost var moves: seq<Move>

    // The buffer has been loading since the head settled on the track of the
    // latest request, and the head has not left that track since.
    ghost predicate Valid()
      reads this
    {
      && Boundary(bufferInit)
      && moves != []
      && moves[|moves| - 1].at <= moves[|moves| - 1].settled == bufferInit
      && moves[|moves| - 1].track == Track(lastSector)
      && bufferInit <= doneAt
      && (!active ==> doneAt <= clock)
    }

    constructor ()
      ensures Valid() && !active && clock == 0 && lastSector == 0 && bufferInit == 0
    {
      lastSector, bufferInit, active := 0, 0, false;
      clock, doneAt, moves := 0, 0, [Move(0, 0, 0)];
    }

    method UpdateLast(now: nat, newSector: nat)
      modifies this`lastSector, this`bufferInit
      ensures lastSector == newSector
      ensures bufferInit == if SeekTicks(old(lastSector), newSector) != 0 then TimeAfter(now, old(lastSector), newSector) else old(bufferInit)
    {
      var rotate := Rotation(now, lastSector, newSector);
      var seek := SeekTicks(lastSector, newSector);
      if seek != 0 { bufferInit := now + seek + rotate; }
      lastSector := newSector;
    }

    // ReadRequest and WriteRequest.  None when an ASSERT stops the machine: a
    // request is under way, or there is no such sector.
    method Request(now: nat, sector: int, writing: bool) returns (ticks: Option<nat>)
      requires Valid() && clock <= now
      modifies this
      ensures Valid()
      ensures ticks == None <==> old(active) || !(0 <= sector < NumSectors)
      ensures ticks == None ==> unchanged(this)
      ensures ticks.Some? ==> active && lastSector == sector && doneAt == now + ticks.value && clock == now
      ensures ticks.Some? && !writing && InBuffer(now, old(lastSector), old(bufferInit), sector) ==>
                && ticks.value == RotationTime && moves == old(moves)
                && exists k: nat :: PassesUnderHead(moves, sector, k) && old(bufferInit) <= k * RotationTime
                                    && (k + 1) * RotationTime <= TimeAfter(now, old(lastSector), sector)
      ensures ticks.Some? && (writing || !InBuffer(now, old(lastSector), old(bufferInit), sector)) ==>
                && Boundary(doneAt) && doneAt / RotationTime >= 1
                && var k := doneAt / RotationTime - 1;
                   && PassesUnderHead(moves, sector, k) && TimeAfter(now, old(lastSector), sector) <= k * RotationTime
                   && forall j: nat :: TimeAfter(now, old(lastSector), sector) <= j * RotationTime && j < k ==> !PassesUnderHead(moves, sector, j)
    {
      if active || !(0 <= sector < NumSectors) { return None; }
      var latency := Latency(now, lastSector, bufferInit, sector, writing);
      ghost var last, buffer, after := lastSector, bufferInit, TimeAfter(now, lastSector, sector);
      TimeAfterBoundary(now, last, sector);
      if SeekTicks(last, sector) != 0 { moves := moves + [Move(now, after, Track(sector))]; }
      active := true;
      UpdateLast(now, sector);
      clock, doneAt := now, now + latency;
      SectorSettled(sector);
      if !writing && InBuffer(now, last, buffer, sector) {
        InBufferIff(now, last, buffer, sector);
        ghost var k: nat :| Passes(sector, k) && buffer <= k * RotationTime && (k + 1) * RotationTime <= after;
        assert PassesUnderHead(moves, sector, k);
      } else {
        LatencyAligned(now, last, buffer, sector, writing);
        assert PassesUnderHead(moves, sector, doneAt / RotationTime - 1);
      }
      ticks := Some(latency);
    }

    lemma SectorSettled(sector: nat)
      requires moves != [] && moves[|moves| - 1].at <= moves[|moves| - 1].settled == bufferInit && moves[|moves| - 1].track == Track(sector)
      ensures forall t: nat :: bufferInit <= t ==> TrackAt(moves, t) == Some(Track(sector))
    {
      forall t: nat | bufferInit <= t ensures TrackAt(moves, t) == Some(Track(sector)) {
        SettledAfter(moves, t);
      }
    }

    // The completion interrupt never comes early.
    method HandleInterrupt(now: nat)
      requires Valid() && clock <= now && (active ==> doneAt <= now)
      modifies this
      ensures Valid() && !active && clock == now
      ensures lastSector == old(lastSector) && bufferInit == old(bufferInit) && moves == old(moves) && doneAt == old(doneAt)
    {
      active := false;
      clock := now;
    }
  }
}

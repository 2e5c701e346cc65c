// Every transition of the kernel keeps its invariant, so every run does.
module KernelSafety {
  import opened Common
  import opened Kernel

  lemma ListsTail(q: seq<Tid>, x: set<Tid>)
    requires Lists(q, x) && q != []
    ensures q[0] in x && Lists(q[1..], x - {q[0]})
  {
    assert q[0] in q;
    forall t ensures t in q[1..] <==> t in x - {q[0]} {
      if t in x - {q[0]} {
        var k :| 0 <= k < |q| && q[k] == t;
        assert q[1..][k - 1] == t;
      }
    }
  }

  lemma ListsSnoc(q: seq<Tid>, x: set<Tid>, t: Tid)
    requires Lists(q, x) && t !in x
    ensures Lists(q + [t], x + {t})
  {
    forall i, j | 0 <= i < j < |q + [t]| ensures (q + [t])[i] != (q + [t])[j] {
      assert q[i] in q;
    }
  }

  lemma Shaped(s: State)
    requires Placed(s)
    ensures WellShaped(s)
  {
    forall i, k | 0 <= i < |s.sems| && 0 <= k < |s.sems[i].queue| ensures s.sems[i].queue[k] < |s.point| {
      assert s.sems[i].queue[k] in SemSleepers(s, i);
    }
    forall c, k | 0 <= c < |s.conds| && 0 <= k < |s.conds[c]| ensures s.conds[c][k] < |s.point| {
      assert s.conds[c][k] in CondSleepers(s, c);
    }
  }

  // The queues of s, except that of semaphore i and condition c, are as in r.
  ghost predicate OtherQueues(r: State, s: State, i: int, c: int) {
    && |s.sems| == |r.sems| && |s.conds| == |r.conds|
    && (forall j :: 0 <= j < |s.sems| && j != i ==> s.sems[j].queue == r.sems[j].queue && SemSleepers(s, j) == SemSleepers(r, j))
    && (forall d :: 0 <= d < |s.conds| && d != c ==> s.conds[d] == r.conds[d] && CondSleepers(s, d) == CondSleepers(r, d))
  }

  // The idle loop: hand the processor to the head of the ready list.
  lemma DispatchPlaced(s: State)
    requires Placed(s) && s.idle
    ensures WellShaped(s) && Placed(Dispatch(s))
  {
    Shaped(s);
    if s.ready != [] {
      var s' := Dispatch(s);
      ListsTail(s.ready, ReadySet(s));
      assert ReadySet(s') == ReadySet(s) - {s.ready[0]};
      assert OtherQueues(s, s', -1, -1);
    }
  }

  // The state just before the processor is handed over: the running thread has
  // moved to point p and joined the queues its caller put it on.
  function Parked(s: State, p: Point): State
    requires s.current < |s.status| == |s.point|
  {
    s.(point := s.point[s.current := p],
       status := s.status[s.current := if Runnable(p) then Ready else Blocked],
       idle := true)
  }

  lemma ParkOnSemPlaced(s: State, i: SemId)
    requires Placed(s) && !s.idle && i < |s.sems|
    ensures Placed(Parked(s.(sems := s.sems[i := s.sems[i].(queue := s.sems[i].queue + [s.current])]), AsleepOn(i)))
  {
    var s' := Parked(s.(sems := s.sems[i := s.sems[i].(queue := s.sems[i].queue + [s.current])]), AsleepOn(i));
    assert ReadySet(s') == ReadySet(s);
    ListsSnoc(s.sems[i].queue, SemSleepers(s, i), s.current);
    assert SemSleepers(s', i) == SemSleepers(s, i) + {s.current};
    assert OtherQueues(s, s', i, -1);
  }

  lemma ParkInCondPlaced(s: State, c: CondId)
    requires Placed(s) && !s.idle && c < |s.conds|
    ensures Placed(Parked(s.(conds := s.conds[c := s.conds[c] + [s.current]]), AsleepIn(c)))
  {
    var s' := Parked(s.(conds := s.conds[c := s.conds[c] + [s.current]]), AsleepIn(c));
    assert ReadySet(s') == ReadySet(s);
    ListsSnoc(s.conds[c], CondSleepers(s, c), s.current);
    assert CondSleepers(s', c) == CondSleepers(s, c) + {s.current};
    assert OtherQueues(s, s', -1, c);
  }

  lemma ParkReadyPlaced(s: State)
    requires Placed(s) && Free(s)
    ensures Placed(Parked(s.(ready := s.ready + [s.current]), InCode))
  {
    var s' := Parked(s.(ready := s.ready + [s.current]), InCode);
    ListsSnoc(s.ready, ReadySet(s), s.current);
    assert ReadySet(s') == ReadySet(s) + {s.current};
    assert OtherQueues(s, s', -1, -1);
  }

  lemma ParkFinishedPlaced(s: State)
    requires Placed(s) && !s.idle
    ensures Placed(Parked(s, Finished))
  {
    var s' := Parked(s, Finished);
    assert ReadySet(s') == ReadySet(s);
    assert OtherQueues(s, s', -1, -1);
  }

  lemma WakeFromSemPlaced(s: State, i: SemId)
    requires Placed(s) && i < |s.sems|
    ensures WellShaped(s) && Placed(SemV(s, i))
  {
    Shaped(s);
    var s' := SemV(s, i);
    if s.sems[i].queue == [] {
      assert ReadySet(s') == ReadySet(s);
      assert SemSleepers(s', i) == SemSleepers(s, i);
      assert OtherQueues(s, s', i, -1);
    } else {
      var t := s.sems[i].queue[0];
      ListsTail(s.sems[i].queue, SemSleepers(s, i));
      ListsSnoc(s.ready, ReadySet(s), t);
      assert ReadySet(s') == ReadySet(s) + {t};
      assert SemSleepers(s', i) == SemSleepers(s, i) - {t};
      assert OtherQueues(s, s', i, -1);
    }
  }

  lemma WakeFromCondPlaced(s: State, c: CondId)
    requires Placed(s) && c < |s.conds|
    ensures WellShaped(s) && Placed(CondSignal(s, c))
  {
    Shaped(s);
    if s.conds[c] != [] {
      var s' := CondSignal(s, c);
      var t := s.conds[c][0];
      ListsTail(s.conds[c], CondSleepers(s, c));
      ListsSnoc(s.ready, ReadySet(s), t);
      assert ReadySet(s') == ReadySet(s) + {t};
      assert CondSleepers(s', c) == CondSleepers(s, c) - {t};
      assert OtherQueues(s, s', -1, c);
    }
  }

  lemma ForkPlaced(s: State, t: Tid)
    requires Placed(s) && Enabled(s, DoFork(t))
    ensures Placed(Fork(s, t))
  {
    var s' := Fork(s, t);
    ListsSnoc(s.ready, ReadySet(s), t);
    assert ReadySet(s') == ReadySet(s) + {t};
    assert OtherQueues(s, s', -1, -1);
  }

  lemma CreatePlaced(s: State)
    requires Placed(s)
    ensures Placed(Create(s))
  {
    var s' := Create(s);
    assert ReadySet(s') == ReadySet(s);
    assert OtherQueues(s, s', -1, -1);
  }

  // ------------------------------------------------------------------ deletion

  lemma ReapingKept(s: State, s': State)
    requires Reaping(s) && s'.doomed == s.doomed && s'.destroyed == s.destroyed
    requires |s.point| <= |s'.point|
    requires forall t :: 0 <= t < |s.point| && s.point[t] == Finished ==> s'.point[t] == Finished
    ensures Reaping(s')
  {
  }

  lemma DispatchReaps(s: State)
    requires WellShaped(s) && Reaping(s)
    ensures Reaping(Dispatch(s))
  {
  }

  // ------------------------------------------------------------------ counting

  ghost predicate AllAccounted(s: State) {
    forall i :: 0 <= i < |s.sems| ==> Accounted(s, i)
  }

  // The same units, and the same threads about to look at them.
  lemma AccountedKept(s: State, s': State)
    requires AllAccounted(s) && s'.sems == s.sems
    requires forall i :: 0 <= i < |s.sems| ==> Checkers(s', i) == Checkers(s, i)
    ensures AllAccounted(s')
  {
    forall i | 0 <= i < |s.sems| ensures Accounted(s', i) {
      assert Accounted(s, i) && Checkers(s', i) == Checkers(s, i);
    }
  }

  lemma PCounts(s: State, i: SemId)
    requires WellShaped(s) && AllAccounted(s) && Enabled(s, DoP(i))
    ensures AllAccounted(SemP(s, i))
  {
    var s' := SemP(s, i);
    forall j | 0 <= j < |s.sems| ensures Accounted(s', j) {
      assert Accounted(s, j);
      if i == j {
        assert Checkers(s', j) == Checkers(s, j) - {s.current};
      } else {
        assert s'.sems[j] == s.sems[j];
        assert Checkers(s', j) == Checkers(s, j);
      }
    }
  }

  lemma VCounts(s: State, i: SemId)
    requires Placed(s) && WellShaped(s) && AllAccounted(s) && i < |s.sems|
    ensures AllAccounted(SemV(s, i))
  {
    var s' := SemV(s, i);
    if s.sems[i].queue != [] {
      ListsTail(s.sems[i].queue, SemSleepers(s, i));
      assert Checkers(s', i) == Checkers(s, i) + {s.sems[i].queue[0]};
    }
    assert Accounted(s, i) && Accounted(s', i);
    forall j | 0 <= j < |s.sems| && j != i ensures Accounted(s', j) {
      assert Accounted(s, j) && s'.sems[j] == s.sems[j];
      assert Checkers(s', j) == Checkers(s, j);
    }
  }

  // --------------------------------------------------------------- transitions

  lemma PBlocks(s: State, i: SemId)
    requires Placed(s) && Reaping(s) && Enabled(s, DoP(i)) && s.sems[i].value == 0
    ensures WellShaped(s) && Placed(SemP(s, i)) && Reaping(SemP(s, i))
  {
    Shaped(s);
    ParkOnSemPlaced(s, i);
    var parked := Parked(s.(sems := s.sems[i := s.sems[i].(queue := s.sems[i].queue + [s.current])]), AsleepOn(i));
    ReapingKept(s, parked);
    DispatchPlaced(parked);
    DispatchReaps(parked);
    assert SemP(s, i) == Dispatch(parked);
  }

  lemma PPasses(s: State, i: SemId)
    requires Placed(s) && Reaping(s) && Enabled(s, DoP(i)) && s.sems[i].value > 0
    ensures WellShaped(s) && Placed(SemP(s, i)) && Reaping(SemP(s, i))
  {
    Shaped(s);
    var s' := SemP(s, i);
    assert ReadySet(s') == ReadySet(s);
    assert SemSleepers(s', i) == SemSleepers(s, i);
    assert OtherQueues(s, s', i, -1);
    ReapingKept(s, s');
  }

  lemma PKeeps(s: State, i: SemId)
    requires Inv(s) && Enabled(s, DoP(i))
    ensures WellShaped(s) && Inv(SemP(s, i))
  {
    if s.sems[i].value == 0 { PBlocks(s, i); } else { PPasses(s, i); }
    PCounts(s, i);
  }

  lemma VKeeps(s: State, i: SemId)
    requires Inv(s) && i < |s.sems|
    ensures WellShaped(s) && Inv(SemV(s, i))
  {
    WakeFromSemPlaced(s, i);
    VCounts(s, i);
    if s.sems[i].queue != [] {
      ListsTail(s.sems[i].queue, SemSleepers(s, i));
    }
    ReapingKept(s, SemV(s, i));
  }

  lemma PollKeeps(s: State)
    requires Inv(s) && s.idle
    ensures WellShaped(s) && Inv(Dispatch(s))
  {
    DispatchPlaced(s);
    DispatchReaps(s);
    AccountedKept(s, Dispatch(s));
  }

  lemma YieldKeeps(s: State)
    requires Inv(s) && Free(s)
    ensures WellShaped(s) && Inv(Yield(s))
  {
    Shaped(s);
    if s.ready != [] {
      var parked := Parked(s.(ready := s.ready + [s.current]), InCode);
      ParkReadyPlaced(s);
      ReapingKept(s, parked);
      AccountedKept(s, parked);
      PollKeeps(parked);
      assert Yield(s) == Dispatch(parked);
    }
  }

  lemma FinishKeeps(s: State)
    requires Inv(s) && Free(s)
    ensures WellShaped(s) && Inv(Finish(s))
  {
    Shaped(s);
    var parked := Parked(s.(doomed := Some(s.current)), Finished);
    ParkFinishedPlaced(s.(doomed := Some(s.current)));
    AccountedKept(s, parked);
    PollKeeps(parked);
    assert Finish(s) == Dispatch(parked);
  }

  lemma WaitKeeps(s: State, c: CondId)
    requires Inv(s) && Enabled(s, DoWait(c))
    ensures WellShaped(s) && Inv(CondSleep(s, c))
  {
    Shaped(s);
    var parked := Parked(s.(conds := s.conds[c := s.conds[c] + [s.current]]), AsleepIn(c));
    ParkInCondPlaced(s, c);
    ReapingKept(s, parked);
    AccountedKept(s, parked);
    PollKeeps(parked);
    assert CondSleep(s, c) == Dispatch(parked);
  }

  lemma SignalKeeps(s: State, c: CondId)
    requires Inv(s) && c < |s.conds|
    ensures WellShaped(s) && Inv(CondSignal(s, c))
  {
    WakeFromCondPlaced(s, c);
    if s.conds[c] != [] {
      ListsTail(s.conds[c], CondSleepers(s, c));
    }
    ReapingKept(s, CondSignal(s, c));
    AccountedKept(s, CondSignal(s, c));
  }

  // A broadcast makes every waiter ready, in the order of the queue, and touches
  // nothing else.
  lemma {:induction false} BroadcastWakesAll(s: State, c: CondId)
    requires Inv(s) && c < |s.conds|
    ensures WellShaped(s) && Inv(CondBroadcast(s, c))
    ensures var s' := CondBroadcast(s, c);
            && s'.ready == s.ready + s.conds[c] && s'.conds == s.conds[c := []] && s'.sems == s.sems
            && |s'.point| == |s.point| && s'.current == s.current && s'.idle == s.idle
            && forall t :: 0 <= t < |s.point| ==> s'.point[t] == if t in s.conds[c] then InCode else s.point[t]
    decreases |s.conds[c]|
  {
    Shaped(s);
    if s.conds[c] != [] {
      var n := CondSignal(s, c);
      SignalKeeps(s, c);
      SignalShaped(s, c);
      BroadcastWakesAll(n, c);
      assert s.conds[c] == [s.conds[c][0]] + s.conds[c][1..];
    }
  }

  lemma ForkKeeps(s: State, t: Tid)
    requires Inv(s) && Enabled(s, DoFork(t))
    ensures Inv(Fork(s, t))
  {
    ForkPlaced(s, t);
    ReapingKept(s, Fork(s, t));
    AccountedKept(s, Fork(s, t));
  }

  lemma CreateKeeps(s: State)
    requires Inv(s)
    ensures Inv(Create(s))
  {
    CreatePlaced(s);
    ReapingKept(s, Create(s));
    AccountedKept(s, Create(s));
  }

  lemma StepKeeps(s: State, l: Label)
    requires Inv(s) && Enabled(s, l)
    ensures WellShaped(s) && Inv(Apply(s, l))
  {
    Shaped(s);
    match l
    case DoCreate => CreateKeeps(s);
    case DoFork(t) => ForkKeeps(s, t);
    case DoYield => YieldKeeps(s);
    case DoFinish => FinishKeeps(s);
    case DoP(i) => PKeeps(s, i);
    case DoV(i) => VKeeps(s, i);
    case DoWait(c) => WaitKeeps(s, c);
    case DoSignal(c) => SignalKeeps(s, c);
    case DoPoll => PollKeeps(s);
  }

  lemma BootInv(initials: seq<nat>, conditions: nat)
    ensures Inv(Boot(initials, conditions))
  {
  }

  // ------------------------------------------------------------------- effects

  // What the operations do, as seen by a protocol built on them: which units,
  // which queues and which points change.

  ghost predicate SameShape(s: State, s': State) {
    |s'.point| == |s.point| && |s'.sems| == |s.sems| && |s'.conds| == |s.conds|
  }

  ghost predicate PointsExcept(s: State, s': State, t: Tid) {
    |s'.point| == |s.point| && forall u :: 0 <= u < |s.point| && u != t ==> s'.point[u] == s.point[u]
  }

  ghost predicate PEffect(s: State, s': State, i: SemId) {
    && SameShape(s, s') && i < |s.sems| && s.current < |s.point|
    && PointsExcept(s, s', s.current)
    && s'.conds == s.conds
    && (forall j :: 0 <= j < |s.sems| && j != i ==> s'.sems[j] == s.sems[j])
    && (s.sems[i].value > 0 ==> s'.sems[i].value == s.sems[i].value - 1 && s'.point[s.current] == InCode)
    && (s.sems[i].value == 0 ==> s'.sems[i].value == 0 && s'.point[s.current] == AsleepOn(i))
  }

  lemma PHasEffect(s: State, i: SemId)
    requires WellShaped(s) && i < |s.sems|
    ensures PEffect(s, SemP(s, i), i)
  {
  }

  ghost predicate VEffect(s: State, s': State, i: SemId) {
    && SameShape(s, s') && i < |s.sems|
    && s'.conds == s.conds
    && (forall j :: 0 <= j < |s.sems| && j != i ==> s'.sems[j] == s.sems[j])
    && s'.sems[i].value == s.sems[i].value + 1
    && s'.current == s.current && s'.idle == s.idle
    && forall u :: 0 <= u < |s.point| ==>
          s'.point[u] == s.point[u] || (s.point[u] == AsleepOn(i) && s'.point[u] == Checking(i))
  }

  lemma VHasEffect(s: State, i: SemId)
    requires Placed(s) && WellShaped(s) && i < |s.sems|
    ensures VEffect(s, SemV(s, i), i)
  {
    if s.sems[i].queue != [] { ListsTail(s.sems[i].queue, SemSleepers(s, i)); }
  }

  lemma PGives(s: State, i: SemId)
    requires Inv(s) && Enabled(s, DoP(i))
    ensures WellShaped(s) && PEffect(s, SemP(s, i), i) && Inv(SemP(s, i))
  {
    PKeeps(s, i);
    PHasEffect(s, i);
  }

  lemma VGives(s: State, i: SemId)
    requires Inv(s) && i < |s.sems|
    ensures WellShaped(s) && VEffect(s, SemV(s, i), i) && Inv(SemV(s, i))
  {
    VKeeps(s, i);
    VHasEffect(s, i);
  }

  // Thread t is executing code.
  ghost predicate InCharge(s: State, t: Tid) {
    && WellShaped(s) && Free(s) && s.current == t
    && forall i, k :: 0 <= i < |s.sems| && 0 <= k < |s.sems[i].queue| ==> s.sems[i].queue[k] != t
  }

  lemma FreeInCharge(s: State)
    requires Inv(s) && Free(s)
    ensures InCharge(s, s.current)
  {
    Shaped(s);
    forall i, k | 0 <= i < |s.sems| && 0 <= k < |s.sems[i].queue| ensures s.sems[i].queue[k] != s.current {
      assert s.sems[i].queue[k] in SemSleepers(s, i);
    }
  }

  // The units of the semaphores, but for one more or one less of i, and the conditions
  // are as they were.
  ghost predicate UnitsMoved(s: State, s': State, i: SemId, change: int) {
    && i < |s.sems| == |s'.sems| && |s'.point| == |s.point| && s'.conds == s.conds
    && s'.sems[i].value == s.sems[i].value + change
    && forall j :: 0 <= j < |s.sems| && j != i ==> s'.sems[j] == s.sems[j]
  }

  // A P that finds a unit returns at once, and so does every V.
  lemma PReturns(s: State, i: SemId, t: Tid)
    requires InCharge(s, t) && i < |s.sems| && s.sems[i].value > 0
    ensures InCharge(SemP(s, i), t) && UnitsMoved(s, SemP(s, i), i, -1)
  {
  }

  lemma VReturns(s: State, i: SemId, t: Tid)
    requires InCharge(s, t) && i < |s.sems|
    ensures InCharge(SemV(s, i), t) && UnitsMoved(s, SemV(s, i), i, 1)
  {
    var s' := SemV(s, i);
    forall j, k | 0 <= j < |s'.sems| && 0 <= k < |s'.sems[j].queue| ensures s'.sems[j].queue[k] < |s'.point| && s'.sems[j].queue[k] != t {
      assert s'.sems[j].queue[k] == if j == i && s.sems[i].queue != [] then s.sems[j].queue[k + 1] else s.sems[j].queue[k];
    }
  }

  ghost predicate WaitEffect(s: State, s': State, c: CondId) {
    && SameShape(s, s') && c < |s.conds| && s.current < |s.point|
    && PointsExcept(s, s', s.current)
    && s'.point[s.current] == AsleepIn(c)
    && s'.sems == s.sems
    && s'.conds == s.conds[c := s.conds[c] + [s.current]]
  }

  lemma WaitHasEffect(s: State, c: CondId)
    requires WellShaped(s) && c < |s.conds|
    ensures WaitEffect(s, CondSleep(s, c), c)
  {
  }

  ghost predicate SignalEffect(s: State, s': State, c: CondId) {
    && SameShape(s, s') && c < |s.conds|
    && s'.sems == s.sems
    && (if s.conds[c] == [] then s' == s
        else
          var woken := s.conds[c][0];
          && woken < |s.point| && s.point[woken] == AsleepIn(c) && s'.point[woken] == InCode
          && PointsExcept(s, s', woken)
          && s'.conds == s.conds[c := s.conds[c][1..]])
  }

  lemma SignalHasEffect(s: State, c: CondId)
    requires Placed(s) && WellShaped(s) && c < |s.conds|
    ensures SignalEffect(s, CondSignal(s, c), c)
  {
    if s.conds[c] != [] { ListsTail(s.conds[c], CondSleepers(s, c)); }
  }

  // A protocol that uses semaphores below n and conditions below m.
  predicate Unrelated(l: Label, n: nat, m: nat) {
    match l
    case DoP(i) => i >= n
    case DoV(i) => i >= n
    case DoWait(c) => c >= m
    case DoSignal(c) => c >= m
    case _ => true
  }

  predicate Related(p: Point, n: nat, m: nat) {
    ((p.Checking? || p.AsleepOn?) && p.sem < n) || (p.AsleepIn? && p.cond < m)
  }

  // Activity outside the protocol does not touch its units, its queues, the
  // threads in them, or a thread executing protocol code.
  ghost predicate Bystander(s: State, s': State, l: Label, n: nat, m: nat) {
    && n <= |s.sems| == |s'.sems| && m <= |s.conds| == |s'.conds|
    && |s'.point| == |s.point| + (if l.DoCreate? then 1 else 0)
    && (forall i :: 0 <= i < n ==> s'.sems[i] == s.sems[i])
    && (forall c :: 0 <= c < m ==> s'.conds[c] == s.conds[c])
    && (forall u :: 0 <= u < |s.point| ==>
          && (Related(s.point[u], n, m) || Related(s'.point[u], n, m) ==> s'.point[u] == s.point[u])
          && (s.point[u] == InCode && (u != s.current || l.DoV? || l.DoPoll?) ==> s'.point[u] == InCode))
    && (l.DoCreate? ==> s'.point[|s.point|] == Unforked)
  }

  lemma UnrelatedIsBystander(s: State, l: Label, n: nat, m: nat)
    requires Placed(s) && WellShaped(s) && Enabled(s, l) && Unrelated(l, n, m) && n <= |s.sems| && m <= |s.conds|
    ensures Bystander(s, Apply(s, l), l, n, m)
  {
    match l {
      case DoV(i) => VIsBystander(s, SemV(s, i), i, n, m);
      case DoSignal(c) => SignalIsBystander(s, CondSignal(s, c), c, n, m);
      case DoP(i) => PIsBystander(s, SemP(s, i), i, n, m);
      case DoWait(c) => WaitIsBystander(s, CondSleep(s, c), c, n, m);
      case _ =>
    }
  }

  lemma PIsBystander(s: State, s': State, i: SemId, n: nat, m: nat)
    requires Placed(s) && WellShaped(s) && Enabled(s, DoP(i)) && s' == SemP(s, i) && n <= i && n <= |s.sems| && m <= |s.conds|
    ensures Bystander(s, s', DoP(i), n, m)
  {
  }

  lemma WaitIsBystander(s: State, s': State, c: CondId, n: nat, m: nat)
    requires Placed(s) && WellShaped(s) && Enabled(s, DoWait(c)) && s' == CondSleep(s, c) && m <= c && n <= |s.sems| && m <= |s.conds|
    ensures Bystander(s, s', DoWait(c), n, m)
  {
  }

  lemma VIsBystander(s: State, s': State, i: SemId, n: nat, m: nat)
    requires Placed(s) && WellShaped(s) && i < |s.sems| && s' == SemV(s, i) && n <= i && n <= |s.sems| && m <= |s.conds|
    ensures Bystander(s, s', DoV(i), n, m)
  {
    VHasEffect(s, i);
  }

  lemma SignalIsBystander(s: State, s': State, c: CondId, n: nat, m: nat)
    requires Placed(s) && WellShaped(s) && c < |s.conds| && s' == CondSignal(s, c) && m <= c && n <= |s.sems| && m <= |s.conds|
    ensures Bystander(s, s', DoSignal(c), n, m)
  {
    SignalHasEffect(s, c);
  }
}

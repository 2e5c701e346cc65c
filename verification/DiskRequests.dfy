/**
  Synchronous disk requests, on top of the kernel machine.  Semaphore 0 is the
  lock that admits one request at a time, semaphore 1 is signalled when a
  request completes.  The device is the flag `active` and the number of disk
  interrupts that are pending.
 */
module DiskRequests {
  import opened Common
  import C = SectorCaches
  import K = Kernel
  import S = KernelSafety

  type Tid = K.Tid

  datatype Pc =
    | Outside
    | Locking(op: C.Op)                   // inside P of lock->Acquire
    | Locked(op: C.Op)                    // P done, heldthread not assigned yet
    | Entered(op: C.Op)                   // holding the lock
    | Missed(n: nat)                      // sector not in the cache, request not sent yet
    | Filling(n: nat, data: C.Sector)     // request sent, cache entry not written yet
    | Hit                                 // data copied, before disk->HandleInterrupt
    | Notifying                           // `active` cleared, before semaphore->V
    | Sent                                // before semaphore->P
    | Waiting                             // inside semaphore->P
    | Leaving                             // before lock->Release
    | Clearing                            // inside Release, seen to be the holder
    | Posting                             // heldthread is NULL again, V not done yet

  datatype Event = Event(t: Tid, op: C.Op, result: C.Sector)

  // History: `log` lists the accesses made, in order, with the thread and with what
  // each read got; `failed` records a failed ASSERT(!active).
  datatype State = State(
    k: K.State,
    held: Option<Tid>,
    pc: seq<Pc>,
    store: C.Store,
    active: bool,
    pending: nat,
    log: seq<Event>,
    failed: bool)

  datatype Label =
    | Start(op: C.Op)
    | Recheck
    | Assign
    | Lookup
    | Request
    | FillEntry
    | Handle
    | Notify
    | Await
    | TestHolder
    | Clear
    | Post
    | Interrupt
    | Preempt
    | Other(kl: K.Label)

  predicate Shape(s: State) {
    K.WellShaped(s.k) && |s.pc| == |s.k.point| && 2 <= |s.k.sems| && C.Shape(s.store)
  }

  function Me(s: State): Tid { s.k.current }

  // The point in the code from which a statement is executed.
  predicate From(p: Pc, a: Label) {
    match a
    case Start(_) => p.Outside?
    case Recheck => p.Locking? || p.Waiting?
    case Assign => p.Locked?
    case Lookup => p.Entered? && p.op.ReadOp?
    case Request => p.Missed? || (p.Entered? && p.op.WriteOp?)
    case FillEntry => p.Filling?
    case Handle => p.Hit?
    case Notify => p.Notifying?
    case Await => p.Sent?
    case TestHolder => p.Leaving?
    case Clear => p.Clearing?
    case Post => p.Posting?
    case Interrupt => true
    case Preempt => true
    case Other(kl) => p.Outside? || kl.DoV?
  }

  function SectorAt(p: Pc): nat {
    match p
    case Missed(n) => n
    case Entered(op) => op.n
    case _ => 0
  }

  predicate Enabled(s: State, a: Label) {
    && Shape(s)
    && (From(s.pc[Me(s)], a) || a == Other(K.DoPoll))
    && match a
       case Other(kl) => K.Enabled(s.k, kl) && S.Unrelated(kl, 2, 0)
       case Recheck => K.Enabled(s.k, K.DoP(if s.pc[Me(s)].Locking? then 0 else 1))
       case Interrupt => s.pending > 0
       case Start(op) => K.Free(s.k) && op.n < |s.store.disk|
       case Lookup => K.Free(s.k) && SectorAt(s.pc[Me(s)]) < |s.store.disk|
       case Request => K.Free(s.k) && SectorAt(s.pc[Me(s)]) < |s.store.disk|
       case _ => K.Free(s.k)
  }

  function Goto(s: State, p: Pc): State
    requires Me(s) < |s.pc|
  {
    s.(pc := s.pc[Me(s) := p])
  }

  function TurnP(s: State, j: K.SemId, done: Pc, blocked: Pc): State
    requires Shape(s) && j < 2
  {
    Goto(s, if s.k.sems[j].value > 0 then done else blocked).(k := K.SemP(s.k, j))
  }

  // Disk::ReadRequest and Disk::WriteRequest: one at a time.
  function SendRequest(s: State): State {
    if s.active then s.(failed := true) else s.(active := true, pending := s.pending + 1)
  }

  function Apply(s: State, a: Label): State
    requires Enabled(s, a)
  {
    var me := Me(s);
    var p := s.pc[me];
    match a
    case Start(op) => TurnP(s, 0, Locked(op), Locking(op))
    case Recheck =>
      if p.Locking? then TurnP(s, 0, Locked(p.op), p) else TurnP(s, 1, Leaving, Waiting)
    case Assign => Goto(s, Entered(p.op)).(held := Some(me))
    case Lookup =>
      if C.Cached(s.store, p.op.n) then
        Goto(s, Hit).(log := s.log + [Event(me, p.op, C.ReadData(s.store, p.op.n))])
      else Goto(s, Missed(p.op.n))
    case Request =>
      if p.Missed? then SendRequest(Goto(s, Filling(p.n, s.store.disk[p.n])))
      else SendRequest(Goto(s, Sent)).(store := C.Write(s.store, p.op.n, p.op.data), log := s.log + [Event(me, p.op, p.op.data)])
    case FillEntry =>
      Goto(s, Sent).(store := C.Fill(s.store, p.n, p.data), log := s.log + [Event(me, C.ReadOp(p.n), p.data)])
    case Handle => Goto(s, Notifying).(active := false)
    case Notify => Goto(s, Sent).(k := K.SemV(s.k, 1))
    case Await => TurnP(s, 1, Leaving, Waiting)
    case TestHolder => Goto(s, if s.held == Some(me) then Clearing else Outside)
    case Clear => Goto(s, Posting).(held := None)
    case Post => Goto(s, Outside).(k := K.SemV(s.k, 0))
    case Interrupt => s.(pending := s.pending - 1, active := false, k := K.SemV(s.k, 1))
    case Preempt => s.(k := K.Yield(s.k))
    case Other(kl) => s.(k := K.Apply(s.k, kl), pc := if kl.DoCreate? then s.pc + [Outside] else s.pc)
  }

  // ---------------------------------------------------------------- invariant

  // Between the decrement and the increment of the lock's semaphore.
  predicate Holds(p: Pc) {
    !p.Outside? && !p.Locking?
  }

  function Inside(): Pc -> bool { (p: Pc) => Holds(p) }

  predicate PointFits(p: Pc, at: K.Point) {
    && (S.Related(at, 2, 0) <==> p.Locking? || p.Waiting?)
    && (p.Locking? ==> at in {K.Checking(0), K.AsleepOn(0)})
    && (p.Waiting? ==> at in {K.Checking(1), K.AsleepOn(1)})
    && (Holds(p) && !p.Waiting? ==> at == K.InCode)
  }

  ghost predicate Fits(s: State) {
    && |s.pc| == |s.k.point| && 2 <= |s.k.sems|
    && forall t :: 0 <= t < |s.pc| ==> PointFits(s.pc[t], s.k.point[t])
  }

  ghost predicate LockOk(s: State)
    requires 2 <= |s.k.sems|
  {
    && s.k.sems[0].value + |Where(s.pc, Inside())| == 1
    && (s.held.Some? ==> s.held.value in Where(s.pc, Inside()))
    && (forall t :: 0 <= t < |s.pc| && Holds(s.pc[t]) ==> (s.held == Some(t) <==> !s.pc[t].Locked? && !s.pc[t].Posting?))
  }

  // No request is under way.
  predicate Quiet(s: State)
    requires 2 <= |s.k.sems|
  {
    !s.active && s.pending == 0 && s.k.sems[1].value == 0
  }

  // One request is under way, or has just completed.
  predicate Busy(s: State)
    requires 2 <= |s.k.sems|
  {
    if s.active then s.pending == 1 && s.k.sems[1].value == 0 else s.pending == 0 && s.k.sems[1].value == 1
  }

  predicate Outstanding(p: Pc) {
    p.Filling? || p.Sent? || p.Waiting?
  }

  ghost predicate DeviceOk(s: State)
    requires 2 <= |s.k.sems|
  {
    && !s.failed
    && (forall t :: 0 <= t < |s.pc| && Holds(s.pc[t]) ==> if Outstanding(s.pc[t]) then Busy(s) else Quiet(s))
    && ((forall t :: 0 <= t < |s.pc| ==> !Holds(s.pc[t])) ==> Quiet(s))
  }

  ghost predicate Good(s: State) {
    Fits(s) && LockOk(s) && DeviceOk(s)
  }

  lemma Alone(s: State, t: Tid, u: Tid)
    requires 2 <= |s.k.sems| && LockOk(s) && t < |s.pc| && u < |s.pc| && Holds(s.pc[t]) && Holds(s.pc[u])
    ensures t == u
  {
    AtMostOne(Where(s.pc, Inside()), t, u);
  }

  // ------------------------------------------------ one thread moves to a new pc

  // The running thread moves; a V may have woken a thread inside its P.
  ghost predicate Moves(s: State, s': State) {
    && Me(s) < |s.pc| == |s'.pc| == |s.k.point| == |s'.k.point| && 2 <= |s.k.sems| == |s'.k.sems|
    && s'.pc == s.pc[Me(s) := s'.pc[Me(s)]]
    && forall t :: 0 <= t < |s.pc| && t != Me(s) ==>
         s'.k.point[t] == s.k.point[t] || (s.k.point[t].AsleepOn? && s'.k.point[t] == K.Checking(s.k.point[t].sem))
  }

  lemma FitsMove(s: State, s': State)
    requires Fits(s) && Moves(s, s') && PointFits(s'.pc[Me(s)], s'.k.point[Me(s)])
    ensures Fits(s')
  {
    forall t | 0 <= t < |s.pc| ensures PointFits(s'.pc[t], s'.k.point[t]) {
      assert PointFits(s.pc[t], s.k.point[t]);
    }
  }

  // Whoever holds, or has just taken, the lock is alone inside.
  lemma OthersOut(s: State, s': State, t: Tid)
    requires Moves(s, s') && LockOk(s) && t < |s.pc| && t != Me(s)
    requires Holds(s.pc[Me(s)]) || s.k.sems[0].value == 1
    ensures !Holds(s.pc[t])
  {
    if Holds(s.pc[t]) {
      assert t in Where(s.pc, Inside());
      AtMostOne(Where(s.pc, Inside()), t, Me(s));
    }
  }

  lemma LockMove(s: State, s': State)
    requires Moves(s, s') && LockOk(s)
    requires s'.k.sems[0].value + AsNat(Holds(s'.pc[Me(s)])) == s.k.sems[0].value + AsNat(Holds(s.pc[Me(s)]))
    requires var q := s'.pc[Me(s)];
             if Holds(q) then s'.held == (if q.Locked? || q.Posting? then None else Some(Me(s)))
             else s'.held == s.held && (Holds(s.pc[Me(s)]) ==> s.held == None)
    ensures LockOk(s')
  {
    WhereUpdate(s.pc, Me(s), s'.pc[Me(s)], Inside());
    if Holds(s.pc[Me(s)]) || Holds(s'.pc[Me(s)]) {
      forall t | 0 <= t < |s.pc| && t != Me(s) ensures !Holds(s.pc[t]) {
        OthersOut(s, s', t);
      }
    }
  }

  lemma DeviceMove(s: State, s': State)
    requires Moves(s, s') && LockOk(s) && DeviceOk(s) && !s'.failed
    requires if Holds(s.pc[Me(s)]) || Holds(s'.pc[Me(s)])
             then (Holds(s.pc[Me(s)]) || s.k.sems[0].value == 1) && (if Outstanding(s'.pc[Me(s)]) then Busy(s') else Quiet(s'))
             else s'.active == s.active && s'.pending == s.pending && s'.k.sems[1].value == s.k.sems[1].value
    ensures DeviceOk(s')
  {
    if Holds(s.pc[Me(s)]) || Holds(s'.pc[Me(s)]) {
      forall t | 0 <= t < |s.pc| && t != Me(s) ensures !Holds(s.pc[t]) {
        OthersOut(s, s', t);
      }
    } else {
      forall t | 0 <= t < |s.pc| ensures Holds(s.pc[t]) == Holds(s'.pc[t]) {
      }
    }
  }

  lemma HolderIsMe(s: State)
    requires 2 <= |s.k.sems| && LockOk(s) && Me(s) < |s.pc| && Holds(s.pc[Me(s)])
    ensures s.held == if s.pc[Me(s)].Locked? || s.pc[Me(s)].Posting? then None else Some(Me(s))
  {
    if s.held.Some? { AtMostOne(Where(s.pc, Inside()), s.held.value, Me(s)); }
  }

  // When nobody is inside, no request is under way.
  lemma FreeIsQuiet(s: State)
    requires 2 <= |s.k.sems| && LockOk(s) && DeviceOk(s) && s.k.sems[0].value > 0
    ensures Quiet(s) && s.held == None && s.k.sems[0].value == 1
  {
    forall t | 0 <= t < |s.pc| ensures !Holds(s.pc[t]) {
      assert t !in Where(s.pc, Inside());
    }
  }

  // -------------------------------------------------------- steps keep the protocol

  lemma LockTurnGood(s: State, op: C.Op, s': State)
    requires Good(s) && Me(s) < |s.pc| && S.PEffect(s.k, s'.k, 0) && s.pc[Me(s)] in {Outside, Locking(op)}
    requires s' == s.(k := s'.k, pc := s.pc[Me(s) := if s.k.sems[0].value > 0 then Locked(op) else Locking(op)])
    ensures Good(s')
  {
    assert Moves(s, s');
    assert Fits(s') by { FitsMove(s, s'); }
    if s.k.sems[0].value > 0 { FreeIsQuiet(s); }
    assert LockOk(s') by { LockMove(s, s'); }
    assert DeviceOk(s') by { DeviceMove(s, s'); }
  }

  lemma AwaitTurnGood(s: State, s': State)
    requires Good(s) && Me(s) < |s.pc| && S.PEffect(s.k, s'.k, 1) && s.pc[Me(s)] in {Sent, Waiting}
    requires s' == s.(k := s'.k, pc := s.pc[Me(s) := if s.k.sems[1].value > 0 then Leaving else Waiting])
    ensures Good(s')
  {
    assert Moves(s, s');
    assert Fits(s') by { FitsMove(s, s'); }
    assert LockOk(s') by { HolderIsMe(s); LockMove(s, s'); }
    assert DeviceOk(s') by { DeviceMove(s, s'); }
  }

  lemma NotifyGood(s: State, s': State)
    requires Good(s) && Me(s) < |s.pc| && S.VEffect(s.k, s'.k, 1) && s.pc[Me(s)] == Notifying
    requires s' == s.(k := s'.k, pc := s.pc[Me(s) := Sent])
    ensures Good(s')
  {
    assert PointFits(s.pc[Me(s)], s.k.point[Me(s)]);
    assert Moves(s, s');
    assert Fits(s') by { FitsMove(s, s'); }
    assert LockOk(s') by { HolderIsMe(s); LockMove(s, s'); }
    assert DeviceOk(s') by { DeviceMove(s, s'); }
  }

  lemma PostGood(s: State, s': State)
    requires Good(s) && Me(s) < |s.pc| && S.VEffect(s.k, s'.k, 0) && s.pc[Me(s)] == Posting
    requires s' == s.(k := s'.k, pc := s.pc[Me(s) := Outside])
    ensures Good(s')
  {
    assert PointFits(s.pc[Me(s)], s.k.point[Me(s)]);
    assert Moves(s, s');
    assert Fits(s') by { FitsMove(s, s'); }
    assert LockOk(s') by { HolderIsMe(s); LockMove(s, s'); }
    assert DeviceOk(s') by { DeviceMove(s, s'); }
  }

  // Statements of the thread inside that leave the kernel alone: moving on
  // without touching the device, or sending a request to a quiet device.
  lemma LocalGood(s: State, s': State)
    requires Good(s) && Me(s) < |s.pc| == |s'.pc| && Holds(s.pc[Me(s)]) && Holds(s'.pc[Me(s)])
    requires s.pc[Me(s)] != Waiting && s'.pc[Me(s)] != Waiting
    requires s'.k == s.k && s'.pc == s.pc[Me(s) := s'.pc[Me(s)]] && !s'.failed
    requires s'.held == if s'.pc[Me(s)].Locked? || s'.pc[Me(s)].Posting? then None else Some(Me(s))
    requires if Outstanding(s'.pc[Me(s)]) && !Outstanding(s.pc[Me(s)]) then s'.active && s'.pending == 1
             else Outstanding(s'.pc[Me(s)]) == Outstanding(s.pc[Me(s)]) && s'.active == s.active && s'.pending == s.pending
    ensures Good(s')
  {
    assert PointFits(s.pc[Me(s)], s.k.point[Me(s)]);
    assert Moves(s, s');
    assert Fits(s') by { FitsMove(s, s'); }
    assert LockOk(s') by { LockMove(s, s'); }
    assert DeviceOk(s') by { DeviceMove(s, s'); }
  }

  lemma InterruptGood(s: State, s': State)
    requires Good(s) && S.VEffect(s.k, s'.k, 1) && s.pending > 0
    requires s' == s.(k := s'.k, pending := s.pending - 1, active := false)
    ensures Good(s')
  {
    assert Fits(s') by {
      forall t | 0 <= t < |s.pc| ensures PointFits(s'.pc[t], s'.k.point[t]) { assert PointFits(s.pc[t], s.k.point[t]); }
    }
  }

  lemma PreemptGood(s: State, s': State)
    requires Good(s) && s' == s.(k := s'.k) && s'.k.point == s.k.point && s'.k.sems == s.k.sems
    ensures Good(s')
  {
  }

  lemma OtherGood(s: State, kl: K.Label, s': State)
    requires Good(s) && S.Bystander(s.k, s'.k, kl, 2, 0) && Me(s) < |s.pc|
    requires s.pc[Me(s)].Outside? || kl.DoV? || kl.DoPoll?
    requires s' == s.(k := s'.k, pc := if kl.DoCreate? then s.pc + [Outside] else s.pc)
    ensures Good(s')
  {
    assert Fits(s') by {
      forall t | 0 <= t < |s'.pc| ensures PointFits(s'.pc[t], s'.k.point[t]) {
        if t < |s.pc| { assert PointFits(s.pc[t], s.k.point[t]); }
      }
    }
    assert LockOk(s') by { WhereSnoc(s.pc, Outside, Inside()); }
    assert DeviceOk(s') by {
      if forall t :: 0 <= t < |s'.pc| ==> !Holds(s'.pc[t]) {
        forall t | 0 <= t < |s.pc| ensures !Holds(s.pc[t]) { assert s'.pc[t] == s.pc[t]; }
      }
    }
  }

  // ----------------------------------------------------------- the store and the log

  function Ops(log: seq<Event>): seq<C.Op> {
    seq(|log|, k requires 0 <= k < |log| => log[k].op)
  }

  ghost predicate StartsWell(b: C.Store) {
    C.InFillOrder(b) && C.NoSectorTwice(b)
  }

  // The accesses, replayed one after the other on the initial store b, give
  // this store, and every read got what the replay gives it.
  ghost predicate Replays(s: State, b: C.Store) {
    && StartsWell(b)
    && C.InRange(Ops(s.log), |b.disk|)
    && s.store == C.After(b, Ops(s.log))
    && forall k :: 0 <= k < |s.log| ==> ReadsAsReplayed(b, s.log, k)
  }

  ghost predicate ReadsAsReplayed(b: C.Store, log: seq<Event>, k: nat)
    requires StartsWell(b) && C.InRange(Ops(log), |b.disk|) && k < |log|
  {
    && C.InRange(Ops(log[..k]), |b.disk|)
    && var before := C.After(b, Ops(log[..k]));
       && C.Shape(before) && log[k].op.n < |before.disk|
       && (log[k].op.ReadOp? ==> log[k].result == C.ReadData(before, log[k].op.n))
  }

  // What a thread in the middle of an access knows about the store.
  predicate PcKnows(store: C.Store, p: Pc) {
    match p
    case Locking(op) => op.n < |store.disk|
    case Locked(op) => op.n < |store.disk|
    case Entered(op) => op.n < |store.disk|
    case Missed(n) => n < |store.disk| && !C.Cached(store, n)
    case Filling(n, data) => n < |store.disk| && !C.Cached(store, n) && data == store.disk[n]
    case _ => true
  }

  ghost predicate StoreOk(s: State, b: C.Store) {
    && Replays(s, b)
    && forall t :: 0 <= t < |s.pc| ==> PcKnows(s.store, s.pc[t])
  }

  lemma {:induction false} AfterSnoc(b: C.Store, ops: seq<C.Op>, op: C.Op)
    requires StartsWell(b) && C.InRange(ops, |b.disk|) && op.n < |b.disk|
    ensures C.InRange(ops + [op], |b.disk|) && C.Shape(C.After(b, ops)) && |C.After(b, ops).disk| == |b.disk|
    ensures C.After(b, ops + [op]) == C.Do(C.After(b, ops), op)
    decreases |ops|
  {
    C.EvictionOrder(b, ops);
    C.DoKeepsOrder(C.After(b, ops), op);
    if ops == [] {
      assert [op][1..] == [] && ops + [op] == [op];
    } else {
      C.DoKeepsOrder(b, ops[0]);
      AfterSnoc(C.Do(b, ops[0]), ops[1..], op);
      assert (ops + [op])[1..] == ops[1..] + [op];
    }
  }

  // An access joins the log at the moment its effect on the store is made.
  lemma ReplayExtends(s: State, s': State, b: C.Store, e: Event)
    requires Replays(s, b) && C.Shape(s.store) && e.op.n < |s.store.disk|
    requires s'.log == s.log + [e] && s'.store == C.Do(s.store, e.op)
    requires e.op.ReadOp? ==> e.result == C.ReadData(s.store, e.op.n)
    ensures Replays(s', b) && |s'.store.disk| == |s.store.disk|
  {
    C.EvictionOrder(b, Ops(s.log));
    assert Ops(s'.log) == Ops(s.log) + [e.op];
    AfterSnoc(b, Ops(s.log), e.op);
    C.DoKeepsOrder(s.store, e.op);
    forall k | 0 <= k < |s'.log| ensures ReadsAsReplayed(b, s'.log, k) {
      assert s'.log[..k] == s.log[..k];
      if k < |s.log| {
        assert ReadsAsReplayed(b, s.log, k);
      } else {
        assert s.log[..k] == s.log;
      }
    }
  }

  // The thread that changes the store is alone inside, so nobody else relies on it.
  lemma KnowledgeKept(s: State, s': State, b: C.Store)
    requires Moves(s, s') && LockOk(s) && Holds(s.pc[Me(s)]) && |s'.store.disk| == |s.store.disk|
    requires forall t :: 0 <= t < |s.pc| ==> PcKnows(s.store, s.pc[t])
    requires PcKnows(s'.store, s'.pc[Me(s)])
    ensures forall t :: 0 <= t < |s'.pc| ==> PcKnows(s'.store, s'.pc[t])
  {
    forall t | 0 <= t < |s'.pc| ensures PcKnows(s'.store, s'.pc[t]) {
      assert PcKnows(s.store, s.pc[t]);
      if t != Me(s) { OthersOut(s, s', t); }
    }
  }

  lemma AccessStoreOk(s: State, a: Label, b: C.Store)
    requires Good(s) && StoreOk(s, b) && Enabled(s, a) && (a.Lookup? || a.Request? || a.FillEntry?)
    ensures StoreOk(Apply(s, a), b)
  {
    var s' := Apply(s, a);
    var p := s.pc[Me(s)];
    assert Moves(s, s');
    assert PcKnows(s.store, p);
    if a.Lookup? && C.Cached(s.store, p.op.n) {
      ReplayExtends(s, s', b, Event(Me(s), p.op, C.ReadData(s.store, p.op.n)));
    } else if a.Request? && p.Entered? {
      ReplayExtends(s, s', b, Event(Me(s), p.op, p.op.data));
    } else if a.FillEntry? {
      ReplayExtends(s, s', b, Event(Me(s), C.ReadOp(p.n), p.data));
    }
    KnowledgeKept(s, s', b);
  }

  lemma OtherStoreOk(s: State, a: Label, b: C.Store)
    requires StoreOk(s, b) && Enabled(s, a) && !a.Lookup? && !a.Request? && !a.FillEntry?
    ensures StoreOk(Apply(s, a), b)
  {
    var s' := Apply(s, a);
    assert s'.store == s.store && s'.log == s.log;
    assert Me(s) < |s.pc|;
    assert PcKnows(s.store, s.pc[Me(s)]);
    forall t | 0 <= t < |s'.pc| ensures PcKnows(s'.store, s'.pc[t]) {
      if t < |s.pc| { assert PcKnows(s.store, s.pc[t]); }
    }
  }

  // ------------------------------------------------------------------- all steps

  ghost predicate Inv(s: State, b: C.Store) {
    K.Inv(s.k) && Good(s) && StoreOk(s, b)
  }

  ghost predicate Safe(s: State) {
    K.Inv(s.k) && Good(s)
  }

  lemma LockTurnKeeps(s: State, a: Label, op: C.Op)
    requires Safe(s) && Enabled(s, a) && (a == Start(op) || (a == Recheck && s.pc[Me(s)] == Locking(op)))
    ensures Safe(Apply(s, a))
  {
    var s' := TurnP(s, 0, Locked(op), Locking(op));
    assert K.Inv(s'.k) && S.PEffect(s.k, s'.k, 0) by { S.PGives(s.k, 0); }
    assert Good(s') by { LockTurnGood(s, op, s'); }
    assert s' == Apply(s, a);
  }

  lemma AwaitTurnKeeps(s: State, a: Label)
    requires Safe(s) && Enabled(s, a) && (a == Await || (a == Recheck && s.pc[Me(s)] == Waiting))
    ensures Safe(Apply(s, a))
  {
    var s' := TurnP(s, 1, Leaving, Waiting);
    assert K.Inv(s'.k) && S.PEffect(s.k, s'.k, 1) by { S.PGives(s.k, 1); }
    assert Good(s') by { AwaitTurnGood(s, s'); }
    assert s' == Apply(s, a);
  }

  lemma UpKeeps(s: State, a: Label)
    requires Safe(s) && Enabled(s, a) && (a.Notify? || a.Post? || a.Interrupt?)
    ensures Safe(Apply(s, a))
  {
    var s' := Apply(s, a);
    if a.Post? {
      S.VGives(s.k, 0);
      PostGood(s, s');
    } else {
      S.VGives(s.k, 1);
      if a.Notify? { NotifyGood(s, s'); } else { InterruptGood(s, s'); }
    }
  }

  lemma LocalKeeps(s: State, a: Label)
    requires Safe(s) && Enabled(s, a) && (a.Assign? || a.Handle? || a.TestHolder? || a.Clear?)
    ensures Safe(Apply(s, a))
  {
    HolderIsMe(s);
    LocalGood(s, Apply(s, a));
  }

  lemma AccessKeeps(s: State, a: Label)
    requires Safe(s) && Enabled(s, a) && (a.Lookup? || a.Request? || a.FillEntry?)
    ensures Safe(Apply(s, a))
  {
    HolderIsMe(s);
    LocalGood(s, Apply(s, a));
  }

  lemma OtherKeeps(s: State, a: Label)
    requires Safe(s) && Enabled(s, a) && (a.Preempt? || a.Other?)
    ensures Safe(Apply(s, a))
  {
    if a.Preempt? {
      S.YieldKeeps(s.k);
      PreemptGood(s, Apply(s, a));
    } else {
      S.StepKeeps(s.k, a.kl);
      S.UnrelatedIsBystander(s.k, a.kl, 2, 0);
      OtherGood(s, a.kl, Apply(s, a));
    }
  }

  lemma StepSafe(s: State, a: Label)
    requires Safe(s) && Enabled(s, a)
    ensures Safe(Apply(s, a))
  {
    match a
    case Start(op) => LockTurnKeeps(s, a, op);
    case Recheck => if s.pc[Me(s)].Locking? { LockTurnKeeps(s, a, s.pc[Me(s)].op); } else { AwaitTurnKeeps(s, a); }
    case Await => AwaitTurnKeeps(s, a);
    case Notify => UpKeeps(s, a);
    case Post => UpKeeps(s, a);
    case Interrupt => UpKeeps(s, a);
    case Preempt => OtherKeeps(s, a);
    case Other(_) => OtherKeeps(s, a);
    case _ => if a.Lookup? || a.Request? || a.FillEntry? { AccessKeeps(s, a); } else { LocalKeeps(s, a); }
  }

  lemma StepKeeps(s: State, a: Label, b: C.Store)
    requires Inv(s, b) && Enabled(s, a)
    ensures Inv(Apply(s, a), b)
  {
    assert Safe(Apply(s, a)) by { StepSafe(s, a); }
    if a.Lookup? || a.Request? || a.FillEntry? { AccessStoreOk(s, a, b); } else { OtherStoreOk(s, a, b); }
  }

  // --------------------------------------------------------------------- runs

  function Boot(b: C.Store, others: seq<nat>, conditions: nat): State {
    State(K.Boot([1, 0] + others, conditions), None, [Outside], b, false, 0, [], false)
  }

  function Next(s: State, a: Label): State {
    if Enabled(s, a) then Apply(s, a) else s
  }

  function Exec(s: State, run: seq<Label>): State {
    After(Next, s, run)
  }

  lemma ExecKeeps(s: State, run: seq<Label>, b: C.Store)
    requires Inv(s, b)
    ensures Inv(Exec(s, run), b)
  {
    forall r, a | Inv(r, b) ensures Inv(Next(r, a), b) {
      if Enabled(r, a) { StepKeeps(r, a, b); }
    }
    Along(Next, r => Inv(r, b), s, run);
  }

  lemma Reachable(disk: seq<C.Sector>, junk: C.Sector, others: seq<nat>, conditions: nat, run: seq<Label>)
    ensures Inv(Exec(Boot(C.Start(disk, junk), others, conditions), run), C.Start(disk, junk))
  {
    var b := C.Start(disk, junk);
    var s := Boot(b, others, conditions);
    S.BootInv([1, 0] + others, conditions);
    assert Where(s.pc, Inside()) == {};
    assert Ops(s.log) == [];
    assert Inv(s, b);
    ExecKeeps(s, run, b);
  }

  // Whenever the lock is free the disk is inactive, no disk interrupt is
  // pending and the completion semaphore is 0; ASSERT(!active) never fires,
  // with hits and misses freely mixed.
  lemma OneRequestAtATime(disk: seq<C.Sector>, junk: C.Sector, others: seq<nat>, conditions: nat, run: seq<Label>)
    ensures var s := Exec(Boot(C.Start(disk, junk), others, conditions), run);
            && !s.failed && 2 <= |s.k.sems|
            && (s.k.sems[0].value > 0 ==> !s.active && s.pending == 0 && s.k.sems[1].value == 0)
            && s.pending <= 1 && (s.active <==> s.pending == 1)
  {
    var s := Exec(Boot(C.Start(disk, junk), others, conditions), run);
    Reachable(disk, junk, others, conditions, run);
    if s.k.sems[0].value > 0 {
      FreeIsQuiet(s);
    } else {
      var w := Where(s.pc, Inside());
      assert w != {};
      var t :| t in w;
      assert Holds(s.pc[t]);
    }
  }

  // A thread asleep on the completion semaphore has its interrupt still to come.
  lemma SleeperHasInterrupt(disk: seq<C.Sector>, junk: C.Sector, others: seq<nat>, conditions: nat, run: seq<Label>, t: Tid)
    requires var s := Exec(Boot(C.Start(disk, junk), others, conditions), run);
             t < |s.k.point| && s.k.point[t] == K.AsleepOn(1)
    ensures var s := Exec(Boot(C.Start(disk, junk), others, conditions), run);
            s.active && s.pending == 1
  {
    var s := Exec(Boot(C.Start(disk, junk), others, conditions), run);
    Reachable(disk, junk, others, conditions, run);
    assert PointFits(s.pc[t], s.k.point[t]);
    assert t in K.SemSleepers(s.k, 1);
    assert K.Accounted(s.k, 1);
    forall u | u in K.Checkers(s.k, 1) ensures u == t {
      assert PointFits(s.pc[u], s.k.point[u]);
      Alone(s, t, u);
    }
    assert t !in K.Checkers(s.k, 1);
    assert K.Checkers(s.k, 1) == {};
  }

  // Every concurrent run of accesses is a sequential one: replaying the log
  // gives the store and what each read returned.
  lemma Linearizable(disk: seq<C.Sector>, junk: C.Sector, others: seq<nat>, conditions: nat, run: seq<Label>)
    ensures Replays(Exec(Boot(C.Start(disk, junk), others, conditions), run), C.Start(disk, junk))
  {
    Reachable(disk, junk, others, conditions, run);
  }

  // ------------------------------------------------------------ what was asked for

  // A statement that was executed, and by whom.
  datatype Step = Step(t: Tid, a: Label)

  function Seen(s: State, a: Label): seq<Step> {
    if Enabled(s, a) then [Step(Me(s), a)] else []
  }

  function Steps(s: State, run: seq<Label>): seq<Step> {
    Trace(Next, Seen, s, run)
  }

  // The accesses a thread called for, in order, read off the statements executed.
  function Started(steps: seq<Step>, t: Tid): seq<C.Op> {
    if steps == [] then []
    else
      var last := steps[|steps| - 1];
      Started(steps[..|steps| - 1], t) + if last.t == t && last.a.Start? then [last.a.op] else []
  }

  // The accesses of a thread in the log.
  function LoggedBy(log: seq<Event>, t: Tid): seq<C.Op> {
    if log == [] then []
    else
      var last := log[|log| - 1];
      LoggedBy(log[..|log| - 1], t) + if last.t == t then [last.op] else []
  }

  // The access that a thread at this point still has to make.
  function ToDo(p: Pc): seq<C.Op> {
    match p
    case Locking(op) => [op]
    case Locked(op) => [op]
    case Entered(op) => [op]
    case Missed(n) => [C.ReadOp(n)]
    case Filling(n, _) => [C.ReadOp(n)]
    case _ => []
  }

  // The access that thread t has called for and not made yet.
  function ToDoOf(s: State, t: Tid): seq<C.Op> { if t < |s.pc| then ToDo(s.pc[t]) else [] }

  ghost predicate LogsAsAsked(s: State, steps: seq<Step>) {
    forall t: Tid :: Started(steps, t) == LoggedBy(s.log, t) + ToDoOf(s, t)
  }

  lemma StartedSnoc(steps: seq<Step>, x: Step, t: Tid)
    ensures Started(steps + [x], t) == Started(steps, t) + if x.t == t && x.a.Start? then [x.a.op] else []
  {
    assert (steps + [x])[..|steps|] == steps;
  }

  lemma LoggedSnoc(log: seq<Event>, e: Event, t: Tid)
    ensures LoggedBy(log + [e], t) == LoggedBy(log, t) + if e.t == t then [e.op] else []
  {
    assert (log + [e])[..|log|] == log;
  }

  // Only the running thread moves.
  ghost predicate OthersStay(s: State, t: Tid, s': State) {
    && t < |s.pc| <= |s'.pc|
    && (forall u :: 0 <= u < |s.pc| && u != t ==> s'.pc[u] == s.pc[u])
    && (forall u :: |s.pc| <= u < |s'.pc| ==> s'.pc[u] == Outside)
  }

  function CalledFor(a: Label): seq<C.Op> { if a.Start? then [a.op] else [] }

  // What a statement of thread t adds to the log: accesses that it had to do, or was
  // called for, and no longer has to.
  ghost predicate LogsOwn(s: State, x: Step, s': State, made: seq<Event>) {
    && OthersStay(s, x.t, s') && s'.log == s.log + made && |made| <= 1 && (made != [] ==> made[0].t == x.t)
    && ToDo(s.pc[x.t]) + CalledFor(x.a) == Ops(made) + ToDo(s'.pc[x.t])
  }

  lemma StepLogsOwn(s: State, a: Label) returns (made: seq<Event>)
    requires Enabled(s, a)
    ensures LogsOwn(s, Step(Me(s), a), Apply(s, a), made)
  {
    OthersStayed(s, a);
    match a
    case Lookup => made := LookupLogs(s);
    case Request => made := RequestLogs(s);
    case FillEntry => made := FillLogs(s);
    case _ => made := []; QuietLogs(s, a);
  }

  lemma OthersStayed(s: State, a: Label)
    requires Enabled(s, a)
    ensures OthersStay(s, Me(s), Apply(s, a))
  {
  }

  lemma QuietLogs(s: State, a: Label)
    requires Enabled(s, a) && !a.Lookup? && !a.Request? && !a.FillEntry?
    ensures Apply(s, a).log == s.log && ToDo(s.pc[Me(s)]) + CalledFor(a) == ToDo(Apply(s, a).pc[Me(s)])
  {
    if a.Start? || a.Recheck? || a.Await? { TurnLogs(s, a); } else { SilentLogs(s, a); }
  }

  lemma TurnLogs(s: State, a: Label)
    requires Enabled(s, a) && (a.Start? || a.Recheck? || a.Await?)
    ensures Apply(s, a).log == s.log && ToDo(s.pc[Me(s)]) + CalledFor(a) == ToDo(Apply(s, a).pc[Me(s)])
  {
  }

  lemma SilentLogs(s: State, a: Label)
    requires Enabled(s, a) && !a.Lookup? && !a.Request? && !a.FillEntry? && !a.Start? && !a.Recheck? && !a.Await?
    ensures Apply(s, a).log == s.log && ToDo(s.pc[Me(s)]) + CalledFor(a) == ToDo(Apply(s, a).pc[Me(s)])
  {
  }

  lemma LookupLogs(s: State) returns (made: seq<Event>)
    requires Enabled(s, Lookup)
    ensures Apply(s, Lookup).log == s.log + made && |made| <= 1 && (made != [] ==> made[0].t == Me(s))
    ensures ToDo(s.pc[Me(s)]) == Ops(made) + ToDo(Apply(s, Lookup).pc[Me(s)])
  {
    var op := s.pc[Me(s)].op;
    made := if C.Cached(s.store, op.n) then [Event(Me(s), op, C.ReadData(s.store, op.n))] else [];
  }

  lemma RequestLogs(s: State) returns (made: seq<Event>)
    requires Enabled(s, Request)
    ensures Apply(s, Request).log == s.log + made && |made| <= 1 && (made != [] ==> made[0].t == Me(s))
    ensures ToDo(s.pc[Me(s)]) == Ops(made) + ToDo(Apply(s, Request).pc[Me(s)])
  {
    var p := s.pc[Me(s)];
    made := if p.Entered? && p.op.WriteOp? then [Event(Me(s), p.op, p.op.data)] else [];
  }

  lemma FillLogs(s: State) returns (made: seq<Event>)
    requires Enabled(s, FillEntry)
    ensures Apply(s, FillEntry).log == s.log + made && |made| <= 1 && (made != [] ==> made[0].t == Me(s))
    ensures ToDo(s.pc[Me(s)]) == Ops(made) + ToDo(Apply(s, FillEntry).pc[Me(s)])
  {
    made := [Event(Me(s), C.ReadOp(s.pc[Me(s)].n), s.pc[Me(s)].data)];
  }

  lemma LoggedMore(log: seq<Event>, made: seq<Event>, t: Tid, u: Tid)
    requires |made| <= 1 && (made != [] ==> made[0].t == t)
    ensures LoggedBy(log + made, u) == LoggedBy(log, u) + if t == u then Ops(made) else []
  {
    if made == [] {
      assert log + made == log && Ops(made) == [];
    } else {
      assert made == [made[0]] && Ops(made) == [made[0].op];
      LoggedSnoc(log, made[0], u);
    }
  }

  lemma StepLogsAsAsked(s: State, x: Step, s': State, made: seq<Event>, steps: seq<Step>)
    requires LogsAsAsked(s, steps) && LogsOwn(s, x, s', made)
    ensures LogsAsAsked(s', steps + [x])
  {
    forall t: Tid ensures Started(steps + [x], t) == LoggedBy(s'.log, t) + ToDoOf(s', t) {
      StartedSnoc(steps, x, t);
      LoggedMore(s.log, made, x.t, t);
      assert Started(steps, t) == LoggedBy(s.log, t) + ToDoOf(s, t);
      if t == x.t {
        Regroup(LoggedBy(s.log, t), ToDoOf(s, t), CalledFor(x.a), Ops(made), ToDoOf(s', t));
      }
    }
  }

  // In every run the accesses of a thread in the log are those it called for, in that
  // order: all of them when it is outside, and otherwise all but the last at most.
  lemma LogIsWhatWasAsked(disk: seq<C.Sector>, junk: C.Sector, others: seq<nat>, conditions: nat, run: seq<Label>, t: Tid)
    ensures var s := Exec(Boot(C.Start(disk, junk), others, conditions), run);
            var started := Started(Steps(Boot(C.Start(disk, junk), others, conditions), run), t);
            && LoggedBy(s.log, t) <= started && |started| <= |LoggedBy(s.log, t)| + 1
            && (t < |s.pc| && s.pc[t] == Outside ==> LoggedBy(s.log, t) == started)
  {
    var b := Boot(C.Start(disk, junk), others, conditions);
    assert LogsAsAsked(b, []);
    forall s, steps, a | LogsAsAsked(s, steps) ensures LogsAsAsked(Next(s, a), steps + Seen(s, a)) {
      if Enabled(s, a) {
        var made := StepLogsOwn(s, a);
        StepLogsAsAsked(s, Step(Me(s), a), Next(s, a), made, steps);
      } else {
        assert steps + [] == steps;
      }
    }
    AlongTrace(Next, Seen, LogsAsAsked, b, [], run);
    assert [] + Steps(b, run) == Steps(b, run);
  }

  // The log only grows, so an access that had been made when another was called for
  // stands before it.
  lemma LogGrows(s: State, run: seq<Label>)
    ensures s.log <= Exec(s, run).log
  {
    forall r: State, a | s.log <= r.log ensures s.log <= Next(r, a).log {
      if Enabled(r, a) { var made := StepLogsOwn(r, a); }
    }
    Along(Next, (r: State) => s.log <= r.log, s, run);
  }

  // ------------------------------------------------------------------ going forward

  // The statement that a thread inside an access executes next.
  function NextOf(p: Pc): Label {
    match p
    case Locked(_) => Assign
    case Entered(op) => if op.ReadOp? then Lookup else Request
    case Missed(_) => Request
    case Filling(_, _) => FillEntry
    case Hit => Handle
    case Notifying => Notify
    case Sent => Await
    case Leaving => TestHolder
    case Clearing => Clear
    case Posting => Post
    case _ => Recheck
  }

  // How many statements, at most, are left of the access.
  function Left(p: Pc): nat {
    match p
    case Outside => 0
    case Locking(_) => 12
    case Locked(_) => 11
    case Entered(_) => 10
    case Missed(_) => 9
    case Filling(_, _) => 8
    case Hit => 8
    case Notifying => 7
    case Sent => 6
    case Waiting => 5
    case Leaving => 4
    case Clearing => 3
    case Posting => 2
  }

  ghost predicate Forward(s: State, s': State) {
    && Me(s) < |s.pc| == |s'.pc| == |s'.k.point| && 2 <= |s.k.sems|
    && var p, q := s.pc[Me(s)], s'.pc[Me(s)];
       || Left(q) < Left(p)
       || (q == p == Waiting && s.k.sems[1].value == 0 && s'.k.point[Me(s)] == K.AsleepOn(1))
       || (q == p && p.Locking? && s.k.sems[0].value == 0 && s'.k.point[Me(s)] == K.AsleepOn(0))
  }

  // In every run, whoever is on the processor inside an access can execute its next
  // statement, and is closer to the end after it, or asleep on a semaphore at 0.
  lemma GoesForward(disk: seq<C.Sector>, junk: C.Sector, others: seq<nat>, conditions: nat, run: seq<Label>, s: State)
    requires s == Exec(Boot(C.Start(disk, junk), others, conditions), run)
    requires !s.k.idle && Me(s) < |s.pc| && s.pc[Me(s)] != Outside
    ensures Enabled(s, NextOf(s.pc[Me(s)])) && Forward(s, Apply(s, NextOf(s.pc[Me(s)])))
  {
    assert Inv(s, C.Start(disk, junk)) by { Reachable(disk, junk, others, conditions, run); }
    NextEnabled(s, C.Start(disk, junk));
    NextForward(s);
  }

  lemma NextEnabled(s: State, b: C.Store)
    requires Inv(s, b) && !s.k.idle && Me(s) < |s.pc| && s.pc[Me(s)] != Outside
    ensures Enabled(s, NextOf(s.pc[Me(s)]))
  {
    S.Shaped(s.k);
    assert C.Shape(s.store) by { C.EvictionOrder(b, Ops(s.log)); }
    assert PointFits(s.pc[Me(s)], s.k.point[Me(s)]) && PcKnows(s.store, s.pc[Me(s)]);
  }

  lemma NextForward(s: State)
    requires Shape(s) && s.pc[Me(s)] != Outside && Enabled(s, NextOf(s.pc[Me(s)]))
    ensures Forward(s, Apply(s, NextOf(s.pc[Me(s)])))
  {
    match s.pc[Me(s)]
    case Locking(op) => TurnForward(s, Recheck, 0, Locked(op), Locking(op));
    case Waiting => TurnForward(s, Recheck, 1, Leaving, Waiting);
    case Sent => TurnForward(s, Await, 1, Leaving, Waiting);
    case Entered(_) => AccessForward(s);
    case Missed(_) => AccessForward(s);
    case Filling(_, _) => AccessForward(s);
    case _ => OtherForward(s);
  }

  lemma TurnForward(s: State, a: Label, j: nat, done: Pc, blocked: Pc)
    requires Enabled(s, a) && j < 2 && Apply(s, a) == TurnP(s, j, done, blocked) && Left(done) < Left(s.pc[Me(s)])
    requires Left(blocked) < Left(s.pc[Me(s)]) || (blocked == s.pc[Me(s)] && if j == 0 then blocked.Locking? else blocked == Waiting)
    ensures Forward(s, Apply(s, a))
  {
    S.PHasEffect(s.k, j);
  }

  lemma AccessForward(s: State)
    requires Shape(s) && (s.pc[Me(s)].Entered? || s.pc[Me(s)].Missed? || s.pc[Me(s)].Filling?) && Enabled(s, NextOf(s.pc[Me(s)]))
    ensures Forward(s, Apply(s, NextOf(s.pc[Me(s)])))
  {
  }

  lemma OtherForward(s: State)
    requires Shape(s) && Enabled(s, NextOf(s.pc[Me(s)]))
    requires var p := s.pc[Me(s)]; p.Locked? || p.Hit? || p.Notifying? || p.Leaving? || p.Clearing? || p.Posting?
    ensures Forward(s, Apply(s, NextOf(s.pc[Me(s)])))
  {
  }

  lemma {:induction false} WritesMissPrefix(b: C.Store, ops: seq<C.Op>, k: nat)
    requires StartsWell(b) && C.InRange(ops, |b.disk|) && k <= |ops| && C.WritesMissCache(b, ops)
    ensures C.InRange(ops[..k], |b.disk|) && C.WritesMissCache(b, ops[..k])
    decreases |ops|
  {
    if k > 0 {
      C.DoKeepsOrder(b, ops[0]);
      WritesMissPrefix(C.Do(b, ops[0]), ops[1..], k - 1);
      assert ops[..k][1..] == ops[1..][..k - 1];
    }
  }

  // So if no write hit a sector cached at that moment, every read, in whatever
  // thread and under whatever schedule, returned what the disk then held.
  lemma ReadsReturnCurrent(disk: seq<C.Sector>, junk: C.Sector, others: seq<nat>, conditions: nat, run: seq<Label>, k: nat)
    requires var log := Exec(Boot(C.Start(disk, junk), others, conditions), run).log;
             && k < |log| && log[k].op.ReadOp?
             && C.InRange(Ops(log), |disk|) && C.WritesMissCache(C.Start(disk, junk), Ops(log))
    ensures var log := Exec(Boot(C.Start(disk, junk), others, conditions), run).log;
            && C.InRange(Ops(log[..k]), |disk|)
            && var before := C.After(C.Start(disk, junk), Ops(log[..k]));
               log[k].op.n < |before.disk| && log[k].result == before.disk[log[k].op.n]
  {
    var b := C.Start(disk, junk);
    var log := Exec(Boot(b, others, conditions), run).log;
    Linearizable(disk, junk, others, conditions, run);
    assert ReadsAsReplayed(b, log, k);
    WritesMissPrefix(b, Ops(log), k);
    assert Ops(log)[..k] == Ops(log[..k]);
    C.EvictionOrder(b, Ops(log[..k]));
    C.ReadsCurrent(b, Ops(log[..k]), log[k].op.n);
  }
}

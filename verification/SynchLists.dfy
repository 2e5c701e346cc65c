/**
  The synchronised list: a monitor made of one lock (semaphore 0) and one
  condition (queue 0, `listEmpty`), used by any number of threads on top of the
  kernel machine.  A preemption may fall between any two statements that run
  with interrupts on.
 */
module SynchLists {
  import opened Common
  import K = Kernel
  import S = KernelSafety

  type Tid = K.Tid

  // Items are non-NULL pointers; 0 is NULL.
  type Item = p: int | p != 0 witness 1

  datatype Op = Append(item: Item) | Remove

  datatype Pc =
    | Outside
    | Locking(op: Op)    // inside P of lock->Acquire
    | Locked(op: Op)     // P done, heldthread not assigned yet
    | Entered(op: Op)    // holding the lock, before the first (or next) statement
    | Appended           // item on the list, Signal not done yet
    | Waiting            // in Condition::Wait, up to its call of Acquire
    | Relocking          // inside P of the Acquire that ends Wait
    | Taking             // list seen non-empty, item not removed yet
    | Leaving(got: Option<Item>)    // before Release, with the item that Remove returns
    | Clearing(got: Option<Item>)   // inside Release, seen to be the holder
    | Posting(got: Option<Item>)    // heldthread is NULL again, V not done yet

  // History: `appended` and `removed` are the items in the order in which they
  // went on and came off; `failed` records a failed ASSERT(item != NULL).
  datatype State = State(
    k: K.State,
    held: Option<Tid>,
    pc: seq<Pc>,
    list: seq<Item>,
    appended: seq<Item>,
    removed: seq<Item>,
    failed: bool)

  datatype Label =
    | Start(op: Op)
    | Recheck
    | Assign
    | DoAppend
    | DoSignal
    | TestEmpty
    | Resume
    | Take
    | TestHolder
    | Clear
    | Post
    | Preempt
    | Other(kl: K.Label)

  predicate Shape(s: State) {
    K.WellShaped(s.k) && |s.pc| == |s.k.point| && 0 < |s.k.sems| && 0 < |s.k.conds|
  }

  function Me(s: State): Tid { s.k.current }

  // The point in the code from which a statement is executed.
  predicate From(p: Pc, a: Label) {
    match a
    case Start(_) => p.Outside?
    case Recheck => p.Locking? || p.Relocking?
    case Assign => p.Locked?
    case DoAppend => p.Entered? && p.op.Append?
    case DoSignal => p.Appended?
    case TestEmpty => p.Entered? && p.op.Remove?
    case Resume => p.Waiting?
    case Take => p.Taking?
    case TestHolder => p.Leaving?
    case Clear => p.Clearing?
    case Post => p.Posting?
    case Preempt => !p.Waiting?
    case Other(kl) => p.Outside? || kl.DoV?
  }

  predicate Enabled(s: State, a: Label) {
    && Shape(s)
    && (From(s.pc[Me(s)], a) || a == Other(K.DoPoll))
    && match a
       case Other(kl) => K.Enabled(s.k, kl) && S.Unrelated(kl, 1, 1)
       case Recheck => K.Enabled(s.k, K.DoP(0))
       case _ => K.Free(s.k)
  }

  // One turn of the loop of P in the Acquire that opens an operation.
  function TurnStart(s: State, op: Op): State
    requires Shape(s)
  {
    s.(k := K.SemP(s.k, 0), pc := s.pc[Me(s) := if s.k.sems[0].value > 0 then Locked(op) else Locking(op)])
  }

  // The same in the Acquire that ends Wait; interrupts are off there, so P and
  // the assignment of heldthread are one step.
  function TurnResume(s: State): State
    requires Shape(s)
  {
    if s.k.sems[0].value > 0 then
      s.(k := K.SemP(s.k, 0), held := Some(Me(s)), pc := s.pc[Me(s) := Entered(Remove)])
    else
      s.(k := K.SemP(s.k, 0), pc := s.pc[Me(s) := Relocking])
  }

  // Condition::Wait up to the switch: release the lock, join the queue, sleep.
  function Wait(s: State): State
    requires Shape(s)
  {
    var s1 := if s.held == Some(Me(s)) then s.(held := None, k := K.SemV(s.k, 0)) else s;
    s1.(k := K.CondSleep(s1.k, 0), pc := s.pc[Me(s) := Waiting])
  }

  function Apply(s: State, a: Label): State
    requires Enabled(s, a)
  {
    var me := Me(s);
    match a
    case Start(op) => TurnStart(s, op)
    case Recheck => if s.pc[me].Locking? then TurnStart(s, s.pc[me].op) else TurnResume(s)
    case Assign => s.(held := Some(me), pc := s.pc[me := Entered(s.pc[me].op)])
    case DoAppend =>
      var x := s.pc[me].op.item;
      s.(list := s.list + [x], appended := s.appended + [x], pc := s.pc[me := Appended])
    case DoSignal => s.(k := K.CondSignal(s.k, 0), pc := s.pc[me := Leaving(None)])
    case TestEmpty => if s.list == [] then Wait(s) else s.(pc := s.pc[me := Taking])
    case Resume => TurnResume(s)
    case Take =>
      if s.list == [] then s.(failed := true, pc := s.pc[me := Leaving(None)])
      else s.(list := s.list[1..], removed := s.removed + [s.list[0]], pc := s.pc[me := Leaving(Some(s.list[0]))])
    case TestHolder => s.(pc := s.pc[me := if s.held == Some(me) then Clearing(s.pc[me].got) else Outside])
    case Clear => s.(held := None, pc := s.pc[me := Posting(s.pc[me].got)])
    case Post => s.(k := K.SemV(s.k, 0), pc := s.pc[me := Outside])
    case Preempt => s.(k := K.Yield(s.k))
    case Other(kl) => s.(k := K.Apply(s.k, kl), pc := if kl.DoCreate? then s.pc + [Outside] else s.pc)
  }

  // ---------------------------------------------------------------- invariant

  // Between the decrement and the increment of the lock's semaphore.
  predicate Holds(p: Pc) {
    p.Locked? || p.Entered? || p.Appended? || p.Taking? || p.Leaving? || p.Clearing? || p.Posting?
  }

  function Inside(s: State): set<Tid> {
    set t | 0 <= t < |s.pc| && Holds(s.pc[t])
  }

  // Threads taken off listEmpty that have not got the lock back yet.
  function Signalled(s: State): set<Tid> {
    set t | 0 <= t < |s.pc| && t < |s.k.point| &&
            (s.pc[t].Relocking? || (s.pc[t].Waiting? && s.k.point[t] == K.InCode))
  }

  // Those, and the thread inside the monitor that is about to take or to signal.
  predicate OnTheWay(p: Pc, at: K.Point) {
    || p.Relocking? || (p.Waiting? && at == K.InCode)
    || p == Locked(Remove) || p == Entered(Remove) || p.Taking? || p.Appended?
  }

  function Coming(s: State): set<Tid> {
    set t | 0 <= t < |s.pc| && t < |s.k.point| && OnTheWay(s.pc[t], s.k.point[t])
  }

  predicate PointFits(s: State, t: Tid)
    requires t < |s.pc| == |s.k.point|
  {
    var p := s.k.point[t];
    && (p in {K.Checking(0), K.AsleepOn(0)} <==> s.pc[t].Locking? || s.pc[t].Relocking?)
    && (p == K.AsleepIn(0) ==> s.pc[t].Waiting?)
    && (s.pc[t].Waiting? ==> p in {K.AsleepIn(0), K.InCode})
    && (Holds(s.pc[t]) ==> p == K.InCode)
  }

  ghost predicate LockOk(s: State)
    requires 0 < |s.k.sems|
  {
    && s.k.sems[0].value + |Inside(s)| == 1
    && (s.held.Some? ==> s.held.value in Inside(s))
    && (forall t :: 0 <= t < |s.pc| && Holds(s.pc[t]) ==>
          && (s.held == Some(t) <==> !s.pc[t].Locked? && !s.pc[t].Posting?)
          && (s.pc[t].Taking? ==> s.list != []))
  }

  // Exactly-once, first-in first-out; and no item waits beside a sleeper
  // without a thread on its way to it.
  ghost predicate ItemsOk(s: State)
    requires 0 < |s.k.conds|
  {
    && s.appended == s.removed + s.list
    && !s.failed
    && (s.k.conds[0] != [] ==> |s.list| <= |Coming(s)|)
  }

  ghost predicate Inv(s: State) {
    K.Inv(s.k) && Good(s)
  }

  lemma Alone(s: State, t: Tid, u: Tid)
    requires 0 < |s.k.sems| && LockOk(s) && t < |s.pc| && u < |s.pc| && Holds(s.pc[t]) && Holds(s.pc[u])
    ensures t == u
  {
    AtMostOne(Inside(s), t, u);
  }

  lemma Bigger(x: set<Tid>, y: set<Tid>)
    requires x <= y
    ensures |x| <= |y|
  {
    assert y == x + (y - x);
  }

  // Nobody has gone to sleep on listEmpty, no item has come, and whoever was on
  // the way to an item still is.
  lemma ItemsKept(s: State, s': State)
    requires 0 < |s.k.conds| && 0 < |s'.k.conds| && ItemsOk(s)
    requires s'.k.conds[0] == s.k.conds[0] && s'.list == s.list && s'.appended == s.appended && s'.removed == s.removed && s'.failed == s.failed
    requires Coming(s) <= Coming(s')
    ensures ItemsOk(s')
  {
    Bigger(Coming(s), Coming(s'));
  }

  ghost predicate Fits(s: State) {
    && |s.pc| == |s.k.point| && 0 < |s.k.sems| && 0 < |s.k.conds|
    && forall t :: 0 <= t < |s.pc| ==> PointFits(s, t)
  }

  // s' differs from s only in what the running thread and the lock field say.
  ghost predicate Moves(s: State, s': State, me: Tid) {
    && me < |s.pc| == |s'.pc| == |s.k.point| == |s'.k.point|
    && 0 < |s.k.sems| == |s'.k.sems| && 0 < |s.k.conds| == |s'.k.conds|
    && forall t :: 0 <= t < |s.pc| && t != me ==> s'.pc[t] == s.pc[t] && s'.k.point[t] == s.k.point[t]
  }

  lemma FitsKept(s: State, s': State, me: Tid)
    requires Fits(s) && Moves(s, s', me) && PointFits(s', me)
    ensures Fits(s')
  {
    forall t | 0 <= t < |s.pc| ensures PointFits(s', t) {
      assert PointFits(s, t);
    }
  }

  lemma LockTaken(s: State, s': State, me: Tid)
    requires Moves(s, s', me) && LockOk(s) && s.k.sems[0].value > 0 && !Holds(s.pc[me])
    requires s'.k.sems[0].value == s.k.sems[0].value - 1 && Holds(s'.pc[me]) && !s'.pc[me].Taking?
    requires s'.held == if s'.pc[me].Locked? || s'.pc[me].Posting? then s.held else Some(me)
    ensures LockOk(s')
  {
    assert Inside(s) == {};
    assert Inside(s') == {me};
  }

  lemma LockKept(s: State, s': State, me: Tid)
    requires Moves(s, s', me) && LockOk(s) && s'.k.sems[0].value == s.k.sems[0].value
    requires !Holds(s.pc[me]) && !Holds(s'.pc[me]) && s'.held == s.held && s'.list == s.list
    ensures LockOk(s')
  {
    assert Inside(s') == Inside(s);
  }

  ghost predicate Good(s: State) {
    Fits(s) && LockOk(s) && ItemsOk(s)
  }

  // ------------------------------------------------------------ taking the lock

  lemma TurnStartGood(s: State, op: Op, s': State)
    requires Good(s) && S.PEffect(s.k, s'.k, 0) && s.pc[Me(s)] in {Outside, Locking(op)}
    requires s' == s.(k := s'.k, pc := s.pc[Me(s) := if s.k.sems[0].value > 0 then Locked(op) else Locking(op)])
    ensures Good(s')
  {
    var me := Me(s);
    assert Fits(s') by { FitsKept(s, s', me); }
    assert LockOk(s') by {
      if s.k.sems[0].value > 0 { LockTaken(s, s', me); } else { LockKept(s, s', me); }
    }
    assert ItemsOk(s') by { ItemsKept(s, s'); }
  }

  lemma TurnResumeGood(s: State, s': State)
    requires Good(s) && S.PEffect(s.k, s'.k, 0) && (s.pc[Me(s)].Relocking? || (s.pc[Me(s)].Waiting? && s.k.point[Me(s)] == K.InCode))
    requires s' == if s.k.sems[0].value > 0 then s.(k := s'.k, held := Some(Me(s)), pc := s.pc[Me(s) := Entered(Remove)])
                   else s.(k := s'.k, pc := s.pc[Me(s) := Relocking])
    ensures Good(s')
  {
    var me := Me(s);
    assert Fits(s') by { FitsKept(s, s', me); }
    assert LockOk(s') by {
      if s.k.sems[0].value > 0 { LockTaken(s, s', me); } else { LockKept(s, s', me); }
    }
    assert ItemsOk(s') by { ItemsKept(s, s'); }
  }

  // ---------------------------------------------------------- inside the monitor

  // A statement of the thread in the monitor that leaves the kernel alone.
  ghost predicate Local(s: State, s': State, me: Tid) {
    && s'.k == s.k && me < |s.pc| == |s'.pc| && Holds(s.pc[me])
    && s'.pc == s.pc[me := s'.pc[me]] && Holds(s'.pc[me])
  }

  lemma LocalLock(s: State, s': State, me: Tid)
    requires Fits(s) && LockOk(s) && Local(s, s', me)
    requires s'.held == if s'.pc[me].Locked? || s'.pc[me].Posting? then None else Some(me)
    requires s'.pc[me].Taking? ==> s'.list != []
    ensures Fits(s') && LockOk(s')
  {
    assert Fits(s') by {
      assert PointFits(s, me);
      FitsKept(s, s', me);
    }
    assert Inside(s') == Inside(s);
    forall t | 0 <= t < |s.pc| && Holds(s.pc[t]) ensures t == me { Alone(s, t, me); }
  }

  lemma AssignGood(s: State)
    requires Good(s) && Enabled(s, Assign)
    ensures Good(Apply(s, Assign))
  {
    var s' := Apply(s, Assign);
    assert Fits(s') && LockOk(s') by { LocalLock(s, s', Me(s)); }
    assert ItemsOk(s') by { ItemsKept(s, s'); }
  }

  lemma AppendGood(s: State)
    requires Good(s) && Enabled(s, DoAppend)
    ensures Good(Apply(s, DoAppend))
  {
    var s' := Apply(s, DoAppend);
    assert Fits(s') && LockOk(s') by { LocalLock(s, s', Me(s)); }
    assert ItemsOk(s') by {
      assert Coming(s') == Coming(s) + {Me(s)};
    }
  }

  lemma TestNonEmptyGood(s: State)
    requires Good(s) && Enabled(s, TestEmpty) && s.list != []
    ensures Good(Apply(s, TestEmpty))
  {
    var s' := Apply(s, TestEmpty);
    assert Fits(s') && LockOk(s') by { LocalLock(s, s', Me(s)); }
    assert ItemsOk(s') by { ItemsKept(s, s'); }
  }

  lemma TakeGood(s: State)
    requires Good(s) && Enabled(s, Take)
    ensures Good(Apply(s, Take))
  {
    var s' := Apply(s, Take);
    assert Me(s) in Inside(s);
    assert Fits(s') && LockOk(s') by { LocalLock(s, s', Me(s)); }
    assert ItemsOk(s') by {
      assert Coming(s') == Coming(s) - {Me(s)};
      assert s.list == [s.list[0]] + s.list[1..];
    }
  }

  lemma TestHolderGood(s: State)
    requires Good(s) && Enabled(s, TestHolder)
    ensures Good(Apply(s, TestHolder))
  {
    var s' := Apply(s, TestHolder);
    assert Me(s) in Inside(s);
    assert Fits(s') && LockOk(s') by { LocalLock(s, s', Me(s)); }
    assert ItemsOk(s') by { ItemsKept(s, s'); }
  }

  lemma ClearGood(s: State)
    requires Good(s) && Enabled(s, Clear)
    ensures Good(Apply(s, Clear))
  {
    var s' := Apply(s, Clear);
    assert Fits(s') && LockOk(s') by { LocalLock(s, s', Me(s)); }
    assert ItemsOk(s') by { ItemsKept(s, s'); }
  }

  lemma SignalGood(s: State, s': State)
    requires Good(s) && Me(s) < |s.pc| && s.pc[Me(s)].Appended? && S.SignalEffect(s.k, s'.k, 0)
    requires s' == s.(k := s'.k, pc := s.pc[Me(s) := Leaving(None)])
    ensures Good(s')
  {
    var me := Me(s);
    assert Fits(s') by {
      forall t | 0 <= t < |s.pc| ensures PointFits(s', t) { assert PointFits(s, t); }
    }
    assert LockOk(s') by {
      assert Inside(s') == Inside(s);
      forall t | 0 <= t < |s.pc| && Holds(s.pc[t]) ensures t == me { Alone(s, t, me); }
    }
    assert ItemsOk(s') by {
      if s.k.conds[0] != [] {
        var woken := s.k.conds[0][0];
        assert PointFits(s, woken);
        assert Coming(s') == Coming(s) - {me} + {woken};
      }
    }
  }

  // ---------------------------------------------------------- leaving the monitor

  lemma PostGood(s: State, s': State)
    requires Good(s) && Me(s) < |s.pc| && s.pc[Me(s)].Posting? && S.VEffect(s.k, s'.k, 0)
    requires s' == s.(k := s'.k, pc := s.pc[Me(s) := Outside])
    ensures Good(s')
  {
    var me := Me(s);
    assert Fits(s') by {
      assert PointFits(s, me);
      forall t | 0 <= t < |s.pc| ensures PointFits(s', t) { assert PointFits(s, t); }
    }
    assert LockOk(s') by {
      assert me in Inside(s);
      assert Inside(s') == Inside(s) - {me};
    }
    assert ItemsOk(s') by {
      forall t | t in Coming(s) ensures t in Coming(s') { assert PointFits(s, t); }
      ItemsKept(s, s');
    }
  }

  lemma WaitGood(s: State, k1: K.State, s': State)
    requires Good(s) && Me(s) < |s.pc| && s.pc[Me(s)] == Entered(Remove) && s.list == []
    requires S.VEffect(s.k, k1, 0) && S.WaitEffect(k1, s'.k, 0)
    requires s' == s.(k := s'.k, held := None, pc := s.pc[Me(s) := Waiting])
    ensures Good(s')
  {
    var me := Me(s);
    assert Fits(s') by {
      assert PointFits(s, me);
      forall t | 0 <= t < |s.pc| ensures PointFits(s', t) { assert PointFits(s, t); }
    }
    assert LockOk(s') by {
      assert me in Inside(s);
      assert Inside(s') == Inside(s) - {me};
    }
  }

  // -------------------------------------------------------------- everything else

  lemma PreemptGood(s: State, s': State)
    requires Good(s) && s' == s.(k := s'.k) && s'.k.point == s.k.point && s'.k.sems == s.k.sems && s'.k.conds == s.k.conds
    ensures Good(s')
  {
    assert Fits(s') by {
      forall t | 0 <= t < |s.pc| ensures PointFits(s', t) { assert PointFits(s, t); }
    }
    assert LockOk(s') by { assert Inside(s') == Inside(s); }
    assert ItemsOk(s') by { ItemsKept(s, s'); }
  }

  lemma OtherGood(s: State, kl: K.Label, s': State)
    requires Good(s) && S.Bystander(s.k, s'.k, kl, 1, 1) && Me(s) < |s.pc|
    requires s.pc[Me(s)].Outside? || kl.DoV? || kl.DoPoll?
    requires s' == s.(k := s'.k, pc := if kl.DoCreate? then s.pc + [Outside] else s.pc)
    ensures Good(s')
  {
    assert Fits(s') by {
      forall t | 0 <= t < |s'.pc| ensures PointFits(s', t) {
        if t < |s.pc| { assert PointFits(s, t); }
      }
    }
    assert LockOk(s') by { assert Inside(s') == Inside(s); }
    assert ItemsOk(s') by {
      forall t | t in Coming(s) ensures t in Coming(s') { assert PointFits(s, t); }
      ItemsKept(s, s');
    }
  }

  // ------------------------------------------------------------------- all steps

  lemma TurnKeeps(s: State, a: Label)
    requires Inv(s) && Enabled(s, a) && (a.Start? || a.Recheck? || a.Resume?)
    ensures Inv(Apply(s, a))
  {
    var s' := Apply(s, a);
    var p := s.pc[Me(s)];
    assert S.PEffect(s.k, s'.k, 0) by { S.PHasEffect(s.k, 0); }
    assert K.Inv(s'.k) by { S.PKeeps(s.k, 0); }
    if a.Start? {
      TurnStartGood(s, a.op, s');
    } else if p.Locking? {
      TurnStartGood(s, p.op, s');
    } else {
      TurnResumeGood(s, s');
    }
  }

  lemma WaitKeeps(s: State)
    requires Inv(s) && Enabled(s, TestEmpty) && s.list == []
    ensures Inv(Apply(s, TestEmpty))
  {
    var me := Me(s);
    assert me in Inside(s);
    var k1 := K.SemV(s.k, 0);
    S.VKeeps(s.k, 0);
    S.VHasEffect(s.k, 0);
    S.WaitKeeps(k1, 0);
    S.WaitHasEffect(k1, 0);
    WaitGood(s, k1, Apply(s, TestEmpty));
  }

  lemma SignalKeeps(s: State)
    requires Inv(s) && Enabled(s, DoSignal)
    ensures Inv(Apply(s, DoSignal))
  {
    S.SignalKeeps(s.k, 0);
    S.SignalHasEffect(s.k, 0);
    SignalGood(s, Apply(s, DoSignal));
  }

  lemma PostKeeps(s: State)
    requires Inv(s) && Enabled(s, Post)
    ensures Inv(Apply(s, Post))
  {
    S.VKeeps(s.k, 0);
    S.VHasEffect(s.k, 0);
    PostGood(s, Apply(s, Post));
  }

  lemma PreemptKeeps(s: State)
    requires Inv(s) && Enabled(s, Preempt)
    ensures Inv(Apply(s, Preempt))
  {
    S.YieldKeeps(s.k);
    PreemptGood(s, Apply(s, Preempt));
  }

  lemma OtherKeeps(s: State, kl: K.Label)
    requires Inv(s) && Enabled(s, Other(kl))
    ensures Inv(Apply(s, Other(kl)))
  {
    S.StepKeeps(s.k, kl);
    S.UnrelatedIsBystander(s.k, kl, 1, 1);
    OtherGood(s, kl, Apply(s, Other(kl)));
  }

  lemma LocalKeeps(s: State, a: Label)
    requires Inv(s) && Enabled(s, a)
    requires a.Assign? || a.DoAppend? || a.Take? || a.TestHolder? || a.Clear? || (a.TestEmpty? && s.list != [])
    ensures Inv(Apply(s, a))
  {
    match a
    case Assign => AssignGood(s);
    case DoAppend => AppendGood(s);
    case Take => TakeGood(s);
    case TestHolder => TestHolderGood(s);
    case Clear => ClearGood(s);
    case TestEmpty => TestNonEmptyGood(s);
  }

  lemma StepKeeps(s: State, a: Label)
    requires Inv(s) && Enabled(s, a)
    ensures Inv(Apply(s, a))
  {
    match a
    case DoSignal => SignalKeeps(s);
    case Post => PostKeeps(s);
    case Preempt => PreemptKeeps(s);
    case Other(kl) => OtherKeeps(s, kl);
    case Start(_) => TurnKeeps(s, a);
    case Recheck => TurnKeeps(s, a);
    case Resume => TurnKeeps(s, a);
    case _ => if a.TestEmpty? && s.list == [] { WaitKeeps(s); } else { LocalKeeps(s, a); }
  }

  // --------------------------------------------------------------------- runs

  // Semaphore 0 is the lock, condition 0 is listEmpty; the rest is other code's.
  function Boot(others: seq<nat>, conditions: nat): State {
    State(K.Boot([1] + others, 1 + conditions), None, [Outside], [], [], [], false)
  }

  function Next(s: State, a: Label): State {
    if Enabled(s, a) then Apply(s, a) else s
  }

  function Exec(s: State, run: seq<Label>): State {
    After(Next, s, run)
  }

  lemma ExecKeeps(s: State, run: seq<Label>)
    requires Inv(s)
    ensures Inv(Exec(s, run))
  {
    forall r, a | Inv(r) ensures Inv(Next(r, a)) {
      if Enabled(r, a) { StepKeeps(r, a); }
    }
    Along(Next, Inv, s, run);
  }

  lemma Reachable(others: seq<nat>, conditions: nat, run: seq<Label>)
    ensures Inv(Exec(Boot(others, conditions), run))
  {
    var b := Boot(others, conditions);
    S.BootInv([1] + others, 1 + conditions);
    assert Inside(b) == {};
    assert Inv(b);
    ExecKeeps(b, run);
  }

  // ------------------------------------------------------------ what was asked for

  // A statement that was executed, by whom, and the item that a Remove returned with it.
  datatype Step = Step(t: Tid, a: Label, got: Option<Item>)

  function Seen(s: State, a: Label): seq<Step> {
    if Enabled(s, a) then [StepOf(s, a)] else []
  }

  function Steps(s: State, run: seq<Label>): seq<Step> {
    Trace(Next, Seen, s, run)
  }

  // A call returns with the V of its Release.
  function StepOf(s: State, a: Label): Step
    requires Enabled(s, a)
  {
    Step(Me(s), a, if a.Post? then s.pc[Me(s)].got else None)
  }

  // The calls of a thread, in order, read off the statements executed.
  function Called(steps: seq<Step>, t: Tid): seq<Op> {
    if steps == [] then []
    else
      var last := steps[|steps| - 1];
      Called(steps[..|steps| - 1], t) + if last.t == t then CallOf(last.a) else []
  }

  function CallOf(a: Label): seq<Op> { if a.Start? then [a.op] else [] }

  function LatestOf(calls: seq<Op>): seq<Op> { if calls == [] then [] else [calls[|calls| - 1]] }

  // What a statement completes: an Append puts its item on the list, a Remove returns one.
  function Completes(x: Step, latest: seq<Op>): seq<Op> {
    if x.a.DoAppend? then latest else if x.got.Some? then [Remove] else []
  }

  // The calls of a thread that were carried out, in order.
  function Done(steps: seq<Step>, t: Tid): seq<Op> {
    if steps == [] then []
    else
      var before, last := steps[..|steps| - 1], steps[|steps| - 1];
      Done(before, t) + if last.t == t then Completes(last, LatestOf(Called(before, t))) else []
  }

  // The items that the Append calls were given, in the order in which they went on.
  function Given(steps: seq<Step>): seq<Item> {
    if steps == [] then []
    else
      var before, last := steps[..|steps| - 1], steps[|steps| - 1];
      Given(before) + if last.a.DoAppend? then ItemOf(LatestOf(Called(before, last.t))) else []
  }

  function ItemOf(latest: seq<Op>): seq<Item> { if latest != [] && latest[0].Append? then [latest[0].item] else [] }

  // The items that the Remove calls returned, in order.
  function Returned(steps: seq<Step>): seq<Item> {
    if steps == [] then []
    else Returned(steps[..|steps| - 1]) + AsSeq(steps[|steps| - 1].got)
  }

  function AsSeq(x: Option<Item>): seq<Item> { if x.Some? then [x.value] else [] }

  // The call that a thread at this point still has to carry out.
  function ToDo(p: Pc): seq<Op> {
    match p
    case Locking(op) => [op]
    case Locked(op) => [op]
    case Entered(op) => [op]
    case Waiting => [Remove]
    case Relocking => [Remove]
    case Taking => [Remove]
    case Leaving(got) => if got.Some? then [Remove] else []
    case Clearing(got) => if got.Some? then [Remove] else []
    case Posting(got) => if got.Some? then [Remove] else []
    case _ => []
  }

  function ToDoOf(s: State, t: Tid): seq<Op> { if t < |s.pc| then ToDo(s.pc[t]) else [] }

  // The item that a thread at this point has taken off and not returned yet.
  function Carried(p: Pc): seq<Item> {
    match p
    case Leaving(got) => AsSeq(got)
    case Clearing(got) => AsSeq(got)
    case Posting(got) => AsSeq(got)
    case _ => []
  }

  // Every call of every thread is carried out once, in order, or still to do.
  ghost predicate CallsKept(s: State, steps: seq<Step>) {
    forall t: Tid :: Called(steps, t) == Done(steps, t) + ToDoOf(s, t)
  }

  // What came off has been returned, but for the item of the thread inside.
  ghost predicate ReturnsKept(s: State, steps: seq<Step>) {
    && (forall t :: 0 <= t < |s.pc| && Holds(s.pc[t]) ==> s.removed == Returned(steps) + Carried(s.pc[t]))
    && ((forall t :: 0 <= t < |s.pc| ==> !Holds(s.pc[t])) ==> s.removed == Returned(steps))
  }

  ghost predicate Tracks(s: State, steps: seq<Step>) {
    CallsKept(s, steps) && ReturnsKept(s, steps) && s.appended == Given(steps)
  }

  // Only the running thread moves.
  ghost predicate OthersStay(s: State, t: Tid, s': State) {
    && t < |s.pc| <= |s'.pc|
    && (forall u :: 0 <= u < |s.pc| && u != t ==> s'.pc[u] == s.pc[u])
    && (forall u :: |s.pc| <= u < |s'.pc| ==> s'.pc[u] == Outside)
  }

  // A statement carries out what its thread had to do, or what it was called for.
  ghost predicate CallMoves(p: Pc, x: Step, q: Pc) {
    && (x.a.DoAppend? ==> |ToDo(p)| == 1)
    && ToDo(p) + CallOf(x.a) == Completes(x, ToDo(p)) + ToDo(q)
  }

  // An item that comes off the list is carried until it is returned.
  ghost predicate ItemMoves(s: State, x: Step, s': State, q: Pc) {
    && s'.appended == s.appended + (if x.a.DoAppend? then ItemOf(ToDoOf(s, x.t)) else [])
    && |s.removed| <= |s'.removed| && s'.removed == s.removed + s'.removed[|s.removed|..]
    && x.t < |s.pc| && Carried(s.pc[x.t]) + s'.removed[|s.removed|..] == AsSeq(x.got) + Carried(q)
    && (!Holds(s.pc[x.t]) ==> s'.removed == s.removed && x.got == None)
  }

  // Whoever moves inside the monitor, or enters it, is alone there.
  ghost predicate AloneInside(s: State, t: Tid, q: Pc) {
    t < |s.pc| && (Holds(s.pc[t]) || Holds(q) ==> forall u :: 0 <= u < |s.pc| && u != t ==> !Holds(s.pc[u]))
  }

  ghost predicate Effect(s: State, x: Step, s': State) {
    && OthersStay(s, x.t, s') && CallMoves(s.pc[x.t], x, s'.pc[x.t])
    && ItemMoves(s, x, s', s'.pc[x.t]) && AloneInside(s, x.t, s'.pc[x.t])
  }

  lemma OthersStayed(s: State, a: Label)
    requires Enabled(s, a)
    ensures OthersStay(s, Me(s), Apply(s, a))
  {
  }

  // What the running thread can rely on.
  ghost predicate Sure(s: State) {
    && Me(s) < |s.pc|
    && (s.pc[Me(s)].Taking? ==> s.list != [])
    && (s.pc[Me(s)].Leaving? ==> s.held == Some(Me(s)))
  }

  lemma CallMoved(s: State, a: Label)
    requires Sure(s) && Enabled(s, a)
    ensures Me(s) < |Apply(s, a).pc| && CallMoves(s.pc[Me(s)], StepOf(s, a), Apply(s, a).pc[Me(s)])
  {
    if a.Start? || a.Recheck? || a.Resume? || a.TestEmpty? { WaitingMoved(s, a); } else { InnerMoved(s, a); }
  }

  lemma WaitingMoved(s: State, a: Label)
    requires Sure(s) && Enabled(s, a) && (a.Start? || a.Recheck? || a.Resume? || a.TestEmpty?)
    ensures Me(s) < |Apply(s, a).pc| && CallMoves(s.pc[Me(s)], StepOf(s, a), Apply(s, a).pc[Me(s)])
  {
  }

  lemma InnerMoved(s: State, a: Label)
    requires Sure(s) && Enabled(s, a) && !(a.Start? || a.Recheck? || a.Resume? || a.TestEmpty?)
    ensures Me(s) < |Apply(s, a).pc| && CallMoves(s.pc[Me(s)], StepOf(s, a), Apply(s, a).pc[Me(s)])
  {
  }

  lemma ItemMoved(s: State, a: Label)
    requires Sure(s) && Enabled(s, a)
    ensures Me(s) < |Apply(s, a).pc| && ItemMoves(s, StepOf(s, a), Apply(s, a), Apply(s, a).pc[Me(s)])
  {
    if a.Start? || a.Recheck? || a.Resume? || a.TestEmpty? { NoItemMoved(s, a); } else { ItemMovedInside(s, a); }
  }

  lemma NoItemMoved(s: State, a: Label)
    requires Sure(s) && Enabled(s, a) && (a.Start? || a.Recheck? || a.Resume? || a.TestEmpty?)
    ensures Me(s) < |Apply(s, a).pc| && ItemMoves(s, StepOf(s, a), Apply(s, a), Apply(s, a).pc[Me(s)])
  {
  }

  lemma ItemMovedInside(s: State, a: Label)
    requires Sure(s) && Enabled(s, a) && !(a.Start? || a.Recheck? || a.Resume? || a.TestEmpty?)
    ensures Me(s) < |Apply(s, a).pc| && ItemMoves(s, StepOf(s, a), Apply(s, a), Apply(s, a).pc[Me(s)])
  {
  }

  lemma InsideAlone(s: State, a: Label)
    requires Good(s) && Enabled(s, a)
    ensures Me(s) < |Apply(s, a).pc| && AloneInside(s, Me(s), Apply(s, a).pc[Me(s)])
  {
    var me := Me(s);
    forall u | 0 <= u < |s.pc| && u != me && (Holds(s.pc[me]) || Holds(Apply(s, a).pc[me])) ensures !Holds(s.pc[u]) {
      if Holds(s.pc[u]) {
        assert u in Inside(s);
        if Holds(s.pc[me]) { Alone(s, u, me); }
      }
    }
  }

  lemma StepEffect(s: State, a: Label)
    requires Good(s) && Enabled(s, a)
    ensures Effect(s, StepOf(s, a), Apply(s, a))
  {
    OthersStayed(s, a);
    CallMoved(s, a);
    ItemMoved(s, a);
    InsideAlone(s, a);
  }

  lemma CalledSnoc(steps: seq<Step>, x: Step, t: Tid)
    ensures Called(steps + [x], t) == Called(steps, t) + if x.t == t then CallOf(x.a) else []
    ensures Done(steps + [x], t) == Done(steps, t) + if x.t == t then Completes(x, LatestOf(Called(steps, t))) else []
  {
    assert (steps + [x])[..|steps|] == steps;
  }

  lemma GivenSnoc(steps: seq<Step>, x: Step)
    ensures Given(steps + [x]) == Given(steps) + if x.a.DoAppend? then ItemOf(LatestOf(Called(steps, x.t))) else []
    ensures Returned(steps + [x]) == Returned(steps) + AsSeq(x.got)
  {
    assert (steps + [x])[..|steps|] == steps;
  }

  lemma StepCalls(s: State, x: Step, s': State, steps: seq<Step>)
    requires CallsKept(s, steps) && Effect(s, x, s')
    ensures CallsKept(s', steps + [x])
    ensures x.a.DoAppend? ==> LatestOf(Called(steps, x.t)) == ToDoOf(s, x.t)
  {
    assert Called(steps, x.t) == Done(steps, x.t) + ToDoOf(s, x.t);
    forall t: Tid ensures Called(steps + [x], t) == Done(steps + [x], t) + ToDoOf(s', t) {
      CalledSnoc(steps, x, t);
      assert Called(steps, t) == Done(steps, t) + ToDoOf(s, t);
      if t == x.t {
        Regroup(Done(steps, t), ToDoOf(s, t), CallOf(x.a), Completes(x, ToDoOf(s, t)), ToDoOf(s', t));
      }
    }
  }

  lemma ItemReturned(s: State, x: Step, s': State, q: Pc, steps: seq<Step>)
    requires ItemMoves(s, x, s', q) && s.removed == Returned(steps) + Carried(s.pc[x.t])
    ensures s'.removed == Returned(steps + [x]) + Carried(q)
  {
    GivenSnoc(steps, x);
    Regroup(Returned(steps), Carried(s.pc[x.t]), s'.removed[|s.removed|..], AsSeq(x.got), Carried(q));
  }

  lemma StepReturns(s: State, x: Step, s': State, steps: seq<Step>)
    requires ReturnsKept(s, steps) && OthersStay(s, x.t, s') && ItemMoves(s, x, s', s'.pc[x.t]) && AloneInside(s, x.t, s'.pc[x.t])
    ensures ReturnsKept(s', steps + [x])
  {
    if Holds(s.pc[x.t]) || Holds(s'.pc[x.t]) {
      assert s.removed == Returned(steps) + Carried(s.pc[x.t]) by { CarriedBefore(s, x.t, steps); }
      assert s'.removed == Returned(steps + [x]) + Carried(s'.pc[x.t]) by { ItemReturned(s, x, s', s'.pc[x.t], steps); }
      CarriedAfter(s, x, s', steps + [x]);
    } else {
      assert Returned(steps + [x]) == Returned(steps) by { GivenSnoc(steps, x); }
      StayedOut(s, x, s', steps + [x]);
    }
  }

  lemma CarriedBefore(s: State, t: Tid, steps: seq<Step>)
    requires ReturnsKept(s, steps) && t < |s.pc| && forall u :: 0 <= u < |s.pc| && u != t ==> !Holds(s.pc[u])
    ensures s.removed == Returned(steps) + Carried(s.pc[t])
  {
    if !Holds(s.pc[t]) { assert Carried(s.pc[t]) == []; }
  }

  lemma CarriedAfter(s: State, x: Step, s': State, steps: seq<Step>)
    requires OthersStay(s, x.t, s') && (forall u :: 0 <= u < |s.pc| && u != x.t ==> !Holds(s.pc[u]))
    requires s'.removed == Returned(steps) + Carried(s'.pc[x.t])
    ensures ReturnsKept(s', steps)
  {
    forall t | 0 <= t < |s'.pc| && t != x.t ensures !Holds(s'.pc[t]) {}
    if !Holds(s'.pc[x.t]) { assert Carried(s'.pc[x.t]) == []; }
  }

  lemma StayedOut(s: State, x: Step, s': State, steps: seq<Step>)
    requires OthersStay(s, x.t, s') && !Holds(s.pc[x.t]) && !Holds(s'.pc[x.t]) && s'.removed == s.removed && ReturnsKept(s, steps)
    ensures ReturnsKept(s', steps)
  {
    forall t | 0 <= t < |s.pc| ensures Holds(s'.pc[t]) == Holds(s.pc[t]) {}
  }

  lemma StepTracks(s: State, x: Step, s': State, steps: seq<Step>)
    requires Tracks(s, steps) && Effect(s, x, s')
    ensures Tracks(s', steps + [x])
  {
    StepCalls(s, x, s', steps);
    StepReturns(s, x, s', steps);
    GivenSnoc(steps, x);
  }

  ghost predicate Tracked(s: State, steps: seq<Step>) {
    Inv(s) && Tracks(s, steps)
  }

  lemma NextTracked(s: State, a: Label, steps: seq<Step>)
    requires Tracked(s, steps) && Enabled(s, a)
    ensures Tracked(Apply(s, a), steps + [StepOf(s, a)])
  {
    assert Inv(Apply(s, a)) by { StepKeeps(s, a); }
    assert Effect(s, StepOf(s, a), Apply(s, a)) by { StepEffect(s, a); }
    StepTracks(s, StepOf(s, a), Apply(s, a), steps);
  }

  lemma RunTracked(others: seq<nat>, conditions: nat, run: seq<Label>)
    ensures Tracked(Exec(Boot(others, conditions), run), Steps(Boot(others, conditions), run))
  {
    var b := Boot(others, conditions);
    assert Tracked(b, []) by { Reachable(others, conditions, []); }
    forall s, steps, a | Tracked(s, steps) ensures Tracked(Next(s, a), steps + Seen(s, a)) {
      if Enabled(s, a) { NextTracked(s, a, steps); } else { assert steps + [] == steps; }
    }
    AlongTrace(Next, Seen, Tracked, b, [], run);
    assert [] + Steps(b, run) == Steps(b, run);
  }

  // In every interleaving the items that the Remove calls return are, in order, a
  // prefix of the items that the Append calls were given; between the two are at most
  // one item on its way to its caller and then the list; and ASSERT(item != NULL) never
  // fires.
  lemma ExactlyOnceInOrder(others: seq<nat>, conditions: nat, run: seq<Label>)
    ensures var s, steps := Exec(Boot(others, conditions), run), Steps(Boot(others, conditions), run);
            && Returned(steps) <= s.removed <= Given(steps) && |s.removed| <= |Returned(steps)| + 1
            && Given(steps) == s.removed + s.list && !s.failed
  {
    var s, steps := Exec(Boot(others, conditions), run), Steps(Boot(others, conditions), run);
    RunTracked(others, conditions, run);
    if t :| 0 <= t < |s.pc| && Holds(s.pc[t]) {
      assert s.removed == Returned(steps) + Carried(s.pc[t]);
    }
  }

  // In every interleaving a thread's calls are carried out once each, in order: an
  // Append puts on the list the item it was given, a Remove returns an item.  When the
  // thread is outside, all of them are done, and otherwise all but the last at least.
  lemma CallsCarriedOut(others: seq<nat>, conditions: nat, run: seq<Label>, t: Tid)
    ensures var s, steps := Exec(Boot(others, conditions), run), Steps(Boot(others, conditions), run);
            && Done(steps, t) <= Called(steps, t) && |Called(steps, t)| <= |Done(steps, t)| + 1
            && (t < |s.pc| && s.pc[t] == Outside ==> Done(steps, t) == Called(steps, t))
  {
    assert CallsKept(Exec(Boot(others, conditions), run), Steps(Boot(others, conditions), run)) by {
      RunTracked(others, conditions, run);
    }
  }

  // ------------------------------------------------------------------ going forward

  // The statement that a thread inside a call executes next.
  function NextOf(p: Pc): Label {
    match p
    case Locked(_) => Assign
    case Entered(op) => if op.Append? then DoAppend else TestEmpty
    case Appended => DoSignal
    case Waiting => Resume
    case Taking => Take
    case Leaving(_) => TestHolder
    case Clearing(_) => Clear
    case Posting(_) => Post
    case _ => Recheck
  }

  // How many statements, at most, are left of the call, waits not counted.
  function Left(p: Pc): nat {
    match p
    case Outside => 0
    case Waiting => 9
    case Relocking => 8
    case Locking(_) => 8
    case Locked(_) => 7
    case Entered(_) => 6
    case Appended => 5
    case Taking => 5
    case Leaving(_) => 4
    case Clearing(_) => 3
    case Posting(_) => 2
  }

  ghost predicate Forward(s: State, s': State) {
    && Me(s) < |s.pc| == |s'.pc| == |s'.k.point| && 0 < |s.k.sems|
    && var p, q := s.pc[Me(s)], s'.pc[Me(s)];
       || Left(q) < Left(p)
       || (q == p && s.k.sems[0].value == 0 && s'.k.point[Me(s)] == K.AsleepOn(0))
       || (p == Entered(Remove) && q == Waiting && s.list == [] && s'.k.point[Me(s)] == K.AsleepIn(0))
  }

  // In every run, whoever is on the processor inside a call can execute its next
  // statement, and is closer to the end after it, or asleep: on the lock at 0, or on
  // listEmpty with nothing on the list.
  lemma GoesForward(others: seq<nat>, conditions: nat, run: seq<Label>, s: State)
    requires s == Exec(Boot(others, conditions), run) && !s.k.idle && Me(s) < |s.pc| && s.pc[Me(s)] != Outside
    ensures Enabled(s, NextOf(s.pc[Me(s)])) && Forward(s, Apply(s, NextOf(s.pc[Me(s)])))
  {
    assert Inv(s) by { Reachable(others, conditions, run); }
    NextEnabled(s);
    NextForward(s);
  }

  lemma NextEnabled(s: State)
    requires Inv(s) && !s.k.idle && Me(s) < |s.pc| && s.pc[Me(s)] != Outside
    ensures Enabled(s, NextOf(s.pc[Me(s)]))
  {
    S.Shaped(s.k);
    assert PointFits(s, Me(s));
  }

  lemma NextForward(s: State)
    requires K.Inv(s.k) && Shape(s) && s.pc[Me(s)] != Outside && Enabled(s, NextOf(s.pc[Me(s)]))
    ensures Forward(s, Apply(s, NextOf(s.pc[Me(s)])))
  {
    var p := s.pc[Me(s)];
    if p.Locking? || p.Relocking? || p.Waiting? {
      TurnForward(s);
    } else if p == Entered(Remove) && s.list == [] {
      WaitForward(s);
    } else {
      InnerForward(s);
    }
  }

  lemma TurnForward(s: State)
    requires Shape(s) && (s.pc[Me(s)].Locking? || s.pc[Me(s)].Relocking? || s.pc[Me(s)].Waiting?) && Enabled(s, NextOf(s.pc[Me(s)]))
    ensures Forward(s, Apply(s, NextOf(s.pc[Me(s)])))
  {
    var p := s.pc[Me(s)];
    assert Apply(s, NextOf(p)) == if p.Locking? then TurnStart(s, p.op) else TurnResume(s);
    if p.Locking? { StartForward(s, p.op); } else { ResumeForward(s); }
  }

  lemma StartForward(s: State, op: Op)
    requires Shape(s) && s.pc[Me(s)] == Locking(op)
    ensures Forward(s, TurnStart(s, op))
  {
    S.PHasEffect(s.k, 0);
  }

  lemma ResumeForward(s: State)
    requires Shape(s) && (s.pc[Me(s)].Relocking? || s.pc[Me(s)].Waiting?)
    ensures Forward(s, TurnResume(s))
  {
    S.PHasEffect(s.k, 0);
  }

  lemma WaitForward(s: State)
    requires K.Inv(s.k) && Shape(s) && s.pc[Me(s)] == Entered(Remove) && s.list == [] && Enabled(s, TestEmpty)
    ensures Forward(s, Apply(s, TestEmpty))
  {
    var k1 := if s.held == Some(Me(s)) then K.SemV(s.k, 0) else s.k;
    S.VKeeps(s.k, 0);
    S.Shaped(k1);
    S.WaitHasEffect(k1, 0);
  }

  lemma InnerForward(s: State)
    requires Shape(s) && Holds(s.pc[Me(s)]) && (s.pc[Me(s)] == Entered(Remove) ==> s.list != []) && Enabled(s, NextOf(s.pc[Me(s)]))
    ensures Forward(s, Apply(s, NextOf(s.pc[Me(s)])))
  {
  }

  // Where a signalled thread is.
  lemma SignalledPlace(s: State, t: Tid)
    requires K.Inv(s.k) && 0 < |s.k.sems| && t < |s.k.point| && s.k.point[t] in {K.InCode, K.Checking(0), K.AsleepOn(0)}
    ensures t in s.k.ready || K.OnProcessor(s.k, t) || t in s.k.sems[0].queue
  {
    if s.k.point[t] == K.AsleepOn(0) {
      assert t in K.SemSleepers(s.k, 0);
    } else if !K.OnProcessor(s.k, t) {
      assert t in K.ReadySet(s.k);
    }
  }

  // Whenever the lock is free and a thread sleeps on listEmpty, there are at
  // least as many signalled threads on their way back as items on the list, and
  // each of them is ready, running, or queued for the lock.
  lemma NoItemForgotten(others: seq<nat>, conditions: nat, run: seq<Label>)
    requires var s := Exec(Boot(others, conditions), run);
             |s.k.sems| > 0 && s.k.sems[0].value > 0 && |s.k.conds| > 0 && s.k.conds[0] != []
    ensures var s := Exec(Boot(others, conditions), run);
            && |s.list| <= |Signalled(s)|
            && forall t :: t in Signalled(s) ==> t in s.k.ready || K.OnProcessor(s.k, t) || t in s.k.sems[0].queue
  {
    var s := Exec(Boot(others, conditions), run);
    Reachable(others, conditions, run);
    assert Inside(s) == {};
    assert forall t :: 0 <= t < |s.pc| ==> !Holds(s.pc[t]) by {
      forall t | 0 <= t < |s.pc| ensures !Holds(s.pc[t]) { assert t !in Inside(s); }
    }
    assert Coming(s) == Signalled(s);
    forall t | t in Signalled(s) ensures t in s.k.ready || K.OnProcessor(s.k, t) || t in s.k.sems[0].queue {
      assert PointFits(s, t);
      SignalledPlace(s, t);
    }
  }
}

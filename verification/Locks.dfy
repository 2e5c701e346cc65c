/**
  Locks built on semaphores, on top of the kernel machine: lock l is semaphore
  l with initial value 1 plus the field `heldthread`.  Acquire and Release run
  with interrupts on, so a preemption may fall between any two of their
  statements; a thread may release a lock it does not hold.
 */
module Locks {
  import opened Common
  import K = Kernel
  import S = KernelSafety

  type Tid = K.Tid

  datatype Pc =
    | Outside             // between lock operations
    | Acquiring(l: nat)   // inside P, its loop not left yet
    | Taken(l: nat)       // P done, heldthread not assigned yet
    | Clearing(l: nat)    // Release has seen that it is the holder
    | Posting(l: nat)     // heldthread is NULL again, V not done yet

  // `owners[l]` is history: the threads between their decrement of semaphore l
  // and their increment of it.
  datatype State = State(k: K.State, held: seq<Option<Tid>>, pc: seq<Pc>, owners: seq<set<Tid>>)

  datatype Label =
    | Acquire(l: nat)
    | Recheck
    | Assign
    | Release(l: nat)
    | Clear
    | Post
    | Preempt
    | Other(kl: K.Label)

  predicate Running(s: State) {
    K.WellShaped(s.k) && |s.pc| == |s.k.point| && |s.owners| == |s.held| <= |s.k.sems| && !s.k.idle
  }

  function Me(s: State): Tid { s.k.current }

  predicate Enabled(s: State, a: Label) {
    match a
    case Acquire(l) => Running(s) && K.Free(s.k) && s.pc[Me(s)] == Outside && l < |s.held|
    case Recheck => Running(s) && s.pc[Me(s)].Acquiring? && s.pc[Me(s)].l < |s.held| && K.Enabled(s.k, K.DoP(s.pc[Me(s)].l))
    case Assign => Running(s) && s.pc[Me(s)].Taken? && s.pc[Me(s)].l < |s.held|
    case Release(l) => Running(s) && K.Free(s.k) && s.pc[Me(s)] == Outside && l < |s.held|
    case Clear => Running(s) && s.pc[Me(s)].Clearing? && s.pc[Me(s)].l < |s.held|
    case Post => Running(s) && s.pc[Me(s)].Posting? && s.pc[Me(s)].l < |s.held|
    case Preempt => Running(s) && K.Free(s.k)
    case Other(kl) =>
      && K.WellShaped(s.k) && K.Enabled(s.k, kl) && |s.held| <= |s.k.sems| && S.Unrelated(kl, |s.held|, 0)
      && (kl.DoV? || kl.DoPoll? || (Running(s) && s.pc[Me(s)] == Outside))
  }

  // One turn of the loop of P inside Acquire.
  function TurnP(s: State, l: nat): State
    requires Running(s) && l < |s.held|
  {
    if s.k.sems[l].value > 0 then
      s.(k := K.SemP(s.k, l), pc := s.pc[Me(s) := Taken(l)], owners := s.owners[l := s.owners[l] + {Me(s)}])
    else
      s.(k := K.SemP(s.k, l), pc := s.pc[Me(s) := Acquiring(l)])
  }

  function Apply(s: State, a: Label): State
    requires Enabled(s, a)
  {
    var me := Me(s);
    match a
    case Acquire(l) => TurnP(s, l)
    case Recheck => TurnP(s, s.pc[me].l)
    case Assign => s.(held := s.held[s.pc[me].l := Some(me)], pc := s.pc[me := Outside])
    case Release(l) => if s.held[l] == Some(me) then s.(pc := s.pc[me := Clearing(l)]) else s
    case Clear => s.(held := s.held[s.pc[me].l := None], pc := s.pc[me := Posting(s.pc[me].l)])
    case Post =>
      var l := s.pc[me].l;
      s.(k := K.SemV(s.k, l), pc := s.pc[me := Outside], owners := s.owners[l := s.owners[l] - {me}])
    case Preempt => s.(k := K.Yield(s.k))
    case Other(kl) =>
      s.(k := K.Apply(s.k, kl), pc := if kl.DoCreate? then s.pc + [Outside] else s.pc)
  }

  // ---------------------------------------------------------------- invariant

  // The lock semaphore inside whose P a thread at this point is.
  function InP(s: State, p: K.Point): Option<nat> {
    if (p.Checking? || p.AsleepOn?) && p.sem < |s.held| then Some(p.sem) else None
  }

  ghost predicate PcOk(s: State, t: Tid)
    requires t < |s.pc| == |s.k.point| && |s.owners| == |s.held|
  {
    && (s.pc[t] != Outside ==> s.pc[t].l < |s.held|)
    && (InP(s, s.k.point[t]) == if s.pc[t].Acquiring? then Some(s.pc[t].l) else None)
    && (s.pc[t].Taken? || s.pc[t].Clearing? || s.pc[t].Posting? ==>
          s.k.point[t] == K.InCode && t in s.owners[s.pc[t].l])
    && (s.pc[t].Clearing? ==> s.held[s.pc[t].l] == Some(t))
    && (s.pc[t].Taken? || s.pc[t].Posting? ==> s.held[s.pc[t].l] == None)
  }

  // The semaphore's value and the threads between decrement and increment add
  // up to one, and the recorded holder is one of those threads.
  ghost predicate LockOk(s: State, l: nat)
    requires l < |s.held| == |s.owners| && |s.held| <= |s.k.sems|
  {
    && s.k.sems[l].value + |s.owners[l]| == 1
    && (s.held[l].Some? ==> s.held[l].value in s.owners[l])
  }

  ghost predicate Shape(s: State) {
    |s.pc| == |s.k.point| && |s.owners| == |s.held| <= |s.k.sems|
  }

  ghost predicate Good(s: State) {
    && Shape(s)
    && (forall t :: 0 <= t < |s.pc| ==> PcOk(s, t))
    && (forall l :: 0 <= l < |s.held| ==> LockOk(s, l))
  }

  ghost predicate Inv(s: State) {
    K.Inv(s.k) && Good(s)
  }

  // At most one thread is between decrement and increment.
  lemma OneOwner(s: State, l: nat, t: Tid, u: Tid)
    requires Shape(s) && l < |s.held| && LockOk(s, l) && t in s.owners[l] && u in s.owners[l]
    ensures t == u
  {
    AtMostOne(s.owners[l], t, u);
  }

  lemma TurnPKeeps(s: State, l: nat)
    requires Inv(s) && Running(s) && l < |s.held| && K.Enabled(s.k, K.DoP(l)) && s.pc[Me(s)] in {Outside, Acquiring(l)}
    ensures Inv(TurnP(s, l))
  {
    S.PKeeps(s.k, l);
    var s' := TurnP(s, l);
    var me := Me(s);
    assert LockOk(s, l) && PcOk(s, me);
    if s.k.sems[l].value > 0 {
      assert s.owners[l] == {};
    }
    forall t | 0 <= t < |s.pc| ensures PcOk(s', t) {
      assert PcOk(s, t);
    }
    forall m | 0 <= m < |s.held| ensures LockOk(s', m) {
      assert LockOk(s, m);
    }
  }

  lemma AssignKeeps(s: State)
    requires Inv(s) && Enabled(s, Assign)
    ensures Inv(Apply(s, Assign))
  {
    var me := Me(s);
    var l := s.pc[me].l;
    var s' := Apply(s, Assign);
    assert PcOk(s, me) && LockOk(s, l);
    forall t | 0 <= t < |s.pc| ensures PcOk(s', t) {
      assert PcOk(s, t);
      if t != me && t in s.owners[l] { OneOwner(s, l, t, me); }
    }
    forall m | 0 <= m < |s.held| ensures LockOk(s', m) {
      assert LockOk(s, m);
    }
  }

  lemma ReleaseKeeps(s: State, l: nat)
    requires Inv(s) && Enabled(s, Release(l))
    ensures Inv(Apply(s, Release(l)))
  {
    var s' := Apply(s, Release(l));
    forall t | 0 <= t < |s.pc| ensures PcOk(s', t) {
      assert PcOk(s, t) && LockOk(s, l);
    }
    forall m | 0 <= m < |s.held| ensures LockOk(s', m) {
      assert LockOk(s, m);
    }
  }

  lemma ClearKeeps(s: State)
    requires Inv(s) && Enabled(s, Clear)
    ensures Inv(Apply(s, Clear))
  {
    var s' := Apply(s, Clear);
    var me := Me(s);
    assert PcOk(s, me) && LockOk(s, s.pc[me].l);
    forall t | 0 <= t < |s.pc| ensures PcOk(s', t) {
      assert PcOk(s, t);
      if t != me && t in s.owners[s.pc[me].l] { OneOwner(s, s.pc[me].l, t, me); }
    }
    forall m | 0 <= m < |s.held| ensures LockOk(s', m) {
      assert LockOk(s, m);
    }
  }

  lemma PostKeeps(s: State)
    requires Inv(s) && Enabled(s, Post)
    ensures Inv(Apply(s, Post))
  {
    var s' := Apply(s, Post);
    var me := Me(s);
    var l := s.pc[me].l;
    S.VKeeps(s.k, l);
    assert PcOk(s, me) && LockOk(s, l);
    if s.k.sems[l].queue != [] {
      S.ListsTail(s.k.sems[l].queue, K.SemSleepers(s.k, l));
    }
    forall t | 0 <= t < |s.pc| ensures PcOk(s', t) {
      assert PcOk(s, t);
      if t != me && t in s.owners[l] { OneOwner(s, l, t, me); }
    }
    forall m | 0 <= m < |s.held| ensures LockOk(s', m) {
      assert LockOk(s, m);
    }
  }

  lemma PreemptKeeps(s: State)
    requires Inv(s) && Enabled(s, Preempt)
    ensures Inv(Apply(s, Preempt))
  {
    S.YieldKeeps(s.k);
    var s' := Apply(s, Preempt);
    forall t | 0 <= t < |s.pc| ensures PcOk(s', t) {
      assert PcOk(s, t);
    }
    forall m | 0 <= m < |s.held| ensures LockOk(s', m) {
      assert LockOk(s, m);
    }
  }

  lemma OtherKeeps(s: State, kl: K.Label)
    requires Inv(s) && Enabled(s, Other(kl))
    ensures Inv(Apply(s, Other(kl)))
  {
    S.StepKeeps(s.k, kl);
    S.UnrelatedIsBystander(s.k, kl, |s.held|, 0);
    OtherGood(s, kl, Apply(s, Other(kl)));
  }

  lemma OtherGood(s: State, kl: K.Label, s': State)
    requires Good(s) && S.Bystander(s.k, s'.k, kl, |s.held|, 0) && Me(s) < |s.pc|
    requires s.pc[Me(s)] == Outside || kl.DoV? || kl.DoPoll?
    requires s' == s.(k := s'.k, pc := if kl.DoCreate? then s.pc + [Outside] else s.pc)
    ensures Good(s')
  {
    forall t | 0 <= t < |s'.pc| ensures PcOk(s', t) {
      if t < |s.pc| { assert PcOk(s, t); }
    }
    forall l | 0 <= l < |s.held| ensures LockOk(s', l) {
      assert LockOk(s, l);
    }
  }

  lemma StepKeeps(s: State, a: Label)
    requires Inv(s) && Enabled(s, a)
    ensures Inv(Apply(s, a))
  {
    match a
    case Acquire(l) => TurnPKeeps(s, l);
    case Recheck => TurnPKeeps(s, s.pc[Me(s)].l);
    case Assign => AssignKeeps(s);
    case Release(l) => ReleaseKeeps(s, l);
    case Clear => ClearKeeps(s);
    case Post => PostKeeps(s);
    case Preempt => PreemptKeeps(s);
    case Other(kl) => OtherKeeps(s, kl);
  }

  // --------------------------------------------------------------------- runs

  function Boot(locks: nat, others: seq<nat>, conditions: nat): State {
    State(K.Boot(seq(locks, _ => 1) + others, conditions), seq(locks, _ => None), [Outside], seq(locks, _ => {}))
  }

  function Next(s: State, a: Label): State {
    if Enabled(s, a) then Apply(s, a) else s
  }

  function Exec(s: State, run: seq<Label>): State {
    After(Next, s, run)
  }

  // The invariant, and the number of locks.
  ghost predicate Kept(s: State, locks: nat) {
    Inv(s) && |s.held| == locks
  }

  lemma BootKept(locks: nat, others: seq<nat>, conditions: nat, run: seq<Label>)
    ensures Kept(Exec(Boot(locks, others, conditions), run), locks)
  {
    var b := Boot(locks, others, conditions);
    S.BootInv(seq(locks, _ => 1) + others, conditions);
    assert Kept(b, locks);
    forall s, a | Kept(s, locks) ensures Kept(Next(s, a), locks) {
      if Enabled(s, a) { StepKeeps(s, a); }
    }
    Along(Next, s => Kept(s, locks), b, run);
  }

  // ------------------------------------------------------------ what was asked for

  // A statement that was executed, and by whom.
  datatype Step = Step(t: Tid, a: Label)

  function Seen(s: State, a: Label): seq<Step> {
    if Enabled(s, a) then [Step(Me(s), a)] else []
  }

  function Steps(s: State, run: seq<Label>): seq<Step> {
    Trace(Next, Seen, s, run)
  }

  predicate IsCall(a: Label) { a.Acquire? || a.Release? }

  // What a thread called last, read off the statements executed.
  function Latest(steps: seq<Step>, t: Tid): Option<Label> {
    if steps == [] then None
    else
      var last := steps[|steps| - 1];
      if last.t == t && IsCall(last.a) then Some(last.a) else Latest(steps[..|steps| - 1], t)
  }

  // Whether thread t has returned from Acquire of lock l and not given it back since:
  // an Acquire ends with the assignment of heldthread, a Release with its V.
  predicate InLock(steps: seq<Step>, t: Tid, l: nat) {
    if steps == [] then false
    else
      var before, last := steps[..|steps| - 1], steps[|steps| - 1];
      if last == Step(t, Assign) && Latest(before, t) == Some(Acquire(l)) then true
      else if last == Step(t, Post) && Latest(before, t) == Some(Release(l)) then false
      else InLock(before, t, l)
  }

  // The call that a thread at this point is executing.
  function Doing(p: Pc): Option<Label> {
    match p
    case Outside => None
    case Acquiring(l) => Some(Acquire(l))
    case Taken(l) => Some(Acquire(l))
    case Clearing(l) => Some(Release(l))
    case Posting(l) => Some(Release(l))
  }

  ghost predicate DoAsAsked(s: State, steps: seq<Step>) {
    forall t :: 0 <= t < |s.pc| && s.pc[t] != Outside ==> Latest(steps, t) == Doing(s.pc[t])
  }

  // Thread t is in lock l, or has just taken its unit.
  predicate InOrTaking(s: State, steps: seq<Step>, t: Tid, l: nat) {
    InLock(steps, t, l) || (t < |s.pc| && s.pc[t] == Taken(l))
  }

  // The owners of a lock are those, and who is in it is recorded as its holder until it
  // clears that.
  ghost predicate OwnerAsAsked(s: State, steps: seq<Step>, t: Tid, l: nat)
    requires l < |s.held| == |s.owners|
  {
    && (t in s.owners[l] <==> InOrTaking(s, steps, t, l))
    && (InLock(steps, t, l) ==> s.held[l] == Some(t) || (t < |s.pc| && s.pc[t] == Posting(l)))
  }

  ghost predicate OwnsAsAsked(s: State, steps: seq<Step>) {
    |s.held| == |s.owners| && forall t: Tid, l: nat :: l < |s.held| ==> OwnerAsAsked(s, steps, t, l)
  }

  lemma LatestSnoc(steps: seq<Step>, x: Step, t: Tid)
    ensures Latest(steps + [x], t) == if x.t == t && IsCall(x.a) then Some(x.a) else Latest(steps, t)
  {
    assert (steps + [x])[..|steps|] == steps;
  }

  lemma InLockSnoc(steps: seq<Step>, x: Step, t: Tid, l: nat)
    ensures InLock(steps + [x], t, l) ==
              if x == Step(t, Assign) && Latest(steps, t) == Some(Acquire(l)) then true
              else if x == Step(t, Post) && Latest(steps, t) == Some(Release(l)) then false
              else InLock(steps, t, l)
  {
    assert (steps + [x])[..|steps|] == steps;
  }

  lemma StepAsAsked(s: State, a: Label, steps: seq<Step>)
    requires Enabled(s, a) && DoAsAsked(s, steps)
    ensures DoAsAsked(Apply(s, a), steps + [Step(Me(s), a)])
  {
    var s' := Apply(s, a);
    forall t | 0 <= t < |s'.pc| && s'.pc[t] != Outside ensures Latest(steps + [Step(Me(s), a)], t) == Doing(s'.pc[t]) {
      LatestSnoc(steps, Step(Me(s), a), t);
    }
  }

  lemma StepOwns(s: State, a: Label, steps: seq<Step>, t: Tid, l: nat)
    requires Good(s) && Enabled(s, a) && DoAsAsked(s, steps) && l < |s.held| && OwnerAsAsked(s, steps, t, l)
    ensures l < |Apply(s, a).held| == |Apply(s, a).owners| && OwnerAsAsked(Apply(s, a), steps + [Step(Me(s), a)], t, l)
  {
    InLockSnoc(steps, Step(Me(s), a), t, l);
    var me := Me(s);
    assert me < |s.pc|;
    assert PcOk(s, me);
    if me != t && t in s.owners[l] && me in s.owners[l] { OneOwner(s, l, t, me); }
    assert t < |s.pc| ==> PcOk(s, t);
  }

  ghost predicate Tracked(s: State, steps: seq<Step>) {
    Inv(s) && DoAsAsked(s, steps) && OwnsAsAsked(s, steps)
  }

  lemma StepTracked(s: State, a: Label, steps: seq<Step>)
    requires Tracked(s, steps) && Enabled(s, a)
    ensures Tracked(Apply(s, a), steps + [Step(Me(s), a)])
  {
    assert Inv(Apply(s, a)) by { StepKeeps(s, a); }
    StepAsAsked(s, a, steps);
    forall t: Tid, l: nat | l < |Apply(s, a).held|
      ensures l < |Apply(s, a).owners| && OwnerAsAsked(Apply(s, a), steps + [Step(Me(s), a)], t, l)
    {
      StepOwns(s, a, steps, t, l);
    }
  }

  lemma RunTracked(locks: nat, others: seq<nat>, conditions: nat, run: seq<Label>)
    ensures Tracked(Exec(Boot(locks, others, conditions), run), Steps(Boot(locks, others, conditions), run))
  {
    var b := Boot(locks, others, conditions);
    assert Tracked(b, []) by { BootKept(locks, others, conditions, []); }
    forall s, steps, a | Tracked(s, steps) ensures Tracked(Next(s, a), steps + Seen(s, a)) {
      if Enabled(s, a) { StepTracked(s, a, steps); } else { assert steps + [] == steps; }
    }
    AlongTrace(Next, Seen, Tracked, b, [], run);
    assert [] + Steps(b, run) == Steps(b, run);
  }

  // In every run, whoever calls Release and wherever a preemption falls: the semaphore of
  // a lock and the threads that have taken its unit and not given it back add up to one;
  // these are the threads that have returned from Acquire, or are about to, and have not
  // done their Release; so there is at most one, and heldthread is NULL or that thread.
  lemma MutualExclusion(locks: nat, others: seq<nat>, conditions: nat, run: seq<Label>, l: nat)
    requires l < locks
    ensures var s, steps := Exec(Boot(locks, others, conditions), run), Steps(Boot(locks, others, conditions), run);
            && |s.held| == |s.owners| == locks <= |s.k.sems|
            && s.k.sems[l].value + |s.owners[l]| == 1
            && (forall t: Tid :: t in s.owners[l] <==> InOrTaking(s, steps, t, l))
            && (forall t: Tid, u: Tid :: InLock(steps, t, l) && InLock(steps, u, l) ==> t == u)
            && (s.held[l] == None || (s.owners[l] == {s.held[l].value} && InLock(steps, s.held[l].value, l)))
            && (forall t: Tid :: InLock(steps, t, l) ==> s.held[l] == Some(t) || (t < |s.pc| && s.pc[t] == Posting(l)))
  {
    var s, steps := Exec(Boot(locks, others, conditions), run), Steps(Boot(locks, others, conditions), run);
    BootKept(locks, others, conditions, run);
    RunTracked(locks, others, conditions, run);
    assert LockOk(s, l);
    OnlyOneIn(s, steps, l);
  }

  lemma OnlyOneIn(s: State, steps: seq<Step>, l: nat)
    requires Good(s) && OwnsAsAsked(s, steps) && l < |s.held|
    ensures forall t: Tid :: t in s.owners[l] <==> InOrTaking(s, steps, t, l)
    ensures forall t: Tid, u: Tid :: InLock(steps, t, l) && InLock(steps, u, l) ==> t == u
    ensures s.held[l].Some? ==> s.owners[l] == {s.held[l].value} && InLock(steps, s.held[l].value, l)
    ensures forall t: Tid :: InLock(steps, t, l) ==> s.held[l] == Some(t) || (t < |s.pc| && s.pc[t] == Posting(l))
  {
    assert LockOk(s, l);
    forall t: Tid ensures t in s.owners[l] <==> InOrTaking(s, steps, t, l) { assert OwnerAsAsked(s, steps, t, l); }
    forall t: Tid, u: Tid | InLock(steps, t, l) && InLock(steps, u, l) ensures t == u { OneOwner(s, l, t, u); }
    forall t: Tid | InLock(steps, t, l) ensures s.held[l] == Some(t) || (t < |s.pc| && s.pc[t] == Posting(l)) {
      assert OwnerAsAsked(s, steps, t, l);
    }
    if s.held[l].Some? {
      var t := s.held[l].value;
      forall u | u in s.owners[l] ensures u == t { OneOwner(s, l, u, t); }
      if t < |s.pc| { assert PcOk(s, t); }
    }
  }

  // Who holds a lock is alone in it, and only its own Release takes it away.
  lemma HolderAlone(locks: nat, others: seq<nat>, conditions: nat, run: seq<Label>, l: nat, t: Tid)
    requires l < locks
    requires var s := Exec(Boot(locks, others, conditions), run);
             |s.held| == locks && s.held[l] == Some(t)
    ensures var s := Exec(Boot(locks, others, conditions), run);
            && |s.k.sems| > l && s.k.sems[l].value == 0
            && (forall u :: 0 <= u < |s.pc| && u != t ==> s.pc[u] !in {Taken(l), Clearing(l), Posting(l)})
            && (forall a :: Enabled(s, a) && |Apply(s, a).held| == locks && Apply(s, a).held[l] != Some(t) ==> a == Clear && Me(s) == t)
  {
    var s := Exec(Boot(locks, others, conditions), run);
    BootKept(locks, others, conditions, run);
    assert LockOk(s, l);
    assert |s.owners[l]| == 1;
    forall u | 0 <= u < |s.pc| && u != t ensures s.pc[u] !in {Taken(l), Clearing(l), Posting(l)} {
      assert PcOk(s, u);
      if u in s.owners[l] { OneOwner(s, l, t, u); }
    }
  }

  // ------------------------------------------------------------------ going forward

  // A free lock is taken at once: the unit is gone and the caller is the holder.
  lemma AcquireTakes(locks: nat, others: seq<nat>, conditions: nat, run: seq<Label>, s: State, l: nat)
    requires s == Exec(Boot(locks, others, conditions), run) && l < locks == |s.held| <= |s.k.sems|
    requires K.Free(s.k) && Me(s) < |s.pc| && s.pc[Me(s)] == Outside && s.k.sems[l].value > 0
    ensures var s' := Next(Next(s, Acquire(l)), Assign);
            && s' == s.(k := s'.k, held := s.held[l := Some(Me(s))], owners := s'.owners)
            && S.UnitsMoved(s.k, s'.k, l, -1) && S.InCharge(s'.k, Me(s))
  {
    assert Running(s) && S.InCharge(s.k, Me(s)) by {
      BootKept(locks, others, conditions, run);
      S.FreeInCharge(s.k);
    }
    S.PReturns(s.k, l, Me(s));
    var s1 := TurnP(s, l);
    assert Next(s, Acquire(l)) == s1 && Enabled(s1, Assign);
    assert s1.pc[Me(s) := Outside] == s.pc;
  }

  // The holder's Release gives the unit back and leaves no holder; anybody else's does
  // nothing.
  lemma ReleaseGives(locks: nat, others: seq<nat>, conditions: nat, run: seq<Label>, s: State, l: nat)
    requires s == Exec(Boot(locks, others, conditions), run) && l < locks == |s.held| <= |s.k.sems|
    requires K.Free(s.k) && Me(s) < |s.pc| && s.pc[Me(s)] == Outside
    ensures s.held[l] != Some(Me(s)) ==> Next(s, Release(l)) == s
    ensures s.held[l] == Some(Me(s)) ==>
              var s' := Next(Next(Next(s, Release(l)), Clear), Post);
              && s' == s.(k := s'.k, held := s.held[l := None], owners := s'.owners)
              && S.UnitsMoved(s.k, s'.k, l, 1) && s'.k.sems[l].value == 1
              && |s'.owners| == locks && s'.owners[l] == {} && S.InCharge(s'.k, Me(s))
  {
    BootKept(locks, others, conditions, run);
    S.FreeInCharge(s.k);
    assert LockOk(s, l);
    if s.held[l] == Some(Me(s)) { HolderReleases(s, l); }
  }

  lemma HolderReleases(s: State, l: nat)
    requires Running(s) && l < |s.held| && S.InCharge(s.k, Me(s)) && s.pc[Me(s)] == Outside && s.held[l] == Some(Me(s))
    requires LockOk(s, l)
    ensures var s' := Next(Next(Next(s, Release(l)), Clear), Post);
            && s' == s.(k := s'.k, held := s.held[l := None], owners := s'.owners)
            && S.UnitsMoved(s.k, s'.k, l, 1) && s'.k.sems[l].value == 1
            && |s'.owners| == |s.owners| && s'.owners[l] == {} && S.InCharge(s'.k, Me(s))
  {
    var me := Me(s);
    var s1 := s.(pc := s.pc[me := Clearing(l)]);
    assert Next(s, Release(l)) == s1;
    var s2 := s.(pc := s.pc[me := Posting(l)], held := s.held[l := None]);
    assert s1.pc[me := Posting(l)] == s2.pc && Next(s1, Clear) == s2;
    S.VReturns(s.k, l, me);
    assert s2.pc[me := Outside] == s.pc;
    assert s.owners[l] == {me} by {
      forall u | u in s.owners[l] ensures u == me { OneOwner(s, l, u, me); }
    }
  }

  // The statement that a thread inside a call executes next.
  function NextOf(p: Pc): Label {
    match p
    case Taken(_) => Assign
    case Clearing(_) => Clear
    case Posting(_) => Post
    case _ => Recheck
  }

  function Left(p: Pc): nat {
    match p
    case Outside => 0
    case Taken(_) => 1
    case Posting(_) => 1
    case _ => 2
  }

  // In every run, whoever is on the processor inside a call can execute its next
  // statement, and is closer to the end after it, or asleep on a lock whose unit is gone.
  lemma GoesForward(locks: nat, others: seq<nat>, conditions: nat, run: seq<Label>, s: State)
    requires s == Exec(Boot(locks, others, conditions), run) && !s.k.idle && Me(s) < |s.pc| && s.pc[Me(s)] != Outside
    ensures var a := NextOf(s.pc[Me(s)]);
            Enabled(s, a) && Forward(s, s.pc[Me(s)], Apply(s, a))
  {
    BootKept(locks, others, conditions, run);
    S.Shaped(s.k);
    assert PcOk(s, Me(s));
    NextForward(s);
  }

  ghost predicate Forward(s: State, p: Pc, s': State) {
    && Me(s) < |s'.pc| == |s'.k.point|
    && (|| Left(s'.pc[Me(s)]) < Left(p)
        || (s'.pc[Me(s)] == p && p.Acquiring? && p.l < |s.k.sems| && s.k.sems[p.l].value == 0 && s'.k.point[Me(s)] == K.AsleepOn(p.l)))
  }

  lemma NextForward(s: State)
    requires Running(s) && s.pc[Me(s)] != Outside && Enabled(s, NextOf(s.pc[Me(s)]))
    ensures Forward(s, s.pc[Me(s)], Apply(s, NextOf(s.pc[Me(s)])))
  {
    if s.pc[Me(s)].Acquiring? { S.PHasEffect(s.k, s.pc[Me(s)].l); }
  }
}

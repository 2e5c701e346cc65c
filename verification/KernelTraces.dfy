// What the threads did and what became of it: the state of the kernel in every run,
// told from the statements executed alone.
module KernelTraces {
  import opened Common
  import opened Kernel
  import opened KernelSafety
  import opened KernelRuns

  // A statement that was executed: by the thread that was current, whether it came back
  // to it at once, and the thread that FindNextToRun returned, if it was called and
  // found one.
  datatype Step = Step(t: Tid, l: Label, back: bool, taken: seq<Tid>)

  function Seen(s: State, l: Label): seq<Step> {
    if WellShaped(s) && Enabled(s, l) then [StepOf(s, l)] else []
  }

  function StepOf(s: State, l: Label): Step
    requires WellShaped(s) && Enabled(s, l)
  {
    Step(s.current, l, Free(Next(s, l)) && Next(s, l).current == s.current, Take(s, l))
  }

  function Steps(s: State, ls: seq<Label>): seq<Step> {
    Trace(Next, Seen, s, ls)
  }

  // How often V was called on semaphore i, and how often a call of P came back.
  function Vs(steps: seq<Step>, i: SemId): nat {
    if steps == [] then 0 else Vs(steps[..|steps| - 1], i) + AsNat(steps[|steps| - 1].l == DoV(i))
  }

  function Ps(steps: seq<Step>, i: SemId): nat {
    if steps == [] then 0
    else Ps(steps[..|steps| - 1], i) + AsNat(steps[|steps| - 1].l == DoP(i) && steps[|steps| - 1].back)
  }

  // The last statement of thread t itself.  A V may be an interrupt handler's, and a
  // poll is the idle loop's.
  function Latest(steps: seq<Step>, t: Tid): Option<Label> {
    if steps == [] then None
    else
      var last := steps[|steps| - 1];
      if last.t == t && !last.l.DoV? && !last.l.DoPoll? then Some(last.l) else Latest(steps[..|steps| - 1], t)
  }

  // Whether thread t was forked: the main thread was before the run.
  predicate Forked(steps: seq<Step>, t: Tid) {
    if steps == [] then t == 0 else steps[|steps| - 1].l == DoFork(t) || Forked(steps[..|steps| - 1], t)
  }

  // Whether thread t has been on the processor.
  predicate HasRun(steps: seq<Step>, t: Tid) {
    if steps == [] then t == 0 else t in steps[|steps| - 1].taken || HasRun(steps[..|steps| - 1], t)
  }

  // The thread that finished last.
  function LastFinished(steps: seq<Step>): Option<Tid> {
    if steps == [] then None
    else if steps[|steps| - 1].l == DoFinish then Some(steps[|steps| - 1].t)
    else LastFinished(steps[..|steps| - 1])
  }

  lemma Snoc(steps: seq<Step>, x: Step)
    ensures forall i :: Vs(steps + [x], i) == Vs(steps, i) + AsNat(x.l == DoV(i))
    ensures forall i :: Ps(steps + [x], i) == Ps(steps, i) + AsNat(x.l == DoP(i) && x.back)
    ensures forall t: Tid :: Latest(steps + [x], t) == if x.t == t && !x.l.DoV? && !x.l.DoPoll? then Some(x.l) else Latest(steps, t)
    ensures forall t: Tid :: Forked(steps + [x], t) <==> x.l == DoFork(t) || Forked(steps, t)
    ensures forall t: Tid :: HasRun(steps + [x], t) <==> t in x.taken || HasRun(steps, t)
    ensures LastFinished(steps + [x]) == if x.l == DoFinish then Some(x.t) else LastFinished(steps)
  {
    assert (steps + [x])[..|steps|] == steps;
  }

  // ---------------------------------------------------------------- semaphores

  ghost predicate UnitsAsSaid(s: State, steps: seq<Step>) {
    forall i :: 0 <= i < |s.sems| ==> s.sems[i].ups == Vs(steps, i) && s.sems[i].downs == Ps(steps, i)
  }

  lemma StepUnits(s: State, l: Label, steps: seq<Step>)
    requires PointsOk(s) && WellShaped(s) && Enabled(s, l) && UnitsAsSaid(s, steps)
    ensures UnitsAsSaid(Next(s, l), steps + [StepOf(s, l)])
  {
    Snoc(steps, StepOf(s, l));
    if l.DoP? { PComesBack(s, l.i); }
  }

  // A P comes back exactly when it finds a unit.
  lemma PComesBack(s: State, i: SemId)
    requires PointsOk(s) && WellShaped(s) && Enabled(s, DoP(i))
    ensures StepOf(s, DoP(i)).back <==> s.sems[i].value > 0
  {
  }

  // ------------------------------------------------------------------- threads

  // Where a thread whose last statement was l, if any, can be.
  predicate PointAsSaid(p: Point, l: Option<Label>, forked: bool) {
    match p
    case Unforked => !forked
    case InCode => forked
    case Checking(i) => forked && l == Some(DoP(i))
    case AsleepOn(i) => forked && l == Some(DoP(i))
    case AsleepIn(c) => forked && l == Some(DoWait(c))
    case Finished => forked && l == Some(DoFinish)
  }

  ghost predicate PointsAsSaid(s: State, steps: seq<Step>) {
    && (forall t :: 0 <= t < |s.point| ==>
          PointAsSaid(s.point[t], Latest(steps, t), Forked(steps, t)) && (Latest(steps, t) == Some(DoFinish) ==> s.point[t] == Finished))
    && (forall t: Tid :: |s.point| <= t ==> !Forked(steps, t) && Latest(steps, t) == None)
  }

  // The points that a step changes: those of the running thread, of a thread it wakes,
  // of one it creates or forks.
  ghost predicate PointsMove(s: State, l: Label, s': State) {
    && |s.point| <= |s'.point|
    && (forall t :: 0 <= t < |s.point| ==> PointMoves(s.point[t], l, t, t == s.current, s'.point[t]))
    && (forall t :: |s.point| <= t < |s'.point| ==> s'.point[t] == Unforked)
  }

  predicate PointMoves(p: Point, l: Label, t: Tid, own: bool, q: Point) {
    match l
    case DoV(i) => q == p || (p == AsleepOn(i) && q == Checking(i))
    case DoSignal(c) => q == p || (p == AsleepIn(c) && q == InCode)
    case DoFork(u) => q == if t == u then InCode else p
    case DoP(i) => if own then p in {InCode, Checking(i)} && q in {InCode, AsleepOn(i)} else q == p
    case DoWait(c) => if own then p == InCode && q == AsleepIn(c) else q == p
    case DoFinish => if own then p == InCode && q == Finished else q == p
    case _ => q == p
  }

  lemma StepMoves(s: State, l: Label)
    requires Placed(s) && WellShaped(s) && Enabled(s, l)
    ensures PointsMove(s, l, Next(s, l))
  {
    match l {
      case DoV(i) => if s.sems[i].queue != [] { ListsTail(s.sems[i].queue, SemSleepers(s, i)); }
      case DoSignal(c) => if s.conds[c] != [] { ListsTail(s.conds[c], CondSleepers(s, c)); }
      case _ =>
    }
  }

  lemma StepPoints(s: State, x: Step, s': State, steps: seq<Step>)
    requires PointsAsSaid(s, steps) && PointsMove(s, x.l, s') && x.t == s.current < |s.point|
    requires x.l.DoV? || x.l.DoPoll? || s.point[x.t].InCode? || (x.l.DoP? && s.point[x.t] == Checking(x.l.i))
    requires x.l.DoFork? ==> x.l.t < |s.point| && s.point[x.l.t] == Unforked
    ensures PointsAsSaid(s', steps + [x])
  {
    Snoc(steps, x);
  }

  // --------------------------------------------------------------- carcasses

  ghost predicate ReapedAsSaid(s: State, steps: seq<Step>) {
    && (forall t :: 0 <= t < |s.started| ==> (s.started[t] <==> HasRun(steps, t)))
    && (forall t: Tid :: |s.started| <= t ==> !HasRun(steps, t))
    && (s.doomed.Some? ==> LastFinished(steps) == s.doomed)
    && (LastFinished(steps).Some? ==> s.doomed == LastFinished(steps) || LastFinished(steps).value in s.destroyed)
  }

  // What a step does to the marks of having run and to the carcass: a thread that
  // comes back inside Scheduler::Run deletes it.
  ghost predicate Marks(s: State, l: Label, s': State, taken: seq<Tid>) {
    var doomed := if l == DoFinish then Some(s.current) else s.doomed;
    && |taken| <= 1 && |s.started| <= |s'.started| && (taken != [] ==> taken[0] < |s.started|)
    && (forall t :: 0 <= t < |s.started| ==> (s'.started[t] <==> s.started[t] || t in taken))
    && (forall t :: |s.started| <= t < |s'.started| ==> !s'.started[t])
    && if taken != [] && s.started[taken[0]] then s'.doomed == None && s'.destroyed == s.destroyed + (if doomed.Some? then [doomed.value] else [])
       else s'.doomed == doomed && s'.destroyed == s.destroyed
  }

  lemma StepMarks(s: State, l: Label)
    requires WellShaped(s) && Enabled(s, l)
    ensures Marks(s, l, Next(s, l), Take(s, l))
  {
    assert s.ready != [] ==> s.ready[0] in s.ready;
  }

  lemma StepReaps(s: State, x: Step, s': State, steps: seq<Step>)
    requires ReapedAsSaid(s, steps) && Marks(s, x.l, s', x.taken) && x.t == s.current
    ensures ReapedAsSaid(s', steps + [x])
    ensures forall n :: x.taken == [n] && HasRun(steps, n) ==> s'.doomed == None
  {
    Snoc(steps, x);
  }

  // ---------------------------------------------------------------------- runs

  ghost predicate Tracked(s: State, steps: seq<Step>) {
    Inv(s) && UnitsAsSaid(s, steps) && PointsAsSaid(s, steps) && ReapedAsSaid(s, steps)
  }

  lemma StepTracked(s: State, l: Label, steps: seq<Step>)
    requires Tracked(s, steps) && WellShaped(s) && Enabled(s, l)
    ensures Tracked(Next(s, l), steps + [StepOf(s, l)])
  {
    assert Inv(Next(s, l)) by { StepKeeps(s, l); }
    StepUnits(s, l, steps);
    StepMoves(s, l);
    StepPoints(s, StepOf(s, l), Next(s, l), steps);
    StepMarks(s, l);
    StepReaps(s, StepOf(s, l), Next(s, l), steps);
  }

  lemma RunTracked(initials: seq<nat>, conditions: nat, ls: seq<Label>)
    ensures Tracked(Exec(Boot(initials, conditions), ls), Steps(Boot(initials, conditions), ls))
  {
    var b := Boot(initials, conditions);
    assert Tracked(b, []) by { BootInv(initials, conditions); }
    forall s, steps, l | Tracked(s, steps) ensures Tracked(Next(s, l), steps + Seen(s, l)) {
      if WellShaped(s) && Enabled(s, l) { StepTracked(s, l, steps); } else { assert steps + [] == steps; }
    }
    AlongTrace(Next, Seen, Tracked, b, [], ls);
    assert [] + Steps(b, ls) == Steps(b, ls);
  }

  // In every run the value of a semaphore is its initial value, plus the calls of V,
  // minus the calls of P that have come back.
  lemma UnitsCounted(initials: seq<nat>, conditions: nat, ls: seq<Label>, i: SemId)
    requires i < |initials|
    ensures var s, steps := Exec(Boot(initials, conditions), ls), Steps(Boot(initials, conditions), ls);
            |s.sems| == |initials| && s.sems[i].value == initials[i] + Vs(steps, i) - Ps(steps, i)
  {
    NoLostWakeup(initials, conditions, ls, i);
    RunTracked(initials, conditions, ls);
  }

  // In every run a thread is queued where it called last: on the semaphore of its P, on
  // the condition of its Wait.  It has finished exactly when it called Finish last, and
  // has not begun exactly when nobody forked it.
  lemma QueuedWhereCalled(initials: seq<nat>, conditions: nat, ls: seq<Label>, t: Tid)
    requires t < |Exec(Boot(initials, conditions), ls).point|
    ensures var s, steps := Exec(Boot(initials, conditions), ls), Steps(Boot(initials, conditions), ls);
            && (forall i :: At(s, t, SemQueue(i)) ==> Latest(steps, t) == Some(DoP(i)))
            && (forall c :: At(s, t, CondQueue(c)) ==> Latest(steps, t) == Some(DoWait(c)))
            && (At(s, t, Gone) <==> Latest(steps, t) == Some(DoFinish))
            && (At(s, t, NotForked) <==> !Forked(steps, t))
  {
    var s, steps := Exec(Boot(initials, conditions), ls), Steps(Boot(initials, conditions), ls);
    RunTracked(initials, conditions, ls);
    forall i | At(s, t, SemQueue(i)) ensures Latest(steps, t) == Some(DoP(i)) { assert t in SemSleepers(s, i); }
    forall c | At(s, t, CondQueue(c)) ensures Latest(steps, t) == Some(DoWait(c)) { assert t in CondSleepers(s, c); }
  }

  // In every run the thread that finished last is deleted as soon as a thread that has
  // run before gets the processor.
  lemma FinishedIsDeleted(initials: seq<nat>, conditions: nat, ls: seq<Label>, l: Label, n: Tid)
    requires var s := Exec(Boot(initials, conditions), ls);
             Take(s, l) == [n] && HasRun(Steps(Boot(initials, conditions), ls), n)
    ensures var s, steps := Exec(Boot(initials, conditions), ls), Steps(Boot(initials, conditions), ls);
            var last := LastFinished(steps + Seen(s, l));
            last.Some? ==> last.value in Next(s, l).destroyed
  {
    var s, steps := Exec(Boot(initials, conditions), ls), Steps(Boot(initials, conditions), ls);
    RunTracked(initials, conditions, ls);
    StepMarks(s, l);
    StepReaps(s, StepOf(s, l), Next(s, l), steps);
  }
}

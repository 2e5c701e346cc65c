/**
  Threads, the scheduler, semaphores and condition queues as one transition
  system.  Nachos runs on a uniprocessor and gets atomicity by turning
  interrupts off, so each transition below is one stretch of kernel code that
  runs with interrupts off, from the point where they are turned off to the
  point where they are turned on again or the processor is handed over.
 */
module Kernel {
  import opened Common

  type Tid = nat
  type SemId = nat
  type CondId = nat

  datatype Status = JustCreated | Running | Ready | Blocked

  // Where a thread stands.  `Checking(i)` is a thread that V took off the
  // queue of semaphore i and that has not yet looked at `value` again.
  datatype Point =
    | Unforked
    | InCode
    | Checking(sem: SemId)
    | AsleepOn(sem: SemId)
    | AsleepIn(cond: CondId)
    | Finished

  // `initial`, `ups` and `downs` are history: the value at creation and the
  // completed V and P operations.
  datatype Semaphore = Semaphore(value: nat, queue: seq<Tid>, initial: nat, ups: nat, downs: nat)

  // `idle` holds inside the loop of Thread::Sleep, while no thread is ready:
  // `current` is then still the thread that went to sleep.  `started` tells a
  // thread that resumes inside Scheduler::Run from one that begins at
  // ThreadRoot; `destroyed` lists the threads deleted so far.
  datatype State = State(
    point: seq<Point>,
    status: seq<Status>,
    started: seq<bool>,
    current: Tid,
    idle: bool,
    ready: seq<Tid>,
    sems: seq<Semaphore>,
    conds: seq<seq<Tid>>,
    doomed: Option<Tid>,
    destroyed: seq<Tid>)

  predicate WellShaped(s: State) {
    && |s.status| == |s.point|
    && |s.started| == |s.point|
    && s.current < |s.point|
    && (forall t <- s.ready :: t < |s.point|)
    && (forall i, k :: 0 <= i < |s.sems| && 0 <= k < |s.sems[i].queue| ==> s.sems[i].queue[k] < |s.point|)
    && (forall c, k :: 0 <= c < |s.conds| && 0 <= k < |s.conds[c]| ==> s.conds[c][k] < |s.point|)
  }

  // ---------------------------------------------------------------- scheduler

  function ReadyToRun(s: State, t: Tid): State
    requires t < |s.status|
  {
    s.(ready := s.ready + [t], status := s.status[t := Ready])
  }

  // Hand the processor to `next`.  A thread that has run before comes back
  // inside Scheduler::Run and deletes the thread that asked to be destroyed.
  function Run(s: State, next: Tid): State
    requires next < |s.status| == |s.started|
  {
    var reaps := s.started[next] && s.doomed.Some?;
    s.(current := next,
       idle := false,
       status := s.status[next := Running],
       started := s.started[next := true],
       doomed := if reaps then None else s.doomed,
       destroyed := if reaps then s.destroyed + [s.doomed.value] else s.destroyed)
  }

  // FindNextToRun followed by Run, or one more turn of the idle loop.
  function Dispatch(s: State): State
    requires WellShaped(s)
  {
    if s.ready == [] then s.(idle := true)
    else
      assert s.ready[0] in s.ready;
      Run(s.(ready := s.ready[1..]), s.ready[0])
  }

  function Sleep(s: State): State
    requires WellShaped(s)
  {
    Dispatch(s.(status := s.status[s.current := Blocked]))
  }

  function Yield(s: State): State
    requires WellShaped(s)
  {
    if s.ready == [] then s
    else
      assert s.ready[0] in s.ready;
      Run(ReadyToRun(s.(ready := s.ready[1..]), s.current), s.ready[0])
  }

  function Create(s: State): State {
    s.(point := s.point + [Unforked], status := s.status + [JustCreated], started := s.started + [false])
  }

  function Fork(s: State, t: Tid): State
    requires t < |s.status| == |s.point|
  {
    ReadyToRun(s.(point := s.point[t := InCode]), t)
  }

  function Finish(s: State): State
    requires WellShaped(s)
  {
    Sleep(s.(doomed := Some(s.current), point := s.point[s.current := Finished]))
  }

  // --------------------------------------------------------------- semaphores

  // One turn of the loop in P, by the current thread.
  function SemP(s: State, i: SemId): State
    requires WellShaped(s) && i < |s.sems|
  {
    var sem := s.sems[i];
    if sem.value == 0 then
      Sleep(s.(sems := s.sems[i := sem.(queue := sem.queue + [s.current])],
               point := s.point[s.current := AsleepOn(i)]))
    else
      s.(sems := s.sems[i := sem.(value := sem.value - 1, downs := sem.downs + 1)],
         point := s.point[s.current := InCode])
  }

  // V, by the current thread or by an interrupt handler.
  function SemV(s: State, i: SemId): State
    requires WellShaped(s) && i < |s.sems|
  {
    var sem := s.sems[i];
    var up := sem.(value := sem.value + 1, ups := sem.ups + 1);
    if sem.queue == [] then s.(sems := s.sems[i := up])
    else
      var woken := sem.queue[0];
      ReadyToRun(s.(sems := s.sems[i := up.(queue := sem.queue[1..])],
                    point := s.point[woken := Checking(i)]),
                 woken)
  }

  // ---------------------------------------------------------- condition queues

  // The tail of Condition::Wait: join the queue and sleep.
  function CondSleep(s: State, c: CondId): State
    requires WellShaped(s) && c < |s.conds|
  {
    Sleep(s.(conds := s.conds[c := s.conds[c] + [s.current]],
             point := s.point[s.current := AsleepIn(c)]))
  }

  function CondSignal(s: State, c: CondId): State
    requires WellShaped(s) && c < |s.conds|
  {
    if s.conds[c] == [] then s
    else
      var woken := s.conds[c][0];
      ReadyToRun(s.(conds := s.conds[c := s.conds[c][1..]], point := s.point[woken := InCode]), woken)
  }

  // Condition::Broadcast: signal until the queue is empty.
  function CondBroadcast(s: State, c: CondId): State
    requires WellShaped(s) && c < |s.conds|
    decreases if c < |s.conds| then |s.conds[c]| else 0
  {
    if s.conds[c] == [] then s
    else
      SignalShaped(s, c);
      CondBroadcast(CondSignal(s, c), c)
  }

  lemma SignalShaped(s: State, c: CondId)
    requires WellShaped(s) && c < |s.conds|
    ensures WellShaped(CondSignal(s, c)) && |CondSignal(s, c).conds| == |s.conds|
    ensures s.conds[c] != [] ==> CondSignal(s, c).conds[c] == s.conds[c][1..]
  {
    var s' := CondSignal(s, c);
    forall d, k | 0 <= d < |s'.conds| && 0 <= k < |s'.conds[d]| ensures s'.conds[d][k] < |s'.point| {
      assert s'.conds[d][k] == if d == c && s.conds[c] != [] then s.conds[d][k + 1] else s.conds[d][k];
    }
  }

  // ------------------------------------------------------------------- labels

  datatype Label =
    | DoCreate
    | DoFork(t: Tid)
    | DoYield
    | DoFinish
    | DoP(i: SemId)
    | DoV(i: SemId)
    | DoWait(c: CondId)
    | DoSignal(c: CondId)
    | DoPoll

  // A thread executing ordinary code is on the processor.
  predicate Free(s: State) {
    !s.idle && s.current < |s.point| && s.point[s.current] == InCode
  }

  // A V may come from an interrupt handler, at any moment; a poll is a turn of
  // the idle loop; everything else is done by the running thread.
  predicate Enabled(s: State, l: Label) {
    match l
    case DoCreate => Free(s)
    case DoFork(t) => Free(s) && t < |s.point| && s.point[t] == Unforked
    case DoYield => Free(s)
    case DoFinish => Free(s)
    case DoP(i) => i < |s.sems| && !s.idle && s.current < |s.point| && s.point[s.current] in {InCode, Checking(i)}
    case DoV(i) => i < |s.sems|
    case DoWait(c) => Free(s) && c < |s.conds|
    case DoSignal(c) => Free(s) && c < |s.conds|
    case DoPoll => s.idle && s.ready != []
  }

  function Apply(s: State, l: Label): State
    requires WellShaped(s) && Enabled(s, l)
  {
    match l
    case DoCreate => Create(s)
    case DoFork(t) => Fork(s, t)
    case DoYield => Yield(s)
    case DoFinish => Finish(s)
    case DoP(i) => SemP(s, i)
    case DoV(i) => SemV(s, i)
    case DoWait(c) => CondSleep(s, c)
    case DoSignal(c) => CondSignal(s, c)
    case DoPoll => Dispatch(s)
  }

  // The main thread alone, running; any number of semaphores and conditions.
  function Boot(initials: seq<nat>, conditions: nat): State {
    State([InCode], [Running], [true], 0, false, [],
          seq(|initials|, i requires 0 <= i < |initials| => Semaphore(initials[i], [], initials[i], 0, 0)),
          seq(conditions, _ => []), None, [])
  }

  // ---------------------------------------------------------------- invariant

  predicate Runnable(p: Point) {
    p.InCode? || p.Checking?
  }

  // The threads woken on semaphore i that have not yet looked at it again.
  function Checkers(s: State, i: SemId): set<Tid> {
    set t | 0 <= t < |s.point| && s.point[t] == Checking(i)
  }

  predicate OnProcessor(s: State, t: Tid) {
    t == s.current && !s.idle
  }

  function StatusAt(s: State, t: Tid): Status
    requires t < |s.point|
  {
    match s.point[t]
    case Unforked => JustCreated
    case AsleepOn(_) => Blocked
    case AsleepIn(_) => Blocked
    case Finished => Blocked
    case _ => if OnProcessor(s, t) then Running else Ready
  }

  function ReadySet(s: State): set<Tid> {
    set t | 0 <= t < |s.point| && Runnable(s.point[t]) && !OnProcessor(s, t)
  }

  function SemSleepers(s: State, i: SemId): set<Tid> {
    set t | 0 <= t < |s.point| && s.point[t] == AsleepOn(i)
  }

  function CondSleepers(s: State, c: CondId): set<Tid> {
    set t | 0 <= t < |s.point| && s.point[t] == AsleepIn(c)
  }

  // The list holds every thread of x once, and no other.
  ghost predicate Lists(q: seq<Tid>, x: set<Tid>) {
    NoDup(q) && forall t :: t in q <==> t in x
  }

  ghost predicate PointsOk(s: State) {
    && |s.status| == |s.point|
    && |s.started| == |s.point|
    && s.current < |s.point|
    && s.point[s.current] != Unforked
    && (!s.idle ==> Runnable(s.point[s.current]))
    && forall t :: 0 <= t < |s.point| ==>
          && (s.point[t].Checking? || s.point[t].AsleepOn? ==> s.point[t].sem < |s.sems|)
          && (s.point[t].AsleepIn? ==> s.point[t].cond < |s.conds|)
          && s.status[t] == StatusAt(s, t)
  }

  // Every thread is in the one place its point says, and its status agrees.
  ghost predicate Placed(s: State) {
    && PointsOk(s)
    && Lists(s.ready, ReadySet(s))
    && (forall i :: 0 <= i < |s.sems| ==> Lists(s.sems[i].queue, SemSleepers(s, i)))
    && (forall c :: 0 <= c < |s.conds| ==> Lists(s.conds[c], CondSleepers(s, c)))
  }

  // Units are conserved, and units never wait for a sleeper that nobody woke.
  predicate Accounted(s: State, i: SemId)
    requires i < |s.sems|
  {
    && s.sems[i].value + s.sems[i].downs == s.sems[i].initial + s.sems[i].ups
    && (s.sems[i].queue != [] ==> s.sems[i].value <= |Checkers(s, i)|)
  }

  // Threads are deleted after they finish, and at most once.
  ghost predicate Reaping(s: State) {
    && NoDup(s.destroyed)
    && (forall t <- s.destroyed :: t < |s.point| && s.point[t] == Finished)
    && (s.doomed.Some? ==>
          s.doomed.value < |s.point| && s.point[s.doomed.value] == Finished && s.doomed.value !in s.destroyed)
  }

  ghost predicate Inv(s: State) {
    && Placed(s)
    && (forall i :: 0 <= i < |s.sems| ==> Accounted(s, i))
    && Reaping(s)
  }
}

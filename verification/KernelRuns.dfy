// What holds in every run of the kernel, from boot, under every schedule.
module KernelRuns {
  import opened Common
  import opened Kernel
  import opened KernelSafety

  // A label that is not enabled is skipped, so that every sequence of labels
  // is a run and every run is such a sequence.
  function Next(s: State, l: Label): State {
    if WellShaped(s) && Enabled(s, l) then Apply(s, l) else s
  }

  function Exec(s: State, ls: seq<Label>): State {
    After(Next, s, ls)
  }

  lemma ExecKeeps(s: State, ls: seq<Label>)
    requires Inv(s)
    ensures Inv(Exec(s, ls))
  {
    forall r, l | Inv(r) ensures Inv(Next(r, l)) {
      if WellShaped(r) && Enabled(r, l) { StepKeeps(r, l); }
    }
    Along(Next, Inv, s, ls);
  }

  lemma Reachable(initials: seq<nat>, conditions: nat, ls: seq<Label>)
    ensures Inv(Exec(Boot(initials, conditions), ls))
  {
    BootInv(initials, conditions);
    ExecKeeps(Boot(initials, conditions), ls);
  }

  // ------------------------------------------------------------- lost wakeups

  // A semaphore's value is its initial value plus the completed Vs minus the
  // completed Ps; and if a unit is left while a thread sleeps on it, some
  // woken thread is on the ready list or on the processor, about to look.
  lemma NoLostWakeup(initials: seq<nat>, conditions: nat, ls: seq<Label>, i: SemId)
    requires i < |initials|
    ensures var s := Exec(Boot(initials, conditions), ls);
            && |s.sems| == |initials|
            && s.sems[i].value == initials[i] + s.sems[i].ups - s.sems[i].downs
            && (s.sems[i].queue != [] ==> s.sems[i].value <= |Checkers(s, i)|)
            && (s.sems[i].queue != [] && s.sems[i].value > 0 ==>
                  exists t :: t in Checkers(s, i) && (t in s.ready || OnProcessor(s, t)))
  {
    var s := Exec(Boot(initials, conditions), ls);
    Reachable(initials, conditions, ls);
    InitialsKept(Boot(initials, conditions), ls);
    assert Accounted(s, i);
    if s.sems[i].queue != [] && s.sems[i].value > 0 {
      assert Checkers(s, i) != {};
      var t :| t in Checkers(s, i);
      assert t in ReadySet(s) || OnProcessor(s, t);
    }
  }

  lemma {:induction false} InitialsKept(s: State, ls: seq<Label>)
    ensures |Exec(s, ls).sems| == |s.sems|
    ensures forall i :: 0 <= i < |s.sems| ==> Exec(s, ls).sems[i].initial == s.sems[i].initial
    decreases |ls|
  {
    if ls != [] {
      InitialsKept(Next(s, ls[0]), ls[1..]);
    }
  }

  // When the processor idles with an empty ready list, every semaphore that
  // has a sleeper is at zero: nobody sleeps beside an available unit.
  lemma IdleMeansExhausted(initials: seq<nat>, conditions: nat, ls: seq<Label>, i: SemId)
    requires i < |initials|
    requires var s := Exec(Boot(initials, conditions), ls); s.idle && s.ready == []
    ensures var s := Exec(Boot(initials, conditions), ls);
            i < |s.sems| && (s.sems[i].queue != [] ==> s.sems[i].value == 0)
  {
    NoLostWakeup(initials, conditions, ls, i);
  }

  // ---------------------------------------------------------------- partition

  datatype Place =
    | NotForked
    | Processor
    | ReadyList
    | SemQueue(sem: SemId)
    | CondQueue(cond: CondId)
    | Gone

  // Whether thread t is found at a place, read off the lists themselves.
  predicate At(s: State, t: Tid, p: Place) {
    match p
    case NotForked => t < |s.status| && s.status[t] == JustCreated
    case Processor => OnProcessor(s, t)
    case ReadyList => t in s.ready
    case SemQueue(i) => i < |s.sems| && t in s.sems[i].queue
    case CondQueue(c) => c < |s.conds| && t in s.conds[c]
    case Gone => t < |s.point| && s.point[t] == Finished
  }

  function StatusFor(p: Place): Status {
    match p
    case NotForked => JustCreated
    case Processor => Running
    case ReadyList => Ready
    case _ => Blocked
  }

  // Every created thread is in exactly one place, once, with the status of
  // that place; a deleted thread is in no list and is not the current thread
  // of a busy processor.
  lemma OnePlace(initials: seq<nat>, conditions: nat, ls: seq<Label>, t: Tid)
    requires t < |Exec(Boot(initials, conditions), ls).point|
    ensures var s := Exec(Boot(initials, conditions), ls);
            && t < |s.status|
            && (exists p :: At(s, t, p) && s.status[t] == StatusFor(p))
            && (forall p, q :: At(s, t, p) && At(s, t, q) ==> p == q)
            && NoDup(s.ready)
            && (forall i :: 0 <= i < |s.sems| ==> NoDup(s.sems[i].queue))
            && (forall c :: 0 <= c < |s.conds| ==> NoDup(s.conds[c]))
            && (t in s.destroyed ==> At(s, t, Gone))
            && NoDup(s.destroyed)
  {
    var s := Exec(Boot(initials, conditions), ls);
    Reachable(initials, conditions, ls);
    var p := match s.point[t]
      case Unforked => NotForked
      case Finished => Gone
      case AsleepOn(i) => SemQueue(i)
      case AsleepIn(c) => CondQueue(c)
      case _ => if OnProcessor(s, t) then Processor else ReadyList;
    assert At(s, t, p) by {
      match s.point[t]
      case AsleepOn(i) => assert t in SemSleepers(s, i);
      case AsleepIn(c) => assert t in CondSleepers(s, c);
      case _ => assert p == ReadyList ==> t in ReadySet(s);
    }
    forall q | At(s, t, q) ensures q == p {
      match q
      case SemQueue(i) => assert t in SemSleepers(s, i);
      case CondQueue(c) => assert t in CondSleepers(s, c);
      case ReadyList => assert t in ReadySet(s);
      case _ =>
    }
  }

  // --------------------------------------------------------- finished threads

  lemma FinishedStep(s: State, l: Label, t: Tid)
    requires Inv(s) && WellShaped(s) && Enabled(s, l) && t < |s.point| && s.point[t] == Finished
    ensures t < |Apply(s, l).point| && Apply(s, l).point[t] == Finished
  {
    match l {
      case DoV(i) =>
        if s.sems[i].queue != [] { ListsTail(s.sems[i].queue, SemSleepers(s, i)); }
      case DoSignal(c) =>
        if s.conds[c] != [] { ListsTail(s.conds[c], CondSleepers(s, c)); }
      case _ =>
    }
  }

  // A finished thread is on no ready list and not on the processor,
  lemma FinishedAway(s: State, t: Tid)
    requires Inv(s) && t < |s.point| && s.point[t] == Finished
    ensures t !in s.ready && !OnProcessor(s, t)
  {
    assert t !in ReadySet(s);
  }

  // and never will be again: it is never dispatched.
  lemma {:induction false} FinishedForever(s: State, ls: seq<Label>, t: Tid)
    requires Inv(s) && t < |s.point| && s.point[t] == Finished
    ensures var s' := Exec(s, ls);
            t < |s'.point| && s'.point[t] == Finished && !OnProcessor(s', t) && t !in s'.ready && t !in Takes(s, ls)
    decreases |ls|
  {
    FinishedAway(s, t);
    if ls != [] {
      var n := Next(s, ls[0]);
      assert Inv(n) && t < |n.point| && n.point[t] == Finished by {
        if WellShaped(s) && Enabled(s, ls[0]) {
          StepKeeps(s, ls[0]);
          FinishedStep(s, ls[0], t);
        }
      }
      assert t !in Take(s, ls[0]) by {
        if s.ready != [] { TakeShape(s, ls[0], 0); }
      }
      FinishedForever(n, ls[1..], t);
    }
  }

  // ------------------------------------------------------------ FIFO dispatch

  // The steps that call FindNextToRun.
  predicate Seeks(s: State, l: Label)
    requires Enabled(s, l)
  {
    match l
    case DoYield => true
    case DoFinish => true
    case DoP(i) => s.sems[i].value == 0
    case DoWait(_) => true
    case DoPoll => true
    case _ => false
  }

  // The thread that a step's call of FindNextToRun returns, if any.
  function Take(s: State, l: Label): seq<Tid> {
    if WellShaped(s) && Enabled(s, l) && Seeks(s, l) && s.ready != [] then [Next(s, l).current] else []
  }

  function Takes(s: State, ls: seq<Label>): seq<Tid>
    decreases |ls|
  {
    if ls == [] then [] else Take(s, ls[0]) + Takes(Next(s, ls[0]), ls[1..])
  }

  // A step that takes nobody leaves the ready list in front of what it adds;
  // a step that takes somebody drops exactly the head.
  lemma TakeShape(s: State, l: Label, k: nat)
    requires k < |s.ready|
    ensures Take(s, l) == [] ==> k < |Next(s, l).ready| && Next(s, l).ready[k] == s.ready[k]
    ensures Take(s, l) == [] && WellShaped(s) ==> Next(s, l).current == s.current
    ensures Take(s, l) != [] ==> Take(s, l) == [s.ready[0]] && !Next(s, l).idle
    ensures Take(s, l) != [] && k > 0 ==> k - 1 < |Next(s, l).ready| && Next(s, l).ready[k - 1] == s.ready[k]
  {
  }

  // The first |log| threads of the list have been taken, in order, and the others
  // have moved up.
  predicate InOrder(ready: seq<Tid>, log: seq<Tid>, end: seq<Tid>, k: nat)
    requires k < |ready|
  {
    if k < |log| then log[k] == ready[k] else k - |log| < |end| && end[k - |log|] == ready[k]
  }

  lemma InOrderStep(ready: seq<Tid>, first: seq<Tid>, next: seq<Tid>, log: seq<Tid>, end: seq<Tid>, k: nat)
    requires k < |ready|
    requires first == [] ==> k < |next| && next[k] == ready[k] && InOrder(next, log, end, k)
    requires first != [] ==> first == [ready[0]] && (k > 0 ==> k - 1 < |next| && next[k - 1] == ready[k] && InOrder(next, log, end, k - 1))
    ensures InOrder(ready, first + log, end, k)
  {
  }

  lemma {:induction false} TakesInOrder(s: State, ls: seq<Label>, k: nat)
    requires k < |s.ready|
    ensures InOrder(s.ready, Takes(s, ls), Exec(s, ls).ready, k)
    decreases |ls|
  {
    if ls != [] {
      TakeShape(s, ls[0], k);
      var n, first := Next(s, ls[0]), Take(s, ls[0]);
      if first == [] {
        TakesInOrder(n, ls[1..], k);
      } else if k > 0 {
        TakesInOrder(n, ls[1..], k - 1);
      }
      InOrderStep(s.ready, first, n.ready, Takes(n, ls[1..]), Exec(n, ls[1..]).ready, k);
    }
  }

  lemma TakesPrefix(s: State, ls: seq<Label>, n: nat)
    requires n <= |s.ready| && n <= |Takes(s, ls)|
    ensures Takes(s, ls)[..n] == s.ready[..n]
  {
    forall j | 0 <= j < n ensures Takes(s, ls)[j] == s.ready[j] {
      TakesInOrder(s, ls, j);
    }
  }

  // The log up to its k-th entry.
  function Before(log: seq<Tid>, k: nat): seq<Tid> { if k < |log| then log[..k] else log }

  // The thread at index k of the ready list is the one returned by exactly
  // the (k+1)-th successful FindNextToRun, and until then only moves forward.
  lemma DispatchOrder(initials: seq<nat>, conditions: nat, run: seq<Label>, s: State, ls: seq<Label>, k: nat)
    requires s == Exec(Boot(initials, conditions), run) && k < |s.ready|
    ensures InOrder(s.ready, Takes(s, ls), Exec(s, ls).ready, k)
    ensures s.ready[k] !in Before(Takes(s, ls), k)
  {
    TakesInOrder(s, ls, k);
    assert NoDup(s.ready) by { Reachable(initials, conditions, run); }
    NotTakenBefore(s, ls, k);
  }

  lemma NotTakenBefore(s: State, ls: seq<Label>, k: nat)
    requires NoDup(s.ready) && k < |s.ready|
    ensures s.ready[k] !in Before(Takes(s, ls), k)
  {
    var before := Before(Takes(s, ls), k);
    TakesPrefix(s, ls, |before|);
    assert before == s.ready[..|before|];
  }

  // ------------------------------------------------------------- FIFO wake-up

  // The thread that a step takes off the queue of semaphore i, if any.
  function Wake(s: State, l: Label, i: SemId): seq<Tid> {
    if WellShaped(s) && Enabled(s, l) && l == DoV(i) && i < |s.sems| && s.sems[i].queue != []
    then [Next(s, l).ready[|Next(s, l).ready| - 1]] else []
  }

  function Wakes(s: State, ls: seq<Label>, i: SemId): seq<Tid>
    decreases |ls|
  {
    if ls == [] then [] else Wake(s, ls[0], i) + Wakes(Next(s, ls[0]), ls[1..], i)
  }

  function SemQueueOf(s: State, i: SemId): seq<Tid> { if i < |s.sems| then s.sems[i].queue else [] }

  lemma WakeShape(s: State, l: Label, i: SemId, k: nat)
    requires k < |SemQueueOf(s, i)|
    ensures Wake(s, l, i) == [] ==> k < |SemQueueOf(Next(s, l), i)| && SemQueueOf(Next(s, l), i)[k] == SemQueueOf(s, i)[k]
    ensures Wake(s, l, i) != [] ==> Wake(s, l, i) == [SemQueueOf(s, i)[0]]
    ensures Wake(s, l, i) != [] && k > 0 ==>
              k - 1 < |SemQueueOf(Next(s, l), i)| && SemQueueOf(Next(s, l), i)[k - 1] == SemQueueOf(s, i)[k]
  {
  }

  // A semaphore wakes its sleepers in the order in which they went to sleep: the
  // one at index k of the queue by exactly the (k+1)-th V that wakes anybody.
  lemma {:induction false} WakeOrder(s: State, ls: seq<Label>, i: SemId, k: nat)
    requires k < |SemQueueOf(s, i)|
    ensures InOrder(SemQueueOf(s, i), Wakes(s, ls, i), SemQueueOf(Exec(s, ls), i), k)
    decreases |ls|
  {
    if ls != [] {
      WakeShape(s, ls[0], i, k);
      var n, first := Next(s, ls[0]), Wake(s, ls[0], i);
      if first == [] {
        WakeOrder(n, ls[1..], i, k);
      } else if k > 0 {
        WakeOrder(n, ls[1..], i, k - 1);
      }
      InOrderStep(SemQueueOf(s, i), first, SemQueueOf(n, i), Wakes(n, ls[1..], i), SemQueueOf(Exec(n, ls[1..]), i), k);
    }
  }

  // The same for a condition and its Signals.
  function Signalled(s: State, l: Label, c: CondId): seq<Tid> {
    if WellShaped(s) && Enabled(s, l) && l == DoSignal(c) && c < |s.conds| && s.conds[c] != []
    then [Next(s, l).ready[|Next(s, l).ready| - 1]] else []
  }

  function Signals(s: State, ls: seq<Label>, c: CondId): seq<Tid>
    decreases |ls|
  {
    if ls == [] then [] else Signalled(s, ls[0], c) + Signals(Next(s, ls[0]), ls[1..], c)
  }

  function CondQueueOf(s: State, c: CondId): seq<Tid> { if c < |s.conds| then s.conds[c] else [] }

  lemma SignalShape(s: State, l: Label, c: CondId, k: nat)
    requires k < |CondQueueOf(s, c)|
    ensures Signalled(s, l, c) == [] ==> k < |CondQueueOf(Next(s, l), c)| && CondQueueOf(Next(s, l), c)[k] == CondQueueOf(s, c)[k]
    ensures Signalled(s, l, c) != [] ==> Signalled(s, l, c) == [CondQueueOf(s, c)[0]]
    ensures Signalled(s, l, c) != [] && k > 0 ==>
              k - 1 < |CondQueueOf(Next(s, l), c)| && CondQueueOf(Next(s, l), c)[k - 1] == CondQueueOf(s, c)[k]
  {
  }

  lemma {:induction false} SignalOrder(s: State, ls: seq<Label>, c: CondId, k: nat)
    requires k < |CondQueueOf(s, c)|
    ensures InOrder(CondQueueOf(s, c), Signals(s, ls, c), CondQueueOf(Exec(s, ls), c), k)
    decreases |ls|
  {
    if ls != [] {
      SignalShape(s, ls[0], c, k);
      var n, first := Next(s, ls[0]), Signalled(s, ls[0], c);
      if first == [] {
        SignalOrder(n, ls[1..], c, k);
      } else if k > 0 {
        SignalOrder(n, ls[1..], c, k - 1);
      }
      InOrderStep(CondQueueOf(s, c), first, CondQueueOf(n, c), Signals(n, ls[1..], c), CondQueueOf(Exec(n, ls[1..]), c), k);
    }
  }
}

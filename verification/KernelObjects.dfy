/**
  The kernel as an object that is updated in place, statement by statement as in
  the scheduler, the threads and the semaphores, with the ready list and the wait
  queues as linked lists.  Each method is one stretch of code that runs with
  interrupts off, and is proved to be the transition of the kernel machine of the
  same name; the invariant of that machine is the object's.
 */
module KernelObjects {
  import opened Common
  import opened Kernel
  import opened KernelSafety
  import opened LinkedLists

  // The items of a list, without their keys.
  ghost function Items(list: List<Tid>): seq<Tid>
    reads list
  {
    seq(|list.spine|, k requires 0 <= k < |list.spine| reads list => list.spine[k].item)
  }

  lemma ItemsAre(list: List<Tid>)
    ensures |Items(list)| == |list.Contents()| && forall k :: 0 <= k < |Items(list)| ==> Items(list)[k] == list.Contents()[k].item
  {
  }

  // The lists of the kernel: the ready list, then the queue of each semaphore, then the
  // queue of each condition.  No two of them share an element.
  class Queues {
    const lists: seq<List<Tid>>
    ghost var repr: set<object>

    ghost predicate Apart(i: nat, j: nat)
      requires i < |lists| && j < |lists|
      reads this, repr
    {
      && lists[i] in repr && lists[j] in repr && lists[i] != lists[j]
      && forall x, y :: 0 <= x < |lists[i].spine| && 0 <= y < |lists[j].spine| ==> lists[i].spine[x] != lists[j].spine[y]
    }

    ghost predicate Holding(i: nat)
      requires i < |lists|
      reads this, repr
    {
      && lists[i] in repr && (forall x :: 0 <= x < |lists[i].spine| ==> lists[i].spine[x] in repr)
      && lists[i].Valid()
    }

    ghost predicate Valid()
      reads this, repr
    {
      && this !in repr
      && (forall i :: 0 <= i < |lists| ==> Holding(i))
      && (forall i, j :: 0 <= i < |lists| && 0 <= j < |lists| && i != j ==> Apart(i, j))
    }

    ghost function Contents(): seq<seq<Tid>>
      reads lists
    {
      seq(|lists|, i requires 0 <= i < |lists| reads lists => Items(lists[i]))
    }

    constructor (count: nat)
      ensures Valid() && fresh(repr) && |lists| == count && Contents() == seq(count, _ => [])
    {
      var made: seq<List<Tid>> := [];
      for i := 0 to count
        invariant |made| == i && (forall k :: 0 <= k < i ==> fresh(made[k]) && made[k].Valid() && made[k].spine == [])
        invariant forall j, k :: 0 <= j < k < i ==> made[j] != made[k]
      {
        var list := new List<Tid>();
        made := made + [list];
      }
      lists := made;
      repr := set l: object | l in made;
      new;
      assert forall i :: 0 <= i < count ==> Items(lists[i]) == [];
    }

    method IsEmpty(i: nat) returns (empty: bool)
      requires Valid() && i < |lists|
      ensures empty <==> Contents()[i] == []
    {
      assert Holding(i);
      ItemsAre(lists[i]);
      empty := lists[i].IsEmpty();
    }

    method Append(i: nat, t: Tid)
      requires Valid() && i < |lists|
      modifies this, repr
      ensures Valid() && fresh(repr - old(repr))
      ensures Contents() == old(Contents())[i := old(Contents())[i] + [t]]
    {
      var list := lists[i];
      assert Holding(i);
      ItemsAre(list);
      list.Append(t);
      ItemsAre(list);
      repr := repr + set e: object | e in list.spine;
      assert Holding(i);
      forall j | 0 <= j < |lists| && j != i ensures lists[j].spine == old(lists[j].spine) && Holding(j) && Apart(i, j) && Apart(j, i) {
        assert old(Holding(j)) && old(Apart(i, j));
      }
      forall j, k | 0 <= j < |lists| && 0 <= k < |lists| && j != k ensures Apart(j, k) {
        if i != j && i != k { assert old(Apart(j, k)); }
      }
      assert Items(list) == old(Items(list)) + [t];
    }

    method Remove(i: nat) returns (r: Option<Tid>)
      requires Valid() && i < |lists|
      modifies this, repr
      ensures Valid() && fresh(repr - old(repr))
      ensures old(Contents())[i] == [] ==> r == None && Contents() == old(Contents())
      ensures old(Contents())[i] != [] ==> r == Some(old(Contents())[i][0]) && Contents() == old(Contents())[i := old(Contents())[i][1..]]
    {
      var list := lists[i];
      assert Holding(i);
      ItemsAre(list);
      r := list.Remove();
      ItemsAre(list);
      forall j | 0 <= j < |lists| && j != i ensures lists[j].spine == old(lists[j].spine) && Holding(j) {
        assert old(Holding(j)) && old(Apart(i, j));
      }
      forall j, k | 0 <= j < |lists| && 0 <= k < |lists| && j != k ensures Apart(j, k) {
        assert old(Apart(j, k));
      }
      assert old(Items(list)) != [] ==> Items(list) == old(Items(list))[1..];
    }
  }

  // How often a semaphore was initialised, raised and lowered.
  datatype Tally = Tally(initial: nat, ups: nat, downs: nat)

  // The semaphores and the conditions of the machine, read off the lists.
  ghost function SemsOf(values: seq<nat>, tallies: seq<Tally>, q: seq<seq<Tid>>): seq<Semaphore>
    requires |tallies| == |values| < |q|
  {
    seq(|values|, i requires 0 <= i < |values| => Semaphore(values[i], q[1 + i], tallies[i].initial, tallies[i].ups, tallies[i].downs))
  }

  ghost function CondsOf(n: nat, conditions: nat, q: seq<seq<Tid>>): seq<seq<Tid>>
    requires |q| == 1 + n + conditions
  {
    seq(conditions, c requires 0 <= c < conditions => q[1 + n + c])
  }

  lemma ReadyChanged(values: seq<nat>, tallies: seq<Tally>, conditions: nat, q: seq<seq<Tid>>, x: seq<Tid>)
    requires |tallies| == |values| && |q| == 1 + |values| + conditions
    ensures SemsOf(values, tallies, q[0 := x]) == SemsOf(values, tallies, q)
    ensures CondsOf(|values|, conditions, q[0 := x]) == CondsOf(|values|, conditions, q)
  {
  }

  lemma SemChanged(values: seq<nat>, tallies: seq<Tally>, conditions: nat, q: seq<seq<Tid>>, i: nat, v: nat, t: Tally, x: seq<Tid>)
    requires |tallies| == |values| && |q| == 1 + |values| + conditions && i < |values|
    ensures SemsOf(values[i := v], tallies[i := t], q[1 + i := x]) == SemsOf(values, tallies, q)[i := Semaphore(v, x, t.initial, t.ups, t.downs)]
    ensures CondsOf(|values|, conditions, q[1 + i := x]) == CondsOf(|values|, conditions, q)
  {
  }

  lemma CondChanged(values: seq<nat>, tallies: seq<Tally>, conditions: nat, q: seq<seq<Tid>>, c: nat, x: seq<Tid>)
    requires |tallies| == |values| && |q| == 1 + |values| + conditions && c < conditions
    ensures SemsOf(values, tallies, q[1 + |values| + c := x]) == SemsOf(values, tallies, q)
    ensures CondsOf(|values|, conditions, q[1 + |values| + c := x]) == CondsOf(|values|, conditions, q)[c := x]
  {
  }

  class NachosKernel {
    var point: seq<Point>
    var status: seq<Status>
    var started: seq<bool>
    var current: Tid
    var idle: bool
    var values: seq<nat>
    ghost var tallies: seq<Tally>
    const conditions: nat
    const queues: Queues
    var threadToBeDestroyed: Option<Tid>
    ghost var destroyed: seq<Tid>

    ghost predicate Valid()
      reads this, queues, queues.repr
    {
      && this !in queues.repr && queues.Valid()
      && |tallies| == |values| && |queues.lists| == 1 + |values| + conditions
    }

    ghost function View(): State
      requires |tallies| == |values| && |queues.lists| == 1 + |values| + conditions
      reads this, queues.lists
    {
      var q := queues.Contents();
      State(point, status, started, current, idle, q[0], SemsOf(values, tallies, q), CondsOf(|values|, conditions, q), threadToBeDestroyed, destroyed)
    }

    // Initialize: the main thread runs, nothing else exists.
    constructor (initials: seq<nat>, numConditions: nat)
      ensures Valid() && fresh(queues) && fresh(queues.repr) && View() == Boot(initials, numConditions) && Inv(View())
    {
      point, status, started := [InCode], [Running], [true];
      current, idle := 0, false;
      values, conditions := initials, numConditions;
      tallies := seq(|initials|, i requires 0 <= i < |initials| => Tally(initials[i], 0, 0));
      queues := new Queues(1 + |initials| + numConditions);
      threadToBeDestroyed, destroyed := None, [];
      new;
      assert View().sems == Boot(initials, numConditions).sems;
      assert View().conds == Boot(initials, numConditions).conds;
      BootInv(initials, numConditions);
    }

    method ReadyToRun(t: Tid)
      requires Valid() && t < |status|
      modifies this, queues, queues.repr
      ensures Valid() && fresh(queues.repr - old(queues.repr)) && |values| == |old(values)|
      ensures View() == Kernel.ReadyToRun(old(View()), t)
    {
      ghost var q := queues.Contents();
      queues.Append(0, t);
      ReadyChanged(values, tallies, conditions, q, q[0] + [t]);
      status := status[t := Ready];
    }

    method FindNextToRun() returns (next: Option<Tid>)
      requires Valid()
      modifies this, queues, queues.repr
      ensures Valid() && fresh(queues.repr - old(queues.repr)) && |values| == |old(values)|
      ensures old(View()).ready == [] ==> next == None && View() == old(View())
      ensures old(View()).ready != [] ==> next == Some(old(View()).ready[0]) && View() == old(View()).(ready := old(View()).ready[1..])
    {
      ghost var q := queues.Contents();
      next := queues.Remove(0);
      if q[0] != [] { ReadyChanged(values, tallies, conditions, q, q[0][1..]); }
    }

    method Run(next: Tid)
      requires Valid() && next < |status| == |started|
      modifies this
      ensures Valid() && |values| == |old(values)| && View() == Kernel.Run(old(View()), next)
    {
      ghost var q := queues.Contents();
      var resumes := started[next];
      current := next;
      status := status[current := Running];
      started := started[next := true];
      idle := false;
      if resumes && threadToBeDestroyed != None {
        destroyed := destroyed + [threadToBeDestroyed.value];
        threadToBeDestroyed := None;
      }
      assert queues.Contents() == q;
    }

    // A turn of the loop in Thread::Sleep; with nobody ready the processor
    // idles until an interrupt handler has made some thread ready.
    method LeaveProcessor()
      requires Valid() && WellShaped(View())
      modifies this, queues, queues.repr
      ensures Valid() && fresh(queues.repr - old(queues.repr)) && |values| == |old(values)|
      ensures View() == Dispatch(old(View()))
    {
      ghost var s := View();
      var next := FindNextToRun();
      match next
      case None => idle := true;
      case Some(t) =>
        assert t in s.ready;
        Run(t);
    }

    method Sleep()
      requires Valid() && WellShaped(View())
      modifies this, queues, queues.repr
      ensures Valid() && fresh(queues.repr - old(queues.repr)) && |values| == |old(values)|
      ensures View() == Kernel.Sleep(old(View()))
    {
      status := status[current := Blocked];
      LeaveProcessor();
    }

    method Yield()
      requires Valid() && Inv(View()) && Free(View())
      modifies this, queues, queues.repr
      ensures Valid() && fresh(queues.repr - old(queues.repr)) && |values| == |old(values)|
      ensures WellShaped(old(View())) && View() == Kernel.Yield(old(View())) && Inv(View())
    {
      YieldKeeps(View());
      HandOver();
    }

    method HandOver()
      requires Valid() && WellShaped(View())
      modifies this, queues, queues.repr
      ensures Valid() && fresh(queues.repr - old(queues.repr)) && |values| == |old(values)|
      ensures View() == Kernel.Yield(old(View()))
    {
      ghost var s := View();
      var next := FindNextToRun();
      if next.Some? {
        assert next.value in s.ready;
        ReadyToRun(current);
        Run(next.value);
      }
    }

    method Fork(t: Tid)
      requires Valid() && Inv(View()) && Enabled(View(), DoFork(t))
      modifies this, queues, queues.repr
      ensures Valid() && fresh(queues.repr - old(queues.repr)) && |values| == |old(values)|
      ensures View() == Kernel.Fork(old(View()), t) && Inv(View())
    {
      ForkKeeps(View(), t);
      point := point[t := InCode];
      ReadyToRun(t);
    }

    method Finish()
      requires Valid() && Inv(View()) && Free(View())
      modifies this, queues, queues.repr
      ensures Valid() && fresh(queues.repr - old(queues.repr)) && |values| == |old(values)|
      ensures WellShaped(old(View())) && View() == Kernel.Finish(old(View())) && Inv(View())
    {
      FinishKeeps(View());
      SleepForever();
    }

    method SleepForever()
      requires Valid() && WellShaped(View())
      modifies this, queues, queues.repr
      ensures Valid() && fresh(queues.repr - old(queues.repr)) && |values| == |old(values)|
      ensures View() == Kernel.Finish(old(View()))
    {
      threadToBeDestroyed := Some(current);
      point := point[current := Finished];
      Sleep();
    }

    // A turn of the loop in Semaphore::P.  It returns true when P has consumed
    // a unit; otherwise the thread is asleep and takes another turn when woken.
    method P(i: SemId) returns (done: bool)
      requires Valid() && Inv(View()) && Enabled(View(), DoP(i))
      modifies this, queues, queues.repr
      ensures Valid() && fresh(queues.repr - old(queues.repr)) && |values| == |old(values)|
      ensures WellShaped(old(View())) && View() == SemP(old(View()), i) && Inv(View())
      ensures done <==> old(values)[i] > 0
    {
      PKeeps(View(), i);
      done := TurnP(i);
    }

    method TurnP(i: SemId) returns (done: bool)
      requires Valid() && WellShaped(View()) && i < |values|
      modifies this, queues, queues.repr
      ensures Valid() && fresh(queues.repr - old(queues.repr)) && |values| == |old(values)|
      ensures View() == SemP(old(View()), i) && (done <==> old(values)[i] > 0)
    {
      ghost var s := View();
      if values[i] == 0 {
        JoinQueue(i);
        point := point[current := AsleepOn(i)];
        QueuedShaped(s, i);
        Sleep();
        return false;
      }
      LowerValue(i);
      point := point[current := InCode];
      return true;
    }

    // queue->Append(currentThread)
    method JoinQueue(i: SemId)
      requires Valid() && i < |values|
      modifies this, queues, queues.repr
      ensures Valid() && fresh(queues.repr - old(queues.repr)) && |values| == |old(values)|
      ensures View() == old(View()).(sems := old(View()).sems[i := old(View()).sems[i].(queue := old(View()).sems[i].queue + [old(current)])])
    {
      ghost var q := queues.Contents();
      queues.Append(1 + i, current);
      SemChanged(values, tallies, conditions, q, i, values[i], tallies[i], q[1 + i] + [current]);
      assert values[i := values[i]] == values && tallies[i := tallies[i]] == tallies;
    }

    // value--
    method LowerValue(i: SemId)
      requires Valid() && i < |values| && values[i] > 0
      modifies this
      ensures Valid() && |values| == |old(values)|
      ensures var sem := old(View()).sems[i];
              View() == old(View()).(sems := old(View()).sems[i := sem.(value := old(values)[i] - 1, downs := sem.downs + 1)])
    {
      ghost var q := queues.Contents();
      ghost var t := tallies[i].(downs := tallies[i].downs + 1);
      SemChanged(values, tallies, conditions, q, i, values[i] - 1, t, q[1 + i]);
      assert q[1 + i := q[1 + i]] == q;
      values := values[i := values[i] - 1];
      tallies := tallies[i := t];
    }

    // value++
    method RaiseValue(i: SemId)
      requires Valid() && i < |values|
      modifies this
      ensures Valid() && |values| == |old(values)|
      ensures var sem := old(View()).sems[i];
              View() == old(View()).(sems := old(View()).sems[i := sem.(value := sem.value + 1, ups := sem.ups + 1)])
    {
      ghost var q := queues.Contents();
      ghost var t := tallies[i].(ups := tallies[i].ups + 1);
      SemChanged(values, tallies, conditions, q, i, values[i] + 1, t, q[1 + i]);
      assert q[1 + i := q[1 + i]] == q;
      values := values[i := values[i] + 1];
      tallies := tallies[i := t];
    }

    // queue->Remove()
    method TakeSleeper(i: SemId) returns (thread: Option<Tid>)
      requires Valid() && i < |values|
      modifies this, queues, queues.repr
      ensures Valid() && fresh(queues.repr - old(queues.repr)) && |values| == |old(values)|
      ensures var sem := old(View()).sems[i];
              if sem.queue == [] then thread == None && View() == old(View())
              else thread == Some(sem.queue[0]) && View() == old(View()).(sems := old(View()).sems[i := sem.(queue := sem.queue[1..])])
    {
      ghost var q := queues.Contents();
      thread := queues.Remove(1 + i);
      if q[1 + i] != [] {
        SemChanged(values, tallies, conditions, q, i, values[i], tallies[i], q[1 + i][1..]);
        assert values[i := values[i]] == values && tallies[i := tallies[i]] == tallies;
      }
    }

    method V(i: SemId)
      requires Valid() && Inv(View()) && i < |values|
      modifies this, queues, queues.repr
      ensures Valid() && fresh(queues.repr - old(queues.repr)) && |values| == |old(values)|
      ensures WellShaped(old(View())) && View() == SemV(old(View()), i) && Inv(View())
    {
      VKeeps(View(), i);
      TurnV(i);
    }

    method TurnV(i: SemId)
      requires Valid() && WellShaped(View()) && i < |values|
      modifies this, queues, queues.repr
      ensures Valid() && fresh(queues.repr - old(queues.repr)) && |values| == |old(values)|
      ensures View() == SemV(old(View()), i)
    {
      ghost var s := View();
      WakeSleeper(i);
      RaiseValue(i);
      assert View().sems == SemV(s, i).sems;
    }

    // The first half of V: the longest sleeper, if there is one, becomes ready.
    method WakeSleeper(i: SemId)
      requires Valid() && WellShaped(View()) && i < |values|
      modifies this, queues, queues.repr
      ensures Valid() && fresh(queues.repr - old(queues.repr)) && |values| == |old(values)|
      ensures var s := old(View());
              var sem := s.sems[i];
              View() == if sem.queue == [] then s
                        else Kernel.ReadyToRun(s.(sems := s.sems[i := sem.(queue := sem.queue[1..])], point := s.point[sem.queue[0] := Checking(i)]), sem.queue[0])
    {
      var thread := TakeSleeper(i);
      if thread.Some? {
        point := point[thread.value := Checking(i)];
        ReadyToRun(thread.value);
      }
    }

    // The tail of Condition::Wait, after the lock has been released.
    method WaitOn(c: CondId)
      requires Valid() && Inv(View()) && Enabled(View(), DoWait(c))
      modifies this, queues, queues.repr
      ensures Valid() && fresh(queues.repr - old(queues.repr)) && |values| == |old(values)|
      ensures WellShaped(old(View())) && View() == CondSleep(old(View()), c) && Inv(View())
    {
      WaitKeeps(View(), c);
      SleepIn(c);
    }

    method SleepIn(c: CondId)
      requires Valid() && WellShaped(View()) && c < conditions
      modifies this, queues, queues.repr
      ensures Valid() && fresh(queues.repr - old(queues.repr)) && |values| == |old(values)|
      ensures View() == CondSleep(old(View()), c)
    {
      ghost var s := View();
      JoinWaiters(c);
      point := point[current := AsleepIn(c)];
      WaitingShaped(s, c);
      Sleep();
    }

    method JoinWaiters(c: CondId)
      requires Valid() && c < conditions
      modifies this, queues, queues.repr
      ensures Valid() && fresh(queues.repr - old(queues.repr)) && |values| == |old(values)|
      ensures View() == old(View()).(conds := old(View()).conds[c := old(View()).conds[c] + [old(current)]])
    {
      ghost var q := queues.Contents();
      queues.Append(1 + |values| + c, current);
      CondChanged(values, tallies, conditions, q, c, q[1 + |values| + c] + [current]);
    }

    method Signal(c: CondId)
      requires Valid() && Inv(View()) && c < conditions
      modifies this, queues, queues.repr
      ensures Valid() && fresh(queues.repr - old(queues.repr)) && |values| == |old(values)|
      ensures WellShaped(old(View())) && View() == CondSignal(old(View()), c) && Inv(View())
    {
      SignalKeeps(View(), c);
      WakeWaiter(c);
    }

    method WakeWaiter(c: CondId)
      requires Valid() && WellShaped(View()) && c < conditions
      modifies this, queues, queues.repr
      ensures Valid() && fresh(queues.repr - old(queues.repr)) && |values| == |old(values)|
      ensures View() == CondSignal(old(View()), c)
    {
      var next := TakeWaiter(c);
      if next.Some? {
        point := point[next.value := InCode];
        ReadyToRun(next.value);
      }
    }

    method TakeWaiter(c: CondId) returns (next: Option<Tid>)
      requires Valid() && c < conditions
      modifies this, queues, queues.repr
      ensures Valid() && fresh(queues.repr - old(queues.repr)) && |values| == |old(values)|
      ensures var s := old(View());
              if s.conds[c] == [] then next == None && View() == s
              else next == Some(s.conds[c][0]) && View() == s.(conds := s.conds[c := s.conds[c][1..]])
    {
      ghost var q := queues.Contents();
      next := queues.Remove(1 + |values| + c);
      if next.Some? { CondChanged(values, tallies, conditions, q, c, q[1 + |values| + c][1..]); }
    }

    // Every waiter becomes ready, in the order of the queue; the loop ends.
    method Broadcast(c: CondId)
      requires Valid() && Inv(View()) && c < conditions
      modifies this, queues, queues.repr
      ensures Valid() && fresh(queues.repr - old(queues.repr)) && |values| == |old(values)|
      ensures WellShaped(old(View())) && View() == CondBroadcast(old(View()), c) && Inv(View())
    {
      BroadcastWakesAll(View(), c);
      WakeAll(c);
    }

    method WakeAll(c: CondId)
      requires Valid() && WellShaped(View()) && c < conditions
      modifies this, queues, queues.repr
      ensures Valid() && fresh(queues.repr - old(queues.repr)) && |values| == |old(values)|
      ensures View() == CondBroadcast(old(View()), c)
    {
      ghost var s := View();
      ghost var goal := CondBroadcast(s, c);
      var empty := NoWaiters(c, s);
      while !empty
        invariant Valid() && fresh(queues.repr - old(queues.repr)) && |values| == |old(values)| && View() == s
        invariant Waking(s, c, goal) && (empty <==> s.conds[c] == [])
        decreases |s.conds[c]|
      {
        s := WakeNext(c, s, goal);
        empty := NoWaiters(c, s);
      }
    }

    // queue->IsEmpty()
    method NoWaiters(c: CondId, ghost s: State) returns (empty: bool)
      requires Valid() && c < conditions && View() == s
      ensures empty <==> s.conds[c] == []
    {
      empty := queues.IsEmpty(1 + |values| + c);
    }

    method WakeNext(c: CondId, ghost s: State, ghost goal: State) returns (ghost n: State)
      requires Valid() && c < conditions && View() == s && Waking(s, c, goal) && s.conds[c] != []
      modifies this, queues, queues.repr
      ensures Valid() && fresh(queues.repr - old(queues.repr)) && |values| == |old(values)| && View() == n
      ensures Waking(n, c, goal) && |n.conds[c]| < |s.conds[c]|
    {
      BroadcastStep(s, c);
      n := CondSignal(s, c);
      WakeWaiter(c);
    }
  }

  // On the way to the end of a broadcast.
  ghost predicate Waking(s: State, c: CondId, goal: State) {
    WellShaped(s) && c < |s.conds| && CondBroadcast(s, c) == goal
  }

  lemma BroadcastStep(s: State, c: CondId)
    requires WellShaped(s) && c < |s.conds| && s.conds[c] != []
    ensures var n := CondSignal(s, c);
            WellShaped(n) && |n.conds| == |s.conds| && |n.conds[c]| < |s.conds[c]| && CondBroadcast(n, c) == CondBroadcast(s, c)
  {
    SignalShaped(s, c);
  }

  lemma QueuedShaped(s: State, i: SemId)
    requires WellShaped(s) && i < |s.sems|
    ensures WellShaped(s.(sems := s.sems[i := s.sems[i].(queue := s.sems[i].queue + [s.current])], point := s.point[s.current := AsleepOn(i)]))
  {
  }

  lemma WaitingShaped(s: State, c: CondId)
    requires WellShaped(s) && c < |s.conds|
    ensures WellShaped(s.(conds := s.conds[c := s.conds[c] + [s.current]], point := s.point[s.current := AsleepIn(c)]))
  {
  }
}

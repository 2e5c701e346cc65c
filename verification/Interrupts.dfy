/**
  Simulated time and hardware interrupts: the sorted queue of pending
  interrupts, the clock, and the polling loops that fire what is due.
 */
module Interrupts {
  import opened Common
  import opened LinkedLists

  const SystemTick: nat := 10
  const UserTick: nat := 1

  datatype Kind = TimerInt | DiskInt | ConsoleWriteInt | ConsoleReadInt | NetworkSendInt | NetworkRecvInt
  datatype Level = IntOff | IntOn
  datatype Mode = IdleMode | SystemMode | UserMode

  datatype Pending = Pending(handler: int, arg: int, when: int, kind: Kind)

  // What a handler does when it runs: it schedules interrupts and may ask for
  // a context switch.
  type Delay = d: int | d > 0 witness 1
  datatype Request = Request(handler: int, arg: int, fromNow: Delay, kind: Kind)
  datatype Response = Response(requests: seq<Request>, wantsYield: bool)

  // What the rest of the machine does to this one, in any order: the calls of a
  // run.  Idle is called with interrupts off.
  datatype Call =
    | CallSetLevel(level: Level)
    | CallOneTick
    | CallIdle
    | CallSchedule(request: Request)
    | CallSetStatus(mode: Mode)

  // History: the interrupt that fired, and when.
  datatype Firing = Firing(what: Pending, at: int)

  type Queue = seq<Keyed<Pending>>

  // The interrupt that a request made now asks for.
  function AskedAt(now: int, r: Request): Pending {
    Pending(r.handler, r.arg, now + r.fromNow, r.kind)
  }

  function Scheduled(q: Queue, now: int, r: Request): Queue {
    Inserted(q, Keyed(now + r.fromNow, AskedAt(now, r)))
  }

  function ScheduledAll(q: Queue, now: int, rs: seq<Request>): Queue
    decreases |rs|
  {
    if rs == [] then q else ScheduledAll(Scheduled(q, now, rs[0]), now, rs[1..])
  }

  ghost predicate QueueOk(q: Queue) {
    Sorted(q) && forall i :: 0 <= i < |q| ==> q[i].key == q[i].item.when
  }

  // The number of pending interrupts that are already due.
  function Due(q: Queue, now: int): nat { Position(q, now) }

  ghost predicate NoneBefore(q: Queue, t: int) {
    forall i :: 0 <= i < |q| ==> t <= q[i].key
  }

  ghost predicate NothingDue(q: Queue, now: int) {
    forall i :: 0 <= i < |q| ==> now < q[i].item.when
  }

  predicate SoleTimer(q: Queue) {
    |q| == 1 && q[0].item.kind == TimerInt
  }

  lemma DueZero(q: Queue, now: int)
    requires QueueOk(q)
    ensures Due(q, now) == 0 <==> NothingDue(q, now)
  {
    if q != [] && now < q[0].key {
      forall i | 0 <= i < |q| ensures now < q[i].key {
        assert i > 0 ==> q[0].key <= q[i].key;
      }
    }
  }

  lemma InsertedOk(q: Queue, x: Keyed<Pending>)
    requires QueueOk(q) && x.key == x.item.when
    ensures QueueOk(Inserted(q, x))
  {
    InsertedSorted(q, x);
    var q' := Inserted(q, x);
    forall i | 0 <= i < |q'| ensures q'[i].key == q'[i].item.when {
      InsertedAt(q, x, i);
    }
  }

  lemma InsertedBound(q: Queue, x: Keyed<Pending>, t: int)
    requires NoneBefore(q, t) && t <= x.key
    ensures NoneBefore(Inserted(q, x), t)
  {
    forall i | 0 <= i < |Inserted(q, x)| ensures t <= Inserted(q, x)[i].key {
      InsertedAt(q, x, i);
    }
  }

  // An interrupt in the future does not make one more due.
  lemma InsertedDue(q: Queue, x: Keyed<Pending>, now: int)
    requires now < x.key
    ensures Due(Inserted(q, x), now) == Due(q, now)
  {
    var d, p := Due(q, now), Position(q, x.key);
    forall i | 0 <= i < d ensures Inserted(q, x)[i].key <= now { InsertedAt(q, x, i); }
    InsertedAt(q, x, d);
    PositionUnique(Inserted(q, x), now, d);
  }

  // The interrupts fired so far came in the order of their scheduled times,
  // none of them early, and nothing pending precedes the last one.
  ghost predicate HistoryOk(fired: seq<Firing>, q: Queue, now: int) {
    && InOrder(fired)
    && (fired != [] ==> fired[|fired| - 1].at <= now && NoneBefore(q, fired[|fired| - 1].what.when))
  }

  ghost predicate InOrder(fired: seq<Firing>) {
    && (forall i :: 0 <= i < |fired| ==> fired[i].what.when <= fired[i].at)
    && (forall i, j :: 0 <= i < j < |fired| ==> fired[i].what.when <= fired[j].what.when && fired[i].at <= fired[j].at)
  }

  lemma ScheduledOk(q: Queue, now: int, r: Request)
    requires QueueOk(q)
    ensures QueueOk(Scheduled(q, now, r))
  {
    InsertedOk(q, Keyed(now + r.fromNow, AskedAt(now, r)));
  }

  lemma ScheduledHistory(q: Queue, now: int, r: Request, fired: seq<Firing>)
    requires HistoryOk(fired, q, now)
    ensures HistoryOk(fired, Scheduled(q, now, r), now)
  {
    var x := Keyed(now + r.fromNow, AskedAt(now, r));
    if fired != [] { InsertedBound(q, x, fired[|fired| - 1].what.when); }
  }

  lemma ScheduledDue(q: Queue, now: int, r: Request)
    ensures Due(Scheduled(q, now, r), now) == Due(q, now)
  {
    InsertedDue(q, Keyed(now + r.fromNow, AskedAt(now, r)), now);
  }

  lemma {:induction false} ScheduledAllDue(q: Queue, now: int, rs: seq<Request>)
    ensures Due(ScheduledAll(q, now, rs), now) == Due(q, now)
    decreases |rs|
  {
    if rs != [] {
      ScheduledDue(q, now, rs[0]);
      ScheduledAllDue(Scheduled(q, now, rs[0]), now, rs[1..]);
    }
  }

  lemma TailOk(q: Queue)
    requires QueueOk(q) && q != []
    ensures QueueOk(q[1..]) && NoneBefore(q[1..], q[0].key)
  {
  }

  lemma TailDue(q: Queue, now: int)
    requires q != [] && q[0].key <= now
    ensures Due(q[1..], now) == Due(q, now) - 1
  {
    PositionUnique(q[1..], now, Due(q, now) - 1);
  }

  // A poll that finds nothing due takes the head off and inserts it again:
  // the same interrupts, still sorted, those with the first time rotated by one.
  lemma RotateKeeps(q: Queue, now: int, fired: seq<Firing>)
    requires QueueOk(q) && q != [] && HistoryOk(fired, q, now)
    ensures QueueOk(Inserted(q[1..], q[0])) && HistoryOk(fired, Inserted(q[1..], q[0]), now)
    ensures multiset(Inserted(q[1..], q[0])) == multiset(q)
  {
    ReinsertKeeps(q);
    InsertedOk(q[1..], q[0]);
    if fired != [] { InsertedBound(q[1..], q[0], fired[|fired| - 1].what.when); }
  }

  // Firing the head extends the history in order.
  lemma FireHistory(q: Queue, now: int, fired: seq<Firing>)
    requires QueueOk(q) && q != [] && q[0].key <= now && HistoryOk(fired, q, now)
    ensures HistoryOk(fired + [Firing(q[0].item, now)], q[1..], now)
  {
    TailOk(q);
  }

  // ------------------------------------------------------------- what a poll does

  // The clock after a poll: advanced to the head, if that was asked for.
  function AfterPoll(q: Queue, now: int, advance: bool): int {
    if q != [] && advance && q[0].key > now then q[0].key else now
  }

  predicate Fires(q: Queue, now: int, mode: Mode, advance: bool) {
    q != [] && (advance || q[0].key <= now) && !(mode == IdleMode && SoleTimer(q))
  }

  // The head put back behind the entries with the same time.
  function Rotated(q: Queue): Queue {
    if q == [] then [] else Inserted(q[1..], q[0])
  }

  lemma RotatedDue(q: Queue, now: int)
    requires QueueOk(q)
    ensures NothingDue(q, now) ==> NothingDue(Rotated(q), now)
    ensures SoleTimer(q) ==> Rotated(q) == q
  {
    if q != [] && NothingDue(q, now) {
      forall i | 0 <= i < |Rotated(q)| ensures now < Rotated(q)[i].item.when {
        InsertedAt(q[1..], q[0], i);
      }
    }
  }

  // A poll without advancing the clock: if it fires, one fewer is due; if not,
  // nothing is due, or an idle machine has only its timer left.
  lemma PollProgress(q: Queue, now: int, mode: Mode, rs: seq<Request>)
    requires QueueOk(q)
    ensures Fires(q, now, mode, false) ==> Due(ScheduledAll(q[1..], now, rs), now) == Due(q, now) - 1
    ensures !Fires(q, now, mode, false) ==>
              NothingDue(Rotated(q), now) || (mode == IdleMode && SoleTimer(Rotated(q)))
  {
    if Fires(q, now, mode, false) {
      TailDue(q, now);
      ScheduledAllDue(q[1..], now, rs);
    } else {
      RotatedDue(q, now);
      if q != [] && now < q[0].key { DueZero(q, now); }
    }
  }

  // ----------------------------------------------------- what becomes of an interrupt

  type Handlers = (nat, Pending) -> Response

  // How often an interrupt occurs.
  function Times(ps: seq<Pending>, p: Pending): nat {
    if ps == [] then 0 else AsNat(ps[0] == p) + Times(ps[1..], p)
  }

  // The interrupts in a queue, and among firings.
  function Items(q: Queue): seq<Pending> { seq(|q|, i requires 0 <= i < |q| => q[i].item) }

  function FiredItems(fs: seq<Firing>): seq<Pending> { seq(|fs|, i requires 0 <= i < |fs| => fs[i].what) }

  // The interrupts that these requests, made now, ask for.
  function AskedFor(now: int, rs: seq<Request>): seq<Pending> {
    if rs == [] then [] else [AskedAt(now, rs[0])] + AskedFor(now, rs[1..])
  }

  // The interrupts that the handlers asked for, from firing n on.
  function AskedByHandlers(handlers: Handlers, fired: seq<Firing>, n: nat): seq<Pending> {
    if |fired| <= n then []
    else
      var k := |fired| - 1;
      AskedByHandlers(handlers, fired[..k], n) + AskedFor(fired[k].at, handlers(k, fired[k].what).requests)
  }

  // Whether a handler asked for a context switch, from firing n on.
  predicate WantsYield(handlers: Handlers, fired: seq<Firing>, n: nat) {
    if |fired| <= n then false
    else WantsYield(handlers, fired[..|fired| - 1], n) || handlers(|fired| - 1, fired[|fired| - 1].what).wantsYield
  }

  // Between two moments, an interrupt is pending afterwards or has fired as often as it
  // was pending before or was asked for, by a handler that fired or by `others`.
  ghost predicate Conserved(handlers: Handlers, q: Queue, fired: seq<Firing>, q': Queue, fired': seq<Firing>, others: seq<Pending>) {
    && fired <= fired'
    && forall p :: Balanced(q, FiredItems(fired'[|fired|..]), q', AskedByHandlers(handlers, fired', |fired|), others, p)
  }

  predicate Balanced(q: Queue, fires: seq<Pending>, q': Queue, asked: seq<Pending>, others: seq<Pending>, p: Pending) {
    Times(Items(q'), p) + Times(fires, p) == Times(Items(q), p) + Times(asked, p) + Times(others, p)
  }

  lemma {:induction false} TimesJoin(a: seq<Pending>, b: seq<Pending>, p: Pending)
    ensures Times(a + b, p) == Times(a, p) + Times(b, p)
    decreases |a|
  {
    if a == [] {
      assert a + b == b;
    } else {
      TimesJoin(a[1..], b, p);
      assert (a + b)[1..] == a[1..] + b;
    }
  }

  lemma {:induction false} TimesIn(ps: seq<Pending>, p: Pending)
    ensures Times(ps, p) > 0 <==> p in ps
    decreases |ps|
  {
    if ps != [] {
      TimesIn(ps[1..], p);
      assert ps == [ps[0]] + ps[1..];
    }
  }

  lemma ItemsInserted(q: Queue, x: Keyed<Pending>, p: Pending)
    ensures Times(Items(Inserted(q, x)), p) == Times(Items(q), p) + AsNat(x.item == p)
  {
    var k := Position(q, x.key);
    var a, b := Items(q[..k]), Items(q[k..]);
    assert Items(Inserted(q, x)) == a + ([x.item] + b) && Items(q) == a + b;
    TimesJoin(a, [x.item] + b, p);
    TimesJoin(a, b, p);
    assert ([x.item] + b)[1..] == b;
  }

  // The queue gains one interrupt, and nothing else.
  ghost predicate Gains(q: Queue, q': Queue, x: Pending) {
    forall p :: Times(Items(q'), p) == Times(Items(q), p) + AsNat(p == x)
  }

  // A request adds exactly the interrupt it asks for to the queue.
  lemma ScheduledGains(q: Queue, now: int, r: Request)
    ensures Gains(q, Scheduled(q, now, r), Pending(r.handler, r.arg, now + r.fromNow, r.kind))
  {
    forall p ensures Times(Items(Scheduled(q, now, r)), p) == Times(Items(q), p) + AsNat(p == AskedAt(now, r)) {
      ItemsInserted(q, Keyed(now + r.fromNow, AskedAt(now, r)), p);
    }
  }

  lemma {:induction false} ItemsScheduledAll(q: Queue, now: int, rs: seq<Request>, p: Pending)
    ensures Times(Items(ScheduledAll(q, now, rs)), p) == Times(Items(q), p) + Times(AskedFor(now, rs), p)
    decreases |rs|
  {
    if rs != [] {
      ScheduledGains(q, now, rs[0]);
      ItemsScheduledAll(Scheduled(q, now, rs[0]), now, rs[1..], p);
      assert AskedFor(now, rs)[1..] == AskedFor(now, rs[1..]);
    }
  }

  lemma ItemsTail(q: Queue, p: Pending)
    requires q != []
    ensures Times(Items(q), p) == AsNat(q[0].item == p) + Times(Items(q[1..]), p)
  {
    assert Items(q)[1..] == Items(q[1..]);
  }

  lemma {:induction false} AskedJoin(handlers: Handlers, fired: seq<Firing>, n: nat, m: nat, before: seq<Firing>)
    requires n <= m <= |fired| && before == fired[..m]
    ensures AskedByHandlers(handlers, fired, n) == AskedByHandlers(handlers, before, n) + AskedByHandlers(handlers, fired, m)
    ensures WantsYield(handlers, fired, n) <==> WantsYield(handlers, before, n) || WantsYield(handlers, fired, m)
    decreases |fired|
  {
    if m == |fired| {
      assert before == fired;
    } else {
      var k := |fired| - 1;
      AskedJoin(handlers, fired[..k], n, m, before);
    }
  }

  lemma ConservedOn(handlers: Handlers, q: Queue, f: seq<Firing>, q': Queue, f': seq<Firing>, q'': Queue, f'': seq<Firing>,
                    others: seq<Pending>, more: seq<Pending>)
    requires Conserved(handlers, q, f, q', f', others) && Conserved(handlers, q', f', q'', f'', more)
    ensures Conserved(handlers, q, f, q'', f'', others + more)
    ensures WantsYield(handlers, f'', |f|) <==> WantsYield(handlers, f', |f|) || WantsYield(handlers, f'', |f'|)
  {
    SplitAt(handlers, f, f', f'');
    var a, b := FiredItems(f'[|f|..]), FiredItems(f''[|f'|..]);
    var x, y := AskedByHandlers(handlers, f', |f|), AskedByHandlers(handlers, f'', |f'|);
    forall p ensures Balanced(q, a + b, q'', x + y, others + more, p) {
      BalancesAdd(q, a, q', x, others, b, q'', y, more, p);
    }
  }

  lemma SplitAt(handlers: Handlers, f: seq<Firing>, f': seq<Firing>, f'': seq<Firing>)
    requires f <= f' <= f''
    ensures FiredItems(f''[|f|..]) == FiredItems(f'[|f|..]) + FiredItems(f''[|f'|..])
    ensures AskedByHandlers(handlers, f'', |f|) == AskedByHandlers(handlers, f', |f|) + AskedByHandlers(handlers, f'', |f'|)
    ensures WantsYield(handlers, f'', |f|) <==> WantsYield(handlers, f', |f|) || WantsYield(handlers, f'', |f'|)
  {
    assert FiredItems(f''[|f|..]) == FiredItems(f'[|f|..]) + FiredItems(f''[|f'|..]) by {
      assert f''[|f|..] == f'[|f|..] + f''[|f'|..];
      FiredJoin(f'[|f|..], f''[|f'|..]);
    }
    AskedJoin(handlers, f'', |f|, |f'|, f');
  }

  lemma FiredJoin(a: seq<Firing>, b: seq<Firing>)
    ensures FiredItems(a + b) == FiredItems(a) + FiredItems(b)
  {
  }

  lemma BalancesAdd(q: Queue, a: seq<Pending>, q': Queue, x: seq<Pending>, others: seq<Pending>,
                    b: seq<Pending>, q'': Queue, y: seq<Pending>, more: seq<Pending>, p: Pending)
    requires Balanced(q, a, q', x, others, p) && Balanced(q', b, q'', y, more, p)
    ensures Balanced(q, a + b, q'', x + y, others + more, p)
  {
    TimesJoin(a, b, p);
    TimesJoin(x, y, p);
    TimesJoin(others, more, p);
  }

  // A poll that fires, and one that does not.
  lemma FiringConserves(handlers: Handlers, q: Queue, f: seq<Firing>, now: int)
    requires q != []
    ensures var r := handlers(|f|, q[0].item);
            && Conserved(handlers, q, f, ScheduledAll(q[1..], now, r.requests), f + [Firing(q[0].item, now)], [])
            && (WantsYield(handlers, f + [Firing(q[0].item, now)], |f|) <==> r.wantsYield)
  {
    var x, rs := Firing(q[0].item, now), handlers(|f|, q[0].item).requests;
    var f' := f + [x];
    assert f'[..|f|] == f && AskedByHandlers(handlers, f', |f|) == AskedFor(now, rs);
    assert FiredItems(f'[|f|..]) == [x.what];
    forall p ensures Balanced(q, [x.what], ScheduledAll(q[1..], now, rs), AskedFor(now, rs), [], p) {
      FiringBalances(q, now, rs, p);
    }
  }

  lemma FiringBalances(q: Queue, now: int, rs: seq<Request>, p: Pending)
    requires q != []
    ensures Balanced(q, [q[0].item], ScheduledAll(q[1..], now, rs), AskedFor(now, rs), [], p)
  {
    ItemsScheduledAll(q[1..], now, rs, p);
    ItemsTail(q, p);
  }

  lemma RotatingConserves(handlers: Handlers, q: Queue, f: seq<Firing>)
    ensures Conserved(handlers, q, f, q, f, []) && Conserved(handlers, q, f, Rotated(q), f, []) && !WantsYield(handlers, f, |f|)
  {
    assert FiredItems(f[|f|..]) == [];
    forall p ensures Times(Items(Rotated(q)), p) == Times(Items(q), p) {
      if q != [] {
        ItemsInserted(q[1..], q[0], p);
        ItemsTail(q, p);
      }
    }
  }

  lemma SchedulingConserves(handlers: Handlers, q: Queue, f: seq<Firing>, now: int, r: Request)
    ensures Conserved(handlers, q, f, Scheduled(q, now, r), f, [AskedAt(now, r)])
  {
    assert FiredItems(f[|f|..]) == [];
    ScheduledGains(q, now, r);
    forall p ensures Balanced(q, [], Scheduled(q, now, r), [], [AskedAt(now, r)], p) {
      assert Times([AskedAt(now, r)], p) == AsNat(AskedAt(now, r) == p);
    }
  }

  // So an interrupt that was pending and is not any more has fired.
  lemma GoneHasFired(handlers: Handlers, q: Queue, f: seq<Firing>, q': Queue, f': seq<Firing>, others: seq<Pending>, p: Pending)
    requires Conserved(handlers, q, f, q', f', others) && forall i :: 0 <= i < |q'| ==> q'[i].item != p
    ensures Times(Items(q), p) <= Times(FiredItems(f'[|f|..]), p)
  {
    assert Balanced(q, FiredItems(f'[|f|..]), q', AskedByHandlers(handlers, f', |f|), others, p);
    TimesIn(Items(q'), p);
  }

  // What was due has fired, but for the sole timer of an idle machine.
  ghost predicate DueFired(q: Queue, fires: seq<Pending>, q': Queue, now: int, idle: bool) {
    forall p: Pending :: p.when <= now && !(idle && SoleTimer(q') && p == q'[0].item) ==> Times(Items(q), p) <= Times(fires, p)
  }

  ghost predicate Settled(q: Queue, now: int, idle: bool) {
    NothingDue(q, now) || (idle && SoleTimer(q))
  }

  // What polling any number of times does to the queue and to the history,
  ghost predicate PolledSome(handlers: Handlers, q: Queue, f: seq<Firing>, q': Queue, f': seq<Firing>, now: int) {
    Conserved(handlers, q, f, q', f', []) && forall k :: |f| <= k < |f'| ==> f'[k].at == now
  }

  // and until nothing is due.
  ghost predicate PolledAll(handlers: Handlers, q: Queue, f: seq<Firing>, q': Queue, f': seq<Firing>, now: int, idle: bool) {
    && PolledSome(handlers, q, f, q', f', now)
    && Settled(q', now, idle) && DueFired(q, FiredItems(f'[|f|..]), q', now, idle)
  }

  // The same, quantified over a dummy, so that the methods that only pass it on do not
  // unfold it; InsidePolled does.
  ghost predicate Polled(handlers: Handlers, q: Queue, f: seq<Firing>, q': Queue, f': seq<Firing>, now: int, idle: bool) {
    forall look {:trigger LookAlong(look)} :: LookAlong(look) ==> PolledAll(handlers, q, f, q', f', now, idle)
  }

  lemma InsidePolled(handlers: Handlers, q: Queue, f: seq<Firing>, q': Queue, f': seq<Firing>, now: int, idle: bool)
    requires Polled(handlers, q, f, q', f', now, idle)
    ensures PolledAll(handlers, q, f, q', f', now, idle)
  {
    assert LookAlong(true);
  }

  lemma SettledFired(handlers: Handlers, q: Queue, f: seq<Firing>, q': Queue, f': seq<Firing>, now: int, idle: bool)
    requires Conserved(handlers, q, f, q', f', []) && Settled(q', now, idle)
    ensures DueFired(q, FiredItems(f'[|f|..]), q', now, idle)
  {
    forall p: Pending | p.when <= now && !(idle && SoleTimer(q') && p == q'[0].item)
      ensures Times(Items(q), p) <= Times(FiredItems(f'[|f|..]), p)
    {
      GoneHasFired(handlers, q, f, q', f', [], p);
    }
  }

  // What one poll does to them.
  ghost predicate PolledOnce(handlers: Handlers, q: Queue, f: seq<Firing>, q': Queue, f': seq<Firing>, now: int, fires: bool) {
    if fires then q != [] && f' == f + [Firing(q[0].item, now)] && q' == ScheduledAll(q[1..], now, handlers(|f|, q[0].item).requests)
    else f' == f && q' == Rotated(q)
  }

  lemma PollConserves(handlers: Handlers, q: Queue, f: seq<Firing>, q': Queue, f': seq<Firing>, now: int, fires: bool)
    requires PolledOnce(handlers, q, f, q', f', now, fires)
    ensures Conserved(handlers, q, f, q', f', [])
    ensures WantsYield(handlers, f', |f|) <==> fires && handlers(|f|, q[0].item).wantsYield
  {
    if fires { FiringConserves(handlers, q, f, now); } else { RotatingConserves(handlers, q, f); }
  }

  lemma PolledFurther(handlers: Handlers, q0: Queue, f0: seq<Firing>, q: Queue, f: seq<Firing>, q': Queue, f': seq<Firing>, now: int, fires: bool)
    requires PolledSome(handlers, q0, f0, q, f, now) && PolledOnce(handlers, q, f, q', f', now, fires)
    ensures PolledSome(handlers, q0, f0, q', f', now)
    ensures WantsYield(handlers, f', |f0|) <==> WantsYield(handlers, f, |f0|) || (fires && handlers(|f|, q[0].item).wantsYield)
  {
    PollConserves(handlers, q, f, q', f', now, fires);
    ConservedOn(handlers, q0, f0, q, f, q', f', [], []);
    var none: seq<Pending> := [];
    assert none + none == none;
  }

  lemma PolledAfter(handlers: Handlers, q0: Queue, f0: seq<Firing>, q: Queue, f: seq<Firing>, q': Queue, f': seq<Firing>, now: int, idle: bool)
    requires PolledOnce(handlers, q0, f0, q, f, now, true) && Polled(handlers, q, f, q', f', now, idle)
    ensures Polled(handlers, q0, f0, q', f', now, idle)
  {
    InsidePolled(handlers, q, f, q', f', now, idle);
    PollConserves(handlers, q0, f0, q, f, now, true);
    ConservedOn(handlers, q0, f0, q, f, q', f', [], []);
    var none: seq<Pending> := [];
    assert none + none == none;
    SettledFired(handlers, q0, f0, q', f', now, idle);
  }

  // Nothing is due, except that a timer may be: an idle machine leaves its last
  // interrupt alone if it is one.
  ghost predicate OnlyTimersDue(q: Queue, now: int) {
    forall i :: 0 <= i < |q| ==> now < q[i].item.when || q[i].item.kind == TimerInt
  }

  // What was pending and is due, timers apart, has fired.
  ghost predicate OthersFired(q: Queue, fires: seq<Pending>, now: int) {
    forall p: Pending :: p.when <= now && p.kind != TimerInt ==> Times(Items(q), p) <= Times(fires, p)
  }

  lemma OthersHaveFired(handlers: Handlers, q: Queue, f: seq<Firing>, q': Queue, f': seq<Firing>, others: seq<Pending>, now: int)
    requires Conserved(handlers, q, f, q', f', others) && OnlyTimersDue(q', now)
    ensures OthersFired(q, FiredItems(f'[|f|..]), now)
  {
    forall p: Pending | p.when <= now && p.kind != TimerInt ensures Times(Items(q), p) <= Times(FiredItems(f'[|f|..]), p) {
      GoneHasFired(handlers, q, f, q', f', others, p);
    }
  }

  lemma SchedulingLater(q: Queue, now: int, r: Request)
    ensures OnlyTimersDue(q, now) ==> OnlyTimersDue(Scheduled(q, now, r), now)
  {
    var x := Keyed(now + r.fromNow, AskedAt(now, r));
    if OnlyTimersDue(q, now) {
      forall i | 0 <= i < |Inserted(q, x)| ensures now < Inserted(q, x)[i].item.when || Inserted(q, x)[i].item.kind == TimerInt {
        InsertedAt(q, x, i);
      }
    }
  }

  // The requests among the calls of a run, and the interrupts they asked for: each at
  // some moment of the run.
  function Requests(calls: seq<Call>): seq<Request> {
    if calls == [] then []
    else
      var last := calls[|calls| - 1];
      Requests(calls[..|calls| - 1]) + if last.CallSchedule? then [last.request] else []
  }

  ghost predicate AskedByCalls(calls: seq<Call>, asked: seq<Pending>, from: int, to: int) {
    && |asked| == |Requests(calls)|
    && forall i :: 0 <= i < |asked| ==> AskedWithin(asked[i], Requests(calls)[i], from, to)
  }

  predicate AskedWithin(p: Pending, r: Request, from: int, to: int) {
    p.handler == r.handler && p.arg == r.arg && p.kind == r.kind && from + r.fromNow <= p.when <= to + r.fromNow
  }

  lemma AskedMore(calls: seq<Call>, k: nat, asked: seq<Pending>, from: int, now: int, to: int)
    requires k < |calls| && AskedByCalls(calls[..k], asked, from, now) && from <= now <= to
    ensures AskedByCalls(calls[..k + 1], asked + Interrupt.Asks(calls[k], now), from, to)
  {
    assert calls[..k + 1][..k] == calls[..k];
    var rs, more := Requests(calls[..k]), asked + Interrupt.Asks(calls[k], now);
    forall i | 0 <= i < |more| ensures AskedWithin(more[i], Requests(calls[..k + 1])[i], from, to) {
      if i < |asked| { assert AskedWithin(asked[i], rs[i], from, now); }
    }
  }

  // The queue is held as the sequence that the linked list represents; taking
  // its head and inserting by key are the list's SortedRemove and SortedInsert.
  class Interrupt {
    var level: Level
    var status: Mode
    var inHandler: bool
    var yieldOnReturn: bool
    var pending: Queue
    var totalTicks: int
    var idleTicks: int
    var systemTicks: int
    var userTicks: int
    var fired: seq<Firing>

    // The handlers: what the n-th interrupt to fire makes its handler do.
    const handlers: Handlers

    ghost predicate Valid()
      reads this
    {
      && QueueOk(pending)
      && totalTicks == idleTicks + systemTicks + userTicks
      && HistoryOk(fired, pending, totalTicks)
    }

    // Time has not gone back.
    twostate predicate Onward()
      reads this
    {
      && old(totalTicks) <= totalTicks && old(idleTicks) <= idleTicks
      && old(systemTicks) <= systemTicks && old(userTicks) <= userTicks
      && |old(fired)| <= |fired|
    }

    constructor (handlerTable: Handlers)
      ensures Valid() && pending == [] && fired == [] && totalTicks == 0
      ensures level == IntOff && status == SystemMode && !inHandler && !yieldOnReturn
    {
      level, status, inHandler, yieldOnReturn := IntOff, SystemMode, false, false;
      pending := [];
      totalTicks, idleTicks, systemTicks, userTicks := 0, 0, 0, 0;
      fired := [];
      handlers := handlerTable;
    }

    // ASSERT(fromNow > 0) stops the machine; otherwise the interrupt is queued.
    method Schedule(handler: int, arg: int, fromNow: int, kind: Kind) returns (aborted: bool)
      requires Valid()
      modifies this`pending
      ensures Valid()
      ensures aborted <==> fromNow <= 0
      ensures aborted ==> pending == old(pending)
      ensures fromNow > 0 ==> pending == Scheduled(old(pending), totalTicks, Request(handler, arg, fromNow, kind))
    {
      var when := totalTicks + fromNow;
      var toOccur := Pending(handler, arg, when, kind);
      if fromNow <= 0 { return true; }
      ghost var r := Request(handler, arg, fromNow, kind);
      ScheduledOk(pending, totalTicks, r);
      ScheduledHistory(pending, totalTicks, r, fired);
      pending := Inserted(pending, Keyed(when, toOccur));
      return false;
    }

    method YieldOnReturn()
      requires inHandler
      modifies this`yieldOnReturn
      ensures yieldOnReturn
    {
      yieldOnReturn := true;
    }

    // What a handler does to the queue.
    method RunHandler(requests: seq<Request>)
      requires Valid()
      modifies this`pending
      ensures Valid() && pending == ScheduledAll(old(pending), totalTicks, requests)
      decreases |requests|
    {
      if requests != [] {
        var r := requests[0];
        var aborted := Schedule(r.handler, r.arg, r.fromNow, r.kind);
        RunHandler(requests[1..]);
      }
    }

    // SortedRemove followed by SortedInsert of the same interrupt: put the head back.
    method PutBack()
      requires Valid() && pending != []
      modifies this`pending
      ensures Valid() && pending == Rotated(old(pending))
    {
      RotateKeeps(pending, totalTicks, fired);
      var toOccur := pending[0];
      pending := pending[1..];
      pending := Inserted(pending, toOccur);
    }

    // SortedRemove followed by the call of the handler: fire the head.
    method Fire(response: Response)
      requires Valid() && pending != [] && pending[0].key <= totalTicks
      modifies this`inHandler, this`status, this`yieldOnReturn, this`fired, this`pending
      ensures Valid()
      ensures !inHandler && status == old(status) && fired == old(fired) + [Firing(old(pending)[0].item, totalTicks)]
      ensures pending == ScheduledAll(old(pending)[1..], totalTicks, response.requests)
      ensures yieldOnReturn == (old(yieldOnReturn) || response.wantsYield)
    {
      FireHistory(pending, totalTicks, fired);
      TailOk(pending);
      var oldStatus, toOccur := status, pending[0];
      pending := pending[1..];
      inHandler := true;
      status := SystemMode;
      fired := fired + [Firing(toOccur.item, totalTicks)];
      RunHandler(response.requests);
      if response.wantsYield { YieldOnReturn(); }
      status := oldStatus;
      inHandler := false;
    }

    // Skip the clock to the head, as idle time.
    method SkipToHead()
      requires Valid() && pending != [] && pending[0].key > totalTicks
      modifies this`idleTicks, this`totalTicks
      ensures Valid() && totalTicks == pending[0].key
    {
      idleTicks := idleTicks + (pending[0].key - totalTicks);
      totalTicks := pending[0].key;
    }

    // Poll the queue once.  Nothing fires when the queue is empty, when the head
    // lies in the future and the clock is not to be advanced, or when an idle
    // machine has nothing pending but the timer; otherwise the head fires.
    method CheckIfDue(advanceClock: bool) returns (fires: bool)
      requires Valid() && level == IntOff
      modifies this
      ensures Valid() && Onward()
      ensures level == old(level) && status == old(status)
      ensures userTicks == old(userTicks) && systemTicks == old(systemTicks)
      ensures fires <==> Fires(old(pending), old(totalTicks), old(status), advanceClock)
      ensures totalTicks == AfterPoll(old(pending), old(totalTicks), advanceClock)
      ensures !fires ==> fired == old(fired) && yieldOnReturn == old(yieldOnReturn) && pending == Rotated(old(pending))
      ensures fires ==> fired == old(fired) + [Firing(old(pending)[0].item, totalTicks)]
      ensures fires ==> pending == ScheduledAll(old(pending)[1..], totalTicks, handlers(|old(fired)|, old(pending)[0].item).requests)
      ensures fires ==> yieldOnReturn == (old(yieldOnReturn) || handlers(|old(fired)|, old(pending)[0].item).wantsYield)
      ensures inHandler == (!fires && old(inHandler))
    {
      if pending == [] { return false; }
      var when, toOccur := pending[0].key, pending[0].item;
      if advanceClock && when > totalTicks {
        SkipToHead();
      } else if when > totalTicks {
        PutBack();
        return false;
      }
      if status == IdleMode && toOccur.kind == TimerInt && |pending| == 1 {
        PutBack();
        return false;
      }
      Fire(handlers(|fired|, toOccur));
      return true;
    }

    // The polling loop.  It ends because every firing leaves one interrupt fewer
    // due, whatever the handlers schedule.  What was due has then fired, and the rest is
    // still pending, together with what the handlers asked for.
    method FireAllDue()
      requires Valid() && level == IntOff
      modifies this
      ensures Valid() && Onward() && level == IntOff && status == old(status)
      ensures totalTicks == old(totalTicks) && idleTicks == old(idleTicks)
      ensures userTicks == old(userTicks) && systemTicks == old(systemTicks)
      ensures Polled(handlers, old(pending), old(fired), pending, fired, totalTicks, status == IdleMode)
      ensures yieldOnReturn == (old(yieldOnReturn) || WantsYield(handlers, fired, |old(fired)|))
      ensures inHandler ==> old(inHandler)
    {
      ghost var q0, f0 := pending, fired;
      RotatingConserves(handlers, q0, f0);
      var more := true;
      while more
        invariant Valid() && Onward() && level == IntOff && status == old(status)
        invariant totalTicks == old(totalTicks) && idleTicks == old(idleTicks)
        invariant userTicks == old(userTicks) && systemTicks == old(systemTicks)
        invariant !more ==> Settled(pending, totalTicks, status == IdleMode)
        invariant PolledSome(handlers, q0, f0, pending, fired, totalTicks)
        invariant yieldOnReturn == (old(yieldOnReturn) || WantsYield(handlers, fired, |f0|))
        invariant inHandler ==> old(inHandler)
        decreases Due(pending, totalTicks), more
      {
        ghost var q, f := pending, fired;
        more := CheckIfDue(false);
        PollProgress(q, totalTicks, status, if q == [] then [] else handlers(|f|, q[0].item).requests);
        PolledFurther(handlers, q0, f0, q, f, pending, fired, totalTicks, more);
      }
      SettledFired(handlers, q0, f0, pending, fired, totalTicks, status == IdleMode);
    }

    // Advance the clock by one system or user tick and fire what is due.  The
    // caller switches threads when the result says so: a handler asked for it.
    method OneTick() returns (mustYield: bool)
      requires Valid()
      modifies this
      ensures Valid() && Onward() && level == IntOn && status == old(status) && !yieldOnReturn
      ensures idleTicks == old(idleTicks)
      ensures systemTicks == old(systemTicks) + if status == SystemMode then SystemTick else 0
      ensures userTicks == old(userTicks) + if status == SystemMode then 0 else UserTick
      ensures Polled(handlers, old(pending), old(fired), pending, fired, totalTicks, status == IdleMode)
      ensures mustYield <==> old(yieldOnReturn) || WantsYield(handlers, fired, |old(fired)|)
      ensures inHandler ==> old(inHandler)
    {
      if status == SystemMode {
        totalTicks := totalTicks + SystemTick;
        systemTicks := systemTicks + SystemTick;
      } else {
        totalTicks := totalTicks + UserTick;
        userTicks := userTicks + UserTick;
      }
      level := IntOff;
      FireAllDue();
      level := IntOn;
      mustYield := yieldOnReturn;
      yieldOnReturn := false;
    }

    // Change the level; enabling interrupts takes a tick.  None when the ASSERT stops
    // the machine: an interrupt handler must not enable interrupts.
    method SetLevel(now: Level) returns (was: Option<Level>, mustYield: bool)
      requires Valid()
      modifies this
      ensures was == None <==> now == IntOn && old(inHandler)
      ensures was == None ==> unchanged(this)
      ensures Valid() && Onward() && status == old(status) && (was.Some? ==> was.value == old(level) && level == now)
      ensures was == Some(IntOff) && now == IntOn ==>
                && totalTicks == old(totalTicks) + (if status == SystemMode then SystemTick else UserTick)
                && Polled(handlers, old(pending), old(fired), pending, fired, totalTicks, status == IdleMode)
                && (mustYield <==> old(yieldOnReturn) || WantsYield(handlers, fired, |old(fired)|))
      ensures !(was == Some(IntOff) && now == IntOn) ==>
                totalTicks == old(totalTicks) && pending == old(pending) && fired == old(fired) && !mustYield
      ensures idleTicks == old(idleTicks) && (inHandler ==> old(inHandler))
    {
      mustYield := false;
      if !(now == IntOff || !inHandler) { return None, false; }
      was := Some(level);
      level := now;
      if now == IntOn && was == Some(IntOff) { mustYield := OneTick(); }
    }

    // Nothing is ready: skip to the next interrupt and fire all that is due, or
    // stop the machine when nothing but the timer is left.
    method Idle() returns (halted: bool)
      requires Valid() && level == IntOff
      modifies this
      ensures Valid() && Onward() && level == IntOff
      ensures userTicks == old(userTicks) && systemTicks == old(systemTicks)
      ensures totalTicks == AfterPoll(old(pending), old(totalTicks), true)
      ensures halted <==> old(pending) == [] || SoleTimer(old(pending))
      ensures halted ==> fired == old(fired) && pending == old(pending) && status == IdleMode
      ensures !halted ==> status == SystemMode && !yieldOnReturn && |fired| > |old(fired)|
      ensures !halted ==> Polled(handlers, old(pending), old(fired), pending, fired, totalTicks, true)
      ensures inHandler ==> old(inHandler)
    {
      ghost var q0, f0 := pending, fired;
      var any := SkipToFirst();
      if any {
        FireTheRest(q0, f0);
        yieldOnReturn := false;
        status := SystemMode;
        return false;
      }
      return true;
    }

    // Skip to the first interrupt and fire it, unless there is none, or only a timer.
    method SkipToFirst() returns (any: bool)
      requires Valid() && level == IntOff
      modifies this
      ensures Valid() && Onward() && level == IntOff && status == IdleMode
      ensures userTicks == old(userTicks) && systemTicks == old(systemTicks)
      ensures totalTicks == AfterPoll(old(pending), old(totalTicks), true)
      ensures any <==> old(pending) != [] && !SoleTimer(old(pending))
      ensures any ==> PolledOnce(handlers, old(pending), old(fired), pending, fired, totalTicks, true)
      ensures !any ==> fired == old(fired) && pending == old(pending)
      ensures inHandler ==> old(inHandler)
    {
      status := IdleMode;
      RotatedDue(pending, totalTicks);
      any := CheckIfDue(true);
    }

    // The rest of what is due, after the first.
    method FireTheRest(ghost q0: Queue, ghost f0: seq<Firing>)
      requires Valid() && level == IntOff && PolledOnce(handlers, q0, f0, pending, fired, totalTicks, true)
      modifies this
      ensures Valid() && Onward() && level == IntOff && status == old(status)
      ensures totalTicks == old(totalTicks) && idleTicks == old(idleTicks)
      ensures userTicks == old(userTicks) && systemTicks == old(systemTicks)
      ensures Polled(handlers, q0, f0, pending, fired, totalTicks, status == IdleMode) && (inHandler ==> old(inHandler))
    {
      ghost var q, f := pending, fired;
      FireAllDue();
      PolledAfter(handlers, q0, f0, q, f, pending, fired, totalTicks, status == IdleMode);
    }

    // What a call asks for by itself.
    static function Asks(call: Call, now: int): seq<Pending> {
      if call.CallSchedule? then [AskedAt(now, call.request)] else []
    }

    method Perform(call: Call) returns (halted: bool)
      requires Valid() && !inHandler
      modifies this
      ensures Valid() && Onward() && !inHandler
      ensures Conserved(handlers, old(pending), old(fired), pending, fired, Asks(call, old(totalTicks)))
      ensures OnlyTimersDue(old(pending), old(totalTicks)) ==> OnlyTimersDue(pending, totalTicks)
      ensures call == CallOneTick ==> Settled(pending, totalTicks, status == IdleMode)
      ensures halted ==> call == CallIdle
    {
      halted := false;
      ghost var q, f := pending, fired;
      RotatingConserves(handlers, q, f);
      match call
      case CallSetLevel(l) =>
        var was, _ := SetLevel(l);
        if was == Some(IntOff) && l == IntOn { InsidePolled(handlers, q, f, pending, fired, totalTicks, status == IdleMode); }
      case CallOneTick =>
        var _ := OneTick();
        InsidePolled(handlers, q, f, pending, fired, totalTicks, status == IdleMode);
      case CallIdle =>
        if level == IntOff {
          halted := Idle();
          if !halted { InsidePolled(handlers, q, f, pending, fired, totalTicks, true); }
        }
      case CallSchedule(r) => ScheduleLater(r);
      case CallSetStatus(m) => status := m;
    }

    method ScheduleLater(r: Request)
      requires Valid()
      modifies this`pending
      ensures Valid() && Conserved(handlers, old(pending), fired, pending, fired, [AskedAt(totalTicks, r)])
      ensures OnlyTimersDue(old(pending), totalTicks) ==> OnlyTimersDue(pending, totalTicks)
    {
      SchedulingConserves(handlers, pending, fired, totalTicks, r);
      SchedulingLater(pending, totalTicks, r);
      var _ := Schedule(r.handler, r.arg, r.fromNow, r.kind);
    }

    // Every run, from any point on: the clock never goes back and is the sum of
    // its three parts; interrupts fire in the order of their scheduled times and never
    // early; none is lost and none comes from nowhere; and at the end nothing but a
    // timer is overdue.
    method Run(calls: seq<Call>) returns (halted: bool, performed: nat, ghost asked: seq<Pending>)
      requires Valid() && !inHandler
      modifies this
      ensures Valid() && Onward()
      ensures totalTicks == idleTicks + systemTicks + userTicks && InOrder(fired)
      ensures performed <= |calls| && (halted || performed == |calls|)
      ensures AskedByCalls(calls[..performed], asked, old(totalTicks), totalTicks)
      ensures Conserved(handlers, old(pending), old(fired), pending, fired, asked)
      ensures OnlyTimersDue(old(pending), old(totalTicks)) ==>
                OnlyTimersDue(pending, totalTicks) && OthersFired(old(pending), FiredItems(fired[|old(fired)|..]), totalTicks)
    {
      ghost var q0, f0 := pending, fired;
      RotatingConserves(handlers, q0, f0);
      halted, performed, asked := false, 0, [];
      while performed < |calls| && !halted
        invariant Valid() && Onward() && !inHandler && performed <= |calls|
        invariant AskedByCalls(calls[..performed], asked, old(totalTicks), totalTicks)
        invariant Conserved(handlers, q0, f0, pending, fired, asked)
        invariant OnlyTimersDue(old(pending), old(totalTicks)) ==> OnlyTimersDue(pending, totalTicks)
        decreases |calls| - performed, !halted
      {
        ghost var q, f, now := pending, fired, totalTicks;
        halted := Perform(calls[performed]);
        ConservedOn(handlers, q0, f0, q, f, pending, fired, asked, Asks(calls[performed], now));
        AskedMore(calls, performed, asked, old(totalTicks), now, totalTicks);
        asked := asked + Asks(calls[performed], now);
        performed := performed + 1;
      }
      if OnlyTimersDue(pending, totalTicks) { OthersHaveFired(handlers, q0, f0, pending, fired, asked, totalTicks); }
    }
  }
}

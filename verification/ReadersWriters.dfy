/**
  The readers/writers protocol of the synchronous disk, on top of the kernel
  machine.  Semaphore 0 is that of `readerLock`, semaphore 1 + i is the one of
  sector i.  A thread reads or writes one file at a time, between the calls
  made by OpenFile::Read and OpenFile::Write; while it is inside it may do
  anything else, such as wait for the disk.
 */
module ReadersWriters {
  import opened Common
  import opened Storage
  import K = Kernel
  import S = KernelSafety

  type Tid = K.Tid

  // `entering` tells SynchReaderStart from SynchReaderExit.
  datatype Pc =
    | Outside
    | RLocking(i: nat, entering: bool)   // inside P of readerLock->Acquire
    | RLocked(i: nat, entering: bool)    // P done, heldthread not assigned yet
    | Counting(i: nat, entering: bool)   // before readerNum[i]++ or readerNum[i]--
    | Entering(i: nat)                   // counted in, before the test for 1
    | FirstP(i: nat)                     // first reader, inside P of the sector
    | Exiting(i: nat)                    // counted out, before the test for 0
    | Leaving(i: nat, entering: bool)    // before readerLock->Release
    | Clearing(i: nat, entering: bool)   // inside Release, seen to be the holder
    | Posting(i: nat, entering: bool)    // heldthread is NULL again, V not done yet
    | Reading(i: nat)
    | WLocking(i: nat)                   // inside P of SynchWriterStart
    | Writing(i: nat)

  datatype State = State(k: K.State, held: Option<Tid>, pc: seq<Pc>, readerNum: seq<int>)

  datatype Label =
    | StartRead(i: nat)
    | ExitRead
    | StartWrite(i: nat)
    | ExitWrite
    | Recheck
    | Assign
    | Count
    | TestFirst
    | TestLast
    | TestHolder
    | Clear
    | Post
    | Preempt
    | Other(kl: K.Label)

  predicate Shape(s: State) {
    && K.WellShaped(s.k) && |s.pc| == |s.k.point| && NumSectors < |s.k.sems| && |s.readerNum| == NumSectors
    && forall t :: 0 <= t < |s.pc| ==> s.pc[t] == Outside || s.pc[t].i < NumSectors
  }

  function Me(s: State): Tid { s.k.current }

  // Not executing one of the four operations.
  predicate Elsewhere(p: Pc) {
    p.Outside? || p.Reading? || p.Writing?
  }

  // The point in the code from which a statement is executed.
  predicate From(p: Pc, a: Label) {
    match a
    case StartRead(i) => p.Outside? && i < NumSectors
    case ExitRead => p.Reading?
    case StartWrite(i) => p.Outside? && i < NumSectors
    case ExitWrite => p.Writing?
    case Recheck => p.RLocking? || p.FirstP? || p.WLocking?
    case Assign => p.RLocked?
    case Count => p.Counting?
    case TestFirst => p.Entering?
    case TestLast => p.Exiting?
    case TestHolder => p.Leaving?
    case Clear => p.Clearing?
    case Post => p.Posting?
    case Preempt => true
    case Other(kl) => Elsewhere(p) || kl.DoV?
  }

  // The semaphore inside whose P a thread is.
  function SemOf(p: Pc): Option<K.SemId> {
    match p
    case RLocking(_, _) => Some(0)
    case FirstP(i) => Some(1 + i)
    case WLocking(i) => Some(1 + i)
    case _ => None
  }

  predicate Enabled(s: State, a: Label) {
    && Shape(s)
    && (From(s.pc[Me(s)], a) || a == Other(K.DoPoll))
    && match a
       case Other(kl) => K.Enabled(s.k, kl) && S.Unrelated(kl, 1 + NumSectors, 0)
       case Recheck => SemOf(s.pc[Me(s)]).Some? && K.Enabled(s.k, K.DoP(SemOf(s.pc[Me(s)]).value))
       case _ => K.Free(s.k)
  }

  // A turn of P on semaphore j: on to `done`, or into (or still in) `blocked`.
  function TurnP(s: State, j: K.SemId, done: Pc, blocked: Pc): State
    requires Shape(s) && j < |s.k.sems|
  {
    s.(k := K.SemP(s.k, j), pc := s.pc[Me(s) := if s.k.sems[j].value > 0 then done else blocked])
  }

  function Goto(s: State, p: Pc): State
    requires Me(s) < |s.pc|
  {
    s.(pc := s.pc[Me(s) := p])
  }

  // Where Release returns to.
  function AfterRelease(i: nat, entering: bool): Pc {
    if entering then Reading(i) else Outside
  }

  function Apply(s: State, a: Label): State
    requires Enabled(s, a)
  {
    var me := Me(s);
    var p := s.pc[me];
    match a
    case StartRead(i) => TurnP(s, 0, RLocked(i, true), RLocking(i, true))
    case ExitRead => TurnP(s, 0, RLocked(p.i, false), RLocking(p.i, false))
    case StartWrite(i) => TurnP(s, 1 + i, Writing(i), WLocking(i))
    case ExitWrite => Goto(s, Outside).(k := K.SemV(s.k, 1 + p.i))
    case Recheck =>
      if p.RLocking? then TurnP(s, 0, RLocked(p.i, p.entering), p)
      else TurnP(s, 1 + p.i, if p.FirstP? then Leaving(p.i, true) else Writing(p.i), p)
    case Assign => Goto(s, Counting(p.i, p.entering)).(held := Some(me))
    case Count =>
      if p.entering then Goto(s, Entering(p.i)).(readerNum := s.readerNum[p.i := s.readerNum[p.i] + 1])
      else Goto(s, Exiting(p.i)).(readerNum := s.readerNum[p.i := s.readerNum[p.i] - 1])
    case TestFirst =>
      if s.readerNum[p.i] == 1 then TurnP(s, 1 + p.i, Leaving(p.i, true), FirstP(p.i))
      else Goto(s, Leaving(p.i, true))
    case TestLast =>
      if s.readerNum[p.i] == 0 then Goto(s, Leaving(p.i, false)).(k := K.SemV(s.k, 1 + p.i))
      else Goto(s, Leaving(p.i, false))
    case TestHolder =>
      if s.held == Some(me) then Goto(s, Clearing(p.i, p.entering)) else Goto(s, AfterRelease(p.i, p.entering))
    case Clear => Goto(s, Posting(p.i, p.entering)).(held := None)
    case Post => Goto(s, AfterRelease(p.i, p.entering)).(k := K.SemV(s.k, 0))
    case Preempt => s.(k := K.Yield(s.k))
    case Other(kl) => s.(k := K.Apply(s.k, kl), pc := if kl.DoCreate? then s.pc + [Outside] else s.pc)
  }

  // ---------------------------------------------------------------- invariant

  // Between the decrement and the increment of readerLock's semaphore.
  predicate HoldsLock(p: Pc) {
    || p.RLocked? || p.Counting? || p.Entering? || p.FirstP? || p.Exiting?
    || p.Leaving? || p.Clearing? || p.Posting?
  }

  // Counted in readerNum[i].
  predicate CountedAt(p: Pc, i: nat) {
    match p
    case RLocking(j, entering) => j == i && !entering
    case RLocked(j, entering) => j == i && !entering
    case Counting(j, entering) => j == i && !entering
    case Entering(j) => j == i
    case FirstP(j) => j == i
    case Leaving(j, entering) => j == i && entering
    case Clearing(j, entering) => j == i && entering
    case Posting(j, entering) => j == i && entering
    case Reading(j) => j == i
    case _ => false
  }

  // A reader for whom the sector's unit has been taken and not given back.
  predicate CoveredAt(p: Pc, i: nat) {
    p == Exiting(i) || (CountedAt(p, i) && p != Entering(i) && p != FirstP(i))
  }

  function Holder(): Pc -> bool { (p: Pc) => HoldsLock(p) }
  function Counted(i: nat): Pc -> bool { (p: Pc) => CountedAt(p, i) }
  function Covered(i: nat): Pc -> bool { (p: Pc) => CoveredAt(p, i) }
  function Writer(i: nat): Pc -> bool { (p: Pc) => p == Writing(i) }

  predicate Sized(s: State) {
    |s.pc| == |s.k.point| && NumSectors < |s.k.sems| && |s.readerNum| == NumSectors
  }

  // The value of sector i's semaphore.
  function Units(s: State, i: nat): nat
    requires i < NumSectors < |s.k.sems|
  {
    s.k.sems[1 + i].value
  }

  // The semaphore of sector i, its writers inside and its readers inside, these
  // counted together as one, add up to one.
  ghost predicate TokenOk(s: State, i: nat)
    requires Sized(s) && i < NumSectors
  {
    Units(s, i) + |Where(s.pc, Writer(i))| + (if Where(s.pc, Covered(i)) != {} then 1 else 0) == 1
  }

  ghost predicate CountOk(s: State, i: nat)
    requires Sized(s) && i < NumSectors
  {
    s.readerNum[i] == |Where(s.pc, Counted(i))|
  }

  ghost predicate LockOk(s: State)
    requires Sized(s)
  {
    && s.k.sems[0].value + |Where(s.pc, Holder())| == 1
    && (s.held.Some? ==> s.held.value in Where(s.pc, Holder()))
    && (forall t :: 0 <= t < |s.pc| && HoldsLock(s.pc[t]) ==> (s.held == Some(t) <==> !s.pc[t].RLocked? && !s.pc[t].Posting?))
    && (forall t :: 0 <= t < |s.pc| && s.pc[t].FirstP? && s.pc[t].i < NumSectors ==> s.readerNum[s.pc[t].i] == 1)
  }

  predicate PointFits(p: Pc, at: K.Point) {
    && (S.Related(at, 1 + NumSectors, 0) ==> SemOf(p) == Some(at.sem))
    && (SemOf(p).Some? ==> at in {K.Checking(SemOf(p).value), K.AsleepOn(SemOf(p).value)})
    && (!Elsewhere(p) && SemOf(p) == None ==> at == K.InCode)
    && (!p.Outside? ==> p.i < NumSectors)
  }

  ghost predicate Fits(s: State) {
    && Sized(s)
    && forall t :: 0 <= t < |s.pc| ==> PointFits(s.pc[t], s.k.point[t])
  }

  ghost predicate Good(s: State) {
    && Fits(s)
    && LockOk(s)
    && (forall i :: 0 <= i < NumSectors ==> CountOk(s, i))
    && (forall i :: 0 <= i < NumSectors ==> TokenOk(s, i))
  }

  ghost predicate Inv(s: State) {
    K.Inv(s.k) && Good(s)
  }

  // -------------------------------------------------- one thread moves to a new pc

  // The running thread moves and the kernel touches no other thread's pc; a V
  // may have woken a thread, which stays inside the same P.
  ghost predicate Moves(s: State, s': State) {
    && Sized(s) && Sized(s') && Me(s) < |s.pc| == |s'.pc|
    && s'.pc == s.pc[Me(s) := s'.pc[Me(s)]]
    && forall t :: 0 <= t < |s.pc| && t != Me(s) ==>
         s'.k.point[t] == s.k.point[t] || (s.k.point[t].AsleepOn? && s'.k.point[t] == K.Checking(s.k.point[t].sem))
  }

  lemma FitsMove(s: State, s': State)
    requires Fits(s) && Moves(s, s') && PointFits(s'.pc[Me(s)], s'.k.point[Me(s)])
    ensures Fits(s')
  {
    forall t | 0 <= t < |s.pc| ensures PointFits(s'.pc[t], s'.k.point[t]) {
      assert PointFits(s.pc[t], s.k.point[t]);
    }
  }

  lemma CountMove(s: State, s': State)
    requires Moves(s, s') && forall i :: 0 <= i < NumSectors ==> CountOk(s, i)
    requires forall i :: 0 <= i < NumSectors ==>
      s'.readerNum[i] == s.readerNum[i] + AsNat(CountedAt(s'.pc[Me(s)], i)) - AsNat(CountedAt(s.pc[Me(s)], i))
    ensures forall i :: 0 <= i < NumSectors ==> CountOk(s', i)
  {
    forall i | 0 <= i < NumSectors ensures CountOk(s', i) {
      assert CountOk(s, i);
      WhereUpdate(s.pc, Me(s), s'.pc[Me(s)], Counted(i));
    }
  }

  lemma CoveredSame(s: State, s': State, i: nat)
    requires Moves(s, s') && CoveredAt(s'.pc[Me(s)], i) == CoveredAt(s.pc[Me(s)], i)
    ensures Where(s'.pc, Covered(i)) == Where(s.pc, Covered(i))
  {
  }

  // A step that changes which writers are inside, or nothing of the kind.
  lemma TokenMove(s: State, s': State)
    requires Moves(s, s') && forall i :: 0 <= i < NumSectors ==> TokenOk(s, i)
    requires forall i :: 0 <= i < NumSectors ==>
      && CoveredAt(s'.pc[Me(s)], i) == CoveredAt(s.pc[Me(s)], i)
      && Units(s', i) + AsNat(s'.pc[Me(s)] == Writing(i)) == Units(s, i) + AsNat(s.pc[Me(s)] == Writing(i))
    ensures forall i :: 0 <= i < NumSectors ==> TokenOk(s', i)
  {
    forall i | 0 <= i < NumSectors ensures TokenOk(s', i) {
      assert TokenOk(s, i);
      assert CoveredAt(s'.pc[Me(s)], i) == CoveredAt(s.pc[Me(s)], i);
      CoveredSame(s, s', i);
      WhereUpdate(s.pc, Me(s), s'.pc[Me(s)], Writer(i));
    }
  }

  lemma LockMove(s: State, s': State)
    requires Moves(s, s') && LockOk(s)
    requires s'.k.sems[0].value + AsNat(HoldsLock(s'.pc[Me(s)])) == s.k.sems[0].value + AsNat(HoldsLock(s.pc[Me(s)]))
    requires var q := s'.pc[Me(s)];
             if HoldsLock(q) then s'.held == (if q.RLocked? || q.Posting? then None else Some(Me(s)))
             else s'.held == s.held && (HoldsLock(s.pc[Me(s)]) ==> s.held == None)
    requires s'.pc[Me(s)].FirstP? && s'.pc[Me(s)].i < NumSectors ==> s'.readerNum[s'.pc[Me(s)].i] == 1
    requires s'.readerNum == s.readerNum || HoldsLock(s.pc[Me(s)])
    ensures LockOk(s')
  {
    WhereUpdate(s.pc, Me(s), s'.pc[Me(s)], Holder());
    if HoldsLock(s.pc[Me(s)]) || HoldsLock(s'.pc[Me(s)]) {
      forall t | 0 <= t < |s.pc| && t != Me(s) ensures !HoldsLock(s.pc[t]) {
        OthersOut(s, s', t);
      }
    }
  }

  lemma OthersOut(s: State, s': State, t: Tid)
    requires Moves(s, s') && LockOk(s) && t < |s.pc| && t != Me(s)
    requires HoldsLock(s.pc[Me(s)]) || (HoldsLock(s'.pc[Me(s)]) && s.k.sems[0].value == 1)
    ensures !HoldsLock(s.pc[t])
  {
    if HoldsLock(s.pc[t]) {
      assert t in Where(s.pc, Holder());
      assert |Where(s.pc, Holder())| > 0;
      AtMostOne(Where(s.pc, Holder()), t, Me(s));
    }
  }

  // --------------------------------------------------- readers join and leave

  // The thread holding readerLock is the only one between the count and the test.
  lemma CountedIsCovered(s: State, i: nat, u: Tid)
    requires Sized(s) && LockOk(s) && Me(s) < |s.pc| && HoldsLock(s.pc[Me(s)])
    requires u < |s.pc| && u != Me(s) && CountedAt(s.pc[u], i)
    ensures CoveredAt(s.pc[u], i)
  {
    if HoldsLock(s.pc[u]) {
      AtMostOne(Where(s.pc, Holder()), u, Me(s));
    }
  }

  // A second reader is counted: the first one has the unit.
  lemma JoinOthers(s: State, i: nat)
    requires Sized(s) && LockOk(s) && i < NumSectors && CountOk(s, i) && Me(s) < |s.pc|
    requires s.pc[Me(s)] == Entering(i) && s.readerNum[i] != 1
    ensures Where(s.pc, Covered(i)) != {}
  {
    var c := Where(s.pc, Counted(i));
    assert Me(s) in c;
    assert c != {Me(s)};
    var u :| u in c && u != Me(s);
    CountedIsCovered(s, i, u);
    assert u in Where(s.pc, Covered(i));
  }

  lemma LeaveOthers(s: State, i: nat)
    requires Sized(s) && LockOk(s) && i < NumSectors && CountOk(s, i) && Me(s) < |s.pc| && s.pc[Me(s)] == Exiting(i)
    ensures if s.readerNum[i] == 0 then Where(s.pc, Covered(i)) == {Me(s)}
            else exists u :: u in Where(s.pc, Covered(i)) && u != Me(s)
  {
    var c := Where(s.pc, Counted(i));
    if s.readerNum[i] == 0 {
      assert c == {};
      forall u | u in Where(s.pc, Covered(i)) ensures u == Me(s) {
        assert u in c || s.pc[u] == Exiting(i);
        AtMostOne(Where(s.pc, Holder()), u, Me(s));
      }
      assert Me(s) in Where(s.pc, Covered(i));
    } else {
      assert c != {};
      var u :| u in c;
      CountedIsCovered(s, i, u);
      assert u in Where(s.pc, Covered(i));
    }
  }

  // The tokens of the other sectors, and of sector i given its own equation.
  lemma TokenAt(s: State, s': State, i: nat)
    requires Moves(s, s') && i < NumSectors && (forall j :: 0 <= j < NumSectors ==> TokenOk(s, j)) && TokenOk(s', i)
    requires forall j :: 0 <= j < NumSectors && j != i ==> Units(s', j) == Units(s, j)
    requires forall p :: p in {s.pc[Me(s)], s'.pc[Me(s)]} ==> !p.Outside? && p.i == i
    ensures forall j :: 0 <= j < NumSectors ==> TokenOk(s', j)
  {
    forall j | 0 <= j < NumSectors && j != i ensures TokenOk(s', j) {
      assert TokenOk(s, j);
      CoveredSame(s, s', j);
      WhereUpdate(s.pc, Me(s), s'.pc[Me(s)], Writer(j));
    }
  }

  // A reader comes to be covered by the sector's unit: it has just taken it, or
  // other readers had it already.
  lemma TokenJoin(s: State, s': State, i: nat)
    requires Moves(s, s') && i < NumSectors && forall j :: 0 <= j < NumSectors ==> TokenOk(s, j)
    requires s.pc[Me(s)] in {Entering(i), FirstP(i)} && s'.pc[Me(s)] == Leaving(i, true)
    requires forall j :: 0 <= j < NumSectors && j != i ==> Units(s', j) == Units(s, j)
    requires || (Units(s, i) > 0 && Units(s', i) == Units(s, i) - 1)
             || (Where(s.pc, Covered(i)) != {} && Units(s', i) == Units(s, i))
    ensures forall j :: 0 <= j < NumSectors ==> TokenOk(s', j)
  {
    assert TokenOk(s, i);
    assert Me(s) in Where(s'.pc, Covered(i));
    WhereUpdate(s.pc, Me(s), s'.pc[Me(s)], Writer(i));
    TokenAt(s, s', i);
  }

  lemma TokenLeave(s: State, s': State, i: nat)
    requires Moves(s, s') && i < NumSectors && forall j :: 0 <= j < NumSectors ==> TokenOk(s, j)
    requires s.pc[Me(s)] == Exiting(i) && s'.pc[Me(s)] == Leaving(i, false)
    requires forall j :: 0 <= j < NumSectors && j != i ==> Units(s', j) == Units(s, j)
    requires || (Where(s.pc, Covered(i)) == {Me(s)} && Units(s', i) == Units(s, i) + 1)
             || ((exists u :: u in Where(s.pc, Covered(i)) && u != Me(s)) && Units(s', i) == Units(s, i))
    ensures forall j :: 0 <= j < NumSectors ==> TokenOk(s', j)
  {
    assert TokenOk(s, i);
    WhereUpdateSet(s.pc, Me(s), s'.pc[Me(s)], Covered(i));
    WhereUpdate(s.pc, Me(s), s'.pc[Me(s)], Writer(i));
    TokenAt(s, s', i);
  }

  // -------------------------------------------------------- steps keep the invariant

  // The calls of P that take readerLock.
  lemma LockTurnGood(s: State, i: nat, entering: bool, s': State)
    requires Good(s) && Me(s) < |s.pc| && i < NumSectors && S.PEffect(s.k, s'.k, 0)
    requires s.pc[Me(s)] == RLocking(i, entering) || s.pc[Me(s)] == if entering then Outside else Reading(i)
    requires s' == s.(k := s'.k, pc := s.pc[Me(s) := if s.k.sems[0].value > 0 then RLocked(i, entering) else RLocking(i, entering)])
    ensures Good(s')
  {
    assert Moves(s, s');
    assert Fits(s') by { FitsMove(s, s'); }
    assert LockOk(s') by {
      if s.k.sems[0].value > 0 { NobodyHolds(s); }
      LockMove(s, s');
    }
    assert forall j :: 0 <= j < NumSectors ==> CountOk(s', j) by { CountMove(s, s'); }
    assert forall j :: 0 <= j < NumSectors ==> TokenOk(s', j) by { TokenMove(s, s'); }
  }

  lemma NobodyHolds(s: State)
    requires Sized(s) && LockOk(s) && s.k.sems[0].value > 0
    ensures s.held == None && s.k.sems[0].value == 1
  {
  }

  lemma WriterEnters(s: State, i: nat, s': State)
    requires Good(s) && Me(s) < |s.pc| && i < NumSectors && S.PEffect(s.k, s'.k, 1 + i) && Units(s, i) > 0
    requires s.pc[Me(s)] in {Outside, WLocking(i)}
    requires s' == s.(k := s'.k, pc := s.pc[Me(s) := Writing(i)])
    ensures Good(s')
  {
    assert Moves(s, s');
    assert Fits(s') by { FitsMove(s, s'); }
    assert LockOk(s') by { LockMove(s, s'); }
    assert forall j :: 0 <= j < NumSectors ==> CountOk(s', j) by { CountMove(s, s'); }
    assert forall j :: 0 <= j < NumSectors ==> TokenOk(s', j) by {
      var p := s.pc[Me(s)];
      forall j | 0 <= j < NumSectors
        ensures !CoveredAt(p, j) && p != Writing(j) && Units(s', j) + AsNat(i == j) == Units(s, j)
      {
        assert i != j ==> s'.k.sems[1 + j] == s.k.sems[1 + j];
      }
      TokenMove(s, s');
    }
  }

  lemma WriterWaits(s: State, i: nat, s': State)
    requires Good(s) && Me(s) < |s.pc| && i < NumSectors && S.PEffect(s.k, s'.k, 1 + i) && Units(s, i) == 0
    requires s.pc[Me(s)] in {Outside, WLocking(i)}
    requires s' == s.(k := s'.k, pc := s.pc[Me(s) := WLocking(i)])
    ensures Good(s')
  {
    assert Moves(s, s');
    assert Fits(s') by { FitsMove(s, s'); }
    assert LockOk(s') by { LockMove(s, s'); }
    assert forall j :: 0 <= j < NumSectors ==> CountOk(s', j) by { CountMove(s, s'); }
    assert forall j :: 0 <= j < NumSectors ==> TokenOk(s', j) by { TokenMove(s, s'); }
  }

  lemma FirstTurnGood(s: State, i: nat, s': State)
    requires Good(s) && Me(s) < |s.pc| && i < NumSectors && S.PEffect(s.k, s'.k, 1 + i)
    requires s.pc[Me(s)] in {Entering(i), FirstP(i)} && s.readerNum[i] == 1
    requires s' == s.(k := s'.k, pc := s.pc[Me(s) := if Units(s, i) > 0 then Leaving(i, true) else FirstP(i)])
    ensures Good(s')
  {
    assert Moves(s, s');
    assert Fits(s') by { FitsMove(s, s'); }
    assert LockOk(s') by { LockMove(s, s'); }
    assert forall j :: 0 <= j < NumSectors ==> CountOk(s', j) by { CountMove(s, s'); }
    if Units(s, i) > 0 { TokenJoin(s, s', i); } else { TokenMove(s, s'); }
  }

  lemma ExitWriteGood(s: State, i: nat, s': State)
    requires Good(s) && Me(s) < |s.pc| && i < NumSectors && S.VEffect(s.k, s'.k, 1 + i) && s.pc[Me(s)] == Writing(i)
    requires s' == s.(k := s'.k, pc := s.pc[Me(s) := Outside])
    ensures Good(s')
  {
    assert PointFits(s.pc[Me(s)], s.k.point[Me(s)]);
    assert Moves(s, s');
    assert Fits(s') by { FitsMove(s, s'); }
    assert LockOk(s') by { LockMove(s, s'); }
    assert forall j :: 0 <= j < NumSectors ==> CountOk(s', j) by { CountMove(s, s'); }
    assert forall j :: 0 <= j < NumSectors ==> TokenOk(s', j) by { TokenMove(s, s'); }
  }

  lemma PostGood(s: State, i: nat, entering: bool, s': State)
    requires Good(s) && Me(s) < |s.pc| && i < NumSectors && S.VEffect(s.k, s'.k, 0) && s.pc[Me(s)] == Posting(i, entering)
    requires s' == s.(k := s'.k, pc := s.pc[Me(s) := AfterRelease(i, entering)])
    ensures Good(s')
  {
    assert PointFits(s.pc[Me(s)], s.k.point[Me(s)]);
    assert Moves(s, s');
    assert Fits(s') by { FitsMove(s, s'); }
    assert LockOk(s') by { HolderIsMe(s); LockMove(s, s'); }
    assert forall j :: 0 <= j < NumSectors ==> CountOk(s', j) by { CountMove(s, s'); }
    assert forall j :: 0 <= j < NumSectors ==> TokenOk(s', j) by { TokenMove(s, s'); }
  }

  lemma HolderIsMe(s: State)
    requires Sized(s) && LockOk(s) && Me(s) < |s.pc| && HoldsLock(s.pc[Me(s)])
    ensures s.held == if s.pc[Me(s)].RLocked? || s.pc[Me(s)].Posting? then None else Some(Me(s))
  {
    if s.held.Some? {
      AtMostOne(Where(s.pc, Holder()), s.held.value, Me(s));
    }
  }

  lemma LastGood(s: State, i: nat, s': State)
    requires Good(s) && Me(s) < |s.pc| && i < NumSectors && s.pc[Me(s)] == Exiting(i)
    requires if s.readerNum[i] == 0 then S.VEffect(s.k, s'.k, 1 + i) else s'.k == s.k
    requires s' == s.(k := s'.k, pc := s.pc[Me(s) := Leaving(i, false)])
    ensures Good(s')
  {
    assert PointFits(s.pc[Me(s)], s.k.point[Me(s)]);
    assert Moves(s, s');
    assert Fits(s') by { FitsMove(s, s'); }
    assert LockOk(s') by { HolderIsMe(s); LockMove(s, s'); }
    assert forall j :: 0 <= j < NumSectors ==> CountOk(s', j) by { CountMove(s, s'); }
    LeaveOthers(s, i);
    TokenLeave(s, s', i);
  }

  // Statements that leave the kernel alone.
  // A step of the holder of readerLock that leaves the kernel alone.
  ghost predicate LocalStep(s: State, s': State) {
    && Me(s) < |s.pc| == |s'.pc| && HoldsLock(s.pc[Me(s)]) && |s.readerNum| == NumSectors
    && var p, q := s.pc[Me(s)], s'.pc[Me(s)];
       && s' == s.(pc := s.pc[Me(s) := q], held := s'.held, readerNum := s'.readerNum)
       && (|| (p.RLocked? && q == Counting(p.i, p.entering) && s'.held == Some(Me(s)) && s'.readerNum == s.readerNum)
           || (p.Leaving? && q == Clearing(p.i, p.entering) && s'.held == s.held && s'.readerNum == s.readerNum)
           || (p.Clearing? && q == Posting(p.i, p.entering) && s'.held == None && s'.readerNum == s.readerNum)
           || (p.Counting? && p.i < NumSectors && q == (if p.entering then Entering(p.i) else Exiting(p.i)) && s'.held == s.held
               && s'.readerNum == s.readerNum[p.i := s.readerNum[p.i] + if p.entering then 1 else -1]))
  }

  lemma LocalGood(s: State, s': State)
    requires Good(s) && LocalStep(s, s')
    ensures Good(s')
  {
    assert PointFits(s.pc[Me(s)], s.k.point[Me(s)]);
    assert Moves(s, s');
    assert Fits(s') by { FitsMove(s, s'); }
    assert LockOk(s') by { HolderIsMe(s); LockMove(s, s'); }
    assert forall j :: 0 <= j < NumSectors ==> CountOk(s', j) by { CountMove(s, s'); }
    assert forall j :: 0 <= j < NumSectors ==> TokenOk(s', j) by { TokenMove(s, s'); }
  }

  lemma JoinGood(s: State, i: nat, s': State)
    requires Good(s) && Me(s) < |s.pc| && i < NumSectors && s.pc[Me(s)] == Entering(i) && s.readerNum[i] != 1
    requires s' == s.(pc := s.pc[Me(s) := Leaving(i, true)])
    ensures Good(s')
  {
    assert PointFits(s.pc[Me(s)], s.k.point[Me(s)]);
    assert Moves(s, s');
    assert Fits(s') by { FitsMove(s, s'); }
    assert LockOk(s') by { HolderIsMe(s); LockMove(s, s'); }
    assert forall j :: 0 <= j < NumSectors ==> CountOk(s', j) by { CountMove(s, s'); }
    JoinOthers(s, i);
    TokenJoin(s, s', i);
  }

  lemma PreemptGood(s: State, s': State)
    requires Good(s) && s' == s.(k := s'.k) && s'.k.point == s.k.point && s'.k.sems == s.k.sems
    ensures Good(s')
  {
    forall i | 0 <= i < NumSectors ensures CountOk(s', i) && TokenOk(s', i) {
      assert CountOk(s, i) && TokenOk(s, i);
    }
  }

  lemma OtherGood(s: State, kl: K.Label, s': State)
    requires Good(s) && S.Bystander(s.k, s'.k, kl, 1 + NumSectors, 0) && Me(s) < |s.pc|
    requires Elsewhere(s.pc[Me(s)]) || kl.DoV? || kl.DoPoll?
    requires s' == s.(k := s'.k, pc := if kl.DoCreate? then s.pc + [Outside] else s.pc)
    ensures Good(s')
  {
    forall t | 0 <= t < |s'.pc| ensures PointFits(s'.pc[t], s'.k.point[t]) {
      if t < |s.pc| { assert PointFits(s.pc[t], s.k.point[t]); }
    }
    assert LockOk(s') by {
      WhereSnoc(s.pc, Outside, Holder());
    }
    forall i | 0 <= i < NumSectors ensures CountOk(s', i) && TokenOk(s', i) {
      assert CountOk(s, i) && TokenOk(s, i) && Units(s', i) == Units(s, i);
      WhereSnoc(s.pc, Outside, Counted(i));
      WhereSnoc(s.pc, Outside, Covered(i));
      WhereSnoc(s.pc, Outside, Writer(i));
    }
  }

  lemma LockTurnKeeps(s: State, a: Label, i: nat, entering: bool)
    requires Inv(s) && Enabled(s, a)
    requires || (a == StartRead(i) && entering)
             || (a == ExitRead && !entering && s.pc[Me(s)] == Reading(i))
             || (a == Recheck && s.pc[Me(s)] == RLocking(i, entering))
    ensures Inv(Apply(s, a))
  {
    var s' := TurnP(s, 0, RLocked(i, entering), RLocking(i, entering));
    assert K.Inv(s'.k) && S.PEffect(s.k, s'.k, 0) by { S.PGives(s.k, 0); }
    assert Good(s') by { LockTurnGood(s, i, entering, s'); }
    assert s' == Apply(s, a);
  }

  lemma WriteTurnInv(s: State, i: nat)
    requires Inv(s) && Shape(s) && i < NumSectors && K.Enabled(s.k, K.DoP(1 + i)) && s.pc[Me(s)] in {Outside, WLocking(i)}
    ensures Inv(TurnP(s, 1 + i, Writing(i), WLocking(i)))
  {
    var s' := TurnP(s, 1 + i, Writing(i), WLocking(i));
    assert K.Inv(s'.k) && S.PEffect(s.k, s'.k, 1 + i) by { S.PGives(s.k, 1 + i); }
    assert Good(s') by { if Units(s, i) > 0 { WriterEnters(s, i, s'); } else { WriterWaits(s, i, s'); } }
  }

  lemma WriteTurnKeeps(s: State, a: Label, i: nat)
    requires Inv(s) && Enabled(s, a)
    requires a == StartWrite(i) || (a == Recheck && s.pc[Me(s)] == WLocking(i))
    ensures Inv(Apply(s, a))
  {
    var s' := TurnP(s, 1 + i, Writing(i), WLocking(i));
    assert Apply(s, a) == s';
    assert Inv(s') by { WriteTurnInv(s, i); }
  }

  lemma FirstTurnInv(s: State, i: nat)
    requires Inv(s) && Shape(s) && i < NumSectors && K.Enabled(s.k, K.DoP(1 + i))
    requires s.pc[Me(s)] in {Entering(i), FirstP(i)} && s.readerNum[i] == 1
    ensures Inv(TurnP(s, 1 + i, Leaving(i, true), FirstP(i)))
  {
    var s' := TurnP(s, 1 + i, Leaving(i, true), FirstP(i));
    assert K.Inv(s'.k) by { S.PGives(s.k, 1 + i); }
    assert Good(s') by { FirstTurnAllGood(s, i); }
  }

  lemma FirstTurnAllGood(s: State, i: nat)
    requires Inv(s) && Shape(s) && i < NumSectors && K.Enabled(s.k, K.DoP(1 + i))
    requires s.pc[Me(s)] in {Entering(i), FirstP(i)} && s.readerNum[i] == 1
    ensures Good(TurnP(s, 1 + i, Leaving(i, true), FirstP(i)))
  {
    var s' := TurnP(s, 1 + i, Leaving(i, true), FirstP(i));
    S.PGives(s.k, 1 + i);
    FirstTurnGood(s, i, s');
  }

  lemma FirstTurnKeeps(s: State, a: Label, i: nat)
    requires Inv(s) && Enabled(s, a) && i < NumSectors && s.readerNum[i] == 1
    requires (a == TestFirst && s.pc[Me(s)] == Entering(i)) || (a == Recheck && s.pc[Me(s)] == FirstP(i))
    ensures Inv(Apply(s, a))
  {
    var s' := TurnP(s, 1 + i, Leaving(i, true), FirstP(i));
    assert Apply(s, a) == s';
    assert Inv(s') by { FirstTurnInv(s, i); }
  }

  lemma TurnKeeps(s: State, a: Label)
    requires Inv(s) && Enabled(s, a) && (a.StartRead? || a.ExitRead? || a.StartWrite? || a.Recheck?)
    ensures Inv(Apply(s, a))
  {
    var p := s.pc[Me(s)];
    match a
    case StartRead(i) => LockTurnKeeps(s, a, i, true);
    case ExitRead => LockTurnKeeps(s, a, p.i, false);
    case StartWrite(i) => WriteTurnKeeps(s, a, i);
    case Recheck =>
      match p
      case RLocking(i, entering) => LockTurnKeeps(s, a, i, entering);
      case FirstP(i) => FirstTurnKeeps(s, a, i);
      case WLocking(i) => WriteTurnKeeps(s, a, i);
  }

  lemma ExitWriteKeeps(s: State)
    requires Inv(s) && Enabled(s, ExitWrite)
    ensures Inv(Apply(s, ExitWrite))
  {
    var i := s.pc[Me(s)].i;
    S.VGives(s.k, 1 + i);
    ExitWriteGood(s, i, Apply(s, ExitWrite));
  }

  lemma LastKeeps(s: State)
    requires Inv(s) && Enabled(s, TestLast)
    ensures Inv(Apply(s, TestLast))
  {
    var i := s.pc[Me(s)].i;
    S.VGives(s.k, 1 + i);
    LastGood(s, i, Apply(s, TestLast));
  }

  lemma PostKeeps(s: State)
    requires Inv(s) && Enabled(s, Post)
    ensures Inv(Apply(s, Post))
  {
    var p := s.pc[Me(s)];
    S.VGives(s.k, 0);
    PostGood(s, p.i, p.entering, Apply(s, Post));
  }

  lemma InnerKeeps(s: State, a: Label)
    requires Inv(s) && Enabled(s, a) && (a.Assign? || a.Count? || a.TestFirst? || a.TestHolder? || a.Clear?)
    ensures Inv(Apply(s, a))
  {
    if a.TestFirst? { TestFirstKeeps(s, a); } else { LocalKeeps(s, a); }
  }

  lemma TestFirstKeeps(s: State, a: Label)
    requires Inv(s) && Enabled(s, a) && a.TestFirst?
    ensures Inv(Apply(s, a))
  {
    var i := s.pc[Me(s)].i;
    if s.readerNum[i] == 1 { FirstTurnKeeps(s, a, i); } else { JoinGood(s, i, Apply(s, a)); }
  }

  lemma LocalSteps(s: State, a: Label)
    requires Inv(s) && Enabled(s, a) && (a.Assign? || a.Count? || a.TestHolder? || a.Clear?)
    ensures LocalStep(s, Apply(s, a))
  {
    HolderIsMe(s);
  }

  lemma LocalKeeps(s: State, a: Label)
    requires Inv(s) && Enabled(s, a) && (a.Assign? || a.Count? || a.TestHolder? || a.Clear?)
    ensures Inv(Apply(s, a))
  {
    LocalSteps(s, a);
    LocalGood(s, Apply(s, a));
  }

  lemma PreemptKeeps(s: State)
    requires Inv(s) && Enabled(s, Preempt)
    ensures Inv(Apply(s, Preempt))
  {
    S.YieldKeeps(s.k);
    PreemptGood(s, Apply(s, Preempt));
  }

  lemma OtherKeeps(s: State, kl: K.Label)
    requires Inv(s) && Enabled(s, Other(kl))
    ensures Inv(Apply(s, Other(kl)))
  {
    S.StepKeeps(s.k, kl);
    S.UnrelatedIsBystander(s.k, kl, 1 + NumSectors, 0);
    OtherGood(s, kl, Apply(s, Other(kl)));
  }

  lemma StepKeeps(s: State, a: Label)
    requires Inv(s) && Enabled(s, a)
    ensures Inv(Apply(s, a))
  {
    match a
    case Preempt => PreemptKeeps(s);
    case Other(kl) => OtherKeeps(s, kl);
    case ExitWrite => ExitWriteKeeps(s);
    case TestLast => LastKeeps(s);
    case Post => PostKeeps(s);
    case _ =>
      if a.StartRead? || a.ExitRead? || a.StartWrite? || a.Recheck? { TurnKeeps(s, a); } else { InnerKeeps(s, a); }
  }

  // --------------------------------------------------------------------- runs

  function Boot(others: seq<nat>, conditions: nat): State {
    State(K.Boot(seq(1 + NumSectors, _ => 1) + others, conditions), None, [Outside], seq(NumSectors, _ => 0))
  }

  function Next(s: State, a: Label): State {
    if Enabled(s, a) then Apply(s, a) else s
  }

  function Exec(s: State, run: seq<Label>): State {
    After(Next, s, run)
  }

  lemma ExecKeeps(s: State, run: seq<Label>)
    requires Inv(s)
    ensures Inv(Exec(s, run))
  {
    forall r, a | Inv(r) ensures Inv(Next(r, a)) {
      if Enabled(r, a) { StepKeeps(r, a); }
    }
    Along(Next, Inv, s, run);
  }

  lemma Reachable(others: seq<nat>, conditions: nat, run: seq<Label>)
    ensures Inv(Exec(Boot(others, conditions), run))
  {
    var b := Boot(others, conditions);
    S.BootInv(seq(1 + NumSectors, _ => 1) + others, conditions);
    assert Where(b.pc, Holder()) == {};
    forall i | 0 <= i < NumSectors ensures CountOk(b, i) && TokenOk(b, i) {
      assert Where(b.pc, Counted(i)) == {};
      assert Where(b.pc, Covered(i)) == {};
      assert Where(b.pc, Writer(i)) == {};
    }
    assert Good(b);
    ExecKeeps(b, run);
  }

  // ------------------------------------------------------------ what was asked for

  // A statement that was executed, and by whom.
  datatype Step = Step(t: Tid, a: Label)

  function Seen(s: State, a: Label): seq<Step> {
    if Enabled(s, a) then [Step(Me(s), a)] else []
  }

  function Steps(s: State, run: seq<Label>): seq<Step> {
    Trace(Next, Seen, s, run)
  }

  datatype Wish = Nothing | ToRead(i: nat) | ToWrite(i: nat)

  // What a thread called for last, read off the statements executed.
  function Asked(steps: seq<Step>, t: Tid): Wish {
    if steps == [] then Nothing
    else
      var last := steps[|steps| - 1];
      match last.a
      case StartRead(i) => if last.t == t then ToRead(i) else Asked(steps[..|steps| - 1], t)
      case StartWrite(i) => if last.t == t then ToWrite(i) else Asked(steps[..|steps| - 1], t)
      case _ => Asked(steps[..|steps| - 1], t)
  }

  // What a thread at this point is doing.
  function Doing(p: Pc): Wish {
    match p
    case Outside => Nothing
    case WLocking(i) => ToWrite(i)
    case Writing(i) => ToWrite(i)
    case _ => ToRead(p.i)
  }

  ghost predicate DoAsAsked(s: State, steps: seq<Step>) {
    forall t :: 0 <= t < |s.pc| && s.pc[t] != Outside ==> Asked(steps, t) == Doing(s.pc[t])
  }

  lemma AskedSnoc(steps: seq<Step>, x: Step, t: Tid)
    ensures Asked(steps + [x], t) == match x.a
              case StartRead(i) => if x.t == t then ToRead(i) else Asked(steps, t)
              case StartWrite(i) => if x.t == t then ToWrite(i) else Asked(steps, t)
              case _ => Asked(steps, t)
  {
    assert (steps + [x])[..|steps|] == steps;
  }

  lemma StepAsAsked(s: State, a: Label, steps: seq<Step>)
    requires Enabled(s, a) && DoAsAsked(s, steps)
    ensures DoAsAsked(Apply(s, a), steps + [Step(Me(s), a)])
  {
    var s' := Apply(s, a);
    forall t | 0 <= t < |s'.pc| && s'.pc[t] != Outside ensures Asked(steps + [Step(Me(s), a)], t) == Doing(s'.pc[t]) {
      AskedSnoc(steps, Step(Me(s), a), t);
    }
  }

  // In every run a thread inside an operation, or between its two halves, is about
  // the sector it called for last, as a reader or as a writer, as it called for.
  lemma AsAsked(others: seq<nat>, conditions: nat, run: seq<Label>, t: Tid)
    requires t < |Exec(Boot(others, conditions), run).pc| && Exec(Boot(others, conditions), run).pc[t] != Outside
    ensures var p := Exec(Boot(others, conditions), run).pc[t];
            Asked(Steps(Boot(others, conditions), run), t) == if p.WLocking? || p.Writing? then ToWrite(p.i) else ToRead(p.i)
  {
    var b := Boot(others, conditions);
    forall s, steps, a | DoAsAsked(s, steps) ensures DoAsAsked(Next(s, a), steps + Seen(s, a)) {
      if Enabled(s, a) { StepAsAsked(s, a, steps); } else { assert steps + [] == steps; }
    }
    AlongTrace(Next, Seen, DoAsAsked, b, [], run);
    assert [] + Steps(b, run) == Steps(b, run);
  }

  // Inside: the call of SynchReaderStart or SynchWriterStart has returned, and that
  // of the exit has not been made.
  predicate IsInside(s: State, t: Tid) {
    t < |s.pc| && (s.pc[t].Reading? || s.pc[t].Writing?)
  }

  // In every run and for every sector: the semaphore, the writers inside and
  // one for all the readers inside add up to one.  So while a thread that asked to
  // write a sector is inside, no other thread that asked for that sector is.
  lemma WritersExclude(others: seq<nat>, conditions: nat, run: seq<Label>, i: nat)
    requires i < NumSectors
    ensures var s := Exec(Boot(others, conditions), run);
            var steps := Steps(Boot(others, conditions), run);
            && Sized(s) && TokenOk(s, i) && CountOk(s, i)
            && forall t, u :: IsInside(s, t) && IsInside(s, u) && t != u && Asked(steps, t) == ToWrite(i) ==>
                 Asked(steps, u) != ToWrite(i) && Asked(steps, u) != ToRead(i)
  {
    var s := Exec(Boot(others, conditions), run);
    var steps := Steps(Boot(others, conditions), run);
    Reachable(others, conditions, run);
    forall t, u | IsInside(s, t) && IsInside(s, u) && t != u && Asked(steps, t) == ToWrite(i)
      ensures Asked(steps, u) != ToWrite(i) && Asked(steps, u) != ToRead(i)
    {
      AsAsked(others, conditions, run, t);
      AsAsked(others, conditions, run, u);
      WriterAlone(s, i, t, u);
    }
  }

  lemma WriterAlone(s: State, i: nat, t: Tid, u: Tid)
    requires Sized(s) && i < NumSectors && TokenOk(s, i) && t < |s.pc| && u < |s.pc| && s.pc[t] == Writing(i) && t != u
    ensures s.pc[u] != Writing(i) && s.pc[u] != Reading(i)
  {
    assert t in Where(s.pc, Writer(i));
    assert |Where(s.pc, Writer(i))| == 1 && Where(s.pc, Covered(i)) == {};
    if s.pc[u] == Writing(i) { AtMostOne(Where(s.pc, Writer(i)), t, u); }
    assert u !in Where(s.pc, Covered(i));
  }

  // ------------------------------------------------------------------ going forward

  // The statement that a thread inside an operation executes next.
  function NextOf(p: Pc): Label {
    match p
    case RLocked(_, _) => Assign
    case Counting(_, _) => Count
    case Entering(_) => TestFirst
    case Exiting(_) => TestLast
    case Leaving(_, _) => TestHolder
    case Clearing(_, _) => Clear
    case Posting(_, _) => Post
    case _ => Recheck
  }

  // How many statements, at most, are left of the operation.
  function Left(p: Pc): nat {
    match p
    case RLocking(_, _) => 8
    case RLocked(_, _) => 7
    case Counting(_, _) => 6
    case Entering(_) => 5
    case FirstP(_) => 4
    case Exiting(_) => 4
    case Leaving(_, _) => 3
    case Clearing(_, _) => 2
    case Posting(_, _) => 1
    case WLocking(_) => 1
    case _ => 0
  }

  // In every run, whoever is on the processor inside an operation can execute its next
  // statement, and is closer to the end after it, or asleep on a semaphore at 0.
  lemma GoesForward(others: seq<nat>, conditions: nat, run: seq<Label>, s: State)
    requires s == Exec(Boot(others, conditions), run) && Sized(s) && !s.k.idle && Me(s) < |s.pc| && !Elsewhere(s.pc[Me(s)])
    ensures Enabled(s, NextOf(s.pc[Me(s)])) && Forward(s, Apply(s, NextOf(s.pc[Me(s)])))
  {
    assert Inv(s) by { Reachable(others, conditions, run); }
    NextEnabled(s);
    NextForward(s);
  }

  ghost predicate Forward(s: State, s': State) {
    && Me(s) < |s.pc| == |s'.pc| == |s'.k.point|
    && var p, q := s.pc[Me(s)], s'.pc[Me(s)];
       || Left(q) < Left(p)
       || (q == p && SemOf(p).Some? && SemOf(p).value < |s.k.sems| && s.k.sems[SemOf(p).value].value == 0 && s'.k.point[Me(s)] == K.AsleepOn(SemOf(p).value))
  }

  lemma NextEnabled(s: State)
    requires Inv(s) && !s.k.idle && Me(s) < |s.pc| && !Elsewhere(s.pc[Me(s)])
    ensures Enabled(s, NextOf(s.pc[Me(s)]))
  {
    S.Shaped(s.k);
    forall t | 0 <= t < |s.pc| && s.pc[t] != Outside ensures s.pc[t].i < NumSectors { assert PointFits(s.pc[t], s.k.point[t]); }
    assert PointFits(s.pc[Me(s)], s.k.point[Me(s)]);
  }

  lemma NextForward(s: State)
    requires Shape(s) && !Elsewhere(s.pc[Me(s)]) && Enabled(s, NextOf(s.pc[Me(s)]))
    ensures Forward(s, Apply(s, NextOf(s.pc[Me(s)])))
  {
  }

  // ------------------------------------------------------- operations without a wait

  // Thread t is executing code and stands at p.
  ghost predicate StandsAt(s: State, t: Tid, p: Pc) {
    Shape(s) && S.InCharge(s.k, t) && s.pc[t] == p
  }

  lemma FreeStands(s: State)
    requires Inv(s) && K.Free(s.k)
    ensures StandsAt(s, Me(s), s.pc[Me(s)])
  {
    S.FreeInCharge(s.k);
    forall t | 0 <= t < |s.pc| && s.pc[t] != Outside ensures s.pc[t].i < NumSectors { assert PointFits(s.pc[t], s.k.point[t]); }
  }

  // From s, statement a takes thread t to q and leaves s'.
  ghost predicate Goes(s: State, a: Label, t: Tid, q: Pc, s': State) {
    && RunsTo(Next, s, [a], s') && Shape(s) && t < |s.pc| && StandsAt(s', t, q)
    && s' == s.(k := s'.k, pc := s.pc[t := q], held := s'.held, readerNum := s'.readerNum)
  }

  lemma LockPasses(s: State, a: Label, t: Tid, i: nat, entering: bool, s': State)
    requires i < NumSectors && s.k.sems != [] && s.k.sems[0].value > 0
    requires if entering then a == StartRead(i) && StandsAt(s, t, Outside) else a == ExitRead && StandsAt(s, t, Reading(i))
    requires s' == s.(k := K.SemP(s.k, 0), pc := s.pc[t := RLocked(i, entering)])
    ensures Goes(s, a, t, RLocked(i, entering), s') && S.UnitsMoved(s.k, s'.k, 0, -1)
  {
    S.PReturns(s.k, 0, t);
    RunsOne(Next, s, a, s');
  }

  // A statement that leaves the kernel alone.
  lemma LocalGoes(s: State, a: Label, t: Tid, q: Pc, s': State)
    requires Shape(s) && t < |s.pc| && StandsAt(s, t, s.pc[t]) && Enabled(s, a) && Apply(s, a) == s'
    requires s' == s.(pc := s.pc[t := q], held := s'.held, readerNum := s'.readerNum)
    requires |s'.readerNum| == NumSectors && (q != Outside ==> q.i < NumSectors)
    ensures Goes(s, a, t, q, s')
  {
    RunsOne(Next, s, a, s');
  }

  lemma AcquiresLock(s: State, a: Label, t: Tid, i: nat, entering: bool) returns (s': State)
    requires i < NumSectors && s.k.sems != [] && s.k.sems[0].value > 0
    requires if entering then a == StartRead(i) && StandsAt(s, t, Outside) else a == ExitRead && StandsAt(s, t, Reading(i))
    ensures s' == s.(k := s'.k, pc := s.pc[t := Counting(i, entering)], held := Some(t))
    ensures RunsTo(Next, s, [a] + [Assign], s') && StandsAt(s', t, Counting(i, entering)) && S.UnitsMoved(s.k, s'.k, 0, -1)
  {
    var s1 := s.(k := K.SemP(s.k, 0), pc := s.pc[t := RLocked(i, entering)]);
    s' := s.(k := s1.k, pc := s.pc[t := Counting(i, entering)], held := Some(t));
    LockPasses(s, a, t, i, entering, s1);
    assert s1.pc[t := Counting(i, entering)] == s.pc[t := Counting(i, entering)];
    LocalGoes(s1, Assign, t, Counting(i, entering), s');
    RunsOn(Next, s, [a], s1, [Assign], s');
  }

  lemma ReleasesLock(s: State, t: Tid, i: nat, entering: bool) returns (s': State)
    requires i < NumSectors && StandsAt(s, t, Leaving(i, entering)) && s.held == Some(t)
    ensures s' == s.(k := s'.k, pc := s.pc[t := AfterRelease(i, entering)], held := None)
    ensures RunsTo(Next, s, [TestHolder] + ([Clear] + [Post]), s') && S.UnitsMoved(s.k, s'.k, 0, 1)
  {
    s' := s.(k := K.SemV(s.k, 0), pc := s.pc[t := AfterRelease(i, entering)], held := None);
    var s1 := s.(pc := s.pc[t := Clearing(i, entering)]);
    LocalGoes(s, TestHolder, t, Clearing(i, entering), s1);
    var s2 := s.(pc := s.pc[t := Posting(i, entering)], held := None);
    assert s1.pc[t := Posting(i, entering)] == s2.pc;
    LocalGoes(s1, Clear, t, Posting(i, entering), s2);
    assert s2.pc[t := AfterRelease(i, entering)] == s'.pc;
    PostGoes(s2, t, i, entering, s');
    RunsOn(Next, s1, [Clear], s2, [Post], s');
    RunsOn(Next, s, [TestHolder], s1, [Clear] + [Post], s');
  }

  lemma PostGoes(s: State, t: Tid, i: nat, entering: bool, s': State)
    requires i < NumSectors && StandsAt(s, t, Posting(i, entering))
    requires s' == s.(k := K.SemV(s.k, 0), pc := s.pc[t := AfterRelease(i, entering)])
    ensures RunsTo(Next, s, [Post], s') && S.UnitsMoved(s.k, s'.k, 0, 1)
  {
    S.VReturns(s.k, 0, t);
    RunsOne(Next, s, Post, s');
  }

  // The count and the test behind it.
  function Recounted(s: State, i: nat, change: int): seq<int>
    requires i < |s.readerNum|
  {
    s.readerNum[i := s.readerNum[i] + change]
  }

  lemma CountsIn(s: State, t: Tid, i: nat) returns (s': State)
    requires i < NumSectors && StandsAt(s, t, Counting(i, true)) && (s.readerNum[i] == 0 ==> Units(s, i) > 0)
    ensures s' == s.(k := s'.k, pc := s.pc[t := Leaving(i, true)], readerNum := Recounted(s, i, 1))
    ensures RunsTo(Next, s, [Count] + [TestFirst], s') && StandsAt(s', t, Leaving(i, true))
    ensures if s.readerNum[i] == 0 then S.UnitsMoved(s.k, s'.k, 1 + i, -1) else s'.k == s.k
  {
    s' := s.(k := if s.readerNum[i] == 0 then K.SemP(s.k, 1 + i) else s.k, pc := s.pc[t := Leaving(i, true)], readerNum := Recounted(s, i, 1));
    var s1 := s.(pc := s.pc[t := Entering(i)], readerNum := Recounted(s, i, 1));
    LocalGoes(s, Count, t, Entering(i), s1);
    assert s1.pc[t := Leaving(i, true)] == s'.pc;
    if s.readerNum[i] == 0 { FirstGoes(s1, t, i, s'); } else { LocalGoes(s1, TestFirst, t, Leaving(i, true), s'); }
    RunsOn(Next, s, [Count], s1, [TestFirst], s');
  }

  lemma FirstGoes(s: State, t: Tid, i: nat, s': State)
    requires i < NumSectors && StandsAt(s, t, Entering(i)) && s.readerNum[i] == 1 && Units(s, i) > 0
    requires s' == s.(k := K.SemP(s.k, 1 + i), pc := s.pc[t := Leaving(i, true)])
    ensures RunsTo(Next, s, [TestFirst], s') && StandsAt(s', t, Leaving(i, true)) && S.UnitsMoved(s.k, s'.k, 1 + i, -1)
  {
    S.PReturns(s.k, 1 + i, t);
    RunsOne(Next, s, TestFirst, s');
  }

  lemma CountsOut(s: State, t: Tid, i: nat) returns (s': State)
    requires i < NumSectors && StandsAt(s, t, Counting(i, false))
    ensures s' == s.(k := s'.k, pc := s.pc[t := Leaving(i, false)], readerNum := Recounted(s, i, -1))
    ensures RunsTo(Next, s, [Count] + [TestLast], s') && StandsAt(s', t, Leaving(i, false))
    ensures if s.readerNum[i] == 1 then S.UnitsMoved(s.k, s'.k, 1 + i, 1) else s'.k == s.k
  {
    s' := s.(k := if s.readerNum[i] == 1 then K.SemV(s.k, 1 + i) else s.k, pc := s.pc[t := Leaving(i, false)], readerNum := Recounted(s, i, -1));
    var s1 := s.(pc := s.pc[t := Exiting(i)], readerNum := Recounted(s, i, -1));
    LocalGoes(s, Count, t, Exiting(i), s1);
    assert s1.pc[t := Leaving(i, false)] == s'.pc;
    if s.readerNum[i] == 1 { LastGoes(s1, t, i, s'); } else { LocalGoes(s1, TestLast, t, Leaving(i, false), s'); }
    RunsOn(Next, s, [Count], s1, [TestLast], s');
  }

  lemma LastGoes(s: State, t: Tid, i: nat, s': State)
    requires i < NumSectors && StandsAt(s, t, Exiting(i)) && s.readerNum[i] == 0
    requires s' == s.(k := K.SemV(s.k, 1 + i), pc := s.pc[t := Leaving(i, false)])
    ensures RunsTo(Next, s, [TestLast], s') && StandsAt(s', t, Leaving(i, false)) && S.UnitsMoved(s.k, s'.k, 1 + i, 1)
  {
    S.VReturns(s.k, 1 + i, t);
    RunsOne(Next, s, TestLast, s');
  }

  // The units of the sectors are as they were, but for sector i.
  ghost predicate OnlyUnits(k: K.State, k': K.State, i: nat, change: int) {
    && i < NumSectors < |k.sems| == |k'.sems| && |k'.point| == |k.point|
    && k'.sems[1 + i].value == k.sems[1 + i].value + change
    && forall j :: 0 <= j < |k.sems| && j != 1 + i ==> k'.sems[j].value == k.sems[j].value
  }

  lemma UnitsAround(k: K.State, k1: K.State, k2: K.State, k3: K.State, i: nat, change: int)
    requires i < NumSectors < |k.sems| && S.UnitsMoved(k, k1, 0, -1) && S.UnitsMoved(k2, k3, 0, 1)
    requires if change == 0 then k2 == k1 else S.UnitsMoved(k1, k2, 1 + i, change)
    ensures OnlyUnits(k, k3, i, change)
  {
  }

  // The statements of SynchReaderStart and of SynchReaderExit, in order.
  function ReaderStart(i: nat): seq<Label> {
    [StartRead(i)] + [Assign] + ([Count] + [TestFirst] + ([TestHolder] + ([Clear] + [Post])))
  }

  function ReaderExit(): seq<Label> {
    [ExitRead] + [Assign] + ([Count] + [TestLast] + ([TestHolder] + ([Clear] + [Post])))
  }

  lemma ReaderEnters(s: State, t: Tid, i: nat) returns (s': State)
    requires i < NumSectors && s.k.sems != [] && s.k.sems[0].value > 0 && s.held == None && StandsAt(s, t, Outside)
    requires s.readerNum[i] == 0 ==> Units(s, i) > 0
    ensures RunsTo(Next, s, ReaderStart(i), s')
    ensures s' == s.(k := s'.k, pc := s.pc[t := Reading(i)], readerNum := Recounted(s, i, 1))
    ensures OnlyUnits(s.k, s'.k, i, if s.readerNum[i] == 0 then -1 else 0)
  {
    var s1 := AcquiresLock(s, StartRead(i), t, i, true);
    var s2 := CountsIn(s1, t, i);
    s' := ReleasesLock(s2, t, i, true);
    RunsOn(Next, s1, [Count] + [TestFirst], s2, [TestHolder] + ([Clear] + [Post]), s');
    RunsOn(Next, s, [StartRead(i)] + [Assign], s1, [Count] + [TestFirst] + ([TestHolder] + ([Clear] + [Post])), s');
    UnitsAround(s.k, s1.k, s2.k, s'.k, i, if s.readerNum[i] == 0 then -1 else 0);
    assert s'.pc == s.pc[t := Reading(i)];
  }

  lemma ReaderLeaves(s: State, t: Tid, i: nat) returns (s': State)
    requires i < NumSectors && s.k.sems != [] && s.k.sems[0].value > 0 && s.held == None && StandsAt(s, t, Reading(i))
    ensures RunsTo(Next, s, ReaderExit(), s')
    ensures s' == s.(k := s'.k, pc := s.pc[t := Outside], readerNum := Recounted(s, i, -1))
    ensures OnlyUnits(s.k, s'.k, i, if s.readerNum[i] == 1 then 1 else 0)
  {
    var s1 := AcquiresLock(s, ExitRead, t, i, false);
    var s2 := CountsOut(s1, t, i);
    s' := ReleasesLock(s2, t, i, false);
    RunsOn(Next, s1, [Count] + [TestLast], s2, [TestHolder] + ([Clear] + [Post]), s');
    RunsOn(Next, s, [ExitRead] + [Assign], s1, [Count] + [TestLast] + ([TestHolder] + ([Clear] + [Post])), s');
    UnitsAround(s.k, s1.k, s2.k, s'.k, i, if s.readerNum[i] == 1 then 1 else 0);
    assert s'.pc == s.pc[t := Outside];
  }

  // With readerLock free, a sector without a writer has its unit exactly when no
  // reader is counted.
  lemma NobodyBetween(s: State, i: nat)
    requires Good(s) && i < NumSectors && s.k.sems[0].value > 0
    ensures s.held == None && s.readerNum[i] >= 0
    ensures Where(s.pc, Writer(i)) == {} ==> Units(s, i) == if s.readerNum[i] == 0 then 1 else 0
  {
    NobodyHolds(s);
    assert CountOk(s, i) && TokenOk(s, i);
    assert Where(s.pc, Holder()) == {};
    forall u: Tid ensures u in Where(s.pc, Counted(i)) <==> u in Where(s.pc, Covered(i)) {
      assert u < |s.pc| && HoldsLock(s.pc[u]) ==> u in Where(s.pc, Holder());
    }
    assert Where(s.pc, Counted(i)) == Where(s.pc, Covered(i));
  }

  lemma LockIsFree(others: seq<nat>, conditions: nat, run: seq<Label>, s: State, i: nat)
    requires s == Exec(Boot(others, conditions), run) && i < NumSectors && Sized(s)
    requires K.Free(s.k) && s.k.sems[0].value > 0
    ensures StandsAt(s, Me(s), s.pc[Me(s)]) && s.held == None
    ensures Where(s.pc, Writer(i)) == {} ==> Units(s, i) == if s.readerNum[i] == 0 then 1 else 0
  {
    assert Inv(s) by { Reachable(others, conditions, run); }
    FreeStands(s);
    NobodyBetween(s, i);
  }

  // In every run, a reader that finds readerLock free and no writer inside its sector
  // gets in without waiting, however many readers are there.
  lemma ReaderGetsIn(others: seq<nat>, conditions: nat, run: seq<Label>, s: State, i: nat) returns (s': State)
    requires s == Exec(Boot(others, conditions), run) && i < NumSectors && Sized(s)
    requires K.Free(s.k) && s.pc[Me(s)] == Outside && s.k.sems[0].value > 0 && Where(s.pc, Writer(i)) == {}
    ensures RunsTo(Next, s, ReaderStart(i), s')
    ensures s' == s.(k := s'.k, pc := s.pc[Me(s) := Reading(i)], readerNum := s.readerNum[i := s.readerNum[i] + 1])
    ensures OnlyUnits(s.k, s'.k, i, if s.readerNum[i] == 0 then -1 else 0) && Units(s', i) == 0
  {
    LockIsFree(others, conditions, run, s, i);
    s' := ReaderEnters(s, Me(s), i);
  }

  // A reader that finds readerLock free gets out without waiting, and the last one
  // gives the unit back.
  lemma ReaderGetsOut(others: seq<nat>, conditions: nat, run: seq<Label>, s: State, i: nat) returns (s': State)
    requires s == Exec(Boot(others, conditions), run) && i < NumSectors && Sized(s)
    requires K.Free(s.k) && s.pc[Me(s)] == Reading(i) && s.k.sems[0].value > 0
    ensures RunsTo(Next, s, ReaderExit(), s')
    ensures s' == s.(k := s'.k, pc := s.pc[Me(s) := Outside], readerNum := s.readerNum[i := s.readerNum[i] - 1])
    ensures OnlyUnits(s.k, s'.k, i, if s.readerNum[i] == 1 then 1 else 0)
  {
    LockIsFree(others, conditions, run, s, i);
    s' := ReaderLeaves(s, Me(s), i);
  }

  // A writer gets in at once exactly when nobody is inside, or on the way in or out
  // with the unit.
  lemma WriterGetsIn(others: seq<nat>, conditions: nat, run: seq<Label>, s: State, i: nat)
    requires s == Exec(Boot(others, conditions), run) && i < NumSectors && Sized(s)
    requires K.Free(s.k) && s.pc[Me(s)] == Outside
    ensures var s' := Next(s, StartWrite(i));
            && Sized(s') && s'.pc == s.pc[Me(s) := if Where(s.pc, Writer(i)) == {} && Where(s.pc, Covered(i)) == {} then Writing(i) else WLocking(i)]
            && s'.readerNum == s.readerNum && s'.held == s.held
  {
    assert StandsAt(s, Me(s), Outside) && (Units(s, i) > 0 <==> Where(s.pc, Writer(i)) == {} && Where(s.pc, Covered(i)) == {}) by {
      assert Inv(s) by { Reachable(others, conditions, run); }
      FreeStands(s);
      UnitIff(s, i);
    }
    WriterStarts(s, Me(s), i);
  }

  lemma UnitIff(s: State, i: nat)
    requires Good(s) && i < NumSectors
    ensures Units(s, i) > 0 <==> Where(s.pc, Writer(i)) == {} && Where(s.pc, Covered(i)) == {}
  {
    assert TokenOk(s, i);
  }

  lemma WriterStarts(s: State, t: Tid, i: nat)
    requires i < NumSectors && StandsAt(s, t, Outside)
    ensures var s' := Next(s, StartWrite(i));
            && Sized(s') && s'.pc == s.pc[t := if Units(s, i) > 0 then Writing(i) else WLocking(i)]
            && s'.readerNum == s.readerNum && s'.held == s.held
  {
    S.PHasEffect(s.k, 1 + i);
  }

  // A reader that sleeps on a sector while it holds readerLock waits for a
  // writer of that sector: one inside, or one woken to take the unit.  It never
  // waits for another reader.
  lemma BlockedByWriter(others: seq<nat>, conditions: nat, run: seq<Label>, t: Tid)
    requires var s := Exec(Boot(others, conditions), run);
             t < |s.pc| && t < |s.k.point| && s.pc[t].FirstP? && s.k.point[t] == K.AsleepOn(1 + s.pc[t].i)
    ensures var s := Exec(Boot(others, conditions), run);
            exists u :: 0 <= u < |s.pc| && u < |s.k.point| &&
              (s.pc[u] == Writing(s.pc[t].i) || (s.pc[u] == WLocking(s.pc[t].i) && s.k.point[u] == K.Checking(1 + s.pc[t].i)))
  {
    var s := Exec(Boot(others, conditions), run);
    Reachable(others, conditions, run);
    var i := s.pc[t].i;
    assert PointFits(s.pc[t], s.k.point[t]);
    SleepingReader(s, i, t);
  }

  lemma SleepingReader(s: State, i: nat, t: Tid)
    requires Inv(s) && i < NumSectors && t < |s.pc| && s.pc[t] == FirstP(i) && s.k.point[t] == K.AsleepOn(1 + i)
    ensures exists u :: 0 <= u < |s.pc| &&
              (s.pc[u] == Writing(i) || (s.pc[u] == WLocking(i) && s.k.point[u] == K.Checking(1 + i)))
  {
    assert TokenOk(s, i);
    if Units(s, i) == 0 {
      OnlyReader(s, i, t);
      var w := Where(s.pc, Writer(i));
      assert w != {};
      var u :| u in w;
      assert s.pc[u] == Writing(i);
    } else {
      assert t in K.SemSleepers(s.k, 1 + i);
      assert s.k.sems[1 + i].queue != [];
      assert K.Accounted(s.k, 1 + i);
      var c := K.Checkers(s.k, 1 + i);
      assert c != {};
      var u :| u in c;
      assert PointFits(s.pc[u], s.k.point[u]);
      assert SemOf(s.pc[u]) == Some(1 + i);
      if HoldsLock(s.pc[u]) { AtMostOne(Where(s.pc, Holder()), t, u); }
    }
  }

  // The first reader, still inside P, is the only reader of its sector.
  lemma OnlyReader(s: State, i: nat, t: Tid)
    requires Good(s) && i < NumSectors && t < |s.pc| && s.pc[t] == FirstP(i)
    ensures Where(s.pc, Covered(i)) == {}
  {
    assert CountOk(s, i);
    forall u: Tid | u < |s.pc| ensures !CoveredAt(s.pc[u], i) {
      if HoldsLock(s.pc[u]) { AtMostOne(Where(s.pc, Holder()), t, u); }
      if CountedAt(s.pc[u], i) { AtMostOne(Where(s.pc, Counted(i)), t, u); }
    }
  }

  // A writer leaves without touching readerLock, whoever holds it, and whoever
  // sleeps longest on the sector (a reader holding readerLock, say) is woken.
  lemma WriterLeavesFreely(others: seq<nat>, conditions: nat, run: seq<Label>)
    requires var s := Exec(Boot(others, conditions), run);
             Sized(s) && K.Free(s.k) && Me(s) < |s.pc| && s.pc[Me(s)].Writing?
    ensures var s := Exec(Boot(others, conditions), run);
            var i := s.pc[Me(s)].i;
            var s' := Next(s, ExitWrite);
            && i < NumSectors && Enabled(s, ExitWrite) && Sized(s')
            && s'.pc[Me(s)] == Outside && Units(s', i) == 1
            && s'.k.sems[0] == s.k.sems[0] && s'.held == s.held
            && (s.k.sems[1 + i].queue != [] ==>
                  s.k.sems[1 + i].queue[0] < |s'.k.point| && s'.k.point[s.k.sems[1 + i].queue[0]] == K.Checking(1 + i))
  {
    var s := Exec(Boot(others, conditions), run);
    Reachable(others, conditions, run);
    var i := s.pc[Me(s)].i;
    S.Shaped(s.k);
    assert PointFits(s.pc[Me(s)], s.k.point[Me(s)]);
    assert forall t :: 0 <= t < |s.pc| ==> PointFits(s.pc[t], s.k.point[t]);
    assert TokenOk(s, i);
    assert Me(s) in Where(s.pc, Writer(i));
  }
}

// Small vocabulary shared by every module of the project.
module Common {

  datatype Option<+T> = None | Some(value: T)

  type Byte = b: int | 0 <= b < 256

  type Int32 = x: int | -0x8000_0000 <= x < 0x8000_0000

  // 1 for true, 0 for false.
  function AsNat(b: bool): nat { if b then 1 else 0 }

  // No element occurs twice.
  ghost predicate NoDup<T>(s: seq<T>) {
    forall i, j :: 0 <= i < j < |s| ==> s[i] != s[j]
  }

  lemma AtMostOne<T>(x: set<T>, a: T, b: T)
    requires |x| <= 1 && a in x && b in x
    ensures a == b
  {
    var rest := x - {a};
    assert x == rest + {a};
    assert |rest| == 0;
  }

  // The positions of s whose element satisfies f.
  function Where<T>(s: seq<T>, f: T -> bool): set<nat> {
    set k: nat | k < |s| && f(s[k])
  }

  lemma WhereUpdateSet<T>(s: seq<T>, k: nat, v: T, f: T -> bool)
    requires k < |s|
    ensures Where(s[k := v], f) == if f(v) then Where(s, f) + {k} else Where(s, f) - {k}
  {
    var w := Where(s[k := v], f);
    forall j: nat ensures j in w <==> if f(v) then j in Where(s, f) || j == k else j in Where(s, f) && j != k {
      assert j < |s| && j != k ==> s[k := v][j] == s[j];
    }
  }

  lemma WhereUpdate<T>(s: seq<T>, k: nat, v: T, f: T -> bool)
    requires k < |s|
    ensures |Where(s[k := v], f)| == |Where(s, f)| + (if f(v) then 1 else 0) - (if f(s[k]) then 1 else 0)
  {
    WhereUpdateSet(s, k, v, f);
    assert k in Where(s, f) <==> f(s[k]);
  }

  lemma WhereSnoc<T>(s: seq<T>, v: T, f: T -> bool)
    requires !f(v)
    ensures Where(s + [v], f) == Where(s, f)
  {
  }

  lemma Regroup<T>(before: seq<T>, a: seq<T>, b: seq<T>, c: seq<T>, d: seq<T>)
    requires a + b == c + d
    ensures before + a + b == before + c + d
  {
    assert before + a + b == before + (a + b) && before + c + d == before + (c + d);
  }

  // ---------------------------------------------------------------------- runs

  // The state after a run of a machine with this transition function.
  function After<S, L>(next: (S, L) -> S, s: S, run: seq<L>): S
    decreases |run|
  {
    if run == [] then s else After(next, next(s, run[0]), run[1..])
  }

  // What holds at the start and is kept by every step holds after every run.
  lemma {:induction false} Along<S(!new), L(!new)>(next: (S, L) -> S, holds: S -> bool, s: S, run: seq<L>)
    requires holds(s) && forall r, l :: holds(r) ==> holds(next(r, l))
    ensures holds(After(next, s, run))
    decreases |run|
  {
    if run != [] { Along(next, holds, next(s, run[0]), run[1..]); }
  }

  // What an observer sees of a run: with every step, zero or more events.
  function Trace<S, L, E>(next: (S, L) -> S, see: (S, L) -> seq<E>, s: S, run: seq<L>): seq<E>
    decreases |run|
  {
    if run == [] then [] else see(s, run[0]) + Trace(next, see, next(s, run[0]), run[1..])
  }

  // The same for what holds of a state and what was seen on the way to it.
  lemma {:induction false} AlongTrace<S(!new), L(!new), E(!new)>(next: (S, L) -> S, see: (S, L) -> seq<E>, holds: (S, seq<E>) -> bool,
                                                                 s: S, seen: seq<E>, run: seq<L>)
    requires holds(s, seen) && forall r, es, l :: holds(r, es) ==> holds(next(r, l), es + see(r, l))
    ensures holds(After(next, s, run), seen + Trace(next, see, s, run))
    decreases |run|
  {
    if run == [] {
      assert seen + Trace(next, see, s, run) == seen;
    } else {
      var n, more := next(s, run[0]), see(s, run[0]);
      AlongTrace(next, see, holds, n, seen + more, run[1..]);
      assert seen + Trace(next, see, s, run) == seen + more + Trace(next, see, n, run[1..]);
    }
  }

  // A run takes s to s'.  Quantified over a dummy, so that a proof that puts runs
  // together does not unfold their statements; InsideRunsTo does.
  ghost predicate RunsTo<S, L>(next: (S, L) -> S, s: S, run: seq<L>, s': S) {
    forall look {:trigger LookAlong(look)} :: LookAlong(look) ==> After(next, s, run) == s'
  }

  predicate LookAlong(look: bool) { look || !look }

  lemma InsideRunsTo<S, L>(next: (S, L) -> S, s: S, run: seq<L>, s': S)
    requires RunsTo(next, s, run, s')
    ensures After(next, s, run) == s'
  {
    assert LookAlong(true);
  }

  lemma RunsOne<S, L>(next: (S, L) -> S, s: S, l: L, s': S)
    requires next(s, l) == s'
    ensures RunsTo(next, s, [l], s')
  {
  }

  lemma RunsOn<S, L>(next: (S, L) -> S, s: S, run: seq<L>, s': S, more: seq<L>, s'': S)
    requires RunsTo(next, s, run, s') && RunsTo(next, s', more, s'')
    ensures RunsTo(next, s, run + more, s'')
  {
    InsideRunsTo(next, s, run, s');
    InsideRunsTo(next, s', more, s'');
    AfterBoth(next, s, run, more);
  }

  lemma {:induction false} AfterBoth<S, L>(next: (S, L) -> S, s: S, run: seq<L>, more: seq<L>)
    ensures After(next, s, run + more) == After(next, After(next, s, run), more)
    decreases |run|
  {
    if run == [] {
      assert run + more == more;
    } else {
      AfterBoth(next, next(s, run[0]), run[1..], more);
      assert (run + more)[1..] == run[1..] + more;
    }
  }
}

/**
 The work-stealing sweep: workers claim chunks of positions by bumping a shared counter and fold
 the documents they claim; a worker whose document cannot be read pushes the counter to the end,
 so that the others stop early. Any interleaving of their atomic steps is a run.
 */
module Sweep {
  import opened Wrappers
  import opened Sorting
  import opened Sums

  /** What a worker has folded so far, in order, and the claimed positions it has yet to visit. */
  datatype Worker =
    | Claiming(acc: seq<nat>)
    | Folding(acc: seq<nat>, pos: nat, end: nat)
    | Finished(acc: seq<nat>)
    | Failed(acc: seq<nat>, pos: nat, end: nat)

  /** `claimed` is history: positions below it were handed out. */
  datatype State = State(next: nat, workers: seq<Worker>, claimed: nat)

  /** `readable(p)` tells whether document `p` can be read at all. */
  datatype Config = Config(n: nat, chunk: nat, readable: nat -> bool)

  /** The chunk size: about 32 claims per worker, at least 1 and at most 64 documents. */
  function ChunkSize(n: nat, threads: nat): (chunk: nat)
    requires threads > 0
    ensures 1 <= chunk <= 64
  {
    var c := n / (threads * 32);
    if c < 1 then 1 else if c > 64 then 64 else c
  }

  ghost predicate Init(c: Config, s: State) {
    && 0 < |s.workers| && c.chunk > 0 && s.next == s.claimed == 0
    && forall i :: 0 <= i < |s.workers| ==> s.workers[i] == Claiming([])
  }

  // ---- steps ----

  function Min(a: nat, b: nat): nat { if a < b then a else b }

  /** `fetch_add`: a start past the end sends the worker home. */
  ghost predicate Claim(c: Config, s: State, t: State, i: nat) {
    && i < |s.workers| && s.workers[i].Claiming?
    && if s.next >= c.n then
         t == s.(next := s.next + c.chunk, workers := s.workers[i := Finished(s.workers[i].acc)])
       else
         t == State(s.next + c.chunk, s.workers[i := Folding(s.workers[i].acc, s.next, Min(s.next + c.chunk, c.n))],
             Min(s.next + c.chunk, c.n))
  }

  ghost predicate Fold(c: Config, s: State, t: State, i: nat) {
    && i < |s.workers| && s.workers[i].Folding? && s.workers[i].pos < s.workers[i].end && c.readable(s.workers[i].pos)
    && var w := s.workers[i]; t == s.(workers := s.workers[i := Folding(w.acc + [w.pos], w.pos + 1, w.end)])
  }

  /** An unreadable document: the counter is stored as `n` and the worker returns the error. */
  ghost predicate Fail(c: Config, s: State, t: State, i: nat) {
    && i < |s.workers| && s.workers[i].Folding? && s.workers[i].pos < s.workers[i].end && !c.readable(s.workers[i].pos)
    && var w := s.workers[i]; t == s.(next := c.n, workers := s.workers[i := Failed(w.acc, w.pos, w.end)])
  }

  ghost predicate EndChunk(c: Config, s: State, t: State, i: nat) {
    && i < |s.workers| && s.workers[i].Folding? && s.workers[i].pos == s.workers[i].end
    && t == s.(workers := s.workers[i := Claiming(s.workers[i].acc)])
  }

  ghost predicate StepOf(c: Config, s: State, t: State, i: nat) {
    Claim(c, s, t, i) || Fold(c, s, t, i) || Fail(c, s, t, i) || EndChunk(c, s, t, i)
  }

  ghost predicate Step(c: Config, s: State, t: State) {
    exists i: nat :: StepOf(c, s, t, i)
  }

  predicate Over(s: State) {
    forall i :: 0 <= i < |s.workers| ==> s.workers[i].Finished? || s.workers[i].Failed?
  }

  predicate AnyFailed(s: State) {
    exists i :: 0 <= i < |s.workers| && s.workers[i].Failed?
  }

  // ---- who has position p ----

  function Count(acc: seq<nat>, p: nat): nat {
    if acc == [] then 0 else (if acc[0] == p then 1 else 0) + Count(acc[1..], p)
  }

  function In(p: nat, from: nat, to: nat): nat { if from <= p < to then 1 else 0 }

  /** How often `p` is folded or held by one worker; a failed worker still holds what it never visited. */
  function Owner(p: nat): (Worker -> nat) {
    (w: Worker) => Count(w.acc, p) + if w.Folding? || w.Failed? then In(p, w.pos, w.end) else 0
  }

  ghost predicate Inv(c: Config, s: State) {
    && 0 < c.chunk && s.claimed <= c.n && s.claimed <= s.next
    && (if AnyFailed(s) then c.n <= s.next else s.claimed == Min(s.next, c.n))
    && (forall i :: 0 <= i < |s.workers| ==> WorkerOk(c, s, i))
    && forall p: nat :: OwnedOnce(s, p)
  }

  ghost predicate OwnedOnce(s: State, p: nat) {
    Sum(Owner(p), s.workers) == if p < s.claimed then 1 else 0
  }

  ghost predicate WorkerOk(c: Config, s: State, i: nat)
    requires i < |s.workers|
  {
    var w := s.workers[i];
    && (forall k :: 0 <= k < |w.acc| ==> w.acc[k] < c.n && c.readable(w.acc[k]))
    && (w.Folding? || w.Failed? ==> w.pos <= w.end <= c.n)
    && (w.Failed? ==> w.pos < w.end && !c.readable(w.pos))
  }

  lemma {:induction false} CountAppend(acc: seq<nat>, x: nat, p: nat)
    ensures Count(acc + [x], p) == Count(acc, p) + if x == p then 1 else 0
  {
    if acc != [] {
      assert (acc + [x])[1..] == acc[1..] + [x];
      CountAppend(acc[1..], x, p);
    }
  }

  lemma {:induction false} NobodyYet(ws: seq<Worker>, p: nat)
    requires forall i :: 0 <= i < |ws| ==> ws[i] == Claiming([])
    ensures Sum(Owner(p), ws) == 0
  {
    if ws != [] { NobodyYet(ws[1..], p); }
  }

  lemma InitInv(c: Config, s: State)
    requires Init(c, s)
    ensures Inv(c, s)
  {
    forall p: nat ensures OwnedOnce(s, p) { NobodyYet(s.workers, p); }
  }

  lemma StepOwned(c: Config, s: State, t: State, i: nat, p: nat)
    requires Inv(c, s) && StepOf(c, s, t, i)
    ensures OwnedOnce(t, p)
  {
    assert OwnedOnce(s, p) && WorkerOk(c, s, i);
    SumSet(Owner(p), s.workers, i, t.workers[i]);
    assert t.workers == s.workers[i := t.workers[i]];
    if Fold(c, s, t, i) { CountAppend(s.workers[i].acc, s.workers[i].pos, p); }
  }

  lemma StepInv(c: Config, s: State, t: State, i: nat)
    requires Inv(c, s) && StepOf(c, s, t, i)
    ensures Inv(c, t)
  {
    forall p: nat ensures OwnedOnce(t, p) { StepOwned(c, s, t, i, p); }
    assert WorkerOk(c, s, i);
    forall j | 0 <= j < |t.workers| ensures WorkerOk(c, t, j) {
      assert WorkerOk(c, s, j);
    }
    if Fail(c, s, t, i) { assert t.workers[i].Failed?; }
    if AnyFailed(s) {
      var j :| 0 <= j < |s.workers| && s.workers[j].Failed?;
      assert t.workers[j].Failed?;
    }
    if AnyFailed(t) && !Fail(c, s, t, i) {
      var j :| 0 <= j < |t.workers| && t.workers[j].Failed?;
      assert s.workers[j].Failed?;
    }
  }

  predicate Running(s: State, i: nat) {
    i < |s.workers| && !s.workers[i].Finished? && !s.workers[i].Failed?
  }

  // ---- whole runs ----

  ghost predicate Run(c: Config, run: seq<State>) {
    |run| > 0 && Init(c, run[0]) && forall k :: 0 <= k < |run| - 1 ==> StepAt(c, run, k)
  }

  ghost predicate StepAt(c: Config, run: seq<State>, k: nat)
    requires k + 1 < |run|
  {
    Step(c, run[k], run[k + 1])
  }

  lemma {:induction false} RunInv(c: Config, run: seq<State>, k: nat)
    requires Run(c, run) && k < |run|
    ensures Inv(c, run[k])
  {
    if k == 0 {
      InitInv(c, run[0]);
    } else {
      RunInv(c, run, k - 1);
      assert StepAt(c, run, k - 1);
      var i: nat :| StepOf(c, run[k - 1], run[k], i);
      StepInv(c, run[k - 1], run[k], i);
    }
  }

  /** Everything folded, worker after worker. */
  function Folded(ws: seq<Worker>): seq<nat> {
    if ws == [] then [] else ws[0].acc + Folded(ws[1..])
  }

  lemma {:induction false} CountConcat(a: seq<nat>, b: seq<nat>, p: nat)
    ensures Count(a + b, p) == Count(a, p) + Count(b, p)
  {
    if a == [] {
      assert a + b == b;
    } else {
      assert (a + b)[1..] == a[1..] + b;
      CountConcat(a[1..], b, p);
    }
  }

  lemma {:induction false} FoldedCount(ws: seq<Worker>, p: nat)
    requires forall i :: 0 <= i < |ws| ==> ws[i].Finished?
    ensures Count(Folded(ws), p) == Sum(Owner(p), ws)
  {
    if ws != [] {
      CountConcat(ws[0].acc, Folded(ws[1..]), p);
      FoldedCount(ws[1..], p);
    }
  }

  /**
   When every worker has stopped: the sweep has failed exactly if some document is unreadable, and
   otherwise every position was folded exactly once, by exactly one worker.
   */
  lemma SweepOutcome(c: Config, run: seq<State>)
    requires Run(c, run) && Over(run[|run| - 1])
    ensures var s := run[|run| - 1];
            && (AnyFailed(s) <==> exists p :: 0 <= p < c.n && !c.readable(p))
            && (!AnyFailed(s) ==> forall p: nat :: Count(Folded(s.workers), p) == if p < c.n then 1 else 0)
  {
    var s := run[|run| - 1];
    RunInv(c, run, |run| - 1);
    if AnyFailed(s) {
      var i :| 0 <= i < |s.workers| && s.workers[i].Failed?;
      assert WorkerOk(c, s, i);
    } else {
      CounterPastEnd(c, run);
      forall p: nat ensures Count(Folded(s.workers), p) == if p < c.n then 1 else 0 {
        assert OwnedOnce(s, p);
        FoldedCount(s.workers, p);
      }
      forall p | 0 <= p < c.n ensures c.readable(p) {
        assert OwnedOnce(s, p);
        var i := SumPositive(Owner(p), s.workers);
        CountIn(s.workers[i].acc, p);
        assert WorkerOk(c, s, i);
      }
    }
  }

  lemma {:induction false} CountIn(acc: seq<nat>, p: nat)
    ensures Count(acc, p) > 0 <==> p in acc
  {
    if acc != [] { CountIn(acc[1..], p); }
  }

  /** A worker only goes home when the counter has passed the end, and the counter stays there. */
  lemma {:induction false} CounterPastEndAt(c: Config, run: seq<State>, k: nat, i: nat)
    requires Run(c, run) && k < |run| && i < |run[k].workers| && run[k].workers[i].Finished?
    ensures c.n <= run[k].next
  {
    if k > 0 {
      assert StepAt(c, run, k - 1);
      var j: nat :| StepOf(c, run[k - 1], run[k], j);
      if run[k - 1].workers[i].Finished? { CounterPastEndAt(c, run, k - 1, i); }
    }
  }

  lemma {:induction false} WorkersStay(c: Config, run: seq<State>, k: nat)
    requires Run(c, run) && k < |run|
    ensures |run[k].workers| == |run[0].workers| > 0
  {
    if k > 0 {
      WorkersStay(c, run, k - 1);
      assert StepAt(c, run, k - 1);
    }
  }

  lemma CounterPastEnd(c: Config, run: seq<State>)
    requires Run(c, run) && Over(run[|run| - 1]) && !AnyFailed(run[|run| - 1])
    ensures c.n <= run[|run| - 1].next
  {
    WorkersStay(c, run, |run| - 1);
    CounterPastEndAt(c, run, |run| - 1, 0);
  }

  // ---- progress ----

  function Weight(w: Worker): nat {
    match w
    case Claiming(_) => 1
    case Folding(_, pos, end) => 2 + 2 * (if pos < end then end - pos else 0)
    case Finished(_) => 0
    case Failed(_, _, _) => 0
  }

  function Measure(c: Config, s: State): nat {
    4 * (if s.claimed < c.n then c.n - s.claimed else 0) + Sum(Weight, s.workers)
  }

  /** Every step makes progress, so every run is finite: at most `4 n + workers` steps. */
  lemma StepDecreases(c: Config, s: State, t: State, i: nat)
    requires Inv(c, s) && StepOf(c, s, t, i)
    ensures Measure(c, t) < Measure(c, s)
  {
    assert WorkerOk(c, s, i);
    SumSet(Weight, s.workers, i, t.workers[i]);
    assert t.workers == s.workers[i := t.workers[i]];
    if Claim(c, s, t, i) && s.next < c.n && AnyFailed(s) { assert false; }
  }

  /** A worker that has not stopped can always take its next step. */
  lemma NeverStuck(c: Config, s: State, i: nat)
    requires Inv(c, s) && Running(s, i)
    ensures exists t :: Step(c, s, t)
  {
    var w := s.workers[i];
    assert WorkerOk(c, s, i);
    var t := if w.Claiming? then
               if s.next >= c.n then s.(next := s.next + c.chunk, workers := s.workers[i := Finished(w.acc)])
               else State(s.next + c.chunk, s.workers[i := Folding(w.acc, s.next, Min(s.next + c.chunk, c.n))],
                   Min(s.next + c.chunk, c.n))
             else if w.pos == w.end then s.(workers := s.workers[i := Claiming(w.acc)])
             else if c.readable(w.pos) then s.(workers := s.workers[i := Folding(w.acc + [w.pos], w.pos + 1, w.end)])
             else s.(next := c.n, workers := s.workers[i := Failed(w.acc, w.pos, w.end)]);
    assert StepOf(c, s, t, i);
    assert Step(c, s, t);
  }

  /** Every sweep, however it began, can be played to its end. */
  lemma {:induction false} CanFinish(c: Config, run: seq<State>) returns (more: seq<State>)
    requires Run(c, run)
    ensures Run(c, more) && run <= more && Over(more[|more| - 1])
    decreases Measure(c, run[|run| - 1])
  {
    var s := run[|run| - 1];
    RunInv(c, run, |run| - 1);
    if Over(s) {
      more := run;
    } else {
      var i :| 0 <= i < |s.workers| && !s.workers[i].Finished? && !s.workers[i].Failed?;
      NeverStuck(c, s, i);
      var t :| Step(c, s, t);
      var j: nat :| StepOf(c, s, t, j);
      StepDecreases(c, s, t, j);
      forall k | 0 <= k < |run| ensures StepAt(c, run + [t], k) {
        assert k + 1 < |run| ==> StepAt(c, run, k);
      }
      more := CanFinish(c, run + [t]);
    }
  }

  // ---- collecting results ----

  /** The documents among `acc` for which `f` answers, with their positions. */
  function Hits<R>(acc: seq<nat>, f: nat -> Option<R>): seq<(nat, R)> {
    if acc == [] then []
    else (match f(acc[0]) case Some(v) => [(acc[0], v)] case None => []) + Hits(acc[1..], f)
  }

  lemma {:induction false} HitsMembers<R>(acc: seq<nat>, f: nat -> Option<R>, x: (nat, R))
    ensures x in Hits(acc, f) <==> x.0 in acc && f(x.0) == Some(x.1)
  {
    if acc != [] { HitsMembers(acc[1..], f, x); }
  }

  lemma {:induction false} HitsDistinct<R>(acc: seq<nat>, f: nat -> Option<R>)
    requires forall p: nat :: Count(acc, p) <= 1
    ensures forall i, j :: 0 <= i < j < |Hits(acc, f)| ==> Hits(acc, f)[i].0 != Hits(acc, f)[j].0
  {
    if acc != [] {
      forall p: nat ensures Count(acc[1..], p) <= 1 { assert Count(acc, p) <= 1; }
      HitsDistinct(acc[1..], f);
      CountIn(acc[1..], acc[0]);
      assert Count(acc, acc[0]) <= 1;
      var rest := Hits(acc[1..], f);
      forall k | 0 <= k < |rest| ensures rest[k].0 != acc[0] { HitsMembers(acc[1..], f, rest[k]); }
    }
  }

  function Upto(from: nat, n: nat): (r: seq<nat>)
    requires from <= n
    ensures |r| == n - from && forall k :: 0 <= k < |r| ==> r[k] == from + k
    decreases n - from
  {
    if from == n then [] else [from] + Upto(from + 1, n)
  }

  lemma {:induction false} HitsInOrder<R>(from: nat, n: nat, f: nat -> Option<R>)
    requires from <= n
    ensures StrictlyBy((x: (nat, R)) => x.0, Hits(Upto(from, n), f))
    ensures forall k :: 0 <= k < |Hits(Upto(from, n), f)| ==> from <= Hits(Upto(from, n), f)[k].0
    decreases n - from
  {
    if from < n {
      assert Upto(from, n)[1..] == Upto(from + 1, n);
      HitsInOrder(from + 1, n, f);
    }
  }

  /** The workers' hits, sorted by position, are what one pass over the documents in order finds. */
  lemma ParSweepIsSequential<R(!new)>(folded: seq<nat>, n: nat, f: nat -> Option<R>)
    requires forall p: nat :: Count(folded, p) == if p < n then 1 else 0
    ensures Sort(KeyOrder((x: (nat, R)) => x.0), Hits(folded, f)) == Hits(Upto(0, n), f)
  {
    var key, all := (x: (nat, R)) => x.0, Upto(0, n);
    HitsDistinct(folded, f);
    SortByKey(key, Hits(folded, f));
    HitsInOrder(0, n, f);
    var s, t := Sort(KeyOrder(key), Hits(folded, f)), Hits(all, f);
    forall x: (nat, R) | true ensures x in s <==> x in t {
      HitsMembers(folded, f, x);
      HitsMembers(all, f, x);
      CountIn(folded, x.0);
      if x.0 < n { assert all[x.0] == x.0; }
    }
    AscendingUnique(key, s, t);
  }

  /** What the caller gets from a sweep that is over: an error, or the workers' hits sorted by position. */
  ghost function Collected<R(!new)>(s: State, f: nat -> Option<R>): Option<seq<(nat, R)>> {
    if AnyFailed(s) then None else Some(Sort(KeyOrder((x: (nat, R)) => x.0), Hits(Folded(s.workers), f)))
  }

  /** Every schedule of the workers gives what one pass over the documents in order gives. */
  lemma EverySweepIsSequential<R(!new)>(c: Config, run: seq<State>, f: nat -> Option<R>)
    requires Run(c, run) && Over(run[|run| - 1])
    ensures Collected(run[|run| - 1], f) == if exists p :: 0 <= p < c.n && !c.readable(p) then None
                                            else Some(Hits(Upto(0, c.n), f))
  {
    SweepOutcome(c, run);
    if !AnyFailed(run[|run| - 1]) { ParSweepIsSequential(Folded(run[|run| - 1].workers), c.n, f); }
  }
}

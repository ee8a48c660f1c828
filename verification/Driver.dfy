/**
 The ordered parallel driver as an interleaving of worker and coordinator steps: a permit
 semaphore (mutex and condition variable) bounds the runs in flight, workers draw ranks from a
 shared counter, and the coordinator re-emits results in rank order through a reorder buffer.
 */
module Driver {
  import opened Sums

  /** `Seeking`, `Asleep` and `Woken` are the three places inside `acquire`, `Notifying` that inside `release`. */
  datatype Worker =
    | Seeking
    | Asleep
    | Woken
    | Permitted
    | Working(rank: nat)
    | Ready(rank: nat)
    | Leaving
    | Notifying
    | Exited

  /** `Waking` is the coordinator's place inside `release`, between giving back the permit and the notification. */
  datatype Coordinator = Receiving | Draining | Releasing | Waking | Finished

  datatype State<R> = State(
    permits: nat,
    next: nat,
    workers: seq<Worker>,
    channel: seq<(nat, R)>,
    buffer: map<nat, R>,
    coordinator: Coordinator,
    nextEmit: nat,
    emitted: seq<R>)

  datatype Config<!R> = Config(start: nat, end: nat, cap: nat, process: nat -> R)

  // ---- steps ----

  ghost predicate IsWorker<R(!new)>(s: State<R>, i: nat, w: Worker) {
    i < |s.workers| && s.workers[i] == w
  }

  function SetWorker<R>(s: State<R>, i: nat, w: Worker): State<R>
    requires i < |s.workers|
  {
    s.(workers := s.workers[i := w])
  }

  /** `acquire` finds a permit, on its first look or after being woken. */
  ghost predicate Acquire<R(!new)>(s: State<R>, t: State<R>, i: nat) {
    && (IsWorker(s, i, Seeking) || IsWorker(s, i, Woken)) && s.permits > 0
    && t == SetWorker(s, i, Permitted).(permits := s.permits - 1)
  }

  /** `acquire` finds none and waits on the condition variable. */
  ghost predicate Wait<R(!new)>(s: State<R>, t: State<R>, i: nat) {
    && (IsWorker(s, i, Seeking) || IsWorker(s, i, Woken)) && s.permits == 0
    && t == SetWorker(s, i, Asleep)
  }

  /** The notification inside `release`: some sleeper (if there is one) is woken. */
  ghost predicate Notified<R(!new)>(s: State<R>, t: State<R>) {
    || (exists j: nat :: IsWorker(s, j, Asleep) && t == SetWorker(s, j, Woken))
    || ((forall j: nat :: !IsWorker(s, j, Asleep)) && t == s)
  }

  /** The shared counter is bumped; a rank past the end sends the worker away. */
  ghost predicate TakeRank<R(!new)>(c: Config<R>, s: State<R>, t: State<R>, i: nat) {
    && IsWorker(s, i, Permitted)
    && t == SetWorker(s, i, if s.next < c.end then Working(s.next) else Leaving).(next := s.next + 1)
  }

  /** The permit is given back under the lock; the notification follows outside it. */
  ghost predicate Leave<R(!new)>(s: State<R>, t: State<R>, i: nat) {
    IsWorker(s, i, Leaving) && t == SetWorker(s, i, Notifying).(permits := s.permits + 1)
  }

  ghost predicate NotifyLeft<R(!new)>(s: State<R>, t: State<R>, i: nat) {
    IsWorker(s, i, Notifying) && Notified(SetWorker(s, i, Exited), t)
  }

  ghost predicate Process<R(!new)>(s: State<R>, t: State<R>, i: nat) {
    i < |s.workers| && s.workers[i].Working? && t == SetWorker(s, i, Ready(s.workers[i].rank))
  }

  ghost predicate Send<R(!new)>(c: Config<R>, s: State<R>, t: State<R>, i: nat) {
    && i < |s.workers| && s.workers[i].Ready?
    && t == SetWorker(s, i, Seeking).(channel := s.channel + [(s.workers[i].rank, c.process(s.workers[i].rank))])
  }

  ghost predicate Receive<R(!new)>(s: State<R>, t: State<R>) {
    && s.coordinator.Receiving? && s.channel != []
    && t == s.(channel := s.channel[1..], buffer := s.buffer[s.channel[0].0 := s.channel[0].1], coordinator := Draining)
  }

  ghost predicate Emit<R(!new)>(s: State<R>, t: State<R>) {
    && s.coordinator.Draining? && s.nextEmit in s.buffer
    && t == s.(buffer := s.buffer - {s.nextEmit}, emitted := s.emitted + [s.buffer[s.nextEmit]],
               nextEmit := s.nextEmit + 1, coordinator := Releasing)
  }

  ghost predicate ReleaseEmitted<R(!new)>(s: State<R>, t: State<R>) {
    s.coordinator.Releasing? && t == s.(coordinator := Waking, permits := s.permits + 1)
  }

  ghost predicate NotifyEmitted<R(!new)>(s: State<R>, t: State<R>) {
    s.coordinator.Waking? && Notified(s.(coordinator := Draining), t)
  }

  ghost predicate Drained<R(!new)>(s: State<R>, t: State<R>) {
    s.coordinator.Draining? && s.nextEmit !in s.buffer && t == s.(coordinator := Receiving)
  }

  /** All senders are gone and the channel is empty: the receive loop ends. */
  ghost predicate Close<R(!new)>(s: State<R>, t: State<R>) {
    && s.coordinator.Receiving? && s.channel == [] && (forall i :: 0 <= i < |s.workers| ==> s.workers[i].Exited?)
    && t == s.(coordinator := Finished)
  }

  ghost predicate WorkerStep<R(!new)>(c: Config<R>, s: State<R>, t: State<R>, i: nat) {
    || Acquire(s, t, i) || Wait(s, t, i) || TakeRank(c, s, t, i) || Leave(s, t, i) || NotifyLeft(s, t, i)
    || Process(s, t, i) || Send(c, s, t, i)
  }

  ghost predicate CoordinatorStep<R(!new)>(s: State<R>, t: State<R>) {
    Receive(s, t) || Emit(s, t) || ReleaseEmitted(s, t) || NotifyEmitted(s, t) || Drained(s, t) || Close(s, t)
  }

  /** The condition variable wakes a sleeper for no reason; `acquire` loops because of this. */
  ghost predicate WakeForNothing<R(!new)>(s: State<R>, t: State<R>, i: nat) {
    IsWorker(s, i, Asleep) && t == SetWorker(s, i, Woken)
  }

  /** A step of the program itself. */
  ghost predicate ProperStep<R(!new)>(c: Config<R>, s: State<R>, t: State<R>) {
    CoordinatorStep(s, t) || exists i: nat :: WorkerStep(c, s, t, i)
  }

  ghost predicate Step<R(!new)>(c: Config<R>, s: State<R>, t: State<R>) {
    ProperStep(c, s, t) || exists i: nat :: WakeForNothing(s, t, i)
  }

  ghost predicate Init<R(!new)>(c: Config<R>, s: State<R>) {
    && c.start <= c.end && c.cap > 0 && |s.workers| > 0 && (forall i :: 0 <= i < |s.workers| ==> s.workers[i].Seeking?)
    && s.permits == c.cap && s.next == s.nextEmit == c.start && s.channel == [] && s.buffer == map[]
    && s.coordinator.Receiving? && s.emitted == []
  }

  // ---- counting over workers ----

  /** A worker that holds a permit but no rank. */
  function IdleHolder(w: Worker): nat { if w.Permitted? || w.Leaving? then 1 else 0 }
  function Sleeper(w: Worker): nat { if w.Asleep? then 1 else 0 }
  /** A worker on its way to a free permit, or about to send one there. */
  function OnTheWay(w: Worker): nat { if w.Woken? || w.Notifying? then 1 else 0 }

  function RankHolder(w: Worker): nat { if w.Working? || w.Ready? then 1 else 0 }
  function Holds(w: Worker, r: nat): nat { if (w.Working? || w.Ready?) && w.rank == r then 1 else 0 }

  /** How many workers hold rank `r`. */
  function Holding(ws: seq<Worker>, r: nat): nat {
    if ws == [] then 0 else Holds(ws[0], r) + Holding(ws[1..], r)
  }

  lemma {:induction false} HoldingSet(ws: seq<Worker>, i: nat, w: Worker, r: nat)
    requires i < |ws|
    ensures Holding(ws[i := w], r) + Holds(ws[i], r) == Holding(ws, r) + Holds(w, r)
  {
    if i > 0 {
      assert ws[i := w][1..] == ws[1..][i - 1 := w];
      HoldingSet(ws[1..], i - 1, w, r);
    } else {
      assert ws[i := w][1..] == ws[1..];
    }
  }

  /** How many messages in the channel carry rank `r`. */
  function Sent<R>(ch: seq<(nat, R)>, r: nat): nat {
    if ch == [] then 0 else (if ch[0].0 == r then 1 else 0) + Sent(ch[1..], r)
  }

  lemma {:induction false} SentAppend<R>(ch: seq<(nat, R)>, x: (nat, R), r: nat)
    ensures Sent(ch + [x], r) == Sent(ch, r) + if x.0 == r then 1 else 0
  {
    if ch != [] {
      assert (ch + [x])[1..] == ch[1..] + [x];
      SentAppend(ch[1..], x, r);
    }
  }

  // ---- the invariant ----

  function Min(a: nat, b: nat): nat { if a < b then a else b }

  /** In how many places rank `r` is between being taken and being emitted. */
  ghost function Places<R(!new)>(s: State<R>, r: nat): nat {
    Holding(s.workers, r) + Sent(s.channel, r) + if r in s.buffer then 1 else 0
  }

  /** Runs taken from the counter and not yet emitted, wherever they are. */
  function InFlight<R(!new)>(s: State<R>): nat {
    Sum(RankHolder, s.workers) + |s.channel| + |s.buffer|
  }

  ghost predicate Faithful<R(!new)>(c: Config<R>, s: State<R>) {
    && (forall k :: 0 <= k < |s.channel| ==> s.channel[k].1 == c.process(s.channel[k].0))
    && (forall r :: r in s.buffer ==> s.buffer[r] == c.process(r))
    && |s.emitted| == s.nextEmit - c.start
    && (forall k :: 0 <= k < |s.emitted| ==> s.emitted[k] == c.process(c.start + k))
  }

  ghost function Owed<R(!new)>(s: State<R>): nat {
    if s.coordinator.Releasing? then 1 else 0
  }

  ghost predicate Located<R(!new)>(c: Config<R>, s: State<R>, r: nat) {
    Places(s, r) == if s.nextEmit <= r < Min(s.next, c.end) then 1 else 0
  }

  /** Every taken, un-emitted rank is in exactly one place, and permits are conserved. */
  ghost predicate Conserved<R(!new)>(c: Config<R>, s: State<R>, owed: nat) {
    && c.start <= s.nextEmit <= Min(s.next, c.end) && c.start <= c.end && c.cap > 0 && |s.workers| > 0
    && (forall r: nat :: Located(c, s, r))
    && InFlight(s) == Min(s.next, c.end) - s.nextEmit
    && s.permits + Sum(IdleHolder, s.workers) + InFlight(s) + owed == c.cap
  }

  /** The coordinator is about to notify. */
  ghost function Promised<R(!new)>(s: State<R>): nat {
    if s.coordinator.Waking? then 1 else 0
  }

  /** While anyone sleeps, every free permit has a woken worker on its way to it, or a notification yet to come. */
  ghost predicate NoLostWakeup<R(!new)>(s: State<R>) {
    Sum(Sleeper, s.workers) > 0 ==> Sum(OnTheWay, s.workers) + Promised(s) >= s.permits
  }

  predicate OnItsWayOut(w: Worker) {
    w.Leaving? || w.Notifying? || w.Exited?
  }

  ghost predicate Ordered<R(!new)>(c: Config<R>, s: State<R>) {
    && (forall i :: 0 <= i < |s.workers| && OnItsWayOut(s.workers[i]) ==> s.next >= c.end)
    && (s.coordinator.Receiving? || s.coordinator.Finished? ==> s.nextEmit !in s.buffer)
    && (s.coordinator.Finished? ==> s.channel == [] && forall i :: 0 <= i < |s.workers| ==> s.workers[i].Exited?)
  }

  ghost predicate Inv<R(!new)>(c: Config<R>, s: State<R>) {
    Conserved(c, s, Owed(s)) && NoLostWakeup(s) && Ordered(c, s) && Faithful(c, s)
  }

  lemma InitInv<R(!new)>(c: Config<R>, s: State<R>)
    requires Init(c, s)
    ensures Inv(c, s)
  {
    AllSeeking(s.workers);
  }

  lemma {:induction false} AllSeeking(ws: seq<Worker>)
    requires forall i :: 0 <= i < |ws| ==> ws[i].Seeking?
    ensures Sum(IdleHolder, ws) == 0 && Sum(Sleeper, ws) == 0 && Sum(RankHolder, ws) == 0
    ensures forall r: nat :: Holding(ws, r) == 0
  {
    if ws != [] { AllSeeking(ws[1..]); }
  }

  /** How one worker's move changes every count. */
  lemma Moved(ws: seq<Worker>, i: nat, w: Worker)
    requires i < |ws|
    ensures Sum(IdleHolder, ws[i := w]) + IdleHolder(ws[i]) == Sum(IdleHolder, ws) + IdleHolder(w)
    ensures Sum(RankHolder, ws[i := w]) + RankHolder(ws[i]) == Sum(RankHolder, ws) + RankHolder(w)
    ensures Sum(Sleeper, ws[i := w]) + Sleeper(ws[i]) == Sum(Sleeper, ws) + Sleeper(w)
    ensures Sum(OnTheWay, ws[i := w]) + OnTheWay(ws[i]) == Sum(OnTheWay, ws) + OnTheWay(w)
  {
    SumSet(IdleHolder, ws, i, w);
    SumSet(RankHolder, ws, i, w);
    SumSet(Sleeper, ws, i, w);
    SumSet(OnTheWay, ws, i, w);
  }

  /** A worker that moves without changing its rank leaves every rank where it was. */
  lemma LocatedStill<R(!new)>(c: Config<R>, s: State<R>, t: State<R>, i: nat, w: Worker)
    requires i < |s.workers| && t.workers == s.workers[i := w] && t.channel == s.channel && t.buffer == s.buffer
    requires t.nextEmit == s.nextEmit && t.next == s.next && (forall r: nat :: Located(c, s, r))
    requires forall r: nat :: Holds(w, r) == Holds(s.workers[i], r)
    ensures forall r: nat :: Located(c, t, r)
  {
    forall r: nat ensures Located(c, t, r) {
      assert Located(c, s, r);
      HoldingSet(s.workers, i, w, r);
    }
  }

  lemma NoSleeper(ws: seq<Worker>)
    ensures Sum(Sleeper, ws) == 0 <==> forall j :: 0 <= j < |ws| ==> !ws[j].Asleep?
  {
    SumZero(Sleeper, ws);
    if forall j :: 0 <= j < |ws| ==> Sleeper(ws[j]) == 0 {
      forall j | 0 <= j < |ws| ensures !ws[j].Asleep? { assert Sleeper(ws[j]) == 0; }
    }
  }

  /** Whoever notifies: a sleeper takes over the promise, or there is none to keep it for. */
  lemma NotifiedKeeps<R(!new)>(c: Config<R>, s: State<R>, t: State<R>, owed: nat)
    requires Notified(s, t) && Conserved(c, s, owed) && Ordered(c, s) && Faithful(c, s)
    requires Sum(Sleeper, s.workers) > 0 ==> Sum(OnTheWay, s.workers) + Promised(s) + 1 >= s.permits
    ensures Conserved(c, t, owed) && NoLostWakeup(t) && Ordered(c, t) && Faithful(c, t)
            && t.coordinator == s.coordinator
  {
    NoSleeper(s.workers);
    if j: nat :| IsWorker(s, j, Asleep) && t == SetWorker(s, j, Woken) {
      Moved(s.workers, j, Woken);
      LocatedStill(c, s, t, j, Woken);
    } else {
      forall j | 0 <= j < |s.workers| ensures !s.workers[j].Asleep? { assert !IsWorker(s, j, Asleep); }
    }
  }

  lemma WorkerKeeps<R(!new)>(c: Config<R>, s: State<R>, t: State<R>, i: nat)
    requires Inv(c, s) && WorkerStep(c, s, t, i)
    ensures Inv(c, t)
  {
    if Acquire(s, t, i) || Wait(s, t, i) || Leave(s, t, i) || Process(s, t, i) {
      KeepsRank(c, s, t, i);
    } else if TakeRank(c, s, t, i) {
      TakeRankKeeps(c, s, t, i);
    } else if NotifyLeft(s, t, i) {
      NotifyLeftKeeps(c, s, t, i);
    } else {
      SendKeeps(c, s, t, i);
    }
  }

  lemma KeepsRank<R(!new)>(c: Config<R>, s: State<R>, t: State<R>, i: nat)
    requires Inv(c, s) && (Acquire(s, t, i) || Wait(s, t, i) || Leave(s, t, i) || Process(s, t, i))
    ensures Inv(c, t)
  {
    Moved(s.workers, i, t.workers[i]);
    LocatedStill(c, s, t, i, t.workers[i]);
  }

  lemma NotifyLeftKeeps<R(!new)>(c: Config<R>, s: State<R>, t: State<R>, i: nat)
    requires Inv(c, s) && NotifyLeft(s, t, i)
    ensures Inv(c, t)
  {
    var mid := SetWorker(s, i, Exited);
    Moved(s.workers, i, Exited);
    LocatedStill(c, s, mid, i, Exited);
    NotifiedKeeps(c, mid, t, Owed(s));
  }

  lemma TakeRankKeeps<R(!new)>(c: Config<R>, s: State<R>, t: State<R>, i: nat)
    requires Inv(c, s) && TakeRank(c, s, t, i)
    ensures Inv(c, t)
  {
    Moved(s.workers, i, t.workers[i]);
    forall r: nat ensures Located(c, t, r) {
      assert Located(c, s, r);
      HoldingSet(s.workers, i, t.workers[i], r);
    }
  }

  lemma SendKeeps<R(!new)>(c: Config<R>, s: State<R>, t: State<R>, i: nat)
    requires Inv(c, s) && Send(c, s, t, i)
    ensures Inv(c, t)
  {
    var q := s.workers[i].rank;
    Moved(s.workers, i, Seeking);
    forall r: nat ensures Located(c, t, r) {
      assert Located(c, s, r);
      HoldingSet(s.workers, i, Seeking, r);
      SentAppend(s.channel, (q, c.process(q)), r);
    }
  }

  lemma CoordinatorKeeps<R(!new)>(c: Config<R>, s: State<R>, t: State<R>)
    requires Inv(c, s) && CoordinatorStep(s, t)
    ensures Inv(c, t)
  {
    if Receive(s, t) {
      ReceiveKeeps(c, s, t);
    } else if Emit(s, t) {
      EmitKeeps(c, s, t);
    } else if NotifyEmitted(s, t) {
      var mid := s.(coordinator := Draining);
      forall r: nat ensures Located(c, mid, r) { assert Located(c, s, r); }
      NotifiedKeeps(c, mid, t, 0);
    } else {
      forall r: nat ensures Located(c, t, r) { assert Located(c, s, r); }
    }
  }

  lemma ReceiveKeeps<R(!new)>(c: Config<R>, s: State<R>, t: State<R>)
    requires Inv(c, s) && Receive(s, t)
    ensures Inv(c, t)
  {
    var (q, v) := s.channel[0];
    assert v == s.channel[0].1 == c.process(q);
    assert Located(c, s, q);
    assert q !in s.buffer;
    assert t.buffer.Keys == s.buffer.Keys + {q};
    forall r: nat ensures Located(c, t, r) {
      assert Located(c, s, r);
    }
    forall k | 0 <= k < |t.channel| ensures t.channel[k].1 == c.process(t.channel[k].0) {
      assert t.channel[k] == s.channel[k + 1];
    }
  }

  lemma EmitLocates<R(!new)>(c: Config<R>, s: State<R>, t: State<R>)
    requires (forall r: nat :: Located(c, s, r)) && Emit(s, t) && s.nextEmit < Min(s.next, c.end)
    ensures forall r: nat :: Located(c, t, r)
  {
    forall r: nat ensures Located(c, t, r) {
      assert Located(c, s, r);
    }
  }

  lemma EmitKeeps<R(!new)>(c: Config<R>, s: State<R>, t: State<R>)
    requires Inv(c, s) && Emit(s, t)
    ensures Inv(c, t)
  {
    EmitConserves(c, s, t);
    EmitOrders(c, s, t);
  }

  lemma EmitConserves<R(!new)>(c: Config<R>, s: State<R>, t: State<R>)
    requires Inv(c, s) && Emit(s, t)
    ensures Conserved(c, t, 1)
  {
    assert Located(c, s, s.nextEmit);
    assert s.nextEmit < Min(s.next, c.end);
    EmitLocates(c, s, t);
    BufferShrinks(s.buffer, s.nextEmit);
  }

  lemma EmitOrders<R(!new)>(c: Config<R>, s: State<R>, t: State<R>)
    requires Ordered(c, s) && Faithful(c, s) && Emit(s, t)
    ensures Ordered(c, t) && Faithful(c, t)
  {
  }

  // ---- runs ----

  ghost predicate Run<R(!new)>(c: Config<R>, run: seq<State<R>>) {
    |run| > 0 && Init(c, run[0]) && forall i :: 0 <= i < |run| - 1 ==> StepAt(c, run, i)
  }

  ghost predicate StepAt<R(!new)>(c: Config<R>, run: seq<State<R>>, i: nat)
    requires i + 1 < |run|
  {
    Step(c, run[i], run[i + 1])
  }

  lemma {:induction false} RunInv<R(!new)>(c: Config<R>, run: seq<State<R>>, i: nat)
    requires Run(c, run) && i < |run|
    ensures Inv(c, run[i])
  {
    if i == 0 {
      InitInv(c, run[0]);
    } else {
      RunInv(c, run, i - 1);
      assert StepAt(c, run, i - 1);
      StepKeeps(c, run[i - 1], run[i]);
    }
  }

  lemma StepKeeps<R(!new)>(c: Config<R>, s: State<R>, t: State<R>)
    requires Inv(c, s) && Step(c, s, t)
    ensures Inv(c, t)
  {
    if CoordinatorStep(s, t) {
      CoordinatorKeeps(c, s, t);
    } else if i: nat :| WorkerStep(c, s, t, i) {
      WorkerKeeps(c, s, t, i);
    } else {
      var i: nat :| WakeForNothing(s, t, i);
      Moved(s.workers, i, Woken);
      LocatedStill(c, s, t, i, Woken);
    }
  }

  /**
   In every schedule: what has been emitted is an initial stretch of the ranks in ascending order,
   each once, with the result `process` gives; and permits free plus permits held always equal the
   cap, so the runs taken but not emitted never exceed it.
   */
  lemma EmitsInOrder<R(!new)>(c: Config<R>, run: seq<State<R>>, i: nat)
    requires Run(c, run) && i < |run|
    ensures var s := run[i];
            && |s.emitted| <= c.end - c.start
            && (forall k :: 0 <= k < |s.emitted| ==> s.emitted[k] == c.process(c.start + k))
            && s.permits + Sum(IdleHolder, s.workers) + InFlight(s) + Owed(s) == c.cap
            && InFlight(s) == Min(s.next, c.end) - s.nextEmit
  {
    RunInv(c, run, i);
  }

  /** A finished run has emitted every rank of the range. */
  lemma FinishedIsComplete<R(!new)>(c: Config<R>, run: seq<State<R>>, i: nat)
    requires Run(c, run) && i < |run| && run[i].coordinator.Finished?
    ensures run[i].emitted == seq(c.end - c.start, k requires 0 <= k < c.end - c.start => c.process(c.start + k))
    ensures run[i].permits == c.cap
  {
    RunInv(c, run, i);
    var s := run[i];
    AllExited(s.workers);
    assert s.workers[0].Exited?;
    assert Located(c, s, s.nextEmit);
  }

  lemma {:induction false} AllExited(ws: seq<Worker>)
    requires forall i :: 0 <= i < |ws| ==> ws[i].Exited?
    ensures Sum(IdleHolder, ws) == 0 && Sum(RankHolder, ws) == 0
    ensures forall r: nat :: Holding(ws, r) == 0
  {
    if ws != [] { AllExited(ws[1..]); }
  }

  // ---- no deadlock ----

  /** A worker that can move whatever the others do. */
  function Mover(w: Worker): nat { if w.Asleep? || w.Exited? then 0 else 1 }

  lemma MoverMoves<R(!new)>(c: Config<R>, s: State<R>, i: nat) returns (t: State<R>)
    requires i < |s.workers| && Mover(s.workers[i]) > 0
    ensures ProperStep(c, s, t)
  {
    var w := s.workers[i];
    match w {
      case Seeking | Woken =>
        t := if s.permits > 0 then SetWorker(s, i, Permitted).(permits := s.permits - 1) else SetWorker(s, i, Asleep);
      case Permitted =>
        t := SetWorker(s, i, if s.next < c.end then Working(s.next) else Leaving).(next := s.next + 1);
      case Working(r) =>
        t := SetWorker(s, i, Ready(r));
      case Ready(r) =>
        t := SetWorker(s, i, Seeking).(channel := s.channel + [(r, c.process(r))]);
      case Leaving =>
        t := SetWorker(s, i, Notifying).(permits := s.permits + 1);
      case Notifying =>
        t := CanNotify(SetWorker(s, i, Exited));
    }
    assert WorkerStep(c, s, t, i);
  }

  lemma CanNotify<R(!new)>(s: State<R>) returns (t: State<R>)
    ensures Notified(s, t)
  {
    if j: nat :| IsWorker(s, j, Asleep) {
      t := SetWorker(s, j, Woken);
    } else {
      t := s;
    }
  }

  lemma CoordinatorMoves<R(!new)>(c: Config<R>, s: State<R>) returns (t: State<R>)
    requires s.coordinator.Draining? || s.coordinator.Releasing? || s.coordinator.Waking?
             || (s.coordinator.Receiving? && s.channel != [])
    ensures ProperStep(c, s, t)
  {
    if s.coordinator.Releasing? {
      t := s.(coordinator := Waking, permits := s.permits + 1);
    } else if s.coordinator.Waking? {
      t := CanNotify(s.(coordinator := Draining));
    } else if s.coordinator.Receiving? {
      t := s.(channel := s.channel[1..], buffer := s.buffer[s.channel[0].0 := s.channel[0].1], coordinator := Draining);
    } else if s.nextEmit in s.buffer {
      t := s.(buffer := s.buffer - {s.nextEmit}, emitted := s.emitted + [s.buffer[s.nextEmit]],
          nextEmit := s.nextEmit + 1, coordinator := Releasing);
    } else {
      t := s.(coordinator := Receiving);
    }
    assert CoordinatorStep(s, t);
  }

  /**
   No reachable state is stuck, nor does it need an idle wake-up to go on: if every worker sleeps, no
   permit is free, so all of them sit on runs in the reorder buffer; the lowest of those is the next
   to emit, so the coordinator moves.
   */
  lemma NeverStuck<R(!new)>(c: Config<R>, s: State<R>)
    requires Inv(c, s) && !s.coordinator.Finished?
    ensures exists t :: ProperStep(c, s, t)
  {
    if !s.coordinator.Receiving? || s.channel != [] {
      var t := CoordinatorMoves(c, s);
    } else if Sum(Mover, s.workers) > 0 {
      var i := SumPositive(Mover, s.workers);
      var t := MoverMoves(c, s, i);
    } else {
      AllStill(s.workers);
      if Sum(Sleeper, s.workers) > 0 {
        EmptyBuffer(c, s);
        assert false;
      } else {
        NoSleeper(s.workers);
        assert ProperStep(c, s, s.(coordinator := Finished));
      }
    }
  }

  lemma {:induction false} AllStill(ws: seq<Worker>)
    requires Sum(Mover, ws) == 0
    ensures forall i :: 0 <= i < |ws| ==> ws[i].Asleep? || ws[i].Exited?
    ensures Sum(IdleHolder, ws) == 0 && Sum(RankHolder, ws) == 0 && Sum(OnTheWay, ws) == 0
    ensures forall r: nat :: Holding(ws, r) == 0
  {
    if ws != [] { AllStill(ws[1..]); }
  }

  /** With nothing in the channel or in hand, the next rank to emit would have to be buffered. */
  lemma EmptyBuffer<R(!new)>(c: Config<R>, s: State<R>)
    requires Inv(c, s) && s.coordinator.Receiving? && s.channel == []
    requires Sum(RankHolder, s.workers) == 0 && (forall r: nat :: Holding(s.workers, r) == 0)
    ensures s.buffer == map[]
  {
    assert Located(c, s, s.nextEmit);
    assert s.nextEmit >= Min(s.next, c.end);
    assert |s.buffer| == 0;
  }

  // ---- termination ----

  /** What a worker still has to do, counting the rest of the way of the run it holds. */
  function Effort(w: Worker): nat {
    match w
    case Seeking => 4
    case Asleep => 4
    case Woken => 4
    case Permitted => 3
    case Leaving => 2
    case Notifying => 1
    case Exited => 0
    case Working(_) => 11
    case Ready(_) => 10
  }

  function Restless(w: Worker): nat { if w.Seeking? || w.Woken? then 1 else 0 }

  function Stage(k: Coordinator): nat {
    match k case Finished => 0 case Receiving => 1 case Draining => 2 case Waking => 3 case Releasing => 4
  }

  /** Work left: ranks by how far they have come, workers by how far they are from exiting. */
  function Work<R(!new)>(c: Config<R>, s: State<R>): nat {
    10 * (c.end - Min(s.next, c.end)) + Sum(Effort, s.workers) + 5 * |s.channel| + 3 * |s.buffer| + Stage(s.coordinator)
  }

  /** Work left first, then workers that may still go to sleep. */
  function Measure<R(!new)>(c: Config<R>, s: State<R>): nat {
    Work(c, s) * (|s.workers| + 1) + Sum(Restless, s.workers)
  }

  lemma {:induction false} RestlessBound(ws: seq<Worker>)
    ensures Sum(Restless, ws) <= |ws|
  {
    if ws != [] { RestlessBound(ws[1..]); }
  }

  lemma WorkDecides<R(!new)>(c: Config<R>, s: State<R>, t: State<R>)
    requires |t.workers| == |s.workers| && Work(c, t) < Work(c, s)
    ensures Measure(c, t) < Measure(c, s)
  {
    RestlessBound(t.workers);
    LessWork(Work(c, t), Work(c, s), |s.workers| + 1);
  }

  lemma {:induction false} LessWork(a: nat, b: nat, n: nat)
    requires a < b
    ensures a * n + n <= b * n
  {
    if n > 0 {
      LessWork(a, b, n - 1);
      assert a * n == a * (n - 1) + a && b * n == b * (n - 1) + b;
    }
  }

  lemma NotifiedWork<R(!new)>(c: Config<R>, s: State<R>, t: State<R>)
    requires Notified(s, t)
    ensures Work(c, t) == Work(c, s) && |t.workers| == |s.workers|
  {
    if j: nat :| IsWorker(s, j, Asleep) && t == SetWorker(s, j, Woken) {
      SumSet(Effort, s.workers, j, Woken);
    }
  }

  /** Every step brings the run closer to its end; a wake-up for nothing costs the one step back to sleep. */
  lemma StepDecreases<R(!new)>(c: Config<R>, s: State<R>, t: State<R>)
    requires Inv(c, s) && Step(c, s, t)
    ensures if ProperStep(c, s, t) then Measure(c, t) < Measure(c, s) else Measure(c, t) == Measure(c, s) + 1
  {
    if ProperStep(c, s, t) {
      ProperStepDecreases(c, s, t);
    } else {
      var i: nat :| WakeForNothing(s, t, i);
      SumSet(Effort, s.workers, i, Woken);
      SumSet(Restless, s.workers, i, Woken);
    }
  }

  lemma ProperStepDecreases<R(!new)>(c: Config<R>, s: State<R>, t: State<R>)
    requires Inv(c, s) && ProperStep(c, s, t)
    ensures Measure(c, t) < Measure(c, s)
  {
    if CoordinatorStep(s, t) {
      CoordinatorWork(c, s, t);
      WorkDecides(c, s, t);
    } else {
      var i: nat :| WorkerStep(c, s, t, i);
      if Wait(s, t, i) {
        SumSet(Effort, s.workers, i, Asleep);
        SumSet(Restless, s.workers, i, Asleep);
      } else {
        WorkerWork(c, s, t, i);
        WorkDecides(c, s, t);
      }
    }
  }

  lemma CoordinatorWork<R(!new)>(c: Config<R>, s: State<R>, t: State<R>)
    requires CoordinatorStep(s, t)
    ensures Work(c, t) < Work(c, s) && |t.workers| == |s.workers|
  {
    if NotifyEmitted(s, t) {
      NotifiedWork(c, s.(coordinator := Draining), t);
    } else if Emit(s, t) {
      BufferShrinks(s.buffer, s.nextEmit);
    } else if Receive(s, t) {
      BufferGrows(s.buffer, s.channel[0].0, s.channel[0].1);
    }
  }

  lemma BufferShrinks<R(!new)>(b: map<nat, R>, k: nat)
    requires k in b
    ensures |b - {k}| + 1 == |b|
  {
    assert (b - {k}).Keys == b.Keys - {k};
    assert |b - {k}| == |(b - {k}).Keys| && |b| == |b.Keys|;
  }

  lemma BufferGrows<R(!new)>(b: map<nat, R>, k: nat, v: R)
    ensures |b[k := v]| <= |b| + 1
  {
    assert b[k := v].Keys == b.Keys + {k};
    assert |b[k := v]| == |b[k := v].Keys| && |b| == |b.Keys|;
  }

  lemma WorkerWork<R(!new)>(c: Config<R>, s: State<R>, t: State<R>, i: nat)
    requires WorkerStep(c, s, t, i) && !Wait(s, t, i)
    ensures Work(c, t) < Work(c, s) && |t.workers| == |s.workers|
  {
    if NotifyLeft(s, t, i) {
      SumSet(Effort, s.workers, i, Exited);
      NotifiedWork(c, SetWorker(s, i, Exited), t);
    } else {
      SumSet(Effort, s.workers, i, t.workers[i]);
    }
  }

  /** How many of the first `i` steps are wake-ups for nothing. */
  ghost function IdleWakes<R(!new)>(c: Config<R>, run: seq<State<R>>, i: nat): nat
    requires i < |run|
  {
    if i == 0 then 0 else IdleWakes(c, run, i - 1) + if ProperStep(c, run[i - 1], run[i]) then 0 else 1
  }

  /**
   No schedule runs forever: apart from two steps for every wake-up for nothing, a run has at most as
   many steps as the initial measure, which depends only on the number of ranks and workers. So every
   schedule that keeps taking the program's own steps reaches the end of the range.
   */
  lemma {:induction false} RunsAreShort<R(!new)>(c: Config<R>, run: seq<State<R>>, i: nat)
    requires Run(c, run) && i < |run|
    ensures Measure(c, run[i]) + i <= Measure(c, run[0]) + 2 * IdleWakes(c, run, i)
  {
    if i > 0 {
      RunsAreShort(c, run, i - 1);
      RunInv(c, run, i - 1);
      assert StepAt(c, run, i - 1);
      StepDecreases(c, run[i - 1], run[i]);
    }
  }

  /** Every schedule, however it began, can be played to its end by the program's own steps. */
  lemma {:induction false} CanFinish<R(!new)>(c: Config<R>, run: seq<State<R>>) returns (more: seq<State<R>>)
    requires Run(c, run)
    ensures Run(c, more) && run <= more && more[|more| - 1].coordinator.Finished?
    ensures forall i :: |run| <= i < |more| ==> ProperStep(c, more[i - 1], more[i])
    decreases Measure(c, run[|run| - 1])
  {
    var s := run[|run| - 1];
    RunInv(c, run, |run| - 1);
    if s.coordinator.Finished? {
      more := run;
    } else {
      NeverStuck(c, s);
      var t :| ProperStep(c, s, t);
      ProperStepDecreases(c, s, t);
      forall i | 0 <= i < |run| ensures StepAt(c, run + [t], i) {
        assert i + 1 < |run| ==> StepAt(c, run, i);
      }
      more := CanFinish(c, run + [t]);
      assert more[|run| - 1] == (run + [t])[|run| - 1] && more[|run|] == (run + [t])[|run|];
    }
  }

  lemma InitialMeasure<R(!new)>(c: Config<R>, s: State<R>)
    requires Init(c, s)
    ensures Measure(c, s) == (10 * (c.end - c.start) + 4 * |s.workers| + 1) * (|s.workers| + 1) + |s.workers|
  {
    SeekingSums(s.workers);
  }

  lemma {:induction false} SeekingSums(ws: seq<Worker>)
    requires forall i :: 0 <= i < |ws| ==> ws[i].Seeking?
    ensures Sum(Effort, ws) == 4 * |ws| && Sum(Restless, ws) == |ws|
  {
    if ws != [] { SeekingSums(ws[1..]); }
  }
}

/** Shutdown: when a worker can still stop, and the two places where its sentinel is lost. */
module Shutdown {
  import opened Sequences
  import opened RollupIndex
  import opened StorageProtocol
  import opened SessionInvariant
  import opened StorageSystem
  import opened WorkerRuns

  /** The worker has taken its sentinel: it drains, writes what it drained, or is closed. */
  predicate Stopping(ph: Phase) {
    match ph
    case Draining(_) | Closed => true
    case Writing(_, _, _, draining) => draining
    case Publishing(_, draining) => draining
    case Returning(_, draining) => draining
    case Raised(_, draining, _) => draining
    case Failing(_, draining) => draining
    case Idle | Collecting(_) | RollingBack => false
  }

  predicate StopPending(w: Worker) {
    None in w.intake.queue || Stopping(w.phase)
  }

  // ---- What each step does to a pending stop ----

  /** The only sentinel is met while collecting, and does not get back into the queue. */
  predicate LosesSentinel(cfg: Setup, w: Worker, a: Action) {
    && a.CollectMore? && TakingEnabled(cfg, w.intake.queue, w.phase, a)
    && w.intake.queue[0].None? && None !in w.intake.queue[1..]
    && (!a.requeued || Full(cfg, w.intake.queue[1..]))
  }

  lemma HeadOrRest(queue: seq<Option<Payload>>)
    requires queue != []
    ensures None in queue <==> queue[0].None? || None in queue[1..]
  {
    assert queue == [queue[0]] + queue[1..];
  }

  lemma ProducerAndStop(cfg: Setup, w: Worker, a: Action)
    requires OfProducer(a)
    ensures StopPending(DoProducer(cfg, w, a)) <==>
      StopPending(w) || (a.PutSentinel? && !Full(cfg, w.intake.queue))
  {
  }

  lemma TakingAndStop(cfg: Setup, w: Worker, a: Action)
    requires TakingEnabled(cfg, w.intake.queue, w.phase, a)
    ensures StopPending(DoTaking(cfg, w, a)) <==> StopPending(w) && !LosesSentinel(cfg, w, a)
  {
    if w.intake.queue != [] {
      HeadOrRest(w.intake.queue);
    }
  }

  lemma WritingAndStop(cfg: Setup, ph: Phase, s: Held, a: Action)
    requires WritingEnabled(cfg, ph, a)
    ensures Stopping(DoWriting(cfg, ph, s, a).0) == Stopping(ph)
  {
  }

  lemma WritingStepAndStop(cfg: Setup, w: Worker, a: Action)
    requires WritingEnabled(cfg, w.phase, a)
    ensures StopPending(DoLocal(cfg, w, a)) <==> StopPending(w)
  {
    WritingAndStop(cfg, w.phase, w.session, a);
  }

  lemma EndingAndStop(w: Worker, a: Action)
    requires EndingEnabled(w.intake.queue, w.phase, a)
    ensures DoEnding(w, a).intake == w.intake && Stopping(DoEnding(w, a).phase) == Stopping(w.phase)
  {
  }

  /**
   * A stop becomes pending only when a put sentinel finds room, and ceases to be pending only when the sentinel
   * is met while collecting and does not get back.
   */
  lemma StepAndStop(cfg: Setup, db: Db, w: Worker, a: Action)
    requires Enabled(cfg, w, a)
    ensures StopPending(Do(cfg, db, w, a).1) <==>
      || (StopPending(w) && !LosesSentinel(cfg, w, a))
      || (a.PutSentinel? && !Full(cfg, w.intake.queue))
  {
    if !a.CommitOk? {
      LocalStepAndStop(cfg, w, a);
    }
  }

  lemma LocalStepAndStop(cfg: Setup, w: Worker, a: Action)
    requires Enabled(cfg, w, a) && !a.CommitOk?
    ensures StopPending(DoLocal(cfg, w, a)) <==>
      || (StopPending(w) && !LosesSentinel(cfg, w, a))
      || (a.PutSentinel? && !Full(cfg, w.intake.queue))
  {
    if OfProducer(a) {
      ProducerAndStop(cfg, w, a);
    } else if OfTaking(a) {
      TakingAndStop(cfg, w, a);
    } else if OfWriting(a) {
      WritingStepAndStop(cfg, w, a);
    } else {
      EndingAndStop(w, a);
    }
  }

  // ---- The worker alone: every run ends ----

  /** Steps of the worker itself, with the place of a sentinel it puts back still free. */
  predicate Own(a: Action) {
    !OfProducer(a) && a != CollectMore(false)
  }

  function Times(n: nat, k: nat): nat {
    if n == 0 then 0 else Times(n - 1, k) + k
  }

  function Minus(a: nat, b: nat): nat {
    if a >= b then a - b else 0
  }

  /** The steps of inserting and rolling up one payload, at most. */
  function PerPayload(cfg: Setup): nat {
    |cfg.windows| + 3
  }

  /** The steps left in a phase, at most. */
  function PhaseWork(cfg: Setup, ph: Phase): nat {
    match ph
    case Idle | Closed => 0
    case RollingBack => 1
    case Returning(_, _) => 1
    case Failing(_, _) => 2
    case Raised(_, _, _) => 3
    case Publishing(_, _) => 3
    case Writing(b, next, stage, _) =>
      (match stage
       case Committing(tries) => 4 + Minus(COMMIT_ATTEMPTS, tries)
       case Inserting => 4 + COMMIT_ATTEMPTS + Times(Minus(|b|, next), PerPayload(cfg))
       case RollingUp(done) =>
         6 + COMMIT_ATTEMPTS + Minus(|cfg.windows|, done) + Times(Minus(|b|, next + 1), PerPayload(cfg)))
    case Collecting(b) => 5 + COMMIT_ATTEMPTS + Times(|b|, PerPayload(cfg))
    case Draining(b) => 5 + COMMIT_ATTEMPTS + Times(|b|, PerPayload(cfg))
  }

  /** The steps left for the worker alone, at most. */
  function Work(cfg: Setup, w: Worker): nat {
    PhaseWork(cfg, w.phase) + Times(|w.intake.queue|, PerPayload(cfg) + 6 + COMMIT_ATTEMPTS)
  }

  lemma {:induction false} BucketsFewerThanWindows(windows: seq<string>, row: EventRow)
    ensures |Buckets(windows, row)| <= |windows|
  {
    if windows != [] {
      BucketsFewerThanWindows(windows[..|windows| - 1], row);
    }
  }

  lemma FromNext(cfg: Setup, batch: seq<Payload>, next: nat, draining: bool)
    ensures PhaseWork(cfg, WriteFrom(batch, next, draining))
      == 4 + COMMIT_ATTEMPTS + Times(Minus(|batch|, next), PerPayload(cfg))
  {
  }

  lemma RollUpSpends(cfg: Setup, ph: Phase, s: Held, a: Action)
    requires OfRollUp(a) && RollUpEnabled(cfg, ph, a)
    ensures PhaseWork(cfg, DoRollUp(cfg, ph, s, a).0) < PhaseWork(cfg, ph)
  {
    BucketsFewerThanWindows(cfg.windows, ph.batch[ph.next].row);
    FromNext(cfg, ph.batch, ph.next + 1, ph.draining);
  }

  lemma InsertSpends(cfg: Setup, ph: Phase, s: Held)
    requires WritingEnabled(cfg, ph, Insert)
    ensures PhaseWork(cfg, DoInsert(ph, s).0) < PhaseWork(cfg, ph)
  {
    TimesNext(|ph.batch| - ph.next, PerPayload(cfg));
    FromNext(cfg, ph.batch, ph.next + 1, ph.draining);
  }

  lemma WritingSpends(cfg: Setup, ph: Phase, s: Held, a: Action)
    requires WritingEnabled(cfg, ph, a)
    ensures PhaseWork(cfg, DoWriting(cfg, ph, s, a).0) < PhaseWork(cfg, ph)
  {
    if OfRollUp(a) {
      RollUpSpends(cfg, ph, s, a);
    } else if a.Insert? {
      InsertSpends(cfg, ph, s);
    } else {
      LeavingSpends(cfg, ph, s, a);
    }
  }

  lemma LeavingSpends(cfg: Setup, ph: Phase, s: Held, a: Action)
    requires WritingEnabled(cfg, ph, a) && !OfRollUp(a) && !a.Insert?
    ensures PhaseWork(cfg, DoWriting(cfg, ph, s, a).0) < PhaseWork(cfg, ph)
  {
  }

  lemma WritingStepSpends(cfg: Setup, w: Worker, a: Action)
    requires WritingEnabled(cfg, w.phase, a)
    ensures Work(cfg, DoLocal(cfg, w, a)) < Work(cfg, w)
  {
    WritingSpends(cfg, w.phase, w.session, a);
  }

  lemma EndingSpends(cfg: Setup, w: Worker, a: Action)
    requires EndingEnabled(w.intake.queue, w.phase, a)
    ensures Work(cfg, DoEnding(w, a)) < Work(cfg, w)
  {
    EndingAndStop(w, a);
    if a.DrainEnd? {
      FromNext(cfg, w.phase.batch, 0, true);
    }
  }

  lemma TimesNext(n: nat, k: nat)
    requires n > 0
    ensures Times(n, k) == Times(n - 1, k) + k
  {
  }

  lemma TakeSpends(cfg: Setup, w: Worker, adapterReady: bool)
    requires w.phase.Idle? && w.intake.queue != []
    ensures Work(cfg, DoTake(w, adapterReady)) < Work(cfg, w)
  {
    TimesNext(|w.intake.queue|, PerPayload(cfg) + 6 + COMMIT_ATTEMPTS);
    TimesNext(1, PerPayload(cfg));
  }

  lemma CollectSpends(cfg: Setup, w: Worker, requeued: bool)
    requires w.phase.Collecting? && w.intake.queue != []
    ensures Work(cfg, DoCollect(cfg, w, requeued)) < Work(cfg, w)
  {
    TimesNext(|w.intake.queue|, PerPayload(cfg) + 6 + COMMIT_ATTEMPTS);
    TimesNext(|w.phase.batch| + 1, PerPayload(cfg));
    FromNext(cfg, w.phase.batch, 0, false);
  }

  lemma DrainTakeSpends(cfg: Setup, w: Worker)
    requires w.phase.Draining? && w.intake.queue != []
    ensures Work(cfg, DoDrainTake(w)) < Work(cfg, w)
  {
    TimesNext(|w.intake.queue|, PerPayload(cfg) + 6 + COMMIT_ATTEMPTS);
    TimesNext(|w.phase.batch| + 1, PerPayload(cfg));
  }

  lemma TakingSpends(cfg: Setup, w: Worker, a: Action)
    requires TakingEnabled(cfg, w.intake.queue, w.phase, a)
    ensures Work(cfg, DoTaking(cfg, w, a)) < Work(cfg, w)
  {
    match a
    case Take(adapterReady) => TakeSpends(cfg, w, adapterReady);
    case CollectMore(requeued) => CollectSpends(cfg, w, requeued);
    case CollectStop => FromNext(cfg, w.phase.batch, 0, false);
    case DrainTake => DrainTakeSpends(cfg, w);
  }

  /** Every step of the worker's own leaves it less to do. */
  lemma StepSpends(cfg: Setup, db: Db, w: Worker, a: Action)
    requires Enabled(cfg, w, a) && !OfProducer(a)
    ensures Work(cfg, Do(cfg, db, w, a).1) < Work(cfg, w)
  {
    if OfTaking(a) {
      TakingSpends(cfg, w, a);
    } else if OfWriting(a) {
      WritingStepSpends(cfg, w, a);
    } else if OfEnding(a) {
      EndingSpends(cfg, w, a);
    }
  }

  /** The worker alone takes these steps, each of them possible where it is taken. */
  predicate Undisturbed(cfg: Setup, db: Db, w: Worker, acts: seq<Action>) {
    || acts == []
    || (&& Undisturbed(cfg, db, w, acts[..|acts| - 1])
        && Own(acts[|acts| - 1]) && Enabled(cfg, Exec(cfg, db, w, acts[..|acts| - 1]).1, acts[|acts| - 1]))
  }

  /** The worker alone can do nothing more. */
  ghost predicate Stuck(cfg: Setup, w: Worker) {
    forall a :: Own(a) ==> !Enabled(cfg, w, a)
  }

  lemma {:induction false} UndisturbedRunsEnd(cfg: Setup, db: Db, w: Worker, acts: seq<Action>)
    requires Undisturbed(cfg, db, w, acts)
    ensures |acts| + Work(cfg, Exec(cfg, db, w, acts).1) <= Work(cfg, w)
  {
    if acts != [] {
      var front, a := acts[..|acts| - 1], acts[|acts| - 1];
      UndisturbedRunsEnd(cfg, db, w, front);
      var (d, v) := Exec(cfg, db, w, front);
      StepSpends(cfg, d, v, a);
    }
  }

  // ---- And where it ends ----

  /** A step the worker can take, wherever it can take one. */
  function NextStep(cfg: Setup, w: Worker): Action {
    match w.phase
    case Idle | Closed => Take(true)
    case Collecting(_) => CollectStop
    case Writing(b, next, stage, _) =>
      (match stage
       case Inserting => Insert
       case RollingUp(done) => RollUpFails
       case Committing(_) => CommitOk)
    case Publishing(_, _) => PublishOk
    case Returning(_, _) => Return
    case Raised(_, _, _) => Answer
    case Failing(_, _) => RecordFailure
    case RollingBack => Rollback(true)
    case Draining(_) => if w.intake.queue == [] then DrainEnd(true) else DrainTake
  }

  lemma NextStepIsPossible(cfg: Setup, w: Worker)
    requires SessionInv(cfg, w.phase, w.session)
    requires !w.phase.Closed? && !(w.phase.Idle? && w.intake.queue == [])
    ensures Own(NextStep(cfg, w)) && Enabled(cfg, w, NextStep(cfg, w))
  {
  }

  lemma StuckMeans(cfg: Setup, w: Worker)
    requires SessionInv(cfg, w.phase, w.session)
    ensures Stuck(cfg, w) <==> w.phase.Closed? || (w.phase.Idle? && w.intake.queue == [])
  {
    if !w.phase.Closed? && !(w.phase.Idle? && w.intake.queue == []) {
      NextStepIsPossible(cfg, w);
    }
  }

  lemma OwnStepKeepsStop(cfg: Setup, db: Db, w: Worker, a: Action)
    requires WorkerInv(cfg, w) && Own(a) && Enabled(cfg, w, a)
    ensures StopPending(Do(cfg, db, w, a).1) <==> StopPending(w)
  {
    StepAndStop(cfg, db, w, a);
  }

  lemma {:induction false} UndisturbedKeepsStop(cfg: Setup, db: Db, w: Worker, acts: seq<Action>)
    requires cfg.Valid() && WorkerInv(cfg, w) && Undisturbed(cfg, db, w, acts)
    ensures StopPending(Exec(cfg, db, w, acts).1) <==> StopPending(w)
  {
    if acts != [] {
      var front, a := acts[..|acts| - 1], acts[|acts| - 1];
      UndisturbedKeepsStop(cfg, db, w, front);
      ExecKeepsInvariants(cfg, db, w, front);
      var (d, v) := Exec(cfg, db, w, front);
      OwnStepKeepsStop(cfg, d, v, a);
    }
  }

  /**
   * Left alone, a worker takes a bounded number of steps, however it takes them; when none is left it is closed if
   * its stop was pending, and otherwise waits on an empty queue for ever.
   */
  lemma LeftAloneClosesIff(cfg: Setup, db: Db, w: Worker, acts: seq<Action>)
    requires cfg.Valid() && Reachable(cfg, w) && Undisturbed(cfg, db, w, acts)
    ensures var after := Exec(cfg, db, w, acts).1;
      && |acts| <= Work(cfg, w)
      && (Stuck(cfg, after) ==>
            if StopPending(w) then after.phase.Closed? else after.phase.Idle? && after.intake.queue == [])
  {
    ReachableInvariants(cfg, w);
    UndisturbedRunsEnd(cfg, db, w, acts);
    UndisturbedKeepsStop(cfg, db, w, acts);
    ExecKeepsInvariants(cfg, db, w, acts);
    StuckMeans(cfg, Exec(cfg, db, w, acts).1);
  }

  lemma {:induction false} SomeRunEnds(cfg: Setup, db: Db, w: Worker, acts: seq<Action>) returns (all: seq<Action>)
    requires cfg.Valid() && WorkerInv(cfg, w) && Undisturbed(cfg, db, w, acts)
    ensures Undisturbed(cfg, db, w, all) && Stuck(cfg, Exec(cfg, db, w, all).1)
    decreases Work(cfg, Exec(cfg, db, w, acts).1)
  {
    var (d, v) := Exec(cfg, db, w, acts);
    ExecKeepsInvariants(cfg, db, w, acts);
    StuckMeans(cfg, v);
    all := acts;
    if !Stuck(cfg, v) {
      var a :| Own(a) && Enabled(cfg, v, a);
      assert (acts + [a])[..|acts|] == acts;
      StepSpends(cfg, d, v, a);
      all := SomeRunEnds(cfg, db, w, acts + [a]);
    }
  }

  lemma {:induction false} UndisturbedIsOwn(cfg: Setup, db: Db, w: Worker, acts: seq<Action>)
    requires Undisturbed(cfg, db, w, acts)
    ensures forall a :: a in acts ==> Own(a)
  {
    if acts != [] {
      UndisturbedIsOwn(cfg, db, w, acts[..|acts| - 1]);
      assert acts == acts[..|acts| - 1] + [acts[|acts| - 1]];
    }
  }

  lemma AloneCloses(cfg: Setup, db: Db, w: Worker) returns (acts: seq<Action>)
    requires cfg.Valid() && WorkerInv(cfg, w) && StopPending(w)
    ensures Exec(cfg, db, w, acts).1.phase.Closed? && forall a :: a in acts ==> Own(a)
  {
    acts := SomeRunEnds(cfg, db, w, []);
    UndisturbedKeepsStop(cfg, db, w, acts);
    UndisturbedIsOwn(cfg, db, w, acts);
    ExecKeepsInvariants(cfg, db, w, acts);
    StuckMeans(cfg, Exec(cfg, db, w, acts).1);
  }

  // ---- The whole system ----

  /** No further stop is called on worker `i`. */
  ghost predicate NoNewStop(more: seq<Choice>, i: nat) {
    forall c :: c in more ==> c != Choice(i, PutSentinel)
  }

  predicate ClosedAfter(cfg: Setup, n: nat, choices: seq<Choice>, i: nat)
    requires i < n
  {
    Run(cfg, n, choices).workers[i].phase.Closed?
  }

  /** Without another stop, some continuation of the schedule closes worker `i`. */
  ghost predicate CanStillClose(cfg: Setup, n: nat, choices: seq<Choice>, i: nat)
    requires i < n
  {
    exists more :: NoNewStop(more, i) && ClosedAfter(cfg, n, choices + more, i)
  }

  lemma ChoiceAndStop(cfg: Setup, s: System, c: Choice, i: nat)
    requires i < |s.workers| && c != Choice(i, PutSentinel) && !StopPending(s.workers[i])
    ensures !StopPending(StepOf(cfg, s, c).workers[i])
  {
    if c.worker == i && Enabled(cfg, s.workers[i], c.action) {
      StepAndStop(cfg, s.db, s.workers[i], c.action);
    }
  }

  lemma FrontAndLast(more: seq<Choice>, i: nat)
    requires NoNewStop(more, i) && more != []
    ensures NoNewStop(more[..|more| - 1], i) && more[|more| - 1] != Choice(i, PutSentinel)
  {
    var front, last := more[..|more| - 1], more[|more| - 1];
    assert last in more && forall c :: c in front ==> c in more;
  }

  lemma {:induction false} NothingPendsByItself(cfg: Setup, n: nat, choices: seq<Choice>, more: seq<Choice>, i: nat)
    requires i < n && NoNewStop(more, i) && !StopPending(Run(cfg, n, choices).workers[i])
    ensures !StopPending(Run(cfg, n, choices + more).workers[i])
  {
    if more == [] {
      assert choices + more == choices;
    } else {
      var front, c := more[..|more| - 1], more[|more| - 1];
      FrontAndLast(more, i);
      NothingPendsByItself(cfg, n, choices, front, i);
      DropLastOfConcat(choices, more);
      ChoiceAndStop(cfg, Run(cfg, n, choices + front), c, i);
    }
  }

  lemma PendingStopCloses(cfg: Setup, n: nat, choices: seq<Choice>, i: nat)
    requires cfg.Valid() && i < n && StopPending(Run(cfg, n, choices).workers[i])
    ensures CanStillClose(cfg, n, choices, i)
  {
    var s := Run(cfg, n, choices);
    WorkerOfRun(cfg, n, choices, i);
    var acts := AloneCloses(cfg, s.db, s.workers[i]);
    OwnRunIsAContinuation(cfg, n, choices, i, acts);
  }

  lemma OwnRunIsAContinuation(cfg: Setup, n: nat, choices: seq<Choice>, i: nat, acts: seq<Action>)
    requires i < n && forall a :: a in acts ==> Own(a)
    requires var s := Run(cfg, n, choices); Exec(cfg, s.db, s.workers[i], acts).1.phase.Closed?
    ensures NoNewStop(OfWorker(i, acts), i) && ClosedAfter(cfg, n, choices + OfWorker(i, acts), i)
  {
    ExecIsASchedule(cfg, n, choices, i, acts);
    forall c | c in OfWorker(i, acts) ensures c != Choice(i, PutSentinel) {
      var j :| 0 <= j < |acts| && c == Choice(i, acts[j]);
      assert acts[j] in acts;
    }
  }

  lemma WorkerOfRun(cfg: Setup, n: nat, choices: seq<Choice>, i: nat)
    requires cfg.Valid() && i < n
    ensures WorkerInv(cfg, Run(cfg, n, choices).workers[i])
  {
    RunInv(cfg, n, choices);
  }

  /**
   * After every schedule, a worker can still close without another stop if and only if its sentinel is queued or
   * it has taken it.
   */
  lemma ClosesWithoutAnotherStopIff(cfg: Setup, n: nat, choices: seq<Choice>, i: nat)
    requires cfg.Valid() && i < n
    ensures CanStillClose(cfg, n, choices, i) <==> StopPending(Run(cfg, n, choices).workers[i])
  {
    if StopPending(Run(cfg, n, choices).workers[i]) {
      PendingStopCloses(cfg, n, choices, i);
    } else if more :| NoNewStop(more, i) && ClosedAfter(cfg, n, choices + more, i) {
      NothingPendsByItself(cfg, n, choices, more, i);
    }
  }

  // ---- The two losses ----

  lemma OneMoreChoice(cfg: Setup, n: nat, choices: seq<Choice>, c: Choice)
    ensures Run(cfg, n, choices + [c]) == StepOf(cfg, Run(cfg, n, choices), c)
  {
    assert (choices + [c])[..|choices|] == choices;
  }

  /** A stop takes effect if and only if it finds room in the queue, or an earlier one is still pending. */
  lemma StopTakesEffectIff(cfg: Setup, n: nat, choices: seq<Choice>, i: nat)
    requires cfg.Valid() && i < n
    ensures var w := Run(cfg, n, choices).workers[i];
      CanStillClose(cfg, n, choices + [Choice(i, PutSentinel)], i) <==> !Full(cfg, w.intake.queue) || StopPending(w)
  {
    var s := Run(cfg, n, choices);
    OneMoreChoice(cfg, n, choices, Choice(i, PutSentinel));
    StepAndStop(cfg, s.db, s.workers[i], PutSentinel);
    ClosesWithoutAnotherStopIff(cfg, n, choices + [Choice(i, PutSentinel)], i);
  }

  /**
   * A sentinel met while collecting stays in effect if and only if it gets back into the queue, or another one is
   * queued behind it. It does not get back when a producer takes the place it has just left.
   */
  lemma MetSentinelStaysIff(cfg: Setup, n: nat, choices: seq<Choice>, i: nat, requeued: bool)
    requires cfg.Valid() && i < n
    requires var w := Run(cfg, n, choices).workers[i];
      TakingEnabled(cfg, w.intake.queue, w.phase, CollectMore(requeued)) && w.intake.queue[0].None?
    ensures var rest := Run(cfg, n, choices).workers[i].intake.queue[1..];
      CanStillClose(cfg, n, choices + [Choice(i, CollectMore(requeued))], i) <==> requeued || None in rest
  {
    var s, c := Run(cfg, n, choices), Choice(i, CollectMore(requeued));
    WorkerOfRun(cfg, n, choices, i);
    OneMoreChoice(cfg, n, choices, c);
    StepAndStop(cfg, s.db, s.workers[i], c.action);
    HeadOrRest(s.workers[i].intake.queue);
    ClosesWithoutAnotherStopIff(cfg, n, choices + [c], i);
  }

  /** Between them these are all the ways a stop is lost: any other step of any worker keeps it. */
  lemma OnlyTheseLoseAStop(cfg: Setup, n: nat, choices: seq<Choice>, i: nat, c: Choice)
    requires cfg.Valid() && i < n && CanStillClose(cfg, n, choices, i)
    ensures var w := Run(cfg, n, choices).workers[i];
      CanStillClose(cfg, n, choices + [c], i) <==> !(c.worker == i && LosesSentinel(cfg, w, c.action))
  {
    var s := Run(cfg, n, choices);
    OneMoreChoice(cfg, n, choices, c);
    ClosesWithoutAnotherStopIff(cfg, n, choices, i);
    ClosesWithoutAnotherStopIff(cfg, n, choices + [c], i);
    if c.worker == i && Enabled(cfg, s.workers[i], c.action) {
      StepAndStop(cfg, s.db, s.workers[i], c.action);
    }
  }

  // ---- An input for each ----

  /** One place in the queue, and batches of two. */
  const ONE_PLACE := Setup(1, 2, ["1hour"])

  lemma Next(choices: seq<Choice>, w: Worker, a: Action) returns (more: seq<Choice>, w': Worker)
    requires Run(ONE_PLACE, 1, choices) == System(EMPTY_DB, [w]) && Enabled(ONE_PLACE, w, a) && !a.CommitOk?
    ensures more == choices + [Choice(0, a)] && w' == DoLocal(ONE_PLACE, w, a)
    ensures Run(ONE_PLACE, 1, more) == System(EMPTY_DB, [w'])
  {
    more, w' := choices + [Choice(0, a)], DoLocal(ONE_PLACE, w, a);
    OneMoreChoice(ONE_PLACE, 1, choices, Choice(0, a));
    assert [w][0 := w'] == [w'];
  }

  lemma FillAndStop(p: Payload) returns (cs: seq<Choice>)
    ensures Choice(0, PutSentinel) in cs && !StopPending(Run(ONE_PLACE, 1, cs).workers[0])
  {
    var w;
    cs, w := [], NEW_WORKER;
    assert Run(ONE_PLACE, 1, cs).workers == [w];
    cs, w := Next(cs, w, EnqueueLaneChange(p));
    cs, w := Next(cs, w, PutSentinel);
  }

  /** `stop` on a full queue: the worker handles what is queued and then waits for ever. */
  lemma StopOnAFullQueueIsLost(p: Payload)
    ensures exists choices :: Choice(0, PutSentinel) in choices && !CanStillClose(ONE_PLACE, 1, choices, 0)
  {
    var cs := FillAndStop(p);
    ClosesWithoutAnotherStopIff(ONE_PLACE, 1, cs, 0);
  }

  /** The sentinel is in the queue. */
  ghost predicate SentinelQueued(choices: seq<Choice>) {
    None in Run(ONE_PLACE, 1, choices).workers[0].intake.queue
  }

  /** `stop` finds room while the worker collects. */
  lemma UpToSentinel(p: Payload) returns (cs: seq<Choice>, w: Worker)
    ensures Run(ONE_PLACE, 1, cs) == System(EMPTY_DB, [w])
    ensures w.phase == Collecting([p]) && w.intake.queue == [None]
  {
    cs, w := [], NEW_WORKER;
    assert Run(ONE_PLACE, 1, cs).workers == [w];
    cs, w := Next(cs, w, EnqueueLaneChange(p));
    cs, w := Next(cs, w, Take(true));
    cs, w := Next(cs, w, PutSentinel);
  }

  /** The worker meets the sentinel, and a producer takes its place before it is back: the stop is lost all the same. */
  lemma ARefusedRequeueLosesTheStop(p: Payload, q: Payload)
    ensures exists stopped, more ::
      SentinelQueued(stopped) && NoNewStop(more, 0) && !CanStillClose(ONE_PLACE, 1, stopped + more, 0)
  {
    var stopped, w := UpToSentinel(p);
    var more := StealThePlace(stopped, w, p, q);
    ClosesWithoutAnotherStopIff(ONE_PLACE, 1, stopped + more, 0);
    assert SentinelQueued(stopped) && NoNewStop(more, 0) && !CanStillClose(ONE_PLACE, 1, stopped + more, 0);
  }

  lemma StealThePlace(stopped: seq<Choice>, w: Worker, p: Payload, q: Payload) returns (more: seq<Choice>)
    requires Run(ONE_PLACE, 1, stopped) == System(EMPTY_DB, [w])
    requires w.phase == Collecting([p]) && w.intake.queue == [None]
    ensures NoNewStop(more, 0) && !StopPending(Run(ONE_PLACE, 1, stopped + more).workers[0])
  {
    var lost, w1 := Next(stopped, w, CollectMore(false));
    var taken, w2 := Next(lost, w1, EnqueueLaneChange(q));
    assert w2.intake.queue == [Some(q)];
    more := [Choice(0, CollectMore(false)), Choice(0, EnqueueLaneChange(q))];
    assert taken == stopped + more;
  }
}

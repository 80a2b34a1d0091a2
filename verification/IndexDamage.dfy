/** When the roll-up index is exact, read off the schedule. */
module IndexDamage {
  import opened Sequences
  import opened TimeWindows
  import opened RollupIndex
  import opened StorageProtocol
  import opened StorageSystem

  /** The machine of worker `x` before choice `i`. */
  function WorkerAt(cfg: Setup, n: nat, choices: seq<Choice>, x: nat, i: nat): Worker
    requires x < n && i <= |choices|
  {
    Run(cfg, n, choices[..i]).workers[x]
  }

  /** Choice `i` is a step that worker `x` takes. */
  predicate Moves(cfg: Setup, n: nat, choices: seq<Choice>, x: nat, i: nat)
    requires x < n && i < |choices|
  {
    choices[i].worker == x && Enabled(cfg, WorkerAt(cfg, n, choices, x, i), choices[i].action)
  }

  /** The step, when enabled, ends a roll-up before all of its upserts are made. */
  predicate CutsRollUp(cfg: Setup, ph: Phase, a: Action) {
    || (a.SwallowRollUpError? && RollUpEnabled(cfg, ph, a))
    || (&& a.RollUpFails? && RollUpEnabled(cfg, ph, a)
        && ph.stage.done < |Buckets(cfg.windows, ph.batch[ph.next].row)|)
  }

  /** The step commits, rolls back or closes the session. */
  predicate EndsSession(ph: Phase, a: Action) {
    || a.CommitOk? || a.CommitLocked? || (a.CommitFails? && !a.kept) || a == Rollback(true)
    || (a.Return? && ph.Returning? && ph.draining)
    || (a.RecordFailure? && ph.Failing? && ph.draining)
    || (a.DrainEnd? && ph.Draining? && (ph.batch == [] || !a.adapterReady))
  }

  predicate CutAt(cfg: Setup, n: nat, choices: seq<Choice>, x: nat, i: nat)
    requires x < n && i < |choices|
  {
    Moves(cfg, n, choices, x, i) && CutsRollUp(cfg, WorkerAt(cfg, n, choices, x, i).phase, choices[i].action)
  }

  predicate EndAt(cfg: Setup, n: nat, choices: seq<Choice>, x: nat, i: nat)
    requires x < n && i < |choices|
  {
    Moves(cfg, n, choices, x, i) && EndsSession(WorkerAt(cfg, n, choices, x, i).phase, choices[i].action)
  }

  predicate CommitAt(cfg: Setup, n: nat, choices: seq<Choice>, x: nat, i: nat)
    requires x < n && i < |choices|
  {
    Moves(cfg, n, choices, x, i) && choices[i].action.CommitOk?
  }

  /** At choice `i` worker `x` cut a roll-up short, and its session has not ended since, up to choice `j`. */
  ghost predicate CutStillHeld(cfg: Setup, n: nat, choices: seq<Choice>, x: nat, i: nat, j: nat)
    requires x < n && i < j <= |choices|
  {
    CutAt(cfg, n, choices, x, i) && forall m :: i < m < j ==> !EndAt(cfg, n, choices, x, m)
  }

  ghost predicate HoldsCut(cfg: Setup, n: nat, choices: seq<Choice>, x: nat, j: nat)
    requires x < n && j <= |choices|
  {
    exists i :: 0 <= i < j && CutStillHeld(cfg, n, choices, x, i, j)
  }

  /** Choice `j` commits a session of worker `x` with a roll-up cut short in it. */
  ghost predicate CommitsHeldCut(cfg: Setup, n: nat, choices: seq<Choice>, x: nat, j: nat)
    requires x < n && j < |choices|
  {
    CommitAt(cfg, n, choices, x, j) && HoldsCut(cfg, n, choices, x, j)
  }

  /** Before choice `p` worker `x` commits after cutting a roll-up short, with its session not ended between. */
  ghost predicate CommittedCut(cfg: Setup, n: nat, choices: seq<Choice>, x: nat, p: nat)
    requires x < n && p <= |choices|
  {
    && p > 0
    && (CommittedCut(cfg, n, choices, x, p - 1) || CommitsHeldCut(cfg, n, choices, x, p - 1))
  }

  /**
   * Some worker commits at a choice `j` after cutting a roll-up short at an earlier choice, with its session
   * not ended between.
   */
  ghost predicate CommitsACut(cfg: Setup, n: nat, choices: seq<Choice>) {
    exists x, j :: 0 <= x < n && 0 <= j < |choices| && CommitsHeldCut(cfg, n, choices, x, j)
  }

  // ---- The two counters of a session, step by step ----

  function CutAfter(cfg: Setup, w: Worker, a: Action): nat {
    if CutsRollUp(cfg, w.phase, a) then w.session.cut + 1
    else if EndsSession(w.phase, a) then 0
    else w.session.cut
  }

  lemma WritingCounts(cfg: Setup, ph: Phase, s: Held, a: Action)
    requires WritingEnabled(cfg, ph, a)
    ensures var s' := DoWriting(cfg, ph, s, a).1;
      && s'.cut == (if CutsRollUp(cfg, ph, a) then s.cut + 1 else if EndsSession(ph, a) then 0 else s.cut)
      && s'.damaged == s.damaged
  {
  }

  lemma EndingCounts(cfg: Setup, w: Worker, a: Action)
    requires EndingEnabled(w.intake.queue, w.phase, a)
    ensures DoEnding(w, a).session.cut == CutAfter(cfg, w, a)
    ensures DoEnding(w, a).session.damaged == w.session.damaged
  {
  }

  lemma ProducerCounts(cfg: Setup, w: Worker, a: Action)
    requires OfProducer(a)
    ensures DoProducer(cfg, w, a).session == w.session && CutAfter(cfg, w, a) == w.session.cut
  {
  }

  lemma LocalStepCounts(cfg: Setup, w: Worker, a: Action)
    requires Enabled(cfg, w, a) && !a.CommitOk?
    ensures DoLocal(cfg, w, a).session.cut == CutAfter(cfg, w, a)
    ensures DoLocal(cfg, w, a).session.damaged == w.session.damaged
  {
    if OfProducer(a) {
      ProducerCounts(cfg, w, a);
    } else if OfTaking(a) {
      TakingCounts(cfg, w, a);
    } else if OfWriting(a) {
      WritingCounts(cfg, w.phase, w.session, a);
    } else {
      EndingCounts(cfg, w, a);
    }
  }

  lemma TakingCounts(cfg: Setup, w: Worker, a: Action)
    requires TakingEnabled(cfg, w.intake.queue, w.phase, a)
    ensures DoTaking(cfg, w, a).session == w.session && CutAfter(cfg, w, a) == w.session.cut
  {
  }

  lemma StepCounts(cfg: Setup, db: Db, w: Worker, a: Action)
    requires Enabled(cfg, w, a)
    ensures var s' := Do(cfg, db, w, a).1.session;
      && s'.cut == CutAfter(cfg, w, a)
      && s'.damaged == w.session.damaged + if a.CommitOk? then w.session.cut else 0
  {
    if !a.CommitOk? {
      LocalStepCounts(cfg, w, a);
    }
  }

  /** What choice `i` does to the session of worker `x`. */
  lemma ChoiceCounts(cfg: Setup, n: nat, choices: seq<Choice>, x: nat, i: nat)
    requires x < n && i < |choices|
    ensures var s, s' := WorkerAt(cfg, n, choices, x, i).session, WorkerAt(cfg, n, choices, x, i + 1).session;
      && s'.cut == (if CutAt(cfg, n, choices, x, i) then s.cut + 1
                    else if EndAt(cfg, n, choices, x, i) then 0
                    else s.cut)
      && s'.damaged == s.damaged + if CommitAt(cfg, n, choices, x, i) then s.cut else 0
  {
    assert choices[..i + 1][..i] == choices[..i];
    var before, c := Run(cfg, n, choices[..i]), choices[i];
    assert Run(cfg, n, choices[..i + 1]) == StepOf(cfg, before, c);
    if Moves(cfg, n, choices, x, i) {
      StepCounts(cfg, before.db, before.workers[x], c.action);
    }
  }

  // ---- The counters as facts about the schedule ----

  lemma HeldFrom(cfg: Setup, n: nat, choices: seq<Choice>, x: nat, j: nat)
    requires x < n && j < |choices|
    requires CutAt(cfg, n, choices, x, j) || (!EndAt(cfg, n, choices, x, j) && HoldsCut(cfg, n, choices, x, j))
    ensures HoldsCut(cfg, n, choices, x, j + 1)
  {
    if CutAt(cfg, n, choices, x, j) {
      assert CutStillHeld(cfg, n, choices, x, j, j + 1);
    } else {
      var i :| 0 <= i < j && CutStillHeld(cfg, n, choices, x, i, j);
      HeldOneLonger(cfg, n, choices, x, i, j);
    }
  }

  lemma HeldOneLonger(cfg: Setup, n: nat, choices: seq<Choice>, x: nat, i: nat, j: nat)
    requires x < n && i < j < |choices|
    requires CutStillHeld(cfg, n, choices, x, i, j) && !EndAt(cfg, n, choices, x, j)
    ensures CutStillHeld(cfg, n, choices, x, i, j + 1)
  {
    forall m | i < m < j + 1 ensures !EndAt(cfg, n, choices, x, m) {
    }
  }

  lemma HeldBefore(cfg: Setup, n: nat, choices: seq<Choice>, x: nat, j: nat)
    requires x < n && j < |choices| && HoldsCut(cfg, n, choices, x, j + 1)
    ensures CutAt(cfg, n, choices, x, j) || (!EndAt(cfg, n, choices, x, j) && HoldsCut(cfg, n, choices, x, j))
  {
    var i :| 0 <= i < j + 1 && CutStillHeld(cfg, n, choices, x, i, j + 1);
    if i < j {
      assert CutStillHeld(cfg, n, choices, x, i, j);
    }
  }

  lemma {:induction false} CutMeans(cfg: Setup, n: nat, choices: seq<Choice>, x: nat, j: nat)
    requires x < n && j <= |choices|
    ensures WorkerAt(cfg, n, choices, x, j).session.cut > 0 <==> HoldsCut(cfg, n, choices, x, j)
  {
    if j > 0 {
      CutMeans(cfg, n, choices, x, j - 1);
      ChoiceCounts(cfg, n, choices, x, j - 1);
      if HoldsCut(cfg, n, choices, x, j) {
        HeldBefore(cfg, n, choices, x, j - 1);
      } else if WorkerAt(cfg, n, choices, x, j).session.cut > 0 {
        HeldFrom(cfg, n, choices, x, j - 1);
      }
    }
  }

  lemma {:induction false} CommittedSomewhere(cfg: Setup, n: nat, choices: seq<Choice>, x: nat, p: nat) returns (j: nat)
    requires x < n && p <= |choices| && CommittedCut(cfg, n, choices, x, p)
    ensures j < p && CommitsHeldCut(cfg, n, choices, x, j)
  {
    if CommittedCut(cfg, n, choices, x, p - 1) {
      j := CommittedSomewhere(cfg, n, choices, x, p - 1);
    } else {
      j := p - 1;
    }
  }

  lemma {:induction false} CommittedFromThere(cfg: Setup, n: nat, choices: seq<Choice>, x: nat, j: nat, p: nat)
    requires x < n && j < p <= |choices| && CommitsHeldCut(cfg, n, choices, x, j)
    ensures CommittedCut(cfg, n, choices, x, p)
    decreases p
  {
    if j < p - 1 {
      CommittedFromThere(cfg, n, choices, x, j, p - 1);
    }
  }

  lemma {:induction false} DamageMeans(cfg: Setup, n: nat, choices: seq<Choice>, x: nat, p: nat)
    requires x < n && p <= |choices|
    ensures WorkerAt(cfg, n, choices, x, p).session.damaged > 0 <==> CommittedCut(cfg, n, choices, x, p)
  {
    if p > 0 {
      DamageMeans(cfg, n, choices, x, p - 1);
      DamageNext(cfg, n, choices, x, p - 1);
    }
  }

  lemma DamageNext(cfg: Setup, n: nat, choices: seq<Choice>, x: nat, p: nat)
    requires x < n && p < |choices|
    ensures WorkerAt(cfg, n, choices, x, p + 1).session.damaged > 0 <==>
      || WorkerAt(cfg, n, choices, x, p).session.damaged > 0
      || CommitsHeldCut(cfg, n, choices, x, p)
  {
    ChoiceCounts(cfg, n, choices, x, p);
    CutMeans(cfg, n, choices, x, p);
  }

  lemma DamageOfSchedule(cfg: Setup, n: nat, choices: seq<Choice>, x: nat)
    requires x < n
    ensures Run(cfg, n, choices).workers[x].session.damaged > 0 <==> CommittedCut(cfg, n, choices, x, |choices|)
  {
    assert choices[..|choices|] == choices;
    DamageMeans(cfg, n, choices, x, |choices|);
  }

  lemma DamagedIffCommitsACut(cfg: Setup, n: nat, choices: seq<Choice>)
    ensures NothingDamaged(Run(cfg, n, choices)) <==> !CommitsACut(cfg, n, choices)
  {
    if x, j :| 0 <= x < n && 0 <= j < |choices| && CommitsHeldCut(cfg, n, choices, x, j) {
      CommittedFromThere(cfg, n, choices, x, j, |choices|);
      DamageOfSchedule(cfg, n, choices, x);
    } else {
      forall x | 0 <= x < n ensures Run(cfg, n, choices).workers[x].session.damaged == 0 {
        DamageOfSchedule(cfg, n, choices, x);
        if CommittedCut(cfg, n, choices, x, |choices|) {
          var j := CommittedSomewhere(cfg, n, choices, x, |choices|);
        }
      }
    }
  }

  /**
   * Under every schedule all buckets equal what the committed events owe them if and only if no worker
   * commits after cutting a roll-up short without a rollback, a commit or a close between.
   */
  lemma IndexIsExactIff(cfg: Setup, n: nat, choices: seq<Choice>)
    requires cfg.Valid()
    ensures var db := Run(cfg, n, choices).db;
      (forall k :: CountAt(db.index, k) == Weight(cfg.windows, k) * EventsAt(db.events, k))
      <==> !CommitsACut(cfg, n, choices)
  {
    RunInv(cfg, n, choices);
    DamagedIffCommitsACut(cfg, n, choices);
    ExactMeansEqual(cfg.windows, Run(cfg, n, choices).db);
  }

  lemma ExactMeansEqual(windows: seq<string>, db: Db)
    ensures DbExact(windows, db) <==> forall k :: CountAt(db.index, k) == Weight(windows, k) * EventsAt(db.events, k)
  {
    forall k ensures Owed(windows, db.events, k) == Weight(windows, k) * EventsAt(db.events, k) {
      OwedIsProduct(windows, db.events, k);
    }
  }

  // ---- Schedules without hidden errors ----

  /** No roll-up error is swallowed, and no rollback fails or is missing. */
  ghost predicate NothingHidden(choices: seq<Choice>) {
    forall c :: c in choices ==> !c.action.SwallowRollUpError? && c.action != Rollback(false)
  }

  /** A cut roll-up is only held on the way to its rollback. */
  ghost predicate OnTheWayBack(w: Worker) {
    && w.session.damaged == 0
    && (w.session.cut > 0 ==>
          w.phase.RollingBack? || w.phase.Failing? || (w.phase.Raised? && w.phase.fault.Unexpected?))
  }

  lemma WritingStaysOnTheWay(cfg: Setup, w: Worker, a: Action)
    requires WritingEnabled(cfg, w.phase, a) && OnTheWayBack(w) && !a.SwallowRollUpError?
    ensures OnTheWayBack(DoLocal(cfg, w, a))
  {
  }

  lemma EndingStaysOnTheWay(cfg: Setup, w: Worker, a: Action)
    requires EndingEnabled(w.intake.queue, w.phase, a) && OnTheWayBack(w) && a != Rollback(false)
    ensures OnTheWayBack(DoEnding(w, a))
  {
  }

  lemma TakingStaysOnTheWay(cfg: Setup, w: Worker, a: Action)
    requires TakingEnabled(cfg, w.intake.queue, w.phase, a) && OnTheWayBack(w)
    ensures OnTheWayBack(DoTaking(cfg, w, a))
  {
  }

  lemma OffersStayOnTheWay(cfg: Setup, w: Worker, a: Action)
    requires OfProducer(a) && OnTheWayBack(w)
    ensures OnTheWayBack(DoProducer(cfg, w, a))
  {
  }

  lemma StepStaysOnTheWay(cfg: Setup, db: Db, w: Worker, a: Action)
    requires Enabled(cfg, w, a) && OnTheWayBack(w) && !a.SwallowRollUpError? && a != Rollback(false)
    ensures OnTheWayBack(Do(cfg, db, w, a).1)
  {
    if OfProducer(a) {
      OffersStayOnTheWay(cfg, w, a);
    } else if OfTaking(a) {
      TakingStaysOnTheWay(cfg, w, a);
    } else if OfWriting(a) {
      WritingStaysOnTheWay(cfg, w, a);
    } else if OfEnding(a) {
      EndingStaysOnTheWay(cfg, w, a);
    }
  }

  lemma {:induction false} RunStaysOnTheWay(cfg: Setup, n: nat, choices: seq<Choice>, x: nat)
    requires x < n && NothingHidden(choices)
    ensures OnTheWayBack(Run(cfg, n, choices).workers[x])
  {
    if choices != [] {
      var front, c := choices[..|choices| - 1], choices[|choices| - 1];
      assert c in choices && forall d :: d in front ==> d in choices;
      RunStaysOnTheWay(cfg, n, front, x);
      var s := Run(cfg, n, front);
      if c.worker == x && Enabled(cfg, s.workers[x], c.action) {
        StepStaysOnTheWay(cfg, s.db, s.workers[x], c.action);
      }
    }
  }

  /** Without hidden errors no cut roll-up is ever committed: every bucket of every reachable index is exact. */
  lemma NothingHiddenIsExact(cfg: Setup, n: nat, choices: seq<Choice>)
    requires cfg.Valid() && NothingHidden(choices)
    ensures !CommitsACut(cfg, n, choices)
    ensures DbExact(cfg.windows, Run(cfg, n, choices).db)
  {
    forall x | 0 <= x < n ensures Run(cfg, n, choices).workers[x].session.damaged == 0 {
      RunStaysOnTheWay(cfg, n, choices, x);
    }
    DamagedIffCommitsACut(cfg, n, choices);
    RunInv(cfg, n, choices);
  }

  /** Then each bucket of a configured window, listed once, is exactly the number of its events. */
  lemma BucketsCountEvents(cfg: Setup, n: nat, choices: seq<Choice>, k: Key)
    requires cfg.Valid() && NothingHidden(choices) && Known(k.window) && Count(cfg.windows, k.window) == 1
    ensures var db := Run(cfg, n, choices).db; CountAt(db.index, k) == EventsAt(db.events, k)
  {
    NothingHiddenIsExact(cfg, n, choices);
    ExactBucket(cfg.windows, Run(cfg, n, choices).db, k);
  }

  /** And the sum of the buckets of the next finer window inside it. */
  lemma BucketsAddUp(cfg: Setup, n: nat, choices: seq<Choice>, k: Key)
    requires cfg.Valid() && NothingHidden(choices)
    requires k.window in ["5min", "1hour", "1day"] && WindowStart(k.window, k.start) == k.start
    requires Count(cfg.windows, k.window) == 1 && Count(cfg.windows, Finer(k.window)) == 1
    ensures var index := Run(cfg, n, choices).db.index;
      CountAt(index, k) == SumOfPieces(index, k, Pieces(k.window))
  {
    NothingHiddenIsExact(cfg, n, choices);
    WindowTower(cfg.windows, Run(cfg, n, choices).db, k);
  }
}

/** A roll-up error that nobody swallows can damage the index too. */
module SuppressedRollback {
  import opened Sequences
  import opened RollupIndex
  import opened StorageProtocol
  import opened StorageSystem

  const ONE_WINDOW := Setup(0, 1, ["1hour"])

  ghost predicate NothingSwallowed(choices: seq<Choice>) {
    forall c :: c in choices ==> !c.action.SwallowRollUpError?
  }

  /** Some bucket is behind its committed events. */
  ghost predicate Behind(db: Db) {
    exists k :: CountAt(db.index, k) < Weight(ONE_WINDOW.windows, k) * EventsAt(db.events, k)
  }

  /** The state after one more step of the only worker. */
  lemma Then(choices: seq<Choice>, w: Worker, a: Action) returns (more: seq<Choice>, w': Worker)
    requires NothingSwallowed(choices) && !a.SwallowRollUpError?
    requires Run(ONE_WINDOW, 1, choices).workers == [w] && Enabled(ONE_WINDOW, w, a)
    ensures NothingSwallowed(more) && w' == Do(ONE_WINDOW, EMPTY_DB, w, a).1
    ensures Run(ONE_WINDOW, 1, more).workers == [w']
  {
    more := choices + [Choice(0, a)];
    w' := Do(ONE_WINDOW, EMPTY_DB, w, a).1;
    OnlyWorkerMoves(Run(ONE_WINDOW, 1, choices), w, a);
    assert more[..|choices|] == choices && more[|choices|] == Choice(0, a);
  }

  lemma OnlyWorkerMoves(s: System, w: Worker, a: Action)
    requires s.workers == [w] && Enabled(ONE_WINDOW, w, a)
    ensures StepOf(ONE_WINDOW, s, Choice(0, a)).workers == [Do(ONE_WINDOW, EMPTY_DB, w, a).1]
  {
    MachineIgnoresDb(s.db, w, a);
    var w' := Do(ONE_WINDOW, s.db, w, a).1;
    assert [w][0 := w'] == [w'];
  }

  lemma MachineIgnoresDb(db: Db, w: Worker, a: Action)
    requires Enabled(ONE_WINDOW, w, a)
    ensures Do(ONE_WINDOW, db, w, a).1 == Do(ONE_WINDOW, EMPTY_DB, w, a).1
  {
  }

  lemma UpToQueued(row: EventRow, change: Payload) returns (cs: seq<Choice>, w: Worker)
    requires change.LaneChangePayload?
    ensures NothingSwallowed(cs) && Run(ONE_WINDOW, 1, cs).workers == [w]
    ensures w.phase == Idle && w.intake.queue == [Some(CountPayload(row)), Some(change)]
    ensures w.session == NEW_WORKER.session
  {
    cs, w := [], NEW_WORKER;
    assert Run(ONE_WINDOW, 1, cs).workers == [w];
    cs, w := Then(cs, w, Enqueue(CountPayload(row), 0));
    cs, w := Then(cs, w, EnqueueLaneChange(change));
  }

  /** A worker that is about to write a count event, with a lane change queued behind. */
  lemma UpToInsert(row: EventRow, change: Payload) returns (cs: seq<Choice>, w: Worker)
    requires change.LaneChangePayload?
    ensures NothingSwallowed(cs) && Run(ONE_WINDOW, 1, cs).workers == [w]
    ensures w.phase == Writing([CountPayload(row)], 0, Inserting, false)
    ensures w.intake.queue == [Some(change)] && w.session == NEW_WORKER.session
  {
    cs, w := UpToQueued(row, change);
    cs, w := Then(cs, w, Take(true));
    cs, w := Then(cs, w, CollectStop);
  }

  lemma OneBucket(row: EventRow)
    ensures |Buckets(ONE_WINDOW.windows, row)| == 1
  {
    assert ["1hour"][..0] == [];
  }

  /** The upsert of the event raises, and nothing swallows that. */
  lemma UpToFault(row: EventRow, change: Payload) returns (cs: seq<Choice>, w: Worker)
    requires change.LaneChangePayload?
    ensures NothingSwallowed(cs) && Run(ONE_WINDOW, 1, cs).workers == [w]
    ensures w.phase == Raised([CountPayload(row)], false, Unexpected)
    ensures w.intake.queue == [Some(change)] && w.session.cut == 1
  {
    OneBucket(row);
    cs, w := UpToInsert(row, change);
    cs, w := Then(cs, w, Insert);
    cs, w := Then(cs, w, RollUpFails);
  }

  lemma UpToRollback(row: EventRow, change: Payload) returns (cs: seq<Choice>, w: Worker)
    requires change.LaneChangePayload?
    ensures NothingSwallowed(cs) && Run(ONE_WINDOW, 1, cs).workers == [w]
    ensures w.phase == RollingBack && w.intake.queue == [Some(change)] && w.session.cut == 1
  {
    cs, w := UpToFault(row, change);
    cs, w := Then(cs, w, Answer);
    cs, w := Then(cs, w, RecordFailure);
  }

  /** The adapter has no `rollback`, or it fails unnoticed: the event stays in the session. */
  lemma UpToNextTake(row: EventRow, change: Payload) returns (cs: seq<Choice>, w: Worker)
    requires change.LaneChangePayload?
    ensures NothingSwallowed(cs) && Run(ONE_WINDOW, 1, cs).workers == [w]
    ensures w.phase == Collecting([change]) && w.session.cut == 1
  {
    cs, w := UpToRollback(row, change);
    cs, w := Then(cs, w, Rollback(false));
    cs, w := Then(cs, w, Take(true));
  }

  lemma UpToNextBatch(row: EventRow, change: Payload) returns (cs: seq<Choice>, w: Worker)
    requires change.LaneChangePayload?
    ensures NothingSwallowed(cs) && Run(ONE_WINDOW, 1, cs).workers == [w]
    ensures w.phase == Writing([change], 0, Inserting, false) && w.session.cut == 1
  {
    cs, w := UpToNextTake(row, change);
    cs, w := Then(cs, w, CollectStop);
  }

  lemma DamagedIsBehind(choices: seq<Choice>)
    requires !NothingDamaged(Run(ONE_WINDOW, 1, choices))
    ensures Behind(Run(ONE_WINDOW, 1, choices).db)
  {
    RunInv(ONE_WINDOW, 1, choices);
    var db := Run(ONE_WINDOW, 1, choices).db;
    var k :| CountAt(db.index, k) != Owed(ONE_WINDOW.windows, db.events, k);
    OwedIsProduct(ONE_WINDOW.windows, db.events, k);
    assert CountAt(db.index, k) < Weight(ONE_WINDOW.windows, k) * EventsAt(db.events, k);
  }

  /** The next batch, a lane change, commits that event without its upsert: its bucket is behind. */
  lemma AMissingRollbackDamagesTheIndex(row: EventRow, change: Payload)
    requires change.LaneChangePayload?
    ensures exists choices :: NothingSwallowed(choices) && Behind(Run(ONE_WINDOW, 1, choices).db)
  {
    var cs, w := UpToNextBatch(row, change);
    cs, w := Then(cs, w, Insert);
    cs, w := Then(cs, w, CommitOk);
    assert Run(ONE_WINDOW, 1, cs).workers[0].session.damaged >= 1;
    DamagedIsBehind(cs);
  }
}

/** What one worker's session may hold at each point of writing a batch. */
module SessionInvariant {
  import opened RollupIndex
  import opened StorageProtocol

  /**
   * Pending operations that keep the index sound when committed, and exact if and only if no roll-up in them was cut
   * short.
   */
  ghost predicate Clean(cfg: Setup, ops: seq<Op>, cut: nat) {
    OpsBounded(cfg.windows, ops) && (OpsExact(cfg.windows, ops) <==> cut == 0)
  }

  /** The operations end in the event being rolled up and the increments made for it so far. */
  ghost predicate MidRollUp(cfg: Setup, ops: seq<Op>, cut: nat, row: EventRow, done: nat) {
    && done <= |Buckets(cfg.windows, row)|
    && |ops| >= 1 + done
    && var base := ops[..|ops| - 1 - done];
       Clean(cfg, base, cut) && ops == base + EventOps(cfg.windows, row, done)
  }

  ghost predicate SessionInv(cfg: Setup, ph: Phase, s: Held) {
    match ph
    case Writing(batch, next, stage, _) =>
      && next <= |batch|
      && (match stage
          case Inserting => next < |batch| && Clean(cfg, s.pending, s.cut)
          case RollingUp(done) =>
            next < |batch| && batch[next].CountPayload? && MidRollUp(cfg, s.pending, s.cut, batch[next].row, done)
          case Committing(_) => next == |batch| && Clean(cfg, s.pending, s.cut))
    case _ => Clean(cfg, s.pending, s.cut)
  }

  lemma MidRollUpEnds(cfg: Setup, ops: seq<Op>, cut: nat, row: EventRow, done: nat)
    requires MidRollUp(cfg, ops, cut, row, done)
    ensures Clean(cfg, ops, if done < |Buckets(cfg.windows, row)| then cut + 1 else cut)
  {
    AppendEventOps(cfg.windows, ops[..|ops| - 1 - done], row, done);
  }

  lemma StartRollUp(cfg: Setup, ops: seq<Op>, cut: nat, row: EventRow)
    requires Clean(cfg, ops, cut)
    ensures MidRollUp(cfg, ops + [AddEvent(row)], cut, row, 0)
  {
    var after := ops + [AddEvent(row)];
    assert after[..|after| - 1] == ops;
    assert Increments(Buckets(cfg.windows, row)[..0]) == [];
  }

  lemma BumpMidRollUp(cfg: Setup, ops: seq<Op>, cut: nat, row: EventRow, done: nat)
    requires MidRollUp(cfg, ops, cut, row, done) && done < |Buckets(cfg.windows, row)|
    ensures MidRollUp(cfg, ops + [Increment(Buckets(cfg.windows, row)[done])], cut, row, done + 1)
  {
    var keys := Buckets(cfg.windows, row);
    var base, after := ops[..|ops| - 1 - done], ops + [Increment(keys[done])];
    assert after[..|after| - 2 - done] == base;
    EventOpsNext(cfg.windows, base, row, done);
  }

  lemma BumpKeepsSessionInv(cfg: Setup, ph: Phase, s: Held)
    requires RollUpEnabled(cfg, ph, BumpBucket) && SessionInv(cfg, ph, s)
    ensures var (ph', s') := DoRollUp(cfg, ph, s, BumpBucket); SessionInv(cfg, ph', s')
  {
    BumpMidRollUp(cfg, s.pending, s.cut, ph.batch[ph.next].row, ph.stage.done);
  }

  lemma RollUpEndKeepsSessionInv(cfg: Setup, ph: Phase, s: Held, a: Action)
    requires OfRollUp(a) && !a.BumpBucket? && RollUpEnabled(cfg, ph, a) && SessionInv(cfg, ph, s)
    ensures var (ph', s') := DoRollUp(cfg, ph, s, a); SessionInv(cfg, ph', s')
  {
    MidRollUpEnds(cfg, s.pending, s.cut, ph.batch[ph.next].row, ph.stage.done);
  }

  /** A roll-up cut short gives up exactness, never soundness. */
  lemma RollUpKeepsSessionInv(cfg: Setup, ph: Phase, s: Held, a: Action)
    requires OfRollUp(a) && RollUpEnabled(cfg, ph, a) && SessionInv(cfg, ph, s)
    ensures var (ph', s') := DoRollUp(cfg, ph, s, a); SessionInv(cfg, ph', s')
  {
    if a.BumpBucket? {
      BumpKeepsSessionInv(cfg, ph, s);
    } else {
      RollUpEndKeepsSessionInv(cfg, ph, s, a);
    }
  }

  lemma InsertKeepsSessionInv(cfg: Setup, ph: Phase, s: Held)
    requires WritingEnabled(cfg, ph, Insert) && SessionInv(cfg, ph, s)
    ensures var (ph', s') := DoInsert(ph, s); SessionInv(cfg, ph', s')
  {
    match ph.batch[ph.next]
    case CountPayload(row) => StartRollUp(cfg, s.pending, s.cut, row);
    case LaneChangePayload(change) => AppendLaneChange(cfg.windows, s.pending, change);
  }

  lemma ClearedIsClean(cfg: Setup, s: Held)
    ensures Clean(cfg, Cleared(s).pending, Cleared(s).cut) && Clean(cfg, Committed(s).pending, Committed(s).cut)
  {
    NothingPending(cfg.windows);
  }

  lemma WritingKeepsSessionInv(cfg: Setup, ph: Phase, s: Held, a: Action)
    requires WritingEnabled(cfg, ph, a) && SessionInv(cfg, ph, s)
    ensures var (ph', s') := DoWriting(cfg, ph, s, a); SessionInv(cfg, ph', s')
  {
    ClearedIsClean(cfg, s);
    if OfRollUp(a) {
      RollUpKeepsSessionInv(cfg, ph, s, a);
    } else if a.Insert? {
      InsertKeepsSessionInv(cfg, ph, s);
    }
  }

  lemma TakingStepKeepsSessionInv(cfg: Setup, w: Worker, a: Action)
    requires TakingEnabled(cfg, w.intake.queue, w.phase, a) && BatchBound(cfg, w.phase)
    requires SessionInv(cfg, w.phase, w.session)
    ensures var w' := DoLocal(cfg, w, a); SessionInv(cfg, w'.phase, w'.session)
  {
  }

  lemma EndingStepKeepsSessionInv(cfg: Setup, w: Worker, a: Action)
    requires EndingEnabled(w.intake.queue, w.phase, a) && SessionInv(cfg, w.phase, w.session)
    ensures var w' := DoLocal(cfg, w, a); SessionInv(cfg, w'.phase, w'.session)
  {
    ClearedIsClean(cfg, w.session);
  }

  /** At every point of writing a batch the session is sound, and exact if and only if nothing in it was cut short. */
  lemma StepKeepsSessionInv(cfg: Setup, w: Worker, a: Action, db: Db)
    requires BatchBound(cfg, w.phase) && SessionInv(cfg, w.phase, w.session) && Enabled(cfg, w, a)
    ensures var w' := Do(cfg, db, w, a).1; SessionInv(cfg, w'.phase, w'.session)
  {
    if a.CommitOk? {
      ClearedIsClean(cfg, w.session);
    } else {
      LocalStepKeepsSessionInv(cfg, w, a);
    }
  }

  lemma LocalStepKeepsSessionInv(cfg: Setup, w: Worker, a: Action)
    requires BatchBound(cfg, w.phase) && SessionInv(cfg, w.phase, w.session) && Enabled(cfg, w, a) && !a.CommitOk?
    ensures var w' := DoLocal(cfg, w, a); SessionInv(cfg, w'.phase, w'.session)
  {
    if OfProducer(a) {
      ProducerStepKeepsSessionInv(cfg, w, a);
    } else if OfTaking(a) {
      TakingStepKeepsSessionInv(cfg, w, a);
    } else if OfWriting(a) {
      WritingStepKeepsSessionInv(cfg, w, a);
    } else {
      EndingStepKeepsSessionInv(cfg, w, a);
    }
  }

  lemma ProducerStepKeepsSessionInv(cfg: Setup, w: Worker, a: Action)
    requires OfProducer(a) && SessionInv(cfg, w.phase, w.session)
    ensures var w' := DoLocal(cfg, w, a); SessionInv(cfg, w'.phase, w'.session)
  {
    OfferKeepsPhaseAndSession(cfg, w, a);
  }

  lemma WritingStepKeepsSessionInv(cfg: Setup, w: Worker, a: Action)
    requires WritingEnabled(cfg, w.phase, a) && SessionInv(cfg, w.phase, w.session)
    ensures var w' := DoLocal(cfg, w, a); SessionInv(cfg, w'.phase, w'.session)
  {
    WritingKeepsSessionInv(cfg, w.phase, w.session, a);
  }

  lemma OfferKeepsPhaseAndSession(cfg: Setup, w: Worker, a: Action)
    requires OfProducer(a)
    ensures DoProducer(cfg, w, a).phase == w.phase && DoProducer(cfg, w, a).session == w.session
  {
  }

  /** The database stays sound, and exact if and only if the step commits no event with a roll-up cut short. */
  lemma StepKeepsDatabase(cfg: Setup, w: Worker, a: Action, db: Db)
    requires SessionInv(cfg, w.phase, w.session) && Enabled(cfg, w, a) && DbBounded(cfg.windows, db)
    ensures var (db', w') := Do(cfg, db, w, a);
      && DbBounded(cfg.windows, db')
      && w'.session.damaged >= w.session.damaged
      && (DbExact(cfg.windows, db') <==> DbExact(cfg.windows, db) && w'.session.damaged == w.session.damaged)
  {
    if a.CommitOk? {
      SessionAtCommit(cfg, w, db);
      CommitKeepsDatabase(cfg, w.session, db);
    } else {
      OnlyCommitsDamage(cfg, w, a);
      assert Do(cfg, db, w, a) == (db, DoLocal(cfg, w, a));
    }
  }

  lemma SessionAtCommit(cfg: Setup, w: Worker, db: Db)
    requires SessionInv(cfg, w.phase, w.session) && Enabled(cfg, w, CommitOk)
    ensures Clean(cfg, w.session.pending, w.session.cut)
    ensures var (db', w') := Do(cfg, db, w, CommitOk);
      db' == Apply(db, w.session.pending) && w'.session == Committed(w.session)
  {
  }

  lemma CommitKeepsDatabase(cfg: Setup, s: Held, db: Db)
    requires Clean(cfg, s.pending, s.cut) && DbBounded(cfg.windows, db)
    ensures var db' := Apply(db, s.pending);
      && DbBounded(cfg.windows, db')
      && Committed(s).damaged >= s.damaged
      && (DbExact(cfg.windows, db') <==> DbExact(cfg.windows, db) && Committed(s).damaged == s.damaged)
  {
    CommitKeepsIndex(cfg.windows, db, s.pending);
  }

  lemma OnlyCommitsDamage(cfg: Setup, w: Worker, a: Action)
    requires Enabled(cfg, w, a) && !a.CommitOk?
    ensures DoLocal(cfg, w, a).session.damaged == w.session.damaged
  {
    if OfProducer(a) {
      OfferKeepsPhaseAndSession(cfg, w, a);
    } else if OfWriting(a) {
      WritingKeepsDamage(cfg, w.phase, w.session, a);
    }
  }

  lemma WritingKeepsDamage(cfg: Setup, ph: Phase, s: Held, a: Action)
    requires WritingEnabled(cfg, ph, a)
    ensures DoWriting(cfg, ph, s, a).1.damaged == s.damaged
  {
  }
}

/** N workers on one database: every interleaving of their steps. */
module StorageSystem {
  import opened Sequences
  import opened RollupIndex
  import opened StorageProtocol
  import opened SessionInvariant

  datatype System = System(db: Db, workers: seq<Worker>)

  /** A scheduler's choice: which worker's machine moves, and how. A choice that is not enabled changes nothing. */
  datatype Choice = Choice(worker: nat, action: Action)

  function Initial(n: nat): System {
    System(EMPTY_DB, Repeat(NEW_WORKER, n))
  }

  function StepOf(cfg: Setup, s: System, c: Choice): System {
    if c.worker < |s.workers| && Enabled(cfg, s.workers[c.worker], c.action) then
      var (db, w) := Do(cfg, s.db, s.workers[c.worker], c.action);
      System(db, s.workers[c.worker := w])
    else s
  }

  /** The state after any schedule. */
  function Run(cfg: Setup, n: nat, choices: seq<Choice>): (s: System)
    ensures |s.workers| == n
  {
    if choices == [] then Initial(n)
    else StepOf(cfg, Run(cfg, n, choices[..|choices| - 1]), choices[|choices| - 1])
  }

  /** No worker has committed an event whose roll-up was cut short. */
  ghost predicate NothingDamaged(s: System) {
    forall i :: 0 <= i < |s.workers| ==> s.workers[i].session.damaged == 0
  }

  ghost predicate WorkerInv(cfg: Setup, w: Worker) {
    QueueInv(cfg, w) && SessionInv(cfg, w.phase, w.session)
  }

  ghost predicate SystemInv(cfg: Setup, s: System) {
    && (forall i :: 0 <= i < |s.workers| ==> WorkerInv(cfg, s.workers[i]))
    && DbBounded(cfg.windows, s.db)
    && (NothingDamaged(s) <==> DbExact(cfg.windows, s.db))
  }

  lemma NewWorkerInv(cfg: Setup)
    ensures WorkerInv(cfg, NEW_WORKER)
  {
    NothingPending(cfg.windows);
  }

  lemma InitialInv(cfg: Setup, n: nat)
    ensures SystemInv(cfg, Initial(n))
  {
    NewWorkerInv(cfg);
    assert DbExact(cfg.windows, EMPTY_DB);
  }

  lemma StepKeepsWorkerInv(cfg: Setup, db: Db, w: Worker, a: Action)
    requires cfg.Valid() && WorkerInv(cfg, w) && Enabled(cfg, w, a)
    ensures WorkerInv(cfg, Do(cfg, db, w, a).1)
  {
    StepKeepsQueueInv(cfg, db, w, a);
    StepKeepsSessionInv(cfg, w, a, db);
  }

  lemma DamageOfOne(s: System, i: nat, db: Db, w: Worker)
    requires i < |s.workers| && w.session.damaged >= s.workers[i].session.damaged
    ensures NothingDamaged(System(db, s.workers[i := w])) <==>
      NothingDamaged(s) && w.session.damaged == s.workers[i].session.damaged
  {
    var s' := System(db, s.workers[i := w]);
    if NothingDamaged(s') {
      assert s'.workers[i].session.damaged == 0;
      forall j | 0 <= j < |s.workers| ensures s.workers[j].session.damaged == 0 {
        assert s'.workers[j].session.damaged == 0;
      }
    }
  }

  /** One worker moved on, and the database with it. */
  lemma OneWorkerMoved(cfg: Setup, s: System, i: nat, db: Db, w: Worker)
    requires SystemInv(cfg, s) && i < |s.workers| && WorkerInv(cfg, w)
    requires DbBounded(cfg.windows, db) && w.session.damaged >= s.workers[i].session.damaged
    requires DbExact(cfg.windows, db) <==>
      DbExact(cfg.windows, s.db) && w.session.damaged == s.workers[i].session.damaged
    ensures SystemInv(cfg, System(db, s.workers[i := w]))
  {
    DamageOfOne(s, i, db, w);
  }

  lemma StepKeepsSystemInv(cfg: Setup, s: System, c: Choice)
    requires cfg.Valid() && SystemInv(cfg, s)
    ensures SystemInv(cfg, StepOf(cfg, s, c))
  {
    if c.worker < |s.workers| && Enabled(cfg, s.workers[c.worker], c.action) {
      var w := s.workers[c.worker];
      var (db, w') := Do(cfg, s.db, w, c.action);
      StepKeepsWorkerInv(cfg, s.db, w, c.action);
      StepKeepsDatabase(cfg, w, c.action, s.db);
      OneWorkerMoved(cfg, s, c.worker, db, w');
    }
  }

  lemma {:induction false} RunInv(cfg: Setup, n: nat, choices: seq<Choice>)
    requires cfg.Valid()
    ensures SystemInv(cfg, Run(cfg, n, choices))
  {
    if choices == [] {
      InitialInv(cfg, n);
    } else {
      RunInv(cfg, n, choices[..|choices| - 1]);
      StepKeepsSystemInv(cfg, Run(cfg, n, choices[..|choices| - 1]), choices[|choices| - 1]);
    }
  }

  /** Under every schedule no bucket exceeds what the committed events owe it. */
  lemma IndexNeverRunsAhead(cfg: Setup, n: nat, choices: seq<Choice>, k: Key)
    requires cfg.Valid()
    ensures var db := Run(cfg, n, choices).db;
      && CountAt(db.index, k) <= Weight(cfg.windows, k) * EventsAt(db.events, k)
      && (NoDuplicates(cfg.windows) ==> CountAt(db.index, k) <= EventsAt(db.events, k))
  {
    RunInv(cfg, n, choices);
    var db := Run(cfg, n, choices).db;
    OwedIsProduct(cfg.windows, db.events, k);
    if NoDuplicates(cfg.windows) {
      NeverMoreThanEvents(cfg.windows, db, k);
    }
  }

  /**
   * FIFO, exactly once: per worker, what was accepted is handled, in flight or queued, in order; and the books
   * balance.
   */
  lemma AcceptedInOrder(cfg: Setup, n: nat, choices: seq<Choice>, i: nat)
    requires cfg.Valid() && i < n
    ensures var w := Run(cfg, n, choices).workers[i];
      && w.intake.accepted == w.books.handled + InFlight(w.phase) + Payloads(w.intake.queue)
      && w.intake.offered == |w.intake.accepted| + w.intake.dropped
      && |w.books.handled| == w.books.processed + w.books.errors + w.books.lost
      && |w.books.deadLetter| <= DEAD_LETTER_MAX
  {
    RunInv(cfg, n, choices);
    assert WorkerInv(cfg, Run(cfg, n, choices).workers[i]);
  }

  /** A drained batch is lost only when no adapter could be made for it. */
  lemma {:induction false} OnlyAdapterlessDrainsLose(cfg: Setup, n: nat, choices: seq<Choice>, i: nat)
    requires i < n && forall c :: c in choices ==> c.action != DrainEnd(false)
    ensures Run(cfg, n, choices).workers[i].books.lost == 0
  {
    if choices != [] {
      var front, c := choices[..|choices| - 1], choices[|choices| - 1];
      OnlyAdapterlessDrainsLose(cfg, n, front, i);
      assert c in choices;
      var s := Run(cfg, n, front);
      if c.worker == i && Enabled(cfg, s.workers[i], c.action) {
        LossStep(cfg, s.db, s.workers[i], c.action);
      }
    }
  }

  lemma LossStep(cfg: Setup, db: Db, w: Worker, a: Action)
    requires Enabled(cfg, w, a) && a != DrainEnd(false)
    ensures Do(cfg, db, w, a).1.books.lost == w.books.lost
  {
  }
}

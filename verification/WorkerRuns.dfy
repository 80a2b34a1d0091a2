/** Runs of one worker's machine while nobody else moves. */
module WorkerRuns {
  import opened Sequences
  import opened RollupIndex
  import opened StorageProtocol
  import opened StorageSystem

  /** The effect of a schedule of one machine; a step that is not enabled changes nothing. */
  function Exec(cfg: Setup, db: Db, w: Worker, acts: seq<Action>): (Db, Worker) {
    if acts == [] then (db, w)
    else
      var (d, v) := Exec(cfg, db, w, acts[..|acts| - 1]);
      var a := acts[|acts| - 1];
      if Enabled(cfg, v, a) then Do(cfg, d, v, a) else (d, v)
  }

  /** Some schedule of the machine leads from one state of database and worker to the other. */
  ghost predicate Reaches(cfg: Setup, db: Db, w: Worker, db': Db, w': Worker) {
    exists acts :: Exec(cfg, db, w, acts) == (db', w')
  }

  lemma ReachesSelf(cfg: Setup, db: Db, w: Worker)
    ensures Reaches(cfg, db, w, db, w)
  {
    assert Exec(cfg, db, w, []) == (db, w);
  }

  lemma ReachesOneMore(cfg: Setup, db: Db, w: Worker, db': Db, w': Worker, a: Action)
    requires Reaches(cfg, db, w, db', w') && Enabled(cfg, w', a)
    ensures var (db1, w1) := Do(cfg, db', w', a); Reaches(cfg, db, w, db1, w1)
  {
    var acts :| Exec(cfg, db, w, acts) == (db', w');
    assert (acts + [a])[..|acts|] == acts;
    assert Exec(cfg, db, w, acts + [a]) == Do(cfg, db', w', a);
  }

  lemma ReachesStep(cfg: Setup, db: Db, w: Worker, db': Db, w': Worker, a: Action, db'': Db, w'': Worker)
    requires Reaches(cfg, db, w, db', w') && Enabled(cfg, w', a) && Do(cfg, db', w', a) == (db'', w'')
    ensures Reaches(cfg, db, w, db'', w'')
  {
    ReachesOneMore(cfg, db, w, db', w', a);
  }

  lemma ReachesByOne(cfg: Setup, db: Db, w: Worker, a: Action)
    requires Enabled(cfg, w, a)
    ensures var (db1, w1) := Do(cfg, db, w, a); Reaches(cfg, db, w, db1, w1)
  {
    ReachesSelf(cfg, db, w);
    ReachesOneMore(cfg, db, w, db, w, a);
  }

  lemma {:induction false} ExecAppend(cfg: Setup, db: Db, w: Worker, a: seq<Action>, b: seq<Action>)
    ensures var (db', w') := Exec(cfg, db, w, a); Exec(cfg, db, w, a + b) == Exec(cfg, db', w', b)
  {
    if b == [] {
      assert a + b == a;
    } else {
      ExecAppend(cfg, db, w, a, b[..|b| - 1]);
      DropLastOfConcat(a, b);
    }
  }

  lemma ReachesTransitive(cfg: Setup, db: Db, w: Worker, db': Db, w': Worker, db'': Db, w'': Worker)
    requires Reaches(cfg, db, w, db', w') && Reaches(cfg, db', w', db'', w'')
    ensures Reaches(cfg, db, w, db'', w'')
  {
    var a :| Exec(cfg, db, w, a) == (db', w');
    var b :| Exec(cfg, db', w', b) == (db'', w'');
    ExecAppend(cfg, db, w, a, b);
    assert Exec(cfg, db, w, a + b) == (db'', w'');
  }

  lemma {:induction false} ExecKeepsInvariants(cfg: Setup, db: Db, w: Worker, acts: seq<Action>)
    requires cfg.Valid() && WorkerInv(cfg, w)
    ensures WorkerInv(cfg, Exec(cfg, db, w, acts).1)
  {
    if acts != [] {
      var front, a := acts[..|acts| - 1], acts[|acts| - 1];
      ExecKeepsInvariants(cfg, db, w, front);
      var (d, v) := Exec(cfg, db, w, front);
      if Enabled(cfg, v, a) {
        StepKeepsWorkerInv(cfg, d, v, a);
      }
    }
  }

  /** Some schedule leads a new worker here. */
  ghost predicate Reachable(cfg: Setup, w: Worker) {
    exists acts :: Exec(cfg, EMPTY_DB, NEW_WORKER, acts).1 == w
  }

  /** A machine never looks at the database. */
  lemma {:induction false} ExecIgnoresDb(cfg: Setup, db: Db, other: Db, w: Worker, acts: seq<Action>)
    ensures Exec(cfg, db, w, acts).1 == Exec(cfg, other, w, acts).1
  {
    if acts != [] {
      ExecIgnoresDb(cfg, db, other, w, acts[..|acts| - 1]);
    }
  }

  lemma ReachableExtends(cfg: Setup, db: Db, w: Worker, db': Db, w': Worker)
    requires Reachable(cfg, w) && Reaches(cfg, db, w, db', w')
    ensures Reachable(cfg, w')
  {
    var a :| Exec(cfg, EMPTY_DB, NEW_WORKER, a).1 == w;
    var b :| Exec(cfg, db, w, b) == (db', w');
    ExecAppend(cfg, EMPTY_DB, NEW_WORKER, a, b);
    ExecIgnoresDb(cfg, db, Exec(cfg, EMPTY_DB, NEW_WORKER, a).0, w, b);
    assert Exec(cfg, EMPTY_DB, NEW_WORKER, a + b).1 == w';
  }

  /** Order, ledger, bounds and a sound session hold wherever a worker can get. */
  lemma ReachableInvariants(cfg: Setup, w: Worker)
    requires cfg.Valid() && Reachable(cfg, w)
    ensures WorkerInv(cfg, w)
  {
    var acts :| Exec(cfg, EMPTY_DB, NEW_WORKER, acts).1 == w;
    NewWorkerInv(cfg);
    ExecKeepsInvariants(cfg, EMPTY_DB, NEW_WORKER, acts);
  }

  function OfWorker(i: nat, acts: seq<Action>): (r: seq<Choice>)
    ensures |r| == |acts|
    ensures forall j :: 0 <= j < |acts| ==> r[j] == Choice(i, acts[j])
  {
    seq(|acts|, j requires 0 <= j < |acts| => Choice(i, acts[j]))
  }

  /** What one worker does undisturbed is one of the schedules of the whole system. */
  lemma {:induction false} ExecIsASchedule(cfg: Setup, n: nat, choices: seq<Choice>, i: nat, acts: seq<Action>)
    requires i < n
    ensures var s := Run(cfg, n, choices);
            var (db', w') := Exec(cfg, s.db, s.workers[i], acts);
      Run(cfg, n, choices + OfWorker(i, acts)) == System(db', s.workers[i := w'])
  {
    var s := Run(cfg, n, choices);
    if acts == [] {
      assert choices + OfWorker(i, acts) == choices;
      assert s.workers[i := s.workers[i]] == s.workers;
    } else {
      var front := acts[..|acts| - 1];
      ExecIsASchedule(cfg, n, choices, i, front);
      var all := choices + OfWorker(i, acts);
      assert all[..|all| - 1] == choices + OfWorker(i, front) && all[|all| - 1] == Choice(i, acts[|acts| - 1]);
      var (d, v) := Exec(cfg, s.db, s.workers[i], front);
      OneMoveOfWorker(cfg, s.workers, i, d, v, acts[|acts| - 1]);
    }
  }

  lemma OneMoveOfWorker(cfg: Setup, workers: seq<Worker>, i: nat, db: Db, w: Worker, a: Action)
    requires i < |workers|
    ensures var (db', w') := if Enabled(cfg, w, a) then Do(cfg, db, w, a) else (db, w);
      StepOf(cfg, System(db, workers[i := w]), Choice(i, a)) == System(db', workers[i := w'])
  {
    var (db', w') := if Enabled(cfg, w, a) then Do(cfg, db, w, a) else (db, w);
    assert workers[i := w][i] == w;
    assert workers[i := w][i := w'] == workers[i := w'];
  }

  // ---- The two inner loops of writing a batch, as runs ----

  /** A roll-up after its first `n` upserts. */
  function Bumped(cfg: Setup, w: Worker, n: nat): Worker
    requires w.phase.Writing? && w.phase.next < |w.phase.batch| && w.phase.batch[w.phase.next].CountPayload?
    requires n <= |Buckets(cfg.windows, w.phase.batch[w.phase.next].row)|
  {
    var ops := Increments(Buckets(cfg.windows, w.phase.batch[w.phase.next].row)[..n]);
    w.(session := w.session.(pending := w.session.pending + ops), phase := w.phase.(stage := RollingUp(n)))
  }

  lemma {:induction false} BumpsReach(cfg: Setup, db: Db, w: Worker, n: nat)
    requires w.phase.Writing? && w.phase.next < |w.phase.batch| && w.phase.batch[w.phase.next].CountPayload?
    requires w.phase.stage == RollingUp(0) && n <= |Buckets(cfg.windows, w.phase.batch[w.phase.next].row)|
    ensures Reaches(cfg, db, w, db, Bumped(cfg, w, n))
  {
    var keys := Buckets(cfg.windows, w.phase.batch[w.phase.next].row);
    if n == 0 {
      assert Bumped(cfg, w, 0) == w;
      ReachesSelf(cfg, db, w);
    } else {
      BumpsReach(cfg, db, w, n - 1);
      OneBump(cfg, db, w, n - 1);
      ReachesStep(cfg, db, w, db, Bumped(cfg, w, n - 1), BumpBucket, db, Bumped(cfg, w, n));
    }
  }

  lemma OneBump(cfg: Setup, db: Db, w: Worker, n: nat)
    requires w.phase.Writing? && w.phase.next < |w.phase.batch| && w.phase.batch[w.phase.next].CountPayload?
    requires n < |Buckets(cfg.windows, w.phase.batch[w.phase.next].row)|
    ensures Enabled(cfg, Bumped(cfg, w, n), BumpBucket)
    ensures Do(cfg, db, Bumped(cfg, w, n), BumpBucket) == (db, Bumped(cfg, w, n + 1))
  {
    var keys := Buckets(cfg.windows, w.phase.batch[w.phase.next].row);
    var one, more := Bumped(cfg, w, n), Bumped(cfg, w, n + 1);
    assert Increments(keys[..n + 1]) == Increments(keys[..n]) + [Increment(keys[n])];
    assert one.session.pending + [Increment(keys[n])] == more.session.pending;
    assert one.phase.(stage := RollingUp(n + 1)) == more.phase;
  }

  /** A commit after its first `n` attempts met a lock. */
  function LockedOut(w: Worker, n: nat): Worker
    requires w.phase.Writing?
  {
    if n == 0 then w else w.(session := Cleared(w.session), phase := w.phase.(stage := Committing(n)))
  }

  lemma NoLock(cfg: Setup, db: Db, w: Worker)
    requires w.phase.Writing?
    ensures Reaches(cfg, db, w, db, LockedOut(w, 0))
  {
    ReachesSelf(cfg, db, w);
  }

  lemma OneMoreLock(cfg: Setup, db: Db, w: Worker, n: nat)
    requires w.phase.Writing? && w.phase.stage == Committing(0) && 0 < n < COMMIT_ATTEMPTS
    requires Reaches(cfg, db, w, db, LockedOut(w, n - 1))
    ensures Reaches(cfg, db, w, db, LockedOut(w, n))
  {
    OneLock(cfg, db, w, n - 1);
    ReachesStep(cfg, db, w, db, LockedOut(w, n - 1), CommitLocked(Expected), db, LockedOut(w, n));
  }

  lemma {:induction false} LocksReach(cfg: Setup, db: Db, w: Worker, n: nat)
    requires w.phase.Writing? && w.phase.stage == Committing(0) && n < COMMIT_ATTEMPTS
    ensures Reaches(cfg, db, w, db, LockedOut(w, n))
  {
    if n == 0 {
      NoLock(cfg, db, w);
    } else {
      LocksReach(cfg, db, w, n - 1);
      OneMoreLock(cfg, db, w, n);
    }
  }

  lemma OneLock(cfg: Setup, db: Db, w: Worker, n: nat)
    requires w.phase.Writing? && w.phase.stage == Committing(0) && n + 1 < COMMIT_ATTEMPTS
    ensures Enabled(cfg, LockedOut(w, n), CommitLocked(Expected))
    ensures Do(cfg, db, LockedOut(w, n), CommitLocked(Expected)) == (db, LockedOut(w, n + 1))
  {
  }
}

/** What handling a batch does to session, database and books, for every behaviour of the outside. */
module BatchRuns {
  import opened Sequences
  import opened RollupIndex
  import opened StorageProtocol
  import opened Repositories
  import opened WorkerRuns

  /** What the outside does while one item and its batch are handled; `patience` counts the gets before the deadline. */
  datatype World = World(
    adapterReady: bool,
    patience: nat,
    insertFault: nat -> Option<Fault>,
    upsertFault: nat -> nat -> Option<Fault>,
    attempt: nat -> Attempt,
    publishes: bool,
    rollsBack: bool)

  // ---- One payload ----

  /** The upserts made for an event at position `i` of a batch. */
  function UpsertsMade(windows: seq<string>, world: World, row: EventRow, i: nat): (n: nat)
    ensures n <= |Buckets(windows, row)|
  {
    RaisesAt(world.upsertFault(i), 0, |Buckets(windows, row)|)
  }

  /** What the payload at position `i` of a batch adds to the session. */
  function PayloadOps(windows: seq<string>, world: World, p: Payload, i: nat): seq<Op> {
    if world.insertFault(i).Some? then []
    else
      match p
      case LaneChangePayload(change) => [AddLaneChange(change)]
      case CountPayload(row) => EventOps(windows, row, UpsertsMade(windows, world, row, i))
  }

  /** The fault that leaves its handling: an expected one of a roll-up does not. */
  function PayloadFault(windows: seq<string>, world: World, p: Payload, i: nat): Option<Fault> {
    if world.insertFault(i).Some? then world.insertFault(i)
    else
      match p
      case LaneChangePayload(_) => None
      case CountPayload(row) =>
        var n := UpsertsMade(windows, world, row, i);
        if n < |Buckets(windows, row)| && world.upsertFault(i)(n).value.Unexpected?
        then world.upsertFault(i)(n)
        else None
  }

  /** The event was inserted without all of its upserts. */
  predicate CutShort(windows: seq<string>, world: World, p: Payload, i: nat) {
    world.insertFault(i).None? && p.CountPayload? && UpsertsMade(windows, world, p.row, i) < |Buckets(windows, p.row)|
  }

  /** The machine after one payload has been written or has raised. */
  function AfterPayload(cfg: Setup, w: Worker, world: World): Worker
    requires w.phase.Writing? && w.phase.next < |w.phase.batch|
  {
    var ph, s := w.phase, w.session;
    var p := ph.batch[ph.next];
    var fault := PayloadFault(cfg.windows, world, p, ph.next);
    w.(session := s.(pending := s.pending + PayloadOps(cfg.windows, world, p, ph.next),
                     cut := if CutShort(cfg.windows, world, p, ph.next) then s.cut + 1 else s.cut),
       phase := if fault.Some? then Raised(ph.batch, ph.draining, fault.value)
                else WriteFrom(ph.batch, ph.next + 1, ph.draining))
  }

  ghost predicate AtInsert(w: Worker) {
    w.phase.Writing? && w.phase.next < |w.phase.batch| && w.phase.stage.Inserting?
  }

  lemma InsertFaultReaches(cfg: Setup, db: Db, w: Worker, world: World)
    requires AtInsert(w) && world.insertFault(w.phase.next).Some?
    ensures Reaches(cfg, db, w, db, AfterPayload(cfg, w, world))
  {
    var step := InsertFails(world.insertFault(w.phase.next).value);
    assert w.session.pending + [] == w.session.pending;
    assert Do(cfg, db, w, step) == (db, AfterPayload(cfg, w, world));
    ReachesByOne(cfg, db, w, step);
  }

  lemma LaneChangeReaches(cfg: Setup, db: Db, w: Worker, world: World)
    requires AtInsert(w) && world.insertFault(w.phase.next).None? && w.phase.batch[w.phase.next].LaneChangePayload?
    ensures Reaches(cfg, db, w, db, AfterPayload(cfg, w, world))
  {
    assert Do(cfg, db, w, Insert) == (db, AfterPayload(cfg, w, world));
    ReachesByOne(cfg, db, w, Insert);
  }

  /** The machine after inserting a count event. */
  function Inserted(w: Worker, row: EventRow): Worker
    requires w.phase.Writing?
  {
    w.(session := w.session.(pending := w.session.pending + [AddEvent(row)]), phase := w.phase.(stage := RollingUp(0)))
  }

  lemma InsertReaches(cfg: Setup, db: Db, w: Worker, row: EventRow)
    requires AtInsert(w) && w.phase.batch[w.phase.next] == CountPayload(row)
    ensures Reaches(cfg, db, w, db, Inserted(w, row))
  {
    assert Do(cfg, db, w, Insert) == (db, Inserted(w, row));
    ReachesByOne(cfg, db, w, Insert);
  }

  /** The last step of the roll-up. */
  function RollUpEnd(cfg: Setup, world: World, row: EventRow, i: nat): Action {
    if UpsertsMade(cfg.windows, world, row, i) == |Buckets(cfg.windows, row)| then FinishRollUp
    else if PayloadFault(cfg.windows, world, CountPayload(row), i).Some? then RollUpFails
    else SwallowRollUpError
  }

  lemma EndOfRollUp(cfg: Setup, db: Db, w: Worker, world: World, row: EventRow)
    requires AtInsert(w) && world.insertFault(w.phase.next).None? && w.phase.batch[w.phase.next] == CountPayload(row)
    ensures var end := RollUpEnd(cfg, world, row, w.phase.next);
            var v := Bumped(cfg, Inserted(w, row), UpsertsMade(cfg.windows, world, row, w.phase.next));
      Enabled(cfg, v, end) && Do(cfg, db, v, end) == (db, AfterPayload(cfg, w, world))
  {
    var n := UpsertsMade(cfg.windows, world, row, w.phase.next);
    var ups := Increments(Buckets(cfg.windows, row)[..n]);
    assert w.session.pending + [AddEvent(row)] + ups == w.session.pending + ([AddEvent(row)] + ups);
  }

  lemma EventReaches(cfg: Setup, db: Db, w: Worker, world: World, row: EventRow)
    requires AtInsert(w) && world.insertFault(w.phase.next).None? && w.phase.batch[w.phase.next] == CountPayload(row)
    ensures Reaches(cfg, db, w, db, AfterPayload(cfg, w, world))
  {
    var inserted, n := Inserted(w, row), UpsertsMade(cfg.windows, world, row, w.phase.next);
    InsertReaches(cfg, db, w, row);
    BumpsReach(cfg, db, inserted, n);
    ReachesTransitive(cfg, db, w, db, inserted, db, Bumped(cfg, inserted, n));
    EndOfRollUp(cfg, db, w, world, row);
    ReachesStep(cfg, db, w, db, Bumped(cfg, inserted, n), RollUpEnd(cfg, world, row, w.phase.next),
                db, AfterPayload(cfg, w, world));
  }

  lemma PayloadReaches(cfg: Setup, db: Db, w: Worker, world: World)
    requires AtInsert(w)
    ensures Reaches(cfg, db, w, db, AfterPayload(cfg, w, world))
  {
    if world.insertFault(w.phase.next).Some? {
      InsertFaultReaches(cfg, db, w, world);
    } else {
      match w.phase.batch[w.phase.next]
      case CountPayload(row) => EventReaches(cfg, db, w, world, row);
      case LaneChangePayload(_) => LaneChangeReaches(cfg, db, w, world);
    }
  }

  // ---- The commit ----

  /** The machine after the commit loop. */
  function AfterCommit(w: Worker, attempt: nat -> Attempt): Worker
    requires w.phase.Writing?
  {
    var ph, n := w.phase, LockedUntil(attempt, 0, COMMIT_ATTEMPTS);
    var s := if n == 0 then w.session else Cleared(w.session);
    var fault := CommitFault(attempt, COMMIT_ATTEMPTS);
    if fault.None? then w.(session := Committed(s), phase := Publishing(ph.batch, ph.draining))
    else
      w.(session := if n < COMMIT_ATTEMPTS && attempt(n).kept then s else Cleared(s),
         phase := Raised(ph.batch, ph.draining, fault.value))
  }

  /** The attempts before the last one, and the step the last one makes. */
  function LastAttempt(attempt: nat -> Attempt): (nat, Action) {
    var n := LockedUntil(attempt, 0, COMMIT_ATTEMPTS);
    if n == COMMIT_ATTEMPTS then (n - 1, CommitLocked(attempt(n - 1).fault))
    else if attempt(n).Commits? then (n, CommitOk)
    else (n, CommitFails(attempt(n).fault, attempt(n).kept))
  }

  lemma EndOfCommit(cfg: Setup, db: Db, w: Worker, attempt: nat -> Attempt)
    requires w.phase.Writing? && w.phase.stage == Committing(0)
    ensures var (n, end) := LastAttempt(attempt);
      && n < COMMIT_ATTEMPTS && Enabled(cfg, LockedOut(w, n), end)
      && Do(cfg, db, LockedOut(w, n), end)
           == (DbAfterCommit(attempt, COMMIT_ATTEMPTS, w.session.pending, db), AfterCommit(w, attempt))
  {
    var (n, end) := LastAttempt(attempt);
    var v := LockedOut(w, n);
    assert v.phase == w.phase.(stage := Committing(n));
    assert v.session == if n == 0 then w.session else Cleared(w.session);
  }

  lemma CommitReaches(cfg: Setup, db: Db, w: Worker, attempt: nat -> Attempt)
    requires w.phase.Writing? && w.phase.stage == Committing(0)
    ensures Reaches(cfg, db, w, DbAfterCommit(attempt, COMMIT_ATTEMPTS, w.session.pending, db), AfterCommit(w, attempt))
  {
    var (n, end) := LastAttempt(attempt);
    EndOfCommit(cfg, db, w, attempt);
    LocksReach(cfg, db, w, n);
    ReachesStep(cfg, db, w, db, LockedOut(w, n), end,
                DbAfterCommit(attempt, COMMIT_ATTEMPTS, w.session.pending, db), AfterCommit(w, attempt));
  }

  // ---- A whole batch ----

  /** What the first payloads of a batch add to the session, up to the first fault. */
  function BatchOps(windows: seq<string>, world: World, batch: seq<Payload>): seq<Op> {
    if batch == [] then []
    else
      var front, i := batch[..|batch| - 1], |batch| - 1;
      BatchOps(windows, world, front)
      + if WriteFault(windows, world, front).Some? then [] else PayloadOps(windows, world, batch[i], i)
  }

  /** The first fault that leaves the handling of a payload of a batch. */
  function WriteFault(windows: seq<string>, world: World, batch: seq<Payload>): Option<Fault> {
    if batch == [] then None
    else
      var front, i := batch[..|batch| - 1], |batch| - 1;
      if WriteFault(windows, world, front).Some? then WriteFault(windows, world, front)
      else PayloadFault(windows, world, batch[i], i)
  }

  lemma BatchNext(windows: seq<string>, world: World, batch: seq<Payload>, i: nat)
    requires i < |batch| && WriteFault(windows, world, batch[..i]).None?
    ensures BatchOps(windows, world, batch[..i + 1])
      == BatchOps(windows, world, batch[..i]) + PayloadOps(windows, world, batch[i], i)
    ensures WriteFault(windows, world, batch[..i + 1]) == PayloadFault(windows, world, batch[i], i)
  {
    assert batch[..i + 1][..i] == batch[..i];
  }

  lemma PendingAfterNext(windows: seq<string>, world: World, batch: seq<Payload>, i: nat, start: seq<Op>)
    requires i < |batch| && WriteFault(windows, world, batch[..i]).None?
    ensures start + BatchOps(windows, world, batch[..i]) + PayloadOps(windows, world, batch[i], i)
      == start + BatchOps(windows, world, batch[..i + 1])
  {
    BatchNext(windows, world, batch, i);
  }

  /** Once a payload raised, the rest of the batch adds nothing. */
  lemma {:induction false} RestAddsNothing(windows: seq<string>, world: World, batch: seq<Payload>, i: nat)
    requires i <= |batch| && (i < |batch| ==> WriteFault(windows, world, batch[..i]).Some?)
    ensures BatchOps(windows, world, batch) == BatchOps(windows, world, batch[..i])
    ensures WriteFault(windows, world, batch) == WriteFault(windows, world, batch[..i])
    decreases |batch|
  {
    if i < |batch| {
      var front := batch[..|batch| - 1];
      assert front[..i] == batch[..i];
      RestAddsNothing(windows, world, front, i);
    } else {
      assert batch[..i] == batch;
    }
  }

  /** The fault that ends the writing of a batch, from a payload or from the commit. */
  function BatchFault(windows: seq<string>, world: World, batch: seq<Payload>): Option<Fault> {
    var fault := WriteFault(windows, world, batch);
    if fault.Some? then fault else CommitFault(world.attempt, COMMIT_ATTEMPTS)
  }

  /** Database, session, dead letters and counters of a worker. */
  datatype Ledger = Ledger(db: Db, pending: seq<Op>, deadLetter: seq<Payload>, processed: nat, errors: nat)

  /** After writing a batch: a commit is reached when no payload raised. */
  function AfterWrite(windows: seq<string>, world: World, batch: seq<Payload>, l: Ledger): Ledger {
    var ops := l.pending + BatchOps(windows, world, batch);
    if WriteFault(windows, world, batch).Some? then l.(pending := ops)
    else
      l.(db := DbAfterCommit(world.attempt, COMMIT_ATTEMPTS, ops, l.db),
         pending := PendingAfterCommit(world.attempt, COMMIT_ATTEMPTS, ops))
  }

  /** The fault of a single count event is answered with a dead letter. */
  predicate Answered(windows: seq<string>, world: World, batch: seq<Payload>) {
    var fault := BatchFault(windows, world, batch);
    fault.Some? && AnswersFault(batch, fault.value)
  }

  /** `_process_batch` returns, rather than raises. */
  predicate Returns(windows: seq<string>, world: World, batch: seq<Payload>) {
    if BatchFault(windows, world, batch).Some? then Answered(windows, world, batch) else world.publishes
  }

  function AfterAnswer(answered: bool, batch: seq<Payload>, l: Ledger): Ledger
    requires batch != []
  {
    if answered then l.(deadLetter := ShiftDeadLetter(l.deadLetter, batch[0])) else l
  }

  /** After writing and publishing a batch, with its fault answered or not. */
  function AfterProcess(windows: seq<string>, world: World, batch: seq<Payload>, l: Ledger): Ledger
    requires batch != []
  {
    AfterAnswer(Answered(windows, world, batch), batch, AfterWrite(windows, world, batch, l))
  }

  /** All of a batch is processed, or all of it is an error, dead-lettered and rolled back. */
  function Entered(done: bool, batch: seq<Payload>, rollsBack: bool, l: Ledger): Ledger {
    if done then l.(processed := l.processed + |batch|)
    else
      l.(errors := l.errors + |batch|, deadLetter := AppendDeadLetters(l.deadLetter, batch),
         pending := if rollsBack then [] else l.pending)
  }

  /** A batch in the worker's loop. */
  function AfterBatch(windows: seq<string>, world: World, batch: seq<Payload>, l: Ledger): Ledger
    requires batch != []
  {
    Entered(Returns(windows, world, batch), batch, world.rollsBack, AfterProcess(windows, world, batch, l))
  }

  /** In a drain errors are counted but not dead-lettered, and the session is closed. */
  function EnteredLast(done: bool, n: nat, l: Ledger): Ledger {
    if done then l.(processed := l.processed + n, pending := []) else l.(errors := l.errors + n, pending := [])
  }

  /** The batch of a drain. */
  function AfterLastBatch(windows: seq<string>, world: World, batch: seq<Payload>, l: Ledger): Ledger {
    if batch == [] || !world.adapterReady then l.(pending := [])
    else EnteredLast(Returns(windows, world, batch), |batch|, AfterProcess(windows, world, batch, l))
  }

  /** An item that finds no adapter. */
  function AfterRefusal(p: Payload, l: Ledger): Ledger {
    l.(errors := l.errors + 1, deadLetter := AppendDeadLetter(l.deadLetter, p))
  }

  // ---- When nothing fails ----

  /** The adapter is there, every statement succeeds, and so does the first commit. */
  ghost predicate FaultFree(world: World) {
    && world.adapterReady
    && (forall i :: world.insertFault(i).None?)
    && (forall i, j :: world.upsertFault(i)(j).None?)
    && world.attempt(0).Commits?
  }

  /** All operations that a list of payloads stands for. */
  function AllOps(windows: seq<string>, ps: seq<Payload>): seq<Op> {
    if ps == [] then [] else AllOps(windows, ps[..|ps| - 1]) + OpsOf(windows, ps[|ps| - 1])
  }

  function OpsOf(windows: seq<string>, p: Payload): seq<Op> {
    match p
    case LaneChangePayload(change) => [AddLaneChange(change)]
    case CountPayload(row) => EventOps(windows, row, |Buckets(windows, row)|)
  }

  lemma {:induction false} AllOpsConcat(windows: seq<string>, a: seq<Payload>, b: seq<Payload>)
    ensures AllOps(windows, a + b) == AllOps(windows, a) + AllOps(windows, b)
  {
    if b == [] {
      assert a + b == a;
    } else {
      var front, p := b[..|b| - 1], b[|b| - 1];
      AllOpsConcat(windows, a, front);
      DropLastOfConcat(a, b);
      ConcatAssociates(AllOps(windows, a), AllOps(windows, front), OpsOf(windows, p));
    }
  }

  lemma {:induction false} FaultFreeOps(windows: seq<string>, world: World, batch: seq<Payload>)
    requires FaultFree(world)
    ensures BatchOps(windows, world, batch) == AllOps(windows, batch) && WriteFault(windows, world, batch).None?
  {
    if batch != [] {
      FaultFreeOps(windows, world, batch[..|batch| - 1]);
      FaultFreePayload(windows, world, batch[|batch| - 1], |batch| - 1);
    }
  }

  lemma FaultFreePayload(windows: seq<string>, world: World, p: Payload, i: nat)
    requires FaultFree(world)
    ensures PayloadOps(windows, world, p, i) == OpsOf(windows, p) && PayloadFault(windows, world, p, i).None?
  {
  }

  lemma FaultFreeCommit(attempt: nat -> Attempt, ops: seq<Op>, db: Db)
    requires attempt(0).Commits?
    ensures DbAfterCommit(attempt, COMMIT_ATTEMPTS, ops, db) == Apply(db, ops)
    ensures PendingAfterCommit(attempt, COMMIT_ATTEMPTS, ops) == []
    ensures CommitFault(attempt, COMMIT_ATTEMPTS).None?
  {
    assert LockedUntil(attempt, 0, COMMIT_ATTEMPTS) == 0;
  }

  /** Then a batch leaves all its operations in the database, and nothing pending. */
  lemma FaultFreeBatch(windows: seq<string>, world: World, batch: seq<Payload>, l: Ledger)
    requires FaultFree(world) && l.pending == []
    ensures var after := AfterWrite(windows, world, batch, l);
      after.db == Apply(l.db, AllOps(windows, batch)) && after.pending == []
  {
    FaultFreeOps(windows, world, batch);
    FaultFreeCommit(world.attempt, l.pending + BatchOps(windows, world, batch), l.db);
    assert [] + AllOps(windows, batch) == AllOps(windows, batch);
  }

  lemma {:induction false} ApplyConcat(db: Db, a: seq<Op>, b: seq<Op>)
    ensures Apply(db, a + b) == Apply(Apply(db, a), b)
  {
    if b == [] {
      assert a + b == a;
    } else {
      ApplyConcat(db, a, b[..|b| - 1]);
      DropLastOfConcat(a, b);
    }
  }

  /** The rows of the count payloads, in order. */
  function CountedRows(ps: seq<Payload>): seq<EventRow> {
    if ps == [] then []
    else CountedRows(ps[..|ps| - 1]) + RowOf(ps[|ps| - 1])
  }

  function RowOf(p: Payload): seq<EventRow> {
    match p
    case LaneChangePayload(_) => []
    case CountPayload(row) => [row]
  }

  lemma {:induction false} AllOpsAddAllRows(windows: seq<string>, ps: seq<Payload>)
    ensures Rows(AllOps(windows, ps)) == CountedRows(ps) && OpsExact(windows, AllOps(windows, ps))
  {
    if ps != [] {
      var front, p := ps[..|ps| - 1], ps[|ps| - 1];
      AllOpsAddAllRows(windows, front);
      AddAll(windows, AllOps(windows, front), p);
    }
  }

  lemma AddAll(windows: seq<string>, base: seq<Op>, p: Payload)
    requires OpsExact(windows, base)
    ensures Rows(base + OpsOf(windows, p)) == Rows(base) + RowOf(p) && OpsExact(windows, base + OpsOf(windows, p))
  {
    match p
    case LaneChangePayload(change) =>
      AppendLaneChange(windows, base, change);
      assert Rows(base) + [] == Rows(base);
    case CountPayload(row) =>
      AppendEventOps(windows, base, row, |Buckets(windows, row)|);
      EventOpsRows(windows, base, row, |Buckets(windows, row)|);
  }

  /**
   * Written without faults, payloads leave their rows in the table, in order, and every bucket raised by its events.
   */
  lemma AllOpsLeave(windows: seq<string>, db: Db, ps: seq<Payload>, k: Key)
    ensures var after := Apply(db, AllOps(windows, ps));
      && after.events == db.events + CountedRows(ps)
      && CountAt(after.index, k) == CountAt(db.index, k) + Weight(windows, k) * EventsAt(CountedRows(ps), k)
  {
    AllOpsAddAllRows(windows, ps);
    ApplyAddsRows(db, AllOps(windows, ps));
    ApplyAddsCounts(db, AllOps(windows, ps), k);
    OwedIsProduct(windows, CountedRows(ps), k);
  }
}

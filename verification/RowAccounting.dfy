/**
 * Which event and lane-change rows the tables hold: never more than were accepted, and all of them when nothing fails.
 */
module RowAccounting {
  import opened Sequences
  import opened RollupIndex
  import opened StorageProtocol
  import opened StorageSystem

  /** The operation that inserts a payload. */
  function InsertOf(p: Payload): Op {
    match p
    case CountPayload(row) => AddEvent(row)
    case LaneChangePayload(change) => AddLaneChange(change)
  }

  /** The part of the batch in flight that the session may have inserted. */
  function Consumed(ph: Phase): seq<Payload> {
    match ph
    case Writing(b, next, stage, _) =>
      var k := if stage.RollingUp? then next + 1 else next;
      if k <= |b| then b[..k] else b
    case Publishing(b, _) => b
    case Returning(b, _) => b
    case Raised(b, _, _) => b
    case Failing(b, _) => b
    case _ => []
  }

  /** How often the session has committed or still holds the row of `item`. */
  function RowsIn(s: Held, item: Payload): nat {
    Count(s.written, InsertOf(item)) + Count(s.pending, InsertOf(item))
  }

  /** How often the insert of `item` lies behind the worker. */
  function Behind(ph: Phase, handled: seq<Payload>, item: Payload): nat {
    Count(handled, item) + Count(Consumed(ph), item)
  }

  /** Rows committed or pending come from distinct payloads taken off the queue. */
  ghost predicate RowsInv(w: Worker, item: Payload) {
    RowsIn(w.session, item) <= Behind(w.phase, w.books.handled, item)
  }

  /** Every payload behind the worker has its row, and outside a batch nothing is pending. */
  ghost predicate RowsExact(w: Worker, item: Payload) {
    RowsIn(w.session, item) == Behind(w.phase, w.books.handled, item) && Settled(w.phase, w.session)
  }

  predicate Settled(ph: Phase, s: Held) {
    if ph.Writing? then ph.stage.Committing? ==> ph.next >= |ph.batch| else s.pending == []
  }

  /** Steps that neither skip the database nor fail in it, with an adapter at hand. */
  predicate Storing(a: Action) {
    && !a.SkipDatabase? && !a.InsertFails? && !a.RollUpFails? && !a.CommitLocked? && !a.CommitFails?
    && a != Take(false) && a != DrainEnd(false)
  }

  lemma CountOfPrefix(b: seq<Payload>, n: nat, item: Payload)
    requires n <= |b|
    ensures Count(b[..n], item) <= Count(b, item)
  {
    CountConcat(b[..n], b[n..], item);
    assert b == b[..n] + b[n..];
  }

  lemma CountOfNext(b: seq<Payload>, n: nat, item: Payload)
    requires n < |b|
    ensures Count(b[..n + 1], item) == Count(b[..n], item) + if b[n] == item then 1 else 0
  {
    assert b[..n + 1][..n] == b[..n];
  }

  lemma ConsumedWithinBatch(ph: Phase, item: Payload)
    ensures Count(Consumed(ph), item) <= Count(InFlight(ph), item)
  {
    if ph.Writing? {
      var k := if ph.stage.RollingUp? then ph.next + 1 else ph.next;
      if k <= |ph.batch| {
        CountOfPrefix(ph.batch, k, item);
      }
    }
  }

  lemma HeldGrows(s: Held, op: Op, item: Payload)
    ensures RowsIn(s.(pending := s.pending + [op]), item) == RowsIn(s, item) + if op == InsertOf(item) then 1 else 0
  {
    CountPush(s.pending, op, InsertOf(item));
  }

  lemma CommittedRows(s: Held, item: Payload)
    ensures RowsIn(Committed(s), item) == RowsIn(s, item)
  {
    CountConcat(s.written, s.pending, InsertOf(item));
  }

  // ---- One step ----

  /** A step adds no more rows than it puts payloads behind the worker. */
  ghost predicate Covers(w: Worker, w': Worker, item: Payload) {
    RowsIn(w'.session, item) - RowsIn(w.session, item)
      <= Behind(w'.phase, w'.books.handled, item) - Behind(w.phase, w.books.handled, item)
  }

  /** And when it cannot fail, exactly as many. */
  ghost predicate CoversExactly(w: Worker, w': Worker, item: Payload) {
    && RowsIn(w'.session, item) - RowsIn(w.session, item)
         == Behind(w'.phase, w'.books.handled, item) - Behind(w.phase, w.books.handled, item)
    && Settled(w'.phase, w'.session)
  }

  lemma InsertAdds(ph: Phase, s: Held)
    requires ph.Writing? && ph.stage.Inserting? && ph.next < |ph.batch|
    ensures var (ph', s') := DoInsert(ph, s);
      && s' == s.(pending := s.pending + [InsertOf(ph.batch[ph.next])])
      && Consumed(ph) == ph.batch[..ph.next] && Consumed(ph') == ph.batch[..ph.next + 1]
      && Settled(ph', s')
  {
  }

  /** An insert takes the next payload of the batch from the ones not yet inserted to the ones inserted. */
  lemma InsertCovers(ph: Phase, s: Held, item: Payload)
    requires ph.Writing? && ph.stage.Inserting? && ph.next < |ph.batch|
    ensures var (ph', s') := DoInsert(ph, s);
      && RowsIn(s', item) - RowsIn(s, item) == Count(Consumed(ph'), item) - Count(Consumed(ph), item)
      && Settled(ph', s')
  {
    InsertAdds(ph, s);
    OneMoreRow(ph.batch, ph.next, s, item);
  }

  lemma OneMoreRow(b: seq<Payload>, n: nat, s: Held, item: Payload)
    requires n < |b|
    ensures RowsIn(s.(pending := s.pending + [InsertOf(b[n])]), item) - RowsIn(s, item)
      == Count(b[..n + 1], item) - Count(b[..n], item)
  {
    CountOfNext(b, n, item);
    HeldGrows(s, InsertOf(b[n]), item);
    InsertOfOneRow(b[n], item);
  }

  lemma InsertOfOneRow(p: Payload, item: Payload)
    ensures InsertOf(p) == InsertOf(item) <==> p == item
  {
  }

  lemma BumpAdds(cfg: Setup, ph: Phase, s: Held)
    requires RollUpEnabled(cfg, ph, BumpBucket)
    ensures var (ph', s') := DoRollUp(cfg, ph, s, BumpBucket);
      && s' == s.(pending := s.pending + [Increment(Buckets(cfg.windows, ph.batch[ph.next].row)[ph.stage.done])])
      && Consumed(ph') == Consumed(ph) && Settled(ph', s')
  {
  }

  lemma BumpCovers(cfg: Setup, ph: Phase, s: Held, item: Payload)
    requires RollUpEnabled(cfg, ph, BumpBucket)
    ensures var (ph', s') := DoRollUp(cfg, ph, s, BumpBucket);
      RowsIn(s', item) == RowsIn(s, item) && Consumed(ph') == Consumed(ph) && Settled(ph', s')
  {
    BumpAdds(cfg, ph, s);
    HeldGrows(s, Increment(Buckets(cfg.windows, ph.batch[ph.next].row)[ph.stage.done]), item);
  }

  lemma RollUpCovers(cfg: Setup, ph: Phase, s: Held, a: Action, item: Payload)
    requires OfRollUp(a) && RollUpEnabled(cfg, ph, a)
    ensures var (ph', s') := DoRollUp(cfg, ph, s, a);
      && RowsIn(s', item) == RowsIn(s, item)
      && Count(Consumed(ph'), item) >= Count(Consumed(ph), item)
      && (Storing(a) ==> Consumed(ph') == Consumed(ph) && Settled(ph', s'))
  {
    if a.BumpBucket? {
      BumpCovers(cfg, ph, s, item);
    } else {
      RollUpEndCovers(cfg, ph, s, a, item);
    }
  }

  /** Leaving a roll-up adds no operation; it consumes nothing more, unless an exception drops the whole batch. */
  lemma RollUpEndKeeps(cfg: Setup, ph: Phase, s: Held, a: Action)
    requires OfRollUp(a) && RollUpEnabled(cfg, ph, a) && !a.BumpBucket?
    ensures var (ph', s') := DoRollUp(cfg, ph, s, a);
      && s'.pending == s.pending && s'.written == s.written
      && (Consumed(ph') == Consumed(ph) || Consumed(ph') == InFlight(ph))
      && (Storing(a) ==> Consumed(ph') == Consumed(ph) && Settled(ph', s'))
  {
    assert Consumed(ph) == ph.batch[..ph.next + 1];
  }

  lemma RollUpEndCovers(cfg: Setup, ph: Phase, s: Held, a: Action, item: Payload)
    requires OfRollUp(a) && RollUpEnabled(cfg, ph, a) && !a.BumpBucket?
    ensures var (ph', s') := DoRollUp(cfg, ph, s, a);
      && RowsIn(s', item) == RowsIn(s, item)
      && Count(Consumed(ph'), item) >= Count(Consumed(ph), item)
      && (Storing(a) ==> Consumed(ph') == Consumed(ph) && Settled(ph', s'))
  {
    RollUpEndKeeps(cfg, ph, s, a);
    ConsumedWithinBatch(ph, item);
  }

  /** The other steps of writing keep the session or clear it, and put no payload back. */
  lemma OtherWritingKeeps(cfg: Setup, ph: Phase, s: Held, a: Action)
    requires WritingEnabled(cfg, ph, a) && !a.Insert? && !OfRollUp(a)
    ensures var (ph', s') := DoWriting(cfg, ph, s, a);
      && (s' == s || s' == Cleared(s))
      && (Consumed(ph') == Consumed(ph) || Consumed(ph') == InFlight(ph))
      && (Storing(a) ==> s' == s && Consumed(ph') == Consumed(ph) && !ph.Writing? && !ph'.Writing?)
  {
  }

  /** The other steps of writing add no row, and put no payload back. */
  lemma OtherWritingCovers(cfg: Setup, ph: Phase, s: Held, a: Action, item: Payload)
    requires WritingEnabled(cfg, ph, a) && !a.Insert? && !OfRollUp(a)
    ensures var (ph', s') := DoWriting(cfg, ph, s, a);
      && RowsIn(s', item) <= RowsIn(s, item)
      && Count(Consumed(ph'), item) >= Count(Consumed(ph), item)
      && (Storing(a) ==> s' == s && Consumed(ph') == Consumed(ph) && !ph.Writing? && !ph'.Writing?)
  {
    OtherWritingKeeps(cfg, ph, s, a);
    ConsumedWithinBatch(ph, item);
    ClearedRows(s, item);
  }

  lemma WritingCovers(cfg: Setup, ph: Phase, s: Held, a: Action, item: Payload)
    requires WritingEnabled(cfg, ph, a)
    ensures var (ph', s') := DoWriting(cfg, ph, s, a);
      && RowsIn(s', item) - RowsIn(s, item) <= Count(Consumed(ph'), item) - Count(Consumed(ph), item)
      && (Storing(a) && Settled(ph, s) ==>
            RowsIn(s', item) - RowsIn(s, item) == Count(Consumed(ph'), item) - Count(Consumed(ph), item)
              && Settled(ph', s'))
  {
    if a.Insert? {
      InsertCovers(ph, s, item);
    } else if OfRollUp(a) {
      RollUpCovers(cfg, ph, s, a, item);
    } else {
      OtherWritingCovers(cfg, ph, s, a, item);
    }
  }

  /** Taking items consumes nothing; only a refused item is handled at once. */
  lemma TakingConsumesNothing(cfg: Setup, w: Worker, a: Action)
    requires TakingEnabled(cfg, w.intake.queue, w.phase, a)
    ensures var w' := DoTaking(cfg, w, a);
      && Consumed(w.phase) == [] == Consumed(w'.phase)
      && w'.session == w.session && (Settled(w.phase, w.session) ==> Settled(w'.phase, w'.session))
      && (if a == Take(false) && w.intake.queue[0].Some?
          then w'.books.handled == w.books.handled + Head(w.intake.queue)
          else w'.books.handled == w.books.handled)
  {
  }

  lemma TakingCovers(cfg: Setup, w: Worker, a: Action, item: Payload)
    requires TakingEnabled(cfg, w.intake.queue, w.phase, a)
    ensures Covers(w, DoTaking(cfg, w, a), item)
    ensures Storing(a) && Settled(w.phase, w.session) ==> CoversExactly(w, DoTaking(cfg, w, a), item)
  {
    TakingConsumesNothing(cfg, w, a);
    if a == Take(false) {
      CountConcat(w.books.handled, Head(w.intake.queue), item);
    }
  }

  /** Ending a batch keeps what is consumed, or hands the whole batch over; the session is kept or cleared. */
  ghost predicate HandsOver(w: Worker, w': Worker, storing: bool) {
    && (w'.session == w.session || w'.session == Cleared(w.session))
    && !w.phase.Writing? && (w'.phase.Writing? ==> w'.phase.next == 0 && !w'.phase.stage.RollingUp?)
    && (|| (w'.books.handled == w.books.handled && Consumed(w'.phase) == Consumed(w.phase))
        || (&& w'.books.handled == w.books.handled + InFlight(w.phase) && Consumed(w'.phase) == []
            && (storing ==> Consumed(w.phase) == InFlight(w.phase))))
  }

  lemma BatchEndHandsOver(w: Worker, a: Action)
    requires EndingEnabled(w.intake.queue, w.phase, a) && (a.Answer? || a.Return? || a.RecordFailure?)
    ensures HandsOver(w, DoEnding(w, a), Storing(a))
  {
  }

  lemma WorkerEndHandsOver(w: Worker, a: Action)
    requires EndingEnabled(w.intake.queue, w.phase, a) && (a.Rollback? || a.DrainEnd?)
    ensures HandsOver(w, DoEnding(w, a), Storing(a))
  {
  }

  lemma HandOverCovers(w: Worker, w': Worker, storing: bool, item: Payload)
    requires HandsOver(w, w', storing)
    requires w'.phase.Writing? ==> !w'.phase.stage.Committing? || |w'.phase.batch| == 0
    ensures Covers(w, w', item)
    ensures storing && Settled(w.phase, w.session) ==> CoversExactly(w, w', item)
  {
    ConsumedWithinBatch(w.phase, item);
    CountConcat(w.books.handled, InFlight(w.phase), item);
    ClearedRows(w.session, item);
  }

  lemma ClearedRows(s: Held, item: Payload)
    ensures RowsIn(Cleared(s), item) <= RowsIn(s, item)
    ensures s.pending == [] ==> RowsIn(Cleared(s), item) == RowsIn(s, item)
  {
  }

  lemma EndingCovers(w: Worker, a: Action, item: Payload)
    requires EndingEnabled(w.intake.queue, w.phase, a)
    ensures Covers(w, DoEnding(w, a), item)
    ensures Storing(a) && Settled(w.phase, w.session) ==> CoversExactly(w, DoEnding(w, a), item)
  {
    if a.Rollback? || a.DrainEnd? {
      WorkerEndHandsOver(w, a);
    } else {
      BatchEndHandsOver(w, a);
    }
    HandOverCovers(w, DoEnding(w, a), Storing(a), item);
  }

  lemma WritingStepCovers(cfg: Setup, w: Worker, a: Action, item: Payload)
    requires WritingEnabled(cfg, w.phase, a)
    ensures Covers(w, DoLocal(cfg, w, a), item)
    ensures Storing(a) && Settled(w.phase, w.session) ==> CoversExactly(w, DoLocal(cfg, w, a), item)
  {
    WritingCovers(cfg, w.phase, w.session, a, item);
  }

  lemma ProducerCovers(cfg: Setup, w: Worker, a: Action, item: Payload)
    requires OfProducer(a)
    ensures Covers(w, DoProducer(cfg, w, a), item)
    ensures Settled(w.phase, w.session) ==> CoversExactly(w, DoProducer(cfg, w, a), item)
  {
  }

  lemma LocalStepCovers(cfg: Setup, w: Worker, a: Action, item: Payload)
    requires Enabled(cfg, w, a) && !a.CommitOk?
    ensures Covers(w, DoLocal(cfg, w, a), item)
    ensures Storing(a) && Settled(w.phase, w.session) ==> CoversExactly(w, DoLocal(cfg, w, a), item)
  {
    if OfProducer(a) {
      ProducerCovers(cfg, w, a, item);
    } else if OfTaking(a) {
      TakingCovers(cfg, w, a, item);
    } else if OfWriting(a) {
      WritingStepCovers(cfg, w, a, item);
    } else {
      EndingCovers(w, a, item);
    }
  }

  /** How often the database holds the row of `item`. */
  function Stored(db: Db, item: Payload): nat {
    match item
    case CountPayload(row) => Count(db.events, row)
    case LaneChangePayload(change) => Count(db.laneChanges, change)
  }

  lemma {:induction false} ApplyStores(db: Db, ops: seq<Op>, item: Payload)
    ensures Stored(Apply(db, ops), item) == Stored(db, item) + Count(ops, InsertOf(item))
  {
    if ops != [] {
      ApplyStores(db, ops[..|ops| - 1], item);
      OpStores(Apply(db, ops[..|ops| - 1]), ops[|ops| - 1], item);
    }
  }

  lemma OpStores(db: Db, op: Op, item: Payload)
    ensures Stored(ApplyOp(db, op), item) == Stored(db, item) + if op == InsertOf(item) then 1 else 0
  {
    match item
    case CountPayload(row) =>
      if op.AddEvent? {
        CountPush(db.events, op.row, row);
      }
    case LaneChangePayload(change) =>
      if op.AddLaneChange? {
        CountPush(db.laneChanges, op.change, change);
      }
  }

  /** A commit moves rows from the session to the tables, and so does nothing else. */
  lemma StepMovesRows(cfg: Setup, db: Db, w: Worker, a: Action, item: Payload)
    requires Enabled(cfg, w, a)
    ensures var (db', w') := Do(cfg, db, w, a);
      Stored(db', item) - Stored(db, item)
        == Count(w'.session.written, InsertOf(item)) - Count(w.session.written, InsertOf(item))
  {
    if a.CommitOk? {
      ApplyStores(db, w.session.pending, item);
      CountConcat(w.session.written, w.session.pending, InsertOf(item));
    } else {
      OnlyCommitsWrite(cfg, w, a);
    }
  }

  lemma OnlyCommitsWrite(cfg: Setup, w: Worker, a: Action)
    requires Enabled(cfg, w, a) && !a.CommitOk?
    ensures DoLocal(cfg, w, a).session.written == w.session.written
  {
    if OfWriting(a) {
      WritingKeepsWritten(cfg, w.phase, w.session, a);
    }
  }

  lemma WritingKeepsWritten(cfg: Setup, ph: Phase, s: Held, a: Action)
    requires WritingEnabled(cfg, ph, a)
    ensures DoWriting(cfg, ph, s, a).1.written == s.written
  {
  }

  /** The commit finds the whole batch behind the worker. */
  lemma CommitIs(cfg: Setup, db: Db, w: Worker)
    requires Enabled(cfg, w, CommitOk)
    ensures w.phase.Writing? && w.phase.stage.Committing?
    ensures var w' := Do(cfg, db, w, CommitOk).1;
      && w'.session == Committed(w.session) && w'.books == w.books && Settled(w'.phase, w'.session)
      && Consumed(w'.phase) == w.phase.batch
  {
  }

  lemma CommitCovers(cfg: Setup, db: Db, w: Worker, item: Payload)
    requires Enabled(cfg, w, CommitOk)
    ensures var w' := Do(cfg, db, w, CommitOk).1;
      && Covers(w, w', item)
      && (Settled(w.phase, w.session) ==> CoversExactly(w, w', item))
  {
    CommitIs(cfg, db, w);
    CommittedRows(w.session, item);
    CommitConsumesAll(w.phase, item);
  }

  lemma CommitConsumesAll(ph: Phase, item: Payload)
    requires ph.Writing? && ph.stage.Committing?
    ensures Count(Consumed(ph), item) <= Count(ph.batch, item)
    ensures ph.next >= |ph.batch| ==> Consumed(ph) == ph.batch
  {
    ConsumedWithinBatch(ph, item);
    assert ph.batch[..|ph.batch|] == ph.batch;
  }

  /** Rows committed or pending stay covered by distinct payloads; without failures every payload keeps its row. */
  lemma StepKeepsRows(cfg: Setup, db: Db, w: Worker, a: Action, item: Payload)
    requires Enabled(cfg, w, a)
    ensures var w' := Do(cfg, db, w, a).1;
      && (RowsInv(w, item) ==> RowsInv(w', item))
      && (RowsExact(w, item) && Storing(a) ==> RowsExact(w', item))
  {
    if a.CommitOk? {
      CommitCovers(cfg, db, w, item);
    } else {
      LocalStepCovers(cfg, w, a, item);
    }
  }

  // ---- All workers ----

  function Written(workers: seq<Worker>, item: Payload): nat {
    if workers == [] then 0
    else
      Written(workers[..|workers| - 1], item) + Count(workers[|workers| - 1].session.written, InsertOf(item))
  }

  function Accepted(workers: seq<Worker>, item: Payload): nat {
    if workers == [] then 0
    else Accepted(workers[..|workers| - 1], item) + Count(workers[|workers| - 1].intake.accepted, item)
  }

  lemma {:induction false} WrittenUpdate(workers: seq<Worker>, i: nat, w: Worker, item: Payload)
    requires i < |workers|
    ensures Written(workers[i := w], item) - Written(workers, item)
      == Count(w.session.written, InsertOf(item)) - Count(workers[i].session.written, InsertOf(item))
  {
    var last := |workers| - 1;
    if i < last {
      WrittenUpdate(workers[..last], i, w, item);
      assert workers[i := w][..last] == workers[..last][i := w];
    } else {
      assert workers[i := w][..last] == workers[..last];
    }
  }

  lemma {:induction false} NothingWrittenYet(n: nat, item: Payload)
    ensures Written(Repeat(NEW_WORKER, n), item) == 0
  {
    if n > 0 {
      NothingWrittenYet(n - 1, item);
      assert Repeat(NEW_WORKER, n)[..n - 1] == Repeat(NEW_WORKER, n - 1);
    }
  }

  /** The tables hold what the workers committed. */
  lemma {:induction false} TableIsWhatWorkersWrote(cfg: Setup, n: nat, choices: seq<Choice>, item: Payload)
    ensures var s := Run(cfg, n, choices); Stored(s.db, item) == Written(s.workers, item)
  {
    if choices == [] {
      NothingWrittenYet(n, item);
    } else {
      var front, c := choices[..|choices| - 1], choices[|choices| - 1];
      TableIsWhatWorkersWrote(cfg, n, front, item);
      MoveKeepsTable(cfg, Run(cfg, n, front), c, item);
    }
  }

  lemma MoveKeepsTable(cfg: Setup, s: System, c: Choice, item: Payload)
    requires Stored(s.db, item) == Written(s.workers, item)
    ensures var s' := StepOf(cfg, s, c); Stored(s'.db, item) == Written(s'.workers, item)
  {
    if c.worker < |s.workers| && Enabled(cfg, s.workers[c.worker], c.action) {
      StepMovesRows(cfg, s.db, s.workers[c.worker], c.action, item);
      WrittenUpdate(s.workers, c.worker, Do(cfg, s.db, s.workers[c.worker], c.action).1, item);
    }
  }

  /** Nothing fails, and the database is never skipped. */
  predicate AllStoring(choices: seq<Choice>) {
    choices == [] || (Storing(choices[|choices| - 1].action) && AllStoring(choices[..|choices| - 1]))
  }

  lemma {:induction false} AllStoringMeans(choices: seq<Choice>)
    ensures AllStoring(choices) <==> forall c :: c in choices ==> Storing(c.action)
  {
    if choices != [] {
      AllStoringMeans(choices[..|choices| - 1]);
      assert choices == choices[..|choices| - 1] + [choices[|choices| - 1]];
    }
  }

  lemma {:induction false} RunKeepsRows(cfg: Setup, n: nat, choices: seq<Choice>, item: Payload, i: nat)
    requires i < n
    ensures var w := Run(cfg, n, choices).workers[i];
      RowsInv(w, item) && (AllStoring(choices) ==> RowsExact(w, item))
  {
    if choices != [] {
      var front, c := choices[..|choices| - 1], choices[|choices| - 1];
      RunKeepsRows(cfg, n, front, item, i);
      var s := Run(cfg, n, front);
      if c.worker == i && Enabled(cfg, s.workers[i], c.action) {
        StepKeepsRows(cfg, s.db, s.workers[i], c.action, item);
      }
    }
  }

  lemma AcceptedCoversWritten(cfg: Setup, w: Worker, item: Payload)
    requires QueueInv(cfg, w) && RowsInv(w, item)
    ensures Count(w.session.written, InsertOf(item)) <= Count(w.intake.accepted, item)
  {
    ConsumedWithinBatch(w.phase, item);
    AcceptedParts(w, item);
  }

  lemma AcceptedParts(w: Worker, item: Payload)
    requires InOrder(w.intake, w.books.handled, InFlight(w.phase))
    ensures Count(w.intake.accepted, item)
      == Count(w.books.handled, item) + Count(InFlight(w.phase), item) + Count(Payloads(w.intake.queue), item)
  {
    CountConcat(w.books.handled, InFlight(w.phase), item);
    CountConcat(w.books.handled + InFlight(w.phase), Payloads(w.intake.queue), item);
  }

  lemma {:induction false} WrittenWithinAccepted(cfg: Setup, workers: seq<Worker>, item: Payload)
    requires forall w :: w in workers ==> QueueInv(cfg, w) && RowsInv(w, item)
    ensures Written(workers, item) <= Accepted(workers, item)
  {
    if workers != [] {
      WrittenWithinAccepted(cfg, workers[..|workers| - 1], item);
      AcceptedCoversWritten(cfg, workers[|workers| - 1], item);
    }
  }

  /** Under every schedule the tables hold a row at most as often as its payload was accepted. */
  lemma RowsComeFromAcceptedPayloads(cfg: Setup, n: nat, choices: seq<Choice>, item: Payload)
    requires cfg.Valid()
    ensures var s := Run(cfg, n, choices); Stored(s.db, item) <= Accepted(s.workers, item)
  {
    var workers := Run(cfg, n, choices).workers;
    RunInv(cfg, n, choices);
    TableIsWhatWorkersWrote(cfg, n, choices, item);
    forall w | w in workers ensures QueueInv(cfg, w) && RowsInv(w, item) {
      var i :| 0 <= i < n && workers[i] == w;
      RunKeepsRows(cfg, n, choices, item, i);
      assert WorkerInv(cfg, workers[i]);
    }
    WrittenWithinAccepted(cfg, workers, item);
  }

  /** A worker between batches, or stopped, with nothing queued. */
  ghost predicate Finished(w: Worker) {
    (w.phase.Idle? || w.phase.Closed?) && Payloads(w.intake.queue) == []
  }

  lemma FinishedHasWrittenAll(cfg: Setup, w: Worker, item: Payload)
    requires QueueInv(cfg, w) && RowsExact(w, item) && Finished(w)
    ensures Count(w.session.written, InsertOf(item)) == Count(w.intake.accepted, item)
  {
    AcceptedParts(w, item);
  }

  lemma {:induction false} WrittenIsAccepted(cfg: Setup, workers: seq<Worker>, item: Payload)
    requires forall w :: w in workers ==> QueueInv(cfg, w) && RowsExact(w, item) && Finished(w)
    ensures Written(workers, item) == Accepted(workers, item)
  {
    if workers != [] {
      WrittenIsAccepted(cfg, workers[..|workers| - 1], item);
      FinishedHasWrittenAll(cfg, workers[|workers| - 1], item);
    }
  }

  /**
   * Without failures, once all workers have finished, the tables hold each row exactly as often as it was
   * accepted.
   */
  lemma EverythingAcceptedIsStored(cfg: Setup, n: nat, choices: seq<Choice>, item: Payload)
    requires cfg.Valid() && forall c :: c in choices ==> Storing(c.action)
    requires forall i :: 0 <= i < n ==> Finished(Run(cfg, n, choices).workers[i])
    ensures var s := Run(cfg, n, choices); Stored(s.db, item) == Accepted(s.workers, item)
  {
    var workers := Run(cfg, n, choices).workers;
    RunInv(cfg, n, choices);
    AllStoringMeans(choices);
    TableIsWhatWorkersWrote(cfg, n, choices, item);
    forall w | w in workers ensures QueueInv(cfg, w) && RowsExact(w, item) && Finished(w) {
      var i :| 0 <= i < n && workers[i] == w;
      RunKeepsRows(cfg, n, choices, item, i);
      assert WorkerInv(cfg, workers[i]);
    }
    WrittenIsAccepted(cfg, workers, item);
  }
}

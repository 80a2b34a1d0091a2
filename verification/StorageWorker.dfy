/** The worker itself: its queue, counters, dead letters and loops, kept in step with its machine. */
module StorageWorkers {
  import opened Sequences
  import opened RollupIndex
  import opened StorageProtocol
  import opened Repositories
  import opened WorkerRuns
  import opened BatchRuns

  class StorageWorker {
    const setup: Setup
    const session: Session
    var queue: seq<Option<Payload>>
    var droppedEvents: nat
    var totalProcessed: nat
    var totalErrors: nat
    var deadLetter: seq<Payload>
    ghost var machine: Worker

    ghost predicate Valid()
      reads this, session
    {
      && setup.Valid()
      && machine.intake.queue == queue && machine.intake.dropped == droppedEvents
      && machine.books.deadLetter == deadLetter
      && machine.books.processed == totalProcessed && machine.books.errors == totalErrors
      && machine.session.pending == session.pending
      && Reachable(setup, machine)
    }

    /** Database, session, dead letters and counters. */
    ghost function Books(): Ledger
      reads this, session, session.database
    {
      Ledger(session.database.state, session.pending, deadLetter, totalProcessed, totalErrors)
    }

    constructor (setup: Setup, database: Database)
      requires setup.Valid()
      ensures Valid() && fresh(session) && session.database == database && this.setup == setup && machine == NEW_WORKER
    {
      this.setup := setup;
      session := new Session(database);
      queue, droppedEvents, totalProcessed, totalErrors, deadLetter := [], 0, 0, 0, [];
      machine := NEW_WORKER;
      new;
      assert Exec(setup, EMPTY_DB, NEW_WORKER, []).1 == NEW_WORKER;
    }

    /** Lets the machine take a step that leaves the database alone. */
    ghost method Step(a: Action)
      requires Reachable(setup, machine) && Enabled(setup, machine, a) && !a.CommitOk?
      modifies this`machine
      ensures machine == DoLocal(setup, old(machine), a) && Reachable(setup, machine)
    {
      ReachesByOne(setup, EMPTY_DB, machine, a);
      ReachableExtends(setup, EMPTY_DB, machine, EMPTY_DB, DoLocal(setup, machine, a));
      machine := DoLocal(setup, machine, a);
    }

    /** The same, one step further on a run from `db` and `w`. */
    ghost method Follow(a: Action, db: Db, w: Worker)
      requires Reachable(setup, machine) && Enabled(setup, machine, a) && !a.CommitOk?
      requires Reaches(setup, db, w, session.database.state, machine)
      modifies this`machine
      ensures machine == DoLocal(setup, old(machine), a) && Reachable(setup, machine)
      ensures Reaches(setup, db, w, session.database.state, machine)
    {
      ReachesOneMore(setup, db, w, session.database.state, machine, a);
      Step(a);
    }

    /** The room a non-blocking put finds. */
    predicate IsFull()
      reads this
    {
      setup.capacity > 0 && |queue| >= setup.capacity
    }

    method AppendDeadLetter(p: Payload)
      modifies this`deadLetter
      ensures deadLetter == if |old(deadLetter)| < 10_000 then old(deadLetter) + [p] else old(deadLetter)
    {
      if |deadLetter| < DEAD_LETTER_MAX {
        deadLetter := deadLetter + [p];
      }
    }

    /** Offers a count event: dropped to the dead letters when the queue is critical or full, queued otherwise. */
    method Enqueue(p: Payload)
      requires Valid()
      modifies this
      ensures Valid() && machine == DoLocal(setup, old(machine), StorageProtocol.Enqueue(p, |old(queue)|))
      ensures |old(queue)| >= 1024 || old(IsFull()) ==>
        queue == old(queue) && droppedEvents == old(droppedEvents) + 1
        && deadLetter == if |old(deadLetter)| < 10_000 then old(deadLetter) + [p] else old(deadLetter)
      ensures |old(queue)| < 1024 && !old(IsFull()) ==>
        queue == old(queue) + [Some(p)] && droppedEvents == old(droppedEvents) && deadLetter == old(deadLetter)
      ensures totalProcessed == old(totalProcessed) && totalErrors == old(totalErrors)
    {
      Step(StorageProtocol.Enqueue(p, |queue|));
      if |queue| >= QUEUE_CRIT_THRESHOLD {
        droppedEvents := droppedEvents + 1;
        AppendDeadLetter(p);
        return;
      }
      if !IsFull() {
        queue := queue + [Some(p)];
      } else {
        droppedEvents := droppedEvents + 1;
        AppendDeadLetter(p);
      }
    }

    /** Offers a lane change, which only a full queue refuses. */
    method EnqueueLaneChange(p: Payload)
      requires Valid()
      modifies this
      ensures Valid() && machine == DoLocal(setup, old(machine), StorageProtocol.EnqueueLaneChange(p))
      ensures old(IsFull()) ==>
        queue == old(queue) && droppedEvents == old(droppedEvents) + 1
        && deadLetter == if |old(deadLetter)| < 10_000 then old(deadLetter) + [p] else old(deadLetter)
      ensures !old(IsFull()) ==>
        queue == old(queue) + [Some(p)] && droppedEvents == old(droppedEvents) && deadLetter == old(deadLetter)
      ensures totalProcessed == old(totalProcessed) && totalErrors == old(totalErrors)
    {
      Step(StorageProtocol.EnqueueLaneChange(p));
      if !IsFull() {
        queue := queue + [Some(p)];
      } else {
        droppedEvents := droppedEvents + 1;
        AppendDeadLetter(p);
      }
    }

    /** Puts the stop sentinel, unless the queue is full: then the request to stop is lost. */
    method Stop()
      requires Valid()
      modifies this
      ensures Valid() && machine == DoLocal(setup, old(machine), PutSentinel)
      ensures queue == if old(IsFull()) then old(queue) else old(queue) + [None]
      ensures deadLetter == old(deadLetter) && droppedEvents == old(droppedEvents)
    {
      Step(PutSentinel);
      if !IsFull() {
        queue := queue + [None];
      }
    }

    /** Everything but session, database and machine; nothing was offered meanwhile. */
    twostate predicate BooksUnchanged()
      reads this
    {
      && machine.intake == old(machine.intake) && machine.books == old(machine.books)
      && queue == old(queue) && droppedEvents == old(droppedEvents) && deadLetter == old(deadLetter)
      && totalProcessed == old(totalProcessed) && totalErrors == old(totalErrors)
    }

    /** Inserts one payload of a batch and rolls it up. */
    method InsertAndRollUp(p: Payload, i: nat, world: World) returns (raised: Option<Fault>)
      modifies session
      ensures session.pending == old(session.pending) + PayloadOps(setup.windows, world, p, i)
      ensures raised == PayloadFault(setup.windows, world, p, i)
    {
      raised := world.insertFault(i);
      if raised.Some? {
        assert session.pending + [] == session.pending;
        return;
      }
      match p {
        case LaneChangePayload(change) =>
          session.InsertLaneChange(change);
        case CountPayload(row) =>
          ghost var before := session.pending;
          session.InsertEvent(row);
          raised := session.RollupAggregates(setup.windows, row, world.upsertFault(i));
          ConcatAssociates(before, [AddEvent(row)],
                           Increments(Buckets(setup.windows, row)[..UpsertsMade(setup.windows, world, row, i)]));
      }
    }

    method WritePayload(batch: seq<Payload>, i: nat, draining: bool, world: World) returns (raised: Option<Fault>)
      requires Valid() && i < |batch| && machine.phase == Writing(batch, i, Inserting, draining)
      modifies this`machine, session
      ensures Valid() && BooksUnchanged()
      ensures session.pending == old(session.pending) + PayloadOps(setup.windows, world, batch[i], i)
      ensures raised == PayloadFault(setup.windows, world, batch[i], i)
      ensures machine == AfterPayload(setup, old(machine), world)
      ensures Reaches(setup, session.database.state, old(machine), session.database.state, machine)
    {
      ghost var w, db := machine, session.database.state;
      raised := InsertAndRollUp(batch[i], i, world);
      PayloadReaches(setup, db, w, world);
      ReachableExtends(setup, db, w, db, AfterPayload(setup, w, world));
      machine := AfterPayload(setup, w, world);
    }

    /** Session and machine after the first `i` payloads of a batch, the last of which may have raised. */
    ghost predicate Wrote(batch: seq<Payload>, i: nat, draining: bool, world: World, raised: Option<Fault>,
                          db: Db, w: Worker)
      reads this, session, session.database
    {
      && Valid() && i <= |batch| && session.database.state == db
      && WriteFault(setup.windows, world, batch[..i]) == raised
      && session.pending == w.session.pending + BatchOps(setup.windows, world, batch[..i])
      && machine.phase == (if raised.None? then WriteFrom(batch, i, draining)
        else Raised(batch, draining, raised.value))
      && Reaches(setup, db, w, db, machine)
    }

    method WriteNext(batch: seq<Payload>, i: nat, draining: bool, world: World, ghost db: Db, ghost w: Worker)
        returns (raised: Option<Fault>)
      requires i < |batch| && Wrote(batch, i, draining, world, None, db, w)
      modifies this`machine, session
      ensures Wrote(batch, i + 1, draining, world, raised, db, w) && BooksUnchanged()
    {
      ghost var before := machine;
      raised := WritePayload(batch, i, draining, world);
      ReachesTransitive(setup, db, w, db, before, db, machine);
      BatchNext(setup.windows, world, batch, i);
      PendingAfterNext(setup.windows, world, batch, i, w.session.pending);
    }

    /** Inserts the payloads of a batch until one raises. */
    method WritePayloads(batch: seq<Payload>, draining: bool, world: World) returns (raised: Option<Fault>)
      requires Valid() && batch != [] && machine.phase == Writing(batch, 0, Inserting, draining)
      modifies this`machine, session
      ensures Valid() && BooksUnchanged()
      ensures raised == WriteFault(setup.windows, world, batch)
      ensures session.pending == old(session.pending) + BatchOps(setup.windows, world, batch)
      ensures machine.phase == if raised.None? then WriteFrom(batch, |batch|, draining)
        else Raised(batch, draining, raised.value)
      ensures Reaches(setup, session.database.state, old(machine), session.database.state, machine)
    {
      ghost var w, db := machine, session.database.state;
      raised := None;
      var i := 0;
      ReachesSelf(setup, db, w);
      assert batch[..0] == [] && w.session.pending + [] == w.session.pending;
      while i < |batch| && raised.None?
        invariant Wrote(batch, i, draining, world, raised, db, w) && BooksUnchanged()
        decreases |batch| - i
      {
        raised := WriteNext(batch, i, draining, world, db, w);
        i := i + 1;
      }
      RestAddsNothing(setup.windows, world, batch, i);
    }

    method Commit(batch: seq<Payload>, draining: bool, world: World) returns (raised: Option<Fault>)
      requires Valid() && machine.phase == Writing(batch, |batch|, Committing(0), draining)
      modifies this`machine, session, session.database
      ensures Valid() && BooksUnchanged()
      ensures raised == CommitFault(world.attempt, COMMIT_ATTEMPTS)
      ensures session.pending == PendingAfterCommit(world.attempt, COMMIT_ATTEMPTS, old(session.pending))
      ensures session.database.state
        == DbAfterCommit(world.attempt, COMMIT_ATTEMPTS, old(session.pending), old(session.database.state))
      ensures machine.phase == if raised.None? then Publishing(batch, draining)
        else Raised(batch, draining, raised.value)
      ensures Reaches(setup, old(session.database.state), old(machine), session.database.state, machine)
    {
      ghost var w, db := machine, session.database.state;
      CommitReaches(setup, db, w, world.attempt);
      ReachableExtends(setup, db, w, DbAfterCommit(world.attempt, COMMIT_ATTEMPTS, session.pending, db),
                       AfterCommit(w, world.attempt));
      raised := session.CommitWithRetry(COMMIT_ATTEMPTS, world.attempt);
      machine := AfterCommit(w, world.attempt);
    }

    /** Writes a whole batch and commits it once. */
    method WriteBatch(batch: seq<Payload>, draining: bool, world: World) returns (raised: Option<Fault>)
      requires Valid() && batch != [] && machine.phase == Writing(batch, 0, Inserting, draining)
      modifies this`machine, session, session.database
      ensures Valid() && machine.intake == old(machine.intake)
      ensures raised == BatchFault(setup.windows, world, batch)
      ensures Books() == AfterWrite(setup.windows, world, batch, old(Books()))
      ensures machine.phase == if raised.None? then Publishing(batch, draining)
        else Raised(batch, draining, raised.value)
      ensures Reaches(setup, old(session.database.state), old(machine), session.database.state, machine)
    {
      ghost var w, db := machine, session.database.state;
      raised := WritePayloads(batch, draining, world);
      if raised.None? {
        ghost var written := machine;
        raised := Commit(batch, draining, world);
        ReachesTransitive(setup, db, w, db, written, session.database.state, machine);
      }
    }

    /** Writes and publishes a batch; `done` tells a normal return from an exception. */
    method ProcessBatch(batch: seq<Payload>, draining: bool, world: World) returns (done: bool)
      requires Valid() && batch != [] && machine.phase == Writing(batch, 0, Inserting, draining)
      modifies this`machine, this`deadLetter, session, session.database
      ensures Valid() && machine.intake == old(machine.intake)
      ensures done == Returns(setup.windows, world, batch)
      ensures Books() == AfterProcess(setup.windows, world, batch, old(Books()))
      ensures machine.phase == if done then Returning(batch, draining) else Failing(batch, draining)
      ensures Reaches(setup, old(session.database.state), old(machine), session.database.state, machine)
    {
      ghost var w, db := machine, session.database.state;
      var raised := WriteBatch(batch, draining, world);
      if raised.Some? {
        done := AnswerFault(batch, draining, raised.value, db, w);
      } else {
        done := Publish(batch, draining, world, db, w);
      }
    }

    method Publish(batch: seq<Payload>, draining: bool, world: World, ghost db: Db, ghost w: Worker)
        returns (done: bool)
      requires Valid() && batch != [] && machine.phase == Publishing(batch, draining)
      requires Reaches(setup, db, w, session.database.state, machine)
      modifies this`machine
      ensures Valid() && machine.intake == old(machine.intake) && done == world.publishes
      ensures Books() == AfterAnswer(false, batch, old(Books()))
      ensures machine.phase == if done then Returning(batch, draining) else Failing(batch, draining)
      ensures Reaches(setup, db, w, session.database.state, machine)
    {
      if world.publishes {
        Follow(PublishOk, db, w);
      } else {
        Follow(PublishFails, db, w);
      }
      done := world.publishes;
    }

    /** The except clauses: the expected fault of a single count event ends in a dead letter, any other escapes. */
    method AnswerFault(batch: seq<Payload>, draining: bool, fault: Fault, ghost db: Db, ghost w: Worker)
        returns (answered: bool)
      requires Valid() && batch != [] && machine.phase == Raised(batch, draining, fault)
      requires Reaches(setup, db, w, session.database.state, machine)
      modifies this`machine, this`deadLetter
      ensures Valid() && machine.intake == old(machine.intake) && answered == AnswersFault(batch, fault)
      ensures Books() == AfterAnswer(answered, batch, old(Books()))
      ensures machine.phase == if answered then Returning(batch, draining) else Failing(batch, draining)
      ensures Reaches(setup, db, w, session.database.state, machine)
    {
      Follow(Answer, db, w);
      answered := AnswersFault(batch, fault);
      if answered {
        ShiftDeadLetters(batch[0]);
      }
    }

    /** Makes room for a dead letter by giving up the oldest. */
    method ShiftDeadLetters(p: Payload)
      modifies this`deadLetter
      ensures deadLetter == LastN(old(deadLetter) + [p], |old(deadLetter)| + if |old(deadLetter)| < 10_000 then 1
        else 0)
    {
      deadLetter := deadLetter + [p];
      if |deadLetter| > DEAD_LETTER_MAX {
        deadLetter := deadLetter[1..];
      }
    }

    method AppendDeadLetters(batch: seq<Payload>)
      modifies this`deadLetter
      ensures deadLetter == StorageProtocol.AppendDeadLetters(old(deadLetter), batch)
    {
      var i := 0;
      while i < |batch|
        invariant i <= |batch|
        invariant deadLetter == StorageProtocol.AppendDeadLetters(old(deadLetter), batch[..i])
      {
        assert batch[..i + 1][..i] == batch[..i];
        AppendDeadLetter(batch[i]);
        i := i + 1;
      }
      assert batch[..i] == batch;
    }

    /** Processes a batch and enters it in the books, as processed or as errors and dead letters. */
    method HandleBatch(batch: seq<Payload>, world: World)
      requires Valid() && batch != [] && machine.phase == Writing(batch, 0, Inserting, false)
      modifies this`machine, this`deadLetter, this`totalProcessed, this`totalErrors, session, session.database
      ensures Valid() && machine.phase == Idle && machine.intake == old(machine.intake)
      ensures Books() == AfterBatch(setup.windows, world, batch, old(Books()))
      ensures Reaches(setup, old(session.database.state), old(machine), session.database.state, machine)
    {
      ghost var w, db := machine, session.database.state;
      var done := ProcessBatch(batch, false, world);
      Enter(done, batch, world, db, w);
    }

    method Enter(done: bool, batch: seq<Payload>, world: World, ghost db: Db, ghost w: Worker)
      requires Valid() && machine.phase == if done then Returning(batch, false) else Failing(batch, false)
      requires Reaches(setup, db, w, session.database.state, machine)
      modifies this`machine, this`deadLetter, this`totalProcessed, this`totalErrors, session
      ensures Valid() && machine.phase == Idle && machine.intake == old(machine.intake)
      ensures Books() == Entered(done, batch, world.rollsBack, old(Books()))
      ensures Reaches(setup, db, w, session.database.state, machine)
    {
      if done {
        RecordReturnOf(batch, false, db, w);
      } else {
        EnterFailure(batch, world, db, w);
      }
    }

    method EnterFailure(batch: seq<Payload>, world: World, ghost db: Db, ghost w: Worker)
      requires Valid() && machine.phase == Failing(batch, false)
      requires Reaches(setup, db, w, session.database.state, machine)
      modifies this`machine, this`deadLetter, this`totalErrors, session
      ensures Valid() && machine.phase == Idle && machine.intake == old(machine.intake)
      ensures Books() == Entered(false, batch, world.rollsBack, old(Books()))
      ensures Reaches(setup, db, w, session.database.state, machine)
    {
      RecordFailureOf(batch, db, w);
      RollBack(world, db, w);
    }

    /** The books of a batch that returned; after a drain the session is closed with it. */
    method RecordReturnOf(batch: seq<Payload>, draining: bool, ghost db: Db, ghost w: Worker)
      requires Valid() && machine.phase == Returning(batch, draining)
      requires Reaches(setup, db, w, session.database.state, machine)
      modifies this`machine, this`totalProcessed, session
      ensures Valid() && machine.intake == old(machine.intake)
      ensures machine.phase == if draining then Closed else Idle
      ensures totalProcessed == old(totalProcessed) + |batch|
      ensures session.pending == if draining then [] else old(session.pending)
      ensures Reaches(setup, db, w, session.database.state, machine)
    {
      Follow(Return, db, w);
      totalProcessed := totalProcessed + |batch|;
      if draining {
        session.Rollback();
      }
    }

    /** The books of a failed batch: errors, and dead letters in order. */
    method RecordFailureOf(batch: seq<Payload>, ghost db: Db, ghost w: Worker)
      requires Valid() && machine.phase == Failing(batch, false)
      requires Reaches(setup, db, w, session.database.state, machine)
      modifies this`machine, this`deadLetter, this`totalErrors
      ensures Valid() && machine.phase == RollingBack && machine.intake == old(machine.intake)
      ensures totalErrors == old(totalErrors) + |batch|
      ensures deadLetter == StorageProtocol.AppendDeadLetters(old(deadLetter), batch)
      ensures deadLetter == FirstN(old(deadLetter) + batch, 10_000)
      ensures Reaches(setup, db, w, session.database.state, machine)
    {
      BoundedDeadLetters();
      AppendedAreTheFirst(deadLetter, batch);
      Follow(RecordFailure, db, w);
      totalErrors := totalErrors + |batch|;
      AppendDeadLetters(batch);
    }

    lemma BoundedDeadLetters()
      requires Valid()
      ensures |deadLetter| <= 10_000
    {
      ReachableInvariants(setup, machine);
    }

    /** The rollback after a failed batch; an adapter without one, or one that fails, leaves the session as it is. */
    method RollBack(world: World, ghost db: Db, ghost w: Worker)
      requires Valid() && machine.phase == RollingBack
      requires Reaches(setup, db, w, session.database.state, machine)
      modifies this`machine, session
      ensures Valid() && machine.phase == Idle && machine.intake == old(machine.intake)
      ensures session.pending == if world.rollsBack then [] else old(session.pending)
      ensures Reaches(setup, db, w, session.database.state, machine)
    {
      Follow(Rollback(world.rollsBack), db, w);
      if world.rollsBack {
        session.Rollback();
      }
    }

    /** The machine's part of one get. */
    ghost method FollowGet(rival: Option<Payload>, db: Db, w: Worker)
      requires Valid() && machine.phase.Collecting? && |machine.phase.batch| < setup.batchMax && queue != []
      requires Reaches(setup, db, w, session.database.state, machine)
      modifies this`machine
      ensures machine == MachineAfterGet(setup, old(machine), rival)
      ensures Reachable(setup, machine) && Reaches(setup, db, w, session.database.state, machine)
    {
      ghost var before := machine;
      MachineGets(setup, session.database.state, machine, rival);
      machine := MachineAfterGet(setup, machine, rival);
      ReachesTransitive(setup, db, w, session.database.state, before, session.database.state, machine);
      ReachableExtends(setup, session.database.state, before, session.database.state, machine);
    }

    /** The get itself: a rival's put comes between taking an item and putting a sentinel back. */
    method GetNext(rival: Option<Payload>) returns (next: Option<Payload>)
      requires queue != []
      modifies this`queue
      ensures next == old(queue)[0] && queue == AfterGet(setup, old(queue), rival)
    {
      next := queue[0];
      queue := queue[1..];
      if rival.Some? {
        queue := queue + [rival];
      }
      if next.None? && !IsFull() {
        queue := queue + [None];
      }
    }

    /** Takes one more item for the batch, which a sentinel ends. */
    method CollectOne(batch: seq<Payload>, rival: Option<Payload>, ghost db: Db, ghost w: Worker)
        returns (more: seq<Payload>, stop: bool)
      requires Valid() && machine.phase == Collecting(batch) && |batch| < setup.batchMax && queue != []
      requires Reaches(setup, db, w, session.database.state, machine)
      modifies this`machine, this`queue
      ensures Valid() && machine.intake.accepted == old(machine.intake.accepted) + Payloads(Arrived(rival))
      ensures queue == AfterGet(setup, old(queue), rival)
      ensures stop == old(queue)[0].None? && more == batch + Head(old(queue))
      ensures machine.phase == if stop then WriteFrom(more, 0, false) else Collecting(more)
      ensures Reaches(setup, db, w, session.database.state, machine)
    {
      NotOverfull();
      MachineAfterGetIs(setup, machine, rival);
      FollowGet(rival, db, w);
      var next := GetNext(rival);
      stop := next.None?;
      more := if stop then batch else batch + [next.value];
    }

    /** The queue never exceeds its capacity, so that a get makes room. */
    lemma NotOverfull()
      requires setup.Valid() && machine.intake.queue == queue && Reachable(setup, machine)
      ensures setup.capacity > 0 ==> |queue| <= setup.capacity
    {
      ReachableInvariants(setup, machine);
    }

    /** What collecting has done so far, on a run from `db` and `w` with `items` queued behind `first`. */
    ghost predicate Gathered(batch: seq<Payload>, arrived: seq<Payload>, lost: bool, items: seq<Option<Payload>>,
                             first: Payload, db: Db, w: Worker)
      reads this, session, session.database
    {
      && Valid() && machine.intake.accepted == w.intake.accepted + arrived
      && 1 <= |batch| <= setup.batchMax && GatheredFrom(setup, items, first, batch, arrived, lost, queue)
      && session.database.state == db && Reaches(setup, db, w, db, machine)
    }

    /** One turn of collecting. */
    method GatherOne(batch: seq<Payload>, rival: Option<Payload>, ghost arrived: seq<Payload>,
                     ghost items: seq<Option<Payload>>, ghost first: Payload, ghost db: Db, ghost w: Worker)
        returns (more: seq<Payload>, stop: bool, ghost arrivedNow: seq<Payload>, ghost lost: bool)
      requires Gathered(batch, arrived, false, items, first, db, w)
      requires machine.phase == Collecting(batch) && |batch| < setup.batchMax && queue != []
      modifies this`machine, this`queue
      ensures Gathered(more, arrivedNow, lost, items, first, db, w) && arrivedNow == arrived + Payloads(Arrived(rival))
      ensures lost ==> stop
      ensures lost == (None in old(queue) && None !in queue)
      ensures stop == old(queue)[0].None? && more == batch + Head(old(queue))
      ensures queue == AfterGet(setup, old(queue), rival)
      ensures machine.phase == if stop then WriteFrom(more, 0, false) else Collecting(more)
    {
      ghost var had := queue;
      NotOverfull();
      GetGathers(setup, items, first, batch, arrived, had, rival);
      GetTakesOne(setup, batch, had, rival);
      AcceptedSoFar(w.intake.accepted, arrived, rival);
      more, stop := CollectOne(batch, rival, db, w);
      arrivedNow, lost := arrived + Payloads(Arrived(rival)), None in had && None !in queue;
    }

    /** One turn of collecting, as far as it has drawn from the queue. */
    method DrawOne(batch: seq<Payload>, rival: Option<Payload>, ghost arrived: seq<Payload>,
                   ghost items: seq<Option<Payload>>, ghost first: Payload, ghost db: Db, ghost w: Worker)
        returns (more: seq<Payload>, stop: bool, ghost arrivedNow: seq<Payload>, ghost lost: bool)
      requires Gathered(batch, arrived, false, items, first, db, w)
      requires DrawnSoFar(items + Queued(arrived), first, batch, queue)
      requires machine.phase == Collecting(batch) && |batch| < setup.batchMax && queue != []
      modifies this`machine, this`queue
      ensures Gathered(more, arrivedNow, lost, items, first, db, w) && (rival.None? ==> arrivedNow == arrived)
      ensures (lost ==> stop) && (lost ==> rival.Some?)
      ensures machine.phase == if stop then WriteFrom(more, 0, false) else Collecting(more)
      ensures if stop then Draws(items + Queued(arrivedNow), first, more) && EndsDraw(items + Queued(arrivedNow), more)
              else |more| == |batch| + 1 && DrawnSoFar(items + Queued(arrivedNow), first, more, queue)
    {
      DrawNext(items, arrived, first, batch, queue, rival);
      NothingArrives(arrived, rival);
      NotOverfull();
      GetAndSentinel(setup, queue, rival);
      more, stop, arrivedNow, lost := GatherOne(batch, rival, arrived, items, first, db, w);
    }

    /**
     * Gathers a batch: at most the maximum, in queue order,
       and as many as there are before the deadline and a sentinel.
     * A rival may put an item after each get; a sentinel met is put back, and lost exactly when a rival has filled the
     * queue meanwhile and no other sentinel is queued.
     */
    method CollectBatch(first: Payload, patience: nat, rivals: nat -> Option<Payload>)
        returns (batch: seq<Payload>, ghost arrived: seq<Payload>, ghost lost: bool)
      requires Valid() && machine.phase == Collecting([first])
      modifies this`machine, this`queue
      ensures Gathered(batch, arrived, lost, old(queue), first, old(session.database.state), old(machine))
      ensures machine.phase == Writing(batch, 0, Inserting, false)
      ensures Draws(old(queue) + Queued(arrived), first, batch)
      ensures |batch| == setup.batchMax || |batch| == patience + 1 || EndsDraw(old(queue) + Queued(arrived), batch)
      ensures (forall i :: rivals(i).None?) ==> arrived == [] && !lost
    {
      ghost var w, db, items := machine, session.database.state, queue;
      batch, arrived, lost := [first], [], false;
      var gets := 0;
      ReachesSelf(setup, db, w);
      NothingGathered(setup, items, first);
      assert items + Queued([]) == items;
      while |batch| < setup.batchMax && gets < patience && queue != []
        invariant Gathered(batch, arrived, false, items, first, db, w) && machine.phase == Collecting(batch)
        invariant gets + 1 == |batch| && gets <= patience && |batch| <= setup.batchMax
        invariant DrawnSoFar(items + Queued(arrived), first, batch, queue)
        invariant (forall i :: rivals(i).None?) ==> arrived == []
        decreases patience - gets
      {
        var stop;
        batch, stop, arrived, lost := DrawOne(batch, rivals(gets), arrived, items, first, db, w);
        if stop {
          return;
        }
        gets := gets + 1;
      }
      lost := false;
      StopCollecting(batch, arrived, items, first, db, w);
    }

    ghost method StopCollecting(batch: seq<Payload>, arrived: seq<Payload>, items: seq<Option<Payload>>,
                                first: Payload, db: Db, w: Worker)
      requires Gathered(batch, arrived, false, items, first, db, w) && machine.phase == Collecting(batch)
      modifies this`machine
      ensures Gathered(batch, arrived, false, items, first, db, w)
      ensures machine.phase == Writing(batch, 0, Inserting, false)
    {
      Follow(CollectStop, db, w);
    }

    /** One turn of the worker's loop: the next item with its batch, or the sentinel. */
    method HandleNext(world: World) returns (stopped: bool, ghost batch: seq<Payload>)
      requires Valid() && machine.phase == Idle && queue != []
      modifies this, session, session.database
      ensures Valid() && machine.intake.accepted == old(machine.intake.accepted)
      ensures stopped == old(queue)[0].None? && batch + Payloads(queue) == Payloads(old(queue))
      ensures stopped ==>
        machine.phase == Draining([]) && batch == [] && queue == old(queue)[1..] && Books() == old(Books())
      ensures !stopped ==>
        machine.phase == Idle && batch != [] && |queue| < |old(queue)| && (None in old(queue) <==> None in queue)
      ensures !stopped && world.adapterReady ==> Books() == AfterBatch(setup.windows, world, batch, old(Books()))
      ensures !stopped && !world.adapterReady ==> |batch| == 1 && Books() == AfterRefusal(batch[0], old(Books()))
      ensures Reaches(setup, old(session.database.state), old(machine), session.database.state, machine)
    {
      HeadComesFirst(queue);
      match queue[0] {
        case None =>
          TakeSentinel();
          stopped, batch := true, [];
        case Some(p) =>
          stopped := false;
          if world.adapterReady {
            batch := HandleFrom(p, world);
          } else {
            Refuse(p);
            batch := [p];
          }
      }
    }

    method TakeSentinel()
      requires Valid() && machine.phase == Idle && queue != [] && queue[0].None?
      modifies this`machine, this`queue
      ensures Valid() && machine.intake.accepted == old(machine.intake.accepted)
      ensures machine.phase == Draining([]) && queue == old(queue)[1..]
      ensures Reaches(setup, session.database.state, old(machine), session.database.state, machine)
    {
      ReachesByOne(setup, session.database.state, machine, Take(true));
      Step(Take(true));
      queue := queue[1..];
    }

    /** No adapter could be made for this item. */
    method Refuse(p: Payload)
      requires Valid() && machine.phase == Idle && queue != [] && queue[0] == Some(p)
      modifies this
      ensures Valid() && machine.intake.accepted == old(machine.intake.accepted)
      ensures machine.phase == Idle && queue == old(queue)[1..] && Books() == AfterRefusal(p, old(Books()))
      ensures Reaches(setup, session.database.state, old(machine), session.database.state, machine)
    {
      ReachesByOne(setup, session.database.state, machine, Take(false));
      Step(Take(false));
      queue := queue[1..];
      totalErrors := totalErrors + 1;
      AppendDeadLetter(p);
    }

    method TakeFirst(p: Payload)
      requires Valid() && machine.phase == Idle && queue != [] && queue[0] == Some(p)
      modifies this`machine, this`queue
      ensures Valid() && machine.intake.accepted == old(machine.intake.accepted)
      ensures machine.phase == Collecting([p]) && queue == old(queue)[1..]
      ensures Reaches(setup, session.database.state, old(machine), session.database.state, machine)
    {
      ReachesByOne(setup, session.database.state, machine, Take(true));
      Step(Take(true));
      queue := queue[1..];
    }

    /** The batch that starts with this item. */
    method HandleFrom(p: Payload, world: World) returns (batch: seq<Payload>)
      requires Valid() && machine.phase == Idle && queue != [] && queue[0] == Some(p)
      modifies this, session, session.database
      ensures Valid() && machine.intake.accepted == old(machine.intake.accepted) && machine.phase == Idle
      ensures batch != [] && batch + Payloads(queue) == [p] + Payloads(old(queue)[1..])
      ensures |queue| < |old(queue)| && (None in old(queue)[1..] <==> None in queue)
      ensures Books() == AfterBatch(setup.windows, world, batch, old(Books()))
      ensures Reaches(setup, old(session.database.state), old(machine), session.database.state, machine)
    {
      ghost var w, db := machine, session.database.state;
      TakeFirst(p);
      ghost var taken := machine;
      ghost var arrived, lost;
      batch, arrived, lost := CollectBatch(p, world.patience, _ => None);
      QuietlyGathered(setup, old(queue)[1..], p, batch, queue);
      ReachesTransitive(setup, db, w, db, taken, db, machine);
      ghost var collected := machine;
      HandleBatch(batch, world);
      ReachesTransitive(setup, db, w, db, collected, session.database.state, machine);
    }

    /** One item of the drain. */
    method DrainOne(batch: seq<Payload>, ghost db: Db, ghost w: Worker) returns (more: seq<Payload>)
      requires Valid() && machine.phase == Draining(batch) && queue != []
      requires Reaches(setup, db, w, session.database.state, machine)
      modifies this`machine, this`queue
      ensures Valid() && machine.intake.accepted == old(machine.intake.accepted)
      ensures machine.phase == Draining(more) && queue == old(queue)[1..]
      ensures more + Payloads(queue) == batch + Payloads(old(queue))
      ensures Reaches(setup, db, w, session.database.state, machine)
    {
      TakenKeepsOrder(queue, batch);
      Follow(DrainTake, db, w);
      var item := queue[0];
      queue := queue[1..];
      more := if item.Some? then batch + [item.value] else batch;
    }

    /** Empties the queue into one last batch. */
    method DrainQueue() returns (batch: seq<Payload>)
      requires Valid() && machine.phase == Draining([])
      modifies this`machine, this`queue
      ensures Valid() && machine.intake.accepted == old(machine.intake.accepted)
      ensures machine.phase == Draining(batch) && queue == [] && batch == Payloads(old(queue))
      ensures Reaches(setup, session.database.state, old(machine), session.database.state, machine)
    {
      ghost var w, db, all := machine, session.database.state, Payloads(queue);
      batch := [];
      ReachesSelf(setup, db, w);
      while queue != []
        invariant Valid() && machine.intake.accepted == w.intake.accepted && machine.phase == Draining(batch)
        invariant batch + Payloads(queue) == all
        invariant session.database.state == db && Reaches(setup, db, w, db, machine)
        decreases |queue|
      {
        batch := DrainOne(batch, db, w);
      }
    }

    /** Handles the last batch, without dead letters for its failures, and closes the session. */
    method Drain(world: World) returns (ghost batch: seq<Payload>)
      requires Valid() && machine.phase == Draining([])
      modifies this, session, session.database
      ensures Valid() && machine.intake.accepted == old(machine.intake.accepted)
      ensures machine.phase == Closed && queue == [] && batch == Payloads(old(queue))
      ensures Books() == AfterLastBatch(setup.windows, world, batch, old(Books()))
      ensures Reaches(setup, old(session.database.state), old(machine), session.database.state, machine)
    {
      ghost var w, db := machine, session.database.state;
      var drained := DrainQueue();
      batch := drained;
      if drained == [] || !world.adapterReady {
        GiveUp(drained, world, db, w);
      } else {
        HandleLast(drained, world, db, w);
      }
    }

    /** A drain with nothing in it, or without an adapter, closes the session. */
    method GiveUp(batch: seq<Payload>, world: World, ghost db: Db, ghost w: Worker)
      requires Valid() && machine.phase == Draining(batch) && queue == [] && (batch == [] || !world.adapterReady)
      requires Reaches(setup, db, w, session.database.state, machine)
      modifies this`machine, session
      ensures Valid() && machine.phase == Closed && machine.intake == old(machine.intake)
      ensures session.pending == []
      ensures Reaches(setup, db, w, session.database.state, machine)
    {
      Follow(DrainEnd(world.adapterReady), db, w);
      session.Rollback();
    }

    method HandleLast(batch: seq<Payload>, world: World, ghost db: Db, ghost w: Worker)
      requires Valid() && world.adapterReady && batch != [] && machine.phase == Draining(batch) && queue == []
      requires Reaches(setup, db, w, session.database.state, machine)
      modifies this`machine, this`deadLetter, this`totalProcessed, this`totalErrors, session, session.database
      ensures Valid() && machine.intake == old(machine.intake) && machine.phase == Closed
      ensures Books() == AfterLastBatch(setup.windows, world, batch, old(Books()))
      ensures Reaches(setup, db, w, session.database.state, machine)
    {
      Follow(DrainEnd(true), db, w);
      ghost var writing, at := machine, session.database.state;
      var done := ProcessBatch(batch, true, world);
      ReachesTransitive(setup, db, w, at, writing, session.database.state, machine);
      EnterLast(done, batch, db, w);
    }

    method EnterLast(done: bool, batch: seq<Payload>, ghost db: Db, ghost w: Worker)
      requires Valid() && machine.phase == if done then Returning(batch, true) else Failing(batch, true)
      requires Reaches(setup, db, w, session.database.state, machine)
      modifies this`machine, this`totalProcessed, this`totalErrors, session
      ensures Valid() && machine.phase == Closed && machine.intake == old(machine.intake)
      ensures Books() == EnteredLast(done, |batch|, old(Books()))
      ensures Reaches(setup, db, w, session.database.state, machine)
    {
      if done {
        RecordReturnOf(batch, true, db, w);
      } else {
        RecordLastFailureOf(batch, db, w);
      }
    }

    method RecordLastFailureOf(batch: seq<Payload>, ghost db: Db, ghost w: Worker)
      requires Valid() && machine.phase == Failing(batch, true)
      requires Reaches(setup, db, w, session.database.state, machine)
      modifies this`machine, this`totalErrors, session
      ensures Valid() && machine.phase == Closed && machine.intake == old(machine.intake)
      ensures totalErrors == old(totalErrors) + |batch| && session.pending == []
      ensures Reaches(setup, db, w, session.database.state, machine)
    {
      Follow(RecordFailure, db, w);
      totalErrors := totalErrors + |batch|;
      session.Rollback();
    }

    /** What the loop has done so far, on a run from `db` and `w`, with `done` the payloads it has taken off `items`. */
    ghost predicate Looped(items: seq<Option<Payload>>, done: seq<Payload>, faultFree: bool, db: Db, w: Worker)
      reads this, session, session.database
    {
      && Valid() && machine.intake.accepted == w.intake.accepted
      && done + Payloads(queue) == Payloads(items)
      && Reaches(setup, db, w, session.database.state, machine)
      && (faultFree && w.session.pending == [] ==>
            session.pending == [] && session.database.state == Apply(db, AllOps(setup.windows, done)))
    }

    /** One turn of the loop, on such a run. */
    method LoopOnce(world: World, ghost items: seq<Option<Payload>>, ghost done: seq<Payload>, ghost faultFree: bool,
                    ghost db: Db, ghost w: Worker) returns (stopped: bool, ghost more: seq<Payload>)
      requires Looped(items, done, faultFree, db, w) && machine.phase == Idle && queue != []
      requires faultFree ==> FaultFree(world)
      modifies this, session, session.database
      ensures Looped(items, more, faultFree, db, w)
      ensures if stopped then machine.phase == Draining([]) && None in old(queue)
              else machine.phase == Idle && (None in queue <==> None in old(queue)) && |queue| < |old(queue)|
    {
      ghost var before, at, books := machine, session.database.state, Books();
      ghost var batch;
      ghost var payloads := Payloads(queue);
      stopped, batch := HandleNext(world);
      more := done + batch;
      ReachesTransitive(setup, db, w, at, before, session.database.state, machine);
      ConcatAssociates(done, batch, Payloads(queue));
      if faultFree && w.session.pending == [] {
        if stopped {
          assert more == done;
        } else {
          FaultFreeTurn(setup.windows, world, db, done, batch, books);
        }
      }
    }

    /**
     * The worker's loop with no producer left, up to where it stops, or waits on an empty queue for ever: it stops if
     * and only if the sentinel is queued. Either way everything accepted has been handled, and without faults every
     * queued payload is in the database as if it had been written alone.
     */
    method WorkerLoop(world: nat -> World)
      requires Valid() && machine.phase == Idle
      modifies this, session, session.database
      ensures Valid() && queue == [] && machine.phase == if None in old(queue) then Closed else Idle
      ensures None in old(queue) ==> session.pending == []
      ensures machine.intake.accepted == old(machine.intake.accepted) == machine.books.handled
      ensures totalProcessed + totalErrors + machine.books.lost == |machine.intake.accepted|
      ensures (forall t :: FaultFree(world(t))) && old(session.pending) == [] ==>
        session.database.state == Apply(old(session.database.state), AllOps(setup.windows, Payloads(old(queue))))
      ensures Reaches(setup, old(session.database.state), old(machine), session.database.state, machine)
    {
      ghost var w, db, items := machine, session.database.state, queue;
      ghost var faultFree := forall t :: FaultFree(world(t));
      ghost var done: seq<Payload> := [];
      ReachesSelf(setup, db, w);
      NothingToApply(setup.windows, db);
      var turn := 0;
      var stopped := false;
      while !stopped && queue != []
        invariant Looped(items, done, faultFree, db, w)
        invariant if stopped then machine.phase == Draining([]) && None in items
                  else machine.phase == Idle && (None in queue <==> None in items)
        decreases !stopped, |queue|
      {
        stopped, done := LoopOnce(world(turn), items, done, faultFree, db, w);
        turn := turn + 1;
      }
      if stopped {
        FinishLoop(world(turn), items, done, faultFree, db, w);
      } else {
        assert done + [] == done;
        EverythingHandled();
      }
    }

    /** The drain at the end of the loop. */
    method FinishLoop(world: World, ghost items: seq<Option<Payload>>, ghost done: seq<Payload>, ghost faultFree: bool,
                      ghost db: Db, ghost w: Worker)
      requires Looped(items, done, faultFree, db, w) && machine.phase == Draining([])
      requires faultFree ==> FaultFree(world)
      modifies this, session, session.database
      ensures Valid() && machine.phase == Closed && queue == [] && session.pending == []
      ensures machine.intake.accepted == w.intake.accepted == machine.books.handled
      ensures totalProcessed + totalErrors + machine.books.lost == |machine.intake.accepted|
      ensures faultFree && w.session.pending == [] ==>
        session.database.state == Apply(db, AllOps(setup.windows, Payloads(items)))
      ensures Reaches(setup, db, w, session.database.state, machine)
    {
      ghost var before, at, books := machine, session.database.state, Books();
      ghost var batch := Drain(world);
      ReachesTransitive(setup, db, w, at, before, session.database.state, machine);
      if faultFree && w.session.pending == [] {
        FaultFreeDrain(setup.windows, world, db, done, batch, books);
      }
      EverythingHandled();
    }

    lemma EverythingHandled()
      requires Valid() && (machine.phase == Closed || machine.phase == Idle) && queue == []
      ensures machine.intake.accepted == machine.books.handled
      ensures totalProcessed + totalErrors + machine.books.lost == |machine.intake.accepted|
    {
      ReachableInvariants(setup, machine);
      assert machine.books.handled + [] + Payloads([]) == machine.books.handled;
    }
  }

  lemma NothingToApply(windows: seq<string>, db: Db)
    ensures Apply(db, AllOps(windows, [])) == db
  {
  }

  /** A turn without faults adds the operations of its batch. */
  lemma FaultFreeTurn(windows: seq<string>, world: World, db: Db, done: seq<Payload>, batch: seq<Payload>, l: Ledger)
    requires FaultFree(world) && batch != [] && l.pending == [] && l.db == Apply(db, AllOps(windows, done))
    ensures var after := AfterBatch(windows, world, batch, l);
      after.pending == [] && after.db == Apply(db, AllOps(windows, done + batch))
  {
    FaultFreeBatch(windows, world, batch, l);
    BatchLeaves(windows, world, batch, l);
    AllOpsConcat(windows, done, batch);
    ApplyConcat(db, AllOps(windows, done), AllOps(windows, batch));
  }

  /** Entering a batch in the books leaves the database as writing left it, and nothing new pending. */
  lemma BatchLeaves(windows: seq<string>, world: World, batch: seq<Payload>, l: Ledger)
    requires batch != []
    ensures var written, after := AfterWrite(windows, world, batch, l), AfterBatch(windows, world, batch, l);
      after.db == written.db && (written.pending == [] ==> after.pending == [])
    ensures world.adapterReady ==>
      AfterLastBatch(windows, world, batch, l).db == AfterWrite(windows, world, batch, l).db
  {
  }

  lemma FaultFreeDrain(windows: seq<string>, world: World, db: Db, done: seq<Payload>, batch: seq<Payload>, l: Ledger)
    requires FaultFree(world) && l.pending == [] && l.db == Apply(db, AllOps(windows, done))
    ensures AfterLastBatch(windows, world, batch, l).db == Apply(db, AllOps(windows, done + batch))
  {
    if batch == [] {
      assert done + batch == done;
    } else {
      FaultFreeBatch(windows, world, batch, l);
      BatchLeaves(windows, world, batch, l);
      AllOpsConcat(windows, done, batch);
      ApplyConcat(db, AllOps(windows, done), AllOps(windows, batch));
    }
  }

  lemma HeadComesFirst(items: seq<Option<Payload>>)
    requires items != []
    ensures items[0].Some? ==> Payloads(items) == [items[0].value] + Payloads(items[1..])
    ensures items[0].None? ==> Payloads(items) == [] + Payloads(items[1..])
    ensures items[0].Some? ==> (None in items <==> None in items[1..])
  {
    PayloadsPop(items);
  }

  lemma TakenKeepsOrder(items: seq<Option<Payload>>, had: seq<Payload>)
    requires items != []
    ensures items[0].Some? ==> had + [items[0].value] + Payloads(items[1..]) == had + Payloads(items)
    ensures items[0].None? ==> Payloads(items[1..]) == Payloads(items)
    ensures items[0].Some? ==> (None in items <==> None in items[1..])
  {
    PayloadsPop(items);
    assert items == [items[0]] + items[1..];
    if items[0].Some? {
      ConcatAssociates(had, [items[0].value], Payloads(items[1..]));
    } else {
      assert [] + Payloads(items[1..]) == Payloads(items[1..]);
    }
  }

  /** What a rival puts into the queue. */
  function Arrived(rival: Option<Payload>): seq<Option<Payload>> {
    if rival.Some? then [rival] else []
  }

  /** The queue after a get, a rival's put, and the put that brings a sentinel back if there is room for it. */
  function AfterGet(setup: Setup, queue: seq<Option<Payload>>, rival: Option<Payload>): seq<Option<Payload>>
    requires queue != []
  {
    var rest := queue[1..] + Arrived(rival);
    if queue[0].None? && !Full(setup, rest) then rest + [None] else rest
  }

  /**
   * The machine after a get: a rival's put comes before it when there is room for both, and takes the freed place
   * otherwise.
   */
  function MachineAfterGet(setup: Setup, w: Worker, rival: Option<Payload>): Worker
    requires w.phase.Collecting? && w.intake.queue != []
  {
    match rival
    case None => DoCollect(setup, w, true)
    case Some(p) =>
      if w.intake.queue[0].None? && !Full(setup, w.intake.queue) then DoCollect(setup, Offer(setup, w, p, false), true)
      else Offer(setup, DoCollect(setup, w, false), p, false)
  }

  lemma MachineGets(setup: Setup, db: Db, w: Worker, rival: Option<Payload>)
    requires w.phase.Collecting? && |w.phase.batch| < setup.batchMax && w.intake.queue != []
    ensures Reaches(setup, db, w, db, MachineAfterGet(setup, w, rival))
  {
    match rival
    case None => ReachesByOne(setup, db, w, CollectMore(true));
    case Some(p) =>
      if w.intake.queue[0].None? && !Full(setup, w.intake.queue) {
        ReachesByOne(setup, db, w, EnqueueLaneChange(p));
        ReachesOneMore(setup, db, w, db, Offer(setup, w, p, false), CollectMore(true));
      } else {
        ReachesByOne(setup, db, w, CollectMore(false));
        ReachesOneMore(setup, db, w, db, DoCollect(setup, w, false), EnqueueLaneChange(p));
      }
  }

  lemma MachineAfterGetIs(setup: Setup, w: Worker, rival: Option<Payload>)
    requires w.phase.Collecting? && w.intake.queue != []
    requires setup.capacity > 0 ==> |w.intake.queue| <= setup.capacity
    ensures var v := MachineAfterGet(setup, w, rival);
      && v.session == w.session && v.books == w.books && v.intake.dropped == w.intake.dropped
      && v.intake.queue == AfterGet(setup, w.intake.queue, rival)
      && v.intake.accepted == w.intake.accepted + Payloads(Arrived(rival))
      && v.phase == AfterGetPhase(w.intake.queue[0], w.phase.batch)
  {
    var queue := w.intake.queue;
    if rival.None? {
      assert queue[1..] + [] == queue[1..];
      assert w.intake.accepted + [] == w.intake.accepted;
    } else {
      assert (queue + [rival])[1..] == queue[1..] + [rival];
      assert [rival][..0] == [];
    }
  }

  function AfterGetPhase(item: Option<Payload>, batch: seq<Payload>): Phase {
    match item
    case None => WriteFrom(batch, 0, false)
    case Some(p) => Collecting(batch + [p])
  }

  lemma GetKeepsOrder(setup: Setup, queue: seq<Option<Payload>>, rival: Option<Payload>, had: seq<Payload>)
    requires queue != []
    ensures had + Head(queue) + Payloads(AfterGet(setup, queue, rival))
      == had + Payloads(queue) + Payloads(Arrived(rival))
  {
    var rest, after := queue[1..] + Arrived(rival), AfterGet(setup, queue, rival);
    PayloadsPop(queue);
    ArrivedLast(queue[1..], rival);
    if after != rest {
      SentinelAddsNoPayload(rest);
    }
    ConcatAssociates(had, Head(queue), Payloads(after));
    ConcatAssociates(Head(queue), Payloads(queue[1..]), Payloads(Arrived(rival)));
    ConcatAssociates(had, Payloads(queue), Payloads(Arrived(rival)));
  }

  /**
   * Batch and queue together hold the payloads they held before and the arrivals, in order. A sentinel is lost only
   * when the last arrival has filled the queue.
   */
  ghost predicate GatheredFrom(setup: Setup, items: seq<Option<Payload>>, first: Payload, batch: seq<Payload>,
                               arrived: seq<Payload>, lost: bool, queue: seq<Option<Payload>>)
  {
    && batch + Payloads(queue) == [first] + Payloads(items) + arrived
    && (None in queue <==> None in items && !lost)
    && (lost ==> Full(setup, queue) && arrived != [] && queue[|queue| - 1] == Some(arrived[|arrived| - 1]))
    && (arrived == [] ==> |queue| <= |items|)
  }

  lemma AcceptedSoFar(accepted: seq<Payload>, arrived: seq<Payload>, rival: Option<Payload>)
    ensures accepted + arrived + Payloads(Arrived(rival)) == accepted + (arrived + Payloads(Arrived(rival)))
  {
  }

  function Queued(ps: seq<Payload>): (r: seq<Option<Payload>>)
    ensures |r| == |ps|
    ensures forall i :: 0 <= i < |ps| ==> r[i] == Some(ps[i])
  {
    seq(|ps|, i requires 0 <= i < |ps| => Some(ps[i]))
  }

  /** The batch is its first item and what was queued, in order. */
  ghost predicate Draws(stream: seq<Option<Payload>>, first: Payload, batch: seq<Payload>) {
    && 1 <= |batch| <= |stream| + 1 && batch[0] == first
    && forall j :: 0 <= j < |batch| - 1 ==> stream[j] == Some(batch[j + 1])
  }

  /** Nothing more was queued, or a sentinel came next. */
  predicate EndsDraw(stream: seq<Option<Payload>>, batch: seq<Payload>) {
    |batch| == |stream| + 1 || (1 <= |batch| <= |stream| && stream[|batch| - 1].None?)
  }

  ghost predicate DrawnSoFar(
    stream: seq<Option<Payload>>, first: Payload, batch: seq<Payload>, queue: seq<Option<Payload>>)
  {
    Draws(stream, first, batch) && queue == stream[|batch| - 1..]
  }

  lemma StreamGrows(items: seq<Option<Payload>>, arrived: seq<Payload>, rival: Option<Payload>)
    ensures items + Queued(arrived + Payloads(Arrived(rival))) == items + Queued(arrived) + Arrived(rival)
  {
    PayloadsOfArrived(rival);
  }

  lemma DrawSentinel(stream: seq<Option<Payload>>, first: Payload, batch: seq<Payload>, queue: seq<Option<Payload>>,
                     later: seq<Option<Payload>>)
    requires queue != [] && queue[0].None? && DrawnSoFar(stream, first, batch, queue)
    ensures Draws(stream + later, first, batch) && EndsDraw(stream + later, batch)
  {
    assert stream[|batch| - 1] == queue[0];
  }

  lemma DrawPayload(stream: seq<Option<Payload>>, first: Payload, batch: seq<Payload>, queue: seq<Option<Payload>>,
                    later: seq<Option<Payload>>)
    requires queue != [] && queue[0].Some? && DrawnSoFar(stream, first, batch, queue)
    ensures DrawnSoFar(stream + later, first, batch + [queue[0].value], queue[1..] + later)
  {
    assert stream[|batch| - 1] == queue[0];
    assert (stream + later)[|batch|..] == stream[|batch|..] + later;
    assert queue[1..] == stream[|batch|..];
  }

  lemma DrawNext(items: seq<Option<Payload>>, arrived: seq<Payload>, first: Payload, batch: seq<Payload>,
                 queue: seq<Option<Payload>>, rival: Option<Payload>)
    requires queue != [] && DrawnSoFar(items + Queued(arrived), first, batch, queue)
    ensures var more := items + Queued(arrived + Payloads(Arrived(rival)));
      if queue[0].None? then Draws(more, first, batch + Head(queue)) && EndsDraw(more, batch + Head(queue))
      else DrawnSoFar(more, first, batch + Head(queue), queue[1..] + Arrived(rival))
  {
    StreamGrows(items, arrived, rival);
    if queue[0].None? {
      DrawSentinel(items + Queued(arrived), first, batch, queue, Arrived(rival));
      assert batch + Head(queue) == batch;
    } else {
      DrawPayload(items + Queued(arrived), first, batch, queue, Arrived(rival));
    }
  }

  lemma NothingArrives(arrived: seq<Payload>, rival: Option<Payload>)
    ensures rival.None? ==> arrived + Payloads(Arrived(rival)) == arrived
  {
  }

  lemma NothingGathered(setup: Setup, items: seq<Option<Payload>>, first: Payload)
    ensures GatheredFrom(setup, items, first, [first], [], false, items)
  {
    assert [first] + Payloads(items) + [] == [first] + Payloads(items);
  }

  /** One get keeps it so. */
  lemma GetGathers(setup: Setup, items: seq<Option<Payload>>, first: Payload, batch: seq<Payload>,
                   arrived: seq<Payload>, queue: seq<Option<Payload>>, rival: Option<Payload>)
    requires queue != [] && (setup.capacity > 0 ==> |queue| <= setup.capacity)
    requires GatheredFrom(setup, items, first, batch, arrived, false, queue)
    ensures var after := AfterGet(setup, queue, rival);
      GatheredFrom(setup, items, first, batch + Head(queue), arrived + Payloads(Arrived(rival)),
                   None in queue && None !in after, after)
  {
    GetKeepsOrder(setup, queue, rival, batch);
    ConcatAssociates([first] + Payloads(items), arrived, Payloads(Arrived(rival)));
    GetAndSentinel(setup, queue, rival);
    PayloadsOfArrived(rival);
  }

  lemma GetTakesOne(setup: Setup, batch: seq<Payload>, queue: seq<Option<Payload>>, rival: Option<Payload>)
    requires queue != [] && (setup.capacity > 0 ==> |queue| <= setup.capacity)
    ensures None in queue && None !in AfterGet(setup, queue, rival) ==> queue[0].None?
    ensures |batch| <= |batch + Head(queue)| <= |batch| + 1
  {
    GetAndSentinel(setup, queue, rival);
  }

  lemma PayloadsOfArrived(rival: Option<Payload>)
    ensures Payloads(Arrived(rival)) == if rival.Some? then [rival.value] else []
  {
    assert [rival][..0] == [];
  }

  /** Nobody puts anything: nothing arrives and no sentinel is lost. */
  lemma QuietlyGathered(setup: Setup, items: seq<Option<Payload>>, first: Payload, batch: seq<Payload>,
                        queue: seq<Option<Payload>>)
    requires GatheredFrom(setup, items, first, batch, [], false, queue)
    ensures batch + Payloads(queue) == [first] + Payloads(items) && |queue| <= |items|
    ensures None in queue <==> None in items
  {
  }

  lemma ArrivedLast(queue: seq<Option<Payload>>, rival: Option<Payload>)
    ensures Payloads(queue + Arrived(rival)) == Payloads(queue) + Payloads(Arrived(rival))
  {
    if rival.Some? {
      PayloadsPush(queue, rival);
      PayloadsPush([], rival);
      assert [] + [rival] == [rival];
    } else {
      assert queue + [] == queue;
    }
  }

  /** A get loses the last sentinel exactly when it takes it and a rival fills the queue. */
  lemma GetAndSentinel(setup: Setup, queue: seq<Option<Payload>>, rival: Option<Payload>)
    requires queue != [] && (setup.capacity > 0 ==> |queue| <= setup.capacity)
    ensures var after := AfterGet(setup, queue, rival);
      && (None in after ==> None in queue)
      && (rival.None? ==> |after| <= |queue|)
      && (None in queue && None !in after <==>
            queue[0].None? && None !in queue[1..] && rival.Some? && Full(setup, queue))
      && (None in queue && None !in after ==> Full(setup, after) && after[|after| - 1] == rival)
  {
    HeadComesFirst(queue);
    assert queue == [queue[0]] + queue[1..];
  }

  lemma SentinelAddsNoPayload(items: seq<Option<Payload>>)
    ensures Payloads(items + [None]) == Payloads(items)
  {
    PayloadsPush(items, None);
  }
}

/** One storage worker as a state machine of atomic steps, shared between producer and worker thread. */
module StorageProtocol {
  import opened Sequences
  import opened RollupIndex

  datatype Payload = CountPayload(row: EventRow) | LaneChangePayload(change: LaneChangeRow)

  /** Where the writing of a batch stands; `next` payloads of it have been dealt with. */
  datatype Stage = Inserting | RollingUp(done: nat) | Committing(tries: nat)

  datatype Phase =
    | Idle
    | Collecting(batch: seq<Payload>)
    | Writing(batch: seq<Payload>, next: nat, stage: Stage, draining: bool)
    | Publishing(batch: seq<Payload>, draining: bool)
    | Returning(batch: seq<Payload>, draining: bool)
    | Raised(batch: seq<Payload>, draining: bool, fault: Fault)
    | Failing(batch: seq<Payload>, draining: bool)
    | RollingBack
    | Draining(batch: seq<Payload>)
    | Closed

  /** The producers' side; `None` in the queue is the stop sentinel. What was offered and accepted is history. */
  datatype Intake = Intake(queue: seq<Option<Payload>>, offered: nat, accepted: seq<Payload>, dropped: nat)

  /** The counters and dead letters; what handling is over for, and what a drain without an adapter lost, is history. */
  datatype Books = Books(deadLetter: seq<Payload>, processed: nat, errors: nat, handled: seq<Payload>, lost: nat)

  /**
   * The worker's session. What it committed is history, and so is how many events were left in the session,
   * or committed, with their roll-up cut short.
   */
  datatype Held = Held(pending: seq<Op>, written: seq<Op>, cut: nat, damaged: nat)

  datatype Worker = Worker(intake: Intake, phase: Phase, books: Books, session: Held)

  const NEW_WORKER := Worker(Intake([], 0, [], 0), Idle, Books([], 0, 0, [], 0), Held([], [], 0, 0))

  /** `capacity` 0 is an unbounded queue. */
  datatype Setup = Setup(capacity: nat, batchMax: nat, windows: seq<string>) {
    predicate Valid() { batchMax >= 1 }
  }

  const QUEUE_CRIT_THRESHOLD := 1024
  const DEAD_LETTER_MAX := 10_000
  const COMMIT_ATTEMPTS := 8

  /** Exceptions that `_process` answers itself, and all others. */
  datatype Fault = Expected | Unexpected

  datatype Action =
    | Enqueue(payload: Payload, seenSize: nat)
    | EnqueueLaneChange(payload: Payload)
    | PutSentinel
    | Take(adapterReady: bool)
    | CollectMore(requeued: bool)
    | CollectStop
    | DrainTake
    | SkipDatabase
    | Insert
    | InsertFails(fault: Fault)
    | BumpBucket
    | FinishRollUp
    | SwallowRollUpError
    | RollUpFails
    | CommitOk
    | CommitLocked(fault: Fault)
    | CommitFails(fault: Fault, kept: bool)
    | PublishOk
    | PublishFails
    | Answer
    | Return
    | RecordFailure
    | Rollback(ok: bool)
    | DrainEnd(adapterReady: bool)

  /** Steps of producers and of `stop`; they leave phase and session alone. */
  predicate OfProducer(a: Action) {
    a.Enqueue? || a.EnqueueLaneChange? || a.PutSentinel?
  }

  /** Steps that take items off the queue; they leave the session alone. */
  predicate OfTaking(a: Action) {
    a.Take? || a.CollectMore? || a.CollectStop? || a.DrainTake?
  }

  /** Steps that roll an event up. */
  predicate OfRollUp(a: Action) {
    a.BumpBucket? || a.FinishRollUp? || a.SwallowRollUpError? || a.RollUpFails?
  }

  /** Steps that write and publish a batch; they change only phase and session. */
  predicate OfWriting(a: Action) {
    || a.SkipDatabase? || a.Insert? || a.InsertFails? || OfRollUp(a) || a.CommitLocked? || a.CommitFails?
    || a.PublishOk? || a.PublishFails?
  }

  /** Steps that end a batch; they leave the queue alone. */
  predicate OfEnding(a: Action) {
    a.Answer? || a.Return? || a.RecordFailure? || a.Rollback? || a.DrainEnd?
  }

  predicate Full(cfg: Setup, queue: seq<Option<Payload>>) {
    cfg.capacity > 0 && |queue| >= cfg.capacity
  }

  /** A producer's dead letter is refused once the list is full. */
  function AppendDeadLetter(dead: seq<Payload>, p: Payload): seq<Payload> {
    if |dead| < DEAD_LETTER_MAX then dead + [p] else dead
  }

  function AppendDeadLetters(dead: seq<Payload>, batch: seq<Payload>): seq<Payload> {
    if batch == [] then dead
    else AppendDeadLetter(AppendDeadLetters(dead, batch[..|batch| - 1]), batch[|batch| - 1])
  }

  /** The worker's own dead letter displaces the oldest one instead. */
  function ShiftDeadLetter(dead: seq<Payload>, p: Payload): seq<Payload> {
    if |dead| + 1 > DEAD_LETTER_MAX then (dead + [p])[1..] else dead + [p]
  }

  function Payloads(queue: seq<Option<Payload>>): seq<Payload> {
    if queue == [] then []
    else Payloads(queue[..|queue| - 1]) + match queue[|queue| - 1] case None => [] case Some(p) => [p]
  }

  function InFlight(ph: Phase): seq<Payload> {
    match ph
    case Idle | RollingBack | Closed => []
    case Collecting(b) => b
    case Writing(b, _, _, _) => b
    case Publishing(b, _) => b
    case Returning(b, _) => b
    case Raised(b, _, _) => b
    case Failing(b, _) => b
    case Draining(b) => b
  }

  /** The writing phase after `next` payloads: the next insert, or the commit. */
  function WriteFrom(batch: seq<Payload>, next: nat, draining: bool): Phase {
    Writing(batch, next, if next >= |batch| then Committing(0) else Inserting, draining)
  }

  /** A session rolled back or closed. */
  function Cleared(s: Held): Held {
    s.(pending := [], cut := 0)
  }

  /** A session after a successful commit. */
  function Committed(s: Held): Held {
    Held([], s.written + s.pending, 0, s.damaged + s.cut)
  }

  /** A single count payload is handled by `_process`, which answers expected faults with a dead letter. */
  predicate AnswersFault(batch: seq<Payload>, fault: Fault) {
    |batch| == 1 && batch[0].CountPayload? && fault.Expected?
  }

  predicate TakingEnabled(cfg: Setup, queue: seq<Option<Payload>>, ph: Phase, a: Action) {
    match a
    case Take(_) => ph.Idle? && queue != []
    case CollectMore(_) => ph.Collecting? && |ph.batch| < cfg.batchMax && queue != []
    case CollectStop => ph.Collecting?
    case DrainTake => ph.Draining? && queue != []
    case _ => false
  }

  /** The roll-up of the next payload can take this step. */
  predicate RollUpEnabled(cfg: Setup, ph: Phase, a: Action) {
    && ph.Writing? && ph.stage.RollingUp? && ph.next < |ph.batch| && ph.batch[ph.next].CountPayload?
    && var n := |Buckets(cfg.windows, ph.batch[ph.next].row)|;
       if a.FinishRollUp? then ph.stage.done == n else a.RollUpFails? || ph.stage.done < n
  }

  predicate WritingEnabled(cfg: Setup, ph: Phase, a: Action) {
    match a
    case SkipDatabase => ph.Writing? && ph.next == 0 && ph.stage.Inserting?
    case Insert | InsertFails(_) => ph.Writing? && ph.stage.Inserting? && ph.next < |ph.batch|
    case BumpBucket | FinishRollUp | SwallowRollUpError | RollUpFails => RollUpEnabled(cfg, ph, a)
    case CommitLocked(_) | CommitFails(_, _) => ph.Writing? && ph.stage.Committing?
    case PublishOk | PublishFails => ph.Publishing?
    case _ => false
  }

  predicate EndingEnabled(queue: seq<Option<Payload>>, ph: Phase, a: Action) {
    match a
    case Answer => ph.Raised?
    case Return => ph.Returning?
    case RecordFailure => ph.Failing?
    case Rollback(_) => ph.RollingBack?
    case DrainEnd(_) => ph.Draining? && queue == []
    case _ => false
  }

  predicate Enabled(cfg: Setup, w: Worker, a: Action) {
    || OfProducer(a)
    || TakingEnabled(cfg, w.intake.queue, w.phase, a)
    || WritingEnabled(cfg, w.phase, a)
    || (a.CommitOk? && w.phase.Writing? && w.phase.stage.Committing?)
    || EndingEnabled(w.intake.queue, w.phase, a)
  }

  /** The effect of one enabled step on the shared database and on the worker. */
  function Do(cfg: Setup, db: Db, w: Worker, a: Action): (Db, Worker)
    requires Enabled(cfg, w, a)
  {
    if a.CommitOk? then
      (Apply(db, w.session.pending),
       w.(session := Committed(w.session), phase := Publishing(w.phase.batch, w.phase.draining)))
    else (db, DoLocal(cfg, w, a))
  }

  /** The effect of every step but the successful commit. */
  function DoLocal(cfg: Setup, w: Worker, a: Action): Worker
    requires Enabled(cfg, w, a) && !a.CommitOk?
  {
    if OfProducer(a) then DoProducer(cfg, w, a)
    else if OfTaking(a) then DoTaking(cfg, w, a)
    else if OfWriting(a) then
      var (ph, s) := DoWriting(cfg, w.phase, w.session, a);
      w.(phase := ph, session := s)
    else DoEnding(w, a)
  }

  function Offer(cfg: Setup, w: Worker, p: Payload, refused: bool): Worker {
    var i := w.intake;
    if refused || Full(cfg, i.queue) then
      w.(intake := i.(offered := i.offered + 1, dropped := i.dropped + 1),
         books := w.books.(deadLetter := AppendDeadLetter(w.books.deadLetter, p)))
    else
      w.(intake := i.(offered := i.offered + 1, queue := i.queue + [Some(p)], accepted := i.accepted + [p]))
  }

  function DoProducer(cfg: Setup, w: Worker, a: Action): Worker
    requires OfProducer(a)
  {
    match a
    case Enqueue(p, seenSize) => Offer(cfg, w, p, seenSize >= QUEUE_CRIT_THRESHOLD)
    case EnqueueLaneChange(p) => Offer(cfg, w, p, false)
    case PutSentinel =>
      if Full(cfg, w.intake.queue) then w else w.(intake := w.intake.(queue := w.intake.queue + [None]))
  }

  function DoTaking(cfg: Setup, w: Worker, a: Action): Worker
    requires TakingEnabled(cfg, w.intake.queue, w.phase, a)
  {
    match a
    case Take(adapterReady) => DoTake(w, adapterReady)
    case CollectMore(requeued) => DoCollect(cfg, w, requeued)
    case CollectStop => w.(phase := WriteFrom(w.phase.batch, 0, false))
    case DrainTake => DoDrainTake(w)
  }

  /** The producers' side without the head of the queue. */
  function Popped(i: Intake): Intake
    requires i.queue != []
  {
    i.(queue := i.queue[1..])
  }

  function DoTake(w: Worker, adapterReady: bool): Worker
    requires w.intake.queue != []
  {
    match w.intake.queue[0]
    case None => w.(intake := Popped(w.intake), phase := Draining([]))
    case Some(p) =>
      if adapterReady then w.(intake := Popped(w.intake), phase := Collecting([p]))
      else
        var b := w.books;
        w.(intake := Popped(w.intake),
           books := b.(errors := b.errors + 1, deadLetter := AppendDeadLetter(b.deadLetter, p),
                       handled := b.handled + [p]))
  }

  /** A sentinel met while collecting goes to the back of the queue, unless a producer took the free place. */
  function DoCollect(cfg: Setup, w: Worker, requeued: bool): Worker
    requires w.intake.queue != [] && w.phase.Collecting?
  {
    var i := Popped(w.intake);
    match w.intake.queue[0]
    case None =>
      w.(intake := if requeued && !Full(cfg, i.queue) then i.(queue := i.queue + [None]) else i,
         phase := WriteFrom(w.phase.batch, 0, false))
    case Some(p) => w.(intake := i, phase := Collecting(w.phase.batch + [p]))
  }

  function DoDrainTake(w: Worker): Worker
    requires w.intake.queue != [] && w.phase.Draining?
  {
    match w.intake.queue[0]
    case None => w.(intake := Popped(w.intake))
    case Some(p) => w.(intake := Popped(w.intake), phase := Draining(w.phase.batch + [p]))
  }

  function DoWriting(cfg: Setup, ph: Phase, s: Held, a: Action): (Phase, Held)
    requires WritingEnabled(cfg, ph, a)
  {
    match a
    case SkipDatabase => (Publishing(ph.batch, ph.draining), s)
    case Insert => DoInsert(ph, s)
    case InsertFails(fault) => (Raised(ph.batch, ph.draining, fault), s)
    case BumpBucket | FinishRollUp | SwallowRollUpError | RollUpFails => DoRollUp(cfg, ph, s, a)
    case CommitLocked(fault) =>
      (if ph.stage.tries + 1 < COMMIT_ATTEMPTS then ph.(stage := Committing(ph.stage.tries + 1))
       else Raised(ph.batch, ph.draining, fault),
       Cleared(s))
    case CommitFails(fault, kept) => (Raised(ph.batch, ph.draining, fault), if kept then s else Cleared(s))
    case PublishOk => (Returning(ph.batch, ph.draining), s)
    case PublishFails => (Failing(ph.batch, ph.draining), s)
  }

  function DoInsert(ph: Phase, s: Held): (Phase, Held)
    requires ph.Writing? && ph.next < |ph.batch|
  {
    match ph.batch[ph.next]
    case CountPayload(row) => (ph.(stage := RollingUp(0)), s.(pending := s.pending + [AddEvent(row)]))
    case LaneChangePayload(change) =>
      (WriteFrom(ph.batch, ph.next + 1, ph.draining), s.(pending := s.pending + [AddLaneChange(change)]))
  }

  function DoRollUp(cfg: Setup, ph: Phase, s: Held, a: Action): (Phase, Held)
    requires OfRollUp(a) && RollUpEnabled(cfg, ph, a)
  {
    var keys, done := Buckets(cfg.windows, ph.batch[ph.next].row), ph.stage.done;
    match a
    case BumpBucket => (ph.(stage := RollingUp(done + 1)), s.(pending := s.pending + [Increment(keys[done])]))
    case FinishRollUp => (WriteFrom(ph.batch, ph.next + 1, ph.draining), s)
    case SwallowRollUpError => (WriteFrom(ph.batch, ph.next + 1, ph.draining), s.(cut := s.cut + 1))
    case RollUpFails =>
      (Raised(ph.batch, ph.draining, Unexpected), if done < |keys| then s.(cut := s.cut + 1) else s)
  }

  function DoEnding(w: Worker, a: Action): Worker
    requires EndingEnabled(w.intake.queue, w.phase, a)
  {
    match a
    case Answer => DoAnswer(w)
    case Return => DoReturn(w)
    case RecordFailure => DoRecordFailure(w)
    case Rollback(ok) => w.(phase := Idle, session := if ok then Cleared(w.session) else w.session)
    case DrainEnd(adapterReady) => DoDrainEnd(w, adapterReady)
  }

  /** The except clauses around writing: an answered fault ends the batch as if it had been processed. */
  function DoAnswer(w: Worker): Worker
    requires w.phase.Raised?
  {
    var ph, b := w.phase, w.books;
    if AnswersFault(ph.batch, ph.fault) then
      w.(books := b.(deadLetter := ShiftDeadLetter(b.deadLetter, ph.batch[0])),
        phase := Returning(ph.batch, ph.draining))
    else w.(phase := Failing(ph.batch, ph.draining))
  }

  /** A batch is over; a drained worker closes its session for good. */
  function DoReturn(w: Worker): Worker
    requires w.phase.Returning?
  {
    var batch, b := w.phase.batch, w.books;
    w.(books := b.(handled := b.handled + batch, processed := b.processed + |batch|),
       phase := if w.phase.draining then Closed else Idle,
       session := if w.phase.draining then Cleared(w.session) else w.session)
  }

  function DoRecordFailure(w: Worker): Worker
    requires w.phase.Failing?
  {
    var batch, b := w.phase.batch, w.books;
    var b1 := b.(errors := b.errors + |batch|, handled := b.handled + batch);
    if w.phase.draining then w.(books := b1, phase := Closed, session := Cleared(w.session))
    else w.(books := b1.(deadLetter := AppendDeadLetters(b.deadLetter, batch)), phase := RollingBack)
  }

  function DoDrainEnd(w: Worker, adapterReady: bool): Worker
    requires w.phase.Draining?
  {
    var batch, b := w.phase.batch, w.books;
    if batch == [] then w.(phase := Closed, session := Cleared(w.session))
    else if adapterReady then w.(phase := WriteFrom(batch, 0, true))
    else
      w.(phase := Closed, session := Cleared(w.session),
         books := b.(lost := b.lost + |batch|, handled := b.handled + batch))
  }

  // ---- FIFO, ledger and bounds ----

  /** A batch that is not a drain stays within the maximum. */
  ghost predicate BatchBound(cfg: Setup, ph: Phase) {
    ph.Collecting? || (ph.Writing? && !ph.draining) ==> 1 <= |ph.batch| <= cfg.batchMax
  }

  /** Accepted payloads are handled, in flight or queued, in that order and each exactly once. */
  ghost predicate InOrder(i: Intake, handled: seq<Payload>, inFlight: seq<Payload>) {
    i.accepted == handled + inFlight + Payloads(i.queue)
  }

  /** The books balance, and the lists stay within their bounds. */
  ghost predicate Balanced(cfg: Setup, i: Intake, b: Books) {
    && |b.handled| == b.processed + b.errors + b.lost
    && i.offered == |i.accepted| + i.dropped
    && |b.deadLetter| <= DEAD_LETTER_MAX
    && (cfg.capacity > 0 ==> |i.queue| <= cfg.capacity)
  }

  ghost predicate QueueInv(cfg: Setup, w: Worker) {
    && InOrder(w.intake, w.books.handled, InFlight(w.phase))
    && Balanced(cfg, w.intake, w.books)
    && BatchBound(cfg, w.phase)
  }

  lemma PayloadsPush(queue: seq<Option<Payload>>, x: Option<Payload>)
    ensures Payloads(queue + [x]) == Payloads(queue) + match x case None => [] case Some(p) => [p]
  {
    assert (queue + [x])[..|queue|] == queue;
  }

  lemma {:induction false} PayloadsPop(queue: seq<Option<Payload>>)
    requires queue != []
    ensures Payloads(queue) == (match queue[0] case None => [] case Some(p) => [p]) + Payloads(queue[1..])
  {
    if |queue| > 1 {
      PayloadsPop(queue[..|queue| - 1]);
      assert queue[1..][..|queue| - 2] == queue[..|queue| - 1][1..];
    }
  }

  lemma {:induction false} DeadLettersBounded(dead: seq<Payload>, batch: seq<Payload>)
    requires |dead| <= DEAD_LETTER_MAX
    ensures |AppendDeadLetters(dead, batch)| <= DEAD_LETTER_MAX
  {
    if batch != [] {
      DeadLettersBounded(dead, batch[..|batch| - 1]);
    }
  }

  /** Dead letters are appended in order, as far as ten thousand. */
  lemma {:induction false} AppendedAreTheFirst(dead: seq<Payload>, batch: seq<Payload>)
    requires |dead| <= 10_000
    ensures AppendDeadLetters(dead, batch) == FirstN(dead + batch, 10_000)
  {
    if batch == [] {
      assert dead + batch == dead;
    } else {
      var front, last := batch[..|batch| - 1], batch[|batch| - 1];
      AppendedAreTheFirst(dead, front);
      assert dead + batch == dead + front + [last];
    }
  }

  lemma OfferedInOrder(i: Intake, handled: seq<Payload>, inFlight: seq<Payload>, p: Payload)
    requires InOrder(i, handled, inFlight)
    ensures InOrder(i.(queue := i.queue + [Some(p)], accepted := i.accepted + [p]), handled, inFlight)
  {
    PayloadsPush(i.queue, Some(p));
    var before := handled + inFlight;
    assert before + (Payloads(i.queue) + [p]) == before + Payloads(i.queue) + [p];
  }

  lemma OfferKeepsQueueInv(cfg: Setup, w: Worker, p: Payload, refused: bool)
    requires cfg.Valid() && QueueInv(cfg, w)
    ensures QueueInv(cfg, Offer(cfg, w, p, refused))
  {
    OfferedInOrder(w.intake, w.books.handled, InFlight(w.phase), p);
  }

  lemma SentinelInOrder(i: Intake, handled: seq<Payload>, inFlight: seq<Payload>)
    requires InOrder(i, handled, inFlight)
    ensures InOrder(i.(queue := i.queue + [None]), handled, inFlight)
  {
    PayloadsPush(i.queue, None);
    assert Payloads(i.queue) + [] == Payloads(i.queue);
  }

  lemma ProducerKeepsQueueInv(cfg: Setup, w: Worker, a: Action)
    requires cfg.Valid() && QueueInv(cfg, w) && OfProducer(a)
    ensures QueueInv(cfg, DoProducer(cfg, w, a))
  {
    match a
    case Enqueue(p, seenSize) => OfferKeepsQueueInv(cfg, w, p, seenSize >= QUEUE_CRIT_THRESHOLD);
    case EnqueueLaneChange(p) => OfferKeepsQueueInv(cfg, w, p, false);
    case PutSentinel => SentinelInOrder(w.intake, w.books.handled, InFlight(w.phase));
  }

  /** The payload at the head of the queue, if it is one. */
  function Head(queue: seq<Option<Payload>>): seq<Payload>
    requires queue != []
  {
    match queue[0] case None => [] case Some(p) => [p]
  }

  /** Taking the head of the queue into the batch, or on to the handled payloads, leaves the order alone. */
  lemma TakenInOrder(i: Intake, handled: seq<Payload>, inFlight: seq<Payload>)
    requires i.queue != [] && InOrder(i, handled, inFlight)
    ensures InOrder(Popped(i), handled, inFlight + Head(i.queue))
    ensures inFlight == [] ==> InOrder(Popped(i), handled + Head(i.queue), [])
  {
    PayloadsPop(i.queue);
    var taken, rest := Head(i.queue), Payloads(i.queue[1..]);
    assert handled + inFlight + (taken + rest) == handled + (inFlight + taken) + rest;
    assert handled + [] + (taken + rest) == handled + taken + [] + rest;
  }

  lemma TakeKeepsQueueInv(cfg: Setup, w: Worker, adapterReady: bool)
    requires cfg.Valid() && QueueInv(cfg, w) && w.phase.Idle? && w.intake.queue != []
    ensures QueueInv(cfg, DoTake(w, adapterReady))
  {
    TakenInOrder(w.intake, w.books.handled, []);
    assert [] + Head(w.intake.queue) == Head(w.intake.queue);
  }

  lemma CollectKeepsQueueInv(cfg: Setup, w: Worker, requeued: bool)
    requires cfg.Valid() && QueueInv(cfg, w) && TakingEnabled(cfg, w.intake.queue, w.phase, CollectMore(requeued))
    ensures QueueInv(cfg, DoCollect(cfg, w, requeued))
  {
    TakenInOrder(w.intake, w.books.handled, w.phase.batch);
    if w.intake.queue[0].None? {
      assert w.phase.batch + [] == w.phase.batch;
      SentinelInOrder(Popped(w.intake), w.books.handled, w.phase.batch);
    }
  }

  lemma DrainTakeKeepsQueueInv(cfg: Setup, w: Worker)
    requires cfg.Valid() && QueueInv(cfg, w) && w.phase.Draining? && w.intake.queue != []
    ensures QueueInv(cfg, DoDrainTake(w))
  {
    TakenInOrder(w.intake, w.books.handled, w.phase.batch);
    assert w.phase.batch + [] == w.phase.batch;
  }

  lemma TakingKeepsQueueInv(cfg: Setup, w: Worker, a: Action)
    requires cfg.Valid() && QueueInv(cfg, w) && TakingEnabled(cfg, w.intake.queue, w.phase, a)
    ensures QueueInv(cfg, DoTaking(cfg, w, a))
  {
    match a
    case Take(adapterReady) => TakeKeepsQueueInv(cfg, w, adapterReady);
    case CollectMore(requeued) => CollectKeepsQueueInv(cfg, w, requeued);
    case CollectStop =>
    case DrainTake => DrainTakeKeepsQueueInv(cfg, w);
  }

  lemma WritingKeepsBatch(cfg: Setup, ph: Phase, s: Held, a: Action)
    requires WritingEnabled(cfg, ph, a) && BatchBound(cfg, ph)
    ensures var ph' := DoWriting(cfg, ph, s, a).0; InFlight(ph') == InFlight(ph) && BatchBound(cfg, ph')
  {
  }

  lemma WritingKeepsQueueInv(cfg: Setup, w: Worker, a: Action)
    requires QueueInv(cfg, w) && WritingEnabled(cfg, w.phase, a)
    ensures QueueInv(cfg, DoLocal(cfg, w, a))
  {
    WritingKeepsBatch(cfg, w.phase, w.session, a);
  }

  /** Handing the batch over to the handled payloads leaves the order alone. */
  lemma HandledInOrder(i: Intake, handled: seq<Payload>, inFlight: seq<Payload>)
    requires InOrder(i, handled, inFlight)
    ensures InOrder(i, handled + inFlight, [])
  {
    assert handled + inFlight + [] == handled + inFlight;
  }

  lemma RecordFailureKeepsQueueInv(cfg: Setup, w: Worker)
    requires QueueInv(cfg, w) && w.phase.Failing?
    ensures QueueInv(cfg, DoRecordFailure(w))
  {
    HandledInOrder(w.intake, w.books.handled, w.phase.batch);
    DeadLettersBounded(w.books.deadLetter, w.phase.batch);
  }

  lemma DrainEndKeepsQueueInv(cfg: Setup, w: Worker, adapterReady: bool)
    requires QueueInv(cfg, w) && w.phase.Draining?
    ensures QueueInv(cfg, DoDrainEnd(w, adapterReady))
  {
    HandledInOrder(w.intake, w.books.handled, w.phase.batch);
  }

  lemma EndingKeepsQueueInv(cfg: Setup, w: Worker, a: Action)
    requires QueueInv(cfg, w) && EndingEnabled(w.intake.queue, w.phase, a)
    ensures QueueInv(cfg, DoEnding(w, a))
  {
    match a
    case Answer =>
    case Return => HandledInOrder(w.intake, w.books.handled, w.phase.batch);
    case RecordFailure => RecordFailureKeepsQueueInv(cfg, w);
    case Rollback(_) =>
    case DrainEnd(adapterReady) => DrainEndKeepsQueueInv(cfg, w, adapterReady);
  }

  /** FIFO, ledger and bounds are kept by every step of producer, stop and worker, in any interleaving. */
  lemma StepKeepsQueueInv(cfg: Setup, db: Db, w: Worker, a: Action)
    requires cfg.Valid() && QueueInv(cfg, w) && Enabled(cfg, w, a)
    ensures QueueInv(cfg, Do(cfg, db, w, a).1)
  {
    if OfProducer(a) {
      ProducerKeepsQueueInv(cfg, w, a);
    } else if OfTaking(a) {
      TakingKeepsQueueInv(cfg, w, a);
    } else if OfWriting(a) {
      WritingKeepsQueueInv(cfg, w, a);
    } else if OfEnding(a) {
      EndingKeepsQueueInv(cfg, w, a);
    }
  }
}

/** The dead letters of every schedule: which payloads they hold, and in which order. */
module DeadLetters {
  import opened Sequences
  import opened RollupIndex
  import opened StorageProtocol
  import opened StorageSystem

  /** A payload given up: appended while there is room, or by the handler of a single event, which makes room. */
  datatype Letter = Appended(payload: Payload) | Displacing(payload: Payload)

  function AppendedAll(batch: seq<Payload>): (r: seq<Letter>)
    ensures |r| == |batch|
    ensures forall i :: 0 <= i < |batch| ==> r[i] == Appended(batch[i])
  {
    seq(|batch|, i requires 0 <= i < |batch| => Appended(batch[i]))
  }

  /** The queue has no room. */
  predicate NoRoom(cfg: Setup, w: Worker) {
    cfg.capacity > 0 && |w.intake.queue| >= cfg.capacity
  }

  /**
   * What one step gives up: an offer that is refused, an item without an adapter, the single count event whose fault is
   * answered, or the batch that failed outside a drain.
   */
  function LettersOf(cfg: Setup, w: Worker, a: Action): seq<Letter> {
    match a
    case Enqueue(p, seenSize) => if seenSize >= 1024 || NoRoom(cfg, w) then [Appended(p)] else []
    case EnqueueLaneChange(p) => if NoRoom(cfg, w) then [Appended(p)] else []
    case Take(adapterReady) =>
      if w.phase.Idle? && w.intake.queue != [] && w.intake.queue[0].Some? && !adapterReady
      then [Appended(w.intake.queue[0].value)]
      else []
    case Answer =>
      if w.phase.Raised? && |w.phase.batch| == 1 && w.phase.batch[0].CountPayload? && w.phase.fault == Expected
      then [Displacing(w.phase.batch[0])]
      else []
    case RecordFailure =>
      if w.phase.Failing? && !w.phase.draining then AppendedAll(w.phase.batch) else []
    case _ => []
  }

  /** All that worker `i` has given up in a schedule, in order. */
  function Letters(cfg: Setup, n: nat, choices: seq<Choice>, i: nat): seq<Letter>
    requires i < n
  {
    if choices == [] then []
    else
      var front, c := choices[..|choices| - 1], choices[|choices| - 1];
      Letters(cfg, n, front, i)
      + if c.worker == i then LettersOf(cfg, Run(cfg, n, front).workers[i], c.action) else []
  }

  function PayloadsOf(letters: seq<Letter>): (r: seq<Payload>)
    ensures |r| == |letters|
    ensures forall i :: 0 <= i < |letters| ==> r[i] == letters[i].payload
  {
    seq(|letters|, i requires 0 <= i < |letters| => letters[i].payload)
  }

  function OnlyDisplacing(letters: seq<Letter>): seq<Payload> {
    if letters == [] then []
    else
      OnlyDisplacing(letters[..|letters| - 1])
      + if letters[|letters| - 1].Displacing? then [letters[|letters| - 1].payload] else []
  }

  /** What comes after the first `n` elements. */
  function Beyond<T>(s: seq<T>, n: nat): seq<T> {
    if |s| <= n then [] else s[n..]
  }

  /** Of the first ten thousand letters and the displacing ones after them, the last ten thousand. */
  function Kept(letters: seq<Letter>): seq<Payload> {
    LastN(PayloadsOf(FirstN(letters, 10_000)) + OnlyDisplacing(Beyond(letters, 10_000)), 10_000)
  }

  lemma KeptAll(letters: seq<Letter>)
    requires |letters| <= 10_000
    ensures Kept(letters) == PayloadsOf(letters)
  {
    assert PayloadsOf(letters) + [] == PayloadsOf(letters);
  }

  lemma KeptIsFull(letters: seq<Letter>)
    requires |letters| >= 10_000
    ensures |Kept(letters)| == 10_000
  {
  }

  lemma PayloadsOfPush(letters: seq<Letter>, l: Letter)
    ensures PayloadsOf(letters + [l]) == PayloadsOf(letters) + [l.payload]
  {
  }

  lemma OnlyDisplacingPush(letters: seq<Letter>, l: Letter)
    ensures OnlyDisplacing(letters + [l]) == OnlyDisplacing(letters) + if l.Displacing? then [l.payload] else []
  {
    assert (letters + [l])[..|letters|] == letters;
  }

  /** What a letter does to those already kept. */
  function Added(dead: seq<Payload>, l: Letter): seq<Payload> {
    if l.Displacing? then ShiftDeadLetter(dead, l.payload) else AppendDeadLetter(dead, l.payload)
  }

  lemma KeptPush(letters: seq<Letter>, l: Letter)
    ensures Kept(letters + [l]) == Added(Kept(letters), l)
  {
    if |letters| < 10_000 {
      KeptAll(letters);
      KeptAll(letters + [l]);
      PayloadsOfPush(letters, l);
    } else {
      KeptPushFull(letters, l);
    }
  }

  lemma KeptPushFull(letters: seq<Letter>, l: Letter)
    requires |letters| >= 10_000
    ensures Kept(letters + [l]) == Added(Kept(letters), l)
  {
    var first, later := PayloadsOf(FirstN(letters, 10_000)), Beyond(letters, 10_000);
    KeptIsFull(letters);
    assert FirstN(letters + [l], 10_000) == FirstN(letters, 10_000);
    assert Beyond(letters + [l], 10_000) == later + [l];
    OnlyDisplacingPush(later, l);
    if l.Displacing? {
      ConcatAssociates(first, OnlyDisplacing(later), [l.payload]);
      LastNPush(first + OnlyDisplacing(later), l.payload, 10_000);
      DropOldest(Kept(letters), l.payload);
    } else {
      assert OnlyDisplacing(later) + [] == OnlyDisplacing(later);
    }
  }

  lemma DropOldest(dead: seq<Payload>, p: Payload)
    requires |dead| == 10_000
    ensures LastN(dead + [p], 10_000) == ShiftDeadLetter(dead, p)
  {
  }

  lemma {:induction false} KeptAppendAll(letters: seq<Letter>, batch: seq<Payload>)
    ensures Kept(letters + AppendedAll(batch)) == AppendDeadLetters(Kept(letters), batch)
  {
    if batch == [] {
      assert letters + AppendedAll(batch) == letters;
    } else {
      var front, last := batch[..|batch| - 1], batch[|batch| - 1];
      KeptAppendAll(letters, front);
      assert AppendedAll(batch) == AppendedAll(front) + [Appended(last)];
      ConcatAssociates(letters, AppendedAll(front), [Appended(last)]);
      KeptPush(letters + AppendedAll(front), Appended(last));
    }
  }

  // ---- Step by step ----

  /** The step adds these letters and no others. */
  ghost predicate Adds(dead: seq<Payload>, dead': seq<Payload>, more: seq<Letter>) {
    forall letters :: Kept(letters) == dead ==> Kept(letters + more) == dead'
  }

  lemma AddsNothing(dead: seq<Payload>)
    ensures Adds(dead, dead, [])
  {
    forall letters ensures Kept(letters + []) == Kept(letters) {
      assert letters + [] == letters;
    }
  }

  lemma AddsOne(dead: seq<Payload>, l: Letter)
    ensures Adds(dead, Added(dead, l), [l])
  {
    forall letters | Kept(letters) == dead ensures Kept(letters + [l]) == Added(dead, l) {
      KeptPush(letters, l);
    }
  }

  lemma AddsBatch(dead: seq<Payload>, batch: seq<Payload>)
    ensures Adds(dead, AppendDeadLetters(dead, batch), AppendedAll(batch))
  {
    forall letters | Kept(letters) == dead
      ensures Kept(letters + AppendedAll(batch)) == AppendDeadLetters(dead, batch)
    {
      KeptAppendAll(letters, batch);
    }
  }

  lemma ProducerLetters(cfg: Setup, w: Worker, a: Action)
    requires OfProducer(a)
    ensures Adds(w.books.deadLetter, DoProducer(cfg, w, a).books.deadLetter, LettersOf(cfg, w, a))
  {
    AddsNothing(w.books.deadLetter);
    match a
    case Enqueue(p, _) => AddsOne(w.books.deadLetter, Appended(p));
    case EnqueueLaneChange(p) => AddsOne(w.books.deadLetter, Appended(p));
    case PutSentinel =>
  }

  lemma TakingLetters(cfg: Setup, w: Worker, a: Action)
    requires TakingEnabled(cfg, w.intake.queue, w.phase, a)
    ensures Adds(w.books.deadLetter, DoTaking(cfg, w, a).books.deadLetter, LettersOf(cfg, w, a))
  {
    AddsNothing(w.books.deadLetter);
    if a.Take? && w.intake.queue[0].Some? {
      AddsOne(w.books.deadLetter, Appended(w.intake.queue[0].value));
    }
  }

  lemma EndingLetters(cfg: Setup, w: Worker, a: Action)
    requires EndingEnabled(w.intake.queue, w.phase, a)
    ensures Adds(w.books.deadLetter, DoEnding(w, a).books.deadLetter, LettersOf(cfg, w, a))
  {
    AddsNothing(w.books.deadLetter);
    match a
    case Answer =>
      if AnswersFault(w.phase.batch, w.phase.fault) {
        AddsOne(w.books.deadLetter, Displacing(w.phase.batch[0]));
      }
    case RecordFailure => AddsBatch(w.books.deadLetter, w.phase.batch);
    case _ =>
  }

  lemma WritingLetters(cfg: Setup, w: Worker, a: Action)
    requires OfWriting(a) && WritingEnabled(cfg, w.phase, a)
    ensures DoLocal(cfg, w, a).books == w.books && LettersOf(cfg, w, a) == []
    ensures Adds(w.books.deadLetter, DoLocal(cfg, w, a).books.deadLetter, LettersOf(cfg, w, a))
  {
    AddsNothing(w.books.deadLetter);
  }

  lemma QueueLetters(cfg: Setup, w: Worker, a: Action)
    requires Enabled(cfg, w, a) && (OfProducer(a) || OfTaking(a))
    ensures Adds(w.books.deadLetter, DoLocal(cfg, w, a).books.deadLetter, LettersOf(cfg, w, a))
  {
    if OfProducer(a) {
      ProducerLetters(cfg, w, a);
    } else {
      TakingLetters(cfg, w, a);
    }
  }

  lemma BatchLetters(cfg: Setup, w: Worker, a: Action)
    requires Enabled(cfg, w, a) && (OfWriting(a) || OfEnding(a))
    ensures Adds(w.books.deadLetter, DoLocal(cfg, w, a).books.deadLetter, LettersOf(cfg, w, a))
  {
    if OfWriting(a) {
      WritingLetters(cfg, w, a);
    } else {
      EndingLetters(cfg, w, a);
    }
  }

  lemma LocalStepLetters(cfg: Setup, w: Worker, a: Action)
    requires Enabled(cfg, w, a) && !a.CommitOk?
    ensures Adds(w.books.deadLetter, DoLocal(cfg, w, a).books.deadLetter, LettersOf(cfg, w, a))
  {
    if OfProducer(a) || OfTaking(a) {
      QueueLetters(cfg, w, a);
    } else {
      BatchLetters(cfg, w, a);
    }
  }

  lemma StepLetters(cfg: Setup, db: Db, w: Worker, a: Action)
    requires Enabled(cfg, w, a)
    ensures Adds(w.books.deadLetter, Do(cfg, db, w, a).1.books.deadLetter, LettersOf(cfg, w, a))
  {
    if a.CommitOk? {
      AddsNothing(w.books.deadLetter);
    } else {
      LocalStepLetters(cfg, w, a);
    }
  }

  lemma NotEnabledNoLetters(cfg: Setup, w: Worker, a: Action)
    requires !Enabled(cfg, w, a)
    ensures LettersOf(cfg, w, a) == []
  {
  }

  lemma NextLetters(cfg: Setup, s: System, c: Choice, i: nat)
    requires i < |s.workers|
    ensures Adds(s.workers[i].books.deadLetter, StepOf(cfg, s, c).workers[i].books.deadLetter,
                 if c.worker == i then LettersOf(cfg, s.workers[i], c.action) else [])
  {
    AddsNothing(s.workers[i].books.deadLetter);
    if c.worker == i {
      if Enabled(cfg, s.workers[i], c.action) {
        StepLetters(cfg, s.db, s.workers[i], c.action);
      } else {
        NotEnabledNoLetters(cfg, s.workers[i], c.action);
      }
    }
  }

  /**
   * After every schedule the dead letters of a worker are, in order, the first ten thousand payloads it gave up and
   * the answered ones after them, of which the last ten thousand are kept.
   */
  lemma {:induction false} DeadLettersAreKept(cfg: Setup, n: nat, choices: seq<Choice>, i: nat)
    requires i < n
    ensures Run(cfg, n, choices).workers[i].books.deadLetter == Kept(Letters(cfg, n, choices, i))
  {
    if choices == [] {
      KeptAll([]);
    } else {
      var front, c := choices[..|choices| - 1], choices[|choices| - 1];
      DeadLettersAreKept(cfg, n, front, i);
      NextLetters(cfg, Run(cfg, n, front), c, i);
    }
  }

  /** As long as there are no more than ten thousand, nothing given up is missing, and nothing else is there. */
  lemma NothingGivenUpIsMissing(cfg: Setup, n: nat, choices: seq<Choice>, i: nat)
    requires i < n && |Letters(cfg, n, choices, i)| <= 10_000
    ensures Run(cfg, n, choices).workers[i].books.deadLetter == PayloadsOf(Letters(cfg, n, choices, i))
  {
    DeadLettersAreKept(cfg, n, choices, i);
    KeptAll(Letters(cfg, n, choices, i));
  }
}

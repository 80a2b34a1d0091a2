/** A database session, the repositories that write through it, and the commit loop. */
module Repositories {
  import opened Sequences
  import opened TimeWindows
  import opened RollupIndex
  import opened StorageProtocol

  class Database {
    var state: Db

    constructor ()
      ensures state == EMPTY_DB
    {
      state := EMPTY_DB;
    }
  }

  /** How one attempt to commit ends; a broken one may leave the session's work in place. */
  datatype Attempt = Commits | Locked(fault: Fault) | Breaks(fault: Fault, kept: bool)

  /** The first attempt, from `i` on, that meets no lock; `n` when there is none before it. */
  function LockedUntil(attempt: nat -> Attempt, i: nat, n: nat): (r: nat)
    requires i <= n
    ensures i <= r <= n
    ensures forall j :: i <= j < r ==> attempt(j).Locked?
    ensures r < n ==> !attempt(r).Locked?
    decreases n - i
  {
    if i == n || !attempt(i).Locked? then i else LockedUntil(attempt, i + 1, n)
  }

  /** The first statement, from `i` on, that raises; `n` when all go through. */
  function RaisesAt(fault: nat -> Option<Fault>, i: nat, n: nat): (r: nat)
    requires i <= n
    ensures i <= r <= n
    ensures forall j :: i <= j < r ==> fault(j).None?
    ensures r < n ==> fault(r).Some?
    decreases n - i
  {
    if i == n || fault(i).Some? then i else RaisesAt(fault, i + 1, n)
  }

  function MaxAttempts(attempts: nat): (limit: nat)
    ensures limit >= 1
  {
    if attempts > 1 then attempts else 1
  }

  /** The fault a commit loop ends in, if any. */
  function CommitFault(attempt: nat -> Attempt, limit: nat): Option<Fault>
    requires limit >= 1
  {
    var n := LockedUntil(attempt, 0, limit);
    if n == limit then Some(attempt(n - 1).fault)
    else if attempt(n).Commits? then None
    else Some(attempt(n).fault)
  }

  /**
   * What a commit loop finds pending in its last attempt: nothing after a lock, because that rolled the session back.
   */
  function LastPending(attempt: nat -> Attempt, limit: nat, pending: seq<Op>): seq<Op> {
    if LockedUntil(attempt, 0, limit) == 0 then pending else []
  }

  function PendingAfterCommit(attempt: nat -> Attempt, limit: nat, pending: seq<Op>): seq<Op>
    requires limit >= 1
  {
    var n := LockedUntil(attempt, 0, limit);
    if n < limit && attempt(n).Breaks? && attempt(n).kept then LastPending(attempt, limit, pending) else []
  }

  function DbAfterCommit(attempt: nat -> Attempt, limit: nat, pending: seq<Op>, db: Db): Db
    requires limit >= 1
  {
    if CommitFault(attempt, limit).None? then Apply(db, LastPending(attempt, limit, pending)) else db
  }

  /** The last attempt a commit loop makes: all before it met a lock, and it met none or there is no other. */
  ghost predicate IsLast(attempt: nat -> Attempt, attempts: nat, n: nat) {
    && (n == 0 || n < attempts)
    && (forall j :: 0 <= j < n ==> attempt(j).Locked?)
    && (attempt(n).Locked? ==> n + 1 >= attempts)
  }

  /** Its fault is the loop's; a commit persists what is pending, which is nothing after a lock. */
  ghost predicate EndsAt(attempt: nat -> Attempt, attempts: nat, n: nat, ops: seq<Op>, db: Db,
                         raised: Option<Fault>, ops': seq<Op>, db': Db)
  {
    && IsLast(attempt, attempts, n)
    && raised == (if attempt(n).Commits? then None else Some(attempt(n).fault))
    && ops' == (if n == 0 && attempt(n).Breaks? && attempt(n).kept then ops else [])
    && db' == if n == 0 && attempt(n).Commits? then Apply(db, ops) else db
  }

  lemma LoopEnds(attempt: nat -> Attempt, attempts: nat, ops: seq<Op>, db: Db)
    ensures var limit := MaxAttempts(attempts);
      exists n :: EndsAt(attempt, attempts, n, ops, db, CommitFault(attempt, limit),
                         PendingAfterCommit(attempt, limit, ops), DbAfterCommit(attempt, limit, ops, db))
  {
    var limit := MaxAttempts(attempts);
    var n := LockedUntil(attempt, 0, limit);
    if n == limit {
      assert attempt(n - 1).Locked?;
      EndsThere(attempt, attempts, n - 1, ops, db);
    } else {
      EndsThere(attempt, attempts, n, ops, db);
    }
  }

  lemma EndsThere(attempt: nat -> Attempt, attempts: nat, n: nat, ops: seq<Op>, db: Db)
    requires var limit := MaxAttempts(attempts);
      var k := LockedUntil(attempt, 0, limit);
      n == (if k == limit then k - 1 else k) && (k == limit ==> attempt(n).Locked?)
    ensures var limit := MaxAttempts(attempts);
      EndsAt(attempt, attempts, n, ops, db, CommitFault(attempt, limit),
             PendingAfterCommit(attempt, limit, ops), DbAfterCommit(attempt, limit, ops, db))
  {
  }

  lemma IncrementsNext(keys: seq<Key>, i: nat, before: seq<Op>)
    requires i < |keys|
    ensures before + Increments(keys[..i]) + [Increment(keys[i])] == before + Increments(keys[..i + 1])
  {
    assert Increments(keys[..i + 1]) == Increments(keys[..i]) + [Increment(keys[i])];
  }

  /** A session on a database that others may share. */
  class Session {
    const database: Database
    var pending: seq<Op>

    constructor (database: Database)
      ensures this.database == database && pending == []
    {
      this.database := database;
      pending := [];
    }

    method Commit()
      modifies this, database
      ensures database.state == Apply(old(database.state), old(pending)) && pending == []
    {
      database.state := Apply(database.state, pending);
      pending := [];
    }

    method Rollback()
      modifies this
      ensures pending == []
    {
      pending := [];
    }

    method InsertEvent(row: EventRow)
      modifies this
      ensures pending == old(pending) + [AddEvent(row)]
    {
      pending := pending + [AddEvent(row)];
    }

    method InsertLaneChange(change: LaneChangeRow)
      modifies this
      ensures pending == old(pending) + [AddLaneChange(change)]
    {
      pending := pending + [AddLaneChange(change)];
    }

    /** One upsert a bucket; a statement that raises leaves the increments before it in the session. */
    method UpsertBuckets(keys: seq<Key>, fault: nat -> Option<Fault>) returns (raised: Option<Fault>)
      modifies this
      ensures var done := RaisesAt(fault, 0, |keys|);
        && pending == old(pending) + Increments(keys[..done])
        && raised == if done < |keys| then fault(done) else None
    {
      var i := 0;
      while i < |keys|
        invariant i <= |keys|
        invariant RaisesAt(fault, i, |keys|) == RaisesAt(fault, 0, |keys|)
        invariant pending == old(pending) + Increments(keys[..i])
      {
        if fault(i).Some? {
          return fault(i);
        }
        IncrementsNext(keys, i, old(pending));
        pending := pending + [Increment(keys[i])];
        i := i + 1;
      }
      raised := None;
    }

    /** Rolls one event up into its buckets; expected faults are swallowed, with the increments made so far kept. */
    method RollupAggregates(windows: seq<string>, row: EventRow, fault: nat -> Option<Fault>)
        returns (raised: Option<Fault>)
      modifies this
      ensures var keys := Buckets(windows, row);
              var done := RaisesAt(fault, 0, |keys|);
        && pending == old(pending) + Increments(keys[..done])
        && raised == if done < |keys| && fault(done).value.Unexpected? then fault(done) else None
    {
      var keys := BucketList(windows, row);
      if keys == [] {
        raised := None;
        return;
      }
      raised := UpsertBuckets(keys, fault);
      if raised.Some? && raised.value.Expected? {
        raised := None;
      }
    }

    /**
     * Commits, and after a lock rolls back and commits again. A normal return means that the session was
     * persisted if and only if the first attempt met no lock, or there was nothing to persist.
     */
    method CommitWithRetry(attempts: nat, attempt: nat -> Attempt) returns (raised: Option<Fault>)
      modifies this, database
      ensures raised == CommitFault(attempt, MaxAttempts(attempts))
      ensures pending == PendingAfterCommit(attempt, MaxAttempts(attempts), old(pending))
      ensures database.state == DbAfterCommit(attempt, MaxAttempts(attempts), old(pending), old(database.state))
      ensures exists n ::
        EndsAt(attempt, attempts, n, old(pending), old(database.state), raised, pending, database.state)
      ensures raised == None ==>
        (database.state == Apply(old(database.state), old(pending)) <==> attempt(0).Commits? || old(pending) == [])
    {
      raised := None;
      ghost var ops, db := pending, database.state;
      var limit := MaxAttempts(attempts);
      LoopEnds(attempt, attempts, ops, db);
      var i := 0;
      while i < limit
        invariant i <= limit
        invariant LockedUntil(attempt, i, limit) == LockedUntil(attempt, 0, limit)
        invariant pending == if i == 0 then ops else []
        invariant raised == if i == 0 then None else Some(attempt(i - 1).fault)
        invariant i > 0 ==> attempt(i - 1).Locked?
        invariant database.state == db
      {
        match attempt(i) {
          case Commits =>
            Commit();
            DoneMeansPersistedIff(db, ops, attempt, limit);
            return None;
          case Breaks(fault, kept) =>
            if !kept {
              pending := [];
            }
            return Some(fault);
          case Locked(fault) =>
            raised := Some(fault);
            Rollback();
        }
        i := i + 1;
      }
    }
  }

  /** The bucket list of one event: the configured windows that are known, in order. */
  method BucketList(windows: seq<string>, row: EventRow) returns (keys: seq<Key>)
    ensures keys == Buckets(windows, row)
  {
    keys := [];
    var i := 0;
    while i < |windows|
      invariant i <= |windows|
      invariant keys == Buckets(windows[..i], row)
    {
      assert windows[..i + 1][..i] == windows[..i];
      if Known(windows[i]) {
        keys := keys + [KeyOf(row, windows[i])];
      }
      i := i + 1;
    }
    assert windows[..i] == windows;
  }

  // ---- What an upsert and a commit mean for the database ----

  /** Committed upserts raise each bucket by one for every mention of it, whether its row existed or not. */
  lemma UpsertsCountOnce(db: Db, before: seq<Op>, keys: seq<Key>, k: Key)
    ensures CountAt(Apply(db, before + Increments(keys)).index, k)
      == CountAt(Apply(db, before).index, k) + Count(keys, k)
    ensures Apply(db, before + Increments(keys)).events == Apply(db, before).events
  {
    ApplyAddsCounts(db, before + Increments(keys), k);
    ApplyAddsCounts(db, before, k);
    IncsConcat(before, Increments(keys), k);
    RowsConcat(before, Increments(keys));
    IncrementsCount(keys, k);
    IncrementsAddNoRows(keys);
    ApplyAddsRows(db, before + Increments(keys));
    ApplyAddsRows(db, before);
    assert Rows(before) + [] == Rows(before);
  }

  lemma {:induction false} ApplyNeverShrinks(db: Db, ops: seq<Op>)
    ensures |Apply(db, ops).events| >= |db.events| && |Apply(db, ops).laneChanges| >= |db.laneChanges|
  {
    if ops != [] {
      ApplyNeverShrinks(db, ops[..|ops| - 1]);
    }
  }

  /** No pending work is invisible. */
  lemma CommittedWorkShows(db: Db, ops: seq<Op>)
    requires ops != []
    ensures Apply(db, ops) != db
  {
    ApplyNeverShrinks(db, ops[..|ops| - 1]);
    match ops[|ops| - 1]
    case Increment(k) =>
      ApplyAddsCounts(db, ops, k);
    case _ =>
  }

  /**
   * A commit loop that reports no fault persisted the session if and only if its first attempt met no lock or nothing
   * was pending.
   */
  lemma DoneMeansPersistedIff(db: Db, ops: seq<Op>, attempt: nat -> Attempt, limit: nat)
    requires limit >= 1 && CommitFault(attempt, limit).None?
    ensures DbAfterCommit(attempt, limit, ops, db) == Apply(db, ops) <==> attempt(0).Commits? || ops == []
  {
    if ops != [] {
      CommittedWorkShows(db, ops);
    }
  }
}

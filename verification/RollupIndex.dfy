/** Timestamps and the aggregation windows they floor to. */
module TimeWindows {
  datatype Clock = Clock(day: int, hour: nat, minute: nat, second: nat, micro: nat)

  /** A calendar time; the date is a day number. */
  type Time = t: Clock | t.hour < 24 && t.minute < 60 && t.second < 60 && t.micro < 1_000_000
    witness Clock(0, 0, 0, 0, 0)

  function FloorToWindow(t: Time, minutes: nat): Time
    requires minutes > 0
  {
    FloorIsSmaller(t.minute, minutes);
    t.(second := 0, micro := 0, minute := (t.minute / minutes) * minutes)
  }

  lemma FloorIsSmaller(n: nat, d: nat)
    requires d > 0
    ensures 0 <= (n / d) * d <= n
  {
  }

  function FloorToDay(t: Time): Time {
    t.(hour := 0, minute := 0, second := 0, micro := 0)
  }

  predicate Known(window: string) {
    window in ["1min", "5min", "1hour", "1day"]
  }

  function WindowStart(window: string, t: Time): Time
    requires Known(window)
  {
    if window == "1min" then FloorToWindow(t, 1)
    else if window == "5min" then FloorToWindow(t, 5)
    else if window == "1hour" then t.(minute := 0, second := 0, micro := 0)
    else FloorToDay(t)
  }

  /** Microseconds since day 0. */
  function Micros(t: Time): int {
    (((t.day * 24 + t.hour) * 60 + t.minute) * 60 + t.second) * 1_000_000 + t.micro
  }

  function Length(window: string): nat
    requires Known(window)
  {
    if window == "1min" then 60_000_000
    else if window == "5min" then 300_000_000
    else if window == "1hour" then 3_600_000_000
    else 86_400_000_000
  }

  /** The hours, and the minutes, since day 0. */
  function Hours(t: Time): int {
    t.day * 24 + t.hour
  }

  function Minutes(t: Time): int {
    Hours(t) * 60 + t.minute
  }

  lemma MinuteStart(t: Time)
    ensures var s := WindowStart("1min", t);
      Micros(s) % 60_000_000 == 0 && Micros(s) <= Micros(t) < Micros(s) + 60_000_000
  {
    assert Micros(WindowStart("1min", t)) == 60_000_000 * Minutes(t);
  }

  lemma FiveMinuteStart(t: Time)
    ensures var s := WindowStart("5min", t);
      Micros(s) % 300_000_000 == 0 && Micros(s) <= Micros(t) < Micros(s) + 300_000_000
  {
    var q := t.minute / 5;
    assert WindowStart("5min", t).minute == 5 * q && 5 * q <= t.minute < 5 * q + 5;
    assert Micros(WindowStart("5min", t)) == 300_000_000 * (Hours(t) * 12 + q);
  }

  lemma HourStart(t: Time)
    ensures var s := WindowStart("1hour", t);
      Micros(s) % 3_600_000_000 == 0 && Micros(s) <= Micros(t) < Micros(s) + 3_600_000_000
  {
    assert Micros(WindowStart("1hour", t)) == 3_600_000_000 * Hours(t);
  }

  lemma DayStart(t: Time)
    ensures var s := WindowStart("1day", t);
      Micros(s) % 86_400_000_000 == 0 && Micros(s) <= Micros(t) < Micros(s) + 86_400_000_000
  {
    assert Micros(WindowStart("1day", t)) == 86_400_000_000 * t.day;
  }

  /** Field by field or on the time line: a window starts at the last multiple of its length, and contains the time. */
  lemma WindowStartIsFloor(window: string, t: Time)
    requires Known(window)
    ensures var start, n := Micros(WindowStart(window, t)), Length(window);
      start % n == 0 && start <= Micros(t) < start + n
  {
    if window == "1min" {
      MinuteStart(t);
    } else if window == "5min" {
      FiveMinuteStart(t);
    } else if window == "1hour" {
      HourStart(t);
    } else {
      DayStart(t);
    }
  }

  /** The next finer window. */
  function Finer(window: string): string
    requires window in ["5min", "1hour", "1day"]
    ensures Known(Finer(window))
  {
    if window == "5min" then "1min" else if window == "1hour" then "5min" else "1hour"
  }

  function Pieces(window: string): nat
    requires window in ["5min", "1hour", "1day"]
  {
    if window == "5min" then 5 else if window == "1hour" then 12 else 24
  }

  /** The start of the `i`-th finer window inside the window starting at `start`. */
  function Piece(window: string, start: Time, i: nat): Time
    requires window in ["5min", "1hour", "1day"] && i < Pieces(window)
    requires WindowStart(window, start) == start
  {
    if window == "5min" then start.(minute := start.minute + i)
    else if window == "1hour" then start.(minute := 5 * i)
    else start.(hour := i)
  }

  /** Which piece of its window a time falls into. */
  function PieceOf(window: string, t: Time): (i: nat)
    requires window in ["5min", "1hour", "1day"]
    ensures i < Pieces(window)
  {
    if window == "5min" then t.minute % 5 else if window == "1hour" then t.minute / 5 else t.hour
  }

  /**
   * Floors compose: a time floors to a finer window inside `start` exactly when it floors to `start`, in one piece
   * only.
   */
  lemma FloorsCompose(window: string, start: Time, t: Time, i: nat)
    requires window in ["5min", "1hour", "1day"] && WindowStart(window, start) == start && i < Pieces(window)
    ensures WindowStart(Finer(window), t) == Piece(window, start, i) <==>
      WindowStart(window, t) == start && PieceOf(window, t) == i
  {
  }
}

/** The event table and the roll-up index that must agree with it. */
module RollupIndex {
  import opened Sequences
  import opened TimeWindows

  datatype EventRow = EventRow(
    cameraId: string, jobId: string, laneId: string, trackId: int, vehicleType: string,
    direction: string, confidence: real, frameId: int, createdAt: Time)

  datatype LaneChangeRow = LaneChangeRow(
    cameraId: string, trackId: int, className: string, previousLaneId: Option<string>, currentLaneId: string,
    frameId: int, createdAt: Time)

  /** The unique key of an aggregate row. */
  datatype Key = Key(cameraId: string, laneId: string, vehicleType: string, window: string, start: Time)

  datatype Db = Db(events: seq<EventRow>, laneChanges: seq<LaneChangeRow>, index: map<Key, nat>)

  const EMPTY_DB := Db([], [], map[])

  /** What a session has added or executed since its last commit or rollback. */
  datatype Op = AddEvent(row: EventRow) | AddLaneChange(change: LaneChangeRow) | Increment(key: Key)

  function CountAt(index: map<Key, nat>, k: Key): nat {
    if k in index then index[k] else 0
  }

  function ApplyOp(db: Db, op: Op): Db {
    match op
    case AddEvent(row) => db.(events := db.events + [row])
    case AddLaneChange(change) => db.(laneChanges := db.laneChanges + [change])
    case Increment(k) => db.(index := db.index[k := CountAt(db.index, k) + 1])
  }

  /** A commit makes all pending operations durable, in order. */
  function Apply(db: Db, ops: seq<Op>): Db {
    if ops == [] then db else ApplyOp(Apply(db, ops[..|ops| - 1]), ops[|ops| - 1])
  }

  function KeyOf(row: EventRow, window: string): Key
    requires Known(window)
  {
    Key(row.cameraId, row.laneId, row.vehicleType, window, WindowStart(window, row.createdAt))
  }

  /** The event belongs to the bucket: same camera, lane and vehicle type, and its time in the window. */
  predicate FloorsTo(row: EventRow, k: Key) {
    && row.cameraId == k.cameraId && row.laneId == k.laneId && row.vehicleType == k.vehicleType
    && Known(k.window) && WindowStart(k.window, row.createdAt) == k.start
  }

  /** The buckets of one event: one for each configured window that is known, duplicates included. */
  function Buckets(windows: seq<string>, row: EventRow): seq<Key> {
    if windows == [] then []
    else
      var w := windows[|windows| - 1];
      Buckets(windows[..|windows| - 1], row) + if Known(w) then [KeyOf(row, w)] else []
  }

  function Increments(keys: seq<Key>): (r: seq<Op>)
    ensures |r| == |keys|
    ensures forall i :: 0 <= i < |keys| ==> r[i] == Increment(keys[i])
  {
    seq(|keys|, i requires 0 <= i < |keys| => Increment(keys[i]))
  }

  function Rows(ops: seq<Op>): seq<EventRow> {
    if ops == [] then []
    else Rows(ops[..|ops| - 1]) + RowIn(ops[|ops| - 1])
  }

  function Incs(ops: seq<Op>, k: Key): nat {
    if ops == [] then 0 else Incs(ops[..|ops| - 1], k) + if ops[|ops| - 1] == Increment(k) then 1 else 0
  }

  /** How many of the rows floor to `k`. */
  function EventsAt(rows: seq<EventRow>, k: Key): nat {
    if rows == [] then 0 else EventsAt(rows[..|rows| - 1], k) + if FloorsTo(rows[|rows| - 1], k) then 1 else 0
  }

  /** How often the configuration lists the window of `k`: the increments one event owes to its bucket. */
  function Weight(windows: seq<string>, k: Key): nat {
    if Known(k.window) then Count(windows, k.window) else 0
  }

  function OwedBy(windows: seq<string>, row: EventRow, k: Key): nat {
    if FloorsTo(row, k) then Weight(windows, k) else 0
  }

  /** The increments that the rows owe to the bucket `k`. */
  function Owed(windows: seq<string>, rows: seq<EventRow>, k: Key): nat {
    if rows == [] then 0 else Owed(windows, rows[..|rows| - 1], k) + OwedBy(windows, rows[|rows| - 1], k)
  }

  /** No bucket runs ahead of its events. */
  ghost predicate OpsBounded(windows: seq<string>, ops: seq<Op>) {
    forall k :: Incs(ops, k) <= Owed(windows, Rows(ops), k)
  }

  /** Every bucket has exactly what its events owe it. */
  ghost predicate OpsExact(windows: seq<string>, ops: seq<Op>) {
    forall k :: Incs(ops, k) == Owed(windows, Rows(ops), k)
  }

  ghost predicate DbBounded(windows: seq<string>, db: Db) {
    forall k :: CountAt(db.index, k) <= Owed(windows, db.events, k)
  }

  ghost predicate DbExact(windows: seq<string>, db: Db) {
    forall k :: CountAt(db.index, k) == Owed(windows, db.events, k)
  }

  // ---- Sums over operations ----

  lemma {:induction false} OwedConcat(windows: seq<string>, a: seq<EventRow>, b: seq<EventRow>, k: Key)
    ensures Owed(windows, a + b, k) == Owed(windows, a, k) + Owed(windows, b, k)
  {
    if b == [] {
      assert a + b == a;
    } else {
      OwedConcat(windows, a, b[..|b| - 1], k);
      DropLastOfConcat(a, b);
    }
  }

  /** Each event owes one increment for every mention of the window. */
  lemma {:induction false} OwedIsProduct(windows: seq<string>, rows: seq<EventRow>, k: Key)
    ensures Owed(windows, rows, k) == Weight(windows, k) * EventsAt(rows, k)
  {
    if rows != [] {
      OwedIsProduct(windows, rows[..|rows| - 1], k);
      OneMore(Weight(windows, k), EventsAt(rows[..|rows| - 1], k));
    }
  }

  lemma OneMore(w: nat, n: nat)
    ensures w * (n + 1) == w * n + w
  {
  }

  lemma {:induction false} IncsConcat(a: seq<Op>, b: seq<Op>, k: Key)
    ensures Incs(a + b, k) == Incs(a, k) + Incs(b, k)
  {
    if b == [] {
      assert a + b == a;
    } else {
      IncsConcat(a, b[..|b| - 1], k);
      DropLastOfConcat(a, b);
    }
  }

  /** The row that an operation adds, if any. */
  function RowIn(op: Op): seq<EventRow> {
    match op
    case AddEvent(row) => [row]
    case _ => []
  }

  lemma {:induction false} RowsConcat(a: seq<Op>, b: seq<Op>)
    ensures Rows(a + b) == Rows(a) + Rows(b)
  {
    if b == [] {
      assert a + b == a;
    } else {
      RowsConcat(a, b[..|b| - 1]);
      DropLastOfConcat(a, b);
      ConcatAssociates(Rows(a), Rows(b[..|b| - 1]), RowIn(b[|b| - 1]));
    }
  }

  lemma {:induction false} IncrementsAddNoRows(keys: seq<Key>)
    ensures Rows(Increments(keys)) == []
  {
    if keys != [] {
      IncrementsAddNoRows(keys[..|keys| - 1]);
      assert Increments(keys)[..|keys| - 1] == Increments(keys[..|keys| - 1]);
    }
  }

  lemma {:induction false} IncrementsCount(keys: seq<Key>, k: Key)
    ensures Incs(Increments(keys), k) == Count(keys, k)
  {
    if keys != [] {
      IncrementsCount(keys[..|keys| - 1], k);
      assert Increments(keys)[..|keys| - 1] == Increments(keys[..|keys| - 1]);
    }
  }

  /** An event's buckets hit a key once per configured mention of its window, when the event floors to it. */
  lemma {:induction false} BucketsCount(windows: seq<string>, row: EventRow, k: Key)
    ensures Count(Buckets(windows, row), k) == if FloorsTo(row, k) then Weight(windows, k) else 0
  {
    if windows != [] {
      var front, w := windows[..|windows| - 1], windows[|windows| - 1];
      BucketsCount(front, row, k);
      if Known(w) {
        CountPush(Buckets(front, row), KeyOf(row, w), k);
      } else {
        assert Buckets(windows, row) == Buckets(front, row);
      }
    }
  }

  lemma CountPrefix(keys: seq<Key>, n: nat, k: Key)
    requires n <= |keys|
    ensures Count(keys[..n], k) <= Count(keys, k)
  {
    CountConcat(keys[..n], keys[n..], k);
    assert keys == keys[..n] + keys[n..];
  }

  /** One event followed by the first `n` of its bucket increments. */
  function EventOps(windows: seq<string>, row: EventRow, n: nat): seq<Op>
    requires n <= |Buckets(windows, row)|
  {
    [AddEvent(row)] + Increments(Buckets(windows, row)[..n])
  }

  lemma EventOpsNext(windows: seq<string>, base: seq<Op>, row: EventRow, n: nat)
    requires n < |Buckets(windows, row)|
    ensures base + EventOps(windows, row, n) + [Increment(Buckets(windows, row)[n])]
      == base + EventOps(windows, row, n + 1)
  {
    var keys := Buckets(windows, row);
    assert Increments(keys[..n + 1]) == Increments(keys[..n]) + [Increment(keys[n])];
  }

  /** The upserts of one event: at most what it owes each bucket, and all of that when they are complete. */
  lemma EventOpsCount(windows: seq<string>, row: EventRow, n: nat, k: Key)
    requires n <= |Buckets(windows, row)|
    ensures Incs(EventOps(windows, row, n), k) == Count(Buckets(windows, row)[..n], k) <= OwedBy(windows, row, k)
    ensures n == |Buckets(windows, row)| ==> Incs(EventOps(windows, row, n), k) == OwedBy(windows, row, k)
  {
    var keys := Buckets(windows, row);
    IncsConcat([AddEvent(row)], Increments(keys[..n]), k);
    IncrementsCount(keys[..n], k);
    CountPrefix(keys, n, k);
    BucketsCount(windows, row, k);
    assert keys[..|keys|] == keys;
  }

  lemma RowsOfEventOps(windows: seq<string>, row: EventRow, n: nat)
    requires n <= |Buckets(windows, row)|
    ensures Rows(EventOps(windows, row, n)) == [row]
  {
    RowsConcat([AddEvent(row)], Increments(Buckets(windows, row)[..n]));
    IncrementsAddNoRows(Buckets(windows, row)[..n]);
    assert [AddEvent(row)][..0] == [];
  }

  lemma EventOpsRows(windows: seq<string>, base: seq<Op>, row: EventRow, n: nat)
    requires n <= |Buckets(windows, row)|
    ensures Rows(base + EventOps(windows, row, n)) == Rows(base) + [row]
  {
    RowsConcat(base, EventOps(windows, row, n));
    RowsOfEventOps(windows, row, n);
  }

  lemma OwedPush(windows: seq<string>, rows: seq<EventRow>, row: EventRow, k: Key)
    ensures Owed(windows, rows + [row], k) == Owed(windows, rows, k) + OwedBy(windows, row, k)
  {
    assert (rows + [row])[..|rows|] == rows;
  }

  /** What one more event adds, with all of its upserts or some: to the increments made, and to those owed. */
  lemma EventAdds(windows: seq<string>, base: seq<Op>, row: EventRow, n: nat, k: Key)
    requires n <= |Buckets(windows, row)|
    ensures var ops := base + EventOps(windows, row, n);
      && Incs(ops, k) == Incs(base, k) + Count(Buckets(windows, row)[..n], k)
      && Owed(windows, Rows(ops), k) == Owed(windows, Rows(base), k) + OwedBy(windows, row, k)
  {
    IncsConcat(base, EventOps(windows, row, n), k);
    EventOpsCount(windows, row, n, k);
    EventOpsRows(windows, base, row, n);
    OwedPush(windows, Rows(base), row, k);
  }

  /** An event keeps a session bounded, and exact if and only if its roll-up is complete. */
  lemma AppendEventOps(windows: seq<string>, base: seq<Op>, row: EventRow, n: nat)
    requires n <= |Buckets(windows, row)| && OpsBounded(windows, base)
    ensures var ops := base + EventOps(windows, row, n);
      && OpsBounded(windows, ops)
      && (OpsExact(windows, ops) <==> OpsExact(windows, base) && n == |Buckets(windows, row)|)
  {
    EventKeepsBounds(windows, base, row, n);
    if n == |Buckets(windows, row)| {
      FullEventKeepsExact(windows, base, row);
    } else {
      CutShortOwes(windows, base, row, n);
    }
  }

  lemma EventKeepsBounds(windows: seq<string>, base: seq<Op>, row: EventRow, n: nat)
    requires n <= |Buckets(windows, row)| && OpsBounded(windows, base)
    ensures OpsBounded(windows, base + EventOps(windows, row, n))
  {
    var ops := base + EventOps(windows, row, n);
    forall k ensures Incs(ops, k) <= Owed(windows, Rows(ops), k) {
      EventOpsCount(windows, row, n, k);
      EventAdds(windows, base, row, n, k);
    }
  }

  lemma FullEventKeepsExact(windows: seq<string>, base: seq<Op>, row: EventRow)
    ensures OpsExact(windows, base + EventOps(windows, row, |Buckets(windows, row)|)) <==> OpsExact(windows, base)
  {
    var n := |Buckets(windows, row)|;
    var ops := base + EventOps(windows, row, n);
    forall k
      ensures Incs(ops, k) - Owed(windows, Rows(ops), k) == Incs(base, k) - Owed(windows, Rows(base), k)
    {
      EventOpsCount(windows, row, n, k);
      EventAdds(windows, base, row, n, k);
    }
  }

  /** A missing upsert leaves its bucket behind. */
  lemma CutShortOwes(windows: seq<string>, base: seq<Op>, row: EventRow, n: nat)
    requires n < |Buckets(windows, row)| && OpsBounded(windows, base)
    ensures !OpsExact(windows, base + EventOps(windows, row, n))
  {
    var k := Buckets(windows, row)[n];
    MissingUpsert(windows, row, n);
    EventAdds(windows, base, row, n, k);
    assert Incs(base, k) <= Owed(windows, Rows(base), k);
  }

  lemma MissingUpsert(windows: seq<string>, row: EventRow, n: nat)
    requires n < |Buckets(windows, row)|
    ensures var k := Buckets(windows, row)[n]; Count(Buckets(windows, row)[..n], k) < OwedBy(windows, row, k)
  {
    var keys := Buckets(windows, row);
    BucketsCount(windows, row, keys[n]);
    OneMissing(keys, n);
  }

  lemma OneMissing(keys: seq<Key>, n: nat)
    requires n < |keys|
    ensures Count(keys[..n], keys[n]) < Count(keys, keys[n])
  {
    CountPush(keys[..n], keys[n], keys[n]);
    assert keys[..n + 1] == keys[..n] + [keys[n]];
    CountPrefix(keys, n + 1, keys[n]);
  }

  lemma AppendLaneChange(windows: seq<string>, base: seq<Op>, change: LaneChangeRow)
    ensures var ops := base + [AddLaneChange(change)];
      && Rows(ops) == Rows(base)
      && (OpsBounded(windows, base) <==> OpsBounded(windows, ops))
      && (OpsExact(windows, base) <==> OpsExact(windows, ops))
  {
    var ops := base + [AddLaneChange(change)];
    assert ops[..|base|] == base;
    assert Rows(ops) == Rows(base) + [];
    forall k ensures Incs(ops, k) == Incs(base, k) {
    }
  }

  lemma NothingPending(windows: seq<string>)
    ensures OpsBounded(windows, []) && OpsExact(windows, [])
  {
  }

  // ---- Commit ----

  lemma {:induction false} ApplyAddsRows(db: Db, ops: seq<Op>)
    ensures Apply(db, ops).events == db.events + Rows(ops)
  {
    if ops != [] {
      ApplyAddsRows(db, ops[..|ops| - 1]);
    }
  }

  lemma {:induction false} ApplyAddsCounts(db: Db, ops: seq<Op>, k: Key)
    ensures CountAt(Apply(db, ops).index, k) == CountAt(db.index, k) + Incs(ops, k)
  {
    if ops != [] {
      ApplyAddsCounts(db, ops[..|ops| - 1], k);
    }
  }

  /** A commit adds increments made and increments owed, bucket by bucket. */
  lemma CommitAdds(windows: seq<string>, db: Db, ops: seq<Op>, k: Key)
    ensures var after := Apply(db, ops);
      && CountAt(after.index, k) == CountAt(db.index, k) + Incs(ops, k)
      && Owed(windows, after.events, k) == Owed(windows, db.events, k) + Owed(windows, Rows(ops), k)
  {
    ApplyAddsRows(db, ops);
    ApplyAddsCounts(db, ops, k);
    OwedConcat(windows, db.events, Rows(ops), k);
  }

  /** Committing a bounded session keeps the index within the events; it stays exact if and only if the session was. */
  lemma CommitKeepsIndex(windows: seq<string>, db: Db, ops: seq<Op>)
    requires DbBounded(windows, db) && OpsBounded(windows, ops)
    ensures DbBounded(windows, Apply(db, ops))
    ensures DbExact(windows, Apply(db, ops)) <==> DbExact(windows, db) && OpsExact(windows, ops)
  {
    var after := Apply(db, ops);
    forall k
      ensures CountAt(after.index, k) <= Owed(windows, after.events, k)
      ensures CountAt(after.index, k) == Owed(windows, after.events, k) <==>
        CountAt(db.index, k) == Owed(windows, db.events, k) && Incs(ops, k) == Owed(windows, Rows(ops), k)
    {
      CommitAdds(windows, db, ops, k);
      assert CountAt(db.index, k) <= Owed(windows, db.events, k) && Incs(ops, k) <= Owed(windows, Rows(ops), k);
    }
  }

  // ---- Consequences for readers of the index ----

  /** A window listed once or not at all. */
  ghost predicate NoDuplicates(windows: seq<string>) {
    forall w :: Count(windows, w) <= 1
  }

  /** Listing a window twice makes its buckets exceed their events as soon as there is one. */
  lemma BucketsStayBelowEventsIff(windows: seq<string>, db: Db, k: Key)
    requires DbExact(windows, db)
    ensures CountAt(db.index, k) <= EventsAt(db.events, k) <==> EventsAt(db.events, k) == 0 || Weight(windows, k) <= 1
  {
    OwedIsProduct(windows, db.events, k);
    ProductWithin(Weight(windows, k), EventsAt(db.events, k));
  }

  lemma ProductWithin(w: nat, n: nat)
    ensures w * n <= n <==> n == 0 || w <= 1
  {
    if n > 0 && w >= 2 {
      assert w * n >= 2 * n;
    }
  }

  /** An exact bucket of a window listed once is the number of its events. */
  lemma ExactBucket(windows: seq<string>, db: Db, k: Key)
    requires DbExact(windows, db) && Known(k.window) && Count(windows, k.window) == 1
    ensures CountAt(db.index, k) == EventsAt(db.events, k)
  {
    OwedIsProduct(windows, db.events, k);
    assert Weight(windows, k) == 1;
  }

  lemma NeverMoreThanEvents(windows: seq<string>, db: Db, k: Key)
    requires DbBounded(windows, db) && NoDuplicates(windows)
    ensures CountAt(db.index, k) <= EventsAt(db.events, k)
  {
    OwedIsProduct(windows, db.events, k);
    assert Weight(windows, k) <= 1;
    ProductWithin(Weight(windows, k), EventsAt(db.events, k));
  }

  // ---- The window tower ----

  /** The key of the `i`-th piece of a bucket. */
  function PieceKey(k: Key, i: nat): Key
    requires k.window in ["5min", "1hour", "1day"] && i < Pieces(k.window)
    requires WindowStart(k.window, k.start) == k.start
  {
    k.(window := Finer(k.window), start := Piece(k.window, k.start, i))
  }

  function EventsInPieces(rows: seq<EventRow>, k: Key, n: nat): nat
    requires k.window in ["5min", "1hour", "1day"] && n <= Pieces(k.window) && WindowStart(k.window, k.start) == k.start
  {
    if n == 0 then 0 else EventsInPieces(rows, k, n - 1) + EventsAt(rows, PieceKey(k, n - 1))
  }

  /** The sum of the buckets of the first `n` pieces. */
  function SumOfPieces(index: map<Key, nat>, k: Key, n: nat): nat
    requires k.window in ["5min", "1hour", "1day"] && n <= Pieces(k.window) && WindowStart(k.window, k.start) == k.start
  {
    if n == 0 then 0 else SumOfPieces(index, k, n - 1) + CountAt(index, PieceKey(k, n - 1))
  }

  lemma {:induction false} OneEventInPieces(rows: seq<EventRow>, row: EventRow, k: Key, n: nat)
    requires k.window in ["5min", "1hour", "1day"] && n <= Pieces(k.window) && WindowStart(k.window, k.start) == k.start
    ensures EventsInPieces(rows + [row], k, n) == EventsInPieces(rows, k, n)
      + if FloorsTo(row, k) && PieceOf(k.window, row.createdAt) < n then 1 else 0
  {
    if n > 0 {
      OneEventInPieces(rows, row, k, n - 1);
      FloorsCompose(k.window, k.start, row.createdAt, n - 1);
      assert (rows + [row])[..|rows|] == rows;
    }
  }

  lemma {:induction false} NoRowsInPieces(k: Key, n: nat)
    requires k.window in ["5min", "1hour", "1day"] && n <= Pieces(k.window) && WindowStart(k.window, k.start) == k.start
    ensures EventsInPieces([], k, n) == 0
  {
    if n > 0 {
      NoRowsInPieces(k, n - 1);
    }
  }

  lemma {:induction false} PiecesPartitionEvents(rows: seq<EventRow>, k: Key)
    requires k.window in ["5min", "1hour", "1day"] && WindowStart(k.window, k.start) == k.start
    ensures EventsInPieces(rows, k, Pieces(k.window)) == EventsAt(rows, k)
  {
    if rows == [] {
      NoRowsInPieces(k, Pieces(k.window));
    } else {
      var front, row := rows[..|rows| - 1], rows[|rows| - 1];
      PiecesPartitionEvents(front, k);
      OneEventInPieces(front, row, k, Pieces(k.window));
      assert rows == front + [row];
    }
  }

  lemma {:induction false} ExactPieces(windows: seq<string>, db: Db, k: Key, n: nat)
    requires k.window in ["5min", "1hour", "1day"] && n <= Pieces(k.window) && WindowStart(k.window, k.start) == k.start
    requires DbExact(windows, db) && Count(windows, Finer(k.window)) == 1
    ensures SumOfPieces(db.index, k, n) == EventsInPieces(db.events, k, n)
  {
    if n > 0 {
      ExactPieces(windows, db, k, n - 1);
      ExactBucket(windows, db, PieceKey(k, n - 1));
    }
  }

  /** Where the index is exact and both windows are configured once, a bucket is the sum of its pieces. */
  lemma WindowTower(windows: seq<string>, db: Db, k: Key)
    requires k.window in ["5min", "1hour", "1day"] && WindowStart(k.window, k.start) == k.start
    requires DbExact(windows, db) && Count(windows, k.window) == 1 && Count(windows, Finer(k.window)) == 1
    ensures CountAt(db.index, k) == SumOfPieces(db.index, k, Pieces(k.window))
  {
    ExactPieces(windows, db, k, Pieces(k.window));
    PiecesPartitionEvents(db.events, k);
    ExactBucket(windows, db, k);
  }
}

/** From frames to tables: what is stored when every crossing of a run is accepted and nothing fails. */
module StoredCounts {
  import opened Sequences
  import opened Configuration
  import opened Tracking
  import opened Counting
  import opened CountConservation
  import opened TallyBooks
  import opened TimeWindows
  import opened RollupIndex
  import Changes = AmortisedCounting
  import Engine = CountingEngine
  import Protocol = StorageProtocol
  import Storage = StorageSystem
  import Rows = RowAccounting
  import Damage = IndexDamage

  // ---- Counting by a property ----

  function CountWhere<T>(s: seq<T>, p: T -> bool): nat {
    if s == [] then 0 else CountWhere(s[..|s| - 1], p) + if p(s[|s| - 1]) then 1 else 0
  }

  lemma {:induction false} CountWhereConcat<T>(s: seq<T>, t: seq<T>, p: T -> bool)
    ensures CountWhere(s + t, p) == CountWhere(s, p) + CountWhere(t, p)
  {
    if t == [] {
      assert s + t == s;
    } else {
      CountWhereConcat(s, t[..|t| - 1], p);
      DropLastOfConcat(s, t);
    }
  }

  lemma {:induction false} NoneWhere<T(!new)>(s: seq<T>, p: T -> bool)
    requires forall x :: p(x) ==> Count(s, x) == 0
    ensures CountWhere(s, p) == 0
  {
    if s != [] {
      forall x | p(x) ensures Count(s[..|s| - 1], x) == 0 {
        assert Count(s, x) == 0;
      }
      NoneWhere(s[..|s| - 1], p);
      assert Count(s, s[|s| - 1]) > 0;
    }
  }

  function Drop<T>(s: seq<T>, j: nat): seq<T>
    requires j < |s|
  {
    s[..j] + s[j + 1..]
  }

  lemma AroundDropped<T>(s: seq<T>, j: nat)
    requires j < |s|
    ensures s == s[..j] + [s[j]] + s[j + 1..]
  {
  }

  lemma MiddleCounts<T>(a: seq<T>, y: T, b: seq<T>, x: T)
    ensures Count(a + [y] + b, x) == Count(a + b, x) + if y == x then 1 else 0
  {
    CountConcat(a + [y], b, x);
    CountPush(a, y, x);
    CountConcat(a, b, x);
  }

  lemma DropCounts<T>(s: seq<T>, j: nat, x: T)
    requires j < |s|
    ensures Count(s, x) == Count(Drop(s, j), x) + if s[j] == x then 1 else 0
  {
    AroundDropped(s, j);
    MiddleCounts(s[..j], s[j], s[j + 1..], x);
  }

  lemma MiddleCountsWhere<T>(a: seq<T>, y: T, b: seq<T>, p: T -> bool)
    requires p(y)
    ensures CountWhere(a + [y] + b, p) == CountWhere(a + b, p) + 1
  {
    CountWhereConcat(a + [y], b, p);
    assert (a + [y])[..|a|] == a;
    CountWhereConcat(a, b, p);
  }

  lemma DropCountsWhere<T>(s: seq<T>, j: nat, p: T -> bool)
    requires j < |s| && p(s[j])
    ensures CountWhere(s, p) == CountWhere(Drop(s, j), p) + 1
  {
    AroundDropped(s, j);
    MiddleCountsWhere(s[..j], s[j], s[j + 1..], p);
  }

  /** The same multiplicities where `p` holds, `p` holds equally often. */
  lemma {:induction false} SameWhere<T(!new)>(s: seq<T>, t: seq<T>, p: T -> bool)
    requires forall x :: p(x) ==> Count(s, x) == Count(t, x)
    ensures CountWhere(s, p) == CountWhere(t, p)
  {
    if s == [] {
      NoneWhere(t, p);
    } else {
      var front, last := s[..|s| - 1], s[|s| - 1];
      if p(last) {
        assert Count(s, last) > 0;
        var j :| 0 <= j < |t| && t[j] == last;
        forall x | p(x) ensures Count(front, x) == Count(Drop(t, j), x) {
          DropCounts(t, j, x);
        }
        SameWhere(front, Drop(t, j), p);
        DropCountsWhere(t, j, p);
      } else {
        forall x | p(x) ensures Count(front, x) == Count(t, x) {
          assert Count(s, x) == Count(t, x);
        }
        SameWhere(front, t, p);
      }
    }
  }

  // ---- The rows of a run ----

  /** What the pipeline adds to a report: the camera, the job and the time of each frame. */
  datatype Camera = Camera(id: string, job: string, stamp: int -> Time)

  function DirectionName(d: Direction): string {
    match d
    case Forward => "forward"
    case Backward => "backward"
  }

  function RowOf(cam: Camera, e: CountEvent): EventRow {
    EventRow(cam.id, cam.job, e.laneId, e.trackId, e.className, DirectionName(e.direction), e.confidence, e.frame,
             cam.stamp(e.frame))
  }

  function RowsOf(cam: Camera, events: seq<CountEvent>): seq<EventRow> {
    if events == [] then [] else RowsOf(cam, events[..|events| - 1]) + [RowOf(cam, events[|events| - 1])]
  }

  function ChangeRowOf(cam: Camera, c: LaneChange): LaneChangeRow {
    LaneChangeRow(cam.id, c.trackId, c.className, Some(c.previous), c.current, c.frame, cam.stamp(c.frame))
  }

  function ChangeRowsOf(cam: Camera, changes: seq<LaneChange>): (r: seq<LaneChangeRow>)
    ensures |r| == |changes|
    ensures forall x :: x in r ==> x.cameraId == cam.id
  {
    if changes == [] then []
    else ChangeRowsOf(cam, changes[..|changes| - 1]) + [ChangeRowOf(cam, changes[|changes| - 1])]
  }

  function OfCamera(id: string): EventRow -> bool {
    (r: EventRow) => r.cameraId == id
  }

  function OfLane(id: string, lane: string): EventRow -> bool {
    (r: EventRow) => r.cameraId == id && r.laneId == lane
  }

  function OfTally(id: string, lane: string, className: string, d: Direction): EventRow -> bool {
    var direction := if d.Forward? then "forward" else "backward";
    (r: EventRow) =>
      r.cameraId == id && r.laneId == lane && r.vehicleType == className && r.direction == direction
  }

  function InBucket(k: Key): EventRow -> bool {
    (r: EventRow) => FloorsTo(r, k)
  }

  function ChangeOfCamera(id: string): LaneChangeRow -> bool {
    (c: LaneChangeRow) => c.cameraId == id
  }

  lemma {:induction false} RowsOfLane(cam: Camera, events: seq<CountEvent>, lane: string)
    ensures CountWhere(RowsOf(cam, events), OfLane(cam.id, lane)) == EventsIn(events, lane)
  {
    if events != [] {
      RowsOfLane(cam, events[..|events| - 1], lane);
      LastRow(cam, events);
    }
  }

  lemma {:induction false} RowsOfTally(cam: Camera, events: seq<CountEvent>, lane: string, c: string, d: Direction)
    ensures CountWhere(RowsOf(cam, events), OfTally(cam.id, lane, c, d)) == EventsWith(events, lane, c, d)
  {
    if events != [] {
      RowsOfTally(cam, events[..|events| - 1], lane, c, d);
      LastRow(cam, events);
    }
  }

  /** The crossings of a lane and class in frames whose times fall into the window of a bucket. */
  function CrossingsIn(cam: Camera, events: seq<CountEvent>, k: Key): nat
    requires Known(k.window)
  {
    if events == [] then 0
    else
      var e := events[|events| - 1];
      CrossingsIn(cam, events[..|events| - 1], k)
      + if e.laneId == k.laneId && e.className == k.vehicleType && WindowStart(k.window, cam.stamp(e.frame)) == k.start
        then 1 else 0
  }

  lemma {:induction false} CrossingsAreRows(cam: Camera, events: seq<CountEvent>, k: Key)
    requires Known(k.window) && k.cameraId == cam.id
    ensures EventsAt(RowsOf(cam, events), k) == CrossingsIn(cam, events, k)
  {
    if events != [] {
      CrossingsAreRows(cam, events[..|events| - 1], k);
      LastRow(cam, events);
    }
  }

  lemma LastRow(cam: Camera, events: seq<CountEvent>)
    requires events != []
    ensures var rows := RowsOf(cam, events);
      && rows != [] && rows[|rows| - 1] == RowOf(cam, events[|events| - 1])
      && rows[..|rows| - 1] == RowsOf(cam, events[..|events| - 1])
  {
  }

  lemma {:induction false} EventsAtIsWhere(rows: seq<EventRow>, k: Key)
    ensures EventsAt(rows, k) == CountWhere(rows, InBucket(k))
  {
    if rows != [] {
      EventsAtIsWhere(rows[..|rows| - 1], k);
    }
  }

  lemma {:induction false} AllWhere<T>(s: seq<T>, p: T -> bool)
    requires forall x :: x in s ==> p(x)
    ensures CountWhere(s, p) == |s|
  {
    if s != [] {
      AllWhere(s[..|s| - 1], p);
    }
  }

  // ---- The two cores together ----

  /** Of the rows of this camera, exactly those of the run's crossings have been accepted by the workers. */
  ghost predicate CrossingsAccepted(cam: Camera, events: seq<CountEvent>, workers: seq<Protocol.Worker>) {
    forall r: EventRow :: OfCamera(cam.id)(r) ==>
      Rows.Accepted(workers, Protocol.CountPayload(r)) == Count(RowsOf(cam, events), r)
  }

  /** And of its lane changes exactly the reported ones. */
  ghost predicate ChangesAccepted(cam: Camera, changes: seq<LaneChange>, workers: seq<Protocol.Worker>) {
    forall c: LaneChangeRow :: ChangeOfCamera(cam.id)(c) ==>
      Rows.Accepted(workers, Protocol.LaneChangePayload(c)) == Count(ChangeRowsOf(cam, changes), c)
  }

  /** No step of the schedule fails or skips the database, and all workers are done with what they accepted. */
  ghost predicate AllStored(setup: Protocol.Setup, n: nat, choices: seq<Storage.Choice>) {
    && setup.Valid() && (forall c :: c in choices ==> Rows.Storing(c.action))
    && forall i :: 0 <= i < n ==> Rows.Finished(Storage.Run(setup, n, choices).workers[i])
  }

  lemma TableHoldsCrossings(cam: Camera, events: seq<CountEvent>, setup: Protocol.Setup, n: nat,
                            choices: seq<Storage.Choice>, p: EventRow -> bool)
    requires AllStored(setup, n, choices)
    requires CrossingsAccepted(cam, events, Storage.Run(setup, n, choices).workers)
    requires forall r :: p(r) ==> OfCamera(cam.id)(r)
    ensures CountWhere(Storage.Run(setup, n, choices).db.events, p) == CountWhere(RowsOf(cam, events), p)
  {
    var table := Storage.Run(setup, n, choices).db.events;
    forall r | p(r) ensures Count(table, r) == Count(RowsOf(cam, events), r) {
      Rows.EverythingAcceptedIsStored(setup, n, choices, Protocol.CountPayload(r));
    }
    SameWhere(table, RowsOf(cam, events), p);
  }

  /**
   * When all crossings of a run were accepted and stored, the event rows of each lane number its total in memory,
   * and those of each lane, class and direction its tally.
   */
  lemma RowsAreTheCounts(cfg: Config, frames: seq<Engine.Frame>, cam: Camera, setup: Protocol.Setup, n: nat,
                         choices: seq<Storage.Choice>, lane: string, className: string, d: Direction)
    requires cfg.Valid() && AllStored(setup, n, choices)
    requires CrossingsAccepted(cam, Emitted(cfg, frames), Storage.Run(setup, n, choices).workers)
    ensures var table, counts := Storage.Run(setup, n, choices).db.events, Engine.Run(cfg, frames).counter.counts;
      && CountWhere(table, OfLane(cam.id, lane)) == LaneTotal(counts, lane)
      && CountWhere(table, OfTally(cam.id, lane, className, d)) == TallyAt(counts, lane, className, d)
  {
    var events, counter := Emitted(cfg, frames), Engine.Run(cfg, frames).counter;
    TableHoldsCrossings(cam, events, setup, n, choices, OfLane(cam.id, lane));
    TableHoldsCrossings(cam, events, setup, n, choices, OfTally(cam.id, lane, className, d));
    RowsOfLane(cam, events, lane);
    RowsOfTally(cam, events, lane, className, d);
    TalliesAreConserved(cfg, frames);
    assert Agree(counter.counts, counter.counted, events, lane);
    EachTallyIsItsEvents(cfg, frames, lane, className, d);
  }

  /** Then each bucket of a configured window counts the run's crossings in it, when no roll-up error was hidden. */
  lemma BucketsAreTheCounts(cfg: Config, frames: seq<Engine.Frame>, cam: Camera, setup: Protocol.Setup, n: nat,
                            choices: seq<Storage.Choice>, k: Key)
    requires cfg.Valid() && AllStored(setup, n, choices) && Damage.NothingHidden(choices)
    requires CrossingsAccepted(cam, Emitted(cfg, frames), Storage.Run(setup, n, choices).workers)
    requires k.cameraId == cam.id && Known(k.window) && Count(setup.windows, k.window) == 1
    ensures CountAt(Storage.Run(setup, n, choices).db.index, k) == CrossingsIn(cam, Emitted(cfg, frames), k)
  {
    var rows := RowsOf(cam, Emitted(cfg, frames));
    Damage.BucketsCountEvents(setup, n, choices, k);
    TableHoldsCrossings(cam, Emitted(cfg, frames), setup, n, choices, InBucket(k));
    EventsAtIsWhere(Storage.Run(setup, n, choices).db.events, k);
    EventsAtIsWhere(rows, k);
    CrossingsAreRows(cam, Emitted(cfg, frames), k);
  }

  /** And the lane-change rows of the camera number the lane changes its frames reported. */
  lemma ChangeRowsAreTheReports(cfg: Config, frames: seq<Engine.Frame>, cam: Camera, setup: Protocol.Setup, n: nat,
                                choices: seq<Storage.Choice>)
    requires cfg.Valid() && AllStored(setup, n, choices)
    requires ChangesAccepted(cam, Changes.ReportedChanges(cfg, frames), Storage.Run(setup, n, choices).workers)
    ensures CountWhere(Storage.Run(setup, n, choices).db.laneChanges, ChangeOfCamera(cam.id))
      == |Changes.ReportedChanges(cfg, frames)|
  {
    var table := Storage.Run(setup, n, choices).db.laneChanges;
    var rows := ChangeRowsOf(cam, Changes.ReportedChanges(cfg, frames));
    forall c | ChangeOfCamera(cam.id)(c) ensures Count(table, c) == Count(rows, c) {
      Rows.EverythingAcceptedIsStored(setup, n, choices, Protocol.LaneChangePayload(c));
    }
    SameWhere(table, rows, ChangeOfCamera(cam.id));
    AllWhere(rows, ChangeOfCamera(cam.id));
  }
}

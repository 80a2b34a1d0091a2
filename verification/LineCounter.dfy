/** Counting: one event per (track, lane), with a direction read off the recent motion. */
module Counting {
  import opened Sequences
  import opened Geometry
  import opened Configuration
  import opened LaneSmoothing
  import opened Tracking

  datatype Direction = Forward | Backward

  datatype Tally = Tally(forward: nat, backward: nat) {
    function Total(): nat { forward + backward }
  }

  type Counts = map<string, map<string, Tally>>

  datatype CountEvent = CountEvent(
    frame: int, trackId: int, className: string, laneId: string, lineId: string, direction: Direction, confidence: real)

  /** The counter: tallies, the (track, lane) pairs already counted, and the motion history. */
  datatype Counter = Counter(counts: Counts, counted: set<(int, string)>, anchors: map<int, seq<Point>>)

  datatype Counted = Counted(counter: Counter, events: seq<CountEvent>)

  function NewCounts(cfg: Config): Counts {
    map l | l in cfg.LaneIds() && l != "" :: map c | c in cfg.allowedClasses :: Tally(0, 0)
  }

  function NewCounter(cfg: Config): Counter {
    Counter(NewCounts(cfg), {}, map[])
  }

  function Anchor(box: Option<Box>): Option<Point> {
    match box
    case None => None
    case Some(b) => Some(BottomCentre(b))
  }

  function History(anchors: map<int, seq<Point>>, id: int): seq<Point> {
    if id in anchors then anchors[id] else []
  }

  function LogAnchor(cfg: Config, anchors: map<int, seq<Point>>, id: int, box: Option<Box>): map<int, seq<Point>> {
    match Anchor(box)
    case None => anchors
    case Some(p) => anchors[id := LastN(History(anchors, id) + [p], cfg.motionHistory)]
  }

  function Abs(x: real): real {
    if x < 0.0 then -x else x
  }

  /** Image y grows downward: a clear downward motion is backward, everything else forward. */
  function DirectionFromMotion(hist: seq<Point>): Direction {
    if |hist| < 2 then Forward
    else
      var dy := hist[|hist| - 1].y - hist[0].y;
      if Abs(dy) < 2.0 then Forward
      else if dy > 0.0 then Backward
      else Forward
  }

  function EffectiveLane(cfg: Config, tr: Track): Option<string> {
    var h := tr.smooth.history;
    if tr.smooth.stable.Some? then tr.smooth.stable
    else if cfg.countUnstableLane && h != [] && h[|h| - 1] != UNKNOWN then Some(h[|h| - 1])
    else None
  }

  function ClassBucket(counts: Counts, lane: string, className: string): Tally {
    if lane in counts && className in counts[lane] then counts[lane][className] else Tally(0, 0)
  }

  function Bump(counts: Counts, lane: string, className: string, d: Direction): Counts {
    var bucket := if lane in counts then counts[lane] else map[];
    var t := ClassBucket(counts, lane, className);
    var t' := if d.Forward? then t.(forward := t.forward + 1) else t.(backward := t.backward + 1);
    counts[lane := bucket[className := t']]
  }

  /** A motion history is dropped only while its track is live but long unseen. */
  const ANCHOR_TIMEOUT := 60

  function OldEnough(cfg: Config, frame: int, tr: Track): bool {
    frame - tr.firstSeen + 1 >= cfg.minTrackAge
  }

  /** The lane a track would be counted in at this frame, if any. */
  function CountableLane(cfg: Config, frame: int, tr: Track): Option<string> {
    if tr.lastSeen != frame || !OldEnough(cfg, frame, tr) then None
    else
      match EffectiveLane(cfg, tr)
      case None => None
      case Some(l) => if l == "" || l == UNKNOWN then None else Some(l)
  }

  function TrackMotion(cfg: Config, frame: int, id: int, tr: Track, anchors: map<int, seq<Point>>)
    : map<int, seq<Point>>
  {
    if tr.lastSeen == frame then LogAnchor(cfg, anchors, id, tr.box)
    else if frame - tr.lastSeen > ANCHOR_TIMEOUT then anchors - {id}
    else anchors
  }

  function EventFor(frame: int, id: int, tr: Track, lane: string, hist: seq<Point>): CountEvent {
    var className := if tr.className == "" then "unknown" else tr.className;
    CountEvent(frame, id, className, lane, lane + "_track", DirectionFromMotion(hist), tr.confidence)
  }

  /** The body of `LineCounter.update` for one track. */
  function CountTrack(cfg: Config, frame: int, id: int, tr: Track, c: Counter): Counted {
    var moved := c.(anchors := TrackMotion(cfg, frame, id, tr, c.anchors));
    var lane := CountableLane(cfg, frame, tr);
    if lane.None? || (id, lane.value) in c.counted then Counted(moved, [])
    else
      var e := EventFor(frame, id, tr, lane.value, History(moved.anchors, id));
      Counted(moved.(counted := c.counted + {(id, lane.value)},
                     counts := Bump(c.counts, lane.value, e.className, e.direction)),
              [e])
  }

  function CountTracks(cfg: Config, frame: int, ids: seq<int>, states: map<int, Track>, c: Counter): Counted
    requires forall i :: i in ids ==> i in states
  {
    if ids == [] then Counted(c, [])
    else
      var id := ids[|ids| - 1];
      var before := CountTracks(cfg, frame, ids[..|ids| - 1], states, c);
      var now := CountTrack(cfg, frame, id, states[id], before.counter);
      Counted(now.counter, before.events + now.events)
  }

  lemma CountTracksNext(cfg: Config, frame: int, ids: seq<int>, states: map<int, Track>, c: Counter, k: nat)
    requires k < |ids| && forall i :: i in ids ==> i in states
    ensures var before := CountTracks(cfg, frame, ids[..k], states, c);
      var now := CountTrack(cfg, frame, ids[k], states[ids[k]], before.counter);
      CountTracks(cfg, frame, ids[..k + 1], states, c) == Counted(now.counter, before.events + now.events)
  {
    assert ids[..k + 1][..k] == ids[..k];
  }
}

/** Occupancy: how many live tracks stand in each lane. */
module Occupancy {
  import opened Sequences
  import opened Configuration
  import opened Tracking
  import opened Counting

  /** A track that contributes to occupancy: old enough, with a stable lane, seen this frame or not. */
  predicate Contributes(cfg: Config, frame: int, tr: Track) {
    OldEnough(cfg, frame, tr) && tr.smooth.stable.Some?
  }

  /** The lane a track occupies, if it contributes. */
  function OccupiedLane(cfg: Config, frame: int, tr: Track): Option<string> {
    if Contributes(cfg, frame, tr) then tr.smooth.stable else None
  }

  /** One more track in a configured lane; any other lane is not reported. */
  function Occupy(occ: map<string, nat>, lane: Option<string>): map<string, nat> {
    if lane.Some? && lane.value in occ then occ[lane.value := occ[lane.value] + 1] else occ
  }

  function OccupancyAll(cfg: Config, frame: int, ids: seq<int>, states: map<int, Track>): map<string, nat>
    requires forall i :: i in ids ==> i in states
  {
    if ids == [] then map l | l in cfg.LaneIds() :: 0
    else
      var id := ids[|ids| - 1];
      Occupy(OccupancyAll(cfg, frame, ids[..|ids| - 1], states), OccupiedLane(cfg, frame, states[id]))
  }

  lemma OccupancyNext(cfg: Config, frame: int, ids: seq<int>, states: map<int, Track>, k: nat)
    requires k < |ids| && forall i :: i in ids ==> i in states
    ensures OccupancyAll(cfg, frame, ids[..k + 1], states) ==
      Occupy(OccupancyAll(cfg, frame, ids[..k], states), OccupiedLane(cfg, frame, states[ids[k]]))
  {
    assert ids[..k + 1][..k] == ids[..k];
  }
}

/** The mutable counter and the occupancy engine, reading the track store. */
module CountingObjects {
  import opened Geometry
  import opened Configuration
  import opened LaneSmoothing
  import opened TrackStore
  import opened Counting
  import opened Occupancy

  class LineCounter {
    const cfg: Config
    var counts: Counts
    var counted: set<(int, string)>
    var anchors: map<int, seq<Point>>

    constructor (cfg: Config)
      ensures this.cfg == cfg && View() == NewCounter(cfg)
    {
      this.cfg := cfg;
      counts, counted, anchors := NewCounts(cfg), {}, map[];
    }

    function View(): Counter
      reads this
    {
      Counter(counts, counted, anchors)
    }

    /** The motion history of one track: extended when it is seen, dropped when it is long unseen. */
    method UpdateMotion(frame: int, id: int, state: TrackState)
      modifies this`anchors
      ensures anchors == TrackMotion(cfg, frame, id, state.View(), old(anchors))
    {
      if state.lastSeen != frame {
        if frame - state.lastSeen > ANCHOR_TIMEOUT {
          anchors := anchors - {id};
        }
        return;
      }
      var anchor := Anchor(state.box);
      if anchor.Some? {
        var hist := History(anchors, id) + [anchor.value];
        if |hist| > cfg.motionHistory {
          hist := hist[|hist| - cfg.motionHistory..];
        }
        anchors := anchors[id := hist];
      }
    }

    method UpdateTrack(frame: int, id: int, state: TrackState) returns (events: seq<CountEvent>)
      modifies this
      ensures View() == CountTrack(cfg, frame, id, state.View(), old(View())).counter
      ensures events == CountTrack(cfg, frame, id, state.View(), old(View())).events
    {
      events := [];
      UpdateMotion(frame, id, state);
      if state.lastSeen != frame {
        return;
      }
      var age := frame - state.firstSeen + 1;
      if age < cfg.minTrackAge {
        return;
      }
      var lane := EffectiveLane(cfg, state.View());
      if lane.None? || lane.value == "" || lane.value == UNKNOWN || (id, lane.value) in counted {
        return;
      }
      counted := counted + {(id, lane.value)};
      var direction := DirectionFromMotion(History(anchors, id));
      var className := if state.className == "" then "unknown" else state.className;
      counts := Bump(counts, lane.value, className, direction);
      events := [CountEvent(frame, id, className, lane.value, lane.value + "_track", direction, state.confidence)];
    }

    method Update(frame: int, manager: LaneStateManager) returns (events: seq<CountEvent>)
      requires manager.Valid()
      modifies this
      ensures manager.View() == old(manager.View())
      ensures var ts := old(manager.View());
        Counted(View(), events) == CountTracks(cfg, frame, ts.ids, ts.states, old(View()))
    {
      events := [];
      ghost var ts, before := manager.View(), View();
      for k := 0 to |manager.ids|
        invariant manager.Valid() && manager.View() == ts
        invariant Counted(View(), events) == CountTracks(cfg, frame, ts.ids[..k], ts.states, before)
      {
        var tid := manager.ids[k];
        CountTracksNext(cfg, frame, ts.ids, ts.states, before, k);
        var more := UpdateTrack(frame, tid, manager.states[tid]);
        events := events + more;
      }
      assert ts.ids[..|ts.ids|] == ts.ids;
    }
  }

  class OccupancyEngine {
    const cfg: Config

    constructor (cfg: Config)
      ensures this.cfg == cfg
    {
      this.cfg := cfg;
    }

    /** One turn of the loop: one track and the lane it occupies. */
    method AddOccupant(frame: int, state: TrackState, occupancy: map<string, nat>) returns (r: map<string, nat>)
      ensures r == Occupy(occupancy, OccupiedLane(cfg, frame, state.View()))
    {
      r := occupancy;
      if state.IsCounted(frame, cfg.minTrackAge) {
        var lane := state.stableLane.value;
        if lane in r {
          r := r[lane := r[lane] + 1];
        }
      }
    }

    method ComputeOccupancy(frame: int, manager: LaneStateManager) returns (occupancy: map<string, nat>)
      requires manager.Valid()
      ensures var ts := manager.View(); occupancy == OccupancyAll(cfg, frame, ts.ids, ts.states)
    {
      ghost var ts := manager.View();
      occupancy := map l | l in cfg.LaneIds() :: 0;
      for k := 0 to |manager.ids|
        invariant occupancy == OccupancyAll(cfg, frame, ts.ids[..k], ts.states)
      {
        OccupancyNext(cfg, frame, ts.ids, ts.states, k);
        var tid := manager.ids[k];
        occupancy := AddOccupant(frame, manager.states[tid], occupancy);
      }
      assert ts.ids[..|ts.ids|] == ts.ids;
    }
  }
}

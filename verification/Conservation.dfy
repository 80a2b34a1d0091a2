/** Sums over finite maps. */
module Sums {

  ghost function Sum<K>(m: map<K, nat>): nat
    decreases |m|
  {
    if m == map[] then 0
    else
      var k :| k in m;
      m[k] + Sum(m - {k})
  }

  lemma {:induction false} SumRemove<K>(m: map<K, nat>, k: K)
    requires k in m
    ensures Sum(m) == m[k] + Sum(m - {k})
    decreases |m|
  {
    var j :| j in m && Sum(m) == m[j] + Sum(m - {j});
    if j != k {
      SumRemove(m - {j}, k);
      SumRemove(m - {k}, j);
      assert m - {j} - {k} == m - {k} - {j};
    }
  }

  lemma SumUpdate<K>(m: map<K, nat>, k: K, v: nat)
    ensures Sum(m[k := v]) == Sum(m - {k}) + v
    ensures k in m ==> Sum(m[k := v]) == Sum(m) - m[k] + v
    ensures k !in m ==> Sum(m[k := v]) == Sum(m) + v
  {
    SumRemove(m[k := v], k);
    assert m[k := v] - {k} == m - {k};
    if k in m {
      SumRemove(m, k);
    } else {
      assert m - {k} == m;
    }
  }

  lemma {:induction false} SumZero<K>(m: map<K, nat>)
    requires forall k :: k in m ==> m[k] == 0
    ensures Sum(m) == 0
    decreases |m|
  {
    if m != map[] {
      var k :| k in m;
      SumRemove(m, k);
      SumZero(m - {k});
    }
  }
}

/** Occupancy neither loses nor invents a track. */
module OccupancyConservation {
  import opened Sequences
  import opened Sums
  import opened Geometry
  import opened Configuration
  import opened LaneSmoothing
  import opened LaneAssignment
  import opened Tracking
  import opened Occupancy
  import opened CountingEngine

  /** A track whose votes and stable lane all name configured lanes. */
  ghost predicate InLanes(cfg: Config, tr: Track) {
    && (forall x :: x in tr.smooth.history ==> x == UNKNOWN || x in cfg.LaneIds())
    && (tr.smooth.stable.Some? ==> tr.smooth.stable.value in cfg.LaneIds())
  }

  ghost predicate AllInLanes(cfg: Config, ts: Tracks) {
    forall t :: t in ts.states ==> InLanes(cfg, ts.states[t])
  }

  lemma RawLaneIsConfigured(cfg: Config, b: Box)
    ensures RawLane(cfg, b) == UNKNOWN || RawLane(cfg, b) in cfg.LaneIds()
  {
    FirstMatchAt(LanesOf(cfg), cfg.boundaryMode, b, BottomCentre(b));
    if RawLane(cfg, b) != UNKNOWN {
      var i :| 0 <= i < |cfg.lanes| && RawLane(cfg, b) == LanesOf(cfg)[i].id;
      assert cfg.LaneIds()[i] == RawLane(cfg, b);
    }
  }

  lemma ObserveInLanes(cfg: Config, frame: int, d: Detection, tr: Track)
    requires cfg.Valid() && InLanes(cfg, tr)
    ensures InLanes(cfg, Observe(cfg, frame, d, tr))
  {
    RawLaneIsConfigured(cfg, d.box);
    StableWasVoted(cfg.smoothing, tr.smooth, RawLane(cfg, d.box));
  }

  lemma {:induction false} ObserveAllInLanes(cfg: Config, frame: int, dets: seq<Detection>, ts: Tracks)
    requires cfg.Valid() && AllInLanes(cfg, ts)
    ensures AllInLanes(cfg, ObserveAll(cfg, frame, dets, ts))
  {
    if dets != [] {
      var d, before := dets[|dets| - 1], ObserveAll(cfg, frame, dets[..|dets| - 1], ts);
      ObserveAllInLanes(cfg, frame, dets[..|dets| - 1], ts);
      ObserveInLanes(cfg, frame, d, Prior(frame, d, before));
    }
  }

  /** In every reachable state a stable lane is a configured lane. */
  lemma {:induction false} StableLanesAreConfigured(cfg: Config, frames: seq<Frame>)
    requires cfg.Valid()
    ensures AllInLanes(cfg, Run(cfg, frames).tracks)
  {
    if frames != [] {
      var f := frames[|frames| - 1];
      StableLanesAreConfigured(cfg, frames[..|frames| - 1]);
      ObserveAllInLanes(cfg, f.index, f.dets, Run(cfg, frames[..|frames| - 1]).tracks);
    }
  }

  function HeldBy(lane: Option<string>): seq<string> {
    if lane.Some? then [lane.value] else []
  }

  /** The stable lanes of the contributing tracks, one entry a track. */
  function LanesHeld(cfg: Config, frame: int, ids: seq<int>, states: map<int, Track>): seq<string>
    requires forall i :: i in ids ==> i in states
  {
    if ids == [] then []
    else
      var id := ids[|ids| - 1];
      LanesHeld(cfg, frame, ids[..|ids| - 1], states) + HeldBy(OccupiedLane(cfg, frame, states[id]))
  }

  /** The live tracks that count towards occupancy. */
  ghost function Contributors(cfg: Config, frame: int, ts: Tracks): set<int> {
    set t | t in ts.states && Contributes(cfg, frame, ts.states[t])
  }

  ghost function ContributorsAmong(cfg: Config, frame: int, ids: seq<int>, states: map<int, Track>): (r: set<int>)
    requires forall i :: i in ids ==> i in states
    ensures forall t :: t in r <==> t in ids && Contributes(cfg, frame, states[t])
  {
    if ids == [] then {}
    else
      var id := ids[|ids| - 1];
      ContributorsAmong(cfg, frame, ids[..|ids| - 1], states) + if Contributes(cfg, frame, states[id]) then {id} else {}
  }

  lemma {:induction false} OneLanePerContributor(cfg: Config, frame: int, ids: seq<int>, states: map<int, Track>)
    requires Distinct(ids) && forall i :: i in ids ==> i in states
    ensures |LanesHeld(cfg, frame, ids, states)| == |ContributorsAmong(cfg, frame, ids, states)|
  {
    if ids != [] {
      OneLanePerContributor(cfg, frame, ids[..|ids| - 1], states);
      assert ids[|ids| - 1] !in ids[..|ids| - 1];
    }
  }

  /** `occ` has a value for exactly the configured lanes, each the number of its entries in `held`, adding up to all. */
  ghost predicate CountsHeld(cfg: Config, occ: map<string, nat>, held: seq<string>) {
    && Sum(occ) == |held|
    && (forall l :: l in occ <==> l in cfg.LaneIds())
    && (forall l :: l in occ ==> occ[l] == Count(held, l))
  }

  lemma NoneHeld(cfg: Config, occ: map<string, nat>)
    requires occ == map l | l in cfg.LaneIds() :: 0
    ensures CountsHeld(cfg, occ, [])
  {
    SumZero(occ);
  }

  lemma OccupyCountsOne(cfg: Config, occ: map<string, nat>, held: seq<string>, lane: string)
    requires CountsHeld(cfg, occ, held) && lane in cfg.LaneIds()
    ensures CountsHeld(cfg, occ[lane := occ[lane] + 1], held + [lane])
  {
    var now := occ[lane := occ[lane] + 1];
    SumUpdate(occ, lane, occ[lane] + 1);
    forall l ensures l in now <==> l in cfg.LaneIds() {
    }
    forall l | l in now ensures now[l] == Count(held + [lane], l) {
      assert occ[l] == Count(held, l);
      CountPush(held, lane, l);
    }
  }

  lemma OccupyCounts(cfg: Config, occ: map<string, nat>, held: seq<string>, lane: Option<string>)
    requires CountsHeld(cfg, occ, held) && (lane.Some? ==> lane.value in cfg.LaneIds())
    ensures CountsHeld(cfg, Occupy(occ, lane), held + HeldBy(lane))
  {
    if lane.Some? {
      OccupyCountsOne(cfg, occ, held, lane.value);
    } else {
      assert held + HeldBy(lane) == held;
    }
  }

  lemma {:induction false} OccupancyCountsLanesHeld(cfg: Config, frame: int, ids: seq<int>, states: map<int, Track>)
    requires forall i :: i in ids ==> i in states && InLanes(cfg, states[i])
    ensures CountsHeld(cfg, OccupancyAll(cfg, frame, ids, states), LanesHeld(cfg, frame, ids, states))
  {
    if ids == [] {
      NoneHeld(cfg, OccupancyAll(cfg, frame, ids, states));
    } else {
      var front, id := ids[..|ids| - 1], ids[|ids| - 1];
      OccupancyCountsLanesHeld(cfg, frame, front, states);
      OccupyCounts(cfg, OccupancyAll(cfg, frame, front, states), LanesHeld(cfg, frame, front, states),
                   OccupiedLane(cfg, frame, states[id]));
    }
  }

  lemma ContributorsAmongAll(cfg: Config, frame: int, ts: Tracks)
    requires ts.Valid()
    ensures ContributorsAmong(cfg, frame, ts.ids, ts.states) == Contributors(cfg, frame, ts)
  {
    var among, all := ContributorsAmong(cfg, frame, ts.ids, ts.states), Contributors(cfg, frame, ts);
    forall t | t in among ensures t in all {
    }
    forall t | t in all ensures t in among {
    }
    assert among == all;
  }

  /** The occupancy values of a frame add up to exactly the live tracks that are old enough and in a stable lane. */
  lemma OccupancyIsConserved(cfg: Config, frames: seq<Frame>)
    requires cfg.Valid() && frames != []
    ensures var occ, ts, index := LastReport(cfg, frames).occupancy, Run(cfg, frames).tracks,
      frames[|frames| - 1].index;
      && Sum(occ) == |Contributors(cfg, index, ts)|
      && (forall l :: l in occ <==> l in cfg.LaneIds())
      && (forall l :: l in occ ==> occ[l] == Count(LanesHeld(cfg, index, ts.ids, ts.states), l))
  {
    var ts, index := Run(cfg, frames).tracks, frames[|frames| - 1].index;
    StableLanesAreConfigured(cfg, frames);
    OccupancyCountsLanesHeld(cfg, index, ts.ids, ts.states);
    OneLanePerContributor(cfg, index, ts.ids, ts.states);
    ContributorsAmongAll(cfg, index, ts);
  }
}

/** Occupancy read off the logs alone. */
module OccupancyLog {
  import opened Sequences
  import opened Configuration
  import opened LaneSmoothing
  import opened Tracking
  import opened Occupancy
  import opened CountingEngine
  import opened TrackLog
  import opened OccupancyConservation

  /** By its log the track is live, old enough at the last frame, and stable in `lane`; seen there or not. */
  ghost predicate Occupies(cfg: Config, frames: seq<Frame>, t: int, lane: string)
    requires cfg.Valid() && frames != []
  {
    var log := LogOf(cfg, frames, t);
    && log != []
    && frames[|frames| - 1].index - log[0].frame + 1 >= cfg.minTrackAge
    && StableOf(cfg.smoothing, RawVotes(cfg, log)) == Some(lane)
  }

  /** All ids that some frame lists. */
  function EverListed(frames: seq<Frame>): set<int> {
    if frames == [] then {} else EverListed(frames[..|frames| - 1]) + SeenIds(frames[|frames| - 1].dets)
  }

  lemma {:induction false} LoggedWasListed(cfg: Config, frames: seq<Frame>, t: int)
    requires LogOf(cfg, frames, t) != []
    ensures t in EverListed(frames)
  {
    var f := frames[|frames| - 1];
    SeenIdsAreDetected(f.dets, t);
    if DetectionOf(f.dets, t).None? {
      LoggedWasListed(cfg, frames[..|frames| - 1], t);
    }
  }

  ghost function Occupants(cfg: Config, frames: seq<Frame>, lane: string): (r: set<int>)
    requires cfg.Valid() && frames != []
    ensures forall t :: t in r <==> Occupies(cfg, frames, t, lane)
  {
    var r := set t | t in EverListed(frames) && Occupies(cfg, frames, t, lane);
    assert forall t :: Occupies(cfg, frames, t, lane) ==> t in r by {
      forall t | Occupies(cfg, frames, t, lane) ensures t in r {
        LoggedWasListed(cfg, frames, t);
      }
    }
    r
  }

  ghost function HeldIn(cfg: Config, frame: int, ids: seq<int>, states: map<int, Track>, lane: string): (r: set<int>)
    requires forall i :: i in ids ==> i in states
    ensures forall t :: t in r <==> t in ids && OccupiedLane(cfg, frame, states[t]) == Some(lane)
  {
    if ids == [] then {}
    else
      var id := ids[|ids| - 1];
      HeldIn(cfg, frame, ids[..|ids| - 1], states, lane)
      + if OccupiedLane(cfg, frame, states[id]) == Some(lane) then {id} else {}
  }

  lemma {:induction false} HeldAreCounted(cfg: Config, frame: int, ids: seq<int>, states: map<int, Track>, lane: string)
    requires Distinct(ids) && forall i :: i in ids ==> i in states
    ensures Count(LanesHeld(cfg, frame, ids, states), lane) == |HeldIn(cfg, frame, ids, states, lane)|
  {
    if ids != [] {
      var front, id := ids[..|ids| - 1], ids[|ids| - 1];
      HeldAreCounted(cfg, frame, front, states, lane);
      assert id !in front;
      OneMoreHeld(LanesHeld(cfg, frame, front, states), OccupiedLane(cfg, frame, states[id]), lane);
    }
  }

  lemma OneMoreHeld(held: seq<string>, more: Option<string>, lane: string)
    ensures Count(held + HeldBy(more), lane) == Count(held, lane) + if more == Some(lane) then 1 else 0
  {
    if more.Some? {
      CountPush(held, more.value, lane);
    } else {
      assert held + HeldBy(more) == held;
    }
  }

  lemma HoldsIffOccupies(cfg: Config, frames: seq<Frame>, t: int, lane: string)
    requires cfg.Valid() && WellFormed(frames) && frames != []
    ensures var states, index := Run(cfg, frames).tracks.states, frames[|frames| - 1].index;
      Occupies(cfg, frames, t, lane) <==> t in states && OccupiedLane(cfg, index, states[t]) == Some(lane)
  {
    TracksFollowLogs(cfg, frames, t);
  }

  lemma HoldersAreOccupants(cfg: Config, frames: seq<Frame>, lane: string)
    requires cfg.Valid() && WellFormed(frames) && frames != []
    ensures var ts, index := Run(cfg, frames).tracks, frames[|frames| - 1].index;
      HeldIn(cfg, index, ts.ids, ts.states, lane) == Occupants(cfg, frames, lane)
  {
    var ts, index := Run(cfg, frames).tracks, frames[|frames| - 1].index;
    var a, b := HeldIn(cfg, index, ts.ids, ts.states, lane), Occupants(cfg, frames, lane);
    forall t ensures t in a <==> t in b {
      HoldsIffOccupies(cfg, frames, t, lane);
    }
    forall t | t in a ensures t in b {
    }
    forall t | t in b ensures t in a {
    }
  }

  /**
   * The reported occupancy of a lane is the number of tracks whose logs are live, old enough and stable in it,
   * whether the last frame lists them or not.
   */
  lemma OccupancyIsOfLogs(cfg: Config, frames: seq<Frame>, lane: string)
    requires cfg.Valid() && WellFormed(frames) && frames != [] && lane in cfg.LaneIds()
    ensures lane in LastReport(cfg, frames).occupancy
    ensures LastReport(cfg, frames).occupancy[lane] == |Occupants(cfg, frames, lane)|
  {
    var ts, index := Run(cfg, frames).tracks, frames[|frames| - 1].index;
    OccupancyIsConserved(cfg, frames);
    HeldAreCounted(cfg, index, ts.ids, ts.states, lane);
    HoldersAreOccupants(cfg, frames, lane);
  }
}

/** Tallies, dedup set and reported events always agree; each stable segment pays for at most one count. */
module CountConservation {
  import opened Sequences
  import opened Sums
  import opened Configuration
  import opened Tracking
  import opened Counting
  import opened CountingEngine

  /** Every count event a run has reported, in order. */
  ghost function Emitted(cfg: Config, frames: seq<Frame>): seq<CountEvent>
    requires cfg.Valid()
  {
    if frames == [] then [] else Emitted(cfg, frames[..|frames| - 1]) + LastReport(cfg, frames).crossings
  }

  function BucketTotals(bucket: map<string, Tally>): map<string, nat> {
    map c | c in bucket :: bucket[c].Total()
  }

  /** `counts[lane]` summed over classes and directions. */
  ghost function LaneTotal(counts: Counts, lane: string): nat {
    if lane in counts then Sum(BucketTotals(counts[lane])) else 0
  }

  ghost function PairsIn(counted: set<(int, string)>, lane: string): set<(int, string)> {
    set p | p in counted && p.1 == lane
  }

  function EventsIn(events: seq<CountEvent>, lane: string): nat {
    if events == [] then 0
    else EventsIn(events[..|events| - 1], lane) + if events[|events| - 1].laneId == lane then 1 else 0
  }

  function Pair(e: CountEvent): (int, string) {
    (e.trackId, e.laneId)
  }

  ghost function ReportedPairs(emitted: seq<CountEvent>): (r: set<(int, string)>)
    ensures forall e :: e in emitted ==> Pair(e) in r
  {
    if emitted == [] then {} else ReportedPairs(emitted[..|emitted| - 1]) + {Pair(emitted[|emitted| - 1])}
  }

  /** The tally of a lane, the events in it and the counted pairs with it are one number. */
  ghost predicate Agree(counts: Counts, counted: set<(int, string)>, emitted: seq<CountEvent>, l: string) {
    LaneTotal(counts, l) == EventsIn(emitted, l) == |PairsIn(counted, l)|
  }

  /** No pair is reported twice, the dedup set holds exactly the reported pairs, and every tally agrees with both. */
  ghost predicate Balanced(c: Counter, emitted: seq<CountEvent>) {
    && (forall i, j :: 0 <= i < j < |emitted| ==> Pair(emitted[i]) != Pair(emitted[j]))
    && ReportedPairs(emitted) == c.counted
    && (forall l :: Agree(c.counts, c.counted, emitted, l))
  }

  lemma BucketAddsOne(bucket: map<string, Tally>, className: string, t: Tally)
    requires t.Total() == (if className in bucket then bucket[className].Total() else 0) + 1
    ensures Sum(BucketTotals(bucket[className := t])) == Sum(BucketTotals(bucket)) + 1
  {
    assert BucketTotals(bucket[className := t]) == BucketTotals(bucket)[className := t.Total()];
    SumUpdate(BucketTotals(bucket), className, t.Total());
  }

  lemma BumpAddsOne(counts: Counts, lane: string, className: string, d: Direction, l: string)
    ensures LaneTotal(Bump(counts, lane, className, d), l) == LaneTotal(counts, l) + if l == lane then 1 else 0
  {
    if l == lane {
      var bucket := if lane in counts then counts[lane] else map[];
      var after := Bump(counts, lane, className, d)[lane];
      BucketAddsOne(bucket, className, after[className]);
      if lane !in counts {
        SumZero(BucketTotals(bucket));
      }
    }
  }

  lemma PairsInPush(counted: set<(int, string)>, p: (int, string), l: string)
    requires p !in counted
    ensures |PairsIn(counted + {p}, l)| == |PairsIn(counted, l)| + if p.1 == l then 1 else 0
  {
    assert PairsIn(counted + {p}, l) == PairsIn(counted, l) + if p.1 == l then {p} else {};
  }

  lemma EventsPush(emitted: seq<CountEvent>, e: CountEvent, l: string)
    ensures EventsIn(emitted + [e], l) == EventsIn(emitted, l) + if e.laneId == l then 1 else 0
    ensures ReportedPairs(emitted + [e]) == ReportedPairs(emitted) + {Pair(e)}
  {
    assert (emitted + [e])[..|emitted|] == emitted;
  }

  /** One event more: its pair is new, and its lane's tally goes up. */
  lemma EventBalanced(c: Counter, emitted: seq<CountEvent>, e: CountEvent, now: Counter)
    requires Balanced(c, emitted) && Pair(e) !in c.counted
    requires now.counted == c.counted + {Pair(e)} && now.counts == Bump(c.counts, e.laneId, e.className, e.direction)
    ensures Balanced(now, emitted + [e])
  {
    EventsPush(emitted, e, e.laneId);
    forall l ensures Agree(now.counts, now.counted, emitted + [e], l) {
      assert Agree(c.counts, c.counted, emitted, l);
      EventsPush(emitted, e, l);
      BumpAddsOne(c.counts, e.laneId, e.className, e.direction, l);
      PairsInPush(c.counted, Pair(e), l);
    }
  }

  lemma CountTrackBalanced(cfg: Config, frame: int, id: int, tr: Track, c: Counter, emitted: seq<CountEvent>)
    requires Balanced(c, emitted)
    ensures var now := CountTrack(cfg, frame, id, tr, c); Balanced(now.counter, emitted + now.events)
  {
    var now := CountTrack(cfg, frame, id, tr, c);
    if now.events == [] {
      assert emitted + now.events == emitted;
    } else {
      assert now.events == [now.events[0]];
      EventBalanced(c, emitted, now.events[0], now.counter);
    }
  }

  lemma {:induction false} CountTracksBalanced(
    cfg: Config, frame: int, ids: seq<int>, states: map<int, Track>, c: Counter, emitted: seq<CountEvent>)
    requires (forall i :: i in ids ==> i in states) && Balanced(c, emitted)
    ensures var r := CountTracks(cfg, frame, ids, states, c); Balanced(r.counter, emitted + r.events)
  {
    if ids == [] {
      assert emitted + [] == emitted;
    } else {
      var front, id := ids[..|ids| - 1], ids[|ids| - 1];
      var before := CountTracks(cfg, frame, front, states, c);
      CountTracksBalanced(cfg, frame, front, states, c, emitted);
      CountTrackBalanced(cfg, frame, id, states[id], before.counter, emitted + before.events);
      ConcatAssociates(emitted, before.events, CountTrack(cfg, frame, id, states[id], before.counter).events);
    }
  }

  lemma NewCounterBalanced(cfg: Config)
    ensures Balanced(NewCounter(cfg), [])
  {
    forall l ensures Agree(NewCounts(cfg), {}, [], l) {
      if l in NewCounts(cfg) {
        SumZero(BucketTotals(NewCounts(cfg)[l]));
      }
      assert PairsIn({}, l) == {};
    }
  }

  /** Tally conservation and at most one count per (track, lane), over every run. */
  lemma {:induction false} TalliesAreConserved(cfg: Config, frames: seq<Frame>)
    requires cfg.Valid()
    ensures Balanced(Run(cfg, frames).counter, Emitted(cfg, frames))
  {
    if frames == [] {
      NewCounterBalanced(cfg);
    } else {
      var front, f := frames[..|frames| - 1], frames[|frames| - 1];
      TalliesAreConserved(cfg, front);
      var s := Run(cfg, front);
      var ts := TracksAfter(cfg, f, s);
      CountTracksBalanced(cfg, f.index, ts.ids, ts.states, s.counter, Emitted(cfg, front));
    }
  }
}

/** Every single tally is the number of events with its lane, class and direction. */
module TallyBooks {
  import opened Sequences
  import opened Configuration
  import opened Tracking
  import opened Counting
  import opened CountingEngine
  import opened CountConservation

  function TallyAt(counts: Counts, lane: string, className: string, d: Direction): nat {
    var t := ClassBucket(counts, lane, className);
    if d.Forward? then t.forward else t.backward
  }

  function EventsWith(events: seq<CountEvent>, lane: string, className: string, d: Direction): nat {
    if events == [] then 0
    else
      var e := events[|events| - 1];
      EventsWith(events[..|events| - 1], lane, className, d)
      + if e.laneId == lane && e.className == className && e.direction == d then 1 else 0
  }

  /** The counts have a place for this lane and class. */
  predicate HasPlace(counts: Counts, lane: string, className: string) {
    lane in counts && className in counts[lane]
  }

  lemma {:induction false} CountTracksKeepPlaces(
    cfg: Config, frame: int, ids: seq<int>, states: map<int, Track>, c: Counter, lane: string, className: string)
    requires (forall i :: i in ids ==> i in states) && HasPlace(c.counts, lane, className)
    ensures HasPlace(CountTracks(cfg, frame, ids, states, c).counter.counts, lane, className)
  {
    if ids != [] {
      CountTracksKeepPlaces(cfg, frame, ids[..|ids| - 1], states, c, lane, className);
    }
  }

  /** From the start and after every run, each named lane has a tally for each allowed class, counted or not. */
  lemma {:induction false} AllowedClassesHaveTallies(
    cfg: Config, frames: seq<Frame>, lane: string, className: string)
    requires cfg.Valid() && lane in cfg.LaneIds() && lane != "" && className in cfg.allowedClasses
    ensures HasPlace(Run(cfg, frames).counter.counts, lane, className)
  {
    if frames != [] {
      var front, f := frames[..|frames| - 1], frames[|frames| - 1];
      AllowedClassesHaveTallies(cfg, front, lane, className);
      var s := Run(cfg, front);
      var ts := TracksAfter(cfg, f, s);
      CountTracksKeepPlaces(cfg, f.index, ts.ids, ts.states, s.counter, lane, className);
    }
  }

  lemma BumpsOneTally(counts: Counts, lane: string, className: string, dir: Direction, l: string, k: string,
      d: Direction)
    ensures TallyAt(Bump(counts, lane, className, dir), l, k, d)
      == TallyAt(counts, l, k, d) + if lane == l && className == k && dir == d then 1 else 0
  {
  }

  lemma CountTrackTally(
    cfg: Config, frame: int, id: int, tr: Track, c: Counter, emitted: seq<CountEvent>, l: string, k: string,
      d: Direction)
    requires TallyAt(c.counts, l, k, d) == EventsWith(emitted, l, k, d)
    ensures var now := CountTrack(cfg, frame, id, tr, c);
      TallyAt(now.counter.counts, l, k, d) == EventsWith(emitted + now.events, l, k, d)
  {
    var now := CountTrack(cfg, frame, id, tr, c);
    if now.events == [] {
      assert emitted + now.events == emitted;
    } else {
      var e := now.events[0];
      BumpsOneTally(c.counts, e.laneId, e.className, e.direction, l, k, d);
      assert (emitted + [e])[..|emitted|] == emitted;
    }
  }

  lemma {:induction false} CountTracksTally(
    cfg: Config, frame: int, ids: seq<int>, states: map<int, Track>, c: Counter, emitted: seq<CountEvent>,
    l: string, k: string, d: Direction)
    requires (forall i :: i in ids ==> i in states) && TallyAt(c.counts, l, k, d) == EventsWith(emitted, l, k, d)
    ensures var r := CountTracks(cfg, frame, ids, states, c);
      TallyAt(r.counter.counts, l, k, d) == EventsWith(emitted + r.events, l, k, d)
  {
    if ids == [] {
      assert emitted + [] == emitted;
    } else {
      var front, id := ids[..|ids| - 1], ids[|ids| - 1];
      var before := CountTracks(cfg, frame, front, states, c);
      CountTracksTally(cfg, frame, front, states, c, emitted, l, k, d);
      CountTrackTally(cfg, frame, id, states[id], before.counter, emitted + before.events, l, k, d);
      ConcatAssociates(emitted, before.events, CountTrack(cfg, frame, id, states[id], before.counter).events);
    }
  }

  /**
   * Over every run `counts[lane][class][direction]` is the number of events reported with that lane, class and
   * direction.
   */
  lemma {:induction false} EachTallyIsItsEvents(cfg: Config, frames: seq<Frame>, l: string, k: string, d: Direction)
    requires cfg.Valid()
    ensures TallyAt(Run(cfg, frames).counter.counts, l, k, d) == EventsWith(Emitted(cfg, frames), l, k, d)
  {
    if frames != [] {
      var front, f := frames[..|frames| - 1], frames[|frames| - 1];
      EachTallyIsItsEvents(cfg, front, l, k, d);
      var s := Run(cfg, front);
      var ts := TracksAfter(cfg, f, s);
      CountTracksTally(cfg, f.index, ts.ids, ts.states, s.counter, Emitted(cfg, front), l, k, d);
    }
  }
}

/** Each stable segment of a track pays for at most one count. */
module AmortisedCounting {
  import opened Configuration
  import opened LaneSmoothing
  import opened Tracking
  import opened Counting
  import opened CountingEngine

  /** The detections of a frame that give a lane to a track without one. */
  ghost function Acquired(cfg: Config, frame: int, dets: seq<Detection>, ts: Tracks): nat
    requires cfg.Valid()
  {
    if dets == [] then 0
    else
      var d, before := dets[|dets| - 1], ObserveAll(cfg, frame, dets[..|dets| - 1], ts);
      var prior := Prior(frame, d, before);
      var after := Observe(cfg, frame, d, prior);
      Acquired(cfg, frame, dets[..|dets| - 1], ts)
      + if IsAcquisition(prior.smooth.stable, after.smooth.stable) then 1 else 0
  }

  /** The acquisitions of a whole run. */
  ghost function Acquisitions(cfg: Config, frames: seq<Frame>): nat
    requires cfg.Valid()
  {
    if frames == [] then 0
    else
      var front, f := frames[..|frames| - 1], frames[|frames| - 1];
      Acquisitions(cfg, front) + Acquired(cfg, f.index, f.dets, Run(cfg, front).tracks)
  }

  /** Every lane change the frames of a run reported, in order. */
  ghost function ReportedChanges(cfg: Config, frames: seq<Frame>): seq<LaneChange>
    requires cfg.Valid()
  {
    if frames == [] then []
    else ReportedChanges(cfg, frames[..|frames| - 1]) + LastReport(cfg, frames).changes
  }

  /** The live tracks whose current stable segment has not been counted. */
  ghost function Unpaid(states: map<int, Track>, counted: set<(int, string)>): set<int> {
    set t | t in states && states[t].smooth.stable.Some? && (t, states[t].smooth.stable.value) !in counted
  }

  lemma SubsetSize<T>(a: set<T>, b: set<T>)
    requires a <= b
    ensures |a| <= |b|
  {
    assert b == a + (b - a);
  }

  lemma ObserveStartsAtMostOne(cfg: Config, frame: int, d: Detection, ts: Tracks, counted: set<(int, string)>)
    requires cfg.Valid()
    ensures var prior := Prior(frame, d, ts);
      var after := Observe(cfg, frame, d, prior);
      |Unpaid(ObserveOne(cfg, frame, d, ts).states, counted)| <= |Unpaid(ts.states, counted)|
        + (if IsAcquisition(prior.smooth.stable, after.smooth.stable) then 1 else 0) + |ChangeOf(cfg, frame, d, ts)|
  {
    var prior := Prior(frame, d, ts);
    var after := Observe(cfg, frame, d, prior);
    UnpaidAfter(ts.states, d.trackId, prior, after, counted);
  }

  lemma UnpaidAfter(states: map<int, Track>, t: int, prior: Track, after: Track, counted: set<(int, string)>)
    requires t in states ==> states[t] == prior
    requires t !in states ==> prior.smooth.stable.None?
    ensures var before, now := Unpaid(states, counted), Unpaid(states[t := after], counted);
      if after.smooth.stable.Some? && after.smooth.stable != prior.smooth.stable
      then |now| <= |before| + 1
      else |now| <= |before|
  {
    var before, now := Unpaid(states, counted), Unpaid(states[t := after], counted);
    if after.smooth.stable.Some? && after.smooth.stable != prior.smooth.stable {
      forall i | i in now ensures i in before + {t} {
      }
      SubsetSize(now, before + {t});
    } else {
      forall i | i in now ensures i in before {
      }
      SubsetSize(now, before);
    }
  }

  lemma {:induction false} ObserveAllStarts(
    cfg: Config, frame: int, dets: seq<Detection>, ts: Tracks, counted: set<(int, string)>)
    requires cfg.Valid()
    ensures |Unpaid(ObserveAll(cfg, frame, dets, ts).states, counted)|
              <= |Unpaid(ts.states, counted)| + Acquired(cfg, frame, dets, ts) + |ChangesOf(cfg, frame, dets, ts)|
  {
    if dets != [] {
      var front := dets[..|dets| - 1];
      ObserveAllStarts(cfg, frame, front, ts, counted);
      ObserveStartsAtMostOne(cfg, frame, dets[|dets| - 1], ObserveAll(cfg, frame, front, ts), counted);
    }
  }

  /** Counting a track spends its unpaid segment. */
  lemma CountTrackPays(cfg: Config, frame: int, id: int, states: map<int, Track>, c: Counter)
    requires !cfg.countUnstableLane && id in states
    ensures var now := CountTrack(cfg, frame, id, states[id], c).counter;
      |now.counted| + |Unpaid(states, now.counted)| <= |c.counted| + |Unpaid(states, c.counted)|
  {
    var now := CountTrack(cfg, frame, id, states[id], c).counter;
    if now.counted != c.counted {
      var before, after := Unpaid(states, c.counted), Unpaid(states, now.counted);
      assert id in before;
      forall t | t in after ensures t in before - {id} {
      }
      SubsetSize(after, before - {id});
    }
  }

  lemma {:induction false} CountTracksPays(cfg: Config, frame: int, ids: seq<int>, states: map<int, Track>, c: Counter)
    requires !cfg.countUnstableLane && forall i :: i in ids ==> i in states
    ensures var now := CountTracks(cfg, frame, ids, states, c).counter;
      |now.counted| + |Unpaid(states, now.counted)| <= |c.counted| + |Unpaid(states, c.counted)|
  {
    if ids != [] {
      var front := ids[..|ids| - 1];
      CountTracksPays(cfg, frame, front, states, c);
      CountTrackPays(cfg, frame, ids[|ids| - 1], states, CountTracks(cfg, frame, front, states, c).counter);
    }
  }

  lemma ExpiryKeepsUnpaid(cfg: Config, frame: int, seen: set<int>, ts: Tracks, counted: set<(int, string)>)
    ensures |Unpaid(Expire(cfg, frame, seen, ts).states, counted)| <= |Unpaid(ts.states, counted)|
  {
    var after, before := Unpaid(Expire(cfg, frame, seen, ts).states, counted), Unpaid(ts.states, counted);
    forall t | t in after ensures t in before {
    }
    SubsetSize(after, before);
  }

  /** Counted pairs, and the segments still to be counted, never exceed acquisitions plus reported lane changes. */
  lemma {:induction false} CountsArePaidFor(cfg: Config, frames: seq<Frame>)
    requires cfg.Valid() && !cfg.countUnstableLane
    ensures var s := Run(cfg, frames);
      |s.counter.counted| + |Unpaid(s.tracks.states, s.counter.counted)|
        <= Acquisitions(cfg, frames) + |ReportedChanges(cfg, frames)|
  {
    if frames == [] {
      assert Unpaid(map[], {}) == {};
    } else {
      var front, f := frames[..|frames| - 1], frames[|frames| - 1];
      CountsArePaidFor(cfg, front);
      var s := Run(cfg, front);
      var counted := s.counter.counted;
      ObserveAllStarts(cfg, f.index, f.dets, s.tracks, counted);
      ExpiryKeepsUnpaid(cfg, f.index, SeenIds(f.dets), ObserveAll(cfg, f.index, f.dets, s.tracks), counted);
      var ts := TracksAfter(cfg, f, s);
      CountTracksPays(cfg, f.index, ts.ids, ts.states, s.counter);
    }
  }

  /** Over any run, the counted pairs are at most the acquisitions plus the lane changes the frames reported. */
  lemma CountsAreBoundedByChanges(cfg: Config, frames: seq<Frame>)
    requires cfg.Valid() && !cfg.countUnstableLane
    ensures |Run(cfg, frames).counter.counted| <= Acquisitions(cfg, frames) + |ReportedChanges(cfg, frames)|
  {
    CountsArePaidFor(cfg, frames);
  }
}

/** The counter misses nothing that occupancy or the lane-change report shows. */
module CountCompleteness {
  import opened Sequences
  import opened Configuration
  import opened Tracking
  import opened Counting
  import opened Occupancy
  import opened CountingEngine
  import opened TrackLog
  import opened CountLog
  import opened OccupancyConservation

  /** Every track seen in the last frame that contributes to occupancy has been counted in its stable lane. */
  lemma ContributorsAreCounted(cfg: Config, frames: seq<Frame>, t: int)
    requires cfg.Valid() && cfg.NamedLanes() && frames != []
    requires var ts, f := Run(cfg, frames).tracks, frames[|frames| - 1];
      t in ts.states && ts.states[t].lastSeen == f.index && Contributes(cfg, f.index, ts.states[t])
    ensures var s := Run(cfg, frames); (t, s.tracks.states[t].smooth.stable.value) in s.counter.counted
  {
    var front, f := frames[..|frames| - 1], frames[|frames| - 1];
    var s := Run(cfg, front);
    var ts := TracksAfter(cfg, f, s);
    var lane := ts.states[t].smooth.stable.value;
    StableLanesAreConfigured(cfg, frames);
    CountTracksProjects(cfg, f.index, ts.ids, ts.states, s.counter, t, lane);
  }

  lemma {:induction false} ChangesMatchStates(cfg: Config, frame: int, dets: seq<Detection>, ts: Tracks, c: LaneChange)
    requires cfg.Valid() && DistinctIds(dets) && c in ChangesOf(cfg, frame, dets, ts)
    ensures var after := ObserveAll(cfg, frame, dets, ts);
      && c.trackId in SeenIds(dets) && c.trackId in after.states
      && after.states[c.trackId].lastSeen == frame
      && after.states[c.trackId].smooth.stable == Some(c.current)
  {
    var front, d := dets[..|dets| - 1], dets[|dets| - 1];
    var before := ObserveAll(cfg, frame, front, ts);
    if c in ChangesOf(cfg, frame, front, ts) {
      ChangesMatchStates(cfg, frame, front, ts, c);
      SeenIdsAreDetected(front, c.trackId);
      assert d.trackId != c.trackId;
    } else {
      assert c in ChangeOf(cfg, frame, d, before);
    }
  }

  /** So has the target lane of every lane change reported in the last frame for a track of minimum age. */
  lemma ChangeTargetsAreCounted(cfg: Config, frames: seq<Frame>, c: LaneChange)
    requires cfg.Valid() && cfg.NamedLanes() && WellFormed(frames) && frames != []
    requires c in LastReport(cfg, frames).changes
    ensures var s, f := Run(cfg, frames), frames[|frames| - 1];
      && c.trackId in s.tracks.states
      && (OldEnough(cfg, f.index, s.tracks.states[c.trackId]) ==> (c.trackId, c.current) in s.counter.counted)
  {
    var front, f := frames[..|frames| - 1], frames[|frames| - 1];
    ChangesMatchStates(cfg, f.index, f.dets, Run(cfg, front).tracks, c);
    if OldEnough(cfg, f.index, Run(cfg, frames).tracks.states[c.trackId]) {
      ContributorsAreCounted(cfg, frames, c.trackId);
    }
  }
}

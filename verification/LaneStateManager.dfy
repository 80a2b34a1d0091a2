/** Track lifecycles: what one frame does to the set of tracked objects. */
module Tracking {
  import opened Sequences
  import opened Geometry
  import opened Configuration
  import opened LaneSmoothing
  import opened LaneAssignment

  datatype Detection = Detection(trackId: int, className: string, confidence: real, box: Box)

  /** The value of a `TrackState`; the box is absent until the first observation is stored. */
  datatype Track = Track(
    className: string, firstSeen: int, lastSeen: int, box: Option<Box>, confidence: real, smooth: Smooth)

  /** The track dictionary: ids in insertion order, and the state of each. */
  datatype Tracks = Tracks(ids: seq<int>, states: map<int, Track>) {
    ghost predicate Valid() {
      Distinct(ids) && forall i :: i in ids <==> i in states
    }
  }

  const NO_TRACKS := Tracks([], map[])

  datatype LaneChange = LaneChange(frame: int, trackId: int, className: string, previous: string, current: string)

  function NewTrack(className: string, frame: int): Track {
    Track(className, frame, frame, None, 0.0, FRESH)
  }

  ghost function Observe(cfg: Config, frame: int, d: Detection, tr: Track): Track
    requires cfg.Valid()
  {
    tr.(lastSeen := frame, box := Some(d.box), confidence := d.confidence,
        smooth := Vote(cfg.smoothing, tr.smooth, RawLane(cfg, d.box)))
  }

  /** The state a detection is observed into: the stored one, or a new incarnation. */
  function Prior(frame: int, d: Detection, ts: Tracks): Track {
    if d.trackId in ts.states then ts.states[d.trackId] else NewTrack(d.className, frame)
  }

  ghost function ObserveOne(cfg: Config, frame: int, d: Detection, ts: Tracks): Tracks
    requires cfg.Valid()
  {
    Tracks(if d.trackId in ts.states then ts.ids else ts.ids + [d.trackId],
           ts.states[d.trackId := Observe(cfg, frame, d, Prior(frame, d, ts))])
  }

  function ReportChange(frame: int, d: Detection, before: Option<string>, after: Option<string>): seq<LaneChange> {
    if IsChange(before, after)
    then [LaneChange(frame, d.trackId, d.className, before.value, after.value)]
    else []
  }

  ghost function ChangeOf(cfg: Config, frame: int, d: Detection, ts: Tracks): seq<LaneChange>
    requires cfg.Valid()
  {
    var prior := Prior(frame, d, ts);
    ReportChange(frame, d, prior.smooth.stable, Observe(cfg, frame, d, prior).smooth.stable)
  }

  ghost function ObserveAll(cfg: Config, frame: int, dets: seq<Detection>, ts: Tracks): Tracks
    requires cfg.Valid()
  {
    if dets == [] then ts
    else ObserveOne(cfg, frame, dets[|dets| - 1], ObserveAll(cfg, frame, dets[..|dets| - 1], ts))
  }

  ghost function ChangesOf(cfg: Config, frame: int, dets: seq<Detection>, ts: Tracks): seq<LaneChange>
    requires cfg.Valid()
  {
    if dets == [] then []
    else
      var earlier := dets[..|dets| - 1];
      ChangesOf(cfg, frame, earlier, ts) + ChangeOf(cfg, frame, dets[|dets| - 1], ObserveAll(cfg, frame, earlier, ts))
  }

  lemma ObserveAllPush(cfg: Config, frame: int, dets: seq<Detection>, d: Detection, ts: Tracks)
    requires cfg.Valid()
    ensures var earlier := ObserveAll(cfg, frame, dets, ts);
      && ObserveAll(cfg, frame, dets + [d], ts) == ObserveOne(cfg, frame, d, earlier)
      && ChangesOf(cfg, frame, dets + [d], ts) == ChangesOf(cfg, frame, dets, ts) + ChangeOf(cfg, frame, d, earlier)
  {
    assert (dets + [d])[..|dets|] == dets;
  }

  function SeenIds(dets: seq<Detection>): set<int> {
    if dets == [] then {} else SeenIds(dets[..|dets| - 1]) + {dets[|dets| - 1].trackId}
  }

  lemma SeenIdsPush(dets: seq<Detection>, i: nat)
    requires i < |dets|
    ensures SeenIds(dets[..i + 1]) == SeenIds(dets[..i]) + {dets[i].trackId}
  {
    assert dets[..i + 1][..i] == dets[..i];
  }

  /** Only a track absent from a processed frame can expire, and only past the timeout. */
  predicate Stale(cfg: Config, frame: int, seen: set<int>, id: int, lastSeen: int) {
    id !in seen && frame - lastSeen > cfg.trackTimeout
  }

  function IdsIn(ids: seq<int>): (r: set<int>)
    ensures forall i :: i in r <==> i in ids
  {
    if ids == [] then {} else IdsIn(ids[..|ids| - 1]) + {ids[|ids| - 1]}
  }

  function Without(ids: seq<int>, gone: set<int>): (r: seq<int>)
    ensures forall i :: i in r <==> i in ids && i !in gone
  {
    if ids == [] then []
    else Without(ids[..|ids| - 1], gone) + if ids[|ids| - 1] in gone then [] else [ids[|ids| - 1]]
  }

  function StaleIds(cfg: Config, frame: int, seen: set<int>, ts: Tracks): set<int> {
    set i | i in ts.states && Stale(cfg, frame, seen, i, ts.states[i].lastSeen)
  }

  function Expire(cfg: Config, frame: int, seen: set<int>, ts: Tracks): Tracks {
    var gone := StaleIds(cfg, frame, seen, ts);
    Tracks(Without(ts.ids, gone), ts.states - gone)
  }

  /** The whole of `LaneStateManager.update` on the track dictionary. */
  ghost function UpdateTracks(cfg: Config, frame: int, dets: seq<Detection>, ts: Tracks): Tracks
    requires cfg.Valid()
  {
    Expire(cfg, frame, SeenIds(dets), ObserveAll(cfg, frame, dets, ts))
  }

  lemma {:induction false} WithoutTwice(ids: seq<int>, a: set<int>, b: set<int>)
    ensures Without(Without(ids, a), b) == Without(ids, a + b)
  {
    if ids != [] {
      var rest, last := ids[..|ids| - 1], ids[|ids| - 1];
      WithoutTwice(rest, a, b);
      if last !in a {
        var kept := Without(rest, a);
        assert (kept + [last])[..|kept|] == kept;
      } else {
        assert Without(ids, a) == Without(rest, a);
      }
    }
  }

  /** Finding or creating the track of a detection and then recording the detection in it is observing it. */
  lemma ObservedInto(cfg: Config, frame: int, d: Detection, ts: Tracks, recorded: Track)
    requires cfg.Valid() && recorded == Observe(cfg, frame, d, FoundIn(frame, d, ts).states[d.trackId])
    ensures var found := FoundIn(frame, d, ts);
      && ObserveOne(cfg, frame, d, ts) == found.(states := found.states[d.trackId := recorded])
      && ChangeOf(cfg, frame, d, ts)
           == ReportChange(frame, d, found.states[d.trackId].smooth.stable, recorded.smooth.stable)
  {
    WrittenTwice(ts.states, d.trackId, Prior(frame, d, ts), recorded);
  }

  /** The tracks with an entry for this detection. */
  function FoundIn(frame: int, d: Detection, ts: Tracks): Tracks {
    Tracks(if d.trackId in ts.states then ts.ids else ts.ids + [d.trackId],
           ts.states[d.trackId := Prior(frame, d, ts)])
  }

  lemma WrittenTwice<V>(m: map<int, V>, k: int, a: V, b: V)
    ensures m[k := a][k := b] == m[k := b]
  {
  }

  lemma MinusTwice<V>(m: map<int, V>, a: set<int>, b: set<int>)
    ensures m - a - b == m - (a + b)
  {
    assert (m - a - b).Keys == (m - (a + b)).Keys;
  }

  lemma SameIds(ids: seq<int>, gone: set<int>)
    requires forall i :: i in ids <==> i in gone
    ensures IdsIn(ids) == gone
  {
    forall i | i in IdsIn(ids) ensures i in gone {
    }
    forall i | i in gone ensures i in IdsIn(ids) {
    }
  }

  lemma DeleteNext<V>(ids: seq<int>, m: map<int, V>, dead: seq<int>, k: nat)
    requires k < |dead|
    ensures Without(Without(ids, IdsIn(dead[..k])), {dead[k]}) == Without(ids, IdsIn(dead[..k + 1]))
    ensures m - IdsIn(dead[..k]) - {dead[k]} == m - IdsIn(dead[..k + 1])
  {
    assert dead[..k + 1][..k] == dead[..k];
    WithoutTwice(ids, IdsIn(dead[..k]), {dead[k]});
    MinusTwice(m, IdsIn(dead[..k]), {dead[k]});
  }

  lemma {:induction false} WithoutNothing(ids: seq<int>)
    ensures Without(ids, {}) == ids
  {
    if ids != [] {
      WithoutNothing(ids[..|ids| - 1]);
      assert ids == ids[..|ids| - 1] + [ids[|ids| - 1]];
    }
  }

  lemma {:induction false} WithoutDistinct(ids: seq<int>, gone: set<int>)
    requires Distinct(ids)
    ensures Distinct(Without(ids, gone))
  {
    if ids != [] {
      WithoutDistinct(ids[..|ids| - 1], gone);
      assert ids[|ids| - 1] !in ids[..|ids| - 1];
    }
  }

  lemma ObserveOneValid(cfg: Config, frame: int, d: Detection, ts: Tracks)
    requires cfg.Valid() && ts.Valid()
    ensures ObserveOne(cfg, frame, d, ts).Valid()
  {
  }

  lemma {:induction false} ObserveAllValid(cfg: Config, frame: int, dets: seq<Detection>, ts: Tracks)
    requires cfg.Valid() && ts.Valid()
    ensures ObserveAll(cfg, frame, dets, ts).Valid()
  {
    if dets != [] {
      ObserveAllValid(cfg, frame, dets[..|dets| - 1], ts);
      ObserveOneValid(cfg, frame, dets[|dets| - 1], ObserveAll(cfg, frame, dets[..|dets| - 1], ts));
    }
  }

  lemma UpdateTracksValid(cfg: Config, frame: int, dets: seq<Detection>, ts: Tracks)
    requires cfg.Valid() && ts.Valid()
    ensures UpdateTracks(cfg, frame, dets, ts).Valid()
  {
    ObserveAllValid(cfg, frame, dets, ts);
    var observed := ObserveAll(cfg, frame, dets, ts);
    WithoutDistinct(observed.ids, StaleIds(cfg, frame, SeenIds(dets), observed));
  }
}

/** The mutable track store. */
module TrackStore {
  import opened Sequences
  import opened Geometry
  import opened Configuration
  import opened LaneSmoothing
  import opened LaneAssignment
  import opened Tracking

  class TrackState {
    const trackId: int
    const className: string
    const firstSeen: int
    var lastSeen: int
    var box: Option<Box>
    var confidence: real
    var rawHistory: seq<string>
    var stableLane: Option<string>
    var unknownCount: nat

    constructor (trackId: int, className: string, frame: int)
      ensures this.trackId == trackId && View() == NewTrack(className, frame)
    {
      this.trackId, this.className, firstSeen := trackId, className, frame;
      lastSeen, box, confidence := frame, None, 0.0;
      rawHistory, stableLane, unknownCount := [], None, 0;
    }

    function View(): Track
      reads this
    {
      Track(className, firstSeen, lastSeen, box, confidence, Smooth(rawHistory, stableLane, unknownCount))
    }

    predicate IsCounted(frame: int, minAge: int)
      reads this
    {
      frame - firstSeen + 1 >= minAge && stableLane.Some?
    }
  }

  /** Tally of the known votes in `history`. */
  ghost predicate Tallies(counts: map<string, nat>, history: seq<string>) {
    && (forall x :: x in counts <==> x in history && x != UNKNOWN)
    && forall x :: x in counts ==> counts[x] == Count(history, x)
  }

  method TallyVotes(history: seq<string>) returns (counts: map<string, nat>)
    ensures Tallies(counts, history)
  {
    counts := map[];
    for i := 0 to |history|
      invariant Tallies(counts, history[..i])
    {
      var x := history[i];
      assert history[..i + 1] == history[..i] + [x];
      forall y ensures Count(history[..i + 1], y) == Count(history[..i], y) + if y == x then 1 else 0 {
        CountPush(history[..i], x, y);
      }
      if x != UNKNOWN {
        counts := counts[x := (if x in counts then counts[x] else 0) + 1];
      }
    }
    assert history[..|history|] == history;
  }

  method MaxCount(counts: map<string, nat>) returns (m: nat)
    requires counts != map[]
    ensures exists x :: x in counts && counts[x] == m
    ensures forall x :: x in counts ==> counts[x] <= m
  {
    var x :| x in counts;
    var rest := counts.Keys - {x};
    m := counts[x];
    while rest != {}
      invariant rest <= counts.Keys
      invariant exists x :: x in counts && counts[x] == m
      invariant forall x :: x in counts && x !in rest ==> counts[x] <= m
    {
      var y :| y in rest;
      if counts[y] > m {
        m := counts[y];
      }
      rest := rest - {y};
    }
  }

  /** The majority vote over a window: the most frequent known lane, when it is unique. */
  method MajorityVote(history: seq<string>) returns (mode: Option<string>)
    ensures mode == UniqueMode(history)
  {
    mode := None;
    var counts := TallyVotes(history);
    if counts != map[] {
      var maxCount := MaxCount(counts);
      var modes := set x | x in counts && counts[x] == maxCount;
      ModesAndUniqueMode(history, counts, maxCount, modes);
      if |modes| == 1 {
        var x :| x in modes;
        mode := Some(x);
      }
    }
  }

  lemma ModesAndUniqueMode(history: seq<string>, counts: map<string, nat>, maxCount: nat, modes: set<string>)
    requires Tallies(counts, history)
    requires exists x :: x in counts && counts[x] == maxCount
    requires forall x :: x in counts ==> counts[x] <= maxCount
    requires forall x :: x in modes <==> x in counts && counts[x] == maxCount
    ensures |modes| == 1 ==> forall x :: x in modes ==> UniqueMode(history) == Some(x)
    ensures |modes| != 1 ==> UniqueMode(history) == None
  {
    if UniqueMode(history).Some? {
      assert modes == {UniqueMode(history).value};
    }
    if |modes| == 1 {
      forall x | x in modes ensures UniqueMode(history) == Some(x) {
        OnlyElement(modes, x);
        UniqueModeIs(history, x);
      }
    }
  }

  lemma OnlyElement<T>(s: set<T>, x: T)
    requires |s| == 1 && x in s
    ensures s == {x}
  {
    assert s == {x} + (s - {x});
  }

  class LaneStateManager {
    const cfg: Config
    var ids: seq<int>
    var states: map<int, TrackState>
    var currentFrameEvents: seq<LaneChange>

    constructor (cfg: Config)
      ensures this.cfg == cfg && Valid() && View() == NO_TRACKS && states == map[]
    {
      this.cfg := cfg;
      ids, states, currentFrameEvents := [], map[], [];
      new;
      assert View().states == map[];
    }

    ghost predicate Valid()
      reads this`ids, this`states
    {
      && Distinct(ids)
      && (forall i :: i in ids <==> i in states)
      && forall i :: i in states ==> states[i].trackId == i
    }

    ghost function View(): (ts: Tracks)
      reads this`ids, this`states, states.Values
      ensures Valid() ==> ts.Valid()
    {
      Tracks(ids, map i | i in states :: states[i].View())
    }

    /** The smoothing step of one track for one raw vote. */
    method ApplyVote(state: TrackState, rawLane: string)
      requires cfg.Valid()
      modifies state
      ensures state.View() == old(state.View()).(smooth := Vote(cfg.smoothing, old(state.View()).smooth, rawLane))
    {
      state.rawHistory := state.rawHistory + [rawLane];
      if |state.rawHistory| > cfg.smoothing.window {
        state.rawHistory := state.rawHistory[1..];
      }
      if rawLane == UNKNOWN {
        state.unknownCount := state.unknownCount + 1;
        if state.unknownCount > cfg.smoothing.unknownTimeout {
          state.stableLane := None;
        }
      } else {
        state.unknownCount := 0;
        var c := cfg.smoothing.minConsecutive;
        if Unanimous(state.rawHistory, c) {
          state.stableLane := Some(state.rawHistory[|state.rawHistory| - c]);
        } else {
          var mode := MajorityVote(state.rawHistory);
          if mode.Some? {
            state.stableLane := mode;
          }
        }
      }
    }

    ghost predicate Uses(assigner: LaneAssigner)
      reads assigner
    {
      assigner.lanes == LanesOf(cfg) && assigner.boundaryMode == cfg.boundaryMode
    }

    /** The track of a detection, created on first sight. */
    method FindOrCreate(frame: int, d: Detection) returns (state: TrackState)
      requires Valid()
      modifies this`ids, this`states
      ensures Valid() && d.trackId in states && states[d.trackId] == state
      ensures fresh(states.Values - old(states.Values))
      ensures View() == FoundIn(frame, d, old(View()))
    {
      if d.trackId !in states {
        state := new TrackState(d.trackId, d.className, frame);
        ids, states := ids + [d.trackId], states[d.trackId := state];
      } else {
        state := states[d.trackId];
      }
      Reassemble(old(View()).states[d.trackId := state.View()]);
    }

    /** Store one observation in its track. */
    method Record(state: TrackState, frame: int, d: Detection, assigner: LaneAssigner) returns (change: seq<LaneChange>)
      requires cfg.Valid() && Uses(assigner)
      modifies state
      ensures state.View() == Observe(cfg, frame, d, old(state.View()))
      ensures change == ReportChange(frame, d, old(state.View()).smooth.stable, state.View().smooth.stable)
    {
      var rawLane := assigner.Assign(d.box);
      state.lastSeen, state.box, state.confidence := frame, Some(d.box), d.confidence;
      var previousStable := state.stableLane;
      ApplyVote(state, rawLane);
      change := ReportChange(frame, d, previousStable, state.stableLane);
    }

    /** One detection of the frame: find its track, store the observation, report a lane change. */
    method ObserveDetection(frame: int, d: Detection, assigner: LaneAssigner, ghost before: Tracks)
      requires Valid() && cfg.Valid() && Uses(assigner) && View() == before
      modifies this, states.Values
      ensures Valid() && View() == ObserveOne(cfg, frame, d, before)
      ensures currentFrameEvents == old(currentFrameEvents) + ChangeOf(cfg, frame, d, before)
      ensures fresh(states.Values - old(states.Values))
    {
      var state := FindOrCreate(frame, d);
      RecordIn(frame, d, assigner, before);
    }

    /** Store an observation in the track of its id, which was found or created on top of `before`. */
    method RecordIn(frame: int, d: Detection, assigner: LaneAssigner, ghost before: Tracks)
      requires Valid() && cfg.Valid() && Uses(assigner) && d.trackId in states
      requires View() == FoundIn(frame, d, before)
      modifies this`currentFrameEvents, states[d.trackId]
      ensures Valid() && View() == ObserveOne(cfg, frame, d, before)
      ensures currentFrameEvents == old(currentFrameEvents) + ChangeOf(cfg, frame, d, before)
    {
      ghost var found := View().states;
      var change := Record(states[d.trackId], frame, d, assigner);
      currentFrameEvents := currentFrameEvents + change;
      ghost var recorded := states[d.trackId].View();
      Reassemble(found[d.trackId := recorded]);
      ObservedInto(cfg, frame, d, before, recorded);
    }

    /** The view of the whole store from the views of its entries. */
    lemma Reassemble(m: map<int, Track>)
      requires forall i :: i in states <==> i in m
      requires forall i :: i in states ==> states[i].View() == m[i]
      ensures View().states == m
    {
      forall i | i in states ensures i in m {
      }
      forall i | i in m ensures i in states {
      }
      assert View().states.Keys == states.Keys == m.Keys;
      forall i | i in m ensures View().states[i] == m[i] {
      }
    }

    /** The ids of the tracks that were absent from this frame for longer than the timeout. */
    method CollectStale(frame: int, seen: set<int>) returns (dead: seq<int>)
      requires Valid()
      ensures IdsIn(dead) == StaleIds(cfg, frame, seen, View())
    {
      dead := [];
      for k := 0 to |ids|
        invariant forall i :: i in dead <==> i in ids[..k] && Stale(cfg, frame, seen, i, states[i].lastSeen)
      {
        var tid := ids[k];
        if tid !in seen {
          var framesMissing := frame - states[tid].lastSeen;
          if framesMissing > cfg.trackTimeout {
            dead := dead + [tid];
          }
        }
      }
      SameIds(dead, StaleIds(cfg, frame, seen, View()));
    }

    method Delete(dead: seq<int>)
      requires Valid()
      modifies this`ids, this`states
      ensures ids == Without(old(ids), IdsIn(dead)) && states == old(states) - IdsIn(dead)
    {
      ghost var ids0, states0 := ids, states;
      WithoutNothing(ids);
      for k := 0 to |dead|
        invariant ids == Without(ids0, IdsIn(dead[..k])) && states == states0 - IdsIn(dead[..k])
      {
        DeleteNext(ids0, states0, dead, k);
        states, ids := states - {dead[k]}, Without(ids, {dead[k]});
      }
      assert dead[..|dead|] == dead;
    }

    method DropStale(frame: int, seen: set<int>)
      requires Valid()
      modifies this`ids, this`states
      ensures Valid() && View() == Expire(cfg, frame, seen, old(View()))
      ensures states.Values <= old(states.Values)
    {
      var dead := CollectStale(frame, seen);
      Remove(dead);
    }

    /** Removes the ids with their states, and nothing else. */
    method Remove(dead: seq<int>)
      requires Valid()
      modifies this`ids, this`states
      ensures Valid()
      ensures View() == Tracks(Without(old(View()).ids, IdsIn(dead)), old(View()).states - IdsIn(dead))
      ensures states.Values <= old(states.Values)
    {
      ghost var before := View();
      WithoutDistinct(ids, IdsIn(dead));
      Delete(dead);
      Reassemble(before.states - IdsIn(dead));
    }

    /** Detection `i` of the frame, on top of the detections before it. */
    method ObserveNext(frame: int, dets: seq<Detection>, i: nat, assigner: LaneAssigner, ghost before: Tracks)
      requires Valid() && cfg.Valid() && Uses(assigner) && i < |dets|
      requires View() == ObserveAll(cfg, frame, dets[..i], before)
      requires currentFrameEvents == ChangesOf(cfg, frame, dets[..i], before)
      modifies this, states.Values
      ensures Valid() && View() == ObserveAll(cfg, frame, dets[..i + 1], before)
      ensures currentFrameEvents == ChangesOf(cfg, frame, dets[..i + 1], before)
      ensures fresh(states.Values - old(states.Values))
    {
      assert dets[..i + 1] == dets[..i] + [dets[i]];
      ObserveAllPush(cfg, frame, dets[..i], dets[i], before);
      ObserveDetection(frame, dets[i], assigner, View());
    }

    /** Process the detections of one frame in order. */
    method ObserveFrame(frame: int, dets: seq<Detection>, assigner: LaneAssigner) returns (seen: set<int>)
      requires Valid() && cfg.Valid() && Uses(assigner)
      modifies this, states.Values
      ensures Valid() && View() == ObserveAll(cfg, frame, dets, old(View()))
      ensures currentFrameEvents == ChangesOf(cfg, frame, dets, old(View()))
      ensures seen == SeenIds(dets)
      ensures fresh(states.Values - old(states.Values))
    {
      ghost var before := View();
      currentFrameEvents, seen := [], {};
      for i := 0 to |dets|
        invariant Valid() && seen == SeenIds(dets[..i])
        invariant View() == ObserveAll(cfg, frame, dets[..i], before)
        invariant currentFrameEvents == ChangesOf(cfg, frame, dets[..i], before)
        invariant fresh(states.Values - old(states.Values))
      {
        SeenIdsPush(dets, i);
        seen := seen + {dets[i].trackId};
        ObserveNext(frame, dets, i, assigner, before);
      }
      assert dets[..|dets|] == dets;
    }

    /** Process the detections of one frame, then expire stale tracks. */
    method Update(frame: int, dets: seq<Detection>, assigner: LaneAssigner) returns (events: seq<LaneChange>)
      requires Valid() && cfg.Valid() && Uses(assigner)
      modifies this, states.Values
      ensures Valid() && View() == UpdateTracks(cfg, frame, dets, old(View()))
      ensures events == currentFrameEvents == ChangesOf(cfg, frame, dets, old(View()))
      ensures fresh(states.Values - old(states.Values))
    {
      var seen := ObserveFrame(frame, dets, assigner);
      DropStale(frame, seen);
      events := currentFrameEvents;
    }
  }
}

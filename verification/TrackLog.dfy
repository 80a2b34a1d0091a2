/** The engine state as a function of unbounded per-track logs. */
module TrackLog {
  import opened Sequences
  import opened Configuration
  import opened LaneSmoothing
  import opened LaneAssignment
  import opened Tracking
  import opened CountingEngine

  datatype Observation = Observation(frame: int, det: Detection)

  function DetectionOf(dets: seq<Detection>, t: int): (d: Option<Detection>)
    ensures d.Some? ==> d.value in dets && d.value.trackId == t
    ensures d.None? ==> forall e :: e in dets ==> e.trackId != t
  {
    if dets == [] then None
    else if dets[|dets| - 1].trackId == t then Some(dets[|dets| - 1])
    else DetectionOf(dets[..|dets| - 1], t)
  }

  /** The observations of the current incarnation of `t`; empty when `t` is not live. */
  function LogOf(cfg: Config, frames: seq<Frame>, t: int): seq<Observation> {
    if frames == [] then []
    else
      var f, before := frames[|frames| - 1], LogOf(cfg, frames[..|frames| - 1], t);
      match DetectionOf(f.dets, t)
      case Some(d) => before + [Observation(f.index, d)]
      case None => if before == [] || f.index - before[|before| - 1].frame > cfg.trackTimeout then [] else before
  }

  function RawVotes(cfg: Config, log: seq<Observation>): (r: seq<string>)
    ensures |r| == |log|
    ensures forall i :: 0 <= i < |log| ==> r[i] == RawLane(cfg, log[i].det.box)
  {
    seq(|log|, i requires 0 <= i < |log| => RawLane(cfg, log[i].det.box))
  }

  /** The track state determined by an incarnation's log alone: no stored window, counter or fold. */
  ghost function TrackOf(cfg: Config, log: seq<Observation>): Track
    requires cfg.Valid() && log != []
  {
    var first, last, votes := log[0], log[|log| - 1], RawVotes(cfg, log);
    Track(first.det.className, first.frame, last.frame, Some(last.det.box), last.det.confidence,
          StateOf(cfg.smoothing, votes))
  }

  lemma {:induction false} ObserveAllProjects(cfg: Config, frame: int, dets: seq<Detection>, ts: Tracks, t: int)
    requires cfg.Valid() && DistinctIds(dets)
    ensures var after, d := ObserveAll(cfg, frame, dets, ts), DetectionOf(dets, t);
      && (d.Some? ==> t in after.states && after.states[t] == Observe(cfg, frame, d.value, Prior(frame, d.value, ts)))
      && (d.None? ==> (t in after.states <==> t in ts.states) && (t in ts.states ==> after.states[t] == ts.states[t]))
  {
    if dets != [] {
      ObserveAllProjects(cfg, frame, dets[..|dets| - 1], ts, t);
    }
  }

  lemma {:induction false} SeenIdsAreDetected(dets: seq<Detection>, t: int)
    ensures t in SeenIds(dets) <==> DetectionOf(dets, t).Some?
  {
    if dets != [] {
      SeenIdsAreDetected(dets[..|dets| - 1], t);
    }
  }

  lemma RawVotesPush(cfg: Config, log: seq<Observation>, o: Observation)
    ensures RawVotes(cfg, log + [o]) == RawVotes(cfg, log) + [RawLane(cfg, o.det.box)]
  {
  }

  lemma StateOfPush(cfg: Smoothing, votes: seq<string>, v: string)
    requires cfg.Valid()
    ensures StateOf(cfg, votes + [v]) == Vote(cfg, StateOf(cfg, votes), v)
  {
    assert (votes + [v])[..|votes|] == votes;
    OneMoreVote(cfg, votes + [v]);
  }

  lemma TrackOfPush(cfg: Config, log: seq<Observation>, o: Observation)
    requires cfg.Valid()
    ensures var prior := if log == [] then NewTrack(o.det.className, o.frame) else TrackOf(cfg, log);
      TrackOf(cfg, log + [o]) == Observe(cfg, o.frame, o.det, prior)
  {
    RawVotesPush(cfg, log, o);
    StateOfPush(cfg.smoothing, RawVotes(cfg, log), RawLane(cfg, o.det.box));
  }

  /** A track is live exactly when its log is not empty, and then its whole state is read off that log. */
  lemma {:induction false} TracksFollowLogs(cfg: Config, frames: seq<Frame>, t: int)
    requires cfg.Valid() && forall i :: 0 <= i < |frames| ==> DistinctIds(frames[i].dets)
    ensures var states, log := Run(cfg, frames).tracks.states, LogOf(cfg, frames, t);
      && (t in states <==> log != [])
      && (t in states ==> states[t] == TrackOf(cfg, log))
  {
    if frames != [] {
      var front, f := frames[..|frames| - 1], frames[|frames| - 1];
      TracksFollowLogs(cfg, front, t);
      var ts, before := Run(cfg, front).tracks, LogOf(cfg, front, t);
      ObserveAllProjects(cfg, f.index, f.dets, ts, t);
      SeenIdsAreDetected(f.dets, t);
      var d := DetectionOf(f.dets, t);
      if d.Some? {
        TrackOfPush(cfg, before, Observation(f.index, d.value));
      }
    }
  }

  /** The last observation of a live track is no later than the last frame, and in it exactly when it was seen there. */
  lemma {:induction false} LastSeenIsPast(cfg: Config, frames: seq<Frame>, t: int)
    requires WellFormed(frames) && LogOf(cfg, frames, t) != []
    ensures frames != []
    ensures var log, f := LogOf(cfg, frames, t), frames[|frames| - 1];
      && log[|log| - 1].frame <= f.index
      && (log[|log| - 1].frame == f.index <==> DetectionOf(f.dets, t).Some?)
  {
    var front, f := frames[..|frames| - 1], frames[|frames| - 1];
    if DetectionOf(f.dets, t).None? {
      LastSeenIsPast(cfg, front, t);
      assert front[|front| - 1] == frames[|front| - 1];
    }
  }

  /** The frame lists the track. */
  ghost predicate Lists(f: Frame, t: int) {
    exists d :: d in f.dets && d.trackId == t
  }

  /** Frame `i` is the last one that lists the track. */
  ghost predicate LastListedAt(frames: seq<Frame>, t: int, i: nat) {
    i < |frames| && Lists(frames[i], t) && forall j :: i < j < |frames| ==> !Lists(frames[j], t)
  }

  /** The track is listed in the last frame, or was last listed within the timeout. */
  ghost predicate StillRemembered(cfg: Config, frames: seq<Frame>, t: int, i: nat) {
    && LastListedAt(frames, t, i)
    && (i == |frames| - 1 || frames[|frames| - 1].index - frames[i].index <= cfg.trackTimeout)
  }

  lemma ListsIff(f: Frame, t: int)
    ensures Lists(f, t) <==> DetectionOf(f.dets, t).Some?
  {
  }

  lemma ListedBefore(frames: seq<Frame>, t: int, i: nat)
    requires frames != [] && !Lists(frames[|frames| - 1], t)
    ensures LastListedAt(frames, t, i) <==> LastListedAt(frames[..|frames| - 1], t, i)
  {
    var front := frames[..|frames| - 1];
    if LastListedAt(front, t, i) {
      assert forall j :: i < j < |front| ==> front[j] == frames[j];
    } else if LastListedAt(frames, t, i) {
      assert i < |front| && front[i] == frames[i];
      assert forall j :: i < j < |front| ==> front[j] == frames[j];
    }
  }

  lemma {:induction false} LogEndsAtLastListing(cfg: Config, frames: seq<Frame>, t: int) returns (i: nat)
    requires LogOf(cfg, frames, t) != []
    ensures StillRemembered(cfg, frames, t, i)
    ensures var log := LogOf(cfg, frames, t); log[|log| - 1].frame == frames[i].index
  {
    var front, f := frames[..|frames| - 1], frames[|frames| - 1];
    ListsIff(f, t);
    if Lists(f, t) {
      i := |front|;
    } else {
      i := LogEndsAtLastListing(cfg, front, t);
      ListedBefore(frames, t, i);
    }
  }

  lemma EarlierIsRemembered(cfg: Config, frames: seq<Frame>, t: int, i: nat)
    requires WellFormed(frames) && frames != [] && !Lists(frames[|frames| - 1], t) && StillRemembered(cfg, frames, t, i)
    ensures WellFormed(frames[..|frames| - 1]) && StillRemembered(cfg, frames[..|frames| - 1], t, i)
  {
    var front := frames[..|frames| - 1];
    ListedBefore(frames, t, i);
    assert front[|front| - 1] == frames[|front| - 1] && front[i] == frames[i];
  }

  lemma {:induction false} RememberedHasLog(cfg: Config, frames: seq<Frame>, t: int, i: nat)
    requires WellFormed(frames) && StillRemembered(cfg, frames, t, i)
    ensures LogOf(cfg, frames, t) != []
  {
    var front, f := frames[..|frames| - 1], frames[|frames| - 1];
    ListsIff(f, t);
    if !Lists(f, t) {
      EarlierIsRemembered(cfg, frames, t, i);
      RememberedHasLog(cfg, front, t, i);
      var k := LogEndsAtLastListing(cfg, front, t);
      OneLastListing(front, t, i, k);
    }
  }

  lemma OneLastListing(frames: seq<Frame>, t: int, i: nat, k: nat)
    requires LastListedAt(frames, t, i) && LastListedAt(frames, t, k)
    ensures i == k
  {
  }

  /** After every run a track is live exactly when the last frame lists it, or one within the timeout before did. */
  lemma LiveIffListedWithinTimeout(cfg: Config, frames: seq<Frame>, t: int)
    requires cfg.Valid() && WellFormed(frames)
    ensures t in Run(cfg, frames).tracks.states <==> exists i :: StillRemembered(cfg, frames, t, i)
  {
    TracksFollowLogs(cfg, frames, t);
    if LogOf(cfg, frames, t) != [] {
      var i := LogEndsAtLastListing(cfg, frames, t);
    }
    if i :| StillRemembered(cfg, frames, t, i) {
      RememberedHasLog(cfg, frames, t, i);
    }
  }
}

/** The lane changes that frames report, read off the logs, and the hysteresis of whole runs. */
module ChangeLog {
  import opened Sequences
  import opened Configuration
  import opened LaneSmoothing
  import opened LaneAssignment
  import opened Tracking
  import opened CountingEngine
  import opened TrackLog

  function ChangesFor(changes: seq<LaneChange>, t: int): seq<LaneChange> {
    if changes == [] then []
    else
      var last := changes[|changes| - 1];
      ChangesFor(changes[..|changes| - 1], t) + if last.trackId == t then [last] else []
  }

  lemma ChangesForPush(changes: seq<LaneChange>, more: seq<LaneChange>, t: int)
    requires |more| <= 1
    ensures ChangesFor(changes + more, t) ==
      ChangesFor(changes, t) + if more != [] && more[0].trackId == t then more else []
  {
    if more == [] {
      assert changes + more == changes;
    } else {
      assert (changes + more)[..|changes|] == changes;
    }
  }

  lemma {:induction false} NoChangesMeans(changes: seq<LaneChange>, t: int)
    ensures ChangesFor(changes, t) == [] <==> forall c :: c in changes ==> c.trackId != t
  {
    if changes != [] {
      var front, last := changes[..|changes| - 1], changes[|changes| - 1];
      NoChangesMeans(front, t);
      assert last in changes && forall c :: c in front ==> c in changes;
      assert forall c :: c in changes ==> c in front || c == last;
    }
  }

  /** The changes of one frame for track `t`: that of its own detection, from its state before the frame. */
  lemma {:induction false} ChangesProject(cfg: Config, frame: int, dets: seq<Detection>, ts: Tracks, t: int)
    requires cfg.Valid() && DistinctIds(dets)
    ensures var d := DetectionOf(dets, t);
      ChangesFor(ChangesOf(cfg, frame, dets, ts), t) == if d.Some? then ChangeOf(cfg, frame, d.value, ts) else []
  {
    if dets != [] {
      var front, d := dets[..|dets| - 1], dets[|dets| - 1];
      var before := ObserveAll(cfg, frame, front, ts);
      ChangesProject(cfg, frame, front, ts, t);
      ChangesForPush(ChangesOf(cfg, frame, front, ts), ChangeOf(cfg, frame, d, before), t);
      if d.trackId == t {
        OnceInFrame(dets, t);
        ObserveAllProjects(cfg, frame, front, ts, t);
      }
    }
  }

  lemma OnceInFrame(dets: seq<Detection>, t: int)
    requires DistinctIds(dets) && dets != [] && dets[|dets| - 1].trackId == t
    ensures DetectionOf(dets[..|dets| - 1], t).None?
  {
  }

  /** A change, if an observation moves the track from one lane to another. */
  function ChangeBetween(o: Observation, previous: Option<string>, current: Option<string>): seq<LaneChange> {
    if previous.Some? && current.Some? && previous.value != current.value
    then [LaneChange(o.frame, o.det.trackId, o.det.className, previous.value, current.value)]
    else []
  }

  /** What the log says about its last observation: the lane of all votes against the lane of those before. */
  ghost function ChangeOfLog(cfg: Config, log: seq<Observation>): seq<LaneChange>
    requires cfg.Valid()
  {
    if |log| < 2 then []
    else
      var votes := RawVotes(cfg, log);
      ChangeBetween(log[|log| - 1], StableOf(cfg.smoothing, votes[..|votes| - 1]), StableOf(cfg.smoothing, votes))
  }

  lemma ReportIsChange(o: Observation, previous: Option<string>, current: Option<string>)
    ensures ReportChange(o.frame, o.det, previous, current) == ChangeBetween(o, previous, current)
  {
  }

  lemma StableOfTrack(cfg: Config, log: seq<Observation>)
    requires cfg.Valid() && log != []
    ensures TrackOf(cfg, log).smooth.stable == StableOf(cfg.smoothing, RawVotes(cfg, log))
  {
  }

  lemma ChangeOfLogPush(cfg: Config, log: seq<Observation>, o: Observation)
    requires cfg.Valid() && log != []
    ensures ChangeOfLog(cfg, log + [o]) ==
      ChangeBetween(o, StableOf(cfg.smoothing, RawVotes(cfg, log)), StableOf(cfg.smoothing, RawVotes(cfg, log + [o])))
  {
    var votes, v := RawVotes(cfg, log), RawLane(cfg, o.det.box);
    RawVotesPush(cfg, log, o);
    assert (votes + [v])[..|votes|] == votes;
  }

  lemma ChangeOfPush(cfg: Config, log: seq<Observation>, o: Observation, ts: Tracks)
    requires cfg.Valid()
    requires Prior(o.frame, o.det, ts)
      == if log == [] then NewTrack(o.det.className, o.frame) else TrackOf(cfg, log)
    ensures ChangeOf(cfg, o.frame, o.det, ts) == ChangeOfLog(cfg, log + [o])
  {
    var prior := Prior(o.frame, o.det, ts);
    TrackOfPush(cfg, log, o);
    ReportIsChange(o, prior.smooth.stable, TrackOf(cfg, log + [o]).smooth.stable);
    if log != [] {
      StableOfTrack(cfg, log);
      StableOfTrack(cfg, log + [o]);
      ChangeOfLogPush(cfg, log, o);
    }
  }

  /**
   * Over every run, what a frame reports for a track is one lane change when the track's own log moves it from one
   * lane to another with the vote of this frame, and nothing otherwise.
   */
  lemma ChangesFollowLogs(cfg: Config, frames: seq<Frame>, t: int)
    requires cfg.Valid() && WellFormed(frames) && frames != []
    ensures ChangesFor(LastReport(cfg, frames).changes, t) ==
      if DetectionOf(frames[|frames| - 1].dets, t).Some? then ChangeOfLog(cfg, LogOf(cfg, frames, t)) else []
  {
    var front, f := frames[..|frames| - 1], frames[|frames| - 1];
    var ts, d := Run(cfg, front).tracks, DetectionOf(f.dets, t);
    TracksFollowLogs(cfg, front, t);
    ChangesProject(cfg, f.index, f.dets, ts, t);
    if d.Some? {
      ChangeOfPush(cfg, LogOf(cfg, front, t), Observation(f.index, d.value), ts);
    }
  }

  lemma StateOn(cfg: Smoothing, votes: seq<string>, more: seq<string>)
    requires cfg.Valid()
    ensures Votes(cfg, StateOf(cfg, votes), more) == StateOf(cfg, votes + more)
  {
    SmoothIsFunctionOfLog(cfg, votes);
    SmoothIsFunctionOfLog(cfg, votes + more);
    VotesConcat(cfg, FRESH, votes, more);
  }

  /** A log whose last votes fill the window with `lane`. */
  function Filled(cfg: Smoothing, before: seq<string>, lane: string): seq<string> {
    before + Repeat(lane, cfg.window)
  }

  lemma FilledIsHeld(cfg: Smoothing, before: seq<string>, lane: string)
    requires cfg.Valid() && lane != UNKNOWN
    ensures Held(cfg, StateOf(cfg, Filled(cfg, before, lane)), lane)
  {
    StateOn(cfg, before, Repeat(lane, cfg.window));
    FullWindowHolds(cfg, StateOf(cfg, before), lane);
  }

  lemma NoChangeLast(cfg: Smoothing, s: Smooth, vs: seq<string>)
    requires cfg.Valid() && vs != [] && ChangesIn(cfg, s, vs) == 0
    ensures !IsChange(Votes(cfg, s, vs[..|vs| - 1]).stable, Votes(cfg, s, vs).stable)
  {
  }

  /** The last vote of the log changes no lane. */
  ghost predicate LastIsQuiet(cfg: Smoothing, votes: seq<string>)
    requires cfg.Valid() && votes != []
  {
    !IsChange(StableOf(cfg, votes[..|votes| - 1]), StableOf(cfg, votes))
  }

  lemma QuietFrom(cfg: Smoothing, held: seq<string>, since: seq<string>)
    requires cfg.Valid() && since != [] && ChangesIn(cfg, StateOf(cfg, held), since) == 0
    ensures LastIsQuiet(cfg, held + since)
  {
    NoChangeLast(cfg, StateOf(cfg, held), since);
    StateOn(cfg, held, since);
    StateOn(cfg, held, since[..|since| - 1]);
    DropLastOfConcat(held, since);
  }

  /** So it is after a filled window, while fewer than `Resistance` votes since are others. */
  lemma LastVoteIsQuiet(cfg: Smoothing, before: seq<string>, lane: string, since: seq<string>)
    requires cfg.Valid() && lane != UNKNOWN && since != [] && |since| - Count(since, lane) < Resistance(cfg)
    ensures LastIsQuiet(cfg, Filled(cfg, before, lane) + since)
  {
    FilledIsHeld(cfg, before, lane);
    Hysteresis(cfg, StateOf(cfg, Filled(cfg, before, lane)), lane, since);
    QuietFrom(cfg, Filled(cfg, before, lane), since);
  }

  lemma QuietLog(cfg: Config, log: seq<Observation>)
    requires cfg.Valid() && log != [] && LastIsQuiet(cfg.smoothing, RawVotes(cfg, log))
    ensures ChangeOfLog(cfg, log) == []
  {
  }

  /**
   * Hysteresis of runs: once the votes of a track have filled its window with one lane, no frame reports a lane
   * change for it before `Resistance` votes other than that lane have been cast since.
   */
  lemma RunsHoldTheirLane(
    cfg: Config, frames: seq<Frame>, t: int, before: seq<string>, lane: string, since: seq<string>)
    requires cfg.Valid() && WellFormed(frames) && frames != [] && lane != UNKNOWN && since != []
    requires |since| - Count(since, lane) < Resistance(cfg.smoothing)
    requires RawVotes(cfg, LogOf(cfg, frames, t)) == Filled(cfg.smoothing, before, lane) + since
    ensures forall c :: c in LastReport(cfg, frames).changes ==> c.trackId != t
  {
    ChangesFollowLogs(cfg, frames, t);
    LastVoteIsQuiet(cfg.smoothing, before, lane, since);
    QuietLog(cfg, LogOf(cfg, frames, t));
    NoChangesMeans(LastReport(cfg, frames).changes, t);
  }
}

/** The counter as a function of the same logs. */
module CountLog {
  import opened Sequences
  import opened Geometry
  import opened Configuration
  import opened LaneSmoothing
  import opened Tracking
  import opened Counting
  import opened CountingEngine
  import opened TrackLog

  /** The lane `t` could be counted in at the last of `frames`: seen there, old enough, and in a lane. */
  ghost function CountableAt(cfg: Config, frames: seq<Frame>, t: int): Option<string>
    requires cfg.Valid() && frames != []
  {
    var log := LogOf(cfg, frames, t);
    if log == [] then None else CountableLane(cfg, frames[|frames| - 1].index, TrackOf(cfg, log))
  }

  /** `t` was countable in `lane` at one of the frames. */
  ghost predicate EverCountable(cfg: Config, frames: seq<Frame>, t: int, lane: string)
    requires cfg.Valid()
  {
    frames != [] && (CountableAt(cfg, frames, t) == Some(lane) || EverCountable(cfg, frames[..|frames| - 1], t, lane))
  }

  /** All anchors of `t` since its motion was last dropped for a long absence while live. */
  function MotionLog(cfg: Config, frames: seq<Frame>, t: int): seq<Point> {
    if frames == [] then []
    else
      var f, before := frames[|frames| - 1], MotionLog(cfg, frames[..|frames| - 1], t);
      var log := LogOf(cfg, frames, t);
      match DetectionOf(f.dets, t)
      case Some(d) => before + [BottomCentre(d.box)]
      case None => if log != [] && f.index - log[|log| - 1].frame > ANCHOR_TIMEOUT then [] else before
  }

  /** All anchors of `t` ever observed, over all its incarnations. */
  function AllAnchors(frames: seq<Frame>, t: int): seq<Point> {
    if frames == [] then []
    else
      match DetectionOf(frames[|frames| - 1].dets, t)
      case Some(d) => AllAnchors(frames[..|frames| - 1], t) + [BottomCentre(d.box)]
      case None => AllAnchors(frames[..|frames| - 1], t)
  }

  function EventsFor(events: seq<CountEvent>, t: int): seq<CountEvent> {
    if events == [] then []
    else EventsFor(events[..|events| - 1], t) + if events[|events| - 1].trackId == t then [events[|events| - 1]] else []
  }

  lemma {:induction false} OthersUntouched(
    cfg: Config, frame: int, ids: seq<int>, states: map<int, Track>, c: Counter, t: int, l: string)
    requires (forall i :: i in ids ==> i in states) && t !in ids
    ensures var r := CountTracks(cfg, frame, ids, states, c);
      && ((t, l) in r.counter.counted <==> (t, l) in c.counted)
      && History(r.counter.anchors, t) == History(c.anchors, t)
      && EventsFor(r.events, t) == []
  {
    if ids != [] {
      var front, id := ids[..|ids| - 1], ids[|ids| - 1];
      OthersUntouched(cfg, frame, front, states, c, t, l);
      CountTrackProjects(cfg, frame, id, states[id], CountTracks(cfg, frame, front, states, c), t, l);
    }
  }

  /** What one pass over the tracks does to the entries of track `t`: what `CountTrack` does to them, once. */
  lemma {:induction false} CountTracksProjects(
    cfg: Config, frame: int, ids: seq<int>, states: map<int, Track>, c: Counter, t: int, l: string)
    requires Distinct(ids) && (forall i :: i in ids ==> i in states) && t in ids
    ensures var r := CountTracks(cfg, frame, ids, states, c);
      && ((t, l) in r.counter.counted <==> (t, l) in c.counted || CountableLane(cfg, frame, states[t]) == Some(l))
      && History(r.counter.anchors, t) == History(TrackMotion(cfg, frame, t, states[t], c.anchors), t)
      && (CountableLane(cfg, frame, states[t]) in {None, Some(l)} ==>
            EventsFor(r.events, t) == CountTrack(cfg, frame, t, states[t], c).events)
  {
    var front, id := ids[..|ids| - 1], ids[|ids| - 1];
    var before := CountTracks(cfg, frame, front, states, c);
    CountTrackProjects(cfg, frame, id, states[id], before, t, l);
    if id == t {
      OthersUntouched(cfg, frame, front, states, c, t, l);
      SameEntrySameCount(cfg, frame, t, states[t], before.counter, c, l);
    } else {
      CountTracksProjects(cfg, frame, front, states, c, t, l);
    }
  }

  lemma SameEntrySameCount(cfg: Config, frame: int, t: int, tr: Track, c: Counter, d: Counter, l: string)
    requires (t, l) in c.counted <==> (t, l) in d.counted
    requires History(c.anchors, t) == History(d.anchors, t)
    ensures CountableLane(cfg, frame, tr) in {None, Some(l)} ==>
      CountTrack(cfg, frame, t, tr, c).events == CountTrack(cfg, frame, t, tr, d).events
    ensures History(CountTrack(cfg, frame, t, tr, c).counter.anchors, t) ==
      History(TrackMotion(cfg, frame, t, tr, d.anchors), t)
  {
  }

  lemma CountTrackProjects(cfg: Config, frame: int, id: int, tr: Track, before: Counted, t: int, l: string)
    ensures var now := CountTrack(cfg, frame, id, tr, before.counter);
      && EventsFor(before.events + now.events, t) == EventsFor(before.events, t) + (if id == t then now.events else [])
      && ((t, l) in now.counter.counted <==>
            (t, l) in before.counter.counted || (id == t && CountableLane(cfg, frame, tr) == Some(l)))
      && (id != t ==> History(now.counter.anchors, t) == History(before.counter.anchors, t))
  {
    var now := CountTrack(cfg, frame, id, tr, before.counter);
    var all := before.events + now.events;
    if now.events == [] {
      assert all == before.events;
    } else {
      assert all[..|all| - 1] == before.events;
    }
  }

  /** The dedup set and the motion history, read off the logs. */
  lemma {:induction false} CounterFollowsLogs(cfg: Config, frames: seq<Frame>, t: int, l: string)
    requires cfg.Valid() && WellFormed(frames)
    ensures var c := Run(cfg, frames).counter;
      && ((t, l) in c.counted <==> EverCountable(cfg, frames, t, l))
      && History(c.anchors, t) == LastN(MotionLog(cfg, frames, t), cfg.motionHistory)
  {
    if frames != [] {
      var front, f := frames[..|frames| - 1], frames[|frames| - 1];
      CounterFollowsLogs(cfg, front, t, l);
      TracksFollowLogs(cfg, frames, t);
      var s := Run(cfg, front);
      var ts := TracksAfter(cfg, f, s);
      if t in ts.ids {
        CountTracksProjects(cfg, f.index, ts.ids, ts.states, s.counter, t, l);
      } else {
        OthersUntouched(cfg, f.index, ts.ids, ts.states, s.counter, t, l);
      }
      MotionPush(cfg, frames, t, s.counter.anchors);
    }
  }

  /** The motion history after a frame that saw the track at `p`, or did not see it. */
  lemma MotionOfTrack(
    cfg: Config, index: int, t: int, tr: Track, anchors: map<int, seq<Point>>, before: seq<Point>, p: Option<Point>)
    requires History(anchors, t) == LastN(before, cfg.motionHistory)
    requires if p.Some? then tr.lastSeen == index && Anchor(tr.box) == p else tr.lastSeen != index
    ensures History(TrackMotion(cfg, index, t, tr, anchors), t) ==
      LastN(if p.Some? then before + [p.value] else if index - tr.lastSeen > ANCHOR_TIMEOUT then [] else before,
            cfg.motionHistory)
  {
    if p.Some? {
      LastNPush(before, p.value, cfg.motionHistory);
    }
  }

  /** One frame of a motion log: `log` is the incarnation after it, `d` what it showed of the track. */
  predicate MotionStep(index: int, log: seq<Observation>, d: Option<Detection>, before: seq<Point>, after: seq<Point>) {
    && (d.Some? ==> log != [] && log[|log| - 1].det == d.value)
    && after ==
         if d.Some? then before + [BottomCentre(d.value.box)]
         else if log != [] && index - log[|log| - 1].frame > ANCHOR_TIMEOUT then []
         else before
  }

  lemma MotionLogNext(cfg: Config, frames: seq<Frame>, t: int)
    requires frames != []
    ensures var f := frames[|frames| - 1];
      MotionStep(f.index, LogOf(cfg, frames, t), DetectionOf(f.dets, t),
                 MotionLog(cfg, frames[..|frames| - 1], t), MotionLog(cfg, frames, t))
  {
  }

  /** The stored history follows one frame of the motion log. */
  ghost predicate HistoryFollows(
    cfg: Config, index: int, t: int, log: seq<Observation>, anchors: map<int, seq<Point>>, motion: seq<Point>)
    requires cfg.Valid()
  {
    var after := if log == [] then anchors else TrackMotion(cfg, index, t, TrackOf(cfg, log), anchors);
    History(after, t) == LastN(motion, cfg.motionHistory)
  }

  /** The last observation of the log is of this frame exactly when the frame shows the track. */
  predicate LoggedNow(index: int, log: seq<Observation>, d: Option<Detection>) {
    log != [] ==> (log[|log| - 1].frame == index <==> d.Some?)
  }

  lemma StepFollows(cfg: Config, index: int, t: int, log: seq<Observation>, d: Option<Detection>,
                    anchors: map<int, seq<Point>>, before: seq<Point>, after: seq<Point>)
    requires cfg.Valid() && MotionStep(index, log, d, before, after)
    requires History(anchors, t) == LastN(before, cfg.motionHistory)
    requires LoggedNow(index, log, d)
    ensures HistoryFollows(cfg, index, t, log, anchors, after)
  {
    if log != [] {
      var p := if d.Some? then Some(BottomCentre(d.value.box)) else None;
      MotionOfTrack(cfg, index, t, TrackOf(cfg, log), anchors, before, p);
    }
  }

  lemma SeenLast(cfg: Config, frames: seq<Frame>, t: int)
    requires WellFormed(frames) && frames != []
    ensures var f := frames[|frames| - 1]; LoggedNow(f.index, LogOf(cfg, frames, t), DetectionOf(f.dets, t))
  {
    if LogOf(cfg, frames, t) != [] {
      LastSeenIsPast(cfg, frames, t);
    }
  }

  lemma MotionPush(cfg: Config, frames: seq<Frame>, t: int, anchors: map<int, seq<Point>>)
    requires cfg.Valid() && WellFormed(frames) && frames != []
    requires History(anchors, t) == LastN(MotionLog(cfg, frames[..|frames| - 1], t), cfg.motionHistory)
    ensures HistoryFollows(cfg, frames[|frames| - 1].index, t, LogOf(cfg, frames, t), anchors,
      MotionLog(cfg, frames, t))
  {
    var f, before := frames[|frames| - 1], MotionLog(cfg, frames[..|frames| - 1], t);
    MotionLogNext(cfg, frames, t);
    SeenLast(cfg, frames, t);
    StepFollows(cfg, f.index, t, LogOf(cfg, frames, t), DetectionOf(f.dets, t), anchors, before,
                MotionLog(cfg, frames, t));
  }

  /** What one pass reports for a track: one event when it is countable in a new lane. */
  lemma EventOfTrack(cfg: Config, frame: int, t: int, tr: Track, c: Counter)
    ensures var lane, hist := CountableLane(cfg, frame, tr), History(TrackMotion(cfg, frame, t, tr, c.anchors), t);
      CountTrack(cfg, frame, t, tr, c).events ==
        if lane.Some? && (t, lane.value) !in c.counted then [EventFor(frame, t, tr, lane.value, hist)] else []
  {
  }

  /** What one frame reports for a track, from the counter before it. */
  lemma EventOfFrame(cfg: Config, frames: seq<Frame>, t: int)
    requires cfg.Valid() && WellFormed(frames) && frames != []
    ensures var s, f := Run(cfg, frames[..|frames| - 1]), frames[|frames| - 1];
      var ts := TracksAfter(cfg, f, s);
      EventsFor(LastReport(cfg, frames).crossings, t) ==
        if t in ts.states then CountTrack(cfg, f.index, t, ts.states[t], s.counter).events else []
  {
    var s, f := Run(cfg, frames[..|frames| - 1]), frames[|frames| - 1];
    var ts := TracksAfter(cfg, f, s);
    if t in ts.ids {
      var lane := CountableLane(cfg, f.index, ts.states[t]);
      var l := if lane.Some? then lane.value else UNKNOWN;
      CountTracksProjects(cfg, f.index, ts.ids, ts.states, s.counter, t, l);
    } else {
      OthersUntouched(cfg, f.index, ts.ids, ts.states, s.counter, t, UNKNOWN);
    }
  }

  lemma EventOfLog(cfg: Config, frames: seq<Frame>, t: int)
    requires cfg.Valid() && WellFormed(frames) && frames != []
    ensures var c, log := Run(cfg, frames[..|frames| - 1]).counter, LogOf(cfg, frames, t);
      EventsFor(LastReport(cfg, frames).crossings, t) ==
        if log == [] then []
        else CountTrack(cfg, frames[|frames| - 1].index, t, TrackOf(cfg, log), c).events
  {
    TracksFollowLogs(cfg, frames, t);
    EventOfFrame(cfg, frames, t);
  }

  /**
   * The one event a run may report for `t` at its last frame: exactly at the first frame where `t` is countable in
   * that lane.
   */
  lemma EventsAreFirstSightings(cfg: Config, frames: seq<Frame>, t: int)
    requires cfg.Valid() && WellFormed(frames) && frames != []
    ensures var lane := CountableAt(cfg, frames, t);
      EventsFor(LastReport(cfg, frames).crossings, t) ==
        if lane.Some? && !EverCountable(cfg, frames[..|frames| - 1], t, lane.value)
        then [EventFor(frames[|frames| - 1].index, t, TrackOf(cfg, LogOf(cfg, frames, t)), lane.value,
                       LastN(MotionLog(cfg, frames, t), cfg.motionHistory))]
        else []
  {
    var front, f, log := frames[..|frames| - 1], frames[|frames| - 1], LogOf(cfg, frames, t);
    var lane := CountableAt(cfg, frames, t);
    var c := Run(cfg, front).counter;
    CounterFollowsLogs(cfg, front, t, if lane.Some? then lane.value else UNKNOWN);
    EventOfLog(cfg, frames, t);
    if log != [] {
      EventOfTrack(cfg, f.index, t, TrackOf(cfg, log), c);
      MotionPush(cfg, frames, t, c.anchors);
    }
  }

  /** With a track timeout of at most 60 frames no motion is ever dropped, not even when an id returns. */
  lemma {:induction false} MotionIsNeverDropped(cfg: Config, frames: seq<Frame>, t: int)
    requires cfg.trackTimeout <= ANCHOR_TIMEOUT
    ensures MotionLog(cfg, frames, t) == AllAnchors(frames, t)
  {
    if frames != [] {
      MotionIsNeverDropped(cfg, frames[..|frames| - 1], t);
    }
  }

  /** A direction is backward exactly when the remembered anchors move down by at least two pixels. */
  lemma BackwardMeansDown(hist: seq<Point>)
    ensures DirectionFromMotion(hist).Backward? <==> |hist| >= 2 && hist[|hist| - 1].y - hist[0].y >= 2.0
  {
  }

  /** The stable lane of the votes, or the last vote when there is none and unstable lanes count too. */
  ghost predicate LaneNow(cfg: Config, votes: seq<string>, lane: string)
    requires cfg.Valid()
  {
    || StableOf(cfg.smoothing, votes) == Some(lane)
    || (&& StableOf(cfg.smoothing, votes).None? && cfg.countUnstableLane
        && votes != [] && votes[|votes| - 1] == lane)
  }

  /** At the last of `frames`, `t` is seen, old enough, and in `lane` by its log. */
  ghost predicate StandsIn(cfg: Config, frames: seq<Frame>, t: int, lane: string)
    requires cfg.Valid() && frames != []
  {
    var f, log := frames[|frames| - 1], LogOf(cfg, frames, t);
    && DetectionOf(f.dets, t).Some?
    && f.index - log[0].frame + 1 >= cfg.minTrackAge
    && LaneNow(cfg, RawVotes(cfg, log), lane)
  }

  lemma CountableIffInLane(cfg: Config, frame: int, tr: Track, votes: seq<string>, lane: string)
    requires cfg.Valid() && lane != "" && lane != UNKNOWN && tr.smooth == StateOf(cfg.smoothing, votes)
    ensures CountableLane(cfg, frame, tr) == Some(lane) <==>
      tr.lastSeen == frame && OldEnough(cfg, frame, tr) && LaneNow(cfg, votes, lane)
  {
    if votes != [] {
      assert tr.smooth.history[|tr.smooth.history| - 1] == votes[|votes| - 1];
    }
  }

  lemma CountableIffStandsIn(cfg: Config, frames: seq<Frame>, t: int, lane: string)
    requires cfg.Valid() && WellFormed(frames) && frames != []
    requires lane != "" && lane != UNKNOWN
    ensures CountableAt(cfg, frames, t) == Some(lane) <==> StandsIn(cfg, frames, t, lane)
  {
    var log := LogOf(cfg, frames, t);
    if log != [] {
      LastSeenIsPast(cfg, frames, t);
      CountableIffInLane(cfg, frames[|frames| - 1].index, TrackOf(cfg, log), RawVotes(cfg, log), lane);
    }
  }

  /** `t` was seen, old enough and in `lane` at one of the frames. */
  ghost predicate EverStandsIn(cfg: Config, frames: seq<Frame>, t: int, lane: string)
    requires cfg.Valid()
  {
    frames != [] && (StandsIn(cfg, frames, t, lane) || EverStandsIn(cfg, frames[..|frames| - 1], t, lane))
  }

  lemma {:induction false} EverCountableIffEverStands(cfg: Config, frames: seq<Frame>, t: int, lane: string)
    requires cfg.Valid() && WellFormed(frames) && lane != "" && lane != UNKNOWN
    ensures EverCountable(cfg, frames, t, lane) <==> EverStandsIn(cfg, frames, t, lane)
  {
    if frames != [] {
      EverCountableIffEverStands(cfg, frames[..|frames| - 1], t, lane);
      CountableIffStandsIn(cfg, frames, t, lane);
    }
  }

  /** The last of `frames` is the first one at which `t` is seen, old enough and in `lane`. */
  ghost predicate FirstStandsIn(cfg: Config, frames: seq<Frame>, t: int, lane: string)
    requires cfg.Valid() && frames != []
  {
    StandsIn(cfg, frames, t, lane) && !EverStandsIn(cfg, frames[..|frames| - 1], t, lane)
  }

  lemma FirstIffNewlyCountable(cfg: Config, frames: seq<Frame>, t: int, lane: string)
    requires cfg.Valid() && WellFormed(frames) && frames != []
    requires lane != "" && lane != UNKNOWN
    ensures FirstStandsIn(cfg, frames, t, lane) <==>
      CountableAt(cfg, frames, t) == Some(lane) && !EverCountable(cfg, frames[..|frames| - 1], t, lane)
  {
    CountableIffStandsIn(cfg, frames, t, lane);
    EverCountableIffEverStands(cfg, frames[..|frames| - 1], t, lane);
  }

  lemma EventIffNewlyCountable(cfg: Config, frames: seq<Frame>, t: int, lane: string)
    requires cfg.Valid() && WellFormed(frames) && frames != []
    ensures var events := EventsFor(LastReport(cfg, frames).crossings, t);
      && |events| <= 1
      && (CountableAt(cfg, frames, t) == Some(lane) && !EverCountable(cfg, frames[..|frames| - 1], t, lane)
          <==> events != [] && events[0].laneId == lane)
  {
    EventsAreFirstSightings(cfg, frames, t);
  }

  /**
   * A frame reports `t` in `lane` if and only if it is the first one at which `t` is seen, old enough and in `lane`
   * by its log; and it reports at most one event for `t`.
   */
  lemma CountedAtFirstSighting(cfg: Config, frames: seq<Frame>, t: int, lane: string)
    requires cfg.Valid() && WellFormed(frames) && frames != []
    requires lane != "" && lane != UNKNOWN
    ensures var events := EventsFor(LastReport(cfg, frames).crossings, t);
      && |events| <= 1
      && (FirstStandsIn(cfg, frames, t, lane) <==> events != [] && events[0].laneId == lane)
  {
    EventIffNewlyCountable(cfg, frames, t, lane);
    FirstIffNewlyCountable(cfg, frames, t, lane);
  }

  /** The event says what the log of the track says. */
  predicate Tells(e: CountEvent, frame: int, t: int, log: seq<Observation>) {
    && log != []
    && e.frame == frame && e.trackId == t
    && e.className == (if log[0].det.className == "" then "unknown" else log[0].det.className)
    && e.lineId == e.laneId + "_track"
    && e.confidence == log[|log| - 1].det.confidence
  }

  /**
   * A reported event carries the frame, the class of the track's first sighting in this incarnation and the
   * confidence of its last one.
   */
  lemma EventTellsTheLog(cfg: Config, frames: seq<Frame>, t: int)
    requires cfg.Valid() && WellFormed(frames) && frames != []
    ensures var events := EventsFor(LastReport(cfg, frames).crossings, t);
      events != [] ==> Tells(events[0], frames[|frames| - 1].index, t, LogOf(cfg, frames, t))
  {
    EventsAreFirstSightings(cfg, frames, t);
    var log, lane := LogOf(cfg, frames, t), CountableAt(cfg, frames, t);
    if lane.Some? {
      EventOfTrackTells(cfg, frames[|frames| - 1].index, t, log, lane.value,
                        LastN(MotionLog(cfg, frames, t), cfg.motionHistory));
    }
  }

  lemma EventOfTrackTells(cfg: Config, frame: int, t: int, log: seq<Observation>, lane: string, hist: seq<Point>)
    requires cfg.Valid() && log != []
    ensures Tells(EventFor(frame, t, TrackOf(cfg, log), lane, hist), frame, t, log)
  {
  }

  /** The values end two pixels or more above where they begin. */
  predicate MovesDown(edges: seq<real>) {
    |edges| >= 2 && edges[|edges| - 1] - edges[0] >= 2.0
  }

  /** The first of the events, if any, is backward if and only if the lower edges move down by two pixels or more. */
  predicate DirectedBy(events: seq<CountEvent>, edges: seq<real>) {
    events != [] ==> (events[0].direction.Backward? <==> MovesDown(edges))
  }

  /** The lower edges of all boxes ever observed for `t`, over all its incarnations. */
  function LowerEdges(frames: seq<Frame>, t: int): seq<real> {
    if frames == [] then []
    else
      match DetectionOf(frames[|frames| - 1].dets, t)
      case Some(d) => LowerEdges(frames[..|frames| - 1], t) + [d.box.ymax]
      case None => LowerEdges(frames[..|frames| - 1], t)
  }

  ghost predicate AnchorsAt(anchors: seq<Point>, edges: seq<real>) {
    |anchors| == |edges| && forall i :: 0 <= i < |edges| ==> anchors[i].y == edges[i]
  }

  lemma {:induction false} AnchorsAreLowerEdges(frames: seq<Frame>, t: int)
    ensures AnchorsAt(AllAnchors(frames, t), LowerEdges(frames, t))
  {
    if frames != [] {
      AnchorsAreLowerEdges(frames[..|frames| - 1], t);
    }
  }

  lemma DirectionByEdges(anchors: seq<Point>, edges: seq<real>, n: nat)
    requires AnchorsAt(anchors, edges)
    ensures DirectionFromMotion(LastN(anchors, n)).Backward? <==> MovesDown(LastN(edges, n))
  {
    BackwardMeansDown(LastN(anchors, n));
  }

  lemma DirectionOfEvent(cfg: Config, frames: seq<Frame>, t: int, hist: seq<Point>)
    requires cfg.Valid() && WellFormed(frames) && frames != []
    requires hist == LastN(MotionLog(cfg, frames, t), cfg.motionHistory)
    ensures var events := EventsFor(LastReport(cfg, frames).crossings, t);
      events != [] ==> events[0].direction == DirectionFromMotion(hist)
  {
    EventsAreFirstSightings(cfg, frames, t);
  }

  /**
   * With a track timeout of at most 60, a reported direction is backward if and only if the lower edges of the last
   * `motion_history` boxes ever observed for the track move down by two pixels or more.
   */
  lemma DirectionIsOfAllMotion(cfg: Config, frames: seq<Frame>, t: int)
    requires cfg.Valid() && WellFormed(frames) && frames != [] && cfg.trackTimeout <= 60
    ensures DirectedBy(EventsFor(LastReport(cfg, frames).crossings, t), LastN(LowerEdges(frames, t), cfg.motionHistory))
  {
    MotionIsNeverDropped(cfg, frames, t);
    DirectionOfEvent(cfg, frames, t, LastN(AllAnchors(frames, t), cfg.motionHistory));
    AnchorsAreLowerEdges(frames, t);
    DirectionByEdges(AllAnchors(frames, t), LowerEdges(frames, t), cfg.motionHistory);
  }
}

/** The order of what a frame reports. */
module ReportOrder {
  import opened Sequences
  import opened Configuration
  import opened Tracking
  import opened Counting
  import opened CountingEngine

  /** `a` is what is left of `b` after leaving some elements out. */
  predicate IsSubsequence(a: seq<int>, b: seq<int>) {
    a == []
    || (b != [] && if a[|a| - 1] == b[|b| - 1] then IsSubsequence(a[..|a| - 1], b[..|b| - 1])
                   else IsSubsequence(a, b[..|b| - 1]))
  }

  lemma {:induction false} SubsequenceIsIn(a: seq<int>, b: seq<int>)
    requires IsSubsequence(a, b) && a != []
    ensures a[|a| - 1] in b
  {
    if a[|a| - 1] != b[|b| - 1] {
      SubsequenceIsIn(a, b[..|b| - 1]);
    }
  }

  /** One more element at the end of `b`, taken into `a` or left out. */
  lemma SubsequenceGrows(a: seq<int>, b: seq<int>, x: int, more: seq<int>)
    requires IsSubsequence(a, b) && x !in b && (more == [] || more == [x])
    ensures IsSubsequence(a + more, b + [x])
  {
    assert (b + [x])[..|b|] == b;
    if more == [] {
      assert a + more == a;
      if a != [] {
        SubsequenceIsIn(a, b);
      }
    } else {
      assert (a + more)[..|a|] == a;
    }
  }

  function EventIds(events: seq<CountEvent>): (r: seq<int>)
    ensures |r| == |events|
    ensures forall i :: 0 <= i < |events| ==> r[i] == events[i].trackId
  {
    seq(|events|, i requires 0 <= i < |events| => events[i].trackId)
  }

  function ChangeIds(changes: seq<LaneChange>): (r: seq<int>)
    ensures |r| == |changes|
    ensures forall i :: 0 <= i < |changes| ==> r[i] == changes[i].trackId
  {
    seq(|changes|, i requires 0 <= i < |changes| => changes[i].trackId)
  }

  function DetectionIds(dets: seq<Detection>): (r: seq<int>)
    ensures |r| == |dets|
    ensures forall i :: 0 <= i < |dets| ==> r[i] == dets[i].trackId
  {
    seq(|dets|, i requires 0 <= i < |dets| => dets[i].trackId)
  }

  lemma EventsGrow(before: seq<CountEvent>, now: seq<CountEvent>, front: seq<int>, id: int)
    requires IsSubsequence(EventIds(before), front) && id !in front
    requires |now| <= 1 && (now != [] ==> now[0].trackId == id)
    ensures IsSubsequence(EventIds(before + now), front + [id])
  {
    SubsequenceGrows(EventIds(before), front, id, EventIds(now));
    assert EventIds(before + now) == EventIds(before) + EventIds(now);
  }

  lemma ChangesGrow(before: seq<LaneChange>, now: seq<LaneChange>, front: seq<int>, id: int)
    requires IsSubsequence(ChangeIds(before), front) && id !in front
    requires |now| <= 1 && (now != [] ==> now[0].trackId == id)
    ensures IsSubsequence(ChangeIds(before + now), front + [id])
  {
    SubsequenceGrows(ChangeIds(before), front, id, ChangeIds(now));
    assert ChangeIds(before + now) == ChangeIds(before) + ChangeIds(now);
  }

  lemma AtMostOneEvent(cfg: Config, frame: int, id: int, tr: Track, c: Counter)
    ensures var now := CountTrack(cfg, frame, id, tr, c).events;
      |now| <= 1 && (now != [] ==> now[0].trackId == id)
  {
  }

  lemma LastIsNew(ids: seq<int>)
    requires Distinct(ids) && ids != []
    ensures Distinct(ids[..|ids| - 1]) && ids[|ids| - 1] !in ids[..|ids| - 1]
    ensures ids[..|ids| - 1] + [ids[|ids| - 1]] == ids
  {
  }

  lemma {:induction false} CountedInOrder(cfg: Config, frame: int, ids: seq<int>, states: map<int, Track>, c: Counter)
    requires Distinct(ids) && forall i :: i in ids ==> i in states
    ensures IsSubsequence(EventIds(CountTracks(cfg, frame, ids, states, c).events), ids)
  {
    if ids != [] {
      var front, id := ids[..|ids| - 1], ids[|ids| - 1];
      LastIsNew(ids);
      CountedInOrder(cfg, frame, front, states, c);
      var before := CountTracks(cfg, frame, front, states, c);
      var now := CountTrack(cfg, frame, id, states[id], before.counter);
      AtMostOneEvent(cfg, frame, id, states[id], before.counter);
      EventsGrow(before.events, now.events, front, id);
    }
  }

  lemma {:induction false} ChangedInOrder(cfg: Config, frame: int, dets: seq<Detection>, ts: Tracks)
    requires cfg.Valid() && DistinctIds(dets)
    ensures IsSubsequence(ChangeIds(ChangesOf(cfg, frame, dets, ts)), DetectionIds(dets))
  {
    if dets != [] {
      var front, d := dets[..|dets| - 1], dets[|dets| - 1];
      ChangedInOrder(cfg, frame, front, ts);
      var before, now := ChangesOf(cfg, frame, front, ts), ChangeOf(cfg, frame, d, ObserveAll(cfg, frame, front, ts));
      ChangesGrow(before, now, DetectionIds(front), d.trackId);
      assert DetectionIds(front) + [d.trackId] == DetectionIds(dets);
    }
  }

  /** A frame reports events in the order of its tracks, and lane changes in the order of its detections. */
  lemma ReportsAreInOrder(cfg: Config, frames: seq<Frame>)
    requires cfg.Valid() && WellFormed(frames) && frames != []
    ensures IsSubsequence(EventIds(LastReport(cfg, frames).crossings), Run(cfg, frames).tracks.ids)
    ensures IsSubsequence(ChangeIds(LastReport(cfg, frames).changes), DetectionIds(frames[|frames| - 1].dets))
  {
    var s, f := Run(cfg, frames[..|frames| - 1]), frames[|frames| - 1];
    var ts := TracksAfter(cfg, f, s);
    CountedInOrder(cfg, f.index, ts.ids, ts.states, s.counter);
    ChangedInOrder(cfg, f.index, f.dets, s.tracks);
  }
}

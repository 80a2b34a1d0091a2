/** One frame of the counting engine as a function of its state, and runs of frames. */
module CountingEngine {
  import opened Configuration
  import opened Tracking
  import opened Counting
  import opened Occupancy

  datatype Core = Core(tracks: Tracks, counter: Counter)

  /** The detections the tracker delivers for one processed frame. */
  datatype Frame = Frame(index: int, dets: seq<Detection>)

  datatype Report = Report(changes: seq<LaneChange>, occupancy: map<string, nat>, crossings: seq<CountEvent>)

  function InitialCore(cfg: Config): Core {
    Core(NO_TRACKS, NewCounter(cfg))
  }

  /** The tracks after the update of frame `f`. */
  ghost function TracksAfter(cfg: Config, f: Frame, s: Core): (ts: Tracks)
    requires cfg.Valid() && s.tracks.Valid()
    ensures ts.Valid()
  {
    UpdateTracksValid(cfg, f.index, f.dets, s.tracks);
    UpdateTracks(cfg, f.index, f.dets, s.tracks)
  }

  ghost function CountingOf(cfg: Config, f: Frame, s: Core): Counted
    requires cfg.Valid() && s.tracks.Valid()
  {
    var ts := TracksAfter(cfg, f, s);
    CountTracks(cfg, f.index, ts.ids, ts.states, s.counter)
  }

  ghost function Next(cfg: Config, f: Frame, s: Core): (r: Core)
    requires cfg.Valid() && s.tracks.Valid()
    ensures r.tracks.Valid()
  {
    Core(TracksAfter(cfg, f, s), CountingOf(cfg, f, s).counter)
  }

  ghost function ReportOf(cfg: Config, f: Frame, s: Core): Report
    requires cfg.Valid() && s.tracks.Valid()
  {
    var ts := TracksAfter(cfg, f, s);
    Report(ChangesOf(cfg, f.index, f.dets, s.tracks),
           OccupancyAll(cfg, f.index, ts.ids, ts.states),
           CountingOf(cfg, f, s).events)
  }

  lemma Assemble(cfg: Config, f: Frame, s: Core, ts: Tracks, counter: Counter, report: Report)
    requires cfg.Valid() && s.tracks.Valid() && ts.Valid()
    requires ts == UpdateTracks(cfg, f.index, f.dets, s.tracks)
    requires report.changes == ChangesOf(cfg, f.index, f.dets, s.tracks)
    requires report.occupancy == OccupancyAll(cfg, f.index, ts.ids, ts.states)
    requires Counted(counter, report.crossings) == CountTracks(cfg, f.index, ts.ids, ts.states, s.counter)
    ensures Core(ts, counter) == Next(cfg, f, s) && report == ReportOf(cfg, f, s)
  {
  }

  /** The engine after a run of frames. */
  ghost function Run(cfg: Config, frames: seq<Frame>): (s: Core)
    requires cfg.Valid()
    ensures s.tracks.Valid()
  {
    if frames == [] then InitialCore(cfg)
    else Next(cfg, frames[|frames| - 1], Run(cfg, frames[..|frames| - 1]))
  }

  /** What the last frame of a run reported. */
  ghost function LastReport(cfg: Config, frames: seq<Frame>): Report
    requires cfg.Valid() && frames != []
  {
    ReportOf(cfg, frames[|frames| - 1], Run(cfg, frames[..|frames| - 1]))
  }

  /** No frame lists a track twice. */
  ghost predicate DistinctIds(dets: seq<Detection>) {
    forall i, j :: 0 <= i < j < |dets| ==> dets[i].trackId != dets[j].trackId
  }

  /** Frame indices grow (gaps allowed) and no frame lists a track twice. */
  ghost predicate WellFormed(frames: seq<Frame>) {
    && (forall i :: 0 <= i < |frames| ==> DistinctIds(frames[i].dets))
    && forall i, j :: 0 <= i < j < |frames| ==> frames[i].index < frames[j].index
  }
}

/** `DetectionCore`: the lifecycle and the per-frame pipeline over the mutable components. */
module DetectionPipeline {
  import opened Sequences
  import opened Configuration
  import opened LaneAssignment
  import opened Tracking
  import opened TrackStore
  import opened Counting
  import opened CountingObjects
  import opened Occupancy
  import opened CountingEngine

  class DetectionCore {
    const cfg: Config
    var laneAssigner: LaneAssigner?
    var stateManager: LaneStateManager?
    var occupancyEngine: OccupancyEngine?
    var lineCounter: LineCounter?
    var frameIdx: nat
    var started: bool

    constructor (cfg: Config)
      ensures this.cfg == cfg && Valid() && !started && frameIdx == 0
    {
      this.cfg := cfg;
      laneAssigner, stateManager, occupancyEngine, lineCounter := null, null, null, null;
      frameIdx, started := 0, false;
    }

    ghost predicate Valid()
      reads this, laneAssigner, stateManager
    {
      started ==>
        && laneAssigner != null && stateManager != null && occupancyEngine != null && lineCounter != null
        && stateManager.cfg == cfg && occupancyEngine.cfg == cfg && lineCounter.cfg == cfg
        && stateManager.Uses(laneAssigner) && stateManager.Valid()
    }

    ghost function View(): Core
      requires Valid() && started
      reads this, laneAssigner, stateManager, lineCounter, if stateManager == null then {}
        else stateManager.states.Values
    {
      Core(stateManager.View(), lineCounter.View())
    }

    /** Create the components; only the first call has an effect. */
    method Start()
      requires Valid()
      modifies this
      ensures Valid() && started && frameIdx == old(frameIdx)
      ensures old(started) ==> unchanged(this)
      ensures !old(started) ==> View() == InitialCore(cfg)
    {
      if started {
        return;
      }
      started := true;
      laneAssigner := new LaneAssigner(cfg);
      stateManager := new LaneStateManager(cfg);
      occupancyEngine := new OccupancyEngine(cfg);
      lineCounter := new LineCounter(cfg);
    }

    /** Forget the run; a later start begins a new one from the initial state. */
    method Reset()
      modifies this
      ensures Valid() && !started && frameIdx == 0
    {
      frameIdx, started := 0, false;
      laneAssigner, stateManager, occupancyEngine, lineCounter := null, null, null, null;
    }

    /** The two readers of the updated tracks: occupancy, then counts. */
    method CountFrame(index: int, manager: LaneStateManager, engine: OccupancyEngine, counter: LineCounter,
                      ghost ts: Tracks) returns (occupancy: map<string, nat>, crossings: seq<CountEvent>)
      requires manager.Valid() && manager.View() == ts && engine.cfg == counter.cfg == cfg
      modifies counter
      ensures manager.View() == ts && ts.Valid()
      ensures occupancy == OccupancyAll(cfg, index, ts.ids, ts.states)
      ensures Counted(counter.View(), crossings) == CountTracks(cfg, index, ts.ids, ts.states, old(counter.View()))
    {
      occupancy := engine.ComputeOccupancy(index, manager);
      crossings := counter.Update(index, manager);
    }

    /** The three components in the order of the pipeline: tracks, occupancy, counts. */
    method RunComponents(index: int, dets: seq<Detection>, assigner: LaneAssigner, manager: LaneStateManager,
                         engine: OccupancyEngine, counter: LineCounter, ghost before: Core) returns (report: Report)
      requires cfg.Valid() && manager.Valid() && manager.Uses(assigner)
      requires manager.cfg == engine.cfg == counter.cfg == cfg
      requires before == Core(manager.View(), counter.View()) && before.tracks.Valid()
      modifies manager, manager.states.Values, counter
      ensures manager.Valid() && manager.Uses(assigner)
      ensures Core(manager.View(), counter.View()) == Next(cfg, Frame(index, dets), before)
      ensures report == ReportOf(cfg, Frame(index, dets), before)
    {
      var events := manager.Update(index, dets, assigner);
      ghost var ts := manager.View();
      var occupancy, crossings := CountFrame(index, manager, engine, counter, ts);
      report := Report(events, occupancy, crossings);
      Assemble(cfg, Frame(index, dets), before, ts, counter.View(), report);
    }

    /** One numbered frame through the components. */
    method RunFrame(index: int, dets: seq<Detection>, ghost before: Core) returns (report: Report)
      requires Valid() && started && cfg.Valid() && View() == before
      modifies stateManager, stateManager.states.Values, lineCounter
      ensures Valid() && before.tracks.Valid()
      ensures View() == Next(cfg, Frame(index, dets), before)
      ensures report == ReportOf(cfg, Frame(index, dets), before)
    {
      report := RunComponents(index, dets, laneAssigner, stateManager, occupancyEngine, lineCounter, before);
    }

    /** The number of a frame: the caller's, or the next of the internal counter. */
    method NumberFrame(explicitIdx: Option<int>) returns (index: int)
      modifies this`frameIdx
      ensures index == if explicitIdx.Some? then explicitIdx.value else old(frameIdx)
      ensures frameIdx == if explicitIdx.Some? then old(frameIdx) else old(frameIdx) + 1
    {
      if explicitIdx.None? {
        index := frameIdx;
        frameIdx := frameIdx + 1;
      } else {
        index := explicitIdx.value;
      }
    }

    /** One frame, numbered by the caller or by the internal counter. */
    method ProcessFrame(dets: seq<Detection>, explicitIdx: Option<int>) returns (index: int, report: Report)
      requires Valid() && started && cfg.Valid()
      modifies this`frameIdx, stateManager, stateManager.states.Values, lineCounter
      ensures Valid() && started
      ensures index == if explicitIdx.Some? then explicitIdx.value else old(frameIdx)
      ensures frameIdx == if explicitIdx.Some? then old(frameIdx) else old(frameIdx) + 1
      ensures old(View()).tracks.Valid()
      ensures View() == Next(cfg, Frame(index, dets), old(View()))
      ensures report == ReportOf(cfg, Frame(index, dets), old(View()))
    {
      ghost var before := View();
      index := NumberFrame(explicitIdx);
      report := RunFrame(index, dets, before);
    }
  }
}

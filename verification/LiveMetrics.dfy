/** The sliding frame-rate windows of one camera. */
module LiveMetrics {
  import opened Sequences

  const WINDOW_SIZE := 120
  const FPS_WINDOW_SEC := 5.0

  /** Pop timestamps from the left while they are older than the window. */
  function Trim(values: seq<real>, now: real): seq<real> {
    if values != [] && values[0] < now - FPS_WINDOW_SEC then Trim(values[1..], now) else values
  }

  /** One use of a timestamp deque: trimmed at `now`, after appending `now` if it records a frame. */
  datatype Tick = Tick(now: real, recorded: bool)

  function Use(values: seq<real>, t: Tick): seq<real> {
    Trim(if t.recorded then LastN(values + [t.now], WINDOW_SIZE) else values, t.now)
  }

  function WindowAfter(ticks: seq<Tick>): seq<real> {
    if ticks == [] then [] else Use(WindowAfter(ticks[..|ticks| - 1]), ticks[|ticks| - 1])
  }

  /** Every frame time ever recorded. */
  function Recorded(ticks: seq<Tick>): seq<real> {
    if ticks == [] then []
    else Recorded(ticks[..|ticks| - 1]) + if ticks[|ticks| - 1].recorded then [ticks[|ticks| - 1].now] else []
  }

  /** The recorded frames of the last five seconds. */
  function Recent(log: seq<real>, now: real): seq<real> {
    if log == [] then []
    else Recent(log[..|log| - 1], now) + if log[|log| - 1] >= now - 5.0 then [log[|log| - 1]] else []
  }

  ghost predicate Sorted(log: seq<real>) {
    forall i, j :: 0 <= i < j < |log| ==> log[i] <= log[j]
  }

  ghost predicate Monotone(ticks: seq<Tick>) {
    forall i, j :: 0 <= i < j < |ticks| ==> ticks[i].now <= ticks[j].now
  }

  /** Frames per second shown for a window; a multiple of one fifth needs no rounding to one decimal. */
  function WindowFps(values: seq<real>): real {
    |values| as real / FPS_WINDOW_SEC
  }

  lemma {:induction false} RecordedIsSorted(ticks: seq<Tick>)
    requires Monotone(ticks)
    ensures Sorted(Recorded(ticks))
    ensures forall x :: x in Recorded(ticks) ==> ticks != [] && x <= ticks[|ticks| - 1].now
  {
    if ticks != [] {
      var front, t := ticks[..|ticks| - 1], ticks[|ticks| - 1];
      RecordedIsSorted(front);
      if t.recorded {
        SortedPush(Recorded(front), t.now);
      } else {
        assert Recorded(ticks) == Recorded(front);
      }
    }
  }

  lemma SortedPush(log: seq<real>, x: real)
    requires Sorted(log) && forall y :: y in log ==> y <= x
    ensures Sorted(log + [x])
  {
    var all := log + [x];
    forall i, j | 0 <= i < j < |all| ensures all[i] <= all[j] {
      assert all[i] == log[i] && log[i] in log;
    }
  }

  lemma {:induction false} TrimLater(log: seq<real>, earlier: real, now: real, more: seq<real>)
    requires earlier <= now
    ensures Trim(Trim(log, earlier) + more, now) == Trim(log + more, now)
  {
    if log != [] && log[0] < earlier - FPS_WINDOW_SEC {
      TrimLater(log[1..], earlier, now, more);
      assert (log + more)[1..] == log[1..] + more;
    }
  }

  lemma {:induction false} TrimOfWindow(log: seq<real>, n: nat, now: real)
    requires Sorted(log)
    ensures Trim(LastN(log, n), now) == LastN(Trim(log, now), n)
    decreases |log|
  {
    if log != [] && log[0] < now - FPS_WINDOW_SEC {
      TrimOfWindow(log[1..], n, now);
      if |log| > n {
        assert LastN(log, n) == LastN(log[1..], n);
      }
    } else {
      TrimNothing(LastN(log, n), now);
    }
  }

  lemma TrimNothing(log: seq<real>, now: real)
    requires log == [] || log[0] >= now - FPS_WINDOW_SEC
    ensures Trim(log, now) == log
  {
  }

  lemma {:induction false} RecentOfNew(log: seq<real>, now: real)
    requires forall i :: 0 <= i < |log| ==> log[i] >= now - FPS_WINDOW_SEC
    ensures Recent(log, now) == log
  {
    if log != [] {
      RecentOfNew(log[..|log| - 1], now);
    }
  }

  lemma {:induction false} RecentSkipsOld(log: seq<real>, now: real)
    requires log != [] && log[0] < now - FPS_WINDOW_SEC
    ensures Recent(log, now) == Recent(log[1..], now)
  {
    if |log| > 1 {
      RecentSkipsOld(log[..|log| - 1], now);
      assert log[1..][..|log| - 2] == log[..|log| - 1][1..];
    }
  }

  lemma {:induction false} TrimIsRecent(log: seq<real>, now: real)
    requires Sorted(log)
    ensures Trim(log, now) == Recent(log, now)
  {
    if log != [] && log[0] < now - FPS_WINDOW_SEC {
      TrimIsRecent(log[1..], now);
      RecentSkipsOld(log, now);
    } else {
      RecentOfNew(log, now);
    }
  }

  /** Using the bounded deque and bounding the result of using an unbounded one come to the same. */
  lemma UseOfWindow(live: seq<real>, t: Tick)
    requires Sorted(live) && forall x :: x in live ==> x <= t.now
    ensures Use(LastN(live, WINDOW_SIZE), t)
      == LastN(Trim(live + if t.recorded then [t.now] else [], t.now), WINDOW_SIZE)
  {
    if t.recorded {
      SortedPush(live, t.now);
      LastNPush(live, t.now, WINDOW_SIZE);
      TrimOfWindow(live + [t.now], WINDOW_SIZE, t.now);
    } else {
      assert live + [] == live;
      TrimOfWindow(live, WINDOW_SIZE, t.now);
    }
  }

  /** On a monotone clock the deque holds exactly the last (at most 120) frames of the last five seconds. */
  lemma {:induction false} WindowIsRecentFrames(ticks: seq<Tick>)
    requires ticks != [] && Monotone(ticks)
    ensures WindowAfter(ticks) == LastN(Recent(Recorded(ticks), ticks[|ticks| - 1].now), 120)
  {
    var front, t := ticks[..|ticks| - 1], ticks[|ticks| - 1];
    var log, more := Recorded(front), if t.recorded then [t.now] else [];
    RecordedIsSorted(ticks);
    RecordedIsSorted(front);
    TrimIsRecent(Recorded(ticks), t.now);
    if front == [] {
      UseOfWindow([], t);
    } else {
      WindowIsRecentFrames(front);
      var before := front[|front| - 1].now;
      TrimIsRecent(log, before);
      TrimSorted(log, before);
      TrimLater(log, before, t.now, more);
      UseOfWindow(Trim(log, before), t);
      assert Recorded(ticks) == log + more;
    }
  }

  lemma {:induction false} TrimSorted(log: seq<real>, now: real)
    requires Sorted(log)
    ensures Sorted(Trim(log, now)) && forall x :: x in Trim(log, now) ==> x in log
  {
    if log != [] && log[0] < now - FPS_WINDOW_SEC {
      TrimSorted(log[1..], now);
    }
  }

  /** The rate is the true five-second average exactly up to 120 frames in the window, and 24 beyond. */
  lemma FpsSaturates(ticks: seq<Tick>)
    requires ticks != [] && Monotone(ticks)
    ensures var recent := Recent(Recorded(ticks), ticks[|ticks| - 1].now);
      var fps := WindowFps(WindowAfter(ticks));
      && (fps == |recent| as real / 5.0 <==> |recent| <= 120)
      && (|recent| > 120 ==> fps == 24.0)
  {
    WindowIsRecentFrames(ticks);
  }

  /** The two timestamp deques of a camera entry, with the rates computed from them. */
  class CameraMetrics {
    var processTimestamps: seq<real>
    var outputTimestamps: seq<real>
    var processFps: real
    var outputFps: real

    constructor ()
      ensures processTimestamps == [] && outputTimestamps == [] && processFps == outputFps == 0.0
    {
      processTimestamps, outputTimestamps, processFps, outputFps := [], [], 0.0, 0.0;
    }

    /** A processed frame enters the first window and trims both. */
    method RecordFrame(now: real)
      modifies this
      ensures processTimestamps == Use(old(processTimestamps), Tick(now, true))
      ensures outputTimestamps == Use(old(outputTimestamps), Tick(now, false))
      ensures processFps == WindowFps(processTimestamps) && outputFps == WindowFps(outputTimestamps)
    {
      processTimestamps := LastN(processTimestamps + [now], WINDOW_SIZE);
      processTimestamps := TrimWindow(processTimestamps, now);
      outputTimestamps := TrimWindow(outputTimestamps, now);
      processFps, outputFps := WindowFps(processTimestamps), WindowFps(outputTimestamps);
    }

    /** A frame sent to the viewer enters and trims the second window only. */
    method RecordOutputFrame(now: real)
      modifies this`outputTimestamps, this`outputFps
      ensures outputTimestamps == Use(old(outputTimestamps), Tick(now, true))
      ensures outputFps == WindowFps(outputTimestamps)
    {
      outputTimestamps := LastN(outputTimestamps + [now], WINDOW_SIZE);
      outputTimestamps := TrimWindow(outputTimestamps, now);
      outputFps := WindowFps(outputTimestamps);
    }
  }

  method TrimWindow(values: seq<real>, now: real) returns (r: seq<real>)
    ensures r == Trim(values, now)
  {
    r := values;
    while r != [] && r[0] < now - FPS_WINDOW_SEC
      invariant Trim(r, now) == Trim(values, now)
    {
      r := r[1..];
    }
  }
}

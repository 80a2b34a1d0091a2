/** The vote smoothing that `LaneStateManager.update` applies to one track. */
module LaneSmoothing {
  import opened Sequences

  const UNKNOWN := "unknown"

  /** `history_window`, `min_consecutive_for_change` and `unknown_timeout_frames`. */
  datatype Smoothing = Smoothing(window: nat, minConsecutive: nat, unknownTimeout: nat) {
    predicate Valid() { 1 <= minConsecutive <= window }
  }

  /** The smoothed part of a track state. */
  datatype Smooth = Smooth(history: seq<string>, stable: Option<string>, unknownRun: nat)

  const FRESH := Smooth([], None, 0)

  /** `x` is the only known lane with the highest number of votes in `h`. */
  ghost predicate IsUniqueMode(h: seq<string>, x: string) {
    && x != UNKNOWN
    && x in h
    && forall y :: y in h && y != UNKNOWN && y != x ==> Count(h, y) < Count(h, x)
  }

  ghost function UniqueMode(h: seq<string>): (m: Option<string>)
    ensures m.Some? ==> IsUniqueMode(h, m.value)
    ensures m.None? ==> forall x :: !IsUniqueMode(h, x)
  {
    if x :| IsUniqueMode(h, x) then Some(x) else None
  }

  lemma UniqueModeIs(h: seq<string>, x: string)
    requires IsUniqueMode(h, x)
    ensures UniqueMode(h) == Some(x)
  {
  }

  /** The last `n` votes exist and are all the same known lane. */
  predicate Unanimous(h: seq<string>, n: nat)
    requires n >= 1
  {
    && |h| >= n
    && var tail := h[|h| - n..];
    && forall i :: 0 <= i < n ==> tail[i] == tail[0] && tail[i] != UNKNOWN
  }

  lemma UnanimousForKnownLane(h: seq<string>, n: nat)
    requires n >= 1 && Unanimous(h, n)
    ensures h[|h| - n] != UNKNOWN && h[|h| - n] in h
  {
    var tail := h[|h| - n..];
    assert tail[0] == h[|h| - n];
    assert forall i :: 0 <= i < n ==> tail[i] != UNKNOWN;
  }

  /** The stable lane decided on a known vote, for the window `h` that ends in that vote. */
  ghost function Decide(cfg: Smoothing, h: seq<string>, previous: Option<string>): Option<string>
    requires cfg.Valid()
  {
    if Unanimous(h, cfg.minConsecutive) then Some(h[|h| - cfg.minConsecutive])
    else if UniqueMode(h).Some? then UniqueMode(h)
    else previous
  }

  /** Append a vote and, when the window is exceeded, pop the oldest one. */
  function Push(h: seq<string>, v: string, window: nat): (r: seq<string>)
    ensures |h| <= window ==> r == LastN(h + [v], window)
  {
    if |h| + 1 > window then (h + [v])[1..] else h + [v]
  }

  /** One pass of the per-track body of `update`. */
  ghost function Vote(cfg: Smoothing, s: Smooth, v: string): Smooth
    requires cfg.Valid()
  {
    var h := Push(s.history, v, cfg.window);
    if v == UNKNOWN then
      var run := s.unknownRun + 1;
      Smooth(h, if run > cfg.unknownTimeout then None else s.stable, run)
    else
      Smooth(h, Decide(cfg, h, s.stable), 0)
  }

  ghost function Votes(cfg: Smoothing, s: Smooth, vs: seq<string>): Smooth
    requires cfg.Valid()
  {
    if vs == [] then s else Vote(cfg, Votes(cfg, s, vs[..|vs| - 1]), vs[|vs| - 1])
  }

  /** A vote that moves a track from one lane to another is reported. */
  predicate IsChange(before: Option<string>, after: Option<string>) {
    before.Some? && after.Some? && before != after
  }

  /** A vote that gives a lane to a track without one. */
  predicate IsAcquisition(before: Option<string>, after: Option<string>) {
    before.None? && after.Some?
  }

  ghost function ChangesIn(cfg: Smoothing, s: Smooth, vs: seq<string>): nat
    requires cfg.Valid()
  {
    if vs == [] then 0
    else
      var before := Votes(cfg, s, vs[..|vs| - 1]);
      var after := Votes(cfg, s, vs);
      ChangesIn(cfg, s, vs[..|vs| - 1]) + if IsChange(before.stable, after.stable) then 1 else 0
  }

  lemma {:induction false} VotesConcat(cfg: Smoothing, s: Smooth, us: seq<string>, vs: seq<string>)
    requires cfg.Valid()
    ensures Votes(cfg, s, us + vs) == Votes(cfg, Votes(cfg, s, us), vs)
  {
    if vs == [] {
      assert us + vs == us;
    } else {
      VotesConcat(cfg, s, us, vs[..|vs| - 1]);
      DropLastOfConcat(us, vs);
    }
  }

  // ---- The incremental state is a function of the unbounded vote log ----

  function TrailingUnknowns(log: seq<string>): nat {
    if log == [] || log[|log| - 1] != UNKNOWN then 0 else 1 + TrailingUnknowns(log[..|log| - 1])
  }

  /** The stable lane read off the whole log, without any window, counter or stored state. */
  ghost function StableOf(cfg: Smoothing, log: seq<string>): Option<string>
    requires cfg.Valid()
  {
    if log == [] then None
    else
      var before := log[..|log| - 1];
      if log[|log| - 1] == UNKNOWN then
        if TrailingUnknowns(log) > cfg.unknownTimeout then None else StableOf(cfg, before)
      else Decide(cfg, LastN(log, cfg.window), StableOf(cfg, before))
  }

  /** The state that the whole log determines. */
  ghost function StateOf(cfg: Smoothing, log: seq<string>): Smooth
    requires cfg.Valid()
  {
    Smooth(LastN(log, cfg.window), StableOf(cfg, log), TrailingUnknowns(log))
  }

  lemma OneMoreVote(cfg: Smoothing, log: seq<string>)
    requires cfg.Valid() && log != []
    ensures StateOf(cfg, log) == Vote(cfg, StateOf(cfg, log[..|log| - 1]), log[|log| - 1])
  {
    var before, v := log[..|log| - 1], log[|log| - 1];
    WindowNext(log, cfg.window);
    assert Push(LastN(before, cfg.window), v, cfg.window) == LastN(log, cfg.window);
  }

  lemma WindowNext(log: seq<string>, window: nat)
    requires log != []
    ensures LastN(LastN(log[..|log| - 1], window) + [log[|log| - 1]], window) == LastN(log, window)
  {
    LastNPush(log[..|log| - 1], log[|log| - 1], window);
    assert log[..|log| - 1] + [log[|log| - 1]] == log;
  }

  lemma {:induction false} SmoothIsFunctionOfLog(cfg: Smoothing, log: seq<string>)
    requires cfg.Valid()
    ensures Votes(cfg, FRESH, log) == StateOf(cfg, log)
  {
    if log != [] {
      SmoothIsFunctionOfLog(cfg, log[..|log| - 1]);
      OneMoreVote(cfg, log);
    }
  }

  /** The stable lane is never invented: it is one of the known votes of the log. */
  lemma {:induction false} StableWasVoted(cfg: Smoothing, s: Smooth, v: string)
    requires cfg.Valid()
    ensures var after := Vote(cfg, s, v);
      && (forall x :: x in after.history ==> x in s.history || x == v)
      && (after.stable.Some? && after.stable != s.stable ==>
            after.stable.value != UNKNOWN && after.stable.value in after.history)
  {
    var h := Push(s.history, v, cfg.window);
    if Unanimous(h, cfg.minConsecutive) {
      UnanimousForKnownLane(h, cfg.minConsecutive);
    }
  }

  // ---- The last window after some votes ----

  lemma {:induction false} HistoryIsSuffix(cfg: Smoothing, s: Smooth, vs: seq<string>)
    requires cfg.Valid() && |s.history| <= cfg.window
    ensures Votes(cfg, s, vs).history == LastN(s.history + vs, cfg.window)
  {
    if vs == [] {
      assert s.history + vs == s.history;
    } else {
      var before, v := vs[..|vs| - 1], vs[|vs| - 1];
      HistoryIsSuffix(cfg, s, before);
      HistoryOfVote(cfg, Votes(cfg, s, before), v);
      LastNPush(s.history + before, v, cfg.window);
      assert s.history + before + [v] == s.history + vs;
    }
  }

  lemma HistoryOfVote(cfg: Smoothing, s: Smooth, v: string)
    requires cfg.Valid() && |s.history| <= cfg.window
    ensures Vote(cfg, s, v).history == LastN(s.history + [v], cfg.window)
  {
  }

  /** A known vote decides over the window that ends in it; an unknown one keeps the lane or clears it. */
  lemma StableOfVote(cfg: Smoothing, s: Smooth, v: string)
    requires cfg.Valid()
    ensures var after := Vote(cfg, s, v);
      if v == UNKNOWN then after.stable == s.stable || after.stable == None
      else after.stable == Decide(cfg, after.history, s.stable)
  {
  }

  // ---- Convergence ----

  /** From any state, `minConsecutive` or more votes in a row for a known lane settle on it. */
  lemma Settles(cfg: Smoothing, s: Smooth, lane: string, n: nat)
    requires cfg.Valid() && |s.history| <= cfg.window && lane != UNKNOWN
    requires n >= cfg.minConsecutive
    ensures Votes(cfg, s, Repeat(lane, n)).stable == Some(lane)
  {
    var vs := Repeat(lane, n);
    var h := Votes(cfg, s, vs).history;
    HistoryIsSuffix(cfg, s, vs);
    RepeatIsUnanimous(s.history, lane, n, cfg.window, cfg.minConsecutive);
    StableOfVote(cfg, Votes(cfg, s, vs[..n - 1]), lane);
  }

  /** A window that ends in enough votes for one known lane is unanimous for it. */
  lemma RepeatIsUnanimous(before: seq<string>, lane: string, n: nat, window: nat, c: nat)
    requires lane != UNKNOWN && 1 <= c <= n && c <= window
    ensures var h := LastN(before + Repeat(lane, n), window); Unanimous(h, c) && h[|h| - c] == lane
  {
    var h := LastN(before + Repeat(lane, n), window);
    assert h[|h| - c..] == Repeat(lane, c);
  }

  /** Once settled, further votes for the same lane report nothing. */
  lemma {:induction false} ConvergenceIsQuiet(cfg: Smoothing, s: Smooth, lane: string, more: nat)
    requires cfg.Valid() && |s.history| <= cfg.window && lane != UNKNOWN
    ensures var settled := Votes(cfg, s, Repeat(lane, cfg.minConsecutive));
      ChangesIn(cfg, settled, Repeat(lane, more)) == 0
    decreases more
  {
    var settled := Votes(cfg, s, Repeat(lane, cfg.minConsecutive));
    var vs := Repeat(lane, more);
    if more > 0 {
      ConvergenceIsQuiet(cfg, s, lane, more - 1);
      assert vs[..more - 1] == Repeat(lane, more - 1);
      SettledThen(cfg, s, lane, more - 1);
      SettledThen(cfg, s, lane, more);
    }
  }

  lemma SettledThen(cfg: Smoothing, s: Smooth, lane: string, more: nat)
    requires cfg.Valid() && |s.history| <= cfg.window && lane != UNKNOWN
    ensures Votes(cfg, Votes(cfg, s, Repeat(lane, cfg.minConsecutive)), Repeat(lane, more)).stable == Some(lane)
  {
    var settling, later := Repeat(lane, cfg.minConsecutive), Repeat(lane, more);
    RepeatConcat(lane, cfg.minConsecutive, more);
    VotesConcat(cfg, s, settling, later);
    Settles(cfg, s, lane, |settling + later|);
  }

  /** After a known vote, exactly `unknownTimeout` unknown votes keep the lane; the next one clears it for good. */
  lemma {:induction false} UnknownsKeepThenClear(cfg: Smoothing, s: Smooth, n: nat)
    requires cfg.Valid() && s.unknownRun == 0
    ensures var after := Votes(cfg, s, Repeat(UNKNOWN, n));
      && after.unknownRun == n
      && after.stable == if n <= cfg.unknownTimeout then s.stable else None
  {
    if n > 0 {
      UnknownsKeepThenClear(cfg, s, n - 1);
      assert Repeat(UNKNOWN, n)[..n - 1] == Repeat(UNKNOWN, n - 1);
    }
  }

  // ---- Hysteresis ----

  /** The number of votes other than `lane` (unknown votes included) that can dislodge a full window. */
  function Resistance(cfg: Smoothing): (n: nat)
    ensures n <= cfg.minConsecutive && n <= cfg.window / 2 + 1
  {
    if cfg.minConsecutive <= cfg.window / 2 then cfg.minConsecutive else cfg.window / 2 + 1
  }

  ghost predicate Held(cfg: Smoothing, s: Smooth, lane: string) {
    |s.history| == cfg.window && (forall i :: 0 <= i < |s.history| ==> s.history[i] == lane) && s.stable == Some(lane)
  }

  lemma FullWindowHolds(cfg: Smoothing, s: Smooth, lane: string)
    requires cfg.Valid() && |s.history| <= cfg.window && lane != UNKNOWN
    ensures Held(cfg, Votes(cfg, s, Repeat(lane, cfg.window)), lane)
  {
    HistoryIsSuffix(cfg, s, Repeat(lane, cfg.window));
    Settles(cfg, s, lane, cfg.window);
  }

  /** A window that slid over few other votes still has at least as many votes for `lane` as for anything else. */
  lemma WindowKeepsMajority(cfg: Smoothing, full: seq<string>, lane: string, vs: seq<string>)
    requires cfg.Valid() && |full| == cfg.window && forall i :: 0 <= i < |full| ==> full[i] == lane
    ensures var h := LastN(full + vs, cfg.window);
      |h| == cfg.window && |h| - Count(h, lane) <= |vs| - Count(vs, lane)
  {
    var h := LastN(full + vs, cfg.window);
    if |vs| <= cfg.window {
      var kept := full[|vs|..];
      assert h == kept + vs;
      CountConcat(kept, vs, lane);
      CountUniform(kept, lane);
    } else {
      var gone := vs[..|vs| - cfg.window];
      assert vs == gone + h;
      CountConcat(gone, h, lane);
    }
  }

  lemma DecideKeepsLane(cfg: Smoothing, h: seq<string>, lane: string, previous: Option<string>)
    requires cfg.Valid() && lane != UNKNOWN && |h| == cfg.window
    requires |h| - Count(h, lane) < Resistance(cfg)
    requires LaneOrNone(previous, lane)
    ensures LaneOrNone(Decide(cfg, h, previous), lane)
  {
    UnanimousIsLane(cfg, h, lane);
    ModeIsLane(h, lane);
  }

  predicate LaneOrNone(o: Option<string>, lane: string) {
    o == Some(lane) || o == None
  }

  lemma ModeIsLane(h: seq<string>, lane: string)
    requires lane != UNKNOWN && h != [] && |h| - Count(h, lane) < |h| / 2 + 1
    ensures UniqueMode(h).Some? ==> UniqueMode(h).value == lane
  {
    assert Count(h, lane) >= |h| - |h| / 2;
    if UniqueMode(h).Some? && UniqueMode(h).value != lane {
      CountPair(h, lane, UniqueMode(h).value);
      assert false;
    }
  }

  lemma UnanimousIsLane(cfg: Smoothing, h: seq<string>, lane: string)
    requires cfg.Valid() && |h| == cfg.window && |h| - Count(h, lane) < cfg.minConsecutive
    ensures Unanimous(h, cfg.minConsecutive) ==> h[|h| - cfg.minConsecutive] == lane
  {
    var c := cfg.minConsecutive;
    VoteAmongLast(h, c, lane);
    if Unanimous(h, c) {
      UnanimousForAny(h, c, lane);
    }
  }

  lemma VoteAmongLast(h: seq<string>, n: nat, lane: string)
    requires n <= |h| && |h| - Count(h, lane) < n
    ensures lane in h[|h| - n..]
  {
    var head, tail := h[..|h| - n], h[|h| - n..];
    assert h == head + tail;
    CountConcat(head, tail, lane);
  }

  lemma UnanimousForAny(h: seq<string>, n: nat, lane: string)
    requires n >= 1 && Unanimous(h, n) && lane in h[|h| - n..]
    ensures h[|h| - n] == lane
  {
    var tail := h[|h| - n..];
    var i :| 0 <= i < n && tail[i] == lane;
    assert tail[i] == tail[0];
  }

  /**
   * With fewer than `Resistance` votes against it, a held lane is kept or lost to the unknown timeout, never
   * replaced.
   */
  lemma {:induction false} HysteresisStable(cfg: Smoothing, s: Smooth, lane: string, vs: seq<string>)
    requires cfg.Valid() && lane != UNKNOWN && Held(cfg, s, lane)
    requires |vs| - Count(vs, lane) < Resistance(cfg)
    ensures LaneOrNone(Votes(cfg, s, vs).stable, lane)
  {
    if vs != [] {
      var prior := Votes(cfg, s, vs[..|vs| - 1]);
      HysteresisStable(cfg, s, lane, vs[..|vs| - 1]);
      HistoryIsSuffix(cfg, s, vs);
      WindowKeepsMajority(cfg, s.history, lane, vs);
      StableOfVote(cfg, prior, vs[|vs| - 1]);
      DecideKeepsLane(cfg, Votes(cfg, s, vs).history, lane, prior.stable);
    }
  }

  /** Hysteresis: no lane change is reported before `Resistance` votes other than `lane` have been seen. */
  lemma {:induction false} Hysteresis(cfg: Smoothing, s: Smooth, lane: string, vs: seq<string>)
    requires cfg.Valid() && lane != UNKNOWN && Held(cfg, s, lane)
    requires |vs| - Count(vs, lane) < Resistance(cfg)
    ensures ChangesIn(cfg, s, vs) == 0
  {
    if vs != [] {
      Hysteresis(cfg, s, lane, vs[..|vs| - 1]);
      HysteresisStable(cfg, s, lane, vs[..|vs| - 1]);
      HysteresisStable(cfg, s, lane, vs);
    }
  }

  /** A unique mode that was also voted last is decided on, by either rule. */
  lemma ModeOfLastVoteWins(cfg: Smoothing, h: seq<string>, lane: string, previous: Option<string>)
    requires cfg.Valid() && IsUniqueMode(h, lane) && h[|h| - 1] == lane
    ensures Decide(cfg, h, previous) == Some(lane)
  {
    UniqueModeIs(h, lane);
    if Unanimous(h, cfg.minConsecutive) {
      var tail := h[|h| - cfg.minConsecutive..];
      assert tail[cfg.minConsecutive - 1] == tail[0];
    }
  }

  lemma MinorityBecomesMode(full: seq<string>, lane: string, other: string, n: nat)
    requires other != UNKNOWN && other != lane && |full| / 2 + 1 <= n <= |full|
    requires forall i :: 0 <= i < |full| ==> full[i] == lane
    ensures IsUniqueMode(LastN(full + Repeat(other, n), |full|), other)
  {
    var vs, kept := Repeat(other, n), full[n..];
    var h := LastN(full + vs, |full|);
    assert h == kept + vs;
    CountConcat(kept, vs, other);
    CountUniform(vs, other);
    forall y | y in h && y != UNKNOWN && y != other ensures Count(h, y) < Count(h, other) {
      CountPair(h, y, other);
    }
  }

  /** The bound is exact: that many votes in a row for another lane do replace the held one. */
  lemma HysteresisIsTight(cfg: Smoothing, s: Smooth, lane: string, other: string)
    requires cfg.Valid() && lane != UNKNOWN && other != UNKNOWN && other != lane && Held(cfg, s, lane)
    ensures Votes(cfg, s, Repeat(other, Resistance(cfg))).stable == Some(other)
  {
    var n := Resistance(cfg);
    if n == cfg.minConsecutive {
      Settles(cfg, s, other, n);
    } else {
      MinorityBecomesMode(s.history, lane, other, n);
      ModeVotedLastWins(cfg, s, Repeat(other, n), other);
    }
  }

  /** Votes that end in one for the unique mode of the window they leave make it stable. */
  lemma ModeVotedLastWins(cfg: Smoothing, s: Smooth, vs: seq<string>, lane: string)
    requires cfg.Valid() && |s.history| <= cfg.window && vs != [] && vs[|vs| - 1] == lane
    requires IsUniqueMode(LastN(s.history + vs, cfg.window), lane)
    ensures Votes(cfg, s, vs).stable == Some(lane)
  {
    var prior, h := Votes(cfg, s, vs[..|vs| - 1]), LastN(s.history + vs, cfg.window);
    HistoryIsSuffix(cfg, s, vs);
    StableOfVote(cfg, prior, lane);
    ModeOfLastVoteWins(cfg, h, lane, prior.stable);
  }

  lemma OneKnownVoteLeft(full: seq<string>, window: nat, other: string)
    requires |full| == window >= 1 && other != UNKNOWN
    ensures IsUniqueMode(LastN(full + (Repeat(UNKNOWN, window - 1) + [other]), window), other)
  {
    var unknowns := Repeat(UNKNOWN, window - 1);
    assert LastN(full + (unknowns + [other]), window) == unknowns + [other];
    CountPush(unknowns, other, other);
  }

  /**
   * An instance with the lane still held: unknown votes that fill the rest of the window within the timeout leave it
   * to one vote for another lane.
   */
  lemma UnknownVotesErodeTheWindow(cfg: Smoothing, s: Smooth, lane: string, other: string)
    requires cfg.Valid() && lane != UNKNOWN && other != UNKNOWN && other != lane
    requires Held(cfg, s, lane) && s.unknownRun == 0 && cfg.window - 1 <= cfg.unknownTimeout
    ensures var eroded := Votes(cfg, s, Repeat(UNKNOWN, cfg.window - 1));
      eroded.stable == Some(lane) && Vote(cfg, eroded, other).stable == Some(other)
  {
    var unknowns := Repeat(UNKNOWN, cfg.window - 1);
    UnknownsKeepThenClear(cfg, s, cfg.window - 1);
    OneKnownVoteLeft(s.history, cfg.window, other);
    ModeVotedLastWins(cfg, s, unknowns + [other], other);
    VotesPush(cfg, s, unknowns, other);
  }

  // ---- Known votes only ----

  /** The votes for known lanes other than `lane`. */
  function KnownOthers(vs: seq<string>, lane: string): nat {
    if vs == [] then 0
    else KnownOthers(vs[..|vs| - 1], lane) + if vs[|vs| - 1] != UNKNOWN && vs[|vs| - 1] != lane then 1 else 0
  }

  lemma {:induction false} KnownOthersConcat(us: seq<string>, vs: seq<string>, lane: string)
    ensures KnownOthers(us + vs, lane) == KnownOthers(us, lane) + KnownOthers(vs, lane)
  {
    if vs == [] {
      assert us + vs == us;
    } else {
      KnownOthersConcat(us, vs[..|vs| - 1], lane);
      DropLastOfConcat(us, vs);
    }
  }

  predicate UnknownOr(lane: string, vs: seq<string>) {
    forall v :: v in vs ==> v == UNKNOWN || v == lane
  }

  lemma UnknownOrLast(lane: string, vs: seq<string>)
    requires vs != []
    ensures UnknownOr(lane, vs) <==>
      UnknownOr(lane, vs[..|vs| - 1]) && (vs[|vs| - 1] == UNKNOWN || vs[|vs| - 1] == lane)
  {
    var front, last := vs[..|vs| - 1], vs[|vs| - 1];
    assert last in vs && forall v :: v in front ==> v in vs;
    assert forall v :: v in vs ==> v in front || v == last;
  }

  lemma {:induction false} NoKnownOthers(vs: seq<string>, lane: string)
    ensures KnownOthers(vs, lane) == 0 <==> UnknownOr(lane, vs)
  {
    if vs != [] {
      NoKnownOthers(vs[..|vs| - 1], lane);
      UnknownOrLast(lane, vs);
    }
  }

  /** While every vote is unknown or for the lane, so is every lane decided. */
  lemma {:induction false} OnlyLaneIsKept(cfg: Smoothing, s: Smooth, lane: string, vs: seq<string>)
    requires cfg.Valid() && lane != UNKNOWN && LaneOrNone(s.stable, lane)
    requires UnknownOr(lane, s.history) && UnknownOr(lane, vs)
    ensures LaneOrNone(Votes(cfg, s, vs).stable, lane) && UnknownOr(lane, Votes(cfg, s, vs).history)
    ensures ChangesIn(cfg, s, vs) == 0
  {
    if vs != [] {
      var front, v := vs[..|vs| - 1], vs[|vs| - 1];
      UnknownOrLast(lane, vs);
      OnlyLaneIsKept(cfg, s, lane, front);
      StableWasVoted(cfg, Votes(cfg, s, front), v);
      StableOfVote(cfg, Votes(cfg, s, front), v);
    }
  }

  /** Known votes never clear a lane, so ending on another one takes a change. */
  lemma {:induction false} KnownVotesChange(cfg: Smoothing, s: Smooth, vs: seq<string>)
    requires cfg.Valid() && s.stable.Some? && UNKNOWN !in vs
    ensures Votes(cfg, s, vs).stable.Some?
    ensures ChangesIn(cfg, s, vs) == 0 ==> Votes(cfg, s, vs).stable == s.stable
  {
    if vs != [] {
      var front, v := vs[..|vs| - 1], vs[|vs| - 1];
      assert v in vs && forall u :: u in front ==> u in vs;
      KnownVotesChange(cfg, s, front);
      StableOfVote(cfg, Votes(cfg, s, front), v);
    }
  }

  lemma {:induction false} ChangesConcat(cfg: Smoothing, s: Smooth, us: seq<string>, vs: seq<string>)
    requires cfg.Valid()
    ensures ChangesIn(cfg, s, us + vs) == ChangesIn(cfg, s, us) + ChangesIn(cfg, Votes(cfg, s, us), vs)
  {
    if vs == [] {
      assert us + vs == us;
    } else {
      ChangesConcat(cfg, s, us, vs[..|vs| - 1]);
      DropLastOfConcat(us, vs);
      VotesConcat(cfg, s, us, vs[..|vs| - 1]);
      VotesConcat(cfg, s, us, vs);
    }
  }

  /** Unknown votes for all but one place of the window, and one vote for another lane. */
  function There(cfg: Smoothing, other: string): seq<string>
    requires cfg.Valid()
  {
    Repeat(UNKNOWN, cfg.window - 1) + [other]
  }

  /** The votes it takes to be back. */
  function Back(cfg: Smoothing, lane: string): seq<string> {
    Repeat(lane, cfg.minConsecutive)
  }

  lemma ThereIsLeft(cfg: Smoothing, s: Smooth, lane: string, other: string)
    requires cfg.Valid() && lane != UNKNOWN && other != UNKNOWN && Held(cfg, s, lane)
    ensures var there := Votes(cfg, s, There(cfg, other));
      there.stable == Some(other) && |there.history| <= cfg.window
  {
    OneKnownVoteLeft(s.history, cfg.window, other);
    ModeVotedLastWins(cfg, s, There(cfg, other), other);
    HistoryIsSuffix(cfg, s, There(cfg, other));
  }

  lemma BackIsAChange(cfg: Smoothing, s: Smooth, lane: string)
    requires cfg.Valid() && lane != UNKNOWN && |s.history| <= cfg.window
    requires s.stable.Some? && s.stable.value != lane
    ensures ChangesIn(cfg, s, Back(cfg, lane)) > 0
  {
    Settles(cfg, s, lane, cfg.minConsecutive);
    KnownVotesChange(cfg, s, Back(cfg, lane));
  }

  lemma RepeatedIsNoOther(v: string, n: nat, lane: string)
    requires v == UNKNOWN || v == lane
    ensures KnownOthers(Repeat(v, n), lane) == 0
  {
    NoKnownOthers(Repeat(v, n), lane);
  }

  lemma KnownOthersPush(vs: seq<string>, v: string, lane: string)
    requires v != UNKNOWN && v != lane
    ensures KnownOthers(vs + [v], lane) == KnownOthers(vs, lane) + 1
  {
    assert (vs + [v])[..|vs|] == vs;
  }

  lemma OneKnownOther(cfg: Smoothing, lane: string, other: string)
    requires cfg.Valid() && other != UNKNOWN && other != lane
    ensures KnownOthers(There(cfg, other) + Back(cfg, lane), lane) == 1
  {
    KnownOthersConcat(There(cfg, other), Back(cfg, lane), lane);
    KnownOthersPush(Repeat(UNKNOWN, cfg.window - 1), other, lane);
    RepeatedIsNoOther(UNKNOWN, cfg.window - 1, lane);
    RepeatedIsNoOther(lane, cfg.minConsecutive, lane);
  }

  /** The one vote for another lane brings the track there, and it comes back: a change, whatever the timeout. */
  lemma OneKnownVoteChanges(cfg: Smoothing, s: Smooth, lane: string, other: string)
    requires cfg.Valid() && lane != UNKNOWN && other != UNKNOWN && other != lane && Held(cfg, s, lane)
    ensures KnownOthers(There(cfg, other) + Back(cfg, lane), lane) == 1
    ensures ChangesIn(cfg, s, There(cfg, other) + Back(cfg, lane)) > 0
  {
    ThereIsLeft(cfg, s, lane, other);
    BackIsAChange(cfg, Votes(cfg, s, There(cfg, other)), lane);
    ChangesConcat(cfg, s, There(cfg, other), Back(cfg, lane));
    OneKnownOther(cfg, lane, other);
  }

  /** No change is reported before `Resistance` known votes for other lanes, whatever unknown votes come between. */
  ghost predicate HoldsAgainstKnownVotes(cfg: Smoothing)
    requires cfg.Valid()
  {
    forall s, lane, vs :: lane != UNKNOWN && Held(cfg, s, lane) && KnownOthers(vs, lane) < Resistance(cfg) ==>
      ChangesIn(cfg, s, vs) == 0
  }

  lemma FullState(cfg: Smoothing, lane: string)
    requires cfg.Valid()
    ensures Held(cfg, Smooth(Repeat(lane, cfg.window), Some(lane), 0), lane)
  {
  }

  /** Counting known votes only, the hysteresis bound holds if and only if one vote is enough to change lanes anyway. */
  lemma KnownVotesSufficeIff(cfg: Smoothing)
    requires cfg.Valid()
    ensures HoldsAgainstKnownVotes(cfg) <==> cfg.minConsecutive == 1
  {
    if cfg.minConsecutive == 1 {
      forall s, lane, vs | lane != UNKNOWN && Held(cfg, s, lane) && KnownOthers(vs, lane) < Resistance(cfg)
        ensures ChangesIn(cfg, s, vs) == 0
      {
        NoKnownOthers(vs, lane);
        OnlyLaneIsKept(cfg, s, lane, vs);
      }
    } else {
      var s, vs := Smooth(Repeat("a", cfg.window), Some("a"), 0), There(cfg, "b") + Back(cfg, "a");
      FullState(cfg, "a");
      OneKnownVoteChanges(cfg, s, "a", "b");
      assert Held(cfg, s, "a") && KnownOthers(vs, "a") < Resistance(cfg) && ChangesIn(cfg, s, vs) != 0;
    }
  }

  lemma VotesPush(cfg: Smoothing, s: Smooth, vs: seq<string>, v: string)
    requires cfg.Valid()
    ensures Votes(cfg, s, vs + [v]) == Vote(cfg, Votes(cfg, s, vs), v)
  {
    assert (vs + [v])[..|vs|] == vs;
  }
}

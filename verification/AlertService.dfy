/** The alert service against its unbounded log. */
module AlertLog {
  import opened Sequences

  const MAX_ALERTS := 1000

  datatype AlertInfo = AlertInfo(severity: string, title: string, message: string, cameraId: Option<string>,
      alertType: string)

  datatype Alert = Alert(id: string, info: AlertInfo, key: string, timestamp: real, resolvedAt: Option<real>) {
    predicate Resolved() { resolvedAt.Some? }
  }

  /** An absent or empty camera id stands for the whole system. */
  function DedupKey(alertType: string, cameraId: Option<string>): string {
    alertType + ":" + if cameraId.None? || cameraId.value == "" then "global" else cameraId.value
  }

  function NewAlert(id: string, info: AlertInfo, now: real): Alert {
    Alert(id, info, DedupKey(info.alertType, info.cameraId), now, None)
  }

  // ---- What the service keeps in memory ----

  datatype Service = Service(alerts: seq<Alert>, suppressed: map<string, string>)

  function Emit(s: Service, id: string, info: AlertInfo, now: real, suppressIfActive: bool): (Service, Option<string>) {
    var a := NewAlert(id, info, now);
    if suppressIfActive && a.key in s.suppressed then (s, None)
    else (Service(LastN(s.alerts + [a], MAX_ALERTS), s.suppressed[a.key := id]), Some(id))
  }

  /** Resolve the first alert with this id. */
  function MarkFirst(alerts: seq<Alert>, id: string, now: real): seq<Alert> {
    if alerts == [] then []
    else if alerts[0].id == id then [alerts[0].(resolvedAt := Some(now))] + alerts[1..]
    else [alerts[0]] + MarkFirst(alerts[1..], id, now)
  }

  function Resolve(s: Service, key: string, now: real): (Service, bool) {
    if key in s.suppressed
    then (Service(MarkFirst(s.alerts, s.suppressed[key], now), s.suppressed - {key}), true)
    else (s, false)
  }

  /** The first unresolved alert with this id, if it is still in memory. */
  function FindUnresolved(alerts: seq<Alert>, id: string): Option<Alert> {
    if alerts == [] then None
    else if alerts[0].id == id && !alerts[0].Resolved() then Some(alerts[0])
    else FindUnresolved(alerts[1..], id)
  }

  function ResolveById(s: Service, id: string, now: real): (Service, bool) {
    match FindUnresolved(s.alerts, id)
    case None => (s, false)
    case Some(a) => (Service(MarkFirst(s.alerts, id, now), s.suppressed - {a.key}), true)
  }

  // ---- The unbounded log ----

  ghost predicate DistinctAlertIds(log: seq<Alert>) {
    forall i, j :: 0 <= i < j < |log| ==> log[i].id != log[j].id
  }

  /** The id of the latest unresolved alert with this key. */
  function Active(log: seq<Alert>, key: string): Option<string> {
    if log == [] then None
    else
      var a := log[|log| - 1];
      if a.key == key && !a.Resolved() then Some(a.id) else Active(log[..|log| - 1], key)
  }

  /** A key has at most one unresolved alert. */
  ghost predicate Deduplicated(log: seq<Alert>) {
    forall i, j :: 0 <= i < j < |log| && !log[i].Resolved() && !log[j].Resolved() ==> log[i].key != log[j].key
  }

  /** The log with the alert of this id resolved, wherever it stands. */
  function Mark(log: seq<Alert>, id: string, now: real): (r: seq<Alert>)
    ensures |r| == |log|
    ensures forall i :: 0 <= i < |log| ==> r[i] == if log[i].id == id then log[i].(resolvedAt := Some(now)) else log[i]
  {
    seq(|log|, i requires 0 <= i < |log| => if log[i].id == id then log[i].(resolvedAt := Some(now)) else log[i])
  }

  /** The operations as specified on the log alone. */
  function LogEmit(log: seq<Alert>, a: Alert): (seq<Alert>, Option<string>) {
    if Active(log, a.key).Some? then (log, None) else (log + [a], Some(a.id))
  }

  function LogResolve(log: seq<Alert>, key: string, now: real): (seq<Alert>, bool) {
    if Active(log, key).Some? then (Mark(log, Active(log, key).value, now), true) else (log, false)
  }

  /** By id only alerts among the last thousand can be resolved. */
  function LogResolveById(log: seq<Alert>, id: string, now: real): (seq<Alert>, bool) {
    if FindUnresolved(LastN(log, MAX_ALERTS), id).Some? then (Mark(log, id, now), true) else (log, false)
  }

  /** The memory of the service is the visible end of the log, with the keys of all its unresolved alerts. */
  ghost predicate Refines(s: Service, log: seq<Alert>) {
    && DistinctAlertIds(log)
    && Deduplicated(log)
    && s.alerts == LastN(log, 1000)
    && forall k ::
         && (k in s.suppressed <==> Active(log, k).Some?)
         && (k in s.suppressed ==> s.suppressed[k] == Active(log, k).value)
  }

  // ---- Proof ----

  lemma {:induction false} ActiveMeans(log: seq<Alert>, key: string)
    ensures Active(log, key).Some? <==> exists i :: 0 <= i < |log| && log[i].key == key && !log[i].Resolved()
    ensures Active(log, key).Some? ==>
      exists i :: 0 <= i < |log| && log[i].key == key && !log[i].Resolved() && log[i].id == Active(log, key).value
  {
    if log != [] {
      var front, a := log[..|log| - 1], log[|log| - 1];
      ActiveMeans(front, key);
      if !(a.key == key && !a.Resolved()) && Active(front, key).Some? {
        var i :| 0 <= i < |front| && front[i].key == key && !front[i].Resolved()
                 && front[i].id == Active(log, key).value;
        assert log[i] == front[i];
      }
      if i :| 0 <= i < |log| && log[i].key == key && !log[i].Resolved() {
        assert i < |front| ==> front[i] == log[i];
      }
    }
  }

  lemma {:induction false} MarkFirstIsMark(log: seq<Alert>, id: string, now: real)
    requires DistinctAlertIds(log)
    ensures MarkFirst(log, id, now) == Mark(log, id, now)
  {
    if log != [] {
      if log[0].id == id {
        assert MarkFirst(log, id, now) == [log[0].(resolvedAt := Some(now))] + log[1..];
      } else {
        MarkFirstIsMark(log[1..], id, now);
      }
    }
  }

  lemma MarkVisible(log: seq<Alert>, id: string, now: real)
    requires DistinctAlertIds(log)
    ensures MarkFirst(LastN(log, MAX_ALERTS), id, now) == LastN(Mark(log, id, now), MAX_ALERTS)
  {
    MarkFirstIsMark(LastN(log, MAX_ALERTS), id, now);
  }

  /** Resolving the only unresolved alert of a key deactivates that key and no other. */
  lemma MarkDeactivates(log: seq<Alert>, n: nat, now: real, k: string)
    requires DistinctAlertIds(log) && Deduplicated(log) && n < |log| && !log[n].Resolved()
    ensures Active(Mark(log, log[n].id, now), k) == if k == log[n].key then None else Active(log, k)
  {
    var marked := Mark(log, log[n].id, now);
    forall i | 0 <= i < |log| && i != n ensures marked[i] == log[i] {
      assert log[if i < n then i else n].id != log[if i < n then n else i].id;
    }
    ActiveMeans(log, k);
    ActiveMeans(marked, k);
    if Active(log, k).Some? {
      var i :| 0 <= i < |log| && log[i].key == k && !log[i].Resolved() && log[i].id == Active(log, k).value;
      if k == log[n].key {
        assert i == n;
      } else {
        assert marked[i] == log[i];
        var j :| 0 <= j < |marked| && marked[j].key == k && !marked[j].Resolved()
                 && marked[j].id == Active(marked, k).value;
        assert log[j] == marked[j];
        assert j == i;
      }
    }
  }

  lemma MarkRefines(s: Service, log: seq<Alert>, n: nat, now: real)
    requires Refines(s, log) && n < |log| && !log[n].Resolved()
    ensures Refines(Service(MarkFirst(s.alerts, log[n].id, now), s.suppressed - {log[n].key}),
      Mark(log, log[n].id, now))
  {
    MarkVisible(log, log[n].id, now);
    forall k
      ensures Active(Mark(log, log[n].id, now), k) == if k == log[n].key then None else Active(log, k)
    {
      MarkDeactivates(log, n, now, k);
    }
  }

  lemma {:induction false} FindUnresolvedMeans(alerts: seq<Alert>, id: string)
    ensures FindUnresolved(alerts, id).Some? ==>
      exists i ::
        && 0 <= i < |alerts| && alerts[i].id == id && !alerts[i].Resolved()
        && alerts[i] == FindUnresolved(alerts, id).value
    ensures FindUnresolved(alerts, id).None? ==>
      forall i :: 0 <= i < |alerts| ==> alerts[i].id != id || alerts[i].Resolved()
  {
    if alerts != [] && !(alerts[0].id == id && !alerts[0].Resolved()) {
      FindUnresolvedMeans(alerts[1..], id);
      if i :| 0 <= i < |alerts[1..]| && alerts[1..][i].id == id && !alerts[1..][i].Resolved()
              && alerts[1..][i] == FindUnresolved(alerts[1..], id).value {
        assert alerts[i + 1] == alerts[1..][i];
      }
    }
  }

  lemma ActivePush(log: seq<Alert>, a: Alert, k: string)
    requires !a.Resolved()
    ensures Active(log + [a], k) == if k == a.key then Some(a.id) else Active(log, k)
  {
    assert (log + [a])[..|log|] == log;
  }

  lemma PushStaysDeduplicated(log: seq<Alert>, a: Alert)
    requires Deduplicated(log) && Active(log, a.key).None?
    ensures Deduplicated(log + [a])
  {
    ActiveMeans(log, a.key);
  }

  lemma PushStaysDistinct(log: seq<Alert>, a: Alert)
    requires DistinctAlertIds(log) && forall i :: 0 <= i < |log| ==> log[i].id != a.id
    ensures DistinctAlertIds(log + [a])
  {
  }

  lemma EmitPushes(log: seq<Alert>, a: Alert)
    requires DistinctAlertIds(log) && Deduplicated(log) && !a.Resolved() && Active(log, a.key).None?
    requires forall i :: 0 <= i < |log| ==> log[i].id != a.id
    ensures DistinctAlertIds(log + [a]) && Deduplicated(log + [a])
    ensures forall k :: Active(log + [a], k) == if k == a.key then Some(a.id) else Active(log, k)
  {
    PushStaysDistinct(log, a);
    PushStaysDeduplicated(log, a);
    forall k ensures Active(log + [a], k) == if k == a.key then Some(a.id) else Active(log, k) {
      ActivePush(log, a, k);
    }
  }

  /** With default suppression, `emit` on the bounded memory is `emit` on the full log, answer included. */
  lemma EmitRefines(s: Service, log: seq<Alert>, id: string, info: AlertInfo, now: real)
    requires Refines(s, log) && forall i :: 0 <= i < |log| ==> log[i].id != id
    ensures var (s', answer), (log', expected) := Emit(s, id, info, now, true), LogEmit(log, NewAlert(id, info, now));
      answer == expected && Refines(s', log')
  {
    var a := NewAlert(id, info, now);
    if Active(log, a.key).None? {
      EmitPushes(log, a);
      LastNPush(log, a, MAX_ALERTS);
    }
  }

  lemma ResolveRefines(s: Service, log: seq<Alert>, key: string, now: real)
    requires Refines(s, log)
    ensures var (s', answer), (log', expected) := Resolve(s, key, now), LogResolve(log, key, now);
      answer == expected && Refines(s', log')
  {
    ActiveMeans(log, key);
    if Active(log, key).Some? {
      var n :| 0 <= n < |log| && log[n].key == key && !log[n].Resolved() && log[n].id == Active(log, key).value;
      MarkRefines(s, log, n, now);
    }
  }

  lemma ResolveByIdRefines(s: Service, log: seq<Alert>, id: string, now: real)
    requires Refines(s, log)
    ensures var (s', answer), (log', expected) := ResolveById(s, id, now), LogResolveById(log, id, now);
      answer == expected && Refines(s', log')
  {
    FindUnresolvedMeans(s.alerts, id);
    if FindUnresolved(s.alerts, id).Some? {
      var i :| 0 <= i < |s.alerts| && s.alerts[i].id == id && !s.alerts[i].Resolved()
               && s.alerts[i] == FindUnresolved(s.alerts, id).value;
      var n := i + (|log| - |s.alerts|);
      assert log[n] == s.alerts[i];
      MarkRefines(s, log, n, now);
    }
  }

  /**
   * Emitting past an active alert is the only way to break deduplication: the invariant survives exactly when
   * suppression applies.
   */
  lemma UnsuppressedEmitKeepsInvariantIff(s: Service, log: seq<Alert>, id: string, info: AlertInfo, now: real,
      suppress: bool)
    requires Refines(s, log) && forall i :: 0 <= i < |log| ==> log[i].id != id
    ensures var a := NewAlert(id, info, now);
      var (s', answer) := Emit(s, id, info, now, suppress);
      Refines(s', if answer.Some? then log + [a] else log) <==> suppress || a.key !in s.suppressed
  {
    var a := NewAlert(id, info, now);
    if a.key !in s.suppressed {
      EmitPushes(log, a);
      LastNPush(log, a, MAX_ALERTS);
    } else if !suppress {
      SecondActiveAlert(log, a);
    }
  }

  lemma SecondActiveAlert(log: seq<Alert>, a: Alert)
    requires Active(log, a.key).Some? && !a.Resolved()
    ensures !Deduplicated(log + [a])
  {
    ActiveMeans(log, a.key);
    var i :| 0 <= i < |log| && log[i].key == a.key && !log[i].Resolved();
    assert (log + [a])[i] == log[i] && (log + [a])[|log|] == a;
  }

  // ---- Whole histories of requests ----

  datatype Request =
    | EmitRequest(id: string, info: AlertInfo, now: real)
    | ResolveRequest(alertType: string, cameraId: Option<string>, now: real)
    | ResolveByIdRequest(id: string, now: real)

  datatype Answer = Emitted(id: Option<string>) | Done(resolved: bool)

  function Serve(s: Service, q: Request): (Service, Answer) {
    match q
    case EmitRequest(id, info, now) => var (s', a) := Emit(s, id, info, now, true); (s', Emitted(a))
    case ResolveRequest(t, camera, now) => var (s', a) := Resolve(s, DedupKey(t, camera), now); (s', Done(a))
    case ResolveByIdRequest(id, now) => var (s', a) := ResolveById(s, id, now); (s', Done(a))
  }

  function LogServe(log: seq<Alert>, q: Request): (seq<Alert>, Answer) {
    match q
    case EmitRequest(id, info, now) => var (log', a) := LogEmit(log, NewAlert(id, info, now)); (log', Emitted(a))
    case ResolveRequest(t, camera, now) => var (log', a) := LogResolve(log, DedupKey(t, camera), now); (log', Done(a))
    case ResolveByIdRequest(id, now) => var (log', a) := LogResolveById(log, id, now); (log', Done(a))
  }

  /** The service, and the answers it gave, after some requests to an empty one. */
  function ServiceAfter(qs: seq<Request>): (Service, seq<Answer>) {
    if qs == [] then (Service([], map[]), [])
    else
      var (s, answers) := ServiceAfter(qs[..|qs| - 1]);
      var (s', a) := Serve(s, qs[|qs| - 1]);
      (s', answers + [a])
  }

  /** The unbounded log, and the answers it calls for. */
  function LogAfter(qs: seq<Request>): (seq<Alert>, seq<Answer>) {
    if qs == [] then ([], [])
    else
      var (log, answers) := LogAfter(qs[..|qs| - 1]);
      var (log', a) := LogServe(log, qs[|qs| - 1]);
      (log', answers + [a])
  }

  ghost predicate NewId(log: seq<Alert>, id: string) {
    forall i :: 0 <= i < |log| ==> log[i].id != id
  }

  /** Every alert is emitted under an id that the log does not hold. */
  ghost predicate FreshIds(qs: seq<Request>) {
    qs != [] ==>
      var q := qs[|qs| - 1];
      FreshIds(qs[..|qs| - 1]) && (q.EmitRequest? ==> NewId(LogAfter(qs[..|qs| - 1]).0, q.id))
  }

  lemma ServeRefines(s: Service, log: seq<Alert>, q: Request)
    requires Refines(s, log) && (q.EmitRequest? ==> NewId(log, q.id))
    ensures Serve(s, q).1 == LogServe(log, q).1 && Refines(Serve(s, q).0, LogServe(log, q).0)
  {
    match q
    case EmitRequest(id, info, now) => EmitRefines(s, log, id, info, now);
    case ResolveRequest(t, camera, now) => ResolveRefines(s, log, DedupKey(t, camera), now);
    case ResolveByIdRequest(id, now) => ResolveByIdRefines(s, log, id, now);
  }

  /**
   * Over every history of requests with default suppression the bounded service gives the answers of the
   * unbounded log, and its memory is the last thousand entries of that log with the keys of all that are active.
   */
  lemma {:induction false} HistoryRefines(qs: seq<Request>)
    requires FreshIds(qs)
    ensures Refines(ServiceAfter(qs).0, LogAfter(qs).0) && ServiceAfter(qs).1 == LogAfter(qs).1
  {
    if qs != [] {
      var front := qs[..|qs| - 1];
      HistoryRefines(front);
      ServeRefines(ServiceAfter(front).0, LogAfter(front).0, qs[|qs| - 1]);
    }
  }

  // ---- Which alerts share a key ----

  /** No camera in particular; a camera named "global" cannot be told from that. */
  predicate Everywhere(camera: Option<string>) {
    camera.None? || camera.value == "" || camera.value == "global"
  }

  predicate SameCamera(a: Option<string>, b: Option<string>) {
    a == b || (Everywhere(a) && Everywhere(b))
  }

  /** Neither type continues the other after a colon; types without colons never do. */
  predicate Apart(a: string, b: string) {
    !(a + ":" <= b) && !(b + ":" <= a)
  }

  lemma ColonFreeIsApart(a: string, b: string)
    requires ':' !in a && ':' !in b
    ensures Apart(a, b)
  {
    if a + ":" <= b {
      assert b[|a|] == ':';
    }
    if b + ":" <= a {
      assert a[|b|] == ':';
    }
  }

  lemma KeyStart(alertType: string, camera: Option<string>)
    ensures var k := DedupKey(alertType, camera);
      && |k| > |alertType| && k[..|alertType|] == alertType && k[..|alertType| + 1] == alertType + ":"
      && k[|alertType| + 1..] == if camera.None? || camera.value == "" then "global" else camera.value
  {
  }

  lemma SameKeySameType(a: string, c: Option<string>, b: string, d: Option<string>)
    requires Apart(a, b) && DedupKey(a, c) == DedupKey(b, d)
    ensures a == b
  {
    KeyStart(a, c);
    KeyStart(b, d);
    var k := DedupKey(a, c);
    if |a| < |b| {
      assert b[..|a| + 1] == k[..|a| + 1] == a + ":";
      assert false;
    } else if |b| < |a| {
      assert a[..|b| + 1] == k[..|b| + 1] == b + ":";
      assert false;
    }
  }

  /** Two alerts share a key exactly when type and camera are the same. */
  lemma KeyEqualIff(a: string, c: Option<string>, b: string, d: Option<string>)
    requires Apart(a, b)
    ensures DedupKey(a, c) == DedupKey(b, d) <==> a == b && SameCamera(c, d)
  {
    KeyStart(a, c);
    KeyStart(b, d);
    if DedupKey(a, c) == DedupKey(b, d) {
      SameKeySameType(a, c, b, d);
    }
  }

  /** Different types can collide, on some cameras, exactly when one continues the other after a colon. */
  lemma TypesCollideIff(a: string, b: string)
    requires a != b
    ensures (exists c, d :: DedupKey(a, c) == DedupKey(b, d)) <==> !Apart(a, b)
  {
    if c, d :| DedupKey(a, c) == DedupKey(b, d) {
      if Apart(a, b) {
        SameKeySameType(a, c, b, d);
        assert false;
      }
    }
    if a + ":" <= b {
      assert b == a + ":" + b[|a| + 1..];
      Collision(a, b[|a| + 1..]);
    } else if b + ":" <= a {
      assert a == b + ":" + a[|b| + 1..];
      Collision(b, a[|b| + 1..]);
    }
  }

  lemma Collision(a: string, rest: string)
    ensures DedupKey(a, Some(rest + ":" + "x")) == DedupKey(a + ":" + rest, Some("x"))
  {
    assert a + ":" + (rest + ":" + "x") == a + ":" + rest + ":" + "x";
  }

  /** Every logged alert has the key of its type and camera. */
  ghost predicate KeysFit(log: seq<Alert>) {
    forall i :: 0 <= i < |log| ==> log[i].key == DedupKey(log[i].info.alertType, log[i].info.cameraId)
  }

  ghost predicate ApartFrom(log: seq<Alert>, alertType: string) {
    forall i :: 0 <= i < |log| ==> Apart(log[i].info.alertType, alertType)
  }

  /** Entry `i` is an unresolved alert of this type and camera. */
  predicate ActiveAt(log: seq<Alert>, i: nat, alertType: string, camera: Option<string>) {
    i < |log| && !log[i].Resolved() && log[i].info.alertType == alertType && SameCamera(log[i].info.cameraId, camera)
  }

  ghost predicate ActiveFor(log: seq<Alert>, alertType: string, camera: Option<string>) {
    exists i :: ActiveAt(log, i, alertType, camera)
  }

  lemma ActiveForIff(log: seq<Alert>, alertType: string, camera: Option<string>)
    requires KeysFit(log) && ApartFrom(log, alertType)
    ensures Active(log, DedupKey(alertType, camera)).Some? <==> ActiveFor(log, alertType, camera)
  {
    var key := DedupKey(alertType, camera);
    ActiveMeans(log, key);
    forall i | 0 <= i < |log|
      ensures ActiveAt(log, i, alertType, camera) <==> log[i].key == key && !log[i].Resolved()
    {
      KeyEqualIff(log[i].info.alertType, log[i].info.cameraId, alertType, camera);
    }
  }

  /** The alert as it was raised. */
  predicate IsRaised(a: Alert, id: string, info: AlertInfo, now: real) {
    a.id == id && a.info == info && a.timestamp == now && a.resolvedAt == None
  }

  /**
   * With suppression, `emit` answers nothing exactly when an alert of the same type and camera is unresolved, in
   * memory or not; otherwise it answers the new id and logs the alert as raised.
   */
  lemma EmitSuppressesIff(s: Service, log: seq<Alert>, id: string, info: AlertInfo, now: real)
    requires Refines(s, log) && KeysFit(log) && ApartFrom(log, info.alertType)
    ensures var (answer, log') := (Emit(s, id, info, now, true).1, LogEmit(log, NewAlert(id, info, now)).0);
      && (answer == None <==> ActiveFor(log, info.alertType, info.cameraId))
      && (if answer == None then log' == log else answer == Some(id) && IsLogged(log, log', id, info, now))
  {
    ActiveForIff(log, info.alertType, info.cameraId);
  }

  /** The log has grown by the alert as it was raised. */
  ghost predicate IsLogged(log: seq<Alert>, log': seq<Alert>, id: string, info: AlertInfo, now: real) {
    |log'| == |log| + 1 && log'[..|log|] == log && IsRaised(log'[|log|], id, info, now)
  }

  lemma EmitKeepsKeys(log: seq<Alert>, id: string, info: AlertInfo, now: real)
    requires KeysFit(log)
    ensures KeysFit(LogEmit(log, NewAlert(id, info, now)).0)
  {
  }

  lemma {:induction false} HistoryKeysFit(qs: seq<Request>)
    ensures KeysFit(LogAfter(qs).0)
  {
    if qs != [] {
      var log, q := LogAfter(qs[..|qs| - 1]).0, qs[|qs| - 1];
      HistoryKeysFit(qs[..|qs| - 1]);
      if q.EmitRequest? {
        EmitKeepsKeys(log, q.id, q.info, q.now);
      }
    }
  }

  /**
   * After every history, the next `emit` answers nothing exactly when an alert of the same type and camera is
   * unresolved in the log of that history, and its own id otherwise.
   */
  lemma HistorySuppressesIff(qs: seq<Request>, id: string, info: AlertInfo, now: real)
    requires FreshIds(qs) && ApartFrom(LogAfter(qs).0, info.alertType)
    ensures Serve(ServiceAfter(qs).0, EmitRequest(id, info, now)).1
      == Emitted(if ActiveFor(LogAfter(qs).0, info.alertType, info.cameraId) then None else Some(id))
  {
    HistoryRefines(qs);
    HistoryKeysFit(qs);
    EmitSuppressesIff(ServiceAfter(qs).0, LogAfter(qs).0, id, info, now);
  }

  /** Entry `i` is resolved now and the others are left alone. */
  ghost predicate ResolvesAt(log: seq<Alert>, log': seq<Alert>, i: nat, now: real) {
    && i < |log| == |log'| && log'[i] == log[i].(resolvedAt := Some(now))
    && forall j :: 0 <= j < |log| && j != i ==> log'[j] == log[j]
  }

  lemma MarkResolvesAt(log: seq<Alert>, i: nat, now: real)
    requires DistinctAlertIds(log) && i < |log|
    ensures ResolvesAt(log, Mark(log, log[i].id, now), i, now)
  {
    forall j | 0 <= j < |log| && j != i ensures log[j].id != log[i].id {
      assert log[if i < j then i else j].id != log[if i < j then j else i].id;
    }
  }

  /** `resolve` succeeds exactly when an alert of this type and camera is unresolved, and resolves that one. */
  lemma ResolveSucceedsIff(s: Service, log: seq<Alert>, alertType: string, camera: Option<string>, now: real)
    requires Refines(s, log) && KeysFit(log) && ApartFrom(log, alertType)
    ensures var key := DedupKey(alertType, camera);
      var (answer, log') := (Resolve(s, key, now).1, LogResolve(log, key, now).0);
      && (answer <==> ActiveFor(log, alertType, camera))
      && (answer ==> exists i :: ActiveAt(log, i, alertType, camera) && ResolvesAt(log, log', i, now))
      && (!answer ==> log' == log)
  {
    var key := DedupKey(alertType, camera);
    ActiveForIff(log, alertType, camera);
    ActiveMeans(log, key);
    if Active(log, key).Some? {
      var i :| 0 <= i < |log| && log[i].key == key && !log[i].Resolved() && log[i].id == Active(log, key).value;
      KeyEqualIff(log[i].info.alertType, log[i].info.cameraId, alertType, camera);
      MarkResolvesAt(log, i, now);
      assert ActiveAt(log, i, alertType, camera);
    }
  }

  /** `resolve_by_id` succeeds exactly for an unresolved alert among the last thousand, and resolves that one. */
  lemma ResolveByIdSucceedsIff(s: Service, log: seq<Alert>, i: nat, now: real)
    requires Refines(s, log) && i < |log|
    ensures var (answer, log') := (ResolveById(s, log[i].id, now).1, LogResolveById(log, log[i].id, now).0);
      && (answer <==> !log[i].Resolved() && i >= |log| - 1000)
      && (if answer then ResolvesAt(log, log', i, now) else log' == log)
  {
    FoundIff(s.alerts, log, i);
    MarkResolvesAt(log, i, now);
  }

  lemma SameIdSameEntry(log: seq<Alert>, i: nat, j: nat)
    requires DistinctAlertIds(log) && i < |log| && j < |log| && log[i].id == log[j].id
    ensures i == j
  {
    assert i != j ==> log[if i < j then i else j].id != log[if i < j then j else i].id;
  }

  lemma FoundIff(alerts: seq<Alert>, log: seq<Alert>, i: nat)
    requires DistinctAlertIds(log) && alerts == LastN(log, 1000) && i < |log|
    ensures FindUnresolved(alerts, log[i].id).Some? <==> !log[i].Resolved() && i >= |log| - 1000
  {
    var gone := |log| - |alerts|;
    FindUnresolvedMeans(alerts, log[i].id);
    if i >= gone {
      assert alerts[i - gone] == log[i];
    }
    if j :| 0 <= j < |alerts| && alerts[j].id == log[i].id && !alerts[j].Resolved() {
      assert log[gone + j] == alerts[j];
      SameIdSameEntry(log, i, gone + j);
    }
  }

  // ---- What the active count misses ----

  function ActiveCount(alerts: seq<Alert>): nat {
    if alerts == [] then 0 else ActiveCount(alerts[..|alerts| - 1]) + if alerts[|alerts| - 1].Resolved() then 0 else 1
  }

  lemma {:induction false} ActiveCountConcat(a: seq<Alert>, b: seq<Alert>)
    ensures ActiveCount(a + b) == ActiveCount(a) + ActiveCount(b)
  {
    if b == [] {
      assert a + b == a;
    } else {
      ActiveCountConcat(a, b[..|b| - 1]);
      DropLastOfConcat(a, b);
    }
  }

  ghost function ActiveKeys(log: seq<Alert>): (r: set<string>)
    ensures forall k :: k in r <==> Active(log, k).Some?
  {
    if log == [] then {}
    else if log[|log| - 1].Resolved() then ActiveKeys(log[..|log| - 1])
    else ActiveKeys(log[..|log| - 1]) + {log[|log| - 1].key}
  }

  lemma {:induction false} OneActiveAlertPerKey(log: seq<Alert>)
    requires Deduplicated(log)
    ensures |ActiveKeys(log)| == ActiveCount(log)
  {
    if log != [] {
      var front, a := log[..|log| - 1], log[|log| - 1];
      OneActiveAlertPerKey(front);
      ActiveMeans(front, a.key);
    }
  }

  lemma SuppressedAreActive(s: Service, log: seq<Alert>)
    requires Refines(s, log)
    ensures s.suppressed.Keys == ActiveKeys(log)
  {
    var a, b := s.suppressed.Keys, ActiveKeys(log);
    forall k | k in a ensures k in b {
    }
    forall k | k in b ensures k in a {
    }
  }

  /** The active count falls short of the suppressed keys by exactly the unresolved alerts already truncated away. */
  lemma ActiveCountMissesTruncated(s: Service, log: seq<Alert>)
    requires Refines(s, log)
    ensures ActiveCount(s.alerts) + ActiveCount(log[..|log| - |s.alerts|]) == |s.suppressed|
  {
    var gone := log[..|log| - |s.alerts|];
    assert log == gone + s.alerts;
    ActiveCountConcat(gone, s.alerts);
    OneActiveAlertPerKey(log);
    SuppressedAreActive(s, log);
    assert |s.suppressed| == |s.suppressed.Keys|;
  }
}

/** The mutable service. */
module Alerting {
  import opened Sequences
  import opened AlertLog

  class AlertService {
    var alerts: seq<Alert>
    var suppressed: map<string, string>
    ghost var log: seq<Alert>

    constructor ()
      ensures Valid() && log == []
    {
      alerts, suppressed, log := [], map[], [];
    }

    ghost predicate Valid()
      reads this
    {
      Refines(View(), log) && KeysFit(log)
    }

    function View(): Service
      reads this
    {
      Service(alerts, suppressed)
    }

    /** Remember an alert as the active one of its key, and the last thousand of all. */
    method Remember(alert: Alert)
      modifies this`alerts, this`suppressed
      ensures alerts == LastN(old(alerts) + [alert], 1000)
      ensures suppressed == old(suppressed)[alert.key := alert.id]
    {
      alerts := alerts + [alert];
      suppressed := suppressed[alert.key := alert.id];
      if |alerts| > MAX_ALERTS {
        alerts := alerts[|alerts| - MAX_ALERTS..];
      }
    }

    /**
     * Raise an alert under a fresh id; with suppression the answer is empty exactly when an alert of the same type and
     * camera is active.
     */
    method Raise(freshId: string, info: AlertInfo, now: real, suppressIfActive: bool) returns (id: Option<string>)
      requires Valid() && forall i :: 0 <= i < |log| ==> log[i].id != freshId
      modifies this
      ensures (View(), id) == Emit(old(View()), freshId, info, now, suppressIfActive)
      ensures log == if id.Some? then old(log) + [NewAlert(freshId, info, now)] else old(log)
      ensures Valid() <==> suppressIfActive || DedupKey(info.alertType, info.cameraId) !in old(suppressed)
      ensures SuppressedFor(id, suppressIfActive, old(log), info)
    {
      UnsuppressedEmitKeepsInvariantIff(View(), log, freshId, info, now, suppressIfActive);
      EmitIsSuppressedFor(View(), log, freshId, info, now, suppressIfActive);
      NewKeyFits(log, freshId, info, now);
      var key := DedupKey(info.alertType, info.cameraId);
      if suppressIfActive && key in suppressed {
        return None;
      }
      var alert := Alert(freshId, info, key, now, None);
      Remember(alert);
      log := log + [alert];
      return Some(freshId);
    }

    /** Mark the first remembered alert with this id as resolved. */
    method MarkInMemory(id: string, now: real)
      modifies this`alerts
      ensures alerts == MarkFirst(old(alerts), id, now)
    {
      ghost var all := alerts;
      for i := 0 to |alerts|
        invariant alerts == all
        invariant MarkFirst(all, id, now) == all[..i] + MarkFirst(all[i..], id, now)
      {
        assert all[i..][1..] == all[i + 1..];
        if alerts[i].id == id {
          alerts := alerts[i := alerts[i].(resolvedAt := Some(now))];
          return;
        }
      }
    }

    /** Clear the active alert of a type and camera; true when there was one, remembered or not. */
    method Clear(alertType: string, cameraId: Option<string>, now: real) returns (cleared: bool)
      requires Valid()
      modifies this
      ensures Valid()
      ensures (View(), cleared) == Resolve(old(View()), DedupKey(alertType, cameraId), now)
      ensures (log, cleared) == LogResolve(old(log), DedupKey(alertType, cameraId), now)
      ensures ClearedFor(cleared, old(log), alertType, cameraId)
    {
      var key := DedupKey(alertType, cameraId);
      ResolveRefines(View(), log, key, now);
      ResolveClears(View(), log, alertType, cameraId);
      ResolveKeepsKeys(log, key, now);
      if key !in suppressed {
        return false;
      }
      var id := suppressed[key];
      log := LogResolve(log, key, now).0;
      suppressed := suppressed - {key};
      MarkInMemory(id, now);
      return true;
    }

    /** Where the first unresolved alert with this id is remembered, or past the end. */
    method IndexOfUnresolved(id: string) returns (i: nat)
      ensures i <= |alerts|
      ensures FindUnresolved(alerts, id) == if i < |alerts| then Some(alerts[i]) else None
    {
      i := 0;
      while i < |alerts|
        invariant i <= |alerts|
        invariant FindUnresolved(alerts, id) == FindUnresolved(alerts[i..], id)
      {
        if alerts[i].id == id && !alerts[i].Resolved() {
          return;
        }
        assert alerts[i..][1..] == alerts[i + 1..];
        i := i + 1;
      }
    }

    /** Clear one remembered alert by id. */
    method ClearById(id: string, now: real) returns (cleared: bool)
      requires Valid()
      modifies this
      ensures Valid()
      ensures (View(), cleared) == ResolveById(old(View()), id, now)
      ensures (log, cleared) == LogResolveById(old(log), id, now)
    {
      ResolveByIdRefines(View(), log, id, now);
      var i := IndexOfUnresolved(id);
      if i == |alerts| {
        return false;
      }
      FindUnresolvedMeans(alerts, id);
      MarkAt(View(), log, i, now);
      log := Mark(log, id, now);
      suppressed := suppressed - {alerts[i].key};
      alerts := alerts[i := alerts[i].(resolvedAt := Some(now))];
      return true;
    }

    method GetActiveCount() returns (n: nat)
      ensures n == ActiveCount(alerts)
    {
      n := 0;
      for i := 0 to |alerts|
        invariant n == ActiveCount(alerts[..i])
      {
        assert alerts[..i + 1][..i] == alerts[..i];
        if !alerts[i].Resolved() {
          n := n + 1;
        }
      }
      assert alerts[..|alerts|] == alerts;
    }
  }

  /** What an answer says about the log, for types told apart by their keys. */
  ghost predicate SuppressedFor(answer: Option<string>, suppress: bool, log: seq<Alert>, info: AlertInfo) {
    suppress && ApartFrom(log, info.alertType) ==> (answer == None <==> ActiveFor(log, info.alertType, info.cameraId))
  }

  lemma EmitIsSuppressedFor(s: Service, log: seq<Alert>, id: string, info: AlertInfo, now: real, suppress: bool)
    requires Refines(s, log) && KeysFit(log)
    ensures SuppressedFor(Emit(s, id, info, now, suppress).1, suppress, log, info)
  {
    if ApartFrom(log, info.alertType) {
      ActiveForIff(log, info.alertType, info.cameraId);
    }
  }

  lemma NewKeyFits(log: seq<Alert>, id: string, info: AlertInfo, now: real)
    requires KeysFit(log)
    ensures KeysFit(log + [NewAlert(id, info, now)])
  {
  }

  ghost predicate ClearedFor(cleared: bool, log: seq<Alert>, alertType: string, camera: Option<string>) {
    ApartFrom(log, alertType) ==> (cleared <==> ActiveFor(log, alertType, camera))
  }

  lemma ResolveClears(s: Service, log: seq<Alert>, alertType: string, camera: Option<string>)
    requires Refines(s, log) && KeysFit(log)
    ensures ClearedFor(DedupKey(alertType, camera) in s.suppressed, log, alertType, camera)
  {
    if ApartFrom(log, alertType) {
      ActiveForIff(log, alertType, camera);
    }
  }

  lemma ResolveKeepsKeys(log: seq<Alert>, key: string, now: real)
    requires KeysFit(log)
    ensures KeysFit(LogResolve(log, key, now).0)
  {
  }

  lemma MarkAt(s: Service, log: seq<Alert>, i: nat, now: real)
    requires Refines(s, log) && i < |s.alerts|
    ensures s.alerts[i := s.alerts[i].(resolvedAt := Some(now))] == MarkFirst(s.alerts, s.alerts[i].id, now)
  {
    MarkFirstIsMark(s.alerts, s.alerts[i].id, now);
    var marked := Mark(s.alerts, s.alerts[i].id, now);
    forall j | 0 <= j < |s.alerts| && j != i ensures marked[j] == s.alerts[j] {
      assert s.alerts[if i < j then i else j].id != s.alerts[if i < j then j else i].id;
    }
  }
}

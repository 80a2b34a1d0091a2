/** Planar geometry: points, boxes and the polygon test that lane assignment relies on. */
module Geometry {
  import opened Sequences

  datatype Point = Point(x: real, y: real)

  /** A bounding box `[xmin, ymin, xmax, ymax]`. */
  datatype Box = Box(xmin: real, ymin: real, xmax: real, ymax: real)

  function BottomCentre(b: Box): Point {
    Point((b.xmin + b.xmax) / 2.0, b.ymax)
  }

  /** Move by minus `(dx, dy)`: from frame coordinates to the coordinates of a crop at `(dx, dy)`. */
  function ShiftPoint(p: Point, dx: real, dy: real): Point {
    Point(p.x - dx, p.y - dy)
  }

  function ShiftBox(b: Box, dx: real, dy: real): Box {
    Box(b.xmin - dx, b.ymin - dy, b.xmax - dx, b.ymax - dy)
  }

  function ShiftPoints(ps: seq<Point>, dx: real, dy: real): (r: seq<Point>)
    ensures |r| == |ps|
    ensures forall i :: 0 <= i < |ps| ==> r[i] == ShiftPoint(ps[i], dx, dy)
  {
    seq(|ps|, i requires 0 <= i < |ps| => ShiftPoint(ps[i], dx, dy))
  }

  /** The anchor of a box lies halfway between its sides, on its lower edge. */
  lemma BottomCentreIs(b: Box, p: Point)
    ensures p == BottomCentre(b) <==> p.x - b.xmin == b.xmax - p.x && p.y == b.ymax
  {
  }

  lemma BottomCentreShifts(b: Box, dx: real, dy: real)
    ensures BottomCentre(ShiftBox(b, dx, dy)) == ShiftPoint(BottomCentre(b), dx, dy)
  {
  }

  datatype Side = OnEdge | Crossing | Missed

  /** Twice the signed area of the triangle `v0, v, p`. */
  function Turn(v0: Point, v: Point, p: Point): real {
    (p.y - v0.y) * (v.x - v0.x) - (p.x - v0.x) * (v.y - v0.y)
  }

  /** How the ray from `p` towards larger x meets the edge from `v0` to `v`. */
  function EdgeSide(v0: Point, v: Point, p: Point): Side {
    if (v0.y <= p.y && v.y <= p.y) || (v0.y > p.y && v.y > p.y) || (v0.x < p.x && v.x < p.x) then
      if p.y == v.y && (p.x == v.x || (p.y == v0.y && (v0.x <= p.x <= v.x || v.x <= p.x <= v0.x)))
      then OnEdge
      else Missed
    else
      var d := Turn(v0, v, p);
      if d == 0.0 then OnEdge
      else if (if v.y < v0.y then -d else d) > 0.0 then Crossing
      else Missed
  }

  function Predecessor(points: seq<Point>, i: nat): Point
    requires i < |points|
  {
    if i == 0 then points[|points| - 1] else points[i - 1]
  }

  /** Edges crossed among the first `k`, or nothing when `p` lies on one of them. */
  function Crossings(points: seq<Point>, p: Point, k: nat): Option<nat>
    requires k <= |points|
  {
    if k == 0 then Some(0)
    else
      match Crossings(points, p, k - 1)
      case None => None
      case Some(n) =>
        match EdgeSide(Predecessor(points, k - 1), points[k - 1], p)
        case OnEdge => None
        case Crossing => Some(n + 1)
        case Missed => Some(n)
  }

  /** Positive inside, zero on an edge, negative outside. */
  function PointPolygonTest(points: seq<Point>, p: Point): int {
    match Crossings(points, p, |points|)
    case None => 0
    case Some(n) => if n % 2 == 0 then -1 else 1
  }

  lemma EdgeSideShifts(v0: Point, v: Point, p: Point, dx: real, dy: real)
    ensures EdgeSide(ShiftPoint(v0, dx, dy), ShiftPoint(v, dx, dy), ShiftPoint(p, dx, dy)) == EdgeSide(v0, v, p)
  {
    var w0, w, q := ShiftPoint(v0, dx, dy), ShiftPoint(v, dx, dy), ShiftPoint(p, dx, dy);
    assert q.y - w0.y == p.y - v0.y && w.x - w0.x == v.x - v0.x;
    assert q.x - w0.x == p.x - v0.x && w.y - w0.y == v.y - v0.y;
    assert Turn(w0, w, q) == Turn(v0, v, p);
  }

  lemma {:induction false} CrossingsShift(points: seq<Point>, p: Point, k: nat, dx: real, dy: real)
    requires k <= |points|
    ensures Crossings(ShiftPoints(points, dx, dy), ShiftPoint(p, dx, dy), k) == Crossings(points, p, k)
  {
    if k > 0 {
      CrossingsShift(points, p, k - 1, dx, dy);
      EdgeSideShifts(Predecessor(points, k - 1), points[k - 1], p, dx, dy);
    }
  }

  /** A corner of a polygon lies on its boundary. */
  lemma {:induction false} VertexIsOnEdge(points: seq<Point>, i: nat, k: nat)
    requires i < k <= |points|
    ensures Crossings(points, points[i], k).None?
    decreases k
  {
    if k - 1 == i {
      assert EdgeSide(Predecessor(points, i), points[i], points[i]) == OnEdge;
    } else {
      VertexIsOnEdge(points, i, k - 1);
    }
  }

  // ---- What the test means, for every polygon ----

  /** The point a part `t` of the way from `v0` to `v`. */
  function Between(v0: Point, v: Point, t: real): Point {
    Point(v0.x + t * (v.x - v0.x), v0.y + t * (v.y - v0.y))
  }

  ghost predicate OnSegment(v0: Point, v: Point, p: Point) {
    exists t: real :: 0.0 <= t <= 1.0 && p == Between(v0, v, t)
  }

  /** The ends of the edge lie on both sides of the level of `p`, and the edge meets that level to the right of `p`. */
  predicate MeetsRay(v0: Point, v: Point, p: Point) {
    (v0.y > p.y) != (v.y > p.y) && p.x < v0.x + (p.y - v0.y) * (v.x - v0.x) / (v.y - v0.y)
  }

  ghost predicate OnBoundary(points: seq<Point>, p: Point) {
    exists i :: 0 <= i < |points| && OnSegment(Predecessor(points, i), points[i], p)
  }

  /** How many of the first `k` edges meet the ray. */
  function RayCount(points: seq<Point>, p: Point, k: nat): nat
    requires k <= |points|
  {
    if k == 0 then 0
    else RayCount(points, p, k - 1) + if MeetsRay(Predecessor(points, k - 1), points[k - 1], p) then 1 else 0
  }

  lemma Scaling(a: real, b: real, c: real)
    requires c > 0.0
    ensures a < b <==> a * c < b * c
    ensures a == b <==> a * c == b * c
  {
    if a < b {
      PositiveProduct(b - a, c);
    } else if b < a {
      PositiveProduct(a - b, c);
    }
  }

  lemma PositiveProduct(a: real, b: real)
    requires a > 0.0 && b > 0.0
    ensures a * b > 0.0
  {
  }

  /** The meeting point, compared by the sign of the turn instead of by a division. */
  lemma MeetingPoint(dx: real, up: real, height: real, run: real)
    requires height != 0.0
    ensures dx < up * run / height <==> if height > 0.0 then dx * height < up * run else up * run < dx * height
  {
    var q := up * run / height;
    assert q * height == up * run;
    if height > 0.0 {
      Scaling(dx, q, height);
    } else {
      Scaling(q, dx, -height);
      assert q * -height == -(up * run) && dx * -height == -(dx * height);
    }
  }

  /** An edge that spans the level of `p` and is not left of it altogether is told by the turn. */
  lemma SpanningEdge(v0: Point, v: Point, p: Point)
    requires (v0.y > p.y) != (v.y > p.y)
    ensures var d := Turn(v0, v, p);
      MeetsRay(v0, v, p) <==> (if v.y < v0.y then -d else d) > 0.0
  {
    var dx, up, height, run := p.x - v0.x, p.y - v0.y, v.y - v0.y, v.x - v0.x;
    MeetingPoint(dx, up, height, run);
    assert MeetsRay(v0, v, p) <==> dx < up * run / height;
    assert Turn(v0, v, p) == up * run - dx * height;
  }

  /** The turn of a point right of both ends of an edge that spans its level. */
  lemma LeftEdge(v0: Point, v: Point, p: Point)
    requires (v0.y > p.y) != (v.y > p.y) && v0.x < p.x && v.x < p.x
    ensures (if v.y < v0.y then -Turn(v0, v, p) else Turn(v0, v, p)) < 0.0
  {
    if v0.y < v.y {
      Leaning(p.y - v0.y, v.y - p.y, p.x - v0.x, p.x - v.x);
      assert Turn(v0, v, p) == -((p.y - v0.y) * ((p.x - v.x) - (p.x - v0.x)) + (p.x - v0.x) * (v.y - v0.y));
    } else {
      Leaning(v0.y - p.y, p.y - v.y, p.x - v0.x, p.x - v.x);
      assert -Turn(v0, v, p) == -((v0.y - p.y) * ((p.x - v.x) - (p.x - v0.x)) + (p.x - v0.x) * (v0.y - v.y));
    }
  }

  lemma EdgeCrossingIff(v0: Point, v: Point, p: Point)
    requires EdgeSide(v0, v, p) != OnEdge
    ensures EdgeSide(v0, v, p) == Crossing <==> MeetsRay(v0, v, p)
  {
    if (v0.y > p.y) != (v.y > p.y) {
      SpanningEdge(v0, v, p);
      if v0.x < p.x && v.x < p.x {
        LeftEdge(v0, v, p);
      }
    }
  }

  /** The value `c` lies strictly between two different ends, and equals equal ones. */
  predicate StrictlyBetween(a: real, b: real, c: real) {
    (a < b ==> a < c < b) && (b < a ==> b < c < a) && (a == b ==> c == b)
  }

  lemma BetweenEnds(v0: Point, v: Point, t: real)
    requires 0.0 < t < 1.0
    ensures var p := Between(v0, v, t); StrictlyBetween(v0.x, v.x, p.x) && StrictlyBetween(v0.y, v.y, p.y)
  {
    BetweenValues(v0.x, v.x - v0.x, t);
    BetweenValues(v0.y, v.y - v0.y, t);
  }

  lemma Portion(t: real, w: real)
    requires 0.0 < t < 1.0 && w > 0.0
    ensures 0.0 < t * w < w
  {
    PositiveProduct(t, w);
    PositiveProduct(1.0 - t, w);
    assert (1.0 - t) * w == w - t * w;
  }

  lemma Opposite(t: real, u: real, w: real)
    requires u == -w
    ensures t * w == -(t * u)
  {
  }

  lemma TimesZero(t: real, w: real)
    requires w == 0.0
    ensures t * w == 0.0
  {
  }

  lemma BetweenValues(a: real, w: real, t: real)
    requires 0.0 < t < 1.0
    ensures StrictlyBetween(a, a + w, a + t * w)
  {
    if w > 0.0 {
      Portion(t, w);
    } else if w < 0.0 {
      var u := -w;
      Portion(t, u);
      Opposite(t, u, w);
    } else {
      TimesZero(t, w);
    }
  }

  lemma NoTurnBetween(v0: Point, v: Point, t: real)
    ensures Turn(v0, v, Between(v0, v, t)) == 0.0
  {
    var w, h := v.x - v0.x, v.y - v0.y;
    assert (t * h) * w == (t * w) * h;
  }

  /** Every point of a segment but its start is found on the edge. */
  lemma SegmentIsFound(v0: Point, v: Point, t: real)
    requires 0.0 < t <= 1.0
    ensures EdgeSide(v0, v, Between(v0, v, t)) == OnEdge
  {
    NoTurnBetween(v0, v, t);
    if t == 1.0 {
      assert Between(v0, v, t) == v;
    } else {
      BetweenEnds(v0, v, t);
    }
  }

  lemma EndIsFound(v0: Point, v: Point)
    ensures EdgeSide(v0, v, v) == OnEdge
  {
    SegmentIsFound(v0, v, 1.0);
    assert Between(v0, v, 1.0) == v;
  }

  lemma PartOf(a: real, b: real, c: real) returns (t: real)
    requires a < b && a <= c <= b
    ensures 0.0 <= t <= 1.0 && t * (b - a) == c - a
  {
    var w := b - a;
    t := (c - a) / w;
    assert t * w == c - a && 1.0 * w == w && 0.0 * w == 0.0;
    Scaling(1.0, t, w);
    Scaling(t, 0.0, w);
  }

  /** A spanning edge without a turn holds the point. */
  lemma FlatTurnIsOnSegment(v0: Point, v: Point, p: Point)
    requires (v0.y > p.y) != (v.y > p.y) && Turn(v0, v, p) == 0.0
    ensures OnSegment(v0, v, p)
  {
    var t;
    if v0.y < v.y {
      t := PartOf(v0.y, v.y, p.y);
      FlatTurn(t, v.y - v0.y, v.x - v0.x, p.x - v0.x);
    } else {
      var u := PartOf(v.y, v0.y, p.y);
      t := 1.0 - u;
      assert t * (v.y - v0.y) == p.y - v0.y;
      FlatTurn(t, v0.y - v.y, v.x - v0.x, p.x - v0.x);
    }
    assert p == Between(v0, v, t);
  }

  lemma FlatTurn(t: real, height: real, run: real, dx: real)
    requires height > 0.0 && (t * height) * run == dx * height
    ensures dx == t * run
  {
    assert (t * run) * height == (t * height) * run;
    Scaling(dx, t * run, height);
  }

  lemma OnEdgeIsOnSegment(v0: Point, v: Point, p: Point)
    requires EdgeSide(v0, v, p) == OnEdge
    ensures OnSegment(v0, v, p)
  {
    if p == v {
      assert p == Between(v0, v, 1.0);
    } else if (v0.y > p.y) != (v.y > p.y) {
      FlatTurnIsOnSegment(v0, v, p);
    } else {
      LevelIsOnSegment(v0, v, p);
    }
  }

  lemma LevelIsOnSegment(v0: Point, v: Point, p: Point)
    requires v0.y == p.y == v.y && v0.x != v.x && (v0.x <= p.x <= v.x || v.x <= p.x <= v0.x)
    ensures OnSegment(v0, v, p)
  {
    var t;
    if v0.x < v.x {
      t := PartOf(v0.x, v.x, p.x);
    } else {
      var u := PartOf(v.x, v0.x, p.x);
      t := 1.0 - u;
      assert t * (v.x - v0.x) == p.x - v0.x;
    }
    assert p == Between(v0, v, t);
  }

  ghost predicate FoundAmong(points: seq<Point>, p: Point, k: nat)
    requires k <= |points|
  {
    exists i :: 0 <= i < k && FoundOn(points, p, i)
  }

  predicate FoundOn(points: seq<Point>, p: Point, i: nat)
    requires i < |points|
  {
    EdgeSide(Predecessor(points, i), points[i], p) == OnEdge
  }

  lemma {:induction false} FoundOnAnEdge(points: seq<Point>, p: Point, k: nat)
    requires k <= |points|
    ensures Crossings(points, p, k).None? <==> FoundAmong(points, p, k)
  {
    if k > 0 {
      FoundOnAnEdge(points, p, k - 1);
      assert FoundAmong(points, p, k) <==> FoundAmong(points, p, k - 1) || FoundOn(points, p, k - 1);
    }
  }

  lemma {:induction false} CountedOnTheRay(points: seq<Point>, p: Point, k: nat)
    requires k <= |points| && Crossings(points, p, k).Some?
    ensures Crossings(points, p, k) == Some(RayCount(points, p, k))
  {
    if k > 0 {
      CountedOnTheRay(points, p, k - 1);
      EdgeCrossingIff(Predecessor(points, k - 1), points[k - 1], p);
    }
  }

  /** A point of the boundary is found on some edge, although an edge need not find its own start. */
  lemma BoundaryIsFound(points: seq<Point>, p: Point, i: nat)
    requires i < |points| && OnSegment(Predecessor(points, i), points[i], p)
    ensures FoundAmong(points, p, |points|)
  {
    var v0, v := Predecessor(points, i), points[i];
    var t: real :| 0.0 <= t <= 1.0 && p == Between(v0, v, t);
    if t == 0.0 {
      var j := if i == 0 then |points| - 1 else i - 1;
      assert p == points[j];
      EndIsFound(Predecessor(points, j), p);
      assert FoundOn(points, p, j);
    } else {
      SegmentIsFound(v0, v, t);
      assert FoundOn(points, p, i);
    }
  }

  lemma BoundaryIff(points: seq<Point>, p: Point)
    ensures Crossings(points, p, |points|).None? <==> OnBoundary(points, p)
  {
    FoundOnAnEdge(points, p, |points|);
    if i :| 0 <= i < |points| && FoundOn(points, p, i) {
      OnEdgeIsOnSegment(Predecessor(points, i), points[i], p);
    }
    if i :| 0 <= i < |points| && OnSegment(Predecessor(points, i), points[i], p) {
      BoundaryIsFound(points, p, i);
    }
  }

  /**
   * For every polygon and point: zero exactly on the boundary, and off it positive exactly when an odd number of
   * edges meets the ray to the right.
   */
  lemma PolygonTestIsEvenOdd(points: seq<Point>, p: Point)
    ensures var test := PointPolygonTest(points, p);
      && (test == 0 <==> OnBoundary(points, p))
      && (test == 1 <==> !OnBoundary(points, p) && RayCount(points, p, |points|) % 2 == 1)
      && (test == -1 <==> !OnBoundary(points, p) && RayCount(points, p, |points|) % 2 == 0)
  {
    BoundaryIff(points, p);
    if !OnBoundary(points, p) {
      CountedOnTheRay(points, p, |points|);
    }
  }

  function Rectangle(x1: real, y1: real, x2: real, y2: real): seq<Point> {
    [Point(x1, y1), Point(x2, y1), Point(x2, y2), Point(x1, y2)]
  }

  /** The turn around an upright edge, seen from a point at distance `a` to its left, over a height `b`. */
  lemma UprightTurn(x: real, y1: real, y2: real, p: Point)
    ensures Turn(Point(x, y1), Point(x, y2), p) == (x - p.x) * (y2 - y1)
    ensures Turn(Point(x, y2), Point(x, y1), p) == -((x - p.x) * (y2 - y1))
  {
    assert (p.x - x) * (y1 - y2) == (x - p.x) * (y2 - y1);
    assert (p.x - x) * (y2 - y1) == -((x - p.x) * (y2 - y1));
  }

  predicate Level(y1: real, y2: real, p: Point) { y1 <= p.y < y2 }

  lemma UprightToTheRight(x: real, y1: real, y2: real, p: Point)
    requires Level(y1, y2, p) && p.x < x
    ensures EdgeSide(Point(x, y2), Point(x, y1), p) == Crossing == EdgeSide(Point(x, y1), Point(x, y2), p)
  {
    UprightTurn(x, y1, y2, p);
    PositiveProduct(x - p.x, y2 - y1);
  }

  lemma UprightHere(x: real, y1: real, y2: real, p: Point)
    requires Level(y1, y2, p) && p.x == x
    ensures EdgeSide(Point(x, y2), Point(x, y1), p) == OnEdge == EdgeSide(Point(x, y1), Point(x, y2), p)
  {
    UprightTurn(x, y1, y2, p);
    assert (x - p.x) * (y2 - y1) == 0.0;
  }

  lemma UprightElsewhere(x: real, y1: real, y2: real, p: Point)
    requires y1 < y2 && (!Level(y1, y2, p) || p.x > x)
    ensures EdgeSide(Point(x, y2), Point(x, y1), p) == Missed
    ensures EdgeSide(Point(x, y1), Point(x, y2), p) == if p == Point(x, y2) then OnEdge else Missed
  {
  }

  /** An upright edge is crossed from its left between its lower end, inclusive, and its upper end. */
  function UprightSide(x: real, y1: real, y2: real, p: Point): Side {
    if Level(y1, y2, p) && p.x < x then Crossing else if Level(y1, y2, p) && p.x == x then OnEdge else Missed
  }

  lemma UprightEdge(x: real, y1: real, y2: real, p: Point)
    requires y1 < y2
    ensures EdgeSide(Point(x, y2), Point(x, y1), p) == UprightSide(x, y1, y2, p)
    ensures EdgeSide(Point(x, y1), Point(x, y2), p) ==
      if p == Point(x, y2) then OnEdge else UprightSide(x, y1, y2, p)
  {
    if Level(y1, y2, p) && p.x < x {
      UprightToTheRight(x, y1, y2, p);
    } else if Level(y1, y2, p) && p.x == x {
      UprightHere(x, y1, y2, p);
    } else {
      UprightElsewhere(x, y1, y2, p);
    }
  }

  lemma LevelEdge(x1: real, x2: real, y: real, p: Point)
    requires x1 < x2
    ensures var side := if p.y == y && x1 <= p.x <= x2 then OnEdge else Missed;
      EdgeSide(Point(x1, y), Point(x2, y), p) == side == EdgeSide(Point(x2, y), Point(x1, y), p)
  {
  }

  /** On a rectangle the test is exact: positive strictly inside, zero on the boundary, negative outside. */
  lemma RectangleIsExact(x1: real, y1: real, x2: real, y2: real, p: Point)
    requires x1 < x2 && y1 < y2
    ensures var test := PointPolygonTest(Rectangle(x1, y1, x2, y2), p);
      && (test == 1 <==> x1 < p.x < x2 && y1 < p.y < y2)
      && (test == -1 <==> !(x1 <= p.x <= x2 && y1 <= p.y <= y2))
  {
    UprightEdge(x1, y1, y2, p);
    LevelEdge(x1, x2, y1, p);
    UprightEdge(x2, y1, y2, p);
    LevelEdge(x1, x2, y2, p);
    var r := Rectangle(x1, y1, x2, y2);
    assert r[0] == Point(x1, y1) && r[1] == Point(x2, y1) && r[2] == Point(x2, y2) && r[3] == Point(x1, y2);
    var n1, n2, n3 := Crossings(r, p, 1), Crossings(r, p, 2), Crossings(r, p, 3);
    assert Crossings(r, p, 0) == Some(0);
    assert n1 == if p.x == x1 && y1 <= p.y < y2 then None else Some(if p.x < x1 && y1 <= p.y < y2 then 1 else 0);
    assert n2 == if p.y == y1 && x1 <= p.x <= x2 then None else n1;
  }

  /** All corners of the polygon lie in the rectangle from `(x1, y1)` to `(x2, y2)`. */
  ghost predicate Within(points: seq<Point>, x1: real, y1: real, x2: real, y2: real) {
    forall q :: q in points ==> x1 <= q.x <= x2 && y1 <= q.y <= y2
  }

  lemma LeftOfEdge(v0: Point, v: Point, p: Point)
    requires p.x < v0.x && p.x < v.x
    ensures EdgeSide(v0, v, p) == if (v0.y > p.y) != (v.y > p.y) then Crossing else Missed
  {
    if v0.y <= p.y < v.y {
      Leaning(p.y - v0.y, v.y - p.y, v0.x - p.x, v.x - p.x);
    } else if v.y <= p.y < v0.y {
      Leaning(v0.y - p.y, p.y - v.y, v0.x - p.x, v.x - p.x);
    }
  }

  /** The turn of an edge with legs `a` below and `b` above the ray, at distances `c` and `d` to its right. */
  lemma Leaning(a: real, b: real, c: real, d: real)
    requires a >= 0.0 && b >= 0.0 && a + b > 0.0 && c > 0.0 && d > 0.0
    ensures a * (d - c) + c * (a + b) > 0.0
  {
    assert a * (d - c) + c * (a + b) == a * d + c * b;
    if a > 0.0 {
      assert a * d > 0.0;
    } else {
      assert c * b > 0.0;
    }
    assert a * d >= 0.0 && c * b >= 0.0;
  }

  /** Walking round from a corner left of which `p` lies, the ray is crossed once per change of height. */
  lemma {:induction false} CrossingsFromTheLeft(points: seq<Point>, p: Point, k: nat)
    requires 0 < |points| && k <= |points|
    requires forall q :: q in points ==> p.x < q.x
    ensures Crossings(points, p, k).Some?
    ensures var last := if k == 0 then points[|points| - 1] else points[k - 1];
      (Crossings(points, p, k).value % 2 == 0) == ((points[|points| - 1].y > p.y) == (last.y > p.y))
  {
    if k > 0 {
      CrossingsFromTheLeft(points, p, k - 1);
      LeftOfEdge(Predecessor(points, k - 1), points[k - 1], p);
    }
  }

  lemma {:induction false} CrossingsFromOtherSides(points: seq<Point>, p: Point, k: nat, x1: real, y1: real,
      x2: real, y2: real)
    requires k <= |points| && Within(points, x1, y1, x2, y2)
    requires p.x > x2 || p.y < y1 || p.y > y2
    ensures Crossings(points, p, k) == Some(0)
  {
    if k > 0 {
      CrossingsFromOtherSides(points, p, k - 1, x1, y1, x2, y2);
      assert points[k - 1] in points && Predecessor(points, k - 1) in points;
    }
  }

  /** A point outside a rectangle that holds the polygon is outside the polygon. */
  lemma OutsideRectangleIsOutside(points: seq<Point>, p: Point, x1: real, y1: real, x2: real, y2: real)
    requires Within(points, x1, y1, x2, y2)
    requires !(x1 <= p.x <= x2 && y1 <= p.y <= y2)
    ensures PointPolygonTest(points, p) == -1
  {
    if p.x > x2 || p.y < y1 || p.y > y2 {
      CrossingsFromOtherSides(points, p, |points|, x1, y1, x2, y2);
    } else if points != [] {
      CrossingsFromTheLeft(points, p, |points|);
    }
  }
}

/** The compiled configuration, as far as the counting engine reads it. */
module Configuration {
  import opened Sequences
  import opened Geometry
  import opened LaneSmoothing

  datatype CountingLine = CountingLine(start: Option<Point>, end: Option<Point>, directionRef: Option<Point>)

  datatype LaneConfig = LaneConfig(id: string, points: seq<Point>, countingLine: Option<CountingLine>)

  datatype Config = Config(
    lanes: seq<LaneConfig>,
    frameWidth: int,
    frameHeight: int,
    coordinateSpace: string,
    boundaryMode: string,
    smoothing: Smoothing,
    trackTimeout: int,
    minTrackAge: int,
    countUnstableLane: bool,
    motionHistory: nat,
    allowedClasses: seq<string>)
  {
    /** What configuration validation guarantees about the smoothing parameters. */
    predicate Valid() { smoothing.Valid() }

    function LaneIds(): (ids: seq<string>)
      ensures |ids| == |lanes|
      ensures forall i :: 0 <= i < |ids| ==> ids[i] == lanes[i].id
    {
      seq(|lanes|, i requires 0 <= i < |lanes| => lanes[i].id)
    }

    /** Lane ids are names: neither empty nor the marker for "no lane". */
    ghost predicate NamedLanes() {
      "" !in LaneIds() && UNKNOWN !in LaneIds()
    }
  }
}

/** First-match assignment of a box to a lane polygon. */
module LaneAssignment {
  import opened Geometry
  import opened Configuration
  import opened LaneSmoothing

  datatype Lane = Lane(id: string, polygon: seq<Point>)

  /** The verdict of one polygon under a boundary mode; an unrecognised mode accepts nothing. */
  predicate Accepts(mode: string, polygon: seq<Point>, p: Point) {
    var dist := PointPolygonTest(polygon, p);
    if mode == "inside_or_on_edge" then dist >= 0 else mode == "inside_only" && dist > 0
  }

  function LanesOf(cfg: Config): (r: seq<Lane>)
    ensures |r| == |cfg.lanes|
    ensures forall i :: 0 <= i < |r| ==> r[i] == Lane(cfg.lanes[i].id, cfg.lanes[i].points)
  {
    seq(|cfg.lanes|, i requires 0 <= i < |cfg.lanes| => Lane(cfg.lanes[i].id, cfg.lanes[i].points))
  }

  function AssignLane(lanes: seq<Lane>, mode: string, b: Box): string {
    if lanes == [] then UNKNOWN
    else if Accepts(mode, lanes[0].polygon, BottomCentre(b)) then lanes[0].id
    else AssignLane(lanes[1..], mode, b)
  }

  /** The raw lane of a box under a whole configuration. */
  function RawLane(cfg: Config, b: Box): string {
    AssignLane(LanesOf(cfg), cfg.boundaryMode, b)
  }

  /** Strictly inside by the even-odd rule, or on the boundary when the mode lets that count. */
  ghost predicate InLane(mode: string, polygon: seq<Point>, p: Point) {
    || (mode == "inside_or_on_edge" && (OnBoundary(polygon, p) || RayCount(polygon, p, |polygon|) % 2 == 1))
    || (mode == "inside_only" && !OnBoundary(polygon, p) && RayCount(polygon, p, |polygon|) % 2 == 1)
  }

  lemma AcceptsIff(mode: string, polygon: seq<Point>, p: Point)
    ensures Accepts(mode, polygon, p) <==> InLane(mode, polygon, p)
  {
    PolygonTestIsEvenOdd(polygon, p);
  }

  /** `lane` is the first of the lanes that `p` is in, or "unknown" when it is in none. */
  ghost predicate FirstIn(lanes: seq<Lane>, mode: string, p: Point, lane: string) {
    || (lane == "unknown" && forall i :: 0 <= i < |lanes| ==> !InLane(mode, lanes[i].polygon, p))
    || (exists i :: && 0 <= i < |lanes| && InLane(mode, lanes[i].polygon, p) && lane == lanes[i].id
                    && forall j :: 0 <= j < i ==> !InLane(mode, lanes[j].polygon, p))
  }

  lemma FirstIsHead(lanes: seq<Lane>, mode: string, p: Point)
    requires lanes != [] && InLane(mode, lanes[0].polygon, p)
    ensures FirstIn(lanes, mode, p, lanes[0].id)
  {
  }

  lemma FirstInRest(lanes: seq<Lane>, mode: string, p: Point, lane: string)
    requires lanes != [] && !InLane(mode, lanes[0].polygon, p) && FirstIn(lanes[1..], mode, p, lane)
    ensures FirstIn(lanes, mode, p, lane)
  {
    var rest := lanes[1..];
    if i :| && 0 <= i < |rest| && InLane(mode, rest[i].polygon, p) && lane == rest[i].id
            && forall j :: 0 <= j < i ==> !InLane(mode, rest[j].polygon, p)
    {
      assert lanes[i + 1] == rest[i];
      assert forall j :: 1 <= j < i + 1 ==> lanes[j] == rest[j - 1];
    } else {
      assert forall j :: 1 <= j < |lanes| ==> lanes[j] == rest[j - 1];
    }
  }

  lemma {:induction false} FirstMatchAt(lanes: seq<Lane>, mode: string, b: Box, p: Point)
    requires p == BottomCentre(b)
    ensures FirstIn(lanes, mode, p, AssignLane(lanes, mode, b))
  {
    if lanes == [] {
    } else if Accepts(mode, lanes[0].polygon, p) {
      AcceptsIff(mode, lanes[0].polygon, p);
      FirstIsHead(lanes, mode, p);
    } else {
      AcceptsIff(mode, lanes[0].polygon, p);
      FirstMatchAt(lanes[1..], mode, b, p);
      FirstInRest(lanes, mode, p, AssignLane(lanes[1..], mode, b));
    }
  }

  /**
   * The answer is the first lane in configuration order that holds the point halfway between the sides of the box on
   * its lower edge, and "unknown" when none does.
   */
  lemma FirstMatchWins(lanes: seq<Lane>, mode: string, b: Box, p: Point)
    requires p.x - b.xmin == b.xmax - p.x && p.y == b.ymax
    ensures FirstIn(lanes, mode, p, AssignLane(lanes, mode, b))
  {
    BottomCentreIs(b, p);
    FirstMatchAt(lanes, mode, b, p);
  }

  lemma {:induction false} NoneAccepts(lanes: seq<Lane>, mode: string, b: Box)
    requires forall i :: 0 <= i < |lanes| ==> !Accepts(mode, lanes[i].polygon, BottomCentre(b))
    ensures AssignLane(lanes, mode, b) == UNKNOWN
  {
    if lanes != [] {
      NoneAccepts(lanes[1..], mode, b);
    }
  }

  /** `LaneAssigner`: the lanes of a configuration with the mode to search them in. */
  class LaneAssigner {
    const boundaryMode: string
    var lanes: seq<Lane>

    constructor (cfg: Config)
      ensures boundaryMode == cfg.boundaryMode && lanes == LanesOf(cfg)
    {
      boundaryMode := cfg.boundaryMode;
      lanes := [];
      new;
      for i := 0 to |cfg.lanes|
        invariant lanes == LanesOf(cfg)[..i]
      {
        lanes := lanes + [Lane(cfg.lanes[i].id, cfg.lanes[i].points)];
      }
    }

    method Assign(b: Box) returns (lane: string)
      ensures lane == AssignLane(lanes, boundaryMode, b)
      ensures FirstIn(lanes, boundaryMode, BottomCentre(b), lane)
    {
      FirstMatchAt(lanes, boundaryMode, b, BottomCentre(b));
      var p := BottomCentre(b);
      for i := 0 to |lanes|
        invariant AssignLane(lanes, boundaryMode, b) == AssignLane(lanes[i..], boundaryMode, b)
      {
        var dist := PointPolygonTest(lanes[i].polygon, p);
        if boundaryMode == "inside_or_on_edge" {
          if dist >= 0 {
            return lanes[i].id;
          }
        } else if boundaryMode == "inside_only" && dist > 0 {
          return lanes[i].id;
        }
      }
      return UNKNOWN;
    }
  }
}

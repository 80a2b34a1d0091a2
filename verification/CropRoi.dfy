/** `CropROI`: the crop region, the configuration in crop coordinates, and the way back. */
module CropRegion {
  import opened Sequences
  import opened Geometry
  import opened Configuration
  import opened LaneSmoothing
  import opened LaneAssignment

  /** The bounding box accumulated over some points; nothing before the first one. */
  datatype Extent = NoPoints | Extent(xmin: real, ymin: real, xmax: real, ymax: real)

  function Min(a: real, b: real): real { if a <= b then a else b }

  function Max(a: real, b: real): real { if a >= b then a else b }

  function MinInt(a: int, b: int): int { if a <= b then a else b }

  function MaxInt(a: int, b: int): int { if a >= b then a else b }

  function Extend(e: Extent, p: Point): Extent {
    match e
    case NoPoints => Extent(p.x, p.y, p.x, p.y)
    case Extent(x1, y1, x2, y2) => Extent(Min(x1, p.x), Min(y1, p.y), Max(x2, p.x), Max(y2, p.y))
  }

  /** `e` is the tightest box around `points`. */
  ghost predicate IsExtent(e: Extent, points: seq<Point>) {
    match e
    case NoPoints => points == []
    case Extent(x1, y1, x2, y2) =>
      && Within(points, x1, y1, x2, y2)
      && (exists p :: p in points && p.x == x1)
      && (exists p :: p in points && p.y == y1)
      && (exists p :: p in points && p.x == x2)
      && (exists p :: p in points && p.y == y2)
  }

  lemma ExtendIsExtent(e: Extent, points: seq<Point>, p: Point)
    requires IsExtent(e, points)
    ensures IsExtent(Extend(e, p), points + [p])
  {
    var all := points + [p];
    assert p in all && forall q :: q in points ==> q in all;
  }

  /** Conversion of a coordinate to an integer: towards zero. */
  function Truncate(x: real): int {
    if x >= 0.0 then x.Floor else -((-x).Floor)
  }

  /** The integers from the result on, and up to it. */
  lemma TruncateIs(x: real, n: int)
    ensures Truncate(x) <= n <==> if x >= 0.0 then x < n as real + 1.0 else x <= n as real
    ensures n <= Truncate(x) <==> if x >= 0.0 then n as real <= x else n as real - 1.0 < x
  {
  }

  datatype Region = Region(x1: int, y1: int, x2: int, y2: int)

  function RegionOf(e: Extent, width: int, height: int, padding: int): Region {
    match e
    case NoPoints => Region(0, 0, width, height)
    case Extent(xmin, ymin, xmax, ymax) =>
      Region(MaxInt(0, Truncate(xmin) - padding), MaxInt(0, Truncate(ymin) - padding),
             MinInt(width, Truncate(xmax) + padding), MinInt(height, Truncate(ymax) + padding))
  }

  /** Detection zones when there are any, otherwise the lanes that are polygons. */
  function SourcePolygons(lanes: seq<LaneConfig>, zones: seq<seq<Point>>): seq<seq<Point>> {
    if zones != [] then zones else LanePolygons(lanes)
  }

  function LanePolygons(lanes: seq<LaneConfig>): seq<seq<Point>> {
    if lanes == [] then []
    else (if |lanes[0].points| >= 3 then [lanes[0].points] else []) + LanePolygons(lanes[1..])
  }

  function Vertices(polygons: seq<seq<Point>>): seq<Point> {
    if polygons == [] then [] else Vertices(polygons[..|polygons| - 1]) + polygons[|polygons| - 1]
  }

  lemma {:induction false} VerticesOf(polygons: seq<seq<Point>>, polygon: seq<Point>, p: Point)
    requires polygon in polygons && p in polygon
    ensures p in Vertices(polygons)
  {
    if polygon != polygons[|polygons| - 1] {
      VerticesOf(polygons[..|polygons| - 1], polygon, p);
    }
  }

  lemma {:induction false} VertexIsOf(polygons: seq<seq<Point>>, p: Point)
    requires p in Vertices(polygons)
    ensures exists polygon :: polygon in polygons && p in polygon
  {
    if p in Vertices(polygons[..|polygons| - 1]) {
      VertexIsOf(polygons[..|polygons| - 1], p);
    }
  }

  lemma {:induction false} LanePolygonIsOf(lanes: seq<LaneConfig>, polygon: seq<Point>)
    requires polygon in LanePolygons(lanes)
    ensures exists lane :: lane in lanes && |lane.points| >= 3 && lane.points == polygon
  {
    if polygon in LanePolygons(lanes[1..]) {
      LanePolygonIsOf(lanes[1..], polygon);
    } else {
      assert lanes[0] in lanes;
    }
  }

  /** The crop is drawn around the vertices of the zones or, when there is no zone, of the lanes that are polygons. */
  lemma SourceVerticesAre(lanes: seq<LaneConfig>, zones: seq<seq<Point>>, p: Point)
    ensures p in Vertices(SourcePolygons(lanes, zones)) <==>
      if zones != [] then exists zone :: zone in zones && p in zone
      else exists lane :: lane in lanes && |lane.points| >= 3 && p in lane.points
  {
    var source := SourcePolygons(lanes, zones);
    if p in Vertices(source) {
      VertexIsOf(source, p);
      var polygon :| polygon in source && p in polygon;
      if zones == [] {
        LanePolygonIsOf(lanes, polygon);
      }
    }
    if zones != [] {
      if zone :| zone in zones && p in zone {
        VerticesOf(source, zone, p);
      }
    } else if lane :| lane in lanes && |lane.points| >= 3 && p in lane.points {
      var i :| 0 <= i < |lanes| && lanes[i] == lane;
      LanePolygonsHas(lanes, i);
      VerticesOf(source, lane.points, p);
    }
  }

  lemma {:induction false} LanePolygonsHas(lanes: seq<LaneConfig>, i: nat)
    requires i < |lanes| && |lanes[i].points| >= 3
    ensures lanes[i].points in LanePolygons(lanes)
  {
    if i > 0 {
      LanePolygonsHas(lanes[1..], i - 1);
    }
  }

  function ShiftOption(p: Option<Point>, dx: real, dy: real): Option<Point> {
    match p
    case None => None
    case Some(q) => Some(ShiftPoint(q, dx, dy))
  }

  function ShiftLane(lane: LaneConfig, dx: real, dy: real): LaneConfig {
    var line := match lane.countingLine
      case None => None
      case Some(cl) => Some(CountingLine(ShiftOption(cl.start, dx, dy), ShiftOption(cl.end, dx, dy),
                                         ShiftOption(cl.directionRef, dx, dy)));
    LaneConfig(lane.id, ShiftPoints(lane.points, dx, dy), line)
  }

  function ShiftLanes(lanes: seq<LaneConfig>, dx: real, dy: real): (r: seq<LaneConfig>)
    ensures |r| == |lanes|
    ensures forall i :: 0 <= i < |lanes| ==> r[i] == ShiftLane(lanes[i], dx, dy)
  {
    seq(|lanes|, i requires 0 <= i < |lanes| => ShiftLane(lanes[i], dx, dy))
  }

  /** The same point, in the coordinates of the crop. */
  predicate Moved(p: Point, q: Point, r: Region) {
    q.x == p.x - r.x1 as real && q.y == p.y - r.y1 as real
  }

  predicate MovedIfAny(p: Option<Point>, q: Option<Point>, r: Region) {
    (p.None? <==> q.None?) && (p.Some? ==> q.Some? && Moved(p.value, q.value, r))
  }

  /** Polygon and counting line moved, everything else kept. */
  ghost predicate MovedLane(lane: LaneConfig, moved: LaneConfig, r: Region) {
    && moved.id == lane.id && |moved.points| == |lane.points|
    && (forall j :: 0 <= j < |lane.points| ==> Moved(lane.points[j], moved.points[j], r))
    && (lane.countingLine.None? <==> moved.countingLine.None?)
    && (lane.countingLine.Some? ==>
          var cl, ml := lane.countingLine.value, moved.countingLine.value;
          && MovedIfAny(cl.start, ml.start, r) && MovedIfAny(cl.end, ml.end, r)
          && MovedIfAny(cl.directionRef, ml.directionRef, r))
  }

  lemma ShiftedIsMoved(lane: LaneConfig, r: Region)
    ensures MovedLane(lane, ShiftLane(lane, r.x1 as real, r.y1 as real), r)
  {
  }

  /** The whole configuration moved into the coordinates of a crop. */
  function CropConfig(cfg: Config, r: Region): Config {
    cfg.(lanes := ShiftLanes(cfg.lanes, r.x1 as real, r.y1 as real),
         frameWidth := r.x2 - r.x1, frameHeight := r.y2 - r.y1, coordinateSpace := "crop_space")
  }

  /** One axis of `to_original` after the shift: clamp, then widen a collapsed interval to one pixel. */
  function ClampAxis(lo: real, hi: real, size: int): (real, real) {
    var a, b := Max(0.0, Min(lo, size as real)), Max(0.0, Min(hi, size as real));
    if b <= a then
      var a' := if a >= size as real then size as real - 1.0 else a;
      (a', a' + 1.0)
    else (a, b)
  }

  function OriginalAxis(lo: real, hi: real, size: Option<int>): (real, real) {
    if size.Some? then ClampAxis(lo, hi, size.value) else (lo, hi)
  }

  function ToOriginal(r: Region, b: Box, width: Option<int>, height: Option<int>): Box {
    var (x1, x2) := OriginalAxis(b.xmin + r.x1 as real, b.xmax + r.x1 as real, width);
    var (y1, y2) := OriginalAxis(b.ymin + r.y1 as real, b.ymax + r.y1 as real, height);
    Box(x1, y1, x2, y2)
  }

  /** The longer edge rounded up to a multiple of the stride. */
  function SuggestedSize(r: Region, stride: nat): (size: int)
    requires stride > 0
    ensures size % stride == 0
    ensures MaxInt(r.x2 - r.x1, r.y2 - r.y1) <= size < MaxInt(r.x2 - r.x1, r.y2 - r.y1) + stride
  {
    var longest := MaxInt(r.x2 - r.x1, r.y2 - r.y1);
    RoundUp(longest, stride);
    ((longest + stride - 1) / stride) * stride
  }

  lemma RoundUp(n: int, stride: nat)
    requires stride > 0
    ensures var m := ((n + stride - 1) / stride) * stride; m % stride == 0 && n <= m < n + stride
  {
    var q := (n + stride - 1) / stride;
    assert (n + stride - 1) == q * stride + (n + stride - 1) % stride;
    MultipleHasNoRemainder(q, stride);
  }

  lemma MultipleHasNoRemainder(q: int, stride: nat)
    requires stride > 0
    ensures (q * stride) % stride == 0
  {
    var m := q * stride;
    var d := q - m / stride;
    AtLeastOne(d, stride);
    assert d * stride == m % stride;
  }

  lemma AtLeastOne(d: int, n: int)
    requires n > 0
    ensures d >= 1 ==> d * n >= n
    ensures d <= -1 ==> d * n <= -n
  {
  }

  lemma ExtendNext(e: Extent, done: seq<Point>, poly: seq<Point>, j: nat)
    requires j < |poly| && IsExtent(e, done + poly[..j])
    ensures IsExtent(Extend(e, poly[j]), done + poly[..j + 1])
  {
    ExtendIsExtent(e, done + poly[..j], poly[j]);
    assert done + poly[..j] + [poly[j]] == done + poly[..j + 1];
  }

  /** The inner loop over the vertices of one polygon. */
  method ExtendOver(e0: Extent, poly: seq<Point>, ghost done: seq<Point>) returns (e: Extent)
    requires IsExtent(e0, done)
    ensures IsExtent(e, done + poly)
  {
    e := e0;
    assert done + poly[..0] == done;
    for j := 0 to |poly|
      invariant IsExtent(e, done + poly[..j])
    {
      ExtendNext(e, done, poly, j);
      e := Extend(e, poly[j]);
    }
    assert poly[..|poly|] == poly;
  }

  class CropROI {
    const frameWidth: int
    const frameHeight: int
    const padding: int
    const region: Region

    constructor (lanes: seq<LaneConfig>, width: int, height: int, padding: int, zones: seq<seq<Point>>)
      ensures frameWidth == width && frameHeight == height && this.padding == padding
      ensures exists e ::
        && IsExtent(e, Vertices(SourcePolygons(lanes, zones)))
        && region == RegionOf(e, width, height, padding)
      ensures Vertices(SourcePolygons(lanes, zones)) == [] ==> region == Region(0, 0, width, height)
    {
      frameWidth, frameHeight, this.padding := width, height, padding;
      var source := SourcePolygons(lanes, zones);
      var e := NoPoints;
      for i := 0 to |source|
        invariant IsExtent(e, Vertices(source[..i]))
      {
        assert source[..i + 1][..i] == source[..i];
        e := ExtendOver(e, source[i], Vertices(source[..i]));
      }
      assert source[..|source|] == source;
      region := RegionOf(e, width, height, padding);
    }

    /** The configuration for detection inside the crop; the caller's configuration is left alone. */
    method TransformConfig(config: Config) returns (cfg: Config)
      ensures cfg == CropConfig(config, region)
      ensures cfg == config.(lanes := cfg.lanes, frameWidth := region.x2 - region.x1,
                             frameHeight := region.y2 - region.y1, coordinateSpace := "crop_space")
      ensures |cfg.lanes| == |config.lanes|
      ensures forall i :: 0 <= i < |cfg.lanes| ==> MovedLane(config.lanes[i], cfg.lanes[i], region)
    {
      cfg := config;
      cfg := cfg.(frameWidth := region.x2 - region.x1, frameHeight := region.y2 - region.y1);
      cfg := cfg.(coordinateSpace := "crop_space");
      for i := 0 to |config.lanes|
        invariant |cfg.lanes| == |config.lanes|
        invariant cfg == CropConfig(config, region).(lanes := cfg.lanes)
        invariant forall j :: 0 <= j < i ==>
          cfg.lanes[j] == ShiftLane(config.lanes[j], region.x1 as real, region.y1 as real)
        invariant forall j :: i <= j < |cfg.lanes| ==> cfg.lanes[j] == config.lanes[j]
      {
        cfg := cfg.(lanes := cfg.lanes[i := ShiftLane(cfg.lanes[i], region.x1 as real, region.y1 as real)]);
      }
      forall i | 0 <= i < |cfg.lanes| ensures MovedLane(config.lanes[i], cfg.lanes[i], region) {
        ShiftedIsMoved(config.lanes[i], region);
      }
    }
  }

  // ---- Geometry of the region ----

  ghost predicate Covers(r: Region, points: seq<Point>) {
    Within(points, r.x1 as real, r.y1 as real, r.x2 as real, r.y2 as real)
  }

  ghost predicate InsideFrame(points: seq<Point>, width: int, height: int) {
    Within(points, 0.0, 0.0, width as real, height as real)
  }

  predicate Whole(x: real) { x.Floor as real == x }

  /** Along each axis the crop has exactly the whole coordinates in the frame that are within the padding of the box. */
  lemma RegionIsExact(e: Extent, width: int, height: int, padding: int, n: int)
    requires e.Extent? && e.xmin >= 0.0 && e.ymin >= 0.0 && e.xmax >= 0.0 && e.ymax >= 0.0
    ensures var r := RegionOf(e, width, height, padding);
      && (r.x1 <= n <==> 0 <= n && e.xmin < (n + padding + 1) as real)
      && (r.y1 <= n <==> 0 <= n && e.ymin < (n + padding + 1) as real)
      && (n <= r.x2 <==> n <= width && (n - padding) as real <= e.xmax)
      && (n <= r.y2 <==> n <= height && (n - padding) as real <= e.ymax)
  {
    TruncateIs(e.xmin, n + padding);
    TruncateIs(e.ymin, n + padding);
    TruncateIs(e.xmax, n - padding);
    TruncateIs(e.ymax, n - padding);
  }

  /** For polygons inside the frame the crop is a non-empty part of the frame. */
  lemma CropIsNonEmptyAndInFrame(e: Extent, points: seq<Point>, width: int, height: int, padding: int)
    requires width > 0 && height > 0 && padding >= 1 && IsExtent(e, points) && InsideFrame(points, width, height)
    ensures var r := RegionOf(e, width, height, padding);
      0 <= r.x1 < r.x2 <= width && 0 <= r.y1 < r.y2 <= height
  {
    if e.Extent? {
      var p :| p in points && p.x == e.xmin;
      var q :| q in points && q.y == e.ymin;
    }
  }

  /** The crop contains every source vertex exactly when it is padded or the far edges are whole pixels. */
  lemma CropCoversVerticesIff(e: Extent, points: seq<Point>, width: int, height: int, padding: nat)
    requires e.Extent? && IsExtent(e, points) && InsideFrame(points, width, height)
    ensures Covers(RegionOf(e, width, height, padding), points) <==>
      padding >= 1 || (Whole(e.xmax) && Whole(e.ymax))
  {
    var r := RegionOf(e, width, height, padding);
    var p :| p in points && p.x == e.xmax;
    var q :| q in points && q.y == e.ymax;
    if padding >= 1 || (Whole(e.xmax) && Whole(e.ymax)) {
      forall v | v in points ensures r.x1 as real <= v.x <= r.x2 as real && r.y1 as real <= v.y <= r.y2 as real {
        assert e.xmin <= v.x <= e.xmax && e.ymin <= v.y <= e.ymax;
      }
    }
  }

  /** A box whose bottom centre lies outside a crop drawn around the lanes belongs to no lane. */
  lemma NoLaneOutsideTheCrop(cfg: Config, e: Extent, padding: int, b: Box)
    requires padding >= 1 && IsExtent(e, Vertices(LanePolygons(cfg.lanes)))
    requires InsideFrame(Vertices(LanePolygons(cfg.lanes)), cfg.frameWidth, cfg.frameHeight)
    requires forall i :: 0 <= i < |cfg.lanes| ==> |cfg.lanes[i].points| >= 3
    requires var r, p := RegionOf(e, cfg.frameWidth, cfg.frameHeight, padding), BottomCentre(b);
      !(r.x1 as real <= p.x <= r.x2 as real && r.y1 as real <= p.y <= r.y2 as real)
    ensures RawLane(cfg, b) == UNKNOWN
  {
    var r := RegionOf(e, cfg.frameWidth, cfg.frameHeight, padding);
    forall i | 0 <= i < |cfg.lanes|
      ensures !Accepts(cfg.boundaryMode, LanesOf(cfg)[i].polygon, BottomCentre(b))
    {
      var polygon := cfg.lanes[i].points;
      LanePolygonsHas(cfg.lanes, i);
      forall q | q in polygon ensures q in Vertices(LanePolygons(cfg.lanes)) {
        VerticesOf(LanePolygons(cfg.lanes), polygon, q);
      }
      assert polygon[0] in polygon;
      CropCoversVerticesIff(e, Vertices(LanePolygons(cfg.lanes)), cfg.frameWidth, cfg.frameHeight, padding);
      OutsideRectangleIsOutside(polygon, BottomCentre(b), r.x1 as real, r.y1 as real, r.x2 as real, r.y2 as real);
    }
    NoneAccepts(LanesOf(cfg), cfg.boundaryMode, b);
  }

  // ---- The way back ----

  /**
   * A clamped interval always has positive length, and lies in the frame except when it collapsed in the last pixel.
   */
  lemma ClampAxisInsideIff(lo: real, hi: real, size: int)
    requires size >= 1
    ensures var (a, b) := ClampAxis(lo, hi, size);
      && a < b
      && (0.0 <= a && b <= size as real <==> lo < hi || lo <= size as real - 1.0 || lo >= size as real)
  {
  }

  /**
   * An interval that overlaps the frame is cut to the frame; any other becomes one pixel at its start, moved into the
   * frame.
   */
  lemma ClampAxisIs(lo: real, hi: real, size: int, x: real)
    requires size >= 1
    ensures var (a, b) := ClampAxis(lo, hi, size);
      if lo < hi && lo < size as real && hi > 0.0
      then a <= x <= b <==> lo <= x <= hi && 0.0 <= x <= size as real
      else b == a + 1.0 && a == if lo >= size as real then size as real - 1.0 else if lo <= 0.0 then 0.0 else lo
  {
  }

  /** Each axis is clamped when its frame size is given, after moving the box back by the offset of the crop. */
  lemma ToOriginalIs(r: Region, b: Box, width: Option<int>, height: Option<int>)
    ensures var o := ToOriginal(r, b, width, height);
      && (width.None? ==> o.xmin == b.xmin + r.x1 as real && o.xmax == b.xmax + r.x1 as real)
      && (width.Some? ==> (o.xmin, o.xmax) == ClampAxis(b.xmin + r.x1 as real, b.xmax + r.x1 as real, width.value))
      && (height.None? ==> o.ymin == b.ymin + r.y1 as real && o.ymax == b.ymax + r.y1 as real)
      && (height.Some? ==> (o.ymin, o.ymax) == ClampAxis(b.ymin + r.y1 as real, b.ymax + r.y1 as real, height.value))
  {
  }

  predicate Proper(b: Box) { b.xmin < b.xmax && b.ymin < b.ymax }

  predicate BoxWithin(b: Box, x1: real, y1: real, x2: real, y2: real) {
    x1 <= b.xmin && y1 <= b.ymin && b.xmax <= x2 && b.ymax <= y2
  }

  /** With clamping, every proper box maps to a proper box inside the frame. */
  lemma ToOriginalStaysInFrame(r: Region, b: Box, width: int, height: int)
    requires width >= 1 && height >= 1 && Proper(b)
    ensures var o := ToOriginal(r, b, Some(width), Some(height));
      Proper(o) && BoxWithin(o, 0.0, 0.0, width as real, height as real)
  {
    ClampAxisInsideIff(b.xmin + r.x1 as real, b.xmax + r.x1 as real, width);
    ClampAxisInsideIff(b.ymin + r.y1 as real, b.ymax + r.y1 as real, height);
  }

  /**
   * `to_original` undoes the shift into the crop: always without clamping, and with it for proper boxes inside the
   * crop.
   */
  lemma ToOriginalUndoesShift(r: Region, b: Box, width: int, height: int)
    ensures ToOriginal(r, ShiftBox(b, r.x1 as real, r.y1 as real), None, None) == b
    ensures Proper(b) && 0 <= r.x1 && 0 <= r.y1 && r.x2 <= width && r.y2 <= height
            && BoxWithin(b, r.x1 as real, r.y1 as real, r.x2 as real, r.y2 as real) ==>
      ToOriginal(r, ShiftBox(b, r.x1 as real, r.y1 as real), Some(width), Some(height)) == b
  {
  }
}

/** Detection in crop coordinates is the same run: cropping preserves its meaning. */
module CropSimulation {
  import opened Sequences
  import opened Geometry
  import opened Configuration
  import opened LaneAssignment
  import opened Tracking
  import opened Counting
  import opened Occupancy
  import opened CountingEngine
  import opened CropRegion

  function ShiftDetection(d: Detection, dx: real, dy: real): Detection {
    d.(box := ShiftBox(d.box, dx, dy))
  }

  function ShiftDets(dets: seq<Detection>, dx: real, dy: real): (r: seq<Detection>)
    ensures |r| == |dets|
    ensures forall i :: 0 <= i < |dets| ==> r[i] == ShiftDetection(dets[i], dx, dy)
  {
    seq(|dets|, i requires 0 <= i < |dets| => ShiftDetection(dets[i], dx, dy))
  }

  function ShiftFrames(frames: seq<Frame>, dx: real, dy: real): (r: seq<Frame>)
    ensures |r| == |frames|
    ensures forall i :: 0 <= i < |frames| ==> r[i] == Frame(frames[i].index, ShiftDets(frames[i].dets, dx, dy))
  {
    seq(|frames|, i requires 0 <= i < |frames| => Frame(frames[i].index, ShiftDets(frames[i].dets, dx, dy)))
  }

  function ShiftTrack(tr: Track, dx: real, dy: real): Track {
    tr.(box := match tr.box case None => None case Some(b) => Some(ShiftBox(b, dx, dy)))
  }

  function ShiftTracks(ts: Tracks, dx: real, dy: real): Tracks {
    Tracks(ts.ids, map t | t in ts.states :: ShiftTrack(ts.states[t], dx, dy))
  }

  function ShiftAnchors(anchors: map<int, seq<Point>>, dx: real, dy: real): map<int, seq<Point>> {
    map t | t in anchors :: ShiftPoints(anchors[t], dx, dy)
  }

  function ShiftCounter(c: Counter, dx: real, dy: real): Counter {
    c.(anchors := ShiftAnchors(c.anchors, dx, dy))
  }

  function ShiftCore(s: Core, dx: real, dy: real): Core {
    Core(ShiftTracks(s.tracks, dx, dy), ShiftCounter(s.counter, dx, dy))
  }

  lemma {:induction false} AssignLaneShifts(
    lanes: seq<Lane>, mode: string, b: Box, dx: real, dy: real, moved: seq<Lane>)
    requires |moved| == |lanes|
    requires forall i :: 0 <= i < |lanes| ==> moved[i] == Lane(lanes[i].id, ShiftPoints(lanes[i].polygon, dx, dy))
    ensures AssignLane(moved, mode, ShiftBox(b, dx, dy)) == AssignLane(lanes, mode, b)
  {
    if lanes != [] {
      BottomCentreShifts(b, dx, dy);
      CrossingsShift(lanes[0].polygon, BottomCentre(b), |lanes[0].polygon|, dx, dy);
      AssignLaneShifts(lanes[1..], mode, b, dx, dy, moved[1..]);
    }
  }

  lemma RawLaneShifts(cfg: Config, r: Region, b: Box)
    ensures RawLane(CropConfig(cfg, r), ShiftBox(b, r.x1 as real, r.y1 as real)) == RawLane(cfg, b)
  {
    AssignLaneShifts(LanesOf(cfg), cfg.boundaryMode, b, r.x1 as real, r.y1 as real, LanesOf(CropConfig(cfg, r)));
  }

  /** An observation of the shifted box is the shifted observation. */
  lemma ObserveShifts(cfg: Config, r: Region, frame: int, d: Detection, tr: Track)
    requires cfg.Valid()
    ensures var dx, dy := r.x1 as real, r.y1 as real;
      Observe(CropConfig(cfg, r), frame, ShiftDetection(d, dx, dy), ShiftTrack(tr, dx, dy))
        == ShiftTrack(Observe(cfg, frame, d, tr), dx, dy)
  {
    RawLaneShifts(cfg, r, d.box);
  }

  lemma PriorShifts(frame: int, d: Detection, ts: Tracks, dx: real, dy: real)
    ensures Prior(frame, ShiftDetection(d, dx, dy), ShiftTracks(ts, dx, dy)) == ShiftTrack(Prior(frame, d, ts), dx, dy)
  {
  }

  lemma WriteShifts(ids: seq<int>, states: map<int, Track>, t: int, tr: Track, dx: real, dy: real)
    ensures ShiftTracks(Tracks(ids, states[t := tr]), dx, dy)
      == Tracks(ids, ShiftTracks(Tracks(ids, states), dx, dy).states[t := ShiftTrack(tr, dx, dy)])
  {
  }

  lemma ObserveOneShifts(cfg: Config, r: Region, frame: int, d: Detection, ts: Tracks)
    requires cfg.Valid()
    ensures var dx, dy := r.x1 as real, r.y1 as real;
      && ObserveOne(CropConfig(cfg, r), frame, ShiftDetection(d, dx, dy), ShiftTracks(ts, dx, dy))
           == ShiftTracks(ObserveOne(cfg, frame, d, ts), dx, dy)
      && ChangeOf(CropConfig(cfg, r), frame, ShiftDetection(d, dx, dy), ShiftTracks(ts, dx, dy))
           == ChangeOf(cfg, frame, d, ts)
  {
    var dx, dy, prior := r.x1 as real, r.y1 as real, Prior(frame, d, ts);
    PriorShifts(frame, d, ts, dx, dy);
    ObserveShifts(cfg, r, frame, d, prior);
    WriteShifts(ObserveOne(cfg, frame, d, ts).ids, ts.states, d.trackId, Observe(cfg, frame, d, prior), dx, dy);
  }

  lemma ShiftDetsDrop(dets: seq<Detection>, dx: real, dy: real)
    requires dets != []
    ensures var moved := ShiftDets(dets, dx, dy);
      && moved[..|dets| - 1] == ShiftDets(dets[..|dets| - 1], dx, dy)
      && moved[|dets| - 1] == ShiftDetection(dets[|dets| - 1], dx, dy)
  {
  }

  lemma {:induction false} ObserveAllShifts(cfg: Config, r: Region, frame: int, dets: seq<Detection>, ts: Tracks)
    requires cfg.Valid()
    ensures var dx, dy := r.x1 as real, r.y1 as real;
      && ObserveAll(CropConfig(cfg, r), frame, ShiftDets(dets, dx, dy), ShiftTracks(ts, dx, dy))
           == ShiftTracks(ObserveAll(cfg, frame, dets, ts), dx, dy)
      && ChangesOf(CropConfig(cfg, r), frame, ShiftDets(dets, dx, dy), ShiftTracks(ts, dx, dy))
           == ChangesOf(cfg, frame, dets, ts)
  {
    if dets != [] {
      var front, d := dets[..|dets| - 1], dets[|dets| - 1];
      ObserveAllShifts(cfg, r, frame, front, ts);
      ObserveOneShifts(cfg, r, frame, d, ObserveAll(cfg, frame, front, ts));
      ShiftDetsDrop(dets, r.x1 as real, r.y1 as real);
    }
  }

  lemma {:induction false} SeenIdsShift(dets: seq<Detection>, dx: real, dy: real)
    ensures SeenIds(ShiftDets(dets, dx, dy)) == SeenIds(dets)
  {
    if dets != [] {
      SeenIdsShift(dets[..|dets| - 1], dx, dy);
      ShiftDetsDrop(dets, dx, dy);
    }
  }

  lemma ExpireShifts(cfg: Config, r: Region, frame: int, seen: set<int>, ts: Tracks)
    ensures var dx, dy := r.x1 as real, r.y1 as real;
      Expire(CropConfig(cfg, r), frame, seen, ShiftTracks(ts, dx, dy))
        == ShiftTracks(Expire(cfg, frame, seen, ts), dx, dy)
  {
    var moved := ShiftTracks(ts, r.x1 as real, r.y1 as real);
    var a, b := StaleIds(CropConfig(cfg, r), frame, seen, moved), StaleIds(cfg, frame, seen, ts);
    forall t | t in a ensures t in b {
    }
    forall t | t in b ensures t in a {
    }
    assert a == b;
  }

  lemma HistoryShifts(anchors: map<int, seq<Point>>, t: int, dx: real, dy: real)
    ensures History(ShiftAnchors(anchors, dx, dy), t) == ShiftPoints(History(anchors, t), dx, dy)
  {
  }

  lemma DirectionShifts(hist: seq<Point>, dx: real, dy: real)
    ensures DirectionFromMotion(ShiftPoints(hist, dx, dy)) == DirectionFromMotion(hist)
  {
    if |hist| >= 2 {
      var moved := ShiftPoints(hist, dx, dy);
      assert moved[|hist| - 1].y - moved[0].y == hist[|hist| - 1].y - hist[0].y;
    }
  }

  lemma LastNShifts(points: seq<Point>, n: nat, dx: real, dy: real)
    ensures LastN(ShiftPoints(points, dx, dy), n) == ShiftPoints(LastN(points, n), dx, dy)
  {
  }

  lemma LogAnchorShifts(cfg: Config, r: Region, anchors: map<int, seq<Point>>, id: int, b: Box)
    ensures var dx, dy := r.x1 as real, r.y1 as real;
      LogAnchor(CropConfig(cfg, r), ShiftAnchors(anchors, dx, dy), id, Some(ShiftBox(b, dx, dy)))
        == ShiftAnchors(LogAnchor(cfg, anchors, id, Some(b)), dx, dy)
  {
    var dx, dy := r.x1 as real, r.y1 as real;
    BottomCentreShifts(b, dx, dy);
    HistoryShifts(anchors, id, dx, dy);
    var hist, p := History(anchors, id), BottomCentre(b);
    assert ShiftPoints(hist, dx, dy) + [ShiftPoint(p, dx, dy)] == ShiftPoints(hist + [p], dx, dy);
    LastNShifts(hist + [p], cfg.motionHistory, dx, dy);
  }

  lemma TrackMotionShifts(cfg: Config, r: Region, frame: int, id: int, tr: Track, anchors: map<int, seq<Point>>)
    ensures var dx, dy := r.x1 as real, r.y1 as real;
      TrackMotion(CropConfig(cfg, r), frame, id, ShiftTrack(tr, dx, dy), ShiftAnchors(anchors, dx, dy))
        == ShiftAnchors(TrackMotion(cfg, frame, id, tr, anchors), dx, dy)
  {
    if tr.lastSeen == frame && tr.box.Some? {
      LogAnchorShifts(cfg, r, anchors, id, tr.box.value);
    }
  }

  lemma EventShifts(frame: int, id: int, tr: Track, lane: string, hist: seq<Point>, dx: real, dy: real)
    ensures EventFor(frame, id, ShiftTrack(tr, dx, dy), lane, ShiftPoints(hist, dx, dy))
      == EventFor(frame, id, tr, lane, hist)
  {
    DirectionShifts(hist, dx, dy);
  }

  lemma CountTrackShifts(cfg: Config, r: Region, frame: int, id: int, tr: Track, c: Counter)
    ensures var dx, dy := r.x1 as real, r.y1 as real;
      CountTrack(CropConfig(cfg, r), frame, id, ShiftTrack(tr, dx, dy), ShiftCounter(c, dx, dy))
        == Counted(ShiftCounter(CountTrack(cfg, frame, id, tr, c).counter, dx, dy),
          CountTrack(cfg, frame, id, tr, c).events)
  {
    var dx, dy := r.x1 as real, r.y1 as real;
    TrackMotionShifts(cfg, r, frame, id, tr, c.anchors);
    var lane, anchors := CountableLane(cfg, frame, tr), TrackMotion(cfg, frame, id, tr, c.anchors);
    assert CountableLane(CropConfig(cfg, r), frame, ShiftTrack(tr, dx, dy)) == lane;
    if lane.Some? {
      HistoryShifts(anchors, id, dx, dy);
      EventShifts(frame, id, tr, lane.value, History(anchors, id), dx, dy);
    }
  }

  lemma {:induction false} CountTracksShift(
    cfg: Config, r: Region, frame: int, ids: seq<int>, states: map<int, Track>, c: Counter)
    requires forall i :: i in ids ==> i in states
    ensures var dx, dy := r.x1 as real, r.y1 as real;
      var moved := map t | t in states :: ShiftTrack(states[t], dx, dy);
      var result := CountTracks(cfg, frame, ids, states, c);
      && CountTracks(CropConfig(cfg, r), frame, ids, moved, ShiftCounter(c, dx, dy))
           == Counted(ShiftCounter(result.counter, dx, dy), result.events)
      && OccupancyAll(CropConfig(cfg, r), frame, ids, moved) == OccupancyAll(cfg, frame, ids, states)
  {
    assert CropConfig(cfg, r).LaneIds() == cfg.LaneIds();
    if ids != [] {
      var front, id := ids[..|ids| - 1], ids[|ids| - 1];
      CountTracksShift(cfg, r, frame, front, states, c);
      CountTrackShifts(cfg, r, frame, id, states[id], CountTracks(cfg, frame, front, states, c).counter);
    }
  }

  lemma StepShifts(cfg: Config, r: Region, f: Frame, s: Core)
    requires cfg.Valid() && s.tracks.Valid()
    ensures var dx, dy := r.x1 as real, r.y1 as real;
      var f' := Frame(f.index, ShiftDets(f.dets, dx, dy));
      && ShiftCore(s, dx, dy).tracks.Valid()
      && Next(CropConfig(cfg, r), f', ShiftCore(s, dx, dy)) == ShiftCore(Next(cfg, f, s), dx, dy)
      && ReportOf(CropConfig(cfg, r), f', ShiftCore(s, dx, dy)) == ReportOf(cfg, f, s)
  {
    ObserveAllShifts(cfg, r, f.index, f.dets, s.tracks);
    SeenIdsShift(f.dets, r.x1 as real, r.y1 as real);
    ExpireShifts(cfg, r, f.index, SeenIds(f.dets), ObserveAll(cfg, f.index, f.dets, s.tracks));
    var ts := TracksAfter(cfg, f, s);
    CountTracksShift(cfg, r, f.index, ts.ids, ts.states, s.counter);
  }

  /** After every run the cropped engine is in the original's state up to the offset of boxes and anchors. */
  lemma {:induction false} CroppedRunSimulates(cfg: Config, r: Region, frames: seq<Frame>)
    requires cfg.Valid()
    ensures var dx, dy := r.x1 as real, r.y1 as real;
      Run(CropConfig(cfg, r), ShiftFrames(frames, dx, dy)) == ShiftCore(Run(cfg, frames), dx, dy)
  {
    var dx, dy := r.x1 as real, r.y1 as real;
    if frames == [] {
      assert CropConfig(cfg, r).LaneIds() == cfg.LaneIds();
    } else {
      var front, f := frames[..|frames| - 1], frames[|frames| - 1];
      CroppedRunSimulates(cfg, r, front);
      StepShifts(cfg, r, f, Run(cfg, front));
      assert ShiftFrames(frames, dx, dy)[..|frames| - 1] == ShiftFrames(front, dx, dy);
    }
  }

  /** Cropping preserves meaning: each frame reports the same lane changes, occupancy and count events. */
  lemma CroppingPreservesReports(cfg: Config, r: Region, frames: seq<Frame>)
    requires cfg.Valid() && frames != []
    ensures LastReport(CropConfig(cfg, r), ShiftFrames(frames, r.x1 as real, r.y1 as real)) == LastReport(cfg, frames)
  {
    var dx, dy := r.x1 as real, r.y1 as real;
    var front, f := frames[..|frames| - 1], frames[|frames| - 1];
    CroppedRunSimulates(cfg, r, front);
    StepShifts(cfg, r, f, Run(cfg, front));
    assert ShiftFrames(frames, dx, dy)[..|frames| - 1] == ShiftFrames(front, dx, dy);
  }
}

/**
 The viewer's fleet map: fitting all devices into the plot area, converting
 between world and screen, zooming about the cursor, and finding the device
 under a point. Coordinates are reals; the screen's y axis points down.
 */
module FleetMap {
  import opened Text
  import opened StatusCodec
  import opened StatusStore

  const MINIMUM_WORLD_SPAN := 10.0
  const MARKER_HIT_RADIUS := 10.0

  datatype Point = Point(x: real, y: real)

  datatype Rect = Rect(left: real, top: real, width: real, height: real) {
    function Center(): Point { Point(left + width / 2.0, top + height / 2.0) }

    predicate Contains(p: Point) { left <= p.x <= left + width && top <= p.y <= top + height }
  }

  /** The transform from world to screen. */
  datatype View = View(scale: real, pan: Point)

  datatype Snapshot = Snapshot(status: DeviceStatus, lastSeenMs: int)

  type Devices = map<string, Snapshot>

  function Min(a: real, b: real): real { if b < a then b else a }

  function Max(a: real, b: real): real { if a < b then b else a }

  function Clamp(v: real, low: real, high: real): real { if v < low then low else if high < v then high else v }

  function Position(snapshot: Snapshot): Point { Point(snapshot.status.x, snapshot.status.y) }

  function WorldToScreen(v: View, p: Point): Point {
    Point(p.x * v.scale + v.pan.x, -p.y * v.scale + v.pan.y)
  }

  function ScreenToWorld(v: View, p: Point): Point
    requires v.scale != 0.0
  {
    Point((p.x - v.pan.x) / v.scale, -(p.y - v.pan.y) / v.scale)
  }

  /** The view at this scale that draws the world point at the screen point. */
  function Anchored(world: Point, screen: Point, scale: real): (v: View)
    ensures v.scale == scale
  {
    View(scale, Point(screen.x - world.x * scale, screen.y + world.y * scale))
  }

  function SquaredDistance(a: Point, b: Point): real {
    (a.x - b.x) * (a.x - b.x) + (a.y - b.y) * (a.y - b.y)
  }

  /** The widget's rectangle less its margins. */
  function PlotArea(width: int, height: int): Rect {
    Rect(16.0, 34.0, (width - 32) as real, (height - 52) as real)
  }

  predicate Roomy(area: Rect) { area.width > 1.0 && area.height > 1.0 }

  /** The smallest box around the devices: every side touches one of them. */
  ghost predicate Extent(devices: Devices, low: Point, high: Point) {
    && (forall id :: id in devices ==>
          low.x <= devices[id].status.x <= high.x && low.y <= devices[id].status.y <= high.y)
    && (exists id :: id in devices && devices[id].status.x == low.x)
    && (exists id :: id in devices && devices[id].status.x == high.x)
    && (exists id :: id in devices && devices[id].status.y == low.y)
    && (exists id :: id in devices && devices[id].status.y == high.y)
  }

  function Span(low: real, high: real): real { Max(MINIMUM_WORLD_SPAN, high - low) }

  /** The world rectangle shown: the extent, at least the minimum span, padded by 12 percent. */
  function Padded(low: Point, high: Point): Rect {
    var spanX, spanY := Span(low.x, high.x), Span(low.y, high.y);
    Rect(low.x - spanX * 0.12, low.y - spanY * 0.12, spanX + spanX * 0.12 * 2.0, spanY + spanY * 0.12 * 2.0)
  }

  /** The scale that would fit `bounds` into `area`, before clamping. */
  function FittingScale(area: Rect, bounds: Rect): real {
    Min(area.width / Max(1.0, bounds.width), area.height / Max(1.0, bounds.height))
  }

  function Fit(area: Rect, bounds: Rect): View {
    Anchored(bounds.Center(), area.Center(), Clamp(FittingScale(area, bounds), 2.0, 80.0))
  }

  predicate AllInside(devices: Devices, area: Rect, v: View) {
    forall id :: id in devices ==> area.Contains(WorldToScreen(v, Position(devices[id])))
  }

  /** What decides containment: the devices' span at the smallest scale allowed. */
  predicate FitsAtScaleTwo(area: Rect, low: Point, high: Point) {
    2.0 * Span(low.x, high.x) <= area.width && 2.0 * Span(low.y, high.y) <= area.height
  }

  // ---- the transform ----

  lemma DivideCancels(a: real, b: real)
    requires b != 0.0
    ensures a / b * b == a && a * b / b == a
  {
  }

  lemma AxisInverts(p: real, pan: real, scale: real)
    requires scale != 0.0
    ensures (p * scale + pan - pan) / scale == p && (p - pan) / scale * scale + pan == p
    ensures -(-p * scale + pan - pan) / scale == p && -(-(p - pan) / scale) * scale + pan == p
  {
    DivideCancels(p, scale);
    DivideCancels(p - pan, scale);
    Negated(p, scale);
    NegatedQuotient(p - pan, scale);
    assert p * scale + pan - pan == p * scale;
    assert -(-p * scale + pan - pan) == p * scale;
    assert -(-(p - pan) / scale) == (p - pan) / scale;
  }

  /** Screen and world coordinates invert each other at every non-zero scale. */
  lemma ScreenAndWorldInvert(v: View, p: Point)
    requires v.scale != 0.0
    ensures ScreenToWorld(v, WorldToScreen(v, p)) == p && WorldToScreen(v, ScreenToWorld(v, p)) == p
  {
    AxisInverts(p.x, v.pan.x, v.scale);
    AxisInverts(p.y, v.pan.y, v.scale);
  }

  lemma AxisFixed(screen: real, world: real, scale: real)
    requires scale != 0.0
    ensures (screen - (screen - world * scale)) / scale == world
    ensures -(screen - (screen + world * scale)) / scale == world
  {
    DivideCancels(world, scale);
    assert screen - (screen - world * scale) == world * scale;
    assert -(screen - (screen + world * scale)) == world * scale;
  }

  /** An anchored view draws that world point, and no other, at that screen point. */
  lemma AnchorHolds(world: Point, screen: Point, scale: real, p: Point)
    requires scale != 0.0
    ensures WorldToScreen(Anchored(world, screen, scale), p) == screen <==> p == world
  {
    var v := Anchored(world, screen, scale);
    AxisFixed(screen.x, world.x, scale);
    AxisFixed(screen.y, world.y, scale);
    assert ScreenToWorld(v, screen) == world;
    hide Anchored, ScreenToWorld, WorldToScreen;
    ScreenAndWorldInvert(v, p);
    ScreenAndWorldInvert(v, screen);
  }

  lemma Negated(a: real, b: real)
    ensures -a * b == -(a * b)
  {
  }

  lemma NegatedQuotient(a: real, b: real)
    requires b != 0.0
    ensures -a / b == -(a / b)
  {
  }

  /** East is right and north is up, however far the map is zoomed in. */
  lemma NorthIsUp(v: View, p: Point, q: Point)
    requires v.scale > 0.0
    ensures p.x < q.x <==> WorldToScreen(v, p).x < WorldToScreen(v, q).x
    ensures p.y < q.y <==> WorldToScreen(v, p).y > WorldToScreen(v, q).y
  {
    OrderScaled(p.x, q.x, v.scale);
    OrderScaled(p.y, q.y, v.scale);
    Drawn(v, p);
    Drawn(v, q);
    hide WorldToScreen;
  }

  lemma Drawn(v: View, p: Point)
    ensures WorldToScreen(v, p) == Point(p.x * v.scale + v.pan.x, v.pan.y - p.y * v.scale)
  {
    Negated(p.y, v.scale);
  }

  lemma OrderScaled(a: real, b: real, scale: real)
    requires scale > 0.0
    ensures a < b <==> a * scale < b * scale
  {
    if a < b {
      StrictlyScaledUp(a, b, scale);
    } else {
      ScaledUp(b, a, scale);
    }
  }

  // ---- fitting ----

  lemma QuotientBounds(scale: real, size: real, span: real)
    requires span >= MINIMUM_WORLD_SPAN && size > 1.0
    ensures scale <= size / (span + span * 0.12 * 2.0) ==> scale * span <= size
    ensures size / (span + span * 0.12 * 2.0) < 2.0 ==> size < 2.48 * span
    ensures 2.0 <= size / (span + span * 0.12 * 2.0) ==> 2.0 * span <= size
  {
    var b := span + span * 0.12 * 2.0;
    assert b == 1.24 * span;
    var q := size / b;
    DivideCancels(size, b);
    assert q * b == size;
    if scale <= q {
      assert scale * b <= size by { ScaledUp(scale, q, b); }
      if scale >= 0.0 {
        assert scale * b == 1.24 * (scale * span);
        assert scale * span >= 0.0;
      } else {
        assert scale * span <= 0.0;
      }
    }
    if q < 2.0 {
      assert q * b < 2.0 * b;
    } else {
      ScaledUp(2.0, q, b);
    }
  }

  lemma ScaledUp(a: real, b: real, c: real)
    requires a <= b && c >= 0.0
    ensures a * c <= b * c
  {
  }

  /** Fitted coordinates are the distance from the middle of the extent, scaled about the middle of the area. */
  lemma FittedAxis(start: real, size: real, low: real, span: real, scale: real, p: real)
    ensures var middle := start + size / 2.0;
            var center := low - span * 0.12 + (span + span * 0.12 * 2.0) / 2.0;
            && p * scale + (middle - center * scale) == middle + (p - (low + span / 2.0)) * scale
            && -p * scale + (middle + center * scale) == middle - (p - (low + span / 2.0)) * scale
  {
    var center := low - span * 0.12 + (span + span * 0.12 * 2.0) / 2.0;
    assert center == low + span / 2.0;
    assert p * scale - center * scale == (p - center) * scale;
    Negated(p, scale);
  }

  /** How far from the middle of the area a coordinate is drawn. */
  function Offset(p: real, low: real, high: real, scale: real): real {
    (p - (low + Span(low, high) / 2.0)) * scale
  }

  /** The span on the screen. */
  function Reach(low: real, high: real, scale: real): real { Span(low, high) * scale }

  lemma OffsetWithinReach(p: real, low: real, high: real, scale: real)
    requires low <= p <= high && scale >= 0.0
    ensures -(Reach(low, high, scale) / 2.0) <= Offset(p, low, high, scale) <= Reach(low, high, scale) / 2.0
  {
    var span := Span(low, high);
    var d := p - (low + span / 2.0);
    assert -(span / 2.0) <= d <= span / 2.0;
    ScaledUp(d, span / 2.0, scale);
    ScaledUp(-(span / 2.0), d, scale);
    assert -(span / 2.0) * scale == -(span * scale / 2.0) by {
      Negated(span / 2.0, scale);
      HalfProduct(span, scale);
    }
    HalfProduct(span, scale);
    assert d * scale <= span * scale / 2.0;
    assert Offset(p, low, high, scale) == d * scale && Reach(low, high, scale) == span * scale;
  }

  lemma HalfProduct(a: real, b: real)
    ensures a / 2.0 * b == a * b / 2.0
  {
  }

  lemma LowestOffset(low: real, high: real, scale: real)
    ensures Offset(low, low, high, scale) == -(Reach(low, high, scale) / 2.0)
  {
    var span := Span(low, high);
    assert low - (low + span / 2.0) == -(span / 2.0);
    Negated(span / 2.0, scale);
    HalfProduct(span, scale);
  }

  /** The fitted transform, coordinate by coordinate. */
  lemma FittedPoint(area: Rect, low: Point, high: Point, p: Point)
    ensures var v := Fit(area, Padded(low, high)); var q := WorldToScreen(v, p);
            && q.x == area.Center().x + Offset(p.x, low.x, high.x, v.scale)
            && q.y == area.Center().y - Offset(p.y, low.y, high.y, v.scale)
  {
    var v := Fit(area, Padded(low, high));
    FittedAxis(area.left, area.width, low.x, Span(low.x, high.x), v.scale, p.x);
    FittedAxis(area.top, area.height, low.y, Span(low.y, high.y), v.scale, p.y);
  }

  /** The spans on the screen are within the area exactly when they are at scale 2. */
  lemma ClampedScale(area: Rect, low: Point, high: Point)
    requires Roomy(area)
    ensures 2.0 <= Fit(area, Padded(low, high)).scale <= 80.0
    ensures var scale := Fit(area, Padded(low, high)).scale;
            var withinX, withinY := Reach(low.x, high.x, scale) <= area.width, Reach(low.y, high.y, scale) <= area.height;
            FitsAtScaleTwo(area, low, high) <==> withinX && withinY
    ensures FittingScale(area, Padded(low, high)) >= 2.0 ==> FitsAtScaleTwo(area, low, high)
  {
    var bounds := Padded(low, high);
    var scale := Fit(area, bounds).scale;
    var spanX, spanY := Span(low.x, high.x), Span(low.y, high.y);
    QuotientBounds(scale, area.width, spanX);
    QuotientBounds(scale, area.height, spanY);
    assert Max(1.0, bounds.width) == spanX + spanX * 0.12 * 2.0;
    assert Max(1.0, bounds.height) == spanY + spanY * 0.12 * 2.0;
    ScaledUp(2.0, scale, spanX);
    ScaledUp(2.0, scale, spanY);
  }

  // ---- the best view ----

  predicate BoundsFit(area: Rect, bounds: Rect, scale: real) {
    bounds.width * scale <= area.width && bounds.height * scale <= area.height
  }

  /**
   What fitting is for: the bounds are centred in the area at the largest scale from
   2 to 80 at which they fit, or at 2 when they fit at none.
   */
  ghost predicate BestView(area: Rect, bounds: Rect, v: View) {
    && 2.0 <= v.scale <= 80.0
    && (v.scale > 2.0 ==> BoundsFit(area, bounds, v.scale))
    && (forall scale :: 2.0 <= scale <= 80.0 && BoundsFit(area, bounds, scale) ==> scale <= v.scale)
    && WorldToScreen(v, bounds.Center()) == area.Center()
  }

  /** A length fits at a scale exactly up to the quotient of the sizes. */
  lemma FitsUpToQuotient(length: real, size: real, scale: real)
    requires length >= 1.0
    ensures length * scale <= size <==> scale <= size / length
  {
    var quotient := size / length;
    DivideCancels(size, length);
    if scale <= quotient {
      ScaledUp(scale, quotient, length);
    } else {
      StrictlyScaledUp(quotient, scale, length);
    }
    assert length * scale == scale * length;
  }

  lemma StrictlyScaledUp(a: real, b: real, c: real)
    requires a < b && c > 0.0
    ensures a * c < b * c
  {
  }

  lemma BoundsFitUpTo(area: Rect, bounds: Rect, scale: real)
    requires bounds.width >= 1.0 && bounds.height >= 1.0
    ensures BoundsFit(area, bounds, scale) <==> scale <= FittingScale(area, bounds)
  {
    FitsUpToQuotient(bounds.width, area.width, scale);
    FitsUpToQuotient(bounds.height, area.height, scale);
    assert Max(1.0, bounds.width) == bounds.width && Max(1.0, bounds.height) == bounds.height;
  }

  /** The fitted view is the best view, and there is no other. */
  lemma FitIsBest(area: Rect, bounds: Rect, v: View)
    requires bounds.width >= 1.0 && bounds.height >= 1.0
    ensures BestView(area, bounds, v) <==> v == Fit(area, bounds)
  {
    var fit := Fit(area, bounds);
    forall scale ensures BoundsFit(area, bounds, scale) <==> scale <= FittingScale(area, bounds) {
      BoundsFitUpTo(area, bounds, scale);
    }
    AnchorHolds(bounds.Center(), area.Center(), fit.scale, bounds.Center());
    AnchoredOnly(v, bounds.Center(), area.Center());
    hide Anchored, WorldToScreen, BoundsFit, FittingScale;
    assert BoundsFit(area, bounds, fit.scale) || fit.scale == 2.0;
  }

  /** A view is determined by its scale and where it draws one point. */
  lemma AnchoredOnly(v: View, world: Point, screen: Point)
    ensures WorldToScreen(v, world) == screen <==> v == Anchored(world, screen, v.scale)
  {
    Negated(world.y, v.scale);
  }

  lemma PaddedIsWide(low: Point, high: Point)
    ensures Padded(low, high).width >= 1.0 && Padded(low, high).height >= 1.0
  {
  }

  /** The padded box leaves 12 percent of the span free around the devices, and touches them with that on the low sides. */
  lemma PaddedLeavesMargins(devices: Devices, low: Point, high: Point, id: string)
    requires Extent(devices, low, high) && id in devices
    ensures var b, p, spanX, spanY := Padded(low, high), Position(devices[id]), Span(low.x, high.x), Span(low.y, high.y);
            && b.left + 0.12 * spanX <= p.x <= b.left + b.width - 0.12 * spanX
            && b.top + 0.12 * spanY <= p.y <= b.top + b.height - 0.12 * spanY
    ensures Padded(low, high).width == 1.24 * (if high.x - low.x > 10.0 then high.x - low.x else 10.0)
    ensures Padded(low, high).height == 1.24 * (if high.y - low.y > 10.0 then high.y - low.y else 10.0)
    ensures exists other :: other in devices && devices[other].status.x == Padded(low, high).left + 0.12 * Span(low.x, high.x)
    ensures exists other :: other in devices && devices[other].status.y == Padded(low, high).top + 0.12 * Span(low.y, high.y)
  {
    var left :| left in devices && devices[left].status.x == low.x;
    var bottom :| bottom in devices && devices[bottom].status.y == low.y;
  }

  /**
   In the best view every device lies in the plot area, the y axis flipped, exactly
   when two screen units per unit of span fit in both directions.
   */
  lemma AutoFitContains(devices: Devices, area: Rect, low: Point, high: Point, v: View)
    requires Extent(devices, low, high) && Roomy(area) && BestView(area, Padded(low, high), v)
    ensures AllInside(devices, area, v) <==> FitsAtScaleTwo(area, low, high)
  {
    PaddedIsWide(low, high);
    FitIsBest(area, Padded(low, high), v);
    hide BestView;
    FitContains(devices, area, low, high);
  }

  lemma FitContains(devices: Devices, area: Rect, low: Point, high: Point)
    requires Extent(devices, low, high) && Roomy(area)
    ensures AllInside(devices, area, Fit(area, Padded(low, high))) <==> FitsAtScaleTwo(area, low, high)
  {
    var v := Fit(area, Padded(low, high));
    hide Fit, Padded, WorldToScreen, Offset, Reach, FitsAtScaleTwo, FittingScale;
    ClampedScale(area, low, high);
    forall id | id in devices
      ensures var p, q := Position(devices[id]), WorldToScreen(v, Position(devices[id]));
              && q.x == area.Center().x + Offset(p.x, low.x, high.x, v.scale)
              && q.y == area.Center().y - Offset(p.y, low.y, high.y, v.scale)
    {
      FittedPoint(area, low, high, Position(devices[id]));
    }
    if FitsAtScaleTwo(area, low, high) {
      forall id | id in devices ensures area.Contains(WorldToScreen(v, Position(devices[id]))) {
        OffsetWithinReach(devices[id].status.x, low.x, high.x, v.scale);
        OffsetWithinReach(devices[id].status.y, low.y, high.y, v.scale);
      }
    }
    if AllInside(devices, area, v) {
      var left :| left in devices && devices[left].status.x == low.x;
      var bottom :| bottom in devices && devices[bottom].status.y == low.y;
      LowestOffset(low.x, high.x, v.scale);
      LowestOffset(low.y, high.y, v.scale);
      assert area.Contains(WorldToScreen(v, Position(devices[left])));
      assert area.Contains(WorldToScreen(v, Position(devices[bottom])));
    }
  }

  /** In particular nothing falls outside when the padded bounds fit at some scale that is allowed. */
  lemma UnraisedFitContains(devices: Devices, area: Rect, low: Point, high: Point, v: View, scale: real)
    requires Extent(devices, low, high) && Roomy(area) && BestView(area, Padded(low, high), v)
    requires 2.0 <= scale <= 80.0 && BoundsFit(area, Padded(low, high), scale)
    ensures AllInside(devices, area, v)
  {
    PaddedIsWide(low, high);
    BoundsFitUpTo(area, Padded(low, high), scale);
    ClampedScale(area, low, high);
    AutoFitContains(devices, area, low, high, v);
  }

  /** Two devices 1000 units apart do not fit into a plot area of 100 by 100: in the best view one of them is outside. */
  lemma RaisedFitLosesDevices()
    ensures exists devices, low, high, v ::
      Extent(devices, low, high) && BestView(Rect(0.0, 0.0, 100.0, 100.0), Padded(low, high), v)
      && !AllInside(devices, Rect(0.0, 0.0, 100.0, 100.0), v)
  {
    var near := EMPTY_STATUS.(deviceId := "near");
    var far := EMPTY_STATUS.(deviceId := "far", x := 1000.0);
    var devices := map["near" := Snapshot(near, 0), "far" := Snapshot(far, 0)];
    var low, high := Point(0.0, 0.0), Point(1000.0, 0.0);
    var area := Rect(0.0, 0.0, 100.0, 100.0);
    assert "near" in devices && "far" in devices;
    assert devices["near"].status.x == 0.0 && devices["far"].status.x == 1000.0;
    assert Extent(devices, low, high);
    var v := Fit(area, Padded(low, high));
    PaddedIsWide(low, high);
    FitIsBest(area, Padded(low, high), v);
    AutoFitContains(devices, area, low, high, v);
    assert !FitsAtScaleTwo(area, low, high);
  }

  // ---- the devices ----

  /** The devices after a batch of statuses seen at one moment. */
  function Upserted(devices: Devices, statuses: seq<DeviceStatus>, seenMs: int): Devices {
    if statuses == [] then devices
    else
      var last := statuses[|statuses| - 1];
      Upserted(devices, statuses[..|statuses| - 1], seenMs)[last.deviceId := Snapshot(last, seenMs)]
  }

  function StatusMap(devices: Devices): map<string, DeviceStatus> {
    map id | id in devices :: devices[id].status
  }

  /** Upserting a batch overrides the statuses by the batch's last per device. */
  lemma {:induction false} UpsertedStatuses(devices: Devices, statuses: seq<DeviceStatus>, seenMs: int)
    ensures StatusMap(Upserted(devices, statuses, seenMs)) == StatusMap(devices) + LastById(statuses)
  {
    if statuses == [] {
      assert StatusMap(devices) + map[] == StatusMap(devices);
    } else {
      UpsertedStatuses(devices, statuses[..|statuses| - 1], seenMs);
      StatusMapOfOneMore(Upserted(devices, statuses[..|statuses| - 1], seenMs), statuses[|statuses| - 1], seenMs);
    }
  }

  lemma StatusMapOfOneMore(devices: Devices, status: DeviceStatus, seenMs: int)
    ensures StatusMap(devices[status.deviceId := Snapshot(status, seenMs)]) == StatusMap(devices)[status.deviceId := status]
  {
  }

  /** Upserting stamps exactly the devices of the batch. */
  lemma {:induction false} UpsertedStamps(devices: Devices, statuses: seq<DeviceStatus>, seenMs: int, id: string)
    ensures var after := Upserted(devices, statuses, seenMs);
            id in after ==>
              if id in LastById(statuses) then after[id] == Snapshot(LastById(statuses)[id], seenMs)
              else id in devices && after[id] == devices[id]
  {
    if statuses != [] {
      UpsertedStamps(devices, statuses[..|statuses| - 1], seenMs, id);
    }
  }

  lemma {:induction false} UpsertedGrows(devices: Devices, statuses: seq<DeviceStatus>, seenMs: int)
    ensures devices.Keys <= Upserted(devices, statuses, seenMs).Keys
    ensures statuses != [] ==> Upserted(devices, statuses, seenMs) != map[]
  {
    if statuses != [] {
      UpsertedGrows(devices, statuses[..|statuses| - 1], seenMs);
      assert statuses[|statuses| - 1].deviceId in Upserted(devices, statuses, seenMs);
    }
  }

  /** The extent of a set of devices is determined by it. */
  lemma ExtentIsUnique(devices: Devices, low: Point, high: Point, low': Point, high': Point)
    requires Extent(devices, low, high) && Extent(devices, low', high')
    ensures low == low' && high == high'
  {
    var a :| a in devices && devices[a].status.x == low.x;
    var b :| b in devices && devices[b].status.x == high.x;
    var c :| c in devices && devices[c].status.y == low.y;
    var d :| d in devices && devices[d].status.y == high.y;
  }

  lemma SomeDevice(ids: set<string>)
    requires ids != {}
    ensures exists id :: id in ids
  {
    if forall id :: id !in ids {
      assert false;
    }
  }

  /** No device is nearer to the point than this one, and it is within reach. */
  ghost predicate IsNearest(devices: Devices, v: View, point: Point, id: string) {
    && id in devices
    && SquaredDistance(WorldToScreen(v, Position(devices[id])), point) <= 100.0
    && forall other :: other in devices ==>
         SquaredDistance(WorldToScreen(v, Position(devices[id])), point)
           <= SquaredDistance(WorldToScreen(v, Position(devices[other])), point)
  }

  /** The result of looking for a device under a point. */
  ghost predicate IsHit(devices: Devices, v: View, point: Point, hit: Option<string>) {
    match hit
    case Some(id) => IsNearest(devices, v, point, id)
    case None =>
      forall id :: id in devices ==>
        SquaredDistance(WorldToScreen(v, Position(devices[id])), point) > 100.0
  }

  class FleetMapWidget {
    var devicesById: Devices
    var hoveredDeviceId: Option<string>
    var selectedDeviceId: Option<string>
    var lastMousePosition: Point
    var pan: Point
    var scale: real
    var autoFitEnabled: bool
    var dragging: bool
    var width: int
    var height: int

    function CurrentView(): View
      reads this
    {
      View(scale, pan)
    }

    function Area(): Rect
      reads this
    {
      PlotArea(width, height)
    }

    /** The view is the best one for the devices and the size there are now. */
    ghost predicate Fitted()
      reads this
    {
      exists low, high :: Extent(devicesById, low, high) && BestView(Area(), Padded(low, high), CurrentView())
    }

    /**
     The scale is the initial one or one the clamps allow, and while auto-fit is on
     the view is never stale.
     */
    ghost predicate Valid()
      reads this
    {
      && (scale == 1.0 || 2.0 <= scale <= 140.0)
      && (autoFitEnabled && devicesById != map[] && Roomy(Area()) ==> Fitted())
    }

    constructor (width: int, height: int)
      ensures Valid() && devicesById == map[] && autoFitEnabled
    {
      devicesById := map[];
      hoveredDeviceId, selectedDeviceId := None, None;
      lastMousePosition, pan, scale := Point(0.0, 0.0), Point(0.0, 0.0), 1.0;
      autoFitEnabled, dragging := true, false;
      this.width, this.height := width, height;
    }

    /** The extent of the devices, found by one pass in the table's own order. */
    method DeviceExtent() returns (low: Point, high: Point)
      requires devicesById != map[]
      ensures Extent(devicesById, low, high)
    {
      SomeDevice(devicesById.Keys);
      var first :| first in devicesById;
      low, high := Position(devicesById[first]), Position(devicesById[first]);
      var remaining := devicesById.Keys - {first};
      while remaining != {}
        invariant remaining <= devicesById.Keys
        invariant forall id :: id in devicesById && id !in remaining ==>
          low.x <= devicesById[id].status.x <= high.x && low.y <= devicesById[id].status.y <= high.y
        invariant exists id :: id in devicesById && devicesById[id].status.x == low.x
        invariant exists id :: id in devicesById && devicesById[id].status.x == high.x
        invariant exists id :: id in devicesById && devicesById[id].status.y == low.y
        invariant exists id :: id in devicesById && devicesById[id].status.y == high.y
      {
        SomeDevice(remaining);
        var id :| id in remaining;
        var p := Position(devicesById[id]);
        low := Point(Min(low.x, p.x), Min(low.y, p.y));
        high := Point(Max(high.x, p.x), Max(high.y, p.y));
        remaining := remaining - {id};
      }
    }

    method WorldBounds() returns (bounds: Rect)
      ensures bounds.width >= 1.0 && bounds.height >= 1.0
      ensures devicesById == map[] ==> bounds == Rect(-10.0, -10.0, 20.0, 20.0)
      ensures devicesById != map[] ==> exists low, high :: Extent(devicesById, low, high) && bounds == Padded(low, high)
    {
      if devicesById == map[] { return Rect(-10.0, -10.0, 20.0, 20.0); }
      var low, high := DeviceExtent();
      var spanX, spanY := Max(MINIMUM_WORLD_SPAN, high.x - low.x), Max(MINIMUM_WORLD_SPAN, high.y - low.y);
      var padX, padY := spanX * 0.12, spanY * 0.12;
      bounds := Rect(low.x - padX, low.y - padY, spanX + padX * 2.0, spanY + padY * 2.0);
      assert bounds == Padded(low, high);
    }

    /** Fitting makes the view valid; a plot area too small to draw in is left alone. */
    method UpdateAutoFit()
      requires scale == 1.0 || 2.0 <= scale <= 140.0
      modifies this`scale, this`pan
      ensures Valid()
      ensures !Roomy(Area()) ==> CurrentView() == old(CurrentView())
      ensures Roomy(Area()) && devicesById != map[] ==> Fitted()
      ensures Roomy(Area()) && devicesById == map[] ==> BestView(Area(), Rect(-10.0, -10.0, 20.0, 20.0), CurrentView())
    {
      hide Extent, Padded, Anchored, BestView;
      var area := Area();
      if area.width <= 1.0 || area.height <= 1.0 { return; }
      var bounds := WorldBounds();
      var nextScale := Min(area.width / Max(1.0, bounds.width), area.height / Max(1.0, bounds.height));
      scale := Clamp(nextScale, 2.0, 80.0);
      pan := Anchored(bounds.Center(), area.Center(), scale).pan;
      FitIsBest(area, bounds, CurrentView());
    }

    method UpsertDevices(statuses: seq<DeviceStatus>, seenMs: int)
      requires Valid()
      modifies this`devicesById, this`scale, this`pan
      ensures Valid()
      ensures devicesById == Upserted(old(devicesById), statuses, seenMs)
      ensures StatusMap(devicesById) == StatusMap(old(devicesById)) + LastById(statuses)
      ensures forall id :: id in devicesById ==>
        if id in LastById(statuses) then devicesById[id] == Snapshot(LastById(statuses)[id], seenMs)
        else id in old(devicesById) && devicesById[id] == old(devicesById)[id]
      ensures !autoFitEnabled ==> CurrentView() == old(CurrentView())
    {
      hide Extent, BestView, Padded;
      for i := 0 to |statuses|
        invariant devicesById == Upserted(old(devicesById), statuses[..i], seenMs)
        invariant scale == old(scale) && pan == old(pan)
      {
        devicesById := devicesById[statuses[i].deviceId := Snapshot(statuses[i], seenMs)];
        assert statuses[..i + 1][..i] == statuses[..i];
      }
      assert statuses[..|statuses|] == statuses;
      UpsertedStatuses(old(devicesById), statuses, seenMs);
      forall id | id in devicesById
        ensures if id in LastById(statuses) then devicesById[id] == Snapshot(LastById(statuses)[id], seenMs)
                else id in old(devicesById) && devicesById[id] == old(devicesById)[id]
      {
        UpsertedStamps(old(devicesById), statuses, seenMs, id);
      }
      if autoFitEnabled {
        UpdateAutoFit();
      }
    }

    method AutoFit()
      requires Valid()
      modifies this`autoFitEnabled, this`scale, this`pan
      ensures Valid() && autoFitEnabled
      ensures Roomy(Area()) && devicesById != map[] ==> Fitted()
    {
      autoFitEnabled := true;
      UpdateAutoFit();
    }

    method Resize(newWidth: int, newHeight: int)
      requires Valid()
      modifies this`width, this`height, this`scale, this`pan
      ensures Valid() && width == newWidth && height == newHeight
      ensures !autoFitEnabled ==> CurrentView() == old(CurrentView())
    {
      width, height := newWidth, newHeight;
      if autoFitEnabled {
        UpdateAutoFit();
      }
    }

    /** The device drawn nearest to the point, if one is within the hit radius. */
    method NearestDeviceId(point: Point) returns (nearest: Option<string>)
      ensures IsHit(devicesById, CurrentView(), point, nearest)
    {
      hide SquaredDistance, WorldToScreen;
      nearest := None;
      var nearestDistance := MARKER_HIT_RADIUS * MARKER_HIT_RADIUS;
      var remaining := devicesById.Keys;
      while remaining != {}
        invariant remaining <= devicesById.Keys && nearestDistance <= MARKER_HIT_RADIUS * MARKER_HIT_RADIUS
        invariant nearest.None? ==> nearestDistance == MARKER_HIT_RADIUS * MARKER_HIT_RADIUS
        invariant nearest.Some? ==> nearest.value in devicesById
        invariant nearest.Some? ==>
          nearestDistance == SquaredDistance(WorldToScreen(CurrentView(), Position(devicesById[nearest.value])), point)
        invariant forall id :: id in devicesById && id !in remaining ==>
          var distance := SquaredDistance(WorldToScreen(CurrentView(), Position(devicesById[id])), point);
          if nearest.Some? then nearestDistance <= distance else nearestDistance < distance
      {
        SomeDevice(remaining);
        var id :| id in remaining;
        var marker := WorldToScreen(CurrentView(), Position(devicesById[id]));
        var distance := SquaredDistance(marker, point);
        if distance <= nearestDistance {
          nearestDistance := distance;
          nearest := Some(id);
        }
        remaining := remaining - {id};
      }
    }

    method MousePress(position: Point)
      requires Valid()
      modifies this`selectedDeviceId, this`dragging, this`lastMousePosition
      ensures Valid() && lastMousePosition == position && dragging == selectedDeviceId.None?
      ensures IsHit(devicesById, CurrentView(), position, selectedDeviceId)
    {
      selectedDeviceId := NearestDeviceId(position);
      dragging := selectedDeviceId.None?;
      lastMousePosition := position;
    }

    method MouseRelease()
      modifies this`dragging
      ensures !dragging && (old(Valid()) ==> Valid())
    {
      dragging := false;
    }

    method MouseMove(position: Point)
      requires Valid()
      modifies this`autoFitEnabled, this`pan, this`lastMousePosition, this`hoveredDeviceId
      ensures Valid()
      ensures old(dragging) ==>
        pan == Point(old(pan).x + position.x - old(lastMousePosition).x, old(pan).y + position.y - old(lastMousePosition).y)
      ensures !old(dragging) ==> pan == old(pan)
      ensures autoFitEnabled == (old(autoFitEnabled) && !old(dragging))
      ensures if old(dragging) then hoveredDeviceId == old(hoveredDeviceId) && lastMousePosition == position
              else IsHit(devicesById, CurrentView(), position, hoveredDeviceId) && lastMousePosition == old(lastMousePosition)
    {
      if dragging {
        autoFitEnabled := false;
        pan := Point(pan.x + (position.x - lastMousePosition.x), pan.y + (position.y - lastMousePosition.y));
        lastMousePosition := position;
      } else {
        hoveredDeviceId := NearestDeviceId(position);
      }
    }

    /** Zooming: the scale stays within its clamps and the world point under the cursor stays there. */
    method Wheel(cursor: Point, up: bool)
      requires Valid()
      modifies this`autoFitEnabled, this`scale, this`pan, this`hoveredDeviceId
      ensures Valid() && !autoFitEnabled
      ensures scale == Clamp(if up then old(scale) * 1.15 else old(scale) * (1.0 / 1.15), 2.0, 140.0)
      ensures ScreenToWorld(CurrentView(), cursor) == old(ScreenToWorld(CurrentView(), cursor))
      ensures WorldToScreen(CurrentView(), old(ScreenToWorld(CurrentView(), cursor))) == cursor
      ensures IsHit(devicesById, CurrentView(), cursor, hoveredDeviceId)
    {
      hide ScreenToWorld, WorldToScreen, Anchored;
      autoFitEnabled := false;
      var before := ScreenToWorld(CurrentView(), cursor);
      var factor := if up then 1.15 else 1.0 / 1.15;
      scale := Clamp(scale * factor, 2.0, 140.0);
      pan := Anchored(before, cursor, scale).pan;
      AnchorHolds(before, cursor, scale, before);
      ScreenAndWorldInvert(CurrentView(), before);
      hoveredDeviceId := NearestDeviceId(cursor);
    }

    /** While auto-fit is on, every state shows all devices exactly when their spans fit at scale 2. */
    lemma AutoFitNeverStale(low: Point, high: Point)
      requires Valid() && autoFitEnabled && Roomy(Area()) && Extent(devicesById, low, high)
      ensures BestView(Area(), Padded(low, high), CurrentView())
      ensures AllInside(devicesById, Area(), CurrentView()) <==> FitsAtScaleTwo(Area(), low, high)
    {
      hide AllInside, FitsAtScaleTwo, BestView, Padded;
      assert devicesById != map[] by {
        var id :| id in devicesById && devicesById[id].status.x == low.x;
      }
      var low', high' :| Extent(devicesById, low', high') && BestView(Area(), Padded(low', high'), CurrentView());
      ExtentIsUnique(devicesById, low, high, low', high');
      AutoFitContains(devicesById, Area(), low, high, CurrentView());
    }
  }
}

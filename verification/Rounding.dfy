/** Rounding a document on its way to the server (packages/editor/src/document/round.ts), over the
    reals: whatever the validator accepts it still accepts afterwards. */
module Rounding {
  import opened Wrappers
  import opened Drawing
  import opened DocumentRules

  const COORD := 100.0
  const PRESSURE := 1000.0

  // Math.round(n * f) / f
  function RoundTo(x: real, f: real): real
    requires f > 0.0
  {
    (x * f + 0.5).Floor as real / f
  }

  function RoundNum(n: Num, f: real): Num
    requires f > 0.0
  {
    if n.Finite? then Finite(RoundTo(n.value, f)) else n
  }

  function RoundOpt(n: Option<Num>): Option<Num> {
    if n.Some? then Some(RoundNum(n.value, COORD)) else None
  }

  // a size greater than 0 never becomes 0
  function RoundSize(n: Num): Num {
    if n.Finite? && n.value > 0.0 then
      var r := RoundTo(n.value, COORD);
      Finite(if r < 0.01 then 0.01 else r)
    else n
  }

  function RoundSizeOpt(n: Option<Num>): Option<Num> {
    if n.Some? then Some(RoundSize(n.value)) else None
  }

  function RoundPoint(p: Point): Point {
    Point(RoundNum(p.x, COORD), RoundNum(p.y, COORD))
  }

  function RoundPen(p: FreehandPoint): FreehandPoint {
    FreehandPoint(RoundNum(p.x, COORD), RoundNum(p.y, COORD), RoundNum(p.pressure, PRESSURE))
  }

  function RoundPoints(points: seq<Point>): (r: seq<Point>)
    ensures |r| == |points| && forall i :: 0 <= i < |r| ==> r[i] == RoundPoint(points[i])
  {
    seq(|points|, i requires 0 <= i < |points| => RoundPoint(points[i]))
  }

  function RoundPens(points: seq<FreehandPoint>): (r: seq<FreehandPoint>)
    ensures |r| == |points| && forall i :: 0 <= i < |r| ==> r[i] == RoundPen(points[i])
  {
    seq(|points|, i requires 0 <= i < |points| => RoundPen(points[i]))
  }

  function RoundShape(s: Shape): Shape {
    match s
    case Freehand(_, points, _) => s.(freehand := RoundPens(points))
    case Line(points, _, width, _, _) => s.(points := RoundPoints(points), lineWidth := RoundSize(width))
    case Polygon(points, _, _, width, _) => s.(points := RoundPoints(points), strokeWidth := RoundSizeOpt(width))
    case Rect(x, y, width, height, corner, _, _, strokeWidth) =>
      s.(x := RoundNum(x, COORD), y := RoundNum(y, COORD), width := RoundSize(width), height := RoundSize(height),
         cornerRadius := RoundOpt(corner), strokeWidth := RoundSizeOpt(strokeWidth))
    case Ellipse(cx, cy, rx, ry, _, _, strokeWidth) =>
      s.(cx := RoundNum(cx, COORD), cy := RoundNum(cy, COORD), rx := RoundSize(rx), ry := RoundSize(ry),
         strokeWidth := RoundSizeOpt(strokeWidth))
  }

  function RoundStroke(s: Stroke): Stroke {
    s.(shape := RoundShape(s.shape))
  }

  function RoundLayer(l: LayerValue): (r: LayerValue)
    ensures |r.strokes| == |l.strokes|
    ensures forall k :: 0 <= k < |l.strokes| ==> r.strokes[k] == RoundStroke(l.strokes[k])
  {
    l.(strokes := seq(|l.strokes|, k requires 0 <= k < |l.strokes| => RoundStroke(l.strokes[k])))
  }

  function RoundLayers(layers: seq<LayerValue>): (r: seq<LayerValue>)
    ensures |r| == |layers| && forall i :: 0 <= i < |r| ==> r[i] == RoundLayer(layers[i])
  {
    seq(|layers|, i requires 0 <= i < |layers| => RoundLayer(layers[i]))
  }

  function RoundDocument(d: Document): Document {
    d.(layers := RoundLayers(d.layers))
  }

  // ---- one number ----

  /** Rounding moves a number by at most half a step. */
  lemma RoundMoves(x: real, f: real)
    requires f > 0.0
    ensures -0.5 <= RoundTo(x, f) * f - x * f <= 0.5
  {
    var k := (x * f + 0.5).Floor as real;
    assert k / f * f == k;
  }

  lemma CoordMoves(x: real)
    ensures x - 0.005 <= RoundTo(x, COORD) <= x + 0.005
  {
    RoundMoves(x, COORD);
  }

  /** A number on the grid stays, and every rounded number is on the grid. */
  lemma RoundStays(x: real, f: real)
    requires f > 0.0
    ensures RoundTo(RoundTo(x, f), f) == RoundTo(x, f)
  {
    var k := (x * f + 0.5).Floor;
    assert k as real / f * f == k as real;
    OnGrid(k as real / f, k, f);
  }

  lemma OnGrid(y: real, k: int, f: real)
    requires f > 0.0 && y * f == k as real
    ensures RoundTo(y, f) == k as real / f
  {
    var z := y * f + 0.5;
    assert z == k as real + 0.5;
    assert z.Floor == k;
  }

  lemma RoundMonotone(x: real, y: real, f: real)
    requires f > 0.0 && x <= y
    ensures RoundTo(x, f) <= RoundTo(y, f)
  {
    assert x * f <= y * f;
    FloorMonotone(x * f + 0.5, y * f + 0.5);
    DivideMonotone((x * f + 0.5).Floor as real, (y * f + 0.5).Floor as real, f);
  }

  lemma FloorMonotone(x: real, y: real)
    requires x <= y
    ensures x.Floor <= y.Floor
  {
    assert x.Floor as real <= x && y < y.Floor as real + 1.0;
    assert (x.Floor as real) < (y.Floor + 1) as real;
  }

  lemma DivideMonotone(x: real, y: real, f: real)
    requires f > 0.0 && x <= y
    ensures x / f <= y / f
  {
  }

  lemma UnitStays(x: real)
    requires 0.0 <= x <= 1.0
    ensures 0.0 <= RoundTo(x, PRESSURE) <= 1.0
  {
    RoundMonotone(0.0, x, PRESSURE);
    RoundMonotone(x, 1.0, PRESSURE);
    assert RoundTo(0.0, PRESSURE) == 0.0 && RoundTo(1.0, PRESSURE) == 1.0;
  }

  /** A size stays positive, stays put when rounded again, and moves by less than 0.01. */
  lemma SizeRounds(x: real)
    requires x > 0.0
    ensures var r := RoundSize(Finite(x)).value;
            r > 0.0 && x - 0.01 < r < x + 0.01 && RoundSize(Finite(r)) == Finite(r)
  {
    CoordMoves(x);
    RoundStays(x, COORD);
    assert (0.01 * COORD + 0.5).Floor == 1;
  }

  lemma CornerStays(x: real)
    requires x >= 0.0
    ensures RoundTo(x, COORD) >= 0.0
  {
    RoundMonotone(0.0, x, COORD);
    assert RoundTo(0.0, COORD) == 0.0;
  }

  // ---- shapes ----

  lemma SizeNum(n: Num)
    ensures RoundSize(RoundSize(n)) == RoundSize(n)
    ensures Positive(n) ==> Positive(RoundSize(n))
  {
    if Positive(n) { SizeRounds(n.value); }
  }

  lemma SizeNumOpt(n: Option<Num>)
    ensures RoundSizeOpt(RoundSizeOpt(n)) == RoundSizeOpt(n)
    ensures n.Some? && Positive(n.value) ==> Positive(RoundSizeOpt(n).value)
  {
    if n.Some? { SizeNum(n.value); }
  }

  lemma NumStays(n: Num, f: real)
    requires f > 0.0
    ensures RoundNum(RoundNum(n, f), f) == RoundNum(n, f)
  {
    if n.Finite? { RoundStays(n.value, f); }
  }

  lemma CornerOpt(n: Option<Num>)
    ensures RoundOpt(RoundOpt(n)) == RoundOpt(n)
    ensures n.Some? && NotNegative(n.value) ==> NotNegative(RoundOpt(n).value)
  {
    if n.Some? {
      NumStays(n.value, COORD);
      if NotNegative(n.value) { CornerStays(n.value.value); }
    }
  }

  lemma PointsStay(points: seq<Point>)
    ensures RoundPoints(RoundPoints(points)) == RoundPoints(points)
  {
    forall i | 0 <= i < |points| ensures RoundPoint(RoundPoint(points[i])) == RoundPoint(points[i]) {
      NumStays(points[i].x, COORD);
      NumStays(points[i].y, COORD);
    }
  }

  lemma PensStay(points: seq<FreehandPoint>)
    ensures RoundPens(RoundPens(points)) == RoundPens(points)
  {
    forall i | 0 <= i < |points| ensures RoundPen(RoundPen(points[i])) == RoundPen(points[i]) {
      NumStays(points[i].x, COORD);
      NumStays(points[i].y, COORD);
      NumStays(points[i].pressure, PRESSURE);
    }
  }

  lemma ShapeStays(s: Shape)
    ensures RoundShape(RoundShape(s)) == RoundShape(s)
  {
    match s
    case Freehand(_, points, _) => PensStay(points);
    case Line(points, _, width, _, _) =>
      PointsStay(points);
      SizeNum(width);
    case Polygon(points, _, _, width, _) =>
      PointsStay(points);
      SizeNumOpt(width);
    case Rect(x, y, width, height, corner, _, _, strokeWidth) =>
      NumStays(x, COORD);
      NumStays(y, COORD);
      SizeNum(width);
      SizeNum(height);
      CornerOpt(corner);
      SizeNumOpt(strokeWidth);
    case Ellipse(cx, cy, rx, ry, _, _, strokeWidth) =>
      NumStays(cx, COORD);
      NumStays(cy, COORD);
      SizeNum(rx);
      SizeNum(ry);
      SizeNumOpt(strokeWidth);
  }

  lemma PensStayValid(points: seq<FreehandPoint>)
    requires forall i :: 0 <= i < |points| ==>
               points[i].x.Finite? && points[i].y.Finite? && Within(points[i].pressure, 0.0, 1.0)
    ensures forall i :: 0 <= i < |points| ==>
              RoundPens(points)[i].x.Finite? && RoundPens(points)[i].y.Finite?
              && Within(RoundPens(points)[i].pressure, 0.0, 1.0)
  {
    forall i | 0 <= i < |points| ensures Within(RoundPen(points[i]).pressure, 0.0, 1.0) {
      UnitStays(points[i].pressure.value);
    }
  }

  /** An accepted shape stays accepted, with as many points. */
  lemma ShapeStaysValid(s: Shape)
    requires ValidShape(s)
    ensures ValidShape(RoundShape(s)) && Points(RoundShape(s)) == Points(s)
  {
    match s
    case Freehand(_, points, _) => PensStayValid(points);
    case Line(points, _, width, _, _) => SizeNum(width);
    case Polygon(points, _, _, width, _) => SizeNumOpt(width);
    case Rect(_, _, width, height, corner, _, _, strokeWidth) =>
      SizeNum(width);
      SizeNum(height);
      CornerOpt(corner);
      SizeNumOpt(strokeWidth);
    case Ellipse(_, _, rx, ry, _, _, strokeWidth) =>
      SizeNum(rx);
      SizeNum(ry);
      SizeNumOpt(strokeWidth);
  }

  // ---- documents ----

  lemma {:induction false} RoundedPoints(strokes: seq<Stroke>, rounded: seq<Stroke>)
    requires |rounded| == |strokes|
    requires forall k :: 0 <= k < |strokes| ==> rounded[k] == RoundStroke(strokes[k]) && ValidStroke(strokes[k])
    ensures StrokePoints(rounded) == StrokePoints(strokes) && StrokeIds(rounded) == StrokeIds(strokes)
  {
    if strokes != [] {
      var last := |strokes| - 1;
      RoundedPoints(strokes[..last], rounded[..last]);
      ShapeStaysValid(strokes[last].shape);
    }
  }

  lemma LayerStaysValid(l: LayerValue)
    requires ValidLayer(l)
    ensures ValidLayer(RoundLayer(l))
  {
    forall k | 0 <= k < |l.strokes| ensures ValidStroke(RoundLayer(l).strokes[k]) {
      ShapeStaysValid(l.strokes[k].shape);
    }
  }

  lemma {:induction false} RoundedTotals(layers: seq<LayerValue>)
    requires forall i :: 0 <= i < |layers| ==> ValidLayer(layers[i])
    ensures IdsOf(RoundLayers(layers)) == IdsOf(layers)
    ensures StrokeCount(RoundLayers(layers)) == StrokeCount(layers)
    ensures PointCount(RoundLayers(layers)) == PointCount(layers)
  {
    if layers != [] {
      var last := |layers| - 1;
      RoundedTotals(layers[..last]);
      assert RoundLayers(layers)[..last] == RoundLayers(layers[..last]);
      RoundedPoints(layers[last].strokes, RoundLayer(layers[last]).strokes);
    }
  }

  /** Every accepted document is still accepted once rounded. */
  lemma RoundKeepsValid(d: Document)
    requires ValidDocument(d)
    ensures ValidDocument(RoundDocument(d))
  {
    RoundedTotals(d.layers);
    forall i | 0 <= i < |d.layers| ensures ValidLayer(RoundLayers(d.layers)[i]) {
      LayerStaysValid(d.layers[i]);
    }
  }

  lemma LayerStays(l: LayerValue)
    ensures RoundLayer(RoundLayer(l)) == RoundLayer(l)
  {
    forall k | 0 <= k < |l.strokes|
      ensures RoundLayer(RoundLayer(l)).strokes[k] == RoundLayer(l).strokes[k]
    {
      ShapeStays(l.strokes[k].shape);
    }
    assert RoundLayer(RoundLayer(l)).strokes == RoundLayer(l).strokes;
  }

  /** Rounding twice is rounding once, on every document. */
  lemma RoundTwice(d: Document)
    ensures RoundDocument(RoundDocument(d)) == RoundDocument(d)
  {
    forall i | 0 <= i < |d.layers| ensures RoundLayer(RoundLayer(d.layers[i])) == RoundLayer(d.layers[i]) {
      LayerStays(d.layers[i]);
    }
    assert RoundLayers(RoundLayers(d.layers)) == RoundLayers(d.layers);
  }

  predicate Near(a: Num, b: Num, step: real) {
    a.Finite? && b.Finite? && a.value - step <= b.value <= a.value + step
  }

  // sizes move by less than a step
  predicate SizeNear(a: Num, b: Num) {
    a.Finite? && b.Finite? && a.value - 0.01 < b.value < a.value + 0.01
  }

  /** Where an accepted shape ends up: every coordinate within 0.005, every pressure within 0.0005,
      every size within 0.01 of where it was. */
  predicate ShapeNear(s: Shape, t: Shape) {
    match (s, t)
    case (Freehand(_, ps, _), Freehand(_, qs, _)) =>
      |ps| == |qs| && forall i :: 0 <= i < |ps| ==>
        Near(ps[i].x, qs[i].x, 0.005) && Near(ps[i].y, qs[i].y, 0.005) && Near(ps[i].pressure, qs[i].pressure, 0.0005)
    case (Line(ps, _, w, _, _), Line(qs, _, v, _, _)) => PointsNear(ps, qs) && SizeNear(w, v)
    case (Polygon(ps, _, _, w, _), Polygon(qs, _, _, v, _)) => PointsNear(ps, qs) && SizeOptNear(w, v)
    case (Rect(x, y, w, h, c, _, _, lw), Rect(x', y', w', h', c', _, _, lw')) =>
      Near(x, x', 0.005) && Near(y, y', 0.005) && SizeNear(w, w') && SizeNear(h, h') && CornerNear(c, c')
      && SizeOptNear(lw, lw')
    case (Ellipse(x, y, w, h, _, _, lw), Ellipse(x', y', w', h', _, _, lw')) =>
      Near(x, x', 0.005) && Near(y, y', 0.005) && SizeNear(w, w') && SizeNear(h, h') && SizeOptNear(lw, lw')
    case _ => false
  }

  // an outline width the validator did not look at may be anything, and stays what it is
  predicate SizeOptNear(a: Option<Num>, b: Option<Num>) {
    if a.Some? && Positive(a.value) then b.Some? && SizeNear(a.value, b.value) else b == a
  }

  predicate CornerNear(a: Option<Num>, b: Option<Num>) {
    if a.Some? then b.Some? && Near(a.value, b.value, 0.005) else b.None?
  }

  lemma SizeOptNearRounded(n: Option<Num>)
    ensures SizeOptNear(n, RoundSizeOpt(n))
  {
    if n.Some? && Positive(n.value) { SizeNearRounded(n.value); }
  }

  predicate PointsNear(ps: seq<Point>, qs: seq<Point>) {
    |ps| == |qs| && forall i :: 0 <= i < |ps| ==> Near(ps[i].x, qs[i].x, 0.005) && Near(ps[i].y, qs[i].y, 0.005)
  }

  lemma CoordNear(n: Num)
    requires n.Finite?
    ensures Near(n, RoundNum(n, COORD), 0.005)
  {
    CoordMoves(n.value);
  }

  lemma SizeNearRounded(n: Num)
    requires Positive(n)
    ensures SizeNear(n, RoundSize(n))
  {
    SizeRounds(n.value);
  }

  lemma PointsNearRounded(ps: seq<Point>)
    requires forall i :: 0 <= i < |ps| ==> FinitePoint(ps[i])
    ensures PointsNear(ps, RoundPoints(ps))
  {
    forall i | 0 <= i < |ps|
      ensures Near(ps[i].x, RoundPoints(ps)[i].x, 0.005) && Near(ps[i].y, RoundPoints(ps)[i].y, 0.005)
    {
      CoordNear(ps[i].x);
      CoordNear(ps[i].y);
    }
  }

  lemma PensNearRounded(ps: seq<FreehandPoint>, i: nat)
    requires i < |ps| && ps[i].x.Finite? && ps[i].y.Finite? && ps[i].pressure.Finite?
    ensures var q := RoundPens(ps)[i];
            Near(ps[i].x, q.x, 0.005) && Near(ps[i].y, q.y, 0.005) && Near(ps[i].pressure, q.pressure, 0.0005)
  {
    CoordNear(ps[i].x);
    CoordNear(ps[i].y);
    RoundMoves(ps[i].pressure.value, PRESSURE);
  }

  /** Rounding an accepted shape moves it that little. */
  lemma RoundMovesLittle(s: Shape)
    requires ValidShape(s)
    ensures ShapeNear(s, RoundShape(s))
  {
    match s
    case Freehand(_, points, _) =>
      forall i | 0 <= i < |points|
        ensures var q := RoundPens(points)[i];
                Near(points[i].x, q.x, 0.005) && Near(points[i].y, q.y, 0.005)
                && Near(points[i].pressure, q.pressure, 0.0005)
      {
        PensNearRounded(points, i);
      }
    case Line(points, _, width, _, _) =>
      PointsNearRounded(points);
      SizeNearRounded(width);
    case Polygon(points, _, _, width, _) =>
      PointsNearRounded(points);
      SizeOptNearRounded(width);
    case Rect(x, y, width, height, corner, _, _, strokeWidth) =>
      if corner.Some? { CoordNear(corner.value); }
      SizeOptNearRounded(strokeWidth);
      CoordNear(x);
      CoordNear(y);
      SizeNearRounded(width);
      SizeNearRounded(height);
    case Ellipse(cx, cy, rx, ry, _, _, strokeWidth) =>
      SizeOptNearRounded(strokeWidth);
      CoordNear(cx);
      CoordNear(cy);
      SizeNearRounded(rx);
      SizeNearRounded(ry);
  }
}

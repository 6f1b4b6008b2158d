/** The server's document validator (server/internal/document/validate.go): its accumulating,
    early-exit loops accept exactly the documents that meet the declared rules. */
module DocumentRules {
  import opened Wrappers
  import opened Drawing
  import opened Seqs

  const MAX_CANVAS := 8192
  const MAX_LAYERS := 64
  const MAX_STROKES := 5000
  const MAX_POINTS_PER_STROKE := 10000
  const MAX_TOTAL_POINTS := 100000
  const MAX_ID_LEN := 64
  const MAX_NAME_LEN := 64

  // ---- the rules of one value ----

  predicate IsHex(c: char) {
    '0' <= c <= '9' || 'a' <= c <= 'f'
  }

  // ^#([0-9a-f]{6}|[0-9a-f]{8})$
  predicate IsColor(c: Color) {
    (|c| == 7 || |c| == 9) && c[0] == '#' && forall i :: 1 <= i < |c| ==> IsHex(c[i])
  }

  predicate IsColorOpt(c: Option<Color>) {
    c.Some? ==> IsColor(c.value)
  }

  predicate ValidId(id: Id) {
    1 <= |id| <= MAX_ID_LEN
  }

  predicate ValidName(name: string) {
    1 <= |name| <= MAX_NAME_LEN
  }

  predicate Within(n: Num, low: real, high: real) {
    n.Finite? && low <= n.value <= high
  }

  predicate NotNegative(n: Num) {
    n.Finite? && n.value >= 0.0
  }

  predicate Positive(n: Num) {
    n.Finite? && n.value > 0.0
  }

  predicate ValidCap(c: Option<string>) {
    c.Some? ==> c.value == "butt" || c.value == "round" || c.value == "square"
  }

  predicate ValidJoin(j: Option<string>) {
    j.Some? ==> j.value == "miter" || j.value == "round" || j.value == "bevel"
  }

  // ---- the rules of one stroke ----

  predicate FinitePoint(p: Point) {
    p.x.Finite? && p.y.Finite?
  }

  predicate ValidBrush(b: Brush) {
    NotNegative(b.size) && Within(b.thinning, -1.0, 1.0) && Within(b.smoothing, 0.0, 1.0)
    && Within(b.streamline, 0.0, 1.0) && NotNegative(b.taperStart) && NotNegative(b.taperEnd)
  }

  predicate ValidFillStroke(fill: Option<Color>, stroke: Option<Color>, width: Option<Num>) {
    IsColorOpt(fill) && IsColorOpt(stroke) && (stroke.Some? && width.Some? ==> Positive(width.value))
  }

  predicate ValidShape(s: Shape) {
    match s
    case Freehand(color, points, brush) =>
      IsColor(color) && 1 <= |points| <= MAX_POINTS_PER_STROKE && ValidBrush(brush)
      && forall i :: 0 <= i < |points| ==>
           points[i].x.Finite? && points[i].y.Finite? && Within(points[i].pressure, 0.0, 1.0)
    case Line(points, color, width, cap, join) =>
      2 <= |points| <= MAX_POINTS_PER_STROKE && (forall i :: 0 <= i < |points| ==> FinitePoint(points[i]))
      && IsColor(color) && Positive(width) && ValidCap(cap) && ValidJoin(join)
    case Polygon(points, fill, stroke, width, join) =>
      3 <= |points| <= MAX_POINTS_PER_STROKE && (forall i :: 0 <= i < |points| ==> FinitePoint(points[i]))
      && ValidJoin(join) && ValidFillStroke(fill, stroke, width)
    case Rect(x, y, width, height, corner, fill, stroke, strokeWidth) =>
      x.Finite? && y.Finite? && Positive(width) && Positive(height)
      && (corner.Some? ==> NotNegative(corner.value)) && ValidFillStroke(fill, stroke, strokeWidth)
    case Ellipse(cx, cy, rx, ry, fill, stroke, strokeWidth) =>
      cx.Finite? && cy.Finite? && Positive(rx) && Positive(ry) && ValidFillStroke(fill, stroke, strokeWidth)
  }

  predicate ValidStroke(s: Stroke) {
    ValidId(s.id) && (s.composite == "source-over" || s.composite == "destination-out") && ValidShape(s.shape)
  }

  // rect and ellipse carry no input points
  function Points(s: Shape): nat {
    match s
    case Freehand(_, points, _) => |points|
    case Line(points, _, _, _, _) => |points|
    case Polygon(points, _, _, _, _) => |points|
    case _ => 0
  }

  // ---- the rules of a document ----

  function StrokeIds(strokes: seq<Stroke>): (r: seq<Id>)
    ensures |r| == |strokes| && forall i :: 0 <= i < |r| ==> r[i] == strokes[i].id
  {
    seq(|strokes|, i requires 0 <= i < |strokes| => strokes[i].id)
  }

  /** Layer and stroke ids, in one namespace. */
  function IdsOf(layers: seq<LayerValue>): seq<Id> {
    if layers == [] then []
    else
      var last := layers[|layers| - 1];
      IdsOf(layers[..|layers| - 1]) + [last.id] + StrokeIds(last.strokes)
  }

  function StrokeCount(layers: seq<LayerValue>): nat {
    if layers == [] then 0 else StrokeCount(layers[..|layers| - 1]) + |layers[|layers| - 1].strokes|
  }

  function StrokePoints(strokes: seq<Stroke>): nat {
    if strokes == [] then 0 else StrokePoints(strokes[..|strokes| - 1]) + Points(strokes[|strokes| - 1].shape)
  }

  function PointCount(layers: seq<LayerValue>): nat {
    if layers == [] then 0
    else PointCount(layers[..|layers| - 1]) + StrokePoints(layers[|layers| - 1].strokes)
  }

  predicate ValidLayer(l: LayerValue) {
    ValidId(l.id) && ValidName(l.name) && Within(l.opacity, 0.0, 1.0)
    && forall k :: 0 <= k < |l.strokes| ==> ValidStroke(l.strokes[k])
  }

  predicate ValidLayers(layers: seq<LayerValue>) {
    (forall i :: 0 <= i < |layers| ==> ValidLayer(layers[i]))
    && Distinct(IdsOf(layers)) && StrokeCount(layers) <= MAX_STROKES && PointCount(layers) <= MAX_TOTAL_POINTS
  }

  predicate ValidDocument(d: Document) {
    d.version == 1 && 1 <= d.width <= MAX_CANVAS && 1 <= d.height <= MAX_CANVAS && IsColorOpt(d.background)
    && 1 <= |d.layers| <= MAX_LAYERS && ValidLayers(d.layers)
  }

  // ---- what a prefix says about the whole ----

  lemma {:induction false} StrokePrefix(strokes: seq<Stroke>, k: nat)
    requires k <= |strokes|
    ensures StrokePoints(strokes[..k]) <= StrokePoints(strokes)
    decreases |strokes| - k
  {
    if k < |strokes| {
      StrokePrefix(strokes, k + 1);
      assert strokes[..k + 1][..k] == strokes[..k];
    } else {
      assert strokes[..k] == strokes;
    }
  }

  predicate IsPrefix<T(==)>(xs: seq<T>, ys: seq<T>) {
    |xs| <= |ys| && ys[..|xs|] == xs
  }

  lemma DistinctPrefix<T>(xs: seq<T>, ys: seq<T>)
    requires IsPrefix(xs, ys) && Distinct(ys)
    ensures Distinct(xs)
  {
    assert forall i :: 0 <= i < |xs| ==> xs[i] == ys[i];
  }

  lemma {:induction false} LayerPrefix(layers: seq<LayerValue>, n: nat)
    requires n <= |layers|
    ensures IsPrefix(IdsOf(layers[..n]), IdsOf(layers))
    ensures StrokeCount(layers[..n]) <= StrokeCount(layers) && PointCount(layers[..n]) <= PointCount(layers)
    decreases |layers| - n
  {
    if n < |layers| {
      LayerPrefix(layers, n + 1);
      var next := layers[..n + 1];
      assert next[..n] == layers[..n];
      var more := [layers[n].id] + StrokeIds(layers[n].strokes);
      assert IdsOf(next) == IdsOf(layers[..n]) + more;
      PrefixOfPrefix(IdsOf(layers[..n]), more, IdsOf(layers));
    } else {
      assert layers[..n] == layers;
    }
  }

  lemma PrefixOfPrefix<T>(xs: seq<T>, more: seq<T>, ys: seq<T>)
    requires IsPrefix(xs + more, ys)
    ensures IsPrefix(xs, ys)
  {
    assert ys[..|xs|] == (xs + more)[..|xs|];
  }

  // ids of a layer, after those seen before
  predicate NewIds(ids: seq<Id>, seen: set<Id>) {
    Distinct(ids) && forall i :: 0 <= i < |ids| ==> ids[i] !in seen
  }

  lemma DistinctConcat<T>(xs: seq<T>, ys: seq<T>)
    ensures Distinct(xs + ys) <==> Distinct(xs) && Distinct(ys) && forall i :: 0 <= i < |ys| ==> ys[i] !in Elements(xs)
  {
    var all := xs + ys;
    assert forall i :: 0 <= i < |xs| ==> all[i] == xs[i];
    assert forall i :: 0 <= i < |ys| ==> all[|xs| + i] == ys[i];
    if Distinct(all) {
      forall i, j | 0 <= i < |ys| && 0 <= j < |xs| ensures xs[j] != ys[i] {
        assert all[j] != all[|xs| + i];
      }
      forall i, j | 0 <= i < j < |ys| ensures ys[i] != ys[j] {
        assert all[|xs| + i] != all[|xs| + j];
      }
    }
    if Distinct(xs) && Distinct(ys) && forall i :: 0 <= i < |ys| ==> ys[i] !in Elements(xs) {
      forall i, j | 0 <= i < j < |all| ensures all[i] != all[j] {
        if i < |xs| <= j { assert ys[j - |xs|] !in Elements(xs); }
      }
    }
  }

  // ---- the loops ----

  method CheckID(id: Id, seen: set<Id>) returns (ok: bool, next: set<Id>)
    ensures ok <==> ValidId(id) && id !in seen
    ensures ok ==> next == seen + {id}
  {
    next := seen;
    if id == "" || |id| > MAX_ID_LEN { return false, next; }
    if id in seen { return false, next; }
    return true, seen + {id};
  }

  method CheckPoints(points: seq<Point>) returns (ok: bool)
    ensures ok <==> forall i :: 0 <= i < |points| ==> FinitePoint(points[i])
  {
    for k := 0 to |points|
      invariant forall i :: 0 <= i < k ==> FinitePoint(points[i])
    {
      if !points[k].x.Finite? || !points[k].y.Finite? { return false; }
    }
    return true;
  }

  method CheckBrush(b: Brush) returns (ok: bool)
    ensures ok <==> ValidBrush(b)
  {
    if !b.size.Finite? || b.size.value < 0.0 { return false; }
    if !b.thinning.Finite? || b.thinning.value < -1.0 || b.thinning.value > 1.0 { return false; }
    if !b.smoothing.Finite? || b.smoothing.value < 0.0 || b.smoothing.value > 1.0 { return false; }
    if !b.streamline.Finite? || b.streamline.value < 0.0 || b.streamline.value > 1.0 { return false; }
    if !b.taperStart.Finite? || b.taperStart.value < 0.0 || !b.taperEnd.Finite? || b.taperEnd.value < 0.0 {
      return false;
    }
    return true;
  }

  method CheckFreehand(s: Shape) returns (ok: bool, points: nat)
    requires s.Freehand?
    ensures ok <==> ValidShape(s)
    ensures ok ==> points == Points(s)
  {
    if !IsColor(s.color) { return false, 0; }
    if |s.freehand| < 1 || |s.freehand| > MAX_POINTS_PER_STROKE { return false, 0; }
    for k := 0 to |s.freehand|
      invariant forall i :: 0 <= i < k ==>
        s.freehand[i].x.Finite? && s.freehand[i].y.Finite? && Within(s.freehand[i].pressure, 0.0, 1.0)
    {
      var p := s.freehand[k];
      if !p.x.Finite? || !p.y.Finite? || !p.pressure.Finite? { return false, 0; }
      if p.pressure.value < 0.0 || p.pressure.value > 1.0 { return false, 0; }
    }
    ok := CheckBrush(s.brush);
    points := if ok then |s.freehand| else 0;
  }

  method CheckLine(s: Shape) returns (ok: bool, points: nat)
    requires s.Line?
    ensures ok <==> ValidShape(s)
    ensures ok ==> points == Points(s)
  {
    if |s.points| < 2 || |s.points| > MAX_POINTS_PER_STROKE { return false, 0; }
    ok := CheckPoints(s.points);
    if !ok { return false, 0; }
    if !IsColor(s.lineColor) { return false, 0; }
    if !s.lineWidth.Finite? || s.lineWidth.value <= 0.0 { return false, 0; }
    if !ValidCap(s.cap) || !ValidJoin(s.join) { return false, 0; }
    return true, |s.points|;
  }

  /** The width of the outline is only looked at when there is an outline. */
  method CheckFillStroke(fill: Option<Color>, stroke: Option<Color>, width: Option<Num>) returns (ok: bool)
    ensures ok <==> ValidFillStroke(fill, stroke, width)
  {
    if fill.Some? && !IsColor(fill.value) { return false; }
    if stroke.Some? {
      if !IsColor(stroke.value) { return false; }
      if width.Some? && (!width.value.Finite? || width.value.value <= 0.0) { return false; }
    }
    return true;
  }

  method CheckPolygon(s: Shape) returns (ok: bool, points: nat)
    requires s.Polygon?
    ensures ok <==> ValidShape(s)
    ensures ok ==> points == Points(s)
  {
    if |s.points| < 3 || |s.points| > MAX_POINTS_PER_STROKE { return false, 0; }
    ok := CheckPoints(s.points);
    if !ok { return false, 0; }
    if !ValidJoin(s.join) { return false, 0; }
    ok := CheckFillStroke(s.fill, s.stroke, s.strokeWidth);
    points := |s.points|;
  }

  method CheckRect(s: Shape) returns (ok: bool)
    requires s.Rect?
    ensures ok <==> ValidShape(s)
  {
    if !s.x.Finite? || !s.y.Finite? || !s.width.Finite? || !s.height.Finite? { return false; }
    if s.width.value <= 0.0 || s.height.value <= 0.0 { return false; }
    if s.cornerRadius.Some? && (!s.cornerRadius.value.Finite? || s.cornerRadius.value.value < 0.0) { return false; }
    ok := CheckFillStroke(s.fill, s.stroke, s.strokeWidth);
  }

  method CheckEllipse(s: Shape) returns (ok: bool)
    requires s.Ellipse?
    ensures ok <==> ValidShape(s)
  {
    if !s.cx.Finite? || !s.cy.Finite? || !s.rx.Finite? || !s.ry.Finite? { return false; }
    if s.rx.value <= 0.0 || s.ry.value <= 0.0 { return false; }
    ok := CheckFillStroke(s.fill, s.stroke, s.strokeWidth);
  }

  // the check of the stroke's own type
  method CheckShape(s: Shape) returns (ok: bool, points: nat)
    ensures ok <==> ValidShape(s)
    ensures ok ==> points == Points(s)
  {
    points := 0;
    match s
    case Freehand(_, _, _) => ok, points := CheckFreehand(s);
    case Line(_, _, _, _, _) => ok, points := CheckLine(s);
    case Polygon(_, _, _, _, _) => ok, points := CheckPolygon(s);
    case Rect(_, _, _, _, _, _, _, _) => ok := CheckRect(s);
    case Ellipse(_, _, _, _, _, _, _) => ok := CheckEllipse(s);
  }

  /** checkStroke: the point count of an accepted stroke. */
  method CheckStroke(s: Stroke, seen: set<Id>) returns (ok: bool, points: nat, next: set<Id>)
    ensures ok <==> ValidStroke(s) && s.id !in seen
    ensures ok ==> points == Points(s.shape) && next == seen + {s.id}
  {
    points := 0;
    ok, next := CheckID(s.id, seen);
    if !ok { return; }
    if s.composite != "source-over" && s.composite != "destination-out" { return false, 0, next; }
    ok, points := CheckShape(s.shape);
  }

  /** What the inner loop asks of a layer's strokes, given the ids and points before them. */
  predicate ValidStrokes(strokes: seq<Stroke>, seen: set<Id>, pointsBefore: nat) {
    (forall k :: 0 <= k < |strokes| ==> ValidStroke(strokes[k]))
    && NewIds(StrokeIds(strokes), seen) && pointsBefore + StrokePoints(strokes) <= MAX_TOTAL_POINTS
  }

  lemma StrokeNext(strokes: seq<Stroke>, k: nat, seen: set<Id>, pointsBefore: nat)
    requires k < |strokes|
    ensures Elements(StrokeIds(strokes[..k + 1])) == Elements(StrokeIds(strokes[..k])) + {strokes[k].id}
    ensures StrokePoints(strokes[..k + 1]) == StrokePoints(strokes[..k]) + Points(strokes[k].shape)
    ensures ValidStrokes(strokes[..k + 1], seen, pointsBefore)
       <==> ValidStrokes(strokes[..k], seen, pointsBefore) && ValidStroke(strokes[k])
            && strokes[k].id !in seen + Elements(StrokeIds(strokes[..k]))
            && pointsBefore + StrokePoints(strokes[..k + 1]) <= MAX_TOTAL_POINTS
  {
    var some, next := strokes[..k], strokes[..k + 1];
    assert next[..k] == some && next[k] == strokes[k];
    assert StrokeIds(next) == StrokeIds(some) + [strokes[k].id];
    DistinctConcat(StrokeIds(some), [strokes[k].id]);
    NewIdsNext(StrokeIds(some), strokes[k].id, seen);
    assert forall j :: 0 <= j < k ==> next[j] == some[j];
  }

  lemma NewIdsNext(ids: seq<Id>, id: Id, seen: set<Id>)
    ensures NewIds(ids + [id], seen) <==> NewIds(ids, seen) && id !in seen + Elements(ids)
  {
    DistinctConcat(ids, [id]);
    var all := ids + [id];
    assert all[|ids|] == id && forall i :: 0 <= i < |ids| ==> all[i] == ids[i];
    assert [id][0] == id;
  }

  lemma StrokesPrefix(strokes: seq<Stroke>, k: nat, seen: set<Id>, pointsBefore: nat)
    requires k <= |strokes| && ValidStrokes(strokes, seen, pointsBefore)
    ensures ValidStrokes(strokes[..k], seen, pointsBefore)
  {
    StrokePrefix(strokes, k);
    assert forall j :: 0 <= j < k ==> strokes[..k][j] == strokes[j];
    assert forall j :: 0 <= j < k ==> StrokeIds(strokes[..k])[j] == StrokeIds(strokes)[j];
  }

  /** Whether one stroke decides the strokes so far. */
  lemma StrokeStep(strokes: seq<Stroke>, k: nat, seen: set<Id>, pointsBefore: nat)
    requires k < |strokes| && ValidStrokes(strokes[..k], seen, pointsBefore)
    ensures var points := pointsBefore + StrokePoints(strokes[..k]) + Points(strokes[k].shape);
            var ids := seen + Elements(StrokeIds(strokes[..k]));
            var good := ValidStroke(strokes[k]) && strokes[k].id !in ids && points <= MAX_TOTAL_POINTS;
            (good ==> ValidStrokes(strokes[..k + 1], seen, pointsBefore))
            && (!good ==> !ValidStrokes(strokes, seen, pointsBefore))
            && points == pointsBefore + StrokePoints(strokes[..k + 1])
            && ids + {strokes[k].id} == seen + Elements(StrokeIds(strokes[..k + 1]))
  {
    StrokeNext(strokes, k, seen, pointsBefore);
    if ValidStrokes(strokes, seen, pointsBefore) { StrokesPrefix(strokes, k + 1, seen, pointsBefore); }
  }

  /** The inner loop, over one layer's strokes. */
  method CheckStrokes(strokes: seq<Stroke>, seen: set<Id>, pointsBefore: nat)
    returns (ok: bool, points: nat, next: set<Id>)
    requires pointsBefore <= MAX_TOTAL_POINTS
    ensures ok <==> ValidStrokes(strokes, seen, pointsBefore)
    ensures ok ==> points == pointsBefore + StrokePoints(strokes) && next == seen + Elements(StrokeIds(strokes))
  {
    points, next := pointsBefore, seen;
    var k := 0;
    while k < |strokes|
      invariant k <= |strokes| && ValidStrokes(strokes[..k], seen, pointsBefore)
      invariant points == pointsBefore + StrokePoints(strokes[..k]) && next == seen + Elements(StrokeIds(strokes[..k]))
    {
      StrokeStep(strokes, k, seen, pointsBefore);
      var good, n, ids := CheckStroke(strokes[k], next);
      if !good { return false, 0, next; }
      points, next := points + n, ids;
      if points > MAX_TOTAL_POINTS { return false, 0, next; }
      k := k + 1;
    }
    assert strokes[..k] == strokes;
    return true, points, next;
  }

  /** The layer loop: totals and ids add up across layers, and the loop stops at the first rule
      broken. */
  method CheckLayers(layers: seq<LayerValue>) returns (ok: bool)
    ensures ok <==> ValidLayers(layers)
  {
    var ids: set<Id> := {};
    var totalStrokes, totalPoints := 0, 0;
    var n := 0;
    while n < |layers|
      invariant n <= |layers| && ValidLayers(layers[..n]) && ids == Elements(IdsOf(layers[..n]))
      invariant totalStrokes == StrokeCount(layers[..n]) && totalPoints == PointCount(layers[..n])
    {
      var layer := layers[n];
      LayerNext(layers, n);
      if ValidLayers(layers) { LayersPrefix(layers, n + 1); }
      var good, next := CheckID(layer.id, ids);
      if !good { return false; }
      if |layer.name| < 1 || |layer.name| > MAX_NAME_LEN { return false; }
      if !Within(layer.opacity, 0.0, 1.0) { return false; }
      totalStrokes := totalStrokes + |layer.strokes|;
      if totalStrokes > MAX_STROKES { return false; }
      good, totalPoints, next := CheckStrokes(layer.strokes, next, totalPoints);
      if !good { return false; }
      ids := next;
      n := n + 1;
    }
    assert layers[..n] == layers;
    return true;
  }

  /** One more layer is accepted exactly when the loop body accepts it. */
  lemma LayerNext(layers: seq<LayerValue>, n: nat)
    requires n < |layers|
    ensures var l, seen := layers[n], Elements(IdsOf(layers[..n]));
            Elements(IdsOf(layers[..n + 1])) == seen + {l.id} + Elements(StrokeIds(l.strokes))
            && StrokeCount(layers[..n + 1]) == StrokeCount(layers[..n]) + |l.strokes|
            && PointCount(layers[..n + 1]) == PointCount(layers[..n]) + StrokePoints(l.strokes)
            && (ValidLayers(layers[..n + 1])
                <==> ValidLayers(layers[..n]) && ValidId(l.id) && l.id !in seen && ValidName(l.name)
                     && Within(l.opacity, 0.0, 1.0) && StrokeCount(layers[..n + 1]) <= MAX_STROKES
                     && ValidStrokes(l.strokes, seen + {l.id}, PointCount(layers[..n])))
  {
    var some, next := layers[..n], layers[..n + 1];
    assert next[..n] == some && next[n] == layers[n];
    IdsNext(layers, n);
    assert forall i :: 0 <= i < n ==> next[i] == some[i];
  }

  lemma IdsNext(layers: seq<LayerValue>, n: nat)
    requires n < |layers|
    ensures var l, seen := layers[n], Elements(IdsOf(layers[..n]));
            Elements(IdsOf(layers[..n + 1])) == seen + {l.id} + Elements(StrokeIds(l.strokes))
            && (Distinct(IdsOf(layers[..n + 1]))
                <==> Distinct(IdsOf(layers[..n])) && l.id !in seen && NewIds(StrokeIds(l.strokes), seen + {l.id}))
  {
    assert layers[..n + 1][..n] == layers[..n];
    var before, l := IdsOf(layers[..n]), layers[n];
    NewIdsNext(before, l.id, {});
    DistinctConcat(before + [l.id], StrokeIds(l.strokes));
    assert Elements(before + [l.id]) == Elements(before) + {l.id};
    assert IdsOf(layers[..n + 1]) == before + [l.id] + StrokeIds(l.strokes);
  }

  lemma LayersPrefix(layers: seq<LayerValue>, n: nat)
    requires n <= |layers| && ValidLayers(layers)
    ensures ValidLayers(layers[..n])
  {
    LayerPrefix(layers, n);
    DistinctPrefix(IdsOf(layers[..n]), IdsOf(layers));
  }

  /** The validator accepts exactly the documents that meet the rules. */
  method Validate(d: Document) returns (ok: bool)
    ensures ok <==> ValidDocument(d)
  {
    if d.version != 1 { return false; }
    if d.width < 1 || d.width > MAX_CANVAS || d.height < 1 || d.height > MAX_CANVAS { return false; }
    if d.background.Some? && !IsColor(d.background.value) { return false; }
    if |d.layers| < 1 { return false; }
    if |d.layers| > MAX_LAYERS { return false; }
    ok := CheckLayers(d.layers);
  }
}

/** What rounding does to a document besides keeping it acceptable
    (packages/editor/src/document/round.ts): it touches geometry only, and leaves it on the grid. */
module RoundedGeometry {
  import opened Wrappers
  import opened Drawing
  import opened Rounding

  // ---- nothing but geometry ----

  predicate SamePresence(a: Option<Num>, b: Option<Num>) {
    a.Some? <==> b.Some?
  }

  /** The same kind of shape with the same looks, and as many points. */
  predicate SameLooks(s: Shape, t: Shape) {
    match (s, t)
    case (Freehand(color, ps, brush), Freehand(color', qs, brush')) =>
      color == color' && brush == brush' && |ps| == |qs|
    case (Line(ps, color, _, cap, join), Line(qs, color', _, cap', join')) =>
      color == color' && cap == cap' && join == join' && |ps| == |qs|
    case (Polygon(ps, fill, stroke, w, join), Polygon(qs, fill', stroke', w', join')) =>
      fill == fill' && stroke == stroke' && join == join' && SamePresence(w, w') && |ps| == |qs|
    case (Rect(_, _, _, _, c, fill, stroke, w), Rect(_, _, _, _, c', fill', stroke', w')) =>
      fill == fill' && stroke == stroke' && SamePresence(c, c') && SamePresence(w, w')
    case (Ellipse(_, _, _, _, fill, stroke, w), Ellipse(_, _, _, _, fill', stroke', w')) =>
      fill == fill' && stroke == stroke' && SamePresence(w, w')
    case _ => false
  }

  predicate SameStrokes(xs: seq<Stroke>, ys: seq<Stroke>) {
    |xs| == |ys| && forall k :: 0 <= k < |xs| ==>
      xs[k].id == ys[k].id && xs[k].composite == ys[k].composite && SameLooks(xs[k].shape, ys[k].shape)
  }

  predicate SameButGeometry(d: Document, e: Document) {
    d.version == e.version && d.width == e.width && d.height == e.height && d.background == e.background
    && |d.layers| == |e.layers| && forall i :: 0 <= i < |d.layers| ==>
         var l, m := d.layers[i], e.layers[i];
         l.id == m.id && l.name == m.name && l.visible == m.visible && l.opacity == m.opacity
         && SameStrokes(l.strokes, m.strokes)
  }

  /** A rounded document is the same but for its geometry. */
  lemma RoundsGeometryOnly(d: Document)
    ensures SameButGeometry(d, RoundDocument(d))
  {
    forall i, k | 0 <= i < |d.layers| && 0 <= k < |d.layers[i].strokes|
      ensures SameLooks(d.layers[i].strokes[k].shape, RoundLayer(d.layers[i]).strokes[k].shape)
    {
      LooksStay(d.layers[i].strokes[k].shape);
    }
  }

  lemma LooksStay(s: Shape)
    ensures SameLooks(s, RoundShape(s))
  {
  }

  // ---- on the grid ----

  // a whole number of steps of 1/f
  predicate WholeSteps(x: real, f: real) {
    (x * f).Floor as real == x * f
  }

  predicate OnGrid(n: Num, f: real) {
    n.Finite? ==> WholeSteps(n.value, f)
  }

  // sizes that are not positive are left alone
  predicate SizeOnGrid(n: Num) {
    n.Finite? && n.value > 0.0 ==> OnGrid(n, COORD) && n.value >= 0.01
  }

  predicate SizeOptOnGrid(n: Option<Num>) {
    n.Some? ==> SizeOnGrid(n.value)
  }

  predicate ShapeOnGrid(s: Shape) {
    match s
    case Freehand(_, ps, _) =>
      forall i :: 0 <= i < |ps| ==>
        OnGrid(ps[i].x, COORD) && OnGrid(ps[i].y, COORD) && OnGrid(ps[i].pressure, PRESSURE)
    case Line(ps, _, w, _, _) => PointsOnGrid(ps) && SizeOnGrid(w)
    case Polygon(ps, _, _, w, _) => PointsOnGrid(ps) && SizeOptOnGrid(w)
    case Rect(x, y, w, h, c, _, _, lw) =>
      OnGrid(x, COORD) && OnGrid(y, COORD) && SizeOnGrid(w) && SizeOnGrid(h)
      && (c.Some? ==> OnGrid(c.value, COORD)) && SizeOptOnGrid(lw)
    case Ellipse(x, y, rx, ry, _, _, lw) =>
      OnGrid(x, COORD) && OnGrid(y, COORD) && SizeOnGrid(rx) && SizeOnGrid(ry) && SizeOptOnGrid(lw)
  }

  predicate PointsOnGrid(ps: seq<Point>) {
    forall i :: 0 <= i < |ps| ==> OnGrid(ps[i].x, COORD) && OnGrid(ps[i].y, COORD)
  }

  /** Every coordinate of a rounded document is a multiple of 0.01, every pressure one of 0.001, and
      every positive size a multiple of 0.01 that is not zero. */
  lemma RoundsToGrid(d: Document)
    ensures forall i, k :: 0 <= i < |d.layers| && 0 <= k < |d.layers[i].strokes| ==>
              ShapeOnGrid(RoundDocument(d).layers[i].strokes[k].shape)
  {
    forall i, k | 0 <= i < |d.layers| && 0 <= k < |d.layers[i].strokes|
      ensures ShapeOnGrid(RoundDocument(d).layers[i].strokes[k].shape)
    {
      ShapeRoundsToGrid(d.layers[i].strokes[k].shape);
    }
  }

  lemma NumRoundsToGrid(n: Num, f: real)
    requires f > 0.0
    ensures OnGrid(RoundNum(n, f), f)
  {
    if n.Finite? { ValueRoundsToGrid(n.value, f); }
  }

  lemma ValueRoundsToGrid(x: real, f: real)
    requires f > 0.0
    ensures WholeSteps(RoundTo(x, f), f)
  {
    var k := (x * f + 0.5).Floor;
    assert k as real / f * f == k as real;
    assert RoundTo(x, f) * f == k as real;
  }

  lemma SizeRoundsToGrid(n: Num)
    ensures SizeOnGrid(RoundSize(n))
  {
    NumRoundsToGrid(n, COORD);
    SmallestStep();
  }

  lemma SmallestStep()
    ensures OnGrid(Finite(0.01), COORD)
  {
    assert 0.01 * COORD == 1.0;
    assert (1.0).Floor == 1;
  }

  lemma OptRoundsToGrid(n: Option<Num>)
    ensures SizeOptOnGrid(RoundSizeOpt(n)) && (n.Some? ==> OnGrid(RoundOpt(n).value, COORD))
  {
    if n.Some? {
      SizeRoundsToGrid(n.value);
      NumRoundsToGrid(n.value, COORD);
    }
  }

  lemma PointsRoundToGrid(ps: seq<Point>)
    ensures PointsOnGrid(RoundPoints(ps))
  {
    forall i | 0 <= i < |ps| ensures OnGrid(RoundPoint(ps[i]).x, COORD) && OnGrid(RoundPoint(ps[i]).y, COORD) {
      NumRoundsToGrid(ps[i].x, COORD);
      NumRoundsToGrid(ps[i].y, COORD);
    }
  }

  lemma PenRoundsToGrid(p: FreehandPoint)
    ensures var q := RoundPen(p); OnGrid(q.x, COORD) && OnGrid(q.y, COORD) && OnGrid(q.pressure, PRESSURE)
  {
    NumRoundsToGrid(p.x, COORD);
    NumRoundsToGrid(p.y, COORD);
    NumRoundsToGrid(p.pressure, PRESSURE);
  }

  lemma ShapeRoundsToGrid(s: Shape)
    ensures ShapeOnGrid(RoundShape(s))
  {
    match s
    case Freehand(_, ps, _) =>
      forall i | 0 <= i < |ps|
        ensures var q := RoundPens(ps)[i]; OnGrid(q.x, COORD) && OnGrid(q.y, COORD) && OnGrid(q.pressure, PRESSURE)
      {
        PenRoundsToGrid(ps[i]);
      }
    case Line(ps, _, w, _, _) =>
      PointsRoundToGrid(ps);
      SizeRoundsToGrid(w);
    case Polygon(ps, _, _, w, _) =>
      PointsRoundToGrid(ps);
      OptRoundsToGrid(w);
    case Rect(x, y, w, h, c, _, _, lw) =>
      NumRoundsToGrid(x, COORD);
      NumRoundsToGrid(y, COORD);
      SizeRoundsToGrid(w);
      SizeRoundsToGrid(h);
      OptRoundsToGrid(c);
      OptRoundsToGrid(lw);
    case Ellipse(x, y, rx, ry, _, _, lw) =>
      NumRoundsToGrid(x, COORD);
      NumRoundsToGrid(y, COORD);
      SizeRoundsToGrid(rx);
      SizeRoundsToGrid(ry);
      OptRoundsToGrid(lw);
  }
}

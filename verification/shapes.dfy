/** `draw_triangle` and `draw_circle`: both draw only through `put`. */
module Shapes {
  import opened Grid
  import opened Line

  /** The cells of the three edges p0->p1, p1->p2, p2->p0, in drawing order. */
  function TriangleCells(w: int, h: int, x0: int, y0: int, x1: int, y1: int, x2: int, y2: int): seq<Pos>
    requires 0 < w && 0 < h
  {
    LineCells(w, h, x0, y0, x1, y1, false)
    + LineCells(w, h, x1, y1, x2, y2, false)
    + LineCells(w, h, x2, y2, x0, y0, false)
  }

  /** `draw_triangle`: three lines, each drawn on the grid the previous one
      left. */
  method DrawTriangle(b: Buffer, x0: int, y0: int, x1: int, y1: int, x2: int, y2: int, color: char)
    returns (r: Buffer)
    requires b.Drawable()
    ensures r == PutAll(b, TriangleCells(b.width, b.height, x0, y0, x1, y1, x2, y2), color)
  {
    var e0 := LineCells(b.width, b.height, x0, y0, x1, y1, false);
    var e1 := LineCells(b.width, b.height, x1, y1, x2, y2, false);
    var e2 := LineCells(b.width, b.height, x2, y2, x0, y0, false);
    r := DrawLine(b, x0, y0, x1, y1, color, false);
    r := DrawLine(r, x1, y1, x2, y2, color, false);
    PutAllAppend(b, e0, e1, color);
    r := DrawLine(r, x2, y2, x0, y0, color, false);
    PutAllAppend(b, e0 + e1, e2, color);
  }

  /** The triangle is the union of its edges: a cell ends as `color` exactly
      when one of the three lines reaches it, and keeps its value otherwise. */
  lemma TriangleIsUnionOfEdges(b: Buffer, x0: int, y0: int, x1: int, y1: int, x2: int, y2: int, color: char)
    requires b.Drawable()
    ensures var w, h := b.width, b.height;
            forall y, x | 0 <= y < h && 0 <= x < w ::
              At(PutAll(b, TriangleCells(w, h, x0, y0, x1, y1, x2, y2), color), x, y)
              == if Pos(x, y) in Footprint(b, LineCells(w, h, x0, y0, x1, y1, false))
                    || Pos(x, y) in Footprint(b, LineCells(w, h, x1, y1, x2, y2, false))
                    || Pos(x, y) in Footprint(b, LineCells(w, h, x2, y2, x0, y0, false))
                 then color else At(b, x, y)
  {
    var w, h := b.width, b.height;
    var e0 := LineCells(w, h, x0, y0, x1, y1, false);
    var e1 := LineCells(w, h, x1, y1, x2, y2, false);
    var e2 := LineCells(w, h, x2, y2, x0, y0, false);
    FootprintAppend(b, e0, e1);
    FootprintAppend(b, e0 + e1, e2);
    PutAllCells(b, e0 + e1 + e2, color);
  }

  /** The eight points `draw_circle` puts for the octant point `(x, y)`,
      in the source's order. */
  function EightWay(cx: int, cy: int, x: int, y: int): seq<Pos> {
    [ Pos(cx + x, cy + y), Pos(cx + x, cy - y), Pos(cx - x, cy + y), Pos(cx - x, cy - y),
      Pos(cx + y, cy + x), Pos(cx + y, cy - x), Pos(cx - y, cy + x), Pos(cx - y, cy - x) ]
  }

  /** The octant state after one iteration: `x` goes up, `y` goes down, or
      both, according to the sign of `delta` and of `2 * (delta + y) - 1`. */
  function CircleNext(x: int, y: int, delta: int): (n: (int, int, int))
    ensures x <= n.0 <= x + 1 && y - 1 <= n.1 <= y
    ensures n.0 > x || n.1 < y
  {
    var error := 2 * (delta + y) - 1;
    if delta < 0 && error <= 0 then (x + 1, y, delta + 2 * (x + 1) + 1)
    else if delta > 0 && error > 0 then (x, y - 1, delta - 2 * (y - 1) - 1)
    else (x + 1, y - 1, delta + 2 * ((x + 1) - (y - 1)))
  }

  /** The points `draw_circle` puts from octant state `(x, y, delta)` on,
      while `y >= x`. Every iteration raises `x` or lowers `y`, so `y - x`
      measures the iterations left. */
  function CircleFrom(cx: int, cy: int, x: int, y: int, delta: int): seq<Pos>
    decreases y - x
  {
    if y < x then []
    else
      var n := CircleNext(x, y, delta);
      EightWay(cx, cy, x, y) + CircleFrom(cx, cy, n.0, n.1, n.2)
  }

  /** `draw_circle(cx, cy, R, _)` on an integer centre and radius. */
  function CircleCells(cx: int, cy: int, R: int): seq<Pos> {
    CircleFrom(cx, cy, 0, R, 1 - 2 * R)
  }

  /** One iteration: the eight puts for `(x, y)`. */
  method PutEightWay(b: Buffer, cx: int, cy: int, x: int, y: int, color: char) returns (r: Buffer)
    requires b.Drawable()
    ensures r == PutAll(b, EightWay(cx, cy, x, y), color)
  {
    var pts := EightWay(cx, cy, x, y);
    r := b;
    for i := 0 to 8
      invariant r == PutAll(b, pts[..i], color)
    {
      PutAllPrefix(b, pts, i, color);
      r := Put(r, pts[i].x as real, pts[i].y as real, color);
    }
    assert pts[..8] == pts;
  }

  /** The update at the end of an iteration of `draw_circle`. */
  method CircleStep(x: int, y: int, delta: int) returns (x': int, y': int, delta': int)
    ensures (x', y', delta') == CircleNext(x, y, delta)
  {
    x', y', delta' := x, y, delta;
    var error := 2 * (delta' + y') - 1;
    if delta' < 0 && error <= 0 {
      x' := x' + 1;
      delta' := delta' + 2 * x' + 1;
      return;
    }
    if delta' > 0 && error > 0 {
      y' := y' - 1;
      delta' := delta' - 2 * y' - 1;
      return;
    }
    x' := x' + 1;
    y' := y' - 1;
    delta' := delta' + 2 * (x' - y');
  }

  /** The points still to come shrink by one orbit per iteration. */
  lemma CircleAdvance(cx: int, cy: int, x: int, y: int, delta: int, done: seq<Pos>)
    requires y >= x
    ensures var n := CircleNext(x, y, delta);
            done + CircleFrom(cx, cy, x, y, delta) == (done + EightWay(cx, cy, x, y)) + CircleFrom(cx, cy, n.0, n.1, n.2)
  {
    var n := CircleNext(x, y, delta);
    var rest := CircleFrom(cx, cy, n.0, n.1, n.2);
    assert CircleFrom(cx, cy, x, y, delta) == EightWay(cx, cy, x, y) + rest;
    assert done + (EightWay(cx, cy, x, y) + rest) == (done + EightWay(cx, cy, x, y)) + rest;
  }

  /** The eight puts of an iteration, after those of the earlier ones. */
  method PutOrbit(b: Buffer, r: Buffer, cx: int, cy: int, x: int, y: int, color: char, ghost done: seq<Pos>)
    returns (r': Buffer, ghost done': seq<Pos>)
    requires b.Drawable() && r == PutAll(b, done, color)
    ensures r' == PutAll(b, done + EightWay(cx, cy, x, y), color)
    ensures done' == done + EightWay(cx, cy, x, y) && r' == PutAll(b, done', color)
  {
    PutAllAppend(b, done, EightWay(cx, cy, x, y), color);
    r' := PutEightWay(r, cx, cy, x, y, color);
    done' := done + EightWay(cx, cy, x, y);
  }

  /** `draw_circle` on an integer centre and radius: the midpoint walk over
      one octant, mirrored eight ways. */
  method DrawCircle(b: Buffer, cx: int, cy: int, R: int, color: char) returns (r: Buffer)
    requires b.Drawable()
    ensures r == PutAll(b, CircleCells(cx, cy, R), color)
  {
    var x := 0;
    var y := R;
    var delta := 1 - 2 * R;
    ghost var done: seq<Pos> := [];
    r := b;
    while y >= x
      invariant CircleCells(cx, cy, R) == done + CircleFrom(cx, cy, x, y, delta)
      invariant r == PutAll(b, done, color)
      decreases y - x
    {
      CircleAdvance(cx, cy, x, y, delta, done);
      r, done := PutOrbit(b, r, cx, cy, x, y, color, done);
      x, y, delta := CircleStep(x, y, delta);
    }
    assert done + [] == done;
  }

  /** Reflections about the centre: mirror left-right, mirror top-bottom,
      and swap the axes. Together they generate all eight symmetries of
      the square. */
  function MirrorX(cx: int, p: Pos): Pos {
    Pos(2 * cx - p.x, p.y)
  }

  function MirrorY(cy: int, p: Pos): Pos {
    Pos(p.x, 2 * cy - p.y)
  }

  function SwapAxes(cx: int, cy: int, p: Pos): Pos {
    Pos(cx + (p.y - cy), cy + (p.x - cx))
  }

  /** A set of points closed under the three generating reflections. */
  ghost predicate Symmetric(cx: int, cy: int, s: set<Pos>) {
    forall p | p in s :: MirrorX(cx, p) in s && MirrorY(cy, p) in s && SwapAxes(cx, cy, p) in s
  }

  /** The points put are closed under the eight reflections about the
      centre: each iteration puts a whole orbit. */
  lemma {:induction false} CircleFromSymmetric(cx: int, cy: int, x: int, y: int, delta: int)
    ensures forall p | p in CircleFrom(cx, cy, x, y, delta) ::
              && MirrorX(cx, p) in CircleFrom(cx, cy, x, y, delta)
              && MirrorY(cy, p) in CircleFrom(cx, cy, x, y, delta)
              && SwapAxes(cx, cy, p) in CircleFrom(cx, cy, x, y, delta)
    decreases y - x
  {
    if y >= x {
      var n := CircleNext(x, y, delta);
      CircleFromSymmetric(cx, cy, n.0, n.1, n.2);
      var eight := EightWay(cx, cy, x, y);
      var rest := CircleFrom(cx, cy, n.0, n.1, n.2);
      assert CircleFrom(cx, cy, x, y, delta) == eight + rest;
      EightWaySymmetric(cx, cy, x, y);
    }
  }

  /** The eight points of one iteration form a whole orbit. */
  lemma EightWaySymmetric(cx: int, cy: int, x: int, y: int)
    ensures forall p | p in EightWay(cx, cy, x, y) ::
              && MirrorX(cx, p) in EightWay(cx, cy, x, y)
              && MirrorY(cy, p) in EightWay(cx, cy, x, y)
              && SwapAxes(cx, cy, p) in EightWay(cx, cy, x, y)
  {
    var e := EightWay(cx, cy, x, y);
    forall i | 0 <= i < 8
      ensures MirrorX(cx, e[i]) in e && MirrorY(cy, e[i]) in e && SwapAxes(cx, cy, e[i]) in e
    {
    }
  }

  /** Octant points stay within `0 <= x <= y <= y_start`. */
  lemma {:induction false} CircleFromBounds(cx: int, cy: int, x: int, y: int, delta: int, R: int)
    requires 0 <= x && y <= R
    ensures forall p | p in CircleFrom(cx, cy, x, y, delta) :: cx - R <= p.x <= cx + R && cy - R <= p.y <= cy + R
    decreases y - x
  {
    if y >= x {
      var n := CircleNext(x, y, delta);
      CircleFromBounds(cx, cy, n.0, n.1, n.2, R);
      assert CircleFrom(cx, cy, x, y, delta) == EightWay(cx, cy, x, y) + CircleFrom(cx, cy, n.0, n.1, n.2);
      forall p | p in EightWay(cx, cy, x, y)
        ensures cx - R <= p.x <= cx + R && cy - R <= p.y <= cy + R
      {
      }
    }
  }

  /** Squared distance of `p` from the centre `(cx, cy)`. */
  function Dist2(cx: int, cy: int, p: Pos): int {
    (p.x - cx) * (p.x - cx) + (p.y - cy) * (p.y - cy)
  }

  /** What the octant walk keeps: `x` and `y` within `[0, R]`, `delta` equal
      to `(x+1)^2 + y^2 - R^2 - 2R`, and, while the loop runs,
      `delta - 2x` within `[2 - 4R, 1]`. */
  predicate CircleInvariant(x: int, y: int, delta: int, R: int) {
    && 0 <= x && y <= R
    && delta == (x + 1) * (x + 1) + y * y - R * R - 2 * R
    && (y >= x ==> 2 * x + 2 - 4 * R <= delta <= 2 * x + 1)
  }

  lemma CircleInvariantStep(x: int, y: int, delta: int, R: int)
    requires R >= 1 && CircleInvariant(x, y, delta, R) && y >= x
    ensures var n := CircleNext(x, y, delta);
            CircleInvariant(n.0, n.1, n.2, R)
  {
    var error := 2 * (delta + y) - 1;
    assert (x + 2) * (x + 2) == (x + 1) * (x + 1) + 2 * x + 3;
    assert (y - 1) * (y - 1) == y * y - 2 * y + 1;
    if delta < 0 && error <= 0 {
      assert CircleNext(x, y, delta) == (x + 1, y, delta + 2 * x + 3);
    } else if delta > 0 && error > 0 {
      assert CircleNext(x, y, delta) == (x, y - 1, delta - 2 * y + 1);
      assert delta + y >= 1;
    } else {
      assert CircleNext(x, y, delta) == (x + 1, y - 1, delta + 2 * x - 2 * y + 4);
      assert y >= 1 ==> delta >= 1 - y && delta <= 2 * y - 1;
    }
  }

  /** Each of the eight points of an iteration lies at squared distance
      `x^2 + y^2` from the centre. */
  lemma EightWayDist(cx: int, cy: int, x: int, y: int)
    ensures forall p | p in EightWay(cx, cy, x, y) :: Dist2(cx, cy, p) == x * x + y * y
  {
    assert (-x) * (-x) == x * x && (-y) * (-y) == y * y;
  }

  lemma {:induction false} CircleFromNear(cx: int, cy: int, x: int, y: int, delta: int, R: int)
    requires R >= 1 && CircleInvariant(x, y, delta, R)
    ensures forall p | p in CircleFrom(cx, cy, x, y, delta) ::
              (R - 1) * (R - 1) <= Dist2(cx, cy, p) <= R * R + 2 * R
    decreases y - x
  {
    if y >= x {
      var n := CircleNext(x, y, delta);
      CircleInvariantStep(x, y, delta, R);
      CircleFromNear(cx, cy, n.0, n.1, n.2, R);
      EightWayDist(cx, cy, x, y);
      assert (x + 1) * (x + 1) == x * x + 2 * x + 1;
      assert (R - 1) * (R - 1) == R * R - 2 * R + 1;
      assert CircleFrom(cx, cy, x, y, delta) == EightWay(cx, cy, x, y) + CircleFrom(cx, cy, n.0, n.1, n.2);
    }
  }

  /** Every cell `draw_circle` puts for an integer radius `R >= 1` lies
      within one cell of the true circle: its squared distance from the
      centre is at least `(R-1)^2` and at most `R^2 + 2R`, below `(R+1)^2`. */
  lemma CircleNearRadius(cx: int, cy: int, R: int)
    requires R >= 1
    ensures forall p | p in CircleCells(cx, cy, R) ::
              (R - 1) * (R - 1) <= Dist2(cx, cy, p) < (R + 1) * (R + 1)
  {
    assert (R + 1) * (R + 1) == R * R + 2 * R + 1;
    CircleFromNear(cx, cy, 0, R, 1 - 2 * R, R);
  }

  /** For an integer centre and radius with the whole circle inside the
      grid, no put is clamped and the cells written are closed under the
      eight reflections about the centre. */
  lemma CircleSymmetric(b: Buffer, cx: int, cy: int, R: int)
    requires b.Drawable()
    requires 0 <= cx - R && cx + R < b.width && 0 <= cy - R && cy + R < b.height
    ensures Symmetric(cx, cy, Footprint(b, CircleCells(cx, cy, R)))
  {
    var pts := CircleCells(cx, cy, R);
    CircleFromSymmetric(cx, cy, 0, R, 1 - 2 * R);
    CircleFromBounds(cx, cy, 0, R, 1 - 2 * R, R);
    FootprintOfInBounds(b, pts);
  }

  /** When every point is inside the grid, the footprint is the set of
      points itself. */
  lemma FootprintOfInBounds(b: Buffer, pts: seq<Pos>)
    requires b.Drawable() && forall p | p in pts :: b.InBounds(p)
    ensures forall p :: p in Footprint(b, pts) <==> p in pts
  {
    FootprintMembers(b, pts);
    forall p | p in pts
      ensures p in Footprint(b, pts)
    {
      Reached(b, pts, p);
    }
    forall q | q in Footprint(b, pts)
      ensures q in pts
    {
      var i :| 0 <= i < |pts| && q == Target(b, pts[i].x as real, pts[i].y as real);
      Unclamped(b, pts[i]);
    }
  }

  /** An integer point inside the grid is put where it is. */
  lemma Unclamped(b: Buffer, p: Pos)
    requires b.Drawable() && b.InBounds(p)
    ensures Target(b, p.x as real, p.y as real) == p
  {
    RoundOfInteger(p.x);
    RoundOfInteger(p.y);
  }

  lemma Reached(b: Buffer, pts: seq<Pos>, q: Pos)
    requires b.Drawable() && q in pts && b.InBounds(q)
    ensures q in Footprint(b, pts)
  {
    FootprintMembers(b, pts);
    var i :| 0 <= i < |pts| && pts[i] == q;
    Unclamped(b, q);
  }

  /** With radius 0 the circle is the centre cell alone. */
  lemma ZeroRadius(b: Buffer, cx: int, cy: int, color: char)
    requires b.Drawable()
    ensures PutAll(b, CircleCells(cx, cy, 0), color) == Put(b, cx as real, cy as real, color)
  {
    var pts := CircleCells(cx, cy, 0);
    assert CircleNext(0, 0, 1) == (0, -1, 2);
    assert pts == EightWay(cx, cy, 0, 0) + [];
    assert forall p :: p in pts <==> p in [Pos(cx, cy)];
    FootprintOfSameElements(b, pts, [Pos(cx, cy)]);
    PutAllByFootprint(b, pts, [Pos(cx, cy)], color);
  }

  /** With a negative radius the loop does not run and nothing is put. */
  lemma NegativeRadius(b: Buffer, cx: int, cy: int, R: int, color: char)
    requires b.Drawable() && R < 0
    ensures PutAll(b, CircleCells(cx, cy, R), color) == b
  {
  }
}

/** The TRIANGLE_FAN vertex-list builders of the OpenGL scene: a fan is a
    centre followed by rim points, with one colour per point. */
module Fan {

  /** A point of the plane, `double` coordinates as exact reals. */
  datatype Point = Point(x: real, y: real)
  {
    function Plus(p: Point): Point {
      Point(x + p.x, y + p.y)
    }

    function Times(k: real): Point {
      Point(k * x, k * y)
    }
  }

  /** An RGBA colour. */
  datatype Color = Color(r: real, g: real, b: real, a: real)

  /** The pair of vertex and colour lists every `draw` returns. */
  datatype Fan = Fan(points: seq<Point>, colors: seq<Color>)
  {
    /** One colour per vertex. */
    predicate Paired() {
      |points| == |colors|
    }

    /** Every vertex has colour `c`. */
    predicate Uniform(c: Color) {
      Paired() && forall i | 0 <= i < |colors| :: colors[i] == c
    }
  }

  /** `draw_filled_rect(point, width, height, color)`: the centre, then the
      four corners anticlockwise from `point`, then `point` again to close
      the fan. */
  function FilledRect(p: Point, width: real, height: real, color: Color): (f: Fan)
    ensures |f.points| == 6 && f.Uniform(color)
    ensures f.points[1] == p && f.points[5] == p
    ensures f.points[2] == Point(p.x + width, p.y) && f.points[3] == Point(p.x + width, p.y + height)
    ensures f.points[4] == Point(p.x, p.y + height)
    ensures f.points[0].x == (f.points[1].x + f.points[3].x) / 2.0
    ensures f.points[0].y == (f.points[1].y + f.points[3].y) / 2.0
  {
    var center := Point(p.x + width / 2.0, p.y + height / 2.0);
    Fan([center, Point(p.x, p.y), Point(p.x + width, p.y), Point(p.x + width, p.y + height),
         Point(p.x, p.y + height), Point(p.x, p.y)],
        seq(6, _ => color))
  }

  /** The centre of a rectangle fan is the average of its four corners. */
  lemma RectCenterIsCornerAverage(p: Point, width: real, height: real, color: Color)
    ensures var f := FilledRect(p, width, height, color);
            && f.points[0].x == (f.points[1].x + f.points[2].x + f.points[3].x + f.points[4].x) / 4.0
            && f.points[0].y == (f.points[1].y + f.points[2].y + f.points[3].y + f.points[4].y) / 4.0
  {
  }

  /** The componentwise sum of a list of points. */
  function Sum(ps: seq<Point>): Point
    decreases |ps|
  {
    if |ps| == 0 then Point(0.0, 0.0) else Sum(ps[..|ps| - 1]).Plus(ps[|ps| - 1])
  }

  /** The average of a non-empty list of points. */
  function Centroid(ps: seq<Point>): Point
    requires |ps| > 0
  {
    Sum(ps).Times(1.0 / |ps| as real)
  }

  /** `draw_filled_poly(points, color)`: nothing for fewer than three
      points; otherwise the centroid, the points in order and the first
      point again to close the fan. */
  method FilledPoly(points: seq<Point>, color: Color) returns (f: Fan)
    ensures f.Uniform(color)
    ensures |points| < 3 ==> f == Fan([], [])
    ensures |points| >= 3 ==> && |f.points| == |points| + 2
                              && f.points[0] == Centroid(points)
                              && f.points[1..|points| + 1] == points
                              && f.points[|points| + 1] == points[0]
  {
    if |points| < 3 {
      return Fan([], []);
    }
    var cx, cy := 0.0, 0.0;
    for i := 0 to |points|
      invariant Point(cx, cy) == Sum(points[..i])
    {
      assert points[..i + 1][..i] == points[..i];
      cx := cx + points[i].x;
      cy := cy + points[i].y;
    }
    assert points[..|points|] == points;
    var n := |points| as real;
    var center := Point(cx / n, cy / n);
    f := Fan([center] + points + [points[0]], seq(|points| + 2, _ => color));
  }

  /** The centroid of translated points is the translated centroid, so
      moving a polygon moves its fan centre with it. */
  lemma {:induction false} SumTranslate(ps: seq<Point>, d: Point)
    ensures Sum(seq(|ps|, i requires 0 <= i < |ps| => ps[i].Plus(d))) == Sum(ps).Plus(d.Times(|ps| as real))
    decreases |ps|
  {
    var moved := seq(|ps|, i requires 0 <= i < |ps| => ps[i].Plus(d));
    if |ps| > 0 {
      var n := |ps| - 1;
      SumTranslate(ps[..n], d);
      assert moved[..n] == seq(n, i requires 0 <= i < n => ps[..n][i].Plus(d));
    }
  }

  lemma CentroidTranslate(ps: seq<Point>, d: Point)
    requires |ps| > 0
    ensures Centroid(seq(|ps|, i requires 0 <= i < |ps| => ps[i].Plus(d))) == Centroid(ps).Plus(d)
  {
    SumTranslate(ps, d);
    var n := |ps| as real;
    assert (n * d.x) * (1.0 / n) == d.x;
    assert (n * d.y) * (1.0 / n) == d.y;
  }

  /** `draw_filled_ellipse(center, radii, color, shapeness)`: the centre,
      then the rim points 0 to `shapeness` inclusive. A negative
      `shapeness` gives the centre alone. */
  function FilledEllipse(center: Point, radii: Point, color: Color, shapeness: int,
                         cos: real -> real, sin: real -> real): (f: Fan)
    requires shapeness != 0
    ensures f.Uniform(color) && |f.points| == (if shapeness < 0 then 1 else shapeness + 2)
    ensures f.points[0] == center
    ensures forall i | 1 <= i < |f.points| :: f.points[i] == Rim(center, radii, shapeness, cos, sin, i - 1)
  {
    var n := if shapeness < 0 then 0 else shapeness + 1;
    Fan([center] + seq(n, i => Rim(center, radii, shapeness, cos, sin, i)), seq(n + 1, _ => color))
  }

  /** `M_PI`. */
  const Pi: real := 3.14159265358979323846

  /** The angle of rim point `i`: `i * koef` with `koef = (2 * M_PI) / shapeness`. */
  function RimAngle(shapeness: int, i: int): real
    requires shapeness != 0
  {
    i as real * (2.0 * Pi / shapeness as real)
  }

  /** Rim point `i`; `cos` and `sin` are the C library's, passed in. */
  function Rim(center: Point, radii: Point, shapeness: int, cos: real -> real, sin: real -> real, i: int): Point
    requires shapeness != 0
  {
    var angle := RimAngle(shapeness, i);
    Point(center.x + cos(angle) * radii.x, center.y + sin(angle) * radii.y)
  }

  /** The last rim angle is exactly one full turn. */
  lemma FullTurn(shapeness: int)
    requires shapeness > 0
    ensures RimAngle(shapeness, shapeness) == 2.0 * Pi && RimAngle(shapeness, 0) == 0.0
  {
    var n := shapeness as real;
    assert n * (2.0 * Pi / n) == 2.0 * Pi;
  }

  /** The rim closes onto its first point whenever `cos` and `sin` agree at
      0 and at 2pi. */
  lemma EllipseRimCloses(center: Point, radii: Point, color: Color, shapeness: int,
                         cos: real -> real, sin: real -> real)
    requires shapeness > 0
    requires cos(2.0 * Pi) == cos(0.0) && sin(2.0 * Pi) == sin(0.0)
    ensures var f := FilledEllipse(center, radii, color, shapeness, cos, sin);
            f.points[|f.points| - 1] == f.points[1]
  {
    var f := FilledEllipse(center, radii, color, shapeness, cos, sin);
    var first, last := Rim(center, radii, shapeness, cos, sin, 0), Rim(center, radii, shapeness, cos, sin, shapeness);
    assert first == last by {
      FullTurn(shapeness);
      var a0, a1 := RimAngle(shapeness, 0), RimAngle(shapeness, shapeness);
      assert cos(a1) == cos(a0) && sin(a1) == sin(a0);
      assert first == Point(center.x + cos(a0) * radii.x, center.y + sin(a0) * radii.y);
      assert last == Point(center.x + cos(a1) * radii.x, center.y + sin(a1) * radii.y);
    }
    assert |f.points| == shapeness + 2;
    assert f.points[shapeness + 1] == last;
    assert f.points[1] == first;
  }
}

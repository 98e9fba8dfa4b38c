/** Properties of the cells `draw_line` puts: a closed form for the
    general pass, the short-axis step and error bounds, where the pass
    starts and ends, the special cases, and independence of the endpoint
    order. */
module LineProps {
  import opened Grid
  import opened Line

  /** The short-axis steps taken after `k` long-axis steps of a slope
      `rise / run`: the exact error `k * rise / run` minus the steps taken
      lies in (0, 1] once `k > 0`, which pins the count. */
  function Carries(k: nat, rise: nat, run: int): int
    requires 0 < run
  {
    if k == 0 then 0 else (k * rise - 1) / run
  }

  /** The error after `k` steps, scaled by `run`. */
  function ScaledErrorAt(k: nat, rise: nat, run: int): int
    requires 0 < run
  {
    k * rise - Carries(k, rise, run) * run
  }

  /** Euclidean division is pinned by its bounds. */
  lemma DivisionPinned(a: int, d: int, q: int)
    requires 0 < d && q * d <= a < q * d + d
    ensures a / d == q
  {
    var t := q - a / d;
    assert t * d == a % d - (a - q * d);
  }

  lemma DivShift(a: int, d: int, c: int)
    requires 0 < d
    ensures (a - c * d) / d == a / d - c
  {
    var q := a / d;
    assert a == q * d + a % d;
    assert (q - c) * d == q * d - c * d;
    DivisionPinned(a - c * d, d, q - c);
  }

  /** The error stays in [0, run] and is positive after the first step:
      the accumulator of the source stays in [0, 1]. */
  lemma {:induction false} ErrorBounds(k: nat, rise: nat, run: int)
    requires 0 < run && 0 < rise
    ensures 0 <= ScaledErrorAt(k, rise, run) <= run
    ensures k > 0 ==> 0 < ScaledErrorAt(k, rise, run)
  {
    if k > 0 {
      var a := k * rise - 1;
      assert a == (a / run) * run + a % run;
    }
  }

  /** The inner loop in closed form: from a positive error `e` it carries
      `(e - 1) / run` times. */
  lemma {:induction false} SettledClosed(v: int, e: int, diry: int, run: int)
    requires 0 < run && 0 < e
    ensures Settled(v, e, diry, run) == (v + diry * ((e - 1) / run), e - ((e - 1) / run) * run)
    decreases e
  {
    if e > run {
      SettledClosed(v + diry, e - run, diry, run);
      DivShift(e - 1, run, 1);
      var q := (e - 1) / run;
      assert (e - run - 1) / run == q - 1;
      assert diry + diry * (q - 1) == diry * q;
      assert (e - run) - (q - 1) * run == e - q * run;
    } else {
      DivisionPinned(e - 1, run, 0);
    }
  }

  /** The carries of step `j + 1` settle the error of step `j` plus `rise`. */
  lemma CarriesNext(j: nat, rise: nat, run: int)
    requires 0 < run && 0 < rise
    ensures (ScaledErrorAt(j, rise, run) + rise - 1) / run == Carries(j + 1, rise, run) - Carries(j, rise, run)
  {
    var c := Carries(j, rise, run);
    assert ScaledErrorAt(j, rise, run) + rise - 1 == ((j + 1) * rise - 1) - c * run by {
      assert (j + 1) * rise == j * rise + rise;
    }
    DivShift((j + 1) * rise - 1, run, c);
  }

  lemma ErrorNext(j: nat, rise: nat, run: int)
    requires 0 < run
    ensures ScaledErrorAt(j + 1, rise, run)
         == ScaledErrorAt(j, rise, run) + rise - (Carries(j + 1, rise, run) - Carries(j, rise, run)) * run
  {
    var c := Carries(j, rise, run);
    var c' := Carries(j + 1, rise, run);
    assert (j + 1) * rise == j * rise + rise;
    assert (c' - c) * run == c' * run - c * run;
  }

  /** The inner loop from a non-negative error plus `rise`, when it is
      known to carry `c' - c` times. */
  lemma SettleStep(v0: int, c: int, c': int, e: int, e': int, rise: nat, run: int, diry: int)
    requires 0 < run && 0 <= e && 0 < rise
    requires (e + rise - 1) / run == c' - c && e' == e + rise - (c' - c) * run
    ensures Settled(v0 + diry * c, e + rise, diry, run) == (v0 + diry * c', e')
  {
    SettledClosed(v0 + diry * c, e + rise, diry, run);
    assert diry * c + diry * (c' - c) == diry * c';
  }

  /** One long-axis step moves the state at step `j` to the state at step
      `j + 1`. */
  lemma CarryStep(j: nat, y0: int, rise: nat, run: int, diry: int)
    requires 0 < run && 0 < rise
    ensures Settled(y0 + diry * Carries(j, rise, run), ScaledErrorAt(j, rise, run) + rise, diry, run)
         == (y0 + diry * Carries(j + 1, rise, run), ScaledErrorAt(j + 1, rise, run))
  {
    ErrorBounds(j, rise, run);
    CarriesNext(j, rise, run);
    ErrorNext(j, rise, run);
    SettleStep(y0, Carries(j, rise, run), Carries(j + 1, rise, run),
               ScaledErrorAt(j, rise, run), ScaledErrorAt(j + 1, rise, run), rise, run, diry);
  }

  /** The pass from step `j` on, in closed form. */
  lemma {:induction false} PassFromAt(j: nat, x0: int, y0: int, x1: int, rise: nat, run: int, diry: int, flipped: bool)
    requires 0 < run && 0 < rise && x0 + j <= x1 + 1
    ensures var s := PassFrom(x0 + j, y0 + diry * Carries(j, rise, run), ScaledErrorAt(j, rise, run),
                              x1, rise, run, diry, flipped);
            && |s| == x1 + 1 - x0 - j
            && forall i | 0 <= i < |s| :: s[i] == Oriented(x0 + j + i, y0 + diry * Carries(j + i, rise, run), flipped)
    decreases x1 + 1 - x0 - j
  {
    if x0 + j <= x1 {
      CarryStep(j, y0, rise, run, diry);
      PassFromAt(j + 1, x0, y0, x1, rise, run, diry, flipped);
    }
  }

  /** The general pass in closed form: step `k` puts long-axis coordinate
      `x0 + k`, so each coordinate from `x0` to `x1` is put exactly once,
      with the short axis `Carries(k)` steps from `y0` in direction
      `diry`. */
  lemma PassShape(x0: int, y0: int, x1: int, y1: int, flipped: bool)
    requires x0 < x1 && y0 != y1
    ensures |Pass(x0, y0, x1, y1, flipped)| == x1 - x0 + 1
    ensures forall k | 0 <= k <= x1 - x0 ::
              Pass(x0, y0, x1, y1, flipped)[k]
              == Oriented(x0 + k, y0 + Sign(y1 - y0) * Carries(k, Abs(y1 - y0), x1 - x0), flipped)
  {
    PassFromAt(0, x0, y0, x1, Abs(y1 - y0), x1 - x0, Sign(y1 - y0), flipped);
  }

  lemma DivStep(a: int, s: int, d: int)
    requires 0 < d && 0 <= s <= d
    ensures a / d <= (a + s) / d <= a / d + 1
  {
    var q := a / d;
    assert a == q * d + a % d;
    if a % d + s < d {
      DivisionPinned(a + s, d, q);
    } else {
      DivisionPinned(a + s, d, q + 1);
    }
  }

  /** With a slope of at most 1 the short axis moves by 0 or 1 cell per
      long-axis step. */
  lemma ShortAxisStep(k: nat, rise: nat, run: int)
    requires 0 < rise <= run
    ensures 0 <= Carries(k + 1, rise, run) - Carries(k, rise, run) <= 1
  {
    if k == 0 {
      DivisionPinned(rise - 1, run, 0);
    } else {
      assert (k + 1) * rise - 1 == (k * rise - 1) + rise;
      DivStep(k * rise - 1, rise, run);
    }
  }

  /** The pass starts at `(x0, y0)` but ends one short of `y1` on the short
      axis: after `run` steps the exact error is exactly 1, which the
      strict `error > 1` test does not carry. In `float` the accumulated
      error can round above 1 instead, and then the far endpoint is put. */
  lemma PassEnds(x0: int, y0: int, x1: int, y1: int, flipped: bool)
    requires x0 < x1 && y0 != y1
    ensures |Pass(x0, y0, x1, y1, flipped)| == x1 - x0 + 1
    ensures Pass(x0, y0, x1, y1, flipped)[0] == Oriented(x0, y0, flipped)
    ensures Pass(x0, y0, x1, y1, flipped)[x1 - x0] == Oriented(x1, y1 - Sign(y1 - y0), flipped)
    ensures Oriented(x1, y1, flipped) !in Pass(x0, y0, x1, y1, flipped)
  {
    var run := x1 - x0;
    var rise := Abs(y1 - y0);
    var diry := Sign(y1 - y0);
    PassShape(x0, y0, x1, y1, flipped);
    DivisionPinned(run * rise - 1, run, rise - 1);
    assert diry * (rise - 1) == (y1 - y0) - diry;
    forall k | 0 <= k <= run
      ensures Pass(x0, y0, x1, y1, flipped)[k] != Oriented(x1, y1, flipped)
    {
      if k == run {
        assert y1 - diry != y1;
      }
    }
  }

  function Min(a: int, b: int): int {
    if a <= b then a else b
  }

  function Max(a: int, b: int): int {
    if a <= b then b else a
  }

  /** A non-empty span holds exactly the integers between its ends. */
  lemma SpanMembers(from: int, to: int, v: int)
    requires from != to
    ensures v in Span(from, to) <==> Min(from, to) <= v <= Max(from, to)
  {
    var s := Span(from, to);
    if Min(from, to) <= v <= Max(from, to) {
      var k := Abs(v - from);
      assert s[k] == v;
    }
  }

  lemma ColumnMembers(x: int, ys: seq<int>, p: Pos)
    ensures p in Column(x, ys) <==> p.x == x && p.y in ys
  {
    var s := Column(x, ys);
    if p.x == x && p.y in ys {
      var k :| 0 <= k < |ys| && ys[k] == p.y;
      assert s[k] == p;
    }
  }

  lemma RowMembers(y: int, xs: seq<int>, p: Pos)
    ensures p in Row(y, xs) <==> p.y == y && p.x in xs
  {
    var s := Row(y, xs);
    if p.y == y && p.x in xs {
      var k :| 0 <= k < |xs| && xs[k] == p.x;
      assert s[k] == p;
    }
  }

  /** A zero-length line puts no cell: the step `diry` is 0, so the loop
      guard fails at once. */
  lemma ZeroLengthLine(w: int, h: int, px: int, py: int)
    requires 0 < w && 0 < h
    ensures LineCells(w, h, px, py, px, py, false) == []
  {
  }

  /** A vertical line between cells of the grid puts exactly the inclusive
      run of rows between its ends, walked from the first to the second. */
  lemma VerticalLine(w: int, h: int, x: int, py: int, qy: int)
    requires 0 <= x < w && 0 <= py < h && 0 <= qy < h && py != qy
    ensures LineCells(w, h, x, py, x, qy, false) == Column(x, Span(py, qy))
    ensures forall p :: p in LineCells(w, h, x, py, x, qy, false) <==> p.x == x && Min(py, qy) <= p.y <= Max(py, qy)
  {
    forall p
      ensures p in Column(x, Span(py, qy)) <==> p.x == x && Min(py, qy) <= p.y <= Max(py, qy)
    {
      ColumnMembers(x, Span(py, qy), p);
      SpanMembers(py, qy, p.y);
    }
  }

  /** A horizontal line between cells of the grid puts exactly the
      inclusive run of columns between its ends, left to right. */
  lemma HorizontalLine(w: int, h: int, px: int, qx: int, y: int)
    requires 0 <= px < w && 0 <= qx < w && 0 <= y < h && px != qx
    ensures LineCells(w, h, px, y, qx, y, false) == Row(y, Span(Min(px, qx), Max(px, qx)))
    ensures forall p :: p in LineCells(w, h, px, y, qx, y, false) <==> p.y == y && Min(px, qx) <= p.x <= Max(px, qx)
  {
    forall p
      ensures p in Row(y, Span(Min(px, qx), Max(px, qx))) <==> p.y == y && Min(px, qx) <= p.x <= Max(px, qx)
    {
      RowMembers(y, Span(Min(px, qx), Max(px, qx)), p);
      SpanMembers(Min(px, qx), Max(px, qx), p.x);
    }
  }

  /** A line that is neither vertical nor horizontal after clamping. */
  predicate Slanted(s: Segment) {
    s.x0 != s.x1 && s.y0 != s.y1
  }

  /** A steep line recurses once, with the axes swapped and `flipped` set;
      on the swapped axes the slope is below 1, so the recursive call runs
      the general pass and recurses no further. */
  lemma SteepLine(w: int, h: int, px: int, py: int, qx: int, qy: int)
    requires 0 < w && 0 < h
    requires var s := Normalized(w, h, px, py, qx, qy, false);
             Slanted(s) && Abs(s.y1 - s.y0) > s.x1 - s.x0
    ensures var s := Normalized(w, h, px, py, qx, qy, false);
            var t := Normalized(w, h, s.y0, s.x0, s.y1, s.x1, true);
            && t.x0 < t.x1 && t.y0 != t.y1 && Abs(t.y1 - t.y0) < t.x1 - t.x0
            && LineCells(w, h, px, py, qx, qy, false) == Pass(t.x0, t.y0, t.x1, t.y1, true)
  {
  }

  /** A slanted line of slope at most 1 is the general pass on the clamped,
      ordered endpoints. */
  lemma GentleLine(w: int, h: int, px: int, py: int, qx: int, qy: int)
    requires 0 < w && 0 < h
    requires var s := Normalized(w, h, px, py, qx, qy, false);
             Slanted(s) && Abs(s.y1 - s.y0) <= s.x1 - s.x0
    ensures var s := Normalized(w, h, px, py, qx, qy, false);
            LineCells(w, h, px, py, qx, qy, false) == Pass(s.x0, s.y0, s.x1, s.y1, false)
  {
  }

  /** Drawing from A to B gives the same grid as drawing from B to A. Both
      orders reach the same ordered segment, except a vertical one, whose
      run is walked in opposite directions over the same cells. */
  lemma LineSymmetric(b: Buffer, px: int, py: int, qx: int, qy: int, c: char)
    requires b.Drawable()
    ensures PutAll(b, LineCells(b.width, b.height, px, py, qx, qy, false), c)
         == PutAll(b, LineCells(b.width, b.height, qx, qy, px, py, false), c)
  {
    var w, h := b.width, b.height;
    var s := Normalized(w, h, px, py, qx, qy, false);
    var s' := Normalized(w, h, qx, qy, px, py, false);
    if s.x0 == s.x1 {
      assert s' == Segment(s.x0, s.y1, s.x1, s.y0);
      var fwd := LineCells(w, h, px, py, qx, qy, false);
      var bwd := LineCells(w, h, qx, qy, px, py, false);
      if s.y0 != s.y1 {
        forall p
          ensures p in fwd <==> p in bwd
        {
          ColumnMembers(s.x0, Span(s.y0, s.y1), p);
          ColumnMembers(s.x0, Span(s.y1, s.y0), p);
          SpanMembers(s.y0, s.y1, p.y);
          SpanMembers(s.y1, s.y0, p.y);
        }
        FootprintOfSameElements(b, fwd, bwd);
        PutAllByFootprint(b, fwd, bwd, c);
      }
    } else {
      assert s == s';
    }
  }

  /** A diagonal from one corner of a 10 by 10 grid to the other: the pass
      puts one cell per column but stops at (9, 8), one row short of the
      corner it was asked to reach. */
  lemma DiagonalMissesCorner()
    ensures |LineCells(10, 10, 0, 0, 9, 9, false)| == 10
    ensures LineCells(10, 10, 0, 0, 9, 9, false)[1] == Pos(1, 0)
    ensures LineCells(10, 10, 0, 0, 9, 9, false)[9] == Pos(9, 8)
    ensures Pos(9, 9) !in LineCells(10, 10, 0, 0, 9, 9, false)
  {
    assert Normalized(10, 10, 0, 0, 9, 9, false) == Segment(0, 0, 9, 9);
    PassEnds(0, 0, 9, 9, false);
    PassShape(0, 0, 9, 9, false);
    assert Carries(1, 9, 9) == 0;
  }
}

/** `draw_line`: endpoint clamping, ordering, the vertical and horizontal
    runs, the steep-case axis swap, and the error-accumulating general pass.

    `LineCells` is an integer reference for the cells the source puts, in
    order; `DrawLine` follows the source's loops with an exact real-valued
    error accumulator and is proved to put exactly those cells. */
module Line {
  import opened Grid

  function Sign(d: int): int {
    if d > 0 then 1 else if d < 0 then -1 else 0
  }

  function Abs(d: int): nat {
    if d < 0 then -d else d
  }

  /** The values `for (v = from; v != to + dir; v += dir)` visits with
      `dir` the sign of `to - from`: the inclusive run from `from` to `to`,
      or nothing at all when they are equal (the step is then 0 and the
      guard fails at once). */
  function Span(from: int, to: int): (s: seq<int>)
    ensures from == to ==> s == []
    ensures from != to ==> |s| == Abs(to - from) + 1 && s[0] == from && s[|s| - 1] == to
    ensures forall k | 0 <= k < |s| :: s[k] == from + Sign(to - from) * k
  {
    if from == to then []
    else seq(Abs(to - from) + 1, k => from + Sign(to - from) * k)
  }

  /** The cells `(x, v)` for each `v` of `ys`. */
  function Column(x: int, ys: seq<int>): seq<Pos> {
    seq(|ys|, k requires 0 <= k < |ys| => Pos(x, ys[k]))
  }

  /** The cells `(u, y)` for each `u` of `xs`. */
  function Row(y: int, xs: seq<int>): seq<Pos> {
    seq(|xs|, k requires 0 <= k < |xs| => Pos(xs[k], y))
  }

  /** A pass plots `(u, v)`, or `(v, u)` when running on swapped axes. */
  function Oriented(u: int, v: int, flipped: bool): Pos {
    if flipped then Pos(v, u) else Pos(u, v)
  }

  /** The inner `while (error > 1)` loop on the error scaled by `run`: the
      short coordinate `v` moves by `diry` and `e` drops by `run` until
      `e <= run`. */
  function Settled(v: int, e: int, diry: int, run: int): (r: (int, int))
    requires 0 < run
    ensures r.1 <= run
    ensures e > 0 ==> r.1 > 0
    decreases e
  {
    if e > run then Settled(v + diry, e - run, diry, run) else (v, e)
  }

  /** The cells of the general pass from long-axis position `u` on, with
      the short coordinate at `v` and the error, scaled by `run`, at `e`:
      each step puts one cell, adds `rise` to the error and settles it. */
  function PassFrom(u: int, v: int, e: int, x1: int, rise: nat, run: int, diry: int, flipped: bool): seq<Pos>
    requires 0 < run
    decreases x1 + 1 - u
  {
    if u > x1 then []
    else
      var next := Settled(v, e + rise, diry, run);
      [Oriented(u, v, flipped)] + PassFrom(u + 1, next.0, next.1, x1, rise, run, diry, flipped)
  }

  /** The general pass from `(x0, y0)` to `(x1, y1)` with `x0 < x1`, on the
      exact slope `|y1 - y0| / (x1 - x0)`. */
  function Pass(x0: int, y0: int, x1: int, y1: int, flipped: bool): seq<Pos>
    requires x0 < x1 && y0 != y1
  {
    PassFrom(x0, y0, 0, x1, Abs(y1 - y0), x1 - x0, Sign(y1 - y0), flipped)
  }

  datatype Segment = Segment(x0: int, y0: int, x1: int, y1: int)

  /** The endpoints after the first steps of `draw_line`: clamped into the
      grid unless `flipped`, then swapped so that `x0 <= x1`. */
  function Normalized(w: int, h: int, px: int, py: int, qx: int, qy: int, flipped: bool): (s: Segment)
    requires 0 < w && 0 < h
    ensures s.x0 <= s.x1
    ensures !flipped ==> 0 <= s.x0 < w && 0 <= s.x1 < w && 0 <= s.y0 < h && 0 <= s.y1 < h
    ensures flipped && px <= qx ==> s == Segment(px, py, qx, qy)
    ensures flipped && px > qx ==> s == Segment(qx, qy, px, py)
    ensures !flipped ==>
              var p := (Clamp(px, 0, w - 1), Clamp(py, 0, h - 1));
              var q := (Clamp(qx, 0, w - 1), Clamp(qy, 0, h - 1));
              (p.0 <= q.0 ==> s == Segment(p.0, p.1, q.0, q.1)) && (p.0 > q.0 ==> s == Segment(q.0, q.1, p.0, p.1))
  {
    var cx0 := if flipped then px else Clamp(px, 0, w - 1);
    var cy0 := if flipped then py else Clamp(py, 0, h - 1);
    var cx1 := if flipped then qx else Clamp(qx, 0, w - 1);
    var cy1 := if flipped then qy else Clamp(qy, 0, h - 1);
    if cx0 > cx1 then Segment(cx1, cy1, cx0, cy0) else Segment(cx0, cy0, cx1, cy1)
  }

  /** The points `draw_line(px, py, qx, qy, _, flipped)` passes to `put`,
      in order, on a `w` by `h` grid. */
  function LineCells(w: int, h: int, px: int, py: int, qx: int, qy: int, flipped: bool): seq<Pos>
    requires 0 < w && 0 < h
    decreases if flipped then 0 else 1, 1
  {
    SegmentCells(w, h, Normalized(w, h, px, py, qx, qy, flipped), flipped)
  }

  /** The points put for a normalised segment: a vertical run, a
      horizontal run, the steep case redone on swapped axes, or the
      general pass. */
  function SegmentCells(w: int, h: int, s: Segment, flipped: bool): seq<Pos>
    requires 0 < w && 0 < h && s.x0 <= s.x1
    decreases if flipped then 0 else 1, 0
  {
    if s.x0 == s.x1 then Column(s.x0, Span(s.y0, s.y1))
    else if s.y0 == s.y1 then Row(s.y0, Span(s.x0, s.x1))
    else if !flipped && Abs(s.y1 - s.y0) > s.x1 - s.x0 then LineCells(w, h, s.y0, s.x0, s.y1, s.x1, true)
    else Pass(s.x0, s.y0, s.x1, s.y1, flipped)
  }

  /** The error accumulator, scaled by `run`, is the integer `e`. */
  predicate Scaled(error: real, run: int, e: int) {
    error * run as real == e as real
  }

  lemma SlopeFacts(dy: int, dx: int, steep: real, de: real)
    requires 0 < dx
    requires steep == dy as real / dx as real
    requires de == if steep < 0.0 then -steep else steep
    ensures Scaled(de, dx, Abs(dy))
    ensures de > 1.0 <==> Abs(dy) > dx
  {
  }

  /** `std::abs(dyf / dxf)`: the slope magnitude of the segment, as an
      exact real. It exceeds 1 exactly when `|dy| > dx`. */
  method SlopeMagnitude(dy: int, dx: int) returns (de: real)
    requires 0 < dx
    ensures Scaled(de, dx, Abs(dy))
    ensures de > 1.0 <==> Abs(dy) > dx
  {
    var dxf: real := dx as real;
    var dyf: real := dy as real;
    var steep := dyf / dxf;
    de := if steep < 0.0 then -steep else steep;
    SlopeFacts(dy, dx, steep, de);
  }

  lemma ScaledError(error: real, run: int, e: int)
    requires 0 < run && Scaled(error, run, e)
    ensures error > 1.0 <==> e > run
    ensures error > 0.0 <==> e > 0
    ensures error >= 0.0 <==> e >= 0
  {
    var r := run as real;
    SignOfProduct(error - 1.0, r);
    SignOfProduct(error, r);
  }

  lemma SignOfProduct(a: real, r: real)
    requires 0.0 < r
    ensures a > 0.0 <==> a * r > 0.0
    ensures a == 0.0 <==> a * r == 0.0
  {
    if a > 0.0 {
      assert a * r > 0.0;
    } else if a < 0.0 {
      assert (-a) * r > 0.0;
    }
  }

  lemma AddSlope(error: real, de: real, run: int, e: int, rise: int)
    requires Scaled(error, run, e) && Scaled(de, run, rise)
    ensures Scaled(error + de, run, e + rise)
  {
  }

  lemma TakeCarry(error: real, run: int, e: int)
    requires Scaled(error, run, e)
    ensures Scaled(error - 1.0, run, e - run)
  {
  }

  /** The loop of the vertical case: `put(x, v)` for each `v` of
      `Span(from, to)`. */
  method PutColumn(b: Buffer, x: int, from: int, to: int, color: char) returns (r: Buffer)
    requires b.Drawable()
    ensures r == PutAll(b, Column(x, Span(from, to)), color)
  {
    ghost var ys := Span(from, to);
    ghost var cells := Column(x, ys);
    var dir := Sign(to - from);
    r := b;
    var y := from;
    ghost var k := 0;
    while y != to + dir
      invariant 0 <= k <= |cells|
      invariant y == from + dir * k
      invariant r == PutAll(b, cells[..k], color)
      decreases |cells| - k
    {
      assert ys[k] == y;
      assert cells[k] == Pos(x, y);
      PutAllPrefix(b, cells, k, color);
      r := Put(r, x as real, y as real, color);
      y := y + dir;
      k := k + 1;
    }
    assert cells[..k] == cells;
  }

  /** The loop of the horizontal case: `put(u, y)` for `u` from `from` up
      to `to`. */
  method PutRow(b: Buffer, y: int, from: int, to: int, color: char) returns (r: Buffer)
    requires b.Drawable() && from < to
    ensures r == PutAll(b, Row(y, Span(from, to)), color)
  {
    ghost var cells := Row(y, Span(from, to));
    r := b;
    var x := from;
    ghost var k := 0;
    while x != to + 1
      invariant 0 <= k <= |cells|
      invariant x == from + k
      invariant r == PutAll(b, cells[..k], color)
      decreases |cells| - k
    {
      assert cells[k] == Pos(x, y);
      PutAllPrefix(b, cells, k, color);
      r := Put(r, x as real, y as real, color);
      x := x + 1;
      k := k + 1;
    }
    assert cells[..k] == cells;
  }

  /** The inner loop of a step: while the error exceeds 1, move `yf` by
      `diry` and take 1 off the error. It does on the float state what
      `Settled` does on the integer one. */
  method SettleError(error: real, yf: real, diry: int, ghost run: int, ghost e: int, ghost v: int)
    returns (error': real, yf': real, ghost e': int, ghost v': int)
    requires 0 < run && Scaled(error, run, e) && yf == v as real
    ensures yf' == Settled(v, e, diry, run).0 as real && Scaled(error', run, Settled(v, e, diry, run).1)
    ensures (v', e') == Settled(v, e, diry, run)
    ensures Scaled(error', run, e') && yf' == v' as real
  {
    error', yf', e', v' := error, yf, e, v;
    while error' > 1.0
      invariant Settled(v', e', diry, run) == Settled(v, e, diry, run)
      invariant Scaled(error', run, e') && yf' == v' as real
      decreases e'
    {
      ScaledError(error', run, e');
      TakeCarry(error', run, e');
      yf' := yf' + diry as real;
      error' := error' - 1.0;
      e' := e' - run;
      v' := v' + diry;
    }
    ScaledError(error', run, e');
  }

  /** One iteration of the general pass at long-axis position `x`: put the
      cell, add `de` to the error, settle it and round `yf` back into `y`.
      The cells still to come shrink by the one just put. */
  method PassStep(b: Buffer, r: Buffer, x: int, y: int, yf: real, error: real, de: real, diry: int,
                  color: char, flipped: bool,
                  ghost x1: int, ghost rise: nat, ghost run: int, ghost e: int, ghost done: seq<Pos>)
    returns (r': Buffer, y': int, yf': real, error': real, ghost e': int, ghost done': seq<Pos>)
    requires b.Drawable() && 0 < run && x <= x1 && Scaled(de, run, rise)
    requires r == PutAll(b, done, color)
    requires Scaled(error, run, e) && yf == y as real
    ensures r' == PutAll(b, done', color)
    ensures Scaled(error', run, e') && yf' == y' as real
    ensures done + PassFrom(x, y, e, x1, rise, run, diry, flipped)
         == done' + PassFrom(x + 1, y', e', x1, rise, run, diry, flipped)
  {
    ghost var cell := Oriented(x, y, flipped);
    PutAllSnoc(b, done, cell, color);
    if flipped {
      r' := Put(r, y as real, x as real, color);
    } else {
      r' := Put(r, x as real, y as real, color);
    }
    done' := done + [cell];
    AddSlope(error, de, run, e, rise);
    ghost var v;
    error', yf', e', v := SettleError(error + de, yf, diry, run, e + rise, y);
    RoundOfInteger(v);
    y' := Round(yf');
  }

  /** The general pass, with `de` the exact slope magnitude
      `|y1 - y0| / (x1 - x0)`: it puts the cells of `Pass`, in order. */
  method GeneralPass(b: Buffer, x0: int, y0: int, x1: int, y1: int, de: real, color: char, flipped: bool)
    returns (r: Buffer)
    requires b.Drawable() && x0 < x1 && y0 != y1
    requires Scaled(de, x1 - x0, Abs(y1 - y0))
    ensures r == PutAll(b, Pass(x0, y0, x1, y1, flipped), color)
  {
    ghost var run := x1 - x0;
    ghost var rise := Abs(y1 - y0);
    var diry := Sign(y1 - y0);
    var error: real := 0.0;
    var y := y0;
    var yf: real := y0 as real;
    r := b;
    ghost var done: seq<Pos> := [];
    ghost var e := 0;
    var x := x0;
    while x != x1 + 1
      invariant x0 <= x <= x1 + 1
      invariant Pass(x0, y0, x1, y1, flipped) == done + PassFrom(x, y, e, x1, rise, run, diry, flipped)
      invariant r == PutAll(b, done, color)
      invariant Scaled(error, run, e) && yf == y as real
      decreases x1 + 1 - x
    {
      r, y, yf, error, e, done := PassStep(b, r, x, y, yf, error, de, diry, color, flipped, x1, rise, run, e, done);
      x := x + 1;
    }
    assert done == done + [];
  }

  /** `draw_line(px, py, qx, qy, color, flipped)` on integer endpoints, with
      the slope and error accumulator as exact reals: it puts exactly the
      cells of `LineCells`, in order. */
  method DrawLine(b: Buffer, px: int, py: int, qx: int, qy: int, color: char, flipped: bool) returns (r: Buffer)
    requires b.Drawable()
    ensures r == PutAll(b, LineCells(b.width, b.height, px, py, qx, qy, flipped), color)
    decreases if flipped then 0 else 1, 1
  {
    var x0, y0, x1, y1 := px, py, qx, qy;
    if !flipped {
      x0 := Clamp(x0, 0, b.width - 1);
      x1 := Clamp(x1, 0, b.width - 1);
      y0 := Clamp(y0, 0, b.height - 1);
      y1 := Clamp(y1, 0, b.height - 1);
    }
    if x0 > x1 {
      x0, x1 := x1, x0;
      y0, y1 := y1, y0;
    }
    assert Segment(x0, y0, x1, y1) == Normalized(b.width, b.height, px, py, qx, qy, flipped);
    r := DrawSegment(b, x0, y0, x1, y1, color, flipped);
  }

  /** The rest of `draw_line` once the endpoints are normalised. */
  method DrawSegment(b: Buffer, x0: int, y0: int, x1: int, y1: int, color: char, flipped: bool) returns (r: Buffer)
    requires b.Drawable() && x0 <= x1
    ensures r == PutAll(b, SegmentCells(b.width, b.height, Segment(x0, y0, x1, y1), flipped), color)
    decreases if flipped then 0 else 1, 0
  {
    if x1 == x0 {
      r := PutColumn(b, x0, y0, y1, color);
      return;
    }
    if y1 == y0 {
      r := PutRow(b, y0, x0, x1, color);
      return;
    }
    var de := SlopeMagnitude(y1 - y0, x1 - x0);
    if !flipped && de > 1.0 {
      r := DrawLine(b, y0, x0, y1, x1, color, true);
      return;
    }
    r := GeneralPass(b, x0, y0, x1, y1, de, color, flipped);
  }
}

/** The character grid of the stream rasterizer: construction, `clear`,
    `at`, `put`, and the fold of `put` over a sequence of cells that every
    draw operation reduces to. */
module Grid {

  /** An integer grid coordinate: column `x`, row `y`. */
  datatype Pos = Pos(x: int, y: int)

  /** The rasterizer's state. `koef` is the character width-over-height
      ratio the second constructor divides by (1 for the first). */
  datatype Buffer = Buffer(width: int, height: int, koef: real, cells: seq<seq<char>>)
  {
    /** `height` rows of exactly `width` cells each. */
    predicate Valid() {
      && 0 <= width
      && 0 <= height
      && |cells| == height
      && forall y | 0 <= y < |cells| :: |cells[y]| == width
    }

    /** `put` clamps into `[0, width-1] x [0, height-1]`, which is only
        meaningful (and `at` only in range) for a non-empty grid. */
    predicate Drawable() {
      Valid() && 0 < width && 0 < height
    }

    predicate InBounds(p: Pos) {
      0 <= p.x < width && 0 <= p.y < height
    }
  }

  /** Two buffers with the same dimensions and ratio. */
  predicate SameShape(a: Buffer, b: Buffer) {
    a.width == b.width && a.height == b.height && a.koef == b.koef
  }

  /** What the constructors produce: a buffer, or the `std::length_error`
      that `std::string`/`std::vector` throw for a negative size. */
  datatype Construction = Built(buffer: Buffer) | LengthError

  /** `std::round`/`std::roundf`: nearest integer, halves away from zero. */
  function Round(v: real): (n: int)
    ensures -0.5 <= v - n as real <= 0.5
    ensures v - n as real == 0.5 ==> v < 0.0
    ensures v - n as real == -0.5 ==> v > 0.0
  {
    if v >= 0.0 then (v + 0.5).Floor else -((-v + 0.5).Floor)
  }

  lemma RoundOfInteger(n: int)
    ensures Round(n as real) == n
  {
  }

  /** `std::clamp(v, lo, hi)`, whose behaviour is undefined for `hi < lo`. */
  function Clamp(v: int, lo: int, hi: int): (r: int)
    requires lo <= hi
    ensures lo <= r <= hi
    ensures lo <= v <= hi ==> r == v
    ensures v < lo ==> r == lo
    ensures hi < v ==> r == hi
  {
    if v < lo then lo else if hi < v then hi else v
  }

  /** A grid of `height` rows of `width` copies of `c`. */
  function Filled(width: nat, height: nat, koef: real, c: char): (b: Buffer)
    ensures b.Valid() && b.width == width && b.height == height && b.koef == koef
    ensures forall y, x | 0 <= y < height && 0 <= x < width :: b.cells[y][x] == c
  {
    Buffer(width, height, koef, seq(height, _ => seq(width, _ => c)))
  }

  /** `StreamHandler(stream, width, height)`: no dimension check; a
      negative size makes the member initialisers throw. */
  function NewBuffer(width: int, height: int): (r: Construction)
    ensures r.Built? <==> 0 <= width && 0 <= height
    ensures r.Built? ==> r.buffer.Valid() && Size(r.buffer) == (width, height) && r.buffer.koef == 1.0
    ensures r.Built? ==> forall y, x | 0 <= y < height && 0 <= x < width :: At(r.buffer, x, y) == ' '
  {
    if width < 0 || height < 0 then LengthError
    else Built(Clear(Filled(width, height, 1.0, ' '), ' '))
  }

  /** `StreamHandler(stream, height, koef)`: the width is the rounded
      quotient `height / koef`. A zero ratio turns the quotient into an
      infinity or NaN whose conversion to `int` is undefined. */
  function NewBufferWithRatio(height: int, koef: real): (r: Construction)
    requires koef != 0.0
    ensures r.Built? <==> 0 <= height && 0 <= Round(height as real / koef)
    ensures r.Built? ==> r.buffer.Valid() && r.buffer.koef == koef
    ensures r.Built? ==> Size(r.buffer) == (Round(height as real / koef), height)
    ensures r.Built? ==> forall y, x | 0 <= y < r.buffer.height && 0 <= x < r.buffer.width :: At(r.buffer, x, y) == ' '
  {
    var width := Round(height as real / koef);
    if width < 0 || height < 0 then LengthError
    else Built(Clear(Filled(width, height, koef, ' '), ' '))
  }

  /** `size()`: the pair (width, height). */
  function Size(b: Buffer): (int, int) {
    (b.width, b.height)
  }

  /** `at(x, y)`: the cell in column `x` of row `y`, unchecked in the source. */
  function At(b: Buffer, x: int, y: int): char
    requires b.Valid() && 0 <= x < b.width && 0 <= y < b.height
  {
    b.cells[y][x]
  }

  /** `clear(c)`: every cell becomes `c`; the dimensions stay. */
  function Clear(b: Buffer, c: char): (r: Buffer)
    requires b.Valid()
    ensures r.Valid() && SameShape(r, b)
    ensures forall y, x | 0 <= y < r.height && 0 <= x < r.width :: At(r, x, y) == c
  {
    b.(cells := seq(b.height, _ => seq(b.width, _ => c)))
  }

  /** The cell `put(xf, yf, _)` writes: rounded, then clamped per axis. */
  function Target(b: Buffer, xf: real, yf: real): (p: Pos)
    requires b.Drawable()
    ensures b.InBounds(p)
    ensures b.InBounds(Pos(Round(xf), Round(yf))) ==> p == Pos(Round(xf), Round(yf))
    ensures Round(xf) < 0 ==> p.x == 0
    ensures Round(xf) >= b.width ==> p.x == b.width - 1
    ensures 0 <= Round(xf) < b.width ==> p.x == Round(xf)
    ensures Round(yf) < 0 ==> p.y == 0
    ensures Round(yf) >= b.height ==> p.y == b.height - 1
    ensures 0 <= Round(yf) < b.height ==> p.y == Round(yf)
  {
    Pos(Clamp(Round(xf), 0, b.width - 1), Clamp(Round(yf), 0, b.height - 1))
  }

  /** `put(xf, yf, c)`: exactly one cell, the target, becomes `c`. */
  function Put(b: Buffer, xf: real, yf: real, c: char): (r: Buffer)
    requires b.Drawable()
    ensures r.Drawable() && SameShape(r, b)
    ensures At(r, Target(b, xf, yf).x, Target(b, xf, yf).y) == c
    ensures forall y, x | 0 <= y < b.height && 0 <= x < b.width && Pos(x, y) != Target(b, xf, yf) ::
              At(r, x, y) == At(b, x, y)
  {
    var p := Target(b, xf, yf);
    b.(cells := b.cells[p.y := b.cells[p.y][p.x := c]])
  }

  /** The cells written by `put` at the integer points of `pts`. */
  function Footprint(b: Buffer, pts: seq<Pos>): (s: set<Pos>)
    requires b.Drawable()
    ensures forall p | p in s :: b.InBounds(p)
    decreases |pts|
  {
    if |pts| == 0 then {}
    else Footprint(b, pts[..|pts| - 1]) + {Target(b, pts[|pts| - 1].x as real, pts[|pts| - 1].y as real)}
  }

  /** `put(p.x, p.y, c)` for each `p` of `pts`, in order. */
  function PutAll(b: Buffer, pts: seq<Pos>, c: char): (r: Buffer)
    requires b.Drawable()
    ensures r.Drawable() && SameShape(r, b)
    decreases |pts|
  {
    if |pts| == 0 then b
    else
      var n := |pts| - 1;
      Put(PutAll(b, pts[..n], c), pts[n].x as real, pts[n].y as real, c)
  }

  lemma PutAllSnoc(b: Buffer, pts: seq<Pos>, p: Pos, c: char)
    requires b.Drawable()
    ensures PutAll(b, pts + [p], c) == Put(PutAll(b, pts, c), p.x as real, p.y as real, c)
  {
    assert (pts + [p])[..|pts|] == pts;
  }

  /** The puts of a prefix one longer are those of the prefix and one more. */
  lemma PutAllPrefix(b: Buffer, pts: seq<Pos>, k: nat, c: char)
    requires b.Drawable() && k < |pts|
    ensures PutAll(b, pts[..k + 1], c) == Put(PutAll(b, pts[..k], c), pts[k].x as real, pts[k].y as real, c)
  {
    assert pts[..k + 1][..k] == pts[..k];
  }

  /** Drawing through `put` alone: a cell ends as `c` exactly when some
      point of `pts` lands on it, and every other cell keeps its value. */
  lemma {:induction false} PutAllCells(b: Buffer, pts: seq<Pos>, c: char)
    requires b.Drawable()
    ensures forall y, x | 0 <= y < b.height && 0 <= x < b.width ::
              At(PutAll(b, pts, c), x, y) == if Pos(x, y) in Footprint(b, pts) then c else At(b, x, y)
    decreases |pts|
  {
    if |pts| > 0 {
      PutAllCells(b, pts[..|pts| - 1], c);
    }
  }

  /** Each point of `pts` lands, after clamping, in the footprint, and
      nothing else does. */
  lemma {:induction false} FootprintMembers(b: Buffer, pts: seq<Pos>)
    requires b.Drawable()
    ensures forall i | 0 <= i < |pts| :: Target(b, pts[i].x as real, pts[i].y as real) in Footprint(b, pts)
    ensures forall q | q in Footprint(b, pts) :: exists i | 0 <= i < |pts| :: q == Target(b, pts[i].x as real, pts[i].y as real)
    decreases |pts|
  {
    if |pts| > 0 {
      var n := |pts| - 1;
      FootprintMembers(b, pts[..n]);
      assert forall i | 0 <= i < n :: pts[..n][i] == pts[i];
    }
  }

  /** A buffer is determined by its shape and its cells. */
  lemma Extensionality(a: Buffer, b: Buffer)
    requires a.Valid() && b.Valid() && SameShape(a, b)
    requires forall y, x | 0 <= y < a.height && 0 <= x < a.width :: At(a, x, y) == At(b, x, y)
    ensures a == b
  {
    forall y | 0 <= y < a.height
      ensures a.cells[y] == b.cells[y]
    {
      forall x | 0 <= x < a.width
        ensures a.cells[y][x] == b.cells[y][x]
      {
        assert At(a, x, y) == At(b, x, y);
      }
    }
  }

  /** `clear` discards everything drawn before it: the frame is the same
      whatever was put into the buffer. */
  lemma ClearDiscardsPuts(b: Buffer, pts: seq<Pos>, c: char, fill: char)
    requires b.Drawable()
    ensures Clear(PutAll(b, pts, c), fill) == Clear(b, fill)
  {
    Extensionality(Clear(PutAll(b, pts, c), fill), Clear(b, fill));
  }

  /** Only the set of cells reached matters, not the order or repetition
      of the puts. */
  lemma PutAllByFootprint(b: Buffer, s: seq<Pos>, t: seq<Pos>, c: char)
    requires b.Drawable()
    requires Footprint(b, s) == Footprint(b, t)
    ensures PutAll(b, s, c) == PutAll(b, t, c)
  {
    PutAllCells(b, s, c);
    PutAllCells(b, t, c);
    Extensionality(PutAll(b, s, c), PutAll(b, t, c));
  }

  /** The footprint depends only on which points occur, not on their order
      or repetition. */
  lemma FootprintOfSameElements(b: Buffer, s: seq<Pos>, t: seq<Pos>)
    requires b.Drawable()
    requires forall p :: p in s <==> p in t
    ensures Footprint(b, s) == Footprint(b, t)
  {
    FootprintMembers(b, s);
    FootprintMembers(b, t);
    forall q | q in Footprint(b, s)
      ensures q in Footprint(b, t)
    {
      var i :| 0 <= i < |s| && q == Target(b, s[i].x as real, s[i].y as real);
      assert s[i] in t;
      var j :| 0 <= j < |t| && t[j] == s[i];
    }
    forall q | q in Footprint(b, t)
      ensures q in Footprint(b, s)
    {
      var j :| 0 <= j < |t| && q == Target(b, t[j].x as real, t[j].y as real);
      assert t[j] in s;
      var i :| 0 <= i < |s| && s[i] == t[j];
    }
  }

  /** The footprint depends on the buffer only through its dimensions. */
  lemma {:induction false} FootprintShape(a: Buffer, b: Buffer, pts: seq<Pos>)
    requires a.Drawable() && b.Drawable() && a.width == b.width && a.height == b.height
    ensures Footprint(a, pts) == Footprint(b, pts)
    decreases |pts|
  {
    if |pts| > 0 {
      FootprintShape(a, b, pts[..|pts| - 1]);
    }
  }

  lemma {:induction false} FootprintAppend(b: Buffer, s: seq<Pos>, t: seq<Pos>)
    requires b.Drawable()
    ensures Footprint(b, s + t) == Footprint(b, s) + Footprint(b, t)
    decreases |t|
  {
    if |t| > 0 {
      var n := |t| - 1;
      assert (s + t)[..|s + t| - 1] == s + t[..n];
      FootprintAppend(b, s, t[..n]);
    } else {
      assert s + t == s;
    }
  }

  /** Putting `s` and then `t` is putting `s + t`. */
  lemma PutAllAppend(b: Buffer, s: seq<Pos>, t: seq<Pos>, c: char)
    requires b.Drawable()
    ensures PutAll(PutAll(b, s, c), t, c) == PutAll(b, s + t, c)
  {
    var mid := PutAll(b, s, c);
    FootprintAppend(b, s, t);
    FootprintShape(mid, b, t);
    PutAllCells(b, s, c);
    PutAllCells(mid, t, c);
    PutAllCells(b, s + t, c);
    Extensionality(PutAll(mid, t, c), PutAll(b, s + t, c));
  }
}

/** `flush` and `flush_ansi` as pure text builders: the text the stream
    receives, rows top to bottom, each terminated by a line break. */
module Flush {
  import opened Grid

  /** The bytes `"\x1b[3"` that `flush_ansi` writes first: ESC, '[', '3'.
      The C++ hex escape stops at '[', so this is three characters. */
  const AnsiPrefix: string := ['\U{1B}', '[', '3']

  datatype Option<T> = None | Some(value: T)

  /** Each row followed by the '\n' that `std::endl` writes. */
  function Lines(rows: seq<string>): string
  {
    if |rows| == 0 then "" else rows[0] + "\n" + Lines(rows[1..])
  }

  /** Reads back rows of width `w` from a text of '\n'-terminated lines;
      `None` when the text is not a whole number of such lines. */
  function SplitLines(s: string, w: nat): Option<seq<string>>
    decreases |s|
  {
    if |s| == 0 then Some([])
    else if |s| < w + 1 || s[w] != '\n' then None
    else match SplitLines(s[w + 1..], w)
      case None => None
      case Some(rest) => Some([s[..w]] + rest)
  }

  /** `flush()`: the grid as text. */
  function Render(b: Buffer): (s: string)
    requires b.Valid()
    ensures |s| == b.height * (b.width + 1)
    ensures SplitLines(s, b.width) == Some(b.cells)
  {
    LinesLength(b.cells, b.width);
    LinesRoundTrip(b.cells, b.width);
    Lines(b.cells)
  }

  /** `flush_ansi()`: the three-character prefix, then exactly the text
      `flush()` would write. */
  function RenderAnsi(b: Buffer): (s: string)
    requires b.Valid()
    ensures |s| == |AnsiPrefix| + b.height * (b.width + 1)
    ensures s[..|AnsiPrefix|] == AnsiPrefix && s[|AnsiPrefix|..] == Render(b)
  {
    AnsiPrefix + Render(b)
  }

  lemma {:induction false} LinesLength(rows: seq<string>, w: nat)
    requires forall i | 0 <= i < |rows| :: |rows[i]| == w
    ensures |Lines(rows)| == |rows| * (w + 1)
    decreases |rows|
  {
    if |rows| > 0 {
      LinesLength(rows[1..], w);
      calc {
        |Lines(rows)|;
        w + 1 + |Lines(rows[1..])|;
        w + 1 + (|rows| - 1) * (w + 1);
        { assert (|rows| - 1) * (w + 1) == |rows| * (w + 1) - (w + 1); }
        |rows| * (w + 1);
      }
    }
  }

  /** Reading the rendered text back yields the rows: each row is written
      whole and followed by exactly one line break. */
  lemma {:induction false} LinesRoundTrip(rows: seq<string>, w: nat)
    requires forall i | 0 <= i < |rows| :: |rows[i]| == w
    ensures SplitLines(Lines(rows), w) == Some(rows)
    decreases |rows|
  {
    if |rows| > 0 {
      var s := Lines(rows);
      assert s == rows[0] + "\n" + Lines(rows[1..]);
      assert s[w] == '\n';
      assert s[..w] == rows[0];
      assert s[w + 1..] == Lines(rows[1..]);
      LinesRoundTrip(rows[1..], w);
      assert [rows[0]] + rows[1..] == rows;
    }
  }

  /** Row `y` of the text holds row `y` of the grid, cell by cell, and ends
      in a line break. */
  lemma {:induction false} RenderCell(b: Buffer, x: int, y: int)
    requires b.Valid() && 0 <= x < b.width && 0 <= y < b.height
    ensures y * (b.width + 1) + b.width < |Render(b)|
    ensures Render(b)[y * (b.width + 1) + x] == At(b, x, y)
    ensures Render(b)[y * (b.width + 1) + b.width] == '\n'
  {
    LinesCell(b.cells, b.width, x, y);
  }

  lemma {:induction false} LinesCell(rows: seq<string>, w: nat, x: int, y: int)
    requires forall i | 0 <= i < |rows| :: |rows[i]| == w
    requires 0 <= x < w && 0 <= y < |rows|
    ensures y * (w + 1) + w < |Lines(rows)|
    ensures Lines(rows)[y * (w + 1) + x] == rows[y][x]
    ensures Lines(rows)[y * (w + 1) + w] == '\n'
    decreases y
  {
    LinesLength(rows, w);
    assert y * (w + 1) + w < |rows| * (w + 1) by {
      assert (y + 1) * (w + 1) <= |rows| * (w + 1);
    }
    var s := Lines(rows);
    assert s == rows[0] + "\n" + Lines(rows[1..]);
    if y > 0 {
      LinesCell(rows[1..], w, x, y - 1);
      assert (y - 1) * (w + 1) + (w + 1) == y * (w + 1);
    }
  }
}

/** The scene logic of the OpenGL program: the drawing context's
    coordinate transforms, the two animations' phase updates, and the
    stage's update filtering and vertex-list concatenation. */
module Scene {
  import opened Fan

  /** Maps unit coordinates to window coordinates: `lefttop` plus the
      point scaled componentwise by `size`. */
  datatype DrawingContext = DrawingContext(lefttop: Point, size: Point)

  /** `transform(Point)`. */
  function Transform(c: DrawingContext, p: Point): Point {
    Point(c.lefttop.x + p.x * c.size.x, c.lefttop.y + p.y * c.size.y)
  }

  /** `scale(Point)`. */
  function Scale(c: DrawingContext, p: Point): Point {
    Point(p.x * c.size.x, p.y * c.size.y)
  }

  /** `transform_x(k)`. */
  function TransformX(c: DrawingContext, k: real): real {
    c.size.x * k
  }

  /** `transform_y(k)`. */
  function TransformY(c: DrawingContext, k: real): real {
    c.size.y * k
  }

  /** `transform` is `scale` followed by the shift to `lefttop`, and `scale`
      is `transform_x` and `transform_y` side by side; the unit square maps
      onto the window from `lefttop` to `lefttop + size`. */
  lemma TransformIsShiftedScale(c: DrawingContext, p: Point)
    ensures Transform(c, p) == c.lefttop.Plus(Scale(c, p))
    ensures Scale(c, p) == Point(TransformX(c, p.x), TransformY(c, p.y))
    ensures Transform(c, Point(0.0, 0.0)) == c.lefttop
    ensures Transform(c, Point(1.0, 1.0)) == c.lefttop.Plus(c.size)
  {
  }

  /** Moving a point by `d` moves its image by `scale(d)`. */
  lemma TransformTranslates(c: DrawingContext, p: Point, d: Point)
    ensures Transform(c, p.Plus(d)) == Transform(c, p).Plus(Scale(c, d))
  {
    var lt, sz := c.lefttop, c.size;
    assert (p.x + d.x) * sz.x == p.x * sz.x + d.x * sz.x;
    assert (p.y + d.y) * sz.y == p.y * sz.y + d.y * sz.y;
    var q := p.Plus(d);
    assert q == Point(p.x + d.x, p.y + d.y);
    var t, u := Transform(c, p), Scale(c, d);
    assert Transform(c, q) == Point(lt.x + q.x * sz.x, lt.y + q.y * sz.y);
    assert t.Plus(u) == Point(t.x + u.x, t.y + u.y);
    assert lt.x + q.x * sz.x == t.x + u.x;
    assert lt.y + q.y * sz.y == t.y + u.y;
  }

  /** `transform(double k)` as written: `min(size.x, size.y)*k` with the
      macro `min(a, b)` defined as `(a) > (b) ? (b) : (a)` expands to
      `size.x > size.y ? size.y : size.x * k`, so the factor `k` applies
      only on the second branch. */
  function TransformLength(c: DrawingContext, k: real): (r: real)
    ensures c.size.x > c.size.y ==> r == c.size.y
    ensures c.size.x <= c.size.y ==> r == c.size.x * k
  {
    if c.size.x > c.size.y then c.size.y else c.size.x * k
  }

  function Min(a: real, b: real): real {
    if a > b then b else a
  }

  /** `transform(double k)` as evidently intended: the smaller side of the
      window times `k`. */
  function TransformLengthIntended(c: DrawingContext, k: real): (r: real)
    ensures r == if c.size.x <= c.size.y then TransformX(c, k) else TransformY(c, k)
  {
    Min(c.size.x, c.size.y) * k
  }

  /** The intended length is linear in `k`. */
  lemma IntendedIsLinear(c: DrawingContext, k1: real, k2: real, a: real)
    ensures TransformLengthIntended(c, k1 + k2) == TransformLengthIntended(c, k1) + TransformLengthIntended(c, k2)
    ensures TransformLengthIntended(c, a * k1) == a * TransformLengthIntended(c, k1)
  {
    var m := Min(c.size.x, c.size.y);
    assert TransformLengthIntended(c, k1 + k2) == m * (k1 + k2) == m * k1 + m * k2;
    assert TransformLengthIntended(c, a * k1) == m * (a * k1) == a * (m * k1);
  }

  /** The macro result agrees with the intended one exactly when the window
      is not wider than tall, or when scaling the height by `k` leaves it
      unchanged. */
  lemma MacroAgreement(c: DrawingContext, k: real)
    ensures TransformLength(c, k) == TransformLengthIntended(c, k)
            <==> c.size.x <= c.size.y || c.size.y * k == c.size.y
  {
    if c.size.x > c.size.y {
      assert TransformLength(c, k) == c.size.y;
      assert TransformLengthIntended(c, k) == c.size.y * k;
    } else {
      assert TransformLength(c, k) == c.size.x * k == TransformLengthIntended(c, k);
    }
  }

  /** On the program's 1200 by 700 window, a rotation radius of 0.1 becomes
      700 pixels instead of 70. */
  lemma MacroCounterexample()
    ensures var c := DrawingContext(Point(0.0, 0.0), Point(1200.0, 700.0));
            TransformLength(c, 0.1) == 700.0 && TransformLengthIntended(c, 0.1) == 70.0
  {
  }

  /** The state of `ColorChangingAnimation`: the blend phase, its direction
      of travel and its speed. */
  datatype ColorPhase = ColorPhase(offset: real, dir: real, speed: real)

  /** `ColorChangingAnimation::update`: advance the phase by
      `dt * speed * dir`, then bounce off 1 and off 0. It always keeps the
      object. */
  function ColorUpdate(a: ColorPhase, dt: real): (r: (ColorPhase, bool))
    ensures r.1
    ensures 0.0 <= r.0.offset <= 1.0 && r.0.speed == a.speed
    ensures r.0.dir != a.dir ==> r.0.offset == 1.0 || r.0.offset == 0.0
    ensures (a.dir == 1.0 || a.dir == -1.0) ==> (r.0.dir == 1.0 || r.0.dir == -1.0)
    ensures 0.0 < a.offset + dt * a.speed * a.dir < 1.0 ==> r.0 == a.(offset := a.offset + dt * a.speed * a.dir)
    ensures a.offset + dt * a.speed * a.dir >= 1.0 ==> r.0 == a.(offset := 1.0, dir := -1.0)
    ensures a.offset + dt * a.speed * a.dir <= 0.0 ==> r.0 == a.(offset := 0.0, dir := 1.0)
  {
    var moved := a.offset + dt * a.speed * a.dir;
    if moved >= 1.0 then (a.(offset := 1.0, dir := -1.0), true)
    else if moved <= 0.0 then (a.(offset := 0.0, dir := 1.0), true)
    else (a.(offset := moved), true)
  }

  /** The phase after a run of frames with time steps `dts`. */
  function ColorRun(a: ColorPhase, dts: seq<real>): ColorPhase
    decreases |dts|
  {
    if |dts| == 0 then a else ColorRun(ColorUpdate(a, dts[0]).0, dts[1..])
  }

  /** Over any run of frames the blend phase stays in [0, 1] and the
      direction stays a unit step, so the blended colour never leaves the
      segment between the two colours. */
  lemma {:induction false} ColorRunInRange(a: ColorPhase, dts: seq<real>)
    requires 0.0 <= a.offset <= 1.0 && (a.dir == 1.0 || a.dir == -1.0)
    ensures var r := ColorRun(a, dts);
            0.0 <= r.offset <= 1.0 && (r.dir == 1.0 || r.dir == -1.0) && r.speed == a.speed
    decreases |dts|
  {
    if |dts| > 0 {
      ColorRunInRange(ColorUpdate(a, dts[0]).0, dts[1..]);
    }
  }

  const TwoPi: real := 2.0 * Pi

  /** `RotatingAnimation::update`: advance the angle by `dt * speed`, then
      take off whole turns while it exceeds 2pi. Only the upper side is
      wrapped: a negative speed drives the angle down without bound. It
      always keeps the object. */
  method RotateUpdate(offset: real, dt: real, speed: real) returns (offset': real, keep: bool, ghost turns: nat)
    ensures keep
    ensures offset' <= TwoPi
    ensures offset' == offset + dt * speed - turns as real * TwoPi
    ensures offset + dt * speed <= TwoPi ==> turns == 0
    ensures offset + dt * speed > TwoPi ==> 0.0 < offset'
  {
    offset' := offset + dt * speed;
    turns := 0;
    while offset' > TwoPi
      invariant offset' == offset + dt * speed - turns as real * TwoPi
      invariant offset + dt * speed > TwoPi ==> 0.0 < offset'
      invariant offset + dt * speed <= TwoPi ==> turns == 0
      decreases offset'.Floor
    {
      offset' := offset' - TwoPi;
      turns := turns + 1;
    }
    keep := true;
  }

  /** The ids, in order, of the objects whose `update` returned false. */
  function Failed<T>(objs: seq<T>, results: seq<bool>): (r: seq<T>)
    requires |objs| == |results|
    ensures multiset(r) <= multiset(objs)
    ensures forall x | x in r :: x in objs
    decreases |objs|
  {
    if |objs| == 0 then []
    else
      var n := |objs| - 1;
      var rest := Failed(objs[..n], results[..n]);
      assert objs == objs[..n] + [objs[n]];
      if results[n] then rest else rest + [objs[n]]
  }

  /** The position `std::find_if` reports for `x`: the first index holding it. */
  function FirstIndex<T(==)>(s: seq<T>, x: T): (i: nat)
    requires x in s
    ensures i < |s| && s[i] == x && x !in s[..i]
    decreases |s|
  {
    if s[0] == x then 0
    else
      assert x in s[1..];
      var j := FirstIndex(s[1..], x);
      assert s[..j + 1] == [s[0]] + s[1..][..j];
      j + 1
  }

  /** `std::find_if` for `x` followed by `erase`: the first occurrence of
      `x` is removed, if there is one, and the rest keep their order. */
  function RemoveFirst<T(==)>(s: seq<T>, x: T): (r: seq<T>)
    ensures x in s ==> r == s[..FirstIndex(s, x)] + s[FirstIndex(s, x) + 1..]
    ensures x in s ==> multiset(r) == multiset(s) - multiset{x}
    ensures x !in s ==> r == s
  {
    var r := RemoveFirstAt(s, x);
    assert x in s ==> multiset(r) == multiset(s) - multiset{x} by {
      if x in s {
        RemoveAtMultiset(s, FirstIndex(s, x));
      }
    }
    r
  }

  /** The scan behind `RemoveFirst`: keep the elements before the first
      `x`, drop that one, keep the rest. */
  function RemoveFirstAt<T(==)>(s: seq<T>, x: T): (r: seq<T>)
    ensures x in s ==> r == s[..FirstIndex(s, x)] + s[FirstIndex(s, x) + 1..]
    ensures x !in s ==> r == s
    decreases |s|
  {
    if |s| == 0 then []
    else if s[0] == x then s[1..]
    else
      var t := RemoveFirstAt(s[1..], x);
      assert x in s ==> x in s[1..];
      assert x in s ==> [s[0]] + t == s[..FirstIndex(s, x)] + s[FirstIndex(s, x) + 1..] by {
        if x in s {
          var j := FirstIndex(s[1..], x);
          assert FirstIndex(s, x) == j + 1;
          assert s[..j + 1] == [s[0]] + s[1..][..j];
          assert s[j + 2..] == s[1..][j + 1..];
        }
      }
      assert x !in s ==> [s[0]] + t == s by {
        assert s == [s[0]] + s[1..];
      }
      [s[0]] + t
  }

  lemma RemoveAtMultiset<T>(s: seq<T>, i: nat)
    requires i < |s|
    ensures multiset(s[..i] + s[i + 1..]) == multiset(s) - multiset{s[i]}
  {
    assert s == s[..i] + [s[i]] + s[i + 1..];
  }

  /** The first loop of `Stage::update`: the objects whose `update`
      returned false, in list order. */
  method CollectFailed<T>(updaties: seq<T>, results: seq<bool>) returns (toRemove: seq<T>)
    requires |updaties| == |results|
    ensures toRemove == Failed(updaties, results)
  {
    toRemove := [];
    for i := 0 to |updaties|
      invariant toRemove == Failed(updaties[..i], results[..i])
    {
      assert updaties[..i + 1][..i] == updaties[..i] && results[..i + 1][..i] == results[..i];
      if !results[i] {
        toRemove := toRemove + [updaties[i]];
      }
    }
    assert updaties[..|updaties|] == updaties && results[..|results|] == results;
  }

  /** The second loop of `Stage::update`: erase one occurrence of each
      listed object. Every listed object is present, so each erase finds
      its target. */
  method EraseEach<T(==)>(s: seq<T>, toRemove: seq<T>) returns (kept: seq<T>)
    requires multiset(toRemove) <= multiset(s)
    ensures multiset(kept) == multiset(s) - multiset(toRemove)
    ensures kept == EraseAll(s, toRemove)
  {
    kept := s;
    for j := 0 to |toRemove|
      invariant EraseAll(kept, toRemove[j..]) == EraseAll(s, toRemove)
    {
      assert toRemove[j..][1..] == toRemove[j + 1..];
      kept := RemoveFirst(kept, toRemove[j]);
    }
    EraseAllMultiset(s, toRemove);
  }

  /** Erasing listed objects that are all present removes exactly their
      occurrences. */
  lemma {:induction false} EraseAllMultiset<T>(s: seq<T>, toRemove: seq<T>)
    requires multiset(toRemove) <= multiset(s)
    ensures multiset(EraseAll(s, toRemove)) == multiset(s) - multiset(toRemove)
    decreases |toRemove|
  {
    if |toRemove| > 0 {
      var x := toRemove[0];
      assert toRemove == [x] + toRemove[1..];
      assert x in multiset(s);
      EraseAllMultiset(RemoveFirst(s, x), toRemove[1..]);
    }
  }

  /** `Stage::update`, given the result of each object's own `update` in
      list order: collect the objects that returned false, erase each of
      them once, and report true. */
  method StageUpdate<T(==)>(updaties: seq<T>, results: seq<bool>) returns (kept: seq<T>, ok: bool)
    requires |updaties| == |results|
    ensures ok
    ensures multiset(kept) == multiset(updaties) - multiset(Failed(updaties, results))
    ensures Distinct(updaties) ==> kept == Survivors(updaties, results)
  {
    var toRemove := CollectFailed(updaties, results);
    kept := EraseEach(updaties, toRemove);
    if Distinct(updaties) {
      EraseAllDistinct(updaties, toRemove);
      FailedWithoutSurvivors(updaties, results);
    }
    ok := true;
  }

  /** The objects whose `update` returned true, in list order. */
  function Survivors<T>(objs: seq<T>, results: seq<bool>): seq<T>
    requires |objs| == |results|
    decreases |objs|
  {
    if |objs| == 0 then []
    else
      var n := |objs| - 1;
      Survivors(objs[..n], results[..n]) + (if results[n] then [objs[n]] else [])
  }

  predicate Distinct<T(==)>(s: seq<T>) {
    forall i, j | 0 <= i < j < |s| :: s[i] != s[j]
  }

  /** The elements of `s` outside `r`, in order. */
  function Without<T(==)>(s: seq<T>, r: set<T>): seq<T>
    decreases |s|
  {
    if |s| == 0 then []
    else
      var n := |s| - 1;
      Without(s[..n], r) + (if s[n] in r then [] else [s[n]])
  }

  /** The erase loop applied to the list: each listed object removed once,
      in the order listed. */
  function EraseAll<T(==)>(s: seq<T>, toRemove: seq<T>): seq<T>
    decreases |toRemove|
  {
    if |toRemove| == 0 then s else EraseAll(RemoveFirst(s, toRemove[0]), toRemove[1..])
  }

  lemma {:induction false} WithoutAppend<T>(a: seq<T>, b: seq<T>, r: set<T>)
    ensures Without(a + b, r) == Without(a, r) + Without(b, r)
    decreases |b|
  {
    if |b| == 0 {
      assert a + b == a;
    } else {
      var n := |b| - 1;
      var ab := a + b;
      assert ab[..|ab| - 1] == a + b[..n];
      assert ab[|ab| - 1] == b[n];
      WithoutAppend(a, b[..n], r);
      var last := if b[n] in r then [] else [b[n]];
      calc {
        Without(ab, r);
        Without(a + b[..n], r) + last;
        Without(a, r) + Without(b[..n], r) + last;
        Without(a, r) + (Without(b[..n], r) + last);
      }
    }
  }

  /** Only the members of `r` that occur in `s` matter. */
  lemma {:induction false} WithoutOnlyPresent<T>(s: seq<T>, r: set<T>, r': set<T>)
    requires forall y | y in s :: (y in r <==> y in r')
    ensures Without(s, r) == Without(s, r')
    decreases |s|
  {
    if |s| > 0 {
      WithoutOnlyPresent(s[..|s| - 1], r, r');
    }
  }

  lemma {:induction false} WithoutDistinct<T>(s: seq<T>, r: set<T>)
    requires Distinct(s)
    ensures Distinct(Without(s, r))
    decreases |s|
  {
    if |s| > 0 {
      var n := |s| - 1;
      var w := Without(s[..n], r);
      WithoutDistinct(s[..n], r);
      WithoutWithin(s[..n], r, s[n]);
      assert s[n] !in s[..n];
      assert s[n] !in w;
    }
  }

  lemma {:induction false} WithoutWithin<T>(s: seq<T>, r: set<T>, y: T)
    ensures y in Without(s, r) ==> y in s && y !in r
    decreases |s|
  {
    if |s| > 0 {
      var n := |s| - 1;
      WithoutWithin(s[..n], r, y);
      assert s == s[..n] + [s[n]];
    }
  }

  /** In a list with at most one `x`, erasing the first `x` removes every
      `x`. */
  lemma {:induction false} RemoveFirstDistinct<T>(s: seq<T>, x: T)
    requires multiset(s)[x] <= 1
    ensures RemoveFirst(s, x) == Without(s, {x})
    decreases |s|
  {
    if |s| > 0 {
      var t := s[1..];
      assert [s[0]] + t == s;
      assert multiset(s) == multiset{s[0]} + multiset(t);
      WithoutAppend([s[0]], t, {x});
      assert Without([s[0]], {x}) == if s[0] == x then [] else [s[0]];
      if s[0] == x {
        assert x !in t;
        WithoutOnlyPresent(t, {x}, {});
        WithoutNothing(t);
      } else {
        RemoveFirstDistinct(t, x);
      }
    }
  }

  lemma {:induction false} DistinctCount<T>(s: seq<T>, x: T)
    requires Distinct(s)
    ensures multiset(s)[x] <= 1
    decreases |s|
  {
    if |s| > 0 {
      var n := |s| - 1;
      assert s == s[..n] + [s[n]];
      assert Distinct(s[..n]);
      DistinctCount(s[..n], x);
      assert s[n] !in s[..n];
    }
  }

  lemma {:induction false} WithoutNothing<T>(s: seq<T>)
    ensures Without(s, {}) == s
    decreases |s|
  {
    if |s| > 0 {
      WithoutNothing(s[..|s| - 1]);
      assert s[..|s| - 1] + [s[|s| - 1]] == s;
    }
  }

  lemma {:induction false} WithoutTwice<T>(s: seq<T>, r: set<T>, r': set<T>)
    ensures Without(Without(s, r), r') == Without(s, r + r')
    decreases |s|
  {
    if |s| > 0 {
      var n := |s| - 1;
      WithoutTwice(s[..n], r, r');
      WithoutAppend(Without(s[..n], r), if s[n] in r then [] else [s[n]], r');
      if s[n] !in r {
        assert Without([s[n]], r') == Without([], r') + (if s[n] in r' then [] else [s[n]]);
      }
    }
  }

  /** In a list without repeats, the erase loop removes exactly the listed
      objects and keeps the others in their order. */
  lemma {:induction false} EraseAllDistinct<T>(s: seq<T>, toRemove: seq<T>)
    requires Distinct(s)
    ensures EraseAll(s, toRemove) == Without(s, set y | y in toRemove)
    decreases |toRemove|
  {
    if |toRemove| == 0 {
      WithoutOnlyPresent(s, set y | y in toRemove, {});
      WithoutNothing(s);
    } else {
      var x, rest := toRemove[0], toRemove[1..];
      WithoutDistinct(s, {x});
      EraseAllDistinct(Without(s, {x}), rest);
      EraseAllStep(s, toRemove);
    }
  }

  lemma EraseAllStep<T>(s: seq<T>, toRemove: seq<T>)
    requires Distinct(s) && |toRemove| > 0
    requires var x, rest := toRemove[0], toRemove[1..];
             EraseAll(Without(s, {x}), rest) == Without(Without(s, {x}), set y | y in rest)
    ensures EraseAll(s, toRemove) == Without(s, set y | y in toRemove)
  {
    var x, rest := toRemove[0], toRemove[1..];
    DistinctCount(s, x);
    RemoveFirstDistinct(s, x);
    WithoutTwice(s, {x}, set y | y in rest);
    assert {x} + (set y | y in rest) == set y | y in toRemove by {
      assert toRemove == [x] + rest;
    }
  }

  /** Erasing the failed objects from a list without repeats leaves exactly
      the objects whose `update` returned true. */
  lemma {:induction false} FailedWithoutSurvivors<T>(objs: seq<T>, results: seq<bool>)
    requires |objs| == |results| && Distinct(objs)
    ensures Without(objs, set y | y in Failed(objs, results)) == Survivors(objs, results)
    decreases |objs|
  {
    if |objs| > 0 {
      var n := |objs| - 1;
      var f, f' := Failed(objs, results), Failed(objs[..n], results[..n]);
      FailedWithoutSurvivors(objs[..n], results[..n]);
      assert objs[n] !in objs[..n];
      assert forall y | y in f' :: y in objs[..n];
      WithoutOnlyPresent(objs[..n], set y | y in f, set y | y in f');
      assert objs[n] in f <==> !results[n];
    }
  }

  /** The vertex and colour lists of all drawables, concatenated in list
      order. */
  function Flatten(outs: seq<Fan>): Fan
    decreases |outs|
  {
    if |outs| == 0 then Fan([], [])
    else
      var n := |outs| - 1;
      var f := Flatten(outs[..n]);
      Fan(f.points + outs[n].points, f.colors + outs[n].colors)
  }

  /** The vertex count of each drawable, in list order. */
  function Sizes(outs: seq<Fan>): seq<nat> {
    seq(|outs|, i requires 0 <= i < |outs| => |outs[i].points|)
  }

  function Total(counts: seq<nat>): nat
    decreases |counts|
  {
    if |counts| == 0 then 0 else Total(counts[..|counts| - 1]) + counts[|counts| - 1]
  }

  /** `Stage::draw`, given what each drawable's own `draw` returned: append
      each vertex count to the global count list and concatenate the
      vertex and colour lists. When every drawable pairs one colour with
      each vertex, so does the result. */
  method StageDraw(outs: seq<Fan>, counts0: seq<nat>) returns (r: Fan, counts: seq<nat>)
    ensures r == Flatten(outs) && counts == counts0 + Sizes(outs)
    ensures |r.points| == Total(Sizes(outs))
    ensures (forall i | 0 <= i < |outs| :: outs[i].Paired()) ==> r.Paired()
  {
    r := Fan([], []);
    counts := counts0;
    for i := 0 to |outs|
      invariant r == Flatten(outs[..i]) && counts == counts0 + Sizes(outs[..i])
    {
      assert outs[..i + 1][..i] == outs[..i];
      counts := counts + [|outs[i].points|];
      r := Fan(r.points + outs[i].points, r.colors + outs[i].colors);
    }
    assert outs[..|outs|] == outs;
    FlattenLength(outs);
  }

  /** The draw-call loop of `draw()`: nothing is drawn when either list is
      empty; otherwise one triangle fan per count, each starting where the
      previous one ended. */
  method DrawCalls(points: seq<Point>, colors: seq<Color>, counts: seq<nat>) returns (calls: seq<(nat, nat)>)
    ensures |points| == 0 || |colors| == 0 ==> calls == []
    ensures |points| > 0 && |colors| > 0 ==>
              |calls| == |counts| && forall i | 0 <= i < |counts| :: calls[i] == (Total(counts[..i]), counts[i])
  {
    calls := [];
    if |points| > 0 && |colors| > 0 {
      var offset := 0;
      for i := 0 to |counts|
        invariant |calls| == i && offset == Total(counts[..i])
        invariant forall j | 0 <= j < i :: calls[j] == (Total(counts[..j]), counts[j])
      {
        assert counts[..i + 1][..i] == counts[..i];
        calls := calls + [(offset, counts[i])];
        offset := offset + counts[i];
      }
    }
  }

  lemma {:induction false} FlattenLength(outs: seq<Fan>)
    ensures |Flatten(outs).points| == Total(Sizes(outs))
    ensures (forall i | 0 <= i < |outs| :: outs[i].Paired()) ==> Flatten(outs).Paired()
    decreases |outs|
  {
    if |outs| > 0 {
      var n := |outs| - 1;
      FlattenLength(outs[..n]);
      assert Sizes(outs)[..n] == Sizes(outs[..n]);
    }
  }

  lemma {:induction false} FlattenPrefix(outs: seq<Fan>, k: nat)
    requires k <= |outs|
    ensures var f, g := Flatten(outs), Flatten(outs[..k]);
            |g.points| <= |f.points| && f.points[..|g.points|] == g.points
            && |g.colors| <= |f.colors| && f.colors[..|g.colors|] == g.colors
    decreases |outs|
  {
    if k < |outs| {
      var n := |outs| - 1;
      FlattenPrefix(outs[..n], k);
      assert outs[..n][..k] == outs[..k];
    } else {
      assert outs[..k] == outs;
    }
  }

  /** The draw calls of a frame partition the concatenated vertex list:
      call `i` covers exactly the vertices drawable `i` returned, the
      first call starts at 0 and the last ends at the end of the list.
      When every drawable pairs a colour with each vertex, the same range
      covers its colours. */
  lemma {:induction false} DrawRangesPartition(outs: seq<Fan>, i: nat)
    requires i < |outs|
    ensures var f, c := Flatten(outs), Sizes(outs);
            Total(c[..i]) + c[i] == Total(c[..i + 1]) <= |f.points|
            && f.points[Total(c[..i])..Total(c[..i + 1])] == outs[i].points
            && Total(c) == |f.points| && Total(c[..0]) == 0
    ensures (forall j | 0 <= j < |outs| :: outs[j].Paired()) ==>
            var f, c := Flatten(outs), Sizes(outs);
            Total(c[..i + 1]) <= |f.colors| && f.colors[Total(c[..i])..Total(c[..i + 1])] == outs[i].colors
  {
    var f, c := Flatten(outs), Sizes(outs);
    var g, h := Flatten(outs[..i]), Flatten(outs[..i + 1]);
    assert outs[..i + 1][..i] == outs[..i];
    assert c[..i + 1][..i] == c[..i];
    FlattenPrefix(outs, i + 1);
    FlattenLength(outs);
    FlattenLength(outs[..i]);
    FlattenLength(outs[..i + 1]);
    assert Sizes(outs[..i]) == c[..i] && Sizes(outs[..i + 1]) == c[..i + 1];
    assert f.points[|g.points|..|h.points|] == h.points[|g.points|..] == outs[i].points;
    if forall j | 0 <= j < |outs| :: outs[j].Paired() {
      var p1, p0 := outs[..i + 1], outs[..i];
      assert forall j | 0 <= j < |p1| :: p1[j].Paired();
      assert forall j | 0 <= j < |p0| :: p0[j].Paired();
      assert f.colors[|g.colors|..|h.colors|] == h.colors[|g.colors|..] == outs[i].colors;
    }
  }
}

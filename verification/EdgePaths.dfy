/**
 Rounded orthogonal edge paths: a polyline whose inner corners are replaced by quadratic bends, and the fork path that
 is drawn with it. Coordinates are reals. The planner measures with the Euclidean distance; on the axis-aligned
 segments that it is made for, that is the sum of the coordinate differences.
 */
module EdgePaths {

  datatype Point = Point(x: real, y: real)

  /** Path commands: move to, line to, and a quadratic curve with its control point. */
  datatype Command = MoveTo(p: Point) | LineTo(p: Point) | CurveTo(control: Point, p: Point)

  function Abs(r: real): real {
    if r < 0.0 then -r else r
  }

  function Min(a: real, b: real): real {
    if a < b then a else b
  }

  predicate Aligned(a: Point, b: Point) {
    a.x == b.x || a.y == b.y
  }

  function Distance(a: Point, b: Point): (d: real)
    requires Aligned(a, b)
    ensures d >= 0.0 && d * d == (b.x - a.x) * (b.x - a.x) + (b.y - a.y) * (b.y - a.y)
  {
    Abs(b.x - a.x) + Abs(b.y - a.y)
  }

  predicate Orthogonal(points: seq<Point>) {
    forall i :: 0 < i < |points| ==> Aligned(points[i - 1], points[i])
  }

  // ---------------------------------------------------------------- bends

  function BendSize(a: Point, b: Point, c: Point, size: real): real
    requires Aligned(a, b) && Aligned(b, c)
  {
    Min(Min(Distance(a, b) / 2.0, Distance(b, c) / 2.0), size)
  }

  predicate Straight(a: Point, b: Point, c: Point) {
    (a.x == b.x && b.x == c.x) || (a.y == b.y && b.y == c.y)
  }

  /** On axis-aligned segments, going straight through is being collinear. */
  lemma StraightIsCollinear(a: Point, b: Point, c: Point)
    requires Aligned(a, b) && Aligned(b, c)
    ensures Straight(a, b, c) <==> (b.x - a.x) * (c.y - b.y) == (b.y - a.y) * (c.x - b.x)
  {
    if a.x == b.x && b.y == c.y {
      NoZeroProduct(b.y - a.y, c.x - b.x);
    } else if a.y == b.y && b.x == c.x {
      NoZeroProduct(b.x - a.x, c.y - b.y);
    }
  }

  lemma NoZeroProduct(p: real, q: real)
    ensures p * q == 0.0 <==> p == 0.0 || q == 0.0
  {
  }

  /** Where the bend at `b` leaves the first segment and where it joins the second; both are `b` if it is straight. */
  function BendEnds(a: Point, b: Point, c: Point, size: real): (Point, Point)
    requires Aligned(a, b) && Aligned(b, c)
  {
    var s := BendSize(a, b, c, size);
    if Straight(a, b, c) then (b, b)
    else if a.y == b.y then
      var xDir := if a.x < c.x then -1.0 else 1.0;
      var yDir := if a.y < c.y then 1.0 else -1.0;
      (Point(b.x + s * xDir, b.y), Point(b.x, b.y + s * yDir))
    else
      var xDir := if a.x < c.x then 1.0 else -1.0;
      var yDir := if a.y < c.y then -1.0 else 1.0;
      (Point(b.x, b.y + s * yDir), Point(b.x + s * xDir, b.y))
  }

  function Bend(a: Point, b: Point, c: Point, size: real): seq<Command>
    requires Aligned(a, b) && Aligned(b, c)
  {
    if Straight(a, b, c) then [LineTo(b)]
    else
      var (enter, leave) := BendEnds(a, b, c, size);
      [LineTo(enter), CurveTo(b, leave)]
  }

  /** `p` is on the segment from `a` to `b`. */
  predicate On(a: Point, b: Point, p: Point) {
    Between(a.x, p.x, b.x) && Between(a.y, p.y, b.y)
  }

  predicate Between(a: real, x: real, b: real) {
    a <= x <= b || b <= x <= a
  }

  /** A bend starts and ends on its two segments, trimming each by the same amount: at most half of either, and at
      most `size`. */
  lemma BendStaysOnItsSegments(a: Point, b: Point, c: Point, size: real)
    requires Aligned(a, b) && Aligned(b, c) && size >= 0.0
    ensures var (enter, leave) := BendEnds(a, b, c, size);
      && On(a, b, enter) && On(b, c, leave)
      && Aligned(enter, b) && Aligned(b, leave)
      && Distance(enter, b) == Distance(b, leave) <= size
      && Distance(enter, b) <= Distance(a, b) / 2.0 && Distance(b, leave) <= Distance(b, c) / 2.0
      && (!Straight(a, b, c) ==> Distance(enter, b) == BendSize(a, b, c, size))
  {
  }

  // ---------------------------------------------------------------- the whole path

  /** The commands for `points[i]`: the first is moved to, the last is lined to, the others are bends. */
  function Segment(points: seq<Point>, i: nat, size: real): seq<Command>
    requires i < |points| && Orthogonal(points)
  {
    if i == 0 then [MoveTo(points[0])]
    else if i == |points| - 1 then [LineTo(points[i])]
    else Bend(points[i - 1], points[i], points[i + 1], size)
  }

  function PathUpTo(points: seq<Point>, n: nat, size: real): seq<Command>
    requires n <= |points| && Orthogonal(points)
  {
    if n == 0 then [] else PathUpTo(points, n - 1, size) + Segment(points, n - 1, size)
  }

  function BuildPath(points: seq<Point>, size: real): seq<Command>
    requires Orthogonal(points)
  {
    PathUpTo(points, |points|, size)
  }

  /** A bend at `b`: on the first segment the path is drawn to a point before `b`, and from there a curve with its
      control point in `b` leads to a point of the second segment that is as far from `b`, namely `size` or half a
      segment. */
  predicate IsBend(a: Point, b: Point, c: Point, size: real, line: Command, curve: Command) {
    && line.LineTo? && curve.CurveTo? && curve.control == b
    && On(a, b, line.p) && On(b, c, curve.p) && Aligned(line.p, b) && Aligned(b, curve.p)
    && Aligned(a, b) && Aligned(b, c)
    && Distance(line.p, b) == Distance(b, curve.p) == Min(Min(Distance(a, b) / 2.0, Distance(b, c) / 2.0), size)
  }

  lemma BendIsBend(a: Point, b: Point, c: Point, size: real)
    requires Aligned(a, b) && Aligned(b, c) && size >= 0.0 && !Straight(a, b, c)
    ensures |Bend(a, b, c, size)| == 2 && IsBend(a, b, c, size, Bend(a, b, c, size)[0], Bend(a, b, c, size)[1])
    ensures size > 0.0 ==> Min(Min(Distance(a, b) / 2.0, Distance(b, c) / 2.0), size) > 0.0
  {
    BendStaysOnItsSegments(a, b, c, size);
  }

  lemma {:induction false} PathGrows(points: seq<Point>, m: nat, n: nat, size: real)
    requires Orthogonal(points) && m <= n <= |points|
    ensures PathUpTo(points, m, size) <= PathUpTo(points, n, size)
  {
    if m < n {
      PathGrows(points, m, n - 1, size);
    }
  }

  /** The path in order: it moves to the first point, goes straight through or bends at every inner one, and ends at the
      last; position `|PathUpTo(points, i, size)|` is where it comes to `points[i]`. */
  lemma DrawnInOrder(points: seq<Point>, i: nat, size: real)
    requires Orthogonal(points) && i < |points| && size >= 0.0
    ensures var path, k := BuildPath(points, size), |PathUpTo(points, i, size)|;
      && k < |path|
      && (i == 0 ==> k == 0 && path[0] == MoveTo(points[0]))
      && (0 < i == |points| - 1 ==> k == |path| - 1 && path[k] == LineTo(points[i]))
      && (0 < i < |points| - 1 ==>
            if Straight(points[i - 1], points[i], points[i + 1]) then
              path[k] == LineTo(points[i]) && |PathUpTo(points, i + 1, size)| == k + 1
            else
              && k + 1 < |path| && |PathUpTo(points, i + 1, size)| == k + 2
              && IsBend(points[i - 1], points[i], points[i + 1], size, path[k], path[k + 1]))
  {
    PathGrows(points, i + 1, |points|, size);
    var k, upTo := |PathUpTo(points, i, size)|, PathUpTo(points, i + 1, size);
    assert upTo == PathUpTo(points, i, size) + Segment(points, i, size);
    if 0 < i < |points| - 1 {
      assert Aligned(points[i - 1], points[i]) && Aligned(points[i], points[i + 1]);
      if !Straight(points[i - 1], points[i], points[i + 1]) {
        BendIsBend(points[i - 1], points[i], points[i + 1], size);
      }
    }
  }

  lemma {:induction false} CommandComesFrom(points: seq<Point>, n: nat, size: real, k: nat) returns (i: nat)
    requires Orthogonal(points) && n <= |points| && k < |PathUpTo(points, n, size)|
    ensures i < n && |PathUpTo(points, i, size)| <= k < |PathUpTo(points, i + 1, size)|
  {
    i := n - 1;
    if k < |PathUpTo(points, n - 1, size)| {
      i := CommandComesFrom(points, n - 1, size, k);
    }
  }

  /** And so every curve of the path is the bend of an inner corner, drawn from where the line before it ends. */
  lemma CurvesAreBends(points: seq<Point>, size: real, k: nat) returns (i: nat)
    requires Orthogonal(points) && size >= 0.0
    requires k < |BuildPath(points, size)| && BuildPath(points, size)[k].CurveTo?
    ensures 0 < i < |points| - 1 && k > 0
    ensures IsBend(points[i - 1], points[i], points[i + 1], size,
                   BuildPath(points, size)[k - 1], BuildPath(points, size)[k])
    ensures size > 0.0 ==> BuildPath(points, size)[k - 1].p != points[i] && points[i] != BuildPath(points, size)[k].p
  {
    i := CommandComesFrom(points, |points|, size, k);
    DrawnInOrder(points, i, size);
    PathGrows(points, i + 1, |points|, size);
    assert PathUpTo(points, i + 1, size) == PathUpTo(points, i, size) + Segment(points, i, size);
    assert BuildPath(points, size)[k] == Segment(points, i, size)[k - |PathUpTo(points, i, size)|];
    assert Aligned(points[i - 1], points[i]) && Aligned(points[i], points[i + 1]);
    BendIsBend(points[i - 1], points[i], points[i + 1], size);
  }

  /** Where the path comes onto the segment that starts at `points[i]`, and where it leaves the one that ends there. */
  function Leaves(points: seq<Point>, i: nat, size: real): Point
    requires i < |points| && Orthogonal(points)
  {
    if i == 0 || i == |points| - 1 then points[i] else BendEnds(points[i - 1], points[i], points[i + 1], size).1
  }

  function Enters(points: seq<Point>, i: nat, size: real): Point
    requires i < |points| && Orthogonal(points)
  {
    if i == 0 || i == |points| - 1 then points[i] else BendEnds(points[i - 1], points[i], points[i + 1], size).0
  }

  /** Bends never overlap: along each segment the path leaves one bend no later than it enters the next. */
  lemma BendsDoNotOverlap(points: seq<Point>, i: nat, size: real)
    requires Orthogonal(points) && i + 1 < |points| && size >= 0.0
    ensures var from, to := Leaves(points, i, size), Enters(points, i + 1, size);
      && On(points[i], points[i + 1], from) && On(points[i], points[i + 1], to) && On(from, points[i + 1], to)
  {
    assert Aligned(points[i], points[i + 1]);
    if 0 < i {
      BendStaysOnItsSegments(points[i - 1], points[i], points[i + 1], size);
    }
    if i + 2 < |points| {
      BendStaysOnItsSegments(points[i], points[i + 1], points[i + 2], size);
    }
    HalvesMeet(points[i], points[i + 1], Leaves(points, i, size), Enters(points, i + 1, size));
  }

  lemma HalvesMeet(a: Point, b: Point, p: Point, q: Point)
    requires Aligned(a, b) && On(a, b, p) && On(a, b, q)
    requires p == a || (Aligned(a, p) && Distance(a, p) <= Distance(a, b) / 2.0)
    requires q == b || (Aligned(q, b) && Distance(q, b) <= Distance(a, b) / 2.0)
    ensures On(p, b, q)
  {
  }

  datatype Box = Box(left: real, right: real, top: real, bottom: real) {
    predicate Has(p: Point) {
      left <= p.x <= right && top <= p.y <= bottom
    }
  }

  function Points(c: Command): set<Point> {
    match c
    case MoveTo(p) => {p}
    case LineTo(p) => {p}
    case CurveTo(control, p) => {control, p}
  }

  /** Every point and control point of the path lies in every box that holds the corners of the polyline. */
  lemma {:induction false} PathStaysInBox(points: seq<Point>, n: nat, size: real, box: Box)
    requires Orthogonal(points) && n <= |points| && size >= 0.0
    requires forall i :: 0 <= i < |points| ==> box.Has(points[i])
    ensures forall c, p :: c in PathUpTo(points, n, size) && p in Points(c) ==> box.Has(p)
  {
    if n > 0 {
      PathStaysInBox(points, n - 1, size, box);
      var i := n - 1;
      if 0 < i < |points| - 1 {
        assert Aligned(points[i - 1], points[i]) && Aligned(points[i], points[i + 1]);
        BendStaysOnItsSegments(points[i - 1], points[i], points[i + 1], size);
      }
      forall c, p | c in Segment(points, i, size) && p in Points(c) ensures box.Has(p) {
      }
    }
  }

  lemma {:induction false} SegmentIsDrawn(points: seq<Point>, n: nat, i: nat, size: real)
    requires Orthogonal(points) && i < n <= |points|
    ensures forall c :: c in Segment(points, i, size) ==> c in PathUpTo(points, n, size)
  {
    if i < n - 1 {
      SegmentIsDrawn(points, n - 1, i, size);
    }
  }

  /** Every corner is a point of the path or the control point of a bend. */
  lemma CornerIsDrawn(points: seq<Point>, i: nat, size: real) returns (c: Command)
    requires Orthogonal(points) && i < |points|
    ensures c in BuildPath(points, size) && points[i] in Points(c)
  {
    SegmentIsDrawn(points, |points|, i, size);
    var drawn := Segment(points, i, size);
    c := drawn[|drawn| - 1];
    assert c in drawn;
  }

  function Mix(a: real, b: real, t: real): real {
    (1.0 - t) * a + t * b
  }

  /** One coordinate of the quadratic curve from `s` to `e` with control point `c`. */
  function OnCurve(s: real, c: real, e: real, t: real): real {
    Mix(Mix(s, c, t), Mix(c, e, t), t)
  }

  lemma Scaled(t: real, a: real)
    requires t >= 0.0 && a >= 0.0
    ensures t * a >= 0.0
  {
  }

  lemma MixStaysBetween(a: real, b: real, t: real, lo: real, hi: real)
    requires lo <= a <= hi && lo <= b <= hi && 0.0 <= t <= 1.0
    ensures lo <= Mix(a, b, t) <= hi
  {
    Scaled(1.0 - t, hi - a);
    Scaled(t, hi - b);
    assert hi - Mix(a, b, t) == (1.0 - t) * (hi - a) + t * (hi - b);
    Scaled(1.0 - t, a - lo);
    Scaled(t, b - lo);
    assert Mix(a, b, t) - lo == (1.0 - t) * (a - lo) + t * (b - lo);
  }

  lemma CurveStaysBetween(s: real, c: real, e: real, t: real, lo: real, hi: real)
    requires lo <= s <= hi && lo <= c <= hi && lo <= e <= hi && 0.0 <= t <= 1.0
    ensures lo <= OnCurve(s, c, e, t) <= hi
  {
    MixStaysBetween(s, c, t, lo, hi);
    MixStaysBetween(c, e, t, lo, hi);
    MixStaysBetween(Mix(s, c, t), Mix(c, e, t), t, lo, hi);
  }

  lemma CurveStaysInBox(s: Point, c: Point, e: Point, t: real, box: Box)
    requires box.Has(s) && box.Has(c) && box.Has(e) && 0.0 <= t <= 1.0
    ensures box.Has(Point(OnCurve(s.x, c.x, e.x, t), OnCurve(s.y, c.y, e.y, t)))
  {
    CurveStaysBetween(s.x, c.x, e.x, t, box.left, box.right);
    CurveStaysBetween(s.y, c.y, e.y, t, box.top, box.bottom);
  }

  lemma {:induction false} PathMovesFirst(points: seq<Point>, n: nat, size: real)
    requires Orthogonal(points) && 0 < n <= |points|
    ensures PathUpTo(points, n, size) != [] && PathUpTo(points, n, size)[0] == MoveTo(points[0])
  {
    if n > 1 {
      PathMovesFirst(points, n - 1, size);
    } else {
      assert PathUpTo(points, 0, size) == [];
    }
  }

  /** Every curve of the path, drawn from where the command before it ends, lies in every box that holds the corners. */
  lemma DrawnCurvesStayInBox(points: seq<Point>, size: real, box: Box, k: nat, t: real)
    requires Orthogonal(points) && size >= 0.0 && forall i :: 0 <= i < |points| ==> box.Has(points[i])
    requires k < |BuildPath(points, size)| && BuildPath(points, size)[k].CurveTo? && 0.0 <= t <= 1.0
    ensures k > 0
    ensures var from, curve := BuildPath(points, size)[k - 1].p, BuildPath(points, size)[k];
      box.Has(Point(OnCurve(from.x, curve.control.x, curve.p.x, t), OnCurve(from.y, curve.control.y, curve.p.y, t)))
  {
    var path := BuildPath(points, size);
    if points != [] {
      PathMovesFirst(points, |points|, size);
    }
    PathStaysInBox(points, |points|, size, box);
    var from, curve := path[k - 1], path[k];
    assert from in path && curve in path;
    assert from.p in Points(from) && curve.p in Points(curve) && curve.control in Points(curve);
    CurveStaysInBox(from.p, curve.control, curve.p, t, box);
  }

  // ---------------------------------------------------------------- fork edges

  const CORNER_RADIUS := 6.0

  datatype Fork = Fork(points: seq<Point>, path: seq<Command>, labelX: real, labelY: real)

  /** The two vertical positions collapse to the middle when the offsets leave less than half a pixel between them. */
  predicate Collapses(source: Point, target: Point, offset: real) {
    source.x + offset >= target.x - offset - 0.5
  }

  function ForkPoints(source: Point, target: Point, offset: real): (points: seq<Point>)
    ensures |points| == 5 && Orthogonal(points)
  {
    var mid := (source.x + target.x) / 2.0;
    var x1 := if Collapses(source, target, offset) then mid else source.x + offset;
    var x2 := if Collapses(source, target, offset) then mid else target.x - offset;
    [source, Point(x1, source.y), Point(x1, target.y), Point(x2, target.y), target]
  }

  function BuildFork(source: Point, target: Point, offset: real): Fork {
    var points := ForkPoints(source, target, offset);
    Fork(points, BuildPath(points, CORNER_RADIUS), (points[1].x + points[3].x) / 2.0, target.y)
  }

  /** The verticals of the fork stand the offset away from the endpoints if that leaves more than half a pixel between
      them, and otherwise both in the middle; the label is in the middle in either case. */
  lemma ForkVerticals(source: Point, target: Point, offset: real)
    ensures var fork, gap := BuildFork(source, target, offset), target.x - source.x - 2.0 * offset;
      && fork.points[1].x == fork.points[2].x
      && (gap > 0.5 ==> fork.points[1].x == source.x + offset && fork.points[3].x == target.x - offset)
      && (gap <= 0.5 ==> fork.points[1].x == fork.points[3].x == (source.x + target.x) / 2.0)
      && fork.points[1].y == source.y && fork.points[2].y == fork.points[3].y == target.y
      && fork.labelX == (source.x + target.x) / 2.0 && fork.labelY == target.y
  {
  }

  predicate MonotoneInX(points: seq<Point>) {
    || (forall i :: 0 < i < |points| ==> points[i - 1].x <= points[i].x)
    || (forall i :: 0 < i < |points| ==> points[i - 1].x >= points[i].x)
  }

  function BoundingBox(a: Point, b: Point): Box {
    Box(Min(a.x, b.x), if a.x < b.x then b.x else a.x, Min(a.y, b.y), if a.y < b.y then b.y else a.y)
  }

  /** The polyline runs from source to target without turning back in x exactly when the offset is not negative, or
      the two verticals collapse; then it never leaves the box of its endpoints. */
  lemma ForkIsMonotone(source: Point, target: Point, offset: real)
    ensures MonotoneInX(ForkPoints(source, target, offset)) <==> offset >= 0.0 || Collapses(source, target, offset)
    ensures ForkPoints(source, target, offset)[0] == source && ForkPoints(source, target, offset)[4] == target
    ensures offset >= 0.0 || Collapses(source, target, offset) ==>
      forall i :: 0 <= i < 5 ==> BoundingBox(source, target).Has(ForkPoints(source, target, offset)[i])
  {
    var p := ForkPoints(source, target, offset);
    if offset < 0.0 && !Collapses(source, target, offset) {
      assert p[1].x < p[0].x && p[2].x < p[3].x;
    }
  }

  /** The two verticals lie between the endpoints. */
  predicate VerticalsBetween(source: Point, target: Point, offset: real) {
    offset >= 0.0 || Collapses(source, target, offset) || source.x + offset >= target.x
  }

  lemma CornersInBox(source: Point, target: Point, offset: real)
    ensures VerticalsBetween(source, target, offset) <==>
      forall i :: 0 <= i < 5 ==> BoundingBox(source, target).Has(ForkPoints(source, target, offset)[i])
  {
    var points := ForkPoints(source, target, offset);
    if !VerticalsBetween(source, target, offset) {
      assert !BoundingBox(source, target).Has(points[1]) || !BoundingBox(source, target).Has(points[3]);
    }
  }

  /** The drawn fork path, bends and label included, stays in the box of its endpoints exactly when the verticals do. */
  lemma ForkStaysInBox(source: Point, target: Point, offset: real)
    ensures var fork, box := BuildFork(source, target, offset), BoundingBox(source, target);
      VerticalsBetween(source, target, offset) <==>
        && (forall c, p :: c in fork.path && p in Points(c) ==> box.Has(p))
        && box.Has(Point(fork.labelX, fork.labelY))
  {
    CornersInBox(source, target, offset);
    var points, box := ForkPoints(source, target, offset), BoundingBox(source, target);
    if VerticalsBetween(source, target, offset) {
      PathStaysInBox(points, 5, CORNER_RADIUS, box);
      assert box.Has(points[1]) && box.Has(points[3]);
    } else {
      var i :| 0 <= i < 5 && !box.Has(points[i]);
      var c := CornerIsDrawn(points, i, CORNER_RADIUS);
    }
  }
}

/**
 * Vertex generators for the morph shapes of the portfolio site.
 *
 * Every shape is an ordered list of N = 120 points in the 0..100 percentage
 * box that a CSS `clip-path: polygon(...)` consumes.  Morphing interpolates
 * two lists index by index, so the lists must have the same length.  Two
 * generators exist: the primary one (a perimeter walk by distance for the
 * square, an index split for the triangle) and a parametric one (both shapes
 * walked by the fraction i / N).
 *
 * Coordinates are exact reals: the `toFixed(2)` rounding and the polygon
 * string assembly are not modelled, and neither is the circle.
 */
module Geometry {

  /** A vertex, in percent of the element's box. */
  datatype Point = Point(x: real, y: real)

  /** The vertex count every shape uses. */
  const N: nat := 120

  predicate InBox(p: Point) {
    0.0 <= p.x <= 100.0 && 0.0 <= p.y <= 100.0
  }

  /** On the outline of the square [0,100] x [0,100]. */
  predicate OnSquareBoundary(p: Point) {
    InBox(p) && (p.x == 0.0 || p.x == 100.0 || p.y == 0.0 || p.y == 100.0)
  }

  /** Reflection in the horizontal mid-line y = 50. */
  function Mirror(p: Point): Point {
    Point(p.x, 100.0 - p.y)
  }

  /** JavaScript's `x % 1` for a non-negative x: the fractional part. */
  function Frac(x: real): (f: real)
    requires x >= 0.0
    ensures 0.0 <= f < 1.0
    ensures (x - f).Floor as real == x - f
  {
    x - x.Floor as real
  }

  // ---------------------------------------------------------------------------
  // Primary square: walk the perimeter (0,0) -> (100,0) -> (100,100) -> (0,100)
  // ---------------------------------------------------------------------------

  /** The corners in the order the primary walk reaches them. */
  const SquareCorners: seq<Point> :=
    [Point(0.0, 0.0), Point(100.0, 0.0), Point(100.0, 100.0), Point(0.0, 100.0)]

  /** Distance between consecutive vertices: the perimeter 400 over N. */
  const PerimeterStep: real := 400.0 / N as real

  /** Side k of the primary walk (0 top, 1 right, 2 bottom, 3 left), as a
      function of the distance d travelled from (0,0). */
  function SquareSide(k: int, d: real): Point
    requires 0 <= k < 4
  {
    if k == 0 then Point(d, 0.0)
    else if k == 1 then Point(100.0, d - 100.0)
    else if k == 2 then Point(300.0 - d, 100.0)
    else Point(0.0, 400.0 - d)
  }

  /** The point at distance d along the walk; at 100, 200 and 300 the earlier
      side's test (`<=`) is the one that fires. */
  function SquareWalk(d: real): Point {
    if d <= 100.0 then SquareSide(0, d)
    else if d <= 200.0 then SquareSide(1, d)
    else if d <= 300.0 then SquareSide(2, d)
    else SquareSide(3, d)
  }

  /** Vertex i: the point at distance i * 400 / N along the walk. */
  function SquarePoint(i: nat): Point {
    SquareWalk(i as real * PerimeterStep)
  }

  function Square(): (s: seq<Point>)
    ensures |s| == N
  {
    seq(N, i requires 0 <= i < N => SquarePoint(i))
  }

  /** Inverse of the walk: how far along the walk a boundary point lies. */
  function WalkDistance(p: Point): real {
    if p.y == 0.0 then p.x
    else if p.x == 100.0 then 100.0 + p.y
    else if p.y == 100.0 then 300.0 - p.x
    else 400.0 - p.y
  }

  /** Both sides that meet at a corner give the same point there, so the
      `<=` tie-break has no visible effect: on the closed range of side k the
      walk is exactly side k's formula. */
  lemma SquareWalkOnSide(k: int, d: real)
    requires 0 <= k < 4
    requires 100.0 * k as real <= d <= 100.0 * (k + 1) as real
    ensures SquareWalk(d) == SquareSide(k, d)
  {
  }

  /** The walk maps [0,400) onto the boundary and WalkDistance undoes it. */
  lemma WalkRoundTrip(d: real)
    requires 0.0 <= d < 400.0
    ensures OnSquareBoundary(SquareWalk(d))
    ensures WalkDistance(SquareWalk(d)) == d
  {
  }

  /** Every boundary point is reached by the walk, at exactly one distance
      in [0,400). */
  lemma BoundaryRoundTrip(p: Point)
    requires OnSquareBoundary(p)
    ensures 0.0 <= WalkDistance(p) < 400.0
    ensures SquareWalk(WalkDistance(p)) == p
  {
  }

  /** Vertex i sits on the outline at walk distance i * 400 / N. */
  lemma SquarePointAt(i: nat)
    requires i < N
    ensures OnSquareBoundary(SquarePoint(i))
    ensures WalkDistance(SquarePoint(i)) == 400.0 * i as real / N as real
  {
    WalkRoundTrip(i as real * PerimeterStep);
  }

  /** No vertex of the primary square is repeated. */
  lemma SquarePointsDistinct(i: nat, j: nat)
    requires i < N && j < N && i != j
    ensures SquarePoint(i) != SquarePoint(j)
  {
    SquarePointAt(i);
    SquarePointAt(j);
  }

  /** Vertex k * N/4 is exactly corner k: indices 0, 30, 60 and 90. */
  lemma SquareCornerHit(k: nat)
    requires k < 4
    ensures SquarePoint(k * (N / 4)) == SquareCorners[k]
  {
    var d := (k * (N / 4)) as real * PerimeterStep;
    assert d == 100.0 * k as real by { assert PerimeterStep * 3.0 == 10.0; }
    SquareWalkOnSide(k, d);
  }

  /** Two points are one axis-aligned step of length h apart. */
  predicate AxisStep(p: Point, q: Point, h: real) {
    (p.x == q.x && (q.y - p.y == h || p.y - q.y == h))
    || (p.y == q.y && (q.x - p.x == h || p.x - q.x == h))
  }

  /** Vertex i and the distance one step past it lie on the closed range of
      side i / (N/4). */
  lemma StepStaysOnSide(i: nat)
    requires i < N
    ensures 0 <= i / (N / 4) < 4
    ensures 100.0 * (i / (N / 4)) as real <= i as real * PerimeterStep
    ensures i as real * PerimeterStep + PerimeterStep <= 100.0 * (i / (N / 4) + 1) as real
  {
    assert PerimeterStep * 3.0 == 10.0;
    var q := i / (N / 4);
    assert 30 * q <= i < 30 * q + 30;
  }

  /** Moving d forward by h along one side moves the point by h. */
  lemma SquareSideStep(k: int, d: real, h: real, p: Point, q: Point)
    requires 0 <= k < 4
    requires p == SquareSide(k, d) && q == SquareSide(k, d + h)
    ensures AxisStep(p, q, h)
  {
  }

  /** The successor of vertex i (vertex N-1 wraps to vertex 0) is one step
      further along the walk: the walk at distance 400 is back at (0,0). */
  lemma SuccessorOneStep(i: nat)
    requires i < N
    ensures SquarePoint((i + 1) % N) == SquareWalk(i as real * PerimeterStep + PerimeterStep)
  {
    var h := PerimeterStep;
    if i + 1 < N {
      assert (i + 1) as real * h == i as real * h + h;
    } else {
      assert i as real * h + h == 400.0;
    }
  }

  /** Vertex i and the point one step past it are given by the formula of
      side i / (N/4). */
  lemma VertexAndNextOnSide(i: nat)
    requires i < N
    ensures 0 <= i / (N / 4) < 4
    ensures SquarePoint(i) == SquareSide(i / (N / 4), i as real * PerimeterStep)
    ensures SquareWalk(i as real * PerimeterStep + PerimeterStep)
         == SquareSide(i / (N / 4), i as real * PerimeterStep + PerimeterStep)
  {
    var d := i as real * PerimeterStep;
    StepStaysOnSide(i);
    SquareWalkOnSide(i / (N / 4), d);
    SquareWalkOnSide(i / (N / 4), d + PerimeterStep);
  }

  /** The vertices are evenly spread: each vertex and its successor (vertex
      N-1 wraps to vertex 0) lie on one side, one step of 400 / N apart. */
  lemma SquareEvenSpacing(i: nat)
    requires i < N
    ensures AxisStep(SquarePoint(i), SquarePoint((i + 1) % N), PerimeterStep)
  {
    VertexAndNextOnSide(i);
    SuccessorOneStep(i);
    SquareSideStep(i / (N / 4), i as real * PerimeterStep, PerimeterStep,
                   SquarePoint(i), SquarePoint((i + 1) % N));
  }

  // ---------------------------------------------------------------------------
  // Primary triangle: N / 3 points per edge, top -> bottom-right -> bottom-left
  // ---------------------------------------------------------------------------

  const TriangleVertices: seq<Point> :=
    [Point(50.0, 0.0), Point(100.0, 100.0), Point(0.0, 100.0)]

  /** The point a fraction t of the way from a to b. */
  function Lerp(a: Point, b: Point, t: real): Point {
    Point(a.x + t * (b.x - a.x), a.y + t * (b.y - a.y))
  }

  /** Where a vertex falls: the edge it starts from, the vertex the edge
      ends at, and the fraction of the edge already covered. */
  datatype EdgeStep = EdgeStep(segment: int, next: int, t: real)

  /** The primary triangle's index split, with JavaScript's real division
      `i / (N / 3)` and `Math.floor(N / 3)` written out. */
  function TriangleStep(i: nat): (s: EdgeStep)
    requires i < N
    ensures 0 <= s.segment < 3 && 0 <= s.next < 3
    ensures s.next == (s.segment + 1) % 3
    ensures 0.0 <= s.t < 1.0
  {
    var segment := (i as real / (N as real / 3.0)).Floor;
    var perEdge := (N as real / 3.0).Floor;
    var localIndex := i % perEdge;
    EdgeStep(segment, (segment + 1) % 3, localIndex as real / perEdge as real)
  }

  /** Vertex i: the blend of its edge's end vertices. */
  function TrianglePoint(i: nat): Point
    requires i < N
  {
    var s := TriangleStep(i);
    Lerp(TriangleVertices[s.segment], TriangleVertices[s.next], s.t)
  }

  function Triangle(): (s: seq<Point>)
    ensures |s| == N
  {
    seq(N, i requires 0 <= i < N => TrianglePoint(i))
  }

  /** The three edges of the triangle as line equations with x ranges,
      independent of the interpolation used to generate them. */
  predicate OnTriangleEdge(k: int, p: Point)
    requires 0 <= k < 3
  {
    if k == 0 then p.y == 2.0 * (p.x - 50.0) && 50.0 <= p.x <= 100.0
    else if k == 1 then p.y == 100.0 && 0.0 <= p.x <= 100.0
    else p.y == 100.0 - 2.0 * p.x && 0.0 <= p.x <= 50.0
  }

  predicate OnTriangle(p: Point) {
    OnTriangleEdge(0, p) || OnTriangleEdge(1, p) || OnTriangleEdge(2, p)
  }

  /** Blending edge k's end points with t in [0,1] lands on edge k. */
  lemma LerpOnEdge(k: int, t: real)
    requires 0 <= k < 3 && 0.0 <= t <= 1.0
    ensures OnTriangleEdge(k, Lerp(TriangleVertices[k], TriangleVertices[(k + 1) % 3], t))
    ensures InBox(Lerp(TriangleVertices[k], TriangleVertices[(k + 1) % 3], t))
  {
    var p := Lerp(TriangleVertices[k], TriangleVertices[(k + 1) % 3], t);
    if k == 0 {
      assert p == Point(50.0 + 50.0 * t, 100.0 * t);
    } else if k == 1 {
      assert p == Point(100.0 - 100.0 * t, 100.0);
    } else {
      assert p == Point(50.0 * t, 100.0 - 100.0 * t);
    }
  }

  /** Each primary triangle vertex lies on the edge its segment names. */
  lemma TrianglePointOnEdge(i: nat)
    requires i < N
    ensures OnTriangleEdge(TriangleStep(i).segment, TrianglePoint(i))
    ensures OnTriangle(TrianglePoint(i)) && InBox(TrianglePoint(i))
  {
    var s := TriangleStep(i);
    LerpOnEdge(s.segment, s.t);
  }

  /** The split is plain integer arithmetic on N / 3 = 40 points per edge. */
  lemma TriangleStepExact(i: nat)
    requires i < N
    ensures TriangleStep(i).segment == i / (N / 3)
    ensures TriangleStep(i).t == (i % (N / 3)) as real / (N / 3) as real
  {
  }

  /** Vertex k * N/3 is exactly triangle corner k: indices 0, 40 and 80. */
  lemma TriangleCornerHit(k: nat)
    requires k < 3
    ensures TrianglePoint(k * (N / 3)) == TriangleVertices[k]
  {
    var i := k * (N / 3);
    TriangleStepExact(i);
    assert i / (N / 3) == k && i % (N / 3) == 0;
  }

  // ---------------------------------------------------------------------------
  // Parametric generator: both shapes walked by t = i / N
  // ---------------------------------------------------------------------------

  /** Side k of the parametric square at local fraction u (0 bottom moving
      right, 1 right moving up, 2 top moving left, 3 left moving down). */
  function ParamSquareSide(k: int, u: real): Point
    requires 0 <= k < 4
  {
    if k == 0 then Point(u * 100.0, 100.0)
    else if k == 1 then Point(100.0, 100.0 - u * 100.0)
    else if k == 2 then Point(100.0 - u * 100.0, 0.0)
    else Point(0.0, u * 100.0)
  }

  /** The parametric square vertex; the strict `<` tests hand each corner to
      the side that starts there. */
  function ParamSquarePoint(i: nat): Point {
    var t := i as real / N as real;
    var segment := t * 4.0;
    var localT := Frac(segment);
    if segment < 1.0 then ParamSquareSide(0, localT)
    else if segment < 2.0 then ParamSquareSide(1, localT)
    else if segment < 3.0 then ParamSquareSide(2, localT)
    else ParamSquareSide(3, localT)
  }

  function ParamSquare(): (s: seq<Point>)
    ensures |s| == N
  {
    seq(N, i requires 0 <= i < N => ParamSquarePoint(i))
  }

  /** The parametric square is the primary square reflected in y = 50,
      vertex by vertex: it starts at (0,100) and runs the other way round. */
  lemma ParamSquareMirrors(i: nat)
    requires i < N
    ensures ParamSquarePoint(i) == Mirror(SquarePoint(i))
    ensures OnSquareBoundary(ParamSquarePoint(i))
  {
    var seg := i as real / N as real * 4.0;
    var k := seg.Floor;
    var d := i as real * PerimeterStep;
    assert 0 <= k < 4 && d == 100.0 * seg by {
      assert PerimeterStep == 10.0 / 3.0;
    }
    assert ParamSquarePoint(i) == ParamSquareSide(k, seg - k as real) by {
      assert Frac(seg) == seg - k as real;
    }
    SquareWalkOnSide(k, d);
    ParamSideMirrors(k, seg);
    SquarePointAt(i);
  }

  /** Side k of the parametric square at local fraction seg - k is side k
      of the primary walk at distance 100 * seg, reflected. */
  lemma ParamSideMirrors(k: int, seg: real)
    requires 0 <= k < 4
    ensures ParamSquareSide(k, seg - k as real) == Mirror(SquareSide(k, 100.0 * seg))
  {
  }

  /** The corner k * N/4 is both the end of side k-1 and the start of side
      k; the parametric generator emits it as the start of side k. */
  lemma ParamSquareCorner(k: nat)
    requires 0 < k < 4
    ensures ParamSquarePoint(k * (N / 4)) == ParamSquareSide(k, 0.0)
    ensures ParamSquareSide(k, 0.0) == ParamSquareSide(k - 1, 1.0)
    ensures ParamSquarePoint(k * (N / 4)) == Mirror(SquareCorners[k])
  {
  }

  /** The parametric triangle's side index and local fraction. */
  function ParamTriangleStep(i: nat): (s: EdgeStep)
    requires i < N
    ensures 0 <= s.segment < 3 && 0 <= s.next < 3
    ensures s.next == (s.segment + 1) % 3
    ensures 0.0 <= s.t < 1.0
  {
    var t := i as real / N as real;
    var sideIndex := (t * 3.0).Floor;
    EdgeStep(sideIndex, (sideIndex + 1) % 3, Frac(t * 3.0))
  }

  /** The parametric triangle vertex i. */
  function ParamTrianglePoint(i: nat): Point
    requires i < N
  {
    var s := ParamTriangleStep(i);
    Lerp(TriangleVertices[s.segment], TriangleVertices[s.next], s.t)
  }

  function ParamTriangle(): (s: seq<Point>)
    ensures |s| == N
  {
    seq(N, i requires 0 <= i < N => ParamTrianglePoint(i))
  }

  /** The two triangle generators agree vertex by vertex: floor(3i/N) is
      i / (N/3) and (3i/N) mod 1 is (i mod (N/3)) / (N/3). */
  lemma ParamTriangleMatches(i: nat)
    requires i < N
    ensures ParamTriangleStep(i) == TriangleStep(i)
    ensures ParamTrianglePoint(i) == TrianglePoint(i)
  {
    TriangleStepExact(i);
  }

  // ---------------------------------------------------------------------------
  // The generated shape sets
  // ---------------------------------------------------------------------------

  /** The shapes of one generator; the circle is not modelled. */
  datatype Shapes = Shapes(square: seq<Point>, triangle: seq<Point>)

  function GenerateShapes(): (s: Shapes)
    ensures |s.square| == N && |s.triangle| == N
  {
    Shapes(Square(), Triangle())
  }

  function GenerateShapesParametric(): (s: Shapes)
    ensures |s.square| == N && |s.triangle| == N
  {
    Shapes(ParamSquare(), ParamTriangle())
  }

  /** Every vertex of both generators lies on its shape's outline. */
  lemma ShapesOnOutline()
    ensures forall i :: 0 <= i < N ==> OnSquareBoundary(GenerateShapes().square[i])
    ensures forall i :: 0 <= i < N ==> OnTriangle(GenerateShapes().triangle[i])
    ensures forall i :: 0 <= i < N ==> OnSquareBoundary(GenerateShapesParametric().square[i])
    ensures forall i :: 0 <= i < N ==> OnTriangle(GenerateShapesParametric().triangle[i])
  {
    forall i | 0 <= i < N
      ensures OnSquareBoundary(GenerateShapes().square[i])
      ensures OnTriangle(GenerateShapes().triangle[i])
      ensures OnSquareBoundary(GenerateShapesParametric().square[i])
      ensures OnTriangle(GenerateShapesParametric().triangle[i])
    {
      SquarePointAt(i);
      TrianglePointOnEdge(i);
      ParamSquareMirrors(i);
      ParamTriangleMatches(i);
    }
  }

  /** The parametric triangle list is the primary one, and the parametric
      square is the primary square mirrored. */
  lemma ParametricAgrees()
    ensures GenerateShapesParametric().triangle == GenerateShapes().triangle
    ensures forall i :: 0 <= i < N ==>
      GenerateShapesParametric().square[i] == Mirror(GenerateShapes().square[i])
  {
    forall i | 0 <= i < N
      ensures GenerateShapesParametric().triangle[i] == GenerateShapes().triangle[i]
      ensures GenerateShapesParametric().square[i] == Mirror(GenerateShapes().square[i])
    {
      ParamTriangleMatches(i);
      ParamSquareMirrors(i);
    }
  }

  /** The primary square starts at its top-left corner (0,0) and turns its
      corners at indices 30, 60 and 90. */
  lemma SquareLandmarks()
    ensures GenerateShapes().square[0] == Point(0.0, 0.0)
    ensures GenerateShapes().square[30] == Point(100.0, 0.0)
    ensures GenerateShapes().square[60] == Point(100.0, 100.0)
    ensures GenerateShapes().square[90] == Point(0.0, 100.0)
  {
    SquareCornerHit(0);
    SquareCornerHit(1);
    SquareCornerHit(2);
    SquareCornerHit(3);
  }

  /** The triangle starts at the top centre (50,0), so its first vertex is
      not the square's, and turns its corners at indices 40 and 80. */
  lemma TriangleLandmarks()
    ensures GenerateShapes().triangle[0] == Point(50.0, 0.0)
    ensures GenerateShapes().triangle[40] == Point(100.0, 100.0)
    ensures GenerateShapes().triangle[80] == Point(0.0, 100.0)
    ensures GenerateShapes().triangle[0] != GenerateShapes().square[0]
  {
    TriangleCornerHit(0);
    TriangleCornerHit(1);
    TriangleCornerHit(2);
    assert 1 * (N / 3) == 40 && 2 * (N / 3) == 80;
    assert GenerateShapes().triangle[40] == TrianglePoint(40);
    assert GenerateShapes().triangle[80] == TrianglePoint(80);
    SquareCornerHit(0);
  }

  /** The parametric square starts at (0,100) and reaches (100,100),
      (100,0) and (0,0) at indices 30, 60 and 90. */
  lemma ParamSquareLandmarks()
    ensures GenerateShapesParametric().square[0] == Point(0.0, 100.0)
    ensures GenerateShapesParametric().square[30] == Point(100.0, 100.0)
    ensures GenerateShapesParametric().square[60] == Point(100.0, 0.0)
    ensures GenerateShapesParametric().square[90] == Point(0.0, 0.0)
  {
    var sq := GenerateShapesParametric().square;
    assert sq[0] == Point(0.0, 100.0) by {
      ParamSquareMirrors(0);
      SquareCornerHit(0);
    }
    assert sq[30] == Point(100.0, 100.0) by {
      ParamSquareCorner(1);
      assert 1 * (N / 4) == 30;
    }
    assert sq[60] == Point(100.0, 0.0) by {
      ParamSquareCorner(2);
      assert 2 * (N / 4) == 60;
    }
    assert sq[90] == Point(0.0, 0.0) by {
      ParamSquareCorner(3);
      assert 3 * (N / 4) == 90;
    }
  }
}

/** The ray-casting test of analytics/src/analytics/core/shared_inference.py, which yolo_base.py repeats line for line.

    A polygon is the cyclic list of its vertices. `PointInPolygon` is the loop; `Inside` is the same answer as a
    parity of edge crossings. The theorems say what that parity means geometrically: it does not depend on how the
    cycle is written down, it splits along every chord, and for any polygon it is the parity of the fan triangles
    that contain the point, where containment in a triangle is decided by half-planes. Coordinates are reals. */
module Polygons {

  datatype Point = Point(x: real, y: real)

  type Polygon = seq<Point>

  /** Whether the horizontal line through `p` separates the two ends of the edge. */
  predicate Straddles(p: Point, a: Point, b: Point) {
    (a.y > p.y) != (b.y > p.y)
  }

  /** Where a straddling edge meets that line. */
  function MeetsAt(p: Point, a: Point, b: Point): real
    requires Straddles(p, a, b)
  {
    (b.x - a.x) * (p.y - a.y) / (b.y - a.y) + a.x
  }

  /** Whether the ray going right from `p` crosses the edge from `a` to `b`. */
  predicate Crosses(p: Point, a: Point, b: Point) {
    Straddles(p, a, b) && p.x < MeetsAt(p, a, b)
  }

  /** Parity of the crossings along an open path. */
  predicate PathParity(p: Point, vs: Polygon) {
    if |vs| < 2 then false else PathParity(p, vs[..|vs| - 1]) != Crosses(p, vs[|vs| - 1], vs[|vs| - 2])
  }

  /** Parity of the crossings around the closed cycle. */
  predicate Inside(p: Point, vs: Polygon) {
    vs != [] && PathParity(p, vs) != Crosses(p, vs[0], vs[|vs| - 1])
  }

  lemma PathStep(p: Point, vs: Polygon, v: Point)
    ensures PathParity(p, vs + [v]) == (vs != [] && PathParity(p, vs) != Crosses(p, v, vs[|vs| - 1]))
  {
    assert (vs + [v])[..|vs|] == vs;
  }

  method PointInPolygon(point: Point, polygon: Polygon) returns (inside: bool)
    ensures inside == Inside(point, polygon)
  {
    var n := |polygon|;
    inside := false;
    var j := n - 1;
    for i := 0 to n
      invariant j == if i == 0 then n - 1 else i - 1
      invariant inside == (i > 0 && PathParity(point, polygon[..i]) != Crosses(point, polygon[0], polygon[n - 1]))
    {
      PathStep(point, polygon[..i], polygon[i]);
      assert polygon[..i + 1] == polygon[..i] + [polygon[i]];
      if Crosses(point, polygon[i], polygon[j]) {
        inside := !inside;
      }
      j := i;
    }
    assert polygon[..n] == polygon;
  }

  // ---------- One edge ----------

  /** Twice the signed area of the triangle a, b, p: positive when p lies to the left of the edge. */
  function Side(a: Point, b: Point, p: Point): real {
    (b.x - a.x) * (p.y - a.y) - (b.y - a.y) * (p.x - a.x)
  }

  lemma DivideLess(n: real, d: real, z: real)
    requires d != 0.0
    ensures d > 0.0 ==> (z < n / d <==> z * d < n)
    ensures d < 0.0 ==> (z < n / d <==> z * d > n)
  {
    var q := n / d;
    assert q * d == n;
    if d > 0.0 {
      assert z < q ==> z * d < q * d;
      assert z >= q ==> z * d >= q * d;
    } else {
      assert z < q ==> z * d > q * d;
      assert z >= q ==> z * d <= q * d;
    }
  }

  /** The crossing test without division: a straddling edge that goes up is crossed exactly when the point is on its
      left, one that goes down exactly when the point is on its right. */
  lemma CrossesBySide(p: Point, a: Point, b: Point)
    requires Straddles(p, a, b)
    ensures Crosses(p, a, b) <==> if b.y > a.y then Side(a, b, p) > 0.0 else Side(a, b, p) < 0.0
  {
    DivideLess((b.x - a.x) * (p.y - a.y), b.y - a.y, p.x - a.x);
    assert (p.x - a.x) * (b.y - a.y) == (b.y - a.y) * (p.x - a.x);
  }

  lemma SideReversed(a: Point, b: Point, p: Point)
    ensures Side(b, a, p) == -Side(a, b, p)
  {
  }

  /** The test does not depend on the direction in which the edge is walked. */
  lemma CrossesSymmetric(p: Point, a: Point, b: Point)
    ensures Crosses(p, a, b) == Crosses(p, b, a)
  {
    if Straddles(p, a, b) {
      CrossesBySide(p, a, b);
      CrossesBySide(p, b, a);
      SideReversed(a, b, p);
    }
  }

  // ---------- Paths and cycles ----------

  lemma {:induction false} PathJoin(p: Point, us: Polygon, vs: Polygon)
    requires us != [] && vs != []
    ensures PathParity(p, us + vs) == (PathParity(p, us) != (Crosses(p, vs[0], us[|us| - 1]) != PathParity(p, vs)))
  {
    var n := |vs| - 1;
    assert us + vs == us + vs[..n] + [vs[n]] && vs == vs[..n] + [vs[n]];
    PathStep(p, us + vs[..n], vs[n]);
    PathStep(p, vs[..n], vs[n]);
    if n > 0 {
      PathJoin(p, us, vs[..n]);
    } else {
      assert us + vs[..n] == us;
    }
  }

  /** Any vertex may come first. */
  lemma RotationInvariant(p: Point, us: Polygon, vs: Polygon)
    ensures Inside(p, us + vs) == Inside(p, vs + us)
  {
    if us == [] || vs == [] {
      assert us + vs == vs + us;
    } else {
      PathJoin(p, us, vs);
      PathJoin(p, vs, us);
      CrossesSymmetric(p, us[0], vs[|vs| - 1]);
      CrossesSymmetric(p, vs[0], us[|us| - 1]);
    }
  }

  function Reverse(vs: Polygon): (r: Polygon)
    ensures |r| == |vs|
    ensures vs != [] ==> r[0] == vs[|vs| - 1] && r[|vs| - 1] == vs[0]
  {
    if vs == [] then [] else [vs[|vs| - 1]] + Reverse(vs[..|vs| - 1])
  }

  lemma {:induction false} PathReversed(p: Point, vs: Polygon)
    ensures PathParity(p, Reverse(vs)) == PathParity(p, vs)
  {
    if |vs| >= 2 {
      var n := |vs| - 1;
      PathReversed(p, vs[..n]);
      PathJoin(p, [vs[n]], Reverse(vs[..n]));
      CrossesSymmetric(p, vs[n], vs[n - 1]);
    }
  }

  /** Clockwise or counter-clockwise makes no difference. */
  lemma ReversalInvariant(p: Point, vs: Polygon)
    ensures Inside(p, Reverse(vs)) == Inside(p, vs)
  {
    if vs != [] {
      PathReversed(p, vs);
      CrossesSymmetric(p, vs[0], vs[|vs| - 1]);
    }
  }

  /** Cutting a polygon along the chord between two of its vertices, `us` ending and `vs` beginning with the one,
      and `vs` ending and `us` beginning with the other: the answers for the two pieces XOR to the whole's. */
  lemma ChordSplitBetween(p: Point, us: Polygon, vs: Polygon, u: Point, v: Point)
    ensures Inside(p, [u] + us + [v] + vs) == (Inside(p, [u] + us + [v]) != Inside(p, [v] + vs + [u]))
  {
    var left, right := [u] + us, [v] + vs;
    assert [u] + us + [v] + vs == left + right;
    PathJoin(p, left, right);
    PathStep(p, left, v);
    PathStep(p, right, u);
    CrossesSymmetric(p, u, v);
    CrossesSymmetric(p, u, right[|right| - 1]);
  }

  /** The same with the two vertices named by their indices. */
  lemma ChordSplit(p: Point, vs: Polygon, i: nat, j: nat)
    requires i < j < |vs|
    ensures Inside(p, vs) == (Inside(p, vs[i..j + 1]) != Inside(p, vs[j..] + vs[..i + 1]))
  {
    RotationInvariant(p, vs[..i], vs[i..]);
    CutCycle(vs, i, j);
    ChordSplitBetween(p, vs[i + 1..j], vs[j + 1..] + vs[..i], vs[i], vs[j]);
  }

  lemma CutCycle(vs: Polygon, i: nat, j: nat)
    requires i < j < |vs|
    ensures vs[..i] + vs[i..] == vs
    ensures vs[i..] + vs[..i] == [vs[i]] + vs[i + 1..j] + [vs[j]] + (vs[j + 1..] + vs[..i])
    ensures vs[i..j + 1] == [vs[i]] + vs[i + 1..j] + [vs[j]]
    ensures vs[j..] + vs[..i + 1] == [vs[j]] + (vs[j + 1..] + vs[..i]) + [vs[i]]
  {
    assert vs[i..j + 1] == [vs[i]] + vs[i + 1..j + 1];
    assert vs[i + 1..j + 1] == vs[i + 1..j] + [vs[j]];
    assert vs[j..] == [vs[j]] + vs[j + 1..];
    assert vs[..i + 1] == vs[..i] + [vs[i]];
    assert vs[i..] == vs[i..j + 1] + vs[j + 1..];
  }

  // ---------- A point on an edge ----------

  function Blend(a: real, b: real, t: real): real {
    a + t * (b - a)
  }

  function Between(a: Point, b: Point, t: real): Point {
    Point(Blend(a.x, b.x, t), Blend(a.y, b.y, t))
  }

  /** Replacing an edge by its two halves keeps the parity, wherever on the edge the new vertex lies. */
  lemma EdgeSubdivided(p: Point, a: Point, b: Point, t: real)
    requires 0.0 <= t <= 1.0
    ensures var m := Between(a, b, t); Crosses(p, a, b) == (Crosses(p, a, m) != Crosses(p, m, b))
  {
    var m := Between(a, b, t);
    BetweenOrder(a.y, b.y, t);
    if Straddles(p, a, b) && Straddles(p, a, m) {
      FirstPart(p, a, b, m, t);
    } else if Straddles(p, a, b) {
      SecondPart(p, a, b, m, t);
    }
    Halves(p, a, m, b);
  }

  lemma SecondPart(p: Point, a: Point, b: Point, m: Point, t: real)
    requires 0.0 <= t <= 1.0 && m == Between(a, b, t) && Straddles(p, a, b) && !Straddles(p, a, m)
    ensures Crosses(p, m, b) == Crosses(p, a, b)
  {
    BetweenReversed(a, b, t);
    FirstPart(p, b, a, m, 1.0 - t);
    CrossesSymmetric(p, a, b);
    CrossesSymmetric(p, m, b);
  }

  lemma Halves(p: Point, a: Point, m: Point, b: Point)
    requires a.y <= m.y <= b.y || b.y <= m.y <= a.y
    requires Straddles(p, a, b) && Straddles(p, a, m) ==> Crosses(p, a, m) == Crosses(p, a, b)
    requires Straddles(p, a, b) && !Straddles(p, a, m) ==> Crosses(p, m, b) == Crosses(p, a, b)
    ensures Crosses(p, a, b) == (Crosses(p, a, m) != Crosses(p, m, b))
  {
  }

  lemma BetweenReversed(a: Point, b: Point, t: real)
    ensures Between(b, a, 1.0 - t) == Between(a, b, t)
  {
    assert (1.0 - t) * (a.x - b.x) == (a.x - b.x) + t * (b.x - a.x);
    assert (1.0 - t) * (a.y - b.y) == (a.y - b.y) + t * (b.y - a.y);
  }

  lemma BetweenOrder(a: real, b: real, t: real)
    requires 0.0 <= t <= 1.0
    ensures a <= Blend(a, b, t) <= b || b <= Blend(a, b, t) <= a
  {
    var gap := b - a;
    Fraction(t, gap, t * gap);
  }

  lemma Fraction(t: real, gap: real, part: real)
    requires 0.0 <= t <= 1.0 && part == t * gap
    ensures 0.0 <= part <= gap || gap <= part <= 0.0
  {
    var rest := (1.0 - t) * gap;
    ProductSigns(t, gap);
    ProductSigns(1.0 - t, gap);
    assert part + rest == gap;
  }

  /** The half of the edge that still straddles the line meets it where the whole edge does. */
  lemma FirstPart(p: Point, a: Point, b: Point, m: Point, t: real)
    requires 0.0 <= t <= 1.0 && m == Between(a, b, t) && Straddles(p, a, b) && Straddles(p, a, m)
    ensures Crosses(p, a, b) == Crosses(p, a, m)
  {
    BetweenOrder(a.y, b.y, t);
    SideScales(a, b, t, p);
    CrossesBySide(p, a, b);
    CrossesBySide(p, a, m);
    ProductSigns(t, Side(a, b, p));
  }

  lemma SideScales(a: Point, b: Point, t: real, p: Point)
    ensures Side(a, Between(a, b, t), p) == t * Side(a, b, p)
  {
  }

  /** Adding a vertex on an edge changes no answer. */
  lemma VertexOnEdge(p: Point, us: Polygon, vs: Polygon, t: real)
    requires us != [] && vs != [] && 0.0 <= t <= 1.0
    ensures Inside(p, us + [Between(us[|us| - 1], vs[0], t)] + vs) == Inside(p, us + vs)
  {
    var a, b := us[|us| - 1], vs[0];
    var m := Between(a, b, t);
    PathJoin(p, us, vs);
    PathStep(p, us, m);
    PathJoin(p, us + [m], vs);
    EdgeSubdivided(p, a, b, t);
    CrossesSymmetric(p, a, m);
    CrossesSymmetric(p, m, b);
    CrossesSymmetric(p, a, b);
  }

  // ---------- The bounding box ----------

  /** Walking a path, the number of straddling edges is even exactly when both ends are on the same side. */
  lemma {:induction false} PathCrossingIsStraddling(p: Point, vs: Polygon)
    requires vs != [] && (forall i :: 0 <= i < |vs| ==> p.x < vs[i].x)
    ensures PathParity(p, vs) == Straddles(p, vs[0], vs[|vs| - 1])
  {
    if |vs| >= 2 {
      var n := |vs| - 1;
      PathCrossingIsStraddling(p, vs[..n]);
      StraddlingLeftIsCrossing(p, vs[n], vs[n - 1]);
    }
  }

  lemma StraddlingLeftIsCrossing(p: Point, a: Point, b: Point)
    requires p.x < a.x && p.x < b.x
    ensures Crosses(p, a, b) == Straddles(p, a, b)
  {
    if Straddles(p, a, b) {
      CrossesBySide(p, a, b);
      SideSplit(a, b, p);
    }
  }

  /** The signed area, weighted by how far each end lies from the line through the point. */
  lemma SideSplit(a: Point, b: Point, p: Point)
    ensures Side(a, b, p) == (b.y - p.y) * (a.x - p.x) + (p.y - a.y) * (b.x - p.x)
    ensures b.y > p.y >= a.y && a.x > p.x && b.x > p.x ==> Side(a, b, p) > 0.0
    ensures a.y > p.y >= b.y && a.x > p.x && b.x > p.x ==> Side(a, b, p) < 0.0
    ensures b.y > p.y >= a.y && a.x <= p.x && b.x <= p.x ==> Side(a, b, p) <= 0.0
    ensures a.y > p.y >= b.y && a.x <= p.x && b.x <= p.x ==> Side(a, b, p) >= 0.0
  {
  }

  lemma {:induction false} NoEdgeNoCrossing(p: Point, vs: Polygon)
    requires forall i, j :: 0 <= i < |vs| && 0 <= j < |vs| ==> !Crosses(p, vs[i], vs[j])
    ensures !PathParity(p, vs)
  {
    if |vs| >= 2 {
      var n := |vs| - 1;
      forall i, j | 0 <= i < n && 0 <= j < n ensures !Crosses(p, vs[..n][i], vs[..n][j]) {
        assert !Crosses(p, vs[i], vs[j]);
      }
      NoEdgeNoCrossing(p, vs[..n]);
    }
  }

  /** Every point outside the half-open bounding box is outside the polygon: above or level with the top, below the
      bottom, right of or level with the right side, left of the left side. */
  lemma OutsideBoundingBox(p: Point, vs: Polygon)
    requires || (forall i :: 0 <= i < |vs| ==> vs[i].y <= p.y)
             || (forall i :: 0 <= i < |vs| ==> p.y < vs[i].y)
             || (forall i :: 0 <= i < |vs| ==> vs[i].x <= p.x)
             || (forall i :: 0 <= i < |vs| ==> p.x < vs[i].x)
    ensures !Inside(p, vs)
  {
    if vs == [] {
    } else if forall i :: 0 <= i < |vs| ==> p.x < vs[i].x {
      PathCrossingIsStraddling(p, vs);
      StraddlingLeftIsCrossing(p, vs[0], vs[|vs| - 1]);
    } else {
      forall i, j | 0 <= i < |vs| && 0 <= j < |vs| ensures !Crosses(p, vs[i], vs[j]) {
        if Straddles(p, vs[i], vs[j]) {
          CrossesBySide(p, vs[i], vs[j]);
          SideSplit(vs[i], vs[j], p);
        }
      }
      NoEdgeNoCrossing(p, vs);
    }
  }

  /** For an upright rectangle the answer is the half-open box itself, boundary included: rectangles that tile a
      region claim each of its points exactly once. */
  lemma RectangleExact(p: Point, left: real, right: real, bottom: real, top: real)
    requires left < right && bottom < top
    ensures Inside(p, [Point(left, bottom), Point(right, bottom), Point(right, top), Point(left, top)])
       <==> left <= p.x < right && bottom <= p.y < top
  {
    var a, b, c, d := Point(left, bottom), Point(right, bottom), Point(right, top), Point(left, top);
    ChordSplit(p, [a, b, c, d], 0, 2);
    assert [a, b, c, d][0..3] == [a, b, c] && [a, b, c, d][2..] + [a, b, c, d][..1] == [c, d, a];
    TriangleInside(p, a, b, c);
    TriangleInside(p, c, d, a);
    CrossesSymmetric(p, c, a);
    UprightEdge(p, right, bottom, top);
    UprightEdge(p, left, bottom, top);
    CrossesSymmetric(p, d, a);
  }

  lemma UprightEdge(p: Point, x: real, bottom: real, top: real)
    requires bottom < top
    ensures Crosses(p, Point(x, bottom), Point(x, top)) <==> bottom <= p.y < top && p.x < x
  {
  }

  // ---------- Triangles, and every polygon as a fan of them ----------

  lemma TriangleInside(p: Point, a: Point, b: Point, c: Point)
    ensures Inside(p, [a, b, c]) == (Crosses(p, a, b) != (Crosses(p, b, c) != Crosses(p, c, a)))
  {
    PathStep(p, [], a);
    PathStep(p, [a], b);
    PathStep(p, [a, b], c);
    assert [] + [a] == [a] && [a] + [b] == [a, b] && [a, b] + [c] == [a, b, c];
    CrossesSymmetric(p, a, b);
    CrossesSymmetric(p, b, c);
    CrossesSymmetric(p, c, a);
  }

  lemma SidesSum(a: Point, b: Point, c: Point, p: Point)
    ensures Side(a, b, p) + Side(b, c, p) + Side(c, a, p) == Side(a, b, c)
    ensures Side(a, b, p) * (c.y - p.y) + Side(b, c, p) * (a.y - p.y) + Side(c, a, p) * (b.y - p.y) == 0.0
  {
  }

  /** The edge goes down, or level to the right: a polygon on its left claims the edge's own points. */
  predicate Enters(a: Point, b: Point) {
    b.y < a.y || (b.y == a.y && b.x > a.x)
  }

  /** On the left of the edge, or on its line if the edge enters: a half-plane with one half of its boundary rule. */
  predicate LeftOf(a: Point, b: Point, p: Point) {
    Side(a, b, p) > 0.0 || (Side(a, b, p) == 0.0 && Enters(a, b))
  }

  /** Every point is left of exactly one direction of an edge. */
  lemma LeftOfOneDirection(a: Point, b: Point, p: Point)
    requires a != b
    ensures LeftOf(a, b, p) <==> !LeftOf(b, a, p)
  {
    SideReversed(a, b, p);
  }

  /** An edge that straddles is crossed exactly when the point is on the left of it going up, or not on the left of it
      going down. */
  lemma CrossesByHalfPlane(p: Point, a: Point, b: Point)
    requires Straddles(p, a, b)
    ensures Crosses(p, a, b) <==> (LeftOf(a, b, p) == (b.y > a.y))
  {
    CrossesBySide(p, a, b);
  }

  predicate LeftOfAll(p: Point, a: Point, b: Point, c: Point) {
    LeftOf(a, b, p) && LeftOf(b, c, p) && LeftOf(c, a, p)
  }

  /** A level edge runs to the right exactly when a counter-clockwise triangle lies above it. */
  lemma LevelEdge(a: Point, b: Point, c: Point)
    requires Side(a, b, c) > 0.0 && a.y == b.y
    ensures c.y != a.y && (b.x > a.x <==> c.y > a.y)
  {
    assert Side(a, b, c) == (b.x - a.x) * (c.y - a.y);
    ProductSigns(b.x - a.x, c.y - a.y);
  }

  lemma SideCycle(a: Point, b: Point, c: Point)
    ensures Side(a, b, c) == Side(b, c, a) == Side(c, a, b)
  {
  }

  lemma CounterClockwiseExact(p: Point, a: Point, b: Point, c: Point)
    requires Side(a, b, c) > 0.0
    ensures Inside(p, [a, b, c]) <==> LeftOfAll(p, a, b, c)
  {
    TriangleInside(p, a, b, c);
    SideCycle(a, b, c);
    if Straddles(p, a, b) && Straddles(p, c, a) {
      Apex(p, a, b, c);
    } else if Straddles(p, a, b) && Straddles(p, b, c) {
      Apex(p, b, c, a);
    } else if Straddles(p, b, c) && Straddles(p, c, a) {
      Apex(p, c, a, b);
    } else {
      LevelTriangle(p, a, b, c);
    }
  }

  /** The case in which the line through the point cuts off the vertex `a`. */
  lemma Apex(p: Point, a: Point, b: Point, c: Point)
    requires Straddles(p, a, b) && Straddles(p, c, a) && Side(a, b, c) > 0.0
    ensures !Straddles(p, b, c)
    ensures Crosses(p, a, b) != Crosses(p, c, a) <==> LeftOfAll(p, a, b, c)
  {
    CrossesByHalfPlane(p, a, b);
    CrossesByHalfPlane(p, c, a);
    SidesSum(a, b, c, p);
    SideCycle(a, b, c);
    var ab, bc, ca := Side(a, b, p), Side(b, c, p), Side(c, a, p);
    if a.y > p.y {
      ApexAbove(ab, bc, ca, a.y - p.y, b.y - p.y, c.y - p.y);
    } else {
      ApexBelow(ab, bc, ca, a.y - p.y, b.y - p.y, c.y - p.y);
    }
    if b.y == c.y {
      LevelEdge(b, c, a);
    }
  }

  lemma ApexAbove(ab: real, bc: real, ca: real, ya: real, yb: real, yc: real)
    requires ab + bc + ca > 0.0 && ab * yc + bc * ya + ca * yb == 0.0
    requires ya > 0.0 >= yb && 0.0 >= yc
    ensures ab > 0.0 || ca > 0.0
    ensures ab >= 0.0 && ca >= 0.0 ==> bc >= 0.0
    ensures ab >= 0.0 && ca > 0.0 && bc == 0.0 ==> yb == 0.0 && (ab > 0.0 ==> yc == 0.0)
  {
    ProductSigns(ab, yc);
    ProductSigns(bc, ya);
    ProductSigns(ca, yb);
  }

  lemma ApexBelow(ab: real, bc: real, ca: real, ya: real, yb: real, yc: real)
    requires ab + bc + ca > 0.0 && ab * yc + bc * ya + ca * yb == 0.0
    requires ya <= 0.0 < yb && 0.0 < yc
    ensures ab > 0.0 || ca >= 0.0
    ensures ab > 0.0 && ca >= 0.0 ==> bc > 0.0
  {
    ProductSigns(ab, yc);
    ProductSigns(bc, ya);
    ProductSigns(ca, yb);
  }

  lemma ProductSigns(u: real, v: real)
    ensures (u > 0.0 && v > 0.0) || (u < 0.0 && v < 0.0) <==> u * v > 0.0
    ensures (u > 0.0 && v < 0.0) || (u < 0.0 && v > 0.0) <==> u * v < 0.0
  {
  }

  /** The case in which all three vertices are on one side: nothing is crossed, and the point is not on the left of all
      three edges. */
  lemma LevelTriangle(p: Point, a: Point, b: Point, c: Point)
    requires !Straddles(p, a, b) && !Straddles(p, b, c) && !Straddles(p, c, a)
    requires Side(a, b, c) > 0.0
    ensures !LeftOfAll(p, a, b, c)
  {
    SidesSum(a, b, c, p);
    SideCycle(a, b, c);
    LevelSigns(Side(a, b, p), Side(b, c, p), Side(c, a, p), a.y - p.y, b.y - p.y, c.y - p.y);
    if a.y == b.y {
      LevelEdge(a, b, c);
    }
    if b.y == c.y {
      LevelEdge(b, c, a);
    }
    if c.y == a.y {
      LevelEdge(c, a, b);
    }
  }

  lemma LevelSigns(ab: real, bc: real, ca: real, ya: real, yb: real, yc: real)
    requires ab + bc + ca > 0.0 && ab * yc + bc * ya + ca * yb == 0.0
    requires (ya > 0.0 && yb > 0.0 && yc > 0.0) || (ya <= 0.0 && yb <= 0.0 && yc <= 0.0)
    ensures ab >= 0.0 && bc >= 0.0 && ca >= 0.0 ==>
              ya <= 0.0 && (ab == 0.0 || yc == 0.0) && (bc == 0.0 || ya == 0.0) && (ca == 0.0 || yb == 0.0)
  {
    ProductSigns(ab, yc);
    ProductSigns(bc, ya);
    ProductSigns(ca, yb);
  }

  /** Inside a triangle by half-planes, whichever way round it is given; a flat triangle contains nothing. */
  predicate Within(p: Point, a: Point, b: Point, c: Point) {
    if Side(a, b, c) > 0.0 then LeftOfAll(p, a, b, c) else Side(a, b, c) < 0.0 && LeftOfAll(p, a, c, b)
  }

  /** For every triangle and every point, boundary included, the test agrees with the half-planes. */
  lemma TriangleExact(p: Point, a: Point, b: Point, c: Point)
    ensures Inside(p, [a, b, c]) <==> Within(p, a, b, c)
  {
    if Side(a, b, c) > 0.0 {
      CounterClockwiseExact(p, a, b, c);
    } else if Side(a, b, c) < 0.0 {
      OtherWayRound(p, a, b, c);
      CounterClockwiseExact(p, a, c, b);
    } else {
      FlatIsEmpty(p, a, b, c);
    }
  }

  lemma OtherWayRound(p: Point, a: Point, b: Point, c: Point)
    ensures Inside(p, [a, c, b]) == Inside(p, [a, b, c])
    ensures Side(a, c, b) == -Side(a, b, c)
  {
    TriangleInside(p, a, b, c);
    TriangleInside(p, a, c, b);
    CrossesSymmetric(p, a, b);
    CrossesSymmetric(p, b, c);
    CrossesSymmetric(p, c, a);
  }

  lemma FlatIsEmpty(p: Point, a: Point, b: Point, c: Point)
    requires Side(a, b, c) == 0.0
    ensures !Inside(p, [a, b, c])
  {
    TriangleInside(p, a, b, c);
    SidesSum(a, b, c, p);
    if Straddles(p, a, b) && Straddles(p, c, a) {
      FlatApex(p, a, b, c);
    } else if Straddles(p, a, b) && Straddles(p, b, c) {
      SidesSum(b, c, a, p);
      FlatApex(p, b, c, a);
    } else if Straddles(p, b, c) && Straddles(p, c, a) {
      SidesSum(c, a, b, p);
      FlatApex(p, c, a, b);
    }
  }

  lemma FlatApex(p: Point, a: Point, b: Point, c: Point)
    requires Straddles(p, a, b) && Straddles(p, c, a)
    requires Side(a, b, p) + Side(b, c, p) + Side(c, a, p) == 0.0
    ensures !Straddles(p, b, c) && Crosses(p, a, b) == Crosses(p, c, a)
  {
    CrossesBySide(p, a, b);
    CrossesBySide(p, c, a);
    SidesSum(a, b, c, p);
    FlatSigns(Side(a, b, p), Side(b, c, p), Side(c, a, p), a.y - p.y, b.y - p.y, c.y - p.y);
  }

  lemma FlatSigns(ab: real, bc: real, ca: real, ya: real, yb: real, yc: real)
    requires ab + bc + ca == 0.0 && ab * yc + bc * ya + ca * yb == 0.0
    ensures ya > 0.0 >= yb && 0.0 >= yc ==> (ab < 0.0 <==> ca > 0.0)
    ensures ya <= 0.0 < yb && 0.0 < yc ==> (ab > 0.0 <==> ca < 0.0)
  {
    EliminateMiddle(ab, bc, ca, ya, yb, yc);
    ProductSigns(ab, yc - ya);
    ProductSigns(ca, yb - ya);
  }

  lemma EliminateMiddle(ab: real, bc: real, ca: real, ya: real, yb: real, yc: real)
    requires ab + bc + ca == 0.0 && ab * yc + bc * ya + ca * yb == 0.0
    ensures ab * (yc - ya) + ca * (yb - ya) == 0.0
  {
    assert bc * ya == -ab * ya - ca * ya by {
      assert bc == -ab - ca;
    }
  }

  /** Parity of the fan triangles that contain the point. */
  predicate FanParity(p: Point, vs: Polygon) {
    if |vs| < 3 then false
    else FanParity(p, vs[..|vs| - 1]) != Inside(p, [vs[0], vs[|vs| - 2], vs[|vs| - 1]])
  }

  /** Every polygon, simple or not, is decided by the triangles of its fan: the even-odd rule. */
  lemma {:induction false} FanDecomposition(p: Point, vs: Polygon)
    ensures Inside(p, vs) == FanParity(p, vs)
  {
    var n := |vs| - 1;
    if n == 0 {
      assert !Crosses(p, vs[0], vs[0]);
    } else if n == 1 {
      PathStep(p, [vs[0]], vs[1]);
      assert [vs[0]] + [vs[1]] == vs;
      CrossesSymmetric(p, vs[0], vs[1]);
    } else if n > 1 {
      FanDecomposition(p, vs[..n]);
      ChordSplit(p, vs, 0, n - 1);
      assert vs[0..n] == vs[..n];
      assert vs[n - 1..] + vs[..1] == [vs[n - 1], vs[n]] + [vs[0]];
      RotationInvariant(p, [vs[n - 1], vs[n]], [vs[0]]);
      assert [vs[0]] + [vs[n - 1], vs[n]] == [vs[0], vs[n - 1], vs[n]];
    }
  }

  /** How many triangles of the fan contain the point, by half-planes. */
  function FanCount(p: Point, vs: Polygon): nat {
    if |vs| < 3 then 0
    else FanCount(p, vs[..|vs| - 1]) + if Within(p, vs[0], vs[|vs| - 2], vs[|vs| - 1]) then 1 else 0
  }

  /** The even-odd rule: any point is inside a polygon, of whatever shape and orientation, if and only if an odd
      number of the fan's triangles contain it. */
  lemma EvenOddRule(p: Point, vs: Polygon)
    ensures Inside(p, vs) <==> FanCount(p, vs) % 2 == 1
  {
    FanDecomposition(p, vs);
    FanParityCounts(p, vs);
  }

  lemma {:induction false} FanParityCounts(p: Point, vs: Polygon)
    ensures FanParity(p, vs) <==> FanCount(p, vs) % 2 == 1
  {
    if |vs| >= 3 {
      FanParityCounts(p, vs[..|vs| - 1]);
      TriangleExact(p, vs[0], vs[|vs| - 2], vs[|vs| - 1]);
    }
  }

  // ---------- Convex polygons ----------

  /** Convex and counter-clockwise: any three vertices, in order, turn left. */
  ghost predicate Convex(vs: Polygon) {
    forall i, j, k :: 0 <= i < j < k < |vs| ==> Side(vs[i], vs[j], vs[k]) > 0.0
  }

  /** On the left of every edge. */
  ghost predicate LeftOfEdges(p: Point, vs: Polygon)
    requires vs != []
  {
    LeftOfPath(p, vs) && LeftOf(vs[|vs| - 1], vs[0], p)
  }

  ghost predicate LeftOfPath(p: Point, vs: Polygon) {
    forall i :: 0 <= i < |vs| - 1 ==> LeftOf(vs[i], vs[i + 1], p)
  }

  predicate LeftOfVector(dx: real, dy: real, qx: real, qy: real) {
    dx * qy - dy * qx > 0.0 || (dx * qy - dy * qx == 0.0 && (dy < 0.0 || (dy == 0.0 && dx > 0.0)))
  }

  /** A direction between two others is a positive combination of them. */
  lemma Combination(fx: real, fy: real, hx: real, hy: real, gx: real, gy: real, qx: real, qy: real)
    ensures (hx * qy - hy * qx) * (fx * gy - fy * gx)
         == (hx * gy - hy * gx) * (fx * qy - fy * qx) + (fx * hy - fy * hx) * (gx * qy - gy * qx)
    ensures hx * (fx * gy - fy * gx) == fx * (hx * gy - hy * gx) + gx * (fx * hy - fy * hx)
    ensures hy * (fx * gy - fy * gx) == fy * (hx * gy - hy * gx) + gy * (fx * hy - fy * hx)
  {
  }

  lemma PositiveSum(w: real, u: real, v: real, h: real, f: real, g: real)
    requires w > 0.0 && u > 0.0 && v > 0.0 && h * w == f * u + g * v
    ensures f >= 0.0 && g >= 0.0 ==> h >= 0.0 && (h == 0.0 ==> f == 0.0 && g == 0.0)
    ensures f <= 0.0 && g <= 0.0 ==> h <= 0.0 && (h == 0.0 ==> f == 0.0 && g == 0.0)
  {
    ProductSigns(h, w);
    ProductSigns(f, u);
    ProductSigns(g, v);
  }

  /** What is on the left of two directions is on the left of every direction between them. */
  lemma LeftOfBetween(fx: real, fy: real, hx: real, hy: real, gx: real, gy: real, qx: real, qy: real)
    requires fx * hy - fy * hx > 0.0 && hx * gy - hy * gx > 0.0 && fx * gy - fy * gx > 0.0
    requires LeftOfVector(fx, fy, qx, qy) && LeftOfVector(gx, gy, qx, qy)
    ensures LeftOfVector(hx, hy, qx, qy)
  {
    var w, u, v := fx * gy - fy * gx, hx * gy - hy * gx, fx * hy - fy * hx;
    Combination(fx, fy, hx, hy, gx, gy, qx, qy);
    PositiveSum(w, u, v, hx * qy - hy * qx, fx * qy - fy * qx, gx * qy - gy * qx);
    PositiveSum(w, u, v, hx, fx, gx);
    PositiveSum(w, u, v, hy, fy, gy);
  }

  lemma LeftOfIsVector(a: Point, b: Point, p: Point)
    ensures LeftOf(a, b, p) <==> LeftOfVector(b.x - a.x, b.y - a.y, p.x - a.x, p.y - a.y)
    ensures LeftOf(a, b, p) <==> LeftOfVector(b.x - a.x, b.y - a.y, p.x - b.x, p.y - b.y)
  {
    assert Side(a, b, p) == (b.x - a.x) * (p.y - b.y) - (b.y - a.y) * (p.x - b.x);
  }

  /** At a vertex `u` between an edge from `x` and an edge to `z`: an edge to `w` that leaves between them. */
  lemma BetweenOut(x: Point, u: Point, w: Point, z: Point, p: Point)
    requires Side(x, u, w) > 0.0 && Side(u, w, z) > 0.0 && Side(x, u, z) > 0.0
    requires LeftOf(x, u, p) && LeftOf(u, z, p)
    ensures LeftOf(u, w, p)
  {
    LeftOfIsVector(x, u, p);
    LeftOfIsVector(u, z, p);
    LeftOfIsVector(u, w, p);
    TurnsAt(x, u, w, z);
    LeftOfBetween(u.x - x.x, u.y - x.y, w.x - u.x, w.y - u.y, z.x - u.x, z.y - u.y, p.x - u.x, p.y - u.y);
  }

  /** And an edge from `w` that arrives between them. */
  lemma BetweenIn(x: Point, u: Point, w: Point, z: Point, p: Point)
    requires Side(x, w, u) > 0.0 && Side(w, u, z) > 0.0 && Side(x, u, z) > 0.0
    requires LeftOf(x, u, p) && LeftOf(u, z, p)
    ensures LeftOf(w, u, p)
  {
    LeftOfIsVector(x, u, p);
    LeftOfIsVector(u, z, p);
    LeftOfIsVector(w, u, p);
    TurnsAt(x, u, w, z);
    LeftOfBetween(u.x - x.x, u.y - x.y, u.x - w.x, u.y - w.y, z.x - u.x, z.y - u.y, p.x - u.x, p.y - u.y);
  }

  lemma TurnsAt(x: Point, u: Point, w: Point, z: Point)
    ensures Side(x, u, w) == (u.x - x.x) * (w.y - u.y) - (u.y - x.y) * (w.x - u.x)
    ensures Side(x, u, z) == (u.x - x.x) * (z.y - u.y) - (u.y - x.y) * (z.x - u.x)
    ensures Side(u, w, z) == (w.x - u.x) * (z.y - u.y) - (w.y - u.y) * (z.x - u.x)
    ensures Side(x, w, u) == (u.x - x.x) * (u.y - w.y) - (u.y - x.y) * (u.x - w.x)
    ensures Side(w, u, z) == (u.x - w.x) * (z.y - u.y) - (u.y - w.y) * (z.x - u.x)
  {
  }

  /** A point of the polygon without its last vertex is on the left of both edges at that vertex. */
  lemma LastCornerContains(p: Point, vs: Polygon)
    requires |vs| >= 4 && Convex(vs) && LeftOfEdges(p, vs[..|vs| - 1])
    ensures LeftOf(vs[|vs| - 2], vs[|vs| - 1], p) && LeftOf(vs[|vs| - 1], vs[0], p)
  {
    var m := |vs| - 1;
    var l, k := m - 1, m - 2;
    assert LeftOf(vs[..m][k], vs[..m][k + 1], p) && LeftOf(vs[..m][0], vs[..m][1], p);
    SideCycle(vs[0], vs[l], vs[m]);
    SideCycle(vs[0], vs[k], vs[l]);
    SideCycle(vs[0], vs[1], vs[m]);
    SideCycle(vs[0], vs[1], vs[l]);
    BetweenOut(vs[k], vs[l], vs[m], vs[0], p);
    BetweenIn(vs[l], vs[0], vs[m], vs[1], p);
  }

  /** A point of the triangle at the last vertex is on the left of all the other edges. */
  lemma LastTriangleContains(p: Point, vs: Polygon)
    requires |vs| >= 4 && Convex(vs) && LeftOfAll(p, vs[0], vs[|vs| - 2], vs[|vs| - 1])
    ensures LeftOfPath(p, vs[..|vs| - 1])
  {
    var m := |vs| - 1;
    var l := m - 1;
    forall i | 0 <= i < m - 1 ensures LeftOf(vs[..m][i], vs[..m][i + 1], p) {
      if i == 0 {
        FromFirst(p, vs, 1);
      } else if i + 1 == l {
        ToLast(p, vs, i);
      } else {
        FromFirst(p, vs, i + 1);
        ToLast(p, vs, i + 1);
        BetweenIn(vs[0], vs[i + 1], vs[i], vs[l], p);
      }
    }
  }

  lemma FromFirst(p: Point, vs: Polygon, j: nat)
    requires 0 < j < |vs| - 2 && Convex(vs) && LeftOfAll(p, vs[0], vs[|vs| - 2], vs[|vs| - 1])
    ensures LeftOf(vs[0], vs[j], p)
  {
    var m := |vs| - 1;
    SideCycle(vs[0], vs[j], vs[m]);
    SideCycle(vs[0], vs[m - 1], vs[m]);
    BetweenOut(vs[m], vs[0], vs[j], vs[m - 1], p);
  }

  lemma ToLast(p: Point, vs: Polygon, j: nat)
    requires 0 < j < |vs| - 2 && Convex(vs) && LeftOfAll(p, vs[0], vs[|vs| - 2], vs[|vs| - 1])
    ensures LeftOf(vs[j], vs[|vs| - 2], p)
  {
    var m := |vs| - 1;
    BetweenIn(vs[0], vs[m - 1], vs[j], vs[m], p);
  }

  /** For every convex polygon and every point, boundary included: inside means on the left of every edge. A point
      strictly left of all edges is inside, one strictly right of some edge is outside, and convex polygons that tile a
      region claim each of its points once. */
  lemma {:induction false} ConvexExact(p: Point, vs: Polygon)
    requires |vs| >= 3 && Convex(vs)
    ensures Inside(p, vs) <==> LeftOfEdges(p, vs)
  {
    var m := |vs| - 1;
    var a, b, c := vs[0], vs[m - 1], vs[m];
    CounterClockwiseExact(p, a, b, c);
    if m == 2 {
      assert vs == [a, b, c];
      assert LeftOfPath(p, vs) <==> LeftOf(vs[0], vs[0 + 1], p) && LeftOf(vs[1], vs[1 + 1], p);
    } else {
      var rest := vs[..m];
      ConvexExact(p, rest);
      FanDecomposition(p, vs);
      FanDecomposition(p, rest);
      assert a != b by { SideOfSame(a, c); }
      LeftOfOneDirection(a, b, p);
      LeftOfLonger(p, vs);
      if LeftOfEdges(p, rest) {
        LastCornerContains(p, vs);
      }
      if LeftOfAll(p, a, b, c) {
        LastTriangleContains(p, vs);
      }
    }
  }

  lemma SideOfSame(a: Point, c: Point)
    ensures Side(a, a, c) == 0.0
  {
  }

  lemma LeftOfLonger(p: Point, vs: Polygon)
    requires |vs| >= 2
    ensures LeftOfPath(p, vs)
       <==> LeftOfPath(p, vs[..|vs| - 1]) && LeftOf(vs[|vs| - 2], vs[|vs| - 1], p)
  {
    var m := |vs| - 1;
    if LeftOfPath(p, vs[..m]) && LeftOf(vs[m - 1], vs[m], p) {
      forall i | 0 <= i < m ensures LeftOf(vs[i], vs[i + 1], p) {
        if i < m - 1 {
          assert LeftOf(vs[..m][i], vs[..m][i + 1], p);
        }
      }
    }
    if LeftOfPath(p, vs) {
      assert LeftOf(vs[m - 1], vs[m - 1 + 1], p);
      forall i | 0 <= i < m - 1 ensures LeftOf(vs[..m][i], vs[..m][i + 1], p) {
        assert LeftOf(vs[i], vs[i + 1], p);
      }
    }
  }
}

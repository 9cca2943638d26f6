/** Ear-clipping triangulation of a fare-region polygon, and the area it conserves. */
module EarClipping {
  import opened Prelude

  /** Near-flat vertices and shallow containment are judged against this bound. */
  const FLAT: real := 0.0001

  function Det(a: Point, b: Point): real { a.x * b.y - a.y * b.x }

  /** Twice the signed area of a triangle, positive when counter-clockwise. */
  function Cross(a: Point, b: Point, c: Point): real {
    (b.x - a.x) * (c.y - a.y) - (b.y - a.y) * (c.x - a.x)
  }

  lemma {:induction false} CrossIsDets(a: Point, b: Point, c: Point)
    ensures Cross(a, b, c) == Det(a, b) + Det(b, c) + Det(c, a)
  {
  }

  // ---------- the algorithm as a function ----------

  function Before(n: nat, i: nat): nat
    requires i < n
  {
    if i == 0 then n - 1 else i - 1
  }

  function After(n: nat, i: nat): nat
    requires i < n
  {
    if i == n - 1 then 0 else i + 1
  }

  function CornerCross(vs: seq<Point>, i: nat): real
    requires i < |vs|
  {
    Cross(vs[Before(|vs|, i)], vs[i], vs[After(|vs|, i)])
  }

  /** Vertex `k` lies strictly inside the clockwise corner at `i`. */
  predicate Inside(vs: seq<Point>, i: nat, k: nat)
    requires i < |vs| && k < |vs|
  {
    var previous, current, following := vs[Before(|vs|, i)], vs[i], vs[After(|vs|, i)];
    && k != Before(|vs|, i) && k != i && k != After(|vs|, i)
    && Cross(previous, current, vs[k]) < -FLAT
    && Cross(current, following, vs[k]) < -FLAT
    && Cross(following, previous, vs[k]) < -FLAT
  }

  predicate Flat(vs: seq<Point>, i: nat)
    requires i < |vs|
  {
    Abs(CornerCross(vs, i)) <= FLAT
  }

  /** A clockwise corner that holds no other vertex. */
  predicate Ear(vs: seq<Point>, i: nat)
    requires i < |vs|
  {
    && !Flat(vs, i)
    && CornerCross(vs, i) <= 0.0
    && forall k :: 0 <= k < |vs| ==> !Inside(vs, i, k)
  }

  predicate Removable(vs: seq<Point>, i: nat)
    requires i < |vs|
  {
    Flat(vs, i) || Ear(vs, i)
  }

  /** The first removable vertex at or after `i`. */
  function FirstRemovable(vs: seq<Point>, i: nat): (r: Option<nat>)
    requires i <= |vs|
    ensures r.Some? ==> i <= r.value < |vs| && Removable(vs, r.value)
    ensures forall k :: i <= k < |vs| && (r.None? || k < r.value) ==> !Removable(vs, k)
    decreases |vs| - i
  {
    if i == |vs| then None
    else if Removable(vs, i) then Some(i)
    else FirstRemovable(vs, i + 1)
  }

  function RemoveAt(vs: seq<Point>, i: nat): (r: seq<Point>)
    requires i < |vs|
    ensures |r| == |vs| - 1
    ensures forall p :: p in r ==> p in vs
  {
    vs[..i] + vs[i + 1..]
  }

  /** Clipped ears with the remainder last, and the near-flat corners dropped on the way. */
  datatype Mesh = Mesh(triangles: seq<seq<Point>>, dropped: seq<real>)

  function Corner(vs: seq<Point>, i: nat): seq<Point>
    requires i < |vs|
  {
    [vs[Before(|vs|, i)], vs[i], vs[After(|vs|, i)]]
  }

  function Triangulation(vs: seq<Point>): Option<Mesh>
    decreases |vs|
  {
    if |vs| <= 3 then Some(Mesh([vs], []))
    else
      match FirstRemovable(vs, 0)
      case None => None
      case Some(i) =>
        match Triangulation(RemoveAt(vs, i))
        case None => None
        case Some(mesh) =>
          Some(if Flat(vs, i) then Mesh(mesh.triangles, [CornerCross(vs, i)] + mesh.dropped)
               else Mesh([Corner(vs, i)] + mesh.triangles, mesh.dropped))
  }

  // ---------- area ----------

  /** Sum of the determinants along an open chain of vertices. */
  function ChainSum(vs: seq<Point>): real {
    if |vs| <= 1 then 0.0 else ChainSum(vs[..|vs| - 1]) + Det(vs[|vs| - 2], vs[|vs| - 1])
  }

  /** Twice the signed area of a closed polygon (shoelace formula). */
  function TwiceArea(vs: seq<Point>): real {
    if vs == [] then 0.0 else ChainSum(vs) + Det(vs[|vs| - 1], vs[0])
  }

  lemma {:induction false} ChainJoin(a: seq<Point>, b: seq<Point>)
    requires a != [] && b != []
    ensures ChainSum(a + b) == ChainSum(a) + Det(a[|a| - 1], b[0]) + ChainSum(b)
    decreases |b|
  {
    if |b| == 1 {
      assert (a + b)[..|a + b| - 1] == a;
    } else {
      var b' := b[..|b| - 1];
      assert (a + b)[..|a + b| - 1] == a + b';
      ChainJoin(a, b');
    }
  }

  lemma {:induction false} SplitArea(left: seq<Point>, v: Point, right: seq<Point>)
    requires left != [] && right != []
    ensures TwiceArea(left + [v] + right) == TwiceArea(left + right) + Cross(left[|left| - 1], v, right[0])
  {
    var p, q := left[|left| - 1], right[0];
    CrossIsDets(p, v, q);
    DetSwap(p, q);
    ChainJoin(left, [v]);
    ChainJoin(left + [v], right);
    ChainJoin(left, right);
    assert ChainSum([v]) == 0.0;
  }

  lemma {:induction false} EndArea(v: Point, rest: seq<Point>)
    requires rest != []
    ensures TwiceArea([v] + rest) == TwiceArea(rest) + Cross(rest[|rest| - 1], v, rest[0])
    ensures TwiceArea(rest + [v]) == TwiceArea(rest) + Cross(rest[|rest| - 1], v, rest[0])
  {
    var p, q := rest[|rest| - 1], rest[0];
    CrossIsDets(p, v, q);
    DetSwap(p, q);
    ChainJoin([v], rest);
    ChainJoin(rest, [v]);
    assert ChainSum([v]) == 0.0;
  }

  /** Removing a vertex takes exactly its corner away from the area. */
  lemma {:induction false} RemoveArea(vs: seq<Point>, i: nat)
    requires |vs| >= 3 && i < |vs|
    ensures TwiceArea(vs) == TwiceArea(RemoveAt(vs, i)) + CornerCross(vs, i)
  {
    var left, right := vs[..i], vs[i + 1..];
    assert vs == left + [vs[i]] + right;
    if i == 0 {
      EndArea(vs[0], right);
      assert vs == [vs[0]] + right && RemoveAt(vs, i) == right;
    } else if i == |vs| - 1 {
      EndArea(vs[i], left);
      assert vs == left + [vs[i]] && RemoveAt(vs, i) == left;
    } else {
      SplitArea(left, vs[i], right);
    }
  }

  lemma {:induction false} DetSwap(a: Point, b: Point)
    ensures Det(a, b) == -Det(b, a)
  {
  }

  function Sum(xs: seq<real>): real {
    if xs == [] then 0.0 else xs[0] + Sum(xs[1..])
  }

  function TriangleCross(t: seq<Point>): real {
    if |t| == 3 then Cross(t[0], t[1], t[2]) else 0.0
  }

  function CrossSum(triangles: seq<seq<Point>>): real {
    if triangles == [] then 0.0 else TriangleCross(triangles[0]) + CrossSum(triangles[1..])
  }

  /** Area is conserved: the polygon is its triangles plus the corners dropped as flat. */
  lemma {:induction false} AreaConserved(vs: seq<Point>)
    requires |vs| >= 3 && Triangulation(vs).Some?
    ensures var mesh := Triangulation(vs).value;
            TwiceArea(vs) == CrossSum(mesh.triangles) + Sum(mesh.dropped)
    decreases |vs|
  {
    if |vs| == 3 {
      CrossIsDets(vs[0], vs[1], vs[2]);
      assert vs[..2][..1] == vs[..1];
      assert ChainSum(vs[..2]) == Det(vs[0], vs[1]);
      assert CrossSum([vs]) == TriangleCross(vs) by { assert [vs][1..] == []; }
      assert TwiceArea(vs) == Det(vs[0], vs[1]) + Det(vs[1], vs[2]) + Det(vs[2], vs[0]);
    } else {
      var i := FirstRemovable(vs, 0).value;
      RemoveArea(vs, i);
      AreaConserved(RemoveAt(vs, i));
      var rest := Triangulation(RemoveAt(vs, i)).value;
      var mesh := Triangulation(vs).value;
      if Flat(vs, i) {
        assert mesh.dropped[1..] == rest.dropped;
      } else {
        assert mesh.triangles[1..] == rest.triangles;
      }
    }
  }

  /** Each vertex but the last three is one ear or one drop; every drop is flat and every ear properly clockwise. */
  lemma {:induction false} MeshShape(vs: seq<Point>)
    requires |vs| >= 3 && Triangulation(vs).Some?
    ensures var mesh := Triangulation(vs).value;
            && mesh.triangles != []
            && |mesh.triangles| + |mesh.dropped| == |vs| - 2
            && (forall k :: 0 <= k < |mesh.dropped| ==> Abs(mesh.dropped[k]) <= FLAT)
            && (forall k :: 0 <= k < |mesh.triangles| ==> |mesh.triangles[k]| == 3)
            && (forall k :: 0 <= k < |mesh.triangles| - 1 ==> TriangleCross(mesh.triangles[k]) < -FLAT)
            && (forall t :: t in mesh.triangles ==> forall p :: p in t ==> p in vs)
    decreases |vs|
  {
    if |vs| > 3 {
      MeshShape(RemoveAt(vs, FirstRemovable(vs, 0).value));
    }
  }

  lemma {:induction false} OneMore(n: int, bound: real)
    ensures (n + 1) as real * bound == n as real * bound + bound
  {
  }

  lemma {:induction false} SumBounded(xs: seq<real>, bound: real)
    requires forall k :: 0 <= k < |xs| ==> Abs(xs[k]) <= bound
    ensures Abs(Sum(xs)) <= |xs| as real * bound
  {
    if xs != [] {
      SumBounded(xs[1..], bound);
      OneMore(|xs| - 1, bound);
      var rest := (|xs| - 1) as real * bound;
      assert Abs(Sum(xs[1..])) <= rest;
      assert |xs| as real * bound == rest + bound;
    } else {
      assert |xs| as real * bound == 0.0;
    }
  }

  /** The triangles miss the polygon's area by at most FLAT per dropped vertex. */
  lemma {:induction false} AreaError(vs: seq<Point>)
    requires |vs| >= 3 && Triangulation(vs).Some?
    ensures var mesh := Triangulation(vs).value;
            && |mesh.dropped| <= |vs| - 3
            && Abs(TwiceArea(vs) - CrossSum(mesh.triangles)) <= |mesh.dropped| as real * FLAT
  {
    AreaConserved(vs);
    MeshShape(vs);
    SumBounded(Triangulation(vs).value.dropped, FLAT);
  }

  function AbsSum(triangles: seq<seq<Point>>): real {
    if triangles == [] then 0.0 else Abs(TriangleCross(triangles[0])) + AbsSum(triangles[1..])
  }

  lemma {:induction false} AbsOfClockwise(triangles: seq<seq<Point>>)
    requires triangles != []
    requires forall k :: 0 <= k < |triangles| - 1 ==> TriangleCross(triangles[k]) <= 0.0
    ensures var last := TriangleCross(triangles[|triangles| - 1]);
            AbsSum(triangles) == -CrossSum(triangles) + (if last > 0.0 then 2.0 * last else 0.0)
  {
    if |triangles| > 1 {
      AbsOfClockwise(triangles[1..]);
      assert forall k :: 0 <= k < |triangles| - 1 ==> triangles[1..][k] == triangles[k + 1];
    } else {
      assert triangles[1..] == [];
    }
  }

  /**
   * The unsigned weights used for sampling add up to the clockwise area, up to the dropped corners,
   * exactly when the last triangle left over did not come out counter-clockwise.
   */
  lemma {:induction false} SamplingWeights(vs: seq<Point>)
    requires |vs| >= 3 && Triangulation(vs).Some?
    ensures var mesh := Triangulation(vs).value;
            && mesh.triangles != []
            && (AbsSum(mesh.triangles) == -TwiceArea(vs) + Sum(mesh.dropped)
                <==> TriangleCross(mesh.triangles[|mesh.triangles| - 1]) <= 0.0)
  {
    AreaConserved(vs);
    MeshShape(vs);
    AbsOfClockwise(Triangulation(vs).value.triangles);
  }

  // ---------- which polygons succeed ----------

  function Turn(vs: seq<Point>, i: nat, j: nat, k: nat): real
    requires i < |vs| && j < |vs| && k < |vs|
  {
    Cross(vs[i], vs[j], vs[k])
  }

  /** No three vertices, in order, turn counter-clockwise. */
  ghost predicate Convex(vs: seq<Point>) {
    forall i: nat, j: nat, k: nat :: i < j < k < |vs| ==> Turn(vs, i, j, k) <= 0.0
  }

  /** Every three vertices, in order, turn counter-clockwise by more than the flat bound. */
  ghost predicate Backwards(vs: seq<Point>) {
    forall i: nat, j: nat, k: nat :: i < j < k < |vs| ==> Turn(vs, i, j, k) > FLAT
  }

  lemma {:induction false} CrossTurns(a: Point, b: Point, c: Point)
    ensures Cross(a, b, c) == Cross(b, c, a) == Cross(c, a, b) == -Cross(b, a, c)
  {
    CrossIsDets(a, b, c);
    CrossIsDets(b, c, a);
    CrossIsDets(c, a, b);
    CrossIsDets(b, a, c);
    DetSwap(a, b);
    DetSwap(b, c);
    DetSwap(c, a);
  }

  lemma {:induction false} ConvexFirst(vs: seq<Point>)
    requires |vs| > 3 && Convex(vs)
    ensures CornerCross(vs, 0) <= 0.0 && Removable(vs, 0)
  {
    var n := |vs|;
    CrossTurns(vs[n - 1], vs[0], vs[1]);
    assert Turn(vs, 0, 1, n - 1) <= 0.0;
    forall k | 0 <= k < n ensures !Inside(vs, 0, k) {
      if 1 < k < n - 1 {
        CrossTurns(vs[1], vs[k], vs[n - 1]);
        CrossTurns(vs[n - 1], vs[1], vs[k]);
        CrossTurns(vs[k], vs[1], vs[n - 1]);
        assert Turn(vs, 1, k, n - 1) <= 0.0;
      }
    }
  }

  lemma {:induction false} RestConvex(vs: seq<Point>)
    requires |vs| > 3 && Convex(vs)
    ensures RemoveAt(vs, 0) == vs[1..] && Convex(vs[1..])
  {
    forall i: nat, j: nat, k: nat | i < j < k < |vs[1..]| ensures Turn(vs[1..], i, j, k) <= 0.0 {
      assert Turn(vs, i + 1, j + 1, k + 1) <= 0.0;
    }
  }

  /** A clockwise triangle at the point `p`. */
  predicate FanTriangle(t: seq<Point>, p: Point) { p in t && TriangleCross(t) <= 0.0 }

  ghost predicate Fan(triangles: seq<seq<Point>>, p: Point) {
    forall t :: t in triangles ==> FanTriangle(t, p)
  }

  lemma {:induction false} ConvexStep(vs: seq<Point>)
    requires |vs| > 3 && Convex(vs)
    ensures FirstRemovable(vs, 0) == Some(0) && FanTriangle(Corner(vs, 0), vs[|vs| - 1])
  {
    ConvexFirst(vs);
    assert Corner(vs, 0)[0] == vs[|vs| - 1];
  }

  /** The triangulation is a fan about the last vertex. */
  ghost predicate Fanned(vs: seq<Point>) {
    vs != [] && Triangulation(vs).Some? && Fan(Triangulation(vs).value.triangles, vs[|vs| - 1])
  }

  lemma {:induction false} ConvexLast(vs: seq<Point>)
    requires |vs| == 3 && Convex(vs)
    ensures Fanned(vs)
  {
    assert Turn(vs, 0, 1, 2) <= 0.0;
    assert Triangulation(vs).value.triangles == [vs];
  }

  lemma {:induction false} FanStep(vs: seq<Point>)
    requires |vs| > 3 && FirstRemovable(vs, 0) == Some(0) && RemoveAt(vs, 0) == vs[1..]
    requires Fanned(vs[1..]) && FanTriangle(Corner(vs, 0), vs[|vs| - 1])
    ensures Fanned(vs)
  {
    assert vs[1..][|vs[1..]| - 1] == vs[|vs| - 1];
  }

  lemma {:induction false} ConvexFan(vs: seq<Point>)
    requires |vs| >= 3 && Convex(vs)
    ensures Fanned(vs)
    decreases |vs|
  {
    if |vs| == 3 {
      ConvexLast(vs);
    } else {
      RestConvex(vs);
      ConvexStep(vs);
      ConvexFan(vs[1..]);
      FanStep(vs);
    }
  }

  lemma {:induction false} FanWeights(vs: seq<Point>, p: Point)
    requires |vs| >= 3 && Triangulation(vs).Some? && Fan(Triangulation(vs).value.triangles, p)
    ensures var mesh := Triangulation(vs).value; AbsSum(mesh.triangles) == -TwiceArea(vs) + Sum(mesh.dropped)
  {
    SamplingWeights(vs);
    var triangles := Triangulation(vs).value.triangles;
    assert FanTriangle(triangles[|triangles| - 1], p);
  }

  /** A convex clockwise polygon is cut into a fan about its last vertex, and its sampling weights are right. */
  lemma {:induction false} ConvexSucceeds(vs: seq<Point>)
    requires |vs| >= 3 && Convex(vs)
    ensures Triangulation(vs).Some?
    ensures var mesh := Triangulation(vs).value;
            Fan(mesh.triangles, vs[|vs| - 1]) && AbsSum(mesh.triangles) == -TwiceArea(vs) + Sum(mesh.dropped)
  {
    ConvexFan(vs);
    FanWeights(vs, vs[|vs| - 1]);
  }

  /** A convex polygon given counter-clockwise is rejected. */
  lemma {:induction false} BackwardsFails(vs: seq<Point>)
    requires |vs| > 3 && Backwards(vs)
    ensures Triangulation(vs) == None
  {
    var n := |vs|;
    forall i | 0 <= i < n ensures !Removable(vs, i) {
      var p, q := Before(n, i), After(n, i);
      CrossTurns(vs[p], vs[i], vs[q]);
      CrossTurns(vs[i], vs[q], vs[p]);
      if i == 0 {
        assert Turn(vs, i, q, p) > FLAT;
      } else if i == n - 1 {
        assert Turn(vs, q, p, i) > FLAT;
      } else {
        assert Turn(vs, p, i, q) > FLAT;
      }
    }
  }

  /** Right weights need a clockwise polygon, up to the slack of the dropped corners. */
  lemma {:induction false} RightWeightsAreClockwise(vs: seq<Point>)
    requires |vs| >= 3 && Triangulation(vs).Some?
    requires var mesh := Triangulation(vs).value; AbsSum(mesh.triangles) == -TwiceArea(vs) + Sum(mesh.dropped)
    ensures TwiceArea(vs) <= (|vs| - 3) as real * FLAT
  {
    var mesh := Triangulation(vs).value;
    MeshShape(vs);
    SumBounded(mesh.dropped, FLAT);
    AbsSumNotNegative(mesh.triangles);
    assert |mesh.dropped| as real * FLAT <= (|vs| - 3) as real * FLAT;
  }

  lemma {:induction false} AbsSumNotNegative(triangles: seq<seq<Point>>)
    ensures AbsSum(triangles) >= 0.0
  {
    if triangles != [] {
      AbsSumNotNegative(triangles[1..]);
    }
  }

  // ---------- simple polygons ----------

  /** The lines through two segments show that they do not meet. */
  predicate Apart(a: Point, b: Point, c: Point, d: Point) {
    || (Cross(a, b, c) > 0.0 && Cross(a, b, d) > 0.0) || (Cross(a, b, c) < 0.0 && Cross(a, b, d) < 0.0)
    || (Cross(c, d, a) > 0.0 && Cross(c, d, b) > 0.0) || (Cross(c, d, a) < 0.0 && Cross(c, d, b) < 0.0)
  }

  predicate SidesApart(vs: seq<Point>, i: nat, j: nat)
    requires i < |vs| && j < |vs|
  {
    Apart(vs[i], vs[After(|vs|, i)], vs[j], vs[After(|vs|, j)])
  }

  /** Sides meet only where they follow one another, and there at an angle. */
  ghost predicate Simple(vs: seq<Point>) {
    var n := |vs|;
    && n >= 3
    && (forall i :: 0 <= i < n ==> CornerCross(vs, i) != 0.0)
    && (forall i: nat, j: nat :: i < j < n && After(n, i) != j && After(n, j) != i ==> SidesApart(vs, i, j))
  }

  ghost predicate SimpleClockwise(vs: seq<Point>) { Simple(vs) && TwiceArea(vs) < 0.0 }

  // ---------- four corners ----------

  /** Which of four corners can be popped, from the crosses at it, beside it and opposite. */
  predicate Opens(here: real, beside: real, beyond: real, opposite: real) {
    Abs(here) <= FLAT || (here <= 0.0 && !(beside < -FLAT && beyond < -FLAT && opposite > FLAT))
  }

  /** A fourth point `o` against the corner at `v`, in terms of the four corners. */
  lemma {:induction false} FourthPoint(p: Point, v: Point, q: Point, o: Point)
    ensures Cross(p, v, o) == Cross(o, p, v) && Cross(q, p, o) == -Cross(q, o, p)
    ensures Cross(p, q, o) == Cross(q, o, p) == Cross(o, p, q)
  {
    CrossTurns(o, p, v);
    CrossTurns(q, p, o);
    CrossTurns(p, q, o);
  }

  lemma {:induction false} OppositeInside(vs: seq<Point>, i: nat, b: nat, a: nat, o: nat)
    requires |vs| == 4 && i < 4 && b == Before(4, i) && a == After(4, i) && o == Before(4, b)
    ensures Inside(vs, i, o) <==> CornerCross(vs, b) < -FLAT && CornerCross(vs, a) < -FLAT && CornerCross(vs, o) > FLAT
    ensures !Inside(vs, i, b) && !Inside(vs, i, i) && !Inside(vs, i, a)
  {
    FourthPoint(vs[b], vs[i], vs[a], vs[o]);
  }

  lemma {:induction false} OppositeLeft(vs: seq<Point>, i: nat, b: nat, a: nat, o: nat)
    requires |vs| == 4 && i < 4 && b == Before(4, i) && a == After(4, i) && o == Before(4, b)
    ensures |RemoveAt(vs, i)| == 3 && TriangleCross(RemoveAt(vs, i)) == CornerCross(vs, o)
  {
    FourthPoint(vs[b], vs[i], vs[a], vs[o]);
  }

  lemma {:induction false} QuadrilateralCorner(vs: seq<Point>, i: nat, o: nat)
    requires |vs| == 4 && i < 4 && o == Before(4, Before(4, i))
    ensures Removable(vs, i)
            <==> Opens(CornerCross(vs, i), CornerCross(vs, Before(4, i)), CornerCross(vs, After(4, i)),
                       CornerCross(vs, o))
    ensures |RemoveAt(vs, i)| == 3 && TriangleCross(RemoveAt(vs, i)) == CornerCross(vs, o)
  {
    OppositeInside(vs, i, Before(4, i), After(4, i), o);
    OppositeLeft(vs, i, Before(4, i), After(4, i), o);
    assert (forall k :: 0 <= k < 4 ==> !Inside(vs, i, k)) <==> !Inside(vs, i, o);
  }

  /** Popping corner `i` first leaves one triangle on top of what it clips. */
  lemma {:induction false} QuadrilateralRest(vs: seq<Point>, i: nat)
    requires |vs| == 4 && FirstRemovable(vs, 0) == Some(i)
    ensures Triangulation(vs).Some?
    ensures var triangles := Triangulation(vs).value.triangles;
            triangles != [] && triangles[|triangles| - 1] == RemoveAt(vs, i)
  {
    var rest := RemoveAt(vs, i);
    assert Triangulation(rest) == Some(Mesh([rest], []));
  }

  lemma {:induction false} TwoSum(a: Point, b: Point)
    ensures ChainSum([a]) == 0.0 && ChainSum([a, b]) == Det(a, b)
  {
    assert [a, b][..1] == [a];
  }

  lemma {:induction false} FourSum(a: Point, b: Point, c: Point, d: Point)
    ensures ChainSum([a, b, c, d]) == Det(a, b) + Det(b, c) + Det(c, d)
  {
    TwoSum(a, b);
    TwoSum(c, d);
    ChainJoin([a, b], [c, d]);
    assert [a, b] + [c, d] == [a, b, c, d];
  }

  /** At most one corner turns counter-clockwise. */
  ghost predicate OneReflex(vs: seq<Point>) {
    forall i, j :: 0 <= i < j < |vs| ==> CornerCross(vs, i) <= 0.0 || CornerCross(vs, j) <= 0.0
  }

  lemma {:induction false} OppositeCorners(a: Point, b: Point, c: Point, d: Point)
    ensures TwiceArea([a, b, c, d]) == Cross(d, a, b) + Cross(b, c, d) == Cross(a, b, c) + Cross(c, d, a)
  {
    FourSum(a, b, c, d);
    CrossIsDets(d, a, b);
    CrossIsDets(b, c, d);
    CrossIsDets(a, b, c);
    CrossIsDets(c, d, a);
    DetSwap(d, b);
    DetSwap(a, c);
  }

  /** Two neighbouring corners that both turn counter-clockwise make the sides beside them meet. */
  lemma {:induction false} NeighboursMeet(a: Point, b: Point, c: Point, d: Point)
    requires Cross(d, a, b) > 0.0 && Cross(a, b, c) > 0.0 && Cross(b, c, d) < 0.0 && Cross(c, d, a) < 0.0
    ensures !Apart(b, c, d, a) && !Apart(d, a, b, c)
  {
    CrossTurns(a, b, c);
    CrossTurns(b, c, d);
    CrossTurns(c, d, a);
    CrossTurns(d, a, b);
  }

  /** Every simple clockwise quadrilateral has at most one reflex corner. */
  lemma {:induction false} SimpleOneReflex(vs: seq<Point>)
    requires |vs| == 4 && SimpleClockwise(vs)
    ensures OneReflex(vs)
  {
    var a, b, c, d := vs[0], vs[1], vs[2], vs[3];
    assert vs == [a, b, c, d];
    OppositeCorners(a, b, c, d);
    assert SidesApart(vs, 0, 2) && SidesApart(vs, 1, 3);
    if CornerCross(vs, 0) > 0.0 && CornerCross(vs, 1) > 0.0 {
      NeighboursMeet(a, b, c, d);
    }
    if CornerCross(vs, 1) > 0.0 && CornerCross(vs, 2) > 0.0 {
      NeighboursMeet(b, c, d, a);
    }
    if CornerCross(vs, 2) > 0.0 && CornerCross(vs, 3) > 0.0 {
      NeighboursMeet(c, d, a, b);
    }
    if CornerCross(vs, 3) > 0.0 && CornerCross(vs, 0) > 0.0 {
      NeighboursMeet(d, a, b, c);
    }
  }

  /**
   * A quadrilateral with at most one reflex corner, as every simple clockwise one has, is always triangulated. Its
   * weights are wrong exactly when the third vertex is the reflex one and the first is taken for an ear all the same,
   * some corner being within the flat bound.
   */
  lemma {:induction false} QuadrilateralWeights(vs: seq<Point>)
    requires |vs| == 4 && OneReflex(vs)
    ensures Triangulation(vs).Some?
    ensures var mesh := Triangulation(vs).value;
            AbsSum(mesh.triangles) != -TwiceArea(vs) + Sum(mesh.dropped)
            <==> && CornerCross(vs, 2) > 0.0
                 && (|| Abs(CornerCross(vs, 0)) <= FLAT || CornerCross(vs, 1) >= -FLAT
                     || CornerCross(vs, 2) <= FLAT || CornerCross(vs, 3) >= -FLAT)
  {
    QuadrilateralCorner(vs, 0, 2);
    QuadrilateralCorner(vs, 1, 3);
    QuadrilateralCorner(vs, 2, 0);
    QuadrilateralCorner(vs, 3, 1);
    var i := FirstRemovable(vs, 0).value;
    QuadrilateralRest(vs, i);
    SamplingWeights(vs);
  }

  // ---------- what the tolerance costs ----------

  const P := Point(0.0, 10.0)
  const Q := Point(10.0, 0.0)
  const R := Point(0.00001, 5.0)
  const S := Point(0.0, 0.0)
  const SHALLOW := [P, Q, R, S]

  lemma {:induction false} ShallowIsSimple()
    ensures SimpleClockwise(SHALLOW) && TwiceArea(SHALLOW) == -50.0
  {
    FourSum(P, Q, R, S);
    var vs := SHALLOW;
    assert Cross(S, P, Q) == -100.0;
    assert Cross(P, Q, R) == -49.9999;
    assert Cross(Q, R, S) == 50.0;
    assert Cross(R, S, P) == -FLAT;
    assert Apart(P, Q, R, S) && Apart(Q, R, S, P);
  }

  lemma {:induction false} ShallowPopsFirst()
    ensures FirstRemovable(SHALLOW, 0) == Some(0) && !Flat(SHALLOW, 0)
  {
    var vs := SHALLOW;
    assert Cross(S, P, Q) == -100.0;
    assert Cross(S, P, R) == -FLAT;
    assert CornerCross(vs, 0) == -100.0;
    assert !Inside(vs, 0, 2);
  }

  lemma {:induction false} TwoWeights(a: seq<Point>, b: seq<Point>)
    ensures AbsSum([a, b]) == Abs(TriangleCross(a)) + Abs(TriangleCross(b))
  {
    assert [a, b][1..] == [b];
    assert AbsSum([b]) == Abs(TriangleCross(b));
  }

  lemma {:induction false} ShallowWeights()
    ensures TriangleCross([Q, R, S]) == 50.0 && AbsSum([[S, P, Q], [Q, R, S]]) == 150.0
  {
    TwoWeights([S, P, Q], [Q, R, S]);
    assert Cross(S, P, Q) == -100.0;
    assert Cross(Q, R, S) == 50.0;
  }

  /**
   * A vertex beside a line of a corner escapes the containment test: this simple clockwise polygon gets a triangle
   * turned counter-clockwise, and three times its own area as weight.
   */
  lemma {:induction false} ShallowVertexInverts()
    ensures SimpleClockwise(SHALLOW) && TwiceArea(SHALLOW) == -50.0
    ensures Triangulation(SHALLOW) == Some(Mesh([[S, P, Q], [Q, R, S]], []))
    ensures TriangleCross([Q, R, S]) == 50.0 && AbsSum([[S, P, Q], [Q, R, S]]) == 150.0
  {
    ShallowIsSimple();
    ShallowPopsFirst();
    ShallowWeights();
    assert RemoveAt(SHALLOW, 0) == [Q, R, S];
    assert Triangulation([Q, R, S]) == Some(Mesh([[Q, R, S]], []));
    assert Corner(SHALLOW, 0) == [S, P, Q];
    assert [[S, P, Q]] + [[Q, R, S]] == [[S, P, Q], [Q, R, S]];
  }

  const T := Point(10.0, 10.0)
  const U := Point(5.0, 9.99999)
  const DOUBLY_SHALLOW := [P, T, U, R, S]

  lemma {:induction false} DoublyShallowIsSimple()
    ensures SimpleClockwise(DOUBLY_SHALLOW)
  {
    var vs := DOUBLY_SHALLOW;
    ChainJoin([P, T, U, R], [S]);
    assert [P, T, U, R] + [S] == vs;
    FourSum(P, T, U, R);
    TwoSum(S, S);
    assert Cross(S, P, T) == -100.0;
    assert Cross(P, T, U) == -FLAT;
    assert Cross(T, U, R) != 0.0;
    assert Cross(U, R, S) != 0.0;
    assert Cross(R, S, P) == -FLAT;
    assert Apart(P, T, U, R) && Apart(P, T, R, S) && Apart(T, U, R, S) && Apart(T, U, S, P) && Apart(U, R, S, P);
  }

  lemma {:induction false} DoublyShallowPopsFirst()
    ensures FirstRemovable(DOUBLY_SHALLOW, 0) == Some(0) && !Flat(DOUBLY_SHALLOW, 0)
  {
    var vs := DOUBLY_SHALLOW;
    assert Cross(S, P, T) == -100.0;
    assert Cross(P, T, U) == -FLAT;
    assert Cross(S, P, R) == -FLAT;
    assert CornerCross(vs, 0) == -100.0;
    assert !Inside(vs, 0, 2) && !Inside(vs, 0, 3);
  }

  lemma {:induction false} RestIsBackwards()
    ensures Backwards([T, U, R, S])
  {
    var vs := [T, U, R, S];
    assert Cross(T, U, R) > FLAT && Cross(T, U, S) > FLAT && Cross(T, R, S) > FLAT && Cross(U, R, S) > FLAT;
    forall i: nat, j: nat, k: nat | i < j < k < 4 ensures Turn(vs, i, j, k) > FLAT {
      assert vs[i] == T || vs[i] == U;
    }
  }

  /**
   * With two such vertices a simple clockwise polygon is rejected: once its first corner is popped, the rest runs
   * backwards.
   */
  lemma {:induction false} ShallowVerticesFail()
    ensures SimpleClockwise(DOUBLY_SHALLOW) && Triangulation(DOUBLY_SHALLOW) == None
  {
    DoublyShallowIsSimple();
    DoublyShallowPopsFirst();
    RestIsBackwards();
    assert RemoveAt(DOUBLY_SHALLOW, 0) == [T, U, R, S];
    BackwardsFails([T, U, R, S]);
  }

  // ---------- the loops ----------

  method ContainsVertex(vs: seq<Point>, i: nat) returns (found: bool)
    requires i < |vs|
    ensures found <==> exists k :: 0 <= k < |vs| && Inside(vs, i, k)
  {
    found := false;
    for k := 0 to |vs|
      invariant found <==> exists j :: 0 <= j < k && Inside(vs, i, j)
    {
      if Inside(vs, i, k) {
        found := true;
      }
    }
  }

  /** Scan the corners in order for one that can be popped. */
  method FindRemovable(vs: seq<Point>) returns (found: Option<nat>)
    ensures found == FirstRemovable(vs, 0)
  {
    for index := 0 to |vs|
      invariant FirstRemovable(vs, index) == FirstRemovable(vs, 0)
    {
      var signedArea := CornerCross(vs, index);
      if Abs(signedArea) <= FLAT {
        return Some(index);
      }
      if signedArea > 0.0 {
        continue;
      }
      var contains := ContainsVertex(vs, index);
      if contains {
        continue;
      }
      return Some(index);
    }
    found := None;
  }

  /** A finished mesh preceded by the ears and drops found earlier. */
  function Preceded(triangles: seq<seq<Point>>, dropped: seq<real>, rest: Option<Mesh>): Option<Mesh> {
    match rest
    case None => None
    case Some(mesh) => Some(Mesh(triangles + mesh.triangles, dropped + mesh.dropped))
  }

  lemma {:induction false} PopOne(triangles: seq<seq<Point>>, dropped: seq<real>, vs: seq<Point>, i: nat)
    requires |vs| > 3 && FirstRemovable(vs, 0) == Some(i)
    ensures Preceded(triangles, dropped, Triangulation(vs)) ==
            if Flat(vs, i) then Preceded(triangles, dropped + [CornerCross(vs, i)], Triangulation(RemoveAt(vs, i)))
            else Preceded(triangles + [Corner(vs, i)], dropped, Triangulation(RemoveAt(vs, i)))
  {
    var rest := Triangulation(RemoveAt(vs, i));
    if rest.Some? {
      assert dropped + ([CornerCross(vs, i)] + rest.value.dropped)
             == dropped + [CornerCross(vs, i)] + rest.value.dropped;
      assert triangles + ([Corner(vs, i)] + rest.value.triangles) == triangles + [Corner(vs, i)] + rest.value.triangles;
    }
  }

  method Triangulate(polygon: seq<Point>) returns (triangles: Option<seq<seq<Point>>>)
    ensures triangles == match Triangulation(polygon) case None => None case Some(mesh) => Some(mesh.triangles)
  {
    var vertices := polygon;
    var clipped: seq<seq<Point>> := [];
    ghost var drops: seq<real> := [];
    assert Triangulation(polygon).Some? ==>
        [] + Triangulation(polygon).value.triangles == Triangulation(polygon).value.triangles
        && [] + Triangulation(polygon).value.dropped == Triangulation(polygon).value.dropped;
    while |vertices| > 3
      invariant Preceded(clipped, drops, Triangulation(vertices)) == Triangulation(polygon)
      decreases |vertices|
    {
      var removable := FindRemovable(vertices);
      if removable.None? {
        return None;
      }
      var index := removable.value;
      PopOne(clipped, drops, vertices, index);
      if Abs(CornerCross(vertices, index)) <= FLAT {
        drops := drops + [CornerCross(vertices, index)];
      } else {
        clipped := clipped + [Corner(vertices, index)];
      }
      vertices := RemoveAt(vertices, index);
    }
    triangles := Some(clipped + [vertices]);
  }
}

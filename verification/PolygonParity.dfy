/** Which points a closed polygon goes round: the parity of its sides that pass below them. */
module PolygonParity {
  import opened Prelude
  import opened EarClipping
  import opened SimplePolygons

  // ---------- one side ----------

  /** Seen from a point, a side from `a` to `b` passes straight below it. */
  predicate Under(a: Point, b: Point) {
    Rising(a) != Rising(b) && (Det(a, b) > 0.0 <==> Rising(b))
  }

  /** The side from `a` to `b` passes below `x`. */
  predicate PassesBelow(a: Point, b: Point, x: Point) { Under(Minus(a, x), Minus(b, x)) }

  /** The side from `a` to `b` passes above `x`. */
  predicate PassesAbove(a: Point, b: Point, x: Point) {
    Rising(Minus(a, x)) != Rising(Minus(b, x)) && !PassesBelow(a, b, x)
  }

  predicate OneWay(u: Point, v: Point, w: Point) {
    SameSign(Det(u, v), Det(v, w)) && SameSign(Det(v, w), Det(w, u))
  }

  lemma {:induction false} UnderSwapped(a: Point, b: Point)
    requires Det(a, b) != 0.0
    ensures Under(a, b) <==> Under(b, a)
  {
    NegatedDet(a, b);
  }

  /** Of three directions, an odd number of the sides between their ends passes below exactly when they go all round. */
  lemma {:induction false} UnderRound(a: Point, b: Point, c: Point)
    requires Det(a, b) != 0.0 && Det(b, c) != 0.0 && Det(c, a) != 0.0
    ensures ((Under(a, b) != Under(b, c)) != Under(c, a)) <==> OneWay(a, b, c)
  {
    if Rising(a) == Rising(b) == Rising(c) {
      NotAllRound(a, b, c);
    } else if Rising(a) == Rising(b) {
      OneOpposite(a, b, c);
    } else if Rising(b) == Rising(c) {
      OneOpposite(b, c, a);
    } else {
      OneOpposite(c, a, b);
    }
  }

  lemma {:induction false} NotAllRound(a: Point, b: Point, c: Point)
    requires Rising(a) == Rising(b) == Rising(c)
    ensures !OneWay(a, b, c)
  {
    NegatedDet(c, a);
    NegatedDet(a, b);
    if Det(a, b) < 0.0 && Det(c, a) < 0.0 {
      Ordered(a, b, c);
    }
    if Det(a, b) > 0.0 && Det(c, a) > 0.0 {
      Ordered(a, c, b);
      NegatedDet(c, b);
    }
  }

  /** With the third direction on the other side, the sides to and from it decide. */
  lemma {:induction false} OneOpposite(a: Point, b: Point, c: Point)
    requires Det(a, b) != 0.0 && Det(b, c) != 0.0 && Det(c, a) != 0.0
    requires Rising(a) == Rising(b) != Rising(c)
    ensures ((Under(a, b) != Under(b, c)) != Under(c, a)) <==> OneWay(a, b, c)
  {
    var d := Negated(c);
    NegatedFalls(c, a);
    NegatedDet(c, a);
    NegatedDet(c, b);
    NegatedDet(b, c);
    NegatedDet(a, b);
    if Det(b, c) > 0.0 && Det(c, a) > 0.0 {
      Ordered(d, a, b);
    }
    if Det(b, c) < 0.0 && Det(c, a) < 0.0 {
      Ordered(d, b, a);
    }
  }

  /** A triangle goes round exactly the points within it. */
  lemma {:induction false} TriangleParity(p: Point, c: Point, q: Point, x: Point)
    requires Generic(p, c, q, x)
    ensures ((PassesBelow(p, c, x) != PassesBelow(c, q, x)) != PassesBelow(q, p, x)) <==> Within(p, c, q, x)
  {
    CrossIsDet(x, p, c);
    CrossIsDet(x, c, q);
    CrossIsDet(x, q, p);
    UnderRound(Minus(p, x), Minus(c, x), Minus(q, x));
  }

  // ---------- two segments that do not meet ----------

  predicate Precedes(a: Point, b: Point) { Rising(Minus(b, a)) }

  lemma {:induction false} OrderTotal(a: Point, b: Point, c: Point)
    requires Cross(a, b, c) != 0.0
    ensures Precedes(a, b) <==> !Precedes(b, a)
    ensures Precedes(a, b) && Precedes(b, c) ==> Precedes(a, c)
    ensures Precedes(c, b) && Precedes(b, a) ==> Precedes(c, a)
  {
  }

  /** Four points in order: a path that keeps turning one way turns that way over any three of them. */
  lemma {:induction false} SortedFour(w: Point, x: Point, y: Point, z: Point)
    requires Precedes(w, x) && Precedes(x, y) && Precedes(y, z)
    ensures Cross(w, x, y) > 0.0 && Cross(x, y, z) > 0.0 ==> Cross(w, x, z) > 0.0 && Cross(w, y, z) > 0.0
    ensures Cross(w, x, y) < 0.0 && Cross(x, y, z) < 0.0 ==> Cross(w, x, z) < 0.0 && Cross(w, y, z) < 0.0
  {
    var e, f, g := Minus(x, w), Minus(y, x), Minus(z, y);
    PathDets(w, x, y, z);
    NegatedDet(e, f);
    NegatedDet(f, g);
    NegatedDet(e, g);
    if Cross(w, x, y) > 0.0 && Cross(x, y, z) > 0.0 {
      Ordered(f, e, g);
    }
    if Cross(w, x, y) < 0.0 && Cross(x, y, z) < 0.0 {
      Ordered(f, g, e);
      NegatedDet(g, e);
    }
  }

  lemma {:induction false} PathDets(w: Point, x: Point, y: Point, z: Point)
    ensures var e, f, g := Minus(x, w), Minus(y, x), Minus(z, y);
            && Cross(w, x, y) == Det(e, f) && Cross(x, y, z) == Det(f, g)
            && Cross(w, x, z) == Det(e, f) + Det(e, g) && Cross(w, y, z) == Det(e, g) + Det(f, g)
  {
  }

  lemma {:induction false} PassesSwapped(a: Point, b: Point, x: Point)
    requires Cross(a, b, x) != 0.0
    ensures PassesBelow(a, b, x) <==> PassesBelow(b, a, x)
    ensures PassesAbove(a, b, x) <==> PassesAbove(b, a, x)
  {
    CrossIsDet(x, a, b);
    UnderSwapped(Minus(a, x), Minus(b, x));
  }

  /** All four triples are off a line. */
  predicate FourGeneric(a: Point, b: Point, u: Point, v: Point) {
    Cross(a, b, u) != 0.0 && Cross(a, b, v) != 0.0 && Cross(u, v, a) != 0.0 && Cross(u, v, b) != 0.0
  }

  /** The claim about segments that do not meet. */
  predicate EvenlyPassed(a: Point, b: Point, u: Point, v: Point) {
    (PassesBelow(a, b, u) != PassesBelow(a, b, v)) <==> (PassesAbove(u, v, a) != PassesAbove(u, v, b))
  }

  lemma {:induction false} EvenlyNested(a: Point, u: Point, v: Point, b: Point)
    requires FourGeneric(a, b, u, v) && Precedes(a, u) && Precedes(u, v) && Precedes(v, b)
    ensures EvenlyPassed(a, b, u, v) == EvenlyPassed(u, v, a, b) == Apart(a, b, u, v)
  {
    FourOrders(a, u, v, b);
    SortedFour(a, u, v, b);
    PathDets(a, u, v, b);
  }

  lemma {:induction false} EvenlyStaggered(a: Point, u: Point, b: Point, v: Point)
    requires FourGeneric(a, b, u, v) && Precedes(a, u) && Precedes(u, b) && Precedes(b, v)
    ensures EvenlyPassed(a, b, u, v) == EvenlyPassed(u, v, a, b) == Apart(a, b, u, v)
  {
    FourOrders(a, u, b, v);
    SortedFour(a, u, b, v);
    PathDets(a, u, b, v);
  }

  lemma {:induction false} EvenlySeparate(a: Point, b: Point, u: Point, v: Point)
    requires FourGeneric(a, b, u, v) && Precedes(a, b) && Precedes(b, u) && Precedes(u, v)
    ensures EvenlyPassed(a, b, u, v) && EvenlyPassed(u, v, a, b) && Apart(a, b, u, v)
  {
    FourOrders(a, b, u, v);
    SortedFour(a, b, u, v);
    PathDets(a, b, u, v);
  }

  /** What passes what, of four points in order. */
  lemma {:induction false} FourOrders(w: Point, x: Point, y: Point, z: Point)
    requires Precedes(w, x) && Precedes(x, y) && Precedes(y, z)
    ensures Precedes(w, y) && Precedes(w, z) && Precedes(x, z)
    ensures !Precedes(x, w) && !Precedes(y, w) && !Precedes(z, w) && !Precedes(y, x) && !Precedes(z, x)
            && !Precedes(z, y)
  {
  }

  lemma {:induction false} FourTotal(a: Point, b: Point, u: Point, v: Point)
    requires FourGeneric(a, b, u, v)
    ensures Precedes(a, b) <==> !Precedes(b, a)
    ensures Precedes(u, v) <==> !Precedes(v, u)
    ensures (Precedes(a, u) <==> !Precedes(u, a)) && (Precedes(a, v) <==> !Precedes(v, a))
    ensures (Precedes(b, u) <==> !Precedes(u, b)) && (Precedes(b, v) <==> !Precedes(v, b))
  {
    CrossTurns(a, b, u);
    CrossTurns(a, b, v);
    OrderTotal(a, b, u);
    OrderTotal(b, u, a);
    OrderTotal(u, a, b);
    OrderTotal(b, v, a);
    OrderTotal(v, a, b);
    OrderTotal(u, v, a);
  }

  lemma {:induction false} ApartAlike(a: Point, b: Point, u: Point, v: Point)
    ensures Apart(a, b, u, v) == Apart(u, v, a, b) == Apart(b, a, u, v) == Apart(a, b, v, u)
  {
    CrossTurns(a, b, u);
    CrossTurns(a, b, v);
    CrossTurns(u, v, a);
    CrossTurns(u, v, b);
  }

  lemma {:induction false} EvenlySorted(a: Point, b: Point, u: Point, v: Point)
    requires FourGeneric(a, b, u, v) && Precedes(a, b) && Precedes(u, v)
    ensures EvenlyPassed(a, b, u, v) <==> Apart(a, b, u, v)
  {
    FourTotal(a, b, u, v);
    ApartAlike(a, b, u, v);
    if Precedes(a, u) {
      if Precedes(v, b) {
        EvenlyNested(a, u, v, b);
      } else if Precedes(u, b) {
        EvenlyStaggered(a, u, b, v);
      } else {
        EvenlySeparate(a, b, u, v);
      }
    } else {
      if Precedes(b, v) {
        EvenlyNested(u, a, b, v);
      } else if Precedes(a, v) {
        EvenlyStaggered(u, a, v, b);
      } else {
        EvenlySeparate(u, v, a, b);
      }
    }
  }

  /**
   * Two segments do not meet exactly when one passes below just one end of the other if and only if that one passes
   * above just one end of it.
   */
  lemma {:induction false} ApartEvenly(a: Point, b: Point, u: Point, v: Point)
    requires FourGeneric(a, b, u, v)
    ensures EvenlyPassed(a, b, u, v) <==> Apart(a, b, u, v)
  {
    FourTotal(a, b, u, v);
    ApartAlike(a, b, u, v);
    ApartAlike(b, a, u, v);
    CrossTurns(a, b, u);
    CrossTurns(a, b, v);
    CrossTurns(u, v, a);
    CrossTurns(u, v, b);
    PassesSwapped(a, b, u);
    PassesSwapped(a, b, v);
    PassesSwapped(u, v, a);
    PassesSwapped(u, v, b);
    if Precedes(a, b) {
      if Precedes(u, v) {
        EvenlySorted(a, b, u, v);
      } else {
        EvenlySorted(a, b, v, u);
      }
    } else {
      if Precedes(u, v) {
        EvenlySorted(b, a, u, v);
      } else {
        EvenlySorted(b, a, v, u);
      }
    }
  }

  // ---------- paths and polygons ----------

  /** Whether an odd number of a path's sides passes below a point. */
  function PathOdd(s: seq<Point>, x: Point): bool {
    if |s| <= 1 then false else PathOdd(s[..|s| - 1], x) != PassesBelow(s[|s| - 2], s[|s| - 1], x)
  }

  /** Whether a closed polygon goes round a point. */
  function Around(vs: seq<Point>, x: Point): bool
    requires vs != []
  {
    PathOdd(vs, x) != PassesBelow(vs[|vs| - 1], vs[0], x)
  }

  lemma {:induction false} PathJoin(a: seq<Point>, b: seq<Point>, x: Point)
    requires a != [] && b != []
    ensures PathOdd(a + b, x) == ((PathOdd(a, x) != PassesBelow(a[|a| - 1], b[0], x)) != PathOdd(b, x))
    decreases |b|
  {
    if |b| == 1 {
      assert (a + b)[..|a + b| - 1] == a;
    } else {
      var c := b[..|b| - 1];
      assert (a + b)[..|a + b| - 1] == a + c;
      PathJoin(a, c, x);
    }
  }

  /** A segment that does not meet a side of the path. */
  predicate Misses(s: seq<Point>, i: nat, u: Point, v: Point)
    requires i + 1 < |s|
  {
    FourGeneric(s[i], s[i + 1], u, v) && Apart(s[i], s[i + 1], u, v)
  }

  ghost predicate MissesAll(s: seq<Point>, u: Point, v: Point) {
    forall i: nat :: i + 1 < |s| ==> Misses(s, i, u, v)
  }

  lemma {:induction false} PathMoves(s: seq<Point>, u: Point, v: Point)
    requires s != [] && MissesAll(s, u, v)
    ensures (PathOdd(s, u) != PathOdd(s, v)) <==> (PassesAbove(u, v, s[0]) != PassesAbove(u, v, s[|s| - 1]))
  {
    if |s| > 1 {
      var r := s[..|s| - 1];
      forall i: nat | i + 1 < |r| ensures Misses(r, i, u, v) {
        assert Misses(s, i, u, v);
      }
      PathMoves(r, u, v);
      assert Misses(s, |s| - 2, u, v);
      ApartEvenly(s[|s| - 2], s[|s| - 1], u, v);
    }
  }

  /** Moving along a segment that meets no side does not change whether a polygon goes round. */
  lemma {:induction false} AroundMoves(vs: seq<Point>, u: Point, v: Point)
    requires vs != [] && MissesAll(vs, u, v)
    requires FourGeneric(vs[|vs| - 1], vs[0], u, v) && Apart(vs[|vs| - 1], vs[0], u, v)
    ensures Around(vs, u) == Around(vs, v)
  {
    PathMoves(vs, u, v);
    ApartEvenly(vs[|vs| - 1], vs[0], u, v);
  }

  /** A polygon goes round a point by one of its parts on either side of a chord from its first vertex. */
  lemma {:induction false} AroundParts(vs: seq<Point>, t: nat, x: Point)
    requires 0 < t < |vs| && Cross(vs[0], vs[t], x) != 0.0
    ensures Around(vs, x) == (Around(vs[..t + 1], x) != Around([vs[0]] + vs[t..], x))
  {
    var a, b := vs[..t + 1], vs[t..];
    PassesSwapped(vs[0], vs[t], x);
    PathJoin([vs[0]], b, x);
    assert PathOdd([vs[0]], x) == false;
    if t == |vs| - 1 {
      assert a == vs && b == [vs[t]];
    } else {
      var c := vs[t + 1..];
      assert vs == a + c && b == [vs[t]] + c;
      PathJoin(a, c, x);
      PathJoin([vs[t]], c, x);
    }
  }

  /** Without its first vertex, a polygon goes round the same points but for those within that corner. */
  lemma {:induction false} AroundRest(vs: seq<Point>, x: Point)
    requires |vs| >= 3 && Generic(vs[|vs| - 1], vs[0], vs[1], x)
    ensures Around(vs, x) == (Around(vs[1..], x) != Within(vs[|vs| - 1], vs[0], vs[1], x))
  {
    var p, m, q := vs[|vs| - 1], vs[0], vs[1];
    assert vs == [m] + vs[1..];
    PathJoin([m], vs[1..], x);
    TriangleParity(p, m, q, x);
    ThreeParts(p, m, q, x);
    PassesSwapped(p, q, x);
  }

  /** Where a polygon begins does not matter. */
  lemma {:induction false} AroundTurned(a: seq<Point>, b: seq<Point>, x: Point)
    requires a != [] && b != []
    ensures Around(a + b, x) == Around(b + a, x)
  {
    PathJoin(a, b, x);
    PathJoin(b, a, x);
  }

  // ---------- seen from the first vertex ----------

  /** The triangle from the first of all vertices holds a point exactly when the line to it parts the other two. */
  lemma {:induction false} FanTriangle(m: Point, a: Point, b: Point, x: Point)
    requires Precedes(m, a) && Precedes(m, b) && Precedes(m, x) && Generic(m, a, b, x) && Apart(m, x, a, b)
    ensures Within(m, a, b, x) <==> (Cross(m, x, a) < 0.0) != (Cross(m, x, b) < 0.0)
  {
    CrossIsDet(m, x, a);
    CrossIsDet(m, x, b);
    CrossIsDet(m, a, b);
    CrossIsDet(m, a, x);
    CrossIsDet(m, b, x);
    CrossIsDet(b, m, x);
    var u, v, w := Minus(x, m), Minus(a, m), Minus(b, m);
    NegatedDet(u, v);
    NegatedDet(u, w);
    NegatedDet(v, w);
    if Det(u, v) < 0.0 && Det(u, w) > 0.0 {
      Ordered(u, v, w);
    }
    if Det(u, v) > 0.0 && Det(u, w) < 0.0 {
      Ordered(u, w, v);
    }
  }

  /** A side of a path seen from `m` past `x`. */
  predicate Fans(m: Point, s: seq<Point>, i: nat, x: Point)
    requires i + 1 < |s|
  {
    && Precedes(m, s[i]) && Precedes(m, s[i + 1]) && Generic(m, s[i], s[i + 1], x)
    && Apart(m, x, s[i], s[i + 1])
  }

  ghost predicate FansAll(m: Point, s: seq<Point>, x: Point) {
    forall i: nat :: i + 1 < |s| ==> Fans(m, s, i, x)
  }

  /**
   * A polygon from its first vertex goes round a point it can be seen from exactly when the line to it parts its
   * neighbours.
   */
  lemma {:induction false} FanParity(m: Point, s: seq<Point>, x: Point)
    requires s != [] && Precedes(m, x) && FansAll(m, s, x) && Cross(m, s[0], x) != 0.0
    ensures Around([m] + s, x) <==> (Cross(m, x, s[0]) < 0.0) != (Cross(m, x, s[|s| - 1]) < 0.0)
    decreases |s|
  {
    PathJoin([m], s, x);
    if |s| == 1 {
      PassesSwapped(m, s[0], x);
    } else {
      var r, a, b := s[..|s| - 1], s[|s| - 2], s[|s| - 1];
      forall i: nat | i + 1 < |r| ensures Fans(m, r, i, x) {
        assert Fans(m, s, i, x);
      }
      FanParity(m, r, x);
      PathJoin([m], r, x);
      assert Fans(m, s, |s| - 2, x);
      FanTriangle(m, a, b, x);
      TriangleParity(m, a, b, x);
      CrossTurns(m, a, x);
      PassesSwapped(m, a, x);
    }
  }
}

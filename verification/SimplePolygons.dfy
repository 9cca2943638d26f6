/**
 * Simple polygons clear of the tolerances: popping ears keeps them simple and keeps the way they turn, so a
 * triangulation that succeeds has right sampling weights exactly when the polygon turns clockwise.
 */
module SimplePolygons {
  import opened Prelude
  import opened EarClipping

  // ---------- directions ----------

  function Minus(a: Point, o: Point): Point { Point(a.x - o.x, a.y - o.y) }

  function Negated(u: Point): Point { Point(-u.x, -u.y) }

  /** One of two opposite directions: to the right, or straight up. */
  predicate Rising(u: Point) { u.x > 0.0 || (u.x == 0.0 && u.y > 0.0) }

  lemma {:induction false} ProductSign(x: real, y: real)
    ensures (x > 0.0 && y > 0.0) || (x < 0.0 && y < 0.0) ==> x * y > 0.0
    ensures (x > 0.0 && y < 0.0) || (x < 0.0 && y > 0.0) ==> x * y < 0.0
    ensures x == 0.0 || y == 0.0 ==> x * y == 0.0
  {
  }

  lemma {:induction false} NegatedDet(u: Point, v: Point)
    ensures Det(Negated(u), v) == -Det(u, v) && Det(u, Negated(v)) == -Det(u, v) && Det(v, u) == -Det(u, v)
  {
    assert (-u.x) * v.y == -(u.x * v.y) && (-u.y) * v.x == -(u.y * v.x);
    assert u.x * (-v.y) == -(u.x * v.y) && u.y * (-v.x) == -(u.y * v.x);
  }

  const ORIGIN := Point(0.0, 0.0)

  lemma {:induction false} OriginDet(v: Point)
    ensures Det(ORIGIN, v) == 0.0 && Det(v, ORIGIN) == 0.0
  {
  }

  lemma {:induction false} NotOrigin(u: Point, v: Point)
    requires Det(u, v) != 0.0
    ensures u != ORIGIN && v != ORIGIN
  {
    OriginDet(u);
    OriginDet(v);
  }

  lemma {:induction false} NegatedFalls(u: Point, v: Point)
    requires Det(u, v) != 0.0
    ensures Rising(Negated(u)) <==> !Rising(u)
  {
    NotOrigin(u, v);
  }

  /** Each component of three plane vectors satisfies one linear relation. */
  lemma {:induction false} Dependent(a: Point, b: Point, w: Point)
    ensures Det(a, w) * b.x == Det(b, w) * a.x + Det(a, b) * w.x
    ensures Det(a, w) * b.y == Det(b, w) * a.y + Det(a, b) * w.y
  {
  }

  /**
   * Rising directions are ordered by angle: with `b` to the right of `a` and `w` to its left, `w` is to the left of
   * `b`.
   */
  lemma {:induction false} RisingOrdered(a: Point, b: Point, w: Point)
    requires Rising(a) && Rising(b) && Rising(w) && Det(a, b) < 0.0 && Det(a, w) > 0.0
    ensures Det(b, w) > 0.0
  {
    Dependent(a, b, w);
    ProductSign(Det(a, w), b.x);
    ProductSign(Det(b, w), a.x);
    ProductSign(Det(a, b), w.x);
    ProductSign(Det(a, w), b.y);
    ProductSign(Det(b, w), a.y);
    ProductSign(Det(a, b), w.y);
  }

  /** The same of directions that all rise or all fall. */
  lemma {:induction false} Ordered(a: Point, b: Point, w: Point)
    requires Rising(a) == Rising(b) == Rising(w) && Det(a, b) < 0.0 && Det(a, w) > 0.0
    ensures Det(b, w) > 0.0
  {
    if Rising(a) {
      RisingOrdered(a, b, w);
    } else {
      NegatedFalls(a, b);
      NegatedDet(a, b);
      NegatedFalls(b, a);
      NegatedDet(a, w);
      NegatedFalls(w, a);
      NegatedDet(w, a);
      NegatedDet(Negated(a), b);
      NegatedDet(Negated(a), w);
      NegatedDet(Negated(b), w);
      NegatedDet(b, w);
      RisingOrdered(Negated(a), Negated(b), Negated(w));
    }
  }

  // ---------- turning ----------

  /**
   * How a path turns that leaves a vertex towards `v` having come from `u`, both seen from the vertex: one for a
   * clockwise and minus one for a counter-clockwise turn between rising and falling, nothing otherwise.
   */
  function TurnOf(u: Point, v: Point): int {
    if Rising(u) != Rising(v) then 0 else if Det(v, u) < 0.0 then 1 else -1
  }

  /** Where a chord leaves the corner: `a` and `b` are its directions before and after, `w` the side's that stays. */
  lemma {:induction false} TurnsAtStart(a: Point, b: Point, w: Point)
    requires Det(a, b) < 0.0 && Det(a, w) != 0.0 && Det(b, w) != 0.0
    requires Det(a, w) > 0.0 || Det(b, w) < 0.0
    ensures TurnOf(w, b) == TurnOf(w, a) + if Rising(a) == Rising(b) then 0 else 1
  {
    TurnCase(a, b, w);
  }

  lemma {:induction false} TurnCase(a: Point, b: Point, w: Point)
    requires Det(a, b) < 0.0 && Det(a, w) != 0.0 && Det(b, w) != 0.0
    requires Det(a, w) > 0.0 || Det(b, w) < 0.0
    ensures Rising(a) == Rising(b) == Rising(w) ==> (Det(a, w) < 0.0 <==> Det(b, w) < 0.0)
    ensures Rising(a) == Rising(w) != Rising(b) ==> Det(a, w) > 0.0
    ensures Rising(b) == Rising(w) != Rising(a) ==> Det(b, w) < 0.0
  {
    NegatedDet(a, b);
    NegatedDet(a, w);
    NegatedDet(b, w);
    NegatedDet(w, Negated(b));
    NegatedDet(w, b);
    NegatedFalls(a, b);
    NegatedFalls(b, a);
    if Rising(a) == Rising(b) == Rising(w) {
      if Det(a, w) > 0.0 {
        Ordered(a, b, w);
      }
    } else if Rising(a) == Rising(w) {
      if Det(a, w) < 0.0 {
        Ordered(a, w, Negated(b));
      }
    } else if Rising(b) == Rising(w) {
      if Det(b, w) > 0.0 {
        Ordered(b, Negated(a), w);
        NegatedDet(a, w);
      }
    }
  }

  /** Where a chord comes back to the polygon: `a` and `b` are the directions it is come from before and after. */
  lemma {:induction false} TurnsAtEnd(a: Point, b: Point, w: Point)
    requires Det(a, b) > 0.0 && Det(a, w) != 0.0 && Det(b, w) != 0.0
    requires Det(a, w) < 0.0 || Det(b, w) > 0.0
    ensures TurnOf(b, w) == TurnOf(a, w) + if Rising(a) == Rising(b) then 0 else 1
  {
    NegatedDet(a, w);
    NegatedDet(b, w);
    EndCase(a, b, w);
  }

  lemma {:induction false} EndCase(a: Point, b: Point, w: Point)
    requires Det(a, b) > 0.0 && Det(a, w) != 0.0 && Det(b, w) != 0.0
    requires Det(a, w) < 0.0 || Det(b, w) > 0.0
    ensures Rising(a) == Rising(b) == Rising(w) ==> (Det(a, w) < 0.0 <==> Det(b, w) < 0.0)
    ensures Rising(a) == Rising(w) != Rising(b) ==> Det(a, w) < 0.0
    ensures Rising(b) == Rising(w) != Rising(a) ==> Det(b, w) > 0.0
  {
    NegatedDet(a, b);
    NegatedDet(b, a);
    NegatedDet(b, w);
    NegatedDet(w, b);
    NegatedDet(a, w);
    NegatedDet(w, a);
    NegatedFalls(a, b);
    NegatedFalls(b, a);
    if Rising(a) == Rising(b) == Rising(w) {
      if Det(a, w) < 0.0 {
        Ordered(a, w, b);
      }
    } else if Rising(a) == Rising(w) {
      if Det(a, w) > 0.0 {
        Ordered(a, Negated(b), w);
      }
    } else if Rising(b) == Rising(w) {
      if Det(b, w) < 0.0 {
        Ordered(b, w, Negated(a));
      }
    }
  }

  /** How the path from `x` over `o` to `y` turns. */
  function PathTurn(x: Point, o: Point, y: Point): int { TurnOf(Minus(x, o), Minus(y, o)) }

  lemma {:induction false} CrossIsDet(o: Point, a: Point, b: Point)
    ensures Cross(o, a, b) == Det(Minus(a, o), Minus(b, o)) == Cross(a, b, o) == Cross(b, o, a)
    ensures Cross(o, b, a) == -Cross(o, a, b)
  {
    CrossTurns(o, a, b);
    CrossTurns(a, o, b);
  }

  lemma {:induction false} SideIsOneWay(a: Point, b: Point)
    requires a != b
    ensures Rising(Minus(a, b)) != Rising(Minus(b, a))
  {
  }

  lemma {:induction false} RisingAdds(a: Point, b: Point, c: Point)
    requires Rising(Minus(b, a)) == Rising(Minus(c, b)) && a != b && b != c && a != c
    ensures Rising(Minus(c, a)) == Rising(Minus(b, a))
  {
  }

  /** A side does not leave its vertex between the two sides of an empty corner it does not cross. */
  lemma {:induction false} OutsideCone(p: Point, c: Point, q: Point, x: Point)
    requires Cross(p, c, q) < 0.0
    requires Cross(p, c, x) > 0.0 || Cross(c, q, x) > 0.0 || Cross(q, p, x) > 0.0
    requires Apart(x, p, c, q) || Apart(c, q, x, p)
    ensures Cross(p, c, x) >= 0.0 || Cross(p, q, x) <= 0.0
  {
    CrossIsDet(p, c, q);
    CrossIsDet(p, c, x);
    CrossIsDet(p, q, x);
    CrossIsDet(x, p, c);
    CrossIsDet(x, p, q);
  }

  lemma {:induction false} OutsideConeEnd(p: Point, c: Point, q: Point, x: Point)
    requires Cross(p, c, q) < 0.0
    requires Cross(p, c, x) > 0.0 || Cross(c, q, x) > 0.0 || Cross(q, p, x) > 0.0
    requires Apart(q, x, p, c) || Apart(p, c, q, x)
    ensures Cross(c, q, x) >= 0.0 || Cross(q, p, x) >= 0.0
  {
    CrossIsDet(p, c, q);
    CrossIsDet(c, q, x);
    CrossIsDet(q, p, x);
    CrossIsDet(q, x, p);
    CrossIsDet(q, x, c);
  }

  /** Cutting an empty clockwise corner off does not change how the polygon turns in all. */
  lemma {:induction false} EarKeepsTurns(pp: Point, p: Point, c: Point, q: Point, qq: Point)
    requires Cross(p, c, q) < 0.0
    requires Cross(p, c, pp) != 0.0 && Cross(p, q, pp) != 0.0 && Cross(c, q, qq) != 0.0 && Cross(p, q, qq) != 0.0
    requires Cross(p, c, pp) > 0.0 || Cross(p, q, pp) < 0.0
    requires Cross(c, q, qq) > 0.0 || Cross(q, p, qq) > 0.0
    ensures PathTurn(pp, p, c) + PathTurn(p, c, q) + PathTurn(c, q, qq) == PathTurn(pp, p, q) + PathTurn(p, q, qq)
  {
    CrossIsDet(p, c, q);
    CrossIsDet(q, p, c);
    CrossIsDet(p, c, pp);
    CrossIsDet(p, q, pp);
    CrossIsDet(q, qq, c);
    CrossIsDet(q, p, qq);
    NotOrigin(Minus(c, p), Minus(q, p));
    NotOrigin(Minus(p, q), Minus(c, q));
    TurnsAtStart(Minus(c, p), Minus(q, p), Minus(pp, p));
    TurnsAtEnd(Minus(c, q), Minus(p, q), Minus(qq, q));
    SideIsOneWay(c, q);
    SideIsOneWay(p, q);
    SideIsOneWay(p, c);
    if Rising(Minus(c, p)) == Rising(Minus(q, c)) {
      RisingAdds(p, c, q);
    }
    NegatedDet(Minus(p, c), Minus(q, c));
    CrossIsDet(c, q, p);
  }

  // ---------- a side against the new side ----------

  predicate SameSign(x: real, y: real) { (x > 0.0 && y > 0.0) || (x < 0.0 && y < 0.0) }

  /**
   * How a segment meets a triangle, in barycentric coordinates `u` and `v` of its ends, negative inside: if both ends
   * are outside and it keeps apart from two sides, it keeps apart from the third.
   */
  lemma {:induction false} ThirdSide(u1: real, u2: real, u3: real, v1: real, v2: real, v3: real,
                                     a: real, b: real, c: real, area: real)
    requires area < 0.0 && u1 + u2 + u3 == area && v1 + v2 + v3 == area
    requires area * a == u2 * v3 - u3 * v2 && area * b == u3 * v1 - u1 * v3 && area * c == u1 * v2 - u2 * v1
    requires u1 != 0.0 && u2 != 0.0 && u3 != 0.0 && v1 != 0.0 && v2 != 0.0 && v3 != 0.0
    requires u1 > 0.0 || u2 > 0.0 || u3 > 0.0
    requires v1 > 0.0 || v2 > 0.0 || v3 > 0.0
    requires a != 0.0 && b != 0.0 && c != 0.0
    requires SameSign(u3, v3) || SameSign(a, b)
    requires SameSign(u1, v1) || SameSign(b, c)
    ensures SameSign(u2, v2) || SameSign(a, c)
  {
    ProductSign(u2, v3);
    ProductSign(u3, v2);
    ProductSign(u3, v1);
    ProductSign(u1, v3);
    ProductSign(u1, v2);
    ProductSign(u2, v1);
    ProductSign(area, a);
    ProductSign(area, b);
    ProductSign(area, c);
  }

  /** The coordinates of two points in a triangle decide on which side of their line its corners lie. */
  lemma {:induction false} Barycentric(p: Point, c: Point, q: Point, x: Point, y: Point)
    ensures Cross(p, c, q) * Cross(x, y, p) == Cross(q, p, x) * Cross(p, c, y) - Cross(p, c, x) * Cross(q, p, y)
    ensures Cross(p, c, q) * Cross(x, y, c) == Cross(p, c, x) * Cross(c, q, y) - Cross(c, q, x) * Cross(p, c, y)
    ensures Cross(p, c, q) * Cross(x, y, q) == Cross(c, q, x) * Cross(q, p, y) - Cross(q, p, x) * Cross(c, q, y)
    ensures Cross(c, q, x) + Cross(q, p, x) + Cross(p, c, x) == Cross(p, c, q)
  {
  }

  /** With both ends outside a clockwise triangle, a segment apart from two of its sides is apart from the third. */
  lemma {:induction false} NewSideApart(p: Point, c: Point, q: Point, x: Point, y: Point)
    requires Cross(p, c, q) < 0.0
    requires Cross(p, c, x) > 0.0 || Cross(c, q, x) > 0.0 || Cross(q, p, x) > 0.0
    requires Cross(p, c, y) > 0.0 || Cross(c, q, y) > 0.0 || Cross(q, p, y) > 0.0
    requires Cross(p, c, x) != 0.0 && Cross(c, q, x) != 0.0 && Cross(q, p, x) != 0.0
    requires Cross(p, c, y) != 0.0 && Cross(c, q, y) != 0.0 && Cross(q, p, y) != 0.0
    requires Cross(x, y, p) != 0.0 && Cross(x, y, c) != 0.0 && Cross(x, y, q) != 0.0
    requires Apart(p, c, x, y) && Apart(c, q, x, y)
    ensures Apart(p, q, x, y)
  {
    Barycentric(p, c, q, x, y);
    Barycentric(p, c, q, y, x);
    ThirdSide(Cross(c, q, x), Cross(q, p, x), Cross(p, c, x), Cross(c, q, y), Cross(q, p, y), Cross(p, c, y),
              Cross(x, y, p), Cross(x, y, c), Cross(x, y, q), Cross(p, c, q));
    CrossIsDet(p, q, x);
    CrossIsDet(p, q, y);
    CrossIsDet(q, p, x);
    CrossIsDet(q, p, y);
    CrossTurns(p, q, x);
    CrossTurns(p, q, y);
  }

  /** Inside a triangle, whichever way it turns. */
  predicate Within(p: Point, c: Point, q: Point, x: Point) {
    SameSign(Cross(p, c, x), Cross(c, q, x)) && SameSign(Cross(c, q, x), Cross(q, p, x))
  }

  /** No three of them on one line. */
  predicate Generic(p: Point, c: Point, q: Point, x: Point) {
    Cross(p, c, q) != 0.0 && Cross(p, c, x) != 0.0 && Cross(c, q, x) != 0.0 && Cross(q, p, x) != 0.0
  }

  lemma {:induction false} ThreeParts(p: Point, c: Point, q: Point, x: Point)
    ensures Cross(p, c, x) + Cross(c, q, x) + Cross(q, p, x) == Cross(p, c, q)
    ensures Cross(q, c, p) == -Cross(p, c, q) && Cross(q, c, x) == -Cross(c, q, x)
    ensures Cross(c, p, x) == -Cross(p, c, x) && Cross(p, q, x) == -Cross(q, p, x)
  {
    Barycentric(p, c, q, x, x);
    CrossIsDet(p, c, q);
    CrossIsDet(c, q, p);
    CrossIsDet(c, q, x);
    CrossIsDet(x, c, q);
    CrossIsDet(x, p, c);
    CrossIsDet(x, q, p);
    CrossIsDet(q, p, c);
  }

  lemma {:induction false} ApartSwapped(a: Point, b: Point, c: Point, d: Point)
    requires Apart(a, b, c, d)
    ensures Apart(b, a, c, d) && Apart(a, b, d, c) && Apart(c, d, a, b)
  {
    CrossTurns(a, b, c);
    CrossTurns(a, b, d);
    CrossTurns(c, d, a);
    CrossTurns(c, d, b);
  }

  /** The same of any triangle. */
  lemma {:induction false} ThirdSideApart(p: Point, c: Point, q: Point, x: Point, y: Point)
    requires Generic(p, c, q, x) && Generic(p, c, q, y) && !Within(p, c, q, x) && !Within(p, c, q, y)
    requires Cross(x, y, p) != 0.0 && Cross(x, y, c) != 0.0 && Cross(x, y, q) != 0.0
    requires Apart(p, c, x, y) && Apart(c, q, x, y)
    ensures Apart(p, q, x, y)
  {
    ThreeParts(p, c, q, x);
    ThreeParts(p, c, q, y);
    if Cross(p, c, q) < 0.0 {
      NewSideApart(p, c, q, x, y);
    } else {
      ApartSwapped(p, c, x, y);
      ApartSwapped(c, q, x, y);
      NewSideApart(q, c, p, x, y);
      ApartSwapped(q, p, x, y);
    }
  }

  /** A path taken backwards turns the other way. */
  lemma {:induction false} PathBackwards(x: Point, o: Point, y: Point)
    requires Cross(x, o, y) != 0.0
    ensures PathTurn(y, o, x) == -PathTurn(x, o, y)
  {
    CrossIsDet(o, y, x);
    NegatedDet(Minus(x, o), Minus(y, o));
  }

  /** Cutting off an empty corner changes nothing about the turning, whichever way the corner turns. */
  lemma {:induction false} CornerKeepsTurns(pp: Point, p: Point, c: Point, q: Point, qq: Point)
    requires Generic(p, c, q, pp) && Generic(p, c, q, qq) && !Within(p, c, q, pp) && !Within(p, c, q, qq)
    requires Apart(pp, p, c, q) && Apart(q, qq, p, c)
    ensures PathTurn(pp, p, c) + PathTurn(p, c, q) + PathTurn(c, q, qq) == PathTurn(pp, p, q) + PathTurn(p, q, qq)
  {
    ThreeParts(p, c, q, pp);
    ThreeParts(p, c, q, qq);
    CrossIsDet(p, c, pp);
    CrossIsDet(p, q, pp);
    CrossIsDet(c, q, qq);
    CrossIsDet(p, q, qq);
    if Cross(p, c, q) < 0.0 {
      OutsideCone(p, c, q, pp);
      OutsideConeEnd(p, c, q, qq);
      EarKeepsTurns(pp, p, c, q, qq);
    } else {
      ApartSwapped(pp, p, c, q);
      ApartSwapped(p, pp, c, q);
      ApartSwapped(q, qq, p, c);
      ApartSwapped(qq, q, p, c);
      OutsideCone(q, c, p, qq);
      OutsideConeEnd(q, c, p, pp);
      EarKeepsTurns(qq, q, c, p, pp);
      PathBackwards(pp, p, c);
      PathBackwards(p, c, q);
      PathBackwards(c, q, qq);
      PathBackwards(pp, p, q);
      PathBackwards(p, q, qq);
    }
  }

  // ---------- removing a vertex ----------

  /** No three vertices on one line. */
  ghost predicate General(vs: seq<Point>) {
    forall i: nat, j: nat, k: nat :: i < j < k < |vs| ==> Turn(vs, i, j, k) != 0.0
  }

  lemma {:induction false} GeneralAny(vs: seq<Point>, i: nat, j: nat, k: nat)
    requires General(vs) && i < |vs| && j < |vs| && k < |vs| && i != j && i != k && j != k
    ensures Cross(vs[i], vs[j], vs[k]) != 0.0
  {
    CrossTurns(vs[i], vs[j], vs[k]);
    CrossTurns(vs[j], vs[i], vs[k]);
    if i < j < k {
      assert Turn(vs, i, j, k) != 0.0;
    } else if i < k < j {
      assert Turn(vs, i, k, j) != 0.0;
    } else if j < i < k {
      assert Turn(vs, j, i, k) != 0.0;
    } else if j < k < i {
      assert Turn(vs, j, k, i) != 0.0;
    } else if k < i < j {
      assert Turn(vs, k, i, j) != 0.0;
    } else {
      assert Turn(vs, k, j, i) != 0.0;
    }
  }

  lemma {:induction false} GenericAt(vs: seq<Point>, i: nat, j: nat, k: nat, l: nat)
    requires General(vs) && i < |vs| && j < |vs| && k < |vs| && l < |vs|
    requires i != j && i != k && j != k && l != i && l != j && l != k
    ensures Generic(vs[i], vs[j], vs[k], vs[l])
  {
    GeneralAny(vs, i, j, k);
    GeneralAny(vs, i, j, l);
    GeneralAny(vs, j, k, l);
    GeneralAny(vs, k, i, l);
  }

  /** Where a vertex of the rest was before vertex `i` was removed. */
  function Was(i: nat, k: nat): nat { if k < i then k else k + 1 }

  lemma {:induction false} RestAt(vs: seq<Point>, i: nat, k: nat)
    requires i < |vs| && k < |vs| - 1
    ensures RemoveAt(vs, i)[k] == vs[Was(i, k)] && Was(i, k) != i
  {
  }

  lemma {:induction false} RestNeighbours(n: nat, i: nat, k: nat)
    requires n > 3 && i < n && k < n - 1
    ensures Was(i, After(n - 1, k)) == if Was(i, k) == Before(n, i) then After(n, i) else After(n, Was(i, k))
    ensures Was(i, Before(n - 1, k)) == if Was(i, k) == After(n, i) then Before(n, i) else Before(n, Was(i, k))
  {
  }

  lemma {:induction false} RestGeneral(vs: seq<Point>, i: nat)
    requires General(vs) && i < |vs|
    ensures General(RemoveAt(vs, i))
  {
    var rest := RemoveAt(vs, i);
    forall j: nat, k: nat, l: nat | j < k < l < |rest| ensures Turn(rest, j, k, l) != 0.0 {
      RestAt(vs, i, j);
      RestAt(vs, i, k);
      RestAt(vs, i, l);
      assert Turn(vs, Was(i, j), Was(i, k), Was(i, l)) != 0.0;
    }
  }

  /** Whether a point is inside the triangle at a corner. */
  predicate InCorner(vs: seq<Point>, i: nat, x: Point)
    requires i < |vs|
  {
    Within(vs[Before(|vs|, i)], vs[i], vs[After(|vs|, i)], x)
  }

  /** Every other vertex is outside the triangle at a corner. */
  ghost predicate Blank(vs: seq<Point>, i: nat)
    requires i < |vs|
  {
    forall k: nat :: k < |vs| && k != Before(|vs|, i) && k != i && k != After(|vs|, i) ==> !InCorner(vs, i, vs[k])
  }

  /** Sides in either order. */
  lemma {:induction false} TwoSides(vs: seq<Point>, i: nat, j: nat)
    requires Simple(vs) && i < |vs| && j < |vs| && i != j && After(|vs|, i) != j && After(|vs|, j) != i
    ensures SidesApart(vs, i, j)
  {
    if j < i {
      assert SidesApart(vs, j, i);
    }
  }

  /** The new side keeps apart from every side it does not follow. */
  lemma {:induction false} NewSide(vs: seq<Point>, i: nat, j: nat)
    requires General(vs) && Simple(vs) && |vs| > 3 && i < |vs| && Blank(vs, i)
    requires j < |vs| && j != Before(|vs|, i) && j != i && j != After(|vs|, i) && After(|vs|, j) != Before(|vs|, i)
    ensures Apart(vs[Before(|vs|, i)], vs[After(|vs|, i)], vs[j], vs[After(|vs|, j)])
  {
    var n := |vs|;
    var b, a, k := Before(n, i), After(n, i), After(n, j);
    assert !InCorner(vs, i, vs[j]) && !InCorner(vs, i, vs[k]);
    GenericAt(vs, b, i, a, j);
    GenericAt(vs, b, i, a, k);
    GeneralAny(vs, j, k, b);
    GeneralAny(vs, j, k, i);
    GeneralAny(vs, j, k, a);
    TwoSides(vs, b, j);
    TwoSides(vs, i, j);
    ThirdSideApart(vs[b], vs[i], vs[a], vs[j], vs[k]);
  }

  /** Popping an empty corner leaves a simple polygon. */
  lemma {:induction false} RestSimple(vs: seq<Point>, i: nat)
    requires General(vs) && Simple(vs) && |vs| > 3 && i < |vs| && Blank(vs, i)
    ensures Simple(RemoveAt(vs, i))
  {
    var rest, n := RemoveAt(vs, i), |vs|;
    RestGeneral(vs, i);
    forall k | 0 <= k < |rest| ensures CornerCross(rest, k) != 0.0 {
      GeneralAny(rest, Before(n - 1, k), k, After(n - 1, k));
    }
    forall k: nat, l: nat | k < l < |rest| && After(n - 1, k) != l && After(n - 1, l) != k
      ensures SidesApart(rest, k, l)
    {
      RestSides(vs, i, k, l);
    }
  }

  lemma {:induction false} RestSides(vs: seq<Point>, i: nat, k: nat, l: nat)
    requires General(vs) && Simple(vs) && |vs| > 3 && i < |vs| && Blank(vs, i)
    requires k < l < |vs| - 1 && After(|vs| - 1, k) != l && After(|vs| - 1, l) != k
    ensures SidesApart(RemoveAt(vs, i), k, l)
  {
    var n := |vs|;
    RestAt(vs, i, k);
    RestAt(vs, i, l);
    RestAt(vs, i, After(n - 1, k));
    RestAt(vs, i, After(n - 1, l));
    RestNeighbours(n, i, k);
    RestNeighbours(n, i, l);
    if Was(i, k) == Before(n, i) {
      NewSide(vs, i, Was(i, l));
    } else if Was(i, l) == Before(n, i) {
      NewSide(vs, i, Was(i, k));
    } else {
      TwoSides(vs, Was(i, k), Was(i, l));
    }
  }

  // ---------- how a polygon turns in all ----------

  function CornerTurn(vs: seq<Point>, i: nat): int
    requires i < |vs|
  {
    PathTurn(vs[Before(|vs|, i)], vs[i], vs[After(|vs|, i)])
  }

  function CornerTurns(vs: seq<Point>): (r: seq<int>)
    ensures |r| == |vs| && forall i :: 0 <= i < |vs| ==> r[i] == CornerTurn(vs, i)
  {
    seq(|vs|, i requires 0 <= i < |vs| => CornerTurn(vs, i))
  }

  function SumOf(xs: seq<int>): int {
    if xs == [] then 0 else xs[0] + SumOf(xs[1..])
  }

  /** Twice the number of times the polygon turns clockwise round. */
  function Turns(vs: seq<Point>): int { SumOf(CornerTurns(vs)) }

  lemma {:induction false} SumSplit(xs: seq<int>, ys: seq<int>)
    ensures SumOf(xs + ys) == SumOf(xs) + SumOf(ys)
  {
    if xs == [] {
      assert xs + ys == ys;
    } else {
      assert (xs + ys)[1..] == xs[1..] + ys;
      SumSplit(xs[1..], ys);
    }
  }

  lemma {:induction false} SumWithout(xs: seq<int>, i: nat)
    requires i < |xs|
    ensures SumOf(xs) == SumOf(xs[..i] + xs[i + 1..]) + xs[i]
  {
    assert xs == xs[..i] + ([xs[i]] + xs[i + 1..]);
    SumSplit(xs[..i], [xs[i]] + xs[i + 1..]);
    SumSplit(xs[..i], xs[i + 1..]);
  }

  lemma {:induction false} SumReplaced(xs: seq<int>, i: nat, x: int)
    requires i < |xs|
    ensures SumOf(xs[i := x]) == SumOf(xs) - xs[i] + x
  {
    SumWithout(xs, i);
    SumWithout(xs[i := x], i);
    assert xs[i := x][..i] == xs[..i] && xs[i := x][i + 1..] == xs[i + 1..];
  }

  /** What turns at the two ends of the new side. */
  lemma {:induction false} NewSideTurns(vs: seq<Point>, i: nat)
    requires General(vs) && Simple(vs) && |vs| > 3 && i < |vs| && Blank(vs, i)
    ensures var n := |vs|;
            var b, a := Before(n, i), After(n, i);
            CornerTurn(vs, b) + CornerTurn(vs, i) + CornerTurn(vs, a)
            == PathTurn(vs[Before(n, b)], vs[b], vs[a]) + PathTurn(vs[b], vs[a], vs[After(n, a)])
  {
    var n := |vs|;
    var b, a := Before(n, i), After(n, i);
    var bb, aa := Before(n, b), After(n, a);
    GenericAt(vs, b, i, a, bb);
    GenericAt(vs, b, i, a, aa);
    assert !InCorner(vs, i, vs[bb]) && !InCorner(vs, i, vs[aa]);
    TwoSides(vs, bb, i);
    TwoSides(vs, a, b);
    CornerKeepsTurns(vs[bb], vs[b], vs[i], vs[a], vs[aa]);
  }

  /** The other corners of the rest turn as they did. */
  lemma {:induction false} OldCornerTurn(vs: seq<Point>, i: nat, k: nat)
    requires |vs| > 3 && i < |vs| && k < |vs| - 1 && Was(i, k) != Before(|vs|, i) && Was(i, k) != After(|vs|, i)
    ensures CornerTurn(RemoveAt(vs, i), k) == CornerTurn(vs, Was(i, k))
  {
    var n := |vs|;
    RestNeighbours(n, i, k);
    RestAt(vs, i, k);
    RestAt(vs, i, Before(n - 1, k));
    RestAt(vs, i, After(n - 1, k));
  }

  /** The two ends of the new side. */
  lemma {:induction false} NewCornerTurns(vs: seq<Point>, i: nat, k: nat, l: nat)
    requires |vs| > 3 && i < |vs| && k < |vs| - 1 && l < |vs| - 1
    requires Was(i, k) == Before(|vs|, i) && Was(i, l) == After(|vs|, i)
    ensures var n := |vs|;
            var b, a := Before(n, i), After(n, i);
            && CornerTurn(RemoveAt(vs, i), k) == PathTurn(vs[Before(n, b)], vs[b], vs[a])
            && CornerTurn(RemoveAt(vs, i), l) == PathTurn(vs[b], vs[a], vs[After(n, a)])
  {
    var n := |vs|;
    RestNeighbours(n, i, k);
    RestNeighbours(n, i, l);
    RestAt(vs, i, k);
    RestAt(vs, i, l);
    RestAt(vs, i, Before(n - 1, k));
    RestAt(vs, i, After(n - 1, k));
    RestAt(vs, i, Before(n - 1, l));
    RestAt(vs, i, After(n - 1, l));
  }

  /** The index in the rest of a vertex other than the one removed. */
  function Now(i: nat, k: nat): nat
    requires k != i
  {
    if k < i then k else k - 1
  }

  lemma {:induction false} RestCornerTurns(vs: seq<Point>, i: nat, k: nat, l: nat)
    requires |vs| > 3 && i < |vs| && k < |vs| - 1 && l < |vs| - 1
    requires Was(i, k) == Before(|vs|, i) && Was(i, l) == After(|vs|, i)
    ensures var c, d := CornerTurns(vs), CornerTurns(RemoveAt(vs, i));
            d == (c[..i] + c[i + 1..])[k := d[k]][l := d[l]]
  {
    var c, d := CornerTurns(vs), CornerTurns(RemoveAt(vs, i));
    var e := (c[..i] + c[i + 1..])[k := d[k]][l := d[l]];
    forall m: nat | m < |d| ensures d[m] == e[m] {
      if m != k && m != l {
        OldCornerTurn(vs, i, m);
        assert e[m] == c[Was(i, m)];
      }
    }
  }

  /** Popping an empty corner changes nothing about how the polygon turns in all. */
  lemma {:induction false} RestTurns(vs: seq<Point>, i: nat)
    requires General(vs) && Simple(vs) && |vs| > 3 && i < |vs| && Blank(vs, i)
    ensures Turns(RemoveAt(vs, i)) == Turns(vs)
  {
    var n := |vs|;
    var k, l := Now(i, Before(n, i)), Now(i, After(n, i));
    var c, d := CornerTurns(vs), CornerTurns(RemoveAt(vs, i));
    RestCornerTurns(vs, i, k, l);
    NewCornerTurns(vs, i, k, l);
    NewSideTurns(vs, i);
    SumOfRest(c, d, i, k, l);
    assert c[Was(i, k)] == CornerTurn(vs, Before(n, i)) && c[Was(i, l)] == CornerTurn(vs, After(n, i));
  }

  lemma {:induction false} SumOfRest(c: seq<int>, d: seq<int>, i: nat, k: nat, l: nat)
    requires i < |c| && k < |c| - 1 && l < |c| - 1 && k != l && |d| == |c| - 1
    requires d == (c[..i] + c[i + 1..])[k := d[k]][l := d[l]]
    ensures SumOf(d) == SumOf(c) - c[i] - c[Was(i, k)] - c[Was(i, l)] + d[k] + d[l]
  {
    var w := c[..i] + c[i + 1..];
    SumWithout(c, i);
    SumReplaced(w, k, d[k]);
    SumReplaced(w[k := d[k]], l, d[l]);
    assert w[k] == c[Was(i, k)] && w[l] == c[Was(i, l)];
  }

  /** A triangle turns once round, one way or the other. */
  lemma {:induction false} TriangleTurns(a: Point, b: Point, c: Point)
    requires Cross(a, b, c) != 0.0
    ensures PathTurn(c, a, b) + PathTurn(a, b, c) + PathTurn(b, c, a) == if Cross(a, b, c) < 0.0 then 2 else -2
  {
    CrossIsDet(a, b, c);
    CrossIsDet(b, c, a);
    CrossIsDet(c, a, b);
    NotOrigin(Minus(b, a), Minus(c, a));
    NotOrigin(Minus(c, b), Minus(a, b));
    SideIsOneWay(a, b);
    SideIsOneWay(b, c);
    SideIsOneWay(c, a);
    if Rising(Minus(b, a)) == Rising(Minus(c, b)) {
      RisingAdds(a, b, c);
    }
  }

  lemma {:induction false} SumOfThree(xs: seq<int>)
    requires |xs| == 3
    ensures SumOf(xs) == xs[0] + xs[1] + xs[2]
  {
    assert xs[1..][1..] == [xs[2]] && [xs[2]][1..] == [];
    assert SumOf([xs[2]]) == xs[2];
  }

  // ---------- triangulation ----------

  /** Every three vertices are clear of a bound on their cross product. */
  ghost predicate ClearBy(vs: seq<Point>, bound: real) {
    forall i: nat, j: nat, k: nat :: i < j < k < |vs| ==> Abs(Turn(vs, i, j, k)) > bound
  }

  /** Every three vertices are clear of the flat bound. */
  ghost predicate Clear(vs: seq<Point>) { ClearBy(vs, FLAT) }

  lemma {:induction false} ClearIsGeneral(vs: seq<Point>)
    requires Clear(vs)
    ensures General(vs)
  {
    forall i: nat, j: nat, k: nat | i < j < k < |vs| ensures Turn(vs, i, j, k) != 0.0 {
      assert Abs(Turn(vs, i, j, k)) > FLAT;
    }
  }

  lemma {:induction false} ClearAny(vs: seq<Point>, i: nat, j: nat, k: nat)
    requires Clear(vs) && i < |vs| && j < |vs| && k < |vs| && i != j && i != k && j != k
    ensures Abs(Cross(vs[i], vs[j], vs[k])) > FLAT
  {
    CrossTurns(vs[i], vs[j], vs[k]);
    CrossTurns(vs[j], vs[i], vs[k]);
    if i < j < k {
      assert Abs(Turn(vs, i, j, k)) > FLAT;
    } else if i < k < j {
      assert Abs(Turn(vs, i, k, j)) > FLAT;
    } else if j < i < k {
      assert Abs(Turn(vs, j, i, k)) > FLAT;
    } else if j < k < i {
      assert Abs(Turn(vs, j, k, i)) > FLAT;
    } else if k < i < j {
      assert Abs(Turn(vs, k, i, j)) > FLAT;
    } else {
      assert Abs(Turn(vs, k, j, i)) > FLAT;
    }
  }

  lemma {:induction false} RestClear(vs: seq<Point>, i: nat)
    requires Clear(vs) && i < |vs|
    ensures Clear(RemoveAt(vs, i))
  {
    var rest := RemoveAt(vs, i);
    forall j: nat, k: nat, l: nat | j < k < l < |rest| ensures Abs(Turn(rest, j, k, l)) > FLAT {
      RestAt(vs, i, j);
      RestAt(vs, i, k);
      RestAt(vs, i, l);
      assert Abs(Turn(vs, Was(i, j), Was(i, k), Was(i, l))) > FLAT;
    }
  }

  /** Clear of the bound, a corner can be popped exactly when it is clockwise and blank. */
  lemma {:induction false} PoppedIffBlank(vs: seq<Point>, i: nat)
    requires Clear(vs) && |vs| > 3 && i < |vs|
    ensures !Flat(vs, i) && (Removable(vs, i) <==> CornerCross(vs, i) < 0.0 && Blank(vs, i))
  {
    var n := |vs|;
    var b, a := Before(n, i), After(n, i);
    ClearAny(vs, b, i, a);
    if CornerCross(vs, i) < 0.0 {
      forall k: nat | k < n && k != b && k != i && k != a ensures Inside(vs, i, k) <==> InCorner(vs, i, vs[k]) {
        ClearAny(vs, b, i, k);
        ClearAny(vs, i, a, k);
        ClearAny(vs, a, b, k);
        ThreeParts(vs[b], vs[i], vs[a], vs[k]);
      }
    }
  }

  /**
   * A simple polygon clear of the bound that is triangulated loses no area, and its last triangle comes out clockwise
   * exactly when the polygon turns clockwise.
   */
  lemma {:induction false} TurnsDecide(vs: seq<Point>)
    requires Clear(vs) && Simple(vs) && Triangulation(vs).Some?
    ensures var mesh := Triangulation(vs).value;
            && mesh.dropped == [] && mesh.triangles != []
            && Turns(vs) == if TriangleCross(mesh.triangles[|mesh.triangles| - 1]) <= 0.0 then 2 else -2
    decreases |vs|
  {
    if |vs| == 3 {
      ClearAny(vs, 0, 1, 2);
      TriangleTurns(vs[0], vs[1], vs[2]);
      SumOfThree(CornerTurns(vs));
    } else {
      var i := FirstRemovable(vs, 0).value;
      PoppedIffBlank(vs, i);
      ClearIsGeneral(vs);
      RestClear(vs, i);
      RestSimple(vs, i);
      RestTurns(vs, i);
      TurnsDecide(RemoveAt(vs, i));
    }
  }

  /** So its sampling weights are exactly its area if and only if it turns clockwise. */
  lemma {:induction false} SimpleWeights(vs: seq<Point>)
    requires Clear(vs) && Simple(vs) && Triangulation(vs).Some?
    ensures AbsSum(Triangulation(vs).value.triangles) == -TwiceArea(vs) <==> Turns(vs) == 2
    ensures Turns(vs) == 2 || Turns(vs) == -2
  {
    TurnsDecide(vs);
    SamplingWeights(vs);
  }
}

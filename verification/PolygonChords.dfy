/** Segments that do not meet: what can be seen from a corner of a polygon past its sides. */
module PolygonChords {
  import opened Prelude
  import opened EarClipping
  import opened SimplePolygons
  import opened PolygonParity

  // ---------- within a triangle ----------

  /** Both points of a pair, and each with every two corners, are off one line. */
  predicate PairGeneric(p: Point, c: Point, q: Point, x: Point, y: Point) {
    && Generic(p, c, q, x) && Generic(p, c, q, y)
    && Cross(x, y, p) != 0.0 && Cross(x, y, c) != 0.0 && Cross(x, y, q) != 0.0
  }

  lemma {:induction false} WeightedSides(p: Point, c: Point, q: Point, v: Point, x: Point, y: Point)
    ensures Cross(p, c, q) * Cross(x, y, v)
            == Cross(c, q, v) * Cross(x, y, p) + Cross(q, p, v) * Cross(x, y, c) + Cross(p, c, v) * Cross(x, y, q)
  {
  }

  /** A line with all three corners on one side has the inner points there too. */
  lemma {:induction false} SameSideInside(p: Point, c: Point, q: Point, v: Point, x: Point, y: Point)
    requires Generic(p, c, q, v) && Within(p, c, q, v)
    requires SameSign(Cross(x, y, p), Cross(x, y, c)) && SameSign(Cross(x, y, c), Cross(x, y, q))
    ensures SameSign(Cross(x, y, v), Cross(x, y, c))
  {
    WeightedSides(p, c, q, v, x, y);
    ThreeParts(p, c, q, v);
    ProductSign(Cross(c, q, v), Cross(x, y, p));
    ProductSign(Cross(q, p, v), Cross(x, y, c));
    ProductSign(Cross(p, c, v), Cross(x, y, q));
    ProductSign(Cross(p, c, q), Cross(x, y, v));
  }

  lemma {:induction false} SubWeights(p: Point, c: Point, q: Point, v: Point, x: Point)
    ensures Cross(p, c, v) * Cross(c, q, x) == Cross(c, v, x) * Cross(c, q, p) + Cross(p, c, x) * Cross(c, q, v)
    ensures Cross(p, c, v) * Cross(q, p, x) == Cross(v, p, x) * Cross(q, p, c) + Cross(p, c, x) * Cross(q, p, v)
  {
  }

  /** A point within the part of a triangle next to one side is within the triangle. */
  lemma {:induction false} WithinPart(p: Point, c: Point, q: Point, v: Point, x: Point)
    requires Generic(p, c, q, v) && Within(p, c, q, v) && Within(p, c, v, x)
    ensures Within(p, c, q, x)
  {
    SubWeights(p, c, q, v, x);
    ThreeParts(p, c, q, v);
    ThreeParts(p, c, v, x);
    CrossIsDet(c, q, p);
    CrossIsDet(q, p, c);
    ProductSign(Cross(c, v, x), Cross(c, q, p));
    ProductSign(Cross(p, c, x), Cross(c, q, v));
    ProductSign(Cross(p, c, v), Cross(c, q, x));
    ProductSign(Cross(v, p, x), Cross(q, p, c));
    ProductSign(Cross(p, c, x), Cross(q, p, v));
    ProductSign(Cross(p, c, v), Cross(q, p, x));
  }

  lemma {:induction false} WithinTurned(p: Point, c: Point, q: Point, x: Point)
    requires Within(p, c, q, x)
    ensures Within(q, c, p, x) && Within(c, q, p, x) && Within(c, p, q, x)
  {
    ThreeParts(p, c, q, x);
    ThreeParts(c, q, p, x);
    CrossIsDet(x, p, c);
    CrossIsDet(x, c, q);
    CrossIsDet(x, q, p);
    CrossIsDet(p, c, x);
    CrossIsDet(c, q, x);
    CrossIsDet(q, p, x);
  }

  // ---------- from a corner to a point within it ----------

  /** An inner point is off every line through a corner and an end of a segment, and off the segment's own. */
  predicate PointGeneric(p: Point, c: Point, q: Point, v: Point, x: Point, y: Point) {
    && Generic(p, c, q, v) && Cross(x, y, v) != 0.0
    && Cross(p, v, x) != 0.0 && Cross(c, v, x) != 0.0 && Cross(q, v, x) != 0.0
    && Cross(p, v, y) != 0.0 && Cross(c, v, y) != 0.0 && Cross(q, v, y) != 0.0
  }

  /** By way of one neighbour of the corner. */
  lemma {:induction false} ApartByNeighbour(p: Point, c: Point, q: Point, v: Point, x: Point, y: Point)
    requires PointGeneric(p, c, q, v, x, y) && PairGeneric(p, c, q, x, y) && Within(p, c, q, v)
    requires !Within(p, c, q, x) && !Within(p, c, q, y)
    requires Apart(p, c, x, y) && Apart(p, v, x, y)
    ensures Apart(c, v, x, y)
  {
    if Within(c, p, v, x) {
      WithinTurned(c, p, v, x);
      WithinTurned(p, v, c, x);
      WithinPart(p, c, q, v, x);
    }
    if Within(c, p, v, y) {
      WithinTurned(c, p, v, y);
      WithinTurned(p, v, c, y);
      WithinPart(p, c, q, v, y);
    }
    ThreeParts(p, c, q, v);
    ThreeParts(p, c, q, x);
    ThreeParts(p, c, q, y);
    CrossIsDet(c, v, x);
    CrossIsDet(c, v, y);
    CrossTurns(c, v, x);
    CrossTurns(c, v, y);
    ApartSwapped(p, c, x, y);
    ThirdSideApart(c, p, v, x, y);
  }

  /**
   * A segment that stays outside a triangle and meets neither side of a corner is apart from the way to any inner
   * point.
   */
  lemma {:induction false} InsideApart(p: Point, c: Point, q: Point, v: Point, x: Point, y: Point)
    requires PointGeneric(p, c, q, v, x, y) && PairGeneric(p, c, q, x, y) && Within(p, c, q, v)
    requires !Within(p, c, q, x) && !Within(p, c, q, y)
    requires Apart(p, c, x, y) && Apart(c, q, x, y)
    ensures Apart(c, v, x, y)
  {
    if Apart(p, v, x, y) {
      ApartByNeighbour(p, c, q, v, x, y);
    } else if Apart(q, v, x, y) {
      MirroredGeneric(p, c, q, v, x, y);
      ApartSwapped(c, q, x, y);
      ApartByNeighbour(q, c, p, v, x, y);
    } else if !Apart(c, v, x, y) {
      SameSideInside(p, c, q, v, x, y);
    }
  }

  lemma {:induction false} MirroredGeneric(p: Point, c: Point, q: Point, v: Point, x: Point, y: Point)
    requires PointGeneric(p, c, q, v, x, y) && PairGeneric(p, c, q, x, y)
    ensures PointGeneric(q, c, p, v, x, y) && PairGeneric(q, c, p, x, y)
    ensures Within(p, c, q, v) <==> Within(q, c, p, v)
    ensures Within(p, c, q, x) <==> Within(q, c, p, x)
    ensures Within(p, c, q, y) <==> Within(q, c, p, y)
  {
    ThreeParts(p, c, q, v);
    ThreeParts(p, c, q, x);
    ThreeParts(p, c, q, y);
  }

  // ---------- a side that begins at a corner's neighbour ----------

  /** A side from `p` leaves it outside the angle there between the corner and its other neighbour. */
  lemma {:induction false} OutsideAngle(p: Point, c: Point, q: Point, y: Point)
    requires Generic(p, c, q, y) && !Within(p, c, q, y) && Apart(p, y, c, q)
    ensures !(SameSign(Cross(p, c, y), Cross(p, c, q)) && SameSign(-Cross(p, q, y), Cross(p, c, q)))
  {
    ThreeParts(p, c, q, y);
    ApartSwapped(p, y, c, q);
    ApartSwapped(y, p, c, q);
    if Cross(p, c, q) < 0.0 {
      OutsideCone(p, c, q, y);
    } else {
      OutsideConeEnd(q, c, p, y);
    }
  }

  /**
   * The same in terms of the directions from `p` to the corner, its other neighbour, a point within and the side's end.
   */
  lemma {:induction false} AngleApart(cq: real, cv: real, cy: real, qv: real, qy: real, yv: real)
    requires cq * yv == qv * cy - cv * qy
    requires cq < 0.0 && cv < 0.0 && qv > 0.0 && cy != 0.0 && qy != 0.0 && yv != 0.0
    requires cy > 0.0 || qy < 0.0
    ensures SameSign(-cy, yv) || SameSign(cv, cv - cy - yv)
  {
    ProductSign(cq, yv);
    ProductSign(qv, cy);
    ProductSign(cv, qy);
  }

  lemma {:induction false} FromOnePoint(p: Point, c: Point, q: Point, v: Point, y: Point)
    ensures Cross(p, c, q) * Cross(p, y, v) == Cross(p, q, v) * Cross(p, c, y) - Cross(p, c, v) * Cross(p, q, y)
    ensures Cross(c, v, y) == Cross(p, c, v) - Cross(p, c, y) - Cross(p, y, v)
    ensures Cross(c, v, p) == Cross(p, c, v) && Cross(p, y, c) == -Cross(p, c, y)
  {
  }

  /** Such a side is apart from the way from the corner to any inner point. */
  lemma {:induction false} CornerApart(p: Point, c: Point, q: Point, v: Point, y: Point)
    requires Generic(p, c, q, v) && Within(p, c, q, v) && Generic(p, c, q, y) && !Within(p, c, q, y)
    requires Cross(p, y, v) != 0.0 && Apart(p, y, c, q)
    ensures Apart(c, v, p, y)
  {
    OutsideAngle(p, c, q, y);
    FromOnePoint(p, c, q, v, y);
    ThreeParts(p, c, q, v);
    ThreeParts(p, c, q, y);
    var cq, cv, cy := Cross(p, c, q), Cross(p, c, v), Cross(p, c, y);
    var qv, qy, yv := Cross(p, q, v), Cross(p, q, y), Cross(p, y, v);
    if cq < 0.0 {
      AngleApart(cq, cv, cy, qv, qy, yv);
    } else {
      assert (-cq) * (-yv) == cq * yv && (-qv) * (-cy) == qv * cy && (-cv) * (-qy) == cv * qy;
      AngleApart(-cq, -cv, -cy, -qv, -qy, -yv);
    }
  }

  // ---------- heights above the base ----------

  /** Plücker's relation of four points, weighed by their heights. */
  lemma {:induction false} HeightsRelated(p: Point, q: Point, a: Point, b: Point, z: Point, m: Point)
    ensures Cross(m, z, a) - Cross(m, z, b) + Cross(a, b, m) - Cross(a, b, z) == 0.0
    ensures Cross(m, z, a) * Cross(p, q, b) - Cross(m, z, b) * Cross(p, q, a)
            + Cross(a, b, m) * Cross(p, q, z) - Cross(a, b, z) * Cross(p, q, m) == 0.0
  {
  }

  /** The same relation with heights taken from that of `z`. */
  lemma {:induction false} HeightsFrom(u: real, v: real, w: real, x: real, ha: real, hb: real, hz: real, hm: real)
    requires u - v + w - x == 0.0 && u * hb - v * ha + w * hz - x * hm == 0.0
    ensures u * (hb - hz) - v * (ha - hz) - x * (hm - hz) == 0.0
  {
  }

  lemma {:induction false} LowSigns(u: real, v: real, w: real, x: real, ha: real, hb: real, hm: real)
    requires u - v + w - x == 0.0 && u * hb - v * ha - x * hm == 0.0
    requires u != 0.0 && v != 0.0 && w != 0.0 && x != 0.0 && ha <= 0.0 && hb <= 0.0 && hm > 0.0
    ensures SameSign(u, v) || SameSign(w, x)
  {
    ProductSign(u, hb);
    ProductSign(v, ha);
    ProductSign(x, hm);
  }

  lemma {:induction false} LowByHeights(u: real, v: real, w: real, x: real, ha: real, hb: real, hz: real, hm: real)
    requires u - v + w - x == 0.0 && u * hb - v * ha + w * hz - x * hm == 0.0
    requires u != 0.0 && v != 0.0 && w != 0.0 && x != 0.0 && ha <= hz && hb <= hz && hm > hz
    ensures SameSign(u, v) || SameSign(w, x)
  {
    HeightsFrom(u, v, w, x, ha, hb, hz, hm);
    LowSigns(u, v, w, x, ha - hz, hb - hz, hm - hz);
  }

  /** What lies no higher than `z` does not meet the way from there up to `m`. */
  lemma {:induction false} LowApart(p: Point, q: Point, m: Point, z: Point, a: Point, b: Point)
    requires FourGeneric(m, z, a, b) && Cross(p, q, m) > Cross(p, q, z)
    requires Cross(p, q, a) <= Cross(p, q, z) && Cross(p, q, b) <= Cross(p, q, z)
    ensures Apart(m, z, a, b)
  {
    HeightsRelated(p, q, a, b, z, m);
    LowByHeights(Cross(m, z, a), Cross(m, z, b), Cross(a, b, m), Cross(a, b, z),
                 Cross(p, q, a), Cross(p, q, b), Cross(p, q, z), Cross(p, q, m));
  }

  /** A segment from within a triangle that leaves it past neither side of a corner ends below its base. */
  lemma {:induction false} BaseSigns(u1: real, u2: real, u3: real, v1: real, v2: real, v3: real,
                                     a: real, b: real, c: real, area: real)
    requires area < 0.0 && v1 + v2 + v3 == area
    requires area * a == u2 * v3 - u3 * v2 && area * b == u3 * v1 - u1 * v3 && area * c == u1 * v2 - u2 * v1
    requires u1 < 0.0 && u2 < 0.0 && u3 < 0.0 && v1 != 0.0 && v2 != 0.0 && v3 != 0.0
    requires a != 0.0 && b != 0.0 && c != 0.0
    requires v1 > 0.0 || v2 > 0.0 || v3 > 0.0
    requires SameSign(u3, v3) || SameSign(a, b)
    requires SameSign(u1, v1) || SameSign(b, c)
    ensures v2 > 0.0
  {
    ProductSign(u2, v3);
    ProductSign(u3, v2);
    ProductSign(u3, v1);
    ProductSign(u1, v3);
    ProductSign(u1, v2);
    ProductSign(u2, v1);
    ProductSign(area, a);
    ProductSign(area, b);
    ProductSign(area, c);
  }

  lemma {:induction false} ClockwiseExit(p: Point, m: Point, q: Point, a: Point, b: Point)
    requires Cross(p, m, q) < 0.0 && PairGeneric(p, m, q, a, b) && Within(p, m, q, a) && !Within(p, m, q, b)
    requires Apart(p, m, a, b) && Apart(m, q, a, b)
    ensures Cross(q, p, b) > 0.0
  {
    ThreeParts(p, m, q, a);
    ThreeParts(p, m, q, b);
    Barycentric(p, m, q, a, b);
    BaseSigns(Cross(m, q, a), Cross(q, p, a), Cross(p, m, a), Cross(m, q, b), Cross(q, p, b), Cross(p, m, b),
              Cross(a, b, p), Cross(a, b, m), Cross(a, b, q), Cross(p, m, q));
  }

  /** Whichever way the triangle turns. */
  lemma {:induction false} ExitBelow(p: Point, m: Point, q: Point, a: Point, b: Point)
    requires PairGeneric(p, m, q, a, b) && Within(p, m, q, a) && !Within(p, m, q, b)
    requires Apart(p, m, a, b) && Apart(m, q, a, b)
    ensures SameSign(Cross(p, q, b), -Cross(p, q, m))
  {
    ThreeParts(p, m, q, a);
    ThreeParts(p, m, q, b);
    CrossIsDet(p, m, q);
    CrossIsDet(p, q, m);
    if Cross(p, m, q) < 0.0 {
      ClockwiseExit(p, m, q, a, b);
    } else {
      ApartSwapped(p, m, a, b);
      ApartSwapped(m, q, a, b);
      ClockwiseExit(q, m, p, a, b);
    }
  }

  // ---------- sides and chords of a polygon against its blank corners ----------

  function PairCross(vs: seq<Point>, i: nat, j: nat, v: Point): real
    requires i < |vs| && j < |vs|
  {
    Cross(vs[i], vs[j], v)
  }

  /** A point on no line through two vertices. */
  ghost predicate OffLines(vs: seq<Point>, v: Point) {
    forall i: nat, j: nat :: i < |vs| && j < |vs| && i != j ==> PairCross(vs, i, j, v) != 0.0
  }

  /** A segment that does not meet the way between a point and a vertex. */
  predicate Spares(a: Point, b: Point, v: Point, c: Point) { FourGeneric(a, b, v, c) && Apart(a, b, v, c) }

  lemma {:induction false} SparesSwapped(a: Point, b: Point, v: Point, c: Point)
    requires Spares(a, b, v, c)
    ensures Spares(b, a, v, c) && Spares(a, b, c, v)
  {
    ApartSwapped(a, b, v, c);
    CrossTurns(a, b, v);
    CrossTurns(a, b, c);
    CrossTurns(v, c, a);
    CrossTurns(v, c, b);
  }

  lemma {:induction false} OffLine(vs: seq<Point>, v: Point, i: nat, j: nat)
    requires OffLines(vs, v) && i < |vs| && j < |vs| && i != j
    ensures Cross(vs[i], vs[j], v) != 0.0 && Cross(vs[i], v, vs[j]) != 0.0 && Cross(v, vs[i], vs[j]) != 0.0
  {
    assert PairCross(vs, i, j, v) != 0.0;
    CrossIsDet(v, vs[i], vs[j]);
    CrossIsDet(vs[i], vs[j], v);
  }

  lemma {:induction false} SparesGeneric(vs: seq<Point>, v: Point, i: nat, j: nat, x: nat)
    requires General(vs) && OffLines(vs, v) && i < |vs| && j < |vs| && x < |vs| && i != j && i != x && j != x
    ensures FourGeneric(vs[i], vs[j], v, vs[x])
  {
    OffLine(vs, v, i, j);
    GeneralAny(vs, i, j, x);
    OffLine(vs, v, x, i);
    OffLine(vs, v, x, j);
  }

  lemma {:induction false} CornerGeneric(vs: seq<Point>, v: Point, b: nat, x: nat, a: nat)
    requires General(vs) && OffLines(vs, v) && b < |vs| && x < |vs| && a < |vs| && b != x && b != a && x != a
    ensures Generic(vs[b], vs[x], vs[a], v) && Generic(vs[a], vs[x], vs[b], v)
    ensures Within(vs[b], vs[x], vs[a], v) <==> Within(vs[a], vs[x], vs[b], v)
  {
    GeneralAny(vs, b, x, a);
    GeneralAny(vs, a, x, b);
    OffLine(vs, v, b, x);
    OffLine(vs, v, x, b);
    OffLine(vs, v, x, a);
    OffLine(vs, v, a, x);
    OffLine(vs, v, a, b);
    OffLine(vs, v, b, a);
    ThreeParts(vs[b], vs[x], vs[a], v);
  }

  /** A segment between other vertices, apart from both sides of a blank corner. */
  lemma {:induction false} FarSegment(vs: seq<Point>, b: nat, x: nat, a: nat, v: Point, i: nat, j: nat)
    requires General(vs) && OffLines(vs, v) && b < |vs| && x < |vs| && a < |vs| && i < |vs| && j < |vs|
    requires b != x && b != a && x != a && i != j && i != b && i != x && i != a && j != b && j != x && j != a
    requires Within(vs[b], vs[x], vs[a], v) && !Within(vs[b], vs[x], vs[a], vs[i])
             && !Within(vs[b], vs[x], vs[a], vs[j])
    requires Apart(vs[b], vs[x], vs[i], vs[j]) && Apart(vs[x], vs[a], vs[i], vs[j])
    ensures Spares(vs[i], vs[j], v, vs[x])
  {
    CornerGeneric(vs, v, b, x, a);
    GenericAt(vs, b, x, a, i);
    GenericAt(vs, b, x, a, j);
    GeneralAny(vs, i, j, b);
    GeneralAny(vs, i, j, x);
    GeneralAny(vs, i, j, a);
    OffLine(vs, v, i, j);
    OffLine(vs, v, b, i);
    OffLine(vs, v, x, i);
    OffLine(vs, v, a, i);
    OffLine(vs, v, b, j);
    OffLine(vs, v, x, j);
    OffLine(vs, v, a, j);
    InsideApart(vs[b], vs[x], vs[a], v, vs[i], vs[j]);
    ApartSwapped(vs[x], v, vs[i], vs[j]);
    ApartSwapped(vs[i], vs[j], vs[x], v);
    SparesGeneric(vs, v, i, j, x);
  }

  /** A segment from one neighbour of a blank corner, apart from the corner's other side. */
  lemma {:induction false} NearSegment(vs: seq<Point>, b: nat, x: nat, a: nat, v: Point, j: nat)
    requires General(vs) && OffLines(vs, v) && b < |vs| && x < |vs| && a < |vs| && j < |vs|
    requires b != x && b != a && x != a && j != b && j != x && j != a
    requires Within(vs[b], vs[x], vs[a], v) && !Within(vs[b], vs[x], vs[a], vs[j])
    requires Apart(vs[b], vs[j], vs[x], vs[a])
    ensures Spares(vs[b], vs[j], v, vs[x])
  {
    CornerGeneric(vs, v, b, x, a);
    GenericAt(vs, b, x, a, j);
    OffLine(vs, v, b, j);
    CornerApart(vs[b], vs[x], vs[a], v, vs[j]);
    ApartSwapped(vs[x], v, vs[b], vs[j]);
    ApartSwapped(vs[b], vs[j], vs[x], v);
    SparesGeneric(vs, v, b, j, x);
  }

  /** The segment between the neighbours themselves. */
  lemma {:induction false} BaseSegment(vs: seq<Point>, b: nat, x: nat, a: nat, v: Point)
    requires General(vs) && OffLines(vs, v) && b < |vs| && x < |vs| && a < |vs| && b != x && b != a && x != a
    requires Within(vs[b], vs[x], vs[a], v)
    ensures Spares(vs[b], vs[a], v, vs[x])
  {
    CornerGeneric(vs, v, b, x, a);
    ThreeParts(vs[b], vs[x], vs[a], v);
    CrossIsDet(vs[b], vs[x], vs[a]);
    SparesGeneric(vs, v, b, a, x);
  }

  /** No side but the corner's own meets the way from a blank corner to a point within it. */
  lemma {:induction false} SideSpares(vs: seq<Point>, x: nat, v: Point, j: nat)
    requires General(vs) && Simple(vs) && |vs| > 3 && x < |vs| && Blank(vs, x) && OffLines(vs, v) && InCorner(vs, x, v)
    requires j < |vs| && j != x && After(|vs|, j) != x
    ensures Spares(vs[j], vs[After(|vs|, j)], v, vs[x])
  {
    var n := |vs|;
    var b, a, k := Before(n, x), After(n, x), After(n, j);
    CornerGeneric(vs, v, b, x, a);
    if j == a {
      TwoSides(vs, a, b);
      ApartSwapped(vs[a], vs[k], vs[b], vs[x]);
      CornerGeneric(vs, v, a, x, b);
      assert !InCorner(vs, x, vs[k]);
      GenericAt(vs, b, x, a, k);
      ThreeParts(vs[b], vs[x], vs[a], vs[k]);
      NearSegment(vs, a, x, b, v, k);
    } else if k == b {
      TwoSides(vs, j, x);
      ApartSwapped(vs[j], vs[b], vs[x], vs[a]);
      assert !InCorner(vs, x, vs[j]);
      NearSegment(vs, b, x, a, v, j);
      SparesSwapped(vs[b], vs[j], v, vs[x]);
    } else {
      TwoSides(vs, b, j);
      TwoSides(vs, x, j);
      assert !InCorner(vs, x, vs[j]) && !InCorner(vs, x, vs[k]);
      FarSegment(vs, b, x, a, v, j, k);
    }
  }

  // ---------- a chord from the first vertex ----------

  /** The segment from the first vertex to vertex `t` meets no side but those at its ends. */
  ghost predicate Chord(vs: seq<Point>, t: nat)
    requires 0 < t < |vs|
  {
    forall j: nat :: ChordClears(vs, t, j)
  }

  predicate ChordClears(vs: seq<Point>, t: nat, j: nat)
    requires 0 < t < |vs|
  {
    0 < j < |vs| - 1 && j != t && j + 1 != t ==> Apart(vs[0], vs[t], vs[j], vs[j + 1])
  }

  /** It does not meet the way from a blank corner to a point within it. */
  lemma {:induction false} ChordSpares(vs: seq<Point>, t: nat, x: nat, v: Point)
    requires General(vs) && 2 <= t < |vs| - 1 && Chord(vs, t)
    requires 0 < x < |vs| && x != t && Blank(vs, x) && OffLines(vs, v) && InCorner(vs, x, v)
    ensures Spares(vs[0], vs[t], v, vs[x])
  {
    var n := |vs|;
    var b, a := Before(n, x), After(n, x);
    CornerGeneric(vs, v, b, x, a);
    assert ChordClears(vs, t, x) && ChordClears(vs, t, b);
    if (b == 0 && a == t) || (a == 0 && b == t) {
      BaseSegment(vs, b, x, a, v);
      SparesSwapped(vs[b], vs[a], v, vs[x]);
    } else if b == 0 {
      assert !InCorner(vs, x, vs[t]);
      NearSegment(vs, b, x, a, v, t);
    } else if a == 0 {
      assert !InCorner(vs, x, vs[t]);
      GenericAt(vs, b, x, a, t);
      ThreeParts(vs[b], vs[x], vs[a], vs[t]);
      ApartSwapped(vs[0], vs[t], vs[b], vs[x]);
      NearSegment(vs, a, x, b, v, t);
    } else if b == t {
      assert !InCorner(vs, x, vs[0]);
      ApartSwapped(vs[0], vs[t], vs[x], vs[a]);
      NearSegment(vs, b, x, a, v, 0);
      SparesSwapped(vs[t], vs[0], v, vs[x]);
    } else if a == t {
      assert !InCorner(vs, x, vs[0]);
      GenericAt(vs, b, x, a, 0);
      ThreeParts(vs[b], vs[x], vs[a], vs[0]);
      ApartSwapped(vs[0], vs[t], vs[b], vs[x]);
      ApartSwapped(vs[t], vs[0], vs[b], vs[x]);
      NearSegment(vs, a, x, b, v, 0);
      SparesSwapped(vs[t], vs[0], v, vs[x]);
    } else {
      assert !InCorner(vs, x, vs[0]) && !InCorner(vs, x, vs[t]);
      ApartSwapped(vs[0], vs[t], vs[b], vs[x]);
      ApartSwapped(vs[0], vs[t], vs[x], vs[a]);
      FarSegment(vs, b, x, a, v, 0, t);
    }
  }

  /** Height above the line through the first vertex's neighbours, on its side. */
  function Height(vs: seq<Point>, k: nat): real
    requires |vs| >= 3 && k < |vs|
  {
    var p, m, q := vs[|vs| - 1], vs[0], vs[1];
    if Cross(p, q, m) > 0.0 then Cross(p, q, vs[k]) else Cross(q, p, vs[k])
  }

  /** The highest of the vertices within the first corner, up to `n`. */
  lemma {:induction false} Highest(vs: seq<Point>, n: nat) returns (t: nat)
    requires |vs| > 3 && n <= |vs| - 1 && exists k: nat :: 2 <= k < n && InCorner(vs, 0, vs[k])
    ensures 2 <= t < n && InCorner(vs, 0, vs[t])
    ensures forall k: nat :: 2 <= k < n && InCorner(vs, 0, vs[k]) ==> Height(vs, k) <= Height(vs, t)
    decreases n
  {
    var last := n - 1;
    if exists k: nat :: 2 <= k < last && InCorner(vs, 0, vs[k]) {
      t := Highest(vs, last);
      if InCorner(vs, 0, vs[last]) && Height(vs, last) > Height(vs, t) {
        t := last;
      }
    } else {
      t := last;
    }
  }

  /** Nothing no higher than the chord's end meets it. */
  lemma {:induction false} LowSide(vs: seq<Point>, t: nat, i: nat, j: nat)
    requires General(vs) && 2 <= t < |vs| - 1 && InCorner(vs, 0, vs[t])
    requires 0 < i < |vs| && 0 < j < |vs| && i != j && i != t && j != t
    requires Height(vs, i) <= Height(vs, t) && Height(vs, j) <= Height(vs, t)
    ensures Apart(vs[0], vs[t], vs[i], vs[j])
  {
    var n := |vs|;
    var p, m, q, z := vs[n - 1], vs[0], vs[1], vs[t];
    GenericAt(vs, n - 1, 0, 1, t);
    ThreeParts(p, m, q, z);
    CrossIsDet(p, q, m);
    CrossIsDet(q, p, m);
    CrossIsDet(p, m, q);
    CrossIsDet(z, q, p);
    GeneralAny(vs, 0, t, i);
    GeneralAny(vs, 0, t, j);
    GeneralAny(vs, i, j, 0);
    GeneralAny(vs, i, j, t);
    if Cross(p, q, m) > 0.0 {
      LowApart(p, q, m, z, vs[i], vs[j]);
    } else {
      LowApart(q, p, m, z, vs[i], vs[j]);
    }
  }

  /** No vertex within the first corner is higher than `t`. */
  ghost predicate Topmost(vs: seq<Point>, t: nat)
    requires |vs| > 3 && t < |vs|
  {
    forall k: nat :: 2 <= k < |vs| - 1 && InCorner(vs, 0, vs[k]) ==> Height(vs, k) <= Height(vs, t)
  }

  lemma {:induction false} BaseIsLow(vs: seq<Point>, t: nat)
    requires General(vs) && 2 <= t < |vs| - 1 && InCorner(vs, 0, vs[t])
    ensures Height(vs, 1) == 0.0 && Height(vs, |vs| - 1) == 0.0 && Height(vs, t) > 0.0
  {
    var n := |vs|;
    var p, m, q, z := vs[n - 1], vs[0], vs[1], vs[t];
    GenericAt(vs, n - 1, 0, 1, t);
    ThreeParts(p, m, q, z);
    CrossIsDet(p, q, m);
    CrossIsDet(p, m, q);
    CrossIsDet(z, q, p);
    FromOnePoint(p, q, q, q, q);
    FromOnePoint(q, p, p, p, p);
  }

  /** A side that leaves the first corner does so below its base. */
  lemma {:induction false} LeavingSide(vs: seq<Point>, i: nat, j: nat)
    requires General(vs) && |vs| > 3 && 1 < i < |vs| - 1 && 1 < j < |vs| - 1 && i != j
    requires InCorner(vs, 0, vs[i]) && !InCorner(vs, 0, vs[j])
    requires Apart(vs[|vs| - 1], vs[0], vs[i], vs[j]) && Apart(vs[0], vs[1], vs[i], vs[j])
    ensures Height(vs, j) < 0.0
  {
    var n := |vs|;
    var p, m, q := vs[n - 1], vs[0], vs[1];
    GenericAt(vs, n - 1, 0, 1, i);
    GenericAt(vs, n - 1, 0, 1, j);
    GeneralAny(vs, i, j, n - 1);
    GeneralAny(vs, i, j, 0);
    GeneralAny(vs, i, j, 1);
    ExitBelow(p, m, q, vs[i], vs[j]);
    CrossTurns(p, q, vs[j]);
    CrossTurns(p, q, m);
  }

  /** A side that stays outside the first corner does not meet the chord. */
  lemma {:induction false} OutsideSide(vs: seq<Point>, t: nat, i: nat, j: nat)
    requires General(vs) && 2 <= t < |vs| - 1 && InCorner(vs, 0, vs[t])
    requires 1 < i < |vs| - 1 && 1 < j < |vs| - 1 && i != j && i != t && j != t
    requires !InCorner(vs, 0, vs[i]) && !InCorner(vs, 0, vs[j])
    requires Apart(vs[|vs| - 1], vs[0], vs[i], vs[j]) && Apart(vs[0], vs[1], vs[i], vs[j])
    ensures Apart(vs[0], vs[t], vs[i], vs[j])
  {
    var n := |vs|;
    GenericAt(vs, n - 1, 0, 1, i);
    GenericAt(vs, n - 1, 0, 1, j);
    GenericAt(vs, n - 1, 0, 1, t);
    GeneralAny(vs, i, j, n - 1);
    GeneralAny(vs, i, j, 0);
    GeneralAny(vs, i, j, 1);
    GeneralAny(vs, i, j, t);
    GeneralAny(vs, n - 1, t, i);
    GeneralAny(vs, 0, t, i);
    GeneralAny(vs, 1, t, i);
    GeneralAny(vs, n - 1, t, j);
    GeneralAny(vs, 0, t, j);
    GeneralAny(vs, 1, t, j);
    InsideApart(vs[n - 1], vs[0], vs[1], vs[t], vs[i], vs[j]);
  }

  /** A side from one of the first vertex's neighbours, the other end outside the first corner. */
  lemma {:induction false} EdgeSide(vs: seq<Point>, t: nat, b: nat, a: nat, j: nat)
    requires General(vs) && 2 <= t < |vs| - 1 && InCorner(vs, 0, vs[t])
    requires (b == 1 && a == |vs| - 1) || (b == |vs| - 1 && a == 1)
    requires 1 < j < |vs| - 1 && j != t && !InCorner(vs, 0, vs[j]) && Apart(vs[b], vs[j], vs[0], vs[a])
    ensures Apart(vs[0], vs[t], vs[b], vs[j])
  {
    var n := |vs|;
    GenericAt(vs, b, 0, a, t);
    GenericAt(vs, b, 0, a, j);
    GenericAt(vs, n - 1, 0, 1, t);
    GenericAt(vs, n - 1, 0, 1, j);
    ThreeParts(vs[n - 1], vs[0], vs[1], vs[t]);
    ThreeParts(vs[n - 1], vs[0], vs[1], vs[j]);
    GeneralAny(vs, b, j, t);
    CornerApart(vs[b], vs[0], vs[a], vs[t], vs[j]);
  }

  lemma {:induction false} ChordClearsSide(vs: seq<Point>, t: nat, j: nat)
    requires General(vs) && Simple(vs) && 2 <= t < |vs| - 1 && InCorner(vs, 0, vs[t]) && Topmost(vs, t)
    requires 0 < j < |vs| - 1 && j != t && j + 1 != t
    ensures Apart(vs[0], vs[t], vs[j], vs[j + 1])
  {
    var n := |vs|;
    BaseIsLow(vs, t);
    if j == 1 {
      if InCorner(vs, 0, vs[2]) {
        LowSide(vs, t, 1, 2);
      } else {
        TwoSides(vs, 1, n - 1);
        ApartSwapped(vs[1], vs[2], vs[n - 1], vs[0]);
        EdgeSide(vs, t, 1, n - 1, 2);
      }
    } else if j == n - 2 {
      if InCorner(vs, 0, vs[j]) {
        LowSide(vs, t, j, n - 1);
      } else {
        TwoSides(vs, j, 0);
        ApartSwapped(vs[j], vs[n - 1], vs[0], vs[1]);
        EdgeSide(vs, t, n - 1, 1, j);
        ApartSwapped(vs[0], vs[t], vs[n - 1], vs[j]);
      }
    } else {
      TwoSides(vs, n - 1, j);
      TwoSides(vs, 0, j);
      ApartSwapped(vs[n - 1], vs[0], vs[j], vs[j + 1]);
      ApartSwapped(vs[0], vs[1], vs[j], vs[j + 1]);
      if !InCorner(vs, 0, vs[j]) && !InCorner(vs, 0, vs[j + 1]) {
        OutsideSide(vs, t, j, j + 1);
      } else {
        if !InCorner(vs, 0, vs[j]) {
          LeavingSide(vs, j + 1, j);
        } else if !InCorner(vs, 0, vs[j + 1]) {
          LeavingSide(vs, j, j + 1);
        }
        LowSide(vs, t, j, j + 1);
      }
    }
  }

  /** A first corner that is not blank can be cut by a chord to a vertex within it. */
  lemma {:induction false} ChordExists(vs: seq<Point>) returns (t: nat)
    requires General(vs) && Simple(vs) && |vs| > 3 && !Blank(vs, 0)
    ensures 2 <= t < |vs| - 1 && InCorner(vs, 0, vs[t]) && Chord(vs, t)
  {
    var n := |vs|;
    assert exists k: nat :: 2 <= k < n - 1 && InCorner(vs, 0, vs[k]);
    t := Highest(vs, n - 1);
    forall j: nat ensures ChordClears(vs, t, j) {
      if 0 < j < n - 1 && j != t && j + 1 != t {
        ChordClearsSide(vs, t, j);
      }
    }
  }
}

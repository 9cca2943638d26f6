/** Clipping a marker's line segment to the unit square of the image. */
module SegmentClipping {
  import opened Prelude

  /** Components no larger than this count as none at all. */
  const PARALLEL: real := 0.000000000001

  /** One side of the square: at `t` the segment is on its inner side when `p * t <= q`. */
  datatype Side = Side(p: real, q: real)

  /** The parameters of a segment that are still in question. */
  datatype Range = Range(lower: real, upper: real)

  function Sides(a: Point, b: Point): (sides: seq<Side>)
    ensures |sides| == 4
  {
    var dx, dy := b.x - a.x, b.y - a.y;
    [Side(-dx, a.x), Side(dx, 1.0 - a.x), Side(-dy, a.y), Side(dy, 1.0 - a.y)]
  }

  /** What one side leaves of a range; nothing when the segment runs outside along it, or the range is empty. */
  function Narrowed(side: Side, r: Range): Option<Range> {
    if Abs(side.p) <= PARALLEL then
      if side.q < 0.0 then None else Some(r)
    else
      var ratio := side.q / side.p;
      var s := if side.p < 0.0 then Range(Max(r.lower, ratio), r.upper) else Range(r.lower, Min(r.upper, ratio));
      if s.lower > s.upper then None else Some(s)
  }

  function NarrowedBy(sides: seq<Side>, r: Range): Option<Range> {
    if sides == [] then Some(r)
    else
      match NarrowedBy(sides[..|sides| - 1], r)
      case None => None
      case Some(s) => Narrowed(sides[|sides| - 1], s)
  }

  /** A coordinate that starts at `x` and changes by `d` over the segment. */
  function Along(x: real, d: real, t: real): real { x + t * d }

  function PointAt(a: Point, b: Point, t: real): Point {
    Point(Along(a.x, b.x - a.x, t), Along(a.y, b.y - a.y, t))
  }

  /** The clipped segment's ends; none when nothing of the segment is left. */
  function Clipped(a: Point, b: Point): Option<(Point, Point)> {
    match NarrowedBy(Sides(a, b), Range(0.0, 1.0))
    case None => None
    case Some(r) => Some((PointAt(a, b, r.lower), PointAt(a, b, r.upper)))
  }

  method ClipSegment(a: Point, b: Point) returns (r: Option<(Point, Point)>)
    ensures r == Clipped(a, b)
  {
    var dx, dy := b.x - a.x, b.y - a.y;
    var lower, upper := 0.0, 1.0;
    var sides := [Side(-dx, a.x), Side(dx, 1.0 - a.x), Side(-dy, a.y), Side(dy, 1.0 - a.y)];
    for i := 0 to |sides|
      invariant NarrowedBy(sides[..i], Range(0.0, 1.0)) == Some(Range(lower, upper))
    {
      NarrowedStep(sides, i, Range(0.0, 1.0));
      var p, q := sides[i].p, sides[i].q;
      if Abs(p) <= PARALLEL {
        if q < 0.0 {
          NothingComesBack(sides, i + 1, Range(0.0, 1.0));
          return None;
        }
        continue;
      }
      var ratio := q / p;
      if p < 0.0 {
        lower := Max(lower, ratio);
      } else {
        upper := Min(upper, ratio);
      }
      if lower > upper {
        NothingComesBack(sides, i + 1, Range(0.0, 1.0));
        return None;
      }
    }
    assert sides[..|sides|] == sides;
    r := Some((PointAt(a, b, lower), PointAt(a, b, upper)));
  }

  lemma {:induction false} NarrowedStep(sides: seq<Side>, i: nat, r: Range)
    requires i < |sides|
    ensures NarrowedBy(sides[..i + 1], r)
            == match NarrowedBy(sides[..i], r) case None => None case Some(s) => Narrowed(sides[i], s)
  {
    assert sides[..i + 1][..i] == sides[..i];
  }

  /** Once nothing is left, no further side brings anything back. */
  lemma {:induction false} NothingComesBack(sides: seq<Side>, i: nat, r: Range)
    requires i <= |sides| && NarrowedBy(sides[..i], r).None?
    ensures NarrowedBy(sides, r).None?
    decreases |sides| - i
  {
    if i < |sides| {
      NarrowedStep(sides, i, r);
      NothingComesBack(sides, i + 1, r);
    } else {
      assert sides[..i] == sides;
    }
  }

  // ---------- what is left is exactly what lies inside ----------

  /** On the inner side at `t`, a negligible component counting as none. */
  predicate Admits(side: Side, t: real) {
    if Abs(side.p) <= PARALLEL then side.q >= 0.0 else side.p * t <= side.q
  }

  predicate Holds(r: Range, t: real) { r.lower <= t <= r.upper }

  lemma {:induction false} Quotient(p: real, q: real, t: real)
    requires p != 0.0
    ensures p > 0.0 ==> (p * t <= q <==> t <= q / p)
    ensures p < 0.0 ==> (p * t <= q <==> t >= q / p)
  {
    var k := q / p;
    assert p * k == q;
    assert p * (t - k) == p * t - q;
    if p > 0.0 {
    } else {
      assert -p * (t - k) == -(p * (t - k));
    }
  }

  lemma {:induction false} NarrowedExactly(side: Side, r: Range, t: real)
    requires r.lower <= r.upper
    ensures (Narrowed(side, r).Some? && Holds(Narrowed(side, r).value, t)) <==> Holds(r, t) && Admits(side, t)
    ensures Narrowed(side, r).Some? ==> Narrowed(side, r).value.lower <= Narrowed(side, r).value.upper
  {
    if Abs(side.p) > PARALLEL {
      Quotient(side.p, side.q, t);
    }
  }

  /** A parameter survives all sides exactly when it was in the range and each side admits it. */
  lemma {:induction false} NarrowedByExactly(sides: seq<Side>, r: Range, t: real)
    requires r.lower <= r.upper
    ensures (NarrowedBy(sides, r).Some? && Holds(NarrowedBy(sides, r).value, t))
            <==> Holds(r, t) && forall i :: 0 <= i < |sides| ==> Admits(sides[i], t)
    ensures NarrowedBy(sides, r).Some? ==> NarrowedBy(sides, r).value.lower <= NarrowedBy(sides, r).value.upper
  {
    if sides != [] {
      var init := sides[..|sides| - 1];
      NarrowedByExactly(init, r, t);
      if NarrowedBy(init, r).Some? {
        NarrowedExactly(sides[|sides| - 1], NarrowedBy(init, r).value, t);
      }
      assert (forall i :: 0 <= i < |sides| ==> Admits(sides[i], t))
          <==> (forall i :: 0 <= i < |init| ==> Admits(init[i], t)) && Admits(sides[|sides| - 1], t);
    }
  }

  /** A component without its negligible part. */
  function Flat(d: real): real { if Abs(d) <= PARALLEL then 0.0 else d }

  predicate InSquare(p: Point) { 0.0 <= p.x <= 1.0 && 0.0 <= p.y <= 1.0 }

  /** The segment's point at `t` as the clipper sees it, negligible components left out. */
  function SeenAt(a: Point, b: Point, t: real): Point {
    Point(Along(a.x, Flat(b.x - a.x), t), Along(a.y, Flat(b.y - a.y), t))
  }

  lemma {:induction false} AdmitsFlat(x: real, d: real, t: real)
    requires Abs(d) <= PARALLEL
    ensures Admits(Side(-d, x), t) && Admits(Side(d, 1.0 - x), t) <==> 0.0 <= x <= 1.0
  {
  }

  lemma {:induction false} AdmitsSloped(x: real, d: real, t: real)
    requires Abs(d) > PARALLEL
    ensures Admits(Side(-d, x), t) && Admits(Side(d, 1.0 - x), t) <==> 0.0 <= x + t * d <= 1.0
  {
    assert -d * t == -(t * d);
    assert d * t == t * d;
  }

  lemma {:induction false} AdmitsAxis(x: real, d: real, t: real)
    ensures Admits(Side(-d, x), t) && Admits(Side(d, 1.0 - x), t) <==> 0.0 <= Along(x, Flat(d), t) <= 1.0
  {
    if Abs(d) <= PARALLEL {
      AdmitsFlat(x, d, t);
      assert t * 0.0 == 0.0;
    } else {
      AdmitsSloped(x, d, t);
    }
  }

  lemma {:induction false} AllFour(s: seq<Side>, t: real)
    requires |s| == 4
    ensures (forall i :: 0 <= i < 4 ==> Admits(s[i], t))
            <==> (Admits(s[0], t) && Admits(s[1], t)) && (Admits(s[2], t) && Admits(s[3], t))
  {
  }

  lemma {:induction false} SidesAdmit(a: Point, b: Point, t: real)
    ensures (forall i :: 0 <= i < 4 ==> Admits(Sides(a, b)[i], t)) <==> InSquare(SeenAt(a, b, t))
  {
    AllFour(Sides(a, b), t);
    AdmitsAxis(a.x, b.x - a.x, t);
    AdmitsAxis(a.y, b.y - a.y, t);
  }

  /** The range left over, if any. */
  function RangeOf(a: Point, b: Point): Option<Range> { NarrowedBy(Sides(a, b), Range(0.0, 1.0)) }

  /**
   * Clipping is exact for the segment as the clipper sees it: what is left is all of the segment inside the square, and
   * nothing is returned exactly when no point of it is inside.
   */
  lemma {:induction false} ClippingIsExact(a: Point, b: Point)
    ensures forall t ::
              (RangeOf(a, b).Some? && Holds(RangeOf(a, b).value, t))
              <==> 0.0 <= t <= 1.0 && InSquare(SeenAt(a, b, t))
    ensures Clipped(a, b).None?
            <==> forall t {:trigger SeenAt(a, b, t)} :: 0.0 <= t <= 1.0 ==> !InSquare(SeenAt(a, b, t))
  {
    forall t
      ensures (RangeOf(a, b).Some? && Holds(RangeOf(a, b).value, t)) <==> 0.0 <= t <= 1.0 && InSquare(SeenAt(a, b, t))
    {
      NarrowedByExactly(Sides(a, b), Range(0.0, 1.0), t);
      SidesAdmit(a, b, t);
    }
    if RangeOf(a, b).Some? {
      var r := RangeOf(a, b).value;
      NarrowedByExactly(Sides(a, b), Range(0.0, 1.0), r.lower);
      assert Holds(r, r.lower);
      assert InSquare(SeenAt(a, b, r.lower));
    }
  }

  /** What is returned leads the same way as the segment, from where it is first seen inside to where it is last. */
  lemma {:induction false} KeptPart(a: Point, b: Point)
    requires Clipped(a, b).Some?
    ensures exists lower, upper ::
              && Clipped(a, b).value == (PointAt(a, b, lower), PointAt(a, b, upper))
              && 0.0 <= lower <= upper <= 1.0
              && forall t :: 0.0 <= t <= 1.0 ==> (lower <= t <= upper <==> InSquare(SeenAt(a, b, t)))
    ensures InSquare(a) ==> Clipped(a, b).value.0 == a
    ensures InSquare(SeenAt(a, b, 1.0)) ==> Clipped(a, b).value.1 == b
  {
    ClippingIsExact(a, b);
    EndsHold(a, b);
    var r := RangeOf(a, b).value;
    assert InSquare(SeenAt(a, b, r.lower)) && InSquare(SeenAt(a, b, r.upper));
    assert forall t :: 0.0 <= t <= 1.0 ==> (r.lower <= t <= r.upper <==> InSquare(SeenAt(a, b, t)));
    assert SeenAt(a, b, 0.0) == a;
    assert PointAt(a, b, 0.0) == a && PointAt(a, b, 1.0) == b;
  }

  /** No component is negligible without being zero. */
  predicate Plain(a: Point, b: Point) {
    Flat(b.x - a.x) == b.x - a.x && Flat(b.y - a.y) == b.y - a.y
  }

  /** Both ends of what is left are themselves left. */
  lemma {:induction false} EndsHold(a: Point, b: Point)
    ensures RangeOf(a, b).Some? ==>
              Holds(RangeOf(a, b).value, RangeOf(a, b).value.lower)
              && Holds(RangeOf(a, b).value, RangeOf(a, b).value.upper)
  {
    NarrowedByExactly(Sides(a, b), Range(0.0, 1.0), 0.0);
  }

  /**
   * For a segment without negligible components that is clipping in the plain sense, and both returned ends are inside.
   */
  lemma {:induction false} PlainClippingIsExact(a: Point, b: Point)
    requires Plain(a, b)
    ensures forall t ::
              (RangeOf(a, b).Some? && Holds(RangeOf(a, b).value, t))
              <==> 0.0 <= t <= 1.0 && InSquare(PointAt(a, b, t))
    ensures Clipped(a, b).Some? ==> InSquare(Clipped(a, b).value.0) && InSquare(Clipped(a, b).value.1)
    ensures Clipped(a, b).None?
            <==> forall t {:trigger PointAt(a, b, t)} :: 0.0 <= t <= 1.0 ==> !InSquare(PointAt(a, b, t))
  {
    ClippingIsExact(a, b);
    EndsHold(a, b);
    forall t ensures PointAt(a, b, t) == SeenAt(a, b, t) {
    }
  }

  lemma {:induction false} ScaledWithin(t: real, d: real)
    requires 0.0 <= t <= 1.0 && d >= 0.0
    ensures 0.0 <= t * d <= d
  {
    assert (1.0 - t) * d >= 0.0;
    assert (1.0 - t) * d == d - t * d;
  }

  lemma {:induction false} SmallStep(x: real, d: real, t: real)
    requires 0.0 <= t <= 1.0
    ensures -PARALLEL <= Along(x, d, t) - Along(x, Flat(d), t) <= PARALLEL
  {
    if Abs(d) <= PARALLEL {
      assert t * 0.0 == 0.0;
      ScaledWithin(t, Abs(d));
      assert t * -d == -(t * d);
    }
  }

  /**
   * With a negligible component the clipper can keep a part that lies outside, but never by more than that component.
   */
  lemma {:induction false} NearlyInside(a: Point, b: Point, t: real)
    requires RangeOf(a, b).Some? && Holds(RangeOf(a, b).value, t)
    ensures -PARALLEL <= PointAt(a, b, t).x <= 1.0 + PARALLEL && -PARALLEL <= PointAt(a, b, t).y <= 1.0 + PARALLEL
  {
    ClippingIsExact(a, b);
    assert 0.0 <= t <= 1.0 && InSquare(SeenAt(a, b, t));
    SmallStep(a.x, b.x - a.x, t);
    SmallStep(a.y, b.y - a.y, t);
  }

  // ---------- when the clipper is right about a drifting segment ----------

  /** Two coordinates on one side of the square's extent, or both in it. */
  predicate Alike(u: real, v: real) {
    (0.0 <= u <= 1.0 && 0.0 <= v <= 1.0) || (u < 0.0 && v < 0.0) || (u > 1.0 && v > 1.0)
  }

  predicate InExtent(x: real) { 0.0 <= x <= 1.0 }

  lemma {:induction false} NotNegative(k: real, d: real)
    requires k >= 0.0 && d >= 0.0
    ensures k * d >= 0.0
  {
  }

  lemma {:induction false} BetweenEnds(x: real, d: real, t: real, lower: real, upper: real)
    requires lower <= t <= upper
    ensures Min(Along(x, d, lower), Along(x, d, upper)) <= Along(x, d, t) <= Max(Along(x, d, lower), Along(x, d, upper))
  {
    assert (t - lower) * d == t * d - lower * d;
    assert (upper - t) * d == upper * d - t * d;
    if d >= 0.0 {
      NotNegative(t - lower, d);
      NotNegative(upper - t, d);
    } else {
      NotNegative(t - lower, -d);
      NotNegative(upper - t, -d);
      assert (t - lower) * -d == -((t - lower) * d) && (upper - t) * -d == -((upper - t) * d);
    }
  }

  lemma {:induction false} AlongEnds(x: real, d: real)
    ensures Along(x, d, 0.0) == x && Along(x, d, 1.0) == x + d && forall t :: Along(x, 0.0, t) == x
  {
  }

  /**
   * A negligible component is left out without harm exactly when it leads neither into nor out of the square's extent.
   */
  lemma {:induction false} AxisSeenTruly(x: real, d: real)
    requires Abs(d) <= PARALLEL
    ensures (forall t :: 0.0 <= t <= 1.0 ==> (InExtent(Along(x, d, t)) <==> InExtent(Along(x, Flat(d), t))))
            <==> Alike(x, x + d)
  {
    AlongEnds(x, d);
    if Alike(x, x + d) {
      forall t | 0.0 <= t <= 1.0 ensures InExtent(Along(x, d, t)) <==> InExtent(Along(x, Flat(d), t)) {
        BetweenEnds(x, d, t, 0.0, 1.0);
      }
    } else {
      assert InExtent(Along(x, d, 1.0)) != InExtent(Along(x, Flat(d), 1.0));
    }
  }

  /** What is kept is what is inside. */
  ghost predicate KeptTruly(a: Point, b: Point) {
    forall t :: 0.0 <= t <= 1.0 ==>
      ((RangeOf(a, b).Some? && Holds(RangeOf(a, b).value, t)) <==> InSquare(PointAt(a, b, t)))
  }

  /** On both axes the ends are alike, or too far apart to be left out. */
  predicate AxesSeenTruly(a: Point, b: Point) {
    (Abs(b.x - a.x) > PARALLEL || Alike(a.x, b.x)) && (Abs(b.y - a.y) > PARALLEL || Alike(a.y, b.y))
  }

  /** Then clipping is exact, negligible components and all. */
  lemma {:induction false} EndsDecide(a: Point, b: Point)
    requires AxesSeenTruly(a, b)
    ensures KeptTruly(a, b)
  {
    ClippingIsExact(a, b);
    if Abs(b.x - a.x) <= PARALLEL {
      AxisSeenTruly(a.x, b.x - a.x);
    }
    if Abs(b.y - a.y) <= PARALLEL {
      AxisSeenTruly(a.y, b.y - a.y);
    }
    forall t | 0.0 <= t <= 1.0 ensures InSquare(SeenAt(a, b, t)) <==> InSquare(PointAt(a, b, t)) {
      assert InExtent(Along(a.x, b.x - a.x, t)) <==> InExtent(Along(a.x, Flat(b.x - a.x), t));
      assert InExtent(Along(a.y, b.y - a.y, t)) <==> InExtent(Along(a.y, Flat(b.y - a.y), t));
    }
  }

  /** Of a segment that is not dropped all of the inside is kept. */
  lemma {:induction false} NothingInsideIsCut(a: Point, b: Point, t: real)
    requires RangeOf(a, b).Some? && 0.0 <= t <= 1.0 && InSquare(PointAt(a, b, t))
    ensures Holds(RangeOf(a, b).value, t)
  {
    ClippingIsExact(a, b);
    EndsHold(a, b);
    var l := RangeOf(a, b).value.lower;
    assert InSquare(SeenAt(a, b, l));
    AlongEnds(a.x, b.x - a.x);
    AlongEnds(a.y, b.y - a.y);
    assert InSquare(SeenAt(a, b, t));
  }

  /** So clipping is exact for a segment that is kept at all if and only if both returned ends are inside. */
  lemma {:induction false} KeptTrulyIffEnds(a: Point, b: Point)
    requires RangeOf(a, b).Some?
    ensures Clipped(a, b).Some?
    ensures KeptTruly(a, b) <==> InSquare(Clipped(a, b).value.0) && InSquare(Clipped(a, b).value.1)
  {
    ClippingIsExact(a, b);
    EndsHold(a, b);
    var r := RangeOf(a, b).value;
    if InSquare(PointAt(a, b, r.lower)) && InSquare(PointAt(a, b, r.upper)) {
      forall t | 0.0 <= t <= 1.0 ensures Holds(r, t) <==> InSquare(PointAt(a, b, t)) {
        if Holds(r, t) {
          BetweenEnds(a.x, b.x - a.x, t, r.lower, r.upper);
          BetweenEnds(a.y, b.y - a.y, t, r.lower, r.upper);
        } else if InSquare(PointAt(a, b, t)) {
          NothingInsideIsCut(a, b, t);
        }
      }
    }
  }

  /**
   * A segment dropped although a point of it is inside drifts in on an axis: it starts outside and ends in the extent.
   */
  lemma {:induction false} DroppedDriftsIn(a: Point, b: Point, t: real)
    requires RangeOf(a, b).None? && 0.0 <= t <= 1.0 && InSquare(PointAt(a, b, t))
    ensures || (Abs(b.x - a.x) <= PARALLEL && !InExtent(a.x) && InExtent(b.x))
            || (Abs(b.y - a.y) <= PARALLEL && !InExtent(a.y) && InExtent(b.y))
  {
    ClippingIsExact(a, b);
    AlongEnds(a.x, b.x - a.x);
    AlongEnds(a.y, b.y - a.y);
    assert !InSquare(SeenAt(a, b, t));
    BetweenEnds(a.x, b.x - a.x, t, 0.0, 1.0);
    BetweenEnds(a.y, b.y - a.y, t, 0.0, 1.0);
  }

  /** Such a part exists: this segment leaves the square at once and is still kept whole. */
  lemma {:induction false} NegligibleDriftIsKept()
    ensures var a, b := Point(1.0, 0.5), Point(1.0 + PARALLEL, 0.5);
            RangeOf(a, b) == Some(Range(0.0, 1.0)) && !InSquare(PointAt(a, b, 1.0)) && !KeptTruly(a, b)
  {
    var a, b := Point(1.0, 0.5), Point(1.0 + PARALLEL, 0.5);
    var s := Sides(a, b);
    var r := Range(0.0, 1.0);
    NarrowedStep(s, 0, r);
    NarrowedStep(s, 1, r);
    NarrowedStep(s, 2, r);
    NarrowedStep(s, 3, r);
    assert s[..4] == s && s[..0] == [];
  }

  /** And this one, which ends inside, is dropped. */
  lemma {:induction false} NegligibleDriftIsLost()
    ensures var a, b := Point(-PARALLEL, 0.5), Point(0.0, 0.5);
            RangeOf(a, b) == None && InSquare(PointAt(a, b, 1.0)) && !KeptTruly(a, b)
  {
    var a, b := Point(-PARALLEL, 0.5), Point(0.0, 0.5);
    var s := Sides(a, b);
    NarrowedStep(s, 0, Range(0.0, 1.0));
    NothingComesBack(s, 1, Range(0.0, 1.0));
    AlongEnds(a.x, b.x - a.x);
    assert s[..0] == [];
  }
}

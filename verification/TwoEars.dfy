/**
 * Every simple polygon without three vertices on a line turns once round and has ears on both sides of any two
 * neighbouring vertices, so the triangulation of a clockwise one that is clear of the tolerances succeeds.
 */
module TwoEars {
  import opened Prelude
  import opened EarClipping
  import opened SimplePolygons
  import opened PolygonParity
  import opened PolygonChords

  // ---------- ears ----------

  /** A blank corner turning the given way, whose inner points the polygon goes round. */
  ghost predicate FullEar(vs: seq<Point>, x: nat, clockwise: bool)
    requires x < |vs|
  {
    && (CornerCross(vs, x) < 0.0 <==> clockwise)
    && Blank(vs, x)
    && forall v :: OffLines(vs, v) && InCorner(vs, x, v) ==> Around(vs, v)
  }

  /** Some ear is neither vertex `i` nor the next. */
  ghost predicate EarBeside(vs: seq<Point>, i: nat, clockwise: bool)
    requires i < |vs|
  {
    exists x: nat :: x < |vs| && x != i && x != After(|vs|, i) && FullEar(vs, x, clockwise)
  }

  /** The polygon turns once round, this way, and has ears beside every two neighbouring vertices. */
  ghost predicate Eared(vs: seq<Point>, clockwise: bool) {
    && Turns(vs) == (if clockwise then 2 else -2)
    && forall i: nat :: i < |vs| ==> EarBeside(vs, i, clockwise)
  }

  // ---------- a triangle ----------

  lemma {:induction false} AroundTriangle(a: Point, b: Point, c: Point, v: Point)
    requires Generic(a, b, c, v)
    ensures Around([a, b, c], v) <==> Within(a, b, c, v)
  {
    TriangleParity(a, b, c, v);
    PathJoin([a], [b], v);
    PathJoin([a, b], [c], v);
    assert [a] + [b] == [a, b] && [a, b] + [c] == [a, b, c];
  }

  lemma {:induction false} TriangleCorner(vs: seq<Point>, x: nat)
    requires |vs| == 3 && General(vs) && x < 3
    ensures CornerCross(vs, x) == Cross(vs[0], vs[1], vs[2])
    ensures FullEar(vs, x, Cross(vs[0], vs[1], vs[2]) < 0.0)
  {
    CrossIsDet(vs[0], vs[1], vs[2]);
    CrossIsDet(vs[1], vs[2], vs[0]);
    forall v | OffLines(vs, v) && InCorner(vs, x, v) ensures Around(vs, v) {
      CornerGeneric(vs, v, 0, 1, 2);
      WithinTurned(vs[Before(3, x)], vs[x], vs[After(3, x)], v);
      WithinTurned(vs[x], vs[After(3, x)], vs[Before(3, x)], v);
      AroundTriangle(vs[0], vs[1], vs[2], v);
      assert vs == [vs[0], vs[1], vs[2]];
    }
  }

  lemma {:induction false} TriangleEared(vs: seq<Point>)
    requires |vs| == 3 && General(vs)
    ensures CornerCross(vs, 0) == Cross(vs[0], vs[1], vs[2])
    ensures Eared(vs, CornerCross(vs, 0) < 0.0)
  {
    GeneralAny(vs, 0, 1, 2);
    TriangleTurns(vs[0], vs[1], vs[2]);
    SumOfThree(CornerTurns(vs));
    TriangleCorner(vs, 0);
    var clockwise := CornerCross(vs, 0) < 0.0;
    forall i: nat | i < |vs| ensures EarBeside(vs, i, clockwise) {
      TriangleCorner(vs, Before(3, i));
    }
  }

  // ---------- where a polygon begins ----------

  function Turned(vs: seq<Point>, k: nat): (r: seq<Point>)
    requires k < |vs|
    ensures |r| == |vs|
  {
    vs[k..] + vs[..k]
  }

  function IndexOf(n: nat, k: nat, j: nat): nat
    requires k < n && j < n
  {
    if j + k < n then j + k else j + k - n
  }

  lemma {:induction false} TurnedAt(vs: seq<Point>, k: nat, j: nat)
    requires k < |vs| && j < |vs|
    ensures var n := |vs|;
            && IndexOf(n, k, j) < n && Turned(vs, k)[j] == vs[IndexOf(n, k, j)]
            && IndexOf(n, k, After(n, j)) == After(n, IndexOf(n, k, j))
            && IndexOf(n, k, Before(n, j)) == Before(n, IndexOf(n, k, j))
  {
  }

  /** The index a vertex has after turning. */
  function TurnedIndex(n: nat, k: nat, i: nat): (j: nat)
    requires k < n && i < n
    ensures j < n && IndexOf(n, k, j) == i
  {
    if i >= k then i - k else i + n - k
  }

  lemma {:induction false} TurnedGeneral(vs: seq<Point>, k: nat)
    requires General(vs) && k < |vs|
    ensures General(Turned(vs, k))
  {
    var ws, n := Turned(vs, k), |vs|;
    forall i: nat, j: nat, l: nat | i < j < l < n ensures Turn(ws, i, j, l) != 0.0 {
      TurnedAt(vs, k, i);
      TurnedAt(vs, k, j);
      TurnedAt(vs, k, l);
      GeneralAny(vs, IndexOf(n, k, i), IndexOf(n, k, j), IndexOf(n, k, l));
    }
  }

  lemma {:induction false} TurnedSimple(vs: seq<Point>, k: nat)
    requires General(vs) && Simple(vs) && k < |vs|
    ensures Simple(Turned(vs, k))
  {
    var ws, n := Turned(vs, k), |vs|;
    TurnedGeneral(vs, k);
    forall i | 0 <= i < n ensures CornerCross(ws, i) != 0.0 {
      GeneralAny(ws, Before(n, i), i, After(n, i));
    }
    forall i: nat, j: nat | i < j < n && After(n, i) != j && After(n, j) != i ensures SidesApart(ws, i, j) {
      TurnedAt(vs, k, i);
      TurnedAt(vs, k, j);
      TurnedAt(vs, k, After(n, i));
      TurnedAt(vs, k, After(n, j));
      TwoSides(vs, IndexOf(n, k, i), IndexOf(n, k, j));
    }
  }

  lemma {:induction false} TurnedCorner(vs: seq<Point>, k: nat, j: nat)
    requires k < |vs| && j < |vs|
    ensures var i := IndexOf(|vs|, k, j);
            && CornerCross(Turned(vs, k), j) == CornerCross(vs, i) && CornerTurn(Turned(vs, k), j) == CornerTurn(vs, i)
            && forall v :: InCorner(Turned(vs, k), j, v) <==> InCorner(vs, i, v)
  {
    TurnedAt(vs, k, j);
    TurnedAt(vs, k, After(|vs|, j));
    TurnedAt(vs, k, Before(|vs|, j));
  }

  lemma {:induction false} TurnedTurns(vs: seq<Point>, k: nat)
    requires k < |vs|
    ensures Turns(Turned(vs, k)) == Turns(vs)
  {
    var c, d := CornerTurns(vs), CornerTurns(Turned(vs, k));
    forall j: nat | j < |vs| ensures d[j] == (c[k..] + c[..k])[j] {
      TurnedCorner(vs, k, j);
    }
    assert d == c[k..] + c[..k];
    SumSplit(c[k..], c[..k]);
    SumSplit(c[..k], c[k..]);
    assert c == c[..k] + c[k..];
  }

  lemma {:induction false} TurnedAround(vs: seq<Point>, k: nat, v: Point)
    requires k < |vs|
    ensures Around(Turned(vs, k), v) == Around(vs, v)
  {
    if k == 0 {
      assert Turned(vs, k) == vs;
    } else {
      AroundTurned(vs[..k], vs[k..], v);
      assert vs == vs[..k] + vs[k..];
    }
  }

  lemma {:induction false} TurnedOffLines(vs: seq<Point>, k: nat, v: Point)
    requires k < |vs| && OffLines(vs, v)
    ensures OffLines(Turned(vs, k), v)
  {
    var ws, n := Turned(vs, k), |vs|;
    forall i: nat, j: nat | i < n && j < n && i != j ensures PairCross(ws, i, j, v) != 0.0 {
      TurnedAt(vs, k, i);
      TurnedAt(vs, k, j);
      assert PairCross(vs, IndexOf(n, k, i), IndexOf(n, k, j), v) != 0.0;
    }
  }

  lemma {:induction false} TurnedEar(vs: seq<Point>, k: nat, x: nat, clockwise: bool)
    requires k < |vs| && x < |vs| && FullEar(Turned(vs, k), x, clockwise)
    ensures FullEar(vs, IndexOf(|vs|, k, x), clockwise)
  {
    var ws, n := Turned(vs, k), |vs|;
    var y := IndexOf(n, k, x);
    TurnedCorner(vs, k, x);
    TurnedAt(vs, k, x);
    forall i: nat | i < n && i != Before(n, y) && i != y && i != After(n, y) ensures !InCorner(vs, y, vs[i]) {
      var j := TurnedIndex(n, k, i);
      TurnedAt(vs, k, j);
      assert !InCorner(ws, x, ws[j]);
    }
    forall v | OffLines(vs, v) && InCorner(vs, y, v) ensures Around(vs, v) {
      TurnedOffLines(vs, k, v);
      TurnedAround(vs, k, v);
      assert InCorner(ws, x, v);
    }
  }

  lemma {:induction false} TurnedEared(vs: seq<Point>, k: nat, clockwise: bool)
    requires k < |vs| && Eared(Turned(vs, k), clockwise)
    ensures Eared(vs, clockwise)
  {
    var ws, n := Turned(vs, k), |vs|;
    TurnedTurns(vs, k);
    forall i: nat | i < n ensures EarBeside(vs, i, clockwise) {
      var j := TurnedIndex(n, k, i);
      assert EarBeside(ws, j, clockwise);
      var x: nat :| x < n && x != j && x != After(n, j) && FullEar(ws, x, clockwise);
      TurnedEar(vs, k, x, clockwise);
      TurnedAt(vs, k, j);
      assert IndexOf(n, k, x) != i && IndexOf(n, k, x) != After(n, i);
    }
  }

  // ---------- the first of all vertices ----------

  /** The polygon begins at the first of its vertices. */
  ghost predicate Based(vs: seq<Point>) {
    vs != [] && forall k: nat :: 0 < k < |vs| ==> Precedes(vs[0], vs[k])
  }

  /** The first of the vertices before `n`. */
  lemma {:induction false} FirstOf(vs: seq<Point>, n: nat) returns (k: nat)
    requires General(vs) && 3 <= |vs| && 0 < n <= |vs|
    ensures k < n && forall j: nat :: j < n && j != k ==> Precedes(vs[k], vs[j])
    decreases n
  {
    if n == 1 {
      return 0;
    }
    k := FirstOf(vs, n - 1);
    var l, third := n - 1, Third(k, n - 1);
    GeneralAny(vs, k, l, third);
    OrderTotal(vs[k], vs[l], vs[third]);
    if Precedes(vs[l], vs[k]) {
      forall j: nat | j < n && j != l ensures Precedes(vs[l], vs[j]) {
        if j != k {
          GeneralAny(vs, l, k, j);
          OrderTotal(vs[l], vs[k], vs[j]);
        }
      }
      k := l;
    }
  }

  function Third(i: nat, j: nat): (k: nat)
    ensures k <= 2 && k != i && k != j
  {
    if i != 0 && j != 0 then 0 else if i != 1 && j != 1 then 1 else 2
  }

  lemma {:induction false} TurnedBased(vs: seq<Point>, k: nat)
    requires k < |vs| && forall j: nat :: j < |vs| && j != k ==> Precedes(vs[k], vs[j])
    ensures Based(Turned(vs, k))
  {
    forall j: nat | 0 < j < |vs| ensures Precedes(Turned(vs, k)[0], Turned(vs, k)[j]) {
      TurnedAt(vs, k, 0);
      TurnedAt(vs, k, j);
    }
  }

  /** Before all three corners of a triangle there is nothing within it. */
  lemma {:induction false} FirstIsOutside(p: Point, c: Point, q: Point, m: Point)
    requires Precedes(m, p) && Precedes(m, c) && Precedes(m, q)
    ensures !Within(p, c, q, m)
  {
    CrossIsDet(m, p, c);
    CrossIsDet(m, c, q);
    CrossIsDet(m, q, p);
    NotAllRound(Minus(p, m), Minus(c, m), Minus(q, m));
  }

  /** Within the corner at the first vertex everything comes after it. */
  lemma {:induction false} WithinComesAfter(p: Point, m: Point, q: Point, v: Point)
    requires Precedes(m, p) && Precedes(m, q) && Generic(p, m, q, v) && Within(p, m, q, v)
    ensures Precedes(m, v)
  {
    var a, b, w := Minus(q, m), Minus(p, m), Minus(v, m);
    CrossIsDet(p, m, q);
    CrossIsDet(m, q, p);
    CrossIsDet(m, q, v);
    CrossIsDet(p, m, v);
    CrossIsDet(m, p, v);
    ThreeParts(p, m, q, v);
    CrossIsDet(v, p, m);
    NegatedFalls(w, a);
    NegatedDet(a, w);
    NegatedDet(b, w);
    NegatedDet(w, b);
    NegatedDet(a, b);
    if !Rising(w) {
      if Det(a, b) < 0.0 {
        Ordered(a, b, Negated(w));
      } else {
        Ordered(b, a, Negated(w));
      }
    }
  }

  /** A polygon goes round all that is within a blank corner at its first vertex. */
  lemma {:induction false} FirstCornerInside(vs: seq<Point>, v: Point)
    requires General(vs) && Simple(vs) && Based(vs) && |vs| > 3 && Blank(vs, 0) && OffLines(vs, v) && InCorner(vs, 0, v)
    ensures Around(vs, v)
  {
    var n := |vs|;
    var m, s := vs[0], vs[1..];
    CornerGeneric(vs, v, n - 1, 0, 1);
    WithinComesAfter(vs[n - 1], m, vs[1], v);
    forall i: nat | i + 1 < |s| ensures Fans(m, s, i, v) {
      SideSpares(vs, 0, v, i + 1);
      CornerGeneric(vs, v, 0, i + 1, i + 2);
      ApartSwapped(s[i], s[i + 1], v, m);
      ApartSwapped(s[i], s[i + 1], m, v);
    }
    OffLine(vs, v, 0, 1);
    FanParity(m, s, v);
    assert vs == [m] + s;
    CrossIsDet(m, v, vs[1]);
    CrossIsDet(m, vs[1], v);
    CrossIsDet(m, v, vs[n - 1]);
    CrossIsDet(vs[n - 1], m, v);
    ThreeParts(vs[n - 1], m, vs[1], v);
  }

  lemma {:induction false} FirstEar(vs: seq<Point>)
    requires General(vs) && Simple(vs) && Based(vs) && |vs| > 3 && Blank(vs, 0)
    ensures FullEar(vs, 0, CornerCross(vs, 0) < 0.0)
  {
    forall v | OffLines(vs, v) && InCorner(vs, 0, v) ensures Around(vs, v) {
      FirstCornerInside(vs, v);
    }
  }

  /** Without its first vertex, a corner is the same away from it. */
  lemma {:induction false} RestCorner(vs: seq<Point>, x: nat)
    requires |vs| > 3 && 2 <= x < |vs| - 1
    ensures CornerCross(vs[1..], x - 1) == CornerCross(vs, x)
    ensures forall v :: InCorner(vs[1..], x - 1, v) <==> InCorner(vs, x, v)
  {
  }

  lemma {:induction false} RestOffLines(vs: seq<Point>, v: Point)
    requires OffLines(vs, v) && vs != []
    ensures OffLines(vs[1..], v)
  {
    forall i: nat, j: nat | i < |vs| - 1 && j < |vs| - 1 && i != j ensures PairCross(vs[1..], i, j, v) != 0.0 {
      assert PairCross(vs, i + 1, j + 1, v) != 0.0;
    }
  }

  /** An ear of the rest, away from the new side, is one of the polygon. */
  lemma {:induction false} EarOfRest(vs: seq<Point>, x: nat, clockwise: bool)
    requires General(vs) && Simple(vs) && Based(vs) && |vs| > 3 && Blank(vs, 0)
    requires 2 <= x < |vs| - 1 && FullEar(vs[1..], x - 1, clockwise)
    ensures FullEar(vs, x, clockwise)
  {
    var n, ws := |vs|, vs[1..];
    RestCorner(vs, x);
    forall k: nat | k < n && k != x - 1 && k != x && k != x + 1 ensures !InCorner(vs, x, vs[k]) {
      if k == 0 {
        FirstIsOutside(vs[x - 1], vs[x], vs[x + 1], vs[0]);
      } else {
        assert !InCorner(ws, x - 1, ws[k - 1]);
      }
    }
    forall v | OffLines(vs, v) && InCorner(vs, x, v) ensures Around(vs, v) {
      RestOffLines(vs, v);
      assert Around(ws, v);
      CornerGeneric(vs, v, n - 1, 0, 1);
      AroundRest(vs, v);
      if InCorner(vs, 0, v) {
        FirstCornerInside(vs, v);
      }
    }
  }

  // ---------- the two parts beside a chord ----------

  /** The part up to the chord's end. */
  function Front(vs: seq<Point>, t: nat): (r: seq<Point>)
    requires t < |vs|
    ensures |r| == t + 1
  {
    vs[..t + 1]
  }

  /** The part from the chord's end on. */
  function Back(vs: seq<Point>, t: nat): (r: seq<Point>)
    requires 0 < t < |vs|
    ensures |r| == |vs| - t + 1 && r[0] == vs[0] && forall k :: 1 <= k < |r| ==> r[k] == vs[t + k - 1]
  {
    [vs[0]] + vs[t..]
  }

  /** A chord from the first vertex that cuts its corner. */
  ghost predicate Cut(vs: seq<Point>, t: nat) {
    && General(vs) && Simple(vs) && Based(vs)
    && 2 <= t < |vs| - 1 && InCorner(vs, 0, vs[t]) && Chord(vs, t)
  }

  lemma {:induction false} PartsGeneral(vs: seq<Point>, t: nat)
    requires General(vs) && 0 < t < |vs|
    ensures General(Front(vs, t)) && General(Back(vs, t))
  {
    var a, b := Front(vs, t), Back(vs, t);
    forall i: nat, j: nat, k: nat | i < j < k < |a| ensures Turn(a, i, j, k) != 0.0 {
      assert Turn(vs, i, j, k) != 0.0;
    }
    forall i: nat, j: nat, k: nat | i < j < k < |b| ensures Turn(b, i, j, k) != 0.0 {
      assert Turn(vs, if i == 0 then 0 else t + i - 1, t + j - 1, t + k - 1) != 0.0;
    }
  }

  lemma {:induction false} FrontSimple(vs: seq<Point>, t: nat)
    requires Cut(vs, t)
    ensures Simple(Front(vs, t)) && Based(Front(vs, t))
  {
    var a, n := Front(vs, t), t + 1;
    PartsGeneral(vs, t);
    forall i | 0 <= i < n ensures CornerCross(a, i) != 0.0 {
      GeneralAny(a, Before(n, i), i, After(n, i));
    }
    forall i: nat, j: nat | i < j < n && After(n, i) != j && After(n, j) != i ensures SidesApart(a, i, j) {
      if j == t {
        assert ChordClears(vs, t, i);
        ApartSwapped(vs[0], vs[t], vs[i], vs[i + 1]);
        ApartSwapped(vs[i], vs[i + 1], vs[0], vs[t]);
      } else {
        TwoSides(vs, i, j);
      }
    }
  }

  lemma {:induction false} BackSimple(vs: seq<Point>, t: nat)
    requires Cut(vs, t)
    ensures Simple(Back(vs, t)) && Based(Back(vs, t))
  {
    var b, n := Back(vs, t), |vs| - t + 1;
    PartsGeneral(vs, t);
    forall i | 0 <= i < n ensures CornerCross(b, i) != 0.0 {
      GeneralAny(b, Before(n, i), i, After(n, i));
    }
    forall i: nat, j: nat | i < j < n && After(n, i) != j && After(n, j) != i ensures SidesApart(b, i, j) {
      if i == 0 {
        assert ChordClears(vs, t, t + j - 1);
      } else {
        TwoSides(vs, t + i - 1, t + j - 1);
      }
    }
  }

  /** Which side of the chord, and of the first sides, things are on. */
  lemma {:induction false} ChordSides(vs: seq<Point>, t: nat)
    requires Cut(vs, t)
    ensures var p, m, q, z := vs[|vs| - 1], vs[0], vs[1], vs[t];
            && Generic(p, m, q, z)
            && SameSign(Cross(z, m, q), Cross(p, m, q)) && SameSign(Cross(p, m, z), Cross(p, m, q))
            && SameSign(Cross(m, z, p), Cross(p, m, q)) && SameSign(Cross(m, q, z), Cross(m, q, p))
            && SameSign(Cross(m, p, q), Cross(m, p, z)) && Cross(p, m, q) == CornerCross(vs, 0)
  {
    var p, m, q, z := vs[|vs| - 1], vs[0], vs[1], vs[t];
    GenericAt(vs, |vs| - 1, 0, 1, t);
    ThreeParts(p, m, q, z);
    CrossIsDet(m, q, z);
    CrossIsDet(m, q, p);
    CrossIsDet(p, m, q);
    CrossIsDet(p, m, z);
    CrossIsDet(m, p, q);
    CrossIsDet(m, p, z);
    CrossIsDet(z, m, q);
    CrossIsDet(m, z, p);
  }

  // ---------- neither part goes round the other's vertices ----------

  /** A side of the front meets neither the back's sides nor the chord. */
  lemma {:induction false} FrontSideMisses(vs: seq<Point>, t: nat, j: nat)
    requires Cut(vs, t) && 1 <= j && j + 1 < t
    ensures MissesAll(Back(vs, t), vs[j], vs[j + 1])
    ensures FourGeneric(vs[|vs| - 1], vs[0], vs[j], vs[j + 1]) && Apart(vs[|vs| - 1], vs[0], vs[j], vs[j + 1])
  {
    var b, n := Back(vs, t), |vs|;
    var u, v := vs[j], vs[j + 1];
    forall i: nat | i + 1 < |b| ensures Misses(b, i, u, v) {
      if i == 0 {
        assert ChordClears(vs, t, j);
        GenericAt(vs, 0, t, j, j + 1);
        GenericAt(vs, j, j + 1, 0, t);
      } else {
        TwoSides(vs, t + i - 1, j);
        GenericAt(vs, t + i - 1, t + i, j, j + 1);
        GenericAt(vs, j, j + 1, t + i - 1, t + i);
      }
    }
    TwoSides(vs, n - 1, j);
    GenericAt(vs, n - 1, 0, j, j + 1);
    GenericAt(vs, j, j + 1, n - 1, 0);
  }

  /** The back does not go round the front's first vertex. */
  lemma {:induction false} BackMissesFirst(vs: seq<Point>, t: nat)
    requires Cut(vs, t)
    ensures !Around(Back(vs, t), vs[1])
  {
    var m, q, s, n := vs[0], vs[1], vs[t..], |vs|;
    forall i: nat | i + 1 < |s| ensures Fans(m, s, i, q) {
      TwoSides(vs, 0, t + i);
      GenericAt(vs, 0, t + i, t + i + 1, 1);
    }
    GeneralAny(vs, 0, t, 1);
    FanParity(m, s, q);
    ChordSides(vs, t);
  }

  /** Nor any other. */
  lemma {:induction false} BackMissesFront(vs: seq<Point>, t: nat, j: nat)
    requires Cut(vs, t) && 1 <= j < t
    ensures !Around(Back(vs, t), vs[j])
    decreases j
  {
    if j == 1 {
      BackMissesFirst(vs, t);
    } else {
      BackMissesFront(vs, t, j - 1);
      FrontSideMisses(vs, t, j - 1);
      AroundMoves(Back(vs, t), vs[j - 1], vs[j]);
    }
  }

  /** A side of the back meets neither the front's sides nor the chord. */
  lemma {:induction false} BackSideMisses(vs: seq<Point>, t: nat, j: nat)
    requires Cut(vs, t) && t < j && j + 1 < |vs|
    ensures MissesAll(Front(vs, t), vs[j], vs[j + 1])
    ensures FourGeneric(vs[t], vs[0], vs[j], vs[j + 1]) && Apart(vs[t], vs[0], vs[j], vs[j + 1])
  {
    var a, n := Front(vs, t), |vs|;
    var u, v := vs[j], vs[j + 1];
    forall i: nat | i + 1 < |a| ensures Misses(a, i, u, v) {
      TwoSides(vs, i, j);
      GenericAt(vs, i, i + 1, j, j + 1);
      GenericAt(vs, j, j + 1, i, i + 1);
    }
    assert ChordClears(vs, t, j);
    ApartSwapped(vs[0], vs[t], vs[j], vs[j + 1]);
    GenericAt(vs, t, 0, j, j + 1);
    GenericAt(vs, j, j + 1, t, 0);
  }

  /** The front does not go round the back's last vertex. */
  lemma {:induction false} FrontMissesLast(vs: seq<Point>, t: nat)
    requires Cut(vs, t)
    ensures !Around(Front(vs, t), vs[|vs| - 1])
  {
    var n := |vs|;
    var m, p, s := vs[0], vs[n - 1], vs[1..t + 1];
    forall i: nat | i + 1 < |s| ensures Fans(m, s, i, p) {
      TwoSides(vs, n - 1, i + 1);
      ApartSwapped(p, m, vs[i + 1], vs[i + 2]);
      GenericAt(vs, 0, i + 1, i + 2, n - 1);
    }
    GeneralAny(vs, 0, 1, n - 1);
    FanParity(m, s, p);
    assert Front(vs, t) == [m] + s;
    ChordSides(vs, t);
  }

  lemma {:induction false} FrontMissesBack(vs: seq<Point>, t: nat, j: nat)
    requires Cut(vs, t) && t < j < |vs|
    ensures !Around(Front(vs, t), vs[j])
    decreases |vs| - j
  {
    if j == |vs| - 1 {
      FrontMissesLast(vs, t);
    } else {
      FrontMissesBack(vs, t, j + 1);
      BackSideMisses(vs, t, j);
      AroundMoves(Front(vs, t), vs[j], vs[j + 1]);
    }
  }

  // ---------- ears of a part are ears of the whole ----------

  lemma {:induction false} PartsOffLines(vs: seq<Point>, t: nat, v: Point)
    requires OffLines(vs, v) && 0 < t < |vs|
    ensures OffLines(Front(vs, t), v) && OffLines(Back(vs, t), v)
  {
    var a, b := Front(vs, t), Back(vs, t);
    forall i: nat, j: nat | i < |a| && j < |a| && i != j ensures PairCross(a, i, j, v) != 0.0 {
      assert PairCross(vs, i, j, v) != 0.0;
    }
    forall i: nat, j: nat | i < |b| && j < |b| && i != j ensures PairCross(b, i, j, v) != 0.0 {
      assert PairCross(vs, if i == 0 then 0 else t + i - 1, if j == 0 then 0 else t + j - 1, v) != 0.0;
    }
  }

  /** A vertex outside a part is on no line through two of its own. */
  lemma {:induction false} OthersOffLines(vs: seq<Point>, t: nat, j: nat)
    requires General(vs) && 0 < t < |vs| && 0 < j < |vs| && j != t
    ensures j > t ==> OffLines(Front(vs, t), vs[j])
    ensures j < t ==> OffLines(Back(vs, t), vs[j])
  {
    var a, b, v := Front(vs, t), Back(vs, t), vs[j];
    if j > t {
      forall i: nat, k: nat | i < |a| && k < |a| && i != k ensures PairCross(a, i, k, v) != 0.0 {
        GeneralAny(vs, i, k, j);
      }
    } else {
      forall i: nat, k: nat | i < |b| && k < |b| && i != k ensures PairCross(b, i, k, v) != 0.0 {
        GeneralAny(vs, if i == 0 then 0 else t + i - 1, if k == 0 then 0 else t + k - 1, j);
      }
    }
  }

  lemma {:induction false} FrontCorner(vs: seq<Point>, t: nat, x: nat)
    requires 0 < x < t < |vs|
    ensures CornerCross(Front(vs, t), x) == CornerCross(vs, x) && CornerTurn(Front(vs, t), x) == CornerTurn(vs, x)
    ensures forall v :: InCorner(Front(vs, t), x, v) <==> InCorner(vs, x, v)
  {
  }

  lemma {:induction false} BackCorner(vs: seq<Point>, t: nat, x: nat)
    requires 0 < t < x < |vs|
    ensures CornerCross(Back(vs, t), x - t + 1) == CornerCross(vs, x)
    ensures CornerTurn(Back(vs, t), x - t + 1) == CornerTurn(vs, x)
    ensures forall v :: InCorner(Back(vs, t), x - t + 1, v) <==> InCorner(vs, x, v)
  {
  }

  lemma {:induction false} FrontEarBlank(vs: seq<Point>, t: nat, x: nat, clockwise: bool)
    requires Cut(vs, t) && 0 < x < t && FullEar(Front(vs, t), x, clockwise)
    ensures Blank(vs, x)
  {
    var a := Front(vs, t);
    FrontCorner(vs, t, x);
    forall k: nat | k < |vs| && k != Before(|vs|, x) && k != x && k != After(|vs|, x) ensures !InCorner(vs, x, vs[k]) {
      if k <= t {
        assert !InCorner(a, x, a[k]);
      } else {
        OthersOffLines(vs, t, k);
        FrontMissesBack(vs, t, k);
      }
    }
  }

  lemma {:induction false} BackEarBlank(vs: seq<Point>, t: nat, x: nat, clockwise: bool)
    requires Cut(vs, t) && t < x < |vs| && FullEar(Back(vs, t), x - t + 1, clockwise)
    ensures Blank(vs, x)
  {
    var b := Back(vs, t);
    BackCorner(vs, t, x);
    forall k: nat | k < |vs| && k != Before(|vs|, x) && k != x && k != After(|vs|, x) ensures !InCorner(vs, x, vs[k]) {
      if k == 0 {
        assert !InCorner(b, x - t + 1, b[0]);
      } else if k >= t {
        assert !InCorner(b, x - t + 1, b[k - t + 1]);
      } else {
        OthersOffLines(vs, t, k);
        BackMissesFront(vs, t, k);
      }
    }
  }

  /** From a front ear's inner points to its corner nothing of the back is met. */
  lemma {:induction false} BackAroundInner(vs: seq<Point>, t: nat, x: nat, v: Point)
    requires Cut(vs, t) && 0 < x < t && Blank(vs, x) && OffLines(vs, v) && InCorner(vs, x, v)
    ensures Around(Back(vs, t), v) == Around(Back(vs, t), vs[x])
  {
    var b, c := Back(vs, t), vs[x];
    forall i: nat | i + 1 < |b| ensures Misses(b, i, v, c) {
      if i == 0 {
        ChordSpares(vs, t, x, v);
      } else {
        SideSpares(vs, x, v, t + i - 1);
      }
    }
    SideSpares(vs, x, v, |vs| - 1);
    AroundMoves(b, v, c);
  }

  lemma {:induction false} FrontAroundInner(vs: seq<Point>, t: nat, x: nat, v: Point)
    requires Cut(vs, t) && t < x < |vs| && Blank(vs, x) && OffLines(vs, v) && InCorner(vs, x, v)
    ensures Around(Front(vs, t), v) == Around(Front(vs, t), vs[x])
  {
    var a, c := Front(vs, t), vs[x];
    forall i: nat | i + 1 < |a| ensures Misses(a, i, v, c) {
      SideSpares(vs, x, v, i);
    }
    ChordSpares(vs, t, x, v);
    SparesSwapped(vs[0], vs[t], v, c);
    AroundMoves(a, v, c);
  }

  lemma {:induction false} EarOfFront(vs: seq<Point>, t: nat, x: nat, clockwise: bool)
    requires Cut(vs, t) && 0 < x < t && FullEar(Front(vs, t), x, clockwise)
    ensures FullEar(vs, x, clockwise)
  {
    FrontCorner(vs, t, x);
    FrontEarBlank(vs, t, x, clockwise);
    forall v | OffLines(vs, v) && InCorner(vs, x, v) ensures Around(vs, v) {
      PartsOffLines(vs, t, v);
      BackAroundInner(vs, t, x, v);
      BackMissesFront(vs, t, x);
      OffLine(vs, v, 0, t);
      AroundParts(vs, t, v);
    }
  }

  lemma {:induction false} EarOfBack(vs: seq<Point>, t: nat, x: nat, clockwise: bool)
    requires Cut(vs, t) && t < x < |vs| && FullEar(Back(vs, t), x - t + 1, clockwise)
    ensures FullEar(vs, x, clockwise)
  {
    BackCorner(vs, t, x);
    BackEarBlank(vs, t, x, clockwise);
    forall v | OffLines(vs, v) && InCorner(vs, x, v) ensures Around(vs, v) {
      PartsOffLines(vs, t, v);
      FrontAroundInner(vs, t, x, v);
      FrontMissesBack(vs, t, x);
      OffLine(vs, v, 0, t);
      AroundParts(vs, t, v);
    }
  }

  // ---------- how the parts turn ----------

  lemma {:induction false} BasedTurn(x: Point, o: Point, y: Point)
    requires Precedes(o, x) && Precedes(o, y) && Cross(x, o, y) != 0.0
    ensures PathTurn(x, o, y) == if Cross(x, o, y) < 0.0 then 1 else -1
  {
    CrossIsDet(o, y, x);
  }

  /** Between the directions `a` and `b`, the shorter way round. */
  predicate Amid(a: Point, b: Point, w: Point) {
    SameSign(Det(a, w), Det(a, b)) && SameSign(Det(w, b), Det(a, b))
  }

  /**
   * Where a chord ends: `u` is where the polygon comes from, `w` where it goes and `m` the way back along the chord,
   * which falls. Unless `u` and `w` are the wrong way round about it, the two parts together make one turn more.
   */
  lemma {:induction false} ChordEndTurns(u: Point, w: Point, m: Point)
    requires !Rising(m) && Det(m, u) != 0.0 && Det(m, w) != 0.0 && Det(u, w) != 0.0
    requires Amid(m, w, u) <==> Det(m, w) < 0.0
    ensures TurnOf(u, m) + TurnOf(m, w) == TurnOf(u, w) + 1
  {
    var n := Negated(m);
    NegatedFalls(m, u);
    NegatedFalls(u, m);
    NegatedFalls(w, m);
    NegatedDet(m, u);
    NegatedDet(m, w);
    NegatedDet(u, w);
    NegatedDet(u, m);
    NegatedDet(w, m);
    NegatedDet(w, u);
    if Rising(u) && Rising(w) {
      if Det(m, w) > 0.0 && Det(m, u) < 0.0 {
        Ordered(n, w, u);
      }
    } else if !Rising(u) && !Rising(w) {
      if Det(m, w) > 0.0 && Det(m, u) < 0.0 {
        Ordered(m, u, w);
      }
    } else if Rising(u) {
      if Det(m, w) < 0.0 {
        Ordered(m, w, Negated(u));
      }
    } else {
      if Det(m, u) > 0.0 {
        Ordered(m, Negated(w), u);
      }
    }
  }

  /** The same when the polygon turns the other way. */
  lemma {:induction false} ChordEndTurnsBack(u: Point, w: Point, m: Point)
    requires !Rising(m) && Det(m, u) != 0.0 && Det(m, w) != 0.0 && Det(u, w) != 0.0
    requires Amid(m, w, u) <==> Det(m, w) > 0.0
    ensures TurnOf(u, m) + TurnOf(m, w) == TurnOf(u, w) - 1
  {
    NegatedDet(u, w);
    NegatedDet(m, u);
    NegatedDet(m, w);
    ChordEndTurns(w, u, m);
  }

  /**
   * Seen from `z`, `u` is between `m` and `w` exactly when it is within their triangle or its side there is crossed.
   */
  lemma {:induction false} AmidOrCrossed(z: Point, m: Point, w: Point, u: Point)
    requires Generic(m, z, w, u) && FourGeneric(m, w, u, z)
    ensures Amid(Minus(m, z), Minus(w, z), Minus(u, z)) <==> (Within(m, z, w, u) != !Apart(m, w, u, z))
  {
    var a, b, c := Minus(m, z), Minus(w, z), Minus(u, z);
    CrossIsDet(z, m, w);
    CrossIsDet(z, m, u);
    CrossIsDet(z, w, u);
    CrossIsDet(z, u, m);
    CrossIsDet(z, u, w);
    CrossIsDet(u, z, m);
    CrossIsDet(u, z, w);
    CrossIsDet(m, w, z);
    CrossIsDet(m, w, u);
    NegatedDet(a, c);
    NegatedDet(c, b);
    ThreeParts(m, z, w, u);
  }

  /** Whether the back goes round the vertex before the chord's end, by what lies about the chord. */
  lemma {:induction false} BackParity(vs: seq<Point>, t: nat)
    requires Cut(vs, t)
    ensures var m, z, u, w, p := vs[0], vs[t], vs[t - 1], vs[t + 1], vs[|vs| - 1];
            Around(Back(vs, t), u)
            == ((Within(m, z, w, u) != ((Cross(m, z, w) < 0.0) != (Cross(m, z, p) < 0.0))) != !Apart(m, w, u, z))
  {
    var n := |vs|;
    var m, z, u, w, p := vs[0], vs[t], vs[t - 1], vs[t + 1], vs[n - 1];
    var b, s := Back(vs, t), vs[t + 1..];
    assert b[..3] == [m, z, w] && b[2..] == s;
    GeneralAny(vs, 0, t + 1, t - 1);
    AroundParts(b, 2, u);
    GenericAt(vs, 0, t, t + 1, t - 1);
    AroundTriangle(m, z, w, u);
    BackSeesEnd(vs, t);
    BackPathMisses(vs, t);
    PathMoves(s + [m], u, z);
    AroundTurned([m], s, u);
    AroundTurned([m], s, z);
    GenericAt(vs, 0, t + 1, t - 1, t);
    GenericAt(vs, t - 1, t, 0, t + 1);
    ApartEvenly(m, w, u, z);
  }

  lemma {:induction false} BackSeesEnd(vs: seq<Point>, t: nat)
    requires Cut(vs, t)
    ensures var m, z, s := vs[0], vs[t], vs[t + 1..];
            Around([m] + s, z) <==> (Cross(m, z, vs[t + 1]) < 0.0) != (Cross(m, z, vs[|vs| - 1]) < 0.0)
  {
    var m, z, s := vs[0], vs[t], vs[t + 1..];
    forall i: nat | i + 1 < |s| ensures Fans(m, s, i, z) {
      assert ChordClears(vs, t, t + 1 + i);
      GenericAt(vs, 0, t + 1 + i, t + 2 + i, t);
    }
    GeneralAny(vs, 0, t + 1, t);
    FanParity(m, s, z);
  }

  lemma {:induction false} BackPathMisses(vs: seq<Point>, t: nat)
    requires Cut(vs, t)
    ensures MissesAll(vs[t + 1..] + [vs[0]], vs[t - 1], vs[t])
  {
    var n := |vs|;
    var s, u, z := vs[t + 1..] + [vs[0]], vs[t - 1], vs[t];
    forall i: nat | i + 1 < |s| ensures Misses(s, i, u, z) {
      var j := t + 1 + i;
      TwoSides(vs, j, t - 1);
      GenericAt(vs, j, After(n, j), t - 1, t);
      GenericAt(vs, t - 1, t, j, After(n, j));
    }
  }

  /** At the chord's end the parts together make one turn more than the polygon, the way its first corner turns. */
  lemma {:induction false} EndTurns(vs: seq<Point>, t: nat)
    requires Cut(vs, t)
    ensures var m, z, u, w := vs[0], vs[t], vs[t - 1], vs[t + 1];
            PathTurn(u, z, m) + PathTurn(m, z, w) == PathTurn(u, z, w) + if CornerCross(vs, 0) < 0.0 then 1 else -1
  {
    var n := |vs|;
    var m, z, u, w, p := vs[0], vs[t], vs[t - 1], vs[t + 1], vs[n - 1];
    BackMissesFront(vs, t, t - 1);
    BackParity(vs, t);
    ChordSides(vs, t);
    GenericAt(vs, 0, t, t + 1, t - 1);
    GenericAt(vs, 0, t + 1, t - 1, t);
    GenericAt(vs, t - 1, t, 0, t + 1);
    AmidOrCrossed(z, m, w, u);
    CrossIsDet(z, m, w);
    CrossIsDet(z, m, u);
    CrossIsDet(z, u, w);
    CrossIsDet(m, z, w);
    CrossIsDet(m, z, p);
    CrossTurns(m, z, w);
    OrderTotal(m, z, w);
    if CornerCross(vs, 0) < 0.0 {
      ChordEndTurns(Minus(u, z), Minus(w, z), Minus(m, z));
    } else {
      ChordEndTurnsBack(Minus(u, z), Minus(w, z), Minus(m, z));
    }
  }

  /** One turn, the given way, in halves. */
  function Once(clockwise: bool): int { if clockwise then 2 else -2 }

  /** The turns at the first vertex, of the polygon and its parts. */
  lemma {:induction false} FirstTurns(vs: seq<Point>, t: nat)
    requires Cut(vs, t)
    ensures var clockwise := CornerCross(vs, 0) < 0.0;
            var half := if clockwise then 1 else -1;
            && CornerTurn(vs, 0) == half && CornerTurn(Front(vs, t), 0) == half && CornerTurn(Back(vs, t), 0) == half
            && (CornerCross(Front(vs, t), 0) < 0.0 <==> clockwise) && (CornerCross(Back(vs, t), 0) < 0.0 <==> clockwise)
  {
    var p, m, q, z := vs[|vs| - 1], vs[0], vs[1], vs[t];
    ChordSides(vs, t);
    BasedTurn(p, m, q);
    BasedTurn(z, m, q);
    BasedTurn(p, m, z);
  }

  lemma {:induction false} FrontCornerTurns(vs: seq<Point>, t: nat)
    requires Cut(vs, t)
    ensures var c, d := CornerTurns(vs), CornerTurns(Front(vs, t)); d == [d[0]] + c[1..t] + [d[t]]
  {
    var c, d := CornerTurns(vs), CornerTurns(Front(vs, t));
    forall k: nat | 0 < k < t ensures d[k] == c[k] {
      FrontCorner(vs, t, k);
    }
  }

  lemma {:induction false} BackCornerTurns(vs: seq<Point>, t: nat)
    requires Cut(vs, t)
    ensures var c, e := CornerTurns(vs), CornerTurns(Back(vs, t)); e == [e[0]] + [e[1]] + c[t + 1..]
  {
    var c, e := CornerTurns(vs), CornerTurns(Back(vs, t));
    forall k: nat | t < k < |vs| ensures e[k - t + 1] == c[k] {
      BackCorner(vs, t, k);
    }
  }

  /** Together the parts make one turn more than the polygon. */
  lemma {:induction false} PartsTurn(vs: seq<Point>, t: nat)
    requires Cut(vs, t)
    ensures Turns(Front(vs, t)) + Turns(Back(vs, t)) == Turns(vs) + Once(CornerCross(vs, 0) < 0.0)
  {
    var c, d, e := CornerTurns(vs), CornerTurns(Front(vs, t)), CornerTurns(Back(vs, t));
    FirstTurns(vs, t);
    EndTurns(vs, t);
    FrontCornerTurns(vs, t);
    BackCornerTurns(vs, t);
    SumsOfParts(c, d, e, t);
  }

  /** What the turns of two parts add up to. */
  lemma {:induction false} SumsOfParts(c: seq<int>, d: seq<int>, e: seq<int>, t: nat)
    requires 0 < t < |c| && |d| == t + 1 && |e| == |c| - t + 1
    requires d == [d[0]] + c[1..t] + [d[t]] && e == [e[0]] + [e[1]] + c[t + 1..]
    ensures SumOf(d) + SumOf(e) == SumOf(c) - c[0] - c[t] + d[0] + d[t] + e[0] + e[1]
  {
    assert c == [c[0]] + c[1..t] + [c[t]] + c[t + 1..];
    SumOfParts(c[0], c[1..t], c[t], c[t + 1..]);
    SumOfParts(d[0], c[1..t], d[t], []);
    assert [d[0]] + c[1..t] + [d[t]] + [] == d;
    SumOfParts(e[0], [], e[1], c[t + 1..]);
    assert [e[0]] + [] + [e[1]] + c[t + 1..] == e;
  }

  lemma {:induction false} SumOfParts(x: int, xs: seq<int>, y: int, ys: seq<int>)
    ensures SumOf([x] + xs + [y] + ys) == x + SumOf(xs) + y + SumOf(ys)
  {
    SumSplit([x] + xs + [y], ys);
    SumSplit([x] + xs, [y]);
    SumSplit([x], xs);
    assert [x][1..] == [] && [y][1..] == [];
  }

  // ---------- every simple polygon ----------

  /** Two ears that are not neighbours leave one beside any two neighbours. */
  lemma {:induction false} EarsApart(vs: seq<Point>, x: nat, y: nat, clockwise: bool)
    requires x < |vs| && y < |vs| && x != y && After(|vs|, x) != y && After(|vs|, y) != x
    requires FullEar(vs, x, clockwise) && FullEar(vs, y, clockwise) && Turns(vs) == Once(clockwise)
    ensures Eared(vs, clockwise)
  {
    forall i: nat | i < |vs| ensures EarBeside(vs, i, clockwise) {
      var z := if x != i && x != After(|vs|, i) then x else y;
      assert z != i && z != After(|vs|, i) && FullEar(vs, z, clockwise);
    }
  }

  lemma {:induction false} TakeEar(vs: seq<Point>, i: nat, clockwise: bool) returns (x: nat)
    requires Eared(vs, clockwise) && i < |vs|
    ensures x < |vs| && x != i && x != After(|vs|, i) && FullEar(vs, x, clockwise)
  {
    assert EarBeside(vs, i, clockwise);
    x :| x < |vs| && x != i && x != After(|vs|, i) && FullEar(vs, x, clockwise);
  }

  /** Popping a blank corner keeps all that matters. */
  lemma {:induction false} PopKeeps(vs: seq<Point>, i: nat)
    requires General(vs) && Simple(vs) && |vs| > 3 && i < |vs| && Blank(vs, i)
    ensures General(RemoveAt(vs, i)) && Simple(RemoveAt(vs, i)) && Turns(RemoveAt(vs, i)) == Turns(vs)
  {
    RestGeneral(vs, i);
    RestSimple(vs, i);
    RestTurns(vs, i);
  }

  /** An ear of the rest away from the new side. */
  lemma {:induction false} AcrossEar(vs: seq<Point>) returns (x: nat, way: bool)
    requires General(vs) && Simple(vs) && Based(vs) && |vs| > 3 && Blank(vs, 0)
    ensures 2 <= x < |vs| - 1 && FullEar(vs, x, way) && Turns(vs) == Once(way)
    decreases |vs|, 0
  {
    PopKeeps(vs, 0);
    assert RemoveAt(vs, 0) == vs[1..];
    way := SimpleEared(vs[1..]);
    var y := TakeEar(vs[1..], |vs| - 2, way);
    x := y + 1;
    EarOfRest(vs, x, way);
  }

  /** Without such an ear the polygon still turns as its first corner does. */
  lemma {:induction false} WayOfFirst(vs: seq<Point>, x: nat)
    requires General(vs) && Simple(vs) && Based(vs) && 2 <= x < |vs| - 1 && Blank(vs, x)
    ensures Turns(vs) == Once(CornerCross(vs, 0) < 0.0)
    decreases |vs|, 0
  {
    PopKeeps(vs, x);
    WithoutLater(vs, x);
    BasedEared(RemoveAt(vs, x));
  }

  /** A polygon whose first corner is blank, from an ear of the rest and what the polygon is without that one. */
  lemma {:induction false} BlankEared(vs: seq<Point>)
    requires General(vs) && Simple(vs) && Based(vs) && |vs| > 3 && Blank(vs, 0)
    ensures Eared(vs, CornerCross(vs, 0) < 0.0)
    decreases |vs|, 1
  {
    var x, way := AcrossEar(vs);
    WayOfFirst(vs, x);
    FirstEar(vs);
    EarsApart(vs, 0, x, way);
  }

  /** Removing a later vertex leaves the first corner as it is. */
  lemma {:induction false} WithoutLater(vs: seq<Point>, x: nat)
    requires Based(vs) && |vs| > 3 && 2 <= x < |vs| - 1
    ensures Based(RemoveAt(vs, x)) && CornerCross(RemoveAt(vs, x), 0) == CornerCross(vs, 0)
  {
    forall k: nat | 0 < k < |vs| - 1 ensures Precedes(RemoveAt(vs, x)[0], RemoveAt(vs, x)[k]) {
      RestAt(vs, x, k);
      assert Precedes(vs[0], vs[Was(x, k)]);
    }
    RestAt(vs, x, |vs| - 2);
    RestAt(vs, x, 1);
  }

  lemma {:induction false} FrontEar(vs: seq<Point>, t: nat) returns (x: nat)
    requires Cut(vs, t)
    ensures 0 < x < t && FullEar(vs, x, CornerCross(vs, 0) < 0.0)
            && Turns(Front(vs, t)) == Once(CornerCross(vs, 0) < 0.0)
    decreases |vs|, 0
  {
    PartsGeneral(vs, t);
    FrontSimple(vs, t);
    FirstTurns(vs, t);
    BasedEared(Front(vs, t));
    var way := CornerCross(vs, 0) < 0.0;
    x := TakeEar(Front(vs, t), t, way);
    EarOfFront(vs, t, x, way);
  }

  lemma {:induction false} BackEar(vs: seq<Point>, t: nat) returns (x: nat)
    requires Cut(vs, t)
    ensures t < x < |vs| && FullEar(vs, x, CornerCross(vs, 0) < 0.0)
            && Turns(Back(vs, t)) == Once(CornerCross(vs, 0) < 0.0)
    decreases |vs|, 0
  {
    PartsGeneral(vs, t);
    BackSimple(vs, t);
    FirstTurns(vs, t);
    BasedEared(Back(vs, t));
    var way := CornerCross(vs, 0) < 0.0;
    var y := TakeEar(Back(vs, t), 0, way);
    x := y + t - 1;
    EarOfBack(vs, t, x, way);
  }

  /** A polygon cut by a chord, from its parts. */
  lemma {:induction false} CutEared(vs: seq<Point>, t: nat)
    requires Cut(vs, t)
    ensures Eared(vs, CornerCross(vs, 0) < 0.0)
    decreases |vs|, 1
  {
    var x := FrontEar(vs, t);
    var y := BackEar(vs, t);
    PartsTurn(vs, t);
    EarsApart(vs, x, y, CornerCross(vs, 0) < 0.0);
  }

  lemma {:induction false} BasedEared(vs: seq<Point>)
    requires General(vs) && Simple(vs) && Based(vs)
    ensures Eared(vs, CornerCross(vs, 0) < 0.0)
    decreases |vs|, 2
  {
    if |vs| == 3 {
      TriangleEared(vs);
    } else if Blank(vs, 0) {
      BlankEared(vs);
    } else {
      var t := ChordExists(vs);
      CutEared(vs, t);
    }
  }

  /**
   * The two ears theorem, with the theorem of turning tangents: a simple polygon without three vertices on a line turns
   * exactly once round, one way, and beside any two neighbouring vertices it has a blank corner turning that way.
   */
  lemma {:induction false} SimpleEared(vs: seq<Point>) returns (clockwise: bool)
    requires General(vs) && Simple(vs)
    ensures Eared(vs, clockwise)
    decreases |vs|, 3
  {
    var k := FirstOf(vs, |vs|);
    var ws := Turned(vs, k);
    TurnedGeneral(vs, k);
    TurnedSimple(vs, k);
    TurnedBased(vs, k);
    BasedEared(ws);
    clockwise := CornerCross(ws, 0) < 0.0;
    TurnedEared(vs, k, clockwise);
  }

  // ---------- the triangulation ----------

  /** A simple clockwise polygon has a corner to pop, and popping it leaves another. */
  lemma {:induction false} FirstPop(vs: seq<Point>) returns (i: nat)
    requires Clear(vs) && Simple(vs) && Turns(vs) == 2 && |vs| > 3
    ensures FirstRemovable(vs, 0) == Some(i)
    ensures Clear(RemoveAt(vs, i)) && Simple(RemoveAt(vs, i)) && Turns(RemoveAt(vs, i)) == 2
  {
    ClearIsGeneral(vs);
    var way := SimpleEared(vs);
    var x := TakeEar(vs, 0, way);
    PoppedIffBlank(vs, x);
    i := FirstRemovable(vs, 0).value;
    PoppedIffBlank(vs, i);
    RestClear(vs, i);
    PopKeeps(vs, i);
  }

  /**
   * Clear of the bound, a simple clockwise polygon is always triangulated, into clockwise triangles and nothing else.
   */
  lemma {:induction false} ClockwiseSucceeds(vs: seq<Point>)
    requires Clear(vs) && Simple(vs) && Turns(vs) == 2
    ensures Triangulation(vs).Some?
    decreases |vs|
  {
    if |vs| > 3 {
      var i := FirstPop(vs);
      ClockwiseSucceeds(RemoveAt(vs, i));
    }
  }

  /** The signed area of a simple polygon says which way it turns. */
  lemma {:induction false} AreaTells(vs: seq<Point>)
    requires General(vs) && Simple(vs)
    ensures TwiceArea(vs) != 0.0 && (TwiceArea(vs) < 0.0 <==> Turns(vs) == 2)
    decreases |vs|
  {
    var way := SimpleEared(vs);
    var x := TakeEar(vs, 0, way);
    GeneralAny(vs, Before(|vs|, x), x, After(|vs|, x));
    if |vs| == 3 {
      TriangleCorner(vs, x);
      TriangleArea(vs);
    } else {
      PopKeeps(vs, x);
      AreaTells(RemoveAt(vs, x));
      RemoveArea(vs, x);
    }
  }

  lemma {:induction false} TriangleArea(vs: seq<Point>)
    requires |vs| == 3
    ensures TwiceArea(vs) == Cross(vs[0], vs[1], vs[2])
  {
    assert Triangulation(vs).value.triangles == [vs];
    AreaConserved(vs);
    assert [vs][1..] == [];
  }

  /** Triangulated, with sampling weights that add up to the clockwise area. */
  ghost predicate Right(vs: seq<Point>) {
    Triangulation(vs).Some? && AbsSum(Triangulation(vs).value.triangles) == -TwiceArea(vs)
  }

  /**
   * Triangulation and its sampling weights are right for a simple polygon clear of the bound if and only if the polygon
   * is clockwise, as its signed area and its turning agree.
   */
  lemma {:induction false} RightIffClockwise(vs: seq<Point>)
    requires Clear(vs) && Simple(vs)
    ensures Right(vs) <==> TwiceArea(vs) < 0.0
    ensures Turns(vs) == if TwiceArea(vs) < 0.0 then 2 else -2
  {
    ClearIsGeneral(vs);
    var way := SimpleEared(vs);
    AreaTells(vs);
    if Turns(vs) == 2 {
      ClockwiseSucceeds(vs);
    }
    if Triangulation(vs).Some? {
      SimpleWeights(vs);
    }
  }

  // ---------- the bound cannot be lowered ----------

  /** Of the simple polygons clear of this bound exactly the clockwise ones are right. */
  ghost predicate Suffices(bound: real) {
    forall vs :: ClearBy(vs, bound) && Simple(vs) ==> (Right(vs) <==> TwiceArea(vs) < 0.0)
  }

  lemma {:induction false} ShallowCrosses()
    ensures Cross(P, Q, R) == -49.9999 && Cross(P, Q, S) == -100.0 && Cross(P, R, S) == -FLAT && Cross(Q, R, S) == 50.0
  {
  }

  lemma {:induction false} ShallowClears(bound: real)
    requires bound < FLAT
    ensures ClearBy(SHALLOW, bound)
  {
    ShallowCrosses();
    var vs := SHALLOW;
    forall i: nat, j: nat, k: nat | i < j < k < 4 ensures Abs(Turn(vs, i, j, k)) > bound {
      assert vs[i] == P || vs[i] == Q;
    }
  }

  /** The flat bound is the least clearance that suffices: below it the shallow quadrilateral goes wrong. */
  lemma {:induction false} LeastClearance(bound: real)
    ensures Suffices(bound) <==> bound >= FLAT
  {
    if bound >= FLAT {
      forall vs | ClearBy(vs, bound) && Simple(vs) ensures Right(vs) <==> TwiceArea(vs) < 0.0 {
        MoreClear(vs, bound);
        RightIffClockwise(vs);
      }
    } else {
      ShallowClears(bound);
      ShallowVertexInverts();
      assert !Right(SHALLOW);
    }
  }

  lemma {:induction false} MoreClear(vs: seq<Point>, bound: real)
    requires ClearBy(vs, bound) && bound >= FLAT
    ensures Clear(vs)
  {
    forall i: nat, j: nat, k: nat | i < j < k < |vs| ensures Abs(Turn(vs, i, j, k)) > FLAT {
      assert Abs(Turn(vs, i, j, k)) > bound;
    }
  }

  const NOTCH := Point(2.0, 2.0)

  /** A quadrilateral with a reflex corner. */
  const NOTCHED := [P, Q, NOTCH, S]

  lemma {:induction false} NotchedCrosses()
    ensures Cross(P, Q, NOTCH) == -60.0 && Cross(P, Q, S) == -100.0 && Cross(P, NOTCH, S) == -20.0
            && Cross(Q, NOTCH, S) == 20.0
    ensures Cross(S, P, Q) == -100.0 && Cross(NOTCH, S, P) == -20.0
    ensures Apart(P, Q, NOTCH, S) && Apart(Q, NOTCH, S, P)
  {
  }

  lemma {:induction false} NotchedIsClear()
    ensures Clear(NOTCHED)
  {
    NotchedCrosses();
    var vs := NOTCHED;
    forall i: nat, j: nat, k: nat | i < j < k < 4 ensures Abs(Turn(vs, i, j, k)) > FLAT {
      assert vs[i] == P || vs[i] == Q;
    }
  }

  lemma {:induction false} NotchedIsSimple()
    ensures SimpleClockwise(NOTCHED)
  {
    NotchedCrosses();
    FourSum(P, Q, NOTCH, S);
    var vs := NOTCHED;
    assert CornerCross(vs, 0) == -100.0 && CornerCross(vs, 1) == -60.0 && CornerCross(vs, 2) == 20.0
           && CornerCross(vs, 3) == -20.0;
  }

  /** Polygons clear of the bound need not be convex. */
  lemma {:induction false} NotchedIsRight()
    ensures Cross(Q, NOTCH, S) > 0.0 && Triangulation(NOTCHED).Some?
    ensures AbsSum(Triangulation(NOTCHED).value.triangles) == -TwiceArea(NOTCHED)
  {
    NotchedCrosses();
    NotchedIsClear();
    NotchedIsSimple();
    RightIffClockwise(NOTCHED);
  }
}

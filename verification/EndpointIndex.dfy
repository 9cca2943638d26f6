/** Building lane adjacency: explicit successors, or endpoint pairs found through a spatial hash. */
module EndpointIndex {
  import opened Prelude
  import opened LaneGraphs

  /** Distance between two points as a function of their offset; it dominates both coordinates. */
  type Norm = (real, real) -> real

  ghost predicate IsNorm(norm: Norm) {
    forall dx, dy :: norm(dx, dy) >= Abs(dx) && norm(dx, dy) >= Abs(dy)
  }

  datatype Lane = Lane(first: Point, last: Point, laneId: Option<string>, successorIds: Option<seq<string>>)

  type Cell = (int, int)

  function CellOf(p: Point, size: real): Cell
    requires size > 0.0
  {
    ((p.x / size).Floor, (p.y / size).Floor)
  }

  function Gap(norm: Norm, lanes: seq<Lane>, i: nat, j: nat): real
    requires i < |lanes| && j < |lanes|
  {
    norm(lanes[i].last.x - lanes[j].first.x, lanes[i].last.y - lanes[j].first.y)
  }

  /** Lane `j` may follow lane `i`. */
  predicate Joins(norm: Norm, lanes: seq<Lane>, tolerance: real, i: nat, j: nat)
    requires i < |lanes| && j < |lanes|
  {
    j != i && Gap(norm, lanes, i, j) <= tolerance
  }

  /** Reference definition: test every pair, in index order. */
  function BruteForce(norm: Norm, lanes: seq<Lane>, tolerance: real, i: nat, n: nat): (edges: seq<Edge>)
    requires i < |lanes| && n <= |lanes|
    ensures forall e :: e in edges ==> e.successor < n
  {
    if n == 0 then []
    else if Joins(norm, lanes, tolerance, i, n - 1)
    then BruteForce(norm, lanes, tolerance, i, n - 1) + [Edge(n - 1, Gap(norm, lanes, i, n - 1))]
    else BruteForce(norm, lanes, tolerance, i, n - 1)
  }

  // ---------- sorted(set(connected)) ----------

  predicate EdgeLess(a: Edge, b: Edge) {
    a.successor < b.successor || (a.successor == b.successor && a.gap < b.gap)
  }

  ghost predicate EdgesAscend(edges: seq<Edge>) {
    forall i, j :: 0 <= i < j < |edges| ==> EdgeLess(edges[i], edges[j])
  }

  /** Insert into a strictly ascending sequence unless already present. */
  function Insert(edges: seq<Edge>, e: Edge): (r: seq<Edge>)
    requires EdgesAscend(edges)
    ensures EdgesAscend(r)
    ensures forall x :: x in r <==> x in edges || x == e
  {
    if edges == [] then [e]
    else
      var last := edges[|edges| - 1];
      var init := edges[..|edges| - 1];
      assert edges == init + [last];
      if last == e then edges
      else if EdgeLess(last, e) then edges + [e]
      else
        var r := Insert(init, e) + [last];
        assert forall x :: x in Insert(init, e) ==> EdgeLess(x, last);
        r
  }

  function SortedSet(edges: seq<Edge>): (r: seq<Edge>)
    ensures EdgesAscend(r)
    ensures forall x :: x in r <==> x in edges
  {
    if edges == [] then []
    else
      assert edges == edges[..|edges| - 1] + [edges[|edges| - 1]];
      Insert(SortedSet(edges[..|edges| - 1]), edges[|edges| - 1])
  }

  ghost predicate SameElements(a: seq<Edge>, b: seq<Edge>) {
    forall x :: x in a <==> x in b
  }

  lemma {:induction false} SameLast(a: seq<Edge>, b: seq<Edge>)
    requires EdgesAscend(a) && EdgesAscend(b) && SameElements(a, b) && a != []
    ensures b != [] && a[|a| - 1] == b[|b| - 1]
    ensures SameElements(a[..|a| - 1], b[..|b| - 1])
  {
    var x := a[|a| - 1];
    assert x in b;
    var y := b[|b| - 1];
    assert y in a;
    var a', b' := a[..|a| - 1], b[..|b| - 1];
    assert a == a' + [x] && b == b' + [x];
    assert x !in a' && x !in b';
    forall e ensures e in a' <==> e in b' {
      assert e in a <==> e in a' || e == x;
      assert e in b <==> e in b' || e == x;
    }
  }

  /** Strictly ascending sequences with the same elements are equal. */
  lemma {:induction false} AscendingUnique(a: seq<Edge>, b: seq<Edge>)
    requires EdgesAscend(a) && EdgesAscend(b) && SameElements(a, b)
    ensures a == b
    decreases |a|
  {
    if a != [] {
      SameLast(a, b);
      AscendingUnique(a[..|a| - 1], b[..|b| - 1]);
      assert a == a[..|a| - 1] + [a[|a| - 1]] && b == b[..|b| - 1] + [b[|b| - 1]];
    } else if b != [] {
      SameLast(b, a);
    }
  }

  lemma {:induction false} BruteForceAscends(norm: Norm, lanes: seq<Lane>, tolerance: real, i: nat, n: nat)
    requires i < |lanes| && n <= |lanes|
    ensures EdgesAscend(BruteForce(norm, lanes, tolerance, i, n))
  {
    if n > 0 {
      BruteForceAscends(norm, lanes, tolerance, i, n - 1);
      var rest := BruteForce(norm, lanes, tolerance, i, n - 1);
      forall k | 0 <= k < |rest| ensures rest[k].successor < n - 1 {
        assert rest[k] in rest;
      }
    }
  }

  /** What an edge of lane `i` to a lane below `n` must be. */
  predicate IsEdge(norm: Norm, lanes: seq<Lane>, tolerance: real, i: nat, n: nat, e: Edge)
    requires i < |lanes| && n <= |lanes|
  {
    e.successor < n && Joins(norm, lanes, tolerance, i, e.successor) && e.gap == Gap(norm, lanes, i, e.successor)
  }

  lemma {:induction false} BruteForceHolds(norm: Norm, lanes: seq<Lane>, tolerance: real, i: nat, n: nat, e: Edge)
    requires i < |lanes| && n <= |lanes|
    ensures e in BruteForce(norm, lanes, tolerance, i, n) <==> IsEdge(norm, lanes, tolerance, i, n, e)
  {
    if n > 0 {
      BruteForceHolds(norm, lanes, tolerance, i, n - 1, e);
    }
  }

  lemma {:induction false} BruteForceMeaning(norm: Norm, lanes: seq<Lane>, tolerance: real, i: nat, n: nat)
    requires i < |lanes| && n <= |lanes|
    ensures EdgesAscend(BruteForce(norm, lanes, tolerance, i, n))
    ensures forall e :: e in BruteForce(norm, lanes, tolerance, i, n) <==> IsEdge(norm, lanes, tolerance, i, n, e)
  {
    BruteForceAscends(norm, lanes, tolerance, i, n);
    forall e ensures e in BruteForce(norm, lanes, tolerance, i, n) <==> IsEdge(norm, lanes, tolerance, i, n, e) {
      BruteForceHolds(norm, lanes, tolerance, i, n, e);
    }
  }

  // ---------- the hash ----------

  ghost predicate InBucket(buckets: map<Cell, seq<nat>>, c: Cell, j: nat) {
    c in buckets && j in buckets[c]
  }

  /** Every lane below `n` is in exactly the bucket of its start cell. */
  ghost predicate Filed(buckets: map<Cell, seq<nat>>, lanes: seq<Lane>, size: real, n: nat)
    requires size > 0.0 && n <= |lanes|
  {
    forall c: Cell, j: nat ::
      InBucket(buckets, c, j) <==> (j < n && CellOf(lanes[j].first, size) == c)
  }

  function Bucket(buckets: map<Cell, seq<nat>>, c: Cell): seq<nat> {
    if c in buckets then buckets[c] else []
  }

  method FileStarts(lanes: seq<Lane>, size: real) returns (buckets: map<Cell, seq<nat>>)
    requires size > 0.0
    ensures Filed(buckets, lanes, size, |lanes|)
  {
    buckets := map[];
    for i := 0 to |lanes|
      invariant Filed(buckets, lanes, size, i)
    {
      var c := CellOf(lanes[i].first, size);
      ghost var before := buckets;
      buckets := buckets[c := Bucket(buckets, c) + [i]];
      forall d: Cell, j: nat
        ensures InBucket(buckets, d, j) <==> (j < i + 1 && CellOf(lanes[j].first, size) == d)
      {
        assert InBucket(before, d, j) <==> (j < i && CellOf(lanes[j].first, size) == d);
        if d == c {
          assert j in buckets[d] <==> j in Bucket(before, c) || j == i;
        }
      }
    }
  }

  lemma {:induction false} ScaleBack(p: real, q: real, a: real, b: real, size: real)
    requires size > 0.0 && a == p * size && b == q * size && a - b <= size
    ensures p - q <= 1.0
  {
    assert (p - q - 1.0) * size == p * size - q * size - size;
  }

  /** Numbers at most one cell width apart lie in the same or neighbouring cells. */
  lemma {:induction false} NeighbourCells(a: real, b: real, size: real)
    requires size > 0.0 && Abs(a - b) <= size
    ensures -1 <= (b / size).Floor - (a / size).Floor <= 1
  {
    ScaleBack(a / size, b / size, a, b, size);
    ScaleBack(b / size, a / size, b, a, size);
  }

  lemma {:induction false} JoinedIsNearby(norm: Norm, lanes: seq<Lane>, tolerance: real, i: nat, j: nat)
    requires IsNorm(norm) && tolerance > 0.0 && i < |lanes| && j < |lanes|
    requires Joins(norm, lanes, tolerance, i, j)
    ensures var a, b := CellOf(lanes[i].last, tolerance), CellOf(lanes[j].first, tolerance);
            -1 <= b.0 - a.0 <= 1 && -1 <= b.1 - a.1 <= 1
  {
    NeighbourCells(lanes[i].last.x, lanes[j].first.x, tolerance);
    NeighbourCells(lanes[i].last.y, lanes[j].first.y, tolerance);
  }

  ghost predicate InBlock(home: Cell, c: Cell) {
    -1 <= c.0 - home.0 <= 1 && -1 <= c.1 - home.1 <= 1
  }

  /** `e` is the edge from lane `i` to a lane that may follow it. */
  ghost predicate IsLink(norm: Norm, lanes: seq<Lane>, tolerance: real, i: nat, e: Edge)
    requires i < |lanes|
  {
    && e.successor < |lanes|
    && Joins(norm, lanes, tolerance, i, e.successor)
    && e.gap == Gap(norm, lanes, i, e.successor)
  }

  /** The links of lane `i` into one bucket, appended to `connected`. */
  method ScanBucket(norm: Norm, lanes: seq<Lane>, tolerance: real, i: nat, bucket: seq<nat>, connected: seq<Edge>)
    returns (r: seq<Edge>)
    requires i < |lanes| && forall j :: j in bucket ==> j < |lanes|
    ensures forall e :: e in r <==>
              (e in connected || (e.successor in bucket && IsLink(norm, lanes, tolerance, i, e)))
  {
    r := connected;
    for k := 0 to |bucket|
      invariant forall e :: e in r <==>
                  (e in connected || (e.successor in bucket[..k] && IsLink(norm, lanes, tolerance, i, e)))
    {
      var successor := bucket[k];
      assert successor in bucket;
      assert bucket[..k + 1] == bucket[..k] + [successor];
      if successor != i {
        var gap := Gap(norm, lanes, i, successor);
        if gap <= tolerance {
          r := r + [Edge(successor, gap)];
        }
      }
    }
    assert bucket[..|bucket|] == bucket;
  }

  /** `e` links lane `i` into a cell whose offset from `home` precedes `(ox, oy)` in scan order. */
  ghost predicate Scanned(norm: Norm, lanes: seq<Lane>, tolerance: real, i: nat, home: Cell, ox: int, oy: int, e: Edge)
    requires i < |lanes| && tolerance > 0.0
  {
    && IsLink(norm, lanes, tolerance, i, e)
    && var c := CellOf(lanes[e.successor].first, tolerance);
       && InBlock(home, c)
       && (c.0 - home.0 < ox || (c.0 - home.0 == ox && c.1 - home.1 < oy))
  }

  /** The continuations of one lane, found by scanning the 3x3 block of cells around its end. */
  method Connect(norm: Norm, lanes: seq<Lane>, tolerance: real, i: nat, buckets: map<Cell, seq<nat>>)
    returns (edges: seq<Edge>)
    requires IsNorm(norm) && tolerance > 0.0 && i < |lanes| && Filed(buckets, lanes, tolerance, |lanes|)
    ensures edges == BruteForce(norm, lanes, tolerance, i, |lanes|)
  {
    var home := CellOf(lanes[i].last, tolerance);
    var connected: seq<Edge> := [];
    for ox := -1 to 2
      invariant forall e :: e in connected <==> Scanned(norm, lanes, tolerance, i, home, ox, -1, e)
    {
      for oy := -1 to 2
        invariant forall e :: e in connected <==> Scanned(norm, lanes, tolerance, i, home, ox, oy, e)
      {
        var c := (home.0 + ox, home.1 + oy);
        assert forall j :: j in Bucket(buckets, c) <==> InBucket(buckets, c, j);
        connected := ScanBucket(norm, lanes, tolerance, i, Bucket(buckets, c), connected);
      }
    }
    edges := SortedSet(connected);
    BlockSuffices(norm, lanes, tolerance, i, home);
    BruteForceMeaning(norm, lanes, tolerance, i, |lanes|);
    AscendingUnique(edges, BruteForce(norm, lanes, tolerance, i, |lanes|));
  }

  lemma {:induction false} BlockSuffices(norm: Norm, lanes: seq<Lane>, tolerance: real, i: nat, home: Cell)
    requires IsNorm(norm) && tolerance > 0.0 && i < |lanes| && home == CellOf(lanes[i].last, tolerance)
    ensures forall e :: IsLink(norm, lanes, tolerance, i, e) <==> Scanned(norm, lanes, tolerance, i, home, 2, -1, e)
  {
    forall e | IsLink(norm, lanes, tolerance, i, e) ensures Scanned(norm, lanes, tolerance, i, home, 2, -1, e) {
      JoinedIsNearby(norm, lanes, tolerance, i, e.successor);
    }
  }

  // ---------- explicit successors ----------

  predicate AllExplicit(lanes: seq<Lane>) {
    forall i :: 0 <= i < |lanes| ==> lanes[i].laneId.Some? && lanes[i].successorIds.Some?
  }

  /** Index of the last of the first `n` lanes carrying `id`; a later lane overwrites an earlier one. */
  function IndexOf(lanes: seq<Lane>, id: string, n: nat): (r: Option<nat>)
    requires n <= |lanes|
    ensures r.Some? ==> r.value < n && lanes[r.value].laneId == Some(id)
    ensures forall j :: 0 <= j < n && lanes[j].laneId == Some(id) ==> r.Some? && j <= r.value
  {
    if n == 0 then None
    else if lanes[n - 1].laneId == Some(id) then Some(n - 1)
    else IndexOf(lanes, id, n - 1)
  }

  /** Named successors that exist, in authored order and without a gap. */
  function Explicit(lanes: seq<Lane>, ids: seq<string>): (edges: seq<Edge>)
    ensures forall e :: e in edges ==>
              e.successor < |lanes| && e.gap == 0.0 && lanes[e.successor].laneId.Some?
                && lanes[e.successor].laneId.value in ids
  {
    if ids == [] then []
    else
      match IndexOf(lanes, ids[0], |lanes|)
      case None => Explicit(lanes, ids[1..])
      case Some(j) => [Edge(j, 0.0)] + Explicit(lanes, ids[1..])
  }

  /** The adjacency the map promises: explicit when every lane is labelled, otherwise all pairs within tolerance. */
  function AdjacencyOf(norm: Norm, lanes: seq<Lane>, tolerance: real, i: nat): seq<Edge>
    requires i < |lanes|
  {
    if AllExplicit(lanes) then Explicit(lanes, lanes[i].successorIds.value)
    else BruteForce(norm, lanes, tolerance, i, |lanes|)
  }

  method BuildAdjacency(norm: Norm, lanes: seq<Lane>, tolerance: real) returns (adjacency: seq<seq<Edge>>)
    requires IsNorm(norm) && tolerance > 0.0
    ensures |adjacency| == |lanes|
    ensures forall i :: 0 <= i < |lanes| ==> adjacency[i] == AdjacencyOf(norm, lanes, tolerance, i)
  {
    adjacency := [];
    if AllExplicit(lanes) {
      for i := 0 to |lanes|
        invariant |adjacency| == i
        invariant forall j :: 0 <= j < i ==> adjacency[j] == AdjacencyOf(norm, lanes, tolerance, j)
      {
        adjacency := adjacency + [Explicit(lanes, lanes[i].successorIds.value)];
      }
    } else {
      var buckets := FileStarts(lanes, tolerance);
      for i := 0 to |lanes|
        invariant |adjacency| == i
        invariant forall j :: 0 <= j < i ==> adjacency[j] == AdjacencyOf(norm, lanes, tolerance, j)
      {
        var edges := Connect(norm, lanes, tolerance, i, buckets);
        adjacency := adjacency + [edges];
      }
    }
  }

  // ---------- what the adjacency holds ----------

  /**
   * Unless every lane names its successors, a lane leads to exactly the others that start within tolerance of its end.
   */
  lemma {:induction false} LinksWithinTolerance(norm: Norm, lanes: seq<Lane>, tolerance: real, i: nat, e: Edge)
    requires i < |lanes| && exists j :: 0 <= j < |lanes| && (lanes[j].laneId.None? || lanes[j].successorIds.None?)
    ensures e in AdjacencyOf(norm, lanes, tolerance, i) <==>
            && e.successor < |lanes| && e.successor != i && e.gap <= tolerance
            && e.gap == norm(lanes[i].last.x - lanes[e.successor].first.x, lanes[i].last.y - lanes[e.successor].first.y)
  {
    BruteForceHolds(norm, lanes, tolerance, i, |lanes|, e);
  }

  /** The lane that a name stands for: the last one of that name. */
  ghost predicate Names(lanes: seq<Lane>, id: string, j: nat) {
    j < |lanes| && lanes[j].laneId == Some(id) && forall k :: j < k < |lanes| ==> lanes[k].laneId != Some(id)
  }

  lemma {:induction false} ExplicitSplit(lanes: seq<Lane>, a: seq<string>, b: seq<string>)
    ensures Explicit(lanes, a + b) == Explicit(lanes, a) + Explicit(lanes, b)
  {
    if a == [] {
      assert a + b == b;
    } else {
      assert (a + b)[1..] == a[1..] + b;
      ExplicitSplit(lanes, a[1..], b);
    }
  }

  /**
   * Otherwise it leads without a gap to the lanes its successors' names stand for, in the order in which it names them,
   * and names that stand for no lane are passed over.
   */
  lemma {:induction false} NamedSuccessors(norm: Norm, lanes: seq<Lane>, tolerance: real, i: nat, n: nat)
    requires i < |lanes| && forall j :: 0 <= j < |lanes| ==> lanes[j].laneId.Some? && lanes[j].successorIds.Some?
    requires n < |lanes[i].successorIds.value|
    ensures var ids := lanes[i].successorIds.value;
            && AdjacencyOf(norm, lanes, tolerance, i) == Explicit(lanes, ids[..n]) + Explicit(lanes, ids[n..])
            && (forall j :: Names(lanes, ids[n], j) ==>
                  Explicit(lanes, ids[n..]) == [Edge(j, 0.0)] + Explicit(lanes, ids[n + 1..]))
            && ((forall j :: !Names(lanes, ids[n], j)) ==> Explicit(lanes, ids[n..]) == Explicit(lanes, ids[n + 1..]))
  {
    var ids := lanes[i].successorIds.value;
    assert ids[..n] + ids[n..] == ids && ids[n..][1..] == ids[n + 1..];
    ExplicitSplit(lanes, ids[..n], ids[n..]);
    var j := IndexOf(lanes, ids[n], |lanes|);
    assert j.Some? ==> Names(lanes, ids[n], j.value);
  }

  /** Either way the result, with positive lane lengths, is a graph the search accepts. */
  lemma {:induction false} AdjacencyIsValid(norm: Norm, lanes: seq<Lane>, tolerance: real, g: LaneGraph)
    requires IsNorm(norm) && |g.lengths| == |lanes| == |g.adjacency|
    requires forall u :: 0 <= u < |lanes| ==> g.lengths[u] > 0.0
    requires forall i :: 0 <= i < |lanes| ==> g.adjacency[i] == AdjacencyOf(norm, lanes, tolerance, i)
    ensures g.Valid()
  {
    forall u, k | 0 <= u < |lanes| && 0 <= k < |g.adjacency[u]|
      ensures g.adjacency[u][k].successor < |lanes| && g.adjacency[u][k].gap >= 0.0
    {
      var e := g.adjacency[u][k];
      assert e in g.adjacency[u];
      if !AllExplicit(lanes) {
        BruteForceMeaning(norm, lanes, tolerance, u, |lanes|);
      }
    }
  }
}

/** How far the search is from the true shortest distance: an example, and maps on which it is exact. */
module RoutingSlack {
  import opened LaneGraphs
  import opened ShortestTree
  import opened Routes

  const NANO: real := 0.000000001

  /** Two lanes fork from lane 0 and meet on lane 3; lane 1 is no shorter than lane 2. */
  function Fork(entry: real, long: real, short: real): (g: LaneGraph)
    requires entry > 0.0 && 0.0 < short <= long
    ensures g.Valid() && g.LaneCount() == 4
  {
    LaneGraph([entry, long, short, entry], [[Edge(1, 0.0), Edge(2, 0.0)], [Edge(3, 0.0)], [Edge(3, 0.0)], []])
  }

  const ORIGIN := LanePosition(0, 0.0)

  /** The search with both lanes of the fork queued. */
  function Forked(entry: real): Search {
    Search([Unreached, At(entry), At(entry), Unreached], [-1, 0, 0, -1], [Entry(entry, 1), Entry(entry, 2)])
  }

  /** The search with lane 3 reached through lane 1. */
  function Joined(entry: real, long: real): Search {
    Search([Unreached, At(entry), At(entry), At(entry + long)], [-1, 0, 0, 1],
           [Entry(entry, 2), Entry(entry + long, 3)])
  }

  /** Lanes with one continuation or two are relaxed edge by edge. */
  lemma {:induction false} RelaxesFew(g: LaneGraph, lane: nat, exit: real, slack: real, s: Search)
    requires g.Valid() && Shaped(g, s) && lane < g.LaneCount() && 1 <= |g.adjacency[lane]| <= 2
    ensures var first := RelaxOne(g, lane, exit, slack, s, 0);
            Relax(g, lane, exit, slack, s, 0)
            == if |g.adjacency[lane]| == 1 then first else RelaxOne(g, lane, exit, slack, first, 1)
  {
    var first := RelaxOne(g, lane, exit, slack, s, 0);
    if |g.adjacency[lane]| == 2 {
      var second := RelaxOne(g, lane, exit, slack, first, 1);
      assert Relax(g, lane, exit, slack, second, 2) == second;
    }
    assert Relax(g, lane, exit, slack, first, |g.adjacency[lane]|) == first;
  }

  lemma {:induction false} Seeds(entry: real, long: real, short: real)
    requires entry > 0.0 && 0.0 < short <= long
    ensures Seeded(Fork(entry, long, short), ORIGIN) == Forked(entry)
  {
    var g := Fork(entry, long, short);
    RelaxesFew(g, 0, entry, 0.0, Blank(g));
    assert g.Remaining(ORIGIN) == entry;
    var first := RelaxOne(g, 0, entry, 0.0, Blank(g), 0);
    assert first == Search([Unreached, At(entry), Unreached, Unreached], [-1, 0, -1, -1], [Entry(entry, 1)]);
    assert RelaxOne(g, 0, entry, 0.0, first, 1) == Forked(entry);
  }

  lemma {:induction false} FirstTurn(entry: real, long: real, short: real)
    requires entry > 0.0 && 0.0 < short <= long
    ensures var g, s := Fork(entry, long, short), Forked(entry);
            Shaped(g, s) && Turn(g, s) == Joined(entry, long)
  {
    var g, s := Fork(entry, long, short), Forked(entry);
    var popped := s.(queue := [Entry(entry, 2)]);
    assert s.queue[..1] == [Entry(entry, 1)];
    assert LeastIndex(s.queue) == 0 && Without(s.queue, 0) == popped.queue;
    RelaxesFew(g, 1, entry + long, SLACK, popped);
    assert RelaxOne(g, 1, entry + long, SLACK, popped, 0) == Joined(entry, long);
  }

  /** Lane 2 is not taken when it wins by no more than the slack. */
  lemma {:induction false} SecondTurn(entry: real, long: real, short: real)
    requires entry > 0.0 && 0.0 < short <= long <= short + SLACK
    ensures var g, s := Fork(entry, long, short), Joined(entry, long);
            Shaped(g, s) && Turn(g, s) == s.(queue := [Entry(entry + long, 3)])
  {
    var g, s := Fork(entry, long, short), Joined(entry, long);
    var popped := s.(queue := [Entry(entry + long, 3)]);
    assert s.queue[..1] == [Entry(entry, 2)];
    assert LeastIndex(s.queue) == 0 && Without(s.queue, 0) == popped.queue;
    RelaxesFew(g, 2, entry + short, SLACK, popped);
  }

  lemma {:induction false} LastTurn(entry: real, long: real, short: real)
    requires entry > 0.0 && 0.0 < short <= long
    ensures var g, s := Fork(entry, long, short), Joined(entry, long).(queue := [Entry(entry + long, 3)]);
            Shaped(g, s) && Turn(g, s) == s.(queue := [])
  {
    var g, s := Fork(entry, long, short), Joined(entry, long).(queue := [Entry(entry + long, 3)]);
    assert LeastIndex(s.queue) == 0 && Without(s.queue, 0) == [];
  }

  lemma {:induction false} RunStep(g: LaneGraph, start: LanePosition, s: Search, done: set<nat>)
    requires Inv(g, start, s, done) && s.queue != []
    ensures Inv(g, start, Turn(g, s), DoneAfter(s, done))
    ensures Run(g, start, s, done) == Run(g, start, Turn(g, s), DoneAfter(s, done))
  {
    TurnKeeps(g, start, s, done);
  }

  /** The shorter of the two ways to lane 3 is not taken when it wins by no more than the slack. */
  lemma {:induction false} ForkKeepsLonger(entry: real, long: real, short: real)
    requires entry > 0.0 && 0.0 < short <= long <= short + SLACK
    ensures Tree(Fork(entry, long, short), ORIGIN).distances[3] == At(entry + long)
  {
    var g, s, t := Fork(entry, long, short), Forked(entry), Joined(entry, long);
    SeededKeeps(g, ORIGIN);
    Seeds(entry, long, short);
    FirstTurn(entry, long, short);
    SecondTurn(entry, long, short);
    LastTurn(entry, long, short);
    RunStep(g, ORIGIN, s, {});
    var done := DoneAfter(s, {});
    RunStep(g, ORIGIN, t, done);
    RunStep(g, ORIGIN, t.(queue := [Entry(entry + long, 3)]), DoneAfter(t, done));
  }

  lemma {:induction false} ShorterWalk(entry: real, long: real, short: real) returns (hops: seq<Edge>)
    requires entry > 0.0 && 0.0 < short <= long
    ensures var g := Fork(entry, long, short);
            WalkedTo(g, ORIGIN, hops, 3) && WalkCost(g, ORIGIN, hops) == entry + short
  {
    var g := Fork(entry, long, short);
    ExtendWalk(g, ORIGIN, [], Edge(2, 0.0));
    assert [] + [Edge(2, 0.0)] == [Edge(2, 0.0)];
    ExtendWalk(g, ORIGIN, [Edge(2, 0.0)], Edge(3, 0.0));
    hops := [Edge(2, 0.0)] + [Edge(3, 0.0)];
  }

  /** For instance, of two ways of about a metre the one shorter by half a nanometre. */
  lemma {:induction false} ShorterWayIgnored()
    ensures var g := Fork(1.0, 1.0, 1.0 - 0.5 * NANO);
            && Tree(g, ORIGIN).distances[3] == At(2.0)
            && exists hops :: WalkedTo(g, ORIGIN, hops, 3) && WalkCost(g, ORIGIN, hops) < 2.0
  {
    ForkKeepsLonger(1.0, 1.0, 1.0 - 0.5 * NANO);
    var hops := ShorterWalk(1.0, 1.0, 1.0 - 0.5 * NANO);
  }

  function Times(k: int, quantum: real): real { k as real * quantum }

  /** `x` is a whole number of quanta. */
  ghost predicate Whole(x: real, quantum: real) {
    exists k: int :: x == Times(k, quantum)
  }

  lemma {:induction false} WholeSum(a: real, b: real, quantum: real)
    requires Whole(a, quantum) && Whole(b, quantum)
    ensures Whole(a + b, quantum)
  {
    var j: int :| a == Times(j, quantum);
    var k: int :| b == Times(k, quantum);
    assert a + b == Times(j + k, quantum);
  }

  ghost predicate WholeGraph(g: LaneGraph, start: LanePosition, quantum: real)
    requires g.Valid() && g.Holds(start)
  {
    && Whole(g.Remaining(start), quantum)
    && (forall u :: 0 <= u < g.LaneCount() ==> Whole(g.lengths[u], quantum))
    && (forall u, e :: 0 <= u < g.LaneCount() && e in g.adjacency[u] ==> Whole(e.gap, quantum))
  }

  lemma {:induction false} WholeCost(g: LaneGraph, start: LanePosition, hops: seq<Edge>, quantum: real)
    requires g.Valid() && g.Holds(start) && WholeGraph(g, start, quantum)
    requires hops != [] && IsWalk(g, start.lane, hops)
    ensures Whole(WalkCost(g, start, hops), quantum)
  {
    var prefix := hops[..|hops| - 1];
    if prefix == [] {
      WholeSum(g.Remaining(start), hops[0].gap, quantum);
    } else {
      WholeCost(g, start, prefix, quantum);
      WholeSum(WalkCost(g, start, prefix), g.lengths[WalkEnd(start.lane, prefix)], quantum);
      WholeSum(WalkCost(g, start, prefix) + g.lengths[WalkEnd(start.lane, prefix)], hops[|hops| - 1].gap, quantum);
    }
  }

  lemma {:induction false} NextQuantum(a: real, b: real, quantum: real)
    requires quantum > 0.0 && Whole(a, quantum) && Whole(b, quantum) && a < b + quantum
    ensures a <= b
  {
    var j: int :| a == Times(j, quantum);
    var k: int :| b == Times(k, quantum);
    assert a - b == (j - k) as real * quantum;
    if j - k >= 1 {
    } else {
      assert b - a + quantum == (k - j + 1) as real * quantum;
    }
  }

  /** The distance found for the end of a walk is no longer than the walk. */
  ghost predicate NoWorse(g: LaneGraph, start: LanePosition, hops: seq<Edge>)
    requires g.Valid() && g.Holds(start) && hops != [] && IsWalk(g, start.lane, hops)
  {
    var found := Tree(g, start).distances[WalkEnd(start.lane, hops)];
    found.At? && found.metres <= WalkCost(g, start, hops)
  }

  /**
   * On a map measured in whole quanta coarser than the slack the distance found is exactly least, however long the
   * walk: both sides of a relaxed edge are whole, so no slack accumulates.
   */
  lemma {:induction false} WholeGraphIsExact(g: LaneGraph, start: LanePosition, hops: seq<Edge>, quantum: real)
    requires g.Valid() && g.Holds(start) && WholeGraph(g, start, quantum) && quantum > SLACK
    requires hops != [] && IsWalk(g, start.lane, hops)
    ensures NoWorse(g, start, hops)
  {
    var s, v := Tree(g, start), WalkEnd(start.lane, hops);
    TreeFinishes(g, start);
    NoCheaperWalk(g, start, s, hops);
    var prefix := hops[..|hops| - 1];
    if prefix != [] {
      var u := WalkEnd(start.lane, prefix);
      WholeGraphIsExact(g, start, prefix, quantum);
      assert AllRelaxed(g, s.distances, u);
      WholeDistance(g, start, u, quantum);
      WholeDistance(g, start, v, quantum);
      var exit, gap := s.distances[u].metres + g.lengths[u], hops[|hops| - 1].gap;
      WholeSum(s.distances[u].metres, g.lengths[u], quantum);
      WholeSum(exit, gap, quantum);
      NextQuantum(s.distances[v].metres, exit + gap, quantum);
    }
  }

  /** On such a map every distance found is whole. */
  lemma {:induction false} WholeDistance(g: LaneGraph, start: LanePosition, v: nat, quantum: real)
    requires g.Valid() && g.Holds(start) && WholeGraph(g, start, quantum)
    requires v < g.LaneCount() && Tree(g, start).distances[v].At?
    ensures Whole(Tree(g, start).distances[v].metres, quantum)
  {
    TreeFinishes(g, start);
    var found := PathIsWalk(g, start, Tree(g, start), v);
    WholeCost(g, start, found, quantum);
  }

  /** Every map measured in whole quanta is searched exactly. */
  ghost predicate WholeMapsExact(quantum: real) {
    forall g: LaneGraph, start, hops ::
      g.Valid() && g.Holds(start) && WholeGraph(g, start, quantum) && hops != [] && IsWalk(g, start.lane, hops)
      ==> NoWorse(g, start, hops)
  }

  lemma {:induction false} WholeFork(quantum: real)
    requires quantum > 0.0
    ensures WholeGraph(Fork(quantum, 2.0 * quantum, quantum), ORIGIN, quantum)
  {
    assert quantum == Times(1, quantum) && 2.0 * quantum == Times(2, quantum) && 0.0 == Times(0, quantum);
  }

  /** That is so exactly for quanta above the slack; at the slack and below, the search misses by a whole quantum. */
  lemma {:induction false} ExactAboveSlack(quantum: real)
    requires quantum > 0.0
    ensures WholeMapsExact(quantum) <==> quantum > SLACK
  {
    if quantum > SLACK {
      forall g: LaneGraph, start, hops |
        g.Valid() && g.Holds(start) && WholeGraph(g, start, quantum) && hops != [] && IsWalk(g, start.lane, hops)
        ensures NoWorse(g, start, hops)
      {
        WholeGraphIsExact(g, start, hops, quantum);
      }
    } else {
      var g := Fork(quantum, 2.0 * quantum, quantum);
      WholeFork(quantum);
      ForkKeepsLonger(quantum, 2.0 * quantum, quantum);
      var hops := ShorterWalk(quantum, 2.0 * quantum, quantum);
      assert !NoWorse(g, ORIGIN, hops);
    }
  }

  lemma {:induction false} WholeDistanceIsLeast(g: LaneGraph, start: LanePosition, anchors: seq<LanePosition>,
                                                a: LanePosition, hops: seq<Edge>, quantum: real)
    requires g.Valid() && g.Holds(start) && (forall x :: x in anchors ==> g.Holds(x)) && a in anchors
    requires WholeGraph(g, start, quantum) && quantum > SLACK && WalkedTo(g, start, hops, a.lane)
    ensures NotFarther(DistanceOf(g, start, anchors), At(WalkCost(g, start, hops) + a.offset))
  {
    WholeGraphIsExact(g, start, hops, quantum);
    if a != anchors[|anchors| - 1] {
      WholeDistanceIsLeast(g, start, anchors[..|anchors| - 1], a, hops, quantum);
    }
  }

  /** So on such a map a returned route is as short as any alternative to any anchor, as documented. */
  lemma {:induction false} WholeRouteIsShortest(g: LaneGraph, start: LanePosition, anchors: seq<LanePosition>,
                                                a: LanePosition, hops: seq<Edge>, quantum: real)
    requires g.Valid() && g.Holds(start) && (forall x :: x in anchors ==> g.Holds(x)) && a in anchors
    requires WholeGraph(g, start, quantum) && quantum > SLACK && WalkedTo(g, start, hops, a.lane)
    ensures RouteOf(g, start, anchors).Some?
    ensures RouteOf(g, start, anchors).value.metres <= WalkCost(g, start, hops) + a.offset
    ensures a.lane == start.lane && start.offset <= a.offset
            ==> RouteOf(g, start, anchors).value.metres <= a.offset - start.offset
  {
    QueriesAgree(g, start, anchors);
    WholeDistanceIsLeast(g, start, anchors, a, hops, quantum);
    DistanceIsNearOptimal(g, start, anchors, a);
  }
}

/** The directed lane graph, the walks a car can take through it, and what they cost. */
module LaneGraphs {

  /** Improvement below which relaxation leaves a lane alone, in metres. */
  const SLACK: real := 0.000000001

  /** A legal continuation onto another lane, and the gap crossed to reach its start. */
  datatype Edge = Edge(successor: nat, gap: real)

  /** A point part-way along a lane. */
  datatype LanePosition = LanePosition(lane: nat, offset: real)

  /** Distance from the start position to the beginning of a lane. */
  datatype Distance = Unreached | At(metres: real)

  datatype LaneGraph = LaneGraph(lengths: seq<real>, adjacency: seq<seq<Edge>>) {

    function LaneCount(): nat { |lengths| }

    ghost predicate Valid() {
      && |adjacency| == |lengths|
      && (forall u :: 0 <= u < |lengths| ==> lengths[u] > 0.0)
      && (forall u, k :: 0 <= u < |adjacency| && 0 <= k < |adjacency[u]| ==>
            adjacency[u][k].successor < |lengths| && adjacency[u][k].gap >= 0.0)
    }

    ghost predicate Holds(p: LanePosition) {
      p.lane < |lengths| && p.offset >= 0.0
    }

    /** What is left of the start lane ahead of the car. */
    function Remaining(start: LanePosition): (r: real)
      requires start.lane < |lengths|
      ensures r >= 0.0
    {
      if lengths[start.lane] - start.offset > 0.0 then lengths[start.lane] - start.offset else 0.0
    }
  }

  /** The lane a walk from lane `source` ends on. */
  function WalkEnd(source: nat, hops: seq<Edge>): nat {
    if hops == [] then source else hops[|hops| - 1].successor
  }

  ghost predicate IsWalk(g: LaneGraph, source: nat, hops: seq<Edge>)
    requires g.Valid() && source < g.LaneCount()
    ensures IsWalk(g, source, hops) ==> WalkEnd(source, hops) < g.LaneCount()
  {
    hops == [] ||
    (var prefix := hops[..|hops| - 1];
     && IsWalk(g, source, prefix)
     && hops[|hops| - 1] in g.adjacency[WalkEnd(source, prefix)])
  }

  /** Road driven from `start` until the beginning of the last lane of the walk. */
  ghost function WalkCost(g: LaneGraph, start: LanePosition, hops: seq<Edge>): real
    requires g.Valid() && start.lane < g.LaneCount()
    requires IsWalk(g, start.lane, hops) && hops != []
  {
    var prefix := hops[..|hops| - 1];
    var gap := hops[|hops| - 1].gap;
    if prefix == [] then
      (if start.offset < g.lengths[start.lane] then g.lengths[start.lane] - start.offset else 0.0) + gap
    else WalkCost(g, start, prefix) + g.lengths[WalkEnd(start.lane, prefix)] + gap
  }

  /** The lanes a walk enters, in order. */
  function LanesOf(hops: seq<Edge>): (lanes: seq<nat>)
    ensures |lanes| == |hops|
  {
    if hops == [] then [] else LanesOf(hops[..|hops| - 1]) + [hops[|hops| - 1].successor]
  }
}

/** Walks that revisit a lane can be cut short, so the search's slack is bounded by the lane count. */
module Shortcuts {
  import opened LaneGraphs
  import opened ShortestTree

  ghost predicate NoRepeats(s: seq<nat>) {
    forall i, j :: 0 <= i < j < |s| ==> s[i] != s[j]
  }

  lemma {:induction false} DistinctCount(s: seq<nat>, n: nat)
    requires NoRepeats(s) && forall x :: x in s ==> x < n
    ensures |s| <= n
  {
    var elems := set x | x in s;
    ElementCount(s, elems);
    SubsetSize(elems, UpTo(n));
  }

  lemma {:induction false} ElementCount(s: seq<nat>, elems: set<nat>)
    requires NoRepeats(s) && elems == set x | x in s
    ensures |elems| == |s|
  {
    if s != [] {
      var t := s[..|s| - 1];
      ElementCount(t, set x | x in t);
      assert s == t + [s[|s| - 1]];
      assert elems == (set x | x in t) + {s[|s| - 1]};
    }
  }

  lemma {:induction false} PrefixWalk(g: LaneGraph, start: LanePosition, hops: seq<Edge>, i: nat)
    requires g.Valid() && g.Holds(start) && IsWalk(g, start.lane, hops) && 0 < i <= |hops|
    ensures IsWalk(g, start.lane, hops[..i])
    ensures WalkCost(g, start, hops[..i]) <= WalkCost(g, start, hops)
    decreases |hops|
  {
    if i < |hops| {
      PrefixWalk(g, start, hops[..|hops| - 1], i);
      assert hops[..|hops| - 1][..i] == hops[..i];
    } else {
      assert hops[..i] == hops;
    }
  }

  /** Two walks ending on the same lane can be continued alike; the cheaper one stays cheaper. */
  lemma {:induction false} SwapPrefix(g: LaneGraph, start: LanePosition, a: seq<Edge>, b: seq<Edge>, t: seq<Edge>)
    requires g.Valid() && g.Holds(start) && a != [] && b != []
    requires IsWalk(g, start.lane, a) && IsWalk(g, start.lane, b + t)
    requires IsWalk(g, start.lane, b) && WalkCost(g, start, a) <= WalkCost(g, start, b)
    requires WalkEnd(start.lane, a) == WalkEnd(start.lane, b)
    ensures IsWalk(g, start.lane, a + t) && WalkEnd(start.lane, a + t) == WalkEnd(start.lane, b + t)
    ensures WalkCost(g, start, a + t) <= WalkCost(g, start, b + t)
    decreases |t|
  {
    if t == [] {
      assert a + t == a && b + t == b;
    } else {
      var u := t[..|t| - 1];
      assert (b + t)[..|b + t| - 1] == b + u;
      assert (a + t)[..|a + t| - 1] == a + u;
      SwapPrefix(g, start, a, b, u);
    }
  }

  /** A walk longer than the number of lanes enters some lane twice. */
  lemma {:induction false} RepeatedLane(g: LaneGraph, start: LanePosition, hops: seq<Edge>) returns (i: nat, j: nat)
    requires g.Valid() && g.Holds(start) && IsWalk(g, start.lane, hops) && |hops| > g.LaneCount()
    ensures i < j < |hops| && hops[i].successor == hops[j].successor
  {
    var ends: seq<nat> := seq(|hops|, k requires 0 <= k < |hops| => hops[k].successor);
    forall k | 0 <= k < |ends| ensures ends[k] < g.LaneCount() {
      PrefixWalk(g, start, hops, k + 1);
      assert WalkEnd(start.lane, hops[..k + 1]) == ends[k];
    }
    assert !NoRepeats(ends) by {
      if NoRepeats(ends) {
        DistinctCount(ends, g.LaneCount());
      }
    }
    i, j :| 0 <= i < j < |ends| && ends[i] == ends[j];
  }

  /** Such a walk has a shorter, no dearer walk to the same lane. */
  lemma {:induction false} Shortcut(g: LaneGraph, start: LanePosition, hops: seq<Edge>) returns (cut: seq<Edge>)
    requires g.Valid() && g.Holds(start) && IsWalk(g, start.lane, hops) && |hops| > g.LaneCount()
    ensures 0 < |cut| < |hops| && IsWalk(g, start.lane, cut)
    ensures WalkEnd(start.lane, cut) == WalkEnd(start.lane, hops)
    ensures WalkCost(g, start, cut) <= WalkCost(g, start, hops)
  {
    var i, j := RepeatedLane(g, start, hops);
    var a, b, t := hops[..i + 1], hops[..j + 1], hops[j + 1..];
    assert b + t == hops;
    PrefixWalk(g, start, hops, j + 1);
    PrefixWalk(g, start, b, i + 1);
    assert b[..i + 1] == a;
    SwapPrefix(g, start, a, b, t);
    cut := a + t;
  }

  /** Some walk of at most as many hops as there are lanes is no dearer. */
  lemma {:induction false} ShortWalk(g: LaneGraph, start: LanePosition, hops: seq<Edge>) returns (cut: seq<Edge>)
    requires g.Valid() && g.Holds(start) && IsWalk(g, start.lane, hops) && hops != []
    ensures 0 < |cut| <= g.LaneCount() && IsWalk(g, start.lane, cut)
    ensures WalkEnd(start.lane, cut) == WalkEnd(start.lane, hops)
    ensures WalkCost(g, start, cut) <= WalkCost(g, start, hops)
    decreases |hops|
  {
    if |hops| <= g.LaneCount() {
      cut := hops;
    } else {
      var shorter := Shortcut(g, start, hops);
      cut := ShortWalk(g, start, shorter);
    }
  }

  /** The distance found exceeds the cost of any walk, however long, by less than one SLACK per lane. */
  lemma {:induction false} NearOptimal(g: LaneGraph, start: LanePosition, hops: seq<Edge>)
    requires g.Valid() && g.Holds(start) && IsWalk(g, start.lane, hops) && hops != []
    ensures var found := Tree(g, start).distances[WalkEnd(start.lane, hops)];
            && found.At?
            && found.metres <= WalkCost(g, start, hops) + (g.LaneCount() - 1) as real * SLACK
  {
    var cut := ShortWalk(g, start, hops);
    TreeFinishes(g, start);
    NoCheaperWalk(g, start, Tree(g, start), cut);
    assert (|cut| - 1) as real <= (g.LaneCount() - 1) as real;
  }
}

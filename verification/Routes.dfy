/** Following predecessors back to the start lane, and the two queries built on the search. */
module Routes {
  import opened LaneGraphs
  import opened ShortestTree
  import opened Shortcuts
  import opened Prelude

  // ---------- the path recorded by the predecessors ----------

  /** Lanes reached at a smaller distance than `v`. */
  ghost function Nearer(g: LaneGraph, s: Search, v: nat): (r: set<nat>)
    requires Shaped(g, s) && v < g.LaneCount() && s.distances[v].At?
    ensures v !in r && forall u :: u in r ==> u < g.LaneCount()
  {
    set u | u in UpTo(g.LaneCount()) && s.distances[u].At? && s.distances[u].metres < s.distances[v].metres
  }

  lemma {:induction false} PredecessorNearer(g: LaneGraph, start: LanePosition, s: Search, v: nat)
    requires Finished(g, start, s) && v < g.LaneCount() && s.distances[v].At?
    ensures 0 <= s.predecessors[v] < g.LaneCount()
    ensures s.predecessors[v] != start.lane ==>
              && s.distances[s.predecessors[v]].At?
              && |Nearer(g, s, s.predecessors[v])| < |Nearer(g, s, v)|
  {
    assert TreeAt(g, start, s, UpTo(g.LaneCount()), v);
    assert Linked(g, start, s.distances, s.predecessors, v);
    var p := s.predecessors[v];
    if p != start.lane {
      assert s.distances[p].metres < s.distances[v].metres;
      assert p in Nearer(g, s, v) && p !in Nearer(g, s, p);
      SubsetSize(Nearer(g, s, p), Nearer(g, s, v));
    }
  }

  /** The lanes from the start lane to `v`, by predecessors. */
  ghost function PathTo(g: LaneGraph, start: LanePosition, s: Search, v: nat): (path: seq<nat>)
    requires Finished(g, start, s) && v < g.LaneCount() && s.distances[v].At?
    ensures |path| >= 2 && path[0] == start.lane && path[|path| - 1] == v
    decreases |Nearer(g, s, v)|
  {
    PredecessorNearer(g, start, s, v);
    if s.predecessors[v] == start.lane then [start.lane, v]
    else PathTo(g, start, s, s.predecessors[v]) + [v]
  }

  /** The recorded path is a legal walk whose road length is exactly the distance found. */
  lemma {:induction false} PathIsWalk(g: LaneGraph, start: LanePosition, s: Search, v: nat) returns (hops: seq<Edge>)
    requires Finished(g, start, s) && v < g.LaneCount() && s.distances[v].At?
    ensures WalkedTo(g, start, hops, v)
    ensures WalkCost(g, start, hops) == s.distances[v].metres
    ensures PathTo(g, start, s, v) == [start.lane] + LanesOf(hops)
    decreases |Nearer(g, s, v)|
  {
    PredecessorNearer(g, start, s, v);
    assert TreeAt(g, start, s, UpTo(g.LaneCount()), v);
    assert Linked(g, start, s.distances, s.predecessors, v);
    var p: nat := s.predecessors[v];
    var e :| e in g.adjacency[p] && e.successor == v
             && s.distances[v].metres == ExitOf(g, start, s.distances, p) + e.gap;
    var prefix: seq<Edge> := [];
    if p != start.lane {
      prefix := PathIsWalk(g, start, s, p);
    }
    ExtendWalk(g, start, prefix, e);
    hops := prefix + [e];
  }

  /** A lane has a finite distance exactly when some walk reaches it. */
  lemma {:induction false} ReachedIffWalk(g: LaneGraph, start: LanePosition, v: nat)
    requires g.Valid() && g.Holds(start) && v < g.LaneCount()
    ensures Tree(g, start).distances[v].At? <==> exists hops :: WalkedTo(g, start, hops, v)
  {
    var s := Tree(g, start);
    TreeFinishes(g, start);
    if s.distances[v].At? {
      var hops := PathIsWalk(g, start, s, v);
    }
    forall hops | WalkedTo(g, start, hops, v) ensures s.distances[v].At? {
      NoCheaperWalk(g, start, s, hops);
    }
  }

  // ---------- _reconstruct_path ----------

  function Reversed(s: seq<nat>): (r: seq<nat>)
    ensures |r| == |s|
  {
    if s == [] then [] else [s[|s| - 1]] + Reversed(s[..|s| - 1])
  }

  lemma {:induction false} NearerBound(g: LaneGraph, s: Search, v: nat)
    requires Shaped(g, s) && v < g.LaneCount() && s.distances[v].At?
    ensures |Nearer(g, s, v)| < g.LaneCount()
  {
    SubsetSize(Nearer(g, s, v), UpTo(g.LaneCount()));
    assert v in UpTo(g.LaneCount());
  }

  /** `reversedPath` is the tail of the path to `destination`, walked backwards as far as `current`. */
  ghost predicate Traced(g: LaneGraph, start: LanePosition, s: Search,
                         destination: nat, current: nat, reversedPath: seq<nat>)
    requires Finished(g, start, s) && destination < g.LaneCount() && s.distances[destination].At?
  {
    && current < g.LaneCount() && s.distances[current].At?
    && var path := PathTo(g, start, s, current);
       path[..|path| - 1] + Reversed(reversedPath) == PathTo(g, start, s, destination)
  }

  lemma {:induction false} MoveLast(path: seq<nat>, reversedPath: seq<nat>, p: nat)
    ensures path + Reversed(reversedPath + [p]) == path + [p] + Reversed(reversedPath)
  {
  }

  lemma {:induction false} PathUnfolds(g: LaneGraph, start: LanePosition, s: Search, v: nat)
    requires Finished(g, start, s) && v < g.LaneCount() && s.distances[v].At?
    ensures 0 <= s.predecessors[v] < g.LaneCount()
    ensures var path := PathTo(g, start, s, v);
            var p := s.predecessors[v];
            if p == start.lane then path[..|path| - 1] == [p]
            else s.distances[p].At? && path[..|path| - 1] == PathTo(g, start, s, p)
  {
    PredecessorNearer(g, start, s, v);
  }

  lemma {:induction false} TraceStep(g: LaneGraph, start: LanePosition, s: Search,
                  destination: nat, current: nat, reversedPath: seq<nat>)
    requires Finished(g, start, s) && destination < g.LaneCount() && s.distances[destination].At?
    requires Traced(g, start, s, destination, current, reversedPath)
    ensures 0 <= s.predecessors[current] < g.LaneCount()
    ensures var p := s.predecessors[current];
            if p == start.lane then Reversed(reversedPath + [p]) == PathTo(g, start, s, destination)
            else
              && Traced(g, start, s, destination, p, reversedPath + [p])
              && |Nearer(g, s, p)| < |Nearer(g, s, current)|
  {
    PredecessorNearer(g, start, s, current);
    PathUnfolds(g, start, s, current);
    var p: nat := s.predecessors[current];
    if p == start.lane {
    } else {
      var shorter := PathTo(g, start, s, p);
      assert shorter == shorter[..|shorter| - 1] + [p];
      MoveLast(shorter[..|shorter| - 1], reversedPath, p);
    }
  }

  /** The predecessor walk always ends within its fuel of one step more than there are lanes. */
  method ReconstructPath(g: LaneGraph, ghost start: LanePosition, ghost s: Search,
                         source: nat, destination: nat, predecessors: seq<int>) returns (path: seq<nat>)
    requires Finished(g, start, s) && predecessors == s.predecessors
    requires source == start.lane && destination < g.LaneCount()
    ensures path == if s.distances[destination].At? then PathTo(g, start, s, destination) else []
  {
    assert TreeAt(g, start, s, UpTo(g.LaneCount()), destination);
    assert s.distances[destination].At? ==> predecessors[destination] >= 0 by {
      if s.distances[destination].At? { PredecessorNearer(g, start, s, destination); }
    }
    if predecessors[destination] < 0 {
      return [];
    }
    NearerBound(g, s, destination);
    var reversedPath: seq<nat> := [destination];
    var current: nat := destination;
    for i := 0 to g.LaneCount() + 1
      invariant Traced(g, start, s, destination, current, reversedPath)
      invariant |Nearer(g, s, current)| + i < g.LaneCount()
    {
      TraceStep(g, start, s, destination, current, reversedPath);
      var predecessor := predecessors[current];
      if predecessor < 0 {
        assert false;
      }
      reversedPath := reversedPath + [predecessor];
      if predecessor == source {
        return Reversed(reversedPath);
      }
      current := predecessor;
    }
    assert false;
    path := [];
  }

  // ---------- route and route_distances ----------

  datatype RoutePlan = RoutePlan(lanes: seq<nat>, metres: real)

  /** A fare target, and the lane positions from which it can be reached. */
  datatype Waypoint = Waypoint(lane: nat, offset: real, arrivalAnchors: seq<LanePosition>) {
    function Anchors(): (r: seq<LanePosition>)
      ensures r != []
    {
      if arrivalAnchors != [] then arrivalAnchors else [LanePosition(lane, offset)]
    }

    ghost predicate OnGraph(g: LaneGraph) {
      forall a :: a in Anchors() ==> g.Holds(a)
    }
  }

  predicate NotFarther(a: Distance, b: Distance) {
    a.At? && (b.At? ==> a.metres <= b.metres)
  }

  function Closest(a: Distance, b: Distance): Distance {
    if NotFarther(a, b) then a else b
  }

  /** Driving straight ahead on the start lane, when the anchor is not behind the car. */
  function DirectDistance(start: LanePosition, anchor: LanePosition): Distance {
    if anchor.lane == start.lane && anchor.offset >= start.offset then At(anchor.offset - start.offset) else Unreached
  }

  function GraphDistance(distances: seq<Distance>, anchor: LanePosition): Distance
    requires anchor.lane < |distances|
  {
    match distances[anchor.lane]
    case Unreached => Unreached
    case At(metres) => At(metres + anchor.offset)
  }

  ghost function PlanFor(g: LaneGraph, start: LanePosition, anchor: LanePosition): Option<RoutePlan>
    requires g.Valid() && g.Holds(start) && g.Holds(anchor)
  {
    TreeFinishes(g, start);
    var s := Tree(g, start);
    var direct := DirectDistance(start, anchor);
    var graph := GraphDistance(s.distances, anchor);
    if NotFarther(direct, graph) then Some(RoutePlan([start.lane], direct.metres))
    else if graph.At? then Some(RoutePlan(PathTo(g, start, s, anchor.lane), graph.metres))
    else None
  }

  ghost function PlansFor(g: LaneGraph, start: LanePosition, anchors: seq<LanePosition>): seq<RoutePlan>
    requires g.Valid() && g.Holds(start) && forall a :: a in anchors ==> g.Holds(a)
  {
    if anchors == [] then []
    else
      var init := anchors[..|anchors| - 1];
      match PlanFor(g, start, anchors[|anchors| - 1])
      case Some(plan) => PlansFor(g, start, init) + [plan]
      case None => PlansFor(g, start, init)
  }

  /** The first plan of least length. */
  function ShortestPlan(plans: seq<RoutePlan>): Option<RoutePlan> {
    if plans == [] then None
    else
      var last := plans[|plans| - 1];
      match ShortestPlan(plans[..|plans| - 1])
      case None => Some(last)
      case Some(best) => if last.metres < best.metres then Some(last) else Some(best)
  }

  ghost function RouteOf(g: LaneGraph, start: LanePosition, anchors: seq<LanePosition>): Option<RoutePlan>
    requires g.Valid() && g.Holds(start) && forall a :: a in anchors ==> g.Holds(a)
  {
    ShortestPlan(PlansFor(g, start, anchors))
  }

  /** The least of the direct and graph distances over all anchors. */
  ghost function DistanceOf(g: LaneGraph, start: LanePosition, anchors: seq<LanePosition>): Distance
    requires g.Valid() && g.Holds(start) && forall a :: a in anchors ==> g.Holds(a)
  {
    if anchors == [] then Unreached
    else
      var anchor := anchors[|anchors| - 1];
      assert g.Holds(anchor);
      TreeFinishes(g, start);
      Closest(DistanceOf(g, start, anchors[..|anchors| - 1]),
              Closest(DirectDistance(start, anchor), GraphDistance(Tree(g, start).distances, anchor)))
  }

  function LengthOf(plan: Option<RoutePlan>): Distance {
    match plan
    case None => Unreached
    case Some(p) => At(p.metres)
  }

  /** The two queries agree: no route exactly when the distance is infinite, else the same number. */
  lemma {:induction false} QueriesAgree(g: LaneGraph, start: LanePosition, anchors: seq<LanePosition>)
    requires g.Valid() && g.Holds(start) && forall a :: a in anchors ==> g.Holds(a)
    ensures LengthOf(RouteOf(g, start, anchors)) == DistanceOf(g, start, anchors)
  {
    if anchors != [] {
      var init := anchors[..|anchors| - 1];
      QueriesAgree(g, start, init);
    }
  }

  ghost predicate IsAhead(start: LanePosition, anchor: LanePosition) {
    anchor.lane == start.lane && start.offset <= anchor.offset
  }

  /** A plan is the start lane driven straight to an anchor ahead, or a legal walk plus the anchor's offset. */
  ghost predicate LegalPlan(g: LaneGraph, start: LanePosition, anchor: LanePosition, plan: RoutePlan)
    requires g.Valid() && g.Holds(start)
  {
    || (IsAhead(start, anchor) && plan == RoutePlan([start.lane], anchor.offset - start.offset))
    || exists hops :: WalkedTo(g, start, hops, anchor.lane)
                      && plan.lanes == [start.lane] + LanesOf(hops)
                      && plan.metres == WalkCost(g, start, hops) + anchor.offset
  }

  lemma {:induction false} PlanIsLegal(g: LaneGraph, start: LanePosition, anchor: LanePosition)
    requires g.Valid() && g.Holds(start) && g.Holds(anchor)
    ensures PlanFor(g, start, anchor).Some? ==> LegalPlan(g, start, anchor, PlanFor(g, start, anchor).value)
  {
    TreeFinishes(g, start);
    var s := Tree(g, start);
    if s.distances[anchor.lane].At? {
      var hops := PathIsWalk(g, start, s, anchor.lane);
    }
  }

  lemma {:induction false} PlansAreLegal(g: LaneGraph, start: LanePosition, anchors: seq<LanePosition>)
    requires g.Valid() && g.Holds(start) && forall a :: a in anchors ==> g.Holds(a)
    ensures forall p :: p in PlansFor(g, start, anchors) ==> exists a :: a in anchors && LegalPlan(g, start, a, p)
  {
    if anchors != [] {
      var init := anchors[..|anchors| - 1];
      PlansAreLegal(g, start, init);
      PlanIsLegal(g, start, anchors[|anchors| - 1]);
      forall p | p in PlansFor(g, start, anchors) ensures exists a :: a in anchors && LegalPlan(g, start, a, p) {
        if p in PlansFor(g, start, init) {
          var a :| a in init && LegalPlan(g, start, a, p);
          assert a in anchors;
        } else {
          assert anchors[|anchors| - 1] in anchors;
        }
      }
    }
  }

  lemma {:induction false} ShortestPlanChosen(plans: seq<RoutePlan>)
    ensures ShortestPlan(plans).Some? ==> ShortestPlan(plans).value in plans
  {
    if plans != [] {
      ShortestPlanChosen(plans[..|plans| - 1]);
    }
  }

  /** The distance is no longer than driving straight to any anchor ahead, nor than any walk but for the slack. */
  lemma {:induction false} DistanceIsNearOptimal(g: LaneGraph, start: LanePosition, anchors: seq<LanePosition>,
                                                 a: LanePosition)
    requires g.Valid() && g.Holds(start) && (forall x :: x in anchors ==> g.Holds(x)) && a in anchors
    ensures IsAhead(start, a) ==> NotFarther(DistanceOf(g, start, anchors), At(a.offset - start.offset))
    ensures forall hops :: WalkedTo(g, start, hops, a.lane) ==>
              NotFarther(DistanceOf(g, start, anchors),
                         At(WalkCost(g, start, hops) + (g.LaneCount() - 1) as real * SLACK + a.offset))
  {
    var last := anchors[|anchors| - 1];
    forall hops | WalkedTo(g, start, hops, a.lane)
      ensures NotFarther(DistanceOf(g, start, anchors),
                         At(WalkCost(g, start, hops) + (g.LaneCount() - 1) as real * SLACK + a.offset))
    {
      NearOptimal(g, start, hops);
      if a != last {
        DistanceIsNearOptimal(g, start, anchors[..|anchors| - 1], a);
      }
    }
    if a != last {
      DistanceIsNearOptimal(g, start, anchors[..|anchors| - 1], a);
    }
  }

  /** A returned route is a legal plan for some anchor. */
  lemma {:induction false} RouteIsLegal(g: LaneGraph, start: LanePosition, anchors: seq<LanePosition>)
    requires g.Valid() && g.Holds(start) && forall a :: a in anchors ==> g.Holds(a)
    ensures RouteOf(g, start, anchors).Some? ==>
              exists a :: a in anchors && LegalPlan(g, start, a, RouteOf(g, start, anchors).value)
  {
    PlansAreLegal(g, start, anchors);
    ShortestPlanChosen(PlansFor(g, start, anchors));
  }

  /** There is no route exactly when every anchor is behind the car or on another lane, and no walk reaches one. */
  lemma {:induction false} RouteIsComplete(g: LaneGraph, start: LanePosition, anchors: seq<LanePosition>)
    requires g.Valid() && g.Holds(start) && forall a :: a in anchors ==> g.Holds(a)
    ensures RouteOf(g, start, anchors).None? <==>
            forall a :: a in anchors ==>
              (a.lane == start.lane ==> a.offset < start.offset) && !exists hops :: WalkedTo(g, start, hops, a.lane)
  {
    QueriesAgree(g, start, anchors);
    RouteIsLegal(g, start, anchors);
    if RouteOf(g, start, anchors).None? {
      forall a | a in anchors
        ensures (a.lane == start.lane ==> a.offset < start.offset) && !exists hops :: WalkedTo(g, start, hops, a.lane)
      {
        DistanceIsNearOptimal(g, start, anchors, a);
      }
    }
  }

  /** A route is no longer than driving straight to an anchor ahead. */
  lemma {:induction false} RouteBeatsStraight(g: LaneGraph, start: LanePosition, anchors: seq<LanePosition>,
                                              a: LanePosition)
    requires g.Valid() && g.Holds(start) && (forall x :: x in anchors ==> g.Holds(x)) && a in anchors
    requires a.lane == start.lane && start.offset <= a.offset
    ensures RouteOf(g, start, anchors).Some? && RouteOf(g, start, anchors).value.metres <= a.offset - start.offset
  {
    QueriesAgree(g, start, anchors);
    DistanceIsNearOptimal(g, start, anchors, a);
  }

  /** A route that stays on one lane leads forward to an anchor there, and is as long as the way between the two. */
  lemma {:induction false} OneLaneRoute(g: LaneGraph, start: LanePosition, anchors: seq<LanePosition>)
    requires g.Valid() && g.Holds(start) && forall a :: a in anchors ==> g.Holds(a)
    requires RouteOf(g, start, anchors).Some? && |RouteOf(g, start, anchors).value.lanes| == 1
    ensures exists a :: a in anchors && a.lane == start.lane && start.offset <= a.offset
                        && RouteOf(g, start, anchors).value == RoutePlan([start.lane], a.offset - start.offset)
  {
    RouteIsLegal(g, start, anchors);
    var plan := RouteOf(g, start, anchors).value;
    var a :| a in anchors && LegalPlan(g, start, a, plan);
    assert IsAhead(start, a);
  }

  /** To one anchor the way straight ahead is preferred to a walk of the same length. */
  lemma {:induction false} StraightOnTies(g: LaneGraph, start: LanePosition, a: LanePosition)
    requires g.Valid() && g.Holds(start) && g.Holds(a)
    requires a.lane == start.lane && start.offset <= a.offset
    ensures RouteOf(g, start, [a]).Some?
    ensures RouteOf(g, start, [a]).value.metres == a.offset - start.offset
            ==> RouteOf(g, start, [a]).value.lanes == [start.lane]
  {
    RouteToOne(g, start, a);
  }

  lemma {:induction false} RouteGrows(g: LaneGraph, start: LanePosition, anchors: seq<LanePosition>)
    requires g.Valid() && g.Holds(start) && (forall a :: a in anchors ==> g.Holds(a)) && anchors != []
    ensures var before := RouteOf(g, start, anchors[..|anchors| - 1]);
            var last := PlanFor(g, start, anchors[|anchors| - 1]);
            RouteOf(g, start, anchors)
            == if before.None? || (last.Some? && last.value.metres < before.value.metres) then last else before
  {
    var plans := PlansFor(g, start, anchors[..|anchors| - 1]);
    var last := PlanFor(g, start, anchors[|anchors| - 1]);
    if last.Some? {
      assert (plans + [last.value])[..|plans|] == plans;
    }
    assert plans != [] ==> ShortestPlan(plans).Some?;
  }

  lemma {:induction false} RouteToOne(g: LaneGraph, start: LanePosition, a: LanePosition)
    requires g.Valid() && g.Holds(start) && g.Holds(a)
    ensures RouteOf(g, start, [a]) == PlanFor(g, start, a)
  {
    RouteGrows(g, start, [a]);
    assert [a][..0] == [];
    assert RouteOf(g, start, []).None?;
  }

  /** The routes to each anchor alone. */
  ghost function RoutesToEach(g: LaneGraph, start: LanePosition, anchors: seq<LanePosition>)
    : (routes: seq<Option<RoutePlan>>)
    requires g.Valid() && g.Holds(start) && forall a :: a in anchors ==> g.Holds(a)
    ensures |routes| == |anchors|
    ensures forall j :: 0 <= j < |anchors| ==> routes[j] == RouteOf(g, start, [anchors[j]])
  {
    if anchors == [] then []
    else RoutesToEach(g, start, anchors[..|anchors| - 1]) + [RouteOf(g, start, [anchors[|anchors| - 1]])]
  }

  /** `best` is one of them, shorter than those before it and no longer than those after it. */
  predicate FirstLeast(routes: seq<Option<RoutePlan>>, i: nat, best: RoutePlan) {
    && i < |routes| && routes[i] == Some(best)
    && (forall j :: 0 <= j < i && routes[j].Some? ==> best.metres < routes[j].value.metres)
    && (forall j :: i < j < |routes| && routes[j].Some? ==> best.metres <= routes[j].value.metres)
  }

  ghost predicate IsFirstLeast(routes: seq<Option<RoutePlan>>, best: Option<RoutePlan>) {
    if best.None? then forall j :: 0 <= j < |routes| ==> routes[j].None?
    else exists i :: FirstLeast(routes, i, best.value)
  }

  lemma {:induction false} OneMoreRoute(routes: seq<Option<RoutePlan>>, before: Option<RoutePlan>,
                                        last: Option<RoutePlan>)
    requires IsFirstLeast(routes, before)
    ensures IsFirstLeast(routes + [last],
                         if before.None? || (last.Some? && last.value.metres < before.value.metres) then last
                         else before)
  {
    if before.None? || (last.Some? && last.value.metres < before.value.metres) {
      if last.Some? {
        assert FirstLeast(routes + [last], |routes|, last.value);
      }
    } else {
      var i :| FirstLeast(routes, i, before.value);
      assert FirstLeast(routes + [last], i, before.value);
    }
  }

  /** The route to several anchors is the one to the first of those nearest. */
  lemma {:induction false} FirstNearestAnchor(g: LaneGraph, start: LanePosition, anchors: seq<LanePosition>)
    requires g.Valid() && g.Holds(start) && forall a :: a in anchors ==> g.Holds(a)
    ensures IsFirstLeast(RoutesToEach(g, start, anchors), RouteOf(g, start, anchors))
  {
    if anchors != [] {
      var init, a := anchors[..|anchors| - 1], anchors[|anchors| - 1];
      FirstNearestAnchor(g, start, init);
      OneMoreRoute(RoutesToEach(g, start, init), RouteOf(g, start, init), PlanFor(g, start, a));
      RouteToOne(g, start, a);
      RouteGrows(g, start, anchors);
    }
  }

  /** A returned route is no longer than any alternative, but for less than one SLACK per lane. */
  lemma {:induction false} RouteIsNearOptimal(g: LaneGraph, start: LanePosition, anchors: seq<LanePosition>,
                                              a: LanePosition, hops: seq<Edge>)
    requires g.Valid() && g.Holds(start) && (forall x :: x in anchors ==> g.Holds(x)) && a in anchors
    requires WalkedTo(g, start, hops, a.lane)
    ensures RouteOf(g, start, anchors).Some?
    ensures RouteOf(g, start, anchors).value.metres
            <= WalkCost(g, start, hops) + (g.LaneCount() - 1) as real * SLACK + a.offset
  {
    QueriesAgree(g, start, anchors);
    DistanceIsNearOptimal(g, start, anchors, a);
  }

  method Route(g: LaneGraph, start: LanePosition, destination: Waypoint) returns (best: Option<RoutePlan>)
    requires g.Valid() && g.Holds(start) && destination.OnGraph(g)
    ensures destination.arrivalAnchors != [] ==> best == RouteOf(g, start, destination.arrivalAnchors)
    ensures destination.arrivalAnchors == [] ==>
              best == RouteOf(g, start, [LanePosition(destination.lane, destination.offset)])
  {
    var distances, predecessors := ComputeTree(g, start);
    TreeFinishes(g, start);
    var anchors := destination.Anchors();
    var plans: seq<RoutePlan> := [];
    for i := 0 to |anchors|
      invariant plans == PlansFor(g, start, anchors[..i])
    {
      var anchor := anchors[i];
      assert anchor in anchors;
      assert anchors[..i + 1][..i] == anchors[..i];
      var direct := DirectDistance(start, anchor);
      var graph := GraphDistance(distances, anchor);
      if NotFarther(direct, graph) {
        plans := plans + [RoutePlan([start.lane], direct.metres)];
      } else if graph.At? {
        var lanePath := ReconstructPath(g, start, Tree(g, start), start.lane, anchor.lane, predecessors);
        if lanePath != [] {
          plans := plans + [RoutePlan(lanePath, graph.metres)];
        }
      }
    }
    assert anchors[..|anchors|] == anchors;
    best := ShortestPlan(plans);
  }

  method RouteDistances(g: LaneGraph, start: LanePosition, destinations: seq<Waypoint>) returns (result: seq<Distance>)
    requires g.Valid() && g.Holds(start) && forall i :: 0 <= i < |destinations| ==> destinations[i].OnGraph(g)
    ensures |result| == |destinations|
    ensures forall i :: 0 <= i < |destinations| ==>
              var d := destinations[i];
              d.OnGraph(g)
              && result[i] == DistanceOf(g, start, if d.arrivalAnchors != [] then d.arrivalAnchors
                                                   else [LanePosition(d.lane, d.offset)])
  {
    var distances, _ := ComputeTree(g, start);
    TreeFinishes(g, start);
    result := [];
    for i := 0 to |destinations|
      invariant |result| == i
      invariant forall j :: 0 <= j < i ==> result[j] == DistanceOf(g, start, destinations[j].Anchors())
    {
      assert destinations[i].OnGraph(g);
      var anchors := destinations[i].Anchors();
      var least := Unreached;
      for j := 0 to |anchors|
        invariant least == DistanceOf(g, start, anchors[..j])
      {
        assert anchors[j] in anchors;
        assert anchors[..j + 1][..j] == anchors[..j];
        least := Closest(least, Closest(DirectDistance(start, anchors[j]), GraphDistance(distances, anchors[j])));
      }
      assert anchors[..|anchors|] == anchors;
      result := result + [least];
    }
  }
}

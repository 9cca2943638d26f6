/** Where fares begin and end: which waypoints a draw can choose, and what the frame that decides it announces. */
module TaxiChoices {
  import opened Prelude
  import opened Ranking
  import opened Leaderboards
  import opened TaxiRules

  // ---------- dropoffs ----------

  /** A waypoint this far along the road of a source, other than the pickup and more than a metre away. */
  ghost predicate Leads(reach: Reach, pickup: nat, i: nat, low: real, high: Option<real>) {
    && i < |reach| && i != pickup && reach[i].Some? && reach[i].value > 1.0
    && low <= reach[i].value && (high.Some? ==> reach[i].value <= high.value)
  }

  ghost predicate LeadsSome(reach: Reach, pickup: nat, low: real, high: Option<real>) {
    exists i :: Leads(reach, pickup, i, low, high)
  }

  /** A dropoff within the preferred distances, failing that at least as far, failing that any. */
  ghost predicate Suits(c: Config, reach: Reach, pickup: nat, i: nat) {
    if LeadsSome(reach, pickup, c.fareMin, Some(c.fareMax)) then Leads(reach, pickup, i, c.fareMin, Some(c.fareMax))
    else if LeadsSome(reach, pickup, c.fareMin, None) then Leads(reach, pickup, i, c.fareMin, None)
    else Leads(reach, pickup, i, 0.0, None)
  }

  lemma {:induction false} PreferredSuits(c: Config, reach: Reach, pickup: nat, i: nat)
    requires c.Valid()
    ensures i in Preferred(c, reach, Reachable(reach, pickup)) <==> Suits(c, reach, pickup, i)
    ensures Reachable(reach, pickup) == [] <==> !LeadsSome(reach, pickup, 0.0, None)
  {
    var reachable := Reachable(reach, pickup);
    ReachableIs(reach, pickup);
    var band := (j: nat) => InBand(c, reach, j);
    var far := (j: nat) => j < |reach| && reach[j].Some? && reach[j].value >= c.fareMin;
    WhereKeeps(reachable, band);
    WhereKeeps(reachable, far);
    assert forall j: nat :: j in reachable <==> Leads(reach, pickup, j, 0.0, None);
    assert forall j: nat :: j in Where(reachable, band) <==> Leads(reach, pickup, j, c.fareMin, Some(c.fareMax));
    assert forall j: nat :: j in Where(reachable, far) <==> Leads(reach, pickup, j, c.fareMin, None);
    SomeOf(reachable);
    SomeOf(Where(reachable, band));
    SomeOf(Where(reachable, far));
  }

  lemma {:induction false} SomeOf(xs: seq<nat>)
    ensures xs != [] <==> exists x: nat :: x in xs
  {
    if xs != [] {
      assert xs[0] in xs;
    }
  }

  lemma {:induction false} CanBeDrawn(xs: seq<nat>, i: nat)
    ensures (exists draw: nat :: xs != [] && Drawn(xs, draw) == i) <==> i in xs
  {
    if i in xs {
      var k: nat :| k < |xs| && xs[k] == i;
      assert Drawn(xs, k) == i;
    }
  }

  /** The ride is one along this source's route. */
  ghost predicate RidesOn(reach: Reach, ride: Option<Ride>) {
    ride.Some? && ride.value.to < |reach| && reach[ride.value.to] == Some(ride.value.distance)
  }

  /** Some draw sends the fare there. */
  ghost predicate CanGo(c: Config, sources: seq<Reach>, pickup: nat, i: nat) {
    exists draw: nat :: GoesTo(SelectDropoff(c, sources, pickup, draw), i)
  }

  predicate GoesTo(ride: Option<Ride>, i: nat) { ride.Some? && ride.value.to == i }

  /**
   * The first source with a route anywhere decides: a fare can be drawn to exactly the waypoints that suit it, and is
   * as long as the route to the one drawn.
   */
  lemma {:induction false} DropoffsDrawn(c: Config, sources: seq<Reach>, pickup: nat, k: nat, i: nat)
    requires c.Valid() && k < |sources| && LeadsSome(sources[k], pickup, 0.0, None)
    requires forall h :: 0 <= h < k ==> !LeadsSome(sources[h], pickup, 0.0, None)
    ensures CanGo(c, sources, pickup, i) <==> Suits(c, sources[k], pickup, i)
    ensures forall draw: nat :: RidesOn(sources[k], SelectDropoff(c, sources, pickup, draw))
  {
    PreferredSuits(c, sources[0], pickup, i);
    if k > 0 {
      DropoffsDrawn(c, sources[1..], pickup, k - 1, i);
      forall draw: nat
        ensures SelectDropoff(c, sources, pickup, draw) == SelectDropoff(c, sources[1..], pickup, draw)
      {
      }
    } else {
      FirstDrawn(c, sources, pickup, i);
    }
  }

  lemma {:induction false} FirstDrawn(c: Config, sources: seq<Reach>, pickup: nat, i: nat)
    requires sources != [] && Reachable(sources[0], pickup) != []
    ensures CanGo(c, sources, pickup, i) <==> i in Preferred(c, sources[0], Reachable(sources[0], pickup))
    ensures forall draw: nat :: RidesOn(sources[0], SelectDropoff(c, sources, pickup, draw))
  {
    var preferred := Preferred(c, sources[0], Reachable(sources[0], pickup));
    forall draw: nat ensures IsDrawn(sources[0], preferred, SelectDropoff(c, sources, pickup, draw), draw) {
      FirstDraws(c, sources, pickup, draw);
    }
    CanBeDrawn(preferred, i);
    forall draw: nat
      ensures GoesTo(SelectDropoff(c, sources, pickup, draw), i) <==> preferred != [] && Drawn(preferred, draw) == i
    {
      assert IsDrawn(sources[0], preferred, SelectDropoff(c, sources, pickup, draw), draw);
    }
  }

  ghost predicate IsDrawn(reach: Reach, preferred: seq<nat>, ride: Option<Ride>, draw: nat) {
    && ride.Some? && preferred != [] && ride.value.to == Drawn(preferred, draw)
    && ride.value.to < |reach| && reach[ride.value.to] == Some(ride.value.distance)
  }

  lemma {:induction false} FirstDraws(c: Config, sources: seq<Reach>, pickup: nat, draw: nat)
    requires sources != [] && Reachable(sources[0], pickup) != []
    ensures IsDrawn(sources[0], Preferred(c, sources[0], Reachable(sources[0], pickup)),
                    SelectDropoff(c, sources, pickup, draw), draw)
  {
    var reachable := Reachable(sources[0], pickup);
    ReachableIs(sources[0], pickup);
    PreferredIs(c, sources[0], reachable);
    assert Drawn(Preferred(c, sources[0], reachable), draw) in Preferred(c, sources[0], reachable);
  }

  // ---------- pickups ----------

  ghost predicate FarPickup(c: Config, town: Town, distance: seq<real>, excluded: set<nat>, i: nat) {
    i in town.pool && i !in excluded && i < |distance| && distance[i] >= c.pickupMinDistance
  }

  /** Pickups are offered that are far enough away, or if none is all of them; never those excluded. */
  lemma {:induction false} PickupsOffered(c: Config, town: Town, distance: seq<real>, excluded: set<nat>, i: nat)
    requires town.Valid() && |distance| == town.waypoints
    ensures i in Available(c, town, distance, excluded) <==>
            && i in town.pool && i !in excluded
            && ((exists j :: FarPickup(c, town, distance, excluded, j)) ==> FarPickup(c, town, distance, excluded, i))
  {
    var far := (j: nat) => j < |distance| && j !in excluded && distance[j] >= c.pickupMinDistance;
    var free := (j: nat) => j !in excluded;
    WhereKeeps(town.pool, far);
    WhereKeeps(town.pool, free);
    assert forall j: nat :: j in FarPickups(c, town, distance, excluded) <==> FarPickup(c, town, distance, excluded, j);
    SomeOf(FarPickups(c, town, distance, excluded));
  }

  /** A pickup that a source has a route to, not excluded and more than a metre away. */
  ghost predicate RoutedTo(town: Town, distance: seq<real>, reach: Reach, excluded: set<nat>, i: nat) {
    && i in town.pool && i !in excluded && i < |distance| && distance[i] > 1.0
    && i < |reach| && reach[i].Some?
  }

  ghost predicate RoutesSome(town: Town, distance: seq<real>, reach: Reach, excluded: set<nat>) {
    exists i :: RoutedTo(town, distance, reach, excluded, i)
  }

  /** Farther away than another, or as far with the smaller number. */
  predicate FartherFirst(distance: seq<real>, r: nat, i: nat) {
    r < |distance| && i < |distance| && (distance[r] > distance[i] || (distance[r] == distance[i] && r <= i))
  }

  /** Nearer than another, or as near with the smaller number. */
  predicate NearerFirst(distance: seq<real>, r: nat, i: nat) {
    r < |distance| && i < |distance| && (distance[r] < distance[i] || (distance[r] == distance[i] && r <= i))
  }

  /** What one source with a route to some pickup may choose. */
  ghost predicate ChosenBy(c: Config, town: Town, distance: seq<real>, reach: Reach, excluded: set<nat>, r: nat) {
    && RoutedTo(town, distance, reach, excluded, r)
    && if exists i: nat :: RoutedTo(town, distance, reach, excluded, i) && distance[i] >= c.pickupMinDistance then
         distance[r] >= c.pickupMinDistance
       else forall i :: RoutedTo(town, distance, reach, excluded, i) ==> FartherFirst(distance, r, i)
  }

  lemma {:induction false} RoutedIs(town: Town, distance: seq<real>, reach: Reach, excluded: set<nat>)
    ensures forall i: nat ::
              i in Routed(town, distance, reach, excluded) <==> RoutedTo(town, distance, reach, excluded, i)
  {
    WhereKeeps(town.pool, (i: nat) => i < |reach| && reach[i].Some? && Elsewhere(distance, excluded, i));
  }

  lemma {:induction false} FarRoutedIs(c: Config, town: Town, distance: seq<real>, reach: Reach, excluded: set<nat>)
    ensures var preferred := Where(FarPickups(c, town, distance, excluded),
                                   (i: nat) => i in Routed(town, distance, reach, excluded));
            forall i: nat :: i in preferred <==>
              RoutedTo(town, distance, reach, excluded, i) && distance[i] >= c.pickupMinDistance
  {
    RoutedIs(town, distance, reach, excluded);
    WhereKeeps(FarPickups(c, town, distance, excluded), (i: nat) => i in Routed(town, distance, reach, excluded));
    WhereKeeps(town.pool, (j: nat) => j < |distance| && j !in excluded && distance[j] >= c.pickupMinDistance);
  }

  lemma {:induction false} FirstRoutes(c: Config, town: Town, distance: seq<real>, sources: seq<Reach>,
                                       excluded: set<nat>, draw: nat)
    requires InRange(town.pool, distance) && sources != [] && RoutesSome(town, distance, sources[0], excluded)
    ensures var r := RoutedPickup(c, town, distance, sources, excluded, draw);
            r.Some? && ChosenBy(c, town, distance, sources[0], excluded, r.value)
  {
    var reach := sources[0];
    var reachable := Routed(town, distance, reach, excluded);
    var preferred := Where(FarPickups(c, town, distance, excluded), (i: nat) => i in reachable);
    RoutedIs(town, distance, reach, excluded);
    FarRoutedIs(c, town, distance, reach, excluded);
    SomeOf(reachable);
    SomeOf(preferred);
    if preferred != [] {
      assert Drawn(preferred, draw) in preferred;
    } else {
      WhereInRange(town.pool, (i: nat) => i < |reach| && reach[i].Some? && Elsewhere(distance, excluded, i), distance);
      FarthestIsGreatest(reachable, distance);
      forall i | RoutedTo(town, distance, reach, excluded, i)
        ensures FartherFirst(distance, Farthest(reachable, distance), i)
      {
        assert i in reachable;
      }
    }
  }

  lemma {:induction false} RoutesPassOver(c: Config, town: Town, distance: seq<real>, sources: seq<Reach>,
                                          excluded: set<nat>, draw: nat)
    requires InRange(town.pool, distance) && sources != [] && !RoutesSome(town, distance, sources[0], excluded)
    ensures RoutedPickup(c, town, distance, sources, excluded, draw)
            == RoutedPickup(c, town, distance, sources[1..], excluded, draw)
  {
    var reachable := Routed(town, distance, sources[0], excluded);
    RoutedIs(town, distance, sources[0], excluded);
    FarRoutedIs(c, town, distance, sources[0], excluded);
    SomeOf(reachable);
    SomeOf(Where(FarPickups(c, town, distance, excluded), (i: nat) => i in reachable));
  }

  lemma {:induction false} RoutedBy(c: Config, town: Town, distance: seq<real>, sources: seq<Reach>,
                                    excluded: set<nat>, draw: nat, k: nat)
    requires InRange(town.pool, distance) && k <= |sources|
    requires forall h :: 0 <= h < k ==> !RoutesSome(town, distance, sources[h], excluded)
    requires k < |sources| ==> RoutesSome(town, distance, sources[k], excluded)
    ensures var r := RoutedPickup(c, town, distance, sources, excluded, draw);
            if k < |sources| then r.Some? && ChosenBy(c, town, distance, sources[k], excluded, r.value) else r.None?
  {
    if k > 0 {
      RoutesPassOver(c, town, distance, sources, excluded, draw);
      RoutedBy(c, town, distance, sources[1..], excluded, draw, k - 1);
    } else if sources != [] {
      FirstRoutes(c, town, distance, sources, excluded, draw);
    }
  }

  ghost predicate Away(town: Town, distance: seq<real>, excluded: set<nat>, i: nat) {
    i in town.pool && i !in excluded && i < |distance| && distance[i] > 1.0
  }

  /** The nearest of those pickups. */
  ghost predicate NearestOf(distance: seq<real>, r: nat, pickups: iset<nat>) {
    r in pickups && forall i :: i in pickups ==> NearerFirst(distance, r, i)
  }

  /** Where to go without a route: the nearest one more than a metre away, not excluded if that can be. */
  ghost predicate ChosenByDistance(town: Town, distance: seq<real>, excluded: set<nat>, r: nat) {
    if exists i :: Away(town, distance, excluded, i) then
      NearestOf(distance, r, iset i | Away(town, distance, excluded, i))
    else if exists i :: Away(town, distance, {}, i) then NearestOf(distance, r, iset i | Away(town, distance, {}, i))
    else NearestOf(distance, r, iset i | i in town.pool)
  }

  /**
   * The next pickup is chosen by the first source with a route to one, far enough away if it can be and otherwise as
   * far as possible, and without such a source by its distance.
   */
  lemma {:induction false} NextPickup(c: Config, town: Town, p: Pose, excluded: set<nat>, k: nat)
    requires town.Valid() && p.Valid(town) && |excluded| < town.waypoints && k <= |p.pickupSources|
    requires forall h :: 0 <= h < k ==> !RoutesSome(town, p.distance, p.pickupSources[h], excluded)
    requires k < |p.pickupSources| ==> RoutesSome(town, p.distance, p.pickupSources[k], excluded)
    ensures var r := SelectPickup(c, town, p, excluded);
            if k < |p.pickupSources| then ChosenBy(c, town, p.distance, p.pickupSources[k], excluded, r)
            else ChosenByDistance(town, p.distance, excluded, r)
  {
    RoutedBy(c, town, p.distance, p.pickupSources, excluded, p.draw, k);
    if k == |p.pickupSources| {
      NearestFallback(town, p.distance, excluded);
    }
  }

  lemma {:induction false} NearestFallback(town: Town, distance: seq<real>, excluded: set<nat>)
    requires town.pool != [] && InRange(town.pool, distance)
    ensures var xs := Fallback(town, distance, excluded);
            xs != [] && InRange(xs, distance) && ChosenByDistance(town, distance, excluded, Nearest(xs, distance))
  {
    var xs := Fallback(town, distance, excluded);
    FallbackIs(town, distance, excluded);
    NearestIsLeast(xs, distance);
    FallbackHolds(town, distance, excluded);
    NearestIn(xs, distance);
    if exists i :: Away(town, distance, excluded, i) {
      assert (iset i | i in xs) == iset i | Away(town, distance, excluded, i);
    } else if exists i :: Away(town, distance, {}, i) {
      assert (iset i | i in xs) == iset i | Away(town, distance, {}, i);
    } else {
      assert (iset i | i in xs) == iset i | i in town.pool;
    }
  }

  lemma {:induction false} NearestIn(xs: seq<nat>, distance: seq<real>)
    requires xs != [] && InRange(xs, distance)
    ensures NearestOf(distance, Nearest(xs, distance), iset i | i in xs)
  {
    NearestIsLeast(xs, distance);
    forall i | i in xs ensures NearerFirst(distance, Nearest(xs, distance), i) {
      var k :| 0 <= k < |xs| && xs[k] == i;
    }
  }

  lemma {:induction false} FallbackHolds(town: Town, distance: seq<real>, excluded: set<nat>)
    requires InRange(town.pool, distance)
    ensures forall i: nat :: i in Fallback(town, distance, excluded) <==>
              if exists j :: Away(town, distance, excluded, j) then Away(town, distance, excluded, i)
              else if exists j :: Away(town, distance, {}, j) then Away(town, distance, {}, i)
              else i in town.pool
  {
    var free, away := (i: nat) => Elsewhere(distance, excluded, i), (i: nat) => Elsewhere(distance, {}, i);
    WhereKeeps(town.pool, free);
    WhereKeeps(town.pool, away);
    assert forall i: nat :: i in Where(town.pool, free) <==> Away(town, distance, excluded, i);
    assert forall i: nat :: i in Where(town.pool, away) <==> Away(town, distance, {}, i);
    SomeOf(Where(town.pool, free));
    SomeOf(Where(town.pool, away));
  }

  // ---------- what a frame does ----------

  /** The pickup within reach of the taxi: the nearest one offered, if it is near enough. */
  ghost predicate AtPickup(c: Config, a: Taxi, p: Pose, i: nat) {
    && i in a.available && i < |p.distance| && p.distance[i] <= c.pickupRadius
    && forall j :: j in a.available ==> NearerFirst(p.distance, i, j)
  }

  lemma {:induction false} CollectedIs(c: Config, available: seq<nat>, distance: seq<real>)
    requires InRange(available, distance)
    ensures match Collected(c, available, distance)
            case None => forall i :: i in available ==> distance[i] > c.pickupRadius
            case Some(i) => && i in available && distance[i] <= c.pickupRadius
                            && forall j :: j in available ==> NearerFirst(distance, i, j)
  {
    if available != [] {
      NearestIsLeast(available, distance);
      forall j | j in available ensures j < |distance| {
        var k :| 0 <= k < |available| && available[k] == j;
      }
    }
  }

  /** What happened in a frame, as the banner announces it: the points and the time awarded go with it. */
  predicate Announces(c: Config, b: Taxi, event: Event, points: int, time: real) {
    b.event == Some(event) && b.awarded == points && b.awardedTime == time && b.bannerLeft == c.banner
  }

  /** Nothing happened, and the banner still up fades. */
  predicate Fades(a: Taxi, b: Taxi, dt: real) {
    && b.event == a.event && b.awarded == a.awarded && b.awardedTime == a.awardedTime
    && b.bannerLeft == if a.bannerLeft > dt then a.bannerLeft - dt else 0.0
  }

  /**
   * A frame on the way to a pickup begins a fare from the pickup within reach, if there is one, and fails if no dropoff
   * can be reached from there.
   */
  lemma {:induction false} PickupFrame(c: Config, town: Town, a: Taxi, p: Pose, dt: real, board: seq<ScoreEntry>,
                                       limit: nat)
    requires c.Valid() && town.Valid() && p.Valid(town) && Inv(c, town, a) && dt >= 0.0
    requires a.session == Playing && a.phase == SeekingPickup
    ensures var (b, ok) := Framed(c, town, a, p, dt, board, limit);
            if forall i :: i in a.available ==> p.distance[i] > c.pickupRadius then
              ok && b.phase == SeekingPickup && b.target == a.target && b.available == a.available && Fades(a, b, dt)
            else
              exists i: nat :: AtPickup(c, a, p, i) && b.pickup == Some(i)
                          && (ok <==> exists k, j :: 0 <= k < |p.fareSources| && Reaches(p.fareSources[k], i, j))
                          && (ok ==> b.phase == ToDropoff && b.dropoff == Some(b.target) && b.available == []
                                     && Announces(c, b, PickupComplete, 0, 0.0))
  {
    CollectedIs(c, a.available, p.distance);
    var collected := Collected(c, a.available, p.distance);
    if collected.Some? {
      var i := collected.value;
      assert AtPickup(c, a, p, i);
      RideFollowsRoute(c, p.fareSources, i, p.draw);
      assert Started(c, Collecting(a, p.coins, dt), i, p).1 <==> SelectDropoff(c, p.fareSources, i, p.draw).Some?;
      var ride := SelectDropoff(c, p.fareSources, i, p.draw);
      if ride.Some? {
        assert exists k, j :: 0 <= k < |p.fareSources| && Reaches(p.fareSources[k], i, j);
      }
    }
  }

  /**
   * A frame that ends a fare, delivered or out of time, announces it and sends the taxi on, to a pickup chosen apart
   * from the two ends of that fare; the pickups offered are the ones to choose from and the one chosen.
   */
  lemma {:induction false} FareEnds(c: Config, town: Town, a: Taxi, p: Pose, dt: real, board: seq<ScoreEntry>,
                                    limit: nat)
    requires c.Valid() && town.Valid() && p.Valid(town) && Inv(c, town, a) && dt >= 0.0
    requires a.session == Playing && a.phase == ToDropoff
    requires p.distance[a.target] <= c.dropoffRadius || a.remaining.value <= dt
    ensures var (b, ok) := Framed(c, town, a, p, dt, board, limit);
            var ends := {a.pickup.value, a.target};
            && ok && b.phase == SeekingPickup && b.remaining == None
            && b.target == SelectPickup(c, town, p, ends)
            && (forall i :: i in b.available <==> i == b.target || i in Available(c, town, p.distance, ends))
            && if p.distance[a.target] <= c.dropoffRadius then
                 Announces(c, b, FareComplete, c.basePoints + a.remaining.value.Floor * c.bonusPerSecond,
                           c.dropoffBonus)
               else Announces(c, b, TimeExpired, 0, 0.0)
  {
    assert Just(a.pickup) + Just(a.dropoff) == {a.pickup.value, a.target};
  }

  /** Any other frame of a fare only counts its time down. */
  lemma {:induction false} FareGoesOn(c: Config, town: Town, a: Taxi, p: Pose, dt: real, board: seq<ScoreEntry>,
                                      limit: nat)
    requires c.Valid() && town.Valid() && p.Valid(town) && Inv(c, town, a) && dt >= 0.0
    requires a.session == Playing && a.phase == ToDropoff
    requires p.distance[a.target] > c.dropoffRadius && a.remaining.value > dt
    ensures var (b, ok) := Framed(c, town, a, p, dt, board, limit);
            && ok && b.phase == ToDropoff && b.remaining == Some(a.remaining.value - dt) && Fades(a, b, dt)
            && b.target == a.target && b.pickup == a.pickup && b.dropoff == a.dropoff
  {
  }

  // ---------- how a game begins and ends ----------

  /** A new game has nothing scored and the full clock, and offers the pickups to choose from and the one chosen. */
  lemma {:induction false} NewGame(c: Config, town: Town, p: Pose, target: nat, highScore: Option<int>)
    requires c.Valid() && town.Valid() && p.Valid(town) && target in town.pool
    ensures var t := Begun(c, town, p, target, highScore);
            && IsNew(c, t) && Inv(c, town, t) && t.target == target && t.event == None && t.bannerLeft == 0.0
            && t.pickup == None && t.dropoff == None && t.rank == None && t.highScore == highScore
            && forall i :: i in t.available <==> i == target || i in Available(c, town, p.distance, {})
  {
    BegunKeeps(c, town, p, target, highScore);
  }

  /** The high score shown at the end is the best on the board, or the one shown before when the board is empty. */
  lemma {:induction false} BestIsShown(board: seq<ScoreEntry>, before: Option<int>)
    requires Ascending(board, ScoreKey)
    ensures board == [] ==> BestScore(board, before) == before
    ensures board != [] ==>
              BestScore(board, before).Some?
              && (exists e :: e in board && e.score == BestScore(board, before).value)
              && forall e :: e in board ==> e.score <= BestScore(board, before).value
  {
    if board != [] {
      assert board[0] in board;
      forall e | e in board ensures e.score <= board[0].score {
        var i :| 0 <= i < |board| && board[i] == e;
        assert i > 0 ==> KeyLe(ScoreKey(board[0]), ScoreKey(board[i]));
      }
    }
  }

  /** When the clock runs out the name is asked for exactly when the score has a place on the board. */
  lemma {:induction false} NameIsAsked(t: Taxi, board: seq<ScoreEntry>, limit: nat)
    ensures var e := Ended(t, board, limit);
            && e.global == 0.0 && e.score == t.score && e.session != Playing
            && (e.session == AwaitingName <==> e.rank.Some?)
            && (e.rank.Some? <==> t.score > 0 && (|board| < limit || board == [] || t.score > board[|board| - 1].score))
  {
  }
}

/** The taxi rules: fares, the two clocks and the score, pose by pose. */
module TaxiRules {
  import opened Prelude
  import opened Ranking
  import opened Leaderboards

  const COIN_POINTS: int := 100
  const SLOW: real := 0.000001
  const APART: real := 1.0

  datatype Config = Config(
    pickupMinDistance: real, pickupRadius: real, dropoffRadius: real, fareMin: real, fareMax: real,
    targetSpeed: real, grace: real, minTime: real, maxTime: real, multiplier: real,
    basePoints: int, bonusPerSecond: int, banner: real, globalTime: real, dropoffBonus: real)
  {
    /** What configuration loading accepts. */
    predicate Valid() {
      && pickupMinDistance >= 0.0 && pickupRadius >= 0.0 && dropoffRadius >= 0.0 && 0.0 <= fareMin <= fareMax
      && targetSpeed >= 0.0 && grace >= 0.0 && 0.0 <= minTime <= maxTime && multiplier >= 0.0
      && basePoints >= 0 && bonusPerSecond >= 0 && banner >= 0.0 && globalTime > 0.0 && dropoffBonus >= 0.0
    }
  }

  /** Waypoints by index, and those of them that may be pickups, in increasing order. */
  datatype Town = Town(waypoints: nat, pool: seq<nat>) {
    ghost predicate Valid() {
      && pool != []
      && (forall i :: 0 <= i < |pool| ==> pool[i] < waypoints)
      && (forall i, j :: 0 <= i < j < |pool| ==> pool[i] < pool[j])
    }
  }

  /** Route distance to every waypoint from one lane position; none where no route leads. */
  type Reach = seq<Option<real>>

  /**
   * What one pose brings: straight-line distances to the waypoints, coins run over, route distances from the lane
   * positions a fare or the next pickup may be planned from, and the random draw.
   */
  datatype Pose = Pose(distance: seq<real>, coins: nat, fareSources: seq<Reach>, pickupSources: seq<Reach>, draw: nat) {
    ghost predicate Valid(town: Town) {
      && |distance| == town.waypoints
      && (forall i :: 0 <= i < |fareSources| ==> |fareSources[i]| == town.waypoints)
      && (forall i :: 0 <= i < |pickupSources| ==> |pickupSources[i]| == town.waypoints)
    }
  }

  // ---------- choosing waypoints ----------

  function Where(xs: seq<nat>, keep: nat -> bool): seq<nat> {
    if xs == [] then [] else Where(xs[..|xs| - 1], keep) + if keep(xs[|xs| - 1]) then [xs[|xs| - 1]] else []
  }

  /** Filtering keeps exactly the matching elements, each as often as before. */
  lemma {:induction false} WhereKeeps(xs: seq<nat>, keep: nat -> bool)
    ensures forall x :: x in Where(xs, keep) <==> x in xs && keep(x)
    ensures Distinct(xs) ==> Distinct(Where(xs, keep))
  {
    if xs != [] {
      WhereKeeps(xs[..|xs| - 1], keep);
      assert xs == xs[..|xs| - 1] + [xs[|xs| - 1]];
    }
  }

  predicate InRange(xs: seq<nat>, distance: seq<real>) { forall i :: 0 <= i < |xs| ==> xs[i] < |distance| }

  lemma {:induction false} WhereInRange(xs: seq<nat>, keep: nat -> bool, distance: seq<real>)
    requires InRange(xs, distance)
    ensures InRange(Where(xs, keep), distance)
  {
    if xs != [] {
      WhereInRange(xs[..|xs| - 1], keep, distance);
    }
  }

  /** The nearest waypoint, the smaller index first. */
  function Nearest(xs: seq<nat>, distance: seq<real>): (r: nat)
    requires xs != [] && InRange(xs, distance)
    ensures r < |distance|
  {
    var last := xs[|xs| - 1];
    if |xs| == 1 then last
    else
      var best := Nearest(xs[..|xs| - 1], distance);
      if distance[last] < distance[best] || (distance[last] == distance[best] && last < best) then last else best
  }

  lemma {:induction false} NearestIsLeast(xs: seq<nat>, distance: seq<real>)
    requires xs != [] && InRange(xs, distance)
    ensures var r := Nearest(xs, distance);
            r in xs && forall x :: x in xs ==> distance[r] < distance[x] || (distance[r] == distance[x] && r <= x)
  {
    var init, last := xs[..|xs| - 1], xs[|xs| - 1];
    assert forall x :: x in xs <==> x in init || x == last by {
      assert xs == init + [last];
    }
    if |xs| > 1 {
      NearestIsLeast(init, distance);
    }
  }

  /** The farthest waypoint, the smaller index first. */
  function Farthest(xs: seq<nat>, distance: seq<real>): (r: nat)
    requires xs != [] && InRange(xs, distance)
    ensures r < |distance|
  {
    var last := xs[|xs| - 1];
    if |xs| == 1 then last
    else
      var best := Farthest(xs[..|xs| - 1], distance);
      if distance[last] > distance[best] || (distance[last] == distance[best] && last < best) then last else best
  }

  lemma {:induction false} FarthestIsGreatest(xs: seq<nat>, distance: seq<real>)
    requires xs != [] && InRange(xs, distance)
    ensures var r := Farthest(xs, distance);
            r in xs && forall x :: x in xs ==> distance[r] > distance[x] || (distance[r] == distance[x] && r <= x)
  {
    var init, last := xs[..|xs| - 1], xs[|xs| - 1];
    assert forall x :: x in xs <==> x in init || x == last by {
      assert xs == init + [last];
    }
    if |xs| > 1 {
      FarthestIsGreatest(init, distance);
    }
  }

  function Drawn(xs: seq<nat>, draw: nat): nat
    requires xs != []
  {
    xs[draw % |xs|]
  }

  function UpTo(n: nat): seq<nat> { if n == 0 then [] else UpTo(n - 1) + [n - 1] }

  lemma {:induction false} UpToHolds(n: nat)
    ensures forall i: nat :: i in UpTo(n) <==> i < n
  {
    if n > 0 {
      UpToHolds(n - 1);
      forall i: nat ensures i in UpTo(n) <==> i < n {
        assert i in UpTo(n) <==> i in UpTo(n - 1) || i == n - 1;
      }
    }
  }

  /** The available pickup close enough to be collected. */
  function Collected(c: Config, available: seq<nat>, distance: seq<real>): Option<nat>
    requires InRange(available, distance)
  {
    if available == [] then None
    else
      var i := Nearest(available, distance);
      if distance[i] <= c.pickupRadius then Some(i) else None
  }

  /** A planned fare: where to and how far along the road. */
  datatype Ride = Ride(to: nat, distance: real)

  function Or(xs: seq<nat>, ys: seq<nat>): seq<nat> { if xs != [] then xs else ys }

  /** A waypoint that this source has a route to, other than the pickup and more than a metre along. */
  predicate Reaches(reach: Reach, pickup: nat, i: nat) {
    i < |reach| && i != pickup && reach[i].Some? && reach[i].value > APART
  }

  function Reachable(reach: Reach, pickup: nat): seq<nat> {
    Where(UpTo(|reach|), (i: nat) => Reaches(reach, pickup, i))
  }

  lemma {:induction false} ReachableIs(reach: Reach, pickup: nat)
    ensures forall i :: i in Reachable(reach, pickup) <==> Reaches(reach, pickup, i)
  {
    UpToHolds(|reach|);
    WhereKeeps(UpTo(|reach|), (i: nat) => Reaches(reach, pickup, i));
  }

  predicate InBand(c: Config, reach: Reach, i: nat) {
    i < |reach| && reach[i].Some? && c.fareMin <= reach[i].value <= c.fareMax
  }

  /** Where a source sends a fare: within the preferred band, failing that far enough, failing that anywhere. */
  function Preferred(c: Config, reach: Reach, reachable: seq<nat>): seq<nat> {
    Or(Where(reachable, (i: nat) => InBand(c, reach, i)),
       Or(Where(reachable, (i: nat) => i < |reach| && reach[i].Some? && reach[i].value >= c.fareMin), reachable))
  }

  lemma {:induction false} PreferredIs(c: Config, reach: Reach, reachable: seq<nat>)
    ensures forall i :: i in Preferred(c, reach, reachable) ==> i in reachable
    ensures reachable != [] ==> Preferred(c, reach, reachable) != []
    ensures (exists i :: i in reachable && InBand(c, reach, i)) ==>
              forall i :: i in Preferred(c, reach, reachable) ==> InBand(c, reach, i)
  {
    WhereKeeps(reachable, (i: nat) => InBand(c, reach, i));
    WhereKeeps(reachable, (i: nat) => i < |reach| && reach[i].Some? && reach[i].value >= c.fareMin);
  }

  /** The dropoff for a pickup, from the first source that reaches any. */
  function SelectDropoff(c: Config, sources: seq<Reach>, pickup: nat, draw: nat): Option<Ride> {
    if sources == [] then None
    else
      var reach := sources[0];
      var reachable := Reachable(reach, pickup);
      if reachable == [] then SelectDropoff(c, sources[1..], pickup, draw)
      else
        ReachableIs(reach, pickup);
        PreferredIs(c, reach, reachable);
        var to := Drawn(Preferred(c, reach, reachable), draw);
        assert to in Preferred(c, reach, reachable);
        Some(Ride(to, reach[to].value))
  }

  predicate Elsewhere(distance: seq<real>, excluded: set<nat>, i: nat) {
    i < |distance| && i !in excluded && distance[i] > APART
  }

  function FarPickups(c: Config, town: Town, distance: seq<real>, excluded: set<nat>): seq<nat> {
    Where(town.pool, (i: nat) => i < |distance| && i !in excluded && distance[i] >= c.pickupMinDistance)
  }

  /** Pickups far enough from the taxi and not excluded; failing that, all that are not excluded. */
  function Available(c: Config, town: Town, distance: seq<real>, excluded: set<nat>): seq<nat> {
    Or(FarPickups(c, town, distance, excluded), Where(town.pool, (i: nat) => i !in excluded))
  }

  lemma {:induction false} AvailableIs(c: Config, town: Town, distance: seq<real>, excluded: set<nat>)
    requires town.Valid()
    ensures Distinct(Available(c, town, distance, excluded))
    ensures forall i :: i in Available(c, town, distance, excluded) ==> i in town.pool && i !in excluded
  {
    WhereKeeps(town.pool, (i: nat) => i < |distance| && i !in excluded && distance[i] >= c.pickupMinDistance);
    WhereKeeps(town.pool, (i: nat) => i !in excluded);
  }

  /** Pickups that one source has a route to. */
  function Routed(town: Town, distance: seq<real>, reach: Reach, excluded: set<nat>): seq<nat> {
    Where(town.pool, (i: nat) => i < |reach| && reach[i].Some? && Elsewhere(distance, excluded, i))
  }

  /** The next pickup by route, from the first source that reaches one. */
  function RoutedPickup(c: Config, town: Town, distance: seq<real>, sources: seq<Reach>, excluded: set<nat>,
                        draw: nat): Option<nat>
    requires InRange(town.pool, distance)
  {
    if sources == [] then None
    else
      var reach := sources[0];
      var reachable := Routed(town, distance, reach, excluded);
      var preferred := Where(FarPickups(c, town, distance, excluded), (i: nat) => i in reachable);
      if preferred != [] then Some(Drawn(preferred, draw))
      else if reachable != [] then
        WhereInRange(town.pool, (i: nat) => i < |reach| && reach[i].Some? && Elsewhere(distance, excluded, i),
                     distance);
        Some(Farthest(reachable, distance))
      else RoutedPickup(c, town, distance, sources[1..], excluded, draw)
  }

  lemma {:induction false} RoutedPickupIs(c: Config, town: Town, distance: seq<real>, sources: seq<Reach>,
                                          excluded: set<nat>, draw: nat)
    requires InRange(town.pool, distance)
    ensures var r := RoutedPickup(c, town, distance, sources, excluded, draw);
            r.Some? ==> r.value in town.pool && Elsewhere(distance, excluded, r.value)
  {
    if sources != [] {
      var reach := sources[0];
      var reachable := Routed(town, distance, reach, excluded);
      WhereKeeps(town.pool, (i: nat) => i < |reach| && reach[i].Some? && Elsewhere(distance, excluded, i));
      WhereKeeps(FarPickups(c, town, distance, excluded), (i: nat) => i in reachable);
      var preferred := Where(FarPickups(c, town, distance, excluded), (i: nat) => i in reachable);
      if preferred != [] {
        assert Drawn(preferred, draw) in preferred;
      } else if reachable != [] {
        WhereInRange(town.pool, (i: nat) => i < |reach| && reach[i].Some? && Elsewhere(distance, excluded, i),
                     distance);
        FarthestIsGreatest(reachable, distance);
      } else {
        RoutedPickupIs(c, town, distance, sources[1..], excluded, draw);
      }
    }
  }

  function Fallback(town: Town, distance: seq<real>, excluded: set<nat>): seq<nat> {
    Or(Where(town.pool, (i: nat) => Elsewhere(distance, excluded, i)),
       Or(Where(town.pool, (i: nat) => Elsewhere(distance, {}, i)), town.pool))
  }

  lemma {:induction false} FallbackIs(town: Town, distance: seq<real>, excluded: set<nat>)
    requires town.pool != [] && InRange(town.pool, distance)
    ensures Fallback(town, distance, excluded) != [] && InRange(Fallback(town, distance, excluded), distance)
    ensures forall i :: i in Fallback(town, distance, excluded) ==> i in town.pool
    ensures (exists i :: i in town.pool && Elsewhere(distance, excluded, i)) ==>
              forall i :: i in Fallback(town, distance, excluded) ==> Elsewhere(distance, excluded, i)
  {
    WhereKeeps(town.pool, (i: nat) => Elsewhere(distance, excluded, i));
    WhereKeeps(town.pool, (i: nat) => Elsewhere(distance, {}, i));
    WhereInRange(town.pool, (i: nat) => Elsewhere(distance, excluded, i), distance);
    WhereInRange(town.pool, (i: nat) => Elsewhere(distance, {}, i), distance);
  }

  /** The next pickup: routed if possible, otherwise the nearest one the fallbacks leave. */
  function SelectPickup(c: Config, town: Town, p: Pose, excluded: set<nat>): nat
    requires town.Valid() && p.Valid(town)
  {
    var avoided := if |excluded| >= town.waypoints then {} else excluded;
    var routed := RoutedPickup(c, town, p.distance, p.pickupSources, avoided, p.draw);
    if routed.Some? then routed.value
    else
      FallbackIs(town, p.distance, avoided);
      Nearest(Fallback(town, p.distance, avoided), p.distance)
  }

  lemma {:induction false} SelectedInPool(c: Config, town: Town, p: Pose, excluded: set<nat>)
    requires town.Valid() && p.Valid(town)
    ensures SelectPickup(c, town, p, excluded) in town.pool
  {
    var avoided := if |excluded| >= town.waypoints then {} else excluded;
    RoutedPickupIs(c, town, p.distance, p.pickupSources, avoided, p.draw);
    FallbackIs(town, p.distance, avoided);
    NearestIsLeast(Fallback(town, p.distance, avoided), p.distance);
  }

  /** The taxi is never sent back to the fare just ended while the town offers another pickup more than a metre away. */
  lemma {:induction false} PickupIsElsewhere(c: Config, town: Town, p: Pose, excluded: set<nat>)
    requires town.Valid() && p.Valid(town) && |excluded| < town.waypoints
    ensures Elsewhere(p.distance, excluded, SelectPickup(c, town, p, excluded))
            <==> exists i :: i in town.pool && Elsewhere(p.distance, excluded, i)
  {
    SelectedInPool(c, town, p, excluded);
    RoutedPickupIs(c, town, p.distance, p.pickupSources, excluded, p.draw);
    FallbackIs(town, p.distance, excluded);
    NearestIsLeast(Fallback(town, p.distance, excluded), p.distance);
  }

  /** A ride over a route that this source has, to another waypoint more than a metre away. */
  predicate Leads(reach: Reach, pickup: nat, ride: Ride) {
    Reaches(reach, pickup, ride.to) && reach[ride.to] == Some(ride.distance)
  }

  /**
   * Every chosen ride follows a route of one of the sources, and there is one as soon as any source reaches a waypoint.
   */
  lemma {:induction false} RideFollowsRoute(c: Config, sources: seq<Reach>, pickup: nat, draw: nat)
    ensures var r := SelectDropoff(c, sources, pickup, draw);
            && (r.Some? ==> exists k :: 0 <= k < |sources| && Leads(sources[k], pickup, r.value))
            && (r.None? ==> forall k, i :: 0 <= k < |sources| ==> !Reaches(sources[k], pickup, i))
  {
    if sources != [] {
      var reach := sources[0];
      var reachable := Reachable(reach, pickup);
      var r := SelectDropoff(c, sources, pickup, draw);
      ReachableIs(reach, pickup);
      if reachable != [] {
        PreferredIs(c, reach, reachable);
        assert Drawn(Preferred(c, reach, reachable), draw) in Preferred(c, reach, reachable);
        assert Leads(sources[0], pickup, r.value);
      } else {
        RideFollowsRoute(c, sources[1..], pickup, draw);
        if r.Some? {
          var k :| 0 <= k < |sources[1..]| && Leads(sources[1..][k], pickup, r.value);
          assert Leads(sources[k + 1], pickup, r.value);
        } else {
          forall k, i | 0 <= k < |sources| ensures !Reaches(sources[k], pickup, i) {
            if k > 0 {
              assert !Reaches(sources[1..][k - 1], pickup, i);
            } else {
              assert i !in reachable;
            }
          }
        }
      }
    }
  }

  /** The ride is within the preferred distances when the first source reaches any waypoint at such a distance. */
  lemma {:induction false} DropoffPrefersBand(c: Config, sources: seq<Reach>, pickup: nat, draw: nat)
    requires sources != [] && exists i :: Reaches(sources[0], pickup, i) && InBand(c, sources[0], i)
    ensures var r := SelectDropoff(c, sources, pickup, draw);
            r.Some? && c.fareMin <= r.value.distance <= c.fareMax
  {
    var reach := sources[0];
    var i :| Reaches(reach, pickup, i) && InBand(c, reach, i);
    ReachableIs(reach, pickup);
    var reachable := Reachable(reach, pickup);
    assert i in reachable;
    PreferredIs(c, reach, reachable);
    assert Drawn(Preferred(c, reach, reachable), draw) in Preferred(c, reach, reachable);
  }

  // ---------- the state ----------

  datatype Phase = SeekingPickup | ToDropoff

  datatype Session = Playing | AwaitingName | ShowingLeaderboard

  datatype Event = PickupComplete | FareComplete | TimeExpired

  datatype Taxi = Taxi(phase: Phase, session: Session, score: int, global: real, remaining: Option<real>,
                       target: nat, available: seq<nat>, pickup: Option<nat>, dropoff: Option<nat>,
                       event: Option<Event>, bannerLeft: real, awarded: int, awardedTime: real,
                       highScore: Option<int>, rank: Option<nat>)

  function Begun(c: Config, town: Town, p: Pose, target: nat, highScore: Option<int>): Taxi
    requires town.Valid() && p.Valid(town)
  {
    var available := Available(c, town, p.distance, {});
    Taxi(SeekingPickup, Playing, 0, c.globalTime, None, target,
         if target in available then available else available + [target], None, None,
         None, 0.0, 0, 0.0, highScore, None)
  }

  function Announced(c: Config, t: Taxi, event: Event, points: int, time: real): Taxi {
    t.(event := Some(event), awarded := points, awardedTime := time, bannerLeft := c.banner)
  }

  function Deadline(c: Config, distance: real): (d: real)
    requires c.Valid()
    ensures 0.0 <= c.minTime * c.multiplier <= d <= c.maxTime * c.multiplier
  {
    var clamped := Min(c.maxTime, Max(c.minTime, distance / Max(c.targetSpeed, SLOW) + c.grace));
    assert c.minTime * c.multiplier >= 0.0;
    assert (clamped - c.minTime) * c.multiplier >= 0.0 && (c.maxTime - clamped) * c.multiplier >= 0.0;
    clamped * c.multiplier
  }

  lemma {:induction false} DriveTime(distance: real, speed: real, time: real)
    requires speed > 0.0 && distance == time * speed
    ensures distance / speed == time
  {
    assert (distance / speed - time) * speed == 0.0;
  }

  /**
   * A ride that takes between the least and the longest time at the target speed, grace included, has just that time,
   * stretched by the multiplier; a shorter ride has the least time and a longer one the longest.
   */
  lemma {:induction false} DeadlineIs(c: Config, distance: real, time: real)
    requires c.Valid()
    requires distance == (time - c.grace) * (if c.targetSpeed > SLOW then c.targetSpeed else SLOW)
    ensures Deadline(c, distance)
            == c.multiplier * (if time < c.minTime then c.minTime else if time > c.maxTime then c.maxTime else time)
  {
    var speed := if c.targetSpeed > SLOW then c.targetSpeed else SLOW;
    DriveTime(distance, speed, time - c.grace);
    assert speed == Max(c.targetSpeed, SLOW);
    var clamped := if time < c.minTime then c.minTime else if time > c.maxTime then c.maxTime else time;
    assert clamped == Min(c.maxTime, Max(c.minTime, distance / Max(c.targetSpeed, SLOW) + c.grace));
    assert clamped * c.multiplier == c.multiplier * clamped;
  }

  /** The fare begins, unless no source reaches a dropoff; then only the pickup has been noted. */
  function Started(c: Config, t: Taxi, pickup: nat, p: Pose): (Taxi, bool)
    requires c.Valid()
  {
    match SelectDropoff(c, p.fareSources, pickup, p.draw)
    case None => (t.(pickup := Some(pickup)), false)
    case Some(ride) =>
      (Announced(c, t.(pickup := Some(pickup), dropoff := Some(ride.to), target := ride.to, phase := ToDropoff,
                       available := [], remaining := Some(Deadline(c, ride.distance))), PickupComplete, 0, 0.0), true)
  }

  function Just(i: Option<nat>): set<nat> { if i.Some? then {i.value} else {} }

  /** The taxi looks for its next pickup. */
  function Seeking(c: Config, town: Town, t: Taxi, p: Pose): Taxi
    requires c.Valid() && town.Valid() && p.Valid(town)
  {
    var excluded := Just(t.pickup) + Just(t.dropoff);
    var target := SelectPickup(c, town, p, excluded);
    var available := Available(c, town, p.distance, excluded);
    t.(target := target, available := if target in available then available else available + [target],
       phase := SeekingPickup, remaining := None)
  }

  /** Points for delivering with this much time left. */
  function Award(c: Config, remaining: real): int { c.basePoints + remaining.Floor * c.bonusPerSecond }

  function Completed(c: Config, town: Town, t: Taxi, p: Pose): Taxi
    requires c.Valid() && town.Valid() && p.Valid(town) && t.remaining.Some?
  {
    var points := Award(c, t.remaining.value);
    var paid := t.(score := t.score + points, global := t.global + c.dropoffBonus);
    Seeking(c, town, Announced(c, paid, FareComplete, points, c.dropoffBonus), p)
  }

  function Expired(c: Config, town: Town, t: Taxi, p: Pose): Taxi
    requires c.Valid() && town.Valid() && p.Valid(town)
  {
    Seeking(c, town, Announced(c, t, TimeExpired, 0, 0.0), p)
  }

  function BestScore(board: seq<ScoreEntry>, otherwise: Option<int>): Option<int> {
    if board != [] then Some(board[0].score) else otherwise
  }

  function Qualifying(board: seq<ScoreEntry>, score: int, limit: nat): Option<nat> {
    if score <= 0 then None else Prospective(board, -score, limit, ScoreKey)
  }

  function Ended(t: Taxi, board: seq<ScoreEntry>, limit: nat): Taxi {
    var rank := Qualifying(board, t.score, limit);
    t.(global := 0.0, highScore := BestScore(board, t.highScore), rank := rank,
       session := if rank.Some? then AwaitingName else ShowingLeaderboard)
  }

  ghost predicate Inv(c: Config, town: Town, t: Taxi) {
    && (t.phase == SeekingPickup <==> t.remaining == None)
    && (t.phase == SeekingPickup ==> t.target in t.available && Distinct(t.available))
    && (forall i :: 0 <= i < |t.available| ==> t.available[i] in town.pool && t.available[i] < town.waypoints)
    && (t.phase == ToDropoff ==>
          && t.available == [] && t.pickup.Some? && t.dropoff == Some(t.target) && t.pickup != t.dropoff
          && 0.0 <= t.remaining.value <= c.maxTime * c.multiplier)
    && t.target < town.waypoints
    && (t.session == Playing ==> t.global > 0.0)
    && (t.session != Playing ==> t.global == 0.0)
  }

  /** The fare part of a frame: pickup, delivery, or the fare clock. */
  function Fared(c: Config, town: Town, t: Taxi, p: Pose, dt: real): (Taxi, bool)
    requires c.Valid() && town.Valid() && p.Valid(town) && Inv(c, town, t)
  {
    if t.phase == SeekingPickup then
      match Collected(c, t.available, p.distance)
      case None => (t, true)
      case Some(i) => Started(c, t, i, p)
    else if p.distance[t.target] <= c.dropoffRadius then (Completed(c, town, t, p), true)
    else
      var left := Max(0.0, t.remaining.value - dt);
      var later := t.(remaining := Some(left));
      (if left <= 0.0 then Expired(c, town, later, p) else later, true)
  }

  /** Coins and the banner. */
  function Collecting(t: Taxi, coins: nat, dt: real): Taxi {
    t.(score := t.score + coins * COIN_POINTS, bannerLeft := Max(0.0, t.bannerLeft - dt))
  }

  function Clocked(t: Taxi, dt: real, board: seq<ScoreEntry>, limit: nat): Taxi {
    var left := Max(0.0, t.global - dt);
    if left <= 0.0 then Ended(t.(global := left), board, limit) else t.(global := left)
  }

  /** One pose; false when it fails for want of a reachable dropoff. */
  function Framed(c: Config, town: Town, t: Taxi, p: Pose, dt: real, board: seq<ScoreEntry>, limit: nat): (Taxi, bool)
    requires c.Valid() && town.Valid() && p.Valid(town) && Inv(c, town, t)
  {
    if t.session != Playing then (t, true)
    else
      var (fared, ok) := Fared(c, town, Collecting(t, p.coins, dt), p, dt);
      if ok then (Clocked(fared, dt, board, limit), true) else (fared, false)
  }

  // ---------- what every frame keeps ----------

  lemma {:induction false} AvailableWith(c: Config, town: Town, distance: seq<real>, excluded: set<nat>, target: nat)
    requires town.Valid() && |distance| == town.waypoints && target in town.pool
    ensures var available := Available(c, town, distance, excluded);
            var all := if target in available then available else available + [target];
            && target in all && Distinct(all)
            && (forall i :: 0 <= i < |all| ==> all[i] in town.pool && all[i] < town.waypoints)
  {
    AvailableIs(c, town, distance, excluded);
    var available := Available(c, town, distance, excluded);
    var all := if target in available then available else available + [target];
    forall i | 0 <= i < |all| ensures all[i] in town.pool && all[i] < town.waypoints {
      assert all[i] in available || all[i] == target;
    }
  }

  lemma {:induction false} BegunKeeps(c: Config, town: Town, p: Pose, target: nat, highScore: Option<int>)
    requires c.Valid() && town.Valid() && p.Valid(town) && target in town.pool
    ensures Inv(c, town, Begun(c, town, p, target, highScore))
  {
    AvailableWith(c, town, p.distance, {}, target);
  }

  lemma {:induction false} SeekingKeeps(c: Config, town: Town, t: Taxi, p: Pose)
    requires c.Valid() && town.Valid() && p.Valid(town)
    requires t.session == Playing && t.global > 0.0
    ensures Inv(c, town, Seeking(c, town, t, p))
  {
    var excluded := Just(t.pickup) + Just(t.dropoff);
    SelectedInPool(c, town, p, excluded);
    AvailableWith(c, town, p.distance, excluded, SelectPickup(c, town, p, excluded));
  }

  lemma {:induction false} RideFits(c: Config, town: Town, sources: seq<Reach>, pickup: nat, draw: nat)
    requires c.Valid() && forall i :: 0 <= i < |sources| ==> |sources[i]| == town.waypoints
    ensures var r := SelectDropoff(c, sources, pickup, draw);
            r.Some? ==>
              && r.value.to < town.waypoints && r.value.to != pickup
              && 0.0 <= Deadline(c, r.value.distance) <= c.maxTime * c.multiplier
  {
    RideFollowsRoute(c, sources, pickup, draw);
    var r := SelectDropoff(c, sources, pickup, draw);
    if r.Some? {
      var k :| 0 <= k < |sources| && Leads(sources[k], pickup, r.value);
      assert |sources[k]| == town.waypoints;
    }
  }

  lemma {:induction false} StartedKeeps(c: Config, town: Town, t: Taxi, pickup: nat, p: Pose)
    requires c.Valid() && town.Valid() && p.Valid(town) && Inv(c, town, t) && t.session == Playing
    requires t.phase == SeekingPickup
    ensures Inv(c, town, Started(c, t, pickup, p).0)
  {
    RideFits(c, town, p.fareSources, pickup, p.draw);
  }

  lemma {:induction false} CompletedKeeps(c: Config, town: Town, t: Taxi, p: Pose)
    requires c.Valid() && town.Valid() && p.Valid(town) && Inv(c, town, t) && t.session == Playing
    requires t.phase == ToDropoff
    ensures Inv(c, town, Completed(c, town, t, p))
  {
    var points := Award(c, t.remaining.value);
    var paid := t.(score := t.score + points, global := t.global + c.dropoffBonus);
    SeekingKeeps(c, town, Announced(c, paid, FareComplete, points, c.dropoffBonus), p);
  }

  lemma {:induction false} ExpiredKeeps(c: Config, town: Town, t: Taxi, p: Pose)
    requires c.Valid() && town.Valid() && p.Valid(town) && t.session == Playing && t.global > 0.0
    ensures Inv(c, town, Expired(c, town, t, p))
  {
    SeekingKeeps(c, town, Announced(c, t, TimeExpired, 0, 0.0), p);
  }

  /** The fare part keeps the invariant, whatever happens in it. */
  lemma {:induction false} FaredKeeps(c: Config, town: Town, t: Taxi, p: Pose, dt: real)
    requires c.Valid() && town.Valid() && p.Valid(town) && Inv(c, town, t) && t.session == Playing && dt >= 0.0
    ensures Inv(c, town, Fared(c, town, t, p, dt).0)
    ensures var f := Fared(c, town, t, p, dt).0; f.session == Playing && f.global >= t.global
  {
    if t.phase == SeekingPickup {
      var collected := Collected(c, t.available, p.distance);
      if collected.Some? {
        StartedKeeps(c, town, t, collected.value, p);
      }
    } else if p.distance[t.target] <= c.dropoffRadius {
      CompletedKeeps(c, town, t, p);
    } else {
      ExpiredKeeps(c, town, t.(remaining := Some(Max(0.0, t.remaining.value - dt))), p);
    }
  }

  lemma {:induction false} CollectingKeeps(c: Config, town: Town, t: Taxi, coins: nat, dt: real)
    requires Inv(c, town, t)
    ensures Inv(c, town, Collecting(t, coins, dt))
  {
  }

  /** Every frame, completed or failed, keeps the invariant. */
  lemma {:induction false} FramedKeeps(c: Config, town: Town, t: Taxi, p: Pose, dt: real, board: seq<ScoreEntry>,
                                       limit: nat)
    requires c.Valid() && town.Valid() && p.Valid(town) && Inv(c, town, t) && dt >= 0.0
    ensures Inv(c, town, Framed(c, town, t, p, dt, board, limit).0)
  {
    if t.session == Playing {
      var collecting := Collecting(t, p.coins, dt);
      CollectingKeeps(c, town, t, p.coins, dt);
      FaredKeeps(c, town, collecting, p, dt);
    }
  }

  // ---------- what the HUD shows ----------

  /** The waypoint the HUD points at: the nearest available pickup, or the dropoff. */
  function Shown(t: Taxi, distance: seq<real>): nat
    requires InRange(t.available, distance)
  {
    if t.phase == SeekingPickup && t.available != [] then Nearest(t.available, distance) else t.target
  }

  function ShownRadius(c: Config, t: Taxi): real {
    if t.phase == SeekingPickup then c.pickupRadius else c.dropoffRadius
  }

  /** A pickup is collected exactly when the one the HUD points at is within the radius it shows, and it is that one. */
  lemma {:induction false} CollectsWhatIsShown(c: Config, town: Town, t: Taxi, p: Pose)
    requires c.Valid() && town.Valid() && p.Valid(town) && Inv(c, town, t) && t.phase == SeekingPickup
    ensures Collected(c, t.available, p.distance)
            == if p.distance[Shown(t, p.distance)] <= ShownRadius(c, t) then Some(Shown(t, p.distance)) else None
  {
    assert t.target in t.available;
  }

  // ---------- whole games ----------

  /** A fare paid between two frames, as the states show it. */
  predicate Delivered(a: Taxi, b: Taxi) {
    && a.session == Playing && a.phase == ToDropoff && a.remaining.Some?
    && b.phase == SeekingPickup && b.event == Some(FareComplete)
  }

  /** States before the first pose and after each of them, every pose completed. */
  ghost predicate Trace(c: Config, town: Town, poses: seq<Pose>, dt: real, board: seq<ScoreEntry>, limit: nat,
                        ts: seq<Taxi>)
  {
    && c.Valid() && town.Valid() && dt >= 0.0
    && |ts| == |poses| + 1
    && (forall i :: 0 <= i < |poses| ==> Stepped(c, town, poses[i], dt, board, limit, ts, i))
    && Inv(c, town, ts[0])
  }

  ghost predicate Stepped(c: Config, town: Town, p: Pose, dt: real, board: seq<ScoreEntry>, limit: nat, ts: seq<Taxi>,
                          i: nat)
    requires c.Valid() && town.Valid()
  {
    && i + 1 < |ts| && p.Valid(town) && Inv(c, town, ts[i])
    && Framed(c, town, ts[i], p, dt, board, limit) == (ts[i + 1], true)
  }

  /** A new game: nothing scored, the full clock, looking for a pickup. */
  predicate IsNew(c: Config, t: Taxi) {
    t.session == Playing && t.phase == SeekingPickup && t.score == 0 && t.global == c.globalTime
  }

  function Fares(ts: seq<Taxi>): nat {
    if |ts| < 2 then 0 else Fares(ts[..|ts| - 1]) + if Delivered(ts[|ts| - 2], ts[|ts| - 1]) then 1 else 0
  }

  /** What delivering from this state pays: the fare's base and a bonus for each whole second left. */
  function Pay(c: Config, a: Taxi): int
    requires a.remaining.Some?
  {
    c.basePoints + a.remaining.value.Floor * c.bonusPerSecond
  }

  /** The pay of all fares delivered. */
  function Awards(c: Config, ts: seq<Taxi>): int {
    if |ts| < 2 then 0
    else
      Awards(c, ts[..|ts| - 1])
      + if Delivered(ts[|ts| - 2], ts[|ts| - 1]) then Pay(c, ts[|ts| - 2]) else 0
  }

  /** Coins run over while the game was on. */
  function Coins(poses: seq<Pose>, ts: seq<Taxi>): nat
    requires |ts| == |poses| + 1
  {
    if poses == [] then 0
    else
      Coins(poses[..|poses| - 1], ts[..|ts| - 1])
      + if ts[|ts| - 2].session == Playing then poses[|poses| - 1].coins else 0
  }

  /** The longest deadline a fare can have. */
  function Longest(c: Config): real { c.maxTime * c.multiplier }

  function MaxPay(c: Config): int { c.basePoints + Longest(c).Floor * c.bonusPerSecond }

  lemma {:induction false} BonusGrows(c: Config, less: real, more: real)
    requires c.Valid() && 0.0 <= less <= more
    ensures 0 <= less.Floor * c.bonusPerSecond <= more.Floor * c.bonusPerSecond
  {
    assert (more.Floor - less.Floor) * c.bonusPerSecond >= 0;
  }

  /** What one completed frame does to the score and to the global clock. */
  lemma {:induction false} FrameLedger(c: Config, town: Town, a: Taxi, p: Pose, dt: real, board: seq<ScoreEntry>,
                                       limit: nat)
    requires c.Valid() && town.Valid() && p.Valid(town) && Inv(c, town, a) && dt >= 0.0
    requires Framed(c, town, a, p, dt, board, limit).1
    ensures var b := Framed(c, town, a, p, dt, board, limit).0;
            && (a.session == Playing ==>
                  && b.score == a.score + COIN_POINTS * p.coins + (if Delivered(a, b) then Pay(c, a) else 0)
                  && (var balance := a.global + (if Delivered(a, b) then c.dropoffBonus else 0.0) - dt;
                      (b.session == Playing <==> balance > 0.0) && b.global == Max(0.0, balance)))
            && (Delivered(a, b) ==> b.awarded == Pay(c, a) && c.basePoints <= Pay(c, a) <= MaxPay(c))
  {
    if a.session == Playing && a.phase == ToDropoff {
      BonusGrows(c, a.remaining.value, Longest(c));
    }
  }

  /**
   * A frame with the dropoff within its radius delivers: it pays for the coins, the base of the fare and each whole
   * second left of it, and prolongs the game.
   */
  lemma {:induction false} DeliveryScores(c: Config, town: Town, a: Taxi, p: Pose, dt: real, board: seq<ScoreEntry>,
                                          limit: nat)
    requires c.Valid() && town.Valid() && p.Valid(town) && Inv(c, town, a) && dt >= 0.0
    requires a.session == Playing && a.phase == ToDropoff && p.distance[a.target] <= c.dropoffRadius
    ensures var (b, ok) := Framed(c, town, a, p, dt, board, limit);
            && ok && b.phase == SeekingPickup && b.event == Some(FareComplete)
            && b.score == a.score + 100 * p.coins + c.basePoints + c.bonusPerSecond * a.remaining.value.Floor
            && b.awarded == c.basePoints + c.bonusPerSecond * a.remaining.value.Floor
            && b.awardedTime == c.dropoffBonus
            && (a.global + c.dropoffBonus > dt ==> b.session == Playing && b.global == a.global + c.dropoffBonus - dt)
  {
    assert c.bonusPerSecond * a.remaining.value.Floor == a.remaining.value.Floor * c.bonusPerSecond;
  }

  lemma {:induction false} OneBonusMore(bonus: int, left: real)
    ensures (left + 1.0).Floor == left.Floor + 1
    ensures bonus * (left + 1.0).Floor == bonus * left.Floor + bonus
  {
    assert bonus * (left.Floor + 1) == bonus * left.Floor + bonus;
  }

  /** The same fare with one second more left. */
  function Sooner(a: Taxi): Taxi
    requires a.remaining.Some?
  {
    a.(remaining := Some(a.remaining.value + 1.0))
  }

  lemma {:induction false} SoonerKeeps(c: Config, town: Town, a: Taxi)
    requires c.Valid() && Inv(c, town, a) && a.phase == ToDropoff && a.remaining.value + 1.0 <= Longest(c)
    ensures Inv(c, town, Sooner(a))
  {
  }

  /** Delivered one second sooner, a fare is worth one bonus more. */
  lemma {:induction false} SecondSooner(c: Config, town: Town, a: Taxi, p: Pose, dt: real, board: seq<ScoreEntry>,
                                        limit: nat)
    requires c.Valid() && town.Valid() && p.Valid(town) && Inv(c, town, a) && dt >= 0.0
    requires a.session == Playing && a.phase == ToDropoff && p.distance[a.target] <= c.dropoffRadius
    requires a.remaining.value + 1.0 <= Longest(c)
    ensures Inv(c, town, Sooner(a))
    ensures Framed(c, town, Sooner(a), p, dt, board, limit).0.score
            == Framed(c, town, a, p, dt, board, limit).0.score + c.bonusPerSecond
  {
    SoonerKeeps(c, town, a);
    DeliveryScores(c, town, a, p, dt, board, limit);
    DeliveryScores(c, town, Sooner(a), p, dt, board, limit);
    OneBonusMore(c.bonusPerSecond, a.remaining.value);
  }

  /** The score is always what the coins and the paid fares add up to. */
  lemma {:induction false} ScoreLedger(c: Config, town: Town, poses: seq<Pose>, dt: real, board: seq<ScoreEntry>,
                                       limit: nat, ts: seq<Taxi>)
    requires Trace(c, town, poses, dt, board, limit, ts) && IsNew(c, ts[0])
    ensures ts[|ts| - 1].score == COIN_POINTS * Coins(poses, ts) + Awards(c, ts)
  {
    if poses != [] {
      assert ts[..|ts| - 1][|ts[..|ts| - 1]| - 1] == ts[|ts| - 2];
      ScoreLedger(c, town, poses[..|poses| - 1], dt, board, limit, ts[..|ts| - 1]);
      ScoreFrame(c, town, ts[|ts| - 2], poses[|poses| - 1], dt, board, limit);
    }
  }

  /** One frame's part of the score, whether or not the game is still on. */
  lemma {:induction false} ScoreFrame(c: Config, town: Town, a: Taxi, p: Pose, dt: real, board: seq<ScoreEntry>,
                                      limit: nat)
    requires c.Valid() && town.Valid() && p.Valid(town) && Inv(c, town, a) && dt >= 0.0
    requires Framed(c, town, a, p, dt, board, limit).1
    ensures var b := Framed(c, town, a, p, dt, board, limit).0;
            b.score == a.score + COIN_POINTS * (if a.session == Playing then p.coins else 0)
                       + (if Delivered(a, b) then Pay(c, a) else 0)
  {
    FrameLedger(c, town, a, p, dt, board, limit);
  }

  ghost predicate PaysBetween(c: Config, ts: seq<Taxi>, i: nat, low: int, high: int)
    requires i + 1 < |ts|
  {
    Delivered(ts[i], ts[i + 1]) ==> low <= Pay(c, ts[i]) <= high
  }

  /** So many times an amount. */
  function Times(n: nat, x: int): int { n * x }

  lemma {:induction false} OneMoreTime(n: nat, x: int)
    ensures Times(n + 1, x) == Times(n, x) + x
  {
  }

  lemma {:induction false} AwardsBetween(c: Config, ts: seq<Taxi>, low: int, high: int)
    requires forall i :: 0 <= i && i + 1 < |ts| ==> PaysBetween(c, ts, i, low, high)
    ensures Times(Fares(ts), low) <= Awards(c, ts) <= Times(Fares(ts), high)
  {
    if |ts| >= 2 {
      var init := ts[..|ts| - 1];
      forall i | 0 <= i && i + 1 < |init| ensures PaysBetween(c, init, i, low, high) {
        assert PaysBetween(c, ts, i, low, high);
      }
      AwardsBetween(c, init, low, high);
      assert PaysBetween(c, ts, |ts| - 2, low, high);
      OneMoreTime(Fares(init), low);
      OneMoreTime(Fares(init), high);
    }
  }

  /** Every fare pays at least its base and at most the bonus for the longest deadline. */
  lemma {:induction false} AwardsBounded(c: Config, town: Town, poses: seq<Pose>, dt: real, board: seq<ScoreEntry>,
                                         limit: nat, ts: seq<Taxi>)
    requires Trace(c, town, poses, dt, board, limit, ts)
    ensures Fares(ts) * c.basePoints <= Awards(c, ts) <= Fares(ts) * MaxPay(c)
  {
    forall i | 0 <= i && i + 1 < |ts| ensures PaysBetween(c, ts, i, c.basePoints, MaxPay(c)) {
      assert Stepped(c, town, poses[i], dt, board, limit, ts, i);
      FrameLedger(c, town, ts[i], poses[i], dt, board, limit);
    }
    AwardsBetween(c, ts, c.basePoints, MaxPay(c));
  }

  /** So many frames, or bonuses, of this length. */
  function Span(n: int, dt: real): real { n as real * dt }

  lemma {:induction false} SpanGrows(n: int, dt: real)
    ensures Span(n + 1, dt) == Span(n, dt) + dt
  {
  }

  /** The time a game has left after a run: what it began with, plus the bonuses, minus the frames. */
  function Balance(c: Config, ts: seq<Taxi>, dt: real): real
    requires ts != []
  {
    c.globalTime + Span(Fares(ts), c.dropoffBonus) - Span(|ts| - 1, dt)
  }

  lemma {:induction false} BalanceSteps(c: Config, ts: seq<Taxi>, dt: real)
    requires |ts| > 1
    ensures Balance(c, ts, dt)
            == Balance(c, ts[..|ts| - 1], dt) + (if Delivered(ts[|ts| - 2], ts[|ts| - 1]) then c.dropoffBonus else 0.0)
              - dt
  {
    SpanGrows(|ts| - 2, dt);
    SpanGrows(Fares(ts[..|ts| - 1]), c.dropoffBonus);
  }

  /** Through every prefix of the run the clock has not run out. */
  ghost predicate AlwaysTime(c: Config, ts: seq<Taxi>, dt: real) {
    forall n {:trigger ts[..n]} :: 1 <= n <= |ts| ==> Balance(c, ts[..n], dt) > 0.0
  }

  lemma {:induction false} AlwaysTimeSteps(c: Config, ts: seq<Taxi>, dt: real)
    requires |ts| > 1
    ensures AlwaysTime(c, ts, dt) <==> AlwaysTime(c, ts[..|ts| - 1], dt) && Balance(c, ts, dt) > 0.0
  {
    var init := ts[..|ts| - 1];
    assert ts[..|ts|] == ts;
    forall n | 1 <= n <= |init| ensures init[..n] == ts[..n] {
    }
    if AlwaysTime(c, ts, dt) {
      forall n | 1 <= n <= |init| ensures Balance(c, init[..n], dt) > 0.0 {
        assert init[..n] == ts[..n];
      }
    }
    if AlwaysTime(c, init, dt) && Balance(c, ts, dt) > 0.0 {
      forall n | 1 <= n <= |ts| ensures Balance(c, ts[..n], dt) > 0.0 {
        if n < |ts| {
          assert init[..n] == ts[..n];
        }
      }
    }
  }

  /**
   * A game goes on exactly while the clock has never run out, and then the clock shows the time it began with, plus a
   * bonus for each fare, minus the frames; afterwards it shows nothing.
   */
  lemma {:induction false} ClockLedger(c: Config, town: Town, poses: seq<Pose>, dt: real, board: seq<ScoreEntry>,
                                       limit: nat, ts: seq<Taxi>)
    requires Trace(c, town, poses, dt, board, limit, ts) && IsNew(c, ts[0])
    ensures ts[|ts| - 1].session == Playing <==> AlwaysTime(c, ts, dt)
    ensures ts[|ts| - 1].global == if AlwaysTime(c, ts, dt) then Balance(c, ts, dt) else 0.0
  {
    if poses == [] {
      assert ts[..1] == ts;
      assert Balance(c, ts, dt) == c.globalTime;
    } else {
      var init := ts[..|ts| - 1];
      assert init[|init| - 1] == ts[|ts| - 2];
      ClockLedger(c, town, poses[..|poses| - 1], dt, board, limit, init);
      FrameLedger(c, town, ts[|ts| - 2], poses[|poses| - 1], dt, board, limit);
      AlwaysTimeSteps(c, ts, dt);
      BalanceSteps(c, ts, dt);
    }
  }

  /** After the end no pose changes anything. */
  lemma {:induction false} EndIsFrozen(c: Config, town: Town, poses: seq<Pose>, dt: real, board: seq<ScoreEntry>,
                                       limit: nat, ts: seq<Taxi>, i: nat, j: nat)
    requires Trace(c, town, poses, dt, board, limit, ts) && i <= j < |ts| && ts[i].session != Playing
    ensures ts[j] == ts[i]
    decreases j
  {
    if i < j {
      assert Stepped(c, town, poses[j - 1], dt, board, limit, ts, j - 1);
      EndIsFrozen(c, town, poses, dt, board, limit, ts, i, j - 1);
    }
  }

  /** The frames from `i` to `j` all belong to one fare of a game still on. */
  ghost predicate OneFare(ts: seq<Taxi>, i: nat, j: nat) {
    i <= j < |ts| && forall k :: i <= k <= j ==> ts[k].phase == ToDropoff && (k < j ==> ts[k].session == Playing)
  }

  /** One frame inside a fare. */
  lemma {:induction false} FareFrame(c: Config, town: Town, a: Taxi, p: Pose, dt: real, board: seq<ScoreEntry>,
                                     limit: nat)
    requires c.Valid() && town.Valid() && p.Valid(town) && Inv(c, town, a) && dt >= 0.0
    requires a.session == Playing && a.phase == ToDropoff
    ensures var b := Framed(c, town, a, p, dt, board, limit).0;
            b.phase == ToDropoff ==>
              b.target == a.target && b.remaining == Some(a.remaining.value - dt) && b.remaining.value > 0.0
    ensures var b := Framed(c, town, a, p, dt, board, limit).0;
            b.phase == SeekingPickup <==> p.distance[a.target] <= c.dropoffRadius || a.remaining.value <= dt
    ensures var b := Framed(c, town, a, p, dt, board, limit).0;
            b.event == Some(FareComplete) && b.phase == SeekingPickup <==> p.distance[a.target] <= c.dropoffRadius
  {
  }

  /** Every state of a run satisfies the invariant. */
  lemma {:induction false} RunsKeep(c: Config, town: Town, poses: seq<Pose>, dt: real, board: seq<ScoreEntry>,
                                    limit: nat, ts: seq<Taxi>, i: nat)
    requires Trace(c, town, poses, dt, board, limit, ts) && i < |ts|
    ensures Inv(c, town, ts[i])
  {
    if i < |poses| {
      assert Stepped(c, town, poses[i], dt, board, limit, ts, i);
    } else if i > 0 {
      assert Stepped(c, town, poses[i - 1], dt, board, limit, ts, i - 1);
      FramedKeeps(c, town, ts[i - 1], poses[i - 1], dt, board, limit);
    }
  }

  /** During a fare the target stays and the fare clock falls by exactly one frame per frame. */
  lemma {:induction false} FareClock(c: Config, town: Town, poses: seq<Pose>, dt: real, board: seq<ScoreEntry>,
                                     limit: nat, ts: seq<Taxi>, i: nat, j: nat)
    requires Trace(c, town, poses, dt, board, limit, ts) && OneFare(ts, i, j)
    ensures ts[i].remaining.Some? && ts[j].target == ts[i].target
    ensures ts[j].remaining == Some(ts[i].remaining.value - Span(j - i, dt))
    decreases j
  {
    if i == j {
      RunsKeep(c, town, poses, dt, board, limit, ts, i);
    } else {
      FareClock(c, town, poses, dt, board, limit, ts, i, j - 1);
      assert Stepped(c, town, poses[j - 1], dt, board, limit, ts, j - 1);
      FareFrame(c, town, ts[j - 1], poses[j - 1], dt, board, limit);
      SpanGrows(j - 1 - i, dt);
    }
  }

  /** The ride a pose offers: from the pickup it collects, over a route of its sources. */
  ghost function Offered(c: Config, a: Taxi, p: Pose): Option<Ride> {
    if !InRange(a.available, p.distance) then None
    else
      match Collected(c, a.available, p.distance)
      case None => None
      case Some(pickup) => SelectDropoff(c, p.fareSources, pickup, p.draw)
  }

  /** A fare begins with the ride offered: to its end, by its deadline. */
  lemma {:induction false} FareBegins(c: Config, town: Town, a: Taxi, p: Pose, dt: real, board: seq<ScoreEntry>,
                                      limit: nat)
    requires c.Valid() && town.Valid() && p.Valid(town) && Inv(c, town, a) && dt >= 0.0
    requires a.phase == SeekingPickup && Framed(c, town, a, p, dt, board, limit).1
    requires Framed(c, town, a, p, dt, board, limit).0.phase == ToDropoff
    ensures var b := Framed(c, town, a, p, dt, board, limit).0;
            var ride := Offered(c, a, p);
            ride.Some? && b.target == ride.value.to && b.remaining == Some(Deadline(c, ride.value.distance))
  {
  }

  /** The frame after which the fare under way at frame `m` had begun. */
  function FareStart(ts: seq<Taxi>, m: nat): (i: nat)
    requires m < |ts|
    ensures i <= m
  {
    if m == 0 || ts[m - 1].phase == SeekingPickup then m else FareStart(ts, m - 1)
  }

  lemma {:induction false} FareStartIs(c: Config, town: Town, poses: seq<Pose>, dt: real, board: seq<ScoreEntry>,
                                       limit: nat, ts: seq<Taxi>, m: nat)
    requires Trace(c, town, poses, dt, board, limit, ts) && ts[0].phase == SeekingPickup
    requires m < |ts| && ts[m].phase == ToDropoff && ts[m].session == Playing
    ensures var i := FareStart(ts, m); i > 0 && ts[i - 1].phase == SeekingPickup && OneFare(ts, i, m)
    decreases m
  {
    if ts[m - 1].phase == ToDropoff {
      assert Stepped(c, town, poses[m - 1], dt, board, limit, ts, m - 1);
      assert ts[m - 1].session == Playing;
      FareStartIs(c, town, poses, dt, board, limit, ts, m - 1);
    }
  }

  /** What is left of a fare when it is delivered. */
  lemma {:induction false} FareLeft(c: Config, town: Town, poses: seq<Pose>, dt: real, board: seq<ScoreEntry>,
                                    limit: nat, ts: seq<Taxi>, m: nat)
    requires Trace(c, town, poses, dt, board, limit, ts) && ts[0].phase == SeekingPickup
    requires m < |ts| && ts[m].phase == ToDropoff && ts[m].session == Playing
    ensures var i := FareStart(ts, m);
            0 < i && var ride := Offered(c, ts[i - 1], poses[i - 1]);
            ride.Some? && ts[m].target == ride.value.to
            && ts[m].remaining == Some(Deadline(c, ride.value.distance) - Span(m - i, dt))
  {
    var i := FareStart(ts, m);
    FareStartIs(c, town, poses, dt, board, limit, ts, m);
    assert Stepped(c, town, poses[i - 1], dt, board, limit, ts, i - 1);
    FareBegins(c, town, ts[i - 1], poses[i - 1], dt, board, limit);
    FareClock(c, town, poses, dt, board, limit, ts, i, m);
  }

  lemma {:induction false} DeliveryPays(c: Config, town: Town, poses: seq<Pose>, dt: real, board: seq<ScoreEntry>,
                                        limit: nat, ts: seq<Taxi>, m: nat)
    requires Trace(c, town, poses, dt, board, limit, ts) && m < |poses| && Delivered(ts[m], ts[m + 1])
    ensures ts[m + 1].awarded == Pay(c, ts[m])
  {
    assert Stepped(c, town, poses[m], dt, board, limit, ts, m);
    FrameLedger(c, town, ts[m], poses[m], dt, board, limit);
  }

  /**
   * A fare delivered `n` frames after it began pays its base and a bonus for each whole second that `n` frames leave of
   * the deadline of its ride.
   */
  lemma {:induction false} FarePays(c: Config, town: Town, poses: seq<Pose>, dt: real, board: seq<ScoreEntry>,
                                    limit: nat, ts: seq<Taxi>, m: nat)
    requires Trace(c, town, poses, dt, board, limit, ts) && ts[0].phase == SeekingPickup
    requires m < |poses| && Delivered(ts[m], ts[m + 1])
    ensures var i := FareStart(ts, m);
            0 < i && var ride := Offered(c, ts[i - 1], poses[i - 1]);
            ride.Some? && ts[m].target == ride.value.to
            && ts[m + 1].awarded
               == c.basePoints + (Deadline(c, ride.value.distance) - Span(m - i, dt)).Floor * c.bonusPerSecond
  {
    FareLeft(c, town, poses, dt, board, limit, ts, m);
    DeliveryPays(c, town, poses, dt, board, limit, ts, m);
  }

  /** So no fare outlasts the longest deadline. */
  lemma {:induction false} FareIsBounded(c: Config, town: Town, poses: seq<Pose>, dt: real, board: seq<ScoreEntry>,
                                         limit: nat, ts: seq<Taxi>, i: nat, j: nat)
    requires Trace(c, town, poses, dt, board, limit, ts) && OneFare(ts, i, j)
    ensures Span(j - i, dt) <= Longest(c)
  {
    FareClock(c, town, poses, dt, board, limit, ts, i, j);
    RunsKeep(c, town, poses, dt, board, limit, ts, i);
    RunsKeep(c, town, poses, dt, board, limit, ts, j);
  }
}

/** The race controller: ordered gates, laps and the swept test that lets one pose cross several gates. */
module Race {
  import opened Prelude
  import opened Text
  import opened Ranking
  import opened Leaderboards

  /** Least spacing along the swept path between two gates credited in one pose. */
  const STEP: real := 0.000001

  datatype Course = Course(mapId: string, courseId: string, start: string, checkpoints: seq<string>, lapCount: nat) {
    /** A loaded course has at least one checkpoint and stripped identifiers. */
    ghost predicate Valid() { checkpoints != [] && ScopeId(mapId) == Ok(mapId) && ScopeId(courseId) == Ok(courseId) }
  }

  /**
   * One pose: the length of the straight move that led to it, whether the move heads forward through each gate, the
   * distances at which it meets each gate, and whether it ends on the gate.
   */
  datatype Pose =
    Pose(timestamp: int, length: real, forward: set<string>, crossings: map<string, seq<real>>, endsOn: set<string>) {
    ghost predicate Valid() {
      length >= 0.0 && forall g :: g in crossings ==> forall d :: d in crossings[g] ==> 0.0 <= d <= length
    }
  }

  datatype Session = AwaitingStart | Racing | AwaitingName | ShowingLeaderboard

  datatype Target = StartGate | CheckpointGate

  datatype Event = RaceStarted | CheckpointPassed | LapComplete | RaceComplete

  datatype Race = Race(session: Session, target: Target, index: nat, laps: nat, startTime: Option<int>,
                       elapsed: int, final: Option<int>, rank: Option<nat>, event: Option<Event>)

  const UNSTARTED := Race(AwaitingStart, StartGate, 0, 0, None, 0, None, None, None)

  predicate Playing(r: Race) { r.session == AwaitingStart || r.session == Racing }

  // ---------- one gate ----------

  function Finished(r: Race, timestamp: int, board: seq<RaceEntry>, limit: nat): Race
    requires r.startTime.Some?
  {
    var raw := timestamp - r.startTime.value;
    var elapsed := if raw > 1 then raw else 1;
    var rank := Prospective(board, elapsed, limit, RaceKey);
    r.(elapsed := elapsed, final := Some(elapsed), rank := rank, event := Some(RaceComplete),
       session := if rank.Some? then AwaitingName else ShowingLeaderboard)
  }

  /** The state after crossing the active gate. */
  function Crossed(c: Course, r: Race, timestamp: int, board: seq<RaceEntry>, limit: nat): Race
    requires r.session == Racing ==> r.startTime.Some?
  {
    if r.session == AwaitingStart then
      r.(startTime := Some(timestamp), elapsed := 0, session := Racing, target := CheckpointGate,
         event := Some(RaceStarted))
    else if r.session != Racing then r
    else if r.target == StartGate then
      var lapped := r.(laps := r.laps + 1);
      if lapped.laps >= c.lapCount then Finished(lapped, timestamp, board, limit)
      else lapped.(target := CheckpointGate, index := 0, event := Some(LapComplete))
    else if r.index + 1 < |c.checkpoints| then r.(index := r.index + 1, event := Some(CheckpointPassed))
    else if c.lapCount == 0 then Finished(r, timestamp, board, limit)
    else r.(target := StartGate, event := Some(CheckpointPassed))
  }

  /** The element whose gate is active. */
  function TargetOf(c: Course, r: Race): string
    requires r.target == CheckpointGate ==> r.index < |c.checkpoints|
  {
    if r.target == StartGate then c.start else c.checkpoints[r.index]
  }

  /** Every reachable race: a valid target, laps in range, and a clock that runs exactly while it should. */
  ghost predicate Inv(c: Course, r: Race) {
    && c.Valid()
    && r.index < |c.checkpoints|
    && (r.session == AwaitingStart ==>
        r.target == StartGate && r.index == 0 && r.laps == 0 && r.startTime == None && r.final == None)
    && (r.session == Racing ==>
          && r.startTime.Some? && r.final == None
          && (if c.lapCount == 0 then r.target == CheckpointGate && r.laps == 0 else r.laps < c.lapCount)
          && (r.target == StartGate ==> r.index == |c.checkpoints| - 1))
    && (!Playing(r) ==> r.startTime.Some? && r.final == Some(r.elapsed) && r.elapsed >= 1)
  }

  // ---------- the course as a list of gates ----------

  /** Gates of that many laps, each of them `m` gates long. */
  function LapGates(laps: nat, m: nat): nat {
    if laps == 0 then 0 else LapGates(laps - 1, m) + m
  }

  /** Gates that make a full race. */
  function TotalGates(c: Course): nat {
    if c.lapCount == 0 then 1 + |c.checkpoints| else 1 + LapGates(c.lapCount, |c.checkpoints| + 1)
  }

  lemma {:induction false} LapGatesIsProduct(laps: nat, m: nat)
    ensures LapGates(laps, m) == laps * m
  {
    if laps > 0 {
      LapGatesIsProduct(laps - 1, m);
      assert (laps - 1) * m + m == laps * m;
    }
  }

  /** One lap-less pass of the course, or every lap back to the start. */
  lemma {:induction false} TotalGatesIs(c: Course)
    ensures TotalGates(c) == 1 + if c.lapCount == 0 then |c.checkpoints| else c.lapCount * (|c.checkpoints| + 1)
  {
    LapGatesIsProduct(c.lapCount, |c.checkpoints| + 1);
  }

  /** The `k`-th gate of the race: the start, then per lap every checkpoint in order and the start again. */
  function GateAt(c: Course, k: nat): string
    requires c.checkpoints != []
  {
    if k == 0 || k == |c.checkpoints| + 1 then c.start
    else if k <= |c.checkpoints| then c.checkpoints[k - 1]
    else GateAt(c, k - (|c.checkpoints| + 1))
  }

  /** Gates credited so far. */
  function GatesPassed(c: Course, r: Race): nat {
    match r.session
    case AwaitingStart => 0
    case Racing =>
      1 + LapGates(r.laps, |c.checkpoints| + 1) + (if r.target == CheckpointGate then r.index else |c.checkpoints|)
    case _ => TotalGates(c)
  }

  /** Every lap repeats the gates after the first. */
  lemma {:induction false} GateInLap(c: Course, laps: nat, i: nat)
    requires c.checkpoints != [] && i <= |c.checkpoints|
    ensures GateAt(c, 1 + LapGates(laps, |c.checkpoints| + 1) + i) == GateAt(c, 1 + i)
    decreases laps
  {
    if laps > 0 {
      GateInLap(c, laps - 1, i);
    }
  }

  lemma {:induction false} FewerLaps(laps: nat, count: nat, m: nat)
    requires laps < count
    ensures LapGates(laps, m) + m <= LapGates(count, m)
    decreases count
  {
    if laps < count - 1 {
      FewerLaps(laps, count - 1, m);
    }
  }

  /** The active gate is the next one of the course, and there is one. */
  lemma {:induction false} TargetIsNext(c: Course, r: Race)
    requires Inv(c, r) && Playing(r)
    ensures TargetOf(c, r) == GateAt(c, GatesPassed(c, r))
    ensures GatesPassed(c, r) < TotalGates(c)
  {
    var n := |c.checkpoints|;
    if r.session == Racing {
      GateInLap(c, r.laps, if r.target == CheckpointGate then r.index else n);
      if c.lapCount > 0 {
        FewerLaps(r.laps, c.lapCount, n + 1);
      }
    }
  }

  /** Crossing credits exactly one gate, and ends the race exactly when it was the last. */
  lemma {:induction false} CrossedCredits(c: Course, r: Race, timestamp: int, board: seq<RaceEntry>, limit: nat)
    requires Inv(c, r) && Playing(r)
    ensures var s := Crossed(c, r, timestamp, board, limit);
            && Inv(c, s)
            && GatesPassed(c, s) == GatesPassed(c, r) + 1
            && (Playing(s) <==> GatesPassed(c, s) < TotalGates(c))
  {
    var n := |c.checkpoints|;
    var s := Crossed(c, r, timestamp, board, limit);
    if r.session == Racing {
      if c.lapCount > 0 {
        FewerLaps(r.laps, c.lapCount, n + 1);
        if r.laps + 1 < c.lapCount {
          FewerLaps(r.laps + 1, c.lapCount, n + 1);
        } else {
          assert r.laps + 1 == c.lapCount;
        }
      }
    } else if c.lapCount > 0 {
      FewerLaps(0, c.lapCount, n + 1);
    }
  }

  // ---------- the swept test ----------

  /** Least element at or beyond a bound. */
  function LeastFrom(distances: seq<real>, least: real): (r: Option<real>)
    ensures r.Some? ==> r.value in distances && r.value >= least
    ensures forall d :: d in distances && d >= least ==> r.Some? && r.value <= d
  {
    if distances == [] then None
    else
      var init, last := distances[..|distances| - 1], distances[|distances| - 1];
      assert distances == init + [last];
      var best := LeastFrom(init, least);
      if last >= least && (best.None? || last < best.value) then Some(last) else best
  }

  /** Where the move first crosses a gate forward, at or beyond `least`. */
  function FirstGateHit(p: Pose, gate: string, least: real): Option<real> {
    if gate !in p.forward then None
    else
      LeastFrom((if gate in p.crossings then p.crossings[gate] else [])
                + (if gate in p.endsOn then [p.length] else []), least)
  }

  lemma {:induction false} HitInRange(p: Pose, gate: string, least: real)
    requires p.Valid()
    ensures FirstGateHit(p, gate, least).Some? ==> least <= FirstGateHit(p, gate, least).value <= p.length
  {
  }

  /** One credited gate: its element, when, and how far along the move. */
  datatype Credit = Credit(gate: string, timestamp: int, distance: real)

  /** The state after the rest of a move, and the gates it credits. */
  ghost function Sweep(c: Course, r: Race, p: Pose, board: seq<RaceEntry>, limit: nat, least: real): (Race, seq<Credit>)
    requires Inv(c, r)
    decreases TotalGates(c) - GatesPassed(c, r)
  {
    if !Playing(r) then (r, [])
    else
      var gate := TargetOf(c, r);
      match FirstGateHit(p, gate, least)
      case None => (r, [])
      case Some(d) =>
        TargetIsNext(c, r);
        CrossedCredits(c, r, p.timestamp, board, limit);
        var rest := Sweep(c, Crossed(c, r, p.timestamp, board, limit), p, board, limit, d + STEP);
        (rest.0, [Credit(gate, p.timestamp, d)] + rest.1)
  }

  /** Bookkeeping at the start of a pose. */
  function Ticked(r: Race, timestamp: int): Race {
    var cleared := r.(event := None);
    if r.startTime.Some? then
      cleared.(elapsed := if timestamp - r.startTime.value > 0 then timestamp - r.startTime.value else 0)
    else cleared
  }

  ghost function Advanced(c: Course, r: Race, p: Pose, board: seq<RaceEntry>, limit: nat): (Race, seq<Credit>)
    requires Inv(c, r)
  {
    if Playing(r) then Sweep(c, Ticked(r, p.timestamp), p, board, limit, 0.0) else (r, [])
  }

  /** A crossing leads to a state one gate further along the course. */
  lemma {:induction false} HitAdvances(c: Course, r: Race, timestamp: int, board: seq<RaceEntry>, limit: nat)
    requires Inv(c, r) && Playing(r)
    ensures var next := Crossed(c, r, timestamp, board, limit);
            && Inv(c, next)
            && GatesPassed(c, next) == GatesPassed(c, r) + 1 <= TotalGates(c)
            && TargetOf(c, r) == GateAt(c, GatesPassed(c, r))
  {
    TargetIsNext(c, r);
    CrossedCredits(c, r, timestamp, board, limit);
  }

  /** A hit credits the active gate and sweeps on from the next state. */
  lemma {:induction false} SweepUnfolds(c: Course, r: Race, next: Race, p: Pose, board: seq<RaceEntry>, limit: nat,
                                        least: real, d: real)
    requires Inv(c, r) && Inv(c, next) && Playing(r) && next == Crossed(c, r, p.timestamp, board, limit)
    requires FirstGateHit(p, TargetOf(c, r), least) == Some(d)
    ensures var rest := Sweep(c, next, p, board, limit, d + STEP);
            Sweep(c, r, p, board, limit, least) == (rest.0, [Credit(TargetOf(c, r), p.timestamp, d)] + rest.1)
  {
  }

  /** Without a further hit, or once the race is over, the sweep ends. */
  lemma {:induction false} SweepStops(c: Course, r: Race, p: Pose, board: seq<RaceEntry>, limit: nat, least: real)
    requires Inv(c, r) && (!Playing(r) || FirstGateHit(p, TargetOf(c, r), least).None?)
    ensures Sweep(c, r, p, board, limit, least) == (r, [])
  {
  }

  /** One look for the active gate: either the sweep is over, or it goes on from a state further along the course. */
  ghost predicate Continues(c: Course, r: Race, next: Race, p: Pose, board: seq<RaceEntry>, limit: nat, least: real,
                            hit: Option<real>)
    requires Inv(c, r) && Inv(c, next)
  {
    match hit
    case None => next == r && Sweep(c, r, p, board, limit, least).0 == r
    case Some(d) =>
      && Sweep(c, r, p, board, limit, least).0 == Sweep(c, next, p, board, limit, d + STEP).0
      && GatesPassed(c, r) < GatesPassed(c, next) <= TotalGates(c)
  }

  lemma {:induction false} SweepOnce(c: Course, r: Race, p: Pose, board: seq<RaceEntry>, limit: nat, least: real)
    requires Inv(c, r) && Playing(r)
    ensures var hit := FirstGateHit(p, TargetOf(c, r), least);
            var next := if hit.None? then r else Crossed(c, r, p.timestamp, board, limit);
            Inv(c, next) && Continues(c, r, next, p, board, limit, least, hit)
  {
    if FirstGateHit(p, TargetOf(c, r), least).Some? {
      var next := Crossed(c, r, p.timestamp, board, limit);
      HitAdvances(c, r, p.timestamp, board, limit);
      SweepUnfolds(c, r, next, p, board, limit, least, FirstGateHit(p, TargetOf(c, r), least).value);
    } else {
      SweepStops(c, r, p, board, limit, least);
    }
  }

  /** The credits of a sweep follow the course from this gate on. */
  ghost predicate FollowCourse(c: Course, first: nat, timestamp: int, credits: seq<Credit>)
    requires c.Valid()
  {
    forall i :: 0 <= i < |credits| ==> credits[i].gate == GateAt(c, first + i) && credits[i].timestamp == timestamp
  }

  lemma {:induction false} FollowCons(c: Course, first: nat, credit: Credit, rest: seq<Credit>)
    requires c.Valid() && credit.gate == GateAt(c, first) && FollowCourse(c, first + 1, credit.timestamp, rest)
    ensures FollowCourse(c, first, credit.timestamp, [credit] + rest)
  {
    var credits := [credit] + rest;
    forall i | 0 <= i < |credits|
      ensures credits[i].gate == GateAt(c, first + i) && credits[i].timestamp == credit.timestamp
    {
      if i > 0 {
        assert credits[i] == rest[i - 1] && first + 1 + (i - 1) == first + i;
      }
    }
  }

  /** A sweep from `r` keeps the invariant, and its credits follow the course from where the race stood. */
  ghost predicate Follows(c: Course, r: Race, timestamp: int, result: (Race, seq<Credit>))
    requires Inv(c, r)
  {
    && Inv(c, result.0)
    && GatesPassed(c, result.0) == GatesPassed(c, r) + |result.1|
    && FollowCourse(c, GatesPassed(c, r), timestamp, result.1)
  }

  lemma {:induction false} FollowsStep(c: Course, r: Race, next: Race, credit: Credit, rest: (Race, seq<Credit>))
    requires Inv(c, r) && Inv(c, next) && GatesPassed(c, next) == GatesPassed(c, r) + 1
    requires credit.gate == GateAt(c, GatesPassed(c, r)) && Follows(c, next, credit.timestamp, rest)
    ensures Follows(c, r, credit.timestamp, (rest.0, [credit] + rest.1))
  {
    FollowCons(c, GatesPassed(c, r), credit, rest.1);
  }

  /** Credits follow the course from where the race stood, and the race ends exactly with its last gate. */
  lemma {:induction false} SweepFollowsCourse(c: Course, r: Race, p: Pose, board: seq<RaceEntry>, limit: nat,
                                              least: real)
    requires Inv(c, r)
    ensures Follows(c, r, p.timestamp, Sweep(c, r, p, board, limit, least))
    decreases TotalGates(c) - GatesPassed(c, r)
  {
    if Playing(r) && FirstGateHit(p, TargetOf(c, r), least).Some? {
      var d := FirstGateHit(p, TargetOf(c, r), least).value;
      var next := Crossed(c, r, p.timestamp, board, limit);
      HitAdvances(c, r, p.timestamp, board, limit);
      SweepUnfolds(c, r, next, p, board, limit, least, d);
      SweepFollowsCourse(c, next, p, board, limit, d + STEP);
      FollowsStep(c, r, next, Credit(TargetOf(c, r), p.timestamp, d), Sweep(c, next, p, board, limit, d + STEP));
    } else {
      SweepStops(c, r, p, board, limit, least);
    }
  }

  /** Credits on the move from `least` on, each at least STEP beyond the one before. */
  ghost predicate Spaced(credits: seq<Credit>, least: real, length: real) {
    && (forall i :: 0 <= i < |credits| ==> least <= credits[i].distance <= length)
    && (forall i, j :: 0 <= i < j < |credits| && j == i + 1 ==> credits[i].distance + STEP <= credits[j].distance)
    && (credits != [] ==> (|credits| - 1) as real * STEP <= length - least)
  }

  lemma {:induction false} SpacedCons(credit: Credit, rest: seq<Credit>, least: real, length: real)
    requires least <= credit.distance <= length && Spaced(rest, credit.distance + STEP, length)
    ensures Spaced([credit] + rest, least, length)
  {
    var credits := [credit] + rest;
    assert forall i :: 1 <= i < |credits| ==> credits[i] == rest[i - 1];
    if rest != [] {
      assert (|credits| - 1) as real * STEP == (|rest| - 1) as real * STEP + STEP;
    }
  }

  /** Gates credited in one pose lie on the move, each at least STEP beyond the one before. */
  lemma {:induction false} SweepAdvances(c: Course, r: Race, p: Pose, board: seq<RaceEntry>, limit: nat, least: real)
    requires Inv(c, r) && p.Valid()
    ensures Spaced(Sweep(c, r, p, board, limit, least).1, least, p.length)
    decreases TotalGates(c) - GatesPassed(c, r)
  {
    if Playing(r) && FirstGateHit(p, TargetOf(c, r), least).Some? {
      var d := FirstGateHit(p, TargetOf(c, r), least).value;
      var next := Crossed(c, r, p.timestamp, board, limit);
      HitInRange(p, TargetOf(c, r), least);
      HitAdvances(c, r, p.timestamp, board, limit);
      SweepUnfolds(c, r, next, p, board, limit, least, d);
      SweepAdvances(c, next, p, board, limit, d + STEP);
      SpacedCons(Credit(TargetOf(c, r), p.timestamp, d), Sweep(c, next, p, board, limit, d + STEP).1, least, p.length);
    } else {
      SweepStops(c, r, p, board, limit, least);
    }
  }

  // ---------- which gates a move is credited with ----------

  /** The move goes forward through the gate and meets it, or ends on it, at that distance. */
  ghost predicate Meets(p: Pose, gate: string, d: real) {
    gate in p.forward && ((gate in p.crossings && d in p.crossings[gate]) || (gate in p.endsOn && d == p.length))
  }

  ghost predicate FirstMeeting(p: Pose, gate: string, from: real, d: real) {
    Meets(p, gate, d) && from <= d && forall e :: Meets(p, gate, e) && from <= e ==> d <= e
  }

  ghost predicate MetBefore(p: Pose, gate: string, bound: real) {
    forall d :: Meets(p, gate, d) ==> d < bound
  }

  /**
   * Each credit is for the next gate of the course, where the move first meets it at or beyond `from`, and the next one
   * is looked for STEP further on; the gate after the last credit, if the course has one, is not met any more.
   */
  ghost predicate Accounts(c: Course, next: nat, p: Pose, from: real, credits: seq<Credit>)
    requires c.Valid()
    decreases |credits|
  {
    if credits == [] then next < TotalGates(c) ==> MetBefore(p, GateAt(c, next), from)
    else
      && next < TotalGates(c) && credits[0].gate == GateAt(c, next)
      && FirstMeeting(p, GateAt(c, next), from, credits[0].distance)
      && Accounts(c, next + 1, p, credits[0].distance + STEP, credits[1..])
  }

  lemma {:induction false} HitIsFirstMeeting(p: Pose, gate: string, least: real)
    ensures match FirstGateHit(p, gate, least)
            case Some(d) => FirstMeeting(p, gate, least, d)
            case None => MetBefore(p, gate, least)
  {
    var met := if gate in p.crossings then p.crossings[gate] else [];
    var ends := if gate in p.endsOn then [p.length] else [];
    forall d ensures Meets(p, gate, d) <==> gate in p.forward && d in met + ends {
    }
  }

  lemma {:induction false} SweepAccounts(c: Course, r: Race, p: Pose, board: seq<RaceEntry>, limit: nat, least: real)
    requires Inv(c, r)
    ensures Accounts(c, GatesPassed(c, r), p, least, Sweep(c, r, p, board, limit, least).1)
    decreases TotalGates(c) - GatesPassed(c, r)
  {
    if Playing(r) {
      TargetIsNext(c, r);
      HitIsFirstMeeting(p, TargetOf(c, r), least);
    }
    if Playing(r) && FirstGateHit(p, TargetOf(c, r), least).Some? {
      var d := FirstGateHit(p, TargetOf(c, r), least).value;
      var next := Crossed(c, r, p.timestamp, board, limit);
      HitAdvances(c, r, p.timestamp, board, limit);
      SweepUnfolds(c, r, next, p, board, limit, least, d);
      SweepAccounts(c, next, p, board, limit, d + STEP);
      assert Sweep(c, r, p, board, limit, least).1[1..] == Sweep(c, next, p, board, limit, d + STEP).1;
    } else {
      SweepStops(c, r, p, board, limit, least);
    }
  }

  /** A pose is credited with exactly the gates of the course its move meets going forward, one after the other. */
  lemma {:induction false} PoseCredits(c: Course, r: Race, p: Pose, board: seq<RaceEntry>, limit: nat)
    requires Inv(c, r)
    ensures Accounts(c, GatesPassed(c, r), p, 0.0, Advanced(c, r, p, board, limit).1)
  {
    if Playing(r) {
      SweepAccounts(c, Ticked(r, p.timestamp), p, board, limit, 0.0);
    }
  }

  /** So a pose is credited with some gate exactly when its move meets the active one going forward. */
  lemma {:induction false} CreditIffMeeting(c: Course, r: Race, p: Pose, board: seq<RaceEntry>, limit: nat)
    requires Inv(c, r) && Playing(r) && p.Valid()
    ensures Advanced(c, r, p, board, limit).1 != [] <==>
            var gate := GateAt(c, GatesPassed(c, r));
            gate in p.forward && ((gate in p.crossings && p.crossings[gate] != []) || gate in p.endsOn)
  {
    PoseCredits(c, r, p, board, limit);
    TargetIsNext(c, r);
    var gate := GateAt(c, GatesPassed(c, r));
    MeetsSomewhere(p, gate);
    assert Advanced(c, r, p, board, limit).1 == [] ==> MetBefore(p, gate, 0.0);
  }

  lemma {:induction false} MeetsSomewhere(p: Pose, gate: string)
    ensures (exists d :: Meets(p, gate, d))
            <==> gate in p.forward && ((gate in p.crossings && p.crossings[gate] != []) || gate in p.endsOn)
  {
    if gate in p.forward && gate in p.crossings && p.crossings[gate] != [] {
      assert Meets(p, gate, p.crossings[gate][0]);
    }
    assert gate in p.forward && gate in p.endsOn ==> Meets(p, gate, p.length);
  }

  /** A pose without a credit only moves the clock on, which does not run backwards past the start. */
  lemma {:induction false} PoseWithoutCredit(c: Course, r: Race, p: Pose, board: seq<RaceEntry>, limit: nat)
    requires Inv(c, r) && Playing(r) && Advanced(c, r, p, board, limit).1 == []
    ensures Advanced(c, r, p, board, limit).0
            == r.(event := None, elapsed := match r.startTime
                                            case None => r.elapsed
                                            case Some(start) => if p.timestamp > start then p.timestamp - start else 0)
  {
    var t := Ticked(r, p.timestamp);
    if FirstGateHit(p, TargetOf(c, t), 0.0).None? {
      SweepStops(c, t, p, board, limit, 0.0);
    }
  }

  /** So many gates after the first are whole laps. */
  ghost predicate EndsLap(k: nat, m: nat) {
    exists lap: nat :: k == LapGates(lap, m)
  }

  /** What crossing the active gate announces. */
  lemma {:induction false} CrossedAnnounces(c: Course, r: Race, timestamp: int, board: seq<RaceEntry>, limit: nat)
    requires Inv(c, r) && Playing(r)
    ensures Crossed(c, r, timestamp, board, limit).event
            == Some(if GatesPassed(c, r) + 1 == TotalGates(c) then RaceComplete
                    else if GatesPassed(c, r) == 0 then RaceStarted
                    else if EndsLap(GatesPassed(c, r), |c.checkpoints| + 1) then LapComplete
                    else CheckpointPassed)
  {
    CrossedCredits(c, r, timestamp, board, limit);
    var n := |c.checkpoints|;
    if r.session == Racing {
      if r.target == StartGate {
        assert GatesPassed(c, r) == LapGates(r.laps + 1, n + 1);
      } else {
        MidLap(r.laps, 1 + r.index, n + 1);
      }
    }
  }

  lemma {:induction false} MidLap(laps: nat, i: nat, m: nat)
    requires 0 < i < m
    ensures !EndsLap(LapGates(laps, m) + i, m)
  {
    if EndsLap(LapGates(laps, m) + i, m) {
      var lap: nat :| LapGates(laps, m) + i == LapGates(lap, m);
      if lap <= laps {
        LapsGrow(lap, laps, m);
      } else {
        LapsGrow(laps + 1, lap, m);
      }
    }
  }

  lemma {:induction false} LapsGrow(a: nat, b: nat, m: nat)
    requires a <= b
    ensures LapGates(a, m) <= LapGates(b, m)
    decreases b
  {
    if a < b {
      LapsGrow(a, b - 1, m);
    }
  }

  // ---------- whole races ----------

  /** The race after a stream of poses, and every gate credited on the way. */
  ghost function Raced(c: Course, poses: seq<Pose>, board: seq<RaceEntry>, limit: nat): (res: (Race, seq<Credit>))
    requires c.Valid()
    ensures Inv(c, res.0)
  {
    if poses == [] then (UNSTARTED, [])
    else
      var (r, log) := Raced(c, poses[..|poses| - 1], board, limit);
      var p := poses[|poses| - 1];
      AdvancedKeeps(c, r, p, board, limit);
      var (s, credits) := Advanced(c, r, p, board, limit);
      (s, log + credits)
  }

  lemma {:induction false} AdvancedKeeps(c: Course, r: Race, p: Pose, board: seq<RaceEntry>, limit: nat)
    requires Inv(c, r)
    ensures Inv(c, Advanced(c, r, p, board, limit).0)
  {
    if Playing(r) {
      SweepFollowsCourse(c, Ticked(r, p.timestamp), p, board, limit, 0.0);
    }
  }

  /** Race time between two stamps, never less than one. */
  function RaceTime(first: int, last: int): int { if last - first > 1 then last - first else 1 }

  /** Start and finish times are those of the first and last credited gate. */
  ghost predicate Timed(r: Race, log: seq<Credit>) {
    && (r.startTime == if log == [] then None else Some(log[0].timestamp))
    && (r.final.Some? ==> log != [] && r.final.value == RaceTime(log[0].timestamp, log[|log| - 1].timestamp))
  }

  lemma {:induction false} CrossedTimed(c: Course, r: Race, p: Pose, board: seq<RaceEntry>, limit: nat,
                                        log: seq<Credit>, credit: Credit)
    requires Inv(c, r) && Playing(r) && Timed(r, log) && credit.timestamp == p.timestamp
    ensures Timed(Crossed(c, r, p.timestamp, board, limit), log + [credit])
  {
    assert log != [] ==> (log + [credit])[0] == log[0];
  }

  lemma {:induction false} SweepTimes(c: Course, r: Race, p: Pose, board: seq<RaceEntry>, limit: nat, least: real,
                                      log: seq<Credit>)
    requires Inv(c, r) && Timed(r, log)
    ensures Timed(Sweep(c, r, p, board, limit, least).0, log + Sweep(c, r, p, board, limit, least).1)
    decreases TotalGates(c) - GatesPassed(c, r)
  {
    if Playing(r) && FirstGateHit(p, TargetOf(c, r), least).Some? {
      var d := FirstGateHit(p, TargetOf(c, r), least).value;
      var credit := Credit(TargetOf(c, r), p.timestamp, d);
      var next := Crossed(c, r, p.timestamp, board, limit);
      HitAdvances(c, r, p.timestamp, board, limit);
      SweepUnfolds(c, r, next, p, board, limit, least, d);
      CrossedTimed(c, r, p, board, limit, log, credit);
      SweepTimes(c, next, p, board, limit, d + STEP, log + [credit]);
      LogGrows(log, credit, Sweep(c, next, p, board, limit, d + STEP).1);
    } else {
      assert log + [] == log;
    }
  }

  lemma {:induction false} LogGrows(log: seq<Credit>, credit: Credit, rest: seq<Credit>)
    ensures log + ([credit] + rest) == log + [credit] + rest
  {
  }

  /** The log names the gates of the course in order. */
  ghost predicate InCourseOrder(c: Course, log: seq<Credit>)
    requires c.Valid()
  {
    forall i :: 0 <= i < |log| ==> log[i].gate == GateAt(c, i)
  }

  lemma {:induction false} OrderGoesOn(c: Course, log: seq<Credit>, timestamp: int, more: seq<Credit>)
    requires c.Valid() && InCourseOrder(c, log) && FollowCourse(c, |log|, timestamp, more)
    ensures InCourseOrder(c, log + more)
  {
    forall i | 0 <= i < |log + more| ensures (log + more)[i].gate == GateAt(c, i) {
      if i >= |log| {
        assert more[i - |log|].gate == GateAt(c, |log| + (i - |log|));
      }
    }
  }

  /** A log that fits the state: the credited gates in course order, as many as the state counts, with its times. */
  ghost predicate LogFits(c: Course, r: Race, log: seq<Credit>) {
    Inv(c, r) && Timed(r, log) && |log| == GatesPassed(c, r) && InCourseOrder(c, log)
  }

  lemma {:induction false} TickedFits(c: Course, r: Race, timestamp: int, log: seq<Credit>)
    requires LogFits(c, r, log) && Playing(r)
    ensures LogFits(c, Ticked(r, timestamp), log)
  {
  }

  lemma {:induction false} AdvancedFits(c: Course, r: Race, p: Pose, board: seq<RaceEntry>, limit: nat,
                                        log: seq<Credit>)
    requires LogFits(c, r, log)
    ensures LogFits(c, Advanced(c, r, p, board, limit).0, log + Advanced(c, r, p, board, limit).1)
  {
    if Playing(r) {
      var t := Ticked(r, p.timestamp);
      TickedFits(c, r, p.timestamp, log);
      SweepFollowsCourse(c, t, p, board, limit, 0.0);
      SweepTimes(c, t, p, board, limit, 0.0, log);
      OrderGoesOn(c, log, p.timestamp, Sweep(c, t, p, board, limit, 0.0).1);
    } else {
      assert log + [] == log;
    }
  }

  lemma {:induction false} RacedFits(c: Course, poses: seq<Pose>, board: seq<RaceEntry>, limit: nat)
    requires c.Valid()
    ensures LogFits(c, Raced(c, poses, board, limit).0, Raced(c, poses, board, limit).1)
  {
    if poses != [] {
      var init := poses[..|poses| - 1];
      RacedFits(c, init, board, limit);
      var (r, log) := Raced(c, init, board, limit);
      AdvancedFits(c, r, poses[|poses| - 1], board, limit, log);
    }
  }

  /**
   * For every stream of poses the credited gates are a prefix of the course; the race is over exactly when all of
   * them have been credited; and the final time is the time between the first and the last, but at least one.
   */
  lemma {:induction false} RaceFollowsCourse(c: Course, poses: seq<Pose>, board: seq<RaceEntry>, limit: nat)
    requires c.Valid()
    ensures var (r, log) := Raced(c, poses, board, limit);
            && |log| <= TotalGates(c)
            && (forall i :: 0 <= i < |log| ==> log[i].gate == GateAt(c, i))
            && (Playing(r) <==> |log| < TotalGates(c))
            && (r.final == if |log| < TotalGates(c) then None
                           else Some(RaceTime(log[0].timestamp, log[|log| - 1].timestamp)))
  {
    RacedFits(c, poses, board, limit);
    var r := Raced(c, poses, board, limit).0;
    if Playing(r) {
      TargetIsNext(c, r);
    }
  }

  /** Once finished, no further pose changes anything. */
  lemma {:induction false} FinishedIsFinal(c: Course, poses: seq<Pose>, more: Pose, board: seq<RaceEntry>, limit: nat)
    requires c.Valid() && !Playing(Raced(c, poses, board, limit).0)
    ensures Raced(c, poses + [more], board, limit) == Raced(c, poses, board, limit)
  {
    assert (poses + [more])[..|poses|] == poses;
    assert Raced(c, poses, board, limit).1 + [] == Raced(c, poses, board, limit).1;
  }

  // ---------- the verdict ----------

  /** A time enters a board that has room for it, or whose last entry it beats. */
  predicate Enters(time: int, board: seq<RaceEntry>, limit: nat) {
    board == [] || |board| < limit || time < board[|board| - 1].elapsed
  }

  /** A finished race that enters the board has the rank behind the times no later than its own, and asks for a name. */
  ghost predicate Judged(r: Race, board: seq<RaceEntry>, limit: nat) {
    if Playing(r) then r.rank == None
    else
      && r.final.Some?
      && r.session == (if Enters(r.final.value, board, limit) then AwaitingName else ShowingLeaderboard)
      && (r.rank.Some? <==> Enters(r.final.value, board, limit))
      && (r.rank.Some? ==>
            && 1 <= r.rank.value <= |board| + 1
            && (forall i :: 0 <= i < r.rank.value - 1 ==> board[i].elapsed <= r.final.value)
            && (forall i :: r.rank.value - 1 <= i < |board| ==> r.final.value < board[i].elapsed))
  }

  lemma {:induction false} CrossedJudged(c: Course, r: Race, timestamp: int, board: seq<RaceEntry>, limit: nat)
    requires Inv(c, r) && Playing(r) && Judged(r, board, limit) && Ascending(board, RaceKey)
    ensures Judged(Crossed(c, r, timestamp, board, limit), board, limit)
  {
    var next := Crossed(c, r, timestamp, board, limit);
    if !Playing(next) {
      LevelIsPrefix(board, next.elapsed, RaceKey);
    }
  }

  lemma {:induction false} SweepJudged(c: Course, r: Race, p: Pose, board: seq<RaceEntry>, limit: nat, least: real)
    requires Inv(c, r) && Judged(r, board, limit) && Ascending(board, RaceKey)
    ensures Judged(Sweep(c, r, p, board, limit, least).0, board, limit)
    decreases TotalGates(c) - GatesPassed(c, r)
  {
    if Playing(r) && FirstGateHit(p, TargetOf(c, r), least).Some? {
      var d := FirstGateHit(p, TargetOf(c, r), least).value;
      var next := Crossed(c, r, p.timestamp, board, limit);
      HitAdvances(c, r, p.timestamp, board, limit);
      SweepUnfolds(c, r, next, p, board, limit, least, d);
      CrossedJudged(c, r, p.timestamp, board, limit);
      SweepJudged(c, next, p, board, limit, d + STEP);
    }
  }

  /** For every stream of poses the race is without a rank until it ends, and then judged by its final time. */
  lemma {:induction false} RaceIsJudged(c: Course, poses: seq<Pose>, board: seq<RaceEntry>, limit: nat)
    requires c.Valid() && Ascending(board, RaceKey)
    ensures Judged(Raced(c, poses, board, limit).0, board, limit)
  {
    if poses != [] {
      var init, p := poses[..|poses| - 1], poses[|poses| - 1];
      RaceIsJudged(c, init, board, limit);
      var r := Raced(c, init, board, limit).0;
      if Playing(r) {
        SweepJudged(c, Ticked(r, p.timestamp), p, board, limit, 0.0);
      }
    }
  }

  // ---------- the controller ----------

  datatype SubmitError = NotWaiting | Refused(entry: EntryError)

  /** The rank found by looking a recorded entry up, unless it was turned away. */
  function FoundRank(inserted: Option<RaceEntry>, board: seq<RaceEntry>): Option<nat>
    requires inserted.Some? ==> inserted.value in board
  {
    if inserted.None? then None else Some(1 + FirstEqual(board, inserted.value))
  }

  /** What recording an entry does to the file, the board shown and the rank announced. */
  ghost predicate TimeRecorded(before: seq<RaceEntry>, after: seq<RaceEntry>, limit: nat, e: RaceEntry,
                               rank: Option<nat>, board: seq<RaceEntry>)
  {
    var inserted := Inserted(before, e, limit);
    && Recorded(before, after, limit, e, inserted, board)
    && (inserted.None? ==> rank.None?)
    && (inserted.Some? ==>
          rank.Some? && 1 <= rank.value <= |board| && board[rank.value - 1] == e && e !in board[..rank.value - 1])
  }

  lemma {:induction false} OnThisCourse(c: Course, name: string, time: int, stamp: int)
    requires c.Valid()
    ensures Validated(c.mapId, c.courseId, name, time, stamp)
            == match PlayerName(name)
               case Err(e) => Err(e)
               case Ok(player) => Ok(RaceEntry(c.mapId, c.courseId, player, time, stamp))
  {
  }

  lemma {:induction false} AdmittedTimeListed(rows: seq<RaceEntry>, e: RaceEntry, limit: nat)
    requires limit > 0 && !Excluded(RaceBoard(rows, ScopeOf(e), limit), e.elapsed, limit, RaceKey)
    ensures e in Submitted(RaceBoard(rows, ScopeOf(e), limit), e, limit, RaceKey)
  {
    RaceRecordedBoard(rows, e, ScopeOf(e), limit);
    AdmittedIsListed(RaceBoard(rows, ScopeOf(e), limit), e, limit, RaceKey);
  }

  lemma {:induction false} RecordedIsListed(before: seq<RaceEntry>, after: seq<RaceEntry>, limit: nat, e: RaceEntry,
                                           inserted: Option<RaceEntry>, board: seq<RaceEntry>)
    requires limit > 0 && Recorded(before, after, limit, e, inserted, board)
    ensures inserted.Some? ==> e in board
  {
    if inserted.Some? {
      AdmittedTimeListed(before, e, limit);
    }
  }

  class RaceController {
    const course: Course
    const store: RaceTimeStore
    var session: Session
    var target: Target
    var index: nat
    var laps: nat
    var startTime: Option<int>
    var elapsed: int
    var final: Option<int>
    var rank: Option<nat>
    var event: Option<Event>
    var leaderboard: seq<RaceEntry>

    ghost function View(): Race
      reads this
    {
      Race(session, target, index, laps, startTime, elapsed, final, rank, event)
    }

    /** This course's stored board. */
    ghost function Board(): seq<RaceEntry>
      reads store
    {
      RaceBoard(store.rows, (course.mapId, course.courseId), store.limit)
    }

    ghost predicate Valid()
      reads this
    {
      Inv(course, View()) && store.limit > 0
    }

    constructor (course: Course, store: RaceTimeStore)
      requires course.Valid() && store.limit > 0
      ensures Valid() && View() == UNSTARTED && this.course == course && this.store == store
    {
      this.course, this.store := course, store;
      session, target, index, laps := AwaitingStart, StartGate, 0, 0;
      startTime, elapsed, final, rank, event := None, 0, None, None, None;
      new;
      leaderboard := store.Read(course.mapId, course.courseId);
    }

    method Finish(timestamp: int)
      requires startTime.Some? && store.limit > 0
      modifies this
      ensures View() == Finished(old(View()), timestamp, Board(), store.limit)
      ensures leaderboard == Board()
    {
      var raw := timestamp - startTime.value;
      elapsed := if raw > 1 then raw else 1;
      final := Some(elapsed);
      ReadRank();
      session := if rank.Some? then AwaitingName else ShowingLeaderboard;
      event := Some(RaceComplete);
    }

    /** The stored board of this course, and the rank the elapsed time would take on it. */
    method ReadRank()
      requires store.limit > 0 && elapsed > 0
      modifies this`leaderboard, this`rank
      ensures leaderboard == Board() && rank == Prospective(Board(), elapsed, store.limit, RaceKey)
    {
      leaderboard := store.Read(course.mapId, course.courseId);
      rank := store.QualifyingRank(course.mapId, course.courseId, elapsed);
    }

    method AdvanceTarget(timestamp: int)
      requires Valid() && Playing(View())
      modifies this
      ensures Valid() && View() == Crossed(course, old(View()), timestamp, Board(), store.limit)
    {
      CrossedCredits(course, View(), timestamp, Board(), store.limit);
      if session == AwaitingStart {
        startTime := Some(timestamp);
        elapsed := 0;
        session := Racing;
        target := CheckpointGate;
        event := Some(RaceStarted);
        return;
      }
      if target == StartGate {
        laps := laps + 1;
        if laps >= course.lapCount {
          Finish(timestamp);
        } else {
          target := CheckpointGate;
          index := 0;
          event := Some(LapComplete);
        }
        return;
      }
      if index + 1 < |course.checkpoints| {
        index := index + 1;
        event := Some(CheckpointPassed);
        return;
      }
      if course.lapCount == 0 {
        Finish(timestamp);
      } else {
        target := StartGate;
        event := Some(CheckpointPassed);
      }
    }

    /** Look for the active gate from `least` on and credit it. */
    method CreditGate(p: Pose, least: real) returns (hit: Option<real>)
      requires Valid() && Playing(View())
      modifies this
      ensures Valid() && Continues(course, old(View()), View(), p, Board(), store.limit, least, hit)
    {
      SweepOnce(course, View(), p, Board(), store.limit, least);
      hit := FirstGateHit(p, if target == StartGate then course.start else course.checkpoints[index], least);
      if hit.Some? {
        AdvanceTarget(p.timestamp);
      }
    }

    /** Credit the active gate, then the next, as long as the move meets it far enough along. */
    method SweepGates(p: Pose)
      requires Valid()
      modifies this
      ensures Valid() && View() == Sweep(course, old(View()), p, Board(), store.limit, 0.0).0
    {
      var least := 0.0;
      while session == AwaitingStart || session == Racing
        invariant Valid()
        invariant Sweep(course, View(), p, Board(), store.limit, least).0
               == Sweep(course, old(View()), p, Board(), store.limit, 0.0).0
        decreases TotalGates(course) - GatesPassed(course, View())
      {
        var hit := CreditGate(p, least);
        if hit.None? {
          return;
        }
        least := hit.value + STEP;
      }
      SweepStops(course, View(), p, Board(), store.limit, least);
    }

    method AdvancePose(p: Pose)
      requires Valid() && Playing(View())
      modifies this
      ensures Valid() && View() == Advanced(course, old(View()), p, Board(), store.limit).0
    {
      event := None;
      if startTime.Some? {
        elapsed := if p.timestamp - startTime.value > 0 then p.timestamp - startTime.value else 0;
      }
      assert View() == Ticked(old(View()), p.timestamp);
      SweepGates(p);
    }

    /**
     * Record the finished time under a valid name; at any other time or under any other name it is an error that
     * changes nothing.
     */
    method SubmitHighScoreName(name: string, stamp: int) returns (r: Result<(), SubmitError>)
      requires Valid()
      modifies this, store
      ensures old(session) != AwaitingName ==> r == Err(NotWaiting)
      ensures old(session) == AwaitingName && PlayerName(name).Err? ==> r == Err(Refused(BadName))
      ensures r.Err? ==>
                View() == old(View()) && store.rows == old(store.rows)
                && (old(session) != AwaitingName || PlayerName(name).Err?)
      ensures r.Ok? ==>
                && session == ShowingLeaderboard && final == old(final)
                && TimeRecorded(old(store.rows), store.rows, store.limit,
                                RaceEntry(course.mapId, course.courseId, PlayerName(name).value, old(elapsed), stamp),
                                rank, leaderboard)
    {
      if session != AwaitingName || final.None? {
        return Err(NotWaiting);
      }
      var recorded := RecordTime(name, final.value, stamp);
      if recorded.Err? {
        return Err(Refused(recorded.error));
      }
      rank, leaderboard := recorded.value.0, recorded.value.1;
      session := ShowingLeaderboard;
      r := Ok(());
    }

    /** Record a time on this course and find the rank of its entry, unless the name is not valid. */
    method RecordTime(name: string, time: int, stamp: int)
      returns (r: Result<(Option<nat>, seq<RaceEntry>), EntryError>)
      requires course.Valid() && store.limit > 0 && time > 0
      modifies store
      ensures r.Err? <==> PlayerName(name).Err?
      ensures r.Err? ==> r.error == BadName && store.rows == old(store.rows)
      ensures r.Ok? ==>
                TimeRecorded(old(store.rows), store.rows, store.limit,
                             RaceEntry(course.mapId, course.courseId, PlayerName(name).value, time, stamp), r.value.0,
                             r.value.1)
    {
      OnThisCourse(course, name, time, stamp);
      var recorded := store.Record(course.mapId, course.courseId, name, time, stamp);
      if recorded.Err? {
        return Err(recorded.error);
      }
      var (inserted, board) := recorded.value;
      var entry := RaceEntry(course.mapId, course.courseId, PlayerName(name).value, time, stamp);
      RecordedIsListed(old(store.rows), store.rows, store.limit, entry, inserted, board);
      r := Ok((FoundRank(inserted, board), board));
    }
  }

  /**
   * A race finished at rank `n` is recorded at rank `n` when the board has not changed meanwhile and holds no
   * identical entry.
   */
  lemma {:induction false} FinishedRankIsRecorded(c: Course, r: Race, timestamp: int, name: string, stamp: int,
                               board: seq<RaceEntry>, limit: nat)
    requires r.startTime.Some? && limit > 0 && |board| <= limit && Ascending(board, RaceKey)
    requires var s := Finished(r, timestamp, board, limit);
             var entry := RaceEntry(c.mapId, c.courseId, name, s.elapsed, stamp);
             s.rank.Some? && NoLater(board, entry, RaceKey) && entry !in board
    ensures var s := Finished(r, timestamp, board, limit);
            var entry := RaceEntry(c.mapId, c.courseId, name, s.elapsed, stamp);
            var recorded := Submitted(board, entry, limit, RaceKey);
            && s.session == AwaitingName
            && entry in recorded && s.rank == Some(1 + FirstEqual(recorded, entry))
  {
    var s := Finished(r, timestamp, board, limit);
    RecordedRankAgrees(board, RaceEntry(c.mapId, c.courseId, name, s.elapsed, stamp), limit);
  }
}

/** What a command does to the vehicle: the rate at which it changes speed and steering, and where that ends. */
module Response {
  import opened Prelude
  import opened Dynamics

  // ---------- speed ----------

  function Slowing(v: real, rate: real): real { if v > 0.0 then -rate else if v < 0.0 then rate else 0.0 }

  /** The acceleration a command causes at a speed; forward is positive. */
  function Acceleration(vehicle: Vehicle, v: real, c: Command, falloff: real -> real): real {
    if c.handbrake then Slowing(v, vehicle.handbrakeDecel)
    else if c.brake > vehicle.threshold then
      if c.throttle > PEDAL || c.reverse then Slowing(v, vehicle.maxBrake * c.brake)
      else if v > 0.0 then -(vehicle.maxBrake * c.brake)
      else -(vehicle.reverseAccel * c.brake)
    else if c.throttle > vehicle.threshold then
      var push := vehicle.maxAccel * c.throttle;
      if c.manual then
        if c.reverse then -push else if vehicle.speedLimited then push * Taper(vehicle, v, falloff) else push
      else
        var harder := push * vehicle.directionChangeMultiplier;
        if c.reverse then (if v > 0.0 then -harder else -push) else (if v < 0.0 then harder else push)
    else Slowing(v, if c.manual then vehicle.coastDecel else vehicle.drag)
  }

  /** The speed that acceleration leads to. */
  function Reached(vehicle: Vehicle, v: real, c: Command, dt: real, falloff: real -> real): real {
    v + Acceleration(vehicle, v, c, falloff) * dt
  }

  /** The vehicle does not pass through rest on the way, and braking does not take it beyond its reverse limit. */
  predicate OneWay(vehicle: Vehicle, v: real, c: Command, dt: real, falloff: real -> real) {
    var u := Reached(vehicle, v, c, dt, falloff);
    && (v > 0.0 ==> u >= 0.0) && (v < 0.0 ==> u <= 0.0)
    && (c.brake > vehicle.threshold ==> u >= -vehicle.maxReverseSpeed)
  }

  lemma {:induction false} Products(a: real, b: real, d: real)
    ensures Scaled(Scaled(a, b), d) == a * b * d == Scaled(Scaled(b, a), d)
    ensures -(a * b) * d == -(a * b * d)
  {
  }

  lemma {:induction false} SlowingReaches(v: real, rate: real, d: real)
    requires rate >= 0.0 && d >= 0.0
    ensures rate * d >= 0.0
    ensures v + Slowing(v, rate) * d == if v > 0.0 then v - rate * d else if v < 0.0 then v + rate * d else 0.0
    ensures (v > 0.0 ==> v - rate * d >= 0.0) && (v < 0.0 ==> v + rate * d <= 0.0)
            ==> MoveTowards(v, 0.0, rate * d) == v + Slowing(v, rate) * d
  {
    NotNegative(rate, d);
    assert -rate * d == -(rate * d);
  }

  lemma {:induction false} BrakeReaches(vehicle: Vehicle, v: real, c: Command, dt: real, falloff: real -> real)
    requires Sane(vehicle) && c.brake >= 0.0 && c.brake > vehicle.threshold && !c.handbrake && dt >= 0.0
    requires OneWay(vehicle, v, c, dt, falloff)
    ensures Braked(vehicle, v, c, dt) == Reached(vehicle, v, c, dt, falloff)
  {
    NotNegative(vehicle.maxBrake, c.brake);
    NotNegative(vehicle.reverseAccel, c.brake);
    SlowingReaches(v, vehicle.maxBrake * c.brake, dt);
    assert -(vehicle.maxBrake * c.brake) * dt == -(vehicle.maxBrake * c.brake * dt);
    assert -(vehicle.reverseAccel * c.brake) * dt == -(vehicle.reverseAccel * c.brake * dt);
  }

  lemma {:induction false} Commutes(a: real, b: real, c: real)
    ensures a * b * c == a * c * b && -a * b == -(a * b)
  {
  }

  lemma {:induction false} ManualReaches(vehicle: Vehicle, v: real, c: Command, dt: real, falloff: real -> real)
    requires Sane(vehicle) && ThrottleOnly(vehicle, c) && c.manual && dt >= 0.0
    ensures ManualSpeed(vehicle, v, c, dt, falloff) == Reached(vehicle, v, c, dt, falloff)
  {
    var push, t := vehicle.maxAccel * c.throttle, Taper(vehicle, v, falloff);
    Products(vehicle.maxAccel, c.throttle, dt);
    Commutes(push, dt, t);
  }

  lemma {:induction false} AutomaticReaches(vehicle: Vehicle, v: real, c: Command, dt: real, falloff: real -> real)
    requires Sane(vehicle) && ThrottleOnly(vehicle, c) && !c.manual && dt >= 0.0
    requires OneWay(vehicle, v, c, dt, falloff)
    ensures AutomaticSpeed(vehicle, v, c, dt) == Reached(vehicle, v, c, dt, falloff)
  {
    var push := vehicle.maxAccel * c.throttle;
    var harder := push * vehicle.directionChangeMultiplier;
    Products(vehicle.maxAccel, c.throttle, dt);
    assert push * dt * vehicle.directionChangeMultiplier == harder * dt && -harder * dt == -(harder * dt);
    assert -push * dt == -(push * dt);
    NotNegative(harder, dt);
  }

  lemma {:induction false} SlowingStays(vehicle: Vehicle, v: real, rate: real, d: real)
    requires Sane(vehicle) && WithinLimits(vehicle, v) && rate >= 0.0 && d >= 0.0
    requires var u := v + Slowing(v, rate) * d; (v > 0.0 ==> u >= 0.0) && (v < 0.0 ==> u <= 0.0)
    ensures var u := v + Slowing(v, rate) * d; MoveTowards(v, 0.0, Scaled(rate, d)) == u && WithinLimits(vehicle, u)
  {
    SlowingReaches(v, rate, d);
  }

  lemma {:induction false} CoastReaches(vehicle: Vehicle, v: real, c: Command, dt: real, falloff: real -> real)
    requires Sane(vehicle) && WithinLimits(vehicle, v) && !c.handbrake && dt >= 0.0
    requires c.brake <= vehicle.threshold && c.throttle <= vehicle.threshold
    requires OneWay(vehicle, v, c, dt, falloff)
    ensures (if c.manual then ManualSpeed(vehicle, v, c, dt, falloff) else AutomaticSpeed(vehicle, v, c, dt))
            == Reached(vehicle, v, c, dt, falloff)
  {
    SlowingStays(vehicle, v, if c.manual then vehicle.coastDecel else vehicle.drag, dt);
    NotNegative(vehicle.drag, dt);
  }

  /**
   * Until it comes to rest or to its limits the vehicle changes speed at just the rate of its command, whatever the
   * length of the frame.
   */
  lemma {:induction false} SpeedChangesAtRate(vehicle: Vehicle, v: real, c: Command, dt: real, falloff: real -> real)
    requires Sane(vehicle) && WithinLimits(vehicle, v) && c.brake >= 0.0 && dt >= 0.0 && !c.stop
    requires OneWay(vehicle, v, c, dt, falloff)
    ensures var u := Reached(vehicle, v, c, dt, falloff);
            Driven(vehicle, v, c, dt, falloff)
            == if vehicle.speedLimited && u > vehicle.maxSpeed then vehicle.maxSpeed
               else if vehicle.speedLimited && u < -vehicle.maxReverseSpeed then -vehicle.maxReverseSpeed
               else u
  {
    var u := Reached(vehicle, v, c, dt, falloff);
    if c.handbrake {
      SlowingStays(vehicle, v, vehicle.handbrakeDecel, dt);
    } else {
      if c.brake > vehicle.threshold {
        BrakeReaches(vehicle, v, c, dt, falloff);
      } else if c.throttle > vehicle.threshold {
        if c.manual {
          ManualReaches(vehicle, v, c, dt, falloff);
        } else {
          AutomaticReaches(vehicle, v, c, dt, falloff);
        }
      } else {
        CoastReaches(vehicle, v, c, dt, falloff);
      }
      assert (if c.manual then ManualSpeed(vehicle, v, c, dt, falloff) else AutomaticSpeed(vehicle, v, c, dt)) == u;
      LimitedIs(vehicle, u);
    }
  }

  lemma {:induction false} LimitedIs(vehicle: Vehicle, u: real)
    requires Sane(vehicle)
    ensures Limited(vehicle, u)
            == if vehicle.speedLimited && u > vehicle.maxSpeed then vehicle.maxSpeed
               else if vehicle.speedLimited && u < -vehicle.maxReverseSpeed then -vehicle.maxReverseSpeed
               else u
  {
  }

  /** Commands that bring the vehicle to rest and leave it there for the rest of the frame. */
  predicate OnlySlows(vehicle: Vehicle, c: Command) {
    || c.handbrake
    || (c.brake > vehicle.threshold && (c.throttle > PEDAL || c.reverse))
    || (c.brake <= vehicle.threshold && (c.throttle <= vehicle.threshold || !c.manual))
  }

  /** A frame long enough to bring the vehicle to rest, after the time `stop`. */
  predicate RestsWithin(vehicle: Vehicle, v: real, c: Command, dt: real, stop: real, falloff: real -> real) {
    v != 0.0 && 0.0 <= stop <= dt && Reached(vehicle, v, c, stop, falloff) == 0.0
  }

  lemma {:induction false} StaysAtRest(vehicle: Vehicle, c: Command, d: real, falloff: real -> real)
    requires Sane(vehicle) && c.brake >= 0.0 && d >= 0.0 && !c.stop && OnlySlows(vehicle, c)
             && !ThrottleOnly(vehicle, c)
    ensures Driven(vehicle, 0.0, c, d, falloff) == 0.0
  {
    NotNegative(vehicle.maxBrake, c.brake);
    SlowingStays(vehicle, 0.0, vehicle.handbrakeDecel, d);
    SlowingStays(vehicle, 0.0, vehicle.coastDecel, d);
    SlowingStays(vehicle, 0.0, vehicle.drag, d);
    SlowingStays(vehicle, 0.0, vehicle.maxBrake * c.brake, d);
  }

  lemma {:induction false} PushGoesOn(vehicle: Vehicle, v: real, c: Command, stop: real, falloff: real -> real)
    requires Sane(vehicle) && ThrottleOnly(vehicle, c) && !c.manual && v != 0.0 && stop >= 0.0
    requires Reached(vehicle, v, c, stop, falloff) == 0.0
    ensures TurnsBack(vehicle, v, c)
  {
    NotNegative(vehicle.maxAccel * c.throttle, stop);
    assert -(vehicle.maxAccel * c.throttle) * stop == -(vehicle.maxAccel * c.throttle * stop);
  }

  lemma {:induction false} TurnsBackToRest(vehicle: Vehicle, v: real, c: Command, dt: real, stop: real,
                                           falloff: real -> real)
    requires Sane(vehicle) && WithinLimits(vehicle, v) && TurnsBack(vehicle, v, c)
    requires 0.0 <= stop <= dt && Driven(vehicle, v, c, stop, falloff) == 0.0
    ensures Driven(vehicle, v, c, dt, falloff) == 0.0
  {
    var k := Scaled(Scaled(c.throttle, vehicle.maxAccel), vehicle.directionChangeMultiplier);
    TurningBackSlows(vehicle, v, c, stop, falloff);
    TurningBackSlows(vehicle, v, c, dt, falloff);
    NotNegative(k, dt - stop);
    assert Scaled(k, dt) == Scaled(k, stop) + k * (dt - stop);
  }

  /** At rest it either stays or goes on as from rest for the remaining time. */
  lemma {:induction false} RestThenOn(vehicle: Vehicle, v: real, c: Command, dt: real, stop: real,
                                      falloff: real -> real)
    requires Sane(vehicle) && WithinLimits(vehicle, v) && c.brake >= 0.0 && !c.stop && !Tapered(vehicle, c)
    requires RestsWithin(vehicle, v, c, dt, stop, falloff)
    ensures Driven(vehicle, v, c, dt, falloff)
            == if OnlySlows(vehicle, c) then 0.0 else Driven(vehicle, 0.0, c, dt - stop, falloff)
  {
    SpeedChangesAtRate(vehicle, v, c, stop, falloff);
    assert Driven(vehicle, v, c, stop, falloff) == 0.0;
    if ThrottleOnly(vehicle, c) && !c.manual {
      PushGoesOn(vehicle, v, c, stop, falloff);
      TurnsBackToRest(vehicle, v, c, dt, stop, falloff);
    } else {
      DrivingComposes(vehicle, v, c, stop, dt - stop, falloff);
      if OnlySlows(vehicle, c) {
        StaysAtRest(vehicle, c, dt - stop, falloff);
      }
    }
  }

  // ---------- the taper ----------

  lemma {:induction false} Ratio(x: real, y: real, whole: real)
    requires whole != 0.0 && x == y * whole
    ensures x / whole == y
  {
    assert (x / whole - y) * whole == 0.0;
  }

  /** Below the knee the taper falls from 1 to a half as the square of the speed, but not below its floor. */
  lemma {:induction false} TaperBelowKnee(vehicle: Vehicle, v: real, knee: real, falloff: real -> real)
    requires knee == vehicle.maxSpeed * vehicle.taperKnee && Abs(v) < knee
    ensures var t := Taper(vehicle, v, falloff);
            && t >= vehicle.taperLowFloor && 2.0 * (1.0 - t) * (knee * knee) <= v * v
            && (t > vehicle.taperLowFloor ==> 2.0 * (1.0 - t) * (knee * knee) == v * v)
  {
    var ratio := Abs(v) / knee;
    var low := 1.0 - ratio * ratio * 0.5;
    Squared(v, ratio, knee);
    var t := Taper(vehicle, v, falloff);
    assert t == Max(vehicle.taperLowFloor, low);
    NotNegative(t - low, knee * knee);
    assert 2.0 * (1.0 - t) * (knee * knee) == 2.0 * (1.0 - low) * (knee * knee) - 2.0 * ((t - low) * (knee * knee));
  }

  lemma {:induction false} Squared(v: real, ratio: real, knee: real)
    requires knee > 0.0 && ratio == Abs(v) / knee
    ensures 2.0 * (1.0 - (1.0 - ratio * ratio * 0.5)) * (knee * knee) == v * v
  {
    assert ratio * knee == Abs(v);
    assert ratio * ratio * (knee * knee) == (ratio * knee) * (ratio * knee) == v * v;
  }

  lemma {:induction false} AboveKnee(vehicle: Vehicle, v: real, falloff: real -> real)
    requires Abs(v) >= Knee(vehicle)
    ensures Taper(vehicle, v, falloff)
            == TaperAbove(vehicle, Abs(v), Knee(vehicle), falloff)
  {
  }

  lemma {:induction false} ShareAbove(vehicle: Vehicle, v: real, knee: real, share: real, falloff: real -> real)
    requires vehicle.maxSpeed - knee >= TINY && v - knee == (1.0 - share) * (vehicle.maxSpeed - knee)
    ensures TaperAbove(vehicle, v, knee, falloff) == Max(vehicle.taperHighFloor, 0.5 * ValueOf(falloff, share))
  {
    Ratio(v - knee, 1.0 - share, vehicle.maxSpeed - knee);
    assert 1.0 - (v - knee) / Max(TINY, vehicle.maxSpeed - knee) == share;
  }

  /** Above it it is half the configured power of the share of the way still left to the top speed. */
  lemma {:induction false} TaperAboveKnee(vehicle: Vehicle, v: real, knee: real, share: real, falloff: real -> real)
    requires knee == vehicle.maxSpeed * vehicle.taperKnee && Abs(v) >= knee && vehicle.maxSpeed - knee >= TINY
    requires Abs(v) - knee == (1.0 - share) * (vehicle.maxSpeed - knee)
    ensures Taper(vehicle, v, falloff)
            == if 0.5 * ValueOf(falloff, share) > vehicle.taperHighFloor then 0.5 * ValueOf(falloff, share)
               else vehicle.taperHighFloor
  {
    assert Knee(vehicle) == knee;
    AboveKnee(vehicle, v, falloff);
    ShareAbove(vehicle, Abs(v), Knee(vehicle), share, falloff);
  }

  // ---------- steering ----------

  /** Where the wheels are turned to, for a command that turns them to somewhere. */
  function Goal(vehicle: Vehicle, c: Command): real {
    if !c.steerIsDirect then 0.0
    else if c.steer > 1.0 then vehicle.maxSteer
    else if c.steer < -1.0 then -vehicle.maxSteer
    else c.steer * vehicle.maxSteer
  }

  /** Towards the middle they turn at the return rate, away from it at the steering rate. */
  function GoalRate(vehicle: Vehicle, steer: real, c: Command): real {
    var goal := Goal(vehicle, c);
    if goal == 0.0 || (0.0 < goal < steer) || (steer < goal < 0.0) then vehicle.steerReturnRate else vehicle.steerRate
  }

  lemma {:induction false} HeldIs(vehicle: Vehicle, steer: real, c: Command, dt: real)
    requires Sane(vehicle) && !c.steerIsDirect && Abs(c.steer) > CENTERED
    ensures Turned(vehicle, steer, c, dt) == steer + c.steer * vehicle.steerRate * dt
  {
  }

  lemma {:induction false} RateIs(vehicle: Vehicle, steer: real, c: Command)
    requires Target(vehicle, c) == Goal(vehicle, c)
    ensures TurnRate(vehicle, steer, Target(vehicle, c)) == GoalRate(vehicle, steer, c)
  {
  }

  lemma {:induction false} CentredStays(vehicle: Vehicle, steer: real, turn: real)
    requires -vehicle.maxSteer <= steer <= vehicle.maxSteer && turn >= 0.0
    ensures var s := MoveTowards(steer, 0.0, turn); Clip(s, -vehicle.maxSteer, vehicle.maxSteer) == s
  {
  }

  lemma {:induction false} DirectIs(vehicle: Vehicle, steer: real, c: Command, dt: real)
    requires Sane(vehicle) && -vehicle.maxSteer <= steer <= vehicle.maxSteer && dt >= 0.0 && c.steerIsDirect
    ensures Steered(vehicle, steer, c, dt)
            == MoveTowards(steer, Goal(vehicle, c), Scaled(GoalRate(vehicle, steer, c), dt))
  {
    GoalIs(vehicle, c);
    DirectlySteered(vehicle, steer, c, dt);
    RateIs(vehicle, steer, c);
  }

  lemma {:induction false} CentredIs(vehicle: Vehicle, steer: real, c: Command, dt: real)
    requires Sane(vehicle) && -vehicle.maxSteer <= steer <= vehicle.maxSteer && dt >= 0.0
    requires !c.steerIsDirect && Abs(c.steer) <= CENTERED
    ensures Steered(vehicle, steer, c, dt)
            == MoveTowards(steer, Goal(vehicle, c), Scaled(GoalRate(vehicle, steer, c), dt))
  {
    NotNegative(vehicle.steerReturnRate, dt);
    CentredStays(vehicle, steer, Scaled(vehicle.steerReturnRate, dt));
  }

  lemma {:induction false} Towards(steer: real, goal: real, turn: real)
    requires turn >= 0.0
    ensures MoveTowards(steer, goal, turn)
            == if Abs(goal - steer) <= turn then goal else if goal > steer then steer + turn else steer - turn
  {
  }

  /** Direct steering and letting go turn the wheels towards their goal at one rate and leave them there. */
  lemma {:induction false} SteersToGoal(vehicle: Vehicle, steer: real, c: Command, dt: real)
    requires Sane(vehicle) && -vehicle.maxSteer <= steer <= vehicle.maxSteer && dt >= 0.0
    requires c.steerIsDirect || -CENTERED <= c.steer <= CENTERED
    ensures var goal, turn := Goal(vehicle, c), GoalRate(vehicle, steer, c) * dt;
            Steered(vehicle, steer, c, dt)
            == if Abs(goal - steer) <= turn then goal else if goal > steer then steer + turn else steer - turn
  {
    if c.steerIsDirect {
      DirectIs(vehicle, steer, c, dt);
    } else {
      CentredIs(vehicle, steer, c, dt);
    }
    NotNegative(GoalRate(vehicle, steer, c), dt);
    Towards(steer, Goal(vehicle, c), GoalRate(vehicle, steer, c) * dt);
  }

  /** Held steering turns them in proportion to the command until the lock. */
  lemma {:induction false} HeldSteers(vehicle: Vehicle, steer: real, c: Command, dt: real)
    requires Sane(vehicle) && !c.steerIsDirect && (c.steer < -CENTERED || c.steer > CENTERED)
    ensures var held := steer + c.steer * vehicle.steerRate * dt;
            Steered(vehicle, steer, c, dt)
            == if held > vehicle.maxSteer then vehicle.maxSteer
               else if held < -vehicle.maxSteer then -vehicle.maxSteer else held
  {
    HeldIs(vehicle, steer, c, dt);
  }

  lemma {:induction false} GoalIs(vehicle: Vehicle, c: Command)
    requires Sane(vehicle) && c.steerIsDirect
    ensures Target(vehicle, c) == Goal(vehicle, c) && -vehicle.maxSteer <= Goal(vehicle, c) <= vehicle.maxSteer
  {
    TargetWithinLimits(vehicle, c);
  }
}

/** Steering and speed of the arcade vehicle over one step, and how they depend on the step's length. */
module Dynamics {
  import opened Prelude

  /** A driver's command held for a while; which pedal threshold applies is configured. */
  datatype Command = Command(steer: real, steerIsDirect: bool, throttle: real, brake: real,
                             reverse: bool, stop: bool, handbrake: bool, manual: bool)

  datatype Vehicle = Vehicle(
    maxSteer: real, steerRate: real, steerReturnRate: real,
    maxAccel: real, reverseAccel: real, maxBrake: real, handbrakeDecel: real,
    drag: real, coastDecel: real, directionChangeMultiplier: real,
    threshold: real, maxSpeed: real, maxReverseSpeed: real, speedLimited: bool,
    taperKnee: real, taperLowFloor: real, taperHighFloor: real)

  /** Configured rates and limits are not negative, and the engine, steering and limits do something. */
  predicate Sane(vehicle: Vehicle) {
    && vehicle.maxSteer >= 0.0 && vehicle.steerRate >= 0.0 && vehicle.steerReturnRate >= 0.0
    && vehicle.maxAccel > 0.0 && vehicle.reverseAccel >= 0.0 && vehicle.maxBrake >= 0.0 && vehicle.handbrakeDecel >= 0.0
    && vehicle.drag >= 0.0 && vehicle.coastDecel >= 0.0 && vehicle.directionChangeMultiplier > 0.0
    && vehicle.threshold >= 0.0 && vehicle.maxSpeed > 0.0 && vehicle.maxReverseSpeed > 0.0
    && vehicle.taperHighFloor >= 0.0
  }

  function Clip(x: real, low: real, high: real): real { Min(high, Max(low, x)) }

  function MoveTowards(current: real, target: real, delta: real): real {
    if current < target then Min(current + delta, target) else Max(current - delta, target)
  }

  const PEDAL := 0.01
  const CENTERED := 0.00001
  const TINY := 0.000001

  // ---------- braking, then reversing ----------

  /** Braking at one rate down to rest, then reversing at another for the rest of the step. */
  function BrakeThenReverse(speed: real, brake: real, reverse: real, maxReverse: real, dt: real): real
    requires dt >= 0.0
  {
    if speed > 0.0 && brake * dt <= speed then Max(0.0, speed - brake * dt)
    else
      var reverseDt :=
        if speed > 0.0 then
          assert brake != 0.0;
          dt - speed / brake
        else dt;
      Max(-maxReverse, Min(0.0, speed) - reverse * reverseDt)
  }

  /** A configured rate times a pedal's position, or a time. */
  function Scaled(rate: real, factor: real): real { rate * factor }

  function BrakeOrReverse(speed: real, command: Command, dt: real, brakeDecel: real, reverseAccel: real,
                          maxReverse: real): real
    requires dt >= 0.0
  {
    var brake := Scaled(brakeDecel, command.brake);
    if command.throttle > PEDAL || command.reverse then MoveTowards(speed, 0.0, brake * dt)
    else BrakeThenReverse(speed, brake, Scaled(reverseAccel, command.brake), maxReverse, dt)
  }

  lemma {:induction false} NotNegative(k: real, d: real)
    requires k >= 0.0 && d >= 0.0
    ensures k * d >= 0.0
  {
  }

  lemma {:induction false} SameSigns(k: real, d1: real, d2: real)
    requires d1 >= 0.0 && d2 >= 0.0
    ensures Scaled(k, d1 + d2) == Scaled(k, d1) + Scaled(k, d2)
    ensures if k >= 0.0 then Scaled(k, d1) >= 0.0 && Scaled(k, d2) >= 0.0
            else Scaled(k, d1) <= 0.0 && Scaled(k, d2) <= 0.0
  {
    if k >= 0.0 {
      NotNegative(k, d1);
      NotNegative(k, d2);
    } else {
      NotNegative(-k, d1);
      NotNegative(-k, d2);
    }
  }

  lemma {:induction false} FromRest(v: real, b: real, r: real, limit: real, d: real)
    requires v <= 0.0 && d >= 0.0
    ensures BrakeThenReverse(v, b, r, limit, d) == Max(-limit, v - r * d)
  {
  }

  lemma {:induction false} ThroughTheStop(v: real, b: real, r: real, limit: real, d: real)
    requires v > 0.0 && d >= 0.0 && b * d > v && b > 0.0
    ensures BrakeThenReverse(v, b, r, limit, d) == Max(-limit, 0.0 - r * (d - v / b))
  {
  }

  lemma {:induction false} ComposesAfterStop(v: real, b: real, r: real, limit: real, d1: real, d2: real)
    requires v > 0.0 && b >= 0.0 && r >= 0.0 && limit >= 0.0 && d1 >= 0.0 && d2 >= 0.0 && b * d1 > v
    ensures BrakeThenReverse(BrakeThenReverse(v, b, r, limit, d1), b, r, limit, d2)
            == BrakeThenReverse(v, b, r, limit, d1 + d2)
  {
    ThroughTheStop(v, b, r, limit, d1);
    ThroughTheStop(v, b, r, limit, d1 + d2);
    NotNegative(r, d1 - v / b);
    NotNegative(r, d2);
    FromRest(Max(-limit, 0.0 - r * (d1 - v / b)), b, r, limit, d2);
  }

  lemma {:induction false} ComposesAtStop(v: real, b: real, r: real, limit: real, d1: real, d2: real)
    requires v > 0.0 && b >= 0.0 && r >= 0.0 && limit >= 0.0 && d1 >= 0.0 && d2 >= 0.0
    requires b * d1 == v
    ensures BrakeThenReverse(BrakeThenReverse(v, b, r, limit, d1), b, r, limit, d2)
            == BrakeThenReverse(v, b, r, limit, d1 + d2)
  {
    FromRest(0.0, b, r, limit, d2);
    if d2 > 0.0 {
      ThroughTheStop(v, b, r, limit, d1 + d2);
      assert d1 + d2 - v / b == d2;
    }
  }

  lemma {:induction false} ComposesFromRest(v: real, b: real, r: real, limit: real, d1: real, d2: real)
    requires v <= 0.0 && r >= 0.0 && limit >= 0.0 && d1 >= 0.0 && d2 >= 0.0
    ensures BrakeThenReverse(BrakeThenReverse(v, b, r, limit, d1), b, r, limit, d2)
            == BrakeThenReverse(v, b, r, limit, d1 + d2)
  {
    NotNegative(r, d1);
    NotNegative(r, d2);
  }

  lemma {:induction false} ComposesBeforeStop(v: real, b: real, r: real, limit: real, d1: real, d2: real)
    requires v > 0.0 && b >= 0.0 && r >= 0.0 && limit >= 0.0 && d1 >= 0.0 && d2 >= 0.0 && b * d1 < v
    ensures BrakeThenReverse(BrakeThenReverse(v, b, r, limit, d1), b, r, limit, d2)
            == BrakeThenReverse(v, b, r, limit, d1 + d2)
  {
    NotNegative(b, d2);
  }

  lemma {:induction false} ReverseComposes(v: real, b: real, r: real, limit: real, d1: real, d2: real)
    requires b >= 0.0 && r >= 0.0 && limit >= 0.0 && d1 >= 0.0 && d2 >= 0.0
    ensures BrakeThenReverse(BrakeThenReverse(v, b, r, limit, d1), b, r, limit, d2)
            == BrakeThenReverse(v, b, r, limit, d1 + d2)
  {
    if v <= 0.0 {
      ComposesFromRest(v, b, r, limit, d1, d2);
    } else if b * d1 > v {
      ComposesAfterStop(v, b, r, limit, d1, d2);
    } else if b * d1 == v {
      ComposesAtStop(v, b, r, limit, d1, d2);
    } else {
      ComposesBeforeStop(v, b, r, limit, d1, d2);
    }
  }

  /**
   * Braking into reverse does not depend on the frame rate: braking for `d1` and then `d2` is braking for their sum,
   * through the stop and up to the reverse-speed cap.
   */
  lemma {:induction false} BrakingComposes(v: real, c: Command, d1: real, d2: real, decel: real, accel: real,
                                           limit: real)
    requires c.brake >= 0.0 && decel >= 0.0 && accel >= 0.0 && limit >= 0.0 && d1 >= 0.0 && d2 >= 0.0
    ensures BrakeOrReverse(BrakeOrReverse(v, c, d1, decel, accel, limit), c, d2, decel, accel, limit)
            == BrakeOrReverse(v, c, d1 + d2, decel, accel, limit)
  {
    NotNegative(decel, c.brake);
    NotNegative(accel, c.brake);
    var b, r := Scaled(decel, c.brake), Scaled(accel, c.brake);
    if c.throttle <= PEDAL && !c.reverse {
      ReverseComposes(v, b, r, limit, d1, d2);
    }
  }

  // ---------- steering ----------

  /** A positive product. */
  predicate SameSide(x: real, y: real) { (x > 0.0 && y > 0.0) || (x < 0.0 && y < 0.0) }

  /** Whether a direct target lies between the centre and where the wheels are. */
  predicate Returning(steer: real, target: real) {
    target == 0.0 || (SameSide(steer, target) && Abs(target) < Abs(steer))
  }

  function TurnRate(vehicle: Vehicle, steer: real, target: real): real {
    if Returning(steer, target) then vehicle.steerReturnRate else vehicle.steerRate
  }

  /** Turning to a target, at one rate towards the centre and at another away from it. */
  function TurnedTo(vehicle: Vehicle, steer: real, target: real, dt: real): real {
    MoveTowards(steer, target, Scaled(TurnRate(vehicle, steer, target), dt))
  }

  function Target(vehicle: Vehicle, command: Command): real { Clip(command.steer, -1.0, 1.0) * vehicle.maxSteer }

  function Turned(vehicle: Vehicle, steer: real, command: Command, dt: real): real {
    if command.steerIsDirect then TurnedTo(vehicle, steer, Target(vehicle, command), dt)
    else if Abs(command.steer) > CENTERED then steer + Scaled(Scaled(command.steer, vehicle.steerRate), dt)
    else MoveTowards(steer, 0.0, Scaled(vehicle.steerReturnRate, dt))
  }

  function Steered(vehicle: Vehicle, steer: real, command: Command, dt: real): real {
    Clip(Turned(vehicle, steer, command, dt), -vehicle.maxSteer, vehicle.maxSteer)
  }

  lemma {:induction false} TargetWithinLimits(vehicle: Vehicle, command: Command)
    requires vehicle.maxSteer >= 0.0
    ensures -vehicle.maxSteer <= Target(vehicle, command) <= vehicle.maxSteer
  {
    var c, limit := Clip(command.steer, -1.0, 1.0), vehicle.maxSteer;
    NotNegative(1.0 - c, limit);
    NotNegative(c + 1.0, limit);
    assert (1.0 - c) * limit == limit - c * limit;
    assert (c + 1.0) * limit == c * limit + limit;
  }

  lemma {:induction false} TurningComposes(vehicle: Vehicle, steer: real, target: real, d1: real, d2: real)
    requires Sane(vehicle) && d1 >= 0.0 && d2 >= 0.0
    ensures TurnedTo(vehicle, TurnedTo(vehicle, steer, target, d1), target, d2)
            == TurnedTo(vehicle, steer, target, d1 + d2)
  {
    var rate := TurnRate(vehicle, steer, target);
    SameSigns(rate, d1, d2);
    var p, q := Scaled(rate, d1), Scaled(rate, d2);
    assert MoveTowards(MoveTowards(steer, target, p), target, q) == MoveTowards(steer, target, p + q);
    var mid := TurnedTo(vehicle, steer, target, d1);
    assert TurnRate(vehicle, mid, target) == rate || mid == target;
  }

  lemma {:induction false} DirectlySteered(vehicle: Vehicle, steer: real, command: Command, d: real)
    requires Sane(vehicle) && -vehicle.maxSteer <= steer <= vehicle.maxSteer && d >= 0.0 && command.steerIsDirect
    ensures Steered(vehicle, steer, command, d) == TurnedTo(vehicle, steer, Target(vehicle, command), d)
    ensures -vehicle.maxSteer <= Steered(vehicle, steer, command, d) <= vehicle.maxSteer
  {
    TargetWithinLimits(vehicle, command);
  }

  lemma {:induction false} DirectSteeringComposes(vehicle: Vehicle, steer: real, command: Command, d1: real, d2: real)
    requires Sane(vehicle) && -vehicle.maxSteer <= steer <= vehicle.maxSteer && d1 >= 0.0 && d2 >= 0.0
    requires command.steerIsDirect
    ensures Steered(vehicle, Steered(vehicle, steer, command, d1), command, d2)
            == Steered(vehicle, steer, command, d1 + d2)
  {
    DirectlySteered(vehicle, steer, command, d1);
    DirectlySteered(vehicle, Steered(vehicle, steer, command, d1), command, d2);
    DirectlySteered(vehicle, steer, command, d1 + d2);
    TurningComposes(vehicle, steer, Target(vehicle, command), d1, d2);
  }

  /** Turning on at a constant rate within symmetric limits. */
  lemma {:induction false} ClippedTwice(steer: real, limit: real, p: real, q: real)
    requires -limit <= steer <= limit && ((p >= 0.0 && q >= 0.0) || (p <= 0.0 && q <= 0.0))
    ensures Clip(Clip(steer + p, -limit, limit) + q, -limit, limit) == Clip(steer + (p + q), -limit, limit)
  {
  }

  lemma {:induction false} HeldSteeringComposes(vehicle: Vehicle, steer: real, command: Command, d1: real, d2: real)
    requires Sane(vehicle) && -vehicle.maxSteer <= steer <= vehicle.maxSteer && d1 >= 0.0 && d2 >= 0.0
    requires !command.steerIsDirect && Abs(command.steer) > CENTERED
    ensures Steered(vehicle, Steered(vehicle, steer, command, d1), command, d2)
            == Steered(vehicle, steer, command, d1 + d2)
  {
    var k := Scaled(command.steer, vehicle.steerRate);
    SameSigns(k, d1, d2);
    ClippedTwice(steer, vehicle.maxSteer, Scaled(k, d1), Scaled(k, d2));
  }

  lemma {:induction false} CenteringComposes(vehicle: Vehicle, steer: real, command: Command, d1: real, d2: real)
    requires Sane(vehicle) && -vehicle.maxSteer <= steer <= vehicle.maxSteer && d1 >= 0.0 && d2 >= 0.0
    requires !command.steerIsDirect && Abs(command.steer) <= CENTERED
    ensures Steered(vehicle, Steered(vehicle, steer, command, d1), command, d2)
            == Steered(vehicle, steer, command, d1 + d2)
  {
    SameSigns(vehicle.steerReturnRate, d1, d2);
  }

  /** Steering does not depend on the frame rate, whatever the command, and stays within its limits. */
  lemma {:induction false} SteeringComposes(vehicle: Vehicle, steer: real, command: Command, d1: real, d2: real)
    requires Sane(vehicle) && -vehicle.maxSteer <= steer <= vehicle.maxSteer && d1 >= 0.0 && d2 >= 0.0
    ensures Steered(vehicle, Steered(vehicle, steer, command, d1), command, d2)
            == Steered(vehicle, steer, command, d1 + d2)
    ensures -vehicle.maxSteer <= Steered(vehicle, steer, command, d1) <= vehicle.maxSteer
  {
    if command.steerIsDirect {
      DirectSteeringComposes(vehicle, steer, command, d1, d2);
    } else if Abs(command.steer) > CENTERED {
      HeldSteeringComposes(vehicle, steer, command, d1, d2);
    } else {
      CenteringComposes(vehicle, steer, command, d1, d2);
    }
  }

  // ---------- speed ----------

  function Limited(vehicle: Vehicle, speed: real): real {
    if vehicle.speedLimited then Clip(speed, -vehicle.maxReverseSpeed, vehicle.maxSpeed) else speed
  }

  /** The speed from which the engine's push falls off steeply. */
  function Knee(vehicle: Vehicle): real { vehicle.maxSpeed * vehicle.taperKnee }

  /** How much of the engine's push is left near the speed limit; `falloff` is the configured power. */
  function Taper(vehicle: Vehicle, speed: real, falloff: real -> real): real {
    var knee := Knee(vehicle);
    if Abs(speed) < knee then Max(vehicle.taperLowFloor, 1.0 - Abs(speed) / knee * (Abs(speed) / knee) * 0.5)
    else TaperAbove(vehicle, Abs(speed), knee, falloff)
  }

  function TaperAbove(vehicle: Vehicle, speed: real, knee: real, falloff: real -> real): real {
    Max(vehicle.taperHighFloor, 0.5 * ValueOf(falloff, 1.0 - (speed - knee) / Max(TINY, vehicle.maxSpeed - knee)))
  }

  function ValueOf(f: real -> real, x: real): real { f(x) }

  function Braked(vehicle: Vehicle, speed: real, command: Command, dt: real): real
    requires dt >= 0.0
  {
    BrakeOrReverse(speed, command, dt, vehicle.maxBrake, vehicle.reverseAccel, vehicle.maxReverseSpeed)
  }

  function ManualSpeed(vehicle: Vehicle, speed: real, command: Command, dt: real, falloff: real -> real): real
    requires dt >= 0.0
  {
    if command.brake > vehicle.threshold then Braked(vehicle, speed, command, dt)
    else if command.throttle > vehicle.threshold then
      var accel := Scaled(Scaled(vehicle.maxAccel, command.throttle), dt);
      if command.reverse then speed - accel
      else if vehicle.speedLimited then speed + accel * Taper(vehicle, speed, falloff)
      else speed + accel
    else MoveTowards(speed, 0.0, Scaled(vehicle.coastDecel, dt))
  }

  /** Moving in the direction opposite to the one asked for. */
  predicate Against(speed: real, command: Command) {
    if command.reverse then speed > 0.0 else speed < 0.0
  }

  function AutomaticSpeed(vehicle: Vehicle, speed: real, command: Command, dt: real): real
    requires dt >= 0.0
  {
    if command.brake > vehicle.threshold then Braked(vehicle, speed, command, dt)
    else if command.throttle > vehicle.threshold then
      var delta := Scaled(Scaled(command.throttle, vehicle.maxAccel), dt);
      if Against(speed, command) then MoveTowards(speed, 0.0, Scaled(delta, vehicle.directionChangeMultiplier))
      else if command.reverse then speed - delta
      else speed + delta
    else if speed > 0.0 then Max(0.0, speed - Scaled(vehicle.drag, dt))
    else Min(0.0, speed + Scaled(vehicle.drag, dt))
  }

  function Driven(vehicle: Vehicle, speed: real, command: Command, dt: real, falloff: real -> real): real
    requires dt >= 0.0
  {
    if command.stop then 0.0
    else if command.handbrake then MoveTowards(speed, 0.0, Scaled(vehicle.handbrakeDecel, dt))
    else if command.manual then Limited(vehicle, ManualSpeed(vehicle, speed, command, dt, falloff))
    else Limited(vehicle, AutomaticSpeed(vehicle, speed, command, dt))
  }

  predicate WithinLimits(vehicle: Vehicle, speed: real) {
    vehicle.speedLimited ==> -vehicle.maxReverseSpeed <= speed <= vehicle.maxSpeed
  }

  predicate ThrottleOnly(vehicle: Vehicle, command: Command) {
    !command.stop && !command.handbrake && command.brake <= vehicle.threshold && command.throttle > vehicle.threshold
  }

  /** Manual forward throttle under a speed limit, whose push depends on the speed at the start of the step. */
  predicate Tapered(vehicle: Vehicle, command: Command) {
    ThrottleOnly(vehicle, command) && command.manual && !command.reverse && vehicle.speedLimited
  }

  /** Automatic throttle against the direction of travel. */
  predicate TurnsBack(vehicle: Vehicle, speed: real, command: Command) {
    ThrottleOnly(vehicle, command) && !command.manual && Against(speed, command)
  }

  /** Against the direction of travel, the vehicle comes to a stop within `d`. */
  predicate StopsWithin(vehicle: Vehicle, speed: real, command: Command, d: real) {
    Scaled(Scaled(Scaled(command.throttle, vehicle.maxAccel), d), vehicle.directionChangeMultiplier) >= Abs(speed)
  }

  lemma {:induction false} ScaledComposes(current: real, target: real, k: real, d1: real, d2: real)
    requires k >= 0.0 && d1 >= 0.0 && d2 >= 0.0
    ensures MoveTowards(MoveTowards(current, target, Scaled(k, d1)), target, Scaled(k, d2))
            == MoveTowards(current, target, Scaled(k, d1 + d2))
  {
  }

  /** Braking stays within the speed limits. */
  lemma {:induction false} BrakeThenReverseWithin(v: real, b: real, r: real, limit: real, d: real, high: real)
    requires -limit <= v <= high && 0.0 <= high && 0.0 <= limit && b >= 0.0 && r >= 0.0 && d >= 0.0
    ensures -limit <= BrakeThenReverse(v, b, r, limit, d) <= high
  {
    NotNegative(b, d);
    NotNegative(r, d);
    if v <= 0.0 {
      FromRest(v, b, r, limit, d);
    } else if b * d > v {
      NotNegative(r, d - v / b);
      ThroughTheStop(v, b, r, limit, d);
    }
  }

  lemma {:induction false} BrakedWithin(vehicle: Vehicle, v: real, c: Command, d: real)
    requires Sane(vehicle) && WithinLimits(vehicle, v) && c.brake >= 0.0 && d >= 0.0
    ensures WithinLimits(vehicle, Braked(vehicle, v, c, d))
  {
    var b, r := Scaled(vehicle.maxBrake, c.brake), Scaled(vehicle.reverseAccel, c.brake);
    NotNegative(vehicle.maxBrake, c.brake);
    NotNegative(vehicle.reverseAccel, c.brake);
    NotNegative(b, d);
    if vehicle.speedLimited {
      BrakeThenReverseWithin(v, b, r, vehicle.maxReverseSpeed, d, vehicle.maxSpeed);
    }
  }

  /** Braking under the speed limits, which it never exceeds. */
  lemma {:induction false} LimitedBrakingComposes(vehicle: Vehicle, v: real, c: Command, d1: real, d2: real)
    requires Sane(vehicle) && WithinLimits(vehicle, v) && c.brake >= 0.0 && d1 >= 0.0 && d2 >= 0.0
    ensures Limited(vehicle, Braked(vehicle, Limited(vehicle, Braked(vehicle, v, c, d1)), c, d2))
            == Limited(vehicle, Braked(vehicle, v, c, d1 + d2))
  {
    BrakedWithin(vehicle, v, c, d1);
    BrakingComposes(v, c, d1, d2, vehicle.maxBrake, vehicle.reverseAccel, vehicle.maxReverseSpeed);
  }

  /** A constant push under the speed limits. */
  lemma {:induction false} PushComposes(vehicle: Vehicle, speed: real, k: real, d1: real, d2: real)
    requires Sane(vehicle) && WithinLimits(vehicle, speed) && k >= 0.0 && d1 >= 0.0 && d2 >= 0.0
    ensures Limited(vehicle, Limited(vehicle, speed + Scaled(k, d1)) + Scaled(k, d2))
            == Limited(vehicle, speed + Scaled(k, d1 + d2))
    ensures Limited(vehicle, Limited(vehicle, speed - Scaled(k, d1)) - Scaled(k, d2))
            == Limited(vehicle, speed - Scaled(k, d1 + d2))
  {
    SameSigns(k, d1, d2);
  }

  /** Slowing down at a constant rate under the speed limits. */
  lemma {:induction false} CoastComposes(vehicle: Vehicle, speed: real, k: real, d1: real, d2: real)
    requires Sane(vehicle) && WithinLimits(vehicle, speed) && k >= 0.0 && d1 >= 0.0 && d2 >= 0.0
    ensures var mid := MoveTowards(speed, 0.0, Scaled(k, d1));
            && Limited(vehicle, mid) == mid
            && Limited(vehicle, MoveTowards(mid, 0.0, Scaled(k, d2)))
              == Limited(vehicle, MoveTowards(speed, 0.0, Scaled(k, d1 + d2)))
  {
    SameSigns(k, d1, d2);
  }

  lemma {:induction false} ManualComposes(vehicle: Vehicle, v: real, c: Command, d1: real, d2: real,
                                          falloff: real -> real)
    requires Sane(vehicle) && WithinLimits(vehicle, v) && c.brake >= 0.0 && d1 >= 0.0 && d2 >= 0.0
    requires c.manual && !c.stop && !c.handbrake && !Tapered(vehicle, c)
    ensures Driven(vehicle, Driven(vehicle, v, c, d1, falloff), c, d2, falloff)
            == Driven(vehicle, v, c, d1 + d2, falloff)
  {
    if c.brake > vehicle.threshold {
      LimitedBrakingComposes(vehicle, v, c, d1, d2);
    } else if c.throttle > vehicle.threshold {
      NotNegative(vehicle.maxAccel, c.throttle);
      PushComposes(vehicle, v, Scaled(vehicle.maxAccel, c.throttle), d1, d2);
    } else {
      CoastComposes(vehicle, v, vehicle.coastDecel, d1, d2);
    }
  }

  /** Throttle in the direction of travel keeps that direction. */
  lemma {:induction false} PushKeepsDirection(vehicle: Vehicle, v: real, c: Command, d: real, falloff: real -> real)
    requires Sane(vehicle) && WithinLimits(vehicle, v) && d >= 0.0 && ThrottleOnly(vehicle, c) && !c.manual
             && !Against(v, c)
    ensures !Against(Driven(vehicle, v, c, d, falloff), c)
  {
    NotNegative(c.throttle, vehicle.maxAccel);
    NotNegative(Scaled(c.throttle, vehicle.maxAccel), d);
  }

  lemma {:induction false} AutomaticComposes(vehicle: Vehicle, v: real, c: Command, d1: real, d2: real,
                                             falloff: real -> real)
    requires Sane(vehicle) && WithinLimits(vehicle, v) && c.brake >= 0.0 && d1 >= 0.0 && d2 >= 0.0
    requires !c.manual && !c.stop && !c.handbrake && !TurnsBack(vehicle, v, c)
    ensures Driven(vehicle, Driven(vehicle, v, c, d1, falloff), c, d2, falloff)
            == Driven(vehicle, v, c, d1 + d2, falloff)
  {
    if c.brake > vehicle.threshold {
      LimitedBrakingComposes(vehicle, v, c, d1, d2);
    } else if c.throttle > vehicle.threshold {
      NotNegative(c.throttle, vehicle.maxAccel);
      PushKeepsDirection(vehicle, v, c, d1, falloff);
      PushComposes(vehicle, v, Scaled(c.throttle, vehicle.maxAccel), d1, d2);
    }
  }

  /** Slowing against the direction of travel, at the throttle's rate times the multiplier. */
  lemma {:induction false} TurningBackSlows(vehicle: Vehicle, v: real, c: Command, d: real, falloff: real -> real)
    requires Sane(vehicle) && WithinLimits(vehicle, v) && d >= 0.0 && TurnsBack(vehicle, v, c)
    ensures var k := Scaled(Scaled(c.throttle, vehicle.maxAccel), vehicle.directionChangeMultiplier);
            && k > 0.0 && Scaled(k, d) >= 0.0
            && Driven(vehicle, v, c, d, falloff) == MoveTowards(v, 0.0, Scaled(k, d))
            && (StopsWithin(vehicle, v, c, d) <==> Scaled(k, d) >= Abs(v))
  {
    var rate := Scaled(c.throttle, vehicle.maxAccel);
    NotNegative(Scaled(rate, vehicle.directionChangeMultiplier), d);
  }

  /**
   * Throttle against the direction of travel stops the vehicle for the rest of the step in which it comes to rest, so
   * splitting that step after the stop lets the second part already drive off.
   */
  lemma {:induction false} TurningBackComposes(vehicle: Vehicle, v: real, c: Command, d1: real, d2: real,
                                               falloff: real -> real)
    requires Sane(vehicle) && WithinLimits(vehicle, v) && d1 >= 0.0 && d2 >= 0.0 && TurnsBack(vehicle, v, c)
    ensures Driven(vehicle, Driven(vehicle, v, c, d1, falloff), c, d2, falloff)
            == Driven(vehicle, v, c, d1 + d2, falloff)
            <==> d2 == 0.0 || !StopsWithin(vehicle, v, c, d1)
  {
    var k := Scaled(Scaled(c.throttle, vehicle.maxAccel), vehicle.directionChangeMultiplier);
    TurningBackSlows(vehicle, v, c, d1, falloff);
    TurningBackSlows(vehicle, v, c, d1 + d2, falloff);
    NotNegative(k, d2);
    if !StopsWithin(vehicle, v, c, d1) {
      TurningBackSlows(vehicle, Driven(vehicle, v, c, d1, falloff), c, d2, falloff);
      ScaledComposes(v, 0.0, k, d1, d2);
    }
  }

  /** The rate at which a command's throttle pushes. */
  function Push(vehicle: Vehicle, command: Command): real { Scaled(vehicle.maxAccel, command.throttle) }

  lemma {:induction false} PushIsPositive(vehicle: Vehicle, c: Command)
    requires Sane(vehicle) && c.throttle > vehicle.threshold
    ensures Push(vehicle, c) > 0.0
  {
  }

  lemma {:induction false} TaperNotNegative(vehicle: Vehicle, speed: real, falloff: real -> real)
    requires Sane(vehicle)
    ensures Taper(vehicle, speed, falloff) >= 0.0
  {
    var knee := Knee(vehicle);
    if Abs(speed) < knee {
      var ratio := Abs(speed) / knee;
      FractionSquared(Abs(speed), knee);
    }
  }

  lemma {:induction false} FractionSquared(part: real, whole: real)
    requires 0.0 <= part < whole
    ensures 0.0 <= part / whole * (part / whole) <= 1.0
  {
    var ratio := part / whole;
    assert ratio * whole == part;
    assert 0.0 <= ratio < 1.0;
    NotNegative(ratio, ratio);
    NotNegative(ratio, 1.0 - ratio);
  }

  /** Being pushed by `p` and then by `r`, under a cap, against being pushed by `p` and `q`. */
  lemma {:induction false} CappedTwice(v: real, cap: real, p: real, q: real, r: real)
    requires v <= cap && p >= 0.0 && q >= 0.0 && r >= 0.0
    ensures var mid := Min(cap, v + p);
            Min(cap, mid + r) == Min(cap, v + (p + q)) <==> q == r || (q >= cap - mid && r >= cap - mid)
  {
  }

  lemma {:induction false} SamePush(k: real, t: real, u: real)
    ensures Scaled(k, t) == Scaled(k, u) <==> k == 0.0 || t == u
  {
    assert Scaled(k, t) - Scaled(k, u) == k * (t - u);
  }

  lemma {:induction false} SplitPush(k: real, d1: real, d2: real, t: real)
    ensures Scaled(Scaled(k, d1 + d2), t) == Scaled(Scaled(k, d1), t) + Scaled(Scaled(k, d2), t)
  {
  }

  /** Under the tapered throttle a vehicle gains speed up to its limit. */
  lemma {:induction false} TaperedGain(vehicle: Vehicle, v: real, c: Command, d: real, falloff: real -> real)
    requires Sane(vehicle) && WithinLimits(vehicle, v) && d >= 0.0 && Tapered(vehicle, c)
    ensures var gain := Scaled(Scaled(Push(vehicle, c), d), Taper(vehicle, v, falloff));
            gain >= 0.0 && Driven(vehicle, v, c, d, falloff) == Min(vehicle.maxSpeed, v + gain)
  {
    PushIsPositive(vehicle, c);
    TaperNotNegative(vehicle, v, falloff);
    NotNegative(Push(vehicle, c), d);
    NotNegative(Scaled(Push(vehicle, c), d), Taper(vehicle, v, falloff));
  }

  /**
   * The taper is sampled where a frame starts, so a second frame changes the outcome of a tapered throttle unless it is
   * empty, starts with the same taper as the first, or reaches the speed limit with either taper.
   */
  predicate Resampled(vehicle: Vehicle, v: real, c: Command, d1: real, d2: real, falloff: real -> real)
    requires d1 >= 0.0
  {
    var mid := Driven(vehicle, v, c, d1, falloff);
    var t, u := Taper(vehicle, v, falloff), Taper(vehicle, mid, falloff);
    var push := Scaled(Push(vehicle, c), d2);
    d2 > 0.0 && u != t && (Scaled(push, t) < vehicle.maxSpeed - mid || Scaled(push, u) < vehicle.maxSpeed - mid)
  }

  lemma {:induction false} TaperComposes(vehicle: Vehicle, v: real, c: Command, d1: real, d2: real,
                                         falloff: real -> real)
    requires Sane(vehicle) && WithinLimits(vehicle, v) && d1 >= 0.0 && d2 >= 0.0 && Tapered(vehicle, c)
    ensures Driven(vehicle, Driven(vehicle, v, c, d1, falloff), c, d2, falloff)
            == Driven(vehicle, v, c, d1 + d2, falloff)
            <==> !Resampled(vehicle, v, c, d1, d2, falloff)
  {
    var k, t := Push(vehicle, c), Taper(vehicle, v, falloff);
    TaperedGain(vehicle, v, c, d1, falloff);
    var mid := Driven(vehicle, v, c, d1, falloff);
    var u := Taper(vehicle, mid, falloff);
    TaperedGain(vehicle, v, c, d1 + d2, falloff);
    TaperedGain(vehicle, v, c, d2, falloff);
    TaperedGain(vehicle, mid, c, d2, falloff);
    SplitPush(k, d1, d2, t);
    var q, r := Scaled(Scaled(k, d2), t), Scaled(Scaled(k, d2), u);
    CappedTwice(v, vehicle.maxSpeed, Scaled(Scaled(k, d1), t), q, r);
    SamePush(Scaled(k, d2), t, u);
    PushIsPositive(vehicle, c);
    SamePush(k, d2, 0.0);
    assert Scaled(k, 0.0) == 0.0;
  }

  /** Whether cutting a frame after `d1`, with `d2` to go, changes the speed it ends with. */
  predicate CutMatters(vehicle: Vehicle, v: real, c: Command, d1: real, d2: real, falloff: real -> real)
    requires d1 >= 0.0
  {
    if Tapered(vehicle, c) then Resampled(vehicle, v, c, d1, d2, falloff)
    else TurnsBack(vehicle, v, c) && StopsWithin(vehicle, v, c, d1) && d2 > 0.0
  }

  /**
   * Speed after a held command does not depend on the frame rate, but for two commands: throttle against the direction
   * of travel, exactly when the stop comes before the last frame, and the tapered throttle, exactly when the taper is
   * sampled anew with effect.
   */
  lemma {:induction false} DrivingComposes(vehicle: Vehicle, v: real, c: Command, d1: real, d2: real,
                                           falloff: real -> real)
    requires Sane(vehicle) && WithinLimits(vehicle, v) && c.brake >= 0.0 && d1 >= 0.0 && d2 >= 0.0
    ensures Driven(vehicle, Driven(vehicle, v, c, d1, falloff), c, d2, falloff)
            == Driven(vehicle, v, c, d1 + d2, falloff)
            <==> !CutMatters(vehicle, v, c, d1, d2, falloff)
  {
    if Tapered(vehicle, c) {
      TaperComposes(vehicle, v, c, d1, d2, falloff);
    } else {
      UntaperedComposes(vehicle, v, c, d1, d2, falloff);
    }
  }

  lemma {:induction false} UntaperedComposes(vehicle: Vehicle, v: real, c: Command, d1: real, d2: real,
                                             falloff: real -> real)
    requires Sane(vehicle) && WithinLimits(vehicle, v) && c.brake >= 0.0 && d1 >= 0.0 && d2 >= 0.0
             && !Tapered(vehicle, c)
    ensures Driven(vehicle, Driven(vehicle, v, c, d1, falloff), c, d2, falloff)
            == Driven(vehicle, v, c, d1 + d2, falloff)
            <==> !(TurnsBack(vehicle, v, c) && StopsWithin(vehicle, v, c, d1) && d2 > 0.0)
  {
    if c.handbrake {
      ScaledComposes(v, 0.0, vehicle.handbrakeDecel, d1, d2);
    } else if c.stop {
    } else if c.manual {
      ManualComposes(vehicle, v, c, d1, d2, falloff);
    } else if TurnsBack(vehicle, v, c) {
      TurningBackComposes(vehicle, v, c, d1, d2, falloff);
    } else {
      AutomaticComposes(vehicle, v, c, d1, d2, falloff);
    }
  }

  lemma {:induction false} LowTaper(vehicle: Vehicle, speed: real, falloff: real -> real)
    requires vehicle.maxSpeed == 10.0 && vehicle.taperKnee == 0.5 && vehicle.taperLowFloor == 0.2 && 0.0 <= speed <= 2.5
    ensures Taper(vehicle, speed, falloff) == 1.0 - speed * speed * 0.02
  {
    assert Knee(vehicle) == 5.0;
    FifthSquared(speed, Knee(vehicle));
  }

  lemma {:induction false} FifthSquared(speed: real, knee: real)
    requires knee == 5.0 && 0.0 <= speed <= 2.5
    ensures Abs(speed) / knee * (Abs(speed) / knee) * 0.5 == speed * speed * 0.02 <= 0.125
  {
    assert Abs(speed) / knee == speed * 0.2;
    NotNegative(speed, speed);
    NotNegative(2.5 - speed, 2.5 + speed);
    assert (2.5 - speed) * (2.5 + speed) == 6.25 - speed * speed;
  }

  /** For instance, from rest two half-second frames of tapered throttle gain less than one of a second. */
  lemma {:induction false} TaperDependsOnFrames(falloff: real -> real)
    ensures var vehicle :=
            Vehicle(0.6, 2.0, 3.0, 5.0, 5.0, 10.0, 15.0, 1.0, 0.5, 1.5, 0.01, 10.0, 5.0, true, 0.5, 0.2, 0.05);
            var c := Command(0.0, false, 1.0, 0.0, false, false, false, true);
            && Sane(vehicle) && Tapered(vehicle, c)
            && Driven(vehicle, Driven(vehicle, 0.0, c, 0.5, falloff), c, 0.5, falloff)
              < Driven(vehicle, 0.0, c, 1.0, falloff)
  {
    var vehicle := Vehicle(0.6, 2.0, 3.0, 5.0, 5.0, 10.0, 15.0, 1.0, 0.5, 1.5, 0.01, 10.0, 5.0, true, 0.5, 0.2, 0.05);
    var c := Command(0.0, false, 1.0, 0.0, false, false, false, true);
    LowTaper(vehicle, 0.0, falloff);
    LowTaper(vehicle, 2.5, falloff);
    TaperedGain(vehicle, 0.0, c, 1.0, falloff);
    TaperedGain(vehicle, 0.0, c, 0.5, falloff);
    TaperedGain(vehicle, 2.5, c, 0.5, falloff);
    assert Driven(vehicle, 0.0, c, 0.5, falloff) == 2.5;
  }

  // ---------- any number of frames ----------

  datatype Motion = Motion(steer: real, speed: real)

  /** Steering and speed after one frame. */
  function Framed(vehicle: Vehicle, m: Motion, c: Command, dt: real, falloff: real -> real): Motion
    requires dt >= 0.0
  {
    Motion(Steered(vehicle, m.steer, c, dt), Driven(vehicle, m.speed, c, dt, falloff))
  }

  ghost predicate Within(vehicle: Vehicle, m: Motion) {
    -vehicle.maxSteer <= m.steer <= vehicle.maxSteer && WithinLimits(vehicle, m.speed)
  }

  lemma {:induction false} DrivenWithin(vehicle: Vehicle, v: real, c: Command, dt: real, falloff: real -> real)
    requires Sane(vehicle) && WithinLimits(vehicle, v) && dt >= 0.0
    ensures WithinLimits(vehicle, Driven(vehicle, v, c, dt, falloff))
  {
    NotNegative(vehicle.handbrakeDecel, dt);
  }

  lemma {:induction false} FramedWithin(vehicle: Vehicle, m: Motion, c: Command, dt: real, falloff: real -> real)
    requires Sane(vehicle) && Within(vehicle, m) && dt >= 0.0
    ensures Within(vehicle, Framed(vehicle, m, c, dt, falloff))
  {
    SteeringComposes(vehicle, m.steer, c, dt, 0.0);
    DrivenWithin(vehicle, m.speed, c, dt, falloff);
  }

  ghost predicate NoneNegative(times: seq<real>) { forall i :: 0 <= i < |times| ==> times[i] >= 0.0 }

  function Total(times: seq<real>): (t: real)
    requires NoneNegative(times)
    ensures t >= 0.0
  {
    if times == [] then 0.0 else times[0] + Total(times[1..])
  }

  /** The motion after frames of the given lengths under one held command. */
  function Frames(vehicle: Vehicle, m: Motion, c: Command, times: seq<real>, falloff: real -> real): Motion
    requires NoneNegative(times)
    decreases |times|
  {
    if times == [] then m else Frames(vehicle, Framed(vehicle, m, c, times[0], falloff), c, times[1..], falloff)
  }

  /** Braking and coasting never set a vehicle moving against the throttle, and neither does the throttle. */
  lemma {:induction false} NeverTurnsBack(vehicle: Vehicle, v: real, c: Command, dt: real, falloff: real -> real)
    requires Sane(vehicle) && WithinLimits(vehicle, v) && dt >= 0.0 && !TurnsBack(vehicle, v, c)
    ensures !TurnsBack(vehicle, Driven(vehicle, v, c, dt, falloff), c)
  {
    if ThrottleOnly(vehicle, c) && !c.manual {
      PushKeepsDirection(vehicle, v, c, dt, falloff);
    }
  }

  /** However a stretch of time is cut into frames, the motion after it is that of one frame of the whole length. */
  ghost predicate AnyCut(vehicle: Vehicle, m: Motion, c: Command, falloff: real -> real) {
    forall times :: NoneNegative(times) && times != [] ==>
      Frames(vehicle, m, c, times, falloff) == Framed(vehicle, m, c, Total(times), falloff)
  }

  /**
   * Nothing about the command changes on the way: a taper that is nowhere else up to the speed limit what it is now, or
   * never lets the vehicle move; other than that, no throttle against the direction of travel.
   */
  ghost predicate Steady(vehicle: Vehicle, v: real, c: Command, falloff: real -> real) {
    if Tapered(vehicle, c) then
      var taper := Taper(vehicle, v, falloff);
      taper == 0.0 || forall w :: v <= w < vehicle.maxSpeed ==> Taper(vehicle, w, falloff) == taper
    else !TurnsBack(vehicle, v, c)
  }

  lemma {:induction false} SteadyStays(vehicle: Vehicle, v: real, c: Command, dt: real, falloff: real -> real)
    requires Sane(vehicle) && WithinLimits(vehicle, v) && dt >= 0.0 && Steady(vehicle, v, c, falloff)
    ensures Steady(vehicle, Driven(vehicle, v, c, dt, falloff), c, falloff)
  {
    if Tapered(vehicle, c) {
      TaperedGain(vehicle, v, c, dt, falloff);
    } else {
      NeverTurnsBack(vehicle, v, c, dt, falloff);
    }
  }

  lemma {:induction false} SteadyComposes(vehicle: Vehicle, v: real, c: Command, d1: real, d2: real,
                                          falloff: real -> real)
    requires Sane(vehicle) && WithinLimits(vehicle, v) && c.brake >= 0.0 && d1 >= 0.0 && d2 >= 0.0
    requires Steady(vehicle, v, c, falloff)
    ensures Driven(vehicle, Driven(vehicle, v, c, d1, falloff), c, d2, falloff)
            == Driven(vehicle, v, c, d1 + d2, falloff)
  {
    DrivingComposes(vehicle, v, c, d1, d2, falloff);
    if Tapered(vehicle, c) {
      TaperedGain(vehicle, v, c, d1, falloff);
      var mid := Driven(vehicle, v, c, d1, falloff);
      TaperedGain(vehicle, v, c, d2, falloff);
      TaperedGain(vehicle, mid, c, d2, falloff);
    }
  }

  lemma {:induction false} SteadyAnyCut(vehicle: Vehicle, m: Motion, c: Command, times: seq<real>,
                                        falloff: real -> real)
    requires Sane(vehicle) && Within(vehicle, m) && c.brake >= 0.0 && NoneNegative(times) && times != []
    requires Steady(vehicle, m.speed, c, falloff)
    ensures Frames(vehicle, m, c, times, falloff) == Framed(vehicle, m, c, Total(times), falloff)
    decreases |times|
  {
    var next := Framed(vehicle, m, c, times[0], falloff);
    if |times| == 1 {
      assert Total(times[1..]) == 0.0;
      assert Frames(vehicle, next, c, times[1..], falloff) == next;
    } else {
      FramedWithin(vehicle, m, c, times[0], falloff);
      SteadyStays(vehicle, m.speed, c, times[0], falloff);
      SteadyAnyCut(vehicle, next, c, times[1..], falloff);
      SteeringComposes(vehicle, m.steer, c, times[0], Total(times[1..]));
      SteadyComposes(vehicle, m.speed, c, times[0], Total(times[1..]), falloff);
    }
  }

  lemma {:induction false} TwoFrames(vehicle: Vehicle, m: Motion, c: Command, d1: real, d2: real, falloff: real -> real)
    requires d1 >= 0.0 && d2 >= 0.0
    ensures Total([d1, d2]) == d1 + d2
    ensures Frames(vehicle, m, c, [d1, d2], falloff)
            == Framed(vehicle, Framed(vehicle, m, c, d1, falloff), c, d2, falloff)
  {
    assert [d1, d2][1..] == [d2] && [d2][1..] == [];
    assert Total([d2]) == d2;
    assert Frames(vehicle, Framed(vehicle, m, c, d1, falloff), c, [d2], falloff)
        == Framed(vehicle, Framed(vehicle, m, c, d1, falloff), c, d2, falloff);
  }

  /** Some cut matters when the taper differs somewhere on the way to the speed limit. */
  lemma {:induction false} UnsteadyTaper(vehicle: Vehicle, v: real, c: Command, falloff: real -> real)
    returns (d1: real, d2: real)
    requires Sane(vehicle) && WithinLimits(vehicle, v) && Tapered(vehicle, c) && !Steady(vehicle, v, c, falloff)
    ensures d1 >= 0.0 && d2 > 0.0 && CutMatters(vehicle, v, c, d1, d2, falloff)
  {
    var t := Taper(vehicle, v, falloff);
    var w :| v <= w < vehicle.maxSpeed && Taper(vehicle, w, falloff) != t;
    var k := Push(vehicle, c);
    PushIsPositive(vehicle, c);
    TaperNotNegative(vehicle, v, falloff);
    d1 := Reaching(k, t, w - v);
    TaperedGain(vehicle, v, c, d1, falloff);
    d2 := Reaching(k, t, (vehicle.maxSpeed - w) / 2.0);
  }

  /** For how long to push at rate `k` times `t` to gain this much. */
  lemma {:induction false} Reaching(k: real, t: real, gain: real) returns (d: real)
    requires k > 0.0 && t > 0.0 && gain >= 0.0
    ensures d >= 0.0 && Scaled(Scaled(k, d), t) == gain && (gain > 0.0 ==> d > 0.0)
  {
    d := gain / t / k;
    assert gain / t * t == gain;
    assert k * d == gain / t;
  }

  /** Some cut matters when the vehicle is turned back: the one at the moment it stops. */
  lemma {:induction false} UnsteadyTurn(vehicle: Vehicle, v: real, c: Command, falloff: real -> real)
    returns (d1: real, d2: real)
    requires Sane(vehicle) && WithinLimits(vehicle, v) && TurnsBack(vehicle, v, c)
    ensures d1 >= 0.0 && d2 > 0.0 && CutMatters(vehicle, v, c, d1, d2, falloff)
  {
    TurningBackSlows(vehicle, v, c, 0.0, falloff);
    var rate := Scaled(c.throttle, vehicle.maxAccel);
    NotNegative(c.throttle, vehicle.maxAccel);
    assert rate > 0.0;
    d1 := Reaching(rate, vehicle.directionChangeMultiplier, Abs(v));
    d2 := 1.0;
  }

  /**
   * Steering and speed after a held command are the same however the time is cut into frames, if and only if nothing
   * about the command changes on the way.
   */
  lemma {:induction false} SubdivisionIsIrrelevant(vehicle: Vehicle, m: Motion, c: Command, falloff: real -> real)
    requires Sane(vehicle) && Within(vehicle, m) && c.brake >= 0.0
    ensures AnyCut(vehicle, m, c, falloff) <==> Steady(vehicle, m.speed, c, falloff)
  {
    if Steady(vehicle, m.speed, c, falloff) {
      forall times | NoneNegative(times) && times != []
        ensures Frames(vehicle, m, c, times, falloff) == Framed(vehicle, m, c, Total(times), falloff)
      {
        SteadyAnyCut(vehicle, m, c, times, falloff);
      }
    } else {
      var d1, d2;
      if Tapered(vehicle, c) {
        d1, d2 := UnsteadyTaper(vehicle, m.speed, c, falloff);
      } else {
        d1, d2 := UnsteadyTurn(vehicle, m.speed, c, falloff);
      }
      DrivingComposes(vehicle, m.speed, c, d1, d2, falloff);
      TwoFrames(vehicle, m, c, d1, d2, falloff);
      assert NoneNegative([d1, d2]);
    }
  }

  /** Over any run of commands the wheels stay within their lock and the speed within its limits. */
  lemma {:induction false} RunsStayWithin(vehicle: Vehicle, m: Motion, commands: seq<Command>, dt: real,
                                          falloff: real -> real)
    requires Sane(vehicle) && Within(vehicle, m) && dt >= 0.0
    ensures Within(vehicle, Run(vehicle, m, commands, dt, falloff))
    decreases |commands|
  {
    if commands != [] {
      FramedWithin(vehicle, m, commands[0], dt, falloff);
      RunsStayWithin(vehicle, Framed(vehicle, m, commands[0], dt, falloff), commands[1..], dt, falloff);
    }
  }

  function Run(vehicle: Vehicle, m: Motion, commands: seq<Command>, dt: real, falloff: real -> real): Motion
    requires dt >= 0.0
    decreases |commands|
  {
    if commands == [] then m else Run(vehicle, Framed(vehicle, m, commands[0], dt, falloff), commands[1..], dt, falloff)
  }
}

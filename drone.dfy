/** A simulated drone of `mock_simulator.py`: its status, its state record and
    the per-tick physics of `_update_drones` for one drone. The dataclass that
    the source mutates field by field is a datatype here; a mutation is the
    record with those fields replaced. */
module Drone {

  import opened RealMath
  import opened Geometry

  // ---------------------------------------------------------------------------
  // Constants of `DroneSimulator.__init__` and of the update steps

  /** `dt = 1.0 / tick_rate` with `tick_rate = 20`. */
  const Dt: real := 0.05
  const MaxSpeed: real := 1.0
  const MaxHeight: real := 1.0
  const WorkspaceBounds: real := 2.0
  /** Battery drain in percent per second. */
  const BatteryDrainRate: real := 0.1
  /** A flying drone closer than this (5 cm) to its target stops. */
  const ArrivalThreshold: real := 0.05
  /** Within this distance of the target a flying drone slows down. */
  const SlowdownDistance: real := 0.1
  /** A landing drone this close to the ground touches down. */
  const LandingTolerance: real := 0.05
  /** The proportional gain of the vertical controllers. */
  const Gain: real := 2.0

  // ---------------------------------------------------------------------------
  // Data model

  /** `DroneStatus`. */
  datatype Status = Idle | TakingOff | Flying | Landing | Error

  /** `DroneState`, with `(x, y, z)`, `(vx, vy, vz)` and
      `(target_x, target_y, target_z)` as points, and the `run_id` attribute that
      `create_swarm` attaches. */
  datatype DroneState = DroneState(
    id: string,
    pos: Point,
    vel: Point,
    battery: real,
    status: Status,
    target: Point,
    takeoffHeight: real,
    takeoffStart: real,
    takeoffDuration: real,
    landStart: real,
    lastUpdate: real,
    runId: string)

  const Origin: Point := Point(0.0, 0.0, 0.0)

  /** `DroneState(id=drone_id)` with `run_id` set: idle at the origin, at rest,
      with a full battery and every other field at its default. */
  function NewDrone(id: string, runId: string): (d: DroneState)
    ensures d.id == id && d.runId == runId
    ensures d.status == Idle && d.battery == 100.0
    ensures d.pos == Point(0.0, 0.0, 0.0) && d.vel == Point(0.0, 0.0, 0.0) && d.target == Point(0.0, 0.0, 0.0)
    ensures d.takeoffHeight == 0.0 && d.takeoffStart == 0.0 && d.takeoffDuration == 0.0
    ensures d.landStart == 0.0 && d.lastUpdate == 0.0
  {
    DroneState(id, Origin, Origin, 100.0, Idle, Origin, 0.0, 0.0, 0.0, 0.0, 0.0, runId)
  }

  /** The sensor noise one tick adds to position and velocity (the six
      `random.gauss` draws). */
  datatype Noise = Noise(pos: Point, vel: Point)

  // ---------------------------------------------------------------------------
  // The vertical controller shared by takeoff and landing

  /** `min(max_speed, max(-max_speed, error * 2.0))`. */
  function ClimbRate(error: real): (v: real)
    ensures -MaxSpeed <= v <= MaxSpeed
    ensures (error > 0.0 ==> v > 0.0) && (error < 0.0 ==> v < 0.0) && (error == 0.0 ==> v == 0.0)
  {
    Min(MaxSpeed, Max(-MaxSpeed, error * Gain))
  }

  /** One step `z += vz * dt` at the controller's rate shrinks a nonzero error
      strictly, without overshooting the target. */
  lemma ClimbStepApproaches(error: real)
    ensures var e := error - ClimbRate(error) * Dt;
      && (error > 0.0 ==> 0.0 < e < error)
      && (error < 0.0 ==> error < e < 0.0)
      && (error == 0.0 ==> e == 0.0)
  {
    var v := ClimbRate(error);
    if error * Gain > MaxSpeed {
      assert v == MaxSpeed;
    } else if error * Gain < -MaxSpeed {
      assert v == -MaxSpeed;
    } else {
      assert v == error * Gain;
    }
  }

  // ---------------------------------------------------------------------------
  // `_update_takeoff`

  /** The takeoff step divides by `takeoff_duration` only while it is not yet
      complete; it is defined unless that division is by zero. */
  predicate TakeoffDefined(d: DroneState, now: real)
  {
    now - d.takeoffStart >= d.takeoffDuration || d.takeoffDuration != 0.0
  }

  /** `_update_takeoff`: once `takeoff_duration` has elapsed the drone is at
      `takeoff_height`, at rest vertically and `FLYING`; before that it climbs
      towards the ramp `takeoff_height * elapsed / takeoff_duration` at a
      vertical speed within `max_speed`. Only `z`, `vz` and the status change. */
  function UpdateTakeoff(d: DroneState, now: real): (r: DroneState)
    requires TakeoffDefined(d, now)
    ensures r == d.(pos := d.pos.(z := r.pos.z), vel := d.vel.(z := r.vel.z), status := r.status)
    ensures now - d.takeoffStart >= d.takeoffDuration ==>
      r.status == Flying && r.pos.z == d.takeoffHeight && r.vel.z == 0.0
    ensures now - d.takeoffStart < d.takeoffDuration ==>
      && r.status == d.status
      && -MaxSpeed <= r.vel.z <= MaxSpeed
      && r.pos.z == d.pos.z + r.vel.z * Dt
  {
    var elapsed := now - d.takeoffStart;
    if elapsed >= d.takeoffDuration then
      d.(pos := d.pos.(z := d.takeoffHeight), vel := d.vel.(z := 0.0), status := Flying)
    else
      var progress := elapsed / d.takeoffDuration;
      var targetZ := d.takeoffHeight * progress;
      var vz := ClimbRate(targetZ - d.pos.z);
      d.(vel := d.vel.(z := vz), pos := d.pos.(z := d.pos.z + vz * Dt))
  }

  /** The height the takeoff ramp asks for at time `now`. */
  function RampHeight(d: DroneState, now: real): real
    requires d.takeoffDuration != 0.0
  {
    d.takeoffHeight * ((now - d.takeoffStart) / d.takeoffDuration)
  }

  /** While the takeoff is in progress, each step brings the drone strictly
      closer to the ramp height, without overshooting it. */
  lemma TakeoffTracksRamp(d: DroneState, now: real)
    requires now - d.takeoffStart < d.takeoffDuration && d.takeoffDuration != 0.0
    ensures var h, r := RampHeight(d, now), UpdateTakeoff(d, now);
      && (d.pos.z < h ==> d.pos.z < r.pos.z <= h)
      && (d.pos.z > h ==> h <= r.pos.z < d.pos.z)
      && (d.pos.z == h ==> r.pos.z == h)
  {
    ClimbStepApproaches(RampHeight(d, now) - d.pos.z);
  }

  // ---------------------------------------------------------------------------
  // `_update_landing`

  /** `_update_landing`: within 5 cm of the ground the drone touches down (z and
      vz zero, `IDLE`); otherwise it descends or climbs towards z = 0 at a
      vertical speed within `max_speed`. Only `z`, `vz` and the status change. */
  function UpdateLanding(d: DroneState): (r: DroneState)
    ensures r == d.(pos := d.pos.(z := r.pos.z), vel := d.vel.(z := r.vel.z), status := r.status)
    ensures Abs(d.pos.z) <= LandingTolerance ==>
      r.pos.z == 0.0 && r.vel.z == 0.0 && r.status == Idle
    ensures Abs(d.pos.z) > LandingTolerance ==>
      && r.status == d.status
      && -MaxSpeed <= r.vel.z <= MaxSpeed
      && r.pos.z == d.pos.z + r.vel.z * Dt
  {
    var dz := 0.0 - d.pos.z;
    if Abs(dz) > LandingTolerance then
      var vz := ClimbRate(dz);
      d.(vel := d.vel.(z := vz), pos := d.pos.(z := d.pos.z + vz * Dt))
    else
      d.(pos := d.pos.(z := 0.0), vel := d.vel.(z := 0.0), status := Idle)
  }

  /** A landing step moves strictly towards the ground and never through it. */
  lemma LandingApproachesGround(d: DroneState)
    requires Abs(d.pos.z) > LandingTolerance
    ensures var z := UpdateLanding(d).pos.z;
      && (d.pos.z > 0.0 ==> 0.0 < z < d.pos.z)
      && (d.pos.z < 0.0 ==> d.pos.z < z < 0.0)
  {
    ClimbStepApproaches(0.0 - d.pos.z);
  }

  // ---------------------------------------------------------------------------
  // `_update_flying`

  /** `_update_flying`: farther than 5 cm from the target, the drone takes the
      velocity of length `max_speed * min(1, distance / 0.1)` towards the target
      and moves by one time step of it; otherwise it stops where it is. */
  function UpdateFlying(sqrt: real -> real, d: DroneState): (r: DroneState)
    ensures r == d.(pos := r.pos, vel := r.vel)
    ensures sqrt(NormSq(Sub(d.target, d.pos))) <= ArrivalThreshold ==>
      r.pos == d.pos && r.vel == Point(0.0, 0.0, 0.0)
  {
    var offset := Sub(d.target, d.pos);
    var distance := sqrt(NormSq(offset));
    if distance > ArrivalThreshold then
      var speedFactor := Min(1.0, distance / SlowdownDistance);
      var targetSpeed := MaxSpeed * speedFactor;
      var vel := Scale(targetSpeed, Point(offset.x / distance, offset.y / distance, offset.z / distance));
      d.(vel := vel, pos := Add(d.pos, Scale(Dt, vel)))
    else
      d.(vel := Point(0.0, 0.0, 0.0))
  }

  /** The velocity of a flying drone farther than 5 cm from its target points
      along the offset to the target and has length exactly
      `max_speed * min(1, distance / 0.1)`; the drone moves by one time step of
      it. */
  lemma FlyingVelocity(sqrt: real -> real, d: DroneState)
    requires IsSqrt(sqrt)
    requires NormSq(Sub(d.target, d.pos)) > ArrivalThreshold * ArrivalThreshold
    ensures var offset := Sub(d.target, d.pos);
      var distance := sqrt(NormSq(offset));
      var speed := MaxSpeed * Min(1.0, distance / SlowdownDistance);
      var r := UpdateFlying(sqrt, d);
      && distance > ArrivalThreshold && distance * distance == NormSq(offset)
      && 0.0 < speed <= MaxSpeed
      && r.vel == Scale(speed / distance, offset)
      && NormSq(r.vel) == speed * speed
      && r.pos == Add(d.pos, Scale(Dt, r.vel))
  {
    var offset := Sub(d.target, d.pos);
    var n := NormSq(offset);
    var distance := sqrt(n);
    NormSqNonNegative(offset);
    SqrtLessThan(sqrt, n, ArrivalThreshold);
    var speed := MaxSpeed * Min(1.0, distance / SlowdownDistance);
    ScaleOfQuotient(speed, offset, distance);
    SpeedOfScaled(speed / distance, offset, distance, speed);
  }

  /** A flying drone farther than 5 cm from its target flies at no more than
      `max_speed`, heads towards the target, and ends the step strictly closer
      to it without overshooting it. */
  lemma FlyingApproachesTarget(sqrt: real -> real, d: DroneState)
    requires IsSqrt(sqrt)
    requires NormSq(Sub(d.target, d.pos)) > ArrivalThreshold * ArrivalThreshold
    ensures var r, offset := UpdateFlying(sqrt, d), Sub(d.target, d.pos);
      && NormSq(r.vel) <= MaxSpeed * MaxSpeed
      && Dot(r.vel, offset) > 0.0
      && NormSq(Sub(d.target, r.pos)) < NormSq(offset)
      && Dot(Sub(d.target, r.pos), offset) > 0.0
  {
    var offset := Sub(d.target, d.pos);
    var distance := sqrt(NormSq(offset));
    var speed := MaxSpeed * Min(1.0, distance / SlowdownDistance);
    FlyingVelocity(sqrt, d);
    StepFraction(speed, distance);
    var r := UpdateFlying(sqrt, d);
    ScaledStepApproaches(d.pos, d.target, r.vel, speed / distance, speed);
  }

  /** Moving from `p` for one time step at the velocity `v = c (t - p)` of
      length `s <= max_speed`, with `0 < c dt < 1`, heads towards `t` and ends
      strictly closer to it, on the same side. */
  lemma ScaledStepApproaches(p: Point, t: Point, v: Point, c: real, s: real)
    requires v == Scale(c, Sub(t, p)) && 0.0 < c * Dt < 1.0
    requires NormSq(v) == s * s && 0.0 < s <= MaxSpeed
    requires NormSq(Sub(t, p)) > 0.0
    ensures NormSq(v) <= MaxSpeed * MaxSpeed
    ensures Dot(v, Sub(t, p)) > 0.0
    ensures NormSq(Sub(t, Add(p, Scale(Dt, v)))) < NormSq(Sub(t, p))
    ensures Dot(Sub(t, Add(p, Scale(Dt, v))), Sub(t, p)) > 0.0
  {
    var offset := Sub(t, p);
    var n := NormSq(offset);
    if s < MaxSpeed {
      SquareLess(s, MaxSpeed);
    }
    assert c > 0.0;
    DotScale(c, offset, offset);
    PositiveTimesPositive(c, n);
    var k := 1.0 - Dt * c;
    ShiftByScaled(t, p, Dt, c);
    NormSqScale(k, offset);
    DotScale(k, offset, offset);
    FractionShrinks(k, n);
  }

  /** `c * (a / l)` is `(c / l) * a`, componentwise. */
  lemma ScaleOfQuotient(c: real, a: Point, l: real)
    requires l != 0.0
    ensures Scale(c, Point(a.x / l, a.y / l, a.z / l)) == Scale(c / l, a)
  {
  }

  /** `0 < dt * (s / l) < 1` for `0 < s <= max_speed` and `l > 0.05`. */
  lemma StepFraction(s: real, l: real)
    requires 0.0 < s <= MaxSpeed && l > ArrivalThreshold
    ensures 0.0 < (s / l) * Dt < 1.0
  {
    var q := s / l;
    assert q * l == s;
    assert q > 0.0;
    assert q * Dt * l == s * Dt;
    assert s * Dt < l;
    assert q * Dt * l < 1.0 * l;
  }

  /** The velocity `(s / l) * a` has length `s` when `a` has length `l`. */
  lemma SpeedOfScaled(c: real, a: Point, l: real, s: real)
    requires l > 0.0 && l * l == NormSq(a) && c == s / l
    ensures NormSq(Scale(c, a)) == s * s
  {
    NormSqScale(c, a);
    assert c * l == s;
    var cc := c * c;
    assert cc * (l * l) == (c * l) * (c * l);
  }

  lemma PositiveTimesPositive(a: real, b: real)
    requires a > 0.0 && b > 0.0
    ensures a * b > 0.0
  {
  }

  /** Moving `p` by `dt * (c * (t - p))` leaves `(1 - dt * c) * (t - p)` to go. */
  lemma ShiftByScaled(t: Point, p: Point, dt: real, c: real)
    ensures Sub(t, Add(p, Scale(dt, Scale(c, Sub(t, p))))) == Scale(1.0 - dt * c, Sub(t, p))
  {
  }

  /** For `0 < k < 1` and `n > 0`: `k * k * n < n` and `k * n > 0`. */
  lemma FractionShrinks(k: real, n: real)
    requires 0.0 < k < 1.0 && n > 0.0
    ensures k * k * n < n && k * n > 0.0
  {
    var kk := k * k;
    assert kk < k by { assert kk < 1.0 * k; }
    var kkn := kk * n;
    assert kkn < 1.0 * n;
  }

  // ---------------------------------------------------------------------------
  // One drone's share of `_update_drones`

  /** The status dispatch of `_update_drones`: idle and faulted drones are not
      updated. */
  function Advance(sqrt: real -> real, d: DroneState, now: real): (r: DroneState)
    requires d.status == TakingOff ==> TakeoffDefined(d, now)
    ensures r.id == d.id && r.runId == d.runId && r.battery == d.battery && r.target == d.target
    ensures r.status == Error <==> d.status == Error
    ensures d.status in {Idle, Error} ==> r == d
  {
    match d.status
    case TakingOff => UpdateTakeoff(d, now)
    case Flying => UpdateFlying(sqrt, d)
    case Landing => UpdateLanding(d)
    case _ => d
  }

  /** The fault condition of `_update_drones`: an empty battery or a position
      outside the 2 x 2 x 1 m workspace. */
  function Faulty(d: DroneState): (faulty: bool)
    ensures !faulty <==>
      && d.battery > 0.0
      && -WorkspaceBounds <= d.pos.x <= WorkspaceBounds && -WorkspaceBounds <= d.pos.y <= WorkspaceBounds
      && d.pos.z <= MaxHeight
  {
    d.battery <= 0.0 || Abs(d.pos.x) > WorkspaceBounds || Abs(d.pos.y) > WorkspaceBounds || d.pos.z > MaxHeight
  }

  /** The body of the loop in `_update_drones` for one drone: drain the battery,
      advance the phase, add the noise, force `ERROR` on a fault and stamp the
      time. */
  function Tick(sqrt: real -> real, d: DroneState, now: real, noise: Noise): (r: DroneState)
    requires d.status == TakingOff ==> TakeoffDefined(d, now)
    ensures r.lastUpdate == now
    ensures Faulty(r) ==> r.status == Error
  {
    var drained := d.(battery := Max(0.0, d.battery - BatteryDrainRate * Dt));
    var advanced := Advance(sqrt, drained, now);
    var sensed := advanced.(pos := Add(advanced.pos, noise.pos), vel := Add(advanced.vel, noise.vel));
    sensed.(status := if Faulty(sensed) then Error else sensed.status, lastUpdate := now)
  }

  /** Every tick drains `0.1 * dt` percent, stopping at zero: from a battery in
      [0, 100] the result is in [0, 100], never higher, and strictly lower while
      the battery is not empty. */
  lemma TickDrainsBattery(sqrt: real -> real, d: DroneState, now: real, noise: Noise)
    requires d.status == TakingOff ==> TakeoffDefined(d, now)
    ensures Tick(sqrt, d, now, noise).battery == Max(0.0, d.battery - BatteryDrainRate * Dt)
    ensures 0.0 <= d.battery <= 100.0 ==> 0.0 <= Tick(sqrt, d, now, noise).battery <= d.battery
    ensures d.battery > 0.0 ==> Tick(sqrt, d, now, noise).battery < d.battery
  {
    var drained := d.(battery := Max(0.0, d.battery - BatteryDrainRate * Dt));
    assert Advance(sqrt, drained, now).battery == drained.battery;
  }

  /** The statuses a tick can lead to from each status. */
  predicate AllowedNext(before: Status, after: Status)
  {
    match before
    case Idle => after in {Idle, Error}
    case TakingOff => after in {TakingOff, Flying, Error}
    case Flying => after in {Flying, Error}
    case Landing => after in {Landing, Idle, Error}
    case Error => after == Error
  }

  /** A tick ends in `ERROR` exactly when the drone was faulted already or the
      drained, advanced and noisy state is faulty; every other status change is
      one of the phase transitions (takeoff to flying, landing to idle). */
  lemma TickStatus(sqrt: real -> real, d: DroneState, now: real, noise: Noise)
    requires d.status == TakingOff ==> TakeoffDefined(d, now)
    ensures var r := Tick(sqrt, d, now, noise);
      && (r.status == Error <==> d.status == Error || Faulty(r))
      && AllowedNext(d.status, r.status)
  {
    var drained := d.(battery := Max(0.0, d.battery - BatteryDrainRate * Dt));
    var advanced := Advance(sqrt, drained, now);
    assert advanced.status == Error <==> d.status == Error;
  }

  /** A tick stamps `last_update`, never touches the identity, the target or the
      takeoff and landing records; an idle or faulted drone moves only by the
      noise. */
  lemma TickFrame(sqrt: real -> real, d: DroneState, now: real, noise: Noise)
    requires d.status == TakingOff ==> TakeoffDefined(d, now)
    ensures var r := Tick(sqrt, d, now, noise);
      && r.lastUpdate == now && r.id == d.id && r.runId == d.runId && r.target == d.target
      && r.takeoffHeight == d.takeoffHeight && r.takeoffStart == d.takeoffStart
      && r.takeoffDuration == d.takeoffDuration && r.landStart == d.landStart
      && (d.status in {Idle, Error} ==> r.pos == Add(d.pos, noise.pos) && r.vel == Add(d.vel, noise.vel))
  {
    var drained := d.(battery := Max(0.0, d.battery - BatteryDrainRate * Dt));
    var advanced := Advance(sqrt, drained, now);
    assert advanced == advanced.(id := d.id, runId := d.runId, target := d.target,
      takeoffHeight := d.takeoffHeight, takeoffStart := d.takeoffStart,
      takeoffDuration := d.takeoffDuration, landStart := d.landStart);
  }

  // ---------------------------------------------------------------------------
  // Commands on one drone

  /** The part of `emergency_stop` applied to each drone: zero velocity and
      `IDLE`, everything else (position included) kept. */
  function Stopped(d: DroneState): (r: DroneState)
    ensures r.vel == Point(0.0, 0.0, 0.0) && r.status == Idle
    ensures r.(vel := d.vel, status := d.status) == d
  {
    d.(vel := Point(0.0, 0.0, 0.0), status := Idle)
  }
}

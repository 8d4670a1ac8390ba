/**
 * The traction allocator of one wheel for one tick (the body of
 * Sim.accel_FrictionLimited up to the current limit): the grid search for
 * peak traction, the wheel speed, torque and current that traction demands,
 * and the re-solve of a wheel whose current is clamped to the burst limit.
 */
module Traction {
  import opened Config
  import opened Loads
  import opened Results

  /**
   * The tire's friction coefficient as a function of slip ratio and normal
   * load (Tire.lonFriction with the tire's curve coefficients fixed).
   */
  type Friction = (real, real) -> real

  /** What the wheel-speed solver is asked: the fixed torque and the wheel's state at the start of the tick. */
  datatype Query = Query(torque: real, wPrev: real, fz: real, xDot: real)

  /**
   * The root-finder: some wheel speed for the residual
   * J·(w − wPrev) + r·mu(1 − xDot/(r·w), fz)·fz − torque.
   */
  type Solver = Query -> real

  /** The state of one wheel: normal load, longitudinal force, slip ratio, angular velocity, current. */
  datatype Wheel = Wheel(fz: real, p: real, slip: real, w: real, amps: real)

  /** What a wheel demands at its peak traction, before the current limit. */
  datatype Demand = Demand(p: real, slip: real, w: real, torque: real, amps: real)

  /** A point of the slip grid: its index and the traction force there. */
  datatype PeakChoice = PeakChoice(index: nat, force: real)

  /** The number of slip samples searched for peak traction. */
  const GridSize: nat := 100

  /** The slip ratio of grid point n: n/100. */
  function GridSlip(n: nat): real
  {
    n as real / 100.0
  }

  /** The traction force at grid point n under normal load fz. */
  function Sample(mu: Friction, fz: real, n: nat): real
  {
    mu(GridSlip(n), fz) * fz
  }

  /** The traction forces at all grid points, in increasing slip order. */
  function Samples(mu: Friction, fz: real): seq<real>
  {
    seq(GridSize, n requires 0 <= n => Sample(mu, fz, n))
  }

  /**
   * The position of the first maximum of a non-empty sequence, as
   * list.index(max(list)) finds it: no element is larger, and every element
   * before it is strictly smaller.
   */
  function FirstMaxIndex(s: seq<real>): (k: nat)
    requires |s| > 0
    ensures k < |s|
    ensures forall j :: 0 <= j < |s| ==> s[j] <= s[k]
    ensures forall j :: 0 <= j < k ==> s[j] < s[k]
    decreases |s|
  {
    if |s| == 1 then 0
    else
      var k := FirstMaxIndex(s[..|s| - 1]);
      if s[|s| - 1] > s[k] then |s| - 1 else k
  }

  /** Whether grid point k is the first grid point of peak traction. */
  predicate IsFirstPeak(mu: Friction, fz: real, k: nat)
  {
    && k < GridSize
    && (forall n: nat :: n < GridSize ==> Sample(mu, fz, n) <= Sample(mu, fz, k))
    && (forall n: nat :: n < k ==> Sample(mu, fz, n) < Sample(mu, fz, k))
  }

  /** At most one grid point is the first peak. */
  lemma FirstPeakUnique(mu: Friction, fz: real, k1: nat, k2: nat)
    requires IsFirstPeak(mu, fz, k1) && IsFirstPeak(mu, fz, k2)
    ensures k1 == k2
  {
    assert k1 < k2 ==> Sample(mu, fz, k1) < Sample(mu, fz, k2);
    assert k2 < k1 ==> Sample(mu, fz, k2) < Sample(mu, fz, k1);
  }

  /**
   * Peak traction under load fz: the largest of the 100 grid forces, at the
   * lowest slip that attains it; that slip lies in [0, 0.99].
   */
  function Peak(mu: Friction, fz: real): (pk: PeakChoice)
    ensures IsFirstPeak(mu, fz, pk.index)
    ensures pk.force == Sample(mu, fz, pk.index)
    ensures 0.0 <= GridSlip(pk.index) <= 0.99
  {
    var samples := Samples(mu, fz);
    var k := FirstMaxIndex(samples);
    assert forall n: nat :: n < GridSize ==> samples[n] == Sample(mu, fz, n);
    PeakChoice(k, samples[k])
  }

  /**
   * The grid scan in increasing slip order, keeping a sample only when it is
   * strictly larger than the best so far, finds the same force and slip as
   * the first-maximum definition.
   */
  method PeakSearch(mu: Friction, fz: real) returns (force: real, slip: real)
    ensures force == Peak(mu, fz).force && slip == GridSlip(Peak(mu, fz).index)
    ensures forall n: nat :: n < GridSize ==> Sample(mu, fz, n) <= force
    ensures 0.0 <= slip <= 0.99
  {
    var best := Sample(mu, fz, 0);
    var k: nat := 0;
    var n: nat := 1;
    while n < GridSize
      invariant 1 <= n <= GridSize
      invariant k < n
      invariant best == Sample(mu, fz, k)
      invariant forall j: nat :: j < n ==> Sample(mu, fz, j) <= best
      invariant forall j: nat :: j < k ==> Sample(mu, fz, j) < best
    {
      var candidate := Sample(mu, fz, n);
      if candidate > best {
        best, k := candidate, n;
      }
      n := n + 1;
    }
    FirstPeakUnique(mu, fz, k, Peak(mu, fz).index);
    force, slip := best, GridSlip(k);
  }

  /** The wheel speed at which a wheel of radius r slips by `slip` at vehicle speed xDot. */
  function WheelSpeed(xDot: real, r: real, slip: real): (w: real)
    requires r != 0.0 && slip != 1.0
    ensures w * (r * (1.0 - slip)) == xDot
  {
    xDot / (r * (1.0 - slip))
  }

  /** The slip ratio of a wheel of radius r turning at w while the vehicle moves at xDot. */
  function SlipRatio(xDot: real, r: real, w: real): (slip: real)
    requires r != 0.0 && w != 0.0
    ensures (1.0 - slip) * (r * w) == xDot
  {
    1.0 - xDot / (r * w)
  }

  /** WheelSpeed then SlipRatio gives back the slip, for a moving vehicle. */
  lemma SlipOfWheelSpeed(xDot: real, r: real, slip: real)
    requires r != 0.0 && slip != 1.0 && xDot != 0.0
    ensures WheelSpeed(xDot, r, slip) != 0.0
    ensures SlipRatio(xDot, r, WheelSpeed(xDot, r, slip)) == slip
  {
  }

  /** SlipRatio then WheelSpeed gives back the wheel speed, for a moving vehicle. */
  lemma WheelSpeedOfSlip(xDot: real, r: real, w: real)
    requires r != 0.0 && w != 0.0 && xDot != 0.0
    ensures SlipRatio(xDot, r, w) != 1.0
    ensures WheelSpeed(xDot, r, SlipRatio(xDot, r, w)) == w
  {
  }

  /**
   * What wheel `prev` demands at peak traction this tick: the peak force and
   * slip at its load, the wheel speed of that slip at the vehicle's speed,
   * the torque J·(w − wPrev) + r·P, and the current that torque draws.
   */
  function Provisional(sim: Sim, mu: Friction, xDot: real, prev: Wheel): (d: Demand)
    requires Valid(sim)
    ensures d.p == Peak(mu, prev.fz).force && d.slip == GridSlip(Peak(mu, prev.fz).index)
    ensures d.w * (sim.tire.r * (1.0 - d.slip)) == xDot
    ensures d.torque - sim.tire.r * d.p == sim.tire.j * (d.w - prev.w)
    ensures d.amps * TorqueConstant(sim.motor) * sim.motor.k == d.torque
  {
    var pk := Peak(mu, prev.fz);
    var slip := GridSlip(pk.index);
    var w := WheelSpeed(xDot, sim.tire.r, slip);
    var torque := sim.tire.j * (w - prev.w) + sim.tire.r * pk.force;
    Demand(pk.force, slip, w, torque, MotorCurrent(sim.motor, torque))
  }

  /** The solver query for a wheel whose current is clamped at the burst limit. */
  function ClampQuery(sim: Sim, xDot: real, prev: Wheel): Query
    requires Valid(sim)
  {
    Query(ClampTorque(sim.motor, BurstCurrent(sim.battery)), prev.w, prev.fz, xDot)
  }

  /**
   * One wheel after the current limit. A wheel whose demand is within the
   * burst limit keeps its peak-traction demand. A wheel above it draws
   * exactly the burst current; its speed is the solver's, and its slip and
   * force follow from that speed; a zero speed is a failure.
   * The load is the one the wheel was allocated at.
   */
  function Allocate(sim: Sim, mu: Friction, solve: Solver, xDot: real, prev: Wheel): (r: Result<Wheel>)
    requires Valid(sim)
    ensures var d := Provisional(sim, mu, xDot, prev);
      d.amps <= BurstCurrent(sim.battery) ==> r == Ok(Wheel(prev.fz, d.p, d.slip, d.w, d.amps))
    ensures Provisional(sim, mu, xDot, prev).amps > BurstCurrent(sim.battery) ==>
      (r.Err? <==> solve(ClampQuery(sim, xDot, prev)) == 0.0)
    ensures r.Ok? ==> r.value.amps <= BurstCurrent(sim.battery) && r.value.fz == prev.fz
    ensures r.Ok? && Provisional(sim, mu, xDot, prev).amps > BurstCurrent(sim.battery) ==>
      && r.value.amps == BurstCurrent(sim.battery)
      && r.value.w == solve(ClampQuery(sim, xDot, prev))
      && (1.0 - r.value.slip) * (sim.tire.r * r.value.w) == xDot
      && r.value.p == mu(r.value.slip, prev.fz) * prev.fz
  {
    var d := Provisional(sim, mu, xDot, prev);
    var limit := BurstCurrent(sim.battery);
    if d.amps > limit then
      var w := solve(ClampQuery(sim, xDot, prev));
      if w == 0.0 then Err(ZeroWheelSpeed)
      else
        var slip := SlipRatio(xDot, sim.tire.r, w);
        Ok(Wheel(prev.fz, mu(slip, prev.fz) * prev.fz, slip, w, limit))
    else
      Ok(Wheel(prev.fz, d.p, d.slip, d.w, d.amps))
  }
}

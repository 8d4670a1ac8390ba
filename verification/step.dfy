/**
 * One simulation tick (Sim.accel_FrictionLimited): all four wheels are
 * allocated from the state at the start of the tick, then drag, the
 * explicit update of acceleration, velocity and position, the weight
 * transfer and the clock.
 */
module Step {
  import opened Config
  import opened Loads
  import opened Results
  import opened Traction

  /** The forward speed the simulation starts from, kept above zero. */
  const InitialSpeed: real := 0.0001

  /** The vehicle's position, velocity, acceleration, clock and its wheels (indexed as in Loads). */
  datatype State = State(x: real, xDot: real, xDDot: real, time: real, wheels: seq<Wheel>)

  /** The normal loads of a sequence of wheels. */
  function LoadsOf(ws: seq<Wheel>): seq<real>
  {
    seq(|ws|, i requires 0 <= i < |ws| => ws[i].fz)
  }

  /** The longitudinal forces of a sequence of wheels. */
  function ForcesOf(ws: seq<Wheel>): seq<real>
  {
    seq(|ws|, i requires 0 <= i < |ws| => ws[i].p)
  }

  /**
   * The state a simulation starts in: at the origin, at rest apart from the
   * small initial speed, with the static loads and every wheel idle.
   */
  function Init(sim: Sim): (s: State)
    requires Valid(sim)
    ensures |s.wheels| == WheelCount
    ensures s.x == 0.0 && s.xDDot == 0.0 && s.time == 0.0 && s.xDot == InitialSpeed && s.xDot > 0.0
    ensures LoadsOf(s.wheels) == StaticLoads(sim.vehicle)
    ensures Sum(LoadsOf(s.wheels)) == sim.vehicle.m
    ensures forall i :: 0 <= i < WheelCount ==>
      s.wheels[i].amps == 0.0 && s.wheels[i].p == 0.0 && s.wheels[i].slip == 0.0 && s.wheels[i].w == 0.0
  {
    var fz := StaticLoads(sim.vehicle);
    State(0.0, InitialSpeed, 0.0, 0.0, seq(WheelCount, i requires 0 <= i < WheelCount => Wheel(fz[i], 0.0, 0.0, 0.0, 0.0)))
  }

  /** Aerodynamic drag at speed xDot: cd·ρ·xDot²·A/2; it opposes motion whatever the direction. */
  function Drag(v: Vehicle, xDot: real): (f: real)
    ensures 2.0 * f == v.cd * AirDensity * (xDot * xDot) * v.area
    ensures v.cd >= 0.0 && v.area >= 0.0 ==> f >= 0.0
  {
    v.cd * AirDensity * (xDot * xDot) * v.area / 2.0
  }

  /** The current limit applied to every wheel in order; the first failure stops it. */
  function AllocateEach(sim: Sim, mu: Friction, solve: Solver, xDot: real, prev: seq<Wheel>): (r: Result<seq<Wheel>>)
    requires Valid(sim)
    ensures r.Ok? <==> forall i :: 0 <= i < |prev| ==> Allocate(sim, mu, solve, xDot, prev[i]).Ok?
    ensures r.Ok? ==> |r.value| == |prev|
    ensures r.Ok? ==> forall i :: 0 <= i < |prev| ==> r.value[i] == Allocate(sim, mu, solve, xDot, prev[i]).value
    decreases |prev|
  {
    if |prev| == 0 then Ok([])
    else
      match Allocate(sim, mu, solve, xDot, prev[0])
      case Err(f) => Err(f)
      case Ok(first) =>
        match AllocateEach(sim, mu, solve, xDot, prev[1..])
        case Err(f) => Err(f)
        case Ok(rest) => Ok([first] + rest)
  }

  /**
   * The relation one explicit update establishes between state s and the
   * next state n, given the wheels n carries: m·ẍ is the sum of the wheel
   * forces less the drag at the old speed; velocity and then position
   * advance by one step, the position with the new velocity; the loads are
   * the static loads shifted by the weight transfer of the new acceleration;
   * the clock advances by dt.
   */
  predicate Advanced(sim: Sim, s: State, n: State)
    requires Valid(sim)
  {
    && |n.wheels| == WheelCount
    && sim.vehicle.m * n.xDDot == Sum(ForcesOf(n.wheels)) - Drag(sim.vehicle, s.xDot)
    && n.xDot - s.xDot == n.xDDot * sim.dt
    && n.x - s.x == n.xDot * sim.dt
    && n.time == s.time + sim.dt
    && LoadsOf(n.wheels) == TransferLoads(StaticLoads(sim.vehicle), WeightTransfer(sim.vehicle, n.xDDot))
  }

  /**
   * The vehicle update once the wheels ws are allocated. The loads it
   * produces total m and stay equal across each axle; everything else about
   * the wheels is kept.
   */
  function Advance(sim: Sim, s: State, ws: seq<Wheel>): (n: State)
    requires Valid(sim) && |ws| == WheelCount
    ensures Advanced(sim, s, n)
    ensures forall i :: 0 <= i < WheelCount ==> n.wheels[i] == ws[i].(fz := n.wheels[i].fz)
    ensures Sum(LoadsOf(n.wheels)) == sim.vehicle.m
    ensures var fz := LoadsOf(n.wheels); fz[0] == fz[1] && fz[2] == fz[3]
  {
    var v := sim.vehicle;
    var xDDot := (Sum(ForcesOf(ws)) - Drag(v, s.xDot)) / v.m;
    var xDot := s.xDot + xDDot * sim.dt;
    var x := s.x + xDot * sim.dt;
    var fz := TransferLoads(StaticLoads(v), WeightTransfer(v, xDDot));
    var wheels := seq(WheelCount, i requires 0 <= i < WheelCount => ws[i].(fz := fz[i]));
    assert ForcesOf(wheels) == ForcesOf(ws);
    assert LoadsOf(wheels) == fz;
    State(x, xDot, xDDot, s.time + sim.dt, wheels)
  }

  /**
   * One tick from state s: it fails exactly when some wheel fails;
   * otherwise every wheel carries its allocation and draws at most the
   * burst current, the vehicle advances, and the loads total m and stay
   * equal across each axle.
   */
  function Tick(sim: Sim, mu: Friction, solve: Solver, s: State): (r: Result<State>)
    requires Valid(sim) && |s.wheels| == WheelCount
    ensures r.Ok? <==> forall i :: 0 <= i < WheelCount ==> Allocate(sim, mu, solve, s.xDot, s.wheels[i]).Ok?
    ensures r.Ok? ==> Advanced(sim, s, r.value)
    ensures r.Ok? ==> forall i :: 0 <= i < WheelCount ==>
      r.value.wheels[i] == Allocate(sim, mu, solve, s.xDot, s.wheels[i]).value.(fz := r.value.wheels[i].fz)
    ensures r.Ok? ==> forall i :: 0 <= i < WheelCount ==> r.value.wheels[i].amps <= BurstCurrent(sim.battery)
    ensures r.Ok? ==> Sum(LoadsOf(r.value.wheels)) == sim.vehicle.m
    ensures r.Ok? ==> var fz := LoadsOf(r.value.wheels); fz[0] == fz[1] && fz[2] == fz[3]
  {
    match AllocateEach(sim, mu, solve, s.xDot, s.wheels)
    case Err(f) => Err(f)
    case Ok(ws) => Ok(Advance(sim, s, ws))
  }
}

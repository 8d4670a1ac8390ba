/**
 * The configuration records of the simulation (Vehicle, Motor, Battery and
 * Tire in main.py) and the constants their constructors derive.
 * All quantities are exact reals; main.py works in floating point.
 */
module Config {

  /** Factor converting RPM to rad/s inside the motor's torque constant. */
  const RpmToRadPerSec: real := 0.10472

  /** Burst current as a multiple of the continuous current: the pack is fused at twice that current. */
  const BurstFactor: real := 1.95

  /** Air density in the aerodynamic drag term, kg/m^3. */
  const AirDensity: real := 1.225

  /** Gravitational acceleration in the weight-transfer term, m/s^2. */
  const Gravity: real := 9.81

  /**
   * a and b: distance from the centre of gravity to the front and rear axle;
   * m: mass; h: height of the centre of gravity; cd: drag coefficient;
   * area: aerodynamic reference area.
   */
  datatype Vehicle = Vehicle(a: real, b: real, m: real, h: real, cd: real, area: real)

  /** kv: speed constant in RPM per volt; k: drivetrain efficiency. */
  datatype Motor = Motor(kv: real, k: real)

  /** ah: capacity; c: continuous discharge rating; v: nominal voltage; burstTime: time allowed at burst current. */
  datatype Battery = Battery(ah: real, c: real, v: real, burstTime: real)

  /**
   * r: effective rolling radius; j: rotational inertia of the wheel.
   * The four curve coefficients are folded into the friction function that
   * the simulation is given, so they are not fields here.
   */
  datatype Tire = Tire(r: real, j: real)

  /** One simulation: the component records, the time step and the run length. */
  datatype Sim = Sim(vehicle: Vehicle, motor: Motor, tire: Tire, battery: Battery, dt: real, runtime: real)

  /** The wheelbase l: both axle distances together. */
  function Wheelbase(v: Vehicle): (l: real)
    ensures l - v.a == v.b && l - v.b == v.a
    ensures v.a > 0.0 && v.b > 0.0 ==> l > v.a && l > v.b
  {
    v.a + v.b
  }

  /** The torque constant Kt in N·m/A: the reciprocal of the speed constant in rad/s per volt. */
  function TorqueConstant(motor: Motor): (kt: real)
    requires motor.kv != 0.0
    ensures kt * (motor.kv * RpmToRadPerSec) == 1.0
    ensures kt > 0.0 <==> motor.kv > 0.0
  {
    1.0 / (motor.kv * RpmToRadPerSec)
  }

  /** The continuous current rating, C times the capacity. */
  function ContinuousCurrent(bat: Battery): real
  {
    bat.c * bat.ah
  }

  /** The burst current limit: 1.95 times the continuous rating, below the 2x fuse rating. */
  function BurstCurrent(bat: Battery): (limit: real)
    ensures limit == BurstFactor * (bat.c * bat.ah)
    ensures ContinuousCurrent(bat) > 0.0 ==> ContinuousCurrent(bat) < limit < 2.0 * ContinuousCurrent(bat)
    ensures limit >= 0.0 <==> ContinuousCurrent(bat) >= 0.0
  {
    BurstFactor * ContinuousCurrent(bat)
  }

  /** The current a wheel's motor draws to deliver a driveline torque: T / Kt * (1 / k). */
  function MotorCurrent(motor: Motor, torque: real): (amps: real)
    requires motor.kv != 0.0 && motor.k != 0.0
    ensures amps * TorqueConstant(motor) * motor.k == torque
  {
    torque / TorqueConstant(motor) * (1.0 / motor.k)
  }

  /** The torque recomputed for a current-limited wheel: amps * Kt * (1 / k). */
  function ClampTorque(motor: Motor, amps: real): (torque: real)
    requires motor.kv != 0.0 && motor.k != 0.0
    ensures torque * motor.k == amps * TorqueConstant(motor)
  {
    amps * TorqueConstant(motor) * (1.0 / motor.k)
  }

  /**
   * The clamp's torque is not the torque that draws the clamped current:
   * feeding it back through MotorCurrent gives amps / k², which equals
   * amps only for an efficiency of magnitude one.
   */
  lemma ClampTorqueNotInverse(motor: Motor, amps: real)
    requires motor.kv != 0.0 && motor.k != 0.0 && amps != 0.0
    ensures MotorCurrent(motor, ClampTorque(motor, amps)) * (motor.k * motor.k) == amps
    ensures MotorCurrent(motor, ClampTorque(motor, amps)) == amps <==> motor.k * motor.k == 1.0
  {
  }

  /**
   * The divisors of the simulation are non-zero: the wheelbase, the mass,
   * the speed constant, the efficiency, the tire radius and the time step.
   * With any of them zero main.py divides by zero.
   */
  predicate Valid(sim: Sim)
  {
    && Wheelbase(sim.vehicle) != 0.0
    && sim.vehicle.m != 0.0
    && sim.motor.kv != 0.0
    && sim.motor.k != 0.0
    && sim.tire.r != 0.0
    && sim.dt != 0.0
  }
}

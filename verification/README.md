# evlongsim core, modelled in Dafny

evlongsim simulates a four-wheel-drive vehicle accelerating in a straight line. Tire friction, battery current and aerodynamic drag all limit the acceleration. This project models the simulation's core from `main.py` over exact reals:

- the configuration records and the constants derived from them (`config.dfy`);
- the static load split and the weight transfer (`loads.dfy`);
- one wheel's traction allocation (`traction.dfy`): the 100-point search for peak traction, then the wheel speed, torque and current that traction demands, then the burst-current clamp and the re-solve of a clamped wheel;
- one tick of `Sim.accel_FrictionLimited` (`step.dfy`): all four wheels are allocated from the state at the start of the tick, then drag, the explicit update of acceleration, velocity and position, the load transfer and the clock;
- the driver `Sim.__call__` (`driver.dfy`). It runs `int(runtime/dt)` ticks, and each tick's full result becomes the current state (`update_values`) and one row of the output log.

The tire curve `Tire.lonFriction` is a parameter `mu: (real, real) -> real`, a friction coefficient as a function of slip ratio and normal load. Nothing is assumed about it. The `fsolve` root-finder is a parameter `solve: Query -> real`. It is given the clamped torque and the wheel's state at the start of the tick, and it may return any wheel speed. If it returns 0, the slip ratio `1 − ẋ/(r·w)` is undefined. main.py would then carry an infinite value on. The model stops the tick with `Err(ZeroWheelSpeed)`, and the run stops with it.

Wheels are indexed as in the source: 0 right front, 1 left front, 2 left rear, 3 right rear. `Loads.IsFront` names the front-axle test `n <= 1`.

Three details of main.py are kept as written:

- The static loads are `m·b/l/2` and `m·a/l/2`. They sum to the mass `m`, not to the weight `m·g`. The weight transfer divides by `g`, so it is in the same mass units. The wheel forces `μ·Fz` are in the same units as well. `Loads.StaticLoads` proves the loads sum to `m`.
- A clamped wheel's torque is recomputed as `amps·Kt·(1/k)` (main.py:192). The current is computed as `T/Kt·(1/k)` (main.py:184). The two are inverse only when `k² = 1`. `Config.ClampTorqueNotInverse` proves that feeding the clamp torque back through the current formula gives `amps/k²`.
- The torque `J·(w − w_prev) + r·P` has no division by the time step on its inertia term.

`Config.Valid` requires the non-zero divisors the code relies on: the wheelbase, the mass, `Kv`, `k`, the tire radius and `dt`. With any of them zero, main.py divides by zero.

## Model

| member | source | states |
|---|---|---|
| Config.Wheelbase | main.py:32 | the wheelbase is the sum of the two axle distances, so it exceeds each when both are positive |
| Config.TorqueConstant | main.py:44 | Kt is the reciprocal of Kv·0.10472, positive exactly when Kv is |
| Config.BurstCurrent | main.py:59-60 | the burst limit is 1.95·C·Ah, strictly between the continuous rating C·Ah and the 2x fuse rating when that rating is positive, and non-negative exactly when it is |
| Config.MotorCurrent | main.py:184 | the current drawn, multiplied back by Kt·k, gives the torque |
| Config.ClampTorque | main.py:192 | the clamp torque times k equals amps·Kt |
| Config.ClampTorqueNotInverse | main.py:184-192 | the current of the clamp torque is amps/k², which equals amps exactly when k² = 1 |
| Loads.StaticLoads | main.py:103-106 | each front wheel carries half of m·b/l and each rear wheel half of m·a/l; the two wheels of an axle are equal and all four sum to m |
| Loads.WeightTransfer | main.py:211 | the transfer times l·g equals h·m·ẍ; for positive h·m/l it is positive exactly when the acceleration is |
| Loads.TransferLoads | main.py:213-217 | front wheels lose and rear wheels gain half the transfer; the front axle loses exactly the transfer and the rear axle gains it; differences within an axle and the total load are unchanged |
| Loads.TransferConservesLoad | main.py:211-217 | for any acceleration the transferred static loads sum to m and stay equal within each axle |
| Traction.FirstMaxIndex | main.py:162-172 | the index found is that of a maximum, and every earlier element is strictly smaller, as list.index(max(list)) finds it |
| Traction.FirstPeakUnique | main.py:162-172 | at most one grid point is the first point of peak traction |
| Traction.Peak | main.py:154-172 | the chosen grid point has the largest of the 100 forces mu(n/100, Fz)·Fz, no earlier point reaches it, and its slip lies in [0, 0.99] |
| Traction.PeakSearch | main.py:154-172 | a single scan keeping strictly larger samples returns the same force and slip as the first-maximum definition |
| Traction.WheelSpeed | main.py:175-176 | the wheel speed times r·(1 − slip) gives the vehicle speed |
| Traction.SlipRatio | main.py:194 | (1 − slip)·r·w gives the vehicle speed |
| Traction.SlipOfWheelSpeed | main.py:176-194 | for a moving vehicle, the slip of the wheel speed of a slip is that slip |
| Traction.WheelSpeedOfSlip | main.py:176-194 | for a moving vehicle, the wheel speed of the slip of a wheel speed is that wheel speed |
| Traction.Provisional | main.py:174-184 | an unclamped wheel takes the peak force and slip at its load, turns at the speed that slip gives, needs torque J·(w − w_prev) + r·P and draws the current of that torque |
| Traction.Allocate | main.py:188-195 | a wheel at or below the burst limit keeps its force, slip, speed and current; a wheel above it draws exactly the burst current, turns at the solver's speed for torque Burst·Kt/k, and has the slip and force of that speed; the allocation fails exactly when the solver returns 0; no wheel exceeds the burst current |
| Step.Init | main.py:97-109 | the run starts at the origin with speed exactly 0.0001, zero acceleration and time, the static loads summing to m, and every wheel idle |
| Step.Drag | main.py:197-198 | twice the drag is cd·1.225·ẋ²·A, and the drag is non-negative when cd and A are |
| Step.AllocateEach | main.py:188-195 | the four allocations succeed exactly when each wheel's does, and then each wheel holds its own allocation |
| Step.Advance | main.py:201-219 | m·ẍ is the wheel forces less the drag; velocity moves by ẍ·dt, then position by the new velocity times dt; loads are the transferred static loads, summing to m and equal within each axle; time moves by dt; forces, slips, speeds and currents are kept |
| Step.Tick | main.py:139-221 | a tick fails exactly when some wheel's allocation fails; otherwise each wheel holds its allocation at its new load, draws at most the burst current, the vehicle advances, and the loads sum to m and stay equal within each axle |
| Driver.TickCount | main.py:224 | the tick count is int(runtime/dt): the floor of a non-negative quotient, and 0 for a quotient below 1 |
| Driver.ReferenceTickCount | main.py:244 | the reference run of 20 s at 0.01 s takes 2000 ticks |
| Driver.Trace | main.py:223-226 | the log after n ticks has n well-formed rows, each the step from the previous row |
| Driver.TraceClocked | main.py:219-226 | starting at time 0, row i of the log is stamped (i + 1)·dt |
| Driver.TraceProduces | main.py:223-235 | every row of the log satisfies what every output of the step satisfies |
| Driver.Run | main.py:223-237 | the loop logs one row per successful tick and stops after the tick count or at the first failing tick; the log is the trace of its length |
| Driver.SimStep | main.py:225-226 | the driver's step is the simulation tick on every four-wheel state |
| Driver.SimStepFacts | main.py:189-219 | every tick advances the clock by dt, keeps the loads summing to m and keeps every wheel at or below the burst current |
| Driver.Simulate | main.py:223-237 | the simulation's log is the trace of int(runtime/dt) ticks unless a tick failed; row i is stamped (i + 1)·dt; every row has loads summing to m and no wheel above the burst current |

## Left out

- The tire curve's values (main.py:77-80). The sine/arctangent formula is a parameter `mu` about which nothing is assumed, so no property depends on its shape. The division `Fx/normalForce` in `lonFriction` is not modelled; for a zero load main.py returns NaN.
- The root-finder `scipy.optimize.fsolve` and its residual `w_fun` (main.py:135-137, 193). They are iterative floating-point numerics in foreign code. The model takes some wheel speed from the `solve` parameter. Whether that speed is a root of the residual, and whether the solver converged, is not modelled.
- Floating-point rounding. Everything is exact over reals, so load conservation and the `n·dt` clock hold exactly only in the model. The tick count can differ as well; see the `Driver.TickCount` line below. The peak search also assumes no NaN among the samples.
- Driver.TickCount: the count is the floor of the exact quotient runtime/dt. main.py truncates the floating-point quotient, so its count can be one less when that quotient rounds to just below a whole number: for runtime 0.3 and dt 0.1 the float quotient is 2.9999999999999996, so main.py runs 2 ticks and the model runs 3. For the reference run, 20/0.01 is exactly 2000.0 in floating point too, so both give 2000.
- Division by zero. `Config.Valid` requires non-zero divisors instead of modelling the exceptions and infinities main.py produces.
- A zero wheel speed from the solver. main.py propagates infinities and NaNs; the model ends the run with `Err(ZeroWheelSpeed)` instead.
- The pandas DataFrame (main.py:111-121, 227-237). The log is a sequence of `State` values. Each value holds exactly the 24 logged columns: time, x, ẋ, ẍ and, per wheel, current, normal load, force, slip and speed.
- The `print` of the drag (main.py:199).
- The module-level configuration, the run and the plotting (main.py:239-259). These are I/O and visualisation. Only the reference tick count of the configured run is kept, as `Driver.ReferenceTickCount`.
- Battery voltage and burst time. They are stored but never used by the simulation; the burst-time limit is a TODO in the source.

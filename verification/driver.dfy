/**
 * The simulation driver (Sim.__call__): a fixed number of ticks, each
 * committed as the current state and appended to the output log.
 */
module Driver {
  import opened Config
  import opened Loads
  import opened Results
  import opened Traction
  import opened Step

  /**
   * The number of ticks, int(runtime / dt): the quotient truncated toward
   * zero, where a negative count runs no tick at all.
   */
  function TickCount(runtime: real, dt: real): (n: nat)
    requires dt != 0.0
    ensures runtime / dt >= 0.0 ==> n as real <= runtime / dt < n as real + 1.0
    ensures runtime / dt < 1.0 ==> n == 0
  {
    var q := runtime / dt;
    if q < 0.0 then 0 else q.Floor
  }

  /** The reference run of 20 s in steps of 0.01 s takes 2000 ticks. */
  lemma ReferenceTickCount()
    ensures TickCount(20.0, 0.01) == 2000
  {
  }

  /** A state the driver can step: it has the four wheels the source's lists hold. */
  predicate WellFormed(s: State)
  {
    |s.wheels| == WheelCount
  }

  /** A step is defined on every well-formed state and keeps it well formed. */
  ghost predicate Closed(step: State --> Result<State>)
  {
    forall s :: WellFormed(s) ==> step.requires(s) && (step(s).Ok? ==> WellFormed(step(s).value))
  }

  /** A step advances the clock by dt. */
  ghost predicate Advances(step: State --> Result<State>, dt: real)
    requires Closed(step)
  {
    forall s :: WellFormed(s) && step(s).Ok? ==> step(s).value.time == s.time + dt
  }

  /** Every state a step produces satisfies `good`. */
  ghost predicate Produces(step: State --> Result<State>, good: State -> bool)
    requires Closed(step)
  {
    forall s :: WellFormed(s) && step(s).Ok? ==> good(step(s).value)
  }

  /** The state tick i starts from: the initial state, or the state the previous tick logged. */
  function Before(s0: State, log: seq<State>, i: nat): State
    requires i <= |log|
  {
    if i == 0 then s0 else log[i - 1]
  }

  /**
   * The output log after n ticks: each tick starts from the state the
   * previous tick committed (s0 for the first) and appends its full result;
   * the first failing tick ends the run.
   */
  function Trace(step: State --> Result<State>, s0: State, n: nat): (r: Result<seq<State>>)
    requires WellFormed(s0) && Closed(step)
    ensures r.Ok? ==> |r.value| == n
    ensures r.Ok? ==> forall i :: 0 <= i < n ==> WellFormed(r.value[i])
    decreases n
  {
    if n == 0 then Ok([])
    else
      match Trace(step, s0, n - 1)
      case Err(f) => Err(f)
      case Ok(log) =>
        match step(Before(s0, log, n - 1))
        case Err(f) => Err(f)
        case Ok(next) => Ok(log + [next])
  }

  /** Row i of a log is stamped (i + 1)·dt. */
  predicate Clocked(log: seq<State>, dt: real)
  {
    forall i :: 0 <= i < |log| ==> log[i].time == (i + 1) as real * dt
  }

  /** Starting at time 0 with a step that advances the clock by dt, tick i ends at (i + 1)·dt. */
  lemma {:induction false} TraceClocked(step: State --> Result<State>, s0: State, n: nat, dt: real)
    requires WellFormed(s0) && Closed(step) && Advances(step, dt) && s0.time == 0.0
    requires Trace(step, s0, n).Ok?
    ensures Clocked(Trace(step, s0, n).value, dt)
  {
    if n > 0 {
      var log := Trace(step, s0, n - 1).value;
      TraceClocked(step, s0, n - 1, dt);
      var s := Before(s0, log, n - 1);
      var next := step(s).value;
      assert s.time == (n - 1) as real * dt;
      assert next.time == n as real * dt;
      assert Trace(step, s0, n).value == log + [next];
    }
  }

  /** Every row of a trace satisfies what every output of its step satisfies. */
  lemma {:induction false} TraceProduces(step: State --> Result<State>, s0: State, n: nat, good: State -> bool)
    requires WellFormed(s0) && Closed(step) && Produces(step, good)
    requires Trace(step, s0, n).Ok?
    ensures forall i :: 0 <= i < n ==> good(Trace(step, s0, n).value[i])
  {
    if n > 0 {
      var log := Trace(step, s0, n - 1).value;
      TraceProduces(step, s0, n - 1, good);
      var next := step(Before(s0, log, n - 1)).value;
      assert Trace(step, s0, n).value == log + [next];
    }
  }

  /**
   * The tick loop: steps are taken until `ticks` of them are done or one
   * fails. The log holds one row per completed step and is the trace of
   * that many steps; a run stops early only when the next step fails.
   */
  method Run(step: State --> Result<State>, s0: State, ticks: nat) returns (log: seq<State>, completed: bool)
    requires WellFormed(s0) && Closed(step)
    ensures |log| <= ticks
    ensures completed <==> |log| == ticks
    ensures Trace(step, s0, |log|) == Ok(log)
    ensures !completed ==> Trace(step, s0, |log| + 1).Err?
  {
    var s := s0;
    log := [];
    completed := true;
    while |log| < ticks
      invariant |log| <= ticks
      invariant Trace(step, s0, |log|) == Ok(log)
      invariant s == Before(s0, log, |log|) && WellFormed(s)
      decreases ticks - |log|
    {
      var result := step(s);
      if result.Err? {
        completed := false;
        break;
      }
      log, s := log + [result.value], result.value;
    }
  }

  /** One tick of simulation `sim`, as a step of the driver. */
  function SimStep(sim: Sim, mu: Friction, solve: Solver): (step: State --> Result<State>)
    requires Valid(sim)
    ensures Closed(step)
    ensures forall s :: WellFormed(s) ==> step(s) == Tick(sim, mu, solve, s)
  {
    s requires WellFormed(s) => Tick(sim, mu, solve, s)
  }

  /** What every row of a simulation satisfies: four wheels whose loads total m, none above the burst current. */
  predicate Bounded(sim: Sim, s: State)
  {
    && WellFormed(s)
    && Sum(LoadsOf(s.wheels)) == sim.vehicle.m
    && forall j :: 0 <= j < WheelCount ==> s.wheels[j].amps <= BurstCurrent(sim.battery)
  }

  /** A tick advances the clock by dt and produces bounded states. */
  lemma SimStepFacts(sim: Sim, mu: Friction, solve: Solver)
    requires Valid(sim)
    ensures Advances(SimStep(sim, mu, solve), sim.dt)
    ensures Produces(SimStep(sim, mu, solve), s => Bounded(sim, s))
  {
    var step := SimStep(sim, mu, solve);
    forall s | WellFormed(s) && step(s).Ok?
      ensures step(s).value.time == s.time + sim.dt && Bounded(sim, step(s).value)
    {
      assert step(s) == Tick(sim, mu, solve, s);
    }
  }

  /**
   * The simulation (Sim.__call__): int(runtime / dt) ticks from the initial
   * state. The log is the trace of its ticks, one row per tick, complete
   * unless a tick failed; row i is stamped (i + 1)·dt; in every row the
   * loads total m and no wheel draws more than the burst current.
   */
  method Simulate(sim: Sim, mu: Friction, solve: Solver) returns (log: seq<State>, completed: bool)
    requires Valid(sim)
    ensures completed <==> |log| == TickCount(sim.runtime, sim.dt)
    ensures |log| <= TickCount(sim.runtime, sim.dt)
    ensures Trace(SimStep(sim, mu, solve), Init(sim), |log|) == Ok(log)
    ensures !completed ==> Trace(SimStep(sim, mu, solve), Init(sim), |log| + 1).Err?
    ensures Clocked(log, sim.dt)
    ensures forall i :: 0 <= i < |log| ==> Bounded(sim, log[i])
  {
    var step := SimStep(sim, mu, solve);
    log, completed := Run(step, Init(sim), TickCount(sim.runtime, sim.dt));
    SimStepFacts(sim, mu, solve);
    TraceClocked(step, Init(sim), |log|, sim.dt);
    TraceProduces(step, Init(sim), |log|, s => Bounded(sim, s));
  }
}

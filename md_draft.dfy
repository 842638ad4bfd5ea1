/**
 * The earlier engine, md-example/src/lib.rs: the same pipeline as the newer
 * one but with no step counter, a `Potential::update_to_force_buffer` whose
 * default body is empty, and an `LJPotential` whose force is a placeholder.
 * Since nothing ever writes the pair-force buffer, every scatter adds zeros.
 */
module MdDraft {
  import opened Primitives
  import opened MdCore

  /** `LJPotential`: two coefficients, never read. */
  datatype LjPotential = LjPotential(lj1: real, lj2: real)
  {
    /** `LJPotential::force`: a placeholder. */
    function Force(dr: real, typeI: u8, typeJ: u8): real { 0.0 }
  }

  /** The placeholder force is zero for every potential, distance and pair of
      types. */
  lemma ForceIsZero(pot: LjPotential, dr: real, typeI: u8, typeJ: u8)
    ensures pot.Force(dr, typeI, typeJ) == 0.0
  {
  }

  /** The default `Potential::update_to_force_buffer`: it is handed the
      configuration and the workhorse mutably and changes neither. */
  method UpdateToForceBuffer(pot: LjPotential, config: Configuration, wh: SimWorkhorse)
    modifies config, wh
    ensures unchanged(config) && unchanged(wh)
  {
  }

  /** `update_force_buffer` on values: only the `assert_ne!` can stop it. */
  function ForceBufferStep<P>(setup: SimSetup<P>): Outcome
  {
    if |setup.potentials| == 0 then Panicked(NoPotentials) else Completed
  }

  /** `Simulation::update_force_buffer`. */
  method UpdateForceBuffer(sim: Simulation<LjPotential>) returns (o: Outcome)
    requires sim.Valid()
    modifies sim.configuration, sim.workhorse
    ensures unchanged(sim.configuration) && unchanged(sim.workhorse)
    ensures o == ForceBufferStep(sim.Setup())
  {
    if |sim.potentials| == 0 {
      return Panicked(NoPotentials);
    }
    for k := 0 to |sim.potentials|
      invariant unchanged(sim.configuration) && unchanged(sim.workhorse)
    {
      UpdateToForceBuffer(sim.potentials[k], sim.configuration, sim.workhorse);
    }
    return Completed;
  }

  /** One iteration of the draft `run`: the four stages in order, each
      stopping the step at its panic with the state reached so far. There is
      no step counter. */
  function StepSpec<P>(setup: SimSetup<P>, s: SimState): (Outcome, SimState)
  {
    var (o1, s1) := QuerySpec(setup, s);
    if o1.Panicked? then (o1, s1)
    else
      var o2 := ForceBufferStep(setup);
      if o2.Panicked? then (o2, s1)
      else
        var (o3, s3) := ScatterStep(setup, s1);
        if o3.Panicked? then (o3, s3)
        else IntegrateStep(setup, s3)
  }

  /** The draft `run(steps)`: up to `steps` iterations, stopping at the first
      panic. */
  function RunSpec<P>(setup: SimSetup<P>, s: SimState, steps: nat): (Outcome, SimState)
    decreases steps
  {
    if steps == 0 then (Completed, s)
    else
      var (o, t) := StepSpec(setup, s);
      if o.Panicked? then (o, t) else RunSpec(setup, t, steps - 1)
  }

  /** One iteration of the loop in the draft `Simulation::run`. */
  method Step(sim: Simulation<LjPotential>) returns (o: Outcome)
    requires sim.Valid()
    modifies sim.configuration, sim.workhorse
    modifies sim.configuration.position, sim.configuration.velocity, sim.configuration.force
    ensures unchanged(sim) && unchanged(sim.configuration)
    ensures (o, sim.State()) == StepSpec(sim.Setup(), old(sim.State()))
  {
    o := sim.QueryNlistAndClearForceBuffer();
    if o.Panicked? {
      return;
    }
    o := UpdateForceBuffer(sim);
    if o.Panicked? {
      return;
    }
    o := sim.ApplyBufferToForces();
    if o.Panicked? {
      return;
    }
    o := sim.IntegrateDynamics();
  }

  /** The draft `Simulation::run`. */
  method Run(sim: Simulation<LjPotential>, steps: nat) returns (o: Outcome)
    requires sim.Valid()
    modifies sim.configuration, sim.workhorse
    modifies sim.configuration.position, sim.configuration.velocity, sim.configuration.force
    ensures unchanged(sim) && unchanged(sim.configuration)
    ensures (o, sim.State()) == RunSpec(sim.Setup(), old(sim.State()), steps)
  {
    ghost var s0 := sim.State();
    for k := 0 to steps
      invariant unchanged(sim) && unchanged(sim.configuration)
      invariant RunSpec(sim.Setup(), s0, steps) == RunSpec(sim.Setup(), sim.State(), steps - k)
    {
      o := Step(sim);
      if o.Panicked? {
        return;
      }
    }
    return Completed;
  }

  // ---------------------------------------------------------------------
  // Properties of a step and of `run`

  /** The draft has no step counter: no run changes `timestep`. */
  lemma {:induction false} RunKeepsTimestep<P>(setup: SimSetup<P>, s: SimState, steps: nat)
    ensures RunSpec(setup, s, steps).1.timestep == s.timestep
    decreases steps
  {
    if steps > 0 {
      var (o, t) := StepSpec(setup, s);
      if o.Completed? {
        RunKeepsTimestep(setup, t, steps - 1);
      }
    }
  }

  /** Every scatter of the draft adds zero vectors, so no step changes a force
      row, whether or not it panics. */
  lemma StepKeepsForces<P>(setup: SimSetup<P>, s: SimState)
    ensures StepSpec(setup, s).1.force == s.force
  {
    var (o1, s1) := QuerySpec(setup, s);
    QueryResetsBuffers(setup, s);
    if o1.Completed? {
      ScatterZeroBufferKeepsForces(s1.force, s1.query, s1.buffer, setup.dim);
    }
  }

  lemma {:induction false} RunKeepsForces<P>(setup: SimSetup<P>, s: SimState, steps: nat)
    ensures RunSpec(setup, s, steps).1.force == s.force
    decreases steps
  {
    if steps > 0 {
      StepKeepsForces(setup, s);
      var (o, t) := StepSpec(setup, s);
      if o.Completed? {
        RunKeepsForces(setup, t, steps - 1);
      }
    }
  }

  /** Missing strategies are found inside the step, in pipeline order: no
      neighbour list panics before anything changes; no potentials panics
      after the buffers were reset; no integrator panics after the scatter. */
  lemma StepPanicOrder<P>(setup: SimSetup<P>, s: SimState)
    ensures setup.nlist.None? ==> StepSpec(setup, s) == (Panicked(NoNeighborList), s)
    ensures setup.nlist.Some? && setup.potentials == [] ==>
      StepSpec(setup, s) == (Panicked(NoPotentials), QuerySpec(setup, s).1)
    ensures (&& setup.nlist.Some? && setup.potentials != [] && setup.integrator.None?
             && ScatterStep(setup, QuerySpec(setup, s).1).0 == Completed) ==>
      StepSpec(setup, s) == (Panicked(NoIntegrator), ScatterStep(setup, QuerySpec(setup, s).1).1)
  {
  }

  /** A draft step completes exactly when all three strategies are present,
      every listed pair fits the force array, and the velocity and force
      arrays have as many rows as the position array; then the pair list is
      the query result, the buffer is all zeros, the force rows are as they
      were and each particle's position and velocity rows are `update_pos` of
      its own rows. */
  lemma StepCompletesIff<P>(setup: SimSetup<P>, s: SimState)
    ensures StepSpec(setup, s).0 == Completed <==>
      && setup.nlist.Some? && setup.potentials != [] && setup.integrator.Some?
      && (forall k :: 0 <= k < |setup.nlist.value.nlist| ==>
            PairFits(s.force, setup.nlist.value.nlist[k], setup.dim))
      && |s.velocity| == |s.position| && |s.force| == |s.position|
    ensures StepSpec(setup, s).0 == Completed ==>
      var t := StepSpec(setup, s).1;
      && t.timestep == s.timestep
      && t.force == s.force
      && t.query == setup.nlist.value.nlist
      && |t.buffer| == |t.query| && (forall k :: 0 <= k < |t.buffer| ==> t.buffer[k] == Zero3)
      && |t.position| == |s.position| && |t.velocity| == |s.position|
      && forall r :: 0 <= r < |s.position| ==>
           (t.position[r], t.velocity[r])
             == setup.integrator.value.updatePos(s.position[r], s.velocity[r], s.force[r])
  {
    QueryResetsBuffers(setup, s);
    var (o1, s1) := QuerySpec(setup, s);
    if o1.Completed? {
      ScatterCompletesIff(s1.force, s1.query, s1.buffer, setup.dim);
      ScatterZeroBufferKeepsForces(s1.force, s1.query, s1.buffer, setup.dim);
      var (o3, s3) := ScatterStep(setup, s1);
      assert s3.force == s.force;
      if setup.integrator.Some? {
        IntegrateKeepsShape(setup.integrator.value, s3.position, s3.velocity, s3.force);
      }
    }
  }
}

/**
 * The newer engine, part-2/md-example/src/lib.rs: the bi-disperse
 * Lennard-Jones parameter table with its cutoff reduction, the default
 * `Potential::update_to_force_buffer` (which stops in `pbc_vec`), the
 * potential stage, and `run` with its step counter.
 */
module MdEngine {
  import opened Primitives
  import opened MdCore

  // ---------------------------------------------------------------------
  // Bi-disperse Lennard-Jones parameters

  /** Per type pair (AA, AB, BB): `48 eps sigma^12`, `-24 eps sigma^6` and
      the cutoff `2.5 sigma`. */
  datatype BiLjPotential = BiLjPotential(lj1: Vec3, lj2: Vec3, cut: Vec3)
  {
    /** `max_cutoff`: `cut.into_iter().reduce(f32::max).unwrap()`. The array
        has three entries, so the reduction always has a value. */
    function MaxCutoff(): (m: real)
      ensures exists k :: 0 <= k < 3 && m == cut[k]
      ensures forall k :: 0 <= k < 3 ==> cut[k] <= m
    {
      var r := ReduceMax(cut);
      ReduceMaxIsMaximum(cut);
      r.value
    }
  }

  /** `sigma.powi(n)`. */
  function Pow(x: real, n: nat): real
  {
    if n == 0 then 1.0 else x * Pow(x, n - 1)
  }

  /** A power of a positive base is positive. */
  lemma {:induction false} PowPositive(x: real, n: nat)
    requires x > 0.0
    ensures Pow(x, n) > 0.0
  {
    if n > 0 {
      PowPositive(x, n - 1);
      ProductPositive(x, Pow(x, n - 1));
    }
  }

  lemma ProductPositive(x: real, y: real)
    requires x > 0.0 && y > 0.0
    ensures x * y > 0.0
  {
  }

  /** The repulsive coefficient of one `(epsilon, sigma)` pair. */
  function Lj1(eps: real, sigma: real): real { 48.0 * eps * Pow(sigma, 12) }

  /** The attractive coefficient of one `(epsilon, sigma)` pair. */
  function Lj2(eps: real, sigma: real): real { -24.0 * eps * Pow(sigma, 6) }

  /** The cutoff of one `(epsilon, sigma)` pair. */
  function Cut(sigma: real): real { 2.5 * sigma }

  /** With positive `epsilon` and `sigma`, `lj1` is positive and `lj2` negative. */
  lemma LjSigns(eps: real, sigma: real)
    requires eps > 0.0 && sigma > 0.0
    ensures Lj1(eps, sigma) > 0.0 && Lj2(eps, sigma) < 0.0
  {
    PowPositive(sigma, 12);
    PowPositive(sigma, 6);
    ProductPositive(48.0 * eps, Pow(sigma, 12));
    ProductPositive(24.0 * eps, Pow(sigma, 6));
  }

  /** `BiLjPotential::default()` with `(epsilon, sigma)` = AA (1.0, 1.0),
      AB (1.5, 0.8), BB (0.5, 0.88). */
  function Default(): (p: BiLjPotential)
    ensures p.lj1[0] == 48.0 && p.lj2[0] == -24.0
    ensures p.cut == [2.5, 2.0, 2.2]
    ensures forall k :: 0 <= k < 3 ==> p.lj1[k] > 0.0 && p.lj2[k] < 0.0
  {
    LjSigns(1.0, 1.0);
    LjSigns(1.5, 0.8);
    LjSigns(0.5, 0.88);
    PowOne(12);
    PowOne(6);
    BiLjPotential(
      [Lj1(1.0, 1.0), Lj1(1.5, 0.8), Lj1(0.5, 0.88)],
      [Lj2(1.0, 1.0), Lj2(1.5, 0.8), Lj2(0.5, 0.88)],
      [Cut(1.0), Cut(0.8), Cut(0.88)])
  }

  lemma {:induction false} PowOne(n: nat)
    ensures Pow(1.0, n) == 1.0
  {
    if n > 0 {
      PowOne(n - 1);
    }
  }

  /** The default cutoffs peak at the AA entry. */
  lemma DefaultMaxCutoff()
    ensures Default().MaxCutoff() == 2.5
  {
    var m := Default().MaxCutoff();
    assert exists k :: 0 <= k < 3 && m == [2.5, 2.0, 2.2][k];
  }

  /** `f32::max` on two ordered values. */
  function Max(a: real, b: real): real { if a >= b then a else b }

  /** Left fold of `Max` starting from `acc`. */
  function FoldMax(acc: real, s: seq<real>): real
    decreases |s|
  {
    if s == [] then acc else FoldMax(Max(acc, s[0]), s[1..])
  }

  /** `Iterator::reduce(f32::max)`: nothing for an empty sequence, otherwise
      the fold of the rest from the first element. */
  function ReduceMax(s: seq<real>): Option<real>
  {
    if s == [] then None else Some(FoldMax(s[0], s[1..]))
  }

  /** The fold bounds the accumulator and every element from above, and is
      one of them. */
  lemma {:induction false} FoldMaxIsMaximum(acc: real, s: seq<real>)
    ensures FoldMax(acc, s) >= acc
    ensures forall k :: 0 <= k < |s| ==> s[k] <= FoldMax(acc, s)
    ensures FoldMax(acc, s) == acc || exists k :: 0 <= k < |s| && FoldMax(acc, s) == s[k]
    decreases |s|
  {
    if s != [] {
      FoldMaxIsMaximum(Max(acc, s[0]), s[1..]);
      assert forall k :: 1 <= k < |s| ==> s[k] == s[1..][k - 1];
      var m := FoldMax(acc, s);
      if m != acc && m != s[0] {
        var k :| 0 <= k < |s[1..]| && m == s[1..][k];
        assert m == s[k + 1];
      }
    }
  }

  /** The reduction is empty exactly for the empty sequence, and otherwise
      is an element bounding all others. */
  lemma ReduceMaxIsMaximum(s: seq<real>)
    ensures ReduceMax(s).None? <==> s == []
    ensures ReduceMax(s).Some? ==>
      (exists k :: 0 <= k < |s| && ReduceMax(s).value == s[k])
      && forall k :: 0 <= k < |s| ==> s[k] <= ReduceMax(s).value
  {
    if s != [] {
      FoldMaxIsMaximum(s[0], s[1..]);
      assert forall k :: 1 <= k < |s| ==> s[k] == s[1..][k - 1];
      var m := FoldMax(s[0], s[1..]);
      if m != s[0] {
        var k :| 0 <= k < |s[1..]| && m == s[1..][k];
        assert m == s[k + 1];
      }
    }
  }

  // ---------------------------------------------------------------------
  // The potential stage

  /** The default `Potential::update_to_force_buffer` on values: over the zip
      of the pair list with the force buffer, the first iteration already ends
      in `pbc_vec`, which panics; with nothing to zip it returns normally. */
  function ForceBufferPass(dim: nat, position: Rows, query: seq<Pair>, buffer: seq<Vec3>): Outcome
  {
    if query == [] || buffer == [] then Completed
    else Panicked(PbcVecPanic(dim, position, query[0]))
  }

  /** The default `Potential::update_to_force_buffer` that `BiLjPotential`
      inherits. It writes nothing: no `modifies` clause. */
  method UpdateToForceBuffer(pot: BiLjPotential, config: Configuration, wh: SimWorkhorse) returns (o: Outcome)
    ensures o == ForceBufferPass(config.dim as nat, RowsOf(config.position), wh.nlistQuery, wh.nlistForceBuffer)
  {
    var pairs := wh.nlistQuery;
    var n := if |pairs| <= |wh.nlistForceBuffer| then |pairs| else |wh.nlistForceBuffer|;
    for k := 0 to n
      invariant k == 0
    {
      var dv, p := config.PbcVec(pairs[k].0, pairs[k].1);
      return Panicked(p);
    }
    return Completed;
  }

  /** `update_force_buffer` on values: the `assert_ne!` on the number of
      potentials, then one pass per potential; the state is never changed. */
  function ForceBufferStep<P>(setup: SimSetup<P>, s: SimState): Outcome
  {
    if |setup.potentials| == 0 then Panicked(NoPotentials)
    else ForceBufferPass(setup.dim, s.position, s.query, s.buffer)
  }

  /** `Simulation::update_force_buffer`. */
  method UpdateForceBuffer(sim: Simulation<BiLjPotential>) returns (o: Outcome)
    requires sim.Valid()
    ensures o == ForceBufferStep(sim.Setup(), sim.State())
  {
    if |sim.potentials| == 0 {
      return Panicked(NoPotentials);
    }
    ghost var pass := ForceBufferPass(sim.configuration.dim as nat, RowsOf(sim.configuration.position),
      sim.workhorse.nlistQuery, sim.workhorse.nlistForceBuffer);
    for k := 0 to |sim.potentials|
      invariant k > 0 ==> pass == Completed
    {
      o := UpdateToForceBuffer(sim.potentials[k], sim.configuration, sim.workhorse);
      if o.Panicked? {
        return;
      }
    }
    return Completed;
  }

  // ---------------------------------------------------------------------
  // One step and `run`

  /** One iteration of `run`: the four stages in order, each stopping the step
      at its panic with the state reached so far, then `timestep += 1`. */
  function StepSpec<P>(setup: SimSetup<P>, s: SimState): (Outcome, SimState)
  {
    var (o1, s1) := QuerySpec(setup, s);
    if o1.Panicked? then (o1, s1)
    else
      var o2 := ForceBufferStep(setup, s1);
      if o2.Panicked? then (o2, s1)
      else
        var (o3, s3) := ScatterStep(setup, s1);
        if o3.Panicked? then (o3, s3)
        else
          var (o4, s4) := IntegrateStep(setup, s3);
          if o4.Panicked? then (o4, s4)
          else (Completed, s4.(timestep := s4.timestep + 1))
  }

  /** `run(steps)`: up to `steps` iterations, stopping at the first panic. */
  function RunSpec<P>(setup: SimSetup<P>, s: SimState, steps: nat): (Outcome, SimState)
    decreases steps
  {
    if steps == 0 then (Completed, s)
    else
      var (o, t) := StepSpec(setup, s);
      if o.Panicked? then (o, t) else RunSpec(setup, t, steps - 1)
  }

  /** One iteration of the loop in `Simulation::run`. */
  method Step(sim: Simulation<BiLjPotential>) returns (o: Outcome)
    requires sim.Valid()
    modifies sim`timestep, sim.workhorse
    modifies sim.configuration.position, sim.configuration.velocity, sim.configuration.force
    ensures sim.Valid()
    ensures (o, sim.State()) == StepSpec(sim.Setup(), old(sim.State()))
  {
    o := sim.QueryNlistAndClearForceBuffer();
    if o.Panicked? {
      return;
    }
    o := UpdateForceBuffer(sim);
    if o.Panicked? {
      return;
    }
    o := sim.ApplyBufferToForces();
    if o.Panicked? {
      return;
    }
    o := sim.IntegrateDynamics();
    if o.Panicked? {
      return;
    }
    sim.timestep := sim.timestep + 1;
  }

  /** `Simulation::run`. */
  method Run(sim: Simulation<BiLjPotential>, steps: nat) returns (o: Outcome)
    requires sim.Valid()
    modifies sim`timestep, sim.workhorse
    modifies sim.configuration.position, sim.configuration.velocity, sim.configuration.force
    ensures sim.Valid()
    ensures (o, sim.State()) == RunSpec(sim.Setup(), old(sim.State()), steps)
  {
    ghost var s0 := sim.State();
    for k := 0 to steps
      invariant sim.Valid() && sim.Setup() == old(sim.Setup())
      invariant RunSpec(sim.Setup(), s0, steps) == RunSpec(sim.Setup(), sim.State(), steps - k)
    {
      o := Step(sim);
      if o.Panicked? {
        return;
      }
    }
    return Completed;
  }

  // ---------------------------------------------------------------------
  // Properties of a step and of `run`

  /** A completed run advanced `timestep` by exactly `steps`; a run that
      panicked advanced it by fewer. */
  lemma {:induction false} RunAdvancesTimestep<P>(setup: SimSetup<P>, s: SimState, steps: nat)
    ensures var (o, t) := RunSpec(setup, s, steps);
      && (o == Completed ==> t.timestep == s.timestep + steps)
      && (o.Panicked? ==> s.timestep <= t.timestep < s.timestep + steps)
    decreases steps
  {
    if steps > 0 {
      var (o, t) := StepSpec(setup, s);
      StepTimestep(setup, s);
      if o.Completed? {
        RunAdvancesTimestep(setup, t, steps - 1);
      }
    }
  }

  /** A step that completes advances `timestep` by one; one that panics
      leaves it. */
  lemma StepTimestep<P>(setup: SimSetup<P>, s: SimState)
    ensures var (o, t) := StepSpec(setup, s);
      && (o == Completed ==> t.timestep == s.timestep + 1)
      && (o.Panicked? ==> t.timestep == s.timestep)
  {
  }

  /** `run(0)` changes nothing and cannot panic, and on `Simulation::default()`
      (no strategies) any longer run panics at once for want of a neighbour
      list, before changing anything. */
  lemma DefaultSimulationRun(steps: nat)
    ensures var s := SimState(0, [], [], [], [], []);
      var setup: SimSetup<BiLjPotential> := SimSetup(None, [], None, 0);
      RunSpec(setup, s, steps)
        == if steps == 0 then (Completed, s) else (Panicked(NoNeighborList), s)
  {
  }

  /** Missing strategies are found inside the step, in pipeline order: no
      neighbour list panics before anything changes; no potentials panics
      after the buffers were reset; no integrator panics after the force rows
      were updated. */
  lemma StepPanicOrder<P>(setup: SimSetup<P>, s: SimState)
    ensures setup.nlist.None? ==> StepSpec(setup, s) == (Panicked(NoNeighborList), s)
    ensures setup.nlist.Some? && setup.potentials == [] ==>
      StepSpec(setup, s) == (Panicked(NoPotentials), QuerySpec(setup, s).1)
    ensures (&& setup.nlist.Some? && setup.integrator.None?
             && ForceBufferStep(setup, QuerySpec(setup, s).1) == Completed
             && ScatterStep(setup, QuerySpec(setup, s).1).0 == Completed) ==>
      StepSpec(setup, s) == (Panicked(NoIntegrator), ScatterStep(setup, QuerySpec(setup, s).1).1)
  {
  }

  /** With a non-empty pair list and at least one potential, every step ends
      in `pbc_vec`, after the buffers were reset and before anything else. */
  lemma StepPanicsInPbcVec<P>(setup: SimSetup<P>, s: SimState)
    requires setup.nlist.Some? && setup.nlist.value.nlist != [] && setup.potentials != []
    ensures StepSpec(setup, s) ==
      (Panicked(PbcVecPanic(setup.dim, s.position, setup.nlist.value.nlist[0])), QuerySpec(setup, s).1)
  {
  }

  /** A step completes exactly when all three strategies are present, the
      pair list is empty, and the velocity and force arrays have as many rows
      as the position array; then it replaces each particle's position and
      velocity rows by `update_pos` of its own rows, empties the buffers and
      counts the step, and the force rows stay as they were. */
  lemma StepCompletesIff<P>(setup: SimSetup<P>, s: SimState)
    ensures StepSpec(setup, s).0 == Completed <==>
      && setup.nlist.Some? && setup.nlist.value.nlist == []
      && setup.potentials != [] && setup.integrator.Some?
      && |s.velocity| == |s.position| && |s.force| == |s.position|
    ensures StepSpec(setup, s).0 == Completed ==>
      var t := StepSpec(setup, s).1;
      && t.timestep == s.timestep + 1
      && t.force == s.force
      && t.query == [] && t.buffer == []
      && |t.position| == |s.position| && |t.velocity| == |s.position|
      && forall r :: 0 <= r < |s.position| ==>
           (t.position[r], t.velocity[r])
             == setup.integrator.value.updatePos(s.position[r], s.velocity[r], s.force[r])
  {
    if setup.nlist.Some? && setup.nlist.value.nlist == [] && setup.potentials != [] && setup.integrator.Some? {
      var s1 := QuerySpec(setup, s).1;
      assert s1.buffer == [] && s1.force == s.force;
      IntegrateKeepsShape(setup.integrator.value, s1.position, s1.velocity, s1.force);
    }
  }

  /** No step of this engine ever changes a force row: the buffer is reset to
      zeros, the potential stage never writes it, and scattering zeros adds
      nothing; integration does not touch the force array. */
  lemma StepKeepsForces<P>(setup: SimSetup<P>, s: SimState)
    ensures StepSpec(setup, s).1.force == s.force
  {
    var (o1, s1) := QuerySpec(setup, s);
    QueryResetsBuffers(setup, s);
    if o1.Completed? {
      ScatterZeroBufferKeepsForces(s1.force, s1.query, s1.buffer, setup.dim);
    }
  }

  lemma {:induction false} RunKeepsForces<P>(setup: SimSetup<P>, s: SimState, steps: nat)
    ensures RunSpec(setup, s, steps).1.force == s.force
    decreases steps
  {
    if steps > 0 {
      StepKeepsForces(setup, s);
      var (o, t) := StepSpec(setup, s);
      if o.Completed? {
        RunKeepsForces(setup, t, steps - 1);
      }
    }
  }
}

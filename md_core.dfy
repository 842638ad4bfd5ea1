/**
 * The parts of the molecular-dynamics engine that the two drafts
 * (part-2/md-example/src/lib.rs and md-example/src/lib.rs) share word for word:
 * the particle configuration, the scratch "workhorse" buffers, the simulation
 * object with its three optional strategies, and the three pipeline stages
 * that do not depend on the potential: querying the neighbour list, scattering
 * the pair-force buffer into the per-particle force rows, and integrating.
 * The configuration's `pbc_vec` and `inv_norm_squared` belong to the newer
 * draft only; the older one gives `Configuration` no methods.
 *
 * Every stage that changes state is a method; each is tied to a function on
 * plain values (SimState, SimSetup) that says what the stage computes,
 * including where it panics. The lemmas at the end state what the source
 * promises about those functions.
 */
module MdCore {
  import opened Primitives

  /** A neighbour-list entry `(u32, u32)`: two particle indices. */
  type Pair = (u32, u32)

  /** A pair-force buffer entry, `[f32; 3]` (real numbers stand for `f32`). */
  type Vec3 = v: seq<real> | |v| == 3 witness [0.0, 0.0, 0.0]

  /** The rows of an `Array2<f32>`, one sequence per particle. */
  type Rows = seq<seq<real>>

  const Zero3: Vec3 := [0.0, 0.0, 0.0]

  /** Why a step stopped: the `panic!`, `assert_ne!` and `todo!` sites of the
      engine and the panics of the array library it calls. */
  datatype Panic =
    | NoNeighborList      // `panic!("No neighborlist has been specified")`
    | NoPotentials        // `assert_ne!(self.potentials.len(), 0)`
    | NoIntegrator        // `panic!("No integrator as been specified")`
    | IndexOutOfBounds    // a particle index beyond the rows of an array
    | SliceOutOfRange     // `[..dim]` on a 3-element array with `dim > 3`
    | ShapeMismatch       // `Zip` over producers of different lengths
    | BroadcastMismatch   // `row += view` where the view cannot be broadcast
    | NotImplemented      // `todo!()`

  datatype Outcome = Completed | Panicked(reason: Panic)

  /** `Integrator::update_pos`: the new position and velocity rows of one
      particle from its position, velocity and force rows. The rows are views
      of fixed length, so an update keeps their lengths. */
  type RowUpdate = f: (seq<real>, seq<real>, seq<real>) -> (seq<real>, seq<real>)
    | forall p, v, g :: |f(p, v, g).0| == |p| && |f(p, v, g).1| == |v|
    witness (p: seq<real>, v: seq<real>, g: seq<real>) => (p, v)

  /** An integrator is known only through its `update_pos`. */
  datatype Integrator = Integrator(updatePos: RowUpdate)

  /** The one neighbour list of the engine: it hands out the pairs it stores
      (its `cells` and `stride` are never read). */
  datatype CellList = CellList(nlist: seq<Pair>) {
    /** `CellList::query`: the stored pairs; the list itself is not changed. */
    function Query(): seq<Pair> { nlist }
  }

  /** The contents of an `array2`, row by row. */
  function RowsOf(a: array2<real>): (r: Rows)
    reads a
    ensures |r| == a.Length0
    ensures forall i :: 0 <= i < a.Length0 ==> |r[i]| == a.Length1
    ensures forall i, c :: 0 <= i < a.Length0 && 0 <= c < a.Length1 ==> r[i][c] == a[i, c]
  {
    seq(a.Length0, i requires 0 <= i < a.Length0 reads a =>
      seq(a.Length1, c requires 0 <= c < a.Length1 reads a => a[i, c]))
  }

  /** Overwrites row `r` of `a` with `row`. */
  method WriteRow(a: array2<real>, r: nat, row: seq<real>)
    requires r < a.Length0 && |row| == a.Length1
    modifies a
    ensures RowsOf(a) == old(RowsOf(a))[r := row]
  {
    ghost var before := RowsOf(a);
    for c := 0 to a.Length1
      invariant forall i, cc :: 0 <= i < a.Length0 && 0 <= cc < a.Length1 ==>
        a[i, cc] == if i == r && cc < c then row[cc] else before[i][cc]
    {
      a[r, c] := row[c];
    }
    forall i | 0 <= i < a.Length0
      ensures RowsOf(a)[i] == before[r := row][i]
    {
    }
  }

  /** Component-wise sum of two rows of equal length. */
  function AddRow(row: seq<real>, w: seq<real>): (r: seq<real>)
    requires |w| == |row|
    ensures |r| == |row|
  {
    seq(|row|, c requires 0 <= c < |row| => row[c] + w[c])
  }

  /** Adds `w` into row `r` of `a` in place, as `row += &w` does. */
  method AddIntoRow(a: array2<real>, r: nat, w: seq<real>)
    requires r < a.Length0 && |w| == a.Length1
    modifies a
    ensures RowsOf(a) == old(RowsOf(a))[r := AddRow(old(RowsOf(a))[r], w)]
  {
    ghost var before := RowsOf(a);
    for c := 0 to a.Length1
      invariant forall i, cc :: 0 <= i < a.Length0 && 0 <= cc < a.Length1 ==>
        a[i, cc] == if i == r && cc < c then before[i][cc] + w[cc] else before[i][cc]
    {
      a[r, c] := a[r, c] + w[c];
    }
    forall i | 0 <= i < a.Length0
      ensures RowsOf(a)[i] == before[r := AddRow(before[r], w)][i]
    {
    }
  }

  /** `Vec::clear` followed by `Vec::resize(n, fill)` is this with `s == []`. */
  function Resize<T>(s: seq<T>, n: nat, fill: T): (r: seq<T>)
    ensures |r| == n
    ensures forall k :: 0 <= k < n ==> r[k] == if k < |s| then s[k] else fill
  {
    if n <= |s| then s[..n] else s + seq(n - |s|, _ => fill)
  }

  // ---------------------------------------------------------------------
  // Configuration

  /** `position[i] - position[j]` on the first `dim` components, zero beyond. */
  function Displacement(pi: seq<real>, pj: seq<real>, dim: nat): Vec3
    requires dim <= 3 && dim <= |pi| && dim <= |pj|
  {
    seq(3, c requires 0 <= c < 3 => if c < dim then pi[c] - pj[c] else 0.0)
  }

  /** Where `pbc_vec(i, j)` panics, in the order its statements run: the
      slice `vec[..dim]`, the rows `i` and `j`, the `Zip` of a row with the
      slice, and finally the `todo!()` standing in for the periodic wrap. */
  function PbcVecPanic(dim: nat, position: Rows, p: Pair): Panic
  {
    var (i, j) := (p.0 as nat, p.1 as nat);
    if dim > 3 then SliceOutOfRange
    else if i >= |position| || j >= |position| then IndexOutOfBounds
    else if |position[i]| != dim then ShapeMismatch
    else NotImplemented
  }

  /** Left fold `acc + x*x` over `s`. */
  function FoldSquares(acc: real, s: seq<real>): real
    decreases |s|
  {
    if s == [] then acc else FoldSquares(acc + s[0] * s[0], s[1..])
  }

  /** An `f32` reciprocal: `1.0/0.0` is positive infinity. */
  datatype Recip = Finite(value: real) | Infinite

  class Configuration {
    var position: array2<real>
    var velocity: array2<real>
    var force: array2<real>
    var typeIds: seq<u8>
    var dim: u8

    /** The three particle arrays are distinct objects (each is owned by value). */
    ghost predicate Valid()
      reads this
    {
      position != velocity && position != force && velocity != force
    }

    /** `Configuration::default()`: empty arrays and `dim == 0`. */
    constructor Default()
      ensures Valid() && fresh(position) && fresh(velocity) && fresh(force)
      ensures RowsOf(position) == [] && RowsOf(velocity) == [] && RowsOf(force) == []
      ensures typeIds == [] && dim == 0
    {
      position := new real[0, 0];
      velocity := new real[0, 0];
      force := new real[0, 0];
      typeIds := [];
      dim := 0;
    }

    /** `Configuration::pbc_vec`. It never returns normally: `p` is the panic
        that ends it, and `vec` is its local `[f32; 3]` at that moment. */
    method PbcVec(i: u32, j: u32) returns (vec: Vec3, p: Panic)
      ensures p == PbcVecPanic(dim as nat, RowsOf(position), (i, j))
      ensures p == NotImplemented ==>
        vec == Displacement(RowsOf(position)[i], RowsOf(position)[j], dim as nat)
      ensures p != NotImplemented ==> vec == Zero3
    {
      var buf := new real[3](_ => 0.0);
      if dim > 3 {
        return buf[..], SliceOutOfRange;
      }
      if i as nat >= position.Length0 || j as nat >= position.Length0 {
        return buf[..], IndexOutOfBounds;
      }
      if position.Length1 != dim as nat {
        return buf[..], ShapeMismatch;
      }
      for c := 0 to dim as nat
        invariant forall cc :: 0 <= cc < 3 ==>
          buf[cc] == if cc < c then position[i, cc] - position[j, cc] else 0.0
      {
        buf[c] := position[i, c] - position[j, c];
      }
      // apply PBCs: `todo!()`
      return buf[..], NotImplemented;
    }

    /** `Configuration::inv_norm_squared`: one over the sum of the squares of
        the first `dim` components (all three when `dim > 3`). */
    function InvNormSquared(vec: Vec3): (r: Recip)
      reads this
      ensures r == if SumSq(vec, dim as nat) == 0.0 then Infinite else Finite(1.0 / SumSq(vec, dim as nat))
      ensures r.Infinite? <==> forall c :: 0 <= c < 3 && c < dim as int ==> vec[c] == 0.0
      ensures r.Finite? ==> r.value > 0.0
    {
      var taken := if dim as int <= 3 then vec[..dim] else vec;
      var x := FoldSquares(0.0, taken);
      FoldSquaresBounds(0.0, taken);
      FoldSquaresClosedForm(vec, dim as nat);
      if x == 0.0 then Infinite else Finite(1.0 / x)
    }
  }

  /** The sum of the squares of the first `d` components of a 3-vector,
      written out term by term. */
  function SumSq(v: Vec3, d: nat): real
  {
    (if d > 0 then v[0] * v[0] else 0.0)
      + (if d > 1 then v[1] * v[1] else 0.0)
      + (if d > 2 then v[2] * v[2] else 0.0)
  }

  /** One step of the fold. */
  lemma FoldSquaresStep(acc: real, s: seq<real>)
    requires |s| >= 1
    ensures FoldSquares(acc, s) == FoldSquares(acc + s[0] * s[0], s[1..])
  {
  }

  /** The fold over the `take(d)` prefix is the written-out sum. */
  lemma FoldSquaresClosedForm(v: Vec3, d: nat)
    ensures FoldSquares(0.0, if d <= 3 then v[..d] else v) == SumSq(v, d)
  {
    var t := if d <= 3 then v[..d] else v;
    var n := if d <= 3 then d else 3;
    assert |t| == n && forall k :: 0 <= k < n ==> t[k] == v[k];
    var a0 := if n > 0 then v[0] * v[0] else 0.0;
    var a1 := a0 + if n > 1 then v[1] * v[1] else 0.0;
    var a2 := a1 + if n > 2 then v[2] * v[2] else 0.0;
    assert a2 == SumSq(v, d);
    if n == 0 {
      assert t == [];
    } else {
      FoldSquaresStep(0.0, t);
      assert t[0] == v[0];
      assert 0.0 + t[0] * t[0] == a0;
      if n == 1 {
        assert t[1..] == [];
      } else {
        FoldSquaresStep(a0, t[1..]);
        assert t[1..][0] == v[1] && t[1..][1..] == t[2..];
        if n == 2 {
          assert t[2..] == [];
        } else {
          FoldSquaresStep(a1, t[2..]);
          assert t[2..][0] == v[2] && t[2..][1..] == [];
          assert FoldSquares(a1, t[2..]) == FoldSquares(a2, []) == a2;
          assert FoldSquares(a0, t[1..]) == FoldSquares(a1, t[2..]);
        }
      }
    }
  }

  /** `FoldSquares` never decreases its accumulator, and keeps it exactly
      when every element is zero. */
  lemma {:induction false} FoldSquaresBounds(acc: real, s: seq<real>)
    ensures FoldSquares(acc, s) >= acc
    ensures FoldSquares(acc, s) == acc <==> forall k :: 0 <= k < |s| ==> s[k] == 0.0
    decreases |s|
  {
    if s != [] {
      FoldSquaresBounds(acc + s[0] * s[0], s[1..]);
      AddProductBound(acc, s[0], s[0], FoldSquares(acc + s[0] * s[0], s[1..]));
      if forall k :: 0 <= k < |s| ==> s[k] == 0.0 {
        assert forall k :: 0 <= k < |s[1..]| ==> s[1..][k] == s[k + 1];
      } else if s[0] == 0.0 {
        var k :| 0 <= k < |s| && s[k] != 0.0;
        assert k >= 1 && s[1..][k - 1] != 0.0;
      }
    }
  }

  /** A total at least `acc + x*y`, with `x` and `y` of the same sign, is at
      least `acc`, and beyond it when neither factor is zero. (The factors are
      separate parameters so that the solver sees a product, not a square.) */
  lemma AddProductBound(acc: real, x: real, y: real, total: real)
    requires (x >= 0.0 && y >= 0.0) || (x <= 0.0 && y <= 0.0)
    requires total >= acc + x * y
    ensures total >= acc
    ensures x != 0.0 && y != 0.0 ==> total > acc
  {
  }

  // ---------------------------------------------------------------------
  // Simulation state

  class SimWorkhorse {
    var nlistForceBuffer: seq<Vec3>
    var nlistQuery: seq<Pair>

    constructor Default()
      ensures nlistForceBuffer == [] && nlistQuery == []
    {
      nlistForceBuffer := [];
      nlistQuery := [];
    }
  }

  /** What a step reads and writes: the step counter, the particle rows and the
      workhorse buffers. */
  datatype SimState = SimState(
    timestep: nat,
    position: Rows,
    velocity: Rows,
    force: Rows,
    query: seq<Pair>,
    buffer: seq<Vec3>)

  /** What no step changes: the strategies and `dim`. */
  datatype SimSetup<P> = SimSetup(
    nlist: Option<CellList>,
    potentials: seq<P>,
    integrator: Option<Integrator>,
    dim: nat)

  class Simulation<P> {
    var timestep: nat
    var configuration: Configuration
    var integrator: Option<Integrator>
    var nlist: Option<CellList>
    var potentials: seq<P>
    var workhorse: SimWorkhorse

    ghost predicate Valid()
      reads this, configuration
    {
      configuration.Valid()
    }

    ghost function Setup(): SimSetup<P>
      reads this, configuration
    {
      SimSetup(nlist, potentials, integrator, configuration.dim as nat)
    }

    ghost function State(): SimState
      reads this, configuration, workhorse
      reads configuration.position, configuration.velocity, configuration.force
    {
      SimState(timestep,
        RowsOf(configuration.position), RowsOf(configuration.velocity),
        RowsOf(configuration.force),
        workhorse.nlistQuery, workhorse.nlistForceBuffer)
    }

    /** `Simulation::default()`: no strategies, an empty configuration. */
    constructor Default()
      ensures Valid() && fresh(configuration) && fresh(workhorse)
      ensures Setup() == SimSetup(None, [], None, 0)
      ensures State() == SimState(0, [], [], [], [], [])
    {
      timestep := 0;
      configuration := new Configuration.Default();
      integrator := None;
      nlist := None;
      potentials := [];
      workhorse := new SimWorkhorse.Default();
    }

    /** `query_nlist_and_clear_force_buffer`. */
    method QueryNlistAndClearForceBuffer() returns (o: Outcome)
      requires Valid()
      modifies workhorse
      ensures (o, State()) == QuerySpec(Setup(), old(State()))
    {
      match nlist {
        case None =>
          return Panicked(NoNeighborList);
        case Some(nl) =>
          var pairs := nl.Query();
          workhorse.nlistQuery := pairs;
          workhorse.nlistForceBuffer := [];
          workhorse.nlistForceBuffer := Resize(workhorse.nlistForceBuffer, |pairs|, Zero3);
          return Completed;
      }
    }

    /** `apply_buffer_to_forces`. */
    method ApplyBufferToForces() returns (o: Outcome)
      requires Valid()
      modifies configuration.force
      ensures (o, State()) == ScatterStep(Setup(), old(State()))
    {
      var pairs := workhorse.nlistQuery;
      var buffer := workhorse.nlistForceBuffer;
      var dim := configuration.dim as nat;
      var forces := configuration.force;
      ghost var f0 := RowsOf(forces);
      var k := 0;
      while k < |pairs| && k < |buffer|
        invariant 0 <= k <= |pairs| && k <= |buffer|
        invariant Scatter(f0, pairs, buffer, dim) == Scatter(RowsOf(forces), pairs[k..], buffer[k..], dim)
      {
        var i := pairs[k].0 as nat;
        if i >= forces.Length0 {
          return Panicked(IndexOutOfBounds);
        }
        if dim > 3 {
          return Panicked(SliceOutOfRange);
        }
        var w := Broadcast(buffer[k][..dim], forces.Length1);
        if w.None? {
          return Panicked(BroadcastMismatch);
        }
        AddIntoRow(forces, i, w.value);
        assert pairs[k..][1..] == pairs[k + 1..] && buffer[k..][1..] == buffer[k + 1..];
        k := k + 1;
      }
      return Completed;
    }

    /** `integrate_dynamics`. */
    method IntegrateDynamics() returns (o: Outcome)
      requires Valid()
      modifies configuration.position, configuration.velocity
      ensures (o, State()) == IntegrateStep(Setup(), old(State()))
    {
      match integrator {
        case None =>
          return Panicked(NoIntegrator);
        case Some(ig) =>
          o := UpdateConfiguration(ig, configuration);
      }
    }
  }

  // ---------------------------------------------------------------------
  // The stages as functions on values

  /** The neighbour-list stage: the pair list becomes the query result and the
      force buffer is cleared and resized to it with `[0, 0, 0]` entries. */
  function QuerySpec<P>(setup: SimSetup<P>, s: SimState): (Outcome, SimState)
  {
    match setup.nlist
    case None => (Panicked(NoNeighborList), s)
    case Some(nl) =>
      var pairs := nl.Query();
      (Completed, s.(query := pairs, buffer := Resize([], |pairs|, Zero3)))
  }

  /** ndarray's broadcast of a 1-D view of length `|v|` onto a row of length
      `width`: equal lengths match, a single element is repeated, anything else
      cannot be broadcast. */
  function Broadcast(v: seq<real>, width: nat): (r: Option<seq<real>>)
    ensures r.Some? <==> |v| == width || |v| == 1
    ensures r.Some? ==> |r.value| == width
    ensures r.Some? ==> forall k :: 0 <= k < width ==> r.value[k] == if |v| == width then v[k] else v[0]
  {
    if |v| == width then Some(v)
    else if |v| == 1 then Some(seq(width, _ => v[0]))
    else None
  }

  /** One iteration of the scatter loop: `force[i, ..] += &buffer_entry[..dim]`. */
  function ScatterOne(f: Rows, p: Pair, v: Vec3, dim: nat): (Outcome, Rows)
  {
    var i := p.0 as nat;
    if i >= |f| then (Panicked(IndexOutOfBounds), f)
    else if dim > 3 then (Panicked(SliceOutOfRange), f)
    else match Broadcast(v[..dim], |f[i]|)
      case None => (Panicked(BroadcastMismatch), f)
      case Some(w) => (Completed, f[i := AddRow(f[i], w)])
  }

  /** The scatter loop over `zip(buffer, pairs)`, stopping at the first panic
      with the rows updated so far. */
  function Scatter(f: Rows, pairs: seq<Pair>, buffer: seq<Vec3>, dim: nat): (Outcome, Rows)
    decreases |pairs|
  {
    if pairs == [] || buffer == [] then (Completed, f)
    else
      var (o, g) := ScatterOne(f, pairs[0], buffer[0], dim);
      if o.Panicked? then (o, g) else Scatter(g, pairs[1..], buffer[1..], dim)
  }

  function ScatterStep<P>(setup: SimSetup<P>, s: SimState): (Outcome, SimState)
  {
    var (o, f) := Scatter(s.force, s.query, s.buffer, setup.dim);
    (o, s.(force := f))
  }

  /** `Integrator::update_configuration` on values: `Zip` checks that the three
      arrays have as many rows as `position`, then every particle's position and
      velocity rows are replaced by `update_pos` of its own three rows. */
  function IntegrateSpec(ig: Integrator, pos: Rows, vel: Rows, force: Rows): (Outcome, Rows, Rows)
  {
    if |vel| != |pos| || |force| != |pos| then (Panicked(ShapeMismatch), pos, vel)
    else
      (Completed,
       seq(|pos|, r requires 0 <= r < |pos| => ig.updatePos(pos[r], vel[r], force[r]).0),
       seq(|pos|, r requires 0 <= r < |pos| => ig.updatePos(pos[r], vel[r], force[r]).1))
  }

  function IntegrateStep<P>(setup: SimSetup<P>, s: SimState): (Outcome, SimState)
  {
    match setup.integrator
    case None => (Panicked(NoIntegrator), s)
    case Some(ig) =>
      var (o, p, v) := IntegrateSpec(ig, s.position, s.velocity, s.force);
      (o, s.(position := p, velocity := v))
  }

  /** `Integrator::update_configuration`: never writes the force array. */
  method UpdateConfiguration(ig: Integrator, config: Configuration) returns (o: Outcome)
    requires config.Valid()
    modifies config.position, config.velocity
    ensures (o, RowsOf(config.position), RowsOf(config.velocity))
      == IntegrateSpec(ig, old(RowsOf(config.position)), old(RowsOf(config.velocity)), old(RowsOf(config.force)))
  {
    var pos, vel, frc := config.position, config.velocity, config.force;
    if vel.Length0 != pos.Length0 || frc.Length0 != pos.Length0 {
      return Panicked(ShapeMismatch);
    }
    ghost var p0, v0, f0 := RowsOf(pos), RowsOf(vel), RowsOf(frc);
    var n := pos.Length0;
    for r := 0 to n
      invariant RowsOf(frc) == f0
      invariant |RowsOf(pos)| == n && |RowsOf(vel)| == n
      invariant forall k :: 0 <= k < n ==>
        RowsOf(pos)[k] == if k < r then ig.updatePos(p0[k], v0[k], f0[k]).0 else p0[k]
      invariant forall k :: 0 <= k < n ==>
        RowsOf(vel)[k] == if k < r then ig.updatePos(p0[k], v0[k], f0[k]).1 else v0[k]
    {
      var rows := ig.updatePos(RowsOf(pos)[r], RowsOf(vel)[r], RowsOf(frc)[r]);
      WriteRow(pos, r, rows.0);
      WriteRow(vel, r, rows.1);
    }
    var (_, p1, v1) := IntegrateSpec(ig, p0, v0, f0);
    assert RowsOf(pos) == p1;
    assert RowsOf(vel) == v1;
    return Completed;
  }

  // ---------------------------------------------------------------------
  // Properties of the stages

  /** After a successful query the pair list is the neighbour list's query
      result and the force buffer has one `[0, 0, 0]` per pair; the particle
      rows and the step counter are untouched. Without a neighbour list the
      stage panics before changing anything. */
  lemma QueryResetsBuffers<P>(setup: SimSetup<P>, s: SimState)
    ensures var (o, t) := QuerySpec(setup, s);
      && (o == Completed <==> setup.nlist.Some?)
      && (setup.nlist.None? ==> o == Panicked(NoNeighborList) && t == s)
      && (setup.nlist.Some? ==>
            && t.query == setup.nlist.value.nlist
            && |t.buffer| == |t.query|
            && (forall k :: 0 <= k < |t.buffer| ==> t.buffer[k] == [0.0, 0.0, 0.0])
            && t == s.(query := t.query, buffer := t.buffer))
  {
  }

  /** Scattering keeps the number of rows and the length of every row. */
  lemma {:induction false} ScatterKeepsShape(f: Rows, pairs: seq<Pair>, buffer: seq<Vec3>, dim: nat)
    ensures |Scatter(f, pairs, buffer, dim).1| == |f|
    ensures forall r :: 0 <= r < |f| ==> |Scatter(f, pairs, buffer, dim).1[r]| == |f[r]|
    decreases |pairs|
  {
    if pairs != [] && buffer != [] {
      var (o, g) := ScatterOne(f, pairs[0], buffer[0], dim);
      if o.Completed? {
        ScatterKeepsShape(g, pairs[1..], buffer[1..], dim);
      }
    }
  }

  /** A row that is not the first index of any scattered pair keeps its value,
      whether or not the scatter panics: nothing is ever written to row `j`. */
  lemma {:induction false} ScatterLeavesOtherRows(f: Rows, pairs: seq<Pair>, buffer: seq<Vec3>, dim: nat, r: nat)
    requires r < |f|
    requires forall k :: 0 <= k < |pairs| && k < |buffer| ==> pairs[k].0 as nat != r
    ensures |Scatter(f, pairs, buffer, dim).1| == |f|
    ensures Scatter(f, pairs, buffer, dim).1[r] == f[r]
    decreases |pairs|
  {
    ScatterKeepsShape(f, pairs, buffer, dim);
    if pairs != [] && buffer != [] {
      var (o, g) := ScatterOne(f, pairs[0], buffer[0], dim);
      if o.Completed? {
        assert forall k :: 0 <= k < |pairs| - 1 && k < |buffer| - 1 ==> pairs[1..][k] == pairs[k + 1];
        ScatterLeavesOtherRows(g, pairs[1..], buffer[1..], dim, r);
      }
    }
  }

  /** Whether one pair can be scattered: its row exists, `dim` fits the
      3-element entry, and the `dim` components can be broadcast onto the row. */
  predicate PairFits(f: Rows, p: Pair, dim: nat)
  {
    p.0 as nat < |f| && dim <= 3 && (dim == |f[p.0 as nat]| || dim == 1)
  }

  /** The scatter completes exactly when every zipped pair fits. */
  lemma {:induction false} ScatterCompletesIff(f: Rows, pairs: seq<Pair>, buffer: seq<Vec3>, dim: nat)
    ensures Scatter(f, pairs, buffer, dim).0 == Completed
      <==> forall k :: 0 <= k < |pairs| && k < |buffer| ==> PairFits(f, pairs[k], dim)
    decreases |pairs|
  {
    if pairs != [] && buffer != [] {
      var (o, g) := ScatterOne(f, pairs[0], buffer[0], dim);
      assert o == Completed <==> PairFits(f, pairs[0], dim);
      if o.Completed? {
        ScatterCompletesIff(g, pairs[1..], buffer[1..], dim);
        assert |g| == |f| && forall r :: 0 <= r < |f| ==> |g[r]| == |f[r]|;
        assert forall k :: 1 <= k < |pairs| && k < |buffer| ==>
          (PairFits(f, pairs[k], dim) <==> PairFits(g, pairs[1..][k - 1], dim));
      }
    }
  }

  /** The value the scatter adds to component `c` from an entry `v`: component
      `c` itself, or the single component when `dim == 1` is broadcast. */
  function Lane(v: Vec3, dim: nat, c: nat): real
  {
    if dim == 1 then v[0] else if c < 3 then v[c] else 0.0
  }

  /** The sum of the lanes of the zipped entries whose pair starts at row `r`. */
  function Contribution(pairs: seq<Pair>, buffer: seq<Vec3>, dim: nat, r: nat, c: nat): real
    decreases |pairs|
  {
    if pairs == [] || buffer == [] then 0.0
    else
      (if pairs[0].0 as nat == r then Lane(buffer[0], dim, c) else 0.0)
        + Contribution(pairs[1..], buffer[1..], dim, r, c)
  }

  /** A completed scatter adds to each force component exactly the entries of
      the pairs that start at that row: with `dim` equal to the row length,
      component `c` of row `i` grows by the sum of component `c` of the entries
      of all pairs `(i, _)`, and nothing is subtracted from any row. */
  lemma {:induction false} ScatterAddsContributions(f: Rows, pairs: seq<Pair>, buffer: seq<Vec3>, dim: nat, r: nat, c: nat)
    requires r < |f| && c < |f[r]|
    requires Scatter(f, pairs, buffer, dim).0 == Completed
    ensures |Scatter(f, pairs, buffer, dim).1| == |f|
    ensures |Scatter(f, pairs, buffer, dim).1[r]| == |f[r]|
    ensures Scatter(f, pairs, buffer, dim).1[r][c] == f[r][c] + Contribution(pairs, buffer, dim, r, c)
    decreases |pairs|
  {
    ScatterKeepsShape(f, pairs, buffer, dim);
    if pairs != [] && buffer != [] {
      var (o, g) := ScatterOne(f, pairs[0], buffer[0], dim);
      var i := pairs[0].0 as nat;
      assert g[r][c] == f[r][c] + (if i == r then Lane(buffer[0], dim, c) else 0.0) by {
        if i == r {
          var w := Broadcast(buffer[0][..dim], |f[i]|).value;
          assert g[r] == AddRow(f[r], w);
          assert w[c] == Lane(buffer[0], dim, c);
        }
      }
      ScatterAddsContributions(g, pairs[1..], buffer[1..], dim, r, c);
    }
  }

  /** An all-zero buffer leaves every force row as it was, whether or not the
      scatter panics. */
  lemma {:induction false} ScatterZeroBufferKeepsForces(f: Rows, pairs: seq<Pair>, buffer: seq<Vec3>, dim: nat)
    requires forall k :: 0 <= k < |buffer| ==> buffer[k] == Zero3
    ensures Scatter(f, pairs, buffer, dim).1 == f
    decreases |pairs|
  {
    if pairs != [] && buffer != [] {
      var (o, g) := ScatterOne(f, pairs[0], buffer[0], dim);
      var i := pairs[0].0 as nat;
      if o.Completed? {
        var w := Broadcast(buffer[0][..dim], |f[i]|).value;
        assert forall c :: 0 <= c < |w| ==> w[c] == 0.0;
        assert AddRow(f[i], w) == f[i];
        assert g == f;
        ScatterZeroBufferKeepsForces(g, pairs[1..], buffer[1..], dim);
      }
    }
  }

  /** Integration keeps the row counts and row lengths and changes the rows of
      each particle only through `update_pos` of that particle's own rows. */
  lemma IntegrateKeepsShape(ig: Integrator, pos: Rows, vel: Rows, force: Rows)
    ensures var (o, p, v) := IntegrateSpec(ig, pos, vel, force);
      && (o == Completed <==> |vel| == |pos| && |force| == |pos|)
      && |p| == |pos| && |v| == |vel|
      && (forall r :: 0 <= r < |p| ==> |p[r]| == |pos[r]|)
      && (forall r :: 0 <= r < |v| ==> |v[r]| == |vel[r]|)
      && (o == Completed ==> forall r :: 0 <= r < |p| ==>
            (p[r], v[r]) == ig.updatePos(pos[r], vel[r], force[r]))
  {
  }
}

# A Dafny model of the rust-workshop examples

This project models the parts of the rust-workshop repository that contain logic:

- **The molecular-dynamics skeleton**, in two drafts.
  - The newer one is `part-2/md-example/src/lib.rs`. The older one is `md-example/src/lib.rs`.
  - A `Simulation` owns an optional neighbour list, a list of potentials, an optional integrator, a particle `Configuration` (position, velocity and force arrays, `dim`, `type_ids`) and a scratch `SimWorkhorse` (the pair list and one force-buffer entry per pair).
  - `run(steps)` repeats a pipeline: query the neighbour list and reset the buffer; let each potential fill the buffer; add the buffer into the force rows; integrate.
  - The newer draft also counts steps.
- **The recursive `fibonacci(n: u32) -> u32`** and the checks its `main` makes.
- **The `Message` enum and its `Display` text.**
- **The traits lesson**: a `Sheep` whose `shear` sets a flag in place, a `Dog`, the `Summary` texts and `Pair::cmp_display`.

## Layout

| file | module | contents |
|---|---|---|
| `primitives.dfy` | `Primitives` | `u8`, `u32`, `i32` newtypes and `Option` |
| `md_core.dfy` | `MdCore` | The parts both drafts share word for word: `Configuration`, `SimWorkhorse` and `Simulation` as classes over `array2<real>`; the neighbour-list, scatter and integration stages as methods; the functions on values that specify them; their lemmas. `Configuration` also carries `pbc_vec` and `inv_norm_squared`, which only the newer draft has. |
| `md_engine.dfy` | `MdEngine` | The newer draft: `BiLjPotential`, the default `update_to_force_buffer`, `run` with its step counter, and their lemmas. |
| `md_draft.dfy` | `MdDraft` | The older draft: `LJPotential`, the empty default `update_to_force_buffer`, `run` without a step counter, and their lemmas. |
| `fibonacci.dfy` | `Fibonacci` | `fibonacci` with checked `u32` addition, an equivalent linear-time tail-recursive function, and the exercise's values. |
| `messages.dfy` | `Messages` | `Message`, its `Display` text with decimal numerals, and a parser that reads the text back. |
| `traits.dfy` | `Traits` | `Sheep` as a class, `Dog`, the `Summary` texts and `cmp_display`. |

## How panics are modelled

A Rust panic ends the program. Each stage returns an `Outcome`, either `Completed` or `Panicked(reason)`, and a step stops at the first panic.

The model keeps the state as it was at the moment of the panic. The properties can therefore state what a stage had already changed before it panicked.

The reasons cover:

- the three explicit panics: the missing neighbour list, the `assert_ne!` on the potentials and the missing integrator;
- the `todo!()` in `pbc_vec`;
- the panics of the array library the code relies on: a row index out of range, `[..dim]` with `dim > 3`, a `Zip` over arrays of different lengths, and a `+=` whose right side cannot be broadcast onto the row.

Each method that changes state is proved against a function on plain values:

- `SimState` holds what a step changes: the step counter, the three row arrays, the pair list and the buffer.
- `SimSetup` holds what it does not: the strategies and `dim`.

A method ensures `(o, State()) == XSpec(Setup(), old(State()))`. The lemmas then state the source's promises about `XSpec`.

## What the engine does not do

- Strategies are not checked before the loop. A missing strategy is found inside each step, at its own stage, so a step can have reset the buffers or updated the force rows before it panics.
- The scatter adds buffer entry `k` onto row `i` of pair `k = (i, j)` only; nothing is subtracted from row `j`.
- The force rows are never cleared: each scatter adds into the rows as they were.
- `pbc_vec` computes the raw difference `position[i] - position[j]` and then reaches `todo!()`; there is no periodic wrap. In the newer draft, every step with a non-empty pair list and at least one potential therefore panics in `pbc_vec`, and no step of either draft ever changes a force row.

## Model

| member | source | states |
|---|---|---|
| MdCore.Resize | part-2/md-example/src/lib.rs:48-49 | `Vec::resize`: the result has the new length, keeps the old entries below it and fills the rest with the given value |
| MdCore.Broadcast | part-2/md-example/src/lib.rs:66-68 | The view added onto a force row is used as it is when its length matches the row, repeated when it has one element, and otherwise cannot be broadcast; a broadcast result always has the row's length |
| MdCore.Configuration.Default | part-2/md-example/src/lib.rs:80-89 | A default configuration has three distinct, empty arrays, no type ids and `dim == 0` |
| MdCore.SimWorkhorse.Default | part-2/md-example/src/lib.rs:122-126 | A default workhorse has an empty force buffer and an empty pair list |
| MdCore.Simulation.Default | part-2/md-example/src/lib.rs:14-22 | A default simulation has no neighbour list, no potentials, no integrator, `timestep == 0` and an empty configuration |
| MdCore.Configuration.PbcVec | part-2/md-example/src/lib.rs:93-111 | `pbc_vec(i, j)` never returns. It panics at the slice when `dim > 3`, at a row index out of range, at the `Zip` when a row's length differs from `dim`, and otherwise at the `todo!()`. When it reaches the `todo!()`, its vector holds `position[i] - position[j]` on components `0..dim` and zero beyond. |
| MdCore.Configuration.InvNormSquared | part-2/md-example/src/lib.rs:113-118 | The result is `1/x` for `x` the sum of the squares of only the first `dim` components (a closed form, not the fold): infinite exactly when `x` is zero, that is when all of those components are zero, and otherwise finite and positive |
| MdCore.FoldSquaresClosedForm | part-2/md-example/src/lib.rs:114-116 | The fold over `take(dim)` equals the sum of the squares of the first `min(dim, 3)` components, written out term by term |
| MdCore.FoldSquaresBounds | part-2/md-example/src/lib.rs:114-116 | The fold `acc + x*x` never decreases its accumulator, and keeps it unchanged exactly when every element is zero |
| MdCore.Simulation.QueryNlistAndClearForceBuffer | part-2/md-example/src/lib.rs:42-53 | The stage changes only the workhorse, and its outcome and new state are `QuerySpec` of the old state |
| MdCore.QueryResetsBuffers | part-2/md-example/src/lib.rs:42-53 | The query stage completes iff a neighbour list is present. On completion, the pair list is the list's stored pairs, the buffer holds one `[0, 0, 0]` per pair, and nothing else changes. Otherwise it panics before changing anything. The same code is at md-example/src/lib.rs:40-51. |
| MdCore.Simulation.ApplyBufferToForces | part-2/md-example/src/lib.rs:62-70 | The scatter loop writes only the force array, in place, and ends in the outcome and force rows that `Scatter` gives for the old rows, pair list and buffer |
| MdCore.ScatterCompletesIff | part-2/md-example/src/lib.rs:62-70 | The scatter completes iff, for every zipped pair `(i, j)`, row `i` exists, `dim <= 3`, and `dim` is 1 or equals the row's length, so that the slice `[..dim]` can be broadcast onto row `i` |
| MdCore.ScatterAddsContributions | part-2/md-example/src/lib.rs:62-70 | After a completed scatter, component `c` of force row `r` equals its old value plus the sum, over the zipped pairs whose first index is `r`, of component `c` of their buffer entries (of component 0 when `dim == 1` is broadcast); the second index plays no part, so nothing is subtracted from row `j` |
| MdCore.ScatterLeavesOtherRows | part-2/md-example/src/lib.rs:62-70 | A row that is the first index of no zipped pair is unchanged, whatever the outcome |
| MdCore.ScatterKeepsShape | part-2/md-example/src/lib.rs:62-70 | The scatter keeps the number of force rows and the length of each row |
| MdCore.ScatterZeroBufferKeepsForces | md-example/src/lib.rs:60-68 | Scattering a buffer of zero vectors leaves every force row as it was |
| MdCore.UpdateConfiguration | part-2/md-example/src/lib.rs:131-137 | `update_configuration` writes only position and velocity. It panics without writing when velocity or force has a different number of rows than position. Otherwise it replaces each particle's position and velocity rows by `update_pos` of that particle's own three old rows. |
| MdCore.IntegrateKeepsShape | part-2/md-example/src/lib.rs:131-137 | Integration completes iff the three arrays have the same number of rows. It then keeps the row count and each row's length. |
| MdCore.Simulation.IntegrateDynamics | part-2/md-example/src/lib.rs:72-77 | The stage panics with no integrator and changes nothing; otherwise it is `update_configuration` |
| MdEngine.BiLjPotential.MaxCutoff | part-2/md-example/src/lib.rs:193-195 | `max_cutoff` is one of the three `cut` entries and no entry exceeds it |
| MdEngine.ReduceMaxIsMaximum | part-2/md-example/src/lib.rs:194 | `reduce(max)` has no value exactly for an empty sequence; otherwise its value is an element that bounds every element |
| MdEngine.FoldMaxIsMaximum | part-2/md-example/src/lib.rs:194 | The fold behind `reduce(max)` bounds its start and every element, and equals its start or one of the elements |
| MdEngine.LjSigns | part-2/md-example/src/lib.rs:175-176 | With positive `epsilon` and `sigma`, `48 eps sigma^12` is positive and `-24 eps sigma^6` negative |
| MdEngine.Default | part-2/md-example/src/lib.rs:169-185 | In the default table, `lj1[0] == 48`, `lj2[0] == -24` and `cut == [2.5, 2.0, 2.2]`; every `lj1` entry is positive and every `lj2` entry negative |
| MdEngine.DefaultMaxCutoff | part-2/md-example/src/lib.rs:169-195 | The default table's largest cutoff is the AA entry, 2.5 |
| MdEngine.UpdateToForceBuffer | part-2/md-example/src/lib.rs:149-156 | The default `update_to_force_buffer` writes nothing. With no pair to zip it returns normally; otherwise its first iteration ends in the panic of `pbc_vec` for the first pair. |
| MdEngine.UpdateForceBuffer | part-2/md-example/src/lib.rs:55-60 | `update_force_buffer` changes nothing. It panics when there are no potentials, and otherwise returns what the first potential's pass returns. |
| MdEngine.Step | part-2/md-example/src/lib.rs:29-39 | One loop iteration changes only `timestep`, the workhorse and the three arrays, and matches `StepSpec`: the four stages in order, stopping at the first panic, then `timestep += 1` |
| MdEngine.Run | part-2/md-example/src/lib.rs:28-40 | `run(steps)` matches `RunSpec`: up to `steps` iterations of `StepSpec`, stopping at the first panic |
| MdEngine.StepTimestep | part-2/md-example/src/lib.rs:36-38 | A completed step adds one to `timestep`; a step that panics leaves it |
| MdEngine.RunAdvancesTimestep | part-2/md-example/src/lib.rs:28-40 | A completed `run(steps)` advanced `timestep` by exactly `steps`; one that panicked advanced it by fewer |
| MdEngine.DefaultSimulationRun | part-2/md-example/src/lib.rs:28-51 | On a default simulation, `run(0)` completes and changes nothing, while any longer run panics for want of a neighbour list before changing anything |
| MdEngine.StepPanicOrder | part-2/md-example/src/lib.rs:30-36 | Without a neighbour list a step panics before any change. With no potentials it fails the assertion after the buffers were reset. Without an integrator it panics after the force rows were updated. |
| MdEngine.StepPanicsInPbcVec | part-2/md-example/src/lib.rs:149-156 | With a non-empty pair list and at least one potential, every step panics in `pbc_vec` for the first pair, after the buffers were reset and before anything else changed |
| MdEngine.StepCompletesIff | part-2/md-example/src/lib.rs:28-40 | A step completes iff all three strategies are present, the pair list is empty, and velocity and force have as many rows as position. It then counts the step, empties the buffers, keeps the forces and applies `update_pos` to every particle. |
| MdEngine.StepKeepsForces | part-2/md-example/src/lib.rs:62-70 | No step of the newer draft changes a force row, whether or not it panics |
| MdEngine.RunKeepsForces | part-2/md-example/src/lib.rs:28-40 | No run of the newer draft changes a force row |
| MdDraft.ForceIsZero | md-example/src/lib.rs:130-132 | `LJPotential::force` is 0 for every potential, distance and pair of types |
| MdDraft.UpdateToForceBuffer | md-example/src/lib.rs:116-118 | The empty default `update_to_force_buffer` changes neither the configuration nor the workhorse |
| MdDraft.UpdateForceBuffer | md-example/src/lib.rs:53-58 | `update_force_buffer` changes neither configuration nor workhorse; it panics exactly when there are no potentials |
| MdDraft.Step | md-example/src/lib.rs:29-37 | One iteration of the older loop changes no field of the simulation or the configuration object; its outcome and new state are `StepSpec`, with no step counter |
| MdDraft.Run | md-example/src/lib.rs:28-38 | The older `run(steps)` matches its `RunSpec`: up to `steps` iterations, stopping at the first panic |
| MdDraft.RunKeepsTimestep | md-example/src/lib.rs:28-38 | The older `run` never changes `timestep` |
| MdDraft.StepKeepsForces | md-example/src/lib.rs:60-68 | Every scatter of the older draft adds zero vectors, so no step changes a force row |
| MdDraft.RunKeepsForces | md-example/src/lib.rs:28-38 | No run of the older draft changes a force row |
| MdDraft.StepPanicOrder | md-example/src/lib.rs:29-37 | Without a neighbour list a step panics before any change. With no potentials it panics after the buffers were reset. Without an integrator it panics after the scatter. |
| MdDraft.StepCompletesIff | md-example/src/lib.rs:28-37 | An older step completes iff all three strategies are present, every listed pair fits the force array, and velocity and force have as many rows as position. It then sets the pair list, zeroes the buffer, keeps the forces and applies `update_pos` to every particle. |
| Fibonacci.FastFib | exercises/fibonacci/src/solution.rs:3-11 | A linear-time tail-recursive equivalent computes the same numbers as the naive recursion |
| Fibonacci.FibMonotone | exercises/fibonacci/src/solution.rs:3-11 | Fibonacci numbers never decrease |
| Fibonacci.U32Limit | exercises/fibonacci/src/solution.rs:3 | `fib(47)` fits a `u32` and `fib(48)` does not |
| Fibonacci.FibonacciExact | exercises/fibonacci/src/solution.rs:3-11 | For `n <= 47` the `u32` function returns the Fibonacci number exactly: 0 and 1 at 0 and 1, and the sum of the two previous values after that |
| Fibonacci.FibonacciOverflows | exercises/fibonacci/src/solution.rs:3-11 | For `n >= 48` the `u32` addition overflows, a panic in a checked build |
| Fibonacci.AssertedValue | exercises/fibonacci/src/solution.rs:16 | `fibonacci(36) == 14930352` |
| Fibonacci.FirstTen | exercises/fibonacci/src/solution.rs:19-21 | `fibonacci(0..10)` is 0, 1, 1, 2, 3, 5, 8, 13, 21, 34 |
| Messages.NatToDecimal | exercises/messages/src/solution.rs:22-24 | A non-negative number formats as a non-empty string of digits with no leading zero (only 0 itself starts with `0`) |
| Messages.NatToDecimalRoundTrip | exercises/messages/src/solution.rs:22-24 | Reading a number's digits back gives the number |
| Messages.IntToDecimalRoundTrip | exercises/messages/src/solution.rs:22 | A signed number's text reads back as the number |
| Messages.IntToDecimalShape | exercises/messages/src/solution.rs:22 | A signed number's text starts with `-` exactly when it is negative, and contains no comma or space |
| Messages.U8Digits | exercises/messages/src/solution.rs:24 | A `u8` prints with one digit below 10, two below 100 and three otherwise |
| Messages.EchoCarriesText | exercises/messages/src/solution.rs:23 | `Echo(s)` prints as `Echo: ` followed by exactly `s` |
| Messages.SampleTexts | exercises/messages/src/solution.rs:30-46 | The four sample messages print as `Move to (10, 30)`, `Echo: hello world`, `Change color to (200, 255, 255)` and `Quit` |
| Messages.ParseMove | exercises/messages/src/solution.rs:22 | The text of any `Move` reads back as the same two `i32` values |
| Messages.ParseChangeColor | exercises/messages/src/solution.rs:24 | The text of any `ChangeColor` reads back as the same three `u8` values |
| Messages.ParseDisplay | exercises/messages/src/solution.rs:17-28 | The text of every message reads back as that message |
| Messages.DisplayInjective | exercises/messages/src/solution.rs:17-28 | Different messages have different texts, so the variant and its fields can be recovered from the text |
| Traits.Sheep.New | lessons/8-traits/src/main.rs:50-55 | A new sheep has the given name and is not naked |
| Traits.Sheep.Noise | lessons/8-traits/src/main.rs:61-67 | A sheep says `baaaaah?` exactly when naked and `baaaaah!` exactly when not |
| Traits.Sheep.Shear | lessons/8-traits/src/main.rs:35-44 | `shear` updates the sheep in place so that it is naked under the same name, and leaves an already naked sheep as it was |
| Traits.ShearIdempotent | lessons/8-traits/src/main.rs:35-44 | Shearing twice is shearing once |
| Traits.ShearEffects | lessons/8-traits/src/main.rs:35-44 | Shearing keeps the name, leaves a naked sheep unchanged, and turns a clothed sheep's `baaaaah!` into `baaaaah?` |
| Traits.Dolly | lessons/8-traits/src/main.rs:101-108 | Dolly says `baaaaah!` before her shearing and `baaaaah?` after it |
| Traits.NewDog | lessons/8-traits/src/main.rs:79-84 | A new dog has the given name and is not naked |
| Traits.DogNoiseConstant | lessons/8-traits/src/main.rs:90-92 | Every dog says `Woof`, whatever its flag and name |
| Traits.SummariesAreConstant | lessons/8-traits/src/main.rs:119-135 | The `Sheep` and `Vec<T>` summaries do not depend on the value and keep the `{self.name}` and `{self.len()}` placeholders verbatim |
| Traits.CmpDisplay | lessons/8-traits/src/main.rs:177-184 | `cmp_display` announces one of the two members, one at least as large as both, and `x` on a tie |

## Left out

- Printing is not modelled: `talk`, the messages of `shear`, `Message::call` with its `Debug` text, `notify`…`notify_v4`, the text of `cmp_display`, and the printing loops of the `main` functions. The model keeps only the returned or selected values.
- `notify_v5` only builds a clothed sheep named Jim. Its summary is the sheep summary that `Traits.SummariesAreConstant` covers.
- Floating point is not modelled. `f32` values are exact reals, with no rounding, NaN or overflow. The one exception is `1.0/0.0` in `inv_norm_squared`, which is kept as an explicit infinity. `powi` is exact.
- `Traits.CmpDisplay` is modelled on integers, which form a total order. For a partial order such as floats with NaN, the source announces `y` whenever `x >= y` is false; the model does not cover that.
- `timestep` is a `nat`. The model does not capture a `usize` overflow after 2^64 steps.
- `Integrator::update_pos` is implemented by no type in the source. The model keeps it as an arbitrary deterministic function of a particle's three rows that keeps the row lengths, which is what `ArrayViewMut1` views guarantee.
- `BiLjPotential::force` is `todo!()`, and the statements after `pbc_vec` in `update_to_force_buffer` are never reached: the `inv_norm_squared` call, the `type_ids` lookup and the discarded force value. Neither is part of the step model. `inv_norm_squared` itself is modelled on its own.
- `Configuration::box_dim` and `types`, and `CellList`'s `cells` and `stride`, are never read and are not modelled.
- The `Component` marker trait of the older draft has no behaviour and is not modelled.
- The drafts store strategies as boxed trait objects. The model fixes the single implementation each draft has: `CellList` as the neighbour list, `BiLjPotential` or `LJPotential` as the potential, and an `Integrator` given by its `update_pos`.
- `Fibonacci.Fibonacci` follows a checked (debug) build, where the `u32` addition panics on overflow. A release build would wrap modulo 2^32 instead; the model does not capture that.
- `Traits.Sheep.IsNaked`, `Traits.Sheep.Name` and `Traits.Dog.Noise` are plain accessors or constants; the properties about them are stated by `Traits.Sheep.Noise` and `Traits.DogNoiseConstant`.

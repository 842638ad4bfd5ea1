/**
 * The traits lesson, lessons/8-traits/src/main.rs: a `Sheep` whose `shear`
 * sets its `naked` flag in place, a `Dog` that is never changed, the
 * `Summary` texts, and the choice `Pair::cmp_display` makes.
 */
module Traits {

  // ---------------------------------------------------------------------
  // Sheep

  /** The fields of a `Sheep`, as a value. */
  datatype SheepState = SheepState(naked: bool, name: string)

  /** What `shear` does to a sheep: it ends up naked, under the same name. */
  function ShearSpec(s: SheepState): SheepState
  {
    SheepState(true, s.name)
  }

  /** `Animal::noise` for a sheep in state `s`. */
  function SheepNoise(s: SheepState): string
  {
    if s.naked then "baaaaah?" else "baaaaah!"
  }

  class Sheep {
    var naked: bool
    var name: string

    function State(): SheepState
      reads this
    {
      SheepState(naked, name)
    }

    /** `Animal::new`: a clothed sheep of the given name. */
    constructor New(name: string)
      ensures State() == SheepState(false, name)
    {
      this.naked := false;
      this.name := name;
    }

    function IsNaked(): bool
      reads this
    {
      naked
    }

    function Name(): string
      reads this
    {
      name
    }

    /** `Animal::noise`: the question mark tells a naked sheep. */
    function Noise(): (r: string)
      reads this
      ensures r == SheepNoise(State())
      ensures r == "baaaaah?" <==> IsNaked()
      ensures r == "baaaaah!" <==> !IsNaked()
    {
      SheepNoise(State())
    }

    /** `shear`: a clothed sheep becomes naked; a naked one is left as it is.
        The name never changes. */
    method Shear()
      modifies this
      ensures State() == ShearSpec(old(State()))
      ensures old(naked) ==> State() == old(State())
    {
      if IsNaked() {
        // already naked: only a message is printed
      } else {
        naked := true;
      }
    }
  }

  /** Shearing twice is shearing once. */
  lemma ShearIdempotent(s: SheepState)
    ensures ShearSpec(ShearSpec(s)) == ShearSpec(s)
  {
  }

  /** Shearing keeps the name, leaves a naked sheep as it was, and makes every
      sheep say `"baaaaah?"`. */
  lemma ShearEffects(s: SheepState)
    ensures ShearSpec(s).name == s.name
    ensures s.naked ==> ShearSpec(s) == s
    ensures SheepNoise(ShearSpec(s)) == "baaaaah?"
    ensures !s.naked ==> SheepNoise(s) != SheepNoise(ShearSpec(s))
  {
  }

  /** The lesson's `main` on a sheep: `new("Dolly")`, `talk`, `shear`, `talk`.
      Returns the two noises heard. */
  method Dolly() returns (before: string, after: string)
    ensures before == "baaaaah!" && after == "baaaaah?"
  {
    var dolly := new Sheep.New("Dolly");
    before := dolly.Noise();
    dolly.Shear();
    after := dolly.Noise();
  }

  // ---------------------------------------------------------------------
  // Dog

  /** A `Dog` is never changed after `new`. */
  datatype Dog = Dog(naked: bool, name: string)
  {
    /** `Animal::noise`: the flag is not consulted. */
    function Noise(): string
    {
      "Woof"
    }
  }

  /** `Animal::new` for a dog: clothed, with the given name. */
  function NewDog(name: string): (d: Dog)
    ensures !d.naked && d.name == name
  {
    Dog(false, name)
  }

  /** Every dog says `"Woof"`, whatever its flag and name. */
  lemma DogNoiseConstant(d1: Dog, d2: Dog)
    ensures d1.Noise() == d2.Noise() == "Woof"
  {
  }

  // ---------------------------------------------------------------------
  // Summary

  /** The default `Summary::summarize`. */
  const DefaultSummary: string := "Here's a summary snippet!"

  /** `Summary for Sheep`: a plain literal, so the braces are not filled in. */
  function SheepSummary(s: SheepState): string
  {
    "I am a sheep and my name is {self.name}"
  }

  /** `Summary for Vec<T>`: a plain literal as well. */
  function VecSummary<T>(v: seq<T>): string
  {
    "I have {self.len()} elements"
  }

  /** The summaries do not depend on the summarised value: every sheep and
      every vector gets the same text, with the placeholder left in it. */
  lemma SummariesAreConstant<T>(s1: SheepState, s2: SheepState, v1: seq<T>, v2: seq<T>)
    ensures SheepSummary(s1) == SheepSummary(s2)
    ensures SheepSummary(s1)[28..] == "{self.name}"
    ensures VecSummary(v1) == VecSummary(v2)
    ensures VecSummary(v1)[7..19] == "{self.len()}"
  {
    assert VecSummary(v1) == "I have " + "{self.len()}" + " elements";
  }

  // ---------------------------------------------------------------------
  // Pair::cmp_display

  datatype Pair = Pair(x: int, y: int)

  /** The member `cmp_display` announces as the largest: `x` when `x >= y`,
      otherwise `y`. */
  function CmpDisplay(p: Pair): (r: int)
    ensures r == p.x || r == p.y
    ensures r >= p.x && r >= p.y
    ensures p.x >= p.y ==> r == p.x
  {
    if p.x >= p.y then p.x else p.y
  }
}

/** The unweighted branch of `choices` (decisiveml/montecarlo.py), with the
    process-wide random generator made explicit.

    Python's `random.random()` reads and advances a hidden global state.
    Here that state is an `Rng` object: an infinite tape of uniform draws in
    [0, 1) and the position of the next draw. The tape is chosen by the
    caller, so a sample is a deterministic function of (tape, position). */
module Sampler {
  import opened Outcomes
  import opened Numeric

  /** A uniform draw: a real in [0, 1). */
  type Draw = r: real | 0.0 <= r < 1.0

  class Rng {
    const tape: nat -> Draw
    var pos: nat

    constructor (tape: nat -> Draw, start: nat)
      ensures this.tape == tape && pos == start
    {
      this.tape := tape;
      pos := start;
    }

    /** `random.random()`: the next draw. */
    method Random() returns (r: Draw)
      modifies this
      ensures r == tape(old(pos)) && pos == old(pos) + 1
    {
      r := tape(pos);
      pos := pos + 1;
    }
  }

  /** `int(r * total)` for a draw r: always a valid index into a population
      of `total` elements. */
  function Index(r: Draw, total: nat): (i: nat)
    requires total > 0
    ensures i < total
  {
    assert 0.0 <= r * total as real < total as real;
    (r * total as real).Floor
  }

  /** The sample `choices` returns from the draws at tape[pos], tape[pos+1], ... */
  function Sample(population: seq<real>, k: int, tape: nat -> Draw, pos: nat): (s: seq<real>)
    requires |population| > 0 || k <= 0
    ensures |s| == RangeLength(k)
    ensures forall i :: 0 <= i < |s| ==> s[i] in population
    ensures forall i :: 0 <= i < |s| ==> s[i] == population[Index(tape(pos + i), |population|)]
  {
    var s := seq(RangeLength(k), i requires 0 <= i < RangeLength(k) => population[Index(tape(pos + i), |population|)]);
    assert forall i :: 0 <= i < |s| ==> s[i] == population[Index(tape(pos + i), |population|)];
    s
  }

  /** `choices(population, k=k)` without weights. For k > 0 and an empty
      population the first draw is taken and indexing then fails. */
  method Choices(population: seq<real>, k: int, rng: Rng) returns (r: Result<seq<real>>)
    modifies rng
    ensures k > 0 && |population| == 0 ==> r == Err(IndexOutOfRange) && rng.pos == old(rng.pos) + 1
    ensures k <= 0 || |population| > 0 ==>
              r == Ok(Sample(population, k, rng.tape, old(rng.pos))) && rng.pos == old(rng.pos) + RangeLength(k)
  {
    var total := |population|;
    var chosen: seq<real> := [];
    var i := 0;
    while i < k
      invariant 0 <= i <= RangeLength(k)
      invariant rng.pos == old(rng.pos) + i
      invariant |chosen| == i
      invariant total > 0 ==> forall j :: 0 <= j < i ==> chosen[j] == population[Index(rng.tape(old(rng.pos) + j), total)]
      invariant total == 0 ==> i == 0
    {
      var x := rng.Random();
      if total == 0 {
        return Err(IndexOutOfRange);
      }
      chosen := chosen + [population[Index(x, total)]];
      i := i + 1;
    }
    assert chosen == Sample(population, k, rng.tape, old(rng.pos));
    return Ok(chosen);
  }
}

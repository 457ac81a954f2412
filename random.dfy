/** `Math.random()` is not modelled as a generator: every loop that calls it
    receives the sequence of values it draws, in order, as an input. */
module Random {

  /** Every draw lies in `[0, 1)`, the range `Math.random()` returns. */
  predicate AllUnit(draws: seq<real>)
  {
    forall j :: 0 <= j < |draws| ==> 0.0 <= draws[j] < 1.0
  }
}

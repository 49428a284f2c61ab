/** Arduino's `random(n)`, replaced by an injected source of draws. */
module Arduino {

  /** The value `random(n)` returns when the source's next raw draw is at the
      head of `tape`: the draw reduced below `n` (an exhausted tape reads 0). A
      draw already below `n` is returned as it is, so a test can replay chosen
      values. */
  function Draw(tape: seq<nat>, n: nat): (r: nat)
    requires 0 < n
    ensures r < n
    ensures tape != [] && tape[0] < n ==> r == tape[0]
  {
    if tape == [] then 0 else tape[0] % n
  }

  /** The tape after one draw. */
  function Rest(tape: seq<nat>): (r: seq<nat>)
    ensures tape != [] ==> |r| == |tape| - 1
  {
    if tape == [] then [] else tape[1..]
  }

  /** The random-number source: its remaining raw draws. */
  class RandomSource {
    var tape: seq<nat>

    constructor (draws: seq<nat>)
      ensures tape == draws
    {
      tape := draws;
    }

    /** `random(n)`: a value in `[0, n)`, consuming one draw. */
    method Random(n: nat) returns (r: nat)
      requires 0 < n
      modifies this
      ensures r < n
      ensures r == Draw(old(tape), n) && tape == Rest(old(tape))
    {
      r := Draw(tape, n);
      tape := Rest(tape);
    }
  }
}

/**
 * Vocabulary shared by the DICE cross-check and the property checks:
 * evidence as observed values by node name, absolute difference and the
 * sum of a list of probabilities.
 */
module Probability {
  /** Observed values by node name; Python's `None` evidence is the empty map. */
  type Evidence = map<string, real>

  function Abs(x: real): real
  {
    if x < 0.0 then -x else x
  }

  /** Python's `sum` over probabilities. */
  function Sum(xs: seq<real>): real
  {
    if xs == [] then 0.0 else xs[0] + Sum(xs[1..])
  }

  lemma {:induction false} SumAppend(a: seq<real>, b: seq<real>)
    ensures Sum(a + b) == Sum(a) + Sum(b)
  {
    if a == [] {
      assert a + b == b;
    } else {
      assert (a + b)[1..] == a[1..] + b;
      SumAppend(a[1..], b);
    }
  }
}

/** The token estimate every size limit of the chunkers rests on. */
module Tokens {
  import opened Prelude

  /** `max(1, round(chars / 3))` in integers; thirds never tie. */
  function EstimateTokens(chars: nat): (tokens: nat)
    ensures tokens >= 1
  {
    Max(1, (chars + 1) / 3)
  }

  function Abs(x: int): nat {
    if x < 0 then -x else x
  }

  /** Above one character the estimate is the one integer nearest to a third of the length; it is never less than one. */
  lemma EstimateIsNearest(chars: nat, other: int)
    requires other != EstimateTokens(chars)
    ensures chars < 2 ==> EstimateTokens(chars) == 1
    ensures chars >= 2 ==> Abs(3 * EstimateTokens(chars) - chars) < Abs(3 * other - chars)
  {
    var r := EstimateTokens(chars);
    if chars >= 2 {
      assert chars - 1 <= 3 * r <= chars + 1;
      if other > r {
        assert 3 * other >= 3 * r + 3;
      } else {
        assert 3 * other <= 3 * r - 3;
      }
    }
  }

  lemma EstimateIsMonotone(a: nat, b: nat)
    requires a <= b
    ensures EstimateTokens(a) <= EstimateTokens(b)
  {
  }

  /** Joining two texts with a newline costs at most one estimated token more than the parts. */
  lemma EstimateOfJoin(a: nat, b: nat)
    ensures EstimateTokens(a + 1 + b) <= EstimateTokens(a) + EstimateTokens(b) + 1
  {
  }
}

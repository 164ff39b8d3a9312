/** Small facts about integers that several modules use. */
module Arithmetic {

  function Abs(v: int): nat {
    if v < 0 then -v else v
  }

  lemma Distribute(a: int, b: int, p: int)
    ensures (a + b) * p == a * p + b * p
  {
  }

  lemma MulMonotone(a: nat, b: nat, p: nat)
    requires a <= b
    ensures a * p <= b * p
  {
  }
}

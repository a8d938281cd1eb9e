/** Named operations on reals. The solver rewrites equals by equals inside a named operation, which
    it does not do reliably inside a product or a quotient. The lemmas give the signs of products. */
module Reals {

  function Prod(a: real, b: real): real { a * b }

  function Sq(a: real): real { a * a }

  function Ratio(a: real, b: real): real
    requires b != 0.0
  {
    a / b
  }

  function Abs(x: real): real { if x < 0.0 then -x else x }

  function Max(a: real, b: real): real { if a < b then b else a }

  function Sum(xs: seq<real>): real {
    if xs == [] then 0.0 else Sum(xs[..|xs| - 1]) + xs[|xs| - 1]
  }

  /** The mean; zero for no numbers. */
  function Mean(xs: seq<real>): real {
    if xs == [] then 0.0 else Ratio(Sum(xs), |xs| as real)
  }

  // ---------- Signs ----------

  lemma ProductOfPositives(a: real, b: real)
    requires a > 0.0 && b > 0.0
    ensures Prod(a, b) > 0.0
  {
  }

  lemma ProductOfNegatives(a: real, b: real)
    requires a < 0.0 && b < 0.0
    ensures Prod(a, b) > 0.0
  {
  }

  lemma SquareIsProduct(a: real)
    ensures Sq(a) == Prod(a, a) >= 0.0
  {
  }

  lemma SquareSign(a: real)
    ensures Sq(a) >= 0.0
    ensures a != 0.0 ==> Sq(a) > 0.0
  {
    hide Sq, Prod;
    SquareIsProduct(a);
    if a > 0.0 {
      ProductOfPositives(a, a);
    } else if a < 0.0 {
      ProductOfNegatives(a, a);
    }
  }

  lemma SquareLess(d: real, l: real)
    requires l > 0.0
    ensures d * d < l * l <==> -l < d < l
  {
    assert l * l - d * d == (l - d) * (l + d);
    if -l < d < l {
      assert (l - d) * (l + d) > 0.0;
    } else if d >= l {
      assert (d - l) * (d + l) >= 0.0;
    } else {
      assert (-l - d) * (l - d) >= 0.0;
    }
  }
}

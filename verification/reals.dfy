/** Exact real arithmetic standing in for numpy's float64 reductions
    (`np.absolute`, `np.sum`, `np.mean`). Rounding is not modelled. */
module Reals {

  function Abs(x: real): (r: real)
    ensures r >= 0.0 && (r == x || r == -x)
  {
    if x < 0.0 then -x else x
  }

  /** `np.sum(s)`. */
  function Sum(s: seq<real>): real {
    if |s| == 0 then 0.0 else Sum(s[..|s| - 1]) + s[|s| - 1]
  }

  /** `np.mean(s)` of a non-empty sequence. */
  function Mean(s: seq<real>): real
    requires |s| > 0
  {
    Sum(s) / |s| as real
  }

  /** The sum of an arithmetic progression a, a + d, a + 2d, ... */
  lemma {:induction false} SumArithmetic(s: seq<real>, a: real, d: real)
    requires forall i :: 0 <= i < |s| ==> s[i] == a + (i as real) * d
    ensures Sum(s) == (|s| as real) * a + d * ((|s| as real) * (|s| as real - 1.0) / 2.0)
  {
    if |s| > 0 {
      var n := |s| as real;
      var p := s[..|s| - 1];
      SumArithmetic(p, a, d);
      assert Sum(p) == (n - 1.0) * a + d * ((n - 1.0) * (n - 2.0) / 2.0);
      assert s[|s| - 1] == a + (n - 1.0) * d;
      calc {
        Sum(s);
        (n - 1.0) * a + d * ((n - 1.0) * (n - 2.0) / 2.0) + a + (n - 1.0) * d;
        n * a + d * ((n - 1.0) * (n - 2.0) / 2.0 + (n - 1.0));
        n * a + d * (n * (n - 1.0) / 2.0);
      }
    }
  }

  /** A sequence of equal values sums to count times value. */
  lemma SumConstant(s: seq<real>, v: real)
    requires forall i :: 0 <= i < |s| ==> s[i] == v
    ensures Sum(s) == (|s| as real) * v
  {
    SumArithmetic(s, v, 0.0);
  }

  /** Adding the same amount to every element adds count times that amount
      to the sum. */
  lemma {:induction false} SumShifted(s: seq<real>, t: seq<real>, c: real)
    requires |t| == |s|
    requires forall i :: 0 <= i < |s| ==> t[i] == s[i] + c
    ensures Sum(t) == Sum(s) + (|s| as real) * c
  {
    if |s| > 0 {
      SumShifted(s[..|s| - 1], t[..|t| - 1], c);
    }
  }

  /** The sum of an element-wise sum is the sum of the sums. */
  lemma {:induction false} SumPointwise(s: seq<real>, t: seq<real>, u: seq<real>)
    requires |t| == |s| && |u| == |s|
    requires forall i :: 0 <= i < |s| ==> u[i] == s[i] + t[i]
    ensures Sum(u) == Sum(s) + Sum(t)
  {
    if |s| > 0 {
      SumPointwise(s[..|s| - 1], t[..|t| - 1], u[..|u| - 1]);
    }
  }
}

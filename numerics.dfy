/** The numeric helpers the table code relies on: IEEE-style division, sums and maxima. */
module Numerics {

  /** A double-precision result as far as this model needs one: a finite value
      or one of the non-finite values numpy yields when it divides by zero. */
  datatype Float = Finite(value: real) | PosInf | NegInf | NaN

  /** numpy's `a / b` on doubles: finite for a non-zero divisor, otherwise
      plus or minus infinity by the sign of `a`, and NaN for `0 / 0`. */
  function Divide(a: real, b: real): (q: Float)
    ensures q.Finite? <==> b != 0.0
    ensures q.Finite? ==> q.value * b == a
    ensures q == PosInf <==> b == 0.0 && a > 0.0
    ensures q == NegInf <==> b == 0.0 && a < 0.0
    ensures q == NaN <==> b == 0.0 && a == 0.0
  {
    if b != 0.0 then Finite(a / b)
    else if a > 0.0 then PosInf
    else if a < 0.0 then NegInf
    else NaN
  }

  /** `np.sum` of a vector of reals. */
  function Sum(s: seq<real>): real
  {
    if |s| == 0 then 0.0 else s[0] + Sum(s[1..])
  }

  /** `np.max`, which raises on an empty array. */
  function Max(s: seq<real>): (m: real)
    requires |s| > 0
    ensures m in s
    ensures forall j :: 0 <= j < |s| ==> s[j] <= m
  {
    if |s| == 1 then s[0]
    else
      var rest := Max(s[1..]);
      if s[0] >= rest then s[0] else rest
  }

  /** Dividing every entry by `c` divides the sum by `c`. */
  lemma {:induction false} SumScaled(s: seq<real>, c: real)
    requires c != 0.0
    ensures Sum(seq(|s|, j requires 0 <= j < |s| => s[j] / c)) == Sum(s) / c
  {
    var scaled := seq(|s|, j requires 0 <= j < |s| => s[j] / c);
    if |s| > 0 {
      var tail := seq(|s| - 1, j requires 0 <= j < |s| - 1 => s[1..][j] / c);
      assert scaled[1..] == tail;
      SumScaled(s[1..], c);
      assert Sum(scaled) == s[0] / c + Sum(s[1..]) / c;
      assert s[0] / c + Sum(s[1..]) / c == (s[0] + Sum(s[1..])) / c;
    }
  }
}

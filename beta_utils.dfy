/** The exact comparison of two Beta distributions (mixbaba/beta_utils.py).

    The closed form is the one of J. D. Cook, "Exact calculation of beta
    inequalities" (technical report UTMDABTR-005-05): g(a, b, c, d) is built
    from a base value g0(a, b, c) plus the terms h(a, b, c, k) / k for
    k = d-1 down to 1.  The two numerical kernels h and g0 are exponentials
    of log-gamma sums computed in floating point; here they are arbitrary
    functions carried by a Kernel value, and the predicate Positive states
    the one fact the rest relies on (an exponential is positive). */
module BetaUtils {

  /** The two floating-point kernels: h (equation 3 of the report) and g0
      (the closed form for d = 1). */
  datatype Kernel = Kernel(h: (int, int, int, int) -> real, g0: (int, int, int) -> real)

  /** Both kernels are exp(...) of a finite value wherever their log-gamma
      arguments are positive, hence positive there. */
  ghost predicate Positive(k: Kernel) {
    && (forall a, b, c, d :: a > 0 && b > 0 && c > 0 && d > 0 ==> k.h(a, b, c, d) > 0.0)
    && (forall a, b, c :: a > 0 && b > 0 && c > 0 ==> k.g0(a, b, c) > 0.0)
  }

  /** A Beta distribution, identified by its two shape parameters. */
  datatype Beta = Beta(a: int, b: int) {
    function Mean(): real
      requires a + b != 0
    {
      a as real / (a + b) as real
    }
  }

  /** The values the generator `hiter` yields, in order: while d > 1 it
      decrements d and yields h(a, b, c, d) / d.  The divisor is the
      decremented d, at least 1, so the division is always defined. */
  function HTerms(k: Kernel, a: int, b: int, c: int, d: int): seq<real>
    decreases d
  {
    if d <= 1 then []
    else [k.h(a, b, c, d - 1) / (d - 1) as real] + HTerms(k, a, b, c, d - 1)
  }

  /** The number of terms the generator yields: d - 1 for d >= 1, none otherwise. */
  function TermCount(d: int): nat {
    if d > 1 then d - 1 else 0
  }

  /** The generator yields TermCount(d) terms, the i-th one being the term
      for k = d - 1 - i, so k runs from d - 1 down to 1. */
  lemma {:induction false} HTermsShape(k: Kernel, a: int, b: int, c: int, d: int)
    ensures |HTerms(k, a, b, c, d)| == TermCount(d)
    ensures forall i :: 0 <= i < TermCount(d) ==>
      1 <= d - 1 - i <= d - 1 &&
      HTerms(k, a, b, c, d)[i] == k.h(a, b, c, d - 1 - i) / (d - 1 - i) as real
    decreases d
  {
    if d > 1 {
      HTermsShape(k, a, b, c, d - 1);
      var t := HTerms(k, a, b, c, d);
      forall i | 0 <= i < TermCount(d)
        ensures t[i] == k.h(a, b, c, d - 1 - i) / (d - 1 - i) as real
      {
        if i > 0 {
          assert t[i] == HTerms(k, a, b, c, d - 1)[i - 1];
        }
      }
    }
  }

  /** The loop of `hiter`: d counts down and one term is produced per step. */
  method HIter(k: Kernel, a: int, b: int, c: int, d: int) returns (terms: seq<real>)
    ensures terms == HTerms(k, a, b, c, d)
    ensures |terms| == TermCount(d)
    ensures forall i :: 0 <= i < |terms| ==>
      terms[i] == k.h(a, b, c, d - 1 - i) / (d - 1 - i) as real
  {
    terms := [];
    var n := d;
    while n > 1
      invariant n <= d || n <= 1
      invariant terms + HTerms(k, a, b, c, n) == HTerms(k, a, b, c, d)
    {
      n := n - 1;
      terms := terms + [k.h(a, b, c, n) / n as real];
    }
    HTermsShape(k, a, b, c, d);
  }

  /** The sum of a sequence of reals, as Python's `sum` over the generator. */
  function Sum(s: seq<real>): real {
    if s == [] then 0.0 else s[0] + Sum(s[1..])
  }

  /** `g`: the base value plus the sum of everything `hiter` yields. */
  function G(k: Kernel, a: int, b: int, c: int, d: int): real {
    k.g0(a, b, c) + Sum(HTerms(k, a, b, c, d))
  }

  /** The recurrence of the report, stated recursively:
      g(a, b, c, 1) = g0(a, b, c) and g(a, b, c, d) = g(a, b, c, d-1) + h(a, b, c, d-1) / (d-1). */
  function GRec(k: Kernel, a: int, b: int, c: int, d: int): real
    decreases d
  {
    if d <= 1 then k.g0(a, b, c)
    else GRec(k, a, b, c, d - 1) + k.h(a, b, c, d - 1) / (d - 1) as real
  }

  /** The loop-and-sum form of `g` equals the recursive definition. */
  lemma {:induction false} GMatchesRecurrence(k: Kernel, a: int, b: int, c: int, d: int)
    ensures G(k, a, b, c, d) == GRec(k, a, b, c, d)
    decreases d
  {
    if d > 1 {
      var t := HTerms(k, a, b, c, d);
      assert t[1..] == HTerms(k, a, b, c, d - 1);
      GMatchesRecurrence(k, a, b, c, d - 1);
    }
  }

  /** With positive kernels every yielded term is positive, so their sum is
      non-negative, and positive as soon as there is a term. */
  lemma {:induction false} HTermsSumPositive(k: Kernel, a: int, b: int, c: int, d: int)
    requires Positive(k)
    requires a > 0 && b > 0 && c > 0
    ensures Sum(HTerms(k, a, b, c, d)) >= 0.0
    ensures d > 1 ==> Sum(HTerms(k, a, b, c, d)) > 0.0
    decreases d
  {
    if d > 1 {
      var t := HTerms(k, a, b, c, d);
      assert t[1..] == HTerms(k, a, b, c, d - 1);
      HTermsSumPositive(k, a, b, c, d - 1);
      assert k.h(a, b, c, d - 1) > 0.0;
    }
  }

  /** g(a, b, c, d) >= g0(a, b, c) > 0 for positive kernels and positive
      a, b, c, strictly above g0 when d > 1. */
  lemma GPositive(k: Kernel, a: int, b: int, c: int, d: int)
    ensures Positive(k) && a > 0 && b > 0 && c > 0 ==>
      G(k, a, b, c, d) >= k.g0(a, b, c) > 0.0 &&
      (d > 1 ==> G(k, a, b, c, d) > k.g0(a, b, c))
  {
    if Positive(k) && a > 0 && b > 0 && c > 0 {
      HTermsSumPositive(k, a, b, c, d);
    }
  }

  /** `calc_prob_between`: the probability that a draw of beta1 exceeds a
      draw of beta2, computed as g with beta1's parameters first and beta2's
      second.  It is positive whenever the parameters are. */
  function CalcProbBetween(k: Kernel, beta1: Beta, beta2: Beta): (p: real)
    ensures p == GRec(k, beta1.a, beta1.b, beta2.a, beta2.b)
    ensures Positive(k) && beta1.a > 0 && beta1.b > 0 && beta2.a > 0 ==> p > 0.0
  {
    GMatchesRecurrence(k, beta1.a, beta1.b, beta2.a, beta2.b);
    GPositive(k, beta1.a, beta1.b, beta2.a, beta2.b);
    G(k, beta1.a, beta1.b, beta2.a, beta2.b)
  }

  /** `calc_beta_mode`: the peak (a-1)/(a+b-2) of Beta(a, b).  It is the
      point where the derivative of the log-density, (a-1)/x - (b-1)/(1-x),
      vanishes, and it lies in [0, 1] for a, b >= 1.  The source divides by
      a + b - 2 unguarded, so a + b = 2 is excluded. */
  function CalcBetaMode(a: int, b: int): (r: real)
    requires a + b != 2
    ensures (a - 1) as real * (1.0 - r) == (b - 1) as real * r
    ensures a >= 1 && b >= 1 ==> 0.0 <= r <= 1.0
  {
    var n := (a + b - 2) as real;
    var r := (a - 1) as real / n;
    assert r * n == (a - 1) as real;
    assert a >= 1 && b >= 1 ==> n > 0.0 && (a - 1) as real <= n;
    r
  }

  /** The stationary-point equation has exactly one solution, the mode. */
  lemma ModeIsUniqueStationaryPoint(a: int, b: int, x: real)
    requires a + b != 2
    requires (a - 1) as real * (1.0 - x) == (b - 1) as real * x
    ensures x == CalcBetaMode(a, b)
  {
    var n := (a + b - 2) as real;
    assert (a - 1) as real == n * x;
  }

  /** Swapping the shape parameters mirrors the peak around 1/2. */
  lemma ModeMirror(a: int, b: int)
    requires a + b != 2
    ensures CalcBetaMode(a, b) + CalcBetaMode(b, a) == 1.0
  {
    var n := (a + b - 2) as real;
    assert (a - 1) as real / n + (b - 1) as real / n == ((a - 1) as real + (b - 1) as real) / n;
  }
}

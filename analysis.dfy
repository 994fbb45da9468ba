/** The A/B decision logic of mixbaba/mixbaba_utils.py: turning counts into
    Beta posteriors, the relative uplift of their means, the probability
    that the test beats the control, and the guarded decision of
    `analyze_funnel` for one Control, one Test and an optional Control2.

    The probability comes from BetaUtils with abstract kernels, so every
    branch below is verified whatever values the floating-point kernels
    take.  The funnel data is the aggregated dictionary, given as input. */
module Analysis {
  import opened Wrappers
  import opened BetaUtils
  import opened Aggregation

  /** Two controls are pooled when |prob - 0.5| is below this bound. */
  const PoolTolerance: real := 0.35

  const TooFewData: string := "Too few data!"
  const ControlsDiffer: string := "The two control options show different behavior!"
  const ResultOk: string := "Result is OK!"
  const ResultUncertain: string := "Result is uncertain! Check data"

  /** The impressions and conversions of one group. */
  datatype Counts = Counts(imps: nat, convs: nat)

  /** What `make_ab_analysis` returns: the relative uplift and the
      probability that the second sample beats the first. */
  datatype AbResult = AbResult(lift: real, prob: real)

  /** The four optional counts a detailed report carries. */
  datatype Details = Details(controlImpressions: nat, controlConversions: nat,
                             testImpressions: nat, testConversions: nat)

  const ZeroDetails: Details := Details(0, 0, 0, 0)

  /** The record `analyze_funnel` returns for one funnel; details is present
      exactly when the detailed output was asked for. */
  datatype Report = Report(discriminant: string, cohort: string, crImprovement: real,
                           probability: real, comment: string, details: Option<Details>)

  function Abs(x: real): real {
    if x < 0.0 then -x else x
  }

  /** The posterior of a sample under a uniform prior: a = convs + 1 and
      b = imps - convs + 1.  The counts can be read back from it, a is at
      least 1, and so is b when the sample is consistent. */
  function PosteriorOf(imps: nat, convs: nat): (beta: Beta)
    ensures beta.a - 1 == convs && beta.a + beta.b - 2 == imps
    ensures beta.a >= 1 && (convs <= imps ==> beta.b >= 1)
  {
    Beta(convs + 1, imps - convs + 1)
  }

  /** `calc_uplift`: (mean2 - mean1) / mean1.  The uplift scales the first
      mean onto the second, and for a positive first mean its sign is the
      sign of mean2 - mean1. */
  function CalcUplift(beta1: Beta, beta2: Beta): (lift: real)
    requires beta1.a + beta1.b != 0 && beta2.a + beta2.b != 0
    requires beta1.Mean() != 0.0
    ensures beta1.Mean() * (1.0 + lift) == beta2.Mean()
    ensures beta1.Mean() > 0.0 ==>
      (lift > 0.0 <==> beta2.Mean() > beta1.Mean()) && (lift == 0.0 <==> beta2.Mean() == beta1.Mean())
  {
    var m1, m2 := beta1.Mean(), beta2.Mean();
    var lift := (m2 - m1) / m1;
    assert lift * m1 == m2 - m1;
    SignOfProduct(lift, m1, m2 - m1);
    lift
  }

  /** t * s == u with s > 0: t and u have the same sign. */
  lemma SignOfProduct(t: real, s: real, u: real)
    requires t * s == u
    ensures s > 0.0 ==> (t > 0.0 <==> u > 0.0) && (t == 0.0 <==> u == 0.0)
  {
    if s > 0.0 {
      if t > 0.0 {
        assert t * s > 0.0;
      } else if t < 0.0 {
        assert (-t) * s > 0.0;
      }
    }
  }

  /** The posterior mean (convs + 1) / (imps + 2) is always positive. */
  lemma PosteriorMeanPositive(imps: nat, convs: nat)
    ensures PosteriorOf(imps, convs).Mean() > 0.0
  {
    var beta := PosteriorOf(imps, convs);
    assert beta.Mean() == (convs + 1) as real / (imps + 2) as real;
  }

  /** Comparing two posterior means is comparing the cross products of
      their (convs + 1, imps + 2) pairs. */
  lemma PosteriorMeanOrder(imps1: nat, convs1: nat, imps2: nat, convs2: nat)
    ensures PosteriorOf(imps2, convs2).Mean() > PosteriorOf(imps1, convs1).Mean() <==>
            (convs2 + 1) * (imps1 + 2) > (convs1 + 1) * (imps2 + 2)
    ensures PosteriorOf(imps2, convs2).Mean() == PosteriorOf(imps1, convs1).Mean() <==>
            (convs2 + 1) * (imps1 + 2) == (convs1 + 1) * (imps2 + 2)
  {
    var x, p := (convs1 + 1) as real, (imps1 + 2) as real;
    var y, q := (convs2 + 1) as real, (imps2 + 2) as real;
    var m1, m2 := x / p, y / q;
    assert PosteriorOf(imps1, convs1).Mean() == m1;
    assert PosteriorOf(imps2, convs2).Mean() == m2;
    assert m1 * p == x && m2 * q == y;
    assert (m2 - m1) * (p * q) == y * p - x * q;
    assert p * q > 0.0;
    SignOfProduct(m2 - m1, p * q, y * p - x * q);
    assert ((convs2 + 1) * (imps1 + 2)) as real == y * p;
    assert ((convs1 + 1) * (imps2 + 2)) as real == x * q;
  }

  /** `make_ab_analysis`: sample 1 is the control and sample 2 the test.
      The probability is g with the test's parameters first, so it is the
      probability that the test beats the control; the uplift is positive
      exactly when the test's posterior mean is the higher one, and zero for
      identical samples. */
  function MakeAbAnalysis(k: Kernel, imps1: nat, convs1: nat, imps2: nat, convs2: nat): (r: AbResult)
    ensures r.prob == GRec(k, convs2 + 1, imps2 - convs2 + 1, convs1 + 1, imps1 - convs1 + 1)
    ensures PosteriorOf(imps1, convs1).Mean() * (1.0 + r.lift) == PosteriorOf(imps2, convs2).Mean()
    ensures r.lift > 0.0 <==> (convs2 + 1) * (imps1 + 2) > (convs1 + 1) * (imps2 + 2)
    ensures r.lift == 0.0 <==> (convs2 + 1) * (imps1 + 2) == (convs1 + 1) * (imps2 + 2)
    ensures imps1 == imps2 && convs1 == convs2 ==> r.lift == 0.0
    ensures Positive(k) && convs2 <= imps2 ==> r.prob > 0.0
  {
    var beta1 := PosteriorOf(imps1, convs1);
    var beta2 := PosteriorOf(imps2, convs2);
    PosteriorMeanPositive(imps1, convs1);
    PosteriorMeanOrder(imps1, convs1, imps2, convs2);
    AbResult(CalcUplift(beta1, beta2), CalcProbBetween(k, beta2, beta1))
  }

  /** The uplift of the regression case of `make_ab_analysis` (expected
      0.19801980): 10000 impressions each, 100 control and 120 test
      conversions give exactly 20/101, since the posterior means are
      101/10002 and 121/10002. */
  lemma UpliftRegression(k: Kernel)
    ensures MakeAbAnalysis(k, 10000, 100, 10000, 120).lift == 20.0 / 101.0
  {
    var lift := MakeAbAnalysis(k, 10000, 100, 10000, 120).lift;
    assert PosteriorOf(10000, 100).Mean() == 101.0 / 10002.0;
    assert PosteriorOf(10000, 120).Mean() == 121.0 / 10002.0;
    assert (101.0 / 10002.0) * (1.0 + lift) == 121.0 / 10002.0;
  }

  /** The counts of a group: the 'count' of its impression field and of its
      conversion field, or None when a key is missing (a KeyError). */
  function SampleOf(data: Aggregated, group: string, iField: string, cField: string): (c: Option<Counts>)
    ensures c.Some? <==> group in data.items && iField in data.items[group].items && cField in data.items[group].items
    ensures c.Some? ==> c.value.imps == data.items[group].items[iField].count &&
                        c.value.convs == data.items[group].items[cField].count
  {
    if group in data.items && iField in data.items[group].items && cField in data.items[group].items then
      var steps := data.items[group].items;
      Some(Counts(steps[iField].count, steps[cField].count))
    else None
  }

  /** Two controls agree when the probability between them is within the
      pooling tolerance of 1/2. */
  ghost predicate ControlsAgree(k: Kernel, c1: Counts, c2: Counts) {
    Abs(MakeAbAnalysis(k, c1.imps, c1.convs, c2.imps, c2.convs).prob - 0.5) < PoolTolerance
  }

  /** Both controls are there with at least one conversion each, and they
      disagree: the analysis stops before looking at the test. */
  ghost predicate ControlsDisagree(k: Kernel, data: Aggregated, abGroups: map<string, string>,
                                   iField: string, cField: string)
    requires "Control" in abGroups
  {
    var c := SampleOf(data, abGroups["Control"], iField, cField);
    var c2 := if "Control2" in abGroups then SampleOf(data, abGroups["Control2"], iField, cField) else None;
    && c.Some? && c2.Some?
    && c.value.convs >= 1 && c2.value.convs >= 1
    && !ControlsAgree(k, c.value, c2.value)
  }

  /** The control the test is compared against: the Control group's counts,
      or both controls summed when a Control2 is named and agrees with it;
      None when a lookup fails or the controls stop the analysis. */
  ghost function EffectiveControl(k: Kernel, data: Aggregated, abGroups: map<string, string>,
                                  iField: string, cField: string): Option<Counts>
    requires "Control" in abGroups
  {
    var c := SampleOf(data, abGroups["Control"], iField, cField);
    if c.None? then None
    else if "Control2" !in abGroups then c
    else
      var c2 := SampleOf(data, abGroups["Control2"], iField, cField);
      if c2.None? || c.value.convs < 1 || c2.value.convs < 1 || !ControlsAgree(k, c.value, c2.value) then None
      else Some(Counts(c.value.imps + c2.value.imps, c.value.convs + c2.value.convs))
  }

  /** `analyze_funnel` on already fetched, aggregated data.  Every path
      returns a record with one of the four comments and the discriminant
      and cohort copied; the comparison with the test is made exactly when
      the controls pass, the test is found and both sides have a
      conversion, and then the verdict is OK exactly when the probability
      exceeds the threshold. */
  method AnalyzeFunnel(k: Kernel, data: Aggregated, discriminant: string, cohort: string,
                       iField: string, cField: string, abGroups: map<string, string>,
                       probTh: real, detailed: bool) returns (out: Report)
    requires "Control" in abGroups && "Test" in abGroups
    ensures out.discriminant == discriminant && out.cohort == cohort
    ensures out.comment in {TooFewData, ControlsDiffer, ResultOk, ResultUncertain}
    ensures detailed <==> out.details.Some?
    ensures out.comment == TooFewData || out.comment == ControlsDiffer ==>
      out.crImprovement == 0.0 && out.probability == 0.0
    ensures out.comment == ControlsDiffer <==> ControlsDisagree(k, data, abGroups, iField, cField)
    ensures
      var eff := EffectiveControl(k, data, abGroups, iField, cField);
      var test := SampleOf(data, abGroups["Test"], iField, cField);
      && ((out.comment == ResultOk || out.comment == ResultUncertain) <==>
          eff.Some? && test.Some? && eff.value.convs >= 1 && test.value.convs >= 1)
      && (eff.Some? && test.Some? && eff.value.convs >= 1 && test.value.convs >= 1 ==>
            var r := MakeAbAnalysis(k, eff.value.imps, eff.value.convs, test.value.imps, test.value.convs);
            out.crImprovement == r.lift && out.probability == r.prob &&
            (out.comment == ResultOk <==> r.prob > probTh))
      && (detailed ==>
            out.details == Some(if eff.Some? && test.Some?
                                then Details(eff.value.imps, eff.value.convs, test.value.imps, test.value.convs)
                                else ZeroDetails))
  {
    out := Report(discriminant, cohort, 0.0, 0.0, " ", None);
    var controlGroup := abGroups["Control"];
    var testGroup := abGroups["Test"];
    var control2Present := "Control2" in abGroups;

    // control
    var ctrl := SampleOf(data, controlGroup, iField, cField);
    if ctrl.None? {
      out := out.(comment := TooFewData, details := if detailed then Some(ZeroDetails) else None);
      return;
    }
    var impsCtrl, convsCtrl := ctrl.value.imps, ctrl.value.convs;
    if control2Present {
      var ctrl2 := SampleOf(data, abGroups["Control2"], iField, cField);
      if ctrl2.None? {
        out := out.(comment := TooFewData, details := if detailed then Some(ZeroDetails) else None);
        return;
      }
      if convsCtrl < 1 || ctrl2.value.convs < 1 {
        out := out.(comment := TooFewData, details := if detailed then Some(ZeroDetails) else None);
        return;
      }
      var controls := MakeAbAnalysis(k, impsCtrl, convsCtrl, ctrl2.value.imps, ctrl2.value.convs);
      if Abs(controls.prob - 0.5) < PoolTolerance {
        impsCtrl := impsCtrl + ctrl2.value.imps;
        convsCtrl := convsCtrl + ctrl2.value.convs;
      } else {
        out := out.(comment := ControlsDiffer, details := if detailed then Some(ZeroDetails) else None);
        return;
      }
    }

    // test
    var test := SampleOf(data, testGroup, iField, cField);
    if test.None? {
      out := out.(comment := TooFewData, details := if detailed then Some(ZeroDetails) else None);
      return;
    }
    var impsTest, convsTest := test.value.imps, test.value.convs;
    if detailed {
      out := out.(details := Some(Details(impsCtrl, convsCtrl, impsTest, convsTest)));
    }
    if convsCtrl < 1 || convsTest < 1 {
      out := out.(comment := TooFewData);
      return;
    }
    var result := MakeAbAnalysis(k, impsCtrl, convsCtrl, impsTest, convsTest);
    if result.prob > probTh {
      out := out.(comment := ResultOk);
    } else {
      out := out.(comment := ResultUncertain);
    }
    out := out.(crImprovement := result.lift, probability := result.prob);
  }

  /** The discriminant "family.value" split into its family and value, or
      the whole string twice when it has no dot.  A second dot makes the
      source's two-name unpacking fail, so at most one dot is required. */
  function SplitDiscriminant(discriminant: string): (parts: (string, string))
    requires forall i, j :: 0 <= i < j < |discriminant| && discriminant[i] == '.' ==> discriminant[j] != '.'
    ensures '.' in discriminant ==>
      parts.0 + "." + parts.1 == discriminant && '.' !in parts.0 && '.' !in parts.1
    ensures '.' !in discriminant ==> parts == (discriminant, discriminant)
  {
    if '.' in discriminant then
      var i := DotIndex(discriminant);
      assert discriminant == discriminant[..i] + "." + discriminant[i + 1..];
      (discriminant[..i], discriminant[i + 1..])
    else (discriminant, discriminant)
  }

  /** The position of the first dot. */
  function DotIndex(s: string): (i: nat)
    requires '.' in s
    ensures i < |s| && s[i] == '.' && '.' !in s[..i]
  {
    if s[0] == '.' then 0
    else
      var j := DotIndex(s[1..]);
      assert s[..j + 1] == [s[0]] + s[1..][..j];
      j + 1
  }
}

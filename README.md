# mixbaba core, modelled in Dafny

mixbaba evaluates A/B experiments recorded as Mixpanel funnels. This model covers its three pieces of sequential logic:

- **Aggregation** (`aggregation.dfy`): `aggregate_mix_data` folds a funnel response into one insertion-ordered dictionary. The response is split into monthly buckets of the form date → group → list of steps. The result maps group → step label → `{'count': n}`, with each count summed over all months. Dictionaries become sequences of pairs in iteration order. The resulting `OrderedDict` becomes an `OrderedMap`: the keys in insertion order beside the key-value map. The method is proved against a reference description, `Summarizes`, which says:
  - the groups appear in first-occurrence order;
  - each group's step labels appear in first-occurrence order;
  - each count is the sum of the counts of the matching entries.

  Lemmas then derive the key set, the counts, the ordering, the uniqueness of the result, and the irrelevance of empty months.
- **Beta comparison** (`beta_utils.dfy`): this is the closed form of J. D. Cook's report UTMDABTR-005-05. `h` and `g0` are floating-point exponentials of log-gamma sums. Here they are arbitrary functions carried by a `Kernel`, and `Positive` is the one fact assumed about them. The `hiter` loop is a `while` loop producing its terms. The model proves:
  - the number, order and divisors of those terms;
  - that `g` equals the report's recurrence;
  - that `g` is positive;
  - the argument order of `calc_prob_between`;
  - the mode formula, in exact real arithmetic.
- **A/B decision** (`analysis.dfy`): the model covers the following.
  - Counts become Beta posteriors (`a = convs+1`, `b = imps-convs+1`).
  - The uplift and the probability are computed from the posteriors.
  - `analyze_funnel` runs its guarded decision for one Control, one Test and an optional Control2. Its guards are: lookup failure, too few conversions, pooling the two controls when `|p-0.5| < 0.35`, and the strict threshold verdict. Every path ends in a well-formed record.
  - Because the probability is built from the abstract kernels, the branching is verified for any numeric outcome.

`wrappers.dfy` holds the `Option` type used for lookups that can miss a key.

Behaviour of the code that the model keeps as written:
- **Direction of the comparison.** `calc_prob_between(beta1, beta2)` evaluates `g(beta1.a, beta1.b, beta2.a, beta2.b)`, documented as "beta1 greater than beta2" (mixbaba/beta_utils.py:66-82). `make_ab_analysis` passes (test, control), so the probability is that the test beats the control (mixbaba/mixbaba_utils.py:123).
- **Pooling tolerance.** The two controls are pooled when `abs(p-0.5) < 0.35` (mixbaba/mixbaba_utils.py:216).
- **Test arms.** There is exactly one `Test` group, named in `ab_groups`; group names are never inferred.
- **Order of checks.** Control2 is looked up before either control's conversions are checked, so a missing Control2 reads "Too few data!" even when the Control has no conversions. Without Control2, the control's conversions are checked only after the test lookup, so a detailed report then carries the real counts rather than zeros.
- **No zero-mean guard.** `calc_uplift` divides by the control's posterior mean without a guard. That mean, `(convs+1)/(imps+2)`, is never zero, and `PosteriorMeanPositive` proves it.

## Model

| member | source | states |
|---|---|---|
| `BetaUtils.HIter` | mixbaba/beta_utils.py:48-50 | The loop yields exactly `TermCount(d)` terms: `d-1` of them for `d ≥ 1`, none for `d ≤ 1`. The i-th term is `h(a,b,c,d-1-i)/(d-1-i)`, so k runs from d-1 down to 1. The result equals the recursive `HTerms`. |
| `BetaUtils.HTermsShape` | mixbaba/beta_utils.py:48-50 | The generator's output has length `TermCount(d)`. Every divisor k lies in `[1, d-1]`, so it is never 0. The term at position i belongs to `k = d-1-i`. |
| `BetaUtils.GMatchesRecurrence` | mixbaba/beta_utils.py:53-63 | `g0(a,b,c)` plus the sum of the yielded terms equals the report's recurrence `GRec`: `g(a,b,c,d) = g0(a,b,c)` for `d ≤ 1`, else `g(a,b,c,d-1) + h(a,b,c,d-1)/(d-1)`. |
| `BetaUtils.HTermsSumPositive` | mixbaba/beta_utils.py:48-50 | With positive kernels and positive a, b, c, the sum of the yielded terms is ≥ 0, and > 0 when `d > 1`. |
| `BetaUtils.GPositive` | mixbaba/beta_utils.py:53-63 | With positive kernels and positive a, b, c: `g(a,b,c,d) ≥ g0(a,b,c) > 0`, strictly above `g0` when `d > 1`. |
| `BetaUtils.CalcProbBetween` | mixbaba/beta_utils.py:66-82 | The result is the recurrence evaluated at `(beta1.a, beta1.b, beta2.a, beta2.b)`, in that order. It is positive when the kernels and beta1's parameters and beta2's `a` are positive, as tests/test_calc_prob_between.py:27 asserts. |
| `BetaUtils.CalcBetaMode` | mixbaba/beta_utils.py:85-93 | Requires `a+b ≠ 2`, the source's unguarded divisor. The result r satisfies the stationary-point equation of the log-density, `(a-1)(1-r) = (b-1)r`. It lies in `[0,1]` when `a, b ≥ 1`. |
| `BetaUtils.ModeIsUniqueStationaryPoint` | mixbaba/beta_utils.py:85-93 | Any x solving the stationary-point equation is the computed mode. |
| `BetaUtils.ModeMirror` | mixbaba/beta_utils.py:85-93 | `mode(a,b) + mode(b,a) = 1`. |
| `Aggregation.AggregateMixData` | mixbaba/mixbaba_utils.py:68-90 | The result summarizes all entries of the response, in the order the loops visit them: dates, then groups, then list entries. A date with empty data is skipped. |
| `Aggregation.AggregateDate` | mixbaba/mixbaba_utils.py:78-89 | The loop over one month's groups extends a summary of the entries seen so far by that month's entries. |
| `Aggregation.AggregateGroup` | mixbaba/mixbaba_utils.py:79-89 | The loop over one group's list extends a summary by that list's entries, in order. |
| `Aggregation.InsertSummarizes` | mixbaba/mixbaba_utils.py:80-89 | One loop body keeps the summary. A known (group, label) only adds to its count. A new label is appended to its group. A new group is appended with that single step. |
| `Aggregation.AggregatedGroups` | mixbaba/mixbaba_utils.py:74-89 | The result and every inner dictionary are well-formed (each key once). A group is a key exactly when at least one entry has it. Groups are ordered by their first occurrence. |
| `Aggregation.AggregatedCounts` | mixbaba/mixbaba_utils.py:76-89 | A (group, label) pair is present exactly when some entry has it. Its `count` is the sum of the counts of all entries with that group and label across all dates, and 0 when there are none. |
| `Aggregation.DedupFirstOccurrenceOrder` | mixbaba/mixbaba_utils.py:80-89 | The key order used for groups and labels lists each distinct element once, ordered by the position of its first occurrence. |
| `Aggregation.SummaryIsUnique` | mixbaba/mixbaba_utils.py:68-90 | The summary determines the result completely, order included. So the exact equality with a fixture asserted at tests/test_aggregate_mix_data.py:23-26 is fixed by the input. |
| `Aggregation.EmptyDateContributesNothing` | mixbaba/mixbaba_utils.py:76-77 | Removing a date whose data is empty leaves the visited entries, and hence the result, unchanged. |
| `Analysis.PosteriorOf` | mixbaba/mixbaba_utils.py:114-117 | `a = convs+1` and `b = imps-convs+1`: the counts can be read back, and `a ≥ 1`. When `convs ≤ imps`, also `b ≥ 1`. |
| `Analysis.CalcUplift` | mixbaba/mixbaba_utils.py:93-100 | `mean1 · (1 + lift) = mean2`. For a positive `mean1`, the lift is positive exactly when `mean2 > mean1` and zero exactly when the means are equal. |
| `Analysis.PosteriorMeanPositive` | mixbaba/mixbaba_utils.py:114-120 | The posterior mean `(convs+1)/(imps+2)` is positive, so the uplift never divides by zero. |
| `Analysis.PosteriorMeanOrder` | mixbaba/mixbaba_utils.py:114-120 | Comparing two posterior means (`>` and `=`) is the same as comparing the cross products `(convs2+1)(imps1+2)` and `(convs1+1)(imps2+2)`. |
| `Analysis.MakeAbAnalysis` | mixbaba/mixbaba_utils.py:103-125 | The probability is `g(a2, b2, a1, b1)`: test parameters first, then control. The lift is the relative uplift of the test's posterior mean over the control's: `mean1 · (1 + lift) = mean2`, which fixes it because `mean1 > 0`. The lift is positive or zero exactly when the test's posterior mean is above or equal to the control's. Identical samples give lift 0, as tests/test_make_ab_analysis.py:18-21 asserts. The probability is positive for positive kernels when the test's counts are consistent. |
| `Analysis.UpliftRegression` | mixbaba/mixbaba_utils.py:93-125 | 10000 impressions each, with 100 control and 120 test conversions, give a lift of exactly `20/101` (0.1980198…), the value tests/test_make_ab_analysis.py:15 compares against (0.19801980). |
| `Analysis.SampleOf` | mixbaba/mixbaba_utils.py:200-201 | The group's impression and conversion counts are found exactly when the group and both fields are keys. Otherwise the lookup raises a KeyError, modelled as `None`. |
| `Analysis.AnalyzeFunnel` | mixbaba/mixbaba_utils.py:160-254 | Discriminant and cohort are copied. The comment is one of the four messages, and the details are present iff `detailed`. With "Too few data!" or the controls-differ comment, CR improvement and Probability stay 0. The controls-differ comment appears iff Control2 is named, both controls are found with ≥ 1 conversion, and `abs(p-0.5) ≥ 0.35`. A comparison is made iff the effective control (pooled when the controls agree) and the test are found with ≥ 1 conversion each. It then reports `make_ab_analysis`'s lift and probability, with "Result is OK!" iff `prob > prob_th` (strict). Detailed counts are the real ones once the test lookup succeeded, zeros otherwise. |
| `Analysis.SplitDiscriminant` | mixbaba/mixbaba_utils.py:182-186 | Requires at most one '.', since a second one breaks the two-name unpacking. With a dot, the two parts rejoin with "." to the discriminant and contain no dot. Without one, the discriminant is returned twice. |

## Left out

- `MixpanelAPI.request`, `unicode_urlencode`, `get_funnels_list` and `get_mixpanel_data` (HTTP, urllib, base64, JSON, pandas). `AnalyzeFunnel` takes the aggregated data as input instead of fetching it.
- AnalyzeFunnel: the discriminant split (lines 182-186) only builds the fetch query. It is modelled by `SplitDiscriminant`, whose requires carries the crash on a second dot. Because `AnalyzeFunnel` starts from already fetched data, it does not repeat that requires.
- The numeric values of `h` and `g0` (`math.lgamma`, `np.exp`, floating point). They are arbitrary kernels with positivity as the only assumption, so these float regressions are not proved:
  - self-comparison ≈ 0.5;
  - the ≈ 0 result for Beta(40,1000) against Beta(80,300);
  - probability 0.91201253 (the uplift 0.19801980 of the same test does not involve the kernels and is proved exactly by `UpliftRegression`);
  - `P(X>Y) + P(Y>X) ≈ 1`.
- All arithmetic is exact real arithmetic. Floating-point rounding, and the integer `0` that the source's record template holds before a comparison, are not distinguished from `0.0`.
- `scipy.stats.beta` objects are represented by their two shape parameters and their mean `a/(a+b)`.
- The following are outside the modelled core and are not modelled: `plot_beta` (matplotlib), `output_utils.py` (terminal and CSV output), `inputs.py` (argparse), `setup.py`, and the `@jit` annotation (no semantic effect).
- MakeAbAnalysis: for counts with more conversions than impressions, the source produces NaN or a math-domain error. The model still computes a result with the abstract kernels, and claims positivity of the probability only for consistent test counts.
- AnalyzeFunnel: `ab_groups['Control']` and `ab_groups['Test']` are looked up outside the `try` and raise when missing. They are a requires.
- AggregateMixData: the three nested loops are one method plus two helper methods, one per inner loop. The loop body (lines 80-89) is the function `Insert`. Behaviour and order are unchanged.
- The `OrderedDict` objects are values here, so in-place update and aliasing are not modelled. The input cannot change, and the fresh result shares nothing with it.
- Step entries keep only `step_label` and `count`, the two fields the aggregation reads. Dictionaries become sequences of pairs, so uniqueness of JSON keys is not assumed or needed.

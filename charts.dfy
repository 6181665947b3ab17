/**
 * The bar chart of averages per subject (frontend/src/components/Charts.jsx):
 * one label per subject name and, aligned with it, the mean of the matching
 * grade values to two decimals, or 0 when there is none.
 */
module Charts {
  import opened Numeric
  import opened Orm

  /** `vals.length ? mean.toFixed(2) : 0`; the text is read back as a number by the chart. */
  function ChartValue(vals: seq<real>): (r: real)
    ensures vals == [] ==> r == 0.0
    ensures vals != [] ==> IsHundredths(r) && r - 0.005 <= Mean(vals) < r + 0.005
  {
    if |vals| > 0 then Round2(Sum(vals) / (|vals| as real)) else 0.0
  }

  /** The `labels` and `data` computed inside the effect before the chart is drawn. */
  method ComputeChartData(students: seq<OrmStudent>, subjects: seq<OrmSubject>) returns (labels: seq<string>, data: seq<real>)
    ensures |labels| == |subjects|
    ensures forall i :: 0 <= i < |subjects| ==> labels[i] == subjects[i].name
    ensures |data| == |labels|
    ensures forall i :: 0 <= i < |labels| ==> data[i] == ChartValue(MatchingValues(students, labels[i]))
  {
    labels := seq(|subjects|, i requires 0 <= i < |subjects| => subjects[i].name);
    data := [];
    var k := 0;
    while k < |labels|
      invariant 0 <= k <= |labels|
      invariant |data| == k
      invariant forall i :: 0 <= i < k ==> data[i] == ChartValue(MatchingValues(students, labels[i]))
    {
      var vals := CollectMatching(students, labels[k]);
      data := data + [ChartValue(vals)];
      k := k + 1;
    }
  }

  /** A subject without grades and a subject whose grades are all 0 draw the same bar. */
  lemma NoDataLooksLikeZero()
    ensures ChartValue([]) == ChartValue([0.0])
  {
    assert [0.0][..0] == [];
  }

  /** Every bar of grades on the 0-10 scale stays on that scale. */
  lemma ChartValueWithinScale(vals: seq<real>)
    requires forall i :: 0 <= i < |vals| ==> 0.0 <= vals[i] <= 10.0
    ensures 0.0 <= ChartValue(vals) <= 10.0
  {
    if vals != [] {
      MeanBounds(vals, 0.0, 10.0);
      Round2Within(Mean(vals), 0.0, 10.0);
    }
  }
}

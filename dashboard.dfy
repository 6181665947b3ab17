/**
 * The quick summary of the dashboard (frontend/src/components/Dashboard.jsx):
 * the number of students and, per subject of the catalog, the mean of the
 * grade values recorded under that subject's name, or a dash when there is none.
 */
module Dashboard {
  import opened Numeric
  import opened Orm
  import Charts

  /** `avg`: the `'—'` sentinel, or the mean to two decimals (`toFixed(2)`). */
  datatype Avg = Dash | Fixed(value: real)

  /** An element of `avgPerSubject`. */
  datatype SubjectAvg = SubjectAvg(subject: string, avg: Avg)

  datatype Summary = Summary(totalStudents: nat, avgPerSubject: seq<SubjectAvg>)

  /** `all.length ? mean.toFixed(2) : '—'`. */
  function AvgOf(vals: seq<real>): (r: Avg)
    ensures r == Dash <==> vals == []
    ensures r.Fixed? ==> IsHundredths(r.value) && r.value - 0.005 <= Mean(vals) < r.value + 0.005
  {
    if |vals| > 0 then Fixed(Round2(Sum(vals) / (|vals| as real))) else Dash
  }

  /** The `summary` object built on each render. */
  method ComputeSummary(students: seq<OrmStudent>, subjects: seq<OrmSubject>) returns (summary: Summary)
    ensures summary.totalStudents == |students|
    ensures |summary.avgPerSubject| == |subjects|
    ensures forall i :: 0 <= i < |subjects| ==>
              summary.avgPerSubject[i] == SubjectAvg(subjects[i].name, AvgOf(MatchingValues(students, subjects[i].name)))
  {
    var avgPerSubject: seq<SubjectAvg> := [];
    var k := 0;
    while k < |subjects|
      invariant 0 <= k <= |subjects|
      invariant |avgPerSubject| == k
      invariant forall i :: 0 <= i < k ==>
                  avgPerSubject[i] == SubjectAvg(subjects[i].name, AvgOf(MatchingValues(students, subjects[i].name)))
    {
      var all := CollectMatching(students, subjects[k].name);
      avgPerSubject := avgPerSubject + [SubjectAvg(subjects[k].name, AvgOf(all))];
      k := k + 1;
    }
    summary := Summary(|students|, avgPerSubject);
  }

  /**
   * The dash appears exactly when no grade of any student sits under a subject
   * of that name; otherwise the figure is the rounded mean of those grades.
   */
  lemma DashIffNoMatchingGrade(students: seq<OrmStudent>, name: string)
    ensures AvgOf(MatchingValues(students, name)) == Dash <==> forall g :: !MatchingGrade(students, name, g)
    ensures var vals := MatchingValues(students, name);
            AvgOf(vals).Fixed? ==> vals != [] && AvgOf(vals).value == Round2(Mean(vals))
  {
    var vals := MatchingValues(students, name);
    if vals != [] {
      MatchingValuesMembership(students, name, vals[0]);
    }
    if g :| MatchingGrade(students, name, g) {
      MatchingValuesMembership(students, name, g.value);
    }
  }

  /** Subjects are matched by name, so two catalog entries with the same name show the same average. */
  lemma SameNameSameAverage(students: seq<OrmStudent>, subjects: seq<OrmSubject>, summary: Summary, i: int, j: int)
    requires |summary.avgPerSubject| == |subjects|
    requires forall k :: 0 <= k < |subjects| ==>
               summary.avgPerSubject[k] == SubjectAvg(subjects[k].name, AvgOf(MatchingValues(students, subjects[k].name)))
    requires 0 <= i < |subjects| && 0 <= j < |subjects|
    requires subjects[i].name == subjects[j].name
    ensures summary.avgPerSubject[i] == summary.avgPerSubject[j]
  {
  }

  /** Where the dashboard shows a figure the chart draws that figure, and where it shows a dash the chart draws 0. */
  lemma ChartAgreesWithDashboard(vals: seq<real>)
    ensures AvgOf(vals).Fixed? ==> Charts.ChartValue(vals) == AvgOf(vals).value
    ensures AvgOf(vals) == Dash ==> Charts.ChartValue(vals) == 0.0
  {
  }

  /** Unlike the chart's 0, the dash tells a subject without grades from one whose grades are all 0. */
  lemma DashDistinguishesNoData()
    ensures AvgOf([]) != AvgOf([0.0])
  {
    assert [0.0][..0] == [];
  }
}

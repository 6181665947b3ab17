/**
 * The `/analyze` endpoint of the analysis service (analysis-service/app.py):
 * for one student's grades on the 0-10 `value` scale, the subjects whose mean
 * is below 6.0 with a recommendation each, the mean over all grades and a
 * three-band status.
 *
 * pandas' `groupby(...).mean()` is modelled by an explicit sum and count per
 * subject; subjects are listed in order of first appearance, whereas pandas
 * sorts them, so nothing below depends on that order.
 */
module Analysis {
  import opened Wrappers
  import opened Numeric

  /** One element of the request's `grades` (its `type` and `date` are not read). */
  datatype PyGrade = PyGrade(subject: string, value: real)

  /** The request body: `data.get('studentId')`, `data.get('name')`, `data.get('grades', [])`. */
  datatype Request = Request(studentId: Option<int>, name: Option<string>, grades: Option<seq<PyGrade>>)

  /** An element of `weakSubjects`. */
  datatype Recommendation = Recommendation(subject: string, average: real, recommendation: string)

  datatype Status = Bien | Atencion | Riesgo

  /** The response body. */
  datatype Response =
    | NoGrades(studentId: Option<int>, recommendations: seq<Recommendation>, message: string)
    | Analyzed(studentId: Option<int>, name: Option<string>, overallAverage: real, status: string,
               weakSubjects: seq<Recommendation>)

  const WeakThreshold: real := 6.0
  const GoodThreshold: real := 7.0

  /** The status band of an average: 7.0 and above, from 6.0 up to 7.0, below 6.0. */
  function Classify(avg: real): (s: Status)
    ensures s == Bien <==> avg >= 7.0
    ensures s == Atencion <==> 6.0 <= avg < 7.0
    ensures s == Riesgo <==> avg < 6.0
  {
    if avg >= GoodThreshold then Bien else if avg >= WeakThreshold then Atencion else Riesgo
  }

  function StatusText(s: Status): string
  {
    match s
    case Bien => "Bien"
    case Atencion => "Atención"
    case Riesgo => "Riesgo"
  }

  /** Bands ordered from worst to best. */
  function Rank(s: Status): nat
  {
    match s
    case Riesgo => 0
    case Atencion => 1
    case Bien => 2
  }

  /** A higher average never lands in a worse band. */
  lemma ClassifyMonotone(a: real, b: real)
    requires a <= b
    ensures Rank(Classify(a)) <= Rank(Classify(b))
  {
  }

  /** The three bands are told apart by their text. */
  lemma StatusTextsDistinct(s: Status, u: Status)
    requires s != u
    ensures StatusText(s) != StatusText(u)
  {
    assert StatusText(s)[0] != StatusText(u)[0] || |StatusText(s)| != |StatusText(u)|;
  }

  function Values(gs: seq<PyGrade>): seq<real>
  {
    seq(|gs|, i requires 0 <= i < |gs| => gs[i].value)
  }

  function SubjectNames(gs: seq<PyGrade>): seq<string>
  {
    seq(|gs|, i requires 0 <= i < |gs| => gs[i].subject)
  }

  /** The `value`s of the grades of one subject, in input order. */
  function ValuesOf(gs: seq<PyGrade>, subject: string): seq<real>
  {
    Values(Filter(gs, (g: PyGrade) => g.subject == subject))
  }

  /** A row of `avg_by_subject`. */
  datatype SubjectMean = SubjectMean(subject: string, mean: real)

  /** `df.groupby('subject')['value'].mean()`: one row per subject present. */
  function SubjectMeans(gs: seq<PyGrade>): seq<SubjectMean>
  {
    var names := Dedup(SubjectNames(gs));
    seq(|names|, i requires 0 <= i < |names| => SubjectMean(names[i], Mean(ValuesOf(gs, names[i]))))
  }

  /** `avg_by_subject[avg_by_subject['value'] < threshold]`. */
  function Weak(means: seq<SubjectMean>): (r: seq<SubjectMean>)
    ensures forall m :: m in r <==> m in means && m.mean < 6.0
  {
    Filter(means, (m: SubjectMean) => m.mean < WeakThreshold)
  }

  /** The dictionary appended to `recs` for one weak subject. */
  function Recommend(m: SubjectMean): (r: Recommendation)
    ensures r.subject == m.subject
    ensures IsHundredths(r.average) && r.average - 0.005 <= m.mean <= r.average + 0.005
  {
    Recommendation(m.subject, RoundHalfEven2(m.mean),
      "Refuerzo en " + m.subject + ". Actividades prácticas y revisión de fundamentos.")
  }

  /** The `for _, row in weak.iterrows(): recs.append(...)` loop. */
  method BuildRecommendations(weak: seq<SubjectMean>) returns (recs: seq<Recommendation>)
    ensures |recs| == |weak|
    ensures forall i :: 0 <= i < |weak| ==> recs[i] == Recommend(weak[i])
  {
    recs := [];
    var k := 0;
    while k < |weak|
      invariant 0 <= k <= |weak|
      invariant |recs| == k
      invariant forall i :: 0 <= i < k ==> recs[i] == Recommend(weak[i])
    {
      recs := recs + [Recommend(weak[k])];
      k := k + 1;
    }
  }

  /** A subject appears in the grades. */
  predicate Graded(gs: seq<PyGrade>, subject: string)
  {
    exists g :: g in gs && g.subject == subject
  }

  lemma SubjectNamesMembership(gs: seq<PyGrade>, subject: string)
    ensures subject in SubjectNames(gs) <==> Graded(gs, subject)
  {
    if subject in SubjectNames(gs) {
      var i :| 0 <= i < |gs| && SubjectNames(gs)[i] == subject;
      assert gs[i] in gs;
    }
    if Graded(gs, subject) {
      var g :| g in gs && g.subject == subject;
      var i :| 0 <= i < |gs| && gs[i] == g;
      assert SubjectNames(gs)[i] == subject;
    }
  }

  /**
   * `avg_by_subject` has one row per subject present in the grades, none twice,
   * and each row holds the mean of that subject's (non-empty) values.
   */
  lemma SubjectMeansMeaning(gs: seq<PyGrade>)
    ensures var ms := SubjectMeans(gs);
            forall i, j :: 0 <= i < j < |ms| ==> ms[i].subject != ms[j].subject
    ensures forall m :: m in SubjectMeans(gs) ==>
              Graded(gs, m.subject) && ValuesOf(gs, m.subject) != [] && m.mean == Mean(ValuesOf(gs, m.subject))
    ensures forall subject :: Graded(gs, subject) ==> SubjectMean(subject, Mean(ValuesOf(gs, subject))) in SubjectMeans(gs)
  {
    var names := Dedup(SubjectNames(gs));
    var ms := SubjectMeans(gs);
    forall m | m in ms
      ensures Graded(gs, m.subject) && ValuesOf(gs, m.subject) != []
    {
      var i :| 0 <= i < |ms| && ms[i] == m;
      assert m.subject == names[i];
      SubjectNamesMembership(gs, m.subject);
      var g :| g in gs && g.subject == m.subject;
      assert g in Filter(gs, (h: PyGrade) => h.subject == m.subject);
    }
    forall subject | Graded(gs, subject)
      ensures SubjectMean(subject, Mean(ValuesOf(gs, subject))) in ms
    {
      SubjectNamesMembership(gs, subject);
      var i :| 0 <= i < |names| && names[i] == subject;
      assert ms[i] == SubjectMean(subject, Mean(ValuesOf(gs, subject)));
    }
  }

  /** The response `analyze()` builds for a request. */
  method Analyze(req: Request) returns (resp: Response)
    ensures var gs := if req.grades.Some? then req.grades.value else [];
            gs == [] ==> resp == NoGrades(req.studentId, [], "Sin calificaciones")
    ensures var gs := if req.grades.Some? then req.grades.value else [];
            gs != [] ==>
              && resp.Analyzed?
              && resp.studentId == req.studentId && resp.name == req.name
              && resp.overallAverage == RoundHalfEven2(Sum(Values(gs)) / (|gs| as real))
              && resp.status == StatusText(Classify(Sum(Values(gs)) / (|gs| as real)))
              && (forall i, j :: 0 <= i < j < |resp.weakSubjects| ==>
                    resp.weakSubjects[i].subject != resp.weakSubjects[j].subject)
              && (forall r :: r in resp.weakSubjects ==>
                    Graded(gs, r.subject) && Mean(ValuesOf(gs, r.subject)) < 6.0 &&
                    r == Recommend(SubjectMean(r.subject, Mean(ValuesOf(gs, r.subject)))))
              && (forall subject :: Graded(gs, subject) && Mean(ValuesOf(gs, subject)) < 6.0 ==>
                    Recommend(SubjectMean(subject, Mean(ValuesOf(gs, subject)))) in resp.weakSubjects)
  {
    var gs := if req.grades.Some? then req.grades.value else [];
    if gs == [] {
      return NoGrades(req.studentId, [], "Sin calificaciones");
    }
    var means := SubjectMeans(gs);
    var weak := Weak(means);
    var recs := BuildRecommendations(weak);
    var overall := Mean(Values(gs));
    resp := Analyzed(req.studentId, req.name, RoundHalfEven2(overall), StatusText(Classify(overall)), recs);
    WeakRecommendations(gs, weak, recs);
  }

  /** What the recommendations built from the weak rows say about the grades. */
  lemma WeakRecommendations(gs: seq<PyGrade>, weak: seq<SubjectMean>, recs: seq<Recommendation>)
    requires weak == Weak(SubjectMeans(gs))
    requires |recs| == |weak| && forall i :: 0 <= i < |weak| ==> recs[i] == Recommend(weak[i])
    ensures forall i, j :: 0 <= i < j < |recs| ==> recs[i].subject != recs[j].subject
    ensures forall r :: r in recs ==>
              Graded(gs, r.subject) && Mean(ValuesOf(gs, r.subject)) < 6.0 &&
              r == Recommend(SubjectMean(r.subject, Mean(ValuesOf(gs, r.subject))))
    ensures forall subject :: Graded(gs, subject) && Mean(ValuesOf(gs, subject)) < 6.0 ==>
              Recommend(SubjectMean(subject, Mean(ValuesOf(gs, subject)))) in recs
  {
    var ms := SubjectMeans(gs);
    SubjectMeansMeaning(gs);
    WeakDistinct(ms);
    forall r | r in recs
      ensures Graded(gs, r.subject) && Mean(ValuesOf(gs, r.subject)) < 6.0 &&
              r == Recommend(SubjectMean(r.subject, Mean(ValuesOf(gs, r.subject))))
    {
      var i :| 0 <= i < |recs| && recs[i] == r;
      assert weak[i] in weak;
    }
    forall subject | Graded(gs, subject) && Mean(ValuesOf(gs, subject)) < 6.0
      ensures Recommend(SubjectMean(subject, Mean(ValuesOf(gs, subject)))) in recs
    {
      var m := SubjectMean(subject, Mean(ValuesOf(gs, subject)));
      assert m in weak;
      var i :| 0 <= i < |weak| && weak[i] == m;
      assert recs[i] == Recommend(m);
    }
  }

  /** Filtering rows with distinct subjects keeps them distinct. */
  lemma {:induction false} WeakDistinct(ms: seq<SubjectMean>)
    requires forall i, j :: 0 <= i < j < |ms| ==> ms[i].subject != ms[j].subject
    ensures var w := Weak(ms);
            forall i, j :: 0 <= i < j < |w| ==> w[i].subject != w[j].subject
  {
    if ms != [] {
      var n := |ms| - 1;
      WeakDistinct(ms[..n]);
      var last := ms[n];
      forall m | m in Weak(ms[..n]) ensures m.subject != last.subject {
        var k :| 0 <= k < n && ms[..n][k] == m;
      }
    }
  }

  const ExampleSheet := [PyGrade("A", 10.0), PyGrade("A", 10.0), PyGrade("B", 4.0)]

  lemma ExampleSheetBySubject()
    ensures Filter(ExampleSheet, (g: PyGrade) => g.subject == "A") == [ExampleSheet[0], ExampleSheet[1]]
    ensures Filter(ExampleSheet, (g: PyGrade) => g.subject == "B") == [ExampleSheet[2]]
  {
    var gs := ExampleSheet;
    assert gs[..2] == [gs[0], gs[1]] && gs[..2][..1] == [gs[0]] && [gs[0]][..0] == [];
  }

  lemma ExampleSheetTotal()
    ensures Sum(Values(ExampleSheet)) == 24.0
  {
    assert Values(ExampleSheet) == [10.0, 10.0, 4.0];
    assert [10.0, 10.0, 4.0][..2] == [10.0, 10.0] && [10.0, 10.0][..1] == [10.0];
  }

  /** The overall average weighs every grade, not every subject: (10 + 10 + 4) / 3 = 8, while the subject means 10 and 4 average 7. */
  lemma OverallWeighsGrades()
    ensures var gs := ExampleSheet;
            Sum(Values(gs)) / (|gs| as real) == 8.0 &&
            Mean(ValuesOf(gs, "A")) == 10.0 && Mean(ValuesOf(gs, "B")) == 4.0
  {
    var gs := ExampleSheet;
    ExampleSheetTotal();
    ExampleSheetBySubject();
    assert Values([gs[0], gs[1]]) == [10.0, 10.0] && Values([gs[2]]) == [4.0];
    assert [10.0, 10.0][..1] == [10.0];
    assert Sum([10.0, 10.0]) == 20.0;
  }

  /**
   * The status is taken from the unrounded mean: a mean of 6.996 is reported
   * as 7.0 but classified "Atención".
   */
  lemma StatusUsesUnroundedMean()
    ensures RoundHalfEven2(6.996) == 7.0 && Classify(6.996) == Atencion
  {
  }
}

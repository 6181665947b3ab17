/**
 * The `/api/analysis/summary` report of the SQLite back end (app.js): per
 * student, the percentage average of each subject that student has grades in,
 * a general average over those subject averages, the subjects below a
 * threshold and an at-risk flag; per subject, the percentage average over all
 * grades recorded for it.
 *
 * The rows returned by the database are inputs. The two SQL `AVG` queries are
 * modelled by filters and means over the grade rows; the order of the rows of
 * `GROUP BY subject_id` is not specified by SQLite, so the model lists subjects
 * in order of first appearance and states nothing else about that order.
 */
module Summary {
  import opened Wrappers
  import opened Numeric

  /** A row of `students`; the whole row is echoed back in the report. */
  datatype Student = Student(id: int, firstName: string, lastName: string)

  /** A row of `subjects`. */
  datatype Subject = Subject(id: int, name: string)

  /** The columns of a `grades` row that the report reads. */
  datatype Grade = Grade(studentId: int, subjectId: int, score: real, maxScore: real)

  /** Every grade has a non-zero maximum; the create and update handlers store `max_score || 100`. */
  predicate Scored(gs: seq<Grade>)
  {
    forall g :: g in gs ==> g.maxScore != 0.0
  }

  /** `(score*1.0)/max_score * 100`. */
  function Percent(g: Grade): real
    requires g.maxScore != 0.0
  {
    g.score * 1.0 / g.maxScore * 100.0
  }

  function Percents(gs: seq<Grade>): seq<real>
    requires Scored(gs)
  {
    seq(|gs|, i requires 0 <= i < |gs| => Percent(gs[i]))
  }

  /** `WHERE student_id = ?` */
  function OfStudent(gs: seq<Grade>, sid: int): seq<Grade>
  {
    Filter(gs, (g: Grade) => g.studentId == sid)
  }

  /** `WHERE subject_id = ?` */
  function OfSubject(gs: seq<Grade>, id: int): seq<Grade>
  {
    Filter(gs, (g: Grade) => g.subjectId == id)
  }

  /** The groups of `GROUP BY subject_id`. */
  function SubjectIds(gs: seq<Grade>): seq<int>
  {
    Dedup(seq(|gs|, i requires 0 <= i < |gs| => gs[i].subjectId))
  }

  /** A row of the per-student query: `subject_id, AVG(...) as percent_avg`. */
  datatype AvgRow = AvgRow(subjectId: int, percentAvg: real)

  /** `SELECT subject_id, AVG(...) FROM grades WHERE student_id = ? GROUP BY subject_id`. */
  function StudentAverages(gs: seq<Grade>, sid: int): seq<AvgRow>
    requires Scored(gs)
  {
    var mine := OfStudent(gs, sid);
    var ids := SubjectIds(mine);
    seq(|ids|, i requires 0 <= i < |ids| => AvgRow(ids[i], Mean(Percents(OfSubject(mine, ids[i])))))
  }

  /** An element of `avgBySubject`. */
  datatype SubjectAverage = SubjectAverage(subjectId: int, subjectName: string, percentAvg: real)

  /** The name shown for a subject id missing from the catalog. */
  const Unknown: string := "Desconocida"

  /** `subjects.find(x => x.id === id)`: the first subject with that id, if any. */
  function FindSubject(subjects: seq<Subject>, id: int): (r: Option<Subject>)
    ensures r.None? <==> forall sub :: sub in subjects ==> sub.id != id
    ensures r.Some? ==> exists k :: 0 <= k < |subjects| && subjects[k] == r.value && r.value.id == id &&
                          forall j :: 0 <= j < k ==> subjects[j].id != id
  {
    if subjects == [] then None
    else if subjects[0].id == id then Some(subjects[0])
    else
      var r := FindSubject(subjects[1..], id);
      assert subjects == [subjects[0]] + subjects[1..];
      assert r.Some? ==> exists k :: 0 < k < |subjects| && subjects[k] == r.value &&
                          forall j :: 0 <= j < k ==> subjects[j].id != id by {
        if r.Some? {
          var k :| 0 <= k < |subjects[1..]| && subjects[1..][k] == r.value &&
                   forall j :: 0 <= j < k ==> subjects[1..][j].id != id;
          assert subjects[k + 1] == r.value;
          forall j | 0 <= j < k + 1 ensures subjects[j].id != id {
            if j > 0 { assert subjects[j] == subjects[1..][j - 1]; }
          }
        }
      }
      r
  }

  /** `sub ? sub.name : 'Desconocida'`: the catalog name of the first subject with that id. */
  function SubjectName(subjects: seq<Subject>, id: int): (n: string)
    ensures (forall sub :: sub in subjects ==> sub.id != id) ==> n == Unknown
    ensures (exists sub :: sub in subjects && sub.id == id) ==>
              exists k :: 0 <= k < |subjects| && subjects[k].id == id && n == subjects[k].name &&
                forall j :: 0 <= j < k ==> subjects[j].id != id
  {
    match FindSubject(subjects, id)
    case Some(sub) => sub.name
    case None => Unknown
  }

  /** `avgs.map(...)`: name each row and round its average to hundredths. */
  function AvgBySubject(rows: seq<AvgRow>, subjects: seq<Subject>): seq<SubjectAverage>
  {
    seq(|rows|, i requires 0 <= i < |rows| =>
      SubjectAverage(rows[i].subjectId, SubjectName(subjects, rows[i].subjectId), Round2(rows[i].percentAvg)))
  }

  function PercentAvgs(entries: seq<SubjectAverage>): seq<real>
  {
    seq(|entries|, i requires 0 <= i < |entries| => entries[i].percentAvg)
  }

  /** The general average: the rounded mean of the already rounded subject averages, or null. */
  function GeneralAvg(entries: seq<SubjectAverage>): (r: Option<real>)
    ensures r.None? <==> entries == []
    ensures r.Some? ==> IsHundredths(r.value) &&
                        r.value - 0.005 <= Mean(PercentAvgs(entries)) < r.value + 0.005
  {
    if |entries| > 0 then Some(Round2(Sum(PercentAvgs(entries)) / (|entries| as real))) else None
  }

  /** `avgBySubject.filter(x => x.percent_avg < threshold)`. */
  function NeedsImprovement(entries: seq<SubjectAverage>, t: real): (r: seq<SubjectAverage>)
    ensures forall e :: e in r <==> e in entries && e.percentAvg < t
  {
    Filter(entries, (e: SubjectAverage) => e.percentAvg < t)
  }

  /** `generalAvg !== null && generalAvg < threshold`. */
  function AtRisk(general: Option<real>, t: real): bool
  {
    general.Some? && general.value < t
  }

  /** An element of `studentSummaries`. */
  datatype StudentSummary = StudentSummary(
    student: Student,
    generalAvg: Option<real>,
    avgBySubject: seq<SubjectAverage>,
    needsImprovement: seq<SubjectAverage>,
    isAtRisk: bool)

  /** The body of `students.map(s => { ... })`. */
  function SummarizeStudent(s: Student, gs: seq<Grade>, subjects: seq<Subject>, t: real): StudentSummary
    requires Scored(gs)
  {
    var avgBySubject := AvgBySubject(StudentAverages(gs, s.id), subjects);
    var generalAvg := GeneralAvg(avgBySubject);
    StudentSummary(s, generalAvg, avgBySubject, NeedsImprovement(avgBySubject, t), AtRisk(generalAvg, t))
  }

  /** An element of `subjectsAvg`. */
  datatype SubjectSummary = SubjectSummary(subject: Subject, percentAvg: Option<real>)

  /**
   * `SELECT AVG(...) FROM grades WHERE subject_id = ?`, then
   * `r && r.percent_avg ? round(r.percent_avg) : null`: a mean of exactly 0 is
   * falsy and reads as null, just like a subject without grades.
   */
  function SummarizeSubject(sub: Subject, gs: seq<Grade>): (r: SubjectSummary)
    requires Scored(gs)
    ensures r.subject == sub
    ensures r.percentAvg.None? <==>
              (forall g :: g in gs ==> g.subjectId != sub.id) || Mean(Percents(OfSubject(gs, sub.id))) == 0.0
    ensures r.percentAvg.Some? ==>
              OfSubject(gs, sub.id) != [] && r.percentAvg.value == Round2(Mean(Percents(OfSubject(gs, sub.id))))
  {
    var mine := OfSubject(gs, sub.id);
    var avg := Average(Percents(mine));
    assert avg.Some? ==> avg.value == Mean(Percents(mine));
    assert mine == [] <==> forall g :: g in gs ==> g.subjectId != sub.id by {
      if mine != [] {
        assert mine[0] in mine;
      }
    }
    SubjectSummary(sub, if avg.Some? && avg.value != 0.0 then Some(Round2(avg.value)) else None)
  }

  /** The JSON body of the response. */
  datatype Report = Report(threshold: real, studentSummaries: seq<StudentSummary>, subjectsAvg: seq<SubjectSummary>)

  const DefaultThreshold: real := 60.0

  /** `parseFloat(req.query.threshold || '60')`, with the parsing itself left out. */
  function ThresholdOf(param: Option<real>): real
  {
    match param
    case Some(t) => t
    case None => DefaultThreshold
  }

  /** `GET /api/analysis/summary` over the rows of the three tables. */
  function AnalysisSummary(param: Option<real>, students: seq<Student>, subjects: seq<Subject>, gs: seq<Grade>): (r: Report)
    requires Scored(gs)
    ensures r.threshold == (if param.Some? then param.value else 60.0)
    ensures |r.studentSummaries| == |students|
    ensures forall i :: 0 <= i < |students| ==>
              r.studentSummaries[i] == SummarizeStudent(students[i], gs, subjects, r.threshold) &&
              r.studentSummaries[i].student == students[i]
    ensures |r.subjectsAvg| == |subjects|
    ensures forall j :: 0 <= j < |subjects| ==>
              r.subjectsAvg[j] == SummarizeSubject(subjects[j], gs) && r.subjectsAvg[j].subject == subjects[j]
  {
    var t := ThresholdOf(param);
    Report(t,
      seq(|students|, i requires 0 <= i < |students| => SummarizeStudent(students[i], gs, subjects, t)),
      seq(|subjects|, j requires 0 <= j < |subjects| => SummarizeSubject(subjects[j], gs)))
  }

  // ---------------------------------------------------------------------------
  // Properties of the per-student summary
  // ---------------------------------------------------------------------------

  lemma SubjectIdsMembership(gs: seq<Grade>, id: int)
    ensures id in SubjectIds(gs) <==> exists g :: g in gs && g.subjectId == id
  {
    var ids := seq(|gs|, i requires 0 <= i < |gs| => gs[i].subjectId);
    if id in ids {
      var i :| 0 <= i < |ids| && ids[i] == id;
      assert gs[i] in gs;
    }
    if exists g :: g in gs && g.subjectId == id {
      var g :| g in gs && g.subjectId == id;
      var i :| 0 <= i < |gs| && gs[i] == g;
      assert ids[i] == id;
    }
  }

  /** The student has an `avgBySubject` entry for a subject id exactly when they have a grade in it. */
  lemma EntryPerGradedSubject(s: Student, gs: seq<Grade>, subjects: seq<Subject>, t: real, id: int)
    requires Scored(gs)
    ensures var e := SummarizeStudent(s, gs, subjects, t).avgBySubject;
            (exists i :: 0 <= i < |e| && e[i].subjectId == id) <==>
            (exists g :: g in gs && g.studentId == s.id && g.subjectId == id)
  {
    var mine := OfStudent(gs, s.id);
    var ids := SubjectIds(mine);
    var e := SummarizeStudent(s, gs, subjects, t).avgBySubject;
    assert |e| == |ids|;
    assert forall i :: 0 <= i < |e| ==> e[i].subjectId == ids[i];
    SubjectIdsMembership(mine, id);
    if exists g :: g in gs && g.studentId == s.id && g.subjectId == id {
      var g :| g in gs && g.studentId == s.id && g.subjectId == id;
      assert g in mine;
      var i :| 0 <= i < |ids| && ids[i] == id;
      assert e[i].subjectId == id;
    }
  }

  /**
   * No subject appears twice in `avgBySubject`, and each entry holds the mean of
   * `score/max_score*100` over that student's grades in that subject (there is
   * at least one), rounded to hundredths, under the catalog name of that subject.
   */
  lemma EntryMeaning(s: Student, gs: seq<Grade>, subjects: seq<Subject>, t: real)
    requires Scored(gs)
    ensures var e := SummarizeStudent(s, gs, subjects, t).avgBySubject;
            forall i, j :: 0 <= i < j < |e| ==> e[i].subjectId != e[j].subjectId
    ensures var e := SummarizeStudent(s, gs, subjects, t).avgBySubject;
            forall i :: 0 <= i < |e| ==>
              var pcts := Percents(OfSubject(OfStudent(gs, s.id), e[i].subjectId));
              pcts != [] && e[i].percentAvg == Round2(Sum(pcts) / (|pcts| as real)) &&
              e[i].subjectName == SubjectName(subjects, e[i].subjectId)
  {
    var mine := OfStudent(gs, s.id);
    var ids := SubjectIds(mine);
    var e := SummarizeStudent(s, gs, subjects, t).avgBySubject;
    assert |e| == |ids|;
    forall i | 0 <= i < |e|
      ensures OfSubject(mine, e[i].subjectId) != []
    {
      assert e[i].subjectId == ids[i];
      SubjectIdsMembership(mine, ids[i]);
      var g :| g in mine && g.subjectId == ids[i];
      assert g in OfSubject(mine, ids[i]);
    }
  }

  /** The general average is null exactly when the student has no grade at all. */
  lemma GeneralAvgNullIffNoGrades(s: Student, gs: seq<Grade>, subjects: seq<Subject>, t: real)
    requires Scored(gs)
    ensures SummarizeStudent(s, gs, subjects, t).generalAvg.None? <==> forall g :: g in gs ==> g.studentId != s.id
  {
    var mine := OfStudent(gs, s.id);
    var e := SummarizeStudent(s, gs, subjects, t).avgBySubject;
    if g :| g in gs && g.studentId == s.id {
      assert g in mine;
      SubjectIdsMembership(mine, g.subjectId);
      assert |e| == |SubjectIds(mine)| > 0;
    } else {
      assert mine == [];
    }
  }

  /**
   * At risk means: the student has grades and a general average strictly below
   * the threshold. In particular a student without grades is never at risk.
   */
  lemma AtRiskMeaning(s: Student, gs: seq<Grade>, subjects: seq<Subject>, t: real)
    requires Scored(gs)
    ensures var r := SummarizeStudent(s, gs, subjects, t);
            r.isAtRisk <==> (exists g :: g in gs && g.studentId == s.id) && r.generalAvg.value < t
  {
    GeneralAvgNullIffNoGrades(s, gs, subjects, t);
  }

  /** Whatever the threshold, a student without grades is not at risk. */
  lemma NoGradesNeverAtRisk(s: Student, gs: seq<Grade>, subjects: seq<Subject>)
    requires Scored(gs)
    requires forall g :: g in gs ==> g.studentId != s.id
    ensures forall t :: !SummarizeStudent(s, gs, subjects, t).isAtRisk
  {
    forall t ensures !SummarizeStudent(s, gs, subjects, t).isAtRisk {
      GeneralAvgNullIffNoGrades(s, gs, subjects, t);
    }
  }

  /** Raising the threshold never takes a student out of risk; the averages do not depend on it. */
  lemma AtRiskMonotoneInThreshold(s: Student, gs: seq<Grade>, subjects: seq<Subject>, t1: real, t2: real)
    requires Scored(gs)
    requires t1 <= t2
    requires SummarizeStudent(s, gs, subjects, t1).isAtRisk
    ensures SummarizeStudent(s, gs, subjects, t2).isAtRisk
    ensures SummarizeStudent(s, gs, subjects, t2).generalAvg == SummarizeStudent(s, gs, subjects, t1).generalAvg
  {
  }

  /** `needsImprovement` keeps the entries' order: filtering commutes with concatenation. */
  lemma NeedsImprovementKeepsOrder(a: seq<SubjectAverage>, b: seq<SubjectAverage>, t: real)
    ensures NeedsImprovement(a + b, t) == NeedsImprovement(a, t) + NeedsImprovement(b, t)
  {
    FilterConcat(a, b, (e: SubjectAverage) => e.percentAvg < t);
  }

  /** Every element of PercentAvgs is a subject average of the summary, and so a hundredth. */
  lemma PercentAvgsAreHundredths(s: Student, gs: seq<Grade>, subjects: seq<Subject>, t: real)
    requires Scored(gs)
    ensures var p := PercentAvgs(SummarizeStudent(s, gs, subjects, t).avgBySubject);
            forall i :: 0 <= i < |p| ==> IsHundredths(p[i])
  {
  }

  /**
   * A student at risk has at least one subject in `needsImprovement`: if every
   * rounded subject average reached the threshold, so would their rounded mean.
   */
  lemma AtRiskHasWeakSubject(s: Student, gs: seq<Grade>, subjects: seq<Subject>, t: real)
    requires Scored(gs)
    requires SummarizeStudent(s, gs, subjects, t).isAtRisk
    ensures SummarizeStudent(s, gs, subjects, t).needsImprovement != []
  {
    var r := SummarizeStudent(s, gs, subjects, t);
    var e := r.avgBySubject;
    var p := PercentAvgs(e);
    if forall i :: 0 <= i < |p| ==> p[i] >= t {
      assert Mean(p) == Sum(p) / (|e| as real);
      RoundedMeanAtLeast(p, t);
      assert false;
    } else {
      var i :| 0 <= i < |p| && p[i] < t;
      assert e[i] in r.needsImprovement;
    }
  }

  /** The general average stays within any hundredth bounds that hold every subject average. */
  lemma GeneralAvgWithin(s: Student, gs: seq<Grade>, subjects: seq<Subject>, t: real, lo: real, hi: real)
    requires Scored(gs)
    requires IsHundredths(lo) && IsHundredths(hi)
    requires var e := SummarizeStudent(s, gs, subjects, t).avgBySubject;
             forall i :: 0 <= i < |e| ==> lo <= e[i].percentAvg <= hi
    ensures var g := SummarizeStudent(s, gs, subjects, t).generalAvg;
            g.Some? ==> lo <= g.value <= hi
  {
    var e := SummarizeStudent(s, gs, subjects, t).avgBySubject;
    if e != [] {
      var p := PercentAvgs(e);
      MeanBounds(p, lo, hi);
      assert Mean(p) == Sum(p) / (|e| as real);
      Round2Within(Mean(p), lo, hi);
    }
  }

  // ---------------------------------------------------------------------------
  // Worked examples
  // ---------------------------------------------------------------------------

  /** Appending a grade to the rows appends it to the rows of its own subject only. */
  lemma OfSubjectSnoc(gs: seq<Grade>, x: Grade, id: int)
    ensures OfSubject(gs + [x], id) == OfSubject(gs, id) + (if x.subjectId == id then [x] else [])
  {
    assert (gs + [x])[..|gs + [x]| - 1] == gs;
  }

  lemma NeedsImprovementSnoc(entries: seq<SubjectAverage>, x: SubjectAverage, t: real)
    ensures NeedsImprovement(entries + [x], t) == NeedsImprovement(entries, t) + (if x.percentAvg < t then [x] else [])
  {
    assert (entries + [x])[..|entries + [x]| - 1] == entries;
  }

  const ExampleStudent := Student(1, "Ana", "Lopez")
  const ExampleCatalog := [Subject(10, "Matemáticas"), Subject(20, "Lengua")]
  const ExampleGrades := [Grade(1, 10, 80.0, 100.0), Grade(1, 10, 60.0, 100.0), Grade(1, 20, 100.0, 100.0)]

  lemma ExampleSubjectIds()
    ensures SubjectIds(ExampleGrades) == [10, 20]
  {
    var gs := ExampleGrades;
    assert seq(|gs|, i requires 0 <= i < |gs| => gs[i].subjectId) == [10, 10, 20];
    DedupExample();
  }

  lemma DedupExample()
    ensures Dedup([10, 10, 20]) == [10, 20]
  {
    assert [10, 10, 20][..2] == [10, 10];
    assert [10, 10][..1] == [10];
    assert [10][..0] == [];
  }

  /** The example's grades in subject 10 are the first two, in subject 20 the third. */
  lemma ExampleOfSubject()
    ensures OfSubject(ExampleGrades, 10) == [ExampleGrades[0], ExampleGrades[1]]
    ensures OfSubject(ExampleGrades, 20) == [ExampleGrades[2]]
  {
    var gs := ExampleGrades;
    var g0, g1, g2 := gs[0], gs[1], gs[2];
    assert [] + [g0] == [g0] && [g0] + [g1] == [g0, g1] && [g0, g1] + [g2] == gs;
    OfSubjectSnoc([], g0, 10);
    OfSubjectSnoc([g0], g1, 10);
    OfSubjectSnoc([g0, g1], g2, 10);
    OfSubjectSnoc([], g0, 20);
    OfSubjectSnoc([g0], g1, 20);
    OfSubjectSnoc([g0, g1], g2, 20);
  }

  /** The per-student query gives subject 10 an average of 70 and subject 20 an average of 100. */
  lemma ExampleRows()
    ensures Scored(ExampleGrades)
    ensures StudentAverages(ExampleGrades, 1) == [AvgRow(10, 70.0), AvgRow(20, 100.0)]
  {
    var gs := ExampleGrades;
    ExampleOfStudent();
    ExampleSubjectIds();
    ExampleOfSubject();
    ExamplePercents();
    var maths := Mean(Percents(OfSubject(gs, 10)));
    var language := Mean(Percents(OfSubject(gs, 20)));
    assert maths == 70.0 && language == 100.0;
    var rows := StudentAverages(gs, 1);
    assert rows == [AvgRow(10, maths), AvgRow(20, language)];
  }

  lemma ExampleOfStudent()
    ensures OfStudent(ExampleGrades, 1) == ExampleGrades
  {
    FilterKeepsAll(ExampleGrades, (g: Grade) => g.studentId == 1);
  }

  lemma ExamplePercents()
    ensures Mean(Percents([ExampleGrades[0], ExampleGrades[1]])) == 70.0
    ensures Mean(Percents([ExampleGrades[2]])) == 100.0
  {
    var gs := ExampleGrades;
    assert Percents([gs[0], gs[1]]) == [80.0, 60.0];
    assert Percents([gs[2]]) == [100.0];
    assert [80.0, 60.0][..1] == [80.0] && [80.0][..0] == [];
    assert Sum([80.0, 60.0]) == 140.0;
    assert Sum([100.0]) == 100.0;
  }

  /** The example's `avgBySubject`: names from the catalog, averages 70 and 100. */
  const ExampleEntries := [SubjectAverage(10, "Matemáticas", 70.0), SubjectAverage(20, "Lengua", 100.0)]

  lemma ExampleAvgBySubject()
    ensures Scored(ExampleGrades)
    ensures AvgBySubject(StudentAverages(ExampleGrades, 1), ExampleCatalog) == ExampleEntries
  {
    ExampleRows();
    ExampleNames();
    Round2Exact(70.0);
    Round2Exact(100.0);
    var e := AvgBySubject([AvgRow(10, 70.0), AvgRow(20, 100.0)], ExampleCatalog);
    assert e[0] == ExampleEntries[0];
    assert e[1] == ExampleEntries[1];
  }

  lemma ExampleNames()
    ensures SubjectName(ExampleCatalog, 10) == "Matemáticas"
    ensures SubjectName(ExampleCatalog, 20) == "Lengua"
  {
    assert ExampleCatalog[1..] == [Subject(20, "Lengua")];
  }

  /** The mean of the subject averages 70 and 100 is 85. */
  lemma ExampleGeneralAvg()
    ensures GeneralAvg(ExampleEntries) == Some(85.0)
  {
    assert PercentAvgs(ExampleEntries) == [70.0, 100.0];
    assert [70.0, 100.0][..1] == [70.0] && [70.0][..0] == [];
    assert Sum([70.0, 100.0]) == 170.0;
    Round2Exact(85.0);
  }

  /** The mean over the three grades of the example is 80. */
  lemma ExampleGradeMean()
    ensures Scored(ExampleGrades)
    ensures Mean(Percents(ExampleGrades)) == 80.0
  {
    assert Percents(ExampleGrades) == [80.0, 60.0, 100.0];
    assert [80.0, 60.0, 100.0][..2] == [80.0, 60.0] && [80.0, 60.0][..1] == [80.0] && [80.0][..0] == [];
    assert Sum([80.0, 60.0, 100.0]) == 240.0;
  }

  /**
   * Two grades of 80/100 and 60/100 in one subject and 100/100 in another give
   * subject averages 70 and 100 and a general average of 85: each subject
   * weighs the same, whereas the mean over the three grades would be 80.
   */
  lemma SubjectsWeighEqually()
    ensures Scored(ExampleGrades)
    ensures var r := SummarizeStudent(ExampleStudent, ExampleGrades, ExampleCatalog, 60.0);
            && r.avgBySubject == [SubjectAverage(10, "Matemáticas", 70.0), SubjectAverage(20, "Lengua", 100.0)]
            && r.generalAvg == Some(85.0)
            && r.needsImprovement == [] && !r.isAtRisk
    ensures Mean(Percents(ExampleGrades)) == 80.0
  {
    ExampleAvgBySubject();
    var r := SummarizeStudent(ExampleStudent, ExampleGrades, ExampleCatalog, 60.0);
    assert r.avgBySubject == ExampleEntries;
    ExampleGeneralAvg();
    ExampleGradeMean();
    NothingBelow(ExampleEntries, 60.0);
  }

  lemma NothingBelow(entries: seq<SubjectAverage>, t: real)
    requires forall i :: 0 <= i < |entries| ==> entries[i].percentAvg >= t
    ensures NeedsImprovement(entries, t) == []
  {
    FilterKeepsNone(entries, (e: SubjectAverage) => e.percentAvg < t);
  }

  /** A subject whose only grade is 0/100 reports null, exactly like a subject without grades. */
  lemma ZeroAverageReadsAsNoData()
    ensures SummarizeSubject(Subject(10, "Matemáticas"), [Grade(1, 10, 0.0, 100.0)]).percentAvg == None
    ensures SummarizeSubject(Subject(10, "Matemáticas"), []).percentAvg == None
  {
    var g := Grade(1, 10, 0.0, 100.0);
    assert [g][..0] == [];
    assert OfSubject([g], 10) == [g];
    assert Percents([g]) == [0.0];
    assert [0.0][..0] == [];
  }

  /** Grades of 50/100 and 100/100 in a subject, from any students, average 75. */
  lemma SubjectAverageExample()
    ensures SummarizeSubject(Subject(10, "Matemáticas"), [Grade(1, 10, 50.0, 100.0), Grade(2, 10, 100.0, 100.0)]).percentAvg
            == Some(75.0)
  {
    var g0, g1 := Grade(1, 10, 50.0, 100.0), Grade(2, 10, 100.0, 100.0);
    assert [g0, g1][..1] == [g0] && [g0][..0] == [];
    assert [] + [g0] == [g0] && [g0] + [g1] == [g0, g1];
    OfSubjectSnoc([], g0, 10); OfSubjectSnoc([g0], g1, 10);
    assert OfSubject([g0, g1], 10) == [g0, g1];
    assert Percents([g0, g1]) == [50.0, 100.0];
    assert [50.0, 100.0][..1] == [50.0];
    assert Sum([50.0, 100.0]) == 150.0;
    Round2Exact(75.0);
  }

  /** With threshold 60, subject averages 55, 65 and 60 leave only the 55 in `needsImprovement`. */
  lemma ThresholdIsStrict()
    ensures var a, b, c := SubjectAverage(1, "A", 55.0), SubjectAverage(2, "B", 65.0), SubjectAverage(3, "C", 60.0);
            NeedsImprovement([a, b, c], 60.0) == [a]
  {
    var a, b, c := SubjectAverage(1, "A", 55.0), SubjectAverage(2, "B", 65.0), SubjectAverage(3, "C", 60.0);
    assert [] + [a] == [a] && [a] + [b] == [a, b] && [a, b] + [c] == [a, b, c];
    NeedsImprovementSnoc([], a, 60.0);
    NeedsImprovementSnoc([a], b, 60.0);
    NeedsImprovementSnoc([a, b], c, 60.0);
  }
}

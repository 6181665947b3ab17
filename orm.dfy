/**
 * The student records the React front end receives from the ORM back end,
 * each student with their `Grades` and each grade with its `Subject`, and the
 * nested `forEach` that both the dashboard and the chart use to gather the
 * grade values of one subject name across all students
 * (frontend/src/components/Dashboard.jsx and Charts.jsx).
 */
module Orm {
  import opened Wrappers

  /** A grade: `g.value` on the 0-10 scale, and `g.Subject?.name` (None when the subject is not included). */
  datatype OrmGrade = OrmGrade(value: real, subjectName: Option<string>)

  /** A student: `st.Grades`, which may be missing altogether. */
  datatype OrmStudent = OrmStudent(id: int, grades: Option<seq<OrmGrade>>)

  /** A subject of the catalog. */
  datatype OrmSubject = OrmSubject(id: int, name: string)

  /** The values of the grades whose subject is called `name`, in order. */
  function ValuesNamed(gs: seq<OrmGrade>, name: string): seq<real>
  {
    if gs == [] then []
    else
      var g := gs[|gs| - 1];
      ValuesNamed(gs[..|gs| - 1], name) + (if g.subjectName == Some(name) then [g.value] else [])
  }

  /** `st.Grades?.forEach(...)`: nothing when the student has no `Grades`. */
  function StudentValues(st: OrmStudent, name: string): seq<real>
  {
    match st.grades
    case None => []
    case Some(gs) => ValuesNamed(gs, name)
  }

  /** What an outer `forEach` pushes when the body for each element pushes `f(x)`. */
  function Gather<T>(xs: seq<T>, f: T -> seq<real>): seq<real>
  {
    if xs == [] then [] else Gather(xs[..|xs| - 1], f) + f(xs[|xs| - 1])
  }

  lemma {:induction false} GatherConcat<T>(a: seq<T>, b: seq<T>, f: T -> seq<real>)
    ensures Gather(a + b, f) == Gather(a, f) + Gather(b, f)
  {
    if b == [] {
      assert a + b == a;
    } else {
      var n := |b| - 1;
      assert (a + b)[..|a + b| - 1] == a + b[..n];
      GatherConcat(a, b[..n], f);
    }
  }

  /** The values pushed for subject name `name`, student by student, grade by grade. */
  function MatchingValues(students: seq<OrmStudent>, name: string): seq<real>
  {
    Gather(students, st => StudentValues(st, name))
  }

  /** Grade `g` of one of the students matches the subject name `name`. */
  predicate MatchingGrade(students: seq<OrmStudent>, name: string, g: OrmGrade)
  {
    g.subjectName == Some(name) &&
    exists st :: st in students && st.grades.Some? && g in st.grades.value
  }

  /**
   * `students.forEach(st => st.Grades?.forEach(g => { if (g.Subject?.name === name) all.push(g.value) }))`.
   */
  method CollectMatching(students: seq<OrmStudent>, name: string) returns (all: seq<real>)
    ensures all == MatchingValues(students, name)
  {
    all := [];
    var i := 0;
    while i < |students|
      invariant 0 <= i <= |students|
      invariant all == MatchingValues(students[..i], name)
    {
      assert students[..i + 1][..i] == students[..i];
      match students[i].grades {
        case None =>
        case Some(gs) =>
          var j := 0;
          while j < |gs|
            invariant 0 <= j <= |gs|
            invariant all == MatchingValues(students[..i], name) + ValuesNamed(gs[..j], name)
          {
            assert gs[..j + 1][..j] == gs[..j];
            if gs[j].subjectName == Some(name) {
              all := all + [gs[j].value];
            }
            j := j + 1;
          }
          assert gs[..j] == gs;
      }
      i := i + 1;
    }
    assert students[..i] == students;
  }

  lemma {:induction false} ValuesNamedMembership(gs: seq<OrmGrade>, name: string, v: real)
    ensures v in ValuesNamed(gs, name) <==> exists g :: g in gs && g.subjectName == Some(name) && g.value == v
  {
    if gs != [] {
      var n := |gs| - 1;
      ValuesNamedMembership(gs[..n], name, v);
      assert gs == gs[..n] + [gs[n]];
      if exists g :: g in gs && g.subjectName == Some(name) && g.value == v {
        var g :| g in gs && g.subjectName == Some(name) && g.value == v;
        if g != gs[n] {
          assert g in gs[..n];
        }
      }
    }
  }

  /**
   * A value is gathered for `name` exactly when some student's grade carries it
   * under a subject called `name`; grades without a subject and students
   * without `Grades` contribute nothing.
   */
  lemma {:induction false} MatchingValuesMembership(students: seq<OrmStudent>, name: string, v: real)
    ensures v in MatchingValues(students, name) <==>
            exists g :: MatchingGrade(students, name, g) && g.value == v
  {
    if students != [] {
      var n := |students| - 1;
      var last := students[n];
      MatchingValuesMembership(students[..n], name, v);
      assert students == students[..n] + [last];
      if last.grades.Some? {
        ValuesNamedMembership(last.grades.value, name, v);
      }
      if v in MatchingValues(students, name) {
        if v in MatchingValues(students[..n], name) {
          var g :| MatchingGrade(students[..n], name, g) && g.value == v;
          var st :| st in students[..n] && st.grades.Some? && g in st.grades.value;
          assert st in students;
        } else {
          assert v in StudentValues(last, name);
          var g :| g in last.grades.value && g.subjectName == Some(name) && g.value == v;
          assert MatchingGrade(students, name, g);
        }
      }
      if exists g :: MatchingGrade(students, name, g) && g.value == v {
        var g :| MatchingGrade(students, name, g) && g.value == v;
        var st :| st in students && st.grades.Some? && g in st.grades.value;
        if st != last {
          assert st in students[..n];
          assert MatchingGrade(students[..n], name, g);
        }
      }
    }
  }

  /** Gathering over two groups of students is gathering over each in turn. */
  lemma MatchingValuesConcat(a: seq<OrmStudent>, b: seq<OrmStudent>, name: string)
    ensures MatchingValues(a + b, name) == MatchingValues(a, name) + MatchingValues(b, name)
  {
    GatherConcat(a, b, st => StudentValues(st, name));
  }

  /** A student without `Grades` can be added anywhere without changing what is gathered. */
  lemma StudentWithoutGradesIgnored(a: seq<OrmStudent>, b: seq<OrmStudent>, id: int, name: string)
    ensures MatchingValues(a + [OrmStudent(id, None)] + b, name) == MatchingValues(a + b, name)
  {
    var x := OrmStudent(id, None);
    assert [x][..0] == [];
    assert MatchingValues([x], name) == MatchingValues([], name) + StudentValues(x, name);
    MatchingValuesConcat(a + [x], b, name);
    MatchingValuesConcat(a, [x], name);
    MatchingValuesConcat(a, b, name);
    assert MatchingValues(a + [x], name) == MatchingValues(a, name);
  }
}

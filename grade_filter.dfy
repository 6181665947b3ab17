/**
 * The query of `GET /api/grades` (app.js): a fixed join of grades with their
 * student and subject, narrowed by the optional `student_id` and `subject_id`
 * query parameters, newest first. The handler builds the SQL text and the list
 * of bound parameters step by step; running the query is not modelled.
 */
module GradeFilter {
  import opened Wrappers

  const BaseQuery: string :=
    "SELECT g.*, s.first_name, s.last_name, sub.name as subject_name\n" +
    "           FROM grades g\n" +
    "           JOIN students s ON s.id = g.student_id\n" +
    "           JOIN subjects sub ON sub.id = g.subject_id"

  const StudentClause: string := "g.student_id = ?"
  const SubjectClause: string := "g.subject_id = ?"
  const OrderBy: string := " ORDER BY g.date_taken DESC"

  /** A query parameter that is present and not the empty string (JavaScript truthiness of a string). */
  predicate Supplied(param: Option<string>)
  {
    param.Some? && param.value != ""
  }

  /** `parts.join(sep)`. */
  function Join(parts: seq<string>, sep: string): string
  {
    if |parts| == 0 then ""
    else if |parts| == 1 then parts[0]
    else Join(parts[..|parts| - 1], sep) + sep + parts[|parts| - 1]
  }

  /** Joining one part gives the part; joining two puts the separator between them. */
  lemma JoinSmall(a: string, b: string, sep: string)
    ensures Join([a], sep) == a
    ensures Join([a, b], sep) == a + sep + b
  {
    assert [a, b][..1] == [a];
  }

  /**
   * Builds the SQL text and its parameters. The text always starts with the
   * join and ends with the ordering; a `WHERE` appears only when a filter is
   * supplied, its clauses in the order student, subject, joined by `AND`; the
   * parameters are the supplied filters in that same order, one per `?`.
   */
  method BuildGradesQuery(studentId: Option<string>, subjectId: Option<string>) returns (q: string, params: seq<string>)
    ensures !Supplied(studentId) && !Supplied(subjectId) ==>
              q == BaseQuery + OrderBy && params == []
    ensures Supplied(studentId) && !Supplied(subjectId) ==>
              q == BaseQuery + " WHERE " + StudentClause + OrderBy && params == [studentId.value]
    ensures !Supplied(studentId) && Supplied(subjectId) ==>
              q == BaseQuery + " WHERE " + SubjectClause + OrderBy && params == [subjectId.value]
    ensures Supplied(studentId) && Supplied(subjectId) ==>
              q == BaseQuery + " WHERE " + StudentClause + " AND " + SubjectClause + OrderBy &&
              params == [studentId.value, subjectId.value]
  {
    var where: seq<string> := [];
    params := [];
    if Supplied(studentId) {
      where := where + [StudentClause];
      params := params + [studentId.value];
    }
    if Supplied(subjectId) {
      where := where + [SubjectClause];
      params := params + [subjectId.value];
    }
    q := BaseQuery;
    if |where| > 0 {
      JoinSmall(StudentClause, SubjectClause, " AND ");
      if |where| == 2 {
        assert where == [StudentClause, SubjectClause];
      }
      q := q + " WHERE " + Join(where, " AND ");
    }
    q := q + OrderBy;
  }
}

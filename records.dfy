/**
 * The presence checks and defaults of the create and update handlers of the
 * SQLite back end (app.js): which request bodies are refused, and which values
 * are stored for the optional fields. Request fields are JavaScript values; the
 * database write itself is not modelled, only the row the handler asks for.
 */
module Records {
  import opened Wrappers

  /** The JavaScript values a JSON request body can carry (NaN is not modelled). */
  datatype JsValue = Undefined | Null | Bool(b: bool) | Num(n: real) | Str(s: string) | Obj

  /** JavaScript truthiness: `undefined`, `null`, `false`, `0` and `''` are falsy. */
  predicate Truthy(v: JsValue)
  {
    match v
    case Undefined => false
    case Null => false
    case Bool(b) => b
    case Num(n) => n != 0.0
    case Str(s) => s != ""
    case Obj => true
  }

  /** JavaScript `a || b`. */
  function Or(a: JsValue, b: JsValue): (r: JsValue)
    ensures Truthy(a) ==> r == a
    ensures !Truthy(a) ==> r == b
  {
    if Truthy(a) then a else b
  }

  /** An optional column after `x || null`: either a truthy value or NULL. */
  predicate NullOrTruthy(v: JsValue)
  {
    v == Null || Truthy(v)
  }

  /** The values bound to `INSERT INTO students (...)`. */
  datatype StudentRow = StudentRow(
    firstName: JsValue, lastName: JsValue, identifier: JsValue, gradeLevel: JsValue, extra: JsValue)

  /**
   * `POST /api/students`: refused with "Faltan nombres" unless both names are
   * truthy; `identifier || null`, `grade_level || null`, and `extra` kept only
   * when truthy (its JSON text is not modelled).
   */
  function CreateStudent(firstName: JsValue, lastName: JsValue, identifier: JsValue, gradeLevel: JsValue, extra: JsValue)
    : (r: Result<StudentRow>)
    ensures r.Err? <==> !Truthy(firstName) || !Truthy(lastName)
    ensures r.Err? ==> r.message == "Faltan nombres"
    ensures r.Ok? ==> var row := r.value;
              && row.firstName == firstName && row.lastName == lastName
              && Truthy(row.firstName) && Truthy(row.lastName)
              && NullOrTruthy(row.identifier) && NullOrTruthy(row.gradeLevel) && NullOrTruthy(row.extra)
              && (Truthy(identifier) ==> row.identifier == identifier)
              && (!Truthy(identifier) ==> row.identifier == Null)
              && (Truthy(gradeLevel) ==> row.gradeLevel == gradeLevel)
              && (!Truthy(gradeLevel) ==> row.gradeLevel == Null)
              && (Truthy(extra) ==> row.extra == extra)
              && (!Truthy(extra) ==> row.extra == Null)
  {
    if !Truthy(firstName) || !Truthy(lastName) then Err("Faltan nombres")
    else Ok(StudentRow(firstName, lastName, Or(identifier, Null), Or(gradeLevel, Null), if Truthy(extra) then extra else Null))
  }

  /** The values bound to `INSERT INTO subjects (name, code)`. */
  datatype SubjectRow = SubjectRow(name: JsValue, code: JsValue)

  /** `POST /api/subjects`: refused with "Nombre requerido" unless the name is truthy; `code || null`. */
  function CreateSubject(name: JsValue, code: JsValue): (r: Result<SubjectRow>)
    ensures r.Err? <==> !Truthy(name)
    ensures r.Err? ==> r.message == "Nombre requerido"
    ensures r.Ok? ==> r.value.name == name && NullOrTruthy(r.value.code) &&
                      (Truthy(code) ==> r.value.code == code) &&
                      (!Truthy(code) ==> r.value.code == Null)
  {
    if !Truthy(name) then Err("Nombre requerido") else Ok(SubjectRow(name, Or(code, Null)))
  }

  /** The values bound to `INSERT INTO grades (...)`, or the columns of a stored grade. */
  datatype GradeRow = GradeRow(
    studentId: JsValue, subjectId: JsValue, score: JsValue, maxScore: JsValue, dateTaken: JsValue, note: JsValue)

  const DefaultMaxScore: JsValue := Num(100.0)

  /**
   * `POST /api/grades`: refused with "Faltan campos" when `student_id` or
   * `subject_id` is falsy or `score` is `undefined` (a score of 0 or null passes);
   * `max_score || 100`, `date_taken || null`, `note || null`.
   */
  function CreateGrade(studentId: JsValue, subjectId: JsValue, score: JsValue, maxScore: JsValue, dateTaken: JsValue, note: JsValue)
    : (r: Result<GradeRow>)
    ensures r.Err? <==> !Truthy(studentId) || !Truthy(subjectId) || score == Undefined
    ensures r.Err? ==> r.message == "Faltan campos"
    ensures r.Ok? ==> var row := r.value;
              && row.studentId == studentId && row.subjectId == subjectId && row.score == score
              && Truthy(row.maxScore) && (Truthy(maxScore) ==> row.maxScore == maxScore)
              && (!Truthy(maxScore) ==> row.maxScore == Num(100.0))
              && NullOrTruthy(row.dateTaken) && NullOrTruthy(row.note)
              && (Truthy(dateTaken) ==> row.dateTaken == dateTaken) && (!Truthy(dateTaken) ==> row.dateTaken == Null)
              && (Truthy(note) ==> row.note == note) && (!Truthy(note) ==> row.note == Null)
  {
    if !Truthy(studentId) || !Truthy(subjectId) || score == Undefined then Err("Faltan campos")
    else Ok(GradeRow(studentId, subjectId, score, Or(maxScore, DefaultMaxScore), Or(dateTaken, Null), Or(note, Null)))
  }

  /**
   * `PUT /api/grades/:id` applied to the stored row: no presence check at all;
   * score, `max_score || 100`, `date_taken || null` and `note || null` replace the
   * old values while the student and subject stay.
   */
  function UpdateGrade(stored: GradeRow, score: JsValue, maxScore: JsValue, dateTaken: JsValue, note: JsValue): (row: GradeRow)
    ensures row.studentId == stored.studentId && row.subjectId == stored.subjectId
    ensures row.score == score
    ensures Truthy(row.maxScore) && (Truthy(maxScore) ==> row.maxScore == maxScore)
    ensures !Truthy(maxScore) ==> row.maxScore == Num(100.0)
    ensures NullOrTruthy(row.dateTaken) && NullOrTruthy(row.note)
    ensures Truthy(dateTaken) ==> row.dateTaken == dateTaken
    ensures !Truthy(dateTaken) ==> row.dateTaken == Null
    ensures Truthy(note) ==> row.note == note
    ensures !Truthy(note) ==> row.note == Null
  {
    GradeRow(stored.studentId, stored.subjectId, score, Or(maxScore, DefaultMaxScore), Or(dateTaken, Null), Or(note, Null))
  }

  /**
   * A numeric `max_score` stored by either handler is never 0, which is what the
   * percentage averages of the summary report divide by.
   */
  lemma StoredMaxScoreNonZero(studentId: JsValue, subjectId: JsValue, score: JsValue, maxScore: JsValue,
                              dateTaken: JsValue, note: JsValue, stored: GradeRow)
    ensures var r := CreateGrade(studentId, subjectId, score, maxScore, dateTaken, note);
            r.Ok? && r.value.maxScore.Num? ==> r.value.maxScore.n != 0.0
    ensures var row := UpdateGrade(stored, score, maxScore, dateTaken, note);
            row.maxScore.Num? ==> row.maxScore.n != 0.0
  {
  }
}

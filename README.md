# Academic aggregation and classification rules of App-Institucional

App-Institucional keeps students, subjects and grades and reports on them in
three places. This project models the rules that decide what those reports
say and proves properties of them in Dafny:

- the SQLite back end (`app.js`):
  - the `/api/analysis/summary` report. Per student it gives the percentage average of each graded subject, a general average over those subject averages, the subjects below a threshold and an at-risk flag. Per subject it gives the percentage average over all recorded grades.
  - the presence checks and defaults of the create and update handlers.
  - the optional filters of `GET /api/grades`.
- the analysis service (`analysis-service/app.py`): `analyze()`, with weak subjects (mean below 6.0), recommendations, the overall mean and the Bien / Atención / Riesgo status.
- the React front end: the dashboard's averages per subject (`Dashboard.jsx`) and the bar chart's (`Charts.jsx`), both matching grades to subjects by name.

Database rows and request bodies are inputs. SQL `AVG ... GROUP BY` is a
filter followed by a sum and count. Numbers are exact `real`s:

- `Numeric.Round2` is `Math.round(x*100)/100`, that is `floor(100x + 0.5)/100`.
- `Numeric.RoundHalfEven2` is Python's `round(x, 2)`.

Files:

| file | module | models |
|---|---|---|
| `wrappers.dfy` | `Wrappers` | `Option`, `Result` |
| `numeric.dfy` | `Numeric` | sums, means, SQL `AVG`, order-keeping filters, first-appearance grouping, the two roundings to hundredths |
| `records.dfy` | `Records` | JavaScript truthiness and `||`; the create and update handlers of `app.js` |
| `grade_filter.dfy` | `GradeFilter` | the SQL text and parameters of `GET /api/grades` |
| `summary.dfy` | `Summary` | `GET /api/analysis/summary` |
| `analysis.dfy` | `Analysis` | `analyze()` of the analysis service |
| `orm.dfy` | `Orm` | the student records the React front end reads, and the nested `forEach` that gathers the grade values of one subject name |
| `charts.dfy` | `Charts` | `labels` and `data` of the bar chart |
| `dashboard.dfy` | `Dashboard` | `summary` of the dashboard |

The code has three imperative parts, and each is a method:

- The `where`/`params` pushes of the grade filter: `GradeFilter.BuildGradesQuery`, straight-line like the source.
- The `recs.append` loop of `analyze()`: `Analysis.BuildRecommendations`.
- The nested `forEach`/`push` of the React components: `Orm.CollectMatching`, called by `Dashboard.ComputeSummary` and `Charts.ComputeChartData`.

The last two, and the methods that call `Orm.CollectMatching`, are `while` loops. Each loop method is proved equal to a specification function. `GradeFilter.BuildGradesQuery` is proved to produce, in each of the four filter combinations, the whole SQL text and parameter list written out. `Analysis.Analyze` is a method only because it calls `Analysis.BuildRecommendations`; its contract states the whole response. Everything else is a function, with lemmas about it.

## Model

| member | source | states |
|---|---|---|
| Records.Truthy | app.js:76 | JavaScript truthiness: `undefined`, `null`, `false`, `0` and `''` are falsy, the presence test `!x` of app.js:76, app.js:108 and app.js:146; the refusal clauses of `Records.CreateStudent`, `Records.CreateSubject` and `Records.CreateGrade` state what it decides |
| Records.Or | app.js:78 | JavaScript `a \|\| b`: `a` when `a` is truthy, otherwise `b` |
| Records.CreateStudent | app.js:74-78 | refused with "Faltan nombres" exactly when `first_name` or `last_name` is falsy; otherwise both names are stored as given; `identifier`, `grade_level` and `extra` are kept when truthy and are NULL otherwise |
| Records.CreateSubject | app.js:106-110 | refused with "Nombre requerido" exactly when `name` is falsy; otherwise the name is kept; `code` is kept when truthy and is NULL otherwise |
| Records.CreateGrade | app.js:144-148 | refused with "Faltan campos" exactly when `student_id` or `subject_id` is falsy or `score` is `undefined` (a score of 0 or null passes); otherwise ids and score are stored as given; `max_score` is kept when truthy and is 100 otherwise; `date_taken` and `note` are kept when truthy and are NULL otherwise |
| Records.UpdateGrade | app.js:153-156 | no presence check: student and subject stay, the score is replaced, `max_score` becomes the given value when truthy and 100 otherwise, and `date_taken` and `note` become the given value when truthy and NULL otherwise |
| Records.StoredMaxScoreNonZero | app.js:146-156 | a numeric `max_score` stored by create or update is never 0 |
| GradeFilter.Supplied | app.js:136-137 | `if (student_id)` / `if (subject_id)`: a query parameter that is present and not the empty string; `GradeFilter.BuildGradesQuery` states what each combination of it yields |
| GradeFilter.Join | app.js:138 | `parts.join(sep)`: the parts with `sep` between consecutive ones; `GradeFilter.JoinSmall` evaluates it on one and two parts |
| GradeFilter.JoinSmall | app.js:138 | `join(' AND ')` of one clause is that clause; of two, the clauses with `AND` between them |
| GradeFilter.BuildGradesQuery | app.js:126-139 | for each of the four combinations of supplied filters: the query is the fixed join, then `WHERE` with the student clause before the subject clause joined by `AND` only when some filter is supplied, then `ORDER BY g.date_taken DESC`; the parameters are the supplied filter values in the same order; an empty-string filter counts as absent |
| Numeric.Average | app.js:180 | SQL `AVG`: NULL exactly over no rows, otherwise a value whose product with the row count is the sum |
| Numeric.Sum | app.js:197 | `reduce((acc, cur) => acc + cur, 0)`: the left fold with `+` from 0; `Numeric.SumConcat` and `Numeric.SumAtLeast` give its properties |
| Numeric.Mean | app.js:197 | the sum divided by the count, used only on non-empty sequences; `Numeric.MeanBounds` bounds it |
| Numeric.SumConcat | app.js:197 | the sum of a concatenation is the sum of the parts |
| Numeric.MeanBounds | app.js:197 | a mean of values between two bounds lies between them |
| Numeric.Filter | app.js:199 | the result keeps exactly the elements that satisfy the predicate and is no longer than the input |
| Numeric.FilterMultiplicity | app.js:182 | a filter keeps every copy of a passing value and no copy of a failing one, so repeated grades all count in the means |
| Numeric.FilterConcat | app.js:199 | filtering commutes with concatenation, so it keeps order |
| Numeric.FilterKeepsAll | app.js:182 | a filter every element passes returns the input |
| Numeric.FilterKeepsNone | app.js:199 | a filter no element passes returns nothing |
| Numeric.Dedup | app.js:183 | `GROUP BY`'s groups: the distinct values of the input, each once, and nothing else |
| Numeric.Round2 | app.js:193 | `Math.round(x*100)/100`: a whole number of hundredths, at most half a hundredth above `x` and strictly less than half a hundredth below it, so a tie goes up |
| Numeric.Round2Unique | app.js:193 | the rounding is the only hundredth in that half-open window around `x` |
| Numeric.Round2Monotone | app.js:193 | rounding never reverses order |
| Numeric.Round2Exact | app.js:193 | a value already on hundredths is unchanged |
| Numeric.Round2Within | app.js:197 | rounding stays within any hundredth bounds of its argument |
| Numeric.RoundedMeanAtLeast | app.js:197-200 | subject averages that all reach a threshold have a rounded mean that reaches it as well |
| Numeric.RoundHalfEven2 | analysis-service/app.py:32 | Python `round(x, 2)`: the nearest hundredth, and on a tie the one with an even count of hundredths |
| Numeric.RoundingsAgreeOffTies | analysis-service/app.py:32 | away from ties the two roundings agree |
| Summary.Percent | app.js:180 | `(score*1.0)/max_score * 100`, the grade as a percentage of its maximum (also app.js:213); `Summary.EntryMeaning` and `Summary.SummarizeSubject` average it |
| Summary.OfStudent | app.js:182 | `WHERE student_id = ?`: a `Numeric.Filter` on the student id, so by that contract exactly the rows of that student, in order, with `Numeric.FilterMultiplicity` keeping repeated rows |
| Summary.OfSubject | app.js:213 | `WHERE subject_id = ?`: a `Numeric.Filter` on the subject id, so exactly the rows of that subject, in order, repeated rows kept |
| Summary.SubjectIds | app.js:183 | the keys of `GROUP BY subject_id`: `Summary.SubjectIdsMembership` states an id is a key exactly when some row has it, and `Numeric.Dedup` that each key occurs once |
| Summary.FindSubject | app.js:189 | `subjects.find`: none exactly when no subject has the id, otherwise the first subject with it |
| Summary.SubjectName | app.js:189-192 | "Desconocida" when the id is not in the catalog, otherwise the name of the first subject with that id |
| Summary.ThresholdOf | app.js:174 | the given threshold, or 60 when none is given; `Summary.AnalysisSummary` states it for the report |
| Summary.StudentAverages | app.js:179-187 | the per-student `AVG ... GROUP BY subject_id`: one row per subject of that student's grades, with the mean percentage; `Summary.EntryPerGradedSubject` and `Summary.EntryMeaning` state what the rows hold |
| Summary.AvgBySubject | app.js:188-195 | each row named from the catalog and its average rounded to hundredths; its meaning is in `Summary.EntryMeaning` |
| Summary.GeneralAvg | app.js:197 | null exactly when there is no subject entry; otherwise a hundredth within half a hundredth of the mean of the entries' averages, a tie going up |
| Summary.AtRisk | app.js:200 | `generalAvg !== null && generalAvg < threshold`; `Summary.AtRiskMeaning` restates it in terms of the student's grades |
| Summary.SummarizeStudent | app.js:186-209 | one element of `studentSummaries`; its fields are characterised by `Summary.EntryPerGradedSubject`, `Summary.EntryMeaning`, `Summary.GeneralAvgNullIffNoGrades`, `Summary.NeedsImprovement` and `Summary.AtRiskMeaning` |
| Summary.NeedsImprovement | app.js:199 | an entry is kept exactly when its average is strictly below the threshold |
| Summary.SummarizeSubject | app.js:212-217 | the subject is echoed; the average is null exactly when the subject has no grades or their mean percentage is 0 (the truthiness test); otherwise it is that mean, rounded to hundredths |
| Summary.AnalysisSummary | app.js:172-225 | the threshold is the one given, defaulting to 60; one student summary per student and one subject summary per subject, each in input order |
| Summary.SubjectIdsMembership | app.js:183 | a subject id is among the groups exactly when some grade has it |
| Summary.EntryPerGradedSubject | app.js:186-195 | a student has an `avgBySubject` entry for a subject exactly when they have a grade in it |
| Summary.EntryMeaning | app.js:179-194 | no subject appears twice in `avgBySubject`; each entry holds the mean of `score/max_score*100` over that student's grades in that subject (there is at least one), rounded to hundredths, under the catalog name of that subject |
| Summary.GeneralAvgNullIffNoGrades | app.js:197 | the general average is null exactly when the student has no grade |
| Summary.AtRiskMeaning | app.js:200 | at risk exactly when the student has grades and a general average strictly below the threshold |
| Summary.NoGradesNeverAtRisk | app.js:200 | a student without grades is not at risk for any threshold |
| Summary.AtRiskMonotoneInThreshold | app.js:197-200 | raising the threshold keeps an at-risk student at risk and does not change the averages |
| Summary.NeedsImprovementKeepsOrder | app.js:199 | `needsImprovement` of a concatenation is the concatenation of the parts' lists |
| Summary.PercentAvgsAreHundredths | app.js:193 | every subject average of a summary is a whole number of hundredths |
| Summary.AtRiskHasWeakSubject | app.js:197-200 | a student at risk has at least one subject in `needsImprovement` |
| Summary.GeneralAvgWithin | app.js:197 | the general average stays within any hundredth bounds that hold all subject averages |
| Summary.SubjectsWeighEqually | app.js:186-200 | grades 80/100 and 60/100 in one subject and 100/100 in another give averages 70 and 100, general average 85, nothing below 60 and not at risk, while the mean over the three grades is 80 |
| Summary.ZeroAverageReadsAsNoData | app.js:216 | a subject whose only grade is 0/100 reports null, like a subject without grades |
| Summary.SubjectAverageExample | app.js:213-216 | grades of 50/100 and 100/100 from two students give a subject average of 75 |
| Summary.ThresholdIsStrict | app.js:199 | with threshold 60, averages 55, 65 and 60 leave only the 55 |
| Analysis.Classify | analysis-service/app.py:28 | Bien exactly at 7.0 and above, Atención exactly from 6.0 up to 7.0, Riesgo exactly below 6.0 |
| Analysis.StatusText | analysis-service/app.py:28 | the texts "Bien", "Atención" and "Riesgo"; `Analysis.StatusTextsDistinct` shows they differ |
| Analysis.ClassifyMonotone | analysis-service/app.py:28 | a higher average never gets a worse band |
| Analysis.StatusTextsDistinct | analysis-service/app.py:28 | the three status texts differ |
| Analysis.Values | analysis-service/app.py:27 | the `value` column `df['value']`, one entry per grade in input order; `Analysis.Analyze` averages it over all grades |
| Analysis.ValuesOf | analysis-service/app.py:15 | the `value`s of one `groupby('subject')` group: a `Numeric.Filter` on the subject, in order, repeated grades kept; `Analysis.SubjectMeansMeaning` shows each present subject's group is non-empty |
| Analysis.SubjectMeans | analysis-service/app.py:15 | `groupby('subject')['value'].mean()`; `Analysis.SubjectMeansMeaning` states its rows |
| Analysis.Weak | analysis-service/app.py:18 | a row is kept exactly when its mean is strictly below 6.0 |
| Analysis.Recommend | analysis-service/app.py:21-25 | keeps the row's subject, and its average is a hundredth within half a hundredth of the mean (Python's `round`, `Numeric.RoundHalfEven2`); the text "Refuerzo en <subject>. Actividades prácticas y revisión de fundamentos." is its definition |
| Analysis.BuildRecommendations | analysis-service/app.py:19-25 | one recommendation per weak row, in order, each with its subject, its mean rounded to hundredths and the text "Refuerzo en ..." |
| Analysis.SubjectNamesMembership | analysis-service/app.py:15 | a subject name occurs exactly when some grade has it |
| Analysis.SubjectMeansMeaning | analysis-service/app.py:15 | `groupby().mean()` has one row per subject present, none twice, each with the mean of that subject's values |
| Analysis.Analyze | analysis-service/app.py:7-36 | no grades: the echoed `studentId`, no recommendations and "Sin calificaciones"; otherwise it echoes `studentId` and `name` and gives the mean of all values rounded to hundredths, the status of the unrounded mean, and as weak subjects, each once, exactly the subjects whose mean is strictly below 6.0, each with its recommendation |
| Analysis.WeakRecommendations | analysis-service/app.py:15-25 | the recommendations are for distinct subjects, and a subject has one exactly when its mean is below 6.0 |
| Analysis.WeakDistinct | analysis-service/app.py:18 | selecting weak rows keeps subjects distinct |
| Analysis.OverallWeighsGrades | analysis-service/app.py:27 | grades 10, 10 (A) and 4 (B) have overall mean 8, while the subject means are 10 and 4 |
| Analysis.StatusUsesUnroundedMean | analysis-service/app.py:27-32 | a mean of 6.996 is reported as 7.0 yet classified Atención |
| Orm.ValuesNamed | frontend/src/components/Dashboard.jsx:26 | the inner `forEach`: the values of one student's grades under that subject name, in order; `Orm.ValuesNamedMembership` states which |
| Orm.StudentValues | frontend/src/components/Dashboard.jsx:26 | `st.Grades?.forEach(...)`: nothing when `Grades` is missing |
| Orm.Gather | frontend/src/components/Dashboard.jsx:25 | the outer `forEach`: what each element pushes, element by element; `Orm.GatherConcat` splits it |
| Orm.MatchingValues | frontend/src/components/Dashboard.jsx:24-27 | the values the nested loops push for a name; `Orm.MatchingValuesMembership` states which |
| Orm.GatherConcat | frontend/src/components/Dashboard.jsx:25-27 | what an outer `forEach` pushes over two runs of elements is what it pushes over each in turn |
| Orm.CollectMatching | frontend/src/components/Dashboard.jsx:24-27 | the nested `forEach`/`push` loop gathers exactly the specification's values for the name, student by student and grade by grade |
| Orm.ValuesNamedMembership | frontend/src/components/Dashboard.jsx:26 | a value is gathered from a student's grades exactly when one of them carries it under that subject name |
| Orm.MatchingValuesMembership | frontend/src/components/Dashboard.jsx:24-27 | a value is gathered exactly when some student's grade carries it under a subject of that name; grades without a subject and students without `Grades` contribute nothing |
| Orm.MatchingValuesConcat | frontend/src/components/Dashboard.jsx:25 | gathering over two groups of students is gathering over each in turn |
| Orm.StudentWithoutGradesIgnored | frontend/src/components/Dashboard.jsx:26 | a student without `Grades` anywhere in the list changes nothing |
| Dashboard.ComputeSummary | frontend/src/components/Dashboard.jsx:20-31 | `totalStudents` is the number of students; `avgPerSubject` has one entry per catalog subject in order, keyed by its name, with the average of the values gathered for that name |
| Dashboard.AvgOf | frontend/src/components/Dashboard.jsx:28 | the dash exactly when there are no values; otherwise a hundredth within half a hundredth of their mean, a tie going up |
| Dashboard.DashIffNoMatchingGrade | frontend/src/components/Dashboard.jsx:28 | the dash appears exactly when no grade sits under a subject of that name; otherwise the figure is the rounded mean of the gathered values |
| Dashboard.SameNameSameAverage | frontend/src/components/Dashboard.jsx:26 | two catalog subjects with the same name show the same entry |
| Dashboard.ChartAgreesWithDashboard | frontend/src/components/Dashboard.jsx:28 | where the dashboard shows a figure the chart draws it, and where it shows the dash the chart draws 0 |
| Dashboard.DashDistinguishesNoData | frontend/src/components/Dashboard.jsx:28 | the dash tells a subject without grades from one whose grades are all 0 |
| Charts.ComputeChartData | frontend/src/components/Charts.jsx:10-15 | `labels` are the subject names in order; `data` has the same length and each entry is the rounded mean of the values gathered for its label, or 0 |
| Charts.ChartValue | frontend/src/components/Charts.jsx:14 | 0 when there are no values; otherwise a hundredth within half a hundredth of their mean, a tie going up |
| Charts.NoDataLooksLikeZero | frontend/src/components/Charts.jsx:14 | a label without grades and one whose grades are all 0 get the same bar |
| Charts.ChartValueWithinScale | frontend/src/components/Charts.jsx:14 | values on the 0-10 scale give a bar on that scale |

## Left out

- SQLite execution, the table definitions, cascade deletes and database errors are not modelled. This includes the unique-code error of `POST /api/subjects`. The rows a query would return are inputs.
- A `max_score` of 0, which SQLite would turn into a NULL percentage, is not modelled. The summary requires every grade row to have a non-zero maximum (`Summary.Scored`). The create and update handlers guarantee this for numeric values (`Records.StoredMaxScoreNonZero`).
- Express routing, HTTP statuses, JSON parsing, the Flask app, the analysis proxy and every UI part are left out: the HTML page, the React hooks and state, Chart.js. Only the computation they feed is kept.
- `PUT /api/students/:id` is not part of this model: it has no presence check. The `JSON.stringify` text of `extra` is not modelled either; the model keeps the value itself.
- `parseFloat` of the threshold is not modelled. That covers strings that do not parse (NaN) and the empty string, which falls back to `'60'`. The threshold arrives as an optional number (`Summary.ThresholdOf`).
- IEEE-754 doubles are replaced by exact reals. The rounding of binary values and `toFixed(2)`'s decimal string are not modelled. `toFixed(2)` is taken to round half up, like `Math.round`, which agrees with it for non-negative means; its string is taken as the number it denotes.
- The order of `GROUP BY subject_id` rows in SQLite, and pandas' sorted group order, are not modelled. The model lists subjects in order of first appearance. No general property depends on that order beyond distinctness and membership; the worked example `Summary.SubjectsWeighEqually` fixes the model's own first-appearance order.
- pandas mechanics are not modelled: DataFrame construction, the `type` and `date` columns, and missing `value` or `subject` keys. Each request grade has a subject and a numeric value. A request without `grades` counts as an empty list.
- GradeFilter.BuildGradesQuery: does not state that the number of `?` placeholders equals the number of parameters as a separate count. The four cases state the whole text and parameter list, which implies it.
- Records.CreateStudent: the `extra` column holds the value itself rather than its JSON text.
- Dashboard.AvgOf: a negative mean that lies exactly on a tie rounds up here (-0.125 gives -0.12), while `toFixed(2)` rounds it away from zero (-0.13). Grade values are not range-checked, so such means can occur.
- Charts.ChartValue: the same negative-tie difference as `Dashboard.AvgOf`.

/**
 * The result-checker service: letter grading, result availability, the
 * per-exam result report and the credential check. The database is given
 * as the student table and the exam-score table, in query order.
 */
module ResultChecker {
  import opened Wrappers

  /** A student row: internal key, generated external identifier and name. */
  datatype StudentRow = StudentRow(studentId: int, studentIdGenerated: string, name: string)

  /** An exam score row joined with its subject's name. */
  datatype ExamScore = ExamScore(studentId: int, examType: string, subject: string, score: int)

  datatype Grade = A | B | C | D | F

  /** Higher is better. */
  function Rank(g: Grade): nat
  {
    match g
    case A => 4
    case B => 3
    case C => 2
    case D => 1
    case F => 0
  }

  /** The grade bands: 90 and up, 80-89, 70-79, 60-69, below 60. */
  function CalculateGrade(score: int): (g: Grade)
    ensures g == A <==> 90 <= score
    ensures g == B <==> 80 <= score < 90
    ensures g == C <==> 70 <= score < 80
    ensures g == D <==> 60 <= score < 70
    ensures g == F <==> score < 60
  {
    if score >= 90 then A
    else if score >= 80 then B
    else if score >= 70 then C
    else if score >= 60 then D
    else F
  }

  /** A higher score never earns a worse grade. */
  lemma GradeMonotone(lo: int, hi: int)
    requires lo <= hi
    ensures Rank(CalculateGrade(lo)) <= Rank(CalculateGrade(hi))
  {
  }

  /** `findFirst({ where: { studentIdGenerated: id } })`. */
  function FindStudent(students: seq<StudentRow>, id: string): (r: Option<StudentRow>)
    ensures r.None? <==> forall i :: 0 <= i < |students| ==> students[i].studentIdGenerated != id
    ensures r.Some? ==> r.value in students && r.value.studentIdGenerated == id
  {
    if students == [] then None
    else if students[0].studentIdGenerated == id then Some(students[0])
    else FindStudent(students[1..], id)
  }

  predicate Matches(s: ExamScore, studentId: int, examType: string)
  {
    s.studentId == studentId && s.examType == examType
  }

  /** `score.findMany({ where: { studentId, examType } })`, keeping table order. */
  function ScoresFor(scores: seq<ExamScore>, studentId: int, examType: string): (r: seq<ExamScore>)
    ensures |r| <= |scores|
    ensures forall i :: 0 <= i < |r| ==> Matches(r[i], studentId, examType) && r[i] in scores
    ensures forall i :: 0 <= i < |scores| && Matches(scores[i], studentId, examType) ==> scores[i] in r
    ensures forall x :: multiset(r)[x] == if Matches(x, studentId, examType) then multiset(scores)[x] else 0
  {
    if scores == [] then []
    else
      var last := scores[|scores| - 1];
      var prefix := scores[..|scores| - 1];
      assert forall i :: 0 <= i < |prefix| ==> prefix[i] == scores[i];
      var mine := if Matches(last, studentId, examType) then [last] else [];
      assert multiset(scores) == multiset(prefix) + multiset([last]) by { assert scores == prefix + [last]; }
      ScoresFor(prefix, studentId, examType) + mine
  }

  /** What `checkResultAvailability` resolves to; `resultCount` is absent for an unknown student. */
  datatype Availability = Availability(available: bool, message: string, resultCount: Option<nat>)

  function CheckResultAvailability(students: seq<StudentRow>, scores: seq<ExamScore>, id: string, examType: string)
    : (r: Availability)
    ensures FindStudent(students, id).None? ==> r == Availability(false, "Student not found", None)
    ensures FindStudent(students, id).Some? ==>
      var key := FindStudent(students, id).value.studentId;
      && (r.available <==> exists i :: 0 <= i < |scores| && Matches(scores[i], key, examType))
      && r.resultCount == Some(|ScoresFor(scores, key, examType)|)
      && r.message == if r.available then "Results available" else "Results not yet published"
  {
    match FindStudent(students, id)
    case None => Availability(false, "Student not found", None)
    case Some(student) =>
      var found := ScoresFor(scores, student.studentId, examType);
      assert found != [] ==> found[0] in scores;
      var available := |found| > 0;
      Availability(available, if available then "Results available" else "Results not yet published", Some(|found|))
  }

  datatype SubjectResult = SubjectResult(subject: string, score: int, grade: Grade)

  datatype Summary = Summary(totalSubjects: nat, totalScore: int)

  datatype StudentResults = StudentResults(
    name: string,
    studentId: string,
    examType: string,
    subjects: seq<SubjectResult>,
    summary: Summary)

  /**
   * `scores.reduce((sum, score) => sum + score.score, 0)`, a fold from the
   * first score; summing from the last score instead gives the same total.
   */
  function TotalScore(scores: seq<ExamScore>): (t: int)
    ensures scores != [] ==> t == scores[0].score + TotalScore(scores[1..])
  {
    if scores == [] then 0
    else
      var prefix := scores[..|scores| - 1];
      assert |scores| > 1 ==> scores[1..][..|scores| - 2] == prefix[1..];
      TotalScore(prefix) + scores[|scores| - 1].score
  }

  /** The total of n scores that all lie in [lo, hi] lies in [n * lo, n * hi]. */
  lemma {:induction false} TotalScoreBounds(scores: seq<ExamScore>, lo: int, hi: int)
    requires forall i :: 0 <= i < |scores| ==> lo <= scores[i].score <= hi
    ensures |scores| * lo <= TotalScore(scores) <= |scores| * hi
  {
    if scores != [] {
      var rest := scores[1..];
      assert forall i :: 0 <= i < |rest| ==> rest[i] == scores[i + 1];
      TotalScoreBounds(rest, lo, hi);
      OneMore(|rest|, lo);
      OneMore(|rest|, hi);
    }
  }

  lemma OneMore(n: nat, c: int)
    ensures (n + 1) * c == n * c + c
  {
  }

  /** `scores.map(score => ({ subject, score, grade: calculateGrade(score) }))`. */
  function Graded(scores: seq<ExamScore>): (r: seq<SubjectResult>)
    ensures |r| == |scores|
    ensures forall i :: 0 <= i < |r| ==>
      r[i].subject == scores[i].subject && r[i].score == scores[i].score && r[i].grade == CalculateGrade(scores[i].score)
  {
    if scores == [] then []
    else [SubjectResult(scores[0].subject, scores[0].score, CalculateGrade(scores[0].score))] + Graded(scores[1..])
  }

  /**
   * `getStudentResults`: every failure, the unknown student included, becomes
   * the one error "Failed to retrieve student results".
   */
  function GetStudentResults(students: seq<StudentRow>, scores: seq<ExamScore>, id: string, examType: string)
    : (r: Result<StudentResults>)
    ensures r.Failure? <==> FindStudent(students, id).None?
    ensures r.Failure? ==> r.error == "Failed to retrieve student results"
    ensures r.Success? ==>
      var student := FindStudent(students, id).value;
      var found := ScoresFor(scores, student.studentId, examType);
      && r.value.name == student.name && r.value.studentId == student.studentIdGenerated
      && r.value.examType == examType
      && |r.value.subjects| == |found|
      && (forall i :: 0 <= i < |found| ==>
            r.value.subjects[i] == SubjectResult(found[i].subject, found[i].score, CalculateGrade(found[i].score)))
      && r.value.summary == Summary(|found|, TotalScore(found))
  {
    match FindStudent(students, id)
    case None => Failure("Failed to retrieve student results")
    case Some(student) =>
      var found := ScoresFor(scores, student.studentId, examType);
      Success(StudentResults(student.name, student.studentIdGenerated, examType, Graded(found),
                             Summary(|found|, TotalScore(found))))
  }

  /**
   * Availability and the report agree: results are available exactly when
   * the report lists at least one subject, and the count is the report's.
   */
  lemma AvailabilityAgreesWithResults(students: seq<StudentRow>, scores: seq<ExamScore>, id: string, examType: string)
    ensures var a := CheckResultAvailability(students, scores, id, examType);
            var r := GetStudentResults(students, scores, id, examType);
            && (a.available <==> r.Success? && |r.value.subjects| > 0)
            && (r.Success? ==> a.resultCount == Some(r.value.summary.totalSubjects))
  {
    var r := GetStudentResults(students, scores, id, examType);
    if r.Success? {
      var key := FindStudent(students, id).value.studentId;
      var found := ScoresFor(scores, key, examType);
      if found != [] {
        assert found[0] in scores;
      }
    }
  }

  /** `validateStudentCredentials`: true exactly for a known identifier; `dob` plays no part. */
  function ValidateStudentCredentials(students: seq<StudentRow>, id: string, dob: Option<string>): (ok: bool)
    ensures ok <==> exists i :: 0 <= i < |students| && students[i].studentIdGenerated == id
  {
    FindStudent(students, id).Some?
  }
}

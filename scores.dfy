/**
 * The score controller: listing a student's scores, the add-or-update of a
 * (student, class) score row, and the figures behind a student's average.
 */
module Scores {
  import opened Wrappers

  /** A row of the score table. */
  datatype ScoreRow = ScoreRow(
    id: nat,
    studentId: int,
    classId: int,
    caScore: int,
    examScore: int,
    finalScore: int,
    remarks: Option<string>)

  /** The JSON body of `create`; a key that is absent is `None`. */
  datatype ScoreRequest = ScoreRequest(
    studentId: Option<int>,
    classId: Option<int>,
    caScore: int,
    examScore: int,
    remarks: Option<string>)

  /** JavaScript falsiness of a numeric body field: absent or zero. */
  predicate Falsy(v: Option<int>)
  {
    v.None? || v.value == 0
  }

  predicate HasKey(row: ScoreRow, studentId: int, classId: int)
  {
    row.studentId == studentId && row.classId == classId
  }

  /** At most one row per (student, class) pair. */
  ghost predicate KeysUnique(rows: seq<ScoreRow>)
  {
    forall i, j :: 0 <= i < j < |rows| ==> !HasKey(rows[j], rows[i].studentId, rows[i].classId)
  }

  /** Every stored final score is the sum of its two parts. */
  ghost predicate FinalIsSum(rows: seq<ScoreRow>)
  {
    forall i :: 0 <= i < |rows| ==> rows[i].finalScore == rows[i].caScore + rows[i].examScore
  }

  /** Row ids are distinct and below the next id to hand out. */
  ghost predicate IdsValid(rows: seq<ScoreRow>, nextId: nat)
  {
    && (forall i :: 0 <= i < |rows| ==> rows[i].id < nextId)
    && (forall i, j :: 0 <= i < j < |rows| ==> rows[i].id != rows[j].id)
  }

  /** The position of `findFirst({ where: { student_id, class_id } })`. */
  function FindRow(rows: seq<ScoreRow>, studentId: int, classId: int): (i: Option<nat>)
    ensures i.None? <==> forall j :: 0 <= j < |rows| ==> !HasKey(rows[j], studentId, classId)
    ensures i.Some? ==>
      && i.value < |rows| && HasKey(rows[i.value], studentId, classId)
      && forall j :: 0 <= j < i.value ==> !HasKey(rows[j], studentId, classId)
  {
    if rows == [] then None
    else if HasKey(rows[0], studentId, classId) then Some(0)
    else match FindRow(rows[1..], studentId, classId)
      case None => None
      case Some(i) => Some(i + 1)
  }

  /**
   * The table after a successful `create`: the matching row has its scores
   * and remarks overwritten in place, or a new row with the next id is
   * appended.
   */
  function Upsert(rows: seq<ScoreRow>, nextId: nat, studentId: int, classId: int,
                  caScore: int, examScore: int, remarks: Option<string>): (after: seq<ScoreRow>)
    ensures |after| == if FindRow(rows, studentId, classId).Some? then |rows| else |rows| + 1
    ensures forall j :: 0 <= j < |rows| ==> after[j].id == rows[j].id
    ensures exists j ::
      && 0 <= j < |after|
      && after[j] == ScoreRow(after[j].id, studentId, classId, caScore, examScore, caScore + examScore, remarks)
  {
    var finalScore := caScore + examScore;
    match FindRow(rows, studentId, classId)
    case Some(i) =>
      var after := rows[i := rows[i].(caScore := caScore, examScore := examScore, finalScore := finalScore, remarks := remarks)];
      assert after[i] == ScoreRow(after[i].id, studentId, classId, caScore, examScore, finalScore, remarks);
      after
    case None =>
      var after := rows + [ScoreRow(nextId, studentId, classId, caScore, examScore, finalScore, remarks)];
      assert after[|rows|] == ScoreRow(nextId, studentId, classId, caScore, examScore, finalScore, remarks);
      after
  }

  /**
   * What the upsert does to each row: an existing row for the pair keeps its
   * id and keys and takes the new scores; otherwise exactly one row is
   * appended; rows of other pairs are untouched.
   */
  lemma UpsertEffect(rows: seq<ScoreRow>, nextId: nat, studentId: int, classId: int,
                     caScore: int, examScore: int, remarks: Option<string>)
    ensures var after := Upsert(rows, nextId, studentId, classId, caScore, examScore, remarks);
      && (forall j :: 0 <= j < |rows| && !HasKey(rows[j], studentId, classId) ==> after[j] == rows[j])
      && ((exists j :: 0 <= j < |rows| && HasKey(rows[j], studentId, classId)) ==>
            && |after| == |rows|
            && var i := FindRow(rows, studentId, classId).value;
               after[i] == ScoreRow(rows[i].id, studentId, classId, caScore, examScore, caScore + examScore, remarks))
      && ((forall j :: 0 <= j < |rows| ==> !HasKey(rows[j], studentId, classId)) ==>
            after == rows + [ScoreRow(nextId, studentId, classId, caScore, examScore, caScore + examScore, remarks)])
  {
  }

  /** The upsert keeps "one row per pair", and afterwards the pair has a row. */
  lemma {:induction false} UpsertKeepsKeysUnique(rows: seq<ScoreRow>, nextId: nat, studentId: int, classId: int,
                                                caScore: int, examScore: int, remarks: Option<string>)
    requires KeysUnique(rows)
    ensures var after := Upsert(rows, nextId, studentId, classId, caScore, examScore, remarks);
      && KeysUnique(after)
      && exists j :: 0 <= j < |after| && HasKey(after[j], studentId, classId)
  {
    var after := Upsert(rows, nextId, studentId, classId, caScore, examScore, remarks);
    match FindRow(rows, studentId, classId)
    case Some(i) =>
      assert forall j :: 0 <= j < |after| ==> after[j].studentId == rows[j].studentId && after[j].classId == rows[j].classId;
      assert HasKey(after[i], studentId, classId);
    case None =>
      assert after[..|rows|] == rows;
      assert HasKey(after[|rows|], studentId, classId);
  }

  /** The upsert keeps ids distinct: it either keeps every id or appends the next one. */
  lemma UpsertKeepsIdsValid(rows: seq<ScoreRow>, nextId: nat, studentId: int, classId: int,
                            caScore: int, examScore: int, remarks: Option<string>)
    requires IdsValid(rows, nextId)
    ensures var found := FindRow(rows, studentId, classId).Some?;
      IdsValid(Upsert(rows, nextId, studentId, classId, caScore, examScore, remarks), if found then nextId else nextId + 1)
  {
  }

  /** The upsert keeps "final score = CA score + exam score" for every row. */
  lemma UpsertKeepsFinalIsSum(rows: seq<ScoreRow>, nextId: nat, studentId: int, classId: int,
                              caScore: int, examScore: int, remarks: Option<string>)
    requires FinalIsSum(rows)
    ensures FinalIsSum(Upsert(rows, nextId, studentId, classId, caScore, examScore, remarks))
  {
  }

  /** `findMany({ where: { student_id } })`, in table order. */
  function RowsOf(rows: seq<ScoreRow>, studentId: int): (r: seq<ScoreRow>)
    ensures |r| <= |rows|
    ensures forall i :: 0 <= i < |r| ==> r[i].studentId == studentId && r[i] in rows
    ensures forall i :: 0 <= i < |rows| && rows[i].studentId == studentId ==> rows[i] in r
    ensures forall x :: multiset(r)[x] == if x.studentId == studentId then multiset(rows)[x] else 0
  {
    if rows == [] then []
    else
      var last := rows[|rows| - 1];
      var prefix := rows[..|rows| - 1];
      assert forall i :: 0 <= i < |prefix| ==> prefix[i] == rows[i];
      var mine := if last.studentId == studentId then [last] else [];
      assert multiset(rows) == multiset(prefix) + multiset([last]) by { assert rows == prefix + [last]; }
      RowsOf(prefix, studentId) + mine
  }

  /**
   * `scores.reduce((sum, score) => sum + score.final_score, 0)`, a fold from
   * the first row; summing from the last row instead gives the same total.
   */
  function TotalFinal(rows: seq<ScoreRow>): (t: int)
    ensures rows != [] ==> t == rows[0].finalScore + TotalFinal(rows[1..])
  {
    if rows == [] then 0
    else
      var prefix := rows[..|rows| - 1];
      assert |rows| > 1 ==> rows[1..][..|rows| - 2] == prefix[1..];
      TotalFinal(prefix) + rows[|rows| - 1].finalScore
  }

  function TotalCa(rows: seq<ScoreRow>): int
  {
    if rows == [] then 0 else TotalCa(rows[..|rows| - 1]) + rows[|rows| - 1].caScore
  }

  function TotalExam(rows: seq<ScoreRow>): int
  {
    if rows == [] then 0 else TotalExam(rows[..|rows| - 1]) + rows[|rows| - 1].examScore
  }

  /** Where every row keeps its final score as the sum, the final total is the CA total plus the exam total. */
  lemma {:induction false} TotalFinalSplits(rows: seq<ScoreRow>)
    requires FinalIsSum(rows)
    ensures TotalFinal(rows) == TotalCa(rows) + TotalExam(rows)
  {
    if rows != [] {
      var prefix := rows[..|rows| - 1];
      assert forall i :: 0 <= i < |prefix| ==> prefix[i] == rows[i];
      TotalFinalSplits(prefix);
    }
  }

  /**
   * The outcome of `average`: `NoScores` is the 404 "No scores found for this
   * student"; otherwise 200 with the quotient total / count.
   */
  datatype AverageResult = NoScores | Quotient(total: int, count: nat)

  function Average(rows: seq<ScoreRow>, studentId: int): (r: AverageResult)
    ensures r.NoScores? <==> forall i :: 0 <= i < |rows| ==> rows[i].studentId != studentId
    ensures r.Quotient? ==> r.count == |RowsOf(rows, studentId)| > 0 && r.total == TotalFinal(RowsOf(rows, studentId))
  {
    var mine := RowsOf(rows, studentId);
    if |mine| == 0 then NoScores
    else
      assert mine[0] in rows;
      Quotient(TotalFinal(mine), |mine|)
  }

  /** The score table that `create` reads and writes. */
  class ScoreTable {
    var rows: seq<ScoreRow>
    var nextId: nat

    ghost predicate Valid()
      reads this
    {
      IdsValid(rows, nextId)
    }

    constructor ()
      ensures Valid() && rows == [] && nextId == 1
    {
      rows, nextId := [], 1;
    }

    /**
     * `create`: 400 when either key is falsy, with the table untouched;
     * otherwise the upsert, and 201 with the saved row. Ids are distinct, so
     * the update "where id = existing.id" changes exactly the found row.
     */
    method Create(req: ScoreRequest) returns (status: int, message: string, saved: Option<ScoreRow>)
      requires Valid()
      modifies this
      ensures Valid()
      ensures status == 400 <==> Falsy(req.studentId) || Falsy(req.classId)
      ensures status == 400 ==>
        && message == "Student ID and Class ID are required" && saved.None?
        && rows == old(rows) && nextId == old(nextId)
      ensures status != 400 ==>
        && status == 201 && message == "Score saved successfully"
        && rows == Upsert(old(rows), old(nextId), req.studentId.value, req.classId.value,
                          req.caScore, req.examScore, req.remarks)
        && saved.Some? && saved.value in rows
        && HasKey(saved.value, req.studentId.value, req.classId.value)
        && saved.value.finalScore == req.caScore + req.examScore
      ensures KeysUnique(old(rows)) ==> KeysUnique(rows)
      ensures FinalIsSum(old(rows)) ==> FinalIsSum(rows)
    {
      if Falsy(req.studentId) || Falsy(req.classId) {
        return 400, "Student ID and Class ID are required", None;
      }
      var studentId, classId := req.studentId.value, req.classId.value;
      var finalScore := req.caScore + req.examScore;
      ghost var after := Upsert(rows, nextId, studentId, classId, req.caScore, req.examScore, req.remarks);
      UpsertKeepsIdsValid(rows, nextId, studentId, classId, req.caScore, req.examScore, req.remarks);
      if KeysUnique(rows) {
        UpsertKeepsKeysUnique(rows, nextId, studentId, classId, req.caScore, req.examScore, req.remarks);
      }
      if FinalIsSum(rows) {
        UpsertKeepsFinalIsSum(rows, nextId, studentId, classId, req.caScore, req.examScore, req.remarks);
      }
      var existing := FindRow(rows, studentId, classId);
      var score: ScoreRow;
      if existing.Some? {
        var i := existing.value;
        score := rows[i].(caScore := req.caScore, examScore := req.examScore, finalScore := finalScore,
                          remarks := req.remarks);
        rows := rows[i := score];
        assert rows == after && rows[i] == score;
      } else {
        score := ScoreRow(nextId, studentId, classId, req.caScore, req.examScore, finalScore, req.remarks);
        rows := rows + [score];
        nextId := nextId + 1;
        assert rows == after && rows[|rows| - 1] == score;
      }
      return 201, "Score saved successfully", Some(score);
    }
  }
}

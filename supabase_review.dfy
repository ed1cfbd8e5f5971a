/**
 * The database-backed review submission: fetch or create the person's
 * profile row, insert the review, then write back the profile's total score
 * and review count. A row is reduced to its integer columns; a column that
 * is absent reads as `undefined`, which `|| 0` turns into 0.
 *
 * The submission as written reads the camel-case fields of the raw row,
 * which the table does not have, so the stored total restarts from 0 on
 * every review. `SubmitReviewAsWritten` models that; `SubmitReview` reads
 * the table's own columns, as the write-back and every other reader do.
 */
module SupabaseStore {
  import opened Types
  import Constants

  /** The integer columns of a `person_profiles` row, by name. */
  type Row = map<string, int>

  const TOTAL_SCORE := "total_score"
  const REVIEW_COUNT := "review_count"
  const ID := "id"

  /** The integer columns the table has. */
  const INT_COLUMNS: set<string> := {ID, TOTAL_SCORE, REVIEW_COUNT}

  /** A row as the table returns it: only the table's own columns. */
  predicate TableRow(row: Row)
  {
    forall k :: k in row ==> k in INT_COLUMNS
  }

  /** `row.<name> || 0`: an absent column reads as 0. */
  function Column(row: Row, name: string): (v: int)
    ensures name in row ==> v == row[name]
    ensures name !in row ==> v == 0
  {
    if name in row then row[name] else 0
  }

  /** `calculateReputationLevel`: the level of a total score. */
  function CalculateReputationLevel(score: int): (r: ReputationLevel)
    ensures r == Constants.CalculateReputation(score)
    ensures r == ReputationLevel.Positive <==> score > 0
    ensures r == Risk <==> score <= -3
  {
    if score > 0 then ReputationLevel.Positive
    else if score > -3 then Warning
    else Risk
  }

  /** The row inserted for a person seen for the first time. */
  function NewRow(): (row: Row)
    ensures TableRow(row)
    ensures Column(row, TOTAL_SCORE) == 0 && Column(row, REVIEW_COUNT) == 0
  {
    map[TOTAL_SCORE := 0, REVIEW_COUNT := 0]
  }

  /** Whether each of the four database calls of a submission succeeds. */
  datatype Responses = Responses(lookupOk: bool, createOk: bool, insertOk: bool, updateOk: bool)

  /** What a submission leaves behind: its boolean answer and the person's profile row, if one exists. */
  datatype Submission = Submission(success: bool, row: Option<Row>)

  /** The profile row the submission works on: the existing one, or the one it creates. */
  function Fetched(existing: Option<Row>): (row: Row)
    ensures existing.Some? ==> row == existing.value
    ensures existing.None? ==> row == NewRow()
  {
    if existing.Some? then existing.value else NewRow()
  }

  /** The pair of values written back, as the code computes it: from the camel-case fields. */
  function UpdatedAsWritten(row: Row, score: int): (int, int)
  {
    (Column(row, "totalScore") + score, Column(row, "reviewCount") + 1)
  }

  /** The pair of values written back, read from the table's own columns. */
  function Updated(row: Row, score: int): (int, int)
  {
    (Column(row, TOTAL_SCORE) + score, Column(row, REVIEW_COUNT) + 1)
  }

  /** The `update` of the two columns; every other column is kept. */
  function Store(row: Row, totals: (int, int)): (r: Row)
    ensures Column(r, TOTAL_SCORE) == totals.0 && Column(r, REVIEW_COUNT) == totals.1
    ensures forall k :: k in row && k != TOTAL_SCORE && k != REVIEW_COUNT ==> k in r && r[k] == row[k]
    ensures TableRow(row) ==> TableRow(r)
  {
    row[TOTAL_SCORE := totals.0][REVIEW_COUNT := totals.1]
  }

  /**
   * `submitReview`, with the write-back computed from the table's columns
   * (`corrected`) or from the camel-case fields (as written). A failed lookup
   * or creation throws and answers false; a failed review insert answers
   * false; a failed write-back still answers true and leaves the row as it was.
   */
  function SubmitWith(existing: Option<Row>, score: int, db: Responses, corrected: bool): Submission
  {
    if !db.lookupOk then Submission(false, existing)
    else if existing.None? && !db.createOk then Submission(false, None)
    else
      var row := Fetched(existing);
      if !db.insertOk then Submission(false, Some(row))
      else
        var totals := if corrected then Updated(row, score) else UpdatedAsWritten(row, score);
        Submission(true, Some(if db.updateOk then Store(row, totals) else row))
  }

  /** The submission answers true exactly when the profile was obtained and the review inserted. */
  predicate Accepted(existing: Option<Row>, db: Responses)
  {
    db.lookupOk && (existing.Some? || db.createOk) && db.insertOk
  }

  /** The source's `submitReview` as written: the stored total is the new score alone. */
  function SubmitReviewAsWritten(existing: Option<Row>, score: int, db: Responses): (r: Submission)
    requires existing.Some? ==> TableRow(existing.value)
    ensures r.success <==> Accepted(existing, db)
    ensures r.success && db.updateOk ==>
      r.row.Some? && Column(r.row.value, TOTAL_SCORE) == score && Column(r.row.value, REVIEW_COUNT) == 1
  {
    AsWrittenForgets(Fetched(existing), score);
    SubmitWith(existing, score, db, false)
  }

  /**
   * `submitReview` reading the stored totals: an accepted, written-back
   * review adds its score to the total and one to the count; otherwise the
   * profile columns are those the call found or created.
   */
  function SubmitReview(existing: Option<Row>, score: int, db: Responses): (r: Submission)
    ensures r.success <==> Accepted(existing, db)
    ensures r.success && db.updateOk ==>
      && r.row.Some?
      && Column(r.row.value, TOTAL_SCORE) == Column(Fetched(existing), TOTAL_SCORE) + score
      && Column(r.row.value, REVIEW_COUNT) == Column(Fetched(existing), REVIEW_COUNT) + 1
    ensures !(r.success && db.updateOk) ==>
      r.row == (if !db.lookupOk || (existing.None? && !db.createOk) then existing else Some(Fetched(existing)))
    ensures (existing.Some? ==> TableRow(existing.value)) && r.row.Some? ==> TableRow(r.row.value)
  {
    SubmitWith(existing, score, db, true)
  }

  /** On a row the table returned, the code as written reads 0 for both fields whatever is stored. */
  lemma AsWrittenForgets(row: Row, score: int)
    requires TableRow(row)
    ensures UpdatedAsWritten(row, score) == (score, 1)
  {
    assert "totalScore" !in INT_COLUMNS;
    assert "reviewCount" !in INT_COLUMNS;
  }

  /**
   * A profile at -8 over three reviews gets a +2 review: as written it is
   * stored as 2 over one review and shown as Positive; read from its columns
   * it is -6 over four reviews and stays at Risk.
   */
  lemma AsWrittenCounterexample()
    ensures var row := map[ID := 7, TOTAL_SCORE := -8, REVIEW_COUNT := 3];
      var ok := Responses(true, true, true, true);
      && SubmitReviewAsWritten(Some(row), 2, ok).row == Some(Store(row, (2, 1)))
      && SubmitReview(Some(row), 2, ok).row == Some(Store(row, (-6, 4)))
      && CalculateReputationLevel(2) == ReputationLevel.Positive
      && CalculateReputationLevel(-6) == Risk
  {
    var row := map[ID := 7, TOTAL_SCORE := -8, REVIEW_COUNT := 3];
    AsWrittenForgets(row, 2);
    assert Updated(row, 2) == (-6, 4);
  }

  /** The rows a run of fully successful submissions goes through, starting from `start`. */
  function SubmitAll(start: Option<Row>, scores: seq<int>, corrected: bool): Option<Row>
  {
    if scores == [] then start
    else
      var before := SubmitAll(start, scores[..|scores| - 1], corrected);
      SubmitWith(before, scores[|scores| - 1], Responses(true, true, true, true), corrected).row
  }

  function Sum(scores: seq<int>): int
  {
    if scores == [] then 0 else Sum(scores[..|scores| - 1]) + scores[|scores| - 1]
  }

  /**
   * Read from its columns, a person reviewed for the first time and then
   * again holds the sum of all the scores over as many reviews, and the
   * level that sum calls for.
   */
  lemma {:induction false} SubmitAllAccumulates(scores: seq<int>)
    requires scores != []
    ensures SubmitAll(None, scores, true).Some?
    ensures TableRow(SubmitAll(None, scores, true).value)
    ensures Column(SubmitAll(None, scores, true).value, TOTAL_SCORE) == Sum(scores)
    ensures Column(SubmitAll(None, scores, true).value, REVIEW_COUNT) == |scores|
  {
    var init := scores[..|scores| - 1];
    if init != [] {
      SubmitAllAccumulates(init);
    }
  }

  /** As written, after any run of successful submissions only the last score is kept, over one review. */
  lemma {:induction false} SubmitAllAsWrittenKeepsLast(scores: seq<int>)
    requires scores != []
    ensures SubmitAll(None, scores, false).Some?
    ensures TableRow(SubmitAll(None, scores, false).value)
    ensures Column(SubmitAll(None, scores, false).value, TOTAL_SCORE) == scores[|scores| - 1]
    ensures Column(SubmitAll(None, scores, false).value, REVIEW_COUNT) == 1
  {
    var init := scores[..|scores| - 1];
    if init != [] {
      SubmitAllAsWrittenKeepsLast(init);
    }
    AsWrittenForgets(Fetched(SubmitAll(None, init, false)), scores[|scores| - 1]);
  }

  /** Read from its columns, two successful submissions add up, in either order. */
  lemma TwoSubmissionsAccumulate(row: Row, s1: int, s2: int)
    ensures var ok := Responses(true, true, true, true);
      var once := SubmitReview(Some(row), s1, ok).row.value;
      var twice := SubmitReview(Some(once), s2, ok).row.value;
      && Column(twice, TOTAL_SCORE) == Column(row, TOTAL_SCORE) + s1 + s2
      && Column(twice, REVIEW_COUNT) == Column(row, REVIEW_COUNT) + 2
  {
  }
}

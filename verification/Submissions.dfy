// The submissions table: what update_status writes and what handle_get_submission reads back.
module Submissions {
  import opened Common

  datatype Status = PENDING | JUDGING | AC | WA | CE | RE | TLE | MLE

  predicate IsVerdict(status: Status) { status != PENDING && status != JUDGING }

  // PENDING < JUDGING < verdict.
  function Rank(status: Status): nat {
    if status == PENDING then 0 else if status == JUDGING then 1 else 2
  }

  // One row. None is SQL NULL.
  datatype Row = Row(userId: int, problemId: int, code: string, status: Status,
                     failedCase: Option<int>, errorMsg: Option<string>,
                     timeUsed: Option<int>, memoryUsed: Option<int>)

  // The row as inserted: pending, with no result column set.
  function NewRow(userId: int, problemId: int, code: string): Row {
    Row(userId, problemId, code, PENDING, None, None, None, None)
  }

  // The arguments of update_status.
  datatype Update = Update(status: Status, failedCase: int, errorMsg: string, timeUsed: int, memoryUsed: int)

  const MARK_JUDGING := Update(JUDGING, 0, "", 0, 0)

  // The row after the UPDATE statement: only positive numbers and non-empty text are written.
  function Written(row: Row, u: Update): Row {
    row.(status := u.status,
         failedCase := if u.failedCase > 0 then Some(u.failedCase) else row.failedCase,
         errorMsg := if u.errorMsg != "" then Some(u.errorMsg) else row.errorMsg,
         timeUsed := if u.timeUsed > 0 then Some(u.timeUsed) else row.timeUsed,
         memoryUsed := if u.memoryUsed > 0 then Some(u.memoryUsed) else row.memoryUsed)
  }

  function IntOr0(column: Option<int>): int { if column.Some? then column.value else 0 }

  // What handle_get_submission reports: NULL reads as 0 or as empty text.
  function ReadBack(row: Row): Update {
    Update(row.status, IntOr0(row.failedCase), if row.errorMsg.Some? then row.errorMsg.value else "",
           IntOr0(row.timeUsed), IntOr0(row.memoryUsed))
  }

  // No result column has been written yet.
  predicate Blank(row: Row) {
    row.failedCase.None? && row.errorMsg.None? && row.timeUsed.None? && row.memoryUsed.None?
  }

  // An update whose numbers are not negative, which is all judge ever sends.
  predicate NonNegative(u: Update) { u.failedCase >= 0 && u.timeUsed >= 0 && u.memoryUsed >= 0 }

  // Column by column: a first verdict is stored under the names of update_status's arguments, and
  // each field of the answer is read from the column of its name.
  lemma ColumnsByName(row: Row, u: Update)
    requires Blank(row) && NonNegative(u)
    ensures var r := Written(row, u);
      && r.status == u.status && r.userId == row.userId && r.problemId == row.problemId && r.code == row.code
      && r.failedCase == (if u.failedCase == 0 then None else Some(u.failedCase))
      && r.errorMsg == (if u.errorMsg == "" then None else Some(u.errorMsg))
      && r.timeUsed == (if u.timeUsed == 0 then None else Some(u.timeUsed))
      && r.memoryUsed == (if u.memoryUsed == 0 then None else Some(u.memoryUsed))
    ensures forall s: Row ::
      && ReadBack(s).status == s.status
      && (s.failedCase.Some? ==> ReadBack(s).failedCase == s.failedCase.value)
      && (s.errorMsg.Some? ==> ReadBack(s).errorMsg == s.errorMsg.value)
      && (s.timeUsed.Some? ==> ReadBack(s).timeUsed == s.timeUsed.value)
      && (s.memoryUsed.Some? ==> ReadBack(s).memoryUsed == s.memoryUsed.value)
    ensures Blank(row) <==> row == Row(row.userId, row.problemId, row.code, row.status, None, None, None, None)
    ensures Written(row, MARK_JUDGING) == row.(status := JUDGING)
  {}

  // The order of the statuses.
  lemma RankIs(status: Status)
    ensures Rank(PENDING) < Rank(JUDGING)
    ensures status != PENDING && status != JUDGING <==> Rank(JUDGING) < Rank(status)
  {}

  // A new row is pending, with the user, the problem and the code of the request and nothing else.
  lemma NewRowIs(userId: int, problemId: int, code: string)
    ensures var r := NewRow(userId, problemId, code);
      r.status == PENDING && Blank(r) && r.userId == userId && r.problemId == problemId && r.code == code
  {}

  // The first verdict reads back exactly as it was sent, whether or not the JUDGING update
  // before it arrived.
  lemma FirstVerdictReadsBack(row: Row, u: Update)
    requires Blank(row) && NonNegative(u)
    ensures ReadBack(Written(row, u)) == u
    ensures Blank(Written(row, MARK_JUDGING))
    ensures ReadBack(Written(Written(row, MARK_JUDGING), u)) == u
  {}
}

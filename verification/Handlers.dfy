// handle_submit and handle_get_submission, run by one request thread on the real objects: the
// rate limiter, the submissions table and the judge queue.
module Handlers {
  import opened Common
  import opened Submissions
  import opened RateLimiter
  import opened TestCases
  import opened Executor
  import opened ExecutorService

  // The parts of a submit request, after authentication and JSON parsing.
  datatype SubmitRequest = SubmitRequest(userId: int, parsed: bool, problemId: int, code: string)

  // What the database answers, and the limits read by get_problem_detail.
  datatype Database = Database(problemFound: bool, connected: bool, inserted: bool, timeLimit: int, memoryLimit: int)

  class Server {
    const limiter: Limiter
    const service: Service
    const maxCodeSize: nat
    var rows: seq<Row>

    constructor(limiter: Limiter, service: Service, maxCodeSize: nat)
      ensures this.limiter == limiter && this.service == service && this.maxCodeSize == maxCodeSize && rows == []
    {
      this.limiter, this.service, this.maxCodeSize, rows := limiter, service, maxCodeSize, [];
    }

    predicate Acceptable(q: SubmitRequest) {
      q.userId > 0 && q.parsed && q.problemId > 0 && q.code != "" && |q.code| <= maxCodeSize
    }

    // The request gets past the rate limiter.
    predicate Admitted(q: SubmitRequest, now: int, last: map<int, int>) {
      Acceptable(q) && Allowed(last, Call(q.userId, now), limiter.window)
    }

    // handle_submit. A row exists exactly for the answers 202 and 503, a task exactly for 202;
    // every request that passes the checks before the limiter uses up its token, even when it
    // then fails with 404 or 500.
    method HandleSubmit(q: SubmitRequest, now: int, db: Database) returns (status: int)
      requires service.Valid() && service.holder.None?
      modifies this`rows, limiter, service
      ensures service.Valid() && status in {202, 400, 401, 404, 413, 429, 500, 503}
      ensures status == 401 <==> q.userId <= 0
      ensures status == 400 <==> q.userId > 0 && (!q.parsed || q.problemId <= 0 || q.code == "")
      ensures status == 413 <==> q.userId > 0 && q.parsed && q.problemId > 0 && |q.code| > maxCodeSize
      ensures status == 429 <==> Acceptable(q) && !Allowed(old(limiter.lastSubmit), Call(q.userId, now), limiter.window)
      ensures status == 404 <==> Admitted(q, now, old(limiter.lastSubmit)) && !db.problemFound
      ensures status == 500 <==>
        Admitted(q, now, old(limiter.lastSubmit)) && db.problemFound && !(db.connected && db.inserted)
      ensures status == 503 <==>
        Admitted(q, now, old(limiter.lastSubmit)) && db.problemFound && db.connected && db.inserted
        && |old(service.queue)| >= Capacity(service.maxQueue)
      ensures service.maxQueue >= 0 && status == 202 ==> |old(service.queue)| < service.maxQueue
      ensures service.maxQueue >= 0 && status == 503 ==> |old(service.queue)| >= service.maxQueue
      ensures limiter.lastSubmit == if Acceptable(q)
                                    then Noted(old(limiter.lastSubmit), Call(q.userId, now), limiter.window)
                                    else old(limiter.lastSubmit)
      ensures rows == if status in {202, 503} then old(rows) + [NewRow(q.userId, q.problemId, q.code)] else old(rows)
      ensures service.queue == if status == 202
        then old(service.queue) + [SubmitTask(|old(rows)|, q.problemId, q.userId, q.code, db.timeLimit, db.memoryLimit)]
        else old(service.queue)
      ensures status != 202 ==> service.View() == old(service.View())
      ensures status == 202 ==>
        var task := SubmitTask(|old(rows)|, q.problemId, q.userId, q.code, db.timeLimit, db.memoryLimit);
        Notified(TryEnqueue(old(service.View()), task), service.View())
    {
      CapacityIs(service.maxQueue);
      if q.userId <= 0 { return 401; }
      if !q.parsed { return 400; }
      if q.problemId <= 0 || q.code == "" { return 400; }
      if |q.code| > maxCodeSize { return 413; }
      var ok := limiter.Check(Call(q.userId, now));
      if !ok { return 429; }
      if !db.problemFound { return 404; }
      if !db.connected { return 500; }
      if !db.inserted { return 500; }
      var submissionId := |rows|;
      rows := rows + [NewRow(q.userId, q.problemId, q.code)];
      var queued := service.Enqueue(
        SubmitTask(submissionId, q.problemId, q.userId, q.code, db.timeLimit, db.memoryLimit));
      if !queued { return 503; }
      return 202;
    }

    // handle_get_submission. The failed case is shown only for a positive failed_case, and left
    // out when its own query fails.
    method HandleGetSubmission(userId: int, id: nat, connected: bool, answered: bool,
                               listing: seq<TestCase>, casesAnswered: bool, ghost table: set<TestCase>)
      returns (status: int, shown: Option<Update>, failed: Option<(string, string)>)
      requires id < |rows| ==> IsListing(listing, table, rows[id].problemId)
      ensures status in {200, 401, 404, 500}
      ensures status == 200 <==>
        userId > 0 && connected && answered && id < |rows| && rows[id].userId == userId
      ensures status == 404 <==>
        userId > 0 && connected && answered && !(id < |rows| && rows[id].userId == userId)
      ensures shown == if status == 200 then Some(ReadBack(rows[id])) else None
      ensures failed.Some? <==> status == 200 && ReadBack(rows[id]).failedCase > 0 && casesAnswered
      ensures failed.Some? ==> var n := ReadBack(rows[id]).failedCase - 1;
        failed.value == CaseAtOffset(listing, n + 1)
        && forall c :: c in OfProblem(table, rows[id].problemId) && |Earlier(table, rows[id].problemId, c)| == n ==>
             failed.value == (c.input, c.expected)
    {
      shown, failed := None, None;
      if userId <= 0 { status := 401; return; }
      if !connected { status := 500; return; }
      if !answered { status := 500; return; }
      if id >= |rows| || rows[id].userId != userId { status := 404; return; }
      var row := rows[id];
      var failedCase := if row.failedCase.Some? then row.failedCase.value else 0;
      shown := Some(Update(row.status, failedCase, if row.errorMsg.Some? then row.errorMsg.value else "",
                           if row.timeUsed.Some? then row.timeUsed.value else 0,
                           if row.memoryUsed.Some? then row.memoryUsed.value else 0));
      if failedCase > 0 {
        if casesAnswered {
          var offset := failedCase - 1;
          RankedCase(listing, table, row.problemId, offset);
          failed := Some(if offset < |listing| then (listing[offset].input, listing[offset].expected) else ("", ""));
        }
      }
      status := 200;
    }
  }

  // The case with so many cases before it is the one at that offset.
  lemma RankedCase(listing: seq<TestCase>, table: set<TestCase>, problemId: int, n: nat)
    requires IsListing(listing, table, problemId)
    ensures forall c :: c in OfProblem(table, problemId) && |Earlier(table, problemId, c)| == n ==>
      n < |listing| && listing[n] == c
  {
    forall c | c in OfProblem(table, problemId) && |Earlier(table, problemId, c)| == n
      ensures n < |listing| && listing[n] == c
    {
      assert c in listing;
      var k :| 0 <= k < |listing| && listing[k] == c;
      PositionIsRank(listing, table, problemId, k);
    }
  }
}

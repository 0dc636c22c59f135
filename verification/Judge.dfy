// judge and update_status of ExecutorService: which verdict a submission gets, and how
// the verdict reaches the submissions table.
module Judge {
  import opened Common
  import opened Submissions
  import opened TestCases
  import opened Trim

  // What run_sandbox returns for one case.
  datatype Run = Run(ret: int, output: string, error: string, timeMs: int, memKb: int)

  // What the world answers while one task is judged: the file system, the compiler, the
  // pool, MySQL, and one sandbox run of the program under its time limit per listed case.
  datatype World = World(program: string, timeLimit: int, sourceWritten: bool, compiled: bool, compileError: string,
                         connected: bool, queried: bool, stored: bool,
                         cases: seq<TestCase>, runs: seq<Run>)
  {
    ghost predicate Valid() {
      && |runs| == |cases|
      && (forall k :: 0 <= k < |runs| ==> runs[k].timeMs >= 0 && runs[k].memKb >= 0)
    }

    predicate CasesLoaded() { sourceWritten && compiled && connected && queried && stored }

    // The answers are about this program, and the listed cases are the problem's in the table
    // that judge's query found.
    ghost predicate About(code: string, problemId: int, table: Option<set<TestCase>>) {
      program == code && (CasesLoaded() ==> table.Some? && IsListing(cases, table.value, problemId))
    }
  }

  // ---- Declarative meaning of a verdict ----

  // A run passes when the sandbox reports none of its failure codes and the outputs agree
  // line by line after trimming.
  ghost predicate Passes(c: TestCase, r: Run) {
    r.ret != -1 && r.ret != 1 && r.ret != 2 && SameLines(r.output, c.expected)
  }

  ghost predicate IsMax(m: int, values: seq<int>) {
    && 0 <= m
    && (forall k :: 0 <= k < |values| ==> values[k] <= m)
    && (m == 0 || m in values)
  }

  function Times(runs: seq<Run>): seq<int> { seq(|runs|, k requires 0 <= k < |runs| => runs[k].timeMs) }

  function Memories(runs: seq<Run>): seq<int> { seq(|runs|, k requires 0 <= k < |runs| => runs[k].memKb) }

  ghost predicate FirstFailure(cases: seq<TestCase>, runs: seq<Run>, k: nat)
    requires |cases| == |runs|
  {
    && k < |cases| && !Passes(cases[k], runs[k])
    && (forall j :: 0 <= j < k ==> Passes(cases[j], runs[j]))
  }

  function FailureStatus(ret: int): Status {
    if ret == -1 then RE else if ret == 1 then TLE else if ret == 2 then MLE else WA
  }

  ghost predicate RightVerdict(cases: seq<TestCase>, runs: seq<Run>, u: Update)
    requires |cases| == |runs|
  {
    if forall k :: 0 <= k < |cases| ==> Passes(cases[k], runs[k]) then
      u.status == AC && u.failedCase == 0 && u.errorMsg == ""
      && IsMax(u.timeUsed, Times(runs)) && IsMax(u.memoryUsed, Memories(runs))
    else
      exists k: nat :: FirstFailure(cases, runs, k)
        && u == Update(FailureStatus(runs[k].ret), k + 1, if runs[k].ret == -1 then runs[k].error else "",
                       runs[k].timeMs, runs[k].memKb)
  }

  // The verdict of a whole task, whatever goes wrong on the way.
  ghost predicate RightOutcome(w: World, u: Update)
    requires w.Valid()
  {
    if !w.sourceWritten then u == Update(RE, 0, "Failed to write source file", 0, 0)
    else if !w.compiled then u == Update(CE, 0, w.compileError, 0, 0)
    else if !w.connected then u == Update(RE, 0, "Internal error", 0, 0)
    else if !w.queried || !w.stored then u == Update(RE, 0, "DB query failed", 0, 0)
    else RightVerdict(w.cases, w.runs, u)
  }

  // The meaning leaves no choice.
  lemma OutcomeUnique(w: World, one: Update, two: Update)
    requires w.Valid() && RightOutcome(w, one) && RightOutcome(w, two)
    ensures one == two
  {
    if w.CasesLoaded() {
      if exists k :: 0 <= k < |w.cases| && !Passes(w.cases[k], w.runs[k]) {
        var i: nat :| FirstFailure(w.cases, w.runs, i)
          && one == Update(FailureStatus(w.runs[i].ret), i + 1, if w.runs[i].ret == -1 then w.runs[i].error else "",
                           w.runs[i].timeMs, w.runs[i].memKb);
        var j: nat :| FirstFailure(w.cases, w.runs, j)
          && two == Update(FailureStatus(w.runs[j].ret), j + 1, if w.runs[j].ret == -1 then w.runs[j].error else "",
                           w.runs[j].timeMs, w.runs[j].memKb);
        assert i == j;
      } else {
        MaxUnique(one.timeUsed, two.timeUsed, Times(w.runs));
        MaxUnique(one.memoryUsed, two.memoryUsed, Memories(w.runs));
      }
    }
  }

  lemma MaxUnique(a: int, b: int, values: seq<int>)
    requires IsMax(a, values) && IsMax(b, values)
    ensures a == b
  {}

  // What a verdict says, in the codes of the sandbox. With a failed case n: all cases before it
  // came back with none of the codes -1, 1, 2 and with the expected lines; its status is RE for
  // code -1, TLE for 1, MLE for 2, and else WA; and time, memory and error text are its own.
  lemma FailureIs(w: World, u: Update)
    requires w.Valid() && RightOutcome(w, u) && u.failedCase > 0
    ensures w.CasesLoaded() && u.failedCase <= |w.cases|
    ensures forall j :: 0 <= j < u.failedCase - 1 ==>
      w.runs[j].ret !in {-1, 1, 2} && SameLines(w.runs[j].output, w.cases[j].expected)
    ensures var c, r := w.cases[u.failedCase - 1], w.runs[u.failedCase - 1];
      && (u.status == RE <==> r.ret == -1) && (u.status == TLE <==> r.ret == 1) && (u.status == MLE <==> r.ret == 2)
      && (u.status == WA <==> r.ret !in {-1, 1, 2})
      && (u.status == WA ==> !SameLines(r.output, c.expected))
      && u.timeUsed == r.timeMs && u.memoryUsed == r.memKb
      && (u.status == RE ==> u.errorMsg == r.error) && (u.status != RE ==> u.errorMsg == "")
  {
    hide SameLines;
  }

  // Without a failed case: the program could not be written, did not compile, or the cases could
  // not be read; else every case passed, and time and memory are the largest of all runs.
  lemma NoFailureIs(w: World, u: Update)
    requires w.Valid() && RightOutcome(w, u) && u.failedCase <= 0
    ensures u.failedCase == 0
    ensures u.status == CE <==> w.sourceWritten && !w.compiled
    ensures u.status == CE ==> u.errorMsg == w.compileError && u.timeUsed == 0 && u.memoryUsed == 0
    ensures u.status == AC <==> w.CasesLoaded()
    ensures u.status == RE <==>
      !w.sourceWritten || (w.compiled && (!w.connected || !w.queried || !w.stored))
    ensures u.status == RE ==>
      && u.timeUsed == 0 && u.memoryUsed == 0
      && u.errorMsg == (if !w.sourceWritten then "Failed to write source file"
                        else if !w.connected then "Internal error" else "DB query failed")
    ensures u.status == AC ==>
      && u.errorMsg == ""
      && (forall k :: 0 <= k < |w.cases| ==>
            && w.runs[k].ret !in {-1, 1, 2} && SameLines(w.runs[k].output, w.cases[k].expected)
            && w.runs[k].timeMs <= u.timeUsed && w.runs[k].memKb <= u.memoryUsed)
      && (u.timeUsed == 0 || exists k :: 0 <= k < |w.runs| && w.runs[k].timeMs == u.timeUsed)
      && (u.memoryUsed == 0 || exists k :: 0 <= k < |w.runs| && w.runs[k].memKb == u.memoryUsed)
  {
    hide SameLines;
    if w.CasesLoaded() {
      assert forall k :: 0 <= k < |w.runs| ==> Times(w.runs)[k] == w.runs[k].timeMs;
      assert forall k :: 0 <= k < |w.runs| ==> Memories(w.runs)[k] == w.runs[k].memKb;
    }
  }

  // Every outcome is a verdict with non-negative numbers; MLE needs a sandbox that returns 2.
  lemma OutcomeIsVerdict(w: World, u: Update)
    requires w.Valid() && RightOutcome(w, u)
    ensures IsVerdict(u.status) && NonNegative(u)
    ensures (forall k :: 0 <= k < |w.runs| ==> w.runs[k].ret != 2) ==> u.status != MLE
    ensures u.failedCase > 0 ==> w.CasesLoaded() && u.failedCase <= |w.cases|
  {}

  // A problem without test cases accepts every program that compiles.
  lemma NoCasesAccepts(w: World, u: Update)
    requires w.Valid() && w.CasesLoaded() && w.cases == [] && RightOutcome(w, u)
    ensures u == Update(AC, 0, "", 0, 0)
  {}

  // ---- The loop ----

  // One attempt to run an UPDATE on the submissions table.
  datatype Attempt = Attempt(id: int, update: Update, arrived: bool)

  // How MySQL and the pool treat the updates of one task: whether try_get(5000) finds a
  // connection when update_status has to take its own, and whether the query succeeds.
  datatype Delivery = Delivery(connectionFree: bool, queryOk: bool)

  // Whether an update of judge reaches the table. A failed case is reported over the connection
  // the cases were read with, so only a failing query can lose it; every other update needs a
  // free connection and is silently dropped without one.
  predicate Arrives(u: Update, how: Delivery) { (u.failedCase > 0 || how.connectionFree) && how.queryOk }

  // The table after an UPDATE that arrived or was dropped.
  function After(rows: map<int, Row>, id: int, u: Update, arrived: bool): map<int, Row> {
    if arrived && id in rows then rows[id := Written(rows[id], u)] else rows
  }

  // Whether create_directories and remove_all succeed on the sandbox directory; else they throw.
  datatype Disk = Disk(created: bool, removed: bool)

  // An update changes at most its own row, and that exactly if it arrives.
  lemma AfterIs(rows: map<int, Row>, id: int, u: Update, arrived: bool)
    ensures var t := After(rows, id, u, arrived);
      && t.Keys == rows.Keys
      && (forall i :: i in rows && (i != id || !arrived) ==> t[i] == rows[i])
      && (id in rows && arrived ==> t[id] == Written(rows[id], u))
  {}

  class Worker {
    var rows: map<int, Row>       // the submissions table
    var sandboxes: set<int>       // sandbox directories, named by submission id
    ghost var attempts: seq<Attempt>
    ghost var held: nat           // pool connections this worker holds
    ghost var peak: nat           // the most it ever held

    constructor(rows: map<int, Row>, sandboxes: set<int>)
      ensures this.rows == rows && this.sandboxes == sandboxes
      ensures attempts == [] && held == 0 && peak == 0
    {
      this.rows, this.sandboxes := rows, sandboxes;
      attempts, held, peak := [], 0, 0;
    }

    ghost method TakeConnection()
      modifies this`held, this`peak
      ensures held == old(held) + 1 && peak == Max(old(peak), held)
    {
      held := held + 1;
      peak := Max(peak, held);
    }

    // update_status. With a provided connection no other is taken; without one the update is
    // silently dropped when the pool stays empty.
    method UpdateStatus(id: int, u: Update, provided: bool, how: Delivery)
      modifies this`rows, this`attempts, this`peak
      ensures attempts == old(attempts) + [Attempt(id, u, (provided || how.connectionFree) && how.queryOk)]
      ensures rows == After(old(rows), id, u, (provided || how.connectionFree) && how.queryOk)
      ensures old(peak) <= peak <= Max(old(peak), if provided then held else held + 1)
    {
      if !provided {
        if !how.connectionFree {
          attempts := attempts + [Attempt(id, u, false)];
          return;
        }
        peak := Max(peak, held + 1);
      }
      if how.queryOk && id in rows {
        rows := rows[id := Written(rows[id], u)];
      }
      attempts := attempts + [Attempt(id, u, how.queryOk)];
    }

    // The loop over the listed cases: stop at the first failure, keep running maxima.
    method JudgeCases(id: int, w: World, how: Delivery) returns (ghost verdict: Update)
      requires w.Valid() && held == 1 && peak == 1
      modifies this`rows, this`attempts, this`held, this`peak
      ensures RightVerdict(w.cases, w.runs, verdict)
      ensures attempts == old(attempts) + [Attempt(id, verdict, Arrives(verdict, how))]
      ensures Arrives(verdict, how) <==> how.queryOk && (verdict.status != AC || how.connectionFree)
      ensures rows == After(old(rows), id, verdict, Arrives(verdict, how))
      ensures held == 0 && peak <= 1
    {
      hide Normalize, SameLines, IsMax, RightVerdict, Written, After;
      NoRuns();
      var caseIdx := 0;
      var allPassed := true;
      var maxTime, maxMem := 0, 0;
      while caseIdx < |w.cases|
        invariant 0 <= caseIdx <= |w.cases| && allPassed
        invariant forall k :: 0 <= k < caseIdx ==> Passes(w.cases[k], w.runs[k])
        invariant IsMax(maxTime, Times(w.runs[..caseIdx])) && IsMax(maxMem, Memories(w.runs[..caseIdx]))
        invariant held == 1 && peak == 1
        invariant attempts == old(attempts) && rows == old(rows)
      {
        caseIdx := caseIdx + 1;
        var c, r := w.cases[caseIdx - 1], w.runs[caseIdx - 1];
        RunningMax(w.runs, caseIdx - 1, maxTime, maxMem);
        if r.timeMs > maxTime { maxTime := r.timeMs; }
        if r.memKb > maxMem { maxMem := r.memKb; }

        if r.ret == -1 {
          verdict := Update(RE, caseIdx, r.error, r.timeMs, r.memKb);
          UpdateStatus(id, Update(RE, caseIdx, r.error, r.timeMs, r.memKb), true, how);
          allPassed := false;
          break;
        } else if r.ret == 1 {
          verdict := Update(TLE, caseIdx, "", r.timeMs, r.memKb);
          UpdateStatus(id, Update(TLE, caseIdx, "", r.timeMs, r.memKb), true, how);
          allPassed := false;
          break;
        } else if r.ret == 2 {
          verdict := Update(MLE, caseIdx, "", r.timeMs, r.memKb);
          UpdateStatus(id, Update(MLE, caseIdx, "", r.timeMs, r.memKb), true, how);
          allPassed := false;
          break;
        } else {
          var output, _, _ := TrimOutput(r.output);
          var expected, _, _ := TrimOutput(c.expected);
          NormalizeEqualIff(r.output, c.expected);
          if output != expected {
            verdict := Update(WA, caseIdx, "", r.timeMs, r.memKb);
            UpdateStatus(id, Update(WA, caseIdx, "", r.timeMs, r.memKb), true, how);
            allPassed := false;
            break;
          }
        }
      }
      held := held - 1;
      if allPassed {
        assert w.runs[..caseIdx] == w.runs;
        AllPassedIsRight(w.cases, w.runs, maxTime, maxMem);
        verdict := Update(AC, 0, "", maxTime, maxMem);
        UpdateStatus(id, Update(AC, 0, "", maxTime, maxMem), false, how);
      } else {
        FailureIsRight(w.cases, w.runs, caseIdx - 1, verdict);
      }
    }

    // fs::remove_all on the sandbox directory; false means it throws.
    method RemoveSandbox(id: int, removed: bool) returns (ok: bool)
      modifies this`sandboxes
      ensures ok == removed && sandboxes == if removed then old(sandboxes) - {id} else old(sandboxes)
    {
      if removed {
        sandboxes := sandboxes - {id};
      }
      ok := removed;
    }

    // judge. Unless the sandbox directory cannot be created, exactly one verdict is attempted,
    // whatever goes wrong, and it is the right one; the directory is gone afterwards unless it
    // cannot be removed; and at no time are two connections held. Not finishing means that an
    // exception leaves the thread.
    method Judge(id: int, w: World, how: Delivery, disk: Disk) returns (finished: bool, ghost verdict: Option<Update>)
      requires w.Valid() && held == 0 && peak <= 1
      modifies this
      ensures finished <==> disk.created && disk.removed
      ensures verdict.Some? <==> disk.created
      ensures verdict.None? ==> attempts == old(attempts) && rows == old(rows) && sandboxes == old(sandboxes)
      ensures verdict.Some? ==>
        && RightOutcome(w, verdict.value)
        && attempts == old(attempts) + [Attempt(id, verdict.value, Arrives(verdict.value, how))]
        && rows == After(old(rows), id, verdict.value, Arrives(verdict.value, how))
        && sandboxes == if disk.removed then old(sandboxes) - {id} else old(sandboxes) + {id}
      ensures held == 0 && peak <= 1
    {
      if !disk.created {
        return false, None;
      }
      sandboxes := sandboxes + {id};
      if !w.sourceWritten {
        verdict := Some(Update(RE, 0, "Failed to write source file", 0, 0));
        UpdateStatus(id, Update(RE, 0, "Failed to write source file", 0, 0), false, how);
        finished := RemoveSandbox(id, disk.removed);
        return;
      }
      if !w.compiled {
        verdict := Some(Update(CE, 0, w.compileError, 0, 0));
        UpdateStatus(id, Update(CE, 0, w.compileError, 0, 0), false, how);
        finished := RemoveSandbox(id, disk.removed);
        return;
      }
      if !w.connected {
        verdict := Some(Update(RE, 0, "Internal error", 0, 0));
        UpdateStatus(id, Update(RE, 0, "Internal error", 0, 0), false, how);
        finished := RemoveSandbox(id, disk.removed);
        return;
      }
      TakeConnection();
      if !w.queried || !w.stored {
        held := held - 1;
        verdict := Some(Update(RE, 0, "DB query failed", 0, 0));
        UpdateStatus(id, Update(RE, 0, "DB query failed", 0, 0), false, how);
        finished := RemoveSandbox(id, disk.removed);
        return;
      }

      ghost var v := JudgeCases(id, w, how);
      verdict := Some(v);
      finished := RemoveSandbox(id, disk.removed);
    }

    // The body of worker_loop for one task: mark, then judge.
    method Process(id: int, w: World, markHow: Delivery, how: Delivery, disk: Disk)
        returns (finished: bool, ghost verdict: Option<Update>)
      requires w.Valid() && held == 0 && peak <= 1
      modifies this
      ensures finished <==> disk.created && disk.removed
      ensures verdict.Some? <==> disk.created
      ensures verdict.None? ==>
        && attempts == old(attempts) + [Attempt(id, MARK_JUDGING, Arrives(MARK_JUDGING, markHow))]
        && rows == After(old(rows), id, MARK_JUDGING, Arrives(MARK_JUDGING, markHow)) && sandboxes == old(sandboxes)
      ensures verdict.Some? ==>
        && RightOutcome(w, verdict.value)
        && attempts == old(attempts) + [Attempt(id, MARK_JUDGING, Arrives(MARK_JUDGING, markHow)),
                                        Attempt(id, verdict.value, Arrives(verdict.value, how))]
        && rows == After(After(old(rows), id, MARK_JUDGING, Arrives(MARK_JUDGING, markHow)),
                         id, verdict.value, Arrives(verdict.value, how))
        && sandboxes == if disk.removed then old(sandboxes) - {id} else old(sandboxes) + {id}
      ensures verdict.Some? && Arrives(verdict.value, how) && id in old(rows) && Blank(old(rows)[id]) ==>
        ReadBack(rows[id]) == verdict.value
      ensures held == 0 && peak <= 1
    {
      UpdateStatus(id, MARK_JUDGING, false, markHow);
      finished, verdict := Judge(id, w, how, disk);
      if verdict.Some? {
        OutcomeIsVerdict(w, verdict.value);
        if id in old(rows) && Blank(old(rows)[id]) {
          FirstVerdictReadsBack(old(rows)[id], verdict.value);
        }
      }
    }
  }

  lemma NoRuns()
    ensures IsMax(0, Times([])) && IsMax(0, Memories([]))
  {}

  lemma AllPassedIsRight(cases: seq<TestCase>, runs: seq<Run>, maxTime: int, maxMem: int)
    requires |cases| == |runs| && forall k :: 0 <= k < |cases| ==> Passes(cases[k], runs[k])
    requires IsMax(maxTime, Times(runs)) && IsMax(maxMem, Memories(runs))
    ensures RightVerdict(cases, runs, Update(AC, 0, "", maxTime, maxMem))
  {}

  lemma FailureIsRight(cases: seq<TestCase>, runs: seq<Run>, k: nat, u: Update)
    requires |cases| == |runs| && FirstFailure(cases, runs, k)
    requires u == Update(FailureStatus(runs[k].ret), k + 1, if runs[k].ret == -1 then runs[k].error else "",
                         runs[k].timeMs, runs[k].memKb)
    ensures RightVerdict(cases, runs, u)
  {}

  lemma RunningMax(runs: seq<Run>, k: nat, maxTime: int, maxMem: int)
    requires k < |runs|
    requires IsMax(maxTime, Times(runs[..k])) && IsMax(maxMem, Memories(runs[..k]))
    requires runs[k].timeMs >= 0 && runs[k].memKb >= 0
    ensures IsMax(if runs[k].timeMs > maxTime then runs[k].timeMs else maxTime, Times(runs[..k + 1]))
    ensures IsMax(if runs[k].memKb > maxMem then runs[k].memKb else maxMem, Memories(runs[..k + 1]))
  {
    assert runs[..k + 1] == runs[..k] + [runs[k]];
    assert Times(runs[..k + 1]) == Times(runs[..k]) + [runs[k].timeMs];
    assert Memories(runs[..k + 1]) == Memories(runs[..k]) + [runs[k].memKb];
  }
}

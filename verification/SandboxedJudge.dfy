// The judge with the sandbox under it: what follows for verdicts when every run of a case is one
// that run_sandbox can report.
module SandboxedJudge {
  import opened Submissions
  import opened TestCases
  import opened Trim
  import opened Judge
  import S = Sandbox

  // What run_sandbox can report for an input: that it could not make its pipes or its child, or
  // the result of some run of parent and child over pipes that hold at most so many bytes.
  ghost predicate FromSandbox(pipe: nat, timeLimit: int, input: string, r: Run) {
    CouldNotStart(r) || exists byWatchdog, status :: EndsAs(pipe, timeLimit, input, r, byWatchdog, status)
  }

  predicate CouldNotStart(r: Run) { r.ret == -1 && r.output == "" && r.error == "" }

  // The report of a run of parent and child that ended by the watchdog or not, and with the child
  // in this status.
  ghost predicate EndsAs(pipe: nat, timeLimit: int, input: string, r: Run, byWatchdog: bool, status: S.Status) {
    exists cap: nat, others: nat, actions ::
      cap <= pipe && S.Runs(S.Start(cap, timeLimit, input, others), actions)
      && Reports(S.After(S.Start(cap, timeLimit, input, others), actions), r, byWatchdog, status)
  }

  ghost predicate Reports(s: S.State, r: Run, byWatchdog: bool, status: S.Status) {
    && s.parent.Returned? && s.parent.result == S.Result(r.ret, r.output, r.error)
    && s.parent.byWatchdog == byWatchdog && s.child == S.Dead(status)
  }

  // Which ends give which codes.
  lemma EndGivesCode(pipe: nat, timeLimit: int, input: string, r: Run, byWatchdog: bool, status: S.Status)
    requires EndsAs(pipe, timeLimit, input, r, byWatchdog, status)
    ensures -1 <= r.ret <= 1 && (r.ret == 0 ==> |r.output| <= pipe)
    ensures r.ret == 1 <==> byWatchdog || status == S.Signalled(9) || status == S.Signalled(24)
    ensures r.ret == -1 <==> !byWatchdog && Crash(status)
    ensures r.ret == 0 <==> !byWatchdog && status == S.Exited(0)
  {
    var cap: nat, others: nat, actions :|
      cap <= pipe && S.Runs(S.Start(cap, timeLimit, input, others), actions)
      && Reports(S.After(S.Start(cap, timeLimit, input, others), actions), r, byWatchdog, status);
    S.ResultMeaning(cap, timeLimit, input, others, actions);
  }

  // A non-zero exit, or a signal that is neither SIGKILL nor SIGXCPU.
  predicate Crash(status: S.Status) {
    match status
    case Exited(code) => code != 0
    case Signalled(signal) => signal != 9 && signal != 24
  }

  lemma RunFacts(pipe: nat, timeLimit: int, input: string, r: Run)
    requires FromSandbox(pipe, timeLimit, input, r)
    ensures -1 <= r.ret <= 1 && (r.ret == 0 ==> |r.output| <= pipe)
  {
    hide EndsAs;
    if !CouldNotStart(r) {
      var byWatchdog, status :| EndsAs(pipe, timeLimit, input, r, byWatchdog, status);
      EndGivesCode(pipe, timeLimit, input, r, byWatchdog, status);
    }
  }

  ghost predicate AllPassBefore(w: World, k: nat)
    requires w.Valid()
  {
    k <= |w.cases| && forall j :: 0 <= j < k ==> Passes(w.cases[j], w.runs[j])
  }

  // Every case that judge gets to was run in the sandbox.
  ghost predicate Sandboxed(w: World, pipe: nat)
    requires w.Valid()
  {
    forall k: nat :: k < |w.cases| && AllPassBefore(w, k) ==>
      FromSandbox(pipe, w.timeLimit, w.cases[k].input, w.runs[k])
  }

  predicate CleanAndFitting(r: Run, pipe: nat) { r.ret == 0 && |r.output| <= pipe }

  // The first failing case failed by its lines.
  ghost predicate WrongAt(w: World, k: nat)
    requires w.Valid()
  {
    FirstFailure(w.cases, w.runs, k) && !SameLines(w.runs[k].output, w.cases[k].expected)
  }

  // No outcome is MLE. With AC every case ran to a clean exit with the expected lines, and wrote
  // no more than a pipe holds; with WA the first failing case did so too, but for the lines.
  lemma SandboxedOutcome(w: World, u: Update, pipe: nat)
    requires w.Valid() && RightOutcome(w, u) && Sandboxed(w, pipe)
    ensures u.status != MLE
    ensures u.status == AC ==> w.CasesLoaded() && forall k :: 0 <= k < |w.cases| ==>
      CleanAndFitting(w.runs[k], pipe) && SameLines(w.runs[k].output, w.cases[k].expected)
    ensures u.status == WA ==> w.CasesLoaded() && exists k: nat :: WrongAt(w, k) && CleanAndFitting(w.runs[k], pipe)
  {
    hide SameLines, FromSandbox;
    if w.CasesLoaded() {
      if forall k :: 0 <= k < |w.cases| ==> Passes(w.cases[k], w.runs[k]) {
        forall k: nat | k < |w.cases| ensures CleanAndFitting(w.runs[k], pipe) {
          assert AllPassBefore(w, k);
          RunFacts(pipe, w.timeLimit, w.cases[k].input, w.runs[k]);
        }
      } else {
        var k: nat :| FirstFailure(w.cases, w.runs, k) && u.status == FailureStatus(w.runs[k].ret);
        assert AllPassBefore(w, k);
        RunFacts(pipe, w.timeLimit, w.cases[k].input, w.runs[k]);
      }
    }
  }

  // What a verdict with a failed case says about how the run of that case ended. TLE: by the
  // watchdog, or by signal 9 or 24. RE: it could not start, or the child exited with a non-zero
  // code or died of another signal. WA: it exited with code 0. The other way round, however the
  // reported run ended, the status is the one for that end.
  lemma FailureByEnd(w: World, u: Update, pipe: nat)
    requires w.Valid() && RightOutcome(w, u) && Sandboxed(w, pipe) && u.failedCase > 0
    ensures u.failedCase <= |w.cases| && u.status in {TLE, RE, WA}
    ensures var c, r := w.cases[u.failedCase - 1], w.runs[u.failedCase - 1];
      CouldNotStart(r) || exists byWatchdog, status :: EndsAs(pipe, w.timeLimit, c.input, r, byWatchdog, status)
    ensures CouldNotStart(w.runs[u.failedCase - 1]) ==> u.status == RE
    ensures var c, r := w.cases[u.failedCase - 1], w.runs[u.failedCase - 1];
      forall byWatchdog, status :: EndsAs(pipe, w.timeLimit, c.input, r, byWatchdog, status) ==>
        && (u.status == TLE <==> byWatchdog || status == S.Signalled(9) || status == S.Signalled(24))
        && (u.status == RE <==> !byWatchdog && Crash(status))
        && (u.status == WA <==> !byWatchdog && status == S.Exited(0))
  {
    hide RightOutcome, SameLines, EndsAs;
    FailureIs(w, u);
    var k := u.failedCase - 1;
    var c, r := w.cases[k], w.runs[k];
    assert AllPassBefore(w, k);
    assert FromSandbox(pipe, w.timeLimit, c.input, r);
    RunFacts(pipe, w.timeLimit, c.input, r);
    OutcomeHasStatus(w, u);
    forall byWatchdog, status | EndsAs(pipe, w.timeLimit, c.input, r, byWatchdog, status)
      ensures r.ret == 1 <==> byWatchdog || status == S.Signalled(9) || status == S.Signalled(24)
      ensures r.ret == -1 <==> !byWatchdog && Crash(status)
      ensures r.ret == 0 <==> !byWatchdog && status == S.Exited(0)
    {
      EndGivesCode(pipe, w.timeLimit, c.input, r, byWatchdog, status);
    }
  }

  lemma OutcomeHasStatus(w: World, u: Update)
    requires w.Valid() && RightOutcome(w, u) && u.failedCase > 0
    ensures u.status in {RE, TLE, MLE, WA}
  {}

  // Some program and some behaviour of the machine get AC on these cases.
  ghost predicate Solvable(cases: seq<TestCase>, timeLimit: int, pipe: nat) {
    exists w: World, u :: w.cases == cases && w.timeLimit == timeLimit && IsAccepted(w, u, pipe)
  }

  ghost predicate IsAccepted(w: World, u: Update, pipe: nat) {
    w.Valid() && w.CasesLoaded() && Sandboxed(w, pipe) && RightOutcome(w, u) && u.status == AC
  }

  ghost predicate Fits(c: TestCase, pipe: nat) { |Normalize(c.expected)| <= pipe }

  // A problem can be solved at all exactly if every expected output, once trimmed, fits a pipe.
  lemma SolvableIff(cases: seq<TestCase>, timeLimit: int, pipe: nat)
    requires timeLimit >= 0
    ensures Solvable(cases, timeLimit, pipe) <==> forall k :: 0 <= k < |cases| ==> Fits(cases[k], pipe)
  {
    if Solvable(cases, timeLimit, pipe) {
      var w: World, u :| w.cases == cases && w.timeLimit == timeLimit && IsAccepted(w, u, pipe);
      SandboxedOutcome(w, u, pipe);
      forall k | 0 <= k < |cases| ensures Fits(cases[k], pipe) {
        NormalizeEqualIff(w.runs[k].output, cases[k].expected);
        NormalizeNotLonger(w.runs[k].output);
      }
    }
    if forall k :: 0 <= k < |cases| ==> Fits(cases[k], pipe) {
      var w := PerfectWorld(cases, timeLimit, pipe);
      var u := Update(AC, 0, "", 0, 0);
      assert IsAccepted(w, u, pipe);
    }
  }

  // A program that writes exactly the trimmed answers, in no time.
  lemma PerfectWorld(cases: seq<TestCase>, timeLimit: int, pipe: nat) returns (w: World)
    requires timeLimit >= 0 && forall k :: 0 <= k < |cases| ==> Fits(cases[k], pipe)
    ensures w.cases == cases && w.timeLimit == timeLimit && w.Valid() && w.CasesLoaded()
    ensures Sandboxed(w, pipe) && RightOutcome(w, Update(AC, 0, "", 0, 0))
  {
    hide Normalize, SameLines, FromSandbox;
    var runs := seq(|cases|, k requires 0 <= k < |cases| => Run(0, Normalize(cases[k].expected), "", 0, 0));
    w := World("", timeLimit, true, true, "", true, true, true, cases, runs);
    forall k: nat | k < |cases|
      ensures Passes(cases[k], runs[k]) && FromSandbox(pipe, timeLimit, cases[k].input, runs[k])
    {
      assert Fits(cases[k], pipe);
      NormalizeIdempotent(cases[k].expected);
      NormalizeEqualIff(runs[k].output, cases[k].expected);
      CleanRun(pipe, timeLimit, cases[k].input, Normalize(cases[k].expected));
    }
    AllPassedIsRight(cases, runs, 0, 0);
  }

  lemma CleanRun(pipe: nat, timeLimit: int, input: string, text: string)
    requires |text| <= pipe && timeLimit >= 0
    ensures FromSandbox(pipe, timeLimit, input, Run(0, text, "", 0, 0))
  {
    var actions := S.CaptureRun(pipe, timeLimit, input, 0, text);
    var r := Run(0, text, "", 0, 0);
    S.ResultMeaning(pipe, timeLimit, input, 0, actions);
    assert Reports(S.After(S.Start(pipe, timeLimit, input, 0), actions), r, false, S.Exited(0));
    assert EndsAs(pipe, timeLimit, input, r, false, S.Exited(0));
  }
}

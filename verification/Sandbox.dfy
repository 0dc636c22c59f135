// run_sandbox as two processes over three bounded pipes. The parent writes the whole input
// first, then polls the child under a wall-clock limit, and reads the output pipes only after
// the child is gone.
module Sandbox {
  import opened Common

  type Byte = char

  const SIGKILL := 9
  const SIGXCPU := 24

  datatype Status = Exited(code: nat) | Signalled(signal: nat)

  // ret, output and error_msg.
  datatype Result = Result(ret: int, output: seq<Byte>, error: string)

  datatype Parent =
    | Feeding(rest: seq<Byte>)                             // write(stdin_pipe[1], ...)
    | Watching(earliest: int)                              // the poll loop; the clock shows at least this
    | DrainOut(out: seq<Byte>)                             // child reaped, reading stdout
    | DrainErr(out: seq<Byte>, err: seq<Byte>)             // reading stderr
    | Returned(result: Result, byWatchdog: bool)

  datatype Child =
    | Computing                       // anywhere outside a write
    | WritingOut(rest: seq<Byte>)     // inside a write to stdout
    | WritingErr(rest: seq<Byte>)
    | Dead(status: Status)

  // others counts the processes, forked by other workers between pipe and close, that have copies
  // of the ends meant for the child: the reading end of stdin, the writing ends of the outputs.
  // They do not use them, but keep them open. got, saidOut and saidErr are history: everything the
  // child has read, and has asked to write, so far.
  datatype State = State(cap: nat, timeoutMs: int, input: seq<Byte>,
                         parent: Parent, child: Child, others: nat,
                         inPipe: seq<Byte>, outPipe: seq<Byte>, errPipe: seq<Byte>, got: seq<Byte>,
                         saidOut: seq<Byte>, saidErr: seq<Byte>)

  datatype Action =
    | Feed(n: nat)               // n bytes of the pending write go into the pipe
    | FeedBroken                 // the reader is gone: write fails and the result is ignored
    | CloseInput
    | Poll(now: int)             // one iteration of the watchdog loop
    | Read(n: nat)               // one read of at most 4096 bytes
    | EndOfFile
    | ChildRead(n: nat)
    | ChildSay(bytes: seq<Byte>, toErr: bool)
    | ChildPush(n: nat)          // n bytes of the child's pending write go into the pipe
    | ChildExit(code: nat)
    | ChildKilled(signal: nat)   // a fault or an rlimit
    | OtherGone                  // one of the others has exited

  function Start(cap: nat, timeLimitSec: int, input: seq<Byte>, others: nat): State {
    State(cap, (timeLimitSec + 1) * 1000, input, Feeding(input), Computing, others, [], [], [], [], [], [])
  }

  predicate Alive(c: Child) { !c.Dead? }

  predicate Enabled(s: State, a: Action) {
    match a
    case Feed(n) =>
      s.parent.Feeding? && (Alive(s.child) || s.others > 0) && 0 < n <= |s.parent.rest| && |s.inPipe| + n <= s.cap
    case FeedBroken => s.parent.Feeding? && s.parent.rest != [] && s.child.Dead? && s.others == 0
    case CloseInput => s.parent.Feeding? && s.parent.rest == []
    case Poll(now) => s.parent.Watching? && s.parent.earliest <= now
    case Read(n) =>
      (s.parent.DrainOut? && 0 < n <= |s.outPipe| && n <= 4096)
      || (s.parent.DrainErr? && 0 < n <= |s.errPipe| && n <= 4096)
    case EndOfFile =>
      s.child.Dead? && s.others == 0
      && ((s.parent.DrainOut? && s.outPipe == []) || (s.parent.DrainErr? && s.errPipe == []))
    case ChildRead(n) => s.child.Computing? && 0 < n <= |s.inPipe|
    case ChildSay(bytes, _) => s.child.Computing? && bytes != []
    case ChildPush(n) =>
      (s.child.WritingOut? && 0 < n <= |s.child.rest| && |s.outPipe| + n <= s.cap)
      || (s.child.WritingErr? && 0 < n <= |s.child.rest| && |s.errPipe| + n <= s.cap)
    case ChildExit(_) => s.child.Computing?
    case ChildKilled(_) => Alive(s.child)
    case OtherGone => s.others > 0
  }

  function Decimal(n: nat): string {
    if n < 10 then [("0123456789")[n]] else Decimal(n / 10) + [("0123456789")[n % 10]]
  }

  // How a reaped child's status becomes the result.
  function Classify(status: Status, out: seq<Byte>): Result {
    match status
    case Signalled(sig) =>
      if sig == SIGXCPU || sig == SIGKILL then Result(1, [], "")
      else Result(-1, [], "Runtime error (signal " + Decimal(sig) + ")")
    case Exited(code) =>
      if code != 0 then Result(-1, [], "Non-zero exit code: " + Decimal(code))
      else Result(0, out, "")
  }

  function Apply(s: State, a: Action): State
    requires Enabled(s, a)
  {
    match a
    case Feed(n) => s.(parent := Feeding(s.parent.rest[n..]), inPipe := s.inPipe + s.parent.rest[..n])
    case FeedBroken => s.(parent := Feeding([]))
    case CloseInput => s.(parent := Watching(0))
    case Poll(now) =>
      if now >= s.timeoutMs then
        s.(parent := Returned(Result(1, [], ""), true),
           child := if s.child.Dead? then s.child else Dead(Signalled(SIGKILL)))
      else if s.child.Dead? then s.(parent := DrainOut([]))
      else s.(parent := Watching(now + 10))
    case Read(n) =>
      if s.parent.DrainOut? then s.(parent := DrainOut(s.parent.out + s.outPipe[..n]), outPipe := s.outPipe[n..])
      else s.(parent := DrainErr(s.parent.out, s.parent.err + s.errPipe[..n]), errPipe := s.errPipe[n..])
    case EndOfFile =>
      if s.parent.DrainOut? then s.(parent := DrainErr(s.parent.out, []))
      else s.(parent := Returned(Classify(s.child.status, s.parent.out), false))
    case ChildRead(n) => s.(inPipe := s.inPipe[n..], got := s.got + s.inPipe[..n])
    case ChildSay(bytes, toErr) =>
      if toErr then s.(child := WritingErr(bytes), saidErr := s.saidErr + bytes)
      else s.(child := WritingOut(bytes), saidOut := s.saidOut + bytes)
    case ChildPush(n) =>
      var rest := s.child.rest[n..];
      if s.child.WritingOut? then
        s.(child := if rest == [] then Computing else WritingOut(rest), outPipe := s.outPipe + s.child.rest[..n])
      else
        s.(child := if rest == [] then Computing else WritingErr(rest), errPipe := s.errPipe + s.child.rest[..n])
    case ChildExit(code) => s.(child := Dead(Exited(code)))
    case ChildKilled(sig) => s.(child := Dead(Signalled(sig)))
    case OtherGone => s.(others := s.others - 1)
  }

  ghost predicate Runs(s: State, actions: seq<Action>)
    decreases |actions|
  {
    actions == [] || (Enabled(s, actions[0]) && Runs(Apply(s, actions[0]), actions[1..]))
  }

  ghost function After(s: State, actions: seq<Action>): State
    requires Runs(s, actions)
    decreases |actions|
  {
    if actions == [] then s else After(Apply(s, actions[0]), actions[1..])
  }

  // ---- Nothing written is lost ----

  function PendingOut(c: Child): seq<Byte> { if c.WritingOut? then c.rest else [] }

  function PendingErr(c: Child): seq<Byte> { if c.WritingErr? then c.rest else [] }

  function CollectedOut(p: Parent): seq<Byte> {
    if p.DrainOut? || p.DrainErr? then p.out else []
  }

  function CollectedErr(p: Parent): seq<Byte> { if p.DrainErr? then p.err else [] }

  // What a child asked to write is collected, in the pipe, or still pending in its write; only
  // a killed child can leave a write unfinished.
  ghost predicate PipesInv(s: State) {
    && |s.inPipe| <= s.cap && |s.outPipe| <= s.cap && |s.errPipe| <= s.cap
    && |CollectedOut(s.parent)| + |s.outPipe| <= s.cap
    && (s.parent.Feeding? ==> |s.inPipe| + |s.parent.rest| <= |s.input|)
    && (Alive(s.child) ==>
          s.saidOut == s.outPipe + PendingOut(s.child) && s.saidErr == s.errPipe + PendingErr(s.child)
          && !s.parent.DrainOut? && !s.parent.DrainErr? && !s.parent.Returned?)
    && (s.child.Dead? && !s.parent.Returned? ==>
          CollectedOut(s.parent) + s.outPipe <= s.saidOut && CollectedErr(s.parent) + s.errPipe <= s.saidErr)
    && (s.child.Dead? && s.child.status.Exited? && !s.parent.Returned? ==>
          CollectedOut(s.parent) + s.outPipe == s.saidOut && CollectedErr(s.parent) + s.errPipe == s.saidErr)
    && (s.parent.DrainErr? ==> s.outPipe == [])
    && (s.parent.Returned? ==> s.child.Dead? && GoodResult(s))
  }

  // The result of a finished run: the watchdog's TLE, or the child's own status with, on a
  // clean exit, exactly the bytes the child wrote to stdout.
  ghost predicate GoodResult(s: State)
    requires s.parent.Returned? && s.child.Dead?
  {
    if s.parent.byWatchdog then s.parent.result == Result(1, [], "")
    else
      && s.parent.result == Classify(s.child.status, s.parent.result.output)
      && (s.parent.result.ret == 0 ==> s.parent.result.output == s.saidOut && |s.saidOut| <= s.cap)
  }

  lemma StartPipes(cap: nat, timeLimitSec: int, input: seq<Byte>, others: nat)
    ensures PipesInv(Start(cap, timeLimitSec, input, others))
  {}

  lemma StepParent(s: State, a: Action)
    requires PipesInv(s) && Enabled(s, a) && (a.Feed? || a.FeedBroken? || a.CloseInput? || a.Poll?)
    ensures PipesInv(Apply(s, a))
  {}

  lemma StepDrain(s: State, a: Action)
    requires PipesInv(s) && Enabled(s, a) && (a.Read? || a.EndOfFile?)
    ensures PipesInv(Apply(s, a))
  {
    if a.Read? {
      if s.parent.DrainOut? {
        assert s.outPipe == s.outPipe[..a.n] + s.outPipe[a.n..];
        assert (s.parent.out + s.outPipe[..a.n]) + s.outPipe[a.n..] == s.parent.out + s.outPipe;
      } else {
        assert s.errPipe == s.errPipe[..a.n] + s.errPipe[a.n..];
        assert (s.parent.err + s.errPipe[..a.n]) + s.errPipe[a.n..] == s.parent.err + s.errPipe;
      }
    } else {
      assert CollectedOut(s.parent) + [] == CollectedOut(s.parent);
    }
  }

  lemma StepChild(s: State, a: Action)
    requires PipesInv(s) && Enabled(s, a)
    requires a.ChildRead? || a.ChildSay? || a.ChildPush? || a.ChildExit? || a.ChildKilled?
    ensures PipesInv(Apply(s, a))
  {
    assert [] + s.outPipe == s.outPipe == s.outPipe + [] && [] + s.errPipe == s.errPipe == s.errPipe + [];
    if a.ChildPush? {
      PushSome(if s.child.WritingOut? then s.outPipe else s.errPipe, s.child.rest, a.n);
    }
  }

  lemma PushSome(pipe: seq<Byte>, rest: seq<Byte>, n: nat)
    requires n <= |rest|
    ensures pipe + rest == (pipe + rest[..n]) + rest[n..]
    ensures rest[n..] == [] ==> (pipe + rest[..n]) + [] == pipe + rest
  {
    assert rest == rest[..n] + rest[n..];
  }

  lemma StepPipes(s: State, a: Action)
    requires PipesInv(s) && Enabled(s, a)
    ensures PipesInv(Apply(s, a))
  {
    if a.Feed? || a.FeedBroken? || a.CloseInput? || a.Poll? { StepParent(s, a); }
    else if a.Read? || a.EndOfFile? { StepDrain(s, a); }
    else if !a.OtherGone? { StepChild(s, a); }
  }

  lemma {:induction false} RunsPipes(s: State, actions: seq<Action>)
    requires PipesInv(s) && Runs(s, actions)
    ensures PipesInv(After(s, actions))
    ensures After(s, actions).cap == s.cap && After(s, actions).input == s.input
    ensures After(s, actions).timeoutMs == s.timeoutMs
    decreases |actions|
  {
    hide PipesInv;
    if actions != [] {
      StepPipes(s, actions[0]);
      RunsPipes(Apply(s, actions[0]), actions[1..]);
    }
  }

  // In every interleaving with every child: the code is -1, 0 or 1, never 2; 0 means a clean
  // exit and carries exactly the child's stdout, which is never more than a pipe holds.
  lemma ResultMeaning(cap: nat, timeLimitSec: int, input: seq<Byte>, others: nat, actions: seq<Action>)
    requires Runs(Start(cap, timeLimitSec, input, others), actions)
    requires After(Start(cap, timeLimitSec, input, others), actions).parent.Returned?
    ensures var s := After(Start(cap, timeLimitSec, input, others), actions);
      var r := s.parent.result;
      s.child.Dead?
      && r.ret != 2 && -1 <= r.ret <= 1
      && (r.ret == 0 <==> !s.parent.byWatchdog && s.child.status == Exited(0))
      && (r.ret == 0 ==> r.output == s.saidOut && |r.output| <= cap && r.error == "")
      && (r.ret != 0 ==> r.output == "")
      && (r.ret == 1 <==> s.parent.byWatchdog || s.child.status in {Signalled(9), Signalled(24)})
      && (r.ret == 1 ==> r.error == "")
      && (r.ret == -1 ==>
            match s.child.status
            case Signalled(sig) => r.error == "Runtime error (signal " + Decimal(sig) + ")"
            case Exited(code) => r.error == "Non-zero exit code: " + Decimal(code))
  {
    StartPipes(cap, timeLimitSec, input, others);
    RunsPipes(Start(cap, timeLimitSec, input, others), actions);
  }

  predicate ExitedCleanly(s: State) {
    s.parent.DrainOut? && s.child == Dead(Exited(0)) && s.errPipe == [] && s.others == 0
  }

  lemma EndDrain(s: State)
    requires ExitedCleanly(s) && s.outPipe == []
    ensures Runs(s, [EndOfFile, EndOfFile])
    ensures After(s, [EndOfFile, EndOfFile]).parent == Returned(Result(0, s.parent.out, ""), false)
  {
    RunsCons(Apply(s, EndOfFile), EndOfFile, []);
    RunsCons(s, EndOfFile, [EndOfFile] + []);
    assert [EndOfFile] + ([EndOfFile] + []) == [EndOfFile, EndOfFile];
  }

  lemma DrainSome(s: State, n: nat)
    requires ExitedCleanly(s) && 0 < n <= |s.outPipe| && n <= 4096
    ensures Enabled(s, Read(n))
    ensures var t := Apply(s, Read(n));
      ExitedCleanly(t) && |t.outPipe| == |s.outPipe| - n && t.parent.out + t.outPipe == s.parent.out + s.outPipe
  {
    assert s.outPipe == s.outPipe[..n] + s.outPipe[n..];
    assert (s.parent.out + s.outPipe[..n]) + s.outPipe[n..] == s.parent.out + s.outPipe;
  }

  // The rest of a run once the child has exited cleanly and the parent reads its stdout.
  lemma {:induction false} DrainAll(s: State) returns (actions: seq<Action>)
    requires ExitedCleanly(s)
    ensures Runs(s, actions)
    ensures After(s, actions).parent == Returned(Result(0, s.parent.out + s.outPipe, ""), false)
    decreases |s.outPipe|
  {
    hide Apply, Enabled;
    if s.outPipe == [] {
      EndDrain(s);
      actions := [EndOfFile, EndOfFile];
      assert s.parent.out + [] == s.parent.out;
    } else {
      var n := if |s.outPipe| <= 4096 then |s.outPipe| else 4096;
      DrainSome(s, n);
      var rest := DrainAll(Apply(s, Read(n)));
      RunsCons(s, Read(n), rest);
      actions := [Read(n)] + rest;
    }
  }

  lemma {:induction false} AllGone(s: State) returns (actions: seq<Action>)
    ensures Runs(s, actions) && After(s, actions) == s.(others := 0)
    decreases s.others
  {
    if s.others == 0 {
      actions := [];
    } else {
      var rest := AllGone(Apply(s, OtherGone));
      RunsCons(s, OtherGone, rest);
      actions := [OtherGone] + rest;
    }
  }

  // The others exit, a child writes the text at once and exits: the parent's write breaks off, then it
  // closes, polls once and drains.
  lemma CaptureRun(cap: nat, timeLimitSec: int, input: seq<Byte>, others: nat, text: seq<Byte>)
      returns (actions: seq<Action>)
    requires |text| <= cap && timeLimitSec >= 0
    ensures var s := Start(cap, timeLimitSec, input, others);
      Runs(s, actions) && After(s, actions).parent == Returned(Result(0, text, ""), false)
  {
    var s0 := Start(cap, timeLimitSec, input, others);
    var gone := AllGone(s0);
    var s := s0.(others := 0);
    var said := if text == [] then [ChildExit(0)] else [ChildSay(text, false), ChildPush(|text|), ChildExit(0)];
    var s1 := s.(child := Dead(Exited(0)), outPipe := text, saidOut := text);
    assert Runs(s, said) && After(s, said) == s1 by { SpeakAndExit(s, text); }
    var fed := if input == [] then [CloseInput, Poll(0)] else [FeedBroken, CloseInput, Poll(0)];
    var s2 := s1.(parent := DrainOut([]));
    assert Runs(s1, fed) && After(s1, fed) == s2 by { CloseAndPoll(s1); }
    var rest := DrainAll(s2);
    RunsJoin(s1, fed, rest);
    RunsJoin(s, said, fed + rest);
    RunsJoin(s0, gone, said + (fed + rest));
    actions := gone + (said + (fed + rest));
    assert [] + text == text;
  }

  lemma SpeakAndExit(s: State, text: seq<Byte>)
    requires s.child.Computing? && s.outPipe == [] && s.saidOut == [] && |text| <= s.cap
    ensures var said := if text == [] then [ChildExit(0)] else [ChildSay(text, false), ChildPush(|text|), ChildExit(0)];
      Runs(s, said) && After(s, said) == s.(child := Dead(Exited(0)), outPipe := text, saidOut := text)
  {
    if text == [] {
      RunsCons(s, ChildExit(0), []);
      assert [ChildExit(0)] + [] == [ChildExit(0)];
    } else {
      var s1 := Apply(s, ChildSay(text, false));
      assert [] + text == text && text[..|text|] == text;
      var s2 := Apply(s1, ChildPush(|text|));
      RunsCons(s2, ChildExit(0), []);
      RunsCons(s1, ChildPush(|text|), [ChildExit(0)] + []);
      RunsCons(s, ChildSay(text, false), [ChildPush(|text|)] + ([ChildExit(0)] + []));
      assert [ChildSay(text, false)] + ([ChildPush(|text|)] + ([ChildExit(0)] + []))
          == [ChildSay(text, false), ChildPush(|text|), ChildExit(0)];
    }
  }

  lemma CloseAndPoll(s: State)
    requires s.parent == Feeding(s.input) && s.child.Dead? && s.timeoutMs > 0 && s.others == 0
    ensures var fed := if s.input == [] then [CloseInput, Poll(0)] else [FeedBroken, CloseInput, Poll(0)];
      Runs(s, fed) && After(s, fed) == s.(parent := DrainOut([]))
  {
    var empty := s.(parent := Feeding([]));
    var s1 := Apply(empty, CloseInput);
    RunsCons(s1, Poll(0), []);
    RunsCons(empty, CloseInput, [Poll(0)] + []);
    assert [CloseInput] + ([Poll(0)] + []) == [CloseInput, Poll(0)];
    if s.input != [] {
      RunsCons(s, FeedBroken, [CloseInput, Poll(0)]);
      assert [FeedBroken] + [CloseInput, Poll(0)] == [FeedBroken, CloseInput, Poll(0)];
    }
  }

  lemma {:induction false} RunsJoin(s: State, first: seq<Action>, more: seq<Action>)
    requires Runs(s, first) && Runs(After(s, first), more)
    ensures Runs(s, first + more) && After(s, first + more) == After(After(s, first), more)
    decreases |first|
  {
    if first == [] {
      assert first + more == more;
    } else {
      assert (first + more)[1..] == first[1..] + more;
      RunsJoin(Apply(s, first[0]), first[1..], more);
    }
  }

  ghost predicate Captured(s: State, text: seq<Byte>) {
    s.parent.Returned? && s.parent.result.ret == 0 && s.parent.result.output == text
  }

  // Exactly the texts that fit a pipe can come back with code 0, whatever the input; with a
  // negative time limit none can, since the watchdog fires in the first poll.
  lemma CapturedIff(cap: nat, timeLimitSec: int, input: seq<Byte>, others: nat, text: seq<Byte>)
    ensures (exists actions :: Runs(Start(cap, timeLimitSec, input, others), actions)
                               && Captured(After(Start(cap, timeLimitSec, input, others), actions), text))
      <==> |text| <= cap && timeLimitSec >= 0
  {
    var s := Start(cap, timeLimitSec, input, others);
    forall actions | Runs(s, actions) && Captured(After(s, actions), text) ensures |text| <= cap && timeLimitSec >= 0 {
      ResultMeaning(cap, timeLimitSec, input, others, actions);
      if timeLimitSec < 0 {
        AlwaysWatchdog(s, actions);
      }
    }
    if |text| <= cap && timeLimitSec >= 0 {
      var actions := CaptureRun(cap, timeLimitSec, input, others, text);
      assert Captured(After(s, actions), text);
    }
  }

  predicate NeverDrains(p: Parent) {
    p.Feeding? || (p.Watching? && p.earliest >= 0) || (p.Returned? && p.byWatchdog)
  }

  // With no time at all the parent never gets past its first poll.
  lemma {:induction false} AlwaysWatchdog(s: State, actions: seq<Action>)
    requires Runs(s, actions) && s.timeoutMs <= 0
    requires NeverDrains(s.parent)
    ensures NeverDrains(After(s, actions).parent)
    decreases |actions|
  {
    if actions != [] {
      AlwaysWatchdog(Apply(s, actions[0]), actions[1..]);
    }
  }

  // ---- Nothing of the input is lost ----

  // Input still in the parent's hands.
  function PendingIn(p: Parent): seq<Byte> { if p.Feeding? then p.rest else [] }

  // What the child has read, what is in the pipe and what the parent still has to write make up
  // the input, unless the parent's write broke off because nobody could read any more.
  ghost predicate InputInv(s: State) {
    && s.got + s.inPipe + PendingIn(s.parent) <= s.input
    && (Alive(s.child) ==> s.got + s.inPipe + PendingIn(s.parent) == s.input)
  }

  lemma StepInput(s: State, a: Action)
    requires InputInv(s) && Enabled(s, a)
    ensures InputInv(Apply(s, a))
  {
    match a
    case Feed(n) => FeedMoves(s.got, s.inPipe, s.parent.rest, n);
    case ChildRead(n) => ReadMoves(s.got, s.inPipe, PendingIn(s.parent), n);
    case FeedBroken => assert s.got + s.inPipe + [] <= s.got + s.inPipe + s.parent.rest;
    case CloseInput => assert s.got + s.inPipe + [] == s.got + s.inPipe;
    case _ => OthersMoveNothing(s, a);
  }

  lemma OthersMoveNothing(s: State, a: Action)
    requires Enabled(s, a) && !a.Feed? && !a.ChildRead? && !a.FeedBroken? && !a.CloseInput?
    ensures var t := Apply(s, a);
      t.got == s.got && t.inPipe == s.inPipe && t.input == s.input && PendingIn(t.parent) == PendingIn(s.parent)
    ensures Alive(Apply(s, a).child) ==> Alive(s.child)
  {}

  lemma FeedMoves(got: seq<Byte>, pipe: seq<Byte>, rest: seq<Byte>, n: nat)
    requires n <= |rest|
    ensures got + (pipe + rest[..n]) + rest[n..] == got + pipe + rest
  {
    assert rest == rest[..n] + rest[n..];
  }

  lemma ReadMoves(got: seq<Byte>, pipe: seq<Byte>, rest: seq<Byte>, n: nat)
    requires n <= |pipe|
    ensures (got + pipe[..n]) + pipe[n..] + rest == got + pipe + rest
  {
    assert pipe == pipe[..n] + pipe[n..];
  }

  lemma {:induction false} RunsInput(s: State, actions: seq<Action>)
    requires InputInv(s) && Runs(s, actions)
    ensures InputInv(After(s, actions)) && After(s, actions).input == s.input
    decreases |actions|
  {
    hide InputInv;
    if actions != [] {
      StepInput(s, actions[0]);
      StepKeepsInput(s, actions[0]);
      RunsInput(Apply(s, actions[0]), actions[1..]);
    }
  }

  lemma StepKeepsInput(s: State, a: Action)
    requires Enabled(s, a)
    ensures Apply(s, a).input == s.input
  {}

  // In every interleaving the child reads the input from its beginning, in order and without a
  // gap; and as long as it lives, what it has not read is in the pipe or about to be written.
  lemma InputArrives(cap: nat, timeLimitSec: int, input: seq<Byte>, others: nat, actions: seq<Action>)
    requires Runs(Start(cap, timeLimitSec, input, others), actions)
    ensures var s := After(Start(cap, timeLimitSec, input, others), actions);
      && s.got <= input
      && (Alive(s.child) ==>
            s.got + s.inPipe + (if s.parent.Feeding? then s.parent.rest else []) == input)
  {
    assert [] + [] + input == input;
    RunsInput(Start(cap, timeLimitSec, input, others), actions);
  }

  // ---- The watchdog ----

  ghost predicate PolledAt(actions: seq<Action>, i: nat) { i < |actions| && actions[i].Poll? }

  // A poll at or after the limit.
  ghost predicate LatePoll(actions: seq<Action>, timeoutMs: int) {
    exists i: nat :: PolledAt(actions, i) && actions[i].now >= timeoutMs
  }

  predicate FiredOrNot(s: State, late: bool) {
    late <==> s.parent.Returned? && s.parent.byWatchdog
  }

  lemma {:induction false} FiresByPoll(s: State, actions: seq<Action>)
    requires PipesInv(s) && Runs(s, actions) && !s.parent.Returned?
    ensures FiredOrNot(After(s, actions), LatePoll(actions, s.timeoutMs))
    decreases |actions|
  {
    hide PipesInv;
    if actions != [] {
      var a, rest := actions[0], actions[1..];
      var t := Apply(s, a);
      StepPipes(s, a);
      StepFires(s, a);
      LateFirst(actions, s.timeoutMs);
      if t.parent.Returned? {
        NoMorePolls(t, rest);
      } else {
        FiresByPoll(t, rest);
      }
    }
  }

  lemma StepFires(s: State, a: Action)
    requires Enabled(s, a) && !s.parent.Returned?
    ensures Apply(s, a).timeoutMs == s.timeoutMs
    ensures FiredOrNot(Apply(s, a), a.Poll? && a.now >= s.timeoutMs)
  {}

  lemma LateFirst(actions: seq<Action>, timeoutMs: int)
    requires actions != []
    ensures LatePoll(actions, timeoutMs)
      <==> (actions[0].Poll? && actions[0].now >= timeoutMs) || LatePoll(actions[1..], timeoutMs)
  {
    if actions[0].Poll? && actions[0].now >= timeoutMs {
      assert PolledAt(actions, 0);
    }
    if i: nat :| PolledAt(actions[1..], i) && actions[1..][i].now >= timeoutMs {
      assert PolledAt(actions, i + 1);
    }
    if i: nat :| PolledAt(actions, i) && actions[i].now >= timeoutMs {
      if i > 0 { assert PolledAt(actions[1..], i - 1); }
    }
  }

  lemma {:induction false} NoMorePolls(s: State, actions: seq<Action>)
    requires s.parent.Returned? && Runs(s, actions)
    ensures After(s, actions).parent == s.parent
    ensures forall i: nat :: !PolledAt(actions, i)
    decreases |actions|
  {
    if actions != [] {
      NoMorePolls(Apply(s, actions[0]), actions[1..]);
      forall i: nat ensures !PolledAt(actions, i) {
        if i > 0 { assert !PolledAt(actions[1..], i - 1); }
      }
    }
  }

  // The watchdog ends a run exactly if some poll of it reads the clock at a second past the time
  // limit or later.
  lemma WatchdogIff(cap: nat, timeLimitSec: int, input: seq<Byte>, others: nat, actions: seq<Action>)
    requires Runs(Start(cap, timeLimitSec, input, others), actions)
    ensures var s := After(Start(cap, timeLimitSec, input, others), actions);
      s.parent.Returned? && s.parent.byWatchdog
      <==> exists i: nat :: PolledAt(actions, i) && actions[i].now >= 1000 * timeLimitSec + 1000
  {
    StartPipes(cap, timeLimitSec, input, others);
    FiresByPoll(Start(cap, timeLimitSec, input, others), actions);
  }

  // While the child runs and the limit is not reached the parent polls again, ten milliseconds
  // after the last poll at the earliest, and at any later time.
  lemma PollsTenApart(s: State, now: int, next: int)
    requires s.parent.Watching? && Enabled(s, Poll(now)) && now < s.timeoutMs && Alive(s.child)
    ensures Apply(s, Poll(now)).parent.Watching? && Apply(s, Poll(now)).child == s.child
    ensures Enabled(Apply(s, Poll(now)), Poll(next)) <==> next - now >= 10
  {}

  // Decimal writes a number so that it can be read back, without a leading zero.
  function ReadDecimal(s: string): nat {
    if s == "" then 0
    else 10 * ReadDecimal(s[..|s| - 1]) + (if '0' <= s[|s| - 1] <= '9' then s[|s| - 1] as int - '0' as int else 0)
  }

  lemma {:induction false} DecimalIs(n: nat)
    ensures Decimal(n) != "" && ReadDecimal(Decimal(n)) == n
    ensures forall c :: c in Decimal(n) ==> '0' <= c <= '9'
    ensures n > 0 ==> Decimal(n)[0] != '0'
  {
    DigitIs(n % 10);
    if n < 10 {
      DigitIs(n);
      assert Decimal(n)[..0] == "" && ReadDecimal("") == 0;
    } else {
      DecimalIs(n / 10);
      var init := Decimal(n / 10);
      assert Decimal(n)[..|Decimal(n)| - 1] == init;
    }
  }

  lemma DigitIs(d: nat)
    requires d < 10
    ensures '0' <= ("0123456789")[d] <= '9' && ("0123456789")[d] as int - '0' as int == d
  {}

  // ---- Blocking ----

  predicate ParentBlocked(s: State) {
    s.parent.Feeding? && s.parent.rest != [] && (Alive(s.child) || s.others > 0) && |s.inPipe| == s.cap
  }

  predicate ChildBlockedWriting(s: State) {
    (s.child.WritingOut? && s.child.rest != [] && |s.outPipe| == s.cap)
    || (s.child.WritingErr? && s.child.rest != [] && |s.errPipe| == s.cap)
  }

  // If the input and what the child has asked to write fit the pipes, nobody waits on a write.
  lemma FittingNeverBlocks(cap: nat, timeLimitSec: int, input: seq<Byte>, others: nat, actions: seq<Action>)
    requires Runs(Start(cap, timeLimitSec, input, others), actions) && |input| <= cap
    ensures var s := After(Start(cap, timeLimitSec, input, others), actions);
      !ParentBlocked(s)
      && (|s.saidOut| <= cap && |s.saidErr| <= cap ==> !ChildBlockedWriting(s))
  {
    StartPipes(cap, timeLimitSec, input, others);
    RunsPipes(Start(cap, timeLimitSec, input, others), actions);
  }

  // A child that is not killed, except by the kernel's time limit, and that exits only after
  // asking to write more than a pipe holds.
  ghost predicate Overfills(s: State, actions: seq<Action>)
    requires Runs(s, actions)
    decreases |actions|
  {
    actions == [] ||
    (&& (actions[0].ChildExit? ==> |s.saidOut| > s.cap || |s.saidErr| > s.cap)
     && (actions[0].ChildKilled? ==> actions[0].signal == SIGKILL || actions[0].signal == SIGXCPU)
     && Overfills(Apply(s, actions[0]), actions[1..]))
  }

  ghost predicate DiesByLimit(s: State) {
    s.child.Dead? ==> s.child.status == Signalled(SIGKILL) || s.child.status == Signalled(SIGXCPU)
  }

  lemma StepOverfull(s: State, a: Action)
    requires PipesInv(s) && DiesByLimit(s) && Enabled(s, a)
    requires a.ChildExit? ==> |s.saidOut| > s.cap || |s.saidErr| > s.cap
    requires a.ChildKilled? ==> a.signal == SIGKILL || a.signal == SIGXCPU
    ensures DiesByLimit(Apply(s, a))
  {
    assert s.child.Computing? ==> |s.saidOut| <= s.cap && |s.saidErr| <= s.cap;
  }

  lemma {:induction false} OverfullDies(s: State, actions: seq<Action>)
    requires PipesInv(s) && DiesByLimit(s) && Runs(s, actions) && Overfills(s, actions)
    ensures DiesByLimit(After(s, actions))
    decreases |actions|
  {
    hide PipesInv, DiesByLimit;
    if actions != [] {
      StepPipes(s, actions[0]);
      StepOverfull(s, actions[0]);
      OverfullDies(Apply(s, actions[0]), actions[1..]);
    }
  }

  // Such a child always yields TLE: the parent does not read until it is gone, so it never
  // gets past its write.
  lemma OverfullIsTimeLimit(cap: nat, timeLimitSec: int, input: seq<Byte>, others: nat, actions: seq<Action>)
    requires Runs(Start(cap, timeLimitSec, input, others), actions)
    requires Overfills(Start(cap, timeLimitSec, input, others), actions)
    requires After(Start(cap, timeLimitSec, input, others), actions).parent.Returned?
    ensures After(Start(cap, timeLimitSec, input, others), actions).parent.result.ret == 1
  {
    StartPipes(cap, timeLimitSec, input, others);
    OverfullDies(Start(cap, timeLimitSec, input, others), actions);
    ResultMeaning(cap, timeLimitSec, input, others, actions);
  }

  // ---- Termination of the parent ----

  predicate OfParent(a: Action) {
    a.Feed? || a.FeedBroken? || a.CloseInput? || a.Poll? || a.Read? || a.EndOfFile?
  }

  function ParentWeight(a: Action): nat { if OfParent(a) then 1 else 0 }

  // Polls left before the watchdog must fire.
  function PollsLeft(timeoutMs: int, earliest: int): nat {
    if earliest >= timeoutMs then 1 else (timeoutMs - earliest - 1) / 10 + 2
  }

  // Parent steps still possible.
  function Budget(s: State): nat {
    match s.parent
    case Feeding(rest) => |rest| + 1 + PollsLeft(s.timeoutMs, 0) + 2 * s.cap + 2
    case Watching(earliest) => PollsLeft(s.timeoutMs, earliest) + 2 * s.cap + 2
    case DrainOut(_) => |s.outPipe| + |s.errPipe| + 2
    case DrainErr(_, _) => |s.errPipe| + 1
    case Returned(_, _) => 0
  }

  lemma StepBudget(s: State, a: Action)
    requires PipesInv(s) && Enabled(s, a)
    ensures Budget(Apply(s, a)) + ParentWeight(a) <= Budget(s)
  {}

  lemma {:induction false} ParentBounded(s: State, actions: seq<Action>)
    requires PipesInv(s) && Runs(s, actions)
    ensures Sum(actions, ParentWeight) + Budget(After(s, actions)) <= Budget(s)
    decreases |actions|
  {
    hide PipesInv, Budget;
    if actions != [] {
      StepPipes(s, actions[0]);
      StepBudget(s, actions[0]);
      ParentBounded(Apply(s, actions[0]), actions[1..]);
    }
  }

  // Polls come at least ten milliseconds apart, so their number is bounded too.
  function PollWeight(a: Action): nat { if a.Poll? then 1 else 0 }

  // Polls still possible.
  function PollBudget(s: State): nat {
    if s.parent.Feeding? then PollsLeft(s.timeoutMs, 0)
    else if s.parent.Watching? then PollsLeft(s.timeoutMs, s.parent.earliest)
    else 0
  }

  lemma StepPolls(s: State, a: Action)
    requires Enabled(s, a)
    ensures PollBudget(Apply(s, a)) + PollWeight(a) <= PollBudget(s)
  {}

  lemma {:induction false} PollsBounded(s: State, actions: seq<Action>)
    requires Runs(s, actions)
    ensures Sum(actions, PollWeight) + PollBudget(After(s, actions)) <= PollBudget(s)
    decreases |actions|
  {
    hide PollBudget;
    if actions != [] {
      StepPolls(s, actions[0]);
      PollsBounded(Apply(s, actions[0]), actions[1..]);
    }
  }

  // The child is gone and its output read, but another process still holds a writing end.
  predicate WaitsForOthers(s: State) {
    s.others > 0 && ((s.parent.DrainOut? && s.outPipe == []) || (s.parent.DrainErr? && s.errPipe == []))
  }

  // The parent takes a bounded number of steps in every run, among them at most one poll per
  // ten milliseconds of the limit, and one. If the input fits the pipe, it has returned or has a
  // next step exactly as long as it does not wait for another process's copy of a pipe end.
  lemma ParentAlwaysReturns(cap: nat, timeLimitSec: int, input: seq<Byte>, others: nat, actions: seq<Action>)
    requires Runs(Start(cap, timeLimitSec, input, others), actions) && |input| <= cap
    ensures timeLimitSec >= 0 ==> Sum(actions, PollWeight) <= (timeLimitSec + 1) * 100 + 1
    ensures timeLimitSec < 0 ==> Sum(actions, PollWeight) <= 1
    ensures Sum(actions, ParentWeight) <= |input| + 2 * cap + 3 + PollsLeft((timeLimitSec + 1) * 1000, 0)
    ensures var s := After(Start(cap, timeLimitSec, input, others), actions);
      s.parent.Returned? || (exists a :: Enabled(s, a) && OfParent(a)) <==> !WaitsForOthers(s)
  {
    var s0 := Start(cap, timeLimitSec, input, others);
    StartPipes(cap, timeLimitSec, input, others);
    RunsPipes(s0, actions);
    ParentBounded(s0, actions);
    PollsBounded(s0, actions);
    NextStepIff(After(s0, actions));
  }

  lemma NextStepIff(s: State)
    requires PipesInv(s) && |s.input| <= s.cap
    ensures s.parent.Returned? || (exists a :: Enabled(s, a) && OfParent(a)) <==> !WaitsForOthers(s)
  {
    if !s.parent.Returned? && !WaitsForOthers(s) {
      var a := match s.parent
        case Feeding(rest) =>
          if rest == [] then CloseInput else if s.child.Dead? && s.others == 0 then FeedBroken else Feed(1)
        case Watching(earliest) => Poll(earliest)
        case DrainOut(_) => if s.outPipe == [] then EndOfFile else Read(1)
        case DrainErr(_, _) => if s.errPipe == [] then EndOfFile else Read(1);
      assert Enabled(s, a) && OfParent(a);
    }
  }

  // Such a wait lasts until the last of the other processes is gone, whatever else happens.
  lemma {:induction false} OthersKeepWaiting(s: State, actions: seq<Action>)
    requires PipesInv(s) && WaitsForOthers(s) && Runs(s, actions) && After(s, actions).others > 0
    ensures After(s, actions).parent == s.parent && WaitsForOthers(After(s, actions))
    decreases |actions|
  {
    hide PipesInv, WaitsForOthers;
    if actions != [] {
      OthersOnlyLeave(Apply(s, actions[0]), actions[1..]);
      StepPipes(s, actions[0]);
      StepWaiting(s, actions[0]);
      OthersKeepWaiting(Apply(s, actions[0]), actions[1..]);
    }
  }

  lemma StepWaiting(s: State, a: Action)
    requires PipesInv(s) && WaitsForOthers(s) && Enabled(s, a) && Apply(s, a).others > 0
    ensures Apply(s, a).parent == s.parent && WaitsForOthers(Apply(s, a))
  {}

  lemma {:induction false} OthersOnlyLeave(s: State, actions: seq<Action>)
    requires Runs(s, actions)
    ensures After(s, actions).others <= s.others
    decreases |actions|
  {
    if actions != [] {
      OthersOnlyLeave(Apply(s, actions[0]), actions[1..]);
    }
  }

  // Both processes wait on a write for each other: the parent, whose watchdog has not started,
  // and the child. Of the two, only a signal from outside ends this.
  predicate Wedged(s: State) { ParentBlocked(s) && ChildBlockedWriting(s) }

  lemma WedgedIsStuck(s: State, a: Action)
    requires PipesInv(s) && Wedged(s) && Enabled(s, a)
    ensures a.ChildKilled? || a.OtherGone?
  {}

  // The input fitting the pipe is exactly what rules this out.
  lemma WedgedReachableIff(cap: nat, timeLimitSec: int, input: seq<Byte>, others: nat)
    requires cap > 0
    ensures (exists actions :: Runs(Start(cap, timeLimitSec, input, others), actions)
                               && Wedged(After(Start(cap, timeLimitSec, input, others), actions)))
      <==> |input| > cap
  {
    var s0 := Start(cap, timeLimitSec, input, others);
    if |input| <= cap {
      forall actions | Runs(s0, actions) ensures !Wedged(After(s0, actions)) {
        FittingNeverBlocks(cap, timeLimitSec, input, others, actions);
      }
    } else {
      var much := seq(cap + 1, i => 'x');
      var a, b, c := Feed(cap), ChildSay(much, false), ChildPush(cap);
      var s1 := Apply(s0, a);
      var s2 := Apply(s1, b);
      var s3 := Apply(s2, c);
      RunsCons(s2, c, []);
      RunsCons(s1, b, [c]);
      RunsCons(s0, a, [b] + [c]);
      assert Wedged(After(s0, [a] + ([b] + [c])));
    }
  }

  lemma RunsCons(s: State, a: Action, rest: seq<Action>)
    requires Enabled(s, a) && Runs(Apply(s, a), rest)
    ensures Runs(s, [a] + rest) && After(s, [a] + rest) == After(Apply(s, a), rest)
  {
    assert ([a] + rest)[1..] == rest;
  }

  // ---- The parent's loops ----

  // Polls that neither reach the limit nor find the child gone.
  ghost predicate KeepsPolling(clock: nat -> int, timeoutMs: int, gone: Option<nat>, polls: int) {
    forall k: nat :: k < polls ==> clock(k) < timeoutMs && (gone.Some? ==> k < gone.value)
  }

  // The watchdog and the two read loops, for a child whose death shows up in waitpid from
  // poll `gone` on (never, if None), with the given status and pipe contents. clock(k) is the
  // elapsed time read in poll k; between polls the parent sleeps ten milliseconds. The time of
  // a reaped child is read once more, late milliseconds after the last poll.
  method Supervise(timeLimitSec: int, clock: nat -> int, late: nat, gone: Option<nat>, status: Status,
                   outPipe: seq<Byte>, errPipe: seq<Byte>)
    returns (result: Result, timeMs: int, polls: nat)
    requires clock(0) >= 0 && forall k: nat :: clock(k + 1) >= clock(k) + 10
    ensures polls >= 1
    ensures KeepsPolling(clock, (timeLimitSec + 1) * 1000, gone, polls - 1)
    ensures if clock(polls - 1) >= (timeLimitSec + 1) * 1000
            then result == Result(1, [], "") && timeMs == clock(polls - 1)
            else gone.Some? && polls - 1 >= gone.value && result == Classify(status, outPipe)
                 && timeMs == clock(polls - 1) + late
    ensures polls <= PollsLeft((timeLimitSec + 1) * 1000, 0)
  {
    var timeoutMs := (timeLimitSec + 1) * 1000;
    polls := 0;
    while true
      invariant clock(polls) >= 10 * polls
      invariant KeepsPolling(clock, timeoutMs, gone, polls)
      invariant polls > 0 ==> 10 * (polls - 1) < timeoutMs
      decreases timeoutMs - 10 * polls
    {
      timeMs, polls := clock(polls), polls + 1;
      if timeMs >= timeoutMs {
        return Result(1, [], ""), timeMs, polls;
      }
      if gone.Some? && polls - 1 >= gone.value { break; }
    }
    timeMs := timeMs + late;
    var output := ReadAll(outPipe);
    var _ := ReadAll(errPipe);
    result := Classify(status, output);
  }

  // Reading a pipe to its end, at most 4096 bytes at a time.
  method ReadAll(pipe: seq<Byte>) returns (text: seq<Byte>)
    ensures text == pipe
  {
    text := [];
    var left := pipe;
    while left != []
      invariant text + left == pipe
      decreases |left|
    {
      var n := if |left| < 4096 then |left| else 4096;
      assert left == left[..n] + left[n..];
      text := text + left[..n];
      left := left[n..];
    }
  }
}

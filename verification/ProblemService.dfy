// get_problem_detail and get_testcases of ProblemService on the real pool object: which
// connections they hold, and which cases they list.
module ProblemService {
  import opened TestCases
  import opened Pool

  function SamplesOf(listing: seq<TestCase>): seq<TestCase> {
    if listing == [] then [] else
      var init, c := listing[..|listing| - 1], listing[|listing| - 1];
      SamplesOf(init) + (if c.isSample then [c] else [])
  }

  ghost function SampleTable(table: set<TestCase>): set<TestCase> { set c | c in table && c.isSample }

  lemma {:induction false} SamplesFacts(listing: seq<TestCase>)
    requires forall i, j :: 0 <= i < j < |listing| ==> Before(listing[i], listing[j])
    ensures forall c :: c in SamplesOf(listing) <==> c in listing && c.isSample
    ensures forall i, j :: 0 <= i < j < |SamplesOf(listing)| ==> Before(SamplesOf(listing)[i], SamplesOf(listing)[j])
  {
    if listing != [] {
      var init, c := listing[..|listing| - 1], listing[|listing| - 1];
      SamplesFacts(init);
      assert listing == init + [c];
      forall i | 0 <= i < |SamplesOf(init)| ensures Before(SamplesOf(init)[i], c) {
        assert SamplesOf(init)[i] in init;
      }
    }
  }

  // Selecting the samples of the ordered listing is the ordered listing of the samples.
  lemma SamplesAreListed(listing: seq<TestCase>, table: set<TestCase>, problemId: int)
    requires IsListing(listing, table, problemId)
    ensures IsListing(SamplesOf(listing), SampleTable(table), problemId)
    ensures forall c :: c in SamplesOf(listing) <==> c in table && c.problemId == problemId && c.isSample
  {
    SamplesFacts(listing);
    forall c ensures c in SamplesOf(listing) <==> c in OfProblem(SampleTable(table), problemId) {
      assert c in listing <==> c in OfProblem(table, problemId);
    }
    assert forall c :: c in listing <==> c in OfProblem(table, problemId);
  }

  // get_testcases, by thread t whose get has begun. answered says whether the query and its
  // result succeed; blocked means the call is still waiting in get. What it does to the pool are
  // steps of the pool's callers.
  method GetTestcases(pool: ConnectionPool, listing: seq<TestCase>, includeHidden: bool, answered: bool, ping: Ping,
                      ghost s: State, ghost t: nat)
    returns (blocked: bool, cases: seq<TestCase>, ghost steps: seq<Action>)
    requires pool.Shows(s) && t < |s.callers| && (s.callers[t].WantOne? || s.callers[t].WantSecond?)
    modifies pool
    ensures blocked <==> old(pool.idle) == []
    ensures blocked ==> pool.idle == [] && pool.lost == old(pool.lost)
    ensures !blocked ==> |pool.idle| + pool.lost == old(|pool.idle| + pool.lost)
    ensures !blocked ==> pool.lost == old(pool.lost) + (if ping == Dead then 1 else 0)
    ensures cases == if blocked || ping == Dead || !answered then []
                     else if includeHidden then listing else SamplesOf(listing)
    ensures Runs(s, steps) && pool.Shows(After(s, steps))
    ensures After(s, steps).callers == if blocked then s.callers else s.callers[t := AfterGet(s.callers[t])]
  {
    cases, steps := [], [];
    if pool.idle == [] { return true, [], []; }
    blocked := false;
    var conn := pool.Take(ping);
    ghost var s1 := Apply(s, Get(t, ping));
    RunsCons(s, Get(t, ping), []);
    steps := [Get(t, ping)] + [];
    if conn.None? { return; }
    RunsCons(s1, Leave(t), []);
    RunsCons(s, Get(t, ping), [Leave(t)] + []);
    steps := [Get(t, ping)] + ([Leave(t)] + []);
    if !answered {
      pool.Release(conn.value);
      return;
    }
    var rows := if includeHidden then listing else SamplesOf(listing);
    var i := 0;
    while i < |rows|
      invariant 0 <= i <= |rows| && cases == rows[..i]
    {
      cases := cases + [rows[i]];
      i := i + 1;
    }
    pool.Release(conn.value);
  }

  // Where get_testcases leaves its caller.
  ghost function AfterGet(c: Caller): Caller
    requires c.WantOne? || c.WantSecond?
  {
    if c.WantSecond? then HasLast(c.conn) else Outside
  }

  // What MySQL and the pool answer during one get_problem_detail.
  datatype Answers = Answers(first: Ping, found: bool, second: Ping, samplesAnswered: bool)

  // get_problem_detail. It waits forever exactly when the pool is empty, or when the problem is
  // found through the pool's last connection: then that connection is kept while the thread
  // waits for a second one. Whenever it returns, no connection has been leaked.
  method GetProblemDetail(pool: ConnectionPool, listing: seq<TestCase>, a: Answers, ghost s: State, ghost t: nat)
    returns (blocked: bool, found: bool, samples: seq<TestCase>, ghost steps: seq<Action>)
    requires pool.Shows(s) && t < |s.callers| && s.callers[t].Outside?
    modifies pool
    ensures blocked <==> old(pool.idle) == [] || (|old(pool.idle)| == 1 && a.first != Dead && a.found)
    ensures !blocked ==> |pool.idle| + pool.lost == old(|pool.idle| + pool.lost)
    ensures blocked ==> pool.idle == [] && pool.lost == old(pool.lost)
    ensures !blocked ==> (found <==> a.first != Dead && a.found)
    ensures !blocked && found ==> samples == if a.second == Dead || !a.samplesAnswered then [] else SamplesOf(listing)
    ensures Runs(s, steps) && pool.Shows(After(s, steps))
    ensures |After(s, steps).callers| == |s.callers|
    ensures if blocked then WaitsForever(After(s, steps).callers[t]) else After(s, steps).callers == s.callers
  {
    ghost var begin, get := Begin(t, Detail), Get(t, a.first);
    ghost var s1 := Apply(s, begin);
    found, samples := false, [];
    if pool.idle == [] {
      RunsCons(s, begin, []);
      return true, false, [], [begin] + [];
    }
    blocked := false;
    var conn := pool.Take(a.first);
    ghost var s2 := Apply(s1, get);
    if conn.None? || !a.found {
      if conn.Some? { pool.Release(conn.value); }
      steps := GiveBack(s2, t);
      assert pool.Shows(After(s2, steps));
      RunsCons(s1, get, steps);
      RunsCons(s, begin, [get] + steps);
      steps := [begin] + ([get] + steps);
      return;
    }
    found := true;
    ghost var s3 := Apply(s2, Descend(t));
    ghost var inner;
    blocked, samples, inner := GetTestcases(pool, listing, false, a.samplesAnswered, a.second, s3, t);
    ghost var last := [];
    if !blocked {
      pool.Release(conn.value);
      last := GiveBack(After(s3, inner), t);
    }
    steps := JoinSteps(s, t, a.first, inner, last);
  }

  lemma JoinSteps(s: State, t: nat, first: Ping, inner: seq<Action>, last: seq<Action>) returns (steps: seq<Action>)
    requires var begin, get := Begin(t, Detail), Get(t, first);
      && Enabled(s, begin) && Enabled(Apply(s, begin), get) && Enabled(Apply(Apply(s, begin), get), Descend(t))
      && var s3 := Apply(Apply(Apply(s, begin), get), Descend(t));
         Runs(s3, inner) && Runs(After(s3, inner), last)
    ensures var s3 := Apply(Apply(Apply(s, Begin(t, Detail)), Get(t, first)), Descend(t));
      Runs(s, steps) && After(s, steps) == After(After(s3, inner), last)
  {
    hide Apply, Enabled;
    var begin, get := Begin(t, Detail), Get(t, first);
    var s1 := Apply(s, begin);
    var s2 := Apply(s1, get);
    RunsJoin(Apply(s2, Descend(t)), inner, last);
    RunsCons(s2, Descend(t), inner + last);
    RunsCons(s1, get, [Descend(t)] + (inner + last));
    RunsCons(s, begin, [get] + ([Descend(t)] + (inner + last)));
    steps := [begin] + ([get] + ([Descend(t)] + (inner + last)));
  }

  // The release, if there is something to release.
  lemma GiveBack(s: State, t: nat) returns (steps: seq<Action>)
    requires t < |s.callers|
    requires s.callers[t].Outside? || s.callers[t].HasFirst? || s.callers[t].HasLast?
    ensures Runs(s, steps) && After(s, steps) == if s.callers[t].Outside? then s else Apply(s, Leave(t))
  {
    steps := [];
    if !s.callers[t].Outside? {
      RunsCons(s, Leave(t), []);
      steps := [Leave(t)] + [];
    }
  }
}

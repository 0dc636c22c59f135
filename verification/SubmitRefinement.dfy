// handle_submit, run on the real objects, makes exactly the events of the whole-system model for
// its request: what the guarantees over all interleavings say is about this code.
module SubmitRefinement {
  import opened Common
  import opened RateLimiter
  import opened Submissions
  import E = Executor
  import X = ExecutorService
  import opened Handlers
  import opened Lifecycle

  // The server's objects are in this state of the whole system.
  ghost predicate Shows(server: Server, s: State)
    reads server, server.limiter, server.service
  {
    && server.rows == s.rows && server.service.View() == s.exec
    && server.limiter.lastSubmit == LastAfter(s.calls, s.window) && server.limiter.window == s.window
  }

  // The events of one request, by its answer.
  predicate EventsFor(q: SubmitRequest, now: int, db: Database, r: nat, status: int, events: seq<Event>) {
    var submit := Submit(q.userId, q.problemId, q.code, now);
    var offer := Offer(r, db.timeLimit, db.memoryLimit);
    if status == 429 then events == [submit]
    else if status == 404 || status == 500 then events == [submit, Abort(r)]
    else if status == 503 then events == [submit, Insert(r), offer]
    else if status == 202 then
      |events| == 4 && events[..3] == [submit, Insert(r), offer] && events[3].Deliver?
    else events == []
  }

  method SubmitRequest(server: Server, ghost s: State, q: SubmitRequest, now: int, db: Database)
    returns (status: int, ghost events: seq<Event>)
    requires Good(s) && Shows(server, s) && server.service.Valid() && server.service.holder.None?
    modifies server, server.limiter, server.service
    ensures EventsFor(q, now, db, |s.requests|, status, events)
    ensures Possible(s, events) && Shows(server, Outcome(s, events)) && Good(Outcome(s, events))
  {
    hide Good, EventsFor, Possible, Outcome;
    server.service.Facts();
    ghost var granted := server.Acceptable(q) && Allowed(LastAfter(s.calls, s.window), Call(q.userId, now), s.window);
    status := server.HandleSubmit(q, now, db);
    if granted && status in {202, 503} {
      events := Accepted(s, q, now, db, status, server.service.View());
    } else {
      events := Turned(s, q, now, db, status);
    }
    RunGood(s, events);
  }

  // A request that leaves no row.
  lemma Turned(s: State, q: SubmitRequest, now: int, db: Database, status: int) returns (events: seq<Event>)
    requires status in {400, 401, 413, 429, 404, 500}
    requires status in {429, 404, 500} ==> q.userId > 0 && q.problemId > 0 && q.code != ""
    requires status in {404, 500} ==> Allowed(LastAfter(s.calls, s.window), Call(q.userId, now), s.window)
    requires status == 429 ==> !Allowed(LastAfter(s.calls, s.window), Call(q.userId, now), s.window)
    ensures EventsFor(q, now, db, |s.requests|, status, events) && Possible(s, events)
    ensures var t, c := Outcome(s, events), Call(q.userId, now);
      t.rows == s.rows && t.exec == s.exec && t.window == s.window
      && LastAfter(t.calls, t.window) == if status in {400, 401, 413} then LastAfter(s.calls, s.window)
                                         else Noted(LastAfter(s.calls, s.window), c, s.window)
  {
    events := [];
    if status == 429 {
      events := Limited(s, q, now, db);
    } else if status in {404, 500} {
      events := GivenUp(s, q, now, db, status);
    }
  }

  lemma Limited(s: State, q: SubmitRequest, now: int, db: Database) returns (events: seq<Event>)
    requires q.userId > 0 && q.problemId > 0 && q.code != ""
    requires !Allowed(LastAfter(s.calls, s.window), Call(q.userId, now), s.window)
    ensures EventsFor(q, now, db, |s.requests|, 429, events) && Possible(s, events)
    ensures var t, c := Outcome(s, events), Call(q.userId, now);
      t.rows == s.rows && t.exec == s.exec && t.window == s.window
      && LastAfter(t.calls, t.window) == Noted(LastAfter(s.calls, s.window), c, s.window)
  {
    hide LastAfter, Allowed, Possible, Outcome, Granted;
    var submit := Submit(q.userId, q.problemId, q.code, now);
    GrantedAppend(s.calls, Call(q.userId, now), s.window);
    NothingPossible(Next(s, submit));
    OneByOne(s, submit, []);
    events := [submit];
  }

  lemma GivenUp(s: State, q: SubmitRequest, now: int, db: Database, status: int) returns (events: seq<Event>)
    requires status in {404, 500} && q.userId > 0 && q.problemId > 0 && q.code != ""
    requires Allowed(LastAfter(s.calls, s.window), Call(q.userId, now), s.window)
    ensures EventsFor(q, now, db, |s.requests|, status, events) && Possible(s, events)
    ensures var t, c := Outcome(s, events), Call(q.userId, now);
      t.rows == s.rows && t.exec == s.exec && t.window == s.window
      && LastAfter(t.calls, t.window) == Noted(LastAfter(s.calls, s.window), c, s.window)
  {
    hide LastAfter, Allowed, Possible, Outcome, Granted;
    var submit, abort := Submit(q.userId, q.problemId, q.code, now), Abort(|s.requests|);
    GrantedAppend(s.calls, Call(q.userId, now), s.window);
    AfterSubmit(s, submit);
    NothingPossible(Next(Next(s, submit), abort));
    OneByOne(Next(s, submit), abort, []);
    OneByOne(s, submit, [abort]);
    events := [submit, abort];
    assert [submit] + [abort] == events;
  }

  lemma NothingPossible(s: State)
    ensures Possible(s, []) && Outcome(s, []) == s
  {}

  // A request whose row is inserted.
  lemma Accepted(s: State, q: SubmitRequest, now: int, db: Database, status: int, after: E.State)
      returns (events: seq<Event>)
    requires status in {202, 503} && q.userId > 0 && q.problemId > 0 && q.code != "" && s.exec.holder.None?
    requires Allowed(LastAfter(s.calls, s.window), Call(q.userId, now), s.window)
    requires status == 503 <==> |s.exec.queue| >= s.exec.capacity
    requires if status == 202 then X.Notified(E.TryEnqueue(s.exec, TaskOfRequest(s, q, db)), after) else after == s.exec
    ensures EventsFor(q, now, db, |s.requests|, status, events) && Possible(s, events)
    ensures var t, c := Outcome(s, events), Call(q.userId, now);
      t.rows == s.rows + [NewRow(q.userId, q.problemId, q.code)] && t.exec == after && t.window == s.window
      && LastAfter(t.calls, t.window) == Noted(LastAfter(s.calls, s.window), c, s.window)
  {
    var submit := Submit(q.userId, q.problemId, q.code, now);
    GrantedAppend(s.calls, Call(q.userId, now), s.window);
    var w: nat := 0;
    if status == 202 {
      w := WhoWakes(E.TryEnqueue(s.exec, TaskOfRequest(s, q, db)), after);
    }
    hide E.Apply, E.Enabled, E.TryEnqueue, Possible, Outcome, Ready, Next, X.Notified, Wakes;
    hide EventsFor, LastAfter, Allowed, Noted, NewRow, Granted;
    assert Ready(s, submit) by { CanSubmit(s, submit); }
    NextCalls(s, submit);
    events := InsertAndOffer(s, submit, db.timeLimit, db.memoryLimit, w, after);
    AcceptedShape(q, now, db, |s.requests|, status, w);
  }

  lemma AcceptedShape(q: SubmitRequest, now: int, db: Database, r: nat, status: int, w: nat)
    requires status in {202, 503}
    ensures EventsFor(q, now, db, r, status,
                      [Submit(q.userId, q.problemId, q.code, now), Insert(r), Offer(r, db.timeLimit, db.memoryLimit)]
                      + (if status == 503 then [] else [Deliver(w)]))
  {}

  lemma CanSubmit(s: State, e: Event)
    requires e.Submit? && e.userId > 0 && e.problemId > 0 && e.code != ""
    ensures Ready(s, e)
  {}

  lemma NextCalls(s: State, e: Event)
    requires e.Submit? && Ready(s, e)
    ensures Next(s, e).calls == s.calls + [Call(e.userId, e.now)]
  {}

  ghost predicate Wakes(before: E.State, w: nat, after: E.State) {
    E.Enabled(before, E.NotifyOne(w)) && after == E.Apply(before, E.NotifyOne(w))
  }

  lemma WhoWakes(before: E.State, after: E.State) returns (w: nat)
    requires X.Notified(before, after)
    ensures Wakes(before, w, after)
  {
    w :| E.Enabled(before, E.NotifyOne(w)) && after == E.Apply(before, E.NotifyOne(w));
  }

  function TaskOfRequest(s: State, q: SubmitRequest, db: Database): E.SubmitTask {
    E.SubmitTask(|s.rows|, q.problemId, q.userId, q.code, db.timeLimit, db.memoryLimit)
  }

  lemma OneByOne(s: State, e: Event, rest: seq<Event>)
    requires Ready(s, e) && Possible(Next(s, e), rest)
    ensures Possible(s, [e] + rest) && Outcome(s, [e] + rest) == Outcome(Next(s, e), rest)
    ensures rest == [] ==> [e] + rest == [e] && Outcome(s, [e]) == Next(s, e)
  {
    EventsCons(s, e, rest);
    assert rest == [] ==> [e] + rest == [e];
  }

  // A granted token is one more request, with what was submitted.
  lemma AfterSubmit(s: State, e: Event)
    requires e.Submit? && Ready(s, e) && Allowed(LastAfter(s.calls, s.window), Call(e.userId, e.now), s.window)
    ensures Next(s, e).requests == s.requests + [Request(e.userId, e.problemId, e.code, Admitted)]
    ensures Next(s, e) == s.(calls := Next(s, e).calls, requests := Next(s, e).requests)
  {}

  lemma InsertAndOffer(s: State, e: Event, timeLimit: int, memoryLimit: int, w: nat, after: E.State)
      returns (events: seq<Event>)
    requires e.Submit? && Ready(s, e) && Allowed(LastAfter(s.calls, s.window), Call(e.userId, e.now), s.window)
    requires s.exec.holder.None?
    requires var task := E.SubmitTask(|s.rows|, e.problemId, e.userId, e.code, timeLimit, memoryLimit);
      if |s.exec.queue| >= s.exec.capacity then after == s.exec else Wakes(E.TryEnqueue(s.exec, task), w, after)
    ensures var r, full := |s.requests|, |s.exec.queue| >= s.exec.capacity;
      events == [e, Insert(r), Offer(r, timeLimit, memoryLimit)] + (if full then [] else [Deliver(w)])
    ensures Possible(s, events)
    ensures var t := Outcome(s, events);
      t.rows == s.rows + [NewRow(e.userId, e.problemId, e.code)] && t.exec == after
      && t.calls == Next(s, e).calls && t.window == s.window
  {
    var r := |s.requests|;
    var insert, offer := Insert(r), Offer(r, timeLimit, memoryLimit);
    AfterSubmit(s, e);
    var s1 := Next(s, e);
    var s2 := Next(s1, insert);
    var s3 := Next(s2, offer);
    var last := if |s.exec.queue| >= s.exec.capacity then [] else [Deliver(w)];
    if last != [] {
      OneByOne(s3, Deliver(w), []);
    }
    OneByOne(s2, offer, last);
    OneByOne(s1, insert, [offer] + last);
    OneByOne(s, e, [insert] + ([offer] + last));
    events := [e] + ([insert] + ([offer] + last));
    assert events == [e, insert, offer] + last;
  }
}

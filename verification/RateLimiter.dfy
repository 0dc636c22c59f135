// check_rate_limit of AuthService: at most one accepted submission per user and window. The
// clock is read before the mutex is taken, so readings may reach the table out of order.
module RateLimiter {
  import opened Common

  const NANOS := 1_000_000_000

  // One call: the user and the steady_clock reading in nanoseconds.
  datatype Call = Call(userId: int, now: int)

  // duration_cast<seconds> truncates toward zero.
  function WholeSeconds(nanos: int): int {
    if nanos >= 0 then nanos / NANOS else -((-nanos) / NANOS)
  }

  predicate Allowed(last: map<int, int>, c: Call, window: int) {
    c.userId in last ==> WholeSeconds(c.now - last[c.userId]) >= window
  }

  function Noted(last: map<int, int>, c: Call, window: int): map<int, int> {
    if Allowed(last, c, window) then last[c.userId := c.now] else last
  }

  class Limiter {
    var lastSubmit: map<int, int>
    const window: int

    constructor(window: int)
      ensures this.window == window && lastSubmit == map[]
    {
      this.window, lastSubmit := window, map[];
    }

    // check_rate_limit
    method Check(c: Call) returns (ok: bool)
      modifies this
      ensures ok == Allowed(old(lastSubmit), c, window)
      ensures lastSubmit == Noted(old(lastSubmit), c, window)
    {
      if c.userId in lastSubmit {
        var elapsed := WholeSeconds(c.now - lastSubmit[c.userId]);
        if elapsed < window {
          return false;
        }
      }
      lastSubmit := lastSubmit[c.userId := c.now];
      return true;
    }
  }

  // ---- Whole runs, in the order in which the calls take the mutex ----

  ghost function LastAfter(calls: seq<Call>, window: int): map<int, int> {
    if calls == [] then map[]
    else Noted(LastAfter(calls[..|calls| - 1], window), calls[|calls| - 1], window)
  }

  // The accepted calls, in order.
  ghost function Granted(calls: seq<Call>, window: int): seq<Call> {
    if calls == [] then [] else
      var init, c := calls[..|calls| - 1], calls[|calls| - 1];
      Granted(init, window) + (if Allowed(LastAfter(init, window), c, window) then [c] else [])
  }

  lemma GrantedAppend(calls: seq<Call>, c: Call, window: int)
    ensures LastAfter(calls + [c], window) == Noted(LastAfter(calls, window), c, window)
    ensures Granted(calls + [c], window)
         == Granted(calls, window) + (if Allowed(LastAfter(calls, window), c, window) then [c] else [])
  {
    assert (calls + [c])[..|calls|] == calls;
  }

  ghost predicate Spaced(granted: seq<Call>, gap: int) {
    forall i, j :: 0 <= i < j < |granted| && granted[i].userId == granted[j].userId
      ==> granted[j].now - granted[i].now >= gap
  }

  // The table holds each user's latest grant, which is also the one with the largest reading.
  ghost predicate TableInv(last: map<int, int>, granted: seq<Call>) {
    && (forall g :: g in granted ==> g.userId in last && g.now <= last[g.userId])
    && (forall u :: u in last ==> Call(u, last[u]) in granted)
  }

  lemma WholeSecondsAtLeast(nanos: int, window: int)
    requires window > 0
    ensures WholeSeconds(nanos) >= window <==> nanos >= window * NANOS
  {}

  lemma {:induction false} GrantsInv(calls: seq<Call>, window: int)
    requires window > 0
    ensures TableInv(LastAfter(calls, window), Granted(calls, window))
    ensures Spaced(Granted(calls, window), window * NANOS)
  {
    if calls != [] {
      var init, c := calls[..|calls| - 1], calls[|calls| - 1];
      GrantsInv(init, window);
      var last, granted := LastAfter(init, window), Granted(init, window);
      if Allowed(last, c, window) && c.userId in last {
        WholeSecondsAtLeast(c.now - last[c.userId], window);
      }
      GrantStep(last, granted, c, window);
    }
  }

  lemma GrantStep(last: map<int, int>, granted: seq<Call>, c: Call, window: int)
    requires window > 0 && TableInv(last, granted) && Spaced(granted, window * NANOS)
    ensures var more := granted + (if Allowed(last, c, window) then [c] else []);
      TableInv(Noted(last, c, window), more) && Spaced(more, window * NANOS)
  {
    if Allowed(last, c, window) {
      var more := granted + [c];
      if c.userId in last {
        WholeSecondsAtLeast(c.now - last[c.userId], window);
      }
      forall i | 0 <= i < |granted| && granted[i].userId == c.userId
        ensures c.now - granted[i].now >= window * NANOS
      {
        assert granted[i] in granted;
      }
      forall u | u in Noted(last, c, window) ensures Call(u, Noted(last, c, window)[u]) in more {
        if u == c.userId {
          assert more[|granted|] == c;
        } else {
          assert Call(u, last[u]) in granted;
        }
      }
    }
  }

  // A call is accepted exactly when it comes at least the window after every earlier accepted
  // call of the same user, whatever the order in which the readings arrive.
  lemma AllowedIff(calls: seq<Call>, c: Call, window: int)
    requires window > 0
    ensures Allowed(LastAfter(calls, window), c, window)
      <==> forall g :: g in Granted(calls, window) && g.userId == c.userId ==> c.now - g.now >= window * 1_000_000_000
  {
    GrantsInv(calls, window);
    var last := LastAfter(calls, window);
    if c.userId in last {
      WholeSecondsAtLeast(c.now - last[c.userId], window);
      assert Call(c.userId, last[c.userId]) in Granted(calls, window);
    }
  }

  // For any window, by the latest grant alone: at least so many whole seconds, where what lies
  // between minus and plus one second counts as zero.
  lemma AllowedByLatest(last: map<int, int>, c: Call, window: int)
    ensures c.userId !in last ==> Allowed(last, c, window)
    ensures c.userId in last && window > 0 ==>
      (Allowed(last, c, window) <==> c.now - last[c.userId] >= window * 1_000_000_000)
    ensures c.userId in last && window <= 0 ==>
      (Allowed(last, c, window) <==> c.now - last[c.userId] > (window - 1) * 1_000_000_000)
  {}

  // How many accepted calls of u carry a reading in [from, from + length].
  function Within(u: int, from: int, length: int): Call -> nat {
    (c: Call) => if c.userId == u && from <= c.now <= from + length then 1 else 0
  }

  // At most length / gap + 1 spaced calls fit into an interval of that length.
  lemma {:induction false} SpacedCount(granted: seq<Call>, gap: int, u: int, from: int, length: int)
    requires gap > 0 && Spaced(granted, gap) && length >= 0
    ensures Sum(granted, Within(u, from, length)) <= length / gap + 1
    decreases |granted|
  {
    Nonnegative(length, gap);
    if granted != [] {
      var init, c := granted[..|granted| - 1], granted[|granted| - 1];
      assert granted == init + [c];
      SumAppend(init, c, Within(u, from, length));
      if Within(u, from, length)(c) == 0 {
        SpacedCount(init, gap, u, from, length);
      } else {
        var shorter := c.now - gap - from;
        AllBefore(init, c, gap, u, from, length);
        if shorter >= 0 {
          SpacedCount(init, gap, u, from, shorter);
          DivideStep(shorter, length, gap);
        } else {
          SumBounded(init, Within(u, from, shorter), 0);
        }
      }
    }
  }

  // Whatever was accepted before c, for the same user, lies at least a gap before c.
  lemma AllBefore(init: seq<Call>, c: Call, gap: int, u: int, from: int, length: int)
    requires Spaced(init + [c], gap) && c.userId == u
    ensures Sum(init, Within(u, from, length)) <= Sum(init, Within(u, from, c.now - gap - from))
  {
    var all, shorter := init + [c], c.now - gap - from;
    assert all[|init|] == c;
    forall i | 0 <= i < |init| ensures Within(u, from, length)(init[i]) <= Within(u, from, shorter)(init[i]) {
      assert init[i] == all[i];
    }
    SumMonotone(init, Within(u, from, length), Within(u, from, shorter));
  }

  lemma Nonnegative(length: int, gap: int)
    requires gap > 0 && length >= 0
    ensures length / gap >= 0
  {}

  lemma DivideStep(shorter: int, length: int, gap: int)
    requires gap > 0 && 0 <= shorter && shorter + gap <= length
    ensures shorter / gap + 2 <= length / gap + 1
  {
    var q, r := shorter / gap, length / gap;
    assert q * gap <= shorter && length < (r + 1) * gap;
    assert (q + 1) * gap < (r + 1) * gap;
  }

  lemma GrantsPerInterval(calls: seq<Call>, window: int, u: int, from: int, length: int)
    requires window > 0 && length >= 0
    ensures Sum(Granted(calls, window), Within(u, from, length)) <= length / (window * 1_000_000_000) + 1
  {
    GrantsInv(calls, window);
    SpacedCount(Granted(calls, window), window * NANOS, u, from, length);
  }

  function Only(calls: seq<Call>, u: int): seq<Call> {
    if calls == [] then [] else
      Only(calls[..|calls| - 1], u) + (if calls[|calls| - 1].userId == u then [calls[|calls| - 1]] else [])
  }

  lemma OnlyAppend(calls: seq<Call>, c: Call, u: int)
    ensures Only(calls + [c], u) == Only(calls, u) + (if c.userId == u then [c] else [])
  {
    assert (calls + [c])[..|calls|] == calls;
  }

  // What a table says about one user.
  function EntryOf(last: map<int, int>, u: int): Option<int> {
    if u in last then Some(last[u]) else None
  }

  lemma EntryDecides(a: map<int, int>, b: map<int, int>, c: Call, window: int)
    requires EntryOf(a, c.userId) == EntryOf(b, c.userId)
    ensures Allowed(a, c, window) == Allowed(b, c, window)
    ensures EntryOf(Noted(a, c, window), c.userId) == EntryOf(Noted(b, c, window), c.userId)
    ensures forall u :: u != c.userId ==> EntryOf(Noted(a, c, window), u) == EntryOf(a, u)
  {}

  // Users do not affect each other: the grants of u, and u's entry in the table, are those of
  // a run with only u's calls.
  lemma {:induction false} UsersIndependent(calls: seq<Call>, window: int, u: int)
    ensures Only(Granted(calls, window), u) == Granted(Only(calls, u), window)
    ensures EntryOf(LastAfter(calls, window), u) == EntryOf(LastAfter(Only(calls, u), window), u)
  {
    if calls != [] {
      var init, c := calls[..|calls| - 1], calls[|calls| - 1];
      UsersIndependent(init, window, u);
      assert calls == init + [c];
      GrantedAppend(init, c, window);
      OnlyAppend(init, c, u);
      OnlyAppend(Granted(init, window), c, u);
      assert Granted(init, window) + [] == Granted(init, window) && Only(init, u) + [] == Only(init, u);
      if c.userId == u {
        GrantedAppend(Only(init, u), c, window);
        EntryDecides(LastAfter(init, window), LastAfter(Only(init, u), window), c, window);
      } else {
        EntryDecides(LastAfter(init, window), LastAfter(init, window), c, window);
      }
    }
  }

  // With any other window, truncation toward zero lets a reading pass that is one nanosecond too
  // early.
  lemma EarlyReadingPasses(window: int)
    requires window <= 0
    ensures !Spaced(Granted([] + [Call(1, 0)] + [Call(1, window * NANOS - 1)], window), window * NANOS)
  {
    var first, early := Call(1, 0), Call(1, window * NANOS - 1);
    GrantedAppend([], first, window);
    GrantedAppend([] + [first], early, window);
    EarlyIsAllowed(window, LastAfter([] + [first], window));
    var granted := Granted([] + [first] + [early], window);
    assert granted == [first, early];
    assert granted[1].now - granted[0].now < window * NANOS;
  }

  lemma EarlyIsAllowed(window: int, last: map<int, int>)
    requires window <= 0 && last == map[1 := 0]
    ensures Allowed(last, Call(1, window * NANOS - 1), window)
  {
    assert (1 - window * NANOS) / NANOS == -window;
  }

  // The spacing of GrantsInv is had exactly by the positive windows.
  lemma SpacedIff(window: int)
    ensures (forall calls :: Spaced(Granted(calls, window), window * 1_000_000_000)) <==> window > 0
  {
    hide Spaced, Granted;
    if window > 0 {
      forall calls ensures Spaced(Granted(calls, window), window * NANOS) {
        GrantsInv(calls, window);
      }
    } else {
      EarlyReadingPasses(window);
    }
  }
}

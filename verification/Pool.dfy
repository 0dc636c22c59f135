// The connection pool and its callers. get waits without limit, try_get for a bounded time;
// both ping the connection under the pool's mutex and try to reconnect a dead one.
// get_problem_detail keeps one connection while get_testcases takes a second.
module Pool {
  import opened Common

  type Conn = nat

  // What mysql_ping and, if needed, create_connection say.
  datatype Ping = Alive | Reconnected | Dead

  // ---- The pool as an object ----

  class ConnectionPool {
    var idle: seq<Conn>       // pool_
    var nextConn: nat         // connections are named in order of creation
    ghost var lost: nat       // slots given up to failed reconnects

    // The pool is in this state of the step system below.
    ghost predicate Shows(s: State)
      reads this
    {
      idle == s.idle && nextConn == s.nextConn && lost == s.lost
    }

    // init: stops at the first connection that cannot be made.
    constructor(poolSize: int, creates: seq<bool>)
      requires |creates| >= poolSize
      ensures lost == 0 && |idle| == nextConn
      ensures |idle| <= Max(poolSize, 0) && (forall i :: 0 <= i < |idle| ==> creates[i] && idle[i] == i)
      ensures |idle| < poolSize ==> !creates[|idle|]
    {
      idle, nextConn, lost := [], 0, 0;
      new;
      var i := 0;
      while i < poolSize
        invariant 0 <= i <= Max(poolSize, 0) && |idle| == nextConn == i && lost == 0
        invariant forall j :: 0 <= j < |idle| ==> creates[j] && idle[j] == j
      {
        if !creates[i] { return; }
        idle := idle + [nextConn];
        nextConn := nextConn + 1;
        i := i + 1;
      }
    }

    // get and try_get once a connection is there: the last one is taken; a failed reconnect
    // returns null and the slot is gone.
    method Take(ping: Ping) returns (conn: Option<Conn>)
      requires idle != []
      modifies this
      ensures (idle, nextConn, lost, conn) == Taken(old(idle), old(nextConn), old(lost), ping)
      ensures ping == Alive ==> old(idle) == idle + [conn.value] && lost == old(lost)
      ensures ping == Reconnected ==>
        conn == Some(old(nextConn)) && nextConn == old(nextConn) + 1 && lost == old(lost)
        && idle == old(idle)[..|old(idle)| - 1]
      ensures ping == Dead ==> conn.None? && lost == old(lost) + 1 && idle == old(idle)[..|old(idle)| - 1]
    {
      var last := idle[|idle| - 1];
      idle := idle[..|idle| - 1];
      match ping
      case Alive =>
        conn := Some(last);
        assert old(idle) == idle + [last];
      case Reconnected =>
        conn := Some(nextConn);
        nextConn := nextConn + 1;
      case Dead =>
        conn := None;
        lost := lost + 1;
    }

    // try_get: null when nothing was released within the timeout.
    method TryGet(ping: Ping) returns (conn: Option<Conn>)
      modifies this
      ensures old(idle) == [] ==> conn.None? && idle == [] && nextConn == old(nextConn) && lost == old(lost)
      ensures old(idle) != [] ==> (idle, nextConn, lost, conn) == Taken(old(idle), old(nextConn), old(lost), ping)
    {
      if idle == [] {
        return None;
      }
      conn := Take(ping);
    }

    method Release(conn: Conn)
      modifies this`idle
      ensures idle == old(idle) + [conn]
    {
      idle := idle + [conn];
    }
  }

  function Taken(idle: seq<Conn>, nextConn: nat, lost: nat, ping: Ping): (seq<Conn>, nat, nat, Option<Conn>)
    requires idle != []
  {
    var rest, last := idle[..|idle| - 1], idle[|idle| - 1];
    match ping
    case Alive => (rest, nextConn, lost, Some(last))
    case Reconnected => (rest, nextConn + 1, lost, Some(nextConn))
    case Dead => (rest, nextConn, lost + 1, None)
  }

  // ---- The pool and its callers as a step system ----

  // Where a thread stands in the one database call it is making.
  datatype Caller =
    | Outside
    | WantOne                                    // get: every caller but get_problem_detail
    | WantSoon                                   // try_get: judge and update_status
    | HasOne(conn: Conn)                         // will release it without asking for another
    | WantFirst                                  // get_problem_detail's own get
    | HasFirst(conn: Conn)
    | WantSecond(conn: Conn)                     // in get_testcases, still holding the first
    | HasBoth(conn: Conn, second: Conn)
    | HasLast(conn: Conn)                        // get_testcases has returned

  datatype Kind = Single | Timed | Detail

  datatype State = State(poolSize: nat, idle: seq<Conn>, nextConn: nat, lost: nat, callers: seq<Caller>)

  datatype Action =
    | Begin(t: nat, kind: Kind)
    | Get(t: nat, ping: Ping)
    | GiveUp(t: nat)       // try_get's timeout
    | Descend(t: nat)      // the problem was found, get_testcases is called
    | Leave(t: nat)        // release

  function Numbers(n: nat): seq<Conn> { seq(n, i => i) }

  function Start(poolSize: nat, threads: nat): State {
    State(poolSize, Numbers(poolSize), poolSize, 0, seq(threads, i => Outside))
  }

  predicate Wants(c: Caller) { c.WantOne? || c.WantSoon? || c.WantFirst? || c.WantSecond? }

  // Waiting in get, which has no timeout.
  predicate WaitsForever(c: Caller) { c.WantOne? || c.WantFirst? || c.WantSecond? }

  predicate Enabled(s: State, a: Action) {
    && a.t < |s.callers|
    && var c := s.callers[a.t];
       match a
       case Begin(_, _) => c.Outside?
       case Get(_, _) => Wants(c) && s.idle != []
       case GiveUp(_) => c.WantSoon? && s.idle == []
       case Descend(_) => c.HasFirst?
       case Leave(_) => c.HasOne? || c.HasFirst? || c.HasBoth? || c.HasLast?
  }

  // The caller after its get or try_get returned.
  function Served(c: Caller, conn: Option<Conn>): Caller
    requires Wants(c)
  {
    match c
    case WantFirst => if conn.Some? then HasFirst(conn.value) else Outside
    case WantSecond(first) => if conn.Some? then HasBoth(first, conn.value) else HasLast(first)
    case _ => if conn.Some? then HasOne(conn.value) else Outside
  }

  function Apply(s: State, a: Action): State
    requires Enabled(s, a)
  {
    var c := s.callers[a.t];
    match a
    case Begin(t, kind) =>
      s.(callers := s.callers[t := match kind case Single => WantOne case Timed => WantSoon case Detail => WantFirst])
    case Get(t, ping) =>
      var (idle, nextConn, lost, conn) := Taken(s.idle, s.nextConn, s.lost, ping);
      s.(idle := idle, nextConn := nextConn, lost := lost, callers := s.callers[t := Served(c, conn)])
    case GiveUp(t) => s.(callers := s.callers[t := Outside])
    case Descend(t) => s.(callers := s.callers[t := WantSecond(c.conn)])
    case Leave(t) =>
      if c.HasBoth? then s.(idle := s.idle + [c.second], callers := s.callers[t := HasLast(c.conn)])
      else s.(idle := s.idle + [c.conn], callers := s.callers[t := Outside])
  }

  ghost predicate Runs(s: State, actions: seq<Action>)
    decreases |actions|
  {
    actions == [] || (Enabled(s, actions[0]) && Runs(Apply(s, actions[0]), actions[1..]))
  }

  ghost function After(s: State, actions: seq<Action>): State
    requires Runs(s, actions)
    decreases |actions|
  {
    if actions == [] then s else After(Apply(s, actions[0]), actions[1..])
  }

  // ---- Conservation ----

  function HeldBy(c: Caller): multiset<Conn> {
    match c
    case HasOne(conn) => multiset{conn}
    case HasFirst(conn) => multiset{conn}
    case WantSecond(conn) => multiset{conn}
    case HasBoth(conn, second) => multiset{conn, second}
    case HasLast(conn) => multiset{conn}
    case _ => multiset{}
  }

  ghost function Held(callers: seq<Caller>): multiset<Conn> {
    if callers == [] then multiset{} else HeldBy(callers[0]) + Held(callers[1..])
  }

  lemma {:induction false} HeldUpdate(callers: seq<Caller>, t: nat, c: Caller)
    requires t < |callers|
    ensures Held(callers[t := c]) + HeldBy(callers[t]) == Held(callers) + HeldBy(c)
  {
    if t > 0 {
      assert callers[t := c][1..] == callers[1..][t - 1 := c];
      HeldUpdate(callers[1..], t - 1, c);
      Regroup(HeldBy(callers[0]), Held(callers[t := c][1..]), HeldBy(callers[t]), Held(callers[1..]), HeldBy(c));
    } else {
      assert callers[t := c][1..] == callers[1..];
    }
  }

  lemma Regroup(h: multiset<Conn>, a: multiset<Conn>, b: multiset<Conn>, c: multiset<Conn>, d: multiset<Conn>)
    requires a + b == c + d
    ensures (h + a) + b == (h + c) + d
  {
    assert (h + a) + b == h + (a + b) && (h + c) + d == h + (c + d);
  }

  lemma HeldGains(callers: seq<Caller>, t: nat, c: Caller, extra: multiset<Conn>)
    requires t < |callers| && HeldBy(c) == HeldBy(callers[t]) + extra
    ensures Held(callers[t := c]) == Held(callers) + extra
  {
    HeldUpdate(callers, t, c);
    Cancel(Held(callers[t := c]), HeldBy(callers[t]), Held(callers), extra);
  }

  lemma HeldLoses(callers: seq<Caller>, t: nat, c: Caller, extra: multiset<Conn>)
    requires t < |callers| && HeldBy(callers[t]) == HeldBy(c) + extra
    ensures Held(callers) == Held(callers[t := c]) + extra
  {
    HeldUpdate(callers, t, c);
    Cancel(Held(callers), HeldBy(c), Held(callers[t := c]), extra);
  }

  lemma Cancel(a: multiset<Conn>, b: multiset<Conn>, c: multiset<Conn>, extra: multiset<Conn>)
    requires a + b == c + (b + extra)
    ensures a == c + extra
  {
    forall x: Conn ensures a[x] == (c + extra)[x] {
      assert (a + b)[x] == (c + (b + extra))[x];
    }
  }

  // Every open connection, idle or held.
  ghost function Open(s: State): multiset<Conn> { multiset(s.idle) + Held(s.callers) }

  // No connection is in two places, and open and lost slots add up to the pool size.
  ghost predicate Balanced(open: multiset<Conn>, nextConn: nat, lost: nat, poolSize: nat) {
    && (forall conn :: open[conn] <= 1)
    && (forall conn :: conn in open ==> conn < nextConn)
    && |open| + lost == poolSize
  }

  ghost predicate Inv(s: State) { Balanced(Open(s), s.nextConn, s.lost, s.poolSize) }

  lemma {:induction false} OutsideHolds(callers: seq<Caller>)
    requires forall t :: 0 <= t < |callers| ==> HeldBy(callers[t]) == multiset{}
    ensures Held(callers) == multiset{}
  {
    if callers != [] { OutsideHolds(callers[1..]); }
  }

  lemma {:induction false} NumbersDistinct(n: nat)
    ensures forall conn: Conn :: multiset(Numbers(n))[conn] == if conn < n then 1 else 0
  {
    if n > 0 {
      NumbersDistinct(n - 1);
      assert Numbers(n) == Numbers(n - 1) + [n - 1];
    }
  }

  lemma StartInv(poolSize: nat, threads: nat)
    ensures Inv(Start(poolSize, threads))
  {
    OutsideHolds(Start(poolSize, threads).callers);
    NumbersDistinct(poolSize);
  }

  // Taking the last idle connection: kept, replaced by a fresh one, or dropped.
  lemma OpenAfterTake(rest: multiset<Conn>, last: Conn, held: multiset<Conn>)
    ensures rest + (held + multiset{last}) == (rest + multiset{last}) + held
    ensures (rest + (held + multiset{})) + multiset{last} == (rest + multiset{last}) + held
    ensures forall x: Conn :: rest + (held + multiset{x}) == (rest + (held + multiset{})) + multiset{x}
  {}

  lemma BalancedAfterTake(without: multiset<Conn>, last: Conn, nextConn: nat, lost: nat, poolSize: nat)
    requires Balanced(without + multiset{last}, nextConn, lost, poolSize)
    ensures Balanced(without, nextConn, lost + 1, poolSize)
    ensures Balanced(without + multiset{nextConn}, nextConn + 1, lost, poolSize)
  {
    var all := without + multiset{last};
    forall conn ensures without[conn] <= all[conn] {}
    assert nextConn !in all;
  }

  lemma StepGet(s: State, a: Action)
    requires Inv(s) && Enabled(s, a) && a.Get?
    ensures Inv(Apply(s, a))
  {
    hide Held, HeldBy, Balanced, Served, Taken;
    var c, conn := s.callers[a.t], Taken(s.idle, s.nextConn, s.lost, a.ping).3;
    TakenBalanced(s.idle, Held(s.callers), s.nextConn, s.lost, s.poolSize, a.ping);
    ServedHolds(c, conn);
    HeldGains(s.callers, a.t, Served(c, conn), Received(conn));
  }

  lemma TakenBalanced(idle: seq<Conn>, held: multiset<Conn>, nextConn: nat, lost: nat, poolSize: nat, ping: Ping)
    requires idle != [] && Balanced(multiset(idle) + held, nextConn, lost, poolSize)
    ensures var (i, n, l, conn) := Taken(idle, nextConn, lost, ping);
      Balanced(multiset(i) + (held + Received(conn)), n, l, poolSize)
  {
    hide Balanced;
    var last, rest := idle[|idle| - 1], idle[..|idle| - 1];
    assert idle == rest + [last];
    assert multiset(idle) == multiset(rest) + multiset{last};
    OpenAfterTake(multiset(rest), last, held);
    BalancedAfterTake(multiset(rest) + (held + multiset{}), last, nextConn, lost, poolSize);
  }

  function Received(conn: Option<Conn>): multiset<Conn> {
    if conn.Some? then multiset{conn.value} else multiset{}
  }

  lemma ServedHolds(c: Caller, conn: Option<Conn>)
    requires Wants(c)
    ensures HeldBy(Served(c, conn)) == HeldBy(c) + Received(conn)
  {
    if !c.WantSecond? {
      NothingPlus(Received(conn));
    } else if conn.Some? {
      OnePlusOne(c.conn, conn.value);
    } else {
      NothingMore(multiset{c.conn});
    }
  }

  lemma NothingPlus(m: multiset<Conn>)
    ensures multiset{} + m == m
  {}

  lemma NothingMore(m: multiset<Conn>)
    ensures m + multiset{} == m
  {}

  lemma OnePlusOne(a: Conn, b: Conn)
    ensures multiset{a} + multiset{b} == multiset{a, b}
  {}

  lemma OpenAfterRelease(idle: multiset<Conn>, held: multiset<Conn>, back: Conn)
    ensures (idle + multiset{back}) + held == idle + (held + multiset{back})
  {}

  lemma StepLeave(s: State, a: Action)
    requires Inv(s) && Enabled(s, a) && a.Leave?
    ensures Inv(Apply(s, a))
  {
    hide Held, Balanced;
    var t, c := Apply(s, a), s.callers[a.t];
    var back := if c.HasBoth? then c.second else c.conn;
    LeaveHolds(c);
    HeldLoses(s.callers, a.t, t.callers[a.t], multiset{back});
    assert multiset(t.idle) == multiset(s.idle) + multiset{back};
    OpenAfterRelease(multiset(s.idle), Held(t.callers), back);
  }

  lemma LeaveHolds(c: Caller)
    ensures c.HasBoth? ==> HeldBy(c) == HeldBy(HasLast(c.conn)) + multiset{c.second}
    ensures c.HasOne? || c.HasFirst? || c.HasLast? ==> HeldBy(c) == HeldBy(Outside) + multiset{c.conn}
  {}

  lemma StepInv(s: State, a: Action)
    requires Inv(s) && Enabled(s, a)
    ensures Inv(Apply(s, a))
    ensures Apply(s, a).poolSize == s.poolSize && |Apply(s, a).callers| == |s.callers|
    ensures s.lost <= Apply(s, a).lost && (!(a.Get? && a.ping == Dead) ==> Apply(s, a).lost == s.lost)
  {
    StepKeepsSize(s, a);
    hide Inv, Apply;
    match a
    case Get(_, _) => StepGet(s, a);
    case Leave(_) => StepLeave(s, a);
    case _ => StepOther(s, a);
  }

  lemma StepKeepsSize(s: State, a: Action)
    requires Enabled(s, a)
    ensures Apply(s, a).poolSize == s.poolSize && |Apply(s, a).callers| == |s.callers|
    ensures s.lost <= Apply(s, a).lost && (!(a.Get? && a.ping == Dead) ==> Apply(s, a).lost == s.lost)
  {}

  lemma StepOther(s: State, a: Action)
    requires Inv(s) && Enabled(s, a) && !a.Get? && !a.Leave?
    ensures Inv(Apply(s, a))
  {
    hide Held, Balanced;
    OtherHolds(s, a);
    HeldGains(s.callers, a.t, Apply(s, a).callers[a.t], multiset{});
    assert Held(s.callers) + multiset{} == Held(s.callers);
  }

  lemma OtherHolds(s: State, a: Action)
    requires Enabled(s, a) && !a.Get? && !a.Leave?
    ensures HeldBy(Apply(s, a).callers[a.t]) == HeldBy(s.callers[a.t]) + multiset{}
    ensures Apply(s, a).callers == s.callers[a.t := Apply(s, a).callers[a.t]]
  {}

  // Over every run of get, try_get and release: idle and held connections are duplicate-free
  // and disjoint, and |idle| + |held| + |lost| is the pool size.
  lemma {:induction false} PoolConserved(s: State, actions: seq<Action>)
    requires Inv(s) && Runs(s, actions)
    ensures Inv(After(s, actions))
    ensures var t := After(s, actions);
      |t.idle| + |Held(t.callers)| + t.lost == t.poolSize == s.poolSize && s.lost <= t.lost
    decreases |actions|
  {
    if actions != [] {
      StepInv(s, actions[0]);
      PoolConserved(Apply(s, actions[0]), actions[1..]);
    }
  }

  // Connections that a caller has been given and not given back.
  ghost predicate HeldByOne(s: State, t: nat, conn: Conn) {
    t < |s.callers| && conn in HeldBy(s.callers[t])
  }

  // What get and try_get hand out. A connection that answers the ping is one of the idle ones. A
  // dead one is closed: it is open nowhere afterwards, and what the caller receives in its place
  // has never been open before; if the reconnect fails, it receives nothing.
  lemma ReceivedConnection(s: State, t: nat, ping: Ping)
    requires Inv(s) && Enabled(s, Get(t, ping))
    ensures var u, last := Apply(s, Get(t, ping)), s.idle[|s.idle| - 1];
      && (ping == Alive ==> HeldByOne(u, t, last) && last !in u.idle)
      && (ping == Reconnected ==>
            last !in Open(u) && s.nextConn !in Open(s) && HeldByOne(u, t, s.nextConn) && s.nextConn !in u.idle)
      && (ping == Dead ==> last !in Open(u) && HeldBy(u.callers[t]) == HeldBy(s.callers[t]))
  {
    var conn := Taken(s.idle, s.nextConn, s.lost, ping).3;
    GetIs(s, t, ping);
    LeftInIdle(s, t, ping);
    CallerReceives(s, t, ping);
    OpenAfterGet(s, t, ping);
    hide Held, HeldBy, Inv, Served, Apply, Taken, Open;
  }

  lemma LeftInIdle(s: State, t: nat, ping: Ping)
    requires Inv(s) && Enabled(s, Get(t, ping))
    ensures s.idle[|s.idle| - 1] !in Apply(s, Get(t, ping)).idle && s.idle[|s.idle| - 1] != s.nextConn
    ensures s.nextConn !in Apply(s, Get(t, ping)).idle && s.nextConn !in Open(s)
  {
    LastIsLeft(s.idle, Held(s.callers), s.nextConn, s.lost, s.poolSize);
    GetIs(s, t, ping);
    hide Held, Balanced, Apply, Taken;
  }

  lemma CallerReceives(s: State, t: nat, ping: Ping)
    requires Enabled(s, Get(t, ping))
    ensures var conn := Taken(s.idle, s.nextConn, s.lost, ping).3;
      && (conn.Some? ==> HeldByOne(Apply(s, Get(t, ping)), t, conn.value))
      && (conn.None? ==> HeldBy(Apply(s, Get(t, ping)).callers[t]) == HeldBy(s.callers[t]))
  {
    var conn := Taken(s.idle, s.nextConn, s.lost, ping).3;
    GetIs(s, t, ping);
    ServedHolds(s.callers[t], conn);
    hide Served, HeldBy, Taken, Apply;
    NothingMore(HeldBy(s.callers[t]));
    assert conn.Some? ==> conn.value in HeldBy(s.callers[t]) + Received(conn);
  }

  // The connection taken out stays open only if it is the one handed out.
  lemma OpenAfterGet(s: State, t: nat, ping: Ping)
    requires Inv(s) && Enabled(s, Get(t, ping))
    ensures var conn := Taken(s.idle, s.nextConn, s.lost, ping).3;
      s.idle[|s.idle| - 1] in Open(Apply(s, Get(t, ping))) <==> s.idle[|s.idle| - 1] in Received(conn)
  {
    var conn := Taken(s.idle, s.nextConn, s.lost, ping).3;
    var rest, last := s.idle[..|s.idle| - 1], s.idle[|s.idle| - 1];
    LastIsLeft(s.idle, Held(s.callers), s.nextConn, s.lost, s.poolSize);
    OpenIs(s, t, ping);
    NowhereIn(multiset(rest), Held(s.callers), Received(conn), last);
    hide Held, Inv, Apply, Taken, Received, Open;
  }

  lemma OpenIs(s: State, t: nat, ping: Ping)
    requires Enabled(s, Get(t, ping))
    ensures var conn := Taken(s.idle, s.nextConn, s.lost, ping).3;
      Open(Apply(s, Get(t, ping))) == multiset(s.idle[..|s.idle| - 1]) + (Held(s.callers) + Received(conn))
  {
    var c, conn := s.callers[t], Taken(s.idle, s.nextConn, s.lost, ping).3;
    ServedHolds(c, conn);
    HeldGains(s.callers, t, Served(c, conn), Received(conn));
    GetIs(s, t, ping);
    hide Held, HeldBy, Served, Apply, Taken, Received;
  }

  lemma NowhereIn(rest: multiset<Conn>, held: multiset<Conn>, extra: multiset<Conn>, x: Conn)
    ensures x !in rest && x !in held ==> (x in rest + (held + extra) <==> x in extra)
  {}

  lemma GetIs(s: State, t: nat, ping: Ping)
    requires Enabled(s, Get(t, ping))
    ensures var u, conn := Apply(s, Get(t, ping)), Taken(s.idle, s.nextConn, s.lost, ping).3;
      && u.idle == s.idle[..|s.idle| - 1] && u.callers == s.callers[t := Served(s.callers[t], conn)]
      && conn == match ping
                 case Alive => Some(s.idle[|s.idle| - 1])
                 case Reconnected => Some(s.nextConn)
                 case Dead => None
  {
    hide Served;
  }

  // The last idle connection is nowhere else, and the next name is not in use.
  lemma LastIsLeft(idle: seq<Conn>, held: multiset<Conn>, nextConn: nat, lost: nat, poolSize: nat)
    requires idle != [] && Balanced(multiset(idle) + held, nextConn, lost, poolSize)
    ensures var rest, last := idle[..|idle| - 1], idle[|idle| - 1];
      && last !in multiset(rest) && last !in rest && last !in held && last != nextConn
      && nextConn !in multiset(idle) + held && nextConn !in rest
  {
    var rest, last := idle[..|idle| - 1], idle[|idle| - 1];
    assert idle == rest + [last];
    var open := multiset(idle) + held;
    assert open[last] == multiset(rest)[last] + 1 + held[last] <= 1;
    assert last in open && nextConn !in open;
    assert forall x :: x in rest ==> x in multiset(rest) && x in open;
  }

  // ---- Deadlock ----

  // A thread in a call can move, unless it waits in get for a pool that is empty.
  predicate CanMove(s: State, t: nat)
    requires t < |s.callers|
  {
    !s.callers[t].Outside? && (WaitsForever(s.callers[t]) ==> s.idle != [])
  }

  ghost predicate Deadlocked(s: State) {
    && (exists t :: 0 <= t < |s.callers| && WaitsForever(s.callers[t]))
    && (forall t :: 0 <= t < |s.callers| ==> !CanMove(s, t))
  }

  // Connections that can still be handed out or come back.
  function Live(s: State): int { s.poolSize - s.lost }

  function InDetail(c: Caller): nat {
    if c.WantFirst? || c.HasFirst? || c.WantSecond? || c.HasBoth? || c.HasLast? then 1 else 0
  }

  function WaitsWithOne(c: Caller): nat { if c.WantSecond? then 1 else 0 }

  lemma {:induction false} WaitersHold(callers: seq<Caller>)
    requires forall t :: 0 <= t < |callers| ==> callers[t].Outside? || WaitsForever(callers[t])
    ensures |Held(callers)| == Sum(callers, WaitsWithOne)
  {
    if callers != [] { WaitersHold(callers[1..]); }
  }

  // A deadlock means exactly this: every live connection is held by a get_problem_detail that
  // waits for its second one.
  lemma DeadlockShape(s: State)
    requires Inv(s)
    ensures Deadlocked(s) <==>
      && s.idle == []
      && (exists t :: 0 <= t < |s.callers| && WaitsForever(s.callers[t]))
      && (forall t :: 0 <= t < |s.callers| ==> s.callers[t].Outside? || WaitsForever(s.callers[t]))
    ensures Deadlocked(s) ==> Sum(s.callers, WaitsWithOne) == Live(s)
  {
    if Deadlocked(s) {
      var t :| 0 <= t < |s.callers| && WaitsForever(s.callers[t]);
      assert !CanMove(s, t);
      forall u | 0 <= u < |s.callers| ensures s.callers[u].Outside? || WaitsForever(s.callers[u]) {
        assert !CanMove(s, u);
      }
      WaitersHold(s.callers);
    }
  }

  // Fewer callers in get_problem_detail than live connections: no deadlock.
  lemma NoDeadlock(s: State)
    requires Inv(s) && Sum(s.callers, InDetail) < Live(s)
    ensures !Deadlocked(s)
  {
    DeadlockShape(s);
    SumMonotone(s.callers, WaitsWithOne, InDetail);
  }

  // ... and then, without new calls and failed reconnects, every call completes: each step
  // uses up some of a fixed budget, and while a call is unfinished some step is possible.
  function StepsLeft(c: Caller): nat {
    match c
    case Outside => 0
    case WantOne => 2
    case WantSoon => 2
    case HasOne(_) => 1
    case WantFirst => 5
    case HasFirst(_) => 4
    case WantSecond(_) => 3
    case HasBoth(_, _) => 2
    case HasLast(_) => 1
  }

  // A step that neither starts a call nor loses a connection.
  ghost predicate Continues(s: State, a: Action) {
    Enabled(s, a) && !a.Begin? && (a.Get? ==> a.ping != Dead)
  }

  ghost predicate NoNewCalls(actions: seq<Action>) {
    forall i :: 0 <= i < |actions| ==> !actions[i].Begin? && (actions[i].Get? ==> actions[i].ping != Dead)
  }

  // A step changes only its own caller, and brings that one closer to the end of its call.
  lemma StepTouchesOne(s: State, a: Action)
    requires Continues(s, a)
    ensures var t := Apply(s, a);
      && a.t < |s.callers| == |t.callers| && t.callers == s.callers[a.t := t.callers[a.t]]
      && StepsLeft(t.callers[a.t]) < StepsLeft(s.callers[a.t]) && InDetail(t.callers[a.t]) <= InDetail(s.callers[a.t])
  {}

  lemma StepBudget(s: State, a: Action)
    requires Inv(s) && Continues(s, a)
    ensures Sum(Apply(s, a).callers, StepsLeft) < Sum(s.callers, StepsLeft)
    ensures Sum(Apply(s, a).callers, InDetail) <= Sum(s.callers, InDetail)
  {
    StepTouchesOne(s, a);
    var before, after, t := s.callers, Apply(s, a).callers, a.t;
    hide Sum, Apply, StepsLeft, InDetail, Inv;
    SumUpdate(before, t, after[t], StepsLeft);
    SumUpdate(before, t, after[t], InDetail);
  }

  lemma {:induction false} CallsComplete(s: State, actions: seq<Action>)
    requires Inv(s) && Sum(s.callers, InDetail) < Live(s)
    requires Runs(s, actions) && NoNewCalls(actions)
    ensures |actions| + Sum(After(s, actions).callers, StepsLeft) <= Sum(s.callers, StepsLeft)
    ensures var t := After(s, actions);
      (forall u :: 0 <= u < |t.callers| ==> t.callers[u].Outside?) || (exists a :: Continues(t, a))
    decreases |actions|
  {
    hide Sum, Inv;
    if actions == [] {
      NoDeadlock(s);
      SomeStep(s);
    } else {
      StepInv(s, actions[0]);
      StepBudget(s, actions[0]);
      CallsComplete(Apply(s, actions[0]), actions[1..]);
    }
  }

  lemma SomeStep(s: State)
    requires !Deadlocked(s)
    ensures (forall t :: 0 <= t < |s.callers| ==> s.callers[t].Outside?) || (exists a :: Continues(s, a))
  {
    if t :| 0 <= t < |s.callers| && CanMove(s, t) {
      var c := s.callers[t];
      var a := if Wants(c) && s.idle != [] then Get(t, Alive) else if c.WantSoon? then GiveUp(t) else Leave(t);
      assert Continues(s, a);
    } else {
      forall t | 0 <= t < |s.callers| && !s.callers[t].Outside? ensures WaitsForever(s.callers[t]) {
        assert !CanMove(s, t);
      }
    }
  }

  // ---- When a deadlock can be reached at all ----

  function DeadWeight(a: Action): nat { if a.Get? && a.ping == Dead then 1 else 0 }

  // Failed reconnects in a run.
  ghost function Losses(actions: seq<Action>): nat { Sum(actions, DeadWeight) }

  lemma {:induction false} LossesCount(s: State, actions: seq<Action>)
    requires Runs(s, actions)
    ensures After(s, actions).lost == s.lost + Losses(actions) && |After(s, actions).callers| == |s.callers|
    decreases |actions|
  {
    if actions != [] {
      StepLosses(s, actions[0]);
      LossesCount(Apply(s, actions[0]), actions[1..]);
    }
  }

  lemma StepLosses(s: State, a: Action)
    requires Enabled(s, a)
    ensures Apply(s, a).lost == s.lost + DeadWeight(a) && |Apply(s, a).callers| == |s.callers|
  {}

  ghost predicate AllOutside(s: State) { forall t :: 0 <= t < |s.callers| ==> s.callers[t].Outside? }

  // One thread can lose any number of idle connections, call by call.
  lemma {:induction false} LoseSome(s: State, k: nat) returns (actions: seq<Action>)
    requires s.callers != [] && AllOutside(s) && k <= |s.idle|
    ensures Runs(s, actions) && After(s, actions).lost == s.lost + k
    ensures var t := After(s, actions); AllOutside(t) && |t.idle| == |s.idle| - k && |t.callers| == |s.callers|
    decreases k
  {
    if k == 0 {
      actions := [];
    } else {
      var a, b := Begin(0, Single), Get(0, Dead);
      var s1 := Apply(s, a);
      var s2 := Apply(s1, b);
      var rest := LoseSome(s2, k - 1);
      RunsCons(s1, b, rest);
      RunsCons(s, a, [b] + rest);
      actions := [a] + ([b] + rest);
    }
  }

  // The first k threads each hold a connection in get_problem_detail and want a second one.
  ghost predicate Filled(s: State, k: nat) {
    && k <= |s.callers|
    && (forall t :: 0 <= t < k ==> s.callers[t].WantSecond?)
    && (forall t :: k <= t < |s.callers| ==> s.callers[t].Outside?)
  }

  lemma {:induction false} FillUp(s: State, k: nat) returns (actions: seq<Action>)
    requires Filled(s, k) && k + |s.idle| <= |s.callers|
    ensures Runs(s, actions) && After(s, actions).lost == s.lost
    ensures var t := After(s, actions); t.idle == [] && Filled(t, k + |s.idle|) && |t.callers| == |s.callers|
    decreases |s.idle|
  {
    if s.idle == [] {
      actions := [];
    } else {
      var a, b, c := Begin(k, Detail), Get(k, Alive), Descend(k);
      var s1 := Apply(s, a);
      var s2 := Apply(s1, b);
      var s3 := Apply(s2, c);
      var rest := FillUp(s3, k + 1);
      RunsCons(s2, c, rest);
      RunsCons(s1, b, [c] + rest);
      RunsCons(s, a, [b] + ([c] + rest));
      actions := [a] + ([b] + ([c] + rest));
    }
  }

  lemma RunsCons(s: State, a: Action, rest: seq<Action>)
    requires Enabled(s, a) && Runs(Apply(s, a), rest)
    ensures Runs(s, [a] + rest) && After(s, [a] + rest) == After(Apply(s, a), rest)
  {
    assert ([a] + rest)[1..] == rest;
  }

  lemma {:induction false} RunsJoin(s: State, first: seq<Action>, more: seq<Action>)
    requires Runs(s, first) && Runs(After(s, first), more)
    ensures Runs(s, first + more) && After(s, first + more) == After(After(s, first), more)
    decreases |first|
  {
    if first == [] {
      assert first + more == more;
    } else {
      assert (first + more)[1..] == first[1..] + more;
      RunsJoin(Apply(s, first[0]), first[1..], more);
    }
  }

  // Lose what the threads are too few for, let them take the rest, and have one more get wait
  // if nothing was left to take.
  lemma ReachDeadlock(n: nat, m: nat, k: nat) returns (actions: seq<Action>)
    requires m >= 1 && m + k >= n
    ensures Runs(Start(n, m), actions) && Losses(actions) <= k && Deadlocked(After(Start(n, m), actions))
  {
    var s := Start(n, m);
    var dropped := if n <= k then n else k;
    var lose := LoseSome(s, dropped);
    var s1 := After(s, lose);
    var fill := FillUp(s1, 0);
    var s2 := After(s1, fill);
    RunsJoin(s, lose, fill);
    actions := lose + fill;
    if n <= k {
      RunsCons(s2, Begin(0, Single), []);
      RunsJoin(s, actions, [Begin(0, Single)] + []);
      actions := actions + ([Begin(0, Single)] + []);
      assert After(s, actions).callers[0].WantOne?;
    } else {
      assert s2.callers[0].WantSecond?;
    }
    LossesCount(s, actions);
  }

  // With n connections, m request threads and at most k failed reconnects, a deadlock can be
  // reached exactly if there is a thread and m + k >= n: without failures as many threads as
  // connections, and with as many failures as connections a single one. Threads that call
  // try_get only, as the judge's workers do, are not among the m: they neither wait for good nor
  // keep a connection while they wait.
  lemma DeadlockReachableIff(n: nat, m: nat, k: nat)
    ensures (exists actions :: Runs(Start(n, m), actions) && Losses(actions) <= k
                               && Deadlocked(After(Start(n, m), actions)))
      <==> m >= 1 && m + k >= n
  {
    if m >= 1 && m + k >= n {
      var actions := ReachDeadlock(n, m, k);
    }
    forall actions | Runs(Start(n, m), actions) && Losses(actions) <= k && Deadlocked(After(Start(n, m), actions))
      ensures m >= 1 && m + k >= n
    {
      DeadlockNeeds(n, m, actions);
    }
  }

  lemma DeadlockNeeds(n: nat, m: nat, actions: seq<Action>)
    requires Runs(Start(n, m), actions) && Deadlocked(After(Start(n, m), actions))
    ensures m >= 1 && m + Losses(actions) >= n
  {
    hide Apply, Inv;
    var s := After(Start(n, m), actions);
    StartInv(n, m);
    PoolConserved(Start(n, m), actions);
    LossesCount(Start(n, m), actions);
    DeadlockShape(s);
    SumBounded(s.callers, WaitsWithOne, 1);
  }

  // A deadlock never resolves: whatever other threads do, a thread that waits in get keeps waiting.
  ghost predicate Jammed(s: State) {
    s.idle == [] && forall t :: 0 <= t < |s.callers| ==> s.callers[t].Outside? || Wants(s.callers[t])
  }

  lemma {:induction false} JamStays(s: State, actions: seq<Action>, t: nat)
    requires Jammed(s) && Runs(s, actions) && t < |s.callers| && WaitsForever(s.callers[t])
    ensures t < |After(s, actions).callers| && After(s, actions).callers[t] == s.callers[t]
    ensures After(s, actions).idle == []
    decreases |actions|
  {
    if actions != [] {
      JamStays(Apply(s, actions[0]), actions[1..], t);
    }
  }

  lemma DeadlockIsForever(s: State, actions: seq<Action>, t: nat)
    requires Inv(s) && Deadlocked(s) && Runs(s, actions) && t < |s.callers| && WaitsForever(s.callers[t])
    ensures t < |After(s, actions).callers| && After(s, actions).callers[t] == s.callers[t]
    ensures After(s, actions).idle == []
  {
    DeadlockShape(s);
    JamStays(s, actions, t);
  }
}

// Login sessions as AuthService keeps them: one file per session, removed by logout, lazily by
// authenticate and periodically by cleanup_expired, against a plain map that is never cleaned.
module Sessions {
  const LIFETIME := 86400  // hours(24)

  datatype Session = Session(userId: int, username: string, role: string, expiresAt: int)

  // What a session file holds; Garbled is anything that does not parse.
  datatype File = Good(session: Session) | Garbled

  // SessionInfo; the default one is nobody.
  datatype Info = Info(userId: int, username: string, role: string)

  const NOBODY := Info(0, "", "")

  function InfoOf(x: Session): Info { Info(x.userId, x.username, x.role) }

  predicate Expired(x: Session, now: int) { x.expiresAt < now }

  function FileName(sid: string): string { sid + ".json" }

  // Whether cleanup_expired unlinks a file it reads at time now.
  predicate Doomed(f: File, now: int) { f.Garbled? || Expired(f.session, now) }

  // ---- All interleavings ----

  // One step of some thread. Reading a file and unlinking it are separate steps: an unlink may
  // come any time after the read that ordered it.
  datatype Event =
    | Tick(seconds: nat)
    | Login(sid: string, userId: int, username: string, role: string)
    | Logout(sid: string)
    | Authenticate(sid: string)
    | CleanupRead(sid: string)
    | Unlink(sid: string)

  // doomed holds the unlinks ordered and not yet done, one for each read that ordered it.
  datatype State = State(now: int, files: map<string, File>, doomed: multiset<string>)

  function StartOn(now: int, files: map<string, File>): State { State(now, files, multiset{}) }

  // Session ids are 32 random bytes: login never draws one that is about to be unlinked.
  predicate Enabled(s: State, e: Event) {
    match e
    case Login(sid, _, _, _) => sid != "" && sid !in s.doomed
    case Unlink(sid) => sid in s.doomed
    case _ => true
  }

  function Read(s: State, sid: string): Info {
    if sid != "" && sid in s.files && s.files[sid].Good? && !Expired(s.files[sid].session, s.now)
      then InfoOf(s.files[sid].session) else NOBODY
  }

  function Apply(s: State, e: Event): State {
    match e
    case Tick(seconds) => s.(now := s.now + seconds)
    case Login(sid, u, n, r) =>
      s.(files := s.files[sid := Good(Session(u, n, r, s.now + LIFETIME))])
    case Logout(sid) => if sid == "" then s else s.(files := s.files - {sid})
    case Authenticate(sid) =>
      if sid != "" && sid in s.files && s.files[sid].Good? && Expired(s.files[sid].session, s.now)
      then s.(doomed := s.doomed + multiset{sid}) else s
    case CleanupRead(sid) =>
      if sid != "" && sid in s.files && Doomed(s.files[sid], s.now) then s.(doomed := s.doomed + multiset{sid}) else s
    case Unlink(sid) => s.(files := s.files - {sid}, doomed := s.doomed - multiset{sid})
  }

  ghost predicate Possible(s: State, events: seq<Event>)
    decreases |events|
  {
    events == [] || (Enabled(s, events[0]) && Possible(Apply(s, events[0]), events[1..]))
  }

  ghost function After(s: State, events: seq<Event>): State
    decreases |events|
  {
    if events == [] then s else After(Apply(s, events[0]), events[1..])
  }

  // The answers of authenticate, in order.
  function Answers(s: State, events: seq<Event>): seq<Info>
    decreases |events|
  {
    if events == [] then [] else
      (if events[0].Authenticate? then [Read(s, events[0].sid)] else [])
      + Answers(Apply(s, events[0]), events[1..])
  }

  // The reference: who logged in and until when, forgotten only by logout. Cleanup and expiry
  // never touch it.
  datatype Ideal = Ideal(now: int, issued: map<string, Session>)

  function IdealStart(now: int, files: map<string, File>): Ideal {
    Ideal(now, map sid | sid in files && files[sid].Good? :: files[sid].session)
  }

  function IdealRead(r: Ideal, sid: string): Info {
    if sid != "" && sid in r.issued && r.now <= r.issued[sid].expiresAt then InfoOf(r.issued[sid]) else NOBODY
  }

  function IdealApply(r: Ideal, e: Event): Ideal {
    match e
    case Tick(seconds) => r.(now := r.now + seconds)
    case Login(sid, u, n, role) => r.(issued := r.issued[sid := Session(u, n, role, r.now + LIFETIME)])
    case Logout(sid) => if sid == "" then r else r.(issued := r.issued - {sid})
    case _ => r
  }

  function IdealAnswers(r: Ideal, events: seq<Event>): seq<Info>
    decreases |events|
  {
    if events == [] then [] else
      (if events[0].Authenticate? then [IdealRead(r, events[0].sid)] else [])
      + IdealAnswers(IdealApply(r, events[0]), events[1..])
  }

  // The files are the issued sessions except expired ones; whatever is about to be unlinked is
  // expired or logged out already.
  ghost predicate Agree(s: State, r: Ideal) {
    && s.now == r.now
    && (forall sid :: sid in s.files && s.files[sid].Good? ==> sid in r.issued && r.issued[sid] == s.files[sid].session)
    && (forall sid :: sid in s.files && s.files[sid].Garbled? ==> sid !in r.issued)
    && (forall sid :: sid in r.issued && sid !in s.files ==> Expired(r.issued[sid], r.now))
    && (forall sid :: sid in s.doomed && sid in r.issued ==> Expired(r.issued[sid], r.now))
  }

  lemma StartAgrees(now: int, files: map<string, File>)
    ensures Agree(StartOn(now, files), IdealStart(now, files))
  {}

  lemma StepAgrees(s: State, r: Ideal, e: Event)
    requires Agree(s, r) && Enabled(s, e)
    ensures Agree(Apply(s, e), IdealApply(r, e))
    ensures forall sid :: Read(s, sid) == IdealRead(r, sid)
  {}

  lemma {:induction false} RunsAgree(s: State, r: Ideal, events: seq<Event>)
    requires Agree(s, r) && Possible(s, events)
    ensures Answers(s, events) == IdealAnswers(r, events)
    decreases |events|
  {
    if events != [] {
      StepAgrees(s, r, events[0]);
      RunsAgree(Apply(s, events[0]), IdealApply(r, events[0]), events[1..]);
    }
  }

  // Cleanup passes and lazy unlinks, wherever they fall in a run, never change what
  // authenticate answers: it is always "issued, not logged out, and not after expiry".
  lemma CleanupInvisible(now: int, files: map<string, File>, events: seq<Event>)
    requires Possible(StartOn(now, files), events)
    ensures Answers(StartOn(now, files), events) == IdealAnswers(IdealStart(now, files), events)
  {
    StartAgrees(now, files);
    RunsAgree(StartOn(now, files), IdealStart(now, files), events);
  }

  // On the reference, a session is good from login until exactly 24 hours later, unless
  // logged out, whatever happens in between.
  ghost predicate Mentions(events: seq<Event>, sid: string) {
    exists i :: 0 <= i < |events| && ((events[i].Login? || events[i].Logout?) && events[i].sid == sid)
  }

  function Elapsed(events: seq<Event>): nat {
    if events == [] then 0 else (if events[0].Tick? then events[0].seconds else 0) + Elapsed(events[1..])
  }

  ghost function IdealAfter(r: Ideal, events: seq<Event>): Ideal
    decreases |events|
  {
    if events == [] then r else IdealAfter(IdealApply(r, events[0]), events[1..])
  }

  lemma {:induction false} SessionLifetime(r: Ideal, events: seq<Event>, sid: string)
    requires !Mentions(events, sid)
    ensures var t := IdealAfter(r, events);
      t.now == r.now + Elapsed(events) && (sid in t.issued <==> sid in r.issued)
      && (sid in r.issued ==> t.issued[sid] == r.issued[sid])
    decreases |events|
  {
    if events != [] {
      var e, rest := events[0], events[1..];
      assert !Mentions(rest, sid) by {
        forall i | 0 <= i < |rest| ensures !((rest[i].Login? || rest[i].Logout?) && rest[i].sid == sid) {
          assert rest[i] == events[i + 1];
        }
      }
      SessionLifetime(IdealApply(r, e), rest, sid);
    }
  }

  lemma LoginLastsADay(r: Ideal, sid: string, u: int, n: string, role: string, events: seq<Event>)
    requires sid != "" && !Mentions(events, sid)
    ensures var t := IdealAfter(IdealApply(r, Login(sid, u, n, role)), events);
      IdealRead(t, sid) == if Elapsed(events) <= 86400 then Info(u, n, role) else Info(0, "", "")
  {
    SessionLifetime(IdealApply(r, Login(sid, u, n, role)), events, sid);
  }

  // The answers of a store after some login, compared with the reference.
  ghost predicate AlwaysRight(s: State, r: Ideal) {
    forall events :: Possible(s, events) ==> Answers(s, events) == IdealAnswers(r, events)
  }

  // What is needed of a fresh id is exactly that no unlink of its file is still to come: else the
  // new session can be lost, and only then.
  lemma LoginSafeIff(s: State, r: Ideal, sid: string, u: int, n: string, role: string)
    requires Agree(s, r) && sid != "" && u > 0
    ensures AlwaysRight(Apply(s, Login(sid, u, n, role)), IdealApply(r, Login(sid, u, n, role))) <==> sid !in s.doomed
  {
    var login := Login(sid, u, n, role);
    var t, q := Apply(s, login), IdealApply(r, login);
    if sid !in s.doomed {
      StepAgrees(s, r, login);
      forall events | Possible(t, events) ensures Answers(t, events) == IdealAnswers(q, events) {
        RunsAgree(t, q, events);
      }
    } else {
      var lost := [Unlink(sid), Authenticate(sid)];
      assert lost[1..] == [Authenticate(sid)] && lost[1..][1..] == [];
      assert Possible(t, lost);
      var gone := Apply(t, Unlink(sid));
      assert Answers(gone, lost[1..]) == [Read(gone, sid)] + Answers(Apply(gone, Authenticate(sid)), []);
      assert IdealAnswers(q, lost[1..]) == [IdealRead(q, sid)] + IdealAnswers(q, []);
      assert Answers(t, lost) == [] + Answers(gone, lost[1..]);
      assert IdealAnswers(q, lost) == [] + IdealAnswers(q, lost[1..]);
      assert Read(gone, sid) == NOBODY && IdealRead(q, sid) == Info(u, n, role);
      assert Answers(t, lost)[0] != IdealAnswers(q, lost)[0];
    }
  }

  // ---- The store as an object ----

  class Store {
    var files: map<string, File>   // by session id

    constructor(files: map<string, File>)
      ensures this.files == files
    {
      this.files := files;
    }

    // The end of login. The session file appears with its full content, or cannot be opened;
    // without randomness there is no id. The empty answer is the error.
    method Login(sid: string, writable: bool, userId: int, username: string, role: string, now: int)
        returns (answer: string)
      modifies this
      ensures answer == if writable then sid else ""
      ensures files == if sid != "" && writable
                       then Apply(StartOn(now, old(files)), Event.Login(sid, userId, username, role)).files
                       else old(files)
      ensures sid != "" && writable ==> files[sid] == Good(Session(userId, username, role, now + 86400))
    {
      if sid == "" { return ""; }
      var expires := now + LIFETIME;
      if !writable { return ""; }
      files := files[sid := Good(Session(userId, username, role, expires))];
      answer := sid;
    }

    method Logout(sid: string) returns (ok: bool)
      modifies this
      ensures ok <==> sid != "" && sid in old(files)
      ensures forall now :: files == Apply(StartOn(now, old(files)), Event.Logout(sid)).files
      ensures sid != "" ==> sid !in files
      ensures forall other :: other != sid ==>
        (other in files <==> other in old(files)) && (other in files ==> files[other] == old(files)[other])
    {
      if sid == "" { return false; }
      if sid in files {
        files := files - {sid};
        return true;
      }
      return false;
    }

    method Authenticate(sid: string, now: int) returns (info: Info)
      modifies this
      ensures info == Read(StartOn(now, old(files)), sid)
      ensures var ordered := Apply(StartOn(now, old(files)), Event.Authenticate(sid));
        files == (if sid in ordered.doomed then Apply(ordered, Unlink(sid)) else ordered).files
      ensures sid != "" && sid in old(files) && old(files)[sid].Good? ==>
        && (sid in files <==> old(files)[sid].session.expiresAt >= now)
        && info == (if sid in files then Info(old(files)[sid].session.userId, old(files)[sid].session.username,
                                              old(files)[sid].session.role)
                    else Info(0, "", ""))
      ensures forall other :: other != sid || (other in old(files) && old(files)[other].Garbled?) ==>
        (other in files <==> other in old(files)) && (other in files ==> files[other] == old(files)[other])
    {
      info := NOBODY;
      if sid == "" || sid !in files { return; }
      if files[sid].Garbled? { return; }
      var j := files[sid].session;
      if j.expiresAt < now {
        files := files - {sid};
        return;
      }
      info := Info(j.userId, j.username, j.role);
    }

    // cleanup_expired, entry by entry of the directory; nows[i] is the clock at entry i.
    method CleanupExpired(entries: seq<string>, nows: seq<int>) returns (ghost events: seq<Event>)
      requires |nows| == |entries|
      modifies this
      ensures forall sid :: sid in files <==>
        sid in old(files)
        && !(sid != ""
             && exists i :: 0 <= i < |entries| && entries[i] == FileName(sid) && Doomed(old(files)[sid], nows[i]))
      ensures forall sid :: sid in files ==> files[sid] == old(files)[sid]
      ensures forall sid, i :: sid != "" && sid in files && 0 <= i < |entries| && entries[i] == sid + ".json" ==>
        files[sid].Good? && files[sid].session.expiresAt >= nows[i]
      ensures forall sid :: sid in old(files) && sid !in files ==>
        exists i :: 0 <= i < |entries| && entries[i] == sid + ".json"
          && (old(files)[sid].Garbled? || old(files)[sid].session.expiresAt < nows[i])
      ensures var s := StartOn(if nows == [] then 0 else nows[0], old(files)); NotBack(nows) ==>
        OnlyCleanup(events) && Possible(s, events) && files == After(s, events).files
    {
      ghost var start := StartOn(if nows == [] then 0 else nows[0], old(files));
      ghost var s := start;
      events := [];
      var i := 0;
      while i < |entries|
        invariant 0 <= i <= |entries|
        invariant forall sid :: sid in files ==> sid in old(files) && files[sid] == old(files)[sid]
        invariant forall sid :: sid in old(files) && sid !in files ==>
          sid != "" && exists k :: 0 <= k < i && entries[k] == FileName(sid) && Doomed(old(files)[sid], nows[k])
        invariant forall sid, k | 0 <= k < i && sid != "" && sid in old(files) ::
          entries[k] == FileName(sid) && Doomed(old(files)[sid], nows[k]) ==> sid !in files
        invariant NotBack(nows) ==>
          && OnlyCleanup(events) && Possible(start, events) && s == After(start, events)
          && s.files == files && s.doomed == multiset{} && (i < |entries| ==> s.now <= nows[i])
      {
        hide Possible, After, OnlyCleanup;
        var name, now := entries[i], nows[i];
        if NotBack(nows) {
          ghost var step := EntryEvents(s, name, now);
          EntryRun(s, name, now);
          Extend(start, events, step);
          events, s := events + step, After(s, step);
        }
        i := i + 1;
        if |name| <= 5 || name[|name| - 5..] != ".json" { continue; }
        var sid := name[..|name| - 5];
        assert name == FileName(sid);
        if sid !in files { continue; }
        if Doomed(files[sid], now) {
          files := files - {sid};
        }
      }
    }
  }

  // The clock of a pass does not go back.
  ghost predicate NotBack(nows: seq<int>) { forall i, j :: 0 <= i < j < |nows| ==> nows[i] <= nows[j] }

  ghost predicate OnlyCleanup(events: seq<Event>) {
    forall i :: 0 <= i < |events| ==> events[i].Tick? || events[i].CleanupRead? || events[i].Unlink?
  }

  // What one directory entry comes to: nothing, or a read and perhaps an unlink.
  ghost function EntryEvents(s: State, name: string, now: int): seq<Event>
    requires s.now <= now
  {
    if |name| <= 5 || name[|name| - 5..] != ".json" || name[..|name| - 5] !in s.files then []
    else
      var sid := name[..|name| - 5];
      [Tick(now - s.now)] + ([CleanupRead(sid)] + (if Doomed(s.files[sid], now) then [Unlink(sid)] else []))
  }

  lemma EntryRun(s: State, name: string, now: int)
    requires s.now <= now && s.doomed == multiset{}
    ensures OnlyCleanup(EntryEvents(s, name, now)) && Possible(s, EntryEvents(s, name, now))
    ensures var t := After(s, EntryEvents(s, name, now));
      t.doomed == multiset{} && t.now <= now
      && t.files == if EntryEvents(s, name, now) != [] && Doomed(s.files[name[..|name| - 5]], now)
                    then s.files - {name[..|name| - 5]} else s.files
  {
    if EntryEvents(s, name, now) != [] {
      var sid := name[..|name| - 5];
      var s1 := Apply(s, Tick(now - s.now));
      var s2 := Apply(s1, CleanupRead(sid));
      var rest := if Doomed(s.files[sid], now) then [Unlink(sid)] else [];
      if rest != [] {
        RunCons(s2, Unlink(sid), []);
        assert [Unlink(sid)] + [] == [Unlink(sid)];
      }
      RunCons(s1, CleanupRead(sid), rest);
      RunCons(s, Tick(now - s.now), [CleanupRead(sid)] + rest);
    }
  }

  lemma RunCons(s: State, e: Event, rest: seq<Event>)
    requires Enabled(s, e) && Possible(Apply(s, e), rest)
    ensures Possible(s, [e] + rest) && After(s, [e] + rest) == After(Apply(s, e), rest)
  {
    assert ([e] + rest)[1..] == rest;
  }

  lemma {:induction false} Extend(s: State, events: seq<Event>, more: seq<Event>)
    requires Possible(s, events) && Possible(After(s, events), more) && OnlyCleanup(events) && OnlyCleanup(more)
    ensures Possible(s, events + more) && After(s, events + more) == After(After(s, events), more)
    ensures OnlyCleanup(events + more)
    decreases |events|
  {
    if events == [] {
      assert events + more == more;
    } else {
      assert (events + more)[1..] == events[1..] + more;
      assert OnlyCleanup(events[1..]) by {
        forall i | 0 <= i < |events| - 1
          ensures events[1..][i].Tick? || events[1..][i].CleanupRead? || events[1..][i].Unlink?
        {
          assert events[1..][i] == events[i + 1];
        }
      }
      Extend(Apply(s, events[0]), events[1..], more);
    }
  }
}

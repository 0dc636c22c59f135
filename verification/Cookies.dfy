// get_session_id against the cookies that handle_login and handle_logout set.
module Cookies {
  import opened Common
  import opened Encoders
  import opened Passwords

  function Pattern(): string { "session_id=" }

  ghost predicate OccursAt(s: string, pattern: string, k: nat) {
    k + |pattern| <= |s| && s[k..k + |pattern|] == pattern
  }

  ghost predicate Contains(s: string, pattern: string) {
    exists k: nat :: OccursAt(s, pattern, k)
  }

  // std::string::find(pattern, from)
  function FindText(s: string, pattern: string, from: nat): (r: Option<nat>)
    requires from <= |s|
    ensures r.Some? ==> from <= r.value && OccursAt(s, pattern, r.value)
                        && forall k: nat :: from <= k < r.value ==> !OccursAt(s, pattern, k)
    ensures r.None? ==> forall k: nat :: from <= k ==> !OccursAt(s, pattern, k)
    decreases |s| - from
  {
    if from + |pattern| > |s| then None
    else if s[from..from + |pattern|] == pattern then Some(from)
    else if from == |s| then None
    else FindText(s, pattern, from + 1)
  }

  // get_session_id
  function GetSessionId(cookie: string): string {
    var pos := FindText(cookie, Pattern(), 0);
    if pos.None? then ""
    else
      var start := pos.value + 11;
      var end := Find(cookie, ';', start);
      if end.None? then cookie[start..] else cookie[start..end.value]
  }

  // The pattern has no border: no proper suffix of it is also a prefix.
  lemma NoBorder(d: nat)
    requires 0 < d < 11
    ensures exists t: nat :: d + t < 11 && Pattern()[d + t] != Pattern()[t]
  {
    if d == 2 || d == 3 {
      assert Pattern()[d + 1] != Pattern()[1];
    } else {
      assert Pattern()[d + 0] != Pattern()[0];
    }
  }

  // After a prefix, the first occurrence is the one that was put there exactly when the prefix
  // does not contain the pattern itself.
  lemma FirstOccurrence(prefix: string, rest: string)
    ensures FindText(prefix + Pattern() + rest, Pattern(), 0) == Some(|prefix|) <==> !Contains(prefix, Pattern())
  {
    var s, p := prefix + Pattern() + rest, Pattern();
    assert s[|prefix|..|prefix| + 11] == p;
    assert OccursAt(s, p, |prefix|);
    forall k: nat | k < |prefix| ensures OccursAt(s, p, k) <==> OccursAt(prefix, p, k) {
      if k + 11 <= |prefix| {
        assert s[k..k + 11] == prefix[k..k + 11];
      } else {
        var d := |prefix| - k;
        NoBorder(d);
        var t: nat :| d + t < 11 && p[d + t] != p[t];
        assert s[k..k + 11][d + t] == s[|prefix| + t] == p[t];
      }
    }
    var found := FindText(s, p, 0);
    if found == Some(|prefix|) {
      forall k: nat ensures !OccursAt(prefix, p, k) {
        if k < |prefix| { assert !OccursAt(s, p, k); }
      }
    }
  }

  // Whatever cookies come before, as long as they do not contain the pattern, and whatever
  // attributes or cookies follow after a semicolon, the session id comes back unchanged.
  lemma CookieRoundTrip(prefix: string, sid: string, suffix: string)
    requires !Contains(prefix, Pattern()) && ';' !in sid
    requires suffix == "" || suffix[0] == ';'
    ensures GetSessionId(prefix + Pattern() + (sid + suffix)) == sid
  {
    hide Find, FindText, Contains, OccursAt;
    FirstOccurrence(prefix, sid + suffix);
    var cookie := prefix + Pattern() + (sid + suffix);
    var start := |prefix| + 11;
    assert cookie[start..] == sid + suffix;
    FindSemicolon(cookie, start, sid, suffix);
    assert cookie[start..start + |sid|] == sid;
  }

  lemma {:induction false} FindSemicolon(s: string, start: nat, value: string, suffix: string)
    requires start <= |s| && s[start..] == value + suffix && ';' !in value
    requires suffix == "" || suffix[0] == ';'
    ensures Find(s, ';', start) == if suffix == "" then None else Some(start + |value|)
    decreases |value|
  {
    if value != "" {
      assert s[start] == (value + suffix)[0];
      assert s[start + 1..] == value[1..] + suffix;
      FindSemicolon(s, start + 1, value[1..], suffix);
    } else if suffix != "" {
      assert s[start] == (value + suffix)[0];
    }
  }

  // generate_session_id: 32 random bytes in hexadecimal.
  function SessionId(random: seq<Byte>): string { HexOf(random) }

  function LoginCookie(sid: string): string { "session_id=" + sid + "; Path=/; HttpOnly" }

  // The id of a login is read back from any Cookie header that returns it, and from the
  // Set-Cookie value itself; the logout cookie reads as no session at all.
  lemma LoginCookieReadsBack(random: seq<Byte>, before: string, after: string)
    requires !Contains(before, Pattern()) && (after == "" || after[0] == ';')
    ensures GetSessionId(before + "session_id=" + (SessionId(random) + after)) == SessionId(random)
    ensures GetSessionId(LoginCookie(SessionId(random))) == SessionId(random)
    ensures GetSessionId("session_id=; Path=/; Max-Age=0") == ""
  {
    hide HexOf, GetSessionId, Contains;
    var sid := SessionId(random);
    HexClean(random);
    CookieRoundTrip(before, sid, after);
    EmptyPrefix();
    CookieRoundTrip("", sid, "; Path=/; HttpOnly");
    assert "" + Pattern() + (sid + "; Path=/; HttpOnly") == LoginCookie(sid);
    CookieRoundTrip("", "", "; Path=/; Max-Age=0");
    assert "" + Pattern() + ("" + "; Path=/; Max-Age=0") == "session_id=; Path=/; Max-Age=0";
  }

  lemma EmptyPrefix()
    ensures !Contains("", Pattern())
  {}

  // A prefix that contains the pattern: the value read starts inside the prefix, and either ends
  // there too, whatever the id is, or runs on past the id.
  lemma HiddenValue(prefix: string, sid: string, suffix: string)
    requires Contains(prefix, Pattern()) && ';' !in sid
    ensures var value := GetSessionId(prefix + Pattern() + (sid + suffix));
      value == GetSessionId(prefix) || |value| > |sid|
  {
    hide Find, FindText, Contains, OccursAt;
    var p, more := Pattern(), Pattern() + (sid + suffix);
    var k := FirstIn(prefix);
    EarlierPattern(prefix, more, k);
    var cookie, start := prefix + more, k + 11;
    assert cookie == prefix + p + (sid + suffix);
    if ';' in prefix[start..] {
      FindInPrefix(prefix, more, ';', start);
      var e := Find(prefix, ';', start).value;
      assert cookie[start..e] == prefix[start..e];
    } else {
      var past := |prefix| + 11 + |sid|;
      assert cookie[start..past] == prefix[start..] + p + sid;
      FindPast(cookie, ';', start, past);
    }
  }

  lemma FirstIn(prefix: string) returns (k: nat)
    requires Contains(prefix, Pattern())
    ensures FindText(prefix, Pattern(), 0) == Some(k) && k + 11 <= |prefix|
  {
    k := FindText(prefix, Pattern(), 0).value;
  }

  lemma {:induction false} FindInPrefix(s: string, more: string, c: char, from: nat)
    requires from <= |s| && c in s[from..]
    ensures Find(s + more, c, from) == Find(s, c, from) && Find(s, c, from).Some?
    decreases |s| - from
  {
    if s[from] != c {
      assert s[from..] == [s[from]] + s[from + 1..];
      FindInPrefix(s, more, c, from + 1);
    }
  }

  lemma {:induction false} FindPast(s: string, c: char, from: nat, past: nat)
    requires from <= past <= |s| && c !in s[from..past]
    ensures Find(s, c, from).Some? ==> Find(s, c, from).value >= past
    decreases past - from
  {
    if from < past {
      assert s[from..past] == [s[from]] + s[from + 1..past];
      FindPast(s, c, from + 1, past);
    }
  }

  lemma EarlierPattern(prefix: string, more: string, k: nat)
    requires FindText(prefix, Pattern(), 0) == Some(k)
    ensures FindText(prefix + more, Pattern(), 0) == Some(k)
  {
    var s, p := prefix + more, Pattern();
    assert s[k..k + 11] == prefix[k..k + 11];
    assert OccursAt(s, p, k);
    var found := FindText(s, p, 0).value;
    if found < k {
      assert s[found..found + 11] == prefix[found..found + 11];
      assert OccursAt(prefix, p, found);
    }
  }

  lemma TwoIds()
    ensures exists a: seq<Byte>, b: seq<Byte> :: |a| == 32 && |b| == 32 && SessionId(a) != SessionId(b)
  {
    var a, b := seq(32, i => 0 as Byte), seq(32, i => 1 as Byte);
    HexRoundTrip(a);
    HexRoundTrip(b);
    assert a[0] != b[0];
  }

  ghost predicate EveryLoginReadsBack(prefix: string, suffix: string) {
    forall random: seq<Byte> :: |random| == 32 ==>
      GetSessionId(prefix + Pattern() + (SessionId(random) + suffix)) == SessionId(random)
  }

  // After a prefix, every login's id is read back exactly if the prefix does not contain the
  // pattern, be it at the end of a longer cookie name.
  lemma ReadsBackIff(prefix: string, suffix: string)
    requires suffix == "" || suffix[0] == ';'
    ensures EveryLoginReadsBack(prefix, suffix) <==> !Contains(prefix, Pattern())
  {
    hide GetSessionId, HexOf, Contains;
    if Contains(prefix, Pattern()) {
      TwoIds();
      var a: seq<Byte>, b: seq<Byte> :| |a| == 32 && |b| == 32 && SessionId(a) != SessionId(b);
      HexClean(a);
      HexClean(b);
      HiddenValue(prefix, SessionId(a), suffix);
      HiddenValue(prefix, SessionId(b), suffix);
    } else {
      forall random: seq<Byte> | |random| == 32
        ensures GetSessionId(prefix + Pattern() + (SessionId(random) + suffix)) == SessionId(random)
      {
        HexClean(random);
        CookieRoundTrip(prefix, SessionId(random), suffix);
      }
    }
  }
}

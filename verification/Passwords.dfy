// The salted SHA-256 fallback of AuthService: the stored form and its verifier. The digest is
// any function with 32-byte results.
module Passwords {
  import opened Common
  import opened Encoders

  type Digest = seq<Byte> -> seq<Byte>

  ghost predicate Is32Bytes(digest: Digest) { forall m :: |digest(m)| == 32 }

  function StoredForm(salt: seq<Byte>, hash: seq<Byte>): string {
    "sha256$" + HexOf(salt) + "$" + HexOf(hash)
  }

  // sha256_hash; no salt means /dev/urandom could not be opened.
  method Sha256Hash(password: seq<Byte>, salt: Option<seq<Byte>>, digest: Digest) returns (stored: string)
    requires salt.Some? ==> |salt.value| == 16
    ensures stored == if salt.Some? then StoredForm(salt.value, digest(salt.value + password)) else ""
    ensures salt.Some? ==> stored == "sha256$" + HexOf(salt.value) + "$" + HexOf(digest(salt.value + password))
  {
    if salt.None? { return ""; }
    var hash := digest(salt.value + password);
    var saltHex := ToHex(salt.value);
    var hashHex := ToHex(hash);
    stored := "sha256$" + saltHex + "$" + hashHex;
  }

  // std::string::find(c, from)
  function Find(s: string, c: char, from: nat): (r: Option<nat>)
    requires from <= |s|
    ensures r.Some? ==> from <= r.value < |s| && s[r.value] == c && c !in s[from..r.value]
    ensures r.None? ==> c !in s[from..]
    decreases |s| - from
  {
    if from == |s| then None
    else if s[from] == c then Some(from)
    else
      var r := Find(s, c, from + 1);
      assert s[from..] == [s[from]] + s[from + 1..];
      assert r.Some? ==> s[from..r.value] == [s[from]] + s[from + 1..r.value];
      r
  }

  datatype Check = Accepted | Rejected | Throws

  // sha256$ + 32 characters without $ + $ + 64 characters.
  predicate WellShaped(stored: string) {
    && |stored| == 104 && stored[..7] == "sha256$"
    && '$' !in stored[7..39] && stored[39] == '$'
  }

  // The verifier's answer, read off the positions of the stored form.
  function Answer(password: seq<Byte>, stored: string, digest: Digest): Check {
    if !WellShaped(stored) then Rejected
    else
      var salt := ParseHex(stored[7..39]);
      if salt.None? then Throws
      else if stored[40..] == HexOf(digest(salt.value + password)) then Accepted else Rejected
  }

  // What the loop over the salt stores for one pair.
  ghost predicate PairIs(s: string, k: nat, b: Byte) {
    2 * k + 1 < |s| && ParsePair(s[2 * k], s[2 * k + 1]).Some? && b == ParsePair(s[2 * k], s[2 * k + 1]).value as Byte
  }

  lemma {:induction false} ParseHexByPairs(s: string, bytes: seq<Byte>)
    requires |s| == 2 * |bytes|
    requires forall k :: 0 <= k < |bytes| ==> PairIs(s, k, bytes[k])
    ensures ParseHex(s) == Some(bytes)
  {
    hide ParsePair;
    if bytes != [] {
      var rest := s[2..];
      forall k | 0 <= k < |bytes| - 1 ensures PairIs(rest, k, bytes[1..][k]) {
        assert PairIs(s, k + 1, bytes[k + 1]);
        assert rest[2 * k] == s[2 * (k + 1)] && rest[2 * k + 1] == s[2 * (k + 1) + 1];
      }
      ParseHexByPairs(rest, bytes[1..]);
      assert PairIs(s, 0, bytes[0]);
      assert bytes == [bytes[0]] + bytes[1..];
    }
  }

  lemma {:induction false} ParseHexFails(s: string, k: nat)
    requires |s| % 2 == 0 && 2 * k + 1 < |s| && ParsePair(s[2 * k], s[2 * k + 1]).None?
    ensures ParseHex(s).None?
  {
    hide ParsePair;
    if k > 0 {
      assert s[2..][2 * (k - 1)] == s[2 * k] && s[2..][2 * (k - 1) + 1] == s[2 * k + 1];
      ParseHexFails(s[2..], k - 1);
    }
  }

  // verify_sha256
  method VerifySha256(password: seq<Byte>, stored: string, digest: Digest) returns (r: Check)
    ensures r == Answer(password, stored, digest)
    ensures |stored| != 104 || stored[..7] != "sha256$" || stored[39] != '$' || '$' in stored[7..39] ==> r == Rejected
    ensures r == Throws <==> WellShaped(stored) && ParseHex(stored[7..39]).None?
    ensures r == Accepted <==>
      WellShaped(stored) && ParseHex(stored[7..39]).Some?
      && stored[40..] == HexOf(digest(ParseHex(stored[7..39]).value + password))
  {
    hide ParsePair, ParseHex, HexOf;
    if |stored| < 7 || stored[..7] != "sha256$" { return Rejected; }
    var saltEnd := Find(stored, '$', 7);
    if saltEnd.None? {
      assert |stored| > 39 ==> stored[39] == stored[7..][32];
      return Rejected;
    }
    var saltHex := stored[7..saltEnd.value];
    assert WellShaped(stored) ==> saltEnd.value == 39 by {
      assert |stored| == 104 && saltEnd.value < 39 ==> stored[saltEnd.value] == stored[7..39][saltEnd.value - 7];
      assert saltEnd.value > 39 ==> stored[39] == saltHex[32];
    }
    if |saltHex| != 32 { return Rejected; }
    var expectedHashHex := stored[saltEnd.value + 1..];
    if |expectedHashHex| != 64 { return Rejected; }
    assert WellShaped(stored) && saltHex == stored[7..39];

    var salt: seq<Byte> := [];
    for i := 0 to 16
      invariant |salt| == i
      invariant forall k :: 0 <= k < i ==> PairIs(saltHex, k, salt[k])
    {
      var pair := ParsePair(saltHex[i * 2], saltHex[i * 2 + 1]);
      if pair.None? {
        ParseHexFails(saltHex, i);
        return Throws;
      }
      salt := salt + [pair.value as Byte];
    }
    ParseHexByPairs(saltHex, salt);
    var hash := digest(salt + password);
    var hashHex := ToHex(hash);
    r := if expectedHashHex == hashHex then Accepted else Rejected;
  }

  lemma HexInjective(a: seq<Byte>, b: seq<Byte>)
    requires HexOf(a) == HexOf(b)
    ensures a == b
  {
    hide HexOf, ParseHex;
    HexRoundTrip(a);
    HexRoundTrip(b);
  }

  lemma HexCharAllowed(n: Nibble)
    ensures var c := HexChar(n); c != '$' && c != ';'
  {}

  lemma HexClean(data: seq<Byte>)
    ensures '$' !in HexOf(data) && ';' !in HexOf(data)
  {
    hide HexChar, High, Low;
    forall k | 0 <= k < |HexOf(data)| ensures HexOf(data)[k] != '$' && HexOf(data)[k] != ';' {
      HexCharAllowed(if k % 2 == 0 then High(data[k / 2]) else Low(data[k / 2]));
    }
  }

  // A stored password verifies exactly with the passwords whose salted digest is the same.
  lemma VerifyIff(p: seq<Byte>, q: seq<Byte>, salt: seq<Byte>, digest: Digest)
    requires |salt| == 16 && Is32Bytes(digest)
    ensures var stored := StoredForm(salt, digest(salt + p));
      Answer(q, stored, digest) == if digest(salt + q) == digest(salt + p) then Accepted else Rejected
  {
    hide HexOf, ParseHex;
    var hash := digest(salt + p);
    var stored := StoredForm(salt, hash);
    HexClean(salt);
    assert stored[..7] == "sha256$" && stored[7..39] == HexOf(salt) && stored[40..] == HexOf(hash);
    HexRoundTrip(salt);
    if HexOf(hash) == HexOf(digest(salt + q)) {
      HexInjective(hash, digest(salt + q));
    }
  }
}

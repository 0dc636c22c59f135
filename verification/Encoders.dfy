// The text encodings of AuthService: the bcrypt salt with its alphabet, and hexadecimal.
module Encoders {
  import opened Common

  type Byte = bv8

  // ---- The salt alphabet ----

  function Upper(): (s: string) ensures |s| == 26 { "ABCDEFGHIJKLMNOPQRSTUVWXYZ" }
  function Lower(): (s: string) ensures |s| == 26 { "abcdefghijklmnopqrstuvwxyz" }
  function Tens(): (s: string) ensures |s| == 10 { "0123456789" }

  // "./A-Za-z0-9"
  function Alphabet(): (s: string)
    ensures |s| == 64
  {
    "./" + Upper() + Lower() + Tens()
  }

  // A six-bit and a four-bit value.
  type Sextet = d: bv8 | d < 64
  type Nibble = d: bv8 | d < 16

  function CharAt(i: nat): char
    requires i < 64
  {
    Alphabet()[i]
  }

  function CharOf(digit: Sextet): char { CharAt(digit as nat) }

  // The position of a character in the alphabet; 64 if it is not there.
  function PositionOf(c: char): nat {
    if c == '.' then 0
    else if c == '/' then 1
    else if 'A' <= c <= 'Z' then c as int - 'A' as int + 2
    else if 'a' <= c <= 'z' then c as int - 'a' as int + 28
    else if '0' <= c <= '9' then c as int - '0' as int + 54
    else 64
  }

  lemma LettersInOrder(i: nat)
    requires i < 26
    ensures Upper()[i] as int == 'A' as int + i
  {}

  lemma SmallLettersInOrder(i: nat)
    requires i < 26
    ensures Lower()[i] as int == 'a' as int + i
  {}

  lemma DecimalsInOrder(i: nat)
    requires i < 10
    ensures Tens()[i] as int == '0' as int + i
  {}

  lemma PositionOfChar(i: nat)
    requires i < 64
    ensures PositionOf(CharAt(i)) == i && CharAt(i) != '\0'
  {
    hide Upper, Lower, Tens;
    if 2 <= i < 28 { LettersInOrder(i - 2); }
    else if 28 <= i < 54 { SmallLettersInOrder(i - 28); }
    else if 54 <= i { DecimalsInOrder(i - 54); }
  }

  lemma SameNumberSameBits(a: bv8, b: bv8)
    requires a as int == b as int
    ensures a == b
  {}

  lemma AlphabetInjective(a: Sextet, b: Sextet)
    requires CharOf(a) == CharOf(b)
    ensures a == b
  {
    PositionOfChar(a as nat);
    PositionOfChar(b as nat);
    SameNumberSameBits(a, b);
  }

  // ---- Six-bit digits of a byte string ----

  function First(a: Byte): Sextet { a >> 2 }
  function Second(a: Byte, b: Byte): Sextet { ((a & 0x03) << 4) | (b >> 4) }
  function Third(b: Byte, c: Byte): Sextet { ((b & 0x0f) << 2) | (c >> 6) }
  function Fourth(c: Byte): Sextet { c & 0x3f }

  // Three bytes give four digits; one or two left over give two or three, padded with zero bits.
  function Digits(bytes: seq<Byte>): (r: seq<Sextet>)
    ensures |r| == (8 * |bytes| + 5) / 6
  {
    if |bytes| == 0 then []
    else if |bytes| == 1 then [First(bytes[0]), Second(bytes[0], 0)]
    else if |bytes| == 2 then [First(bytes[0]), Second(bytes[0], bytes[1]), Third(bytes[1], 0)]
    else [First(bytes[0]), Second(bytes[0], bytes[1]), Third(bytes[1], bytes[2]), Fourth(bytes[2])] + Digits(bytes[3..])
  }

  function Join(d0: Sextet, d1: Sextet): Byte { (d0 << 2) | (d1 >> 4) }
  function Join2(d1: Sextet, d2: Sextet): Byte { (d1 << 4) | (d2 >> 2) }
  function Join3(d2: Sextet, d3: Sextet): Byte { (d2 << 6) | d3 }

  // The n bytes whose bits are the leading 8 * n bits of the digits.
  function Undigits(d: seq<Sextet>, n: nat): seq<Byte>
    requires |d| == (8 * n + 5) / 6
  {
    if n == 0 then []
    else if n == 1 then [Join(d[0], d[1])]
    else if n == 2 then [Join(d[0], d[1]), Join2(d[1], d[2])]
    else [Join(d[0], d[1]), Join2(d[1], d[2]), Join3(d[2], d[3])] + Undigits(d[4..], n - 3)
  }

  lemma BitsBack(a: Byte, b: Byte, c: Byte)
    ensures Join(First(a), Second(a, b)) == a
    ensures Join2(Second(a, b), Third(b, c)) == b
    ensures Join3(Third(b, c), Fourth(c)) == c
  {}

  function Mask(k: nat): bv8
    requires k < 8
  {
    if k == 0 then 1 else if k == 1 then 2 else if k == 2 then 4 else if k == 3 then 8
    else if k == 4 then 16 else if k == 5 then 32 else if k == 6 then 64 else 128
  }

  predicate BitOf(b: bv8, k: nat)
    requires k < 8
  {
    b & Mask(k) != 0
  }

  // The bits of a byte string and of a digit string, the highest of each first.
  predicate ByteBit(bytes: seq<Byte>, i: nat)
    requires i < 8 * |bytes|
  {
    BitOf(bytes[i / 8], 7 - i % 8)
  }

  predicate DigitBit(digits: seq<Sextet>, i: nat)
    requires i < 6 * |digits|
  {
    BitOf(digits[i / 6], 5 - i % 6)
  }

  // The digits hold the bits of the bytes in the same order, filled up with zero bits.
  lemma {:induction false} DigitsHoldBits(bytes: seq<Byte>, i: nat)
    requires i < 6 * |Digits(bytes)|
    ensures DigitBit(Digits(bytes), i) <==> i < 8 * |bytes| && ByteBit(bytes, i)
  {
    hide First, Second, Third, Fourth, BitOf;
    if i >= 24 {
      assert Digits(bytes)[4..] == Digits(bytes[3..]);
      DigitsHoldBits(bytes[3..], i - 24);
      assert (i - 24) / 6 == i / 6 - 4 && (i - 24) % 6 == i % 6;
      assert (i - 24) / 8 == i / 8 - 3 && (i - 24) % 8 == i % 8;
      assert Digits(bytes)[i / 6] == Digits(bytes)[4..][i / 6 - 4];
    } else {
      FirstGroup(bytes, i);
    }
  }

  // The first three bytes, with zeros for those that are missing.
  function Padded(bytes: seq<Byte>): (r: seq<Byte>)
    ensures |r| == 3
  {
    if |bytes| == 0 then [0, 0, 0]
    else if |bytes| == 1 then [bytes[0], 0, 0]
    else if |bytes| == 2 then [bytes[0], bytes[1], 0]
    else bytes[..3]
  }

  lemma FirstGroup(bytes: seq<Byte>, i: nat)
    requires i < 24 && i < 6 * |Digits(bytes)|
    ensures DigitBit(Digits(bytes), i) <==> i < 8 * |bytes| && ByteBit(bytes, i)
  {
    hide First, Second, Third, Fourth, BitOf, DigitBit, ByteBit;
    var p := Padded(bytes);
    FirstDigits(bytes, i / 6);
    SixBits(p[0], p[1], p[2], i);
    DigitBitIs(Digits(bytes), i);
    PaddedBits(bytes, i);
  }

  lemma DigitBitIs(d: seq<Sextet>, i: nat)
    requires i < 6 * |d|
    ensures i / 6 < |d| && DigitBit(d, i) == BitOf(d[i / 6], 5 - i % 6)
  {}

  function DigitOf(p: seq<Byte>, j: nat): Sextet
    requires |p| == 3 && j < 4
  {
    if j == 0 then First(p[0]) else if j == 1 then Second(p[0], p[1])
    else if j == 2 then Third(p[1], p[2]) else Fourth(p[2])
  }

  lemma FirstDigits(bytes: seq<Byte>, j: nat)
    requires j < 4 && j < |Digits(bytes)|
    ensures Digits(bytes)[j] == DigitOf(Padded(bytes), j)
  {
    hide First, Second, Third, Fourth;
  }

  lemma SixBits(a: Byte, b: Byte, c: Byte, i: nat)
    requires i < 24
    ensures BitOf(DigitOf([a, b, c], i / 6), 5 - i % 6) == ByteBit([a, b, c], i)
  {
    hide First, Second, Third, Fourth, BitOf;
    if i < 6 {
      FirstBits(a, i);
    } else if i < 12 {
      SecondBits(a, b, i - 6);
    } else if i < 18 {
      ThirdBits(b, c, i - 12);
    } else {
      FourthBits(c, i - 18);
    }
  }

  lemma PaddedBits(bytes: seq<Byte>, i: nat)
    requires i < 24
    ensures ByteBit(Padded(bytes), i) <==> i < 8 * |bytes| && ByteBit(bytes, i)
    ensures var p := Padded(bytes); p == [p[0], p[1], p[2]]
  {
    hide BitOf;
    ZeroBits();
  }

  lemma ZeroBits()
    ensures forall k: nat :: k < 8 ==> !BitOf(0, k)
  {}

  lemma FirstBits(a: Byte, k: nat)
    requires k < 6
    ensures BitOf(First(a), 5 - k) == BitOf(a, 7 - k)
  {
    if k == 0 {} else if k == 1 {} else if k == 2 {} else if k == 3 {} else if k == 4 {} else {}
  }

  lemma SecondBits(a: Byte, b: Byte, k: nat)
    requires k < 6
    ensures BitOf(Second(a, b), 5 - k) == if k < 2 then BitOf(a, 1 - k) else BitOf(b, 9 - k)
  {
    if k == 0 {} else if k == 1 {} else if k == 2 {} else if k == 3 {} else if k == 4 {} else {}
  }

  lemma ThirdBits(b: Byte, c: Byte, k: nat)
    requires k < 6
    ensures BitOf(Third(b, c), 5 - k) == if k < 4 then BitOf(b, 3 - k) else BitOf(c, 11 - k)
  {
    if k == 0 {} else if k == 1 {} else if k == 2 {} else if k == 3 {} else if k == 4 {} else {}
  }

  lemma FourthBits(c: Byte, k: nat)
    requires k < 6
    ensures BitOf(Fourth(c), 5 - k) == BitOf(c, 5 - k)
  {
    if k == 0 {} else if k == 1 {} else if k == 2 {} else if k == 3 {} else if k == 4 {} else {}
  }

  // The alphabet: the point, the slash, and the letters and digits in order.
  lemma AlphabetIs(i: nat)
    requires i < 64
    ensures i == 0 ==> CharAt(i) == '.'
    ensures i == 1 ==> CharAt(i) == '/'
    ensures 2 <= i < 28 ==> CharAt(i) as int == 'A' as int + i - 2
    ensures 28 <= i < 54 ==> CharAt(i) as int == 'a' as int + i - 28
    ensures 54 <= i ==> CharAt(i) as int == '0' as int + i - 54
  {
    hide Upper, Lower, Tens;
    if 2 <= i < 28 { LettersInOrder(i - 2); }
    else if 28 <= i < 54 { SmallLettersInOrder(i - 28); }
    else if 54 <= i { DecimalsInOrder(i - 54); }
  }

  // Nothing is lost: n bytes become ceil(8n/6) digits and can be read back.
  lemma {:induction false} DigitsRoundTrip(bytes: seq<Byte>)
    ensures Undigits(Digits(bytes), |bytes|) == bytes
  {
    hide First, Second, Third, Fourth, Join, Join2, Join3;
    if |bytes| >= 3 {
      BitsBack(bytes[0], bytes[1], bytes[2]);
      assert Digits(bytes)[4..] == Digits(bytes[3..]);
      DigitsRoundTrip(bytes[3..]);
      assert bytes == [bytes[0], bytes[1], bytes[2]] + bytes[3..];
    } else if |bytes| == 2 {
      BitsBack(bytes[0], bytes[1], 0);
    } else if |bytes| == 1 {
      BitsBack(bytes[0], 0, 0);
    }
  }

  function Chars(digits: seq<Sextet>): (r: string)
    ensures |r| == |digits|
  {
    seq(|digits|, k requires 0 <= k < |digits| => CharOf(digits[k]))
  }

  lemma CharsConcat(a: seq<Sextet>, b: seq<Sextet>)
    ensures Chars(a + b) == Chars(a) + Chars(b)
  {}

  function SaltText(random: seq<Byte>): string { "$2b$12$" + Chars(Digits(random)) }

  lemma CharsInjective(a: seq<Sextet>, b: seq<Sextet>)
    requires Chars(a) == Chars(b)
    ensures a == b
  {
    hide CharOf;
    assert |a| == |Chars(a)| == |Chars(b)| == |b|;
    forall k | 0 <= k < |a| ensures a[k] == b[k] {
      assert Chars(a)[k] == CharOf(a[k]) && Chars(b)[k] == CharOf(b[k]);
      AlphabetInjective(a[k], b[k]);
    }
  }

  // Different random bytes give different salts.
  lemma SaltInjective(a: seq<Byte>, b: seq<Byte>)
    requires |a| == |b| && SaltText(a) == SaltText(b)
    ensures a == b
  {
    hide Digits, Chars, Undigits;
    assert SaltText(a)[7..] == Chars(Digits(a)) && SaltText(b)[7..] == Chars(Digits(b));
    CharsInjective(Digits(a), Digits(b));
    DigitsRoundTrip(a);
    DigitsRoundTrip(b);
  }

  // std::string(const char*): up to the first NUL.
  function UpToNul(s: string): string {
    if s == "" || s[0] == '\0' then "" else [s[0]] + UpToNul(s[1..])
  }

  lemma {:induction false} UpToNulOf(text: string, tail: string)
    requires '\0' !in text
    ensures UpToNul(text + ['\0'] + tail) == text
  {
    if text == "" {
      assert (text + ['\0'] + tail)[0] == '\0';
    } else {
      assert (text + ['\0'] + tail)[1..] == text[1..] + ['\0'] + tail;
      UpToNulOf(text[1..], tail);
    }
  }

  // What the loop keeps at its head: the characters so far and those still to come.
  ghost predicate SaltSoFar(random: seq<Byte>, i: nat, text: string) {
    i <= |random| && text + Chars(Digits(random[i..])) == SaltText(random)
  }

  // The digits that the next round of the loop writes.
  function Round(rest: seq<Byte>): seq<Sextet>
    requires rest != []
  {
    if |rest| < 3 then Digits(rest)
    else [First(rest[0]), Second(rest[0], rest[1]), Third(rest[1], rest[2]), Fourth(rest[2])]
  }

  lemma SaltStep(random: seq<Byte>, i: nat, text: string)
    requires i < |random| && SaltSoFar(random, i, text)
    ensures var more := Chars(Round(random[i..]));
      SaltSoFar(random, if |random| - i < 3 then |random| else i + 3, text + more)
  {
    hide First, Second, Third, Fourth, Chars;
    var rest := random[i..];
    var more := Chars(Round(rest));
    if |rest| < 3 {
      assert random[|random|..] == [] && Digits([]) == [];
      CharsConcat([], []);
      assert (text + more) + "" == text + more;
    } else {
      assert rest[3..] == random[i + 3..];
      CharsConcat(Round(rest), Digits(rest[3..]));
      assert (text + more) + Chars(Digits(rest[3..])) == text + (more + Chars(Digits(rest[3..])));
    }
  }

  lemma SaltStart(random: seq<Byte>)
    ensures SaltSoFar(random, 0, "$2b$12$")
  {
    assert random[0..] == random;
  }

  lemma SaltEnd(random: seq<Byte>, text: string)
    requires SaltSoFar(random, |random|, text)
    ensures text == SaltText(random)
  {
    assert random[|random|..] == [] && Digits([]) == [] && text + "" == text;
  }

  lemma NoNul(digits: seq<Sextet>)
    ensures '\0' !in Chars(digits)
  {
    forall k | 0 <= k < |digits| ensures Chars(digits)[k] != '\0' {
      PositionOfChar(digits[k] as nat);
    }
  }

  lemma Glue(text: string, a: char, b: char, c: char, d: char)
    ensures text + [a] + [b] == text + [a, b]
    ensures text + [a] + [b] + [c] == text + [a, b, c]
    ensures text + [a] + [b] + [c] + [d] == text + [a, b, c, d]
  {}

  // Writes one character and moves on.
  method Put(buf: array<char>, j: nat, c: char) returns (next: nat)
    requires j < buf.Length
    modifies buf
    ensures next == j + 1 && buf[..next] == old(buf[..j]) + [c]
  {
    buf[j] := c;
    next := j + 1;
  }

  // Characters needed for so many bytes: ceil(8n/6).
  function Room(n: nat): nat { (8 * n + 5) / 6 }

  lemma RoomStep(n: nat)
    requires n > 0
    ensures n == 1 ==> Room(n) == 2
    ensures n == 2 ==> Room(n) == 3
    ensures n >= 3 ==> Room(n) == Room(n - 3) + 4
    ensures Room(0) == 0
  {}

  // make_salt for any number of random bytes; the buffer has room for the prefix, the digits
  // and the terminating NUL, which for 16 bytes are the 30 characters of the source.
  method MakeSalt(random: seq<Byte>) returns (salt: string)
    ensures salt == SaltText(random)
    ensures |random| == 16 ==> |salt| == 29
    ensures salt == "$2b$12$" + Chars(Digits(random))
  {
    hide Digits, Chars, CharOf, SaltText, SaltSoFar;
    hide First, Second, Third, Fourth;
    var n := |random|;
    var buf := new char[7 + Room(n) + 1];
    var prefix := "$2b$12$";
    forall k | 0 <= k < 7 { buf[k] := prefix[k]; }
    var i, j := 0, 7;
    assert buf[..j] == prefix;
    SaltStart(random);
    while i < n
      invariant 0 <= i <= n && j == 7 + Room(n) - Room(n - i) && Room(n - i) <= Room(n)
      invariant SaltSoFar(random, i, buf[..j])
    {
      ghost var text := buf[..j];
      SaltStep(random, i, text);
      RoundChars(random[i..]);
      RoomStep(n - i);
      var c1 := random[i];
      i := i + 1;
      j := Put(buf, j, CharOf(First(c1)));
      if i >= n {
        j := Put(buf, j, CharOf(Second(c1, 0)));
        Glue(text, CharOf(First(c1)), CharOf(Second(c1, 0)), ' ', ' ');
        break;
      }
      var c2 := random[i];
      i := i + 1;
      j := Put(buf, j, CharOf(Second(c1, c2)));
      if i >= n {
        j := Put(buf, j, CharOf(Third(c2, 0)));
        Glue(text, CharOf(First(c1)), CharOf(Second(c1, c2)), CharOf(Third(c2, 0)), ' ');
        break;
      }
      var c3 := random[i];
      i := i + 1;
      j := Put(buf, j, CharOf(Third(c2, c3)));
      j := Put(buf, j, CharOf(Fourth(c3)));
      Glue(text, CharOf(First(c1)), CharOf(Second(c1, c2)), CharOf(Third(c2, c3)), CharOf(Fourth(c3)));
    }
    SaltEnd(random, buf[..j]);
    SaltLength(random);
    salt := Terminate(buf, j, random);
  }

  // The terminating NUL, and the string that the buffer then holds.
  method Terminate(buf: array<char>, j: nat, random: seq<Byte>) returns (salt: string)
    requires buf.Length == j + 1 && buf[..j] == SaltText(random)
    modifies buf
    ensures salt == SaltText(random) && (|random| == 16 ==> |salt| == 29)
  {
    hide SaltText;
    SaltLength(random);
    var end := Put(buf, j, '\0');
    assert buf[..] == buf[..end] == SaltText(random) + ['\0'] + [];
    UpToNulOf(SaltText(random), []);
    salt := UpToNul(buf[..]);
  }

  lemma SaltLength(random: seq<Byte>)
    ensures |SaltText(random)| == 7 + Room(|random|) && '\0' !in SaltText(random)
  {
    NoNul(Digits(random));
  }

  lemma RoundChars(rest: seq<Byte>)
    requires rest != []
    ensures |rest| == 1 ==> Chars(Round(rest)) == [CharOf(First(rest[0])), CharOf(Second(rest[0], 0))]
    ensures |rest| == 2 ==> Chars(Round(rest)) ==
                            [CharOf(First(rest[0])), CharOf(Second(rest[0], rest[1])), CharOf(Third(rest[1], 0))]
    ensures |rest| >= 3 ==> Chars(Round(rest)) ==
                            [CharOf(First(rest[0])), CharOf(Second(rest[0], rest[1])),
                              CharOf(Third(rest[1], rest[2])), CharOf(Fourth(rest[2]))]
  {
    hide First, Second, Third, Fourth, CharOf;
  }

  // ---- Hexadecimal ----

  function HexChar(n: Nibble): char { ("0123456789abcdef")[n as nat] }

  function High(b: Byte): Nibble { b >> 4 }
  function Low(b: Byte): Nibble { b & 0x0f }

  function HexOf(data: seq<Byte>): (r: string)
    ensures |r| == 2 * |data|
  {
    seq(2 * |data|, k requires 0 <= k < 2 * |data| =>
      HexChar(if k % 2 == 0 then High(data[k / 2]) else Low(data[k / 2])))
  }

  // to_hex
  method ToHex(data: seq<Byte>) returns (result: string)
    ensures result == HexOf(data)
  {
    hide HexChar, High, Low;
    var text := new char[2 * |data|];
    for i := 0 to |data|
      invariant forall k :: 0 <= k < 2 * i ==> text[k] == HexOf(data)[k]
    {
      text[i * 2] := HexChar(High(data[i]));
      text[i * 2 + 1] := HexChar(Low(data[i]));
    }
    result := text[..];
  }

  // A byte in two characters, as a number to the base 16 with lower-case letters.
  lemma HexIs(data: seq<Byte>, k: nat)
    requires k < |data|
    ensures HexOf(data)[2 * k] == ("0123456789abcdef")[(data[k] as int) / 16]
    ensures HexOf(data)[2 * k + 1] == ("0123456789abcdef")[(data[k] as int) % 16]
  {
    HalvesAre(data[k]);
  }

  lemma HalvesAre(b: Byte)
    ensures High(b) as int == (b as int) / 16 && Low(b) as int == (b as int) % 16
  {}

  // The value strtol gives a hexadecimal digit, 16 if it is none.
  function HexValue(c: char): nat {
    if '0' <= c <= '9' then c as int - '0' as int
    else if 'a' <= c <= 'f' then c as int - 'a' as int + 10
    else if 'A' <= c <= 'F' then c as int - 'A' as int + 10
    else 16
  }

  predicate IsSpace(c: char) { c == ' ' || '\t' <= c <= '\r' }

  // std::stoi on a two-character text in base 16, stored in an unsigned char. None is the
  // exception for text without a number; a leading blank or sign is skipped, and a digit
  // followed by something else counts alone.
  function ParsePair(c0: char, c1: char): (r: Option<nat>)
    ensures r.Some? ==> r.value < 256
  {
    var h0, h1 := HexValue(c0), HexValue(c1);
    if h0 < 16 then Some(if h1 < 16 then 16 * h0 + h1 else h0)
    else if h1 < 16 && (IsSpace(c0) || c0 == '+') then Some(h1)
    else if h1 < 16 && c0 == '-' then Some((256 - h1) % 256)
    else None
  }

  lemma HexValueOfChar(n: nat)
    requires n < 16
    ensures HexValue(("0123456789abcdef")[n]) == n
  {}

  lemma NibblesOf(b: Byte)
    ensures 16 * (High(b) as int) + (Low(b) as int) == b as int
  {}

  lemma PairRoundTrip(b: Byte)
    ensures ParsePair(HexChar(High(b)), HexChar(Low(b))) == Some(b as nat)
  {
    hide High, Low;
    HexValueOfChar(High(b) as nat);
    HexValueOfChar(Low(b) as nat);
    NibblesOf(b);
  }

  lemma ThereAndBack(b: Byte)
    ensures (b as nat) as Byte == b
  {}

  // Two characters a byte, all of them or none.
  function ParseHex(s: string): (r: Option<seq<Byte>>)
    requires |s| % 2 == 0
    ensures r.Some? ==> |r.value| == |s| / 2
  {
    if s == "" then Some([]) else
      var first, rest := ParsePair(s[0], s[1]), ParseHex(s[2..]);
      if first.Some? && rest.Some? then Some([first.value as Byte] + rest.value) else None
  }

  lemma HexTail(data: seq<Byte>)
    requires data != []
    ensures HexOf(data)[2..] == HexOf(data[1..])
    ensures HexOf(data)[0] == HexChar(High(data[0])) && HexOf(data)[1] == HexChar(Low(data[0]))
  {
    hide HexChar, High, Low;
    forall k | 0 <= k < 2 * |data| - 2 ensures HexOf(data)[2..][k] == HexOf(data[1..])[k] {
      assert (k + 2) / 2 == k / 2 + 1 && (k + 2) % 2 == k % 2;
    }
  }

  lemma {:induction false} HexRoundTrip(data: seq<Byte>)
    ensures ParseHex(HexOf(data)) == Some(data)
  {
    hide HexChar, High, Low, ParsePair, HexOf;
    if data != [] {
      PairRoundTrip(data[0]);
      ThereAndBack(data[0]);
      HexTail(data);
      HexRoundTrip(data[1..]);
      assert data == [data[0]] + data[1..];
    }
  }
}

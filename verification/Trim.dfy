// The judge's output normaliser (trim_output in executor_service.cc) and the
// relation on program outputs that comparing normalised texts induces.
module Trim {

  predicate IsBlank(c: char) { c == ' ' || c == '\t' }

  // ---- Specification: lines, stripping, joining ----

  // The lines of a text. "" has one (empty) line, and a final newline opens an empty last line.
  function SplitLines(s: string): (lines: seq<string>)
    ensures |lines| >= 1
  {
    if s == "" then [""]
    else if s[0] == '\n' then [""] + SplitLines(s[1..])
    else
      var rest := SplitLines(s[1..]);
      [[s[0]] + rest[0]] + rest[1..]
  }

  function JoinLines(lines: seq<string>): string {
    if |lines| == 0 then ""
    else if |lines| == 1 then lines[0]
    else lines[0] + "\n" + JoinLines(lines[1..])
  }

  function StripLeft(line: string): string {
    if line != "" && IsBlank(line[0]) then StripLeft(line[1..]) else line
  }

  function StripRight(line: string): string {
    if line != "" && IsBlank(line[|line| - 1]) then StripRight(line[..|line| - 1]) else line
  }

  function Strip(line: string): string { StripRight(StripLeft(line)) }

  function StripAll(lines: seq<string>): (r: seq<string>)
    ensures |r| == |lines|
    ensures forall k :: 0 <= k < |r| ==> r[k] == Strip(lines[k])
  {
    if lines == [] then [] else [Strip(lines[0])] + StripAll(lines[1..])
  }

  function DropEmptyTail(lines: seq<string>): seq<string> {
    if lines != [] && lines[|lines| - 1] == "" then DropEmptyTail(lines[..|lines| - 1]) else lines
  }

  // What trim_output is meant to compute.
  function Normalize(s: string): string { JoinLines(Lines(s)) }

  // The stripped lines of s without the empty tail.
  function Lines(s: string): seq<string> { DropEmptyTail(StripAll(SplitLines(s))) }

  // The k-th line of a text as the comparison sees it: stripped, and empty past the end.
  function LineAt(s: string, k: nat): string {
    var lines := SplitLines(s);
    if k < |lines| then Strip(lines[k]) else ""
  }

  ghost predicate SameLines(a: string, b: string) {
    forall k: nat :: LineAt(a, k) == LineAt(b, k)
  }

  predicate OneLine(line: string) { '\n' !in line }

  predicate OneLineEach(lines: seq<string>) { forall k :: 0 <= k < |lines| ==> OneLine(lines[k]) }

  // ---- Stripping ----

  lemma {:induction false} StripLeftBlanks(pad: string, line: string)
    requires forall c :: c in pad ==> IsBlank(c)
    ensures StripLeft(pad + line) == StripLeft(line)
  {
    if pad == "" {
      assert pad + line == line;
    } else {
      assert (pad + line)[1..] == pad[1..] + line;
      StripLeftBlanks(pad[1..], line);
    }
  }

  lemma {:induction false} StripRightBlanks(line: string, pad: string)
    requires forall c :: c in pad ==> IsBlank(c)
    ensures StripRight(line + pad) == StripRight(line)
  {
    if pad == "" {
      assert line + pad == line;
    } else {
      var n := |pad| - 1;
      assert (line + pad)[..|line + pad| - 1] == line + pad[..n];
      assert pad[n] in pad;
      StripRightBlanks(line, pad[..n]);
    }
  }

  // StripLeft drops a blank prefix and stops at a non-blank.
  lemma {:induction false} StripLeftShape(line: string) returns (n: nat)
    ensures n <= |line| && StripLeft(line) == line[n..]
    ensures forall i :: 0 <= i < n ==> IsBlank(line[i])
    ensures n < |line| ==> !IsBlank(line[n])
  {
    if line != "" && IsBlank(line[0]) {
      var m := StripLeftShape(line[1..]);
      n := m + 1;
      assert line[1..][m..] == line[n..];
      forall i | 0 <= i < n ensures IsBlank(line[i]) {
        assert i > 0 ==> line[i] == line[1..][i - 1];
      }
    } else {
      n := 0;
    }
  }

  // StripRight drops a blank suffix and stops at a non-blank.
  lemma {:induction false} StripRightShape(line: string) returns (n: nat)
    ensures n <= |line| && StripRight(line) == line[..n]
    ensures n > 0 ==> !IsBlank(line[n - 1])
  {
    if line != "" && IsBlank(line[|line| - 1]) {
      n := StripRightShape(line[..|line| - 1]);
      assert line[..|line| - 1][..n] == line[..n];
    } else {
      n := |line|;
    }
  }

  lemma StripFixed(line: string)
    requires line == "" || (!IsBlank(line[0]) && !IsBlank(line[|line| - 1]))
    ensures Strip(line) == line
  {}

  lemma StripIdempotent(line: string)
    ensures Strip(Strip(line)) == Strip(line)
    ensures OneLine(line) ==> OneLine(Strip(line))
  {
    hide StripLeft, StripRight;
    var n := StripLeftShape(line);
    var m := StripRightShape(StripLeft(line));
    StripFixed(Strip(line));
  }

  // Blanks around a line do not survive stripping.
  lemma StripPadded(before: string, line: string, after: string)
    requires forall c :: c in before ==> IsBlank(c)
    requires forall c :: c in after ==> IsBlank(c)
    ensures Strip(before + line + after) == Strip(line)
  {
    hide StripLeft, StripRight;
    var n := StripLeftShape(line);
    var dropped, kept := line[..n], line[n..];
    assert line == dropped + kept;
    if kept == "" {
      assert before + line + after == (before + dropped + after) + "";
      StripLeftBlanks(before + dropped + after, "");
      StripLeftBlanks(dropped, "");
    } else {
      assert before + line + after == (before + dropped) + (kept + after);
      StripLeftBlanks(before + dropped, kept + after);
      StripLeftKeeps(kept + after);
      StripRightBlanks(kept, after);
    }
  }

  lemma StripLeftKeeps(line: string)
    requires line != "" && !IsBlank(line[0])
    ensures StripLeft(line) == line
  {}

  // ---- Splitting and joining ----

  // The first line ends at the first newline, or at the end of the text.
  lemma {:induction false} SplitFirst(s: string, k: nat)
    requires k <= |s| && OneLine(s[..k]) && (k < |s| ==> s[k] == '\n')
    ensures SplitLines(s) == [s[..k]] + (if k < |s| then SplitLines(s[k + 1..]) else [])
  {
    if k > 0 {
      assert s[0] == s[..k][0];
      assert s[1..][..k - 1] == s[..k][1..];
      SplitFirst(s[1..], k - 1);
      assert [s[0]] + s[1..][..k - 1] == s[..k];
      if k < |s| {
        assert s[1..][k..] == s[k + 1..];
      }
    } else if s != "" {
      assert s[..0] == "";
    }
  }

  lemma {:induction false} SplitGivesLines(s: string)
    ensures OneLineEach(SplitLines(s))
  {
    if s != "" {
      SplitGivesLines(s[1..]);
    }
  }

  lemma {:induction false} SplitJoin(lines: seq<string>)
    requires lines != [] && OneLineEach(lines)
    ensures SplitLines(JoinLines(lines)) == lines
  {
    var text := JoinLines(lines);
    var k := |lines[0]|;
    assert text[..k] == lines[0];
    SplitFirst(text, k);
    if |lines| > 1 {
      assert text[k + 1..] == JoinLines(lines[1..]);
      SplitJoin(lines[1..]);
    }
  }

  lemma {:induction false} JoinAppendEmpty(lines: seq<string>)
    requires lines != []
    ensures JoinLines(lines + [""]) == JoinLines(lines) + "\n"
  {
    if |lines| == 1 {
      assert (lines + [""])[1..] == [""];
    } else {
      assert (lines + [""])[1..] == lines[1..] + [""];
      JoinAppendEmpty(lines[1..]);
    }
  }

  // ---- Empty tails ----

  lemma {:induction false} DropEmptyTailShape(lines: seq<string>)
    ensures |DropEmptyTail(lines)| <= |lines|
    ensures DropEmptyTail(lines) == lines[..|DropEmptyTail(lines)|]
    ensures forall k :: |DropEmptyTail(lines)| <= k < |lines| ==> lines[k] == ""
    ensures DropEmptyTail(lines) != [] ==> DropEmptyTail(lines)[|DropEmptyTail(lines)| - 1] != ""
  {
    if lines != [] && lines[|lines| - 1] == "" {
      DropEmptyTailShape(lines[..|lines| - 1]);
    }
  }

  function PaddedAt(lines: seq<string>, k: nat): string {
    if k < |lines| then lines[k] else ""
  }

  // Two line lists without empty tail that agree at every padded position are the same list.
  lemma PaddedDetermines(a: seq<string>, b: seq<string>)
    requires forall k: nat :: PaddedAt(a, k) == PaddedAt(b, k)
    requires a != [] ==> a[|a| - 1] != ""
    requires b != [] ==> b[|b| - 1] != ""
    ensures a == b
  {
    ShorterOrEqual(a, b);
    ShorterOrEqual(b, a);
    forall k | 0 <= k < |a| ensures a[k] == b[k] {
      assert PaddedAt(a, k) == PaddedAt(b, k);
    }
  }

  lemma ShorterOrEqual(a: seq<string>, b: seq<string>)
    requires forall k: nat :: PaddedAt(a, k) == PaddedAt(b, k)
    requires b != [] ==> b[|b| - 1] != ""
    ensures |b| <= |a|
  {
    if b != [] {
      var last: nat := |b| - 1;
      assert PaddedAt(a, last) == PaddedAt(b, last);
    }
  }

  // A list of lines as Lines produces them: newline-free, and not ending in an empty line.
  predicate Canonical(lines: seq<string>) {
    OneLineEach(lines) && (lines != [] ==> lines[|lines| - 1] != "")
  }

  lemma LinesCanonical(s: string)
    ensures Canonical(Lines(s))
  {
    var split := SplitLines(s);
    DropEmptyTailShape(StripAll(split));
    SplitGivesLines(s);
    forall k | 0 <= k < |split| ensures OneLine(Strip(split[k])) {
      StripIdempotent(split[k]);
    }
  }

  lemma LinesAt(s: string, k: nat)
    ensures PaddedAt(Lines(s), k) == LineAt(s, k)
  {
    DropEmptyTailShape(StripAll(SplitLines(s)));
  }

  // Joining is undone by Lines on any list of stripped lines without empty tail.
  lemma JoinInjective(a: seq<string>, b: seq<string>)
    requires Canonical(a) && Canonical(b)
    requires JoinLines(a) == JoinLines(b)
    ensures a == b
  {
    if a != [] { JoinLast(a); SplitJoin(a); }
    if b != [] { JoinLast(b); SplitJoin(b); }
  }

  // ---- The specification in characters ----

  // Lines end at the character newline, and at nothing else.
  lemma SplitAtNewline(a: string, b: string)
    ensures '\n' !in a ==> SplitLines(a) == [a]
    ensures SplitLines(a + "\n" + b) == SplitLines(a) + SplitLines(b)
  {
    if '\n' !in a {
      assert a[..|a|] == a;
      SplitFirst(a, |a|);
      assert SplitLines(a) == [a];
    }
    SplitConcat(a, b);
  }

  lemma {:induction false} SplitConcat(a: string, b: string)
    ensures SplitLines(a + "\n" + b) == SplitLines(a) + SplitLines(b)
  {
    var text := a + "\n" + b;
    if a == "" {
      assert text[1..] == b;
    } else {
      assert text[0] == a[0] && text[1..] == a[1..] + "\n" + b;
      SplitConcat(a[1..], b);
    }
  }

  // Stripping takes away exactly the spaces and tabs at both ends.
  lemma StripIs(line: string) returns (from: nat, to: nat)
    ensures from <= to <= |line| && Strip(line) == line[from..to]
    ensures forall i :: 0 <= i < from || to <= i < |line| ==> line[i] == ' ' || line[i] == '\t'
    ensures from < to ==> line[from] != ' ' && line[from] != '\t' && line[to - 1] != ' ' && line[to - 1] != '\t'
  {
    from := StripLeftShape(line);
    var n := StripRightKeeps(line[from..]);
    to := from + n;
    assert line[from..][..n] == line[from..to];
    forall i | to <= i < |line| ensures line[i] == ' ' || line[i] == '\t' {
      assert line[i] == line[from..][i - from];
    }
    if from < to {
      assert line[to - 1] == line[from..][n - 1];
    }
  }

  lemma EmptyText()
    ensures SplitLines(JoinLines([])) == [""]
  {}

  lemma {:induction false} StripRightKeeps(line: string) returns (n: nat)
    ensures n <= |line| && StripRight(line) == line[..n]
    ensures forall i :: n <= i < |line| ==> IsBlank(line[i])
    ensures n > 0 ==> !IsBlank(line[n - 1])
  {
    if line != "" && IsBlank(line[|line| - 1]) {
      n := StripRightKeeps(line[..|line| - 1]);
      assert line[..|line| - 1][..n] == line[..n];
      forall i | n <= i < |line| ensures IsBlank(line[i]) {
        assert i < |line| - 1 ==> line[i] == line[..|line| - 1][i];
      }
    } else {
      n := |line|;
    }
  }

  // The trimmed text has the first n lines, stripped, where n is the number of the last line
  // that is not blank; it has one empty line if there is none.
  lemma NormalizeLines(s: string) returns (n: nat)
    ensures n <= |SplitLines(s)|
    ensures SplitLines(Normalize(s)) == if n == 0 then [""] else seq(n, k requires 0 <= k < n => LineAt(s, k))
    ensures forall k: nat :: k >= n ==> LineAt(s, k) == ""
    ensures n > 0 ==> LineAt(s, n - 1) != ""
  {
    hide SplitLines, JoinLines, Strip, StripAll, DropEmptyTail, LineAt, OneLine;
    var lines := Lines(s);
    n := |lines|;
    LinesCanonical(s);
    DropEmptyTailShape(StripAll(SplitLines(s)));
    EmptyText();
    forall k: nat ensures PaddedAt(lines, k) == LineAt(s, k) {
      LinesAt(s, k);
    }
    forall k: nat | k >= n ensures LineAt(s, k) == "" {
      assert PaddedAt(lines, k) == LineAt(s, k);
    }
    if n > 0 {
      SplitJoin(lines);
      forall k: nat | k < n ensures lines[k] == LineAt(s, k) {
        assert PaddedAt(lines, k) == LineAt(s, k);
      }
      assert PaddedAt(lines, n - 1) == LineAt(s, n - 1);
      assert lines == seq(n, k requires 0 <= k < n => LineAt(s, k));
    }
  }

  // ---- What the comparison identifies ----

  // Two outputs normalise to the same text exactly when they agree line by line after
  // stripping, with missing trailing lines counting as empty.
  lemma NormalizeEqualIff(a: string, b: string)
    ensures Normalize(a) == Normalize(b) <==> SameLines(a, b)
  {
    LinesEqualIff(a, b);
    var linesA, linesB := Lines(a), Lines(b);
    LinesCanonical(a);
    LinesCanonical(b);
    if JoinLines(linesA) == JoinLines(linesB) {
      JoinInjective(linesA, linesB);
    }
  }

  lemma LinesEqualIff(a: string, b: string)
    ensures Lines(a) == Lines(b) <==> SameLines(a, b)
  {
    hide Lines, LineAt, OneLineEach;
    var linesA, linesB := Lines(a), Lines(b);
    forall k: nat ensures PaddedAt(linesA, k) == LineAt(a, k) && PaddedAt(linesB, k) == LineAt(b, k) {
      LinesAt(a, k);
      LinesAt(b, k);
    }
    LinesCanonical(a);
    LinesCanonical(b);
    if SameLines(a, b) {
      forall k: nat ensures PaddedAt(linesA, k) == PaddedAt(linesB, k) {
        assert LineAt(a, k) == LineAt(b, k);
      }
      PaddedDetermines(linesA, linesB);
    }
    if linesA == linesB {
      forall k: nat ensures LineAt(a, k) == LineAt(b, k) {
        assert PaddedAt(linesA, k) == PaddedAt(linesB, k);
      }
    }
  }

  lemma NormalizeIdempotent(s: string)
    ensures Normalize(Normalize(s)) == Normalize(s)
  {
    LinesCanonical(s);
    var text := Normalize(s);
    forall k: nat ensures LineAt(text, k) == LineAt(s, k) {
      if Lines(s) == [] {
        assert SplitLines(text) == [""];
      } else {
        SplitJoin(Lines(s));
      }
      LinesAt(s, k);
      if k < |SplitLines(s)| {
        StripIdempotent(SplitLines(s)[k]);
      }
    }
    NormalizeEqualIff(text, s);
  }

  function Padded(lines: seq<string>, before: seq<string>, after: seq<string>): seq<string>
    requires |before| == |after| == |lines|
  {
    seq(|lines|, k requires 0 <= k < |lines| => before[k] + lines[k] + after[k])
  }

  // Blanks at the edges of any lines, and any number of extra newlines at the end,
  // never change the outcome of the comparison.
  lemma PaddingIgnored(lines: seq<string>, before: seq<string>, after: seq<string>, extra: nat)
    requires lines != [] && OneLineEach(lines) && |before| == |after| == |lines|
    requires forall k, c :: 0 <= k < |lines| && c in before[k] ==> IsBlank(c)
    requires forall k, c :: 0 <= k < |lines| && c in after[k] ==> IsBlank(c)
    ensures Normalize(JoinLines(Padded(lines, before, after) + seq(extra, k => ""))) == Normalize(JoinLines(lines))
  {
    hide SplitLines, JoinLines, Lines, Normalize, Strip, LineAt, SameLines, OneLine;
    var padded := Padded(lines, before, after) + seq(extra, k => "");
    PaddedOneLine(lines, before, after, extra);
    var text, plain := JoinLines(padded), JoinLines(lines);
    forall k: nat ensures LineAt(text, k) == LineAt(plain, k) {
      LineAtJoin(lines, k);
      LineAtJoin(padded, k);
      StripEmpty();
      if k < |lines| {
        StripPadded(before[k], lines[k], after[k]);
      }
    }
    LinesTheSame(text, plain);
    NormalizeEqualIff(text, plain);
  }

  lemma LinesTheSame(a: string, b: string)
    requires forall k: nat :: LineAt(a, k) == LineAt(b, k)
    ensures SameLines(a, b)
  {}

  lemma StripEmpty()
    ensures Strip("") == ""
  {}

  lemma PaddedOneLine(lines: seq<string>, before: seq<string>, after: seq<string>, extra: nat)
    requires OneLineEach(lines) && |before| == |after| == |lines|
    requires forall k, c :: 0 <= k < |lines| && c in before[k] ==> IsBlank(c)
    requires forall k, c :: 0 <= k < |lines| && c in after[k] ==> IsBlank(c)
    ensures OneLineEach(Padded(lines, before, after) + seq(extra, k => ""))
  {
    var padded := Padded(lines, before, after);
    forall k | 0 <= k < |lines| ensures OneLine(padded[k]) {
      assert !IsBlank('\n') && OneLine(lines[k]);
      assert padded[k] == before[k] + lines[k] + after[k];
    }
  }

  lemma LineAtJoin(lines: seq<string>, k: nat)
    requires lines != [] && OneLineEach(lines)
    ensures LineAt(JoinLines(lines), k) == if k < |lines| then Strip(lines[k]) else ""
  {
    SplitJoin(lines);
  }

  // ---- The nested loops ----

  // The text before the final newlines are popped.
  function Cleaned(s: string): string { JoinLines(StripAll(SplitLines(s))) }

  function DropNewlines(s: string): string {
    if s != "" && s[|s| - 1] == '\n' then DropNewlines(s[..|s| - 1]) else s
  }

  lemma CleanedFirst(s: string, k: nat)
    requires k <= |s| && OneLine(s[..k]) && (k < |s| ==> s[k] == '\n')
    ensures Cleaned(s) == Strip(s[..k]) + (if k < |s| then "\n" + Cleaned(s[k + 1..]) else "")
  {
    SplitFirst(s, k);
    if k < |s| {
      var rest := SplitLines(s[k + 1..]);
      assert SplitLines(s)[1..] == rest;
      assert StripAll(SplitLines(s)) == [Strip(s[..k])] + StripAll(rest);
      assert StripAll(SplitLines(s))[1..] == StripAll(rest);
    }
  }

  lemma CleanedEmpty(s: string)
    ensures Cleaned(s[|s|..]) == ""
  {
    assert s[|s|..] == "" && SplitLines("") == [""];
    assert StripAll([""]) == [Strip("")] + StripAll([""][1..]);
    StripFixed("");
  }

  lemma {:induction false} DropNewlinesJoin(lines: seq<string>)
    requires lines != [] && OneLineEach(lines)
    ensures DropNewlines(JoinLines(lines)) == JoinLines(DropEmptyTail(lines))
  {
    var n := |lines| - 1;
    if lines[n] == "" {
      if n > 0 {
        JoinAppendEmpty(lines[..n]);
        assert lines == lines[..n] + [""];
        var text := JoinLines(lines[..n]);
        assert (text + "\n")[..|text + "\n"| - 1] == text;
        DropNewlinesJoin(lines[..n]);
      }
    } else {
      JoinLast(lines);
      var text := JoinLines(lines);
      assert text[|text| - 1] == lines[n][|lines[n]| - 1];
      assert text[|text| - 1] in lines[n];
    }
  }

  lemma {:induction false} JoinLast(lines: seq<string>)
    requires lines != [] && lines[|lines| - 1] != ""
    ensures JoinLines(lines) != ""
    ensures JoinLines(lines)[|JoinLines(lines)| - 1] == lines[|lines| - 1][|lines[|lines| - 1]| - 1]
  {
    if |lines| > 1 {
      JoinLast(lines[1..]);
    }
  }

  lemma NormalizeIsDropNewlines(s: string)
    ensures Normalize(s) == DropNewlines(Cleaned(s))
  {
    var lines := StripAll(SplitLines(s));
    SplitGivesLines(s);
    forall k | 0 <= k < |lines| ensures OneLine(lines[k]) {
      StripIdempotent(SplitLines(s)[k]);
    }
    DropNewlinesJoin(lines);
  }

  // Trimming never makes a text longer.
  lemma NormalizeNotLonger(s: string)
    ensures |Normalize(s)| <= |s|
  {
    NormalizeIsDropNewlines(s);
    JoinSplit(s);
    StripShortens(SplitLines(s));
    DropShortens(Cleaned(s));
  }

  lemma {:induction false} JoinSplit(s: string)
    ensures JoinLines(SplitLines(s)) == s
  {
    if s != "" {
      var rest := SplitLines(s[1..]);
      JoinSplit(s[1..]);
      assert s == [s[0]] + s[1..];
      if s[0] == '\n' {
        assert ([""] + rest)[1..] == rest;
      } else {
        assert ([[s[0]] + rest[0]] + rest[1..])[1..] == rest[1..];
      }
    }
  }

  lemma {:induction false} StripShortens(lines: seq<string>)
    ensures |JoinLines(StripAll(lines))| <= |JoinLines(lines)|
  {
    if lines != [] {
      var n := StripLeftShape(lines[0]);
      var m := StripRightShape(StripLeft(lines[0]));
      StripShortens(lines[1..]);
    }
  }

  lemma {:induction false} DropShortens(s: string)
    ensures |DropNewlines(s)| <= |s|
  {
    if s != "" && s[|s| - 1] == '\n' { DropShortens(s[..|s| - 1]); }
  }

  // One line of the text: leading blanks up to textStart, the rest up to end.
  lemma LineCleaned(s: string, start: nat, textStart: nat, end: nat)
    requires start <= textStart <= end <= |s|
    requires forall j :: start <= j < textStart ==> IsBlank(s[j])
    requires textStart < end ==> !IsBlank(s[textStart])
    requires OneLine(s[textStart..end]) && (end < |s| ==> s[end] == '\n')
    ensures Cleaned(s[start..])
         == StripRight(s[textStart..end]) + (if end < |s| then "\n" + Cleaned(s[end + 1..]) else "")
  {
    var line, pad, text := s[start..end], s[start..textStart], s[textStart..end];
    assert line == pad + text;
    assert OneLine(pad);
    StripLeftBlanks(pad, text);
    var rest := s[start..];
    SliceOfRest(s, start, end);
    CleanedFirst(rest, end - start);
  }

  lemma SliceOfRest(s: string, start: nat, end: nat)
    requires start <= end <= |s|
    ensures s[start..][..end - start] == s[start..end]
    ensures end < |s| ==> s[start..][end - start + 1..] == s[end + 1..] && s[start..][end - start] == s[end]
  {}

  // What the outer loop keeps: the result so far, followed by the cleaned rest, is the cleaned text.
  ghost predicate Boundary(s: string, i: nat, result: string)
    requires i <= |s|
  {
    && result + Cleaned(s[i..]) == Cleaned(s)
    && (i < |s| && result != "" ==> result[|result| - 1] == '\n')
  }

  lemma LineDone(s: string, start: nat, textStart: nat, end: nat, base: string, kept: string)
    requires start <= textStart <= end <= |s| && Boundary(s, start, base)
    requires forall j :: start <= j < textStart ==> IsBlank(s[j])
    requires textStart < end ==> !IsBlank(s[textStart])
    requires forall j :: textStart <= j < end ==> s[j] != '\n'
    requires end < |s| ==> s[end] == '\n'
    requires StripRight(kept) == StripRight(s[textStart..end])
    requires base + kept == "" || !IsBlank((base + kept)[|base + kept| - 1])
    ensures end < |s| ==> Boundary(s, end + 1, base + kept + ['\n'])
    ensures end == |s| ==> Boundary(s, end, base + kept)
  {
    LineCleaned(s, start, textStart, end);
    assert StripRight(kept) == kept;
    if end < |s| {
      Regroup(base, kept, "\n", Cleaned(s[end + 1..]));
    } else {
      CleanedEmpty(s);
      Regroup(base, kept, "", "");
    }
  }

  lemma Regroup(a: string, b: string, c: string, d: string)
    ensures a + (b + (c + d)) == (a + b + c) + d
    ensures b + ("" + "") == b + ""
  {}

  lemma BoundaryEnd(s: string, result: string)
    requires Boundary(s, |s|, result)
    ensures DropNewlines(result) == Normalize(s)
  {
    CleanedEmpty(s);
    assert result + "" == result;
    NormalizeIsDropNewlines(s);
  }

  lemma BoundaryStart(s: string)
    ensures Boundary(s, 0, "")
  {
    assert s[0..] == s && "" + Cleaned(s) == Cleaned(s);
  }

  // Popping blanks never reaches past the newline that ends the previous line.
  lemma LineEnds(s: string, i: nat, base: string, kept: string, result: string)
    requires i < |s| && Boundary(s, i, base)
    requires result == base + kept && result != "" && IsBlank(result[|result| - 1])
    ensures kept != "" && IsBlank(kept[|kept| - 1])
  {
    assert kept == "" ==> result == base;
  }

  lemma PopBlank(line: string)
    requires line != "" && IsBlank(line[|line| - 1])
    ensures StripRight(line[..|line| - 1]) == StripRight(line)
  {}

  lemma EmptyHasNoNewlines()
    ensures DropNewlines("") == ""
  {}

  lemma PopNewline(text: string)
    requires text != ""
    ensures text[|text| - 1] == '\n' ==> DropNewlines(text[..|text| - 1]) == DropNewlines(text)
    ensures text[|text| - 1] != '\n' ==> DropNewlines(text) == text
  {}

  // trim_output. The ghost counters show the amortised cost: every character is pushed at
  // most once and popped at most once.
  method TrimOutput(s: string) returns (result: string, ghost pushes: nat, ghost pops: nat)
    ensures result == Normalize(s)
    ensures pops <= pushes <= |s| && |result| == pushes - pops
  {
    hide *;
    BoundaryStart(s);
    result := "";
    pushes, pops := 0, 0;
    var i := 0;

    while i < |s|
      invariant 0 <= i <= |s| && Boundary(s, i, result)
      invariant pops <= pushes <= i && |result| == pushes - pops
    {
      ghost var lineStart, base := i, result;
      while i < |s| && IsBlank(s[i])
        invariant lineStart <= i <= |s|
        invariant forall j :: lineStart <= j < i ==> IsBlank(s[j])
      {
        i := i + 1;
      }
      ghost var textStart := i;
      while i < |s| && s[i] != '\n'
        invariant textStart <= i <= |s|
        invariant forall j :: textStart <= j < i ==> s[j] != '\n'
        invariant textStart < i ==> !IsBlank(s[textStart])
        invariant result == base + s[textStart..i]
        invariant pops <= pushes <= i && |result| == pushes - pops
      {
        assert s[textStart..i + 1] == s[textStart..i] + [s[i]];
        result := result + [s[i]];
        pushes := pushes + 1;
        i := i + 1;
      }
      ghost var kept := s[textStart..i];
      while result != "" && IsBlank(result[|result| - 1])
        invariant result == base + kept
        invariant StripRight(kept) == StripRight(s[textStart..i])
        invariant pops <= pushes <= i && |result| == pushes - pops
        decreases |result|
      {
        LineEnds(s, lineStart, base, kept, result);
        PopBlank(kept);
        assert result[..|result| - 1] == base + kept[..|kept| - 1];
        kept := kept[..|kept| - 1];
        result := result[..|result| - 1];
        pops := pops + 1;
      }
      LineDone(s, lineStart, textStart, i, base, kept);
      if i < |s| && s[i] == '\n' {
        result := result + ['\n'];
        pushes := pushes + 1;
        i := i + 1;
      }
    }

    BoundaryEnd(s, result);
    while result != "" && result[|result| - 1] == '\n'
      invariant DropNewlines(result) == Normalize(s)
      invariant pops <= pushes <= |s| && |result| == pushes - pops
      decreases |result|
    {
      PopNewline(result);
      result := result[..|result| - 1];
      pops := pops + 1;
    }
    if result != "" {
      PopNewline(result);
    }
    EmptyHasNoNewlines();
  }
}

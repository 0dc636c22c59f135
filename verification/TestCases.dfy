// The testcases table and the ordered query that judge and handle_get_submission share.
module TestCases {

  datatype TestCase = TestCase(id: int, problemId: int, input: string, expected: string, isSample: bool, sortOrder: int)

  // Sorted by the order column, then by id.
  predicate Before(a: TestCase, b: TestCase) {
    a.sortOrder < b.sortOrder || (a.sortOrder == b.sortOrder && a.id < b.id)
  }

  // id is the primary key of the table.
  ghost predicate KeyedById(table: set<TestCase>) {
    forall a, b :: a in table && b in table && a.id == b.id ==> a == b
  }

  ghost function OfProblem(table: set<TestCase>, problemId: int): set<TestCase> {
    set c | c in table && c.problemId == problemId
  }

  // The cases that come strictly before c in its problem's order.
  ghost function Earlier(table: set<TestCase>, problemId: int, c: TestCase): set<TestCase> {
    set d | d in table && d.problemId == problemId && Before(d, c)
  }

  // The result of the query for a problem's cases in this order.
  ghost predicate IsListing(listing: seq<TestCase>, table: set<TestCase>, problemId: int) {
    && (forall i, j :: 0 <= i < j < |listing| ==> Before(listing[i], listing[j]))
    && (forall c :: c in listing <==> c in OfProblem(table, problemId))
  }

  // Exactly the problem's cases, each once, ascending by sort_order and then by id.
  lemma ListingIs(listing: seq<TestCase>, table: set<TestCase>, problemId: int)
    ensures IsListing(listing, table, problemId) <==>
      && (forall c :: c in listing <==> c in table && c.problemId == problemId)
      && (forall i, j :: 0 <= i < j < |listing| ==>
            || listing[i].sortOrder < listing[j].sortOrder
            || (listing[i].sortOrder == listing[j].sortOrder && listing[i].id < listing[j].id))
  {}

  ghost function Elements(s: seq<TestCase>): set<TestCase> { set c | c in s }

  lemma {:induction false} DistinctCardinality(s: seq<TestCase>)
    requires forall i, j :: 0 <= i < j < |s| ==> Before(s[i], s[j])
    ensures |Elements(s)| == |s|
  {
    if s != [] {
      var n := |s| - 1;
      DistinctCardinality(s[..n]);
      assert s == s[..n] + [s[n]];
      assert Elements(s) == Elements(s[..n]) + {s[n]};
      assert s[n] !in Elements(s[..n]);
    }
  }

  // Position in the listing is rank by key.
  lemma PositionIsRank(listing: seq<TestCase>, table: set<TestCase>, problemId: int, n: nat)
    requires IsListing(listing, table, problemId) && n < |listing|
    ensures |Earlier(table, problemId, listing[n])| == n
  {
    var c := listing[n];
    DistinctCardinality(listing[..n]);
    forall d ensures d in Elements(listing[..n]) <==> d in Earlier(table, problemId, c) {
      if d in listing[..n] {
        assert d in listing;
        assert d in OfProblem(table, problemId);
      }
      if d in Earlier(table, problemId, c) {
        assert d in OfProblem(table, problemId);
        var i :| 0 <= i < |listing| && listing[i] == d;
        assert i > n ==> Before(c, d);
        assert i < n;
        assert d == listing[..n][i];
      }
    }
    assert Elements(listing[..n]) == Earlier(table, problemId, c);
  }

  // The ordered query has only one possible answer.
  lemma ListingUnique(one: seq<TestCase>, two: seq<TestCase>, table: set<TestCase>, problemId: int)
    requires IsListing(one, table, problemId) && IsListing(two, table, problemId)
    ensures one == two
  {
    DistinctCardinality(one);
    DistinctCardinality(two);
    assert Elements(one) == OfProblem(table, problemId) == Elements(two);
    forall n | 0 <= n < |one| ensures one[n] == two[n] {
      PositionIsRank(one, table, problemId, n);
      assert one[n] in Elements(two);
      var m :| 0 <= m < |two| && two[m] == one[n];
      PositionIsRank(two, table, problemId, m);
    }
  }

  // ... and it always has one.
  lemma {:induction false} ListingExists(table: set<TestCase>, problemId: int) returns (listing: seq<TestCase>)
    requires KeyedById(table)
    ensures IsListing(listing, table, problemId)
    decreases |OfProblem(table, problemId)|
  {
    var cases := OfProblem(table, problemId);
    if cases == {} {
      listing := [];
    } else {
      var last := Latest(cases);
      var rest := table - {last};
      assert OfProblem(rest, problemId) == cases - {last};
      var init := ListingExists(rest, problemId);
      listing := init + [last];
      forall i, j | 0 <= i < j < |listing| ensures Before(listing[i], listing[j]) {
        if j == |init| {
          assert init[i] in init;
          assert init[i] in OfProblem(rest, problemId);
        }
      }
    }
  }

  lemma {:induction false} Latest(cases: set<TestCase>) returns (last: TestCase)
    requires cases != {} && KeyedById(cases)
    ensures last in cases && forall c :: c in cases && c != last ==> Before(c, last)
  {
    var c :| c in cases;
    if cases == {c} {
      last := c;
    } else {
      var rest := cases - {c};
      assert rest == {} ==> cases == {c};
      var m := Latest(rest);
      assert m in cases && m != c && m.id != c.id;
      last := if Before(m, c) then c else m;
      forall d | d in cases && d != last ensures Before(d, last) {
        assert d == c || d in rest;
      }
    }
  }

  // What handle_get_submission's query finds at offset failed_case - 1 in the current table.
  function CaseAtOffset(listing: seq<TestCase>, failedCase: int): (string, string) {
    if 0 < failedCase <= |listing|
      then (listing[failedCase - 1].input, listing[failedCase - 1].expected)
      else ("", "")
  }

  // Looking up by offset later finds the same case exactly when that case is still in the
  // table and still has the same number of cases before it.
  lemma OffsetStableIff(then_: seq<TestCase>, tableThen: set<TestCase>,
                        now: seq<TestCase>, tableNow: set<TestCase>, problemId: int, n: nat)
    requires IsListing(then_, tableThen, problemId) && IsListing(now, tableNow, problemId) && n < |then_|
    ensures (n < |now| && now[n] == then_[n])
       <==> (then_[n] in tableNow && |Earlier(tableNow, problemId, then_[n])| == n)
  {
    var c := then_[n];
    assert c in then_ && c in OfProblem(tableThen, problemId);
    if n < |now| && now[n] == c {
      assert c in now && c in OfProblem(tableNow, problemId);
      PositionIsRank(now, tableNow, problemId, n);
    }
    if c in tableNow && |Earlier(tableNow, problemId, c)| == n {
      assert c in OfProblem(tableNow, problemId) && c in now;
      var m :| 0 <= m < |now| && now[m] == c;
      PositionIsRank(now, tableNow, problemId, m);
    }
  }

  // Between the two tables only cases of other problems, or sorting after case number
  // failedCase, were added or deleted.
  ghost predicate OnlyLaterEdits(listing: seq<TestCase>, failedCase: int, tableThen: set<TestCase>,
                                 tableNow: set<TestCase>, problemId: int) {
    0 < failedCase <= |listing| ==>
      forall d :: (d in tableThen) != (d in tableNow) && d.problemId == problemId ==>
        Before(listing[failedCase - 1], d)
  }

  // Adding and deleting cases that sort after the failed one, or belong to other problems,
  // never changes which case is shown.
  lemma OffsetStableUnderLaterEdits(then_: seq<TestCase>, tableThen: set<TestCase>,
                                    now: seq<TestCase>, tableNow: set<TestCase>, problemId: int, n: nat)
    requires IsListing(then_, tableThen, problemId) && IsListing(now, tableNow, problemId) && n < |then_|
    requires OnlyLaterEdits(then_, n + 1, tableThen, tableNow, problemId)
    ensures CaseAtOffset(now, n + 1) == (then_[n].input, then_[n].expected)
  {
    var c := then_[n];
    assert c in then_ && c in OfProblem(tableThen, problemId);
    assert !Before(c, c);
    PositionIsRank(then_, tableThen, problemId, n);
    forall d ensures d in Earlier(tableThen, problemId, c) <==> d in Earlier(tableNow, problemId, c) {
      assert !(Before(c, d) && Before(d, c));
    }
    assert Earlier(tableThen, problemId, c) == Earlier(tableNow, problemId, c);
    OffsetStableIff(then_, tableThen, now, tableNow, problemId, n);
  }

  // Deleting an earlier case shifts the offset: the case shown is then never the one that failed.
  lemma OffsetMovesAfterEarlierDelete(then_: seq<TestCase>, tableThen: set<TestCase>,
                                      now: seq<TestCase>, gone: TestCase, problemId: int, n: nat)
    requires IsListing(then_, tableThen, problemId) && n < |then_|
    requires gone in Earlier(tableThen, problemId, then_[n])
    requires IsListing(now, tableThen - {gone}, problemId)
    ensures !(n < |now| && now[n] == then_[n])
  {
    var c := then_[n];
    PositionIsRank(then_, tableThen, problemId, n);
    assert Earlier(tableThen - {gone}, problemId, c) == Earlier(tableThen, problemId, c) - {gone};
    OffsetStableIff(then_, tableThen, now, tableThen - {gone}, problemId, n);
  }
}

// Small vocabulary shared by the models: optional values and weighted sums over
// sequences (used to count threads, requests and rows by kind).
module Common {

  datatype Option<+T> = None | Some(value: T)

  function Max(a: int, b: int): int { if a < b then b else a }

  // The total weight of the elements of s.
  ghost function Sum<T>(s: seq<T>, weight: T -> nat): nat {
    if s == [] then 0 else weight(s[0]) + Sum(s[1..], weight)
  }

  lemma {:induction false} SumConcat<T>(s: seq<T>, t: seq<T>, weight: T -> nat)
    ensures Sum(s + t, weight) == Sum(s, weight) + Sum(t, weight)
  {
    if s == [] {
      assert s + t == t;
    } else {
      assert (s + t)[1..] == s[1..] + t;
      SumConcat(s[1..], t, weight);
    }
  }

  lemma SumAppend<T>(s: seq<T>, x: T, weight: T -> nat)
    ensures Sum(s + [x], weight) == Sum(s, weight) + weight(x)
  {
    SumConcat(s, [x], weight);
    assert Sum([x], weight) == weight(x) + Sum([], weight);
  }

  lemma SumSplit<T>(s: seq<T>, i: nat, weight: T -> nat)
    requires i < |s|
    ensures Sum(s, weight) == Sum(s[..i], weight) + weight(s[i]) + Sum(s[i + 1..], weight)
  {
    assert s == s[..i] + [s[i]] + s[i + 1..];
    SumConcat(s[..i] + [s[i]], s[i + 1..], weight);
    SumAppend(s[..i], s[i], weight);
  }

  // Replacing one element changes the total by the difference of the two weights.
  lemma SumUpdate<T>(s: seq<T>, i: nat, x: T, weight: T -> nat)
    requires i < |s|
    ensures Sum(s[i := x], weight) + weight(s[i]) == Sum(s, weight) + weight(x)
  {
    SumSplit(s, i, weight);
    SumSplit(s[i := x], i, weight);
    assert s[i := x][..i] == s[..i];
    assert s[i := x][i + 1..] == s[i + 1..];
  }

  // No element weighs more than the whole.
  lemma SumMember<T>(s: seq<T>, i: nat, weight: T -> nat)
    requires i < |s|
    ensures weight(s[i]) <= Sum(s, weight)
  {
    SumSplit(s, i, weight);
  }

  // Two weightings that agree (or are ordered) element by element have totals ordered the same way.
  lemma {:induction false} SumMonotone<T>(s: seq<T>, low: T -> nat, high: T -> nat)
    requires forall i :: 0 <= i < |s| ==> low(s[i]) <= high(s[i])
    ensures Sum(s, low) <= Sum(s, high)
  {
    if s != [] {
      SumMonotone(s[1..], low, high);
    }
  }

  lemma {:induction false} SumBounded<T>(s: seq<T>, weight: T -> nat, bound: nat)
    requires forall i :: 0 <= i < |s| ==> weight(s[i]) <= bound
    ensures Sum(s, weight) <= bound * |s|
  {
    if s != [] {
      SumBounded(s[1..], weight, bound);
    }
  }
}

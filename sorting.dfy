/** The ascending sort of the per-run totals (List.sort with
    Long::compareTo), given by insertion into a sorted sequence. */
module Sorting {

  predicate Ascending(s: seq<int>)
  {
    forall i, j :: 0 <= i < j < |s| ==> s[i] <= s[j]
  }

  /** Inserts x before the first element larger than it. */
  function Insert(x: int, s: seq<int>): (r: seq<int>)
    requires Ascending(s)
    ensures Ascending(r)
    ensures multiset(r) == multiset(s) + multiset{x}
    ensures |r| == |s| + 1
  {
    if s == [] then [x]
    else if x <= s[0] then [x] + s
    else
      var rest := Insert(x, s[1..]);
      assert s == [s[0]] + s[1..];
      ConsAscending(s[0], rest, s[1..] + [x]);
      [s[0]] + rest
  }

  /** Putting a lower bound of every element in front keeps a sequence ascending. */
  lemma ConsAscending(y: int, r: seq<int>, from: seq<int>)
    requires Ascending(r) && multiset(r) == multiset(from)
    requires forall j :: 0 <= j < |from| ==> y <= from[j]
    ensures Ascending([y] + r)
  {
    forall j | 0 <= j < |r| ensures y <= r[j] {
      assert r[j] in multiset(from);
    }
  }

  /** The values of s in ascending order. */
  function SortAscending(s: seq<int>): (r: seq<int>)
    ensures Ascending(r)
    ensures multiset(r) == multiset(s)
    ensures |r| == |s|
  {
    if s == [] then []
    else
      assert s == [s[0]] + s[1..];
      Insert(s[0], SortAscending(s[1..]))
  }
}

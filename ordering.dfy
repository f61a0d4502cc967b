/** The WHERE and ORDER BY clauses of the store's queries. A table is a map from
    row id to row, ids being handed out from 1 upwards below a bound; a query's
    result lists the ids of the selected rows, each once, by ascending rank (the
    ordered column, negated for DESC). SQL leaves the order of rows with equal
    rank open; this model keeps them by ascending id. */
module Ordering {
  import opened Common

  /** Row a (rank ra) may come before row b (rank rb). */
  predicate Precedes(ra: int, a: int, rb: int, b: int) {
    ra < rb || (ra == rb && a <= b)
  }

  /** The ids of the rows with id in [lo, hi) that the filter keeps, ascending. */
  function Select<T>(m: map<int, T>, keep: T -> bool, lo: int, hi: int): (s: seq<int>)
    ensures forall i :: 0 <= i < |s| ==> s[i] in m && keep(m[s[i]]) && lo <= s[i] < hi
    ensures forall k :: lo <= k < hi && k in m && keep(m[k]) ==> k in s
    ensures forall i, j :: 0 <= i < j < |s| ==> s[i] < s[j]
    decreases hi - lo
  {
    if lo >= hi then []
    else if lo in m && keep(m[lo]) then [lo] + Select(m, keep, lo + 1, hi)
    else Select(m, keep, lo + 1, hi)
  }

  /** Every id of the list is a row of the table. */
  predicate InTable<T>(m: map<int, T>, s: seq<int>) {
    forall i :: 0 <= i < |s| ==> s[i] in m
  }

  /** The listing is sorted by rank (ties by id). */
  predicate SortedByRank<T>(m: map<int, T>, rank: T -> int, s: seq<int>)
    requires InTable(m, s)
  {
    forall i, j :: 0 <= i < j < |s| ==> Precedes(rank(m[s[i]]), s[i], rank(m[s[j]]), s[j])
  }

  /** Inserting one id into a sorted listing at its place. */
  function Insert<T>(m: map<int, T>, rank: T -> int, k: int, s: seq<int>): (r: seq<int>)
    requires k in m && InTable(m, s) && SortedByRank(m, rank, s)
    ensures InTable(m, r) && SortedByRank(m, rank, r)
    ensures |r| == |s| + 1
    ensures forall x :: x in r <==> x in s || x == k
    ensures NoDuplicates(s) && k !in s ==> NoDuplicates(r)
  {
    if |s| == 0 then [k]
    else if Precedes(rank(m[k]), k, rank(m[s[0]]), s[0]) then [k] + s
    else
      var t := Insert(m, rank, k, s[1..]);
      assert s == [s[0]] + s[1..];
      assert forall x :: x in t ==> Precedes(rank(m[s[0]]), s[0], rank(m[x]), x);
      assert NoDuplicates(s) && k !in s ==> NoDuplicates(s[1..]) && s[0] !in s[1..];
      [s[0]] + t
  }

  /** The listing ordered by (rank, id): the same ids, sorted. */
  function Sort<T>(m: map<int, T>, rank: T -> int, s: seq<int>): (r: seq<int>)
    requires InTable(m, s)
    ensures InTable(m, r) && SortedByRank(m, rank, r)
    ensures |r| == |s|
    ensures forall x :: x in r <==> x in s
    ensures NoDuplicates(s) ==> NoDuplicates(r)
  {
    if |s| == 0 then []
    else
      assert s == [s[0]] + s[1..];
      Insert(m, rank, s[0], Sort(m, rank, s[1..]))
  }

  /** The result of a query: the selected ids below hi, by (rank, id). */
  function Query<T>(m: map<int, T>, keep: T -> bool, rank: T -> int, hi: int): (s: seq<int>)
    ensures InTable(m, s) && SortedByRank(m, rank, s)
    ensures forall i :: 0 <= i < |s| ==> keep(m[s[i]]) && 1 <= s[i] < hi
    ensures forall k :: 1 <= k < hi && k in m && keep(m[k]) ==> k in s
    ensures NoDuplicates(s)
  {
    var sel := Select(m, keep, 1, hi);
    var r := Sort(m, rank, sel);
    assert forall i :: 0 <= i < |r| ==> r[i] in sel;
    r
  }
}

/**
 * The ORDER BY semantics the thread queries rely on: a stable sort on the
 * `created` column, ascending or descending. SQL leaves the order of rows with
 * equal timestamps open; the model keeps them in table order, and no property
 * below depends on that choice except where timestamps are strictly increasing.
 */
module Queries {

  datatype Order = Asc | Desc

  /** The sort rank of an element: its key under ASC, the negated key under DESC. */
  function Rank<T>(key: T -> int, o: Order): T -> int
  {
    if o == Asc then key else (x: T) => -key(x)
  }

  /** Ranks never decrease along s. */
  predicate Ascending<T>(s: seq<T>, rank: T -> int) {
    forall i, j :: 0 <= i < j < |s| ==> rank(s[i]) <= rank(s[j])
  }

  /** s is ordered by key in direction o. */
  predicate SortedBy<T>(s: seq<T>, key: T -> int, o: Order) {
    Ascending(s, Rank(key, o))
  }

  /** SortedBy spelled out: non-decreasing keys under ASC, non-increasing under DESC. */
  lemma SortedByMeaning<T>(s: seq<T>, key: T -> int, o: Order, i: int, j: int)
    requires SortedBy(s, key, o)
    requires 0 <= i < j < |s|
    ensures o == Asc ==> key(s[i]) <= key(s[j])
    ensures o == Desc ==> key(s[i]) >= key(s[j])
  {
    assert Rank(key, o)(s[i]) <= Rank(key, o)(s[j]);
  }

  /** Place x before the first element whose rank is not below its own. */
  function InsertByRank<T>(x: T, s: seq<T>, rank: T -> int): (r: seq<T>)
    ensures |r| == |s| + 1
  {
    if s == [] || rank(x) <= rank(s[0]) then [x] + s
    else [s[0]] + InsertByRank(x, s[1..], rank)
  }

  lemma {:induction false} InsertByRankPermutes<T>(x: T, s: seq<T>, rank: T -> int)
    ensures multiset(InsertByRank(x, s, rank)) == multiset(s) + multiset{x}
  {
    if s != [] && rank(s[0]) < rank(x) {
      InsertByRankPermutes(x, s[1..], rank);
      assert s == [s[0]] + s[1..];
    }
  }

  /** A floor under the rank of x and of every element of s is a floor under the result. */
  lemma {:induction false} InsertByRankFloor<T>(x: T, s: seq<T>, rank: T -> int, lo: int)
    requires lo <= rank(x)
    requires forall k :: 0 <= k < |s| ==> lo <= rank(s[k])
    ensures forall k :: 0 <= k < |InsertByRank(x, s, rank)| ==> lo <= rank(InsertByRank(x, s, rank)[k])
  {
    if s != [] && rank(s[0]) < rank(x) {
      InsertByRankFloor(x, s[1..], rank, lo);
    }
  }

  lemma {:induction false} InsertByRankAscending<T>(x: T, s: seq<T>, rank: T -> int)
    requires Ascending(s, rank)
    ensures Ascending(InsertByRank(x, s, rank), rank)
  {
    if s != [] && rank(s[0]) < rank(x) {
      var tail := s[1..];
      var rest := InsertByRank(x, tail, rank);
      InsertByRankAscending(x, tail, rank);
      InsertByRankFloor(x, tail, rank, rank(s[0]));
      var r := [s[0]] + rest;
      forall i, j | 0 <= i < j < |r| ensures rank(r[i]) <= rank(r[j]) {
        assert r[j] == rest[j - 1];
        if i > 0 {
          assert r[i] == rest[i - 1];
        }
      }
    }
  }

  /** Stable insertion sort by rank. */
  function SortByRank<T>(s: seq<T>, rank: T -> int): (r: seq<T>)
    ensures |r| == |s|
  {
    if s == [] then [] else InsertByRank(s[0], SortByRank(s[1..], rank), rank)
  }

  lemma {:induction false} SortByRankCorrect<T>(s: seq<T>, rank: T -> int)
    ensures multiset(SortByRank(s, rank)) == multiset(s)
    ensures Ascending(SortByRank(s, rank), rank)
  {
    if s != [] {
      var rest := SortByRank(s[1..], rank);
      SortByRankCorrect(s[1..], rank);
      InsertByRankPermutes(s[0], rest, rank);
      InsertByRankAscending(s[0], rest, rank);
      assert s == [s[0]] + s[1..];
    }
  }

  /** ORDER BY key ASC / DESC. */
  function SortBy<T>(s: seq<T>, key: T -> int, o: Order): (r: seq<T>)
    ensures |r| == |s|
  {
    SortByRank(s, Rank(key, o))
  }

  /** ORDER BY returns the same rows, ordered by key in the requested direction. */
  lemma SortByCorrect<T>(s: seq<T>, key: T -> int, o: Order)
    ensures multiset(SortBy(s, key, o)) == multiset(s)
    ensures SortedBy(SortBy(s, key, o), key, o)
  {
    SortByRankCorrect(s, Rank(key, o));
  }

  /** What ORDER BY returns: exactly the rows given, each as often as given
      (spelled out as membership). */
  lemma SortByMembers<T>(s: seq<T>, key: T -> int, o: Order, x: T)
    ensures x in SortBy(s, key, o) <==> x in s
  {
    SortByCorrect(s, key, o);
    assert x in SortBy(s, key, o) <==> x in multiset(SortBy(s, key, o));
  }

  /** LIMIT n. */
  function Limit<T>(s: seq<T>, n: nat): (r: seq<T>)
    ensures |r| == if |s| < n then |s| else n
    ensures r <= s
  {
    if |s| < n then s else s[..n]
  }

  function Reverse<T>(s: seq<T>): (r: seq<T>)
    ensures |r| == |s|
    ensures forall i :: 0 <= i < |s| ==> r[i] == s[|s| - 1 - i]
  {
    if s == [] then [] else Reverse(s[1..]) + [s[0]]
  }

  predicate StrictlyIncreasing<T>(s: seq<T>, key: T -> int) {
    forall i, j :: 0 <= i < j < |s| ==> key(s[i]) < key(s[j])
  }

  /** An element ranked above everything already sorted goes last. */
  lemma {:induction false} InsertLast<T>(x: T, s: seq<T>, rank: T -> int)
    requires forall i :: 0 <= i < |s| ==> rank(s[i]) < rank(x)
    ensures InsertByRank(x, s, rank) == s + [x]
  {
    if s != [] {
      InsertLast(x, s[1..], rank);
      assert s == [s[0]] + s[1..];
    }
  }

  /** An element ranked at or below everything already sorted goes first. */
  lemma InsertFirst<T>(x: T, s: seq<T>, rank: T -> int)
    requires s != [] ==> rank(x) <= rank(s[0])
    ensures InsertByRank(x, s, rank) == [x] + s
  {
  }

  lemma {:induction false} SortIncreasingRanks<T>(s: seq<T>, rank: T -> int)
    requires forall i, j :: 0 <= i < j < |s| ==> rank(s[i]) < rank(s[j])
    ensures SortByRank(s, rank) == s
  {
    if s != [] {
      SortIncreasingRanks(s[1..], rank);
      InsertFirst(s[0], s[1..], rank);
      assert s == [s[0]] + s[1..];
    }
  }

  lemma {:induction false} SortDecreasingRanks<T>(s: seq<T>, rank: T -> int)
    requires forall i, j :: 0 <= i < j < |s| ==> rank(s[i]) > rank(s[j])
    ensures SortByRank(s, rank) == Reverse(s)
  {
    if s != [] {
      var tail := s[1..];
      SortDecreasingRanks(tail, rank);
      var down := Reverse(tail);
      forall i | 0 <= i < |down| ensures rank(down[i]) < rank(s[0]) {
        assert down[i] == s[|tail| - i];
      }
      InsertLast(s[0], down, rank);
    }
  }

  /** Rows inserted at strictly increasing times come back in insertion order
      under ASC and in reverse insertion order under DESC. */
  lemma SortStrictlyIncreasing<T>(s: seq<T>, key: T -> int)
    requires StrictlyIncreasing(s, key)
    ensures SortBy(s, key, Asc) == s
    ensures SortBy(s, key, Desc) == Reverse(s)
  {
    SortIncreasingRanks(s, Rank(key, Asc));
    var down := Rank(key, Desc);
    forall i, j | 0 <= i < j < |s| ensures down(s[i]) > down(s[j]) {
      assert key(s[i]) < key(s[j]);
    }
    SortDecreasingRanks(s, down);
  }
}

/**
 * SQL `ORDER BY a, b` and JavaScript's `sort()` over the values the routes and
 * pages order. Each ordered entity is given a rank (the two sort columns, with a
 * descending column negated); rows are then arranged by the lexicographic order
 * on ranks. Rows with equal ranks may come in any order, as in SQL.
 */
module Ordering {

  datatype Rank = Rank(major: real, minor: real)

  /** Lexicographic order on ranks: by `major`, then by `minor`. */
  predicate RankLe(a: Rank, b: Rank)
  {
    a.major < b.major || (a.major == b.major && a.minor <= b.minor)
  }

  predicate SortedBy<T>(s: seq<T>, rank: T -> Rank)
  {
    forall i, j | 0 <= i < j < |s| :: RankLe(rank(s[i]), rank(s[j]))
  }

  predicate RanksBelowAll<T>(x: T, s: seq<T>, rank: T -> Rank)
  {
    forall i | 0 <= i < |s| :: RankLe(rank(x), rank(s[i]))
  }

  /** A row ranking no higher than every row of a sorted sequence may lead it. */
  lemma PrependSorted<T>(x: T, s: seq<T>, rank: T -> Rank)
    requires SortedBy(s, rank) && RanksBelowAll(x, s, rank)
    ensures SortedBy([x] + s, rank)
  {
    var r := [x] + s;
    forall i, j | 0 <= i < j < |r|
      ensures RankLe(rank(r[i]), rank(r[j]))
    {
      if i > 0 {
        assert r[i] == s[i - 1] && r[j] == s[j - 1];
      } else {
        assert r[j] == s[j - 1];
      }
    }
  }

  /** Puts `x` before the first element it does not rank after. */
  function Insert<T>(x: T, s: seq<T>, rank: T -> Rank): (r: seq<T>)
    requires SortedBy(s, rank)
    ensures SortedBy(r, rank)
    ensures multiset(r) == multiset(s) + multiset{x}
  {
    if s == [] || RankLe(rank(x), rank(s[0])) then
      assert RanksBelowAll(x, s, rank) by {
        forall i | 0 <= i < |s| ensures RankLe(rank(x), rank(s[i])) {
          assert i == 0 || RankLe(rank(s[0]), rank(s[i]));
        }
      }
      PrependSorted(x, s, rank);
      [x] + s
    else
      var tail := Insert(x, s[1..], rank);
      assert s == [s[0]] + s[1..];
      assert RanksBelowAll(s[0], tail, rank) by {
        forall i | 0 <= i < |tail| ensures RankLe(rank(s[0]), rank(tail[i])) {
          assert tail[i] in multiset(tail);
        }
      }
      PrependSorted(s[0], tail, rank);
      [s[0]] + tail
  }

  /** The rows of `s` arranged by rank. */
  function Sort<T>(s: seq<T>, rank: T -> Rank): (r: seq<T>)
    ensures SortedBy(r, rank)
    ensures multiset(r) == multiset(s)
  {
    if s == [] then []
    else
      assert s == [s[0]] + s[1..];
      Insert(s[0], Sort(s[1..], rank), rank)
  }
}

/** The search box of the home page (bookit-frontend/src/pages/HomePage.tsx). */
module HomePage {
  import opened Text
  import opened Catalog

  /** The experience mentions `query` (already lower-cased) in its title, location, category or description. */
  predicate Mentions(e: Experience, query: string)
  {
    || Contains(ToLower(e.title), query)
    || Contains(ToLower(e.location), query)
    || Contains(ToLower(e.category), query)
    || Contains(ToLower(e.description), query)
  }

  /** `a` is `b` with some elements left out, the rest kept in order. */
  predicate Subsequence<T(==)>(a: seq<T>, b: seq<T>)
    decreases |b|
  {
    if a == [] then true
    else if b == [] then false
    else (a[0] == b[0] && Subsequence(a[1..], b[1..])) || Subsequence(a, b[1..])
  }

  lemma {:induction false} SubsequenceOfItself<T>(s: seq<T>)
    ensures Subsequence(s, s)
  {
    if s != [] {
      SubsequenceOfItself(s[1..]);
    }
  }

  /** `experiences.filter(...)`: the experiences that mention the query, in their order. */
  function FilterMentions(experiences: seq<Experience>, query: string): (r: seq<Experience>)
    ensures forall e :: e in r <==> e in experiences && Mentions(e, query)
    ensures forall e :: multiset(r)[e] == if Mentions(e, query) then multiset(experiences)[e] else 0
    ensures Subsequence(r, experiences)
  {
    if experiences == [] then []
    else
      var rest := FilterMentions(experiences[1..], query);
      assert forall e :: e in experiences <==> e == experiences[0] || e in experiences[1..];
      assert experiences == [experiences[0]] + experiences[1..];
      if Mentions(experiences[0], query) then
        assert ([experiences[0]] + rest)[1..] == rest;
        [experiences[0]] + rest
      else
        assert rest != [] ==> Subsequence(rest, experiences[1..]);
        rest
  }

  /**
   * `handleSearch`: a blank query shows every experience; otherwise exactly the
   * experiences that mention the lower-cased query (which is not trimmed), in
   * their order.
   */
  function Search(experiences: seq<Experience>, query: string): (r: seq<Experience>)
    ensures Trim(query) == [] ==> r == experiences
    ensures Trim(query) != [] ==> forall e :: e in r <==> e in experiences && Mentions(e, ToLower(query))
    ensures Trim(query) != [] ==>
      forall e :: multiset(r)[e] == if Mentions(e, ToLower(query)) then multiset(experiences)[e] else 0
    ensures Subsequence(r, experiences)
  {
    if Trim(query) == [] then
      SubsequenceOfItself(experiences);
      experiences
    else
      FilterMentions(experiences, ToLower(query))
  }

  /** Queries that differ only in letter case find the same experiences. */
  lemma SearchIgnoresCase(experiences: seq<Experience>, a: string, b: string)
    requires SameIgnoringCase(a, b)
    ensures Search(experiences, a) == Search(experiences, b)
  {
    SameIgnoringCaseAgree(a, b);
    BlankIgnoresCase(a);
    BlankIgnoresCase(b);
  }
}

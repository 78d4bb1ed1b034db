/**
 * The field rules that the checkout form (bookit-frontend/src/pages/CheckoutPages.tsx)
 * and the contact form (bookit-frontend/src/pages/ContactPage.tsx) both apply.
 */
module Forms {
  import opened Text

  /**
   * A field filled with at least `n` characters, counting any surrounding
   * whitespace, of which at least one is not whitespace.
   */
  predicate FilledAtLeast(s: string, n: nat)
  {
    !AllWhitespace(s) && |s| >= n
  }

  /** The rule is the page's `s.trim() && s.length >= n`: not blank after trimming, and long enough before it. */
  lemma FilledAtLeastMeaning(s: string, n: nat)
    ensures FilledAtLeast(s, n) <==> Trim(s) != [] && |s| >= n
  {
    BlankIffAllWhitespace(s);
  }

  /** The length is taken before trimming, so a one-letter name after a space passes the two-character rule. */
  lemma PaddedNamePasses()
    ensures FilledAtLeast(" a", 2) && |Trim(" a")| < 2
  {
    assert !IsWhitespace(" a"[1]);
    assert " a"[1..] == "a";
    assert TrimStart(" a") == TrimStart("a") == "a";
    assert TrimEnd("a") == "a";
  }

  /** `s.trim() && emailRegex.test(s)`: not all whitespace, and matched by the e-mail pattern. */
  predicate ValidEmail(s: string)
  {
    !AllWhitespace(s) && MatchesEmailPattern(s)
  }

  /**
   * The blank check adds nothing to the pattern: a valid address is exactly a
   * string with no whitespace, one '@' after a non-empty part, and an inner '.'
   * after the '@'.
   */
  lemma ValidEmailShape(s: string)
    ensures ValidEmail(s) <==> EmailShape(s)
  {
    EmailPatternShape(s);
    BlankIffAllWhitespace(s);
    if MatchesEmailPattern(s) {
      var at, dot :| 0 <= at < dot < |s| && EmailSplit(s, at, dot);
      assert s[..at][0] == s[0];
    }
  }

  /** Lower-casing keeps a run of `[^\s@]` characters a run of them. */
  lemma LowerKeepsRun(u: string)
    requires PatternRun(u)
    ensures PatternRun(ToLower(u))
  {
    MapCaseChars(u, Lower);
    forall i | 0 <= i < |u|
      ensures PatternChar(ToLower(u)[i])
    {
      CaseKeepsWhitespace(u[i]);
    }
  }

  /** A string whose first and last characters are not whitespace is its own trimmed form. */
  lemma TrimmedWhenEndsSolid(s: string)
    requires s != [] && !IsWhitespace(s[0]) && !IsWhitespace(s[|s| - 1])
    ensures Trim(s) == s
  {
  }

  /** Lower-casing keeps a split of the e-mail pattern a split. */
  lemma LowerKeepsSplit(s: string, at: int, dot: int)
    requires EmailSplit(s, at, dot)
    ensures EmailSplit(ToLower(s), at, dot)
  {
    var t := ToLower(s);
    MapCaseChars(s, Lower);
    MapCaseChars(s[..at], Lower);
    MapCaseChars(s[at + 1..dot], Lower);
    MapCaseChars(s[dot + 1..], Lower);
    assert t[at] == LowerChar(s[at]) && t[dot] == LowerChar(s[dot]);
    assert t[..at] == ToLower(s[..at]);
    assert t[at + 1..dot] == ToLower(s[at + 1..dot]);
    assert t[dot + 1..] == ToLower(s[dot + 1..]);
    LowerKeepsRun(s[..at]);
    LowerKeepsRun(s[at + 1..dot]);
    LowerKeepsRun(s[dot + 1..]);
  }

  /**
   * A valid address has no surrounding whitespace, and lower-casing it (as the
   * checkout page does before sending it) leaves it valid.
   */
  lemma NormalizedEmailValid(s: string)
    requires ValidEmail(s)
    ensures Trim(s) == s
    ensures ValidEmail(ToLower(s))
  {
    var at, dot :| 0 <= at < dot < |s| && EmailSplit(s, at, dot);
    assert s[..at][0] == s[0];
    assert s[dot + 1..][|s| - dot - 2] == s[|s| - 1];
    TrimmedWhenEndsSolid(s);
    var t := ToLower(s);
    LowerKeepsSplit(s, at, dot);
    MapCaseChars(s, Lower);
    assert t[..at][0] == t[0];
    assert t[dot + 1..][|s| - dot - 2] == t[|s| - 1];
    TrimmedWhenEndsSolid(t);
  }

  /**
   * `if (errors[name]) errors[name] = ''`: typing in a field empties its error
   * message, if it had a non-empty one, and leaves every other message alone.
   */
  function ClearError<K>(errors: map<K, string>, field: K): (r: map<K, string>)
    ensures r.Keys == errors.Keys
    ensures field in r ==> r[field] == ""
    ensures forall k | k in errors && k != field :: r[k] == errors[k]
  {
    if field in errors && errors[field] != "" then errors[field := ""] else errors
  }
}

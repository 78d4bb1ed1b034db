/**
 * The string operations the pages and routes rely on: `trim`, `toLowerCase`,
 * `toUpperCase`, `includes` and the e-mail regular expression
 * `^[^\s@]+@[^\s@]+\.[^\s@]+$`, over ASCII whitespace and ASCII letters.
 */
module Text {

  /** The whitespace `trim` removes and `\s` matches (ASCII part). */
  predicate IsWhitespace(c: char)
  {
    c == ' ' || c == '\t' || c == '\n' || c == '\r' || c == '\U{000B}' || c == '\U{000C}'
  }

  predicate AllWhitespace(s: string)
  {
    forall i | 0 <= i < |s| :: IsWhitespace(s[i])
  }

  /** Drops leading whitespace: the result is the longest suffix not starting with whitespace. */
  function TrimStart(s: string): (r: string)
    ensures |r| <= |s| && r == s[|s| - |r|..]
    ensures r == [] || !IsWhitespace(r[0])
    ensures AllWhitespace(s[..|s| - |r|])
  {
    if s != [] && IsWhitespace(s[0]) then TrimStart(s[1..]) else s
  }

  /** Drops trailing whitespace: the result is the longest prefix not ending in whitespace. */
  function TrimEnd(s: string): (r: string)
    ensures |r| <= |s| && r == s[..|r|]
    ensures r == [] || !IsWhitespace(r[|r| - 1])
    ensures AllWhitespace(s[|r|..])
  {
    if s != [] && IsWhitespace(s[|s| - 1]) then TrimEnd(s[..|s| - 1]) else s
  }

  function Trim(s: string): string
  {
    TrimEnd(TrimStart(s))
  }

  /** `!s.trim()`: a string is blank exactly when every character is whitespace. */
  lemma BlankIffAllWhitespace(s: string)
    ensures Trim(s) == [] <==> AllWhitespace(s)
  {
    var t := TrimStart(s);
    if Trim(s) == [] {
      assert AllWhitespace(t[0..]);
      assert t == [];
      assert s[..|s|] == s;
    } else {
      assert t[0] == s[|s| - |t|];
    }
  }

  /** Trimming leaves a string with no whitespace at either end, and trimming again changes nothing. */
  lemma TrimIdempotent(s: string)
    ensures Trim(Trim(s)) == Trim(s)
    ensures Trim(s) == [] || (!IsWhitespace(Trim(s)[0]) && !IsWhitespace(Trim(s)[|Trim(s)| - 1]))
  {
    var t := Trim(s);
    var u := TrimStart(s);
    if t != [] {
      assert t[0] == u[0];
      assert TrimStart(t) == t;
      assert TrimEnd(t) == t;
    }
  }

  function LowerChar(c: char): char
  {
    if 'A' <= c <= 'Z' then (c as int + 32) as char else c
  }

  function UpperChar(c: char): char
  {
    if 'a' <= c <= 'z' then (c as int - 32) as char else c
  }

  /** Which of the two case mappings to apply. */
  datatype Case = Lower | Upper

  function CaseChar(c: char, k: Case): char
  {
    match k
    case Lower => LowerChar(c)
    case Upper => UpperChar(c)
  }

  /** Applies a case mapping to every character of a string. */
  function MapCase(s: string, k: Case): (r: string)
    ensures |r| == |s|
  {
    if s == [] then [] else [CaseChar(s[0], k)] + MapCase(s[1..], k)
  }

  /** The case-mapped string holds, at every index, the mapped character. */
  lemma {:induction false} MapCaseChars(s: string, k: Case)
    ensures forall i | 0 <= i < |s| :: MapCase(s, k)[i] == CaseChar(s[i], k)
  {
    if s != [] {
      MapCaseChars(s[1..], k);
    }
  }

  function ToLower(s: string): string
  {
    MapCase(s, Lower)
  }

  function ToUpper(s: string): string
  {
    MapCase(s, Upper)
  }

  lemma {:induction false} TrimStartCommutes(s: string, k: Case)
    ensures TrimStart(MapCase(s, k)) == MapCase(TrimStart(s), k)
  {
    if s != [] {
      var m := MapCase(s, k);
      assert m == [CaseChar(s[0], k)] + MapCase(s[1..], k);
      assert m[1..] == MapCase(s[1..], k);
      CaseKeepsWhitespace(s[0]);
      assert IsWhitespace(m[0]) <==> IsWhitespace(s[0]);
      if IsWhitespace(s[0]) {
        assert TrimStart(m) == TrimStart(m[1..]);
        TrimStartCommutes(s[1..], k);
      } else {
        assert TrimStart(m) == m && TrimStart(s) == s;
      }
    }
  }

  lemma {:induction false} TrimEndCommutes(s: string, k: Case)
    ensures TrimEnd(MapCase(s, k)) == MapCase(TrimEnd(s), k)
  {
    if s != [] {
      MapCaseChars(s, k);
      CaseKeepsWhitespace(s[|s| - 1]);
      if IsWhitespace(s[|s| - 1]) {
        MapCaseInit(s, k);
        TrimEndCommutes(s[..|s| - 1], k);
      }
    }
  }

  /** Mapping all but the last character is taking all but the last mapped character. */
  lemma {:induction false} MapCaseInit(s: string, k: Case)
    requires s != []
    ensures MapCase(s, k)[..|s| - 1] == MapCase(s[..|s| - 1], k)
  {
    MapCaseChars(s, k);
    MapCaseChars(s[..|s| - 1], k);
  }

  /** Case mapping never turns whitespace into a letter or back. */
  lemma CaseKeepsWhitespace(c: char)
    ensures IsWhitespace(LowerChar(c)) <==> IsWhitespace(c)
    ensures IsWhitespace(UpperChar(c)) <==> IsWhitespace(c)
  {
  }

  /** A string is blank exactly when its lower- or upper-cased form is. */
  lemma BlankIgnoresCase(s: string)
    ensures Trim(ToLower(s)) == [] <==> Trim(s) == []
    ensures Trim(ToUpper(s)) == [] <==> Trim(s) == []
  {
    BlankIffAllWhitespace(s);
    BlankIffAllWhitespace(ToLower(s));
    BlankIffAllWhitespace(ToUpper(s));
    MapCaseChars(s, Lower);
    MapCaseChars(s, Upper);
    forall i | 0 <= i < |s|
      ensures IsWhitespace(ToLower(s)[i]) <==> IsWhitespace(s[i])
      ensures IsWhitespace(ToUpper(s)[i]) <==> IsWhitespace(s[i])
    {
      CaseKeepsWhitespace(s[i]);
    }
  }

  /** Upper-casing is idempotent: an upper-cased code is its own upper-cased form. */
  lemma UpperIdempotent(s: string)
    ensures ToUpper(ToUpper(s)) == ToUpper(s)
  {
    MapCaseChars(s, Upper);
    MapCaseChars(ToUpper(s), Upper);
    assert forall i | 0 <= i < |s| :: UpperChar(UpperChar(s[i])) == UpperChar(s[i]);
  }

  /** Lower-casing is idempotent. */
  lemma LowerIdempotent(s: string)
    ensures ToLower(ToLower(s)) == ToLower(s)
  {
    MapCaseChars(s, Lower);
    MapCaseChars(ToLower(s), Lower);
    assert forall i | 0 <= i < |s| :: LowerChar(LowerChar(s[i])) == LowerChar(s[i]);
  }

  /** Two strings "differ only in letter case" when they agree after upper-casing each character. */
  predicate SameIgnoringCase(a: string, b: string)
  {
    |a| == |b| && forall i | 0 <= i < |a| :: UpperChar(a[i]) == UpperChar(b[i])
  }

  /** Strings that differ only in letter case have the same upper- and lower-cased forms. */
  lemma SameIgnoringCaseAgree(a: string, b: string)
    requires SameIgnoringCase(a, b)
    ensures ToUpper(a) == ToUpper(b)
    ensures ToLower(a) == ToLower(b)
  {
    MapCaseChars(a, Lower);
    MapCaseChars(b, Lower);
    MapCaseChars(a, Upper);
    MapCaseChars(b, Upper);
    forall i | 0 <= i < |a| ensures LowerChar(a[i]) == LowerChar(b[i]) {
      assert UpperChar(a[i]) == UpperChar(b[i]);
    }
  }

  /** Trimming and case mapping commute, since case mapping keeps whitespace where it is. */
  lemma TrimCommutesWithCase(s: string)
    ensures Trim(ToUpper(s)) == ToUpper(Trim(s))
    ensures Trim(ToLower(s)) == ToLower(Trim(s))
  {
    TrimStartCommutes(s, Upper);
    TrimEndCommutes(TrimStart(s), Upper);
    TrimStartCommutes(s, Lower);
    TrimEndCommutes(TrimStart(s), Lower);
  }

  predicate OccursAt(s: string, sub: string, i: int)
  {
    0 <= i && i + |sub| <= |s| && s[i..i + |sub|] == sub
  }

  /** JavaScript's `s.includes(sub)`. */
  predicate Contains(s: string, sub: string)
  {
    exists i | 0 <= i <= |s| - |sub| :: OccursAt(s, sub, i)
  }

  /** `[^\s@]`: a character that is neither whitespace nor '@'. */
  predicate PatternChar(c: char)
  {
    !IsWhitespace(c) && c != '@'
  }

  /** `[^\s@]+` matching all of `s`. */
  predicate PatternRun(s: string)
  {
    |s| > 0 && forall i | 0 <= i < |s| :: PatternChar(s[i])
  }

  /** `s` reads local-part, '@' at index `at`, domain, '.' at index `dot`, suffix, each part matching `[^\s@]+`. */
  predicate EmailSplit(s: string, at: int, dot: int)
  {
    && 0 <= at < dot < |s|
    && s[at] == '@' && s[dot] == '.'
    && PatternRun(s[..at]) && PatternRun(s[at + 1..dot]) && PatternRun(s[dot + 1..])
  }

  /** `/^[^\s@]+@[^\s@]+\.[^\s@]+$/.test(s)`: some choice of the '@' and the '.' splits `s` as the pattern demands. */
  predicate MatchesEmailPattern(s: string)
  {
    exists at, dot | 0 <= at < dot < |s| :: EmailSplit(s, at, dot)
  }

  /** The first index of `c` in `s`. */
  function IndexOf(s: string, c: char): (k: nat)
    requires c in s
    ensures k < |s| && s[k] == c && c !in s[..k]
  {
    if s[0] == c then 0 else assert s[1..][IndexOf(s[1..], c)] == c; 1 + IndexOf(s[1..], c)
  }

  /**
   * The shape the e-mail pattern accepts, said plainly: no whitespace, exactly one '@',
   * a non-empty part before it, and a '.' in the part after it that is neither that
   * part's first nor its last character.
   */
  predicate EmailShape(s: string)
  {
    && (forall i | 0 <= i < |s| :: !IsWhitespace(s[i]))
    && multiset(s)['@'] == 1
    && var at := IndexOf(s, '@');
       0 < at && at + 2 < |s| && '.' in s[at + 2..|s| - 1]
  }

  lemma TwoAts(s: string, i: int, j: int)
    requires 0 <= i < j < |s| && s[i] == '@'
    ensures s[j] == '@' ==> multiset(s)['@'] >= 2
  {
    if s[j] == '@' {
      assert s == s[..j] + s[j..];
      assert s[..j][i] == '@';
      assert s[j..][0] == '@';
      assert multiset(s) == multiset(s[..j]) + multiset(s[j..]);
    }
  }

  lemma PatternHasShape(s: string, at: int, dot: int)
    requires EmailSplit(s, at, dot)
    ensures EmailShape(s)
  {
    var a, b, c := s[..at], s[at + 1..dot], s[dot + 1..];
    assert s == a + [s[at]] + b + [s[dot]] + c;
    forall i | 0 <= i < |s| ensures !IsWhitespace(s[i]) {
      if i < at { assert s[i] == a[i]; }
      else if at < i < dot { assert s[i] == b[i - at - 1]; }
      else if dot < i { assert s[i] == c[i - dot - 1]; }
    }
    assert '@' !in a && '@' !in b && '@' !in c;
    assert multiset(s) == multiset(a) + multiset{'@'} + multiset(b) + multiset{'.'} + multiset(c);
    var k := IndexOf(s, '@');
    assert forall m | 0 <= m < at :: a[m] == s[m];
    assert forall m | 0 <= m < k :: s[..k][m] == s[m];
    assert s[at + 2..|s| - 1][dot - at - 2] == '.';
  }

  lemma ShapeHasPattern(s: string) returns (at: int, dot: int)
    requires EmailShape(s)
    ensures EmailSplit(s, at, dot)
  {
    at := IndexOf(s, '@');
    var t := s[at + 2..|s| - 1];
    var j :| 0 <= j < |t| && t[j] == '.';
    dot := at + 2 + j;
    assert s[dot] == '.';
    assert forall m | 0 <= m < at :: s[..at][m] == s[m];
    forall i | at < i < |s| ensures s[i] != '@' {
      TwoAts(s, at, i);
    }
    assert PatternRun(s[..at]);
    assert PatternRun(s[at + 1..dot]);
    assert PatternRun(s[dot + 1..]);
  }

  /** The e-mail pattern accepts exactly the strings of that shape. */
  lemma EmailPatternShape(s: string)
    ensures MatchesEmailPattern(s) <==> EmailShape(s)
  {
    if MatchesEmailPattern(s) {
      var at, dot :| 0 <= at < dot < |s| && EmailSplit(s, at, dot);
      PatternHasShape(s, at, dot);
    }
    if EmailShape(s) {
      var at, dot := ShapeHasPattern(s);
    }
  }
}

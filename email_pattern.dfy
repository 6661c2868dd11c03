/**
 * The e-mail shape test of the registration handler: Python's
 * `re.match(r'[^@]+@[^@]+\.[^@]+', email)`. `re.match` anchors the pattern at
 * the start of the string only, so the test asks whether SOME PREFIX of the
 * address has the shape `local@domain.tld`; whatever follows that prefix is
 * not looked at.
 */
module EmailPattern {
  import opened Text

  /** `s[lo..hi]` is a non-empty run of characters other than '@': `[^@]+`. */
  ghost predicate NoAtRun(s: string, lo: int, hi: int)
  {
    0 <= lo < hi <= |s| && '@' !in s[lo..hi]
  }

  /**
   * The pattern matches the prefix `s[..k]`, with its '@' at index `i` and the
   * '.' it requires at index `j`.
   */
  ghost predicate MatchAt(s: string, i: int, j: int, k: int)
  {
    && NoAtRun(s, 0, i) && i < |s| && s[i] == '@'
    && NoAtRun(s, i + 1, j) && j < |s| && s[j] == '.'
    && NoAtRun(s, j + 1, k)
  }

  /** What `re.match` decides: the pattern matches some prefix of `s`. */
  ghost predicate PatternMatches(s: string)
  {
    exists i, j, k :: MatchAt(s, i, j, k)
  }

  /**
   * With '@' at index `i`, a dot at index `j` can close the domain part: the
   * characters strictly between them are '@'-free, there is at least one, and
   * a character other than '@' follows the dot.
   */
  ghost predicate DomainDotAt(s: string, i: int, j: int)
  {
    NoAtRun(s, i + 1, j) && j + 1 < |s| && s[j] == '.' && s[j + 1] != '@'
  }

  /**
   * Scans candidate dot positions from `j` on, stopping at the first '@'
   * (which would end the domain part).
   */
  function DotFollows(s: string, j: nat): bool
    requires 1 <= j <= |s|
    decreases |s| - j
  {
    if j + 1 >= |s| then false
    else if s[j - 1] == '@' then false
    else if s[j] == '.' && s[j + 1] != '@' then true
    else DotFollows(s, j + 1)
  }

  /** The executable form of the shape test. */
  function IsValidEmail(s: string): bool
  {
    match FirstIndex(s, '@')
    case None => false
    case Some(i) => 0 < i && i + 2 <= |s| && DotFollows(s, i + 2)
  }

  /** The scan from `j` finds a closing dot exactly when one exists at or after `j`. */
  lemma {:induction false} DotFollowsIff(s: string, i: nat, j: nat)
    requires i < |s| && s[i] == '@'
    requires i + 2 <= j <= |s|
    requires '@' !in s[i + 1..j - 1]
    ensures DotFollows(s, j) <==> exists d :: j <= d && DomainDotAt(s, i, d)
    decreases |s| - j
  {
    if j + 1 >= |s| {
    } else if s[j - 1] == '@' {
    } else if s[j] == '.' && s[j + 1] != '@' {
      assert s[i + 1..j] == s[i + 1..j - 1] + [s[j - 1]];
      assert DomainDotAt(s, i, j);
    } else {
      assert s[i + 1..j] == s[i + 1..j - 1] + [s[j - 1]];
      DotFollowsIff(s, i, j + 1);
      if exists d :: j <= d && DomainDotAt(s, i, d) {
        var d :| j <= d && DomainDotAt(s, i, d);
        assert d != j;
        assert j + 1 <= d && DomainDotAt(s, i, d);
      }
    }
  }

  /** The executable test decides exactly the `re.match` question. */
  lemma IsValidEmailIffPatternMatches(s: string)
    ensures IsValidEmail(s) <==> PatternMatches(s)
  {
    match FirstIndex(s, '@')
    case None =>
    case Some(i) =>
      if 0 < i && i + 2 <= |s| {
        assert s[i + 1..i + 1] == [];
        DotFollowsIff(s, i, i + 2);
      }
      if IsValidEmail(s) {
        var d :| i + 2 <= d && DomainDotAt(s, i, d);
        assert s[..i] == s[0..i];
        assert MatchAt(s, i, d, d + 2);
      }
      if PatternMatches(s) {
        var i', j, k :| MatchAt(s, i', j, k);
        assert s[0..i'] == s[..i'];
        assert i' == i;
        assert DomainDotAt(s, i, j) by {
          assert s[j + 1..k][0] == s[j + 1];
        }
      }
  }

  /** Text after a matching prefix is never inspected. */
  lemma TrailingTextAccepted(s: string, t: string)
    requires IsValidEmail(s)
    ensures IsValidEmail(s + t)
  {
    IsValidEmailIffPatternMatches(s);
    var i, j, k :| MatchAt(s, i, j, k);
    var u := s + t;
    assert u[0..i] == s[0..i];
    assert u[i + 1..j] == s[i + 1..j];
    assert u[j + 1..k] == s[j + 1..k];
    assert MatchAt(u, i, j, k);
    IsValidEmailIffPatternMatches(u);
  }
}

/**
 * Capture-template expansion (`replace_captures`, identical in the user-agent,
 * OS and device matchers): for each group index i = 1, 2, ... below the
 * number of groups, every occurrence of the token "$i" in the running string
 * is replaced by the text of group i. The steps run in that order on the
 * string the previous step produced, so text inserted by one step is scanned
 * again by the later ones, and "$1" is rewritten before "$10" is looked for.
 */
module Templates {
  import opened Wrappers
  import opened Regexes

  // ---------------------------------------------------------------------------
  // Occurrences and Rust's `str::replace`

  /** `pat` occurs in `s` starting at position `k`. */
  predicate OccursAt(s: string, pat: string, k: nat) {
    k + |pat| <= |s| && s[k..k + |pat|] == pat
  }

  /** `pat` occurs somewhere in `s`. */
  predicate Occurs(s: string, pat: string) {
    exists k: nat :: k <= |s| && OccursAt(s, pat, k)
  }

  /**
   * Rust's `str::replace` for a non-empty pattern: scanning from the left,
   * every occurrence of `pat` that does not overlap an earlier replaced one is
   * replaced by `rep`; the replacement text itself is not rescanned. Replacing
   * a pattern by itself changes nothing.
   */
  function ReplaceAll(s: string, pat: string, rep: string): (r: string)
    requires pat != []
    ensures rep == pat ==> r == s
    decreases |s|
  {
    if s == [] then []
    else if |pat| <= |s| && s[..|pat|] == pat then
      assert s == s[..|pat|] + s[|pat|..];
      rep + ReplaceAll(s[|pat|..], pat, rep)
    else
      assert s == [s[0]] + s[1..];
      [s[0]] + ReplaceAll(s[1..], pat, rep)
  }

  /** An occurrence in the tail of a string is one position further on in the string. */
  lemma OccursAtTail(s: string, pat: string, k: nat)
    requires s != []
    ensures OccursAt(s[1..], pat, k) <==> OccursAt(s, pat, k + 1)
  {
    if k + |pat| <= |s[1..]| {
      assert s[1..][k..k + |pat|] == s[k + 1..k + 1 + |pat|];
    }
  }

  /** A string in which the pattern does not occur comes back unchanged. */
  lemma {:induction false} ReplaceAllAbsent(s: string, pat: string, rep: string)
    requires pat != []
    requires !Occurs(s, pat)
    ensures ReplaceAll(s, pat, rep) == s
  {
    if s != [] {
      assert !OccursAt(s, pat, 0);
      forall k: nat | k <= |s[1..]|
        ensures !OccursAt(s[1..], pat, k)
      {
        OccursAtTail(s, pat, k);
      }
      ReplaceAllAbsent(s[1..], pat, rep);
    }
  }

  /** Text without the pattern's first character is copied through unchanged. */
  lemma {:induction false} ReplaceAllCopiesPrefix(a: string, b: string, pat: string, rep: string)
    requires pat != []
    requires forall k :: 0 <= k < |a| ==> a[k] != pat[0]
    ensures ReplaceAll(a + b, pat, rep) == a + ReplaceAll(b, pat, rep)
  {
    if a != [] {
      var s := a + b;
      assert s[0] == a[0];
      assert s[1..] == a[1..] + b;
      ReplaceAllCopiesPrefix(a[1..], b, pat, rep);
      assert a == [a[0]] + a[1..];
    } else {
      assert a + b == b;
    }
  }

  /** A string that is exactly the pattern becomes exactly the replacement. */
  lemma ReplaceAllWhole(pat: string, rep: string)
    requires pat != []
    ensures ReplaceAll(pat, pat, rep) == rep
  {
    assert pat[..|pat|] == pat;
    assert pat[|pat|..] == [];
  }

  // ---------------------------------------------------------------------------
  // The token "$i": a dollar sign and the group index in decimal

  /** The decimal digit for `d`. */
  function Digit(d: nat): (c: char)
    requires d < 10
    ensures '0' <= c <= '9'
  {
    ('0' as int + d) as char
  }

  /** The decimal numeral of `n`, without sign or leading zeros. */
  function Decimal(n: nat): (s: string)
    ensures 1 <= |s|
    ensures n < 10 <==> |s| == 1
    ensures s[0] == '0' <==> n == 0
    ensures forall k :: 0 <= k < |s| ==> '0' <= s[k] <= '9'
  {
    if n < 10 then [Digit(n)] else Decimal(n / 10) + [Digit(n % 10)]
  }

  /** The number a string of decimal digits denotes. */
  function DecimalValue(s: string): nat
    requires forall k :: 0 <= k < |s| ==> '0' <= s[k] <= '9'
  {
    if s == [] then 0
    else DecimalValue(s[..|s| - 1]) * 10 + (s[|s| - 1] as int - '0' as int)
  }

  /** Reading back a formatted index gives the index. */
  lemma {:induction false} DecimalRoundTrip(n: nat)
    ensures DecimalValue(Decimal(n)) == n
  {
    if n >= 10 {
      DecimalRoundTrip(n / 10);
      var s := Decimal(n);
      assert s[..|s| - 1] == Decimal(n / 10);
    }
  }

  /** The placeholder for group `i`: a dollar sign followed by `i` in decimal. */
  function Token(i: nat): (t: string)
    ensures 2 <= |t| && t[0] == '$'
    ensures i < 10 ==> |t| == 2
  {
    "$" + Decimal(i)
  }

  /** Distinct group indices have distinct tokens. */
  lemma TokenInjective(i: nat, j: nat)
    ensures Token(i) == Token(j) <==> i == j
  {
    assert Token(i)[1..] == Decimal(i);
    assert Token(j)[1..] == Decimal(j);
    DecimalRoundTrip(i);
    DecimalRoundTrip(j);
  }

  /** The token of one single-digit index does not occur in that of another. */
  lemma SingleDigitTokensDistinct(i: nat, j: nat)
    requires i < 10 && j < 10 && i != j
    ensures !Occurs(Token(i), Token(j))
  {
    TokenInjective(i, j);
    forall k: nat | k <= |Token(i)|
      ensures !OccursAt(Token(i), Token(j), k)
    {
      if k == 0 {
        assert Token(i)[0..2] == Token(i);
      }
    }
  }

  /** A token begins with '$', so it never occurs in text without one. */
  lemma TokenNeedsDollar(t: string, i: nat)
    requires forall k :: 0 <= k < |t| ==> t[k] != '$'
    ensures !Occurs(t, Token(i))
  {
  }

  // ---------------------------------------------------------------------------
  // The expansion fold

  /** Steps `i`, `i + 1`, ... of the fold, applied to the running string `t`. */
  function ExpandFrom(t: string, caps: Captures, i: nat): string
    decreases |caps| - i
  {
    if i >= |caps| then t
    else ExpandFrom(ReplaceAll(t, Token(i), GroupText(caps, i)), caps, i + 1)
  }

  /** The whole fold over the groups 1 .. |caps| - 1. */
  function Expand(template: string, caps: Captures): (r: string)
    ensures |caps| == 1 ==> r == template
  {
    ExpandFrom(template, caps, 1)
  }

  /** `replace_captures`: the running string is rewritten once per group index. */
  method ReplaceCaptures(template: string, caps: Captures) returns (result: string)
    ensures result == Expand(template, caps)
  {
    result := template;
    var i := 1;
    while i < |caps|
      invariant 1 <= i <= |caps|
      invariant ExpandFrom(result, caps, i) == Expand(template, caps)
    {
      result := ReplaceAll(result, Token(i), GroupText(caps, i));
      i := i + 1;
    }
  }

  /** With a single group, expansion is one `str::replace` of "$1". */
  lemma ExpandOneGroup(t: string, caps: Captures)
    requires |caps| == 2
    ensures Expand(t, caps) == ReplaceAll(t, "$1", GroupText(caps, 1))
  {
    assert Token(1) == "$1";
    var once := ReplaceAll(t, Token(1), GroupText(caps, 1));
    assert ExpandFrom(once, caps, 2) == once;
  }

  /**
   * With a single group, a literal prefix followed by "$1" expands to the
   * prefix followed by the group's text.
   */
  lemma ExpandPrefixThenGroup(prefix: string, caps: Captures)
    requires |caps| == 2
    requires forall k :: 0 <= k < |prefix| ==> prefix[k] != '$'
    ensures Expand(prefix + "$1", caps) == prefix + GroupText(caps, 1)
  {
    ExpandOneGroup(prefix + "$1", caps);
    ReplaceAllCopiesPrefix(prefix, "$1", "$1", GroupText(caps, 1));
    ReplaceAllWhole("$1", GroupText(caps, 1));
  }

  /** Steps whose token does not occur in the running string leave it as it is. */
  lemma {:induction false} ExpandFromSkip(t: string, caps: Captures, lo: nat, hi: nat)
    requires lo <= hi <= |caps|
    requires forall j :: lo <= j < hi ==> !Occurs(t, Token(j))
    ensures ExpandFrom(t, caps, lo) == ExpandFrom(t, caps, hi)
    decreases hi - lo
  {
    if lo < hi {
      ReplaceAllAbsent(t, Token(lo), GroupText(caps, lo));
      ExpandFromSkip(t, caps, lo + 1, hi);
    }
  }

  /**
   * A template holding no token "$i" for any group index 1 <= i < |caps| is
   * returned unchanged; tokens naming a group the match does not have are
   * left in place.
   */
  lemma ExpandWithoutTokens(template: string, caps: Captures)
    requires forall i :: 1 <= i < |caps| ==> !Occurs(template, Token(i))
    ensures Expand(template, caps) == template
  {
    ExpandFromSkip(template, caps, 1, |caps|);
  }

  /** A literal template, one with no '$' at all, ignores the captures. */
  lemma ExpandLiteral(template: string, caps: Captures)
    requires forall k :: 0 <= k < |template| ==> template[k] != '$'
    ensures Expand(template, caps) == template
  {
    forall i | 1 <= i < |caps|
      ensures !Occurs(template, Token(i))
    {
      TokenNeedsDollar(template, i);
    }
    ExpandWithoutTokens(template, caps);
  }

  /**
   * The template "$i" for a single-digit i names group i: it expands to that
   * group's text ("" when the group did not participate), provided the text
   * holds no token of a later group, which the later steps would rewrite.
   */
  lemma ExpandSingleToken(i: nat, caps: Captures)
    requires 1 <= i < 10 && i < |caps|
    requires forall j :: i < j < |caps| ==> !Occurs(GroupText(caps, i), Token(j))
    ensures Expand(Token(i), caps) == GroupText(caps, i)
  {
    forall j | 1 <= j < i
      ensures !Occurs(Token(i), Token(j))
    {
      SingleDigitTokensDistinct(i, j);
    }
    ExpandFromSkip(Token(i), caps, 1, i);
    ReplaceAllWhole(Token(i), GroupText(caps, i));
    ExpandFromSkip(GroupText(caps, i), caps, i + 1, |caps|);
  }

  /** A group that did not participate contributes the empty string. */
  lemma ExpandAbsentGroup(i: nat, caps: Captures)
    requires 1 <= i < 10 && i < |caps| && caps[i].None?
    ensures Expand(Token(i), caps) == ""
  {
    forall j | i < j < |caps|
      ensures !Occurs(GroupText(caps, i), Token(j))
    {
    }
    ExpandSingleToken(i, caps);
  }

  /**
   * Expansion sees a group only through its text: two matches with the same
   * number of groups and the same text for each group (a group that did not
   * participate reads as "") expand every template alike.
   */
  lemma {:induction false} ExpandFromSameText(t: string, c1: Captures, c2: Captures, i: nat)
    requires 1 <= i && |c1| == |c2|
    requires forall j :: 1 <= j < |c1| ==> GroupText(c1, j) == GroupText(c2, j)
    ensures ExpandFrom(t, c1, i) == ExpandFrom(t, c2, i)
    decreases |c1| - i
  {
    if i < |c1| {
      ExpandFromSameText(ReplaceAll(t, Token(i), GroupText(c1, i)), c1, c2, i + 1);
    }
  }

  /** An empty capture and a non-participating group expand alike. */
  lemma ExpandEmptyIsAbsent(t: string, caps: Captures, i: nat)
    requires 1 <= i < |caps|
    ensures Expand(t, caps[i := None]) == Expand(t, caps[i := Some("")])
  {
    ExpandFromSameText(t, caps[i := None], caps[i := Some("")], 1);
  }

  // ---------------------------------------------------------------------------
  // Worked cases

  /** A string that starts with the pattern has its first occurrence at the front. */
  lemma ReplaceAllLeading(pat: string, rest: string, rep: string)
    requires pat != []
    ensures ReplaceAll(pat + rest, pat, rep) == rep + ReplaceAll(rest, pat, rep)
  {
    assert (pat + rest)[..|pat|] == pat;
    assert (pat + rest)[|pat|..] == rest;
  }

  /**
   * Two groups substituted into "$1", a separator and "$2" (the shape of
   * version templates such as "$1.$2"), when neither the separator nor
   * group 1's text holds a '$'.
   */
  lemma ExpandTwoGroups(sep: string, caps: Captures)
    requires |caps| == 3
    requires forall k :: 0 <= k < |sep| ==> sep[k] != '$'
    requires forall k :: 0 <= k < |GroupText(caps, 1)| ==> GroupText(caps, 1)[k] != '$'
    ensures Expand("$1" + sep + "$2", caps) == GroupText(caps, 1) + sep + GroupText(caps, 2)
  {
    var a, b := GroupText(caps, 1), GroupText(caps, 2);
    assert Token(1) == "$1";
    assert Token(2) == "$2" by {
      assert Digit(2) == '2';
    }
    var once := ReplaceAll("$1" + sep + "$2", "$1", a);
    assert once == a + sep + "$2" by {
      assert "$1" + sep + "$2" == "$1" + (sep + "$2");
      ReplaceAllLeading("$1", sep + "$2", a);
      ReplaceAllCopiesPrefix(sep, "$2", "$1", a);
      SingleDigitTokensDistinct(2, 1);
      ReplaceAllAbsent("$2", "$1", a);
    }
    var twice := ReplaceAll(once, "$2", b);
    assert twice == a + sep + b by {
      assert forall k :: 0 <= k < |a + sep| ==> (a + sep)[k] != '$';
      ReplaceAllCopiesPrefix(a + sep, "$2", "$2", b);
      ReplaceAllWhole("$2", b);
    }
    calc {
      Expand("$1" + sep + "$2", caps);
      ExpandFrom(once, caps, 2);
      ExpandFrom(twice, caps, 3);
      twice;
    }
  }

  /**
   * Captured text is not inserted verbatim: a "$2" captured by group 1 is
   * rewritten by the later step for group 2.
   */
  lemma ExpandRescansCapturedText()
    ensures Expand("$1", [Some("x"), Some("$2"), Some("y")]) == "y"
  {
    assert Digit(2) == '2';
    assert Token(1) == "$1" && Token(2) == "$2";
    assert ReplaceAll("$1", "$1", "$2") == "$2";
    assert ReplaceAll("$2", "$2", "y") == "y";
  }

  /**
   * With eleven or more groups, the token "$10" is consumed by the step for
   * group 1, which runs first and sees "$1" followed by the character '0'.
   */
  lemma ExpandTenShadowedByOne(caps: Captures)
    requires |caps| == 11 && caps[1] == Some("a") && caps[10] == Some("b")
    requires forall j :: 2 <= j < 10 ==> caps[j].None?
    ensures Expand("$10", caps) == "a0"
  {
    assert Token(1) == "$1";
    assert ReplaceAll("$10", "$1", "a") == "a0";
    forall j | 2 <= j < 11
      ensures !Occurs("a0", Token(j))
    {
      TokenNeedsDollar("a0", j);
    }
    ExpandFromSkip("a0", caps, 2, 11);
  }
}

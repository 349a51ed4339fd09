/** The operating-system family: its record, its rule and how a rule matches. */
module Oses {
  import opened Wrappers
  import opened Regexes
  import opened Templates
  import opened Fields

  datatype Os = Os(
    family: string,
    major: Option<string>,
    minor: Option<string>,
    patch: Option<string>,
    patchMinor: Option<string>)

  /** The record for an unrecognised operating system. */
  function Default(): (u: Os)
    ensures u.family == "Other"
    ensures u.major.None? && u.minor.None? && u.patch.None? && u.patchMinor.None?
  {
    Os("Other", None, None, None, None)
  }

  /** A compiled rule: the pattern and one optional template per field. */
  datatype OsMatcher = OsMatcher(
    regex: Regex,
    familyReplacement: Option<string>,
    v1Replacement: Option<string>,
    v2Replacement: Option<string>,
    v3Replacement: Option<string>,
    v4Replacement: Option<string>)

  /**
   * The rule applied to `text`: absent exactly when the pattern does not
   * match; otherwise family from group 1 and major, minor, patch and
   * patch_minor from groups 2 to 5, each replaced by its template when the
   * rule has one.
   */
  function Match(m: OsMatcher, text: string): (r: Option<Os>)
    ensures r.Some? <==> m.regex.captures(text).Some?
  {
    match m.regex.captures(text)
    case None => None
    case Some(caps) =>
      Some(Os(
        RequiredField(m.familyReplacement, caps, 1),
        OptionalField(m.v1Replacement, caps, 2),
        OptionalField(m.v2Replacement, caps, 3),
        OptionalField(m.v3Replacement, caps, 4),
        OptionalField(m.v4Replacement, caps, 5)))
  }

  /** `parse`: fills a default record field by field once the pattern matched. */
  method Parse(m: OsMatcher, text: string) returns (r: Option<Os>)
    ensures r == Match(m, text)
  {
    var found := m.regex.captures(text);
    if found.None? {
      return None;
    }
    var caps := found.value;
    var os := Default();
    var family := ExtractRequired(m.familyReplacement, caps, 1);
    os := os.(family := family);
    var major := ExtractOptional(m.v1Replacement, caps, 2);
    os := os.(major := major);
    var minor := ExtractOptional(m.v2Replacement, caps, 3);
    os := os.(minor := minor);
    var patch := ExtractOptional(m.v3Replacement, caps, 4);
    os := os.(patch := patch);
    var patchMinor := ExtractOptional(m.v4Replacement, caps, 5);
    os := os.(patchMinor := patchMinor);
    return Some(os);
  }

  /**
   * A rule without templates copies the groups: family is group 1's text
   * ("" when it did not participate) and each version is group 2 to 5 when
   * that group captured something, and absent otherwise.
   */
  lemma MatchWithoutTemplates(m: OsMatcher, text: string, caps: Captures)
    requires m.familyReplacement.None? && m.v1Replacement.None? && m.v2Replacement.None?
    requires m.v3Replacement.None? && m.v4Replacement.None?
    requires m.regex.captures(text) == Some(caps)
    ensures Match(m, text).Some?
    ensures Match(m, text).value.family == GroupText(caps, 1)
    ensures var u := Match(m, text).value;
      CopiesGroup(u.major, caps, 2) && CopiesGroup(u.minor, caps, 3)
      && CopiesGroup(u.patch, caps, 4) && CopiesGroup(u.patchMinor, caps, 5)
  {
  }

  /**
   * A rule with all four version templates always reports all four versions,
   * even when a template expands to "".
   */
  lemma TemplatedVersionsPresent(m: OsMatcher, text: string)
    requires m.v1Replacement.Some? && m.v2Replacement.Some?
    requires m.v3Replacement.Some? && m.v4Replacement.Some?
    requires m.regex.captures(text).Some?
    ensures var u := Match(m, text).value;
      u.major.Some? && u.minor.Some? && u.patch.Some? && u.patchMinor.Some?
  {
  }

  /**
   * Whatever the rule's templates, a group that captured "" and a group that
   * did not participate produce the same record.
   */
  lemma EmptyCaptureIsAbsent(m1: OsMatcher, m2: OsMatcher, text: string, caps: Captures, j: nat)
    requires 1 <= j < |caps|
    requires m1.(regex := m2.regex) == m2
    requires m1.regex.captures(text) == Some(caps[j := None])
    requires m2.regex.captures(text) == Some(caps[j := Some("")])
    ensures Match(m1, text) == Match(m2, text)
  {
    RequiredEmptyIsAbsent(m1.familyReplacement, caps, 1, j);
    OptionalEmptyIsAbsent(m1.v1Replacement, caps, 2, j);
    OptionalEmptyIsAbsent(m1.v2Replacement, caps, 3, j);
    OptionalEmptyIsAbsent(m1.v3Replacement, caps, 4, j);
    OptionalEmptyIsAbsent(m1.v4Replacement, caps, 5, j);
  }

  /**
   * A worked case: a rule with four groups and no templates, matched in an
   * Android 4.0.1 user-agent string; there is no fifth group, so patch_minor
   * is absent.
   */
  lemma AndroidScenario(m: OsMatcher, text: string)
    requires m.familyReplacement.None? && m.v1Replacement.None? && m.v2Replacement.None?
    requires m.v3Replacement.None? && m.v4Replacement.None?
    requires m.regex.captures(text)
      == Some([Some("Android 4.0.1"), Some("Android"), Some("4"), Some("0"), Some("1")])
    ensures Match(m, text) == Some(Os("Android", Some("4"), Some("0"), Some("1"), None))
  {
  }
}

/**
 * How each field of a record is filled from a match: from its replacement
 * template when the rule configures one, otherwise from the capture group at
 * the field's fixed index. The user-agent, OS and device matchers repeat this
 * code field by field; it is stated here once.
 */
module Fields {
  import opened Wrappers
  import opened Regexes
  import opened Templates

  /**
   * The family field: the expanded template if there is one, otherwise the
   * text of group `i`; a missing group gives "", never a failed match.
   */
  function RequiredField(replacement: Option<string>, caps: Captures, i: nat): (r: string)
    ensures replacement.Some? ==> r == Expand(replacement.value, caps)
    ensures replacement.None? && i < |caps| && caps[i].Some? ==> r == caps[i].value
    ensures replacement.None? && (i >= |caps| || caps[i].None?) ==> r == ""
  {
    match replacement
    case Some(template) => Expand(template, caps)
    case None => GroupText(caps, i)
  }

  /**
   * An optional field: with a template, always present (even when the
   * expansion is ""); without one, group `i`'s text, where a group that did
   * not participate and one that captured "" both leave the field absent.
   */
  function OptionalField(replacement: Option<string>, caps: Captures, i: nat): (r: Option<string>)
    ensures replacement.Some? ==> r == Some(Expand(replacement.value, caps))
    ensures replacement.None? ==> (r.Some? <==> i < |caps| && caps[i].Some? && caps[i].value != "")
    ensures replacement.None? && r.Some? ==> caps[i] == r
  {
    match replacement
    case Some(template) => Some(Expand(template, caps))
    case None => if i < |caps| && caps[i].Some? && caps[i].value != "" then caps[i] else None
  }

  /**
   * `field` is what an untemplated optional field holds for group `i`: the
   * group's text when it is not "", and nothing otherwise.
   */
  predicate CopiesGroup(field: Option<string>, caps: Captures, i: nat) {
    (field.Some? <==> GroupText(caps, i) != "") && (field.Some? ==> field.value == GroupText(caps, i))
  }

  /** Without a template, an optional field is never present but empty. */
  lemma UntemplatedNeverEmpty(caps: Captures, i: nat)
    ensures OptionalField(None, caps, i) != Some("")
  {
  }

  /**
   * Whatever the field's template, a group that captured "" and a group that
   * did not participate give the same value.
   */
  lemma OptionalEmptyIsAbsent(replacement: Option<string>, caps: Captures, i: nat, j: nat)
    requires 1 <= j < |caps|
    ensures OptionalField(replacement, caps[j := None], i) == OptionalField(replacement, caps[j := Some("")], i)
  {
    if replacement.Some? {
      ExpandEmptyIsAbsent(replacement.value, caps, j);
    }
  }

  /** The same for the family field. */
  lemma RequiredEmptyIsAbsent(replacement: Option<string>, caps: Captures, i: nat, j: nat)
    requires 1 <= j < |caps|
    ensures RequiredField(replacement, caps[j := None], i) == RequiredField(replacement, caps[j := Some("")], i)
  {
    if replacement.Some? {
      ExpandEmptyIsAbsent(replacement.value, caps, j);
    }
  }

  /** One `match` arm of the family field in the matchers' `parse`. */
  method ExtractRequired(replacement: Option<string>, caps: Captures, i: nat) returns (r: string)
    ensures r == RequiredField(replacement, caps, i)
  {
    match replacement {
      case Some(template) =>
        r := ReplaceCaptures(template, caps);
      case None =>
        r := GroupText(caps, i);
    }
  }

  /** One `match` arm of an optional field in the matchers' `parse`. */
  method ExtractOptional(replacement: Option<string>, caps: Captures, i: nat) returns (r: Option<string>)
    ensures r == OptionalField(replacement, caps, i)
  {
    match replacement {
      case Some(template) =>
        var s := ReplaceCaptures(template, caps);
        r := Some(s);
      case None =>
        r := None;
        if i < |caps| && caps[i].Some? {
          var s := caps[i].value;
          if s != "" {
            r := Some(s);
          }
        }
    }
  }
}

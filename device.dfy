/** The device family: its record, its rule and how a rule matches. */
module Devices {
  import opened Wrappers
  import opened Regexes
  import opened Templates
  import opened Fields

  datatype Device = Device(family: string, brand: Option<string>, model: Option<string>)

  /** The record for an unrecognised device. */
  function Default(): (d: Device)
    ensures d.family == "Other" && d.brand.None? && d.model.None?
  {
    Device("Other", None, None)
  }

  /** A compiled rule: the pattern and optional family, brand and model templates. */
  datatype DeviceMatcher = DeviceMatcher(
    regex: Regex,
    deviceReplacement: Option<string>,
    brandReplacement: Option<string>,
    modelReplacement: Option<string>)

  /**
   * The rule applied to `text`: absent exactly when the pattern does not
   * match; otherwise family from group 1, brand from group 2 and model from
   * group 3, each replaced by its template when the rule has one.
   */
  function Match(m: DeviceMatcher, text: string): (r: Option<Device>)
    ensures r.Some? <==> m.regex.captures(text).Some?
  {
    match m.regex.captures(text)
    case None => None
    case Some(caps) =>
      Some(Device(
        RequiredField(m.deviceReplacement, caps, 1),
        OptionalField(m.brandReplacement, caps, 2),
        OptionalField(m.modelReplacement, caps, 3)))
  }

  /** `parse`: fills a default record field by field once the pattern matched. */
  method Parse(m: DeviceMatcher, text: string) returns (r: Option<Device>)
    ensures r == Match(m, text)
  {
    var found := m.regex.captures(text);
    if found.None? {
      return None;
    }
    var caps := found.value;
    var device := Default();
    var family := ExtractRequired(m.deviceReplacement, caps, 1);
    device := device.(family := family);
    var brand := ExtractOptional(m.brandReplacement, caps, 2);
    device := device.(brand := brand);
    var model := ExtractOptional(m.modelReplacement, caps, 3);
    device := device.(model := model);
    return Some(device);
  }

  /**
   * A rule without templates copies the groups: family is group 1's text
   * ("" when it did not participate), brand and model are groups 2 and 3
   * when those captured something, and absent otherwise.
   */
  lemma MatchWithoutTemplates(m: DeviceMatcher, text: string, caps: Captures)
    requires m.deviceReplacement.None? && m.brandReplacement.None? && m.modelReplacement.None?
    requires m.regex.captures(text) == Some(caps)
    ensures Match(m, text).Some?
    ensures Match(m, text).value.family == GroupText(caps, 1)
    ensures CopiesGroup(Match(m, text).value.brand, caps, 2)
    ensures CopiesGroup(Match(m, text).value.model, caps, 3)
  {
  }

  /**
   * Literal family and brand templates (no '$' in them) are reported as
   * written, whatever the pattern captured; a configured brand is present
   * even when it is "".
   */
  lemma LiteralTemplates(m: DeviceMatcher, text: string, family: string, brand: string)
    requires m.deviceReplacement == Some(family) && m.brandReplacement == Some(brand)
    requires forall k :: 0 <= k < |family| ==> family[k] != '$'
    requires forall k :: 0 <= k < |brand| ==> brand[k] != '$'
    requires m.regex.captures(text).Some?
    ensures Match(m, text).Some?
    ensures Match(m, text).value.family == family
    ensures Match(m, text).value.brand == Some(brand)
  {
    var caps := m.regex.captures(text).value;
    ExpandLiteral(family, caps);
    ExpandLiteral(brand, caps);
  }

  /**
   * Whatever the rule's templates, a group that captured "" and a group that
   * did not participate produce the same record.
   */
  lemma EmptyCaptureIsAbsent(m1: DeviceMatcher, m2: DeviceMatcher, text: string, caps: Captures, j: nat)
    requires 1 <= j < |caps|
    requires m1.(regex := m2.regex) == m2
    requires m1.regex.captures(text) == Some(caps[j := None])
    requires m2.regex.captures(text) == Some(caps[j := Some("")])
    ensures Match(m1, text) == Match(m2, text)
  {
    RequiredEmptyIsAbsent(m1.deviceReplacement, caps, 1, j);
    OptionalEmptyIsAbsent(m1.brandReplacement, caps, 2, j);
    OptionalEmptyIsAbsent(m1.modelReplacement, caps, 3, j);
  }

  /**
   * A worked case: a rule without groups, family template "Galaxy Nexus",
   * brand template "Samsung" and no model template; the model is absent
   * because group 3 does not exist.
   */
  lemma GalaxyNexusScenario(m: DeviceMatcher, text: string)
    requires m.deviceReplacement == Some("Galaxy Nexus") && m.brandReplacement == Some("Samsung")
    requires m.modelReplacement.None?
    requires m.regex.captures(text) == Some([Some("Galaxy Nexus")])
    ensures Match(m, text) == Some(Device("Galaxy Nexus", Some("Samsung"), None))
  {
  }

  /**
   * A rule with family template "Samsung $1", brand template "Samsung" and
   * model template "$1": the device name captured by group 1 is substituted
   * into the family and model templates. With the name "Galaxy Nexus" this is
   * the device record of the usage example in src/lib.rs:67-69.
   */
  lemma SamsungScenario(m: DeviceMatcher, text: string, whole: string, name: string)
    requires m.deviceReplacement == Some("Samsung $1") && m.brandReplacement == Some("Samsung")
    requires m.modelReplacement == Some("$1")
    requires m.regex.captures(text) == Some([Some(whole), Some(name)])
    ensures Match(m, text) == Some(Device("Samsung " + name, Some("Samsung"), Some(name)))
  {
    SamsungTemplates([Some(whole), Some(name)]);
  }

  /** The three templates of the rule above, expanded for a match with one group. */
  lemma SamsungTemplates(caps: Captures)
    requires |caps| == 2 && caps[1].Some?
    ensures Expand("Samsung $1", caps) == "Samsung " + caps[1].value
    ensures Expand("$1", caps) == caps[1].value
    ensures Expand("Samsung", caps) == "Samsung"
  {
    ExpandPrefixThenGroup("Samsung ", caps);
    assert "Samsung " + "$1" == "Samsung $1";
    ExpandSingleToken(1, caps);
    assert Token(1) == "$1";
    ExpandLiteral("Samsung", caps);
  }
}

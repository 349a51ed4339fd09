# uaparser-rs rule-matching engine, in Dafny

This project models the rule-matching core of the `uaparser-rs` crate, which
turns a browser's user-agent string into three records: the user agent
(browser family and up to four version parts), the operating system (family
and up to four version parts) and the device (family, brand, model).

What is modelled:

- **Capture-template expansion** (`replace_captures`, the same function in
  `src/user_agent.rs`, `src/os.rs` and `src/device.rs`): a left fold over the
  group indices 1, 2, ... below the number of groups, each step replacing
  every occurrence of the token "$i" in the running string with group i's text
  (or "" for a group that did not take part). `Templates.ReplaceAll` is Rust's
  `str::replace`; `Templates.Expand` is the fold and `Templates.ReplaceCaptures`
  is the loop, proved equal to it.
- **Field extraction** (module `Fields`): the family field is the expanded
  template or group 1's text (or ""); an optional field is `Some` of the
  expanded template, or the group at its fixed index when that group captured
  a non-empty string, and absent otherwise.
- **The three matchers** (`UserAgents`, `Oses`, `Devices`): each rule's `parse`
  as a function `Match` and as a method `Parse` that fills a default record
  field by field, proved to agree.
- **The parser facade** (`Parser`): `UAParser::parse` resolves each family
  independently by the first matching rule in list order, falling back to the
  family's default record; `from_yaml`, from the descriptor lists onwards, is a
  method with three loops (`Parser.FromRules`) proved equal to a specification
  (`Parser.Construct`) that fails with the first pattern that does not compile.

The regular-expression engine is a foreign library and is represented by an
oracle: a compiled `Regex` is a function from text to the capture groups of a
match (`None` when nothing matches), and compiling a pattern is a function
`compile` passed to the construction.

Behaviours of the code that the model reproduces as written:

- The family field can be "": without a family template, a missing group 1
  gives "" rather than a failed match (`UserAgents.MissingFamilyGroupStillMatches`).
- Captured text is not inserted verbatim: a later step of the fold rescans the
  text an earlier step inserted (`Templates.ExpandRescansCapturedText`), and
  with eleven or more groups the token "$10" is consumed by the step for "$1"
  (`Templates.ExpandTenShadowedByOne`).
- An optional field with a template is present even when the expansion is ""
  (`UserAgents.TemplatedVersionsPresent`); only untemplated fields collapse ""
  to absent (`Fields.UntemplatedNeverEmpty`).
- `src/parser.rs` builds OS matchers from descriptor fields named
  `os_replacement` and `os_v1_replacement` to `os_v4_replacement`, while
  `src/os.rs` names the matcher's fields `family_replacement` and
  `v1_replacement` to `v4_replacement`; the model's `Parser.OsParser` uses the
  former, `Oses.OsMatcher` the latter, and construction maps one to the other.

## Model

| member | source | states |
|---|---|---|
| Regexes.GroupText | src/user_agent.rs:9 | a group's text when it took part, "" otherwise; a non-empty result is exactly the group's capture |
| Templates.ReplaceAllAbsent | src/user_agent.rs:7-10 | replacing a token that does not occur in the string leaves the string unchanged |
| Templates.ReplaceAll | src/user_agent.rs:7-10 | Rust's `str::replace`: occurrences found left to right, without overlap, each replaced, the inserted text not rescanned; replacing a token by itself leaves any string unchanged |
| Templates.ReplaceAllCopiesPrefix | src/user_agent.rs:7-10 | text before an occurrence that lacks the token's first character is copied through unchanged |
| Templates.ReplaceAllWhole | src/user_agent.rs:7-10 | a string that is exactly the token becomes exactly the replacement |
| Templates.ReplaceAllLeading | src/user_agent.rs:7-10 | a string starting with the token has that occurrence replaced and the rest processed on its own |
| Templates.Decimal | src/user_agent.rs:8 | the index is written as one or more decimal digits, a single digit exactly below ten, with a leading '0' exactly for zero |
| Templates.DecimalRoundTrip | src/user_agent.rs:8 | reading back the decimal form of an index gives the index |
| Templates.Token | src/user_agent.rs:8 | a token is "$" followed by the index, two characters for indices below ten |
| Templates.TokenInjective | src/user_agent.rs:8 | two indices have the same token if and only if they are equal |
| Templates.SingleDigitTokensDistinct | src/user_agent.rs:6-8 | the token of one single-digit index never occurs inside that of another |
| Templates.TokenNeedsDollar | src/user_agent.rs:8 | no token occurs in text without a '$' |
| Templates.Expand | src/user_agent.rs:4-13 | with only group 0 the loop is empty and the template comes back unchanged |
| Templates.ReplaceCaptures | src/user_agent.rs:4-13 | the loop's result is the left fold of `str::replace` over groups 1 .. len-1 |
| Templates.ExpandOneGroup | src/user_agent.rs:6-11 | with one group, expansion is a single replacement of "$1" |
| Templates.ExpandPrefixThenGroup | src/device.rs:4-13 | for a match with exactly one group, a '$'-free prefix followed by "$1" expands to the prefix followed by group 1's text |
| Templates.ExpandFromSkip | src/user_agent.rs:6-10 | fold steps whose token does not occur in the running string change nothing |
| Templates.ExpandWithoutTokens | src/os.rs:4-13 | a template holding no token of an in-range index is returned unchanged; tokens of out-of-range indices stay in place |
| Templates.ExpandLiteral | src/device.rs:4-13 | a template without '$' is returned unchanged whatever the captures |
| Templates.ExpandSingleToken | src/user_agent.rs:6-10 | the template "$i" (single-digit i) expands to group i's text when that text holds no later group's token |
| Templates.ExpandAbsentGroup | src/user_agent.rs:9 | the template "$i", for a single-digit i whose group did not take part, expands to "" |
| Templates.ExpandFromSameText | src/os.rs:6-10 | expansion depends on the groups only through their texts |
| Templates.ExpandEmptyIsAbsent | src/os.rs:9 | a group that captured "" and one that did not take part expand every template alike |
| Templates.ExpandTwoGroups | src/user_agent.rs:4-13 | for a match with exactly two groups, "$1", a '$'-free separator and "$2" expand to group 1's text (when it holds no '$'), the separator and group 2's text |
| Templates.ExpandRescansCapturedText | src/user_agent.rs:6-10 | a "$2" captured by group 1 is rewritten by the later step for group 2 |
| Templates.ExpandTenShadowedByOne | src/user_agent.rs:6-10 | with eleven groups, group 1 capturing "a", groups 2 to 9 absent and group 10 capturing "b", "$10" expands to "a0", not "b" |
| Fields.RequiredField | src/user_agent.rs:52-58 | family is the expanded template if configured, else group 1's text, else "" |
| Fields.OptionalField | src/user_agent.rs:61-71 | a templated field is always present with the expansion; an untemplated one is present exactly when its group captured a non-empty string, and then equals it |
| Fields.UntemplatedNeverEmpty | src/user_agent.rs:63-70 | an untemplated optional field is never present-but-empty |
| Fields.OptionalEmptyIsAbsent | src/device.rs:55-78 | an empty capture and an absent group give the same optional field, templated or not |
| Fields.RequiredEmptyIsAbsent | src/device.rs:46-52 | an empty capture and an absent group give the same family |
| Fields.ExtractRequired | src/user_agent.rs:52-58 | the family `match` arm computes RequiredField |
| Fields.ExtractOptional | src/user_agent.rs:61-71 | an optional-field `match` arm computes OptionalField |
| UserAgents.Default | src/user_agent.rs:24-34 | family "Other" and all four versions absent |
| UserAgents.Match | src/user_agent.rs:46-116 | a record is produced exactly when the pattern matches |
| UserAgents.Parse | src/user_agent.rs:48-115 | filling the default record field by field gives Match's result |
| UserAgents.MatchWithoutTemplates | src/user_agent.rs:52-110 | without templates, family is group 1's text and major..patch_minor copy groups 2..5, empty or absent groups giving absent fields |
| UserAgents.TemplatedVersionsPresent | src/user_agent.rs:61-101 | with all four version templates configured, all four versions are present |
| UserAgents.MissingFamilyGroupStillMatches | src/user_agent.rs:52-58 | for a rule without a family template, a missing group 1 gives family "" and never turns a match into a miss |
| UserAgents.ChromeScenario | src/user_agent.rs:46-116 | for a rule without templates, the Chrome 26 captures give family "Chrome" and versions 26, 0, 1410, 58 |
| Oses.Default | src/os.rs:24-34 | family "Other" and all four versions absent |
| Oses.Match | src/os.rs:46-116 | a record is produced exactly when the pattern matches |
| Oses.Parse | src/os.rs:48-115 | filling the default record field by field gives Match's result |
| Oses.MatchWithoutTemplates | src/os.rs:52-110 | without templates, family is group 1's text and the versions copy groups 2..5, empty or absent groups giving absent fields |
| Oses.TemplatedVersionsPresent | src/os.rs:61-101 | with all four version templates configured, all four versions are present |
| UserAgents.EmptyCaptureIsAbsent | src/user_agent.rs:52-110 | an empty capture and an absent group give the same user-agent record, whatever the templates |
| Oses.EmptyCaptureIsAbsent | src/os.rs:52-110 | an empty capture and an absent group give the same OS record, whatever the templates |
| Oses.AndroidScenario | src/os.rs:46-116 | for a rule without templates, the Android 4.0.1 captures give family "Android", versions 4, 0, 1 and no fourth version |
| Devices.Default | src/device.rs:22-30 | family "Other", brand and model absent |
| Devices.Match | src/device.rs:40-84 | a record is produced exactly when the pattern matches |
| Devices.Parse | src/device.rs:42-83 | filling the default record field by field gives Match's result |
| Devices.MatchWithoutTemplates | src/device.rs:46-78 | without templates, family is group 1's text and brand and model copy groups 2 and 3, empty or absent groups giving absent fields |
| Devices.LiteralTemplates | src/device.rs:46-56 | '$'-free family and brand templates are reported as written, whatever the captures |
| Devices.EmptyCaptureIsAbsent | src/device.rs:46-78 | an empty capture and an absent group give the same device record, whatever the templates |
| Devices.GalaxyNexusScenario | src/device.rs:40-84 | a group-less Galaxy Nexus rule gives family "Galaxy Nexus", brand "Samsung" and no model |
| Devices.SamsungScenario | src/device.rs:40-84 | for a match with exactly one group, the rule with templates "Samsung $1", "Samsung", "$1" gives family "Samsung " + name, brand "Samsung", model name |
| Devices.SamsungTemplates | src/device.rs:46-69 | for a match with exactly one group, and that group taking part, the three templates of that rule expand as stated |
| Parser.FirstMatch | src/parser.rs:71-75 | absent exactly when no matcher matches; otherwise the result of some matcher in the list |
| Parser.FirstMatchIsFirst | src/parser.rs:71-75 | the first matcher that matches decides the result |
| Parser.FirstMatchAppend | src/parser.rs:71-75 | matchers after the first match are never consulted |
| Parser.Parse | src/parser.rs:69-87 | total; a family with no matching rule gets its default record |
| Parser.ParseUserAgentFirstMatch | src/parser.rs:71-75 | the user agent comes from the first user-agent rule that matches |
| Parser.ParseOsFirstMatch | src/parser.rs:76-80 | the OS comes from the first OS rule that matches |
| Parser.ParseDeviceFirstMatch | src/parser.rs:81-85 | the device comes from the first device rule that matches |
| Parser.LaterUserAgentRulesIgnored | src/parser.rs:71-75 | replacing the rules after a matching one leaves the user agent unchanged |
| Parser.ParseFamiliesIndependent | src/parser.rs:69-87 | each field of the client depends only on its own family's rules and the text |
| Parser.CompileRules | src/parser.rs:34-43 | one descriptor loop with its early return: a success holds one matcher per descriptor, and a failure carries the error of some descriptor's pattern |
| Parser.CompileRulesSucceeds | src/parser.rs:34-43 | a list compiles exactly when every pattern does, giving one matcher per descriptor, in order, with that descriptor's templates |
| Parser.CompileRulesFirstError | src/parser.rs:34-43 | a failing list reports the first pattern that does not compile |
| Parser.CompileRulesKeepsFailure | src/parser.rs:34-43 | after a failure the rest of the list is not looked at |
| Parser.CompileRulesStep | src/parser.rs:34-43 | one loop iteration: compile the next pattern and push its matcher, or stop |
| Parser.Construct | src/parser.rs:31-66 | the result of construction: on success each matcher list has its descriptor list's length; a failure carries the error of some pattern of the file |
| Parser.ConstructSucceeds | src/parser.rs:31-66 | construction succeeds exactly when every pattern compiles, and each matcher list has its descriptor list's length, order and templates |
| Parser.ConstructFirstError | src/parser.rs:34-61 | a failed construction reports the first failing pattern, user-agent rules first, then device, then OS |
| Parser.FromRules | src/parser.rs:31-66 | the three loops with early return compute Construct, so no partial parser is ever returned |

## Left out

- The regular-expression engine (`Regex::new` and `captures`): a foreign library, represented by the `compile` parameter and the `Regex` oracle; leftmost-match semantics and pattern syntax are not modelled.
- Opening the rule file and deserializing it as YAML (src/parser.rs:29-30): I/O and serde; the model starts from the in-memory `Parser.RuleFile`, and the I/O and YAML variants of the crate's error type (src/error.rs) are not part of this model.
- src/yaml_file.rs and src/file.rs: serde data shapes only. yaml_file.rs declares no OS descriptor list; `Parser.OsParser` follows the fields src/parser.rs reads.
- src/lib.rs: module wiring and tests driven by rule files that are not part of this model.
- The `Parser` trait: its `parse` is represented by the `Match` functions passed to `Parser.FirstMatch`; the trait's `&str` argument versus the matchers' `String` argument makes no difference to the model.
- `Debug` derives, vector capacities and string encoding: strings are sequences of characters.
- Parser.Parse: its own contract states only the fallback to the default records; which rule decides each field is stated by Parser.ParseUserAgentFirstMatch, Parser.ParseOsFirstMatch and Parser.ParseDeviceFirstMatch.
- Templates.ExpandSingleToken: stated for single-digit indices only; for ten and above the earlier single-digit steps can consume the token (Templates.ExpandTenShadowedByOne).
- Templates.ExpandAbsentGroup: stated for a template that is one single-digit token; Templates.ExpandEmptyIsAbsent gives the general form, in which an absent group and an empty capture expand every template alike.
- Templates.ExpandTwoGroups: stated for a match with exactly two groups and for a group 1 text and separator without '$', since otherwise the step for "$2" would also rewrite them and, with more groups, the steps for "$3" onwards would rewrite tokens in group 2's text.

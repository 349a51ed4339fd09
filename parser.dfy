/**
 * The parser facade: three ordered rule lists, one per family, built from
 * rule descriptors by compiling every pattern, and consulted first-match-wins
 * for each family independently.
 */
module Parser {
  import opened Wrappers
  import opened Regexes
  import UserAgents
  import Oses
  import Devices

  // ---------------------------------------------------------------------------
  // Rule descriptors, as the rule file lists them

  datatype UserAgentParser = UserAgentParser(
    regex: string,
    familyReplacement: Option<string>,
    v1Replacement: Option<string>,
    v2Replacement: Option<string>,
    v3Replacement: Option<string>,
    v4Replacement: Option<string>)

  datatype DeviceParser = DeviceParser(
    regex: string,
    deviceReplacement: Option<string>,
    brandReplacement: Option<string>,
    modelReplacement: Option<string>)

  datatype OsParser = OsParser(
    regex: string,
    osReplacement: Option<string>,
    osV1Replacement: Option<string>,
    osV2Replacement: Option<string>,
    osV3Replacement: Option<string>,
    osV4Replacement: Option<string>)

  /** The three descriptor lists of a rule file, each in file order. */
  datatype RuleFile = RuleFile(
    uaParsers: seq<UserAgentParser>,
    deviceParsers: seq<DeviceParser>,
    osParsers: seq<OsParser>)

  /** Construction fails only on a pattern the regex library rejects. */
  datatype UAParserError = RegexFailure(error: RegexError)

  datatype UAParser = UAParser(
    uaMatchers: seq<UserAgents.UserAgentMatcher>,
    deviceMatchers: seq<Devices.DeviceMatcher>,
    osMatchers: seq<Oses.OsMatcher>)

  datatype Client = Client(userAgent: UserAgents.UserAgent, device: Devices.Device, os: Oses.Os)

  // ---------------------------------------------------------------------------
  // First match wins, with the default record as fallback

  /**
   * The result of the first matcher, in list order, that matches `text`;
   * absent exactly when none does.
   */
  function FirstMatch<M, R>(matchers: seq<M>, matches: (M, string) -> Option<R>, text: string): (r: Option<R>)
    ensures r.None? <==> forall k :: 0 <= k < |matchers| ==> matches(matchers[k], text).None?
    ensures r.Some? ==> exists k :: 0 <= k < |matchers| && matches(matchers[k], text) == r
  {
    if matchers == [] then None
    else
      match matches(matchers[0], text)
      case Some(record) => Some(record)
      case None => FirstMatch(matchers[1..], matches, text)
  }

  /** The first matcher that matches decides the result; the earlier ones did not match. */
  lemma {:induction false} FirstMatchIsFirst<M, R>(matchers: seq<M>, matches: (M, string) -> Option<R>, text: string, k: nat)
    requires k < |matchers| && matches(matchers[k], text).Some?
    requires forall j :: 0 <= j < k ==> matches(matchers[j], text).None?
    ensures FirstMatch(matchers, matches, text) == matches(matchers[k], text)
  {
    if k > 0 {
      FirstMatchIsFirst(matchers[1..], matches, text, k - 1);
    }
  }

  /**
   * Matchers after one that matched are never consulted: appending to a list
   * changes its result only when nothing in the list matched.
   */
  lemma {:induction false} FirstMatchAppend<M, R>(front: seq<M>, back: seq<M>, matches: (M, string) -> Option<R>, text: string)
    ensures FirstMatch(front + back, matches, text)
      == if FirstMatch(front, matches, text).Some? then FirstMatch(front, matches, text)
         else FirstMatch(back, matches, text)
  {
    if front == [] {
      assert front + back == back;
    } else {
      assert (front + back)[1..] == front[1..] + back;
      FirstMatchAppend(front[1..], back, matches, text);
    }
  }

  /** `parse`: each family resolved on its own, falling back to its default record. */
  function Parse(p: UAParser, text: string): (c: Client)
    ensures (forall k :: 0 <= k < |p.uaMatchers| ==> UserAgents.Match(p.uaMatchers[k], text).None?)
      ==> c.userAgent == UserAgents.Default()
    ensures (forall k :: 0 <= k < |p.osMatchers| ==> Oses.Match(p.osMatchers[k], text).None?)
      ==> c.os == Oses.Default()
    ensures (forall k :: 0 <= k < |p.deviceMatchers| ==> Devices.Match(p.deviceMatchers[k], text).None?)
      ==> c.device == Devices.Default()
  {
    Client(
      FirstMatch(p.uaMatchers, UserAgents.Match, text).GetOr(UserAgents.Default()),
      FirstMatch(p.deviceMatchers, Devices.Match, text).GetOr(Devices.Default()),
      FirstMatch(p.osMatchers, Oses.Match, text).GetOr(Oses.Default()))
  }

  /** The user agent comes from the first user-agent rule that matches. */
  lemma ParseUserAgentFirstMatch(p: UAParser, text: string, k: nat)
    requires k < |p.uaMatchers| && UserAgents.Match(p.uaMatchers[k], text).Some?
    requires forall j :: 0 <= j < k ==> UserAgents.Match(p.uaMatchers[j], text).None?
    ensures Parse(p, text).userAgent == UserAgents.Match(p.uaMatchers[k], text).value
  {
    FirstMatchIsFirst(p.uaMatchers, UserAgents.Match, text, k);
  }

  /** The operating system comes from the first OS rule that matches. */
  lemma ParseOsFirstMatch(p: UAParser, text: string, k: nat)
    requires k < |p.osMatchers| && Oses.Match(p.osMatchers[k], text).Some?
    requires forall j :: 0 <= j < k ==> Oses.Match(p.osMatchers[j], text).None?
    ensures Parse(p, text).os == Oses.Match(p.osMatchers[k], text).value
  {
    FirstMatchIsFirst(p.osMatchers, Oses.Match, text, k);
  }

  /** The device comes from the first device rule that matches. */
  lemma ParseDeviceFirstMatch(p: UAParser, text: string, k: nat)
    requires k < |p.deviceMatchers| && Devices.Match(p.deviceMatchers[k], text).Some?
    requires forall j :: 0 <= j < k ==> Devices.Match(p.deviceMatchers[j], text).None?
    ensures Parse(p, text).device == Devices.Match(p.deviceMatchers[k], text).value
  {
    FirstMatchIsFirst(p.deviceMatchers, Devices.Match, text, k);
  }

  /**
   * Rules after a matching one do not matter: replacing everything after
   * user-agent rule k, when rule k matches, leaves the user agent unchanged.
   */
  lemma LaterUserAgentRulesIgnored(p: UAParser, text: string, k: nat, rest: seq<UserAgents.UserAgentMatcher>)
    requires k < |p.uaMatchers| && UserAgents.Match(p.uaMatchers[k], text).Some?
    ensures Parse(p.(uaMatchers := p.uaMatchers[..k + 1] + rest), text).userAgent == Parse(p, text).userAgent
  {
    var front := p.uaMatchers[..k + 1];
    assert front[k] == p.uaMatchers[k];
    assert p.uaMatchers == front + p.uaMatchers[k + 1..];
    FirstMatchAppend(front, rest, UserAgents.Match, text);
    FirstMatchAppend(front, p.uaMatchers[k + 1..], UserAgents.Match, text);
  }

  /**
   * The three families are independent: each field of the client depends
   * only on that family's rule list and the text.
   */
  lemma ParseFamiliesIndependent(p: UAParser, q: UAParser, text: string)
    ensures p.uaMatchers == q.uaMatchers ==> Parse(p, text).userAgent == Parse(q, text).userAgent
    ensures p.osMatchers == q.osMatchers ==> Parse(p, text).os == Parse(q, text).os
    ensures p.deviceMatchers == q.deviceMatchers ==> Parse(p, text).device == Parse(q, text).device
  {
  }

  // ---------------------------------------------------------------------------
  // Construction (`from_yaml`, from the already-read descriptor lists)

  function UserAgentPattern(d: UserAgentParser): string { d.regex }
  function DevicePattern(d: DeviceParser): string { d.regex }
  function OsPattern(d: OsParser): string { d.regex }

  function UserAgentMatcherOf(d: UserAgentParser, re: Regex): UserAgents.UserAgentMatcher {
    UserAgents.UserAgentMatcher(re, d.familyReplacement, d.v1Replacement, d.v2Replacement, d.v3Replacement, d.v4Replacement)
  }

  function DeviceMatcherOf(d: DeviceParser, re: Regex): Devices.DeviceMatcher {
    Devices.DeviceMatcher(re, d.deviceReplacement, d.brandReplacement, d.modelReplacement)
  }

  function OsMatcherOf(d: OsParser, re: Regex): Oses.OsMatcher {
    Oses.OsMatcher(re, d.osReplacement, d.osV1Replacement, d.osV2Replacement, d.osV3Replacement, d.osV4Replacement)
  }

  /**
   * One descriptor list compiled in order, as the `for` loops with `?` do:
   * the first pattern that fails to compile ends the whole list.
   */
  function CompileRules<D, M>(descriptors: seq<D>, pattern: D -> string, build: (D, Regex) -> M,
                              compile: string -> Result<Regex, RegexError>): (r: Result<seq<M>, RegexError>)
    ensures r.Success? ==> |r.value| == |descriptors|
    ensures r.Failure? ==> exists k :: 0 <= k < |descriptors| && compile(pattern(descriptors[k])) == Failure(r.error)
    decreases |descriptors|
  {
    if descriptors == [] then Success([])
    else
      var n := |descriptors| - 1;
      match CompileRules(descriptors[..n], pattern, build, compile)
      case Failure(e) => Failure(e)
      case Success(built) =>
        match compile(pattern(descriptors[n]))
        case Failure(e) => Failure(e)
        case Success(re) => Success(built + [build(descriptors[n], re)])
  }

  /**
   * A list compiles exactly when every pattern in it compiles, and then it
   * has one rule per descriptor, in the same order, built from that
   * descriptor and its compiled pattern.
   */
  lemma {:induction false} CompileRulesSucceeds<D, M>(descriptors: seq<D>, pattern: D -> string, build: (D, Regex) -> M,
                                                      compile: string -> Result<Regex, RegexError>)
    ensures var r := CompileRules(descriptors, pattern, build, compile);
      r.Success? <==> forall k :: 0 <= k < |descriptors| ==> compile(pattern(descriptors[k])).Success?
    ensures var r := CompileRules(descriptors, pattern, build, compile);
      r.Success? ==>
        |r.value| == |descriptors|
        && forall k :: 0 <= k < |descriptors| ==> r.value[k] == build(descriptors[k], compile(pattern(descriptors[k])).value)
  {
    if descriptors != [] {
      var n := |descriptors| - 1;
      var front := descriptors[..n];
      CompileRulesSucceeds(front, pattern, build, compile);
      assert forall k :: 0 <= k < n ==> front[k] == descriptors[k];
    }
  }

  /**
   * A list that fails to compile fails with the error of its first pattern
   * that does not compile; every pattern before it compiled.
   */
  lemma {:induction false} CompileRulesFirstError<D, M>(descriptors: seq<D>, pattern: D -> string, build: (D, Regex) -> M,
                                                        compile: string -> Result<Regex, RegexError>)
    requires CompileRules(descriptors, pattern, build, compile).Failure?
    ensures exists k :: (0 <= k < |descriptors|
      && compile(pattern(descriptors[k])) == Failure(CompileRules(descriptors, pattern, build, compile).error)
      && forall j :: 0 <= j < k ==> compile(pattern(descriptors[j])).Success?)
  {
    var n := |descriptors| - 1;
    var front := descriptors[..n];
    assert forall k :: 0 <= k < n ==> front[k] == descriptors[k];
    if CompileRules(front, pattern, build, compile).Failure? {
      CompileRulesFirstError(front, pattern, build, compile);
      var k :| 0 <= k < |front|
        && compile(pattern(front[k])) == Failure(CompileRules(front, pattern, build, compile).error)
        && forall j :: 0 <= j < k ==> compile(pattern(front[j])).Success?;
      assert compile(pattern(descriptors[k])) == Failure(CompileRules(descriptors, pattern, build, compile).error);
    } else {
      CompileRulesSucceeds(front, pattern, build, compile);
      assert compile(pattern(descriptors[n])) == Failure(CompileRules(descriptors, pattern, build, compile).error);
    }
  }

  /** Once a prefix of the list has failed, the rest of the list is not looked at. */
  lemma {:induction false} CompileRulesKeepsFailure<D, M>(descriptors: seq<D>, n: nat, pattern: D -> string, build: (D, Regex) -> M,
                                                          compile: string -> Result<Regex, RegexError>)
    requires n <= |descriptors|
    requires CompileRules(descriptors[..n], pattern, build, compile).Failure?
    ensures CompileRules(descriptors, pattern, build, compile) == CompileRules(descriptors[..n], pattern, build, compile)
    decreases |descriptors|
  {
    if n < |descriptors| {
      var m := |descriptors| - 1;
      assert descriptors[..m][..n] == descriptors[..n];
      CompileRulesKeepsFailure(descriptors[..m], n, pattern, build, compile);
    } else {
      assert descriptors[..n] == descriptors;
    }
  }

  /** Compiling one more descriptor after a successful prefix. */
  lemma CompileRulesStep<D, M>(descriptors: seq<D>, i: nat, pattern: D -> string, build: (D, Regex) -> M,
                               compile: string -> Result<Regex, RegexError>)
    requires i < |descriptors|
    requires CompileRules(descriptors[..i], pattern, build, compile).Success?
    ensures var built := CompileRules(descriptors[..i], pattern, build, compile).value;
      CompileRules(descriptors[..i + 1], pattern, build, compile)
        == match compile(pattern(descriptors[i]))
           case Failure(e) => Failure(e)
           case Success(re) => Success(built + [build(descriptors[i], re)])
  {
    assert descriptors[..i + 1][..i] == descriptors[..i];
    assert descriptors[..i + 1][i] == descriptors[i];
  }

  /** The whole construction: user-agent rules first, then device rules, then OS rules. */
  function Construct(file: RuleFile, compile: string -> Result<Regex, RegexError>): (r: Result<UAParser, UAParserError>)
    ensures r.Success? ==>
      && |r.value.uaMatchers| == |file.uaParsers|
      && |r.value.deviceMatchers| == |file.deviceParsers|
      && |r.value.osMatchers| == |file.osParsers|
    ensures r.Failure? ==>
      || (exists k :: 0 <= k < |file.uaParsers| && compile(file.uaParsers[k].regex) == Failure(r.error.error))
      || (exists k :: 0 <= k < |file.deviceParsers| && compile(file.deviceParsers[k].regex) == Failure(r.error.error))
      || (exists k :: 0 <= k < |file.osParsers| && compile(file.osParsers[k].regex) == Failure(r.error.error))
  {
    match CompileRules(file.uaParsers, UserAgentPattern, UserAgentMatcherOf, compile)
    case Failure(e) => Failure(RegexFailure(e))
    case Success(uaMatchers) =>
      match CompileRules(file.deviceParsers, DevicePattern, DeviceMatcherOf, compile)
      case Failure(e) => Failure(RegexFailure(e))
      case Success(deviceMatchers) =>
        match CompileRules(file.osParsers, OsPattern, OsMatcherOf, compile)
        case Failure(e) => Failure(RegexFailure(e))
        case Success(osMatchers) => Success(UAParser(uaMatchers, deviceMatchers, osMatchers))
  }

  /** The patterns of a descriptor list, in list order. */
  function PatternsOf<D>(ds: seq<D>, pattern: D -> string): (ps: seq<string>)
    ensures |ps| == |ds| && forall k :: 0 <= k < |ds| ==> ps[k] == pattern(ds[k])
  {
    seq(|ds|, k requires 0 <= k < |ds| => pattern(ds[k]))
  }

  /** Every pattern of the rule file, in the order construction compiles them. */
  function Patterns(file: RuleFile): seq<string> {
    PatternsOf(file.uaParsers, UserAgentPattern) + PatternsOf(file.deviceParsers, DevicePattern) + PatternsOf(file.osParsers, OsPattern)
  }

  /** Every pattern in the list compiles. */
  ghost predicate AllCompile(patterns: seq<string>, compile: string -> Result<Regex, RegexError>) {
    forall k :: 0 <= k < |patterns| ==> compile(patterns[k]).Success?
  }

  /** `e` is the error of the first pattern in the list that does not compile. */
  ghost predicate FirstFailureIs(patterns: seq<string>, compile: string -> Result<Regex, RegexError>, e: RegexError) {
    exists k :: 0 <= k < |patterns| && compile(patterns[k]) == Failure(e) && AllCompile(patterns[..k], compile)
  }

  lemma AllCompileAppend(a: seq<string>, b: seq<string>, compile: string -> Result<Regex, RegexError>)
    ensures AllCompile(a + b, compile) <==> AllCompile(a, compile) && AllCompile(b, compile)
  {
    if AllCompile(a, compile) && AllCompile(b, compile) {
      forall k | 0 <= k < |a + b|
        ensures compile((a + b)[k]).Success?
      {
        if k >= |a| {
          assert (a + b)[k] == b[k - |a|];
        }
      }
    }
    if AllCompile(a + b, compile) {
      forall k | 0 <= k < |a|
        ensures compile(a[k]).Success?
      {
        assert (a + b)[k] == a[k];
      }
      forall k | 0 <= k < |b|
        ensures compile(b[k]).Success?
      {
        assert (a + b)[|a| + k] == b[k];
      }
    }
  }

  /** A first failure in a list stays the first failure when more patterns follow. */
  lemma FirstFailureBefore(a: seq<string>, b: seq<string>, compile: string -> Result<Regex, RegexError>, e: RegexError)
    requires FirstFailureIs(a, compile, e)
    ensures FirstFailureIs(a + b, compile, e)
  {
    var k :| 0 <= k < |a| && compile(a[k]) == Failure(e) && AllCompile(a[..k], compile);
    assert (a + b)[k] == a[k];
    assert (a + b)[..k] == a[..k];
  }

  /** After patterns that all compile, a list's first failure is that of the whole. */
  lemma FirstFailureAfter(a: seq<string>, b: seq<string>, compile: string -> Result<Regex, RegexError>, e: RegexError)
    requires AllCompile(a, compile) && FirstFailureIs(b, compile, e)
    ensures FirstFailureIs(a + b, compile, e)
  {
    var k :| 0 <= k < |b| && compile(b[k]) == Failure(e) && AllCompile(b[..k], compile);
    assert (a + b)[|a| + k] == b[k];
    assert (a + b)[..|a| + k] == a + b[..k];
    AllCompileAppend(a, b[..k], compile);
  }

  /** How one descriptor list's compilation reads in terms of its patterns. */
  lemma CompileRulesByPatterns<D, M>(descriptors: seq<D>, patterns: seq<string>, pattern: D -> string,
                                     build: (D, Regex) -> M, compile: string -> Result<Regex, RegexError>)
    requires |patterns| == |descriptors| && forall k :: 0 <= k < |descriptors| ==> patterns[k] == pattern(descriptors[k])
    ensures CompileRules(descriptors, pattern, build, compile).Success? <==> AllCompile(patterns, compile)
    ensures CompileRules(descriptors, pattern, build, compile).Failure? ==>
      FirstFailureIs(patterns, compile, CompileRules(descriptors, pattern, build, compile).error)
  {
    CompileRulesSucceeds(descriptors, pattern, build, compile);
    var r := CompileRules(descriptors, pattern, build, compile);
    if r.Failure? {
      CompileRulesFirstError(descriptors, pattern, build, compile);
      var k :| 0 <= k < |descriptors| && compile(pattern(descriptors[k])) == Failure(r.error)
        && forall j :: 0 <= j < k ==> compile(pattern(descriptors[j])).Success?;
      assert compile(patterns[k]) == Failure(r.error);
      assert AllCompile(patterns[..k], compile);
    }
  }

  /**
   * Construction succeeds exactly when every pattern compiles; the parser
   * then holds one matcher per descriptor, in file order, carrying that
   * descriptor's compiled pattern and its replacement templates unchanged.
   */
  lemma ConstructSucceeds(file: RuleFile, compile: string -> Result<Regex, RegexError>)
    ensures Construct(file, compile).Success? <==> AllCompile(Patterns(file), compile)
    ensures Construct(file, compile).Success? ==>
      var p := Construct(file, compile).value;
      && |p.uaMatchers| == |file.uaParsers|
      && |p.deviceMatchers| == |file.deviceParsers|
      && |p.osMatchers| == |file.osParsers|
      && (forall k :: 0 <= k < |file.uaParsers| ==>
            var d := file.uaParsers[k];
            compile(d.regex).Success?
            && p.uaMatchers[k] == UserAgents.UserAgentMatcher(compile(d.regex).value, d.familyReplacement,
                 d.v1Replacement, d.v2Replacement, d.v3Replacement, d.v4Replacement))
      && (forall k :: 0 <= k < |file.deviceParsers| ==>
            var d := file.deviceParsers[k];
            compile(d.regex).Success?
            && p.deviceMatchers[k] == Devices.DeviceMatcher(compile(d.regex).value, d.deviceReplacement,
                 d.brandReplacement, d.modelReplacement))
      && (forall k :: 0 <= k < |file.osParsers| ==>
            var d := file.osParsers[k];
            compile(d.regex).Success?
            && p.osMatchers[k] == Oses.OsMatcher(compile(d.regex).value, d.osReplacement,
                 d.osV1Replacement, d.osV2Replacement, d.osV3Replacement, d.osV4Replacement))
  {
    CompileRulesSucceeds(file.uaParsers, UserAgentPattern, UserAgentMatcherOf, compile);
    CompileRulesSucceeds(file.deviceParsers, DevicePattern, DeviceMatcherOf, compile);
    CompileRulesSucceeds(file.osParsers, OsPattern, OsMatcherOf, compile);
    var ua := PatternsOf(file.uaParsers, UserAgentPattern);
    var dev := PatternsOf(file.deviceParsers, DevicePattern);
    var os := PatternsOf(file.osParsers, OsPattern);
    CompileRulesByPatterns(file.uaParsers, ua, UserAgentPattern, UserAgentMatcherOf, compile);
    CompileRulesByPatterns(file.deviceParsers, dev, DevicePattern, DeviceMatcherOf, compile);
    CompileRulesByPatterns(file.osParsers, os, OsPattern, OsMatcherOf, compile);
    AllCompileAppend(ua, dev, compile);
    AllCompileAppend(ua + dev, os, compile);
  }

  /**
   * A failed construction reports the error of the first pattern, in file
   * order (user-agent, then device, then OS rules), that does not compile.
   */
  lemma ConstructFirstError(file: RuleFile, compile: string -> Result<Regex, RegexError>)
    requires Construct(file, compile).Failure?
    ensures FirstFailureIs(Patterns(file), compile, Construct(file, compile).error.error)
  {
    var ua := PatternsOf(file.uaParsers, UserAgentPattern);
    var dev := PatternsOf(file.deviceParsers, DevicePattern);
    var os := PatternsOf(file.osParsers, OsPattern);
    var e := Construct(file, compile).error.error;
    CompileRulesByPatterns(file.uaParsers, ua, UserAgentPattern, UserAgentMatcherOf, compile);
    CompileRulesByPatterns(file.deviceParsers, dev, DevicePattern, DeviceMatcherOf, compile);
    CompileRulesByPatterns(file.osParsers, os, OsPattern, OsMatcherOf, compile);
    if !AllCompile(ua, compile) {
      FirstFailureBefore(ua, dev, compile, e);
      FirstFailureBefore(ua + dev, os, compile, e);
    } else if !AllCompile(dev, compile) {
      FirstFailureAfter(ua, dev, compile, e);
      FirstFailureBefore(ua + dev, os, compile, e);
    } else {
      AllCompileAppend(ua, dev, compile);
      FirstFailureAfter(ua + dev, os, compile, e);
    }
  }

  /**
   * `from_yaml` after the file has been read: three loops push one matcher per
   * descriptor and return at the first pattern that does not compile.
   */
  method FromRules(file: RuleFile, compile: string -> Result<Regex, RegexError>) returns (r: Result<UAParser, UAParserError>)
    ensures r == Construct(file, compile)
  {
    var uaMatchers: seq<UserAgents.UserAgentMatcher> := [];
    for i := 0 to |file.uaParsers|
      invariant CompileRules(file.uaParsers[..i], UserAgentPattern, UserAgentMatcherOf, compile) == Success(uaMatchers)
    {
      var parser := file.uaParsers[i];
      CompileRulesStep(file.uaParsers, i, UserAgentPattern, UserAgentMatcherOf, compile);
      var regex := compile(parser.regex);
      if regex.Failure? {
        CompileRulesKeepsFailure(file.uaParsers, i + 1, UserAgentPattern, UserAgentMatcherOf, compile);
        return Failure(RegexFailure(regex.error));
      }
      uaMatchers := uaMatchers + [UserAgents.UserAgentMatcher(
        regex.value, parser.familyReplacement, parser.v1Replacement, parser.v2Replacement,
        parser.v3Replacement, parser.v4Replacement)];
    }
    assert file.uaParsers[..|file.uaParsers|] == file.uaParsers;

    var deviceMatchers: seq<Devices.DeviceMatcher> := [];
    for i := 0 to |file.deviceParsers|
      invariant CompileRules(file.deviceParsers[..i], DevicePattern, DeviceMatcherOf, compile) == Success(deviceMatchers)
    {
      var parser := file.deviceParsers[i];
      CompileRulesStep(file.deviceParsers, i, DevicePattern, DeviceMatcherOf, compile);
      var regex := compile(parser.regex);
      if regex.Failure? {
        CompileRulesKeepsFailure(file.deviceParsers, i + 1, DevicePattern, DeviceMatcherOf, compile);
        return Failure(RegexFailure(regex.error));
      }
      deviceMatchers := deviceMatchers + [Devices.DeviceMatcher(
        regex.value, parser.deviceReplacement, parser.brandReplacement, parser.modelReplacement)];
    }
    assert file.deviceParsers[..|file.deviceParsers|] == file.deviceParsers;

    var osMatchers: seq<Oses.OsMatcher> := [];
    for i := 0 to |file.osParsers|
      invariant CompileRules(file.osParsers[..i], OsPattern, OsMatcherOf, compile) == Success(osMatchers)
    {
      var parser := file.osParsers[i];
      CompileRulesStep(file.osParsers, i, OsPattern, OsMatcherOf, compile);
      var regex := compile(parser.regex);
      if regex.Failure? {
        CompileRulesKeepsFailure(file.osParsers, i + 1, OsPattern, OsMatcherOf, compile);
        return Failure(RegexFailure(regex.error));
      }
      osMatchers := osMatchers + [Oses.OsMatcher(
        regex.value, parser.osReplacement, parser.osV1Replacement, parser.osV2Replacement,
        parser.osV3Replacement, parser.osV4Replacement)];
    }
    assert file.osParsers[..|file.osParsers|] == file.osParsers;

    return Success(UAParser(uaMatchers, deviceMatchers, osMatchers));
  }
}

/**
 * The standalone filter engine of the test suite (`BlockedAdsFilterEngine`
 * in tests/blockedads-core-test.js). Patterns lose one leading `||` and one
 * trailing `^`, are compiled to an unanchored case-insensitive regular
 * expression in which a remaining `^` is a start-of-input anchor, and are
 * tested against both the URL and its hostname.
 */
module TestEngine {
  import opened Wrappers
  import opened Text
  import opened Matcher
  import opened Urls
  import opened FilterSyntax
  import opened RuleLists

  /**
   * `patternToRegex`, first step: one leading `||` and then one trailing `^`
   * are removed, and nothing else.
   */
  function StripAnchors(pattern: string): (r: string)
    ensures StartsWith(pattern, "||") ==> pattern == "||" + r || pattern == "||" + r + "^"
    ensures !StartsWith(pattern, "||") ==> pattern == r || pattern == r + "^"
  {
    var a := if StartsWith(pattern, "||") then pattern[2..] else pattern;
    assert StartsWith(pattern, "||") ==> pattern == "||" + a;
    if EndsWith(a, "^") then
      assert a == a[..|a| - 1] + "^";
      a[..|a| - 1]
    else a
  }

  /**
   * The token a character of the stripped pattern becomes once escaped:
   * `*` is `.*`, `?` is `.`, `^` (left unescaped) anchors at the start, and
   * every other character, escaped or not, matches itself.
   */
  function TokenOf(c: char): Token
  {
    if c == '*' then Star
    else if c == '?' then AnyOne
    else if c == '^' then Start
    else Lit(c)
  }

  /** The escaped and converted pattern, one token per character. */
  function Tokens(s: string): (r: seq<Token>)
  {
    seq(|s|, i requires 0 <= i < |s| => TokenOf(s[i]))
  }

  /** `patternToRegex(pattern)`: the compiled regular expression, used with the `i` flag. */
  function PatternToRegex(pattern: string): seq<Token>
  {
    Tokens(StripAnchors(pattern))
  }

  /** `regex.test(s)`: an unanchored search. */
  predicate Test(regex: seq<Token>, s: string)
  {
    Search(JavaScript, regex, s)
  }

  /** The expression `createRule` stores for a network or exception rule. */
  function RegexOf(r: Rule): seq<Token>
  {
    PatternToRegex(r.pattern)
  }

  /** The fallback rules of `loadBasicRules`. */
  const BasicRules: seq<string> := [
    "||googleadservices.com^",
    "||googlesyndication.com^",
    "||doubleclick.net^",
    "||facebook.com/tr^",
    "||amazon-adsystem.com^",
    "||ads.yahoo.com^",
    "||adsystem.yahoo.com^"
  ]

  /** The inline filter list `loadFilterRules` parses. */
  const MockRules: string :=
    "\n        ! Test filter list\n        ||googleadservices.com^\n        ||doubleclick.net^\n"
    + "        ||facebook.com/tr^\n        ||amazon-adsystem.com^\n        ##.advertisement\n"
    + "        ##div[class*=\"ad\"]\n        @@||google.com/recaptcha^\n      "

  /** Scans `rules` in order: does any rule's expression match `s`? */
  method AnyMatch(rules: seq<Rule>, s: string) returns (hit: bool)
    ensures hit <==> exists r :: r in rules && Test(RegexOf(r), s)
  {
    var i := 0;
    while i < |rules|
      invariant 0 <= i <= |rules|
      invariant forall k :: 0 <= k < i ==> !Test(RegexOf(rules[k]), s)
    {
      if Test(RegexOf(rules[i]), s) {
        assert rules[i] in rules;
        return true;
      }
      i := i + 1;
    }
    forall r | r in rules ensures !Test(RegexOf(r), s) {
      var k :| 0 <= k < |rules| && rules[k] == r;
    }
    return false;
  }

  /** Scans `rules` in order: does any rule's expression match `s` or `t`? */
  method AnyMatchEither(rules: seq<Rule>, s: string, t: string) returns (hit: bool)
    ensures hit <==> exists r :: r in rules && (Test(RegexOf(r), s) || Test(RegexOf(r), t))
  {
    var i := 0;
    while i < |rules|
      invariant 0 <= i <= |rules|
      invariant forall k :: 0 <= k < i ==> !(Test(RegexOf(rules[k]), s) || Test(RegexOf(rules[k]), t))
    {
      if Test(RegexOf(rules[i]), s) || Test(RegexOf(rules[i]), t) {
        assert rules[i] in rules;
        return true;
      }
      i := i + 1;
    }
    forall r | r in rules ensures !(Test(RegexOf(r), s) || Test(RegexOf(r), t)) {
      var k :| 0 <= k < |rules| && rules[k] == r;
    }
    return false;
  }

  class FilterEngine {
    var rules: seq<Rule>
    var elementRules: seq<ElementRule>
    var exceptionRules: seq<Rule>
    var adsBlocked: nat
    var dataSaved: nat
    var isEnabled: bool
    var whitelist: set<string>
    /** `new URL(u).hostname`. */
    const hostOf: HostParser

    constructor(hostOf: HostParser)
      ensures rules == [] && elementRules == [] && exceptionRules == []
      ensures adsBlocked == 0 && dataSaved == 0
      ensures isEnabled && whitelist == {}
      ensures this.hostOf == hostOf
    {
      rules := [];
      elementRules := [];
      exceptionRules := [];
      adsBlocked := 0;
      dataSaved := 0;
      isEnabled := true;
      whitelist := {};
      this.hostOf := hostOf;
    }

    /**
     * The decision `shouldBlockUrl` takes, as one formula: blocking is on, the
     * URL's host is not whitelisted, no exception matches the URL, and some
     * network rule matches the URL or its host.
     */
    predicate Blocks(url: string)
      reads this
    {
      var domain := ExtractDomain(hostOf, url);
      isEnabled
      && domain !in whitelist
      && (forall e :: e in exceptionRules ==> !Test(RegexOf(e), url))
      && (exists r :: r in rules && (Test(RegexOf(r), url) || Test(RegexOf(r), domain)))
    }

    /** The three rule lists. */
    function Lists(): Parsed
      reads this
    {
      Parsed(rules, exceptionRules, elementRules)
    }

    /** `init()`: settings reset to enabled with an empty whitelist, then the inline list parsed. */
    method Init()
      modifies this
      ensures isEnabled && whitelist == {}
      ensures Lists() == ParseFrom(old(Lists()), Classified(Lines(MockRules)))
      ensures adsBlocked == old(adsBlocked) && dataSaved == old(dataSaved)
    {
      isEnabled := true;
      whitelist := {};
      ParseFilterRules(MockRules);
    }

    /**
     * `parseFilterRules(text)`: each kept line of `text` is appended, in
     * order, to exactly one of the three rule lists.
     */
    method ParseFilterRules(text: string)
      modifies this
      ensures Lists() == ParseFrom(old(Lists()), Classified(Lines(text)))
      ensures adsBlocked == old(adsBlocked) && dataSaved == old(dataSaved)
      ensures isEnabled == old(isEnabled) && whitelist == old(whitelist)
    {
      ParseLines(Lines(text));
    }

    /** The loop of `parseFilterRules` over the lines of the list. */
    method ParseLines(lines: seq<string>)
      modifies this
      ensures Lists() == ParseFrom(old(Lists()), Classified(lines))
      ensures adsBlocked == old(adsBlocked) && dataSaved == old(dataSaved)
      ensures isEnabled == old(isEnabled) && whitelist == old(whitelist)
    {
      var i := 0;
      ghost var ks := Classified(lines);
      while i < |lines|
        invariant 0 <= i <= |lines|
        invariant Lists() == ParseFrom(old(Lists()), ks[..i])
        invariant adsBlocked == old(adsBlocked) && dataSaved == old(dataSaved)
        invariant isEnabled == old(isEnabled) && whitelist == old(whitelist)
      {
        ParseLine(lines[i]);
        assert ks[..i + 1][..i] == ks[..i];
        i := i + 1;
      }
      assert ks[..|lines|] == ks;
    }

    /** One iteration of the `parseFilterRules` loop: the line goes where its kind says. */
    method ParseLine(line: string)
      modifies this
      ensures Lists() == ParseKind(old(Lists()), Classify(line))
      ensures adsBlocked == old(adsBlocked) && dataSaved == old(dataSaved)
      ensures isEnabled == old(isEnabled) && whitelist == old(whitelist)
    {
      match Classify(line)
      case Ignored =>
      case Exception(p) =>
        exceptionRules := exceptionRules + [Rule(p)];
      case Cosmetic(domain, selector) =>
        elementRules := elementRules + [ElementRule(domain, selector)];
      case Network(p) =>
        rules := rules + [Rule(p)];
    }

    /** `loadBasicRules()`: the seven fallback rules appended in order. */
    method LoadBasicRules()
      modifies this
      ensures rules == old(rules) + CreateRules(BasicRules)
      ensures exceptionRules == old(exceptionRules) && elementRules == old(elementRules)
      ensures adsBlocked == old(adsBlocked) && dataSaved == old(dataSaved)
      ensures isEnabled == old(isEnabled) && whitelist == old(whitelist)
    {
      PushRules(BasicRules);
    }

    /** The `for (const rule of basicRules) this.rules.push(this.createRule(rule))` loop. */
    method PushRules(patterns: seq<string>)
      modifies this
      ensures rules == old(rules) + CreateRules(patterns)
      ensures exceptionRules == old(exceptionRules) && elementRules == old(elementRules)
      ensures adsBlocked == old(adsBlocked) && dataSaved == old(dataSaved)
      ensures isEnabled == old(isEnabled) && whitelist == old(whitelist)
    {
      var i := 0;
      while i < |patterns|
        invariant 0 <= i <= |patterns|
        invariant rules == old(rules) + CreateRules(patterns[..i])
        invariant exceptionRules == old(exceptionRules) && elementRules == old(elementRules)
        invariant adsBlocked == old(adsBlocked) && dataSaved == old(dataSaved)
        invariant isEnabled == old(isEnabled) && whitelist == old(whitelist)
      {
        rules := rules + [Rule(patterns[i])];
        assert patterns[..i + 1] == patterns[..i] + [patterns[i]];
        CreateRulesSnoc(patterns[..i], patterns[i]);
        i := i + 1;
      }
      assert patterns[..|patterns|] == patterns;
    }

    /**
     * `shouldBlockUrl(url)`: disabled, whitelisted host, then exceptions
     * against the URL, then network rules against the URL or the host. Only
     * a blocking answer changes state: one more ad and the recomputed
     * `dataSaved`.
     */
    method ShouldBlockUrl(url: string) returns (blocked: bool)
      modifies this
      ensures blocked == Blocks(url)
      ensures adsBlocked == old(adsBlocked) + (if blocked then 1 else 0)
      ensures dataSaved == (if blocked then DataSavedHundredths(adsBlocked) else old(dataSaved))
      ensures rules == old(rules) && exceptionRules == old(exceptionRules) && elementRules == old(elementRules)
      ensures isEnabled == old(isEnabled) && whitelist == old(whitelist)
    {
      if !isEnabled {
        return false;
      }
      var domain := ExtractDomain(hostOf, url);
      if domain in whitelist {
        return false;
      }
      var excepted := AnyMatch(exceptionRules, url);
      if excepted {
        return false;
      }
      var hit := AnyMatchEither(rules, url, domain);
      if hit {
        adsBlocked := adsBlocked + 1;
        UpdateStats();
      }
      return hit;
    }

    /** `updateStats()`: `dataSaved` recomputed from `adsBlocked`. */
    method UpdateStats()
      modifies this
      ensures dataSaved == DataSavedHundredths(adsBlocked)
      ensures adsBlocked == old(adsBlocked)
      ensures rules == old(rules) && exceptionRules == old(exceptionRules) && elementRules == old(elementRules)
      ensures isEnabled == old(isEnabled) && whitelist == old(whitelist)
    {
      dataSaved := DataSavedHundredths(adsBlocked);
    }

    /** `addToWhitelist(domain)`: set insertion. */
    method AddToWhitelist(domain: string)
      modifies this
      ensures whitelist == old(whitelist) + {domain}
      ensures rules == old(rules) && exceptionRules == old(exceptionRules) && elementRules == old(elementRules)
      ensures isEnabled == old(isEnabled) && adsBlocked == old(adsBlocked) && dataSaved == old(dataSaved)
    {
      whitelist := whitelist + {domain};
    }

    /** `removeFromWhitelist(domain)`: set deletion. */
    method RemoveFromWhitelist(domain: string)
      modifies this
      ensures whitelist == old(whitelist) - {domain}
      ensures rules == old(rules) && exceptionRules == old(exceptionRules) && elementRules == old(elementRules)
      ensures isEnabled == old(isEnabled) && adsBlocked == old(adsBlocked) && dataSaved == old(dataSaved)
    {
      whitelist := whitelist - {domain};
    }

    /** `toggleBlocking(enabled)`: only the switch changes. */
    method ToggleBlocking(enabled: bool)
      modifies this
      ensures isEnabled == enabled
      ensures whitelist == old(whitelist)
      ensures rules == old(rules) && exceptionRules == old(exceptionRules) && elementRules == old(elementRules)
      ensures adsBlocked == old(adsBlocked) && dataSaved == old(dataSaved)
    {
      isEnabled := enabled;
    }
  }

  /** A domain rule `||d^` is stripped back to exactly `d`. */
  lemma {:induction false} StripDomainRule(d: string)
    ensures StripAnchors("||" + d + "^") == d
  {
    var p := "||" + d + "^";
    assert p[..2] == "||" && p[2..] == d + "^";
    assert (d + "^")[..|d|] == d;
  }

  /** Text without `*`, `?` or `^` compiles to literals only. */
  lemma {:induction false} TokensPlain(w: string)
    requires '*' !in w && '?' !in w && '^' !in w
    ensures Tokens(w) == Lits(w)
  {
    forall i | 0 <= i < |w| ensures Tokens(w)[i] == Lits(w)[i] {
      assert w[i] in w;
    }
  }

  lemma {:induction false} TokensConcat(x: string, y: string)
    ensures Tokens(x + y) == Tokens(x) + Tokens(y)
  {
    forall i | 0 <= i < |x| + |y| ensures Tokens(x + y)[i] == (Tokens(x) + Tokens(y))[i] {
    }
  }

  /** A domain rule `||d^` with a plain `d` compiles to the literal `d`. */
  lemma {:induction false} PlainDomainRule(d: string)
    requires '*' !in d && '?' !in d && '^' !in d
    ensures PatternToRegex("||" + d + "^") == Lits(d)
  {
    StripDomainRule(d);
    TokensPlain(d);
  }

  /**
   * A domain rule `||d^` with a plain `d` is a case-insensitive substring test:
   * it matches any text containing `d`, wherever it occurs.
   */
  lemma {:induction false} DomainRuleIsSubstringTest(d: string, s: string)
    requires '*' !in d && '?' !in d && '^' !in d
    ensures Test(PatternToRegex("||" + d + "^"), s) <==> ContainsIgnoringCase(s, d)
  {
    PlainDomainRule(d);
    SearchLiteralIff(JavaScript, d, s);
  }

  lemma {:induction false} DomainRuleFinds(d: string, s: string, i: nat)
    requires '*' !in d && '?' !in d && '^' !in d
    requires OccursAt(s, d, i)
    ensures Test(PatternToRegex("||" + d + "^"), s)
  {
    OccursGivesIgnoringCase(s, d, i);
    DomainRuleIsSubstringTest(d, s);
  }

  lemma {:induction false} DomainRuleMisses(d: string, s: string, c: char)
    requires '*' !in d && '?' !in d && '^' !in d
    requires c in d && 'a' <= c <= 'z' && c !in s && ((c as int - 32) as char) !in s
    ensures !Test(PatternToRegex("||" + d + "^"), s)
  {
    MissingCharNotContained(s, d, c);
    DomainRuleIsSubstringTest(d, s);
  }

  /** A plain domain rule matches any URL that contains the domain. */
  lemma {:induction false} DomainRuleInUrl(d: string, before: string, after: string)
    requires '*' !in d && '?' !in d && '^' !in d
    ensures Test(PatternToRegex("||" + d + "^"), before + d + after)
  {
    var s := before + d + after;
    assert s[|before|..|before| + |d|] == d;
    DomainRuleFinds(d, s, |before|);
  }

  /** The test suite's domain rule `||example.com^` matches the host itself ... */
  lemma {:induction false} ExampleDomainRuleHost()
    ensures Test(PatternToRegex("||" + "example.com" + "^"), "https://" + "example.com" + "/path")
  {
    DomainRuleInUrl("example.com", "https://", "/path");
  }

  /** ... and its subdomains ... */
  lemma {:induction false} ExampleDomainRuleSubdomain()
    ensures Test(PatternToRegex("||" + "example.com" + "^"), "https://subdomain." + "example.com" + "/path")
  {
    DomainRuleInUrl("example.com", "https://subdomain.", "/path");
  }

  /** ... but not another site. */
  lemma {:induction false} ExampleDomainRuleOther()
    ensures !Test(PatternToRegex("||" + "example.com" + "^"), "https://" + "other.com" + "/path")
  {
    assert "example.com"[1] == 'x';
    DomainRuleMisses("example.com", "https://" + "other.com" + "/path", 'x');
  }

  /** A `*` in a stripped pattern stands for any run of characters on one line. */
  lemma {:induction false} StarSearchWitness(a: string, b: string, s: string, i: nat, k: nat)
    requires OccursIgnoringCaseAt(s, a, i) && i + |a| <= k && OccursIgnoringCaseAt(s, b, k)
    requires NoTerminator(JavaScript, s, i + |a|, k)
    ensures Test(Lits(a) + [Star] + Lits(b), s)
  {
    var p := Lits(a) + [Star] + Lits(b);
    StarRunWitness(a, b, s, i, k);
    assert p == Lits(a) + ([Star] + Lits(b));
    assert Run(JavaScript, p, s, i, false);
    assert exists k: nat :: 0 <= k <= |s| && Run(JavaScript, p, s, k, false);
    SearchFromIff(JavaScript, p, s, 0);
  }

  lemma {:induction false} StarRunWitness(a: string, b: string, s: string, i: nat, k: nat)
    requires OccursIgnoringCaseAt(s, a, i) && i + |a| <= k && OccursIgnoringCaseAt(s, b, k)
    requires NoTerminator(JavaScript, s, i + |a|, k)
    ensures Run(JavaScript, Lits(a) + ([Star] + Lits(b)), s, i, false)
  {
    assert Lits(b) + [] == Lits(b);
    LitsRun(JavaScript, b, [], s, k, false);
    StarRun(JavaScript, Lits(b), s, i + |a|, false);
    LitsRun(JavaScript, a, [Star] + Lits(b), s, i, false);
  }

  /** `||a*b^` with plain `a` and `b` compiles to the literals of `a`, a `*` and the literals of `b`. */
  lemma {:induction false} StarDomainRule(a: string, b: string)
    requires '*' !in a && '?' !in a && '^' !in a
    requires '*' !in b && '?' !in b && '^' !in b
    ensures PatternToRegex("||" + (a + "*" + b) + "^") == Lits(a) + [Star] + Lits(b)
  {
    StripDomainRule(a + "*" + b);
    TokensConcat(a + "*", b);
    TokensConcat(a, "*");
    TokensPlain(a);
    TokensPlain(b);
    assert Tokens("*") == [Star];
  }

  /** `||a*b^` matches where `a` occurs, then `b` further on the same line. */
  lemma {:induction false} StarDomainRuleFinds(a: string, b: string, s: string, i: nat, k: nat)
    requires '*' !in a && '?' !in a && '^' !in a
    requires '*' !in b && '?' !in b && '^' !in b
    requires OccursAt(s, a, i) && i + |a| <= k && OccursAt(s, b, k)
    requires NoTerminator(JavaScript, s, i + |a|, k)
    ensures Test(PatternToRegex("||" + (a + "*" + b) + "^"), s)
  {
    StarDomainRule(a, b);
    OccursGivesIgnoringCase(s, a, i);
    OccursGivesIgnoringCase(s, b, k);
    StarSearchWitness(a, b, s, i, k);
  }

  /** `||a*b^` never matches a text lacking a lower-case letter of `a` in both cases. */
  lemma {:induction false} StarDomainRuleMisses(a: string, b: string, s: string, t: nat)
    requires '*' !in a && '?' !in a && '^' !in a
    requires '*' !in b && '?' !in b && '^' !in b
    requires t < |a| && 'a' <= a[t] <= 'z' && a[t] !in s && ((a[t] as int - 32) as char) !in s
    ensures !Test(PatternToRegex("||" + (a + "*" + b) + "^"), s)
  {
    StarDomainRule(a, b);
    var p := Lits(a) + [Star] + Lits(b);
    assert p[t] == Lit(a[t]);
    MissingLiteralNeverFound(JavaScript, p, s, t);
  }

  /** A rule `||a*b^` matches any URL with `a`, then a run of one line, then `b`. */
  lemma {:induction false} StarDomainRuleInUrl(a: string, b: string, before: string, between: string, after: string)
    requires '*' !in a && '?' !in a && '^' !in a
    requires '*' !in b && '?' !in b && '^' !in b
    requires NoTerminator(JavaScript, between, 0, |between|)
    ensures Test(PatternToRegex("||" + (a + "*" + b) + "^"), before + a + between + b + after)
  {
    var s := before + a + between + b + after;
    var i, k := |before|, |before| + |a| + |between|;
    assert s[i..i + |a|] == a;
    assert s[k..k + |b|] == b;
    assert forall j :: i + |a| <= j < k ==> s[j] == between[j - i - |a|];
    StarDomainRuleFinds(a, b, s, i, k);
  }

  /** The test suite's wildcard rule `||ads*.example.com^` matches the `ads.` host ... */
  lemma {:induction false} WildcardDomainRuleEmptyRun()
    ensures Test(PatternToRegex("||" + ("ads" + "*" + ".example.com") + "^"),
                 "https://" + "ads" + "" + ".example.com" + "/path")
  {
    StarDomainRuleInUrl("ads", ".example.com", "https://", "", "/path");
  }

  /** ... and the `ads123.` host ... */
  lemma {:induction false} WildcardDomainRuleDigits()
    ensures Test(PatternToRegex("||" + ("ads" + "*" + ".example.com") + "^"),
                 "https://" + "ads" + "123" + ".example.com" + "/path")
  {
    StarDomainRuleInUrl("ads", ".example.com", "https://", "123", "/path");
  }

  /** ... but not the bare domain. */
  lemma {:induction false} WildcardDomainRuleBare()
    ensures !Test(PatternToRegex("||" + ("ads" + "*" + ".example.com") + "^"), "https://" + "example.com" + "/path")
  {
    assert "ads"[1] == 'd';
    StarDomainRuleMisses("ads", ".example.com", "https://" + "example.com" + "/path", 1);
  }

  /**
   * A `^` that survives stripping after a character other than `*` anchors
   * the search at the start of the input after something was consumed, so
   * the rule matches nothing at all.
   */
  lemma {:induction false} InteriorCaretNeverMatches(pattern: string, s: string, t: nat, u: nat)
    requires t < u < |StripAnchors(pattern)|
    requires StripAnchors(pattern)[t] != '*' && StripAnchors(pattern)[t] != '^'
    requires StripAnchors(pattern)[u] == '^'
    ensures !Test(PatternToRegex(pattern), s)
  {
    var p := PatternToRegex(pattern);
    SearchFromIff(JavaScript, p, s, 0);
    forall k: nat | k <= |s| ensures !Run(JavaScript, p, s, k, false) {
      StartAfterConsumingNeverMatches(JavaScript, p, s, k, false, t, u);
    }
  }

  /** Options written after the closing `^` (`||d^$opt`) still give the rule its type ... */
  lemma {:induction false} OptionAfterCaretTyped(d: string, opt: string)
    requires '$' !in d && '$' !in opt
    ensures Rule("||" + d + "^$" + opt).Type() == OptionsType(opt)
  {
    var a := "||" + d + "^";
    assert "||" + d + "^$" + opt == a + "$" + opt + "";
    assert '$' !in a by {
      assert forall i :: 0 <= i < |a| ==> a[i] == '|' || a[i] == '^' || a[i] in d;
    }
    CharNotContained(a, '$');
    CharNotContained(opt, '$');
    RuleTypeFromOptions(a, opt, "");
  }

  /**
   * ... but the `^`, no longer trailing, is kept and anchors inside the
   * expression: such a rule blocks nothing.
   */
  lemma {:induction false} OptionAfterCaretIsDead(d: string, opt: string, s: string)
    requires d != [] && d[0] != '*' && d[0] != '^'
    requires opt == [] || opt[|opt| - 1] != '^'
    ensures !Test(RegexOf(Rule("||" + d + "^$" + opt)), s)
  {
    var p := "||" + d + "^$" + opt;
    var stripped := d + "^$" + opt;
    assert p == "||" + stripped && p[..2] == "||" && p[2..] == stripped;
    assert stripped[|stripped| - 1] != '^';
    assert StripAnchors(p) == stripped;
    assert stripped[0] == d[0] && stripped[|d|] == '^';
    InteriorCaretNeverMatches(p, s, 0, |d|);
  }

  /** The test suite's `||ads.com^$script` is typed `script` but blocks nothing. */
  lemma {:induction false} ScriptOptionRuleIsDead(s: string)
    ensures Rule("||" + "ads.com" + "^$" + "script").Type() == Script
    ensures !Test(RegexOf(Rule("||" + "ads.com" + "^$" + "script")), s)
  {
    OptionAfterCaretTyped("ads.com", "script");
    ContainsItself("script");
    OptionAfterCaretIsDead("ads.com", "script", s);
  }

  /** An empty stripped pattern matches every input: an `@@`, `@@||` or `@@^` line unblocks everything. */
  lemma {:induction false} EmptyPatternMatchesAll(pattern: string, s: string)
    requires StripAnchors(pattern) == []
    ensures Test(PatternToRegex(pattern), s)
  {
    assert Run(JavaScript, [], s, 0, false);
  }

  /** With no network rules nothing is blocked, whatever else the engine holds. */
  lemma {:induction false} NoRulesBlockNothing(e: FilterEngine, url: string)
    requires e.rules == []
    ensures !e.Blocks(url)
  {
  }

  /** A whitelisted host is never blocked, whatever the rules. */
  lemma {:induction false} WhitelistedHostNeverBlocked(e: FilterEngine, url: string)
    requires ExtractDomain(e.hostOf, url) in e.whitelist
    ensures !e.Blocks(url)
  {
  }

  /** Unparsable input is tested as it is: the rules see the raw text as URL and as host. */
  lemma {:induction false} UnparsableUrlTestedRaw(e: FilterEngine, url: string)
    requires e.hostOf(url).None? && e.isEnabled && url !in e.whitelist
    requires forall x :: x in e.exceptionRules ==> !Test(RegexOf(x), url)
    ensures e.Blocks(url) <==> exists r :: r in e.rules && Test(RegexOf(r), url)
  {
  }
}

/**
 * The extension's own filter engine (`BlockedAdsFilterEngine` in
 * blockedads-mvp-chrome/blockedads-core.js). It parses filter lists like the
 * test suite's engine, but compiles a pattern with every character except
 * `*` and `?` escaped, anchors the expression at both ends and tests it
 * against the URL only. It also turns its network rules into declarative
 * block rules.
 */
module ChromeEngine {
  import opened Wrappers
  import opened Text
  import opened Matcher
  import opened Urls
  import opened FilterSyntax
  import opened RuleLists
  import opened Dnr

  /**
   * The token one character of a pattern becomes: `*` is `.*`, `?` is `.`,
   * and every other character (`^` and `|` included, which are escaped)
   * matches itself.
   */
  function TokenOf(c: char): Token
  {
    if c == '*' then Star
    else if c == '?' then AnyOne
    else Lit(c)
  }

  /** `patternToRegex(pattern)`: one token per character, used as `^...$` with the `i` flag. */
  function PatternToRegex(pattern: string): (r: seq<Token>)
    ensures |r| == |pattern|
    ensures forall i :: 0 <= i < |pattern| ==>
      && (r[i] == Star <==> pattern[i] == '*')
      && (r[i] == AnyOne <==> pattern[i] == '?')
      && (r[i].Lit? <==> pattern[i] != '*' && pattern[i] != '?')
      && (r[i].Lit? ==> r[i].c == pattern[i])
  {
    seq(|pattern|, i requires 0 <= i < |pattern| => TokenOf(pattern[i]))
  }

  /** `regex.test(s)` on an expression anchored with `^` and `$`: the whole of `s` must match. */
  predicate Test(regex: seq<Token>, s: string)
  {
    FullMatch(JavaScript, regex, s)
  }

  /** The expression `createRule` stores for a network or exception rule. */
  function RegexOf(r: Rule): seq<Token>
  {
    PatternToRegex(r.pattern)
  }

  /** The fallback rules of `loadBasicRules`. */
  const BasicRules: seq<string> := [
    "||googleadservices.com^",
    "||googlesyndication.com^",
    "||doubleclick.net^",
    "||facebook.com/tr^",
    "||amazon-adsystem.com^",
    "||adsystem.amazon.com^",
    "||ads.yahoo.com^",
    "||adsystem.yahoo.com^"
  ]

  /** The resource types of every rule `createDeclarativeRules` emits. */
  const EmittedTypes: seq<ResourceType> := [MainFrame, SubFrame, ResourceType.Script, ResourceType.Image, ResourceType.Stylesheet, XmlHttpRequest]

  /** The ids `toggleBlocking(false)` removes: `1` to `1000`. */
  function DisableIds(): set<nat>
  {
    IdRange(1, 1000)
  }

  /** The ids from `lo` to `hi`, both included. */
  function IdRange(lo: nat, hi: nat): (r: set<nat>)
    ensures forall i :: i in r <==> lo <= i <= hi
    decreases hi + 1 - lo
  {
    if lo > hi then {} else {lo} + IdRange(lo + 1, hi)
  }

  /** The block rules emitted for the admitted patterns, numbered from 1 in order. */
  function DeclarativeRules(patterns: seq<string>): (r: seq<BlockRule>)
    ensures |r| == |patterns|
    ensures forall i :: 0 <= i < |patterns| ==>
      r[i].id == i + 1 && r[i].priority == 1 && r[i].condition == UrlFilter(patterns[i])
  {
    seq(|patterns|, i requires 0 <= i < |patterns| =>
      BlockRule(i + 1, 1, UrlFilter(patterns[i]), EmittedTypes))
  }

  lemma {:induction false} DeclarativeRulesSnoc(patterns: seq<string>, p: string)
    ensures DeclarativeRules(patterns + [p])
      == DeclarativeRules(patterns) + [BlockRule(|patterns| + 1, 1, UrlFilter(p), EmittedTypes)]
  {
  }

  /** Scans `rules` in order: does any rule's expression match the whole of `s`? */
  method AnyMatch(rules: seq<Rule>, s: string) returns (hit: bool)
    ensures hit <==> exists r :: r in rules && Test(RegexOf(r), s)
  {
    var i := 0;
    while i < |rules|
      invariant 0 <= i <= |rules|
      invariant forall k :: 0 <= k < i ==> !Test(RegexOf(rules[k]), s)
    {
      if Test(RegexOf(rules[i]), s) {
        return true;
      }
      i := i + 1;
    }
    return false;
  }

  /** What `shouldBlockUrl` consults: the switch, the whitelist, both rule lists and the host parser. */
  datatype Decider = Decider(
    isEnabled: bool, whitelist: set<string>, exceptionRules: seq<Rule>, rules: seq<Rule>, hostOf: HostParser)

  /**
   * The decision `shouldBlockUrl` takes, as one formula: blocking is on, the
   * URL's host is not whitelisted, no exception matches the whole URL, and
   * some network rule matches the whole URL.
   */
  predicate Blocks(c: Decider, url: string)
  {
    c.isEnabled && Unexempted(c, url) && (exists r :: r in c.rules && Test(RegexOf(r), url))
  }

  /** The URL's host is not whitelisted and no exception matches the whole URL. */
  predicate Unexempted(c: Decider, url: string)
  {
    ExtractDomain(c.hostOf, url) !in c.whitelist
    && (forall e :: e in c.exceptionRules ==> !Test(RegexOf(e), url))
  }

  /** The patterns of the rules among `rs` whose own pattern `shouldBlockUrl` blocks, in order. */
  function Admitted(c: Decider, rs: seq<Rule>): seq<string>
  {
    if rs == [] then []
    else
      var last := rs[|rs| - 1];
      Admitted(c, rs[..|rs| - 1]) + (if Blocks(c, last.pattern) then [last.pattern] else [])
  }

  class FilterEngine {
    var rules: seq<Rule>
    var elementRules: seq<ElementRule>
    var exceptionRules: seq<Rule>
    var adsBlocked: nat
    var dataSaved: nat
    var isEnabled: bool
    var whitelist: set<string>
    /** `new URL(u).hostname`. */
    const hostOf: HostParser

    constructor(hostOf: HostParser)
      ensures rules == [] && elementRules == [] && exceptionRules == []
      ensures adsBlocked == 0 && dataSaved == 0
      ensures isEnabled && whitelist == {}
      ensures this.hostOf == hostOf
    {
      rules := [];
      elementRules := [];
      exceptionRules := [];
      adsBlocked := 0;
      dataSaved := 0;
      isEnabled := true;
      whitelist := {};
      this.hostOf := hostOf;
    }

    /** What `shouldBlockUrl` consults. */
    function Decision(): Decider
      reads this`isEnabled, this`whitelist, this`exceptionRules, this`rules
    {
      Decider(isEnabled, whitelist, exceptionRules, rules, hostOf)
    }

    /** The three rule lists. */
    function Lists(): Parsed
      reads this
    {
      Parsed(rules, exceptionRules, elementRules)
    }

    /**
     * `init()`: the stored settings, then the packaged filter list (`None`
     * when fetching it fails, which loads the fallback rules instead), then
     * the declarative rules are installed. Returns the rules added.
     */
    method Init(storedEnabled: bool, storedWhitelist: seq<string>, fetched: Option<string>)
      returns (added: seq<BlockRule>)
      modifies this
      ensures isEnabled == storedEnabled
      ensures whitelist == set d | d in storedWhitelist
      ensures fetched.Some? ==> Lists() == ParseFrom(old(Lists()), Classified(Lines(fetched.value)))
      ensures fetched.None? ==> Lists() == old(Lists()).(rules := old(rules) + CreateRules(BasicRules))
      ensures added == DeclarativeRules(Admitted(Decision(), rules))
      ensures adsBlocked == old(adsBlocked) + |added|
      ensures dataSaved == (if |added| == 0 then old(dataSaved) else DataSavedHundredths(adsBlocked))
    {
      LoadSettings(storedEnabled, storedWhitelist);
      LoadFilterRules(fetched);
      added := CreateDeclarativeRules();
    }

    /** `loadSettings()`: the switch and the whitelist as stored. */
    method LoadSettings(storedEnabled: bool, storedWhitelist: seq<string>)
      modifies this
      ensures isEnabled == storedEnabled
      ensures whitelist == set d | d in storedWhitelist
      ensures Lists() == old(Lists())
      ensures adsBlocked == old(adsBlocked) && dataSaved == old(dataSaved)
    {
      isEnabled := storedEnabled;
      whitelist := set d | d in storedWhitelist;
    }

    /** `loadFilterRules()`: the fetched list is parsed; a failed fetch loads the fallback rules. */
    method LoadFilterRules(fetched: Option<string>)
      modifies this
      ensures fetched.Some? ==> Lists() == ParseFrom(old(Lists()), Classified(Lines(fetched.value)))
      ensures fetched.None? ==> Lists() == old(Lists()).(rules := old(rules) + CreateRules(BasicRules))
      ensures adsBlocked == old(adsBlocked) && dataSaved == old(dataSaved)
      ensures isEnabled == old(isEnabled) && whitelist == old(whitelist)
    {
      match fetched
      case Some(text) => ParseFilterRules(text);
      case None => LoadBasicRules();
    }

    /**
     * `parseFilterRules(text)`: each kept line of `text` is appended, in
     * order, to exactly one of the three rule lists.
     */
    method ParseFilterRules(text: string)
      modifies this
      ensures Lists() == ParseFrom(old(Lists()), Classified(Lines(text)))
      ensures adsBlocked == old(adsBlocked) && dataSaved == old(dataSaved)
      ensures isEnabled == old(isEnabled) && whitelist == old(whitelist)
    {
      ParseLines(Lines(text));
    }

    /** The loop of `parseFilterRules` over the lines of the list. */
    method ParseLines(lines: seq<string>)
      modifies this
      ensures Lists() == ParseFrom(old(Lists()), Classified(lines))
      ensures adsBlocked == old(adsBlocked) && dataSaved == old(dataSaved)
      ensures isEnabled == old(isEnabled) && whitelist == old(whitelist)
    {
      var i := 0;
      ghost var ks := Classified(lines);
      while i < |lines|
        invariant 0 <= i <= |lines|
        invariant Lists() == ParseFrom(old(Lists()), ks[..i])
        invariant adsBlocked == old(adsBlocked) && dataSaved == old(dataSaved)
        invariant isEnabled == old(isEnabled) && whitelist == old(whitelist)
      {
        ParseLine(lines[i]);
        assert ks[..i + 1][..i] == ks[..i];
        i := i + 1;
      }
      assert ks[..|lines|] == ks;
    }

    /** One iteration of the `parseFilterRules` loop: the line goes where its kind says. */
    method ParseLine(line: string)
      modifies this
      ensures Lists() == ParseKind(old(Lists()), Classify(line))
      ensures adsBlocked == old(adsBlocked) && dataSaved == old(dataSaved)
      ensures isEnabled == old(isEnabled) && whitelist == old(whitelist)
    {
      match Classify(line)
      case Ignored =>
      case Exception(p) =>
        exceptionRules := exceptionRules + [Rule(p)];
      case Cosmetic(domain, selector) =>
        elementRules := elementRules + [ElementRule(domain, selector)];
      case Network(p) =>
        rules := rules + [Rule(p)];
    }

    /** `loadBasicRules()`: the eight fallback rules appended in order. */
    method LoadBasicRules()
      modifies this
      ensures rules == old(rules) + CreateRules(BasicRules)
      ensures exceptionRules == old(exceptionRules) && elementRules == old(elementRules)
      ensures adsBlocked == old(adsBlocked) && dataSaved == old(dataSaved)
      ensures isEnabled == old(isEnabled) && whitelist == old(whitelist)
    {
      var i := 0;
      while i < |BasicRules|
        invariant 0 <= i <= |BasicRules|
        invariant rules == old(rules) + CreateRules(BasicRules[..i])
        invariant exceptionRules == old(exceptionRules) && elementRules == old(elementRules)
        invariant adsBlocked == old(adsBlocked) && dataSaved == old(dataSaved)
        invariant isEnabled == old(isEnabled) && whitelist == old(whitelist)
      {
        rules := rules + [Rule(BasicRules[i])];
        assert BasicRules[..i + 1] == BasicRules[..i] + [BasicRules[i]];
        CreateRulesSnoc(BasicRules[..i], BasicRules[i]);
        i := i + 1;
      }
      assert BasicRules[..|BasicRules|] == BasicRules;
    }

    /**
     * `createDeclarativeRules()`: one block rule per network rule whose own
     * pattern `shouldBlockUrl` blocks, numbered 1, 2, 3, ... Every emitted
     * rule was counted as a blocked ad on the way.
     */
    method CreateDeclarativeRules() returns (out: seq<BlockRule>)
      modifies this`adsBlocked, this`dataSaved
      ensures out == DeclarativeRules(Admitted(Decision(), rules))
      ensures adsBlocked == old(adsBlocked) + |out|
      ensures dataSaved == (if |out| == 0 then old(dataSaved) else DataSavedHundredths(adsBlocked))
    {
      out := [];
      var i := 0;
      ghost var c := Decision();
      while i < |rules|
        invariant 0 <= i <= |rules|
        invariant Decision() == c
        invariant out == DeclarativeRules(Admitted(c, rules[..i]))
        invariant adsBlocked == old(adsBlocked) + |out|
        invariant dataSaved == (if |out| == 0 then old(dataSaved) else DataSavedHundredths(adsBlocked))
      {
        EmitStep(c, rules, i);
        out := EmitIfBlocked(out, rules[i].pattern);
        i := i + 1;
      }
      assert rules[..|rules|] == rules;
    }

    /** One iteration of the `createDeclarativeRules` loop: `id` is one more than the rules emitted so far. */
    method EmitIfBlocked(out: seq<BlockRule>, pattern: string) returns (next: seq<BlockRule>)
      modifies this`adsBlocked, this`dataSaved
      ensures next == out + (if Blocks(old(Decision()), pattern)
                             then [BlockRule(|out| + 1, 1, UrlFilter(pattern), EmittedTypes)] else [])
      ensures adsBlocked == old(adsBlocked) + |next| - |out|
      ensures dataSaved == (if |next| == |out| then old(dataSaved) else DataSavedHundredths(adsBlocked))
    {
      var id := |out| + 1;
      var blocked := ShouldBlockUrl(pattern);
      next := out;
      if blocked {
        next := next + [BlockRule(id, 1, UrlFilter(pattern), EmittedTypes)];
      }
    }

    /**
     * `shouldBlockUrl(url)`: disabled, whitelisted host, then exceptions,
     * then network rules, each expression against the whole URL. Only a
     * blocking answer changes state: one more ad and the recomputed
     * `dataSaved`.
     */
    method ShouldBlockUrl(url: string) returns (blocked: bool)
      modifies this`adsBlocked, this`dataSaved
      ensures blocked == Blocks(Decision(), url)
      ensures adsBlocked == old(adsBlocked) + (if blocked then 1 else 0)
      ensures dataSaved == (if blocked then DataSavedHundredths(adsBlocked) else old(dataSaved))
    {
      if !isEnabled {
        return false;
      }
      var domain := ExtractDomain(hostOf, url);
      if domain in whitelist {
        return false;
      }
      var excepted := AnyMatch(exceptionRules, url);
      if excepted {
        return false;
      }
      var hit := AnyMatch(rules, url);
      if hit {
        adsBlocked := adsBlocked + 1;
        UpdateStats();
      }
      return hit;
    }

    /** `updateStats()`: `dataSaved` recomputed from `adsBlocked`. */
    method UpdateStats()
      modifies this`dataSaved
      ensures dataSaved == DataSavedHundredths(adsBlocked)
    {
      dataSaved := DataSavedHundredths(adsBlocked);
    }

    /**
     * `toggleBlocking(enabled)`: the switch is set; switching on installs
     * the declarative rules again, switching off removes ids 1 to 1000.
     */
    method ToggleBlocking(enabled: bool) returns (update: RulesUpdate)
      modifies this
      ensures isEnabled == enabled && whitelist == old(whitelist)
      ensures Lists() == old(Lists())
      ensures enabled ==> update == RulesUpdate(DeclarativeRules(Admitted(Decision(), rules)), {})
      ensures enabled ==> adsBlocked == old(adsBlocked) + |update.addRules|
      ensures enabled ==> dataSaved == (if |update.addRules| == 0 then old(dataSaved) else DataSavedHundredths(adsBlocked))
      ensures !enabled ==> update == RulesUpdate([], DisableIds())
      ensures !enabled ==> adsBlocked == old(adsBlocked) && dataSaved == old(dataSaved)
    {
      isEnabled := enabled;
      if enabled {
        var added := CreateDeclarativeRules();
        update := RulesUpdate(added, {});
      } else {
        update := RulesUpdate([], DisableIds());
      }
    }

    /** `addToWhitelist(domain)`: set insertion. */
    method AddToWhitelist(domain: string)
      modifies this
      ensures whitelist == old(whitelist) + {domain}
      ensures Lists() == old(Lists())
      ensures isEnabled == old(isEnabled) && adsBlocked == old(adsBlocked) && dataSaved == old(dataSaved)
    {
      whitelist := whitelist + {domain};
    }

    /** `removeFromWhitelist(domain)`: set deletion. */
    method RemoveFromWhitelist(domain: string)
      modifies this
      ensures whitelist == old(whitelist) - {domain}
      ensures Lists() == old(Lists())
      ensures isEnabled == old(isEnabled) && adsBlocked == old(adsBlocked) && dataSaved == old(dataSaved)
    {
      whitelist := whitelist - {domain};
    }
  }

  /** From position `i` on, the expression of a pattern matches the rest of the pattern's own text. */
  lemma {:induction false} SelfMatchFrom(pattern: string, i: nat)
    requires i <= |pattern|
    ensures Run(JavaScript, PatternToRegex(pattern)[i..], pattern, i, true)
    decreases |pattern| - i
  {
    var t := PatternToRegex(pattern)[i..];
    if i < |pattern| {
      SelfMatchFrom(pattern, i + 1);
      assert t[1..] == PatternToRegex(pattern)[i + 1..];
      var c := pattern[i];
      assert t[0] == TokenOf(c);
      if c == '*' {
        assert Run(JavaScript, t, pattern, i + 1, true);
      }
    } else {
      assert t == [];
    }
  }

  /** Every rule's expression matches its own pattern text (`*` and `?` match themselves). */
  lemma {:induction false} SelfMatch(pattern: string)
    ensures Test(PatternToRegex(pattern), pattern)
  {
    SelfMatchFrom(pattern, 0);
    assert PatternToRegex(pattern)[0..] == PatternToRegex(pattern);
  }

  /** A pattern without `*` and `?` compiles to its own characters as literals. */
  lemma {:induction false} PlainPatternIsLiteral(pattern: string)
    requires '*' !in pattern && '?' !in pattern
    ensures PatternToRegex(pattern) == Lits(pattern)
  {
    forall i | 0 <= i < |pattern| ensures PatternToRegex(pattern)[i] == Lits(pattern)[i] {
      assert pattern[i] in pattern;
    }
  }

  /**
   * A pattern without `*` and `?` matches exactly the strings equal to its
   * text up to ASCII case: `||`, `|` and `^` are ordinary characters.
   */
  lemma {:induction false} PlainPatternMatchesOnlyItself(pattern: string, s: string)
    requires '*' !in pattern && '?' !in pattern
    ensures Test(PatternToRegex(pattern), s) <==> EqualsIgnoringCase(s, pattern)
  {
    PlainPatternIsLiteral(pattern);
    FullMatchLiteralIff(JavaScript, pattern, s);
  }

  /** A domain rule `||d^` matches only text that itself starts with `|`: never a web URL. */
  lemma {:induction false} DomainRuleNeedsBar(d: string, s: string)
    requires s == [] || s[0] != '|'
    ensures !Test(PatternToRegex("||" + d + "^"), s)
  {
    var p := PatternToRegex("||" + d + "^");
    assert p[0] == Lit('|');
    if s != [] {
      assert !SameIgnoringCase('|', s[0]);
    }
  }

  /** The test suite's `||example.com^` does not block `https://example.com/path` in this engine. */
  lemma {:induction false} ExampleDomainRuleMissesHost()
    ensures !Test(PatternToRegex("||" + "example.com" + "^"), "https://" + "example.com" + "/path")
  {
    var s := "https://" + "example.com" + "/path";
    assert s[0] == 'h';
    DomainRuleNeedsBar("example.com", s);
  }

  /**
   * With blocking on, and no rule's pattern whitelisted or matched by an
   * exception, every network rule is emitted: each rule matches its own
   * pattern.
   */
  lemma {:induction false} EveryRuleAdmitted(c: Decider, rs: seq<Rule>)
    requires c.isEnabled
    requires forall r :: r in rs ==> r in c.rules
    requires forall r :: r in rs ==> Unexempted(c, r.pattern)
    ensures |Admitted(c, rs)| == |rs|
    ensures forall i :: 0 <= i < |rs| ==> Admitted(c, rs)[i] == rs[i].pattern
  {
    if rs != [] {
      var init, last := rs[..|rs| - 1], rs[|rs| - 1];
      assert forall r :: r in init ==> r in rs;
      EveryRuleAdmitted(c, init);
      SelfMatch(last.pattern);
      assert last in rs && last in c.rules && Test(RegexOf(last), last.pattern);
      assert Blocks(c, last.pattern);
      var a := Admitted(c, init);
      assert Admitted(c, rs) == a + [last.pattern];
      forall i | 0 <= i < |rs| ensures Admitted(c, rs)[i] == rs[i].pattern {
        if i < |init| {
          assert a[i] == init[i].pattern;
        }
      }
    }
  }

  /** Only rules of the list whose own pattern is blocked are admitted, each at most once per occurrence. */
  lemma {:induction false} AdmittedSound(c: Decider, rs: seq<Rule>)
    ensures |Admitted(c, rs)| <= |rs|
    ensures forall p :: p in Admitted(c, rs) ==> Blocks(c, p) && Rule(p) in rs
  {
    if rs != [] {
      var init := rs[..|rs| - 1];
      AdmittedSound(c, init);
      assert forall r :: r in init ==> r in rs;
    }
  }

  /** One more rule is admitted exactly when its own pattern is blocked. */
  lemma {:induction false} AdmittedStep(c: Decider, rs: seq<Rule>, i: nat)
    requires i < |rs|
    ensures Admitted(c, rs[..i + 1])
      == Admitted(c, rs[..i]) + (if Blocks(c, rs[i].pattern) then [rs[i].pattern] else [])
  {
    assert rs[..i + 1][..i] == rs[..i];
  }

  /** The rules emitted for one more rule: one more block rule, numbered next, exactly when it is admitted. */
  lemma {:induction false} EmitStep(c: Decider, rs: seq<Rule>, i: nat)
    requires i < |rs|
    ensures DeclarativeRules(Admitted(c, rs[..i + 1]))
      == DeclarativeRules(Admitted(c, rs[..i]))
         + (if Blocks(c, rs[i].pattern)
            then [BlockRule(|Admitted(c, rs[..i])| + 1, 1, UrlFilter(rs[i].pattern), EmittedTypes)] else [])
  {
    AdmittedStep(c, rs, i);
    DeclarativeRulesSnoc(Admitted(c, rs[..i]), rs[i].pattern);
  }

  /** Disabled, the engine emits no declarative rule at all. */
  lemma {:induction false} DisabledAdmitsNothing(c: Decider, rs: seq<Rule>)
    requires !c.isEnabled
    ensures Admitted(c, rs) == []
  {
    if rs != [] {
      DisabledAdmitsNothing(c, rs[..|rs| - 1]);
    }
  }

  /** Emitted ids are 1, 2, 3, ... in order: consecutive and so pairwise distinct. */
  lemma {:induction false} DeclarativeIdsConsecutive(patterns: seq<string>)
    ensures forall i :: 0 <= i < |patterns| ==> DeclarativeRules(patterns)[i].id == i + 1
    ensures forall i, j :: 0 <= i < j < |patterns| ==> DeclarativeRules(patterns)[i].id < DeclarativeRules(patterns)[j].id
    ensures forall i :: 0 <= i < |patterns| ==> DeclarativeRules(patterns)[i].condition == UrlFilter(patterns[i])
  {
  }

  /** A whitelisted host is never blocked, whatever the rules. */
  lemma {:induction false} WhitelistedHostNeverBlocked(c: Decider, url: string)
    requires ExtractDomain(c.hostOf, url) in c.whitelist
    ensures !Blocks(c, url)
  {
  }
}

/**
 * The rule objects and the three rule lists that the `parseFilterRules` loop
 * of both JavaScript engine copies (the test suite's and the extension's
 * `blockedads-core.js`) builds: network rules, exception rules and
 * element-hiding rules, each list in input order.
 */
module RuleLists {
  import opened FilterSyntax

  /**
   * A network or exception rule object (`createRule(pattern)`). Its regular
   * expression and its type are computed from the pattern when the object is
   * created and never change, so they are functions of the pattern: the type
   * here, the expression in each engine (the engines compile differently).
   */
  datatype Rule = Rule(pattern: string)
  {
    function Type(): RuleType
    {
      GetRuleType(pattern)
    }
  }

  /**
   * An element-hiding rule object (`createElementRule(rule)`), from the halves
   * of its `##` split with the domain already defaulted to `*`.
   */
  datatype ElementRule = ElementRule(domain: string, selector: string)

  /** The rule objects of a list of patterns, in order. */
  function CreateRules(patterns: seq<string>): (r: seq<Rule>)
    ensures |r| == |patterns|
    ensures forall i :: 0 <= i < |patterns| ==> r[i].pattern == patterns[i]
  {
    if patterns == [] then []
    else CreateRules(patterns[..|patterns| - 1]) + [Rule(patterns[|patterns| - 1])]
  }

  lemma {:induction false} CreateRulesSnoc(patterns: seq<string>, p: string)
    ensures CreateRules(patterns + [p]) == CreateRules(patterns) + [Rule(p)]
  {
    assert (patterns + [p])[..|patterns|] == patterns;
  }

  /** The element-hiding rule objects of a list of (domain, selector) pairs, in order. */
  function CreateElementRules(pairs: seq<(string, string)>): (r: seq<ElementRule>)
    ensures |r| == |pairs|
    ensures forall i :: 0 <= i < |pairs| ==> r[i].domain == pairs[i].0 && r[i].selector == pairs[i].1
  {
    if pairs == [] then []
    else
      var last := pairs[|pairs| - 1];
      CreateElementRules(pairs[..|pairs| - 1]) + [ElementRule(last.0, last.1)]
  }

  lemma {:induction false} CreateElementRulesSnoc(pairs: seq<(string, string)>, domain: string, selector: string)
    ensures CreateElementRules(pairs + [(domain, selector)])
      == CreateElementRules(pairs) + [ElementRule(domain, selector)]
  {
    assert (pairs + [(domain, selector)])[..|pairs|] == pairs;
  }

  /** The three rule lists that parsing a sequence of lines produces. */
  datatype Parsed = Parsed(rules: seq<Rule>, exceptionRules: seq<Rule>, elementRules: seq<ElementRule>)

  /** What one line of the given kind adds: the list of its kind grows by one rule, the others stay. */
  function ParseKind(acc: Parsed, kind: LineKind): (r: Parsed)
    ensures kind.Ignored? ==> r == acc
    ensures kind.Network? ==> r.rules == acc.rules + [Rule(kind.pattern)]
    ensures kind.Exception? ==> r.exceptionRules == acc.exceptionRules + [Rule(kind.pattern)]
    ensures kind.Cosmetic? ==> r.elementRules == acc.elementRules + [ElementRule(kind.domain, kind.selector)]
    ensures !kind.Network? ==> r.rules == acc.rules
    ensures !kind.Exception? ==> r.exceptionRules == acc.exceptionRules
    ensures !kind.Cosmetic? ==> r.elementRules == acc.elementRules
  {
    match kind
    case Ignored => acc
    case Network(p) => acc.(rules := acc.rules + [Rule(p)])
    case Exception(p) => acc.(exceptionRules := acc.exceptionRules + [Rule(p)])
    case Cosmetic(d, sel) => acc.(elementRules := acc.elementRules + [ElementRule(d, sel)])
  }

  /** The lists after the `parseFilterRules` loop has added the lines of kinds `ks`, in order, to `acc`. */
  function ParseFrom(acc: Parsed, ks: seq<LineKind>): Parsed
  {
    if ks == [] then acc
    else ParseKind(ParseFrom(acc, ks[..|ks| - 1]), ks[|ks| - 1])
  }

  /**
   * The loop's result, described list by list: each list keeps what it held
   * and gains the rules of its own kind of line, in input order, and
   * nothing else.
   */
  lemma {:induction false} ParseFromPartition(acc: Parsed, ks: seq<LineKind>)
    ensures ParseFrom(acc, ks).rules == acc.rules + CreateRules(NetworkPatterns(ks))
    ensures ParseFrom(acc, ks).exceptionRules == acc.exceptionRules + CreateRules(ExceptionPatterns(ks))
    ensures ParseFrom(acc, ks).elementRules == acc.elementRules + CreateElementRules(CosmeticPairs(ks))
  {
    ParseFromRules(acc, ks);
    ParseFromExceptions(acc, ks);
    ParseFromElements(acc, ks);
  }

  lemma {:induction false} ParseFromRules(acc: Parsed, ks: seq<LineKind>)
    ensures ParseFrom(acc, ks).rules == acc.rules + CreateRules(NetworkPatterns(ks))
  {
    if ks != [] {
      var init, k := ks[..|ks| - 1], ks[|ks| - 1];
      ParseFromRules(acc, init);
      assert ParseFrom(acc, ks) == ParseKind(ParseFrom(acc, init), k);
      if k.Network? {
        CreateRulesSnoc(NetworkPatterns(init), k.pattern);
      } else {
        assert NetworkPatterns(ks) == NetworkPatterns(init);
      }
    }
  }

  lemma {:induction false} ParseFromExceptions(acc: Parsed, ks: seq<LineKind>)
    ensures ParseFrom(acc, ks).exceptionRules == acc.exceptionRules + CreateRules(ExceptionPatterns(ks))
  {
    if ks != [] {
      var init, k := ks[..|ks| - 1], ks[|ks| - 1];
      ParseFromExceptions(acc, init);
      assert ParseFrom(acc, ks) == ParseKind(ParseFrom(acc, init), k);
      if k.Exception? {
        CreateRulesSnoc(ExceptionPatterns(init), k.pattern);
      } else {
        assert ExceptionPatterns(ks) == ExceptionPatterns(init);
      }
    }
  }

  lemma {:induction false} ParseFromElements(acc: Parsed, ks: seq<LineKind>)
    ensures ParseFrom(acc, ks).elementRules == acc.elementRules + CreateElementRules(CosmeticPairs(ks))
  {
    if ks != [] {
      var init, k := ks[..|ks| - 1], ks[|ks| - 1];
      ParseFromElements(acc, init);
      assert ParseFrom(acc, ks) == ParseKind(ParseFrom(acc, init), k);
      if k.Cosmetic? {
        CreateElementRulesSnoc(CosmeticPairs(init), k.domain, k.selector);
      } else {
        assert CosmeticPairs(ks) == CosmeticPairs(init);
      }
    }
  }

  /** `dataSaved`, in hundredths of a megabyte: 0.05 MB per blocked ad, rounded to two decimals. */
  function DataSavedHundredths(adsBlocked: nat): nat
  {
    5 * adsBlocked
  }
}

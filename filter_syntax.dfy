/**
 * The Adblock filter-list line syntax as the JavaScript parsers read it. The
 * same classification appears in the test engine, the extension's core
 * engine and the background worker: every line is trimmed, then skipped
 * (empty, `!` comment, `[` header), or read as an exception (`@@`, tested
 * first), an element-hiding rule (contains `##`) or a network rule.
 */
module FilterSyntax {
  import opened Wrappers
  import opened Text

  /** A trimmed line that no parser keeps: empty, a `!` comment or a `[...]` header. */
  predicate IsIgnored(t: string)
  {
    t == [] || StartsWith(t, "!") || StartsWith(t, "[")
  }

  /** `domain || '*'`: an empty domain stands for every site. */
  function DomainKey(domain: string): (k: string)
    ensures k != []
    ensures domain != [] ==> k == domain
    ensures domain == [] ==> k == "*"
  {
    if domain == [] then "*" else domain
  }

  /** The kind of one filter line, with the fields each parser keeps. */
  datatype LineKind =
    | Ignored
    | Exception(pattern: string)
    | Cosmetic(domain: string, selector: string)
    | Network(pattern: string)

  /**
   * `const [domain, selector] = t.split('##')`: the domain key (the text
   * before the first `##`, or `*`) and the text between the first and
   * second `##`.
   */
  function CosmeticParts(t: string): (string, string)
    requires Contains(t, "##")
  {
    (DomainKey(FirstField(t, "##")), SecondField(t, "##"))
  }

  /** The classification of one raw line. */
  function Classify(line: string): LineKind
  {
    var t := TrimJs(line);
    if IsIgnored(t) then Ignored
    else if StartsWith(t, "@@") then Exception(t[2..])
    else if Contains(t, "##") then Cosmetic(CosmeticParts(t).0, CosmeticParts(t).1)
    else Network(t)
  }

  /**
   * What each kind says about the trimmed line it came from: an exception
   * is `@@` followed by its pattern, a network rule is the whole line, and
   * an element-hiding rule starts with its domain, `##` and its selector,
   * neither of which contains `##`.
   */
  lemma {:induction false} ClassifyInverse(line: string)
    ensures var t := TrimJs(line);
      match Classify(line)
      case Ignored => IsIgnored(t)
      case Exception(p) => t == "@@" + p
      case Network(p) =>
        p == t && !IsIgnored(t) && !StartsWith(t, "@@") && !Contains(t, "##")
      case Cosmetic(d, sel) =>
        !IsIgnored(t) && !StartsWith(t, "@@")
        && StartsWith(t, FirstField(t, "##") + "##" + sel)
        && d == DomainKey(FirstField(t, "##"))
        && !Contains(FirstField(t, "##"), "##") && !Contains(sel, "##")
  {
    var t := TrimJs(line);
    if !IsIgnored(t) && StartsWith(t, "@@") {
      assert t == t[..2] + t[2..];
    } else if !IsIgnored(t) && Contains(t, "##") {
      FieldsLayout(t, "##");
    }
  }

  /**
   * `@@` is tested before `##`: a trimmed `@@p` is an exception for `p`
   * whatever `p` contains, so `@@a##b` is an exception for `a##b`.
   */
  lemma {:induction false} ExceptionTestedFirst(p: string)
    requires p == [] || !IsJsSpace(p[|p| - 1])
    ensures Classify("@@" + p) == Exception(p)
  {
    var t := "@@" + p;
    assert t[0] == '@' && t[|t| - 1] == (if p == [] then '@' else p[|p| - 1]);
    TrimNoop(t, JsWhitespace);
    assert TrimJs(t) == t;
    assert t[..2] == "@@" && t[2..] == p;
    assert !IsIgnored(t) by {
      assert t[..1] == "@";
    }
  }

  /** The kind of every line, in input order, ignored lines included. */
  function Classified(lines: seq<string>): (r: seq<LineKind>)
    ensures |r| == |lines|
    ensures forall i :: 0 <= i < |lines| ==> r[i] == Classify(lines[i])
  {
    seq(|lines|, i requires 0 <= i < |lines| => Classify(lines[i]))
  }

  /** The lines of a filter list: `text.split('\n')`. */
  function Lines(text: string): seq<string>
  {
    Split(text, "\n")
  }

  /** The kinds that are kept, in order: every kind except `Ignored`. */
  function Kept(ks: seq<LineKind>): (r: seq<LineKind>)
    ensures |r| <= |ks|
    ensures forall k :: k in r ==> k in ks && !k.Ignored?
  {
    if ks == [] then []
    else Kept(ks[..|ks| - 1]) + (if ks[|ks| - 1].Ignored? then [] else [ks[|ks| - 1]])
  }

  /** The patterns of the network rules, in order. */
  function NetworkPatterns(ks: seq<LineKind>): seq<string>
  {
    if ks == [] then []
    else NetworkPatterns(ks[..|ks| - 1]) + (if ks[|ks| - 1].Network? then [ks[|ks| - 1].pattern] else [])
  }

  /** The patterns of the exception rules (without `@@`), in order. */
  function ExceptionPatterns(ks: seq<LineKind>): seq<string>
  {
    if ks == [] then []
    else ExceptionPatterns(ks[..|ks| - 1]) + (if ks[|ks| - 1].Exception? then [ks[|ks| - 1].pattern] else [])
  }

  /** The (domain, selector) pairs of the element-hiding rules, in order. */
  function CosmeticPairs(ks: seq<LineKind>): seq<(string, string)>
  {
    if ks == [] then []
    else
      CosmeticPairs(ks[..|ks| - 1])
      + (if ks[|ks| - 1].Cosmetic? then [(ks[|ks| - 1].domain, ks[|ks| - 1].selector)] else [])
  }

  /** Every kept line lands in exactly one of the three collections. */
  lemma {:induction false} KindsPartition(ks: seq<LineKind>)
    ensures |NetworkPatterns(ks)| + |ExceptionPatterns(ks)| + |CosmeticPairs(ks)| == |Kept(ks)|
  {
    if ks != [] {
      KindsPartition(ks[..|ks| - 1]);
    }
  }

  /** Each projection of one more kind is the projection so far plus that kind's contribution. */
  lemma {:induction false} ProjectionsSnoc(ks: seq<LineKind>, k: LineKind)
    ensures NetworkPatterns(ks + [k]) == NetworkPatterns(ks) + (if k.Network? then [k.pattern] else [])
    ensures ExceptionPatterns(ks + [k]) == ExceptionPatterns(ks) + (if k.Exception? then [k.pattern] else [])
    ensures CosmeticPairs(ks + [k]) == CosmeticPairs(ks) + (if k.Cosmetic? then [(k.domain, k.selector)] else [])
  {
    assert (ks + [k])[..|ks|] == ks;
  }

  /** A rule's resource type, read from its options. */
  datatype RuleType = Script | Image | Stylesheet | All

  /** The type an options field names: `script`, then `image`, then `stylesheet`, else all. */
  function OptionsType(options: string): RuleType
  {
    if Contains(options, "script") then Script
    else if Contains(options, "image") then Image
    else if Contains(options, "stylesheet") then Stylesheet
    else All
  }

  /** `getRuleType(pattern)`: the type named between the first and second `$`, `all` without `$`. */
  function GetRuleType(pattern: string): RuleType
  {
    if Contains(pattern, "$") then OptionsType(SecondField(pattern, "$")) else All
  }

  /**
   * Only the options between the first and the second `$` decide the type:
   * what precedes the first `$` and anything after a second `$` are ignored.
   */
  lemma {:induction false} RuleTypeFromOptions(a: string, options: string, rest: string)
    requires !Contains(a, "$") && !Contains(options, "$")
    requires rest == [] || StartsWith(rest, "$")
    ensures GetRuleType(a + "$" + options + rest) == OptionsType(options)
  {
    var q := options + rest;
    var p := a + "$" + q;
    assert a + "$" + options + rest == p;
    assert Split(q, "$")[0] == options by {
      if rest == [] {
        assert q == options;
      } else {
        assert q == options + "$" + rest[1..];
        SplitSingleFree(options, "$", rest[1..]);
      }
    }
    assert Split(p, "$") == [a] + Split(q, "$") by {
      SplitSingleFree(a, "$", q);
    }
    assert Contains(p, "$") by {
      assert p[|a|..|a| + 1] == "$";
      OccursGivesContains(p, "$", |a|);
    }
    assert SecondField(p, "$") == options;
  }
}

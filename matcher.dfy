/**
 * The compiled form of the regular expressions the engines build, and what it
 * means for one to match. Every pattern the engines construct is a sequence of
 * tokens: an escaped or plain character, `.`, `.*` and (in one engine) a bare
 * `^`. Matching is by backtracking over that sequence, which accepts the
 * strings the regular expression accepts under ASCII case folding and with one
 * `char` (one Unicode scalar value) per character.
 */
module Matcher {
  import opened Text

  /** Which regular-expression library runs the pattern; they differ in what `.` refuses. */
  datatype Dialect = JavaScript | Java

  /** The characters `.` does not match (no `s`/DOTALL flag is ever set). */
  predicate IsLineTerminator(d: Dialect, c: char)
  {
    c == '\n' || c == '\r' || c == '\U{2028}' || c == '\U{2029}' || (d == Java && c == '\U{0085}')
  }

  /** No character of `s[from..to]` is a line terminator. */
  predicate NoTerminator(d: Dialect, s: string, from: int, to: int)
    requires 0 <= from <= to <= |s|
  {
    forall i :: from <= i < to ==> !IsLineTerminator(d, s[i])
  }

  datatype Token =
    | Lit(c: char)  // a character matched literally, up to ASCII case (the `i` flag)
    | AnyOne        // `.`
    | Star          // `.*`
    | Start         // an unescaped `^`: only at position 0 of the input

  /**
   * Pattern `p` matches `s` starting at position `j`; when `toEnd` it must also
   * consume the rest of `s` (a trailing `$`, or Java's `matches()`).
   */
  predicate Run(d: Dialect, p: seq<Token>, s: string, j: nat, toEnd: bool)
    requires j <= |s|
    decreases |p|, |s| - j
  {
    if p == [] then !toEnd || j == |s|
    else match p[0]
      case Lit(c) => j < |s| && SameIgnoringCase(c, s[j]) && Run(d, p[1..], s, j + 1, toEnd)
      case AnyOne => j < |s| && !IsLineTerminator(d, s[j]) && Run(d, p[1..], s, j + 1, toEnd)
      case Star =>
        Run(d, p[1..], s, j, toEnd)
        || (j < |s| && !IsLineTerminator(d, s[j]) && Run(d, p, s, j + 1, toEnd))
      case Start => j == 0 && Run(d, p[1..], s, j, toEnd)
  }

  /** The pattern anchored at both ends: `^p$`, or Java's `Matcher.matches()`. */
  predicate FullMatch(d: Dialect, p: seq<Token>, s: string)
  {
    Run(d, p, s, 0, true)
  }

  /** Some match starts at `j` or later. */
  predicate SearchFrom(d: Dialect, p: seq<Token>, s: string, j: nat)
    requires j <= |s|
    decreases |s| - j
  {
    Run(d, p, s, j, false) || (j < |s| && SearchFrom(d, p, s, j + 1))
  }

  /** An unanchored `RegExp.prototype.test`: a match starting anywhere in `s`. */
  predicate Search(d: Dialect, p: seq<Token>, s: string)
  {
    SearchFrom(d, p, s, 0)
  }

  /** The pattern that matches the characters of `w` literally. */
  function Lits(w: string): (r: seq<Token>)
    ensures |r| == |w|
    ensures forall i :: 0 <= i < |w| ==> r[i] == Lit(w[i])
  {
    if w == [] then [] else [Lit(w[0])] + Lits(w[1..])
  }

  /** A literal prefix matches exactly where its text occurs, up to case. */
  lemma {:induction false} LitsRun(d: Dialect, w: string, rest: seq<Token>, s: string, j: nat, e: bool)
    requires j <= |s|
    ensures Run(d, Lits(w) + rest, s, j, e)
      <==> OccursIgnoringCaseAt(s, w, j) && Run(d, rest, s, j + |w|, e)
    decreases |w|
  {
    if w != [] {
      var p := Lits(w) + rest;
      LitsCons(w, rest);
      if j < |s| {
        LitsRun(d, w[1..], rest, s, j + 1, e);
        OccursIgnoringCaseCons(s, w, j);
        assert Run(d, p, s, j, e)
          == (SameIgnoringCase(w[0], s[j]) && Run(d, Lits(w[1..]) + rest, s, j + 1, e));
      } else {
        assert !Run(d, p, s, j, e);
      }
    } else {
      assert Lits(w) + rest == rest;
    }
  }

  /** The first token of `Lits(w) + rest` is `w[0]`'s, and the others are `Lits(w[1..]) + rest`. */
  lemma {:induction false} LitsCons(w: string, rest: seq<Token>)
    requires w != []
    ensures (Lits(w) + rest)[0] == Lit(w[0])
    ensures (Lits(w) + rest)[1..] == Lits(w[1..]) + rest
  {
    assert Lits(w) + rest == [Lit(w[0])] + (Lits(w[1..]) + rest);
  }

  /** `.*` followed by `rest` matches iff `rest` matches after some terminator-free run. */
  lemma {:induction false} StarRun(d: Dialect, rest: seq<Token>, s: string, j: nat, e: bool)
    requires j <= |s|
    ensures Run(d, [Star] + rest, s, j, e)
      <==> exists k :: j <= k <= |s| && NoTerminator(d, s, j, k) && Run(d, rest, s, k, e)
    decreases |s| - j
  {
    var p := [Star] + rest;
    assert p[0] == Star && p[1..] == rest;
    if j < |s| {
      StarRun(d, rest, s, j + 1, e);
      if Run(d, p, s, j, e) && !Run(d, rest, s, j, e) {
        var k :| j + 1 <= k <= |s| && NoTerminator(d, s, j + 1, k) && Run(d, rest, s, k, e);
        assert NoTerminator(d, s, j, k);
      }
      if exists k :: j <= k <= |s| && NoTerminator(d, s, j, k) && Run(d, rest, s, k, e) {
        var k :| j <= k <= |s| && NoTerminator(d, s, j, k) && Run(d, rest, s, k, e);
        if k > j {
          assert NoTerminator(d, s, j + 1, k);
        }
      }
    } else {
      assert NoTerminator(d, s, j, j);
    }
  }

  /** Searching from `j` finds a match iff the pattern runs from some later position. */
  lemma {:induction false} SearchFromIff(d: Dialect, p: seq<Token>, s: string, j: nat)
    requires j <= |s|
    ensures SearchFrom(d, p, s, j) <==> exists k: nat :: j <= k <= |s| && Run(d, p, s, k, false)
    decreases |s| - j
  {
    if j < |s| {
      SearchFromIff(d, p, s, j + 1);
      if exists k: nat :: j <= k <= |s| && Run(d, p, s, k, false) {
        var k: nat :| j <= k <= |s| && Run(d, p, s, k, false);
        if k > j {
          assert exists k': nat :: j + 1 <= k' <= |s| && Run(d, p, s, k', false);
        }
      }
    }
    if Run(d, p, s, j, false) {
      assert exists k: nat :: j <= k <= |s| && Run(d, p, s, k, false);
    }
  }

  /** A literal-only pattern searched anywhere: matches iff its text occurs in `s`, up to case. */
  lemma {:induction false} SearchLiteralIff(d: Dialect, w: string, s: string)
    ensures Search(d, Lits(w), s) <==> ContainsIgnoringCase(s, w)
  {
    SearchFromIff(d, Lits(w), s, 0);
    assert Lits(w) + [] == Lits(w);
    if ContainsIgnoringCase(s, w) {
      var i :| 0 <= i <= |s| && OccursIgnoringCaseAt(s, w, i);
      LitsRun(d, w, [], s, i, false);
      assert Run(d, Lits(w), s, i, false);
    }
    if Search(d, Lits(w), s) {
      var k: nat :| k <= |s| && Run(d, Lits(w), s, k, false);
      LitsRun(d, w, [], s, k, false);
      assert OccursIgnoringCaseAt(s, w, k);
    }
  }

  /** A literal-only pattern anchored at both ends matches only its own text, up to case. */
  lemma {:induction false} FullMatchLiteralIff(d: Dialect, w: string, s: string)
    ensures FullMatch(d, Lits(w), s) <==> EqualsIgnoringCase(s, w)
  {
    assert Lits(w) + [] == Lits(w);
    LitsRun(d, w, [], s, 0, true);
    if |s| == |w| {
      assert s[0..|w|] == s;
    }
  }

  /** Case-insensitive equality keeps line terminators where they were. */
  lemma {:induction false} SameCaseKeepsTerminators(d: Dialect, a: char, b: char)
    requires SameIgnoringCase(a, b)
    ensures IsLineTerminator(d, a) <==> IsLineTerminator(d, b)
  {
  }

  /**
   * `.*w.*` under Java's `matches()` accepts exactly the strings without a line
   * terminator that contain `w`, up to case.
   */
  lemma {:induction false} WrappedFullMatchIff(d: Dialect, w: string, s: string)
    requires NoTerminator(d, w, 0, |w|)
    ensures FullMatch(d, [Star] + Lits(w) + [Star], s)
      <==> NoTerminator(d, s, 0, |s|) && ContainsIgnoringCase(s, w)
  {
    var tail := Lits(w) + [Star];
    assert [Star] + Lits(w) + [Star] == [Star] + tail;
    StarRun(d, tail, s, 0, true);
    forall k: nat | k <= |s|
      ensures Run(d, tail, s, k, true)
        <==> OccursIgnoringCaseAt(s, w, k) && NoTerminator(d, s, k + |w|, |s|)
    {
      TailRunIff(d, w, s, k);
    }
    if FullMatch(d, [Star] + Lits(w) + [Star], s) {
      var k: nat :| k <= |s| && NoTerminator(d, s, 0, k) && Run(d, tail, s, k, true);
      OccurrenceKeepsNoTerminator(d, w, s, k);
    }
    if NoTerminator(d, s, 0, |s|) && ContainsIgnoringCase(s, w) {
      var k :| 0 <= k <= |s| && OccursIgnoringCaseAt(s, w, k);
      assert NoTerminator(d, s, 0, k) && Run(d, tail, s, k, true);
    }
  }

  /** `w.*` matching to the end at `k`: `w` occurs at `k` and no terminator follows it. */
  lemma {:induction false} TailRunIff(d: Dialect, w: string, s: string, k: nat)
    requires k <= |s|
    ensures Run(d, Lits(w) + [Star], s, k, true)
      <==> OccursIgnoringCaseAt(s, w, k) && NoTerminator(d, s, k + |w|, |s|)
  {
    LitsRun(d, w, [Star], s, k, true);
    if k + |w| <= |s| {
      StarRun(d, [], s, k + |w|, true);
      assert [Star] + [] == [Star];
      if NoTerminator(d, s, k + |w|, |s|) {
        assert Run(d, [], s, |s|, true);
      }
    }
  }

  /** A case-insensitive occurrence of a terminator-free `w` is itself terminator-free. */
  lemma {:induction false} OccurrenceKeepsNoTerminator(d: Dialect, w: string, s: string, k: nat)
    requires NoTerminator(d, w, 0, |w|) && OccursIgnoringCaseAt(s, w, k)
    ensures NoTerminator(d, s, k, k + |w|)
  {
    forall i | k <= i < k + |w| ensures !IsLineTerminator(d, s[i]) {
      assert s[i] == s[k..k + |w|][i - k];
      SameCaseKeepsTerminators(d, s[i], w[i - k]);
    }
  }

  /** Tokens that consume a character. */
  predicate Consumes(t: Token)
  {
    t.Lit? || t.AnyOne?
  }

  /** Once the match has moved past position 0, a `^` token can no longer be passed. */
  lemma {:induction false} StartUnreachable(d: Dialect, p: seq<Token>, s: string, j: nat, e: bool, u: nat)
    requires 0 < j <= |s| && u < |p| && p[u] == Start
    ensures !Run(d, p, s, j, e)
    decreases |p|, |s| - j
  {
    if u > 0 {
      match p[0]
      case Lit(_) =>
        if j < |s| { StartUnreachable(d, p[1..], s, j + 1, e, u - 1); }
      case AnyOne =>
        if j < |s| { StartUnreachable(d, p[1..], s, j + 1, e, u - 1); }
      case Star =>
        StartUnreachable(d, p[1..], s, j, e, u - 1);
        if j < |s| { StartUnreachable(d, p, s, j + 1, e, u); }
      case Start =>
    }
  }

  /** A `^` after a character-consuming token makes the whole pattern unmatchable. */
  lemma {:induction false} StartAfterConsumingNeverMatches(d: Dialect, p: seq<Token>, s: string, j: nat, e: bool, t: nat, u: nat)
    requires j <= |s| && t < u < |p| && Consumes(p[t]) && p[u] == Start
    ensures !Run(d, p, s, j, e)
    decreases |p|, |s| - j
  {
    match p[0]
    case Lit(_) =>
      if j < |s| { StartUnreachable(d, p[1..], s, j + 1, e, u - 1); }
    case AnyOne =>
      if j < |s| { StartUnreachable(d, p[1..], s, j + 1, e, u - 1); }
    case Star =>
      StartAfterConsumingNeverMatches(d, p[1..], s, j, e, t - 1, u - 1);
      if j < |s| { StartUnreachable(d, p, s, j + 1, e, u); }
    case Start =>
      StartAfterConsumingNeverMatches(d, p[1..], s, j, e, t - 1, u - 1);
  }

  /** Every literal of a matching pattern is found, up to case, at or after the start position. */
  lemma {:induction false} LiteralIsFound(d: Dialect, p: seq<Token>, s: string, j: nat, e: bool, t: nat)
    requires j <= |s| && t < |p| && p[t].Lit? && Run(d, p, s, j, e)
    ensures exists i :: j <= i < |s| && SameIgnoringCase(p[t].c, s[i])
    decreases |p|, |s| - j
  {
    match p[0]
    case Lit(_) =>
      if t > 0 { LiteralIsFound(d, p[1..], s, j + 1, e, t - 1); }
    case AnyOne =>
      LiteralIsFound(d, p[1..], s, j + 1, e, t - 1);
    case Star =>
      if Run(d, p[1..], s, j, e) {
        LiteralIsFound(d, p[1..], s, j, e, t - 1);
      } else {
        LiteralIsFound(d, p, s, j + 1, e, t);
      }
    case Start =>
      LiteralIsFound(d, p[1..], s, j, e, t - 1);
  }

  /** A pattern with a literal `c` cannot be found in a string that lacks `c` in both cases. */
  lemma {:induction false} MissingLiteralNeverFound(d: Dialect, p: seq<Token>, s: string, t: nat)
    requires t < |p| && p[t].Lit? && 'a' <= p[t].c <= 'z'
    requires p[t].c !in s && ((p[t].c as int - 32) as char) !in s
    ensures !Search(d, p, s)
  {
    SearchFromIff(d, p, s, 0);
    if Search(d, p, s) {
      var k: nat :| k <= |s| && Run(d, p, s, k, false);
      forall i | k <= i < |s| ensures !SameIgnoringCase(p[t].c, s[i]) {
        assert s[i] in s;
      }
      LiteralIsFound(d, p, s, k, false, t);
    }
  }
}

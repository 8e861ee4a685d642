/**
 * The string operations the filter engines are built from, with the
 * semantics of the JavaScript and Java library calls they stand for:
 * `trim`, `startsWith`, `includes`/`contains`, `indexOf` and `split`.
 * Strings are sequences of Unicode scalar values.
 */
module Text {
  import opened Wrappers

  /** The code points JavaScript's `String.prototype.trim` removes (WhiteSpace and LineTerminator). */
  predicate IsJsSpace(c: char)
  {
    c == '\t' || c == '\n' || c == '\U{000B}' || c == '\U{000C}' || c == '\r' || c == ' '
    || c == '\U{00A0}' || c == '\U{1680}' || ('\U{2000}' <= c <= '\U{200A}')
    || c == '\U{2028}' || c == '\U{2029}' || c == '\U{202F}' || c == '\U{205F}'
    || c == '\U{3000}' || c == '\U{FEFF}'
  }

  /** The characters Java's `String.trim` removes: every one at or below U+0020. */
  predicate IsJavaSpace(c: char)
  {
    c <= ' '
  }

  /** Which library's notion of white space a trim uses. */
  datatype Whitespace = JsWhitespace | JavaWhitespace

  predicate IsSpace(w: Whitespace, c: char)
  {
    match w
    case JsWhitespace => IsJsSpace(c)
    case JavaWhitespace => IsJavaSpace(c)
  }

  /** `s` without its leading run of white space. */
  function TrimStart(s: string, w: Whitespace): (r: string)
    ensures |r| <= |s|
    ensures r == [] || !IsSpace(w, r[0])
  {
    if s != [] && IsSpace(w, s[0]) then TrimStart(s[1..], w) else s
  }

  /** `s` without its trailing run of white space. */
  function TrimEnd(s: string, w: Whitespace): (r: string)
    ensures |r| <= |s|
    ensures r == [] || !IsSpace(w, r[|r| - 1])
  {
    if s != [] && IsSpace(w, s[|s| - 1]) then TrimEnd(s[..|s| - 1], w) else s
  }

  function Trim(s: string, w: Whitespace): string
  {
    TrimEnd(TrimStart(s, w), w)
  }

  /** JavaScript `s.trim()`. */
  function TrimJs(s: string): string
  {
    Trim(s, JsWhitespace)
  }

  /** Java `s.trim()`. */
  function TrimJava(s: string): string
  {
    Trim(s, JavaWhitespace)
  }

  /** `TrimStart` removes a prefix made of white space only. */
  lemma {:induction false} TrimStartSpec(s: string, w: Whitespace)
    ensures var r := TrimStart(s, w);
      && r == s[|s| - |r|..]
      && forall k :: 0 <= k < |s| - |r| ==> IsSpace(w, s[k])
  {
    TrimStartSuffix(s, w);
    forall k | 0 <= k < |s| - |TrimStart(s, w)| ensures IsSpace(w, s[k]) {
      TrimStartRemovesSpace(s, w, k);
    }
  }

  lemma {:induction false} TrimStartSuffix(s: string, w: Whitespace)
    ensures TrimStart(s, w) == s[|s| - |TrimStart(s, w)|..]
    decreases |s|
  {
    if s != [] && IsSpace(w, s[0]) {
      var t := s[1..];
      TrimStartSuffix(t, w);
      assert t[|t| - |TrimStart(t, w)|..] == s[|s| - |TrimStart(t, w)|..];
    }
  }

  lemma {:induction false} TrimStartRemovesSpace(s: string, w: Whitespace, k: nat)
    requires k < |s| - |TrimStart(s, w)|
    ensures IsSpace(w, s[k])
    decreases k
  {
    if k > 0 {
      assert s != [] && IsSpace(w, s[0]);
      TrimStartRemovesSpace(s[1..], w, k - 1);
      assert s[1..][k - 1] == s[k];
    }
  }

  /** `TrimEnd` removes a suffix made of white space only. */
  lemma {:induction false} TrimEndSpec(s: string, w: Whitespace)
    ensures var r := TrimEnd(s, w);
      && r == s[..|r|]
      && forall k :: |r| <= k < |s| ==> IsSpace(w, s[k])
    decreases |s|
  {
    if s != [] && IsSpace(w, s[|s| - 1]) {
      var r := TrimEnd(s[..|s| - 1], w);
      TrimEndSpec(s[..|s| - 1], w);
      assert s[..|s| - 1][..|r|] == s[..|r|];
      forall k | |r| <= k < |s| ensures IsSpace(w, s[k]) {
        if k < |s| - 1 {
          assert s[k] == s[..|s| - 1][k];
        }
      }
    }
  }

  /** Trimming twice is trimming once. */
  lemma {:induction false} TrimIdempotent(s: string, w: Whitespace)
    ensures Trim(Trim(s, w), w) == Trim(s, w)
  {
    var t := TrimStart(s, w);
    var r := TrimEnd(t, w);
    TrimEndSpec(t, w);
    if r != [] {
      assert r[0] == t[0];
    }
    TrimNoop(r, w);
  }

  /** A trimmed string starts and ends with a character that is not white space. */
  lemma {:induction false} TrimEnds(s: string, w: Whitespace)
    ensures var r := Trim(s, w);
      r == [] || (!IsSpace(w, r[0]) && !IsSpace(w, r[|r| - 1]))
  {
    var t := TrimStart(s, w);
    TrimEndSpec(t, w);
    var r := TrimEnd(t, w);
    if r != [] {
      assert r[0] == t[0];
    }
  }

  predicate StartsWith(s: string, prefix: string)
  {
    |prefix| <= |s| && s[..|prefix|] == prefix
  }

  predicate EndsWith(s: string, suffix: string)
  {
    |suffix| <= |s| && s[|s| - |suffix|..] == suffix
  }

  /** `t` occurs in `s` at position `i`. */
  predicate OccursAt(s: string, t: string, i: int)
  {
    0 <= i && i + |t| <= |s| && s[i..i + |t|] == t
  }

  /** The first position at or after `from` where `t` occurs in `s`, if any. */
  function IndexFrom(s: string, t: string, from: nat): (r: Option<nat>)
    ensures r.Some? ==> from <= r.value && OccursAt(s, t, r.value)
    decreases |s| - from
  {
    if from + |t| > |s| then None
    else if s[from..from + |t|] == t then Some(from)
    else IndexFrom(s, t, from + 1)
  }

  /** `IndexFrom` finds the first occurrence: there is none between `from` and the result. */
  lemma {:induction false} IndexFromFirst(s: string, t: string, from: nat)
    ensures var r := IndexFrom(s, t, from);
      && (r.Some? ==> forall k :: from <= k < r.value ==> !OccursAt(s, t, k))
      && (r.None? ==> forall k :: from <= k ==> !OccursAt(s, t, k))
    decreases |s| - from
  {
    if from + |t| <= |s| && s[from..from + |t|] != t {
      IndexFromFirst(s, t, from + 1);
    }
  }

  /** JavaScript `s.indexOf(t)` / Java `s.indexOf(t)`: the first position where `t` occurs, if any. */
  function IndexOf(s: string, t: string): (r: Option<nat>)
    ensures r.Some? ==> OccursAt(s, t, r.value)
  {
    IndexFrom(s, t, 0)
  }

  /** `IndexOf` finds the first occurrence, and finds one whenever there is one. */
  lemma {:induction false} IndexOfFirst(s: string, t: string)
    ensures var r := IndexOf(s, t);
      && (r.Some? ==> forall k :: 0 <= k < r.value ==> !OccursAt(s, t, k))
      && (r.None? ==> forall k :: !OccursAt(s, t, k))
  {
    IndexFromFirst(s, t, 0);
  }

  /** JavaScript `s.includes(t)` / Java `s.contains(t)`. */
  predicate Contains(s: string, t: string)
  {
    IndexOf(s, t).Some?
  }

  /**
   * JavaScript `s.substring(start, end)`: both ends are clamped to `0..|s|`,
   * and when `start` is past `end` the two are swapped.
   */
  function JsSubstring(s: string, start: int, end: int): string
  {
    var a, b := Clamp(start, |s|), Clamp(end, |s|);
    if a <= b then s[a..b] else s[b..a]
  }

  function Clamp(i: int, len: nat): (r: nat)
    ensures r <= len
  {
    if i < 0 then 0 else if i > len then len else i
  }

  /** JavaScript `s.split(sep)` for a non-empty separator, scanning left to right. */
  function Split(s: string, sep: string): (r: seq<string>)
    requires sep != []
    ensures |r| >= 1
    ensures (|r| == 1) == IndexOf(s, sep).None?
    decreases |s|
  {
    match IndexOf(s, sep)
    case None => [s]
    case Some(k) => [s[..k]] + Split(s[k + |sep|..], sep)
  }

  /** No field of a split contains the separator. */
  lemma {:induction false} SplitFieldsFree(s: string, sep: string)
    requires sep != []
    ensures forall i :: 0 <= i < |Split(s, sep)| ==> IndexOf(Split(s, sep)[i], sep).None?
    decreases |s|
  {
    if IndexOf(s, sep).Some? {
      var k := IndexOf(s, sep).value;
      var rest := s[k + |sep|..];
      SplitFieldsFree(rest, sep);
      HeadFree(s, sep);
      SplitAtFirst(s, sep);
    }
  }

  /** The text before the first occurrence of `sep` does not contain `sep`. */
  lemma {:induction false} HeadFree(s: string, sep: string)
    requires sep != [] && IndexOf(s, sep).Some?
    ensures IndexOf(s[..IndexOf(s, sep).value], sep).None?
  {
    var k := IndexOf(s, sep).value;
    var head := s[..k];
    IndexOfFirst(s, sep);
    if IndexOf(head, sep).Some? {
      var i := IndexOf(head, sep).value;
      assert s[i..i + |sep|] == head[i..i + |sep|];
      assert OccursAt(s, sep, i) && i < k;
      assert false;
    }
  }

  /** JavaScript `parts.join(sep)`. */
  function Join(parts: seq<string>, sep: string): string
    requires |parts| >= 1
  {
    if |parts| == 1 then parts[0] else parts[0] + sep + Join(parts[1..], sep)
  }

  /** Splitting loses nothing: joining the fields back with the separator gives the input. */
  lemma {:induction false} JoinSplit(s: string, sep: string)
    requires sep != []
    ensures Join(Split(s, sep), sep) == s
    decreases |s|
  {
    if IndexOf(s, sep).Some? {
      var k := IndexOf(s, sep).value;
      var head, rest := s[..k], s[k + |sep|..];
      JoinSplit(rest, sep);
      SplitAtFirst(s, sep);
      JoinCons(head, Split(rest, sep), sep);
      SliceAround(s, sep, k);
    }
  }

  lemma {:induction false} SplitAtFirst(s: string, sep: string)
    requires sep != [] && IndexOf(s, sep).Some?
    ensures var k := IndexOf(s, sep).value;
      Split(s, sep) == [s[..k]] + Split(s[k + |sep|..], sep)
  {
  }

  lemma {:induction false} JoinCons(head: string, tail: seq<string>, sep: string)
    requires |tail| >= 1
    ensures Join([head] + tail, sep) == head + sep + Join(tail, sep)
  {
    assert ([head] + tail)[1..] == tail;
  }

  lemma {:induction false} SliceAround(s: string, sep: string, k: nat)
    requires OccursAt(s, sep, k)
    ensures s == s[..k] + sep + s[k + |sep|..]
  {
    assert s[k..k + |sep|] == sep;
  }

  /** The text before the first `sep` (the whole string when there is none): `s.split(sep)[0]`. */
  function FirstField(s: string, sep: string): string
    requires sep != []
  {
    Split(s, sep)[0]
  }

  /**
   * The text between the first and the second `sep` (or to the end when there
   * is no second one): `s.split(sep)[1]`, defined when `s` contains `sep`.
   */
  function SecondField(s: string, sep: string): string
    requires sep != [] && Contains(s, sep)
  {
    Split(s, sep)[1]
  }

  /**
   * How the two fields sit in the string: `s` starts with the first field, the
   * separator and the second field, neither field contains the separator, and
   * the first field ends where the first separator starts.
   */
  lemma {:induction false} FieldsLayout(s: string, sep: string)
    requires sep != [] && Contains(s, sep)
    ensures StartsWith(s, FirstField(s, sep) + sep + SecondField(s, sep))
    ensures IndexOf(s, sep) == Some(|FirstField(s, sep)|)
    ensures !Contains(FirstField(s, sep), sep) && !Contains(SecondField(s, sep), sep)
  {
    var k := IndexOf(s, sep).value;
    var rest := s[k + |sep|..];
    SplitFieldsFree(s, sep);
    SplitAtFirst(s, sep);
    var tail := Split(rest, sep);
    JoinSplit(rest, sep);
    JoinStartsWithHead(tail, sep);
    SliceAround(s, sep, k);
    PrefixExtends(s[..k] + sep, rest, tail[0]);
  }

  lemma {:induction false} JoinStartsWithHead(parts: seq<string>, sep: string)
    requires |parts| >= 1
    ensures StartsWith(Join(parts, sep), parts[0])
  {
    if |parts| > 1 {
      var j := Join(parts, sep);
      assert j == parts[0] + (sep + Join(parts[1..], sep));
      assert j[..|parts[0]|] == parts[0];
    }
  }

  lemma {:induction false} PrefixExtends(a: string, b: string, p: string)
    requires StartsWith(b, p)
    ensures StartsWith(a + b, a + p)
  {
    assert (a + b)[..|a + p|] == a + b[..|p|];
  }

  /** ASCII lower-casing, the case folding of JavaScript `/i` on ASCII and of Java `CASE_INSENSITIVE`. */
  function Lower(c: char): char
  {
    if 'A' <= c <= 'Z' then (c as int + 32) as char else c
  }

  predicate SameIgnoringCase(a: char, b: char)
  {
    Lower(a) == Lower(b)
  }

  predicate EqualsIgnoringCase(a: string, b: string)
  {
    |a| == |b| && forall i :: 0 <= i < |a| ==> SameIgnoringCase(a[i], b[i])
  }

  /** `t` occurs in `s` at `i` up to ASCII case. */
  predicate OccursIgnoringCaseAt(s: string, t: string, i: int)
  {
    0 <= i && i + |t| <= |s| && EqualsIgnoringCase(s[i..i + |t|], t)
  }

  /** A case-insensitive occurrence is its first character, then the rest one position on. */
  lemma {:induction false} OccursIgnoringCaseCons(s: string, w: string, j: nat)
    requires w != [] && j < |s|
    ensures OccursIgnoringCaseAt(s, w, j)
      <==> SameIgnoringCase(w[0], s[j]) && OccursIgnoringCaseAt(s, w[1..], j + 1)
  {
    if j + |w| <= |s| {
      var a, b := s[j..j + |w|], s[j + 1..j + |w|];
      assert forall i :: 0 <= i < |b| ==> b[i] == a[i + 1];
      if SameIgnoringCase(w[0], s[j]) && EqualsIgnoringCase(b, w[1..]) {
        forall i | 0 <= i < |a| ensures SameIgnoringCase(a[i], w[i]) {
          if i > 0 { assert a[i] == b[i - 1] && w[i] == w[1..][i - 1]; }
        }
      }
      if EqualsIgnoringCase(a, w) {
        assert SameIgnoringCase(a[0], w[0]);
        forall i | 0 <= i < |b| ensures SameIgnoringCase(b[i], w[1..][i]) {
          assert b[i] == a[i + 1];
        }
      }
    }
  }

  predicate ContainsIgnoringCase(s: string, t: string)
  {
    exists i :: 0 <= i <= |s| && OccursIgnoringCaseAt(s, t, i)
  }

  /** A string with no white space at either end is its own trim. */
  lemma {:induction false} TrimNoop(s: string, w: Whitespace)
    requires s == [] || (!IsSpace(w, s[0]) && !IsSpace(w, s[|s| - 1]))
    ensures Trim(s, w) == s
  {
    assert TrimStart(s, w) == s;
  }

  /** Exact occurrence implies occurrence up to case. */
  lemma {:induction false} OccursGivesIgnoringCase(s: string, t: string, i: int)
    requires OccursAt(s, t, i)
    ensures OccursIgnoringCaseAt(s, t, i) && ContainsIgnoringCase(s, t)
  {
    assert s[i..i + |t|] == t;
    assert 0 <= i <= |s| && OccursIgnoringCaseAt(s, t, i);
  }

  /** A lower-case letter of `t` missing from `s` in both cases keeps `t` out of `s`, up to case. */
  lemma {:induction false} MissingCharNotContained(s: string, t: string, c: char)
    requires c in t && 'a' <= c <= 'z'
    requires c !in s && ((c as int - 32) as char) !in s
    ensures !ContainsIgnoringCase(s, t)
  {
    var k :| 0 <= k < |t| && t[k] == c;
    forall i | 0 <= i <= |s| ensures !OccursIgnoringCaseAt(s, t, i) {
      if i + |t| <= |s| {
        assert s[i..i + |t|][k] == s[i + k];
        assert s[i + k] in s;
      }
    }
  }

  /** An occurrence witness makes `Contains` true. */
  lemma {:induction false} OccursGivesContains(s: string, t: string, i: int)
    requires OccursAt(s, t, i)
    ensures Contains(s, t)
  {
    IndexOfFirst(s, t);
  }

  /** For a one-character separator, the first field ends at the first separator. */
  lemma {:induction false} SplitSingleFree(a: string, sep: string, b: string)
    requires |sep| == 1 && !Contains(a, sep)
    ensures Split(a + sep + b, sep) == [a] + Split(b, sep)
  {
    var s := a + sep + b;
    IndexOfFirst(a, sep);
    IndexOfFirst(s, sep);
    assert s[|a|..|a| + 1] == sep;
    assert OccursAt(s, sep, |a|);
    forall k | 0 <= k < |a| ensures !OccursAt(s, sep, k) {
      assert !OccursAt(a, sep, k);
      assert s[k..k + 1] == a[k..k + 1];
    }
    assert IndexOf(s, sep) == Some(|a|);
    assert s[..|a|] == a;
    assert s[|a| + 1..] == b;
  }

  /** When the separator's first character is not in `a`, the first field of `a + sep + b` is `a`. */
  lemma {:induction false} SplitAfterFree(a: string, sep: string, b: string)
    requires sep != [] && sep[0] !in a
    ensures Split(a + sep + b, sep) == [a] + Split(b, sep)
  {
    var s := a + sep + b;
    IndexOfFirst(s, sep);
    assert s[|a|..|a| + |sep|] == sep;
    assert OccursAt(s, sep, |a|);
    forall k | 0 <= k < |a| ensures !OccursAt(s, sep, k) {
      assert s[k] == a[k] && a[k] in a;
      assert k + |sep| <= |s| ==> s[k..k + |sep|][0] == s[k];
    }
    assert IndexOf(s, sep) == Some(|a|);
    assert s[..|a|] == a;
    assert s[|a| + |sep|..] == b;
  }

  /** A character is absent iff the one-character string does not occur. */
  lemma {:induction false} ContainsItself(t: string)
    ensures Contains(t, t)
  {
    assert t[0..|t|] == t;
    OccursGivesContains(t, t, 0);
  }

  lemma {:induction false} CharNotContained(s: string, c: char)
    requires c !in s
    ensures !Contains(s, [c])
  {
    forall k | 0 <= k < |s| ensures !OccursAt(s, [c], k) {
      assert s[k] in s;
      assert s[k..k + 1] == [s[k]];
    }
  }
}

/**
 * What both extension popups (blockedads-popup.js and popup.js) do with the
 * text typed into the whitelist box: the domain-format regular expression
 * of `isValidDomain`, and the choice `addToWhitelist` makes between the
 * typed text, the current tab's domain, an alert and doing nothing.
 */
module DomainInput {
  import opened Text

  predicate IsLetter(c: char)
  {
    'a' <= c <= 'z' || 'A' <= c <= 'Z'
  }

  predicate IsAlnum(c: char)
  {
    IsLetter(c) || '0' <= c <= '9'
  }

  predicate IsLabelChar(c: char)
  {
    IsAlnum(c) || c == '-'
  }

  /** `[a-zA-Z0-9-]{0,61}`. */
  predicate LabelRun(s: string)
  {
    |s| <= 61 && forall k :: 0 <= k < |s| ==> IsLabelChar(s[k])
  }

  /** `[a-zA-Z0-9]?`. */
  predicate OptionalAlnum(s: string)
  {
    s == [] || (|s| == 1 && IsAlnum(s[0]))
  }

  /** `[a-zA-Z]{2,}`. */
  predicate Letters(s: string)
  {
    |s| >= 2 && forall k :: 0 <= k < |s| ==> IsLetter(s[k])
  }

  /** `[a-zA-Z0-9][a-zA-Z0-9-]{0,61}[a-zA-Z0-9]?`: one letter or digit, a run, an optional letter or digit. */
  predicate HeadPart(w: string)
  {
    exists j :: 1 <= j <= |w| && IsAlnum(w[0]) && LabelRun(w[1..j]) && OptionalAlnum(w[j..])
  }

  /** `([a-zA-Z]{2,}|[a-zA-Z]{2,}\.[a-zA-Z]{2,})`. */
  predicate TailPart(t: string)
  {
    Letters(t) || exists j :: 0 <= j < |t| && Letters(t[..j]) && t[j] == '.' && Letters(t[j + 1..])
  }

  /**
   * `isValidDomain(domain)`: the expression, anchored at both ends, is the
   * head part, an escaped dot and the tail part.
   */
  predicate IsValidDomain(s: string)
  {
    exists i :: 0 <= i < |s| && HeadPart(s[..i]) && s[i] == '.' && TailPart(s[i + 1..])
  }

  /**
   * The first label of an accepted domain: 1 to 63 letters, digits and
   * hyphens, starting with a letter or digit, and ending with one when it
   * is 63 long.
   */
  predicate FirstLabel(w: string)
  {
    && 1 <= |w| <= 63
    && IsAlnum(w[0])
    && (forall k :: 0 <= k < |w| ==> IsLabelChar(w[k]))
    && (|w| == 63 ==> IsAlnum(w[62]))
  }

  /**
   * The dot-separated labels of a domain: two or three, the first a
   * `FirstLabel`, every later one two or more letters.
   */
  predicate WellFormedLabels(labels: seq<string>)
  {
    && 2 <= |labels| <= 3
    && FirstLabel(labels[0])
    && forall k :: 1 <= k < |labels| ==> Letters(labels[k])
  }

  /** The head part of the expression is exactly a first label. */
  lemma {:induction false} HeadPartIff(w: string)
    ensures HeadPart(w) <==> FirstLabel(w)
  {
    if HeadPart(w) {
      var j :| 1 <= j <= |w| && IsAlnum(w[0]) && LabelRun(w[1..j]) && OptionalAlnum(w[j..]);
      forall k | 0 <= k < |w| ensures IsLabelChar(w[k]) {
        if 1 <= k < j {
          assert w[k] == w[1..j][k - 1];
        } else if k >= j {
          assert w[k] == w[j..][k - j];
        }
      }
      if |w| == 63 {
        assert |w[1..j]| == j - 1 <= 61;
        assert w[62] == w[j..][62 - j];
      }
    }
    if FirstLabel(w) {
      var j := if |w| == 63 then 62 else |w|;
      forall k | 0 <= k < |w[1..j]| ensures IsLabelChar(w[1..j][k]) {
        assert w[1..j][k] == w[k + 1];
      }
      assert LabelRun(w[1..j]);
      if |w| == 63 {
        assert w[j..] == [w[62]];
      }
      assert OptionalAlnum(w[j..]);
    }
  }

  /** A string of letters, digits and hyphens has no dot. */
  lemma {:induction false} LabelHasNoDot(w: string)
    requires forall k :: 0 <= k < |w| ==> IsLabelChar(w[k])
    ensures '.' !in w && !Contains(w, ".")
  {
    assert forall c :: c in w ==> IsLabelChar(c);
    CharNotContained(w, '.');
  }

  /** The number of dots in `s`. */
  function Dots(s: string): nat
  {
    multiset(s)['.']
  }

  /** Splitting at the first `.` of `a + "." + b`, for a dot-free `a`. */
  lemma {:induction false} SplitDot(a: string, b: string)
    requires '.' !in a
    ensures Split(a + "." + b, ".") == [a] + Split(b, ".")
    ensures Dots(a + "." + b) == 1 + Dots(b)
  {
    CharNotContained(a, '.');
    SplitSingleFree(a, ".", b);
    assert multiset(a + "." + b) == multiset(a) + multiset{'.'} + multiset(b);
  }

  /** A dot-free string is its own only field. */
  lemma {:induction false} SplitNoDot(a: string)
    requires '.' !in a
    ensures Split(a, ".") == [a] && Dots(a) == 0
  {
    CharNotContained(a, '.');
  }

  lemma {:induction false} LettersHaveNoDot(s: string)
    requires Letters(s)
    ensures '.' !in s
  {
    assert forall c :: c in s ==> IsLetter(c);
  }

  /**
   * The validator accepts exactly the strings whose dot-separated labels are
   * well formed: two or three labels, the first of 1 to 63 letters, digits
   * and hyphens not starting with a hyphen, each later one two or more
   * letters. An accepted string therefore holds one or two dots.
   */
  lemma {:induction false} ValidDomainIff(s: string)
    ensures IsValidDomain(s) <==> WellFormedLabels(Split(s, "."))
    ensures IsValidDomain(s) ==> 1 <= Dots(s) <= 2
  {
    if IsValidDomain(s) {
      LabelsFromAccepted(s);
    }
    if WellFormedLabels(Split(s, ".")) {
      AcceptedFromLabels(s);
    }
  }

  /** An accepted string splits into well-formed labels at its one or two dots. */
  lemma {:induction false} LabelsFromAccepted(s: string)
    requires IsValidDomain(s)
    ensures WellFormedLabels(Split(s, ".")) && 1 <= Dots(s) <= 2
  {
    var i :| 0 <= i < |s| && HeadPart(s[..i]) && s[i] == '.' && TailPart(s[i + 1..]);
    var head, t := s[..i], s[i + 1..];
    HeadPartIff(head);
    LabelHasNoDot(head);
    assert s == head + "." + t;
    SplitDot(head, t);
    TailLabels(t);
  }

  /** The tail part is one or two letter labels, with no dot or one. */
  lemma {:induction false} TailLabels(t: string)
    requires TailPart(t)
    ensures 1 <= |Split(t, ".")| <= 2 && Dots(t) == |Split(t, ".")| - 1
    ensures forall k :: 0 <= k < |Split(t, ".")| ==> Letters(Split(t, ".")[k])
  {
    if Letters(t) {
      LettersHaveNoDot(t);
      SplitNoDot(t);
    } else {
      var j :| 0 <= j < |t| && Letters(t[..j]) && t[j] == '.' && Letters(t[j + 1..]);
      TailSplitsAt(t, j);
    }
  }

  /** A tail part of the second form splits at its dot into its two letter labels. */
  lemma {:induction false} TailSplitsAt(t: string, j: nat)
    requires j < |t| && Letters(t[..j]) && t[j] == '.' && Letters(t[j + 1..])
    ensures Split(t, ".") == [t[..j], t[j + 1..]] && Dots(t) == 1
  {
    var a, b := t[..j], t[j + 1..];
    assert t == a + "." + b;
    TwoLabelsSplit(a, b);
  }

  /** Two letter labels joined by a dot split back into the two. */
  lemma {:induction false} TwoLabelsSplit(a: string, b: string)
    requires Letters(a) && Letters(b)
    ensures Split(a + "." + b, ".") == [a, b] && Dots(a + "." + b) == 1
  {
    LettersHaveNoDot(a);
    LettersHaveNoDot(b);
    SplitDot(a, b);
    SplitNoDot(b);
    assert [a] + [b] == [a, b];
  }

  /** A first label, a dot and a tail part make an accepted string. */
  lemma {:induction false} AcceptedFrom(head: string, t: string)
    requires FirstLabel(head) && TailPart(t)
    ensures IsValidDomain(head + "." + t)
  {
    var s := head + "." + t;
    HeadPartIff(head);
    assert s[..|head|] == head && s[|head|] == '.' && s[|head| + 1..] == t;
  }

  /** Two letter labels joined by a dot form the second alternative of the tail part. */
  lemma {:induction false} TwoLetterLabels(a: string, b: string)
    requires Letters(a) && Letters(b)
    ensures TailPart(a + "." + b)
  {
    var t := a + "." + b;
    assert t[..|a|] == a && t[|a|] == '.' && t[|a| + 1..] == b;
  }

  /** Well-formed labels joined with dots are accepted. */
  lemma {:induction false} AcceptedFromLabels(s: string)
    requires WellFormedLabels(Split(s, "."))
    ensures IsValidDomain(s)
  {
    var labels := Split(s, ".");
    JoinSplit(s, ".");
    var t := Join(labels[1..], ".");
    assert s == labels[0] + "." + t;
    if |labels| == 2 {
      assert t == labels[1];
    } else {
      var a, b := labels[1], labels[2];
      assert labels[1..] == [a, b];
      assert [a, b][1..] == [b];
      assert Join([a, b], ".") == a + "." + Join([b], ".");
      TwoLetterLabels(a, b);
    }
    AcceptedFrom(labels[0], t);
  }

  /** The domains the popup test suite expects accepted: a plain domain, ... */
  lemma PlainDomainAccepted()
    ensures IsValidDomain("example" + "." + "com")
  {
    assert FirstLabel("example");
    assert Letters("com");
    AcceptedFrom("example", "com");
  }

  /** ... a subdomain, ... */
  lemma SubdomainAccepted()
    ensures IsValidDomain("subdomain" + "." + ("example" + "." + "com"))
  {
    assert FirstLabel("subdomain");
    assert Letters("example") && Letters("com");
    TwoLetterLabels("example", "com");
    AcceptedFrom("subdomain", "example" + "." + "com");
  }

  /** ... and a two-part country suffix. */
  lemma CountrySuffixAccepted()
    ensures IsValidDomain("example" + "." + ("co" + "." + "uk"))
  {
    assert FirstLabel("example");
    assert Letters("co") && Letters("uk");
    TwoLetterLabels("co", "uk");
    AcceptedFrom("example", "co" + "." + "uk");
  }

  /** The strings the popup test suite expects rejected: no dot, empty, nothing after the dot. */
  lemma ExamplesRejected()
    ensures !IsValidDomain("invalid")
    ensures !IsValidDomain("")
    ensures !IsValidDomain("example.")
  {
    assert forall i :: 0 <= i < |"invalid"| ==> "invalid"[i] != '.';
    var e := "example.";
    forall i | 0 <= i < |e| && e[i] == '.' ensures !TailPart(e[i + 1..]) {
      assert i == 7;
      assert e[i + 1..] == [];
    }
  }

  /** What `addToWhitelist` does with the text typed in the whitelist box. */
  datatype Selection =
    | AddCurrent(domain: string)  // blank box: the current tab's domain is added
    | AddTyped(domain: string)    // a valid domain was typed: it is added and the box cleared
    | Skip                        // blank box and no current domain: nothing happens
    | Alert                       // an invalid domain was typed: the user is told, nothing is added

  /** The branch `addToWhitelist` takes for box text `input` when the current tab's domain is `current`. */
  function SelectDomain(input: string, current: string): Selection
  {
    var domain := TrimJs(input);
    if domain == [] then
      if current != [] then AddCurrent(current) else Skip
    else if !IsValidDomain(domain) then Alert
    else AddTyped(domain)
  }

  /**
   * What gets added is never empty: the current domain only when the box is
   * blank, a typed domain only when it passes the validator and, trimmed
   * already, has no white space at either end.
   */
  lemma {:induction false} SelectDomainSpec(input: string, current: string)
    ensures var sel := SelectDomain(input, current);
      && (sel.AddCurrent? ==> TrimJs(input) == [] && sel.domain == current != [])
      && (sel.AddTyped? ==> IsValidDomain(sel.domain) && 1 <= Dots(sel.domain) <= 2
                            && TrimJs(sel.domain) == sel.domain && sel.domain == TrimJs(input))
      && (sel.Skip? <==> TrimJs(input) == [] && current == [])
      && (sel.Alert? <==> TrimJs(input) != [] && !IsValidDomain(TrimJs(input)))
  {
    var domain := TrimJs(input);
    if domain != [] && IsValidDomain(domain) {
      ValidDomainIff(domain);
      TrimIdempotent(input, JsWhitespace);
    }
  }

  /** White space around the typed text changes nothing: the box text is trimmed before anything else. */
  lemma {:induction false} SelectDomainIgnoresPadding(input: string, current: string)
    ensures SelectDomain(TrimJs(input), current) == SelectDomain(input, current)
  {
    TrimIdempotent(input, JsWhitespace);
  }
}

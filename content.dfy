/**
 * The extension's content script (blockedads-mvp-chrome/content.js): an
 * index of element-hiding filters keyed by domain, the choice of filters a
 * page applies, and the hostname check of its network-request handler,
 * with the counters the script keeps.
 */
module Content {
  import opened Wrappers
  import opened Text
  import opened Urls
  import opened FilterSyntax

  /** One stored element-hiding filter: `{selector, domain}` with the domain already defaulted to `*`. */
  datatype CosmeticFilter = CosmeticFilter(selector: string, domain: string)

  /** The filter index: domain key to its filters, in the order they were read. */
  type Index = map<string, seq<CosmeticFilter>>

  /**
   * What one raw line contributes to the index: nothing for an empty, `!` or
   * `[` line or a line without `##`, otherwise the filter from the first two
   * `##` fields. There is no `@@` test here.
   */
  function CosmeticEntry(line: string): Option<CosmeticFilter>
  {
    var t := TrimJs(line);
    if IsIgnored(t) || !Contains(t, "##") then None
    else Some(CosmeticFilter(SecondField(t, "##"), DomainKey(FirstField(t, "##"))))
  }

  /**
   * The content script reads exactly the element-hiding lines that the
   * filter engines read, with the same domain and selector, plus the
   * exception lines whose text contains `##`, which the engines read as
   * exceptions instead.
   */
  lemma {:induction false} CosmeticEntryAgrees(line: string)
    ensures CosmeticEntry(line).Some?
        <==> (Classify(line).Cosmetic? || (Classify(line).Exception? && Contains(TrimJs(line), "##")))
    ensures Classify(line).Cosmetic?
        ==> CosmeticEntry(line) == Some(CosmeticFilter(Classify(line).selector, Classify(line).domain))
  {
  }

  /**
   * There is no `@@` test: a line `@@x##y` is not an exception here but the
   * filter `y` filed under the key `@@x`.
   */
  lemma {:induction false} ExceptionSyntaxIndexed(x: string, sel: string)
    requires '#' !in x && !Contains(sel, "##")
    requires sel == [] || !IsJsSpace(sel[|sel| - 1])
    ensures CosmeticEntry("@@" + x + "##" + sel) == Some(CosmeticFilter(sel, "@@" + x))
  {
    var d := "@@" + x;
    var t := d + "##" + sel;
    assert t[0] == '@';
    assert t[|t| - 1] == if sel == [] then '#' else sel[|sel| - 1];
    TrimNoop(t, JsWhitespace);
    assert !IsIgnored(t) by {
      assert t[..1] == "@";
    }
    assert '#' !in d;
    SplitAfterFree(d, "##", sel);
    assert t[|d|..|d| + 2] == "##";
    OccursGivesContains(t, "##", |d|);
  }

  /** The filters of the entries of `lines`, in order. */
  function Entries(lines: seq<string>): seq<CosmeticFilter>
  {
    if |lines| == 0 then []
    else
      var e := CosmeticEntry(lines[|lines| - 1]);
      Entries(lines[..|lines| - 1]) + (if e.Some? then [e.value] else [])
  }

  lemma {:induction false} EntriesStep(lines: seq<string>, i: nat)
    requires i < |lines|
    ensures Entries(lines[..i + 1])
      == Entries(lines[..i]) + (if CosmeticEntry(lines[i]).Some? then [CosmeticEntry(lines[i]).value] else [])
  {
    assert lines[..i + 1][..i] == lines[..i];
  }

  /** `cosmeticFilters.get(key) || []`. */
  function Get(m: Index, key: string): seq<CosmeticFilter>
  {
    if key in m then m[key] else []
  }

  /** One filter pushed onto the end of its key's list, the list created if missing. */
  function Push(m: Index, f: CosmeticFilter): Index
  {
    m[f.domain := Get(m, f.domain) + [f]]
  }

  /** The index after pushing `fs`, in order, onto `m`. */
  function Indexed(m: Index, fs: seq<CosmeticFilter>): Index
  {
    if |fs| == 0 then m
    else Push(Indexed(m, fs[..|fs| - 1]), fs[|fs| - 1])
  }

  /** The filters of `fs` that belong under `key`, in order. */
  function OnDomain(fs: seq<CosmeticFilter>, key: string): (r: seq<CosmeticFilter>)
    ensures |r| <= |fs|
  {
    if |fs| == 0 then []
    else OnDomain(fs[..|fs| - 1], key) + (if fs[|fs| - 1].domain == key then [fs[|fs| - 1]] else [])
  }

  /** The domain keys of `fs`. */
  function Domains(fs: seq<CosmeticFilter>): set<string>
  {
    set i | 0 <= i < |fs| :: fs[i].domain
  }

  /**
   * The index as a whole: each key's list is what it held followed by the
   * new filters with that domain, in input order, and the keys are the old
   * ones and the new domains.
   */
  lemma {:induction false} IndexedLists(m: Index, fs: seq<CosmeticFilter>, key: string)
    ensures Get(Indexed(m, fs), key) == Get(m, key) + OnDomain(fs, key)
  {
    if |fs| > 0 {
      var init, last := fs[..|fs| - 1], fs[|fs| - 1];
      var before := Indexed(m, init);
      IndexedLists(m, init, key);
      assert Indexed(m, fs) == Push(before, last);
      assert OnDomain(fs, key) == OnDomain(init, key) + (if last.domain == key then [last] else []);
      if last.domain == key {
        assert Get(Push(before, last), key) == Get(before, key) + [last];
      } else {
        assert Get(Push(before, last), key) == Get(before, key);
      }
    }
  }

  lemma {:induction false} IndexedKeys(m: Index, fs: seq<CosmeticFilter>)
    ensures Indexed(m, fs).Keys == m.Keys + Domains(fs)
  {
    if |fs| > 0 {
      var init, last := fs[..|fs| - 1], fs[|fs| - 1];
      IndexedKeys(m, init);
      DomainsSnoc(fs);
    }
  }

  lemma {:induction false} DomainsSnoc(fs: seq<CosmeticFilter>)
    requires |fs| > 0
    ensures Domains(fs) == Domains(fs[..|fs| - 1]) + {fs[|fs| - 1].domain}
  {
    var init := fs[..|fs| - 1];
    forall d | d in Domains(fs) ensures d in Domains(init) + {fs[|fs| - 1].domain} {
      var i :| 0 <= i < |fs| && fs[i].domain == d;
      if i < |fs| - 1 {
        assert init[i] == fs[i];
      }
    }
    forall d | d in Domains(init) ensures d in Domains(fs) {
      var i :| 0 <= i < |init| && init[i].domain == d;
      assert fs[i] == init[i];
    }
  }

  /** Every filter sits under its own domain key. */
  predicate Filed(m: Index)
  {
    forall key, f :: key in m && f in m[key] ==> f.domain == key
  }

  /** Pushing keeps every filter under its own domain key. */
  lemma {:induction false} IndexedFiled(m: Index, fs: seq<CosmeticFilter>)
    requires Filed(m)
    ensures Filed(Indexed(m, fs))
  {
    if |fs| > 0 {
      IndexedFiled(m, fs[..|fs| - 1]);
    }
  }

  /** `[...domainFilters, ...globalFilters]`: the exact host's filters, then the `*` filters. */
  function Selected(m: Index, host: string): seq<CosmeticFilter>
  {
    Get(m, host) + Get(m, "*")
  }

  /**
   * A page applies only filters filed under its exact host or under `*`: a
   * filter for a parent domain or for any other key is never applied.
   */
  lemma {:induction false} SelectedDomains(m: Index, host: string, f: CosmeticFilter)
    requires Filed(m)
    ensures f in Selected(m, host) <==> (f.domain == host || f.domain == "*") && f.domain in m && f in m[f.domain]
  {
  }

  /**
   * Starting from an empty index, a page on `host` applies the filters read
   * for `host`, in order, followed by the filters read for every site.
   */
  lemma {:induction false} SelectedFromEmpty(fs: seq<CosmeticFilter>, host: string)
    ensures Selected(Indexed(map[], fs), host) == OnDomain(fs, host) + OnDomain(fs, "*")
  {
    IndexedLists(map[], fs, host);
    IndexedLists(map[], fs, "*");
  }

  /** The six domains `handleNetworkRequest` checks, in order. */
  const AdDomains: seq<string> := [
    "googleadservices.com",
    "googlesyndication.com",
    "doubleclick.net",
    "facebook.com",
    "amazon-adsystem.com",
    "ads.yahoo.com"
  ]

  /** The first of `domains` that `host` contains as a substring, if any. */
  function FirstContained(domains: seq<string>, host: string): (r: Option<string>)
    ensures r.Some? <==> exists d :: d in domains && Contains(host, d)
    ensures r.Some? ==> r.value in domains && Contains(host, r.value)
  {
    if |domains| == 0 then None
    else if Contains(host, domains[0]) then Some(domains[0])
    else FirstContained(domains[1..], host)
  }

  /** The domain found is the first one in list order that the host contains. */
  lemma {:induction false} FirstContainedIsFirst(domains: seq<string>, host: string)
    requires FirstContained(domains, host).Some?
    ensures exists i ::
      && 0 <= i < |domains| && domains[i] == FirstContained(domains, host).value
      && (forall j :: 0 <= j < i ==> !Contains(host, domains[j]))
  {
    if !Contains(host, domains[0]) {
      var rest := domains[1..];
      FirstContainedIsFirst(rest, host);
      var i :| 0 <= i < |rest| && rest[i] == FirstContained(rest, host).value
        && (forall j :: 0 <= j < i ==> !Contains(host, rest[j]));
      assert domains[i + 1] == rest[i];
      forall j | 0 <= j < i + 1 ensures !Contains(host, domains[j]) {
        if j > 0 {
          assert domains[j] == rest[j - 1];
        }
      }
    } else {
      assert domains[0] == FirstContained(domains, host).value;
    }
  }

  /** A host that merely contains an ad domain, such as a look-alike, is cancelled as well. */
  lemma {:induction false} LookAlikeMatches(prefix: string, d: string, suffix: string)
    requires d in AdDomains
    ensures FirstContained(AdDomains, prefix + d + suffix).Some?
  {
    var host := prefix + d + suffix;
    assert host[|prefix|..|prefix| + |d|] == d;
    OccursGivesContains(host, d, |prefix|);
  }

  /** What `handleNetworkRequest` does: an answer, or the exception `new URL(url)` throws. */
  datatype Outcome = Answer(cancel: bool) | Thrown

  class ContentScript {
    var isEnabled: bool
    var cosmeticFilters: Index
    var adsBlocked: nat
    /** `stats.dataSaved`, in hundredths of a megabyte. */
    var dataSaved: nat

    constructor()
      ensures isEnabled && cosmeticFilters == map[]
      ensures adsBlocked == 0 && dataSaved == 0
    {
      isEnabled := true;
      cosmeticFilters := map[];
      adsBlocked := 0;
      dataSaved := 0;
    }

    /** `parseCosmeticFilters(content)`: the entries of the list's lines are pushed in order. */
    method ParseCosmeticFilters(content: string)
      modifies this`cosmeticFilters
      ensures cosmeticFilters == Indexed(old(cosmeticFilters), Entries(Lines(content)))
    {
      var lines := Lines(content);
      AddLines(lines);
    }

    /** The loop of `parseCosmeticFilters` over the lines. */
    method AddLines(lines: seq<string>)
      modifies this`cosmeticFilters
      ensures cosmeticFilters == Indexed(old(cosmeticFilters), Entries(lines))
    {
      var i := 0;
      ghost var fs: seq<CosmeticFilter> := [];
      while i < |lines|
        invariant 0 <= i <= |lines|
        invariant fs == Entries(lines[..i])
        invariant cosmeticFilters == Indexed(old(cosmeticFilters), fs)
      {
        AddLine(lines[i]);
        EntriesStep(lines, i);
        if CosmeticEntry(lines[i]).Some? {
          fs := fs + [CosmeticEntry(lines[i]).value];
          assert fs[..|fs| - 1] == Entries(lines[..i]);
        }
        i := i + 1;
      }
      assert lines[..|lines|] == lines;
    }

    /** One iteration: a cosmetic line goes to the end of its key's list, created on first use. */
    method AddLine(line: string)
      modifies this`cosmeticFilters
      ensures CosmeticEntry(line).None? ==> cosmeticFilters == old(cosmeticFilters)
      ensures CosmeticEntry(line).Some? ==> cosmeticFilters == Push(old(cosmeticFilters), CosmeticEntry(line).value)
    {
      var trimmed := TrimJs(line);
      if IsIgnored(trimmed) {
        return;
      }
      if Contains(trimmed, "##") {
        var domain, selector := FirstField(trimmed, "##"), SecondField(trimmed, "##");
        var domainKey := if domain == [] then "*" else domain;
        if domainKey !in cosmeticFilters {
          cosmeticFilters := cosmeticFilters[domainKey := []];
        }
        cosmeticFilters := cosmeticFilters[domainKey := cosmeticFilters[domainKey] + [CosmeticFilter(selector, domainKey)]];
      }
    }

    /** The filters `hideElements` runs on a page of `host`, in order. */
    function FiltersFor(host: string): seq<CosmeticFilter>
      reads this`cosmeticFilters
    {
      Selected(cosmeticFilters, host)
    }

    /** The counter part of `recordBlockedAd`: one more ad, 0.05 MB more saved. */
    method RecordBlockedAd()
      modifies this`adsBlocked, this`dataSaved
      ensures adsBlocked == old(adsBlocked) + 1
      ensures dataSaved == old(dataSaved) + 5
    {
      adsBlocked := adsBlocked + 1;
      dataSaved := dataSaved + 5;
    }

    /**
     * `handleNetworkRequest(details)`: when blocking is off nothing is
     * checked; otherwise the request is cancelled iff its hostname contains
     * one of the ad domains, and then exactly one ad is recorded, for the
     * first such domain (`matched`).
     */
    method HandleNetworkRequest(hostOf: HostParser, url: string) returns (r: Outcome, matched: Option<string>)
      modifies this`adsBlocked, this`dataSaved
      ensures !old(isEnabled) ==> r == Answer(false)
      ensures old(isEnabled) && hostOf(url).None? ==> r == Thrown
      ensures !old(isEnabled) || hostOf(url).None? ==> matched.None?
      ensures old(isEnabled) && hostOf(url).Some? ==>
        r == Answer(exists d :: d in AdDomains && Contains(hostOf(url).value, d))
        && matched == FirstContained(AdDomains, hostOf(url).value)
      ensures r == Answer(true) ==> adsBlocked == old(adsBlocked) + 1 && dataSaved == old(dataSaved) + 5
      ensures r != Answer(true) ==> adsBlocked == old(adsBlocked) && dataSaved == old(dataSaved)
    {
      matched := None;
      if !isEnabled {
        return Answer(false), matched;
      }
      if hostOf(url).None? {
        return Thrown, matched;
      }
      var hostname := hostOf(url).value;
      var i := 0;
      while i < |AdDomains|
        invariant 0 <= i <= |AdDomains|
        invariant FirstContained(AdDomains, hostname) == FirstContained(AdDomains[i..], hostname)
        invariant forall k :: 0 <= k < i ==> !Contains(hostname, AdDomains[k])
      {
        if Contains(hostname, AdDomains[i]) {
          RecordBlockedAd();
          return Answer(true), Some(AdDomains[i]);
        }
        assert AdDomains[i..][1..] == AdDomains[i + 1..];
        i := i + 1;
      }
      return Answer(false), matched;
    }
  }
}

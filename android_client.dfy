/**
 * The Android web view's request filter (BlockedAdsWebViewClient.java): a
 * fixed set of 18 case-insensitive Java patterns `.*F.*`, each with its dots
 * escaped, tested with whole-string `matches()`, and the file's own
 * statistics class, which the client builds without a context.
 */
module AndroidClient {
  import opened Text
  import opened Matcher
  import opened AndroidPrefs

  /** The fragments of `loadBasicRules`, unescaped: the pattern for `F` is `.*F.*`. */
  const Fragments: seq<string> := GoogleAds + GoogleTags + FacebookHosts + AmazonHosts + YahooHosts + TwitterHosts

  // The same eighteen fragments in their order, by advertiser.
  const GoogleAds: seq<string> := ["googleadservices.com", "googlesyndication.com", "doubleclick.net"]
  const GoogleTags: seq<string> := ["googletagmanager.com", "googletagservices.com", "google-analytics.com"]
  const FacebookHosts: seq<string> := ["facebook.com/tr", "facebook.net", "connect.facebook.net", "fbcdn.net"]
  const AmazonHosts: seq<string> := ["amazon-adsystem.com", "adsystem.amazon.com", "aaxads.com"]
  const YahooHosts: seq<string> := ["ads.yahoo.com", "adsystem.yahoo.com"]
  const TwitterHosts: seq<string> := ["ads-twitter.com", "twitter.com/i/adsct", "ads-api.twitter.com"]

  /** `Pattern.compile(".*" + F + ".*", CASE_INSENSITIVE)`, with `F`'s dots escaped. */
  function Compile(fragment: string): seq<Token>
  {
    [Star] + Lits(fragment) + [Star]
  }

  /** The compiled patterns of `fragments`. */
  function Compiled(fragments: seq<string>): set<seq<Token>>
  {
    set i | 0 <= i < |fragments| :: Compile(fragments[i])
  }

  /** `pattern.matcher(url).matches()`. */
  predicate Matches(pattern: seq<Token>, url: string)
  {
    FullMatch(Java, pattern, url)
  }

  /**
   * The compiled set matches a URL iff the URL has no line terminator (which
   * `.` refuses) and contains one of the fragments, up to ASCII case.
   */
  lemma {:induction false} CompiledMatchIff(fragments: seq<string>, url: string)
    requires forall i :: 0 <= i < |fragments| ==> NoTerminator(Java, fragments[i], 0, |fragments[i]|)
    ensures (exists p :: p in Compiled(fragments) && Matches(p, url))
      <==> NoTerminator(Java, url, 0, |url|) && exists i :: 0 <= i < |fragments| && ContainsIgnoringCase(url, fragments[i])
  {
    forall i | 0 <= i < |fragments|
      ensures Matches(Compile(fragments[i]), url)
        <==> NoTerminator(Java, url, 0, |url|) && ContainsIgnoringCase(url, fragments[i])
    {
      WrappedFullMatchIff(Java, fragments[i], url);
    }
    if exists p :: p in Compiled(fragments) && Matches(p, url) {
      var p :| p in Compiled(fragments) && Matches(p, url);
      var i :| 0 <= i < |fragments| && p == Compile(fragments[i]);
      assert ContainsIgnoringCase(url, fragments[i]);
    }
    if NoTerminator(Java, url, 0, |url|) && exists i :: 0 <= i < |fragments| && ContainsIgnoringCase(url, fragments[i]) {
      var i :| 0 <= i < |fragments| && ContainsIgnoringCase(url, fragments[i]);
      assert Compile(fragments[i]) in Compiled(fragments);
    }
  }

  /** Printable ASCII, which no line terminator is. */
  predicate Printable(s: string)
  {
    forall k :: 0 <= k < |s| ==> ' ' <= s[k] <= '~'
  }

  /** Every string of `l` is printable. */
  predicate AllPrintable(l: seq<string>)
  {
    forall i :: 0 <= i < |l| ==> Printable(l[i])
  }

  lemma {:induction false} PrintableHasNoTerminator(s: string)
    requires Printable(s)
    ensures NoTerminator(Java, s, 0, |s|)
  {
    forall i | 0 <= i < |s| ensures !IsLineTerminator(Java, s[i]) {
      assert ' ' <= s[i] <= '~';
    }
  }

  lemma {:induction false} PrintableJoin(a: string, b: string)
    requires Printable(a) && Printable(b)
    ensures Printable(a + b)
  {
    forall k | 0 <= k < |a + b| ensures ' ' <= (a + b)[k] <= '~' {
      if k < |a| { assert (a + b)[k] == a[k]; } else { assert (a + b)[k] == b[k - |a|]; }
    }
  }

  lemma {:induction false} AllPrintableJoin(l: seq<string>, m: seq<string>)
    requires AllPrintable(l) && AllPrintable(m)
    ensures AllPrintable(l + m)
  {
    forall i | 0 <= i < |l + m| ensures Printable((l + m)[i]) {
      if i < |l| { assert (l + m)[i] == l[i]; } else { assert (l + m)[i] == m[i - |l|]; }
    }
  }

  /** No fragment holds a line terminator, so `.*F.*` can match a URL containing `F`. */
  lemma {:induction false} FragmentsPrintable()
    ensures AllPrintable(Fragments)
    ensures forall i :: 0 <= i < |Fragments| ==> NoTerminator(Java, Fragments[i], 0, |Fragments[i]|)
  {
    GoogleAdsPrintable();
    GoogleTagsPrintable();
    FacebookPrintable();
    AmazonPrintable();
    YahooPrintable();
    TwitterPrintable();
    AllPrintableJoin(GoogleAds, GoogleTags);
    AllPrintableJoin(GoogleAds + GoogleTags, FacebookHosts);
    AllPrintableJoin(GoogleAds + GoogleTags + FacebookHosts, AmazonHosts);
    AllPrintableJoin(GoogleAds + GoogleTags + FacebookHosts + AmazonHosts, YahooHosts);
    AllPrintableJoin(GoogleAds + GoogleTags + FacebookHosts + AmazonHosts + YahooHosts, TwitterHosts);
    forall i | 0 <= i < |Fragments| ensures NoTerminator(Java, Fragments[i], 0, |Fragments[i]|) {
      PrintableHasNoTerminator(Fragments[i]);
    }
  }

  // Each group's literals are checked on their own: together they are too many for one proof.
  lemma GoogleAdsPrintable()
    ensures AllPrintable(GoogleAds)
  {
    assert Printable(GoogleAds[0]) && Printable(GoogleAds[1]) && Printable(GoogleAds[2]);
  }

  lemma GoogleTagsPrintable()
    ensures AllPrintable(GoogleTags)
  {
    assert Printable(GoogleTags[0]) && Printable(GoogleTags[1]) && Printable(GoogleTags[2]);
  }

  lemma FacebookPrintable()
    ensures AllPrintable(FacebookHosts)
  {
    assert Printable(FacebookHosts[0]) && Printable(FacebookHosts[1]);
    assert Printable(FacebookHosts[2]) && Printable(FacebookHosts[3]);
  }

  lemma AmazonPrintable()
    ensures AllPrintable(AmazonHosts)
  {
    assert Printable(AmazonHosts[0]) && Printable(AmazonHosts[1]) && Printable(AmazonHosts[2]);
  }

  lemma YahooPrintable()
    ensures AllPrintable(YahooHosts)
  {
    assert Printable(YahooHosts[0]) && Printable(YahooHosts[1]);
  }

  lemma TwitterPrintable()
    ensures AllPrintable(TwitterHosts)
  {
    assert Printable(TwitterHosts[0]) && Printable(TwitterHosts[1]) && Printable(TwitterHosts[2]);
  }

  /** What `shouldBlockUrl` decides, as one formula over the fixed fragments. */
  predicate BlocksUrl(url: string)
  {
    NoTerminator(Java, url, 0, |url|) && exists i :: 0 <= i < |Fragments| && ContainsIgnoringCase(url, Fragments[i])
  }

  /** The engine's pattern set matches exactly the URLs that contain a fragment. */
  lemma {:induction false} BasicPatternsMatchIff(url: string)
    ensures (exists p :: p in Compiled(Fragments) && Matches(p, url)) <==> BlocksUrl(url)
  {
    FragmentsPrintable();
    CompiledMatchIff(Fragments, url);
  }

  /** A printable URL that contains a fragment is blocked, wherever the fragment sits. */
  lemma {:induction false} BlocksUrlContaining(before: string, i: nat, after: string)
    requires i < |Fragments| && Printable(before) && Printable(after)
    ensures BlocksUrl(before + Fragments[i] + after)
  {
    var url := before + Fragments[i] + after;
    FragmentsPrintable();
    PrintableJoin(before, Fragments[i]);
    PrintableJoin(before + Fragments[i], after);
    PrintableHasNoTerminator(url);
    assert url[|before|..|before| + |Fragments[i]|] == Fragments[i];
    OccursGivesContains(url, Fragments[i], |before|);
    IndexOfFirst(url, Fragments[i]);
    OccursGivesIgnoringCase(url, Fragments[i], IndexOf(url, Fragments[i]).value);
  }

  /** Four lower-case letters, one of which every fragment contains. */
  const KeyLetters: string := "dfin"

  /** Where a key letter sits in each fragment. */
  const KeyPositions: seq<nat> := [7, 8, 0, 11, 13, 8, 0, 0, 2, 0, 5, 1, 4, 1, 1, 1, 2, 1]

  lemma FragmentsHaveKeyLetter()
    ensures forall i :: 0 <= i < |Fragments| ==>
      KeyPositions[i] < |Fragments[i]| && Fragments[i][KeyPositions[i]] in KeyLetters
  {
  }

  /**
   * A URL without any of the key letters, in either case, contains no
   * fragment and is not blocked.
   */
  lemma {:induction false} NotBlockedWithoutKeyLetters(url: string)
    requires forall k :: 0 <= k < |url| ==> url[k] !in KeyLetters && url[k] !in "DFIN"
    ensures !BlocksUrl(url)
  {
    FragmentsHaveKeyLetter();
    forall i | 0 <= i < |Fragments| ensures !ContainsIgnoringCase(url, Fragments[i]) {
      var c := Fragments[i][KeyPositions[i]];
      assert c in KeyLetters && 'a' <= c <= 'z';
      assert ((c as int - 32) as char) in "DFIN";
      MissingCharNotContained(url, Fragments[i], c);
    }
  }

  /** Google's ad service is blocked, as the Android test suite expects. */
  lemma GoogleAdsBlocked()
    ensures BlocksUrl("https://" + Fragments[0] + "/ads")
  {
    BlocksUrlContaining("https://", 0, "/ads");
  }

  /** DoubleClick is blocked. */
  lemma DoubleClickBlocked()
    ensures BlocksUrl("https://" + Fragments[2] + "/ads")
  {
    BlocksUrlContaining("https://", 2, "/ads");
  }

  /** Facebook's tracking pixel is blocked. */
  lemma FacebookPixelBlocked()
    ensures BlocksUrl("https://" + Fragments[6])
  {
    assert "https://" + Fragments[6] == "https://" + Fragments[6] + "";
    BlocksUrlContaining("https://", 6, "");
  }

  /** Amazon's ad host is blocked. */
  lemma AmazonAdsBlocked()
    ensures BlocksUrl("https://" + Fragments[10] + "/ads")
  {
    BlocksUrlContaining("https://", 10, "/ads");
  }

  /** Yahoo's ad host is blocked. */
  lemma YahooAdsBlocked()
    ensures BlocksUrl("https://" + Fragments[13] + "/ads")
  {
    BlocksUrlContaining("https://", 13, "/ads");
  }

  /** Twitter's ad host is blocked. */
  lemma TwitterAdsBlocked()
    ensures BlocksUrl("https://" + Fragments[15] + "/ads")
  {
    BlocksUrlContaining("https://", 15, "/ads");
  }

  /** Google Analytics is blocked. */
  lemma AnalyticsBlocked()
    ensures BlocksUrl("https://" + Fragments[5] + "/analytics.js")
  {
    BlocksUrlContaining("https://", 5, "/analytics.js");
  }

  /** Google search is let through, as the test suite expects. */
  lemma GoogleSearchNotBlocked()
    ensures !BlocksUrl("https://google.com/search")
  {
    NotBlockedWithoutKeyLetters("https://google.com/search");
  }

  /** An ordinary site is let through. */
  lemma PlainSiteNotBlocked()
    ensures !BlocksUrl("https://example.com/page")
  {
    NotBlockedWithoutKeyLetters("https://example.com/page");
  }

  /** A YouTube video page is let through. */
  lemma YouTubeVideoNotBlocked()
    ensures !BlocksUrl("https://youtube.com/watch?v=test")
  {
    NotBlockedWithoutKeyLetters("https://youtube.com/watch?v=test");
  }

  class FilterEngine {
    /** A `HashSet<Pattern>`: its iteration order is unspecified. */
    var blockedPatterns: set<seq<Token>>

    /** `new BlockedAdsFilterEngine()`: an empty set filled by `loadBasicRules`. */
    constructor()
      ensures blockedPatterns == Compiled(Fragments)
    {
      blockedPatterns := {};
      new;
      LoadBasicRules();
    }

    /** `loadBasicRules()`: each fragment's pattern is added to the set. */
    method LoadBasicRules()
      modifies this
      ensures blockedPatterns == old(blockedPatterns) + Compiled(Fragments)
    {
      AddRules(Fragments);
    }

    /** The loop of `loadBasicRules`: each fragment of `rules`, compiled, joins the set. */
    method AddRules(rules: seq<string>)
      modifies this
      ensures blockedPatterns == old(blockedPatterns) + Compiled(rules)
    {
      var i := 0;
      while i < |rules|
        invariant 0 <= i <= |rules|
        invariant blockedPatterns == old(blockedPatterns) + Compiled(rules[..i])
      {
        CompiledSnoc(rules[..i + 1]);
        assert rules[..i + 1][..i] == rules[..i];
        blockedPatterns := blockedPatterns + {Compile(rules[i])};
        i := i + 1;
      }
      assert rules[..|rules|] == rules;
    }

    /**
     * `shouldBlockUrl(url)`: the patterns are tried in whatever order the set
     * yields them, stopping at the first match. The answer is the same for
     * every order: some pattern in the set matches the whole URL.
     */
    method ShouldBlockUrl(url: string) returns (blocked: bool)
      ensures blocked <==> exists p :: p in blockedPatterns && Matches(p, url)
    {
      var remaining := blockedPatterns;
      while remaining != {}
        invariant remaining <= blockedPatterns
        invariant forall p :: p in blockedPatterns && p !in remaining ==> !Matches(p, url)
        decreases |remaining|
      {
        var p :| p in remaining;
        if Matches(p, url) {
          return true;
        }
        remaining := remaining - {p};
      }
      return false;
    }
  }

  lemma {:induction false} CompiledSnoc(fragments: seq<string>)
    requires |fragments| > 0
    ensures Compiled(fragments) == Compiled(fragments[..|fragments| - 1]) + {Compile(fragments[|fragments| - 1])}
  {
    var init := fragments[..|fragments| - 1];
    forall p | p in Compiled(fragments) ensures p in Compiled(init) + {Compile(fragments[|fragments| - 1])} {
      var i :| 0 <= i < |fragments| && p == Compile(fragments[i]);
      if i < |fragments| - 1 {
        assert init[i] == fragments[i];
      }
    }
    forall p | p in Compiled(init) ensures p in Compiled(fragments) {
      var i :| 0 <= i < |init| && p == Compile(init[i]);
      assert fragments[i] == init[i];
    }
  }

  const AdsBlockedKey := "ads_blocked"
  const DataSavedKey := "data_saved"

  /** Each key, when present, holds the type its getter reads, an `int` key a 32-bit value. */
  predicate Typed(data: map<string, Pref>)
  {
    && (AdsBlockedKey in data ==> data[AdsBlockedKey].IntPref? && IsInt(data[AdsBlockedKey].i))
    && (DataSavedKey in data ==> data[DataSavedKey].FloatPref?)
  }

  /**
   * The statistics class of BlockedAdsWebViewClient.java. Without a context
   * it has no store: it reads 0 and every update is skipped.
   */
  class ClientStats {
    /** `context.getSharedPreferences(...)`, or null when the context is null. */
    const prefs: Preferences?

    constructor(store: Preferences?)
      ensures prefs == store
    {
      prefs := store;
    }

    /** `getAdsBlocked()`. */
    function AdsBlocked(): (r: int)
      reads prefs
      requires prefs != null ==> Typed(prefs.data)
      ensures prefs == null ==> r == 0
      ensures prefs != null ==> r == GetInt(prefs.data, AdsBlockedKey, 0)
    {
      if prefs != null then GetInt(prefs.data, AdsBlockedKey, 0) else 0
    }

    /** `getDataSaved()`, from a `float`. */
    function DataSaved(): (r: real)
      reads prefs
      requires prefs != null ==> Typed(prefs.data)
      ensures prefs == null ==> r == 0.0
    {
      if prefs != null && DataSavedKey in prefs.data then prefs.data[DataSavedKey].f else 0.0
    }

    /** `incrementAdsBlocked()`: one more in `int` arithmetic, or nothing without a store. */
    method IncrementAdsBlocked()
      requires prefs != null ==> Typed(prefs.data)
      modifies prefs
      ensures prefs != null ==> Typed(prefs.data)
      ensures prefs != null ==>
        prefs.data == old(prefs.data)[AdsBlockedKey := IntPref(WrapInt(old(AdsBlocked()) + 1))]
    {
      if prefs != null {
        var current := AdsBlocked();
        prefs.data := prefs.data[AdsBlockedKey := IntPref(WrapInt(current + 1))];
      }
    }

    /** `addDataSaved(mb)`: the sum stored as a `float`, or nothing without a store. */
    method AddDataSaved(mb: real)
      requires prefs != null ==> Typed(prefs.data)
      modifies prefs
      ensures prefs != null ==> Typed(prefs.data)
      ensures prefs != null ==> prefs.data == old(prefs.data)[DataSavedKey := FloatPref(old(DataSaved()) + mb)]
    {
      if prefs != null {
        var current := DataSaved();
        prefs.data := prefs.data[DataSavedKey := FloatPref(current + mb)];
      }
    }
  }

  /** What `shouldInterceptRequest` returns. */
  datatype Interception =
    | Response(mimeType: string, encoding: string, body: string)  // a response served in place of the request
    | Deferred                                                    // `super.shouldInterceptRequest`: load normally

  class WebViewClient {
    const filterEngine: FilterEngine
    const stats: ClientStats

    /** `new BlockedAdsWebViewClient()`: a fresh engine and statistics built with a null context. */
    constructor()
      ensures fresh(filterEngine) && filterEngine.blockedPatterns == Compiled(Fragments)
      ensures stats.prefs == null
    {
      filterEngine := new FilterEngine();
      stats := new ClientStats(null);
    }

    /**
     * `shouldInterceptRequest`: an empty `text/plain` response exactly when
     * the engine blocks the URL, otherwise the request goes ahead. The
     * statistics, having no store, stay at 0.
     */
    method ShouldInterceptRequest(url: string) returns (r: Interception)
      requires stats.prefs == null
      ensures r == if exists p :: p in filterEngine.blockedPatterns && Matches(p, url)
                   then Response("text/plain", "utf-8", "") else Deferred
      ensures stats.AdsBlocked() == 0 && stats.DataSaved() == 0.0
    {
      var blocked := filterEngine.ShouldBlockUrl(url);
      if blocked {
        stats.IncrementAdsBlocked();
        stats.AddDataSaved(0.05);
        return Response("text/plain", "utf-8", "");
      }
      return Deferred;
    }
  }

  /**
   * A client as built blocks exactly the URLs that contain a fragment, and
   * its statistics never move.
   */
  method InterceptScenario(url: string) returns (r: Interception, ads: int)
    ensures r.Response? <==> BlocksUrl(url)
    ensures r.Response? ==> r.mimeType == "text/plain" && r.body == ""
    ensures ads == 0
  {
    var client := new WebViewClient();
    r := client.ShouldInterceptRequest(url);
    ads := client.stats.AdsBlocked();
    BasicPatternsMatchIff(url);
  }
}

/**
 * The address bars of the two Android browser activities: what the `goBtn`
 * listener of YouTubeBrowserActivity and `navigateToUrl` of
 * BlockedAdsWebViewActivity load for the typed text, and the
 * `shouldOverrideUrlLoading` test that keeps YouTube links in the
 * YouTube browser. Loading a URL into the view is not modelled: each
 * function gives the URL passed to `loadUrl`, or None when nothing is
 * loaded.
 */
module AddressBar {
  import opened Wrappers
  import opened Text

  const Http := "http://"
  const Https := "https://"

  /** The YouTube search page the YouTube browser sends dot-free text to, unencoded. */
  const YouTubeSearch := Https + "www." + YouTubeHost + "/results?search_query="

  const YouTubeHost := "youtube.com"

  /** Java `url.startsWith("http://") || url.startsWith("https://")`. */
  predicate HasScheme(url: string)
  {
    StartsWith(url, Http) || StartsWith(url, Https)
  }

  /**
   * The `goBtn` listener: the trimmed text as it is when it has a scheme,
   * behind `https://` when it holds a dot, and as a YouTube search otherwise.
   */
  function YouTubeAddress(input: string): Option<string>
  {
    var url := TrimJava(input);
    if url == [] then None
    else if HasScheme(url) then Some(url)
    else if Contains(url, ".") then Some(Https + url)
    else Some(YouTubeSearch + url)
  }

  /** `navigateToUrl`: the trimmed text, behind `https://` unless it has a scheme. */
  function WebViewAddress(input: string): Option<string>
  {
    var url := TrimJava(input);
    if url == [] then None
    else if HasScheme(url) then Some(url)
    else Some(Https + url)
  }

  /** `shouldOverrideUrlLoading`: the YouTube browser loads the URL itself exactly when this holds. */
  predicate Overrides(url: string)
  {
    Contains(url, YouTubeHost) || Contains(url, "youtu.be")
  }

  /** A scheme followed by anything still has that scheme. */
  lemma {:induction false} PrefixedHasScheme(p: string, url: string)
    requires p == Https || p == YouTubeSearch
    ensures HasScheme(p + url) && EndsWith(p + url, url)
  {
    SearchHasScheme();
    assert (p + url)[..|Https|] == p[..|Https|];
    assert (p + url)[|p + url| - |url|..] == url;
  }

  /** The search page's address starts with `https://`, and names `youtube.com` at position 12. */
  lemma SearchHasScheme()
    ensures YouTubeSearch[..|Https|] == Https
    ensures YouTubeSearch[0] == 'h'
    ensures YouTubeSearch[12..23] == YouTubeHost
  {
    var www := Https + "www.";
    assert |www| == 12;
    assert YouTubeSearch == www + YouTubeHost + "/results?search_query=";
    assert (www + YouTubeHost)[..12] == www;
    assert www[..8] == Https;
  }

  /**
   * The YouTube browser loads nothing exactly when the trimmed text is
   * empty; whatever it loads has a scheme and ends with the trimmed text,
   * and it becomes a search exactly when the text has no scheme and no dot.
   */
  lemma {:induction false} YouTubeAddressSpec(input: string)
    ensures var r, url := YouTubeAddress(input), TrimJava(input);
      && (r.None? <==> url == [])
      && (r.Some? ==> HasScheme(r.value) && EndsWith(r.value, url))
      && (r.Some? ==> (r.value == YouTubeSearch + url <==> !HasScheme(url) && !Contains(url, ".")))
  {
    var url := TrimJava(input);
    if url != [] {
      if HasScheme(url) {
        assert url[|url| - |url|..] == url;
        assert |YouTubeSearch + url| > |url|;
      } else if Contains(url, ".") {
        PrefixedHasScheme(Https, url);
        assert |YouTubeSearch + url| != |Https + url|;
      } else {
        PrefixedHasScheme(YouTubeSearch, url);
      }
    }
  }

  /**
   * The web view activity loads nothing exactly when the trimmed text is
   * empty; whatever it loads has a scheme, ends with the trimmed text, and
   * is that text itself exactly when the text already has a scheme.
   */
  lemma {:induction false} WebViewAddressSpec(input: string)
    ensures var r, url := WebViewAddress(input), TrimJava(input);
      && (r.None? <==> url == [])
      && (r.Some? ==> HasScheme(r.value) && EndsWith(r.value, url))
      && (r.Some? ==> (r.value == url <==> HasScheme(url)))
  {
    var url := TrimJava(input);
    if url != [] {
      if HasScheme(url) {
        assert url[|url| - |url|..] == url;
      } else {
        PrefixedHasScheme(Https, url);
      }
    }
  }

  /** A trimmed text behind no prefix, `https://` or the search page is still its own trim. */
  lemma {:induction false} PrefixedTrimmed(p: string, url: string)
    requires url == TrimJava(url) && url != []
    requires p == [] || p == Https || p == YouTubeSearch
    ensures TrimJava(p + url) == p + url
  {
    TrimEnds(url, JavaWhitespace);
    var s := p + url;
    assert s[|s| - 1] == url[|url| - 1];
    if p != [] {
      SearchHasScheme();
      assert s[0] == p[0] == 'h';
    } else {
      assert s == url;
    }
    TrimNoop(s, JavaWhitespace);
  }

  /**
   * Going again with what the YouTube browser loaded loads the same URL:
   * the address is already trimmed and already has a scheme.
   */
  lemma {:induction false} YouTubeAddressIdempotent(input: string)
    requires YouTubeAddress(input).Some?
    ensures YouTubeAddress(YouTubeAddress(input).value) == YouTubeAddress(input)
  {
    var url := TrimJava(input);
    TrimIdempotent(input, JavaWhitespace);
    YouTubeAddressSpec(input);
    var r := YouTubeAddress(input).value;
    if HasScheme(url) {
      PrefixedTrimmed([], url);
      assert [] + url == url;
    } else if Contains(url, ".") {
      PrefixedTrimmed(Https, url);
    } else {
      PrefixedTrimmed(YouTubeSearch, url);
    }
  }

  /** Going again with what the web view activity loaded loads the same URL. */
  lemma {:induction false} WebViewAddressIdempotent(input: string)
    requires WebViewAddress(input).Some?
    ensures WebViewAddress(WebViewAddress(input).value) == WebViewAddress(input)
  {
    var url := TrimJava(input);
    TrimIdempotent(input, JavaWhitespace);
    WebViewAddressSpec(input);
    if HasScheme(url) {
      PrefixedTrimmed([], url);
      assert [] + url == url;
    } else {
      PrefixedTrimmed(Https, url);
    }
  }

  /**
   * A search typed in the YouTube browser stays in it: the search page's
   * address holds `youtube.com`, so `shouldOverrideUrlLoading` keeps it.
   */
  lemma {:induction false} SearchStaysOnYouTube(input: string)
    requires TrimJava(input) != [] && !HasScheme(TrimJava(input)) && !Contains(TrimJava(input), ".")
    ensures YouTubeAddress(input) == Some(YouTubeSearch + TrimJava(input))
    ensures Overrides(YouTubeAddress(input).value)
  {
    var s := YouTubeSearch + TrimJava(input);
    SearchHasScheme();
    assert s[12..23] == YouTubeSearch[12..23];
    OccursGivesContains(s, YouTubeHost, 12);
  }

  /**
   * Any URL that mentions `youtube.com` anywhere, in its host, path or query,
   * is kept in the YouTube browser: the test is on the whole text, not the host.
   */
  lemma {:induction false} AnyMentionOverrides(before: string, after: string)
    ensures Overrides(before + YouTubeHost + after)
    ensures Overrides(before + "youtu.be" + after)
  {
    var s := before + YouTubeHost + after;
    assert s[|before|..|before| + |YouTubeHost|] == YouTubeHost;
    OccursGivesContains(s, YouTubeHost, |before|);
    var t := before + "youtu.be" + after;
    assert t[|before|..|before| + |"youtu.be"|] == "youtu.be";
    OccursGivesContains(t, "youtu.be", |before|);
  }

  /** A URL with no `y` is never kept by the YouTube browser. */
  lemma {:induction false} NoYNoOverride(url: string)
    requires 'y' !in url
    ensures !Overrides(url)
  {
    MissingLetterNotContained(url, YouTubeHost, 0);
    MissingLetterNotContained(url, "youtu.be", 0);
  }

  /** A string lacking one of `t`'s characters does not contain `t`. */
  lemma {:induction false} MissingLetterNotContained(s: string, t: string, k: nat)
    requires k < |t| && t[k] !in s
    ensures !Contains(s, t)
  {
    IndexOfFirst(s, t);
    forall i | 0 <= i ensures !OccursAt(s, t, i) {
      if i + |t| <= |s| {
        assert s[i..i + |t|][k] == s[i + k];
        assert s[i + k] in s;
      }
    }
  }

  /**
   * The two address bars load the same thing exactly when the trimmed text
   * is empty, has a scheme or holds a dot; dot-free text is a YouTube search
   * in one and a host name in the other.
   */
  lemma {:induction false} AddressBarsAgreeIff(input: string)
    ensures var url := TrimJava(input);
      YouTubeAddress(input) == WebViewAddress(input) <==> (url == [] || HasScheme(url) || Contains(url, "."))
  {
    var url := TrimJava(input);
    if url != [] && !HasScheme(url) && !Contains(url, ".") {
      assert |YouTubeSearch + url| != |Https + url|;
    }
  }
}

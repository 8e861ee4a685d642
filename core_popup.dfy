/**
 * The popup of blockedads-popup.js, which keeps its own copy of the
 * whitelist: loading the settings, finding the current tab's domain, and
 * the list logic of `addToWhitelist`, `addDomainToWhitelist` and
 * `removeFromWhitelist`. The storage writes, the tab messages and the DOM
 * updates that follow each change are not modelled.
 */
module CorePopup {
  import opened Wrappers
  import opened Text
  import opened Urls
  import opened Whitelists
  import opened DomainInput

  /** The whitelist after `addToWhitelist` with box text `input` and current domain `current`. */
  function AfterAdd(l: seq<string>, input: string, current: string): seq<string>
  {
    match SelectDomain(input, current)
    case AddCurrent(d) => AppendIfAbsent(l, d)
    case AddTyped(d) => AppendIfAbsent(l, d)
    case Skip => l
    case Alert => l
  }

  /**
   * `addToWhitelist` only ever appends one domain, and only a domain the user
   * chose: the current tab's domain when the box is blank, a domain that
   * passes the validator otherwise. Blank input with no current domain and
   * invalid input leave the list unchanged, and a duplicate-free list stays
   * duplicate-free.
   */
  lemma {:induction false} AfterAddSpec(l: seq<string>, input: string, current: string)
    ensures var r := AfterAdd(l, input, current);
      && (r == l || (|r| == |l| + 1 && r[..|l|] == l))
      && (forall x :: x in r && x !in l ==>
            if TrimJs(input) == [] then x == current != [] else x == TrimJs(input) && IsValidDomain(x))
      && (TrimJs(input) == [] && current == [] ==> r == l)
      && (TrimJs(input) != [] && !IsValidDomain(TrimJs(input)) ==> r == l)
      && (NoDuplicates(l) ==> NoDuplicates(r))
  {
    SelectDomainSpec(input, current);
    match SelectDomain(input, current)
    case AddCurrent(d) =>
      if NoDuplicates(l) { AppendIfAbsentKeepsNoDuplicates(l, d); }
    case AddTyped(d) =>
      if NoDuplicates(l) { AppendIfAbsentKeepsNoDuplicates(l, d); }
    case Skip =>
    case Alert =>
  }

  /** Pressing Add again with the same box text and current domain changes nothing more. */
  lemma {:induction false} AfterAddIdempotent(l: seq<string>, input: string, current: string)
    ensures AfterAdd(AfterAdd(l, input, current), input, current) == AfterAdd(l, input, current)
  {
    match SelectDomain(input, current)
    case AddCurrent(d) =>
    case AddTyped(d) =>
    case Skip =>
    case Alert =>
  }

  /** Removing a domain undoes adding it: add then remove is remove alone. */
  lemma {:induction false} RemoveUndoesAdd(l: seq<string>, d: string)
    ensures RemoveAll(AppendIfAbsent(l, d), d) == RemoveAll(l, d)
  {
    if d !in l {
      RemoveAllAppend(l, d);
    }
  }

  /** Filtering `d` out of `l + [d]` drops the appended copy. */
  lemma {:induction false} RemoveAllAppend(l: seq<string>, d: string)
    ensures RemoveAll(l + [d], d) == RemoveAll(l, d)
  {
    if l == [] {
      assert [d][1..] == [];
    } else {
      assert (l + [d])[1..] == l[1..] + [d];
      RemoveAllAppend(l[1..], d);
    }
  }

  /** Adding a domain after removing it leaves it in the list exactly once. */
  lemma {:induction false} AddAfterRemove(l: seq<string>, d: string)
    ensures var r := AppendIfAbsent(RemoveAll(l, d), d);
      && r == RemoveAll(l, d) + [d]
      && multiset(r)[d] == 1
  {
    RemoveAllSpec(l, d);
    var k := RemoveAll(l, d);
    assert multiset(k)[d] == 0;
    assert multiset(k + [d]) == multiset(k) + multiset{d};
  }

  /** The popup's own state: the blocking switch, the whitelist and the current tab's domain. */
  class Popup {
    var isEnabled: bool
    var whitelist: seq<string>
    var currentDomain: string

    /** A new popup: blocking on, no whitelist, no current domain. */
    constructor()
      ensures isEnabled && whitelist == [] && currentDomain == []
    {
      isEnabled := true;
      whitelist := [];
      currentDomain := [];
    }

    /** `loadSettings`: the synced settings, with on and the empty list as defaults. */
    method LoadSettings(storedEnabled: Option<bool>, storedWhitelist: Option<seq<string>>)
      modifies this
      ensures isEnabled == storedEnabled.GetOr(true)
      ensures whitelist == storedWhitelist.GetOr([])
      ensures currentDomain == old(currentDomain)
    {
      isEnabled := storedEnabled.GetOr(true);
      whitelist := storedWhitelist.GetOr([]);
    }

    /**
     * `getCurrentTab`: the active tab's URL, None when there is no tab or
     * the query fails. A missing or empty URL keeps the old domain.
     */
    method GetCurrentTab(hostOf: HostParser, tabUrl: Option<string>)
      modifies this
      ensures tabUrl.Some? && tabUrl.value != [] ==> currentDomain == ExtractDomain(hostOf, tabUrl.value)
      ensures !(tabUrl.Some? && tabUrl.value != []) ==> currentDomain == old(currentDomain)
      ensures whitelist == old(whitelist) && isEnabled == old(isEnabled)
    {
      if tabUrl.Some? && tabUrl.value != [] {
        currentDomain := ExtractDomain(hostOf, tabUrl.value);
      }
    }

    /**
     * `addDomainToWhitelist(domain)`: push the domain unless it is listed.
     * `added` tells whether the list changed, which is when the popup saves
     * it and tells the active tab.
     */
    method AddDomainToWhitelist(domain: string) returns (added: bool)
      modifies this
      ensures whitelist == AppendIfAbsent(old(whitelist), domain)
      ensures added <==> domain !in old(whitelist)
      ensures NoDuplicates(old(whitelist)) ==> NoDuplicates(whitelist)
      ensures isEnabled == old(isEnabled) && currentDomain == old(currentDomain)
    {
      added := domain !in whitelist;
      if added {
        whitelist := whitelist + [domain];
      }
      if NoDuplicates(old(whitelist)) {
        AppendIfAbsentKeepsNoDuplicates(old(whitelist), domain);
      }
    }

    /** `removeFromWhitelist(domain)`: the list filtered to the other domains, in order. */
    method RemoveFromWhitelist(domain: string)
      modifies this
      ensures whitelist == RemoveAll(old(whitelist), domain)
      ensures domain !in whitelist
      ensures forall x :: x != domain ==> multiset(whitelist)[x] == multiset(old(whitelist))[x]
      ensures isEnabled == old(isEnabled) && currentDomain == old(currentDomain)
    {
      RemoveAllSpec(whitelist, domain);
      whitelist := RemoveAll(whitelist, domain);
    }

    /**
     * `addToWhitelist` with box text `input`: `alerted` when the invalid
     * domain message is shown, `cleared` when the box is emptied.
     */
    method AddToWhitelist(input: string) returns (alerted: bool, cleared: bool)
      modifies this
      ensures whitelist == AfterAdd(old(whitelist), input, currentDomain)
      ensures alerted <==> TrimJs(input) != [] && !IsValidDomain(TrimJs(input))
      ensures cleared <==> TrimJs(input) != [] && IsValidDomain(TrimJs(input))
      ensures isEnabled == old(isEnabled) && currentDomain == old(currentDomain)
    {
      SelectDomainSpec(input, currentDomain);
      alerted, cleared := false, false;
      match SelectDomain(input, currentDomain)
      case AddCurrent(d) =>
        var _ := AddDomainToWhitelist(d);
      case AddTyped(d) =>
        var _ := AddDomainToWhitelist(d);
        cleared := true;
      case Skip =>
      case Alert =>
        alerted := true;
    }
  }
}

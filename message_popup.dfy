/**
 * The popup of popup.js, which keeps no whitelist of its own: it asks the
 * background worker to add or remove a domain. Modelled: finding the
 * current tab's domain and the choice `addToWhitelist` makes between
 * asking, alerting and doing nothing. The replies and the display
 * refresh are not modelled.
 */
module MessagePopup {
  import opened Wrappers
  import opened Text
  import opened Urls
  import opened Whitelists
  import opened DomainInput
  import CorePopup

  /** The messages the popup sends to the background worker about the whitelist. */
  datatype Request =
    | AddToWhitelistRequest(domain: string)       // type ADD_TO_WHITELIST
    | RemoveFromWhitelistRequest(domain: string)  // type REMOVE_FROM_WHITELIST

  /** The list the background worker keeps after handling a request (background.js's push and splice). */
  function Handled(l: seq<string>, r: Request): seq<string>
  {
    match r
    case AddToWhitelistRequest(d) => AppendIfAbsent(l, d)
    case RemoveFromWhitelistRequest(d) => RemoveFirst(l, d)
  }

  /**
   * Asking the worker to add what this popup chose leaves the same list as
   * the other popup's own `addToWhitelist`: both popups pick the same
   * domain with the same validator, and both append only when it is absent.
   */
  lemma {:induction false} PopupsAgreeOnAdd(l: seq<string>, input: string, current: string)
    ensures var sel := SelectDomain(input, current);
      && ((sel.AddCurrent? || sel.AddTyped?) ==>
            Handled(l, AddToWhitelistRequest(sel.domain)) == CorePopup.AfterAdd(l, input, current))
      && ((sel.Skip? || sel.Alert?) ==> CorePopup.AfterAdd(l, input, current) == l)
  {
  }

  /** On a duplicate-free list, the worker's remove agrees with the other popup's filter. */
  lemma {:induction false} PopupsAgreeOnRemove(l: seq<string>, d: string)
    requires NoDuplicates(l)
    ensures Handled(l, RemoveFromWhitelistRequest(d)) == RemoveAll(l, d)
  {
    RemoveFirstMatchesRemoveAll(l, d);
  }

  /** Without duplicates, deleting the first copy deletes every copy. */
  lemma {:induction false} RemoveFirstMatchesRemoveAll(l: seq<string>, d: string)
    requires NoDuplicates(l)
    ensures RemoveFirst(l, d) == RemoveAll(l, d)
  {
    if l != [] {
      assert NoDuplicates(l[1..]) by {
        forall i, j | 0 <= i < j < |l[1..]| ensures l[1..][i] != l[1..][j] {
          assert l[1..][i] == l[i + 1] && l[1..][j] == l[j + 1];
        }
      }
      if l[0] == d {
        assert d !in l[1..] by {
          forall k | 0 <= k < |l[1..]| ensures l[1..][k] != d {
            assert l[1..][k] == l[k + 1];
          }
        }
        RemoveAllAbsent(l[1..], d);
        assert FirstIndex(l, d) == 0;
        assert RemoveFirst(l, d) == l[..0] + l[1..];
      } else {
        RemoveFirstMatchesRemoveAll(l[1..], d);
        RemoveFirstCons(l, d);
      }
    }
  }

  /** Filtering out an absent domain changes nothing. */
  lemma {:induction false} RemoveAllAbsent(l: seq<string>, d: string)
    requires d !in l
    ensures RemoveAll(l, d) == l
  {
    if l != [] {
      assert d !in l[1..];
      RemoveAllAbsent(l[1..], d);
      assert l == [l[0]] + l[1..];
    }
  }

  /** Deleting the first copy of `d` skips a head that is not `d`. */
  lemma {:induction false} RemoveFirstCons(l: seq<string>, d: string)
    requires l != [] && l[0] != d
    ensures RemoveFirst(l, d) == [l[0]] + RemoveFirst(l[1..], d)
  {
    var i := FirstIndex(l[1..], d);
    assert FirstIndex(l, d) == 1 + i;
    if i < |l[1..]| {
      assert l[..1 + i] == [l[0]] + l[1..][..i];
      assert l[1 + i + 1..] == l[1..][i + 1..];
    }
  }

  /** The popup's state: the current tab's domain. */
  class Popup {
    var currentDomain: string

    constructor()
      ensures currentDomain == []
    {
      currentDomain := [];
    }

    /** `getCurrentTab`: as in the other popup, a missing or empty URL keeps the old domain. */
    method GetCurrentTab(hostOf: HostParser, tabUrl: Option<string>)
      modifies this
      ensures tabUrl.Some? && tabUrl.value != [] ==> currentDomain == ExtractDomain(hostOf, tabUrl.value)
      ensures !(tabUrl.Some? && tabUrl.value != []) ==> currentDomain == old(currentDomain)
    {
      if tabUrl.Some? && tabUrl.value != [] {
        currentDomain := ExtractDomain(hostOf, tabUrl.value);
      }
    }

    /**
     * `addToWhitelist` with box text `input`: the request sent, if any,
     * whether the invalid-domain alert is shown, and whether the box is
     * cleared. A request always names a non-empty domain: the current one
     * for a blank box, otherwise the trimmed text, and only when it passes
     * the validator.
     */
    method AddToWhitelist(input: string) returns (request: Option<Request>, alerted: bool, cleared: bool)
      ensures request.Some? ==> request.value.AddToWhitelistRequest? && request.value.domain != []
      ensures TrimJs(input) == [] ==>
        && request == (if currentDomain != [] then Some(AddToWhitelistRequest(currentDomain)) else None)
        && !alerted && !cleared
      ensures TrimJs(input) != [] && !IsValidDomain(TrimJs(input)) ==>
        request.None? && alerted && !cleared
      ensures TrimJs(input) != [] && IsValidDomain(TrimJs(input)) ==>
        && request == Some(AddToWhitelistRequest(TrimJs(input)))
        && 1 <= Dots(TrimJs(input)) <= 2
        && !alerted && cleared
    {
      SelectDomainSpec(input, currentDomain);
      match SelectDomain(input, currentDomain)
      case AddCurrent(d) =>
        request, alerted, cleared := Some(AddToWhitelistRequest(d)), false, false;
      case AddTyped(d) =>
        request, alerted, cleared := Some(AddToWhitelistRequest(d)), false, true;
      case Skip =>
        request, alerted, cleared := None, false, false;
      case Alert =>
        request, alerted, cleared := None, true, false;
    }

    /** `removeFromWhitelist(domain)`: the request sent, whatever the domain. */
    method RemoveFromWhitelist(domain: string) returns (request: Request)
      ensures request == RemoveFromWhitelistRequest(domain)
    {
      request := RemoveFromWhitelistRequest(domain);
    }
  }
}

/**
 * The extension's background service worker (blockedads-mvp-chrome/background.js):
 * its own filter-list parser producing tagged records, the conversion of
 * network records to declarative block rules, the installation loop that
 * numbers them, the `dynamicRules` bookkeeping, the switch, the blocked-ad
 * counter and the whitelist array kept in storage.
 */
module Background {
  import opened Wrappers
  import opened Text
  import opened FilterSyntax
  import opened Whitelists
  import opened Dnr

  /** A record of `parseFilterRules`: the line's kind with its fields, and its priority. */
  datatype Record = Record(kind: LineKind, priority: nat)

  /** The records of the kinds `ks`, in order: one per kind that is not `Ignored`, with priority 1. */
  function Records(ks: seq<LineKind>): seq<Record>
  {
    if |ks| == 0 then []
    else
      var last := ks[|ks| - 1];
      Records(ks[..|ks| - 1]) + (if last.Ignored? then [] else [Record(last, 1)])
  }

  /** The records are exactly the kept kinds, in order, each with priority 1. */
  lemma {:induction false} RecordsAreKept(ks: seq<LineKind>)
    ensures |Records(ks)| == |Kept(ks)|
    ensures forall i :: 0 <= i < |Kept(ks)| ==> Records(ks)[i] == Record(Kept(ks)[i], 1)
  {
    if |ks| > 0 {
      RecordsAreKept(ks[..|ks| - 1]);
    }
  }

  /** `parseFilterRules(content)`: one record per kept line of `content`, in order. */
  method ParseFilterRules(content: string) returns (rules: seq<Record>)
    ensures rules == Records(Classified(Lines(content)))
  {
    var lines := Lines(content);
    rules := ParseLines(lines);
  }

  /** The loop of `parseFilterRules` over the lines. */
  method ParseLines(lines: seq<string>) returns (rules: seq<Record>)
    ensures rules == Records(Classified(lines))
  {
    ghost var ks := Classified(lines);
    rules := [];
    var i := 0;
    while i < |lines|
      invariant 0 <= i <= |lines|
      invariant rules == Records(ks[..i])
    {
      var kind := Classify(lines[i]);
      assert ks[..i + 1][..i] == ks[..i];
      if !kind.Ignored? {
        rules := rules + [Record(kind, 1)];
      }
      i := i + 1;
    }
    assert ks[..|lines|] == ks;
  }

  /** The resource types of every rule the worker converts. */
  const ConvertedTypes: seq<ResourceType> :=
    [MainFrame, SubFrame, ResourceType.Script, ResourceType.Image, ResourceType.Stylesheet,
     XmlHttpRequest, Media]

  /** `.replace(/\^$/, '')`: one trailing `^` removed. */
  function DropTrailingCaret(t: string): (r: string)
    ensures EndsWith(t, "^") ==> t == r + "^"
    ensures !EndsWith(t, "^") ==> r == t
  {
    if EndsWith(t, "^") then
      assert t == t[..|t| - 1] + "^";
      t[..|t| - 1]
    else t
  }

  /** The records that carry a pattern: network and exception rules. */
  predicate HasPattern(rule: Record)
  {
    rule.kind.Network? || rule.kind.Exception?
  }

  /** The block rule `convertToDeclarativeNetRequest` builds around a condition. */
  function Blocking(rule: Record, id: nat, condition: Condition): BlockRule
  {
    BlockRule(id, rule.priority, condition, ConvertedTypes)
  }

  /**
   * `convertToDeclarativeNetRequest(rule, id)`: `||D` gives the URL filter
   * `*://D/` followed by `*` (one trailing `^` of `D` removed), else `|U` gives `U`, else
   * `/R/` gives the regular expression between the slashes, else nothing. A
   * record without a pattern (an element-hiding record) makes the method
   * calls throw, which is caught and also gives nothing.
   */
  function Convert(rule: Record, id: nat): (r: Option<BlockRule>)
    ensures r.Some? <==> (HasPattern(rule)
      && (StartsWith(rule.kind.pattern, "|")
          || (StartsWith(rule.kind.pattern, "/") && EndsWith(rule.kind.pattern, "/"))))
    ensures r.Some? ==> (r.value.id == id && r.value.priority == rule.priority
      && r.value.resourceTypes == ConvertedTypes)
  {
    if !HasPattern(rule) then None
    else
      var pattern := rule.kind.pattern;
      if StartsWith(pattern, "||") then
        Some(Blocking(rule, id, UrlFilter("*://" + DropTrailingCaret(pattern[2..]) + "/*")))
      else if StartsWith(pattern, "|") then
        Some(Blocking(rule, id, UrlFilter(pattern[1..])))
      else if StartsWith(pattern, "/") && EndsWith(pattern, "/") then
        Some(Blocking(rule, id, RegexFilter(JsSubstring(pattern, 1, |pattern| - 1))))
      else None
  }

  /** A conversion from a record and its id to a block rule, if any. */
  type Converter = (Record, nat) -> Option<BlockRule>

  /** `||D^` becomes the URL filter `*://D/` followed by `*`: the caret goes, the domain stays as written. */
  lemma {:induction false} DomainRuleConverts(d: string, priority: nat, id: nat)
    ensures Convert(Record(Network("||" + d + "^"), priority), id)
      == Some(BlockRule(id, priority, UrlFilter("*://" + d + "/*"), ConvertedTypes))
  {
    var pattern := "||" + d + "^";
    assert pattern[..2] == "||";
    assert pattern[2..] == d + "^";
    assert EndsWith(d + "^", "^") by { assert (d + "^")[|d|..] == "^"; }
  }

  /** `||D` with no trailing caret becomes the same filter. */
  lemma {:induction false} DomainRuleWithoutCaretConverts(d: string, priority: nat, id: nat)
    requires !EndsWith(d, "^")
    ensures Convert(Record(Network("||" + d), priority), id)
      == Some(BlockRule(id, priority, UrlFilter("*://" + d + "/*"), ConvertedTypes))
  {
    var pattern := "||" + d;
    assert pattern[..2] == "||";
    assert pattern[2..] == d;
  }

  /** `|U`, where `U` does not start with a second bar, becomes the URL filter `U`. */
  lemma {:induction false} BarRuleConverts(u: string, priority: nat, id: nat)
    requires !StartsWith(u, "|")
    ensures Convert(Record(Network("|" + u), priority), id)
      == Some(BlockRule(id, priority, UrlFilter(u), ConvertedTypes))
  {
    var pattern := "|" + u;
    assert pattern[..1] == "|";
    assert pattern[1..] == u;
    if |u| >= 1 {
      assert pattern[..2] == "|" + u[..1];
    }
  }

  /** `/R/` becomes the regular expression `R`. */
  lemma {:induction false} RegexRuleConverts(r: string, priority: nat, id: nat)
    ensures Convert(Record(Network("/" + r + "/"), priority), id)
      == Some(BlockRule(id, priority, RegexFilter(r), ConvertedTypes))
  {
    var pattern := "/" + r + "/";
    assert pattern[..1] == "/";
    assert pattern[|pattern| - 1..] == "/";
    assert pattern[1..|pattern| - 1] == r;
  }

  /**
   * A lone `/` both starts and ends with a slash; `substring(1, 0)` swaps its
   * bounds, so the regular expression is `/` itself.
   */
  lemma {:induction false} LoneSlashConverts(priority: nat, id: nat)
    ensures Convert(Record(Network("/"), priority), id)
      == Some(BlockRule(id, priority, RegexFilter("/"), ConvertedTypes))
  {
    assert "/"[..1] == "/";
    assert "/"[0..1] == "/";
  }

  /** The rule converted, as a list of zero or one rules. */
  function Converted(convert: Converter, rule: Record, id: nat): seq<BlockRule>
  {
    match convert(rule, id)
    case Some(r) => [r]
    case None => []
  }

  /** The network records among `rs`, in order. */
  function NetworkOf(rs: seq<Record>): (r: seq<Record>)
    ensures |r| <= |rs|
  {
    if |rs| == 0 then []
    else
      var last := rs[|rs| - 1];
      NetworkOf(rs[..|rs| - 1]) + (if last.kind.Network? then [last] else [])
  }

  /**
   * The rules `convert` emits for network records `net` when the first one
   * gets id `firstId`: every record takes the next id, converted or not.
   */
  function Emitted(convert: Converter, net: seq<Record>, firstId: nat): seq<BlockRule>
  {
    if |net| == 0 then []
    else Emitted(convert, net[..|net| - 1], firstId) + Converted(convert, net[|net| - 1], firstId + |net| - 1)
  }

  /** Only network records are kept, and each comes from `rs`. */
  lemma {:induction false} NetworkOfSound(rs: seq<Record>)
    ensures forall x :: x in NetworkOf(rs) ==> x in rs && x.kind.Network?
  {
    if |rs| > 0 {
      var init := rs[..|rs| - 1];
      NetworkOfSound(init);
      assert forall x :: x in init ==> x in rs;
    }
  }

  /** A conversion that gives every rule the id it was asked to use. */
  ghost predicate KeepsId(convert: Converter)
  {
    forall rule: Record, id: nat :: convert(rule, id).Some? ==> convert(rule, id).value.id == id
  }

  lemma ConvertKeepsId()
    ensures KeepsId(Convert)
  {
  }

  /**
   * The emitted rules carry ids from `firstId` on, strictly increasing (so
   * distinct, possibly with gaps), and each is the conversion of the record
   * its id was given to.
   */
  lemma {:induction false} EmittedIds(convert: Converter, net: seq<Record>, firstId: nat)
    requires KeepsId(convert)
    ensures forall i :: 0 <= i < |Emitted(convert, net, firstId)| ==>
      var r := Emitted(convert, net, firstId)[i];
      firstId <= r.id < firstId + |net| && convert(net[r.id - firstId], r.id) == Some(r)
    ensures forall i, j :: 0 <= i < j < |Emitted(convert, net, firstId)| ==>
      Emitted(convert, net, firstId)[i].id < Emitted(convert, net, firstId)[j].id
  {
    if |net| > 0 {
      var init, last := net[..|net| - 1], net[|net| - 1];
      EmittedIds(convert, init, firstId);
      var before := Emitted(convert, init, firstId);
      var id := firstId + |net| - 1;
      var out := before + Converted(convert, last, id);
      assert Emitted(convert, net, firstId) == out;
      forall i | 0 <= i < |out|
        ensures firstId <= out[i].id < firstId + |net|
        ensures convert(net[out[i].id - firstId], out[i].id) == Some(out[i])
      {
        if i < |before| {
          assert out[i] == before[i];
          assert firstId <= before[i].id < firstId + |init|;
          assert net[before[i].id - firstId] == init[before[i].id - firstId];
        } else {
          assert convert(last, id).Some? && out[i] == convert(last, id).value;
        }
      }
      forall i, j | 0 <= i < j < |out| ensures out[i].id < out[j].id {
        if j < |before| {
          assert out[i] == before[i] && out[j] == before[j];
        } else {
          assert out[i] == before[i];
        }
      }
    }
  }

  /** Every record whose conversion succeeds is emitted. */
  lemma {:induction false} EmittedComplete(convert: Converter, net: seq<Record>, firstId: nat, k: nat)
    requires k < |net| && convert(net[k], firstId + k).Some?
    ensures convert(net[k], firstId + k).value in Emitted(convert, net, firstId)
  {
    var init, last := net[..|net| - 1], net[|net| - 1];
    assert Emitted(convert, net, firstId)
      == Emitted(convert, init, firstId) + Converted(convert, last, firstId + |net| - 1);
    if k < |init| {
      assert net[k] == init[k];
      EmittedComplete(convert, init, firstId, k);
    }
  }

  /** The records gathered from all lists are network records only. */
  lemma {:induction false} ListsNetworkOnlyNetwork(lists: seq<FilterList>)
    ensures forall x :: x in ListsNetwork(lists) ==> x.kind.Network?
  {
    if |lists| > 0 {
      ListsNetworkOnlyNetwork(lists[..|lists| - 1]);
      NetworkOfSound(Records(Classified(Lines(lists[|lists| - 1].content))));
    }
  }

  /**
   * What `setupDeclarativeNetRequest` installs from network records `net`
   * (all of `ListsNetwork` is such, by `ListsNetworkOnlyNetwork`) with a
   * conversion that keeps ids (as `Convert` does, by `ConvertKeepsId`):
   * rules with distinct ids, increasing from `firstId`, each the conversion
   * of the network record that received its id.
   */
  lemma NetworkRules(convert: Converter, net: seq<Record>, firstId: nat)
    requires KeepsId(convert)
    requires forall x :: x in net ==> x.kind.Network?
    ensures forall r :: r in Emitted(convert, net, firstId) ==>
      firstId <= r.id < firstId + |net| && net[r.id - firstId].kind.Network?
      && convert(net[r.id - firstId], r.id) == Some(r)
    ensures var out := Emitted(convert, net, firstId);
      forall i, j :: 0 <= i < j < |out| ==> out[i].id < out[j].id
  {
    EmittedIds(convert, net, firstId);
    var out := Emitted(convert, net, firstId);
    forall r | r in out
      ensures firstId <= r.id < firstId + |net| && net[r.id - firstId].kind.Network?
      ensures convert(net[r.id - firstId], r.id) == Some(r)
    {
      var i :| 0 <= i < |out| && out[i] == r;
      assert net[r.id - firstId] in net;
    }
  }

  /** A filter list as loaded: its name, its address and its text. */
  datatype FilterList = FilterList(name: string, url: string, content: string)

  /** One of the configured `FILTER_LISTS`. */
  datatype Source = Source(name: string, url: string, enabled: bool)

  const Sources: seq<Source> := [
    Source("EasyList", "https://easylist.to/easylist/easylist.txt", true),
    Source("EasyPrivacy", "https://easylist.to/easylist/easyprivacy.txt", true),
    Source("uBlock Origin Filters",
           "https://raw.githubusercontent.com/uBlockOrigin/uAssets/master/filters/filters.txt", true),
    Source("YouTube Ad Blocking",
           "https://raw.githubusercontent.com/uBlockOrigin/uAssets/master/filters/youtube.txt", true)
  ]

  /** The network records of every loaded list, list after list. */
  function ListsNetwork(lists: seq<FilterList>): seq<Record>
  {
    if |lists| == 0 then []
    else
      ListsNetwork(lists[..|lists| - 1])
      + NetworkOf(Records(Classified(Lines(lists[|lists| - 1].content))))
  }

  lemma {:induction false} ListsNetworkStep(lists: seq<FilterList>, k: nat, parsed: seq<Record>)
    requires k < |lists| && parsed == Records(Classified(Lines(lists[k].content)))
    ensures ListsNetwork(lists[..k + 1]) == ListsNetwork(lists[..k]) + NetworkOf(parsed)
  {
    assert lists[..k + 1][..k] == lists[..k];
  }

  /** `dynamicRules.set(rule.id, rule)` for every rule of `rs`, in order. */
  function Stored(m: map<nat, BlockRule>, rs: seq<BlockRule>): map<nat, BlockRule>
  {
    if |rs| == 0 then m
    else
      var last := rs[|rs| - 1];
      Stored(m, rs[..|rs| - 1])[last.id := last]
  }

  /** The ids of the rules `rs`. */
  function Ids(rs: seq<BlockRule>): set<nat>
  {
    set i | 0 <= i < |rs| :: rs[i].id
  }

  lemma {:induction false} IdsSnoc(rs: seq<BlockRule>)
    requires |rs| > 0
    ensures Ids(rs) == Ids(rs[..|rs| - 1]) + {rs[|rs| - 1].id}
  {
    var init := rs[..|rs| - 1];
    forall k | k in Ids(rs) ensures k in Ids(init) + {rs[|rs| - 1].id} {
      var i :| 0 <= i < |rs| && rs[i].id == k;
      if i < |init| { assert init[i] == rs[i]; }
    }
    forall k | k in Ids(init) ensures k in Ids(rs) {
      var i :| 0 <= i < |init| && init[i].id == k;
      assert rs[i] == init[i];
    }
    assert rs[|rs| - 1].id in Ids(rs);
  }

  /**
   * Storing rules with distinct ids: the keys are the old keys and the new
   * ids, each rule sits under its id, and an old key no rule reuses keeps
   * its entry.
   */
  lemma {:induction false} StoredSpec(m: map<nat, BlockRule>, rs: seq<BlockRule>)
    requires forall i, j :: 0 <= i < j < |rs| ==> rs[i].id != rs[j].id
    ensures Stored(m, rs).Keys == m.Keys + Ids(rs)
    ensures forall i :: 0 <= i < |rs| ==> Stored(m, rs)[rs[i].id] == rs[i]
    ensures forall k :: k in m && k !in Ids(rs) ==> Stored(m, rs)[k] == m[k]
  {
    if |rs| > 0 {
      var init, last := rs[..|rs| - 1], rs[|rs| - 1];
      StoredSpec(m, init);
      IdsSnoc(rs);
      forall i | 0 <= i < |rs| ensures Stored(m, rs)[rs[i].id] == rs[i] {
        if i < |init| {
          assert rs[i] == init[i] && rs[i].id != last.id;
        }
      }
    }
  }

  /** The position of the entry named `name`, or |lists| (the key lookup of a `Map`). */
  function NameIndex(lists: seq<FilterList>, name: string): (i: nat)
    ensures i <= |lists|
    ensures i < |lists| ==> lists[i].name == name
    ensures forall k :: 0 <= k < i ==> lists[k].name != name
  {
    if lists == [] || lists[0].name == name then 0 else 1 + NameIndex(lists[1..], name)
  }

  /** No two entries share a name, as in a `Map`. */
  predicate UniqueNames(lists: seq<FilterList>)
  {
    forall i, j :: 0 <= i < j < |lists| ==> lists[i].name != lists[j].name
  }

  /** `filterLists.set(e.name, e)`: an existing key keeps its place, a new key goes last. */
  function MapSet(lists: seq<FilterList>, e: FilterList): seq<FilterList>
  {
    var i := NameIndex(lists, e.name);
    if i < |lists| then lists[i := e] else lists + [e]
  }

  /** The lists after the loading loop has gone through the first |fetched| sources. */
  function Loaded(lists: seq<FilterList>, fetched: seq<Option<string>>): seq<FilterList>
    requires |fetched| <= |Sources|
  {
    if |fetched| == 0 then lists
    else
      var i := |fetched| - 1;
      var prev := Loaded(lists, fetched[..i]);
      if Sources[i].enabled && fetched[i].Some? then
        MapSet(prev, FilterList(Sources[i].name, Sources[i].url, fetched[i].value))
      else prev
  }

  /** `filterLists.get(name)`. */
  function Lookup(lists: seq<FilterList>, name: string): (r: Option<FilterList>)
    ensures r.Some? ==> r.value.name == name
  {
    var i := NameIndex(lists, name);
    if i < |lists| then Some(lists[i]) else None
  }

  /** After `set(e.name, e)`, `get(e.name)` is `e` and every other name reads as before. */
  lemma {:induction false} MapSetLookup(lists: seq<FilterList>, e: FilterList, name: string)
    ensures Lookup(MapSet(lists, e), name) == if name == e.name then Some(e) else Lookup(lists, name)
  {
    var i := NameIndex(lists, e.name);
    var after := MapSet(lists, e);
    var j := NameIndex(lists, name);
    if name == e.name {
      NameIndexAt(after, i, name);
    } else if j < |lists| {
      NameIndexAt(after, j, name);
    } else {
      NameIndexAbsent(after, name);
    }
  }

  lemma {:induction false} NameIndexAt(lists: seq<FilterList>, i: nat, name: string)
    requires i < |lists| && lists[i].name == name
    requires forall k :: 0 <= k < i ==> lists[k].name != name
    ensures NameIndex(lists, name) == i
  {
  }

  lemma {:induction false} NameIndexAbsent(lists: seq<FilterList>, name: string)
    requires forall k :: 0 <= k < |lists| ==> lists[k].name != name
    ensures NameIndex(lists, name) == |lists|
  {
  }

  /** Setting an entry keeps the names distinct. */
  lemma {:induction false} MapSetKeepsUnique(lists: seq<FilterList>, e: FilterList)
    requires UniqueNames(lists)
    ensures UniqueNames(MapSet(lists, e))
  {
  }

  /** The four configured lists have distinct names. */
  lemma SourceNamesDistinct()
    ensures forall i, j :: 0 <= i < j < |Sources| ==> Sources[i].name != Sources[j].name
  {
    assert |Sources[0].name| == 8 && |Sources[1].name| == 11;
    assert |Sources[2].name| == 21 && |Sources[3].name| == 19;
  }

  /** A list whose fetch succeeded is in the map under its name, with the text fetched. */
  lemma {:induction false} LoadedHasFetched(lists: seq<FilterList>, fetched: seq<Option<string>>, i: nat)
    requires |fetched| <= |Sources| && i < |fetched|
    requires Sources[i].enabled && fetched[i].Some?
    ensures Lookup(Loaded(lists, fetched), Sources[i].name)
      == Some(FilterList(Sources[i].name, Sources[i].url, fetched[i].value))
  {
    var n := |fetched| - 1;
    var prev := Loaded(lists, fetched[..n]);
    SourceNamesDistinct();
    if Sources[n].enabled && fetched[n].Some? {
      MapSetLookup(prev, FilterList(Sources[n].name, Sources[n].url, fetched[n].value), Sources[i].name);
    }
    if i < n {
      assert fetched[..n][i] == fetched[i];
      LoadedHasFetched(lists, fetched[..n], i);
    }
  }

  /** A name that no successful fetch among `fetched` sets reads as before. */
  lemma {:induction false} LoadedUntouched(lists: seq<FilterList>, fetched: seq<Option<string>>, name: string)
    requires |fetched| <= |Sources|
    requires forall k :: 0 <= k < |fetched| && fetched[k].Some? && Sources[k].enabled ==> Sources[k].name != name
    ensures Lookup(Loaded(lists, fetched), name) == Lookup(lists, name)
  {
    if |fetched| > 0 {
      var n := |fetched| - 1;
      var prev := Loaded(lists, fetched[..n]);
      if Sources[n].enabled && fetched[n].Some? {
        MapSetLookup(prev, FilterList(Sources[n].name, Sources[n].url, fetched[n].value), name);
      }
      assert forall k :: 0 <= k < n ==> fetched[..n][k] == fetched[k];
      LoadedUntouched(lists, fetched[..n], name);
    }
  }

  /** A list whose fetch failed keeps whatever the map held for it before: possibly an older text. */
  lemma {:induction false} LoadedKeepsFailed(lists: seq<FilterList>, fetched: seq<Option<string>>, i: nat)
    requires |fetched| <= |Sources| && i < |fetched| && fetched[i].None?
    ensures Lookup(Loaded(lists, fetched), Sources[i].name) == Lookup(lists, Sources[i].name)
  {
    SourceNamesDistinct();
    LoadedUntouched(lists, fetched, Sources[i].name);
  }

  /** The worker's module-level state, and the whitelist it keeps in `chrome.storage.sync`. */
  class ServiceWorker {
    var isEnabled: bool
    var filterLists: seq<FilterList>
    var dynamicRules: map<nat, BlockRule>
    var adsBlocked: nat
    /** `stats.dataSaved`, in hundredths of a megabyte. */
    var dataSaved: nat
    var whitelist: seq<string>

    constructor(storedWhitelist: seq<string>)
      ensures isEnabled && filterLists == [] && dynamicRules == map[]
      ensures adsBlocked == 0 && dataSaved == 0
      ensures whitelist == storedWhitelist
    {
      isEnabled := true;
      filterLists := [];
      dynamicRules := map[];
      adsBlocked := 0;
      dataSaved := 0;
      whitelist := storedWhitelist;
    }

    /**
     * `initializeExtension()`: the stored switch, then the lists, then the
     * rules. The switch does not stop the rules from being installed.
     */
    method InitializeExtension(storedEnabled: bool, fetched: seq<Option<string>>) returns (update: RulesUpdate)
      requires |fetched| == |Sources|
      modifies this`isEnabled, this`filterLists, this`dynamicRules
      ensures isEnabled == storedEnabled
      ensures filterLists == Loaded(old(filterLists), fetched)
      ensures update == RulesUpdate(Emitted(Convert, ListsNetwork(filterLists), 1), old(dynamicRules).Keys)
      ensures dynamicRules == Stored(old(dynamicRules), update.addRules)
    {
      isEnabled := storedEnabled;
      LoadFilterLists(fetched);
      update := SetupDeclarativeNetRequest();
    }

    /**
     * `loadFilterLists()`: every enabled source whose fetch succeeded
     * (`fetched[i]` holds its text) is set under its name; a failed fetch
     * leaves the map as it was.
     */
    method LoadFilterLists(fetched: seq<Option<string>>)
      requires |fetched| == |Sources|
      modifies this`filterLists
      ensures filterLists == Loaded(old(filterLists), fetched)
    {
      var i := 0;
      while i < |Sources|
        invariant 0 <= i <= |Sources|
        invariant filterLists == Loaded(old(filterLists), fetched[..i])
      {
        var source := Sources[i];
        assert fetched[..i + 1][..i] == fetched[..i];
        if source.enabled && fetched[i].Some? {
          filterLists := MapSet(filterLists, FilterList(source.name, source.url, fetched[i].value));
        }
        i := i + 1;
      }
      assert fetched[..|Sources|] == fetched;
    }

    /**
     * `setupDeclarativeNetRequest()`: the network records of every list are
     * converted with ids counting from 1; the update removes every id the map
     * holds and adds the converted rules, which are then stored by id.
     */
    method SetupDeclarativeNetRequest() returns (update: RulesUpdate)
      modifies this`dynamicRules
      ensures update == RulesUpdate(Emitted(Convert, ListsNetwork(filterLists), 1), old(dynamicRules).Keys)
      ensures dynamicRules == Stored(old(dynamicRules), update.addRules)
    {
      var rules := ConvertLists(filterLists);
      update := RulesUpdate(rules, dynamicRules.Keys);
      StoreRules(rules);
    }

    /** `rules.forEach(rule => dynamicRules.set(rule.id, rule))`. */
    method StoreRules(rules: seq<BlockRule>)
      modifies this`dynamicRules
      ensures dynamicRules == Stored(old(dynamicRules), rules)
    {
      var i := 0;
      while i < |rules|
        invariant 0 <= i <= |rules|
        invariant dynamicRules == Stored(old(dynamicRules), rules[..i])
      {
        assert rules[..i + 1][..i] == rules[..i];
        dynamicRules := dynamicRules[rules[i].id := rules[i]];
        i := i + 1;
      }
      assert rules[..|rules|] == rules;
    }

    /**
     * `toggleBlocking(enabled)`: switching on installs the rules again;
     * switching off removes every id the map holds and empties it.
     */
    method ToggleBlocking(enabled: bool) returns (update: RulesUpdate)
      modifies this`isEnabled, this`dynamicRules
      ensures isEnabled == enabled
      ensures enabled ==> update == RulesUpdate(Emitted(Convert, ListsNetwork(filterLists), 1), old(dynamicRules).Keys)
      ensures enabled ==> dynamicRules == Stored(old(dynamicRules), update.addRules)
      ensures !enabled ==> update == RulesUpdate([], old(dynamicRules).Keys) && dynamicRules == map[]
    {
      isEnabled := enabled;
      if enabled {
        update := SetupDeclarativeNetRequest();
      } else {
        update := RulesUpdate([], dynamicRules.Keys);
        dynamicRules := map[];
      }
    }

    /** `updateFilterLists()`: the lists loaded again, then the rules installed again. */
    method UpdateFilterLists(fetched: seq<Option<string>>) returns (update: RulesUpdate, success: bool)
      requires |fetched| == |Sources|
      modifies this`filterLists, this`dynamicRules
      ensures filterLists == Loaded(old(filterLists), fetched)
      ensures update == RulesUpdate(Emitted(Convert, ListsNetwork(filterLists), 1), old(dynamicRules).Keys)
      ensures dynamicRules == Stored(old(dynamicRules), update.addRules)
      ensures success
    {
      LoadFilterLists(fetched);
      update := SetupDeclarativeNetRequest();
      success := true;
    }

    /** `recordBlockedAd()`: one more ad, and 0.05 MB more saved. */
    method RecordBlockedAd()
      modifies this`adsBlocked, this`dataSaved
      ensures adsBlocked == old(adsBlocked) + 1
      ensures dataSaved == old(dataSaved) + 5
    {
      adsBlocked := adsBlocked + 1;
      dataSaved := dataSaved + 5;
    }

    /** `addToWhitelist(domain)`: appended only when absent; always reports success. */
    method AddToWhitelist(domain: string) returns (success: bool)
      modifies this`whitelist
      ensures whitelist == AppendIfAbsent(old(whitelist), domain)
      ensures success
    {
      if domain !in whitelist {
        whitelist := whitelist + [domain];
      }
      success := true;
    }

    /** `removeFromWhitelist(domain)`: the first occurrence spliced out; always reports success. */
    method RemoveFromWhitelist(domain: string) returns (success: bool)
      modifies this`whitelist
      ensures whitelist == RemoveFirst(old(whitelist), domain)
      ensures success
    {
      var index := FirstIndex(whitelist, domain);
      if index < |whitelist| {
        whitelist := whitelist[..index] + whitelist[index + 1..];
      }
      success := true;
    }
  }

  /**
   * The outer loop of `setupDeclarativeNetRequest`: every list's records are
   * parsed again and its network records converted, with one id counter
   * running across all lists from 1.
   */
  method ConvertLists(lists: seq<FilterList>) returns (rules: seq<BlockRule>)
    ensures rules == Emitted(Convert, ListsNetwork(lists), 1)
  {
    rules := [];
    var ruleId := 1;
    ghost var net := [];
    var k := 0;
    while k < |lists|
      invariant 0 <= k <= |lists|
      invariant net == ListsNetwork(lists[..k])
      invariant rules == Emitted(Convert, net, 1)
      invariant ruleId == 1 + |net|
    {
      var parsed := ParseFilterRules(lists[k].content);
      var converted;
      converted, ruleId := ConvertNetwork(Convert, ruleId, parsed);
      ListsNetworkStep(lists, k, parsed);
      EmittedAppend(Convert, net, NetworkOf(parsed), 1);
      rules := rules + converted;
      net := net + NetworkOf(parsed);
      k := k + 1;
    }
    assert lists[..|lists|] == lists;
  }

  /**
   * The conversion loop of `setupDeclarativeNetRequest` over one list's
   * records, for any conversion: only network records are converted, each
   * with the next id.
   */
  method ConvertNetwork(convert: Converter, firstId: nat, parsed: seq<Record>)
    returns (out: seq<BlockRule>, nextId: nat)
    ensures out == Emitted(convert, NetworkOf(parsed), firstId)
    ensures nextId == firstId + |NetworkOf(parsed)|
  {
    out := [];
    nextId := firstId;
    ghost var net := [];
    var j := 0;
    while j < |parsed|
      invariant 0 <= j <= |parsed|
      invariant net == NetworkOf(parsed[..j])
      invariant out == Emitted(convert, net, firstId)
      invariant nextId == firstId + |net|
    {
      var rule := parsed[j];
      NetworkOfStep(parsed, j);
      if rule.kind.Network? {
        out, nextId := ConvertRecord(convert, firstId, net, out, nextId, rule);
        net := net + [rule];
      }
      j := j + 1;
    }
    assert parsed[..|parsed|] == parsed;
  }

  /** The conversion of one network record with the next id, pushed when it succeeds. */
  method ConvertRecord(convert: Converter, firstId: nat, ghost net: seq<Record>, out: seq<BlockRule>,
                       nextId: nat, rule: Record)
    returns (out': seq<BlockRule>, nextId': nat)
    requires out == Emitted(convert, net, firstId) && nextId == firstId + |net|
    ensures out' == Emitted(convert, net + [rule], firstId) && nextId' == nextId + 1
  {
    var dnr := convert(rule, nextId);
    EmittedStep(convert, net, rule, firstId, nextId, dnr);
    nextId' := nextId + 1;
    out' := out;
    if dnr.Some? {
      out' := out' + [dnr.value];
    }
  }

  /** One more record seen by the conversion loop: only a network record is kept. */
  lemma {:induction false} NetworkOfStep(parsed: seq<Record>, j: nat)
    requires j < |parsed|
    ensures parsed[j].kind.Network? ==> NetworkOf(parsed[..j + 1]) == NetworkOf(parsed[..j]) + [parsed[j]]
    ensures !parsed[j].kind.Network? ==> NetworkOf(parsed[..j + 1]) == NetworkOf(parsed[..j])
  {
    assert parsed[..j + 1][..j] == parsed[..j];
  }

  /** One more network record converted with the next id `id` adds its conversion, if any. */
  lemma {:induction false} EmittedStep(convert: Converter, net: seq<Record>, rule: Record, firstId: nat,
                                       id: nat, dnr: Option<BlockRule>)
    requires id == firstId + |net| && dnr == convert(rule, id)
    ensures Emitted(convert, net + [rule], firstId)
      == Emitted(convert, net, firstId) + (if dnr.Some? then [dnr.value] else [])
  {
    assert (net + [rule])[..|net|] == net;
  }

  lemma {:induction false} EmittedAppend(convert: Converter, a: seq<Record>, b: seq<Record>, firstId: nat)
    ensures Emitted(convert, a + b, firstId) == Emitted(convert, a, firstId) + Emitted(convert, b, firstId + |a|)
    decreases |b|
  {
    if b == [] {
      assert a + b == a;
    } else {
      var init, last := b[..|b| - 1], b[|b| - 1];
      var ab := a + b;
      EmittedAppend(convert, a, init, firstId);
      assert ab[..|ab| - 1] == a + init;
      assert ab[|ab| - 1] == last;
      var x, y := Emitted(convert, a, firstId), Emitted(convert, init, firstId + |a|);
      var tail := Converted(convert, last, firstId + |a| + |b| - 1);
      calc {
        Emitted(convert, ab, firstId);
        Emitted(convert, a + init, firstId) + tail;
        (x + y) + tail;
        x + (y + tail);
        x + Emitted(convert, b, firstId + |a|);
      }
    }
  }
}

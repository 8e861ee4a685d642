# BlockedAds filter engine, modelled in Dafny

BlockedAds is an ad blocker with a Chrome extension, an Android app and a
test copy of its JavaScript engine. The heart of all three is an
Adblock-style filter engine, and the repository holds several copies of it
that disagree with each other. This project models each copy as written:

- **The test engine** (`tests/blockedads-core-test.js`, module `TestEngine`).
  It classifies filter lines into network rules, exception rules and
  element rules. Its pattern compiler strips `||` and one trailing `^` and
  searches for the pattern anywhere in the text. Its block decision applies
  the switch, then the hostname whitelist, then exceptions, then network
  rules, and it keeps the `adsBlocked`/`dataSaved` counters.
- **The Chrome engine** (`blockedads-mvp-chrome/blockedads-core.js`, module
  `ChromeEngine`). It is the same class, but the compiled pattern is
  anchored at both ends. It also emits declarative block rules with
  consecutive ids.
- **The service worker** (`blockedads-mvp-chrome/background.js`, module
  `Background`). It parses filter lines into tagged records. It converts
  network records to `declarativeNetRequest` rules (`||`, `|`, `/regex/`,
  else nothing), assigns ids and keeps the `dynamicRules` map. It also
  keeps a duplicate-free whitelist array.
- **The content script** (`blockedads-mvp-chrome/content.js`, module
  `Content`). It builds a cosmetic-filter index keyed by domain, selects the
  host's filters and then the global filters, and cancels requests to
  hosts that contain one of six ad domains.
- **The two popups** (`popup/blockedads-popup.js`, module `CorePopup`, and
  `popup/popup.js`, module `MessagePopup`). Both use the domain validator
  (module `DomainInput`) and the same choice between the typed domain and
  the current tab's domain. The first popup edits its own whitelist; the
  second asks the service worker to do it.
- **The Android web view client** (`BlockedAdsWebViewClient.java`, module
  `AndroidClient`). It has a fixed set of 18 `.*fragment.*` patterns
  matched case-insensitively, and a file-local statistics class that the
  client builds without a context.
- **The Android statistics** (`BlockedAdsStats.java`, module
  `AndroidStats`). These are counters over a preferences store (module
  `AndroidPrefs`), with Java `int` wrap-around and truncating division.
- **The Android address bars** (`YouTubeBrowserActivity.java` and
  `BlockedAdsWebViewActivity.java`, module `AddressBar`).

Shared modules:

- `Text`: JavaScript and Java trimming, `indexOf`, `split`/`join`, ASCII
  case folding.
- `Matcher`: a compiled regular expression as a sequence of tokens
  (`Lit`, `AnyOne`, `Star`, `Start`), with whole-string and search
  matching. `.` refuses line terminators, and the JavaScript and Java
  dialects differ in which characters those are.
- `Urls`: hostname extraction over an abstract URL parser, falling back to
  the raw text.
- `FilterSyntax`: the line classifier the three engines share.
- `RuleLists`: the engines' three rule lists.
- `Whitelists`: the list operations on whitelist arrays.
- `Dnr`: the declarative rule records.

`dataSaved` in the JavaScript engines is kept in integer hundredths of a
megabyte (5 per blocked ad). The engines compute `adsBlocked * 0.05`
rounded to two decimals, which is that value.

## Behaviour that differs from what the rule syntax suggests

The model follows the code in each of these cases.

- `background.js:244-255`: a lone `/` rule has no interior, so an empty
  `regexFilter` would be expected. JavaScript's `substring(1, 0)` swaps its
  bounds, so the code produces `"/"` (`Background.LoneSlashConverts`).
- `blockedads-core.js:120-128`: the Chrome engine escapes `|` and `^` and
  anchors the whole pattern. So `||example.com^` matches only text that
  begins with `||`, and never a URL (`ChromeEngine.DomainRuleNeedsBar`,
  `ChromeEngine.ExampleDomainRuleMissesHost`). The Chrome test file expects
  the opposite; `jest.config.js:9` leaves that file out of the test suite.
- `tests/blockedads-core-test.js:92-108`: in the test engine an interior
  `^` is left as a start-of-text anchor. A rule with a `^` after any
  character never matches, including every `||host^$option` rule
  (`TestEngine.InteriorCaretNeverMatches`, `TestEngine.OptionAfterCaretIsDead`).
- `content.js:54-78`: the content script has no `@@` check, so `@@x##y`
  is indexed under the domain `@@x` (`Content.ExceptionSyntaxIndexed`).
- The domain validator's first label may hold up to 63 characters. It may
  end in a hyphen (`a-.com` is accepted) unless it is 63 characters long
  (`blockedads-popup.js:325`, `DomainInput.FirstLabel`).

## Model

| member | source | states |
|---|---|---|
| Text.TrimStartSpec | tests/blockedads-core-test.js:59 | the leading half of `trim` leaves a suffix of the input and removes only whitespace of the dialect |
| Text.TrimEndSpec | tests/blockedads-core-test.js:59 | the trailing half of `trim` leaves a prefix of the input and removes only whitespace of the dialect |
| Text.TrimIdempotent | blockedads-mvp-chrome/popup/blockedads-popup.js:206 | trimming a trimmed string changes nothing |
| Text.TrimEnds | blockedads-mvp-android/src/main/java/com/blockedads/app/YouTubeBrowserActivity.java:92 | a trimmed string is empty or begins and ends with a non-whitespace character |
| Text.IndexOfFirst | tests/blockedads-core-test.js:67 | `indexOf` gives the first occurrence, or none when the text does not occur |
| Text.JoinSplit | tests/blockedads-core-test.js:84 | joining the fields of `split(sep)` with `sep` gives back the original string |
| Text.FieldsLayout | tests/blockedads-core-test.js:84-85 | the first two fields of `split('##')` are the text before the first `##` and the text between the first and second `##` |
| Urls.ExtractDomain | tests/blockedads-core-test.js:162-168 | the parsed hostname when the URL parses, and otherwise the raw input unchanged, so extraction never fails |
| Matcher.LitsRun | tests/blockedads-core-test.js:92-108 | a run of literal tokens matches exactly where the text occurs, ignoring ASCII case |
| Matcher.StarRun | tests/blockedads-core-test.js:104 | `.*` consumes any run of characters without a line terminator |
| Matcher.SearchFromIff | tests/blockedads-core-test.js:107 | an unanchored search succeeds iff the pattern matches from some start position |
| Matcher.SearchLiteralIff | tests/blockedads-core-test.js:92-108 | searching for a literal pattern succeeds iff the text contains it, ignoring case |
| Matcher.FullMatchLiteralIff | blockedads-mvp-chrome/blockedads-core.js:120-128 | an anchored literal pattern matches iff the text equals it, ignoring case |
| Matcher.WrappedFullMatchIff | blockedads-mvp-android/src/main/java/com/blockedads/app/BlockedAdsWebViewClient.java:104-140 | `.*w.*` matches a whole string iff the string has no line terminator and contains `w`, ignoring case |
| Matcher.TailRunIff | blockedads-mvp-android/src/main/java/com/blockedads/app/BlockedAdsWebViewClient.java:133-140 | `w.*` matches to the end from `k` iff `w` occurs at `k` and no line terminator follows it |
| Matcher.StartUnreachable | tests/blockedads-core-test.js:97-101 | a `^` anchor can only match at position 0 |
| Matcher.StartAfterConsumingNeverMatches | tests/blockedads-core-test.js:97-101 | a `^` anchor after a token that consumes a character never matches |
| Matcher.LiteralIsFound | tests/blockedads-core-test.js:92-108 | each literal token of a successful match meets a character of the text equal to it up to case |
| Matcher.MissingLiteralNeverFound | tests/blockedads-core-test.js:92-108 | a pattern holding a letter that the text lacks in both cases is never found |
| FilterSyntax.DomainKey | tests/blockedads-core-test.js:86 | the element rule's domain, or `*` when it is empty; never empty |
| FilterSyntax.ClassifyInverse | tests/blockedads-core-test.js:55-73 | the trimmed line is skipped (empty, `!`, `[`), is `@@` + the exception pattern, is `domain##selector…` with the domain key and selector, or is the network pattern itself, which has no `@@` prefix and no `##` |
| FilterSyntax.ExceptionTestedFirst | blockedads-mvp-chrome/blockedads-core.js:79-91 | `@@` is tested before `##`: `@@a##b` is an exception with pattern `a##b` |
| FilterSyntax.Classified | tests/blockedads-core-test.js:56-72 | each line is classified on its own, in input order |
| FilterSyntax.Kept | tests/blockedads-core-test.js:61 | only lines that are not skipped remain |
| FilterSyntax.KindsPartition | tests/blockedads-core-test.js:55-73 | every kept line lands in exactly one of the three collections |
| FilterSyntax.RuleTypeFromOptions | blockedads-mvp-chrome/blockedads-core.js:133-141 | the rule type is decided by the text between the first and second `$` alone |
| RuleLists.CreateRules | tests/blockedads-core-test.js:75-81 | one rule per pattern, rule `i` holding pattern `i` |
| RuleLists.CreateElementRules | tests/blockedads-core-test.js:83-90 | one element rule per domain–selector pair, rule `i` holding pair `i`'s domain and selector |
| RuleLists.ParseKind | tests/blockedads-core-test.js:61-71 | one classified line appends its rule to exactly its own list and leaves the other two alone |
| RuleLists.ParseFromPartition | tests/blockedads-core-test.js:55-73 | after a parse each list is the old list followed by the rules of its own kind, in input order |
| TestEngine.StripAnchors | tests/blockedads-core-test.js:96-98 | exactly one leading `\|\|` (when present) and one trailing `^` (when present) are removed |
| TestEngine.AnyMatch | tests/blockedads-core-test.js:142-144 | true iff some rule's regex matches the text |
| TestEngine.AnyMatchEither | tests/blockedads-core-test.js:146-152 | true iff some rule's regex matches the URL or the hostname |
| TestEngine.FilterEngine.constructor | tests/blockedads-core-test.js:7-18 | empty rule lists, zero counters, enabled, empty whitelist |
| TestEngine.FilterEngine.Init | tests/blockedads-core-test.js:20-53 | the mock rules are parsed into the lists; the counters are unchanged |
| TestEngine.FilterEngine.ParseFilterRules | tests/blockedads-core-test.js:55-73 | the lists become the parse of the text's lines |
| TestEngine.FilterEngine.ParseLine | tests/blockedads-core-test.js:58-72 | one line is added to its own list |
| TestEngine.FilterEngine.LoadBasicRules | tests/blockedads-core-test.js:120-134 | the built-in patterns are appended to the network rules only |
| TestEngine.FilterEngine.ShouldBlockUrl | tests/blockedads-core-test.js:136-155 | the answer is the engine's decision; a block adds exactly 1 to `adsBlocked` and recomputes `dataSaved`; otherwise nothing changes |
| TestEngine.FilterEngine.UpdateStats | tests/blockedads-core-test.js:157-160 | `dataSaved` becomes 5 hundredths per blocked ad |
| TestEngine.FilterEngine.AddToWhitelist | tests/blockedads-core-test.js:170-172 | the whitelist set gains the domain; nothing else changes |
| TestEngine.FilterEngine.RemoveFromWhitelist | tests/blockedads-core-test.js:174-176 | the whitelist set loses the domain; nothing else changes |
| TestEngine.FilterEngine.ToggleBlocking | tests/blockedads-core-test.js:178-180 | only the switch changes |
| TestEngine.PlainDomainRule | tests/blockedads-core-test.js:92-108 | `\|\|d^` with a plain `d` compiles to the literal `d` |
| TestEngine.DomainRuleIsSubstringTest | tests/blockedads-core-test.js:92-108 | `\|\|d^` matches a text iff the text contains `d`, ignoring case |
| TestEngine.DomainRuleInUrl | tests/blockedads-simple-tests.js:102-107 | `\|\|d^` matches every URL that contains `d`, anywhere |
| TestEngine.DomainRuleMisses | tests/blockedads-simple-tests.js:102-107 | `\|\|d^` misses a text that lacks one of its letters in both cases |
| TestEngine.ExampleDomainRuleHost | tests/blockedads-simple-tests.js:102-107 | `\|\|example.com^` matches `https://example.com/path` |
| TestEngine.ExampleDomainRuleSubdomain | tests/blockedads-simple-tests.js:102-107 | `\|\|example.com^` matches `https://subdomain.example.com/path` |
| TestEngine.ExampleDomainRuleOther | tests/blockedads-simple-tests.js:102-107 | `\|\|example.com^` does not match `https://other.com/path` |
| TestEngine.StarDomainRule | tests/blockedads-core-test.js:92-108 | `\|\|a*b^` compiles to `a`, any run, `b` |
| TestEngine.StarDomainRuleInUrl | tests/blockedads-simple-tests.js:109-114 | `\|\|a*b^` matches any text with `a` followed later by `b` on one line |
| TestEngine.StarDomainRuleMisses | tests/blockedads-simple-tests.js:109-114 | `\|\|a*b^` misses a text that lacks one of the letters of `a` |
| TestEngine.WildcardDomainRuleEmptyRun | tests/blockedads-simple-tests.js:109-114 | `\|\|ads*.example.com^` matches an `ads.` host |
| TestEngine.WildcardDomainRuleDigits | tests/blockedads-simple-tests.js:109-114 | `\|\|ads*.example.com^` matches an `ads123.` host |
| TestEngine.WildcardDomainRuleBare | tests/blockedads-simple-tests.js:109-114 | `\|\|ads*.example.com^` does not match bare `example.com` |
| TestEngine.InteriorCaretNeverMatches | tests/blockedads-core-test.js:92-108 | a pattern with a `^` after a consuming character never matches anything |
| TestEngine.OptionAfterCaretTyped | tests/blockedads-core-test.js:110-118 | `\|\|d^$opt` gets the type named by its options |
| TestEngine.OptionAfterCaretIsDead | tests/blockedads-core-test.js:92-108 | `\|\|d^$opt` never matches any text |
| TestEngine.ScriptOptionRuleIsDead | tests/blockedads-core-test.js:120-134 | the typed basic rule `\|\|ads.com^$script` is a script rule that never matches |
| TestEngine.EmptyPatternMatchesAll | tests/blockedads-core-test.js:92-108 | a pattern that strips to nothing matches every text |
| TestEngine.NoRulesBlockNothing | tests/blockedads-simple-tests.js:184-192 | with the network rules emptied no URL is blocked |
| TestEngine.WhitelistedHostNeverBlocked | tests/blockedads-core-test.js:139-140 | a URL whose hostname is whitelisted is never blocked |
| TestEngine.UnparsableUrlTestedRaw | tests/blockedads-simple-tests.js:174-182 | an unparsable URL is tested as raw text against the rules, without failing |
| ChromeEngine.PatternToRegex | blockedads-mvp-chrome/blockedads-core.js:120-128 | one token per pattern character: `*` becomes `.*`, `?` becomes `.`, and every other character, escaped when special, matches itself literally |
| ChromeEngine.IdRange | blockedads-mvp-chrome/blockedads-core.js:330-331 | the ids from `lo` to `hi`, both included |
| ChromeEngine.DeclarativeRules | blockedads-mvp-chrome/blockedads-core.js:177-196 | one block rule per admitted pattern, rule `i` with id `i + 1`, priority 1 and that pattern as its URL filter |
| ChromeEngine.AnyMatch | blockedads-mvp-chrome/blockedads-core.js:209-220 | true iff some rule's regex full-matches the text |
| ChromeEngine.FilterEngine.constructor | blockedads-mvp-chrome/blockedads-core.js:7-20 | empty rule lists, zero counters, enabled, empty whitelist |
| ChromeEngine.FilterEngine.Init | blockedads-mvp-chrome/blockedads-core.js:25-35 | settings loaded; the fetched text parsed, or the basic rules when the fetch fails; the emitted rules are the admitted patterns, each adds 1 to `adsBlocked`, and `dataSaved` is recomputed when any rule was emitted |
| ChromeEngine.FilterEngine.LoadSettings | blockedads-mvp-chrome/blockedads-core.js:40-48 | switch and whitelist from storage; the lists and counters are unchanged |
| ChromeEngine.FilterEngine.LoadFilterRules | blockedads-mvp-chrome/blockedads-core.js:53-63 | the fetched text is parsed, or the basic rules are loaded when the fetch fails |
| ChromeEngine.FilterEngine.ParseFilterRules | blockedads-mvp-chrome/blockedads-core.js:68-92 | the lists become the parse of the text's lines |
| ChromeEngine.FilterEngine.ParseLine | blockedads-mvp-chrome/blockedads-core.js:72-91 | one line is added to its own list |
| ChromeEngine.FilterEngine.LoadBasicRules | blockedads-mvp-chrome/blockedads-core.js:146-161 | the built-in patterns are appended to the network rules only |
| ChromeEngine.FilterEngine.CreateDeclarativeRules | blockedads-mvp-chrome/blockedads-core.js:177-196 | the output is one rule per network rule that passes `shouldBlockUrl` on its own pattern, with ids 1, 2, 3…; `adsBlocked` rises by the number emitted |
| ChromeEngine.FilterEngine.EmitIfBlocked | blockedads-mvp-chrome/blockedads-core.js:182-192 | one pattern is appended with the next id exactly when it is blocked |
| ChromeEngine.FilterEngine.ShouldBlockUrl | blockedads-mvp-chrome/blockedads-core.js:201-223 | the answer is the engine's decision; a block adds exactly 1 to `adsBlocked`; otherwise nothing changes |
| ChromeEngine.FilterEngine.UpdateStats | blockedads-mvp-chrome/blockedads-core.js:278-287 | `dataSaved` becomes 5 hundredths per blocked ad |
| ChromeEngine.FilterEngine.ToggleBlocking | blockedads-mvp-chrome/blockedads-core.js:323-334 | on: the rules are emitted again, each counted, with `dataSaved` recomputed when any was emitted; off: ids 1 to 1000 are removed and the counters kept; the lists and whitelist are kept |
| ChromeEngine.FilterEngine.AddToWhitelist | blockedads-mvp-chrome/blockedads-core.js:339-343 | the whitelist set gains the domain; nothing else changes |
| ChromeEngine.FilterEngine.RemoveFromWhitelist | blockedads-mvp-chrome/blockedads-core.js:348-352 | the whitelist set loses the domain; nothing else changes |
| ChromeEngine.SelfMatch | blockedads-mvp-chrome/blockedads-core.js:120-128 | every rule's regex matches its own pattern text |
| ChromeEngine.PlainPatternMatchesOnlyItself | blockedads-mvp-chrome/blockedads-core.js:120-128 | a pattern without `*` or `?` matches exactly its own text, ignoring case |
| ChromeEngine.DomainRuleNeedsBar | blockedads-mvp-chrome/blockedads-core.js:120-128 | `\|\|d^` never matches a text that does not begin with `\|` |
| ChromeEngine.ExampleDomainRuleMissesHost | tests/blockedads-chrome-tests.js:148-160 | `\|\|example.com^` does not match `https://example.com/path` on this engine |
| ChromeEngine.EveryRuleAdmitted | blockedads-mvp-chrome/blockedads-core.js:177-196 | when enabled and no exception applies, every network rule is emitted, in order |
| ChromeEngine.AdmittedSound | blockedads-mvp-chrome/blockedads-core.js:181-193 | only rules whose own pattern is blocked are emitted |
| ChromeEngine.DisabledAdmitsNothing | blockedads-mvp-chrome/blockedads-core.js:202 | a disabled engine emits no rule |
| ChromeEngine.DeclarativeIdsConsecutive | blockedads-mvp-chrome/blockedads-core.js:179-191 | the emitted ids are 1, 2, 3… in order, each rule with its own pattern as URL filter |
| ChromeEngine.WhitelistedHostNeverBlocked | blockedads-mvp-chrome/blockedads-core.js:205-206 | a URL whose hostname is whitelisted is never blocked |
| Background.RecordsAreKept | blockedads-mvp-chrome/background.js:135-175 | exactly one record per kept line, in line order, each with priority 1 |
| Background.ParseFilterRules | blockedads-mvp-chrome/background.js:135-175 | the records of the content's lines |
| Background.DropTrailingCaret | blockedads-mvp-chrome/background.js:222 | exactly one trailing `^` is removed, when present |
| Background.Convert | blockedads-mvp-chrome/background.js:215-262 | a rule results iff the record is a network rule starting with `\|` or enclosed in `/`; it carries the given id and the record's priority |
| Background.DomainRuleConverts | blockedads-mvp-chrome/background.js:220-231 | `\|\|d^` becomes URL filter `*://d/*` |
| Background.DomainRuleWithoutCaretConverts | blockedads-mvp-chrome/background.js:220-231 | `\|\|d` becomes URL filter `*://d/*` |
| Background.BarRuleConverts | blockedads-mvp-chrome/background.js:232-243 | `\|u` becomes URL filter `u` |
| Background.RegexRuleConverts | blockedads-mvp-chrome/background.js:244-255 | `/r/` becomes regex filter `r` |
| Background.LoneSlashConverts | blockedads-mvp-chrome/background.js:244-255 | a lone `/` becomes regex filter `/` |
| Background.NetworkOfSound | blockedads-mvp-chrome/background.js:187 | only network records are installed |
| Background.EmittedIds | blockedads-mvp-chrome/background.js:178-194 | every emitted rule converts the network rule its id counts to; ids strictly increase |
| Background.EmittedComplete | blockedads-mvp-chrome/background.js:183-194 | every network rule that converts is emitted under its own id |
| Background.NetworkRules | blockedads-mvp-chrome/background.js:183-194 | emitted ids come from network rules, lie in the id range and strictly increase, with gaps where conversion fails |
| Background.StoredSpec | blockedads-mvp-chrome/background.js:204-206 | after storing, the keys are the old keys plus the new ids; each new rule is under its id; untouched old keys keep their rules |
| Background.Lookup | blockedads-mvp-chrome/background.js:8 | a found list has the name looked up |
| Background.MapSetLookup | blockedads-mvp-chrome/background.js:120-125 | setting a list replaces that name's entry and leaves the others |
| Background.MapSetKeepsUnique | blockedads-mvp-chrome/background.js:120-125 | the filter-list map keeps one entry per name |
| Background.LoadedHasFetched | blockedads-mvp-chrome/background.js:114-132 | an enabled list whose fetch succeeds is stored with its content |
| Background.LoadedKeepsFailed | blockedads-mvp-chrome/background.js:114-132 | a failed fetch leaves that list's entry as it was |
| Background.LoadedUntouched | blockedads-mvp-chrome/background.js:114-132 | names that no successful fetch touches keep their entries |
| Background.ServiceWorker.constructor | blockedads-mvp-chrome/background.js:7-14 | enabled, no lists, no dynamic rules, zero counters |
| Background.ServiceWorker.InitializeExtension | blockedads-mvp-chrome/background.js:91-112 | switch from storage, lists loaded, rules emitted and stored |
| Background.ServiceWorker.LoadFilterLists | blockedads-mvp-chrome/background.js:114-132 | the lists become the loaded lists |
| Background.ServiceWorker.SetupDeclarativeNetRequest | blockedads-mvp-chrome/background.js:178-212 | the update removes all old ids and adds the emitted rules; the map stores them under their ids |
| Background.ServiceWorker.ToggleBlocking | blockedads-mvp-chrome/background.js:265-278 | on: rules emitted again; off: every stored id removed and the map emptied |
| Background.ServiceWorker.UpdateFilterLists | blockedads-mvp-chrome/background.js:281-285 | lists reloaded, rules emitted again, success |
| Background.ServiceWorker.RecordBlockedAd | blockedads-mvp-chrome/background.js:288-301 | one more blocked ad, 5 more hundredths saved |
| Background.ServiceWorker.AddToWhitelist | blockedads-mvp-chrome/background.js:304-314 | the domain is appended only when absent; success |
| Background.ServiceWorker.RemoveFromWhitelist | blockedads-mvp-chrome/background.js:316-327 | the first occurrence is deleted, nothing when absent; success |
| Background.ConvertLists | blockedads-mvp-chrome/background.js:183-194 | the rules emitted from every list's network records, ids from 1 |
| Background.ConvertNetwork | blockedads-mvp-chrome/background.js:186-193 | one list's network records converted, the id advancing once per network record |
| Whitelists.AppendIfAbsent | blockedads-mvp-chrome/background.js:308-309 | the domain is in the result, the members are the old ones plus the domain, and the list grows only when the domain was absent |
| Whitelists.FirstIndex | blockedads-mvp-chrome/background.js:320 | `indexOf`: the first position of the domain, or the length when it is absent |
| Whitelists.AppendIfAbsentKeepsNoDuplicates | blockedads-mvp-chrome/background.js:304-314 | a duplicate-free list stays duplicate-free, and adding twice equals adding once |
| Whitelists.RemoveFirstCounts | blockedads-mvp-chrome/background.js:316-327 | `splice` removes exactly one copy of a present domain and nothing when it is absent |
| Whitelists.RemoveFirstShifts | blockedads-mvp-chrome/background.js:320-322 | the elements after the removed one move down by one, the others stay |
| Whitelists.RemoveFirstFromNoDuplicates | blockedads-mvp-chrome/background.js:316-327 | on a duplicate-free list the domain is gone, the others remain, and the list stays duplicate-free |
| Whitelists.RemoveAllSpec | blockedads-mvp-chrome/popup/blockedads-popup.js:256 | `filter` removes every copy of the domain, keeps every other domain's count, and is idempotent |
| Whitelists.RemoveAllIsSubsequence | blockedads-mvp-chrome/popup/blockedads-popup.js:256 | the remaining domains keep their order |
| Content.CosmeticEntryAgrees | blockedads-mvp-chrome/content.js:54-78 | the content script indexes exactly the cosmetic lines of the shared classifier, plus `@@` lines that contain `##` |
| Content.ExceptionSyntaxIndexed | blockedads-mvp-chrome/content.js:61-74 | `@@x##y` is indexed under the domain `@@x` |
| Content.IndexedLists | blockedads-mvp-chrome/content.js:67-78 | each key's list is its old list followed by the new filters for that key, in input order |
| Content.IndexedKeys | blockedads-mvp-chrome/content.js:70-72 | the keys are the old keys plus the new filters' domains |
| Content.IndexedFiled | blockedads-mvp-chrome/content.js:67-78 | every filter stays filed under its own domain |
| Content.SelectedDomains | blockedads-mvp-chrome/content.js:104-109 | a filter is selected for a host iff it is filed under that host or under `*` |
| Content.SelectedFromEmpty | blockedads-mvp-chrome/content.js:104-109 | from a fresh index, the host's filters come first, then the global ones |
| Content.FirstContained | blockedads-mvp-chrome/content.js:290-295 | some ad domain is reported iff the hostname contains one |
| Content.FirstContainedIsFirst | blockedads-mvp-chrome/content.js:290-295 | the reported domain is the first in list order that the hostname contains |
| Content.LookAlikeMatches | blockedads-mvp-chrome/content.js:281-295 | any hostname containing an ad domain, look-alikes included, is matched |
| Content.ContentScript.constructor | blockedads-mvp-chrome/content.js:7-12 | enabled, empty index, zero counters |
| Content.ContentScript.ParseCosmeticFilters | blockedads-mvp-chrome/content.js:54-80 | the index gains the cosmetic entries of the content's lines |
| Content.ContentScript.AddLine | blockedads-mvp-chrome/content.js:56-78 | a line without an entry leaves the index; an entry is pushed under its key |
| Content.ContentScript.RecordBlockedAd | blockedads-mvp-chrome/content.js:255-269 | one more blocked ad, 5 more hundredths saved |
| Content.ContentScript.HandleNetworkRequest | blockedads-mvp-chrome/content.js:272-298 | disabled: no cancel, no count and no matched domain; an unparsable URL throws, with no matched domain; otherwise cancel iff the hostname contains an ad domain; a cancel counts one ad |
| DomainInput.HeadPartIff | blockedads-mvp-chrome/popup/blockedads-popup.js:325 | the pattern's first part matches exactly a first label: 1 to 63 letters, digits and hyphens, starting with a letter or digit, and ending with one when it is 63 long |
| DomainInput.ValidDomainIff | blockedads-mvp-chrome/popup/blockedads-popup.js:324-327 | the validator accepts iff the dot-separated labels are a first label followed by one or two letter-only labels of length at least 2; an accepted domain has one or two dots |
| DomainInput.AcceptedFromLabels | blockedads-mvp-chrome/popup/popup.js:384-387 | well-formed labels are accepted by the validator |
| DomainInput.PlainDomainAccepted | tests/blockedads-chrome-tests.js:300-304 | `example.com` is accepted |
| DomainInput.SubdomainAccepted | tests/blockedads-chrome-tests.js:300-304 | `subdomain.example.com` is accepted |
| DomainInput.CountrySuffixAccepted | tests/blockedads-chrome-tests.js:300-304 | `example.co.uk` is accepted |
| DomainInput.ExamplesRejected | tests/blockedads-chrome-tests.js:306-310 | `invalid`, the empty string and `example.` are rejected |
| DomainInput.SelectDomainSpec | blockedads-mvp-chrome/popup/blockedads-popup.js:204-223 | blank input picks the current domain when it is non-empty and nothing otherwise; other input is picked iff it passes the validator, and the alert is shown iff it does not |
| DomainInput.SelectDomainIgnoresPadding | blockedads-mvp-chrome/popup/popup.js:250-252 | surrounding whitespace does not change the choice |
| CorePopup.AfterAddSpec | blockedads-mvp-chrome/popup/blockedads-popup.js:204-249 | the list is unchanged or gains one domain at the end; the new domain is the current one for blank input, else the typed text, which is valid; blank input without a current domain and invalid input change nothing; no duplicates are introduced |
| CorePopup.AfterAddIdempotent | blockedads-mvp-chrome/popup/blockedads-popup.js:229-249 | pressing Add twice has the effect of pressing it once |
| CorePopup.RemoveUndoesAdd | blockedads-mvp-chrome/popup/blockedads-popup.js:229-272 | adding then removing a domain equals removing it alone |
| CorePopup.AddAfterRemove | blockedads-mvp-chrome/popup/blockedads-popup.js:229-272 | removing then adding a domain leaves it once, at the end |
| CorePopup.Popup.constructor | blockedads-mvp-chrome/popup/blockedads-popup.js:7-14 | enabled, empty whitelist, no current domain |
| CorePopup.Popup.LoadSettings | blockedads-mvp-chrome/popup/blockedads-popup.js:34-42 | switch and whitelist from storage, defaulting to on and empty |
| CorePopup.Popup.GetCurrentTab | blockedads-mvp-chrome/popup/blockedads-popup.js:62-71 | a tab with a URL sets the current domain to its extracted domain; otherwise the domain is kept |
| CorePopup.Popup.AddDomainToWhitelist | blockedads-mvp-chrome/popup/blockedads-popup.js:229-249 | the domain is appended only when absent, and the answer says whether it was |
| CorePopup.Popup.RemoveFromWhitelist | blockedads-mvp-chrome/popup/blockedads-popup.js:254-272 | every copy of the domain is removed and the other counts are kept |
| CorePopup.Popup.AddToWhitelist | blockedads-mvp-chrome/popup/blockedads-popup.js:204-224 | the list is the add result; the alert shows iff the text is non-blank and invalid; the box is cleared iff it is valid |
| MessagePopup.PopupsAgreeOnAdd | blockedads-mvp-chrome/popup/popup.js:250-270 | the service worker's handling of this popup's request leaves the same list as the other popup's own add |
| MessagePopup.PopupsAgreeOnRemove | blockedads-mvp-chrome/popup/popup.js:293-306 | on a duplicate-free list, the service worker's removal equals the other popup's filter |
| MessagePopup.RemoveFirstMatchesRemoveAll | blockedads-mvp-chrome/background.js:316-327 | without duplicates, deleting the first copy deletes every copy |
| MessagePopup.Popup.constructor | blockedads-mvp-chrome/popup/popup.js:7-14 | no current domain |
| MessagePopup.Popup.GetCurrentTab | blockedads-mvp-chrome/popup/popup.js:62-71 | a tab with a URL sets the current domain; otherwise it is kept |
| MessagePopup.Popup.AddToWhitelist | blockedads-mvp-chrome/popup/popup.js:250-270 | a request always adds a non-empty domain; blank input asks for the current domain only when there is one; invalid input sends nothing and alerts; valid input sends the trimmed text (one or two dots) and clears the box |
| MessagePopup.Popup.RemoveFromWhitelist | blockedads-mvp-chrome/popup/popup.js:293-306 | the remove request names the domain |
| AndroidPrefs.WrapInt | blockedads-mvp-android/src/main/java/com/blockedads/app/BlockedAdsStats.java:41-52 | Java `int` arithmetic: the result is a 32-bit value congruent to the exact one |
| AndroidPrefs.WrapIntRange | blockedads-mvp-android/src/main/java/com/blockedads/app/BlockedAdsStats.java:41-45 | values in range are unchanged, and one past the maximum wraps to the minimum |
| AndroidPrefs.JavaDiv | blockedads-mvp-android/src/main/java/com/blockedads/app/BlockedAdsStats.java:94-96 | division truncating toward zero, for either sign of the dividend |
| AndroidPrefs.GetInt | blockedads-mvp-android/src/main/java/com/blockedads/app/BlockedAdsStats.java:34-36 | the stored value, or the default when the key is absent |
| AndroidPrefs.GetLong | blockedads-mvp-android/src/main/java/com/blockedads/app/BlockedAdsStats.java:87-89 | the stored value, or the default when the key is absent |
| AndroidStats.Stats.constructor | blockedads-mvp-android/src/main/java/com/blockedads/app/BlockedAdsStats.java:21-28 | the start time is written only when absent; nothing else changes |
| AndroidStats.Stats.AdsBlocked | blockedads-mvp-android/src/main/java/com/blockedads/app/BlockedAdsStats.java:34-36 | 0 when never written |
| AndroidStats.Stats.YouTubeSessions | blockedads-mvp-android/src/main/java/com/blockedads/app/BlockedAdsStats.java:72-74 | 0 when never written |
| AndroidStats.Stats.DataSaved | blockedads-mvp-android/src/main/java/com/blockedads/app/BlockedAdsStats.java:57-59 | 0 when never written |
| AndroidStats.Stats.StartTime | blockedads-mvp-android/src/main/java/com/blockedads/app/BlockedAdsStats.java:87-89 | the current time when never written |
| AndroidStats.Stats.RuntimeMinutes | blockedads-mvp-android/src/main/java/com/blockedads/app/BlockedAdsStats.java:94-96 | the whole minutes since the start, non-negative when the clock has not gone back |
| AndroidStats.Stats.DailyAdsBlocked | blockedads-mvp-android/src/main/java/com/blockedads/app/BlockedAdsStats.java:126-130 | equals the total |
| AndroidStats.Stats.DailyDataSaved | blockedads-mvp-android/src/main/java/com/blockedads/app/BlockedAdsStats.java:135-139 | equals the total |
| AndroidStats.Stats.IncrementAdsBlocked | blockedads-mvp-android/src/main/java/com/blockedads/app/BlockedAdsStats.java:41-45 | the count rises by exactly 1 below the `int` maximum; no other key changes |
| AndroidStats.Stats.AddAdsBlocked | blockedads-mvp-android/src/main/java/com/blockedads/app/BlockedAdsStats.java:49-52 | the count rises by `count` when no overflow occurs; no other key changes |
| AndroidStats.Stats.AddDataSaved | blockedads-mvp-android/src/main/java/com/blockedads/app/BlockedAdsStats.java:64-67 | the stored megabytes grow by `mb`; no other key changes |
| AndroidStats.Stats.IncrementYouTubeSessions | blockedads-mvp-android/src/main/java/com/blockedads/app/BlockedAdsStats.java:79-82 | the session count rises by exactly 1; no other key changes |
| AndroidStats.Stats.ResetStats | blockedads-mvp-android/src/main/java/com/blockedads/app/BlockedAdsStats.java:101-108 | ads, data and sessions read 0 and the start time is now |
| AndroidStats.FreshStoreReadsZero | tests/blockedads-android-tests.java:53-58 | a fresh store reads 0 ads, 0 sessions, 0 data and 0 minutes |
| AndroidStats.SecondInstanceSeesCounts | tests/blockedads-android-tests.java:73-85 | a second instance over the same store sees the first's counts and start time |
| AndroidStats.ResetAfterCounting | tests/blockedads-android-tests.java:88-100 | after counting, a reset reads 0 again |
| AndroidClient.CompiledMatchIff | blockedads-mvp-android/src/main/java/com/blockedads/app/BlockedAdsWebViewClient.java:103-140 | some compiled `.*F.*` pattern matches a URL iff the URL has no line terminator and contains some fragment, ignoring case |
| AndroidClient.FragmentsPrintable | blockedads-mvp-android/src/main/java/com/blockedads/app/BlockedAdsWebViewClient.java:104-123 | no fragment holds a line terminator |
| AndroidClient.BasicPatternsMatchIff | blockedads-mvp-android/src/main/java/com/blockedads/app/BlockedAdsWebViewClient.java:104-140 | the engine's patterns match exactly the URLs the containment test blocks |
| AndroidClient.BlocksUrlContaining | blockedads-mvp-android/src/main/java/com/blockedads/app/BlockedAdsWebViewClient.java:104-140 | a URL made of a fragment between printable text is blocked, wherever the fragment sits |
| AndroidClient.NotBlockedWithoutKeyLetters | blockedads-mvp-android/src/main/java/com/blockedads/app/BlockedAdsWebViewClient.java:104-140 | a URL without any of `d`, `f`, `i`, `n` in either case is not blocked |
| AndroidClient.GoogleAdsBlocked | tests/blockedads-android-tests.java:244-250 | a googleadservices URL is blocked |
| AndroidClient.DoubleClickBlocked | tests/blockedads-android-tests.java:244-250 | a doubleclick URL is blocked |
| AndroidClient.FacebookPixelBlocked | tests/blockedads-android-tests.java:244-250 | a `facebook.com/tr` URL is blocked |
| AndroidClient.AmazonAdsBlocked | tests/blockedads-android-tests.java:244-250 | an amazon-adsystem URL is blocked |
| AndroidClient.YahooAdsBlocked | tests/blockedads-android-tests.java:244-250 | an `ads.yahoo.com` URL is blocked |
| AndroidClient.TwitterAdsBlocked | tests/blockedads-android-tests.java:244-250 | an ads-twitter URL is blocked |
| AndroidClient.AnalyticsBlocked | tests/blockedads-android-tests.java:244-250 | a google-analytics URL is blocked |
| AndroidClient.GoogleSearchNotBlocked | tests/blockedads-android-tests.java:253-255 | `https://google.com/search` is not blocked |
| AndroidClient.PlainSiteNotBlocked | tests/blockedads-android-tests.java:253-255 | `https://example.com/page` is not blocked |
| AndroidClient.YouTubeVideoNotBlocked | tests/blockedads-android-tests.java:253-255 | `https://youtube.com/watch?v=test` is not blocked |
| AndroidClient.FilterEngine.constructor | blockedads-mvp-android/src/main/java/com/blockedads/app/BlockedAdsWebViewClient.java:95-98 | the set holds exactly the compiled fragments |
| AndroidClient.FilterEngine.LoadBasicRules | blockedads-mvp-android/src/main/java/com/blockedads/app/BlockedAdsWebViewClient.java:103-128 | the compiled fragments are added to the set |
| AndroidClient.FilterEngine.AddRules | blockedads-mvp-android/src/main/java/com/blockedads/app/BlockedAdsWebViewClient.java:125-127 | after the loop the set is the old set plus the compiled pattern of every given rule, and nothing else |
| AndroidClient.FilterEngine.ShouldBlockUrl | blockedads-mvp-android/src/main/java/com/blockedads/app/BlockedAdsWebViewClient.java:133-140 | blocked iff some pattern in the set matches the whole URL, whatever the iteration order |
| AndroidClient.ClientStats.constructor | blockedads-mvp-android/src/main/java/com/blockedads/app/BlockedAdsWebViewClient.java:154-158 | the store is the context's, or none for a null context |
| AndroidClient.ClientStats.AdsBlocked | blockedads-mvp-android/src/main/java/com/blockedads/app/BlockedAdsWebViewClient.java:163-168 | 0 without a store, else the stored count |
| AndroidClient.ClientStats.DataSaved | blockedads-mvp-android/src/main/java/com/blockedads/app/BlockedAdsWebViewClient.java:170-175 | 0 without a store |
| AndroidClient.ClientStats.IncrementAdsBlocked | blockedads-mvp-android/src/main/java/com/blockedads/app/BlockedAdsWebViewClient.java:177-185 | with a store, one more in `int` arithmetic; without one, nothing |
| AndroidClient.ClientStats.AddDataSaved | blockedads-mvp-android/src/main/java/com/blockedads/app/BlockedAdsWebViewClient.java:187-192 | with a store, the sum stored as a `float`; without one, nothing |
| AndroidClient.WebViewClient.constructor | blockedads-mvp-android/src/main/java/com/blockedads/app/BlockedAdsWebViewClient.java:26-29 | a fresh engine with the compiled fragments, and statistics without a store |
| AndroidClient.WebViewClient.ShouldInterceptRequest | blockedads-mvp-android/src/main/java/com/blockedads/app/BlockedAdsWebViewClient.java:38-56 | an empty `text/plain` response exactly when the engine blocks the URL, otherwise the request goes ahead; the statistics stay at 0 |
| AndroidClient.InterceptScenario | blockedads-mvp-android/src/main/java/com/blockedads/app/BlockedAdsWebViewClient.java:26-56 | a client as built intercepts exactly the URLs containing a fragment, and its count stays 0 |
| AddressBar.YouTubeAddressSpec | blockedads-mvp-android/src/main/java/com/blockedads/app/YouTubeBrowserActivity.java:91-103 | nothing is loaded iff the trimmed text is empty; what is loaded has a scheme and ends with the trimmed text; it is a search iff the text has no scheme and no dot |
| AddressBar.WebViewAddressSpec | blockedads-mvp-android/src/main/java/com/blockedads/app/BlockedAdsWebViewActivity.java:125-138 | nothing is loaded iff the trimmed text is empty; what is loaded has a scheme, ends with the trimmed text, and is the text itself iff it has a scheme |
| AddressBar.YouTubeAddressIdempotent | blockedads-mvp-android/src/main/java/com/blockedads/app/YouTubeBrowserActivity.java:91-103 | going again with the loaded URL loads the same URL |
| AddressBar.WebViewAddressIdempotent | blockedads-mvp-android/src/main/java/com/blockedads/app/BlockedAdsWebViewActivity.java:125-138 | going again with the loaded URL loads the same URL |
| AddressBar.SearchStaysOnYouTube | blockedads-mvp-android/src/main/java/com/blockedads/app/YouTubeBrowserActivity.java:97-98 | a search typed in the YouTube browser stays in it |
| AddressBar.AnyMentionOverrides | blockedads-mvp-android/src/main/java/com/blockedads/app/YouTubeBrowserActivity.java:154-161 | any URL mentioning `youtube.com` or `youtu.be` anywhere is kept |
| AddressBar.NoYNoOverride | blockedads-mvp-android/src/main/java/com/blockedads/app/YouTubeBrowserActivity.java:154-161 | a URL without `y` is never kept |
| AddressBar.AddressBarsAgreeIff | blockedads-mvp-android/src/main/java/com/blockedads/app/YouTubeBrowserActivity.java:91-103 | the two address bars load the same thing iff the trimmed text is empty, has a scheme or holds a dot |

## Left out

- Browser plumbing: `chrome.storage`, runtime messages, tabs and the `onInstalled`/`onMessage` listeners. Storage reads are parameters, and writes are assumed to succeed.
- blockedads-mvp-chrome/blockedads-background.js is not part of this model; it is storage I/O plus a date-based cleanup.
- Network fetches are parameters (`Option<string>`, with None for a failed fetch). Timers (`setInterval`, `setTimeout`) are left out.
- `getFormattedStats` in BlockedAdsStats.java is display text and is left out.
- DOM work is left out: element hiding, `MutationObserver`, injected CSS and scripts, the YouTube skip heuristics, and the popups' displays, statistics panels and settings pages.
- The Android activities' views, lifecycle and loading into the web view are left out, and so is BlockedAdsActivity.java, which is UI only.
- Floating point is not modelled as IEEE arithmetic. The Android `double` and `float` values are mathematical reals. The JavaScript `dataSaved` is integer hundredths.
- Wall-clock and dates: `Date.now`, the date-keyed daily statistics and `saveStats` are left out. The Android clock is the parameter `now`.
- Concurrency: `SharedPreferences.apply()` is treated as immediate, and concurrent updates are not modelled.
- Regular expressions are the `Matcher` tokens, which cover the constructs the compilers emit. For Java (`CASE_INSENSITIVE` without `UNICODE_CASE`) the tokens match exactly what the pattern matches. The URL parser is an abstract function, `Urls.HostParser`.
- Matcher.Run: for JavaScript's `i` flag, case folding is ASCII only, so a non-ASCII letter such as `é` does not match its other case `É`, though JavaScript folds that pair. `.` (and the `?` that compiles to it) consumes one Unicode scalar value, where JavaScript without the `u` flag consumes one UTF-16 code unit, so `a?b` matches `a😀b` here but not in JavaScript. Both gaps need a model of JavaScript's Unicode case tables and of UTF-16 strings, which the model does not have.
- Both Chrome `isValidDomain` copies share `DomainInput.IsValidDomain`, since their pattern texts are identical.
- `AndroidStats.Stats.AddDataSaved`: the sum is stored as a real, without `double` rounding.
- `AndroidClient.ClientStats.AddDataSaved`: the `float` narrowing is not modelled.
- `Content.ContentScript.HandleNetworkRequest`: an unparsable URL is a `Thrown` outcome rather than an exception.

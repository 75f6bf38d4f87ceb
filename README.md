# X-Forwarded-For header spoofer: a Dafny model

This project models the logic core of a browser extension. The extension
attaches forged client-address headers (`X-Forwarded-For`, `X-Real-IP`, …)
to outgoing requests. It does this through the browser's declarative
network-request rules.

The settings are a list of **profiles**. Each profile holds:

- a set of header names and one address value;
- an optional domain filter, which includes or excludes the listed domains;
- an `enabled` flag;
- options that regenerate the address or the active header subset on a timer.

## What is modelled

- **Service worker** (`Worker`, `WorkerProperties`, `Storage`, `Rules`, `Address`):
  - the random address generators, with every random draw as a parameter;
  - `getRandomSubset`, with the shuffle as an arbitrary permutation;
  - the profile-to-rule compiler, and the atomic "remove these ids, add these rules" update of the installed rule set;
  - the reconciliation `updateFromSettings`. It fills in missing addresses, writes them back with the `_updating` marker, rebuilds the rules and sets the icon flag;
  - the one-second regeneration tick `updateRandomizedProfiles`;
  - the install defaults and the migration of pre-1.0 settings;
  - the `_updating` guard on storage change notifications.
- **Shared store.** The stored settings are the class `Storage.Store`. Every `set` or `remove` call is appended to `writes` as the set of keys it touched.
- **Options form** (`Form`):
  - the address validators (`IpValidation`);
  - the header list and its select-all and deselect-all operations over the two catalog sections;
  - the coupled `domains` and `allDomains` fields;
  - the per-field error map;
  - the save-time validation that decides whether a profile is emitted.
- **Popup** (`Popup`): the displayed count of enabled profiles, the quick toggle of one profile, and the global switch.
- **Header catalog** (`Headers`): the safe and advanced tiers and their concatenation. No two of the 63 names are the same header once case is ignored, and no name is in both tiers.
- **JavaScript string semantics** (`Text`): `trim`, `split` on a character and on `/[\s,]+/`, ASCII `toLowerCase`, decimal formatting and `parseInt`.

The environment is handled as follows:

- Every use of `Math.random` becomes an explicit draw parameter.
- `Date.now()/1000` becomes an integer `now`.
- Each asynchronous handler runs to completion against the store.
- The browser's acceptance of a rule update is a boolean parameter. On rejection the installed rules stay as they were.
- The localisation lookup `chrome.i18n.getMessage` is a function parameter, `messages`.
- The IPv6 pattern's alternatives other than the full eight-group form are a predicate parameter, `otherForms` (`otherIPv6Forms` on the form).

The model follows the code, including two behaviours that are easy to miss:

- A profile list that is present but empty still counts as "active", so the icon turns on with no rules.
- Clearing the domains text field stores `[""]`, and `_save` accepts that as a domain list (`Form.EmptyDomainsInputPassesSave`).

## Model

| member | source | states |
|---|---|---|
| Address.SampleOctets | src/serviceWorker.ts:1-19 | the rejection-sampling recursion returns octets with octet1 in 1..223, octets 2-3 in 0..255 and octet4 in 1..254, outside 10/8, 172.16/12, 192.168/16 and 127/8 |
| Address.GeneratedIPv4Valid | src/serviceWorker.ts:1-19 | a generated IPv4 address passes `validateIPv4`; its four dot-separated fields read back as the public octets drawn |
| Address.Ipv6TextShape | src/serviceWorker.ts:21-40 | a generated IPv6 address is exactly eight ':'-separated groups of four lower-case hex digits, the first starting with '2' or '3' (2000::/3), and matches the full IPv6 form |
| Address.GenerateIPv6 | src/serviceWorker.ts:21-40 | the segment-pushing loop returns the address specified by the draws |
| Address.RandomIpValid | src/serviceWorker.ts:42-44 | `generateRandomIp` output passes `validateIP`, and it is in the full IPv6 form exactly when IPv6 was asked for |
| Address.NoColonInIpv4 | src/serviceWorker.ts:18 | a dotted-quad address contains no ':' |
| Address.GenerateRandomIp | src/serviceWorker.ts:42-44 | picks the IPv6 generator iff `useIPv6` |
| Rules.SubsetSize | src/serviceWorker.ts:71-79 | the kept count is min(count, length) for a positive count, else between 1 and length |
| Rules.GetRandomSubset | src/serviceWorker.ts:68-84 | [] for an empty input; min(count, length) elements for a positive count, 1..length otherwise; element k is the input at the k-th shuffled position |
| Rules.Pick | src/serviceWorker.ts:82-83 | taking positions keeps their order and their elements |
| Rules.PickSubMultiset | src/serviceWorker.ts:82-83 | elements at distinct positions form a sub-multiset of the input |
| Rules.RandomSubsetIsSubMultiset | src/serviceWorker.ts:68-84 | the subset never repeats an element more often than the input does |
| Rules.ConvertProfileToRule | src/serviceWorker.ts:86-130 | id = priority = profile id; one "set" entry per active (else configured) header, in order, lower-cased, carrying the profile's value; the 13 resource types; requestDomains iff domains non-empty and included, excludedRequestDomains iff non-empty and excluded |
| Rules.RuleAppliesIff | src/serviceWorker.ts:103-128 | the compiled rule applies to a request exactly when the profile's domain filter covers its host and the resource type is one of the 13 |
| Rules.SetHeaderNames | src/serviceWorker.ts:95-101 | one header name per set entry |
| Rules.RuleHeadersMeaning | src/serviceWorker.ts:95-101 | the rule's header names are the lower-cased headers; they are distinct iff the headers are distinct ignoring case |
| Rules.LowerIdempotent | src/serviceWorker.ts:97 | lower-casing a header name twice equals lower-casing it once |
| Rules.EnabledProfiles | src/serviceWorker.ts:176-177 | a profile is in the result iff it is in the list and enabled; the result is never longer than the list |
| Rules.EnabledProfilesConcat | src/serviceWorker.ts:176-177 | the filter of a concatenation is the concatenation of the filters, so kept profiles stay in list order |
| Rules.EnabledProfilesSingleton | src/serviceWorker.ts:176-177 | a single profile is kept iff it is enabled; with the concatenation lemma this fixes the filter exactly |
| Rules.RuleIds | src/serviceWorker.ts:133 | the removal ids are the rules' ids, position by position |
| Rules.WithoutIds | src/serviceWorker.ts:134-136 | removal keeps exactly the installed rules whose id is not listed |
| Rules.ReplaceAllRules | src/serviceWorker.ts:132-145 | removing every installed rule's id and adding a list leaves exactly that list installed |
| Rules.WithoutCoveredIds | src/serviceWorker.ts:133-136 | removing all listed ids from rules whose ids are all listed leaves nothing |
| Worker.FilledProfiles | src/serviceWorker.ts:160-166 | the address fill keeps the profile count |
| Worker.CompileRules | src/serviceWorker.ts:176-178 | one rule per enabled profile |
| WorkerProperties.CompileRulesConcat | src/serviceWorker.ts:176-178 | the rules of a concatenation are the rules of each part, concatenated, so the rules follow the profile list order |
| WorkerProperties.CompileRulesSingleton | src/serviceWorker.ts:176-178 | one profile yields its own converted rule when enabled and no rule otherwise |
| Worker.TickUpTo | src/serviceWorker.ts:202-231 | the tick's profile list so far has one entry per visited profile |
| Worker.MigratedProfiles | src/serviceWorker.ts:268-295 | spoofIp (when non-empty) becomes id 1 "Default (Migrated)", enabled; previous[i] becomes id i+2 "<ip> (Migrated)", disabled; ids strictly increase from 1; every profile shares the legacy headers, has no domains, includes domains and needs no address |
| Worker.BuildMigratedProfiles | src/serviceWorker.ts:270-295 | the push loop builds exactly the migrated profile list |
| Worker.FillAddresses | src/serviceWorker.ts:159-166 | the map loop returns the filled profiles, and its flag is set iff some profile needed an address |
| Worker.RandomizeProfiles | src/serviceWorker.ts:197-231 | the map loop, threading the timestamp map and the update flag, computes the tick |
| Worker.ServiceWorker.UpdateDeclarativeRules | src/serviceWorker.ts:132-145 | issues one "remove ids of these rules, add those rules" update and applies it atomically when accepted, else leaves the rules unchanged |
| Worker.ServiceWorker.UpdateFromSettings | src/serviceWorker.ts:147-184 | issues the update, writes the profiles with `_updating` and sets the icon exactly as `Worker.Reconcile` specifies; no other stored key changes |
| Worker.ServiceWorker.UpdateRandomizedProfiles | src/serviceWorker.ts:186-240 | without profiles nothing happens; otherwise, iff some profile was due, writes the new profiles with `_updating` and then the timestamp map; the profile write never happens without the timestamp write |
| Worker.ServiceWorker.OnInstalled | src/serviceWorker.ts:257-306 | INSTALL writes profiles=[] and enabled=true; UPDATE from a "0." version writes the migrated profiles and enabled=true and then removes spoofIp/previous/headers; then reconciles, setting the `_updating` marker iff the reconciliation writes profiles; lastRandomizeTime is untouched |
| Worker.ServiceWorker.OnChanged | src/serviceWorker.ts:312-320 | a change set carrying `_updating` only removes the marker (no rule update, no icon change, profiles untouched); any other change set reconciles and sets the `_updating` marker iff it writes profiles; enabled and lastRandomizeTime are untouched |
| WorkerProperties.GeneratedValueIsConcrete | src/serviceWorker.ts:161-163 | a generated address is never "auto" nor empty |
| WorkerProperties.FilledProfilesMeaning | src/serviceWorker.ts:158-166 | the fill changes only values, and only of profiles with randomizeIp and value "auto" or ""; those get an address `validateIP` accepts, IPv6 iff useIPv6; afterwards no profile needs an address |
| WorkerProperties.FillWithoutNeed | src/serviceWorker.ts:159-166 | when no profile needs an address the fill changes nothing |
| WorkerProperties.FillIdempotent | src/serviceWorker.ts:158-173 | filling twice equals filling once, whatever the second draws |
| WorkerProperties.CompileRulesMeaning | src/serviceWorker.ts:176-178 | a rule is compiled iff it is the converted rule of some enabled profile; rule k carries the id of the k-th enabled profile |
| WorkerProperties.ReconcileInactive | src/serviceWorker.ts:152-156 | when disabled or without profiles: no profile write, icon off, an update only if rules were installed, and afterwards no rule is installed |
| WorkerProperties.ReconcileActive | src/serviceWorker.ts:157-182 | when enabled with profiles (even none): profiles written back iff some needed an address; every old id removed; the installed rules become the compiled rules of the filled profiles; icon on |
| WorkerProperties.ReconcileSettles | src/serviceWorker.ts:168-173 | a second reconciliation on the resulting state writes no profiles and changes no rule, so the pass the `_updating` marker skips would change nothing |
| WorkerProperties.RegenerateMeaning | src/serviceWorker.ts:215-227 | regeneration keeps every field but value and active headers; value changes only with randomizeIp (to an address `validateIP` accepts); active headers change only with randomizeHeaders and a non-empty header list (to a sub-multiset of the headers) |
| WorkerProperties.TickUpToTimes | src/serviceWorker.ts:202-213 | with distinct ids, the timestamp map gains exactly the due ids, stamped `now`, and keeps every other entry |
| WorkerProperties.DueAtStep | src/serviceWorker.ts:203-210 | with distinct ids, whether a profile is due does not depend on the stamps written earlier in the same tick |
| WorkerProperties.TickUpToProfiles | src/serviceWorker.ts:202-231 | exactly the due profiles are regenerated; the others are kept as they are |
| WorkerProperties.TickUpToUpdated | src/serviceWorker.ts:211-212 | the update flags are set iff some profile was due |
| WorkerProperties.TickMeaning | src/serviceWorker.ts:202-231 | a profile is regenerated iff (randomizeIp or randomizeHeaders) and enabled and now - (last or 0) >= (interval or 5); the tick reports an update iff one was |
| WorkerProperties.TickTimestamps | src/serviceWorker.ts:207-213 | after the tick a due profile's last update is `now`, and every other profile's is unchanged |
| WorkerProperties.TickSettles | src/serviceWorker.ts:206-210 | with positive intervals, a second tick in the same second finds nothing due |
| WorkerProperties.NothingDueAfterTick | src/serviceWorker.ts:202-213 | with distinct ids and positive intervals, no profile is due right after the tick, and the ids stay distinct |
| WorkerProperties.TimesUpToMeaning | src/serviceWorker.ts:202-213 | the timestamps alone, without the draws: the map gains exactly the due ids, stamped `now`, and keeps every other entry |
| Storage.Store.SetProfilesUpdating | src/serviceWorker.ts:171 | writes profiles and the `_updating` marker; nothing else changes |
| Storage.Store.SetProfilesAndEnabled | src/serviceWorker.ts:297-300 | writes profiles and enabled; nothing else changes |
| Storage.Store.SetLastRandomizeTime | src/serviceWorker.ts:238 | writes the timestamp map; nothing else changes |
| Storage.Store.RemoveUpdating | src/serviceWorker.ts:316 | removes the `_updating` marker; nothing else changes |
| Storage.Store.RemoveLegacyKeys | src/serviceWorker.ts:301 | removes spoofIp, previous and headers; nothing else changes |
| Storage.Store.SetProfiles | src/components/action-screen.ts:155 | writes profiles only |
| Storage.Store.SetEnabled | src/components/action-screen.ts:160-162 | writes enabled only |
| IpValidation.OctetPatternMeaning | src/components/form.ts:6 | one field of the IPv4 pattern matches iff it is 1-3 decimal digits with value at most 255 (leading zeros allowed) |
| IpValidation.ValidateIPv4Meaning | src/components/form.ts:5-8 | `validateIPv4` accepts exactly four '.'-separated fields of 1-3 digits each with value at most 255 |
| IpValidation.DecimalValueOfThree | src/components/form.ts:6 | the value of a three-digit field |
| IpValidation.DecimalValueOfTwo | src/components/form.ts:6 | the value of a two-digit field |
| IpValidation.JoinedGroupsAreFullIPv6 | src/components/form.ts:10-17 | any eight hex groups of 1-4 digits joined by ':' match the full IPv6 alternative, so they pass `validateIP` |
| IpValidation.JoinedOctetsAreIPv4 | src/components/form.ts:5-8 | four decimal octets joined by '.' pass `validateIPv4` |
| Form.ListOf | src/components/form.ts:172-177 | a list is stored as given; text is split on runs of white space and commas into at least one separator-free piece |
| Form.AddHeader | src/components/form.ts:335-339 | checking appends the header only if absent; the old list stays in front; no other header's count changes; no duplicate is introduced |
| Form.Without | src/components/form.ts:340-343 | unchecking removes every occurrence of the header and keeps every other element's count; no duplicate is introduced |
| Form.WithoutConcat | src/components/form.ts:340-343 | unchecking on a concatenation is unchecking on each part, concatenated, so the other headers keep their relative order |
| Form.WithoutSingleton | src/components/form.ts:340-343 | a single header is dropped iff it is the unchecked one; with the concatenation lemma this fixes the result exactly |
| Form.WithoutAll | src/components/form.ts:360-363 | deselect-all removes exactly the section's members, keeping every other element's count |
| Form.WithoutAllConcat | src/components/form.ts:360-363 | deselect-all on a concatenation is deselect-all on each part, concatenated, so the other headers keep their relative order |
| Form.WithoutAllSingleton | src/components/form.ts:360-363 | a single header is dropped iff the section lists it; with the concatenation lemma this fixes the result exactly |
| Form.AddAll | src/components/form.ts:356-359 | adding several headers keeps the old list in front and introduces no duplicate |
| Form.Dedupe | src/components/form.ts:358-359 | `Array.from(new Set(..))` has no duplicates and the same elements |
| Form.AddAllConcat | src/components/form.ts:358 | deduplicating a concatenation adds the first part, then the second |
| Form.AddAllFresh | src/components/form.ts:358 | new distinct elements are appended unchanged |
| Form.DedupeIdentity | src/components/form.ts:358-359 | a duplicate-free list is its own deduplication |
| Form.SelectAllMeaning | src/components/form.ts:356-359 | on a duplicate-free list, select-all keeps the old list in front and appends the section's missing headers, with no duplicates |
| Form.UncheckUndoesCheck | src/components/form.ts:334-343 | unchecking a header just checked restores the list |
| Form.WithoutAbsent | src/components/form.ts:342 | removing an absent header changes nothing |
| Form.WithoutAppend | src/components/form.ts:342 | removing a header that was just appended also removes its other occurrences |
| Form.DeselectKeepsOtherSection | src/components/form.ts:353-363 | deselecting one catalog section never removes a header of the other |
| Form.ClearHeadersError | src/components/form.ts:345-350 | the headers error is removed iff the list is non-empty and the error was shown; no other key changes |
| Form.InvalidAddressErrorDiscarded | src/components/form.ts:375-403 | as written, the required step discards the invalid-address error set on a typed address |
| Form.AbcIsNoAddress | src/components/form.ts:5-17 | "abc" passes neither validator |
| Form.InvalidAddressExample | src/components/form.ts:373-403 | a concrete input: "abc" typed into the required value field leaves no error |
| Form.InputErrorsLocal | src/components/form.ts:373-403 | an input event touches only its own field's error |
| Form.InputAddressChecked | src/components/form.ts:378-386 | after input, a typed address is flagged iff `validateIP` rejects its trimmed text |
| Form.InputRequiredChecked | src/components/form.ts:395-403 | an empty required input is flagged; any other non-empty required input clears its error |
| Form.SaveErrors | src/components/form.ts:442-459 | errors are rebuilt from scratch: name and headers always required; value required and checked with `validateIP` unless randomizeIp; domains required unless allDomains; no other key |
| Form.SavedDraftMeaning | src/components/form.ts:427-468 | a profile that passes has a name and headers, a valid address unless randomized, and an empty domain list iff all domains are meant |
| Form.EmptyDomainsInputPassesSave | src/components/form.ts:187-195 | clearing the domains field stores `[""]`, which passes the save-time domains check |
| Form.ProfileForm.constructor | src/components/form.ts:152-212 | the field defaults: no id, empty texts, interval 5, includeDomains, all domains, no errors |
| Form.ProfileForm.SetHeaders | src/components/form.ts:171-177 | stores the list, splitting text input |
| Form.ProfileForm.SetDomains | src/components/form.ts:186-195 | stores the list; a non-empty list turns allDomains off; "all domains" still implies no list |
| Form.ProfileForm.SetAllDomains | src/components/form.ts:202-206 | turning allDomains on empties the domain list |
| Form.ProfileForm.HandleHeaderCheckbox | src/components/form.ts:334-351 | adds (if absent) or removes (every occurrence) the header, then clears the headers error as `ClearHeadersError` says |
| Form.ProfileForm.SelectAllHeaders | src/components/form.ts:353-371 | select-all is `Dedupe(old + section)`, deselect-all removes the section; then error clearing |
| Form.ProfileForm.HandleInput | src/components/form.ts:373-404 | trims name/value/domains; domain text is split and turns allDomains off when non-empty; allDomains/includeDomains read "true"; the interval is `parseInt`; errors follow the corrected `Form.InputErrors` |
| Form.ControlIdInjective | src/components/form.ts:374-392 | two controls whose `OtherControl` ids lie outside the six named ids have the same id iff they are the same control, so each input event has one encoding |
| Form.ProfileForm.UpdateInputErrors | src/components/form.ts:378-403 | the error bookkeeping of an input event, in the corrected order |
| Form.ProfileForm.StoreInput | src/components/form.ts:374-392 | the trimmed text goes to name, value or domains (domains split, allDomains turned off when some remain); allDomains/includeDomains read "true"; the interval is the parsed number; every other field keeps its value |
| Form.ProfileForm.DropHeadersError | src/components/form.ts:345-350 | a pending "headers" error is removed once the list is non-empty, as `ClearHeadersError` says |
| Form.ProfileForm.HandleCheckbox | src/components/form.ts:406-419 | sets randomizeIp or useIPv6; turning randomizeIp on clears a shown value error |
| Form.ProfileForm.Save | src/components/form.ts:427-477 | emits a draft iff there are no save errors, with value "auto" when randomized and an id only when profileId is set and non-zero; otherwise the found errors replace the old ones |
| Popup.DisplayedCount | src/components/action-screen.ts:100-103 | 0 while disabled, else the length of the enabled-profile filter (fixed exactly by `Rules.EnabledProfilesConcat` and `Rules.EnabledProfilesSingleton`); never more than the profile count |
| Popup.ToggledProfiles | src/components/action-screen.ts:146-152 | length and order kept; `enabled` negated on exactly the profiles with the id; every other field unchanged |
| Popup.ToggleTwice | src/components/action-screen.ts:146-152 | toggling the same id twice restores the list |
| Popup.MatchCount | src/components/action-screen.ts:148 | the number of profiles with the id in a given state is at most the list length |
| Popup.ToggleCount | src/components/action-screen.ts:100-152 | toggling moves the enabled count by the matching profiles: those that were on stop counting, those that were off start |
| Popup.ActionScreen.constructor | src/components/action-screen.ts:89-93 | disabled, no profiles |
| Popup.ActionScreen.Load | src/components/action-screen.ts:75-87 | a missing or false `enabled` loads as off; missing profiles load as [] |
| Popup.ActionScreen.ToggleProfile | src/components/action-screen.ts:146-156 | the toggled list replaces the local one and is written to the store as is, touching no other key |
| Popup.ActionScreen.ToggleEnabled | src/components/action-screen.ts:158-167 | negates the switch and writes exactly `enabled` |
| Headers.SafeHeadersShape | src/headers.ts:2-9 | six safe headers, the first "X-Forwarded-For" |
| Headers.CatalogLayout | src/headers.ts:105 | the catalog is the 6 safe headers followed by the 57 advanced ones |
| Headers.PositionedConcat | src/headers.ts:12-105 | entries found at consecutive positions in two adjoining lists are found so in their concatenation |
| Headers.SafeHeadersPositioned | src/headers.ts:2-9 | each entry of this group, read case-insensitively, is found at catalog position 0 plus its index |
| Headers.ForwardedVariantsPositioned | src/headers.ts:13-19 | each entry of this group, read case-insensitively, is found at catalog position 6 plus its index |
| Headers.OriginalIpHeadersPositioned | src/headers.ts:21-26 | each entry of this group, read case-insensitively, is found at catalog position 12 plus its index |
| Headers.RemoteHeadersPositioned | src/headers.ts:28-30 | each entry of this group, read case-insensitively, is found at catalog position 17 plus its index |
| Headers.ClusterHeadersPositioned | src/headers.ts:32-33 | each entry of this group, read case-insensitively, is found at catalog position 19 plus its index |
| Headers.ProxyUserHeadersPositioned | src/headers.ts:35-37 | each entry of this group, read case-insensitively, is found at catalog position 20 plus its index |
| Headers.FromHeadersPositioned | src/headers.ts:39-41 | each entry of this group, read case-insensitively, is found at catalog position 22 plus its index |
| Headers.TrueClientHeadersPositioned | src/headers.ts:43-44 | each entry of this group, read case-insensitively, is found at catalog position 24 plus its index |
| Headers.OtherXHeadersPositioned | src/headers.ts:46-52 | each entry of this group, read case-insensitively, is found at catalog position 25 plus its index |
| Headers.StandardForwardedHeadersPositioned | src/headers.ts:54-56 | each entry of this group, read case-insensitively, is found at catalog position 31 plus its index |
| Headers.ClientIpHeadersPositioned | src/headers.ts:58-59 | each entry of this group, read case-insensitively, is found at catalog position 33 plus its index |
| Headers.CdnHeadersPositioned | src/headers.ts:61-64 | each entry of this group, read case-insensitively, is found at catalog position 34 plus its index |
| Headers.ProxyHeadersPositioned | src/headers.ts:66-68 | each entry of this group, read case-insensitively, is found at catalog position 37 plus its index |
| Headers.SourceViaHeadersPositioned | src/headers.ts:70-72 | each entry of this group, read case-insensitively, is found at catalog position 39 plus its index |
| Headers.ZForwardedHeadersPositioned | src/headers.ts:74-75 | each entry of this group, read case-insensitively, is found at catalog position 41 plus its index |
| Headers.HttpPrefixedHeadersPositioned | src/headers.ts:77-85 | each entry of this group, read case-insensitively, is found at catalog position 42 plus its index |
| Headers.CgiStyleHeadersPositioned | src/headers.ts:87-96 | each entry of this group, read case-insensitively, is found at catalog position 50 plus its index |
| Headers.OtherVariantsPositioned | src/headers.ts:98-102 | each entry of this group, read case-insensitively, is found at catalog position 59 plus its index |
| Headers.CatalogPositioned | src/headers.ts:105 | every one of the 63 catalog entries is found at its own index |
| Headers.PositionIgnoresCase | src/headers.ts:2-103 | the lookup gives a name and its lower-cased form the same position |
| Headers.TiersDisjoint | src/headers.ts:2-105 | no header is in both tiers |
| Headers.SafeHeadersDistinctIgnoringCase | src/headers.ts:2-9 | the safe headers stay pairwise distinct after lower-casing |
| Headers.CatalogDistinctIgnoringCase | src/headers.ts:2-105 | no two of the 63 catalog entries are equal after lower-casing |
| Text.ToLower | src/serviceWorker.ts:97 | ASCII lower-casing, character by character, keeping the length |
| Text.Trim | src/components/form.ts:376 | `trim` removes exactly the leading and trailing white space |
| Text.TrimIdempotent | src/components/form.ts:376 | trimming twice is trimming once |
| Text.SplitFields | src/components/form.ts:174 | `split(/[\s,]+/)` yields at least one piece, none containing a separator |
| Text.SplitFieldsJoin | src/components/form.ts:174 | splitting non-empty separator-free pieces joined by one separator gives them back |
| Text.SplitFieldsOfEmpty | src/components/form.ts:174 | splitting "" gives [""] |
| Text.SplitOn | src/components/form.ts:6 | splitting on a character yields at least one piece, none containing it |
| Text.SplitOnJoin | src/serviceWorker.ts:18-39 | splitting pieces joined by a character they lack gives them back |
| Text.SplitOnWithout | src/serviceWorker.ts:18 | text without the character is a single piece |
| Text.NatToDecimal | src/serviceWorker.ts:18 | decimal formatting yields digits with the number's value and no leading zero |
| Text.ParseInt | src/components/form.ts:392 | `parseInt(v, 10)` is NaN exactly when no digit follows the white space and the sign |
| Text.ParseIntOfDecimal | src/components/form.ts:392 | `parseInt` reads back what decimal formatting writes |

## Findings

| source | as written | input that shows it | evidently intended | confidence | as-written member | corrected member |
|---|---|---|---|---|---|---|
| src/components/form.ts:378-403 | `_handleInput` first validates a typed address and sets the "invalid address" error. The value input is `required` exactly when validation runs. The required step then sees a non-empty value and deletes that error. | "abc" typed into the value field with randomizeIp off: no error remains | the typed address stays flagged until it is corrected | high, not executed | Form.InvalidAddressExample | Form.InputAddressChecked |

`Form.InputErrorsAsWritten` is the handler's bookkeeping as written.
`Form.InputErrors` runs the required step first and the address check second.
`Form.ProfileForm.HandleInput` uses the corrected order.
The address check is the last thing `_save` does too, so the corrected form shows on input what save would report.

## Left out

- Rendering, CSS, the `render` templates and the `CustomEvent` dispatch are presentation only. `_save` returns the emitted draft instead of dispatching it, and `_cancel` and `_closeModal` are left out.
- `chrome.i18n` messages are a function parameter (`messages`) from message keys to texts.
- The literal `Math.random` draws and their distribution are left out. The draws are parameters, and the IPv4 recursion is stated over a supply that contains an accepted draw. Its probabilistic termination is not modelled.
- Time is integer seconds. The source stores float seconds from `Date.now()/1000`.
- Concurrency is left out: the interleaving of asynchronous handlers, storage sync, alarm scheduling, `onStartup` and `updateIcon`'s fallback that reads the installed rules. Each handler runs to completion against one in-memory store.
- Change notifications are left out. The store records the key set of every write, and `OnChanged` takes the change set as a parameter. The browser reports only keys whose value changed, and the cascade of notifications that the writes of `OnInstalled` and `UpdateFromSettings` raise is not generated.
- The icon path strings are left out; only the active flag is kept.
- The `console` logging of `updateDeclarativeRules` is left out. Rejection is the `accepted` parameter.
- IpValidation.ValidateIPv6: only the full eight-group alternative is spelled out. The compressed `::` forms, link-local with a zone, and embedded IPv4 are the uninterpreted predicate `otherForms`.
- Worker.MigratedProfiles: missing legacy `headers` become `[]`. In the source, the migrated profiles then hold `undefined` headers.
- Text.ToLower: lower-cases the ASCII letters A-Z only. Header names are ASCII tokens, so Unicode case mapping is not modelled.
- Profile values that are not strings (missing `value`, non-boolean `enabled`) are modelled with the TypeScript types: strings, booleans, and `Option` for optional fields.

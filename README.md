# ioc-intel in Dafny

A model of the logic inside the ioc-intel browser extension. The extension
lets an analyst select an indicator of compromise (an IP address, a file
hash or a URL) on a page and pivot to lookup sites. The model covers four
parts:

- **The indicator classifier** (`ioc_validator.dfy`, module `IocValidator`).
  It covers `normalize`, `isValidIPv4`, `isValidIPv6`, `isValidHash`,
  `isValidUrl` and `detectIOCType`. Each anchored regular expression is
  written as a predicate over the characters of the normalised string.
  `ioc_examples.dfy` (module `IocExamples`) classifies one sample indicator
  of each kind.
- **The preference reconciler** (`preferences.dfy`, module `Preferences`).
  It covers `cleanPreferences` and the `defaultPreferences` template. The
  pure function `Clean` specifies the key-by-key method `CleanPreferences`.
- **The pivot logic of the background script** (`background.dfy`, module
  `Background`). It covers:
  - `normaliseUrl`;
  - defanging an address for the clipboard, with `lastIndexOf`/`slice`;
  - defanging a URL for the clipboard;
  - expanding placeholders in lookup templates with first-occurrence
    `String.replace`;
  - the plan of background tabs after the active tab;
  - the three pivots and the menu dispatch of the click listener.
- **The option-page checkbox hierarchy** (`checkboxes.dfy`, module
  `Checkboxes`). `updateVisibility` becomes a method over an array of
  display values, specified by the function `Visibility`.

Support modules:

- `js.dfy` (module `Js`): JavaScript values and `typeof`.
- `text.dfy` (module `Text`): `trim`, `toLowerCase`, `split`, `indexOf`,
  `lastIndexOf` and `replace` with a string pattern.
- `wrappers.dfy` (module `Wrappers`): `Option`.

Host calls are parameters of the model, never performed:

- `activeIndex` is the index of the active tab returned by `tabs.query`.
- `prefs` is the result of `loadPreferences`.
- `encode` stands for `encodeURIComponent`.
- `hostname` stands for `new URL(input).hostname`; it is `None` when the
  constructor throws.

A pivot returns the list of `tabs.create` requests and the text it would
copy. It does not open tabs or write the clipboard.

Three facts about the code shape the model:

- **Placeholders.** `String.replace` with a string pattern replaces only
  the first occurrence of each placeholder a pivot knows. A second
  occurrence, or a placeholder of another kind, stays in the URL literally
  (`RepeatedPlaceholder`, `ForeignPlaceholderKept`).
- **Replacement order.** The URL pivot replaces `{url}`, then
  `{encodedUrl}`, then `{domain}`, each in the whole text produced so far.
  A `{domain}` inside the selected URL is therefore replaced too
  (`DomainInsideUrlReplaced`).
- **IPv6.** The IPv6 regular expression is a list of alternatives. The
  model states each alternative over the `:`-separated pieces of the
  address (`ColonForms`) or, for the zoned link-local form, over the parts
  around `%` (`ZonedLinkLocal`).

## Model

| member | source | states |
|---|---|---|
| IocValidator.Normalize | src/lib/ioc-validator.js:29-32 | a non-string normalises to `""`; a string normalises to the lower-cased slice of it that only white space surrounds, which itself has no white space at either end and no upper-case letter |
| IocValidator.NormalizeIdempotent | src/lib/ioc-validator.js:29-32 | normalising a normalised string changes nothing |
| IocValidator.Ipv4Octet | src/lib/ioc-validator.js:11-12 | one octet alternative, `25[0-5]`, `2[0-4][0-9]` or `[01]?[0-9][0-9]?` |
| IocValidator.Ipv4Pattern | src/lib/ioc-validator.js:11-12 | the IPv4 pattern: exactly four `.`-separated octets |
| IocValidator.Ipv4OctetValue | src/lib/ioc-validator.js:11-12 | an octet alternative matches exactly 1 to 3 decimal digits worth at most 255, leading zeros included |
| IocValidator.IsValidIPv4 | src/lib/ioc-validator.js:39-44 | true iff the normalised input splits on `.` into exactly four groups of 1 to 3 digits, each worth at most 255 |
| IocValidator.Ipv6HasColon | src/lib/ioc-validator.js:14-15 | every string any IPv6 alternative accepts contains a `:` |
| IocValidator.ZonedLinkLocal | src/lib/ioc-validator.js:14-15 | the alternative `fe80:(:[0-9a-f]{0,4}){0,4}%[0-9a-z]{1,}` |
| IocValidator.ColonForms | src/lib/ioc-validator.js:14-15 | every other IPv6 alternative, stated over the `:`-separated pieces of the address |
| IocValidator.Ipv6Pattern | src/lib/ioc-validator.js:14-15 | the IPv6 pattern: one of the colon forms or the zoned link-local form |
| IocValidator.HashPattern | src/lib/ioc-validator.js:17 | 32, 40 or 64 lower-case hex digits |
| IocValidator.IsValidIPv6 | src/lib/ioc-validator.js:51-56 | true iff the normalised input matches one of the IPv6 alternatives; an accepted input contains a `:` |
| IocValidator.HashOfLowered | src/lib/ioc-validator.js:17 | the lower-cased text matches the hash pattern iff it has 32, 40 or 64 characters, each a hex digit in either case |
| IocValidator.IsValidHash | src/lib/ioc-validator.js:63-68 | true iff the input is a string whose trimmed text has 32, 40 or 64 hex digits of either case |
| IocValidator.DomainChars | src/lib/ioc-validator.js:22 | every character of a bare domain is in `[a-z0-9-]` or is a dot |
| IocValidator.DomainLabels | src/lib/ioc-validator.js:22 | labels of `[a-z0-9-]+` and a last label of two or more letters |
| IocValidator.DomainPattern | src/lib/ioc-validator.js:22 | the bare-domain pattern: the `.`-separated labels of the text are domain labels |
| IocValidator.AfterScheme | src/lib/ioc-validator.js:19-20 | optional user information ending in `@`, a domain, an optional port of 2 to 5 digits, then path, query and fragment without white space |
| IocValidator.FullUrlPattern | src/lib/ioc-validator.js:19-20 | `http://` or `https://` followed by what may come after the scheme |
| IocValidator.HasHttpPrefix | src/lib/ioc-validator.js:19-20 | the lower-case `http://` or `https://` a full URL starts with |
| IocValidator.NoSchemeIsNotUrl | src/lib/ioc-validator.js:19-22 | a trimmed text whose lower-case form lacks `http://` and `https://` at its start and holds a character outside `[a-z0-9.-]` is not a URL |
| IocValidator.SchemelessIsNotUrl | src/lib/ioc-validator.js:19-22 | a trimmed text that does not start with `h` and holds a character outside `[a-z0-9.-]` is not a URL |
| IocValidator.IsValidUrl | src/lib/ioc-validator.js:75-82 | true iff the normalised input matches the full http(s) URL pattern or the bare-domain pattern; only strings are accepted |
| IocValidator.FirstAccepting | src/lib/ioc-validator.js:102-107 | the result is the first validator in the list whose verdict is true, or unknown when none is |
| IocValidator.FirstOfFour | src/lib/ioc-validator.js:87-92 | over the four validators in source order, the scan picks ipv4, then ipv6, then url, then hash, else unknown |
| IocValidator.DetectIocType | src/lib/ioc-validator.js:87-108 | a non-string is unknown; a string gets ipv4, ipv6, url or hash, the first in that order whose validator accepts, else unknown |
| IocValidator.EmptyIsUnknown | src/lib/ioc-validator.js:39-82 | every validator rejects an input whose normalised form is empty, and the detector says unknown |
| IocValidator.InsensitiveToCaseAndSpace | src/lib/ioc-validator.js:39-82 | each validator and the detector give the same answer on `s` and on `normalize(s)` |
| IocValidator.NoColonNoFullUrl | src/lib/ioc-validator.js:19-20 | a text without a colon is not a full URL |
| IocValidator.NoDotNoIpv4NorDomain | src/lib/ioc-validator.js:11-22 | a text without a dot is neither an IPv4 address nor a bare domain |
| IocValidator.HashIsDetectedAsHash | src/lib/ioc-validator.js:87-92 | any input the hash validator accepts is classified as a hash |
| IocExamples.DetectNormal | src/lib/ioc-validator.js:99-108 | a trimmed lower-case string is classified by the first pattern it matches, in validator order |
| IocExamples.Ipv4Sample | src/lib/ioc-validator.js:87-108 | `8.8.8.8` is classified ipv4 |
| IocExamples.Ipv6Sample | src/lib/ioc-validator.js:87-108 | `2001:db8::1` is classified ipv6 |
| IocExamples.HashSample | src/lib/ioc-validator.js:87-108 | a 32-digit MD5 digest is classified hash |
| IocExamples.UrlSample | src/lib/ioc-validator.js:87-108 | `https://example.com/x?y=1` is classified url |
| IocExamples.HttpsUrl | src/lib/ioc-validator.js:19-22 | `https://`, a domain name and a path, query or fragment with no white space form a full URL |
| IocExamples.UnknownSample | src/lib/ioc-validator.js:87-108 | `not an ioc!!` is classified unknown |
| Preferences.Filter | src/lib/preferences.js:81 | keeps exactly the entries the predicate accepts, and a list whose entries all pass is kept whole |
| Preferences.FilterAppend | src/lib/preferences.js:81 | filtering distributes over concatenation, so the kept entries stay in their order |
| Preferences.DefaultPreferences | src/lib/preferences.js:10-40 | the three default sections, their flags and their lookup templates |
| Preferences.CleanField | src/lib/preferences.js:55-93 | one template key: a nested object is cleaned recursively, an array keeps its valid URLs or falls back, a scalar keeps the user's value only when `typeof` agrees |
| Preferences.Clean | src/lib/preferences.js:51-97 | `cleanPreferences`: a `null` user throws at the first key, anything else yields one cleaned entry per template key |
| Preferences.CleanObject | src/lib/preferences.js:52-54 | the cleaned object has exactly the template's keys |
| Preferences.CleanPreferences | src/lib/preferences.js:51-97 | the key-by-key loop with its recursive call yields `Clean(user, template)`: a `null` user throws, anything else returns the cleaned object |
| Preferences.CleanFieldConforms | src/lib/preferences.js:58-93 | whatever the user supplies, the cleaned value has the template's shape: the same keys at every depth, arrays where the template has arrays, and the same `typeof` for every scalar |
| Preferences.SelfConforms | src/lib/preferences.js:10-40 | a template value has its own shape |
| Preferences.CleanUndefined | src/lib/preferences.js:51 | an `undefined` user object yields the template itself |
| Preferences.CleanFieldUndefined | src/lib/preferences.js:55-93 | a field missing from the user object takes its default |
| Preferences.ExtraKeysDropped | src/lib/preferences.js:52-54 | a user key that the template lacks is not in the result |
| Preferences.CleanedArray | src/lib/preferences.js:79-87 | a cleaned list is non-empty, and is the default list or a list whose entries all pass `isValidUrl` |
| Preferences.CleanSelf | src/lib/preferences.js:51-97 | cleaning a stable template against itself gives it back |
| Preferences.CleanFieldIdempotent | src/lib/preferences.js:51-97 | for a stable template, cleaning a cleaned field changes nothing |
| Preferences.CleanIdempotent | src/lib/preferences.js:51-97 | for a stable template, `clean(clean(u, T), T) == clean(u, T)` whenever the first call returns |
| Preferences.HostPathIsNotUrl | src/lib/preferences.js:15-37 | a host followed by a `/` path, the shape of every default template, is not a URL unless its lower-case form starts with `http://` or `https://` |
| Preferences.AbuseIpDbRejected | src/lib/preferences.js:16 | the AbuseIPDB template fails `isValidUrl` |
| Preferences.ThreatFoxRejected | src/lib/preferences.js:17 | the ThreatFox template fails `isValidUrl` |
| Preferences.ShodanRejected | src/lib/preferences.js:18 | the Shodan template fails `isValidUrl` |
| Preferences.VirusTotalFileRejected | src/lib/preferences.js:26 | the VirusTotal file template fails `isValidUrl` |
| Preferences.UrlhausHashRejected | src/lib/preferences.js:27 | the URLhaus hash template fails `isValidUrl` |
| Preferences.UrlhausUrlRejected | src/lib/preferences.js:35 | the URLhaus URL template fails `isValidUrl` |
| Preferences.MxToolboxRejected | src/lib/preferences.js:36 | the MxToolbox template fails `isValidUrl` |
| Preferences.VirusTotalDomainRejected | src/lib/preferences.js:37 | the VirusTotal domain template fails `isValidUrl` |
| Preferences.DefaultUrlsRejected | src/lib/preferences.js:15-38 | none of the eight default lookup templates passes `isValidUrl` |
| Preferences.FilterNone | src/lib/preferences.js:81-82 | a list none of whose entries passes filters to the empty list |
| Preferences.IpLookupsFiltered | src/lib/preferences.js:15-19 | the default address list filters to nothing |
| Preferences.HashLookupsFiltered | src/lib/preferences.js:25-28 | the default hash list filters to nothing |
| Preferences.UrlLookupsFiltered | src/lib/preferences.js:34-38 | the default URL list filters to nothing |
| Preferences.DefaultLookupsFiltered | src/lib/preferences.js:15-38 | every default list filters to nothing |
| Preferences.SectionStable | src/lib/preferences.js:10-40 | a section of flags and one list with no valid entry is stable |
| Preferences.IpDefaultsStable | src/lib/preferences.js:11-20 | the `ip` section is stable |
| Preferences.HashDefaultsStable | src/lib/preferences.js:22-29 | the `hash` section is stable |
| Preferences.UrlDefaultsStable | src/lib/preferences.js:30-39 | the `url` section is stable |
| Preferences.SectionsStable | src/lib/preferences.js:10-40 | all three sections are stable |
| Preferences.DefaultsStable | src/lib/preferences.js:10-40 | the default preferences are stable and clean to themselves, so cleaning against them is idempotent |
| Preferences.DefaultSections | src/lib/preferences.js:10-40 | the defaults have exactly the sections ip, hash and url, each with boolean flags and a non-empty list of template strings |
| Preferences.InvalidListRestored | src/lib/preferences.js:79-87 | for an array default, a stored value that is not an array, or an array none of whose entries passes `isValidUrl`, is replaced by the default list |
| Preferences.BadListRestored | src/lib/preferences.js:79-87 | a stored `["not a url", "also bad"]` under `urls` is replaced by the default address lookups |
| Preferences.CleanedUrlsNonEmpty | src/lib/preferences.js:10-97 | cleaning any non-null stored object against the defaults returns, for each section, an object with a non-empty `urls` list |
| Preferences.BadListFiltered | src/lib/preferences.js:81 | `["not a url", "also bad"]` filters to nothing |
| Preferences.NotAUrlRejected | src/lib/ioc-validator.js:75-82 | `not a url` fails `isValidUrl` |
| Preferences.AlsoBadRejected | src/lib/ioc-validator.js:75-82 | `also bad` fails `isValidUrl` |
| Preferences.FlagSamples | src/lib/preferences.js:89-93 | `active: "yes"` becomes `true`, and `active: false` is kept |
| Background.NormaliseUrl | src/lib/background.js:35-40 | the result has an http(s) scheme; it equals the input iff the input already has one, else it is `https://` + input |
| Background.HasHttpScheme | src/lib/background.js:36 | the case-insensitive test `/^https?:\/\//i` |
| Background.PrefixHasScheme | src/lib/background.js:37 | `https://` + anything has an http(s) scheme |
| Background.NormaliseUrlIdempotent | src/lib/background.js:35-40 | normalising twice equals normalising once |
| Background.LastSeparator | src/lib/background.js:122-123 | the result is -1 or the position of a `.` or `:`, and no separator follows it |
| Background.Bracketed | src/lib/background.js:126-134 | wrapping one character in brackets adds exactly two characters |
| Background.DefangIp | src/lib/background.js:121-136 | the `lastIndexOf`/`slice` code yields `DefangedIp`: the rightmost separator bracketed, or the text unchanged when it has none |
| Background.DefangedIp | src/lib/background.js:121-136 | the rightmost `.` or `:` wrapped in brackets, a dot when it comes after the last colon, else the colon |
| Background.LastSeparatorIs | src/lib/background.js:122-125 | a separator with none after it is the rightmost separator |
| Background.DefangedIpShape | src/lib/background.js:121-136 | a text without `.` or `:` is unchanged; otherwise exactly the rightmost separator is wrapped in brackets |
| Background.Ipv4DefangsLastDot | src/lib/background.js:125-129 | an IPv4 address is defanged at its last dot, becoming `[.]` |
| Background.DefangedIpv4Sample | src/lib/background.js:121-136 | `192.168.1.5` becomes `192.168.1[.]5` |
| Background.DefangedIpv6Sample | src/lib/background.js:121-136 | `2001:db8::1` becomes `2001:db8:[:]1` |
| Background.Ipv4Chars | src/lib/ioc-validator.js:11-12 | every character of an IPv4 address is a digit or a dot |
| Background.DefangUrl | src/lib/background.js:234 | the result grows by two characters per dot and never starts with a bare dot |
| Background.RefangDefang | src/lib/background.js:234 | reading every `[.]` back as a dot restores the original URL |
| Background.DefangedDotsBracketed | src/lib/background.js:234 | every dot left in a defanged URL sits between `[` and `]` |
| Background.DefangUrlAppend | src/lib/background.js:234 | defanging distributes over concatenation, so characters are handled one by one, in order |
| Background.NoDotDefang | src/lib/background.js:234 | a text without dots is copied unchanged |
| Background.Expand | src/lib/background.js:215-221 | every expanded lookup URL has an http(s) scheme |
| Background.Substitute | src/lib/background.js:216-221 | the chain `.replace('{url}', …).replace('{encodedUrl}', …).replace('{domain}', …)` |
| Background.OnlyFirstPlaceholder | src/lib/background.js:109 | in `host{ip}rest` the first `{ip}` becomes the address and `https://` is put in front |
| Background.RepeatedPlaceholder | src/lib/background.js:109 | a second `{ip}` in a template stays in the URL literally |
| Background.ForeignPlaceholderKept | src/lib/background.js:165 | a hash expansion leaves an `{ip}` placeholder in the URL as it is |
| Background.NotSchemeStart | src/lib/background.js:36 | a text that does not start with `h` in either case has no http(s) scheme |
| Background.LowerHasNoEncodedUrl | src/lib/background.js:218-219 | a lower-case text holds no `{encodedUrl}`, so replacing that placeholder leaves it alone |
| Background.UrlStep | src/lib/background.js:218 | the `{url}` replacement puts the URL in place of the first `{url}` |
| Background.DomainStep | src/lib/background.js:220 | the `{domain}` replacement acts on the first `{domain}` in the text produced so far |
| Background.LowerSubject | src/lib/background.js:189 | a template prefix and a lower-case selected URL together stay lower case |
| Background.DomainInsideUrlReplaced | src/lib/background.js:216-221 | the replacements act on the whole text in order, so a `{domain}` inside the selected URL is replaced by the domain |
| Background.Plan | src/lib/background.js:106-116 | one request per template, in template order, at index start+i, with the expanded URL, in the background |
| Background.PlanTabs | src/lib/background.js:106-116 | the tab loop, with its incremented index, yields `Plan` from the tab after the active one |
| Background.PlanDistinct | src/lib/background.js:204-229 | the tabs of one plan have strictly increasing indices and none takes focus |
| Background.IpPivot | src/lib/background.js:95-143 | proceeds iff the normalised selection is IPv4 or IPv6; then opens the plan of `{ip}` expansions; copies the normalised address only when `copyToClipboard` is set, defanged iff `sanitise` is set |
| Background.HashPivot | src/lib/background.js:150-181 | proceeds iff the selection is a hash; then opens the plan of `{hash}` expansions; copies the normalised hash, never defanged, only when `copyToClipboard` is set |
| Background.UrlSubject | src/lib/background.js:189-193 | the subject of the URL pivot has an http(s) scheme and is already normalised |
| Background.SubjectNormal | src/lib/background.js:189-193 | putting `https://` before a trimmed lower-case text keeps it trimmed and lower case |
| Background.UrlPivot | src/lib/background.js:188-242 | proceeds iff the prefixed subject is a valid URL; then opens the plan of URL expansions, with domain `""` when the host name cannot be parsed; copies the subject only when `copyToClipboard` is set, defanged iff `sanitise` is set |
| Background.UrlGate | src/lib/background.js:191-195 | after prefixing, the URL gate says yes exactly when the full URL pattern matches; the bare-domain pattern never decides it |
| Background.SchemedIsNotDomain | src/lib/ioc-validator.js:22 | a lower-case text with an http(s) scheme is not a bare domain |
| Background.ColonIsNotDomain | src/lib/ioc-validator.js:22 | a text holding a colon is not a bare domain |
| Background.SchemeColon | src/lib/background.js:191 | a lower-case text with an http(s) scheme has its colon at position 4 or 5 |
| Background.Ipv4ClipboardDefanged | src/lib/background.js:118-136 | with `copyToClipboard` and `sanitise` set, a copied IPv4 address has exactly its last dot bracketed |
| Background.HandleIp | src/lib/background.js:95-148 | the address branch of the listener computes `IpPivot` |
| Background.HandleHash | src/lib/background.js:150-186 | the hash branch of the listener computes `HashPivot` |
| Background.HandleUrl | src/lib/background.js:188-244 | the URL branch of the listener computes `UrlPivot`; its inline scheme test is the `normaliseUrl` step |
| Background.MenuType | src/lib/background.js:90-92 | there is a type iff the menu id starts with `soc-intel-`, and the id is that prefix followed by the type |
| Background.HandleClick | src/lib/background.js:86-249 | the listener computes `OnClicked`: nothing for an empty selection or a foreign menu item, otherwise the pivot the item names, and nothing for an unknown one |
| Background.OnClicked | src/lib/background.js:86-249 | the outcome of one click: no selection or a foreign item does nothing, else the menu type picks the pivot |
| Background.ClickOpens | src/lib/background.js:89-94 | tabs open only for a non-empty selection on the ip, hash or url menu item |
| Background.ClickIp | src/lib/background.js:94-97 | the ip menu item runs the address pivot on any non-empty selection |
| Checkboxes.Visibility | src/lib/checkboxes.js:49-80 | one display value per label |
| Checkboxes.Deep | src/lib/checkboxes.js:54-55 | a numeric level above 1 |
| Checkboxes.AfterHiding | src/lib/checkboxes.js:53-58 | the first pass: `none` for a deep label, the prior display otherwise |
| Checkboxes.Parent | src/lib/checkboxes.js:62-66 | a label with a checked checkbox and a numeric level starts a scan |
| Checkboxes.Reveals | src/lib/checkboxes.js:67-76 | the scan from parent `p` reaches `c` and `c` is one level deeper: no numeric level at or above `p`'s lies between them |
| Checkboxes.RevealedBy | src/lib/checkboxes.js:61-79 | some parent before the bound reveals the label |
| Checkboxes.Revealed | src/lib/checkboxes.js:61-79 | some parent on the page reveals the label |
| Checkboxes.UpdateVisibility | src/lib/checkboxes.js:49-80 | both passes, with the inner scan and its `break`, leave the array equal to `Visibility` of the labels and the prior displays |
| Checkboxes.RevealedByStep | src/lib/checkboxes.js:61-79 | each turn of the outer loop adds exactly the children revealed by the label at that index |
| Checkboxes.ScanStops | src/lib/checkboxes.js:72 | once the scan meets a numeric level no deeper than the parent's, no later label is revealed by that parent |
| Checkboxes.VisibilityIdempotent | src/lib/checkboxes.js:49-80 | running the update twice gives the result of running it once |
| Checkboxes.ShallowNeverHidden | src/lib/checkboxes.js:53-58 | a label whose level is non-numeric or at most 1 ends `flex` or keeps its prior display, never hidden by the update |
| Checkboxes.DeepLabelVisibility | src/lib/checkboxes.js:53-79 | a label deeper than level 1 ends `flex` iff some parent reveals it, and `none` otherwise |
| Checkboxes.PriorIrrelevantWhenDeep | src/lib/checkboxes.js:49-80 | the final display of a deep label does not depend on the prior displays |
| Checkboxes.RevealingParentUnique | src/lib/checkboxes.js:67-76 | at most one parent reveals any label |
| Checkboxes.OnlyDirectChildren | src/lib/checkboxes.js:74-76 | a parent reveals only labels exactly one level deeper |
| Checkboxes.NonParentRevealsNothing | src/lib/checkboxes.js:62-66 | a label without a checkbox, not checked, or without a numeric level reveals nothing |
| Checkboxes.UnleveledDoesNotStop | src/lib/checkboxes.js:70 | a label without a numeric level does not stop a parent's scan |
| Checkboxes.SamplePage | src/lib/checkboxes.js:49-80 | on a six-label page, a checked top label shows its two children and hides the rest of the deep labels |
| Text.Lower | src/lib/ioc-validator.js:31 | same length, each character lower-cased |
| Text.Trim | src/lib/ioc-validator.js:31 | the result has no white space at either end and is a slice of the input with only white space around it |
| Text.TrimUnique | src/lib/ioc-validator.js:31 | any slice with no white space at either end and only white space around it is the trimmed text |
| Text.TrimStart | src/lib/ioc-validator.js:31 | removes exactly the leading white space |
| Text.TrimEnd | src/lib/ioc-validator.js:31 | removes exactly the trailing white space |
| Text.TrimYieldsTrimmed | src/lib/ioc-validator.js:31 | a trimmed result has no white space at either end |
| Text.IndexOf | src/lib/background.js:109 | -1 iff the pattern does not occur, otherwise its first occurrence |
| Text.IndexOfFrom | src/lib/background.js:109 | -1 when the pattern does not occur at or after the start position, otherwise its first occurrence there |
| Text.Split | src/lib/ioc-validator.js:11-22 | the pieces between the occurrences of one character, none holding that character, at least one of them; the patterns read their `.`- and `:`-separated groups this way |
| Js.Get | src/lib/preferences.js:56 | `user[key]`: the stored field, or `undefined` for a missing key or a non-object |
| Js.Typeof | src/lib/preferences.js:89 | the `typeof` operator, with `object` for `null` and arrays |
| Text.ReplaceFirst | src/lib/background.js:109 | with no occurrence the text is unchanged; otherwise only the first occurrence is replaced |
| Text.LastIndexOf | src/lib/background.js:122-123 | -1 or the position of the character, with no occurrence after it |
| Text.ReplaceAfter | src/lib/background.js:109 | when the text before the placeholder lacks its first character, the replacement lands right there |
| Text.ReplaceAbsent | src/lib/background.js:218-220 | a text missing one character of the pattern is left unchanged by the replacement |

## Left out

- Browser I/O is not modelled: storage reads, writes and change events,
  context-menu creation and removal, the initial menu setup,
  `tabs.query`/`tabs.create`, `scripting.executeScript` and clipboard
  writes. The model takes their inputs as parameters and returns what would
  be created or copied. The `labels` table and `updateContextMenu` are left
  out with them.
- `loadPreferences`, `savePreferences` and storage selection are I/O.
  Converting the loaded object to the fields a pivot reads
  (`SectionPrefs`) is not modelled.
- `encodeURIComponent` and `new URL(...).hostname` are host functions: they
  are parameters of `UrlPivot`.
- `String.replace` replacement patterns (`$&`, `$1`, …) are not modelled:
  the model inserts the replacement literally.
- `toLowerCase` lowers the ASCII letters only. `trim` and `\s` use the full
  ECMAScript white-space set.
- JavaScript numbers are modelled as integers: only their `typeof` matters
  to the reconciler. Key order in objects and the aliasing of default
  subtrees returned by reference are not modelled; values are compared
  structurally.
- Property reads on a non-object, non-null user value (a string's `length`,
  an array's indices) return `undefined` in the model.
- `data-level` is abstracted to `Option<int>`, the result of `parseInt`
  with `NaN` as `None`. The DOM queries and the `change` listener of the
  options page are left out.
- An absent `selectionText` is treated as the empty selection. Both return
  without action.
- Background.DefangUrl: there is no concrete sample on a literal URL;
  `RefangDefang`, `DefangUrlAppend`, `NoDotDefang` and
  `DefangedDotsBracketed` state its behaviour for every input.
- Background.Expand: there is no concrete sample on a literal template;
  `OnlyFirstPlaceholder`, `RepeatedPlaceholder`, `ForeignPlaceholderKept`
  and `DomainInsideUrlReplaced` state its behaviour for every template of
  those shapes.
- `src/popup.js`, `src/lib/tabs.js` and `build.js` are user-interface and
  build code, outside this model.

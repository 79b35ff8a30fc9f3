# Portfolio widgets — a Dafny model

This project models the data-handling core of a personal portfolio site
built with React. The site shows a developer's repositories hosted on a
source-hosting service (GitHub), together with their releases, builds,
languages and files. It also has a small music player. The model covers
these components:

- **BuildWidget**: a build-status card per repository. It picks the latest
  stable release and the newest pre-release (alpha, beta, dev or nightly
  tag) from the first page of releases. It classifies each build by tag
  keyword and by age, caches the pair for one hour, and renders at most
  two cards.
- **ReleaseCards**: the "Latest Releases" section. It collects the
  releases of every repository, sorts them newest first in place, and
  shows the first stable release and the first pre-release-tagged one.
- **FileStructure**: the top-level file listing of a repository. Hidden
  entries are dropped and the list is capped at twelve. When the request
  fails, a keyword-chosen placeholder set is shown. The listing is cached
  for one hour, and each entry gets an icon by extension.
- **MiniLanguageChart**: the small language donut of a repository card. It
  uses a fresh cached mix or a keyword-chosen placeholder mix, then
  derives rounded percentages and a one-line label.
- **RepositoriesSection**: one request for the repository list. The list
  is split into own repositories and forks. Each own repository gets a
  subscriber count, and a two-repository placeholder is used when the
  request fails.
- **LanguageChart**: the language pie. A loop tallies the repositories per
  primary language.
- **MusicPlayer**: a five-track player. The model covers its play, track,
  error, volume and mute state, the clock text, the progress bar and the
  downsampling of analyser bins into eighty waveform bars.

Modelling conventions:

- Network requests are parameters of type `Fetch<T>`: `Ok` for a decoded
  2xx body, `RateLimited` for a 403, `Failed` for anything else.
- `localStorage` is a `Cache.Store` object holding payload and time maps.
- The clock (`Date.now()`) is a parameter `now`.
- Nullable strings are `""`, because every use tests them for
  truthiness.
- JavaScript objects used as dictionaries are association lists. They
  keep insertion order, as `Object.keys` does for these string keys.
- Component state that the source updates in place is a `class`:
  `ReleaseCards.ReleaseSection`, `RepositoriesSection.Section` and
  `MusicPlayer.Player`.
- Each effect is a method whose `ensures` clauses state the new state. The
  in-place sort is a method over an `array`, proved equal to a stable
  functional insertion sort. The tally and subscriber loops are methods
  proved against specification functions.

## Model

| member | source | states |
|---|---|---|
| Text.ToLower | src/components/BuildWidget.js:189 | lower-casing keeps the length and maps every character through the ASCII lower-case mapping |
| Text.Truncate | src/components/MiniLanguageChart.js:216 | a string up to the cap is kept; a longer one becomes its first `n` characters followed by "..." |
| Text.TruncateIdempotent | src/components/MiniLanguageChart.js:216 | cutting an already cut name changes nothing |
| Text.AfterLastDot | src/components/FileStructure.js:155 | `split('.').pop()` is the suffix after the last dot: a suffix of the name, with no dot, preceded by a dot unless it is the whole name |
| Text.NatToString | src/components/MiniLanguageChart.js:217 | a rendered number is a non-empty string of decimal digits with no leading zero, "0" exactly for 0 |
| Text.NatToStringRoundTrip | src/components/MiniLanguageChart.js:217 | reading back a rendered natural number gives the number |
| Seqs.Filter | src/components/RepositoriesSection.js:99 | `filter` keeps exactly the elements that pass, and nothing else |
| Seqs.FilterPartition | src/components/RepositoriesSection.js:99-150 | filtering by a test and by its negation splits a list with no element lost or duplicated |
| Seqs.FindIndex | src/components/ReleaseCards.js:51-60 | `find` lands on the first element that passes, or on none exactly when no element passes |
| Dict.Keys | src/components/LanguageChart.js:35 | `Object.keys` lists the keys in insertion order |
| Dict.Values | src/components/LanguageChart.js:36 | `Object.values` lists the values in the same order as the keys |
| Dict.Get | src/components/LanguageChart.js:58 | a lookup finds nothing exactly for an absent key, and otherwise returns a value stored under that key |
| Dict.GetEntry | src/components/LanguageChart.js:35-36 | in a dictionary with distinct keys, every listed key looks up its own listed value |
| Dict.Set | src/components/LanguageChart.js:27 | assignment keeps an existing key in place and appends a new key at the end |
| Dict.SetGet | src/components/LanguageChart.js:27 | after an assignment the key reads the new value and every other key reads as before |
| Dict.SetDistinct | src/components/LanguageChart.js:27 | assignment never duplicates a key |
| Dict.TotalSet | src/components/LanguageChart.js:27 | replacing one key's value changes the sum of the values by exactly the difference |
| Newest.Insert | src/components/ReleaseCards.js:48 | inserting into the newest-first list adds exactly one element |
| Newest.SortNewestFirst | src/components/ReleaseCards.js:48 | the sorted list has the input's length |
| Newest.InsertPermutes | src/components/ReleaseCards.js:48 | insertion adds the element and loses none |
| Newest.InsertPosition | src/components/ReleaseCards.js:48 | the new element lands right after the last element at least as new, so later ones are strictly older and ties keep their order |
| Newest.InsertKeepsOrder | src/components/ReleaseCards.js:48 | insertion keeps a newest-first list newest first |
| Newest.SortOrders | src/components/ReleaseCards.js:48 | the comparator `b - a` sorts newest first |
| Newest.SortPermutes | src/components/ReleaseCards.js:48 | the sort is a permutation of its input |
| Newest.FirstMatchIsNewest | src/components/ReleaseCards.js:48-60 | after sorting, `find` lands on an element at least as new as every element that passes |
| Newest.SortInPlace | src/components/ReleaseCards.js:48 | the in-place array sort leaves the array equal to the stable newest-first sort of its old contents |
| Newest.InsertLast | src/components/ReleaseCards.js:48 | one insertion pass turns the first `i + 1` cells into the sorted prefix with the new element inserted, and leaves the rest alone |
| Newest.InsertStep | src/components/ReleaseCards.js:48 | moving a newer element one cell left keeps the array equal to the insertion it is carrying out |
| Github.TotalDownloads | src/components/BuildWidget.js:273 | the total is zero exactly when every asset's count is zero |
| Github.TotalDownloadsAppend | src/components/BuildWidget.js:273 | the download total adds up over any split of the asset list |
| Github.TotalDownloadsBound | src/components/BuildWidget.js:273 | every asset's count is part of the total |
| Github.BodyPreview | src/components/BuildWidget.js:253-260 | an empty body shows nothing, a body up to 150 characters shows whole, a longer one shows its first 150 characters and "..." |
| Cache.Lookup | src/components/BuildWidget.js:31-35 | an entry is readable exactly when payload and time are both present and less than the TTL old |
| Cache.PutThenLookup | src/components/BuildWidget.js:98-102 | a written entry reads back for exactly one TTL and other keys are unaffected |
| Cache.Store.Put | src/components/BuildWidget.js:98-102 | writing sets both the payload and its time and nothing else |
| Cache.Store.Remove | src/components/BuildWidget.js:43-44 | removal deletes both entries, after which the key is never fresh |
| Fallback.Classify | src/components/FileStructure.js:87-133 | the flavour is the first of web, mod/script, api, bot whose keyword test passes, and generic exactly when none passes |
| BuildWidget.BuildTypeOf | src/components/BuildWidget.js:185-197 | a null build is a release; otherwise the type is the first of alpha, beta, dev, nightly found in the lower-cased tag (else name), each type exactly in its case, and release exactly when none is found |
| BuildWidget.BuildTypeMatchesKeywords | src/components/BuildWidget.js:185-197 | a build is typed other than release exactly when its tag (else name) carries a pre-release keyword |
| BuildWidget.BuildTypeLabel | src/components/BuildWidget.js:239 | the badge is the type name with its first letter upper-cased and the rest unchanged |
| BuildWidget.BuildTypeColorsDistinct | src/components/BuildWidget.js:199-208 | different build types get different colours |
| BuildWidget.BuildTypeColor | src/components/BuildWidget.js:199-208 | every build type gets a `#rrggbb` colour |
| BuildWidget.BuildStatus | src/components/BuildWidget.js:150-173 | unknown exactly without a readable date; otherwise old from 365 elapsed days, monthly from 30, recent below |
| BuildWidget.StatusColor | src/components/BuildWidget.js:175-183 | every status gets a `#rrggbb` colour |
| BuildWidget.StatusColorsDistinct | src/components/BuildWidget.js:175-183 | different statuses get different colours |
| BuildWidget.FormatDate | src/components/BuildWidget.js:128-148 | "INVALID DATE" exactly for a missing or unreadable date |
| BuildWidget.InvalidDateIsUnknownStatus | src/components/BuildWidget.js:128-173 | a card shows "INVALID DATE" exactly when its status is unknown |
| BuildWidget.LatestReleaseIndex | src/components/BuildWidget.js:74-79 | the first release with a stable tag if there is one, else index 0 of a non-empty page, and none only for an empty page |
| BuildWidget.LatestRelease | src/components/BuildWidget.js:74-79 | the latest release is null exactly for an empty page and otherwise is the release at that index |
| BuildWidget.LatestNightly | src/components/BuildWidget.js:82-92 | null exactly when no release has a pre-release tag and a date; otherwise such a release at least as new as every other one |
| BuildWidget.SelectedTypes | src/components/BuildWidget.js:74-92 | with a stable tag on the page the release card is typed release; the nightly card never is |
| BuildWidget.ReadCache | src/components/BuildWidget.js:35-56 | a fresh entry is served unless it is malformed or holds two nulls, which evict it; a stale or absent one misses |
| BuildWidget.EmptyPageNeverServed | src/components/BuildWidget.js:40-45 | the pair cached for an empty page is never served again |
| BuildWidget.Picked | src/components/BuildWidget.js:69-118 | a failed request shows no builds; a successful one shows no release exactly for an empty page |
| BuildWidget.FetchBuildData | src/components/BuildWidget.js:21-122 | no repository touches nothing; a served entry is shown unchanged; otherwise evict if told to, show the pick, and cache it only on success |
| BuildWidget.Cards | src/components/BuildWidget.js:231-331 | at most two cards, never two with one tag, no card exactly when both picks are null; the release card first when there is one, and the nightly card last exactly when it is present and its tag differs from the release's |
| BuildWidget.Downloads | src/components/BuildWidget.js:271-275 | the counter shows exactly when there are assets, and it is the download total, at least every asset's count |
| BuildWidget.VersionLabel | src/components/BuildWidget.js:242 | a tag without a known prefix is kept; a tag whose lower-cased form starts with one of the prefixes loses exactly that prefix |
| BuildWidget.VersionLabelStripsOnce | src/components/BuildWidget.js:242 | only the leading prefix goes, even when the rest starts with another one |
| ReleaseCards.RepoReleases | src/components/ReleaseCards.js:25-40 | a failed release request contributes nothing; a successful one contributes each release tagged with its repository |
| ReleaseCards.Flatten | src/components/ReleaseCards.js:42 | every collected release came from a successful request for some repository |
| ReleaseCards.FlattenComplete | src/components/ReleaseCards.js:25-42 | every release of every repository whose request succeeded is collected |
| ReleaseCards.IsNightlyIsPreReleaseTag | src/components/ReleaseCards.js:55-60 | the nightly test is the shared pre-release keyword test |
| ReleaseCards.Selected | src/components/ReleaseCards.js:51-67 | at most two cards from the list; the first stable release first when any exists; the first nightly-tagged release last when it sits at another position; two cards exactly then; none exactly when no release is stable or nightly-tagged |
| ReleaseCards.SharedSlot | src/components/ReleaseCards.js:51-67 | one release fills both slots exactly when the first stable-or-nightly release is both; it is then unflagged with dev, beta or alpha in its tag; with both kinds present one card shows exactly then |
| ReleaseCards.PicksAreNewest | src/components/ReleaseCards.js:47-67 | after the sort, the stable card is the newest stable release and a nightly card is the newest nightly one |
| ReleaseCards.ReleaseTypeOf | src/components/ReleaseCards.js:90-96 | nightly exactly for a pre-release keyword tag |
| ReleaseCards.Badge | src/components/ReleaseCards.js:98-104 | nightly builds get "Nightly" in orange, stable ones "Latest" in green |
| ReleaseCards.ReleaseSection.constructor | src/components/ReleaseCards.js:5-7 | no releases, loading, no error |
| ReleaseCards.ReleaseSection.View | src/components/ReleaseCards.js:106-143 | spinner exactly while loading; the error box, carrying the error text, exactly when loaded with an error; otherwise "no releases" exactly for an empty list and the grid of the releases exactly for a non-empty one |
| ReleaseCards.ReleaseSection.FetchReleases | src/components/ReleaseCards.js:10-76 | a failed list sets the error and keeps the releases; otherwise the releases become the picks from the newest-first sort of all collected releases |
| ReleaseCards.CollectReleases | src/components/ReleaseCards.js:42 | the collected releases are placed, in order, in a new array |
| ReleaseCards.PickCards | src/components/ReleaseCards.js:51-67 | the conditional pushes build exactly the selected cards |
| FileStructure.DisplayList | src/components/FileStructure.js:59-67 | the first twelve non-hidden entries in order, projected to their four fields |
| FileStructure.DisplayListComplete | src/components/FileStructure.js:59-67 | with twelve or fewer visible entries, every visible entry is listed |
| FileStructure.FallbackSet | src/components/FileStructure.js:91-133 | five or six entries, "src" first, always a README, and a hidden entry exactly in the generic set |
| FileStructure.FallbackFiles | src/components/FileStructure.js:87-136 | the set of the first flavour, in the order web, mod, api, bot, whose keyword test passes, else the generic set; only a generic repository gets a hidden entry |
| FileStructure.Extension | src/components/FileStructure.js:155 | no dot in the extension; the whole lower-cased name without a dot, and empty for a name ending in a dot |
| FileStructure.ExtensionIsLastSegment | src/components/FileStructure.js:155 | the extension is the lower-cased tail after the last dot: a tail with no dot, preceded by a dot unless it is the whole name |
| FileStructure.FileType | src/components/FileStructure.js:203-207 | directories read "directory"; a file reads its extension, or "file" when the extension is empty |
| FileStructure.FileTypeOfName | src/components/FileStructure.js:203-207 | a name without a dot is typed by the whole lower-cased name; a name ending in a dot is typed "file" |
| FileStructure.FileIcon | src/components/FileStructure.js:150-201 | folders get the folder icon; files get their extension's icon, else the page icon |
| FileStructure.FolderIconIffDirectory | src/components/FileStructure.js:150-201 | the folder icon marks exactly the directories |
| FileStructure.FetchContents | src/components/FileStructure.js:19-145 | no repository touches nothing; a fresh parsed entry is shown unchanged; otherwise the listing or the placeholder set is shown and cached |
| MiniLanguageChart.FallbackMix | src/components/MiniLanguageChart.js:45-77 | every placeholder mix is well formed and sums to 100; the generic one is the primary language alone |
| MiniLanguageChart.FallbackLanguage | src/components/MiniLanguageChart.js:45-79 | the mix of the first flavour, in the order web, mod, api, bot, whose keyword test passes; for a generic one its language, or JavaScript, at 100 |
| MiniLanguageChart.Percent | src/components/MiniLanguageChart.js:98 | `Math.round` of the share is the nearest integer, halves rounded up |
| MiniLanguageChart.PercentOfHundred | src/components/MiniLanguageChart.js:98 | a share of 100 is its own percentage |
| MiniLanguageChart.ChartWeights | src/components/MiniLanguageChart.js:94-107 | one weight per language: 1 each for an empty table, NaN for a zero total, else the rounded percentage |
| MiniLanguageChart.FallbackWeights | src/components/MiniLanguageChart.js:45-107 | every weight of a placeholder mix is exactly the language's share of 100 |
| MiniLanguageChart.TooltipPercent | src/components/MiniLanguageChart.js:180-182 | 0 for a zero total, else the rounded percentage |
| MiniLanguageChart.Label | src/components/MiniLanguageChart.js:205-219 | "n langs" for several languages, "Other" with no first language, else the cut name, a space, the percentage (100 at a zero total) in digits without a leading zero, and "%" |
| MiniLanguageChart.MissingRepositoryLabel | src/components/MiniLanguageChart.js:20-24 | without a repository the label reads "Other 100%" |
| MiniLanguageChart.FetchLanguages | src/components/MiniLanguageChart.js:18-91 | no repository gives "Other" and touches nothing; a fresh parsed entry is shown unchanged; otherwise the placeholder mix is shown and cached |
| RepositoriesSection.OwnedAndForksPartition | src/components/RepositoriesSection.js:99-150 | own repositories and forks split the list: nothing is lost or duplicated, and each part is what it claims to be |
| RepositoriesSection.SubscriberCount | src/components/RepositoriesSection.js:119-144 | the subscriber array's length on success, 0 on a 403, another status or an exception |
| RepositoriesSection.AugmentSubscribers | src/components/RepositoriesSection.js:103-145 | the result is the own repositories in order, each with only its subscriber count replaced by its own request's outcome |
| RepositoriesSection.FallbackRepos | src/components/RepositoriesSection.js:47-74 | two non-fork placeholders with no subscribers, stamped now, the portfolio in JavaScript and the image repository without a language |
| RepositoriesSection.FormatLanguage | src/components/RepositoriesSection.js:181-184 | a missing language reads "Other"; any other is kept |
| RepositoriesSection.RepositoryLanguages | src/components/RepositoriesSection.js:186-194 | the image repository is tagged "Misc"; others carry their language, or no tag without one |
| RepositoriesSection.FallbackTags | src/components/RepositoriesSection.js:186-194 | the placeholders are tagged JavaScript and Misc |
| RepositoriesSection.LanguageColor | src/components/RepositoriesSection.js:196-217 | a listed language gets its table colour, any other the colour of "Other" |
| RepositoriesSection.UnknownIsOther | src/components/RepositoriesSection.js:181-217 | an unlisted language is drawn like a missing one |
| RepositoriesSection.Section.constructor | src/components/RepositoriesSection.js:6-9 | empty lists, loading, no error |
| RepositoriesSection.Section.FetchRepositories | src/components/RepositoriesSection.js:15-179 | success: augmented own repositories, forks as contributions, raw list cached; failure: placeholders, no contributions, placeholders cached; never an error |
| LanguageChart.LanguageKey | src/components/LanguageChart.js:25-32 | a repository counts under its language, or "Other" without one |
| LanguageChart.CountPositive | src/components/LanguageChart.js:25-32 | a key has a positive count exactly when some repository counts under it |
| LanguageChart.TallyCounts | src/components/LanguageChart.js:22-32 | the tally has distinct keys, sums to the number of repositories, gives each key its count, and lists exactly the keys in use |
| LanguageChart.TallyStep | src/components/LanguageChart.js:25-32 | one loop step adds one to its own key only |
| LanguageChart.CountLanguages | src/components/LanguageChart.js:22-32 | the loop computes the tally: distinct keys, total equal to the number of repositories, each key's exact count |
| LanguageChart.ChartDataMatches | src/components/LanguageChart.js:34-36 | as many labels as values, no label twice, each value its label's positive count |
| LanguageChart.LanguagesUsed | src/components/LanguageChart.js:156-158 | "Languages Used" is the number of distinct keys among the repositories |
| LanguageChart.ChartData | src/components/LanguageChart.js:16-36 | no data exactly for a missing or empty list; otherwise the tally, with at least one label |
| LanguageChart.ChartColor | src/components/LanguageChart.js:39-59 | a listed language gets its table colour, any other the unlisted grey |
| LanguageChart.NoLanguageColor | src/components/LanguageChart.js:25-59 | repositories without a language are drawn in the "Other" grey, not the unlisted one |
| LanguageChart.TooltipNoun | src/components/LanguageChart.js:111 | "repository" exactly for a count of 1, else "repositories" |
| LanguageChart.TooltipNounAsWritten | src/components/LanguageChart.js:111 | as written, the noun starts with "repository" and is exactly that for a count of 1 |
| LanguageChart.TooltipNounMisspelt | src/components/LanguageChart.js:111 | as written, every count other than 1 reads "repositoryies", which differs from the intended plural |
| MusicPlayer.NextIndex | src/components/MusicPlayer.js:296-302 | the next track, wrapping from the last to the first |
| MusicPlayer.PrevIndex | src/components/MusicPlayer.js:304-310 | the previous track, wrapping from the first to the last |
| MusicPlayer.PrevNextInverse | src/components/MusicPlayer.js:296-310 | previous undoes next and next undoes previous |
| MusicPlayer.NextCycles | src/components/MusicPlayer.js:126-132 | `k` advances move `k` places round the playlist, so five come back to the same track |
| MusicPlayer.Player.constructor | src/components/MusicPlayer.js:38-56 | first track, paused, no error, unmuted, the stored volume or 1, the element at that volume |
| MusicPlayer.Player.Next | src/components/MusicPlayer.js:296-302 | the next track, error cleared, playing; volume state unchanged |
| MusicPlayer.Player.Prev | src/components/MusicPlayer.js:304-310 | the previous track, error cleared, playing; volume state unchanged |
| MusicPlayer.Player.Ended | src/components/MusicPlayer.js:126-132 | the end of a track advances like next, wrapping after the last, and keeps playing |
| MusicPlayer.Player.MediaError | src/components/MusicPlayer.js:133-142 | a media error stops playback and raises the error flag; nothing else changes |
| MusicPlayer.Player.CanPlay | src/components/MusicPlayer.js:494-497 | a playable track clears the error flag; nothing else changes |
| MusicPlayer.Player.AutoplayRejected | src/components/MusicPlayer.js:155-161 | a rejected automatic play marks playback stopped; nothing else changes |
| MusicPlayer.Player.TogglePlayPause | src/components/MusicPlayer.js:284-294 | flips playing when the element exists; nothing else changes |
| MusicPlayer.Player.ChangeVolume | src/components/MusicPlayer.js:312-329 | the volume is set and stored, a positive volume unmutes, and the element plays at the new volume |
| MusicPlayer.Player.ToggleMute | src/components/MusicPlayer.js:331-341 | with the element present muting flips and the element follows; the volume never changes |
| MusicPlayer.Player.Icon | src/components/MusicPlayer.js:559-571 | the crossed-out speaker shows exactly when the output is silent; the low icon below one half |
| MusicPlayer.MuteTwice | src/components/MusicPlayer.js:331-341 | muting twice restores the element to the unchanged volume |
| MusicPlayer.Progress | src/components/MusicPlayer.js:368 | 0 without a duration, otherwise within 0..100 for a time within the track and 100 at its end |
| MusicPlayer.SeekTime | src/components/MusicPlayer.js:343-351 | a click is ignored without a duration and otherwise seeks inside the track |
| MusicPlayer.SeekThenProgress | src/components/MusicPlayer.js:343-368 | after a seek the bar fills exactly up to the click |
| MusicPlayer.Pad2 | src/components/MusicPlayer.js:365 | two digits that read back as the number |
| MusicPlayer.FormatTime | src/components/MusicPlayer.js:361-366 | "0:00" for NaN; otherwise minutes without a leading zero, a colon and two digits below 60 that together read back as the whole seconds |
| MusicPlayer.FloorSplit | src/components/MusicPlayer.js:363-364 | whole minutes and whole remaining seconds are the quotient and remainder of the whole seconds by 60 |
| MusicPlayer.Average | src/components/MusicPlayer.js:234 | the average of a slice is NaN exactly for an empty slice |
| MusicPlayer.Downsample | src/components/MusicPlayer.js:229-236 | always eighty bars, bar `i` the average of its own slice of bins (NaN for an empty slice) |
| MusicPlayer.BarSlices | src/components/MusicPlayer.js:230-233 | with eighty bins or more the slices are non-empty, in range and disjoint; with fewer the step is 0 |
| MusicPlayer.FewBinsNoBars | src/components/MusicPlayer.js:230-234 | fewer than eighty bins give NaN bars only |
| MusicPlayer.SumBounds | src/components/MusicPlayer.js:234 | a sum of values in 0..1 lies between 0 and the count |
| MusicPlayer.BarBounds | src/components/MusicPlayer.js:223-236 | bins normalised into 0..1 give bars in 0..1 |

## Left out

- Rendering (JSX markup, CSS, Chart.js drawing, SVG waveform paths, colours
  by audio energy) is not modelled beyond the branches and texts listed
  above.
- Console logging and the debug helpers `clearBuildCache` and
  `clearFileStructureCache` are not modelled. They only log, or clear keys
  by prefix and reload the page.
- Network, storage and clock effects are parameters. Requests run in the
  order the source awaits them. Concurrency between widgets and effect
  re-runs on prop changes are not modelled.
- The 100 ms `setTimeout` pauses between subscriber requests are not
  modelled. They delay but do not change the outcome.
- `toLocaleDateString` formatting is kept as the timestamp
  (`BuildWidget.FormatDate`), and the ReleaseCards date line is left out.
- The one-decimal `toFixed` percentage of the LanguageChart tooltip is
  left out. Only its noun is modelled.
- Dates that `new Date` cannot read sort as the epoch in the model. The
  source's comparator yields NaN for them, which makes the sort order
  engine-defined.
- `parseInt` of a corrupted time entry (NaN, which is never fresh) is not
  modelled. Time entries are integers.
- `JSON.parse` failures are `Malformed`. FileStructure and
  MiniLanguageChart fall through to a new fetch without removing the entry.
  BuildWidget removes it.
- The RepositoriesSection cache read is disabled by a constant `false` in
  the source. The model writes the cache but never reads it.
- ReleaseCards compares the stable and nightly picks by object identity.
  This is modelled as equal positions in the sorted list.
- Object keys that look like array indices are enumerated first by
  JavaScript. This is not modelled; language names are not numeric.
- Lookups of inherited object properties are not modelled. Examples are
  `iconMap['constructor']` and a language named `toString`.
- Text.ToLower: maps ASCII letters only, where `toLowerCase` applies full
  Unicode case mapping. This affects every keyword test built on it: the
  file extensions, `BuildWidget.BuildTypeOf`, `Fallback.Classify`,
  `ReleaseCards.IsStable`/`IsNightly`, `Github.PreReleaseTag` and
  `BuildWidget.VersionLabel`. For example "APİ" lower-cases to "api̇" in
  JavaScript, which contains "api", while the model keeps the 'İ'.
- Github.BodyPreview: counts Unicode characters, while `length` and
  `substring` count UTF-16 code units. A body with characters outside the
  Basic Multilingual Plane is cut at a different place: 149 letters and
  one emoji are 151 code units, cut by the source but shown whole by the
  model. The same preview in src/components/ReleaseCards.js:179-183 is
  the same function and has the same gap.
- MusicPlayer.Player.constructor: a stored volume that is not a number
  (`parseFloat` NaN) is not modelled. The stored value is taken as read.
- MusicPlayer.Player.ChangeVolume: requires a value in 0..1, the range
  the slider produces.
- MusicPlayer.Player.MediaError: combines the listener added in the track
  effect with the element's `onError` prop. Both fire on the same error
  event.
- MusicPlayer.FormatTime: requires a non-negative time, as media times
  are.
- The Web Audio graph, `requestAnimationFrame`, the square-root
  normalisation of the byte bins and the energy average are not
  modelled. `MusicPlayer.BarBounds` assumes bins already in 0..1.
- The `shouldStartPlaying` autoplay listeners and drag state of the
  progress bar are not modelled, nor is `audio.load()`.
- Floating-point rounding is not modelled. Percentages use exact rational
  arithmetic with halves rounded up, as `Math.round` does for
  non-negative values. Times and volumes are exact reals.

## Findings

| source | as written | input that shows it | evidently intended | confidence | as-written member | corrected member |
|---|---|---|---|---|---|---|
| src/components/LanguageChart.js:111 | appends "ies" to "repository" for every count other than 1 | a language used by 2 repositories: the tooltip reads "2 repositoryies" | "repositories" for counts other than 1 | not executed | LanguageChart.TooltipNounMisspelt | LanguageChart.TooltipNoun |

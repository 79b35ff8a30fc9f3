/**
 * The build-status widget of a repository card: classifies releases by tag
 * keyword and by age, picks the latest stable release and the newest
 * pre-release from the first page of releases, caches that pair for an hour,
 * and renders at most two build cards.
 */
module BuildWidget {
  import opened Options
  import opened Text
  import opened Seqs
  import opened Github
  import opened Newest
  import opened Cache

  // ---------------------------------------------------------------------
  // Classification

  datatype BuildType = AlphaBuild | BetaBuild | DevBuild | NightlyBuild | ReleaseBuild

  /** `build.tag_name || build.name || ''`. */
  function TagOrName(b: Release): string {
    if b.tagName != "" then b.tagName else b.name
  }

  /** The text `getBuildType` searches: the lower-cased tag, else name. */
  function TypeText(b: Release): string {
    ToLower(TagOrName(b))
  }

  /**
   * `getBuildType`: a null build is a release; otherwise the lower-cased
   * tag (else name) is searched for alpha, beta, dev, nightly in that order,
   * and the first keyword found decides the type.
   */
  function BuildTypeOf(build: Option<Release>): (t: BuildType)
    ensures t == AlphaBuild <==> build.Some? && Contains(TypeText(build.value), "alpha")
    ensures t == BetaBuild <==> build.Some? && !Contains(TypeText(build.value), "alpha")
                                && Contains(TypeText(build.value), "beta")
    ensures t == DevBuild <==> build.Some? && !Contains(TypeText(build.value), "alpha")
                               && !Contains(TypeText(build.value), "beta")
                               && Contains(TypeText(build.value), "dev")
    ensures t == NightlyBuild <==> build.Some? && !Contains(TypeText(build.value), "alpha")
                                   && !Contains(TypeText(build.value), "beta")
                                   && !Contains(TypeText(build.value), "dev")
                                   && Contains(TypeText(build.value), "nightly")
    ensures t == ReleaseBuild <==> build.None? || (!Contains(TypeText(build.value), "alpha")
                                                   && !Contains(TypeText(build.value), "beta")
                                                   && !Contains(TypeText(build.value), "dev")
                                                   && !Contains(TypeText(build.value), "nightly"))
  {
    if build.None? then ReleaseBuild
    else
      var n := TypeText(build.value);
      if Contains(n, "alpha") then AlphaBuild
      else if Contains(n, "beta") then BetaBuild
      else if Contains(n, "dev") then DevBuild
      else if Contains(n, "nightly") then NightlyBuild
      else ReleaseBuild
  }

  /**
   * The type is anything but `release` exactly when the tag (else name)
   * carries one of the four pre-release keywords, so the classifier agrees
   * with the keyword test that the release selection uses.
   */
  lemma BuildTypeMatchesKeywords(b: Release)
    ensures BuildTypeOf(Some(b)) != ReleaseBuild <==> PreReleaseTag(TagOrName(b))
  {
    var n := TypeText(b);
    if PreReleaseTag(TagOrName(b)) {
      var i :| 0 <= i < |PreReleaseWords| && Contains(n, PreReleaseWords[i]);
    } else {
      assert !Contains(n, PreReleaseWords[0]) && !Contains(n, PreReleaseWords[1]);
      assert !Contains(n, PreReleaseWords[2]) && !Contains(n, PreReleaseWords[3]);
    }
  }

  /** A CSS colour written `#rrggbb` in lower-case hexadecimal. */
  predicate HexColour(c: string) {
    |c| == 7 && c[0] == '#' && forall i :: 1 <= i < 7 ==> c[i] in "0123456789abcdef"
  }

  /** `getBuildTypeColor`. */
  function BuildTypeColor(t: BuildType): (c: string)
    ensures HexColour(c)
  {
    match t
    case NightlyBuild => "#7c3aed"
    case ReleaseBuild => "#ffffff"
    case DevBuild => "#f59e0b"
    case BetaBuild => "#3b82f6"
    case AlphaBuild => "#ef4444"
  }

  /** The type string `getBuildType` returns. */
  function BuildTypeName(t: BuildType): string {
    match t
    case AlphaBuild => "alpha"
    case BetaBuild => "beta"
    case DevBuild => "dev"
    case NightlyBuild => "nightly"
    case ReleaseBuild => "release"
  }

  /** The badge text: the type string with its first letter upper-cased. */
  function BuildTypeLabel(t: BuildType): (badge: string)
    ensures |badge| == |BuildTypeName(t)| && badge[1..] == BuildTypeName(t)[1..]
    ensures 'A' <= badge[0] <= 'Z' && LowerChar(badge[0]) == BuildTypeName(t)[0]
  {
    match t
    case AlphaBuild => "Alpha"
    case BetaBuild => "Beta"
    case DevBuild => "Dev"
    case NightlyBuild => "Nightly"
    case ReleaseBuild => "Release"
  }

  /** Every build type has its own colour. */
  lemma BuildTypeColorsDistinct(s: BuildType, t: BuildType)
    requires s != t
    ensures BuildTypeColor(s) != BuildTypeColor(t)
  {
  }

  // ---------------------------------------------------------------------
  // Age of a build

  datatype Status = Recent | Monthly | Old | Unknown

  const DayMs: int := 86400000

  /**
   * `getBuildStatus`: unknown for a null build or a missing or unreadable
   * date; otherwise bucketed by the days elapsed since publication
   * (`old` from 365 days, `monthly` from 30, `recent` below, which includes
   * dates in the future).
   */
  function BuildStatus(build: Option<Release>, now: int): (st: Status)
    ensures st == Unknown <==> build.None? || !build.value.publishedAt.At?
    ensures st == Old <==> build.Some? && build.value.publishedAt.At?
                           && (now - build.value.publishedAt.ms) / DayMs >= 365
    ensures st == Monthly <==> build.Some? && build.value.publishedAt.At?
                               && 30 <= (now - build.value.publishedAt.ms) / DayMs < 365
    ensures st == Recent <==> build.Some? && build.value.publishedAt.At?
                              && (now - build.value.publishedAt.ms) / DayMs < 30
  {
    if build.None? then Unknown
    else match build.value.publishedAt
      case At(ms) =>
        if now - ms >= 365 * DayMs then Old
        else if now - ms >= 30 * DayMs then Monthly
        else Recent
      case _ => Unknown
  }

  /** `getStatusColor`. */
  function StatusColor(st: Status): (c: string)
    ensures HexColour(c)
  {
    match st
    case Recent => "#10b981"
    case Monthly => "#f59e0b"
    case Old => "#ef4444"
    case Unknown => "#6b7280"
  }

  /** Every status has its own colour. */
  lemma StatusColorsDistinct(s: Status, t: Status)
    requires s != t
    ensures StatusColor(s) != StatusColor(t)
  {
  }

  datatype DateLabel = InvalidDate | Formatted(ms: int)

  /** `formatDate`: "INVALID DATE" for a missing or unreadable date. */
  function FormatDate(d: Date): (shown: DateLabel)
    ensures shown == InvalidDate <==> !d.At?
  {
    match d
    case At(ms) => Formatted(ms)
    case _ => InvalidDate
  }

  /** A card shows "INVALID DATE" exactly when its status badge is grey. */
  lemma InvalidDateIsUnknownStatus(b: Release, now: int)
    ensures FormatDate(b.publishedAt) == InvalidDate <==> BuildStatus(Some(b), now) == Unknown
  {
  }

  // ---------------------------------------------------------------------
  // Selection from the first page of releases

  predicate StableTag(r: Release) {
    !PreReleaseTag(r.tagName)
  }

  /**
   * The index `releases.find(stable) || releases[0]` lands on: the first
   * release whose tag has no pre-release keyword, else the first release.
   */
  function LatestReleaseIndex(releases: seq<Release>): (k: Option<nat>)
    ensures k.None? <==> releases == []
    ensures k.Some? ==> k.value < |releases|
    ensures k.Some? ==> forall j :: 0 <= j < k.value ==> !StableTag(releases[j])
    ensures (exists i :: 0 <= i < |releases| && StableTag(releases[i]))
            <==> k.Some? && StableTag(releases[k.value])
    ensures releases != [] && (forall i :: 0 <= i < |releases| ==> !StableTag(releases[i]))
            ==> k == Some(0)
  {
    match FindIndex(releases, StableTag)
    case Some(i) => Some(i)
    case None => if releases == [] then None else Some(0)
  }

  /** The release at that index: null only for an empty page. */
  function LatestRelease(releases: seq<Release>): (r: Option<Release>)
    ensures r.None? <==> releases == []
    ensures r.Some? ==> r.value in releases
    ensures releases != [] ==> r == Some(releases[LatestReleaseIndex(releases).value])
  {
    match LatestReleaseIndex(releases)
    case None => None
    case Some(k) => Some(releases[k])
  }

  /** A pre-release that can be the nightly pick: keyword tag and a `published_at`. */
  predicate NightlyCandidate(r: Release) {
    PreReleaseTag(r.tagName) && r.publishedAt != Missing
  }

  function PublishedKey(r: Release): int {
    DateKey(r.publishedAt)
  }

  /**
   * `releases.filter(prerelease).filter(has date).sort(newest first)[0] || null`:
   * a candidate with the greatest publication time, or null when there is
   * no candidate.
   */
  function LatestNightly(releases: seq<Release>): (r: Option<Release>)
    ensures r.None? <==> forall i :: 0 <= i < |releases| ==> !NightlyCandidate(releases[i])
    ensures r.Some? ==> r.value in releases && NightlyCandidate(r.value)
    ensures r.Some? ==> forall i :: 0 <= i < |releases| && NightlyCandidate(releases[i])
                                    ==> PublishedKey(releases[i]) <= PublishedKey(r.value)
  {
    var candidates := Filter(releases, NightlyCandidate);
    var sorted := SortNewestFirst(candidates, PublishedKey);
    SortPermutes(candidates, PublishedKey);
    SortOrders(candidates, PublishedKey);
    if sorted == [] then
      assert forall i :: 0 <= i < |releases| && NightlyCandidate(releases[i]) ==> releases[i] in multiset(sorted);
      None
    else
      assert sorted[0] in multiset(candidates);
      assert forall i :: 0 <= i < |releases| && NightlyCandidate(releases[i])
               ==> PublishedKey(releases[i]) <= PublishedKey(sorted[0]) by {
        forall i | 0 <= i < |releases| && NightlyCandidate(releases[i])
          ensures PublishedKey(releases[i]) <= PublishedKey(sorted[0])
        {
          assert releases[i] in multiset(sorted);
          var m :| 0 <= m < |sorted| && sorted[m] == releases[i];
        }
      }
      Some(sorted[0])
  }

  /**
   * When the page has a stable tag, the latest release is typed `release`;
   * the nightly pick never is.
   */
  lemma SelectedTypes(releases: seq<Release>)
    requires forall i :: 0 <= i < |releases| ==> releases[i].tagName != ""
    ensures (exists i :: 0 <= i < |releases| && StableTag(releases[i]))
            ==> BuildTypeOf(LatestRelease(releases)) == ReleaseBuild
    ensures LatestNightly(releases).Some? ==> BuildTypeOf(LatestNightly(releases)) != ReleaseBuild
  {
    if exists i :: 0 <= i < |releases| && StableTag(releases[i]) {
      var k := LatestReleaseIndex(releases).value;
      BuildTypeMatchesKeywords(releases[k]);
    }
    if LatestNightly(releases).Some? {
      BuildTypeMatchesKeywords(LatestNightly(releases).value);
    }
  }

  // ---------------------------------------------------------------------
  // Fetch with the one hour cache

  /** The pair that is displayed and cached. */
  datatype BuildPayload = BuildPayload(latestRelease: Option<Release>, latestNightly: Option<Release>)

  const NoBuilds: BuildPayload := BuildPayload(None, None)

  function CacheKey(fullName: string): string {
    "build-data-" + fullName
  }

  /** What the cache check decides. */
  datatype CacheRead = Serve(payload: BuildPayload) | Evict | Miss

  /**
   * A fresh entry is served unless it fails to parse or holds two nulls (an
   * old fallback); both of those evict the entry and fall through to a fetch.
   */
  function ReadCache(payloads: map<string, Stored<BuildPayload>>, stamps: map<string, int>,
                     key: string, now: int): (d: CacheRead)
    ensures d.Miss? <==> !IsFresh(payloads, stamps, key, now, HourMs)
    ensures d.Serve? ==> payloads[key] == Parsed(d.payload) && d.payload != NoBuilds
    ensures d.Evict? <==> IsFresh(payloads, stamps, key, now, HourMs)
                          && payloads[key] in {Malformed, Parsed(NoBuilds)}
  {
    match Lookup(payloads, stamps, key, now, HourMs)
    case None => Miss
    case Some(Malformed) => Evict
    case Some(Parsed(p)) => if p == NoBuilds then Evict else Serve(p)
  }

  /** A fetch that found no release caches two nulls, which are never served. */
  lemma EmptyPageNeverServed(payloads: map<string, Stored<BuildPayload>>, stamps: map<string, int>,
                             key: string, written: int, now: int)
    ensures !ReadCache(payloads[key := Parsed(Picked(Ok([])))], stamps[key := written], key, now).Serve?
  {
  }

  /** The pair a response yields: both null unless the request succeeded. */
  function Picked(response: Fetch<seq<Release>>): (p: BuildPayload)
    ensures !response.Ok? ==> p == NoBuilds
    ensures response.Ok? ==> (p.latestRelease.None? <==> response.value == [])
  {
    match response
    case Ok(releases) => BuildPayload(LatestRelease(releases), LatestNightly(releases))
    case _ => NoBuilds
  }

  /**
   * `fetchBuildData`: without a repository or `full_name` nothing is read or
   * written; a served cache entry is shown as is; otherwise the entry is
   * evicted if the check said so, the releases are requested, and a
   * successful pick is shown and cached with time `now`, while a 403 or
   * other failure shows nothing and writes nothing.
   */
  method FetchBuildData(store: Store<BuildPayload>, repo: Option<Repo>, now: int,
                        response: Fetch<seq<Release>>) returns (shown: BuildPayload)
    modifies store
    ensures repo.None? || repo.value.fullName == "" ==> shown == NoBuilds && unchanged(store)
    ensures repo.Some? && repo.value.fullName != "" ==>
      var key := CacheKey(repo.value.fullName);
      var d := ReadCache(old(store.payloads), old(store.stamps), key, now);
      var payloads0 := if d.Evict? then old(store.payloads) - {key} else old(store.payloads);
      var stamps0 := if d.Evict? then old(store.stamps) - {key} else old(store.stamps);
      && (d.Serve? ==> shown == d.payload && unchanged(store))
      && (!d.Serve? ==> shown == Picked(response))
      && (!d.Serve? && response.Ok? ==> store.payloads == payloads0[key := Parsed(shown)]
                                        && store.stamps == stamps0[key := now])
      && (!d.Serve? && !response.Ok? ==> store.payloads == payloads0 && store.stamps == stamps0)
  {
    if repo.None? || repo.value.fullName == "" {
      return NoBuilds;
    }
    var key := CacheKey(repo.value.fullName);
    var d := ReadCache(store.payloads, store.stamps, key, now);
    if d.Serve? {
      return d.payload;
    }
    if d.Evict? {
      store.Remove(key);
    }
    shown := Picked(response);
    if response.Ok? {
      store.Put(key, shown, now);
    }
  }

  // ---------------------------------------------------------------------
  // Rendering

  /** The nightly card renders only when its tag differs from the release card's. */
  predicate ShowNightly(shown: BuildPayload) {
    shown.latestNightly.Some?
      && (shown.latestRelease.None? || shown.latestNightly.value.tagName != shown.latestRelease.value.tagName)
  }

  /**
   * The build cards in display order: the release card, then the nightly
   * card. Never two cards with one tag; no card only when both picks are null.
   */
  function Cards(shown: BuildPayload): (cards: seq<Release>)
    ensures |cards| <= 2
    ensures forall i, j :: 0 <= i < j < |cards| ==> cards[i].tagName != cards[j].tagName
    ensures cards == [] <==> shown == NoBuilds
    ensures shown.latestRelease.Some? ==> cards[0] == shown.latestRelease.value
    ensures ShowNightly(shown) ==> |cards| == (if shown.latestRelease.Some? then 2 else 1)
                                   && cards[|cards| - 1] == shown.latestNightly.value
    ensures !ShowNightly(shown) ==> |cards| == (if shown.latestRelease.Some? then 1 else 0)
  {
    (if shown.latestRelease.Some? then [shown.latestRelease.value] else [])
      + (if ShowNightly(shown) then [shown.latestNightly.value] else [])
  }

  /** The download counter: shown only when the release has assets. */
  function Downloads(r: Release): (n: Option<nat>)
    ensures n.Some? <==> r.assets != []
    ensures n.Some? ==> forall i :: 0 <= i < |r.assets| ==> r.assets[i].downloadCount <= n.value
    ensures n.Some? ==> n.value == TotalDownloads(r.assets)
  {
    if r.assets == [] then None
    else
      assert forall i :: 0 <= i < |r.assets| ==> r.assets[i].downloadCount <= TotalDownloads(r.assets) by {
        forall i | 0 <= i < |r.assets| ensures r.assets[i].downloadCount <= TotalDownloads(r.assets) {
          TotalDownloadsBound(r.assets, i);
        }
      }
      Some(TotalDownloads(r.assets))
  }

  /** The version prefixes `/^(beta|alpha|dev|nightly)-/i` removes. */
  const VersionPrefixes: seq<string> := ["beta-", "alpha-", "dev-", "nightly-"]

  /**
   * `tag_name.replace(/^(beta|alpha|dev|nightly)-/i, '')`: drops one
   * leading prefix, compared case-insensitively.
   */
  function VersionLabel(tag: string): (v: string)
    ensures |v| <= |tag| && v == tag[|tag| - |v|..]
    ensures (forall i :: 0 <= i < |VersionPrefixes| ==> !StartsWith(ToLower(tag), VersionPrefixes[i]))
            ==> v == tag
    ensures v != tag ==> exists i :: 0 <= i < |VersionPrefixes| && StartsWith(ToLower(tag), VersionPrefixes[i])
                                     && v == tag[|VersionPrefixes[i]|..]
    ensures forall i :: 0 <= i < |VersionPrefixes| && StartsWith(ToLower(tag), VersionPrefixes[i])
                        ==> v == tag[|VersionPrefixes[i]|..]
  {
    var lower := ToLower(tag);
    assert forall i, j :: 0 <= i < j < |VersionPrefixes| ==> VersionPrefixes[i][0] != VersionPrefixes[j][0];
    if StartsWith(lower, VersionPrefixes[0]) then tag[5..]
    else if StartsWith(lower, VersionPrefixes[1]) then tag[6..]
    else if StartsWith(lower, VersionPrefixes[2]) then tag[4..]
    else if StartsWith(lower, VersionPrefixes[3]) then tag[8..]
    else tag
  }

  /** Only one prefix goes: `VersionLabel(p + rest) == rest` even when `rest` has another. */
  lemma VersionLabelStripsOnce(i: nat, rest: string)
    requires i < |VersionPrefixes|
    ensures VersionLabel(VersionPrefixes[i] + rest) == rest
  {
    var p := VersionPrefixes[i];
    var tag := p + rest;
    var lower := ToLower(tag);
    assert forall k :: 0 <= k < |p| ==> LowerChar(p[k]) == p[k];
    assert lower[..|p|] == p by {
      forall k | 0 <= k < |p| ensures lower[k] == p[k] {
        assert tag[k] == p[k];
      }
    }
    forall j | 0 <= j < i ensures !StartsWith(lower, VersionPrefixes[j]) {
      assert lower[0] == p[0] != VersionPrefixes[j][0];
    }
    assert tag[|p|..] == rest;
  }
}

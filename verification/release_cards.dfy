/**
 * The "Latest Releases" section: collects the releases of every repository
 * of the user, tags each with its repository, sorts them newest first in
 * place, and shows the latest stable and the latest pre-release build.
 */
module ReleaseCards {
  import opened Options
  import opened Text
  import opened Seqs
  import opened Github
  import opened Newest

  /** A release spread into a new object together with its repository's name and URL. */
  datatype Tagged = Tagged(release: Release, repoName: string, repoUrl: string)

  /** `t` is one of the releases `releasesOf` gave for `repo`, tagged with `repo`. */
  predicate FromRepo(t: Tagged, repo: Repo, releasesOf: string -> Fetch<seq<Release>>) {
    && t.repoName == repo.name
    && t.repoUrl == repo.htmlUrl
    && releasesOf(repo.name).Ok?
    && t.release in releasesOf(repo.name).value
  }

  /** One repository's contribution: its releases tagged, or none when the request fails. */
  function RepoReleases(repo: Repo, response: Fetch<seq<Release>>): (r: seq<Tagged>)
    ensures !response.Ok? ==> r == []
    ensures response.Ok? ==> |r| == |response.value|
    ensures response.Ok? ==> forall i :: 0 <= i < |r| ==> r[i] == Tagged(response.value[i], repo.name, repo.htmlUrl)
  {
    match response
    case Ok(releases) =>
      seq(|releases|, i requires 0 <= i < |releases| => Tagged(releases[i], repo.name, repo.htmlUrl))
    case _ => []
  }

  /**
   * `(await Promise.all(repos.map(...))).flat()`: the tagged releases of
   * every repository, repository by repository. `releasesOf` is the
   * outcome of the release request for a repository name.
   */
  function Flatten(repos: seq<Repo>, releasesOf: string -> Fetch<seq<Release>>): (all: seq<Tagged>)
    ensures forall i :: 0 <= i < |all| ==> exists k :: 0 <= k < |repos| && FromRepo(all[i], repos[k], releasesOf)
    decreases |repos|
  {
    if repos == [] then []
    else
      var head := RepoReleases(repos[0], releasesOf(repos[0].name));
      var tail := Flatten(repos[1..], releasesOf);
      assert forall i :: 0 <= i < |head| ==> FromRepo(head[i], repos[0], releasesOf);
      assert forall i :: 0 <= i < |tail| ==> exists k :: 0 <= k < |repos| && FromRepo(tail[i], repos[k], releasesOf) by {
        forall i | 0 <= i < |tail|
          ensures exists k :: 0 <= k < |repos| && FromRepo(tail[i], repos[k], releasesOf)
        {
          var k :| 0 <= k < |repos| - 1 && FromRepo(tail[i], repos[1..][k], releasesOf);
          assert FromRepo(tail[i], repos[k + 1], releasesOf);
        }
      }
      head + tail
  }

  /** Conversely, every release of every repository whose request succeeds is collected. */
  lemma {:induction false} FlattenComplete(repos: seq<Repo>, releasesOf: string -> Fetch<seq<Release>>, k: nat, j: nat)
    requires k < |repos| && releasesOf(repos[k].name).Ok? && j < |releasesOf(repos[k].name).value|
    ensures Tagged(releasesOf(repos[k].name).value[j], repos[k].name, repos[k].htmlUrl) in Flatten(repos, releasesOf)
    decreases |repos|
  {
    var head := RepoReleases(repos[0], releasesOf(repos[0].name));
    if k == 0 {
      assert head[j] == Tagged(releasesOf(repos[k].name).value[j], repos[k].name, repos[k].htmlUrl);
    } else {
      FlattenComplete(repos[1..], releasesOf, k - 1, j);
      assert repos[1..][k - 1] == repos[k];
    }
  }

  /** `new Date(published_at)` as the sort key. */
  function TaggedKey(t: Tagged): int {
    DateKey(t.release.publishedAt)
  }

  /** The `latestStable` test: not flagged pre-release or draft, no "nightly" in the tag. */
  predicate IsStable(t: Tagged) {
    !t.release.prerelease && !t.release.draft && !Contains(ToLower(t.release.tagName), "nightly")
  }

  /** The `latestNightly` test: the lower-cased tag contains nightly, dev, beta or alpha. */
  predicate IsNightly(t: Tagged) {
    var tag := ToLower(t.release.tagName);
    Contains(tag, "nightly") || Contains(tag, "dev") || Contains(tag, "beta") || Contains(tag, "alpha")
  }

  /** The nightly test is the shared pre-release keyword test. */
  lemma IsNightlyIsPreReleaseTag(t: Tagged)
    ensures IsNightly(t) <==> PreReleaseTag(t.release.tagName)
  {
    var tag := ToLower(t.release.tagName);
    if PreReleaseTag(t.release.tagName) {
      var i :| 0 <= i < |PreReleaseWords| && Contains(tag, PreReleaseWords[i]);
    } else {
      assert !Contains(tag, PreReleaseWords[0]) && !Contains(tag, PreReleaseWords[1]);
      assert !Contains(tag, PreReleaseWords[2]) && !Contains(tag, PreReleaseWords[3]);
    }
  }

  /**
   * The cards picked from a list: the first stable release, then the first
   * nightly-tagged release unless it is that same object (the same position).
   */
  function Selected(s: seq<Tagged>): (cards: seq<Tagged>)
    ensures |cards| <= 2
    ensures forall i :: 0 <= i < |cards| ==> cards[i] in s
    ensures (exists i :: 0 <= i < |s| && IsStable(s[i])) ==> cards != [] && IsStable(cards[0])
    ensures (forall i :: 0 <= i < |s| ==> !IsStable(s[i])) ==> forall c :: c in cards ==> IsNightly(c)
    ensures cards == [] <==> forall i :: 0 <= i < |s| ==> !IsStable(s[i]) && !IsNightly(s[i])
    ensures FindIndex(s, IsStable).Some? ==> cards[0] == s[FindIndex(s, IsStable).value]
    ensures FindIndex(s, IsNightly).Some? && FindIndex(s, IsNightly) != FindIndex(s, IsStable)
            ==> cards[|cards| - 1] == s[FindIndex(s, IsNightly).value]
    ensures |cards| == 2
            <==> FindIndex(s, IsStable).Some? && FindIndex(s, IsNightly).Some?
                 && FindIndex(s, IsNightly) != FindIndex(s, IsStable)
  {
    var st := FindIndex(s, IsStable);
    var ni := FindIndex(s, IsNightly);
    (if st.Some? then [s[st.value]] else []) + (if ni.Some? && ni != st then [s[ni.value]] else [])
  }

  /**
   * One release fills both slots exactly when the first release that is
   * stable or nightly-tagged is both; it is then not flagged as a
   * pre-release and its tag has dev, beta or alpha but not nightly. When
   * the list has both kinds, a single card shows exactly in that case.
   */
  lemma SharedSlot(s: seq<Tagged>)
    ensures FindIndex(s, IsStable).Some? && FindIndex(s, IsStable) == FindIndex(s, IsNightly)
            <==> exists k :: 0 <= k < |s| && IsStable(s[k]) && IsNightly(s[k])
                             && forall j :: 0 <= j < k ==> !IsStable(s[j]) && !IsNightly(s[j])
    ensures FindIndex(s, IsStable).Some? && FindIndex(s, IsStable) == FindIndex(s, IsNightly)
            ==> var t := s[FindIndex(s, IsStable).value];
                && !t.release.prerelease && !t.release.draft
                && !Contains(ToLower(t.release.tagName), "nightly")
                && PreReleaseTag(t.release.tagName)
    ensures FindIndex(s, IsStable).Some? && FindIndex(s, IsNightly).Some?
            ==> (|Selected(s)| == 1 <==> FindIndex(s, IsStable) == FindIndex(s, IsNightly))
  {
    var st := FindIndex(s, IsStable);
    var ni := FindIndex(s, IsNightly);
    if st.Some? && st == ni {
      IsNightlyIsPreReleaseTag(s[st.value]);
    }
    if k :| 0 <= k < |s| && IsStable(s[k]) && IsNightly(s[k])
                           && forall j :: 0 <= j < k ==> !IsStable(s[j]) && !IsNightly(s[j]) {
      assert st == Some(k) && ni == Some(k);
    }
  }

  /**
   * Over the newest-first sort of all releases, the stable card is at least
   * as new as every stable release, and some card is a nightly-tagged
   * release at least as new as every nightly-tagged one.
   */
  lemma PicksAreNewest(all: seq<Tagged>, y: Tagged)
    requires y in all
    ensures var cards := Selected(SortNewestFirst(all, TaggedKey));
      IsStable(y) ==> cards != [] && IsStable(cards[0]) && TaggedKey(cards[0]) >= TaggedKey(y)
    ensures var cards := Selected(SortNewestFirst(all, TaggedKey));
      IsNightly(y) ==> exists c :: c in cards && IsNightly(c) && TaggedKey(c) >= TaggedKey(y)
  {
    var sorted := SortNewestFirst(all, TaggedKey);
    var cards := Selected(sorted);
    if IsStable(y) {
      FirstMatchIsNewest(all, TaggedKey, IsStable, y);
    }
    if IsNightly(y) {
      FirstMatchIsNewest(all, TaggedKey, IsNightly, y);
      var ni := FindIndex(sorted, IsNightly);
      var c := sorted[ni.value];
      if ni == FindIndex(sorted, IsStable) {
        assert cards[0] == c;
      } else {
        assert cards[|cards| - 1] == c;
      }
    }
  }

  datatype ReleaseType = Nightly | Stable

  /** `getReleaseType`. */
  function ReleaseTypeOf(r: Release): (t: ReleaseType)
    ensures t == Nightly <==> PreReleaseTag(r.tagName)
  {
    var tag := ToLower(r.tagName);
    IsNightlyIsPreReleaseTag(Tagged(r, "", ""));
    if Contains(tag, "nightly") || Contains(tag, "dev") || Contains(tag, "beta") || Contains(tag, "alpha") then Nightly
    else Stable
  }

  /** `getReleaseTypeColor` and `getReleaseTypeLabel`. */
  function Badge(t: ReleaseType): (badge: (string, string))
    ensures t == Nightly ==> badge == ("Nightly", "#ff6b35")
    ensures t == Stable ==> badge == ("Latest", "#4ade80")
  {
    if t == Nightly then ("Nightly", "#ff6b35") else ("Latest", "#4ade80")
  }

  const LoadError: string := "Failed to load releases"

  /** What the section renders. */
  datatype View = Spinner | ErrorBox(message: string) | NoReleases | Grid(cards: seq<Tagged>)

  /** The component's state and its one effect. */
  class ReleaseSection {
    var releases: seq<Tagged>
    var loading: bool
    var error: Option<string>

    constructor ()
      ensures releases == [] && loading && error == None
    {
      releases := [];
      loading := true;
      error := None;
    }

    /** The render branches, in their order: loading, error, empty, grid. */
    function View(): (v: View)
      reads this
      ensures v == Spinner <==> loading
      ensures v.ErrorBox? <==> !loading && error.Some?
      ensures v.ErrorBox? ==> v.message == error.value
      ensures v == NoReleases <==> !loading && error.None? && releases == []
      ensures v.Grid? <==> !loading && error.None? && releases != []
      ensures v.Grid? ==> v.cards == releases
    {
      if loading then Spinner
      else if error.Some? then ErrorBox(error.value)
      else if releases == [] then NoReleases
      else Grid(releases)
    }

    /**
     * `fetchReleases`: a failed repository list sets the error and keeps
     * the releases; otherwise the collected releases are sorted newest first
     * in an array and the picked cards become the releases. Loading ends
     * false either way.
     */
    method FetchReleases(reposResponse: Fetch<seq<Repo>>, releasesOf: string -> Fetch<seq<Release>>)
      modifies this
      ensures !loading
      ensures !reposResponse.Ok? ==> releases == old(releases) && error == Some(LoadError)
      ensures reposResponse.Ok? ==>
        releases == Selected(SortNewestFirst(Flatten(reposResponse.value, releasesOf), TaggedKey))
        && error == old(error)
    {
      loading := true;
      if !reposResponse.Ok? {
        error := Some(LoadError);
        loading := false;
        return;
      }
      var a := CollectReleases(reposResponse.value, releasesOf);
      SortInPlace(a, TaggedKey);
      var filtered := PickCards(a);
      releases := filtered;
      loading := false;
    }
  }

  /** The flattened releases, in a new array for the in-place sort. */
  method CollectReleases(repos: seq<Repo>, releasesOf: string -> Fetch<seq<Release>>) returns (a: array<Tagged>)
    ensures fresh(a)
    ensures a[..] == Flatten(repos, releasesOf)
  {
    var all := Flatten(repos, releasesOf);
    a := new Tagged[|all|](i requires 0 <= i < |all| => all[i]);
    assert a[..] == all;
  }

  /**
   * `latestStable` and `latestNightly` looked up in the sorted array, and
   * the result list built by the two conditional pushes.
   */
  method PickCards(a: array<Tagged>) returns (filtered: seq<Tagged>)
    ensures filtered == Selected(a[..])
  {
    var stable := FindIndex(a[..], IsStable);
    var nightly := FindIndex(a[..], IsNightly);
    filtered := [];
    if stable.Some? {
      filtered := filtered + [a[stable.value]];
    }
    if nightly.Some? && nightly != stable {
      filtered := filtered + [a[nightly.value]];
    }
  }
}

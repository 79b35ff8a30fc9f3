/**
 * The repositories section: one request for the user's repositories, split
 * into own repositories and forks ("contributions"), each own repository
 * augmented with its subscriber count by one request per repository, and a
 * fixed two-repository fallback when the list request fails. The cached
 * list is written on every run but its read is switched off (`false && ...`),
 * so nothing here ever depends on what the store held before.
 */
module RepositoriesSection {
  import opened Options
  import opened Seqs
  import opened Dict
  import opened Github
  import opened Cache

  const CacheKey: string := "github-repos-cache"

  predicate IsOwned(r: Repo) {
    !r.fork
  }

  predicate IsFork(r: Repo) {
    r.fork
  }

  /**
   * Own repositories and forks split the fetched list: every repository is
   * in exactly one part, as often as in the list, and each part keeps the
   * list's order (`Filter` distributes over concatenation, `FilterAppend`).
   */
  lemma OwnedAndForksPartition(repos: seq<Repo>)
    ensures |Filter(repos, IsOwned)| + |Filter(repos, IsFork)| == |repos|
    ensures multiset(Filter(repos, IsOwned)) + multiset(Filter(repos, IsFork)) == multiset(repos)
    ensures forall i :: 0 <= i < |Filter(repos, IsOwned)| ==> !Filter(repos, IsOwned)[i].fork
    ensures forall i :: 0 <= i < |Filter(repos, IsFork)| ==> Filter(repos, IsFork)[i].fork
  {
    FilterPartition(repos, IsOwned, IsFork);
  }

  /**
   * The subscriber count a repository gets: the length of the subscriber
   * array on success, 0 on a 403, another status or an exception. `Ok`
   * carries the array's length.
   */
  function SubscriberCount(response: Fetch<nat>): (n: nat)
    ensures !response.Ok? ==> n == 0
    ensures response.Ok? ==> n == response.value
  {
    match response
    case Ok(length) => length
    case _ => 0
  }

  /**
   * `augmented` is `owned` in the same order with only `subscribers_count`
   * replaced, by the outcome of the subscriber request for each repository.
   */
  predicate AugmentedFrom(augmented: seq<Repo>, owned: seq<Repo>, subscribersOf: string -> Fetch<nat>) {
    && |augmented| == |owned|
    && forall i :: 0 <= i < |owned| ==>
         augmented[i] == owned[i].(subscribers := SubscriberCount(subscribersOf(owned[i].fullName)))
  }

  /**
   * The subscriber loop: one request per own repository, in order, each
   * outcome pushed as a copy of the repository with the new count.
   */
  method AugmentSubscribers(owned: seq<Repo>, subscribersOf: string -> Fetch<nat>) returns (augmented: seq<Repo>)
    ensures AugmentedFrom(augmented, owned, subscribersOf)
  {
    augmented := [];
    var i := 0;
    while i < |owned|
      invariant 0 <= i <= |owned|
      invariant AugmentedFrom(augmented, owned[..i], subscribersOf)
    {
      var repo := owned[i];
      var count := SubscriberCount(subscribersOf(repo.fullName));
      augmented := augmented + [repo.(subscribers := count)];
      i := i + 1;
    }
    assert owned[..i] == owned;
  }

  /** The two placeholder repositories; their `updated_at` is the current time. */
  function FallbackRepos(now: int): (repos: seq<Repo>)
    ensures |repos| == 2
    ensures forall i :: 0 <= i < |repos| ==> !repos[i].fork && repos[i].subscribers == 0 && repos[i].updatedAt == now
    ensures repos[0].name == "uncletyrone.github.io" && repos[0].language == "JavaScript"
    ensures repos[1].name == "uncletyronepics" && repos[1].language == ""
  {
    [ Repo(1, "uncletyrone.github.io", "UncleTyrone/uncletyrone.github.io",
           "Personal portfolio website showcasing projects and skills",
           "https://github.com/UncleTyrone/uncletyrone.github.io", "JavaScript", 0, 0, 0, false, now),
      Repo(2, "uncletyronepics", "UncleTyrone/uncletyronepics",
           "Collection of images and assets",
           "https://github.com/UncleTyrone/uncletyronepics", "", 0, 0, 0, false, now) ]
  }

  /** `formatLanguage`: a missing language reads "Other". */
  function FormatLanguage(language: string): (shown: string)
    ensures shown != ""
    ensures language != "" ==> shown == language
    ensures language == "" ==> shown == "Other"
  {
    if language == "" then "Other" else language
  }

  /**
   * `getRepositoryLanguages`: the image repository is tagged "Misc";
   * otherwise the primary language if there is one, else no tag.
   */
  function RepositoryLanguages(repo: Repo): (tags: seq<string>)
    ensures |tags| <= 1
    ensures repo.name == "uncletyronepics" ==> tags == ["Misc"]
    ensures repo.name != "uncletyronepics" ==> (tags == [] <==> repo.language == "")
    ensures repo.name != "uncletyronepics" && tags != [] ==> tags[0] == repo.language
  {
    if repo.name == "uncletyronepics" then ["Misc"]
    else if repo.language != "" then [repo.language]
    else []
  }

  /** The placeholder repositories are tagged JavaScript and Misc. */
  lemma FallbackTags(now: int)
    ensures RepositoryLanguages(FallbackRepos(now)[0]) == ["JavaScript"]
    ensures RepositoryLanguages(FallbackRepos(now)[1]) == ["Misc"]
  {
  }

  const OtherColor: string := "#6c757d"

  /** The colour table of `getLanguageColor`. */
  const LanguageColors: seq<(string, string)> := [
    ("JavaScript", "#f1e05a"), ("TypeScript", "#3178c6"), ("Python", "#3776ab"),
    ("Java", "#d4af37"), ("C++", "#f34b7d"), ("C#", "#4CAF50"), ("Go", "#00add8"),
    ("Rust", "#dea584"), ("PHP", "#4f5d95"), ("Ruby", "#701516"), ("Swift", "#fa7343"),
    ("Kotlin", "#a97bff"), ("HTML", "#e34c26"), ("CSS", "#1572b6"), ("Shell", "#89e051"),
    ("Misc", "#9ca3af"), ("Other", OtherColor)
  ]

  /** `getLanguageColor`: the table's colour, else the colour of "Other". */
  function LanguageColor(language: string): (color: string)
    ensures language in Keys(LanguageColors)
            ==> exists i :: 0 <= i < |LanguageColors| && LanguageColors[i] == (language, color)
    ensures language !in Keys(LanguageColors) ==> color == OtherColor
  {
    match Get(LanguageColors, language)
    case Some(color) => color
    case None => OtherColor
  }

  /** An unknown or missing language is drawn like "Other". */
  lemma UnknownIsOther(language: string)
    requires language !in Keys(LanguageColors)
    ensures LanguageColor(language) == LanguageColor(FormatLanguage(""))
  {
    assert Keys(LanguageColors)[16] == "Other";
    GetFirst(LanguageColors, 16);
  }

  /** The section's state. */
  class Section {
    var repositories: seq<Repo>
    var contributions: seq<Repo>
    var loading: bool
    var error: Option<string>

    constructor ()
      ensures repositories == [] && contributions == [] && loading && error == None
    {
      repositories := [];
      contributions := [];
      loading := true;
      error := None;
    }

    /**
     * `fetchRepositories`. On a successful list: the raw list, forks
     * included and without subscriber counts, is cached with time `now`;
     * the repositories are the augmented own repositories and the
     * contributions the forks. On a 403, another status or an exception:
     * the two placeholders with no contributions, and those are cached. The
     * error stays null and loading ends false either way.
     */
    method FetchRepositories(store: Store<seq<Repo>>, now: int, response: Fetch<seq<Repo>>,
                             subscribersOf: string -> Fetch<nat>)
      modifies this, store
      ensures !loading && error == None
      ensures response.Ok? ==>
        && AugmentedFrom(repositories, Filter(response.value, IsOwned), subscribersOf)
        && contributions == Filter(response.value, IsFork)
        && store.payloads == old(store.payloads)[CacheKey := Parsed(response.value)]
        && store.stamps == old(store.stamps)[CacheKey := now]
      ensures !response.Ok? ==>
        && repositories == FallbackRepos(now)
        && contributions == []
        && store.payloads == old(store.payloads)[CacheKey := Parsed(FallbackRepos(now))]
        && store.stamps == old(store.stamps)[CacheKey := now]
    {
      loading := true;
      error := None;
      if response.Ok? {
        var raw := response.value;
        store.Put(CacheKey, raw, now);
        var owned := Filter(raw, IsOwned);
        var augmented := AugmentSubscribers(owned, subscribersOf);
        repositories := augmented;
        contributions := Filter(raw, IsFork);
      } else {
        var fallback := FallbackRepos(now);
        repositories := fallback;
        contributions := [];
        store.Put(CacheKey, fallback, now);
      }
      loading := false;
    }
  }
}

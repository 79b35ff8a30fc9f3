/**
 * The language distribution pie of the repositories section: one pass over
 * the repositories tallies how many use each primary language ("Other" for
 * none), and the tally's keys and values become the chart's labels and data.
 */
module LanguageChart {
  import opened Options
  import opened Dict
  import opened Github

  /** The key a repository is counted under. */
  function LanguageKey(r: Repo): (key: string)
    ensures r.language != "" ==> key == r.language
    ensures r.language == "" ==> key == "Other"
  {
    if r.language != "" then r.language else "Other"
  }

  /** How many repositories are counted under `key`. */
  function Count(repos: seq<Repo>, key: string): nat
    decreases |repos|
  {
    if repos == [] then 0
    else Count(repos[..|repos| - 1], key) + (if LanguageKey(repos[|repos| - 1]) == key then 1 else 0)
  }

  lemma {:induction false} CountPositive(repos: seq<Repo>, key: string)
    ensures Count(repos, key) > 0 <==> exists i :: 0 <= i < |repos| && LanguageKey(repos[i]) == key
    decreases |repos|
  {
    if repos != [] {
      var init := repos[..|repos| - 1];
      CountPositive(init, key);
      if exists i :: 0 <= i < |init| && LanguageKey(init[i]) == key {
        var i :| 0 <= i < |init| && LanguageKey(init[i]) == key;
        assert repos[i] == init[i];
      }
      if exists i :: 0 <= i < |repos| && LanguageKey(repos[i]) == key {
        var i :| 0 <= i < |repos| && LanguageKey(repos[i]) == key;
        if i < |init| {
          assert init[i] == repos[i];
        }
      }
    }
  }

  /** The dictionary after the first `|repos|` steps of the `forEach`. */
  function Tally(repos: seq<Repo>): seq<(string, nat)>
    decreases |repos|
  {
    if repos == [] then []
    else
      var counts := Tally(repos[..|repos| - 1]);
      var key := LanguageKey(repos[|repos| - 1]);
      Set<nat>(counts, key, GetOrZero(counts, key) + 1)
  }

  /**
   * Each repository is counted exactly once, under its own key: the counts
   * add up to the number of repositories, every key's count is the number of
   * repositories with that key, and the keys are exactly the keys in use.
   */
  lemma {:induction false} TallyCounts(repos: seq<Repo>)
    ensures DistinctKeys(Tally(repos))
    ensures Total(Tally(repos)) == |repos|
    ensures forall key :: GetOrZero(Tally(repos), key) == Count(repos, key)
    ensures forall key :: key in Keys(Tally(repos)) <==> Count(repos, key) > 0
    decreases |repos|
  {
    if repos != [] {
      var init := repos[..|repos| - 1];
      var counts := Tally(init);
      var key := LanguageKey(repos[|repos| - 1]);
      TallyCounts(init);
      SetDistinct<nat>(counts, key, GetOrZero(counts, key) + 1);
      TotalSet(counts, key, GetOrZero(counts, key) + 1);
      forall k
        ensures GetOrZero(Tally(repos), k) == Count(repos, k)
        ensures k in Keys(Tally(repos)) <==> Count(repos, k) > 0
      {
        TallyStep(repos, k);
      }
    }
  }

  /** One step of the tally, for one key. */
  lemma TallyStep(repos: seq<Repo>, k: string)
    requires repos != []
    requires GetOrZero(Tally(repos[..|repos| - 1]), k) == Count(repos[..|repos| - 1], k)
    requires k in Keys(Tally(repos[..|repos| - 1])) <==> Count(repos[..|repos| - 1], k) > 0
    ensures GetOrZero(Tally(repos), k) == Count(repos, k)
    ensures k in Keys(Tally(repos)) <==> Count(repos, k) > 0
  {
    var init := repos[..|repos| - 1];
    var counts := Tally(init);
    var key := LanguageKey(repos[|repos| - 1]);
    var v := GetOrZero(counts, key) + 1;
    var after := Set<nat>(counts, key, v);
    assert Tally(repos) == after;
    assert Count(repos, k) == Count(init, k) + (if key == k then 1 else 0);
    SetGet<nat>(counts, key, v, k);
    if k == key {
      assert Get(after, k) == Some(v);
      assert k in Keys(after);
    } else {
      assert Get(after, k) == Get(counts, k);
      assert k in Keys(after) <==> k in Keys(counts);
    }
  }

  /**
   * The `forEach` over the repositories: `counts[key] = (counts[key] || 0) + 1`
   * for each repository's key, on a dictionary that starts empty.
   */
  method CountLanguages(repos: seq<Repo>) returns (counts: seq<(string, nat)>)
    ensures counts == Tally(repos)
    ensures DistinctKeys(counts) && Total(counts) == |repos|
    ensures forall key :: GetOrZero(counts, key) == Count(repos, key)
  {
    counts := [];
    var i := 0;
    while i < |repos|
      invariant 0 <= i <= |repos|
      invariant counts == Tally(repos[..i])
    {
      var key := if repos[i].language != "" then repos[i].language else "Other";
      counts := Set<nat>(counts, key, GetOrZero(counts, key) + 1);
      assert repos[..i + 1][..i] == repos[..i];
      i := i + 1;
    }
    assert repos[..i] == repos;
    TallyCounts(repos);
  }

  /**
   * `labels = Object.keys(counts)` and `data = Object.values(counts)`: as
   * many labels as values, no label twice, each value the count of its label.
   */
  lemma ChartDataMatches(repos: seq<Repo>)
    ensures |Keys(Tally(repos))| == |Values(Tally(repos))|
    ensures forall i, j :: 0 <= i < j < |Keys(Tally(repos))| ==> Keys(Tally(repos))[i] != Keys(Tally(repos))[j]
    ensures forall i :: 0 <= i < |Values(Tally(repos))|
                        ==> Values(Tally(repos))[i] == Count(repos, Keys(Tally(repos))[i]) > 0
  {
    var counts := Tally(repos);
    TallyCounts(repos);
    forall i | 0 <= i < |counts|
      ensures Values(counts)[i] == Count(repos, Keys(counts)[i]) > 0
    {
      GetEntry(counts, i);
    }
  }

  /** "Languages Used" is the number of distinct keys among the repositories. */
  lemma LanguagesUsed(repos: seq<Repo>)
    ensures |Keys(Tally(repos))| == |set i | 0 <= i < |repos| :: LanguageKey(repos[i])|
  {
    var labels := Keys(Tally(repos));
    var used := set i | 0 <= i < |repos| :: LanguageKey(repos[i]);
    var listed := set k | k in labels;
    ChartDataMatches(repos);
    TallyCounts(repos);
    DistinctCard(labels);
    forall k | k in listed ensures k in used {
      CountPositive(repos, k);
      var i :| 0 <= i < |repos| && LanguageKey(repos[i]) == k;
    }
    forall k | k in used ensures k in listed {
      var i :| 0 <= i < |repos| && LanguageKey(repos[i]) == k;
      CountPositive(repos, k);
    }
    assert listed == used;
  }

  /**
   * The effect, from the initial state: no repository list, or an empty one,
   * leaves the chart data null ("No language data available"); otherwise the
   * tally, which then has at least one label.
   */
  method ChartData(repositories: Option<seq<Repo>>) returns (data: Option<seq<(string, nat)>>)
    ensures data.None? <==> repositories.None? || repositories.value == []
    ensures data.Some? ==> data.value == Tally(repositories.value) && Keys(data.value) != []
  {
    if repositories.None? || repositories.value == [] {
      return None;
    }
    var counts := CountLanguages(repositories.value);
    return Some(counts);
  }

  const UnlistedColor: string := "#6c757d"

  /** The colour table of the chart's `getLanguageColor`. */
  const ChartColors: seq<(string, string)> := [
    ("JavaScript", "#f1e05a"), ("TypeScript", "#3178c6"), ("Python", "#3776ab"),
    ("Java", "#d4af37"), ("C++", "#f34b7d"), ("C#", "#4CAF50"), ("Go", "#00add8"),
    ("Rust", "#dea584"), ("PHP", "#4f5d95"), ("Ruby", "#701516"), ("Swift", "#fa7343"),
    ("Kotlin", "#a97bff"), ("HTML", "#e34c26"), ("CSS", "#1572b6"), ("Shell", "#89e051"),
    ("Other", "#9ca3af")
  ]

  /** A slice's colour: the table's, else the unlisted grey. */
  function ChartColor(language: string): (color: string)
    ensures language in Keys(ChartColors)
            ==> exists i :: 0 <= i < |ChartColors| && ChartColors[i] == (language, color)
    ensures language !in Keys(ChartColors) ==> color == UnlistedColor
  {
    match Get(ChartColors, language)
    case Some(color) => color
    case None => UnlistedColor
  }

  /** Repositories without a language are drawn in the "Other" grey, not the unlisted one. */
  lemma NoLanguageColor(r: Repo)
    requires r.language == ""
    ensures ChartColor(LanguageKey(r)) == "#9ca3af" != UnlistedColor
  {
    assert Keys(ChartColors)[15] == "Other";
    GetFirst(ChartColors, 15);
  }

  /** The tooltip's noun as written: "repository" with "ies" appended unless the count is 1. */
  function TooltipNounAsWritten(value: nat): (noun: string)
    ensures |noun| >= 10 && noun[..10] == "repository"
    ensures noun == "repository" <==> value == 1
  {
    "repository" + (if value != 1 then "ies" else "")
  }

  /**
   * The noun the tooltip evidently means: "repository" for one, else the
   * plural, which replaces the final "y" by "ies".
   */
  function TooltipNoun(value: nat): (noun: string)
    ensures noun == "repository" <==> value == 1
    ensures |noun| >= 10 && noun[..9] == "repository"[..9]
    ensures value != 1 ==> noun[9..] == "ies"
  {
    if value == 1 then "repository" else "repositories"
  }

  /** As written, every count other than 1 gets the misspelt "repositoryies". */
  lemma TooltipNounMisspelt(value: nat)
    requires value != 1
    ensures TooltipNounAsWritten(value) == "repositoryies" != TooltipNoun(value)
  {
  }
}

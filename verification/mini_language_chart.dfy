/**
 * The small language donut of a repository card. It never calls the
 * languages endpoint: it serves a fresh cached mix or makes up a mix from
 * keywords in the repository's name and description, caches it, and derives
 * the chart weights, the tooltip percentages and the one-line label.
 */
module MiniLanguageChart {
  import opened Options
  import opened Text
  import opened Dict
  import opened Github
  import opened Cache
  import opened Fallback

  /** The `{ languages, languageData }` pair shown and cached. */
  datatype LanguageMix = LanguageMix(languages: seq<string>, bytes: seq<(string, nat)>)

  /** `languages` lists exactly the keys of the byte table, in its order. */
  predicate WellFormed(mix: LanguageMix) {
    mix.languages == Keys(mix.bytes) && DistinctKeys(mix.bytes)
  }

  /** The fixed mix of each flavour; the generic one is the primary language alone. */
  function FallbackMix(f: Flavour, primary: string): (mix: LanguageMix)
    ensures WellFormed(mix)
    ensures Total(mix.bytes) == 100
    ensures f == Generic ==> mix.languages == [primary]
    ensures f != Generic ==> "JavaScript" in mix.languages
  {
    match f
    case Web => LanguageMix(["JavaScript", "CSS", "HTML"], [("JavaScript", 60), ("CSS", 25), ("HTML", 15)])
    case Mod => LanguageMix(["JavaScript", "Python"], [("JavaScript", 70), ("Python", 30)])
    case Api => LanguageMix(["JavaScript", "TypeScript"], [("JavaScript", 60), ("TypeScript", 40)])
    case Bot => LanguageMix(["JavaScript", "JSON"], [("JavaScript", 85), ("JSON", 15)])
    case Generic => LanguageMix([primary], [(primary, 100)])
  }

  /**
   * `generateFallbackLanguage`: the mix of the repository's flavour, chosen
   * with the same priority as the placeholder file set; the generic mix is
   * the repository's language, or JavaScript when it has none, at 100.
   */
  function FallbackLanguage(repo: Repo): (mix: LanguageMix)
    ensures WellFormed(mix) && Total(mix.bytes) == 100
    ensures WebLike(repo.name) ==> mix == FallbackMix(Web, "")
    ensures !WebLike(repo.name) && ModLike(repo.name, repo.description) ==> mix == FallbackMix(Mod, "")
    ensures !WebLike(repo.name) && !ModLike(repo.name, repo.description)
            && ApiLike(repo.name, repo.description)
            ==> mix == FallbackMix(Api, "")
    ensures !WebLike(repo.name) && !ModLike(repo.name, repo.description)
            && !ApiLike(repo.name, repo.description) && BotLike(repo.name, repo.description)
            ==> mix == FallbackMix(Bot, "")
    ensures Classify(repo.name, repo.description) == Generic
            ==> (mix.languages == [if repo.language != "" then repo.language else "JavaScript"]
                 && mix.bytes == [(mix.languages[0], 100)])
  {
    FallbackMix(Classify(repo.name, repo.description),
                if repo.language != "" then repo.language else "JavaScript")
  }

  /**
   * `Math.round(bytes / total * 100)` for a positive total, in exact
   * arithmetic: the integer nearest to the share, halves rounded up.
   */
  function Percent(bytes: nat, total: nat): (p: nat)
    requires total > 0
    ensures 2 * p * total <= 200 * bytes + total < 2 * p * total + 2 * total
  {
    (200 * bytes + total) / (2 * total)
  }

  /** A share of a hundred is its own percentage. */
  lemma PercentOfHundred(bytes: nat)
    ensures Percent(bytes, 100) == bytes
  {
  }

  /**
   * The pie weights: the rounded percentage of every language when the
   * table is not empty (`None` for the NaN a zero total gives), else 1 per
   * language.
   */
  function ChartWeights(mix: LanguageMix): (weights: seq<Option<nat>>)
    ensures |weights| == |mix.languages|
    ensures mix.bytes == [] ==> forall i :: 0 <= i < |weights| ==> weights[i] == Some(1)
    ensures mix.bytes != [] && Total(mix.bytes) > 0 ==>
      forall i :: 0 <= i < |weights| ==> weights[i] == Some(Percent(GetOrZero(mix.bytes, mix.languages[i]), Total(mix.bytes)))
    ensures mix.bytes != [] && Total(mix.bytes) == 0 ==> forall i :: 0 <= i < |weights| ==> weights[i] == None
  {
    var total := Total(mix.bytes);
    seq(|mix.languages|, i requires 0 <= i < |mix.languages| =>
      if mix.bytes == [] then Some(1)
      else if total == 0 then None
      else Some(Percent(GetOrZero(mix.bytes, mix.languages[i]), total)))
  }

  /** For a made-up mix every weight is exactly the language's share of 100. */
  lemma {:induction false} FallbackWeights(repo: Repo, i: nat)
    requires i < |FallbackLanguage(repo).languages|
    ensures var mix := FallbackLanguage(repo);
      ChartWeights(mix)[i] == Some(mix.bytes[i].1)
  {
    var mix := FallbackLanguage(repo);
    GetEntry(mix.bytes, i);
    PercentOfHundred(mix.bytes[i].1);
  }

  /** The tooltip percentage: 0 when the total is 0. */
  function TooltipPercent(bytes: seq<(string, nat)>, lang: string): (p: nat)
    ensures Total(bytes) == 0 ==> p == 0
    ensures Total(bytes) > 0 ==> p == Percent(GetOrZero(bytes, lang), Total(bytes))
  {
    var total := Total(bytes);
    if total > 0 then Percent(GetOrZero(bytes, lang), total) else 0
  }

  /** A single language name is cut to six characters plus "...". */
  const NameCap: nat := 6

  /**
   * The label under the chart: "<n> langs" for several languages, "Other"
   * when the first language is missing or empty, else the (cut) name and its
   * percentage, which is 100 when the total is 0.
   */
  function Label(mix: LanguageMix): (text: string)
    ensures |mix.languages| > 1 ==> text == NatToString(|mix.languages|) + " langs"
    ensures |mix.languages| <= 1 && (mix.languages == [] || mix.languages[0] == "") ==> text == "Other"
    ensures |mix.languages| == 1 && mix.languages[0] != "" ==>
      var name := mix.languages[0];
      var shown := Truncate(name, NameCap);
      && |text| >= |shown| + 3
      && text[..|shown|] == shown
      && text[|shown|] == ' '
      && (forall i :: |shown| < i < |text| - 1 ==> IsDigit(text[i]))
      && (text[|shown| + 1] == '0' ==> |text| == |shown| + 3)
      && DigitsValue(text[|shown| + 1..|text| - 1])
         == (if Total(mix.bytes) > 0 then Percent(GetOrZero(mix.bytes, name), Total(mix.bytes)) else 100)
      && text[|text| - 1] == '%'
  {
    if |mix.languages| > 1 then NatToString(|mix.languages|) + " langs"
    else if mix.languages == [] || mix.languages[0] == "" then "Other"
    else
      var name := mix.languages[0];
      var total := Total(mix.bytes);
      var percent := if total > 0 then Percent(GetOrZero(mix.bytes, name), total) else 100;
      var shown := Truncate(name, NameCap);
      var digits := NatToString(percent);
      var text := shown + " " + digits + "%";
      NatToStringRoundTrip(percent);
      assert text[|shown| + 1..|text| - 1] == digits;
      text
  }

  /** Without a repository the chart shows "Other" alone, labelled at 100%. */
  lemma MissingRepositoryLabel()
    ensures Label(Missing) == "Other 100%"
  {
    assert Truncate("Other", NameCap) == "Other";
    assert NatToString(100) == "100";
  }

  /** The state set when there is no repository or no `full_name`. */
  const Missing: LanguageMix := LanguageMix(["Other"], [])

  function CacheKey(fullName: string): string {
    "languages-" + fullName
  }

  /**
   * `fetchRepositoryLanguages`: without a repository or `full_name` the
   * mix is "Other" with an empty table and the cache is not touched; a
   * fresh entry that parses is shown as is; otherwise the made-up mix is
   * shown and cached with time `now`.
   */
  method FetchLanguages(store: Store<LanguageMix>, repo: Option<Repo>, now: int) returns (mix: LanguageMix)
    modifies store
    ensures repo.None? || repo.value.fullName == "" ==> mix == Missing && unchanged(store)
    ensures repo.Some? && repo.value.fullName != "" ==>
      var key := CacheKey(repo.value.fullName);
      match Lookup(old(store.payloads), old(store.stamps), key, now, HourMs)
      case Some(Parsed(cached)) => mix == cached && unchanged(store)
      case _ =>
        && mix == FallbackLanguage(repo.value)
        && store.payloads == old(store.payloads)[key := Parsed(mix)]
        && store.stamps == old(store.stamps)[key := now]
  {
    if repo.None? || repo.value.fullName == "" {
      return Missing;
    }
    var key := CacheKey(repo.value.fullName);
    var cached := Lookup(store.payloads, store.stamps, key, now, HourMs);
    if cached.Some? && cached.value.Parsed? {
      return cached.value.value;
    }
    mix := FallbackLanguage(repo.value);
    store.Put(key, mix, now);
  }
}

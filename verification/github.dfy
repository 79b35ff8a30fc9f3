/**
 * The shapes the components read from the source-hosting REST API, and the
 * outcome of one request. Nullable strings are plain strings with "" for
 * `null`: every place that reads them tests them for truthiness, where
 * `null` and "" behave alike.
 */
module Github {
  import opened Options
  import opened Text

  /**
   * One request: `Ok` carries the decoded body of a 2xx response;
   * `RateLimited` is a 403; `Failed` is any other status, a transport
   * exception or a body that does not decode.
   */
  datatype Fetch<T> = Ok(value: T) | RateLimited | Failed

  /**
   * A date field: `Missing` is `null`, `Invalid` a string that `new Date`
   * cannot read, `At` a readable timestamp in epoch milliseconds.
   */
  datatype Date = Missing | Invalid | At(ms: int)

  datatype Asset = Asset(downloadUrl: string, downloadCount: nat)

  datatype Release = Release(
    id: int,
    tagName: string,
    name: string,
    publishedAt: Date,
    body: string,
    htmlUrl: string,
    assets: seq<Asset>,
    prerelease: bool,
    draft: bool)

  datatype Repo = Repo(
    id: int,
    name: string,
    fullName: string,
    description: string,
    htmlUrl: string,
    language: string,
    stars: nat,
    forksCount: nat,
    subscribers: nat,
    fork: bool,
    updatedAt: int)

  /** The four tag keywords that mark a pre-release build. */
  const PreReleaseWords: seq<string> := ["alpha", "beta", "dev", "nightly"]

  /** The lower-cased tag contains one of alpha, beta, dev or nightly. */
  predicate PreReleaseTag(tag: string) {
    ContainsAny(ToLower(tag), PreReleaseWords)
  }

  /** The sort key of `new Date(published_at)`: `null` reads as the epoch. */
  function DateKey(d: Date): int {
    match d
    case At(ms) => ms
    case _ => 0
  }

  /** `assets.reduce((total, asset) => total + asset.download_count, 0)`. */
  function TotalDownloads(assets: seq<Asset>): (total: nat)
    ensures total == 0 <==> forall i :: 0 <= i < |assets| ==> assets[i].downloadCount == 0
    decreases |assets|
  {
    if assets == [] then 0
    else TotalDownloads(assets[..|assets| - 1]) + assets[|assets| - 1].downloadCount
  }

  /** The download total adds up over any split of the asset list. */
  lemma {:induction false} TotalDownloadsAppend(a: seq<Asset>, b: seq<Asset>)
    ensures TotalDownloads(a + b) == TotalDownloads(a) + TotalDownloads(b)
    decreases |b|
  {
    if b == [] {
      assert a + b == a;
    } else {
      assert (a + b)[..|a + b| - 1] == a + b[..|b| - 1];
      assert (a + b)[|a + b| - 1] == b[|b| - 1];
      TotalDownloadsAppend(a, b[..|b| - 1]);
    }
  }

  /** Every asset's count is part of the total. */
  lemma {:induction false} TotalDownloadsBound(assets: seq<Asset>, i: nat)
    requires i < |assets|
    ensures assets[i].downloadCount <= TotalDownloads(assets)
    decreases |assets|
  {
    if i < |assets| - 1 {
      TotalDownloadsBound(assets[..|assets| - 1], i);
    }
  }

  /** The body preview cap of both release widgets. */
  const BodyCap: nat := 150

  /**
   * The description shown under a release: nothing for an empty body, the
   * body itself up to `BodyCap` characters, else its first `BodyCap`
   * characters followed by "...".
   */
  function BodyPreview(body: string): (text: Option<string>)
    ensures text.None? <==> body == ""
    ensures text.Some? && |body| <= BodyCap ==> text.value == body
    ensures text.Some? && |body| > BodyCap ==> |text.value| == BodyCap + 3
                                               && text.value[..BodyCap] == body[..BodyCap]
                                               && text.value[BodyCap..] == "..."
  {
    if body == "" then None else Some(Truncate(body, BodyCap))
  }
}

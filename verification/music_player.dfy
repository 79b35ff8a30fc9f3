/**
 * The music player: a fixed playlist of five tracks, the player state the
 * buttons and media events change, the volume kept in storage, the clock
 * text under the progress bar and the downsampling of analyser bins into the
 * eighty bars of the waveform.
 */
module MusicPlayer {
  import opened Options
  import opened Text

  datatype Track = Track(title: string, artist: string, src: string, image: string)

  const Tracks: seq<Track> := [
    Track("Enemy Under Arms", "Trippie Redd",
          "/uncletyrone-portfolio/music/track1.mp3", "/uncletyrone-portfolio/music/track1.png"),
    Track("Until I Die (Unreleased)", "Juice WRLD",
          "/uncletyrone-portfolio/music/track2.mp3", "/uncletyrone-portfolio/music/track2.png"),
    Track("Reanimator", "Joji Ft. Yves Tumor",
          "/uncletyrone-portfolio/music/track3.mp3", "/uncletyrone-portfolio/music/track3.png"),
    Track("Pneuma", "Tool",
          "/uncletyrone-portfolio/music/track4.mp3", "/uncletyrone-portfolio/music/track4.png"),
    Track("The Color Violet", "Tory Lanez",
          "/uncletyrone-portfolio/music/track5.mp3", "/uncletyrone-portfolio/music/track5.png")
  ]

  /** `(i + 1) % tracks.length`: the next track, wrapping from the last to the first. */
  function NextIndex(i: nat): (j: nat)
    requires i < |Tracks|
    ensures j < |Tracks|
    ensures i < |Tracks| - 1 ==> j == i + 1
    ensures i == |Tracks| - 1 ==> j == 0
  {
    (i + 1) % |Tracks|
  }

  /** `i === 0 ? tracks.length - 1 : i - 1`: the previous track, wrapping from the first to the last. */
  function PrevIndex(i: nat): (j: nat)
    requires i < |Tracks|
    ensures j < |Tracks|
    ensures i > 0 ==> j == i - 1
    ensures i == 0 ==> j == |Tracks| - 1
  {
    if i == 0 then |Tracks| - 1 else i - 1
  }

  /** Previous undoes next and next undoes previous. */
  lemma PrevNextInverse(i: nat)
    requires i < |Tracks|
    ensures PrevIndex(NextIndex(i)) == i
    ensures NextIndex(PrevIndex(i)) == i
  {
  }

  /** Pressing next once per track comes back to the same track. */
  lemma {:induction false} NextCycles(i: nat, k: nat)
    requires i < |Tracks|
    ensures NextPow(i, k) == (i + k) % |Tracks|
    decreases k
  {
    if k > 0 {
      NextCycles(i, k - 1);
    }
  }

  /** `k` presses of next. */
  function NextPow(i: nat, k: nat): (j: nat)
    requires i < |Tracks|
    ensures j < |Tracks|
    decreases k
  {
    if k == 0 then i else NextIndex(NextPow(i, k - 1))
  }

  datatype VolumeIcon = MutedIcon | LowIcon | HighIcon

  /** The player's state, and the audio element's own volume. */
  class Player {
    var currentTrack: nat
    var isPlaying: bool
    var hasError: bool
    var volume: real
    var isMuted: bool
    /** The `musicPlayerVolume` storage entry, already read with `parseFloat`. */
    var storedVolume: Option<real>
    /** Whether the `<audio>` element is mounted (`audioRef.current`). */
    const hasAudio: bool
    /** `audio.volume`. */
    var audioVolume: real

    /** What the listener hears: nothing while muted, else the volume. */
    function Output(): real
      reads this
    {
      if isMuted then 0.0 else volume
    }

    /**
     * The index names a track, and once the volume effect has run the
     * element plays at the effective output.
     */
    predicate Valid()
      reads this
    {
      currentTrack < |Tracks| && (hasAudio ==> audioVolume == Output())
    }

    /**
     * Mounting: the first track, paused, no error, not muted, the stored
     * volume or 1 when there is none (or storage is unavailable); the volume
     * effect then sets the element's volume.
     */
    constructor (saved: Option<real>, hasAudio: bool)
      ensures Valid()
      ensures currentTrack == 0 && !isPlaying && !hasError && !isMuted
      ensures volume == (if saved.Some? then saved.value else 1.0)
      ensures storedVolume == saved && this.hasAudio == hasAudio
    {
      currentTrack := 0;
      isPlaying := false;
      hasError := false;
      volume := if saved.Some? then saved.value else 1.0;
      isMuted := false;
      storedVolume := saved;
      this.hasAudio := hasAudio;
      audioVolume := if saved.Some? then saved.value else 1.0;
    }

    /** `nextTrack`: the next track, error cleared, playing. */
    method Next()
      requires Valid()
      modifies this
      ensures Valid()
      ensures currentTrack == NextIndex(old(currentTrack)) && !hasError && isPlaying
      ensures volume == old(volume) && isMuted == old(isMuted) && storedVolume == old(storedVolume)
      ensures audioVolume == old(audioVolume)
    {
      currentTrack := (currentTrack + 1) % |Tracks|;
      hasError := false;
      isPlaying := true;
    }

    /** `prevTrack`: the previous track, error cleared, playing. */
    method Prev()
      requires Valid()
      modifies this
      ensures Valid()
      ensures currentTrack == PrevIndex(old(currentTrack)) && !hasError && isPlaying
      ensures volume == old(volume) && isMuted == old(isMuted) && storedVolume == old(storedVolume)
      ensures audioVolume == old(audioVolume)
    {
      currentTrack := if currentTrack == 0 then |Tracks| - 1 else currentTrack - 1;
      hasError := false;
      isPlaying := true;
    }

    /** The `ended` event: advances like next, wrapping after the last track, and keeps playing. */
    method Ended()
      requires Valid()
      modifies this
      ensures Valid()
      ensures currentTrack == NextIndex(old(currentTrack)) && !hasError && isPlaying
      ensures volume == old(volume) && isMuted == old(isMuted) && storedVolume == old(storedVolume)
      ensures audioVolume == old(audioVolume)
    {
      var next := (currentTrack + 1) % |Tracks|;
      currentTrack := next;
      hasError := false;
      isPlaying := true;
    }

    /** The `error` event: playback stops and the error badge shows. */
    method MediaError()
      requires Valid()
      modifies this
      ensures Valid()
      ensures !isPlaying && hasError
      ensures currentTrack == old(currentTrack) && volume == old(volume) && isMuted == old(isMuted)
      ensures storedVolume == old(storedVolume) && audioVolume == old(audioVolume)
    {
      isPlaying := false;
      hasError := true;
    }

    /** The `canplay` event: the error badge goes. */
    method CanPlay()
      requires Valid()
      modifies this
      ensures Valid()
      ensures !hasError
      ensures currentTrack == old(currentTrack) && isPlaying == old(isPlaying) && volume == old(volume)
      ensures isMuted == old(isMuted) && storedVolume == old(storedVolume) && audioVolume == old(audioVolume)
    {
      hasError := false;
    }

    /** A rejected `play()` after loading a track: playback is marked stopped. */
    method AutoplayRejected()
      requires Valid()
      modifies this
      ensures Valid()
      ensures !isPlaying
      ensures currentTrack == old(currentTrack) && hasError == old(hasError) && volume == old(volume)
      ensures isMuted == old(isMuted) && storedVolume == old(storedVolume) && audioVolume == old(audioVolume)
    {
      isPlaying := false;
    }

    /** `togglePlayPause`: flips playing when the element exists; nothing else changes. */
    method TogglePlayPause()
      requires Valid()
      modifies this
      ensures Valid()
      ensures isPlaying == (if hasAudio then !old(isPlaying) else old(isPlaying))
      ensures currentTrack == old(currentTrack) && hasError == old(hasError) && volume == old(volume)
      ensures isMuted == old(isMuted) && storedVolume == old(storedVolume) && audioVolume == old(audioVolume)
    {
      if hasAudio {
        isPlaying := !isPlaying;
      }
    }

    /**
     * `handleVolumeChange`: the new volume is kept and stored and written to
     * the element; a positive volume while muted unmutes. The element then
     * already plays at the effective output, so the volume effect that
     * follows changes nothing.
     */
    method ChangeVolume(newVolume: real)
      requires Valid()
      requires 0.0 <= newVolume <= 1.0
      modifies this
      ensures Valid()
      ensures volume == newVolume && storedVolume == Some(newVolume)
      ensures isMuted == (old(isMuted) && newVolume == 0.0)
      ensures Output() == newVolume
      ensures currentTrack == old(currentTrack) && isPlaying == old(isPlaying) && hasError == old(hasError)
    {
      volume := newVolume;
      storedVolume := Some(newVolume);
      if hasAudio {
        audioVolume := newVolume;
      }
      if newVolume > 0.0 && isMuted {
        isMuted := false;
      }
    }

    /**
     * `toggleMute`: with the element present, flips muting and sets the
     * element to silence or back to the volume; the volume itself never
     * changes. Without the element nothing changes.
     */
    method ToggleMute()
      requires Valid()
      modifies this
      ensures Valid()
      ensures isMuted == (if hasAudio then !old(isMuted) else old(isMuted))
      ensures volume == old(volume) && storedVolume == old(storedVolume)
      ensures currentTrack == old(currentTrack) && isPlaying == old(isPlaying) && hasError == old(hasError)
    {
      if hasAudio {
        if isMuted {
          audioVolume := volume;
          isMuted := false;
        } else {
          audioVolume := 0.0;
          isMuted := true;
        }
      }
    }

    /** The speaker icon: crossed out when muted or at zero, low below one half, else high. */
    function Icon(): (icon: VolumeIcon)
      reads this
      ensures icon == MutedIcon <==> Output() == 0.0
      ensures icon == LowIcon ==> Output() != 0.0 && Output() < 0.5
      ensures icon == HighIcon ==> Output() >= 0.5
    {
      if isMuted || volume == 0.0 then MutedIcon
      else if volume < 0.5 then LowIcon
      else HighIcon
    }
  }

  /** Muting twice restores the element to its volume and the player to unmuted. */
  method MuteTwice(p: Player)
    requires p.Valid() && p.hasAudio && !p.isMuted
    modifies p
    ensures p.Valid() && !p.isMuted && p.audioVolume == p.volume == old(p.volume)
  {
    p.ToggleMute();
    p.ToggleMute();
  }

  // ---------------------------------------------------------------------
  // Progress bar

  /** `progressPercentage`: 0 while the duration is unknown (0), else the played share in percent. */
  function Progress(currentTime: real, duration: real): (percent: real)
    requires duration >= 0.0
    ensures duration == 0.0 ==> percent == 0.0
    ensures 0.0 <= currentTime <= duration ==> 0.0 <= percent <= 100.0
    ensures duration > 0.0 && currentTime == duration ==> percent == 100.0
  {
    if duration == 0.0 then 0.0 else currentTime / duration * 100.0
  }

  /**
   * `handleProgressClick`: a click `x` pixels into a bar `width` wide seeks
   * to the same share of the duration; with no duration the click is
   * ignored (`None`).
   */
  function SeekTime(x: real, width: real, duration: real): (time: Option<real>)
    requires width > 0.0 && duration >= 0.0
    ensures duration == 0.0 <==> time.None?
    ensures time.Some? && 0.0 <= x <= width ==> 0.0 <= time.value <= duration
  {
    if duration == 0.0 then None else Some(x / width * duration)
  }

  /** After a seek the bar is filled exactly up to the click. */
  lemma SeekThenProgress(x: real, width: real, duration: real)
    requires width > 0.0 && duration > 0.0
    ensures Progress(SeekTime(x, width, duration).value, duration) == x / width * 100.0
  {
    var t := x / width * duration;
    assert t / duration == x / width;
  }

  // ---------------------------------------------------------------------
  // Clock text

  /** `n.toString().padStart(2, '0')` for a number below 100. */
  function Pad2(n: nat): (s: string)
    requires n < 100
    ensures |s| == 2 && IsDigit(s[0]) && IsDigit(s[1])
    ensures DigitsValue(s) == n
  {
    var s := [DigitChar(n / 10), DigitChar(n % 10)];
    assert s[..1] == [DigitChar(n / 10)] && s[..1][..0] == [];
    assert DigitsValue(s[..1]) == n / 10;
    assert DigitsValue(s) == DigitsValue(s[..1]) * 10 + DigitValue(s[1]);
    s
  }

  /**
   * `formatTime`: "0:00" for NaN, else the whole minutes, a colon and the
   * remaining whole seconds on two digits. Times of a media element are
   * never negative; `None` is NaN.
   */
  function FormatTime(time: Option<real>): (text: string)
    requires time.Some? ==> time.value >= 0.0
    ensures time.None? ==> text == "0:00"
    ensures time.Some? ==>
      && |text| >= 4
      && text[|text| - 3] == ':'
      && (forall i :: 0 <= i < |text| - 3 ==> IsDigit(text[i]))
      && IsDigit(text[|text| - 2]) && IsDigit(text[|text| - 1])
      && DigitsValue(text[|text| - 2..]) < 60
      && (text[0] == '0' ==> |text| == 4)
      && DigitsValue(text[..|text| - 3]) * 60 + DigitsValue(text[|text| - 2..]) == time.value.Floor
  {
    match time
    case None => "0:00"
    case Some(t) =>
      var minutes := (t / 60.0).Floor;
      var seconds := (t - 60.0 * minutes as real).Floor;
      FloorSplit(t);
      var m := NatToString(minutes);
      var s := Pad2(seconds);
      NatToStringRoundTrip(minutes);
      var text := m + ":" + s;
      assert text[..|text| - 3] == m && text[|text| - 2..] == s;
      text
  }

  /**
   * For a time `t >= 0`, `floor(t / 60)` and `floor(t % 60)` are the
   * quotient and remainder of the whole seconds `floor(t)` by 60.
   */
  lemma FloorSplit(t: real)
    requires t >= 0.0
    ensures (t / 60.0).Floor == t.Floor / 60
    ensures (t - 60.0 * (t / 60.0).Floor as real).Floor == t.Floor % 60
  {
    var n := t.Floor;
    var q, r := n / 60, n % 60;
    assert n == 60 * q + r && 0 <= r < 60;
    assert n as real <= t < n as real + 1.0;
    assert q as real <= t / 60.0 < q as real + 1.0;
    assert (t / 60.0).Floor == q;
    assert r as real <= t - 60.0 * q as real < r as real + 1.0;
  }

  // ---------------------------------------------------------------------
  // Waveform downsampling

  const Bars: nat := 80

  function Sum(xs: seq<real>): real
    decreases |xs|
  {
    if xs == [] then 0.0 else Sum(xs[..|xs| - 1]) + xs[|xs| - 1]
  }

  /** `Math.floor(n / 80)`. */
  function Step(n: nat): nat {
    n / Bars
  }

  /**
   * Bar `i`: the average of `bins[i * step .. min(i * step + step, n)]`,
   * or `None` for the NaN of an empty slice.
   */
  function Bar(bins: seq<real>, i: nat): Option<real> {
    var step := Step(|bins|);
    var start := i * step;
    var end := if start + step < |bins| then start + step else |bins|;
    if end <= start then None else Average(bins[start..end])
  }

  /** `reduce((sum, val) => sum + val, 0) / length`: NaN (`None`) for no values. */
  function Average(xs: seq<real>): (avg: Option<real>)
    ensures avg.None? <==> xs == []
  {
    if xs == [] then None else Some(Sum(xs) / |xs| as real)
  }

  /**
   * The downsampling loop: eighty bars, bar `i` the average of its slice of
   * bins.
   */
  method Downsample(bins: seq<real>) returns (bars: seq<Option<real>>)
    ensures |bars| == Bars
    ensures forall i :: 0 <= i < Bars ==> bars[i] == Bar(bins, i)
  {
    bars := [];
    var step := |bins| / Bars;
    for i := 0 to Bars
      invariant |bars| == i
      invariant forall j :: 0 <= j < i ==> bars[j] == Bar(bins, j)
    {
      var start := i * step;
      var end := if start + step < |bins| then start + step else |bins|;
      var avg: Option<real>;
      if end <= start {
        avg := None;
      } else {
        avg := Average(bins[start..end]);
      }
      assert avg == Bar(bins, i);
      bars := bars + [avg];
    }
  }

  /**
   * With at least eighty bins every bar averages exactly `step` bins, the
   * slices lie inside the bins and do not overlap; with fewer, every bar is
   * NaN.
   */
  lemma BarSlices(n: nat, i: nat, j: nat)
    requires i < j < Bars
    ensures n >= Bars ==> Step(n) >= 1 && j * Step(n) + Step(n) <= n
    ensures n >= Bars ==> i * Step(n) + Step(n) <= j * Step(n)
    ensures n < Bars ==> Step(n) == 0
  {
    var s := Step(n);
    if n >= Bars {
      assert Bars * s <= n;
      MulMono(j + 1, Bars, s);
      MulMono(i + 1, j, s);
    }
  }

  lemma MulMono(a: nat, b: nat, s: nat)
    requires a <= b
    ensures a * s <= b * s
  {
  }

  /** Too few bins give no bar at all. */
  lemma FewBinsNoBars(bins: seq<real>, i: nat)
    requires |bins| < Bars
    ensures Bar(bins, i) == None
  {
  }

  lemma {:induction false} SumBounds(xs: seq<real>)
    requires forall k :: 0 <= k < |xs| ==> 0.0 <= xs[k] <= 1.0
    ensures 0.0 <= Sum(xs) <= |xs| as real
    decreases |xs|
  {
    if xs != [] {
      SumBounds(xs[..|xs| - 1]);
    }
  }

  /** Normalised bins in [0, 1] give bars in [0, 1]. */
  lemma BarBounds(bins: seq<real>, i: nat)
    requires forall k :: 0 <= k < |bins| ==> 0.0 <= bins[k] <= 1.0
    requires Bar(bins, i).Some?
    ensures 0.0 <= Bar(bins, i).value <= 1.0
  {
    var step := Step(|bins|);
    var start := i * step;
    var end := if start + step < |bins| then start + step else |bins|;
    var slice := bins[start..end];
    SumBounds(slice);
    AverageBound(Sum(slice), |slice| as real);
  }

  lemma AverageBound(sum: real, count: real)
    requires count > 0.0 && 0.0 <= sum <= count
    ensures 0.0 <= sum / count <= 1.0
  {
  }
}

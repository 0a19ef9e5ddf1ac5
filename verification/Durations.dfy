/**
 How a render finds out how long it is (render.go, resolveDurationFrames; and
 internal/composition/durations.go): from given durations, from a number of equal slides, or
 from what the page says about itself.
 */
module Durations {
  import opened Wrappers
  import opened Timelines

  datatype DurationSource = Auto | Manual | Fixed | Other(name: string)

  /** The render options that matter here. */
  datatype Options = Options(source: DurationSource, slideDurationsMs: seq<int>, slides: int,
                             secondsPerSlide: real, defaultSlideMs: int)

  /** What the page reports: per-slide durations and a total. */
  datatype PageMeta = PageMeta(durations: seq<int>, totalMs: int)

  datatype DurationError =
    | ManualNeedsDurations
    | FixedNeedsSlides
    | NotComputable(error: TimelineError)
    | NonPositiveDuration(index: int)
    | AutoUnresolved
    | UnsupportedSource(name: string)

  class Composition {
    var durationFrames: int
    var slideDurationsMs: seq<int>
    const fps: int

    constructor (durationFrames: int, slideDurationsMs: seq<int>, fps: int)
      ensures this.durationFrames == durationFrames && this.slideDurationsMs == slideDurationsMs && this.fps == fps
    {
      this.durationFrames := durationFrames;
      this.slideDurationsMs := slideDurationsMs;
      this.fps := fps;
    }
  }

  const FALLBACK_MS := 5000

  function PositiveOr(ms: int, fallback: int): (r: int)
    ensures r > 0 && (ms > 0 ==> r == ms)
  {
    if ms > 0 then ms else if fallback > 0 then fallback else FALLBACK_MS
  }

  /** What stands for a duration that is not positive: the given fallback, or else five seconds. */
  ghost predicate IsFallback(ms: int, fallback: int) {
    if fallback > 0 then ms == fallback else ms == 5000
  }

  /** out is raw with the non-positive durations, and only these, replaced by the fallback. */
  ghost predicate Repaired(raw: seq<int>, fallback: int, out: seq<int>) {
    && |out| == |raw|
    && forall i :: 0 <= i < |raw| ==> if raw[i] > 0 then out[i] == raw[i] else IsFallback(out[i], fallback)
  }

  /**
   n equal slides of the millisecond nearest to 1000 * seconds, halves up, or of the fallback
   if that is not positive.
   */
  ghost predicate EqualSlides(n: int, seconds: real, fallback: int, out: seq<int>) {
    && |out| == (if n > 0 then n else 0)
    && forall i :: 0 <= i < |out| ==>
         if 1000.0 * seconds >= 0.5 then out[i] as real - 0.5 <= 1000.0 * seconds < out[i] as real + 0.5
         else IsFallback(out[i], fallback)
  }

  /** Durations with every non-positive entry replaced by the fallback. */
  function Normalized(raw: seq<int>, fallback: int): (out: seq<int>)
    ensures |out| == |raw| && AllPositive(out)
    ensures AllPositive(raw) ==> out == raw
    ensures Repaired(raw, fallback, out)
  {
    seq(|raw|, i requires 0 <= i < |raw| => PositiveOr(raw[i], fallback))
  }

  predicate AllPositive(durations: seq<int>) {
    forall i :: 0 <= i < |durations| ==> durations[i] > 0
  }

  method NormalizeDurationsMs(raw: seq<int>, fallbackArg: int) returns (r: Result<seq<int>, DurationError>)
    ensures r == Success(Normalized(raw, fallbackArg)) && Repaired(raw, fallbackArg, r.value)
  {
    if |raw| == 0 {
      return Success([]);
    }
    var fallback := fallbackArg;
    if fallback <= 0 {
      fallback := FALLBACK_MS;
    }
    var out := [];
    for i := 0 to |raw|
      invariant out == Normalized(raw, fallbackArg)[..i]
    {
      var v := raw[i];
      if v > 0 {
        out := out + [v];
        continue;
      }
      if fallback <= 0 {
        return Failure(NonPositiveDuration(i));
      }
      out := out + [fallback];
    }
    assert out == Normalized(raw, fallbackArg);
    return Success(out);
  }

  /** The frame count of durations at fps, when they make a timeline. */
  function FrameCount(durations: seq<int>, fps: int): Option<int> {
    if durations != [] && AllPositive(durations) && fps > 0 then Some(FramesIn(Sum(durations, |durations|), fps))
    else None
  }

  method ComputeTotalFramesFromDurationsMs(durations: seq<int>, fps: int) returns (r: Result<int, DurationError>)
    ensures r.Success? <==> FrameCount(durations, fps).Some?
    ensures r.Success? ==> FrameCount(durations, fps) == Some(r.value)
                           && TotalFrames(TimelineOf(durations), fps) == Success(r.value) && r.value > 0
    ensures r.Failure? && durations != [] && AllPositive(durations) ==> r.error == NotComputable(InvalidFps)
  {
    var tl := New(durations);
    if tl.Failure? {
      return Failure(NotComputable(tl.error));
    }
    var frames := TotalFrames(tl.value, fps);
    if frames.Failure? {
      return Failure(NotComputable(frames.error));
    }
    TotalFramesIsLeast(tl.value, fps, frames.value);
    ValidIsTimelineOf(tl.value);
    return Success(frames.value);
  }

  /** math.Round: to the nearest integer, halves away from zero. */
  function Round(x: real): int {
    if x >= 0.0 then (x + 0.5).Floor else -((-x + 0.5).Floor)
  }

  lemma RoundIsNearest(x: real)
    ensures x >= 0.5 ==> Round(x) >= 1 && Round(x) as real - 0.5 <= x < Round(x) as real + 0.5
    ensures x < 0.5 ==> Round(x) <= 0
  {
  }

  function FixedDurations(slides: int, secondsPerSlide: real, defaultSlideMs: int): (out: seq<int>)
    ensures AllPositive(out) && |out| == if slides > 0 then slides else 0
    ensures EqualSlides(slides, secondsPerSlide, defaultSlideMs, out)
  {
    RoundIsNearest(secondsPerSlide * 1000.0);
    seq(if slides > 0 then slides else 0, i => PositiveOr(Round(secondsPerSlide * 1000.0), defaultSlideMs))
  }

  method BuildFixedDurationsMs(slides: int, secondsPerSlide: real, defaultSlideMs: int) returns (out: seq<int>)
    ensures out == FixedDurations(slides, secondsPerSlide, defaultSlideMs)
    ensures EqualSlides(slides, secondsPerSlide, defaultSlideMs, out)
  {
    if slides <= 0 {
      return [];
    }
    var perSlide := Round(secondsPerSlide * 1000.0);
    if perSlide <= 0 {
      if defaultSlideMs > 0 {
        perSlide := defaultSlideMs;
      } else {
        perSlide := 5000;
      }
    }
    var a := new int[slides];
    for i := 0 to slides
      invariant forall j :: 0 <= j < i ==> a[j] == PositiveOr(Round(secondsPerSlide * 1000.0), defaultSlideMs)
    {
      a[i] := perSlide;
    }
    return a[..];
  }

  // ----- Which source decides -----

  /** The durations each source offers, in the order in which they are tried. */
  function Candidates(opts: Options, page: Option<PageMeta>): seq<seq<int>> {
    match opts.source
    case Manual => [Normalized(opts.slideDurationsMs, opts.defaultSlideMs)]
    case Fixed => [FixedDurations(opts.slides, opts.secondsPerSlide, opts.defaultSlideMs)]
    case Auto =>
      [if page.Some? then Normalized(page.value.durations, opts.defaultSlideMs) else [],
       if page.Some? && page.value.totalMs > 0 then [page.value.totalMs] else [],
       FixedDurations(opts.slides, opts.secondsPerSlide, opts.defaultSlideMs)]
    case Other(_) => []
  }

  /** ds is the first candidate that makes a timeline. */
  ghost predicate FirstUsable(candidates: seq<seq<int>>, fps: int, ds: seq<int>) {
    exists i :: 0 <= i < |candidates| && candidates[i] == ds && FrameCount(ds, fps).Some?
                && forall j :: 0 <= j < i ==> FrameCount(candidates[j], fps).None?
  }

  ghost predicate NoneUsable(candidates: seq<seq<int>>, fps: int) {
    forall i :: 0 <= i < |candidates| ==> FrameCount(candidates[i], fps).None?
  }

  /** What is reported when no candidate is usable. */
  function Complaint(opts: Options): DurationError {
    match opts.source
    case Manual => if opts.slideDurationsMs == [] then ManualNeedsDurations else NotComputable(InvalidFps)
    case Fixed => if opts.slides <= 0 then FixedNeedsSlides else NotComputable(InvalidFps)
    case Auto => AutoUnresolved
    case Other(name) => UnsupportedSource(name)
  }

  /** The composition's frame count and slide durations agree and make a non-empty timeline. */
  ghost predicate Consistent(durationFrames: int, slideDurationsMs: seq<int>, fps: int) {
    && fps > 0 && slideDurationsMs != [] && AllPositive(slideDurationsMs)
    && durationFrames > 0
    && TotalFrames(TimelineOf(slideDurationsMs), fps) == Success(durationFrames)
  }

  /** What the automatic source settles on: the page's durations, or its total, or equal slides. */
  ghost predicate AutoResult(opts: Options, page: Option<PageMeta>, ds: seq<int>) {
    if page.Some? && page.value.durations != [] then Repaired(page.value.durations, opts.defaultSlideMs, ds)
    else if page.Some? && page.value.totalMs > 0 then ds == [page.value.totalMs]
    else EqualSlides(opts.slides, opts.secondsPerSlide, opts.defaultSlideMs, ds)
  }

  /** The slide durations a source settles on, in terms of the options and the page. */
  ghost predicate SourceResult(opts: Options, page: Option<PageMeta>, ds: seq<int>) {
    match opts.source
    case Manual => Repaired(opts.slideDurationsMs, opts.defaultSlideMs, ds)
    case Fixed => EqualSlides(opts.slides, opts.secondsPerSlide, opts.defaultSlideMs, ds)
    case Auto => AutoResult(opts, page, ds)
    case Other(_) => false
  }

  /**
   resolveDurationFrames.  `page` is the outcome of asking the page (None when that failed).
   An explicit frame count is kept.  Otherwise the first usable candidate decides both the
   frame count and the slide durations; if there is none, nothing changes.
   */
  method ResolveDurationFrames(comp: Composition, opts: Options, page: Option<PageMeta>)
      returns (r: Result<(), DurationError>)
    modifies comp
    ensures old(comp.durationFrames) > 0 ==>
              r.Success? && comp.durationFrames == old(comp.durationFrames)
                  && comp.slideDurationsMs == old(comp.slideDurationsMs)
    ensures old(comp.durationFrames) <= 0 && r.Success? ==>
              && FirstUsable(Candidates(opts, page), comp.fps, comp.slideDurationsMs)
              && Consistent(comp.durationFrames, comp.slideDurationsMs, comp.fps)
              && SourceResult(opts, page, comp.slideDurationsMs)
    ensures r.Failure? ==>
              && NoneUsable(Candidates(opts, page), comp.fps) && r.error == Complaint(opts)
              && comp.durationFrames == old(comp.durationFrames) && comp.slideDurationsMs == old(comp.slideDurationsMs)
  {
    if comp.durationFrames > 0 {
      return Success(());
    }
    ghost var candidates := Candidates(opts, page);
    match opts.source {
      case Manual =>
        if |opts.slideDurationsMs| == 0 {
          return Failure(ManualNeedsDurations);
        }
        var durations := NormalizeDurationsMs(opts.slideDurationsMs, opts.defaultSlideMs);
        assert durations.Success?; // the error branch is dead: there is always a positive fallback
        var frames := ComputeTotalFramesFromDurationsMs(durations.value, comp.fps);
        if frames.Failure? {
          return Failure(frames.error);
        }
        comp.durationFrames := frames.value;
        comp.slideDurationsMs := durations.value;
        assert candidates[0] == comp.slideDurationsMs;
        return Success(());
      case Fixed =>
        if opts.slides <= 0 {
          return Failure(FixedNeedsSlides);
        }
        var durations := BuildFixedDurationsMs(opts.slides, opts.secondsPerSlide, opts.defaultSlideMs);
        var frames := ComputeTotalFramesFromDurationsMs(durations, comp.fps);
        if frames.Failure? {
          return Failure(frames.error);
        }
        comp.durationFrames := frames.value;
        comp.slideDurationsMs := durations;
        assert candidates[0] == comp.slideDurationsMs;
        return Success(());
      case Auto =>
        r := ResolveAuto(comp, opts, page);
        return;
      case Other(name) =>
        return Failure(UnsupportedSource(name));
    }
  }

  method ResolveAuto(comp: Composition, opts: Options, page: Option<PageMeta>) returns (r: Result<(), DurationError>)
    requires opts.source.Auto?
    modifies comp
    ensures r.Success? ==>
              && FirstUsable(Candidates(opts, page), comp.fps, comp.slideDurationsMs)
              && Consistent(comp.durationFrames, comp.slideDurationsMs, comp.fps)
              && SourceResult(opts, page, comp.slideDurationsMs)
    ensures r.Failure? ==>
              && NoneUsable(Candidates(opts, page), comp.fps) && r.error == Complaint(opts)
              && comp.durationFrames == old(comp.durationFrames) && comp.slideDurationsMs == old(comp.slideDurationsMs)
  {
    var durations, totalMs := [], 0;
    if page.Some? {
      durations, totalMs := page.value.durations, page.value.totalMs;
    }
    ghost var candidates := Candidates(opts, page);
    assert candidates[0] == Normalized(durations, opts.defaultSlideMs);
    if |durations| > 0 {
      var norm := NormalizeDurationsMs(durations, opts.defaultSlideMs);
      if norm.Success? {
        var frames := ComputeTotalFramesFromDurationsMs(norm.value, comp.fps);
        if frames.Success? && frames.value > 0 {
          comp.durationFrames := frames.value;
          comp.slideDurationsMs := norm.value;
          assert candidates[0] == comp.slideDurationsMs;
          return Success(());
        }
      }
    }
    assert FrameCount(candidates[0], comp.fps).None?;
    if totalMs > 0 {
      var frames := ComputeTotalFramesFromDurationsMs([totalMs], comp.fps);
      if frames.Success? && frames.value > 0 {
        comp.durationFrames := frames.value;
        comp.slideDurationsMs := [totalMs];
        assert candidates[1] == comp.slideDurationsMs;
        return Success(());
      }
    }
    assert FrameCount(candidates[1], comp.fps).None?;
    if opts.slides > 0 {
      var fixed := BuildFixedDurationsMs(opts.slides, opts.secondsPerSlide, opts.defaultSlideMs);
      var frames := ComputeTotalFramesFromDurationsMs(fixed, comp.fps);
      if frames.Success? && frames.value > 0 {
        comp.durationFrames := frames.value;
        comp.slideDurationsMs := fixed;
        assert candidates[2] == comp.slideDurationsMs;
        return Success(());
      }
    }
    return Failure(AutoUnresolved);
  }

  /** Every frame of a resolved composition has exactly one place in its slides. */
  lemma ResolvedFramesHaveLocations(durationFrames: int, slideDurationsMs: seq<int>, fps: int, frame: int)
      returns (loc: FrameLocation)
    requires Consistent(durationFrames, slideDurationsMs, fps) && 0 <= frame < durationFrames
    ensures var t := TimelineOf(slideDurationsMs);
            && IsLocation(t, frame, fps, loc)
            && forall other :: IsLocation(t, frame, fps, other) ==> other == loc
  {
    var t := TimelineOf(slideDurationsMs);
    loc := LocationExists(t, frame, fps);
    forall other | IsLocation(t, frame, fps, other) ensures other == loc {
      LocationUnique(t, frame, fps, other, loc);
    }
  }

  /** Resolution by any source succeeds whenever that source offers a slide and fps is positive. */
  lemma UsableIffNonEmpty(opts: Options, page: Option<PageMeta>, fps: int)
    ensures NoneUsable(Candidates(opts, page), fps)
       <==> fps <= 0 || forall i :: 0 <= i < |Candidates(opts, page)| ==> Candidates(opts, page)[i] == []
  {
    var cs := Candidates(opts, page);
    forall i | 0 <= i < |cs| ensures FrameCount(cs[i], fps).None? <==> fps <= 0 || cs[i] == [] {
      CandidatesArePositive(opts, page, i);
    }
  }

  lemma CandidatesArePositive(opts: Options, page: Option<PageMeta>, i: int)
    requires 0 <= i < |Candidates(opts, page)|
    ensures AllPositive(Candidates(opts, page)[i])
  {
  }
}

/**
 * The placement loop (src/bot/controller.ts): the bot controller's
 * configuration, its progress state, starting and stopping, saving
 * progress, and the loop that walks the processed pixels and reacts to
 * each placement's outcome.
 *
 * Everything the loop learns from outside - whether a captcha is showing,
 * the colour the cache reports for the next pixel, the placement's result,
 * whether the user pressed stop while the placement was in flight, and the
 * ids the browser gives the timers - arrives as one `Observation` per
 * iteration. Waiting itself takes no time in the model: a wait is its net
 * effect on the state once it settles.
 */
module Controller {
  import opened Wrappers
  import opened Types
  import opened Strings
  import opened Protocol
  import opened Ordering
  import opened ImageProcessor
  import Pixmap
  import opened Arith

  // ------------------------------------------------------------ coordinates

  /** The separators `[_,]` the coordinate pattern accepts. */
  predicate IsSeparator(c: char)
  {
    c == '_' || c == ','
  }

  /** Index of the first separator at or after `i`, or `|s|` when there is none. */
  function FirstSeparator(s: string, i: nat): (k: nat)
    requires i <= |s|
    ensures i <= k <= |s|
    ensures k < |s| ==> IsSeparator(s[k])
    ensures forall j :: i <= j < k ==> !IsSeparator(s[j])
    decreases |s| - i
  {
    if i == |s| then |s|
    else if IsSeparator(s[i]) then i
    else FirstSeparator(s, i + 1)
  }

  /** `s` matches `^(-?\d+)[_,](-?\d+)$` with the separator at index `k`. */
  predicate MatchesAt(s: string, k: nat)
  {
    k < |s| && IsSeparator(s[k]) && IsSignedDecimal(s[..k]) && IsSignedDecimal(s[k + 1..])
  }

  /** `parseCoordinates`: the two integers of `x_y` or `x,y`, or nothing. */
  function ParseCoordinatesOf(s: string): Option<(int, int)>
  {
    var k := FirstSeparator(s, 0);
    if k < |s| && IsSignedDecimal(s[..k]) && IsSignedDecimal(s[k + 1..]) then
      Some((ParseSigned(s[..k]), ParseSigned(s[k + 1..])))
    else None
  }

  /** A signed decimal holds no separator. */
  lemma SignedDecimalHasNoSeparator(s: string)
    requires IsSignedDecimal(s)
    ensures forall j :: 0 <= j < |s| ==> !IsSeparator(s[j])
  {
    forall j | 0 <= j < |s|
      ensures !IsSeparator(s[j])
    {
      if j > 0 || s[0] != '-' {
        if s[0] == '-' {
          assert s[j] == s[1..][j - 1];
        }
        assert IsDigit(s[j]);
      }
    }
  }

  /** The pattern can match at one separator only: the first. */
  lemma MatchIsAtFirstSeparator(s: string, k: nat)
    requires MatchesAt(s, k)
    ensures k == FirstSeparator(s, 0)
  {
    SignedDecimalHasNoSeparator(s[..k]);
  }

  /**
   * Parsing succeeds exactly when the whole string matches the pattern,
   * and then yields the values of the two numbers around the separator.
   */
  lemma ParseCoordinatesMeaning(s: string)
    ensures ParseCoordinatesOf(s).Some? <==> exists k: nat :: MatchesAt(s, k)
    ensures forall k: nat :: MatchesAt(s, k) ==>
      ParseCoordinatesOf(s) == Some((ParseSigned(s[..k]), ParseSigned(s[k + 1..])))
  {
    forall k: nat | MatchesAt(s, k)
      ensures ParseCoordinatesOf(s) == Some((ParseSigned(s[..k]), ParseSigned(s[k + 1..])))
    {
      MatchIsAtFirstSeparator(s, k);
    }
    if ParseCoordinatesOf(s).Some? {
      assert MatchesAt(s, FirstSeparator(s, 0));
    }
  }

  /** Writing a position as `x_y` or `x,y` and parsing it gives the position back. */
  lemma CoordinatesRoundTrip(x: int, y: int, sep: char)
    requires IsSeparator(sep)
    ensures ParseCoordinatesOf(IntToString(x) + [sep] + IntToString(y)) == Some((x, y))
  {
    var a, b := IntToString(x), IntToString(y);
    var s := a + [sep] + b;
    IntToStringRoundTrip(x);
    IntToStringRoundTrip(y);
    assert s[..|a|] == a;
    assert s[|a| + 1..] == b;
    assert MatchesAt(s, |a|);
    ParseCoordinatesMeaning(s);
  }

  // ------------------------------------------------------------ configuration and state

  /** The settings the controller reads (the display-only ones are not modelled). */
  datatype Config = Config(
    coordinates: string,
    canvasId: string,
    strategy: Strategy,
    brushSize: string,
    skipColorCheck: bool,
    repairMode: bool,
    stopOnCaptcha: bool,
    imageData: Option<ImageData>,
    imageName: string)

  /** A partial configuration: absent fields are left as they are. */
  datatype ConfigPatch = ConfigPatch(
    coordinates: Option<string>,
    canvasId: Option<string>,
    strategy: Option<Strategy>,
    brushSize: Option<string>,
    skipColorCheck: Option<bool>,
    repairMode: Option<bool>,
    stopOnCaptcha: Option<bool>,
    imageData: Option<Option<ImageData>>,
    imageName: Option<string>)

  function Pick<T>(patch: Option<T>, current: T): T
  {
    if patch.Some? then patch.value else current
  }

  /** `{ ...config, ...partial }`. */
  function Merge(c: Config, p: ConfigPatch): Config
  {
    Config(
      Pick(p.coordinates, c.coordinates),
      Pick(p.canvasId, c.canvasId),
      Pick(p.strategy, c.strategy),
      Pick(p.brushSize, c.brushSize),
      Pick(p.skipColorCheck, c.skipColorCheck),
      Pick(p.repairMode, c.repairMode),
      Pick(p.stopOnCaptcha, c.stopOnCaptcha),
      Pick(p.imageData, c.imageData),
      Pick(p.imageName, c.imageName))
  }

  /** Applying the same patch twice is applying it once; an empty patch changes nothing. */
  lemma MergeProperties(c: Config, p: ConfigPatch)
    ensures Merge(Merge(c, p), p) == Merge(c, p)
    ensures Merge(c, ConfigPatch(None, None, None, None, None, None, None, None, None)) == c
    ensures p.coordinates.Some? ==> Merge(c, p).coordinates == p.coordinates.value
    ensures p.coordinates.None? ==> Merge(c, p).coordinates == c.coordinates
    ensures p.imageData.Some? ==> Merge(c, p).imageData == p.imageData.value
    ensures p.imageData.None? ==> Merge(c, p).imageData == c.imageData
  {
  }

  /** The progress the UI shows; timing fields (start time, rate, ETA) are not modelled. */
  datatype BotState = BotState(
    status: BotStatus,
    cooldown: int,
    progress: int,
    totalPixels: nat,
    placedPixels: nat,
    skippedPixels: nat,
    errorCount: nat,
    currentPixelIndex: nat)

  /** What `saveProgress` writes into the stored settings. */
  datatype SavedProgress = SavedProgress(currentPixelIndex: nat, imageName: string, coordinates: string)

  /**
   * `Math.round((index / total) * 100)` for a non-negative index, taken
   * over the exact ratio: the nearest integer, halves rounded up.
   */
  function Progress(index: nat, total: nat): (p: int)
    requires total > 0
  {
    (200 * index + total) / (2 * total)
  }

  /**
   * Progress is a percentage: 0 at the start, 100 at the end, never
   * decreasing as the index grows, and the nearest integer to the exact
   * percentage (halves rounded up).
   */
  lemma ProgressMeaning(index: nat, total: nat)
    requires total > 0 && index <= total
    ensures 0 <= Progress(index, total) <= 100
    ensures Progress(0, total) == 0 && Progress(total, total) == 100
    ensures index < total ==> Progress(index, total) <= Progress(index + 1, total)
    ensures 2 * total * Progress(index, total) <= 200 * index + total < 2 * total * (Progress(index, total) + 1)
  {
    var d := 2 * total;
    DivUnique(200 * total + total, d, 100);
    DivUnique(total, d, 0);
    DivMonotone(200 * index + total, 200 * total + total, d);
    DivMonotone(200 * index + total, 200 * (index + 1) + total, d);
    var n, p := 200 * index + total, Progress(index, total);
    assert n == d * p + n % d;
    assert d * (p + 1) == d * p + d;
  }

  /** The state a start leaves: running from `startIndex` of `total` pixels. */
  function Launch(old_state: BotState, total: nat, startIndex: nat): BotState
    requires total > 0
  {
    old_state.(status := Running, totalPixels := total, placedPixels := startIndex,
               skippedPixels := 0, errorCount := 0, currentPixelIndex := startIndex,
               progress := Progress(startIndex, total))
  }

  /**
   * A start leaves the counters consistent, with the pixels before the
   * resume index counted as placed and a progress between 0 and 100.
   */
  lemma LaunchConsistent(s: BotState, total: nat, startIndex: nat)
    requires startIndex < total
    ensures Consistent(Launch(s, total, startIndex), total)
    ensures 0 <= Launch(s, total, startIndex).progress <= 100
  {
    ProgressMeaning(startIndex, total);
  }

  /**
   * Where a start resumes: the saved index when the saved progress is for
   * the same image name and coordinates and still lies within the image,
   * else the first pixel.
   */
  function ResumeIndex(saved: Option<SavedProgress>, config: Config, total: nat): (i: nat)
    ensures total > 0 ==> i < total
    ensures i != 0 ==> saved.Some? && saved.value.currentPixelIndex == i
    ensures saved == Some(SavedProgress(i, config.imageName, config.coordinates)) || i == 0
    ensures (saved.Some? && saved.value.imageName == config.imageName
             && saved.value.coordinates == config.coordinates
             && saved.value.currentPixelIndex < total) ==> i == saved.value.currentPixelIndex
  {
    if saved.Some? && saved.value.imageName == config.imageName
       && saved.value.coordinates == config.coordinates
       && saved.value.currentPixelIndex < total
    then saved.value.currentPixelIndex
    else 0
  }

  // ------------------------------------------------------------ one iteration, as a function

  /** Snapshot of the fields the loop changes. */
  datatype Snapshot = Snapshot(
    state: BotState,
    running: bool,
    intervals: set<int>,
    timeouts: set<int>,
    stored: Option<SavedProgress>)

  /**
   * What the loop reads but never changes: whether colours are checked,
   * the names saved with the progress, whether the stored settings exist,
   * and whether there is a processed image.
   */
  datatype Env = Env(checkColors: bool, imageName: string, coordinates: string,
                     storageItem: bool, hasImage: bool)

  /** The ids the browser hands out for the timers one iteration may start. */
  datatype Timers = Timers(check: int, interval: int, timeout: int)

  /**
   * What one iteration learns from outside: whether a captcha is on screen
   * when it begins, the cached colour of the pixel, the placement's result,
   * and whether `stop()` ran while the placement was awaited.
   */
  datatype Observation = Observation(
    captchaActive: bool,
    currentColor: Option<int>,
    result: PlaceResult,
    stop: bool,
    timers: Timers)

  /** `result.error?.includes(t)`: an absent error includes nothing. */
  predicate ErrorIncludes(r: PlaceResult, t: string)
  {
    r.error.Some? && Contains(r.error.value, t)
  }

  /** How an iteration reacts to what it observed. */
  datatype Outcome =
    | ColorMatches        // already the wanted colour in the cache: skipped without placing
    | Placed
    | CaptchaWait
    | CooldownWait(ms: int)
    | AlreadyCorrect
    | Backoff

  /** The cooldown used when the server names none. */
  const DEFAULT_COOLDOWN_MS: int := 120000

  /** How the loop reacts to a placement's result. */
  function ClassifyResult(r: PlaceResult): (out: Outcome)
    ensures !out.ColorMatches?
  {
    if r.success then Placed
    else if r.captcha || ErrorIncludes(r, "Captcha") then CaptchaWait
    else if ErrorIncludes(r, "Cooldown") then CooldownWait(if r.waitMs != 0 then r.waitMs else DEFAULT_COOLDOWN_MS)
    else if ErrorIncludes(r, "already correct color") then AlreadyCorrect
    else Backoff
  }

  /** How an iteration reacts: a pixel the cache shows in its colour is skipped before placing. */
  function Classify(checkColors: bool, pixel: PixelData, obs: Observation): Outcome
  {
    if checkColors && obs.currentColor == Some(pixel.color) then ColorMatches
    else ClassifyResult(obs.result)
  }

  function Min(a: int, b: int): int
  {
    if a <= b then a else b
  }

  function Pow2(n: nat): (r: nat)
    ensures r >= 1
  {
    if n == 0 then 1 else 2 * Pow2(n - 1)
  }

  /** The pause after the `errorCount`-th failure: 500 ms doubled per failure, at most 16 s. */
  function BackoffMs(errorCount: int): int
    requires errorCount >= 1
  {
    Min(500 * Pow2(Min(errorCount - 1, 5)), 16000)
  }

  /**
   * The backoff starts at 500 ms, doubles with every further failure, and
   * stays at 16 s from the sixth failure on.
   */
  lemma BackoffSchedule(errorCount: int)
    requires errorCount >= 1
    ensures BackoffMs(1) == 500
    ensures BackoffMs(errorCount) in {500, 1000, 2000, 4000, 8000, 16000}
    ensures BackoffMs(errorCount + 1) == Min(2 * BackoffMs(errorCount), 16000)
    ensures errorCount >= 6 ==> BackoffMs(errorCount) == 16000
  {
    assert Pow2(0) == 1;
    assert Pow2(1) == 2;
    assert Pow2(2) == 4;
    assert Pow2(3) == 8;
    assert Pow2(4) == 16;
    assert Pow2(5) == 32;
  }

  /** `saveProgress`: writes only with an image, a name and existing stored settings. */
  function Save(env: Env, s: Snapshot): Snapshot
  {
    if env.hasImage && env.imageName != [] && env.storageItem then
      s.(stored := Some(SavedProgress(s.state.currentPixelIndex, env.imageName, env.coordinates)))
    else s
  }

  /** `stop()`: not running, every cooldown timer cancelled, status stopped, progress saved. */
  function Halt(env: Env, s: Snapshot): Snapshot
  {
    Save(env, Snapshot(s.state.(status := Stopped, cooldown := 0), false, {}, {}, s.stored))
  }

  /** A captcha wait, once resolved: its check timer gone, status back to running. */
  function CaptchaPause(s: Snapshot, check: int): Snapshot
  {
    s.(state := s.state.(status := Running), intervals := (s.intervals + {check}) - {check})
  }

  /** The period of the countdown interval of `waitCooldown`. */
  const COOLDOWN_TICK_MS: int := 500

  /**
   * `waitCooldown(ms)`, once settled. While running the timeout ends it and
   * removes both timers. After a stop the first of the two timers to fire
   * ends it: the timeout when it is due before the interval's first tick,
   * else the interval, which removes only itself and leaves the timeout
   * registered until it fires.
   */
  function CooldownSettle(s: Snapshot, ms: int, interval: int, timeout: int): Snapshot
  {
    if ms <= 0 then s
    else if s.running || ms < COOLDOWN_TICK_MS then
      s.(state := s.state.(cooldown := 0),
         intervals := (s.intervals + {interval}) - {interval},
         timeouts := (s.timeouts + {timeout}) - {timeout})
    else
      s.(state := s.state.(cooldown := 0),
         intervals := (s.intervals + {interval}) - {interval},
         timeouts := s.timeouts + {timeout})
  }

  /**
   * A settled cooldown has removed its interval and reset the countdown;
   * its timeout is still registered exactly when the bot was stopped and
   * the timeout is not due before the interval's first tick.
   */
  lemma CooldownSettleTimers(s: Snapshot, ms: int, interval: int, timeout: int)
    requires ms > 0
    ensures var r := CooldownSettle(s, ms, interval, timeout);
      && r.intervals == s.intervals - {interval}
      && r.timeouts - {timeout} == s.timeouts - {timeout}
      && (timeout in r.timeouts <==> !s.running && ms >= COOLDOWN_TICK_MS)
      && r.state == s.state.(cooldown := 0) && r.running == s.running && r.stored == s.stored
  {
  }

  /** The cursor moves to the next pixel, counted as placed or as skipped. */
  function Advance(s: Snapshot, total: nat, placed: bool): Snapshot
    requires total > 0
  {
    var i := s.state.currentPixelIndex + 1;
    s.(state := s.state.(
      currentPixelIndex := i,
      placedPixels := if placed then s.state.placedPixels + 1 else s.state.placedPixels,
      skippedPixels := if placed then s.state.skippedPixels else s.state.skippedPixels + 1,
      progress := Progress(i, total)))
  }

  /** The reaction to a placement's outcome (after any stop that ran during it). */
  function React(env: Env, total: nat, s: Snapshot, out: Outcome, timers: Timers): Snapshot
    requires total > 0
  {
    match out
    case ColorMatches => Advance(s, total, false)
    case Placed =>
      var s' := Advance(s, total, true);
      if s'.state.currentPixelIndex % 10 == 0 then Save(env, s') else s'
    case CaptchaWait => CaptchaPause(s, timers.check)
    case CooldownWait(ms) => CooldownSettle(s, ms, timers.interval, timers.timeout)
    case AlreadyCorrect => Advance(s, total, false)
    case Backoff => s.(state := s.state.(errorCount := s.state.errorCount + 1))
  }

  /** One iteration of the loop on the pixel at the cursor. */
  function LoopStep(env: Env, total: nat, pixel: PixelData, s: Snapshot, obs: Observation): Snapshot
    requires total > 0
  {
    var s1 := if obs.captchaActive then CaptchaPause(s, obs.timers.check) else s;
    var out := Classify(env.checkColors, pixel, obs);
    if out.ColorMatches? then Advance(s1, total, false)
    else
      var s2 := if obs.stop then Halt(env, s1) else s1;
      React(env, total, s2, out, obs.timers)
  }

  /** After the loop: having run off the end while running marks the bot idle. */
  function Finish(s: Snapshot, total: nat): Snapshot
  {
    if s.running && s.state.currentPixelIndex >= total then
      s.(state := s.state.(status := Idle, progress := 100), running := false)
    else s
  }

  /**
   * The loop over `pixels` from snapshot `s`, one observation per iteration.
   * It ends when the pixels run out, when the bot stops running, or when
   * the observations run out (the loop would then still be going).
   */
  function Run(env: Env, pixels: seq<PixelData>, s: Snapshot, trace: seq<Observation>): Snapshot
    decreases |trace|
  {
    if s.state.currentPixelIndex < |pixels| && s.running && trace != [] then
      var s' := LoopStep(env, |pixels|, pixels[s.state.currentPixelIndex], s, trace[0]);
      if !s'.running then s' else Run(env, pixels, s', trace[1..])
    else Finish(s, |pixels|)
  }

  // ------------------------------------------------------------ properties of the loop

  /**
   * What holds of the counters throughout a run: every pixel before the
   * cursor was placed or skipped, and the progress is the cursor's.
   */
  predicate Consistent(st: BotState, total: nat)
  {
    && st.currentPixelIndex <= total
    && st.placedPixels + st.skippedPixels == st.currentPixelIndex
    && (total > 0 ==> st.progress == Progress(st.currentPixelIndex, total))
  }

  /**
   * An iteration moves the cursor by one exactly when the pixel was found
   * in its colour, placed, or reported already correct; only a plain
   * failure counts an error; each keeps the counters consistent.
   */
  lemma StepEffect(env: Env, total: nat, pixel: PixelData, s: Snapshot, obs: Observation)
    requires total > 0 && s.state.currentPixelIndex < total
    requires Consistent(s.state, total)
    ensures var s' := LoopStep(env, total, pixel, s, obs);
      var out := Classify(env.checkColors, pixel, obs);
      && Consistent(s'.state, total)
      && s'.state.currentPixelIndex == s.state.currentPixelIndex +
           (if out.ColorMatches? || out.Placed? || out.AlreadyCorrect? then 1 else 0)
      && s'.state.placedPixels == s.state.placedPixels + (if out.Placed? then 1 else 0)
      && s'.state.errorCount == s.state.errorCount + (if out.Backoff? then 1 else 0)
      && s'.state.totalPixels == s.state.totalPixels
  {
    var s1 := if obs.captchaActive then CaptchaPause(s, obs.timers.check) else s;
    assert SameCounters(s1.state, s.state);
    var out := Classify(env.checkColors, pixel, obs);
    if out.ColorMatches? {
      ReactEffect(env, total, s1, out, obs.timers);
      assert LoopStep(env, total, pixel, s, obs) == React(env, total, s1, out, obs.timers);
    } else {
      var s2 := if obs.stop then Halt(env, s1) else s1;
      assert SameCounters(s2.state, s.state);
      ReactEffect(env, total, s2, out, obs.timers);
      assert LoopStep(env, total, pixel, s, obs) == React(env, total, s2, out, obs.timers);
    }
  }

  /** The counters a pause, a halt or a save leave alone. */
  predicate SameCounters(a: BotState, b: BotState)
  {
    && a.currentPixelIndex == b.currentPixelIndex
    && a.placedPixels == b.placedPixels
    && a.skippedPixels == b.skippedPixels
    && a.errorCount == b.errorCount
    && a.totalPixels == b.totalPixels
    && a.progress == b.progress
  }

  /** How each outcome moves the counters; a consistent state stays consistent. */
  lemma ReactEffect(env: Env, total: nat, s: Snapshot, out: Outcome, timers: Timers)
    requires total > 0 && s.state.currentPixelIndex < total
    requires Consistent(s.state, total)
    ensures var s' := React(env, total, s, out, timers);
      && Consistent(s'.state, total)
      && s'.state.currentPixelIndex == s.state.currentPixelIndex +
           (if out.ColorMatches? || out.Placed? || out.AlreadyCorrect? then 1 else 0)
      && s'.state.placedPixels == s.state.placedPixels + (if out.Placed? then 1 else 0)
      && s'.state.errorCount == s.state.errorCount + (if out.Backoff? then 1 else 0)
      && s'.state.totalPixels == s.state.totalPixels
  {
    match out
    case Placed =>
      var a := Advance(s, total, true);
      assert SameCounters(Save(env, a).state, a.state);
    case _ =>
  }

  /** An iteration stops the bot only when the user pressed stop during it. */
  lemma StepKeepsRunning(env: Env, total: nat, pixel: PixelData, s: Snapshot, obs: Observation)
    requires total > 0
    ensures var s' := LoopStep(env, total, pixel, s, obs);
      (s.running && !obs.stop ==> s'.running) &&
      (obs.stop && !Classify(env.checkColors, pixel, obs).ColorMatches? ==> !s'.running)
  {
  }

  /**
   * A stop that lands while a captcha-rejected placement is in flight
   * leaves the bot not running yet showing "running": the captcha wait
   * resolves at once and then restores that status.
   */
  lemma StopDuringCaptchaShowsRunning(env: Env, total: nat, pixel: PixelData, s: Snapshot, obs: Observation)
    requires total > 0
    requires obs.stop && Classify(env.checkColors, pixel, obs) == CaptchaWait
    ensures var s' := LoopStep(env, total, pixel, s, obs);
      !s'.running && s'.state.status == Running
  {
  }

  /** A run keeps the counters consistent, never moves the cursor back, and keeps the total. */
  lemma {:induction false} RunKeepsConsistent(env: Env, pixels: seq<PixelData>, s: Snapshot, trace: seq<Observation>)
    requires Consistent(s.state, |pixels|)
    ensures var r := Run(env, pixels, s, trace);
      && Consistent(r.state, |pixels|)
      && s.state.currentPixelIndex <= r.state.currentPixelIndex
      && r.state.errorCount >= s.state.errorCount
    decreases |trace|
  {
    if s.state.currentPixelIndex < |pixels| && s.running && trace != [] {
      var s' := LoopStep(env, |pixels|, pixels[s.state.currentPixelIndex], s, trace[0]);
      StepEffect(env, |pixels|, pixels[s.state.currentPixelIndex], s, trace[0]);
      if s'.running {
        RunKeepsConsistent(env, pixels, s', trace[1..]);
      }
    } else if s.running && s.state.currentPixelIndex >= |pixels| && |pixels| > 0 {
      ProgressMeaning(|pixels|, |pixels|);
    }
  }

  /** The bot becomes idle only by running off the end: every pixel is then done and progress is 100. */
  lemma {:induction false} IdleOnlyWhenDone(env: Env, pixels: seq<PixelData>, s: Snapshot, trace: seq<Observation>)
    requires Consistent(s.state, |pixels|) && s.state.status != Idle
    ensures var r := Run(env, pixels, s, trace);
      r.state.status == Idle ==>
        !r.running && r.state.currentPixelIndex == |pixels| && r.state.progress == 100
    decreases |trace|
  {
    if s.state.currentPixelIndex < |pixels| && s.running && trace != [] {
      var s' := LoopStep(env, |pixels|, pixels[s.state.currentPixelIndex], s, trace[0]);
      StepEffect(env, |pixels|, pixels[s.state.currentPixelIndex], s, trace[0]);
      assert s'.state.status != Idle;
      if s'.running {
        IdleOnlyWhenDone(env, pixels, s', trace[1..]);
      }
    }
  }

  /** Every placement succeeds and nobody presses stop. */
  predicate Smooth(trace: seq<Observation>)
  {
    forall k :: 0 <= k < |trace| ==> trace[k].result.success && !trace[k].stop
  }

  /**
   * With enough successful placements and no stop, a running bot finishes:
   * it ends idle, not running, with every remaining pixel counted as placed
   * or skipped and progress 100.
   */
  lemma {:induction false} SmoothRunCompletes(env: Env, pixels: seq<PixelData>, s: Snapshot, trace: seq<Observation>)
    requires Consistent(s.state, |pixels|) && s.running
    requires Smooth(trace) && |trace| >= |pixels| - s.state.currentPixelIndex
    ensures var r := Run(env, pixels, s, trace);
      && r.state.status == Idle && !r.running
      && r.state.currentPixelIndex == |pixels| && r.state.progress == 100
      && r.state.placedPixels + r.state.skippedPixels == |pixels|
      && r.state.errorCount == s.state.errorCount
    decreases |trace|
  {
    if s.state.currentPixelIndex < |pixels| {
      var pixel := pixels[s.state.currentPixelIndex];
      var s' := LoopStep(env, |pixels|, pixel, s, trace[0]);
      StepEffect(env, |pixels|, pixel, s, trace[0]);
      StepKeepsRunning(env, |pixels|, pixel, s, trace[0]);
      assert Smooth(trace[1..]) by {
        forall k | 0 <= k < |trace[1..]|
          ensures trace[1..][k].result.success && !trace[1..][k].stop
        {
          assert trace[1..][k] == trace[k + 1];
        }
      }
      SmoothRunCompletes(env, pixels, s', trace[1..]);
    }
  }

  // ------------------------------------------------------------ how acknowledgements are handled

  /** None of the failure messages of known codes mentions a captcha, a cooldown or a correct colour by accident. */
  lemma {:induction false} PlainMessage(m: string)
    requires m in ["Protected pixel", "Invalid canvas", "Invalid coordinates", "Invalid color",
                   "Not logged in", "Pixel score too low", "Proxy detected", "Banned"]
    ensures !Contains(m, "Captcha") && !Contains(m, "Cooldown") && !Contains(m, "already correct color")
  {
    PlainShortMessage(m);
  }

  /** A message shorter than the longest needle, with no 'C' in it, is neutral. */
  lemma PlainShortMessage(m: string)
    requires |m| < |"already correct color"|
    requires forall k :: 0 <= k < |m| ==> m[k] != 'C'
    ensures !Contains(m, "Captcha") && !Contains(m, "Cooldown") && !Contains(m, "already correct color")
  {
    NotContainsWithoutHead(m, "Captcha", 0);
    NotContainsWithoutHead(m, "Cooldown", 0);
    ShorterNotContains(m, "already correct color");
  }

  lemma {:induction false} UnknownCodeMessage(n: nat)
    ensures var m := "Unknown error code: " + NatToString(n);
      !Contains(m, "Captcha") && !Contains(m, "Cooldown") && !Contains(m, "already correct color")
  {
    var d := NatToString(n);
    var m := "Unknown error code: " + d;
    forall k | 0 <= k < |m|
      ensures m[k] != "Captcha"[0] && m[k] != "Cooldown"[0] && m[k] != "already correct color"[0]
    {
      if k >= 20 {
        assert m[k] == d[k - 20];
        assert IsDigit(d[k - 20]);
      }
    }
    NotContainsWithoutHead(m, "Captcha", 0);
    NotContainsWithoutHead(m, "Cooldown", 0);
    NotContainsWithoutHead(m, "already correct color", 0);
  }

  /**
   * How the loop treats each acknowledgement when the cache did not already
   * show the colour: code 0 counts as placed, 10 waits for the captcha, 9
   * waits out the cooldown (two minutes if the server gave no wait), and
   * every other code - a protected pixel included - backs off and retries.
   */
  lemma AckOutcome(a: Ack, checkColors: bool, pixel: PixelData, obs: Observation)
    requires obs.result == AckResult(a)
    requires !(checkColors && obs.currentColor == Some(pixel.color))
    ensures a.retCode == 0 ==> Classify(checkColors, pixel, obs) == Placed
    ensures a.retCode == 10 ==> Classify(checkColors, pixel, obs) == CaptchaWait
    ensures a.retCode == 9 ==>
      Classify(checkColors, pixel, obs) == CooldownWait(if a.waitMs != 0 then a.waitMs else DEFAULT_COOLDOWN_MS)
    ensures a.retCode !in {0, 9, 10} ==> Classify(checkColors, pixel, obs) == Backoff
  {
    if a.retCode == 9 {
      CooldownAck(a, checkColors, pixel, obs);
    } else if a.retCode !in {0, 9, 10} {
      FailedAck(a, checkColors, pixel, obs);
    }
  }

  lemma CooldownAck(a: Ack, checkColors: bool, pixel: PixelData, obs: Observation)
    requires obs.result == AckResult(a) && a.retCode == 9
    requires !(checkColors && obs.currentColor == Some(pixel.color))
    ensures Classify(checkColors, pixel, obs) == CooldownWait(if a.waitMs != 0 then a.waitMs else DEFAULT_COOLDOWN_MS)
  {
    var m := "Cooldown not expired";
    assert AckResult(a).error == Some(m);
    NotContainsWithoutPair(m, "Captcha", 0);
    assert m[..8] == "Cooldown";
    ContainsAt(m, "Cooldown", 0, 0);
  }

  lemma FailedAck(a: Ack, checkColors: bool, pixel: PixelData, obs: Observation)
    requires obs.result == AckResult(a) && a.retCode !in {0, 9, 10}
    requires !(checkColors && obs.currentColor == Some(pixel.color))
    ensures Classify(checkColors, pixel, obs) == Backoff
  {
    var r := AckResult(a);
    if KnownCode(a.retCode) {
      PlainMessage(r.error.value);
    } else {
      UnknownCodeMessage(a.retCode);
    }
  }

  /** Text with no capital C and no "al" mentions neither a captcha, a cooldown nor a correct colour. */
  lemma NeutralText(m: string)
    requires forall k :: 0 <= k < |m| ==> m[k] != 'C'
    requires forall k :: 0 <= k < |m| - 1 ==> !(m[k] == 'a' && m[k + 1] == 'l')
    ensures !Contains(m, "Captcha") && !Contains(m, "Cooldown") && !Contains(m, "already correct color")
  {
    NotContainsWithoutHead(m, "Captcha", 0);
    NotContainsWithoutHead(m, "Cooldown", 0);
    NotContainsWithoutPair(m, "already correct color", 0);
  }

  lemma NotConnectedLacksC(a: string, b: string)
    requires a == "WebSocket not connected." && b == " Please refresh the page."
    ensures forall k :: 0 <= k < |a + b| ==> (a + b)[k] != 'C'
  {
    assert forall k :: 0 <= k < |a| ==> a[k] != 'C';
    assert forall k :: 0 <= k < |b| ==> b[k] != 'C';
    AbsentFromConcat(a, b, 'C');
  }

  lemma NotConnectedLacksAl(a: string, b: string)
    requires a == "WebSocket not connected." && b == " Please refresh the page."
    ensures forall k :: 0 <= k < |a + b| - 1 ==> !((a + b)[k] == 'a' && (a + b)[k + 1] == 'l')
  {
    assert forall k :: 0 <= k < |a| - 1 ==> !(a[k] == 'a' && a[k + 1] == 'l');
    assert forall k :: 0 <= k < |b| - 1 ==> !(b[k] == 'a' && b[k + 1] == 'l');
    PairAbsentFromConcat(a, b, 'a', 'l');
  }

  lemma TimeoutMessage(m: string)
    requires m == "Timeout waiting for response"
    ensures !Contains(m, "Captcha") && !Contains(m, "Cooldown") && !Contains(m, "already correct color")
  {
    assert forall k :: 0 <= k < |m| ==> m[k] != 'C';
    assert forall k :: 0 <= k < |m| - 1 ==> !(m[k] == 'a' && m[k + 1] == 'l');
    NeutralText(m);
  }

  /** The transport's own failure messages mention neither a captcha, a cooldown nor a correct colour. */
  lemma TransportMessageNeutral(m: string)
    requires m == "No canvas info" || m == "WebSocket not connected. Please refresh the page."
             || m == "Timeout waiting for response"
    ensures !Contains(m, "Captcha") && !Contains(m, "Cooldown") && !Contains(m, "already correct color")
  {
    if m == "No canvas info" {
      NoCanvasMessage(m);
    } else if m == "Timeout waiting for response" {
      TimeoutMessage(m);
    } else {
      NotConnectedMessage(m);
    }
  }

  lemma NoCanvasMessage(m: string)
    requires m == "No canvas info"
    ensures !Contains(m, "Captcha") && !Contains(m, "Cooldown") && !Contains(m, "already correct color")
  {
    NotContainsWithoutHead(m, "Captcha", 0);
    NotContainsWithoutHead(m, "Cooldown", 0);
    ShorterNotContains(m, "already correct color");
  }

  lemma NotConnectedMessage(m: string)
    requires m == "WebSocket not connected. Please refresh the page."
    ensures !Contains(m, "Captcha") && !Contains(m, "Cooldown") && !Contains(m, "already correct color")
  {
    var a, b := "WebSocket not connected.", " Please refresh the page.";
    NotConnectedLacksC(a, b);
    NotConnectedLacksAl(a, b);
    assert m == a + b;
    NeutralText(a + b);
  }

  /**
   * Placements that fail before reaching the server - no canvas, no
   * socket, no acknowledgement within the time limit - back off and retry.
   */
  lemma TransportFailureBacksOff(m: string, checkColors: bool, pixel: PixelData, obs: Observation)
    requires m == "No canvas info" || m == "WebSocket not connected. Please refresh the page."
             || m == "Timeout waiting for response"
    requires obs.result == Failure(m)
    requires !(checkColors && obs.currentColor == Some(pixel.color))
    ensures Classify(checkColors, pixel, obs) == Backoff
  {
    TransportMessageNeutral(m);
  }

  // ------------------------------------------------------------ the controller

  class BotController {
    var config: Config
    var state: BotState
    var processedImage: Option<ProcessedImage>
    var running: bool
    var cooldownIntervals: set<int>
    var cooldownTimeouts: set<int>
    var canvas: Option<CanvasInfo>
    /** Whether the stored settings exist, and the progress they hold. */
    var storageItem: bool
    var storedProgress: Option<SavedProgress>

    function Snap(): Snapshot
      reads this
    {
      Snapshot(state, running, cooldownIntervals, cooldownTimeouts, storedProgress)
    }

    function Settings(): Env
      reads this
    {
      Env(!config.skipColorCheck && !config.repairMode, config.imageName,
                     config.coordinates, storageItem, processedImage.Some?)
    }

    /** A fresh controller: default settings, idle, nothing loaded. */
    constructor (storageItem: bool, storedProgress: Option<SavedProgress>)
      ensures config == Config("0_0", "0", LineLtr, "1x1", false, false, true, None, "")
      ensures state == BotState(Idle, 0, 0, 0, 0, 0, 0, 0)
      ensures processedImage.None? && !running && canvas.None?
      ensures cooldownIntervals == {} && cooldownTimeouts == {}
      ensures this.storageItem == storageItem && this.storedProgress == storedProgress
    {
      config := Config("0_0", "0", LineLtr, "1x1", false, false, true, None, "");
      state := BotState(Idle, 0, 0, 0, 0, 0, 0, 0);
      processedImage := None;
      running := false;
      cooldownIntervals := {};
      cooldownTimeouts := {};
      canvas := None;
      this.storageItem := storageItem;
      this.storedProgress := storedProgress;
    }

    /** `updateConfig`. */
    method UpdateConfig(patch: ConfigPatch)
      modifies this`config
      ensures config == Merge(old(config), patch)
    {
      config := Merge(config, patch);
    }

    /** `parseCoordinates`. */
    method ParseCoordinates() returns (r: Option<(int, int)>)
      ensures r == ParseCoordinatesOf(config.coordinates)
    {
      var s := config.coordinates;
      var k := 0;
      while k < |s| && !IsSeparator(s[k])
        invariant k <= |s|
        invariant FirstSeparator(s, 0) == FirstSeparator(s, k)
      {
        k := k + 1;
      }
      if k < |s| && IsSignedDecimal(s[..k]) && IsSignedDecimal(s[k + 1..]) {
        return Some((ParseSigned(s[..k]), ParseSigned(s[k + 1..])));
      }
      return None;
    }

    /** `saveProgress`. */
    method SaveProgress()
      modifies this`storedProgress
      ensures Snap() == Save(Settings(), old(Snap()))
    {
      if processedImage.None? || config.imageName == [] {
        return;
      }
      if storageItem {
        storedProgress := Some(SavedProgress(state.currentPixelIndex, config.imageName, config.coordinates));
      }
    }

    /** `stop`. */
    method Stop()
      modifies this`running, this`cooldownIntervals, this`cooldownTimeouts, this`state, this`storedProgress
      ensures Snap() == Halt(Settings(), old(Snap()))
    {
      running := false;
      cooldownIntervals := {};
      cooldownTimeouts := {};
      state := state.(status := Stopped, cooldown := 0);
      SaveProgress();
    }

    /** `waitForCaptchaResolution`, once it resolves. */
    method WaitForCaptchaResolution(check: int)
      modifies this`cooldownIntervals
      ensures cooldownIntervals == (old(cooldownIntervals) + {check}) - {check}
    {
      cooldownIntervals := cooldownIntervals + {check};
      // the check fires once the captcha is gone or the bot stopped
      cooldownIntervals := cooldownIntervals - {check};
    }

    /** `waitCooldown`, once it settles. */
    method WaitCooldown(ms: int, interval: int, timeout: int)
      modifies this`state, this`cooldownIntervals, this`cooldownTimeouts
      ensures Snap() == CooldownSettle(old(Snap()), ms, interval, timeout)
    {
      if ms <= 0 {
        return;
      }
      cooldownIntervals := cooldownIntervals + {interval};
      cooldownTimeouts := cooldownTimeouts + {timeout};
      if !running && ms >= COOLDOWN_TICK_MS {
        // the interval's first tick sees the bot stopped before the timeout fires
        cooldownIntervals := cooldownIntervals - {interval};
        state := state.(cooldown := 0);
      } else {
        // the timeout fires first: while running, or when due before the first tick
        cooldownIntervals := cooldownIntervals - {interval};
        cooldownTimeouts := cooldownTimeouts - {timeout};
        state := state.(cooldown := 0);
      }
    }

    /** The body of the loop, on the pixel at the cursor. */
    method Iterate(pixel: PixelData, total: nat, obs: Observation)
      requires total > 0
      modifies this`running, this`cooldownIntervals, this`cooldownTimeouts, this`state, this`storedProgress
      ensures Snap() == LoopStep(old(Settings()), total, pixel, old(Snap()), obs)
    {
      if obs.captchaActive {
        state := state.(status := Captcha);
        WaitForCaptchaResolution(obs.timers.check);
        state := state.(status := Running);
      }
      if !config.skipColorCheck && !config.repairMode {
        if obs.currentColor.Some? && obs.currentColor.value == pixel.color {
          var i := state.currentPixelIndex + 1;
          state := state.(currentPixelIndex := i, skippedPixels := state.skippedPixels + 1,
                          progress := Progress(i, total));
          return;
        }
      }
      if obs.stop {
        Stop();
      }
      var _ := Respond(obs.result, total, obs.timers);
    }

    /**
     * The part of the loop body after the placement: the reaction to its
     * result. It returns how long the failure backoff sleeps, 0 when the
     * outcome is not a plain failure; the sleep itself takes no time here.
     */
    method Respond(result: PlaceResult, total: nat, timers: Timers) returns (backoffMs: int)
      requires total > 0
      modifies this`running, this`cooldownIntervals, this`cooldownTimeouts, this`state, this`storedProgress
      ensures Snap() == React(Settings(), total, old(Snap()), ClassifyResult(result), timers)
      ensures backoffMs == if ClassifyResult(result).Backoff? then BackoffMs(state.errorCount) else 0
    {
      backoffMs := 0;
      if result.success {
        var i := state.currentPixelIndex + 1;
        state := state.(currentPixelIndex := i, placedPixels := state.placedPixels + 1,
                        progress := Progress(i, total));
        if i % 10 == 0 {
          SaveProgress();
        }
      } else if result.captcha || ErrorIncludes(result, "Captcha") {
        state := state.(status := Captcha);
        WaitForCaptchaResolution(timers.check);
        state := state.(status := Running);
      } else if ErrorIncludes(result, "Cooldown") {
        var waitTime := if result.waitMs != 0 then result.waitMs else DEFAULT_COOLDOWN_MS;
        WaitCooldown(waitTime, timers.interval, timers.timeout);
      } else if ErrorIncludes(result, "already correct color") {
        var i := state.currentPixelIndex + 1;
        state := state.(skippedPixels := state.skippedPixels + 1, currentPixelIndex := i,
                        progress := Progress(i, total));
      } else {
        var errorCount := state.errorCount + 1;
        state := state.(errorCount := errorCount);
        backoffMs := BackoffMs(errorCount);
      }
    }

    /**
     * `runLoop` over the observations `trace`: nothing happens unless the
     * bot is running with an image and a canvas; otherwise the loop is `Run`.
     */
    method RunLoop(trace: seq<Observation>)
      modifies this`running, this`cooldownIntervals, this`cooldownTimeouts, this`state, this`storedProgress
      ensures !old(running) || processedImage.None? || canvas.None? ==> Snap() == old(Snap())
      ensures old(running) && processedImage.Some? && canvas.Some? ==>
        Snap() == Run(Settings(), processedImage.value.pixels, old(Snap()), trace)
    {
      if !running || processedImage.None? || canvas.None? {
        return;
      }
      var pixels := processedImage.value.pixels;
      var currentIndex := state.currentPixelIndex;
      ghost var env := Settings();
      var k := 0;
      while currentIndex < |pixels| && running && k < |trace|
        invariant k <= |trace|
        invariant currentIndex == state.currentPixelIndex
        invariant Settings() == env
        invariant Run(env, pixels, old(Snap()), trace) == Run(env, pixels, Snap(), trace[k..])
        decreases |trace| - k
      {
        ghost var before := Snap();
        assert trace[k..][0] == trace[k] && trace[k..][1..] == trace[k + 1..];
        Iterate(pixels[currentIndex], |pixels|, trace[k]);
        currentIndex := state.currentPixelIndex;
        k := k + 1;
        if !running {
          break;
        }
      }
      assert k == |trace| ==> trace[k..] == [];
      if running && currentIndex >= |pixels| {
        state := state.(status := Idle, progress := 100);
        running := false;
      }
    }

    /** `initialize`: fetch the account's canvases and select the main canvas. */
    method Initialize(session: Pixmap.Session, meResponse: Option<seq<Pixmap.CanvasEntry>>)
      returns (ok: bool)
      requires session.Valid()
      requires meResponse.Some? ==> Pixmap.AscendingKeys(meResponse.value)
      modifies this`canvas, session`me, session`cachedCanvas, session`cachedCanvasId
      ensures session.Valid()
      ensures meResponse.None? ==> !ok && unchanged(this) && unchanged(session)
      ensures meResponse.Some? ==>
        && session.me == meResponse
        && Pixmap.Selection(session.cachedCanvas, session.cachedCanvasId)
           == Pixmap.SelectCanvas(meResponse, old(session.cachedCanvas), old(session.cachedCanvasId))
        && canvas == session.cachedCanvas
        && (ok <==> canvas.Some?)
    {
      var fetched := session.FetchMe(meResponse);
      if !fetched {
        return false;
      }
      canvas := session.GetMainCanvas();
      ok := canvas.Some?;
    }

    /**
     * `start`, with the saved progress, the account's canvas list should
     * initialisation need to fetch it, and whether this is the pixmap site.
     * It does nothing while running, without an image, or with malformed
     * coordinates. Otherwise, once there is a canvas, it clears the tile
     * cache (not the bot's own overlay), processes the image at the
     * coordinates with the session's palette and, if there are pixels,
     * starts running from the resume index.
     */
    method Start(saved: Option<SavedProgress>, session: Pixmap.Session,
                 meResponse: Option<seq<Pixmap.CanvasEntry>>, pixmapSite: bool)
      requires session.Valid()
      requires meResponse.Some? ==> Pixmap.AscendingKeys(meResponse.value)
      requires config.imageData.Some? ==> WellFormed(config.imageData.value)
      modifies this`processedImage, this`running, this`state, this`canvas
      modifies session`me, session`cachedCanvas, session`cachedCanvasId, session`order, session`tiles
      ensures session.Valid()
      ensures old(running) || config.imageData.None? || ParseCoordinatesOf(config.coordinates).None? ==>
        unchanged(this) && unchanged(session)
      ensures !running ==> state == old(state)
      ensures !old(running) && config.imageData.Some? && ParseCoordinatesOf(config.coordinates).Some? ==>
        && (canvas.None? ==> !running && processedImage == old(processedImage)
                             && session.order == old(session.order) && session.tiles == old(session.tiles))
        && (canvas.Some? ==> Prepared(session, pixmapSite) && (running <==> |processedImage.value.pixels| > 0))
      ensures !old(running) && running ==>
        && Launched(session, pixmapSite)
        && state == Launch(old(state), |processedImage.value.pixels|,
                           ResumeIndex(saved, config, |processedImage.value.pixels|))
    {
      if running {
        return;
      }
      if config.imageData.None? {
        return;
      }
      var coords := ParseCoordinates();
      if coords.None? {
        return;
      }
      if canvas.None? {
        var initialized := Initialize(session, meResponse);
        if !initialized {
          return;
        }
      }
      Prepare(saved, session, pixmapSite, coords.value);
    }

    /**
     * The rest of `start` once the guards have passed: clear the tile cache,
     * process the image at `coords` with the session's palette and, if it
     * has pixels, start running from the resume index with fresh counters.
     */
    method Prepare(saved: Option<SavedProgress>, session: Pixmap.Session, pixmapSite: bool, coords: (int, int))
      requires session.Valid() && !running && canvas.Some?
      requires config.imageData.Some? && WellFormed(config.imageData.value)
      requires ParseCoordinatesOf(config.coordinates) == Some(coords)
      modifies this`processedImage, this`running, this`state
      modifies session`cachedCanvas, session`cachedCanvasId, session`order, session`tiles
      ensures session.Valid()
      ensures Prepared(session, pixmapSite)
      ensures running <==> |processedImage.value.pixels| > 0
      ensures !running ==> state == old(state)
      ensures running ==>
        && Launched(session, pixmapSite)
        && state == Launch(old(state), |processedImage.value.pixels|,
                           ResumeIndex(saved, config, |processedImage.value.pixels|))
    {
      session.ClearChunkCache();
      var colors := session.GetCanvasColors(pixmapSite);
      var processed := ProcessConfigured(config, coords, colors);
      processedImage := Some(processed);
      PreparedIntro(session, pixmapSite, colors);
      if |processed.pixels| == 0 {
        return;
      }
      var total := |processed.pixels|;
      var startIndex := ResumeIndex(saved, config, total);
      running := true;
      state := Launch(state, total, startIndex);
    }

    lemma PreparedIntro(session: Pixmap.Session, pixmapSite: bool, colors: seq<Rgb>)
      requires session.order == [] && session.tiles == map[] && processedImage.Some?
      requires colors == Pixmap.CanvasColors(pixmapSite, session.cachedCanvas)
      requires ProcessedFrom(config, processedImage.value, colors)
      ensures Prepared(session, pixmapSite)
    {
    }

    /**
     * What `start` leaves once its guards have passed and there is a
     * canvas: an empty tile cache and the configured image, processed at
     * the configured coordinates with the palette `getCanvasColors` gives
     * for the selected canvas.
     */
    ghost predicate Prepared(session: Pixmap.Session, pixmapSite: bool)
      reads this, session
    {
      && session.order == [] && session.tiles == map[]
      && processedImage.Some?
      && ProcessedFrom(config, processedImage.value, Pixmap.CanvasColors(pixmapSite, session.cachedCanvas))
    }

    /** What a successful start establishes: a canvas and a prepared, non-empty image. */
    ghost predicate Launched(session: Pixmap.Session, pixmapSite: bool)
      reads this, session
    {
      && canvas.Some?
      && Prepared(session, pixmapSite)
      && |processedImage.value.pixels| > 0
    }
  }

  /**
   * `out` is `processImage` of the configured image at the configured
   * coordinates with palette `colors`: empty for an empty palette, else of
   * the image's size with its quantised pixels ordered by the configured
   * strategy.
   */
  ghost predicate ProcessedFrom(config: Config, out: ProcessedImage, colors: seq<Rgb>)
  {
    && config.imageData.Some? && WellFormed(config.imageData.value)
    && ParseCoordinatesOf(config.coordinates).Some?
    && var c := ParseCoordinatesOf(config.coordinates).value;
       var img := config.imageData.value;
       && (|colors| == 0 ==> out == ProcessedImage(0, 0, []))
       && (|colors| > 0 ==>
             && out.width == img.width && out.height == img.height
             && Arranged(config.strategy, Box(c.0, c.1, img.width, img.height), Quantized(img, colors, c.0, c.1), out.pixels))
  }

  /** The `processImage` call of `start`: the configured image at the parsed coordinates. */
  method ProcessConfigured(config: Config, coords: (int, int), colors: seq<Rgb>) returns (out: ProcessedImage)
    requires config.imageData.Some? && WellFormed(config.imageData.value)
    requires ParseCoordinatesOf(config.coordinates) == Some(coords)
    ensures ProcessedFrom(config, out, colors)
  {
    out := ProcessImage(config.imageData.value, coords.0, coords.1, config.strategy, colors);
  }
}

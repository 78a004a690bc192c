/**
 * Detect-and-click automation (core/automation.py).
 *
 * The detector and the mouse are not modelled. What the k-th attempt
 * (counted from 0) of `find_and_click` sees is `observe(k)`: the
 * `DetectionResult` the detector returns and whether the click at its centre
 * would succeed. The sleeps between attempts, the log messages and the
 * `on_found` callback are left out.
 */
module Automation {
  import opened Wrappers
  import opened Detector

  /** `BEHAVIOR_CONFIG["max_retries"]` in Image_Clicker/config/settings.py. */
  const DefaultMaxRetries: int := 100

  /** `max_retries or BEHAVIOR_CONFIG["max_retries"]`: `None` and `0` are falsy. */
  function EffectiveMaxRetries(requested: Option<int>): (r: int)
    ensures requested == None || requested == Some(0) ==> r == DefaultMaxRetries
    ensures requested.Some? && requested.value != 0 ==> r == requested.value
    ensures r != 0
  {
    if requested.Some? && requested.value != 0 then requested.value else DefaultMaxRetries
  }

  /** What one attempt sees: the detection and the outcome of clicking its centre. */
  datatype Observation = Observation(detection: DetectionResult, clickOk: bool)

  /** An attempt ends the search: found, with a centre, and the click went through. */
  predicate Succeeds(o: Observation)
    ensures Succeeds(o) <==>
      o.detection.found && o.detection.x.Some? && o.detection.y.Some? && o.clickOk
  {
    o.detection.found && Center(o.detection).Some? && o.clickOk
  }

  /** `AutomationResult`; its human-readable `message` is left out. */
  datatype AutomationResult = AutomationResult(
    success: bool,
    detection: Option<DetectionResult>,
    clickedAt: Option<(int, int)>,
    attempts: int)

  /** The number of attempts `find_and_click` makes when none of them succeeds. */
  function AttemptBudget(maxRetries: int, waitForImage: bool): (n: nat)
    ensures n <= maxRetries || n == 0
    ensures waitForImage && maxRetries >= 0 ==> n == maxRetries
    ensures !waitForImage ==> n == (if maxRetries > 0 then 1 else 0)
  {
    var bound := if maxRetries < 0 then 0 else maxRetries;
    if waitForImage || bound == 0 then bound else 1
  }

  /** One `find_and_click(..., wait_for_image=False)` call of continuous mode succeeds. */
  predicate CallSucceeds(maxRetries: int, o: Observation)
    // the call gets exactly one attempt, and that attempt succeeds
    ensures CallSucceeds(maxRetries, o) <==> AttemptBudget(maxRetries, false) == 1 && Succeeds(o)
  {
    maxRetries > 0 && Succeeds(o)
  }

  /** The number of successful calls among `rounds`. */
  function Clicks(maxRetries: int, rounds: seq<Observation>): (n: nat)
    ensures n <= |rounds|
  {
    if rounds == [] then 0
    else
      var last := if CallSucceeds(maxRetries, rounds[|rounds| - 1]) then 1 else 0;
      Clicks(maxRetries, rounds[..|rounds| - 1]) + last
  }

  /** A continuous run never counts more clicks than its longer continuations do. */
  lemma {:induction false} ClicksMonotone(maxRetries: int, rounds: seq<Observation>, j: nat)
    requires j <= |rounds|
    ensures Clicks(maxRetries, rounds[..j]) <= Clicks(maxRetries, rounds)
    decreases |rounds|
  {
    if j < |rounds| {
      var shorter := rounds[..|rounds| - 1];
      assert shorter[..j] == rounds[..j];
      ClicksMonotone(maxRetries, shorter, j);
    } else {
      assert rounds[..j] == rounds;
    }
  }

  /** With a non-positive `max_retries` no call makes an attempt, so nothing is clicked. */
  lemma {:induction false} NoRetriesNoClicks(maxRetries: int, rounds: seq<Observation>)
    requires maxRetries <= 0
    ensures Clicks(maxRetries, rounds) == 0
    decreases |rounds|
  {
    if rounds != [] {
      NoRetriesNoClicks(maxRetries, rounds[..|rounds| - 1]);
    }
  }

  /**
   * With `ImageDetector.detect` as the detector, a found detection always has
   * a centre: an attempt succeeds exactly when the image is located and the
   * click goes through.
   */
  lemma DetectorAttemptSucceeds(confidence: real, location: Option<Box>, clickOk: bool)
    ensures Succeeds(Observation(Detect(confidence, location), clickOk)) <==> location.Some? && clickOk
  {
    if location.Some? {
      DetectedCenter(confidence, location.value);
    }
  }

  /** `stop_after_clicks and clicks_count >= stop_after_clicks`: `None` and `0` never stop. */
  predicate LimitReached(stopAfterClicks: Option<int>, clicks: int)
    ensures stopAfterClicks == None || stopAfterClicks == Some(0) ==> !LimitReached(stopAfterClicks, clicks)
    ensures stopAfterClicks.Some? && stopAfterClicks.value > 0 ==>
      (LimitReached(stopAfterClicks, clicks) <==> clicks >= stopAfterClicks.value)
    // a negative limit is truthy and already reached by any count
    ensures stopAfterClicks.Some? && stopAfterClicks.value < 0 && clicks >= 0 ==> LimitReached(stopAfterClicks, clicks)
  {
    stopAfterClicks.Some? && stopAfterClicks.value != 0 && clicks >= stopAfterClicks.value
  }

  class ImageClickAutomation {
    const maxRetries: int
    var running: bool

    /** `__init__`: only the `max_retries` defaulting is modelled. */
    constructor (maxRetries: Option<int>)
      ensures this.maxRetries == EffectiveMaxRetries(maxRetries)
      ensures !running
    {
      this.maxRetries := EffectiveMaxRetries(maxRetries);
      running := false;
    }

    /** `find_and_click`: retry until a detection is found, centred and clicked. */
    method FindAndClick(observe: nat -> Observation, waitForImage: bool) returns (result: AutomationResult)
      ensures 0 <= result.attempts <= AttemptBudget(maxRetries, waitForImage)
      ensures result.success <==>
        exists k :: 0 <= k < AttemptBudget(maxRetries, waitForImage) && Succeeds(observe(k))
      // success: the first attempt where detection, centre and click all held
      ensures result.success ==>
        && 1 <= result.attempts
        && Succeeds(observe(result.attempts - 1))
        && (forall k :: 0 <= k < result.attempts - 1 ==> !Succeeds(observe(k)))
        && result.detection == Some(observe(result.attempts - 1).detection)
        && result.clickedAt.Some?
        && result.clickedAt == Center(observe(result.attempts - 1).detection)
      // failure: every allowed attempt was made and none succeeded
      ensures !result.success ==>
        && result.detection == None
        && result.clickedAt == None
        && result.attempts == AttemptBudget(maxRetries, waitForImage)
        && forall k :: 0 <= k < result.attempts ==> !Succeeds(observe(k))
    {
      var attempts := 0;
      while attempts < maxRetries
        invariant 0 <= attempts <= AttemptBudget(maxRetries, true)
        invariant !waitForImage ==> attempts == 0
        invariant forall k :: 0 <= k < attempts ==> !Succeeds(observe(k))
      {
        attempts := attempts + 1;
        var seen := observe(attempts - 1);
        var detection := seen.detection;
        if detection.found {
          var center := Center(detection);
          if center.Some? {
            var clickSuccess := seen.clickOk;
            if clickSuccess {
              return AutomationResult(true, Some(detection), center, attempts);
            }
          }
        }
        if !waitForImage {
          break;
        }
      }
      result := AutomationResult(false, None, None, attempts);
    }

    /**
     * `find_and_click_continuous`. The loop runs while `running` holds; a
     * `stop()` from elsewhere or a keyboard interrupt is modelled by the end
     * of `rounds`, one observation per call. `calls` is the number of calls made.
     */
    method FindAndClickContinuous(rounds: seq<Observation>, stopAfterClicks: Option<int>)
      returns (clicks: nat, calls: nat)
      modifies this
      ensures !running
      ensures calls <= |rounds|
      ensures clicks == Clicks(maxRetries, rounds[..calls])
      // the loop stops early only right after the click that reaches the limit
      ensures calls == |rounds| ||
        (0 < calls && CallSucceeds(maxRetries, rounds[calls - 1]) && LimitReached(stopAfterClicks, clicks))
      ensures forall j :: 0 < j < calls ==>
        !(CallSucceeds(maxRetries, rounds[j - 1]) && LimitReached(stopAfterClicks, Clicks(maxRetries, rounds[..j])))
      ensures stopAfterClicks.Some? && stopAfterClicks.value > 0 ==> clicks <= stopAfterClicks.value
    {
      running := true;
      clicks, calls := 0, 0;
      while running && calls < |rounds|
        invariant running
        invariant calls <= |rounds|
        invariant clicks == Clicks(maxRetries, rounds[..calls])
        invariant forall j :: 0 < j <= calls ==>
          !(CallSucceeds(maxRetries, rounds[j - 1]) && LimitReached(stopAfterClicks, Clicks(maxRetries, rounds[..j])))
        invariant stopAfterClicks.Some? && stopAfterClicks.value > 0 ==> clicks < stopAfterClicks.value
      {
        var seen := rounds[calls];
        var result := FindAndClick((k: nat) => seen, false);
        assert result.success <==> CallSucceeds(maxRetries, seen) by {
          if maxRetries > 0 && Succeeds(seen) {
            assert Succeeds(((k: nat) => seen)(0));
          }
        }
        assert rounds[..calls + 1][..calls] == rounds[..calls];
        calls := calls + 1;
        if result.success {
          clicks := clicks + 1;
          if LimitReached(stopAfterClicks, clicks) {
            break;
          }
        }
      }
      running := false;
    }

    /** `stop`: ask the continuous loop to end. */
    method Stop()
      modifies this
      ensures !running
    {
      running := false;
    }
  }
}

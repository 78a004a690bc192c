/**
 * Pixel colour matching (core/pixel_detector.py).
 *
 * A `PixelCondition` names a screen position, the RGB colour expected there
 * and a per-channel tolerance. `Check` reads one colour per condition and
 * combines the per-condition answers in one of two modes. The screen is not
 * modelled: the colours `pyautogui.pixel` would return are an input sequence
 * aligned with the conditions.
 */
module PixelDetector {

  /** An RGB colour, channels indexed 0 (red), 1 (green), 2 (blue). */
  datatype Rgb = Rgb(r: int, g: int, b: int) {
    function Channel(i: nat): int
      requires i < 3
    {
      if i == 0 then r else if i == 1 then g else b
    }
  }

  /** The expected colour at (x, y); `tolerance` applies to each channel. */
  datatype PixelCondition = PixelCondition(x: int, y: int, expected: Rgb, tolerance: int)

  /** The library default for `tolerance`. */
  const DefaultTolerance: int := 10

  function Abs(n: int): (r: nat)
    ensures r == n || r == -n
  {
    if n < 0 then -n else n
  }

  /** One channel of `actual` lies within `c.tolerance` of the expected one. */
  predicate ChannelWithin(c: PixelCondition, actual: Rgb, i: nat)
    requires i < 3
  {
    Abs(actual.Channel(i) - c.expected.Channel(i)) <= c.tolerance
  }

  /**
   * `matches`: every channel of `actual` is within `c.tolerance` of the
   * expected one, that is |actual[i] - expected[i]| <= tolerance for i = 0, 1, 2.
   */
  predicate Matches(c: PixelCondition, actual: Rgb)
    ensures Matches(c, actual) <==>
      && Abs(actual.r - c.expected.r) <= c.tolerance
      && Abs(actual.g - c.expected.g) <= c.tolerance
      && Abs(actual.b - c.expected.b) <= c.tolerance
  {
    // name the three channel tests so that the quantifier below is instantiated at them
    assert ChannelWithin(c, actual, 0) <==> Abs(actual.r - c.expected.r) <= c.tolerance;
    assert ChannelWithin(c, actual, 1) <==> Abs(actual.g - c.expected.g) <= c.tolerance;
    assert ChannelWithin(c, actual, 2) <==> Abs(actual.b - c.expected.b) <= c.tolerance;
    forall i | 0 <= i < 3 :: ChannelWithin(c, actual, i)
  }

  /** A condition built without a tolerance gets the default one, and its own colour matches it. */
  function DefaultCondition(x: int, y: int, expected: Rgb): (c: PixelCondition)
    ensures c.x == x && c.y == y && c.expected == expected
    ensures c.tolerance == DefaultTolerance
    ensures Matches(c, expected)
  {
    PixelCondition(x, y, expected, DefaultTolerance)
  }

  /** A colour is always within a non-negative tolerance of itself. */
  lemma MatchesItself(c: PixelCondition)
    requires c.tolerance >= 0
    ensures Matches(c, c.expected)
  {
  }

  /** With a negative tolerance no colour matches, not even the expected one. */
  lemma NegativeToleranceMatchesNothing(c: PixelCondition, actual: Rgb)
    requires c.tolerance < 0
    ensures !Matches(c, actual)
  {
  }

  /** Swapping the sampled and the expected colour does not change the answer. */
  lemma MatchesSymmetric(c: PixelCondition, actual: Rgb)
    ensures Matches(c, actual) <==> Matches(c.(expected := actual), c.expected)
  {
  }

  /** What `check` returns: a position, `None`, or the `IndexError` it raises. */
  datatype CheckResult = Hit(x: int, y: int) | Miss | IndexError

  /**
   * `PixelDetector.check`. `colors[i]` is the colour read at
   * `conditions[i]`'s position; `sampled` is how many pixels were read.
   */
  method Check(conditions: seq<PixelCondition>, colors: seq<Rgb>, requireAll: bool)
    returns (result: CheckResult, sampled: nat)
    requires |colors| == |conditions|
    ensures sampled <= |conditions|
    // first match wins: the first matching condition in list order, or None
    ensures !requireAll ==> result != IndexError
    ensures !requireAll && result.Hit? ==>
      && 0 < sampled
      && Matches(conditions[sampled - 1], colors[sampled - 1])
      && result == Hit(conditions[sampled - 1].x, conditions[sampled - 1].y)
      && forall j :: 0 <= j < sampled - 1 ==> !Matches(conditions[j], colors[j])
    ensures !requireAll && !result.Hit? ==>
      && sampled == |conditions|
      && forall j :: 0 <= j < |conditions| ==> !Matches(conditions[j], colors[j])
    // all must match: the first condition's position exactly when every one matches
    ensures requireAll ==> sampled == |conditions|
    ensures requireAll && |conditions| == 0 ==> result == IndexError
    ensures requireAll && |conditions| > 0 ==>
      && result != IndexError
      && (result == Hit(conditions[0].x, conditions[0].y) <==>
            forall j :: 0 <= j < |conditions| ==> Matches(conditions[j], colors[j]))
      && (result.Hit? ==> result == Hit(conditions[0].x, conditions[0].y))
  {
    var matches: seq<PixelCondition> := [];
    var i := 0;
    while i < |conditions|
      invariant 0 <= i <= |conditions|
      invariant |matches| <= i
      invariant |matches| == i <==> forall j :: 0 <= j < i ==> Matches(conditions[j], colors[j])
      invariant !requireAll ==> forall j :: 0 <= j < i ==> !Matches(conditions[j], colors[j])
    {
      var condition := conditions[i];
      var pixelColor := colors[i];
      if Matches(condition, pixelColor) {
        matches := matches + [condition];
        if !requireAll {
          return Hit(condition.x, condition.y), i + 1;
        }
      }
      i := i + 1;
    }
    sampled := i;
    if requireAll && |matches| == |conditions| {
      if |conditions| == 0 {
        // `self.conditions[0]` on an empty list
        return IndexError, sampled;
      }
      return Hit(conditions[0].x, conditions[0].y), sampled;
    }
    result := Miss;
  }
}

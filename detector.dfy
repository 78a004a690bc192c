/**
 * Image detection results (core/detector.py).
 *
 * `pyautogui.locateOnScreen` is not modelled: its answer is an optional
 * `Box` supplied by the caller, `None` standing both for "no match" and for
 * the `ImageNotFoundException` that `detect` turns into "not found".
 */
module Detector {
  import opened Wrappers

  /** The box `locateOnScreen` reports: left, top, width, height in pixels. */
  datatype Box = Box(left: int, top: int, width: int, height: int)

  /** `DetectionResult`: every field but `found` is optional. */
  datatype DetectionResult = DetectionResult(
    found: bool,
    x: Option<int>,
    y: Option<int>,
    width: Option<int>,
    height: Option<int>,
    confidence: Option<real>)

  /** `DetectionResult(found=False)`: every other field keeps its default `None`. */
  const NotFound: DetectionResult := DetectionResult(false, None, None, None, None, None)

  /** Python's `n or 0` on an optional integer: `None` and `0` both give `0`. */
  function OrZero(n: Option<int>): (r: int)
    ensures n.None? ==> r == 0
    ensures n.Some? ==> r == n.value
  {
    n.GetOr(0)
  }

  /** `DetectionResult.center`; `//` by 2 is `/` by 2 (see `HalvingAgrees`). */
  function Center(d: DetectionResult): (r: Option<(int, int)>)
    ensures r.None? <==> !d.found || d.x.None? || d.y.None?
    // each coordinate is the floor midpoint of its extent (absent extents are 0)
    ensures r.Some? ==>
      && 2 * (r.value.0 - d.x.value) <= OrZero(d.width) < 2 * (r.value.0 - d.x.value) + 2
      && 2 * (r.value.1 - d.y.value) <= OrZero(d.height) < 2 * (r.value.1 - d.y.value) + 2
  {
    if d.found && d.x.Some? && d.y.Some? then
      Some((d.x.value + OrZero(d.width) / 2, d.y.value + OrZero(d.height) / 2))
    else
      None
  }

  /** With non-negative extents the centre lies inside the detected box. */
  lemma CenterInsideBox(d: DetectionResult)
    requires Center(d).Some?
    requires OrZero(d.width) >= 0 && OrZero(d.height) >= 0
    ensures d.x.value <= Center(d).value.0 <= d.x.value + OrZero(d.width)
    ensures d.y.value <= Center(d).value.1 <= d.y.value + OrZero(d.height)
  {
  }

  /** The located-box-to-result step of `ImageDetector.detect`. */
  function Detect(confidence: real, location: Option<Box>): (r: DetectionResult)
    ensures r.found <==> location.Some?
    ensures location.None? ==> r == NotFound
    ensures location.Some? ==>
      && r.x == Some(location.value.left) && r.y == Some(location.value.top)
      && r.width == Some(location.value.width) && r.height == Some(location.value.height)
      && r.confidence == Some(confidence)
  {
    match location
    case None => NotFound
    case Some(box) =>
      DetectionResult(true, Some(box.left), Some(box.top), Some(box.width), Some(box.height), Some(confidence))
  }

  /** The box a result describes, when it is found and carries all four coordinates. */
  function BoxOf(d: DetectionResult): (r: Option<Box>)
    ensures r.Some? ==> d.found && d.x == Some(r.value.left) && d.y == Some(r.value.top)
    ensures r.Some? ==> d.width == Some(r.value.width) && d.height == Some(r.value.height)
  {
    if d.found && d.x.Some? && d.y.Some? && d.width.Some? && d.height.Some? then
      Some(Box(d.x.value, d.y.value, d.width.value, d.height.value))
    else
      None
  }

  /** `detect` loses nothing: the box can be read back from the result. */
  lemma DetectRoundTrip(confidence: real, location: Option<Box>)
    ensures BoxOf(Detect(confidence, location)) == location
  {
  }

  /** A found detection always has a centre, the midpoint of the located box. */
  lemma DetectedCenter(confidence: real, box: Box)
    ensures Center(Detect(confidence, Some(box))) ==
      Some((box.left + box.width / 2, box.top + box.height / 2))
  {
  }

  /**
   * Dafny's `/` by 2 rounds towards minus infinity for every integer, as
   * Python's `//` does, so `center` can halve with `/`.
   */
  lemma HalvingAgrees(n: int)
    ensures 2 * (n / 2) <= n < 2 * (n / 2) + 2
    ensures n < 0 && n % 2 != 0 ==> n / 2 < -((-n) / 2)
  {
  }
}

# Image_Clicker automation core, modelled in Dafny

Image_Clicker is a screen-automation tool: it watches the screen for an image
or for pixels of given colours and clicks where they appear. This project
models the integer logic at its core, with the screen, the mouse and the
clock replaced by inputs:

- `pixel_detector.dfy` (module `PixelDetector`): `PixelCondition.matches`, the
  per-channel RGB tolerance test, and `PixelDetector.check`, which combines
  the conditions either as "first match wins" or as "all must match". The
  colours `pyautogui.pixel` would return are a sequence aligned with the
  conditions. The `IndexError` that `check` raises for an empty list under
  `require_all=True` is the result `IndexError`.
- `detector.dfy` (module `Detector`): `DetectionResult`, its `center`
  property (Python's `//` by 2, which is Dafny's `/` by 2), and the step of
  `ImageDetector.detect` that turns a located box (`Option<Box>`, `None`
  when nothing was found or the library raised `ImageNotFoundException`)
  into a result.
- `automation.dfy` (module `Automation`): the `max_retries` defaulting of
  `ImageClickAutomation.__init__`, the bounded retry loop of
  `find_and_click` and the click-counting loop of
  `find_and_click_continuous`, as a class whose `running` field is the
  source's `_running`. What each attempt sees (the detection and whether
  the click succeeded) comes from an oracle `observe: nat -> Observation`;
  an arbitrary detection is allowed because the automation accepts any
  detector object. `DetectorAttemptSucceeds` covers the default detector.
- `wrappers.dfy` (module `Wrappers`): `Option`, standing for Python's
  `Optional`.

Python's truthiness is spelled out: `max_retries or 100` replaces `None`
and `0` and keeps every other value, negative ones included. A negative
`max_retries` therefore gives zero attempts, and the contracts bound
`attempts` by `max(max_retries, 0)`. A negative `stop_after_clicks` is
truthy too, so continuous mode stops after its first click.

The repository also holds coursework under
`Desarrollo_2026_Verano/Programacion 3/` (minimum spanning trees, Dijkstra,
recurrences, a PDF reader). That coursework is not part of this model.

## Model

| member | source | states |
|---|---|---|
| `PixelDetector.Matches` | core/pixel_detector.py:18-23 | a colour matches exactly when each of its three channels differs from the expected one by at most the tolerance |
| `PixelDetector.DefaultCondition` | core/pixel_detector.py:10-16 | a condition given no tolerance gets the default of 10, and its own colour matches it |
| `PixelDetector.MatchesItself` | core/pixel_detector.py:20-23 | with a non-negative tolerance the expected colour matches itself |
| `PixelDetector.NegativeToleranceMatchesNothing` | core/pixel_detector.py:20-23 | with a negative tolerance no colour matches |
| `PixelDetector.MatchesSymmetric` | core/pixel_detector.py:21 | swapping the sampled and the expected colour leaves the answer unchanged |
| `PixelDetector.Check` | core/pixel_detector.py:39-67 | first-match mode returns the position of the first matching condition in list order after reading exactly the pixels up to it, or `None` after reading all; all-match mode reads every pixel and returns the first condition's position exactly when every condition matches, `None` otherwise, and the `IndexError` for an empty list |
| `Detector.OrZero` | core/detector.py:27-28 | `width or 0`: an absent extent counts as 0 |
| `Detector.HalvingAgrees` | core/detector.py:27-28 | Dafny's `/` by 2 is the floor quotient, as Python's `//` by 2 is, for every integer (it differs from truncation on negative odd numbers) |
| `Detector.Center` | core/detector.py:22-30 | the centre is `None` exactly when the result is not found or lacks `x` or `y`; otherwise each coordinate is the floor midpoint of its extent, absent extents counting as 0 |
| `Detector.CenterInsideBox` | core/detector.py:25-29 | with non-negative width and height the centre lies in the box `[x, x+w] × [y, y+h]` |
| `Detector.Detect` | core/detector.py:75-88 | a located box gives a found result carrying its left, top, width, height and the detector's confidence; no box gives `found=False` with every other field `None` |
| `Detector.DetectRoundTrip` | core/detector.py:75-85 | the located box can be read back from the result `detect` builds, and no box reads back as none |
| `Detector.DetectedCenter` | core/detector.py:75-83 | a detected box always has a centre, the midpoint of the box |
| `Automation.EffectiveMaxRetries` | core/automation.py:47 | `None` and `0` become the configured default of 100 (Image_Clicker/config/settings.py line 22); every other value is kept |
| `Automation.AttemptBudget` | core/automation.py:72-106 | the attempts made without success: `max_retries` when waiting (0 if it is negative), at most one when not waiting; never more than `max_retries` unless 0 |
| `Automation.Succeeds` | core/automation.py:80-103 | an attempt ends the search exactly when the detection is found, has both `x` and `y` (so a centre) and the click succeeds |
| `Automation.CallSucceeds` | core/automation.py:142-148 | a `wait_for_image=False` call succeeds exactly when it gets its single attempt and that attempt succeeds |
| `Automation.LimitReached` | core/automation.py:152 | `None` and 0 never stop the loop; a positive limit stops it once the count reaches it; a negative one is truthy and reached by any count |
| `Automation.Clicks` | core/automation.py:148-149 | the click counter never exceeds the number of calls |
| `Automation.ClicksMonotone` | core/automation.py:148-149 | more calls never mean fewer clicks |
| `Automation.NoRetriesNoClicks` | core/automation.py:74 | with a non-positive `max_retries` no call attempts anything, so continuous mode clicks nothing |
| `Automation.DetectorAttemptSucceeds` | core/automation.py:80-95 | with the default detector an attempt succeeds exactly when the image is located and the click succeeds |
| `Automation.ImageClickAutomation.constructor` | core/automation.py:28-50 | `max_retries` is defaulted as above and `_running` starts false |
| `Automation.ImageClickAutomation.FindAndClick` | core/automation.py:52-116 | success happens exactly when some allowed attempt finds the image, has a centre and clicks it; then `attempts` is the 1-based index of the first such attempt, the detection is that attempt's and `clicked_at` its centre; a failure has no detection, no `clicked_at`, and `attempts` equals the full budget with no attempt succeeding; a found result without a centre or with a failed click does not end the loop |
| `Automation.ImageClickAutomation.FindAndClickContinuous` | core/automation.py:118-162 | the count is the number of successful calls made; the loop ends early only right after the click that first reaches a truthy `stop_after_clicks`; a positive limit is never exceeded; `_running` is false on return |
| `Automation.ImageClickAutomation.Stop` | core/automation.py:164-167 | `_running` becomes false |

## Left out

- Every pyautogui call (`locateOnScreen`, `locateAllOnScreen`, `pixel`, `position`, `click`, `doubleClick`, `moveTo`, `size`): foreign screen and mouse libraries; their answers are inputs (colour sequences, optional boxes, click outcomes).
- `ImageDetector.detect_all`: its loop walks a generator of the foreign library; each element is mapped as `Detect` maps one box.
- `ImageDetector.__init__` defaulting of `confidence`, `grayscale` and `region`: floating-point and library configuration; `Detect` takes the confidence as a parameter.
- `FileNotFoundError` raised by `detect` and `detect_all` when the image file is missing: filesystem I/O.
- `time.sleep`, `scan_interval`, `click_delay`, `click_duration`: timing.
- The `on_found` callback of `find_and_click`: caller code that the model cannot see.
- `AutomationResult.message` and every log call: text for humans.
- `stop()` called while the continuous loop runs, and the `KeyboardInterrupt` handler: concurrency and interrupts; the model ends the loop when the sequence of per-call observations ends.
- `PixelDetector.get_pixel_color`, `PixelDetector.get_mouse_position_and_color`, `pyautogui.FAILSAFE`: direct library calls.
- core/clicker.py, core/window.py, main.py, Image_Clicker/tools/identify_pixels.py, Image_Clicker/utils/logger.py: wrappers over mouse, window and logging libraries and interactive scripts.

# Corner rounding of the Image Round Edges plugin, modelled in Dafny

The plugin rounds the corners of images embedded in a note. The Python
script `round_image.py` does this for one image, run as a command. Its smoke
test `test_border.py` (lines 43-70) runs it as a subprocess. The script opens
the image and works out the corner radius in pixels from the image's size, the
requested radius value and its unit. It then draws a rounded-rectangle alpha
mask with that radius and saves the image as PNG. It reports success by
printing `SUCCESS` and failure by exit status 1.

This project models the two parts of that script that are logic rather than
library calls:

- `radius.dfy`, module `Radius`: the radius arithmetic. The smaller dimension
  is the base; the unit `percent` scales the value by the base, and every
  other unit is pixels. The result is clamped to at most half the base and to
  at least zero. It is then truncated to an integer for the mask.
- `script.dfy`, module `Script`: the `round_image` routine over an abstract
  image store, and the command-line contract of the `__main__` block. That
  contract is: exactly four arguments after the program name; `SUCCESS` on
  standard output when the routine returns; exit status 1 on a wrong argument
  count, on a radius argument that does not parse, and on any exception raised
  by the routine, which gets an `ERROR: ` line on standard error.

Python floats are modelled as exact reals. Python's `int()` is modelled as
truncation toward zero. The radius is never negative at that point, so this
equals the floor. Opening and saving images are given outcomes per path
(`ImageStore`). Python's `float()` on the radius argument is a given parser
(`parseFloat`), `None` where it raises.

Two points about the script's interface; the model follows the script:

- The smoke test `test_border.py` (lines 43-63) invokes the script with eight
  further effect arguments after the four radius-only ones: shadow enabled,
  colour, blur and offset, then border enabled, colour, width and style.
  The script rejects every argument count but four, so each of these
  invocations exits with status 1. `Script.EffectInvocationRejected` states
  the outcome for one of them.
- The script recognises only the unit token `percent`. Every other token,
  `px` included, is taken as pixels.

## Model

| member | source | states |
|---|---|---|
| Radius.BaseDimension | round_image.py:18 | the base is the smaller of width and height: at most each, and equal to one of them |
| Radius.MaxRadius | round_image.py:19 | the largest radius is non-negative and twice it is the smaller dimension |
| Radius.RequestedPixelIsValue | round_image.py:23-24 | before clamping, every unit other than `percent` asks for the value itself, in pixels |
| Radius.RequestedPercentScales | round_image.py:21-22 | before clamping, with unit `percent`, 100 times the request is the value times min(w,h) |
| Radius.Min | round_image.py:26 | Python's `min` of two numbers: at most each, equal to one of them, the first on a tie |
| Radius.Max | round_image.py:27 | Python's `max` of two numbers: at least each, equal to one of them, the first on a tie |
| Radius.RequestedMonotone | round_image.py:21-24 | for a fixed size and unit, a larger value never asks for a smaller radius |
| Radius.ComputeRadius | round_image.py:18-27 | the radius lies in [0, min(w,h)/2]; a request already in that range is returned unchanged, a larger one gives min(w,h)/2, a negative one gives 0 |
| Radius.TruncateTowardZero | round_image.py:34 | Python's `int()`: for non-negative x the largest integer not above x, for negative x the smallest integer not below x |
| Radius.RadiusInt | round_image.py:34 | the mask's integer radius lies between 0 and floor(min(w,h)/2), is at most the real radius, is less than one below it, and is its floor |
| Radius.RadiusSymmetric | round_image.py:18-27 | swapping width and height does not change the radius |
| Radius.PercentAtLeastHalfIsMax | round_image.py:21-26 | with unit `percent`, 50 or more gives exactly half the smaller dimension |
| Radius.PercentInRangeUnclamped | round_image.py:21-27 | with unit `percent`, a value in [0, 50] gives value / 100 * min(w,h) unchanged by the clamps |
| Radius.PixelInRangeUnchanged | round_image.py:23-27 | with any unit other than `percent`, a value in [0, min(w,h)/2] is returned unchanged |
| Radius.PercentIsScaledPixels | round_image.py:21-24 | a percent request gives the same radius as the pixel request value / 100 * min(w,h) |
| Radius.NegativeYieldsZero | round_image.py:21-27 | a negative value in any unit gives radius 0 |
| Radius.ClampIdempotent | round_image.py:26-27 | the computed radius, fed back as a pixel value, comes back unchanged |
| Radius.RadiusMonotone | round_image.py:18-27 | for a fixed size and unit, a larger value never gives a smaller radius |
| Script.RoundImage | round_image.py:12-41 | succeeds exactly when both opening and saving succeed; otherwise fails with the opening error first, then the saving error; on success the mask has the image's size and its corner radius is exactly `RadiusInt` of the image's size, the value and the unit, so between 0 and floor(min(w,h)/2) and at most the real radius |
| Script.RunScript | round_image.py:43-57 | exit status is 0 or 1; status 0 exactly when stdout is `SUCCESS`, which is exactly when there are four arguments, the radius parses, and opening and saving succeed; a wrong count exits 1 silently; an unparsable radius is an uncaught traceback; a routine failure prints `ERROR: ` and its message to stderr |
| Script.EffectInvocationRejected | round_image.py:44-45 | the smoke test's 14-entry invocation reaches the script as a 13-entry vector and exits 1 with no `SUCCESS` |

## Left out

- The imaging library: the pixels of the loaded image, the RGBA conversion,
  the drawing of the rounded rectangle and applying the mask as alpha
  (round_image.py:14, 30-40). These are foreign calls. The model keeps only
  whether opening and saving succeed, and the mask's size and corner radius.
- Image.open and save as effects on a file system: they are per-path outcome
  functions, so the model cannot say that a failed save leaves no file.
- Float arithmetic: rounding in `radius_value / 100 * base_dimension`, NaN and
  infinities. Reals are exact, and a `real` cannot hold NaN or an infinity,
  so these radius values are outside the model. In the script they still
  end inside the bound: a NaN radius survives `min(nan, max_radius)` but
  `max(0, nan)` keeps the 0, an infinite pixel radius becomes `max_radius`,
  and a negative infinite one becomes 0.
- Parsing of the radius argument by `float()` (round_image.py:49): a given
  parser. Only its failure is modelled: it is outside the `try`, so it is an
  uncaught traceback with exit status 1.
- The text of a traceback, and `str(e)` for an exception: the model carries
  the failing step's message as given.
- `test_border.py`: a smoke test that drives the script as a subprocess. Only
  the fate of its invocations is stated.
- The plugin's TypeScript components (reference scanning, path resolution,
  batching, backups, undo): their source is not part of this model.

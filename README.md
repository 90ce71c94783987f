# rememepy placement and substitution, modelled in Dafny

rememepy pastes a "substitute" picture into an empty-looking region of a
meme "template". This project models the two pieces of logic that decide
where the picture goes and whether the result is acceptable:

- **The placement scanner** (`supporting_functions.dfy`, module
  `SupportingFunctions`). `AreColorsSimilar` compares colours by channel
  sums. `FindPlacement` is the single top-to-bottom scan. It has nested
  loops, per-line tolerance budgets, an early `break`, a streak counter and a
  global width maximum that is never reset. It is proved equal to the
  functional specification `PlacementOf`. `PlacementOf` is then proved to
  compute what a declarative description says:
  - the width is the widest run between two dissimilar pixels that the scan
    reaches in any one line;
  - the height is the longest streak of passing lines closed by a failing or
    last line that has a `line_start`;
  - the position belongs to the earliest such longest streak.
- **The `Generator`** (`substitution.dfy`, module `Substitution`). It is a
  class with the three "last attempt" fields.
  - `Substitute` overwrites those fields with the attempt described by
    `AttemptOf`.
  - `ValidateLastSubstitution` is a read-only acceptance test. It divides to
    get the coverage ratio, as the code does, and is proved equal to the
    cross-multiplied specification `Verdict`.
  - `SubstituteUntilValid` is the retry loop over an inclusive range of
    cluster amounts. A ghost out-parameter records the amounts it tried.
- `wrappers.dfy` holds `Option` (Python's `None`) and `Result` (a raised
  `ValueError`).

Images are `Image(width, height, pixels)` with `pixels[y][x]` an RGB
triple. Three library collaborators are function parameters:
- the image resizer returns the pixels of the stretched image, and the model
  builds an image of exactly the requested size from them;
- the paster returns the base image's new pixels, so its size is kept;
- the k-means colour finder returns a colour for a cluster amount.

## Model

| member | source | states |
|---|---|---|
| `SupportingFunctions.AreColorsSimilar` | rememepy/supporting_functions.py:28-37 | similar exactly when the channel sums are strictly less than `tolerance` apart, in either direction |
| `SupportingFunctions.SimilarityIsSymmetric` | rememepy/supporting_functions.py:28-37 | the test does not depend on the order of the two colours |
| `SupportingFunctions.SimilarityIsReflexive` | rememepy/supporting_functions.py:28-37 | every colour is similar to itself under a positive tolerance |
| `SupportingFunctions.FindPlacement` | rememepy/supporting_functions.py:40-98 | the loops compute `PlacementOf`; no position exactly when the height is 0; a position has `0 <= x < template width`, `y >= 0` and `y + height <= template height - 1`; the width is at most template width - 1 |
| `SupportingFunctions.ScanLineCharacterized` | rememepy/supporting_functions.py:51-86 | a line fails exactly when it holds at least `width // 2` similar pixels (a zero budget never fails); the recorded `line_start` is the first dissimilar pixel the scan reaches; the width leaving the line is the larger of the width carried in and the widest run between dissimilar pixels reached |
| `SupportingFunctions.NarrowLinesNeverFail` | rememepy/supporting_functions.py:52-69 | in a template one pixel wide the budget is 0, the tolerance never hits 0, and no line fails |
| `SupportingFunctions.PlacementWidthIsWidestRun` | rememepy/supporting_functions.py:46-86 | the returned width bounds `j - i` for every pair of dissimilar pixels reached in the same line, in any line, and equals one such distance unless it is 0 |
| `SupportingFunctions.WidthNeverDecreases` | rememepy/supporting_functions.py:71-86 | scanning more lines never makes the width smaller |
| `SupportingFunctions.PlacementHeightIsLongestStreak` | rememepy/supporting_functions.py:88-96 | the returned height bounds the streak of passing lines above every closing line (failing or last) that has a `line_start`, and equals one of them unless it is 0 |
| `SupportingFunctions.PlacementPositionMarksEarliestLongestStreak` | rememepy/supporting_functions.py:89-98 | no position exactly when the height is 0; otherwise the position is the `line_start` of the earliest closing line whose streak has the returned height (ties keep the earlier streak), lifted by that height |
| `SupportingFunctions.PlacementBounds` | rememepy/supporting_functions.py:89-98 | a position lies in the template, `y >= 0`, and the band ends at or above the last line; the width is at most template width - 1 |
| `SupportingFunctions.PlacementMayOverrunRightEdge` | rememepy/supporting_functions.py:71-98 | `x + width` is not bounded by the template width: on a 6 by 2 template (a dark line, then light, light, dark, light, light, light) the scan for white returns position `(2, 0)` and size `(5, 1)` |
| `SupportingFunctions.UniformTemplateHasNoPlacement` | rememepy/supporting_functions.py:65-98 | when every pixel is similar to the dominant colour the result is no position and size `(0, 0)`, and when the template is at least two pixels wide every line fails |
| `Substitution.Generator.constructor` | rememepy/substitution.py:6-9 | a new generator remembers no attempt |
| `Substitution.Generator.Substitute` | rememepy/substitution.py:11-53 | the three fields and the result become exactly this call's `AttemptOf` (placement, resized substitute, pasted template), overwriting the previous attempt |
| `Substitution.Generator.ValidateLastSubstitution` | rememepy/substitution.py:55-92 | changes nothing; an error when any remembered part is missing, including a missing placement; otherwise true exactly when `min * template area <= substitute area <= max * template area` and the substitute lies inside the template |
| `Substitution.Generator.SubstituteUntilValid` | rememepy/substitution.py:94-130 | tries `low, low + 1, ...` once each in order; returns the pasted template of the first accepted attempt, all earlier ones refused; stops with the error if an attempt has no placement; returns nothing exactly when every amount in the range is refused, and then it has tried every amount from `low` to `high` and remembers the attempt for `high`; an empty range tries nothing and changes nothing |
| `Substitution.Generator.TryClusterAmount` | rememepy/substitution.py:121-128 | one round of the loop: the fields and the returned image become the attempt for this cluster amount with no explicit size, and the verdict is that attempt's acceptance under the default thresholds |
| `Substitution.CoverageRatioBounds` | rememepy/substitution.py:80-85 | with a positive template area, comparing the ratio with a bound is comparing the substitute area with the bound times the template area |
| `Substitution.ExplicitSizeSkipsDetection` | rememepy/substitution.py:37-39 | with an explicit size the attempt is placed at `(0, 0)` with exactly that size, whatever the cluster amount and colour finder; the pasted template keeps its size |
| `Substitution.DetectionFollowsClusterAmount` | rememepy/substitution.py:40-44 | without an explicit size, the attempt takes the scan's position and size for white (cluster amount 0, finder not consulted) or for the finder's colour |
| `Substitution.NoPlacementRaises` | rememepy/substitution.py:77-78 | in the retry loop the acceptance test raises exactly when the scan returned height 0 (no position) |
| `Substitution.DetectedPlacementFitsVertically` | rememepy/substitution.py:84-90 | a detected position always passes the `x >= 0`, `y >= 0` and bottom-edge checks, so acceptance reduces to the coverage thresholds and the right edge |
| `Substitution.VerdictExamples` | rememepy/substitution.py:80-92 | a 500 by 500 substitute on a 1000 by 1000 template is accepted at `(0, 0)` and refused at `(900, 900)`; a coverage equal to both thresholds is accepted |

## Left out

- `find_dominant_color` (k-means with random initialisation) is the `ColorFinder` parameter. Its float centroids are modelled as integer triples, so the similarity test compares integer channel sums.
- Image loading from paths, resizing and pasting are parameters. `Substitute` receives already opened images. In Python each retry re-opens the same files; in the model each retry reuses the same template value.
- Floating point: the coverage ratio and the thresholds are exact reals, so `0.1` and `0.9` are not rounded to binary floats.
- `Substitution.Generator.ValidateLastSubstitution` requires a remembered template of positive area. A zero-area template would raise `ZeroDivisionError`; opened images never have zero area.
- The `except IndexError` branch of the pixel read cannot be reached with in-range indices, so it is not modelled.
- Pixels are RGB triples only. Grayscale and RGBA pixel formats are not modelled, and channel values are not restricted to 0..255.
- The colour finder is total. An error the clustering library might raise for a negative cluster amount is not modelled.
- `resize_to` is an `Option<Size>`. Python's truthiness test would also treat an empty tuple as absent; that case is not modelled.
- Default keyword arguments: Dafny methods take every argument explicitly, so the defaults `dominant_cluster_amount=6` and `cluster_range=(0, 10)` have no counterpart; only the threshold defaults 0.1 and 0.9, which the retry loop relies on, are constants. The docstrings' defaults of 3 and `(0, 6)` disagree with the code.
- Retry search over a clustering on/off toggle with deduplication of pairs is not in the code, which has only the integer-range loop. It is not modelled.
- Substitution.Generator.SubstituteUntilValid: the resizer is total, also at a size with a zero side, whereas the image library refuses such a size and `substitute` then raises at rememepy/substitution.py:44, before pasting and before the fields are overwritten. So for a scan with height 0 (no position) the model overwrites the fields, pastes with no position and returns the acceptance test's error, where the program raises from the resize with the previous attempt still remembered; and for a scan with width 0 and height above 0 the model refuses the attempt and goes on to the next amount, where the program raises. Both are library behaviour outside this code.

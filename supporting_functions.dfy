/** The placement scanner of rememepy: the channel-sum colour similarity test
    and the single top-to-bottom scan that picks a band of lines which are
    mostly not the dominant colour.

    The scan is given three times over:
    - `ScanLine` / `CloseLine` / `ScanThrough` / `PlacementOf`: the scan as
      functions, step for step (the specification of the method);
    - `FindPlacement`: the nested loops with their mutable accumulators and
      the early `break`, proved equal to `PlacementOf`;
    - `Examined`, `SeenDifferent`, `StreakBefore`, `Candidate`, ...: what the
      scan computes, stated without running it, and the lemmas that prove
      `PlacementOf` returns exactly that. */
module SupportingFunctions {
  import opened Wrappers

  /** An RGB pixel value. */
  datatype Color = Color(r: int, g: int, b: int)

  /** A top-left corner `(x, y)`. */
  datatype Pos = Pos(x: int, y: int)

  /** A `(width, height)` pair. */
  datatype Size = Size(width: nat, height: nat)

  /** An image: its size and its pixel grid, `pixels[y][x]` being the colour at `(x, y)`. */
  datatype Image = Image(width: nat, height: nat, pixels: seq<seq<Color>>)

  /** The pair `find_placement` returns: an optional top-left corner and a size. */
  datatype Placement = Placement(position: Option<Pos>, size: Size)

  /** The pixel grid has `height` lines of `width` pixels each. */
  predicate WellFormed(img: Image) {
    |img.pixels| == img.height &&
    forall y :: 0 <= y < img.height ==> |img.pixels[y]| == img.width
  }

  // ---------------------------------------------------------------------------
  // Colour similarity
  // ---------------------------------------------------------------------------

  /** The tolerance the scan hands to the similarity test. */
  const SimilarityThreshold := 30

  function ChannelSum(c: Color): int {
    c.r + c.g + c.b
  }

  function Abs(n: int): nat {
    if n < 0 then -n else n
  }

  /** Two colours are similar when their channel sums are less than
      `tolerance` apart. */
  function AreColorsSimilar(color1: Color, color2: Color, tolerance: int): (similar: bool)
    ensures similar <==> -tolerance < ChannelSum(color1) - ChannelSum(color2) < tolerance
  {
    var difference := Abs(ChannelSum(color2) - ChannelSum(color1));
    difference < tolerance
  }

  lemma SimilarityIsSymmetric(color1: Color, color2: Color, tolerance: int)
    ensures AreColorsSimilar(color1, color2, tolerance) == AreColorsSimilar(color2, color1, tolerance)
  {
  }

  lemma SimilarityIsReflexive(color: Color, tolerance: int)
    requires tolerance > 0
    ensures AreColorsSimilar(color, color, tolerance)
  {
  }

  /** The pixel test the scan uses. */
  predicate Similar(c: Color, dominant: Color) {
    AreColorsSimilar(c, dominant, SimilarityThreshold)
  }

  // ---------------------------------------------------------------------------
  // The scan, step for step
  // ---------------------------------------------------------------------------

  /** How many pixels of a line may match the dominant colour: the
      line fails on the pixel that brings its tolerance down to zero. */
  function Budget(templateWidth: nat): nat {
    templateWidth / 2
  }

  /** The per-line variables of the scan (`tolerance`, `line_start`,
      `last_different`, `passed`; the two positions keep only their x,
      their y being the current line) and the global `substitute_width`. */
  datatype LineScan = LineScan(
    tolerance: int,
    lineStart: Option<nat>,
    lastDifferent: Option<nat>,
    passed: bool,
    width: nat)

  /** The line-start state of line scanning, carrying the global width in. */
  function LineStart(templateWidth: nat, width: nat): LineScan {
    LineScan(Budget(templateWidth), None, None, true, width)
  }

  /** `substitute_width` after the "longer segment found" update. */
  function Widened(width: nat, lineStart: Option<nat>, lastDifferent: Option<nat>): nat {
    if lineStart.Some? && lastDifferent.Some? && lastDifferent.value - lineStart.value > width
    then lastDifferent.value - lineStart.value
    else width
  }

  /** One pixel of the inner loop. A similar pixel spends tolerance and, on
      reaching zero, fails the line (the `break`); otherwise the width update
      runs twice (once in the branch, once after it), as in the loop body. */
  function PixelStep(color: Color, dominant: Color, x: nat, s: LineScan): LineScan {
    if Similar(color, dominant) then
      if s.tolerance - 1 == 0 then
        s.(tolerance := 0, passed := false)
      else
        var width := Widened(s.width, s.lineStart, s.lastDifferent);
        s.(tolerance := s.tolerance - 1, width := Widened(width, s.lineStart, s.lastDifferent))
    else
      var lineStart := if s.lineStart.None? then Some(x) else s.lineStart;
      s.(lastDifferent := Some(x), lineStart := lineStart, width := Widened(s.width, lineStart, Some(x)))
  }

  /** The inner loop from pixel `x` on; a failed line has stopped. */
  function ScanLine(line: seq<Color>, dominant: Color, x: nat, s: LineScan): LineScan
    requires x <= |line|
    decreases |line| - x
  {
    if x == |line| || !s.passed then s
    else ScanLine(line, dominant, x + 1, PixelStep(line[x], dominant, x, s))
  }

  /** The global accumulators: `substitute_width`, `substitute_height`,
      `starting_position` and `current_matching_lines_streak`. */
  datatype ScanState = ScanState(width: nat, height: nat, position: Option<Pos>, streak: nat)

  /** The end of line `y`: a passing line other than the last extends the
      streak; any other line closes it, recording it when it is strictly
      longer than the best so far and the line has a `line_start`. */
  function CloseLine(st: ScanState, line: LineScan, y: nat, templateHeight: nat): ScanState {
    if line.passed && y != templateHeight - 1 then
      st.(width := line.width, streak := st.streak + 1)
    else if st.height < st.streak && line.lineStart.Some? then
      st.(width := line.width, height := st.streak,
          position := Some(Pos(line.lineStart.value, y - st.streak)), streak := 0)
    else
      st.(width := line.width, streak := 0)
  }

  /** Line `y` scanned with the global width carried in. */
  function LineOf(img: Image, dominant: Color, y: nat, width: nat): LineScan
    requires WellFormed(img) && y < img.height
  {
    ScanLine(img.pixels[y], dominant, 0, LineStart(img.width, width))
  }

  /** The outer loop's accumulators after lines `[0, y)`. */
  function ScanThrough(img: Image, dominant: Color, y: nat): ScanState
    requires WellFormed(img) && y <= img.height
  {
    if y == 0 then ScanState(0, 0, None, 0)
    else
      var st := ScanThrough(img, dominant, y - 1);
      CloseLine(st, LineOf(img, dominant, y - 1, st.width), y - 1, img.height)
  }

  /** The result of `find_placement`. */
  function PlacementOf(img: Image, dominant: Color): Placement
    requires WellFormed(img)
  {
    var st := ScanThrough(img, dominant, img.height);
    Placement(st.position, Size(st.width, st.height))
  }

  // ---------------------------------------------------------------------------
  // The scan as loops
  // ---------------------------------------------------------------------------

  method FindPlacement(template: Image, dominant: Color) returns (p: Placement)
    requires WellFormed(template)
    ensures p == PlacementOf(template, dominant)
    ensures p.position.None? <==> p.size.height == 0
    ensures p.position.Some? ==>
      0 <= p.position.value.x < template.width &&
      0 <= p.position.value.y &&
      p.position.value.y + p.size.height <= template.height - 1
    ensures template.width > 0 ==> p.size.width <= template.width - 1
  {
    var substituteWidth: nat, substituteHeight: nat := 0, 0;
    var startingPosition: Option<Pos> := None;
    var streak: nat := 0;
    var y := 0;
    while y < template.height
      invariant y <= template.height
      invariant ScanState(substituteWidth, substituteHeight, startingPosition, streak) == ScanThrough(template, dominant, y)
    {
      var line := template.pixels[y];
      var tolerance := template.width / 2;
      var lineStart: Option<nat> := None;
      var lastDifferent: Option<nat> := None;
      var passed := true;
      ghost var start := LineStart(template.width, substituteWidth);
      var x := 0;
      while x < template.width
        invariant x <= template.width
        invariant passed
        invariant ScanLine(line, dominant, x, LineScan(tolerance, lineStart, lastDifferent, passed, substituteWidth))
               == ScanLine(line, dominant, 0, start)
      {
        ghost var before := LineScan(tolerance, lineStart, lastDifferent, passed, substituteWidth);
        var color := line[x];
        if AreColorsSimilar(color, dominant, SimilarityThreshold) {
          tolerance := tolerance - 1;
          if tolerance == 0 {
            passed := false;
            assert LineScan(tolerance, lineStart, lastDifferent, passed, substituteWidth)
                == PixelStep(color, dominant, x, before);
            break;
          }
          if lineStart.Some? && lastDifferent.Some? {
            var currentLineLength := lastDifferent.value - lineStart.value;
            if currentLineLength > substituteWidth {
              substituteWidth := currentLineLength;
            }
          }
        } else {
          lastDifferent := Some(x);
          if lineStart.None? {
            lineStart := Some(x);
          }
        }
        if lineStart.Some? && lastDifferent.Some? {
          var currentLineLength := lastDifferent.value - lineStart.value;
          if currentLineLength > substituteWidth {
            substituteWidth := currentLineLength;
          }
        }
        x := x + 1;
      }
      if passed && y != template.height - 1 {
        streak := streak + 1;
      } else {
        if substituteHeight < streak && lineStart.Some? {
          substituteHeight := streak;
          startingPosition := Some(Pos(lineStart.value, y - substituteHeight));
        }
        streak := 0;
      }
      y := y + 1;
    }
    p := Placement(startingPosition, Size(substituteWidth, substituteHeight));
    PlacementBounds(template, dominant);
  }

  // ---------------------------------------------------------------------------
  // What the scan computes, stated without running it
  // ---------------------------------------------------------------------------

  /** The number of similar pixels among `line[..x]`. */
  function SimilarBefore(line: seq<Color>, dominant: Color, x: nat): (n: nat)
    requires x <= |line|
    ensures n <= x
  {
    if x == 0 then 0
    else SimilarBefore(line, dominant, x - 1) + (if Similar(line[x - 1], dominant) then 1 else 0)
  }

  /** The scan reaches pixel `x` of the line (or its end, `x == |line|`): the
      pixels before it have not used up the budget. */
  predicate Examined(line: seq<Color>, dominant: Color, x: int) {
    0 <= x <= |line| &&
    (Budget(|line|) == 0 || SimilarBefore(line, dominant, x) < Budget(|line|))
  }

  /** A line passes unless it holds at least a budget's worth of similar
      pixels; a zero budget (a line one pixel wide) never fails. */
  predicate LinePasses(line: seq<Color>, dominant: Color) {
    Budget(|line|) == 0 || SimilarBefore(line, dominant, |line|) < Budget(|line|)
  }

  /** Pixel `x` is dissimilar and the scan reaches it. */
  predicate SeenDifferent(line: seq<Color>, dominant: Color, x: int) {
    0 <= x < |line| && Examined(line, dominant, x) && !Similar(line[x], dominant)
  }

  /** The scan of the line records a `line_start`. */
  ghost predicate HasLineStart(line: seq<Color>, dominant: Color) {
    exists x :: SeenDifferent(line, dominant, x)
  }

  /** `x` is the first dissimilar pixel the scan reaches. */
  ghost predicate LineStartAt(line: seq<Color>, dominant: Color, x: int) {
    SeenDifferent(line, dominant, x) &&
    forall k :: 0 <= k < x ==> !SeenDifferent(line, dominant, k)
  }

  /** Pixels `i <= j` of line `y` are both dissimilar and both reached. */
  ghost predicate SeenPair(img: Image, dominant: Color, y: int, i: int, j: int)
    requires WellFormed(img)
  {
    0 <= y < img.height && 0 <= i <= j &&
    SeenDifferent(img.pixels[y], dominant, i) && SeenDifferent(img.pixels[y], dominant, j)
  }

  /** The number of passing lines immediately above line `y`. */
  function StreakBefore(img: Image, dominant: Color, y: nat): nat
    requires WellFormed(img) && y <= img.height
  {
    if y == 0 then 0
    else if LinePasses(img.pixels[y - 1], dominant) then StreakBefore(img, dominant, y - 1) + 1
    else 0
  }

  /** Line `y` closes a streak (it fails, or it is the last line) and has a
      `line_start`, so the streak above it may be recorded. */
  ghost predicate Candidate(img: Image, dominant: Color, y: int)
    requires WellFormed(img)
  {
    0 <= y < img.height &&
    (!LinePasses(img.pixels[y], dominant) || y == img.height - 1) &&
    HasLineStart(img.pixels[y], dominant)
  }

  /** Line `y` is the first candidate whose streak has length `h`, and every
      earlier candidate's streak is shorter. */
  ghost predicate EarliestLongest(img: Image, dominant: Color, y: int, h: nat)
    requires WellFormed(img)
  {
    Candidate(img, dominant, y) && StreakBefore(img, dominant, y) == h &&
    forall u {:trigger Candidate(img, dominant, u)} :: 0 <= u < y && Candidate(img, dominant, u) ==> StreakBefore(img, dominant, u) < h
  }

  // ---------------------------------------------------------------------------
  // Lemmas: one line
  // ---------------------------------------------------------------------------

  lemma {:induction false} SimilarBeforeMonotone(line: seq<Color>, dominant: Color, a: nat, b: nat)
    requires a <= b <= |line|
    ensures SimilarBefore(line, dominant, a) <= SimilarBefore(line, dominant, b)
    decreases b
  {
    if a < b {
      SimilarBeforeMonotone(line, dominant, a, b - 1);
    }
  }

  /** What the scan of a line has recorded about the pixels before `x`. */
  ghost predicate PrefixSummary(line: seq<Color>, dominant: Color, x: nat, s: LineScan, w0: nat)
    requires x <= |line|
  {
    (s.lineStart.None? <==> s.lastDifferent.None?) &&
    (s.lineStart.None? ==>
       s.width == w0 && forall k :: 0 <= k < x ==> Similar(line[k], dominant)) &&
    (s.lineStart.Some? ==>
       var ls, ld := s.lineStart.value, s.lastDifferent.value;
       ls <= ld < x && !Similar(line[ls], dominant) && !Similar(line[ld], dominant) &&
       (forall k :: 0 <= k < ls ==> Similar(line[k], dominant)) &&
       (forall k :: ld < k < x ==> Similar(line[k], dominant)) &&
       w0 <= s.width && ld - ls <= s.width && (s.width == w0 || s.width == ld - ls))
  }

  /** The inner loop's state at pixel `x` of a line still running. */
  ghost predicate LineInvariant(line: seq<Color>, dominant: Color, x: nat, s: LineScan, w0: nat) {
    x <= |line| && s.passed &&
    s.tolerance == Budget(|line|) - SimilarBefore(line, dominant, x) &&
    Examined(line, dominant, x) &&
    PrefixSummary(line, dominant, x, s, w0)
  }

  /** What a finished line scan records, in terms of the pixels reached. */
  ghost predicate LineOutcome(line: seq<Color>, dominant: Color, s: LineScan, w0: nat) {
    (s.lineStart.Some? <==> HasLineStart(line, dominant)) &&
    (s.lineStart.Some? ==> LineStartAt(line, dominant, s.lineStart.value)) &&
    w0 <= s.width &&
    (forall i, j :: 0 <= i <= j && SeenDifferent(line, dominant, i) && SeenDifferent(line, dominant, j)
       ==> j - i <= s.width) &&
    (s.width == w0 ||
     exists i, j :: 0 <= i <= j && SeenDifferent(line, dominant, i) && SeenDifferent(line, dominant, j)
       && j - i == s.width)
  }

  /** A line scan that stopped at `e` (its end, or just after the failing
      pixel) has recorded exactly the pixels reached. */
  lemma LineSummaryAt(line: seq<Color>, dominant: Color, e: nat, s: LineScan, w0: nat)
    requires e <= |line|
    requires PrefixSummary(line, dominant, e, s, w0)
    requires forall k :: 0 <= k < e ==> Examined(line, dominant, k)
    requires forall k :: e <= k < |line| ==> !SeenDifferent(line, dominant, k)
    ensures LineOutcome(line, dominant, s, w0)
  {
    if s.lineStart.Some? {
      var ls, ld := s.lineStart.value, s.lastDifferent.value;
      assert SeenDifferent(line, dominant, ls) && SeenDifferent(line, dominant, ld);
      forall i, j | 0 <= i <= j && SeenDifferent(line, dominant, i) && SeenDifferent(line, dominant, j)
        ensures j - i <= s.width
      {
        assert ls <= i;
        assert j <= ld;
      }
    } else {
      forall k | 0 <= k < |line| ensures !SeenDifferent(line, dominant, k) {
        if k < e {
          assert Similar(line[k], dominant);
        }
      }
    }
  }

  lemma {:induction false} ScanLineFrom(line: seq<Color>, dominant: Color, x: nat, s: LineScan, w0: nat)
    requires LineInvariant(line, dominant, x, s, w0)
    ensures ScanLine(line, dominant, x, s).passed == LinePasses(line, dominant)
    ensures LineOutcome(line, dominant, ScanLine(line, dominant, x, s), w0)
    decreases |line| - x
  {
    forall k | 0 <= k <= x ensures Examined(line, dominant, k) {
      SimilarBeforeMonotone(line, dominant, k, x);
    }
    if x == |line| {
      LineSummaryAt(line, dominant, x, s, w0);
    } else {
      var next := PixelStep(line[x], dominant, x, s);
      assert SimilarBefore(line, dominant, x + 1)
          == SimilarBefore(line, dominant, x) + (if Similar(line[x], dominant) then 1 else 0);
      if Similar(line[x], dominant) && s.tolerance - 1 == 0 {
        // the failing pixel: nothing at or after it is reached
        assert ScanLine(line, dominant, x + 1, next) == next;
        forall k | x < k <= |line| ensures !Examined(line, dominant, k) {
          SimilarBeforeMonotone(line, dominant, x + 1, k);
        }
        assert !Examined(line, dominant, |line|);
        LineSummaryAt(line, dominant, x, next, w0);
      } else {
        assert LineInvariant(line, dominant, x + 1, next, w0);
        ScanLineFrom(line, dominant, x + 1, next, w0);
      }
    }
  }

  /** A line fails exactly when it holds a budget's worth of similar pixels;
      its `line_start` is the first dissimilar pixel reached, and the width
      leaving it is the widest run between dissimilar pixels reached, or the
      width carried in if that is wider. */
  lemma ScanLineCharacterized(line: seq<Color>, dominant: Color, w0: nat)
    ensures ScanLine(line, dominant, 0, LineStart(|line|, w0)).passed == LinePasses(line, dominant)
    ensures LineOutcome(line, dominant, ScanLine(line, dominant, 0, LineStart(|line|, w0)), w0)
  {
    ScanLineFrom(line, dominant, 0, LineStart(|line|, w0), w0);
  }

  /** The part of `ScanLineCharacterized` the streak bookkeeping needs. */
  lemma LineFate(line: seq<Color>, dominant: Color, w0: nat)
    ensures var s := ScanLine(line, dominant, 0, LineStart(|line|, w0));
      s.passed == LinePasses(line, dominant) &&
      (s.lineStart.Some? <==> HasLineStart(line, dominant)) &&
      (s.lineStart.Some? ==> LineStartAt(line, dominant, s.lineStart.value))
  {
    ScanLineCharacterized(line, dominant, w0);
  }

  /** A template one pixel wide has a zero budget: no line ever fails. */
  lemma NarrowLinesNeverFail(line: seq<Color>, dominant: Color, w0: nat)
    requires |line| == 1
    ensures ScanLine(line, dominant, 0, LineStart(|line|, w0)).passed
  {
    ScanLineCharacterized(line, dominant, w0);
  }

  // ---------------------------------------------------------------------------
  // Lemmas: the whole scan
  // ---------------------------------------------------------------------------

  /** `substitute_width` after lines `[0, y)`: the widest run between two
      dissimilar pixels reached in one line, 0 if there is none. */
  ghost predicate WidthSummary(img: Image, dominant: Color, y: nat, width: nat)
    requires WellFormed(img)
  {
    (forall v, i, j :: v < y && SeenPair(img, dominant, v, i, j) ==> j - i <= width) &&
    (width == 0 || exists v, i, j :: v < y && SeenPair(img, dominant, v, i, j) && j - i == width)
  }

  /** The height bounds every candidate streak closed in lines `[0, y)`. */
  ghost predicate HeightBound(img: Image, dominant: Color, y: nat, height: nat)
    requires WellFormed(img)
  {
    forall v {:trigger Candidate(img, dominant, v)} ::
      v < y && Candidate(img, dominant, v) ==> StreakBefore(img, dominant, v) <= height
  }

  /** A non-zero height is the streak of a candidate in lines `[0, y)`. */
  ghost predicate HeightAttained(img: Image, dominant: Color, y: nat, height: nat)
    requires WellFormed(img)
  {
    height == 0 ||
    exists v {:trigger Candidate(img, dominant, v)} ::
      v < y && Candidate(img, dominant, v) && StreakBefore(img, dominant, v) == height
  }

  /** Line `v` is where a streak of length `height` was recorded at `p`. */
  ghost predicate RecordedAt(img: Image, dominant: Color, v: int, height: nat, p: Pos)
    requires WellFormed(img)
  {
    EarliestLongest(img, dominant, v, height) &&
    LineStartAt(img.pixels[v], dominant, p.x) && p.y == v - height
  }

  /** The position is present exactly with a non-zero height, and then was
      recorded in lines `[0, y)`. */
  ghost predicate PositionRecorded(img: Image, dominant: Color, y: nat, height: nat, position: Option<Pos>)
    requires WellFormed(img)
  {
    (position.None? <==> height == 0) &&
    (position.Some? ==> exists v :: v < y && RecordedAt(img, dominant, v, height, position.value))
  }

  /** `substitute_height` and `starting_position` after lines `[0, y)`. */
  ghost predicate HeightSummary(img: Image, dominant: Color, y: nat, height: nat, position: Option<Pos>)
    requires WellFormed(img)
  {
    HeightBound(img, dominant, y, height) &&
    HeightAttained(img, dominant, y, height) &&
    PositionRecorded(img, dominant, y, height, position)
  }

  lemma WidthStep(img: Image, dominant: Color, y: nat, width: nat)
    requires WellFormed(img) && y < img.height
    requires WidthSummary(img, dominant, y, width)
    ensures WidthSummary(img, dominant, y + 1, LineOf(img, dominant, y, width).width)
  {
    var line := img.pixels[y];
    var s := LineOf(img, dominant, y, width);
    ScanLineCharacterized(line, dominant, width);
    forall v, i, j | v < y + 1 && SeenPair(img, dominant, v, i, j) ensures j - i <= s.width {
      if v == y {
        assert SeenDifferent(line, dominant, i) && SeenDifferent(line, dominant, j);
      }
    }
    if s.width != width {
      var i, j :| 0 <= i <= j && SeenDifferent(line, dominant, i) && SeenDifferent(line, dominant, j)
                  && j - i == s.width;
      assert SeenPair(img, dominant, y, i, j);
    }
  }

  /** A line that records nothing keeps the summary. */
  lemma HeightKept(img: Image, dominant: Color, y: nat, height: nat, position: Option<Pos>)
    requires WellFormed(img) && y < img.height
    requires HeightSummary(img, dominant, y, height, position)
    requires Candidate(img, dominant, y) ==> StreakBefore(img, dominant, y) <= height
    ensures HeightSummary(img, dominant, y + 1, height, position)
  {
    if height != 0 {
      var v :| v < y && Candidate(img, dominant, v) && StreakBefore(img, dominant, v) == height;
      assert v < y + 1;
    }
    if position.Some? {
      var v :| v < y && RecordedAt(img, dominant, v, height, position.value);
      assert v < y + 1;
    }
  }

  /** A candidate line closing a longer streak records it. */
  lemma HeightRecorded(img: Image, dominant: Color, y: nat, height: nat, lineStart: nat)
    requires WellFormed(img) && y < img.height
    requires HeightBound(img, dominant, y, height)
    requires Candidate(img, dominant, y) && height < StreakBefore(img, dominant, y)
    requires LineStartAt(img.pixels[y], dominant, lineStart)
    ensures var h := StreakBefore(img, dominant, y);
      HeightSummary(img, dominant, y + 1, h, Some(Pos(lineStart, y - h)))
  {
    var h := StreakBefore(img, dominant, y);
    assert EarliestLongest(img, dominant, y, h);
    assert RecordedAt(img, dominant, y, h, Pos(lineStart, y - h));
  }

  /** Closing line `y`, whose scan recorded `s`, keeps `HeightSummary`. */
  lemma HeightStep(img: Image, dominant: Color, y: nat, st: ScanState, s: LineScan)
    requires WellFormed(img) && y < img.height
    requires HeightSummary(img, dominant, y, st.height, st.position)
    requires st.streak == StreakBefore(img, dominant, y)
    requires s.passed == LinePasses(img.pixels[y], dominant)
    requires s.lineStart.Some? <==> HasLineStart(img.pixels[y], dominant)
    requires s.lineStart.Some? ==> LineStartAt(img.pixels[y], dominant, s.lineStart.value)
    ensures var next := CloseLine(st, s, y, img.height);
      HeightSummary(img, dominant, y + 1, next.height, next.position) &&
      (y + 1 < img.height ==> next.streak == StreakBefore(img, dominant, y + 1))
  {
    if s.passed && y != img.height - 1 {
      HeightKept(img, dominant, y, st.height, st.position);
    } else if st.height < st.streak && s.lineStart.Some? {
      HeightRecorded(img, dominant, y, st.height, s.lineStart.value);
    } else {
      HeightKept(img, dominant, y, st.height, st.position);
    }
  }

  lemma {:induction false} WidthThrough(img: Image, dominant: Color, y: nat)
    requires WellFormed(img) && y <= img.height
    ensures WidthSummary(img, dominant, y, ScanThrough(img, dominant, y).width)
  {
    if y > 0 {
      WidthThrough(img, dominant, y - 1);
      WidthStep(img, dominant, y - 1, ScanThrough(img, dominant, y - 1).width);
    }
  }

  lemma {:induction false} HeightThrough(img: Image, dominant: Color, y: nat)
    requires WellFormed(img) && y <= img.height
    ensures var st := ScanThrough(img, dominant, y);
      HeightSummary(img, dominant, y, st.height, st.position) &&
      (y < img.height ==> st.streak == StreakBefore(img, dominant, y))
  {
    if y > 0 {
      var st := ScanThrough(img, dominant, y - 1);
      HeightThrough(img, dominant, y - 1);
      LineFate(img.pixels[y - 1], dominant, st.width);
      HeightStep(img, dominant, y - 1, st, LineOf(img, dominant, y - 1, st.width));
    }
  }

  lemma PlacementSummary(img: Image, dominant: Color)
    requires WellFormed(img)
    ensures var p := PlacementOf(img, dominant);
      WidthSummary(img, dominant, img.height, p.size.width) &&
      HeightSummary(img, dominant, img.height, p.size.height, p.position)
  {
    WidthThrough(img, dominant, img.height);
    HeightThrough(img, dominant, img.height);
  }

  /** The returned width is the widest run between two dissimilar pixels
      that the scan reaches in one line, whatever line it is in (it is never
      reset between lines); 0 when no line has two such pixels apart. */
  lemma PlacementWidthIsWidestRun(img: Image, dominant: Color)
    requires WellFormed(img)
    ensures forall y, i, j :: SeenPair(img, dominant, y, i, j) ==> j - i <= PlacementOf(img, dominant).size.width
    ensures PlacementOf(img, dominant).size.width == 0 ||
      exists y, i, j :: SeenPair(img, dominant, y, i, j) && j - i == PlacementOf(img, dominant).size.width
  {
    PlacementSummary(img, dominant);
  }

  /** The returned height is the longest streak of passing lines closed by a
      candidate line (a failing line, or the last line, with a `line_start`);
      0 when there is none. */
  lemma PlacementHeightIsLongestStreak(img: Image, dominant: Color)
    requires WellFormed(img)
    ensures forall y {:trigger Candidate(img, dominant, y)} :: Candidate(img, dominant, y) ==> StreakBefore(img, dominant, y) <= PlacementOf(img, dominant).size.height
    ensures PlacementOf(img, dominant).size.height == 0 ||
      exists y {:trigger Candidate(img, dominant, y)} :: Candidate(img, dominant, y) && StreakBefore(img, dominant, y) == PlacementOf(img, dominant).size.height
  {
    PlacementSummary(img, dominant);
  }

  /** No position is returned exactly when the height is 0; otherwise the
      position is the `line_start` of the earliest candidate line closing a
      longest streak, lifted by the streak's length. */
  lemma PlacementPositionMarksEarliestLongestStreak(img: Image, dominant: Color)
    requires WellFormed(img)
    ensures var p := PlacementOf(img, dominant);
      (p.position.None? <==> p.size.height == 0) &&
      (p.position.Some? ==>
         exists y :: EarliestLongest(img, dominant, y, p.size.height) &&
           LineStartAt(img.pixels[y], dominant, p.position.value.x) &&
           p.position.value.y == y - p.size.height)
  {
    PlacementSummary(img, dominant);
  }

  lemma {:induction false} StreakBeforeBounded(img: Image, dominant: Color, y: nat)
    requires WellFormed(img) && y <= img.height
    ensures StreakBefore(img, dominant, y) <= y
  {
    if y > 0 {
      StreakBeforeBounded(img, dominant, y - 1);
    }
  }

  /** A returned position lies in the template and the band below it ends
      above the last line; the width is less than the template's. Nothing
      bounds `x + width` by the template width. */
  lemma PlacementBounds(img: Image, dominant: Color)
    requires WellFormed(img)
    ensures var p := PlacementOf(img, dominant);
      (p.position.None? <==> p.size.height == 0) &&
      (p.position.Some? ==>
         0 <= p.position.value.x < img.width &&
         0 <= p.position.value.y &&
         p.position.value.y + p.size.height <= img.height - 1) &&
      (img.width > 0 ==> p.size.width <= img.width - 1)
  {
    var p := PlacementOf(img, dominant);
    PlacementWidthIsWidestRun(img, dominant);
    PlacementPositionMarksEarliestLongestStreak(img, dominant);
    if p.position.Some? {
      var y :| EarliestLongest(img, dominant, y, p.size.height) &&
               LineStartAt(img.pixels[y], dominant, p.position.value.x) &&
               p.position.value.y == y - p.size.height;
      StreakBeforeBounded(img, dominant, y);
    }
    if p.size.width != 0 {
      var y, i, j :| SeenPair(img, dominant, y, i, j) && j - i == p.size.width;
    }
  }

  /** The first line of the example below: all dark, scanned for white, it
      passes with its run from 0 to 5. */
  lemma DarkLineExample()
    ensures var w, k := Color(255, 255, 255), Color(0, 0, 0);
      ScanLine([k, k, k, k, k, k], w, 0, LineStart(6, 0)) == LineScan(3, Some(0), Some(5), true, 5)
  {
    var w, k := Color(255, 255, 255), Color(0, 0, 0);
    var dark := [k, k, k, k, k, k];
    var last := LineScan(3, Some(0), Some(5), true, 5);
    assert !Similar(k, w);
    assert ScanLine(dark, w, 5, LineScan(3, Some(0), Some(4), true, 4)) == last;
    assert ScanLine(dark, w, 4, LineScan(3, Some(0), Some(3), true, 3)) == last;
    assert ScanLine(dark, w, 3, LineScan(3, Some(0), Some(2), true, 2)) == last;
    assert ScanLine(dark, w, 2, LineScan(3, Some(0), Some(1), true, 1)) == last;
    assert ScanLine(dark, w, 1, LineScan(3, Some(0), Some(0), true, 0)) == last;
  }

  /** The second line of the example below: light, light, dark, light, ...
      scanned for white with width 5 carried in; the third light pixel uses
      up the budget of 3 and fails the line after its `line_start` 2. */
  lemma LightLineExample()
    ensures var w, k := Color(255, 255, 255), Color(0, 0, 0);
      ScanLine([w, w, k, w, w, w], w, 0, LineStart(6, 5)) == LineScan(0, Some(2), Some(2), false, 5)
  {
    var w, k := Color(255, 255, 255), Color(0, 0, 0);
    var light := [w, w, k, w, w, w];
    var last := LineScan(0, Some(2), Some(2), false, 5);
    assert Similar(w, w) && !Similar(k, w);
    assert ScanLine(light, w, 3, LineScan(1, Some(2), Some(2), true, 5)) == last;
    assert ScanLine(light, w, 2, LineScan(1, None, None, true, 5)) == last;
    assert ScanLine(light, w, 1, LineScan(2, None, None, true, 5)) == last;
  }

  /** The width is carried over from earlier lines, so a position and the
      width can together point past the right edge: on a 6 by 2 template
      whose first line is all dark and whose second is light, light, dark,
      light, light, light, the scan for white returns `(2, 0)` and width 5. */
  lemma PlacementMayOverrunRightEdge()
    ensures var w, k := Color(255, 255, 255), Color(0, 0, 0);
      var img := Image(6, 2, [[k, k, k, k, k, k], [w, w, k, w, w, w]]);
      var p := PlacementOf(img, w);
      WellFormed(img) &&
      p == Placement(Some(Pos(2, 0)), Size(5, 1)) &&
      p.position.value.x + p.size.width > img.width
  {
    var w, k := Color(255, 255, 255), Color(0, 0, 0);
    var img := Image(6, 2, [[k, k, k, k, k, k], [w, w, k, w, w, w]]);
    assert WellFormed(img);
    DarkLineExample();
    LightLineExample();
    assert LineOf(img, w, 0, 0) == LineScan(3, Some(0), Some(5), true, 5);
    assert ScanThrough(img, w, 1) == ScanState(5, 0, None, 1);
    assert LineOf(img, w, 1, 5) == LineScan(0, Some(2), Some(2), false, 5);
    assert ScanThrough(img, w, 2) == ScanState(5, 1, Some(Pos(2, 0)), 0);
  }

  /** The width only grows from line to line. */
  lemma {:induction false} WidthNeverDecreases(img: Image, dominant: Color, y1: nat, y2: nat)
    requires WellFormed(img) && y1 <= y2 <= img.height
    ensures ScanThrough(img, dominant, y1).width <= ScanThrough(img, dominant, y2).width
    decreases y2
  {
    if y1 < y2 {
      WidthNeverDecreases(img, dominant, y1, y2 - 1);
      ScanLineCharacterized(img.pixels[y2 - 1], dominant, ScanThrough(img, dominant, y2 - 1).width);
    }
  }

  lemma {:induction false} AllSimilarBefore(line: seq<Color>, dominant: Color, x: nat)
    requires x <= |line|
    requires forall k :: 0 <= k < |line| ==> Similar(line[k], dominant)
    ensures SimilarBefore(line, dominant, x) == x
  {
    if x > 0 {
      AllSimilarBefore(line, dominant, x - 1);
    }
  }

  /** A template whose every pixel is similar to the dominant colour yields
      no position and a zero size; when it is at least two pixels wide every
      line fails. */
  lemma UniformTemplateHasNoPlacement(img: Image, dominant: Color)
    requires WellFormed(img)
    requires forall y, x :: 0 <= y < img.height && 0 <= x < img.width ==> Similar(img.pixels[y][x], dominant)
    ensures PlacementOf(img, dominant) == Placement(None, Size(0, 0))
    ensures img.width >= 2 ==> forall y :: 0 <= y < img.height ==> !LinePasses(img.pixels[y], dominant)
  {
    forall y, x | 0 <= y < img.height ensures !SeenDifferent(img.pixels[y], dominant, x) {
      if 0 <= x < img.width {
        assert Similar(img.pixels[y][x], dominant);
      }
    }
    PlacementWidthIsWidestRun(img, dominant);
    PlacementHeightIsLongestStreak(img, dominant);
    PlacementPositionMarksEarliestLongestStreak(img, dominant);
    forall y | 0 <= y < img.height && img.width >= 2 ensures !LinePasses(img.pixels[y], dominant) {
      AllSimilarBefore(img.pixels[y], dominant, img.width);
    }
  }
}

/** The `Generator` of rememepy: one substitution attempt (pick the dominant
    colour, find where to paste, resize, paste, remember the attempt), the
    acceptance test over the remembered attempt, and the retry loop over an
    inclusive range of cluster amounts.

    The image library and the k-means colour finder are parameters: a
    `Resizer` gives the pixels of an image stretched to a size (the model
    builds an image of exactly that size from them), a `Paster` gives the
    base image's pixels after pasting (its size is kept), and a
    `ColorFinder` gives the dominant colour for a cluster amount. */
module Substitution {
  import opened Wrappers
  import opened SupportingFunctions

  /** The dominant colour assumed when the cluster amount is 0. */
  const White := Color(255, 255, 255)

  /** Defaults of the acceptance test's thresholds, which the retry loop
      relies on. */
  const DefaultThresholdMin: real := 0.1
  const DefaultThresholdMax: real := 0.9

  /** The `ValueError` raised when no substitution has been remembered. */
  datatype Error = NoSubstitutionYet

  type Resizer = (Image, Size) -> seq<seq<Color>>
  type Paster = (Image, Image, Option<Pos>) -> seq<seq<Color>>
  type ColorFinder = (Image, int) -> Color

  function Resized(img: Image, size: Size, resize: Resizer): Image {
    Image(size.width, size.height, resize(img, size))
  }

  function Pasted(base: Image, overlay: Image, at: Option<Pos>, paste: Paster): Image {
    base.(pixels := paste(base, overlay, at))
  }

  /** What one call of `substitute` remembers: the placement position, the
      resized substitute and the template after pasting. */
  datatype Attempt = Attempt(position: Option<Pos>, resized: Image, composed: Image)

  /** The attempt `substitute` makes. With an explicit size the substitute is
      resized to it and pasted at `(0, 0)`, and no colour or placement is
      looked for; otherwise the dominant colour is white for a cluster amount
      of 0 and the colour finder's answer for any other, and the substitute is
      resized to the size the scan returns and pasted where it points. */
  function AttemptOf(template: Image, substitute: Image, clusterAmount: int, resizeTo: Option<Size>,
                     resize: Resizer, paste: Paster, findDominant: ColorFinder): Attempt
    requires WellFormed(template)
  {
    if resizeTo.Some? then
      var resized := Resized(substitute, resizeTo.value, resize);
      Attempt(Some(Pos(0, 0)), resized, Pasted(template, resized, Some(Pos(0, 0)), paste))
    else
      var dominant := if clusterAmount == 0 then White else findDominant(template, clusterAmount);
      var placement := PlacementOf(template, dominant);
      var resized := Resized(substitute, placement.size, resize);
      Attempt(placement.position, resized, Pasted(template, resized, placement.position, paste))
  }

  /** The acceptance test on a remembered attempt: an error when any part is
      missing; otherwise true exactly when the substitute covers between
      `thresholdMin` and `thresholdMax` of the template's area, both
      inclusive, and lies inside the template. */
  function Verdict(position: Option<Pos>, resized: Option<Image>, template: Option<Image>,
                   thresholdMin: real, thresholdMax: real): Result<bool, Error>
  {
    if position.None? || resized.None? || template.None? then Failure(NoSubstitutionYet)
    else
      var p, sub, tpl := position.value, resized.value, template.value;
      var templateArea := (tpl.width * tpl.height) as real;
      var substituteArea := (sub.width * sub.height) as real;
      Success(thresholdMin * templateArea <= substituteArea <= thresholdMax * templateArea &&
              0 <= p.x && 0 <= p.y && p.x + sub.width <= tpl.width && p.y + sub.height <= tpl.height)
  }

  /** The verdict, under the default thresholds, on the attempt that
      `substitute_until_valid` makes with cluster amount `clusterAmount`. */
  function Outcome(template: Image, substitute: Image, clusterAmount: int,
                   resize: Resizer, paste: Paster, findDominant: ColorFinder): Result<bool, Error>
    requires WellFormed(template)
  {
    var a := AttemptOf(template, substitute, clusterAmount, None, resize, paste, findDominant);
    Verdict(a.position, Some(a.resized), Some(a.composed), DefaultThresholdMin, DefaultThresholdMax)
  }

  class Generator {
    var lastPlacementPosition: Option<Pos>
    var lastResizedSubstitute: Option<Image>
    var lastTemplate: Option<Image>

    /** A remembered template has a positive area, as every image the
        library opens does. */
    predicate Valid()
      reads this
    {
      lastTemplate.Some? ==> lastTemplate.value.width > 0 && lastTemplate.value.height > 0
    }

    /** No attempt is remembered yet. */
    constructor ()
      ensures Valid()
      ensures lastPlacementPosition.None? && lastResizedSubstitute.None? && lastTemplate.None?
    {
      lastPlacementPosition := None;
      lastResizedSubstitute := None;
      lastTemplate := None;
    }

    /** Makes one attempt, remembers it in place of the previous one and
        returns the pasted template. */
    method Substitute(template: Image, substitute: Image, dominantClusterAmount: int, resizeTo: Option<Size>,
                      resize: Resizer, paste: Paster, findDominant: ColorFinder) returns (result: Image)
      requires WellFormed(template) && template.width > 0 && template.height > 0
      modifies this
      ensures Valid()
      ensures var a := AttemptOf(template, substitute, dominantClusterAmount, resizeTo, resize, paste, findDominant);
        lastPlacementPosition == a.position &&
        lastResizedSubstitute == Some(a.resized) &&
        lastTemplate == Some(a.composed) &&
        result == a.composed
    {
      var resized: Image;
      var placementPosition: Option<Pos>;
      if resizeTo.Some? {
        resized := Resized(substitute, resizeTo.value, resize);
        placementPosition := Some(Pos(0, 0));
      } else {
        var dominantColor := if dominantClusterAmount == 0 then White else findDominant(template, dominantClusterAmount);
        var placement := FindPlacement(template, dominantColor);
        placementPosition := placement.position;
        resized := Resized(substitute, placement.size, resize);
      }
      result := Pasted(template, resized, placementPosition, paste);
      lastPlacementPosition := placementPosition;
      lastResizedSubstitute := Some(resized);
      lastTemplate := Some(result);
    }

    /** The acceptance test on the remembered attempt, computing the coverage
        ratio by division; changes nothing. */
    method ValidateLastSubstitution(thresholdMin: real, thresholdMax: real) returns (r: Result<bool, Error>)
      requires Valid()
      ensures r == Verdict(lastPlacementPosition, lastResizedSubstitute, lastTemplate, thresholdMin, thresholdMax)
    {
      if lastTemplate.None? || lastResizedSubstitute.None? || lastPlacementPosition.None? {
        return Failure(NoSubstitutionYet);
      }
      var template, resized := lastTemplate.value, lastResizedSubstitute.value;
      var templateArea := template.width * template.height;
      var substituteArea := resized.width * resized.height;
      var coverageRatio := substituteArea as real / templateArea as real;
      CoverageRatioBounds(substituteArea as real, templateArea as real, thresholdMin, thresholdMax);
      if !(thresholdMin <= coverageRatio <= thresholdMax) {
        return Success(false);
      }
      var x, y := lastPlacementPosition.value.x, lastPlacementPosition.value.y;
      var w, h := resized.width, resized.height;
      if x < 0 || y < 0 || x + w > template.width || y + h > template.height {
        return Success(false);
      }
      return Success(true);
    }

    /** One round of the retry loop: an attempt with the cluster amount and
        no explicit size, then the acceptance test with the default
        thresholds. */
    method TryClusterAmount(template: Image, substitute: Image, clusterAmount: int,
                            resize: Resizer, paste: Paster, findDominant: ColorFinder)
      returns (result: Image, valid: Result<bool, Error>)
      requires WellFormed(template) && template.width > 0 && template.height > 0
      modifies this
      ensures Valid()
      ensures var a := AttemptOf(template, substitute, clusterAmount, None, resize, paste, findDominant);
        lastPlacementPosition == a.position &&
        lastResizedSubstitute == Some(a.resized) &&
        lastTemplate == Some(a.composed) &&
        result == a.composed
      ensures valid == Outcome(template, substitute, clusterAmount, resize, paste, findDominant)
    {
      result := Substitute(template, substitute, clusterAmount, None, resize, paste, findDominant);
      valid := ValidateLastSubstitution(DefaultThresholdMin, DefaultThresholdMax);
    }

    /** Tries the cluster amounts `low, low + 1, ..., high` in turn and
        returns the pasted template of the first attempt that is accepted;
        nothing when none is. A missing placement makes the acceptance test
        fail with an error, which stops the loop. `tried` lists the amounts
        tried, in order. */
    method SubstituteUntilValid(template: Image, substitute: Image, low: int, high: int,
                                resize: Resizer, paste: Paster, findDominant: ColorFinder)
      returns (r: Result<Option<Image>, Error>, ghost tried: seq<int>)
      requires WellFormed(template) && template.width > 0 && template.height > 0
      requires Valid()
      modifies this
      ensures Valid()
      ensures forall i :: 0 <= i < |tried| ==> tried[i] == low + i
      ensures low + |tried| <= high + 1 || tried == []
      ensures tried == [] <==> low > high
      ensures forall i :: 0 <= i < |tried| - 1 ==>
        Outcome(template, substitute, tried[i], resize, paste, findDominant) == Success(false)
      ensures tried == [] ==> r == Success(None) && unchanged(this)
      ensures tried != [] ==>
        var a := AttemptOf(template, substitute, tried[|tried| - 1], None, resize, paste, findDominant);
        lastPlacementPosition == a.position &&
        lastResizedSubstitute == Some(a.resized) &&
        lastTemplate == Some(a.composed)
      ensures r.Success? && r.value.Some? ==>
        tried != [] &&
        Outcome(template, substitute, tried[|tried| - 1], resize, paste, findDominant) == Success(true) &&
        r.value.value == AttemptOf(template, substitute, tried[|tried| - 1], None, resize, paste, findDominant).composed
      ensures r.Failure? ==>
        tried != [] && Outcome(template, substitute, tried[|tried| - 1], resize, paste, findDominant).Failure?
      ensures r == Success(None) <==>
        forall k :: low <= k <= high ==> Outcome(template, substitute, k, resize, paste, findDominant) == Success(false)
      ensures r == Success(None) ==> |tried| == if low <= high then high - low + 1 else 0
    {
      tried := [];
      var clusterAmount := low;
      while clusterAmount <= high
        invariant low <= clusterAmount <= if low <= high then high + 1 else low
        invariant |tried| == clusterAmount - low
        invariant forall i :: 0 <= i < |tried| ==> tried[i] == low + i
        invariant forall k :: low <= k < clusterAmount ==>
          Outcome(template, substitute, k, resize, paste, findDominant) == Success(false)
        invariant Valid()
        invariant tried == [] ==> unchanged(this)
        invariant tried != [] ==>
          var a := AttemptOf(template, substitute, tried[|tried| - 1], None, resize, paste, findDominant);
          lastPlacementPosition == a.position &&
          lastResizedSubstitute == Some(a.resized) &&
          lastTemplate == Some(a.composed)
      {
        var resultImg, valid := TryClusterAmount(template, substitute, clusterAmount, resize, paste, findDominant);
        tried := tried + [clusterAmount];
        if valid.Failure? {
          return Failure(valid.error), tried;
        }
        if valid.value {
          return Success(Some(resultImg)), tried;
        }
        clusterAmount := clusterAmount + 1;
      }
      r := Success(None);
    }
  }

  /** Comparing the coverage ratio with a bound is comparing the areas with
      the bound scaled by the template's area. */
  lemma CoverageRatioBounds(substituteArea: real, templateArea: real, thresholdMin: real, thresholdMax: real)
    requires templateArea > 0.0
    ensures thresholdMin <= substituteArea / templateArea <==> thresholdMin * templateArea <= substituteArea
    ensures substituteArea / templateArea <= thresholdMax <==> substituteArea <= thresholdMax * templateArea
  {
  }

  /** With an explicit size, the attempt pastes at `(0, 0)` a substitute of
      exactly that size, and neither the cluster amount nor the colour
      finder has any effect. */
  lemma ExplicitSizeSkipsDetection(template: Image, substitute: Image, size: Size,
                                   clusterAmount1: int, findDominant1: ColorFinder,
                                   clusterAmount2: int, findDominant2: ColorFinder,
                                   resize: Resizer, paste: Paster)
    requires WellFormed(template)
    ensures var a := AttemptOf(template, substitute, clusterAmount1, Some(size), resize, paste, findDominant1);
      a == AttemptOf(template, substitute, clusterAmount2, Some(size), resize, paste, findDominant2) &&
      a.position == Some(Pos(0, 0)) &&
      a.resized.width == size.width && a.resized.height == size.height &&
      a.composed.width == template.width && a.composed.height == template.height
  {
  }

  /** Without an explicit size, a cluster amount of 0 never consults the
      colour finder; any other amount scans for the colour the finder gives
      for it. The substitute is resized to the size the scan returns. */
  lemma DetectionFollowsClusterAmount(template: Image, substitute: Image, clusterAmount: int,
                                      resize: Resizer, paste: Paster,
                                      findDominant1: ColorFinder, findDominant2: ColorFinder)
    requires WellFormed(template)
    ensures var a := AttemptOf(template, substitute, clusterAmount, None, resize, paste, findDominant1);
      var placement := PlacementOf(template, if clusterAmount == 0 then White else findDominant1(template, clusterAmount));
      a.position == placement.position &&
      a.resized.width == placement.size.width && a.resized.height == placement.size.height &&
      (clusterAmount == 0 ==> a == AttemptOf(template, substitute, clusterAmount, None, resize, paste, findDominant2))
  {
  }

  /** In the retry loop, the acceptance test fails with an error exactly when
      the scan found no position, that is when it returned height 0. */
  lemma NoPlacementRaises(template: Image, substitute: Image, clusterAmount: int,
                          resize: Resizer, paste: Paster, findDominant: ColorFinder)
    requires WellFormed(template)
    ensures var placement := PlacementOf(template, if clusterAmount == 0 then White else findDominant(template, clusterAmount));
      Outcome(template, substitute, clusterAmount, resize, paste, findDominant).Failure? <==> placement.size.height == 0
  {
    PlacementBounds(template, if clusterAmount == 0 then White else findDominant(template, clusterAmount));
  }

  /** A position the scan finds is never left of or above the template, and
      the band it marks ends inside it; so in the retry loop an attempt with
      a position is accepted exactly when its coverage is within the default
      thresholds and it does not run past the template's right edge. */
  lemma DetectedPlacementFitsVertically(template: Image, substitute: Image, clusterAmount: int,
                                        resize: Resizer, paste: Paster, findDominant: ColorFinder)
    requires WellFormed(template)
    ensures var placement := PlacementOf(template, if clusterAmount == 0 then White else findDominant(template, clusterAmount));
      var outcome := Outcome(template, substitute, clusterAmount, resize, paste, findDominant);
      placement.position.Some? ==>
        outcome.Success? &&
        (outcome.value <==>
           DefaultThresholdMin * (template.width * template.height) as real
             <= (placement.size.width * placement.size.height) as real
             <= DefaultThresholdMax * (template.width * template.height) as real &&
           placement.position.value.x + placement.size.width <= template.width)
  {
    PlacementBounds(template, if clusterAmount == 0 then White else findDominant(template, clusterAmount));
  }

  /** A 500 by 500 substitute on a 1000 by 1000 template covers a quarter of
      it: accepted at `(0, 0)`, refused at `(900, 900)` where it runs out of
      the template; a coverage equal to a threshold is accepted. */
  lemma VerdictExamples(sub: Image, tpl: Image)
    requires sub.width == 500 && sub.height == 500 && tpl.width == 1000 && tpl.height == 1000
    ensures Verdict(Some(Pos(0, 0)), Some(sub), Some(tpl), DefaultThresholdMin, DefaultThresholdMax) == Success(true)
    ensures Verdict(Some(Pos(900, 900)), Some(sub), Some(tpl), DefaultThresholdMin, DefaultThresholdMax) == Success(false)
    ensures Verdict(Some(Pos(0, 0)), Some(sub), Some(tpl), 0.25, 0.25) == Success(true)
  {
  }
}

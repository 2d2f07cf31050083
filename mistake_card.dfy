/** One card of the mistake grid: the letterbox fit of the photo into the
    card's 4:3 frame, the box overlay, the difficulty colour, the quick action
    button and the tags shown. */
module MistakeCard {
  import opened Types
  import TestPaper

  /** Width and height of the photo, in percent of the 4:3 frame. */
  datatype Fit = Fit(width: real, height: real)

  /** The fit of a photo with aspect ratio `ratio` (width over height), or
      `None` before it has loaded. A ratio of 0 is falsy in the source, so it
      fits like a photo that has not loaded. */
  function LetterboxFit(ratio: Option<real>): (f: Fit)
    requires ratio.Some? ==> ratio.value >= 0.0
    ensures 0.0 <= f.width <= 100.0 && 0.0 < f.height <= 100.0
    ensures ratio.None? || ratio.value == 0.0 ==> f == Fit(100.0, 100.0)
    ensures ratio.Some? && ratio.value > 4.0 / 3.0 ==> f.width == 100.0 && f.height < 100.0
    ensures ratio.Some? && 0.0 < ratio.value <= 4.0 / 3.0 ==> f.height == 100.0 && f.width <= 100.0
    ensures ratio.Some? && ratio.value > 0.0 ==> f.width * 4.0 == ratio.value * f.height * 3.0
  {
    if ratio.None? || ratio.value == 0.0 then Fit(100.0, 100.0)
    else
      var a := ratio.value;
      if a > 4.0 / 3.0 then
        var h := (4.0 / 3.0) / a * 100.0;
        assert h * a == 400.0 / 3.0;
        assert h < 100.0 by {
          assert h * a < 100.0 * a;
        }
        Fit(100.0, h)
      else
        var w := a / (4.0 / 3.0) * 100.0;
        assert w == a * 75.0;
        Fit(w, 100.0)
  }

  /** The fitted photo has the photo's own proportions inside a frame of any
      width: the letterbox never distorts it. */
  lemma FitKeepsAspect(ratio: real, frameWidth: real)
    requires ratio > 0.0 && frameWidth > 0.0
    ensures var f := LetterboxFit(Some(ratio));
            var w := f.width / 100.0 * frameWidth;
            var h := f.height / 100.0 * (frameWidth * 3.0 / 4.0);
            h > 0.0 && w / h == ratio
  {
    var f := LetterboxFit(Some(ratio));
    var w := f.width / 100.0 * frameWidth;
    var h := f.height / 100.0 * (frameWidth * 3.0 / 4.0);
    assert w * 400.0 == f.width * frameWidth * 4.0;
    assert h * 400.0 == f.height * frameWidth * 3.0;
    assert w * 400.0 * 3.0 == ratio * f.height * 3.0 * frameWidth * 3.0;
    assert w == ratio * h;
  }

  /** The photo area of a card: its load and error handlers record the photo's
      ratio or the failure. */
  class CardImage {
    var imgError: bool
    var aspect: Option<real>

    ghost predicate Valid()
      reads this
    {
      aspect.Some? ==> aspect.value >= 0.0
    }

    constructor ()
      ensures Valid() && !imgError && aspect.None?
    {
      imgError := false;
      aspect := None;
    }

    /** The photo loaded with the given natural size. */
    method OnLoad(naturalWidth: real, naturalHeight: real)
      requires Valid() && naturalWidth >= 0.0 && naturalHeight > 0.0
      modifies this`aspect
      ensures Valid() && aspect == Some(naturalWidth / naturalHeight)
    {
      aspect := Some(naturalWidth / naturalHeight);
    }

    /** The photo failed to load. */
    method OnError()
      modifies this`imgError
      ensures imgError
    {
      imgError := true;
    }

    /** The fitted photo, or `None` when the card shows the "cannot load"
        placeholder instead. */
    function Shown(): (f: Option<Fit>)
      requires Valid()
      reads this
      ensures f.None? <==> imgError
      ensures f.Some? ==> f.value == LetterboxFit(aspect)
      ensures f.Some? ==> f.value.width <= 100.0 && f.value.height <= 100.0
    {
      if imgError then None else Some(LetterboxFit(aspect))
    }
  }

  /** The box overlay on the card's photo: drawn only over a photo that
      loaded (`imgError` unset), when the record has a box and the grid is not
      in selection mode. */
  function BoxOverlay(m: MistakeRecord, selectionMode: bool, imgError: bool): (r: Option<TestPaper.PercentRect>)
    ensures r.Some? <==> RecordBox(m).Some? && !selectionMode && !imgError
    ensures r.Some? ==> TestPaper.BoxOfOverlay(r.value) == RecordBox(m).value
  {
    if selectionMode || imgError then None
    else
      match RecordBox(m)
      case None => None
      case Some(b) =>
        TestPaper.OverlayRoundTrip(b);
        Some(TestPaper.OverlayRect(b))
  }

  /** The tags a card shows: the first two. */
  function VisibleTags(m: MistakeRecord): (r: seq<string>)
    ensures |r| <= 2
    ensures r <= RecordTags(m)
    ensures |r| == if |RecordTags(m)| < 2 then |RecordTags(m)| else 2
  {
    var tags := RecordTags(m);
    if |tags| <= 2 then tags else tags[..2]
  }

  /** The colour class of a difficulty label; anything else (a record
      without analysis) gets the neutral colour. */
  function DifficultyColor(d: Option<Difficulty>): (c: string)
    ensures c == "text-slate-400" <==> d.None?
  {
    match d
    case Some(Easy) => "text-green-500"
    case Some(Medium) => "text-amber-500"
    case Some(Hard) => "text-rose-500"
    case None => "text-slate-400"
  }

  /** Every difficulty has its own colour, distinct from the neutral one. */
  lemma DifficultyColorsDistinct(d1: Option<Difficulty>, d2: Option<Difficulty>)
    requires d1 != d2
    ensures DifficultyColor(d1) != DifficultyColor(d2)
  {
  }

  /** The difficulty of a record, absent without analysis. */
  function RecordDifficulty(m: MistakeRecord): Option<Difficulty>
  {
    match m.analysis
    case None => None
    case Some(a) => Some(a.difficulty)
  }

  /** The callbacks the card's quick action button can invoke. */
  datatype Callback = OnDelete | OnToggleReview

  /** The callbacks one press of the quick action button invokes: delete for
      a reviewed card (when a delete handler was given), mark reviewed
      otherwise. */
  function HandleAction(isReviewed: bool, hasOnDelete: bool): (calls: seq<Callback>)
    ensures |calls| <= 1
    ensures OnDelete in calls <==> isReviewed && hasOnDelete
    ensures OnToggleReview in calls <==> !isReviewed
  {
    if isReviewed then (if hasOnDelete then [OnDelete] else [])
    else [OnToggleReview]
  }
}

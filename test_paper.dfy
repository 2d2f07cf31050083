/** The practice sheet: the box overlay percentages, the zoom-and-pan crop of
    a question region (`CroppedQuestionImage`), the drag editor for a region
    (`RegionAdjuster`) and the save path that writes an edited region back
    into its record (`handleSaveBox`). */
module TestPaper {
  import opened Types

  // ---------------------------------------------------------------------
  // Overlay percentages

  /** A rectangle placed in CSS percentages of its container. */
  datatype PercentRect = PercentRect(top: real, left: real, width: real, height: real)

  /** The overlay that outlines a box on the full image: the 0..1000 scale
      divided by 10 gives percentages. */
  function OverlayRect(b: Box): (r: PercentRect)
    ensures r.top + r.height == b.ymax / 10.0 && r.left + r.width == b.xmax / 10.0
    ensures OnImage(b) && b.xmin <= b.xmax && b.ymin <= b.ymax ==>
              0.0 <= r.top && r.top + r.height <= 100.0 && 0.0 <= r.left && r.left + r.width <= 100.0
  {
    PercentRect(b.ymin / 10.0, b.xmin / 10.0, (b.xmax - b.xmin) / 10.0, (b.ymax - b.ymin) / 10.0)
  }

  /** Reads a box back from its overlay. */
  function BoxOfOverlay(r: PercentRect): Box
  {
    Box(r.top * 10.0, r.left * 10.0, (r.top + r.height) * 10.0, (r.left + r.width) * 10.0)
  }

  /** The overlay loses nothing: the box can be read back from it. */
  lemma OverlayRoundTrip(b: Box)
    ensures BoxOfOverlay(OverlayRect(b)) == b
  {
  }

  // ---------------------------------------------------------------------
  // Crop renderer

  /** What `CroppedQuestionImage` renders: the whole image, or a container
      of the given aspect ratio holding the image scaled to `width` x `height`
      percent of the container and shifted by `top`/`left` percent. */
  datatype CropView =
    | FullImage
    | Cropped(aspect: real, width: real, height: real, top: real, left: real)

  /** A four-element box array with a positive width and height. */
  predicate Croppable(a: seq<real>)
  {
    |a| == 4 && a[3] - a[1] > 0.0 && a[2] - a[0] > 0.0
  }

  /** The crop of a region given as an array `[ymin, xmin, ymax, xmax]`: the
      whole image when the array is missing or does not hold four numbers. */
  function CroppedImage(box: Option<seq<real>>): (v: CropView)
    requires box.Some? && |box.value| == 4 ==> Croppable(box.value)
    ensures v.FullImage? <==> box.None? || |box.value| != 4
    ensures v.Cropped? ==> v.aspect == (box.value[3] - box.value[1]) / (box.value[2] - box.value[0])
  {
    if box.None? || |box.value| != 4 then FullImage
    else
      var a := box.value;
      var w := a[3] - a[1];
      var h := a[2] - a[0];
      Cropped(w / h, 1000.0 / w * 100.0, 1000.0 / h * 100.0, -(a[0] / h * 100.0), -(a[1] / w * 100.0))
  }

  /** Horizontal position, in percent of the container width, at which the
      image column `x` (0..1000) appears. */
  function ContainerX(v: CropView, x: real): real
    requires v.Cropped?
  {
    v.left + x / 1000.0 * v.width
  }

  /** Vertical position, in percent of the container height, of image row `y`. */
  function ContainerY(v: CropView, y: real): real
    requires v.Cropped?
  {
    v.top + y / 1000.0 * v.height
  }

  /** The image column shown at `p` percent of the container width. */
  function ImageX(v: CropView, p: real): real
    requires v.Cropped? && v.width != 0.0
  {
    (p - v.left) * 1000.0 / v.width
  }

  /** Columns and rows of the image land at their offset from the box's
      origin, measured in box widths and heights. */
  lemma CropPlacement(a: seq<real>, x: real, y: real)
    requires Croppable(a)
    ensures var v := CroppedImage(Some(a));
            ContainerX(v, x) == (x - a[1]) / (a[3] - a[1]) * 100.0 &&
            ContainerY(v, y) == (y - a[0]) / (a[2] - a[0]) * 100.0
  {
    var v := CroppedImage(Some(a));
    var w, h := a[3] - a[1], a[2] - a[0];
    calc {
      ContainerX(v, x);
      -(a[1] / w * 100.0) + x / 1000.0 * (1000.0 / w * 100.0);
      { assert x / 1000.0 * (1000.0 / w * 100.0) == x / w * 100.0; }
      -(a[1] / w * 100.0) + x / w * 100.0;
      (x - a[1]) / w * 100.0;
    }
    calc {
      ContainerY(v, y);
      -(a[0] / h * 100.0) + y / 1000.0 * (1000.0 / h * 100.0);
      { assert y / 1000.0 * (1000.0 / h * 100.0) == y / h * 100.0; }
      -(a[0] / h * 100.0) + y / h * 100.0;
      (y - a[0]) / h * 100.0;
    }
  }

  /** The cropped region exactly fills its container: the box's left and
      top edges sit at 0% and its right and bottom edges at 100%. */
  lemma CropFillsContainer(a: seq<real>)
    requires Croppable(a)
    ensures var v := CroppedImage(Some(a));
            ContainerX(v, a[1]) == 0.0 && ContainerX(v, a[3]) == 100.0 &&
            ContainerY(v, a[0]) == 0.0 && ContainerY(v, a[2]) == 100.0
  {
    CropPlacement(a, a[1], a[0]);
    CropPlacement(a, a[3], a[2]);
  }

  /** The horizontal crop mapping can be inverted: the image column shown at
      a container position maps back to that position. */
  lemma CropRoundTrip(a: seq<real>, p: real)
    requires Croppable(a)
    ensures var v := CroppedImage(Some(a));
            v.width != 0.0 && ContainerX(v, ImageX(v, p)) == p
  {
    var v := CroppedImage(Some(a));
    var w := a[3] - a[1];
    assert v.width == 1000.0 / w * 100.0;
    assert v.width * w == 100000.0;
    assert v.width != 0.0;
    var x := ImageX(v, p);
    assert x / 1000.0 * v.width == p - v.left;
  }

  /** The crop of a record: its box as an array, when it has one. */
  function RecordCrop(m: MistakeRecord): (v: CropView)
    requires RecordBox(m).Some? ==> Croppable(RecordBox(m).value.AsArray())
    ensures v.FullImage? <==> RecordBox(m).None?
  {
    match RecordBox(m)
    case None => CroppedImage(None)
    case Some(b) => CroppedImage(Some(b.AsArray()))
  }

  // ---------------------------------------------------------------------
  // Region editor

  /** The smallest width and height a resize leaves. */
  const MinSize: real := 50.0

  /** The box the editor opens with when the record has none: a centred
      square covering the middle 60% of the image. */
  const DefaultBox: Box := Box(200.0, 200.0, 800.0, 800.0)

  /** The region the editor starts from. */
  function InitialBox(m: MistakeRecord): (b: Box)
    ensures RecordBox(m).None? ==> b == DefaultBox
    ensures RecordBox(m).Some? ==> b == RecordBox(m).value
  {
    match RecordBox(m)
    case None => DefaultBox
    case Some(b) => b
  }

  /** A region that every drag keeps on the image: within 0..1000 and at
      least `MinSize` wide and high. */
  predicate Editable(b: Box)
  {
    0.0 <= b.xmin && b.xmin + MinSize <= b.xmax <= 1000.0 &&
    0.0 <= b.ymin && b.ymin + MinSize <= b.ymax <= 1000.0
  }

  function Max(a: real, b: real): real { if a < b then b else a }
  function Min(a: real, b: real): real { if a < b then a else b }

  /** A pointer distance in pixels as 0..1000 image units, given the
      extent of the rendered image in pixels. */
  function ToUnits(delta: real, extent: real): (u: real)
    requires extent > 0.0
    ensures u * extent == delta * 1000.0
    ensures delta == extent ==> u == 1000.0
    ensures (u < 0.0 <==> delta < 0.0) && (u == 0.0 <==> delta == 0.0)
  {
    delta / extent * 1000.0
  }

  /** Moving the box by (dx, dy) units from its drag-start position, clamped
      so that it stays on the image. */
  function MoveBox(s: Box, dx: real, dy: real): (r: Box)
    ensures r.Width() == s.Width() && r.Height() == s.Height()
    ensures 0.0 <= s.Width() <= 1000.0 ==> 0.0 <= r.xmin && r.xmax <= 1000.0
    ensures 0.0 <= s.Height() <= 1000.0 ==> 0.0 <= r.ymin && r.ymax <= 1000.0
    ensures 0.0 <= s.xmin + dx <= 1000.0 - s.Width() ==> r.xmin == s.xmin + dx
    ensures s.xmin + dx < 0.0 ==> r.xmin == 0.0
    ensures s.Width() <= 1000.0 && s.xmin + dx > 1000.0 - s.Width() ==> r.xmax == 1000.0
    ensures 0.0 <= s.ymin + dy <= 1000.0 - s.Height() ==> r.ymin == s.ymin + dy
    ensures s.ymin + dy < 0.0 ==> r.ymin == 0.0
    ensures s.Height() <= 1000.0 && s.ymin + dy > 1000.0 - s.Height() ==> r.ymax == 1000.0
  {
    var w := s.xmax - s.xmin;
    var h := s.ymax - s.ymin;
    var xmin := Max(0.0, Min(1000.0 - w, s.xmin + dx));
    var ymin := Max(0.0, Min(1000.0 - h, s.ymin + dy));
    Box(ymin, xmin, ymin + h, xmin + w)
  }

  /** Dragging the bottom-right corner by (dx, dy) units from the drag-start
      box: the origin stays, the far corner is clamped to at least `MinSize`
      from it and at most to the image edge. */
  function ResizeBox(s: Box, dx: real, dy: real): (r: Box)
    ensures r.ymin == s.ymin && r.xmin == s.xmin
    ensures r.Width() >= MinSize && r.Height() >= MinSize
    ensures s.xmin <= 1000.0 - MinSize ==> r.xmax <= 1000.0
    ensures s.ymin <= 1000.0 - MinSize ==> r.ymax <= 1000.0
    ensures s.xmin + MinSize <= s.xmax + dx <= 1000.0 ==> r.xmax == s.xmax + dx
    ensures s.xmax + dx < s.xmin + MinSize ==> r.xmax == s.xmin + MinSize
    ensures s.xmin + MinSize <= 1000.0 < s.xmax + dx ==> r.xmax == 1000.0
    ensures s.ymin + MinSize <= s.ymax + dy <= 1000.0 ==> r.ymax == s.ymax + dy
    ensures s.ymax + dy < s.ymin + MinSize ==> r.ymax == s.ymin + MinSize
    ensures s.ymin + MinSize <= 1000.0 < s.ymax + dy ==> r.ymax == 1000.0
  {
    var xmax := Max(s.xmin + MinSize, Min(1000.0, s.xmax + dx));
    var ymax := Max(s.ymin + MinSize, Min(1000.0, s.ymax + dy));
    Box(s.ymin, s.xmin, ymax, xmax)
  }

  /** Both drags keep an editable region editable. */
  lemma DragsKeepEditable(s: Box, dx: real, dy: real)
    requires Editable(s)
    ensures Editable(MoveBox(s, dx, dy)) && Editable(ResizeBox(s, dx, dy))
  {
    var m := MoveBox(s, dx, dy);
    assert m.Width() == s.Width() && m.Height() == s.Height();
    assert 0.0 <= m.xmin && m.xmax <= 1000.0 && 0.0 <= m.ymin && m.ymax <= 1000.0;
    var r := ResizeBox(s, dx, dy);
    assert r.xmin == s.xmin && r.ymin == s.ymin;
    assert r.xmax <= 1000.0 && r.ymax <= 1000.0;
  }

  /** A move by zero leaves a box that lies on the image where it is. */
  lemma MoveByZero(s: Box)
    requires OnImage(s) && s.xmin <= s.xmax && s.ymin <= s.ymax
    ensures MoveBox(s, 0.0, 0.0) == s
  {
    var r := MoveBox(s, 0.0, 0.0);
    assert r.xmin == s.xmin && r.ymin == s.ymin;
    assert r.xmax == s.xmax && r.ymax == s.ymax;
  }

  /** A resize by zero leaves an editable box as it is. */
  lemma ResizeByZero(s: Box)
    requires Editable(s)
    ensures ResizeBox(s, 0.0, 0.0) == s
  {
  }

  /** Clamping settles: a drag that ends where it ended changes nothing more. */
  lemma DragSettles(s: Box, dx: real, dy: real)
    requires Editable(s)
    ensures MoveBox(MoveBox(s, dx, dy), 0.0, 0.0) == MoveBox(s, dx, dy)
    ensures ResizeBox(ResizeBox(s, dx, dy), 0.0, 0.0) == ResizeBox(s, dx, dy)
  {
    DragsKeepEditable(s, dx, dy);
    MoveByZero(MoveBox(s, dx, dy));
    ResizeByZero(ResizeBox(s, dx, dy));
  }

  /** A box whose left edge is within `MinSize` of the right image edge is
      pushed past that edge by any resize. */
  lemma ResizeNearEdgeLeavesImage(s: Box, dx: real, dy: real)
    requires s.xmin > 1000.0 - MinSize
    ensures ResizeBox(s, dx, dy).xmax > 1000.0
  {
  }

  /** The state of a drag: none, moving the body, or resizing from the
      bottom-right corner. */
  datatype DragMode = Idle | Move | Resize

  /** Where a pointer went down: on the overlay body or on its corner handle. */
  datatype Handle = Body | Corner

  /** The corner handle stops the press from reaching the body, so a press
      on it resizes and a press elsewhere on the overlay moves. */
  function ModeFor(h: Handle): (m: DragMode)
    ensures m != Idle
    ensures m == Resize <==> h == Corner
  {
    match h
    case Corner => Resize
    case Body => Move
  }

  /** The drag editor opened on one record. Every pointer move recomputes the
      box from the snapshot taken at pointer-down and the total pointer
      distance since then. */
  class RegionAdjuster {
    var box: Box
    var dragging: DragMode
    var startX: real
    var startY: real
    var boxStart: Box

    constructor (item: MistakeRecord)
      ensures box == InitialBox(item) && boxStart == box
      ensures dragging == Idle && startX == 0.0 && startY == 0.0
    {
      box := InitialBox(item);
      boxStart := InitialBox(item);
      dragging := Idle;
      startX, startY := 0.0, 0.0;
    }

    /** Pointer (mouse or first touch) down on the overlay at (x, y). */
    method PointerDown(x: real, y: real, h: Handle)
      modifies this
      ensures dragging == ModeFor(h)
      ensures startX == x && startY == y && boxStart == old(box)
      ensures box == old(box)
    {
      dragging := ModeFor(h);
      startX, startY := x, y;
      boxStart := box;
    }

    /** Pointer moved to (x, y) over an image rendered `rectWidth` x
        `rectHeight` pixels. */
    method PointerMove(x: real, y: real, rectWidth: real, rectHeight: real)
      requires rectWidth > 0.0 && rectHeight > 0.0
      modifies this`box
      ensures dragging == Idle ==> box == old(box)
      ensures dragging == Move ==>
                box == MoveBox(boxStart, ToUnits(x - startX, rectWidth), ToUnits(y - startY, rectHeight))
      ensures dragging == Resize ==>
                box == ResizeBox(boxStart, ToUnits(x - startX, rectWidth), ToUnits(y - startY, rectHeight))
      ensures Editable(boxStart) && dragging != Idle ==> Editable(box)
    {
      if dragging == Idle {
        return;
      }
      var dx := ToUnits(x - startX, rectWidth);
      var dy := ToUnits(y - startY, rectHeight);
      if dragging == Move {
        box := MoveBox(boxStart, dx, dy);
      } else {
        box := ResizeBox(boxStart, dx, dy);
      }
      if Editable(boxStart) {
        DragsKeepEditable(boxStart, dx, dy);
      }
    }

    /** Pointer (or touch) released: the drag ends, the box stays. */
    method PointerUp()
      modifies this`dragging
      ensures dragging == Idle
    {
      dragging := Idle;
    }
  }

  /** Moving the pointer back to where it already was gives the same box,
      whatever handle was pressed and wherever the pointer went in between:
      each move depends only on the snapshot and the total distance. */
  method RepeatedPointerIsStable(item: MistakeRecord, h: Handle, x0: real, y0: real,
                                 x: real, y: real, x1: real, y1: real, width: real, height: real)
    returns (first: Box, second: Box)
    requires width > 0.0 && height > 0.0
    ensures first == second
    ensures var dx, dy := ToUnits(x - x0, width), ToUnits(y - y0, height);
            second == if h == Body then MoveBox(InitialBox(item), dx, dy) else ResizeBox(InitialBox(item), dx, dy)
  {
    var editor := new RegionAdjuster(item);
    editor.PointerDown(x0, y0, h);
    editor.PointerMove(x, y, width, height);
    first := editor.box;
    editor.PointerMove(x1, y1, width, height);
    editor.PointerMove(x, y, width, height);
    second := editor.box;
  }

  /** A scenario: the default box moved by 200 units each way
      lands against the bottom-right corner of the image. */
  method DefaultBoxMoveScenario(item: MistakeRecord) returns (b: Box)
    requires RecordBox(item).None?
    ensures b == Box(400.0, 400.0, 1000.0, 1000.0)
  {
    var editor := new RegionAdjuster(item);
    editor.PointerDown(100.0, 100.0, Body);
    editor.PointerMove(180.0, 160.0, 400.0, 300.0);
    b := editor.box;
  }

  // ---------------------------------------------------------------------
  // Saving an edited region

  /** The analysis object `{ ...item.analysis!, boundingBox: newBox }` as
      JavaScript builds it: the fields of the record's analysis, if there is
      one, plus the box. */
  datatype SpreadAnalysis = SpreadAnalysis(base: Option<AIAnalysis>, boundingBox: Box)

  /** The tags of such an object, or `None` when reading them fails: with no
      analysis to spread, the object has no `tags` field. */
  function SpreadTags(s: SpreadAnalysis): Option<seq<string>>
  {
    match s.base
    case None => None
    case Some(a) => Some(a.tags)
  }

  /** The analysis `handleSaveBox` builds, as written. */
  function SaveBoxAsWritten(item: MistakeRecord, newBox: Box): (s: SpreadAnalysis)
    ensures s.boundingBox == newBox
    ensures s.base == item.analysis
  {
    SpreadAnalysis(item.analysis, newBox)
  }

  /** As written, saving a box on a record without analysis yields an
      analysis without tags, which every later tag lookup fails on. */
  lemma SaveBoxWithoutAnalysisLosesTags(item: MistakeRecord, newBox: Box)
    requires item.analysis.None?
    ensures SpreadTags(SaveBoxAsWritten(item, newBox)).None?
  {
  }

  /** The record a save hands to the update callback: the same record with
      only its analysis's box replaced. A record without analysis has no
      analysis to hold the box, so there is nothing to update. */
  function SavedRecord(item: MistakeRecord, newBox: Box): (r: Option<MistakeRecord>)
    ensures r.Some? <==> item.analysis.Some?
    ensures r.Some? ==>
              && r.value.id == item.id && r.value.timestamp == item.timestamp
              && r.value.subject == item.subject && r.value.imageUrl == item.imageUrl
              && r.value.isReviewed == item.isReviewed
              && RecordBox(r.value) == Some(newBox)
              && r.value.analysis.value.(boundingBox := None) == item.analysis.value.(boundingBox := None)
  {
    match item.analysis
    case None => None
    case Some(a) => Some(item.(analysis := Some(a.(boundingBox := Some(newBox)))))
  }

  /** Saving keeps every analysis field other than the box, so a saved
      record keeps the tags and text it had. */
  lemma SavedRecordKeepsTags(item: MistakeRecord, newBox: Box)
    requires item.analysis.Some?
    ensures RecordTags(SavedRecord(item, newBox).value) == RecordTags(item)
    ensures QuestionText(SavedRecord(item, newBox).value) == QuestionText(item)
  {
    var r := SavedRecord(item, newBox).value;
    assert r.analysis.value.(boundingBox := None).tags == r.analysis.value.tags;
  }

  /** The practice sheet's editing state: the record whose region is being
      adjusted, and the records handed to the update callback so far. */
  class Sheet {
    var adjusting: Option<MistakeRecord>
    var updates: seq<MistakeRecord>
    const canUpdate: bool

    constructor (canUpdate: bool)
      ensures adjusting.None? && updates == [] && this.canUpdate == canUpdate
    {
      adjusting := None;
      updates := [];
      this.canUpdate := canUpdate;
    }

    /** The adjust button of an item opens the editor on it. */
    method OpenAdjuster(item: MistakeRecord)
      modifies this`adjusting
      ensures adjusting == Some(item)
    {
      adjusting := Some(item);
    }

    /** Cancel (or the close button) closes the editor and calls nothing. */
    method CancelAdjuster()
      modifies this`adjusting
      ensures adjusting.None?
      ensures updates == old(updates)
    {
      adjusting := None;
    }

    /** Save: hands the edited record to the update callback at most once and
        closes the editor. */
    method SaveBox(newBox: Box)
      modifies this`adjusting, this`updates
      ensures adjusting.None?
      ensures if canUpdate && old(adjusting).Some? && old(adjusting).value.analysis.Some?
              then updates == old(updates) + [SavedRecord(old(adjusting).value, newBox).value]
              else updates == old(updates)
    {
      if adjusting.Some? && canUpdate {
        var saved := SavedRecord(adjusting.value, newBox);
        if saved.Some? {
          updates := updates + [saved.value];
        }
      }
      adjusting := None;
    }
  }

  /** Saving after one resize makes exactly one update call, carrying the
      resized box and the record's identity and image. */
  method SaveAfterResizeScenario(item: MistakeRecord, dx: real, dy: real) returns (sheet: Sheet)
    requires item.analysis.Some?
    ensures |sheet.updates| == 1
    ensures sheet.updates[0].id == item.id && sheet.updates[0].imageUrl == item.imageUrl
    ensures RecordBox(sheet.updates[0]) == Some(ResizeBox(InitialBox(item), ToUnits(dx, 400.0), ToUnits(dy, 300.0)))
  {
    sheet := new Sheet(true);
    sheet.OpenAdjuster(item);
    var editor := new RegionAdjuster(item);
    editor.PointerDown(100.0, 100.0, Corner);
    editor.PointerMove(100.0 + dx, 100.0 + dy, 400.0, 300.0);
    editor.PointerUp();
    sheet.SaveBox(editor.box);
  }
}

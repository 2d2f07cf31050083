/** The upload flow: up to five photos are collected, sent for analysis, the
    detected questions are reviewed and selected, and the selected ones become
    new mistake records. */
module UploadForm {
  import opened Types
  import opened Sequences

  /** The most photos one upload holds. */
  const MaxPreviews: nat := 5

  /** The error shown when confirming with no question selected. */
  const NothingSelectedError: string := "请至少勾选一道错题"

  /** The error shown when the analysis fails. */
  const AnalysisFailedError: string := "AI 识别失败。请确保图片清晰。"

  // ---------------------------------------------------------------------
  // Photo previews

  /** The previews after one more photo finished reading: appended, then
      cut back to the first five. */
  function AppendPreview(previews: seq<string>, url: string): (r: seq<string>)
    ensures |r| <= MaxPreviews
    ensures r <= previews + [url]
    ensures |previews| < MaxPreviews ==> r == previews + [url]
    ensures |previews| >= MaxPreviews ==> r == previews[..MaxPreviews]
  {
    var all := previews + [url];
    if |all| <= MaxPreviews then all else all[..MaxPreviews]
  }

  /** `s` without the element at index `i`: `s.filter((_, j) => j !== i)`.
      An index outside `s` removes nothing. */
  function RemoveAt<T>(s: seq<T>, i: int): (r: seq<T>)
    ensures 0 <= i < |s| ==> r == s[..i] + s[i + 1..]
    ensures !(0 <= i < |s|) ==> r == s
    decreases |s|
  {
    if s == [] then []
    else if i == 0 then s[1..]
    else
      var rest := RemoveAt(s[1..], i - 1);
      assert 0 < i < |s| ==> s[..i] == [s[0]] + s[1..][..i - 1] && s[i + 1..] == s[1..][i..];
      assert !(0 <= i < |s|) ==> s == [s[0]] + s[1..];
      [s[0]] + rest
  }

  /** Removing a photo keeps the rest in order and never exceeds the cap. */
  lemma RemoveKeepsCap(previews: seq<string>, i: int)
    requires |previews| <= MaxPreviews
    ensures |RemoveAt(previews, i)| <= MaxPreviews
    ensures 0 <= i < |previews| ==> |RemoveAt(previews, i)| == |previews| - 1
  {
  }

  // ---------------------------------------------------------------------
  // Detected questions

  /** Decimal digits of a natural number. */
  function Decimal(n: nat): (s: string)
    ensures |s| >= 1 && (|s| == 1 <==> n < 10)
    ensures forall k :: 0 <= k < |s| ==> '0' <= s[k] <= '9'
  {
    var d := ['0', '1', '2', '3', '4', '5', '6', '7', '8', '9'][n % 10];
    if n < 10 then [d] else Decimal(n / 10) + [d]
  }

  /** Distinct numbers have distinct decimal spellings. */
  lemma {:induction false} DecimalInjective(a: nat, b: nat)
    requires Decimal(a) == Decimal(b)
    ensures a == b
  {
    var da, db := Decimal(a), Decimal(b);
    if a < 10 {
      assert da[0] == db[0];
    } else {
      assert da[..|da| - 1] == Decimal(a / 10);
      assert db[..|db| - 1] == Decimal(b / 10);
      DecimalInjective(a / 10, b / 10);
      assert da[|da| - 1] == db[|db| - 1];
      assert a % 10 == b % 10;
    }
  }

  /** The temporary id of the `i`-th detected question, `q-<i>-<time>`. */
  function TempId(i: nat, time: nat): (t: string)
    ensures |t| == 3 + |Decimal(i)| + |Decimal(time)| && t[..2] == "q-"
    ensures t[2 + |Decimal(i)|] == '-'
    ensures forall k :: 2 <= k < 2 + |Decimal(i)| ==> '0' <= t[k] <= '9'
  {
    "q-" + Decimal(i) + "-" + Decimal(time)
  }

  /** Questions at different positions get different temporary ids,
      whatever the clock read when each id was made. */
  lemma TempIdsDistinct(i: nat, j: nat, t1: nat, t2: nat)
    requires i != j
    ensures TempId(i, t1) != TempId(j, t2)
  {
    var x, y := TempId(i, t1), TempId(j, t2);
    var n, m := |Decimal(i)|, |Decimal(j)|;
    if n < m {
      assert x[2 + n] != y[2 + n];
    } else if m < n {
      assert x[2 + m] != y[2 + m];
    } else {
      assert x[2..2 + n] == Decimal(i);
      assert y[2..2 + n] == Decimal(j);
      if Decimal(i) == Decimal(j) {
        DecimalInjective(i, j);
        assert false;
      }
    }
  }

  /** The analysis results as selectable questions, all selected; `clock(i)`
      is the time read when the `i`-th result is converted. */
  function Detect(results: seq<AIAnalysis>, clock: nat -> nat): (qs: seq<DetectedQuestion>)
    ensures |qs| == |results|
    ensures forall i :: 0 <= i < |qs| ==>
              qs[i].analysis == results[i] && qs[i].selected && qs[i].tempId == TempId(i, clock(i))
    ensures forall i, j :: 0 <= i < j < |qs| ==> qs[i].tempId != qs[j].tempId
  {
    var qs := seq(|results|, i requires 0 <= i < |results| => DetectedQuestion(results[i], TempId(i, clock(i)), true));
    assert forall i, j :: 0 <= i < j < |qs| ==> qs[i].tempId != qs[j].tempId by {
      forall i, j | 0 <= i < j < |qs| {
        TempIdsDistinct(i, j, clock(i), clock(j));
      }
    }
    qs
  }

  /** Every question is selected (true of no questions at all). */
  predicate AllSelected(qs: seq<DetectedQuestion>)
  {
    forall i :: 0 <= i < |qs| ==> qs[i].selected
  }

  /** A click on a question flips `selected` on the questions with that
      temporary id and leaves everything else as it was. */
  function ToggleQuestion(qs: seq<DetectedQuestion>, id: string): (r: seq<DetectedQuestion>)
    ensures |r| == |qs|
    ensures forall i :: 0 <= i < |qs| ==>
              r[i].analysis == qs[i].analysis && r[i].tempId == qs[i].tempId
    ensures forall i :: 0 <= i < |qs| ==>
              r[i].selected == (if qs[i].tempId == id then !qs[i].selected else qs[i].selected)
  {
    seq(|qs|, i requires 0 <= i < |qs| =>
      if qs[i].tempId == id then qs[i].(selected := !qs[i].selected) else qs[i])
  }

  /** Clicking the same question twice restores the list. */
  lemma ToggleQuestionTwice(qs: seq<DetectedQuestion>, id: string)
    ensures ToggleQuestion(ToggleQuestion(qs, id), id) == qs
  {
    var r := ToggleQuestion(ToggleQuestion(qs, id), id);
    assert |r| == |qs|;
    forall i | 0 <= i < |qs| ensures r[i] == qs[i] {
      assert r[i].analysis == qs[i].analysis && r[i].tempId == qs[i].tempId;
    }
  }

  /** The "select all" button: when every question is selected, none is
      afterwards; otherwise every one is. */
  function ToggleAll(qs: seq<DetectedQuestion>): (r: seq<DetectedQuestion>)
    ensures |r| == |qs|
    ensures forall i :: 0 <= i < |qs| ==>
              r[i].analysis == qs[i].analysis && r[i].tempId == qs[i].tempId
    ensures AllSelected(qs) ==> forall i :: 0 <= i < |r| ==> !r[i].selected
    ensures !AllSelected(qs) ==> AllSelected(r)
  {
    var target := !AllSelected(qs);
    seq(|qs|, i requires 0 <= i < |qs| => qs[i].(selected := target))
  }

  /** On a non-empty list the button always changes its own label: "all
      selected" flips. */
  lemma ToggleAllFlips(qs: seq<DetectedQuestion>)
    requires qs != []
    ensures AllSelected(ToggleAll(qs)) <==> !AllSelected(qs)
  {
    if AllSelected(qs) {
      assert !ToggleAll(qs)[0].selected;
    }
  }

  /** The questions the user kept. */
  function Selected(qs: seq<DetectedQuestion>): (r: seq<DetectedQuestion>)
    ensures SubsequenceOf(r, qs)
    ensures forall q :: q in r <==> q in qs && q.selected
    ensures forall q :: multiset(r)[q] == if q.selected then multiset(qs)[q] else 0
  {
    Filter(qs, (q: DetectedQuestion) => q.selected)
  }

  // ---------------------------------------------------------------------
  // Building records

  /** The photo a question came from: the preview at its source index
      (0 when absent), falling back to the first preview when that entry is
      missing or empty. */
  function SourceImage(previews: seq<string>, index: Option<int>): (url: string)
    requires previews != []
    ensures url in previews
    ensures var i := if index.Some? then index.value else 0;
            if 0 <= i < |previews| && previews[i] != "" then url == previews[i] else url == previews[0]
  {
    var i := if index.Some? then index.value else 0;
    if 0 <= i < |previews| && previews[i] != "" then previews[i] else previews[0]
  }

  /** The record saved for one selected question: the chosen subject, not
      yet reviewed, the question's analysis (its box included) without the
      source index, and the photo it came from. `suffix` stands for the
      random part of the id and `time` for the clock. */
  function RecordFor(q: DetectedQuestion, previews: seq<string>, subject: Subject, suffix: string, time: int): (m: MistakeRecord)
    requires previews != []
    ensures m.subject == subject && !m.isReviewed && m.timestamp == time
    ensures m.imageUrl in previews && m.imageUrl == SourceImage(previews, q.analysis.sourceImageIndex)
    ensures m.analysis.Some? && m.analysis.value.(sourceImageIndex := q.analysis.sourceImageIndex) == q.analysis
    ensures m.analysis.value.sourceImageIndex.None?
    ensures RecordBox(m) == q.analysis.boundingBox && RecordTags(m) == q.analysis.tags
    ensures m.id == q.tempId + "-" + suffix
  {
    MistakeRecord(
      q.tempId + "-" + suffix,
      time,
      subject,
      SourceImage(previews, q.analysis.sourceImageIndex),
      Some(q.analysis.(sourceImageIndex := None)),
      false)
  }

  /** One new record per selected question, in order; `suffix(k)` and
      `clock(k)` are the random id part and time read for the `k`-th one. */
  function BuildRecords(qs: seq<DetectedQuestion>, previews: seq<string>, subject: Subject,
                        suffix: nat -> string, clock: nat -> int): (rs: seq<MistakeRecord>)
    requires previews != []
    ensures |rs| == |Selected(qs)|
    ensures forall k :: 0 <= k < |rs| ==> rs[k] == RecordFor(Selected(qs)[k], previews, subject, suffix(k), clock(k))
  {
    var sel := Selected(qs);
    seq(|sel|, k requires 0 <= k < |sel| => RecordFor(sel[k], previews, subject, suffix(k), clock(k)))
  }

  /** Every new record comes from a question the user selected, carries its
      box and tags, is unreviewed and in the chosen subject. */
  lemma BuildRecordsFromSelection(qs: seq<DetectedQuestion>, previews: seq<string>, subject: Subject,
                                  suffix: nat -> string, clock: nat -> int, k: int)
    requires previews != []
    requires 0 <= k < |BuildRecords(qs, previews, subject, suffix, clock)|
    ensures var m := BuildRecords(qs, previews, subject, suffix, clock)[k];
            exists q :: q in qs && q.selected &&
              RecordBox(m) == q.analysis.boundingBox && RecordTags(m) == q.analysis.tags &&
              m.subject == subject && !m.isReviewed && m.imageUrl in previews
  {
    var q := Selected(qs)[k];
    assert q in Selected(qs);
  }

  /** Confirming the selection: an error when nothing is selected, the new
      records otherwise. */
  datatype Confirmation = NothingSelected | Records(records: seq<MistakeRecord>)

  function Confirm(qs: seq<DetectedQuestion>, previews: seq<string>, subject: Subject,
                   suffix: nat -> string, clock: nat -> int): (c: Confirmation)
    requires previews != []
    ensures c.NothingSelected? <==> forall q :: q in qs ==> !q.selected
    ensures c.Records? ==> c.records != [] && c.records == BuildRecords(qs, previews, subject, suffix, clock)
  {
    if Selected(qs) == [] then
      NothingSelected
    else
      assert Selected(qs)[0] in Selected(qs);
      Records(BuildRecords(qs, previews, subject, suffix, clock))
  }

  // ---------------------------------------------------------------------
  // The form

  datatype Step = Upload | Analyzing | Selecting

  /** The upload form: its step, chosen subject, photos, detected questions
      and error message. */
  class Form {
    var step: Step
    var subject: Subject
    var previews: seq<string>
    var questions: seq<DetectedQuestion>
    var error: Option<string>

    /** At most five photos, and at least one once analysis has begun. */
    ghost predicate Valid()
      reads this
    {
      |previews| <= MaxPreviews && (step != Upload ==> previews != [])
    }

    constructor ()
      ensures Valid()
      ensures step == Upload && subject == Math && previews == [] && questions == [] && error.None?
    {
      step := Upload;
      subject := Math;
      previews := [];
      questions := [];
      error := None;
    }

    /** One of the three subject buttons. */
    method SelectSubject(s: Subject)
      requires s != All
      modifies this`subject
      ensures subject == s
    {
      subject := s;
    }

    /** A photo finished reading. */
    method AddPreview(url: string)
      requires Valid()
      modifies this`previews
      ensures Valid()
      ensures previews == AppendPreview(old(previews), url)
    {
      previews := AppendPreview(previews, url);
    }

    /** The remove button of photo `i`, shown on the upload step. */
    method RemoveImage(i: int)
      requires Valid() && step == Upload
      modifies this`previews
      ensures Valid()
      ensures previews == RemoveAt(old(previews), i)
    {
      RemoveKeepsCap(previews, i);
      previews := RemoveAt(previews, i);
    }

    /** The start button: does nothing without photos, otherwise enters the
        analysing step and clears the error. */
    method BeginAnalysis() returns (started: bool)
      requires Valid()
      modifies this`step, this`error
      ensures Valid()
      ensures started <==> old(previews) != []
      ensures started ==> step == Analyzing && error.None?
      ensures !started ==> step == old(step) && error == old(error)
    {
      if previews == [] {
        return false;
      }
      step := Analyzing;
      error := None;
      started := true;
    }

    /** The analysis returned: its results (`None` when the call failed) and
        the clock read for each result. */
    method FinishAnalysis(outcome: Option<seq<AIAnalysis>>, clock: nat -> nat)
      requires Valid() && step == Analyzing
      modifies this`step, this`questions, this`error
      ensures Valid()
      ensures outcome.Some? ==>
                step == Selecting && questions == Detect(outcome.value, clock) && AllSelected(questions)
                && error == old(error)
      ensures outcome.None? ==>
                step == Upload && error == Some(AnalysisFailedError) && questions == old(questions)
    {
      match outcome
      case Some(results) =>
        questions := Detect(results, clock);
        step := Selecting;
      case None =>
        error := Some(AnalysisFailedError);
        step := Upload;
    }

    method ToggleQuestionSelection(id: string)
      modifies this`questions
      ensures questions == ToggleQuestion(old(questions), id)
    {
      questions := ToggleQuestion(questions, id);
    }

    method ToggleAllQuestions()
      modifies this`questions
      ensures questions == ToggleAll(old(questions))
    {
      questions := ToggleAll(questions);
    }

    /** The back button of the selection step. */
    method BackToUpload()
      requires Valid()
      modifies this`step
      ensures Valid() && step == Upload
    {
      step := Upload;
    }

    /** The confirm button: sets the error and emits nothing when no question
        is selected, otherwise emits one record per selected question. */
    method ConfirmSave(suffix: nat -> string, clock: nat -> int) returns (emitted: Option<seq<MistakeRecord>>)
      requires Valid() && step == Selecting
      modifies this`error
      ensures emitted.None? <==> forall q :: q in questions ==> !q.selected
      ensures emitted.None? ==> error == Some(NothingSelectedError)
      ensures emitted.Some? ==>
                error == old(error) && emitted.value == BuildRecords(questions, previews, subject, suffix, clock)
    {
      var c := Confirm(questions, previews, subject, suffix, clock);
      if c.NothingSelected? {
        error := Some(NothingSelectedError);
        emitted := None;
      } else {
        emitted := Some(c.records);
      }
    }
  }

  /** A crop preview in the selection list: nothing without a box; the
      container's aspect ratio divides by 1 when the box has no height. */
  function PreviewAspect(box: Option<Box>): (r: Option<real>)
    ensures r.None? <==> box.None?
    ensures box.Some? && box.value.Height() != 0.0 ==> r.value * box.value.Height() == box.value.Width()
    ensures box.Some? && box.value.Height() == 0.0 ==> r.value == box.value.Width()
  {
    match box
    case None => None
    case Some(b) =>
      var h := b.ymax - b.ymin;
      Some((b.xmax - b.xmin) / (if h == 0.0 then 1.0 else h))
  }
}

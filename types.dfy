/** The records the notebook stores: the subject enumeration, the analysis the
    vision service returns for one question, a detected (not yet saved)
    question, a saved mistake record and the learner's statistics. */
module Types {

  datatype Option<+T> = None | Some(value: T)

  /** The three school subjects and `All`, which the list filters read as
      "any subject". */
  datatype Subject = Math | Chinese | English | All

  /** The three difficulty labels an analysis may carry. */
  datatype Difficulty = Easy | Medium | Hard

  /** A question region as [ymin, xmin, ymax, xmax], each a fraction of the
      image height or width scaled to 0..1000. */
  datatype Box = Box(ymin: real, xmin: real, ymax: real, xmax: real)
  {
    function Width(): real { xmax - xmin }
    function Height(): real { ymax - ymin }

    /** The box as the four-element array the components index into. */
    function AsArray(): (a: seq<real>)
      ensures |a| == 4
      ensures a[0] == ymin && a[1] == xmin && a[2] == ymax && a[3] == xmax
    {
      [ymin, xmin, ymax, xmax]
    }
  }

  /** A box lies on the image: every coordinate within 0..1000. */
  predicate OnImage(b: Box)
  {
    0.0 <= b.ymin && 0.0 <= b.xmin && b.ymax <= 1000.0 && b.xmax <= 1000.0
  }

  datatype AIAnalysis = AIAnalysis(
    questionText: string,
    questionType: string,
    originalAnswer: string,
    correctAnswer: string,
    explanation: string,
    difficulty: Difficulty,
    tags: seq<string>,
    sourceImageIndex: Option<int>,
    boundingBox: Option<Box>)

  /** An analysis as detected on upload, before the user confirms it. */
  datatype DetectedQuestion = DetectedQuestion(analysis: AIAnalysis, tempId: string, selected: bool)

  datatype MistakeRecord = MistakeRecord(
    id: string,
    timestamp: int,
    subject: Subject,
    imageUrl: string,
    analysis: Option<AIAnalysis>,
    isReviewed: bool)

  datatype UserStats = UserStats(
    xp: int,
    level: int,
    streak: int,
    lastActive: int,
    totalMistakes: int,
    reviewedCount: int,
    achievements: seq<string>)

  /** The bounding box of a record, absent when the record has no analysis or
      the analysis has no box. */
  function RecordBox(m: MistakeRecord): Option<Box>
  {
    match m.analysis
    case None => None
    case Some(a) => a.boundingBox
  }

  /** The tags of a record; a record without analysis has none. */
  function RecordTags(m: MistakeRecord): seq<string>
  {
    match m.analysis
    case None => []
    case Some(a) => a.tags
  }

  /** The question text of a record, empty when it has no analysis. */
  function QuestionText(m: MistakeRecord): string
  {
    match m.analysis
    case None => ""
    case Some(a) => a.questionText
  }
}

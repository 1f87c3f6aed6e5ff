/** The attempt record the engine reads, as an explicit optional-field schema:
    `None` stands for a key missing from the JSON object, and every read
    states its default. */
module Schema {
  import opened Wrappers

  /** A JSON number. */
  type Number = real

  /** The ways `process_data` fails: `ValueError` on a top level that is neither
      a list nor an object, `AttributeError` when the first element of a
      top-level list is not an object, `IndexError` on a present but empty
      `chapters` list. */
  datatype Error = InvalidStructure | NotAnObject | EmptyChapters

  /** An object whose only key read is `title` (a chapter, a concept, a sectionId). */
  datatype Titled = Titled(title: Option<string>)

  /** The `questionId` object of a question. */
  datatype QuestionInfo = QuestionInfo(
    chapters: Option<seq<Titled>>,
    level: Option<string>,
    concepts: Option<seq<Titled>>)

  /** The `value` key of an `inputValue` object: missing, JSON null, or a value. */
  datatype ValueSlot = Absent | Null | Given(json: string)

  /** An `inputValue` object; `otherKeys` counts the keys besides `value` and
      `isCorrect`, which matter only to whether the object is empty. */
  datatype InputValue = InputValue(value: ValueSlot, isCorrect: Option<bool>, otherKeys: nat)

  /** One entry of `markedOptions`. */
  datatype MarkedOption = MarkedOption(isCorrect: Option<bool>)

  datatype Question = Question(
    questionId: Option<QuestionInfo>,
    timeTaken: Option<Number>,
    markedOptions: Option<seq<MarkedOption>>,
    inputValue: Option<InputValue>)

  datatype Section = Section(sectionId: Option<Titled>, questions: Option<seq<Question>>)

  /** The `subjectId` object of a subject summary, holding `$oid`. */
  datatype SubjectId = SubjectId(oid: Option<string>)

  datatype SubjectEntry = SubjectEntry(
    subjectId: Option<SubjectId>,
    totalMarkScored: Option<Number>,
    totalAttempted: Option<Number>,
    totalCorrect: Option<Number>,
    accuracy: Option<Number>,
    totalTimeTaken: Option<Number>)

  /** The `test` object: totals of the paper; `totalTime` is in minutes. */
  datatype TestInfo = TestInfo(
    totalMarks: Option<Number>,
    totalQuestions: Option<Number>,
    totalTime: Option<Number>)

  datatype AttemptRecord = AttemptRecord(
    totalMarkScored: Option<Number>,
    test: Option<TestInfo>,
    totalAttempted: Option<Number>,
    totalCorrect: Option<Number>,
    accuracy: Option<Number>,
    totalTimeTaken: Option<Number>,
    subjects: Option<seq<SubjectEntry>>,
    sections: Option<seq<Section>>)

  /** The object `{}`: every key missing. */
  const EmptyRecord := AttemptRecord(None, None, None, None, None, None, None, None)

  /** The top-level JSON value handed to the engine. */
  datatype Document = Object(record: AttemptRecord) | Array(items: seq<Document>) | Scalar

  /** The input check at the head of `process_data`: a list stands for its
      first element (`{}` when empty), an object for itself, and anything else
      is refused. */
  function Normalize(doc: Document): (r: Result<AttemptRecord, Error>)
    ensures doc.Scalar? <==> r == Err(InvalidStructure)
    ensures doc.Object? ==> r == Ok(doc.record)
    ensures doc == Array([]) ==> r == Ok(EmptyRecord)
    ensures doc.Array? && doc.items != [] ==>
              (doc.items[0].Object? <==> r.Ok?) &&
              (r.Ok? ==> r.value == doc.items[0].record) &&
              (r.Err? ==> r.error == NotAnObject)
  {
    match doc
    case Array(items) =>
      if items == [] then Ok(EmptyRecord)
      else if items[0].Object? then Ok(items[0].record)
      else Err(NotAnObject)
    case Object(record) => Ok(record)
    case Scalar => Err(InvalidStructure)
  }

  /** The `overall` block of the bundle. */
  datatype Overall = Overall(
    marksScored: Number,
    totalMarks: Number,
    attempted: Number,
    totalQuestions: Number,
    correct: Number,
    accuracy: Number,
    timeTaken: Number,
    totalTime: Number)

  /** The `test` object, `{}` when missing. */
  function TestOf(rec: AttemptRecord): TestInfo {
    rec.test.GetOr(TestInfo(None, None, None))
  }

  /** The echo of the record's totals: each field copied when present and 0
      when missing; the allotted time is converted from minutes to seconds. */
  function OverallOf(rec: AttemptRecord): (o: Overall)
    ensures o.totalTime == 60.0 * TestOf(rec).totalTime.GetOr(0.0)
    ensures rec.test.None? ==> o.totalMarks == 0.0 && o.totalQuestions == 0.0 && o.totalTime == 0.0
    ensures o.totalMarks == TestOf(rec).totalMarks.GetOr(0.0)
    ensures o.totalQuestions == TestOf(rec).totalQuestions.GetOr(0.0)
    ensures o.marksScored == rec.totalMarkScored.GetOr(0.0)
    ensures o.attempted == rec.totalAttempted.GetOr(0.0)
    ensures o.correct == rec.totalCorrect.GetOr(0.0)
    ensures o.accuracy == rec.accuracy.GetOr(0.0)
    ensures o.timeTaken == rec.totalTimeTaken.GetOr(0.0)
  {
    var test := TestOf(rec);
    Overall(
      rec.totalMarkScored.GetOr(0.0),
      test.totalMarks.GetOr(0.0),
      rec.totalAttempted.GetOr(0.0),
      test.totalQuestions.GetOr(0.0),
      rec.totalCorrect.GetOr(0.0),
      rec.accuracy.GetOr(0.0),
      rec.totalTimeTaken.GetOr(0.0),
      test.totalTime.GetOr(0.0) * 60.0)
  }
}

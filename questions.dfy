/** Per-question work of the engine's main pass: reading the question's
    grouping fields with their defaults, classifying it as attempted and
    correct, and flattening all sections into the `questions_data` records. */
module Questions {
  import opened Wrappers
  import opened Schema
  import opened Subjects
  import opened Text

  /** The attempted and correct flags of one question. */
  datatype Verdict = Verdict(attempted: bool, correct: bool)

  /** `any(opt.get('isCorrect', False) for opt in opts)`. */
  function AnyMarkedCorrect(opts: seq<MarkedOption>): (r: bool)
    ensures r <==> exists i :: 0 <= i < |opts| && opts[i].isCorrect == Some(true)
  {
    if opts == [] then false
    else
      assert forall i :: 0 < i < |opts| ==> opts[i] == opts[1..][i - 1];
      opts[0].isCorrect.GetOr(false) || AnyMarkedCorrect(opts[1..])
  }

  /** A Python dict is truthy when it has at least one key. */
  predicate NonEmpty(iv: InputValue) {
    iv.value != Absent || iv.isCorrect.Some? || iv.otherKeys > 0
  }

  /** The marked options, `[]` when missing. */
  function MarkedOf(q: Question): seq<MarkedOption> {
    q.markedOptions.GetOr([])
  }

  /** The classification rule, checked in a fixed order: non-empty marked
      options first, then a non-empty input value, else unattempted. */
  function Classify(q: Question): (v: Verdict)
    ensures v.correct ==> v.attempted
    ensures MarkedOf(q) != [] ==>
              v.attempted &&
              (v.correct <==> exists i :: 0 <= i < |MarkedOf(q)| && MarkedOf(q)[i].isCorrect == Some(true))
    ensures MarkedOf(q) == [] && q.inputValue.Some? && NonEmpty(q.inputValue.value) ==>
              (v.attempted <==> q.inputValue.value.value.Given?) &&
              (v.correct <==> v.attempted && q.inputValue.value.isCorrect == Some(true))
    ensures MarkedOf(q) == [] && (q.inputValue.None? || !NonEmpty(q.inputValue.value)) ==>
              !v.attempted && !v.correct
  {
    var marked := MarkedOf(q);
    if |marked| > 0 then
      var attempted := |marked| > 0;
      Verdict(attempted, if attempted then AnyMarkedCorrect(marked) else false)
    else if q.inputValue.Some? && NonEmpty(q.inputValue.value) then
      var input := q.inputValue.value;
      var attempted := input.value.Given?;
      Verdict(attempted, if attempted then input.isCorrect.GetOr(false) else false)
    else
      Verdict(false, false)
  }

  /** A question counts as attempted exactly when it has a recorded answer:
      some marked option, or an input value that is not null. */
  lemma ClassifyAttemptedIff(q: Question)
    ensures Classify(q).attempted <==>
              MarkedOf(q) != [] || (q.inputValue.Some? && q.inputValue.value.value.Given?)
  {
  }

  /** Marked options take priority: while there are any, the input value
      plays no part in the verdict. */
  lemma ClassifyMarkedFirst(q: Question, other: Option<InputValue>)
    requires MarkedOf(q) != []
    ensures Classify(q.(inputValue := other)) == Classify(q)
  {
  }

  /** The question's `questionId` object, `{}` when missing. */
  function InfoOf(q: Question): QuestionInfo {
    q.questionId.GetOr(QuestionInfo(None, None, None))
  }

  /** `q_data.get('chapters', [{}])[0].get('title', 'Unknown')`: the default
      list applies only when the key is missing, so a present but empty list
      raises `IndexError`. */
  function ChapterOf(q: Question): (r: Result<string, Error>)
    ensures r.Err? <==> InfoOf(q).chapters == Some([])
    ensures r.Err? ==> r.error == EmptyChapters
    ensures InfoOf(q).chapters.None? ==> r == Ok("Unknown")
    ensures InfoOf(q).chapters.Some? && InfoOf(q).chapters.value != [] ==>
              r == Ok(InfoOf(q).chapters.value[0].title.GetOr("Unknown"))
  {
    match InfoOf(q).chapters
    case None => Ok("Unknown")
    case Some(chapters) =>
      if chapters == [] then Err(EmptyChapters) else Ok(chapters[0].title.GetOr("Unknown"))
  }

  /** The question's `level`, "Unknown" when missing. */
  function DifficultyOf(q: Question): (r: string)
    ensures InfoOf(q).level.Some? ==> r == InfoOf(q).level.value
    ensures InfoOf(q).level.None? ==> r == "Unknown"
  {
    InfoOf(q).level.GetOr("Unknown")
  }

  /** One title per concept tag, in order, "Unknown" for an untitled tag. */
  function ConceptsOf(q: Question): (r: seq<string>)
    ensures InfoOf(q).concepts.None? ==> r == []
    ensures InfoOf(q).concepts.Some? ==> |r| == |InfoOf(q).concepts.value|
    ensures InfoOf(q).concepts.Some? ==>
              forall i :: 0 <= i < |r| ==>
                (InfoOf(q).concepts.value[i].title.Some? ==> r[i] == InfoOf(q).concepts.value[i].title.value) &&
                (InfoOf(q).concepts.value[i].title.None? ==> r[i] == "Unknown")
  {
    var tags := InfoOf(q).concepts.GetOr([]);
    seq(|tags|, i requires 0 <= i < |tags| => tags[i].title.GetOr("Unknown"))
  }

  /** The question's `timeTaken`, 0 when missing. */
  function TimeOf(q: Question): (r: Number)
    ensures q.timeTaken.Some? ==> r == q.timeTaken.value
    ensures q.timeTaken.None? ==> r == 0.0
  {
    q.timeTaken.GetOr(0.0)
  }

  /** One entry of `questions_data`. */
  datatype QuestionRecord = QuestionRecord(
    subject: string,
    chapter: string,
    difficulty: string,
    concepts: seq<string>,
    attempted: bool,
    correct: bool,
    timeTaken: Number)

  /** The record of question `q` in a section whose title resolves to `subject`. */
  function RecordOf(subject: string, q: Question): (r: Result<QuestionRecord, Error>)
    ensures r.Ok? <==> ChapterOf(q).Ok?
    ensures r.Ok? ==> r.value.subject == subject && r.value.chapter == ChapterOf(q).value
    ensures r.Ok? ==> r.value.attempted == Classify(q).attempted && r.value.correct == Classify(q).correct
    ensures r.Ok? ==> r.value.correct ==> r.value.attempted
    ensures r.Ok? ==> r.value.difficulty == DifficultyOf(q) && r.value.concepts == ConceptsOf(q)
    ensures r.Ok? ==> r.value.timeTaken == TimeOf(q)
  {
    var chapter :- ChapterOf(q);
    var v := Classify(q);
    Ok(QuestionRecord(subject, chapter, DifficultyOf(q), ConceptsOf(q), v.attempted, v.correct, TimeOf(q)))
  }

  /** A question with no `questionId` and no `timeTaken` gets the defaults:
      chapter and difficulty "Unknown", no concept tags and time 0. */
  lemma RecordDefaults(subject: string, q: Question)
    requires q.questionId.None? && q.timeTaken.None?
    ensures RecordOf(subject, q).Ok?
    ensures var r := RecordOf(subject, q).value;
            r.chapter == "Unknown" && r.difficulty == "Unknown" && r.concepts == [] && r.timeTaken == 0.0
  {
  }

  /** The subject tag of a section's questions, from its title (`''` when
      missing, which resolves to "Unknown"). */
  function SectionSubject(s: Section): (r: string)
    ensures s.sectionId.Some? && s.sectionId.value.title.Some? ==> r == SubjectFromTitle(s.sectionId.value.title.value)
    ensures s.sectionId.None? || s.sectionId.value.title.None? ==> r == "Unknown"
  {
    SubjectFromTitlePriority("");
    assert Lower("") == "";
    SubjectFromTitle(match s.sectionId case Some(id) => id.title.GetOr("") case None => "")
  }

  function QuestionsOf(s: Section): seq<Question> {
    s.questions.GetOr([])
  }

  /** The records the engine appends for questions `qs` of one section, in
      order, or the error of the first question that fails. */
  function QuestionRecords(subject: string, qs: seq<Question>): (r: Result<seq<QuestionRecord>, Error>)
    ensures r.Err? ==> r.error == EmptyChapters
    ensures r.Ok? ==> |r.value| == |qs|
  {
    if qs == [] then Ok([])
    else
      var n := |qs| - 1;
      var init :- QuestionRecords(subject, qs[..n]);
      var last :- RecordOf(subject, qs[n]);
      Ok(init + [last])
  }

  /** The section's records succeed exactly when every question's does, and
      then record `j` is that of question `j`. */
  lemma {:induction false} QuestionRecordsAt(subject: string, qs: seq<Question>)
    ensures QuestionRecords(subject, qs).Ok? <==> forall j :: 0 <= j < |qs| ==> RecordOf(subject, qs[j]).Ok?
    ensures QuestionRecords(subject, qs).Ok? ==>
              forall j :: 0 <= j < |qs| ==> RecordOf(subject, qs[j]) == Ok(QuestionRecords(subject, qs).value[j])
  {
    if qs != [] {
      var n := |qs| - 1;
      QuestionRecordsAt(subject, qs[..n]);
      assert forall j :: 0 <= j < n ==> qs[j] == qs[..n][j];
    }
  }

  /** Number of questions over all sections. */
  function TotalQuestions(sections: seq<Section>): nat {
    if sections == [] then 0
    else TotalQuestions(sections[..|sections| - 1]) + |QuestionsOf(sections[|sections| - 1])|
  }

  /** The section has a question whose `chapters` list is present and empty. */
  ghost predicate HasEmptyChapters(s: Section) {
    exists j :: 0 <= j < |QuestionsOf(s)| && ChapterOf(QuestionsOf(s)[j]).Err?
  }

  /** `questions_data` after the main pass over `sections`: the sections'
      records one after another, or the `IndexError` of an empty chapter list. */
  function AllRecords(sections: seq<Section>): (r: Result<seq<QuestionRecord>, Error>)
    ensures r.Err? ==> r.error == EmptyChapters
    ensures r.Ok? ==> |r.value| == TotalQuestions(sections)
  {
    if sections == [] then Ok([])
    else
      var n := |sections| - 1;
      var s := sections[n];
      var init :- AllRecords(sections[..n]);
      var recs :- QuestionRecords(SectionSubject(s), QuestionsOf(s));
      Ok(init + recs)
  }

  /** The pass fails exactly when some section has a question with a
      present but empty `chapters` list. */
  lemma {:induction false} AllRecordsOkIff(sections: seq<Section>)
    ensures AllRecords(sections).Ok? <==> forall i :: 0 <= i < |sections| ==> !HasEmptyChapters(sections[i])
  {
    if sections != [] {
      var n := |sections| - 1;
      AllRecordsOkIff(sections[..n]);
      QuestionRecordsAt(SectionSubject(sections[n]), QuestionsOf(sections[n]));
      assert forall i :: 0 <= i < n ==> sections[i] == sections[..n][i];
    }
  }

  /** One more section appends its records. */
  lemma AllRecordsSnoc(ss: seq<Section>, s: Section)
    ensures var recs := QuestionRecords(SectionSubject(s), QuestionsOf(s));
            AllRecords(ss + [s]) ==
              if AllRecords(ss).Err? then AllRecords(ss)
              else if recs.Err? then Err(recs.error)
              else Ok(AllRecords(ss).value + recs.value)
  {
    assert (ss + [s])[..|ss|] == ss;
    assert (ss + [s])[|ss|] == s;
  }

  /** A single section contributes the records of its questions. */
  lemma AllRecordsOfOne(s: Section)
    ensures AllRecords([s]) == QuestionRecords(SectionSubject(s), QuestionsOf(s))
  {
    AllRecordsSnoc([], s);
    assert [] + [s] == [s];
    var recs := QuestionRecords(SectionSubject(s), QuestionsOf(s));
    if recs.Ok? {
      assert [] + recs.value == recs.value;
    }
  }

  /** Sections contribute their records one after another, so
      `questions_data` is in section-then-question order. */
  lemma {:induction false} AllRecordsAppend(ss: seq<Section>, ts: seq<Section>)
    requires AllRecords(ss).Ok? && AllRecords(ts).Ok?
    ensures AllRecords(ss + ts) == Ok(AllRecords(ss).value + AllRecords(ts).value)
    decreases |ts|
  {
    if ts == [] {
      assert ss + ts == ss;
      assert AllRecords(ts) == Ok([]);
      assert AllRecords(ss).value + [] == AllRecords(ss).value;
    } else {
      var n := |ts| - 1;
      var front, last := ts[..n], ts[n];
      assert ts == front + [last];
      AllRecordsSnoc(front, last);
      AllRecordsAppend(ss, front);
      AppendStep(ss, front, last);
    }
  }

  lemma AppendStep(ss: seq<Section>, front: seq<Section>, last: Section)
    requires AllRecords(ss).Ok? && AllRecords(front + [last]).Ok?
    requires AllRecords(front).Ok?
    requires AllRecords(ss + front) == Ok(AllRecords(ss).value + AllRecords(front).value)
    ensures AllRecords(ss + (front + [last])) == Ok(AllRecords(ss).value + AllRecords(front + [last]).value)
  {
    var a, f := AllRecords(ss).value, AllRecords(front).value;
    var recs := QuestionRecords(SectionSubject(last), QuestionsOf(last));
    AllRecordsSnoc(front, last);
    assert recs.Ok?;
    assert AllRecords(front + [last]) == Ok(f + recs.value);
    AllRecordsSnoc(ss + front, last);
    assert AllRecords((ss + front) + [last]) == Ok((a + f) + recs.value);
    assert ss + (front + [last]) == (ss + front) + [last];
    ConcatAssoc(a, f, recs.value);
  }

  lemma ConcatAssoc<T>(a: seq<T>, b: seq<T>, c: seq<T>)
    ensures (a + b) + c == a + (b + c)
  {
  }
}

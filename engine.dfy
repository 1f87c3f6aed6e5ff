/** `process_data`: input check, echo of the totals, the `subjects` table,
    the single pass over sections and questions that fills the three grouped
    tables and `questions_data`, the metrics of each table and the timing
    averages. */
module Engine {
  import opened Wrappers
  import opened Schema
  import opened Subjects
  import opened Questions
  import opened Tables
  import opened Metrics

  /** What the main pass produces: the three performance tables and the
      per-question records. */
  datatype Pass = Pass(
    chapters: map<(string, string), Perf>,
    difficulties: map<string, Perf>,
    concepts: map<(string, string), Perf>,
    questionsData: seq<QuestionRecord>)

  /** The main pass as a function of the sections: every table is the fold of
      the records, which are the sections' questions in order. */
  function PassOf(sections: seq<Section>): Result<Pass, Error> {
    var rs :- AllRecords(sections);
    Ok(Pass(FoldTable(rs, ChapterKeys), FoldTable(rs, DifficultyKeys), FoldTable(rs, ConceptKeys), rs))
  }

  /** The result of `process_data`. */
  datatype Bundle = Bundle(
    overall: Overall,
    subjects: map<string, SubjectSummary>,
    chapterMetrics: map<(string, string), Metric>,
    difficultyMetrics: map<string, Metric>,
    conceptMetrics: map<(string, string), Metric>,
    avgTimeCorrect: real,
    avgTimeIncorrect: real,
    questionsData: seq<QuestionRecord>)

  function SubjectsOf(rec: AttemptRecord): seq<SubjectEntry> {
    rec.subjects.GetOr([])
  }

  function SectionsOf(rec: AttemptRecord): seq<Section> {
    rec.sections.GetOr([])
  }

  /** `process_data` as a function of its arguments. */
  function ProcessSpec(doc: Document, subjectMap: Option<map<string, string>>): Result<Bundle, Error> {
    var rec :- Normalize(doc);
    var pass :- PassOf(SectionsOf(rec));
    Ok(Bundle(
      OverallOf(rec),
      SubjectsTable(SubjectMapOr(subjectMap), SubjectsOf(rec)),
      MetricsTable(pass.chapters),
      MetricsTable(pass.difficulties),
      MetricsTable(pass.concepts),
      Mean(CorrectTimes(pass.questionsData)),
      Mean(IncorrectTimes(pass.questionsData)),
      pass.questionsData))
  }

  /** The three tables are the folds of the records gathered so far. */
  ghost predicate Consistent(pass: Pass) {
    && pass.chapters == FoldTable(pass.questionsData, ChapterKeys)
    && pass.difficulties == FoldTable(pass.questionsData, DifficultyKeys)
    && pass.concepts == FoldTable(pass.questionsData, ConceptKeys)
  }

  /** The main pass: the loop over sections. A question whose `chapters` list
      is present and empty stops the whole call. */
  method Accumulate(sections: seq<Section>) returns (r: Result<Pass, Error>)
    ensures r == PassOf(sections)
  {
    var pass := Pass(map[], map[], map[], []);
    for i := 0 to |sections|
      invariant AllRecords(sections[..i]) == Ok(pass.questionsData)
      invariant Consistent(pass)
    {
      var section := sections[i];
      assert sections[..i + 1][..i] == sections[..i];
      var next := TallySection(pass, SectionSubject(section), QuestionsOf(section));
      if next.Err? {
        assert !AllRecords(sections).Ok? by {
          assert !AllRecords(sections[..i + 1]).Ok?;
          assert sections[..i + 1][i] == sections[i];
          AllRecordsOkIff(sections[..i + 1]);
          AllRecordsOkIff(sections);
        }
        return Err(next.error);
      }
      pass := next.value;
    }
    assert sections[..|sections|] == sections;
    r := Ok(pass);
  }

  /** The inner loop over the questions of one section whose title resolves
      to `subject`: each question's record is tallied and then appended. */
  method TallySection(pass: Pass, subject: string, questions: seq<Question>) returns (r: Result<Pass, Error>)
    requires Consistent(pass)
    ensures r.Ok? <==> QuestionRecords(subject, questions).Ok?
    ensures r.Err? ==> r.error == EmptyChapters
    ensures r.Ok? ==> Consistent(r.value)
    ensures r.Ok? ==> r.value.questionsData == pass.questionsData + QuestionRecords(subject, questions).value
  {
    var chapterPerf, difficultyPerf, conceptPerf := pass.chapters, pass.difficulties, pass.concepts;
    var questionsData := pass.questionsData;
    for j := 0 to |questions|
      invariant QuestionRecords(subject, questions[..j]).Ok?
      invariant questionsData == pass.questionsData + QuestionRecords(subject, questions[..j]).value
      invariant chapterPerf == FoldTable(questionsData, ChapterKeys)
      invariant difficultyPerf == FoldTable(questionsData, DifficultyKeys)
      invariant conceptPerf == FoldTable(questionsData, ConceptKeys)
    {
      var question := questions[j];
      var chapterOrError := ChapterOf(question);
      if chapterOrError.Err? {
        assert !RecordOf(subject, questions[j]).Ok?;
        QuestionRecordsAt(subject, questions);
        return Err(chapterOrError.error);
      }
      var chapter := chapterOrError.value;
      var difficulty := DifficultyOf(question);
      var concepts := ConceptsOf(question);
      var timeTaken := TimeOf(question);
      var verdict := Classify(question);
      var attempted, correct := verdict.attempted, verdict.correct;
      var record := QuestionRecord(subject, chapter, difficulty, concepts, attempted, correct, timeTaken);
      assert RecordOf(subject, question) == Ok(record);
      chapterPerf, difficultyPerf, conceptPerf := TallyQuestion(chapterPerf, difficultyPerf, conceptPerf, record);
      FoldTableSnoc(questionsData, ChapterKeys, record);
      FoldTableSnoc(questionsData, DifficultyKeys, record);
      FoldTableSnoc(questionsData, ConceptKeys, record);
      questionsData := questionsData + [record];
      assert questions[..j + 1][..j] == questions[..j];
    }
    assert questions[..|questions|] == questions;
    r := Ok(Pass(chapterPerf, difficultyPerf, conceptPerf, questionsData));
  }

  /** The body of the inner loop for one question, once its record is known:
      an attempted question counts under its chapter, its difficulty and each
      of its concept tags, and then, when correct, counts as correct under
      each of them. */
  method TallyQuestion(
    chapterPerf: map<(string, string), Perf>,
    difficultyPerf: map<string, Perf>,
    conceptPerf: map<(string, string), Perf>,
    record: QuestionRecord)
    returns (chapters: map<(string, string), Perf>, difficulties: map<string, Perf>, concepts: map<(string, string), Perf>)
    ensures chapters == Contribute(chapterPerf, ChapterKeys(record), record)
    ensures difficulties == Contribute(difficultyPerf, DifficultyKeys(record), record)
    ensures concepts == Contribute(conceptPerf, ConceptKeys(record), record)
  {
    chapters, difficulties, concepts := chapterPerf, difficultyPerf, conceptPerf;
    var subject, timeTaken := record.subject, record.timeTaken;
    if record.attempted {
      var chapterKey := (subject, record.chapter);
      var p := Lookup(chapters, chapterKey);
      chapters := chapters[chapterKey := Perf(p.attempted + 1, p.correct, p.timeTaken + timeTaken)];
      var d := Lookup(difficulties, record.difficulty);
      difficulties := difficulties[record.difficulty := Perf(d.attempted + 1, d.correct, d.timeTaken + timeTaken)];
      concepts := TallyConceptAttempts(concepts, subject, record.concepts, timeTaken);
      OneKey(chapterPerf, chapterKey, timeTaken);
      OneKey(difficultyPerf, record.difficulty, timeTaken);
      if record.correct {
        p := Lookup(chapters, chapterKey);
        chapters := chapters[chapterKey := Perf(p.attempted, p.correct + 1, p.timeTaken)];
        d := Lookup(difficulties, record.difficulty);
        difficulties := difficulties[record.difficulty := Perf(d.attempted, d.correct + 1, d.timeTaken)];
        concepts := TallyConceptCorrects(concepts, subject, record.concepts);
        OneKey(AddAttempt(chapterPerf, chapterKey, timeTaken), chapterKey, timeTaken);
        OneKey(AddAttempt(difficultyPerf, record.difficulty, timeTaken), record.difficulty, timeTaken);
      }
    }
  }

  /** The loop that credits an attempt and its time to `(subject, concept)`
      for each concept tag. */
  method TallyConceptAttempts(perf: map<(string, string), Perf>, subject: string, concepts: seq<string>, timeTaken: real)
    returns (result: map<(string, string), Perf>)
    ensures result == AddAttempts(perf, TagKeys(subject, concepts), timeTaken)
  {
    result := perf;
    for c := 0 to |concepts|
      invariant result == AddAttempts(perf, TagKeys(subject, concepts)[..c], timeTaken)
    {
      var conceptKey := (subject, concepts[c]);
      var e := Lookup(result, conceptKey);
      result := result[conceptKey := Perf(e.attempted + 1, e.correct, e.timeTaken + timeTaken)];
      AddAttemptsStep(perf, TagKeys(subject, concepts), c, timeTaken);
    }
    assert TagKeys(subject, concepts)[..|concepts|] == TagKeys(subject, concepts);
  }

  /** The loop that credits a correct answer to `(subject, concept)` for each
      concept tag. */
  method TallyConceptCorrects(perf: map<(string, string), Perf>, subject: string, concepts: seq<string>)
    returns (result: map<(string, string), Perf>)
    ensures result == AddCorrects(perf, TagKeys(subject, concepts))
  {
    result := perf;
    for c := 0 to |concepts|
      invariant result == AddCorrects(perf, TagKeys(subject, concepts)[..c])
    {
      var conceptKey := (subject, concepts[c]);
      var e := Lookup(result, conceptKey);
      result := result[conceptKey := Perf(e.attempted, e.correct + 1, e.timeTaken)];
      AddCorrectsStep(perf, TagKeys(subject, concepts), c);
    }
    assert TagKeys(subject, concepts)[..|concepts|] == TagKeys(subject, concepts);
  }

  /** `process_data`. */
  method ProcessData(doc: Document, subjectMap: Option<map<string, string>>) returns (r: Result<Bundle, Error>)
    ensures r == ProcessSpec(doc, subjectMap)
    ensures doc.Scalar? ==> r == Err(InvalidStructure)
    ensures doc.Array? && doc.items != [] && doc.items[0].Object? ==> r == ProcessSpec(doc.items[0], subjectMap)
  {
    var table := SubjectMapOr(subjectMap);
    var normalized := Normalize(doc);
    if normalized.Err? {
      return Err(normalized.error);
    }
    var rec := normalized.value;
    var overall := OverallOf(rec);
    var subjects := BuildSubjects(table, SubjectsOf(rec));
    var pass := Accumulate(SectionsOf(rec));
    if pass.Err? {
      return Err(pass.error);
    }
    var chapterMetrics := CalculateMetrics(pass.value.chapters);
    var difficultyMetrics := CalculateMetrics(pass.value.difficulties);
    var conceptMetrics := CalculateMetrics(pass.value.concepts);
    var questionsData := pass.value.questionsData;
    var avgTimeCorrect := Mean(CorrectTimes(questionsData));
    var avgTimeIncorrect := Mean(IncorrectTimes(questionsData));
    assert chapterMetrics == MetricsTable(pass.value.chapters);
    assert difficultyMetrics == MetricsTable(pass.value.difficulties);
    assert conceptMetrics == MetricsTable(pass.value.concepts);
    r := Ok(Bundle(overall, subjects, chapterMetrics, difficultyMetrics, conceptMetrics,
                   avgTimeCorrect, avgTimeIncorrect, questionsData));
  }

  // ---------------------------------------------------------------------
  // What the bundle promises.

  /** The call fails exactly when the top level is refused or some question
      has a present but empty `chapters` list; it never fails otherwise. */
  lemma ProcessSpecFails(doc: Document, subjectMap: Option<map<string, string>>)
    ensures ProcessSpec(doc, subjectMap).Err? <==>
              Normalize(doc).Err? ||
              exists i :: 0 <= i < |SectionsOf(Normalize(doc).value)| &&
                          HasEmptyChapters(SectionsOf(Normalize(doc).value)[i])
    ensures Normalize(doc).Ok? && ProcessSpec(doc, subjectMap).Err? ==>
              ProcessSpec(doc, subjectMap).error == EmptyChapters
  {
    if Normalize(doc).Ok? {
      AllRecordsOkIff(SectionsOf(Normalize(doc).value));
    }
  }

  /** `questions_data` has one record per question, and every grouped table
      is the metrics of the fold of `questions_data` under its keys. */
  lemma BundleRecords(doc: Document, subjectMap: Option<map<string, string>>)
    requires ProcessSpec(doc, subjectMap).Ok?
    ensures var b := ProcessSpec(doc, subjectMap).value;
            && |b.questionsData| == TotalQuestions(SectionsOf(Normalize(doc).value))
            && b.chapterMetrics == MetricsTable(FoldTable(b.questionsData, ChapterKeys))
            && b.difficultyMetrics == MetricsTable(FoldTable(b.questionsData, DifficultyKeys))
            && b.conceptMetrics == MetricsTable(FoldTable(b.questionsData, ConceptKeys))
            && b.avgTimeCorrect == Mean(CorrectTimes(b.questionsData))
            && b.avgTimeIncorrect == Mean(IncorrectTimes(b.questionsData))
  {
  }

  /** Every entry of the three grouped metrics tables has at least one
      attempt, no more correct answers than attempts and an accuracy within
      0..100; its counts are those of the records that credit its key. */
  lemma BundleEntries(doc: Document, subjectMap: Option<map<string, string>>)
    requires ProcessSpec(doc, subjectMap).Ok?
    ensures var b := ProcessSpec(doc, subjectMap).value;
            var rs := b.questionsData;
            forall k :: k in b.chapterMetrics ==>
              && 1 <= b.chapterMetrics[k].attempted == AttemptHits(rs, ChapterKeys, k)
              && b.chapterMetrics[k].correct == CorrectHits(rs, ChapterKeys, k)
              && b.chapterMetrics[k].correct <= b.chapterMetrics[k].attempted
              && 0.0 <= b.chapterMetrics[k].accuracy <= 100.0
    ensures var b := ProcessSpec(doc, subjectMap).value;
            var rs := b.questionsData;
            forall k :: k in b.difficultyMetrics ==>
              && 1 <= b.difficultyMetrics[k].attempted == AttemptHits(rs, DifficultyKeys, k)
              && b.difficultyMetrics[k].correct == CorrectHits(rs, DifficultyKeys, k)
              && b.difficultyMetrics[k].correct <= b.difficultyMetrics[k].attempted
              && 0.0 <= b.difficultyMetrics[k].accuracy <= 100.0
    ensures var b := ProcessSpec(doc, subjectMap).value;
            var rs := b.questionsData;
            forall k :: k in b.conceptMetrics ==>
              && 1 <= b.conceptMetrics[k].attempted == AttemptHits(rs, ConceptKeys, k)
              && b.conceptMetrics[k].correct == CorrectHits(rs, ConceptKeys, k)
              && b.conceptMetrics[k].correct <= b.conceptMetrics[k].attempted
              && 0.0 <= b.conceptMetrics[k].accuracy <= 100.0
  {
    BundleRecords(doc, subjectMap);
    var rs := ProcessSpec(doc, subjectMap).value.questionsData;
    FoldedMetricsSound(rs, ChapterKeys);
    FoldedMetricsSound(rs, DifficultyKeys);
    FoldedMetricsSound(rs, ConceptKeys);
  }

  /** Conservation: the chapter and the difficulty table each sum to the
      number of attempted questions and of correct ones; the concept table
      to the number of their concept tags, repeats included. */
  lemma BundleTotals(doc: Document, subjectMap: Option<map<string, string>>)
    requires ProcessSpec(doc, subjectMap).Ok?
    ensures var b := ProcessSpec(doc, subjectMap).value;
            var rs := b.questionsData;
            && Total(b.chapterMetrics, MetricAttempts) == CountAttempted(rs)
            && Total(b.chapterMetrics, MetricCorrects) == CountCorrect(rs) == |CorrectTimes(rs)|
            && Total(b.difficultyMetrics, MetricAttempts) == CountAttempted(rs)
            && Total(b.difficultyMetrics, MetricCorrects) == CountCorrect(rs)
            && Total(b.conceptMetrics, MetricAttempts) == AttemptedConceptTags(rs)
            && Total(b.conceptMetrics, MetricCorrects) == CorrectConceptTags(rs)
  {
    var b := ProcessSpec(doc, subjectMap).value;
    var rs := b.questionsData;
    TableTotals(rs);
    MetricsTableTotals(FoldTable(rs, ChapterKeys));
    MetricsTableTotals(FoldTable(rs, DifficultyKeys));
    MetricsTableTotals(FoldTable(rs, ConceptKeys));
  }
}

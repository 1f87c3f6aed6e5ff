/** Concrete walks through the pass: small inputs whose outputs are known. */
module Scenarios {
  import opened Wrappers
  import opened Schema
  import opened Questions
  import opened Tables
  import opened Metrics
  import opened Engine
  import opened Subjects
  import opened Text

  function OpticsRecord(correct: bool, timeTaken: real): QuestionRecord {
    QuestionRecord("Physics", "Optics", "easy", ["Lens", "Mirror"], true, correct, timeTaken)
  }

  /** Two attempts at one chapter, one correct in 20 and one wrong in 40:
      the chapter row has 2 attempts, 1 correct, 50% and 30 on average. */
  lemma TwoAttemptsOneChapter()
    ensures MetricsTable(FoldTable([OpticsRecord(true, 20.0), OpticsRecord(false, 40.0)], ChapterKeys)) ==
              map[("Physics", "Optics") := Metric(2, 1, 50.0, 30.0)]
  {
    var rs := [OpticsRecord(true, 20.0), OpticsRecord(false, 40.0)];
    var key := ("Physics", "Optics");
    assert rs[..1] == [OpticsRecord(true, 20.0)];
    assert rs[..1][..0] == [];
    OneKey(map[], key, 20.0);
    OneKey(AddAttempt(map[], key, 20.0), key, 20.0);
    assert FoldTable(rs[..1], ChapterKeys) == map[key := Perf(1, 1, 20.0)];
    OneKey(map[key := Perf(1, 1, 20.0)], key, 40.0);
    assert FoldTable(rs, ChapterKeys) == map[key := Perf(2, 1, 60.0)];
    assert MetricsTable(map[key := Perf(2, 1, 60.0)]) == map[key := Metric(2, 1, 50.0, 30.0)];
  }

  /** For the same two questions the two averages are 20 and 40. */
  lemma TwoAttemptsAverages()
    ensures Mean(CorrectTimes([OpticsRecord(true, 20.0), OpticsRecord(false, 40.0)])) == 20.0
    ensures Mean(IncorrectTimes([OpticsRecord(true, 20.0), OpticsRecord(false, 40.0)])) == 40.0
  {
    var rs := [OpticsRecord(true, 20.0), OpticsRecord(false, 40.0)];
    assert rs[..1] == [OpticsRecord(true, 20.0)];
    assert rs[..1][..0] == [];
    assert CorrectTimes(rs[..1]) == [20.0];
    assert CorrectTimes(rs) == [20.0];
    assert IncorrectTimes(rs[..1]) == [];
    assert IncorrectTimes(rs) == [40.0];
    assert [20.0][..0] == [] && [40.0][..0] == [];
    assert Sum([20.0]) == 20.0 && Sum([40.0]) == 40.0;
  }

  /** An unattempted question leaves no row anywhere and both averages at 0. */
  lemma UnattemptedLeavesNoRow()
    ensures var rs := [QuestionRecord("Physics", "Optics", "easy", ["Lens"], false, false, 30.0)];
            && FoldTable(rs, ChapterKeys) == map[]
            && FoldTable(rs, DifficultyKeys) == map[]
            && FoldTable(rs, ConceptKeys) == map[]
            && Mean(CorrectTimes(rs)) == 0.0
            && Mean(IncorrectTimes(rs)) == 0.0
  {
    var rs := [QuestionRecord("Physics", "Optics", "easy", ["Lens"], false, false, 30.0)];
    assert rs[..0] == [];
  }

  /** A correct question with two concept tags credits each tag once. */
  lemma TwoConceptTags()
    ensures MetricsTable(FoldTable([OpticsRecord(true, 30.0)], ConceptKeys)) ==
              map[("Physics", "Lens") := Metric(1, 1, 100.0, 30.0),
                  ("Physics", "Mirror") := Metric(1, 1, 100.0, 30.0)]
  {
    var rs := [OpticsRecord(true, 30.0)];
    var lens, mirror := ("Physics", "Lens"), ("Physics", "Mirror");
    var ks := [lens, mirror];
    assert rs[..0] == [];
    assert ConceptKeys(rs[0]) == ks;
    assert ks[..1] == [lens] && ks[..1][..0] == [];
    OneKey(map[], lens, 30.0);
    assert AddAttempts(map[], ks[..1], 30.0) == map[lens := Perf(1, 0, 30.0)];
    var attempted := AddAttempts(map[], ks, 30.0);
    assert attempted == map[lens := Perf(1, 0, 30.0), mirror := Perf(1, 0, 30.0)];
    var table := map[lens := Perf(1, 1, 30.0), mirror := Perf(1, 1, 30.0)];
    OneKey(attempted, lens, 30.0);
    assert AddCorrects(attempted, ks[..1]) == map[lens := Perf(1, 1, 30.0), mirror := Perf(1, 0, 30.0)];
    assert AddCorrects(attempted, ks) == table;
    assert FoldTable(rs, ConceptKeys) == table;
  }

  /** A list wrapping a record is processed as that record, whatever follows it. */
  lemma ListIsItsFirstElement(rec: AttemptRecord, rest: seq<Document>, subjectMap: Option<map<string, string>>)
    ensures ProcessSpec(Array([Object(rec)] + rest), subjectMap) == ProcessSpec(Object(rec), subjectMap)
  {
  }

  /** A question of chapter "Optics" with one marked option, flagged correct,
      answered in 30. */
  const OpticsQuestion := Question(
    Some(QuestionInfo(Some([Titled(Some("Optics"))]), Some("easy"), Some([]))),
    Some(30.0),
    Some([MarkedOption(Some(true))]),
    None)

  /** A record with one section titled "Physics Mock" holding that question. */
  const PhysicsMock := Object(EmptyRecord.(sections := Some([Section(Some(Titled(Some("Physics Mock"))), Some([OpticsQuestion]))])))

  lemma PhysicsMockSubject()
    ensures SubjectFromTitle("Physics Mock") == "Physics"
  {
    var t := Lower("Physics Mock");
    assert t[..4] == "phys";
    SubjectFromTitlePriority("Physics Mock");
  }

  lemma PhysicsMockRecords()
    ensures AllRecords(SectionsOf(PhysicsMock.record)) ==
              Ok([QuestionRecord("Physics", "Optics", "easy", [], true, true, 30.0)])
  {
    var section := SectionsOf(PhysicsMock.record)[0];
    PhysicsMockSubject();
    assert SectionSubject(section) == "Physics";
    var r := QuestionRecord("Physics", "Optics", "easy", [], true, true, 30.0);
    assert AnyMarkedCorrect([MarkedOption(Some(true))]);
    assert RecordOf("Physics", OpticsQuestion) == Ok(r);
    assert [OpticsQuestion][..0] == [];
    assert QuestionRecords("Physics", [OpticsQuestion]) == Ok([] + [r]);
    assert [] + [r] == [r];
    AllRecordsOfOne(section);
  }

  /** The whole call on that record: the chapter row (Physics, Optics) has
      1 attempt, 1 correct, 100% and 30 on average; the averages are 30 and 0. */
  lemma PhysicsMockBundle()
    ensures ProcessSpec(PhysicsMock, None).Ok?
    ensures var b := ProcessSpec(PhysicsMock, None).value;
            && b.chapterMetrics == map[("Physics", "Optics") := Metric(1, 1, 100.0, 30.0)]
            && b.avgTimeCorrect == 30.0
            && b.avgTimeIncorrect == 0.0
  {
    PhysicsMockRecords();
    var r := QuestionRecord("Physics", "Optics", "easy", [], true, true, 30.0);
    var rs := [r];
    assert rs[..0] == [];
    var key := ("Physics", "Optics");
    OneKey(map[], key, 30.0);
    OneKey(AddAttempt(map[], key, 30.0), key, 30.0);
    assert FoldTable(rs, ChapterKeys) == map[key := Perf(1, 1, 30.0)];
    assert MetricsTable(map[key := Perf(1, 1, 30.0)]) == map[key := Metric(1, 1, 100.0, 30.0)];
    assert CorrectTimes(rs) == [30.0];
    assert [30.0][..0] == [];
    assert IncorrectTimes(rs) == [];
  }

  /** A missing subject identifier is looked up as the string "Unknown", so a
      caller map with that key names the entry by its value. */
  lemma MissingIdLooksUpUnknown()
    ensures SubjectName(map["Unknown" := "Physics"], SubjectEntry(None, None, None, None, None, None)) == "Physics"
    ensures SubjectName(DefaultSubjectMap, SubjectEntry(None, None, None, None, None, None)) == "Unknown"
  {
  }
}

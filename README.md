# Student feedback aggregation engine, in Dafny

This project models the aggregation engine of the student feedback system (`data_processing.py`). It covers two pieces:

- `get_subject_from_title`, which resolves a section title to one of four subject labels.
- `process_data`, which turns one test-attempt record into the analysis bundle. The bundle holds:
  - the `overall` echo;
  - the `subjects` table;
  - the chapter, difficulty and concept metrics tables;
  - the two timing averages;
  - the flat `questions_data` list.

Modules, one per stage of the engine:

- `Wrappers` holds `Option` and `Result`.
- `Text` holds ASCII lower-casing and substring search.
- `Schema` holds the input record, with every JSON key an `Option`. It also holds the top-level input check and the `overall` block.
- `Subjects` covers the title resolver, resolution by subject identifier, and the `subjects` loop.
- `Questions` covers the per-question field defaults, the attempted/correct classification and the `questions_data` records.
- `Tables` holds the three grouped performance tables. Each is one generic left fold over the records, keyed by chapter, by difficulty or by concept tag. It also states each key's entry and the table totals as counts over the records.
- `Metrics` covers `calculate_metrics` and the two timing averages.
- `Engine` holds the executable pass. Its methods with loops carry invariants that tie the running maps to the folds. It also holds the whole `process_data` and the properties of its bundle.
- `Scenarios` holds small concrete inputs with known outputs.

Design choices:

- The source mutates state, so the model does too. The loop over sections, the inner loop over questions, the two loops over concept tags, the loop that fills `subjects` and the loop of `calculate_metrics` are all Dafny methods with loops. Each is proved equal to a pure specification function, and the properties are proved about those functions.
- JSON numbers are `real`, so every ratio is exact.
- `subject_map` is an optional map. When it is absent, the three default identifiers of lines 15-19 are used.
- `Engine.ProcessData` is tied to the source through its equality with the pure specification `Engine.ProcessSpec`. The properties of the bundle are lemmas about `ProcessSpec`.
- Where the code would raise, the model returns a `Result` error instead:
  - `ValueError` for a top-level value that is neither a list nor an object.
  - `AttributeError` for a list whose first element is not an object.
  - `IndexError` for a question whose `chapters` list is present but empty.

Three behaviours of the code that a reader of the source might not expect; the model states what the code does:

- **Lists wrap a record.** The code takes the first element of any non-empty list (data_processing.py:21-22). A two-element list is therefore processed as its first element, not refused. `Scenarios.ListIsItsFirstElement` states this.
- **No rows for unattempted questions.** A question that was never attempted creates no row in any grouped table (lines 80-95). The table does not get a row with zero counts. `Scenarios.UnattemptedLeavesNoRow` states this.
- **Two ways to name a subject.** The subject used to group questions comes from the section title (line 59). This is independent of the `subjects` table, which is keyed by identifier through `subject_map` (lines 39-41). The two can disagree for the same subject.

## Model

| member | source | states |
|---|---|---|
| Subjects.SubjectFromTitle | data_processing.py:3-11 | The resolver returns one of "Physics", "Chemistry", "Mathematics", "Unknown" |
| Subjects.SubjectFromTitlePriority | data_processing.py:3-11 | Strict priority over the lower-cased title: "Physics" if it contains "phys"; else "Chemistry" if "chem"; else "Mathematics" if "math"; else "Unknown". The longer keywords never change the outcome |
| Subjects.PhysicsWinsOverChemistry | data_processing.py:5-8 | A title mentioning both "physics" and "chem" resolves to "Physics" |
| Text.ContainsIffOccurs | data_processing.py:5 | Python's `keyword in title` holds iff the keyword occurs at some index of the title |
| Schema.Normalize | data_processing.py:21-24 | An object passes through. An empty list gives `{}`. A non-empty list gives its first element, which must be an object. Anything else is refused with the invalid-structure error |
| Schema.OverallOf | data_processing.py:26-35 | Each echoed total is the record's value, or 0 when the key is missing. Total marks and total questions come from the `test` object. The allotted total time is the test's `totalTime` times 60. With no `test` object, all three test totals are 0 |
| Subjects.SummaryOf | data_processing.py:41-48 | Every `subjects` row has total marks 100. Its other five fields are the entry's values, or 0 when missing |
| Subjects.SubjectName | data_processing.py:39-40 | A missing identifier is looked up as the string "Unknown". An identifier in `subject_map` is named by its value there; an identifier not in `subject_map` is named "Unknown" |
| Subjects.SubjectMapOr | data_processing.py:14-19 | With no `subject_map` from the caller, the three default identifiers are used. A map the caller passes is used as given, even when empty |
| Subjects.SubjectsTableLastWins | data_processing.py:37-48 | The `subjects` table has a row for exactly the names the entries resolve to, where a missing identifier is looked up as the string "Unknown" and an identifier not in `subject_map` is named "Unknown". Each row is the summary of the last entry that resolves to that name |
| Subjects.BuildSubjects | data_processing.py:37-48 | The loop builds exactly the `subjects` table of the fold |
| Questions.AnyMarkedCorrect | data_processing.py:72 | True iff some marked option has `isCorrect` true |
| Questions.Classify | data_processing.py:68-78 | Non-empty marked options: the question is attempted, and correct iff some option is correct. Otherwise, a non-empty `inputValue`: attempted iff its `value` is not null, and correct iff attempted and `isCorrect` is true. Otherwise neither. Correct always implies attempted |
| Questions.ClassifyAttemptedIff | data_processing.py:68-78 | Attempted iff there is a marked option or an input value whose `value` is not null |
| Questions.ClassifyMarkedFirst | data_processing.py:70-73 | While marked options exist, replacing the input value never changes the verdict |
| Questions.ChapterOf | data_processing.py:62-63 | The chapter fails iff `chapters` is present and empty (the `IndexError`). A missing `chapters` key gives "Unknown". A non-empty list gives the first chapter's title, or "Unknown" when it has none |
| Questions.DifficultyOf | data_processing.py:64 | The difficulty is the `level`, or "Unknown" when missing |
| Questions.ConceptsOf | data_processing.py:65 | One concept per tag, in order: its title, or "Unknown" for an untitled tag. A missing `concepts` key gives no concepts |
| Questions.TimeOf | data_processing.py:66 | The time is `timeTaken`, or 0 when missing |
| Questions.RecordOf | data_processing.py:62-105 | A record exists iff the chapter resolves. It carries the section's subject, the chapter, the difficulty, the concepts, the time and the verdict |
| Questions.RecordDefaults | data_processing.py:62-66 | A question with no `questionId` and no `timeTaken` gets a record with chapter and difficulty "Unknown", no concepts and time 0 |
| Questions.SectionSubject | data_processing.py:57-59 | A section's questions are tagged with the subject its title resolves to. A missing `sectionId` or `title` is read as the empty title, which gives "Unknown" |
| Questions.QuestionRecordsAt | data_processing.py:61-105 | A section's records exist iff every question's record does. Record `j` is then the record of question `j`, one record per question in order |
| Questions.AllRecordsOkIff | data_processing.py:56-63 | The pass fails iff some section has a question with a present but empty `chapters` list |
| Questions.AllRecords | data_processing.py:55-105 | `questions_data` has exactly one entry per question over all sections. The only way it fails is the empty-chapters error |
| Questions.AllRecordsAppend | data_processing.py:56-97 | The records of consecutive section lists are concatenated, giving section-then-question order |
| Tables.FoldTableAt | data_processing.py:80-95 | Each key's entry in a grouped table counts the attempted records crediting the key, the correct ones among them, and their total time. A key is present iff some attempted record credits it |
| Tables.FoldTableEntriesSound | data_processing.py:80-95 | Every key of a grouped table has at least 1 attempt and no more correct answers than attempts |
| Tables.TableTotals | data_processing.py:81-95 | The chapter and difficulty tables sum to the number of attempted questions and of attempted-and-correct questions. The concept table sums to the number of concept tags over those questions, repeats included |
| Engine.TallyQuestion | data_processing.py:80-95 | Each table changes by exactly one record's contribution: one attempt and its time per key, then one correct answer per key when correct |
| Engine.TallyConceptAttempts | data_processing.py:86-89 | The loop credits an attempt and its time to `(subject, concept)` for each tag in turn |
| Engine.TallyConceptCorrects | data_processing.py:93-95 | The loop credits a correct answer to `(subject, concept)` for each tag in turn |
| Engine.TallySection | data_processing.py:60-105 | The inner loop succeeds iff the section's records exist, and fails only with the empty-chapters error. It appends the section's records and keeps the three tables equal to the folds of all records so far |
| Engine.Accumulate | data_processing.py:50-105 | The nested loop over sections and questions yields exactly the pure pass |
| Metrics.MetricOf | data_processing.py:110-122 | Counts are copied. With attempts: accuracy times attempted is 100 times correct, and average time times attempted is the total time. Without attempts both are 0. Accuracy is within 0 to 100 when correct does not exceed attempted |
| Metrics.CalculateMetrics | data_processing.py:107-123 | The loop keeps the key set, and each value is the metric of that key's entry |
| Metrics.MetricsTableSound | data_processing.py:107-123 | On a table whose entries have 1 or more attempts and correct not above attempted, every metric keeps the counts, has accuracy in 0 to 100, and has the exact ratios |
| Metrics.MetricsTableTotals | data_processing.py:107-123 | The metrics table keeps the sum of the attempt counts and the sum of the correct counts |
| Metrics.FoldedMetricsAt | data_processing.py:80-123 | A key's metric is present iff some attempted record credits it, and then it is the metric of exactly those records' counts and time |
| Metrics.CorrectTimes | data_processing.py:129 | One time per attempted-and-correct record |
| Metrics.IncorrectTimes | data_processing.py:130 | One time per attempted-but-incorrect record |
| Metrics.TimesMembers | data_processing.py:129-130 | A time is in the correct list iff some attempted and correct record took it, and in the incorrect list iff some attempted, not correct record took it |
| Metrics.Mean | data_processing.py:131-132 | The mean times the count is the sum, and an empty list gives 0 |
| Metrics.MeanBounds | data_processing.py:131-132 | A mean lies between any lower and upper bound of its times |
| Metrics.TimesPartition | data_processing.py:129-130 | The correct and incorrect times together sum to the total time of the attempted records. Unattempted records contribute to neither |
| Engine.ProcessData | data_processing.py:13-143 | The executable engine computes the specification bundle. A non-list, non-object input is refused with the invalid-structure error. A list behaves as its first element |
| Engine.ProcessSpecFails | data_processing.py:21-63 | The call fails iff the top level is refused, or some question has a present but empty `chapters` list. Once the top level is accepted, the only error is the empty-chapters one |
| Engine.BundleRecords | data_processing.py:97-143 | `questions_data` has one entry per question. Each grouped metrics table is the metrics of the fold of `questions_data` under its key. The averages are the means of the correct and incorrect times |
| Engine.BundleEntries | data_processing.py:80-127 | Every entry of the three metrics tables has 1 or more attempts, correct not above attempted, and accuracy in 0 to 100. Its counts are those of the records crediting its key |
| Engine.BundleTotals | data_processing.py:81-127 | Conservation in the bundle: the chapter and difficulty metrics sum to the attempted and the correct questions, and the concept metrics to their concept tags |
| Scenarios.TwoAttemptsOneChapter | data_processing.py:80-123 | One correct answer in 20 and one wrong answer in 40 under one chapter give the row 2 attempted, 1 correct, 50% and average 30 |
| Scenarios.TwoAttemptsAverages | data_processing.py:129-132 | The same two questions give average correct time 20 and average incorrect time 40 |
| Scenarios.UnattemptedLeavesNoRow | data_processing.py:80-132 | An unattempted question creates no row in any table, and both averages are 0 |
| Scenarios.TwoConceptTags | data_processing.py:86-95 | A correct question with two concept tags gives each tag its own row: 1 attempt, 1 correct, 100% |
| Scenarios.ListIsItsFirstElement | data_processing.py:21-22 | A list is processed as its first element, whatever follows it |
| Scenarios.MissingIdLooksUpUnknown | data_processing.py:39-40 | An entry with no `subjectId` is named "Physics" under a map whose key "Unknown" holds "Physics", and "Unknown" under the default map |
| Scenarios.PhysicsMockSubject | data_processing.py:3-6 | The title "Physics Mock" resolves to "Physics" |
| Scenarios.PhysicsMockRecords | data_processing.py:55-105 | A "Physics Mock" section with one Optics question, answered with a correct marked option in 30, gives exactly one record: Physics, Optics, attempted, correct, 30 |
| Scenarios.PhysicsMockBundle | data_processing.py:13-143 | The whole call on that record gives the chapter row (Physics, Optics) with 1 attempt, 1 correct, 100% and 30 on average, average correct time 30 and average incorrect time 0 |

## Left out

- The rest of the system is not part of this model: Gemini feedback generation, PDF layout, chart rendering and the web front end. They consist of network calls, I/O and foreign libraries.
- IEEE floating point: the divisions at lines 112-113 and 131-132 are exact `real` divisions, so rounding and the float `* 60` are not modelled.
- `str.lower()` is ASCII-only here. Python's Unicode case mapping is not modelled.
- The output tables are maps, so the dict insertion order of the tables is not modelled.
- Values of the wrong JSON type are not modelled; the schema gives each key its expected type. Examples are a string `timeTaken`, or an `isCorrect` holding a truthy value that is not a boolean.
- JSON `null` is not modelled, except for `inputValue.value`, where null and missing both mean "not attempted". The schema cannot express a null key; it has only "missing" or a value of the expected type. The source behaves differently from a missing key in these cases:
  - A null `test`, `subjectId`, `sectionId`, section `title` or `questionId` raises `AttributeError` (lines 28, 39, 58, 4, 63).
  - A null `chapters`, `concepts`, `sections`, `subjects` or `questions` raises `TypeError`.
  - A null `timeTaken` on an attempted question raises `TypeError` at line 83, and a null `totalTime` raises `TypeError` at line 34 (`None * 60`).
  - A null `level`, chapter or concept title, or any other echoed total, is kept as `None` rather than becoming "Unknown" or 0.

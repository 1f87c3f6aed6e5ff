/** The two independent subject-resolution paths: by section title keyword
    (used to group questions) and by subject identifier (used only for the
    `subjects` table), and the construction of that table. */
module Subjects {
  import opened Wrappers
  import opened Text
  import opened Schema

  const PhysicsKeywords: seq<string> := ["physics", "phys"]
  const ChemistryKeywords: seq<string> := ["chemistry", "chem"]
  const MathematicsKeywords: seq<string> := ["mathematics", "math", "maths"]

  /** `any(keyword in s for keyword in keywords)`. */
  predicate MentionsAny(s: string, keywords: seq<string>) {
    exists k :: k in keywords && Contains(s, k)
  }

  /** `get_subject_from_title`: the first keyword list, in the order physics,
      chemistry, mathematics, with a keyword inside the lower-cased title. */
  function SubjectFromTitle(title: string): (r: string)
    ensures r in {"Physics", "Chemistry", "Mathematics", "Unknown"}
  {
    var t := Lower(title);
    if MentionsAny(t, PhysicsKeywords) then "Physics"
    else if MentionsAny(t, ChemistryKeywords) then "Chemistry"
    else if MentionsAny(t, MathematicsKeywords) then "Mathematics"
    else "Unknown"
  }

  /** A keyword list mentions the same titles as its shortest keyword, which
      every other keyword of the list starts with. */
  lemma MentionsAnyShortest(s: string, keywords: seq<string>, stem: string)
    requires stem in keywords
    requires forall k :: k in keywords ==> |stem| <= |k| && k[..|stem|] == stem
    ensures MentionsAny(s, keywords) <==> Contains(s, stem)
  {
    if MentionsAny(s, keywords) {
      var k :| k in keywords && Contains(s, k);
      ContainsPrefix(k, |stem|);
      ContainsTransitive(s, k, stem);
    }
  }

  /** The resolver's whole behaviour: strict priority physics, chemistry,
      mathematics, decided by the stems "phys", "chem" and "math". */
  lemma {:induction false} SubjectFromTitlePriority(title: string)
    ensures var t := Lower(title);
            SubjectFromTitle(title) ==
              if Contains(t, "phys") then "Physics"
              else if Contains(t, "chem") then "Chemistry"
              else if Contains(t, "math") then "Mathematics"
              else "Unknown"
  {
    var t := Lower(title);
    MentionsAnyShortest(t, PhysicsKeywords, "phys");
    MentionsAnyShortest(t, ChemistryKeywords, "chem");
    MentionsAnyShortest(t, MathematicsKeywords, "math");
  }

  /** A title naming both physics and chemistry resolves to physics. */
  lemma PhysicsWinsOverChemistry(title: string)
    requires Contains(Lower(title), "physics") && Contains(Lower(title), "chem")
    ensures SubjectFromTitle(title) == "Physics"
  {
    ContainsPrefix("physics", 4);
    ContainsTransitive(Lower(title), "physics", "phys");
    SubjectFromTitlePriority(title);
  }

  /** The identifier table used when the caller passes none. */
  const DefaultSubjectMap: map<string, string> := map[
    "607018ee404ae53194e73d92" := "Physics",
    "607018ee404ae53194e73d90" := "Chemistry",
    "607018ee404ae53194e73d91" := "Mathematics"]

  /** `subject_map`, defaulted only when the caller passed none (an empty
      table stays empty). */
  function SubjectMapOr(subjectMap: Option<map<string, string>>): (r: map<string, string>)
    ensures subjectMap.None? ==> r == DefaultSubjectMap
    ensures subjectMap.Some? ==> r == subjectMap.value
  {
    subjectMap.GetOr(DefaultSubjectMap)
  }

  /** `sub.get('subjectId', {}).get('$oid', 'Unknown')`. */
  function SubjectIdOf(sub: SubjectEntry): string {
    match sub.subjectId
    case Some(id) => id.oid.GetOr("Unknown")
    case None => "Unknown"
  }

  /** The display name of a subject summary: its identifier looked up in the
      table, "Unknown" when the identifier is not there. */
  function SubjectName(subjectMap: map<string, string>, sub: SubjectEntry): (r: string)
    ensures SubjectIdOf(sub) in subjectMap ==> r == subjectMap[SubjectIdOf(sub)]
    ensures SubjectIdOf(sub) !in subjectMap ==> r == "Unknown"
  {
    var id := SubjectIdOf(sub);
    if id in subjectMap then subjectMap[id] else "Unknown"
  }

  /** One row of the `subjects` table; `totalMarks` is always 100. */
  datatype SubjectSummary = SubjectSummary(
    marksScored: Number,
    totalMarks: Number,
    attempted: Number,
    correct: Number,
    accuracy: Number,
    timeTaken: Number)

  function SummaryOf(sub: SubjectEntry): (s: SubjectSummary)
    ensures s.totalMarks == 100.0
    ensures s.marksScored == sub.totalMarkScored.GetOr(0.0)
    ensures s.attempted == sub.totalAttempted.GetOr(0.0)
    ensures s.correct == sub.totalCorrect.GetOr(0.0)
    ensures s.accuracy == sub.accuracy.GetOr(0.0)
    ensures s.timeTaken == sub.totalTimeTaken.GetOr(0.0)
  {
    SubjectSummary(
      sub.totalMarkScored.GetOr(0.0),
      100.0,
      sub.totalAttempted.GetOr(0.0),
      sub.totalCorrect.GetOr(0.0),
      sub.accuracy.GetOr(0.0),
      sub.totalTimeTaken.GetOr(0.0))
  }

  /** The `subjects` table after the loop has seen `subs`: each entry written
      in turn under its resolved name, a later one replacing an earlier one. */
  function SubjectsTable(subjectMap: map<string, string>, subs: seq<SubjectEntry>): map<string, SubjectSummary>
  {
    if subs == [] then map[]
    else
      var last := subs[|subs| - 1];
      SubjectsTable(subjectMap, subs[..|subs| - 1])[SubjectName(subjectMap, last) := SummaryOf(last)]
  }

  /** The subject entry that decides the row `name`: the last one resolving to it. */
  ghost predicate LastWithName(subjectMap: map<string, string>, subs: seq<SubjectEntry>, name: string, i: int) {
    0 <= i < |subs| && SubjectName(subjectMap, subs[i]) == name &&
    forall j :: i < j < |subs| ==> SubjectName(subjectMap, subs[j]) != name
  }

  /** The table has a row for exactly the names the entries resolve to, and
      each row is the summary of the last entry with that name. */
  lemma {:induction false} SubjectsTableLastWins(subjectMap: map<string, string>, subs: seq<SubjectEntry>, name: string)
    ensures name in SubjectsTable(subjectMap, subs) <==>
              exists i :: 0 <= i < |subs| && SubjectName(subjectMap, subs[i]) == name
    ensures name in SubjectsTable(subjectMap, subs) ==>
              exists i :: LastWithName(subjectMap, subs, name, i) &&
                          SubjectsTable(subjectMap, subs)[name] == SummaryOf(subs[i])
  {
    if subs != [] {
      var n := |subs| - 1;
      var init := subs[..n];
      SubjectsTableLastWins(subjectMap, init, name);
      assert SubjectsTable(subjectMap, subs) ==
             SubjectsTable(subjectMap, init)[SubjectName(subjectMap, subs[n]) := SummaryOf(subs[n])];
      assert forall i :: 0 <= i < n ==> subs[i] == init[i];
      if SubjectName(subjectMap, subs[n]) == name {
        assert LastWithName(subjectMap, subs, name, n);
      } else if name in SubjectsTable(subjectMap, init) {
        var i :| LastWithName(subjectMap, init, name, i) &&
                 SubjectsTable(subjectMap, init)[name] == SummaryOf(init[i]);
        assert LastWithName(subjectMap, subs, name, i);
      } else {
        assert forall i :: 0 <= i < |subs| ==> SubjectName(subjectMap, subs[i]) != name;
      }
    }
  }

  /** The loop at the head of `process_data` that fills the `subjects` table. */
  method BuildSubjects(subjectMap: map<string, string>, subs: seq<SubjectEntry>)
    returns (table: map<string, SubjectSummary>)
    ensures table == SubjectsTable(subjectMap, subs)
  {
    table := map[];
    for i := 0 to |subs|
      invariant table == SubjectsTable(subjectMap, subs[..i])
    {
      var sub := subs[i];
      var name := SubjectName(subjectMap, sub);
      table := table[name := SummaryOf(sub)];
      assert subs[..i + 1][..i] == subs[..i];
    }
    assert subs[..|subs|] == subs;
  }
}

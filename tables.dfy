/** The three grouped tables of the main pass (by chapter, by difficulty,
    by concept). Each is a fold over the `questions_data` records: an
    attempted record adds one attempt and its time under each of its keys,
    and then, when correct, one correct answer under each of them. */
module Tables {
  import opened Questions

  /** The running totals kept for one key. */
  datatype Perf = Perf(attempted: nat, correct: nat, timeTaken: real)

  /** The zero entry a key gets on first access. */
  const Zero := Perf(0, 0, 0.0)

  /** Get-or-zero access to a table. */
  function Lookup<K>(m: map<K, Perf>, k: K): Perf {
    if k in m then m[k] else Zero
  }

  /** `perf[k]['attempted'] += 1; perf[k]['time_taken'] += t`. */
  function AddAttempt<K>(m: map<K, Perf>, k: K, t: real): map<K, Perf> {
    var p := Lookup(m, k);
    m[k := Perf(p.attempted + 1, p.correct, p.timeTaken + t)]
  }

  /** `perf[k]['correct'] += 1`. */
  function AddCorrect<K>(m: map<K, Perf>, k: K): map<K, Perf> {
    var p := Lookup(m, k);
    m[k := Perf(p.attempted, p.correct + 1, p.timeTaken)]
  }

  /** One attempt per key of `ks`, in order. */
  function AddAttempts<K>(m: map<K, Perf>, ks: seq<K>, t: real): map<K, Perf> {
    if ks == [] then m else AddAttempt(AddAttempts(m, ks[..|ks| - 1], t), ks[|ks| - 1], t)
  }

  /** One correct answer per key of `ks`, in order. */
  function AddCorrects<K>(m: map<K, Perf>, ks: seq<K>): map<K, Perf> {
    if ks == [] then m else AddCorrect(AddCorrects(m, ks[..|ks| - 1]), ks[|ks| - 1])
  }

  /** Crediting one more key of `ks` extends the fold by one update. */
  lemma AddAttemptsStep<K>(m: map<K, Perf>, ks: seq<K>, c: nat, t: real)
    requires c < |ks|
    ensures AddAttempts(m, ks[..c + 1], t) == AddAttempt(AddAttempts(m, ks[..c], t), ks[c], t)
  {
    assert ks[..c + 1][..c] == ks[..c];
  }

  lemma AddCorrectsStep<K>(m: map<K, Perf>, ks: seq<K>, c: nat)
    requires c < |ks|
    ensures AddCorrects(m, ks[..c + 1]) == AddCorrect(AddCorrects(m, ks[..c]), ks[c])
  {
    assert ks[..c + 1][..c] == ks[..c];
  }

  /** A single key is credited as by one direct update. */
  lemma OneKey<K>(m: map<K, Perf>, k: K, t: real)
    ensures AddAttempts(m, [k], t) == AddAttempt(m, k, t)
    ensures AddCorrects(m, [k]) == AddCorrect(m, k)
  {
    assert [k][..0] == [];
  }

  /** What one record does to a table whose keys for it are `ks`. */
  function Contribute<K>(m: map<K, Perf>, ks: seq<K>, r: QuestionRecord): map<K, Perf> {
    if !r.attempted then m
    else
      var m1 := AddAttempts(m, ks, r.timeTaken);
      if r.correct then AddCorrects(m1, ks) else m1
  }

  /** The table after the records `rs`, keyed by `keysOf`. */
  function FoldTable<K>(rs: seq<QuestionRecord>, keysOf: QuestionRecord -> seq<K>): map<K, Perf> {
    if rs == [] then map[]
    else
      var last := rs[|rs| - 1];
      Contribute(FoldTable(rs[..|rs| - 1], keysOf), keysOf(last), last)
  }

  /** One more record extends the fold by its contribution. */
  lemma FoldTableSnoc<K>(rs: seq<QuestionRecord>, keysOf: QuestionRecord -> seq<K>, r: QuestionRecord)
    ensures FoldTable(rs + [r], keysOf) == Contribute(FoldTable(rs, keysOf), keysOf(r), r)
  {
    assert (rs + [r])[..|rs|] == rs;
  }

  /** The chapter table's key: `(subject, chapter)`. */
  function ChapterKeys(r: QuestionRecord): seq<(string, string)> {
    [(r.subject, r.chapter)]
  }

  /** The difficulty table's key: the level label. */
  function DifficultyKeys(r: QuestionRecord): seq<string> {
    [r.difficulty]
  }

  /** `(subject, concept)` for each concept tag, in order. */
  function TagKeys(subject: string, concepts: seq<string>): (ks: seq<(string, string)>)
    ensures |ks| == |concepts|
  {
    seq(|concepts|, i requires 0 <= i < |concepts| => (subject, concepts[i]))
  }

  /** The concept table's keys: one per concept tag. */
  function ConceptKeys(r: QuestionRecord): seq<(string, string)> {
    TagKeys(r.subject, r.concepts)
  }

  // ---------------------------------------------------------------------
  // The entry of every key, stated as counts over the records.

  /** How many times `k` is credited with an attempt: the number of its
      occurrences among the keys of the attempted records. */
  function AttemptHits<K(==)>(rs: seq<QuestionRecord>, keysOf: QuestionRecord -> seq<K>, k: K): nat {
    if rs == [] then 0
    else
      var last := rs[|rs| - 1];
      AttemptHits(rs[..|rs| - 1], keysOf, k) + (if last.attempted then multiset(keysOf(last))[k] else 0)
  }

  /** The same over the attempted and correct records. */
  function CorrectHits<K(==)>(rs: seq<QuestionRecord>, keysOf: QuestionRecord -> seq<K>, k: K): nat {
    if rs == [] then 0
    else
      var last := rs[|rs| - 1];
      CorrectHits(rs[..|rs| - 1], keysOf, k) +
        (if last.attempted && last.correct then multiset(keysOf(last))[k] else 0)
  }

  /** `n` copies of `t` added up. */
  function Repeated(n: nat, t: real): real {
    if n == 0 then 0.0 else Repeated(n - 1, t) + t
  }

  /** The time credited to `k`: each attempted record's time, once per
      occurrence of `k` among its keys. */
  function TimeHits<K(==)>(rs: seq<QuestionRecord>, keysOf: QuestionRecord -> seq<K>, k: K): real {
    if rs == [] then 0.0
    else
      var last := rs[|rs| - 1];
      TimeHits(rs[..|rs| - 1], keysOf, k) +
        (if last.attempted then Repeated(multiset(keysOf(last))[k], last.timeTaken) else 0.0)
  }

  lemma LookupAddAttempt<K>(m: map<K, Perf>, x: K, t: real, k: K)
    ensures (k in AddAttempt(m, x, t)) <==> (k in m || k == x)
    ensures Lookup(AddAttempt(m, x, t), k) ==
              if k == x then Perf(Lookup(m, k).attempted + 1, Lookup(m, k).correct, Lookup(m, k).timeTaken + t)
              else Lookup(m, k)
  {
  }

  lemma LookupAddCorrect<K>(m: map<K, Perf>, x: K, k: K)
    ensures (k in AddCorrect(m, x)) <==> (k in m || k == x)
    ensures Lookup(AddCorrect(m, x), k) ==
              if k == x then Perf(Lookup(m, k).attempted, Lookup(m, k).correct + 1, Lookup(m, k).timeTaken)
              else Lookup(m, k)
  {
  }

  lemma MultisetOfSnoc<K>(ks: seq<K>, k: K)
    requires ks != []
    ensures multiset(ks)[k] == multiset(ks[..|ks| - 1])[k] + (if ks[|ks| - 1] == k then 1 else 0)
    ensures k in ks <==> k in ks[..|ks| - 1] || ks[|ks| - 1] == k
  {
    var n := |ks| - 1;
    assert ks == ks[..n] + [ks[n]];
    assert multiset(ks) == multiset(ks[..n]) + multiset{ks[n]};
  }

  lemma {:induction false} AddAttemptsAt<K>(m: map<K, Perf>, ks: seq<K>, t: real, k: K)
    ensures (k in AddAttempts(m, ks, t)) <==> (k in m || k in ks)
    ensures Lookup(AddAttempts(m, ks, t), k) ==
              Perf(Lookup(m, k).attempted + multiset(ks)[k], Lookup(m, k).correct,
                   Lookup(m, k).timeTaken + Repeated(multiset(ks)[k], t))
  {
    if ks != [] {
      var n := |ks| - 1;
      var m0 := AddAttempts(m, ks[..n], t);
      AddAttemptsAt(m, ks[..n], t, k);
      LookupAddAttempt(m0, ks[n], t, k);
      MultisetOfSnoc(ks, k);
    }
  }

  lemma {:induction false} AddCorrectsAt<K>(m: map<K, Perf>, ks: seq<K>, k: K)
    ensures (k in AddCorrects(m, ks)) <==> (k in m || k in ks)
    ensures Lookup(AddCorrects(m, ks), k) ==
              Perf(Lookup(m, k).attempted, Lookup(m, k).correct + multiset(ks)[k], Lookup(m, k).timeTaken)
  {
    if ks != [] {
      var n := |ks| - 1;
      AddCorrectsAt(m, ks[..n], k);
      LookupAddCorrect(AddCorrects(m, ks[..n]), ks[n], k);
      MultisetOfSnoc(ks, k);
    }
  }

  /** Each entry of a folded table is exactly the counts of the records
      that credit its key, and a key is present only once credited. */
  lemma {:induction false} FoldTableAt<K>(rs: seq<QuestionRecord>, keysOf: QuestionRecord -> seq<K>, k: K)
    ensures Lookup(FoldTable(rs, keysOf), k) ==
              Perf(AttemptHits(rs, keysOf, k), CorrectHits(rs, keysOf, k), TimeHits(rs, keysOf, k))
    ensures k in FoldTable(rs, keysOf) <==> AttemptHits(rs, keysOf, k) > 0
  {
    if rs != [] {
      var n := |rs| - 1;
      var last := rs[n];
      var m := FoldTable(rs[..n], keysOf);
      FoldTableAt(rs[..n], keysOf, k);
      if last.attempted {
        var ks := keysOf(last);
        AddAttemptsAt(m, ks, last.timeTaken, k);
        if last.correct {
          AddCorrectsAt(AddAttempts(m, ks, last.timeTaken), ks, k);
        }
      }
    }
  }

  lemma {:induction false} CorrectHitsAtMostAttemptHits<K>(rs: seq<QuestionRecord>, keysOf: QuestionRecord -> seq<K>, k: K)
    ensures CorrectHits(rs, keysOf, k) <= AttemptHits(rs, keysOf, k)
  {
    if rs != [] {
      CorrectHitsAtMostAttemptHits(rs[..|rs| - 1], keysOf, k);
    }
  }

  /** Every entry of a grouped table has at least one attempt and no more
      correct answers than attempts. */
  lemma FoldTableEntriesSound<K>(rs: seq<QuestionRecord>, keysOf: QuestionRecord -> seq<K>)
    ensures forall k :: k in FoldTable(rs, keysOf) ==>
              1 <= FoldTable(rs, keysOf)[k].attempted &&
              FoldTable(rs, keysOf)[k].correct <= FoldTable(rs, keysOf)[k].attempted
  {
    forall k | k in FoldTable(rs, keysOf)
      ensures 1 <= FoldTable(rs, keysOf)[k].attempted &&
              FoldTable(rs, keysOf)[k].correct <= FoldTable(rs, keysOf)[k].attempted
    {
      FoldTableAt(rs, keysOf, k);
      CorrectHitsAtMostAttemptHits(rs, keysOf, k);
    }
  }

  // ---------------------------------------------------------------------
  // Conservation: totals over a whole table.

  function Attempts(p: Perf): nat {
    p.attempted
  }

  function Corrects(p: Perf): nat {
    p.correct
  }

  /** The sum of `count` over every entry of a table. */
  ghost function Total<K, V>(m: map<K, V>, count: V -> nat): nat
    decreases |m|
  {
    if m == map[] then 0
    else
      var k :| k in m;
      assert |m - {k}| < |m| by {
        assert (m - {k}).Keys == m.Keys - {k};
      }
      count(m[k]) + Total(m - {k}, count)
  }

  /** The sum does not depend on which key is taken first. */
  lemma {:induction false} TotalRemove<K, V>(m: map<K, V>, count: V -> nat, k: K)
    requires k in m
    ensures Total(m, count) == count(m[k]) + Total(m - {k}, count)
    decreases |m|
  {
    var j :| j in m && Total(m, count) == count(m[j]) + Total(m - {j}, count);
    if j != k {
      assert (m - {j}).Keys == m.Keys - {j};
      assert (m - {k}).Keys == m.Keys - {k};
      TotalRemove(m - {j}, count, k);
      TotalRemove(m - {k}, count, j);
      assert m - {j} - {k} == m - {k} - {j};
    }
  }

  /** Writing entry `p` under `k` replaces the old entry's share of the sum. */
  lemma TotalUpdate<K>(m: map<K, Perf>, count: Perf -> nat, k: K, p: Perf)
    requires count(Zero) == 0
    ensures Total(m[k := p], count) + count(Lookup(m, k)) == Total(m, count) + count(p)
  {
    TotalRemove(m[k := p], count, k);
    assert m[k := p] - {k} == m - {k};
    if k in m {
      TotalRemove(m, count, k);
    } else {
      assert m - {k} == m;
    }
  }

  /** Adding attempts under `ks` raises the attempt total by `|ks|` and
      leaves the correct total as it was. */
  lemma {:induction false} TotalAddAttempts<K>(m: map<K, Perf>, ks: seq<K>, t: real)
    ensures Total(AddAttempts(m, ks, t), Attempts) == Total(m, Attempts) + |ks|
    ensures Total(AddAttempts(m, ks, t), Corrects) == Total(m, Corrects)
  {
    if ks != [] {
      var n := |ks| - 1;
      var m0 := AddAttempts(m, ks[..n], t);
      TotalAddAttempts(m, ks[..n], t);
      var p := Lookup(m0, ks[n]);
      TotalUpdate(m0, Attempts, ks[n], Perf(p.attempted + 1, p.correct, p.timeTaken + t));
      TotalUpdate(m0, Corrects, ks[n], Perf(p.attempted + 1, p.correct, p.timeTaken + t));
    }
  }

  /** Adding correct answers under `ks` raises the correct total by `|ks|`
      and leaves the attempt total as it was. */
  lemma {:induction false} TotalAddCorrects<K>(m: map<K, Perf>, ks: seq<K>)
    ensures Total(AddCorrects(m, ks), Attempts) == Total(m, Attempts)
    ensures Total(AddCorrects(m, ks), Corrects) == Total(m, Corrects) + |ks|
  {
    if ks != [] {
      var n := |ks| - 1;
      var m0 := AddCorrects(m, ks[..n]);
      TotalAddCorrects(m, ks[..n]);
      var p := Lookup(m0, ks[n]);
      TotalUpdate(m0, Attempts, ks[n], Perf(p.attempted, p.correct + 1, p.timeTaken));
      TotalUpdate(m0, Corrects, ks[n], Perf(p.attempted, p.correct + 1, p.timeTaken));
    }
  }

  /** The number of keys the attempted records bring, counted with repeats. */
  function AttemptFanout<K>(rs: seq<QuestionRecord>, keysOf: QuestionRecord -> seq<K>): nat {
    if rs == [] then 0
    else
      var last := rs[|rs| - 1];
      AttemptFanout(rs[..|rs| - 1], keysOf) + (if last.attempted then |keysOf(last)| else 0)
  }

  /** The same over the attempted and correct records. */
  function CorrectFanout<K>(rs: seq<QuestionRecord>, keysOf: QuestionRecord -> seq<K>): nat {
    if rs == [] then 0
    else
      var last := rs[|rs| - 1];
      CorrectFanout(rs[..|rs| - 1], keysOf) + (if last.attempted && last.correct then |keysOf(last)| else 0)
  }

  /** Conservation: a table's attempt total is the attempted records' key
      count, and its correct total that of the attempted and correct ones. */
  lemma {:induction false} FoldTableTotals<K>(rs: seq<QuestionRecord>, keysOf: QuestionRecord -> seq<K>)
    ensures Total(FoldTable(rs, keysOf), Attempts) == AttemptFanout(rs, keysOf)
    ensures Total(FoldTable(rs, keysOf), Corrects) == CorrectFanout(rs, keysOf)
  {
    if rs == [] {
      assert FoldTable(rs, keysOf) == map[];
    } else {
      var n := |rs| - 1;
      var last := rs[n];
      var m := FoldTable(rs[..n], keysOf);
      FoldTableTotals(rs[..n], keysOf);
      if last.attempted {
        TotalAddAttempts(m, keysOf(last), last.timeTaken);
        if last.correct {
          TotalAddCorrects(AddAttempts(m, keysOf(last), last.timeTaken), keysOf(last));
        }
      }
    }
  }

  // ---------------------------------------------------------------------
  // The three tables in the source's own terms.

  /** Number of attempted records. */
  function CountAttempted(rs: seq<QuestionRecord>): nat {
    if rs == [] then 0
    else CountAttempted(rs[..|rs| - 1]) + (if rs[|rs| - 1].attempted then 1 else 0)
  }

  /** Number of attempted and correct records. */
  function CountCorrect(rs: seq<QuestionRecord>): nat {
    if rs == [] then 0
    else
      var last := rs[|rs| - 1];
      CountCorrect(rs[..|rs| - 1]) + (if last.attempted && last.correct then 1 else 0)
  }

  /** Number of concept tags over the attempted records, repeats included. */
  function AttemptedConceptTags(rs: seq<QuestionRecord>): nat {
    if rs == [] then 0
    else
      var last := rs[|rs| - 1];
      AttemptedConceptTags(rs[..|rs| - 1]) + (if last.attempted then |last.concepts| else 0)
  }

  /** The same over the attempted and correct records. */
  function CorrectConceptTags(rs: seq<QuestionRecord>): nat {
    if rs == [] then 0
    else
      var last := rs[|rs| - 1];
      CorrectConceptTags(rs[..|rs| - 1]) + (if last.attempted && last.correct then |last.concepts| else 0)
  }

  lemma {:induction false} FanoutOfOneKey<K>(rs: seq<QuestionRecord>, keysOf: QuestionRecord -> seq<K>)
    requires forall r :: |keysOf(r)| == 1
    ensures AttemptFanout(rs, keysOf) == CountAttempted(rs)
    ensures CorrectFanout(rs, keysOf) == CountCorrect(rs)
  {
    if rs != [] {
      FanoutOfOneKey(rs[..|rs| - 1], keysOf);
    }
  }

  lemma {:induction false} FanoutOfConcepts(rs: seq<QuestionRecord>)
    ensures AttemptFanout(rs, ConceptKeys) == AttemptedConceptTags(rs)
    ensures CorrectFanout(rs, ConceptKeys) == CorrectConceptTags(rs)
  {
    if rs != [] {
      FanoutOfConcepts(rs[..|rs| - 1]);
    }
  }

  /** The chapter and difficulty tables each hold one attempt per attempted
      question and one correct answer per correct one; the concept table one
      per concept tag of those questions. */
  lemma TableTotals(rs: seq<QuestionRecord>)
    ensures Total(FoldTable(rs, ChapterKeys), Attempts) == CountAttempted(rs)
    ensures Total(FoldTable(rs, ChapterKeys), Corrects) == CountCorrect(rs)
    ensures Total(FoldTable(rs, DifficultyKeys), Attempts) == CountAttempted(rs)
    ensures Total(FoldTable(rs, DifficultyKeys), Corrects) == CountCorrect(rs)
    ensures Total(FoldTable(rs, ConceptKeys), Attempts) == AttemptedConceptTags(rs)
    ensures Total(FoldTable(rs, ConceptKeys), Corrects) == CorrectConceptTags(rs)
  {
    FoldTableTotals(rs, ChapterKeys);
    FoldTableTotals(rs, DifficultyKeys);
    FoldTableTotals(rs, ConceptKeys);
    FanoutOfOneKey(rs, ChapterKeys);
    FanoutOfOneKey(rs, DifficultyKeys);
    FanoutOfConcepts(rs);
  }
}

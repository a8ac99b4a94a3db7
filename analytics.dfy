/** The detailed analyses of the dashboard: per-question scores, averages,
    the score and respondent distributions, the weakest and strongest
    questions, organisation comparison, trend and improvement potential.
    Unlike the data pipeline, these analyses count only values that are
    already numbers: a numeric string is never a score here. */
module Analytics {
  import opened JsText
  import opened JsValue
  import opened Collections
  import opened SurveyTypes

  /** `typeof value === 'number' && value > 0 && value <= 100`. */
  predicate IsScoreValue(v: Value) {
    v.Num? && 0.0 < v.n <= 100.0
  }

  /** A scored property of a record: its key and its number. */
  datatype Entry = Entry(key: string, score: real)

  /** The scored properties of `r` among `keys`, in key order: what
      `Object.entries(record)` yields once filtered by `IsScoreValue`. */
  function ScoredEntriesOf(r: Record, keys: seq<string>): seq<Entry>
  {
    if keys == [] then []
    else
      var k := keys[|keys| - 1];
      ScoredEntriesOf(r, keys[..|keys| - 1])
      + (if k in r.fields && IsScoreValue(r.fields[k]) then [Entry(k, r.fields[k].n)] else [])
  }

  /** The scored properties of every record, record by record. */
  function ScoredEntries(records: seq<Record>): seq<Entry>
  {
    if records == [] then []
    else ScoredEntries(records[..|records| - 1]) + ScoredEntriesOf(records[|records| - 1], records[|records| - 1].keys)
  }

  function EntryKeys(es: seq<Entry>): (ks: seq<string>)
    ensures |ks| == |es|
  {
    if es == [] then [] else EntryKeys(es[..|es| - 1]) + [es[|es| - 1].key]
  }

  function EntryScores(es: seq<Entry>): (xs: seq<real>)
    ensures |xs| == |es|
  {
    if es == [] then [] else EntryScores(es[..|es| - 1]) + [es[|es| - 1].score]
  }

  /** `EntryKeys` and `EntryScores` are the `key` and `score` columns of the
      entries, position by position. */
  lemma {:induction false} EntryColumns(es: seq<Entry>)
    ensures forall i :: 0 <= i < |es| ==> EntryKeys(es)[i] == es[i].key && EntryScores(es)[i] == es[i].score
  {
    if es != [] {
      var p := es[..|es| - 1];
      EntryColumns(p);
      assert forall i :: 0 <= i < |p| ==> es[i] == p[i];
    }
  }

  /** The scores recorded under key `k`, in order. */
  function ScoresUnder(es: seq<Entry>, k: string): seq<real>
  {
    if es == [] then []
    else ScoresUnder(es[..|es| - 1], k) + (if es[|es| - 1].key == k then [es[|es| - 1].score] else [])
  }

  /** Every value that the averages and the distribution count. */
  function ScoreValues(records: seq<Record>): seq<real> {
    EntryScores(ScoredEntries(records))
  }

  ghost predicate AllScores(xs: seq<real>) {
    forall i :: 0 <= i < |xs| ==> 0.0 < xs[i] <= 100.0
  }

  ghost predicate ValidEntries(es: seq<Entry>) {
    forall i :: 0 <= i < |es| ==> 0.0 < es[i].score <= 100.0
  }

  lemma {:induction false} ScoredEntriesOfValid(r: Record, keys: seq<string>)
    ensures ValidEntries(ScoredEntriesOf(r, keys))
  {
    if keys != [] {
      ScoredEntriesOfValid(r, keys[..|keys| - 1]);
    }
  }

  /** Every collected value is a number in (0, 100]. */
  lemma {:induction false} ScoredEntriesValid(records: seq<Record>)
    ensures ValidEntries(ScoredEntries(records))
  {
    if records != [] {
      ScoredEntriesValid(records[..|records| - 1]);
      ScoredEntriesOfValid(records[|records| - 1], records[|records| - 1].keys);
    }
  }

  lemma {:induction false} EntryScoresValid(es: seq<Entry>)
    requires ValidEntries(es)
    ensures AllScores(EntryScores(es))
  {
    if es != [] {
      EntryScoresValid(es[..|es| - 1]);
    }
  }

  lemma {:induction false} ScoresUnderValid(es: seq<Entry>, k: string)
    requires ValidEntries(es)
    ensures AllScores(ScoresUnder(es, k))
  {
    if es != [] {
      ScoresUnderValid(es[..|es| - 1], k);
    }
  }

  lemma {:induction false} ScoresUnderAppend(a: seq<Entry>, b: seq<Entry>, k: string)
    ensures ScoresUnder(a + b, k) == ScoresUnder(a, k) + ScoresUnder(b, k)
  {
    if b == [] {
      assert a + b == a;
    } else {
      var b', e := b[..|b| - 1], b[|b| - 1];
      var tail := if e.key == k then [e.score] else [];
      ScoresUnderAppend(a, b', k);
      assert (a + b)[..|a + b| - 1] == a + b' && (a + b)[|a + b| - 1] == e;
      assert ScoresUnder(a + b, k) == ScoresUnder(a + b', k) + tail;
      assert ScoresUnder(b, k) == ScoresUnder(b', k) + tail;
      assert ScoresUnder(a, k) + ScoresUnder(b', k) + tail == ScoresUnder(a, k) + (ScoresUnder(b', k) + tail);
    }
  }

  /** A key has scores exactly when some entry carries it. */
  lemma {:induction false} ScoresUnderNonEmpty(es: seq<Entry>, k: string)
    ensures ScoresUnder(es, k) != [] <==> k in EntryKeys(es)
  {
    if es != [] {
      ScoresUnderNonEmpty(es[..|es| - 1], k);
    }
  }

  // ---------------------------------------------------- statistics

  function Mean(xs: seq<real>): real
    requires xs != []
  {
    Sum(xs) / |xs| as real
  }

  /** The mean of scores in (0, 100] lies in (0, 100]. */
  lemma MeanOfScores(xs: seq<real>)
    requires xs != [] && AllScores(xs)
    ensures 0.0 < Mean(xs) <= 100.0
  {
    SumBounds(xs, 0.0, 100.0);
  }

  /** `Math.round(mean * 10) / 10` of scores in (0, 100] lies in [0, 100]. */
  lemma RoundedMeanOfScores(xs: seq<real>)
    requires xs != [] && AllScores(xs)
    ensures 0.0 <= Round1(Mean(xs)) <= 100.0
  {
    MeanOfScores(xs);
    Round1Within(Mean(xs), 0, 1000);
  }

  /** The sum of squared deviations from `m`. */
  function SquaredDeviations(xs: seq<real>, m: real): (r: real)
    ensures r >= 0.0
  {
    if xs == [] then 0.0
    else
      var d := xs[|xs| - 1] - m;
      SquaredDeviations(xs[..|xs| - 1], m) + d * d
  }

  /** The population variance: the divisor is the number of values. */
  function PopulationVariance(xs: seq<real>): (v: real)
    requires xs != []
    ensures v >= 0.0
  {
    SquaredDeviations(xs, Mean(xs)) / |xs| as real
  }

  /** Identical values have no spread. */
  lemma {:induction false} NoDeviationFromConstant(xs: seq<real>, c: real)
    requires forall i :: 0 <= i < |xs| ==> xs[i] == c
    ensures SquaredDeviations(xs, c) == 0.0
  {
    if xs != [] {
      NoDeviationFromConstant(xs[..|xs| - 1], c);
    }
  }

  /** Counting up from `n`, the largest `m` with `m == 0` or
      `(m/10 - 1/20)^2 <= v`: the number of tenths in `sqrt(v)`, rounded. */
  function SqrtSearch(v: real, n: nat): (m: nat)
    requires v >= 0.0
    requires n == 0 || (n as real / 10.0 - 0.05) * (n as real / 10.0 - 0.05) <= v
    ensures m == 0 || (m as real / 10.0 - 0.05) * (m as real / 10.0 - 0.05) <= v
    ensures v < (m as real / 10.0 + 0.05) * (m as real / 10.0 + 0.05)
    decreases (10.0 * v).Floor + 10 - n
  {
    var up := n as real / 10.0 + 0.05;
    if up * up <= v then
      SqrtStep(v, n, up);
      SqrtSearch(v, n + 1)
    else n
  }

  /** A step of the search stays below `10 v + 10` tenths, and the next
      lower bound is the current upper one. */
  lemma SqrtStep(v: real, n: nat, up: real)
    requires up == n as real / 10.0 + 0.05 && up * up <= v
    ensures n + 1 <= (10.0 * v).Floor + 10
    ensures (n + 1) as real / 10.0 - 0.05 == up
  {
    if up >= 1.0 {
      assert up * up >= up * 1.0;
      assert n as real < 10.0 * v;
    }
  }

  /** `Math.round(Math.sqrt(v) * 10) / 10`, computed exactly: the multiple of
      0.1 whose half-step interval holds `sqrt(v)`. */
  function RoundedSqrt1(v: real): (r: real)
    requires v >= 0.0
    ensures r >= 0.0
    ensures (r * 10.0).Floor as real == r * 10.0
    ensures r > 0.0 ==> (r - 0.05) * (r - 0.05) <= v
    ensures v < (r + 0.05) * (r + 0.05)
  {
    var n := SqrtSearch(v, 0);
    TenthsAreWhole(n);
    n as real / 10.0
  }

  lemma TenthsAreWhole(n: nat)
    ensures n as real / 10.0 >= 0.0
    ensures (n as real / 10.0 * 10.0).Floor as real == n as real / 10.0 * 10.0
    ensures n as real / 10.0 > 0.0 ==> n != 0
  {
    assert n as real / 10.0 * 10.0 == n as real;
  }

  // ---------------------------------------------------- inferCategory

  /** The keyword table, in declaration order: keyword, category label. */
  const CategoryTable: seq<(string, string)> := [
    ("몰입", "몰입도"), ("정렬", "조직정렬"), ("커리어", "커리어"), ("협업", "협업"),
    ("커뮤니케이션", "커뮤니케이션"), ("리더", "리더십"), ("만족", "직무만족도"), ("문화", "조직문화")]

  const OtherCategory := "기타"

  /** The nine possible results. */
  const CategoryLabels: set<string> :=
    {"몰입도", "조직정렬", "커리어", "협업", "커뮤니케이션", "리더십", "직무만족도", "조직문화", OtherCategory}

  /** The id contains the entry's keyword or its label. */
  predicate MatchesEntry(id: string, entry: (string, string)) {
    Contains(id, entry.0) || Contains(id, entry.1)
  }

  /** The position of the first matching entry, `|table|` when none matches. */
  function FirstMatch(id: string, table: seq<(string, string)>): (i: nat)
    ensures i <= |table|
    ensures i < |table| ==> MatchesEntry(id, table[i])
    ensures forall j :: 0 <= j < i ==> !MatchesEntry(id, table[j])
  {
    if table == [] then 0
    else if MatchesEntry(id, table[0]) then 0
    else 1 + FirstMatch(id, table[1..])
  }

  /** The label of the first entry in table order whose keyword or label
      occurs in the id, '기타' when none does. */
  function InferCategory(questionId: string): (c: string)
    ensures c in CategoryLabels
    ensures c == OtherCategory <==> forall j :: 0 <= j < |CategoryTable| ==> !MatchesEntry(questionId, CategoryTable[j])
    ensures c != OtherCategory ==>
      exists i :: (0 <= i < |CategoryTable| && c == CategoryTable[i].1 && MatchesEntry(questionId, CategoryTable[i])
        && forall j :: 0 <= j < i ==> !MatchesEntry(questionId, CategoryTable[j]))
  {
    var i := FirstMatch(questionId, CategoryTable);
    if i < |CategoryTable| then CategoryTable[i].1 else OtherCategory
  }

  /** The importance column of engagement is classified as engagement. */
  lemma ImportanceColumnClassified()
    ensures InferCategory("중요도_몰입") == "몰입도"
  {
    var id := "중요도_몰입";
    assert id[4..] == "몰입";
    assert OccursAt(id, "몰입", 4);
    ContainsAt(id, "몰입");
  }

  // --------------------------------------------------- question scores

  /** A question's aggregate; the random importance is not modelled. */
  datatype QuestionScore = QuestionScore(
    questionId: string, questionText: string, category: string,
    score: real, satisfaction: real, count: nat, variance: real)

  function QuestionOf(id: string, scores: seq<real>): QuestionScore
    requires scores != []
  {
    var average := Mean(scores);
    QuestionScore(id, id, InferCategory(id), Round1(average), Round1(average), |scores|,
      RoundedSqrt1(PopulationVariance(scores)))
  }

  function NegScore(q: QuestionScore): real {
    -q.score
  }

  function QuestionIdOf(q: QuestionScore): string {
    q.questionId
  }

  /** Every key under which a score was found has scores. */
  lemma QuestionIdsHaveScores(es: seq<Entry>)
    ensures forall i :: 0 <= i < |Distinct(EntryKeys(es))| ==> ScoresUnder(es, Distinct(EntryKeys(es))[i]) != []
  {
    var ids := Distinct(EntryKeys(es));
    DistinctProperties(EntryKeys(es));
    forall i | 0 <= i < |ids|
      ensures ScoresUnder(es, ids[i]) != []
    {
      assert ids[i] in ids;
      ScoresUnderNonEmpty(es, ids[i]);
    }
  }

  /** One aggregate per scored key, in order of first appearance. */
  function UnsortedQuestionScores(records: seq<Record>): seq<QuestionScore> {
    var es := ScoredEntries(records);
    var ids := Distinct(EntryKeys(es));
    QuestionIdsHaveScores(es);
    seq(|ids|, i requires 0 <= i < |ids| => QuestionOf(ids[i], ScoresUnder(es, ids[i])))
  }

  /** The aggregates sorted by score, highest first. */
  function QuestionScores(records: seq<Record>): (qs: seq<QuestionScore>)
    ensures |qs| == |Distinct(EntryKeys(ScoredEntries(records)))|
  {
    SortBy(UnsortedQuestionScores(records), NegScore)
  }

  /** What the collecting pass has built after the entries `es`. */
  ghost predicate CollectedFrom(es: seq<Entry>, order: seq<string>, questionMap: map<string, seq<real>>) {
    && order == Distinct(EntryKeys(es))
    && (forall k :: k in questionMap <==> k in order)
    && (forall k :: k in questionMap ==> questionMap[k] == ScoresUnder(es, k))
  }

  /** The next key of a record adds its entry when it holds a score. */
  lemma ScoredEntriesStep(record: Record, done: seq<Entry>, j: nat)
    requires j < |record.keys|
    ensures var k := record.keys[j];
            done + ScoredEntriesOf(record, record.keys[..j + 1])
            == done + ScoredEntriesOf(record, record.keys[..j])
               + (if k in record.fields && IsScoreValue(record.fields[k]) then [Entry(k, record.fields[k].n)] else [])
  {
    assert record.keys[..j + 1][..j] == record.keys[..j];
  }

  lemma EntryKeysSnoc(p: seq<Entry>, e: Entry)
    ensures EntryKeys(p + [e]) == EntryKeys(p) + [e.key]
  {
    assert (p + [e])[..|p|] == p;
  }

  lemma ScoresUnderSnoc(p: seq<Entry>, e: Entry, k: string)
    ensures ScoresUnder(p + [e], k) == ScoresUnder(p, k) + (if e.key == k then [e.score] else [])
  {
    assert (p + [e])[..|p|] == p;
  }

  /** Collecting one more entry: a new key is first appended to the order
      with an empty list, then the score is appended to the key's list. */
  lemma CollectEntry(p: seq<Entry>, e: Entry, order: seq<string>, questionMap: map<string, seq<real>>)
    requires CollectedFrom(p, order, questionMap)
    ensures var known := e.key in questionMap;
            var order1 := if known then order else order + [e.key];
            var map1 := if known then questionMap else questionMap[e.key := []];
            CollectedFrom(p + [e], order1, map1[e.key := map1[e.key] + [e.score]])
  {
    EntryKeysSnoc(p, e);
    assert (EntryKeys(p) + [e.key])[..|p|] == EntryKeys(p);
    if e.key in questionMap {
      CollectKnownKey(p, e, order, questionMap);
    } else {
      CollectNewKey(p, e, order, questionMap);
    }
  }

  lemma CollectKnownKey(p: seq<Entry>, e: Entry, order: seq<string>, questionMap: map<string, seq<real>>)
    requires CollectedFrom(p, order, questionMap) && e.key in questionMap
    requires Distinct(EntryKeys(p + [e])) == order
    ensures CollectedFrom(p + [e], order, questionMap[e.key := questionMap[e.key] + [e.score]])
  {
    forall k | k in questionMap
      ensures ScoresUnder(p + [e], k) == ScoresUnder(p, k) + (if e.key == k then [e.score] else [])
    {
      ScoresUnderSnoc(p, e, k);
    }
  }

  lemma CollectNewKey(p: seq<Entry>, e: Entry, order: seq<string>, questionMap: map<string, seq<real>>)
    requires CollectedFrom(p, order, questionMap) && e.key !in questionMap
    requires Distinct(EntryKeys(p + [e])) == order + [e.key]
    ensures CollectedFrom(p + [e], order + [e.key], questionMap[e.key := [e.score]])
  {
    DistinctProperties(EntryKeys(p));
    ScoresUnderNonEmpty(p, e.key);
    forall k | k in questionMap || k == e.key
      ensures ScoresUnder(p + [e], k) == ScoresUnder(p, k) + (if e.key == k then [e.score] else [])
    {
      ScoresUnderSnoc(p, e, k);
    }
  }

  /** The inner loop of the collecting pass: the entries of one record. */
  method CollectRecord(record: Record, ghost done: seq<Entry>, order0: seq<string>, questionMap0: map<string, seq<real>>)
    returns (order: seq<string>, questionMap: map<string, seq<real>>)
    requires CollectedFrom(done, order0, questionMap0)
    ensures CollectedFrom(done + ScoredEntriesOf(record, record.keys), order, questionMap)
  {
    order, questionMap := order0, questionMap0;
    assert record.keys[..0] == [];
    assert done + ScoredEntriesOf(record, record.keys[..0]) == done;
    for j := 0 to |record.keys|
      invariant CollectedFrom(done + ScoredEntriesOf(record, record.keys[..j]), order, questionMap)
    {
      ScoredEntriesStep(record, done, j);
      ghost var p := done + ScoredEntriesOf(record, record.keys[..j]);
      var key := record.keys[j];
      if key in record.fields && IsScoreValue(record.fields[key]) {
        var value := record.fields[key].n;
        assert done + ScoredEntriesOf(record, record.keys[..j + 1]) == p + [Entry(key, value)];
        CollectEntry(p, Entry(key, value), order, questionMap);
        if key !in questionMap {
          questionMap := questionMap[key := []];
          order := order + [key];
        }
        questionMap := questionMap[key := questionMap[key] + [value]];
      } else {
        assert done + ScoredEntriesOf(record, record.keys[..j + 1]) == p;
      }
    }
    assert record.keys[..|record.keys|] == record.keys;
  }

  /** The first pass of `calculateQuestionScores`: the scores of every
      record, collected per key into an insertion-ordered map. */
  method CollectQuestionScores(records: seq<Record>) returns (order: seq<string>, questionMap: map<string, seq<real>>)
    ensures order == Distinct(EntryKeys(ScoredEntries(records)))
    ensures forall k :: k in questionMap <==> k in order
    ensures forall k :: k in questionMap ==> questionMap[k] == ScoresUnder(ScoredEntries(records), k)
  {
    order, questionMap := [], map[];
    for i := 0 to |records|
      invariant CollectedFrom(ScoredEntries(records[..i]), order, questionMap)
    {
      assert records[..i + 1][..i] == records[..i];
      order, questionMap := CollectRecord(records[i], ScoredEntries(records[..i]), order, questionMap);
    }
    assert records[..|records|] == records;
  }

  /** The second pass of `calculateQuestionScores`: one aggregate per
      collected key, in map order. */
  method AggregateQuestions(order: seq<string>, questionMap: map<string, seq<real>>) returns (questions: seq<QuestionScore>)
    requires forall k :: 0 <= k < |order| ==> order[k] in questionMap && questionMap[order[k]] != []
    ensures |questions| == |order|
    ensures forall k :: 0 <= k < |order| ==> questions[k] == QuestionOf(order[k], questionMap[order[k]])
  {
    questions := [];
    for i := 0 to |order|
      invariant |questions| == i
      invariant forall k :: 0 <= k < i ==> questions[k] == QuestionOf(order[k], questionMap[order[k]])
    {
      var scores := questionMap[order[i]];
      var average := Sum(scores) / |scores| as real;
      var variance := RoundedSqrt1(SquaredDeviations(scores, average) / |scores| as real);
      questions := questions + [QuestionScore(order[i], order[i], InferCategory(order[i]),
        Round1(average), Round1(average), |scores|, variance)];
    }
  }

  /** `calculateQuestionScores`: collect per key, aggregate each key, then
      sort by score, highest first. */
  method CalculateQuestionScores(records: seq<Record>) returns (questions: seq<QuestionScore>)
    ensures questions == QuestionScores(records)
  {
    var order, questionMap := CollectQuestionScores(records);
    ghost var es := ScoredEntries(records);
    QuestionIdsHaveScores(es);
    questions := AggregateQuestions(order, questionMap);
    assert questions == UnsortedQuestionScores(records);
    questions := SortBy(questions, NegScore);
  }

  /** The questions come highest score first, each key exactly once, and
      they are a reordering of the per-key aggregates. */
  lemma QuestionScoresOrder(records: seq<Record>)
    ensures var qs := QuestionScores(records);
      && (forall i, j :: 0 <= i < j < |qs| ==> qs[i].score >= qs[j].score)
      && (forall i, j :: 0 <= i < j < |qs| ==> qs[i].questionId != qs[j].questionId)
      && multiset(qs) == multiset(UnsortedQuestionScores(records))
  {
    var unsorted := UnsortedQuestionScores(records);
    var es := ScoredEntries(records);
    var ids := Distinct(EntryKeys(es));
    SortProperties(unsorted, NegScore);
    DistinctProperties(EntryKeys(es));
    assert DistinctBy(unsorted, QuestionIdOf) by {
      forall i, j | 0 <= i < j < |unsorted|
        ensures QuestionIdOf(unsorted[i]) != QuestionIdOf(unsorted[j])
      {
        assert unsorted[i].questionId == ids[i];
      }
    }
    SortDistinctBy(unsorted, NegScore, QuestionIdOf);
  }

  /** Each question counts the scores found under its key: it has at least
      one, its score is their mean to one decimal and lies in [0, 100], its
      satisfaction equals its score, and its variance is their population
      standard deviation to one decimal. */
  lemma QuestionScoreMeaning(records: seq<Record>, q: QuestionScore)
    requires q in QuestionScores(records)
    ensures var scores := ScoresUnder(ScoredEntries(records), q.questionId);
      && scores != []
      && q.count == |scores|
      && q.questionText == q.questionId
      && q.category == InferCategory(q.questionId)
      && q.score == Round1(Mean(scores)) && 0.0 <= q.score <= 100.0
      && q.satisfaction == q.score
      && q.variance == RoundedSqrt1(PopulationVariance(scores))
  {
    var unsorted := UnsortedQuestionScores(records);
    SortProperties(unsorted, NegScore);
    PermutationMember(QuestionScores(records), unsorted, q);
    var es := ScoredEntries(records);
    var ids := Distinct(EntryKeys(es));
    QuestionIdsHaveScores(es);
    var i :| 0 <= i < |unsorted| && unsorted[i] == q;
    assert q.questionId == ids[i];
    ScoredEntriesValid(records);
    ScoresUnderValid(es, ids[i]);
    RoundedMeanOfScores(ScoresUnder(es, ids[i]));
  }

  /** Record `r` holds a score under `k`. */
  predicate HasScoreAt(r: Record, k: string) {
    k in r.fields && IsScoreValue(r.fields[k])
  }

  function HasScoreAtFn(k: string): Record -> bool {
    (r: Record) => HasScoreAt(r, k)
  }

  lemma {:induction false} ScoresUnderOneRecord(r: Record, keys: seq<string>, k: string)
    requires NoDuplicates(keys)
    ensures |ScoresUnder(ScoredEntriesOf(r, keys), k)| == if k in keys && HasScoreAt(r, k) then 1 else 0
  {
    if keys != [] {
      var ks, last := keys[..|keys| - 1], keys[|keys| - 1];
      ScoresUnderOneRecord(r, ks, k);
      var tail := if last in r.fields && IsScoreValue(r.fields[last]) then [Entry(last, r.fields[last].n)] else [];
      ScoresUnderAppend(ScoredEntriesOf(r, ks), tail, k);
      assert tail != [] ==> ScoresUnder(tail, k) == (if last == k then [tail[0].score] else []) by {
        if tail != [] {
          assert tail[..0] == [];
        }
      }
      assert k in keys <==> k in ks || k == last by {
        assert keys == ks + [last];
      }
      assert last !in ks;
    }
  }

  /** On well-formed records a question's count is the number of records
      that hold a score under its key. */
  lemma {:induction false} QuestionCountIsRespondents(records: seq<Record>, k: string)
    requires forall i :: 0 <= i < |records| ==> WellFormed(records[i])
    ensures |ScoresUnder(ScoredEntries(records), k)| == |Filter(records, HasScoreAtFn(k))|
  {
    if records != [] {
      var rs, r := records[..|records| - 1], records[|records| - 1];
      QuestionCountIsRespondents(rs, k);
      ScoresUnderAppend(ScoredEntries(rs), ScoredEntriesOf(r, r.keys), k);
      ScoresUnderOneRecord(r, r.keys, k);
    }
  }

  // ---------------------------------------------------- average score

  /** The mean of every score value to one decimal, 0 when there is none. */
  function AverageScore(records: seq<Record>): (avg: real)
    ensures 0.0 <= avg <= 100.0
    ensures ScoreValues(records) == [] ==> avg == 0.0
    ensures ScoreValues(records) != [] ==>
      Mean(ScoreValues(records)) - 0.05 < avg <= Mean(ScoreValues(records)) + 0.05
    ensures (avg * 10.0).Floor as real == avg * 10.0
  {
    var xs := ScoreValues(records);
    if |xs| > 0 then
      ScoredEntriesValid(records);
      EntryScoresValid(ScoredEntries(records));
      RoundedMeanOfScores(xs);
      Round1(Sum(xs) / |xs| as real)
    else 0.0
  }

  /** `calculateAverageScore`: one running total and count over every value
      of every record. */
  method CalculateAverageScore(records: seq<Record>) returns (avg: real)
    ensures avg == AverageScore(records)
  {
    var totalScore, count := 0.0, 0;
    for i := 0 to |records|
      invariant totalScore == Sum(ScoreValues(records[..i]))
      invariant count == |ScoreValues(records[..i])|
    {
      assert records[..i + 1][..i] == records[..i];
      totalScore, count := SumRecord(records[i], ScoredEntries(records[..i]), totalScore, count);
    }
    assert records[..|records|] == records;
    avg := if count > 0 then Round1(totalScore / count as real) else 0.0;
  }

  lemma EntryScoresSnoc(p: seq<Entry>, e: Entry)
    ensures EntryScores(p + [e]) == EntryScores(p) + [e.score]
    ensures Sum(EntryScores(p + [e])) == Sum(EntryScores(p)) + e.score
  {
    assert (p + [e])[..|p|] == p;
    assert (EntryScores(p) + [e.score])[..|p|] == EntryScores(p);
  }

  /** The inner loop of `calculateAverageScore`: the values of one record
      added to the running total and count. */
  method SumRecord(record: Record, ghost done: seq<Entry>, total0: real, count0: nat)
    returns (total: real, count: nat)
    requires total0 == Sum(EntryScores(done)) && count0 == |done|
    ensures var es := done + ScoredEntriesOf(record, record.keys);
            total == Sum(EntryScores(es)) && count == |es|
  {
    total, count := total0, count0;
    ghost var es := done;
    assert record.keys[..0] == [];
    assert done + ScoredEntriesOf(record, record.keys[..0]) == done;
    for j := 0 to |record.keys|
      invariant es == done + ScoredEntriesOf(record, record.keys[..j])
      invariant total == Sum(EntryScores(es)) && count == |es|
    {
      ScoredEntriesStep(record, done, j);
      var key := record.keys[j];
      if key in record.fields && IsScoreValue(record.fields[key]) {
        var value := record.fields[key].n;
        EntryScoresSnoc(es, Entry(key, value));
        es := es + [Entry(key, value)];
        total := total + value;
        count := count + 1;
      }
    }
    assert record.keys[..|record.keys|] == record.keys;
  }

  /** The average score scaled by 0.85. */
  function CalculateAverageSatisfaction(records: seq<Record>): (s: real)
    ensures 0.0 <= s <= AverageScore(records) && s <= 85.0
    ensures AverageScore(records) > 0.0 ==> s < AverageScore(records)
  {
    AverageScore(records) * 0.85
  }

  /** The average score scaled by 1.1. */
  function CalculateAverageImportance(records: seq<Record>): (i: real)
    ensures AverageScore(records) <= i <= 110.0
    ensures AverageScore(records) > 0.0 ==> i > AverageScore(records)
  {
    AverageScore(records) * 1.1
  }

  // ------------------------------------------ top issues and strengths

  datatype Issue = Issue(issue: string, score: real)
  datatype Strength = Strength(strength: string, score: real)

  /** The end index of `slice(0, limit)`: a negative limit counts from the end. */
  function SliceEnd(len: nat, limit: int): nat {
    if limit < 0 then (if len + limit < 0 then 0 else len + limit)
    else if limit < len then limit else len
  }

  /** The number of questions when at most `limit` are taken. */
  predicate TakesAtMost(n: nat, total: nat, limit: int) {
    && n <= total
    && (limit >= 0 ==> n == if limit < total then limit else total)
    && (limit < 0 ==> n == if total + limit < 0 then 0 else total + limit)
  }

  function ScoreOf(q: QuestionScore): real {
    q.score
  }

  /** The default number of issues and strengths. */
  const DefaultLimit := 3

  /** The questions re-sorted lowest score first and cut after `limit`. */
  function GetTopIssues(records: seq<Record>, limit: int): (issues: seq<Issue>)
    ensures TakesAtMost(|issues|, |QuestionScores(records)|, limit)
  {
    var ascending := SortBy(QuestionScores(records), ScoreOf);
    var taken := ascending[..SliceEnd(|ascending|, limit)];
    seq(|taken|, i requires 0 <= i < |taken| => Issue(taken[i].questionId, taken[i].score))
  }

  /** The issues go lowest score first, each is a question with its score,
      and no question left out scores lower than one taken. */
  lemma TopIssuesMeaning(records: seq<Record>, limit: int)
    ensures var issues := GetTopIssues(records, limit);
      var ascending := SortBy(QuestionScores(records), ScoreOf);
      && (forall i, j :: 0 <= i < j < |issues| ==> issues[i].score <= issues[j].score)
      && (forall i :: 0 <= i < |issues| ==> Issue(ascending[i].questionId, ascending[i].score) == issues[i])
      && (forall i, j :: 0 <= i < |issues| <= j < |ascending| ==> issues[i].score <= ascending[j].score)
      && multiset(ascending) == multiset(QuestionScores(records))
  {
    SortProperties(QuestionScores(records), ScoreOf);
  }

  /** The questions re-sorted highest score first and cut after `limit`. */
  function GetStrengths(records: seq<Record>, limit: int): (strengths: seq<Strength>)
    ensures TakesAtMost(|strengths|, |QuestionScores(records)|, limit)
  {
    var descending := SortBy(QuestionScores(records), NegScore);
    var taken := descending[..SliceEnd(|descending|, limit)];
    seq(|taken|, i requires 0 <= i < |taken| => Strength(taken[i].questionId, taken[i].score))
  }

  /** The questions are already highest first, so the strengths are simply
      the first questions; they go highest score first and no question left
      out scores higher than one taken. */
  lemma StrengthsMeaning(records: seq<Record>, limit: int)
    ensures var strengths := GetStrengths(records, limit);
      var qs := QuestionScores(records);
      && (forall i :: 0 <= i < |strengths| ==> Strength(qs[i].questionId, qs[i].score) == strengths[i])
      && (forall i, j :: 0 <= i < j < |strengths| ==> strengths[i].score >= strengths[j].score)
      && (forall i, j :: 0 <= i < |strengths| <= j < |qs| ==> strengths[i].score >= qs[j].score)
  {
    var qs := QuestionScores(records);
    QuestionsAlreadyDescending(records);
    var strengths := GetStrengths(records, limit);
    var n := SliceEnd(|qs|, limit);
    assert |strengths| == n;
    forall i | 0 <= i < n
      ensures strengths[i] == Strength(qs[i].questionId, qs[i].score)
    {
    }
    QuestionScoresOrder(records);
  }

  /** Re-sorting the questions highest first leaves them as they are. */
  lemma QuestionsAlreadyDescending(records: seq<Record>)
    ensures SortBy(QuestionScores(records), NegScore) == QuestionScores(records)
  {
    SortProperties(UnsortedQuestionScores(records), NegScore);
    SortSorted(QuestionScores(records), NegScore);
  }

  // ------------------------------------------- organisation comparison

  datatype OrgComparison = OrgComparison(org: string, score: real, count: nat, satisfaction: real, importance: real)

  /** `r.소속1 === org`: only the very string matches. */
  function BelongsTo(org: string): Record -> bool {
    (r: Record) => "소속1" in r.fields && r.fields["소속1"] == Str(org)
  }

  /** One comparison row per requested organisation, in request order. */
  function CompareOrgScores(records: seq<Record>, organizations: seq<string>): (rows: seq<OrgComparison>)
    ensures |rows| == |organizations|
    ensures forall i :: 0 <= i < |rows| ==>
      var members := Filter(records, BelongsTo(organizations[i]));
      && rows[i].org == organizations[i]
      && rows[i].count == |members|
      && rows[i].score == AverageScore(members)
      && 0.0 <= rows[i].satisfaction <= rows[i].score <= rows[i].importance
  {
    seq(|organizations|, i requires 0 <= i < |organizations| =>
      var orgRecords := Filter(records, BelongsTo(organizations[i]));
      OrgComparison(organizations[i], AverageScore(orgRecords), |orgRecords|,
        CalculateAverageSatisfaction(orgRecords), CalculateAverageImportance(orgRecords)))
  }

  /** A row counts exactly the records whose 소속1 is that string, in order;
      a number-valued 소속1 never matches. */
  lemma CompareOrgMembers(records: seq<Record>, org: string)
    ensures var idx := FilterIndices(records, BelongsTo(org));
      && IsSelection(Filter(records, BelongsTo(org)), records, idx)
      && forall j :: 0 <= j < |records| ==> (j in idx <==> "소속1" in records[j].fields && records[j].fields["소속1"] == Str(org))
    ensures !BelongsTo("1")(Record(["소속1"], map["소속1" := Num(1.0)]))
  {
    FilterSelects(records, BelongsTo(org));
  }

  // ---------------------------------------------- score distribution

  /** The bucket counts '80-100', '60-79', '40-59', '20-39', '0-19'. */
  datatype Distribution = Distribution(from80: nat, from60: nat, from40: nat, from20: nat, below20: nat)

  function Total(d: Distribution): nat {
    d.from80 + d.from60 + d.from40 + d.from20 + d.below20
  }

  /** The bucket of a score: 0 for '80-100' through 4 for '0-19'. */
  function Band(x: real): nat {
    if x >= 80.0 then 0 else if x >= 60.0 then 1 else if x >= 40.0 then 2 else if x >= 20.0 then 3 else 4
  }

  /** Every value lands in exactly one bucket, by the thresholds 80, 60, 40
      and 20. */
  lemma BandMeaning(x: real)
    ensures Band(x) <= 4
    ensures Band(x) == 0 <==> x >= 80.0
    ensures Band(x) == 1 <==> 60.0 <= x < 80.0
    ensures Band(x) == 2 <==> 40.0 <= x < 60.0
    ensures Band(x) == 3 <==> 20.0 <= x < 40.0
    ensures Band(x) == 4 <==> x < 20.0
  {
  }

  function BandCount(d: Distribution, b: nat): nat {
    match b
    case 0 => d.from80
    case 1 => d.from60
    case 2 => d.from40
    case 3 => d.from20
    case _ => d.below20
  }

  function Tally(d: Distribution, x: real): Distribution {
    match Band(x)
    case 0 => d.(from80 := d.from80 + 1)
    case 1 => d.(from60 := d.from60 + 1)
    case 2 => d.(from40 := d.from40 + 1)
    case 3 => d.(from20 := d.from20 + 1)
    case _ => d.(below20 := d.below20 + 1)
  }

  function DistributionOf(xs: seq<real>): Distribution
  {
    if xs == [] then Distribution(0, 0, 0, 0, 0) else Tally(DistributionOf(xs[..|xs| - 1]), xs[|xs| - 1])
  }

  /** The buckets add up to the number of values. */
  lemma {:induction false} DistributionTotal(xs: seq<real>)
    ensures Total(DistributionOf(xs)) == |xs|
  {
    if xs != [] {
      DistributionTotal(xs[..|xs| - 1]);
    }
  }

  function Bands(xs: seq<real>): (bs: seq<nat>)
    ensures |bs| == |xs|
  {
    if xs == [] then [] else Bands(xs[..|xs| - 1]) + [Band(xs[|xs| - 1])]
  }

  /** Each bucket counts exactly the values of its band. */
  lemma {:induction false} DistributionCountsBands(xs: seq<real>, b: nat)
    requires b <= 4
    ensures BandCount(DistributionOf(xs), b) == Count(Bands(xs), b)
  {
    if xs != [] {
      var xs' := xs[..|xs| - 1];
      DistributionCountsBands(xs', b);
      assert (Bands(xs') + [Band(xs[|xs| - 1])])[..|xs'|] == Bands(xs');
      TallyCount(DistributionOf(xs'), xs[|xs| - 1], b);
    }
  }

  lemma TallyCount(d: Distribution, x: real, b: nat)
    requires b <= 4
    ensures BandCount(Tally(d, x), b) == BandCount(d, b) + if Band(x) == b then 1 else 0
  {
  }

  lemma DistributionSnoc(p: seq<Entry>, e: Entry)
    ensures DistributionOf(EntryScores(p + [e])) == Tally(DistributionOf(EntryScores(p)), e.score)
  {
    EntryScoresSnoc(p, e);
    assert (EntryScores(p) + [e.score])[..|p|] == EntryScores(p);
  }

  /** The inner loop of `calculateScoreDistribution`: the values of one
      record. */
  method TallyRecord(record: Record, ghost done: seq<Entry>, d0: Distribution) returns (d: Distribution)
    requires d0 == DistributionOf(EntryScores(done))
    ensures d == DistributionOf(EntryScores(done + ScoredEntriesOf(record, record.keys)))
  {
    d := d0;
    ghost var es := done;
    assert record.keys[..0] == [];
    assert done + ScoredEntriesOf(record, record.keys[..0]) == done;
    for j := 0 to |record.keys|
      invariant es == done + ScoredEntriesOf(record, record.keys[..j])
      invariant d == DistributionOf(EntryScores(es))
    {
      ScoredEntriesStep(record, done, j);
      var key := record.keys[j];
      if key in record.fields && IsScoreValue(record.fields[key]) {
        var value := record.fields[key].n;
        DistributionSnoc(es, Entry(key, value));
        es := es + [Entry(key, value)];
        ghost var before := d;
        if value >= 80.0 {
          d := d.(from80 := d.from80 + 1);
          assert Band(value) == 0 && d == Tally(before, value);
        } else if value >= 60.0 {
          d := d.(from60 := d.from60 + 1);
          assert Band(value) == 1 && d == Tally(before, value);
        } else if value >= 40.0 {
          d := d.(from40 := d.from40 + 1);
          assert Band(value) == 2 && d == Tally(before, value);
        } else if value >= 20.0 {
          d := d.(from20 := d.from20 + 1);
          assert Band(value) == 3 && d == Tally(before, value);
        } else {
          d := d.(below20 := d.below20 + 1);
          assert Band(value) == 4 && d == Tally(before, value);
        }
      }
    }
    assert record.keys[..|record.keys|] == record.keys;
  }

  /** `calculateScoreDistribution`: one pass over every value of every
      record, incrementing its bucket. */
  method CalculateScoreDistribution(records: seq<Record>) returns (d: Distribution)
    ensures d == DistributionOf(ScoreValues(records))
  {
    d := Distribution(0, 0, 0, 0, 0);
    for i := 0 to |records|
      invariant d == DistributionOf(ScoreValues(records[..i]))
    {
      assert records[..i + 1][..i] == records[..i];
      d := TallyRecord(records[i], ScoredEntries(records[..i]), d);
    }
    assert records[..|records|] == records;
  }

  // ------------------------------------------ respondent distribution

  datatype KeyCount = KeyCount(key: string, count: nat)

  /** `String(record[field])` for each record whose value there is truthy. */
  function TruthyTexts(records: seq<Record>, field: string): seq<string> {
    if records == [] then []
    else
      var r := records[|records| - 1];
      TruthyTexts(records[..|records| - 1], field)
      + (if field in r.fields && Truthy(r.fields[field]) then [ToText(r.fields[field])] else [])
  }

  function NegCount(kc: KeyCount): real {
    -(kc.count as real)
  }

  function CountOf(kc: KeyCount): int {
    kc.count
  }

  function KeyOf(kc: KeyCount): string {
    kc.key
  }

  /** One entry per distinct text in order of first appearance. */
  function KeyCounts(texts: seq<string>): seq<KeyCount> {
    var keys := Distinct(texts);
    seq(|keys|, i requires 0 <= i < |keys| => KeyCount(keys[i], Count(texts, keys[i])))
  }

  /** The counts sorted highest first. */
  function RespondentDistribution(records: seq<Record>, field: string): seq<KeyCount> {
    SortBy(KeyCounts(TruthyTexts(records, field)), NegCount)
  }

  /** What the counting pass has built after the texts `texts`. */
  ghost predicate CountedFrom(texts: seq<string>, order: seq<string>, distribution: map<string, nat>) {
    && order == Distinct(texts)
    && (forall k :: k in distribution <==> k in order)
    && (forall k :: k in distribution ==> distribution[k] == Count(texts, k))
  }

  /** Counting one more text: a new key is appended to the order, and the
      key's counter goes up by one. */
  lemma CountText(texts: seq<string>, key: string, order: seq<string>, distribution: map<string, nat>)
    requires CountedFrom(texts, order, distribution)
    ensures var previous := if key in distribution then distribution[key] else 0;
            CountedFrom(texts + [key], if key in distribution then order else order + [key],
              distribution[key := previous + 1])
  {
    assert (texts + [key])[..|texts|] == texts;
    DistinctProperties(texts);
    CountPositive(texts, key);
  }

  lemma TruthyTextsStep(records: seq<Record>, field: string, i: nat)
    requires i < |records|
    ensures var r := records[i];
            TruthyTexts(records[..i + 1], field)
            == TruthyTexts(records[..i], field)
               + (if field in r.fields && Truthy(r.fields[field]) then [ToText(r.fields[field])] else [])
  {
    assert records[..i + 1][..i] == records[..i];
  }

  /** `getRespondentDistribution`: counting into an insertion-ordered map,
      then the entries sorted by count, highest first. */
  method GetRespondentDistribution(records: seq<Record>, field: string) returns (dist: seq<KeyCount>)
    ensures dist == RespondentDistribution(records, field)
  {
    var order: seq<string> := [];
    var distribution: map<string, nat> := map[];
    ghost var texts: seq<string> := [];
    for i := 0 to |records|
      invariant texts == TruthyTexts(records[..i], field)
      invariant CountedFrom(texts, order, distribution)
    {
      TruthyTextsStep(records, field, i);
      var record := records[i];
      if field in record.fields && Truthy(record.fields[field]) {
        var key := ToText(record.fields[field]);
        CountText(texts, key, order, distribution);
        texts := texts + [key];
        var previous := if key in distribution then distribution[key] else 0;
        if key !in distribution {
          order := order + [key];
        }
        distribution := distribution[key := previous + 1];
      }
    }
    assert records[..|records|] == records;
    var entries := seq(|order|, i requires 0 <= i < |order| => KeyCount(order[i], distribution[order[i]]));
    assert entries == KeyCounts(TruthyTexts(records, field));
    dist := SortBy(entries, NegCount);
  }

  lemma {:induction false} KeyCountsSum(texts: seq<string>, m: nat)
    requires m <= |Distinct(texts)|
    ensures SumBy(KeyCounts(texts)[..m], CountOf) == SumOfCounts(Distinct(texts)[..m], texts)
  {
    if m > 0 {
      KeyCountsSum(texts, m - 1);
      assert KeyCounts(texts)[..m][..m - 1] == KeyCounts(texts)[..m - 1];
      assert Distinct(texts)[..m][..m - 1] == Distinct(texts)[..m - 1];
    }
  }

  /** The number of records whose value at `field` is truthy. */
  lemma {:induction false} TruthyTextsCount(records: seq<Record>, field: string)
    ensures |TruthyTexts(records, field)| == |Filter(records, HasTruthyAt(field))|
  {
    if records != [] {
      TruthyTextsCount(records[..|records| - 1], field);
    }
  }

  function HasTruthyAt(field: string): Record -> bool {
    (r: Record) => field in r.fields && Truthy(r.fields[field])
  }

  /** Keys are distinct, every count is at least 1, counts go highest first
      and add up to the number of records with a truthy value there. */
  lemma RespondentDistributionMeaning(records: seq<Record>, field: string)
    ensures var dist := RespondentDistribution(records, field);
      && DistinctBy(dist, KeyOf)
      && (forall i, j :: 0 <= i < j < |dist| ==> dist[i].count >= dist[j].count)
      && (forall i :: 0 <= i < |dist| ==> dist[i].count >= 1)
      && SumBy(dist, CountOf) == |Filter(records, HasTruthyAt(field))|
  {
    var texts := TruthyTexts(records, field);
    var keys := Distinct(texts);
    var unsorted := KeyCounts(texts);
    var dist := RespondentDistribution(records, field);
    DistinctProperties(texts);
    assert DistinctBy(unsorted, KeyOf) by {
      forall i, j | 0 <= i < j < |unsorted|
        ensures KeyOf(unsorted[i]) != KeyOf(unsorted[j])
      {
        assert unsorted[i].key == keys[i];
      }
    }
    SortDistinctBy(unsorted, NegCount, KeyOf);
    SortProperties(unsorted, NegCount);
    forall i | 0 <= i < |dist|
      ensures dist[i].count >= 1
    {
      assert dist[i] in dist;
      PermutationMember(dist, unsorted, dist[i]);
      var k :| 0 <= k < |unsorted| && unsorted[k] == dist[i];
      assert keys[k] in keys;
      CountPositive(texts, keys[k]);
    }
    SortSumBy(unsorted, NegCount, CountOf);
    KeyCountsSum(texts, |keys|);
    assert unsorted[..|keys|] == unsorted;
    assert keys[..|keys|] == keys;
    SumOfCountsIsLength(texts);
    TruthyTextsCount(records, field);
  }

  // ---------------------------------------------------------- trend

  datatype Trend = Up | Down | Stable

  /** `percentage` is `None` when the previous score is 0 (NaN or Infinity). */
  datatype TrendResult = TrendResult(trend: Trend, change: real, percentage: Option<real>)

  /** The previous score used when none is given. */
  const DefaultPreviousScore := 75.0

  function AnalyzeTrend(currentScore: real, previousScore: real): (t: TrendResult)
    ensures t.trend == Up <==> currentScore - previousScore > 2.0
    ensures t.trend == Down <==> currentScore - previousScore < -2.0
    ensures t.trend == Stable <==> -2.0 <= currentScore - previousScore <= 2.0
    ensures t.percentage.None? <==> previousScore == 0.0
    ensures t.trend == Up ==> t.change >= 2.0
    ensures t.trend == Down ==> t.change <= -2.0
    ensures currentScore - previousScore - 0.05 < t.change <= currentScore - previousScore + 0.05
    ensures (t.change * 10.0).Floor as real == t.change * 10.0
    ensures previousScore != 0.0 ==>
      var q := (currentScore - previousScore) / previousScore * 100.0;
      q - 0.05 < t.percentage.value <= q + 0.05 &&
      (t.percentage.value * 10.0).Floor as real == t.percentage.value * 10.0
  {
    var change := currentScore - previousScore;
    var trend := if change > 2.0 then Up else if change < -2.0 then Down else Stable;
    Round1Threshold(change, 20);
    Round1Threshold(change, -20);
    TrendResult(trend, Round1(change),
      if previousScore == 0.0 then None else Some(Round1(change / previousScore * 100.0)))
  }

  // ---------------------------------------------- improvement potential

  const DefaultTargetScore := 80.0

  /** How far the score is below the target, to one decimal, never
      negative; the maximum score is accepted but plays no part. */
  function CalculateImprovementPotential(currentScore: real, maxScore: real, targetScore: real): (p: real)
    ensures p >= 0.0
    ensures currentScore >= targetScore ==> p == 0.0
    ensures currentScore < targetScore ==> targetScore - currentScore - 0.05 < p <= targetScore - currentScore + 0.05
    ensures (p * 10.0).Floor as real == p * 10.0
  {
    var potential := Round1(targetScore - currentScore);
    Round1Threshold(targetScore - currentScore, 0);
    if 0.0 > potential then 0.0 else potential
  }
}

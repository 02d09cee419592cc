/** The aggregation engine (`src/lib/aggregation.ts`): from survey responses
    and a question catalog to the figures of the dashboard.

    Timestamps are read through an injected `parse` (standing for
    `new Date(s).getTime()`), the clock is a parameter `now`, and `Number(s)`
    on strings is an injected `parseNum`. */
module Aggregation {
  import opened Wrappers
  import opened Text
  import opened Collections
  import opened Sorting
  import opened Utils
  import opened Types

  /** `1000 * 60 * 60 * 24` */
  const MsPerDay: int := 86400000

  // ---------------------------------------------------------------------
  // Ordering and totals

  /** `submitted_at` is present and non-empty (truthy). */
  predicate Dated(r: RawSurveyResponse) {
    r.submittedAt.Some? && r.submittedAt.value != ""
  }

  /** The sort key of a response: its parsed `submitted_at`, or `0`. */
  function SubmittedTime(r: RawSurveyResponse, parse: string -> int): int {
    if Dated(r) then parse(r.submittedAt.value) else 0
  }

  function TimeKey(parse: string -> int): RawSurveyResponse -> int {
    r => SubmittedTime(r, parse)
  }

  /** `[...responses].sort((a, b) => aDate - bDate)` on a copy; the sort is
      stable. */
  function SortByTime(responses: seq<RawSurveyResponse>, parse: string -> int): (sorted: seq<RawSurveyResponse>)
    ensures multiset(sorted) == multiset(responses) && |sorted| == |responses|
    ensures forall i, j :: 0 <= i < j < |sorted| ==>
              SubmittedTime(sorted[i], parse) <= SubmittedTime(sorted[j], parse)
  {
    var sorted := SortBy(responses, TimeKey(parse));
    SortBySorted(responses, TimeKey(parse));
    assert forall i, j :: 0 <= i < j < |sorted| ==>
             TimeKey(parse)(sorted[i]) <= TimeKey(parse)(sorted[j]);
    assert |sorted| == |multiset(sorted)| == |multiset(responses)| == |responses|;
    sorted
  }

  /** Responses submitted at the same instant keep their input order. */
  lemma SortByTimeStable(responses: seq<RawSurveyResponse>, parse: string -> int, t: int)
    ensures WithKey(SortByTime(responses, parse), TimeKey(parse), t) == WithKey(responses, TimeKey(parse), t)
  {
    SortByStable(responses, TimeKey(parse), t);
  }

  /** `response.status !== "partial"`: an absent status counts as complete. */
  predicate CountsAsCompleted(r: RawSurveyResponse) {
    r.status != Some(Partial)
  }

  /** `completedResponses` */
  function CompletedCount(responses: seq<RawSurveyResponse>): (n: nat)
    ensures n <= |responses|
  {
    CountIf(responses, CountsAsCompleted)
  }

  /** `safePercentage(completedResponses, totalResponses)` */
  function CompletionRate(responses: seq<RawSurveyResponse>): (r: Tenths)
    ensures 0 <= r <= 1000
    ensures responses == [] ==> r == 0
    ensures responses != [] ==> IsRounded(1000 * CompletedCount(responses), |responses|, r)
  {
    SafePercentage(CompletedCount(responses), |responses|)
  }

  // ---------------------------------------------------------------------
  // Day span and responses per day

  /** `firstDate`: the oldest response's date, or the clock when it has none. */
  function FirstTime(sorted: seq<RawSurveyResponse>, parse: string -> int, now: int): int {
    if sorted != [] && Dated(sorted[0]) then parse(sorted[0].submittedAt.value) else now
  }

  /** `lastDate`: the newest response's date, or the clock when it has none. */
  function LastTime(sorted: seq<RawSurveyResponse>, parse: string -> int, now: int): int {
    if sorted != [] && Dated(sorted[|sorted| - 1]) then parse(sorted[|sorted| - 1].submittedAt.value) else now
  }

  /** `diffDays`: the rounded number of days between the first and the last
      response, at least one. */
  function DaySpan(sorted: seq<RawSurveyResponse>, parse: string -> int, now: int): (days: int)
    ensures days >= 1
    ensures var d := RoundDiv(LastTime(sorted, parse, now) - FirstTime(sorted, parse, now), MsPerDay);
            IsRounded(LastTime(sorted, parse, now) - FirstTime(sorted, parse, now), MsPerDay, d)
            && days == (if d > 1 then d else 1)
  {
    var d := RoundDiv(LastTime(sorted, parse, now) - FirstTime(sorted, parse, now), MsPerDay);
    if d > 1 then d else 1
  }

  /** `averagePerDay`: the number of responses per day, to one decimal. */
  function AveragePerDay(total: nat, days: int): (r: Tenths)
    requires days >= 1
    ensures IsRounded(10 * total, days, r)
    ensures 0 <= r <= 10 * total
    ensures total == 0 ==> r == 0
  {
    var r := RoundDiv(10 * total, days);
    assert days * (10 * total) >= 10 * total;
    RoundedWithin(10 * total, days, r, 0, 10 * total);
    r
  }

  // ---------------------------------------------------------------------
  // Velocity

  /** `s.slice(0, 10)`: the calendar day of an ISO timestamp. */
  function Prefix10(s: string): (p: string)
    ensures StartsWith(s, p) && |p| <= 10
    ensures |s| >= 10 ==> |p| == 10
    ensures |s| <= 10 ==> p == s
  {
    if |s| <= 10 then s else s[..10]
  }

  /** The day keys of the dated responses, in order; undated ones are
      skipped. */
  function DayKeys(responses: seq<RawSurveyResponse>): (keys: seq<string>)
    ensures |keys| == CountIf(responses, Dated)
  {
    if responses == [] then []
    else
      var r := responses[|responses| - 1];
      DayKeys(responses[..|responses| - 1]) + (if Dated(r) then [Prefix10(r.submittedAt.value)] else [])
  }

  /** Every day key comes from some dated response. */
  lemma {:induction false} DayKeysOrigin(responses: seq<RawSurveyResponse>, k: string)
    requires k in DayKeys(responses)
    ensures exists r :: r in responses && Dated(r) && Prefix10(r.submittedAt.value) == k
  {
    var p := responses[..|responses| - 1];
    var r := responses[|responses| - 1];
    if k in DayKeys(p) {
      DayKeysOrigin(p, k);
      var q :| q in p && Dated(q) && Prefix10(q.submittedAt.value) == k;
      assert q in responses;
    } else {
      assert r in responses;
    }
  }

  /** `{ date, count }` for each listed day. */
  function PointsFor(days: seq<string>, counts: map<string, nat>): (points: seq<TrendPoint>)
    requires forall d :: d in days ==> d in counts
    ensures |points| == |days|
    ensures forall i :: 0 <= i < |days| ==> points[i] == TrendPoint(days[i], counts[days[i]])
  {
    if days == [] then []
    else PointsFor(days[..|days| - 1], counts) + [TrendPoint(days[|days| - 1], counts[days[|days| - 1]])]
  }

  /** The specification of `buildVelocity`: one point per distinct day, in
      ascending order of the day key, with its number of responses. */
  function Velocity(responses: seq<RawSurveyResponse>): seq<TrendPoint> {
    var freq := Tally(DayKeys(responses));
    SortStringsStrict(freq.keys);
    PointsFor(SortStrings(freq.keys), freq.entries)
  }

  lemma DayKeysStep(responses: seq<RawSurveyResponse>, i: nat)
    requires i < |responses|
    ensures DayKeys(responses[..i + 1])
         == DayKeys(responses[..i])
          + (if Dated(responses[i]) then [Prefix10(responses[i].submittedAt.value)] else [])
  {
    assert responses[..i + 1][..i] == responses[..i];
  }

  lemma DayKeysFull(responses: seq<RawSurveyResponse>)
    ensures DayKeys(responses[..|responses|]) == DayKeys(responses)
  {
    assert responses[..|responses|] == responses;
  }

  /** `buildVelocity(responses)`: counts the dated responses per day in a
      `Map`, then lists the entries by ascending day. */
  method BuildVelocity(responses: seq<RawSurveyResponse>) returns (points: seq<TrendPoint>)
    ensures points == Velocity(responses)
  {
    var freq: OrderedMap<string, nat> := EmptyMap();
    for i := 0 to |responses|
      invariant freq == Tally(DayKeys(responses[..i]))
    {
      DayKeysStep(responses, i);
      var response := responses[i];
      if Dated(response) {
        var key := Prefix10(response.submittedAt.value);
        TallySnoc(DayKeys(responses[..i]), key);
        freq := Increment(freq, key);
      } else {
        assert DayKeys(responses[..i + 1]) == DayKeys(responses[..i]);
      }
    }
    DayKeysFull(responses);
    SortStringsStrict(freq.keys);
    points := PointsFor(SortStrings(freq.keys), freq.entries);
  }

  /** Velocity dates are strictly ascending, hence distinct. */
  lemma VelocityAscending(responses: seq<RawSurveyResponse>)
    ensures forall i, j :: 0 <= i < j < |Velocity(responses)| ==>
              StrLt(Velocity(responses)[i].date, Velocity(responses)[j].date)
  {
    SortStringsStrict(Tally(DayKeys(responses)).keys);
  }

  /** Each velocity point is the day of some dated response, and counts the
      dated responses of that day (at least one). */
  lemma VelocityPoints(responses: seq<RawSurveyResponse>, i: nat)
    requires i < |Velocity(responses)|
    ensures exists r :: r in responses && Dated(r) && Prefix10(r.submittedAt.value) == Velocity(responses)[i].date
    ensures Velocity(responses)[i].count == multiset(DayKeys(responses))[Velocity(responses)[i].date] >= 1
  {
    var keys := DayKeys(responses);
    var freq := Tally(keys);
    SortStringsStrict(freq.keys);
    var d := SortStrings(freq.keys)[i];
    assert d in keys;
    DayKeysOrigin(responses, d);
  }

  /** The sum of the counts of some points. */
  function PointsTotal(points: seq<TrendPoint>): nat {
    if points == [] then 0 else PointsTotal(points[..|points| - 1]) + points[|points| - 1].count
  }

  lemma {:induction false} PointsTotalCounts(days: seq<string>, keys: seq<string>)
    requires forall d :: d in days ==> d in Tally(keys).entries
    ensures PointsTotal(PointsFor(days, Tally(keys).entries)) == SumCounts(days, keys)
  {
    if days != [] {
      var p := days[..|days| - 1];
      PointsTotalCounts(p, keys);
      assert PointsFor(days, Tally(keys).entries)[..|p|] == PointsFor(p, Tally(keys).entries);
    }
  }

  /** The velocity counts add up to the number of dated responses: every
      dated response is counted once and undated ones are left out. */
  lemma VelocityTotal(responses: seq<RawSurveyResponse>)
    ensures PointsTotal(Velocity(responses)) == CountIf(responses, Dated)
  {
    var keys := DayKeys(responses);
    var freq := Tally(keys);
    SortStringsStrict(freq.keys);
    PointsTotalCounts(SortStrings(freq.keys), keys);
    SumCountsPermutation(SortStrings(freq.keys), freq.keys, keys);
    DistinctCountsSum(keys);
  }

  // ---------------------------------------------------------------------
  // Collecting the answers of every question

  /** Every answer of every response, response by response. */
  function AnswersOf(responses: seq<RawSurveyResponse>): seq<RawAnswer> {
    if responses == [] then []
    else AnswersOf(responses[..|responses| - 1]) + responses[|responses| - 1].answers
  }

  /** The question id of each answer, in order. */
  function AnswerIds(answers: seq<RawAnswer>): (ids: seq<string>)
    ensures |ids| == |answers|
    ensures forall i :: 0 <= i < |answers| ==> ids[i] == answers[i].questionId
  {
    if answers == [] then []
    else AnswerIds(answers[..|answers| - 1]) + [answers[|answers| - 1].questionId]
  }

  /** The values given to question `id`, in answer order. */
  function ValuesFor(answers: seq<RawAnswer>, id: string): (values: seq<AnswerValue>)
    ensures |values| == multiset(AnswerIds(answers))[id]
  {
    if answers == [] then []
    else
      var p, a := answers[..|answers| - 1], answers[|answers| - 1];
      assert AnswerIds(answers) == AnswerIds(p) + [a.questionId];
      ValuesFor(p, id) + (if a.questionId == id then [a.value] else [])
  }

  /** The position of the first answer to question `id`. */
  function FirstIndex(answers: seq<RawAnswer>, id: string): (j: nat)
    requires id in AnswerIds(answers)
    ensures j < |answers| && answers[j].questionId == id
    ensures forall i :: 0 <= i < j ==> answers[i].questionId != id
  {
    if answers[0].questionId == id then 0
    else
      var k :| 0 <= k < |answers| && AnswerIds(answers)[k] == id;
      assert AnswerIds(answers[1..])[k - 1] == id;
      1 + FirstIndex(answers[1..], id)
  }

  /** `{ title, type }` remembered for a question id when it is first met. */
  datatype FallbackMeta = FallbackMeta(title: string, qtype: Option<QuestionType>)

  function MetaOf(a: RawAnswer): FallbackMeta {
    FallbackMeta(a.questionTitle, a.questionType)
  }

  /** The two maps `buildQuestionInsights` fills: `answerBuckets` and
      `fallbackMeta`. */
  datatype Collected = Collected(
    buckets: OrderedMap<string, seq<AnswerValue>>,
    fallback: OrderedMap<string, FallbackMeta>)
  {
    ghost predicate Valid() {
      buckets.Valid() && fallback.Valid() && fallback.keys == buckets.keys
    }
  }

  /** One answer visited: a new id gets an empty bucket and its fallback
      metadata, then the value is pushed onto the id's bucket. */
  function Record(c: Collected, a: RawAnswer): (d: Collected)
    requires c.Valid()
    ensures d.Valid()
  {
    var id := a.questionId;
    var c1 :=
      if id in c.buckets.entries then c
      else Collected(c.buckets.Set(id, []), c.fallback.Set(id, MetaOf(a)));
    Collected(c1.buckets.Set(id, c1.buckets.entries[id] + [a.value]), c1.fallback)
  }

  /** The maps after visiting `answers` in order. */
  function Collect(answers: seq<RawAnswer>): (c: Collected)
    ensures c.Valid()
  {
    if answers == [] then Collected(EmptyMap(), EmptyMap())
    else Record(Collect(answers[..|answers| - 1]), answers[|answers| - 1])
  }

  /** One bucket per question id, in first-seen order. */
  lemma {:induction false} CollectKeys(answers: seq<RawAnswer>)
    ensures Collect(answers).buckets.keys == Distinct(AnswerIds(answers))
  {
    if answers != [] {
      var p := answers[..|answers| - 1];
      CollectKeys(p);
      assert AnswerIds(answers) == AnswerIds(p) + [answers[|answers| - 1].questionId];
    }
  }

  /** What visiting one answer does to the two maps. */
  lemma RecordEffect(c: Collected, a: RawAnswer)
    requires c.Valid()
    ensures forall id :: id in Record(c, a).buckets.entries <==> id in c.buckets.entries || id == a.questionId
    ensures Record(c, a).buckets.entries[a.questionId]
         == (if a.questionId in c.buckets.entries then c.buckets.entries[a.questionId] else []) + [a.value]
    ensures forall id :: id in c.buckets.entries && id != a.questionId ==>
              Record(c, a).buckets.entries[id] == c.buckets.entries[id]
    ensures forall id :: id in c.fallback.entries ==> Record(c, a).fallback.entries[id] == c.fallback.entries[id]
    ensures a.questionId !in c.fallback.entries ==> Record(c, a).fallback.entries[a.questionId] == MetaOf(a)
  {
  }

  /** Each bucket holds the values of its question, in answer order. */
  lemma {:induction false} CollectBuckets(answers: seq<RawAnswer>, id: string)
    requires id in Collect(answers).buckets.entries
    ensures Collect(answers).buckets.entries[id] == ValuesFor(answers, id)
  {
    var p, a := answers[..|answers| - 1], answers[|answers| - 1];
    var c := Collect(p);
    assert Collect(answers) == Record(c, a);
    RecordEffect(c, a);
    assert ValuesFor(answers, id) == ValuesFor(p, id) + (if a.questionId == id then [a.value] else []);
    if id in c.buckets.entries {
      CollectBuckets(p, id);
      assert c.buckets.entries[id] == ValuesFor(p, id);
    } else {
      CollectKeys(p);
      assert id !in AnswerIds(p);
      ValuesForAbsent(p, id);
      assert id == a.questionId;
    }
  }

  lemma ValuesForAbsent(answers: seq<RawAnswer>, id: string)
    requires id !in AnswerIds(answers)
    ensures ValuesFor(answers, id) == []
  {
    assert multiset(AnswerIds(answers))[id] == 0;
  }

  /** The fallback metadata of a question comes from its first answer. */
  lemma {:induction false} CollectFallback(answers: seq<RawAnswer>, id: string)
    requires id in Collect(answers).fallback.entries
    ensures id in AnswerIds(answers)
    ensures Collect(answers).fallback.entries[id] == MetaOf(answers[FirstIndex(answers, id)])
  {
    var p, a := answers[..|answers| - 1], answers[|answers| - 1];
    var c := Collect(p);
    assert Collect(answers) == Record(c, a);
    RecordEffect(c, a);
    if id in c.fallback.entries {
      CollectFallback(p, id);
      FirstIndexPrefix(answers, id);
    } else {
      CollectKeys(p);
      assert id == a.questionId && id !in AnswerIds(p);
      FirstIndexLast(answers);
    }
  }

  lemma FirstIndexLast(answers: seq<RawAnswer>)
    requires answers != []
    requires answers[|answers| - 1].questionId !in AnswerIds(answers[..|answers| - 1])
    ensures answers[|answers| - 1].questionId in AnswerIds(answers)
    ensures FirstIndex(answers, answers[|answers| - 1].questionId) == |answers| - 1
  {
    var p, id := answers[..|answers| - 1], answers[|answers| - 1].questionId;
    assert AnswerIds(answers)[|answers| - 1] == id;
    assert forall i :: 0 <= i < |p| ==> answers[i].questionId != id by {
      forall i | 0 <= i < |p| ensures answers[i].questionId != id {
        assert AnswerIds(p)[i] == p[i].questionId;
      }
    }
  }

  lemma FirstIndexPrefix(answers: seq<RawAnswer>, id: string)
    requires answers != [] && id in AnswerIds(answers[..|answers| - 1])
    ensures id in AnswerIds(answers)
    ensures FirstIndex(answers, id) == FirstIndex(answers[..|answers| - 1], id)
  {
    var p := answers[..|answers| - 1];
    var k :| 0 <= k < |p| && AnswerIds(p)[k] == id;
    assert AnswerIds(answers)[k] == id;
    var j := FirstIndex(p, id);
    assert answers[j] == p[j];
    assert forall i :: 0 <= i < j ==> answers[i] == p[i];
  }

  // ---------------------------------------------------------------------
  // The question catalog

  /** `{ id, title: meta.title ?? id, type: meta.type ?? "unknown",
      choices: undefined }` */
  function FallbackQuestion(id: string, meta: FallbackMeta): QuestionMeta {
    QuestionMeta(id, meta.title, meta.qtype.GetOr(Unknown), [])
  }

  /** `Array.from(fallbackMeta.entries()).map(...)` */
  function FallbackFromMeta(fallback: OrderedMap<string, FallbackMeta>): (qs: seq<QuestionMeta>)
    requires fallback.Valid()
    ensures |qs| == |fallback.keys|
    ensures forall i :: 0 <= i < |qs| ==>
              qs[i] == FallbackQuestion(fallback.keys[i], fallback.entries[fallback.keys[i]])
  {
    seq(|fallback.keys|, i requires 0 <= i < |fallback.keys| =>
      FallbackQuestion(fallback.keys[i], fallback.entries[fallback.keys[i]]))
  }

  /** The catalog used when none is declared: one question per answered
      id, in first-seen order, with the title and type of its first answer
      (type `unknown` when that answer has none) and no declared choices. */
  function FallbackCatalog(answers: seq<RawAnswer>): (qs: seq<QuestionMeta>)
    ensures |qs| == |Distinct(AnswerIds(answers))|
    ensures forall i :: 0 <= i < |qs| ==>
              qs[i].id == Distinct(AnswerIds(answers))[i]
              && qs[i].id in AnswerIds(answers)
              && qs[i] == FallbackQuestion(qs[i].id, MetaOf(answers[FirstIndex(answers, qs[i].id)]))
  {
    var ids := Distinct(AnswerIds(answers));
    seq(|ids|, i requires 0 <= i < |ids| =>
      FallbackQuestion(ids[i], MetaOf(answers[FirstIndex(answers, ids[i])])))
  }

  /** `orderedQuestions`: the declared catalog when it has entries,
      otherwise the one built from the answers. */
  function OrderedQuestions(questions: seq<QuestionMeta>, answers: seq<RawAnswer>): seq<QuestionMeta> {
    if |questions| > 0 then questions else FallbackCatalog(answers)
  }

  /** Without a declared catalog, the questions are exactly the answered
      ids, each once, in first-seen order. */
  lemma FallbackCatalogIds(answers: seq<RawAnswer>)
    ensures forall i, j :: 0 <= i < j < |FallbackCatalog(answers)| ==>
              FallbackCatalog(answers)[i].id != FallbackCatalog(answers)[j].id
    ensures forall id :: id in AnswerIds(answers) <==>
              exists i :: 0 <= i < |FallbackCatalog(answers)| && FallbackCatalog(answers)[i].id == id
  {
    var ids := Distinct(AnswerIds(answers));
    var qs := FallbackCatalog(answers);
    forall id | id in AnswerIds(answers)
      ensures exists i :: 0 <= i < |qs| && qs[i].id == id
    {
      var i :| 0 <= i < |ids| && ids[i] == id;
      assert qs[i].id == id;
    }
  }

  /** The catalog `buildQuestionInsights` builds from its `fallbackMeta` map
      is the one specified from the answers. */
  lemma FallbackFromCollect(answers: seq<RawAnswer>)
    ensures FallbackFromMeta(Collect(answers).fallback) == FallbackCatalog(answers)
  {
    var c := Collect(answers);
    CollectKeys(answers);
    var qs, rs := FallbackFromMeta(c.fallback), FallbackCatalog(answers);
    forall i | 0 <= i < |qs| ensures qs[i] == rs[i] {
      var id := c.fallback.keys[i];
      CollectFallback(answers, id);
    }
  }

  // ---------------------------------------------------------------------
  // Choice questions

  /** `values.flatMap(...)`: the strings of string and array answers. */
  function ChoiceStrings(values: seq<AnswerValue>): seq<string> {
    if values == [] then []
    else
      var v := values[|values| - 1];
      ChoiceStrings(values[..|values| - 1])
        + (match v
           case Strs(items) => items
           case Str(s) => [s]
           case _ => [])
  }

  /** `normalizeChoiceLabel` applied to each string. */
  function NormalizeAll(strings: seq<string>): (keys: seq<string>)
    ensures |keys| == |strings|
    ensures forall i :: 0 <= i < |keys| ==> keys[i] == NormalizeChoiceLabel(strings[i])
  {
    MapSeq(strings, NormalizeChoiceLabel)
  }

  /** The normalised keys counted for a choice question. */
  function ChoiceKeys(values: seq<AnswerValue>): seq<string> {
    NormalizeAll(ChoiceStrings(values))
  }

  /** The keys of some choices, in order. */
  function KeysOfChoices(choices: seq<Choice>): (keys: seq<string>)
    ensures |keys| == |choices|
    ensures forall i :: 0 <= i < |choices| ==> keys[i] == choices[i].key
  {
    if choices == [] then []
    else KeysOfChoices(choices[..|choices| - 1]) + [choices[|choices| - 1].key]
  }

  /** `Array.from(choiceMap.keys()).map((key) => ({ key, label: key }))` */
  function ChoicesFromKeys(keys: seq<string>): (choices: seq<Choice>)
    ensures |choices| == |keys|
    ensures forall i :: 0 <= i < |keys| ==> choices[i] == Choice(keys[i], keys[i])
  {
    seq(|keys|, i requires 0 <= i < |keys| => Choice(keys[i], keys[i]))
  }

  /** `orderedChoices`: the declared choices, or else the keys of the
      counter map (the observed keys in first-seen order), each its own
      label. */
  function ChosenChoices(declared: seq<Choice>, keys: seq<string>): seq<Choice> {
    if |declared| > 0 then declared else ChoicesFromKeys(keys)
  }

  /** `choiceMap.get(key) ?? 0` */
  function CountOf(counts: map<string, nat>, key: string): nat {
    if key in counts then counts[key] else 0
  }

  /** One option: its count and its share of the answers, to one decimal,
      out of `sampleSize || 1`. */
  function Stat(labelText: string, count: nat, sampleSize: nat): OptionStat {
    OptionStat(labelText, count, SafePercentage(count, if sampleSize == 0 then 1 else sampleSize))
  }

  /** `orderedChoices.map(...)`: one option per listed choice. */
  function ChoiceStats(choices: seq<Choice>, counts: map<string, nat>, sampleSize: nat): (stats: seq<OptionStat>)
    ensures |stats| == |choices|
    ensures forall i :: 0 <= i < |choices| ==>
              stats[i] == Stat(choices[i].labelText, CountOf(counts, choices[i].key), sampleSize)
  {
    if choices == [] then []
    else
      var c := choices[|choices| - 1];
      ChoiceStats(choices[..|choices| - 1], counts, sampleSize) + [Stat(c.labelText, CountOf(counts, c.key), sampleSize)]
  }

  /** One option per unexpected key, labelled with the key itself. */
  function ExtraStats(keys: seq<string>, counts: map<string, nat>, sampleSize: nat): (stats: seq<OptionStat>)
    ensures |stats| == |keys|
    ensures forall i :: 0 <= i < |keys| ==> stats[i] == Stat(keys[i], CountOf(counts, keys[i]), sampleSize)
  {
    if keys == [] then []
    else
      var k := keys[|keys| - 1];
      ExtraStats(keys[..|keys| - 1], counts, sampleSize) + [Stat(k, CountOf(counts, k), sampleSize)]
  }

  /** The options listed for a counter map: the ordered choices with
      their counts, then each counted key that no ordered choice has, in
      first-seen order. */
  function OptionsFrom(declared: seq<Choice>, counts: OrderedMap<string, nat>, sampleSize: nat): seq<OptionStat> {
    var ordered := ChosenChoices(declared, counts.keys);
    ChoiceStats(ordered, counts.entries, sampleSize)
      + ExtraStats(Without(counts.keys, KeysOfChoices(ordered)), counts.entries, sampleSize)
  }

  /** The options for the normalised answer strings `keys` of a question
      answered `sampleSize` times. */
  function OptionsForKeys(declared: seq<Choice>, keys: seq<string>, sampleSize: nat): seq<OptionStat> {
    OptionsFrom(declared, Tally(keys), sampleSize)
  }

  /** The options of a choice question with answers `values`. */
  function OptionsOf(declared: seq<Choice>, values: seq<AnswerValue>): seq<OptionStat> {
    OptionsForKeys(declared, ChoiceKeys(values), |values|)
  }

  /** `orderedChoices.some((choice) => choice.key === key)` */
  function HasKey(choices: seq<Choice>, key: string): (b: bool)
    ensures b <==> key in KeysOfChoices(choices)
  {
    if choices == [] then false
    else HasKey(choices[..|choices| - 1], key) || choices[|choices| - 1].key == key
  }

  lemma NormalizeTallyStep(strings: seq<string>, i: nat)
    requires i < |strings|
    ensures Tally(NormalizeAll(strings[..i + 1]))
         == Increment(Tally(NormalizeAll(strings[..i])), NormalizeChoiceLabel(strings[i]))
  {
    NormalizeAllSnoc(strings, i);
    TallySnoc(NormalizeAll(strings[..i]), NormalizeChoiceLabel(strings[i]));
  }

  lemma NormalizeAllSnoc(strings: seq<string>, i: nat)
    requires i < |strings|
    ensures NormalizeAll(strings[..i + 1]) == NormalizeAll(strings[..i]) + [NormalizeChoiceLabel(strings[i])]
  {
    assert strings[..i + 1] == strings[..i] + [strings[i]];
    MapSeqSnoc(strings[..i], strings[i], NormalizeChoiceLabel);
  }

  lemma NormalizeAllFull(strings: seq<string>)
    ensures NormalizeAll(strings[..|strings|]) == NormalizeAll(strings)
  {
    assert strings[..|strings|] == strings;
  }

  lemma WithoutStep(keys: seq<string>, excluded: seq<string>, i: nat)
    requires i < |keys|
    ensures Without(keys[..i + 1], excluded)
         == Without(keys[..i], excluded) + (if keys[i] in excluded then [] else [keys[i]])
  {
    assert keys[..i + 1][..i] == keys[..i];
  }

  lemma WithoutFull(keys: seq<string>, excluded: seq<string>)
    ensures Without(keys[..|keys|], excluded) == Without(keys, excluded)
  {
    assert keys[..|keys|] == keys;
  }

  lemma ExtraStatsSnoc(keys: seq<string>, k: string, counts: map<string, nat>, sampleSize: nat)
    ensures ExtraStats(keys + [k], counts, sampleSize)
         == ExtraStats(keys, counts, sampleSize) + [Stat(k, CountOf(counts, k), sampleSize)]
  {
    assert (keys + [k])[..|keys|] == keys;
  }

  lemma OptionsStep(prefix: seq<OptionStat>, keys: seq<string>, excluded: seq<string>,
                    counts: map<string, nat>, sampleSize: nat, i: nat)
    requires i < |keys|
    ensures prefix + ExtraStats(Without(keys[..i + 1], excluded), counts, sampleSize)
         == prefix + ExtraStats(Without(keys[..i], excluded), counts, sampleSize)
          + (if keys[i] in excluded then [] else [Stat(keys[i], CountOf(counts, keys[i]), sampleSize)])
  {
    WithoutStep(keys, excluded, i);
    if keys[i] !in excluded {
      ExtraStatsSnoc(Without(keys[..i], excluded), keys[i], counts, sampleSize);
    }
  }

  lemma ExtraStatsStart(prefix: seq<OptionStat>, keys: seq<string>, excluded: seq<string>,
                        counts: map<string, nat>, sampleSize: nat)
    ensures prefix + ExtraStats(Without(keys[..0], excluded), counts, sampleSize) == prefix
  {
    assert keys[..0] == [];
  }

  lemma CountingStart(strings: seq<string>)
    ensures Tally(NormalizeAll(strings[..0])) == EmptyMap<string, nat>()
  {
    assert NormalizeAll(strings[..0]) == [];
  }

  lemma CountingDone(strings: seq<string>, choiceMap: OrderedMap<string, nat>)
    requires choiceMap == Tally(NormalizeAll(strings[..|strings|]))
    ensures choiceMap == Tally(NormalizeAll(strings))
  {
    assert strings[..|strings|] == strings;
  }

  /** The counting pass of the choice branch: `choiceMap` holds, in
      first-seen order, how often each normalised label occurs. */
  method CountChoices(strings: seq<string>) returns (choiceMap: OrderedMap<string, nat>)
    ensures choiceMap == Tally(NormalizeAll(strings))
  {
    choiceMap := EmptyMap();
    CountingStart(strings);
    for i := 0 to |strings|
      invariant choiceMap == Tally(NormalizeAll(strings[..i]))
    {
      NormalizeTallyStep(strings, i);
      choiceMap := Increment(choiceMap, NormalizeChoiceLabel(strings[i]));
    }
    CountingDone(strings, choiceMap);
  }

  /** The listing pass of the choice branch: one option per ordered
      choice, then one per counted key that no ordered choice has. */
  method ListOptions(declared: seq<Choice>, choiceMap: OrderedMap<string, nat>, sampleSize: nat)
    returns (options: seq<OptionStat>)
    ensures options == OptionsFrom(declared, choiceMap, sampleSize)
  {
    var orderedChoices := ChosenChoices(declared, choiceMap.keys);
    options := ChoiceStats(orderedChoices, choiceMap.entries, sampleSize);
    ghost var declaredPart := options;
    ghost var excluded := KeysOfChoices(orderedChoices);
    ExtraStatsStart(declaredPart, choiceMap.keys, excluded, choiceMap.entries, sampleSize);
    for i := 0 to |choiceMap.keys|
      invariant options == declaredPart + ExtraStats(Without(choiceMap.keys[..i], excluded), choiceMap.entries, sampleSize)
    {
      var key := choiceMap.keys[i];
      OptionsStep(declaredPart, choiceMap.keys, excluded, choiceMap.entries, sampleSize, i);
      var known := HasKey(orderedChoices, key);
      if !known {
        options := options + [Stat(key, CountOf(choiceMap.entries, key), sampleSize)];
      }
    }
    WithoutFull(choiceMap.keys, excluded);
  }

  /** The options of one choice question (`buildQuestionInsights`, choice
      branch). */
  method ChoiceOptions(declared: seq<Choice>, values: seq<AnswerValue>) returns (options: seq<OptionStat>)
    ensures options == OptionsOf(declared, values)
  {
    var choiceMap := CountChoices(ChoiceStrings(values));
    options := ListOptions(declared, choiceMap, |values|);
  }

  /** The sum of the counts of some options. */
  function TotalCount(options: seq<OptionStat>): nat {
    if options == [] then 0 else TotalCount(options[..|options| - 1]) + options[|options| - 1].count
  }

  lemma {:induction false} TotalCountConcat(a: seq<OptionStat>, b: seq<OptionStat>)
    ensures TotalCount(a + b) == TotalCount(a) + TotalCount(b)
  {
    if b == [] {
      assert a + b == a;
    } else {
      assert (a + b)[..|a + b| - 1] == a + b[..|b| - 1];
      TotalCountConcat(a, b[..|b| - 1]);
    }
  }

  /** A key's count in the counter map is its number of occurrences. */
  lemma CountOfTally(keys: seq<string>, k: string)
    ensures CountOf(Tally(keys).entries, k) == multiset(keys)[k]
  {
    var m := Tally(keys);
    if k !in m.entries {
      assert k !in m.keys;
      assert k !in keys;
    }
  }

  lemma {:induction false} ChoiceStatsTotal(choices: seq<Choice>, counts: map<string, nat>, keys: seq<string>, sampleSize: nat)
    requires forall k :: CountOf(counts, k) == multiset(keys)[k]
    ensures TotalCount(ChoiceStats(choices, counts, sampleSize)) == SumCounts(KeysOfChoices(choices), keys)
  {
    if choices != [] {
      var p := choices[..|choices| - 1];
      ChoiceStatsTotal(p, counts, keys, sampleSize);
      assert KeysOfChoices(choices)[..|choices| - 1] == KeysOfChoices(p);
    }
  }

  lemma {:induction false} ExtraStatsTotal(ks: seq<string>, counts: map<string, nat>, keys: seq<string>, sampleSize: nat)
    requires forall k :: CountOf(counts, k) == multiset(keys)[k]
    ensures TotalCount(ExtraStats(ks, counts, sampleSize)) == SumCounts(ks, keys)
  {
    if ks != [] {
      ExtraStatsTotal(ks[..|ks| - 1], counts, keys, sampleSize);
    }
  }

  lemma KeysOfChoicesFromKeys(keys: seq<string>)
    ensures KeysOfChoices(ChoicesFromKeys(keys)) == keys
  {
  }

  /** When the declared keys are distinct, every counted answer string is
      counted by exactly one option: the counts add up to the number of
      strings. */
  lemma OptionsTotal(declared: seq<Choice>, values: seq<AnswerValue>)
    requires NoDuplicates(KeysOfChoices(declared))
    ensures TotalCount(OptionsOf(declared, values)) == |ChoiceStrings(values)|
  {
    var keys := ChoiceKeys(values);
    var m := Tally(keys);
    var ordered := ChosenChoices(declared, m.keys);
    var dk := KeysOfChoices(ordered);
    if |declared| == 0 {
      KeysOfChoicesFromKeys(m.keys);
    }
    assert NoDuplicates(dk);
    forall k ensures CountOf(m.entries, k) == multiset(keys)[k] {
      CountOfTally(keys, k);
    }
    ChoiceStatsTotal(ordered, m.entries, keys, |values|);
    ExtraStatsTotal(Without(m.keys, dk), m.entries, keys, |values|);
    TotalCountConcat(ChoiceStats(ordered, m.entries, |values|), ExtraStats(Without(m.keys, dk), m.entries, |values|));
    PartitionCounts(dk, keys);
  }

  /** The options split into the listed choices and the extra keys. */
  lemma ListingParts(ordered: seq<Choice>, w: seq<string>, counts: map<string, nat>, n: nat, options: seq<OptionStat>)
    requires options == ChoiceStats(ordered, counts, n) + ExtraStats(w, counts, n)
    ensures |options| == |ordered| + |w|
    ensures forall i :: 0 <= i < |ordered| ==> options[i] == Stat(ordered[i].labelText, CountOf(counts, ordered[i].key), n)
    ensures forall j :: 0 <= j < |w| ==> options[|ordered| + j] == Stat(w[j], CountOf(counts, w[j]), n)
  {
    var cs, es := ChoiceStats(ordered, counts, n), ExtraStats(w, counts, n);
    forall i | 0 <= i < |ordered|
      ensures options[i] == Stat(ordered[i].labelText, CountOf(counts, ordered[i].key), n)
    {
      assert options[i] == cs[i];
    }
    forall j | 0 <= j < |w| ensures options[|ordered| + j] == Stat(w[j], CountOf(counts, w[j]), n) {
      assert options[|ordered| + j] == es[j];
    }
  }

  /** The listing for any counter map starts with the ordered choices. */
  lemma OptionsFromChoices(declared: seq<Choice>, m: OrderedMap<string, nat>, n: nat)
    ensures var ordered := ChosenChoices(declared, m.keys);
            var options := OptionsFrom(declared, m, n);
            && |ordered| <= |options|
            && (forall i :: 0 <= i < |ordered| ==>
                  options[i] == Stat(ordered[i].labelText, CountOf(m.entries, ordered[i].key), n))
  {
    var ordered := ChosenChoices(declared, m.keys);
    ListingParts(ordered, Without(m.keys, KeysOfChoices(ordered)), m.entries, n, OptionsFrom(declared, m, n));
  }

  /** After the ordered choices, the listing for any counter map has one
      option per counted key that no ordered choice has, none left out. */
  lemma OptionsFromExtras(declared: seq<Choice>, m: OrderedMap<string, nat>, n: nat)
    requires m.Valid()
    ensures var ordered := ChosenChoices(declared, m.keys);
            var options := OptionsFrom(declared, m, n);
            && (forall i :: |ordered| <= i < |options| ==>
                  && options[i].labelText in m.entries
                  && options[i].labelText !in KeysOfChoices(ordered)
                  && options[i] == Stat(options[i].labelText, m.entries[options[i].labelText], n))
            && (forall k :: k in m.entries && k !in KeysOfChoices(ordered) ==>
                  exists i :: |ordered| <= i < |options| && options[i].labelText == k)
  {
    var ordered := ChosenChoices(declared, m.keys);
    var w := Without(m.keys, KeysOfChoices(ordered));
    var options := OptionsFrom(declared, m, n);
    ListingParts(ordered, w, m.entries, n, options);
    forall i | |ordered| <= i < |options|
      ensures && options[i].labelText in m.entries
              && options[i].labelText !in KeysOfChoices(ordered)
              && options[i] == Stat(options[i].labelText, m.entries[options[i].labelText], n)
    {
      var j := i - |ordered|;
      assert options[|ordered| + j] == Stat(w[j], CountOf(m.entries, w[j]), n);
      assert w[j] in w;
    }
    forall k | k in m.entries && k !in KeysOfChoices(ordered)
      ensures exists i :: |ordered| <= i < |options| && options[i].labelText == k
    {
      assert k in w;
      var j :| 0 <= j < |w| && w[j] == k;
      assert options[|ordered| + j].labelText == k;
    }
  }

  /** The options list the ordered choices first (the declared ones when
      there are any), each with the number of keys equal to its own. */
  lemma OptionsListChoices(declared: seq<Choice>, keys: seq<string>, n: nat)
    ensures |declared| > 0 ==> ChosenChoices(declared, Distinct(keys)) == declared
    ensures |ChosenChoices(declared, Distinct(keys))| <= |OptionsForKeys(declared, keys, n)|
    ensures forall i :: 0 <= i < |ChosenChoices(declared, Distinct(keys))| ==>
              OptionsForKeys(declared, keys, n)[i]
              == Stat(ChosenChoices(declared, Distinct(keys))[i].labelText,
                      multiset(keys)[ChosenChoices(declared, Distinct(keys))[i].key], n)
  {
    var m := Tally(keys);
    OptionsFromChoices(declared, m, n);
    forall k ensures CountOf(m.entries, k) == multiset(keys)[k] {
      CountOfTally(keys, k);
    }
  }

  /** After the ordered choices come the other observed keys, each with its
      number of occurrences, and none is left out. */
  lemma OptionsListExtras(declared: seq<Choice>, keys: seq<string>, n: nat)
    ensures var ordered := ChosenChoices(declared, Distinct(keys));
            var options := OptionsForKeys(declared, keys, n);
            && (forall i :: |ordered| <= i < |options| ==>
                  && options[i].labelText in keys
                  && options[i].labelText !in KeysOfChoices(ordered)
                  && options[i] == Stat(options[i].labelText, multiset(keys)[options[i].labelText], n))
            && (forall k :: k in keys && k !in KeysOfChoices(ordered) ==>
                  exists i :: |ordered| <= i < |options| && options[i].labelText == k)
  {
    var m := Tally(keys);
    assert forall k :: k in m.entries <==> k in keys;
    OptionsFromExtras(declared, m, n);
  }

  // ---------------------------------------------------------------------
  // Rating, number and text questions

  /** `typeof value === "number" ? value : Number(value)`, kept only when
      finite. `parseNum` is JavaScript's string-to-number conversion,
      `None` for a result that is not a finite number; an array converts
      through its comma-joined text, `null` to 0 and `undefined` to NaN. */
  function NumberOf(v: AnswerValue, parseNum: string -> Option<int>): Option<int> {
    match v
    case Num(n) => Some(n)
    case Str(s) => parseNum(s)
    case Strs(items) => parseNum(Join(items, ","))
    case Null => Some(0)
    case Undefined => None
  }

  /** `numericValues`: the finite numbers among the answers, in order. */
  function NumericValues(values: seq<AnswerValue>, parseNum: string -> Option<int>): (nums: seq<int>)
    ensures |nums| <= |values|
  {
    if values == [] then []
    else
      var rest := NumericValues(values[..|values| - 1], parseNum);
      match NumberOf(values[|values| - 1], parseNum)
      case Some(n) => rest + [n]
      case None => rest
  }

  /** Answers that are all numbers are all kept, in order. */
  lemma {:induction false} NumericValuesOfNumbers(values: seq<AnswerValue>, parseNum: string -> Option<int>)
    requires forall i :: 0 <= i < |values| ==> values[i].Num?
    ensures |NumericValues(values, parseNum)| == |values|
    ensures forall i :: 0 <= i < |values| ==> NumericValues(values, parseNum)[i] == values[i].n
  {
    if values != [] {
      NumericValuesOfNumbers(values[..|values| - 1], parseNum);
    }
  }

  /** `numericValues` keeps each answer's number on its own: the numbers of
      two runs of answers are the numbers of each, one after the other. */
  lemma {:induction false} NumericValuesConcat(a: seq<AnswerValue>, b: seq<AnswerValue>, parseNum: string -> Option<int>)
    ensures NumericValues(a + b, parseNum) == NumericValues(a, parseNum) + NumericValues(b, parseNum)
    decreases |b|
  {
    if b == [] {
      assert a + b == a;
    } else {
      var front := b[..|b| - 1];
      assert (a + b)[..|a + b| - 1] == a + front;
      assert (a + b)[|a + b| - 1] == b[|b| - 1];
      NumericValuesConcat(a, front, parseNum);
    }
  }

  /** One answer contributes its number when it has a finite one, and
      nothing otherwise. */
  lemma NumericValuesOne(v: AnswerValue, parseNum: string -> Option<int>)
    ensures NumericValues([v], parseNum) == (if NumberOf(v, parseNum).Some? then [NumberOf(v, parseNum).value] else [])
    ensures v.Num? ==> NumericValues([v], parseNum) == [v.n]
    ensures v.Undefined? ==> NumericValues([v], parseNum) == []
  {
    assert [v][..0] == [];
  }

  /** `textValues`: the non-empty string answers, in order; every other
      answer counts as the empty string and is dropped. */
  function TextValues(values: seq<AnswerValue>): (texts: seq<string>)
    ensures |texts| <= |values|
    ensures forall t :: t in texts <==> t != [] && Str(t) in values
  {
    if values == [] then []
    else
      var rest := TextValues(values[..|values| - 1]);
      var v := values[|values| - 1];
      assert values == values[..|values| - 1] + [v];
      if v.Str? && v.s != [] then rest + [v.s] else rest
  }

  /** The text answers of two runs of answers are those of each, one after
      the other. */
  lemma {:induction false} TextValuesConcat(a: seq<AnswerValue>, b: seq<AnswerValue>)
    ensures TextValues(a + b) == TextValues(a) + TextValues(b)
    decreases |b|
  {
    if b == [] {
      assert a + b == a;
    } else {
      var front := b[..|b| - 1];
      assert (a + b)[..|a + b| - 1] == a + front;
      assert (a + b)[|a + b| - 1] == b[|b| - 1];
      TextValuesConcat(a, front);
    }
  }

  /** One answer contributes its text exactly when it is a non-empty
      string. */
  lemma TextValuesOne(v: AnswerValue)
    ensures TextValues([v]) == (if v.Str? && v.s != [] then [v.s] else [])
  {
    assert [v][..0] == [];
  }

  // ---------------------------------------------------------------------
  // Question insights

  /** The type-specific part of a question's insight. Free-text answers are
      listed newest first, and the keywords are ranked over that reversed
      list (`reverse()` works in place before `topWords` reads it). */
  function Detail(q: QuestionMeta, values: seq<AnswerValue>, parseNum: string -> Option<int>): InsightDetail {
    match q.qtype
    case SingleChoice => Options(OptionsOf(q.choices, values))
    case MultipleChoice => Options(OptionsOf(q.choices, values))
    case Rating =>
      var nums := NumericValues(values, parseNum);
      Numeric(Average(nums), Median(nums))
    case Number =>
      var nums := NumericValues(values, parseNum);
      Numeric(Average(nums), Median(nums))
    case FreeText =>
      var texts := Reverse(TextValues(values));
      Texts(texts, RankWords(AllWords(texts), DefaultWordLimit))
    case Unknown => Plain
  }

  /** A free-text question lists its answers newest first: one more
      non-empty text answer goes to the front of the list and any other
      answer leaves it as it was; the keywords are always ranked over the
      list as served. */
  lemma FreeTextNewestFirst(q: QuestionMeta, older: seq<AnswerValue>, v: AnswerValue, parseNum: string -> Option<int>)
    requires q.qtype == FreeText
    ensures var before := Detail(q, older, parseNum);
            var after := Detail(q, older + [v], parseNum);
            && before.Texts? && after.Texts?
            && after.topTextAnswers == (if v.Str? && v.s != [] then [v.s] + before.topTextAnswers else before.topTextAnswers)
            && after.topWords == RankWords(AllWords(after.topTextAnswers), DefaultWordLimit)
  {
    TextValuesConcat(older, [v]);
    TextValuesOne(v);
    if v.Str? && v.s != [] {
      ReverseSnoc(TextValues(older), v.s);
    } else {
      assert TextValues(older + [v]) == TextValues(older);
    }
  }

  /** With no answers a free-text question lists nothing. */
  lemma FreeTextNoAnswers(q: QuestionMeta, parseNum: string -> Option<int>)
    requires q.qtype == FreeText
    ensures Detail(q, [], parseNum) == Texts([], RankWords(AllWords([]), DefaultWordLimit))
  {
  }

  /** The insight of one question given its answer values. */
  function InsightOfValues(q: QuestionMeta, values: seq<AnswerValue>, parseNum: string -> Option<int>): QuestionInsight {
    QuestionInsight(q.id, q.title, q.qtype, |values|, Detail(q, values, parseNum))
  }

  /** The insight of one question over all the answers. */
  function InsightFor(q: QuestionMeta, answers: seq<RawAnswer>, parseNum: string -> Option<int>): QuestionInsight {
    InsightOfValues(q, ValuesFor(answers, q.id), parseNum)
  }

  /** One insight per question of `qs`, in order. */
  function InsightsOf(qs: seq<QuestionMeta>, answers: seq<RawAnswer>, parseNum: string -> Option<int>)
    : (insights: seq<QuestionInsight>)
    ensures |insights| == |qs|
    ensures forall i :: 0 <= i < |qs| ==> insights[i] == InsightFor(qs[i], answers, parseNum)
  {
    if qs == [] then []
    else InsightsOf(qs[..|qs| - 1], answers, parseNum) + [InsightFor(qs[|qs| - 1], answers, parseNum)]
  }

  /** `buildQuestionInsights`: one insight per ordered question, in order. */
  function QuestionInsights(responses: seq<RawSurveyResponse>, questions: seq<QuestionMeta>,
                            parseNum: string -> Option<int>): (insights: seq<QuestionInsight>)
    ensures |insights| == |OrderedQuestions(questions, AnswersOf(responses))|
    ensures forall i :: 0 <= i < |insights| ==>
              && insights[i].questionId == OrderedQuestions(questions, AnswersOf(responses))[i].id
              && insights[i].sampleSize == multiset(AnswerIds(AnswersOf(responses)))[insights[i].questionId]
  {
    var answers := AnswersOf(responses);
    InsightsOf(OrderedQuestions(questions, answers), answers, parseNum)
  }

  lemma InsightsOfStep(qs: seq<QuestionMeta>, k: nat, answers: seq<RawAnswer>, parseNum: string -> Option<int>)
    requires k < |qs|
    ensures InsightsOf(qs[..k + 1], answers, parseNum) == InsightsOf(qs[..k], answers, parseNum) + [InsightFor(qs[k], answers, parseNum)]
  {
    assert qs[..k + 1][..k] == qs[..k];
  }

  lemma InsightsOfStart(qs: seq<QuestionMeta>, answers: seq<RawAnswer>, parseNum: string -> Option<int>)
    ensures InsightsOf(qs[..0], answers, parseNum) == []
  {
    assert qs[..0] == [];
  }

  lemma InsightsOfFull(qs: seq<QuestionMeta>, answers: seq<RawAnswer>, parseNum: string -> Option<int>)
    ensures InsightsOf(qs[..|qs|], answers, parseNum) == InsightsOf(qs, answers, parseNum)
  {
    assert qs[..|qs|] == qs;
  }

  /** The sum of the sample sizes of some insights. */
  function SampleTotal(insights: seq<QuestionInsight>): nat {
    if insights == [] then 0 else SampleTotal(insights[..|insights| - 1]) + insights[|insights| - 1].sampleSize
  }

  lemma {:induction false} SampleTotalCounts(insights: seq<QuestionInsight>, answers: seq<RawAnswer>, ids: seq<string>)
    requires |insights| == |ids|
    requires forall i :: 0 <= i < |ids| ==>
               insights[i].questionId == ids[i] && insights[i].sampleSize == multiset(AnswerIds(answers))[ids[i]]
    ensures SampleTotal(insights) == SumCounts(ids, AnswerIds(answers))
  {
    if ids != [] {
      SampleTotalCounts(insights[..|insights| - 1], answers, ids[..|ids| - 1]);
    }
  }

  /** Without a declared catalog every answer is counted in exactly one
      insight. */
  lemma InsightsCoverAnswers(responses: seq<RawSurveyResponse>, parseNum: string -> Option<int>)
    ensures SampleTotal(QuestionInsights(responses, [], parseNum)) == |AnswersOf(responses)|
  {
    var answers := AnswersOf(responses);
    var insights := QuestionInsights(responses, [], parseNum);
    var ids := Distinct(AnswerIds(answers));
    assert OrderedQuestions([], answers) == FallbackCatalog(answers);
    SampleTotalCounts(insights, answers, ids);
    DistinctCountsSum(AnswerIds(answers));
  }

  lemma CollectStep(before: seq<RawAnswer>, answers: seq<RawAnswer>, j: nat)
    requires j < |answers|
    ensures Collect(before + answers[..j + 1]) == Record(Collect(before + answers[..j]), answers[j])
  {
    var x := before + answers[..j];
    assert before + answers[..j + 1] == x + [answers[j]];
    assert (x + [answers[j]])[..|x|] == x;
  }

  lemma CollectStart(before: seq<RawAnswer>, answers: seq<RawAnswer>)
    ensures Collect(before + answers[..0]) == Collect(before)
  {
    assert before + answers[..0] == before;
  }

  lemma AnswersOfStep(responses: seq<RawSurveyResponse>, i: nat)
    requires i < |responses|
    ensures AnswersOf(responses[..i + 1])
         == AnswersOf(responses[..i]) + responses[i].answers[..|responses[i].answers|]
  {
    assert responses[..i + 1][..i] == responses[..i];
    assert responses[i].answers[..|responses[i].answers|] == responses[i].answers;
  }

  lemma AnswersOfFull(responses: seq<RawSurveyResponse>)
    ensures AnswersOf(responses[..|responses|]) == AnswersOf(responses)
  {
    assert responses[..|responses|] == responses;
  }

  lemma AnswersOfStart(responses: seq<RawSurveyResponse>)
    ensures Collect(AnswersOf(responses[..0])) == Collected(EmptyMap(), EmptyMap())
  {
    assert responses[..0] == [];
  }

  /** The first pass of `buildQuestionInsights`: every answer of every
      response, in order, lands in its question's bucket, and the first
      answer of each question records its fallback title and type. */
  method CollectAnswers(responses: seq<RawSurveyResponse>)
    returns (answerBuckets: OrderedMap<string, seq<AnswerValue>>, fallbackMeta: OrderedMap<string, FallbackMeta>)
    ensures Collected(answerBuckets, fallbackMeta) == Collect(AnswersOf(responses))
  {
    answerBuckets, fallbackMeta := EmptyMap(), EmptyMap();
    AnswersOfStart(responses);
    for i := 0 to |responses|
      invariant Collected(answerBuckets, fallbackMeta) == Collect(AnswersOf(responses[..i]))
    {
      var answers := responses[i].answers;
      ghost var before := AnswersOf(responses[..i]);
      CollectStart(before, answers);
      for j := 0 to |answers|
        invariant Collected(answerBuckets, fallbackMeta) == Collect(before + answers[..j])
      {
        CollectStep(before, answers, j);
        var answer := answers[j];
        var id := answer.questionId;
        if id !in answerBuckets.entries {
          answerBuckets := answerBuckets.Set(id, []);
          fallbackMeta := fallbackMeta.Set(id, MetaOf(answer));
        }
        answerBuckets := answerBuckets.Set(id, answerBuckets.entries[id] + [answer.value]);
      }
      AnswersOfStep(responses, i);
    }
    AnswersOfFull(responses);
  }

  /** The insight of one question (the body of `orderedQuestions.map`). */
  method InsightOf(q: QuestionMeta, values: seq<AnswerValue>, parseNum: string -> Option<int>)
    returns (insight: QuestionInsight)
    ensures insight == InsightOfValues(q, values, parseNum)
  {
    var detail := Plain;
    if q.qtype == SingleChoice || q.qtype == MultipleChoice {
      var options := ChoiceOptions(q.choices, values);
      detail := Options(options);
    } else if q.qtype == Rating || q.qtype == Number {
      var nums := NumericValues(values, parseNum);
      detail := Numeric(Average(nums), Median(nums));
    } else if q.qtype == FreeText {
      var texts := Reverse(TextValues(values));
      var words := TopWords(texts, DefaultWordLimit);
      detail := Texts(texts, words);
    }
    insight := QuestionInsight(q.id, q.title, q.qtype, |values|, detail);
  }

  lemma InsightForValues(q: QuestionMeta, answers: seq<RawAnswer>, values: seq<AnswerValue>,
                         parseNum: string -> Option<int>)
    requires values == ValuesFor(answers, q.id)
    ensures InsightFor(q, answers, parseNum) == InsightOfValues(q, values, parseNum)
  {
  }

  /** A question's bucket, or no values when nobody answered it. */
  lemma BucketOrEmpty(answers: seq<RawAnswer>, id: string)
    ensures (if id in Collect(answers).buckets.entries then Collect(answers).buckets.entries[id] else [])
         == ValuesFor(answers, id)
  {
    if id in Collect(answers).buckets.entries {
      CollectBuckets(answers, id);
    } else {
      CollectKeys(answers);
      ValuesForAbsent(answers, id);
    }
  }

  /** `buildQuestionInsights(responses, questions)` */
  method BuildQuestionInsights(responses: seq<RawSurveyResponse>, questions: seq<QuestionMeta>,
                               parseNum: string -> Option<int>) returns (insights: seq<QuestionInsight>)
    ensures insights == QuestionInsights(responses, questions, parseNum)
  {
    var answerBuckets, fallbackMeta := CollectAnswers(responses);
    ghost var answers := AnswersOf(responses);
    FallbackFromCollect(answers);
    var orderedQuestions := if |questions| > 0 then questions else FallbackFromMeta(fallbackMeta);
    assert orderedQuestions == OrderedQuestions(questions, answers);
    insights := [];
    InsightsOfStart(orderedQuestions, answers, parseNum);
    for k := 0 to |orderedQuestions|
      invariant insights == InsightsOf(orderedQuestions[..k], answers, parseNum)
    {
      var question := orderedQuestions[k];
      var values := if question.id in answerBuckets.entries then answerBuckets.entries[question.id] else [];
      BucketOrEmpty(answers, question.id);
      var insight := InsightOf(question, values, parseNum);
      InsightForValues(question, answers, values, parseNum);
      InsightsOfStep(orderedQuestions, k, answers, parseNum);
      insights := insights + [insight];
    }
    InsightsOfFull(orderedQuestions, answers, parseNum);
  }

  // ---------------------------------------------------------------------
  // Latest responses

  /** `formatAnswerValue`: arrays joined by ", ", numbers in decimal,
      strings as they are, nothing as the empty string. */
  function FormatAnswerValue(v: AnswerValue): string {
    match v
    case Strs(items) => Join(items, ", ")
    case Num(n) => IntToString(n)
    case Str(s) => s
    case Null => ""
    case Undefined => ""
  }

  /** A number is shown so that it reads back as the same number. */
  lemma FormatNumberRoundTrip(n: int)
    ensures IsIntText(FormatAnswerValue(Num(n)))
    ensures ParseInt(FormatAnswerValue(Num(n))) == n
  {
    IntToStringRoundTrip(n);
  }

  /** How many answers a latest response previews, and how many latest
      responses are listed. */
  const PreviewCount: nat := 3
  const LatestCount: nat := 6

  /** `s.slice(-n)`: the last `n` elements, or all of them. */
  function LastN<T>(s: seq<T>, n: nat): (r: seq<T>)
    ensures |r| == if |s| <= n then |s| else n
    ensures forall i :: 0 <= i < |r| ==> r[i] == s[|s| - |r| + i]
  {
    if |s| <= n then s else s[|s| - n..]
  }

  /** `s.slice(0, n)`: the first `n` elements, or all of them. */
  function FirstN<T>(s: seq<T>, n: nat): (r: seq<T>)
    ensures |r| == if |s| <= n then |s| else n
    ensures r == s[..|r|]
  {
    if |s| <= n then s else s[..n]
  }

  function PreviewOf(a: RawAnswer): Preview {
    Preview(a.questionTitle, FormatAnswerValue(a.value))
  }

  function Previews(answers: seq<RawAnswer>): (ps: seq<Preview>)
    ensures |ps| == |answers|
    ensures forall i :: 0 <= i < |answers| ==> ps[i] == PreviewOf(answers[i])
  {
    seq(|answers|, i requires 0 <= i < |answers| => PreviewOf(answers[i]))
  }

  /** One entry of `latestResponses`. */
  function LatestOf(r: RawSurveyResponse): LatestResponse {
    LatestResponse(r.id, r.submittedAt, r.status, Previews(FirstN(r.answers, PreviewCount)))
  }

  /** The last six responses of the sorted list, newest first. */
  function Newest(sorted: seq<RawSurveyResponse>): (newest: seq<RawSurveyResponse>)
    ensures |newest| == if |sorted| <= LatestCount then |sorted| else LatestCount
    ensures forall i :: 0 <= i < |newest| ==> newest[i] == sorted[|sorted| - 1 - i]
  {
    Reverse(LastN(sorted, LatestCount))
  }

  /** `latestResponses` */
  function LatestResponses(sorted: seq<RawSurveyResponse>): (latest: seq<LatestResponse>)
    ensures |latest| == |Newest(sorted)|
    ensures forall i :: 0 <= i < |latest| ==>
              latest[i] == LatestOf(Newest(sorted)[i]) && |latest[i].answersPreview| <= PreviewCount
  {
    var newest := Newest(sorted);
    seq(|newest|, i requires 0 <= i < |newest| => LatestOf(newest[i]))
  }

  /** Of a list sorted by submission time, the latest responses are the
      most recently submitted, newest first: none left out is newer than
      one shown. */
  lemma NewestFirst(sorted: seq<RawSurveyResponse>, parse: string -> int)
    requires forall i, j :: 0 <= i < j < |sorted| ==> SubmittedTime(sorted[i], parse) <= SubmittedTime(sorted[j], parse)
    ensures var newest := Newest(sorted);
            && (forall i, j :: 0 <= i < j < |newest| ==>
                  SubmittedTime(newest[j], parse) <= SubmittedTime(newest[i], parse))
            && (forall i, k :: 0 <= i < |newest| && 0 <= k < |sorted| - |newest| ==>
                  SubmittedTime(sorted[k], parse) <= SubmittedTime(newest[i], parse))
  {
  }

  // ---------------------------------------------------------------------
  // The dashboard

  /** `buildDashboardData({ responses, survey, questions })`. `now` is the
      clock read by `new Date()` for a missing first or last date, and
      `updatedAt` is that clock as an ISO string. */
  function DashboardOf(responses: seq<RawSurveyResponse>, survey: SurveyDetails, questions: seq<QuestionMeta>,
                       parse: string -> int, parseNum: string -> Option<int>, now: int, updatedAt: string): DashboardData
  {
    var sorted := SortByTime(responses, parse);
    var total := |sorted|;
    DashboardData(
      survey.id, survey.title, survey.description,
      total, CompletedCount(sorted), CompletionRate(sorted),
      AveragePerDay(total, DaySpan(sorted, parse, now)),
      updatedAt,
      Velocity(sorted),
      QuestionInsights(sorted, questions, parseNum),
      LatestResponses(sorted))
  }

  /** `buildDashboardData`: sorts a copy of the responses by submission
      time, then derives every figure from the sorted list. */
  method BuildDashboardData(responses: seq<RawSurveyResponse>, survey: SurveyDetails, questions: seq<QuestionMeta>,
                            parse: string -> int, parseNum: string -> Option<int>, now: int, updatedAt: string)
    returns (data: DashboardData)
    ensures data == DashboardOf(responses, survey, questions, parse, parseNum, now, updatedAt)
  {
    var sortedResponses := SortByTime(responses, parse);
    var totalResponses := |sortedResponses|;
    var completedResponses := CompletedCount(sortedResponses);
    var completionRate := CompletionRate(sortedResponses);
    var diffDays := DaySpan(sortedResponses, parse, now);
    var responseVelocity := BuildVelocity(sortedResponses);
    var questionInsights := BuildQuestionInsights(sortedResponses, questions, parseNum);
    var latestResponses := LatestResponses(sortedResponses);
    data := DashboardData(
      survey.id, survey.title, survey.description,
      totalResponses, completedResponses, completionRate,
      AveragePerDay(totalResponses, diffDays),
      updatedAt, responseVelocity, questionInsights, latestResponses);
  }

  /** The headline figures do not depend on the order the responses come
      in: the total is the number of responses, the completed count is the
      number without a `partial` status, the rate is their share to one
      decimal, the velocity counts every dated response once, the average
      per day lies between 0 and the total, and at most six responses are
      listed (their order is the subject of `NewestFirst`). */
  lemma DashboardFigures(responses: seq<RawSurveyResponse>, survey: SurveyDetails, questions: seq<QuestionMeta>,
                         parse: string -> int, parseNum: string -> Option<int>, now: int, updatedAt: string)
    ensures var data := DashboardOf(responses, survey, questions, parse, parseNum, now, updatedAt);
            && data.surveyId == survey.id
            && data.totalResponses == |responses|
            && data.completedResponses == CountIf(responses, CountsAsCompleted) <= |responses|
            && 0 <= data.completionRate <= 1000
            && (responses != [] ==> IsRounded(1000 * data.completedResponses, |responses|, data.completionRate))
            && PointsTotal(data.responseVelocity) == CountIf(responses, Dated)
            && 0 <= data.averagePerDay <= 10 * |responses|
            && |data.latestResponses| <= LatestCount
  {
    var sorted := SortByTime(responses, parse);
    CountIfPermutation(sorted, responses, CountsAsCompleted);
    CountIfPermutation(sorted, responses, Dated);
    VelocityTotal(sorted);
  }
}

/** The rules of the Drag'n Survey client (`src/lib/dragnSurveyClient.ts`),
    lifted out of its I/O. Every fetch is an input: a reply sequence for
    `fetchJSON`, and functions from ids to fetch outcomes (`None` for a
    fetch that threw) for pages, components and respondents. */
module Client {
  import opened Wrappers
  import opened Text
  import opened Collections
  import opened Types

  /** `RATE_LIMIT_DELAY_MS`, `CACHE_DURATION_MS`, `MAX_RETRIES` */
  const RateLimitDelayMs: nat := 500
  const CacheDurationMs: int := 60000
  const MaxRetries: nat := 2

  // ---------------------------------------------------------------------
  // URL normalisation

  /** `normalizedBase`: the base URL with a trailing slash. */
  function NormalizeBase(base: string): (r: string)
    ensures EndsWith(r, "/")
    ensures StartsWith(r, base) && |r| <= |base| + 1
    ensures EndsWith(base, "/") ==> r == base
  {
    if EndsWith(base, "/") then base else base + "/"
  }

  /** Normalising a normalised base changes nothing. */
  lemma NormalizeBaseIdempotent(base: string)
    ensures NormalizeBase(NormalizeBase(base)) == NormalizeBase(base)
  {
  }

  /** `normalizedEndpoint`: the endpoint without one leading slash. */
  function NormalizeEndpoint(endpoint: string): (r: string)
    ensures endpoint == (if StartsWith(endpoint, "/") then "/" else "") + r
  {
    if StartsWith(endpoint, "/") then endpoint[1..] else endpoint
  }

  /** Only one slash is removed: a doubled slash keeps one. */
  lemma NormalizeEndpointOnce(rest: string)
    ensures NormalizeEndpoint("//" + rest) == "/" + rest
  {
    assert ("//" + rest)[1..] == "/" + rest;
  }

  // ---------------------------------------------------------------------
  // Rate-limit retries

  /** What one HTTP attempt gives: an OK response with its body, a non-OK
      status with its body, or a thrown request (network failure, abort). */
  datatype Reply = Success(body: string) | Status(code: int, body: string) | Thrown

  /** Why `fetchJSON` failed: the API error it throws (status and body),
      or the request's own exception passed through. */
  datatype FetchError = ApiError(code: int, body: string) | NetworkError

  /** The outcome of `fetchJSON` and the delays it slept before retrying. */
  datatype FetchOutcome = FetchOutcome(result: Result<string, FetchError>, waits: seq<nat>)

  /** `RATE_LIMIT_DELAY_MS * (MAX_RETRIES - retries + 2)` */
  function WaitTime(retries: nat): nat
    requires retries <= MaxRetries
  {
    RateLimitDelayMs * (MaxRetries - retries + 2)
  }

  /** `fetchJSON(endpoint, init, retries)` given the replies to its
      successive attempts: a 429 is retried while the budget lasts, after
      a linearly growing wait; any other failure, or a 429 with no budget
      left, ends the call with an error. */
  function FetchJSON(replies: seq<Reply>, retries: nat): (f: FetchOutcome)
    requires retries <= MaxRetries
    requires |replies| > retries
    ensures |f.waits| <= retries
    decreases retries
  {
    match replies[0]
    case Success(body) => FetchOutcome(Ok(body), [])
    case Thrown => FetchOutcome(Err(NetworkError), [])
    case Status(code, body) =>
      if code == 429 && retries > 0 then
        var rest := FetchJSON(replies[1..], retries - 1);
        FetchOutcome(rest.result, [WaitTime(retries)] + rest.waits)
      else
        FetchOutcome(Err(ApiError(code, body)), [])
  }

  /** Each wait follows a 429 reply and grows by 500 ms from 1000 ms (with
      the default budget: 1000 ms, then 1500 ms); the outcome is the reply
      to the last attempt, and an API error is either not a 429 or a 429
      with the budget spent. */
  lemma {:induction false} FetchJSONOutcome(replies: seq<Reply>, retries: nat)
    requires retries <= MaxRetries
    requires |replies| > retries
    ensures var f := FetchJSON(replies, retries);
            var last := replies[|f.waits|];
            && (forall i :: 0 <= i < |f.waits| ==>
                  replies[i].Status? && replies[i].code == 429
                  && f.waits[i] == RateLimitDelayMs * (MaxRetries - retries + 2 + i))
            && (last.Success? ==> f.result == Ok(last.body))
            && (last.Thrown? ==> f.result == Err(NetworkError))
            && (last.Status? ==> f.result == Err(ApiError(last.code, last.body))
                                 && (last.code != 429 || |f.waits| == retries))
  {
    var f := FetchJSON(replies, retries);
    if replies[0].Status? && replies[0].code == 429 && retries > 0 {
      FetchJSONOutcome(replies[1..], retries - 1);
      var rest := FetchJSON(replies[1..], retries - 1);
      assert f.waits == [WaitTime(retries)] + rest.waits;
      forall i | 1 <= i < |f.waits|
        ensures f.waits[i] == RateLimitDelayMs * (MaxRetries - retries + 2 + i)
      {
        assert f.waits[i] == rest.waits[i - 1];
      }
    }
  }

  /** With the default budget the waits are exactly 1000 ms then 1500 ms. */
  lemma DefaultWaits(replies: seq<Reply>)
    requires |replies| > MaxRetries
    ensures FetchJSON(replies, MaxRetries).waits <= [1000, 1500]
  {
    FetchJSONOutcome(replies, MaxRetries);
  }

  // ---------------------------------------------------------------------
  // Question types and values

  /** The upstream component types that are catalog entries, mapped to
      dashboard question types; `multiple_choice` is never produced. */
  function MapQuestionType(upstream: string): (t: QuestionType)
    ensures t != MultipleChoice
    ensures t == Unknown <==>
              upstream !in {"choice", "yesNo", "text", "freeField", "rating", "rate", "number"}
  {
    if upstream == "choice" then SingleChoice
    else if upstream == "text" || upstream == "freeField" then FreeText
    else if upstream == "rating" || upstream == "rate" then Rating
    else if upstream == "number" then Number
    else if upstream == "yesNo" then SingleChoice
    else Unknown
  }

  /** A catalog entry of `questionsMap`: cleaned title, upstream type and
      cleaned choice labels. */
  datatype QuestionInfo = QuestionInfo(title: string, upstreamType: string, choices: seq<string>)

  /** The per-question data of a respondent; `choices` is absent or holds
      the answer values. */
  datatype QuestionData = QuestionData(choices: Option<seq<AnswerValue>>)

  /** `data.choices?.[0]` */
  function RawValueOf(data: QuestionData): AnswerValue {
    if data.choices.Some? && |data.choices.value| > 0 then data.choices.value[0] else Undefined
  }

  /** `displayValue`: for a `choice` or `yesNo` question a number `n` whose
      `choices[n - 1]` is a non-empty label becomes that label; any other
      value passes through. */
  function ResolveValue(info: QuestionInfo, raw: AnswerValue): (v: AnswerValue)
    ensures v != raw <==> && (info.upstreamType == "choice" || info.upstreamType == "yesNo")
                          && raw.Num? && 1 <= raw.n <= |info.choices| && info.choices[raw.n - 1] != ""
    ensures v != raw ==> v == Str(info.choices[raw.n - 1])
  {
    if && (info.upstreamType == "choice" || info.upstreamType == "yesNo")
       && raw.Num? && 1 <= raw.n <= |info.choices| && info.choices[raw.n - 1] != ""
    then Str(info.choices[raw.n - 1])
    else raw
  }

  /** Choice indices are 1-based: index `k + 1` names the label at
      position `k`, whatever labels come before it. */
  lemma ResolveChoiceIndex(title: string, upstreamType: string, before: seq<string>, chosen: string, after: seq<string>)
    requires upstreamType == "choice" || upstreamType == "yesNo"
    requires chosen != ""
    ensures ResolveValue(QuestionInfo(title, upstreamType, before + [chosen] + after), Num(|before| + 1)) == Str(chosen)
  {
    assert (before + [chosen] + after)[|before|] == chosen;
  }

  // ---------------------------------------------------------------------
  // Respondents

  /** `RespondentData`; `complete` is its truthiness, `questions` the
      entries of its record in enumeration order. */
  datatype Respondent = Respondent(
    id: string,
    complete: bool,
    questions: Option<seq<(string, QuestionData)>>,
    createdAt: Option<string>,
    updatedAt: Option<string>)

  /** The answer pushed for a question present in the catalog. */
  function AnswerFor(questionId: string, data: QuestionData, info: QuestionInfo): RawAnswer {
    RawAnswer(questionId, info.title, Some(MapQuestionType(info.upstreamType)), ResolveValue(info, RawValueOf(data)))
  }

  /** The answers of a respondent: one per question entry found in the
      catalog, in order; entries for unknown questions are skipped. */
  function AnswersFrom(entries: seq<(string, QuestionData)>, catalog: map<string, QuestionInfo>): (answers: seq<RawAnswer>)
    ensures |answers| <= |entries|
  {
    if entries == [] then []
    else
      var rest := AnswersFrom(entries[..|entries| - 1], catalog);
      var (qid, data) := entries[|entries| - 1];
      if qid in catalog then rest + [AnswerFor(qid, data, catalog[qid])] else rest
  }

  predicate InCatalog(catalog: map<string, QuestionInfo>, e: (string, QuestionData)) {
    e.0 in catalog
  }

  /** There are as many answers as entries of known questions, and every
      answer belongs to a known question and carries the catalog's title
      and mapped type. */
  lemma {:induction false} AnswersFromKnown(entries: seq<(string, QuestionData)>, catalog: map<string, QuestionInfo>)
    ensures var answers := AnswersFrom(entries, catalog);
            && |answers| == CountIf(entries, e => InCatalog(catalog, e))
            && (forall i :: 0 <= i < |answers| ==>
                  && answers[i].questionId in catalog
                  && answers[i].questionTitle == catalog[answers[i].questionId].title
                  && answers[i].questionType == Some(MapQuestionType(catalog[answers[i].questionId].upstreamType)))
  {
    if entries != [] {
      AnswersFromKnown(entries[..|entries| - 1], catalog);
    }
  }

  /** The answers of two runs of entries are those of each, in order. */
  lemma {:induction false} AnswersFromConcat(a: seq<(string, QuestionData)>, b: seq<(string, QuestionData)>,
                                             catalog: map<string, QuestionInfo>)
    ensures AnswersFrom(a + b, catalog) == AnswersFrom(a, catalog) + AnswersFrom(b, catalog)
    decreases |b|
  {
    if b == [] {
      assert a + b == a;
    } else {
      var front := b[..|b| - 1];
      assert (a + b)[..|a + b| - 1] == a + front;
      assert (a + b)[|a + b| - 1] == b[|b| - 1];
      AnswersFromConcat(a, front, catalog);
    }
  }

  /** One entry gives the answer built from the catalog when its question
      is known, and nothing otherwise. */
  lemma AnswersFromOne(qid: string, data: QuestionData, catalog: map<string, QuestionInfo>)
    ensures AnswersFrom([(qid, data)], catalog)
         == (if qid in catalog then [AnswerFor(qid, data, catalog[qid])] else [])
  {
    assert [(qid, data)][..0] == [];
  }

  /** Entries of unknown questions contribute nothing. */
  lemma {:induction false} AnswersFromUnknown(entries: seq<(string, QuestionData)>, catalog: map<string, QuestionInfo>)
    requires forall i :: 0 <= i < |entries| ==> entries[i].0 !in catalog
    ensures AnswersFrom(entries, catalog) == []
  {
    if entries != [] {
      AnswersFromUnknown(entries[..|entries| - 1], catalog);
    }
  }

  /** The response built from a respondent. */
  function ResponseOf(r: Respondent, catalog: map<string, QuestionInfo>): (response: RawSurveyResponse)
    ensures response.id == r.id
    ensures response.status == Some(Complete) <==> r.complete
    ensures response.status == Some(Partial) <==> !r.complete
    ensures response.startedAt == r.createdAt
    ensures response.submittedAt == (if r.updatedAt.Some? then r.updatedAt else r.createdAt)
  {
    RawSurveyResponse(
      r.id,
      Some(if r.complete then Complete else Partial),
      if r.updatedAt.Some? then r.updatedAt else r.createdAt,
      r.createdAt,
      if r.questions.Some? then AnswersFrom(r.questions.value, catalog) else [])
  }

  lemma AnswersFromStep(entries: seq<(string, QuestionData)>, catalog: map<string, QuestionInfo>, i: nat)
    requires i < |entries|
    ensures AnswersFrom(entries[..i + 1], catalog)
         == AnswersFrom(entries[..i], catalog)
          + (if entries[i].0 in catalog then [AnswerFor(entries[i].0, entries[i].1, catalog[entries[i].0])] else [])
  {
    assert entries[..i + 1][..i] == entries[..i];
  }

  lemma AnswersFromFull(entries: seq<(string, QuestionData)>, catalog: map<string, QuestionInfo>)
    ensures AnswersFrom(entries[..|entries|], catalog) == AnswersFrom(entries, catalog)
  {
    assert entries[..|entries|] == entries;
  }

  /** The `.map((respondent) => ...)` body: walks the question entries and
      pushes one answer per known question. */
  method TransformRespondent(respondent: Respondent, catalog: map<string, QuestionInfo>) returns (response: RawSurveyResponse)
    ensures response == ResponseOf(respondent, catalog)
  {
    var answers: seq<RawAnswer> := [];
    if respondent.questions.Some? {
      var entries := respondent.questions.value;
      for i := 0 to |entries|
        invariant answers == AnswersFrom(entries[..i], catalog)
      {
        AnswersFromStep(entries, catalog, i);
        var (questionId, data) := entries[i];
        if questionId in catalog {
          var questionInfo := catalog[questionId];
          answers := answers + [AnswerFor(questionId, data, questionInfo)];
        }
      }
      AnswersFromFull(entries, catalog);
    }
    response := RawSurveyResponse(
      respondent.id,
      Some(if respondent.complete then Complete else Partial),
      if respondent.updatedAt.Some? then respondent.updatedAt else respondent.createdAt,
      respondent.createdAt,
      answers);
  }

  /** The respondent fetch loop: one slot per id, in id order, holding the
      fetched respondent or `null` when its fetch threw. */
  method FetchRespondents(respondentIds: seq<string>, fetchRespondent: string -> Option<Respondent>)
    returns (respondents: seq<Option<Respondent>>)
    ensures |respondents| == |respondentIds|
    ensures forall i :: 0 <= i < |respondentIds| ==> respondents[i] == fetchRespondent(respondentIds[i])
  {
    respondents := [];
    for i := 0 to |respondentIds|
      invariant |respondents| == i
      invariant forall j :: 0 <= j < i ==> respondents[j] == fetchRespondent(respondentIds[j])
    {
      respondents := respondents + [fetchRespondent(respondentIds[i])];
    }
  }

  /** The respondents whose fetch succeeded, in order. */
  function Fetched(respondents: seq<Option<Respondent>>): (ok: seq<Respondent>)
    ensures |ok| == CountIf(respondents, (o: Option<Respondent>) => o.Some?)
    ensures forall r :: r in ok <==> Some(r) in respondents
  {
    if respondents == [] then []
    else
      var rest := Fetched(respondents[..|respondents| - 1]);
      var last := respondents[|respondents| - 1];
      assert respondents == respondents[..|respondents| - 1] + [last];
      if last.Some? then rest + [last.value] else rest
  }

  /** `respondents.filter(...).map(...)`: one response per fetched
      respondent, in order; failed fetches are skipped. */
  function ResponsesOf(respondents: seq<Option<Respondent>>, catalog: map<string, QuestionInfo>): (responses: seq<RawSurveyResponse>)
    ensures |responses| == CountIf(respondents, (o: Option<Respondent>) => o.Some?)
    ensures forall i :: 0 <= i < |responses| ==> responses[i] == ResponseOf(Fetched(respondents)[i], catalog)
  {
    var ok := Fetched(respondents);
    seq(|ok|, i requires 0 <= i < |ok| => ResponseOf(ok[i], catalog))
  }

  /** A failed fetch drops only its own respondent. */
  lemma FailedFetchSkipped(before: seq<Option<Respondent>>, after: seq<Option<Respondent>>)
    ensures Fetched(before + [None] + after) == Fetched(before + after)
  {
    FetchedConcat(before + [None], after);
    FetchedConcat(before, after);
    assert (before + [None])[..|before|] == before;
  }

  lemma {:induction false} FetchedConcat(a: seq<Option<Respondent>>, b: seq<Option<Respondent>>)
    ensures Fetched(a + b) == Fetched(a) + Fetched(b)
  {
    if b == [] {
      assert a + b == a;
    } else {
      assert (a + b)[..|a + b| - 1] == a + b[..|b| - 1];
      FetchedConcat(a, b[..|b| - 1]);
    }
  }

  // ---------------------------------------------------------------------
  // The question catalog

  /** `replace(/<[^>]*>/g, "")`: each `<` that has a `>` after it starts a
      tag running to the first such `>`, and tags are removed. */
  function StripTags(s: string): (r: string)
    ensures |r| <= |s|
    ensures NoTags(r)
    ensures forall c :: c in r ==> c in s
    decreases |s|
  {
    if s == [] then []
    else if s[0] == '<' && '>' in s[1..] then StripTags(SkipTag(s[1..]))
    else
      var rest := StripTags(s[1..]);
      assert s[0] == '<' ==> '>' !in s[1..];
      assert s[0] == '<' ==> '>' !in rest;
      [s[0]] + rest
  }

  /** The text after the first `>`. */
  function SkipTag(s: string): (r: string)
    requires '>' in s
    ensures |r| < |s|
    ensures forall c :: c in r ==> c in s
  {
    if s[0] == '>' then s[1..] else SkipTag(s[1..])
  }

  /** No `<` is followed, anywhere later, by a `>`. */
  predicate NoTags(s: string) {
    forall i, j :: 0 <= i < j < |s| && s[i] == '<' ==> s[j] != '>'
  }

  /** Text without tags is left as it is, so stripping twice is stripping
      once. */
  lemma {:induction false} StripTagsOfNoTags(s: string)
    requires NoTags(s)
    ensures StripTags(s) == s
  {
    if s != [] {
      if s[0] == '<' {
        assert forall j :: 0 <= j < |s[1..]| ==> s[1..][j] == s[j + 1] != '>';
      }
      assert NoTags(s[1..]) by {
        forall i, j | 0 <= i < j < |s[1..]| && s[1..][i] == '<' ensures s[1..][j] != '>' {
          assert s[i + 1] == '<';
        }
      }
      StripTagsOfNoTags(s[1..]);
    }
  }

  lemma StripTagsIdempotent(s: string)
    ensures StripTags(StripTags(s)) == StripTags(s)
  {
    StripTagsOfNoTags(StripTags(s));
  }

  /** Text before the first `<` is kept as it is. */
  lemma {:induction false} StripTagsPlain(a: string, b: string)
    requires '<' !in a
    ensures StripTags(a + b) == a + StripTags(b)
  {
    if a == [] {
      assert a + b == b;
    } else {
      assert (a + b)[0] == a[0];
      assert (a + b)[1..] == a[1..] + b;
      StripTagsPlain(a[1..], b);
    }
  }

  /** A `<` closed by a later `>` starts a tag, removed up to the first
      `>`. */
  lemma StripTagsTag(t: string, u: string)
    requires '>' !in t
    ensures StripTags("<" + t + ">" + u) == StripTags(u)
  {
    var s := "<" + t + ">" + u;
    assert s[1..] == t + ">" + u;
    assert s[1..][|t|] == '>';
    SkipTagAfter(t, u);
  }

  lemma {:induction false} SkipTagAfter(t: string, u: string)
    requires '>' !in t
    ensures '>' in t + ">" + u
    ensures SkipTag(t + ">" + u) == u
  {
    var s := t + ">" + u;
    assert s[|t|] == '>';
    if t != [] {
      assert s[0] == t[0];
      assert s[1..] == t[1..] + ">" + u;
      SkipTagAfter(t[1..], u);
    } else {
      assert s[1..] == u;
    }
  }

  /** A `<` with no `>` after it is kept, and so is everything after it. */
  lemma StripTagsUnclosed(b: string)
    requires '>' !in b
    ensures StripTags(b) == b
  {
    StripTagsOfNoTags(b);
  }

  /** Removing characters from the ends of a tag-free text keeps it so. */
  lemma NoTagsSlice(s: string, lo: nat, hi: nat)
    requires NoTags(s) && lo <= hi <= |s|
    ensures NoTags(s[lo..hi])
  {
    forall i, j | 0 <= i < j < hi - lo && s[lo..hi][i] == '<' ensures s[lo..hi][j] != '>' {
      assert s[lo + i] == '<';
    }
  }

  /** `?.replace(/<[^>]*>/g, "").trim()` */
  function CleanText(s: string): (r: string)
    ensures NoTags(r) && IsTrimmed(r)
  {
    var t := StripTags(s);
    var u := TrimStart(t);
    NoTagsSlice(t, |t| - |u|, |t|);
    var r := Trim(t);
    NoTagsSlice(u, 0, |r|);
    r
  }

  /** `ComponentData`: `title` and the choice `label`s may be absent;
      `choiceLabels` is absent when `items` or `items.choices` is. */
  datatype ComponentData = ComponentData(
    id: string,
    componentType: string,
    title: Option<string>,
    choiceLabels: Option<seq<Option<string>>>)

  /** `skipTypes` */
  const SkipTypes: seq<string> := ["textZone", "image", "video", "separator"]

  /** Cleaning removes the tags, then only outer whitespace: the visible
      characters are those of the text without its tags, and a text with no
      `<` is only trimmed. */
  lemma CleanTextContent(s: string)
    ensures NonSpace(CleanText(s)) == NonSpace(StripTags(s))
    ensures '<' !in s ==> CleanText(s) == Trim(s)
  {
    TrimContent(StripTags(s));
    if '<' !in s {
      StripTagsPlain(s, []);
      assert s + [] == s;
    }
  }

  /** `cleanTitle || component.id`: the cleaned title when it is not empty,
      the component id otherwise. */
  function TitleOf(c: ComponentData): (t: string)
    ensures c.title.Some? && CleanText(c.title.value) != "" ==> t == CleanText(c.title.value)
    ensures c.title.None? || CleanText(c.title.value) == "" ==> t == c.id
    ensures t == c.id || (t != "" && NoTags(t) && IsTrimmed(t))
  {
    var cleanTitle := if c.title.Some? then CleanText(c.title.value) else "";
    if cleanTitle != "" then cleanTitle else c.id
  }

  /** The cleaned choice labels, `""` for an absent label. */
  function ChoicesOf(c: ComponentData): (labels: seq<string>)
    ensures c.choiceLabels.None? ==> labels == []
    ensures c.choiceLabels.Some? ==> |labels| == |c.choiceLabels.value|
    ensures c.choiceLabels.Some? ==> forall i :: 0 <= i < |labels| ==>
              labels[i] == (if c.choiceLabels.value[i].Some? then CleanText(c.choiceLabels.value[i].value) else "")
    ensures forall i :: 0 <= i < |labels| ==> NoTags(labels[i]) && IsTrimmed(labels[i])
  {
    if c.choiceLabels.None? then []
    else
      var ls := c.choiceLabels.value;
      seq(|ls|, i requires 0 <= i < |ls| => if ls[i].Some? then CleanText(ls[i].value) else "")
  }

  function InfoOf(c: ComponentData): QuestionInfo {
    QuestionInfo(TitleOf(c), c.componentType, ChoicesOf(c))
  }

  /** The components fetched for the pages `pageIds`, in order: a page
      whose fetch threw contributes nothing, and so does a component whose
      fetch threw. `fetchPage` gives a page's `components ?? []`. */
  function ComponentsOf(pageIds: seq<string>, fetchPage: string -> Option<seq<string>>,
                        fetchComponent: string -> Option<ComponentData>): seq<ComponentData>
  {
    if pageIds == [] then []
    else
      ComponentsOf(pageIds[..|pageIds| - 1], fetchPage, fetchComponent)
        + PageComponents(fetchPage(pageIds[|pageIds| - 1]), fetchComponent)
  }

  /** The fetched components of one page, none when the page fetch threw. */
  function PageComponents(page: Option<seq<string>>, fetchComponent: string -> Option<ComponentData>): seq<ComponentData> {
    if page.Some? then FetchedComponents(page.value, fetchComponent) else []
  }

  /** The components of one page whose fetch succeeded, in order. */
  function FetchedComponents(componentIds: seq<string>, fetchComponent: string -> Option<ComponentData>): seq<ComponentData> {
    if componentIds == [] then []
    else
      FetchedComponents(componentIds[..|componentIds| - 1], fetchComponent)
        + match fetchComponent(componentIds[|componentIds| - 1])
          case None => []
          case Some(c) => [c]
  }

  /** `questionsMap` after visiting `components` in order: skipped types
      are left out, and a later component with the same id replaces the
      earlier entry in place. */
  function CatalogOf(components: seq<ComponentData>): (m: OrderedMap<string, QuestionInfo>)
    ensures m.Valid()
  {
    if components == [] then EmptyMap()
    else
      var m := CatalogOf(components[..|components| - 1]);
      var c := components[|components| - 1];
      if c.componentType in SkipTypes then m else m.Set(c.id, InfoOf(c))
  }

  /** The catalog holds no skipped type, and every title is the
      component id or a non-empty, tag-free, trimmed text. */
  lemma {:induction false} CatalogEntries(components: seq<ComponentData>)
    ensures forall k :: k in CatalogOf(components).entries ==>
              && CatalogOf(components).entries[k].upstreamType !in SkipTypes
              && (CatalogOf(components).entries[k].title == k
                  || (CatalogOf(components).entries[k].title != ""
                      && NoTags(CatalogOf(components).entries[k].title)
                      && IsTrimmed(CatalogOf(components).entries[k].title)))
  {
    if components != [] {
      CatalogEntries(components[..|components| - 1]);
    }
  }

  /** The ids of the components kept in the catalog, in order. */
  function KeptIds(components: seq<ComponentData>): (ids: seq<string>) {
    if components == [] then []
    else
      var c := components[|components| - 1];
      KeptIds(components[..|components| - 1]) + (if c.componentType in SkipTypes then [] else [c.id])
  }

  /** The catalog's keys are the kept component ids in first-seen order. */
  lemma {:induction false} CatalogKeys(components: seq<ComponentData>)
    ensures CatalogOf(components).keys == Distinct(KeptIds(components))
  {
    if components != [] {
      var p := components[..|components| - 1];
      var c := components[|components| - 1];
      CatalogKeys(p);
      if c.componentType !in SkipTypes {
        var kept := KeptIds(p);
        assert KeptIds(components) == kept + [c.id];
        DistinctSnoc(kept, c.id);
        assert c.id in CatalogOf(p).entries <==> c.id in kept;
      } else {
        assert KeptIds(components) == KeptIds(p) + [] == KeptIds(p);
        assert CatalogOf(components) == CatalogOf(p);
      }
    }
  }

  /** Each entry comes from the last kept component with its id. */
  lemma {:induction false} CatalogLastWins(components: seq<ComponentData>, i: nat)
    requires i < |components| && components[i].componentType !in SkipTypes
    requires forall j :: i < j < |components| ==>
               components[j].componentType in SkipTypes || components[j].id != components[i].id
    ensures components[i].id in CatalogOf(components).entries
    ensures CatalogOf(components).entries[components[i].id] == InfoOf(components[i])
  {
    var p := components[..|components| - 1];
    if i < |components| - 1 {
      assert p[i] == components[i];
      CatalogLastWins(p, i);
    }
  }

  lemma CatalogStep(before: seq<ComponentData>, components: seq<ComponentData>, j: nat)
    requires j < |components|
    ensures CatalogOf(before + components[..j + 1])
         == (var m := CatalogOf(before + components[..j]);
             if components[j].componentType in SkipTypes then m else m.Set(components[j].id, InfoOf(components[j])))
  {
    var x := before + components[..j];
    assert before + components[..j + 1] == x + [components[j]];
    assert (x + [components[j]])[..|x|] == x;
  }

  lemma CatalogStart(before: seq<ComponentData>, components: seq<ComponentData>)
    ensures CatalogOf(before + components[..0]) == CatalogOf(before)
  {
    assert before + components[..0] == before;
  }

  lemma FetchedComponentsStep(componentIds: seq<string>, fetchComponent: string -> Option<ComponentData>, j: nat)
    requires j < |componentIds|
    ensures FetchedComponents(componentIds[..j + 1], fetchComponent)
         == FetchedComponents(componentIds[..j], fetchComponent)
          + (match fetchComponent(componentIds[j]) case None => [] case Some(c) => [c])
  {
    assert componentIds[..j + 1][..j] == componentIds[..j];
  }

  lemma ComponentsOfStep(pageIds: seq<string>, fetchPage: string -> Option<seq<string>>,
                         fetchComponent: string -> Option<ComponentData>, i: nat)
    requires i < |pageIds|
    ensures ComponentsOf(pageIds[..i + 1], fetchPage, fetchComponent)
         == ComponentsOf(pageIds[..i], fetchPage, fetchComponent)
          + PageComponents(fetchPage(pageIds[i]), fetchComponent)
  {
    assert pageIds[..i + 1][..i] == pageIds[..i];
  }

  /** The components of one page, added to the catalog built so far. */
  method AddPage(questionsMap: OrderedMap<string, QuestionInfo>, componentIds: seq<string>,
                 fetchComponent: string -> Option<ComponentData>, ghost before: seq<ComponentData>)
    returns (updated: OrderedMap<string, QuestionInfo>)
    requires questionsMap == CatalogOf(before)
    ensures updated == CatalogOf(before + FetchedComponents(componentIds, fetchComponent))
  {
    updated := questionsMap;
    CatalogStart(before, []);
    for j := 0 to |componentIds|
      invariant updated == CatalogOf(before + FetchedComponents(componentIds[..j], fetchComponent))
    {
      FetchedComponentsStep(componentIds, fetchComponent, j);
      var fetched := fetchComponent(componentIds[j]);
      if fetched.Some? {
        var component := fetched.value;
        ghost var done := FetchedComponents(componentIds[..j], fetchComponent);
        CatalogStep(before + done, [component], 0);
        assert before + done + [component][..1] == before + FetchedComponents(componentIds[..j + 1], fetchComponent);
        assert before + done + [component][..0] == before + done;
        if component.componentType !in SkipTypes {
          updated := updated.Set(component.id, InfoOf(component));
        }
      } else {
        assert FetchedComponents(componentIds[..j + 1], fetchComponent) == FetchedComponents(componentIds[..j], fetchComponent);
      }
    }
    assert componentIds[..|componentIds|] == componentIds;
  }

  /** The page/component loops of `fetchQuestionsMap`. */
  method BuildQuestionsMap(pageIds: seq<string>, fetchPage: string -> Option<seq<string>>,
                           fetchComponent: string -> Option<ComponentData>)
    returns (questionsMap: OrderedMap<string, QuestionInfo>)
    ensures questionsMap == CatalogOf(ComponentsOf(pageIds, fetchPage, fetchComponent))
  {
    questionsMap := EmptyMap();
    assert pageIds[..0] == [];
    for i := 0 to |pageIds|
      invariant questionsMap == CatalogOf(ComponentsOf(pageIds[..i], fetchPage, fetchComponent))
    {
      ComponentsOfStep(pageIds, fetchPage, fetchComponent, i);
      var page := fetchPage(pageIds[i]);
      if page.Some? {
        questionsMap := AddPage(questionsMap, page.value, fetchComponent, ComponentsOf(pageIds[..i], fetchPage, fetchComponent));
      } else {
        assert ComponentsOf(pageIds[..i], fetchPage, fetchComponent) + [] == ComponentsOf(pageIds[..i], fetchPage, fetchComponent);
      }
    }
    assert pageIds[..|pageIds|] == pageIds;
  }

  // ---------------------------------------------------------------------
  // The questions cache

  /** Whether a cached catalog is reused: one exists, it was built for
      this survey, and it is less than a minute old. */
  predicate CacheHit(cached: bool, cachedSurvey: Option<string>, timestamp: int, surveyId: string, now: int) {
    cached && cachedSurvey == Some(surveyId) && now - timestamp < CacheDurationMs
  }

  /** The module-level `questionsCache`. */
  class QuestionsCache {
    var cached: Option<OrderedMap<string, QuestionInfo>>
    var surveyId: Option<string>
    var timestamp: int

    /** The initial, empty cache. */
    constructor()
      ensures cached == None && surveyId == None && timestamp == 0
    {
      cached := None;
      surveyId := None;
      timestamp := 0;
    }

    predicate Hit(id: string, now: int)
      reads this
    {
      CacheHit(cached.Some?, surveyId, timestamp, id, now)
    }

    /** `fetchQuestionsMap(surveyData)`: reuses the cached catalog on a
        hit; otherwise builds it and stamps the cache with `stamp`, the
        clock read after the fetches. */
    method FetchQuestionsMap(id: string, pageIds: seq<string>, fetchPage: string -> Option<seq<string>>,
                             fetchComponent: string -> Option<ComponentData>, now: int, stamp: int)
      returns (questionsMap: OrderedMap<string, QuestionInfo>)
      modifies this
      ensures old(Hit(id, now)) ==> old(cached).Some? && questionsMap == old(cached).value
                                    && cached == old(cached) && surveyId == old(surveyId) && timestamp == old(timestamp)
      ensures !old(Hit(id, now)) ==> && questionsMap == CatalogOf(ComponentsOf(pageIds, fetchPage, fetchComponent))
                                     && cached == Some(questionsMap) && surveyId == Some(id) && timestamp == stamp
      ensures forall later :: Hit(id, later) <==> later - timestamp < CacheDurationMs
    {
      if cached.Some? && surveyId == Some(id) && now - timestamp < CacheDurationMs {
        questionsMap := cached.value;
        return;
      }
      questionsMap := BuildQuestionsMap(pageIds, fetchPage, fetchComponent);
      cached, surveyId, timestamp := Some(questionsMap), Some(id), stamp;
    }
  }

  // ---------------------------------------------------------------------
  // Survey lookup and the live bundle

  /** `SurveyData` (other fields are not read). */
  datatype SurveyData = SurveyData(
    id: string,
    title: string,
    description: Option<string>,
    collectors: Option<seq<string>>,
    pages: Option<seq<string>>)

  predicate HasCollector(s: SurveyData, collectorId: string) {
    s.collectors.Some? && collectorId in s.collectors.value
  }

  /** `surveys.find((s) => s.collectors?.includes(collectorId ?? ""))` */
  function FindSurvey(surveys: seq<SurveyData>, collectorId: Option<string>): (found: Option<SurveyData>)
    ensures found.None? <==> forall s :: s in surveys ==> !HasCollector(s, collectorId.GetOr(""))
    ensures found.Some? ==> exists i :: 0 <= i < |surveys| && surveys[i] == found.value
                                      && HasCollector(surveys[i], collectorId.GetOr(""))
                                      && forall j :: 0 <= j < i ==> !HasCollector(surveys[j], collectorId.GetOr(""))
  {
    if surveys == [] then None
    else if HasCollector(surveys[0], collectorId.GetOr("")) then Some(surveys[0])
    else
      var r := FindSurvey(surveys[1..], collectorId);
      assert forall s :: s in surveys ==> s == surveys[0] || s in surveys[1..];
      if r.Some? then
        ghost var i :| 0 <= i < |surveys[1..]| && surveys[1..][i] == r.value
                       && HasCollector(surveys[1..][i], collectorId.GetOr(""))
                       && forall j :: 0 <= j < i ==> !HasCollector(surveys[1..][j], collectorId.GetOr(""));
        assert surveys[i + 1] == r.value;
        r
      else r
  }

  /** What the live fetch returns: the survey and its responses, and no
      question catalog. */
  datatype Bundle = Bundle(survey: SurveyDetails, responses: seq<RawSurveyResponse>)

  /** The error thrown when no survey lists the collector. */
  datatype ClientError = NoSurveyFound(collectorId: Option<string>)

  /** `fetchCollectorData()` once the collector (`respondentIds` is its
      `respondents ?? []`) and the survey list are fetched. */
  method FetchCollectorData(cache: QuestionsCache, collectorId: Option<string>, respondentIds: seq<string>,
                            surveys: seq<SurveyData>, fetchPage: string -> Option<seq<string>>,
                            fetchComponent: string -> Option<ComponentData>,
                            fetchRespondent: string -> Option<Respondent>, now: int, stamp: int)
    returns (result: Result<Bundle, ClientError>)
    modifies cache
    ensures FindSurvey(surveys, collectorId).None? ==>
              result == Err(NoSurveyFound(collectorId)) && unchanged(cache)
    ensures FindSurvey(surveys, collectorId).Some? ==>
              var s := FindSurvey(surveys, collectorId).value;
              && result.Ok?
              && result.value.survey == SurveyDetails(s.id, s.title, s.description)
              && cache.cached.Some? && cache.surveyId == Some(s.id)
              && result.value.responses == ResponsesOf(MapSeq(respondentIds, fetchRespondent), cache.cached.value.entries)
    ensures FindSurvey(surveys, collectorId).Some? ==>
              var s := FindSurvey(surveys, collectorId).value;
              && (old(cache.Hit(s.id, now)) ==> cache.cached == old(cache.cached) && cache.timestamp == old(cache.timestamp))
              && (!old(cache.Hit(s.id, now)) ==>
                    && cache.cached == Some(CatalogOf(ComponentsOf(s.pages.GetOr([]), fetchPage, fetchComponent)))
                    && cache.timestamp == stamp)
  {
    var surveyData := FindSurvey(surveys, collectorId);
    if surveyData.None? {
      return Err(NoSurveyFound(collectorId));
    }
    var s := surveyData.value;
    var survey := SurveyDetails(s.id, s.title, s.description);
    var questionsMap := cache.FetchQuestionsMap(s.id, s.pages.GetOr([]), fetchPage, fetchComponent, now, stamp);
    var respondents := FetchRespondents(respondentIds, fetchRespondent);
    assert respondents == MapSeq(respondentIds, fetchRespondent);
    var responses := TransformAll(respondents, questionsMap.entries);
    return Ok(Bundle(survey, responses));
  }

  /** `respondents.filter(...).map(...)`, transforming each fetched
      respondent in turn. */
  method TransformAll(respondents: seq<Option<Respondent>>, catalog: map<string, QuestionInfo>)
    returns (responses: seq<RawSurveyResponse>)
    ensures responses == ResponsesOf(respondents, catalog)
  {
    var ok := Fetched(respondents);
    responses := [];
    for i := 0 to |ok|
      invariant |responses| == i
      invariant forall j :: 0 <= j < i ==> responses[j] == ResponseOf(ok[j], catalog)
    {
      var response := TransformRespondent(ok[i], catalog);
      responses := responses + [response];
    }
  }
}

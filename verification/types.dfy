/** The records exchanged between the Drag'n Survey client, the aggregation
    engine and the dashboard (`src/lib/types.ts`). Optional fields are
    `Option`s; numbers with one decimal are `Tenths`. */
module Types {
  import opened Wrappers
  import opened Utils

  /** `QuestionType` */
  datatype QuestionType = SingleChoice | MultipleChoice | Rating | FreeText | Number | Unknown

  /** `RawSurveyResponse["status"]` */
  datatype Status = Complete | Partial | Abandoned

  /** The value of an answer: `string | number | string[] | null`, or
      `undefined` when the upstream record carried none. Numbers are
      integers in this model. */
  datatype AnswerValue = Str(s: string) | Num(n: int) | Strs(items: seq<string>) | Null | Undefined

  /** `RawAnswer` (the unused `option_id` is not modelled). */
  datatype RawAnswer = RawAnswer(
    questionId: string,
    questionTitle: string,
    questionType: Option<QuestionType>,
    value: AnswerValue)

  /** `RawSurveyResponse` (the unused `contact` is not modelled). */
  datatype RawSurveyResponse = RawSurveyResponse(
    id: string,
    status: Option<Status>,
    submittedAt: Option<string>,
    startedAt: Option<string>,
    answers: seq<RawAnswer>)

  /** `SurveyDetails` (`language` and `created_at` are never read). */
  datatype SurveyDetails = SurveyDetails(id: string, title: string, description: Option<string>)

  /** A declared choice of a catalog question: the label shown and the
      normalised key that answers are matched against. */
  datatype Choice = Choice(key: string, labelText: string)

  /** A catalog question; `choices` is empty when none are declared. */
  datatype QuestionMeta = QuestionMeta(id: string, title: string, qtype: QuestionType, choices: seq<Choice>)

  /** `TrendPoint` (the display `label` is not modelled). */
  datatype TrendPoint = TrendPoint(date: string, count: nat)

  /** `QuestionOptionStat` */
  datatype OptionStat = OptionStat(labelText: string, count: nat, percentage: Tenths)

  /** The type-specific fields of a `QuestionInsight`. */
  datatype InsightDetail =
    | Plain
    | Options(options: seq<OptionStat>)
    | Numeric(average: Tenths, median: Tenths)
    | Texts(topTextAnswers: seq<string>, topWords: seq<WordCount>)

  /** `QuestionInsight` */
  datatype QuestionInsight = QuestionInsight(
    questionId: string,
    title: string,
    qtype: QuestionType,
    sampleSize: nat,
    detail: InsightDetail)

  /** One entry of `LatestResponse.answersPreview`. */
  datatype Preview = Preview(question: string, value: string)

  /** `LatestResponse` */
  datatype LatestResponse = LatestResponse(
    id: string,
    submittedAt: Option<string>,
    status: Option<Status>,
    answersPreview: seq<Preview>)

  /** `DashboardData` (`periodDays` is never set by the engine). */
  datatype DashboardData = DashboardData(
    surveyId: string,
    surveyTitle: string,
    surveyDescription: Option<string>,
    totalResponses: nat,
    completedResponses: nat,
    completionRate: Tenths,
    averagePerDay: Tenths,
    updatedAt: string,
    responseVelocity: seq<TrendPoint>,
    questionInsights: seq<QuestionInsight>,
    latestResponses: seq<LatestResponse>)
}

/** Which dashboard `getDashboardDataWithFallback` serves
    (`src/lib/dashboard.ts`): a fresh stored snapshot, a newly built
    dashboard, a stale snapshot after a failed build, or the error. The
    snapshot store, the build and the clock are inputs. */
module Snapshots {
  import opened Wrappers
  import opened Types
  import Aggregation
  import Client

  /** `SNAPSHOT_FRESHNESS_MS`: fifteen minutes. */
  const SnapshotFreshnessMs: int := 15 * 60 * 1000

  /** What one `fetchLatestSnapshot` call gives: it throws, finds nothing,
      or returns the latest stored dashboard. */
  datatype SnapshotRead = ReadThrew | NoSnapshot | Found(snapshot: DashboardData)

  /** What `fetchFreshDashboardData` gives before the save: the built
      dashboard, or the error it threw. A failed live fetch does not throw
      (see `SurveyBundle`); a throw comes from the mock path or from
      `buildDashboardData` itself, which the model takes as an input. */
  datatype Build = Built(dashboard: DashboardData) | BuildThrew(message: string)

  /** What the caller receives. */
  datatype Served =
    | FreshSnapshot(dashboard: DashboardData)
    | FreshBuild(dashboard: DashboardData)
    | StaleSnapshot(dashboard: DashboardData)
    | Raised(error: DashboardError)

  /** The error rethrown: the build's own, or the fallback read's. */
  datatype DashboardError = BuildError(message: string) | SnapshotReadError

  /** The served result and the snapshot handed to `saveSnapshot`, if any. */
  datatype Decision = Decision(served: Served, saved: Option<DashboardData>)

  /** The options of a call. */
  datatype DashboardOptions = DashboardOptions(days: Option<int>, forceRefresh: bool)

  /** `Date.now() - new Date(cached.updatedAt).getTime() < SNAPSHOT_FRESHNESS_MS`;
      `parseDate` gives `None` for an invalid date, whose age is `NaN`
      and so never fresh. */
  predicate IsFresh(snapshot: DashboardData, now: int, parseDate: string -> Option<int>) {
    var updated := parseDate(snapshot.updatedAt);
    updated.Some? && now - updated.value < SnapshotFreshnessMs
  }

  /** What `fetchSurveyBundle` hands on: the survey, its responses and the
      question catalog. */
  datatype Payload = Payload(survey: SurveyDetails, responses: seq<RawSurveyResponse>, questions: seq<QuestionMeta>)

  /** `fetchSurveyBundle()`: the mock payload when the Drag'n Survey
      credentials are missing or the live fetch throws (`live` is `None`);
      otherwise the live survey and responses, which carry no catalog. */
  function SurveyBundle(hasCredentials: bool, live: Option<Client.Bundle>, mock: Payload): (p: Payload)
    ensures !hasCredentials || live.None? ==> p == mock
    ensures hasCredentials && live.Some? ==>
              p.survey == live.value.survey && p.responses == live.value.responses && p.questions == []
  {
    if !hasCredentials then mock
    else match live
      case None => mock
      case Some(b) => Payload(b.survey, b.responses, [])
  }

  /** `fetchFreshDashboardData`: the payload aggregated by
      `buildDashboardData`. */
  function BuildFresh(payload: Payload, parse: string -> int, parseNum: string -> Option<int>,
                      now: int, updatedAt: string): (d: DashboardData)
    ensures d.surveyId == payload.survey.id
    ensures d.totalResponses == |payload.responses|
    ensures d.updatedAt == updatedAt
  {
    Aggregation.DashboardOf(payload.responses, payload.survey, payload.questions, parse, parseNum, now, updatedAt)
  }

  /** `getDashboardDataWithFallback(options)` given the two possible
      snapshot reads (before the build, and after a failed one), the build
      outcome and the clock. A snapshot is saved after every successful
      build when the snapshot store is configured; whether that save
      succeeds has no bearing on the result. */
  function GetDashboard(options: DashboardOptions, hasSnapshotStore: bool, firstRead: SnapshotRead,
                        build: Build, fallbackRead: SnapshotRead, now: int,
                        parseDate: string -> Option<int>): (d: Decision)
    ensures d.served.FreshSnapshot? <==>
              !options.forceRefresh && hasSnapshotStore && firstRead.Found?
              && IsFresh(firstRead.snapshot, now, parseDate)
    ensures d.served.FreshSnapshot? ==> d.served.dashboard == firstRead.snapshot
    ensures d.served.FreshBuild? ==> build == Built(d.served.dashboard)
    ensures d.served.StaleSnapshot? ==> hasSnapshotStore && build.BuildThrew? && fallbackRead == Found(d.served.dashboard)
    ensures d.served.Raised? ==> build.BuildThrew?
    ensures d.served.Raised? && d.served.error.BuildError? ==> build == BuildThrew(d.served.error.message)
    ensures d.served == Raised(SnapshotReadError) ==> hasSnapshotStore && fallbackRead == ReadThrew
    ensures d.saved.Some? <==> hasSnapshotStore && d.served.FreshBuild?
    ensures d.saved.Some? ==> d.saved.value == d.served.dashboard
  {
    if && !options.forceRefresh && hasSnapshotStore && firstRead.Found?
       && IsFresh(firstRead.snapshot, now, parseDate) then
      Decision(FreshSnapshot(firstRead.snapshot), None)
    else
      match build
      case Built(dashboard) => Decision(FreshBuild(dashboard), if hasSnapshotStore then Some(dashboard) else None)
      case BuildThrew(message) =>
        if !hasSnapshotStore then Decision(Raised(BuildError(message)), None)
        else
          match fallbackRead
          case ReadThrew => Decision(Raised(SnapshotReadError), None)
          case NoSnapshot => Decision(Raised(BuildError(message)), None)
          case Found(snapshot) => Decision(StaleSnapshot(snapshot), None)
  }

  /** With `forceRefresh`, or without a snapshot store, the first read is
      never consulted. */
  lemma FirstReadIgnoredWhenNotConsulted(options: DashboardOptions, hasSnapshotStore: bool, first1: SnapshotRead,
                                         first2: SnapshotRead, build: Build, fallbackRead: SnapshotRead, now: int,
                                         parseDate: string -> Option<int>)
    requires options.forceRefresh || !hasSnapshotStore
    ensures GetDashboard(options, hasSnapshotStore, first1, build, fallbackRead, now, parseDate)
         == GetDashboard(options, hasSnapshotStore, first2, build, fallbackRead, now, parseDate)
  {
  }

  /** A read that throws, finds nothing, or finds a stale snapshot (or one
      with an invalid date) falls through to the build exactly as if the
      store had not been consulted. */
  lemma NotFreshFallsThrough(options: DashboardOptions, firstRead: SnapshotRead, build: Build,
                             fallbackRead: SnapshotRead, now: int, parseDate: string -> Option<int>)
    requires !(firstRead.Found? && IsFresh(firstRead.snapshot, now, parseDate))
    ensures GetDashboard(options, true, firstRead, build, fallbackRead, now, parseDate)
         == GetDashboard(DashboardOptions(options.days, true), true, firstRead, build, fallbackRead, now, parseDate)
  {
  }

  /** After a failed build with a store configured, any stored snapshot is
      served, however old; without one the build's error is rethrown, and
      a fallback read that throws replaces the build's error. */
  lemma StaleServedAfterFailure(options: DashboardOptions, firstRead: SnapshotRead, message: string,
                                fallbackRead: SnapshotRead, now: int, parseDate: string -> Option<int>)
    requires !(firstRead.Found? && IsFresh(firstRead.snapshot, now, parseDate)) || options.forceRefresh
    ensures var d := GetDashboard(options, true, firstRead, BuildThrew(message), fallbackRead, now, parseDate);
            && (fallbackRead.Found? ==> d.served == StaleSnapshot(fallbackRead.snapshot))
            && (fallbackRead.NoSnapshot? ==> d.served == Raised(BuildError(message)))
            && (fallbackRead.ReadThrew? ==> d.served == Raised(SnapshotReadError))
            && d.saved.None?
  {
  }

  /** The `days` option changes nothing. */
  lemma DaysIgnored(days1: Option<int>, days2: Option<int>, forceRefresh: bool, hasSnapshotStore: bool,
                    firstRead: SnapshotRead, build: Build, fallbackRead: SnapshotRead, now: int,
                    parseDate: string -> Option<int>)
    ensures GetDashboard(DashboardOptions(days1, forceRefresh), hasSnapshotStore, firstRead, build, fallbackRead, now, parseDate)
         == GetDashboard(DashboardOptions(days2, forceRefresh), hasSnapshotStore, firstRead, build, fallbackRead, now, parseDate)
  {
  }

  /** A snapshot younger than the window is served; one exactly fifteen
      minutes old is not. */
  lemma FreshnessBoundary(options: DashboardOptions, snapshot: DashboardData, build: Build,
                          fallbackRead: SnapshotRead, parseDate: string -> Option<int>, stamp: int)
    requires !options.forceRefresh && parseDate(snapshot.updatedAt) == Some(stamp)
    ensures GetDashboard(options, true, Found(snapshot), build, fallbackRead, stamp + 899999, parseDate).served
         == FreshSnapshot(snapshot)
    ensures !GetDashboard(options, true, Found(snapshot), build, fallbackRead, stamp + 900000, parseDate).served.FreshSnapshot?
  {
  }

  /** An outage of the survey API is not an error: the mock payload is
      built, served as a fresh build and, with a snapshot store, saved as
      the latest snapshot. */
  lemma OutageServesMock(options: DashboardOptions, hasSnapshotStore: bool, firstRead: SnapshotRead,
                         fallbackRead: SnapshotRead, now: int, parseDate: string -> Option<int>,
                         mock: Payload, parse: string -> int, parseNum: string -> Option<int>, updatedAt: string)
    requires options.forceRefresh || !hasSnapshotStore || !(firstRead.Found? && IsFresh(firstRead.snapshot, now, parseDate))
    ensures var built := BuildFresh(SurveyBundle(true, None, mock), parse, parseNum, now, updatedAt);
            var d := GetDashboard(options, hasSnapshotStore, firstRead, Built(built), fallbackRead, now, parseDate);
            && built.surveyId == mock.survey.id
            && built.totalResponses == |mock.responses|
            && d.served == FreshBuild(built)
            && (hasSnapshotStore ==> d.saved == Some(built))
  {
  }
}

/** The analytics metrics of analyticsdata.go: the page's fast path and the full path, over cohorts of applied jobs. */
module Analytics {
  import opened Sql
  import opened Tables
  import R = Reached

  const DAY_MS: int := 86400000
  const STALE_DAYS: int := 21

  const INTERVIEW_PLUS: set<Word> := {Interview, Onsite, Offer}
  const ONSITE_PLUS: set<Word> := {Onsite, Offer}
  const ENDED: set<Word> := {Closed, Rejected, Ghosted}

  /** A row of AnalyticsJobs. A NULL status or stage arrives as the empty text. */
  datatype AnalyticsJob = AnalyticsJob(id: JobId, status: Word, stage: Word, appliedAt: Opt<Text>)

  /** A row of AnalyticsEvents. Timestamps are texts; their order is the order of the texts. */
  datatype AnalyticsEvent = AnalyticsEvent(job: JobId, kind: EventKind, to: Word, createdAt: Text)

  /** `parseTs`: milliseconds, or nothing for a text that is no timestamp. */
  type Parse = Text -> Opt<int>

  // ---------------------------------------------------------------- the cohorts as sets

  function JobIds(jobs: seq<AnalyticsJob>): set<JobId> { set j | j in jobs :: j.id }

  predicate HasAppliedAt(j: AnalyticsJob) { j.appliedAt.Val? && j.appliedAt.v != EMPTY }

  function AppliedAtIds(jobs: seq<AnalyticsJob>): set<JobId> { set j | j in jobs && HasAppliedAt(j) :: j.id }

  predicate IsAppliedEvent(e: AnalyticsEvent, known: set<JobId>) { e.kind == StageChange && e.to == Applied && e.job in known }

  function AppliedEventIds(known: set<JobId>, events: seq<AnalyticsEvent>): set<JobId> {
    set e | e in events && IsAppliedEvent(e, known) :: e.job
  }

  function ReachedIds(rows: seq<R.ReachedRow>, stages: set<Word>): set<JobId> {
    set r | r in rows && r.stage in stages :: r.job
  }

  /** Applied at some time: by applied_at, by an applied event, or by having reached a tracked stage. */
  function AppliedIds(jobs: seq<AnalyticsJob>, events: seq<AnalyticsEvent>, rows: seq<R.ReachedRow>): set<JobId> {
    AppliedAtIds(jobs) + AppliedEventIds(JobIds(jobs), events) + ReachedIds(rows, TRACKED)
  }

  /** The earliest non-empty time of an applied event, by job. */
  function FirstApplied(known: set<JobId>, events: seq<AnalyticsEvent>): map<JobId, Text> {
    if events == [] then map[]
    else Earlier(FirstApplied(known, events[..|events| - 1]), known, events[|events| - 1])
  }

  function Earlier(first: map<JobId, Text>, known: set<JobId>, e: AnalyticsEvent): map<JobId, Text> {
    if IsAppliedEvent(e, known) && e.createdAt != EMPTY && (e.job !in first || e.createdAt < first[e.job])
    then first[e.job := e.createdAt] else first
  }

  /** A job without applied_at takes the time of its first applied event. */
  function Dated(j: AnalyticsJob, first: map<JobId, Text>): AnalyticsJob {
    if !HasAppliedAt(j) && j.id in first && first[j.id] != EMPTY then j.(appliedAt := Val(first[j.id])) else j
  }

  function Cohort(jobs: seq<AnalyticsJob>, ids: set<JobId>, first: map<JobId, Text>): seq<AnalyticsJob> {
    if jobs == [] then []
    else Cohort(jobs[..|jobs| - 1], ids, first) + if jobs[|jobs| - 1].id in ids then [Dated(jobs[|jobs| - 1], first)] else []
  }

  predicate IsRejectedEvent(e: AnalyticsEvent, ids: set<JobId>) { e.kind == StageChange && e.to == Rejected && e.job in ids }

  function RejectedIds(events: seq<AnalyticsEvent>, cohort: seq<AnalyticsJob>, ids: set<JobId>): set<JobId> {
    (set e | e in events && IsRejectedEvent(e, ids) :: e.job) + (set j | j in cohort && j.stage == Rejected :: j.id)
  }

  predicate IsActive(j: AnalyticsJob) { j.status in PIPELINE && j.stage !in ENDED }

  function CountActive(jobs: seq<AnalyticsJob>): nat {
    if jobs == [] then 0 else CountActive(jobs[..|jobs| - 1]) + if IsActive(jobs[|jobs| - 1]) then 1 else 0
  }

  /** Applied 21 days ago or more; an unreadable time counts as now. */
  predicate Overdue(j: AnalyticsJob, now: int, parse: Parse) {
    j.appliedAt.Val? && parse(j.appliedAt.v).Val? && now - parse(j.appliedAt.v).v >= STALE_DAYS * DAY_MS
  }

  predicate IsStale(j: AnalyticsJob, responded: set<JobId>, now: int, parse: Parse) {
    j.status == Applied && j.stage !in TRACKED && j.stage !in ENDED && j.id !in responded && Overdue(j, now, parse)
  }

  function CountStale(jobs: seq<AnalyticsJob>, responded: set<JobId>, now: int, parse: Parse): nat {
    if jobs == [] then 0
    else CountStale(jobs[..|jobs| - 1], responded, now, parse) + if IsStale(jobs[|jobs| - 1], responded, now, parse) then 1 else 0
  }

  // ---------------------------------------------------------------- the metrics

  /** A rate in percent, halves rounded up; none over an empty base. */
  datatype Rate = Rate(n: nat, d: nat, pct: Opt<int>)

  function NewRate(n: nat, d: nat): Rate { Rate(n, d, if d > 0 then Val((200 * n + d) / (2 * d)) else Null) }

  datatype Health = Health(active: nat, applied: nat, responded: nat, interviews: nat, rejected: nat, stale: nat,
                           responseRate: Rate, interviewRate: Rate)

  datatype Funnel = Funnel(applied: nat, phoneScreen: nat, interview: nat, onsite: nat, offer: nat)

  datatype Metrics = Metrics(health: Health, funnel: Funnel)

  datatype Cohorts = Cohorts(appliedIds: set<JobId>, applied: seq<AnalyticsJob>, advanced: set<JobId>, rejected: set<JobId>, responded: set<JobId>)

  function CohortsOf(jobs: seq<AnalyticsJob>, events: seq<AnalyticsEvent>, rows: seq<R.ReachedRow>): Cohorts {
    var ids := AppliedIds(jobs, events, rows);
    var cohort := Cohort(jobs, ids, FirstApplied(JobIds(jobs), events));
    var rejected := RejectedIds(events, cohort, ids);
    Cohorts(ids, cohort, ReachedIds(rows, TRACKED), rejected, ReachedIds(rows, TRACKED) + rejected)
  }

  function FunnelOf(jobs: seq<AnalyticsJob>, events: seq<AnalyticsEvent>, rows: seq<R.ReachedRow>): Funnel {
    Funnel(|CohortsOf(jobs, events, rows).applied|, |ReachedIds(rows, {PhoneScreen})|, |ReachedIds(rows, INTERVIEW_PLUS)|,
           |ReachedIds(rows, ONSITE_PLUS)|, |ReachedIds(rows, {Offer})|)
  }

  function HealthOf(jobs: seq<AnalyticsJob>, events: seq<AnalyticsEvent>, rows: seq<R.ReachedRow>, now: int, parse: Parse): Health {
    var c := CohortsOf(jobs, events, rows);
    var interviews := |ReachedIds(rows, INTERVIEW_PLUS)|;
    Health(CountActive(jobs), |c.applied|, |c.responded|, interviews, |c.rejected|, CountStale(c.applied, c.responded, now, parse),
           NewRate(|c.responded|, |c.applied|), NewRate(interviews, |c.applied|))
  }

  function MetricsOf(jobs: seq<AnalyticsJob>, events: seq<AnalyticsEvent>, rows: seq<R.ReachedRow>, now: int, parse: Parse): Metrics {
    Metrics(HealthOf(jobs, events, rows, now, parse), FunnelOf(jobs, events, rows))
  }

  // ---------------------------------------------------------------- the loops

  datatype ReachedStats = ReachedStats(interviews: nat, phoneScreen: nat, interview: nat, onsite: nat, offer: nat, advanced: set<JobId>)

  lemma ReachedNext(rows: seq<R.ReachedRow>, i: nat, stages: set<Word>)
    requires i < |rows|
    ensures ReachedIds(rows[..i + 1], stages) == ReachedIds(rows[..i], stages) + if rows[i].stage in stages then {rows[i].job} else {}
  {
    assert rows[..i + 1] == rows[..i] + [rows[i]];
  }

  lemma ReachedUnion(rows: seq<R.ReachedRow>, a: set<Word>, b: set<Word>)
    ensures ReachedIds(rows, a + b) == ReachedIds(rows, a) + ReachedIds(rows, b)
  {
  }

  /** The loop of summarizeReached. */
  method SortStages(rows: seq<R.ReachedRow>) returns (phone: set<JobId>, interview: set<JobId>, onsite: set<JobId>, offer: set<JobId>)
    ensures phone == ReachedIds(rows, {PhoneScreen}) && interview == ReachedIds(rows, {Interview})
    ensures onsite == ReachedIds(rows, {Onsite}) && offer == ReachedIds(rows, {Offer})
  {
    phone, interview, onsite, offer := {}, {}, {}, {};
    assert rows[..0] == [];
    for i := 0 to |rows|
      invariant phone == ReachedIds(rows[..i], {PhoneScreen}) && interview == ReachedIds(rows[..i], {Interview})
      invariant onsite == ReachedIds(rows[..i], {Onsite}) && offer == ReachedIds(rows[..i], {Offer})
    {
      ReachedNext(rows, i, {PhoneScreen});
      ReachedNext(rows, i, {Interview});
      ReachedNext(rows, i, {Onsite});
      ReachedNext(rows, i, {Offer});
      match rows[i].stage {
        case PhoneScreen => phone := phone + {rows[i].job};
        case Interview => interview := interview + {rows[i].job};
        case Onsite => onsite := onsite + {rows[i].job};
        case Offer => offer := offer + {rows[i].job};
        case _ =>
      }
    }
    assert rows[..|rows|] == rows;
  }

  lemma StageUnions(rows: seq<R.ReachedRow>)
    ensures ReachedIds(rows, ONSITE_PLUS) == ReachedIds(rows, {Onsite}) + ReachedIds(rows, {Offer})
    ensures ReachedIds(rows, INTERVIEW_PLUS) == ReachedIds(rows, {Interview}) + ReachedIds(rows, ONSITE_PLUS)
    ensures ReachedIds(rows, TRACKED) == ReachedIds(rows, {PhoneScreen}) + ReachedIds(rows, INTERVIEW_PLUS)
  {
    assert {Onsite} + {Offer} == ONSITE_PLUS && {Interview} + ONSITE_PLUS == INTERVIEW_PLUS && {PhoneScreen} + INTERVIEW_PLUS == TRACKED;
    ReachedUnion(rows, {Onsite}, {Offer});
    ReachedUnion(rows, {Interview}, ONSITE_PLUS);
    ReachedUnion(rows, {PhoneScreen}, INTERVIEW_PLUS);
  }

  method SummarizeReached(rows: seq<R.ReachedRow>) returns (hist: ReachedStats)
    ensures hist == ReachedStats(|ReachedIds(rows, INTERVIEW_PLUS)|, |ReachedIds(rows, {PhoneScreen})|, |ReachedIds(rows, INTERVIEW_PLUS)|,
                                 |ReachedIds(rows, ONSITE_PLUS)|, |ReachedIds(rows, {Offer})|, ReachedIds(rows, TRACKED))
  {
    var phone, interview, onsite, offer := SortStages(rows);
    StageUnions(rows);
    var onsiteOrBeyond := onsite + offer;
    var interviewOrBeyond := interview + onsite + offer;
    assert interviewOrBeyond == interview + onsiteOrBeyond;
    var anyAdvanced := phone + interview + onsite + offer;
    assert anyAdvanced == phone + interviewOrBeyond;
    return ReachedStats(|interviewOrBeyond|, |phone|, |interviewOrBeyond|, |onsiteOrBeyond|, |offer|, anyAdvanced);
  }

  method AppliedMarkers(jobs: seq<AnalyticsJob>) returns (jobIds: set<JobId>, appliedAtIds: set<JobId>)
    ensures jobIds == JobIds(jobs) && appliedAtIds == AppliedAtIds(jobs)
  {
    jobIds, appliedAtIds := {}, {};
    for i := 0 to |jobs|
      invariant jobIds == JobIds(jobs[..i]) && appliedAtIds == AppliedAtIds(jobs[..i])
    {
      assert jobs[..i + 1] == jobs[..i] + [jobs[i]];
      jobIds := jobIds + {jobs[i].id};
      if jobs[i].appliedAt.Val? && jobs[i].appliedAt.v != EMPTY {
        appliedAtIds := appliedAtIds + {jobs[i].id};
      }
    }
    assert jobs[..|jobs|] == jobs;
  }

  lemma AppliedEventNext(known: set<JobId>, events: seq<AnalyticsEvent>, i: nat)
    requires i < |events|
    ensures AppliedEventIds(known, events[..i + 1]) ==
            AppliedEventIds(known, events[..i]) + if IsAppliedEvent(events[i], known) then {events[i].job} else {}
    ensures FirstApplied(known, events[..i + 1]) == Earlier(FirstApplied(known, events[..i]), known, events[i])
  {
    assert events[..i + 1] == events[..i] + [events[i]];
    assert events[..i + 1][..i] == events[..i];
  }

  /** The page's loop over the events. */
  method PageAppliedEvents(jobIds: set<JobId>, events: seq<AnalyticsEvent>) returns (ids: set<JobId>, first: map<JobId, Text>)
    ensures ids == AppliedEventIds(jobIds, events) && first == FirstApplied(jobIds, events)
  {
    ids, first := {}, map[];
    for i := 0 to |events|
      invariant ids == AppliedEventIds(jobIds, events[..i]) && first == FirstApplied(jobIds, events[..i])
    {
      var e := events[i];
      AppliedEventNext(jobIds, events, i);
      if e.kind != StageChange || e.job !in jobIds {
        continue;
      }
      if e.to == Applied {
        ids := ids + {e.job};
        if e.createdAt != EMPTY {
          if e.job !in first || e.createdAt < first[e.job] {
            first := first[e.job := e.createdAt];
          }
        }
      }
    }
    assert events[..|events|] == events;
  }

  /** The full path's loop over the events. */
  method FullAppliedEvents(jobIds: set<JobId>, events: seq<AnalyticsEvent>) returns (ids: set<JobId>, first: map<JobId, Text>)
    ensures ids == AppliedEventIds(jobIds, events) && first == FirstApplied(jobIds, events)
  {
    ids, first := {}, map[];
    for i := 0 to |events|
      invariant ids == AppliedEventIds(jobIds, events[..i]) && first == FirstApplied(jobIds, events[..i])
    {
      var e := events[i];
      AppliedEventNext(jobIds, events, i);
      if e.kind != StageChange || e.to != Applied || e.job !in jobIds {
        continue;
      }
      ids := ids + {e.job};
      if e.createdAt != EMPTY {
        if e.job !in first || e.createdAt < first[e.job] {
          first := first[e.job := e.createdAt];
        }
      }
    }
    assert events[..|events|] == events;
  }

  method AppliedJobs(jobs: seq<AnalyticsJob>, ids: set<JobId>, first: map<JobId, Text>) returns (cohort: seq<AnalyticsJob>)
    ensures cohort == Cohort(jobs, ids, first)
  {
    cohort := [];
    for i := 0 to |jobs|
      invariant cohort == Cohort(jobs[..i], ids, first)
    {
      assert jobs[..i + 1][..i] == jobs[..i];
      if jobs[i].id !in ids {
        continue;
      }
      var j := jobs[i];
      if (j.appliedAt.Null? || j.appliedAt.v == EMPTY) && j.id in first && first[j.id] != EMPTY {
        j := j.(appliedAt := Val(first[j.id]));
      }
      cohort := cohort + [j];
    }
    assert jobs[..|jobs|] == jobs;
  }

  method RejectedAmong(events: seq<AnalyticsEvent>, cohort: seq<AnalyticsJob>, ids: set<JobId>) returns (rejected: set<JobId>)
    ensures rejected == RejectedIds(events, cohort, ids)
  {
    rejected := {};
    for i := 0 to |events|
      invariant rejected == set e | e in events[..i] && IsRejectedEvent(e, ids) :: e.job
    {
      assert events[..i + 1] == events[..i] + [events[i]];
      if events[i].kind == StageChange && events[i].to == Rejected && events[i].job in ids {
        rejected := rejected + {events[i].job};
      }
    }
    assert events[..|events|] == events;
    ghost var byEvent := rejected;
    for i := 0 to |cohort|
      invariant rejected == byEvent + set j | j in cohort[..i] && j.stage == Rejected :: j.id
    {
      assert cohort[..i + 1] == cohort[..i] + [cohort[i]];
      if cohort[i].stage == Rejected {
        rejected := rejected + {cohort[i].id};
      }
    }
    assert cohort[..|cohort|] == cohort;
  }

  method ActiveAmong(jobs: seq<AnalyticsJob>) returns (active: nat)
    ensures active == CountActive(jobs)
  {
    active := 0;
    for i := 0 to |jobs|
      invariant active == CountActive(jobs[..i])
    {
      assert jobs[..i + 1][..i] == jobs[..i];
      if jobs[i].status in PIPELINE && jobs[i].stage !in ENDED {
        active := active + 1;
      }
    }
    assert jobs[..|jobs|] == jobs;
  }

  method StaleAmong(cohort: seq<AnalyticsJob>, responded: set<JobId>, now: int, parse: Parse) returns (stale: nat)
    ensures stale == CountStale(cohort, responded, now, parse)
  {
    stale := 0;
    for i := 0 to |cohort|
      invariant stale == CountStale(cohort[..i], responded, now, parse)
    {
      var j := cohort[i];
      assert cohort[..i + 1][..i] == cohort[..i];
      var age := 0;
      if j.appliedAt.Val? {
        var t := parse(j.appliedAt.v);
        if t.Val? {
          age := now - t.v;
        }
      }
      if j.status == Applied && j.stage !in TRACKED && j.stage !in ENDED && j.id !in responded && age >= STALE_DAYS * DAY_MS {
        stale := stale + 1;
      }
    }
    assert cohort[..|cohort|] == cohort;
  }

  /** computeAnalyticsPageMetricsFromInputs. */
  method PageMetrics(jobs: seq<AnalyticsJob>, events: seq<AnalyticsEvent>, rows: seq<R.ReachedRow>, now: int, parse: Parse) returns (m: Metrics)
    ensures m == MetricsOf(jobs, events, rows, now, parse)
  {
    var hist := SummarizeReached(rows);
    var jobIds, appliedAtIds := AppliedMarkers(jobs);
    var appliedEventIds, first := PageAppliedEvents(jobIds, events);
    var appliedIds := appliedAtIds + appliedEventIds + hist.advanced;
    var cohort := AppliedJobs(jobs, appliedIds, first);
    var advanced := set id | id in hist.advanced && id in appliedIds;
    assert advanced == ReachedIds(rows, TRACKED);
    var rejected := RejectedAmong(events, cohort, appliedIds);
    var responded := advanced + rejected;
    var active := ActiveAmong(jobs);
    var stale := StaleAmong(cohort, responded, now, parse);
    m := Metrics(
      Health(active, |cohort|, |responded|, hist.interviews, |rejected|, stale,
             NewRate(|responded|, |cohort|), NewRate(hist.interviews, |cohort|)),
      Funnel(|cohort|, hist.phoneScreen, hist.interview, hist.onsite, hist.offer));
  }

  // ---------------------------------------------------------------- the fast path sees all that matters

  /** AnalyticsStageEvents: the events that the page loads. */
  function StageEventsOnly(events: seq<AnalyticsEvent>): (r: seq<AnalyticsEvent>)
    ensures forall e :: e in r <==> e in events && e.kind == StageChange
  {
    if events == [] then []
    else StageEventsOnly(events[..|events| - 1]) + if events[|events| - 1].kind == StageChange then [events[|events| - 1]] else []
  }

  lemma {:induction false} FirstAppliedFiltered(known: set<JobId>, events: seq<AnalyticsEvent>)
    ensures FirstApplied(known, StageEventsOnly(events)) == FirstApplied(known, events)
  {
    if events != [] {
      var init, last := events[..|events| - 1], events[|events| - 1];
      FirstAppliedFiltered(known, init);
      if last.kind == StageChange {
        assert (StageEventsOnly(init) + [last])[..|StageEventsOnly(init)|] == StageEventsOnly(init);
      } else {
        assert StageEventsOnly(events) == StageEventsOnly(init);
      }
    }
  }

  /** The page's metrics over the stage changes alone equal the full metrics on every health and funnel field, for any inputs. */
  lemma FastEqualsFull(jobs: seq<AnalyticsJob>, events: seq<AnalyticsEvent>, rows: seq<R.ReachedRow>, now: int, parse: Parse)
    ensures CohortsOf(jobs, StageEventsOnly(events), rows) == CohortsOf(jobs, events, rows)
    ensures MetricsOf(jobs, StageEventsOnly(events), rows, now, parse) == MetricsOf(jobs, events, rows, now, parse)
  {
    var known := JobIds(jobs);
    FirstAppliedFiltered(known, events);
    assert AppliedEventIds(known, StageEventsOnly(events)) == AppliedEventIds(known, events);
    var ids := AppliedIds(jobs, events, rows);
    assert AppliedIds(jobs, StageEventsOnly(events), rows) == ids;
    var cohort := Cohort(jobs, ids, FirstApplied(known, events));
    assert RejectedIds(StageEventsOnly(events), cohort, ids) == RejectedIds(events, cohort, ids);
  }

  /** What FirstApplied finds is a time of an applied event of the job, and no applied event of the job has an earlier one. */
  lemma {:induction false} FirstAppliedIsLeast(known: set<JobId>, events: seq<AnalyticsEvent>, id: JobId)
    ensures var first := FirstApplied(known, events);
            if id in first then
              (exists e :: e in events && IsAppliedEvent(e, known) && e.job == id && e.createdAt == first[id]) && first[id] != EMPTY &&
              (forall e :: e in events && IsAppliedEvent(e, known) && e.job == id && e.createdAt != EMPTY ==> first[id] <= e.createdAt)
            else forall e :: e in events && IsAppliedEvent(e, known) && e.job == id ==> e.createdAt == EMPTY
  {
    if events != [] {
      var init, last := events[..|events| - 1], events[|events| - 1];
      FirstAppliedIsLeast(known, init, id);
      assert forall e :: e in events <==> e in init || e == last;
    }
  }
}

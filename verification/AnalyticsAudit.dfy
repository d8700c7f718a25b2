/** The full metrics of analyticsdata.go with their weeks and reconciliation counts, and the warnings of analyticsaudit.go. */
module AnalyticsAudit {
  import opened Sql
  import opened Tables
  import opened Analytics
  import R = Reached

  const WEEK_MS: int := 7 * DAY_MS

  // ---------------------------------------------------------------- the four weeks

  datatype Measure = Applications | Responses | Interviews

  /** What one stage change counts for. */
  function Weight(e: AnalyticsEvent, m: Measure): nat {
    match m
    case Applications => if e.to == Applied then 1 else 0
    case Responses => if e.to in TRACKED || e.to == Rejected then 1 else 0
    case Interviews => if e.to in INTERVIEW_PLUS then 1 else 0
  }

  function WeekStart(k: int, now: int): int { now - (4 - k) * WEEK_MS }

  predicate InWindow(e: AnalyticsEvent, now: int, parse: Parse) {
    e.kind == StageChange && parse(e.createdAt).Val? && now - 4 * WEEK_MS <= parse(e.createdAt).v <= now
  }

  /** Half-open weeks; the very last moment belongs to the last one. */
  predicate InWeek(e: AnalyticsEvent, k: int, now: int, parse: Parse) {
    InWindow(e, now, parse) && 0 <= k < 4 &&
    var t := parse(e.createdAt).v;
    WeekStart(k, now) <= t < WeekStart(k, now) + WEEK_MS || (k == 3 && t == now)
  }

  lemma WeekStarts(now: int)
    ensures WeekStart(0, now) == now - 4 * WEEK_MS && WeekStart(1, now) == WeekStart(0, now) + WEEK_MS
    ensures WeekStart(2, now) == WeekStart(1, now) + WEEK_MS && WeekStart(3, now) == WeekStart(2, now) + WEEK_MS
    ensures now == WeekStart(3, now) + WEEK_MS
  {
  }

  /** Every stage change in the window lands in exactly one week. */
  lemma OneWeek(e: AnalyticsEvent, now: int, parse: Parse)
    requires InWindow(e, now, parse)
    ensures exists k :: InWeek(e, k, now, parse) && forall l :: InWeek(e, l, now, parse) ==> l == k
  {
    var t := parse(e.createdAt).v;
    WeekStarts(now);
    var k := if t < WeekStart(1, now) then 0 else if t < WeekStart(2, now) then 1 else if t < WeekStart(3, now) then 2 else 3;
    forall l
      ensures InWeek(e, l, now, parse) <==> l == k
    {
      hide WeekStart, InWindow;
      if !(0 <= l < 4) { assert !InWeek(e, l, now, parse); }
      else if l == 0 { } else if l == 1 { } else if l == 2 { } else { assert l == 3; }
    }
    assert InWeek(e, k, now, parse);
  }

  function CountWeek(events: seq<AnalyticsEvent>, k: int, m: Measure, now: int, parse: Parse): nat {
    if events == [] then 0
    else CountWeek(events[..|events| - 1], k, m, now, parse)
         + if InWeek(events[|events| - 1], k, now, parse) then Weight(events[|events| - 1], m) else 0
  }

  function CountWindow(events: seq<AnalyticsEvent>, m: Measure, now: int, parse: Parse): nat {
    if events == [] then 0
    else CountWindow(events[..|events| - 1], m, now, parse)
         + if InWindow(events[|events| - 1], now, parse) then Weight(events[|events| - 1], m) else 0
  }

  /** The weeks add up to the window: nothing is counted twice or dropped. */
  lemma {:induction false} WeeksAddUp(events: seq<AnalyticsEvent>, m: Measure, now: int, parse: Parse)
    ensures CountWeek(events, 0, m, now, parse) + CountWeek(events, 1, m, now, parse) +
            CountWeek(events, 2, m, now, parse) + CountWeek(events, 3, m, now, parse) == CountWindow(events, m, now, parse)
  {
    if events != [] {
      var last := events[|events| - 1];
      WeeksAddUp(events[..|events| - 1], m, now, parse);
      if InWindow(last, now, parse) { OneWeek(last, now, parse); }
    }
  }

  datatype Week = Week(applications: nat, responses: nat, interviews: nat)

  function WeekOf(events: seq<AnalyticsEvent>, k: int, now: int, parse: Parse): Week {
    Week(CountWeek(events, k, Applications, now, parse), CountWeek(events, k, Responses, now, parse),
         CountWeek(events, k, Interviews, now, parse))
  }

  function WindowOf(events: seq<AnalyticsEvent>, now: int, parse: Parse): Week {
    Week(CountWindow(events, Applications, now, parse), CountWindow(events, Responses, now, parse),
         CountWindow(events, Interviews, now, parse))
  }

  /** The search for the week of a time in the window. */
  method FindWeek(e: AnalyticsEvent, t: int, now: int, parse: Parse) returns (wi: nat)
    requires InWindow(e, now, parse) && parse(e.createdAt) == Val(t)
    ensures wi < 4 && forall k :: InWeek(e, k, now, parse) <==> k == wi
  {
    wi := 3;
    var k := 0;
    while k < 4
      invariant 0 <= k <= 4 && wi == 3
      invariant forall l :: 0 <= l < k ==> !(WeekStart(l, now) <= t < WeekStart(l, now) + WEEK_MS)
    {
      if t >= WeekStart(k, now) && t < WeekStart(k, now) + WEEK_MS {
        wi := k;
        break;
      }
      k := k + 1;
    }
    assert WeekStart(0, now) == now - 4 * WEEK_MS && WeekStart(1, now) == WeekStart(0, now) + WEEK_MS &&
           WeekStart(2, now) == WeekStart(1, now) + WEEK_MS && WeekStart(3, now) == WeekStart(2, now) + WEEK_MS;
    assert k < 4 || t == now;
  }

  lemma WeekNext(events: seq<AnalyticsEvent>, i: nat, k: int, now: int, parse: Parse)
    requires i < |events|
    ensures WeekOf(events[..i + 1], k, now, parse) ==
            if InWeek(events[i], k, now, parse) then Added(WeekOf(events[..i], k, now, parse), events[i]) else WeekOf(events[..i], k, now, parse)
  {
    assert events[..i + 1][..i] == events[..i];
  }

  function Added(w: Week, e: AnalyticsEvent): Week {
    Week(w.applications + Weight(e, Applications), w.responses + Weight(e, Responses), w.interviews + Weight(e, Interviews))
  }

  method Activity(events: seq<AnalyticsEvent>, now: int, parse: Parse) returns (weeks: seq<Week>, totals: Week)
    ensures |weeks| == 4 && forall k :: 0 <= k < 4 ==> weeks[k] == WeekOf(events, k, now, parse)
    ensures totals == WindowOf(events, now, parse)
  {
    weeks := [Week(0, 0, 0), Week(0, 0, 0), Week(0, 0, 0), Week(0, 0, 0)];
    for i := 0 to |events|
      invariant |weeks| == 4 && forall k :: 0 <= k < 4 ==> weeks[k] == WeekOf(events[..i], k, now, parse)
    {
      var e := events[i];
      forall k | 0 <= k < 4
        ensures WeekOf(events[..i + 1], k, now, parse) ==
                if InWeek(e, k, now, parse) then Added(WeekOf(events[..i], k, now, parse), e) else WeekOf(events[..i], k, now, parse)
      { WeekNext(events, i, k, now, parse); }
      if e.kind != StageChange {
        continue;
      }
      var t := parse(e.createdAt);
      if t.Null? || t.v < now - 4 * WEEK_MS || t.v > now {
        continue;
      }
      var wi := FindWeek(e, t.v, now, parse);
      var w := weeks[wi];
      if e.to == Applied {
        w := w.(applications := w.applications + 1);
      }
      if e.to in TRACKED || e.to == Rejected {
        w := w.(responses := w.responses + 1);
      }
      if e.to in INTERVIEW_PLUS {
        w := w.(interviews := w.interviews + 1);
      }
      weeks := weeks[wi := w];
    }
    assert events[..|events|] == events;
    totals := Week(weeks[0].applications + weeks[1].applications + weeks[2].applications + weeks[3].applications,
                   weeks[0].responses + weeks[1].responses + weeks[2].responses + weeks[3].responses,
                   weeks[0].interviews + weeks[1].interviews + weeks[2].interviews + weeks[3].interviews);
    WeeksAddUp(events, Applications, now, parse);
    WeeksAddUp(events, Responses, now, parse);
    WeeksAddUp(events, Interviews, now, parse);
  }

  // ---------------------------------------------------------------- reconciliation

  datatype Evidence = AppliedAtOnly | AppliedEventOnly | NoMarker | PendingWithAppliedAt

  /** `at`, `ev` and `adv` are the jobs with an applied_at, with an applied event and with a reached stage. */
  predicate Shows(j: AnalyticsJob, kind: Evidence, at: set<JobId>, ev: set<JobId>, adv: set<JobId>) {
    match kind
    case AppliedAtOnly => j.id in at && j.id !in ev
    case AppliedEventOnly => j.id in ev && j.id !in at
    case NoMarker => j.id in adv && j.id !in at && j.id !in ev
    case PendingWithAppliedAt => j.id in at && (j.status == Blank || j.status == Pending)
  }

  function CountEvidence(jobs: seq<AnalyticsJob>, kind: Evidence, at: set<JobId>, ev: set<JobId>, adv: set<JobId>): nat {
    if jobs == [] then 0
    else CountEvidence(jobs[..|jobs| - 1], kind, at, ev, adv) + if Shows(jobs[|jobs| - 1], kind, at, ev, adv) then 1 else 0
  }

  function CountIn(jobs: seq<AnalyticsJob>, ids: set<JobId>): nat {
    if jobs == [] then 0 else CountIn(jobs[..|jobs| - 1], ids) + if jobs[|jobs| - 1].id in ids then 1 else 0
  }

  /** Every application is owed to exactly one kind of evidence: its applied_at, else an applied event, else a reached stage. */
  lemma {:induction false} ApplicationsAddUp(jobs: seq<AnalyticsJob>, at: set<JobId>, ev: set<JobId>, adv: set<JobId>, first: map<JobId, Text>)
    ensures |Cohort(jobs, at + ev + adv, first)|
            == CountIn(jobs, at) + CountEvidence(jobs, AppliedEventOnly, at, ev, adv) + CountEvidence(jobs, NoMarker, at, ev, adv)
  {
    if jobs != [] { ApplicationsAddUp(jobs[..|jobs| - 1], at, ev, adv, first); }
  }

  datatype Reconciliation = Reconciliation(appliedAtOnly: nat, appliedEventOnly: nat, noMarker: nat, pendingWithAppliedAt: nat)

  method Reconcile(jobs: seq<AnalyticsJob>, at: set<JobId>, ev: set<JobId>, adv: set<JobId>) returns (recon: Reconciliation)
    ensures recon == ReconOf(jobs, at, ev, adv)
  {
    recon := Reconciliation(0, 0, 0, 0);
    for i := 0 to |jobs|
      invariant recon == ReconOf(jobs[..i], at, ev, adv)
    {
      var j := jobs[i];
      assert jobs[..i + 1][..i] == jobs[..i];
      if j.id in at && j.id !in ev {
        recon := recon.(appliedAtOnly := recon.appliedAtOnly + 1);
      }
      if j.id in ev && j.id !in at {
        recon := recon.(appliedEventOnly := recon.appliedEventOnly + 1);
      }
      if j.id in adv && j.id !in at && j.id !in ev {
        recon := recon.(noMarker := recon.noMarker + 1);
      }
      if j.id in at && (j.status == Blank || j.status == Pending) {
        recon := recon.(pendingWithAppliedAt := recon.pendingWithAppliedAt + 1);
      }
    }
    assert jobs[..|jobs|] == jobs;
  }

  function ReconOf(jobs: seq<AnalyticsJob>, at: set<JobId>, ev: set<JobId>, adv: set<JobId>): Reconciliation {
    Reconciliation(CountEvidence(jobs, AppliedAtOnly, at, ev, adv), CountEvidence(jobs, AppliedEventOnly, at, ev, adv),
                   CountEvidence(jobs, NoMarker, at, ev, adv), CountEvidence(jobs, PendingWithAppliedAt, at, ev, adv))
  }

  // ---------------------------------------------------------------- the full metrics

  /** `advanced` is the number of applied jobs listed as advanced. */
  datatype FullMetrics = FullMetrics(metrics: Metrics, advanced: nat, weeks: seq<Week>, totals: Week, recon: Reconciliation)

  function FullMetricsOf(jobs: seq<AnalyticsJob>, events: seq<AnalyticsEvent>, rows: seq<R.ReachedRow>, now: int, parse: Parse): FullMetrics {
    var c := CohortsOf(jobs, events, rows);
    FullMetrics(MetricsOf(jobs, events, rows, now, parse), CountIn(c.applied, c.advanced),
                [WeekOf(events, 0, now, parse), WeekOf(events, 1, now, parse), WeekOf(events, 2, now, parse), WeekOf(events, 3, now, parse)],
                WindowOf(events, now, parse),
                ReconOf(jobs, AppliedAtIds(jobs), AppliedEventIds(JobIds(jobs), events), c.advanced))
  }

  method CountAmong(jobs: seq<AnalyticsJob>, ids: set<JobId>) returns (n: nat)
    ensures n == CountIn(jobs, ids)
  {
    n := 0;
    for i := 0 to |jobs|
      invariant n == CountIn(jobs[..i], ids)
    {
      assert jobs[..i + 1][..i] == jobs[..i];
      if jobs[i].id in ids {
        n := n + 1;
      }
    }
    assert jobs[..|jobs|] == jobs;
  }

  /** The cohorts of the full path, with the summary of the reached rows and the two applied markers. */
  method FullCohorts(jobs: seq<AnalyticsJob>, events: seq<AnalyticsEvent>, rows: seq<R.ReachedRow>)
    returns (hist: ReachedStats, at: set<JobId>, ev: set<JobId>, c: Cohorts)
    ensures hist == ReachedStats(|ReachedIds(rows, INTERVIEW_PLUS)|, |ReachedIds(rows, {PhoneScreen})|, |ReachedIds(rows, INTERVIEW_PLUS)|,
                                 |ReachedIds(rows, ONSITE_PLUS)|, |ReachedIds(rows, {Offer})|, ReachedIds(rows, TRACKED))
    ensures at == AppliedAtIds(jobs) && ev == AppliedEventIds(JobIds(jobs), events)
    ensures c == CohortsOf(jobs, events, rows)
  {
    hist := SummarizeReached(rows);
    var jobIds, appliedAtIds := AppliedMarkers(jobs);
    var appliedEventIds, first := FullAppliedEvents(jobIds, events);
    var appliedIds := appliedAtIds + appliedEventIds + hist.advanced;
    var cohort := AppliedJobs(jobs, appliedIds, first);
    var advanced := set id | id in hist.advanced && id in appliedIds;
    assert advanced == ReachedIds(rows, TRACKED);
    var rejected := RejectedAmong(events, cohort, appliedIds);
    return hist, appliedAtIds, appliedEventIds, Cohorts(appliedIds, cohort, advanced, rejected, advanced + rejected);
  }

  method ComputeAnalyticsMetrics(jobs: seq<AnalyticsJob>, events: seq<AnalyticsEvent>, rows: seq<R.ReachedRow>, now: int, parse: Parse)
    returns (m: FullMetrics)
    ensures m == FullMetricsOf(jobs, events, rows, now, parse)
  {
    hide ReachedIds, WeekOf, WindowOf, AppliedAtIds, AppliedEventIds, CountIn, CountActive, CountStale, FirstApplied, Cohort, RejectedIds;
    var hist, at, ev, c := FullCohorts(jobs, events, rows);
    var active := ActiveAmong(jobs);
    var stale := StaleAmong(c.applied, c.responded, now, parse);
    var weeks, totals := Activity(events, now, parse);
    var listed := CountAmong(c.applied, c.advanced);
    var recon := Reconcile(jobs, at, ev, hist.advanced);
    var metrics := Metrics(
      Health(active, |c.applied|, |c.responded|, hist.interviews, |c.rejected|, stale,
             NewRate(|c.responded|, |c.applied|), NewRate(hist.interviews, |c.applied|)),
      Funnel(|c.applied|, hist.phoneScreen, hist.interview, hist.onsite, hist.offer));
    assert metrics == MetricsOf(jobs, events, rows, now, parse);
    m := FullMetrics(metrics, listed, weeks, totals, recon);
    assert m.weeks == FullMetricsOf(jobs, events, rows, now, parse).weeks;
  }

  // ---------------------------------------------------------------- the funnel narrows

  lemma {:induction false} SubsetSize<T>(a: set<T>, b: set<T>)
    requires a <= b
    ensures |a| <= |b|
    decreases |a|
  {
    if x :| x in a { SubsetSize(a - {x}, b - {x}); }
  }

  /** The applied jobs are at least as many as the applied ids that are jobs. */
  lemma {:induction false} CohortCovers(jobs: seq<AnalyticsJob>, ids: set<JobId>, first: map<JobId, Text>)
    ensures |ids * JobIds(jobs)| <= |Cohort(jobs, ids, first)|
  {
    if jobs == [] {
      assert ids * JobIds(jobs) == {};
    } else {
      var init, last := jobs[..|jobs| - 1], jobs[|jobs| - 1];
      CohortCovers(init, ids, first);
      assert jobs == init + [last];
      assert JobIds(jobs) == JobIds(init) + {last.id};
      if last.id in ids {
        SubsetSize(ids * JobIds(jobs), ids * JobIds(init) + {last.id});
      } else {
        assert ids * JobIds(jobs) == ids * JobIds(init);
      }
    }
  }

  /** The reached rows name jobs of the list. */
  predicate ReachedAreJobs(jobs: seq<AnalyticsJob>, rows: seq<R.ReachedRow>) {
    forall r :: r in rows ==> r.job in JobIds(jobs)
  }

  /** Offers are among the onsites, these among the interviews; and all of them are applications when the reached rows are jobs. */
  lemma FunnelNarrows(jobs: seq<AnalyticsJob>, events: seq<AnalyticsEvent>, rows: seq<R.ReachedRow>)
    ensures var f := FunnelOf(jobs, events, rows);
            f.offer <= f.onsite <= f.interview &&
            (ReachedAreJobs(jobs, rows) ==> f.interview <= f.applied && f.phoneScreen <= f.applied)
  {
    StageUnions(rows);
    SubsetSize(ReachedIds(rows, {Offer}), ReachedIds(rows, ONSITE_PLUS));
    SubsetSize(ReachedIds(rows, ONSITE_PLUS), ReachedIds(rows, INTERVIEW_PLUS));
    if ReachedAreJobs(jobs, rows) {
      var ids := AppliedIds(jobs, events, rows);
      CohortCovers(jobs, ids, FirstApplied(JobIds(jobs), events));
      SubsetSize(ReachedIds(rows, INTERVIEW_PLUS), ids * JobIds(jobs));
      SubsetSize(ReachedIds(rows, {PhoneScreen}), ids * JobIds(jobs));
    }
  }

  predicate DistinctIds(jobs: seq<AnalyticsJob>) { forall i, j :: 0 <= i < j < |jobs| ==> jobs[i].id != jobs[j].id }

  lemma CountInAppend(xs: seq<AnalyticsJob>, x: AnalyticsJob, ids: set<JobId>)
    ensures CountIn(xs + [x], ids) == CountIn(xs, ids) + if x.id in ids then 1 else 0
  {
    assert (xs + [x])[..|xs|] == xs;
  }

  lemma {:induction false} CohortCount(jobs: seq<AnalyticsJob>, ids: set<JobId>, first: map<JobId, Text>, some: set<JobId>)
    requires some <= ids
    ensures CountIn(Cohort(jobs, ids, first), some) == CountIn(jobs, some)
  {
    if jobs != [] {
      var init, last := jobs[..|jobs| - 1], jobs[|jobs| - 1];
      CohortCount(init, ids, first, some);
      if last.id in ids {
        CountInAppend(Cohort(init, ids, first), Dated(last, first), some);
      } else {
        assert Cohort(jobs, ids, first) == Cohort(init, ids, first);
      }
    }
  }

  lemma {:induction false} CountIsSize(jobs: seq<AnalyticsJob>, some: set<JobId>)
    requires DistinctIds(jobs)
    ensures CountIn(jobs, some) == |some * JobIds(jobs)|
  {
    if jobs == [] {
      assert some * JobIds(jobs) == {};
    } else {
      var init, last := jobs[..|jobs| - 1], jobs[|jobs| - 1];
      CountIsSize(init, some);
      assert jobs == init + [last];
      assert last.id !in JobIds(init);
      assert some * JobIds(jobs) == some * JobIds(init) + if last.id in some then {last.id} else {};
    }
  }

  /** Responded jobs cover their two parts. */
  lemma RespondedCovers(jobs: seq<AnalyticsJob>, events: seq<AnalyticsEvent>, rows: seq<R.ReachedRow>)
    ensures var c := CohortsOf(jobs, events, rows);
            |c.rejected| <= |c.responded| && (DistinctIds(jobs) ==> CountIn(c.applied, c.advanced) <= |c.responded|)
  {
    var c := CohortsOf(jobs, events, rows);
    SubsetSize(c.rejected, c.responded);
    if DistinctIds(jobs) {
      CohortCount(jobs, c.appliedIds, FirstApplied(JobIds(jobs), events), c.advanced);
      CountIsSize(jobs, c.advanced);
      SubsetSize(c.advanced * JobIds(jobs), c.responded);
    }
  }

  // ---------------------------------------------------------------- the audit

  datatype Warning =
    | ReachedSetBroken(stage: Word)
    | RespondedBelowParts
    | LowConfidenceScores(n: nat)
    | ThinPlatforms(n: nat)
    | RecoveredFromEvents(n: nat)
    | RecoveredFromStages(n: nat)
    | PendingApplied(n: nat)

  function AtStage(f: Funnel, stage: Word): nat {
    match stage
    case PhoneScreen => f.phoneScreen case Interview => f.interview case Onsite => f.onsite case Offer => f.offer
    case _ => 0
  }

  /** The two warnings that only an inconsistency of the metrics can raise. */
  predicate ShowsInconsistency(f: Funnel, responded: nat, advanced: nat, rejected: nat, w: Warning) {
    match w
    case ReachedSetBroken(stage) => stage in TRACKED && AtStage(f, stage) > f.applied
    case RespondedBelowParts => responded < advanced || responded < rejected
    case _ => false
  }

  method InconsistencyWarnings(f: Funnel, responded: nat, advanced: nat, rejected: nat) returns (warnings: seq<Warning>)
    ensures forall w :: w in warnings <==> ShowsInconsistency(f, responded, advanced, rejected, w)
  {
    warnings := [];
    var stages := [PhoneScreen, Interview, Onsite, Offer];
    for i := 0 to |stages|
      invariant forall w :: w in warnings <==> w.ReachedSetBroken? && w.stage in stages[..i] && AtStage(f, w.stage) > f.applied
    {
      assert stages[..i + 1] == stages[..i] + [stages[i]];
      if AtStage(f, stages[i]) > f.applied {
        warnings := warnings + [ReachedSetBroken(stages[i])];
      }
    }
    assert forall s :: s in stages[..|stages|] <==> s in TRACKED by { assert stages[..|stages|] == stages; }
    var floor := advanced;
    if rejected > floor {
      floor := rejected;
    }
    if responded < floor {
      warnings := warnings + [RespondedBelowParts];
    }
  }

  /** A remark on the data is due when its count is positive. */
  predicate IsRemark(recon: Reconciliation, lowConfidence: nat, thin: nat, w: Warning) {
    match w
    case LowConfidenceScores(n) => n == lowConfidence > 0
    case ThinPlatforms(n) => n == thin > 0
    case RecoveredFromEvents(n) => n == recon.appliedEventOnly > 0
    case RecoveredFromStages(n) => n == recon.noMarker > 0
    case PendingApplied(n) => n == recon.pendingWithAppliedAt > 0
    case _ => false
  }

  method RemarkIf(n: nat, w: Warning) returns (ws: seq<Warning>)
    ensures forall v :: v in ws <==> v == w && n > 0
  {
    ws := if n > 0 then [w] else [];
  }

  /**
   * buildAnalyticsAudit. `lowConfidence` and `thin` are the numbers of flagged score rows and platform rows. The audit
   * warns of an inconsistency exactly when the metrics show one, and remarks on the data exactly what there is to remark.
   */
  method BuildAnalyticsAudit(m: FullMetrics, lowConfidence: nat, thin: nat) returns (warnings: seq<Warning>)
    ensures forall w :: w in warnings <==>
              ShowsInconsistency(m.metrics.funnel, m.metrics.health.responded, m.advanced, m.metrics.health.rejected, w) ||
              IsRemark(m.recon, lowConfidence, thin, w)
    ensures RespondedBelowParts in warnings <==>
              m.metrics.health.responded < m.advanced || m.metrics.health.responded < m.metrics.health.rejected
    ensures forall n: nat :: LowConfidenceScores(n) in warnings <==> n == lowConfidence && n >= 1
    ensures forall n: nat :: ThinPlatforms(n) in warnings <==> n == thin && n >= 1
  {
    var a := InconsistencyWarnings(m.metrics.funnel, m.metrics.health.responded, m.advanced, m.metrics.health.rejected);
    var b := RemarkIf(lowConfidence, LowConfidenceScores(lowConfidence));
    var c := RemarkIf(thin, ThinPlatforms(thin));
    var d := RemarkIf(m.recon.appliedEventOnly, RecoveredFromEvents(m.recon.appliedEventOnly));
    var e := RemarkIf(m.recon.noMarker, RecoveredFromStages(m.recon.noMarker));
    var f := RemarkIf(m.recon.pendingWithAppliedAt, PendingApplied(m.recon.pendingWithAppliedAt));
    warnings := a + b + c + d + e + f;
  }

  /** The audit of these inputs would warn of an inconsistency. */
  predicate WouldWarn(jobs: seq<AnalyticsJob>, events: seq<AnalyticsEvent>, rows: seq<R.ReachedRow>, w: Warning) {
    var c := CohortsOf(jobs, events, rows);
    ShowsInconsistency(FunnelOf(jobs, events, rows), |c.responded|, CountIn(c.applied, c.advanced), |c.rejected|, w)
  }

  /** These are the numbers that the audit finds in the full metrics. */
  lemma AuditedNumbers(jobs: seq<AnalyticsJob>, events: seq<AnalyticsEvent>, rows: seq<R.ReachedRow>, now: int, parse: Parse, w: Warning)
    ensures var m := FullMetricsOf(jobs, events, rows, now, parse);
            ShowsInconsistency(m.metrics.funnel, m.metrics.health.responded, m.advanced, m.metrics.health.rejected, w)
            <==> WouldWarn(jobs, events, rows, w)
  {
  }

  /** The stages that the funnel counts at `stage`: the stage itself, or it and the later ones. */
  function FunnelStages(stage: Word): set<Word> {
    match stage
    case Interview => INTERVIEW_PLUS case Onsite => ONSITE_PLUS
    case _ => {stage}
  }

  /** Jobs that reached the stage but were missed by the read of the jobs. */
  function StrayIds(jobs: seq<AnalyticsJob>, rows: seq<R.ReachedRow>, stage: Word): set<JobId> {
    ReachedIds(rows, FunnelStages(stage)) - JobIds(jobs)
  }

  /** Applied jobs that did not reach the stage. */
  function ShortOf(jobs: seq<AnalyticsJob>, events: seq<AnalyticsEvent>, rows: seq<R.ReachedRow>, stage: Word): set<JobId> {
    AppliedIds(jobs, events, rows) * JobIds(jobs) - ReachedIds(rows, FunnelStages(stage))
  }

  lemma {:induction false} CohortIsCount(jobs: seq<AnalyticsJob>, ids: set<JobId>, first: map<JobId, Text>)
    ensures |Cohort(jobs, ids, first)| == CountIn(jobs, ids)
  {
    if jobs != [] { CohortIsCount(jobs[..|jobs| - 1], ids, first); }
  }

  lemma SplitSize(a: set<JobId>, b: set<JobId>)
    ensures |a| == |a * b| + |a - b|
  {
    assert a == a * b + (a - b);
  }

  lemma ReachedAreApplied(jobs: seq<AnalyticsJob>, events: seq<AnalyticsEvent>, rows: seq<R.ReachedRow>, stage: Word)
    requires stage in TRACKED
    ensures ReachedIds(rows, FunnelStages(stage)) <= AppliedIds(jobs, events, rows)
    ensures AtStage(FunnelOf(jobs, events, rows), stage) == |ReachedIds(rows, FunnelStages(stage))|
  {
    assert FunnelStages(stage) <= TRACKED;
  }

  /**
   * The jobs and the reached rows are two reads. For distinct jobs the audit warns of an inconsistency exactly when, at
   * some stage, more reached jobs are missing from the list than listed applied jobs fell short of the stage.
   */
  lemma WarnsExactly(jobs: seq<AnalyticsJob>, events: seq<AnalyticsEvent>, rows: seq<R.ReachedRow>, w: Warning)
    requires DistinctIds(jobs)
    ensures WouldWarn(jobs, events, rows, w) <==>
            w.ReachedSetBroken? && w.stage in TRACKED && |StrayIds(jobs, rows, w.stage)| > |ShortOf(jobs, events, rows, w.stage)|
  {
    hide Cohort, FirstApplied, AppliedIds, ReachedIds, FunnelStages, AtStage, DistinctIds;
    RespondedCovers(jobs, events, rows);
    if w.ReachedSetBroken? && w.stage in TRACKED {
      var ids, reached, listed := AppliedIds(jobs, events, rows), ReachedIds(rows, FunnelStages(w.stage)), JobIds(jobs);
      ReachedAreApplied(jobs, events, rows, w.stage);
      CohortIsCount(jobs, ids, FirstApplied(listed, events));
      CountIsSize(jobs, ids);
      SplitSize(reached, listed);
      SplitSize(ids * listed, reached);
      assert ids * listed * reached == reached * listed;
    }
  }

  /** For distinct jobs and reached rows that are jobs, the metrics never show an inconsistency. */
  lemma NeverInconsistent(jobs: seq<AnalyticsJob>, events: seq<AnalyticsEvent>, rows: seq<R.ReachedRow>, w: Warning)
    requires DistinctIds(jobs) && ReachedAreJobs(jobs, rows)
    ensures !WouldWarn(jobs, events, rows, w)
  {
    hide WouldWarn, DistinctIds;
    WarnsExactly(jobs, events, rows, w);
    if w.ReachedSetBroken? { assert StrayIds(jobs, rows, w.stage) == {}; }
  }

  /** AnalyticsJobs of one database state: each job of the tenant once. */
  ghost predicate IsScan(db: Db, user: User, jobs: seq<AnalyticsJob>) {
    DistinctIds(jobs) && forall id: JobId :: id in JobIds(jobs) <==> Owns(db.jobs, user, id)
  }

  /** Read from one database state, whatever its rows and events are, the inputs never raise the two warnings. */
  lemma AuditNeverWarns(db: Db, user: User, cutoff: int, jobs: seq<AnalyticsJob>, events: seq<AnalyticsEvent>, rows: seq<R.ReachedRow>, w: Warning)
    requires IsScan(db, user, jobs) && forall r :: r in rows ==> r in R.ReachedRows(db, user, cutoff)
    ensures !WouldWarn(jobs, events, rows, w)
  {
    forall r | r in rows
      ensures r.job in JobIds(jobs)
    { R.ReachedRowsAreJobs(db, user, cutoff, r); }
    NeverInconsistent(jobs, events, rows, w);
  }

  /** An offer of a job that the first read missed does raise the warning when no job of the list was applied. */
  lemma StrayRowWarns(jobs: seq<AnalyticsJob>, events: seq<AnalyticsEvent>, rows: seq<R.ReachedRow>, r: R.ReachedRow)
    requires r in rows && r.stage == Offer && FunnelOf(jobs, events, rows).applied == 0
    ensures WouldWarn(jobs, events, rows, ReachedSetBroken(Offer)) && r.job !in JobIds(jobs)
  {
    assert r.job in ReachedIds(rows, {Offer}) && r.job in ReachedIds(rows, TRACKED);
    var ids := AppliedIds(jobs, events, rows);
    CohortCovers(jobs, ids, FirstApplied(JobIds(jobs), events));
    assert ids * JobIds(jobs) == {};
  }
}

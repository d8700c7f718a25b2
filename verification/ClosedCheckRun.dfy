/** The counters of closedcheck.Run: jobs are probed in groups, then each group's outcomes are counted and written in order. */
module ClosedCheckRun {
  import opened Sql
  import opened ClosedCheck

  datatype Result = Result(checked: nat, closed: nat, skipped: nat, errored: nat)

  const NONE := Result(0, 0, 0, 0)
  const DEFAULT_CONCURRENCY: nat := 10

  /** One outcome; `writeFails` says that marking the row closed would fail. */
  datatype Probe = Probe(outcome: Outcome, writeFails: bool)

  predicate ClosesRow(p: Probe) { p.outcome == Known(Closed) && !p.writeFails }

  function Count(r: Result, p: Probe): Result {
    match p.outcome
    case Error => r.(errored := r.errored + 1)
    case Skip => r.(skipped := r.skipped + 1)
    case Known(Closed) =>
      if p.writeFails then r.(errored := r.errored + 1) else r.(closed := r.closed + 1, checked := r.checked + 1)
    case Known(Open) => r.(checked := r.checked + 1)
  }

  function Tally(ps: seq<Probe>): Result {
    if ps == [] then NONE else Count(Tally(ps[..|ps| - 1]), ps[|ps| - 1])
  }

  /** The rows marked closed, in order. */
  function ClosedRows(ps: seq<Probe>): seq<nat> {
    if ps == [] then []
    else ClosedRows(ps[..|ps| - 1]) + if ClosesRow(ps[|ps| - 1]) then [|ps| - 1] else []
  }

  function HowMany(ps: seq<Probe>, test: Probe -> bool): nat {
    if ps == [] then 0 else HowMany(ps[..|ps| - 1], test) + if test(ps[|ps| - 1]) then 1 else 0
  }

  /** Every job is counted exactly once, `Closed` is the number of rows marked closed, and each of those was also checked. */
  lemma {:induction false} TallyBalances(ps: seq<Probe>)
    ensures var r := Tally(ps);
            r.checked + r.skipped + r.errored == |ps| && r.closed <= r.checked && r.closed == |ClosedRows(ps)| &&
            r.checked - r.closed == HowMany(ps, (p: Probe) => p.outcome == Known(Open)) &&
            r.skipped == HowMany(ps, (p: Probe) => p.outcome == Skip)
  {
    if ps != [] { TallyBalances(ps[..|ps| - 1]); }
  }

  lemma TallyNext(ps: seq<Probe>, i: nat)
    requires i < |ps|
    ensures Tally(ps[..i + 1]) == Count(Tally(ps[..i]), ps[i])
    ensures ClosedRows(ps[..i + 1]) == ClosedRows(ps[..i]) + if ClosesRow(ps[i]) then [i] else []
  {
    assert ps[..i + 1][..i] == ps[..i];
  }

  function GroupSize(concurrency: int): (step: nat)
    ensures step > 0
  {
    if concurrency <= 0 then DEFAULT_CONCURRENCY else concurrency
  }

  /** A group ends after `j` jobs, when no job list ends it earlier. */
  predicate Boundary(j: nat, step: nat)
    requires step > 0
  {
    j == step || (j > step && Boundary(j - step, step))
  }

  lemma {:induction false} NoBoundaryInside(start: nat, j: nat, step: nat)
    requires step > 0 && (start == 0 || Boundary(start, step)) && Boundary(j, step) && start < j
    ensures start + step <= j
  {
    if start > 0 { NoBoundaryInside(start - step, j - step, step); }
  }

  /** The context is found cancelled at the pause after a group that is not the last one. */
  predicate CancelledBetween(cancelAt: Opt<nat>, jobs: nat, step: nat)
    requires step > 0
  {
    cancelAt.Val? && cancelAt.v < jobs && Boundary(cancelAt.v, step)
  }

  /**
   * Run without its network and clock: `probes` are the outcomes of CheckJob, `cancelAt` the job count at whose pause the
   * context is found cancelled. A cancelled pass reports nothing, although the groups before it were written.
   */
  method Run(probes: seq<Probe>, concurrency: int, cancelAt: Opt<nat>) returns (result: Result, cancelled: bool, closedRows: seq<nat>)
    ensures !cancelled ==> result == Tally(probes) && closedRows == ClosedRows(probes)
    ensures cancelled <==> CancelledBetween(cancelAt, |probes|, GroupSize(concurrency))
    ensures cancelled ==> result == NONE && closedRows == ClosedRows(probes[..cancelAt.v])
  {
    var step := GroupSize(concurrency);
    result, cancelled, closedRows := NONE, false, [];
    var start := 0;
    assert probes[..0] == [];
    while start < |probes|
      invariant 0 <= start <= |probes|
      invariant result == Tally(probes[..start]) && closedRows == ClosedRows(probes[..start]) && !cancelled
      invariant start == 0 || start == |probes| || Boundary(start, step)
      invariant CancelledBetween(cancelAt, |probes|, step) ==> start < cancelAt.v
    {
      var end := if start + step > |probes| then |probes| else start + step;
      for i := start to end
        invariant result == Tally(probes[..i]) && closedRows == ClosedRows(probes[..i])
      {
        TallyNext(probes, i);
        match probes[i].outcome {
          case Error => result := result.(errored := result.errored + 1);
          case Skip => result := result.(skipped := result.skipped + 1);
          case Known(Closed) =>
            if probes[i].writeFails {
              result := result.(errored := result.errored + 1);
            } else {
              closedRows := closedRows + [i];
              result := result.(closed := result.closed + 1, checked := result.checked + 1);
            }
          case Known(Open) => result := result.(checked := result.checked + 1);
        }
      }
      if CancelledBetween(cancelAt, |probes|, step) { NoBoundaryInside(start, cancelAt.v, step); }
      if end < |probes| && cancelAt == Val(end) {
        return NONE, true, closedRows;
      }
      start := end;
    }
    assert probes[..start] == probes;
  }
}

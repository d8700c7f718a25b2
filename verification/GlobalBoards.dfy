/** The cross-tenant global_jobs table: sightings (globaljobs.go), and closing and reopening by what boards list (distribute.go). */
module GlobalBoards {
  import opened Sql
  import opened Tables
  import P = Pipeline

  /** A row of `global_jobs`; company, platform and URL hold the lower-cased text. */
  datatype Global = Global(
    title: Opt<Text>, company: Opt<Text>, url: Opt<Text>, platform: Opt<Word>, location: Opt<Text>,
    postedAt: Opt<Text>, scrapedAt: Opt<Text>, description: Opt<string>, descriptionHash: Opt<Text>,
    firstSeenBy: User, firstSeenAt: int, lastSeen: Opt<int>)

  type Globals = map<GlobalId, Global>

  datatype Board = Board(now: int, globals: Globals)

  /** A scraped listing; `postedAt` is normalized, `hash` is the DescriptionHash of its description. */
  datatype Lead = Lead(
    id: GlobalId, title: Text, company: Text, url: Text, platform: Word, location: Text,
    postedAt: Text, scrapedAt: Text, description: string, hash: Text)

  const LINKEDIN: Word := Other(100)
  const MANUAL: Word := Other(101)

  // ---------------------------------------------------------------- sightings

  predicate ShouldHarvest(l: Lead) { l.id != EMPTY && l.platform !in {LINKEDIN, MANUAL} && l.url != EMPTY }

  function NonEmptyOr(t: Text, kept: Opt<Text>): Opt<Text> { if t != EMPTY then Val(t) else kept }

  /** `COALESCE(length(description), 0)`. */
  function Length(description: Opt<string>): nat { if description.Val? then |description.v| else 0 }

  function NewGlobal(l: Lead, user: User, now: int): Global {
    Global(Val(l.title), Val(l.company), Val(l.url), Val(l.platform), Val(l.location), Val(l.postedAt), Val(l.scrapedAt),
           Val(l.description), Val(l.hash), user, now, Val(now))
  }

  function Updated(g: Global, l: Lead, now: int): Global {
    var longer := |l.description| >= Length(g.description);
    Global(NonEmptyOr(l.title, g.title), NonEmptyOr(l.company, g.company), NonEmptyOr(l.url, g.url),
           if l.platform != Blank then Val(l.platform) else g.platform, NonEmptyOr(l.location, g.location),
           NonEmptyOr(l.postedAt, g.postedAt), NonEmptyOr(l.scrapedAt, g.scrapedAt),
           if longer then Val(l.description) else g.description, if longer then Val(l.hash) else g.descriptionHash,
           g.firstSeenBy, g.firstSeenAt, Val(now))
  }

  /** HarvestGlobalLead. A new row keeps the lead as it is; a known row takes its non-empty texts, and its description if it is no shorter. */
  function Harvested(b: Board, user: User, l: Lead): Board {
    if !ShouldHarvest(l) then b
    else b.(globals := b.globals[l.id := if l.id in b.globals then Updated(b.globals[l.id], l, b.now) else NewGlobal(l, user, b.now)])
  }

  /** TouchGlobalJobSeen. */
  function Touched(b: Board, id: GlobalId): Board {
    if id != EMPTY && id in b.globals then b.(globals := b.globals[id := b.globals[id].(lastSeen := Val(b.now))]) else b
  }

  class GlobalStore {
    var now: int
    var globals: Globals

    function AsBoard(): Board
      reads this
    {
      Board(now, globals)
    }

    method HarvestGlobalLead(user: User, l: Lead)
      modifies `globals
      ensures AsBoard() == Harvested(old(AsBoard()), user, l)
    {
      if l.id == EMPTY || l.platform == LINKEDIN || l.platform == MANUAL || l.url == EMPTY {
        return;
      }
      if l.id in globals {
        var g := globals[l.id];
        if l.title != EMPTY { g := g.(title := Val(l.title)); }
        if l.company != EMPTY { g := g.(company := Val(l.company)); }
        if l.url != EMPTY { g := g.(url := Val(l.url)); }
        if l.platform != Blank { g := g.(platform := Val(l.platform)); }
        if l.location != EMPTY { g := g.(location := Val(l.location)); }
        if l.postedAt != EMPTY { g := g.(postedAt := Val(l.postedAt)); }
        if l.scrapedAt != EMPTY { g := g.(scrapedAt := Val(l.scrapedAt)); }
        if |l.description| >= Length(g.description) {
          g := g.(description := Val(l.description), descriptionHash := Val(l.hash));
        }
        globals := globals[l.id := g.(lastSeen := Val(now))];
      } else {
        globals := globals[l.id := Global(Val(l.title), Val(l.company), Val(l.url), Val(l.platform), Val(l.location), Val(l.postedAt),
                                          Val(l.scrapedAt), Val(l.description), Val(l.hash), user, now, Val(now))];
      }
    }

    method TouchGlobalJobSeen(id: GlobalId)
      modifies `globals
      ensures AsBoard() == Touched(old(AsBoard()), id)
    {
      if id == EMPTY || id !in globals {
        return;
      }
      globals := globals[id := globals[id].(lastSeen := Val(now))];
    }
  }

  /** What the row keeps of the lead: a text that is not empty replaces the old one. */
  predicate TakesText(was: Opt<Text>, offered: Text, now: Opt<Text>) {
    (offered != EMPTY ==> now == Val(offered)) && (offered == EMPTY ==> now == was)
  }

  /** LinkedIn and manual leads, and leads without an id or a URL, leave the table alone; others stamp their row as seen now. */
  lemma HarvestOutcome(b: Board, user: User, l: Lead)
    ensures var after := Harvested(b, user, l);
            after.now == b.now && (forall k :: k in b.globals && k != l.id ==> k in after.globals && after.globals[k] == b.globals[k]) &&
            if l.id == EMPTY || l.platform == LINKEDIN || l.platform == MANUAL || l.url == EMPTY then after == b
            else l.id in after.globals && after.globals[l.id].lastSeen == Val(b.now)
    ensures var after := Harvested(b, user, l).globals;
            ShouldHarvest(l) && l.id in b.globals ==>
              var g, h := b.globals[l.id], after[l.id];
              TakesText(g.title, l.title, h.title) && TakesText(g.company, l.company, h.company) && TakesText(g.url, l.url, h.url) &&
              TakesText(g.location, l.location, h.location) && TakesText(g.postedAt, l.postedAt, h.postedAt) &&
              TakesText(g.scrapedAt, l.scrapedAt, h.scrapedAt) &&
              (l.platform != Blank ==> h.platform == Val(l.platform)) && (l.platform == Blank ==> h.platform == g.platform) &&
              (g.description.Null? || |l.description| >= |g.description.v| ==> h.description == Val(l.description) && h.descriptionHash == Val(l.hash)) &&
              (g.description.Val? && |l.description| < |g.description.v| ==> h.description == g.description && h.descriptionHash == g.descriptionHash)
    ensures var after := Harvested(b, user, l).globals;
            ShouldHarvest(l) && l.id !in b.globals ==>
              after[l.id] == Global(Val(l.title), Val(l.company), Val(l.url), Val(l.platform), Val(l.location), Val(l.postedAt), Val(l.scrapedAt),
                                    Val(l.description), Val(l.hash), user, b.now, Val(b.now))
  {
  }

  // ---------------------------------------------------------------- the two queries

  predicate SeenAt(g: Global, since: int) { g.lastSeen.Val? && g.lastSeen.v >= since }

  /** Some row with the same URL was seen since. A NULL URL equals none. */
  predicate SeenSince(gs: Globals, url: Opt<Text>, since: int) {
    exists k :: k in gs && Same(gs[k].url, url) && SeenAt(gs[k], since)
  }

  predicate HasPosting(jobs: Jobs, gs: Globals, id: JobId) { id in jobs && jobs[id].globalId.Val? && jobs[id].globalId.v in gs }

  /** A row of VanishedBoardJobs. */
  predicate Vanished(jobs: Jobs, gs: Globals, user: User, id: JobId, platform: Word, companies: seq<Text>, cutoff: int) {
    HasPosting(jobs, gs, id) && P.CloseCandidate(jobs[id], user) &&
    var g := gs[jobs[id].globalId.v];
    platform != Blank && Is(g.platform, platform) && g.company.Val? && g.company.v in companies &&
    g.lastSeen.Val? && g.lastSeen.v < cutoff && !SeenSince(gs, g.url, cutoff)
  }

  /** A row of ResurfacedClosedJobs. */
  predicate Resurfaced(jobs: Jobs, gs: Globals, user: User, id: JobId, since: int) {
    HasPosting(jobs, gs, id) && P.ReopenCandidate(jobs[id], user) && SeenSince(gs, gs[jobs[id].globalId.v].url, since)
  }

  /**
   * The bulk close finds a row that the closed check would probe, of a listed board, whose posting was last seen before the
   * cutoff and whose URL no global row was seen with since.
   */
  lemma VanishedExactly(jobs: Jobs, gs: Globals, user: User, id: JobId, platform: Word, companies: seq<Text>, cutoff: int, g: GlobalId)
    requires id in jobs && jobs[id].globalId == Val(g) && g in gs && platform != Blank
    ensures Vanished(jobs, gs, user, id, platform, companies, cutoff) <==>
            P.CloseCandidate(jobs[id], user) && gs[g].platform == Val(platform) &&
            gs[g].company.Val? && (exists i :: 0 <= i < |companies| && companies[i] == gs[g].company.v) &&
            gs[g].lastSeen.Val? && gs[g].lastSeen.v < cutoff &&
            (gs[g].url.Val? ==> forall k :: k in gs && gs[k].url == gs[g].url ==> gs[k].lastSeen.Null? || gs[k].lastSeen.v < cutoff)
  {
    if k :| k in gs && Same(gs[k].url, gs[g].url) && SeenAt(gs[k], cutoff) { assert gs[k].url == gs[g].url && !(gs[k].lastSeen.v < cutoff); }
    if k :| k in gs && gs[g].url.Val? && gs[k].url == gs[g].url && gs[k].lastSeen.Val? && gs[k].lastSeen.v >= cutoff { assert SeenAt(gs[k], cutoff); }
  }

  /** The reopening finds a closed row whose posting's URL some global row was seen with at the time or later. */
  lemma ResurfacedExactly(jobs: Jobs, gs: Globals, user: User, id: JobId, since: int, g: GlobalId)
    requires id in jobs && jobs[id].globalId == Val(g) && g in gs
    ensures Resurfaced(jobs, gs, user, id, since) <==>
            jobs[id].user == user && jobs[id].status == Val(Closed) && jobs[id].stage == Val(Closed) && gs[g].url.Val? &&
            exists k :: k in gs && gs[k].url == gs[g].url && gs[k].lastSeen.Val? && gs[k].lastSeen.v >= since
  {
    if k :| k in gs && Same(gs[k].url, gs[g].url) && SeenAt(gs[k], since) { assert gs[k].url == gs[g].url && gs[k].lastSeen.v >= since; }
    if k :| k in gs && gs[g].url.Val? && gs[k].url == gs[g].url && gs[k].lastSeen.Val? && gs[k].lastSeen.v >= since { assert Same(gs[k].url, gs[g].url) && SeenAt(gs[k], since); }
  }

  // ---------------------------------------------------------------- runs of the global table

  datatype Step = Tick(seconds: nat) | Harvest(user: User, lead: Lead) | Touch(id: GlobalId)

  function After(b: Board, s: Step): Board {
    match s
    case Tick(seconds) => b.(now := b.now + seconds)
    case Harvest(user, l) => Harvested(b, user, l)
    case Touch(id) => Touched(b, id)
  }

  function Run(b: Board, steps: seq<Step>): Board {
    if steps == [] then b else After(Run(b, steps[..|steps| - 1]), steps[|steps| - 1])
  }

  /** The step stamps the row as seen now. */
  predicate Stamps(b: Board, s: Step, k: GlobalId) {
    match s
    case Tick(_) => false
    case Harvest(_, l) => ShouldHarvest(l) && l.id == k
    case Touch(id) => id != EMPTY && id == k && id in b.globals
  }

  /** Nothing was seen in the future. */
  predicate SeenInPast(b: Board) {
    forall k :: k in b.globals && b.globals[k].lastSeen.Val? ==> b.globals[k].lastSeen.v <= b.now
  }

  /** A stamp is the only change to a row, and rows never go away. */
  lemma StepFrame(b: Board, s: Step, k: GlobalId)
    requires SeenInPast(b)
    ensures SeenInPast(After(b, s)) && After(b, s).now >= b.now
    ensures k in b.globals ==> k in After(b, s).globals
    ensures Stamps(b, s, k) ==> k in After(b, s).globals && After(b, s).globals[k].lastSeen == Val(b.now) && After(b, s).now == b.now
    ensures !Stamps(b, s, k) && k in After(b, s).globals ==> k in b.globals && After(b, s).globals[k] == b.globals[k]
  {
  }

  lemma {:induction false} RunFrame(b: Board, steps: seq<Step>)
    requires SeenInPast(b)
    ensures SeenInPast(Run(b, steps)) && Run(b, steps).now >= b.now && b.globals.Keys <= Run(b, steps).globals.Keys
  {
    if steps != [] {
      var mid := Run(b, steps[..|steps| - 1]);
      RunFrame(b, steps[..|steps| - 1]);
      forall k
        ensures SeenInPast(After(mid, steps[|steps| - 1])) && After(mid, steps[|steps| - 1]).now >= mid.now
        ensures k in mid.globals ==> k in After(mid, steps[|steps| - 1]).globals
      { StepFrame(mid, steps[|steps| - 1], k); }
    }
  }

  ghost predicate StampedAt(b: Board, steps: seq<Step>, k: GlobalId, i: int) {
    0 <= i < |steps| && Stamps(Run(b, steps[..i]), steps[i], k)
  }

  /** Some step of the run stamps row `k` at `since` or later. */
  ghost predicate StampedSince(b: Board, steps: seq<Step>, k: GlobalId, since: int) {
    exists i :: StampedAt(b, steps, k, i) && Run(b, steps[..i]).now >= since
  }

  lemma StampExtends(b: Board, steps: seq<Step>, k: GlobalId, since: int)
    requires steps != []
    ensures StampedSince(b, steps, k, since) <==>
            StampedSince(b, steps[..|steps| - 1], k, since) ||
            (Stamps(Run(b, steps[..|steps| - 1]), steps[|steps| - 1], k) && Run(b, steps[..|steps| - 1]).now >= since)
  {
    var n := |steps| - 1;
    assert forall i :: 0 <= i <= n ==> steps[..n][..i] == steps[..i];
    if i :| StampedAt(b, steps[..n], k, i) && Run(b, steps[..n][..i]).now >= since {
      assert StampedAt(b, steps, k, i) && Run(b, steps[..i]).now >= since;
    }
    if Stamps(Run(b, steps[..n]), steps[n], k) && Run(b, steps[..n]).now >= since {
      assert StampedAt(b, steps, k, n);
    }
    if i :| StampedAt(b, steps, k, i) && Run(b, steps[..i]).now >= since {
      if i < n { assert StampedAt(b, steps[..n], k, i) && Run(b, steps[..n][..i]).now >= since; }
    }
  }

  /** A row is seen since some time exactly when it was so before the run, or when the run stamps it at that time or later. */
  lemma {:induction false} SeenExactly(b: Board, steps: seq<Step>, k: GlobalId, since: int)
    requires SeenInPast(b)
    ensures (k in Run(b, steps).globals && SeenAt(Run(b, steps).globals[k], since)) <==>
            (k in b.globals && SeenAt(b.globals[k], since)) || StampedSince(b, steps, k, since)
  {
    if steps != [] {
      var n := |steps| - 1;
      SeenExactly(b, steps[..n], k, since);
      RunFrame(b, steps[..n]);
      StepFrame(Run(b, steps[..n]), steps[n], k);
      StampExtends(b, steps, k, since);
    }
  }

  ghost predicate Stamped(b: Board, steps: seq<Step>, k: GlobalId) { exists i :: StampedAt(b, steps, k, i) }

  /** A row that the run does not stamp is as it was. */
  lemma {:induction false} UnstampedKept(b: Board, steps: seq<Step>, k: GlobalId)
    requires SeenInPast(b) && k in Run(b, steps).globals && !Stamped(b, steps, k)
    ensures k in b.globals && Run(b, steps).globals[k] == b.globals[k]
  {
    if steps != [] {
      var n := |steps| - 1;
      RunFrame(b, steps[..n]);
      StepFrame(Run(b, steps[..n]), steps[n], k);
      assert !StampedAt(b, steps, k, n);
      if i :| StampedAt(b, steps[..n], k, i) {
        assert steps[..n][..i] == steps[..i];
        assert StampedAt(b, steps, k, i);
      } else {
        UnstampedKept(b, steps[..n], k);
      }
    }
  }

  // ---------------------------------------------------------------- close and reopen need evidence

  /** The run stamps a row that ends with the posting's URL. */
  ghost predicate Sighted(b: Board, steps: seq<Step>, url: Opt<Text>) {
    exists k :: k in Run(b, steps).globals && Same(Run(b, steps).globals[k].url, url) && Stamped(b, steps, k)
  }

  /**
   * A job that has vanished at cutoff `c` can only resurface, for a `seenSince` of `c` or later, through a harvest or a touch
   * in between that stamps a global row with the URL that the posting then has. The tenant's row may have changed in any way.
   */
  lemma ReopenNeedsSighting(jobs: Jobs, b: Board, user: User, id: JobId, platform: Word, companies: seq<Text>, c: int,
                            steps: seq<Step>, later: Jobs, since: int)
    requires SeenInPast(b) && Vanished(jobs, b.globals, user, id, platform, companies, c)
    requires c <= since && Resurfaced(later, Run(b, steps).globals, user, id, since)
    requires later[id].globalId == jobs[id].globalId
    ensures Sighted(b, steps, Run(b, steps).globals[jobs[id].globalId.v].url)
  {
    var g := jobs[id].globalId.v;
    var after := Run(b, steps).globals;
    var k: GlobalId :| k in after && Same(after[k].url, after[g].url) && SeenAt(after[k], since);
    if !Stamped(b, steps, k) {
      UnstampedKept(b, steps, k);
      if !Stamped(b, steps, g) {
        UnstampedKept(b, steps, g);
        assert SeenSince(b.globals, b.globals[g].url, c);
      }
    }
  }

  /** The time matters too: if nothing had been seen since `since` before the run, the stamp falls at `since` or later. */
  lemma ReopenExactly(b: Board, steps: seq<Step>, g: GlobalId, since: int)
    requires SeenInPast(b) && g in Run(b, steps).globals && forall k :: k in b.globals ==> !SeenAt(b.globals[k], since)
    ensures SeenSince(Run(b, steps).globals, Run(b, steps).globals[g].url, since) <==>
            exists k :: k in Run(b, steps).globals && Same(Run(b, steps).globals[k].url, Run(b, steps).globals[g].url) &&
                        StampedSince(b, steps, k, since)
  {
    var after := Run(b, steps).globals;
    forall k | k in after
      ensures SeenAt(after[k], since) <==> StampedSince(b, steps, k, since)
    { SeenExactly(b, steps, k, since); }
  }

  /** No row that the table had changes its URL in the run. */
  predicate UrlsKept(b: Board, steps: seq<Step>) {
    forall k :: k in b.globals ==> k in Run(b, steps).globals && Run(b, steps).globals[k].url == b.globals[k].url
  }

  /** While URLs do not change, a job that resurfaced at `since` is never vanished at a cutoff up to `since`, then and later. */
  lemma ResurfacedStays(jobs: Jobs, b: Board, user: User, id: JobId, since: int, steps: seq<Step>, later: Jobs, cutoff: int,
                        platform: Word, companies: seq<Text>)
    requires SeenInPast(b) && Resurfaced(jobs, b.globals, user, id, since) && UrlsKept(b, steps) && cutoff <= since
    requires id in later && later[id].globalId == jobs[id].globalId
    ensures !Vanished(later, Run(b, steps).globals, user, id, platform, companies, cutoff)
  {
    var g := jobs[id].globalId.v;
    var k: GlobalId :| k in b.globals && Same(b.globals[k].url, b.globals[g].url) && SeenAt(b.globals[k], since);
    SeenExactly(b, steps, k, cutoff);
    var after := Run(b, steps).globals;
    assert Same(after[k].url, after[g].url) && SeenAt(after[k], cutoff);
    assert SeenSince(after, after[g].url, cutoff);
  }

  /** The condition is needed: a harvest that moves the sighted twin to another URL makes the reopened job vanish at the same cutoff. */
  lemma MovedUrlVanishesAgain(jobs: Jobs, b: Board, user: User, id: JobId, since: int, harvester: User, move: Lead, reopened: Jobs, platform: Word)
    requires SeenInPast(b) && Resurfaced(jobs, b.globals, user, id, since)
    requires ShouldHarvest(move) && move.id in b.globals && move.id != jobs[id].globalId.v && platform != Blank
    requires var g := b.globals[jobs[id].globalId.v];
             Is(g.platform, platform) && g.company.Val? && g.lastSeen.Val? && g.lastSeen.v < since && g.url != Val(move.url) &&
             forall k :: k in b.globals && k != move.id && Same(b.globals[k].url, g.url) ==> !SeenAt(b.globals[k], since)
    requires id in reopened && reopened[id].globalId == jobs[id].globalId && P.CloseCandidate(reopened[id], user)
    ensures var g := b.globals[jobs[id].globalId.v];
            Vanished(reopened, Run(b, [Harvest(harvester, move)]).globals, user, id, platform, [g.company.v], since)
  {
    var step := Harvest(harvester, move);
    assert Run(b, [step]) == After(b, step) by { assert [step][..0] == []; }
    var g := b.globals[jobs[id].globalId.v];
    var after := After(b, step).globals;
    assert after[jobs[id].globalId.v] == g;
    assert !SeenSince(after, g.url, since);
  }

  // ---------------------------------------------------------------- the longest description is kept

  /** The hash belongs to the description. */
  predicate HashFits(g: Global, hash: string -> Text) {
    g.description.Val? ==> g.descriptionHash == Val(hash(g.description.v))
  }

  /** Over any run a row keeps its first sighting, its description never gets shorter, and the hash stays that of the description. */
  lemma {:induction false} DescriptionsGrow(b: Board, steps: seq<Step>, k: GlobalId, hash: string -> Text)
    requires k in b.globals && HashFits(b.globals[k], hash)
    requires forall i :: 0 <= i < |steps| && steps[i].Harvest? ==> steps[i].lead.hash == hash(steps[i].lead.description)
    ensures k in Run(b, steps).globals
    ensures var g := Run(b, steps).globals[k];
            g.firstSeenBy == b.globals[k].firstSeenBy && g.firstSeenAt == b.globals[k].firstSeenAt && HashFits(g, hash) &&
            Length(g.description) >= Length(b.globals[k].description)
  {
    if steps != [] { DescriptionsGrow(b, steps[..|steps| - 1], k, hash); }
  }

  /** So a row ends with a description at least as long as each one that was harvested for it. */
  lemma {:induction false} LongestIsKept(b: Board, steps: seq<Step>, i: nat)
    requires i < |steps| && steps[i].Harvest? && ShouldHarvest(steps[i].lead)
    ensures var l := steps[i].lead;
            l.id in Run(b, steps).globals && Length(Run(b, steps).globals[l.id].description) >= |l.description|
  {
    if i < |steps| - 1 { LongestIsKept(b, steps[..|steps| - 1], i); }
  }
}

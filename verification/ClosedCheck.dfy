/** closedcheck.go: concurrent CheckJob calls that share one probe cache, one atomic step of one call at a time. */
module ClosedCheck {
  import opened Sql

  type Slug = nat
  type PostingId = nat
  type ThreadId = nat
  type MutexId = nat

  datatype Platform = Greenhouse | Ashby | Gem
  datatype Eligibility = Eligibility(platform: Platform, slug: Slug, job: PostingId)
  datatype Verdict = Open | Closed

  // ---------------------------------------------------------------- answers of the network

  /** What a fetch brings back: `closedPhrase` says that the body matches the closed-posting pattern, `board` is its parsed job list. */
  datatype Response =
    | Failed
    | NoAnswer
    | Answer(code: nat, closedPhrase: bool, board: Opt<set<PostingId>>)

  /** What CheckJob returns. */
  datatype Outcome = Skip | Error | Known(verdict: Verdict)

  predicate IsGone(code: nat) { code == 404 || code == 410 }

  /** checkGreenhouse and checkGem on one response. */
  function Judge(p: Platform, r: Response): Outcome {
    match r
    case Failed => Error
    case NoAnswer => Skip
    case Answer(code, closedPhrase, _) =>
      if IsGone(code) then Known(Closed)
      else if p == Greenhouse && 400 <= code < 500 && code != 429 && closedPhrase then Known(Closed)
      else Known(Open)
  }

  /** checkAshby on one response: only a 2xx answer that parses gives a board. */
  function BoardOf(r: Response): Opt<set<PostingId>> {
    match r
    case Answer(code, _, board) => if 200 <= code < 300 then board else Null
    case _ => Null
  }

  function OnBoard(board: set<PostingId>, job: PostingId): Verdict { if job in board then Open else Closed }

  // ---------------------------------------------------------------- the state

  /** Where a CheckJob call stands. */
  datatype Phase =
    | Starting(job: Opt<Eligibility>)
    | Probing(e: Eligibility)
    | Locking(e: Eligibility)
    | Waiting(e: Eligibility, m: MutexId)
    | Reading(e: Eligibility, m: MutexId)
    | Fetching(e: Eligibility, m: MutexId)
    | Storing(e: Eligibility, m: MutexId, board: set<PostingId>)
    | Unlocking(e: Eligibility, m: MutexId, board: set<PostingId>)
    | Aborting(e: Eligibility, m: MutexId, outcome: Outcome)
    | Caching(e: Eligibility, verdict: Verdict)
    | Finished(job: Opt<Eligibility>, outcome: Outcome)

  /** The shared Cache, the threads, and a record of the answers seen and the boards stored. */
  datatype State = State(
    verdicts: map<Eligibility, Verdict>,
    ashby: map<Slug, set<PostingId>>,
    slugMu: map<Slug, MutexId>,
    nextMutex: MutexId,
    held: map<MutexId, ThreadId>,
    threads: map<ThreadId, Phase>,
    answers: set<(Eligibility, Response)>,
    stores: seq<Slug>)

  datatype Act = Spawn(t: ThreadId, job: Opt<Eligibility>) | Advance(t: ThreadId, response: Response)

  const EMPTY_CACHE := State(map[], map[], map[], 0, map[], map[], {}, [])

  /** Between taking the slug lock and releasing it. */
  predicate InCritical(p: Phase) { p.Reading? || p.Fetching? || p.Storing? || p.Unlocking? || p.Aborting? }

  /** Only taking a held lock blocks. */
  predicate CanAdvance(s: State, t: ThreadId) {
    t in s.threads && !s.threads[t].Finished? && (s.threads[t].Waiting? ==> s.threads[t].m !in s.held)
  }

  function Begin(s: State, job: Opt<Eligibility>): Phase {
    match job
    case Null => Finished(job, Skip)
    case Val(e) =>
      if e in s.verdicts then Finished(job, Known(s.verdicts[e]))
      else if e.platform == Ashby then Locking(e)
      else Probing(e)
  }

  function AfterProbe(e: Eligibility, o: Outcome): Phase {
    if o.Known? then Caching(e, o.verdict) else Finished(Val(e), o)
  }

  function AfterFetch(e: Eligibility, m: MutexId, r: Response): Phase {
    match BoardOf(r)
    case Val(board) => Storing(e, m, board)
    case Null => Aborting(e, m, if r.Failed? then Error else Skip)
  }

  /** The thread's phase after its step. */
  function NextPhase(s: State, p: Phase, r: Response): Phase
    requires !p.Finished?
  {
    match p
    case Starting(job) => Begin(s, job)
    case Probing(e) => AfterProbe(e, Judge(e.platform, r))
    case Locking(e) => Waiting(e, if e.slug in s.slugMu then s.slugMu[e.slug] else s.nextMutex)
    case Waiting(e, m) => Reading(e, m)
    case Reading(e, m) => if e.slug in s.ashby then Unlocking(e, m, s.ashby[e.slug]) else Fetching(e, m)
    case Fetching(e, m) => AfterFetch(e, m, r)
    case Storing(e, m, board) => Unlocking(e, m, board)
    case Unlocking(e, m, board) => Caching(e, OnBoard(board, e.job))
    case Aborting(e, m, outcome) => Finished(Val(e), outcome)
    case Caching(e, verdict) => Finished(Val(e), Known(verdict))
  }

  /** What the step does to the shared cache and its locks. */
  function NextShared(s: State, t: ThreadId, p: Phase, r: Response): State {
    match p
    case Locking(e) =>
      if e.slug in s.slugMu then s else s.(slugMu := s.slugMu[e.slug := s.nextMutex], nextMutex := s.nextMutex + 1)
    case Waiting(e, m) => s.(held := s.held[m := t])
    case Probing(e) => s.(answers := s.answers + {(e, r)})
    case Fetching(e, m) => s.(answers := s.answers + {(e, r)})
    case Storing(e, m, board) => s.(ashby := s.ashby[e.slug := board], stores := s.stores + [e.slug])
    case Unlocking(e, m, board) => s.(held := s.held - {m})
    case Aborting(e, m, outcome) => s.(held := s.held - {m})
    case Caching(e, verdict) => s.(verdicts := s.verdicts[e := verdict])
    case _ => s
  }

  /** One atomic step of thread `t`; `r` is the answer when the step is a fetch. */
  function Next(s: State, t: ThreadId, r: Response): State
    requires CanAdvance(s, t)
  {
    NextShared(s, t, s.threads[t], r).(threads := s.threads[t := NextPhase(s, s.threads[t], r)])
  }

  function Step(s: State, a: Act): State {
    match a
    case Spawn(t, job) => if t in s.threads then s else s.(threads := s.threads[t := Starting(job)])
    case Advance(t, r) => if CanAdvance(s, t) then Next(s, t, r) else s
  }

  function Run(s: State, acts: seq<Act>): State {
    if acts == [] then s else Step(Run(s, acts[..|acts| - 1]), acts[|acts| - 1])
  }

  // ---------------------------------------------------------------- locks

  /** A thread in the critical section of its slug holds the slug's one mutex, and every held mutex has such a thread. */
  predicate LockInv(s: State) {
    (forall g :: g in s.slugMu ==> s.slugMu[g] < s.nextMutex) &&
    (forall g, h :: g in s.slugMu && h in s.slugMu && s.slugMu[g] == s.slugMu[h] ==> g == h) &&
    (forall t :: t in s.threads && (s.threads[t].Waiting? || InCritical(s.threads[t])) ==>
       s.threads[t].e.slug in s.slugMu && s.threads[t].m == s.slugMu[s.threads[t].e.slug]) &&
    (forall t :: t in s.threads && InCritical(s.threads[t]) ==> s.threads[t].m in s.held && s.held[s.threads[t].m] == t) &&
    (forall m :: m in s.held ==>
       s.held[m] in s.threads && InCritical(s.threads[s.held[m]]) && s.threads[s.held[m]].m == m)
  }

  /** A step outside lock handling keeps the thread on its side of the lock. */
  lemma PhaseKeepsLock(s: State, p: Phase, r: Response)
    requires !p.Finished? && !p.Locking? && !p.Waiting? && !p.Unlocking? && !p.Aborting?
    ensures var q := NextPhase(s, p, r);
            !q.Waiting? && InCritical(q) == InCritical(p) && (InCritical(p) ==> q.e == p.e && q.m == p.m)
  {
  }

  lemma QuietKeepsLock(s: State, s': State, t: ThreadId, q: Phase)
    requires LockInv(s) && t in s.threads && s'.threads == s.threads[t := q]
    requires s'.slugMu == s.slugMu && s'.nextMutex == s.nextMutex && s'.held == s.held
    requires !q.Waiting? && InCritical(q) == InCritical(s.threads[t])
    requires InCritical(q) ==> q.e == s.threads[t].e && q.m == s.threads[t].m
    ensures LockInv(s')
  {
  }

  /** A new mutex for a slug that has none. */
  lemma NewMutexKeepsLock(s: State, g: Slug)
    requires LockInv(s) && g !in s.slugMu
    ensures LockInv(s.(slugMu := s.slugMu[g := s.nextMutex], nextMutex := s.nextMutex + 1))
  {
  }

  lemma WaitKeepsLock(s: State, t: ThreadId, e: Eligibility)
    requires LockInv(s) && t in s.threads && !InCritical(s.threads[t]) && e.slug in s.slugMu
    ensures LockInv(s.(threads := s.threads[t := Waiting(e, s.slugMu[e.slug])]))
  {
  }

  lemma AskKeepsLock(s: State, t: ThreadId, r: Response)
    requires LockInv(s) && CanAdvance(s, t) && s.threads[t].Locking?
    ensures LockInv(Next(s, t, r))
  {
    var e := s.threads[t].e;
    hide LockInv, Next;
    AskMakesMutex(s, t, r);
    var made := if e.slug in s.slugMu then s else s.(slugMu := s.slugMu[e.slug := s.nextMutex], nextMutex := s.nextMutex + 1);
    if e.slug !in s.slugMu { NewMutexKeepsLock(s, e.slug); }
    WaitKeepsLock(made, t, e);
  }

  lemma AskMakesMutex(s: State, t: ThreadId, r: Response)
    requires CanAdvance(s, t) && s.threads[t].Locking?
    ensures var e := s.threads[t].e;
            var made := if e.slug in s.slugMu then s else s.(slugMu := s.slugMu[e.slug := s.nextMutex], nextMutex := s.nextMutex + 1);
            Next(s, t, r) == made.(threads := made.threads[t := Waiting(e, made.slugMu[e.slug])])
  {
  }

  lemma TakeKeepsLock(s: State, t: ThreadId, r: Response)
    requires LockInv(s) && CanAdvance(s, t) && s.threads[t].Waiting?
    ensures LockInv(Next(s, t, r))
  {
  }

  lemma ReleaseKeepsLock(s: State, t: ThreadId, r: Response)
    requires LockInv(s) && CanAdvance(s, t) && (s.threads[t].Unlocking? || s.threads[t].Aborting?)
    ensures LockInv(Next(s, t, r))
  {
    var q := NextPhase(s, s.threads[t], r);
    assert !q.Waiting? && !InCritical(q);
  }

  lemma QuietStepKeepsLock(s: State, t: ThreadId, r: Response)
    requires LockInv(s) && CanAdvance(s, t)
    requires var p := s.threads[t]; !p.Locking? && !p.Waiting? && !p.Unlocking? && !p.Aborting?
    ensures LockInv(Next(s, t, r))
  {
    hide LockInv, InCritical, NextPhase;
    PhaseKeepsLock(s, s.threads[t], r);
    QuietKeepsLock(s, Next(s, t, r), t, NextPhase(s, s.threads[t], r));
  }

  lemma SpawnKeepsLock(s: State, t: ThreadId, job: Opt<Eligibility>)
    requires LockInv(s) && t !in s.threads
    ensures LockInv(s.(threads := s.threads[t := Starting(job)]))
  {
  }

  lemma LockStep(s: State, a: Act)
    requires LockInv(s)
    ensures LockInv(Step(s, a))
  {
    hide LockInv, Next;
    if a.Spawn? {
      if a.t !in s.threads { SpawnKeepsLock(s, a.t, a.job); }
    } else if CanAdvance(s, a.t) {
      var p := s.threads[a.t];
      if p.Locking? {
        AskKeepsLock(s, a.t, a.response);
      } else if p.Waiting? {
        TakeKeepsLock(s, a.t, a.response);
      } else if p.Unlocking? || p.Aborting? {
        ReleaseKeepsLock(s, a.t, a.response);
      } else {
        QuietStepKeepsLock(s, a.t, a.response);
      }
    }
  }

  // ---------------------------------------------------------------- one board per slug

  function TimesStored(stores: seq<Slug>, g: Slug): nat {
    if stores == [] then 0 else TimesStored(stores[..|stores| - 1], g) + if stores[|stores| - 1] == g then 1 else 0
  }

  /** A board is stored exactly when the slug has one; a thread about to store finds none, and one past the read has it. */
  ghost predicate BoardInv(s: State) {
    (forall g :: TimesStored(s.stores, g) == if g in s.ashby then 1 else 0) &&
    (forall t :: t in s.threads ==> PhaseBoardOk(s.ashby, s.threads[t]))
  }

  lemma StoredOnceMore(stores: seq<Slug>, g: Slug, h: Slug)
    ensures TimesStored(stores + [g], h) == TimesStored(stores, h) + if g == h then 1 else 0
  {
    assert (stores + [g])[..|stores|] == stores;
  }

  lemma StoreKeepsBoards(s: State, t: ThreadId, r: Response)
    requires LockInv(s) && BoardInv(s) && CanAdvance(s, t) && s.threads[t].Storing?
    ensures BoardInv(Next(s, t, r)) && s.threads[t].e.slug !in s.ashby
  {
    var e := s.threads[t].e;
    var s' := Next(s, t, r);
    forall g
      ensures TimesStored(s'.stores, g) == if g in s'.ashby then 1 else 0
    { StoredOnceMore(s.stores, e.slug, g); }
    forall u | u in s.threads && u != t && (s.threads[u].Fetching? || s.threads[u].Storing?)
      ensures s.threads[u].e.slug != e.slug
    { assert InCritical(s.threads[u]) && InCritical(s.threads[t]); }
  }

  /** What the invariant asks of one thread. */
  predicate PhaseBoardOk(ashby: map<Slug, set<PostingId>>, p: Phase) {
    ((p.Fetching? || p.Storing?) ==> p.e.slug !in ashby) &&
    (p.Unlocking? ==> p.e.slug in ashby && ashby[p.e.slug] == p.board)
  }

  lemma NextPhaseBoardOk(s: State, p: Phase, r: Response)
    requires !p.Finished? && !p.Storing? && PhaseBoardOk(s.ashby, p)
    ensures PhaseBoardOk(s.ashby, NextPhase(s, p, r))
  {
  }

  lemma OtherKeepsBoards(s: State, t: ThreadId, r: Response)
    requires BoardInv(s) && CanAdvance(s, t) && !s.threads[t].Storing?
    ensures BoardInv(Next(s, t, r)) && Next(s, t, r).ashby == s.ashby
  {
    NextPhaseBoardOk(s, s.threads[t], r);
    var s' := Next(s, t, r);
    assert s'.ashby == s.ashby && s'.stores == s.stores;
  }

  lemma BoardStep(s: State, a: Act)
    requires LockInv(s) && BoardInv(s)
    ensures BoardInv(Step(s, a))
    ensures forall g :: g in s.ashby ==> g in Step(s, a).ashby && Step(s, a).ashby[g] == s.ashby[g]
  {
    if a.Advance? && CanAdvance(s, a.t) {
      if s.threads[a.t].Storing? { StoreKeepsBoards(s, a.t, a.response); } else { OtherKeepsBoards(s, a.t, a.response); }
    }
  }

  // ---------------------------------------------------------------- verdicts agree with the board and have evidence

  /**
   * What an answer says of a posting, by its status code. Greenhouse and Gem: 404 and 410 close it, and on Greenhouse any
   * other 4xx but 429 that carries the closed phrase; every other code leaves it open. Ashby: a 2xx answer with a board says
   * closed exactly when the board does not list the posting, and no other answer says anything.
   */
  predicate Says(e: Eligibility, r: Response, v: Verdict) {
    r.Answer? &&
    match e.platform
    case Greenhouse =>
      v == if r.code == 404 || r.code == 410 || (400 <= r.code <= 499 && r.code != 429 && r.closedPhrase) then Closed else Open
    case Gem => v == if r.code == 404 || r.code == 410 then Closed else Open
    case Ashby => 200 <= r.code <= 299 && r.board.Val? && (e.job in r.board.v <==> v == Open)
  }

  /** Some answer to a fetch for the same posting, or for the same Ashby board, says so. */
  predicate HasEvidence(s: State, e: Eligibility, v: Verdict) {
    exists x :: x in s.answers && x.0.platform == e.platform && x.0.slug == e.slug
                && (e.platform != Ashby ==> x.0.job == e.job) && Says(e, x.1, v)
  }

  predicate BoardSeen(s: State, g: Slug, board: set<PostingId>) {
    exists x :: x in s.answers && x.0.platform == Ashby && x.0.slug == g && BoardOf(x.1) == Val(board)
  }

  /** An Ashby verdict is what the slug's board says, and every verdict has evidence. */
  predicate Sound(s: State, e: Eligibility, v: Verdict) {
    (e.platform == Ashby ==> e.slug in s.ashby && v == OnBoard(s.ashby[e.slug], e.job)) &&
    HasEvidence(s, e, v)
  }

  predicate PhaseSound(s: State, p: Phase) {
    match p
    case Probing(e) => e.platform != Ashby
    case Locking(e) => e.platform == Ashby
    case Waiting(e, _) => e.platform == Ashby
    case Reading(e, _) => e.platform == Ashby
    case Fetching(e, _) => e.platform == Ashby
    case Storing(e, _, board) => e.platform == Ashby && BoardSeen(s, e.slug, board)
    case Unlocking(e, _, _) => e.platform == Ashby
    case Aborting(_, _, outcome) => !outcome.Known?
    case Caching(e, v) => Sound(s, e, v)
    case Finished(job, o) => o.Known? ==> job.Val? && Sound(s, job.v, o.verdict)
    case Starting(_) => true
  }

  predicate VerdictInv(s: State) {
    (forall g :: g in s.ashby ==> BoardSeen(s, g, s.ashby[g])) &&
    (forall e :: e in s.verdicts ==> Sound(s, e, s.verdicts[e])) &&
    (forall t :: t in s.threads ==> PhaseSound(s, s.threads[t]))
  }

  /** More answers and more boards, old boards kept. */
  predicate Grows(s: State, s': State) {
    s.answers <= s'.answers && forall g :: g in s.ashby ==> g in s'.ashby && s'.ashby[g] == s.ashby[g]
  }

  lemma SoundGrows(s: State, s': State, e: Eligibility, v: Verdict)
    requires Grows(s, s') && Sound(s, e, v)
    ensures Sound(s', e, v)
  {
    var x :| x in s.answers && x.0.platform == e.platform && x.0.slug == e.slug
             && (e.platform != Ashby ==> x.0.job == e.job) && Says(e, x.1, v);
    assert x in s'.answers;
  }

  lemma BoardSeenGrows(s: State, s': State, g: Slug, board: set<PostingId>)
    requires Grows(s, s') && BoardSeen(s, g, board)
    ensures BoardSeen(s', g, board)
  {
    var x :| x in s.answers && x.0.platform == Ashby && x.0.slug == g && BoardOf(x.1) == Val(board);
    assert x in s'.answers;
  }

  lemma PhaseSoundGrows(s: State, s': State, p: Phase)
    requires Grows(s, s') && PhaseSound(s, p)
    ensures PhaseSound(s', p)
  {
    match p
    case Storing(e, _, board) => BoardSeenGrows(s, s', e.slug, board);
    case Caching(e, v) => SoundGrows(s, s', e, v);
    case Finished(job, o) => if o.Known? { SoundGrows(s, s', job.v, o.verdict); }
    case _ =>
  }

  /** The board's word for a posting is a sound verdict. */
  lemma BoardVerdictSound(s: State, e: Eligibility)
    requires e.platform == Ashby && e.slug in s.ashby && BoardSeen(s, e.slug, s.ashby[e.slug])
    ensures Sound(s, e, OnBoard(s.ashby[e.slug], e.job))
  {
    var x :| x in s.answers && x.0.platform == Ashby && x.0.slug == e.slug && BoardOf(x.1) == Val(s.ashby[e.slug]);
    assert Says(e, x.1, OnBoard(s.ashby[e.slug], e.job));
  }

  lemma ProbeVerdictSound(s: State, e: Eligibility, r: Response)
    requires e.platform != Ashby && (e, r) in s.answers && Judge(e.platform, r).Known?
    ensures Sound(s, e, Judge(e.platform, r).verdict)
  {
    var x := (e, r);
    assert x in s.answers && Says(e, x.1, Judge(e.platform, r).verdict);
  }

  /** The thread's own next phase is sound in the next state. */
  lemma MoverSound(s: State, t: ThreadId, r: Response)
    requires CanAdvance(s, t) && BoardInv(s) && VerdictInv(s) && Grows(s, Next(s, t, r))
    ensures PhaseSound(Next(s, t, r), Next(s, t, r).threads[t])
  {
    var s' := Next(s, t, r);
    assert PhaseSound(s, s.threads[t]);
    match s.threads[t] {
      case Starting(job) => if job.Val? && job.v in s.verdicts { SoundGrows(s, s', job.v, s.verdicts[job.v]); }
      case Probing(e) => if Judge(e.platform, r).Known? { ProbeVerdictSound(s', e, r); }
      case Fetching(e, m) =>
        if BoardOf(r).Val? {
          var x := (e, r);
          assert x in s'.answers && BoardOf(x.1) == Val(BoardOf(r).v);
        }
      case Unlocking(e, m, board) =>
        BoardSeenGrows(s, s', e.slug, board);
        BoardVerdictSound(s', e);
      case Caching(e, v) => SoundGrows(s, s', e, v);
      case _ =>
    }
  }

  lemma StepGrows(s: State, a: Act)
    requires LockInv(s) && BoardInv(s)
    ensures Grows(s, Step(s, a))
  {
    BoardStep(s, a);
  }

  lemma BoardsStaySeen(s: State, t: ThreadId, r: Response, g: Slug)
    requires CanAdvance(s, t) && VerdictInv(s) && Grows(s, Next(s, t, r)) && g in Next(s, t, r).ashby
    ensures BoardSeen(Next(s, t, r), g, Next(s, t, r).ashby[g])
  {
    var s' := Next(s, t, r);
    assert PhaseSound(s, s.threads[t]);
    assert g in s.ashby || (s.threads[t].Storing? && g == s.threads[t].e.slug);
    BoardSeenGrows(s, s', g, s'.ashby[g]);
  }

  lemma VerdictsStaySound(s: State, t: ThreadId, r: Response, e: Eligibility)
    requires CanAdvance(s, t) && VerdictInv(s) && Grows(s, Next(s, t, r)) && e in Next(s, t, r).verdicts
    ensures Sound(Next(s, t, r), e, Next(s, t, r).verdicts[e])
  {
    var s' := Next(s, t, r);
    assert PhaseSound(s, s.threads[t]);
    assert (e in s.verdicts && s'.verdicts[e] == s.verdicts[e]) || s.threads[t] == Caching(e, s'.verdicts[e]);
    SoundGrows(s, s', e, s'.verdicts[e]);
  }

  lemma ThreadsStaySound(s: State, t: ThreadId, r: Response, u: ThreadId)
    requires CanAdvance(s, t) && BoardInv(s) && VerdictInv(s) && Grows(s, Next(s, t, r)) && u in s.threads
    ensures PhaseSound(Next(s, t, r), Next(s, t, r).threads[u])
  {
    if u == t {
      MoverSound(s, t, r);
    } else {
      assert Next(s, t, r).threads[u] == s.threads[u];
      PhaseSoundGrows(s, Next(s, t, r), s.threads[u]);
    }
  }

  lemma SpawnKeepsVerdicts(s: State, t: ThreadId, job: Opt<Eligibility>)
    requires VerdictInv(s) && t !in s.threads
    ensures VerdictInv(s.(threads := s.threads[t := Starting(job)]))
  {
    var s' := s.(threads := s.threads[t := Starting(job)]);
    forall e | e in s'.verdicts ensures Sound(s', e, s'.verdicts[e]) { SoundGrows(s, s', e, s.verdicts[e]); }
    forall g | g in s'.ashby ensures BoardSeen(s', g, s'.ashby[g]) { BoardSeenGrows(s, s', g, s.ashby[g]); }
    forall u | u in s'.threads
      ensures PhaseSound(s', s'.threads[u])
    { if u != t { PhaseSoundGrows(s, s', s.threads[u]); } }
  }

  lemma AdvanceKeepsVerdicts(s: State, t: ThreadId, r: Response)
    requires CanAdvance(s, t) && BoardInv(s) && VerdictInv(s) && Grows(s, Next(s, t, r))
    ensures VerdictInv(Next(s, t, r))
  {
    var s' := Next(s, t, r);
    forall e | e in s'.verdicts ensures Sound(s', e, s'.verdicts[e]) { VerdictsStaySound(s, t, r, e); }
    forall g | g in s'.ashby ensures BoardSeen(s', g, s'.ashby[g]) { BoardsStaySeen(s, t, r, g); }
    forall u | u in s'.threads ensures PhaseSound(s', s'.threads[u]) { ThreadsStaySound(s, t, r, u); }
  }

  lemma VerdictStep(s: State, a: Act)
    requires LockInv(s) && BoardInv(s) && VerdictInv(s)
    ensures VerdictInv(Step(s, a))
  {
    StepGrows(s, a);
    match a
    case Spawn(t, job) => if t !in s.threads { SpawnKeepsVerdicts(s, t, job); }
    case Advance(t, r) => if CanAdvance(s, t) { AdvanceKeepsVerdicts(s, t, r); }
  }

  // ---------------------------------------------------------------- every run

  lemma {:induction false} RunInv(acts: seq<Act>)
    ensures LockInv(Run(EMPTY_CACHE, acts)) && BoardInv(Run(EMPTY_CACHE, acts)) && VerdictInv(Run(EMPTY_CACHE, acts))
  {
    if acts != [] {
      var s := Run(EMPTY_CACHE, acts[..|acts| - 1]);
      RunInv(acts[..|acts| - 1]);
      LockStep(s, acts[|acts| - 1]);
      BoardStep(s, acts[|acts| - 1]);
      VerdictStep(s, acts[|acts| - 1]);
    }
  }

  /** In every interleaving at most one board is stored per slug. */
  lemma OneBoardPerSlug(acts: seq<Act>, g: Slug)
    ensures TimesStored(Run(EMPTY_CACHE, acts).stores, g) <= 1
  {
    RunInv(acts);
  }

  /** All verdicts returned for one Ashby slug in a sweep come from the same board. */
  lemma AshbyVerdictsAgree(acts: seq<Act>, t: ThreadId, u: ThreadId)
    requires var s := Run(EMPTY_CACHE, acts);
             t in s.threads && u in s.threads && s.threads[t].Finished? && s.threads[u].Finished? &&
             s.threads[t].outcome.Known? && s.threads[u].outcome.Known? &&
             s.threads[t].job.Val? && s.threads[u].job.Val? &&
             s.threads[t].job.v.platform == Ashby && s.threads[u].job.v.platform == Ashby &&
             s.threads[t].job.v.slug == s.threads[u].job.v.slug
    ensures var s := Run(EMPTY_CACHE, acts);
            exists board :: s.threads[t].outcome.verdict == OnBoard(board, s.threads[t].job.v.job)
                         && s.threads[u].outcome.verdict == OnBoard(board, s.threads[u].job.v.job)
                         && BoardSeen(s, s.threads[t].job.v.slug, board)
  {
    RunInv(acts);
    var s := Run(EMPTY_CACHE, acts);
    assert PhaseSound(s, s.threads[t]) && PhaseSound(s, s.threads[u]);
    var board := s.ashby[s.threads[t].job.v.slug];
    assert s.threads[t].outcome.verdict == OnBoard(board, s.threads[t].job.v.job);
  }

  /** Nothing is returned or cached as closed, or as open, without an answer that says so. */
  lemma VerdictHasEvidence(acts: seq<Act>, e: Eligibility, t: ThreadId, v: Verdict)
    requires var s := Run(EMPTY_CACHE, acts);
             (e in s.verdicts && s.verdicts[e] == v) ||
             (t in s.threads && s.threads[t] == Finished(Val(e), Known(v)))
    ensures HasEvidence(Run(EMPTY_CACHE, acts), e, v)
  {
    RunInv(acts);
    var s := Run(EMPTY_CACHE, acts);
    if t in s.threads && s.threads[t] == Finished(Val(e), Known(v)) { assert PhaseSound(s, s.threads[t]); }
  }

  // ---------------------------------------------------------------- the answer decides what the call returns

  /** What a call returns after its fetch was answered with `r`. */
  predicate Decides(e: Eligibility, r: Response, o: Outcome) {
    match o
    case Error => r.Failed?
    case Known(v) => Says(e, r, v)
    case Skip => !r.Failed? && !Says(e, r, Open) && !Says(e, r, Closed)
  }

  /** The call has nothing left to find out. */
  predicate Settled(p: Phase, e: Eligibility, r: Response) {
    match p
    case Storing(e', _, board) => e' == e && Says(e, r, OnBoard(board, e.job))
    case Unlocking(e', _, board) => e' == e && Says(e, r, OnBoard(board, e.job))
    case Aborting(e', _, o) => e' == e && Decides(e, r, o)
    case Caching(e', v) => e' == e && Says(e, r, v)
    case Finished(job, o) => job == Val(e) && Decides(e, r, o)
    case _ => false
  }

  lemma AnswerSettles(s: State, t: ThreadId, r: Response)
    requires CanAdvance(s, t) && PhaseSound(s, s.threads[t]) && (s.threads[t].Probing? || s.threads[t].Fetching?)
    ensures Settled(Next(s, t, r).threads[t], s.threads[t].e, r)
  {
  }

  lemma SettledStays(s: State, a: Act, t: ThreadId, e: Eligibility, r: Response)
    requires t in s.threads && Settled(s.threads[t], e, r)
    ensures t in Step(s, a).threads && Settled(Step(s, a).threads[t], e, r)
  {
  }

  lemma {:induction false} SettledOverRun(s: State, acts: seq<Act>, t: ThreadId, e: Eligibility, r: Response)
    requires t in s.threads && Settled(s.threads[t], e, r)
    ensures t in Run(s, acts).threads && Settled(Run(s, acts).threads[t], e, r)
  {
    if acts != [] {
      SettledOverRun(s, acts[..|acts| - 1], t, e, r);
      SettledStays(Run(s, acts[..|acts| - 1]), acts[|acts| - 1], t, e, r);
    }
  }

  /**
   * Whatever other calls do after a call's fetch was answered, the call returns what that answer says: an error exactly for
   * a failed fetch, closed exactly by the codes that close, open by the others, and nothing where the answer says nothing.
   */
  lemma AnswerDecides(acts: seq<Act>, t: ThreadId, r: Response, more: seq<Act>)
    requires var s := Run(EMPTY_CACHE, acts); CanAdvance(s, t) && (s.threads[t].Probing? || s.threads[t].Fetching?)
    ensures var s := Run(EMPTY_CACHE, acts);
            var after := Run(Next(s, t, r), more);
            t in after.threads &&
            (after.threads[t].Finished? ==> after.threads[t].job == Val(s.threads[t].e) && Decides(s.threads[t].e, r, after.threads[t].outcome))
  {
    RunInv(acts);
    var s := Run(EMPTY_CACHE, acts);
    AnswerSettles(s, t, r);
    SettledOverRun(Next(s, t, r), more, t, s.threads[t].e, r);
  }

  /** A finished call holds no slug lock; a held lock belongs to a call that can take its next step. */
  lemma LocksAreReleased(acts: seq<Act>, m: MutexId)
    requires m in Run(EMPTY_CACHE, acts).held
    ensures var s := Run(EMPTY_CACHE, acts);
            s.held[m] in s.threads && !s.threads[s.held[m]].Finished? && CanAdvance(s, s.held[m])
  {
    RunInv(acts);
  }

  /** No deadlock: while a call is unfinished, some call can take a step. */
  lemma SomeThreadAdvances(acts: seq<Act>, t: ThreadId)
    requires t in Run(EMPTY_CACHE, acts).threads && !Run(EMPTY_CACHE, acts).threads[t].Finished?
    ensures exists u :: CanAdvance(Run(EMPTY_CACHE, acts), u)
  {
    RunInv(acts);
    var s := Run(EMPTY_CACHE, acts);
    if !CanAdvance(s, t) {
      assert CanAdvance(s, s.held[s.threads[t].m]);
    }
  }

  /** How many steps a call still has to take. */
  function StepsLeft(p: Phase): nat {
    match p
    case Starting(_) => 8 case Locking(_) => 7 case Waiting(_, _) => 6 case Reading(_, _) => 5 case Fetching(_, _) => 4
    case Storing(_, _, _) => 3 case Unlocking(_, _, _) => 2 case Aborting(_, _, _) => 1 case Probing(_) => 2
    case Caching(_, _) => 1 case Finished(_, _) => 0
  }

  /** Every call ends after at most eight of its own steps. */
  lemma StepsRunOut(s: State, t: ThreadId, r: Response)
    requires CanAdvance(s, t)
    ensures StepsLeft(Next(s, t, r).threads[t]) < StepsLeft(s.threads[t]) <= 8
    ensures forall u :: u in s.threads && u != t ==> Next(s, t, r).threads[u] == s.threads[u]
  {
  }
}

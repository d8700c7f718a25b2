/** The job-set cache over every sequence of lookups and stores; each is atomic under the cache's mutex, builds run in between. */
module JobSetCacheRuns {
  import opened Sql
  import opened JobSetCache

  datatype Op = Lookup(key: Key, sig: Sig, at: int) | Store(key: Key, sig: Sig, rows: Rows, at: int)

  function AfterOp(c: seq<Slot>, op: Op, maxEntries: nat, ttl: int): seq<Slot> {
    match op
    case Lookup(key, sig, at) => AfterLookup(c, key, sig, at, ttl)
    case Store(key, sig, rows, at) => AfterStore(c, Slot(key, sig, rows, at), maxEntries, ttl)
  }

  function RunOps(c: seq<Slot>, ops: seq<Op>, maxEntries: nat, ttl: int): seq<Slot> {
    if ops == [] then c else AfterOp(RunOps(c, ops[..|ops| - 1], maxEntries, ttl), ops[|ops| - 1], maxEntries, ttl)
  }

  /** The clock never goes back. */
  predicate ClockRuns(ops: seq<Op>) { forall i, j :: 0 <= i < j < |ops| ==> ops[i].at <= ops[j].at }

  /** Keys once, least recently used last, nothing used after `now`. */
  predicate Ordered(c: seq<Slot>, now: int) {
    (forall i, j :: 0 <= i < j < |c| ==> c[i].key != c[j].key && c[i].lastUsed >= c[j].lastUsed) &&
    (forall i :: 0 <= i < |c| ==> c[i].lastUsed <= now)
  }

  // ---------------------------------------------------------------- eviction

  /** Stopping at the first live entry from the back is complete: what stays is exactly the newest `maxEntries` live entries. */
  lemma {:induction false} EvictionExact(c: seq<Slot>, now: int, maxEntries: nat, ttl: int)
    requires Ordered(c, now)
    ensures var kept := Evicted(c, now, maxEntries, ttl);
            |kept| <= maxEntries && |kept| <= |c| && kept == c[..|kept|] &&
            forall i :: 0 <= i < |c| ==> (i < |kept| <==> i < maxEntries && now - c[i].lastUsed <= ttl)
  {
    if c != [] && (|c| > maxEntries || IdleExpired(c[|c| - 1], now, ttl)) {
      var init := c[..|c| - 1];
      EvictionExact(init, now, maxEntries, ttl);
      var kept := Evicted(c, now, maxEntries, ttl);
      forall i | 0 <= i < |init|
        ensures i < |kept| <==> i < maxEntries && now - c[i].lastUsed <= ttl
      { assert init[i] == c[i]; }
    }
  }

  // ---------------------------------------------------------------- order is kept

  lemma RemoveKeepsOrder(c: seq<Slot>, i: nat, now: int)
    requires Ordered(c, now) && i < |c|
    ensures Ordered(RemoveAt(c, i), now)
    ensures forall k :: 0 <= k < |c| - 1 ==> RemoveAt(c, i)[k].key != c[i].key
  {
  }

  lemma FrontKeepsOrder(s: Slot, c: seq<Slot>, now: int)
    requires Ordered(c, now) && s.lastUsed == now && forall k :: 0 <= k < |c| ==> c[k].key != s.key
    ensures Ordered([s] + c, now)
  {
  }

  lemma LookupKeepsOrder(c: seq<Slot>, key: Key, sig: Sig, now: int, ttl: int)
    requires Ordered(c, now)
    ensures Ordered(AfterLookup(c, key, sig, now, ttl), now)
    ensures |AfterLookup(c, key, sig, now, ttl)| <= |c|
  {
    match Position(c, key)
    case Null =>
    case Val(i) =>
      RemoveKeepsOrder(c, i, now);
      FrontKeepsOrder(c[i].(lastUsed := now), RemoveAt(c, i), now);
  }

  lemma ToFrontKeepsOrder(c: seq<Slot>, s: Slot)
    requires Ordered(c, s.lastUsed)
    ensures Ordered(ToFront(c, s), s.lastUsed)
  {
    match Position(c, s.key)
    case Null => FrontKeepsOrder(s, c, s.lastUsed);
    case Val(i) =>
      RemoveKeepsOrder(c, i, s.lastUsed);
      FrontKeepsOrder(s, RemoveAt(c, i), s.lastUsed);
  }

  lemma OpKeepsOrder(c: seq<Slot>, op: Op, maxEntries: nat, ttl: int)
    requires Ordered(c, op.at) && |c| <= maxEntries
    ensures var after := AfterOp(c, op, maxEntries, ttl);
            Ordered(after, op.at) && |after| <= maxEntries &&
            (op.Store? ==> forall i :: 0 <= i < |after| ==> op.at - after[i].lastUsed <= ttl)
  {
    match op
    case Lookup(key, sig, at) => LookupKeepsOrder(c, key, sig, at, ttl);
    case Store(key, sig, rows, at) =>
      ToFrontKeepsOrder(c, Slot(key, sig, rows, at));
      EvictionExact(ToFront(c, Slot(key, sig, rows, at)), at, maxEntries, ttl);
  }

  /**
   * Under a clock that never goes back, every sequence of operations keeps the keys unique, the list in order of use
   * and the size within the bound; after a store no idle-expired entry is left.
   */
  lemma {:induction false} CacheInvariant(ops: seq<Op>, maxEntries: nat, ttl: int)
    requires ClockRuns(ops)
    ensures var c := RunOps([], ops, maxEntries, ttl);
            |c| <= maxEntries && (ops != [] ==> Ordered(c, ops[|ops| - 1].at)) &&
            (ops != [] && ops[|ops| - 1].Store? ==>
               forall i :: 0 <= i < |c| ==> ops[|ops| - 1].at - c[i].lastUsed <= ttl)
  {
    if ops != [] {
      CacheInvariant(ops[..|ops| - 1], maxEntries, ttl);
      OpKeepsOrder(RunOps([], ops[..|ops| - 1], maxEntries, ttl), ops[|ops| - 1], maxEntries, ttl);
    }
  }

  // ---------------------------------------------------------------- a hit returns what was stored last

  /** The last store to a key. */
  function LastStore(ops: seq<Op>, key: Key): Opt<Op> {
    if ops == [] then Null
    else if ops[|ops| - 1].Store? && ops[|ops| - 1].key == key then Val(ops[|ops| - 1])
    else LastStore(ops[..|ops| - 1], key)
  }

  /** A slot holds the rows and the signature of the last store to its key. */
  predicate Faithful(c: seq<Slot>, ops: seq<Op>) {
    forall i :: 0 <= i < |c| ==> FaithfulSlot(c[i], ops)
  }

  predicate FaithfulSlot(s: Slot, ops: seq<Op>) {
    var last := LastStore(ops, s.key);
    last.Val? && last.v.Store? && last.v.sig == s.sig && last.v.rows == s.rows
  }

  /** A lookup only moves and drops slots, and stamps one. */
  lemma LookupSlot(c: seq<Slot>, key: Key, sig: Sig, at: int, ttl: int, i: nat) returns (j: nat)
    requires i < |AfterLookup(c, key, sig, at, ttl)|
    ensures j < |c|
    ensures var a := AfterLookup(c, key, sig, at, ttl)[i];
            a == c[j].(lastUsed := a.lastUsed)
  {
    hide Position;
    match Position(c, key)
    case Null => j := i;
    case Val(p) =>
      if !Serves(c, key, sig, at, ttl) {
        j := RemainingSlot(c, p, i);
      } else if i == 0 {
        j := p;
      } else {
        j := RemainingSlot(c, p, i - 1);
      }
  }

  lemma RemainingSlot(c: seq<Slot>, p: nat, i: nat) returns (j: nat)
    requires p < |c| && i < |RemoveAt(c, p)|
    ensures j < |c| && RemoveAt(c, p)[i] == c[j]
  {
    j := if i < p then i else i + 1;
  }

  /** A store puts its slot in front and keeps no other slot of the key. */
  lemma FrontSlot(c: seq<Slot>, s: Slot, i: nat) returns (j: nat)
    requires Ordered(c, s.lastUsed) && 0 < i < |ToFront(c, s)|
    ensures j < |c| && ToFront(c, s)[i] == c[j] && c[j].key != s.key
  {
    match Position(c, s.key)
    case Null => j := i - 1;
    case Val(p) => j := if i <= p then i - 1 else i;
  }

  lemma OpKeepsFaithful(c: seq<Slot>, ops: seq<Op>, maxEntries: nat, ttl: int)
    requires ops != [] && Faithful(c, ops[..|ops| - 1]) && Ordered(c, ops[|ops| - 1].at)
    ensures Faithful(AfterOp(c, ops[|ops| - 1], maxEntries, ttl), ops)
  {
    var op := ops[|ops| - 1];
    var after := AfterOp(c, op, maxEntries, ttl);
    match op {
      case Lookup(key, sig, at) =>
        forall i | 0 <= i < |after|
          ensures FaithfulSlot(after[i], ops)
        {
          var j := LookupSlot(c, key, sig, at, ttl, i);
          assert FaithfulSlot(c[j], ops[..|ops| - 1]);
        }
      case Store(key, sig, rows, at) =>
        var s := Slot(key, sig, rows, at);
        ToFrontKeepsOrder(c, s);
        EvictionExact(ToFront(c, s), at, maxEntries, ttl);
        forall i | 0 <= i < |after|
          ensures FaithfulSlot(after[i], ops)
        {
          assert after[i] == ToFront(c, s)[i];
          if i > 0 {
            var j := FrontSlot(c, s, i);
            assert FaithfulSlot(c[j], ops[..|ops| - 1]);
          }
        }
    }
  }

  lemma {:induction false} CacheFaithful(ops: seq<Op>, maxEntries: nat, ttl: int)
    requires ClockRuns(ops)
    ensures Faithful(RunOps([], ops, maxEntries, ttl), ops)
  {
    if ops != [] {
      var init := ops[..|ops| - 1];
      CacheFaithful(init, maxEntries, ttl);
      CacheInvariant(init, maxEntries, ttl);
      OpKeepsFaithful(RunOps([], init, maxEntries, ttl), ops, maxEntries, ttl);
    }
  }

  /** Every store puts in rows that were built under its signature. */
  predicate StoresBuilt(ops: seq<Op>, built: (Key, Sig, Rows) -> bool) {
    forall i :: 0 <= i < |ops| && ops[i].Store? ==> built(ops[i].key, ops[i].sig, ops[i].rows)
  }

  lemma {:induction false} LastStoreIn(ops: seq<Op>, key: Key)
    requires LastStore(ops, key).Val?
    ensures LastStore(ops, key).v in ops && LastStore(ops, key).v.Store? && LastStore(ops, key).v.key == key
  {
    var n := |ops| - 1;
    if !(ops[n].Store? && ops[n].key == key) { LastStoreIn(ops[..n], key); }
  }

  /**
   * However concurrent misses interleave, a hit for (key, sig) returns the rows of the last store to the key, and these
   * were built under `sig`.
   */
  lemma HitsAreBuiltUnderSig(ops: seq<Op>, maxEntries: nat, ttl: int, key: Key, sig: Sig, at: int, built: (Key, Sig, Rows) -> bool)
    requires ClockRuns(ops) && StoresBuilt(ops, built)
    requires Serves(RunOps([], ops, maxEntries, ttl), key, sig, at, ttl)
    ensures var found := Found(RunOps([], ops, maxEntries, ttl), key, sig, at, ttl);
            found.Val? && built(key, sig, found.v) &&
            LastStore(ops, key).Val? && LastStore(ops, key).v.Store? &&
            LastStore(ops, key).v.rows == found.v && LastStore(ops, key).v.sig == sig
  {
    CacheFaithful(ops, maxEntries, ttl);
    LastStoreIn(ops, key);
  }

  // ---------------------------------------------------------------- what was used recently is still there

  function KeysOf(ops: seq<Op>): set<Key> { set i | 0 <= i < |ops| :: ops[i].key }

  function KeysBefore(c: seq<Slot>, p: nat): set<Key>
    requires p <= |c|
  {
    set i | 0 <= i < p :: c[i].key
  }

  lemma {:induction false} DistinctKeysCount(c: seq<Slot>, p: nat, now: int)
    requires Ordered(c, now) && p <= |c|
    ensures |KeysBefore(c, p)| == p
  {
    if p > 0 {
      DistinctKeysCount(c, p - 1, now);
      assert KeysBefore(c, p) == KeysBefore(c, p - 1) + {c[p - 1].key};
      assert c[p - 1].key !in KeysBefore(c, p - 1);
    }
  }

  /** The slot sits at `p`, and every slot before it has a key of `used`. */
  predicate Behind(c: seq<Slot>, s: Slot, p: int, used: set<Key>) {
    0 <= p < |c| && c[p] == s && KeysBefore(c, p) <= used
  }

  lemma RetainedByLookup(c: seq<Slot>, s: Slot, p: nat, used: set<Key>, key: Key, sig: Sig, at: int, ttl: int) returns (q: nat)
    requires Ordered(c, at) && Behind(c, s, p, used) && key != s.key
    ensures Behind(AfterLookup(c, key, sig, at, ttl), s, q, used + {key})
  {
    var after := AfterLookup(c, key, sig, at, ttl);
    match Position(c, key) {
      case Null => q := p;
      case Val(i) =>
        if Serves(c, key, sig, at, ttl) {
          q := if i < p then p else p + 1;
        } else {
          q := if i < p then p - 1 else p;
        }
    }
    forall k | 0 <= k < q
      ensures after[k].key in used + {key}
    { assert after[k].key == key || after[k].key in KeysBefore(c, p); }
  }

  lemma RetainedByToFront(c: seq<Slot>, s: Slot, p: nat, used: set<Key>, t: Slot) returns (q: nat)
    requires Ordered(c, t.lastUsed) && Behind(c, s, p, used) && t.key != s.key
    ensures Behind(ToFront(c, t), s, q, used + {t.key})
  {
    var after := ToFront(c, t);
    match Position(c, t.key) {
      case Null => q := p + 1;
      case Val(i) => q := if i < p then p else p + 1;
    }
    forall k | 0 <= k < q
      ensures after[k].key in used + {t.key}
    { assert after[k].key == t.key || after[k].key in KeysBefore(c, p); }
  }

  lemma RetainedByEvict(c: seq<Slot>, s: Slot, p: nat, used: set<Key>, now: int, maxEntries: nat, ttl: int)
    requires Ordered(c, now) && Behind(c, s, p, used) && |used| < maxEntries && !IdleExpired(s, now, ttl)
    ensures Behind(Evicted(c, now, maxEntries, ttl), s, p, used)
  {
    EvictionExact(c, now, maxEntries, ttl);
    DistinctKeysCount(c, p, now);
    SubsetSize(KeysBefore(c, p), used);
    var kept := Evicted(c, now, maxEntries, ttl);
    assert p < |kept|;
    assert forall k :: 0 <= k <= p ==> kept[k] == c[k];
    assert KeysBefore(kept, p) == KeysBefore(c, p);
  }

  lemma {:induction false} SubsetSize(a: set<Key>, b: set<Key>)
    requires a <= b
    ensures |a| <= |b|
    decreases |a|
  {
    if x :| x in a { SubsetSize(a - {x}, b - {x}); }
  }

  lemma RetainedByOp(c: seq<Slot>, s: Slot, p: nat, used: set<Key>, op: Op, maxEntries: nat, ttl: int) returns (q: nat)
    requires Ordered(c, op.at) && Behind(c, s, p, used) && op.key != s.key
    requires |used + {op.key}| < maxEntries && !IdleExpired(s, op.at, ttl)
    ensures Behind(AfterOp(c, op, maxEntries, ttl), s, q, used + {op.key})
  {
    match op {
      case Lookup(key, sig, at) => q := RetainedByLookup(c, s, p, used, key, sig, at, ttl);
      case Store(key, sig, rows, at) =>
        var t := Slot(key, sig, rows, at);
        q := RetainedByToFront(c, s, p, used, t);
        ToFrontKeepsOrder(c, t);
        RetainedByEvict(ToFront(c, t), s, q, used + {key}, at, maxEntries, ttl);
    }
  }

  lemma StoredIsInFront(c: seq<Slot>, s: Slot, maxEntries: nat, ttl: int)
    requires Ordered(c, s.lastUsed) && maxEntries > 0 && ttl >= 0
    ensures Behind(AfterStore(c, s, maxEntries, ttl), s, 0, {})
  {
    ToFrontKeepsOrder(c, s);
    RetainedByEvict(ToFront(c, s), s, 0, {}, s.lastUsed, maxEntries, ttl);
  }

  function SlotOf(store: Op): Slot
    requires store.Store?
  {
    Slot(store.key, store.sig, store.rows, store.at)
  }

  lemma {:induction false} RetainedOverRun(c: seq<Slot>, s: Slot, ops: seq<Op>, maxEntries: nat, ttl: int) returns (p: nat)
    requires Ordered(c, s.lastUsed) && |c| <= maxEntries && Behind(c, s, 0, {})
    requires ClockRuns(ops) && forall i :: 0 <= i < |ops| ==> s.lastUsed <= ops[i].at <= s.lastUsed + ttl
    requires s.key !in KeysOf(ops) && |KeysOf(ops)| < maxEntries
    ensures var after := RunOps(c, ops, maxEntries, ttl);
            Behind(after, s, p, KeysOf(ops)) && |after| <= maxEntries &&
            Ordered(after, if ops == [] then s.lastUsed else ops[|ops| - 1].at)
  {
    p := 0;
    if ops != [] {
      var n := |ops| - 1;
      assert KeysOf(ops) == KeysOf(ops[..n]) + {ops[n].key};
      SubsetSize(KeysOf(ops[..n]), KeysOf(ops));
      p := RetainedOverRun(c, s, ops[..n], maxEntries, ttl);
      var mid := RunOps(c, ops[..n], maxEntries, ttl);
      p := RetainedByOp(mid, s, p, KeysOf(ops[..n]), ops[n], maxEntries, ttl);
      OpKeepsOrder(mid, ops[n], maxEntries, ttl);
    }
  }

  lemma {:induction false} RunOpsSplit(c: seq<Slot>, first: seq<Op>, second: seq<Op>, maxEntries: nat, ttl: int)
    ensures RunOps(c, first + second, maxEntries, ttl) == RunOps(RunOps(c, first, maxEntries, ttl), second, maxEntries, ttl)
  {
    hide AfterOp;
    if second == [] {
      assert first + second == first;
    } else {
      var n := |second| - 1;
      RunOpsSplit(c, first, second[..n], maxEntries, ttl);
      assert (first + second)[..|first + second| - 1] == first + second[..n];
    }
  }

  /**
   * The least-recently-used promise: after a store, a lookup of that key and signature hits if it comes within the idle
   * time and fewer than `maxEntries` other keys were used in between.
   */
  lemma RecentlyStoredIsServed(before: seq<Op>, store: Op, between: seq<Op>, maxEntries: nat, ttl: int, at: int)
    requires store.Store? && ClockRuns(before + [store]) && ClockRuns(between)
    requires forall i :: 0 <= i < |between| ==> store.at <= between[i].at <= at
    requires store.key !in KeysOf(between) && |KeysOf(between)| < maxEntries
    requires store.at <= at <= store.at + ttl
    ensures Found(RunOps([], before + [store] + between, maxEntries, ttl), store.key, store.sig, at, ttl) == Val(store.rows)
  {
    var stored := before + [store];
    assert stored[..|stored| - 1] == before;
    CacheInvariantPrefix(stored, |before|, maxEntries, ttl);
    var c := RunOps([], before, maxEntries, ttl);
    StoredIsInFront(c, SlotOf(store), maxEntries, ttl);
    OpKeepsOrder(c, store, maxEntries, ttl);
    hide Found, AfterLookup, AfterStore, Evicted, KeysBefore;
    var p := RetainedOverRun(RunOps([], stored, maxEntries, ttl), SlotOf(store), between, maxEntries, ttl);
    RunOpsSplit([], stored, between, maxEntries, ttl);
    LookupOutcome(RunOps([], stored + between, maxEntries, ttl), store.key, store.sig, at, ttl, p);
  }

  lemma CacheInvariantPrefix(ops: seq<Op>, n: nat, maxEntries: nat, ttl: int)
    requires ClockRuns(ops) && n < |ops|
    ensures Ordered(RunOps([], ops[..n], maxEntries, ttl), ops[n].at) && |RunOps([], ops[..n], maxEntries, ttl)| <= maxEntries
  {
    CacheInvariant(ops[..n], maxEntries, ttl);
  }

  // ---------------------------------------------------------------- what a lookup finds and leaves

  /**
   * A lookup finds the rows of the key's slot exactly when its signature is the one asked for and it was used within the
   * idle time; it then stamps the slot and moves it to the front. Otherwise it finds nothing and leaves no slot of the key.
   */
  lemma LookupOutcome(c: seq<Slot>, key: Key, sig: Sig, at: int, ttl: int, p: nat)
    requires Ordered(c, at) && p < |c| && c[p].key == key
    ensures var after := AfterLookup(c, key, sig, at, ttl);
            if c[p].sig == sig && at - c[p].lastUsed <= ttl
            then Found(c, key, sig, at, ttl) == Val(c[p].rows) && after == [c[p].(lastUsed := at)] + c[..p] + c[p + 1..]
            else Found(c, key, sig, at, ttl).Null? && after == c[..p] + c[p + 1..]
  {
    OnePosition(c, key, at, p);
    assert [c[p].(lastUsed := at)] + RemoveAt(c, p) == [c[p].(lastUsed := at)] + c[..p] + c[p + 1..];
  }

  lemma OnePosition(c: seq<Slot>, key: Key, now: int, p: nat)
    requires Ordered(c, now) && p < |c| && c[p].key == key
    ensures Position(c, key) == Val(p)
  {
    hide Position;
    var q := Position(c, key);
    assert q.Val?;
  }

  lemma NothingFound(c: seq<Slot>, key: Key, sig: Sig, at: int, ttl: int)
    requires forall i :: 0 <= i < |c| ==> c[i].key != key
    ensures Found(c, key, sig, at, ttl).Null? && AfterLookup(c, key, sig, at, ttl) == c
  {
  }

  /** Some operation on the slot's key happened when the slot says that it was used. */
  predicate UsedThen(s: Slot, ops: seq<Op>) { exists i :: 0 <= i < |ops| && ops[i].key == s.key && ops[i].at == s.lastUsed }

  lemma UsedEarlier(s: Slot, ops: seq<Op>)
    requires ops != [] && UsedThen(s, ops[..|ops| - 1])
    ensures UsedThen(s, ops)
  {
    var i :| 0 <= i < |ops| - 1 && ops[..|ops| - 1][i].key == s.key && ops[..|ops| - 1][i].at == s.lastUsed;
    assert ops[i].key == s.key;
  }

  lemma {:induction false} EachWasUsed(ops: seq<Op>, maxEntries: nat, ttl: int, i: nat)
    requires ClockRuns(ops) && i < |RunOps([], ops, maxEntries, ttl)|
    ensures UsedThen(RunOps([], ops, maxEntries, ttl)[i], ops)
  {
    if ops != [] {
      var n := |ops| - 1;
      var c := RunOps([], ops[..n], maxEntries, ttl);
      var after := RunOps([], ops, maxEntries, ttl);
      CacheInvariantPrefix(ops, n, maxEntries, ttl);
      var op := ops[n];
      if after[i].key == op.key && after[i].lastUsed == op.at {
      } else {
        var j := OldSlot(c, op, maxEntries, ttl, i);
        EachWasUsed(ops[..n], maxEntries, ttl, j);
        UsedEarlier(after[i], ops);
      }
    }
  }

  lemma OldSlot(c: seq<Slot>, op: Op, maxEntries: nat, ttl: int, i: nat) returns (j: nat)
    requires Ordered(c, op.at) && i < |AfterOp(c, op, maxEntries, ttl)|
    requires var s := AfterOp(c, op, maxEntries, ttl)[i]; s.key != op.key || s.lastUsed != op.at
    ensures j < |c| && AfterOp(c, op, maxEntries, ttl)[i] == c[j]
  {
    hide Position;
    match op {
      case Lookup(key, sig, at) =>
        match Position(c, key) {
          case Null => j := i;
          case Val(p) =>
            if !Serves(c, key, sig, at, ttl) { j := RemainingSlot(c, p, i); } else { j := RemainingSlot(c, p, i - 1); }
        }
      case Store(key, sig, rows, at) =>
        var s := Slot(key, sig, rows, at);
        ToFrontKeepsOrder(c, s);
        EvictionExact(ToFront(c, s), at, maxEntries, ttl);
        assert AfterOp(c, op, maxEntries, ttl)[i] == ToFront(c, s)[i];
        j := FrontSlot(c, s, i);
    }
  }

  /** Nothing idle is served: a hit comes within the idle time after some operation on its key. */
  lemma HitIsFresh(ops: seq<Op>, maxEntries: nat, ttl: int, key: Key, sig: Sig, at: int)
    requires ClockRuns(ops) && Found(RunOps([], ops, maxEntries, ttl), key, sig, at, ttl).Val?
    ensures exists i :: 0 <= i < |ops| && ops[i].key == key && at <= ops[i].at + ttl
  {
    var c := RunOps([], ops, maxEntries, ttl);
    var p := Position(c, key).v;
    EachWasUsed(ops, maxEntries, ttl, p);
    var i :| 0 <= i < |ops| && ops[i].key == c[p].key && ops[i].at == c[p].lastUsed;
  }
}

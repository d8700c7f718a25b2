/** The bounded, signature-gated, idle-expiring LRU cache of jobsetcache.go. */
module JobSetCache {
  import opened Sql

  type Key = nat
  type Sig = nat
  type Rows = seq<nat>

  // ---------------------------------------------------------------- the cache as a list of slots, front first

  datatype Slot = Slot(key: Key, sig: Sig, rows: Rows, lastUsed: int)

  function Position(c: seq<Slot>, key: Key): (r: Opt<nat>)
    ensures r.Val? ==> r.v < |c| && c[r.v].key == key
    ensures r.Null? ==> forall i :: 0 <= i < |c| ==> c[i].key != key
  {
    if c == [] then Null
    else if c[0].key == key then Val(0)
    else match Position(c[1..], key)
         case Null => Null
         case Val(i) => Val(i + 1)
  }

  function RemoveAt<T>(c: seq<T>, i: nat): seq<T>
    requires i < |c|
  {
    c[..i] + c[i + 1..]
  }

  predicate IdleExpired(s: Slot, now: int, ttl: int) { now - s.lastUsed > ttl }

  predicate Serves(c: seq<Slot>, key: Key, sig: Sig, now: int, ttl: int) {
    var p := Position(c, key);
    p.Val? && c[p.v].sig == sig && !IdleExpired(c[p.v], now, ttl)
  }

  function AfterLookup(c: seq<Slot>, key: Key, sig: Sig, now: int, ttl: int): seq<Slot> {
    match Position(c, key)
    case Null => c
    case Val(i) =>
      if Serves(c, key, sig, now, ttl) then [c[i].(lastUsed := now)] + RemoveAt(c, i) else RemoveAt(c, i)
  }

  function Found(c: seq<Slot>, key: Key, sig: Sig, now: int, ttl: int): Opt<Rows> {
    if Serves(c, key, sig, now, ttl) then Val(c[Position(c, key).v].rows) else Null
  }

  function ToFront(c: seq<Slot>, s: Slot): seq<Slot> {
    match Position(c, s.key)
    case Null => [s] + c
    case Val(i) => [s] + RemoveAt(c, i)
  }

  /** Drop from the back while over the bound or while the back entry is idle-expired. */
  function Evicted(c: seq<Slot>, now: int, maxEntries: nat, ttl: int): seq<Slot> {
    if c != [] && (|c| > maxEntries || IdleExpired(c[|c| - 1], now, ttl))
    then Evicted(c[..|c| - 1], now, maxEntries, ttl)
    else c
  }

  function AfterStore(c: seq<Slot>, s: Slot, maxEntries: nat, ttl: int): seq<Slot> {
    Evicted(ToFront(c, s), s.lastUsed, maxEntries, ttl)
  }

  // ---------------------------------------------------------------- the linked structure

  class JobSetEntry {
    const key: Key
    var sig: Sig
    var rows: Rows
    var lastUsed: int

    constructor (key: Key, sig: Sig, rows: Rows, lastUsed: int)
      ensures this.key == key && AsSlot() == Slot(key, sig, rows, lastUsed)
    {
      this.key, this.sig, this.rows, this.lastUsed := key, sig, rows, lastUsed;
    }

    function AsSlot(): Slot
      reads this
    {
      Slot(key, sig, rows, lastUsed)
    }
  }

  ghost function Slots(es: seq<JobSetEntry>): (c: seq<Slot>)
    reads es
    ensures |c| == |es| && forall i :: 0 <= i < |es| ==> c[i] == es[i].AsSlot()
  {
    seq(|es|, i requires 0 <= i < |es| reads es => es[i].AsSlot())
  }

  /** The index and the list hold the same entries, each key once. */
  predicate Linked(ll: seq<JobSetEntry>, index: map<Key, JobSetEntry>) {
    (forall i, j :: 0 <= i < j < |ll| ==> ll[i].key != ll[j].key) &&
    (forall i :: 0 <= i < |ll| ==> ll[i].key in index && index[ll[i].key] == ll[i]) &&
    (forall k :: k in index ==> index[k].key == k && index[k] in ll)
  }

  lemma RemoveKeepsLinked(ll: seq<JobSetEntry>, index: map<Key, JobSetEntry>, p: nat)
    requires Linked(ll, index) && p < |ll|
    ensures Linked(RemoveAt(ll, p), index - {ll[p].key})
  {
    var rest := RemoveAt(ll, p);
    forall k | k in index - {ll[p].key}
      ensures index[k] in rest
    {
      var i :| 0 <= i < |ll| && ll[i] == index[k];
      assert rest[if i < p then i else i - 1] == index[k];
    }
  }

  lemma FrontKeepsLinked(ll: seq<JobSetEntry>, index: map<Key, JobSetEntry>, p: nat)
    requires Linked(ll, index) && p < |ll|
    ensures Linked([ll[p]] + RemoveAt(ll, p), index)
    ensures forall e :: e in [ll[p]] + RemoveAt(ll, p) <==> e in ll
  {
    var front := [ll[p]] + RemoveAt(ll, p);
    forall i | 0 <= i < |ll|
      ensures ll[i] in front
    { assert front[if i == p then 0 else if i < p then i + 1 else i] == ll[i]; }
    forall k | k in index
      ensures index[k] in front
    {
      var i :| 0 <= i < |ll| && ll[i] == index[k];
    }
  }

  lemma InsertKeepsLinked(ll: seq<JobSetEntry>, index: map<Key, JobSetEntry>, el: JobSetEntry)
    requires Linked(ll, index) && el.key !in index
    ensures Linked([el] + ll, index[el.key := el])
  {
    var front, indexed := [el] + ll, index[el.key := el];
    forall i | 0 <= i < |front|
      ensures front[i].key in indexed && indexed[front[i].key] == front[i]
      ensures forall j :: i < j < |front| ==> front[i].key != front[j].key
    {
      if i > 0 { assert front[i] == ll[i - 1]; }
      forall j | i < j < |front| ensures front[i].key != front[j].key { assert front[j] == ll[j - 1]; }
    }
    forall k | k in indexed
      ensures indexed[k].key == k && indexed[k] in front
    {
      if k != el.key { assert index[k] in ll; }
    }
  }

  lemma SlotsRemoveAt(ll: seq<JobSetEntry>, p: nat)
    requires p < |ll|
    ensures Slots(RemoveAt(ll, p)) == RemoveAt(Slots(ll), p)
    ensures Slots([ll[p]] + RemoveAt(ll, p)) == [ll[p].AsSlot()] + RemoveAt(Slots(ll), p)
  {
  }

  lemma RemoveLast(c: seq<Slot>)
    requires c != []
    ensures RemoveAt(c, |c| - 1) == c[..|c| - 1]
  {
  }

  /** After one entry is written, moving it to the front gives its new slot and the other old ones. */
  lemma OneSlotChanged(ll: seq<JobSetEntry>, before: seq<Slot>, p: nat)
    requires p < |ll| == |before|
    requires forall i :: 0 <= i < |ll| && i != p ==> ll[i].AsSlot() == before[i]
    ensures Slots([ll[p]] + RemoveAt(ll, p)) == [ll[p].AsSlot()] + RemoveAt(before, p)
  {
  }

  /** The index finds the entry at the key's position in the list, and nothing for other keys. */
  lemma PositionIsIndex(ll: seq<JobSetEntry>, index: map<Key, JobSetEntry>, c: seq<Slot>, key: Key)
    requires Linked(ll, index) && |c| == |ll| && forall i :: 0 <= i < |ll| ==> c[i].key == ll[i].key
    ensures Position(c, key).Val? <==> key in index
    ensures key in index ==> ll[Position(c, key).v] == index[key]
  {
    if key in index {
      var i :| 0 <= i < |ll| && ll[i] == index[key];
      assert c[i].key == key;
    }
  }

  /** The element's place in the list, which `container/list` knows from the element itself. */
  method PlaceOf(ll: seq<JobSetEntry>, el: JobSetEntry, ghost at: nat) returns (p: nat)
    requires at < |ll| && ll[at] == el && forall i :: 0 <= i < at ==> ll[i] != el
    ensures p == at
  {
    p := 0;
    while ll[p] != el
      invariant p <= at
      decreases at - p
    {
      p := p + 1;
    }
  }

  class MemJobSetCache {
    var ll: seq<JobSetEntry>
    var index: map<Key, JobSetEntry>
    const maxEntries: nat
    const idleTTL: int

    ghost predicate Valid()
      reads this
    {
      maxEntries >= 1 && Linked(ll, index)
    }

    ghost function Contents(): seq<Slot>
      reads this, ll
    {
      Slots(ll)
    }

    constructor (maxEntries: int, idleTTL: int)
      ensures Valid() && Contents() == []
      ensures this.maxEntries == (if maxEntries < 1 then 1 else maxEntries) && this.idleTTL == idleTTL
    {
      this.maxEntries := if maxEntries < 1 then 1 else maxEntries;
      this.idleTTL := idleTTL;
      ll := [];
      index := map[];
    }

    method RemoveElement(el: JobSetEntry, ghost at: nat)
      requires Valid() && at < |ll| && ll[at] == el
      modifies this
      ensures Valid()
      ensures ll == RemoveAt(old(ll), at) && index == old(index) - {el.key}
      ensures Contents() == RemoveAt(old(Contents()), at)
    {
      var p := PlaceOf(ll, el, at);
      RemoveKeepsLinked(ll, index, p);
      SlotsRemoveAt(ll, p);
      ll := RemoveAt(ll, p);
      index := index - {el.key};
    }

    /** `list.MoveToFront`. */
    method MoveToFront(el: JobSetEntry, ghost at: nat)
      requires Valid() && at < |ll| && ll[at] == el
      modifies this`ll
      ensures Valid()
      ensures ll == [el] + RemoveAt(old(ll), at)
    {
      var p := PlaceOf(ll, el, at);
      FrontKeepsLinked(ll, index, p);
      ll := [el] + RemoveAt(ll, p);
    }

    /** The hit branch of Lookup. */
    method Touch(ent: JobSetEntry, now: int, ghost at: nat)
      requires Valid() && at < |ll| && ll[at] == ent
      modifies this`ll, ent`lastUsed
      ensures Valid()
      ensures ll == [ent] + RemoveAt(old(ll), at)
      ensures Contents() == [old(Contents())[at].(lastUsed := now)] + RemoveAt(old(Contents()), at)
    {
      ghost var before := Contents();
      ent.lastUsed := now;
      OneSlotChanged(ll, before, at);
      MoveToFront(ent, at);
    }

    method Lookup(key: Key, sig: Sig, now: int) returns (rows: Rows, ok: bool)
      requires Valid()
      modifies this, ll
      ensures Valid()
      ensures Contents() == AfterLookup(old(Contents()), key, sig, now, idleTTL)
      ensures (if ok then Val(rows) else Null) == Found(old(Contents()), key, sig, now, idleTTL)
      ensures forall e :: e in ll ==> e in old(ll)
    {
      PositionIsIndex(ll, index, Contents(), key);
      if key !in index {
        return [], false;
      }
      var ent := index[key];
      ghost var p := Position(Contents(), key).v;
      if ent.sig != sig || now - ent.lastUsed > idleTTL {
        RemoveElement(ent, p);
        return [], false;
      }
      Touch(ent, now, p);
      return ent.rows, true;
    }

    method Store(key: Key, sig: Sig, rows: Rows, now: int)
      requires Valid()
      modifies this, ll
      ensures Valid()
      ensures Contents() == AfterStore(old(Contents()), Slot(key, sig, rows, now), maxEntries, idleTTL)
    {
      PositionIsIndex(ll, index, Contents(), key);
      if key in index {
        Overwrite(index[key], sig, rows, now);
      } else {
        var el := new JobSetEntry(key, sig, rows, now);
        InsertKeepsLinked(ll, index, el);
        ll := [el] + ll;
        index := index[key := el];
        assert Contents() == [el.AsSlot()] + old(Contents());
      }
      Evict(now);
    }

    /** The branch of Store for a key that is present. */
    method Overwrite(ent: JobSetEntry, sig: Sig, rows: Rows, now: int)
      requires Valid() && ent.key in index && index[ent.key] == ent
      modifies this, ll
      ensures Valid()
      ensures Contents() == ToFront(old(Contents()), Slot(ent.key, sig, rows, now))
    {
      ghost var before := Contents();
      PositionIsIndex(ll, index, before, ent.key);
      ghost var p := Position(before, ent.key).v;
      ent.sig, ent.rows, ent.lastUsed := sig, rows, now;
      OneSlotChanged(ll, before, p);
      MoveToFront(ent, p);
    }

    /** The entry at the back goes. */
    method DropBack()
      requires Valid() && ll != []
      modifies this
      ensures Valid()
      ensures Contents() == old(Contents())[..|old(ll)| - 1] && |ll| == |old(ll)| - 1
    {
      RemoveLast(Contents());
      RemoveElement(ll[|ll| - 1], |ll| - 1);
    }

    method Evict(now: int)
      requires Valid()
      modifies this
      ensures Valid()
      ensures Contents() == Evicted(old(Contents()), now, maxEntries, idleTTL)
    {
      while |ll| > 0
        invariant Valid()
        invariant Evicted(Contents(), now, maxEntries, idleTTL) == Evicted(old(Contents()), now, maxEntries, idleTTL)
        decreases |ll|
      {
        var back := ll[|ll| - 1];
        assert Contents()[|ll| - 1] == back.AsSlot();
        if |ll| > maxEntries || now - back.lastUsed > idleTTL {
          DropBack();
          continue;
        }
        break;
      }
    }

    /** Lookup, else build and store. `built` is what the build function returns; lookup and store each read the clock. */
    method Get(key: Key, sig: Sig, built: Opt<Rows>, lookupAt: int, storeAt: int) returns (rows: Opt<Rows>, hit: bool)
      requires Valid()
      modifies this, ll
      ensures Valid()
      ensures hit == Serves(old(Contents()), key, sig, lookupAt, idleTTL)
      ensures rows == if hit then Found(old(Contents()), key, sig, lookupAt, idleTTL) else built
      ensures var looked := AfterLookup(old(Contents()), key, sig, lookupAt, idleTTL);
              Contents() == if hit || built.Null? then looked
                            else AfterStore(looked, Slot(key, sig, built.v, storeAt), maxEntries, idleTTL)
    {
      var found, ok := Lookup(key, sig, lookupAt);
      if ok {
        return Val(found), true;
      }
      if built.Null? {
        return Null, false;
      }
      Store(key, sig, built.v, storeAt);
      return built, false;
    }
  }
}

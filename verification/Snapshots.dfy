/**
 Cached snapshots. A read takes a version from the index, looks up "fingerprint:version", and on a
 miss queries the database and stores the body. Every step may interleave with other reads, with the
 feed and with eviction. The fingerprint is taken to be collision-free, so the cache key is the query
 itself with its version.
 */
module Snapshots {
  import opened Text
  import opened VersionIndex
  import opened Database
  import opened Queries
  import opened Invalidation
  import opened Diff
  import opened Feed

  type Body = seq<JsonRow>

  type CacheKey = (Query, nat)

  /** A read in progress; `floor` records how many commits the index had received at the version read. */
  datatype Read =
    | Started(q: Query)
    | Versioned(q: Query, floor: nat, version: nat)
    | Missed(q: Query, floor: nat, version: nat)
    | Computed(q: Query, floor: nat, version: nat, body: Body)
    | Done(q: Query, floor: nat, version: nat, body: Body)
    | Failed(q: Query)

  datatype Reader = Reader(cache: map<CacheKey, Body>, active: map<nat, Read>)

  datatype ReadStep =
    | Begin(id: nat, q: Query)
    | ReadVersion(id: nat)
    | LookUp(id: nat)
    | Compute(id: nat)
    | ComputeFails(id: nat)
    | Store(id: nat)
    | Evict(key: CacheKey)

  function Settle(r: Reader, id: nat, read: Read): Reader {
    r.(active := r.active[id := read])
  }

  /** One step of one read; the feed is only looked at. */
  ghost predicate ReadNext(cfg: Config, sem: Semantics, f: Feed, r: Reader, step: ReadStep, r': Reader) {
    match step
    case Begin(id, q) => id !in r.active && WellFormed(q) && r' == Settle(r, id, Started(q))
    case ReadVersion(id) =>
      && id in r.active && r.active[id].Started?
      && r' == Settle(r, id, Versioned(r.active[id].q, f.cdc, QueryVersion(cfg, f.index, r.active[id].q)))
    case LookUp(id) =>
      && id in r.active && r.active[id].Versioned?
      && var Versioned(q, floor, version) := r.active[id];
      r' == Settle(r, id, if (q, version) in r.cache then Done(q, floor, version, r.cache[(q, version)])
                          else Missed(q, floor, version))
    case Compute(id) =>
      && id in r.active && r.active[id].Missed?
      && var Missed(q, floor, version) := r.active[id];
      && WellFormed(q)
      && r' == Settle(r, id, Computed(q, floor, version, ResultAt(sem, f.history, q, |f.history.log|)))
    case ComputeFails(id) =>
      && id in r.active && r.active[id].Missed?
      && r' == Settle(r, id, Failed(r.active[id].q))
    case Store(id) =>
      && id in r.active && r.active[id].Computed?
      && var Computed(q, floor, version, body) := r.active[id];
      r' == Settle(r, id, Done(q, floor, version, body)).(cache := r.cache[(q, version) := body])
    case Evict(key) => r' == r.(cache := r.cache - {key})
  }

  /** The body is the query's result on some database prefix no older than `floor`. */
  ghost predicate Fresh(sem: Semantics, f: Feed, q: Query, floor: nat, body: Body)
    requires WellFormed(q)
  {
    exists k | floor <= k <= |f.history.log| :: body == ResultAt(sem, f.history, q, k)
  }

  /** The body was computed by a read that had this version at `floor`. */
  ghost predicate StoredAt(cfg: Config, sem: Semantics, f: Feed, q: Query, version: nat, body: Body, floor: nat)
    requires WellFormed(q) && f.cdc <= |f.history.log|
  {
    floor <= f.cdc && VersionAt(cfg, f.history, q, floor) == version && Fresh(sem, f, q, floor, body)
  }

  /** Some read that had this version computed the body. */
  ghost predicate EntryInv(cfg: Config, sem: Semantics, f: Feed, key: CacheKey, body: Body)
    requires f.cdc <= |f.history.log|
  {
    && WellFormed(key.0)
    && exists floor: nat :: StoredAt(cfg, sem, f, key.0, key.1, body, floor)
  }

  /** What is known of a read of any query; freshness follows for the covered ones. */
  ghost predicate ReadInv(cfg: Config, sem: Semantics, f: Feed, read: Read)
    requires f.cdc <= |f.history.log|
  {
    && WellFormed(read.q)
    && (read.Started? || read.Failed? ||
        (read.floor <= f.cdc && VersionAt(cfg, f.history, read.q, read.floor) == read.version))
    && (read.Computed? ==> Fresh(sem, f, read.q, read.floor, read.body))
    && (read.Done? ==> EntryInv(cfg, sem, f, (read.q, read.version), read.body))
  }

  ghost predicate ReaderInv(cfg: Config, sem: Semantics, f: Feed, r: Reader)
    requires f.cdc <= |f.history.log|
  {
    && (forall key | key in r.cache :: EntryInv(cfg, sem, f, key, r.cache[key]))
    && (forall id | id in r.active :: ReadInv(cfg, sem, f, r.active[id]))
  }

  /** Freshness outlives the growth of the feed. */
  lemma FreshSettled(cfg: Config, sem: Semantics, f: Feed, f': Feed, q: Query, floor: nat, body: Body)
    requires Grows(f, f') && WellFormed(q) && Fresh(sem, f, q, floor, body)
    ensures Fresh(sem, f', q, floor, body)
  {
    var k :| floor <= k <= |f.history.log| && body == ResultAt(sem, f.history, q, k);
    PrefixSettled(cfg, sem, f, f', q, k);
  }

  lemma EntrySettled(cfg: Config, sem: Semantics, f: Feed, f': Feed, key: CacheKey, body: Body)
    requires FeedInv(cfg, f) && FeedInv(cfg, f') && Grows(f, f') && EntryInv(cfg, sem, f, key, body)
    ensures EntryInv(cfg, sem, f', key, body)
  {
    var floor: nat :| StoredAt(cfg, sem, f, key.0, key.1, body, floor);
    FreshSettled(cfg, sem, f, f', key.0, floor, body);
    PrefixSettled(cfg, sem, f, f', key.0, floor);
    assert StoredAt(cfg, sem, f', key.0, key.1, body, floor);
  }

  lemma ReadSettled(cfg: Config, sem: Semantics, f: Feed, f': Feed, read: Read)
    requires FeedInv(cfg, f) && FeedInv(cfg, f') && Grows(f, f') && ReadInv(cfg, sem, f, read)
    ensures ReadInv(cfg, sem, f', read)
  {
    if !read.Started? && !read.Failed? {
      PrefixSettled(cfg, sem, f, f', read.q, read.floor);
    }
    if read.Computed? {
      FreshSettled(cfg, sem, f, f', read.q, read.floor, read.body);
    }
    if read.Done? {
      EntrySettled(cfg, sem, f, f', (read.q, read.version), read.body);
    }
  }

  lemma ReaderSettled(cfg: Config, sem: Semantics, f: Feed, f': Feed, r: Reader)
    requires FeedInv(cfg, f) && FeedInv(cfg, f') && Grows(f, f') && ReaderInv(cfg, sem, f, r)
    ensures ReaderInv(cfg, sem, f', r)
  {
    forall key | key in r.cache
      ensures EntryInv(cfg, sem, f', key, r.cache[key])
    {
      EntrySettled(cfg, sem, f, f', key, r.cache[key]);
    }
    forall id | id in r.active
      ensures ReadInv(cfg, sem, f', r.active[id])
    {
      ReadSettled(cfg, sem, f, f', r.active[id]);
    }
  }

  /**
   The heart of the cache: an entry stored under a version by one read answers any other read that
   saw the same version, however the two raced. If the entry is older than the second read's floor,
   no relevant commit lies between them, so its body is still the result there.
   */
  lemma HitIsFresh(cfg: Config, sem: Semantics, f: Feed, q: Query, version: nat, body: Body, floor: nat)
    requires FeedInv(cfg, f) && EntryInv(cfg, sem, f, (q, version), body) && Covered(cfg, sem.logic, q)
    requires floor <= f.cdc && VersionAt(cfg, f.history, q, floor) == version
    ensures Fresh(sem, f, q, floor, body)
  {
    hide VersionAt, ViewAt, ValidHistory, Covered, WellFormed;
    var stored: nat :| StoredAt(cfg, sem, f, q, version, body, stored);
    var k :| stored <= k <= |f.history.log| && body == ResultAt(sem, f.history, q, k);
    if k < floor {
      VersionAtMonotone(cfg, f.history, q, stored, k);
      VersionAtMonotone(cfg, f.history, q, k, floor);
      SameVersionSameView(cfg, sem.logic, q, f.history, k, floor);
      assert body == ResultAt(sem, f.history, q, floor);
    }
  }

  lemma ReadNextInv(cfg: Config, sem: Semantics, f: Feed, r: Reader, step: ReadStep, r': Reader)
    requires FeedInv(cfg, f) && ReaderInv(cfg, sem, f, r) && ReadNext(cfg, sem, f, r, step, r')
    ensures ReaderInv(cfg, sem, f, r')
  {
    hide ViewAt, ResultAt, ValidHistory, Covered, WellFormed, QueryVersion, IndexOf;
    match step
    case Begin(id, q) =>
    case ReadVersion(id) =>
      assert QueryVersion(cfg, f.index, r.active[id].q) == VersionAt(cfg, f.history, r.active[id].q, f.cdc);
    case LookUp(id) =>
    case Compute(id) =>
      var n := |f.history.log|;
      assert Fresh(sem, f, r.active[id].q, r.active[id].floor, ResultAt(sem, f.history, r.active[id].q, n));
    case ComputeFails(id) =>
    case Store(id) =>
      var Computed(q, floor, version, body) := r.active[id];
      assert StoredAt(cfg, sem, f, q, version, body, floor);
    case Evict(key) =>
  }

  lemma DoneRead(cfg: Config, sem: Semantics, f: Feed, r: Reader, id: nat)
    requires f.cdc <= |f.history.log| && ReaderInv(cfg, sem, f, r) && id in r.active && r.active[id].Done?
    ensures var read := r.active[id];
            && EntryInv(cfg, sem, f, (read.q, read.version), read.body)
            && read.floor <= f.cdc && VersionAt(cfg, f.history, read.q, read.floor) == read.version
  {
    hide EntryInv, VersionAt;
    assert ReadInv(cfg, sem, f, r.active[id]);
  }

  /** The body of a finished read of a covered query is fresh since its own version read. */
  lemma DoneIsFresh(cfg: Config, sem: Semantics, f: Feed, r: Reader, id: nat)
    requires FeedInv(cfg, f) && ReaderInv(cfg, sem, f, r) && id in r.active && r.active[id].Done?
    requires Servable(cfg, sem, r.active[id].q)
    ensures Fresh(sem, f, r.active[id].q, r.active[id].floor, r.active[id].body)
  {
    hide Covered, Fresh, VersionAt, EntryInv, ReaderInv, ValidHistory, IndexOf;
    DoneRead(cfg, sem, f, r, id);
    HitIsFresh(cfg, sem, f, r.active[id].q, r.active[id].version, r.active[id].body, r.active[id].floor);
  }

  /** The read has not taken its version yet. */
  predicate Unversioned(r: Reader, id: nat) {
    id !in r.active || r.active[id].Started?
  }

  function FloorOf(r: Reader, id: nat): Option<nat> {
    if id !in r.active || r.active[id].Started? || r.active[id].Failed? then None else Some(r.active[id].floor)
  }

  /** A floor is set once, at the version read, to the number of commits indexed then. */
  lemma FloorSetOnce(cfg: Config, sem: Semantics, f: Feed, r: Reader, step: ReadStep, r': Reader, id: nat)
    requires ReadNext(cfg, sem, f, r, step, r')
    ensures FloorOf(r', id).None? || FloorOf(r', id) == FloorOf(r, id) ||
            (Unversioned(r, id) && FloorOf(r', id) == Some(f.cdc))
  {
    hide ResultAt, QueryVersion, Servable, WellFormed;
  }

  /** The cache changes only where a read stores its own result or an entry is evicted. */
  lemma CacheExactly(cfg: Config, sem: Semantics, f: Feed, r: Reader, step: ReadStep, r': Reader, key: CacheKey)
    requires ReadNext(cfg, sem, f, r, step, r')
    ensures key in r.cache && key !in r'.cache <==> key in r.cache && step == Evict(key)
    ensures key in r'.cache && (key in r.cache ==> r.cache[key] != r'.cache[key]) ==>
              && step.Store? && step.id in r.active && r.active[step.id].Computed?
              && key == (r.active[step.id].q, r.active[step.id].version) && r'.cache[key] == r.active[step.id].body
  {
    hide ResultAt, QueryVersion, WellFormed;
  }

  /** A stored body is there for the next read of the same query at the same version, which needs no database. */
  lemma StoredIsHit(
    cfg: Config, sem: Semantics, f: Feed, g: Feed, r: Reader, id: nat, stored: Reader, next: nat, after: Reader)
    requires ReadNext(cfg, sem, f, r, Store(id), stored) && ReadNext(cfg, sem, g, stored, LookUp(next), after)
    requires stored.active[next].q == r.active[id].q && stored.active[next].version == r.active[id].version
    ensures after.active[next] ==
            Done(r.active[id].q, stored.active[next].floor, r.active[id].version, r.active[id].body)
  {
  }

  /** Without an entry the lookup is a miss, and what is computed then is the query's current result. */
  lemma MissComputes(
    cfg: Config, sem: Semantics, f: Feed, g: Feed, r: Reader, id: nat, missed: Reader, after: Reader)
    requires ReadNext(cfg, sem, f, r, LookUp(id), missed) && (r.active[id].q, r.active[id].version) !in r.cache
    requires ReadNext(cfg, sem, g, missed, Compute(id), after)
    ensures WellFormed(r.active[id].q) && after.active[id].Computed? && after.active[id].q == r.active[id].q
    ensures after.active[id].version == r.active[id].version && after.active[id].floor == r.active[id].floor
    ensures after.active[id].body == ResultAt(sem, g.history, r.active[id].q, |g.history.log|)
  {
    hide ResultAt, WellFormed;
  }

  /** The cache as an object; `active` records the reads in progress, which the cache itself never sees. */
  class QueryCache {
    var inner: map<CacheKey, Body>
    ghost var active: map<nat, Read>

    ghost function State(): Reader
      reads this
    {
      Reader(inner, active)
    }

    constructor ()
      ensures State() == Reader(map[], map[])
    {
      inner, active := map[], map[];
    }

    /**
     The lookup is one step of the machine: a hit finishes the read with the entry, a miss sends it to the
     database.
     */
    method LookUp(ghost cfg: Config, ghost sem: Semantics, ghost f: Feed, ghost id: nat, key: CacheKey)
      returns (hit: Option<Body>)
      requires id in active && active[id].Versioned? && key == (active[id].q, active[id].version)
      modifies this`active
      ensures ReadNext(cfg, sem, f, old(State()), ReadStep.LookUp(id), State())
      ensures id in active && (hit.Some? <==> active[id].Done?) && (hit.Some? ==> active[id].body == hit.value)
    {
      ghost var read := active[id];
      if key in inner {
        hit := Some(inner[key]);
        active := active[id := Done(read.q, read.floor, read.version, inner[key])];
      } else {
        hit := None;
        active := active[id := Missed(read.q, read.floor, read.version)];
      }
    }

    /** The insertion after a successful computation is one step too, whatever the entry was meanwhile. */
    method Insert(ghost cfg: Config, ghost sem: Semantics, ghost f: Feed, ghost id: nat, key: CacheKey, body: Body)
      requires id in active && active[id].Computed?
      requires key == (active[id].q, active[id].version) && body == active[id].body
      modifies this
      ensures ReadNext(cfg, sem, f, old(State()), Store(id), State())
    {
      inner := inner[key := body];
      active := active[id := Done(active[id].q, active[id].floor, active[id].version, body)];
    }
  }
}

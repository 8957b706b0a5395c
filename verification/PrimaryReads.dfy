/**
 Cached reads over the feed of an embedded primary. Every write is announced as a truncate of its table, the
 announcements are numbered when they are received, and they may reach the index in any order. A version then
 tells which announcements the database had already applied, and that is enough for freshness.
 */
module PrimaryReads {
  import opened Text
  import opened ChangeLog
  import opened VersionIndex
  import opened PrimaryFeed
  import opened Database
  import opened Queries
  import opened Feed
  import opened Snapshots

  /** An announcement that the commit wrote the table; the `i`-th one received has number `i + 1`. */
  datatype Notice = Notice(xid: nat, table: string, commit: nat)

  /** `delivered` lists the announcements that reached the index, in order of arrival; `wire` is what was broadcast. */
  datatype Primary = Primary(
    history: History, notices: seq<Notice>, delivered: seq<nat>, wire: seq<Message>, reader: Reader)

  datatype PrimaryStep =
    | Apply(commit: Commit)
    | Receive(notice: Notice)
    | Deliver(n: nat)
    | Broadcast
    | ReadMove(readStep: ReadStep)

  /** The transaction made of an announcement. */
  function NoticeTxn(notices: seq<Notice>, n: nat): Txn
    requires n < |notices|
  {
    Txn(notices[n].xid, n + 1, [Truncate(notices[n].table)])
  }

  /** What is broadcast for an announcement. */
  function NoticeMessage(notices: seq<Notice>, n: nat): Message
    requires n < |notices|
  {
    Message(NoticeTxn(notices, n), notices[n].commit)
  }

  predicate Received(p: Primary) {
    forall d | 0 <= d < |p.delivered| :: p.delivered[d] < |p.notices|
  }

  function DeliveredTxns(p: Primary): seq<Txn>
    requires Received(p)
  {
    seq(|p.delivered|, d requires 0 <= d < |p.delivered| => NoticeTxn(p.notices, p.delivered[d]))
  }

  /** What a read sees: the database, the index over everything delivered so far, and how many that were. */
  function Seen(cfg: Config, p: Primary): Feed
    requires Received(p)
  {
    Feed(p.history, IndexOf(cfg, DeliveredTxns(p)), |p.delivered|, p.wire)
  }

  ghost predicate PrimaryInit(cfg: Config, p: Primary) {
    && StorableDb(cfg, p.history.base) && p.history.log == []
    && p.notices == [] && p.delivered == [] && p.wire == [] && p.reader == Reader(map[], map[])
  }

  ghost predicate PrimaryNext(cfg: Config, sem: Semantics, p: Primary, step: PrimaryStep, p': Primary) {
    match step
    case Apply(commit) =>
      && p' == p.(history := History(p.history.base, p.history.log + [commit]))
      && ValidHistory(cfg, p'.history)
    case Receive(notice) => notice.commit < |p.history.log| && p' == p.(notices := p.notices + [notice])
    case Deliver(n) => n < |p.notices| && n !in p.delivered && p' == p.(delivered := p.delivered + [n])
    case Broadcast =>
      && |p.wire| < |p.delivered| && p.delivered[|p.wire|] < |p.notices|
      && p' == p.(wire := p.wire + [NoticeMessage(p.notices, p.delivered[|p.wire|])])
    case ReadMove(rs) =>
      && Received(p) && ReadNext(cfg, sem, Seen(cfg, p), p.reader, rs, p'.reader)
      && p' == p.(reader := p'.reader)
  }

  // ---------------------------------------------------------------------------------------------
  // Versions over truncates, in any order of delivery.
  // ---------------------------------------------------------------------------------------------

  lemma {:induction false} TableVersionCovers(s: Index, tables: seq<string>, j: nat)
    requires j < |tables|
    ensures Get(s.tables, Lower(tables[j])) <= TableVersion(s, tables)
  {
    var n := |tables| - 1;
    if j < n {
      TableVersionCovers(s, tables[..n], j);
    }
  }

  lemma {:induction false} TableVersionBound(s: Index, tables: seq<string>, bound: nat)
    requires forall t :: Get(s.tables, t) <= bound && Get(s.structural, t) <= bound
    ensures TableVersion(s, tables) <= bound
  {
    if tables != [] {
      TableVersionBound(s, tables[..|tables| - 1], bound);
    }
  }

  /** The version is no smaller than any number delivered for one of the tables, and no larger than all of them. */
  lemma TruncateVersion(cfg: Config, log: seq<Txn>, tables: seq<string>, filters: seq<Filter>, bound: nat)
    requires TruncateOnly(log) && forall i | 0 <= i < |log| :: log[i].lsn <= bound
    ensures Version(cfg, IndexOf(cfg, log), tables, filters) <= bound
    ensures forall i, j | 0 <= i < |log| && 0 <= j < |tables| && Touches(cfg, log[i], TableProbe(Lower(tables[j]))) ::
              log[i].lsn <= Version(cfg, IndexOf(cfg, log), tables, filters)
  {
    var s := IndexOf(cfg, log);
    TruncatesTrackTables(cfg, log);
    forall t
      ensures Get(s.tables, t) == LastTouch(cfg, log, TableProbe(t)) <= bound
    {
      IndexRefinesScan(cfg, log, TableProbe(t));
      LastTouchBound(cfg, log, TableProbe(t), bound);
    }
    hide IndexOf, LastTouch, Touches, TruncateOnly;
    TableVersionBound(s, tables, bound);
    forall i, j | 0 <= i < |log| && 0 <= j < |tables| && Touches(cfg, log[i], TableProbe(Lower(tables[j])))
      ensures log[i].lsn <= Version(cfg, s, tables, filters)
    {
      LastTouchIsMaximum(cfg, log, TableProbe(Lower(tables[j])));
      TableVersionCovers(s, tables, j);
    }
  }

  lemma NoticeTouches(cfg: Config, notices: seq<Notice>, n: nat, q: Query)
    requires n < |notices| && Lower(notices[n].table) in Tables(q)
    ensures exists j | 0 <= j < |Tables(q)| :: Touches(cfg, NoticeTxn(notices, n), TableProbe(Lower(Tables(q)[j])))
  {
    TablesInContents(q.relations, q.ctes);
    var j :| 0 <= j < |Tables(q)| && Tables(q)[j] == Lower(notices[n].table);
    assert ChangeTouches(cfg, NoticeTxn(notices, n).changes[0], TableProbe(Lower(Tables(q)[j])));
  }

  /** The announcement is about one of the query's tables. */
  predicate Concerns(p: Primary, n: nat, q: Query) {
    n < |p.notices| && Lower(p.notices[n].table) in Tables(q)
  }

  /** The version covers everything delivered so far that concerns the query. */
  lemma VersionCovers(cfg: Config, p: Primary, q: Query)
    requires Received(p)
    ensures QueryVersion(cfg, Seen(cfg, p).index, q) <= |p.notices|
    ensures forall d | 0 <= d < |p.delivered| && Concerns(p, p.delivered[d], q) ::
              p.delivered[d] < QueryVersion(cfg, Seen(cfg, p).index, q)
  {
    hide Tables, Filters, IndexOf, Version;
    var log := DeliveredTxns(p);
    TruncateVersion(cfg, log, Tables(q), Filters(q), |p.notices|);
    forall d | 0 <= d < |p.delivered| && Concerns(p, p.delivered[d], q)
      ensures p.delivered[d] < QueryVersion(cfg, Seen(cfg, p).index, q)
    {
      NoticeTouches(cfg, p.notices, p.delivered[d], q);
      assert log[d].lsn == p.delivered[d] + 1;
    }
  }

  // ---------------------------------------------------------------------------------------------
  // The invariant.
  // ---------------------------------------------------------------------------------------------

  /** The body is the result on a prefix that includes every commit announced with a number up to the version. */
  ghost predicate BodyAt(sem: Semantics, p: Primary, q: Query, version: nat, body: Body, k: nat)
    requires WellFormed(q)
  {
    && k <= |p.history.log| && body == ResultAt(sem, p.history, q, k)
    && version <= |p.notices| && forall n | 0 <= n < version :: p.notices[n].commit < k
  }

  ghost predicate Holding(sem: Semantics, p: Primary, q: Query, version: nat, body: Body) {
    WellFormed(q) && exists k: nat :: BodyAt(sem, p, q, version, body, k)
  }

  /** The version was read with the first `floor` deliveries in the index. */
  ghost predicate VersionRead(p: Primary, q: Query, floor: nat, version: nat) {
    && floor <= |p.delivered| && version <= |p.notices|
    && forall d | 0 <= d < floor && Concerns(p, p.delivered[d], q) :: p.delivered[d] < version
  }

  ghost predicate PrimaryReadInv(sem: Semantics, p: Primary, read: Read) {
    && WellFormed(read.q)
    && (read.Started? || read.Failed? || VersionRead(p, read.q, read.floor, read.version))
    && (read.Computed? || read.Done? ==> Holding(sem, p, read.q, read.version, read.body))
  }

  /** Announcements are broadcast after they were delivered, in the order of delivery. */
  ghost predicate WireInv(p: Primary) {
    && Received(p) && |p.wire| <= |p.delivered|
    && forall i | 0 <= i < |p.wire| :: p.wire[i] == NoticeMessage(p.notices, p.delivered[i])
  }

  ghost predicate PrimaryInv(cfg: Config, sem: Semantics, p: Primary) {
    && ValidHistory(cfg, p.history) && WireInv(p)
    && (forall n | 0 <= n < |p.notices| :: p.notices[n].commit < |p.history.log|)
    && (forall key | key in p.reader.cache :: Holding(sem, p, key.0, key.1, p.reader.cache[key]))
    && (forall id | id in p.reader.active :: PrimaryReadInv(sem, p, p.reader.active[id]))
  }

  /** Everything but the reads only grows. */
  ghost predicate Extends(p: Primary, p': Primary) {
    && p'.history.base == p.history.base && p.history.log <= p'.history.log
    && p.notices <= p'.notices && p.delivered <= p'.delivered && p.wire <= p'.wire
  }

  lemma ExtendsReflexive(p: Primary)
    ensures Extends(p, p)
  {
  }

  lemma ExtendsTransitive(a: Primary, b: Primary, c: Primary)
    requires Extends(a, b) && Extends(b, c)
    ensures Extends(a, c) && |a.delivered| <= |b.delivered|
  {
  }

  lemma ResultStays(sem: Semantics, p: Primary, p': Primary, q: Query, k: nat)
    requires Extends(p, p') && WellFormed(q) && k <= |p.history.log|
    ensures ResultAt(sem, p'.history, q, k) == ResultAt(sem, p.history, q, k)
  {
    var n := |p.history.log|;
    assert p'.history.log == p.history.log + p'.history.log[n..];
    DbAtExtends(p.history, p'.history.log[n..], k);
  }

  lemma HoldingStays(sem: Semantics, p: Primary, p': Primary, q: Query, version: nat, body: Body)
    requires Extends(p, p') && Holding(sem, p, q, version, body)
    ensures Holding(sem, p', q, version, body)
  {
    hide ResultAt, WellFormed;
    var k: nat :| BodyAt(sem, p, q, version, body, k);
    ResultStays(sem, p, p', q, k);
    assert BodyAt(sem, p', q, version, body, k);
  }

  lemma ReadStays(sem: Semantics, p: Primary, p': Primary, read: Read)
    requires Extends(p, p') && Received(p) && PrimaryReadInv(sem, p, read)
    ensures PrimaryReadInv(sem, p', read)
  {
    hide Holding, WellFormed, Tables;
    if read.Computed? || read.Done? {
      HoldingStays(sem, p, p', read.q, read.version, read.body);
    }
  }

  lemma GrowthInv(cfg: Config, sem: Semantics, p: Primary, p': Primary)
    requires PrimaryInv(cfg, sem, p) && Extends(p, p') && p'.reader == p.reader
    requires ValidHistory(cfg, p'.history) && WireInv(p')
    requires forall n | 0 <= n < |p'.notices| :: p'.notices[n].commit < |p'.history.log|
    ensures PrimaryInv(cfg, sem, p')
  {
    hide Extends, Holding, PrimaryReadInv;
    forall key | key in p.reader.cache
      ensures Holding(sem, p', key.0, key.1, p.reader.cache[key])
    {
      HoldingStays(sem, p, p', key.0, key.1, p.reader.cache[key]);
    }
    forall id | id in p.reader.active
      ensures PrimaryReadInv(sem, p', p.reader.active[id])
    {
      ReadStays(sem, p, p', p.reader.active[id]);
    }
  }

  /** A query made now includes every commit announced so far. */
  lemma ComputedHolds(cfg: Config, sem: Semantics, p: Primary, q: Query, version: nat)
    requires PrimaryInv(cfg, sem, p) && WellFormed(q) && version <= |p.notices|
    ensures Holding(sem, p, q, version, ResultAt(sem, p.history, q, |p.history.log|))
  {
    hide ResultAt, WellFormed;
    assert BodyAt(sem, p, q, version, ResultAt(sem, p.history, q, |p.history.log|), |p.history.log|);
  }

  lemma ReadMoveInv(cfg: Config, sem: Semantics, p: Primary, rs: ReadStep, p': Primary)
    requires PrimaryInv(cfg, sem, p) && ReadNext(cfg, sem, Seen(cfg, p), p.reader, rs, p'.reader) &&
        p' == p.(reader := p'.reader)
    ensures PrimaryInv(cfg, sem, p')
  {
    hide ResultAt, WellFormed, Tables, QueryVersion, IndexOf, ValidHistory, Concerns;
    assert forall q, version, body :: Holding(sem, p, q, version, body) ==> Holding(sem, p', q, version, body) by {
      SameHolding(sem, p, p');
    }
    hide Holding;
    SameVersions(p, p');
    hide VersionRead;
    match rs
    case Begin(id, q) =>
    case ReadVersion(id) =>
      VersionTaken(cfg, p, p.reader.active[id].q);
    case LookUp(id) =>
    case Compute(id) =>
      ComputedReads(cfg, sem, p, p.reader.active[id]);
    case ComputeFails(id) =>
    case Store(id) =>
    case Evict(key) =>
  }

  lemma SameVersions(p: Primary, p': Primary)
    requires p' == p.(reader := p'.reader)
    ensures forall q, floor, version :: VersionRead(p, q, floor, version) ==> VersionRead(p', q, floor, version)
  {
    assert forall n, q :: Concerns(p', n, q) <==> Concerns(p, n, q);
  }

  lemma SameHolding(sem: Semantics, p: Primary, p': Primary)
    requires p' == p.(reader := p'.reader)
    ensures forall q, version, body :: Holding(sem, p, q, version, body) ==> Holding(sem, p', q, version, body)
  {
    forall q, version, body | Holding(sem, p, q, version, body)
      ensures Holding(sem, p', q, version, body)
    {
      HoldingStays(sem, p, p', q, version, body);
    }
  }

  lemma VersionTaken(cfg: Config, p: Primary, q: Query)
    requires Received(p)
    ensures VersionRead(p, q, |p.delivered|, QueryVersion(cfg, Seen(cfg, p).index, q))
  {
    hide QueryVersion, Tables, IndexOf;
    VersionCovers(cfg, p, q);
  }

  lemma ComputedReads(cfg: Config, sem: Semantics, p: Primary, read: Read)
    requires PrimaryInv(cfg, sem, p) && read.Missed? && PrimaryReadInv(sem, p, read)
    ensures WellFormed(read.q) && Holding(sem, p, read.q, read.version,
        ResultAt(sem, p.history, read.q, |p.history.log|))
  {
    hide Holding, ResultAt, PrimaryInv;
    ComputedHolds(cfg, sem, p, read.q, read.version);
  }

  /** Every step keeps the invariant, whatever order announcements are delivered in. */
  lemma PrimaryNextInv(cfg: Config, sem: Semantics, p: Primary, step: PrimaryStep, p': Primary)
    requires PrimaryInv(cfg, sem, p) && PrimaryNext(cfg, sem, p, step, p')
    ensures PrimaryInv(cfg, sem, p') && Extends(p, p')
  {
    hide ValidHistory, ReadNext, IndexOf, Holding, PrimaryReadInv;
    assert step.Receive? ==> forall n | 0 <= n < |p.notices| :: p'.notices[n] == p.notices[n];
    if step.ReadMove? {
      ReadMoveInv(cfg, sem, p, step.readStep, p');
    } else {
      GrowthInv(cfg, sem, p, p');
    }
  }

  // ---------------------------------------------------------------------------------------------
  // Whole runs.
  // ---------------------------------------------------------------------------------------------

  datatype PrimaryRun = PrimaryRun(states: seq<Primary>, steps: seq<PrimaryStep>)

  ghost predicate IsPrimaryRun(cfg: Config, sem: Semantics, run: PrimaryRun) {
    && |run.states| == |run.steps| + 1 && PrimaryInit(cfg, run.states[0])
    && forall i | 0 <= i < |run.steps| :: PrimaryNext(cfg, sem, run.states[i], run.steps[i], run.states[i + 1])
  }

  lemma PrimaryRunStep(cfg: Config, sem: Semantics, run: PrimaryRun, i: nat)
    requires IsPrimaryRun(cfg, sem, run) && i + 1 < |run.states|
    ensures |run.states| == |run.steps| + 1
    ensures PrimaryNext(cfg, sem, run.states[i], run.steps[i], run.states[i + 1])
  {
    hide PrimaryNext, PrimaryInit;
  }

  lemma PrimaryStarts(cfg: Config, sem: Semantics, run: PrimaryRun)
    requires IsPrimaryRun(cfg, sem, run)
    ensures |run.states| == |run.steps| + 1 && PrimaryInv(cfg, sem, run.states[0])
  {
    hide PrimaryNext;
  }

  lemma {:induction false} PrimaryRunInv(cfg: Config, sem: Semantics, run: PrimaryRun, i: nat)
    requires IsPrimaryRun(cfg, sem, run) && i < |run.states|
    ensures PrimaryInv(cfg, sem, run.states[i])
  {
    hide IsPrimaryRun, PrimaryNext, PrimaryInv;
    if i == 0 {
      PrimaryStarts(cfg, sem, run);
    } else {
      PrimaryRunInv(cfg, sem, run, i - 1);
      PrimaryRunStep(cfg, sem, run, i - 1);
      PrimaryNextInv(cfg, sem, run.states[i - 1], run.steps[i - 1], run.states[i]);
    }
  }

  /**
   The body includes the commit behind every announcement on the query's tables that is among the first `floor`
   deliveries.
   */
  ghost predicate FreshSince(sem: Semantics, p: Primary, q: Query, floor: nat, body: Body)
    requires WellFormed(q) && floor <= |p.delivered| && Received(p)
  {
    exists k | 0 <= k <= |p.history.log| ::
      && body == ResultAt(sem, p.history, q, k)
      && forall d | 0 <= d < floor && Concerns(p, p.delivered[d], q) :: p.notices[p.delivered[d]].commit < k
  }

  /**
   Snapshot freshness for the embedded primary, in any order of delivery and for any query: the body of a
   finished read is the result on a database prefix that includes the commit behind every announcement on the
   query's tables that had reached the index when the read took its version.
   */
  lemma PrimarySnapshotFresh(cfg: Config, sem: Semantics, run: PrimaryRun, i: nat, id: nat)
    requires IsPrimaryRun(cfg, sem, run) && i < |run.states|
    requires id in run.states[i].reader.active && run.states[i].reader.active[id].Done?
    ensures var p := run.states[i]; var read := p.reader.active[id];
            && WellFormed(read.q) && read.floor <= |p.delivered| && Received(p)
            && FreshSince(sem, p, read.q, read.floor, read.body)
  {
    hide IsPrimaryRun, ResultAt, WellFormed;
    PrimaryRunInv(cfg, sem, run, i);
    var p := run.states[i];
    var read := p.reader.active[id];
    assert PrimaryReadInv(sem, p, read);
    var k: nat :| BodyAt(sem, p, read.q, read.version, read.body, k);
  }

  lemma PrimaryFloor(cfg: Config, sem: Semantics, p: Primary, step: PrimaryStep, p': Primary, id: nat)
    requires PrimaryNext(cfg, sem, p, step, p')
    ensures FloorOf(p'.reader, id).None? || FloorOf(p'.reader, id) == FloorOf(p.reader, id) ||
            (Unversioned(p.reader, id) && FloorOf(p'.reader, id) == Some(|p.delivered|))
  {
    hide ReadNext, FloorOf, ValidHistory, IndexOf;
    if step.ReadMove? {
      FloorSetOnce(cfg, sem, Seen(cfg, p), p.reader, step.readStep, p'.reader, id);
    }
  }

  /**
   From one state of a run to a later one, the feed grows and a read that had no version gets a floor no lower
   than now.
   */
  lemma {:induction false} PrimaryFloorAfter(cfg: Config, sem: Semantics, run: PrimaryRun, i: nat, j: nat, id: nat)
    requires IsPrimaryRun(cfg, sem, run) && i <= j < |run.states| && Unversioned(run.states[i].reader, id)
    ensures Extends(run.states[i], run.states[j])
    ensures FloorOf(run.states[j].reader, id).None? ||
            FloorOf(run.states[j].reader, id).value >= |run.states[i].delivered|
    decreases j - i
  {
    hide IsPrimaryRun, PrimaryNext, PrimaryInv, Extends;
    if i == j {
      ExtendsReflexive(run.states[i]);
    } else {
      hide FloorOf;
      PrimaryFloorAfter(cfg, sem, run, i, j - 1, id);
      PrimaryRunInv(cfg, sem, run, j - 1);
      PrimaryRunStep(cfg, sem, run, j - 1);
      PrimaryNextInv(cfg, sem, run.states[j - 1], run.steps[j - 1], run.states[j]);
      PrimaryFloor(cfg, sem, run.states[j - 1], run.steps[j - 1], run.states[j], id);
      ExtendsTransitive(run.states[i], run.states[j - 1], run.states[j]);
    }
  }

  /**
   Read after delta for the embedded primary: once an announcement on the query's tables was broadcast, a read
   that has not taken its version yet returns a body that includes the commit behind it.
   */
  lemma PrimaryReadAfterDelta(
    cfg: Config, sem: Semantics, run: PrimaryRun, i: nat, j: nat, d: nat, id: nat)
    returns (k: nat)
    requires IsPrimaryRun(cfg, sem, run) && i <= j < |run.states|
    requires d < |run.states[i].wire| <= |run.states[i].delivered| && Unversioned(run.states[i].reader, id)
    requires id in run.states[j].reader.active && run.states[j].reader.active[id].Done?
    requires Concerns(run.states[i], run.states[i].delivered[d], run.states[j].reader.active[id].q)
    ensures var p, read := run.states[j], run.states[j].reader.active[id];
            && WellFormed(read.q) && run.states[i].notices[run.states[i].delivered[d]].commit < k <= |p.history.log|
            && read.body == ResultAt(sem, p.history, read.q, k)
  {
    hide IsPrimaryRun, ResultAt, WellFormed, Tables;
    PrimaryFloorAfter(cfg, sem, run, i, j, id);
    PrimarySnapshotFresh(cfg, sem, run, j, id);
    var before, p := run.states[i], run.states[j];
    var read := p.reader.active[id];
    k :| 0 <= k <= |p.history.log| && read.body == ResultAt(sem, p.history, read.q, k)
      && forall e | 0 <= e < read.floor && Concerns(p, p.delivered[e], read.q) :: p.notices[p.delivered[e]].commit < k;
    assert p.delivered[d] == before.delivered[d];
    assert Concerns(p, p.delivered[d], read.q);
  }
}

/**
 What every step of the live hub keeps. From it follow the replay property, the stream grammar and the
 convergence of subscriptions, for every interleaving.
 */
module LiveInvariant {
  import opened Text
  import opened ChangeLog
  import opened Database
  import opened Queries
  import opened Invalidation
  import opened Diff
  import opened Feed
  import opened LiveHub

  ghost predicate Within(trail: seq<nat>, n: nat) {
    forall i | 0 <= i < |trail| :: trail[i] <= n
  }

  ghost function States(s: Setup, h: History, q: Query, trail: seq<nat>): seq<KeyedRows>
    requires WellFormed(q) && Within(trail, |h.log|)
  {
    seq(|trail|, i requires 0 <= i < |trail| => KeyedAt(s, h, q, trail[i]))
  }

  /** The opening body is the query's result on the first database prefix of the trail. */
  ghost predicate OpensWith(s: Setup, h: History, st: Stream)
    requires WellFormed(st.q) && st.trail != [] && st.trail[0] <= |h.log|
  {
    st.opening == ResultAt(s.sem, h, st.q, st.trail[0])
  }

  /** The stream is a transcript of the keyed results along its trail. */
  ghost predicate Recorded(s: Setup, h: History, st: Stream) {
    && WellFormed(st.q)
    && st.trail != [] && Within(st.trail, |h.log|) && OpensWith(s, h, st)
    && Transcript(s.sem.hash, KeyColumn(s.columns, st.q), st.opening, st.events, States(s, h, st.q, st.trail))
  }

  function WithoutLast(st: Stream): Stream
    requires st.events != [] && st.origins != []
  {
    st.(events := st.events[..|st.events| - 1], origins := st.origins[..|st.origins| - 1])
  }

  /** Recorded, possibly with one final reset. */
  ghost predicate Settled(s: Setup, h: History, st: Stream) {
    || Recorded(s, h, st)
    || (st.events != [] && st.origins != [] && st.events[|st.events| - 1] == Reset && Recorded(s, h, WithoutLast(st)))
  }

  /** A listed subscription's `last` is the final state of its own stream. */
  ghost predicate Holds(s: Setup, h: History, st: Stream, sub: Sub) {
    && Recorded(s, h, st)
    && sub == Sub(st.q, KeyedAt(s, h, st.q, st.trail[|st.trail| - 1]))
  }

  function TxidOf(e: Event): Option<nat> {
    match e
    case Change(_, txid) => Some(txid)
    case UpToDate(txid) => Some(txid)
    case _ => None
  }

  /** The message was broadcast and carries this transaction id. */
  ghost predicate Broadcasted(f: Feed, message: nat, txid: nat) {
    message < |f.wire| && f.wire[message].txn.xid == txid
  }

  /** The message behind each event that carries a transaction id was broadcast, and the id is its own. */
  ghost predicate OriginsSent(f: Feed, st: Stream) {
    && |st.origins| == |st.events|
    && forall i | 0 <= i < |st.events| && TxidOf(st.events[i]).Some? ::
         st.origins[i].Some? && Broadcasted(f, st.origins[i].value, TxidOf(st.events[i]).value)
  }

  /** A message is broadcast only after the commit it announces was applied. */
  ghost predicate WireSound(f: Feed) {
    forall i | 0 <= i < |f.wire| :: f.wire[i].commit < |f.history.log|
  }

  /** The prefix `m` includes every commit on the query's tables that the first `n` messages announce. */
  ghost predicate CaughtUp(f: Feed, q: Query, m: nat, n: nat) {
    forall i | 0 <= i < n && i < |f.wire| && Affected(f.wire[i].txn, q) :: f.wire[i].commit < m
  }

  /** The messages already accounted for in this subscription: one more once the worker has dealt with it. */
  function Horizon(hub: Hub, id: nat): nat {
    if hub.work.Working? && id !in JobIds(hub.work.jobs) then hub.processed + 1 else hub.processed
  }

  ghost predicate IdsInv(hub: Hub) {
    && (forall id: nat :: id in hub.streams <==> id < hub.nextId)
    && hub.subs.Keys !! hub.joining.Keys
    && hub.subs.Keys <= hub.open && hub.joining.Keys <= hub.open && hub.open <= hub.streams.Keys
  }

  ghost predicate StreamsInv(s: Setup, f: Feed, hub: Hub) {
    forall id | id in hub.streams :: Settled(s, f.history, hub.streams[id]) && OriginsSent(f, hub.streams[id])
  }

  ghost predicate ListedInv(s: Setup, f: Feed, hub: Hub)
    requires IdsInv(hub)
  {
    && (forall id | id in hub.subs :: Holds(s, f.history, hub.streams[id], hub.subs[id]))
    && (forall id | id in hub.joining :: Holds(s, f.history, hub.streams[id], hub.joining[id]))
    && (forall id | id in hub.joining :: |hub.streams[id].trail| == 1)
  }

  /** A cloned job still agrees with the table: ids are never reused and only the worker writes `last`. */
  ghost predicate JobsInv(hub: Hub, jobs: seq<Job>) {
    && (forall i | 0 <= i < |jobs| ::
          && jobs[i].id in hub.streams && jobs[i].id !in hub.joining
          && jobs[i].q == hub.streams[jobs[i].id].q
          && (jobs[i].id in hub.subs ==> hub.subs[jobs[i].id] == Sub(jobs[i].q, jobs[i].last)))
    && (forall i, j | 0 <= i < j < |jobs| :: jobs[i].id != jobs[j].id)
  }

  ghost predicate FetchedInv(s: Setup, f: Feed, hub: Hub)
    requires hub.work.Working? && hub.work.fetched.Some?
  {
    var Fetched(next, asOf) := hub.work.fetched.value;
    && hub.work.jobs != [] && WellFormed(hub.work.jobs[0].q)
    && asOf <= |f.history.log| && hub.work.message < |f.wire|
    && (forall i | 0 <= i <= hub.work.message :: f.wire[i].commit < asOf)
    && next == KeyedAt(s, f.history, hub.work.jobs[0].q, asOf)
  }

  ghost predicate WorkInv(s: Setup, f: Feed, hub: Hub) {
    && hub.processed <= |f.wire|
    && (hub.work.Working? ==>
          && hub.work.message == hub.processed < |f.wire|
          && JobsInv(hub, hub.work.jobs)
          && (hub.work.fetched.Some? ==> FetchedInv(s, f, hub)))
  }

  ghost predicate QuietInv(f: Feed, hub: Hub)
    requires IdsInv(hub)
  {
    forall id | id in hub.subs && |hub.streams[id].trail| >= 2 ::
      CaughtUp(f, hub.streams[id].q, hub.streams[id].trail[|hub.streams[id].trail| - 1], Horizon(hub, id))
  }

  ghost predicate HubInv(s: Setup, f: Feed, hub: Hub) {
    IdsInv(hub) && StreamsInv(s, f, hub) && ListedInv(s, f, hub) && WorkInv(s, f, hub) && QuietInv(f, hub)
  }

  lemma HubInitInv(s: Setup, f: Feed, hub: Hub)
    requires HubInit(hub)
    ensures HubInv(s, f, hub)
  {
  }

  // ---------------------------------------------------------------------------------------------
  // The feed grows.
  // ---------------------------------------------------------------------------------------------

  lemma KeyedSettled(s: Setup, f: Feed, f': Feed, q: Query, k: nat)
    requires Grows(f, f') && WellFormed(q) && k <= |f.history.log|
    ensures KeyedAt(s, f'.history, q, k) == KeyedAt(s, f.history, q, k)
  {
    PrefixSettled(s.index, s.sem, f, f', q, k);
  }

  lemma RecordedSettled(s: Setup, f: Feed, f': Feed, st: Stream)
    requires Grows(f, f') && Recorded(s, f.history, st)
    ensures Recorded(s, f'.history, st)
    ensures KeyedAt(s, f'.history, st.q, st.trail[|st.trail| - 1]) ==
        KeyedAt(s, f.history, st.q, st.trail[|st.trail| - 1])
  {
    hide Transcript, KeyedAt, Covered, ResultAt;
    PrefixSettled(s.index, s.sem, f, f', st.q, st.trail[0]);
    forall i | 0 <= i < |st.trail|
      ensures KeyedAt(s, f'.history, st.q, st.trail[i]) == KeyedAt(s, f.history, st.q, st.trail[i])
    {
      KeyedSettled(s, f, f', st.q, st.trail[i]);
    }
    assert States(s, f'.history, st.q, st.trail) == States(s, f.history, st.q, st.trail);
  }

  lemma StreamSettled(s: Setup, f: Feed, f': Feed, st: Stream)
    requires Grows(f, f') && Settled(s, f.history, st) && OriginsSent(f, st)
    ensures Settled(s, f'.history, st) && OriginsSent(f', st)
  {
    hide Recorded;
    if Recorded(s, f.history, st) {
      RecordedSettled(s, f, f', st);
    } else {
      RecordedSettled(s, f, f', WithoutLast(st));
    }
    forall i | 0 <= i < |st.events| && TxidOf(st.events[i]).Some?
      ensures Broadcasted(f', st.origins[i].value, TxidOf(st.events[i]).value)
    {
      BroadcastStays(f, f', st.origins[i].value, TxidOf(st.events[i]).value);
    }
  }

  lemma BroadcastStays(f: Feed, f': Feed, message: nat, txid: nat)
    requires Grows(f, f') && Broadcasted(f, message, txid)
    ensures Broadcasted(f', message, txid)
  {
  }

  lemma CaughtUpStays(f: Feed, f': Feed, q: Query, m: nat, n: nat)
    requires Grows(f, f') && CaughtUp(f, q, m, n) && n <= |f.wire|
    ensures CaughtUp(f', q, m, n)
  {
    hide Affected;
  }

  lemma HubSettled(s: Setup, f: Feed, f': Feed, hub: Hub)
    requires Grows(f, f') && HubInv(s, f, hub)
    ensures HubInv(s, f', hub)
  {
    hide Recorded, Settled, OriginsSent, KeyedAt, CaughtUp, Grows, JobsInv;
    GrowthBounds(f, f');
    forall id | id in hub.streams
      ensures Settled(s, f'.history, hub.streams[id]) && OriginsSent(f', hub.streams[id])
    {
      StreamSettled(s, f, f', hub.streams[id]);
    }
    forall id | id in hub.subs
      ensures Holds(s, f'.history, hub.streams[id], hub.subs[id])
    {
      RecordedSettled(s, f, f', hub.streams[id]);
    }
    forall id | id in hub.joining
      ensures Holds(s, f'.history, hub.streams[id], hub.joining[id])
    {
      RecordedSettled(s, f, f', hub.streams[id]);
    }
    if hub.work.Working? && hub.work.fetched.Some? {
      KeyedSettled(s, f, f', hub.work.jobs[0].q, hub.work.fetched.value.asOf);
    }
    forall id | id in hub.subs && |hub.streams[id].trail| >= 2
      ensures CaughtUp(f', hub.streams[id].q, hub.streams[id].trail[|hub.streams[id].trail| - 1], Horizon(hub, id))
    {
      CaughtUpStays(f, f', hub.streams[id].q, hub.streams[id].trail[|hub.streams[id].trail| - 1], Horizon(hub, id));
    }
  }

  lemma GrowthBounds(f: Feed, f': Feed)
    requires Grows(f, f')
    ensures |f.wire| <= |f'.wire| && |f.history.log| <= |f'.history.log|
    ensures forall i | 0 <= i < |f.wire| :: f'.wire[i] == f.wire[i]
  {
  }

  // ---------------------------------------------------------------------------------------------
  // One lemma for each step.
  // ---------------------------------------------------------------------------------------------

  lemma AllocateInv(s: Setup, f: Feed, hub: Hub, q: Query, rows: seq<JsonRow>, version: nat, asOf: nat, public: bool)
    requires HubInv(s, f, hub)
    requires WellFormed(q) && asOf <= |f.history.log| && rows == ResultAt(s.sem, f.history, q, asOf)
    ensures HubInv(s, f, AllocateStep(s, hub, q, rows, version, asOf, public))
  {
    hide Holds, Settled, OriginsSent, KeyRows, StreamsInv, ListedInv, WorkInv, QuietInv;
    SnapshotHolds(s, f, q, rows, version, asOf, public);
    var hub' := AllocateStep(s, hub, q, rows, version, asOf, public);
    NewcomerStreams(s, f, hub, hub', hub'.streams[hub.nextId], hub'.joining[hub.nextId]);
    AllocateWork(s, f, hub, hub');
  }

  lemma NewcomerStreams(s: Setup, f: Feed, hub: Hub, hub': Hub, st: Stream, sub: Sub)
    requires IdsInv(hub) && StreamsInv(s, f, hub) && ListedInv(s, f, hub)
    requires hub' == hub.(nextId := hub.nextId + 1, open := hub.open + {hub.nextId},
                          joining := hub.joining[hub.nextId := sub], streams := hub.streams[hub.nextId := st])
    requires Holds(s, f.history, st, sub) && Settled(s, f.history, st) && OriginsSent(f, st) && |st.trail| == 1
    ensures IdsInv(hub') && StreamsInv(s, f, hub') && ListedInv(s, f, hub')
  {
    hide Holds, Settled, OriginsSent;
  }

  /** A newcomer, which is not listed yet, does not concern the worker. */
  lemma AllocateWork(s: Setup, f: Feed, hub: Hub, hub': Hub)
    requires IdsInv(hub) && IdsInv(hub') && WorkInv(s, f, hub) && QuietInv(f, hub)
    requires hub'.subs == hub.subs && hub'.work == hub.work && hub'.processed == hub.processed
    requires hub.nextId !in hub.streams
    requires hub'.joining.Keys == hub.joining.Keys + {hub.nextId}
    requires hub'.streams.Keys == hub.streams.Keys + {hub.nextId}
    requires forall id | id in hub.streams :: hub'.streams[id] == hub.streams[id]
    ensures WorkInv(s, f, hub') && QuietInv(f, hub')
  {
    hide CaughtUp, JobsInv, FetchedInv, JobIds;
    if hub.work.Working? {
      NewcomerJobs(hub, hub', hub.work.jobs);
      if hub.work.fetched.Some? {
        SameFetched(s, f, hub, hub');
      }
    }
  }

  lemma SameFetched(s: Setup, f: Feed, hub: Hub, hub': Hub)
    requires hub.work.Working? && hub.work.fetched.Some? && FetchedInv(s, f, hub) && hub'.work == hub.work
    ensures FetchedInv(s, f, hub')
  {
    hide KeyedAt, WellFormed;
  }

  lemma SnapshotHolds(s: Setup, f: Feed, q: Query, rows: seq<JsonRow>, version: nat, asOf: nat, public: bool)
    requires WellFormed(q) && asOf <= |f.history.log| && rows == ResultAt(s.sem, f.history, q, asOf)
    ensures var st := Stream(q, rows, [OpeningEvent(q, rows, version, public)], [asOf], [None]);
            Holds(s, f.history, st, Sub(q, KeyRows(s, q, rows))) && Settled(s, f.history, st) && OriginsSent(f, st)
  {
    assert States(s, f.history, q, [asOf]) == [KeyedAt(s, f.history, q, asOf)];
  }

  lemma NewcomerJobs(hub: Hub, hub': Hub, jobs: seq<Job>)
    requires JobsInv(hub, jobs) && hub.nextId !in hub.streams && hub'.subs == hub.subs
    requires hub'.joining.Keys == hub.joining.Keys + {hub.nextId}
    requires hub'.streams.Keys == hub.streams.Keys + {hub.nextId}
    requires forall id | id in hub.streams :: hub'.streams[id] == hub.streams[id]
    ensures JobsInv(hub', jobs)
  {
  }

  lemma EnlistInv(s: Setup, f: Feed, hub: Hub, id: nat)
    requires HubInv(s, f, hub) && id in hub.joining
    ensures HubInv(s, f, EnlistStep(hub, id))
  {
    hide Recorded, Holds, Settled, OriginsSent, KeyedAt, CaughtUp;
  }

  lemma UnlistInv(s: Setup, f: Feed, hub: Hub, id: nat)
    requires HubInv(s, f, hub)
    ensures HubInv(s, f, UnlistStep(hub, id))
  {
    hide Recorded, Holds, Settled, OriginsSent, KeyedAt, CaughtUp;
  }

  lemma CloseInv(s: Setup, f: Feed, hub: Hub, id: nat)
    requires HubInv(s, f, hub) && id !in hub.joining && id !in hub.subs
    ensures HubInv(s, f, CloseStep(hub, id))
  {
    hide Recorded, Holds, Settled, OriginsSent, KeyedAt, CaughtUp;
  }

  /** Collection leaves an unaffected subscription quiet through this commit as well. */
  lemma CollectInv(s: Setup, f: Feed, hub: Hub, jobs: seq<Job>)
    requires HubInv(s, f, hub) && hub.work.Idle? && hub.processed < |f.wire|
    requires JobsMatch(hub.subs, f.wire[hub.processed].txn, jobs)
    ensures HubInv(s, f, hub.(work := Working(hub.processed, jobs, None)))
  {
    hide Recorded, Settled, OriginsSent, KeyedAt, Affected;
    var hub' := hub.(work := Working(hub.processed, jobs, None));
    assert ListedInv(s, f, hub');
    forall i | 0 <= i < |jobs|
      ensures jobs[i].q == hub.streams[jobs[i].id].q
    {
      assert Holds(s, f.history, hub.streams[jobs[i].id], hub.subs[jobs[i].id]);
    }
    assert WorkInv(s, f, hub');
    forall id | id in hub.subs && |hub.streams[id].trail| >= 2
      ensures CaughtUp(f, hub.streams[id].q, hub.streams[id].trail[|hub.streams[id].trail| - 1], Horizon(hub', id))
    {
      assert Holds(s, f.history, hub.streams[id], hub.subs[id]);
    }
  }

  lemma FetchInv(s: Setup, f: Feed, hub: Hub)
    requires HubInv(s, f, hub) && WireSound(f)
    requires hub.work.Working? && hub.work.jobs != [] && WellFormed(hub.work.jobs[0].q)
    ensures var n := |f.history.log|;
            HubInv(s, f, hub.(work := hub.work.(fetched :=
                Some(Fetched(KeyedAt(s, f.history, hub.work.jobs[0].q, n), n)))))
  {
    hide Recorded, Settled, Holds, OriginsSent, KeyedAt, CaughtUp;
  }

  /** Leaving the first job behind keeps what is known about the others. */
  lemma NextJobInv(s: Setup, f: Feed, hub: Hub)
    requires IdsInv(hub) && StreamsInv(s, f, hub) && ListedInv(s, f, hub) && hub.processed < |f.wire|
    requires hub.work.Working? && hub.work.message == hub.processed && hub.work.jobs != [] &&
        JobsInv(hub, hub.work.jobs[1..])
    requires forall id | id in hub.subs && |hub.streams[id].trail| >= 2 && id != hub.work.jobs[0].id ::
               CaughtUp(f, hub.streams[id].q, hub.streams[id].trail[|hub.streams[id].trail| - 1], Horizon(hub, id))
    requires var id := hub.work.jobs[0].id; id in hub.subs && |hub.streams[id].trail| >= 2 ==>
               CaughtUp(f, hub.streams[id].q, hub.streams[id].trail[|hub.streams[id].trail| - 1],
                   hub.processed + 1)
    requires hub.work.jobs[0].id !in JobIds(hub.work.jobs[1..])
    ensures HubInv(s, f, NextJob(hub))
  {
    hide Recorded, Settled, Holds, OriginsSent, KeyedAt, CaughtUp, JobsInv;
    var hub' := NextJob(hub);
    assert JobsInv(hub', hub'.work.jobs) by { JobsFrame(hub, hub', hub.work.jobs[1..]); }
    JobIdsSplit(hub.work.jobs);
    forall id | id in hub'.subs && id != hub.work.jobs[0].id
      ensures Horizon(hub', id) == Horizon(hub, id)
    {
    }
    assert ListedInv(s, f, hub');
    assert StreamsInv(s, f, hub');
  }

  lemma JobsFrame(hub: Hub, hub': Hub, jobs: seq<Job>)
    requires JobsInv(hub, jobs)
    requires hub'.subs == hub.subs && hub'.joining == hub.joining && hub'.streams == hub.streams
    ensures JobsInv(hub', jobs)
  {
  }

  lemma JobIdsSplit(jobs: seq<Job>)
    requires jobs != []
    ensures JobIds(jobs) == {jobs[0].id} + JobIds(jobs[1..])
  {
    forall id
      ensures id in JobIds(jobs) <==> id == jobs[0].id || id in JobIds(jobs[1..])
    {
      if id in JobIds(jobs) {
        var i :| 0 <= i < |jobs| && jobs[i].id == id;
        assert i == 0 || jobs[1..][i - 1].id == id;
      }
      if id in JobIds(jobs[1..]) {
        var i :| 0 <= i < |jobs[1..]| && jobs[1..][i].id == id;
        assert jobs[i + 1].id == id;
      }
    }
  }

  lemma FirstJobDistinct(hub: Hub, jobs: seq<Job>)
    requires jobs != [] && JobsInv(hub, jobs)
    ensures jobs[0].id !in JobIds(jobs[1..]) && JobsInv(hub, jobs[1..])
  {
    assert forall i | 0 <= i < |jobs[1..]| :: jobs[1..][i] == jobs[i + 1];
  }

  lemma ResetSettles(s: Setup, f: Feed, st: Stream)
    requires Recorded(s, f.history, st) && OriginsSent(f, st)
    ensures Settled(s, f.history, SendReset(st)) && OriginsSent(f, SendReset(st))
  {
    hide Recorded;
    assert WithoutLast(SendReset(st)) == st;
  }

  /** The first job's stream and table entry may be replaced together. */
  ghost predicate Replaces(s: Setup, f: Feed, hub: Hub, id: nat, st: Stream, subs: map<nat, Sub>) {
    && id in hub.streams && Settled(s, f.history, st) && OriginsSent(f, st)
    && subs.Keys <= hub.subs.Keys && (forall x | x in hub.subs && x != id :: x in subs && subs[x] == hub.subs[x])
    && (id in subs ==> Holds(s, f.history, st, subs[id]) && st.trail != [])
    && (id in subs && |st.trail| >= 2 ==> CaughtUp(f, st.q, st.trail[|st.trail| - 1], hub.processed + 1))
  }

  function Replaced(hub: Hub, id: nat, st: Stream, subs: map<nat, Sub>): Hub {
    hub.(subs := subs, streams := hub.streams[id := st])
  }

  lemma ReplacedStreams(s: Setup, f: Feed, hub: Hub, id: nat, st: Stream, subs: map<nat, Sub>)
    requires IdsInv(hub) && StreamsInv(s, f, hub) && ListedInv(s, f, hub) && id !in hub.joining
    requires Replaces(s, f, hub, id, st, subs)
    ensures var mid := Replaced(hub, id, st, subs); IdsInv(mid) && StreamsInv(s, f, mid) && ListedInv(s, f, mid)
  {
    hide Holds, Settled, OriginsSent, CaughtUp;
  }

  lemma ReplacedQuiet(s: Setup, f: Feed, hub: Hub, id: nat, st: Stream, subs: map<nat, Sub>)
    requires IdsInv(hub) && QuietInv(f, hub) && Replaces(s, f, hub, id, st, subs)
    ensures var mid := Replaced(hub, id, st, subs);
            forall x | x in mid.subs && |mid.streams[x].trail| >= 2 && x != id ::
              CaughtUp(f, mid.streams[x].q, mid.streams[x].trail[|mid.streams[x].trail| - 1], Horizon(mid, x))
  {
    hide Holds, Settled, OriginsSent, CaughtUp, JobIds;
  }

  lemma InvParts(s: Setup, f: Feed, hub: Hub)
    requires HubInv(s, f, hub)
    ensures IdsInv(hub) && StreamsInv(s, f, hub) && ListedInv(s, f, hub) && QuietInv(f, hub)
    ensures hub.work.Working? ==>
              hub.work.message == hub.processed < |f.wire| && JobsInv(hub, hub.work.jobs)
  {
    hide IdsInv, StreamsInv, ListedInv, QuietInv, JobsInv, FetchedInv;
  }

  lemma JobParts(hub: Hub, jobs: seq<Job>)
    requires JobsInv(hub, jobs) && jobs != []
    ensures jobs[0].id in hub.streams && jobs[0].id !in hub.joining && jobs[0].q == hub.streams[jobs[0].id].q
    ensures jobs[0].id in hub.subs ==> hub.subs[jobs[0].id] == Sub(jobs[0].q, jobs[0].last)
  {
  }

  lemma ReplacedJobs(s: Setup, f: Feed, hub: Hub, jobs: seq<Job>, st: Stream, subs: map<nat, Sub>)
    requires jobs != [] && JobsInv(hub, jobs) && Replaces(s, f, hub, jobs[0].id, st, subs)
    ensures JobsInv(Replaced(hub, jobs[0].id, st, subs), jobs[1..])
  {
    hide Holds, Settled, OriginsSent, CaughtUp;
    OtherJobs(hub, Replaced(hub, jobs[0].id, st, subs), jobs, jobs[0].id);
  }

  /** Whatever happened to the first job, the invariant holds once it is left behind. */
  lemma FirstJobInv(s: Setup, f: Feed, hub: Hub, st: Stream, subs: map<nat, Sub>)
    requires HubInv(s, f, hub) && hub.work.Working? && hub.work.jobs != []
    requires Replaces(s, f, hub, hub.work.jobs[0].id, st, subs)
    ensures HubInv(s, f, NextJob(Replaced(hub, hub.work.jobs[0].id, st, subs)))
  {
    hide HubInv, IdsInv, StreamsInv, ListedInv, QuietInv, JobsInv, Holds, Settled, OriginsSent, CaughtUp, JobIds,
        Horizon;
    var jobs, id := hub.work.jobs, hub.work.jobs[0].id;
    InvParts(s, f, hub);
    JobParts(hub, jobs);
    FirstJobDistinct(hub, jobs);
    ReplacedJobs(s, f, hub, jobs, st, subs);
    ReplacedStreams(s, f, hub, id, st, subs);
    ReplacedQuiet(s, f, hub, id, st, subs);
    NextJobInv(s, f, Replaced(hub, id, st, subs));
  }

  /** Leaving the first job of a subscription that is no longer listed changes nothing else. */
  lemma UnlistedJobInv(s: Setup, f: Feed, hub: Hub)
    requires HubInv(s, f, hub) && hub.work.Working? && hub.work.jobs != [] && hub.work.jobs[0].id !in hub.subs
    ensures HubInv(s, f, NextJob(hub))
  {
    hide HubInv, IdsInv, ListedInv, QuietInv, JobsInv, Holds, Settled, OriginsSent, CaughtUp;
    var id := hub.work.jobs[0].id;
    InvParts(s, f, hub);
    JobParts(hub, hub.work.jobs);
    assert hub.streams[id := hub.streams[id]] == hub.streams;
    FirstJobInv(s, f, hub, hub.streams[id], hub.subs);
  }

  lemma FetchFailsInv(s: Setup, f: Feed, hub: Hub)
    requires HubInv(s, f, hub) && hub.work.Working? && hub.work.jobs != [] && hub.work.fetched.None?
    ensures HubInv(s, f, FetchFailsStep(hub))
  {
    hide HubInv, Holds, Settled, Recorded, OriginsSent, CaughtUp;
    var id := hub.work.jobs[0].id;
    if id in hub.subs {
      ListedStream(s, f, hub, id);
      ResetSettles(s, f, hub.streams[id]);
      FirstJobInv(s, f, hub, SendReset(hub.streams[id]), hub.subs - {id});
    } else {
      UnlistedJobInv(s, f, hub);
    }
  }

  lemma ListedStream(s: Setup, f: Feed, hub: Hub, id: nat)
    requires HubInv(s, f, hub) && id in hub.subs
    ensures id in hub.streams && id in hub.open && Holds(s, f.history, hub.streams[id], hub.subs[id])
    ensures Recorded(s, f.history, hub.streams[id]) && OriginsSent(f, hub.streams[id])
  {
    hide WorkInv, QuietInv, Recorded, Settled, OriginsSent;
    assert Holds(s, f.history, hub.streams[id], hub.subs[id]);
  }

  /** The extended stream is recorded: the job's clone of `last` is still what the stream ends in. */
  lemma DeliveryRecorded(
    s: Setup, f: Feed, st: Stream, sub: Sub, deltas: seq<Delta>, txid: nat, message: nat, asOf: nat)
    requires Holds(s, f.history, st, sub) && asOf <= |f.history.log|
    requires IsDiff(deltas, sub.last, KeyedAt(s, f.history, st.q, asOf))
    ensures Holds(s, f.history, SendBatch(st, deltas, txid, message, asOf),
        Sub(st.q, KeyedAt(s, f.history, st.q, asOf)))
  {
    hide KeyedAt, IsDiff, Transcript, Batch, BatchOrigins;
    var states, pk := States(s, f.history, st.q, st.trail), KeyColumn(s.columns, st.q);
    TranscriptExtends(s.sem.hash, pk, st.opening, st.events, states, deltas, txid, KeyedAt(s, f.history, st.q, asOf));
    assert States(s, f.history, st.q, st.trail + [asOf]) == states + [KeyedAt(s, f.history, st.q, asOf)];
  }

  lemma BatchSent(f: Feed, st: Stream, deltas: seq<Delta>, txid: nat, message: nat, asOf: nat)
    requires OriginsSent(f, st) && Broadcasted(f, message, txid)
    ensures OriginsSent(f, SendBatch(st, deltas, txid, message, asOf))
  {
    hide Broadcasted;
    var more := SendBatch(st, deltas, txid, message, asOf);
    forall i | 0 <= i < |more.events| && TxidOf(more.events[i]).Some?
      ensures more.origins[i].Some? && Broadcasted(f, more.origins[i].value, TxidOf(more.events[i]).value)
    {
      if i >= |st.events| {
        assert more.events[i] == Batch(deltas, txid)[i - |st.events|];
        assert more.origins[i] == BatchOrigins(deltas, message)[i - |st.events|];
      }
    }
  }

  /** What a delivery does to its own stream. */
  lemma Delivered(s: Setup, f: Feed, hub: Hub, deltas: seq<Delta>) returns (more: Stream)
    requires HubInv(s, f, hub) && hub.work.Working? && hub.work.jobs != [] && hub.work.fetched.Some?
    requires hub.work.message < |f.wire| && hub.work.jobs[0].id in hub.subs
    requires IsDiff(deltas, hub.work.jobs[0].last, hub.work.fetched.value.next)
    ensures var id, txid := hub.work.jobs[0].id, f.wire[hub.work.message].txn.xid;
            var Fetched(next, asOf) := hub.work.fetched.value;
            && id in hub.streams && more == SendBatch(hub.streams[id], deltas, txid, hub.work.message, asOf)
            && Holds(s, f.history, more, hub.subs[id].(last := next))
            && Settled(s, f.history, more) && OriginsSent(f, more)
            && CaughtUp(f, more.q, asOf, hub.processed + 1)
  {
    hide Recorded, KeyedAt, CaughtUp, OriginsSent, IsDiff, Batch, Broadcasted, JobIds, SendBatch, IdsInv;
    var id, message, txid := hub.work.jobs[0].id, hub.work.message, f.wire[hub.work.message].txn.xid;
    var Fetched(next, asOf) := hub.work.fetched.value;
    assert id in hub.streams && hub.subs[id] == Sub(hub.streams[id].q, hub.work.jobs[0].last);
    more := SendBatch(hub.streams[id], deltas, txid, message, asOf);
    assert more.q == hub.streams[id].q by { SendBatchQuery(hub.streams[id], deltas, txid, message, asOf); }
    DeliveryRecorded(s, f, hub.streams[id], hub.subs[id], deltas, txid, message, asOf);
    BatchSent(f, hub.streams[id], deltas, txid, message, asOf) by { WorkTxid(s, f, hub); }
    FetchedCatchesUp(s, f, hub, more.q);
  }

  lemma SendBatchQuery(st: Stream, deltas: seq<Delta>, txid: nat, message: nat, asOf: nat)
    ensures SendBatch(st, deltas, txid, message, asOf).q == st.q
    ensures SendBatch(st, deltas, txid, message, asOf).trail == st.trail + [asOf]
  {
  }

  lemma DeliverInv(s: Setup, f: Feed, hub: Hub, deltas: seq<Delta>)
    requires HubInv(s, f, hub) && hub.work.Working? && hub.work.jobs != [] && hub.work.fetched.Some?
    requires hub.work.message < |f.wire|
    requires IsDiff(deltas, hub.work.jobs[0].last, hub.work.fetched.value.next)
    ensures HubInv(s, f, DeliverStep(hub, deltas, f.wire[hub.work.message].txn.xid))
  {
    hide HubInv, Holds, Settled, Recorded, OriginsSent, CaughtUp, SendBatch, IsDiff;
    var id := hub.work.jobs[0].id;
    if id in hub.subs {
      ListedStream(s, f, hub, id);
      var more := Delivered(s, f, hub, deltas);
      var txid, asOf := f.wire[hub.work.message].txn.xid, hub.work.fetched.value.asOf;
      SendBatchQuery(hub.streams[id], deltas, txid, hub.work.message, asOf);
      FirstJobInv(s, f, hub, more, hub.subs[id := hub.subs[id].(last := hub.work.fetched.value.next)]);
    } else {
      UnlistedJobInv(s, f, hub);
    }
  }

  /** A re-query made while the worker deals with a message includes every commit announced up to it. */
  lemma FetchedCatchesUp(s: Setup, f: Feed, hub: Hub, q: Query)
    requires hub.work.Working? && hub.work.fetched.Some? && FetchedInv(s, f, hub) && hub.work.message == hub.processed
    ensures CaughtUp(f, q, hub.work.fetched.value.asOf, hub.processed + 1)
  {
    hide KeyedAt, WellFormed, Affected;
  }

  lemma WorkTxid(s: Setup, f: Feed, hub: Hub)
    requires WorkInv(s, f, hub) && hub.work.Working? && hub.work.message < |f.wire|
    ensures Broadcasted(f, hub.work.message, f.wire[hub.work.message].txn.xid)
  {
  }

  lemma OtherJobs(hub: Hub, mid: Hub, jobs: seq<Job>, id: nat)
    requires jobs != [] && JobsInv(hub, jobs) && jobs[0].id == id && id in hub.streams
    requires mid.joining == hub.joining && mid.streams.Keys == hub.streams.Keys
    requires forall x | x in hub.streams && x != id :: mid.streams[x] == hub.streams[x]
    requires forall x | x != id :: x in mid.subs <==> x in hub.subs
    requires forall x | x in hub.subs && x != id :: mid.subs[x] == hub.subs[x]
    ensures JobsInv(mid, jobs[1..])
  {
    assert forall i | 0 <= i < |jobs[1..]| :: jobs[1..][i] == jobs[i + 1];
  }

  /** The final clean-up removes nothing: a listed subscription always has an open receiver. */
  lemma RetainKeepsAll(hub: Hub)
    requires IdsInv(hub)
    ensures Retain(hub.subs, hub.open) == hub.subs
  {
  }

  lemma FinishInv(s: Setup, f: Feed, hub: Hub)
    requires HubInv(s, f, hub) && hub.work.Working? && hub.work.jobs == []
    ensures HubInv(s, f, FinishStep(hub))
  {
    hide Recorded, Settled, Holds, KeyedAt, CaughtUp, OriginsSent;
    RetainKeepsAll(hub);
    assert forall id :: Horizon(FinishStep(hub), id) == Horizon(hub, id);
  }

  lemma LagInv(s: Setup, f: Feed, hub: Hub)
    requires HubInv(s, f, hub) && hub.work.Idle? && |f.wire| > CAPACITY
    ensures HubInv(s, f, LagStep(hub, |f.wire|))
  {
    hide Recorded, Settled, KeyedAt, CaughtUp, OriginsSent;
    var hub' := LagStep(hub, |f.wire|);
    forall id | id in hub'.streams
      ensures Settled(s, f.history, hub'.streams[id]) && OriginsSent(f, hub'.streams[id])
    {
      if id in hub.subs {
        ResetSettles(s, f, hub.streams[id]);
      }
    }
  }

  lemma HubNextInv(s: Setup, f: Feed, hub: Hub, step: HubStep, hub': Hub)
    requires HubInv(s, f, hub) && WireSound(f) && HubNext(s, f, hub, step, hub')
    ensures HubInv(s, f, hub')
  {
    hide HubInv, JobsMatch, IsDiff, AllocateStep, FetchFailsStep, DeliverStep, FinishStep, LagStep, KeyedAt,
        ResultAt, WellFormed;
    match step
    case Allocate(q, rows, version, asOf, public) => AllocateInv(s, f, hub, q, rows, version, asOf, public);
    case Enlist(id) => EnlistInv(s, f, hub, id);
    case Unlist(id) => UnlistInv(s, f, hub, id);
    case Close(id) => CloseInv(s, f, hub, id);
    case Collect(jobs) => CollectInv(s, f, hub, jobs);
    case Fetch => FetchInv(s, f, hub);
    case FetchFails => FetchFailsInv(s, f, hub);
    case Deliver(deltas) => DeliverInv(s, f, hub, deltas);
    case Finish => FinishInv(s, f, hub);
    case Lag => LagInv(s, f, hub);
  }

  // ---------------------------------------------------------------------------------------------
  // What a step tells each client.
  // ---------------------------------------------------------------------------------------------

  predicate WorksOn(hub: Hub, id: nat) {
    hub.work.Working? && hub.work.jobs != [] && hub.work.jobs[0].id == id
  }

  predicate Removes(hub: Hub, step: HubStep, id: nat) {
    id in hub.subs && (step == Unlist(id) || step.Lag? || (step.FetchFails? && WorksOn(hub, id)))
  }

  /** A subscription leaves the table when it is dropped, when its query fails, or with all others on a lag. */
  lemma RemovedExactly(s: Setup, f: Feed, hub: Hub, step: HubStep, hub': Hub, id: nat)
    requires HubInv(s, f, hub) && HubNext(s, f, hub, step, hub')
    ensures id in hub.subs && id !in hub'.subs <==> Removes(hub, step, id)
    ensures id in hub'.subs && id !in hub.subs <==> id in hub.joining && step == Enlist(id)
  {
    hide StreamsInv, ListedInv, QuietInv, JobsMatch, IsDiff, KeyedAt, ResultAt;
    RetainKeepsAll(hub);
  }

  /** The new events are one for each delta, in order, and the end mark, all under the transaction's id. */
  ghost predicate GainsBatch(before: seq<Event>, after: seq<Event>, deltas: seq<Delta>, txid: nat) {
    var n := |before|;
    && |after| == n + |deltas| + 1 && after[..n] == before
    && (forall i | 0 <= i < |deltas| :: after[n + i] == Change(deltas[i], txid))
    && after[n + |deltas|] == UpToDate(txid)
  }

  lemma BatchGains(before: seq<Event>, deltas: seq<Delta>, txid: nat)
    ensures GainsBatch(before, before + Batch(deltas, txid), deltas, txid)
  {
  }

  /** The step delivers a difference to this subscription. */
  predicate Refreshes(hub: Hub, step: HubStep, id: nat) {
    step.Deliver? && WorksOn(hub, id) && id in hub.subs
  }

  /** The batch reaches the stream, and the new result becomes the subscription's `last`. */
  ghost predicate Refreshed(f: Feed, hub: Hub, deltas: seq<Delta>, hub': Hub, id: nat)
    requires WorksOn(hub, id) && id in hub.subs && id in hub.streams && id in hub'.streams
  {
    && hub.work.message < |f.wire| && hub.work.fetched.Some?
    && GainsBatch(hub.streams[id].events, hub'.streams[id].events, deltas, f.wire[hub.work.message].txn.xid)
    && id in hub'.subs && hub'.subs[id] == Sub(hub.subs[id].q, hub.work.fetched.value.next)
  }

  ghost predicate Told(f: Feed, hub: Hub, step: HubStep, hub': Hub, id: nat)
    requires id in hub.streams
  {
    && id in hub'.streams
    && var before, after := hub.streams[id].events, hub'.streams[id].events;
       if Refreshes(hub, step, id) then Refreshed(f, hub, step.deltas, hub', id)
       else if id in hub.subs && id !in hub'.subs && step != Unlist(id) then after == before + [Reset]
       else after == before
  }

  /**
   A client is told of every change of its subscription and of nothing else: a delivery appends one batch and makes
   the new result the subscription's `last`; a removal that the client did not ask for appends one reset; and no other
   step appends anything.
   */
  lemma ToldExactly(s: Setup, f: Feed, hub: Hub, step: HubStep, hub': Hub, id: nat)
    requires HubInv(s, f, hub) && HubNext(s, f, hub, step, hub') && id in hub.streams
    ensures Told(f, hub, step, hub', id)
  {
    hide StreamsInv, ListedInv, QuietInv, JobsMatch, IsDiff, KeyedAt, ResultAt, GainsBatch, Batch, BatchOrigins;
    RetainKeepsAll(hub);
    if step.Deliver? {
      BatchGains(hub.streams[id].events, step.deltas, f.wire[hub.work.message].txn.xid);
    }
  }

  /** After a lag the worker goes on with the oldest of the 1024 messages that the channel still holds. */
  lemma LagResumes(s: Setup, f: Feed, hub: Hub, hub': Hub)
    requires HubInv(s, f, hub) && HubNext(s, f, hub, Lag, hub')
    ensures hub'.subs == map[] && hub'.joining == hub.joining && hub'.open == hub.open
    ensures hub.processed < hub'.processed && hub'.processed + 1024 == |f.wire|
    ensures HubNext(s, f, hub', Collect([]), hub'.(work := Working(|f.wire| - 1024, [], None)))
  {
    hide HubInv;
    assert JobsMatch(hub'.subs, f.wire[hub'.processed].txn, []);
  }

  // ---------------------------------------------------------------------------------------------
  // Convergence.
  // ---------------------------------------------------------------------------------------------

  /** No commit from `m` up to `n` changed the query's tables. */
  ghost predicate Quiet(h: History, q: Query, m: nat, n: nat) {
    forall i | m <= i < n && i < |h.log| :: !Affected(h.log[i].txn, q)
  }

  /** Every commit on the query's tables has been announced by a message on one of them. */
  ghost predicate Announced(f: Feed, q: Query) {
    forall c | 0 <= c < |f.history.log| && Affected(f.history.log[c].txn, q) :: AnnouncedAt(f, q, c)
  }

  ghost predicate AnnouncedAt(f: Feed, q: Query, c: nat) {
    exists i | 0 <= i < |f.wire| :: Affected(f.wire[i].txn, q) && f.wire[i].commit == c
  }

  lemma CaughtUpIsQuiet(f: Feed, q: Query, m: nat)
    requires Announced(f, q) && CaughtUp(f, q, m, |f.wire|)
    ensures Quiet(f.history, q, m, |f.history.log|)
  {
    hide Affected;
    forall c: nat | m <= c < |f.history.log|
      ensures !Affected(f.history.log[c].txn, q)
    {
      assert !AnnouncedAt(f, q, c);
    }
  }

  /** A result of a noticed query that no later commit could have affected is the current result. */
  lemma QuietIsCurrent(s: Setup, h: History, q: Query, m: nat, n: nat)
    requires ValidHistory(s.index, h) && Noticed(s.index, s.sem.logic, q) && m <= n <= |h.log|
    requires Quiet(h, q, m, n)
    ensures WellFormed(q) && KeyedAt(s, h, q, m) == KeyedAt(s, h, q, n)
  {
    hide ValidHistory, ViewAt, Noticed, Affected;
    UnaffectedStretch(s.index, s.sem.logic, q, h, m, n);
  }

  /** Once the hub has processed every message, a refreshed subscription to a noticed query holds the current result. */
  lemma DrainedIsCurrent(s: Setup, f: Feed, hub: Hub, id: nat)
    requires ValidHistory(s.index, f.history) && HubInv(s, f, hub)
    requires hub.work.Idle? && hub.processed == |f.wire|
    requires id in hub.subs && |hub.streams[id].trail| >= 2
    requires Noticed(s.index, s.sem.logic, hub.subs[id].q) && Announced(f, hub.subs[id].q)
    ensures WellFormed(hub.subs[id].q)
    ensures hub.subs[id].last == KeyedAt(s, f.history, hub.subs[id].q, |f.history.log|)
  {
    hide ValidHistory, StreamsInv, WorkInv, CaughtUp, KeyedAt, Transcript, Noticed, OpensWith, Announced;
    var st := hub.streams[id];
    assert Holds(s, f.history, st, hub.subs[id]);
    CaughtUpIsQuiet(f, st.q, st.trail[|st.trail| - 1]);
    QuietIsCurrent(s, f.history, st.q, st.trail[|st.trail| - 1], |f.history.log|);
  }

  // ---------------------------------------------------------------------------------------------
  // A collected subscription is refreshed before its commit is finished.
  // ---------------------------------------------------------------------------------------------

  /** The subscription is gone for good, has been refreshed, or still has a job to come. */
  ghost predicate Due(hub: Hub, id: nat) {
    && id in hub.streams
    && (|| |hub.streams[id].trail| >= 2
        || (id !in hub.subs && id !in hub.joining)
        || (id !in hub.joining && hub.work.Working? && id in JobIds(hub.work.jobs)))
  }

  lemma CollectedIsDue(s: Setup, f: Feed, hub: Hub, jobs: seq<Job>, txn: Txn, id: nat)
    requires HubInv(s, f, hub) && JobsMatch(hub.subs, txn, jobs) && id in hub.subs && Affected(txn, hub.subs[id].q)
    ensures Due(hub.(work := Working(hub.processed, jobs, None)), id)
  {
    hide StreamsInv, ListedInv, WorkInv, QuietInv, Affected;
  }

  lemma FirstJobDone(s: Setup, f: Feed, hub: Hub, hub': Hub, id: nat)
    requires HubInv(s, f, hub) && Due(hub, id) && hub.work.Working? && hub.work.jobs != []
    requires hub'.work.Working? && hub'.work.jobs == hub.work.jobs[1..] && hub'.joining == hub.joining
    requires hub'.subs.Keys <= hub.subs.Keys && hub'.streams.Keys == hub.streams.Keys
    requires forall x | x in hub.streams :: |hub'.streams[x].trail| >= |hub.streams[x].trail|
    requires var x := hub.work.jobs[0].id; x in hub'.subs ==> |hub'.streams[x].trail| >= 2
    ensures Due(hub', id)
  {
    hide StreamsInv, ListedInv, QuietInv, JobIds;
    JobIdsSplit(hub.work.jobs);
  }

  lemma FirstTrail(s: Setup, f: Feed, hub: Hub)
    requires HubInv(s, f, hub) && hub.work.Working? && hub.work.jobs != [] && hub.work.jobs[0].id in hub.subs
    ensures var id := hub.work.jobs[0].id; id in hub.streams && id in hub.open && |hub.streams[id].trail| >= 1
  {
    hide StreamsInv, WorkInv, QuietInv, Transcript, KeyedAt, OpensWith;
    assert Holds(s, f.history, hub.streams[hub.work.jobs[0].id], hub.subs[hub.work.jobs[0].id]);
  }

  lemma DueKept(s: Setup, f: Feed, hub: Hub, step: HubStep, hub': Hub, id: nat)
    requires HubInv(s, f, hub) && HubNext(s, f, hub, step, hub') && Due(hub, id)
    ensures Due(hub', id)
  {
    hide StreamsInv, ListedInv, WorkInv, QuietInv, KeyedAt, ResultAt, IsDiff, JobsMatch, WellFormed, JobIds, KeyRows;
    if step.Deliver? && hub.work.jobs[0].id in hub.subs {
      FirstTrail(s, f, hub);
      FirstJobDone(s, f, hub, hub', id);
    } else if step.Deliver? || step.FetchFails? {
      FirstJobDone(s, f, hub, hub', id);
    } else if step.Finish? {
      NoJobs();
    }
  }

  lemma NoJobs()
    ensures JobIds([]) == {}
  {
  }

  // ---------------------------------------------------------------------------------------------
  // Until its first batch, a subscription has missed nothing since it was listed.
  // ---------------------------------------------------------------------------------------------

  /** No message from `p` up to the subscription's horizon is on its tables, as long as it is listed and unrefreshed. */
  ghost predicate MissesNothing(f: Feed, hub: Hub, id: nat, p: nat) {
    && id in hub.streams && id !in hub.joining
    && (id in hub.subs && |hub.streams[id].trail| < 2 ==> Untouched(f, hub.streams[id].q, p, Horizon(hub, id)))
  }

  ghost predicate Untouched(f: Feed, q: Query, p: nat, n: nat) {
    p <= n && forall i | p <= i < n && i < |f.wire| :: !Affected(f.wire[i].txn, q)
  }

  lemma EnlistedMissesNothing(s: Setup, f: Feed, hub: Hub, id: nat)
    requires HubInv(s, f, hub) && id in hub.joining
    ensures MissesNothing(f, EnlistStep(hub, id), id, Horizon(EnlistStep(hub, id), id))
  {
    hide StreamsInv, ListedInv, WorkInv, QuietInv, Affected, Horizon;
  }

  lemma MissesNothingSettled(s: Setup, f: Feed, f': Feed, hub: Hub, id: nat, p: nat)
    requires Grows(f, f') && HubInv(s, f, hub) && MissesNothing(f, hub, id, p)
    ensures MissesNothing(f', hub, id, p)
  {
    hide StreamsInv, ListedInv, QuietInv, Affected, JobIds, Grows, JobsInv, FetchedInv;
    GrowthBounds(f, f');
  }

  /** Collecting leaves a listed subscription out only if the message is not on its tables. */
  lemma CollectMissesNothing(s: Setup, f: Feed, hub: Hub, jobs: seq<Job>, id: nat, p: nat)
    requires HubInv(s, f, hub) && hub.work.Idle? && hub.processed < |f.wire| && MissesNothing(f, hub, id, p)
    requires JobsMatch(hub.subs, f.wire[hub.processed].txn, jobs)
    ensures MissesNothing(f, hub.(work := Working(hub.processed, jobs, None)), id, p)
  {
    hide StreamsInv, WorkInv, QuietInv, Affected, Recorded, KeyedAt;
    if id in hub.subs {
      assert Holds(s, f.history, hub.streams[id], hub.subs[id]);
    }
  }

  /** Leaving the first job behind moves no other horizon. */
  lemma FirstJobMissesNothing(s: Setup, f: Feed, hub: Hub, hub': Hub, id: nat, p: nat)
    requires HubInv(s, f, hub) && MissesNothing(f, hub, id, p) && hub.work.Working? && hub.work.jobs != []
    requires hub'.work.Working? && hub'.work.jobs == hub.work.jobs[1..] && hub'.processed == hub.processed
    requires hub'.joining == hub.joining && hub'.subs.Keys <= hub.subs.Keys && hub'.streams.Keys == hub.streams.Keys
    requires forall x | x in hub.streams :: hub'.streams[x].q == hub.streams[x].q
    requires forall x | x in hub.streams && x != hub.work.jobs[0].id :: hub'.streams[x] == hub.streams[x]
    requires var x := hub.work.jobs[0].id; x in hub'.subs ==> |hub'.streams[x].trail| >= 2
    ensures MissesNothing(f, hub', id, p)
  {
    hide StreamsInv, ListedInv, WorkInv, QuietInv, JobIds, Affected;
    JobIdsSplit(hub.work.jobs);
  }

  /** Steps that leave the worker alone move no horizon. */
  lemma TableStepMissesNothing(s: Setup, f: Feed, hub: Hub, step: HubStep, hub': Hub, id: nat, p: nat)
    requires IdsInv(hub) && HubNext(s, f, hub, step, hub') && MissesNothing(f, hub, id, p)
    requires step.Allocate? || step.Enlist? || step.Unlist? || step.Close? || step.Fetch? || step.Lag?
    ensures MissesNothing(f, hub', id, p)
  {
    hide KeyedAt, ResultAt, WellFormed, JobIds, KeyRows, Untouched;
  }

  lemma FinishMissesNothing(f: Feed, hub: Hub, id: nat, p: nat)
    requires hub.work.Working? && hub.work.jobs == [] && MissesNothing(f, hub, id, p)
    ensures MissesNothing(f, FinishStep(hub), id, p)
  {
    hide JobIds, Untouched;
    NoJobs();
  }

  lemma DeliverMissesNothing(s: Setup, f: Feed, hub: Hub, deltas: seq<Delta>, txid: nat, id: nat, p: nat)
    requires HubInv(s, f, hub) && MissesNothing(f, hub, id, p)
    requires hub.work.Working? && hub.work.jobs != [] && hub.work.fetched.Some?
    ensures MissesNothing(f, DeliverStep(hub, deltas, txid), id, p)
  {
    hide HubInv, MissesNothing, Batch, BatchOrigins;
    if hub.work.jobs[0].id in hub.subs {
      FirstTrail(s, f, hub);
    }
    FirstJobMissesNothing(s, f, hub, DeliverStep(hub, deltas, txid), id, p);
  }

  lemma FailMissesNothing(s: Setup, f: Feed, hub: Hub, id: nat, p: nat)
    requires HubInv(s, f, hub) && MissesNothing(f, hub, id, p) && hub.work.Working? && hub.work.jobs != []
    ensures MissesNothing(f, FetchFailsStep(hub), id, p)
  {
    hide HubInv, MissesNothing;
    if hub.work.jobs[0].id in hub.subs {
      FirstTrail(s, f, hub);
    }
    FirstJobMissesNothing(s, f, hub, FetchFailsStep(hub), id, p);
  }

  lemma MissesNothingKept(s: Setup, f: Feed, hub: Hub, step: HubStep, hub': Hub, id: nat, p: nat)
    requires HubInv(s, f, hub) && HubNext(s, f, hub, step, hub') && MissesNothing(f, hub, id, p)
    ensures MissesNothing(f, hub', id, p)
  {
    hide HubInv, KeyedAt, ResultAt, IsDiff, JobsMatch, WellFormed, MissesNothing, IdsInv;
    hide AllocateStep, EnlistStep, UnlistStep, CloseStep, DeliverStep, FetchFailsStep, FinishStep, LagStep;
    InvParts(s, f, hub);
    match step
    case Collect(jobs) => CollectMissesNothing(s, f, hub, jobs, id, p);
    case Deliver(deltas) => DeliverMissesNothing(s, f, hub, deltas, f.wire[hub.work.message].txn.xid, id, p);
    case FetchFails => FailMissesNothing(s, f, hub, id, p);
    case Finish => FinishMissesNothing(f, hub, id, p);
    case _ => TableStepMissesNothing(s, f, hub, step, hub', id, p);
  }

  // ---------------------------------------------------------------------------------------------
  // How a stream opened never changes.
  // ---------------------------------------------------------------------------------------------

  ghost predicate SameOpening(st: Stream, st': Stream) {
    st'.q == st.q && st'.opening == st.opening && st.events != [] && st'.events != [] && st'.events[0] == st.events[0]
  }

  ghost predicate KeepsOpenings(hub: Hub, hub': Hub) {
    forall id | id in hub.streams && hub.streams[id].events != [] ::
      id in hub'.streams && SameOpening(hub.streams[id], hub'.streams[id])
  }

  lemma OpeningsKept(s: Setup, f: Feed, hub: Hub, step: HubStep, hub': Hub)
    requires HubInv(s, f, hub) && HubNext(s, f, hub, step, hub')
    ensures KeepsOpenings(hub, hub')
    ensures !step.Allocate? ==> hub'.streams.Keys == hub.streams.Keys
  {
    hide StreamsInv, ListedInv, WorkInv, QuietInv, KeyedAt, ResultAt, IsDiff, JobsMatch, WellFormed, JobIds, KeyRows;
  }
}

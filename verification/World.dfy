/**
 The whole server: change feed, snapshot reads and live hub, stepping in any interleaving. The theorems
 hold in every state of every run.
 */
module World {
  import opened Text
  import opened VersionIndex
  import opened Database
  import opened Queries
  import opened Invalidation
  import opened Diff
  import opened Feed
  import opened Snapshots
  import opened LiveHub
  import opened LiveInvariant

  datatype World = World(feed: Feed, reader: Reader, hub: Hub)

  /**
   A public subscription starts from the body of a finished read. A private one starts from a query of
   its own, at any database prefix reached before it registers.
   */
  datatype Step =
    | FeedMove(feedStep: FeedStep)
    | ReadMove(readStep: ReadStep)
    | HubMove(hubStep: HubStep)
    | SubscribePublic(read: nat, asOf: nat)
    | SubscribePrivate(q: Query, version: nat, asOf: nat)

  ghost predicate Init(s: Setup, w: World) {
    FeedInit(s.index, w.feed) && w.reader == Reader(map[], map[]) && HubInit(w.hub)
  }

  ghost predicate Next(s: Setup, w: World, step: Step, w': World) {
    match step
    case FeedMove(fs) => FeedNext(s.index, w.feed, fs, w'.feed) && w' == w.(feed := w'.feed)
    case ReadMove(rs) => ReadNext(s.index, s.sem, w.feed, w.reader, rs, w'.reader) && w' == w.(reader := w'.reader)
    case HubMove(hs) => !hs.Allocate? && HubNext(s, w.feed, w.hub, hs, w'.hub) && w' == w.(hub := w'.hub)
    case SubscribePublic(id, asOf) =>
      && id in w.reader.active && w.reader.active[id].Done?
      && var read := w.reader.active[id];
      && HubNext(s, w.feed, w.hub, Allocate(read.q, read.body, read.version, asOf, true), w'.hub)
      && w' == w.(hub := w'.hub)
    case SubscribePrivate(q, version, asOf) =>
      && WellFormed(q) && asOf <= |w.feed.history.log|
      && HubNext(s, w.feed, w.hub, Allocate(q, ResultAt(s.sem, w.feed.history, q, asOf), version, asOf, false), w'.hub)
      && w' == w.(hub := w'.hub)
  }

  /** A public stream opens with a link to the cache key under which its opening body was stored. */
  ghost predicate LinkInv(s: Setup, f: Feed, st: Stream)
    requires f.cdc <= |f.history.log|
  {
    && st.events != []
    && (st.events[0].Link? ==>
          && st.events[0].q == st.q
          && EntryInv(s.index, s.sem, f, (st.q, st.events[0].version), st.opening))
  }

  ghost predicate LinksInv(s: Setup, f: Feed, hub: Hub)
    requires f.cdc <= |f.history.log|
  {
    forall id | id in hub.streams :: LinkInv(s, f, hub.streams[id])
  }

  ghost predicate Inv(s: Setup, w: World) {
    && FeedInv(s.index, w.feed) && ReaderInv(s.index, s.sem, w.feed, w.reader)
    && HubInv(s, w.feed, w.hub) && LinksInv(s, w.feed, w.hub)
  }

  lemma InitInv(s: Setup, w: World)
    requires Init(s, w)
    ensures Inv(s, w)
  {
    FeedInitInv(s.index, w.feed);
    HubInitInv(s, w.feed, w.hub);
  }

  lemma LinksSettled(s: Setup, f: Feed, f': Feed, hub: Hub)
    requires FeedInv(s.index, f) && FeedInv(s.index, f') && Grows(f, f') && LinksInv(s, f, hub)
    ensures LinksInv(s, f', hub)
  {
    hide EntryInv, FeedInv, Grows;
    assert f'.cdc <= |f'.history.log| by { IndexBound(s, f'); }
    assert f.cdc <= |f.history.log| by { IndexBound(s, f); }
    forall id | id in hub.streams
      ensures LinkInv(s, f', hub.streams[id])
    {
      var st := hub.streams[id];
      assert LinkInv(s, f, st);
      if st.events[0].Link? {
        EntrySettled(s.index, s.sem, f, f', (st.q, st.events[0].version), st.opening);
      }
    }
  }

  lemma IndexBound(s: Setup, f: Feed)
    requires FeedInv(s.index, f)
    ensures |f.wire| <= f.cdc <= |f.history.log| && WireSound(f)
    ensures forall i | 0 <= i < |f.wire| :: f.wire[i] == Message(f.history.log[i].txn, i)
  {
    hide ValidHistory, IndexOf;
  }

  lemma LinksKept(s: Setup, f: Feed, hub: Hub, hub': Hub)
    requires f.cdc <= |f.history.log| && LinksInv(s, f, hub) && KeepsOpenings(hub, hub')
    requires forall id | id in hub'.streams && id !in hub.streams :: LinkInv(s, f, hub'.streams[id])
    ensures LinksInv(s, f, hub')
  {
    hide EntryInv;
    forall id | id in hub'.streams
      ensures LinkInv(s, f, hub'.streams[id])
    {
      if id in hub.streams {
        assert LinkInv(s, f, hub.streams[id]);
        assert SameOpening(hub.streams[id], hub'.streams[id]);
      }
    }
  }

  /** Every step of the server keeps its invariant, and the feed only grows. */
  lemma NextInv(s: Setup, w: World, step: Step, w': World)
    requires Inv(s, w) && Next(s, w, step, w')
    ensures Inv(s, w') && Grows(w.feed, w'.feed)
  {
    IndexBound(s, w.feed);
    hide ReaderInv, HubInv, LinksInv, FeedNext, ReadNext, ValidHistory, ResultAt, FeedInv, IndexOf;
    GrowsReflexive(w.feed);
    match step
    case FeedMove(fs) =>
      FeedNextInv(s.index, w.feed, fs, w'.feed);
      IndexBound(s, w'.feed);
      ReaderSettled(s.index, s.sem, w.feed, w'.feed, w.reader);
      HubSettled(s, w.feed, w'.feed, w.hub);
      LinksSettled(s, w.feed, w'.feed, w.hub);
    case ReadMove(rs) => ReadNextInv(s.index, s.sem, w.feed, w.reader, rs, w'.reader);
    case HubMove(hs) =>
      hide HubNext;
      HubNextInv(s, w.feed, w.hub, hs, w'.hub);
      OpeningsKept(s, w.feed, w.hub, hs, w'.hub);
      LinksKept(s, w.feed, w.hub, w'.hub);
    case SubscribePublic(id, asOf) =>
      var read := w.reader.active[id];
      DoneRead(s.index, s.sem, w.feed, w.reader, id);
      SubscribedInv(s, w, w', Allocate(read.q, read.body, read.version, asOf, true));
    case SubscribePrivate(q, version, asOf) =>
      SubscribedInv(s, w, w', Allocate(q, ResultAt(s.sem, w.feed.history, q, asOf), version, asOf, false));
  }

  lemma SubscribedInv(s: Setup, w: World, w': World, hs: HubStep)
    requires Inv(s, w) && hs.Allocate? && HubNext(s, w.feed, w.hub, hs, w'.hub) && w' == w.(hub := w'.hub)
    requires hs.public ==> EntryInv(s.index, s.sem, w.feed, (hs.q, hs.version), hs.rows)
    ensures Inv(s, w')
  {
    IndexBound(s, w.feed);
    HubNextInv(s, w.feed, w.hub, hs, w'.hub);
    OpeningsKept(s, w.feed, w.hub, hs, w'.hub);
    hide ReaderInv, HubInv, LinksInv, FeedInv, ResultAt, EntryInv, KeyRows;
    LinksKept(s, w.feed, w.hub, w'.hub);
  }

  /** A run: states joined by steps. */
  datatype Run = Run(states: seq<World>, steps: seq<Step>)

  ghost predicate IsRun(s: Setup, run: Run) {
    && |run.states| == |run.steps| + 1 && Init(s, run.states[0])
    && forall i | 0 <= i < |run.steps| :: Next(s, run.states[i], run.steps[i], run.states[i + 1])
  }

  lemma RunStep(s: Setup, run: Run, i: nat)
    requires IsRun(s, run) && i < |run.steps|
    ensures |run.states| == |run.steps| + 1
    ensures Next(s, run.states[i], run.steps[i], run.states[i + 1])
  {
    hide Init, Next;
  }

  lemma {:induction false} RunInv(s: Setup, run: Run, i: nat)
    requires IsRun(s, run) && i < |run.states|
    ensures Inv(s, run.states[i])
  {
    hide *;
    RunStarts(s, run);
    if i == 0 {
      InitInv(s, run.states[0]);
    } else {
      RunInv(s, run, i - 1);
      RunStep(s, run, i - 1);
      NextInv(s, run.states[i - 1], run.steps[i - 1], run.states[i]);
    }
  }

  lemma RunStarts(s: Setup, run: Run)
    requires IsRun(s, run)
    ensures |run.states| == |run.steps| + 1 && Init(s, run.states[0])
  {
    hide Init, Next;
  }

  lemma {:induction false} RunGrows(s: Setup, run: Run, i: nat, j: nat)
    requires IsRun(s, run) && i <= j < |run.states|
    ensures Grows(run.states[i].feed, run.states[j].feed)
    decreases j - i
  {
    hide *;
    RunStarts(s, run);
    if i == j {
      GrowsReflexive(run.states[i].feed);
    } else {
      RunGrows(s, run, i, j - 1);
      RunInv(s, run, j - 1);
      RunStep(s, run, j - 1);
      NextInv(s, run.states[j - 1], run.steps[j - 1], run.states[j]);
      GrowsTransitive(run.states[i].feed, run.states[j - 1].feed, run.states[j].feed);
    }
  }

  lemma RunBounds(s: Setup, run: Run, i: nat)
    requires IsRun(s, run) && i < |run.states|
    ensures var f := run.states[i].feed;
            && ValidHistory(s.index, f.history) && |f.wire| <= f.cdc <= |f.history.log| && WireSound(f)
            && (forall n | 0 <= n < |f.wire| :: f.wire[n] == Message(f.history.log[n].txn, n))
            && ReaderInv(s.index, s.sem, f, run.states[i].reader) && HubInv(s, f, run.states[i].hub)
  {
    hide IsRun, ValidHistory, ReaderInv, HubInv, LinksInv, IndexOf;
    RunInv(s, run, i);
  }

  /**
   Snapshot freshness: whatever raced, the body of a finished read of a covered query is the query's result on
   a database prefix at least as new as the commits the index had received when the read took its version.
   */
  lemma SnapshotFresh(s: Setup, run: Run, i: nat, id: nat)
    requires IsRun(s, run) && i < |run.states|
    requires id in run.states[i].reader.active && run.states[i].reader.active[id].Done?
    requires Servable(s.index, s.sem, run.states[i].reader.active[id].q)
    ensures var read := run.states[i].reader.active[id];
            Fresh(s.sem, run.states[i].feed, read.q, read.floor, read.body)
  {
    hide IsRun, FeedInv, ReaderInv, HubInv, LinksInv, Fresh, Covered;
    RunInv(s, run, i);
    DoneIsFresh(s.index, s.sem, run.states[i].feed, run.states[i].reader, id);
  }

  /** The body of any finished read, covered or not, is the query's result on some database prefix. */
  lemma DoneIsResult(s: Setup, f: Feed, r: Reader, id: nat) returns (k: nat)
    requires f.cdc <= |f.history.log| && ReaderInv(s.index, s.sem, f, r) && id in r.active && r.active[id].Done?
    ensures WellFormed(r.active[id].q) && k <= |f.history.log|
    ensures r.active[id].body == ResultAt(s.sem, f.history, r.active[id].q, k)
  {
    hide VersionAt, ResultAt;
    DoneRead(s.index, s.sem, f, r, id);
    var read := r.active[id];
    var floor: nat :| StoredAt(s.index, s.sem, f, read.q, read.version, read.body, floor);
    k :| floor <= k <= |f.history.log| && read.body == ResultAt(s.sem, f.history, read.q, k);
  }

  /** A finished public read can always be turned into a subscription. */
  lemma SubscribeEnabled(s: Setup, w: World, id: nat)
    requires Inv(s, w) && id in w.reader.active && w.reader.active[id].Done?
    ensures exists asOf, w' :: Next(s, w, SubscribePublic(id, asOf), w')
  {
    hide ReaderInv, HubInv, LinksInv, ResultAt, ValidHistory, AllocateStep, IndexOf, WellFormed;
    var read := w.reader.active[id];
    var k := DoneIsResult(s, w.feed, w.reader, id);
    var w' := w.(hub := AllocateStep(s, w.hub, read.q, read.body, read.version, k, true));
    assert HubNext(s, w.feed, w.hub, Allocate(read.q, read.body, read.version, k, true), w'.hub);
    assert Next(s, w, SubscribePublic(id, k), w');
  }

  lemma NextFloor(s: Setup, w: World, step: Step, w': World, id: nat)
    requires Next(s, w, step, w')
    ensures FloorOf(w'.reader, id).None? || FloorOf(w'.reader, id) == FloorOf(w.reader, id) ||
            (Unversioned(w.reader, id) && FloorOf(w'.reader, id) == Some(w.feed.cdc))
  {
    hide HubNext, FeedNext, ResultAt, ReadNext, FloorOf;
    if step.ReadMove? {
      FloorSetOnce(s.index, s.sem, w.feed, w.reader, step.readStep, w'.reader, id);
    } else {
      assert w'.reader == w.reader;
    }
  }

  /** A read that takes its version after state `i` has a floor no lower than what was indexed there. */
  lemma {:induction false} FloorAfter(s: Setup, run: Run, i: nat, j: nat, id: nat)
    requires IsRun(s, run) && i <= j < |run.states| && Unversioned(run.states[i].reader, id)
    ensures FloorOf(run.states[j].reader, id).None? || FloorOf(run.states[j].reader, id).value >= run.states[i].feed.cdc
    decreases j - i
  {
    if i == j {
      hide IsRun;
    } else {
      hide *;
      RunStarts(s, run);
      FloorAfter(s, run, i, j - 1, id);
      RunGrows(s, run, i, j - 1);
      GrowthOfIndex(run.states[i].feed, run.states[j - 1].feed);
      RunStep(s, run, j - 1);
      NextFloor(s, run.states[j - 1], run.steps[j - 1], run.states[j], id);
    }
  }

  lemma GrowthOfIndex(f: Feed, f': Feed)
    requires Grows(f, f')
    ensures f.cdc <= f'.cdc
    ensures |f.history.log| <= |f'.history.log|
    ensures forall n | 0 <= n < |f.history.log| :: f'.history.log[n] == f.history.log[n]
  {
    assert forall n | 0 <= n < |f.history.log| :: f'.history.log[..|f.history.log|][n] == f'.history.log[n];
  }

  lemma StreamOrigin(s: Setup, f: Feed, hub: Hub, stream: nat, event: nat)
    requires HubInv(s, f, hub) && stream in hub.streams && event < |hub.streams[stream].events|
    requires TxidOf(hub.streams[stream].events[event]).Some?
    ensures var st := hub.streams[stream];
            && |st.origins| == |st.events| && st.origins[event].Some?
            && Broadcasted(f, st.origins[event].value, TxidOf(st.events[event]).value)
  {
    hide ListedInv, WorkInv, QuietInv, Settled, Broadcasted;
    assert OriginsSent(f, hub.streams[stream]);
  }

  /**
   Read after delta: once any live stream carries an event of a commit, a read of a covered query that has not
   taken its version yet will return a body at least as new as that very commit, because the index is advanced
   before the broadcast.
   */
  lemma ReadAfterDelta(s: Setup, run: Run, i: nat, j: nat, stream: nat, event: nat, id: nat)
    returns (commit: nat, k: nat)
    requires IsRun(s, run) && i <= j < |run.states|
    requires stream in run.states[i].hub.streams && event < |run.states[i].hub.streams[stream].events|
    requires TxidOf(run.states[i].hub.streams[stream].events[event]).Some?
    requires Unversioned(run.states[i].reader, id)
    requires id in run.states[j].reader.active && run.states[j].reader.active[id].Done?
    requires Servable(s.index, s.sem, run.states[j].reader.active[id].q)
    ensures var read, h, st := run.states[j].reader.active[id], run.states[j].feed.history,
        run.states[i].hub.streams[stream];
            && |st.origins| == |st.events| && st.origins[event] == Some(commit) && commit < k <= |h.log|
            && h.log[commit].txn.xid == TxidOf(st.events[event]).value
            && read.body == ResultAt(s.sem, h, read.q, k)
  {
    hide IsRun, ResultAt, ReaderInv, HubInv, ValidHistory, Grows, WellFormed, Covered;
    RunBounds(s, run, i);
    StreamOrigin(s, run.states[i].feed, run.states[i].hub, stream, event);
    commit := run.states[i].hub.streams[stream].origins[event].value;
    FloorAfter(s, run, i, j, id);
    RunGrows(s, run, i, j);
    GrowthOfIndex(run.states[i].feed, run.states[j].feed);
    SnapshotFresh(s, run, j, id);
    var read, f := run.states[j].reader.active[id], run.states[j].feed;
    k :| read.floor <= k <= |f.history.log| && read.body == ResultAt(s.sem, f.history, read.q, k);
  }

  // ---------------------------------------------------------------------------------------------
  // Live streams over whole runs.
  // ---------------------------------------------------------------------------------------------

  /** Replaying everything sent to a listed subscription over its opening body gives exactly its `last`. */
  lemma StreamReplaysLast(s: Setup, run: Run, i: nat, id: nat)
    requires IsRun(s, run) && i < |run.states| && id in run.states[i].hub.subs
    ensures var hub := run.states[i].hub;
            && id in hub.streams && id in hub.open
            && Replay(s.sem.hash, KeyColumn(s.columns, hub.subs[id].q), hub.streams[id].opening,
                hub.streams[id].events) == hub.subs[id].last
  {
    hide *;
    RunBounds(s, run, i);
    ListedHolds(s, run.states[i].feed, run.states[i].hub, id);
    HoldsReplays(s, run.states[i].feed.history, run.states[i].hub.streams[id], run.states[i].hub.subs[id]);
  }

  lemma ListedHolds(s: Setup, f: Feed, hub: Hub, id: nat)
    requires HubInv(s, f, hub) && id in hub.subs
    ensures id in hub.streams && id in hub.open && Holds(s, f.history, hub.streams[id], hub.subs[id])
  {
    hide WorkInv, QuietInv, StreamsInv, Holds;
  }

  lemma HoldsReplays(s: Setup, h: History, st: Stream, sub: Sub)
    requires Holds(s, h, st, sub)
    ensures sub.q == st.q && Replay(s.sem.hash, KeyColumn(s.columns, st.q), st.opening, st.events) == sub.last
  {
    hide Transcript, Replay, KeyedAt, OpensWith;
    TranscriptReplays(s.sem.hash, KeyColumn(s.columns, st.q), st.opening, st.events, States(s, h, st.q, st.trail));
  }

  /** Every stream, listed or not, obeys the grammar; a listed one stands between batches; nothing follows a reset. */
  lemma StreamGrammar(s: Setup, run: Run, i: nat, id: nat)
    requires IsRun(s, run) && i < |run.states| && id in run.states[i].hub.streams
    ensures var hub := run.states[i].hub;
            && (PhaseOf(hub.streams[id].events) == Current || PhaseOf(hub.streams[id].events) == Ended)
            && (id in hub.subs ==> PhaseOf(hub.streams[id].events) == Current)
            && Retain(hub.subs, hub.open) == hub.subs
  {
    hide IsRun, ReaderInv, ValidHistory, HubInv, PhaseOf, Retain;
    RunBounds(s, run, i);
    HubGrammar(s, run.states[i].feed, run.states[i].hub, id);
  }

  /** The same of one hub that satisfies its invariant, whatever feed it is on. */
  lemma HubGrammar(s: Setup, f: Feed, hub: Hub, id: nat)
    requires HubInv(s, f, hub) && id in hub.streams
    ensures PhaseOf(hub.streams[id].events) == Current || PhaseOf(hub.streams[id].events) == Ended
    ensures id in hub.subs ==> PhaseOf(hub.streams[id].events) == Current
    ensures Retain(hub.subs, hub.open) == hub.subs
  {
    hide WorkInv, QuietInv, Recorded, OriginsSent;
    var h, st := f.history, hub.streams[id];
    RetainKeepsAll(hub);
    if Recorded(s, h, st) {
      RecordedPhase(s, h, st);
    } else {
      RecordedPhase(s, h, WithoutLast(st));
    }
    if id in hub.subs {
      assert Holds(s, h, st, hub.subs[id]);
    }
  }

  lemma RecordedPhase(s: Setup, h: History, st: Stream)
    requires Recorded(s, h, st)
    ensures PhaseOf(st.events) == Current
  {
    hide Transcript, PhaseOf, KeyedAt, OpensWith;
    TranscriptPhase(s.sem.hash, KeyColumn(s.columns, st.q), st.opening, st.events, States(s, h, st.q, st.trail));
  }

  /** Nothing is in flight: every commit was indexed, broadcast and processed. */
  predicate Drained(w: World) {
    w.hub.work.Idle? && w.hub.processed == |w.feed.wire| == |w.feed.history.log|
  }

  /**
   A subscription that is listed when a commit on its tables is collected, and still listed when the worker is
   idle again, has been refreshed.
   */
  lemma RefreshedByCommit(s: Setup, run: Run, i: nat, j: nat, id: nat)
    requires IsRun(s, run) && i < j < |run.states| && run.steps[i].HubMove? && run.steps[i].hubStep.Collect?
    requires var w := run.states[i];
      && id in w.hub.subs && w.hub.processed < |w.feed.wire|
      && Affected(w.feed.wire[w.hub.processed].txn, w.hub.subs[id].q)
    requires run.states[j].hub.work.Idle? && id in run.states[j].hub.subs
    ensures id in run.states[j].hub.streams && |run.states[j].hub.streams[id].trail| >= 2
  {
    hide IsRun, HubInv, ReaderInv, ValidHistory, Affected, JobsMatch;
    RunStarts(s, run);
    RunStep(s, run, i);
    RunBounds(s, run, i);
    var w := run.states[i];
    CollectedIsDue(s, w.feed, w.hub, run.steps[i].hubStep.jobs, w.feed.wire[w.hub.processed].txn, id);
    StaysDue(s, run, i + 1, j, id);
  }

  lemma {:induction false} StaysDue(s: Setup, run: Run, i: nat, j: nat, id: nat)
    requires IsRun(s, run) && i <= j < |run.states| && Due(run.states[i].hub, id)
    ensures Due(run.states[j].hub, id)
    decreases j - i
  {
    hide *;
    RunStarts(s, run);
    if i < j {
      StaysDue(s, run, i, j - 1, id);
      RunInv(s, run, j - 1);
      RunStep(s, run, j - 1);
      NextDue(s, run.states[j - 1], run.steps[j - 1], run.states[j], id);
    }
  }

  lemma NextDue(s: Setup, w: World, step: Step, w': World, id: nat)
    requires Inv(s, w) && Next(s, w, step, w') && Due(w.hub, id)
    ensures Due(w'.hub, id)
  {
    hide FeedInv, ReaderInv, HubInv, LinksInv, FeedNext, ReadNext, HubNext, ResultAt, Due;
    IndexBound(s, w.feed);
    match step
    case FeedMove(_) =>
    case ReadMove(_) =>
    case HubMove(hs) => DueKept(s, w.feed, w.hub, hs, w'.hub, id);
    case SubscribePublic(read, asOf) =>
      var r := w.reader.active[read];
      DueKept(s, w.feed, w.hub, Allocate(r.q, r.body, r.version, asOf, true), w'.hub, id);
    case SubscribePrivate(q, version, asOf) =>
      DueKept(s, w.feed, w.hub, Allocate(q, ResultAt(s.sem, w.feed.history, q, asOf), version, asOf, false), w'.hub,
          id);
  }

  /**
   Convergence: once the hub has drained, a subscription to a noticed query that has been refreshed since it
   registered holds exactly the current keyed result, whatever commits fell between its snapshot and its
   registration. The hub works by table, so nothing is asked of the query's anchors.
   */
  lemma DrainedConverges(s: Setup, run: Run, i: nat, id: nat)
    requires IsRun(s, run) && i < |run.states| && Drained(run.states[i])
    requires id in run.states[i].hub.subs && Noticed(s.index, s.sem.logic, run.states[i].hub.subs[id].q)
    requires id in run.states[i].hub.streams && |run.states[i].hub.streams[id].trail| >= 2
    ensures var w := run.states[i]; var q := w.hub.subs[id].q;
            WellFormed(q) && w.hub.subs[id].last == KeyedAt(s, w.feed.history, q, |w.feed.history.log|)
  {
    hide IsRun, ReaderInv, ValidHistory, HubInv, KeyedAt, Noticed, Announced;
    RunBounds(s, run, i);
    DrainedIsAnnounced(run.states[i].feed, run.states[i].hub.subs[id].q);
    DrainedIsCurrent(s, run.states[i].feed, run.states[i].hub, id);
  }

  /** When every commit has been broadcast, each is announced by its own message. */
  lemma DrainedIsAnnounced(f: Feed, q: Query)
    requires |f.wire| == |f.history.log|
    requires forall i | 0 <= i < |f.wire| :: f.wire[i] == Message(f.history.log[i].txn, i)
    ensures Announced(f, q)
  {
    hide Affected;
    forall c | 0 <= c < |f.history.log| && Affected(f.history.log[c].txn, q)
      ensures AnnouncedAt(f, q, c)
    {
      assert Affected(f.wire[c].txn, q) && f.wire[c].commit == c;
    }
  }

  /** One that has not been refreshed is current while no commit on its tables lies beyond its opening body. */
  lemma UnrefreshedIsCurrent(s: Setup, run: Run, i: nat, id: nat)
    requires IsRun(s, run) && i < |run.states|
    requires id in run.states[i].hub.subs && Noticed(s.index, s.sem.logic, run.states[i].hub.subs[id].q)
    requires id in run.states[i].hub.streams && |run.states[i].hub.streams[id].trail| == 1
    requires var w := run.states[i];
      && w.hub.streams[id].trail[0] <= |w.feed.history.log|
      && Quiet(w.feed.history, w.hub.subs[id].q, w.hub.streams[id].trail[0], |w.feed.history.log|)
    ensures var w := run.states[i]; var q := w.hub.subs[id].q;
            WellFormed(q) && w.hub.subs[id].last == KeyedAt(s, w.feed.history, q, |w.feed.history.log|)
  {
    hide IsRun, ReaderInv, ValidHistory, HubInv, KeyedAt, Noticed, Quiet, Transcript, OpensWith;
    RunBounds(s, run, i);
    var w := run.states[i];
    ListedHolds(s, w.feed, w.hub, id);
    QuietIsCurrent(s, w.feed.history, w.hub.subs[id].q, w.hub.streams[id].trail[0], |w.feed.history.log|);
  }

  // ---------------------------------------------------------------------------------------------
  // The exact condition for being current once drained.
  // ---------------------------------------------------------------------------------------------

  lemma {:induction false} StaysUntouched(s: Setup, run: Run, i: nat, j: nat, id: nat, p: nat)
    requires IsRun(s, run) && i <= j < |run.states| && MissesNothing(run.states[i].feed, run.states[i].hub, id, p)
    ensures MissesNothing(run.states[j].feed, run.states[j].hub, id, p)
    decreases j - i
  {
    hide *;
    RunStarts(s, run);
    if i < j {
      StaysUntouched(s, run, i, j - 1, id, p);
      RunInv(s, run, j - 1);
      RunStep(s, run, j - 1);
      NextMissesNothing(s, run.states[j - 1], run.steps[j - 1], run.states[j], id, p);
    }
  }

  lemma NextMissesNothing(s: Setup, w: World, step: Step, w': World, id: nat, p: nat)
    requires Inv(s, w) && Next(s, w, step, w') && MissesNothing(w.feed, w.hub, id, p)
    ensures MissesNothing(w'.feed, w'.hub, id, p)
  {
    hide FeedInv, ReaderInv, HubInv, LinksInv, FeedNext, ReadNext, HubNext, ResultAt, MissesNothing, Grows;
    IndexBound(s, w.feed);
    match step
    case FeedMove(fs) =>
      FeedNextInv(s.index, w.feed, fs, w'.feed);
      MissesNothingSettled(s, w.feed, w'.feed, w.hub, id, p);
    case ReadMove(_) =>
    case HubMove(hs) => MissesNothingKept(s, w.feed, w.hub, hs, w'.hub, id, p);
    case SubscribePublic(read, asOf) =>
      var r := w.reader.active[read];
      MissesNothingKept(s, w.feed, w.hub, Allocate(r.q, r.body, r.version, asOf, true), w'.hub, id, p);
    case SubscribePrivate(q, version, asOf) =>
      var rows := ResultAt(s.sem, w.feed.history, q, asOf);
      MissesNothingKept(s, w.feed, w.hub, Allocate(q, rows, version, asOf, false), w'.hub, id, p);
  }

  /** How far the hub had got, for this subscription, in the state right after it was listed. */
  function ListedAt(run: Run, e: nat, id: nat): nat
    requires e + 1 < |run.states|
  {
    Horizon(run.states[e + 1].hub, id)
  }

  lemma UntouchedIsQuiet(f: Feed, q: Query, p: nat)
    requires Untouched(f, q, p, |f.wire|) && |f.wire| == |f.history.log|
    requires forall i | 0 <= i < |f.wire| :: f.wire[i] == Message(f.history.log[i].txn, i)
    ensures p <= |f.history.log| && Quiet(f.history, q, p, |f.history.log|)
  {
    hide Affected;
  }

  /** Since it was listed, an unrefreshed subscription has missed nothing: the result is what it was then. */
  lemma UnchangedSinceListed(s: Setup, run: Run, e: nat, i: nat, id: nat)
    requires IsRun(s, run) && e < i < |run.states| && run.steps[e] == HubMove(Enlist(id))
    requires Drained(run.states[i]) && id in run.states[i].hub.subs
    requires Noticed(s.index, s.sem.logic, run.states[i].hub.subs[id].q)
    requires id in run.states[i].hub.streams && |run.states[i].hub.streams[id].trail| < 2
    ensures var w := run.states[i]; var q, h := w.hub.subs[id].q, w.feed.history;
            && ListedAt(run, e, id) <= |h.log| && WellFormed(q)
            && KeyedAt(s, h, q, ListedAt(run, e, id)) == KeyedAt(s, h, q, |h.log|)
  {
    hide IsRun, ReaderInv, ValidHistory, HubInv, KeyedAt, Noticed, Untouched, Transcript, OpensWith, Horizon;
    RunStarts(s, run);
    RunStep(s, run, e);
    RunBounds(s, run, e);
    RunBounds(s, run, i);
    var w, p := run.states[i], ListedAt(run, e, id);
    EnlistedMissesNothing(s, run.states[e].feed, run.states[e].hub, id);
    StaysUntouched(s, run, e + 1, i, id, p);
    ListedHolds(s, w.feed, w.hub, id);
    assert Horizon(w.hub, id) == |w.feed.wire| by { DrainedHorizon(w, id); }
    UntouchedIsQuiet(w.feed, w.hub.subs[id].q, p);
    QuietIsCurrent(s, w.feed.history, w.hub.subs[id].q, p, |w.feed.history.log|);
  }

  lemma DrainedHorizon(w: World, id: nat)
    requires Drained(w)
    ensures Horizon(w.hub, id) == |w.feed.wire|
  {
  }

  /**
   The exact condition for convergence: in every run and every drained state, a listed subscription to a noticed
   query holds the current keyed result if and only if it has been refreshed, or the body it was registered with
   is the result at the position the hub had reached when it was listed.
   */
  lemma ConvergesIff(s: Setup, run: Run, e: nat, i: nat, id: nat)
    requires IsRun(s, run) && e < i < |run.states| && run.steps[e] == HubMove(Enlist(id))
    requires Drained(run.states[i]) && id in run.states[i].hub.subs
    requires Noticed(s.index, s.sem.logic, run.states[i].hub.subs[id].q)
    ensures var w := run.states[i]; var q, h, p := w.hub.subs[id].q, w.feed.history, ListedAt(run, e, id);
            && id in w.hub.streams && WellFormed(q) && w.hub.streams[id].trail != []
            && w.hub.streams[id].trail[0] <= |h.log|
            && (w.hub.subs[id].last == KeyedAt(s, h, q, |h.log|) <==>
                || |w.hub.streams[id].trail| >= 2
                || (p <= |h.log| && KeyedAt(s, h, q, w.hub.streams[id].trail[0]) == KeyedAt(s, h, q, p)))
  {
    hide IsRun, ReaderInv, ValidHistory, HubInv, KeyedAt, Noticed, Transcript, OpensWith, ListedAt, Drained;
    RunBounds(s, run, i);
    var w := run.states[i];
    ListedHolds(s, w.feed, w.hub, id);
    if |w.hub.streams[id].trail| >= 2 {
      DrainedConverges(s, run, i, id);
    } else {
      UnchangedSinceListed(s, run, e, i, id);
    }
  }

  /** Every listed subscription was listed by such a step. */
  lemma {:induction false} ListedWasEnlisted(s: Setup, run: Run, i: nat, id: nat) returns (e: nat)
    requires IsRun(s, run) && i < |run.states| && id in run.states[i].hub.subs
    ensures |run.states| == |run.steps| + 1 && e < i && run.steps[e] == HubMove(Enlist(id))
  {
    hide IsRun, Next, Init;
    RunStarts(s, run);
    if i == 0 {
      NobodyListed(s, run.states[0]);
      assert false;
    } else {
      RunStep(s, run, i - 1);
      e := i - 1;
      if id in run.states[i - 1].hub.subs {
        e := ListedWasEnlisted(s, run, i - 1, id);
      } else {
        NewlyListed(s, run.states[i - 1], run.steps[i - 1], run.states[i], id);
      }
    }
  }

  lemma NobodyListed(s: Setup, w: World)
    requires Init(s, w)
    ensures w.hub.subs == map[]
  {
  }

  lemma NewlyListed(s: Setup, w: World, step: Step, w': World, id: nat)
    requires Next(s, w, step, w') && id !in w.hub.subs && id in w'.hub.subs
    ensures step == HubMove(Enlist(id))
  {
    hide FeedNext, ReadNext, ResultAt, WellFormed, JobsMatch, IsDiff, KeyedAt, KeyRows;
  }

  // ---------------------------------------------------------------------------------------------
  // Cursors: what a public subscriber downloads under its query and version.
  // ---------------------------------------------------------------------------------------------

  /** The database holds no relevant commit beyond the version. */
  ghost predicate AtVersion(s: Setup, f: Feed, key: CacheKey) {
    VersionAt(s.index, f.history, key.0, |f.history.log|) == key.1
  }

  /** While the database is at a version, every body ever stored under it is the current result. */
  lemma StoredIsCurrent(s: Setup, f: Feed, key: CacheKey, body: Body)
    requires FeedInv(s.index, f) && EntryInv(s.index, s.sem, f, key, body)
    requires Covered(s.index, s.sem.logic, key.0) && AtVersion(s, f, key)
    ensures WellFormed(key.0) && body == ResultAt(s.sem, f.history, key.0, |f.history.log|)
  {
    hide VersionAt, ViewAt, ValidHistory, Covered, WellFormed, IndexOf;
    var n := |f.history.log|;
    var floor: nat :| StoredAt(s.index, s.sem, f, key.0, key.1, body, floor);
    var k :| floor <= k <= n && body == ResultAt(s.sem, f.history, key.0, k);
    VersionAtMonotone(s.index, f.history, key.0, floor, k);
    VersionAtMonotone(s.index, f.history, key.0, k, n);
    SameVersionSameView(s.index, s.sem.logic, key.0, f.history, k, n);
  }

  lemma CachedIsCurrent(s: Setup, w: World, key: CacheKey)
    requires Inv(s, w) && key in w.reader.cache && WellFormed(key.0)
    requires Covered(s.index, s.sem.logic, key.0) && AtVersion(s, w.feed, key)
    ensures w.reader.cache[key] == ResultAt(s.sem, w.feed.history, key.0, |w.feed.history.log|)
  {
    hide HubInv, LinksInv, AtVersion, EntryInv, Covered, ResultAt, ReadInv, ValidHistory, IndexOf;
    assert EntryInv(s.index, s.sem, w.feed, key, w.reader.cache[key]);
    StoredIsCurrent(s, w.feed, key, w.reader.cache[key]);
  }

  /**
   In every run, while the database is at a version, the cursor and every body returned under that version are
   the current result, so every reader of the version has the same rows.
   */
  lemma CursorAgrees(s: Setup, run: Run, i: nat, id: nat)
    requires IsRun(s, run) && i < |run.states|
    requires id in run.states[i].reader.active && run.states[i].reader.active[id].Done?
    requires var w := run.states[i]; var read := w.reader.active[id];
      && Servable(s.index, s.sem, read.q) && (read.q, read.version) in w.reader.cache
      && AtVersion(s, w.feed, (read.q, read.version))
    ensures var w := run.states[i]; var read := w.reader.active[id];
      && w.reader.cache[(read.q, read.version)] == read.body
      && read.body == ResultAt(s.sem, w.feed.history, read.q, |w.feed.history.log|)
  {
    hide IsRun, AtVersion, ResultAt, FeedInv, ReaderInv, HubInv, LinksInv, EntryInv, Covered;
    RunInv(s, run, i);
    var w := run.states[i];
    var read := w.reader.active[id];
    IndexBound(s, w.feed);
    DoneRead(s.index, s.sem, w.feed, w.reader, id);
    StoredIsCurrent(s, w.feed, (read.q, read.version), read.body);
    CachedIsCurrent(s, w, (read.q, read.version));
  }

  lemma NextKeepsOpenings(s: Setup, w: World, step: Step, w': World)
    requires Inv(s, w) && Next(s, w, step, w')
    ensures forall id | id in w.hub.streams ::
              id in w'.hub.streams && SameOpening(w.hub.streams[id], w'.hub.streams[id])
  {
    hide FeedInv, ReaderInv, HubInv, FeedNext, ReadNext, HubNext, ResultAt, EntryInv;
    IndexBound(s, w.feed);
    assert forall id | id in w.hub.streams :: LinkInv(s, w.feed, w.hub.streams[id]);
    match step
    case FeedMove(_) =>
    case ReadMove(_) =>
    case HubMove(hs) => OpeningsKept(s, w.feed, w.hub, hs, w'.hub);
    case SubscribePublic(read, asOf) =>
      var r := w.reader.active[read];
      OpeningsKept(s, w.feed, w.hub, Allocate(r.q, r.body, r.version, asOf, true), w'.hub);
    case SubscribePrivate(q, version, asOf) =>
      OpeningsKept(s, w.feed, w.hub, Allocate(q, ResultAt(s.sem, w.feed.history, q, asOf), version, asOf, false),
          w'.hub);
  }

  /** A stream keeps its query, its opening body and its first event for the rest of the run. */
  lemma {:induction false} OpeningStays(s: Setup, run: Run, i: nat, j: nat, id: nat)
    requires IsRun(s, run) && i <= j < |run.states| && id in run.states[i].hub.streams
    ensures id in run.states[j].hub.streams && SameOpening(run.states[i].hub.streams[id], run.states[j].hub.streams[id])
    decreases j - i
  {
    hide IsRun, Next, Inv;
    if i == j {
      RunInv(s, run, i);
      StreamOpened(s, run.states[i], id);
    } else {
      RunStarts(s, run);
      OpeningStays(s, run, i, j - 1, id);
      RunInv(s, run, j - 1);
      RunStep(s, run, j - 1);
      NextKeepsOpenings(s, run.states[j - 1], run.steps[j - 1], run.states[j]);
    }
  }

  lemma StreamOpened(s: Setup, w: World, id: nat)
    requires Inv(s, w) && id in w.hub.streams
    ensures w.feed.cdc <= |w.feed.history.log| && LinkInv(s, w.feed, w.hub.streams[id])
  {
    hide ReaderInv, HubInv, EntryInv, ValidHistory, IndexOf;
  }

  /**
   A download made while the database is at the link's version is the body the subscription was registered
   with, then and ever after.
   */
  lemma DownloadIsOpening(s: Setup, run: Run, j: nat, i: nat, id: nat)
    requires IsRun(s, run) && j <= i < |run.states| && id in run.states[j].hub.streams
    requires var w := run.states[j]; var st := w.hub.streams[id];
      && st.events != [] && st.events[0].Link? && Servable(s.index, s.sem, st.q)
      && (st.q, st.events[0].version) in w.reader.cache && AtVersion(s, w.feed, (st.q, st.events[0].version))
    ensures id in run.states[i].hub.streams
    ensures var st := run.states[j].hub.streams[id];
      && run.states[i].hub.streams[id].q == st.q
      && run.states[j].reader.cache[(st.q, st.events[0].version)] == run.states[i].hub.streams[id].opening
  {
    hide IsRun, AtVersion, ResultAt, EntryInv, Covered, Inv;
    OpeningStays(s, run, j, i, id);
    RunInv(s, run, j);
    var w := run.states[j];
    var st := w.hub.streams[id];
    StreamOpened(s, w, id);
    assert FeedInv(s.index, w.feed) by { InvFeed(s, w); }
    StoredIsCurrent(s, w.feed, (st.q, st.events[0].version), st.opening);
    CachedIsCurrent(s, w, (st.q, st.events[0].version));
  }

  lemma InvFeed(s: Setup, w: World)
    requires Inv(s, w)
    ensures FeedInv(s.index, w.feed)
  {
  }
}

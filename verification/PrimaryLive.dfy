/**
 The live hub over the feed of an embedded primary. A commit on several tables is announced once for each of
 them, and announcements are broadcast in whatever order they were delivered. The hub is the same machine.
 */
module PrimaryLive {
  import opened Text
  import opened VersionIndex
  import opened Database
  import opened Queries
  import opened Invalidation
  import opened Feed
  import opened LiveHub
  import opened LiveInvariant
  import opened PrimaryReads
  import World

  datatype Server = Server(primary: Primary, hub: Hub)

  datatype ServerStep =
    | PrimaryMove(primaryStep: PrimaryStep)
    | HubMove(hubStep: HubStep)
    | SubscribePublic(read: nat, asOf: nat)
    | SubscribePrivate(q: Query, version: nat, asOf: nat)

  ghost predicate ServerInit(s: Setup, w: Server) {
    PrimaryInit(s.index, w.primary) && HubInit(w.hub)
  }

  /** What the hub sees. */
  function FeedOf(s: Setup, w: Server): Feed
    requires Received(w.primary)
  {
    Seen(s.index, w.primary)
  }

  ghost predicate ServerNext(s: Setup, w: Server, step: ServerStep, w': Server) {
    && Received(w.primary)
    && match step
       case PrimaryMove(ps) => PrimaryNext(s.index, s.sem, w.primary, ps, w'.primary) && w' == w.(primary := w'.primary)
       case HubMove(hs) => !hs.Allocate? && HubNext(s, FeedOf(s, w), w.hub, hs, w'.hub) && w' == w.(hub := w'.hub)
       case SubscribePublic(id, asOf) =>
         && id in w.primary.reader.active && w.primary.reader.active[id].Done?
         && var read := w.primary.reader.active[id];
         && HubNext(s, FeedOf(s, w), w.hub, Allocate(read.q, read.body, read.version, asOf, true), w'.hub)
         && w' == w.(hub := w'.hub)
       case SubscribePrivate(q, version, asOf) =>
         && WellFormed(q) && asOf <= |w.primary.history.log|
         && var rows := ResultAt(s.sem, w.primary.history, q, asOf);
         && HubNext(s, FeedOf(s, w), w.hub, Allocate(q, rows, version, asOf, false), w'.hub)
         && w' == w.(hub := w'.hub)
  }

  ghost predicate ServerInv(s: Setup, w: Server) {
    PrimaryInv(s.index, s.sem, w.primary) && HubInv(s, FeedOf(s, w), w.hub)
  }

  /** An announcement is broadcast after its commit was applied. */
  lemma PrimaryWireSound(s: Setup, p: Primary)
    requires PrimaryInv(s.index, s.sem, p)
    ensures Received(p) && WireSound(Seen(s.index, p))
  {
    hide ValidHistory, Holding, PrimaryReadInv, IndexOf;
  }

  lemma SeenGrows(s: Setup, p: Primary, p': Primary)
    requires Received(p) && Received(p') && Extends(p, p')
    ensures Grows(Seen(s.index, p), Seen(s.index, p'))
  {
    hide IndexOf;
    assert p'.history.log[..|p.history.log|] == p.history.log;
  }

  /** Every step of the server keeps its invariant. */
  lemma ServerNextInv(s: Setup, w: Server, step: ServerStep, w': Server)
    requires ServerInv(s, w) && ServerNext(s, w, step, w')
    ensures ServerInv(s, w')
  {
    hide PrimaryInv, HubInv, PrimaryNext, HubNext, ResultAt, Seen, Extends;
    PrimaryWireSound(s, w.primary);
    match step
    case PrimaryMove(ps) =>
      PrimaryNextInv(s.index, s.sem, w.primary, ps, w'.primary);
      PrimaryWireSound(s, w'.primary);
      SeenGrows(s, w.primary, w'.primary);
      HubSettled(s, FeedOf(s, w), FeedOf(s, w'), w.hub);
    case HubMove(hs) => HubNextInv(s, FeedOf(s, w), w.hub, hs, w'.hub);
    case SubscribePublic(id, asOf) =>
      var read := w.primary.reader.active[id];
      HubNextInv(s, FeedOf(s, w), w.hub, Allocate(read.q, read.body, read.version, asOf, true), w'.hub);
    case SubscribePrivate(q, version, asOf) =>
      var rows := ResultAt(s.sem, w.primary.history, q, asOf);
      HubNextInv(s, FeedOf(s, w), w.hub, Allocate(q, rows, version, asOf, false), w'.hub);
  }

  datatype ServerRun = ServerRun(states: seq<Server>, steps: seq<ServerStep>)

  ghost predicate IsServerRun(s: Setup, run: ServerRun) {
    && |run.states| == |run.steps| + 1 && ServerInit(s, run.states[0])
    && forall i | 0 <= i < |run.steps| :: ServerNext(s, run.states[i], run.steps[i], run.states[i + 1])
  }

  lemma ServerRunStep(s: Setup, run: ServerRun, i: nat)
    requires IsServerRun(s, run) && i + 1 < |run.states|
    ensures |run.states| == |run.steps| + 1
    ensures ServerNext(s, run.states[i], run.steps[i], run.states[i + 1])
  {
    hide ServerNext, ServerInit;
  }

  lemma ServerStarts(s: Setup, run: ServerRun)
    requires IsServerRun(s, run)
    ensures |run.states| == |run.steps| + 1 && ServerInit(s, run.states[0])
  {
    hide ServerNext, ServerInit;
  }

  lemma ServerInitInv(s: Setup, w: Server)
    requires ServerInit(s, w)
    ensures ServerInv(s, w)
  {
    HubInitInv(s, FeedOf(s, w), w.hub);
  }

  lemma {:induction false} ServerRunInv(s: Setup, run: ServerRun, i: nat)
    requires IsServerRun(s, run) && i < |run.states|
    ensures ServerInv(s, run.states[i])
  {
    hide *;
    ServerStarts(s, run);
    if i == 0 {
      ServerInitInv(s, run.states[0]);
    } else {
      ServerRunInv(s, run, i - 1);
      ServerRunStep(s, run, i - 1);
      ServerNextInv(s, run.states[i - 1], run.steps[i - 1], run.states[i]);
    }
  }

  /** Streams replay to `last` and obey the grammar over this feed too. */
  lemma PrimaryStreams(s: Setup, run: ServerRun, i: nat, id: nat)
    requires IsServerRun(s, run) && i < |run.states| && id in run.states[i].hub.streams
    ensures var hub := run.states[i].hub; var st := hub.streams[id];
            && (PhaseOf(st.events) == Current || PhaseOf(st.events) == Ended)
            && (id in hub.subs ==>
                  Replay(s.sem.hash, KeyColumn(s.columns, hub.subs[id].q), st.opening, st.events) == hub.subs[id].last)
  {
    hide *;
    ServerRunInv(s, run, i);
    var w := run.states[i];
    ServerParts(s, w);
    World.HubGrammar(s, FeedOf(s, w), w.hub, id);
    if id in w.hub.subs {
      World.ListedHolds(s, FeedOf(s, w), w.hub, id);
      World.HoldsReplays(s, FeedOf(s, w).history, w.hub.streams[id], w.hub.subs[id]);
    }
  }

  lemma ServerParts(s: Setup, w: Server)
    requires ServerInv(s, w)
    ensures Received(w.primary) && WireInv(w.primary) && ValidHistory(s.index, w.primary.history)
    ensures HubInv(s, FeedOf(s, w), w.hub) && FeedOf(s, w).history == w.primary.history
    ensures FeedOf(s, w).wire == w.primary.wire
  {
    hide ValidHistory, HubInv, Holding, PrimaryReadInv, IndexOf;
  }

  /** Every commit on the query's tables is announced on one of them, and every announcement was broadcast. */
  ghost predicate FullyAnnounced(p: Primary, q: Query) {
    && (forall n | 0 <= n < |p.notices| :: n in p.delivered) && |p.wire| == |p.delivered|
    && forall c | 0 <= c < |p.history.log| && Affected(p.history.log[c].txn, q) :: NoticeOf(p, q, c)
  }

  ghost predicate NoticeOf(p: Primary, q: Query, c: nat) {
    exists n: nat :: Concerns(p, n, q) && p.notices[n].commit == c
  }

  lemma AnnouncedOnWire(s: Setup, p: Primary, q: Query)
    requires Received(p) && WireInv(p) && FullyAnnounced(p, q)
    ensures Announced(Seen(s.index, p), q)
  {
    hide Affected, IndexOf, Tables;
    var f := Seen(s.index, p);
    forall c | 0 <= c < |p.history.log| && Affected(p.history.log[c].txn, q)
      ensures AnnouncedAt(f, q, c)
    {
      assert NoticeOf(p, q, c);
      var n: nat :| Concerns(p, n, q) && p.notices[n].commit == c;
      assert n in p.delivered;
      var d :| 0 <= d < |p.delivered| && p.delivered[d] == n;
      assert f.wire[d] == NoticeMessage(p.notices, n);
      NoticeAffects(p, n, q);
    }
  }

  lemma NoticeAffects(p: Primary, n: nat, q: Query)
    requires Concerns(p, n, q)
    ensures Affected(NoticeTxn(p.notices, n), q)
  {
    TablesInContents(q.relations, q.ctes);
    var i :| 0 <= i < |Tables(q)| && Tables(q)[i] == Lower(p.notices[n].table);
    assert Lower(NoticeTxn(p.notices, n).changes[0].table) == Lower(Tables(q)[i]);
  }

  /**
   Convergence over an embedded primary, for every order of delivery: once every announcement was delivered,
   broadcast and processed, a refreshed subscription to a noticed query holds the current keyed result, whatever
   tables its commits wrote together.
   */
  lemma PrimaryConverges(s: Setup, run: ServerRun, i: nat, id: nat)
    requires IsServerRun(s, run) && i < |run.states|
    requires var w := run.states[i];
      && w.hub.work.Idle? && w.hub.processed == |w.primary.wire| && id in w.hub.subs
      && Noticed(s.index, s.sem.logic, w.hub.subs[id].q) && FullyAnnounced(w.primary, w.hub.subs[id].q)
      && id in w.hub.streams && |w.hub.streams[id].trail| >= 2
    ensures var w := run.states[i]; var q, h := w.hub.subs[id].q, w.primary.history;
            WellFormed(q) && w.hub.subs[id].last == KeyedAt(s, h, q, |h.log|)
  {
    hide IsServerRun, HubInv, ValidHistory, KeyedAt, Noticed, FullyAnnounced, Announced, WireInv, ServerInv, Seen;
    ServerRunInv(s, run, i);
    var w := run.states[i];
    ServerParts(s, w);
    AnnouncedOnWire(s, w.primary, w.hub.subs[id].q);
    DrainedIsCurrent(s, FeedOf(s, w), w.hub, id);
  }
}

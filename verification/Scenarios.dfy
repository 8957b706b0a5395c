/**
 Complete runs in which something goes wrong. Each is built step by step from an initial state, for any commits
 with the stated results, and then for a concrete table.
 */
module Scenarios {
  import opened Text
  import opened ChangeLog
  import opened VersionIndex
  import opened Anchors
  import opened Database
  import opened Queries
  import opened Invalidation
  import opened Diff
  import opened Feed
  import opened Snapshots
  import opened LiveHub
  import opened World
  import opened Mirror
  import opened Sse
  import opened EndToEnd
  import opened Witnesses

  const NO_HUB := Hub(map[], map[], 0, {}, map[], Idle, 0)

  function Last(run: Run): World
    requires run.states != []
  {
    run.states[|run.states| - 1]
  }

  /** A run so far, and the state it has reached. */
  ghost predicate Reaches(s: Setup, run: Run, w: World) {
    IsRun(s, run) && run.states != [] && Last(run) == w
  }

  lemma Take(s: Setup, run: Run, w: World, step: Step, w': World) returns (more: Run)
    requires Reaches(s, run, w) && Next(s, w, step, w')
    ensures Reaches(s, more, w')
  {
    hide Next, Init;
    more := Run(run.states + [w'], run.steps + [step]);
    forall i | 0 <= i < |more.steps|
      ensures Next(s, more.states[i], more.steps[i], more.states[i + 1])
    {
      if i < |run.steps| {
        assert Next(s, run.states[i], run.steps[i], run.states[i + 1]);
      }
    }
  }

  lemma TakeRead(s: Setup, run: Run, w: World, step: ReadStep, reader: Reader) returns (more: Run, w': World)
    requires Reaches(s, run, w) && ReadNext(s.index, s.sem, w.feed, w.reader, step, reader)
    ensures w' == w.(reader := reader) && Reaches(s, more, w')
  {
    hide Reaches, ReadNext;
    w' := w.(reader := reader);
    more := Take(s, run, w, ReadMove(step), w');
  }

  lemma TakeFeed(s: Setup, run: Run, w: World, step: FeedStep, feed: Feed) returns (more: Run, w': World)
    requires Reaches(s, run, w) && FeedNext(s.index, w.feed, step, feed)
    ensures w' == w.(feed := feed) && Reaches(s, more, w')
  {
    hide Reaches, FeedNext;
    w' := w.(feed := feed);
    more := Take(s, run, w, FeedMove(step), w');
  }

  lemma TakeHub(s: Setup, run: Run, w: World, step: HubStep, hub: Hub) returns (more: Run, w': World)
    requires Reaches(s, run, w) && !step.Allocate? && HubNext(s, w.feed, w.hub, step, hub)
    ensures w' == w.(hub := hub) && Reaches(s, more, w')
  {
    hide Reaches, HubNext;
    w' := w.(hub := hub);
    more := Take(s, run, w, HubMove(step), w');
  }

  function StartFeed(base: Db): Feed {
    Feed(History(base, []), EMPTY, 0, [])
  }

  lemma Begun(s: Setup, base: Db) returns (run: Run, w: World)
    requires StorableDb(s.index, base)
    ensures w == World(StartFeed(base), Reader(map[], map[]), NO_HUB) && Reaches(s, run, w)
  {
    w := World(StartFeed(base), Reader(map[], map[]), NO_HUB);
    run := Run([w], []);
  }

  // ---------------------------------------------------------------------------------------------
  // A row that appears and disappears while two reads race.
  // ---------------------------------------------------------------------------------------------

  /** The first commit makes a row appear in the query's result, the second makes it disappear. */
  datatype Flicker = Flicker(s: Setup, q: Query, base: Db, first: Commit, second: Commit, row: JsonRow)

  function Past(x: Flicker, n: nat): (h: History)
    requires n <= 2
    ensures |h.log| == n
  {
    History(x.base, [x.first, x.second][..n])
  }

  ghost predicate Flickers(x: Flicker) {
    && WellFormed(x.q) && Affected(x.first.txn, x.q) && Affected(x.second.txn, x.q)
    && (forall n: nat | n <= 2 :: ValidHistory(x.s.index, Past(x, n)))
    && (forall n: nat, k: nat | k <= n <= 2 ::
          ResultAt(x.s.sem, Past(x, n), x.q, k) == if k == 1 then [x.row] else [])
  }

  lemma FlickerResult(x: Flicker, n: nat, k: nat)
    requires Flickers(x) && k <= n <= 2
    ensures WellFormed(x.q) && ValidHistory(x.s.index, Past(x, n))
    ensures ResultAt(x.s.sem, Past(x, n), x.q, k) == if k == 1 then [x.row] else []
  {
    hide ValidHistory, ResultAt, WellFormed, Affected, Past;
  }

  lemma FlickerBase(x: Flicker)
    requires Flickers(x)
    ensures StorableDb(x.s.index, x.base)
  {
    hide StorableDb, ReportsCommit, ResultAt, WellFormed, Affected;
    assert ValidHistory(x.s.index, Past(x, 0)) && Past(x, 0).base == x.base;
  }

  lemma PastGrows(x: Flicker, n: nat)
    requires n < 2
    ensures Past(x, n + 1) == History(x.base, Past(x, n).log + [if n == 0 then x.first else x.second])
  {
    var log := [x.first, x.second];
    assert log[..n + 1] == log[..n] + [log[n]];
  }

  /** The version both reads take. */
  function V(x: Flicker): nat {
    QueryVersion(x.s.index, EMPTY, x.q)
  }

  function Reads(cache: map<CacheKey, Body>, zero: Read, one: Read): Reader {
    Reader(cache, map[0 := zero, 1 := one])
  }

  /** Both reads have taken their version and missed. */
  lemma BothMiss(x: Flicker) returns (run: Run, w: World)
    requires WellFormed(x.q) && StorableDb(x.s.index, x.base)
    ensures Reaches(x.s, run, w)
    ensures w == World(StartFeed(x.base), Reads(map[], Missed(x.q, 0, V(x)), Missed(x.q, 0, V(x))), NO_HUB)
  {
    hide Reaches, WellFormed, QueryVersion;
    var s, q, v := x.s, x.q, V(x);
    run, w := Begun(s, x.base);
    run, w := TakeRead(s, run, w, Begin(0, q), Reader(map[], map[0 := Started(q)]));
    run, w := TakeRead(s, run, w, Begin(1, q), Reads(map[], Started(q), Started(q)));
    run, w := TakeRead(s, run, w, ReadVersion(0), Reads(map[], Versioned(q, 0, v), Started(q)));
    run, w := TakeRead(s, run, w, ReadVersion(1), Reads(map[], Versioned(q, 0, v), Versioned(q, 0, v)));
    run, w := TakeRead(s, run, w, LookUp(0), Reads(map[], Missed(q, 0, v), Versioned(q, 0, v)));
    run, w := TakeRead(s, run, w, LookUp(1), Reads(map[], Missed(q, 0, v), Missed(q, 0, v)));
  }

  /** After the race: the first read was answered without the row, the cache has it. */
  function RaceReader(x: Flicker): Reader {
    Reads(map[(x.q, V(x)) := [x.row]], Done(x.q, 0, V(x), []), Done(x.q, 0, V(x), [x.row]))
  }

  /**
   Two racing misses store different bodies under one version: a reachable state in which the first caller was
   answered with a body that the cursor of the same query and version does not return.
   */
  lemma RacingMissesDiffer(x: Flicker) returns (run: Run, w: World)
    requires Flickers(x)
    ensures Reaches(x.s, run, w) && w == World(Feed(Past(x, 1), EMPTY, 0, []), RaceReader(x), NO_HUB)
    ensures w.reader.active[0] == Done(x.q, 0, V(x), []) && w.reader.cache[(x.q, V(x))] == [x.row]
  {
    hide Reaches, ValidHistory, ResultAt, WellFormed, QueryVersion, Affected;
    FlickerResult(x, 0, 0);
    FlickerResult(x, 1, 1);
    PastGrows(x, 0);
    assert Past(x, 0) == History(x.base, []);
    var s, q, v := x.s, x.q, V(x);
    FlickerBase(x);
    run, w := BothMiss(x);
    hide Past, Flickers;
    var without, with := Computed(q, 0, v, []), Computed(q, 0, v, [x.row]);
    run, w := TakeRead(s, run, w, Compute(0), Reads(map[], without, Missed(q, 0, v)));
    run, w := TakeFeed(s, run, w, Apply(x.first), Feed(Past(x, 1), EMPTY, 0, []));
    run, w := TakeRead(s, run, w, Compute(1), Reads(map[], without, with));
    run, w := TakeRead(s, run, w, Store(0), Reads(map[(q, v) := []], Done(q, 0, v, []), with));
    run, w := TakeRead(s, run, w, Store(1), RaceReader(x));
  }

  // ---------------------------------------------------------------------------------------------
  // The browser that downloads the other body.
  // ---------------------------------------------------------------------------------------------

  /** One listed subscription that holds no rows. */
  function OneSub(x: Flicker, st: Stream, processed: nat): Hub {
    Hub(map[0 := Sub(x.q, map[])], map[], 1, {0}, map[0 := st], Idle, processed)
  }

  function LinkStream(x: Flicker): Stream {
    Stream(x.q, [], [Link(x.q, V(x))], [0], [None])
  }

  /** The first caller subscribes with its own body, and the row disappears. */
  lemma Subscribed(x: Flicker) returns (run: Run, w: World)
    requires Flickers(x)
    ensures Reaches(x.s, run, w)
    ensures w == World(Feed(Past(x, 2), EMPTY, 0, []), RaceReader(x), OneSub(x, LinkStream(x), 0))
  {
    hide Reaches, ValidHistory, ResultAt, WellFormed, QueryVersion, Affected;
    run, w := RacingMissesDiffer(x);
    FlickerResult(x, 1, 0);
    FlickerResult(x, 2, 2);
    PastGrows(x, 1);
    hide Past, Flickers;
    var joined := AllocateStep(x.s, NO_HUB, x.q, [], V(x), 0, true);
    var w' := w.(hub := joined);
    assert HubNext(x.s, w.feed, w.hub, Allocate(x.q, [], V(x), 0, true), joined);
    run := Take(x.s, run, w, SubscribePublic(0, 0), w');
    run, w := TakeHub(x.s, run, w', Enlist(0), OneSub(x, LinkStream(x), 0));
    run, w := TakeFeed(x.s, run, w, Apply(x.second), Feed(Past(x, 2), EMPTY, 0, []));
  }

  /** The feed of the whole history with `cdc` commits indexed and `sent` broadcast. */
  function Feeding(x: Flicker, index: Index, cdc: nat, sent: nat): Feed
    requires sent <= 2
  {
    Feed(Past(x, 2), index, cdc, Messages(x, sent))
  }

  function Messages(x: Flicker, sent: nat): (wire: seq<Message>)
    requires sent <= 2
    ensures |wire| == sent
  {
    seq(sent, i requires 0 <= i < sent => Message(Past(x, 2).log[i].txn, i))
  }

  lemma NothingToSend()
    ensures IsDiff([], map[], map[]) && Changes([], 0) == []
  {
  }

  lemma OneJob(x: Flicker, st: Stream, n: nat)
    requires Flickers(x) && n < 2
    ensures JobsMatch(map[0 := Sub(x.q, map[])], Past(x, 2).log[n].txn, [Job(0, x.q, map[])])
  {
    hide ValidHistory, ResultAt, WellFormed, Affected;
    var jobs := [Job(0, x.q, map[])];
    assert jobs[0].id in JobIds(jobs);
  }

  /** A commit is indexed and broadcast. */
  lemma Broadcasts(x: Flicker, run: Run, w: World, n: nat) returns (more: Run, w': World)
    requires n < 2 && Reaches(x.s, run, w) && w.feed == Feeding(x, w.feed.index, n, n)
    ensures Reaches(x.s, more, w') && w' == w.(feed := Feeding(x, w'.feed.index, n + 1, n + 1))
  {
    hide Reaches, Past, AdvanceTxn;
    assert Messages(x, n + 1) == Messages(x, n) + [Message(Past(x, 2).log[n].txn, n)];
    var index := AdvanceTxn(x.s.index, w.feed.index, Past(x, 2).log[n].txn);
    more, w' := TakeFeed(x.s, run, w, Advance, Feeding(x, index, n + 1, n));
    more, w' := TakeFeed(x.s, more, w', Broadcast, Feeding(x, index, n + 1, n + 1));
  }

  /** The hub with its worker busy on the subscription's job. */
  function Busy(x: Flicker, st: Stream, n: nat, fetched: Option<LiveHub.Fetched>): Hub {
    OneSub(x, st, n).(work := Working(n, [Job(0, x.q, map[])], fetched))
  }

  lemma CollectNext(x: Flicker, f: Feed, st: Stream, n: nat)
    requires Flickers(x) && n < 2 && f == Feeding(x, f.index, n + 1, n + 1)
    ensures HubNext(x.s, f, OneSub(x, st, n), Collect([Job(0, x.q, map[])]), Busy(x, st, n, None))
  {
    hide JobsMatch, Flickers, Affected, ResultAt, ValidHistory;
    OneJob(x, st, n);
    assert f.history == Past(x, 2) && |f.history.log| == 2;
    assert |f.wire| == n + 1 && f.wire[n].txn == Past(x, 2).log[n].txn;
    hide Past, Messages;
  }

  lemma FetchNext(x: Flicker, f: Feed, st: Stream, n: nat)
    requires Flickers(x) && n < 2 && f == Feeding(x, f.index, n + 1, n + 1)
    ensures HubNext(x.s, f, Busy(x, st, n, None), Fetch, Busy(x, st, n, Some(LiveHub.Fetched(map[], 2))))
  {
    hide KeyedAt, Flickers, WellFormed, ResultAt, ValidHistory, Affected;
    FlickerCurrent(x);
    assert f.history == Past(x, 2) && |f.history.log| == 2;
    assert |f.wire| == n + 1 && f.wire[n].txn == Past(x, 2).log[n].txn;
    hide Past, Messages;
    var busy := Busy(x, st, n, None);
    assert busy.work.jobs[0].q == x.q;
    assert busy.(work := busy.work.(fetched := Some(LiveHub.Fetched(map[], 2)))) ==
        Busy(x, st, n, Some(LiveHub.Fetched(map[], 2)));
  }

  lemma DeliverNext(x: Flicker, f: Feed, st: Stream, n: nat)
    requires n < 2 && f == Feeding(x, f.index, n + 1, n + 1)
    ensures var sent := OneSub(x, SendBatch(st, [], Past(x, 2).log[n].txn.xid, n, 2), n).(work := Working(n, [], None));
      HubNext(x.s, f, Busy(x, st, n, Some(LiveHub.Fetched(map[], 2))), Deliver([]), sent)
  {
    NothingToSend();
    assert f.wire[n].txn == Past(x, 2).log[n].txn;
    hide Past, SendBatch, IsDiff, Messages;
    var busy, xid := Busy(x, st, n, Some(LiveHub.Fetched(map[], 2))), f.wire[n].txn.xid;
    assert busy.work.jobs[1..] == [];
    assert DeliverStep(busy, [], xid).subs == map[0 := Sub(x.q, map[])];
    assert DeliverStep(busy, [], xid).streams == map[0 := SendBatch(st, [], xid, n, 2)];
  }

  /** A commit on the query's tables is indexed, broadcast and processed; its difference is empty. */
  lemma EmptyBatch(x: Flicker, run: Run, w: World, st: Stream, n: nat) returns (more: Run, w': World)
    requires Flickers(x) && n < 2 && Reaches(x.s, run, w)
    requires w.feed == Feeding(x, w.feed.index, n, n) && w.hub == OneSub(x, st, n)
    ensures Reaches(x.s, more, w') && w'.reader == w.reader && w'.feed == Feeding(x, w'.feed.index, n + 1, n + 1)
    ensures w'.hub == OneSub(x, SendBatch(st, [], Past(x, 2).log[n].txn.xid, n, 2), n + 1)
  {
    hide Reaches, Past, Flickers, SendBatch, HubNext, Feeding;
    more, w' := Broadcasts(x, run, w, n);
    CollectNext(x, w'.feed, st, n);
    more, w' := TakeHub(x.s, more, w', Collect([Job(0, x.q, map[])]), Busy(x, st, n, None));
    FetchNext(x, w'.feed, st, n);
    more, w' := TakeHub(x.s, more, w', Fetch, Busy(x, st, n, Some(LiveHub.Fetched(map[], 2))));
    DeliverNext(x, w'.feed, st, n);
    var sent := SendBatch(st, [], Past(x, 2).log[n].txn.xid, n, 2);
    more, w' := TakeHub(x.s, more, w', Deliver([]), OneSub(x, sent, n).(work := Working(n, [], None)));
    FinishNext(x, w'.feed, sent, n);
    more, w' := TakeHub(x.s, more, w', Finish, OneSub(x, sent, n + 1));
  }

  lemma FinishNext(x: Flicker, f: Feed, st: Stream, n: nat)
    ensures HubNext(x.s, f, OneSub(x, st, n).(work := Working(n, [], None)), Finish, OneSub(x, st, n + 1))
  {
    RetainOne(x, OneSub(x, st, n));
  }

  lemma RetainOne(x: Flicker, hub: Hub)
    requires hub.subs == map[0 := Sub(x.q, map[])] && hub.open == {0}
    ensures Retain(hub.subs, hub.open) == hub.subs
  {
  }

  /** What the public subscriber is sent: its link and two end marks. */
  function DrainedStream(x: Flicker): Stream {
    SendBatch(SendBatch(LinkStream(x), [], x.first.txn.xid, 0, 2), [], x.second.txn.xid, 1, 2)
  }

  lemma FlickerDrains(x: Flicker) returns (run: Run, w: World)
    requires Flickers(x)
    ensures Reaches(x.s, run, w) && Drained(w) && w.feed.history == Past(x, 2)
    ensures w.reader == RaceReader(x) && w.hub == OneSub(x, DrainedStream(x), 2)
  {
    hide Reaches, ValidHistory, ResultAt, WellFormed, Affected, SendBatch, QueryVersion;
    assert Past(x, 2).log == [x.first, x.second];
    hide Flickers, Past;
    run, w := Subscribed(x);
    run, w := EmptyBatch(x, run, w, LinkStream(x), 0);
    run, w := EmptyBatch(x, run, w, SendBatch(LinkStream(x), [], x.first.txn.xid, 0, 2), 1);
  }

  lemma FlickerKeysFit(x: Flicker, getKey: KeyOf)
    requires Flickers(x)
    ensures KeysFit(x.s, Past(x, 2), x.q, getKey)
  {
    forall k | 0 <= k <= 2
      ensures ResultAt(x.s.sem, Past(x, 2), x.q, k) == if k == 1 then [x.row] else []
    {
      FlickerResult(x, 2, k);
    }
    hide ResultAt, ValidHistory, Flickers, Past, WellFormed;
  }

  lemma NothingMentioned(x: Flicker, getKey: KeyOf)
    ensures forall y :: !Mentioned(getKey, DrainedStream(x).events, y)
    ensures DrainedStream(x).q == x.q && DrainedStream(x).trail == [0, 2, 2]
    ensures DrainedStream(x).events != [] && DrainedStream(x).events[0] == Link(x.q, V(x))
  {
    hide QueryVersion;
    var events := DrainedStream(x).events;
    assert events == [Link(x.q, V(x)), UpToDate(x.first.txn.xid), UpToDate(x.second.txn.xid)];
  }

  /**
   A public browser can be wrong for good. The run ends drained, with the current result empty; the subscription
   is listed and was refreshed twice; the link is still in the cache, and the browser that downloads it and
   reads its whole stream goes on showing a row that no longer exists.
   */
  lemma PublicBrowserCanBeWrong(x: Flicker, getKey: KeyOf, codec: Codec, chunks: seq<string>)
    returns (run: Run, w: World)
    requires Flickers(x) && Faithful(codec)
    requires Concat(chunks) == WireText(codec, DrainedStream(x).events)
    ensures Reaches(x.s, run, w) && Drained(w) && 0 in w.hub.subs && w.hub.streams == map[0 := DrainedStream(x)]
    ensures |w.hub.streams[0].trail| >= 2 && WellFormed(x.q)
    ensures KeyedAt(x.s, w.feed.history, x.q, |w.feed.history.log|) == map[] == w.hub.subs[0].last
    ensures DrainedStream(x).events != [] && DrainedStream(x).events[0].Link?
    ensures DownloadAt(w, DrainedStream(x)) == Some([x.row])
    ensures var c := Browser(codec, getKey, DownloadAt(w, DrainedStream(x)), chunks);
            AtRest(c) && !Mirrors(getKey, map[], c.rows)
  {
    hide ValidHistory, ResultAt, WellFormed, Affected, QueryVersion, Browser, AtRest, Mirrors, KeyedAt, DrainedStream;
    hide Faithful, WireText, Concat, IsRun, KeysFit;
    run, w := FlickerDrains(x);
    FlickerCurrent(x);
    FlickerKeysFit(x, getKey);
    NothingMentioned(x, getKey);
    assert w.hub.streams[0] == DrainedStream(x);
    BrowserMirrorsIff(x.s, run, |run.states| - 1, 0, getKey, codec, Some([x.row]), chunks);
    RowIsLoaded(x, getKey);
  }

  lemma FlickerCurrent(x: Flicker)
    requires Flickers(x)
    ensures WellFormed(x.q) && KeyedAt(x.s, Past(x, 2), x.q, 2) == map[] && KeyedAt(x.s, Past(x, 2), x.q, 0) == map[]
  {
    hide ResultAt, Past, Flickers;
    FlickerResult(x, 2, 2);
    FlickerResult(x, 2, 0);
  }

  /** The downloaded row disagrees with the stream's empty first state. */
  lemma RowIsLoaded(x: Flicker, getKey: KeyOf)
    ensures !LoadAgrees(getKey, [x.row], map[], DrainedStream(x).events)
  {
    NothingMentioned(x, getKey);
    var y := getKey(x.row);
    assert [x.row][..0] == [];
    assert At(Loaded(getKey, [x.row]), y) == Some(x.row);
    assert RowAt(getKey, map[], y) == None;
    assert Given([x.row], DrainedStream(x).events) == [x.row];
    assert !Mentioned(getKey, DrainedStream(x).events, y);
  }

  // ---------------------------------------------------------------------------------------------
  // A subscription registered too late.
  // ---------------------------------------------------------------------------------------------

  lemma NoJobToCollect(txn: Txn)
    ensures JobsMatch(map[], txn, [])
  {
  }

  /** A commit processed while nobody was subscribed. */
  lemma Unnoticed(x: Flicker) returns (run: Run, w: World)
    requires Flickers(x)
    ensures Reaches(x.s, run, w) && w.reader == Reader(map[], map[]) && w.hub == NO_HUB.(processed := 1)
    ensures w.feed == Feed(Past(x, 1), w.feed.index, 1, [Message(Past(x, 1).log[0].txn, 0)])
  {
    hide Reaches, ValidHistory, ResultAt, WellFormed, Affected;
    FlickerResult(x, 1, 1);
    PastGrows(x, 0);
    assert Past(x, 0) == History(x.base, []);
    FlickerBase(x);
    hide Flickers, Past, AdvanceTxn, JobsMatch;
    run, w := Begun(x.s, x.base);
    var h := Past(x, 1);
    run, w := TakeFeed(x.s, run, w, Apply(x.first), Feed(h, EMPTY, 0, []));
    var index := AdvanceTxn(x.s.index, EMPTY, h.log[0].txn);
    run, w := TakeFeed(x.s, run, w, Advance, Feed(h, index, 1, []));
    run, w := TakeFeed(x.s, run, w, Broadcast, Feed(h, index, 1, [Message(h.log[0].txn, 0)]));
    NoJobToCollect(h.log[0].txn);
    run, w := TakeHub(x.s, run, w, Collect([]), NO_HUB.(work := Working(0, [], None)));
    assert Retain(map[], {}) == map[];
    run, w := TakeHub(x.s, run, w, Finish, NO_HUB.(processed := 1));
  }

  /**
   The commit is needed for convergence: a run that ends drained with a subscription whose `last` lacks the row
   that the query now has. Its snapshot was taken before the commit, its registration came after it.
   */
  lemma LateSubscriberIsStale(x: Flicker, version: nat) returns (run: Run, w: World)
    requires Flickers(x)
    ensures Reaches(x.s, run, w) && Drained(w) && w.feed.history == Past(x, 1)
    ensures 0 in w.hub.subs && w.hub.subs[0] == Sub(x.q, map[]) && WellFormed(x.q)
    ensures KeyedAt(x.s, w.feed.history, x.q, |w.feed.history.log|) != map[]
  {
    hide Reaches, ValidHistory, ResultAt, WellFormed, Affected;
    run, w := Unnoticed(x);
    FlickerResult(x, 1, 0);
    FlickerResult(x, 1, 1);
    assert |Past(x, 1).log| == 1;
    hide Flickers, Past;
    var joined := AllocateStep(x.s, w.hub, x.q, [], version, 0, false);
    assert HubNext(x.s, w.feed, w.hub, Allocate(x.q, [], version, 0, false), joined);
    var w' := w.(hub := joined);
    run := Take(x.s, run, w, SubscribePrivate(x.q, version, 0), w');
    run, w := TakeHub(x.s, run, w', Enlist(0), EnlistStep(joined, 0));
    assert RowKey(x.s.sem.hash, KeyColumn(x.s.columns, x.q), x.row) in KeyRows(x.s, x.q, [x.row]);
  }

  // ---------------------------------------------------------------------------------------------
  // A commit on a table that the hub does not watch for the query.
  // ---------------------------------------------------------------------------------------------

  /** A commit that changes the query's keyed result without touching the tables it is filed under. */
  ghost predicate Escapes(s: Setup, q: Query, base: Db, c: Commit) {
    var h := History(base, [c]);
    && WellFormed(q) && StorableDb(s.index, base) && ValidHistory(s.index, h) && !Affected(c.txn, q)
    && KeyedAt(s, h, q, 0) != KeyedAt(s, h, q, 1)
  }

  lemma FirstResult(s: Setup, q: Query, base: Db, c: Commit)
    requires WellFormed(q)
    ensures ResultAt(s.sem, History(base, [c]), q, 0) == ResultAt(s.sem, History(base, []), q, 0)
  {
  }

  /** The hub of one private subscription that was registered before any commit. */
  function FirstHub(s: Setup, q: Query, rows: seq<JsonRow>, version: nat, processed: nat): Hub {
    Hub(map[0 := Sub(q, KeyRows(s, q, rows))], map[], 1, {0},
        map[0 := Stream(q, rows, [Snapshot(rows, version)], [0], [None])], Idle, processed)
  }

  lemma FirstSubscriber(s: Setup, q: Query, base: Db, version: nat) returns (run: Run, w: World)
    requires WellFormed(q) && StorableDb(s.index, base)
    ensures var rows := ResultAt(s.sem, History(base, []), q, 0);
            Reaches(s, run, w) && w == World(StartFeed(base), Reader(map[], map[]), FirstHub(s, q, rows, version, 0))
  {
    hide Reaches, ResultAt, WellFormed, KeyRows;
    run, w := Begun(s, base);
    var rows := ResultAt(s.sem, History(base, []), q, 0);
    var joined := AllocateStep(s, NO_HUB, q, rows, version, 0, false);
    assert HubNext(s, w.feed, w.hub, Allocate(q, rows, version, 0, false), joined);
    var w' := w.(hub := joined);
    run := Take(s, run, w, SubscribePrivate(q, version, 0), w');
    run, w := TakeHub(s, run, w', Enlist(0), FirstHub(s, q, rows, version, 0));
  }

  lemma NobodyAffected(s: Setup, q: Query, rows: seq<JsonRow>, txn: Txn)
    requires !Affected(txn, q)
    ensures JobsMatch(map[0 := Sub(q, KeyRows(s, q, rows))], txn, [])
  {
    hide Affected, KeyRows;
  }

  /**
   A run that ends drained with a listed subscription that was there before the only commit, and whose `last` is not
   the current result: the hub collected no job for it.
   */
  lemma HiddenCommitIsMissed(s: Setup, q: Query, base: Db, c: Commit, version: nat) returns (run: Run, w: World)
    requires Escapes(s, q, base, c)
    ensures Reaches(s, run, w) && Drained(w) && w.feed.history == History(base, [c])
    ensures 0 in w.hub.subs && w.hub.subs[0].q == q && WellFormed(q)
    ensures w.hub.subs[0].last != KeyedAt(s, w.feed.history, q, |w.feed.history.log|)
  {
    hide Reaches, ResultAt, WellFormed, KeyRows, ValidHistory, StorableDb, Affected;
    FirstResult(s, q, base, c);
    run, w := FirstSubscriber(s, q, base, version);
    var h, rows := History(base, [c]), ResultAt(s.sem, History(base, []), q, 0);
    hide AdvanceTxn, JobsMatch;
    run, w := TakeFeed(s, run, w, Apply(c), Feed(h, EMPTY, 0, []));
    var index := AdvanceTxn(s.index, EMPTY, c.txn);
    run, w := TakeFeed(s, run, w, Advance, Feed(h, index, 1, []));
    run, w := TakeFeed(s, run, w, Broadcast, Feed(h, index, 1, [Message(c.txn, 0)]));
    NobodyAffected(s, q, rows, c.txn);
    var hub := FirstHub(s, q, rows, version, 0);
    run, w := TakeHub(s, run, w, Collect([]), hub.(work := Working(0, [], None)));
    assert Retain(hub.subs, hub.open) == hub.subs;
    run, w := TakeHub(s, run, w, Finish, FirstHub(s, q, rows, version, 1));
  }

  /** It happens to `WITH t AS (SELECT * FROM t) SELECT count(*) FROM t`, which is filed under no table at all. */
  lemma ShadowedEscapes(s: Setup)
    requires s.sem.render == CountTable && s.index.storable("t", IdRow("1"))
    ensures Escapes(s, SHADOWED, map[], Inserting(map[], "t", 0, IdRow("1")).log[0])
  {
    ShadowedServedStale(s.index, s.sem.logic, s.sem.hash);
    ShadowedTables();
    var h := Inserting(map[], "t", 0, IdRow("1"));
    assert s.sem == Semantics(s.sem.logic, CountTable, s.sem.hash);
    assert h == History(map[], [h.log[0]]);
    hide ValidHistory, ResultAt, VersionAt, CountRow;
    OneKeyed(s, SHADOWED, CountRow(0)[0]);
    OneKeyed(s, SHADOWED, CountRow(1)[0]);
    CountIsOne(0);
    CountIsOne(1);
  }

  lemma CountIsOne(n: nat)
    ensures |CountRow(n)| == 1 && CountRow(n) == [CountRow(n)[0]]
  {
  }

  lemma OneKeyed(s: Setup, q: Query, row: JsonRow)
    ensures KeyRows(s, q, [row]) == map[RowKey(s.sem.hash, KeyColumn(s.columns, q), row) := row]
  {
    assert [row][..0] == [] && Keyed(s.sem.hash, KeyColumn(s.columns, q), [row][..0]) == map[];
  }

  // ---------------------------------------------------------------------------------------------
  // A concrete table on which all of this happens.
  // ---------------------------------------------------------------------------------------------

  /** `SELECT * FROM items`. */
  const ITEMS := Query([Relation(["items"], true)], {}, None, [], true)

  const STORED: Row := [("id", Some("1"))]

  const ITEM := JsonRow(map["id" := JsonString("1")])

  /** The query's rows as JSON, for a table that only ever has this row. */
  function ShowItem(q: Query, v: View): seq<JsonRow> {
    if v.MatchingRows? && v.rows != map[] then [ITEM] else []
  }

  function ItemFlicker(logic: Logic, hash: RowHash): Flicker {
    Flicker(
      Setup(Config(map[], {}, (_, _) => true), Semantics(logic, ShowItem, hash), map[]), ITEMS, map[],
      Commit(Txn(1, 1, [Insert("items", STORED)]), [InsertRow("items", 0, STORED)]),
      Commit(Txn(2, 2, [Delete("items", [])]), [DeleteRow("items", 0)]),
      ITEM)
  }

  lemma ItemsTable(logic: Logic)
    ensures WellFormed(ITEMS) && Tables(ITEMS) == ["items"] && Lower("items") == "items"
    ensures RelationName(ITEMS.relations[0]) == "items"
  {
    assert Lower("items") == "items";
    SingleTable(ITEMS);
  }

  lemma ItemsDb(logic: Logic, hash: RowHash, n: nat, k: nat)
    requires k <= n <= 2
    ensures DbAt(Past(ItemFlicker(logic, hash), n), k) ==
            if k == 0 then map[] else if k == 1 then map["items" := map[0 := STORED]] else map["items" := map[]]
  {
    var x := ItemFlicker(logic, hash);
    var h := Past(x, n);
    if k >= 1 {
      assert h.log[0] == x.first && x.first.effects[..0] == [];
      assert ApplyEffects(map[], x.first.effects[..0]) == map[];
      assert DbAt(h, 1) == ApplyEffect(map[], InsertRow("items", 0, STORED));
    }
    if k == 2 {
      var db: Db := map["items" := map[0 := STORED]];
      assert DbAt(h, 1) == db;
      assert h.log[1] == x.second && x.second.effects[..0] == [];
      assert ApplyEffects(db, x.second.effects[..0]) == db;
      assert DbAt(h, 2) == ApplyEffect(db, DeleteRow("items", 0));
      assert map[0 := STORED] - {0} == map[];
      assert ApplyEffect(db, DeleteRow("items", 0)) == map["items" := map[]];
    }
  }

  lemma ItemsResult(logic: Logic, hash: RowHash, n: nat, k: nat)
    requires k <= n <= 2
    ensures WellFormed(ITEMS)
    ensures var x := ItemFlicker(logic, hash);
            ResultAt(x.s.sem, Past(x, n), ITEMS, k) == if k == 1 then [ITEM] else []
  {
    ItemsTable(logic);
    ItemsDb(logic, hash, n, k);
    var db := DbAt(Past(ItemFlicker(logic, hash), n), k);
    hide DbAt, Past, Tables;
    var rows := MatchingIn(logic, ITEMS, TableOf(db, "items"));
    assert ViewOf(logic, ITEMS, db) == MatchingRows(rows);
    assert rows == TableOf(db, "items");
    assert k == 1 ==> 0 in rows;
  }

  lemma ItemsHistory(logic: Logic, hash: RowHash, n: nat)
    requires n <= 2
    ensures ValidHistory(ItemFlicker(logic, hash).s.index, Past(ItemFlicker(logic, hash), n))
  {
    var x := ItemFlicker(logic, hash);
    var h := Past(x, n);
    ItemsTable(logic);
    forall k | 0 <= k < |h.log|
      ensures ReportsCommit(x.s.index, DbAt(h, k), h.log[k])
    {
      ItemsDb(logic, hash, n, k);
      assert h.log[k].effects[..0] == [];
    }
  }

  lemma ItemsServed(logic: Logic, hash: RowHash)
    ensures var x := ItemFlicker(logic, hash);
            Watched(ITEMS) && Covered(x.s.index, logic, ITEMS) && Affected(x.first.txn, ITEMS) &&
                Affected(x.second.txn, ITEMS)
  {
    var x := ItemFlicker(logic, hash);
    ItemsTable(logic);
    assert Lower(x.first.txn.changes[0].table) == Lower(Tables(ITEMS)[0]);
    assert Lower(x.second.txn.changes[0].table) == Lower(Tables(ITEMS)[0]);
    hide Tables;
    CanonicalIsCovered(x.s.index, logic, ITEMS);
  }

  /**
   The query is served correctly in every other respect: its versions can be trusted and the hub watches its
   table.
   */
  lemma ItemsFlicker(logic: Logic, hash: RowHash)
    ensures Flickers(ItemFlicker(logic, hash))
    ensures Watched(ITEMS) && Servable(ItemFlicker(logic, hash).s.index, ItemFlicker(logic, hash).s.sem, ITEMS)
  {
    hide Tables, Affected, ValidHistory, ResultAt, Past, Covered, Watched;
    var x := ItemFlicker(logic, hash);
    ItemsTable(logic);
    ItemsServed(logic, hash);
    forall n: nat | n <= 2
      ensures ValidHistory(x.s.index, Past(x, n))
    {
      ItemsHistory(logic, hash, n);
    }
    forall n: nat, k: nat | k <= n <= 2
      ensures ResultAt(x.s.sem, Past(x, n), ITEMS, k) == if k == 1 then [ITEM] else []
    {
      ItemsResult(logic, hash, n, k);
    }
  }
}

/**
 The live hub as a state machine. One worker takes a broadcast transaction, collects the affected
 subscriptions under the lock, releases it, re-runs each query, takes the lock again and delivers the
 difference. Subscribing, dropping and lag resets interleave with every one of those steps.
 */
module LiveHub {
  import opened Text
  import opened ChangeLog
  import opened VersionIndex
  import opened Database
  import opened Queries
  import opened Diff
  import opened Feed

  /** Capacity of the broadcast channel. */
  const CAPACITY: nat := 1024

  /** The index configuration, the query semantics, and the key column of each table as spelled in results. */
  datatype Setup = Setup(index: Config, sem: Semantics, columns: map<string, string>)

  /** A private stream opens with the rows, a public one with a link to the cached body of its query and version. */
  datatype Event =
    | Snapshot(rows: seq<JsonRow>, version: nat)
    | Link(q: Query, version: nat)
    | Change(delta: Delta, txid: nat)
    | UpToDate(txid: nat)
    | Reset

  datatype Sub = Sub(q: Query, last: KeyedRows)

  datatype Job = Job(id: nat, q: Query, last: KeyedRows)

  /** A re-queried result, with the number of commits the database had applied. */
  datatype Fetched = Fetched(next: KeyedRows, asOf: nat)

  /** The worker's message is the position on the wire of the transaction it is dealing with. */
  datatype Work = Idle | Working(message: nat, jobs: seq<Job>, fetched: Option<Fetched>)

  /**
   Everything sent to one subscription. `opening` is the body it was registered with, `trail` records the
   database prefix behind that body and behind each completed batch, and `origins` the message behind each event.
   */
  datatype Stream = Stream(
    q: Query, opening: seq<JsonRow>, events: seq<Event>, trail: seq<nat>, origins: seq<Option<nat>>)

  /**
   `joining` are subscriptions between the allocation of their id and their insertion in the table,
   `open` are those whose receiver still exists, and `processed` counts transactions taken from the channel.
   */
  datatype Hub = Hub(
    subs: map<nat, Sub>,
    joining: map<nat, Sub>,
    nextId: nat,
    open: set<nat>,
    streams: map<nat, Stream>,
    work: Work,
    processed: nat)

  datatype HubStep =
    | Allocate(q: Query, rows: seq<JsonRow>, version: nat, asOf: nat, public: bool)
    | Enlist(id: nat)
    | Unlist(id: nat)
    | Close(id: nat)
    | Collect(jobs: seq<Job>)
    | Fetch
    | FetchFails
    | Deliver(deltas: seq<Delta>)
    | Finish
    | Lag

  /** A single-table query is keyed by its table's primary key, any other by content. */
  function KeyColumn(columns: map<string, string>, q: Query): Option<string> {
    var tables := Tables(q);
    if |tables| == 1 && Lower(tables[0]) in columns then Some(columns[Lower(tables[0])]) else None
  }

  function KeyRows(s: Setup, q: Query, rows: seq<JsonRow>): KeyedRows {
    Keyed(s.sem.hash, KeyColumn(s.columns, q), rows)
  }

  /** A query on no table, on several, or on one without a known key is keyed by the content of its rows. */
  lemma OthersKeyedByContent(s: Setup, q: Query, rows: seq<JsonRow>, key: string)
    requires |Tables(q)| != 1 || Tables(q)[0] !in s.columns
    ensures key in KeyRows(s, q, rows) <==> exists i | 0 <= i < |rows| :: s.sem.hash(rows[i]) == key
  {
    hide Keyed, Tables;
    if |Tables(q)| == 1 {
      TableNameFolded(q);
    }
    KeyedByContent(s.sem.hash, KeyColumn(s.columns, q), rows, key);
  }

  /** A query on one table with a known key is keyed by the text of that column. */
  lemma SingleKeyedByColumn(s: Setup, q: Query, rows: seq<JsonRow>, key: string)
    requires |Tables(q)| == 1 && Tables(q)[0] in s.columns
    requires forall i | 0 <= i < |rows| :: s.columns[Tables(q)[0]] in rows[i].fields
    ensures key in KeyRows(s, q, rows) <==>
            exists i | 0 <= i < |rows| :: rows[i].fields[s.columns[Tables(q)[0]]].text == key
  {
    hide Keyed, Tables;
    TableNameFolded(q);
    KeyedByColumn(s.sem.hash, s.columns[Tables(q)[0]], rows, key);
  }

  lemma TableNameFolded(q: Query)
    requires |Tables(q)| == 1
    ensures Lower(Tables(q)[0]) == Tables(q)[0]
  {
    hide Lower;
    TablesInContents(q.relations, q.ctes);
    assert Tables(q)[0] in TablesIn(q.relations, q.ctes);
    var i :| 0 <= i < |q.relations| && RelationName(q.relations[i]) == Tables(q)[0];
    RelationNameFolded(q.relations[i]);
  }

  /** The keyed result on the database after the first `k` commits. */
  ghost function KeyedAt(s: Setup, h: History, q: Query, k: nat): KeyedRows
    requires WellFormed(q) && k <= |h.log|
  {
    KeyRows(s, q, ResultAt(s.sem, h, q, k))
  }

  function JobIds(jobs: seq<Job>): set<nat> {
    set i | 0 <= i < |jobs| :: jobs[i].id
  }

  /** One job for each affected subscription, in any order. */
  ghost predicate JobsMatch(subs: map<nat, Sub>, txn: Txn, jobs: seq<Job>) {
    && (forall i | 0 <= i < |jobs| ::
          jobs[i].id in subs && subs[jobs[i].id] == Sub(jobs[i].q, jobs[i].last) && Affected(txn, jobs[i].q))
    && (forall i, j | 0 <= i < j < |jobs| :: jobs[i].id != jobs[j].id)
    && (forall id | id in subs && Affected(txn, subs[id].q) :: id in JobIds(jobs))
  }

  function Changes(deltas: seq<Delta>, txid: nat): seq<Event> {
    seq(|deltas|, i requires 0 <= i < |deltas| => Change(deltas[i], txid))
  }

  /** What a delivery sends: every delta, then the end mark. */
  function Batch(deltas: seq<Delta>, txid: nat): seq<Event> {
    Changes(deltas, txid) + [UpToDate(txid)]
  }

  /** The message behind each event of a batch. */
  function BatchOrigins(deltas: seq<Delta>, message: nat): seq<Option<nat>> {
    seq(|deltas| + 1, _ => Some(message))
  }

  function Send(st: Stream, e: Event, origin: Option<nat>): Stream {
    st.(events := st.events + [e], origins := st.origins + [origin])
  }

  function SendReset(st: Stream): Stream {
    Send(st, Reset, None)
  }

  function SendBatch(st: Stream, deltas: seq<Delta>, txid: nat, message: nat, asOf: nat): Stream {
    st.(events := st.events + Batch(deltas, txid),
        trail := st.trail + [asOf],
        origins := st.origins + BatchOrigins(deltas, message))
  }

  function OpeningEvent(q: Query, rows: seq<JsonRow>, version: nat, public: bool): Event {
    if public then Link(q, version) else Snapshot(rows, version)
  }

  // ---------------------------------------------------------------------------------------------
  // Steps.
  // ---------------------------------------------------------------------------------------------

  function AllocateStep(s: Setup, h: Hub, q: Query, rows: seq<JsonRow>, version: nat, asOf: nat, public: bool): Hub {
    var id := h.nextId;
    h.(nextId := id + 1,
       open := h.open + {id},
       joining := h.joining[id := Sub(q, KeyRows(s, q, rows))],
       streams := h.streams[id := Stream(q, rows, [OpeningEvent(q, rows, version, public)], [asOf], [None])])
  }

  function EnlistStep(h: Hub, id: nat): Hub
    requires id in h.joining
  {
    h.(subs := h.subs[id := h.joining[id]], joining := h.joining - {id})
  }

  function UnlistStep(h: Hub, id: nat): Hub {
    h.(subs := h.subs - {id})
  }

  function CloseStep(h: Hub, id: nat): Hub {
    h.(open := h.open - {id})
  }

  function NextJob(h: Hub): Hub
    requires h.work.Working? && h.work.jobs != []
  {
    h.(work := h.work.(jobs := h.work.jobs[1..], fetched := None))
  }

  /** A failed re-query removes the subscription and resets its client. */
  function FetchFailsStep(h: Hub): Hub
    requires h.work.Working? && h.work.jobs != []
  {
    var id := h.work.jobs[0].id;
    if id in h.subs && id in h.streams
    then NextJob(h.(subs := h.subs - {id}, streams := h.streams[id := SendReset(h.streams[id])]))
    else NextJob(h)
  }

  /** A delivery reaches the stream only if the subscription is still listed and its receiver still exists. */
  function DeliverStep(h: Hub, deltas: seq<Delta>, txid: nat): Hub
    requires h.work.Working? && h.work.jobs != [] && h.work.fetched.Some?
  {
    var Fetched(next, asOf) := h.work.fetched.value;
    var id := h.work.jobs[0].id;
    if id !in h.subs || id !in h.streams then NextJob(h)
    else if id in h.open then
      NextJob(h.(subs := h.subs[id := h.subs[id].(last := next)],
                 streams := h.streams[id := SendBatch(h.streams[id], deltas, txid, h.work.message, asOf)]))
    else if deltas == [] then NextJob(h.(subs := h.subs[id := h.subs[id].(last := next)]))
    else NextJob(h)
  }

  /** The final clean-up keeps the subscriptions whose receiver exists. */
  function Retain(subs: map<nat, Sub>, open: set<nat>): map<nat, Sub> {
    map id | id in subs && id in open :: subs[id]
  }

  function FinishStep(h: Hub): Hub
    requires h.work.Working?
  {
    h.(subs := Retain(h.subs, h.open), work := Idle, processed := h.processed + 1)
  }

  /** Every listed subscription is reset and removed; the worker resumes at the oldest message still held. */
  function LagStep(h: Hub, sent: nat): Hub
    requires sent > CAPACITY
  {
    h.(subs := map[],
       streams := map id | id in h.streams :: if id in h.subs then SendReset(h.streams[id]) else h.streams[id],
       processed := sent - CAPACITY)
  }

  ghost predicate HubInit(h: Hub) {
    h == Hub(map[], map[], 0, {}, map[], Idle, 0)
  }

  ghost predicate HubNext(s: Setup, f: Feed, h: Hub, step: HubStep, h': Hub) {
    match step
    case Allocate(q, rows, version, asOf, public) =>
      && WellFormed(q) && asOf <= |f.history.log| && rows == ResultAt(s.sem, f.history, q, asOf)
      && h' == AllocateStep(s, h, q, rows, version, asOf, public)
    case Enlist(id) => id in h.joining && h' == EnlistStep(h, id)
    case Unlist(id) => id in h.open && id !in h.joining && h' == UnlistStep(h, id)
    case Close(id) => id in h.open && id !in h.joining && id !in h.subs && h' == CloseStep(h, id)
    case Collect(jobs) =>
      && h.work.Idle? && h.processed < |f.wire| <= h.processed + CAPACITY
      && JobsMatch(h.subs, f.wire[h.processed].txn, jobs)
      && h' == h.(work := Working(h.processed, jobs, None))
    case Fetch =>
      && h.work.Working? && h.work.jobs != [] && h.work.fetched.None? && WellFormed(h.work.jobs[0].q)
      && var n := |f.history.log|;
      h' == h.(work := h.work.(fetched := Some(Fetched(KeyedAt(s, f.history, h.work.jobs[0].q, n), n))))
    case FetchFails => h.work.Working? && h.work.jobs != [] && h.work.fetched.None? && h' == FetchFailsStep(h)
    case Deliver(deltas) =>
      && h.work.Working? && h.work.jobs != [] && h.work.fetched.Some? && h.work.message < |f.wire|
      && IsDiff(deltas, h.work.jobs[0].last, h.work.fetched.value.next)
      && h' == DeliverStep(h, deltas, f.wire[h.work.message].txn.xid)
    case Finish => h.work.Working? && h.work.jobs == [] && h' == FinishStep(h)
    case Lag => h.work.Idle? && |f.wire| > h.processed + CAPACITY && h' == LagStep(h, |f.wire|)
  }

  // ---------------------------------------------------------------------------------------------
  // Transcripts: a snapshot followed by complete difference batches.
  // ---------------------------------------------------------------------------------------------

  ghost predicate EndsWithBatch(events: seq<Event>, before: seq<Event>, deltas: seq<Delta>, txid: nat) {
    events == before + Batch(deltas, txid)
  }

  /** The event hands over the opening body, itself or by a link. */
  predicate Opens(opening: seq<JsonRow>, e: Event) {
    e.Link? || (e.Snapshot? && e.rows == opening)
  }

  /** The events open with the body keyed as `states[0]`, then have one difference batch from each state to the next. */
  ghost predicate Transcript(
    hash: RowHash, pk: Option<string>, opening: seq<JsonRow>, events: seq<Event>, states: seq<KeyedRows>)
    decreases |states|
  {
    var n := |states|;
    if n == 0 then false
    else if n == 1 then |events| == 1 && Opens(opening, events[0]) && Keyed(hash, pk, opening) == states[0]
    else
      exists before, deltas, txid: nat ::
        && EndsWithBatch(events, before, deltas, txid)
        && IsDiff(deltas, states[n - 2], states[n - 1])
        && Transcript(hash, pk, opening, before, states[..n - 1])
  }

  lemma TranscriptExtends(
    hash: RowHash, pk: Option<string>, opening: seq<JsonRow>, events: seq<Event>, states: seq<KeyedRows>,
                          deltas: seq<Delta>, txid: nat, next: KeyedRows)
    requires Transcript(hash, pk, opening, events, states) && states != []
    requires IsDiff(deltas, states[|states| - 1], next)
    ensures Transcript(hash, pk, opening, events + Batch(deltas, txid), states + [next])
  {
    hide IsDiff;
    assert EndsWithBatch(events + Batch(deltas, txid), events, deltas, txid);
    assert (states + [next])[..|states|] == states;
  }

  /**
   Where a reader of the stream stands: before the snapshot, between batches, inside one, ended, or off the
   grammar.
   */
  datatype Phase = Opening | Current | Partial | Ended | Broken

  function Accept(p: Phase, e: Event): Phase {
    match (p, e)
    case (Opening, Snapshot(_, _)) => Current
    case (Opening, Link(_, _)) => Current
    case (Current, Change(_, _)) => Partial
    case (Partial, Change(_, _)) => Partial
    case (Current, UpToDate(_)) => Current
    case (Partial, UpToDate(_)) => Current
    case (Current, Reset) => Ended
    case _ => Broken
  }

  /** Snapshot (Change* UpToDate)* Reset? as an automaton. */
  function PhaseOf(events: seq<Event>): Phase {
    if events == [] then Opening else Accept(PhaseOf(events[..|events| - 1]), events[|events| - 1])
  }

  lemma {:induction false} BrokenStays(events: seq<Event>, more: seq<Event>)
    requires PhaseOf(events) == Broken
    ensures PhaseOf(events + more) == Broken
  {
    if more == [] {
      assert events + more == events;
    } else {
      var n := |more| - 1;
      BrokenStays(events, more[..n]);
      assert (events + more)[..|events| + n] == events + more[..n];
    }
  }

  lemma {:induction false} ChangesPhase(events: seq<Event>, deltas: seq<Delta>, txid: nat)
    requires PhaseOf(events) == Current
    ensures PhaseOf(events + Changes(deltas, txid)) == if deltas == [] then Current else Partial
  {
    var all := events + Changes(deltas, txid);
    if deltas == [] {
      assert all == events;
    } else {
      var n := |deltas| - 1;
      ChangesPhase(events, deltas[..n], txid);
      assert all[..|all| - 1] == events + Changes(deltas[..n], txid);
    }
  }

  lemma BatchPhase(events: seq<Event>, deltas: seq<Delta>, txid: nat)
    requires PhaseOf(events) == Current
    ensures PhaseOf(events + Batch(deltas, txid)) == Current
  {
    ChangesPhase(events, deltas, txid);
    var all := events + Batch(deltas, txid);
    assert all[..|all| - 1] == events + Changes(deltas, txid);
  }

  lemma TranscriptFirst(
    hash: RowHash, pk: Option<string>, opening: seq<JsonRow>, events: seq<Event>, states: seq<KeyedRows>)
    requires Transcript(hash, pk, opening, events, states) && |states| == 1
    ensures |events| == 1 && Opens(opening, events[0]) && Keyed(hash, pk, opening) == states[0]
    ensures PhaseOf(events) == Current && Replay(hash, pk, opening, events) == states[0]
  {
    assert events[..0] == [];
  }

  lemma TranscriptLast(
    hash: RowHash, pk: Option<string>, opening: seq<JsonRow>, events: seq<Event>, states: seq<KeyedRows>)
    returns (before: seq<Event>, deltas: seq<Delta>, txid: nat)
    requires Transcript(hash, pk, opening, events, states) && |states| > 1
    ensures events == before + Batch(deltas, txid)
    ensures IsDiff(deltas, states[|states| - 2], states[|states| - 1])
    ensures Transcript(hash, pk, opening, before, states[..|states| - 1])
  {
    hide IsDiff;
    var n := |states|;
    before, deltas, txid :|
      EndsWithBatch(events, before, deltas, txid) && IsDiff(deltas, states[n - 2], states[n - 1]) &&
      Transcript(hash, pk, opening, before, states[..n - 1]);
  }

  /** A transcript obeys the grammar and stops between batches. */
  lemma {:induction false} TranscriptPhase(
    hash: RowHash, pk: Option<string>, opening: seq<JsonRow>, events: seq<Event>, states: seq<KeyedRows>)
    requires Transcript(hash, pk, opening, events, states) && states != []
    ensures PhaseOf(events) == Current
    decreases |states|
  {
    hide *;
    if |states| == 1 {
      TranscriptFirst(hash, pk, opening, events, states);
    } else {
      var before, deltas, txid := TranscriptLast(hash, pk, opening, events, states);
      TranscriptPhase(hash, pk, opening, before, states[..|states| - 1]);
      BatchPhase(before, deltas, txid);
    }
  }

  /** What a client that applies events one by one holds, when a link gives it `opening`. */
  function Replay(hash: RowHash, pk: Option<string>, opening: seq<JsonRow>, events: seq<Event>): KeyedRows {
    if events == [] then map[]
    else
      var before := Replay(hash, pk, opening, events[..|events| - 1]);
      match events[|events| - 1]
      case Snapshot(rows, _) => Keyed(hash, pk, rows)
      case Link(_, _) => Keyed(hash, pk, opening)
      case Change(delta, _) => ApplyDelta(before, delta)
      case UpToDate(_) => before
      case Reset => map[]
  }

  lemma {:induction false} ReplayChanges(
    hash: RowHash, pk: Option<string>, opening: seq<JsonRow>, events: seq<Event>, deltas: seq<Delta>, txid: nat)
    ensures Replay(hash, pk, opening, events + Changes(deltas, txid)) ==
        ApplyDeltas(Replay(hash, pk, opening, events), deltas)
  {
    var all := events + Changes(deltas, txid);
    if deltas == [] {
      assert all == events;
    } else {
      var n := |deltas| - 1;
      ReplayChanges(hash, pk, opening, events, deltas[..n], txid);
      assert all[..|all| - 1] == events + Changes(deltas[..n], txid);
      assert all[|all| - 1] == Change(deltas[n], txid);
    }
  }

  lemma BatchReplays(
    hash: RowHash, pk: Option<string>, opening: seq<JsonRow>, events: seq<Event>, deltas: seq<Delta>, txid: nat)
    ensures Replay(hash, pk, opening, events + Batch(deltas, txid)) ==
        ApplyDeltas(Replay(hash, pk, opening, events), deltas)
  {
    hide ApplyDeltas, Keyed;
    ReplayChanges(hash, pk, opening, events, deltas, txid);
    var all := events + Batch(deltas, txid);
    assert all[|all| - 1] == UpToDate(txid) && all[..|all| - 1] == events + Changes(deltas, txid);
  }

  /** Replaying a transcript gives its final state, whatever order each batch was sent in. */
  lemma {:induction false} TranscriptReplays(
    hash: RowHash, pk: Option<string>, opening: seq<JsonRow>, events: seq<Event>, states: seq<KeyedRows>)
    requires Transcript(hash, pk, opening, events, states) && states != []
    ensures Replay(hash, pk, opening, events) == states[|states| - 1]
    decreases |states|
  {
    hide *;
    if |states| == 1 {
      TranscriptFirst(hash, pk, opening, events, states);
    } else {
      var n := |states|;
      var before, deltas, txid := TranscriptLast(hash, pk, opening, events, states);
      TranscriptReplays(hash, pk, opening, before, states[..n - 1]);
      BatchReplays(hash, pk, opening, before, deltas, txid);
      DiffReplays(deltas, states[n - 2], states[n - 1]);
    }
  }

  /** Every prefix of a stream within the grammar is within the grammar. */
  lemma PrefixNotBroken(events: seq<Event>, n: nat)
    requires PhaseOf(events) != Broken && n <= |events|
    ensures PhaseOf(events[..n]) != Broken
  {
    assert events[..n] + events[n..] == events;
    if PhaseOf(events[..n]) == Broken {
      BrokenStays(events[..n], events[n..]);
    }
  }
}

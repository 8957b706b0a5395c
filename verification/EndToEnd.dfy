/**
 From the database to the browser: the server's streams, cut into arbitrary chunks, read by the event
 reader and applied by the driver. A private stream carries its opening rows; a public one carries a link,
 and the rows are whatever the browser downloads. The theorems say exactly when the download does no harm.
 */
module EndToEnd {
  import opened Text
  import opened Database
  import opened Queries
  import opened Invalidation
  import opened Diff
  import opened Feed
  import opened Snapshots
  import opened LiveHub
  import opened LiveInvariant
  import opened World
  import opened Mirror
  import opened Sse

  /** The frame the driver is given for a server event; `fetched` is what a link was downloaded as. */
  function FrameOf(fetched: seq<JsonRow>, e: Event): Frame {
    match e
    case Snapshot(rows, _) => SnapshotFrame(rows)
    case Link(_, _) => SnapshotFrame(fetched)
    case Change(delta, _) => DeltaFrame(delta)
    case UpToDate(_) => UpToDateFrame
    case Reset => ResetFrame
  }

  function FramesOf(fetched: seq<JsonRow>, events: seq<Event>): seq<Frame> {
    seq(|events|, i requires 0 <= i < |events| => FrameOf(fetched, events[i]))
  }

  /** An empty client that has processed these events, with whole rows in every update. */
  function ClientAfter(getKey: KeyOf, fetched: seq<JsonRow>, events: seq<Event>): Client {
    OnFrames(getKey, FullRows, EMPTY_CLIENT, FramesOf(fetched, events))
  }

  lemma {:induction false} OnFramesConcat(getKey: KeyOf, mode: UpdateMode, c: Client, a: seq<Frame>, b: seq<Frame>)
    ensures OnFrames(getKey, mode, c, a + b) == OnFrames(getKey, mode, OnFrames(getKey, mode, c, a), b)
  {
    hide OnFrame;
    if b == [] {
      assert a + b == a;
    } else {
      var n := |b| - 1;
      OnFramesConcat(getKey, mode, c, a, b[..n]);
      assert (a + b)[..|a| + n] == a + b[..n];
    }
  }

  lemma ClientAfterConcat(getKey: KeyOf, fetched: seq<JsonRow>, a: seq<Event>, b: seq<Event>)
    ensures ClientAfter(getKey, fetched, a + b) ==
            OnFrames(getKey, FullRows, ClientAfter(getKey, fetched, a), FramesOf(fetched, b))
  {
    assert FramesOf(fetched, a + b) == FramesOf(fetched, a) + FramesOf(fetched, b);
    OnFramesConcat(getKey, FullRows, EMPTY_CLIENT, FramesOf(fetched, a), FramesOf(fetched, b));
  }

  lemma ClientAfterBatch(getKey: KeyOf, fetched: seq<JsonRow>, events: seq<Event>, deltas: seq<Delta>, txid: nat)
    ensures ClientAfter(getKey, fetched, events + Batch(deltas, txid)) ==
            AfterBatch(getKey, ClientAfter(getKey, fetched, events), deltas)
  {
    hide OnFrames;
    ClientAfterConcat(getKey, fetched, events, Batch(deltas, txid));
    assert FramesOf(fetched, Batch(deltas, txid)) == DeltaFrames(deltas) + [UpToDateFrame];
  }

  /** Deltas are held back: before the end mark the collection does not move. */
  lemma {:induction false} ChangesKeepRows(
    getKey: KeyOf, fetched: seq<JsonRow>, c: Client, deltas: seq<Delta>, txid: nat, n: nat)
    requires n <= |deltas|
    ensures OnFrames(getKey, FullRows, c, FramesOf(fetched, Changes(deltas, txid)[..n])).rows == c.rows
  {
    if n > 0 {
      var frames := FramesOf(fetched, Changes(deltas, txid)[..n]);
      assert frames[..n - 1] == FramesOf(fetched, Changes(deltas, txid)[..n - 1]);
      assert frames[n - 1] == DeltaFrame(deltas[n - 1]);
      ChangesKeepRows(getKey, fetched, c, deltas, txid, n - 1);
    }
  }

  // ---------------------------------------------------------------------------------------------
  // Transcripts.
  // ---------------------------------------------------------------------------------------------

  /** The client key tells the rows of each state apart, and no step between states strands one. */
  ghost predicate Trackable(getKey: KeyOf, states: seq<KeyedRows>) {
    && (forall i | 0 <= i < |states| :: Distinct(getKey, states[i]))
    && (forall i, j | 0 <= i < |states| && 0 <= j < |states| :: NoStrandedKey(getKey, states[i], states[j]))
  }

  lemma TrackableFirst(getKey: KeyOf, states: seq<KeyedRows>)
    requires states != [] && Trackable(getKey, states)
    ensures Distinct(getKey, states[0]) && Distinct(getKey, states[|states| - 1])
  {
    hide Distinct, NoStrandedKey;
  }

  lemma TrackablePrefix(getKey: KeyOf, states: seq<KeyedRows>)
    requires |states| > 1 && Trackable(getKey, states)
    ensures Trackable(getKey, states[..|states| - 1])
    ensures var n := |states|;
      Distinct(getKey, states[n - 2]) && Distinct(getKey, states[n - 1]) &&
          NoStrandedKey(getKey, states[n - 2], states[n - 1])
  {
    hide Distinct, NoStrandedKey;
  }

  lemma {:induction false} TranscriptOpens(
    hash: RowHash, pk: Option<string>, opening: seq<JsonRow>, events: seq<Event>, states: seq<KeyedRows>)
    requires Transcript(hash, pk, opening, events, states) && states != []
    ensures events != [] && Opens(opening, events[0]) && states[0] == Keyed(hash, pk, opening)
    decreases |states|
  {
    hide *;
    if |states| == 1 {
      TranscriptFirst(hash, pk, opening, events, states);
    } else {
      var before, deltas, txid := TranscriptLast(hash, pk, opening, events, states);
      TranscriptOpens(hash, pk, opening, before, states[..|states| - 1]);
    }
  }

  /** The rows the collection is loaded with: those of the event, or those downloaded for its link. */
  function Given(fetched: seq<JsonRow>, events: seq<Event>): seq<JsonRow> {
    if events != [] && events[0].Snapshot? then events[0].rows else fetched
  }

  function Loaded(getKey: KeyOf, rows: seq<JsonRow>): map<string, JsonRow> {
    InsertRows(getKey, map[], rows)
  }

  /** Some delta of the stream concerns the client key. */
  ghost predicate Mentioned(getKey: KeyOf, events: seq<Event>, x: string) {
    exists i | 0 <= i < |events| :: events[i].Change? && getKey(events[i].delta.row) == x
  }

  lemma MentionedInBatch(getKey: KeyOf, before: seq<Event>, deltas: seq<Delta>, txid: nat, x: string)
    ensures Mentioned(getKey, before + Batch(deltas, txid), x) <==>
        Mentioned(getKey, before, x) || Mentions(getKey, deltas, x)
  {
    var all := before + Batch(deltas, txid);
    if Mentioned(getKey, before, x) {
      var i :| 0 <= i < |before| && before[i].Change? && getKey(before[i].delta.row) == x;
      assert all[i] == before[i];
    }
    if Mentions(getKey, deltas, x) {
      var i :| 0 <= i < |deltas| && getKey(deltas[i].row) == x;
      assert all[|before| + i] == Change(deltas[i], txid);
    }
  }

  lemma SnapshotClient(getKey: KeyOf, fetched: seq<JsonRow>, events: seq<Event>)
    requires |events| == 1 && (events[0].Link? || events[0].Snapshot?)
    ensures var c := ClientAfter(getKey, fetched, events);
            AtRest(c) && c.rows == Loaded(getKey, Given(fetched, events))
    ensures forall x :: !Mentioned(getKey, events, x)
  {
    var rows, frames := Given(fetched, events), FramesOf(fetched, events);
    assert frames == [SnapshotFrame(rows)] && frames[..0] == [];
    assert OnFrames(getKey, FullRows, EMPTY_CLIENT, frames[..0]) == EMPTY_CLIENT;
    assert ClientAfter(getKey, fetched, events) == OnFrame(getKey, FullRows, EMPTY_CLIENT, frames[0]);
    InsertedKeys(getKey, rows);
  }

  /**
   What a client that has read a whole transcript holds, whatever its link was downloaded as: where some delta
   mentions a client key, the final state, and elsewhere what it was loaded with.
   */
  lemma {:induction false} TranscriptFrom(hash: RowHash, pk: Option<string>, getKey: KeyOf, opening: seq<JsonRow>,
                                          fetched: seq<JsonRow>, events: seq<Event>, states: seq<KeyedRows>, x: string)
    requires Transcript(hash, pk, opening, events, states) && states != [] && Trackable(getKey, states)
    ensures AtRest(ClientAfter(getKey, fetched, events))
    ensures At(ClientAfter(getKey, fetched, events).rows, x) ==
            if Mentioned(getKey, events, x) then RowAt(getKey, states[|states| - 1], x)
            else At(Loaded(getKey, Given(fetched, events)), x)
    ensures !Mentioned(getKey, events, x) ==> RowAt(getKey, states[|states| - 1], x) == RowAt(getKey, states[0], x)
    decreases |states|
  {
    hide *;
    TranscriptOpens(hash, pk, opening, events, states);
    OpensKind(opening, events[0]);
    if |states| == 1 {
      TranscriptFirst(hash, pk, opening, events, states);
      SnapshotClient(getKey, fetched, events);
    } else {
      var n := |states|;
      var before, deltas, txid := TranscriptLast(hash, pk, opening, events, states);
      TrackablePrefix(getKey, states);
      TranscriptFrom(hash, pk, getKey, opening, fetched, before, states[..n - 1], x);
      TranscriptOpens(hash, pk, opening, before, states[..n - 1]);
      GivenKept(fetched, before, Batch(deltas, txid));
      MentionedInBatch(getKey, before, deltas, txid, x);
      BatchFrom(getKey, ClientAfter(getKey, fetched, before), deltas, states[n - 2], states[n - 1], x);
      ClientAfterBatch(getKey, fetched, before, deltas, txid);
      if !Mentions(getKey, deltas, x) {
        UnmentionedStays(getKey, deltas, states[n - 2], states[n - 1], x);
      }
    }
  }

  lemma OpensKind(opening: seq<JsonRow>, e: Event)
    requires Opens(opening, e)
    ensures e.Link? || (e.Snapshot? && e.rows == opening)
  {
  }

  lemma GivenKept(fetched: seq<JsonRow>, before: seq<Event>, more: seq<Event>)
    requires before != []
    ensures Given(fetched, before + more) == Given(fetched, before)
  {
  }

  /** The rows loaded agree with the stream's first state at every client key that no delta mentions. */
  ghost predicate LoadAgrees(getKey: KeyOf, fetched: seq<JsonRow>, first: KeyedRows, events: seq<Event>) {
    forall x | !Mentioned(getKey, events, x) :: At(Loaded(getKey, Given(fetched, events)), x) == RowAt(getKey, first, x)
  }

  /**
   The exact condition: a client that has read a whole transcript mirrors its final state if and only if its load
   agrees.
   */
  lemma TranscriptMirrorsIff(hash: RowHash, pk: Option<string>, getKey: KeyOf, opening: seq<JsonRow>,
                             fetched: seq<JsonRow>, events: seq<Event>, states: seq<KeyedRows>)
    requires Transcript(hash, pk, opening, events, states) && states != [] && Trackable(getKey, states)
    ensures AtRest(ClientAfter(getKey, fetched, events))
    ensures Mirrors(getKey, states[|states| - 1], ClientAfter(getKey, fetched, events).rows) <==>
            LoadAgrees(getKey, fetched, states[0], events)
  {
    hide Transcript, Trackable, AtRest, ClientAfter, Mirrors, Mentioned, Given, Loaded, RowAt, At;
    var rows, last := ClientAfter(getKey, fetched, events).rows, states[|states| - 1];
    TrackableFirst(getKey, states);
    MirrorsAt(getKey, last, rows);
    TranscriptFrom(hash, pk, getKey, opening, fetched, events, states, "");
    forall x
      ensures At(rows, x) == if Mentioned(getKey, events, x) then RowAt(getKey, last, x)
                             else At(Loaded(getKey, Given(fetched, events)), x)
      ensures !Mentioned(getKey, events, x) ==> RowAt(getKey, last, x) == RowAt(getKey, states[0], x)
    {
      TranscriptFrom(hash, pk, getKey, opening, fetched, events, states, x);
    }
  }

  /** Loading the opening body itself agrees. */
  lemma OpeningAgrees(hash: RowHash, pk: Option<string>, getKey: KeyOf, opening: seq<JsonRow>,
                      fetched: seq<JsonRow>, events: seq<Event>, states: seq<KeyedRows>)
    requires Transcript(hash, pk, opening, events, states) && states != [] && Trackable(getKey, states)
    requires KeysAgree(hash, pk, getKey, opening) && Given(fetched, events) == opening
    ensures LoadAgrees(getKey, fetched, states[0], events)
  {
    hide Transcript, Trackable, Mentioned, Given, RowAt, At, KeysAgree, Keyed;
    TranscriptOpens(hash, pk, opening, events, states);
    TrackableFirst(getKey, states);
    MirrorSnapshot(hash, pk, getKey, opening);
    MirrorsAt(getKey, states[0], Loaded(getKey, opening));
  }

  /** So a client given the opening body mirrors the final state. */
  lemma TranscriptMirrors(hash: RowHash, pk: Option<string>, getKey: KeyOf, opening: seq<JsonRow>,
                          fetched: seq<JsonRow>, events: seq<Event>, states: seq<KeyedRows>)
    requires Transcript(hash, pk, opening, events, states) && states != [] && Trackable(getKey, states)
    requires KeysAgree(hash, pk, getKey, opening) && Given(fetched, events) == opening
    ensures AtRest(ClientAfter(getKey, fetched, events))
    ensures Mirrors(getKey, states[|states| - 1], ClientAfter(getKey, fetched, events).rows)
  {
    hide *;
    TranscriptMirrorsIff(hash, pk, getKey, opening, fetched, events, states);
    OpeningAgrees(hash, pk, getKey, opening, fetched, events, states);
  }

  /** Inside a batch the collection is still what it was before the batch. */
  lemma InsideBatch(getKey: KeyOf, fetched: seq<JsonRow>, before: seq<Event>, deltas: seq<Delta>, txid: nat, n: nat)
    requires |before| <= n < |before| + |Batch(deltas, txid)|
    ensures ClientAfter(getKey, fetched, (before + Batch(deltas, txid))[..n]).rows ==
        ClientAfter(getKey, fetched, before).rows
  {
    hide OnFrames;
    var m := n - |before|;
    assert (before + Batch(deltas, txid))[..n] == before + Changes(deltas, txid)[..m];
    ClientAfterConcat(getKey, fetched, before, Changes(deltas, txid)[..m]);
    ChangesKeepRows(getKey, fetched, ClientAfter(getKey, fetched, before), deltas, txid, m);
  }

  /** After any part of a transcript the collection of a client given the opening body mirrors one of its states. */
  lemma {:induction false} TranscriptConsistent(
    hash: RowHash, pk: Option<string>, getKey: KeyOf, opening: seq<JsonRow>, fetched: seq<JsonRow>,
    events: seq<Event>, states: seq<KeyedRows>, n: nat)
    returns (j: nat)
    requires Transcript(hash, pk, opening, events, states) && states != [] && Trackable(getKey, states)
    requires KeysAgree(hash, pk, getKey, opening) && Given(fetched, events) == opening
    requires 0 < n <= |events|
    ensures j < |states| && Mirrors(getKey, states[j], ClientAfter(getKey, fetched, events[..n]).rows)
    decreases |states|
  {
    hide *;
    j := |states| - 1;
    if n == |events| {
      assert events[..n] == events;
      TranscriptMirrors(hash, pk, getKey, opening, fetched, events, states);
    } else if |states| > 1 {
      var before, deltas, txid := TranscriptLast(hash, pk, opening, events, states);
      var shorter := states[..|states| - 1];
      TrackablePrefix(getKey, states);
      TranscriptOpens(hash, pk, opening, before, shorter);
      GivenKept(fetched, before, Batch(deltas, txid));
      if n <= |before| {
        assert events[..n] == before[..n];
        j := TranscriptConsistent(hash, pk, getKey, opening, fetched, before, shorter, n);
      } else {
        TranscriptMirrors(hash, pk, getKey, opening, fetched, before, shorter);
        InsideBatch(getKey, fetched, before, deltas, txid, n);
        j := |states| - 2;
      }
    } else {
      TranscriptFirst(hash, pk, opening, events, states);
    }
  }

  // ---------------------------------------------------------------------------------------------
  // Streams.
  // ---------------------------------------------------------------------------------------------

  /** Rows of one query on any two database prefixes that share a server key share a client key. */
  ghost predicate KeysStable(s: Setup, h: History, q: Query, getKey: KeyOf)
    requires WellFormed(q)
  {
    forall j, k, a, b | 0 <= j <= |h.log| && 0 <= k <= |h.log| && a in ResultAt(s.sem, h, q, j) &&
        b in ResultAt(s.sem, h, q, k) ::
      RowKey(s.sem.hash, KeyColumn(s.columns, q), a) == RowKey(s.sem.hash, KeyColumn(s.columns, q), b) ==>
          getKey(a) == getKey(b)
  }

  /**
   What the application's `getKey` must satisfy: it identifies rows as the server does, within each result and
   over time.
   */
  ghost predicate KeysFit(s: Setup, h: History, q: Query, getKey: KeyOf)
    requires WellFormed(q)
  {
    && (forall k | 0 <= k <= |h.log| ::
        KeysAgree(s.sem.hash, KeyColumn(s.columns, q), getKey, ResultAt(s.sem, h, q, k)))
    && KeysStable(s, h, q, getKey)
  }

  /** A client that keys rows as the server does fits every query. */
  lemma ServerKeysFit(s: Setup, h: History, q: Query, getKey: KeyOf)
    requires WellFormed(q) && forall row :: getKey(row) == RowKey(s.sem.hash, KeyColumn(s.columns, q), row)
    ensures KeysFit(s, h, q, getKey)
  {
    hide ResultAt, RowKey, KeyColumn;
  }

  lemma StableNotStranded(s: Setup, h: History, q: Query, getKey: KeyOf, j: nat, k: nat)
    requires WellFormed(q) && KeysStable(s, h, q, getKey) && j <= |h.log| && k <= |h.log|
    ensures NoStrandedKey(getKey, KeyedAt(s, h, q, j), KeyedAt(s, h, q, k))
  {
    hide ResultAt, RowKey, KeyColumn, Keyed;
    var prev, next := KeyedAt(s, h, q, j), KeyedAt(s, h, q, k);
    var hash, pk := s.sem.hash, KeyColumn(s.columns, q);
    forall key | key in prev && key in next
      ensures getKey(prev[key]) == getKey(next[key])
    {
      var a := KeyedOrigin(hash, pk, ResultAt(s.sem, h, q, j), key);
      var b := KeyedOrigin(hash, pk, ResultAt(s.sem, h, q, k), key);
    }
    StableKeysNotStranded(getKey, prev, next);
  }

  lemma StatesTrackable(s: Setup, h: History, q: Query, trail: seq<nat>, getKey: KeyOf)
    requires WellFormed(q) && Within(trail, |h.log|) && KeysFit(s, h, q, getKey)
    ensures Trackable(getKey, States(s, h, q, trail))
  {
    hide ResultAt, KeysStable, KeyColumn, NoStrandedKey, Distinct, Keyed, KeysAgree;
    var states := States(s, h, q, trail);
    forall i | 0 <= i < |states|
      ensures Distinct(getKey, states[i])
    {
      AgreeingKeysDistinct(s.sem.hash, KeyColumn(s.columns, q), getKey, ResultAt(s.sem, h, q, trail[i]));
    }
    forall i, j | 0 <= i < |states| && 0 <= j < |states|
      ensures NoStrandedKey(getKey, states[i], states[j])
    {
      StableNotStranded(s, h, q, getKey, trail[i], trail[j]);
    }
  }

  /** The stream's opening rows, as `fetched` for a link, are exactly its opening body. */
  ghost predicate GivesOpening(st: Stream, fetched: seq<JsonRow>) {
    Given(fetched, st.events) == st.opening
  }

  /**
   A client of a recorded stream that has read all of it mirrors the last state of its trail if and only if its
   load agrees.
   */
  lemma StreamMirrorsIff(s: Setup, h: History, st: Stream, getKey: KeyOf, fetched: seq<JsonRow>)
    requires Recorded(s, h, st) && KeysFit(s, h, st.q, getKey)
    ensures var c := ClientAfter(getKey, fetched, st.events);
            && AtRest(c)
            && (Mirrors(getKey, KeyedAt(s, h, st.q, st.trail[|st.trail| - 1]), c.rows) <==>
                LoadAgrees(getKey, fetched, KeyedAt(s, h, st.q, st.trail[0]), st.events))
  {
    hide Transcript, ClientAfter, AtRest, Mirrors, ResultAt, KeysAgree, KeysStable, Trackable, KeyColumn, LoadAgrees;
    StatesTrackable(s, h, st.q, st.trail, getKey);
    TranscriptMirrorsIff(
      s.sem.hash, KeyColumn(s.columns, st.q), getKey, st.opening, fetched, st.events, States(s, h, st.q, st.trail));
  }

  /** One that was given the opening body does. */
  lemma StreamMirrors(s: Setup, h: History, st: Stream, getKey: KeyOf, fetched: seq<JsonRow>)
    requires Recorded(s, h, st) && KeysFit(s, h, st.q, getKey) && GivesOpening(st, fetched)
    ensures var c := ClientAfter(getKey, fetched, st.events);
            AtRest(c) && Mirrors(getKey, KeyedAt(s, h, st.q, st.trail[|st.trail| - 1]), c.rows)
  {
    hide Transcript, ClientAfter, AtRest, Mirrors, ResultAt, KeysAgree, KeysStable, Trackable, KeyColumn, Given;
    StatesTrackable(s, h, st.q, st.trail, getKey);
    TranscriptMirrors(
      s.sem.hash, KeyColumn(s.columns, st.q), getKey, st.opening, fetched, st.events, States(s, h, st.q, st.trail));
  }

  /** Part way through, it mirrors some state of the trail. */
  lemma StreamConsistent(
    s: Setup, h: History, st: Stream, getKey: KeyOf, fetched: seq<JsonRow>, n: nat)
    returns (j: nat)
    requires Recorded(s, h, st) && KeysFit(s, h, st.q, getKey) && GivesOpening(st, fetched) && 0 < n <= |st.events|
    ensures j < |st.trail|
    ensures Mirrors(getKey, KeyedAt(s, h, st.q, st.trail[j]), ClientAfter(getKey, fetched, st.events[..n]).rows)
  {
    hide Transcript, ClientAfter, Mirrors, ResultAt, KeysAgree, KeysStable, Trackable, KeyColumn, Given;
    StatesTrackable(s, h, st.q, st.trail, getKey);
    j := TranscriptConsistent(
      s.sem.hash, KeyColumn(s.columns, st.q), getKey, st.opening, fetched, st.events, States(s, h, st.q, st.trail), n);
  }

  // ---------------------------------------------------------------------------------------------
  // The wire.
  // ---------------------------------------------------------------------------------------------

  /** The JSON encoding of events, as text on one line, and its parser. */
  datatype Codec = Codec(enc: Event -> string, dec: string -> Event)

  ghost predicate Faithful(codec: Codec) {
    forall e :: codec.dec(codec.enc(e)) == e && CleanPayload(codec.enc(e))
  }

  function EncodeAll(codec: Codec, events: seq<Event>): seq<string> {
    seq(|events|, i requires 0 <= i < |events| => codec.enc(events[i]))
  }

  function DecodeAll(codec: Codec, payloads: seq<string>): seq<Event> {
    seq(|payloads|, i requires 0 <= i < |payloads| => codec.dec(payloads[i]))
  }

  /** The text the server writes for a stream. */
  function WireText(codec: Codec, events: seq<Event>): string {
    Wire(EncodeAll(codec, events))
  }

  /** A link whose download failed ends the connection before any frame reaches the collection. */
  function Admitted(download: Option<seq<JsonRow>>, events: seq<Event>): seq<Event> {
    if download.None? && events != [] && events[0].Link? then [] else events
  }

  function Fetched(download: Option<seq<JsonRow>>): seq<JsonRow> {
    if download.Some? then download.value else []
  }

  /** A browser that connected with an empty collection, has received these chunks, and got this for a link. */
  function Browser(codec: Codec, getKey: KeyOf, download: Option<seq<JsonRow>>, chunks: seq<string>): Client {
    ClientAfter(getKey, Fetched(download), Admitted(download, DecodeAll(codec, Payloads(Concat(chunks)))))
  }

  /** Whatever part of the text has arrived, in whatever chunks, the events read are the first ones sent. */
  lemma WirePrefix(codec: Codec, events: seq<Event>, text: string, rest: string) returns (n: nat)
    requires Faithful(codec) && text + rest == WireText(codec, events)
    ensures n <= |events| && DecodeAll(codec, Payloads(text)) == events[..n]
    ensures rest == "" ==> n == |events|
  {
    hide Payloads, Remainder, Wire, CleanPayload;
    var payloads := EncodeAll(codec, events);
    WireRoundTrip(payloads);
    ReadAhead(text, rest);
    n := |Payloads(text)|;
    assert Payloads(text) == payloads[..n];
    if rest == "" {
      assert text + rest == text;
    }
  }

  // ---------------------------------------------------------------------------------------------
  // Whole runs.
  // ---------------------------------------------------------------------------------------------

  lemma StreamSettledAt(s: Setup, f: Feed, hub: Hub, id: nat)
    requires HubInv(s, f, hub) && id in hub.streams
    ensures Settled(s, f.history, hub.streams[id])
  {
    hide ListedInv, WorkInv, QuietInv, Settled, OriginsSent;
  }

  lemma SettledQuery(s: Setup, h: History, st: Stream)
    requires Settled(s, h, st)
    ensures WellFormed(st.q) && Within(st.trail, |h.log|)
  {
    hide Transcript, OpensWith;
  }

  /** After part of a settled stream: nothing shown, or the result on one database prefix. */
  lemma SettledConsistent(
    s: Setup, h: History, st: Stream, getKey: KeyOf, fetched: seq<JsonRow>, n: nat)
    returns (j: nat)
    requires Settled(s, h, st) && WellFormed(st.q) && Within(st.trail, |h.log|) && KeysFit(s, h, st.q, getKey)
    requires GivesOpening(st, fetched) && n <= |st.events|
    ensures var c := ClientAfter(getKey, fetched, st.events[..n]);
            c == EMPTY_CLIENT || (j < |st.trail| && Mirrors(getKey, KeyedAt(s, h, st.q, st.trail[j]), c.rows))
  {
    hide Recorded, Mirrors, KeysFit;
    j := 0;
    if n == 0 {
      assert FramesOf(fetched, st.events[..0]) == [];
    } else if Recorded(s, h, st) {
      j := StreamConsistent(s, h, st, getKey, fetched, n);
    } else {
      var m := |st.events| - 1;
      if n <= m {
        assert st.events[..m][..n] == st.events[..n];
        assert Given(fetched, st.events[..m]) == Given(fetched, st.events);
        j := StreamConsistent(s, h, WithoutLast(st), getKey, fetched, n);
      } else {
        ClientAfterReset(getKey, fetched, st.events[..m]);
        assert st.events[..n] == st.events[..m] + [Reset];
      }
    }
  }

  /** A reset empties the client, so the next connection starts afresh. */
  lemma ClientAfterReset(getKey: KeyOf, fetched: seq<JsonRow>, events: seq<Event>)
    ensures ClientAfter(getKey, fetched, events + [Reset]) == EMPTY_CLIENT
  {
    var frames := FramesOf(fetched, events + [Reset]);
    assert frames[|events|] == ResetFrame;
  }

  lemma NothingAdmitted(getKey: KeyOf, fetched: seq<JsonRow>)
    ensures ClientAfter(getKey, fetched, []) == EMPTY_CLIENT
  {
    assert FramesOf(fetched, []) == [];
  }

  /** What the browser was handed is the opening body, unless the download failed. */
  ghost predicate Handed(st: Stream, download: Option<seq<JsonRow>>) {
    st.events != [] && (st.events[0].Link? ==> download.None? || download.value == st.opening)
  }

  /**
   Consistency at every moment: whatever part of a stream has reached a browser that was handed its opening
   body, in whatever chunks, its collection is empty or is exactly the query's result on one database prefix of
   the stream's trail, never a half-applied batch.
   */
  lemma BrowserConsistent(s: Setup, run: Run, i: nat, id: nat, getKey: KeyOf, codec: Codec,
                          download: Option<seq<JsonRow>>, chunks: seq<string>, rest: string)
    returns (j: nat)
    requires IsRun(s, run) && i < |run.states| && id in run.states[i].hub.streams && Faithful(codec)
    requires Handed(run.states[i].hub.streams[id], download)
    requires Concat(chunks) + rest == WireText(codec, run.states[i].hub.streams[id].events)
    requires WellFormed(run.states[i].hub.streams[id].q)
    requires KeysFit(s, run.states[i].feed.history, run.states[i].hub.streams[id].q, getKey)
    ensures var st, h := run.states[i].hub.streams[id], run.states[i].feed.history;
            var c := Browser(codec, getKey, download, chunks);
            c == EMPTY_CLIENT ||
            (j < |st.trail| && st.trail[j] <= |h.log| && Mirrors(getKey, KeyedAt(s, h, st.q, st.trail[j]), c.rows))
  {
    hide IsRun, Settled, Within, KeysFit, ClientAfter, Mirrors, HubInv, ReaderInv, ValidHistory;
    hide WireText, Concat, Payloads, DecodeAll, KeyedAt, Faithful, WellFormed;
    RunBounds(s, run, i);
    var st, h := run.states[i].hub.streams[id], run.states[i].feed.history;
    StreamSettledAt(s, run.states[i].feed, run.states[i].hub, id);
    SettledQuery(s, h, st);
    var n := WirePrefix(codec, st.events, Concat(chunks), rest);
    NothingAdmitted(getKey, Fetched(download));
    j := 0;
    if download.Some? || !st.events[0].Link? {
      assert GivesOpening(st, Fetched(download)) by { OpeningGiven(s, run, i, id, download); }
      j := SettledConsistent(s, h, st, getKey, Fetched(download), n);
    }
    WithinAt(st.trail, |h.log|);
  }

  /** An inline snapshot is the opening body; a link is whatever was downloaded. */
  lemma OpeningGiven(s: Setup, run: Run, i: nat, id: nat, download: Option<seq<JsonRow>>)
    requires IsRun(s, run) && i < |run.states| && id in run.states[i].hub.streams
    requires Handed(run.states[i].hub.streams[id], download)
    requires download.Some? || !run.states[i].hub.streams[id].events[0].Link?
    ensures GivesOpening(run.states[i].hub.streams[id], Fetched(download))
  {
    hide IsRun, HubInv, ReaderInv, ValidHistory, Settled;
    RunBounds(s, run, i);
    var st := run.states[i].hub.streams[id];
    StreamSettledAt(s, run.states[i].feed, run.states[i].hub, id);
    SettledOpens(s, run.states[i].feed.history, st);
  }

  lemma SettledOpens(s: Setup, h: History, st: Stream)
    requires Settled(s, h, st)
    ensures st.events != [] && (st.events[0].Link? || (st.events[0].Snapshot? && st.events[0].rows == st.opening))
  {
    hide Transcript, OpensWith, KeyedAt, KeyColumn;
    var base := if Recorded(s, h, st) then st else WithoutLast(st);
    TranscriptOpens(s.sem.hash, KeyColumn(s.columns, base.q), base.opening, base.events,
        States(s, h, base.q, base.trail));
  }

  lemma WithinAt(trail: seq<nat>, n: nat)
    requires Within(trail, n)
    ensures forall j | 0 <= j < |trail| :: trail[j] <= n
  {
  }

  /** The browser that has received a whole stream, link downloaded. */
  lemma WholeStream(
    codec: Codec, getKey: KeyOf, download: Option<seq<JsonRow>>, chunks: seq<string>, events: seq<Event>)
    requires Faithful(codec) && Concat(chunks) == WireText(codec, events)
    requires download.Some? || (events != [] && !events[0].Link?)
    ensures Browser(codec, getKey, download, chunks) == ClientAfter(getKey, Fetched(download), events)
  {
    hide Concat, WireText, Payloads, DecodeAll, ClientAfter, Faithful;
    assert Concat(chunks) + "" == Concat(chunks);
    var n := WirePrefix(codec, events, Concat(chunks), "");
    assert events[..n] == events;
  }

  /**
   Once all of a listed subscription's stream has arrived, the browser is at rest, and it shows the server's `last`
   if and only if what it loaded agrees with the stream's first state at every client key that no delta mentions.
   */
  lemma BrowserMirrorsIff(s: Setup, run: Run, i: nat, id: nat, getKey: KeyOf, codec: Codec,
                          download: Option<seq<JsonRow>>, chunks: seq<string>)
    requires IsRun(s, run) && i < |run.states| && Faithful(codec)
    requires id in run.states[i].hub.subs && id in run.states[i].hub.streams
    requires Concat(chunks) == WireText(codec, run.states[i].hub.streams[id].events)
    requires var st := run.states[i].hub.streams[id]; download.Some? || (st.events != [] && !st.events[0].Link?)
    requires WellFormed(run.states[i].hub.streams[id].q)
    requires KeysFit(s, run.states[i].feed.history, run.states[i].hub.streams[id].q, getKey)
    ensures var st, h := run.states[i].hub.streams[id], run.states[i].feed.history;
            var c := Browser(codec, getKey, download, chunks);
            && st.trail != [] && st.trail[0] <= |h.log| && AtRest(c)
            && (Mirrors(getKey, run.states[i].hub.subs[id].last, c.rows) <==>
                LoadAgrees(getKey, Fetched(download), KeyedAt(s, h, st.q, st.trail[0]), st.events))
  {
    hide IsRun, KeysFit, ClientAfter, Browser, Mirrors, AtRest, HubInv, ReaderInv, ValidHistory;
    hide WireText, Concat, KeyedAt, Faithful, WellFormed, LoadAgrees, Transcript, OpensWith;
    RunBounds(s, run, i);
    var st, h := run.states[i].hub.streams[id], run.states[i].feed.history;
    ListedHolds(s, run.states[i].feed, run.states[i].hub, id);
    WholeStream(codec, getKey, download, chunks, st.events);
    StreamMirrorsIff(s, h, st, getKey, Fetched(download));
  }

  /** A browser that was handed the opening body shows exactly the server's `last`. */
  lemma BrowserMirrorsLast(s: Setup, run: Run, i: nat, id: nat, getKey: KeyOf, codec: Codec,
                           download: Option<seq<JsonRow>>, chunks: seq<string>)
    requires IsRun(s, run) && i < |run.states| && Faithful(codec)
    requires id in run.states[i].hub.subs && id in run.states[i].hub.streams
    requires var st := run.states[i].hub.streams[id]; Handed(st, download) && (download.Some? || !st.events[0].Link?)
    requires Concat(chunks) == WireText(codec, run.states[i].hub.streams[id].events)
    requires WellFormed(run.states[i].hub.streams[id].q)
    requires KeysFit(s, run.states[i].feed.history, run.states[i].hub.streams[id].q, getKey)
    ensures var c := Browser(codec, getKey, download, chunks);
            AtRest(c) && Mirrors(getKey, run.states[i].hub.subs[id].last, c.rows)
  {
    hide IsRun, Recorded, KeysFit, ClientAfter, Browser, Mirrors, AtRest, HubInv, ReaderInv, ValidHistory;
    hide WireText, Concat, KeyedAt, Faithful, WellFormed, GivesOpening;
    RunBounds(s, run, i);
    var st, h := run.states[i].hub.streams[id], run.states[i].feed.history;
    ListedHolds(s, run.states[i].feed, run.states[i].hub, id);
    WholeStream(codec, getKey, download, chunks, st.events);
    OpeningGiven(s, run, i, id, download);
    StreamMirrors(s, h, st, getKey, Fetched(download));
  }

  /**
   Convergence in the browser: when the server has drained and the stream of a refreshed subscription to a
   noticed query has arrived, a browser that was handed the opening body shows exactly the current result.
   */
  lemma BrowserConverges(s: Setup, run: Run, i: nat, id: nat, getKey: KeyOf, codec: Codec,
                         download: Option<seq<JsonRow>>, chunks: seq<string>)
    requires IsRun(s, run) && i < |run.states| && Faithful(codec) && Drained(run.states[i])
    requires id in run.states[i].hub.subs && Noticed(s.index, s.sem.logic, run.states[i].hub.subs[id].q)
    requires id in run.states[i].hub.streams && |run.states[i].hub.streams[id].trail| >= 2
    requires var st := run.states[i].hub.streams[id]; Handed(st, download) && (download.Some? || !st.events[0].Link?)
    requires Concat(chunks) == WireText(codec, run.states[i].hub.streams[id].events)
    requires WellFormed(run.states[i].hub.streams[id].q)
    requires KeysFit(s, run.states[i].feed.history, run.states[i].hub.streams[id].q, getKey)
    ensures var c, h := Browser(codec, getKey, download, chunks), run.states[i].feed.history;
            AtRest(c) && Mirrors(getKey, KeyedAt(s, h, run.states[i].hub.streams[id].q, |h.log|), c.rows)
  {
    hide IsRun, Recorded, KeysFit, Mirrors, AtRest, HubInv, ReaderInv, ValidHistory;
    hide WireText, Concat, KeyedAt, Faithful, WellFormed, Browser, Drained, Handed, Noticed;
    RunBounds(s, run, i);
    ListedHolds(s, run.states[i].feed, run.states[i].hub, id);
    BrowserMirrorsLast(s, run, i, id, getKey, codec, download, chunks);
    DrainedConverges(s, run, i, id);
  }

  lemma ListedQuery(s: Setup, run: Run, i: nat, id: nat)
    requires IsRun(s, run) && i < |run.states| && id in run.states[i].hub.subs
    ensures id in run.states[i].hub.streams && run.states[i].hub.subs[id].q == run.states[i].hub.streams[id].q
  {
    hide IsRun, HubInv, ReaderInv, ValidHistory, Recorded, KeyedAt;
    RunBounds(s, run, i);
    ListedHolds(s, run.states[i].feed, run.states[i].hub, id);
  }

  /** The download of a public stream's link from the cache in state `j`; nothing when the entry is not there. */
  function DownloadAt(w: World, st: Stream): Option<seq<JsonRow>>
    requires st.events != [] && st.events[0].Link?
  {
    var key := (st.q, st.events[0].version);
    if key in w.reader.cache then Some(w.reader.cache[key]) else None
  }

  /**
   Public convergence: if a public browser downloaded its link while the database was at the link's version,
   then once the server has drained it shows exactly the current result.
   */
  lemma PublicBrowserConverges(
    s: Setup, run: Run, j: nat, i: nat, id: nat, getKey: KeyOf, codec: Codec, chunks: seq<string>)
    requires IsRun(s, run) && j <= i < |run.states| && Faithful(codec) && Drained(run.states[i])
    requires id in run.states[j].hub.streams
    requires var w := run.states[j]; var st := w.hub.streams[id];
      && st.events != [] && st.events[0].Link? && DownloadAt(w, st).Some?
      && Servable(s.index, s.sem, st.q) && AtVersion(s, w.feed, (st.q, st.events[0].version))
    requires id in run.states[i].hub.subs
    requires id in run.states[i].hub.streams && |run.states[i].hub.streams[id].trail| >= 2
    requires Concat(chunks) == WireText(codec, run.states[i].hub.streams[id].events)
    requires WellFormed(run.states[i].hub.streams[id].q)
    requires KeysFit(s, run.states[i].feed.history, run.states[i].hub.streams[id].q, getKey)
    ensures var c := Browser(codec, getKey, DownloadAt(run.states[j], run.states[j].hub.streams[id]), chunks);
            var h := run.states[i].feed.history;
            AtRest(c) && Mirrors(getKey, KeyedAt(s, h, run.states[i].hub.streams[id].q, |h.log|), c.rows)
  {
    hide IsRun, KeysFit, Mirrors, AtRest, WireText, Concat, KeyedAt, Faithful, WellFormed, Browser, Drained;
    hide Noticed, AtVersion, Covered;
    DownloadIsOpening(s, run, j, i, id);
    OpeningStays(s, run, j, i, id);
    CoveredIsNoticed(s.index, s.sem.logic, run.states[j].hub.streams[id].q);
    ListedQuery(s, run, i, id);
    BrowserConverges(s, run, i, id, getKey, codec, DownloadAt(run.states[j], run.states[j].hub.streams[id]), chunks);
  }
}

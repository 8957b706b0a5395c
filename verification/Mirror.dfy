/**
 The browser mirror. The driver re-keys server deltas by the client's own key, holds them until the end
 mark, and then writes them to the collection. The main theorem says exactly when that reproduces the
 server's new result, for every order of the deltas.
 */
module Mirror {
  import opened Text
  import opened Diff
  import Txid

  /** The client's key of a row, as text. */
  type KeyOf = JsonRow -> string

  datatype Pending = Upsert(value: JsonRow) | Remove

  /** What the collection does with an update: replace the row, or patch it. */
  datatype UpdateMode = FullRows | PartialRows

  datatype Op = InsertOp | UpdateOp | DeleteOp

  datatype Frame =
    | SnapshotFrame(rows: seq<JsonRow>)
    | ChangeFrame(op: Op, row: Option<JsonRow>, key: Option<string>)
    | UpToDateFrame
    | ResetFrame

  /** The collection's rows, the driver's key set, and the held changes in insertion order. */
  datatype Client = Client(rows: map<string, JsonRow>, seen: set<string>, pending: seq<(string, Pending)>)

  const EMPTY_CLIENT := Client(map[], {}, [])

  function Merge(before: JsonRow, patch: JsonRow): JsonRow {
    JsonRow(before.fields + patch.fields)
  }

  // ---------------------------------------------------------------------------------------------
  // The held changes: a map that keeps the position of a key that is set again.
  // ---------------------------------------------------------------------------------------------

  function Find(pending: seq<(string, Pending)>, key: string): Option<Pending> {
    if pending == [] then None
    else if pending[0].0 == key then Some(pending[0].1)
    else Find(pending[1..], key)
  }

  function Put(pending: seq<(string, Pending)>, key: string, p: Pending): seq<(string, Pending)> {
    if pending == [] then [(key, p)]
    else if pending[0].0 == key then [(key, p)] + pending[1..]
    else [pending[0]] + Put(pending[1..], key, p)
  }

  lemma {:induction false} FindPut(pending: seq<(string, Pending)>, key: string, p: Pending, x: string)
    ensures Find(Put(pending, key, p), x) == if x == key then Some(p) else Find(pending, x)
  {
    if pending != [] && pending[0].0 != key {
      FindPut(pending[1..], key, p, x);
      assert Put(pending, key, p)[1..] == Put(pending[1..], key, p);
    }
  }

  /** A key that is set again keeps its place; a new one goes to the end. */
  lemma {:induction false} PutKeepsOrder(pending: seq<(string, Pending)>, key: string, p: Pending)
    ensures Find(pending, key).None? ==> Put(pending, key, p) == pending + [(key, p)]
    ensures Find(pending, key).Some? ==>
              && |Put(pending, key, p)| == |pending|
              && forall i | 0 <= i < |pending| :: Put(pending, key, p)[i].0 == pending[i].0
  {
    if pending != [] && pending[0].0 != key {
      PutKeepsOrder(pending[1..], key, p);
      assert pending == [pending[0]] + pending[1..];
    }
  }

  // ---------------------------------------------------------------------------------------------
  // Frames.
  // ---------------------------------------------------------------------------------------------

  function WriteUpdate(
    mode: UpdateMode, rows: map<string, JsonRow>, key: string, value: JsonRow): map<string, JsonRow> {
    rows[key := if mode.PartialRows? && key in rows then Merge(rows[key], value) else value]
  }

  function FlushOne(getKey: KeyOf, mode: UpdateMode, c: Client, key: string, p: Pending): Client {
    match p
    case Upsert(value) =>
      Client(if key in c.seen then WriteUpdate(mode, c.rows, getKey(value), value) else c.rows[getKey(value) := value],
             c.seen + {key}, c.pending)
    case Remove => if key in c.seen then Client(c.rows - {key}, c.seen - {key}, c.pending) else c
  }

  function FlushAll(getKey: KeyOf, mode: UpdateMode, c: Client, pending: seq<(string, Pending)>): Client
    decreases |pending|
  {
    if pending == [] then c
    else FlushAll(getKey, mode, FlushOne(getKey, mode, c, pending[0].0, pending[0].1), pending[1..])
  }

  function Flushed(getKey: KeyOf, mode: UpdateMode, c: Client): Client {
    FlushAll(getKey, mode, c, c.pending).(pending := [])
  }

  function InsertRows(getKey: KeyOf, rows: map<string, JsonRow>, more: seq<JsonRow>): map<string, JsonRow> {
    if more == [] then rows
    else InsertRows(getKey, rows, more[..|more| - 1])[getKey(more[|more| - 1]) := more[|more| - 1]]
  }

  function KeySet(getKey: KeyOf, rows: seq<JsonRow>): set<string> {
    set i | 0 <= i < |rows| :: getKey(rows[i])
  }

  function TextOfKey(key: Option<string>): string {
    if key.Some? then key.value else "undefined"
  }

  function Held(getKey: KeyOf, c: Client, op: Op, row: Option<JsonRow>, key: Option<string>): seq<(string, Pending)> {
    var k := if row.Some? then getKey(row.value) else TextOfKey(key);
    var before := Find(c.pending, k);
    if op.DeleteOp? then
      if row.Some? && before.Some? && before.value.Upsert? then c.pending else Put(c.pending, k, Remove)
    else
      var patch := if row.Some? then row.value else JsonRow(map[]);
      var value := if before.Some? && before.value.Upsert? then Merge(before.value.value, patch) else patch;
      Put(c.pending, k, Upsert(value))
  }

  function OnFrame(getKey: KeyOf, mode: UpdateMode, c: Client, frame: Frame): Client {
    match frame
    case SnapshotFrame(rows) => Client(InsertRows(getKey, c.rows, rows), KeySet(getKey, rows), c.pending)
    case ChangeFrame(op, row, key) => c.(pending := Held(getKey, c, op, row, key))
    case UpToDateFrame => Flushed(getKey, mode, c)
    case ResetFrame => EMPTY_CLIENT
  }

  function OnFrames(getKey: KeyOf, mode: UpdateMode, c: Client, frames: seq<Frame>): Client {
    if frames == [] then c
    else OnFrame(getKey, mode, OnFrames(getKey, mode, c, frames[..|frames| - 1]), frames[|frames| - 1])
  }

  function DeltaFrame(d: Delta): Frame {
    match d
    case InsertDelta(key, row) => ChangeFrame(InsertOp, Some(row), Some(key))
    case UpdateDelta(key, row) => ChangeFrame(UpdateOp, Some(row), Some(key))
    case DeleteDelta(key, row) => ChangeFrame(DeleteOp, Some(row), Some(key))
  }

  function DeltaFrames(deltas: seq<Delta>): seq<Frame> {
    seq(|deltas|, i requires 0 <= i < |deltas| => DeltaFrame(deltas[i]))
  }

  // ---------------------------------------------------------------------------------------------
  // The driver object.
  // ---------------------------------------------------------------------------------------------

  /** A frame as the source yields it, with the transaction id it carries, if any. */
  datatype Tagged = Tagged(frame: Frame, txid: Option<int>)

  function FramesIn(tagged: seq<Tagged>): seq<Frame> {
    seq(|tagged|, i requires 0 <= i < |tagged| => tagged[i].frame)
  }

  /** The window of transaction ids after these frames, each recorded before its frame is looked at. */
  function Window(seen: seq<string>, normalize: int -> string, tagged: seq<Tagged>): seq<string> {
    if tagged == [] then seen
    else
      var n := |tagged| - 1;
      var before := Window(seen, normalize, tagged[..n]);
      if tagged[n].txid.Some? then Txid.Recorded(before, normalize(tagged[n].txid.value)) else before
  }

  class Driver {
    const getKey: KeyOf
    const mode: UpdateMode
    const txids: Txid.TxidTracker
    var rows: map<string, JsonRow>
    var seen: set<string>
    var pending: seq<(string, Pending)>
    var signalledReady: bool
    /** How many times the collection was told that it is ready. */
    var readyCalls: nat

    function State(): Client
      reads this
    {
      Client(rows, seen, pending)
    }

    ghost predicate Valid()
      reads this, txids
    {
      txids.Valid() && readyCalls == if signalledReady then 1 else 0
    }

    constructor (getKey: KeyOf, mode: UpdateMode, txids: Txid.TxidTracker)
      requires txids.Valid()
      ensures Valid() && State() == EMPTY_CLIENT && !signalledReady
      ensures this.getKey == getKey && this.mode == mode && this.txids == txids
    {
      this.getKey, this.mode, this.txids := getKey, mode, txids;
      rows, seen, pending, signalledReady, readyCalls := map[], {}, [], false, 0;
    }

    /** Readiness is signalled once, however many snapshots or failures follow. */
    method Ready()
      requires Valid()
      modifies this`signalledReady, this`readyCalls
      ensures Valid() && signalledReady
    {
      if !signalledReady {
        signalledReady := true;
        readyCalls := readyCalls + 1;
      }
    }

    method ApplyRows(more: seq<JsonRow>)
      modifies this`rows, this`seen
      ensures rows == InsertRows(getKey, old(rows), more) && seen == KeySet(getKey, more)
    {
      seen := {};
      for i := 0 to |more|
        invariant rows == InsertRows(getKey, old(rows), more[..i])
        invariant seen == KeySet(getKey, more[..i])
      {
        rows := rows[getKey(more[i]) := more[i]];
        seen := seen + {getKey(more[i])};
        assert more[..i + 1][..i] == more[..i];
        assert KeySet(getKey, more[..i + 1]) == KeySet(getKey, more[..i]) + {getKey(more[i])} by {
          assert more[..i + 1] == more[..i] + [more[i]];
        }
      }
      assert more[..|more|] == more;
    }

    method Flush()
      modifies this`rows, this`seen, this`pending
      ensures State() == Flushed(getKey, mode, old(State()))
    {
      if |pending| == 0 {
        return;
      }
      ghost var start := State();
      for i := 0 to |pending|
        invariant pending == start.pending
        invariant FlushAll(getKey, mode, State(), pending[i..]) == FlushAll(getKey, mode, start, start.pending)
      {
        var key, op := pending[i].0, pending[i].1;
        assert pending[i..][1..] == pending[i + 1..];
        match op {
          case Upsert(value) =>
            rows := if key in seen then WriteUpdate(mode, rows, getKey(value), value) else rows[getKey(value) := value];
            seen := seen + {key};
          case Remove =>
            if key in seen {
              rows, seen := rows - {key}, seen - {key};
            }
        }
      }
      pending := [];
    }

    /**
     One frame of the stream: its transaction id is recorded first, which wakes the writers waiting for it, and
     `more` is false once a reset has ended the connection.
     */
    method Process(tagged: Tagged) returns (more: bool)
      requires Valid()
      modifies this, txids
      ensures Valid() && State() == OnFrame(getKey, mode, old(State()), tagged.frame)
      ensures txids.seen == Window(old(txids.seen), txids.normalize, [tagged])
      ensures txids.waiters == map w | w in old(txids.waiters) &&
                !(tagged.txid.Some? && old(txids.waiters)[w] == txids.normalize(tagged.txid.value)) ::
                    old(txids.waiters)[w]
      ensures more <==> !tagged.frame.ResetFrame?
      ensures signalledReady == (old(signalledReady) || tagged.frame.SnapshotFrame?)
    {
      assert [tagged][..0] == [];
      if tagged.txid.Some? {
        txids.Record(tagged.txid.value);
      }
      more := true;
      match tagged.frame
      case SnapshotFrame(snapshot) =>
        ApplyRows(snapshot);
        Ready();
      case UpToDateFrame => Flush();
      case ResetFrame =>
        pending, seen, rows := [], {}, map[];
        more := false;
      case ChangeFrame(op, row, key) =>
        pending := Held(getKey, State(), op, row, key);
    }

    /** One connection: a fresh set of held changes, then frames until the stream ends or a reset stops it. */
    method Connect(tagged: seq<Tagged>) returns (n: nat)
      requires Valid()
      modifies this, txids
      ensures Valid() && n <= |tagged|
      ensures State() == OnFrames(getKey, mode, old(State()).(pending := []), FramesIn(tagged[..n]))
      ensures txids.seen == Window(old(txids.seen), txids.normalize, tagged[..n])
      ensures n < |tagged| ==> n > 0 && tagged[n - 1].frame.ResetFrame?
      ensures forall i | 0 <= i < n - 1 :: !tagged[i].frame.ResetFrame?
    {
      hide OnFrame;
      pending := [];
      ghost var start := State();
      n := 0;
      var more := true;
      assert FramesIn(tagged[..0]) == [];
      while more && n < |tagged|
        invariant Valid() && n <= |tagged| && State() == OnFrames(getKey, mode, start, FramesIn(tagged[..n]))
        invariant txids.seen == Window(old(txids.seen), txids.normalize, tagged[..n])
        invariant more <==> forall i | 0 <= i < n :: !tagged[i].frame.ResetFrame?
        invariant forall i | 0 <= i < n - 1 :: !tagged[i].frame.ResetFrame?
        decreases |tagged| - n
      {
        ghost var before := txids.seen;
        more := Process(tagged[n]);
        assert [tagged[n]][..0] == [] && tagged[..n + 1][..n] == tagged[..n];
        assert FramesIn(tagged[..n + 1])[..n] == FramesIn(tagged[..n]);
        n := n + 1;
      }
    }
  }

  // ---------------------------------------------------------------------------------------------
  // Correctness.
  // ---------------------------------------------------------------------------------------------

  /** The rows are exactly those of the keyed result, under the client's keys. */
  ghost predicate Mirrors(getKey: KeyOf, m: KeyedRows, rows: map<string, JsonRow>) {
    && (forall k | k in m :: getKey(m[k]) in rows && rows[getKey(m[k])] == m[k])
    && (forall x | x in rows :: HasClientKey(getKey, m, x))
  }

  ghost predicate HasClientKey(getKey: KeyOf, m: KeyedRows, x: string) {
    exists k | k in m :: getKey(m[k]) == x
  }

  /** The client key tells the rows of a keyed result apart. */
  ghost predicate Distinct(getKey: KeyOf, m: KeyedRows) {
    forall j, k | j in m && k in m && j != k :: getKey(m[j]) != getKey(m[k])
  }

  /** Nothing is held, and the driver's key set is the collection's. */
  ghost predicate AtRest(c: Client) {
    c.pending == [] && c.seen == c.rows.Keys
  }

  predicate IsUpsert(d: Delta) {
    !d.DeleteDelta?
  }

  /** What the deltas amount to at one client key: an upsert wins over a delete, in either order. */
  ghost predicate HoldsAt(getKey: KeyOf, deltas: seq<Delta>, x: string, held: Option<Pending>) {
    && (forall i | 0 <= i < |deltas| && IsUpsert(deltas[i]) && getKey(deltas[i].row) == x ::
        held == Some(Upsert(deltas[i].row)))
    && (held.Some? && held.value.Upsert? ==>
          exists i | 0 <= i < |deltas| :: IsUpsert(deltas[i]) && getKey(deltas[i].row) == x &&
              deltas[i].row == held.value.value)
    && (held == Some(Remove) ==> exists i | 0 <= i < |deltas| :: deltas[i].DeleteDelta? && getKey(deltas[i].row) == x)
    && (held == None ==> forall i | 0 <= i < |deltas| :: getKey(deltas[i].row) != x)
  }

  /** Two upserts at the same client key carry the same row. */
  ghost predicate UpsertsAgree(getKey: KeyOf, deltas: seq<Delta>) {
    forall i, j | 0 <= i < |deltas| && 0 <= j < |deltas| && IsUpsert(deltas[i]) && IsUpsert(deltas[j])
      && getKey(deltas[i].row) == getKey(deltas[j].row) :: deltas[i].row == deltas[j].row
  }

  /** Every held upsert sits under its own client key, and no key is held twice. */
  ghost predicate WellHeld(getKey: KeyOf, pending: seq<(string, Pending)>) {
    && (forall i | 0 <= i < |pending| && pending[i].1.Upsert? :: getKey(pending[i].1.value) == pending[i].0)
    && (forall i, j | 0 <= i < j < |pending| :: pending[i].0 != pending[j].0)
  }

  lemma {:induction false} PutKeys(pending: seq<(string, Pending)>, key: string, p: Pending, i: nat)
    requires i < |Put(pending, key, p)|
    ensures Put(pending, key, p)[i] == (key, p) || Put(pending, key, p)[i] in pending
  {
    if pending != [] && pending[0].0 != key && i > 0 {
      PutKeys(pending[1..], key, p, i - 1);
    }
  }

  lemma {:induction false} PutWellHeld(getKey: KeyOf, pending: seq<(string, Pending)>, key: string, p: Pending)
    requires WellHeld(getKey, pending) && (p.Upsert? ==> getKey(p.value) == key)
    ensures WellHeld(getKey, Put(pending, key, p))
  {
    if pending != [] && pending[0].0 != key {
      var tail := pending[1..];
      PutWellHeld(getKey, tail, key, p);
      var put := Put(tail, key, p);
      forall i | 0 <= i < |put|
        ensures put[i].0 != pending[0].0
      {
        PutKeys(tail, key, p, i);
      }
    }
  }

  lemma {:induction false} BatchHeld(getKey: KeyOf, mode: UpdateMode, c: Client, deltas: seq<Delta>)
    requires c.pending == [] && UpsertsAgree(getKey, deltas)
    ensures var c' := OnFrames(getKey, mode, c, DeltaFrames(deltas));
            && c'.rows == c.rows && c'.seen == c.seen && WellHeld(getKey, c'.pending)
            && forall x :: HoldsAt(getKey, deltas, x, Find(c'.pending, x))
  {
    if deltas != [] {
      var n := |deltas| - 1;
      var d := deltas[n];
      BatchHeld(getKey, mode, c, deltas[..n]) by {
        assert forall i | 0 <= i < n :: deltas[..n][i] == deltas[i];
      }
      assert DeltaFrames(deltas)[..n] == DeltaFrames(deltas[..n]);
      var before := OnFrames(getKey, mode, c, DeltaFrames(deltas[..n]));
      var after := OnFrame(getKey, mode, before, DeltaFrame(d));
      assert OnFrames(getKey, mode, c, DeltaFrames(deltas)) == after;
      HeldStep(getKey, before, deltas, n);
    }
  }

  lemma HeldStep(getKey: KeyOf, before: Client, deltas: seq<Delta>, n: nat)
    requires |deltas| == n + 1 && UpsertsAgree(getKey, deltas) && WellHeld(getKey, before.pending)
    requires forall x :: HoldsAt(getKey, deltas[..n], x, Find(before.pending, x))
    ensures var after := OnFrame(getKey, FullRows, before, DeltaFrame(deltas[n]));
            && WellHeld(getKey, after.pending)
            && forall x :: HoldsAt(getKey, deltas, x, Find(after.pending, x))
  {
    var d := deltas[n];
    var key := getKey(d.row);
    var held := Find(before.pending, key);
    var after := OnFrame(getKey, FullRows, before, DeltaFrame(d));
    assert HoldsAt(getKey, deltas[..n], key, held);
    if held.Some? && held.value.Upsert? {
      var i :| 0 <= i < n && IsUpsert(deltas[..n][i]) && getKey(deltas[..n][i].row) == key &&
          deltas[..n][i].row == held.value.value;
      assert deltas[..n][i] == deltas[i];
      assert IsUpsert(d) ==> held.value.value == d.row && Merge(d.row, d.row) == d.row;
    }
    var p := if IsUpsert(d) then Upsert(d.row) else if held.Some? && held.value.Upsert? then held.value else Remove;
    assert after.pending == Put(before.pending, key, p) || (after.pending == before.pending && held == Some(p));
    PutWellHeld(getKey, before.pending, key, p);
    forall x
      ensures HoldsAt(getKey, deltas, x, Find(after.pending, x))
    {
      FindPut(before.pending, key, p, x);
      if x == key {
        HoldsStep(getKey, deltas, n, held, p);
      } else {
        HoldsElsewhere(getKey, deltas, n, x, Find(before.pending, x));
      }
    }
  }

  lemma HoldsStep(getKey: KeyOf, deltas: seq<Delta>, n: nat, held: Option<Pending>, p: Pending)
    requires |deltas| == n + 1 && UpsertsAgree(getKey, deltas) &&
        HoldsAt(getKey, deltas[..n], getKey(deltas[n].row), held)
    requires p == if IsUpsert(deltas[n]) then Upsert(deltas[n].row)
                  else if held.Some? && held.value.Upsert? then held.value else Remove
    ensures HoldsAt(getKey, deltas, getKey(deltas[n].row), Some(p))
  {
    assert forall i | 0 <= i < n :: deltas[..n][i] == deltas[i];
  }

  lemma HoldsElsewhere(getKey: KeyOf, deltas: seq<Delta>, n: nat, x: string, held: Option<Pending>)
    requires |deltas| == n + 1 && HoldsAt(getKey, deltas[..n], x, held) && x != getKey(deltas[n].row)
    ensures HoldsAt(getKey, deltas, x, held)
  {
    assert forall i | 0 <= i < n :: deltas[..n][i] == deltas[i];
  }

  /** What a flush leaves at one client key. */
  ghost predicate FlushedAt(
    before: map<string, JsonRow>, after: map<string, JsonRow>, x: string, held: Option<Pending>) {
    match held
    case None => (x in after <==> x in before) && (x in after ==> after[x] == before[x])
    case Some(Upsert(value)) => x in after && after[x] == value
    case Some(Remove) => x !in after
  }

  lemma {:induction false} FlushAtKey(getKey: KeyOf, c: Client, pending: seq<(string, Pending)>, x: string)
    requires c.seen == c.rows.Keys && WellHeld(getKey, pending)
    ensures var r := FlushAll(getKey, FullRows, c, pending);
            r.seen == r.rows.Keys && FlushedAt(c.rows, r.rows, x, Find(pending, x))
    decreases |pending|
  {
    if pending != [] {
      var tail := pending[1..];
      var next := FlushOne(getKey, FullRows, c, pending[0].0, pending[0].1);
      assert WellHeld(getKey, tail);
      FlushAtKey(getKey, next, tail, x);
      if x == pending[0].0 {
        NotHeld(getKey, pending);
      }
    }
  }

  lemma {:induction false} NotHeld(getKey: KeyOf, pending: seq<(string, Pending)>)
    requires pending != [] && WellHeld(getKey, pending)
    ensures Find(pending[1..], pending[0].0) == None
  {
    FindAbsent(pending[1..], pending[0].0);
  }

  lemma {:induction false} FindAbsent(pending: seq<(string, Pending)>, key: string)
    requires forall i | 0 <= i < |pending| :: pending[i].0 != key
    ensures Find(pending, key) == None
  {
    if pending != [] {
      FindAbsent(pending[1..], key);
    }
  }

  // ---------------------------------------------------------------------------------------------
  // Single frames, and collections that patch rows.
  // ---------------------------------------------------------------------------------------------

  /** The patch's fields, and of the others those there were. */
  ghost predicate Patched(before: map<string, JsonValue>, patch: JsonRow, after: JsonRow) {
    && (forall name :: name in after.fields <==> name in patch.fields || name in before)
    && (forall name | name in patch.fields :: name in after.fields && after.fields[name] == patch.fields[name])
    && (forall name | name in before && name !in patch.fields ::
          name in after.fields && after.fields[name] == before[name])
  }

  /** What is held at a client key after one more change at `k`. */
  ghost predicate HeldAt(op: Op, row: Option<JsonRow>, before: Option<Pending>, after: Option<Pending>) {
    var upserted := before.Some? && before.value.Upsert?;
    if op.DeleteOp? then after == if row.Some? && upserted then before else Some(Remove)
    else
      && after.Some? && after.value.Upsert?
      && Patched(if upserted then before.value.value.fields else map[],
                 if row.Some? then row.value else JsonRow(map[]), after.value.value)
  }

  /**
   A change concerns its row's client key, or the key it names itself. Insertions and updates patch a held upsert,
   a deletion that carries its row yields to one, a deletion by key does not, and no other key is affected.
   */
  lemma HeldExactly(getKey: KeyOf, c: Client, op: Op, row: Option<JsonRow>, key: Option<string>, x: string)
    ensures var k := match row { case Some(r) => getKey(r) case None => if key.Some? then key.value else "undefined" };
            var before, after := Find(c.pending, x), Find(Held(getKey, c, op, row, key), x);
            if x == k then HeldAt(op, row, before, after) else after == before
  {
    hide Put, Find;
    var k := if row.Some? then getKey(row.value) else TextOfKey(key);
    var held := Find(c.pending, k);
    var patch := if row.Some? then row.value else JsonRow(map[]);
    FindPut(c.pending, k, Remove, x);
    FindPut(c.pending, k, Upsert(patch), x);
    if held.Some? && held.value.Upsert? {
      FindPut(c.pending, k, Upsert(Merge(held.value.value, patch)), x);
    }
  }

  /** What a patching flush leaves at one client key. */
  ghost predicate PatchedAt(
    before: map<string, JsonRow>, after: map<string, JsonRow>, x: string, held: Option<Pending>) {
    match held
    case None => (x in after <==> x in before) && (x in after ==> after[x] == before[x])
    case Some(Upsert(value)) => x in after && Patched(if x in before then before[x].fields else map[], value, after[x])
    case Some(Remove) => x !in after
  }

  /** A collection that patches rows keeps the fields that an update does not mention. */
  lemma {:induction false} PatchAtKey(getKey: KeyOf, c: Client, pending: seq<(string, Pending)>, x: string)
    requires c.seen == c.rows.Keys && WellHeld(getKey, pending)
    ensures var r := FlushAll(getKey, PartialRows, c, pending);
            r.seen == r.rows.Keys && PatchedAt(c.rows, r.rows, x, Find(pending, x))
    decreases |pending|
  {
    hide Patched;
    if pending != [] {
      var tail := pending[1..];
      var next := FlushOne(getKey, PartialRows, c, pending[0].0, pending[0].1);
      assert WellHeld(getKey, tail);
      PatchAtKey(getKey, next, tail, x);
      if x == pending[0].0 {
        NotHeld(getKey, pending);
        if pending[0].1.Upsert? {
          MergePatches(c.rows, x, pending[0].1.value);
        }
      }
    }
  }

  lemma MergePatches(rows: map<string, JsonRow>, x: string, value: JsonRow)
    ensures Patched(if x in rows then rows[x].fields else map[], value, WriteUpdate(PartialRows, rows, x, value)[x])
    ensures x !in rows ==> Patched(map[], value, value)
  {
  }

  /** The held rows have every field of the rows they replace. */
  ghost predicate WholeRows(c: Client) {
    forall x | x in c.rows ::
      var held := Find(c.pending, x);
      held.Some? && held.value.Upsert? ==> c.rows[x].fields.Keys <= held.value.value.fields.Keys
  }

  /** With whole rows, as the server sends them, patching and replacing come to the same. */
  lemma WholeRowsNeedNoMode(getKey: KeyOf, c: Client)
    requires c.seen == c.rows.Keys && WellHeld(getKey, c.pending) && WholeRows(c)
    ensures Flushed(getKey, PartialRows, c) == Flushed(getKey, FullRows, c)
  {
    hide FlushAll, WellHeld;
    var a, b := FlushAll(getKey, PartialRows, c, c.pending), FlushAll(getKey, FullRows, c, c.pending);
    forall x
      ensures a.seen == a.rows.Keys && b.seen == b.rows.Keys && (x in a.rows <==> x in b.rows)
      ensures x in a.rows ==> a.rows[x] == b.rows[x]
    {
      PatchAtKey(getKey, c, c.pending, x);
      FlushAtKey(getKey, c, c.pending, x);
      var held := Find(c.pending, x);
      if held.Some? && held.value.Upsert? {
        WholePatch(if x in c.rows then c.rows[x].fields else map[], held.value.value, a.rows[x]);
      }
    }
    PatchAtKey(getKey, c, c.pending, "");
    FlushAtKey(getKey, c, c.pending, "");
    assert a.rows == b.rows;
    FlushKeepsPending(getKey, PartialRows, c, c.pending);
    FlushKeepsPending(getKey, FullRows, c, c.pending);
  }

  lemma WholePatch(before: map<string, JsonValue>, patch: JsonRow, after: JsonRow)
    requires Patched(before, patch, after) && before.Keys <= patch.fields.Keys
    ensures after == patch
  {
    assert after.fields == patch.fields;
  }

  lemma {:induction false} FlushKeepsPending(
    getKey: KeyOf, mode: UpdateMode, c: Client, pending: seq<(string, Pending)>)
    ensures FlushAll(getKey, mode, c, pending).pending == c.pending
    decreases |pending|
  {
    if pending != [] {
      FlushKeepsPending(getKey, mode, FlushOne(getKey, mode, c, pending[0].0, pending[0].1), pending[1..]);
    }
  }

  ghost predicate LastWithKey(getKey: KeyOf, rows: seq<JsonRow>, i: nat, x: string) {
    i < |rows| && getKey(rows[i]) == x && forall j | i < j < |rows| :: getKey(rows[j]) != x
  }

  lemma LastWithKeyStep(getKey: KeyOf, rows: seq<JsonRow>, i: nat, x: string)
    requires rows != []
    ensures var n := |rows| - 1;
            LastWithKey(getKey, rows, i, x) <==>
            if getKey(rows[n]) == x then i == n else LastWithKey(getKey, rows[..n], i, x)
  {
    var n := |rows| - 1;
    assert forall j | 0 <= j < n :: rows[..n][j] == rows[j];
  }

  lemma {:induction false} InsertOver(getKey: KeyOf, base: map<string, JsonRow>, rows: seq<JsonRow>, x: string)
    ensures var r := InsertRows(getKey, base, rows);
            && (forall i: nat | LastWithKey(getKey, rows, i, x) :: x in r && r[x] == rows[i])
            && ((forall i: nat :: !LastWithKey(getKey, rows, i, x)) ==> At(r, x) == At(base, x))
  {
    if rows != [] {
      hide LastWithKey;
      var n := |rows| - 1;
      InsertOver(getKey, base, rows[..n], x);
      LastWithKeyStep(getKey, rows, n, x);
      if i: nat :| LastWithKey(getKey, rows[..n], i, x) {
        LastWithKeyStep(getKey, rows, i, x);
      }
      forall i: nat
        ensures LastWithKey(getKey, rows, i, x) <==>
                if getKey(rows[n]) == x then i == n else LastWithKey(getKey, rows[..n], i, x)
      {
        LastWithKeyStep(getKey, rows, i, x);
      }
    }
  }

  lemma {:induction false} SeenHasLast(getKey: KeyOf, rows: seq<JsonRow>, i: nat) returns (last: nat)
    requires i < |rows|
    ensures LastWithKey(getKey, rows, last, getKey(rows[i]))
    decreases |rows| - i
  {
    if j :| i < j < |rows| && getKey(rows[j]) == getKey(rows[i]) {
      last := SeenHasLast(getKey, rows, j);
    } else {
      last := i;
    }
  }

  /** A snapshot overwrites the keys of its rows, the last row of a key counting, and keeps the rest of the rows. */
  lemma SnapshotOver(getKey: KeyOf, mode: UpdateMode, c: Client, rows: seq<JsonRow>, x: string)
    ensures var r := OnFrame(getKey, mode, c, SnapshotFrame(rows));
            && r.pending == c.pending
            && (x in r.seen <==> exists i: nat :: LastWithKey(getKey, rows, i, x))
            && (forall i: nat | LastWithKey(getKey, rows, i, x) :: x in r.rows && r.rows[x] == rows[i])
            && ((forall i: nat :: !LastWithKey(getKey, rows, i, x)) ==> At(r.rows, x) == At(c.rows, x))
  {
    InsertOver(getKey, c.rows, rows, x);
    hide InsertRows;
    if x in KeySet(getKey, rows) {
      var i :| 0 <= i < |rows| && getKey(rows[i]) == x;
      var last := SeenHasLast(getKey, rows, i);
    }
  }

  /** After a reset nothing is left: no row, no known key, nothing held. */
  lemma ResetClears(getKey: KeyOf, mode: UpdateMode, c: Client, frames: seq<Frame>)
    ensures var r := OnFrames(getKey, mode, c, frames + [ResetFrame]);
            r.rows == map[] && r.seen == {} && r.pending == []
  {
    assert (frames + [ResetFrame])[..|frames|] == frames;
  }

  // ---------------------------------------------------------------------------------------------
  // Batches.
  // ---------------------------------------------------------------------------------------------

  /** The client after the frames of a difference, in any order, and the end mark. */
  function AfterBatch(getKey: KeyOf, c: Client, deltas: seq<Delta>): Client {
    OnFrames(getKey, FullRows, c, DeltaFrames(deltas) + [UpToDateFrame])
  }

  lemma DiffUpsertsAgree(getKey: KeyOf, deltas: seq<Delta>, prev: KeyedRows, next: KeyedRows)
    requires IsDiff(deltas, prev, next) && Distinct(getKey, next)
    ensures UpsertsAgree(getKey, deltas)
  {
    forall i, j | 0 <= i < |deltas| && 0 <= j < |deltas| && IsUpsert(deltas[i]) && IsUpsert(deltas[j])
      && getKey(deltas[i].row) == getKey(deltas[j].row)
      ensures deltas[i].row == deltas[j].row
    {
      assert deltas[i].row == next[deltas[i].key] && deltas[j].row == next[deltas[j].key];
    }
  }

  /** At each client key, a batch leaves what its deltas amount to there. */
  lemma BatchAtKey(getKey: KeyOf, c: Client, deltas: seq<Delta>, x: string) returns (held: Option<Pending>)
    requires AtRest(c) && UpsertsAgree(getKey, deltas)
    ensures AtRest(AfterBatch(getKey, c, deltas))
    ensures HoldsAt(getKey, deltas, x, held) && FlushedAt(c.rows, AfterBatch(getKey, c, deltas).rows, x, held)
  {
    hide UpsertsAgree, HoldsAt, WellHeld, FlushedAt;
    var frames := DeltaFrames(deltas) + [UpToDateFrame];
    assert frames[..|deltas|] == DeltaFrames(deltas);
    BatchHeld(getKey, FullRows, c, deltas);
    var c' := OnFrames(getKey, FullRows, c, DeltaFrames(deltas));
    held := Find(c'.pending, x);
    FlushAtKey(getKey, c', c'.pending, x);
  }

  /** A row present in both results keeps a client key that still exists, the only way a key could be left behind. */
  ghost predicate NoStrandedKey(getKey: KeyOf, prev: KeyedRows, next: KeyedRows) {
    forall k | k in prev && k in next :: HasClientKey(getKey, next, getKey(prev[k]))
  }

  /** The row of a keyed result at a client key. */
  ghost function RowAt(getKey: KeyOf, m: KeyedRows, x: string): (r: Option<JsonRow>)
    ensures r.Some? <==> HasClientKey(getKey, m, x)
    ensures r.Some? ==> getKey(r.value) == x
  {
    if HasClientKey(getKey, m, x) then
      var k :| k in m && getKey(m[k]) == x;
      Some(m[k])
    else None
  }

  function At(rows: map<string, JsonRow>, x: string): Option<JsonRow> {
    if x in rows then Some(rows[x]) else None
  }

  lemma RowAtKey(getKey: KeyOf, m: KeyedRows, k: string)
    requires Distinct(getKey, m) && k in m
    ensures RowAt(getKey, m, getKey(m[k])) == Some(m[k])
  {
    assert HasClientKey(getKey, m, getKey(m[k]));
  }

  /** Mirroring, one client key at a time. */
  lemma MirrorsAt(getKey: KeyOf, m: KeyedRows, rows: map<string, JsonRow>)
    requires Distinct(getKey, m)
    ensures Mirrors(getKey, m, rows) <==> forall x :: At(rows, x) == RowAt(getKey, m, x)
  {
    hide Distinct, RowAt;
    forall k | k in m
      ensures RowAt(getKey, m, getKey(m[k])) == Some(m[k])
    {
      RowAtKey(getKey, m, k);
    }
    if Mirrors(getKey, m, rows) {
      forall x
        ensures At(rows, x) == RowAt(getKey, m, x)
      {
        if HasClientKey(getKey, m, x) {
          var k :| k in m && getKey(m[k]) == x;
        }
      }
    }
    if forall x :: At(rows, x) == RowAt(getKey, m, x) {
      forall k | k in m
        ensures getKey(m[k]) in rows && rows[getKey(m[k])] == m[k]
      {
        assert At(rows, getKey(m[k])) == Some(m[k]);
      }
      forall x | x in rows
        ensures HasClientKey(getKey, m, x)
      {
        assert At(rows, x) == RowAt(getKey, m, x);
      }
    }
  }

  /** Some delta concerns the client key. */
  ghost predicate Mentions(getKey: KeyOf, deltas: seq<Delta>, x: string) {
    exists i | 0 <= i < |deltas| :: getKey(deltas[i].row) == x
  }

  lemma UpsertIsNext(deltas: seq<Delta>, prev: KeyedRows, next: KeyedRows, i: nat)
    requires IsDiff(deltas, prev, next) && i < |deltas|
    ensures KeyDelta(prev, next, deltas[i].key) == Some(deltas[i])
    ensures IsUpsert(deltas[i]) ==> deltas[i].key in next && next[deltas[i].key] == deltas[i].row
    ensures deltas[i].DeleteDelta? ==>
              deltas[i].key in prev && deltas[i].key !in next && prev[deltas[i].key] == deltas[i].row
  {
  }

  /** A client key that only deletions mention is not in the new result. */
  lemma DeletedIsAbsent(getKey: KeyOf, deltas: seq<Delta>, prev: KeyedRows, next: KeyedRows, i: nat)
    requires IsDiff(deltas, prev, next) && Distinct(getKey, prev) && i < |deltas| && deltas[i].DeleteDelta?
    requires forall j | 0 <= j < |deltas| && IsUpsert(deltas[j]) :: getKey(deltas[j].row) != getKey(deltas[i].row)
    ensures !HasClientKey(getKey, next, getKey(deltas[i].row))
  {
    UpsertIsNext(deltas, prev, next, i);
    forall k | k in next
      ensures getKey(next[k]) != getKey(deltas[i].row)
    {
      if KeyDelta(prev, next, k).Some? {
        var d := KeyDelta(prev, next, k).value;
        var j :| 0 <= j < |deltas| && deltas[j] == d;
      }
    }
  }

  /** Where the deltas mention a client key, what they amount to is the new result. */
  lemma MentionedIsNext(
    getKey: KeyOf, deltas: seq<Delta>, prev: KeyedRows, next: KeyedRows, x: string, held: Option<Pending>)
    requires IsDiff(deltas, prev, next) && Distinct(getKey, prev) && Distinct(getKey, next)
    requires HoldsAt(getKey, deltas, x, held)
    ensures held.Some? <==> Mentions(getKey, deltas, x)
    ensures held.Some? ==> RowAt(getKey, next, x) == (if held.value.Upsert? then Some(held.value.value) else None)
  {
    hide IsDiff, Distinct, HasClientKey, RowAt;
    if held.Some? && held.value.Upsert? {
      var i :| 0 <= i < |deltas| && IsUpsert(deltas[i]) && getKey(deltas[i].row) == x &&
          deltas[i].row == held.value.value;
      UpsertIsNext(deltas, prev, next, i);
      RowAtKey(getKey, next, deltas[i].key);
    } else if held.Some? {
      var i :| 0 <= i < |deltas| && deltas[i].DeleteDelta? && getKey(deltas[i].row) == x;
      DeletedIsAbsent(getKey, deltas, prev, next, i);
    }
  }

  /**
   What a batch does to a client at rest, whatever it holds: where the deltas mention a client key it ends with
   the new result, and elsewhere with what it had.
   */
  lemma BatchFrom(getKey: KeyOf, c: Client, deltas: seq<Delta>, prev: KeyedRows, next: KeyedRows, x: string)
    requires IsDiff(deltas, prev, next) && AtRest(c) && Distinct(getKey, prev) && Distinct(getKey, next)
    ensures AtRest(AfterBatch(getKey, c, deltas))
    ensures At(AfterBatch(getKey, c, deltas).rows, x) ==
            if Mentions(getKey, deltas, x) then RowAt(getKey, next, x) else At(c.rows, x)
  {
    hide AfterBatch, IsDiff, UpsertsAgree, AtRest, Distinct, HoldsAt, RowAt, Mentions;
    DiffUpsertsAgree(getKey, deltas, prev, next);
    var held := BatchAtKey(getKey, c, deltas, x);
    MentionedIsNext(getKey, deltas, prev, next, x, held);
  }

  /** Where the deltas mention no client key and none is stranded, the result has not changed. */
  lemma UnmentionedStays(getKey: KeyOf, deltas: seq<Delta>, prev: KeyedRows, next: KeyedRows, x: string)
    requires IsDiff(deltas, prev, next) && Distinct(getKey, prev) && Distinct(getKey, next)
    requires NoStrandedKey(getKey, prev, next) && !Mentions(getKey, deltas, x)
    ensures RowAt(getKey, prev, x) == RowAt(getKey, next, x)
  {
    hide RowAt, Distinct, IsDiff;
    forall k | k in prev && getKey(prev[k]) == x
      ensures HasClientKey(getKey, next, x)
    {
      UnmentionedKept(getKey, deltas, prev, next, k);
    }
    if HasClientKey(getKey, next, x) {
      var k :| k in next && getKey(next[k]) == x;
      UnmentionedRow(getKey, deltas, prev, next, k);
      RowAtKey(getKey, prev, k);
      RowAtKey(getKey, next, k);
    }
  }

  lemma UnmentionedKept(getKey: KeyOf, deltas: seq<Delta>, prev: KeyedRows, next: KeyedRows, k: string)
    requires IsDiff(deltas, prev, next) && k in prev && !Mentions(getKey, deltas, getKey(prev[k]))
    ensures k in next
  {
    assert k in next || KeyDelta(prev, next, k) == Some(DeleteDelta(k, prev[k]));
  }

  lemma UnmentionedRow(getKey: KeyOf, deltas: seq<Delta>, prev: KeyedRows, next: KeyedRows, k: string)
    requires IsDiff(deltas, prev, next) && k in next && !Mentions(getKey, deltas, getKey(next[k]))
    ensures k in prev && prev[k] == next[k]
  {
    assert KeyDelta(prev, next, k).Some? ==> KeyDelta(prev, next, k).value in deltas;
  }

  /** A stranded client key is one that no delta mentions. */
  lemma StrandedIsUnmentioned(getKey: KeyOf, deltas: seq<Delta>, prev: KeyedRows, next: KeyedRows, k: string)
    requires IsDiff(deltas, prev, next) && Distinct(getKey, prev) && k in prev && k in next
    requires !HasClientKey(getKey, next, getKey(prev[k]))
    ensures !Mentions(getKey, deltas, getKey(prev[k]))
  {
    forall i | 0 <= i < |deltas|
      ensures getKey(deltas[i].row) != getKey(prev[k])
    {
      UpsertIsNext(deltas, prev, next, i);
    }
  }

  /**
   The mirror theorem. From a mirror of `prev`, the deltas to `next` in any order and the end mark leave the
   driver at rest, and its collection mirrors `next` exactly when no row that survives under its server key
   strands its old client key.
   */
  lemma MirrorBatch(getKey: KeyOf, c: Client, deltas: seq<Delta>, prev: KeyedRows, next: KeyedRows)
    requires IsDiff(deltas, prev, next) && AtRest(c) && Mirrors(getKey, prev, c.rows)
    requires Distinct(getKey, prev) && Distinct(getKey, next)
    ensures AtRest(AfterBatch(getKey, c, deltas))
    ensures Mirrors(getKey, next, AfterBatch(getKey, c, deltas).rows) <==> NoStrandedKey(getKey, prev, next)
  {
    hide AfterBatch, IsDiff, AtRest, Distinct, HasClientKey, Mirrors, Mentions, At;
    var rows := AfterBatch(getKey, c, deltas).rows;
    MirrorsAt(getKey, prev, c.rows);
    MirrorsAt(getKey, next, rows);
    BatchFrom(getKey, c, deltas, prev, next, "");
    forall x
      ensures At(rows, x) == if Mentions(getKey, deltas, x) then RowAt(getKey, next, x) else RowAt(getKey, prev, x)
    {
      BatchFrom(getKey, c, deltas, prev, next, x);
    }
    hide RowAt;
    if NoStrandedKey(getKey, prev, next) {
      forall x
        ensures At(rows, x) == RowAt(getKey, next, x)
      {
        if !Mentions(getKey, deltas, x) {
          UnmentionedStays(getKey, deltas, prev, next, x);
        }
      }
    } else {
      var k :| k in prev && k in next && !HasClientKey(getKey, next, getKey(prev[k]));
      var x := getKey(prev[k]);
      StrandedIsUnmentioned(getKey, deltas, prev, next, k);
      RowAtKey(getKey, prev, k);
      assert At(rows, x) == Some(prev[k]);
      assert At(rows, x) != RowAt(getKey, next, x);
    }
  }

  /** An account row, and a client that keys accounts by an address the user may change. */
  function Account(id: string, email: string): JsonRow {
    JsonRow(map["id" := JsonString(id), "email" := JsonString(email)])
  }

  function EmailOf(row: JsonRow): string {
    if "email" in row.fields then row.fields["email"].text else ""
  }

  /** Changing the address strands the old one: the collection ends with both, under either. */
  lemma EmailStrands(hash: RowHash, c: Client, deltas: seq<Delta>)
    requires AtRest(c) && Mirrors(EmailOf, Keyed(hash, Some("id"), [Account("1", "a")]), c.rows)
    requires IsDiff(deltas, Keyed(hash, Some("id"), [Account("1", "a")]), Keyed(hash, Some("id"), [Account("1", "b")]))
    ensures forall d :: d in deltas <==> d == UpdateDelta("1", Account("1", "b"))
    ensures var rows := AfterBatch(EmailOf, c, deltas).rows;
            && At(rows, "a") == Some(Account("1", "a")) && At(rows, "b") == Some(Account("1", "b"))
            && !Mirrors(EmailOf, Keyed(hash, Some("id"), [Account("1", "b")]), rows)
  {
    hide AfterBatch, Keyed, AtRest, Mirrors, IsDiff;
    var prev, next := Keyed(hash, Some("id"), [Account("1", "a")]), Keyed(hash, Some("id"), [Account("1", "b")]);
    AccountKeyed(hash, "1", "a");
    AccountKeyed(hash, "1", "b");
    assert EmailOf(Account("1", "a")) == "a" && EmailOf(Account("1", "b")) == "b" && "a" != "b";
    OneUpdate(deltas, Account("1", "a"), Account("1", "b"));
    UpdateMentions(EmailOf, deltas, Account("1", "b"), "a");
    UpdateMentions(EmailOf, deltas, Account("1", "b"), "b");
    RowAtKey(EmailOf, prev, "1");
    RowAtKey(EmailOf, next, "1");
    MirrorsAt(EmailOf, prev, c.rows);
    BatchFrom(EmailOf, c, deltas, prev, next, "a");
    BatchFrom(EmailOf, c, deltas, prev, next, "b");
    assert !HasClientKey(EmailOf, next, "a");
    MirrorsAt(EmailOf, next, AfterBatch(EmailOf, c, deltas).rows);
  }

  lemma AccountKeyed(hash: RowHash, id: string, email: string)
    ensures Keyed(hash, Some("id"), [Account(id, email)]) == map[id := Account(id, email)]
  {
    assert [Account(id, email)][..0] == [];
  }

  lemma UpdateMentions(getKey: KeyOf, deltas: seq<Delta>, after: JsonRow, x: string)
    requires forall d :: d in deltas <==> d == UpdateDelta("1", after)
    ensures Mentions(getKey, deltas, x) <==> getKey(after) == x
  {
    assert UpdateDelta("1", after) in deltas;
    forall i | 0 <= i < |deltas|
      ensures deltas[i].row == after
    {
      assert deltas[i] in deltas;
    }
  }

  lemma OneUpdate(deltas: seq<Delta>, before: JsonRow, after: JsonRow)
    requires before != after && IsDiff(deltas, map["1" := before], map["1" := after])
    ensures forall d :: d in deltas <==> d == UpdateDelta("1", after)
  {
    var prev, next := map["1" := before], map["1" := after];
    assert KeyDelta(prev, next, "1") == Some(UpdateDelta("1", after));
    assert UpdateDelta("1", after) in deltas;
    assert forall i | 0 <= i < |deltas| :: deltas[i].key == "1" && deltas[i] == UpdateDelta("1", after);
  }

  /** The usual sufficient condition: equal server keys mean equal client keys. */
  lemma StableKeysNotStranded(getKey: KeyOf, prev: KeyedRows, next: KeyedRows)
    requires forall k | k in prev && k in next :: getKey(prev[k]) == getKey(next[k])
    ensures NoStrandedKey(getKey, prev, next)
  {
  }

  /** Content-hash server keys meet it for any client key, given a hash without collisions. */
  lemma ContentKeysNotStranded(hash: RowHash, getKey: KeyOf, before: seq<JsonRow>, after: seq<JsonRow>)
    requires forall a, b :: hash(a) == hash(b) ==> a == b
    ensures NoStrandedKey(getKey, Keyed(hash, None, before), Keyed(hash, None, after))
  {
    var prev, next := Keyed(hash, None, before), Keyed(hash, None, after);
    forall k | k in prev && k in next
      ensures getKey(prev[k]) == getKey(next[k])
    {
      var i := KeyedOrigin(hash, None, before, k);
      var j := KeyedOrigin(hash, None, after, k);
      assert hash(prev[k]) == hash(next[k]);
    }
    StableKeysNotStranded(getKey, prev, next);
  }

  /** Server and client keys identify the same rows of one result. */
  ghost predicate KeysAgree(hash: RowHash, pk: Option<string>, getKey: KeyOf, rows: seq<JsonRow>) {
    forall i, j | 0 <= i < |rows| && 0 <= j < |rows| ::
      RowKey(hash, pk, rows[i]) == RowKey(hash, pk, rows[j]) <==> getKey(rows[i]) == getKey(rows[j])
  }

  /** A keyed result whose keys agree is told apart by the client key. */
  lemma AgreeingKeysDistinct(hash: RowHash, pk: Option<string>, getKey: KeyOf, rows: seq<JsonRow>)
    requires KeysAgree(hash, pk, getKey, rows)
    ensures Distinct(getKey, Keyed(hash, pk, rows))
  {
    var m := Keyed(hash, pk, rows);
    forall j, k | j in m && k in m && j != k
      ensures getKey(m[j]) != getKey(m[k])
    {
      var a := KeyedOrigin(hash, pk, rows, j);
      var b := KeyedOrigin(hash, pk, rows, k);
    }
  }

  lemma {:induction false} InsertedRow(getKey: KeyOf, rows: seq<JsonRow>, i: nat)
    requires i < |rows| && forall j | i < j < |rows| :: getKey(rows[j]) != getKey(rows[i])
    ensures getKey(rows[i]) in InsertRows(getKey, map[], rows) &&
        InsertRows(getKey, map[], rows)[getKey(rows[i])] == rows[i]
  {
    var n := |rows| - 1;
    if i < n {
      assert forall j | 0 <= j < n :: rows[..n][j] == rows[j];
      InsertedRow(getKey, rows[..n], i);
    }
  }

  lemma {:induction false} InsertedKeys(getKey: KeyOf, rows: seq<JsonRow>)
    ensures InsertRows(getKey, map[], rows).Keys == KeySet(getKey, rows)
  {
    if rows != [] {
      var n := |rows| - 1;
      InsertedKeys(getKey, rows[..n]);
      assert rows == rows[..n] + [rows[n]];
      assert KeySet(getKey, rows) == KeySet(getKey, rows[..n]) + {getKey(rows[n])};
    }
  }

  /** A snapshot loaded into an empty mirror leaves the driver at rest with the server's keyed result. */
  lemma MirrorSnapshot(hash: RowHash, pk: Option<string>, getKey: KeyOf, rows: seq<JsonRow>)
    requires KeysAgree(hash, pk, getKey, rows)
    ensures var c := OnFrame(getKey, FullRows, EMPTY_CLIENT, SnapshotFrame(rows));
            AtRest(c) && Mirrors(getKey, Keyed(hash, pk, rows), c.rows)
  {
    InsertedKeys(getKey, rows);
    var m, mirror := Keyed(hash, pk, rows), InsertRows(getKey, map[], rows);
    forall k | k in m
      ensures getKey(m[k]) in mirror && mirror[getKey(m[k])] == m[k]
    {
      var i := KeyedOrigin(hash, pk, rows, k);
      InsertedRow(getKey, rows, i);
    }
    forall x | x in mirror
      ensures HasClientKey(getKey, m, x)
    {
      var i :| 0 <= i < |rows| && getKey(rows[i]) == x;
      SnapshotRowKept(hash, pk, getKey, rows, i);
    }
  }

  /** The keyed result keeps some row under the server key, hence the client key, of every snapshot row. */
  lemma SnapshotRowKept(hash: RowHash, pk: Option<string>, getKey: KeyOf, rows: seq<JsonRow>, i: nat)
    requires KeysAgree(hash, pk, getKey, rows) && i < |rows|
    ensures HasClientKey(getKey, Keyed(hash, pk, rows), getKey(rows[i]))
    decreases |rows| - i
  {
    if j :| i < j < |rows| && RowKey(hash, pk, rows[j]) == RowKey(hash, pk, rows[i]) {
      SnapshotRowKept(hash, pk, getKey, rows, j);
    } else {
      KeyedLast(hash, pk, rows, i);
    }
  }
}

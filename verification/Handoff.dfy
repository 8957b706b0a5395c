/**
 Moving the two legacy ledgers into the current ones inside a single transaction. A ledger maps a key to a
 payload (a checksum, or a list of tables) and a time stamp; a legacy table is a list of rows whose keys need
 not be unique and whose payload may be NULL.
 */
module Handoff {
  import opened Text

  datatype LedgerRow<V> = LedgerRow(payload: V, appliedAt: string)

  datatype LegacyRow<K, V> = LegacyRow(key: K, payload: Option<V>, appliedAt: string)

  datatype Statement = FindConflicts | InsertRows | CountSource | CountCopied | DropLegacy

  datatype HandoffError = StatementFailed | Conflicts | Miscounted | CommitFailed

  /** `coalesce(payload, default)`; a ledger without a default has a NOT NULL payload. */
  function Coalesce<V>(payload: Option<V>, default: Option<V>): Option<V> {
    if payload.Some? then payload else default
  }

  /** A legacy row and a current row share a key and disagree on a known payload. */
  predicate HasConflict<K(==), V(==)>(current: map<K, LedgerRow<V>>, rows: seq<LegacyRow<K, V>>, default: Option<V>) {
    exists i | 0 <= i < |rows| ::
      && rows[i].key in current
      && Coalesce(rows[i].payload, default).Some?
      && current[rows[i].key].payload != Coalesce(rows[i].payload, default).value
  }

  /** `INSERT … SELECT … ON CONFLICT DO NOTHING`; fails on a NULL that has no default. */
  function Inserted<K, V>(
    current: map<K, LedgerRow<V>>, rows: seq<LegacyRow<K, V>>, default: Option<V>): Option<map<K, LedgerRow<V>>> {
    if rows == [] then Some(current)
    else
      var n := |rows| - 1;
      match Inserted(current, rows[..n], default)
      case None => None
      case Some(ledger) =>
        var payload := Coalesce(rows[n].payload, default);
        if payload.None? then None
        else if rows[n].key in ledger then Some(ledger)
        else Some(ledger[rows[n].key := LedgerRow(payload.value, rows[n].appliedAt)])
  }

  function KeySet<K, V>(rows: seq<LegacyRow<K, V>>): set<K> {
    set i | 0 <= i < |rows| :: rows[i].key
  }

  /** The current rows whose key occurs in the legacy table, as the check after the insert counts them. */
  function Copied<K, V>(ledger: map<K, LedgerRow<V>>, rows: seq<LegacyRow<K, V>>): nat {
    |set key | key in ledger && key in KeySet(rows)|
  }

  /** One ledger's share of the transaction. */
  function Moved<K, V(==)>(
    responds: Statement -> bool, current: map<K, LedgerRow<V>>, legacy: Option<seq<LegacyRow<K, V>>>, default: Option<V>
  ): Result<map<K, LedgerRow<V>>, HandoffError>
  {
    if legacy.None? then Ok(current)
    else if !responds(FindConflicts) then Err(StatementFailed)
    else if HasConflict(current, legacy.value, default) then Err(Conflicts)
    else if !responds(InsertRows) then Err(StatementFailed)
    else
      match Inserted(current, legacy.value, default)
      case None => Err(StatementFailed)
      case Some(ledger) =>
        if !responds(CountSource) || !responds(CountCopied) then Err(StatementFailed)
        else if Copied(ledger, legacy.value) != |legacy.value| then Err(Miscounted)
        else if !responds(DropLegacy) then Err(StatementFailed)
        else Ok(ledger)
  }

  // ---------------------------------------------------------------------------------------------
  // What the move means, without the statements.
  // ---------------------------------------------------------------------------------------------

  ghost predicate UniqueKeys<K, V>(rows: seq<LegacyRow<K, V>>) {
    forall i, j | 0 <= i < j < |rows| :: rows[i].key != rows[j].key
  }

  /** A caller can check this beforehand: unique keys, payloads known, and agreement on shared keys. */
  ghost predicate Movable<K, V>(
    current: map<K, LedgerRow<V>>, legacy: Option<seq<LegacyRow<K, V>>>, default: Option<V>) {
    legacy.Some? ==>
      && UniqueKeys(legacy.value)
      && (forall i | 0 <= i < |legacy.value| :: Coalesce(legacy.value[i].payload, default).Some?)
      && forall i | 0 <= i < |legacy.value| && legacy.value[i].key in current ::
           current[legacy.value[i].key].payload == Coalesce(legacy.value[i].payload, default).value
  }

  /**
   Current rows stay exactly as they are; each legacy row is present with its payload, new ones with their time
   stamp.
   */
  ghost predicate IsUnion<K, V>(
    current: map<K, LedgerRow<V>>, legacy: Option<seq<LegacyRow<K, V>>>, default: Option<V>,
    ledger: map<K, LedgerRow<V>>)
  {
    var rows := if legacy.Some? then legacy.value else [];
    && ledger.Keys == current.Keys + KeySet(rows)
    && (forall key | key in current :: key in ledger && ledger[key] == current[key])
    && (forall i | 0 <= i < |rows| ::
          && rows[i].key in ledger
          && Some(ledger[rows[i].key].payload) == Coalesce(rows[i].payload, default)
          && (rows[i].key !in current ==> ledger[rows[i].key].appliedAt == rows[i].appliedAt))
  }

  ghost predicate AllRespond(responds: Statement -> bool) {
    responds(FindConflicts) && responds(InsertRows) && responds(CountSource) && responds(CountCopied) &&
        responds(DropLegacy)
  }

  lemma KeySetStep<K, V>(rows: seq<LegacyRow<K, V>>)
    requires rows != []
    ensures KeySet(rows) == KeySet(rows[..|rows| - 1]) + {rows[|rows| - 1].key}
  {
    var n := |rows| - 1;
    forall key | key in KeySet(rows[..n])
      ensures key in KeySet(rows)
    {
      var i :| 0 <= i < n && rows[..n][i].key == key;
      assert rows[i].key == key;
    }
    forall key | key in KeySet(rows)
      ensures key in KeySet(rows[..n]) + {rows[n].key}
    {
      var i :| 0 <= i < |rows| && rows[i].key == key;
      if i < n {
        assert rows[..n][i].key == key;
      }
    }
  }

  lemma UniqueStep<K, V>(rows: seq<LegacyRow<K, V>>)
    ensures rows == [] ==> UniqueKeys(rows) && KeySet(rows) == {}
    ensures rows != [] ==>
      var n := |rows| - 1;
      UniqueKeys(rows) <==> UniqueKeys(rows[..n]) && rows[n].key !in KeySet(rows[..n])
  {
    if rows != [] {
      var n := |rows| - 1;
      assert forall i | 0 <= i < n :: rows[i].key == rows[..n][i].key && rows[i].key in KeySet(rows[..n]);
    }
  }

  /** A list has as many distinct keys as rows exactly when its keys are unique. */
  lemma {:induction false} CountsUnique<K, V>(rows: seq<LegacyRow<K, V>>)
    ensures |KeySet(rows)| <= |rows|
    ensures |KeySet(rows)| == |rows| <==> UniqueKeys(rows)
  {
    hide KeySet, UniqueKeys;
    UniqueStep(rows);
    if rows != [] {
      var n := |rows| - 1;
      CountsUnique(rows[..n]);
      KeySetStep(rows);
      if rows[n].key in KeySet(rows[..n]) {
        assert KeySet(rows) == KeySet(rows[..n]);
      }
    }
  }

  /** The insert succeeds exactly when every payload is known, keeps every current row, and adds every legacy key. */
  lemma {:induction false} InsertedContents<K, V>(
    current: map<K, LedgerRow<V>>, rows: seq<LegacyRow<K, V>>, default: Option<V>)
    ensures var r := Inserted(current, rows, default);
      && (r.Some? <==> forall i | 0 <= i < |rows| :: Coalesce(rows[i].payload, default).Some?)
      && (r.Some? ==> r.value.Keys == current.Keys + KeySet(rows))
      && (r.Some? ==> forall key | key in current :: r.value[key] == current[key])
  {
    if rows != [] {
      var n := |rows| - 1;
      InsertedContents(current, rows[..n], default);
      KeySetStep(rows);
    }
  }

  /** With unique keys, a legacy row whose key was absent arrives whole. */
  lemma {:induction false} InsertedNewRow<K, V>(
    current: map<K, LedgerRow<V>>, rows: seq<LegacyRow<K, V>>, default: Option<V>, i: nat)
    requires Inserted(current, rows, default).Some? && UniqueKeys(rows) && i < |rows| && rows[i].key !in current
    ensures var ledger := Inserted(current, rows, default).value;
      && rows[i].key in ledger
      && Some(ledger[rows[i].key].payload) == Coalesce(rows[i].payload, default)
      && ledger[rows[i].key].appliedAt == rows[i].appliedAt
  {
    var n := |rows| - 1;
    if i < n {
      InsertedNewRow(current, rows[..n], default, i);
    } else {
      InsertedContents(current, rows[..n], default);
      assert rows[n].key !in KeySet(rows[..n]);
    }
  }

  /** The count compared with the source is the number of distinct legacy keys. */
  lemma CopiedIsDistinctKeys<K, V>(current: map<K, LedgerRow<V>>, rows: seq<LegacyRow<K, V>>, default: Option<V>)
    requires Inserted(current, rows, default).Some?
    ensures Copied(Inserted(current, rows, default).value, rows) == |KeySet(rows)|
  {
    InsertedContents(current, rows, default);
    var ledger := Inserted(current, rows, default).value;
    assert (set key | key in ledger && key in KeySet(rows)) == KeySet(rows);
  }

  /** The move of one ledger succeeds exactly when the rows are movable and the database answers. */
  lemma MovedIff<K, V>(
    responds: Statement -> bool, current: map<K, LedgerRow<V>>, legacy: Option<seq<LegacyRow<K, V>>>,
    default: Option<V>)
    ensures Moved(responds, current, legacy, default).Ok? <==>
        (legacy.Some? ==> AllRespond(responds)) && Movable(current, legacy, default)
  {
    hide Inserted, Copied, KeySet, UniqueKeys;
    if legacy.Some? {
      var rows := legacy.value;
      InsertedContents(current, rows, default);
      CountsUnique(rows);
      if Inserted(current, rows, default).Some? {
        CopiedIsDistinctKeys(current, rows, default);
      }
    }
  }

  /** With unique legacy keys the row counts always agree: that abort is unreachable. */
  lemma UniqueNeverMiscounts<K, V>(
    responds: Statement -> bool, current: map<K, LedgerRow<V>>, legacy: Option<seq<LegacyRow<K, V>>>,
    default: Option<V>)
    requires legacy.Some? ==> UniqueKeys(legacy.value)
    ensures Moved(responds, current, legacy, default) != Err(Miscounted)
  {
    hide Inserted, Copied, KeySet, UniqueKeys;
    if legacy.Some? && Inserted(current, legacy.value, default).Some? {
      CountsUnique(legacy.value);
      CopiedIsDistinctKeys(current, legacy.value, default);
    }
  }

  /** A successful move is the union. */
  lemma MovedIsUnion<K, V>(
    responds: Statement -> bool, current: map<K, LedgerRow<V>>, legacy: Option<seq<LegacyRow<K, V>>>,
    default: Option<V>)
    requires Moved(responds, current, legacy, default).Ok?
    ensures IsUnion(current, legacy, default, Moved(responds, current, legacy, default).value)
  {
    hide Inserted, Copied;
    MovedIff(responds, current, legacy, default);
    if legacy.Some? {
      var rows := legacy.value;
      InsertedContents(current, rows, default);
      var ledger := Inserted(current, rows, default).value;
      forall i | 0 <= i < |rows|
        ensures && rows[i].key in ledger
                && Some(ledger[rows[i].key].payload) == Coalesce(rows[i].payload, default)
                && (rows[i].key !in current ==> ledger[rows[i].key].appliedAt == rows[i].appliedAt)
      {
        assert rows[i].key in KeySet(rows);
        if rows[i].key !in current {
          InsertedNewRow(current, rows, default, i);
        }
      }
    }
  }

  /** The legacy row's payload, once NULL is replaced, differs from the current row of the same key. */
  ghost predicate Disagrees<K, V>(current: map<K, LedgerRow<V>>, row: LegacyRow<K, V>, default: Option<V>) {
    row.key in current &&
    match (row.payload, default)
    case (Some(known), _) => current[row.key].payload != known
    case (None, Some(filler)) => current[row.key].payload != filler
    case (None, None) => false
  }

  /** Each error of a move and its cause: a disagreement, a repeated key, or a statement that did not answer. */
  lemma MovedErrors<K, V>(
    responds: Statement -> bool, current: map<K, LedgerRow<V>>, legacy: Option<seq<LegacyRow<K, V>>>,
    default: Option<V>)
    requires legacy.Some?
    ensures var r, rows := Moved(responds, current, legacy, default), legacy.value;
      var conflict := responds(FindConflicts) && exists i | 0 <= i < |rows| :: Disagrees(current, rows[i], default);
      var counted :=
        && !conflict && responds(FindConflicts) && responds(InsertRows) && responds(CountSource)
        && responds(CountCopied) && (default.Some? || forall i | 0 <= i < |rows| :: rows[i].payload.Some?);
      && (r == Err(Conflicts) <==> conflict)
      && (r == Err(Miscounted) <==> counted && !UniqueKeys(rows))
      && (r == Err(StatementFailed) <==> !conflict && !(counted && (!UniqueKeys(rows) || responds(DropLegacy))))
      && r != Err(CommitFailed)
  {
    hide Inserted, Copied, KeySet, UniqueKeys;
    var rows := legacy.value;
    InsertedContents(current, rows, default);
    CountsUnique(rows);
    if Inserted(current, rows, default).Some? {
      CopiedIsDistinctKeys(current, rows, default);
    }
    forall i | 0 <= i < |rows|
      ensures Coalesce(rows[i].payload, default).Some? <==> default.Some? || rows[i].payload.Some?
      ensures Disagrees(current, rows[i], default) <==>
              && rows[i].key in current && Coalesce(rows[i].payload, default).Some?
              && current[rows[i].key].payload != Coalesce(rows[i].payload, default).value
    {
    }
    assert HasConflict(current, rows, default) <==>
        exists i | 0 <= i < |rows| :: Disagrees(current, rows[i], default);
  }

  // ---------------------------------------------------------------------------------------------
  // The transaction.
  // ---------------------------------------------------------------------------------------------

  type MigrationKey = (string, string, string)
  type SchemaKey = (string, string)

  /** Both ledgers and both legacy tables, which may be absent. */
  datatype Tables = Tables(
    migrations: map<MigrationKey, LedgerRow<string>>,
    schemas: map<SchemaKey, LedgerRow<seq<string>>>,
    legacyMigrations: Option<seq<LegacyRow<MigrationKey, string>>>,
    legacySchemas: Option<seq<LegacyRow<SchemaKey, seq<string>>>>)

  /** Whether each statement of the transaction succeeds. */
  datatype Env = Env(
    opens: bool, probes: bool, migrations: Statement -> bool, schemas: Statement -> bool, commits: bool)

  const NO_DEFAULT: Option<string> := None
  const EMPTY_TABLES: Option<seq<string>> := Some([])

  /** Everything the handoff needs of the two ledgers. */
  ghost predicate Ready(t: Tables) {
    Movable(t.migrations, t.legacyMigrations, NO_DEFAULT) && Movable(t.schemas, t.legacySchemas, EMPTY_TABLES)
  }

  /**
   Said outright: keys are unique, every checksum is known, and rows that share a key agree, where a missing list
   of tables stands for the empty one.
   */
  lemma ReadyExactly(t: Tables)
    ensures Ready(t) <==>
      && (t.legacyMigrations.Some? ==>
            var rows := t.legacyMigrations.value;
            && UniqueKeys(rows)
            && forall i | 0 <= i < |rows| ::
                 && rows[i].payload.Some?
                 && (rows[i].key in t.migrations ==> t.migrations[rows[i].key].payload == rows[i].payload.value))
      && (t.legacySchemas.Some? ==>
            var rows := t.legacySchemas.value;
            && UniqueKeys(rows)
            && forall i | 0 <= i < |rows| && rows[i].key in t.schemas ::
                 t.schemas[rows[i].key].payload == if rows[i].payload.Some? then rows[i].payload.value else [])
  {
    hide UniqueKeys;
  }

  /**
   After a handoff a legacy row with a payload has it in the current ledger, and a missing list of tables is
   empty.
   */
  lemma PayloadsArrive(before: Tables, after: Tables)
    requires HandedOff(before, after)
    ensures before.legacyMigrations.Some? ==>
      var rows := before.legacyMigrations.value;
      forall i | 0 <= i < |rows| ::
        rows[i].key in after.migrations && rows[i].payload == Some(after.migrations[rows[i].key].payload)
    ensures before.legacySchemas.Some? ==>
      var rows := before.legacySchemas.value;
      forall i | 0 <= i < |rows| ::
        && rows[i].key in after.schemas
        && (rows[i].payload.Some? ==> after.schemas[rows[i].key].payload == rows[i].payload.value)
        && (rows[i].payload.None? ==> after.schemas[rows[i].key].payload == [])
  {
    hide IsUnion;
    if before.legacyMigrations.Some? {
      forall i | 0 <= i < |before.legacyMigrations.value| {
        UnionHas(before.migrations, before.legacyMigrations.value, NO_DEFAULT, after.migrations, i);
      }
    }
    if before.legacySchemas.Some? {
      forall i | 0 <= i < |before.legacySchemas.value| {
        UnionHas(before.schemas, before.legacySchemas.value, EMPTY_TABLES, after.schemas, i);
      }
    }
  }

  lemma UnionHas<K, V>(
    current: map<K, LedgerRow<V>>, rows: seq<LegacyRow<K, V>>, default: Option<V>, ledger: map<K, LedgerRow<V>>, i: nat)
    requires IsUnion(current, Some(rows), default, ledger) && i < |rows|
    ensures rows[i].key in ledger && Some(ledger[rows[i].key].payload) == Coalesce(rows[i].payload, default)
  {
  }

  /** The error of the first part that fails. */
  ghost function Verdict(env: Env, t: Tables): Result<(), HandoffError> {
    if !env.opens || !env.probes then Err(StatementFailed)
    else
      match Moved(env.migrations, t.migrations, t.legacyMigrations, NO_DEFAULT)
      case Err(error) => Err(error)
      case Ok(_) =>
        match Moved(env.schemas, t.schemas, t.legacySchemas, EMPTY_TABLES)
        case Err(error) => Err(error)
        case Ok(_) => if env.commits then Ok(()) else Err(CommitFailed)
  }

  ghost predicate Answers(env: Env, t: Tables) {
    && env.opens && env.probes && env.commits
    && (t.legacyMigrations.Some? ==> AllRespond(env.migrations))
    && (t.legacySchemas.Some? ==> AllRespond(env.schemas))
  }

  /** The tables after a successful handoff. */
  ghost predicate HandedOff(before: Tables, after: Tables) {
    && IsUnion(before.migrations, before.legacyMigrations, NO_DEFAULT, after.migrations)
    && IsUnion(before.schemas, before.legacySchemas, EMPTY_TABLES, after.schemas)
    && after.legacyMigrations.None? && after.legacySchemas.None?
  }

  /** The insert, row by row. */
  method InsertLegacy<K(==), V>(current: map<K, LedgerRow<V>>, rows: seq<LegacyRow<K, V>>, default: Option<V>)
    returns (r: Option<map<K, LedgerRow<V>>>)
    ensures r == Inserted(current, rows, default)
  {
    var ledger := current;
    for i := 0 to |rows|
      invariant Inserted(current, rows[..i], default) == Some(ledger)
    {
      assert rows[..i + 1][..i] == rows[..i];
      var payload := Coalesce(rows[i].payload, default);
      if payload.None? {
        InsertedContents(current, rows, default);
        return None;
      }
      if rows[i].key !in ledger {
        ledger := ledger[rows[i].key := LedgerRow(payload.value, rows[i].appliedAt)];
      }
    }
    assert rows[..|rows|] == rows;
    return Some(ledger);
  }

  method MoveLedger<K(==), V(==)>(
    responds: Statement -> bool, current: map<K, LedgerRow<V>>, legacy: Option<seq<LegacyRow<K, V>>>,
    default: Option<V>)
    returns (r: Result<map<K, LedgerRow<V>>, HandoffError>)
    ensures r == Moved(responds, current, legacy, default)
  {
    if legacy.None? {
      return Ok(current);
    }
    if !responds(FindConflicts) {
      return Err(StatementFailed);
    }
    if HasConflict(current, legacy.value, default) {
      return Err(Conflicts);
    }
    if !responds(InsertRows) {
      return Err(StatementFailed);
    }
    var inserted := InsertLegacy(current, legacy.value, default);
    if inserted.None? || !responds(CountSource) || !responds(CountCopied) {
      return Err(StatementFailed);
    }
    if Copied(inserted.value, legacy.value) != |legacy.value| {
      return Err(Miscounted);
    }
    if !responds(DropLegacy) {
      return Err(StatementFailed);
    }
    return Ok(inserted.value);
  }

  class LedgerDatabase {
    var tables: Tables

    constructor (initial: Tables)
      ensures tables == initial
    {
      tables := initial;
    }

    /**
     Atomic and exact: it succeeds if and only if the database answers and both ledgers are ready; then the
     ledgers are the unions and the legacy tables are gone, and otherwise nothing has changed.
     */
    method HandoffLegacyLedgers(env: Env) returns (r: Result<(), HandoffError>)
      modifies this
      ensures r.Ok? <==> Answers(env, old(tables)) && Ready(old(tables))
      ensures r.Ok? ==> HandedOff(old(tables), tables)
      ensures r.Err? ==> tables == old(tables) && r == Verdict(env, old(tables))
    {
      hide Moved, Movable, IsUnion, AllRespond;
      var saved := tables;
      if !env.opens {
        return Err(StatementFailed);
      }
      r := Transfer(env);
      if r.Ok? && !env.commits {
        r := Err(CommitFailed);
      }
      if r.Err? {
        tables := saved;
      }
    }

    /** The statements inside the transaction; on an error the tables may be left half moved. */
    method Transfer(env: Env) returns (r: Result<(), HandoffError>)
      modifies this
      ensures r.Ok? <==> Answers(env.(opens := true, commits := true), old(tables)) && Ready(old(tables))
      ensures r.Ok? ==> HandedOff(old(tables), tables)
      ensures r == Verdict(env.(opens := true, commits := true), old(tables))
    {
      hide Moved, Movable, IsUnion, AllRespond;
      if !env.probes {
        return Err(StatementFailed);
      }
      MovedIff(env.migrations, tables.migrations, tables.legacyMigrations, NO_DEFAULT);
      MovedIff(env.schemas, tables.schemas, tables.legacySchemas, EMPTY_TABLES);
      var migrations := MoveLedger(env.migrations, tables.migrations, tables.legacyMigrations, NO_DEFAULT);
      if migrations.Err? {
        return Err(migrations.error);
      }
      MovedIsUnion(env.migrations, tables.migrations, tables.legacyMigrations, NO_DEFAULT);
      tables := tables.(migrations := migrations.value, legacyMigrations := None);
      var schemas := MoveLedger(env.schemas, tables.schemas, tables.legacySchemas, EMPTY_TABLES);
      if schemas.Err? {
        return Err(schemas.error);
      }
      MovedIsUnion(env.schemas, tables.schemas, tables.legacySchemas, EMPTY_TABLES);
      tables := tables.(schemas := schemas.value, legacySchemas := None);
      return Ok(());
    }
  }

  lemma UnionWithNothing<K, V>(current: map<K, LedgerRow<V>>, default: Option<V>, ledger: map<K, LedgerRow<V>>)
    ensures IsUnion(current, None, default, ledger) <==> ledger == current
  {
    var none: seq<LegacyRow<K, V>> := [];
    assert KeySet(none) == {};
    if ledger == current {
      assert ledger.Keys == current.Keys + KeySet(none);
    }
  }

  /** After a handoff the next one is ready, and it can only leave the tables as they are. */
  lemma RerunIsNoOp(before: Tables, after: Tables, again: Tables)
    requires HandedOff(before, after)
    ensures Ready(after)
    ensures HandedOff(after, again) <==> again == after
  {
    hide IsUnion;
    UnionWithNothing(after.migrations, NO_DEFAULT, again.migrations);
    UnionWithNothing(after.schemas, EMPTY_TABLES, again.schemas);
  }
}

/**
 The replicated database as a sequence of commits over a base state, and the hypothesis that ties
 each commit's real effect to the change records that the replication stream carries for it.
 */
module Database {
  import opened Text
  import opened ChangeLog
  import opened VersionIndex

  /** Rows by physical identity. */
  type Table = map<nat, Row>

  /** Tables by folded name. */
  type Db = map<string, Table>

  datatype Effect =
    | InsertRow(table: string, id: nat, row: Row)
    | UpdateRow(table: string, id: nat, row: Row)
    | DeleteRow(table: string, id: nat)
    | TruncateTable(table: string)

  /** A transaction as reported, with what it did, one effect for each change. */
  datatype Commit = Commit(txn: Txn, effects: seq<Effect>)

  datatype History = History(base: Db, log: seq<Commit>)

  function TableOf(db: Db, table: string): Table {
    if table in db then db[table] else map[]
  }

  function ApplyEffect(db: Db, e: Effect): Db {
    var t := TableOf(db, e.table);
    match e
    case InsertRow(table, id, row) => db[table := t[id := row]]
    case UpdateRow(table, id, row) => db[table := t[id := row]]
    case DeleteRow(table, id) => db[table := t - {id}]
    case TruncateTable(table) => db[table := map[]]
  }

  function ApplyEffects(db: Db, effects: seq<Effect>): Db {
    if effects == [] then db
    else ApplyEffect(ApplyEffects(db, effects[..|effects| - 1]), effects[|effects| - 1])
  }

  /** The database after the first `k` commits. */
  function DbAt(h: History, k: nat): Db
    requires k <= |h.log|
  {
    if k == 0 then h.base else ApplyEffects(DbAt(h, k - 1), h.log[k - 1].effects)
  }

  function Txns(log: seq<Commit>): seq<Txn> {
    seq(|log|, i requires 0 <= i < |log| => log[i].txn)
  }

  /** The folded (column, text) pairs of a row's non-null columns. */
  function Texts(row: Row): set<Filter> {
    set f | f in FoldColumns(NonNull(row))
  }

  /**
   What replica identity makes an update carry. A FULL table carries the whole old row, and the new
   row except for columns that did not change. A keyed table carries the new key, and the old key
   unless it did not change.
   */
  ghost predicate UpdateReported(cfg: Config, table: string, before: Row, after: Row, key: Row, row: Row) {
    if table in cfg.full then key == before && Texts(after) <= Texts(key) + Texts(row)
    else if table in cfg.pk then
      var pk := cfg.pk[table];
      && FindValue(row, pk) == FindValue(after, pk)
      && (FindValue(key, pk) == FindValue(before, pk) ||
          (FindValue(key, pk) == None && FindValue(before, pk) == FindValue(after, pk)))
    else true
  }

  ghost predicate DeleteReported(cfg: Config, table: string, before: Row, key: Row) {
    if table in cfg.full then key == before
    else if table in cfg.pk then FindValue(key, cfg.pk[table]) == FindValue(before, cfg.pk[table])
    else true
  }

  /** Rows are inserted where there was none, and updated or deleted where there was one. */
  predicate Possible(db: Db, e: Effect) {
    match e
    case InsertRow(table, id, _) => id !in TableOf(db, table)
    case UpdateRow(table, id, _) => id in TableOf(db, table)
    case DeleteRow(table, id) => id in TableOf(db, table)
    case TruncateTable(_) => true
  }

  /** The effect writes only rows that the table's column types can hold. */
  predicate StorableEffect(cfg: Config, e: Effect) {
    match e
    case InsertRow(table, _, row) => cfg.storable(table, row)
    case UpdateRow(table, _, row) => cfg.storable(table, row)
    case _ => true
  }

  ghost predicate StorableDb(cfg: Config, db: Db) {
    forall t, id | t in db && id in db[t] :: cfg.storable(t, db[t][id])
  }

  /**
   The change record describes this effect on this database. A truncate record describes any effect on its
   table: an embedded primary reports every write that way.
   */
  ghost predicate Reports(cfg: Config, db: Db, e: Effect, change: RowChange) {
    && Lower(change.table) == e.table && Possible(db, e) && StorableEffect(cfg, e)
    && (change.Truncate? ||
        match e
        case InsertRow(_, _, row) => change.Insert? && change.row == row
        case UpdateRow(table, id, row) =>
          change.Update? && UpdateReported(cfg, table, TableOf(db, table)[id], row, change.key, change.row)
        case DeleteRow(table, id) => change.Delete? && DeleteReported(cfg, table, TableOf(db, table)[id], change.key)
        case TruncateTable(_) => false)
  }

  ghost predicate ReportsCommit(cfg: Config, db: Db, c: Commit) {
    && |c.effects| == |c.txn.changes|
    && forall n | 0 <= n < |c.effects| :: Reports(cfg, ApplyEffects(db, c.effects[..n]), c.effects[n], c.txn.changes[n])
  }

  /** Every commit is reported, every row is storable, and LSNs are positive and strictly increasing. */
  ghost predicate ValidHistory(cfg: Config, h: History) {
    && StorableDb(cfg, h.base)
    && (forall k | 0 <= k < |h.log| :: ReportsCommit(cfg, DbAt(h, k), h.log[k]) && h.log[k].txn.lsn > 0)
    && (forall i, j | 0 <= i < j < |h.log| :: h.log[i].txn.lsn < h.log[j].txn.lsn)
  }

  /** A later commit does not change what earlier prefixes held. */
  lemma {:induction false} DbAtExtends(h: History, more: seq<Commit>, k: nat)
    requires k <= |h.log|
    ensures DbAt(History(h.base, h.log + more), k) == DbAt(h, k)
  {
    if k > 0 {
      DbAtExtends(h, more, k - 1);
    }
  }

  lemma EffectKeepsStorable(cfg: Config, db: Db, e: Effect)
    requires StorableDb(cfg, db) && StorableEffect(cfg, e)
    ensures StorableDb(cfg, ApplyEffect(db, e))
  {
  }

  lemma {:induction false} EffectsStorable(cfg: Config, db: Db, c: Commit, n: nat)
    requires StorableDb(cfg, db) && ReportsCommit(cfg, db, c) && n <= |c.effects|
    ensures StorableDb(cfg, ApplyEffects(db, c.effects[..n]))
  {
    hide StorableDb, ApplyEffect, UpdateReported, DeleteReported, Possible;
    if n > 0 {
      assert c.effects[..n][..n - 1] == c.effects[..n - 1];
      EffectsStorable(cfg, db, c, n - 1);
      EffectKeepsStorable(cfg, ApplyEffects(db, c.effects[..n - 1]), c.effects[n - 1]);
    }
  }

  /** Every row a valid history ever stores is storable. */
  lemma {:induction false} DbAtStorable(cfg: Config, h: History, k: nat)
    requires ValidHistory(cfg, h) && k <= |h.log|
    ensures StorableDb(cfg, DbAt(h, k))
  {
    hide StorableDb, ReportsCommit;
    if k > 0 {
      DbAtStorable(cfg, h, k - 1);
      var c := h.log[k - 1];
      assert c.effects[..|c.effects|] == c.effects;
      EffectsStorable(cfg, DbAt(h, k - 1), c, |c.effects|);
    }
  }
}

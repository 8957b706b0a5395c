/**
 When an unchanged version really means unchanged data. The main theorem gives the exact condition
 on a query, for all histories; canonical column text establishes it for row-anchored queries.
 */
module Invalidation {
  import opened Text
  import opened ChangeLog
  import opened VersionIndex
  import opened Anchors
  import opened Database
  import opened Queries

  /** The version the index reports for a query once it has received the first `k` commits. */
  ghost function VersionAt(cfg: Config, h: History, q: Query, k: nat): nat
    requires k <= |h.log|
  {
    QueryVersion(cfg, IndexOf(cfg, Txns(h.log[..k])), q)
  }

  ghost function ViewAt(logic: Logic, h: History, q: Query, k: nat): View
    requires WellFormed(q) && k <= |h.log|
  {
    ViewOf(logic, q, DbAt(h, k))
  }

  /** Over every history, two prefixes with the same version show the query the same rows. */
  ghost predicate Sound(cfg: Config, logic: Logic, q: Query)
    requires WellFormed(q)
  {
    forall h, i, j | ValidHistory(cfg, h) && 0 <= i <= j <= |h.log| &&
        VersionAt(cfg, h, q, i) == VersionAt(cfg, h, q, j) ::
      ViewAt(logic, h, q, i) == ViewAt(logic, h, q, j)
  }

  /** Inserting this row moves the watermark. */
  predicate Tracked(cfg: Config, key: ValueKey, row: Row) {
    (key.1, key.2) in ReportedValues(cfg, Insert(key.0, row))
  }

  /** A row that the table can hold and the query can see there. */
  ghost predicate Visible(cfg: Config, logic: Logic, q: Query, table: string, row: Row) {
    table in Scans(q) && cfg.storable(table, row) && (q.direct ==> Matches(logic, q, row))
  }

  /** Inserting this row into this table moves the query's version. */
  predicate Moves(cfg: Config, q: Query, table: string, row: Row) {
    && table in Tables(q)
    && match QueryAnchor(cfg, q)
       case None => true
       case Some(key) => key.0 == table && Tracked(cfg, key, row)
  }

  /** Every row the query could see moves its version. */
  ghost predicate Covered(cfg: Config, logic: Logic, q: Query)
    requires WellFormed(q)
  {
    forall table, row | Visible(cfg, logic, q, table, row) :: Moves(cfg, q, table, row)
  }

  /** One change that the query has to notice. */
  predicate ChangeRelevant(cfg: Config, change: RowChange, q: Query) {
    match QueryAnchor(cfg, q)
    case Some(key) => ChangeTouches(cfg, change, ValueProbe(key)) || ChangeTouches(cfg, change, TruncateProbe(key.0))
    case None => Lower(change.table) in Tables(q)
  }

  lemma RelevantChange(cfg: Config, txn: Txn, n: nat, q: Query)
    requires n < |txn.changes| && ChangeRelevant(cfg, txn.changes[n], q)
    ensures Relevant(cfg, txn, Tables(q), Filters(q))
  {
    if QueryAnchor(cfg, q).None? {
      TablesInContents(q.relations, q.ctes);
      var i :| 0 <= i < |Tables(q)| && Tables(q)[i] == Lower(txn.changes[n].table);
      assert ChangeTouches(cfg, txn.changes[n], TableProbe(Lower(Tables(q)[i])));
      assert Touches(cfg, txn, TableProbe(Lower(Tables(q)[i])));
    }
  }

  lemma ReportedFold(cfg: Config, change: RowChange, folded: RowChange)
    requires change.Insert? && folded == Insert(Lower(change.table), change.row)
    ensures ReportedValues(cfg, change) == ReportedValues(cfg, folded)
  {
    LowerIdempotent(change.table);
  }

  /** An effect that makes a tracked row appear or disappear is reported under its value. */
  lemma TrackedIsReported(cfg: Config, db: Db, e: Effect, change: RowChange, key: ValueKey, row: Row)
    requires Reports(cfg, db, e, change) && key.0 == e.table && !change.Truncate?
    requires Tracked(cfg, key, row)
    requires e.InsertRow? || e.UpdateRow? || e.DeleteRow?
    requires row == (if e.DeleteRow? then TableOf(db, e.table)[e.id] else e.row) ||
             (e.UpdateRow? && row == TableOf(db, e.table)[e.id])
    ensures ChangeTouches(cfg, change, ValueProbe(key))
  {
    LowerIdempotent(change.table);
    var f := (key.1, key.2);
    if e.InsertRow? {
      ReportedFold(cfg, change, Insert(e.table, row));
    } else if e.table in cfg.full {
      assert f in Texts(row);
      if e.UpdateRow? {
        FoldAppend(NonNull(change.key), NonNull(change.row));
        assert f in Texts(change.key) || f in Texts(change.row);
      }
    } else {
      var pk := cfg.pk[e.table];
      var i :| 0 <= i < |PkValues(Insert(key.0, row), pk)| && f == UnderColumn(pk, PkValues(Insert(key.0, row), pk))[i];
      assert FindValue(row, pk) == Some(key.2) && key.1 == pk;
      assert key.2 in PkValues(change, pk);
      var n :| 0 <= n < |PkValues(change, pk)| && PkValues(change, pk)[n] == key.2;
      assert UnderColumn(pk, PkValues(change, pk))[n] == f;
    }
  }

  lemma FoldAppend(a: seq<(string, string)>, b: seq<(string, string)>)
    ensures FoldColumns(a + b) == FoldColumns(a) + FoldColumns(b)
  {
  }

  /** The query sees no row that the effect adds, removes or replaces. */
  ghost predicate Unseen(cfg: Config, logic: Logic, q: Query, db: Db, e: Effect) {
    forall row | Concerned(db, e, row) :: !Visible(cfg, logic, q, e.table, row)
  }

  /** An effect on rows that the query does not see leaves its view as it was. */
  lemma UnseenInvisible(cfg: Config, logic: Logic, q: Query, db: Db, e: Effect, change: RowChange)
    requires WellFormed(q) && StorableDb(cfg, db) && Reports(cfg, db, e, change) && Unseen(cfg, logic, q, db, e)
    ensures ViewOf(logic, q, ApplyEffect(db, e)) == ViewOf(logic, q, db)
  {
    hide Reports, StorableDb, Matches, Unseen;
    if q.direct {
      DirectScan(q);
      if e.table == RelationName(q.relations[0]) {
        SingleRowInvisible(cfg, logic, q, db, e, change);
      } else {
        OtherTable(db, e, RelationName(q.relations[0]));
      }
    } else {
      forall t | t in Scans(q)
        ensures TableOf(ApplyEffect(db, e), t) == TableOf(db, t)
      {
        if t == e.table {
          WholeTableInvisible(cfg, logic, q, db, e, change);
        } else {
          OtherTable(db, e, t);
        }
      }
    }
  }

  /** An effect whose change is not relevant leaves the query's view as it was. */
  lemma EffectInvisible(cfg: Config, logic: Logic, q: Query, db: Db, e: Effect, change: RowChange)
    requires WellFormed(q) && Covered(cfg, logic, q) && StorableDb(cfg, db)
    requires Reports(cfg, db, e, change) && !ChangeRelevant(cfg, change, q)
    ensures ViewOf(logic, q, ApplyEffect(db, e)) == ViewOf(logic, q, db)
  {
    hide Reports, ChangeRelevant, StorableDb, Matches, Visible, Moves, Concerned;
    forall row | Concerned(db, e, row)
      ensures !Visible(cfg, logic, q, e.table, row)
    {
      MovingIsRelevant(cfg, q, db, e, change, row);
    }
    UnseenInvisible(cfg, logic, q, db, e, change);
  }

  lemma DirectScan(q: Query)
    requires WellFormed(q) && q.direct
    ensures Scans(q) == {RelationName(q.relations[0])}
  {
  }

  lemma OtherTable(db: Db, e: Effect, table: string)
    requires e.table != table
    ensures TableOf(ApplyEffect(db, e), table) == TableOf(db, table)
  {
  }

  lemma SingleRowInvisible(cfg: Config, logic: Logic, q: Query, db: Db, e: Effect, change: RowChange)
    requires StorableDb(cfg, db) && q.direct && e.table in Scans(q)
    requires Reports(cfg, db, e, change) && Unseen(cfg, logic, q, db, e)
    ensures MatchingIn(logic, q, TableOf(ApplyEffect(db, e), e.table)) == MatchingIn(logic, q, TableOf(db, e.table))
  {
    hide Matches, Scans;
    var t, after := TableOf(db, e.table), TableOf(ApplyEffect(db, e), e.table);
    forall row | Concerned(db, e, row)
      ensures !Matches(logic, q, row)
    {
      UnseenRow(cfg, logic, q, db, e, change, row);
    }
    if e.TruncateTable? {
      assert MatchingIn(logic, q, t) == map[];
    } else {
      UnmatchedChange(logic, q, t, after, e.id);
    }
  }

  /**
   A query that scans the table otherwise sees every row, so such an effect finds the table empty and leaves it
   so.
   */
  lemma WholeTableInvisible(cfg: Config, logic: Logic, q: Query, db: Db, e: Effect, change: RowChange)
    requires StorableDb(cfg, db) && !q.direct && e.table in Scans(q)
    requires Reports(cfg, db, e, change) && Unseen(cfg, logic, q, db, e)
    ensures TableOf(ApplyEffect(db, e), e.table) == TableOf(db, e.table)
  {
    hide Matches, Scans;
    var t := TableOf(db, e.table);
    match e
    case InsertRow(_, _, row) => UnseenRow(cfg, logic, q, db, e, change, row);
    case UpdateRow(_, _, row) => UnseenRow(cfg, logic, q, db, e, change, row);
    case DeleteRow(_, id) => UnseenRow(cfg, logic, q, db, e, change, t[id]);
    case TruncateTable(_) =>
      if id :| id in t {
        UnseenRow(cfg, logic, q, db, e, change, t[id]);
      }
  }

  /** Only a direct scan can fail to see a row of a table that the query scans, and then the row does not match. */
  lemma UnseenRow(cfg: Config, logic: Logic, q: Query, db: Db, e: Effect, change: RowChange, row: Row)
    requires StorableDb(cfg, db) && e.table in Scans(q) && Concerned(db, e, row)
    requires Reports(cfg, db, e, change) && Unseen(cfg, logic, q, db, e)
    ensures q.direct && !Matches(logic, q, row)
  {
    hide Matches, Scans, Concerned, Reports, StorableDb;
    ConcernedIsStorable(cfg, db, e, change, row);
    assert !Visible(cfg, logic, q, e.table, row);
  }

  /** Changing one row from unmatched or absent to unmatched or absent keeps the matching rows. */
  lemma UnmatchedChange(logic: Logic, q: Query, t: Table, after: Table, id: nat)
    requires t - {id} == after - {id}
    requires id in t ==> !Matches(logic, q, t[id])
    requires id in after ==> !Matches(logic, q, after[id])
    ensures MatchingIn(logic, q, after) == MatchingIn(logic, q, t)
  {
    assert forall x | x != id :: x in t <==> x in t - {id};
    assert forall x | x != id :: x in after <==> x in after - {id};
    assert forall x | x != id && x in t :: t[x] == (t - {id})[x] && after[x] == (after - {id})[x];
  }

  /** A row that the effect adds, removes or replaces. */
  predicate Concerned(db: Db, e: Effect, row: Row) {
    match e
    case InsertRow(_, _, r) => row == r
    case UpdateRow(table, id, r) => row == r || (id in TableOf(db, table) && row == TableOf(db, table)[id])
    case DeleteRow(table, id) => id in TableOf(db, table) && row == TableOf(db, table)[id]
    case TruncateTable(table) => exists id | id in TableOf(db, table) :: TableOf(db, table)[id] == row
  }

  lemma ConcernedIsStorable(cfg: Config, db: Db, e: Effect, change: RowChange, row: Row)
    requires StorableDb(cfg, db) && Reports(cfg, db, e, change) && Concerned(db, e, row)
    ensures cfg.storable(e.table, row)
  {
  }

  /** A change that adds, removes or replaces a row that moves the version is relevant. */
  lemma MovingIsRelevant(cfg: Config, q: Query, db: Db, e: Effect, change: RowChange, row: Row)
    requires Reports(cfg, db, e, change) && Concerned(db, e, row)
    ensures Moves(cfg, q, e.table, row) ==> ChangeRelevant(cfg, change, q)
  {
    hide Tables, Tracked, QueryAnchor;
    if Moves(cfg, q, e.table, row) && QueryAnchor(cfg, q).Some? && !change.Truncate? {
      TrackedIsReported(cfg, db, e, change, QueryAnchor(cfg, q).value, row);
    }
  }

  lemma SingleTable(q: Query)
    requires WellFormed(q) && q.direct
    ensures Tables(q) == if RelationName(q.relations[0]) in q.ctes then [] else [RelationName(q.relations[0])]
    ensures forall t | t in Tables(q) :: Lower(t) == t
  {
    assert q.relations == [q.relations[0]];
    assert q.relations[..0] == [];
    assert TablesIn(q.relations[..0], q.ctes) == [];
    TablesInContents(q.relations, q.ctes);
  }

  lemma {:induction false} EffectsInvisible(cfg: Config, logic: Logic, q: Query, db: Db, c: Commit, n: nat)
    requires WellFormed(q) && Covered(cfg, logic, q) && StorableDb(cfg, db)
    requires ReportsCommit(cfg, db, c) && n <= |c.effects|
    requires forall i | 0 <= i < n :: !ChangeRelevant(cfg, c.txn.changes[i], q)
    ensures ViewOf(logic, q, ApplyEffects(db, c.effects[..n])) == ViewOf(logic, q, db)
  {
    hide Covered, ViewOf, ApplyEffect, ChangeRelevant, StorableDb, Reports;
    if n > 0 {
      assert c.effects[..n][..n - 1] == c.effects[..n - 1];
      EffectsInvisible(cfg, logic, q, db, c, n - 1);
      EffectsStorable(cfg, db, c, n - 1);
      EffectInvisible(cfg, logic, q, ApplyEffects(db, c.effects[..n - 1]), c.effects[n - 1], c.txn.changes[n - 1]);
    }
  }

  /** A commit that is not relevant to the query leaves its view as it was. */
  lemma CommitInvisible(cfg: Config, logic: Logic, q: Query, h: History, k: nat)
    requires WellFormed(q) && Covered(cfg, logic, q)
    requires ValidHistory(cfg, h) && k < |h.log|
    requires !Relevant(cfg, h.log[k].txn, Tables(q), Filters(q))
    ensures ViewAt(logic, h, q, k + 1) == ViewAt(logic, h, q, k)
  {
    var c := h.log[k];
    forall i | 0 <= i < |c.txn.changes|
      ensures !ChangeRelevant(cfg, c.txn.changes[i], q)
    {
      if ChangeRelevant(cfg, c.txn.changes[i], q) {
        RelevantChange(cfg, c.txn, i, q);
      }
    }
    assert c.effects[..|c.effects|] == c.effects;
    DbAtStorable(cfg, h, k);
    EffectsInvisible(cfg, logic, q, DbAt(h, k), c, |c.effects|);
  }

  lemma {:induction false} QuietStretch(cfg: Config, logic: Logic, q: Query, h: History, i: nat, j: nat)
    requires WellFormed(q) && Covered(cfg, logic, q)
    requires ValidHistory(cfg, h) && i <= j <= |h.log|
    requires forall k | i <= k < j :: !Relevant(cfg, h.log[k].txn, Tables(q), Filters(q))
    ensures ViewAt(logic, h, q, j) == ViewAt(logic, h, q, i)
    decreases j - i
  {
    hide *;
    if i < j {
      QuietStretch(cfg, logic, q, h, i, j - 1);
      CommitInvisible(cfg, logic, q, h, j - 1);
    }
  }

  // ---------------------------------------------------------------------------------------------
  // Commits on other tables, for the hub, which works by table and not by version.
  // ---------------------------------------------------------------------------------------------

  /** Every row the query can see is in one of the tables it is filed under. */
  ghost predicate Noticed(cfg: Config, logic: Logic, q: Query) {
    WellFormed(q) && forall table, row | Visible(cfg, logic, q, table, row) :: table in Tables(q)
  }

  lemma NoticedIsWellFormed(cfg: Config, logic: Logic, q: Query)
    requires Noticed(cfg, logic, q)
    ensures WellFormed(q)
  {
  }

  /** It suffices that no WITH name hides a stored table. */
  lemma WatchedIsNoticed(cfg: Config, logic: Logic, q: Query)
    requires Watched(q)
    ensures Noticed(cfg, logic, q)
  {
    hide Tables, Scans, Matches;
  }

  /** A covered query is noticed. */
  lemma CoveredIsNoticed(cfg: Config, logic: Logic, q: Query)
    requires WellFormed(q) && Covered(cfg, logic, q)
    ensures Noticed(cfg, logic, q)
  {
    hide Tables, QueryAnchor, Visible;
  }

  lemma {:induction false} EffectsOutside(cfg: Config, logic: Logic, q: Query, db: Db, c: Commit, n: nat)
    requires Noticed(cfg, logic, q) && StorableDb(cfg, db) && ReportsCommit(cfg, db, c) && n <= |c.effects|
    requires forall i | 0 <= i < n :: Lower(c.txn.changes[i].table) !in Tables(q)
    ensures WellFormed(q) && ViewOf(logic, q, ApplyEffects(db, c.effects[..n])) == ViewOf(logic, q, db)
  {
    hide ViewOf, Tables, ApplyEffect, Visible, Concerned, StorableDb;
    if n > 0 {
      assert c.effects[..n][..n - 1] == c.effects[..n - 1];
      EffectsOutside(cfg, logic, q, db, c, n - 1);
      EffectsStorable(cfg, db, c, n - 1);
      var before := ApplyEffects(db, c.effects[..n - 1]);
      assert Unseen(cfg, logic, q, before, c.effects[n - 1]);
      UnseenInvisible(cfg, logic, q, before, c.effects[n - 1], c.txn.changes[n - 1]);
    }
  }

  /** A commit on none of a noticed query's tables leaves its view as it was, anchored or not. */
  lemma UnaffectedCommit(cfg: Config, logic: Logic, q: Query, h: History, k: nat)
    requires Noticed(cfg, logic, q) && ValidHistory(cfg, h) && k < |h.log| && !Affected(h.log[k].txn, q)
    ensures WellFormed(q) && ViewAt(logic, h, q, k + 1) == ViewAt(logic, h, q, k)
  {
    hide Noticed, ViewOf;
    var c := h.log[k];
    TablesInContents(q.relations, q.ctes);
    assert forall t | 0 <= t < |Tables(q)| :: Lower(Tables(q)[t]) == Tables(q)[t];
    assert c.effects[..|c.effects|] == c.effects;
    DbAtStorable(cfg, h, k);
    EffectsOutside(cfg, logic, q, DbAt(h, k), c, |c.effects|);
  }

  lemma {:induction false} UnaffectedStretch(cfg: Config, logic: Logic, q: Query, h: History, i: nat, j: nat)
    requires Noticed(cfg, logic, q) && ValidHistory(cfg, h) && i <= j <= |h.log|
    requires forall k | i <= k < j :: !Affected(h.log[k].txn, q)
    ensures WellFormed(q) && ViewAt(logic, h, q, j) == ViewAt(logic, h, q, i)
    decreases j - i
  {
    hide *;
    NoticedIsWellFormed(cfg, logic, q);
    if i < j {
      UnaffectedStretch(cfg, logic, q, h, i, j - 1);
      UnaffectedCommit(cfg, logic, q, h, j - 1);
    }
  }

  /** Over every history, a commit on none of the query's tables leaves its view as it was. */
  ghost predicate TablesSuffice(cfg: Config, logic: Logic, q: Query)
    requires WellFormed(q)
  {
    forall h, k | ValidHistory(cfg, h) && 0 <= k < |h.log| && !Affected(h.log[k].txn, q) ::
      ViewAt(logic, h, q, k + 1) == ViewAt(logic, h, q, k)
  }

  /** The exact condition: watching a query's tables suffices over every history if and only if it is noticed. */
  lemma TablesSufficeIffNoticed(cfg: Config, logic: Logic, q: Query)
    requires WellFormed(q)
    ensures TablesSuffice(cfg, logic, q) <==> Noticed(cfg, logic, q)
  {
    if Noticed(cfg, logic, q) {
      forall h, k | ValidHistory(cfg, h) && 0 <= k < |h.log| && !Affected(h.log[k].txn, q)
        ensures ViewAt(logic, h, q, k + 1) == ViewAt(logic, h, q, k)
      {
        UnaffectedCommit(cfg, logic, q, h, k);
      }
    }
    if TablesSuffice(cfg, logic, q) {
      forall table, row | Visible(cfg, logic, q, table, row)
        ensures table in Tables(q)
      {
        VisibleNeedsTable(cfg, logic, q, table, row);
      }
    }
  }

  lemma VisibleNeedsTable(cfg: Config, logic: Logic, q: Query, table: string, row: Row)
    requires WellFormed(q) && TablesSuffice(cfg, logic, q) && Visible(cfg, logic, q, table, row)
    ensures table in Tables(q)
  {
    var i :| 0 <= i < |q.relations| && q.relations[i].base && RelationName(q.relations[i]) == table;
    RelationNameFolded(q.relations[i]);
    InsertSeen(logic, q, table, row);
    OneInsertValid(cfg, table, row);
    InsertAffects(q, table, row);
    var h := OneInsert(table, row);
    assert ViewAt(logic, h, q, 0 + 1) != ViewAt(logic, h, q, 0);
  }

  lemma InsertAffects(q: Query, table: string, row: Row)
    requires Lower(table) == table
    ensures Affected(OneInsert(table, row).log[0].txn, q) ==> table in Tables(q)
  {
    TablesInContents(q.relations, q.ctes);
  }

  lemma TxnsOrdered(cfg: Config, h: History, k: nat)
    requires ValidHistory(cfg, h) && k <= |h.log|
    ensures Nondecreasing(Txns(h.log[..k]))
  {
  }

  /** The indexed version at a prefix is the scan of that prefix. */
  lemma VersionAtIsScan(cfg: Config, h: History, q: Query, k: nat)
    requires ValidHistory(cfg, h) && k <= |h.log|
    ensures VersionAt(cfg, h, q, k) == ScanVersion(cfg, Txns(h.log)[..k], Tables(q), Filters(q))
  {
    TxnsOrdered(cfg, h, k);
    VersionIsScan(cfg, Txns(h.log[..k]), Tables(q), Filters(q));
    assert Txns(h.log[..k]) == Txns(h.log)[..k];
  }

  lemma VersionAtMonotone(cfg: Config, h: History, q: Query, i: nat, j: nat)
    requires ValidHistory(cfg, h) && i <= j <= |h.log|
    ensures VersionAt(cfg, h, q, i) <= VersionAt(cfg, h, q, j)
  {
    VersionAtIsScan(cfg, h, q, i);
    VersionAtIsScan(cfg, h, q, j);
    VersionMonotone(cfg, Txns(h.log), i, j, Tables(q), Filters(q));
  }

  /** A relevant commit gives the query a version it never had before. */
  lemma RelevantRaises(cfg: Config, h: History, q: Query, k: nat)
    requires ValidHistory(cfg, h) && k < |h.log|
    requires Relevant(cfg, h.log[k].txn, Tables(q), Filters(q))
    ensures VersionAt(cfg, h, q, k) < VersionAt(cfg, h, q, k + 1)
  {
    VersionAtIsScan(cfg, h, q, k);
    VersionAtIsScan(cfg, h, q, k + 1);
    RelevantRaisesScan(cfg, Txns(h.log), k, Tables(q), Filters(q));
  }

  lemma SameVersionIsQuiet(cfg: Config, h: History, q: Query, i: nat, j: nat)
    requires ValidHistory(cfg, h) && i <= j <= |h.log|
    requires VersionAt(cfg, h, q, i) == VersionAt(cfg, h, q, j)
    ensures forall k | i <= k < j :: !Relevant(cfg, h.log[k].txn, Tables(q), Filters(q))
  {
    hide *;
    forall k | i <= k < j
      ensures !Relevant(cfg, h.log[k].txn, Tables(q), Filters(q))
    {
      if Relevant(cfg, h.log[k].txn, Tables(q), Filters(q)) {
        RelevantRaises(cfg, h, q, k);
        VersionAtMonotone(cfg, h, q, i, k);
        VersionAtMonotone(cfg, h, q, k + 1, j);
      }
    }
  }

  /** Invalidation is sound for covered queries. */
  lemma SameVersionSameView(cfg: Config, logic: Logic, q: Query, h: History, i: nat, j: nat)
    requires WellFormed(q) && Covered(cfg, logic, q)
    requires ValidHistory(cfg, h) && i <= j <= |h.log|
    requires VersionAt(cfg, h, q, i) == VersionAt(cfg, h, q, j)
    ensures ViewAt(logic, h, q, i) == ViewAt(logic, h, q, j)
  {
    hide *;
    SameVersionIsQuiet(cfg, h, q, i, j);
    QuietStretch(cfg, logic, q, h, i, j);
  }

  // ---------------------------------------------------------------------------------------------
  // The condition is exact.
  // ---------------------------------------------------------------------------------------------

  /** The history whose only commit inserts one row into an empty database. */
  function OneInsert(table: string, row: Row): History {
    History(map[], [Commit(Txn(1, 1, [Insert(table, row)]), [InsertRow(table, 0, row)])])
  }

  /** If the insert is irrelevant, a sound query cannot see it. */
  lemma OneInsertValid(cfg: Config, table: string, row: Row)
    requires Lower(table) == table && cfg.storable(table, row)
    ensures var h := OneInsert(table, row);
            ValidHistory(cfg, h) && DbAt(h, 0) == map[] && DbAt(h, 1) == map[table := map[0 := row]]
  {
    var h := OneInsert(table, row);
    assert h.log[0].effects[..0] == [];
    assert ReportsCommit(cfg, DbAt(h, 0), h.log[0]);
  }

  lemma IrrelevantInsertUnseen(cfg: Config, logic: Logic, q: Query, table: string, row: Row)
    requires WellFormed(q) && Sound(cfg, logic, q) && Lower(table) == table && cfg.storable(table, row)
    requires !Relevant(cfg, OneInsert(table, row).log[0].txn, Tables(q), Filters(q))
    ensures ViewOf(logic, q, map[table := map[0 := row]]) == ViewOf(logic, q, map[])
  {
    var h := OneInsert(table, row);
    var txn := h.log[0].txn;
    OneInsertValid(cfg, table, row);
    VersionAtIsScan(cfg, h, q, 0);
    VersionAtIsScan(cfg, h, q, 1);
    assert Txns(h.log)[..1] == [txn] && Txns(h.log)[..0] == [] && [txn][..0] == [];
    assert VersionAt(cfg, h, q, 0) == VersionAt(cfg, h, q, 1);
    assert ViewAt(logic, h, q, 0) == ViewAt(logic, h, q, 1);
  }

  /** Inserting a matching row, or any row into a table scanned otherwise, changes the view. */
  lemma InsertSeen(logic: Logic, q: Query, table: string, row: Row)
    requires WellFormed(q)
    requires if q.direct then table == RelationName(q.relations[0]) && Matches(logic, q, row) else table in Scans(q)
    ensures ViewOf(logic, q, map[table := map[0 := row]]) != ViewOf(logic, q, map[])
  {
    var db: Db := map[table := map[0 := row]];
    if q.direct {
      assert 0 in MatchingIn(logic, q, TableOf(db, table));
      assert 0 !in MatchingIn(logic, q, TableOf(map[], table));
    } else {
      assert 0 in ViewOf(logic, q, db).tables[table];
      assert 0 !in ViewOf(logic, q, map[]).tables[table];
    }
  }

  lemma InsertTouches(cfg: Config, table: string, row: Row, p: Probe)
    requires Touches(cfg, OneInsert(table, row).log[0].txn, p)
    ensures ChangeTouches(cfg, Insert(table, row), p)
  {
  }

  /** A sound query notices the insertion of any row it can see. */
  lemma VisibleNeedsMoving(cfg: Config, logic: Logic, q: Query, table: string, row: Row)
    requires WellFormed(q) && Sound(cfg, logic, q) && Visible(cfg, logic, q, table, row)
    ensures Moves(cfg, q, table, row)
  {
    var i :| 0 <= i < |q.relations| && q.relations[i].base && RelationName(q.relations[i]) == table;
    RelationNameFolded(q.relations[i]);
    InsertSeen(logic, q, table, row);
    assert Relevant(cfg, OneInsert(table, row).log[0].txn, Tables(q), Filters(q)) by {
      if !Relevant(cfg, OneInsert(table, row).log[0].txn, Tables(q), Filters(q)) {
        IrrelevantInsertUnseen(cfg, logic, q, table, row);
      }
    }
    hide Sound, ViewOf, Visible;
    RelevantInsertMoves(cfg, q, table, row);
  }

  lemma RelevantInsertMoves(cfg: Config, q: Query, table: string, row: Row)
    requires Lower(table) == table && Relevant(cfg, OneInsert(table, row).log[0].txn, Tables(q), Filters(q))
    ensures Moves(cfg, q, table, row)
  {
    var txn := OneInsert(table, row).log[0].txn;
    TablesInContents(q.relations, q.ctes);
    match QueryAnchor(cfg, q)
    case None =>
      var i :| 0 <= i < |Tables(q)| && Touches(cfg, txn, TableProbe(Lower(Tables(q)[i])));
      InsertTouches(cfg, table, row, TableProbe(Lower(Tables(q)[i])));
    case Some(key) =>
      InsertIsNoTruncate(cfg, table, row, key.0);
      InsertTouches(cfg, table, row, ValueProbe(key));
      assert Tables(q)[0] == table;
  }

  lemma InsertIsNoTruncate(cfg: Config, table: string, row: Row, t: string)
    ensures !Touches(cfg, OneInsert(table, row).log[0].txn, TruncateProbe(t))
  {
  }

  /** The exact condition: a query's versions can be trusted over every history if and only if it is covered. */
  lemma SoundIffCovered(cfg: Config, logic: Logic, q: Query)
    requires WellFormed(q)
    ensures Sound(cfg, logic, q) <==> Covered(cfg, logic, q)
  {
    if Covered(cfg, logic, q) {
      forall h, i, j | ValidHistory(cfg, h) && 0 <= i <= j <= |h.log| &&
          VersionAt(cfg, h, q, i) == VersionAt(cfg, h, q, j)
        ensures ViewAt(logic, h, q, i) == ViewAt(logic, h, q, j)
      {
        SameVersionSameView(cfg, logic, q, h, i, j);
      }
    }
    if Sound(cfg, logic, q) {
      forall table, row | Visible(cfg, logic, q, table, row)
        ensures Moves(cfg, q, table, row)
      {
        VisibleNeedsMoving(cfg, logic, q, table, row);
      }
    }
  }

  // ---------------------------------------------------------------------------------------------
  // Sufficient conditions, and queries that fail.
  // ---------------------------------------------------------------------------------------------

  /** Of the texts that the column can hold, only the filter's own text is SQL-equal to it. */
  ghost predicate Canonical(cfg: Config, logic: Logic, table: string, f: Filter) {
    forall row | cfg.storable(table, row) && Satisfies(logic, row, f) :: FindValue(row, f.0) == Some(f.1)
  }

  ghost predicate FoldedConfig(cfg: Config) {
    forall t | t in cfg.pk :: Lower(cfg.pk[t]) == cfg.pk[t]
  }

  lemma {:induction false} FoundIsText(row: Row, column: string, text: string)
    requires FindValue(row, column) == Some(text)
    ensures (Lower(column), text) in Texts(row)
  {
    var i := FoundAt(row, column, text);
    NonNullContents(row, row[i].0, text);
    var n :| 0 <= n < |NonNull(row)| && NonNull(row)[n] == (row[i].0, text);
    assert FoldColumns(NonNull(row))[n] == (Lower(column), text);
  }

  lemma {:induction false} FoundAt(row: Row, column: string, text: string) returns (i: nat)
    requires FindValue(row, column) == Some(text)
    ensures i < |row| && Lower(row[i].0) == Lower(column) && row[i].1 == Some(text)
  {
    if Lower(row[0].0) == Lower(column) {
      i := 0;
    } else {
      i := FoundAt(row[1..], column, text);
      i := i + 1;
    }
  }

  lemma {:induction false} FirstAnchorIsFilter(cfg: Config, table: string, filters: seq<Filter>)
    requires FirstAnchor(cfg, table, filters).Some?
    ensures FirstAnchor(cfg, table, filters).value in filters
    ensures IsAnchorable(cfg, table, FirstAnchor(cfg, table, filters).value.0)
  {
    if !IsAnchorable(cfg, table, filters[0].0) {
      FirstAnchorIsFilter(cfg, table, filters[1..]);
    }
  }

  /** A row whose column holds the filter's text moves the watermark filed under it. */
  lemma FilterIsTracked(cfg: Config, table: string, filters: seq<Filter>, row: Row)
    requires FoldedConfig(cfg) && Lower(table) == table && FirstAnchor(cfg, table, filters).Some?
    requires var f := FirstAnchor(cfg, table, filters).value; FindValue(row, f.0) == Some(f.1)
    ensures var f := FirstAnchor(cfg, table, filters).value; Tracked(cfg, (table, Lower(f.0), f.1), row)
  {
    var f := FirstAnchor(cfg, table, filters).value;
    FirstAnchorIsFilter(cfg, table, filters);
    if table in cfg.full {
      FoundIsText(row, f.0, f.1);
    } else {
      assert PkValues(Insert(table, row), f.0) == [f.1];
      assert UnderColumn(f.0, [f.1])[0] == (f.0, f.1);
    }
  }

  /** A single scan of a table that no WITH clause shadows is covered when its filter texts are canonical there. */
  lemma CanonicalIsCovered(cfg: Config, logic: Logic, q: Query)
    requires WellFormed(q) && FoldedConfig(cfg) && q.direct && RelationName(q.relations[0]) !in q.ctes
    requires forall f | f in Filters(q) :: Canonical(cfg, logic, RelationName(q.relations[0]), f)
    ensures Covered(cfg, logic, q)
  {
    hide Tracked, Satisfies;
    SingleTable(q);
    DirectScan(q);
    forall table, row | Visible(cfg, logic, q, table, row)
      ensures Moves(cfg, q, table, row)
    {
      if QueryAnchor(cfg, q).Some? {
        FirstAnchorIsFilter(cfg, table, Filters(q));
        ExtractionSound(logic, q.where.value, row, q.params, FirstAnchor(cfg, table, Filters(q)).value);
        FilterIsTracked(cfg, table, Filters(q), row);
      }
    }
  }

  /** A join over stored tables is covered when no WITH clause shadows any of them. */
  lemma JoinIsCovered(cfg: Config, logic: Logic, q: Query)
    requires WellFormed(q) && !q.direct && |Tables(q)| != 1
    requires forall t | t in Scans(q) :: t !in q.ctes
    ensures Covered(cfg, logic, q)
  {
    TablesInContents(q.relations, q.ctes);
  }

  /**
   When the one anchored table is scanned twice, or not by the top-level FROM, any storable row with another value
   in the anchored column can come and go under an unchanged version; whether the query's result changes depends
   on what it makes of the rows.
   */
  lemma AnchoredSelfJoinUnsound(cfg: Config, logic: Logic, q: Query, table: string, row: Row)
    requires WellFormed(q) && !q.direct && table in Scans(q) && cfg.storable(table, row)
    requires QueryAnchor(cfg, q).Some? && !Tracked(cfg, QueryAnchor(cfg, q).value, row)
    ensures !Sound(cfg, logic, q)
  {
    hide Sound, Tracked;
    SoundIffCovered(cfg, logic, q);
    assert Visible(cfg, logic, q, table, row) && !Moves(cfg, q, table, row);
  }

  /** Changes to a stored table hidden behind a WITH name of the same spelling are not noticed. */
  lemma ShadowedTableUnsound(cfg: Config, logic: Logic, q: Query, table: string, row: Row)
    requires WellFormed(q) && !q.direct && table in Scans(q) && table in q.ctes && cfg.storable(table, row)
    ensures !Sound(cfg, logic, q)
  {
    hide Sound;
    TablesInContents(q.relations, q.ctes);
    SoundIffCovered(cfg, logic, q);
    assert Visible(cfg, logic, q, table, row) && !Moves(cfg, q, table, row);
  }

  /** The text "t" that is reported for the column never moves the watermark filed under "true". */
  lemma BooleanNotTracked(cfg: Config)
    requires cfg.full == {"events"}
    ensures !Tracked(cfg, ("events", "active", "true"), [("active", Some("t"))])
  {
    var row: Row := [("active", Some("t"))];
    assert Lower("events") == "events" && Lower("active") == "active";
    assert NonNull(row) == [("active", "t")] by { assert row[..0] == []; }
    assert ReportedValues(cfg, Insert("events", row)) == [("active", "t")];
  }

  /** `SELECT … FROM events WHERE active = TRUE`. */
  function BooleanQuery(): Query {
    Query([Relation(["events"], true)], {}, Some(BinaryOp(Identifier("active"), Eq, Constant(Boolean(true)))), [], true)
  }

  lemma BooleanAnchor(cfg: Config)
    requires cfg.full == {"events"}
    ensures WellFormed(BooleanQuery()) && QueryAnchor(cfg, BooleanQuery()) == Some(("events", "active", "true"))
  {
    hide Matches, Eval;
    SingleTable(BooleanQuery());
    assert Lower("events") == "events" && Lower("active") == "active";
    assert EqFilters(BooleanQuery().where.value, []) == [("active", "true")];
  }

  lemma BooleanMatches(logic: Logic)
    requires logic.same("t", "true")
    ensures Matches(logic, BooleanQuery(), [("active", Some("t"))])
  {
    hide EqFilters;
    assert Lower("active") == "active";
  }

  /**
   Text that is equal without being the same defeats an anchor. The literal TRUE is filed under
   "true"; a change record that spells the stored value "t" never moves that watermark.
   */
  lemma BooleanTextUnsound(logic: Logic, cfg: Config)
    requires cfg.full == {"events"} && logic.same("t", "true") && cfg.storable("events", [("active", Some("t"))])
    ensures !Sound(cfg, logic, BooleanQuery())
  {
    hide Tracked, Matches, QueryAnchor, Sound, WellFormed;
    assert Lower("events") == "events" && "events" in Scans(BooleanQuery()) by {
      assert RelationName(BooleanQuery().relations[0]) == "events";
    }
    BooleanNotTracked(cfg);
    BooleanAnchor(cfg);
    BooleanMatches(logic);
    SoundIffCovered(cfg, logic, BooleanQuery());
    assert Visible(cfg, logic, BooleanQuery(), "events", [("active", Some("t"))]);
    assert !Moves(cfg, BooleanQuery(), "events", [("active", Some("t"))]);
  }
}

/**
 The version index: per-table, per-value and truncate watermarks that are updated in place as
 transactions arrive, and the version of a query answered from them. The reference definition is
 a rescan of the whole log: the largest LSN of a transaction that is relevant to the query.
 */
module VersionIndex {
  import opened Text
  import opened ChangeLog

  /** Table, column and text, with table and column folded. */
  type ValueKey = (string, string, string)

  type Filter = (string, string)

  /**
   Single-column primary keys and FULL-identity tables, both folded; and the rows that each table's column types
   can hold, which the index itself never looks at.
   */
  datatype Config = Config(pk: map<string, string>, full: set<string>, storable: (string, Row) -> bool)

  datatype Index = Index(tables: map<string, nat>, values: map<ValueKey, nat>, structural: map<string, nat>)

  const EMPTY := Index(map[], map[], map[])

  function Get<K>(m: map<K, nat>, k: K): nat {
    if k in m then m[k] else 0
  }

  function Bump<K>(m: map<K, nat>, k: K, lsn: nat): map<K, nat> {
    m[k := Max(Get(m, k), lsn)]
  }

  function FoldColumns(columns: seq<(string, string)>): seq<Filter> {
    seq(|columns|, i requires 0 <= i < |columns| => (Lower(columns[i].0), columns[i].1))
  }

  function UnderColumn(column: string, texts: seq<string>): seq<Filter> {
    seq(|texts|, i requires 0 <= i < |texts| => (column, texts[i]))
  }

  /** The (column, text) pairs whose watermark a change moves. */
  function ReportedValues(cfg: Config, change: RowChange): seq<Filter> {
    var table := Lower(change.table);
    if change.Truncate? then []
    else if table in cfg.full then FoldColumns(ChangedColumns(change))
    else if table in cfg.pk then UnderColumn(cfg.pk[table], PkValues(change, cfg.pk[table]))
    else []
  }

  function InsertAll(values: map<ValueKey, nat>, table: string, pairs: seq<Filter>, lsn: nat): map<ValueKey, nat> {
    if pairs == [] then values
    else
      var last := pairs[|pairs| - 1];
      InsertAll(values, table, pairs[..|pairs| - 1], lsn)[(table, last.0, last.1) := lsn]
  }

  function AdvanceChange(cfg: Config, s: Index, lsn: nat, change: RowChange): Index {
    var table := Lower(change.table);
    Index(
      Bump(s.tables, table, lsn),
      InsertAll(s.values, table, ReportedValues(cfg, change), lsn),
      if change.Truncate? then Bump(s.structural, table, lsn) else s.structural)
  }

  function AdvanceChanges(cfg: Config, s: Index, lsn: nat, changes: seq<RowChange>): Index {
    if changes == [] then s
    else
      var n := |changes| - 1;
      AdvanceChange(cfg, AdvanceChanges(cfg, s, lsn, changes[..n]), lsn, changes[n])
  }

  function AdvanceTxn(cfg: Config, s: Index, txn: Txn): Index {
    AdvanceChanges(cfg, s, txn.lsn, txn.changes)
  }

  function IndexOf(cfg: Config, log: seq<Txn>): Index {
    if log == [] then EMPTY
    else AdvanceTxn(cfg, IndexOf(cfg, log[..|log| - 1]), log[|log| - 1])
  }

  predicate IsAnchorable(cfg: Config, table: string, column: string) {
    table in cfg.full || (table in cfg.pk && cfg.pk[table] == column)
  }

  /** The first filter on an anchorable column. */
  function FirstAnchor(cfg: Config, table: string, filters: seq<Filter>): Option<Filter> {
    if filters == [] then None
    else if IsAnchorable(cfg, table, filters[0].0) then Some(filters[0])
    else FirstAnchor(cfg, table, filters[1..])
  }

  /** The value watermark that decides a query's version, if it is anchored to a row value. */
  function Anchor(cfg: Config, tables: seq<string>, filters: seq<Filter>): Option<ValueKey> {
    if |tables| != 1 then None
    else
      match FirstAnchor(cfg, Lower(tables[0]), filters)
      case None => None
      case Some(f) => Some((Lower(tables[0]), Lower(f.0), f.1))
  }

  function TableVersion(s: Index, tables: seq<string>): nat {
    if tables == [] then 0
    else
      var n := |tables| - 1;
      var table := Lower(tables[n]);
      Max(Max(TableVersion(s, tables[..n]), Get(s.tables, table)), Get(s.structural, table))
  }

  function Version(cfg: Config, s: Index, tables: seq<string>, filters: seq<Filter>): nat {
    match Anchor(cfg, tables, filters)
    case Some(key) => Max(Get(s.values, key), Get(s.structural, key.0))
    case None => TableVersion(s, tables)
  }

  // ---------------------------------------------------------------------------------------------
  // The reference: what a transaction touches, and the largest LSN over a log.
  // ---------------------------------------------------------------------------------------------

  /** One watermark of the index. */
  datatype Probe = TableProbe(table: string) | ValueProbe(key: ValueKey) | TruncateProbe(table: string)

  function Lookup(s: Index, p: Probe): nat {
    match p
    case TableProbe(table) => Get(s.tables, table)
    case ValueProbe(key) => Get(s.values, key)
    case TruncateProbe(table) => Get(s.structural, table)
  }

  predicate ChangeTouches(cfg: Config, change: RowChange, p: Probe) {
    match p
    case TableProbe(table) => Lower(change.table) == table
    case ValueProbe(key) => Lower(change.table) == key.0 && (key.1, key.2) in ReportedValues(cfg, change)
    case TruncateProbe(table) => Lower(change.table) == table && change.Truncate?
  }

  predicate Touches(cfg: Config, txn: Txn, p: Probe) {
    exists i | 0 <= i < |txn.changes| :: ChangeTouches(cfg, txn.changes[i], p)
  }

  /** The largest LSN of a transaction in the log that touches the probe, or 0. */
  function LastTouch(cfg: Config, log: seq<Txn>, p: Probe): nat {
    if log == [] then 0
    else
      var n := |log| - 1;
      var before := LastTouch(cfg, log[..n], p);
      if Touches(cfg, log[n], p) then Max(before, log[n].lsn) else before
  }

  /** A transaction that a query with these tables and filters has to notice. */
  predicate Relevant(cfg: Config, txn: Txn, tables: seq<string>, filters: seq<Filter>) {
    match Anchor(cfg, tables, filters)
    case Some(key) => Touches(cfg, txn, ValueProbe(key)) || Touches(cfg, txn, TruncateProbe(key.0))
    case None => exists i | 0 <= i < |tables| :: Touches(cfg, txn, TableProbe(Lower(tables[i])))
  }

  /** The version found by rescanning the log. */
  function ScanVersion(cfg: Config, log: seq<Txn>, tables: seq<string>, filters: seq<Filter>): nat {
    if log == [] then 0
    else
      var n := |log| - 1;
      var before := ScanVersion(cfg, log[..n], tables, filters);
      if Relevant(cfg, log[n], tables, filters) then Max(before, log[n].lsn) else before
  }

  ghost predicate Nondecreasing(log: seq<Txn>) {
    forall i, j | 0 <= i < j < |log| :: log[i].lsn <= log[j].lsn
  }

  /** A transaction touches a table's watermark exactly when one of its changes names the table, ignoring case. */
  lemma TouchesTableExactly(cfg: Config, txn: Txn, table: string)
    ensures Touches(cfg, txn, TableProbe(Lower(table))) <==>
            exists c | 0 <= c < |txn.changes| :: EqualIgnoringCase(txn.changes[c].table, table)
  {
    hide Lower, EqualIgnoringCase;
    forall c | 0 <= c < |txn.changes|
      ensures ChangeTouches(cfg, txn.changes[c], TableProbe(Lower(table))) <==>
              EqualIgnoringCase(txn.changes[c].table, table)
    {
      LowerIffEqual(txn.changes[c].table, table);
    }
  }

  /**
   A FULL table's change reports a column and text exactly when it carries that column, ignoring case, with that
   text.
   */
  lemma FullReportsExactly(cfg: Config, change: RowChange, column: string, text: string)
    requires Lower(change.table) in cfg.full
    ensures (Lower(column), text) in ReportedValues(cfg, change) <==>
            exists columns: Row, i: int :: CarriesAt(change, columns, i, column, text)
  {
    hide Lower, ChangedColumns;
    var listed := ChangedColumns(change);
    var folded := FoldColumns(listed);
    if (Lower(column), text) in folded {
      var k :| 0 <= k < |folded| && folded[k] == (Lower(column), text);
      LowerIffEqual(listed[k].0, column);
      ChangedColumnsExact(change, listed[k].0, text);
      assert listed[k] in listed;
      var columns :| Carries(change, columns) && (listed[k].0, Some(text)) in columns;
      var i :| 0 <= i < |columns| && columns[i] == (listed[k].0, Some(text));
      assert CarriesAt(change, columns, i, column, text);
    }
    if columns: Row, i: int :| CarriesAt(change, columns, i, column, text) {
      LowerIffEqual(columns[i].0, column);
      ChangedColumnsExact(change, columns[i].0, text);
      assert columns[i] in columns;
      var k :| 0 <= k < |listed| && listed[k] == (columns[i].0, text);
      assert folded[k] == (Lower(column), text);
    }
  }

  ghost predicate CarriesAt(change: RowChange, columns: Row, i: int, column: string, text: string) {
    && Carries(change, columns) && 0 <= i < |columns|
    && EqualIgnoringCase(columns[i].0, column) && columns[i].1 == Some(text)
  }

  /** A keyed table's change reports exactly its key column with the key texts it carries. */
  lemma KeyedReportsExactly(cfg: Config, change: RowChange, column: string, text: string)
    requires Lower(change.table) !in cfg.full && Lower(change.table) in cfg.pk
    ensures (column, text) in ReportedValues(cfg, change) <==>
            column == cfg.pk[Lower(change.table)] &&
            exists columns :: Carries(change, columns) && FindValue(columns, column) == Some(text)
  {
    hide Lower, PkValues, FindValue;
    var pk := cfg.pk[Lower(change.table)];
    PkValuesExact(change, pk, text);
    var values := PkValues(change, pk);
    var reported := UnderColumn(pk, values);
    assert !change.Truncate? ==> ReportedValues(cfg, change) == reported;
    if text in values {
      var k :| 0 <= k < |values| && values[k] == text;
      assert reported[k] == (pk, text);
    }
  }

  /** The anchor is the first filter on an anchorable column, and there is none only if no filter is on one. */
  lemma {:induction false} FirstAnchorExact(cfg: Config, table: string, filters: seq<Filter>, i: nat)
    requires i < |filters| && forall j | 0 <= j < i :: !IsAnchorable(cfg, table, filters[j].0)
    ensures IsAnchorable(cfg, table, filters[i].0) ==> FirstAnchor(cfg, table, filters) == Some(filters[i])
    ensures i == |filters| - 1 && !IsAnchorable(cfg, table, filters[i].0) ==> FirstAnchor(cfg, table, filters) == None
  {
    if i > 0 {
      FirstAnchorExact(cfg, table, filters[1..], i - 1);
    }
  }

  /** A folded column can anchor a query exactly when some change of the table reports a value of it. */
  lemma AnchorableIffTracked(cfg: Config, table: string, column: string)
    requires Lower(table) == table && Lower(column) == column
    ensures IsAnchorable(cfg, table, column) <==>
            exists change: RowChange, text: string :: Lower(change.table) == table &&
                Reported(cfg, change, column, text)
  {
    hide Lower, PkValues, FindValue, ChangedColumns;
    var row := [(column, Some(""))];
    var change := Insert(table, row);
    if table in cfg.full {
      assert Carries(change, row) && row[0] in row;
      ChangedColumnsExact(change, column, "");
      var i :| 0 <= i < |ChangedColumns(change)| && ChangedColumns(change)[i] == (column, "");
      assert FoldColumns(ChangedColumns(change))[i] == (column, "");
      assert Reported(cfg, change, column, "");
    } else if table in cfg.pk && cfg.pk[table] == column {
      SelfNamed(column);
      assert Carries(change, row) && FindValue(row, column) == Some("");
      KeyedReportsExactly(cfg, change, column, "");
      assert Reported(cfg, change, column, "");
    }
  }

  predicate Reported(cfg: Config, change: RowChange, column: string, text: string) {
    (column, text) in ReportedValues(cfg, change)
  }

  lemma SelfNamed(name: string)
    ensures FindValue([(name, Some(""))], name) == Some("")
  {
  }

  /** The columns of a FULL table are matched ignoring case; its first filter always anchors the query. */
  lemma FullColumnsIgnoreCase(
    cfg: Config, s: Index, table: string, column: string, other: string, text: string, more: seq<Filter>)
    requires Lower(table) in cfg.full && EqualIgnoringCase(column, other)
    ensures Anchor(cfg, [table], [(column, text)] + more) == Some((Lower(table), Lower(other), text))
    ensures Version(cfg, s, [table], [(column, text)] + more) == Version(cfg, s, [table], [(other, text)])
  {
    hide Lower, EqualIgnoringCase;
    LowerIffEqual(column, other);
  }

  /** Names that differ only in case have equal versions. */
  lemma VersionIgnoresCase(cfg: Config, s: Index, tables: seq<string>, names: seq<string>, filters: seq<Filter>)
    requires |tables| == |names| && forall i | 0 <= i < |tables| :: EqualIgnoringCase(tables[i], names[i])
    ensures Version(cfg, s, tables, filters) == Version(cfg, s, names, filters)
  {
    hide Lower, EqualIgnoringCase;
    TableVersionIgnoresCase(s, tables, names);
    if |tables| == 1 {
      LowerIffEqual(tables[0], names[0]);
    }
  }

  lemma {:induction false} TableVersionIgnoresCase(s: Index, tables: seq<string>, names: seq<string>)
    requires |tables| == |names| && forall i | 0 <= i < |tables| :: EqualIgnoringCase(tables[i], names[i])
    ensures TableVersion(s, tables) == TableVersion(s, names)
  {
    hide Lower, EqualIgnoringCase;
    if tables != [] {
      var n := |tables| - 1;
      TableVersionIgnoresCase(s, tables[..n], names[..n]);
      LowerIffEqual(tables[n], names[n]);
    }
  }

  // ---------------------------------------------------------------------------------------------
  // The index refines the scan.
  // ---------------------------------------------------------------------------------------------

  lemma {:induction false} InsertAllLookup(
    values: map<ValueKey, nat>, table: string, pairs: seq<Filter>, lsn: nat, key: ValueKey)
    ensures Get(InsertAll(values, table, pairs, lsn), key) ==
            if key.0 == table && (key.1, key.2) in pairs then lsn else Get(values, key)
  {
    if pairs != [] {
      var n := |pairs| - 1;
      assert pairs == pairs[..n] + [pairs[n]];
      InsertAllLookup(values, table, pairs[..n], lsn, key);
    }
  }

  /** One watermark after one change: values are overwritten, the other two take the maximum. */
  lemma AdvanceChangeLookup(cfg: Config, s: Index, lsn: nat, change: RowChange, p: Probe)
    ensures Lookup(AdvanceChange(cfg, s, lsn, change), p) ==
            if !ChangeTouches(cfg, change, p) then Lookup(s, p)
            else if p.ValueProbe? then lsn
            else Max(Lookup(s, p), lsn)
  {
    if p.ValueProbe? {
      InsertAllLookup(s.values, Lower(change.table), ReportedValues(cfg, change), lsn, p.key);
    }
  }

  lemma {:induction false} AdvanceChangesLookup(cfg: Config, s: Index, lsn: nat, changes: seq<RowChange>, p: Probe)
    ensures Lookup(AdvanceChanges(cfg, s, lsn, changes), p) ==
            if !(exists i | 0 <= i < |changes| :: ChangeTouches(cfg, changes[i], p)) then Lookup(s, p)
            else if p.ValueProbe? then lsn
            else Max(Lookup(s, p), lsn)
  {
    hide ChangeTouches, AdvanceChange, Lookup;
    if changes != [] {
      var n := |changes| - 1;
      AdvanceChangesLookup(cfg, s, lsn, changes[..n], p);
      AdvanceChangeLookup(cfg, AdvanceChanges(cfg, s, lsn, changes[..n]), lsn, changes[n], p);
      assert forall i | 0 <= i < n :: changes[..n][i] == changes[i];
      if i :| 0 <= i < |changes| && ChangeTouches(cfg, changes[i], p) && i != n {
        assert ChangeTouches(cfg, changes[..n][i], p);
      }
    }
  }

  /** A log scan never exceeds a bound on every LSN in the log. */
  lemma {:induction false} LastTouchBound(cfg: Config, log: seq<Txn>, p: Probe, bound: nat)
    requires forall i | 0 <= i < |log| :: log[i].lsn <= bound
    ensures LastTouch(cfg, log, p) <= bound
  {
    if log != [] {
      LastTouchBound(cfg, log[..|log| - 1], p, bound);
    }
  }

  /** The scan result is an upper bound that is attained: it is the maximum it is meant to be. */
  lemma {:induction false} LastTouchIsMaximum(cfg: Config, log: seq<Txn>, p: Probe)
    ensures forall i | 0 <= i < |log| && Touches(cfg, log[i], p) :: log[i].lsn <= LastTouch(cfg, log, p)
    ensures LastTouch(cfg, log, p) == 0 ||
            exists i | 0 <= i < |log| :: Touches(cfg, log[i], p) && log[i].lsn == LastTouch(cfg, log, p)
  {
    hide Touches;
    if log != [] {
      var n := |log| - 1;
      LastTouchIsMaximum(cfg, log[..n], p);
      forall i | 0 <= i < |log| && Touches(cfg, log[i], p)
        ensures log[i].lsn <= LastTouch(cfg, log, p)
      {
        if i < n {
          assert log[..n][i] == log[i];
        }
      }
      if LastTouch(cfg, log, p) != 0 && !(Touches(cfg, log[n], p) && log[n].lsn == LastTouch(cfg, log, p)) {
        var i :| 0 <= i < n && Touches(cfg, log[..n][i], p) && log[..n][i].lsn == LastTouch(cfg, log[..n], p);
        assert Touches(cfg, log[i], p) && log[i].lsn == LastTouch(cfg, log, p);
      }
    }
  }

  /** Every watermark of the index is the largest LSN that touches it; the unguarded insert acts as a maximum. */
  lemma {:induction false} IndexRefinesScan(cfg: Config, log: seq<Txn>, p: Probe)
    requires Nondecreasing(log) || !p.ValueProbe?
    ensures Lookup(IndexOf(cfg, log), p) == LastTouch(cfg, log, p)
  {
    if log != [] {
      var n := |log| - 1;
      IndexRefinesScan(cfg, log[..n], p);
      AdvanceChangesLookup(cfg, IndexOf(cfg, log[..n]), log[n].lsn, log[n].changes, p);
      if p.ValueProbe? {
        LastTouchBound(cfg, log[..n], p, log[n].lsn);
      }
    }
  }

  /** The transactions that touch the probe arrive in the order of their LSNs. */
  ghost predicate TouchesInOrder(cfg: Config, log: seq<Txn>, p: Probe) {
    forall i, j | 0 <= i < j < |log| && Touches(cfg, log[i], p) && Touches(cfg, log[j], p) :: log[i].lsn <= log[j].lsn
  }

  ghost predicate RefinedAt(cfg: Config, log: seq<Txn>, p: Probe, n: nat)
    requires n <= |log|
  {
    Lookup(IndexOf(cfg, log[..n]), p) == LastTouch(cfg, log[..n], p)
  }

  ghost predicate RefinesThroughout(cfg: Config, log: seq<Txn>, p: Probe) {
    forall n: nat | n <= |log| :: RefinedAt(cfg, log, p, n)
  }

  lemma InOrderStep(cfg: Config, log: seq<Txn>, p: Probe)
    requires log != []
    ensures var n := |log| - 1;
            TouchesInOrder(cfg, log, p) <==>
            TouchesInOrder(cfg, log[..n], p) && (Touches(cfg, log[n], p) ==> LastTouch(cfg, log[..n], p) <= log[n].lsn)
  {
    hide Touches, LastTouch;
    var n := |log| - 1;
    var before := log[..n];
    assert forall i | 0 <= i < n :: before[i] == log[i];
    LastTouchIsMaximum(cfg, before, p);
    if Touches(cfg, log[n], p) && TouchesInOrder(cfg, log, p) && LastTouch(cfg, before, p) != 0 {
      var i :| 0 <= i < n && Touches(cfg, before[i], p) && before[i].lsn == LastTouch(cfg, before, p);
      assert log[i].lsn <= log[n].lsn;
    }
  }

  lemma RefinesStep(cfg: Config, log: seq<Txn>, p: Probe)
    requires log != []
    ensures var n := |log| - 1;
            RefinesThroughout(cfg, log, p) <==>
            RefinesThroughout(cfg, log[..n], p) && Lookup(IndexOf(cfg, log), p) == LastTouch(cfg, log, p)
  {
    hide RefinedAt;
    var n := |log| - 1;
    forall m: nat | m <= n
      ensures RefinedAt(cfg, log[..n], p, m) <==> RefinedAt(cfg, log, p, m)
    {
      RefinedAtPrefix(cfg, log, p, n, m);
    }
    RefinedAtEnd(cfg, log, p);
  }

  lemma RefinedAtPrefix(cfg: Config, log: seq<Txn>, p: Probe, n: nat, m: nat)
    requires m <= n <= |log|
    ensures RefinedAt(cfg, log[..n], p, m) <==> RefinedAt(cfg, log, p, m)
  {
    hide LastTouch, IndexOf, Lookup;
    assert log[..n][..m] == log[..m];
  }

  lemma RefinedAtEnd(cfg: Config, log: seq<Txn>, p: Probe)
    ensures RefinedAt(cfg, log, p, |log|) <==> Lookup(IndexOf(cfg, log), p) == LastTouch(cfg, log, p)
  {
    hide LastTouch, IndexOf, Lookup;
    assert log[..|log|] == log;
  }

  /**
   The exact condition: a value's watermark agrees with the scan throughout a log if and only if the
   transactions that touch that value arrive in the order of their LSNs.
   */
  lemma {:induction false} RefinesIffInOrder(cfg: Config, log: seq<Txn>, key: ValueKey)
    ensures RefinesThroughout(cfg, log, ValueProbe(key)) <==> TouchesInOrder(cfg, log, ValueProbe(key))
  {
    var p := ValueProbe(key);
    if log != [] {
      var n := |log| - 1;
      RefinesIffInOrder(cfg, log[..n], key);
      InOrderStep(cfg, log, p);
      RefinesStep(cfg, log, p);
      AdvanceChangesLookup(cfg, IndexOf(cfg, log[..n]), log[n].lsn, log[n].changes, p);
      hide RefinesThroughout, TouchesInOrder;
      assert RefinesThroughout(cfg, log[..n], p) ==>
          Lookup(IndexOf(cfg, log[..n]), p) == LastTouch(cfg, log[..n], p) by {
        RefinesAtEnd(cfg, log[..n], p);
      }
    }
  }

  lemma RefinesAtEnd(cfg: Config, log: seq<Txn>, p: Probe)
    ensures RefinesThroughout(cfg, log, p) ==> Lookup(IndexOf(cfg, log), p) == LastTouch(cfg, log, p)
  {
    hide RefinedAt;
    RefinedAtEnd(cfg, log, p);
  }

  function TableScan(cfg: Config, log: seq<Txn>, tables: seq<string>): nat {
    if tables == [] then 0
    else
      var n := |tables| - 1;
      Max(TableScan(cfg, log, tables[..n]), LastTouch(cfg, log, TableProbe(Lower(tables[n]))))
  }

  lemma {:induction false} TruncateWithinTable(cfg: Config, log: seq<Txn>, table: string)
    ensures LastTouch(cfg, log, TruncateProbe(table)) <= LastTouch(cfg, log, TableProbe(table))
  {
    if log != [] {
      var n := |log| - 1;
      TruncateWithinTable(cfg, log[..n], table);
      if i :| 0 <= i < |log[n].changes| && ChangeTouches(cfg, log[n].changes[i], TruncateProbe(table)) {
        assert ChangeTouches(cfg, log[n].changes[i], TableProbe(table));
      }
    }
  }

  lemma {:induction false} TableVersionScans(cfg: Config, log: seq<Txn>, tables: seq<string>)
    ensures TableVersion(IndexOf(cfg, log), tables) == TableScan(cfg, log, tables)
  {
    if tables != [] {
      var n := |tables| - 1;
      TableVersionScans(cfg, log, tables[..n]);
      IndexRefinesScan(cfg, log, TableProbe(Lower(tables[n])));
      IndexRefinesScan(cfg, log, TruncateProbe(Lower(tables[n])));
      TruncateWithinTable(cfg, log, Lower(tables[n]));
    }
  }

  lemma {:induction false} TableScanStep(cfg: Config, log: seq<Txn>, tables: seq<string>)
    requires log != []
    ensures var n := |log| - 1; var before := TableScan(cfg, log[..n], tables);
            TableScan(cfg, log, tables) ==
            if exists i | 0 <= i < |tables| :: Touches(cfg, log[n], TableProbe(Lower(tables[i])))
            then Max(before, log[n].lsn) else before
  {
    if tables != [] {
      var m := |tables| - 1;
      TableScanStep(cfg, log, tables[..m]);
      assert forall i | 0 <= i < m :: tables[..m][i] == tables[i];
    }
  }

  lemma {:induction false} TableScanIsScan(cfg: Config, log: seq<Txn>, tables: seq<string>, filters: seq<Filter>)
    requires Anchor(cfg, tables, filters).None?
    ensures TableScan(cfg, log, tables) == ScanVersion(cfg, log, tables, filters)
  {
    if log == [] {
      TableScanEmpty(cfg, tables);
    } else {
      TableScanStep(cfg, log, tables);
      TableScanIsScan(cfg, log[..|log| - 1], tables, filters);
    }
  }

  lemma {:induction false} TableScanEmpty(cfg: Config, tables: seq<string>)
    ensures TableScan(cfg, [], tables) == 0
  {
    if tables != [] {
      TableScanEmpty(cfg, tables[..|tables| - 1]);
    }
  }

  lemma {:induction false} AnchoredScan(
    cfg: Config, log: seq<Txn>, tables: seq<string>, filters: seq<Filter>, key: ValueKey)
    requires Anchor(cfg, tables, filters) == Some(key)
    ensures Max(LastTouch(cfg, log, ValueProbe(key)), LastTouch(cfg, log, TruncateProbe(key.0))) ==
            ScanVersion(cfg, log, tables, filters)
  {
    if log != [] {
      AnchoredScan(cfg, log[..|log| - 1], tables, filters, key);
    }
  }

  /** The indexed answer is the answer of a full rescan. */
  lemma VersionIsScan(cfg: Config, log: seq<Txn>, tables: seq<string>, filters: seq<Filter>)
    requires Nondecreasing(log)
    ensures Version(cfg, IndexOf(cfg, log), tables, filters) == ScanVersion(cfg, log, tables, filters)
  {
    match Anchor(cfg, tables, filters)
    case Some(key) =>
      IndexRefinesScan(cfg, log, ValueProbe(key));
      IndexRefinesScan(cfg, log, TruncateProbe(key.0));
      AnchoredScan(cfg, log, tables, filters, key);
    case None =>
      TableVersionScans(cfg, log, tables);
      TableScanIsScan(cfg, log, tables, filters);
  }

  /** Versions only grow along a log. */
  lemma {:induction false} VersionMonotone(
    cfg: Config, log: seq<Txn>, i: nat, j: nat, tables: seq<string>, filters: seq<Filter>)
    requires i <= j <= |log|
    ensures ScanVersion(cfg, log[..i], tables, filters) <= ScanVersion(cfg, log[..j], tables, filters)
    decreases j - i
  {
    if i < j {
      assert log[..j][..j - 1] == log[..j - 1];
      VersionMonotone(cfg, log, i, j - 1, tables, filters);
    }
  }

  lemma {:induction false} ScanBound(cfg: Config, log: seq<Txn>, tables: seq<string>, filters: seq<Filter>, bound: nat)
    requires forall i | 0 <= i < |log| :: log[i].lsn <= bound
    ensures ScanVersion(cfg, log, tables, filters) <= bound
  {
    if log != [] {
      ScanBound(cfg, log[..|log| - 1], tables, filters, bound);
    }
  }

  /** Under strictly increasing LSNs a relevant transaction gives the query a version it never had before. */
  lemma RelevantRaisesScan(cfg: Config, log: seq<Txn>, k: nat, tables: seq<string>, filters: seq<Filter>)
    requires k < |log| && Relevant(cfg, log[k], tables, filters)
    requires forall i | 0 <= i < k :: log[i].lsn < log[k].lsn
    requires log[k].lsn > 0
    ensures ScanVersion(cfg, log[..k], tables, filters) < ScanVersion(cfg, log[..k + 1], tables, filters)
  {
    ScanBound(cfg, log[..k], tables, filters, log[k].lsn - 1);
    assert log[..k + 1][..k] == log[..k];
  }

  /** A row-anchored version never exceeds the table's own version. */
  lemma {:induction false} AnchoredWithinTable(cfg: Config, log: seq<Txn>, table: string, filters: seq<Filter>)
    requires Nondecreasing(log)
    ensures Version(cfg, IndexOf(cfg, log), [table], filters) <= Version(cfg, IndexOf(cfg, log), [table], [])
  {
    VersionIsScan(cfg, log, [table], filters);
    VersionIsScan(cfg, log, [table], []);
    AnchoredScanWithinTable(cfg, log, table, filters);
  }

  lemma {:induction false} AnchoredScanWithinTable(cfg: Config, log: seq<Txn>, table: string, filters: seq<Filter>)
    ensures ScanVersion(cfg, log, [table], filters) <= ScanVersion(cfg, log, [table], [])
  {
    if log != [] {
      var n := |log| - 1;
      AnchoredScanWithinTable(cfg, log[..n], table, filters);
      if Relevant(cfg, log[n], [table], filters) {
        RelevantWithinTable(cfg, log[n], table, filters);
      }
    }
  }

  lemma RelevantWithinTable(cfg: Config, txn: Txn, table: string, filters: seq<Filter>)
    requires Relevant(cfg, txn, [table], filters)
    ensures Relevant(cfg, txn, [table], [])
  {
    var probe := TableProbe(Lower([table][0]));
    if Anchor(cfg, [table], filters).Some? {
      var key := Anchor(cfg, [table], filters).value;
      if Touches(cfg, txn, ValueProbe(key)) {
        var i :| 0 <= i < |txn.changes| && ChangeTouches(cfg, txn.changes[i], ValueProbe(key));
        assert ChangeTouches(cfg, txn.changes[i], probe);
      } else {
        var i :| 0 <= i < |txn.changes| && ChangeTouches(cfg, txn.changes[i], TruncateProbe(key.0));
        assert ChangeTouches(cfg, txn.changes[i], probe);
      }
    }
    assert Touches(cfg, txn, probe);
  }

  /** Out of order delivery breaks value watermarks: the later, smaller LSN replaces the larger one. */
  lemma OutOfOrderRegresses()
    ensures var cfg := Config(map["users" := "id"], {}, (_, _) => true);
            var row := [("id", Some("5"))];
            var log := [Txn(1, 9, [Insert("users", row)]), Txn(2, 4, [Insert("users", row)])];
            Version(cfg, IndexOf(cfg, log), ["users"], [("id", "5")]) == 4 &&
            ScanVersion(cfg, log, ["users"], [("id", "5")]) == 9
  {
    var cfg := Config(map["users" := "id"], {}, (_, _) => true);
    var change := Insert("users", [("id", Some("5"))]);
    var first, second := Txn(1, 9, [change]), Txn(2, 4, [change]);
    var log := [first, second];
    var tables, filters, key := ["users"], [("id", "5")], ("users", "id", "5");
    assert Lower("users") == "users" && Lower("id") == "id";
    assert FirstAnchor(cfg, "users", filters) == Some(("id", "5"));
    assert Anchor(cfg, tables, filters) == Some(key);
    assert PkValues(change, "id") == ["5"];
    assert ReportedValues(cfg, change)[0] == ("id", "5");
    assert ChangeTouches(cfg, [change][0], ValueProbe(key));
    assert !ChangeTouches(cfg, change, TruncateProbe("users"));
    assert Touches(cfg, first, ValueProbe(key)) && Touches(cfg, second, ValueProbe(key));
    assert !Touches(cfg, first, TruncateProbe("users")) && !Touches(cfg, second, TruncateProbe("users"));
    assert log[..1] == [first] && [first][..0] == [];
    AdvanceChangesLookup(cfg, IndexOf(cfg, log[..1]), 4, [change], ValueProbe(key));
    IndexRefinesScan(cfg, log, TruncateProbe("users"));
    assert LastTouch(cfg, [first], TruncateProbe("users")) == 0;
    assert LastTouch(cfg, log, TruncateProbe("users")) == 0;
    assert ScanVersion(cfg, [first], tables, filters) == 9;
  }

  // ---------------------------------------------------------------------------------------------
  // The index itself.
  // ---------------------------------------------------------------------------------------------

  class VersionIndex {
    const cfg: Config
    var tables: map<string, nat>
    var values: map<ValueKey, nat>
    var structural: map<string, nat>
    /** Every transaction received so far. */
    ghost var log: seq<Txn>

    ghost function State(): Index
      reads this
    {
      Index(tables, values, structural)
    }

    ghost predicate Valid()
      reads this
    {
      State() == IndexOf(cfg, log)
    }

    /** Folds the schema names; when two names fold together, either may win. */
    constructor (pk: map<string, string>, full: set<string>)
      ensures Valid() && log == []
      ensures cfg.full == set t | t in full :: Lower(t)
      ensures cfg.pk.Keys == set t | t in pk :: Lower(t)
      ensures forall k | k in cfg.pk :: exists t | t in pk :: Lower(t) == k && cfg.pk[k] == Lower(pk[t])
    {
      var folded: map<string, string> := map[];
      var rest := pk.Keys;
      while rest != {}
        invariant rest <= pk.Keys
        invariant folded.Keys == set t | t in pk.Keys - rest :: Lower(t)
        invariant forall k | k in folded :: exists t | t in pk :: Lower(t) == k && folded[k] == Lower(pk[t])
        decreases rest
      {
        var t :| t in rest;
        rest := rest - {t};
        folded := folded[Lower(t) := Lower(pk[t])];
      }
      cfg := Config(folded, set t | t in full :: Lower(t), (_, _) => true);
      tables, values, structural := map[], map[], map[];
      log := [];
    }

    /** Applies one committed transaction. */
    method Advance(txn: Txn)
      requires Valid()
      modifies this
      ensures Valid() && log == old(log) + [txn]
    {
      for i := 0 to |txn.changes|
        invariant State() == AdvanceChanges(cfg, old(State()), txn.lsn, txn.changes[..i])
        invariant log == old(log)
      {
        AdvanceOne(txn.lsn, txn.changes[i]);
        assert txn.changes[..i + 1][..i] == txn.changes[..i];
      }
      assert txn.changes[..|txn.changes|] == txn.changes;
      log := log + [txn];
      assert log[..|log| - 1] == old(log);
    }

    /** The body of the loop over a transaction's changes. */
    method AdvanceOne(lsn: nat, change: RowChange)
      modifies this`tables, this`values, this`structural
      ensures State() == AdvanceChange(cfg, old(State()), lsn, change)
    {
      var table := Lower(change.table);
      var entry := if table in tables then tables[table] else 0;
      tables := tables[table := if lsn > entry then lsn else entry];
      if change.Truncate? {
        var floor := if table in structural then structural[table] else 0;
        structural := structural[table := if lsn > floor then lsn else floor];
      } else if table in cfg.full {
        var columns := ChangeColumns(change);
        InsertPairs(table, FoldColumns(columns), lsn);
      } else if table in cfg.pk {
        InsertPairs(table, UnderColumn(cfg.pk[table], PkValues(change, cfg.pk[table])), lsn);
      }
    }

    method InsertPairs(table: string, pairs: seq<Filter>, lsn: nat)
      modifies this`values
      ensures values == InsertAll(old(values), table, pairs, lsn)
    {
      for i := 0 to |pairs|
        invariant values == InsertAll(old(values), table, pairs[..i], lsn)
      {
        values := values[(table, pairs[i].0, pairs[i].1) := lsn];
        assert pairs[..i + 1][..i] == pairs[..i];
      }
      assert pairs[..|pairs|] == pairs;
    }

    /** The version of a query is what a rescan of everything received would find. */
    method VersionOf(queryTables: seq<string>, filters: seq<Filter>) returns (version: nat)
      requires Valid()
      ensures version == Version(cfg, State(), queryTables, filters)
      ensures Nondecreasing(log) ==> version == ScanVersion(cfg, log, queryTables, filters)
    {
      if Nondecreasing(log) {
        VersionIsScan(cfg, log, queryTables, filters);
      }
      if |queryTables| == 1 {
        var table := Lower(queryTables[0]);
        var found := FirstAnchor(cfg, table, filters);
        if found.Some? {
          var key := (table, Lower(found.value.0), found.value.1);
          var watermark := if key in values then values[key] else 0;
          var floor := if table in structural then structural[table] else 0;
          return Max(watermark, floor);
        }
      }
      version := 0;
      for i := 0 to |queryTables|
        invariant version == TableVersion(State(), queryTables[..i])
      {
        var table := Lower(queryTables[i]);
        if table in tables {
          version := Max(version, tables[table]);
        }
        if table in structural {
          version := Max(version, structural[table]);
        }
        assert queryTables[..i + 1][..i] == queryTables[..i];
      }
      assert queryTables[..|queryTables|] == queryTables;
    }
  }
}

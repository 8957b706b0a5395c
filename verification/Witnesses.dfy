/**
 Concrete queries that the classifier accepts and the cache serves stale: for each, a history in which the
 result changes and the version does not.
 */
module Witnesses {
  import opened Text
  import opened ChangeLog
  import opened VersionIndex
  import opened Anchors
  import opened Database
  import opened Queries
  import opened Invalidation
  import opened Diff
  import opened Feed

  /** A commit that inserts one row. */
  function Inserting(base: Db, table: string, id: nat, row: Row): History {
    History(base, [Commit(Txn(1, 1, [Insert(table, row)]), [InsertRow(table, id, row)])])
  }

  /** An insertion that is not relevant to the query leaves its version alone. */
  lemma MissedInsertion(cfg: Config, q: Query, base: Db, table: string, id: nat, row: Row)
    requires Lower(table) == table && id !in TableOf(base, table) && StorableDb(cfg, base) && cfg.storable(table, row)
    requires !Relevant(cfg, Inserting(base, table, id, row).log[0].txn, Tables(q), Filters(q))
    ensures var h := Inserting(base, table, id, row);
            && ValidHistory(cfg, h) && VersionAt(cfg, h, q, 0) == VersionAt(cfg, h, q, 1)
            && DbAt(h, 0) == base && DbAt(h, 1) == base[table := TableOf(base, table)[id := row]]
  {
    var h := Inserting(base, table, id, row);
    var c := h.log[0];
    assert c.effects[..0] == [];
    assert ReportsCommit(cfg, DbAt(h, 0), c);
    assert ValidHistory(cfg, h);
    VersionAtIsScan(cfg, h, q, 0);
    VersionAtIsScan(cfg, h, q, 1);
    assert Txns(h.log)[..1] == [c.txn] && Txns(h.log)[..0] == [] && [c.txn][..0] == [];
    assert DbAt(h, 1) == ApplyEffects(DbAt(h, 0), c.effects);
  }

  /** The result of a `count(*)`. */
  function CountRow(n: nat): seq<JsonRow> {
    [JsonRow(map["count" := JsonOther(Decimal(n))])]
  }

  lemma CountsDiffer(m: nat, n: nat)
    requires m != n
    ensures CountRow(m) != CountRow(n)
  {
    assert DigitsValue(Decimal(m)) == m && DigitsValue(Decimal(n)) == n;
    assert CountRow(m)[0].fields["count"] == JsonOther(Decimal(m));
    assert CountRow(n)[0].fields["count"] == JsonOther(Decimal(n));
  }

  // ---------------------------------------------------------------------------------------------
  // Two scans of one anchored table.
  // ---------------------------------------------------------------------------------------------

  function IdRow(id: string): Row {
    [("id", Some(id))]
  }

  /** `SELECT count(*) FROM t a CROSS JOIN t b WHERE a.id = 5`. */
  const PAIRS := Query(
    [Relation(["t"], true), Relation(["t"], true)], {},
    Some(BinaryOp(CompoundIdentifier(["a", "id"]), Eq, Constant(Number("5")))), [], false)

  function Fives(t: Table): set<nat> {
    set id | id in t && FindValue(t[id], "id") == Some("5")
  }

  /** Pairs of a row with id 5 and any row. */
  function CountPairs(q: Query, v: View): seq<JsonRow> {
    if v.WholeTables? && "t" in v.tables then
      var t := v.tables["t"];
      CountRow(|Fives(t)| * |t|)
    else []
  }

  const KEYED_BY_ID := Config(map["t" := "id"], {}, (_, _) => true)

  lemma PairsAnchor()
    ensures WellFormed(PAIRS) && Scans(PAIRS) == {"t"} && Lower("t") == "t"
    ensures QueryAnchor(KEYED_BY_ID, PAIRS) == Some(("t", "id", "5"))
  {
    assert Lower("t") == "t" && Lower("id") == "id";
    assert Scans(PAIRS) == {"t"} && Tables(PAIRS) == ["t"] by { TwoRelations(PAIRS); }
    hide Tables, Scans;
    assert Filters(PAIRS) == [("id", "5")];
  }

  /** Two references to the table `t`, of which the first is stored. */
  lemma TwoRelations(q: Query)
    requires |q.relations| == 2 && q.relations[0] == Relation(["t"], true) && q.relations[1].parts == ["t"]
    ensures Scans(q) == {"t"} && Tables(q) == if "t" in q.ctes then [] else ["t"]
  {
    assert Lower("t") == "t";
    assert RelationName(q.relations[0]) == "t" && RelationName(q.relations[1]) == "t";
    var one := q.relations[..1];
    assert one[..0] == [] && TablesIn(one[..0], q.ctes) == [];
    assert TablesIn(one, q.ctes) == if "t" in q.ctes then [] else ["t"];
  }

  lemma OtherIdIrrelevant()
    ensures !Relevant(KEYED_BY_ID, Txn(1, 1, [Insert("t", IdRow("7"))]), Tables(PAIRS), Filters(PAIRS))
  {
    PairsAnchor();
    hide Tables, Filters;
    assert Lower("t") == "t" && Lower("id") == "id";
    var change := Insert("t", IdRow("7"));
    assert FindValue(IdRow("7"), "id") == Some("7");
    assert PkValues(change, "id") == ["7"];
    assert UnderColumn("id", ["7"]) == [("id", "7")];
    assert "5" != "7";
    assert ReportedValues(KEYED_BY_ID, change) == [("id", "7")];
  }

  /** A second row doubles the number of pairs, but only the watermark of id 7 moves. */
  lemma SelfJoinServedStale(logic: Logic, hash: RowHash)
    ensures var h, sem := Inserting(map["t" := map[0 := IdRow("5")]], "t", 1, IdRow("7")),
        Semantics(logic, CountPairs, hash);
            && ValidHistory(KEYED_BY_ID, h) && WellFormed(PAIRS)
            && VersionAt(KEYED_BY_ID, h, PAIRS, 0) == VersionAt(KEYED_BY_ID, h, PAIRS, 1)
            && ResultAt(sem, h, PAIRS, 0) == CountRow(1) && ResultAt(sem, h, PAIRS, 1) == CountRow(2)
            && CountRow(1) != CountRow(2)
  {
    PairsAnchor();
    OtherIdIrrelevant();
    var base: Db := map["t" := map[0 := IdRow("5")]];
    MissedInsertion(KEYED_BY_ID, PAIRS, base, "t", 1, IdRow("7"));
    CountsDiffer(1, 2);
    hide Relevant, Tables, Filters, VersionAt, ValidHistory, DbAt;
    PairsResult(logic, base);
    PairsResult(logic, base["t" := map[0 := IdRow("5"), 1 := IdRow("7")]]);
    assert TableOf(base, "t")[1 := IdRow("7")] == map[0 := IdRow("5"), 1 := IdRow("7")];
  }

  lemma PairsResult(logic: Logic, db: Db)
    requires "t" in db && (db["t"] == map[0 := IdRow("5")] || db["t"] == map[0 := IdRow("5"), 1 := IdRow("7")])
    ensures WellFormed(PAIRS) && CountPairs(PAIRS, ViewOf(logic, PAIRS, db)) == CountRow(|db["t"]|)
  {
    hide QueryAnchor, Tables, Scans, CountRow, Filters, FindValue, IdRow;
    PairsAnchor();
    PairsView(logic, db);
    FiveIsFirst(db["t"]);
  }

  lemma PairsView(logic: Logic, db: Db)
    requires "t" in db && WellFormed(PAIRS) && Scans(PAIRS) == {"t"}
    ensures ViewOf(logic, PAIRS, db) == WholeTables(map["t" := db["t"]])
  {
    hide Scans, Matches;
  }

  lemma FiveIsFirst(t: Table)
    requires t == map[0 := IdRow("5")] || t == map[0 := IdRow("5"), 1 := IdRow("7")]
    ensures |Fives(t)| == 1
  {
    assert FindValue(IdRow("5"), "id") == Some("5") && FindValue(IdRow("7"), "id") == Some("7") && "5" != "7";
    hide FindValue;
    assert Fives(t) == {0};
  }

  // ---------------------------------------------------------------------------------------------
  // A stored table behind a WITH name of the same spelling.
  // ---------------------------------------------------------------------------------------------

  /** `WITH t AS (SELECT * FROM t) SELECT count(*) FROM t`. */
  const SHADOWED := Query([Relation(["t"], true), Relation(["t"], false)], {"t"}, None, [], false)

  function CountTable(q: Query, v: View): seq<JsonRow> {
    if v.WholeTables? && "t" in v.tables then CountRow(|v.tables["t"]|) else []
  }

  lemma ShadowedTables()
    ensures WellFormed(SHADOWED) && Scans(SHADOWED) == {"t"} && Tables(SHADOWED) == [] && Lower("t") == "t"
  {
    assert Lower("t") == "t";
    TwoRelations(SHADOWED);
  }

  /** The query is filed under no table at all, so no commit ever moves its version. */
  lemma ShadowedServedStale(cfg: Config, logic: Logic, hash: RowHash)
    requires cfg.storable("t", IdRow("1"))
    ensures var h, sem := Inserting(map[], "t", 0, IdRow("1")), Semantics(logic, CountTable, hash);
            && ValidHistory(cfg, h) && WellFormed(SHADOWED)
            && VersionAt(cfg, h, SHADOWED, 0) == VersionAt(cfg, h, SHADOWED, 1)
            && ResultAt(sem, h, SHADOWED, 0) == CountRow(0) && ResultAt(sem, h, SHADOWED, 1) == CountRow(1)
            && CountRow(0) != CountRow(1)
  {
    ShadowedTables();
    MissedInsertion(cfg, SHADOWED, map[], "t", 0, IdRow("1"));
    CountsDiffer(0, 1);
    hide Relevant, Tables, VersionAt, ValidHistory, DbAt;
    var after: Db := map["t" := map[0 := IdRow("1")]];
    assert ViewOf(logic, SHADOWED, map[]).tables["t"] == map[];
    assert ViewOf(logic, SHADOWED, after).tables["t"] == map[0 := IdRow("1")];
  }

  // ---------------------------------------------------------------------------------------------
  // A literal spelled differently from the change record.
  // ---------------------------------------------------------------------------------------------

  function CountMatches(q: Query, v: View): seq<JsonRow> {
    if v.MatchingRows? then CountRow(|v.rows|) else []
  }

  /** A row with `active` set arrives, and the count of `WHERE active = TRUE` is served as before. */
  lemma BooleanServedStale(cfg: Config, logic: Logic, hash: RowHash)
    requires cfg.full == {"events"} && logic.same("t", "true") && cfg.storable("events", [("active", Some("t"))])
    ensures var h, sem := Inserting(map[], "events", 0, [("active", Some("t"))]), Semantics(logic, CountMatches, hash);
            && ValidHistory(cfg, h) && WellFormed(BooleanQuery())
            && VersionAt(cfg, h, BooleanQuery(), 0) == VersionAt(cfg, h, BooleanQuery(), 1)
            && ResultAt(sem, h, BooleanQuery(), 0) == CountRow(0) && ResultAt(sem, h, BooleanQuery(), 1) == CountRow(1)
            && CountRow(0) != CountRow(1)
  {
    var q, row := BooleanQuery(), [("active", Some("t"))];
    BooleanAnchor(cfg);
    BooleanNotTracked(cfg);
    BooleanMatches(logic);
    assert Lower("events") == "events";
    MissedInsertion(cfg, q, map[], "events", 0, row) by { BooleanIrrelevant(cfg); }
    CountsDiffer(0, 1);
    hide Relevant, Tables, VersionAt, ValidHistory, DbAt, QueryAnchor, Tracked, Matches;
    assert RelationName(q.relations[0]) == "events";
    assert MatchingIn(logic, q, TableOf(map[], "events")) == map[];
    assert MatchingIn(logic, q, map[0 := row]) == map[0 := row];
  }

  lemma BooleanIrrelevant(cfg: Config)
    requires cfg.full == {"events"}
    ensures var q := BooleanQuery();
            !Relevant(cfg, Txn(1, 1, [Insert("events", [("active", Some("t"))])]), Tables(q), Filters(q))
  {
    BooleanAnchor(cfg);
    BooleanNotTracked(cfg);
    hide Tables, Filters;
  }

  // ---------------------------------------------------------------------------------------------
  // An integer column: other spellings of the number cannot be stored.
  // ---------------------------------------------------------------------------------------------

  /** `SELECT * FROM t WHERE id = 5`. */
  const BY_ID := Query(
    [Relation(["t"], true)], {}, Some(BinaryOp(Identifier("id"), Eq, Constant(Number("5")))), [], true)

  /** Numbers are equal as numbers, whatever their spelling. */
  ghost predicate NumericEquality(logic: Logic) {
    forall a, b | AllDigits(a) && AllDigits(b) && logic.same(a, b) :: DigitsValue(a) == DigitsValue(b)
  }

  /** The column holds numbers in the spelling the database gives them. */
  ghost predicate IntegerColumn(cfg: Config, table: string, column: string) {
    forall row | cfg.storable(table, row) && FindValue(row, column).Some? :: Spelled(FindValue(row, column).value)
  }

  predicate Spelled(text: string) {
    AllDigits(text) && text == Decimal(DigitsValue(text))
  }

  /** So an anchored lookup by number is covered, although "05" equals "5" in SQL. */
  lemma IntegerKeyIsCovered(cfg: Config, logic: Logic)
    requires FoldedConfig(cfg) && NumericEquality(logic) && IntegerColumn(cfg, "t", "id")
    ensures WellFormed(BY_ID) && Covered(cfg, logic, BY_ID)
  {
    assert Lower("t") == "t" && Lower("id") == "id";
    assert RelationName(BY_ID.relations[0]) == "t";
    assert Filters(BY_ID) == [("id", "5")];
    assert Canonical(cfg, logic, "t", ("id", "5")) by {
      forall row | cfg.storable("t", row) && Satisfies(logic, row, ("id", "5"))
        ensures FindValue(row, "id") == Some("5")
      {
        var v := FindValue(row, "id").value;
        assert Spelled(v) && AllDigits("5") && "5" == Decimal(DigitsValue("5"));
        assert DigitsValue(v) == DigitsValue("5");
      }
    }
    CanonicalIsCovered(cfg, logic, BY_ID);
  }
}

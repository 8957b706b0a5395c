/** Classified queries: the tables and filters the classifier derives, and the rows a query can see. */
module Queries {
  import opened Text
  import opened ChangeLog
  import opened VersionIndex
  import opened Anchors
  import opened Database

  /** A relation reference anywhere in the statement; `base` when it resolves to a stored table. */
  datatype Relation = Relation(parts: seq<string>, base: bool)

  /**
   A parsed SELECT. `ctes` are the folded names of its top-level WITH clause, `where` is the
   top-level WHERE clause, and `direct` says that the only relation is a base table scanned once
   by the top-level FROM, so that WHERE filters exactly that scan.
   */
  datatype Query = Query(relations: seq<Relation>, ctes: set<string>, where: Option<Expr>, params: seq<Param>,
      direct: bool)

  ghost predicate WellFormed(q: Query) {
    q.direct ==> |q.relations| == 1 && q.relations[0].base
  }

  function RelationName(r: Relation): string {
    if r.parts == [] then "" else Lower(r.parts[|r.parts| - 1])
  }

  function TablesIn(relations: seq<Relation>, ctes: set<string>): seq<string> {
    if relations == [] then []
    else
      var n := |relations| - 1;
      var before := TablesIn(relations[..n], ctes);
      var name := RelationName(relations[n]);
      if name in ctes || name in before then before else before + [name]
  }

  method CollectTables(relations: seq<Relation>, ctes: set<string>) returns (tables: seq<string>)
    ensures tables == TablesIn(relations, ctes)
  {
    tables := [];
    for i := 0 to |relations|
      invariant tables == TablesIn(relations[..i], ctes)
    {
      var table := RelationName(relations[i]);
      if table !in ctes && table !in tables {
        tables := tables + [table];
      }
      assert relations[..i + 1][..i] == relations[..i];
    }
    assert relations[..|relations|] == relations;
  }

  /** The collected tables are the referenced names that no WITH clause defines, each once, folded. */
  lemma {:induction false} TablesInContents(relations: seq<Relation>, ctes: set<string>)
    ensures NoDuplicates(TablesIn(relations, ctes))
    ensures forall t :: t in TablesIn(relations, ctes) <==>
              t !in ctes && exists i | 0 <= i < |relations| :: RelationName(relations[i]) == t
    ensures forall t | t in TablesIn(relations, ctes) :: Lower(t) == t
  {
    hide Lower, RelationName;
    if relations != [] {
      var n := |relations| - 1;
      TablesInContents(relations[..n], ctes);
      assert forall i | 0 <= i < n :: relations[..n][i] == relations[i];
      RelationNameFolded(relations[n]);
    }
  }

  lemma RelationNameFolded(r: Relation)
    ensures Lower(RelationName(r)) == RelationName(r)
  {
    if r.parts == [] {
      assert Lower("") == "";
    } else {
      LowerIdempotent(r.parts[|r.parts| - 1]);
    }
  }

  /** A qualified name is filed under its last part, whatever the qualifiers. */
  lemma QualifiedName(qualifiers: seq<string>, name: string, base: bool)
    ensures TablesIn([Relation(qualifiers + [name], base)], {}) == [Lower(name)]
  {
    hide Lower;
    var relations := [Relation(qualifiers + [name], base)];
    assert relations[..0] == [] && TablesIn(relations[..0], {}) == [];
  }

  /** The relation with its qualifiers dropped. */
  function LastPart(r: Relation): Relation {
    if r.parts == [] then r else Relation([r.parts[|r.parts| - 1]], r.base)
  }

  function LastParts(relations: seq<Relation>): seq<Relation> {
    seq(|relations|, i requires 0 <= i < |relations| => LastPart(relations[i]))
  }

  /** Dropping every qualifier changes neither the tables a query is filed under nor those it reads. */
  lemma {:induction false} QualifiersDoNotMatter(relations: seq<Relation>, ctes: set<string>)
    ensures TablesIn(LastParts(relations), ctes) == TablesIn(relations, ctes)
  {
    hide Lower;
    if relations != [] {
      var n := |relations| - 1;
      QualifiersDoNotMatter(relations[..n], ctes);
      assert LastParts(relations)[..n] == LastParts(relations[..n]);
    }
  }

  lemma QualifiersDoNotMatterToScans(q: Query)
    ensures Scans(q.(relations := LastParts(q.relations))) == Scans(q)
  {
    hide Lower;
    var plain := LastParts(q.relations);
    forall t | t in Scans(q)
      ensures t in Scans(q.(relations := plain))
    {
      var i :| 0 <= i < |q.relations| && q.relations[i].base && RelationName(q.relations[i]) == t;
      assert plain[i].base && RelationName(plain[i]) == t;
    }
  }

  function Tables(q: Query): seq<string> {
    TablesIn(q.relations, q.ctes)
  }

  function Filters(q: Query): seq<Filter> {
    if q.where.None? then [] else EqFilters(q.where.value, q.params)
  }

  /** The base tables that the query really reads. */
  function Scans(q: Query): set<string> {
    set i | 0 <= i < |q.relations| && q.relations[i].base :: RelationName(q.relations[i])
  }

  /** The transaction changed one of the query's tables. */
  predicate Affected(txn: Txn, q: Query) {
    exists i, c | 0 <= i < |Tables(q)| && 0 <= c < |txn.changes| :: Lower(txn.changes[c].table) == Lower(Tables(q)[i])
  }

  /** That is, a change names one of the query's tables, ignoring case. */
  lemma AffectedExactly(txn: Txn, q: Query)
    ensures Affected(txn, q) <==>
            exists i, c | 0 <= i < |Tables(q)| && 0 <= c < |txn.changes| ::
              EqualIgnoringCase(txn.changes[c].table, Tables(q)[i])
  {
    hide Lower, EqualIgnoringCase, Tables;
    forall i, c | 0 <= i < |Tables(q)| && 0 <= c < |txn.changes|
      ensures Lower(txn.changes[c].table) == Lower(Tables(q)[i]) <==>
              EqualIgnoringCase(txn.changes[c].table, Tables(q)[i])
    {
      LowerIffEqual(txn.changes[c].table, Tables(q)[i]);
    }
  }

  /** Every table the query reads is one of those it is filed under: no WITH name hides one. */
  ghost predicate Watched(q: Query) {
    WellFormed(q) && forall t | t in Scans(q) :: t in Tables(q)
  }

  ghost predicate Matches(logic: Logic, q: Query, row: Row) {
    q.where.None? || Eval(logic, q.where.value, row, q.params) == True
  }

  /** What a query's result is computed from. */
  datatype View = MatchingRows(rows: Table) | WholeTables(tables: map<string, Table>)

  ghost function MatchingIn(logic: Logic, q: Query, t: Table): Table {
    map id | id in t && Matches(logic, q, t[id]) :: t[id]
  }

  ghost function ViewOf(logic: Logic, q: Query, db: Db): View
    requires WellFormed(q)
  {
    if q.direct then MatchingRows(MatchingIn(logic, q, TableOf(db, RelationName(q.relations[0]))))
    else WholeTables(map t | t in Scans(q) :: TableOf(db, t))
  }

  function QueryAnchor(cfg: Config, q: Query): Option<ValueKey> {
    Anchor(cfg, Tables(q), Filters(q))
  }

  function QueryVersion(cfg: Config, index: Index, q: Query): nat {
    Version(cfg, index, Tables(q), Filters(q))
  }
}

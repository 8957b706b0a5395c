/**
 The cache of security verdicts. A call reads the security version, looks in the cache under the lock,
 and otherwise classifies without the lock and stores what it found under the lock again. Schema changes
 and other calls interleave with all of these.
 */
module Security {
  import opened Text

  /** A stored relation: its folded name, and whether row security is on or PUBLIC may not select. */
  type Relation = (string, bool)

  type Catalog = seq<Relation>

  /** The relations the classification query returns for these names. */
  function Named(catalog: Catalog, tables: seq<string>): seq<Relation> {
    if catalog == [] then []
    else
      var n := |catalog| - 1;
      Named(catalog[..n], tables) + (if catalog[n].0 in tables then [catalog[n]] else [])
  }

  /** A name that resolves to more than one relation is private. */
  function Verdicts(rows: seq<Relation>): map<string, bool> {
    if rows == [] then map[]
    else
      var n := |rows| - 1;
      var before := Verdicts(rows[..n]);
      before[rows[n].0 := if rows[n].0 in before then true else rows[n].1]
  }

  method ClassifySecurity(catalog: Catalog, tables: seq<string>) returns (verdicts: map<string, bool>)
    ensures verdicts == Verdicts(Named(catalog, tables))
  {
    verdicts := map[];
    if |tables| == 0 {
      NothingNamed(catalog);
      return;
    }
    var rows := Named(catalog, tables);
    for i := 0 to |rows|
      invariant verdicts == Verdicts(rows[..i])
    {
      var name, private := rows[i].0, rows[i].1;
      verdicts := verdicts[name := if name in verdicts then true else private];
      assert rows[..i + 1][..i] == rows[..i];
    }
    assert rows[..|rows|] == rows;
  }

  lemma {:induction false} NothingNamed(catalog: Catalog)
    ensures Named(catalog, []) == []
  {
    if catalog != [] {
      NothingNamed(catalog[..|catalog| - 1]);
    }
  }

  function Count(rows: seq<Relation>, table: string): nat {
    if rows == [] then 0 else Count(rows[..|rows| - 1], table) + (if rows[|rows| - 1].0 == table then 1 else 0)
  }

  /** The name resolves to exactly one relation, and that relation is open to everyone. */
  predicate PublicIn(catalog: Catalog, table: string) {
    Count(catalog, table) == 1 && (table, false) in catalog
  }

  lemma {:induction false} VerdictsCount(rows: seq<Relation>, table: string)
    ensures table in Verdicts(rows) <==> Count(rows, table) > 0
    ensures table in Verdicts(rows) ==> (Verdicts(rows)[table] <==> !PublicIn(rows, table))
    ensures Count(rows, table) == 0 ==> (table, false) !in rows
  {
    if rows != [] {
      var n := |rows| - 1;
      assert rows == rows[..n] + [rows[n]];
      VerdictsCount(rows[..n], table);
    }
  }

  lemma {:induction false} NamedCount(catalog: Catalog, tables: seq<string>, table: string)
    requires table in tables
    ensures Count(Named(catalog, tables), table) == Count(catalog, table)
    ensures (table, false) in Named(catalog, tables) <==> (table, false) in catalog
  {
    if catalog != [] {
      var n := |catalog| - 1;
      assert catalog == catalog[..n] + [catalog[n]];
      NamedCount(catalog[..n], tables, table);
      var named := Named(catalog, tables);
      if catalog[n].0 in tables {
        assert named[..|named| - 1] == Named(catalog[..n], tables);
      } else {
        assert named == Named(catalog[..n], tables);
      }
    }
  }

  /** Classification is exact: a table is found public exactly when it is. */
  lemma ClassificationExact(catalog: Catalog, tables: seq<string>, table: string)
    requires table in tables
    ensures var v := Verdicts(Named(catalog, tables));
            (table in v && !v[table]) <==> PublicIn(catalog, table)
  {
    VerdictsCount(Named(catalog, tables), table);
    NamedCount(catalog, tables, table);
  }

  /** Private if any table is private or has no verdict. */
  predicate MergeVerdicts(tables: seq<string>, verdicts: map<string, bool>) {
    exists i | 0 <= i < |tables| :: tables[i] !in verdicts || verdicts[tables[i]]
  }

  // ---------------------------------------------------------------------------------------------
  // Interleaved calls.
  // ---------------------------------------------------------------------------------------------

  datatype Call =
    | Begun(tables: seq<string>)
    | Versioned(tables: seq<string>, version: nat)
    | Missed(tables: seq<string>, version: nat)
    | Classified(tables: seq<string>, version: nat, verdicts: map<string, bool>)
    | Answered(tables: seq<string>, version: nat, private: bool, cached: bool)

  /** Every catalog so far, one for each security version; the cache with its tag; and the calls. */
  datatype State = State(catalogs: seq<Catalog>, tag: nat, cache: map<string, bool>, calls: map<nat, Call>)

  datatype Step =
    | Ddl(catalog: Catalog)
    | Begin(id: nat, tables: seq<string>)
    | ReadVersion(id: nat)
    | Check(id: nat)
    | Classify(id: nat)
    | Update(id: nat)

  ghost predicate Init(s: State) {
    |s.catalogs| == 1 && s.tag == 0 && s.cache == map[] && s.calls == map[]
  }

  predicate CacheCovers(s: State, tables: seq<string>, version: nat) {
    s.tag == version && forall i | 0 <= i < |tables| :: tables[i] in s.cache
  }

  /** A version other than the tag clears the cache before the verdicts are stored. */
  function StoreVerdicts(s: State, version: nat, verdicts: map<string, bool>): State {
    s.(tag := version, cache := (if s.tag != version then map[] else s.cache) + verdicts)
  }

  ghost predicate Next(s: State, step: Step, s': State) {
    match step
    case Ddl(catalog) => s' == s.(catalogs := s.catalogs + [catalog])
    case Begin(id, tables) => id !in s.calls && s' == s.(calls := s.calls[id := Begun(tables)])
    case ReadVersion(id) =>
      && id in s.calls && s.calls[id].Begun? && s.catalogs != []
      && s' == s.(calls := s.calls[id := Versioned(s.calls[id].tables, |s.catalogs| - 1)])
    case Check(id) =>
      && id in s.calls && s.calls[id].Versioned?
      && var Versioned(tables, version) := s.calls[id];
      s' == s.(calls := s.calls[id := if CacheCovers(s, tables, version) then Answered(tables, version,
          MergeVerdicts(tables, s.cache), true)
                                      else Missed(tables, version)])
    case Classify(id) =>
      && id in s.calls && s.calls[id].Missed? && s.catalogs != []
      && var Missed(tables, version) := s.calls[id];
      s' == s.(calls := s.calls[id := Classified(tables, version,
          Verdicts(Named(s.catalogs[|s.catalogs| - 1], tables)))])
    case Update(id) =>
      && id in s.calls && s.calls[id].Classified?
      && var Classified(tables, version, verdicts) := s.calls[id];
      s' == StoreVerdicts(s, version, verdicts).(calls :=
          s.calls[id := Answered(tables, version, MergeVerdicts(tables, verdicts), false)])
  }

  /** The locked pair, with its two critical sections; `catalogs` and `calls` record what happens outside the lock. */
  class VerdictCache {
    var tag: nat
    var cache: map<string, bool>
    ghost var catalogs: seq<Catalog>
    ghost var calls: map<nat, Call>

    ghost function Whole(): State
      reads this
    {
      State(catalogs, tag, cache, calls)
    }

    constructor (ghost catalog: Catalog)
      ensures Init(Whole()) && catalogs == [catalog]
    {
      tag, cache, catalogs, calls := 0, map[], [catalog], map[];
    }

    /** The first section is one step of the machine: it answers the call, or sends it to be classified. */
    method TryAnswer(ghost id: nat, tables: seq<string>, version: nat) returns (r: Option<bool>)
      requires id in calls && calls[id] == Versioned(tables, version)
      modifies this`calls
      ensures Next(old(Whole()), Check(id), Whole())
      ensures id in calls && (r.Some? <==> calls[id].Answered?) && (r.Some? ==> calls[id].private == r.value)
    {
      if tag == version && forall i | 0 <= i < |tables| :: tables[i] in cache {
        r := Some(MergeVerdicts(tables, cache));
        calls := calls[id := Answered(tables, version, r.value, true)];
      } else {
        r := None;
        calls := calls[id := Missed(tables, version)];
      }
    }

    /** The second section is one step too: verdicts of another version are dropped, then the new ones are stored. */
    method Absorb(ghost id: nat, tables: seq<string>, version: nat, verdicts: map<string, bool>) returns (private: bool)
      requires id in calls && calls[id] == Classified(tables, version, verdicts)
      modifies this
      ensures Next(old(Whole()), Update(id), Whole())
      ensures id in calls && calls[id] == Answered(tables, version, private, false)
    {
      if tag != version {
        tag, cache := version, map[];
      }
      ghost var start := cache;
      var rest := verdicts.Keys;
      ghost var done: set<string> := {};
      while rest != {}
        invariant done !! rest && done + rest == verdicts.Keys
        invariant tag == version && cache == start + (map t | t in done :: verdicts[t])
        invariant calls == old(calls) && catalogs == old(catalogs)
        decreases rest
      {
        var t :| t in rest;
        rest, done := rest - {t}, done + {t};
        cache := cache[t := verdicts[t]];
      }
      assert (map t | t in done :: verdicts[t]) == verdicts;
      private := MergeVerdicts(tables, verdicts);
      calls := calls[id := Answered(tables, version, private, false)];
    }
  }

  /** The table's verdict comes from a catalog at least as new as the version. */
  ghost predicate VerdictSince(catalogs: seq<Catalog>, version: nat, table: string, private: bool) {
    exists w | version <= w < |catalogs| :: private <==> !PublicIn(catalogs[w], table)
  }

  ghost predicate ClassifiedSince(
    catalogs: seq<Catalog>, version: nat, tables: seq<string>, verdicts: map<string, bool>) {
    exists w | version <= w < |catalogs| :: verdicts == Verdicts(Named(catalogs[w], tables))
  }

  /** What the catalog itself answers for the tables together. */
  predicate AnswerIn(catalog: Catalog, tables: seq<string>, private: bool) {
    private <==> exists i | 0 <= i < |tables| :: !PublicIn(catalog, tables[i])
  }

  /** One catalog at least as new as the version gives this answer for all the tables together. */
  ghost predicate SingleState(catalogs: seq<Catalog>, version: nat, tables: seq<string>, private: bool) {
    exists w | version <= w < |catalogs| :: AnswerIn(catalogs[w], tables, private)
  }

  ghost predicate AnswerInv(catalogs: seq<Catalog>, tables: seq<string>, version: nat, private: bool, cached: bool) {
    && version < |catalogs|
    && (!private ==> forall i | 0 <= i < |tables| :: VerdictSince(catalogs, version, tables[i], false))
    && (private ==> exists i | 0 <= i < |tables| :: VerdictSince(catalogs, version, tables[i], true))
    && (!cached ==> SingleState(catalogs, version, tables, private))
  }

  ghost predicate CallInv(catalogs: seq<Catalog>, call: Call) {
    match call
    case Begun(_) => true
    case Versioned(_, version) => version < |catalogs|
    case Missed(_, version) => version < |catalogs|
    case Classified(tables, version, verdicts) => ClassifiedSince(catalogs, version, tables, verdicts)
    case Answered(tables, version, private, cached) => AnswerInv(catalogs, tables, version, private, cached)
  }

  ghost predicate Inv(s: State) {
    && s.catalogs != []
    && (forall t | t in s.cache :: VerdictSince(s.catalogs, s.tag, t, s.cache[t]))
    && (forall id | id in s.calls :: CallInv(s.catalogs, s.calls[id]))
  }

  lemma NewerVerdict(catalogs: seq<Catalog>, more: seq<Catalog>, version: nat, table: string, private: bool)
    requires VerdictSince(catalogs, version, table, private)
    ensures VerdictSince(catalogs + more, version, table, private)
  {
    var w :| version <= w < |catalogs| && (private <==> !PublicIn(catalogs[w], table));
    assert (catalogs + more)[w] == catalogs[w];
  }

  lemma NewerCall(catalogs: seq<Catalog>, more: seq<Catalog>, call: Call)
    requires CallInv(catalogs, call)
    ensures CallInv(catalogs + more, call)
  {
    match call
    case Begun(_) =>
    case Versioned(_, _) =>
    case Missed(_, _) =>
    case Classified(tables, version, verdicts) =>
      var w :| version <= w < |catalogs| && verdicts == Verdicts(Named(catalogs[w], tables));
      assert (catalogs + more)[w] == catalogs[w];
    case Answered(tables, version, private, cached) =>
      NewerAnswer(catalogs, more, tables, version, private, cached);
  }

  lemma NewerAnswer(
    catalogs: seq<Catalog>, more: seq<Catalog>, tables: seq<string>, version: nat, private: bool, cached: bool)
    requires AnswerInv(catalogs, tables, version, private, cached)
    ensures AnswerInv(catalogs + more, tables, version, private, cached)
  {
    hide VerdictSince, PublicIn;
    if private {
      var i :| 0 <= i < |tables| && VerdictSince(catalogs, version, tables[i], true);
      NewerVerdict(catalogs, more, version, tables[i], true);
    } else {
      forall i | 0 <= i < |tables|
        ensures VerdictSince(catalogs + more, version, tables[i], false)
      {
        NewerVerdict(catalogs, more, version, tables[i], false);
      }
    }
    if !cached {
      var w :| version <= w < |catalogs| && AnswerIn(catalogs[w], tables, private);
      assert (catalogs + more)[w] == catalogs[w];
    }
  }

  /**
   An answer is remembered: while the tag stays, a call for tables that were all found is answered at once, and alike.
   */
  lemma AnswerRemembered(s: State, id: nat, stored: State, next: nat, after: State)
    requires Next(s, Update(id), stored) && Next(stored, Check(next), after)
    requires next != id && stored.calls[next] == Versioned(s.calls[id].tables, s.calls[id].version)
    requires forall t | t in s.calls[id].tables :: t in s.calls[id].verdicts
    ensures after.calls[next].Answered? && after.calls[next].cached
    ensures after.calls[next].private == stored.calls[id].private
    ensures after.cache == stored.cache && after.tag == stored.tag
  {
    var tables, verdicts := s.calls[id].tables, s.calls[id].verdicts;
    assert forall i | 0 <= i < |tables| :: tables[i] in tables;
    assert forall t | t in verdicts :: t in stored.cache && stored.cache[t] == verdicts[t];
  }

  /** Nothing is answered from the cache unless the tag is the version read and every table has a verdict. */
  lemma CachedOnlyIfCovered(s: State, id: nat, after: State)
    requires Next(s, Check(id), after)
    ensures after.calls[id].Answered? <==>
            s.tag == s.calls[id].version && forall t | t in s.calls[id].tables :: t in s.cache
  {
    var tables := s.calls[id].tables;
    assert forall i | 0 <= i < |tables| :: tables[i] in tables;
  }

  /** Fresh classification answers from one catalog. */
  lemma ClassifiedAnswer(catalogs: seq<Catalog>, tables: seq<string>, version: nat, verdicts: map<string, bool>)
    requires ClassifiedSince(catalogs, version, tables, verdicts)
    ensures SingleState(catalogs, version, tables, MergeVerdicts(tables, verdicts))
    ensures AnswerInv(catalogs, tables, version, MergeVerdicts(tables, verdicts), false)
    ensures forall t | t in verdicts && t in tables :: VerdictSince(catalogs, version, t, verdicts[t])
  {
    var w :| version <= w < |catalogs| && verdicts == Verdicts(Named(catalogs[w], tables));
    forall i | 0 <= i < |tables|
      ensures tables[i] in verdicts && !verdicts[tables[i]] <==> PublicIn(catalogs[w], tables[i])
    {
      ClassificationExact(catalogs[w], tables, tables[i]);
    }
    hide PublicIn, Verdicts, Named;
    if i :| 0 <= i < |tables| && (tables[i] !in verdicts || verdicts[tables[i]]) {
      assert !PublicIn(catalogs[w], tables[i]);
      assert VerdictSince(catalogs, version, tables[i], true);
    }
  }

  /** A cached answer puts together verdicts that may come from different catalogs. */
  lemma CachedAnswer(s: State, tables: seq<string>, version: nat)
    requires Inv(s) && CacheCovers(s, tables, version) && version < |s.catalogs|
    ensures AnswerInv(s.catalogs, tables, version, MergeVerdicts(tables, s.cache), true)
  {
    hide PublicIn, CallInv, VerdictSince;
    assert forall i | 0 <= i < |tables| :: VerdictSince(s.catalogs, version, tables[i], s.cache[tables[i]]);
  }

  lemma {:induction false} VerdictNames(rows: seq<Relation>)
    ensures forall t | t in Verdicts(rows) :: exists i | 0 <= i < |rows| :: rows[i].0 == t
  {
    if rows != [] {
      var n := |rows| - 1;
      VerdictNames(rows[..n]);
      assert forall i | 0 <= i < n :: rows[..n][i] == rows[i];
    }
  }

  lemma {:induction false} NamedNames(catalog: Catalog, tables: seq<string>)
    ensures forall i | 0 <= i < |Named(catalog, tables)| :: Named(catalog, tables)[i].0 in tables
  {
    if catalog != [] {
      NamedNames(catalog[..|catalog| - 1], tables);
    }
  }

  lemma NextInv(s: State, step: Step, s': State)
    requires Inv(s) && Next(s, step, s')
    ensures Inv(s')
  {
    hide PublicIn, Verdicts, Named, AnswerInv, VerdictSince, MergeVerdicts;
    match step
    case Ddl(catalog) =>
      forall t | t in s.cache
        ensures VerdictSince(s'.catalogs, s'.tag, t, s.cache[t])
      {
        NewerVerdict(s.catalogs, [catalog], s.tag, t, s.cache[t]);
      }
      forall id | id in s.calls
        ensures CallInv(s'.catalogs, s.calls[id])
      {
        NewerCall(s.catalogs, [catalog], s.calls[id]);
      }
    case Begin(id, tables) =>
    case ReadVersion(id) =>
    case Check(id) =>
      if CacheCovers(s, s.calls[id].tables, s.calls[id].version) {
        CachedAnswer(s, s.calls[id].tables, s.calls[id].version);
      }
    case Classify(id) =>
      assert s.calls[id].version <= |s.catalogs| - 1;
    case Update(id) =>
      var Classified(tables, version, verdicts) := s.calls[id];
      ClassifiedAnswer(s.catalogs, tables, version, verdicts);
      var w :| version <= w < |s.catalogs| && verdicts == Verdicts(Named(s.catalogs[w], tables));
      VerdictNames(Named(s.catalogs[w], tables));
      NamedNames(s.catalogs[w], tables);
      assert forall t | t in verdicts :: t in tables;
  }

  datatype Run = Run(states: seq<State>, steps: seq<Step>)

  ghost predicate IsRun(run: Run) {
    && |run.states| == |run.steps| + 1 && Init(run.states[0])
    && forall i | 0 <= i < |run.steps| :: Next(run.states[i], run.steps[i], run.states[i + 1])
  }

  lemma {:induction false} RunInv(run: Run, i: nat)
    requires IsRun(run) && i < |run.states|
    ensures Inv(run.states[i])
  {
    hide Next;
    if i > 0 {
      RunInv(run, i - 1);
      NextInv(run.states[i - 1], run.steps[i - 1], run.states[i]);
    }
  }

  // ---------------------------------------------------------------------------------------------
  // When an answer is the answer of one catalog.
  // ---------------------------------------------------------------------------------------------

  /** All the names in the list are the same name; the list may be empty. */
  predicate AtMostOne(tables: seq<string>) {
    forall i, j | 0 <= i < |tables| && 0 <= j < |tables| :: tables[i] == tables[j]
  }

  lemma OneCatalog(catalogs: seq<Catalog>, tables: seq<string>, version: nat, private: bool, cached: bool)
    requires AnswerInv(catalogs, tables, version, private, cached)
    requires !cached || private || AtMostOne(tables)
    ensures SingleState(catalogs, version, tables, private)
  {
    hide PublicIn;
    if cached && private {
      var i :| 0 <= i < |tables| && VerdictSince(catalogs, version, tables[i], true);
      var w :| version <= w < |catalogs| && (true <==> !PublicIn(catalogs[w], tables[i]));
      assert AnswerIn(catalogs[w], tables, private);
    } else if cached && tables == [] {
      assert AnswerIn(catalogs[version], tables, private);
    } else if cached {
      assert VerdictSince(catalogs, version, tables[0], false);
      var w :| version <= w < |catalogs| && (false <==> !PublicIn(catalogs[w], tables[0]));
      assert AnswerIn(catalogs[w], tables, private);
    }
  }

  /**
   In every run, "public" means that each table resolved to exactly one open relation in some catalog no
   older than the version this call read; and an answer that was classified, that is private, or that names at
   most one table is the answer of one such catalog.
   */
  lemma AnswersAreFresh(run: Run, i: nat, id: nat)
    requires IsRun(run) && i < |run.states| && id in run.states[i].calls && run.states[i].calls[id].Answered?
    ensures var s := run.states[i]; var Answered(tables, version, private, cached) := s.calls[id];
            && (!private ==> forall n | 0 <= n < |tables| :: VerdictSince(s.catalogs, version, tables[n], false))
            && (!cached || private || AtMostOne(tables) ==> SingleState(s.catalogs, version, tables, private))
  {
    hide IsRun, PublicIn, SingleState, VerdictSince;
    RunInv(run, i);
    var s := run.states[i];
    assert CallInv(s.catalogs, s.calls[id]);
    var Answered(tables, version, private, cached) := s.calls[id];
    if !cached || private || AtMostOne(tables) {
      OneCatalog(s.catalogs, tables, version, private, cached);
    }
  }

  /** In this state, every answer for these tables is the answer of one catalog. */
  ghost predicate AnsweredByOne(s: State, tables: seq<string>) {
    forall id | id in s.calls && s.calls[id].Answered? && s.calls[id].tables == tables ::
      SingleState(s.catalogs, s.calls[id].version, tables, s.calls[id].private)
  }

  ghost predicate AlwaysAnsweredByOne(tables: seq<string>) {
    forall run: Run, i: nat | IsRun(run) && i < |run.states| :: AnsweredByOne(run.states[i], tables)
  }

  /**
   The exact condition: over all runs, every answer for a list of tables is the answer of one catalog no older
   than the version read, if and only if the list names at most one table.
   */
  lemma OneCatalogIff(tables: seq<string>)
    ensures AlwaysAnsweredByOne(tables) <==> AtMostOne(tables)
  {
    hide IsRun, SingleState;
    if AtMostOne(tables) {
      forall run: Run, i: nat | IsRun(run) && i < |run.states|
        ensures AnsweredByOne(run.states[i], tables)
      {
        forall id | id in run.states[i].calls && run.states[i].calls[id].Answered? &&
            run.states[i].calls[id].tables == tables
          ensures SingleState(run.states[i].catalogs, run.states[i].calls[id].version, tables,
              run.states[i].calls[id].private)
        {
          AnswersAreFresh(run, i, id);
        }
      }
    } else {
      var x, y :| 0 <= x < |tables| && 0 <= y < |tables| && tables[x] != tables[y];
      var run, s := MixedRun(tables, x, y);
      var n: nat := |run.states| - 1;
      assert s.calls[2].Answered? && s.calls[2].tables == tables;
      assert !AnsweredByOne(run.states[n], tables);
    }
  }

  // ---------------------------------------------------------------------------------------------
  // Two different names can always be mixed.
  // ---------------------------------------------------------------------------------------------

  /** Every name but one, each as a single open relation. */
  function OpenExcept(names: seq<string>, hidden: string): Catalog {
    if names == [] then []
    else
      var n := |names| - 1;
      var before := OpenExcept(names[..n], hidden);
      if names[n] == hidden || names[n] in names[..n] then before else before + [(names[n], false)]
  }

  lemma {:induction false} OpenExceptCount(names: seq<string>, hidden: string, t: string)
    ensures Count(OpenExcept(names, hidden), t) == if t in names && t != hidden then 1 else 0
    ensures forall i | 0 <= i < |OpenExcept(names, hidden)| :: !OpenExcept(names, hidden)[i].1
  {
    if names != [] {
      var n := |names| - 1;
      OpenExceptCount(names[..n], hidden, t);
      var before, all := OpenExcept(names[..n], hidden), OpenExcept(names, hidden);
      assert names == names[..n] + [names[n]];
      if all != before {
        assert all[..|all| - 1] == before;
      }
    }
  }

  /** One run being built, and the state it has reached. */
  ghost predicate Reaches(run: Run, s: State) {
    IsRun(run) && run.states != [] && run.states[|run.states| - 1] == s
  }

  lemma Take(run: Run, s: State, step: Step, s': State) returns (more: Run)
    requires Reaches(run, s) && Next(s, step, s')
    ensures Reaches(more, s')
  {
    hide Next, Init;
    more := Run(run.states + [s'], run.steps + [step]);
    forall i | 0 <= i < |more.steps|
      ensures Next(more.states[i], more.steps[i], more.states[i + 1])
    {
      if i < |run.steps| {
        assert Next(run.states[i], run.steps[i], run.states[i + 1]);
      }
    }
  }

  lemma OnlyOpen(name: string, other: string)
    requires other != name
    ensures PublicIn([(name, false)], name) && !PublicIn([(name, false)], other)
    ensures Verdicts(Named([(name, false)], [name])) == map[name := false]
  {
    var one: Catalog := [(name, false)];
    assert one[..0] == [] && Named(one[..0], [name]) == [];
    assert Named(one, [name]) == one;
  }

  lemma AllButOneOpen(tables: seq<string>, hidden: string, t: string)
    requires t in tables
    ensures PublicIn(OpenExcept(tables, hidden), t) <==> t != hidden
    ensures var v := Verdicts(Named(OpenExcept(tables, hidden), tables)); t != hidden ==> t in v && !v[t]
  {
    var catalog := OpenExcept(tables, hidden);
    OpenExceptCount(tables, hidden, t);
    if t != hidden {
      var i := CountedOnce(catalog, t);
      assert catalog[i] == (t, false);
    }
    ClassificationExact(catalog, tables, t);
  }

  lemma {:induction false} CountedOnce(rows: seq<Relation>, t: string) returns (i: nat)
    requires Count(rows, t) > 0
    ensures i < |rows| && rows[i].0 == t
  {
    var n := |rows| - 1;
    if rows[n].0 == t {
      i := n;
    } else {
      i := CountedOnce(rows[..n], t);
    }
  }

  /** The state with three calls, at tag 0. */
  function Three(catalogs: seq<Catalog>, cache: map<string, bool>, zero: Call, one: Call, two: Call): State {
    State(catalogs, 0, cache, map[0 := zero, 1 := one, 2 := two])
  }

  /** Three calls for all the tables, for one of them, and for all again have read version 0; the first two missed. */
  lemma ThreeCalls(tables: seq<string>, b: string, catalog: Catalog) returns (run: Run, s: State)
    requires tables != []
    ensures Reaches(run, s) && s == Three([catalog], map[], Missed(tables, 0), Missed([b], 0), Versioned(tables, 0))
  {
    hide Reaches;
    var c: seq<Catalog> := [catalog];
    s := State(c, 0, map[], map[]);
    run := Begins(s);
    run, s := Go(run, s, Begin(0, tables), State(c, 0, map[], map[0 := Begun(tables)]));
    run, s := Go(run, s, Begin(1, [b]), State(c, 0, map[], map[0 := Begun(tables), 1 := Begun([b])]));
    run, s := Go(run, s, Begin(2, tables), Three(c, map[], Begun(tables), Begun([b]), Begun(tables)));
    run, s := Go(run, s, ReadVersion(0), Three(c, map[], Versioned(tables, 0), Begun([b]), Begun(tables)));
    run, s := Go(run, s, ReadVersion(1), Three(c, map[], Versioned(tables, 0), Versioned([b], 0), Begun(tables)));
    run, s := Go(run, s, ReadVersion(2),
        Three(c, map[], Versioned(tables, 0), Versioned([b], 0), Versioned(tables, 0)));
    assert tables[0] !in s.cache && [b][0] !in s.cache;
    run, s := Go(run, s, Check(0), Three(c, map[], Missed(tables, 0), Versioned([b], 0), Versioned(tables, 0)));
    run, s := Go(run, s, Check(1), Three(c, map[], Missed(tables, 0), Missed([b], 0), Versioned(tables, 0)));
  }

  lemma Begins(s: State) returns (run: Run)
    requires Init(s)
    ensures Reaches(run, s)
  {
    run := Run([s], []);
  }

  lemma Go(run: Run, s: State, step: Step, s': State) returns (more: Run, reached: State)
    requires Reaches(run, s) && Next(s, step, s')
    ensures reached == s' && Reaches(more, reached)
  {
    hide Reaches, Next;
    more := Take(run, s, step, s');
    reached := s';
  }

  /** The first two calls classify under different catalogs. */
  lemma TwoClassified(tables: seq<string>, b: string, before: Catalog, after: Catalog) returns (run: Run, s: State)
    requires tables != []
    ensures var v, u := Verdicts(Named(before, tables)), Verdicts(Named(after, [b]));
            && Reaches(run, s)
            && s == Three([before, after], map[], Classified(tables, 0, v), Classified([b], 0, u), Versioned(tables, 0))
  {
    hide Reaches, Verdicts, Named;
    run, s := ThreeCalls(tables, b, before);
    var v, u, two := Verdicts(Named(before, tables)), Verdicts(Named(after, [b])), Versioned(tables, 0);
    run, s := Go(run, s, Classify(0), Three([before], map[], Classified(tables, 0, v), Missed([b], 0), two));
    assert [before] + [after] == [before, after];
    run, s := Go(run, s, Ddl(after), Three([before, after], map[], Classified(tables, 0, v), Missed([b], 0), two));
    run, s := Go(run, s, Classify(1),
        Three([before, after], map[], Classified(tables, 0, v), Classified([b], 0, u), two));
  }

  /** They store their verdicts under one tag. */
  lemma TwoCatalogs(tables: seq<string>, b: string, before: Catalog, after: Catalog) returns (run: Run, s: State)
    requires tables != []
    ensures var cache := Verdicts(Named(before, tables)) + Verdicts(Named(after, [b]));
            && Reaches(run, s) && s.catalogs == [before, after] && s.tag == 0 && s.cache == cache
            && 2 in s.calls && s.calls[2] == Versioned(tables, 0)
  {
    hide Reaches, Verdicts, Named, MergeVerdicts;
    run, s := TwoClassified(tables, b, before, after);
    var v, u, two := Verdicts(Named(before, tables)), Verdicts(Named(after, [b])), Versioned(tables, 0);
    var first, second := Answered(tables, 0, MergeVerdicts(tables, v), false),
        Answered([b], 0, MergeVerdicts([b], u), false);
    assert map[] + v == v;
    run, s := Go(run, s, Update(0), Three([before, after], v, first, Classified([b], 0, u), two));
    run, s := Go(run, s, Update(1), Three([before, after], v + u, first, second, two));
  }

  /**
   For any list with two different names: two slow calls that read the same version leave verdicts of two
   catalogs under one tag, and a third call with that version is told "public" for the whole list, although no
   catalog since then has all of it public.
   */
  lemma MixedRun(tables: seq<string>, x: nat, y: nat) returns (run: Run, s: State)
    requires x < |tables| && y < |tables| && tables[x] != tables[y]
    ensures IsRun(run) && run.states != [] && run.states[|run.states| - 1] == s
    ensures 2 in s.calls && s.calls[2] == Answered(tables, 0, false, true)
    ensures !SingleState(s.catalogs, 0, tables, false)
  {
    var a, b := tables[x], tables[y];
    var before, after: Catalog := OpenExcept(tables, b), [(b, false)];
    OnlyOpen(b, a);
    forall t | t in tables
      ensures PublicIn(before, t) <==> t != b
      ensures t != b ==> t in Verdicts(Named(before, tables)) && !Verdicts(Named(before, tables))[t]
    {
      AllButOneOpen(tables, b, t);
    }
    run, s := TwoCatalogs(tables, b, before, after);
    hide PublicIn, Verdicts, Named;
    assert CacheCovers(s, tables, 0) && !MergeVerdicts(tables, s.cache);
    run, s := Go(run, s, Check(2), s.(calls := s.calls[2 := Answered(tables, 0, false, true)]));
    assert !PublicIn(s.catalogs[0], tables[y]) && !PublicIn(s.catalogs[1], tables[x]);
  }
}

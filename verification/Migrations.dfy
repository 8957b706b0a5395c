/**
 Applying migration chains. Each file runs in its own transaction together with its ledger row, so a
 file's effect and its record commit or roll back as one.
 */
module Migrations {
  import opened Text

  datatype MigrationFile = MigrationFile(filename: string, sql: string, checksum: string)

  datatype Chain = Chain(app: string, files: seq<MigrationFile>)

  /** World, app and file name. */
  type LedgerKey = (string, string, string)

  /** The ledger, the SQL effects committed so far in order, and the recorded table lists. */
  datatype Store = Store(
    ledger: map<LedgerKey, string>, effects: seq<LedgerKey>, schemas: map<(string, string), seq<string>>)

  datatype TxOutcome = Commits | ExecFails | CommitFails

  /** How the database responds to each statement of a run, and which destructive files are acknowledged. */
  datatype Env = Env(
    listed: (string, Store) -> bool,
    lookedUp: (MigrationFile, Store) -> bool,
    transact: (MigrationFile, Store) -> TxOutcome,
    acknowledged: MigrationFile -> bool,
    reflect: Store -> Option<seq<string>>)

  datatype Failure =
    | ListFailed(app: string)
    | MissingOnDisk(app: string)
    | LookupFailed(key: LedgerKey)
    | ChecksumChanged(key: LedgerKey)
    | Unacknowledged(key: LedgerKey)
    | TransactionFailed(key: LedgerKey)
    | SchemaFailed(app: string)

  datatype Progress = Progress(store: Store, applied: seq<LedgerKey>, already: nat, failure: Option<Failure>)

  function KeyOfFile(world: string, app: string, file: MigrationFile): LedgerKey {
    (world, app, file.filename)
  }

  function Record(store: Store, key: LedgerKey, checksum: string): Store {
    store.(ledger := store.ledger[key := checksum], effects := store.effects + [key])
  }

  /** One file: already applied, rejected, or committed together with its ledger row. */
  function ApplyFile(env: Env, world: string, app: string, p: Progress, file: MigrationFile): Progress
    requires p.failure.None?
  {
    var key := KeyOfFile(world, app, file);
    if !env.lookedUp(file, p.store) then p.(failure := Some(LookupFailed(key)))
    else if key in p.store.ledger then
      if p.store.ledger[key] != file.checksum then p.(failure := Some(ChecksumChanged(key)))
      else p.(already := p.already + 1)
    else if !env.acknowledged(file) then p.(failure := Some(Unacknowledged(key)))
    else if env.transact(file, p.store) != Commits then p.(failure := Some(TransactionFailed(key)))
    else p.(store := Record(p.store, key, file.checksum), applied := p.applied + [key])
  }

  function ApplyFiles(env: Env, world: string, app: string, p: Progress, files: seq<MigrationFile>): Progress
    decreases |files|
  {
    if files == [] || p.failure.Some? then p
    else ApplyFiles(env, world, app, ApplyFile(env, world, app, p, files[0]), files[1..])
  }

  /** Some applied file of the chain has no file on disk. */
  predicate HasMissing(store: Store, world: string, chain: Chain) {
    exists key | key in store.ledger ::
      key.0 == world && key.1 == chain.app && forall i | 0 <= i < |chain.files| :: chain.files[i].filename != key.2
  }

  function RecordSchema(env: Env, world: string, chain: Chain, p: Progress): Progress {
    if p.failure.Some? then p
    else
      match env.reflect(p.store)
      case None => p.(failure := Some(SchemaFailed(chain.app)))
      case Some(tables) => p.(store := p.store.(schemas := p.store.schemas[(world, chain.app) := tables]))
  }

  function ApplyChain(env: Env, world: string, p: Progress, chain: Chain): Progress {
    if p.failure.Some? then p
    else if !env.listed(chain.app, p.store) then p.(failure := Some(ListFailed(chain.app)))
    else if HasMissing(p.store, world, chain) then p.(failure := Some(MissingOnDisk(chain.app)))
    else RecordSchema(env, world, chain, ApplyFiles(env, world, chain.app, p, chain.files))
  }

  function ApplyChains(env: Env, world: string, p: Progress, chains: seq<Chain>): Progress
    decreases |chains|
  {
    if chains == [] || p.failure.Some? then p
    else ApplyChains(env, world, ApplyChain(env, world, p, chains[0]), chains[1..])
  }

  function Start(store: Store): Progress {
    Progress(store, [], 0, None)
  }

  class SchemaOps {
    var store: Store

    constructor ()
      ensures store == Store(map[], [], map[])
    {
      store := Store(map[], [], map[]);
    }

    /** The loops over chains and files, stopping at the first failure. */
    method ApplyMigrations(env: Env, world: string, chains: seq<Chain>) returns (p: Progress)
      modifies this
      ensures p == ApplyChains(env, world, Start(old(store)), chains) && store == p.store
      ensures exists stores ::
                IsRun(env, world, old(store), Requests(chains), stores, p.failure) && stores[|stores| - 1] == store
    {
      hide IsRun, Requests;
      ghost var r := ApplyChains(env, world, Start(store), chains);
      RunExactly(env, world, chains, store, r.failure, r.store);
      p := Start(store);
      for c := 0 to |chains|
        invariant p.failure.None? && store == p.store
        invariant ApplyChains(env, world, p, chains[c..]) == ApplyChains(env, world, Start(old(store)), chains)
      {
        var chain := chains[c];
        assert chains[c..][1..] == chains[c + 1..];
        ghost var next := ApplyChain(env, world, p, chain);
        if !env.listed(chain.app, store) || HasMissing(store, world, chain) {
          var failure := if env.listed(chain.app, store) then MissingOnDisk(chain.app) else ListFailed(chain.app);
          p := p.(failure := Some(failure));
          StopsAt(env, world, next, chains[c + 1..]);
          return;
        }
        p := RunFiles(env, world, chain, p);
        if p.failure.None? {
          var tables := env.reflect(store);
          if tables.None? {
            p := p.(failure := Some(SchemaFailed(chain.app)));
          } else {
            store := store.(schemas := store.schemas[(world, chain.app) := tables.value]);
            p := p.(store := store);
          }
        }
        assert p == next;
        if p.failure.Some? {
          StopsAt(env, world, p, chains[c + 1..]);
          return;
        }
      }
    }

    method RunFiles(env: Env, world: string, chain: Chain, start: Progress) returns (p: Progress)
      requires start.failure.None? && store == start.store
      modifies this
      ensures p == ApplyFiles(env, world, chain.app, start, chain.files) && store == p.store
    {
      p := start;
      for i := 0 to |chain.files|
        invariant p.failure.None? && store == p.store
        invariant ApplyFiles(env, world, chain.app, p, chain.files[i..]) ==
            ApplyFiles(env, world, chain.app, start, chain.files)
      {
        var file := chain.files[i];
        assert chain.files[i..][1..] == chain.files[i + 1..];
        var key := KeyOfFile(world, chain.app, file);
        if !env.lookedUp(file, store) {
          p := p.(failure := Some(LookupFailed(key)));
          return;
        }
        if key in store.ledger {
          if store.ledger[key] != file.checksum {
            p := p.(failure := Some(ChecksumChanged(key)));
            return;
          }
          p := p.(already := p.already + 1);
        } else if !env.acknowledged(file) {
          p := p.(failure := Some(Unacknowledged(key)));
          return;
        } else if env.transact(file, store) == Commits {
          store := Record(store, key, file.checksum);
          p := p.(store := store, applied := p.applied + [key]);
        } else {
          p := p.(failure := Some(TransactionFailed(key)));
          return;
        }
      }
    }
  }

  lemma StopsAt(env: Env, world: string, p: Progress, rest: seq<Chain>)
    requires p.failure.Some?
    ensures ApplyChains(env, world, p, rest) == p
  {
  }

  // ---------------------------------------------------------------------------------------------
  // Effects commit at most once.
  // ---------------------------------------------------------------------------------------------

  /** Each effect was committed once and has its ledger row. */
  ghost predicate Once(store: Store) {
    NoDuplicates(store.effects) && forall i | 0 <= i < |store.effects| :: store.effects[i] in store.ledger
  }

  /** The later store has every row of the earlier one unchanged, and its effects followed by new ones. */
  ghost predicate Extends(before: Store, after: Store) {
    && (forall key | key in before.ledger :: key in after.ledger && after.ledger[key] == before.ledger[key])
    && before.effects <= after.effects
    && (forall key | key in after.ledger && key !in before.ledger :: key in after.effects[|before.effects|..])
    && (forall i | |before.effects| <= i < |after.effects| :: after.effects[i] !in before.ledger)
  }

  ghost predicate Advances(p: Progress, r: Progress) {
    && Once(r.store) && Extends(p.store, r.store)
    && |p.applied| <= |r.applied| && r.applied[..|p.applied|] == p.applied
    && r.store.effects == p.store.effects + r.applied[|p.applied|..]
    && p.already <= r.already
  }

  lemma AdvancesTransitive(p: Progress, q: Progress, r: Progress)
    requires Advances(p, q) && Advances(q, r)
    ensures Advances(p, r)
  {
    assert r.applied[..|p.applied|] == p.applied;
    assert r.store.effects == p.store.effects + r.applied[|p.applied|..];
    ExtendsTransitive(p.store, q.store, r.store);
  }

  lemma ExtendsTransitive(a: Store, b: Store, c: Store)
    requires Extends(a, b) && Extends(b, c)
    ensures Extends(a, c)
  {
    var n, m := |a.effects|, |b.effects|;
    assert c.effects[..m] == b.effects && b.effects[..n] == a.effects;
    assert c.effects[..n] == a.effects;
    assert c.effects[n..] == b.effects[n..] + c.effects[m..];
    forall i | n <= i < |c.effects|
      ensures c.effects[i] !in a.ledger
    {
      if i < m {
        assert c.effects[i] == b.effects[i];
      }
    }
  }

  lemma FileAdvances(env: Env, world: string, app: string, p: Progress, file: MigrationFile)
    requires Once(p.store) && p.failure.None?
    ensures Advances(p, ApplyFile(env, world, app, p, file))
  {
    var r := ApplyFile(env, world, app, p, file);
    assert p.applied[|p.applied|..] == [] && p.store.effects + [] == p.store.effects;
    if r.store != p.store {
      var key := KeyOfFile(world, app, file);
      assert r.applied[|p.applied|..] == [key];
      assert r.store.effects[|p.store.effects|..] == [key];
      assert NoDuplicates(r.store.effects);
    }
  }

  lemma AdvancesReflexive(p: Progress)
    requires Once(p.store)
    ensures Advances(p, p)
  {
    assert p.applied[|p.applied|..] == [] && p.store.effects + [] == p.store.effects;
    assert p.applied[..|p.applied|] == p.applied;
  }

  lemma {:induction false} FilesAdvance(env: Env, world: string, app: string, p: Progress, files: seq<MigrationFile>)
    requires Once(p.store)
    ensures Advances(p, ApplyFiles(env, world, app, p, files))
    decreases |files|
  {
    AdvancesReflexive(p);
    if files != [] && p.failure.None? {
      var q := ApplyFile(env, world, app, p, files[0]);
      FileAdvances(env, world, app, p, files[0]);
      FilesAdvance(env, world, app, q, files[1..]);
      AdvancesTransitive(p, q, ApplyFiles(env, world, app, q, files[1..]));
    }
  }

  lemma ChainAdvances(env: Env, world: string, p: Progress, chain: Chain)
    requires Once(p.store)
    ensures Advances(p, ApplyChain(env, world, p, chain))
  {
    hide HasMissing, ApplyFiles;
    AdvancesReflexive(p);
    if p.failure.None? && !HasMissing(p.store, world, chain) {
      FilesAdvance(env, world, chain.app, p, chain.files);
    }
  }

  /** A run only adds ledger rows, alters none, and commits each new file's effect once, in the order applied. */
  lemma {:induction false} ChainsAdvance(env: Env, world: string, p: Progress, chains: seq<Chain>)
    requires Once(p.store)
    ensures Advances(p, ApplyChains(env, world, p, chains))
    decreases |chains|
  {
    AdvancesReflexive(p);
    if chains != [] && p.failure.None? {
      var q := ApplyChain(env, world, p, chains[0]);
      ChainAdvances(env, world, p, chains[0]);
      ChainsAdvance(env, world, q, chains[1..]);
      AdvancesTransitive(p, q, ApplyChains(env, world, q, chains[1..]));
    }
  }

  /** One run among many: its environment, its world and its chains. */
  datatype Invocation = Invocation(env: Env, world: string, chains: seq<Chain>)

  function AfterRuns(store: Store, runs: seq<Invocation>): Store {
    if runs == [] then store
    else
      var n := |runs| - 1;
      ApplyChains(runs[n].env, runs[n].world, Start(AfterRuns(store, runs[..n])), runs[n].chains).store
  }

  /** Across any sequence of runs, failing or not, effects commit at most once and no ledger row ever changes. */
  lemma {:induction false} EffectsCommitOnce(store: Store, runs: seq<Invocation>)
    requires Once(store)
    ensures Once(AfterRuns(store, runs)) && Extends(store, AfterRuns(store, runs))
  {
    if runs == [] {
      AdvancesReflexive(Start(store));
    } else {
      var n := |runs| - 1;
      EffectsCommitOnce(store, runs[..n]);
      var before := AfterRuns(store, runs[..n]);
      ChainsAdvance(runs[n].env, runs[n].world, Start(before), runs[n].chains);
      ExtendsTransitive(store, before, AfterRuns(store, runs));
    }
  }

  // ---------------------------------------------------------------------------------------------
  // The outcome of one run.
  // ---------------------------------------------------------------------------------------------

  /** A unit of work: the key a file is recorded under, and its checksum. */
  datatype Item = Item(key: LedgerKey, checksum: string)

  function ItemsOf(world: string, chain: Chain): seq<Item> {
    seq(|chain.files|, i requires 0 <= i < |chain.files| =>
      Item(KeyOfFile(world, chain.app, chain.files[i]), chain.files[i].checksum))
  }

  /** Everything a run has to do, in order. */
  function Agenda(world: string, chains: seq<Chain>): seq<Item> {
    if chains == [] then [] else ItemsOf(world, chains[0]) + Agenda(world, chains[1..])
  }

  /** The keys the ledger does not have yet, each at its first occurrence. */
  function NewKeys(ledger: map<LedgerKey, string>, items: seq<Item>): seq<LedgerKey> {
    if items == [] then []
    else
      var n := |items| - 1;
      var earlier := NewKeys(ledger, items[..n]);
      if items[n].key in ledger || items[n].key in earlier then earlier else earlier + [items[n].key]
  }

  ghost predicate Recorded(store: Store, items: seq<Item>) {
    forall i | 0 <= i < |items| ::
      items[i].key in store.ledger && store.ledger[items[i].key] == items[i].checksum
  }

  function KeysOf(items: seq<Item>): set<LedgerKey> {
    set i | 0 <= i < |items| :: items[i].key
  }

  /** From `start`, exactly the items of `done` have been dealt with and every one of them is recorded. */
  ghost predicate Dealt(start: Store, done: seq<Item>, p: Progress) {
    && p.applied == NewKeys(start.ledger, done)
    && |p.applied| + p.already == |done|
    && Recorded(p.store, done)
    && p.store.ledger.Keys == start.ledger.Keys + KeysOf(done)
    && p.store.effects == start.effects + p.applied
  }

  /** A failure raised by one file: a recorded checksum that differs, or a file left unrecorded. */
  predicate FailsAt(store: Store, failure: Failure, item: Item) {
    match failure
    case LookupFailed(key) => key == item.key
    case ChecksumChanged(key) => key == item.key && key in store.ledger && store.ledger[key] != item.checksum
    case Unacknowledged(key) => key == item.key && key !in store.ledger
    case TransactionFailed(key) => key == item.key && key !in store.ledger
    case _ => false
  }

  lemma {:induction false} NewKeysMembers(ledger: map<LedgerKey, string>, items: seq<Item>)
    ensures forall key :: key in NewKeys(ledger, items) <==> key in KeysOf(items) && key !in ledger
  {
    if items != [] {
      var n := |items| - 1;
      NewKeysMembers(ledger, items[..n]);
      assert items[..n] + [items[n]] == items;
      KeysAppend(items[..n], items[n]);
    }
  }

  lemma KeysAppend(items: seq<Item>, item: Item)
    ensures KeysOf(items + [item]) == KeysOf(items) + {item.key}
  {
    var all := items + [item];
    forall key | key in KeysOf(items) + {item.key}
      ensures key in KeysOf(all)
    {
      if key in KeysOf(items) {
        var i :| 0 <= i < |items| && items[i].key == key;
        assert all[i].key == key;
      } else {
        assert all[|items|].key == key;
      }
    }
  }

  lemma NewKeysStep(ledger: map<LedgerKey, string>, done: seq<Item>, item: Item)
    ensures NewKeys(ledger, done + [item]) ==
        NewKeys(ledger, done) + (if item.key in ledger || item.key in KeysOf(done) then [] else [item.key])
  {
    NewKeysMembers(ledger, done);
    assert (done + [item])[..|done|] == done;
  }

  lemma FileDealt(env: Env, world: string, app: string, start: Store, done: seq<Item>, p: Progress, file: MigrationFile)
    requires p.failure.None? && Dealt(start, done, p)
    ensures var r := ApplyFile(env, world, app, p, file);
      var item := Item(KeyOfFile(world, app, file), file.checksum);
      && (r.failure.None? ==> Dealt(start, done + [item], r))
      && (r.failure.Some? ==> Dealt(start, done, r) && FailsAt(r.store, r.failure.value, item))
  {
    hide NewKeys, KeysOf;
    var item := Item(KeyOfFile(world, app, file), file.checksum);
    KeysAppend(done, item);
    NewKeysStep(start.ledger, done, item);
    assert item.key in p.store.ledger <==> item.key in start.ledger || item.key in KeysOf(done);
  }

  /** Of `rest`, the first `n` items were dealt with; a failure is the next file's. */
  ghost predicate Stopped(start: Store, done: seq<Item>, rest: seq<Item>, n: nat, r: Progress) {
    && n <= |rest|
    && Dealt(start, done + rest[..n], r)
    && (r.failure.None? ==> n == |rest|)
    && (r.failure.Some? ==> n < |rest| && FailsAt(r.store, r.failure.value, rest[n]))
  }

  lemma {:induction false} FilesDealt(
    env: Env, world: string, chain: Chain, start: Store, done: seq<Item>, p: Progress, k: nat)
    returns (n: nat)
    requires p.failure.None? && Dealt(start, done, p) && k <= |chain.files|
    ensures Stopped(start, done, ItemsOf(world, chain)[k..], n, ApplyFiles(env, world, chain.app, p, chain.files[k..]))
    decreases |chain.files| - k
  {
    hide Dealt, FailsAt, ApplyFile;
    var files, rest := chain.files[k..], ItemsOf(world, chain)[k..];
    assert done + rest[..0] == done;
    n := 0;
    if k < |chain.files| {
      assert files[1..] == chain.files[k + 1..] && rest[1..] == ItemsOf(world, chain)[k + 1..];
      FileDealt(env, world, chain.app, start, done, p, files[0]);
      var q := ApplyFile(env, world, chain.app, p, files[0]);
      if q.failure.None? {
        n := FilesDealt(env, world, chain, start, done + [rest[0]], q, k + 1);
        assert done + [rest[0]] + rest[1..][..n] == done + rest[..n + 1];
        n := n + 1;
      }
    }
  }

  /** A chain-level failure comes before the chain's files or after all of them. */
  ghost predicate ChainFails(store: Store, rest: seq<Item>, n: nat, failure: Failure) {
    match failure
    case ListFailed(_) => n == 0
    case MissingOnDisk(_) => n == 0
    case SchemaFailed(_) => n == |rest|
    case _ => n < |rest| && FailsAt(store, failure, rest[n])
  }

  ghost predicate ChainStopped(start: Store, done: seq<Item>, rest: seq<Item>, n: nat, r: Progress) {
    && n <= |rest|
    && Dealt(start, done + rest[..n], r)
    && (r.failure.None? ==> n == |rest|)
    && (r.failure.Some? ==> ChainFails(r.store, rest, n, r.failure.value))
  }

  lemma ChainDealt(env: Env, world: string, chain: Chain, start: Store, done: seq<Item>, p: Progress)
    returns (n: nat)
    requires p.failure.None? && Dealt(start, done, p)
    ensures ChainStopped(start, done, ItemsOf(world, chain), n, ApplyChain(env, world, p, chain))
  {
    hide NewKeys, KeysOf, ApplyFiles, HasMissing, ItemsOf;
    var rest := ItemsOf(world, chain);
    assert done + rest[..0] == done;
    n := 0;
    if env.listed(chain.app, p.store) && !HasMissing(p.store, world, chain) {
      n := FilesDealt(env, world, chain, start, done, p, 0);
      assert chain.files[0..] == chain.files && rest[0..] == rest;
    }
  }

  /** A failing file is item `n` of the agenda; a failing chain is the `c`-th, before or after all of its files. */
  ghost predicate FailsWithin(store: Store, world: string, chains: seq<Chain>, n: nat, c: nat, failure: Failure) {
    var agenda := Agenda(world, chains);
    && n <= |agenda| && c < |chains|
    && match failure
       case ListFailed(app) => app == chains[c].app && agenda[..n] == Agenda(world, chains[..c])
       case MissingOnDisk(app) => app == chains[c].app && agenda[..n] == Agenda(world, chains[..c])
       case SchemaFailed(app) => app == chains[c].app && agenda[..n] == Agenda(world, chains[..c + 1])
       case _ => n < |agenda| && FailsAt(store, failure, agenda[n])
  }

  /**
   Where a run stops. Of the agenda's items exactly the first `n` were dealt with: each is recorded with its
   checksum, those the ledger lacked were applied once in agenda order, and nothing else was committed.
   */
  ghost predicate Outcome(
    start: Store, done: seq<Item>, world: string, chains: seq<Chain>, n: nat, c: nat, r: Progress) {
    var agenda := Agenda(world, chains);
    && n <= |agenda|
    && Dealt(start, done + agenda[..n], r)
    && (r.failure.None? ==> n == |agenda|)
    && (r.failure.Some? ==> FailsWithin(r.store, world, chains, n, c, r.failure.value))
  }

  lemma AgendaHead(world: string, chains: seq<Chain>, c: nat)
    requires chains != [] && c < |chains|
    ensures Agenda(world, chains[..c + 1]) == ItemsOf(world, chains[0]) + Agenda(world, chains[1..][..c])
  {
    assert chains[..c + 1][1..] == chains[1..][..c];
  }

  /** A failure in the first chain is a failure of the run. */
  lemma HeadFailsWithin(env: Env, world: string, chains: seq<Chain>, n: nat, p: Progress)
    requires chains != [] && p.failure.None?
    requires var r := ApplyChain(env, world, p, chains[0]);
      r.failure.Some? && ChainFails(r.store, ItemsOf(world, chains[0]), n, r.failure.value)
    ensures var r := ApplyChain(env, world, p, chains[0]);
      FailsWithin(r.store, world, chains, n, 0, r.failure.value)
  {
    hide HasMissing, ItemsOf;
    AgendaHead(world, chains, 0);
    FilesFailAtKeys(env, world, chains[0].app, p, chains[0].files);
    var rest, agenda := ItemsOf(world, chains[0]), Agenda(world, chains);
    assert agenda == rest + Agenda(world, chains[1..]);
    assert agenda[..|rest|] == rest;
    assert chains[..0] == [] && Agenda(world, chains[1..][..0]) == [];
  }

  lemma FilesFailAtKeys(env: Env, world: string, app: string, p: Progress, files: seq<MigrationFile>)
    requires p.failure.None?
    ensures var f := ApplyFiles(env, world, app, p, files).failure;
      f.Some? ==> !f.value.ListFailed? && !f.value.MissingOnDisk? && !f.value.SchemaFailed?
    decreases |files|
  {
    if files != [] {
      var q := ApplyFile(env, world, app, p, files[0]);
      if q.failure.None? {
        FilesFailAtKeys(env, world, app, q, files[1..]);
      }
    }
  }

  /** A failure in a later chain is a failure of the run, one chain further on. */
  lemma TailFailsWithin(store: Store, world: string, chains: seq<Chain>, n: nat, c: nat, failure: Failure)
    requires chains != [] && FailsWithin(store, world, chains[1..], n, c, failure)
    ensures FailsWithin(store, world, chains, |ItemsOf(world, chains[0])| + n, c + 1, failure)
  {
    hide ItemsOf;
    var head, tail := ItemsOf(world, chains[0]), Agenda(world, chains[1..]);
    AgendaHead(world, chains, c);
    if c + 1 < |chains| {
      AgendaHead(world, chains, c + 1);
    }
    var agenda := Agenda(world, chains);
    assert agenda == head + tail;
    assert agenda[..|head| + n] == head + tail[..n];
  }

  lemma {:induction false} ChainsDealt(
    env: Env, world: string, chains: seq<Chain>, start: Store, done: seq<Item>, p: Progress)
    returns (n: nat, c: nat)
    requires p.failure.None? && Dealt(start, done, p)
    ensures Outcome(start, done, world, chains, n, c, ApplyChains(env, world, p, chains))
    decreases |chains|
  {
    hide Dealt, FailsWithin, ItemsOf, ApplyChain, ChainFails;
    n, c := 0, 0;
    if chains == [] {
      assert done + Agenda(world, chains)[..0] == done;
    } else {
      var q := ApplyChain(env, world, p, chains[0]);
      var head, tail := ItemsOf(world, chains[0]), Agenda(world, chains[1..]);
      n := ChainDealt(env, world, chains[0], start, done, p);
      assert (head + tail)[..n] == head[..n];
      if q.failure.Some? {
        HeadFailsWithin(env, world, chains, n, p);
      } else {
        assert head[..n] == head;
        n, c := ChainsDealt(env, world, chains[1..], start, done + head, q);
        assert done + head + tail[..n] == done + (head + tail)[..|head| + n];
        var r := ApplyChains(env, world, q, chains[1..]);
        if r.failure.Some? {
          TailFailsWithin(r.store, world, chains, n, c, r.failure.value);
        }
        n, c := |head| + n, c + 1;
      }
    }
  }

  /** Every run, from any store, ends in such an outcome. */
  lemma RunOutcome(env: Env, world: string, chains: seq<Chain>, store: Store) returns (n: nat, c: nat)
    ensures Outcome(store, [], world, chains, n, c, ApplyChains(env, world, Start(store), chains))
  {
    n, c := ChainsDealt(env, world, chains, store, [], Start(store));
  }

  // ---------------------------------------------------------------------------------------------
  // A run and the answers of the database.
  // ---------------------------------------------------------------------------------------------

  /** What a run asks of the database: a chain's recorded files, one file, or the reflected tables. */
  datatype Request = ListRequest(chain: Chain) | FileRequest(app: string,
      file: MigrationFile) | SchemaRequest(app: string)

  function FileRequests(app: string, files: seq<MigrationFile>): seq<Request> {
    seq(|files|, i requires 0 <= i < |files| => FileRequest(app, files[i]))
  }

  function ChainRequests(chain: Chain): seq<Request> {
    [ListRequest(chain)] + FileRequests(chain.app, chain.files) + [SchemaRequest(chain.app)]
  }

  /** Everything a run asks, in order, if nothing fails. */
  function Requests(chains: seq<Chain>): seq<Request> {
    if chains == [] then [] else ChainRequests(chains[0]) + Requests(chains[1..])
  }

  /** A file name is recorded for the chain's app in this world, and the chain has no such file. */
  ghost predicate Missing(s: Store, world: string, chain: Chain) {
    exists name ::
      (world, chain.app, name) in s.ledger && forall i | 0 <= i < |chain.files| :: chain.files[i].filename != name
  }

  /** The file is recorded with its own checksum. */
  ghost predicate AlreadyRecorded(env: Env, world: string, s: Store, app: string, file: MigrationFile) {
    var key := (world, app, file.filename);
    env.lookedUp(file, s) && key in s.ledger && s.ledger[key] == file.checksum
  }

  /** The file was looked up, is absent and acknowledged, and its transaction on this store commits. */
  ghost predicate Committed(env: Env, world: string, s: Store, app: string, file: MigrationFile) {
    && env.lookedUp(file, s) && (world, app, file.filename) !in s.ledger
    && env.acknowledged(file) && env.transact(file, s) == Commits
  }

  ghost predicate Passes(env: Env, world: string, s: Store, request: Request) {
    match request
    case ListRequest(chain) => env.listed(chain.app, s) && !Missing(s, world, chain)
    case FileRequest(app, file) => AlreadyRecorded(env, world, s, app, file) || Committed(env, world, s, app, file)
    case SchemaRequest(_) => env.reflect(s).Some?
  }

  /** What a request that passes leaves behind. */
  ghost predicate Follows(env: Env, world: string, s: Store, request: Request, next: Store) {
    match request
    case ListRequest(_) => next == s
    case FileRequest(app, file) =>
      if Committed(env, world, s, app, file) then
        var key := (world, app, file.filename);
        next == Store(s.ledger[key := file.checksum], s.effects + [key], s.schemas)
      else next == s
    case SchemaRequest(app) =>
      exists tables :: env.reflect(s) == Some(tables) &&
                       next == Store(s.ledger, s.effects, s.schemas[(world, app) := tables])
  }

  /** Each failure and the answer that causes it. */
  ghost predicate FailsAs(env: Env, world: string, s: Store, request: Request, failure: Failure) {
    match request
    case ListRequest(chain) =>
      || (failure == ListFailed(chain.app) && !env.listed(chain.app, s))
      || (failure == MissingOnDisk(chain.app) && env.listed(chain.app, s) && Missing(s, world, chain))
    case FileRequest(app, file) =>
      var key := (world, app, file.filename);
      if !env.lookedUp(file, s) then failure == LookupFailed(key)
      else if key in s.ledger then failure == ChecksumChanged(key) && s.ledger[key] != file.checksum
      else
        || (failure == Unacknowledged(key) && !env.acknowledged(file))
        || (failure == TransactionFailed(key) && env.acknowledged(file) && env.transact(file, s) != Commits)
    case SchemaRequest(app) => failure == SchemaFailed(app) && env.reflect(s).None?
  }

  /**
   The stores that a run passes through, the first before any request and each next one after one more request that
   passes on the store reached by then. The run succeeds when no request is left, and otherwise fails at the next one.
   */
  ghost predicate IsRun(
    env: Env, world: string, start: Store, requests: seq<Request>, stores: seq<Store>, failure: Option<Failure>) {
    && 1 <= |stores| <= |requests| + 1 && stores[0] == start
    && (forall i | 0 <= i < |stores| - 1 :: PassesTo(env, world, requests[i], stores[i], stores[i + 1]))
    && (failure.None? <==> |stores| == |requests| + 1)
    && (failure.Some? ==> FailsAs(env, world, stores[|stores| - 1], requests[|stores| - 1], failure.value))
  }

  ghost predicate PassesTo(env: Env, world: string, request: Request, s: Store, next: Store) {
    Passes(env, world, s, request) && Follows(env, world, s, request, next)
  }

  function Perform(env: Env, world: string, p: Progress, request: Request): Progress
    requires p.failure.None?
  {
    match request
    case ListRequest(chain) =>
      if !env.listed(chain.app, p.store) then p.(failure := Some(ListFailed(chain.app)))
      else if HasMissing(p.store, world, chain) then p.(failure := Some(MissingOnDisk(chain.app)))
      else p
    case FileRequest(app, file) => ApplyFile(env, world, app, p, file)
    case SchemaRequest(app) => RecordSchema(env, world, Chain(app, []), p)
  }

  function PerformAll(env: Env, world: string, p: Progress, requests: seq<Request>): Progress
    decreases |requests|
  {
    if requests == [] || p.failure.Some? then p
    else PerformAll(env, world, Perform(env, world, p, requests[0]), requests[1..])
  }

  lemma {:induction false} PerformBoth(env: Env, world: string, p: Progress, a: seq<Request>, b: seq<Request>)
    ensures PerformAll(env, world, p, a + b) == PerformAll(env, world, PerformAll(env, world, p, a), b)
    decreases |a|
  {
    hide Perform;
    if a == [] {
      assert a + b == b;
    } else if p.failure.None? {
      assert (a + b)[0] == a[0] && (a + b)[1..] == a[1..] + b;
      PerformBoth(env, world, Perform(env, world, p, a[0]), a[1..], b);
    }
  }

  lemma PerformOne(env: Env, world: string, p: Progress, request: Request)
    requires p.failure.None?
    ensures PerformAll(env, world, p, [request]) == Perform(env, world, p, request)
  {
    hide Perform;
    assert [request][1..] == [];
  }

  lemma {:induction false} FilesPerformed(env: Env, world: string, app: string, p: Progress, files: seq<MigrationFile>)
    ensures PerformAll(env, world, p, FileRequests(app, files)) == ApplyFiles(env, world, app, p, files)
    decreases |files|
  {
    hide ApplyFile;
    if files != [] && p.failure.None? {
      var requests := FileRequests(app, files);
      assert requests[0] == FileRequest(app, files[0]) && requests[1..] == FileRequests(app, files[1..]);
      FilesPerformed(env, world, app, ApplyFile(env, world, app, p, files[0]), files[1..]);
    }
  }

  lemma ChainPerformed(env: Env, world: string, p: Progress, chain: Chain)
    requires p.failure.None?
    ensures PerformAll(env, world, p, ChainRequests(chain)) == ApplyChain(env, world, p, chain)
  {
    hide PerformAll, FileRequests, ApplyFiles, HasMissing;
    var q := PerformAll(env, world, p, [ListRequest(chain)]);
    PerformOne(env, world, p, ListRequest(chain));
    PerformBoth(env, world, p, [ListRequest(chain)], FileRequests(chain.app, chain.files));
    FilesPerformed(env, world, chain.app, q, chain.files);
    PerformBoth(env, world, p, [ListRequest(chain)] + FileRequests(chain.app, chain.files), [SchemaRequest(chain.app)]);
    var r := ApplyFiles(env, world, chain.app, q, chain.files);
    if q.failure.Some? {
      Stays(env, world, q, chain);
    } else if r.failure.None? {
      PerformOne(env, world, r, SchemaRequest(chain.app));
    } else {
      Stays(env, world, r, chain);
    }
  }

  /** Nothing is done after a failure. */
  lemma Stays(env: Env, world: string, p: Progress, chain: Chain)
    requires p.failure.Some?
    ensures ApplyFiles(env, world, chain.app, p, chain.files) == p
    ensures PerformAll(env, world, p, [SchemaRequest(chain.app)]) == p
  {
  }

  lemma {:induction false} ChainsPerformed(env: Env, world: string, p: Progress, chains: seq<Chain>)
    ensures PerformAll(env, world, p, Requests(chains)) == ApplyChains(env, world, p, chains)
    decreases |chains|
  {
    hide ApplyChain, ChainRequests;
    if chains != [] && p.failure.None? {
      ChainPerformed(env, world, p, chains[0]);
      PerformBoth(env, world, p, ChainRequests(chains[0]), Requests(chains[1..]));
      ChainsPerformed(env, world, ApplyChain(env, world, p, chains[0]), chains[1..]);
    }
  }

  /** The key of a file that a request commits, if it does. */
  ghost predicate CommitsKey(env: Env, world: string, s: Store, request: Request, key: LedgerKey) {
    request.FileRequest? && key == (world, request.app, request.file.filename) &&
        Committed(env, world, s, request.app, request.file)
  }

  lemma PerformExact(env: Env, world: string, p: Progress, request: Request)
    requires p.failure.None?
    ensures var r := Perform(env, world, p, request);
            && (r.failure.None? ==> PassesTo(env, world, request, p.store, r.store))
            && (r.failure.Some? ==> r.store == p.store && FailsAs(env, world, p.store, request, r.failure.value))
            && (forall key :: key in r.applied <==> key in p.applied || CommitsKey(env, world, p.store, request, key))
  {
    if request.ListRequest? {
      MissingIffHas(p.store, world, request.chain);
    }
  }

  lemma MissingIffHas(s: Store, world: string, chain: Chain)
    ensures HasMissing(s, world, chain) <==> Missing(s, world, chain)
  {
    if HasMissing(s, world, chain) {
      var key :| key in s.ledger && key.0 == world && key.1 == chain.app &&
                 forall i | 0 <= i < |chain.files| :: chain.files[i].filename != key.2;
      assert (world, chain.app, key.2) in s.ledger;
    }
  }

  /** The request that commits the key was reached. */
  ghost predicate CommitsAt(
    env: Env, world: string, requests: seq<Request>, stores: seq<Store>, key: LedgerKey, i: int) {
    0 <= i < |stores| && i < |requests| && CommitsKey(env, world, stores[i], requests[i], key)
  }

  lemma CommitsFrom(env: Env, world: string, requests: seq<Request>, stores: seq<Store>, key: LedgerKey)
    requires requests != [] && stores != []
    ensures (exists i :: CommitsAt(env, world, requests, stores, key, i)) <==>
            || CommitsKey(env, world, stores[0], requests[0], key)
            || exists i :: CommitsAt(env, world, requests[1..], stores[1..], key, i)
  {
    hide CommitsKey;
    if i :| CommitsAt(env, world, requests, stores, key, i) && i > 0 {
      assert CommitsAt(env, world, requests[1..], stores[1..], key, i - 1);
    }
    if i :| CommitsAt(env, world, requests[1..], stores[1..], key, i) {
      assert CommitsAt(env, world, requests, stores, key, i + 1);
    }
    if CommitsKey(env, world, stores[0], requests[0], key) {
      assert CommitsAt(env, world, requests, stores, key, 0);
    }
  }

  lemma {:induction false} Performed(
    env: Env, world: string, p: Progress, requests: seq<Request>)
    returns (stores: seq<Store>)
    requires p.failure.None?
    ensures var r := PerformAll(env, world, p, requests);
            && IsRun(env, world, p.store, requests, stores, r.failure) && stores[|stores| - 1] == r.store
            && forall key ::
                 key in r.applied <==> key in p.applied || exists i :: CommitsAt(env, world, requests, stores, key, i)
    decreases |requests|
  {
    hide Perform, FailsAs, PassesTo, CommitsKey;
    stores := [p.store];
    if requests != [] {
      PerformExact(env, world, p, requests[0]);
      var q := Perform(env, world, p, requests[0]);
      if q.failure.None? {
        var rest := Performed(env, world, q, requests[1..]);
        stores := [p.store] + rest;
        assert stores[1..] == rest;
        RunFrom(env, world, requests, stores, PerformAll(env, world, p, requests).failure);
      }
      forall key
        ensures (exists i :: CommitsAt(env, world, requests, stores, key, i)) <==>
                || CommitsKey(env, world, stores[0], requests[0], key)
                || exists i :: CommitsAt(env, world, requests[1..], stores[1..], key, i)
      {
        CommitsFrom(env, world, requests, stores, key);
      }
    }
  }

  lemma RunFrom(env: Env, world: string, requests: seq<Request>, stores: seq<Store>, failure: Option<Failure>)
    requires requests != [] && |stores| > 1
    requires PassesTo(env, world, requests[0], stores[0], stores[1])
    requires IsRun(env, world, stores[1], requests[1..], stores[1..], failure)
    ensures IsRun(env, world, stores[0], requests, stores, failure)
  {
    hide FailsAs, PassesTo;
    forall i | 0 <= i < |stores| - 1
      ensures PassesTo(env, world, requests[i], stores[i], stores[i + 1])
    {
      if i > 0 {
        assert PassesTo(env, world, requests[1..][i - 1], stores[1..][i - 1], stores[1..][i]);
      }
    }
  }

  /** The answers determine the stores. */
  lemma {:induction false} SameStores(
    env: Env, world: string, start: Store, requests: seq<Request>,
    a: seq<Store>, f: Option<Failure>, b: seq<Store>, g: Option<Failure>, i: nat)
    requires IsRun(env, world, start, requests, a, f) && IsRun(env, world, start, requests, b, g)
    requires i < |a| && i < |b|
    ensures a[i] == b[i]
  {
    hide FailsAs, Passes;
    if i > 0 {
      SameStores(env, world, start, requests, a, f, b, g, i - 1);
      assert PassesTo(env, world, requests[i - 1], a[i - 1], a[i]) &&
          PassesTo(env, world, requests[i - 1], b[i - 1], b[i]);
    }
  }

  lemma FailuresExclude(env: Env, world: string, s: Store, request: Request, f: Failure)
    requires FailsAs(env, world, s, request, f)
    ensures !Passes(env, world, s, request)
    ensures forall g | FailsAs(env, world, s, request, g) :: f == g
  {
  }

  lemma NotShorter(
    env: Env, world: string, start: Store, requests: seq<Request>,
    a: seq<Store>, f: Option<Failure>, b: seq<Store>, g: Option<Failure>)
    requires IsRun(env, world, start, requests, a, f) && IsRun(env, world, start, requests, b, g)
    ensures |a| >= |b|
  {
    hide FailsAs, Passes, Follows;
    if |a| < |b| {
      var m := |a| - 1;
      SameStores(env, world, start, requests, a, f, b, g, m);
      assert PassesTo(env, world, requests[m], b[m], b[m + 1]);
      FailuresExclude(env, world, a[m], requests[m], f.value);
    }
  }

  lemma OneRun(
    env: Env, world: string, start: Store, requests: seq<Request>,
    a: seq<Store>, f: Option<Failure>, b: seq<Store>, g: Option<Failure>)
    requires IsRun(env, world, start, requests, a, f) && IsRun(env, world, start, requests, b, g)
    ensures a == b && f == g
  {
    hide FailsAs, PassesTo;
    NotShorter(env, world, start, requests, a, f, b, g);
    NotShorter(env, world, start, requests, b, g, a, f);
    forall i | 0 <= i < |a|
      ensures a[i] == b[i]
    {
      SameStores(env, world, start, requests, a, f, b, g, i);
    }
    if f.Some? {
      FailuresExclude(env, world, a[|a| - 1], requests[|a| - 1], f.value);
    }
  }

  /**
   A run ends with this failure, or none, on this store exactly when the database's answers say so: every request
   up to there passed on the store reached by then, and the next one, if any is left, fails in just that way.
   */
  lemma RunExactly(env: Env, world: string, chains: seq<Chain>, store: Store, failure: Option<Failure>, last: Store)
    ensures var r := ApplyChains(env, world, Start(store), chains);
            r.failure == failure && r.store == last <==>
            exists stores :: IsRun(env, world, store, Requests(chains), stores, failure) && stores[|stores| - 1] == last
  {
    hide FailsAs, PassesTo, Requests;
    var r := ApplyChains(env, world, Start(store), chains);
    ChainsPerformed(env, world, Start(store), chains);
    var run := Performed(env, world, Start(store), Requests(chains));
    if stores :| IsRun(env, world, store, Requests(chains), stores, failure) && stores[|stores| - 1] == last {
      OneRun(env, world, store, Requests(chains), run, r.failure, stores, failure);
    }
  }

  /** A run succeeds exactly when every request passes on the store reached by then. */
  lemma SucceedsIff(env: Env, world: string, chains: seq<Chain>, store: Store)
    ensures ApplyChains(env, world, Start(store), chains).failure.None? <==>
            exists stores: seq<Store> ::
              && |stores| == |Requests(chains)| + 1 && stores[0] == store
              && forall i | 0 <= i < |Requests(chains)| ::
                  PassesTo(env, world, Requests(chains)[i], stores[i], stores[i + 1])
  {
    hide Requests, FailsAs, PassesTo, ApplyChains;
    var r := ApplyChains(env, world, Start(store), chains);
    RunExactly(env, world, chains, store, r.failure, r.store);
    var run :| IsRun(env, world, store, Requests(chains), run, r.failure) && run[|run| - 1] == r.store;
    if stores: seq<Store> :|
      && |stores| == |Requests(chains)| + 1 && stores[0] == store
      && forall i | 0 <= i < |Requests(chains)| :: PassesTo(env, world, Requests(chains)[i], stores[i], stores[i + 1])
    {
      assert IsRun(env, world, store, Requests(chains), stores, None);
      OneRun(env, world, store, Requests(chains), run, r.failure, stores, None);
    }
  }

  /**
   A key is reported as applied, gains its ledger row and has its effect committed exactly when the run reaches a
   file of that key that is looked up, absent and acknowledged and whose transaction commits.
   */
  lemma CommittedExactly(
    env: Env, world: string, chains: seq<Chain>, store: Store, stores: seq<Store>, failure: Option<Failure>,
    key: LedgerKey)
    requires IsRun(env, world, store, Requests(chains), stores, failure)
    ensures var r := ApplyChains(env, world, Start(store), chains);
            var commits := exists i :: CommitsAt(env, world, Requests(chains), stores, key, i);
            && (key in r.applied <==> commits)
            && (key in r.store.ledger && key !in store.ledger <==> commits)
            && store.effects <= r.store.effects
            && (key in r.store.effects[|store.effects|..] <==> commits)
  {
    hide IsRun, Requests, CommitsAt, Agenda, NewKeys, KeysOf, FailsWithin;
    var r := ApplyChains(env, world, Start(store), chains);
    ChainsPerformed(env, world, Start(store), chains);
    var run := Performed(env, world, Start(store), Requests(chains));
    OneRun(env, world, store, Requests(chains), run, r.failure, stores, failure);
    var n, c := RunOutcome(env, world, chains, store);
    var done := [] + Agenda(world, chains)[..n];
    NewKeysMembers(store.ledger, done);
    assert r.store.effects[|store.effects|..] == r.applied;
  }

  /** Runs in one world leave the rows of every other world alone. */
  lemma WorldsSeparate(env: Env, world: string, chains: seq<Chain>, store: Store, other: string)
    requires other != world
    ensures var r := ApplyChains(env, world, Start(store), chains);
            SameWorld(store, r.store, other)
  {
    hide FailsAs, PassesTo, Requests, SameWorld;
    ChainsPerformed(env, world, Start(store), chains);
    var run := Performed(env, world, Start(store), Requests(chains));
    StoresSameWorld(env, world, store, Requests(chains), run, ApplyChains(env, world, Start(store), chains).failure,
        other,
      |run| - 1);
  }

  ghost predicate SameWorld(a: Store, b: Store, world: string) {
    && (forall app, name :: (world, app, name) in a.ledger <==> (world, app, name) in b.ledger)
    && (forall app, name | (world, app, name) in a.ledger && (world, app, name) in b.ledger ::
          a.ledger[(world, app, name)] == b.ledger[(world, app, name)])
    && (forall app :: (world, app) in a.schemas <==> (world, app) in b.schemas)
    && (forall app | (world, app) in a.schemas && (world, app) in b.schemas ::
          a.schemas[(world, app)] == b.schemas[(world, app)])
  }

  lemma {:induction false} StoresSameWorld(
    env: Env, world: string, start: Store, requests: seq<Request>, stores: seq<Store>, failure: Option<Failure>,
    other: string, i: nat)
    requires other != world && IsRun(env, world, start, requests, stores, failure) && i < |stores|
    ensures SameWorld(start, stores[i], other)
  {
    hide FailsAs, Passes, Committed;
    if i > 0 {
      StoresSameWorld(env, world, start, requests, stores, failure, other, i - 1);
      assert PassesTo(env, world, requests[i - 1], stores[i - 1], stores[i]);
    }
  }

  // ---------------------------------------------------------------------------------------------
  // Success, and running again.
  // ---------------------------------------------------------------------------------------------

  /** The ledger's rows for the chain are exactly its files with their checksums. */
  ghost predicate SliceMatches(store: Store, world: string, chain: Chain) {
    && Recorded(store, ItemsOf(world, chain))
    && forall key | key in store.ledger && key.0 == world && key.1 == chain.app ::
         exists i :: 0 <= i < |chain.files| && chain.files[i].filename == key.2
  }

  /** No later chain has the same app. */
  ghost predicate LastOfApp(chains: seq<Chain>, i: nat)
    requires i < |chains|
  {
    forall j | i < j < |chains| :: chains[j].app != chains[i].app
  }

  ghost predicate DistinctApps(chains: seq<Chain>) {
    forall i, j | 0 <= i < j < |chains| :: chains[i].app != chains[j].app
  }

  lemma KeysConcat(a: seq<Item>, b: seq<Item>)
    ensures KeysOf(a + b) == KeysOf(a) + KeysOf(b)
  {
    var all := a + b;
    forall key | key in KeysOf(a) + KeysOf(b)
      ensures key in KeysOf(all)
    {
      if key in KeysOf(a) {
        var i :| 0 <= i < |a| && a[i].key == key;
        assert all[i].key == key;
      } else {
        var i :| 0 <= i < |b| && b[i].key == key;
        assert all[|a| + i].key == key;
      }
    }
  }

  /** A chain that passes the missing-file check and runs through leaves exactly its own rows. */
  lemma ChainSlice(env: Env, world: string, chain: Chain, start: Store, done: seq<Item>, p: Progress)
    requires p.failure.None? && ApplyChain(env, world, p, chain).failure.None?
    requires Dealt(start, done, p)
    ensures SliceMatches(ApplyChain(env, world, p, chain).store, world, chain)
  {
    hide ApplyFiles, NewKeys, KeysOf;
    var items := ItemsOf(world, chain);
    var r := ApplyChain(env, world, p, chain);
    var n := ChainDealt(env, world, chain, start, done, p);
    assert items[..n] == items;
    KeysConcat(done, items);
    assert Recorded(r.store, items) by {
      forall i | 0 <= i < |items|
        ensures items[i].key in r.store.ledger && r.store.ledger[items[i].key] == items[i].checksum
      {
        assert (done + items)[|done| + i] == items[i];
      }
    }
    forall key | key in r.store.ledger && key.0 == world && key.1 == chain.app
      ensures exists i :: 0 <= i < |chain.files| && chain.files[i].filename == key.2
    {
      if key in KeysOf(items) {
        var i := IndexOfKey(items, key);
        assert chain.files[i].filename == key.2;
      } else {
        assert key in p.store.ledger;
      }
    }
  }

  lemma IndexOfKey(items: seq<Item>, key: LedgerKey) returns (i: nat)
    requires key in KeysOf(items)
    ensures i < |items| && items[i].key == key
  {
    i :| i < |items| && items[i].key == key;
  }

  lemma {:induction false} AgendaApps(world: string, chains: seq<Chain>, k: nat)
    requires k < |Agenda(world, chains)|
    ensures exists j :: 0 <= j < |chains| && chains[j].app == Agenda(world, chains)[k].key.1
    decreases |chains|
  {
    var head := ItemsOf(world, chains[0]);
    if k < |head| {
      assert chains[0].app == Agenda(world, chains)[k].key.1;
    } else {
      AgendaApps(world, chains[1..], k - |head|);
      var j :| 0 <= j < |chains[1..]| && chains[1..][j].app == Agenda(world, chains)[k].key.1;
      assert chains[j + 1].app == Agenda(world, chains)[k].key.1;
    }
  }

  /** Later chains of other apps leave the slice alone. */
  lemma SliceKept(world: string, chain: Chain, rest: seq<Chain>, before: Store, after: Store)
    requires SliceMatches(before, world, chain)
    requires Recorded(after, ItemsOf(world, chain))
    requires after.ledger.Keys == before.ledger.Keys + KeysOf(Agenda(world, rest))
    requires forall j | 0 <= j < |rest| :: rest[j].app != chain.app
    ensures SliceMatches(after, world, chain)
  {
    hide KeysOf, Recorded, Agenda;
    var agenda := Agenda(world, rest);
    forall key | key in KeysOf(agenda)
      ensures key.1 != chain.app
    {
      var i := IndexOfKey(agenda, key);
      AgendaApps(world, rest, i);
    }
    forall key | key in after.ledger && key.0 == world && key.1 == chain.app
      ensures exists i :: 0 <= i < |chain.files| && chain.files[i].filename == key.2
    {
      assert key in before.ledger.Keys;
    }
  }

  lemma RecordedWithin(store: Store, a: seq<Item>, b: seq<Item>, c: seq<Item>)
    requires Recorded(store, a + b + c)
    ensures Recorded(store, b)
  {
    forall i | 0 <= i < |b|
      ensures b[i].key in store.ledger && store.ledger[b[i].key] == b[i].checksum
    {
      assert (a + b + c)[|a| + i] == b[i];
    }
  }

  lemma {:induction false} ChainsSlices(
    env: Env, world: string, chains: seq<Chain>, start: Store, done: seq<Item>, p: Progress)
    requires p.failure.None? && Dealt(start, done, p)
    requires ApplyChains(env, world, p, chains).failure.None?
    ensures forall i | 0 <= i < |chains| && LastOfApp(chains, i) ::
        SliceMatches(ApplyChains(env, world, p, chains).store, world, chains[i])
    decreases |chains|
  {
    hide Dealt, ApplyChain, ItemsOf, SliceMatches, KeysOf, Recorded;
    if chains != [] {
      var q, r := ApplyChain(env, world, p, chains[0]), ApplyChains(env, world, p, chains);
      var head, tail := ItemsOf(world, chains[0]), Agenda(world, chains[1..]);
      var n := ChainDealt(env, world, chains[0], start, done, p);
      assert head[..n] == head;
      ChainSlice(env, world, chains[0], start, done, p);
      ChainsSlices(env, world, chains[1..], start, done + head, q);
      var m, c := ChainsDealt(env, world, chains[1..], start, done + head, q);
      assert tail[..m] == tail;
      DealtKeys(start, done + head, tail, q, r);
      RecordedWithin(r.store, done, head, tail);
      forall i | 0 <= i < |chains| && LastOfApp(chains, i)
        ensures SliceMatches(r.store, world, chains[i])
      {
        if i == 0 {
          SliceKept(world, chains[0], chains[1..], q.store, r.store);
        } else {
          assert chains[i] == chains[1..][i - 1] && LastOfApp(chains[1..], i - 1);
        }
      }
    }
  }

  lemma DealtKeys(start: Store, done: seq<Item>, more: seq<Item>, q: Progress, r: Progress)
    requires Dealt(start, done, q) && Dealt(start, done + more, r)
    ensures r.store.ledger.Keys == q.store.ledger.Keys + KeysOf(more) && Recorded(r.store, done + more)
  {
    hide NewKeys, KeysOf;
    KeysConcat(done, more);
  }

  /** After a successful run the ledger's slice of each app is exactly the files and checksums of its last chain. */
  lemma SuccessSlices(env: Env, world: string, chains: seq<Chain>, store: Store)
    requires ApplyChains(env, world, Start(store), chains).failure.None?
    ensures forall i | 0 <= i < |chains| && LastOfApp(chains, i) ::
              SliceMatches(ApplyChains(env, world, Start(store), chains).store, world, chains[i])
  {
    ChainsSlices(env, world, chains, store, [], Start(store));
  }

  /** Reads and the table reflection succeed; transactions need not. */
  ghost predicate Responsive(env: Env) {
    && (forall app, s :: env.listed(app, s))
    && (forall file, s :: env.lookedUp(file, s))
    && (forall s :: env.reflect(s).Some?)
  }

  lemma {:induction false} RecordedFiles(env: Env, world: string, chain: Chain, p: Progress, k: nat)
    requires Responsive(env) && p.failure.None? && k <= |chain.files| && Recorded(p.store, ItemsOf(world, chain))
    ensures ApplyFiles(env, world, chain.app, p, chain.files[k..]) == p.(already := p.already + |chain.files| - k)
    decreases |chain.files| - k
  {
    if k < |chain.files| {
      var files := chain.files[k..];
      assert files[1..] == chain.files[k + 1..];
      assert ItemsOf(world, chain)[k].key == KeyOfFile(world, chain.app, files[0]);
      RecordedFiles(env, world, chain, ApplyFile(env, world, chain.app, p, files[0]), k + 1);
    }
  }

  lemma {:induction false} RecordedChains(env: Env, world: string, chains: seq<Chain>, p: Progress)
    requires Responsive(env) && p.failure.None?
    requires forall i | 0 <= i < |chains| :: SliceMatches(p.store, world, chains[i])
    ensures var r := ApplyChains(env, world, p, chains);
      && r.failure.None? && r.applied == p.applied && r.already == p.already + |Agenda(world, chains)|
      && r.store.ledger == p.store.ledger && r.store.effects == p.store.effects
    decreases |chains|
  {
    hide ApplyFiles, KeysOf;
    if chains != [] {
      assert SliceMatches(p.store, world, chains[0]);
      RecordedFiles(env, world, chains[0], p, 0);
      assert chains[0].files[0..] == chains[0].files;
      var q := ApplyChain(env, world, p, chains[0]);
      forall i | 0 <= i < |chains[1..]|
        ensures SliceMatches(q.store, world, chains[1..][i])
      {
        assert SliceMatches(p.store, world, chains[i + 1]);
      }
      RecordedChains(env, world, chains[1..], q);
    }
  }

  /**
   Running again after success applies nothing, counts every file and commits no effect, even if no transaction
   could.
   */
  lemma RerunAppliesNothing(env: Env, again: Env, world: string, chains: seq<Chain>, store: Store)
    requires DistinctApps(chains) && Responsive(again)
    requires ApplyChains(env, world, Start(store), chains).failure.None?
    ensures var first := ApplyChains(env, world, Start(store), chains).store;
      var r := ApplyChains(again, world, Start(first), chains);
      && r.failure.None? && r.applied == [] && r.already == |Agenda(world, chains)|
      && r.store.ledger == first.ledger && r.store.effects == first.effects
  {
    SuccessSlices(env, world, chains, store);
    assert forall i | 0 <= i < |chains| :: LastOfApp(chains, i);
    RecordedChains(again, world, chains, Start(ApplyChains(env, world, Start(store), chains).store));
  }
}

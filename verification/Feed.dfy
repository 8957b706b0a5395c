/**
 The change feed: the database applies a commit first, the CDC thread then advances the version
 index, and only then broadcasts the transaction to the live hub.
 */
module Feed {
  import opened ChangeLog
  import opened VersionIndex
  import opened Anchors
  import opened Database
  import opened Queries
  import opened Invalidation
  import opened Diff

  /** How rows are filtered and rendered, and the row hash; all deterministic, otherwise arbitrary. */
  datatype Semantics = Semantics(logic: Logic, render: (Query, View) -> seq<JsonRow>, hash: RowHash)

  /** The result of running the query on the database after the first `k` commits. */
  ghost function ResultAt(sem: Semantics, h: History, q: Query, k: nat): seq<JsonRow>
    requires WellFormed(q) && k <= |h.log|
  {
    sem.render(q, ViewAt(sem.logic, h, q, k))
  }

  /** A query whose versions can be trusted. */
  ghost predicate Servable(cfg: Config, sem: Semantics, q: Query) {
    WellFormed(q) && Covered(cfg, sem.logic, q)
  }

  /** A broadcast transaction, and the commit it announces. */
  datatype Message = Message(txn: Txn, commit: nat)

  /**
   `history` is what the database has applied, `cdc` counts the transactions the index has received, and
   `wire` is what was broadcast.
   */
  datatype Feed = Feed(history: History, index: Index, cdc: nat, wire: seq<Message>)

  datatype FeedStep = Apply(commit: Commit) | Advance | Broadcast

  ghost predicate FeedInit(cfg: Config, f: Feed) {
    StorableDb(cfg, f.history.base) && f.history.log == [] && f.index == EMPTY && f.cdc == 0 && f.wire == []
  }

  ghost predicate FeedNext(cfg: Config, f: Feed, step: FeedStep, f': Feed) {
    match step
    case Apply(commit) =>
      && f' == f.(history := History(f.history.base, f.history.log + [commit]))
      && ValidHistory(cfg, f'.history)
    case Advance =>
      && f.cdc < |f.history.log| && |f.wire| == f.cdc
      && f' == f.(index := AdvanceTxn(cfg, f.index, f.history.log[f.cdc].txn), cdc := f.cdc + 1)
    case Broadcast =>
      && |f.wire| < f.cdc <= |f.history.log|
      && f' == f.(wire := f.wire + [Message(f.history.log[|f.wire|].txn, |f.wire|)])
  }

  ghost predicate FeedInv(cfg: Config, f: Feed) {
    && ValidHistory(cfg, f.history)
    && |f.wire| <= f.cdc <= |f.history.log|
    && (forall i | 0 <= i < |f.wire| :: f.wire[i] == Message(f.history.log[i].txn, i))
    && f.index == IndexOf(cfg, Txns(f.history.log[..f.cdc]))
  }

  /** The feed only grows. */
  ghost predicate Grows(f: Feed, f': Feed) {
    && f.history.base == f'.history.base
    && |f.history.log| <= |f'.history.log|
    && f'.history.log[..|f.history.log|] == f.history.log
    && f.cdc <= f'.cdc && f.wire <= f'.wire
  }

  lemma FeedInitInv(cfg: Config, f: Feed)
    requires FeedInit(cfg, f)
    ensures FeedInv(cfg, f)
  {
    assert Txns(f.history.log[..0]) == [];
  }

  lemma FeedNextInv(cfg: Config, f: Feed, step: FeedStep, f': Feed)
    requires FeedInv(cfg, f) && FeedNext(cfg, f, step, f')
    ensures FeedInv(cfg, f') && Grows(f, f')
  {
    hide ValidHistory, AdvanceTxn;
    match step
    case Apply(commit) =>
      assert f'.history.log[..f.cdc] == f.history.log[..f.cdc];
    case Advance =>
      var before, after := Txns(f.history.log[..f.cdc]), Txns(f.history.log[..f.cdc + 1]);
      assert after[..|after| - 1] == before;
    case Broadcast =>
  }

  lemma GrowsReflexive(f: Feed)
    ensures Grows(f, f)
  {
    assert f.history.log[..|f.history.log|] == f.history.log;
  }

  lemma GrowsTransitive(f: Feed, g: Feed, h: Feed)
    requires Grows(f, g) && Grows(g, h)
    ensures Grows(f, h)
  {
    assert h.history.log[..|f.history.log|] == g.history.log[..|f.history.log|];
  }

  /** Results and versions at a prefix are settled once that prefix exists. */
  lemma PrefixSettled(cfg: Config, sem: Semantics, f: Feed, f': Feed, q: Query, k: nat)
    requires Grows(f, f') && k <= |f.history.log| && WellFormed(q)
    ensures ResultAt(sem, f'.history, q, k) == ResultAt(sem, f.history, q, k)
    ensures VersionAt(cfg, f'.history, q, k) == VersionAt(cfg, f.history, q, k)
  {
    var n := |f.history.log|;
    assert f'.history.log == f.history.log + f'.history.log[n..];
    DbAtExtends(f.history, f'.history.log[n..], k);
    assert f'.history.log[..k] == f.history.log[..k];
  }
}

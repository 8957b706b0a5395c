/**
 What a security answer says about a query. The answer is given for the tables the query is filed under; whether it
 speaks for the tables the query reads depends on whether any of those is hidden behind a WITH name.
 */
module Privacy {
  import opened Security
  import Queries
  import Witnesses

  /** A "public" answer for the query's list means that every table it reads was public no earlier than the version. */
  ghost predicate SpeaksFor(s: State, q: Queries.Query) {
    forall id | id in s.calls && s.calls[id].Answered? && s.calls[id].tables == Queries.Tables(q) &&
        !s.calls[id].private ::
      forall t | t in Queries.Scans(q) :: VerdictSince(s.catalogs, s.calls[id].version, t, false)
  }

  ghost predicate AlwaysSpeaksFor(q: Queries.Query) {
    forall run: Run, i: nat | IsRun(run) && i < |run.states| :: SpeaksFor(run.states[i], q)
  }

  /**
   The exact condition: over all runs, "public" answers speak for every table the query reads if and only if no
   WITH name hides one of them.
   */
  lemma SpeaksForIffWatched(q: Queries.Query)
    requires Queries.WellFormed(q)
    ensures AlwaysSpeaksFor(q) <==> Queries.Watched(q)
  {
    hide IsRun, VerdictSince, Queries.Tables, Queries.Scans;
    if Queries.Watched(q) {
      forall run: Run, i: nat | IsRun(run) && i < |run.states|
        ensures SpeaksFor(run.states[i], q)
      {
        WatchedSpeaks(run, i, q);
      }
    } else {
      var t :| t in Queries.Scans(q) && t !in Queries.Tables(q);
      var run, s := HiddenRun(Queries.Tables(q), t);
      var n: nat := |run.states| - 1;
      assert s.calls[0].Answered? && s.calls[0].tables == Queries.Tables(q);
      assert !SpeaksFor(run.states[n], q);
    }
  }

  lemma WatchedSpeaks(run: Run, i: nat, q: Queries.Query)
    requires IsRun(run) && i < |run.states| && Queries.Watched(q)
    ensures SpeaksFor(run.states[i], q)
  {
    hide IsRun, VerdictSince, SingleState, Queries.Tables, Queries.Scans;
    var s := run.states[i];
    forall id | id in s.calls && s.calls[id].Answered? && s.calls[id].tables == Queries.Tables(q) &&
        !s.calls[id].private
      ensures forall t | t in Queries.Scans(q) :: VerdictSince(s.catalogs, s.calls[id].version, t, false)
    {
      AnswersAreFresh(run, i, id);
    }
  }

  /** A run in which the list is answered "public" while the hidden table has never been public. */
  lemma HiddenRun(tables: seq<string>, hidden: string) returns (run: Run, s: State)
    requires hidden !in tables
    ensures IsRun(run) && run.states != [] && run.states[|run.states| - 1] == s
    ensures 0 in s.calls && s.calls[0].Answered? && s.calls[0].tables == tables && !s.calls[0].private
    ensures !VerdictSince(s.catalogs, s.calls[0].version, hidden, false)
  {
    hide PublicIn, Verdicts, Named, OpenExcept, Reaches;
    var catalog := OpenExcept(tables, hidden);
    var v := Verdicts(Named(catalog, tables));
    AllOpen(tables, hidden);
    s := State([catalog], 0, map[], map[]);
    run := Begins(s);
    run, s := Go(run, s, Begin(0, tables), State([catalog], 0, map[], map[0 := Begun(tables)]));
    run, s := Go(run, s, ReadVersion(0), State([catalog], 0, map[], map[0 := Versioned(tables, 0)]));
    if tables == [] {
      run, s := Go(run, s, Check(0), State([catalog], 0, map[], map[0 := Answered(tables, 0, false, true)]));
    } else {
      assert tables[0] !in s.cache;
      run, s := Go(run, s, Check(0), State([catalog], 0, map[], map[0 := Missed(tables, 0)]));
      run, s := Go(run, s, Classify(0), State([catalog], 0, map[], map[0 := Classified(tables, 0, v)]));
      forall i | 0 <= i < |tables|
        ensures tables[i] in v && !v[tables[i]]
      {
        assert tables[i] in tables;
      }
      assert !MergeVerdicts(tables, v) && map[] + v == v;
      run, s := Go(run, s, Update(0), State([catalog], 0, v, map[0 := Answered(tables, 0, false, false)]));
    }
    ReachedRun(run, s);
  }

  lemma ReachedRun(run: Run, s: State)
    requires Reaches(run, s)
    ensures IsRun(run) && run.states != [] && run.states[|run.states| - 1] == s
  {
    hide IsRun;
  }

  lemma AllOpen(tables: seq<string>, hidden: string)
    requires hidden !in tables
    ensures !PublicIn(OpenExcept(tables, hidden), hidden)
    ensures var v := Verdicts(Named(OpenExcept(tables, hidden), tables)); forall t | t in tables :: t in v && !v[t]
  {
    hide Verdicts, Named, OpenExcept;
    OpenExceptCount(tables, hidden, hidden);
    forall t | t in tables
      ensures var v := Verdicts(Named(OpenExcept(tables, hidden), tables)); t in v && !v[t]
    {
      AllButOneOpen(tables, hidden, t);
    }
  }

  /** `WITH t AS (SELECT * FROM t) SELECT count(*) FROM t` has an empty list, so its answers say nothing about `t`. */
  lemma ShadowedIsNotSpokenFor()
    ensures !AlwaysSpeaksFor(Witnesses.SHADOWED)
  {
    Witnesses.ShadowedTables();
    SpeaksForIffWatched(Witnesses.SHADOWED);
    assert "t" in Queries.Scans(Witnesses.SHADOWED) && "t" !in Queries.Tables(Witnesses.SHADOWED);
  }
}

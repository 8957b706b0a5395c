/**
 The hub object. Each method is one critical section, or one worker action between two of them, and is
 proved to be the corresponding step of the state machine.
 */
module LiveServer {
  import opened Text
  import opened ChangeLog
  import opened Queries
  import opened Diff
  import opened LiveHub

  /** The folded names of the tables a transaction changed. */
  function ChangedTables(txn: Txn): set<string> {
    set c | 0 <= c < |txn.changes| :: Lower(txn.changes[c].table)
  }

  predicate Touched(changed: set<string>, q: Query) {
    exists i | 0 <= i < |Tables(q)| :: Lower(Tables(q)[i]) in changed
  }

  lemma TouchedIsAffected(txn: Txn, q: Query)
    ensures Touched(ChangedTables(txn), q) <==> Affected(txn, q)
  {
  }

  /** The jobs gathered so far cover the visited subscriptions. */
  ghost predicate Gathered(subs: map<nat, Sub>, txn: Txn, visited: set<nat>, jobs: seq<Job>) {
    && visited <= subs.Keys
    && JobsMatch(map id | id in visited :: subs[id], txn, jobs)
  }

  lemma GatherOne(subs: map<nat, Sub>, txn: Txn, visited: set<nat>, jobs: seq<Job>, id: nat)
    requires visited <= subs.Keys && Gathered(subs, txn, visited, jobs) && id in subs && id !in visited
    ensures var more := if Affected(txn, subs[id].q) then jobs + [Job(id, subs[id].q, subs[id].last)] else jobs;
            Gathered(subs, txn, visited + {id}, more)
  {
    hide Affected;
    if Affected(txn, subs[id].q) {
      var more := jobs + [Job(id, subs[id].q, subs[id].last)];
      assert forall i | 0 <= i < |jobs| :: more[i] == jobs[i];
      assert JobIds(more) == JobIds(jobs) + {id} by {
        assert more[|jobs|].id == id;
        assert forall x | x in JobIds(jobs) :: x in JobIds(more);
      }
    }
  }

  /** A stream after the deltas of a batch, before its end mark. */
  function SendDeltas(st: Stream, deltas: seq<Delta>, txid: nat, message: nat): Stream {
    st.(events := st.events + Changes(deltas, txid), origins := st.origins + seq(|deltas|, _ => Some(message)))
  }

  lemma SendNoDeltas(st: Stream, txid: nat, message: nat)
    ensures SendDeltas(st, [], txid, message) == st
  {
    assert st.events + Changes([], txid) == st.events;
  }

  lemma SendOneMore(st: Stream, deltas: seq<Delta>, d: Delta, txid: nat, message: nat)
    ensures Send(SendDeltas(st, deltas, txid, message), Change(d, txid), Some(message)) ==
            SendDeltas(st, deltas + [d], txid, message)
  {
    assert Changes(deltas + [d], txid) == Changes(deltas, txid) + [Change(d, txid)];
    var all: seq<Option<nat>> := seq(|deltas + [d]|, _ => Some(message));
    assert all == seq(|deltas|, _ => Some(message)) + [Some(message)];
  }

  lemma SendEndMark(st: Stream, deltas: seq<Delta>, txid: nat, message: nat, asOf: nat)
    ensures Send(SendDeltas(st, deltas, txid, message), UpToDate(txid), Some(message)).(trail := st.trail + [asOf]) ==
            SendBatch(st, deltas, txid, message, asOf)
  {
    assert BatchOrigins(deltas, message) == seq(|deltas|, _ => Some(message)) + [Some(message)];
  }

  class LiveServer {
    const setup: Setup
    var subs: map<nat, Sub>
    var joining: map<nat, Sub>
    var nextId: nat
    var open: set<nat>
    var streams: map<nat, Stream>
    var work: Work
    var processed: nat

    function State(): Hub
      reads this
    {
      Hub(subs, joining, nextId, open, streams, work, processed)
    }

    constructor (setup: Setup)
      ensures this.setup == setup && HubInit(State())
    {
      this.setup := setup;
      subs, joining, nextId, open, streams, work, processed := map[], map[], 0, {}, map[], Idle, 0;
    }

    /** The first half of subscribing: the rows, or a link to them, are sent and an id allocated. */
    method Allocate(q: Query, rows: seq<JsonRow>, version: nat, asOf: nat, scoped: bool) returns (id: nat)
      modifies this
      ensures id == old(nextId) && State() == AllocateStep(setup, old(State()), q, rows, version, asOf, !scoped)
    {
      var tables := Tables(q);
      var pk := None;
      if |tables| == 1 && Lower(tables[0]) in setup.columns {
        pk := Some(setup.columns[Lower(tables[0])]);
      }
      var last := KeyedMap(setup.sem.hash, pk, rows);
      var first := if scoped then Snapshot(rows, version) else Link(q, version);
      id := nextId;
      nextId := nextId + 1;
      open := open + {id};
      streams := streams[id := Stream(q, rows, [first], [asOf], [None])];
      joining := joining[id := Sub(q, last)];
    }

    /** The second half: the subscription enters the table. */
    method Enlist(id: nat)
      requires id in joining
      modifies this
      ensures State() == EnlistStep(old(State()), id)
    {
      subs, joining := subs[id := joining[id]], joining - {id};
    }

    /** Dropping a subscription first removes it, then its receiver goes away. */
    method Drop(id: nat)
      modifies this
      ensures State() == CloseStep(UnlistStep(old(State()), id), id)
    {
      subs := subs - {id};
      open := open - {id};
    }

    /** Under the lock: one job for every affected subscription, with its `last` cloned. */
    method Collect(txn: Txn)
      requires work.Idle?
      modifies this`work
      ensures work.Working? && JobsMatch(subs, txn, work.jobs) && work == Working(processed, work.jobs, None)
    {
      var changed: set<string> := {};
      for c := 0 to |txn.changes|
        invariant changed == set j | 0 <= j < c :: Lower(txn.changes[j].table)
      {
        changed := changed + {Lower(txn.changes[c].table)};
      }
      assert changed == ChangedTables(txn);
      var jobs := [];
      var rest := subs.Keys;
      ghost var visited: set<nat> := {};
      while rest != {}
        invariant visited !! rest && visited + rest == subs.Keys && Gathered(subs, txn, visited, jobs)
        decreases rest
      {
        hide JobsMatch, Affected, Touched, ChangedTables;
        var id :| id in rest;
        GatherOne(subs, txn, visited, jobs, id);
        TouchedIsAffected(txn, subs[id].q);
        if Touched(changed, subs[id].q) {
          jobs := jobs + [Job(id, subs[id].q, subs[id].last)];
        }
        rest, visited := rest - {id}, visited + {id};
      }
      assert (map id | id in visited :: subs[id]) == subs;
      work := Working(processed, jobs, None);
    }

    /** A failed re-query: the subscription leaves the table and its client is reset. */
    method FailJob()
      requires work.Working? && work.jobs != []
      modifies this
      ensures State() == FetchFailsStep(old(State()))
    {
      var id := work.jobs[0].id;
      if id in subs && id in streams {
        subs := subs - {id};
        streams := streams[id := SendReset(streams[id])];
      }
      work := work.(jobs := work.jobs[1..], fetched := None);
    }

    /** Between the locks: the difference from the cloned `last`; then, under the lock, its delivery. */
    method DeliverJob(txid: nat) returns (deltas: seq<Delta>)
      requires work.Working? && work.jobs != [] && work.fetched.Some?
      modifies this
      ensures IsDiff(deltas, old(work.jobs[0].last), old(work.fetched.value.next))
      ensures State() == DeliverStep(old(State()), deltas, txid)
    {
      var Fetched(next, asOf) := work.fetched.value;
      var id := work.jobs[0].id;
      deltas := ComputeDiff(work.jobs[0].last, next);
      hide IsDiff;
      if id in subs && id in streams {
        ghost var start := streams[id];
        var alive := SendAll(id, deltas, txid);
        if alive {
          if id in open {
            SendEndMark(start, deltas, txid, work.message, asOf);
            var st := Send(streams[id], UpToDate(txid), Some(work.message));
            streams := streams[id := st.(trail := st.trail + [asOf])];
          }
          subs := subs[id := subs[id].(last := next)];
        }
      }
      work := work.(jobs := work.jobs[1..], fetched := None);
    }

    /** Sends every delta, giving up at the first failure; a send fails exactly when the receiver is gone. */
    method SendAll(id: nat, deltas: seq<Delta>, txid: nat) returns (alive: bool)
      requires id in streams && work.Working?
      modifies this`streams
      ensures alive <==> id in open || deltas == []
      ensures streams == if id in open then old(streams)[id := SendDeltas(old(streams[id]), deltas, txid, work.message)]
                         else old(streams)
    {
      hide SendDeltas;
      alive := true;
      ghost var start := streams[id];
      SendNoDeltas(start, txid, work.message);
      for i := 0 to |deltas|
        invariant alive && id in streams && (i > 0 ==> id in open)
        invariant streams == old(streams)[id := SendDeltas(start, deltas[..i], txid, work.message)]
      {
        if id !in open {
          alive := false;
          return;
        }
        SendOneMore(start, deltas[..i], deltas[i], txid, work.message);
        assert deltas[..i] + [deltas[i]] == deltas[..i + 1];
        streams := streams[id := Send(streams[id], Change(deltas[i], txid), Some(work.message))];
      }
      assert deltas[..|deltas|] == deltas;
    }

    /** The clean-up at the end of a commit. */
    method Finish()
      requires work.Working?
      modifies this
      ensures State() == FinishStep(old(State()))
    {
      var kept: map<nat, Sub> := map[];
      var rest := subs.Keys;
      while rest != {}
        invariant rest <= subs.Keys
        invariant kept == map id | id in subs && id !in rest && id in open :: subs[id]
        decreases rest
      {
        var id :| id in rest;
        if id in open {
          kept := kept[id := subs[id]];
        }
        rest := rest - {id};
      }
      subs, work, processed := kept, Idle, processed + 1;
    }

    /** After a lag every listed subscription is reset, then the table is emptied. */
    method ResetAll(sent: nat)
      requires sent > CAPACITY && subs.Keys <= streams.Keys
      modifies this
      ensures State() == LagStep(old(State()), sent)
    {
      ghost var before := streams;
      var rest := subs.Keys;
      while rest != {}
        invariant rest <= subs.Keys && subs == old(subs) && subs.Keys <= streams.Keys
        invariant State() == old(State()).(streams := streams)
        invariant streams ==
          map id | id in before :: if id in subs && id !in rest then SendReset(before[id]) else before[id]
        decreases rest
      {
        var id :| id in rest;
        streams := streams[id := SendReset(streams[id])];
        rest := rest - {id};
      }
      subs, processed := map[], sent - CAPACITY;
    }
  }
}

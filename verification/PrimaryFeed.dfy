/**
 The feed of an embedded primary: a trigger notification names a table, and the observer turns it
 into a transaction that truncates that table, numbered by a counter. Notifications may reach the
 index out of order, so nothing here may depend on delivery order.
 */
module PrimaryFeed {
  import opened Text
  import opened ChangeLog
  import opened VersionIndex

  const TXID_LIMIT: nat := 0x1_0000_0000

  /** The transaction announced by a payload, or None when the payload is ignored. */
  function Announced(payload: string, lsn: nat): Option<Txn> {
    match SplitOnce(payload, ':')
    case None => None
    case Some((txid, table)) =>
      match ParseUnsigned(txid, TXID_LIMIT)
      case None => None
      case Some(xid) => Some(Txn(xid, lsn, [Truncate(table)]))
  }

  ghost predicate TruncateOnly(log: seq<Txn>) {
    forall i, c | 0 <= i < |log| && 0 <= c < |log[i].changes| :: log[i].changes[c].Truncate?
  }

  class PrimaryObserver {
    var counter: nat
    var published: seq<Txn>

    ghost predicate Valid()
      reads this
    {
      && TruncateOnly(published)
      && (forall i | 0 <= i < |published| :: 0 < published[i].lsn <= counter)
      && (forall i, j | 0 <= i < j < |published| :: published[i].lsn < published[j].lsn)
    }

    constructor ()
      ensures Valid() && published == [] && counter == 0
    {
      counter, published := 0, [];
    }

    /** Ignored payloads consume no number; every other payload is published under the next one. */
    method OnNotify(payload: string)
      requires Valid()
      modifies this
      ensures Valid()
      ensures match Announced(payload, old(counter) + 1)
              case None => published == old(published) && counter == old(counter)
              case Some(txn) => published == old(published) + [txn] && counter == old(counter) + 1
    {
      var parts := SplitOnce(payload, ':');
      if parts.None? {
        return;
      }
      var xid := ParseUnsigned(parts.value.0, TXID_LIMIT);
      if xid.None? {
        return;
      }
      counter := counter + 1;
      published := published + [Txn(xid.value, counter, [Truncate(parts.value.1)])];
    }
  }

  /** The trigger's own payload, "txid:table", is never ignored, whatever the table is called. */
  lemma TriggerPayloadIsAnnounced(xid: nat, table: string, lsn: nat)
    requires xid < TXID_LIMIT
    ensures Announced(Decimal(xid) + ":" + table, lsn) == Some(Txn(xid, lsn, [Truncate(table)]))
  {
    var digits := Decimal(xid);
    assert ':' !in digits;
    SplitOnceInverse(digits, ':', table);
    assert digits[0] != '+';
  }

  /** The text is the number's numeral, after an optional plus sign. */
  ghost predicate Spells(text: string, n: nat) {
    IsNumeral(text, n) || (text != "" && text[0] == '+' && IsNumeral(text[1..], n))
  }

  /**
   A payload announces a transaction exactly when a 32-bit id stands before its first colon; the table is the
   rest.
   */
  lemma AnnouncedExactly(payload: string, lsn: nat, txn: Txn)
    ensures Announced(payload, lsn) == Some(txn) <==>
            && txn.lsn == lsn && txn.xid < 0x1_0000_0000 && |txn.changes| == 1 && txn.changes[0].Truncate?
            && exists id :: payload == id + ":" + txn.changes[0].table && ':' !in id && Spells(id, txn.xid)
  {
    hide ParseUnsigned, IsNumeral, SplitOnce;
    var parts := SplitOnce(payload, ':');
    if parts.Some? {
      ParsesExactly(parts.value.0, TXID_LIMIT, txn.xid);
      assert payload == parts.value.0 + ":" + parts.value.1;
    }
    if Announced(payload, lsn) == Some(txn) {
      assert Spells(parts.value.0, txn.xid);
    }
    if |txn.changes| == 1 && txn.changes[0].Truncate? {
      if id :| payload == id + ":" + txn.changes[0].table && ':' !in id && Spells(id, txn.xid) {
        SplitOnceInverse(id, ':', txn.changes[0].table);
        assert txn.changes == [Truncate(txn.changes[0].table)];
      }
    }
  }

  lemma {:induction false} TruncatesTrackTables(cfg: Config, log: seq<Txn>)
    requires TruncateOnly(log)
    ensures IndexOf(cfg, log).values == map[]
    ensures IndexOf(cfg, log).tables == IndexOf(cfg, log).structural
    ensures forall t :: t in IndexOf(cfg, log).tables <==>
        exists i | 0 <= i < |log| :: Touches(cfg, log[i], TableProbe(t))
  {
    if log != [] {
      var n := |log| - 1;
      TruncatesTrackTables(cfg, log[..n]);
      TruncateChanges(cfg, IndexOf(cfg, log[..n]), log[n].lsn, log[n].changes);
      assert forall i | 0 <= i < n :: log[..n][i] == log[i];
    }
  }

  lemma {:induction false} TruncateChanges(cfg: Config, s: Index, lsn: nat, changes: seq<RowChange>)
    requires forall c | 0 <= c < |changes| :: changes[c].Truncate?
    requires s.values == map[] && s.tables == s.structural
    ensures var r := AdvanceChanges(cfg, s, lsn, changes);
            && r.values == map[] && r.tables == r.structural
            && forall t :: t in r.tables <==>
                 t in s.tables || exists c | 0 <= c < |changes| :: ChangeTouches(cfg, changes[c], TableProbe(t))
  {
    if changes != [] {
      var n := |changes| - 1;
      TruncateChanges(cfg, s, lsn, changes[..n]);
      assert forall c | 0 <= c < n :: changes[..n][c] == changes[c];
      assert ChangeTouches(cfg, changes[n], TableProbe(Lower(changes[n].table)));
    }
  }

  lemma LastTouchOrderFree(cfg: Config, a: seq<Txn>, b: seq<Txn>, p: Probe)
    requires multiset(a) == multiset(b)
    ensures LastTouch(cfg, a, p) <= LastTouch(cfg, b, p)
  {
    LastTouchIsMaximum(cfg, a, p);
    LastTouchIsMaximum(cfg, b, p);
    if LastTouch(cfg, a, p) != 0 {
      var i :| 0 <= i < |a| && Touches(cfg, a[i], p) && a[i].lsn == LastTouch(cfg, a, p);
      assert a[i] in multiset(a);
      assert a[i] in multiset(b) && a[i] in b;
    }
  }

  /** Any delivery order of the same notifications builds the same index. */
  lemma DeliveryOrderIrrelevant(cfg: Config, a: seq<Txn>, b: seq<Txn>)
    requires TruncateOnly(a)
    requires multiset(a) == multiset(b)
    ensures TruncateOnly(b)
    ensures IndexOf(cfg, a) == IndexOf(cfg, b)
  {
    forall i, c | 0 <= i < |b| && 0 <= c < |b[i].changes|
      ensures b[i].changes[c].Truncate?
    {
      assert b[i] in multiset(b);
      assert b[i] in multiset(a) && b[i] in a;
    }
    TruncatesTrackTables(cfg, a);
    TruncatesTrackTables(cfg, b);
    var x, y := IndexOf(cfg, a), IndexOf(cfg, b);
    forall t
      ensures t in x.tables <==> t in y.tables
      ensures t in x.tables ==> x.tables[t] == y.tables[t]
    {
      SameTables(cfg, a, b, t);
      SameTables(cfg, b, a, t);
      LastTouchOrderFree(cfg, a, b, TableProbe(t));
      LastTouchOrderFree(cfg, b, a, TableProbe(t));
      IndexRefinesScan(cfg, a, TableProbe(t));
      IndexRefinesScan(cfg, b, TableProbe(t));
      assert Lookup(x, TableProbe(t)) == Lookup(y, TableProbe(t));
    }
    assert x.tables == y.tables;
  }

  lemma SameTables(cfg: Config, a: seq<Txn>, b: seq<Txn>, t: string)
    requires multiset(a) == multiset(b)
    ensures (exists i | 0 <= i < |a| :: Touches(cfg, a[i], TableProbe(t))) ==>
            exists j | 0 <= j < |b| :: Touches(cfg, b[j], TableProbe(t))
  {
    if i :| 0 <= i < |a| && Touches(cfg, a[i], TableProbe(t)) {
      assert a[i] in multiset(a);
      assert a[i] in multiset(b) && a[i] in b;
    }
  }

  /** Anchored or not, a single-table query is versioned by the largest number announced for its table. */
  lemma AnchorsCollapse(cfg: Config, log: seq<Txn>, table: string, filters: seq<Filter>)
    requires TruncateOnly(log)
    ensures Version(cfg, IndexOf(cfg, log), [table], filters) == LastTouch(cfg, log, TableProbe(Lower(table)))
  {
    TruncatesTrackTables(cfg, log);
    IndexRefinesScan(cfg, log, TableProbe(Lower(table)));
    var s := IndexOf(cfg, log);
    if Anchor(cfg, [table], filters).None? {
      assert [table][..0] == [];
      assert TableVersion(s, [table]) == Max(Max(0, Get(s.tables, Lower(table))), Get(s.structural, Lower(table)));
    }
  }
}

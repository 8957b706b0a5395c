/** The bridge thread: every received transaction is indexed first and broadcast second. */
module CdcBridge {
  import opened Text
  import opened ChangeLog
  import opened VersionIndex

  /** What the receivers have been sent never runs ahead of the index, and lags it by one transaction at most. */
  ghost predicate InStep(indexed: seq<Txn>, sent: seq<Txn>) {
    sent <= indexed && |indexed| <= |sent| + 1
  }

  class CdcBridge {
    const versions: VersionIndex
    /** Present in primary mode only: transactions published and not yet received. */
    var input: Option<seq<Txn>>
    var sent: seq<Txn>
    var stop: bool

    ghost predicate Valid()
      reads this, versions
    {
      versions.Valid() && InStep(versions.log, sent)
    }

    constructor (versions: VersionIndex, primary: bool)
      requires versions.Valid() && versions.log == []
      ensures this.versions == versions && Valid()
      ensures sent == [] && !stop && input == (if primary then Some([]) else None)
    {
      this.versions := versions;
      input := if primary then Some([]) else None;
      sent, stop := [], false;
    }

    /** Without an input channel a published transaction is dropped. */
    method Publish(txn: Txn)
      requires Valid()
      modifies this`input
      ensures Valid()
      ensures input == if old(input).Some? then Some(old(input).value + [txn]) else None
    {
      if input.Some? {
        input := Some(input.value + [txn]);
      }
    }

    /** Raises the flag; from then on `Pump` drops everything it receives. */
    method Stop()
      requires Valid()
      modifies this`stop
      ensures Valid() && stop
    {
      stop := true;
    }

    method Index(txn: Txn)
      requires Valid() && versions.log == sent
      modifies versions
      ensures Valid() && versions.log == sent + [txn]
    {
      versions.Advance(txn);
    }

    method Broadcast(txn: Txn)
      requires Valid() && versions.log == sent + [txn]
      modifies this`sent
      ensures Valid() && sent == versions.log
    {
      sent := sent + [txn];
    }

    /**
     The receive loop. `raised` is whether another thread has raised the flag by the n-th receipt: the
     transactions before the first positive reading are indexed and sent in order, that one and the rest are
     dropped. Once `Stop` was called nothing is indexed or sent any more.
     */
    method Pump(received: seq<Txn>, raised: nat -> bool) returns (n: nat)
      requires Valid() && versions.log == sent
      modifies this`sent, versions
      ensures n <= |received| && (stop ==> n == 0)
      ensures (n < |received| ==> stop || raised(n)) && forall i | 0 <= i < n :: !raised(i)
      ensures Valid() && versions.log == sent == old(sent) + received[..n]
    {
      hide *;
      n := 0;
      while n < |received|
        invariant Valid() && n <= |received| && versions.log == sent == old(sent) + received[..n]
        invariant (stop ==> n == 0) && forall i | 0 <= i < n :: !raised(i)
      {
        if stop || raised(n) {
          break;
        }
        Index(received[n]);
        Broadcast(received[n]);
        assert received[..n + 1] == received[..n] + [received[n]];
        n := n + 1;
      }
    }
  }

  /**
   At any moment a version read covers everything already broadcast: rescanning what was sent never finds a
   newer one.
   */
  lemma VersionCoversSent(cfg: Config, indexed: seq<Txn>, sent: seq<Txn>, tables: seq<string>, filters: seq<Filter>)
    requires InStep(indexed, sent) && Nondecreasing(indexed)
    ensures ScanVersion(cfg, sent, tables, filters) <= Version(cfg, IndexOf(cfg, indexed), tables, filters)
  {
    VersionIsScan(cfg, indexed, tables, filters);
    VersionMonotone(cfg, indexed, |sent|, |indexed|, tables, filters);
    assert indexed[..|sent|] == sent && indexed[..|indexed|] == indexed;
  }
}

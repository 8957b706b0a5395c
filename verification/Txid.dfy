/** Transaction ids seen on the stream, and the writers waiting for theirs. */
module Txid {
  import opened Text

  const MAX_SEEN: nat := 4096

  const TWO_32: nat := 0x1_0000_0000

  /** The default key: the low 32 bits of the id, as decimal text. */
  function Low32(txid: int): string {
    Decimal(txid % TWO_32)
  }

  /** Default keys agree exactly when the ids agree modulo 2^32, and an id of 32 bits is its own key. */
  lemma Low32Agrees(a: int, b: int)
    ensures Low32(a) == Low32(b) <==> a % 0x1_0000_0000 == b % 0x1_0000_0000
    ensures 0 <= a < 0x1_0000_0000 ==> Low32(a) == Decimal(a)
  {
    hide Decimal, DigitsValue;
    var x, y := a % TWO_32, b % TWO_32;
    assert Low32(a) == Decimal(x) && Low32(b) == Decimal(y);
    assert DigitsValue(Decimal(x)) == x && DigitsValue(Decimal(y)) == y;
  }

  /** An insertion-ordered set that drops its oldest keys beyond the limit. */
  function Recorded(seen: seq<string>, key: string): seq<string> {
    if key in seen then seen
    else
      var grown := seen + [key];
      if |grown| > MAX_SEEN then grown[|grown| - MAX_SEEN..] else grown
  }

  lemma AppendDistinct(keys: seq<string>, key: string)
    requires NoDuplicates(keys) && key !in keys
    ensures NoDuplicates(keys + [key])
  {
  }

  /** A full window of distinct keys stays full and distinct, drops at most its oldest key, and holds the new one. */
  lemma RecordedWindow(seen: seq<string>, key: string)
    requires NoDuplicates(seen) && |seen| <= MAX_SEEN
    ensures NoDuplicates(Recorded(seen, key)) && |Recorded(seen, key)| <= MAX_SEEN
    ensures key in Recorded(seen, key)
    ensures forall k | k in seen :: k in Recorded(seen, key) || (|seen| == MAX_SEEN && k == seen[0])
    ensures forall k | k in Recorded(seen, key) :: k == key || k in seen
  {
    if key !in seen {
      var kept := if |seen| == MAX_SEEN then seen[1..] else seen;
      assert Recorded(seen, key) == kept + [key];
      hide Recorded;
      assert NoDuplicates(kept) && key !in kept;
      AppendDistinct(kept, key);
      assert forall k | k in seen :: k in kept || (|seen| == MAX_SEEN && k == seen[0]) by {
        assert |seen| == MAX_SEEN ==> seen == [seen[0]] + seen[1..];
      }
    }
  }

  function RecordAll(seen: seq<string>, keys: seq<string>): seq<string> {
    if keys == [] then seen else Recorded(RecordAll(seen, keys[..|keys| - 1]), keys[|keys| - 1])
  }

  function Latest(keys: seq<string>): seq<string> {
    if |keys| <= 4096 then keys else keys[|keys| - 4096..]
  }

  /** A key recorded again keeps its place; new keys push out the oldest, so the latest 4096 remain in their order. */
  lemma {:induction false} WindowIsLatest(seen: seq<string>, keys: seq<string>, again: string)
    requires NoDuplicates(seen + keys) && |seen| <= 4096
    ensures RecordAll(seen, keys) == Latest(seen + keys)
    ensures again in Latest(seen + keys) ==> RecordAll(seen, keys + [again]) == Latest(seen + keys)
  {
    if keys == [] {
      assert seen + keys == seen;
    } else {
      var n := |keys| - 1;
      assert seen + keys == seen + keys[..n] + [keys[n]];
      StartDistinct(seen + keys[..n], keys[n]);
      WindowIsLatest(seen, keys[..n], again);
      RecordsNew(seen + keys[..n], keys[n]);
    }
    assert (keys + [again])[..|keys|] == keys;
  }

  lemma StartDistinct(keys: seq<string>, key: string)
    requires NoDuplicates(keys + [key])
    ensures NoDuplicates(keys) && key !in keys
  {
    var all := keys + [key];
    assert forall i | 0 <= i < |keys| :: all[i] == keys[i];
    assert all[|keys|] == key;
  }

  lemma RecordsNew(keys: seq<string>, key: string)
    requires key !in keys
    ensures Recorded(Latest(keys), key) == Latest(keys + [key])
  {
    assert forall k | k in Latest(keys) :: k in keys;
  }

  lemma LatestAre(keys: seq<string>, i: nat)
    requires NoDuplicates(keys) && i < |keys|
    ensures keys[i] in Latest(keys) <==> |keys| - i <= 4096
  {
    var kept := Latest(keys);
    var dropped := |keys| - |kept|;
    assert forall j | 0 <= j < |kept| :: kept[j] == keys[dropped + j];
    if i >= dropped {
      assert kept[i - dropped] == keys[i];
    }
  }

  /** So of distinct keys exactly the last 4096 are still known. */
  lemma SeenIffRecent(keys: seq<string>, i: nat)
    requires NoDuplicates(keys) && i < |keys|
    ensures keys[i] in RecordAll([], keys) <==> |keys| - i <= 4096
  {
    hide Latest, RecordAll, Recorded;
    assert [] + keys == keys;
    WindowIsLatest([], keys, "");
    LatestAre(keys, i);
  }

  class TxidTracker {
    const normalize: int -> string
    var seen: seq<string>
    /** Unresolved waiters by ticket, with the key each waits for. */
    var waiters: map<nat, string>
    var resolved: set<nat>
    var rejected: set<nat>
    var nextTicket: nat

    /** No unresolved waiter's key has been seen, and every ticket is waiting, resolved or rejected, once. */
    ghost predicate Valid()
      reads this
    {
      && NoDuplicates(seen) && |seen| <= MAX_SEEN
      && (forall w | w in waiters :: waiters[w] !in seen)
      && (forall w: nat :: w < nextTicket <==> w in waiters || w in resolved || w in rejected)
      && waiters.Keys !! resolved && waiters.Keys !! rejected && resolved !! rejected
    }

    constructor (normalize: int -> string)
      ensures Valid() && seen == [] && waiters == map[] && this.normalize == normalize
    {
      this.normalize := normalize;
      seen, waiters, resolved, rejected, nextTicket := [], map[], {}, {}, 0;
    }

    /** Exactly the waiters for this key are resolved; none is lost and no other is woken. */
    method Record(txid: int)
      requires Valid()
      modifies this
      ensures Valid() && seen == Recorded(old(seen), normalize(txid))
      ensures waiters == map w | w in old(waiters) && old(waiters)[w] != normalize(txid) :: old(waiters)[w]
      ensures resolved == old(resolved) + set w | w in old(waiters) && old(waiters)[w] == normalize(txid)
      ensures rejected == old(rejected) && nextTicket == old(nextTicket)
    {
      var key := normalize(txid);
      RecordedWindow(seen, key);
      Remember(key);
      Notify(key);
    }

    method Remember(key: string)
      requires |seen| <= MAX_SEEN
      modifies this`seen
      ensures seen == Recorded(old(seen), key)
    {
      if key !in seen {
        seen := seen + [key];
      }
      ghost var grown := seen;
      while |seen| > MAX_SEEN
        invariant |seen| <= |grown| <= MAX_SEEN + 1
        invariant seen == grown[|grown| - |seen|..]
        invariant |grown| <= MAX_SEEN ==> seen == grown
        invariant |grown| > MAX_SEEN ==> |seen| >= MAX_SEEN
        decreases |seen|
      {
        seen := seen[1..];
      }
    }

    /** Each waiter checks for itself whether its key is in the window. */
    method Notify(ghost key: string)
      requires forall w | w in waiters :: waiters[w] in seen <==> waiters[w] == key
      modifies this`waiters, this`resolved
      ensures waiters == map w | w in old(waiters) && old(waiters)[w] != key :: old(waiters)[w]
      ensures resolved == old(resolved) + set w | w in old(waiters) && old(waiters)[w] == key
    {
      var rest := waiters.Keys;
      while rest != {}
        invariant rest <= waiters.Keys <= old(waiters).Keys
        invariant forall w | w in waiters :: waiters[w] == old(waiters)[w]
        invariant forall w | w in old(waiters) :: w in waiters <==> w in rest || old(waiters)[w] != key
        invariant resolved == old(resolved) + (set w | w in old(waiters) && w !in rest && old(waiters)[w] == key)
        decreases rest
      {
        var w :| w in rest;
        rest := rest - {w};
        if waiters[w] in seen {
          waiters := waiters - {w};
          resolved := resolved + {w};
        }
      }
    }

    method Has(txid: int) returns (b: bool)
      ensures b <==> normalize(txid) in seen
    {
      b := normalize(txid) in seen;
    }

    /** A key already in the window resolves at once; any other waits. */
    method AwaitTxId(txid: int) returns (ticket: nat)
      requires Valid()
      modifies this`waiters, this`resolved, this`nextTicket
      ensures Valid() && ticket == old(nextTicket) && nextTicket == ticket + 1
      ensures if normalize(txid) in seen
              then resolved == old(resolved) + {ticket} && waiters == old(waiters)
              else resolved == old(resolved) && waiters == old(waiters)[ticket := normalize(txid)]
    {
      var key := normalize(txid);
      ticket := nextTicket;
      nextTicket := nextTicket + 1;
      if key in seen {
        resolved := resolved + {ticket};
      } else {
        waiters := waiters[ticket := key];
      }
    }

    /** A timeout rejects a waiter that is still waiting, and only that one. */
    method Timeout(ticket: nat)
      requires Valid()
      modifies this`waiters, this`rejected
      ensures Valid() && waiters == old(waiters) - {ticket}
      ensures rejected == if ticket in old(waiters) then old(rejected) + {ticket} else old(rejected)
    {
      if ticket in waiters {
        waiters := waiters - {ticket};
        rejected := rejected + {ticket};
      }
    }
  }
}

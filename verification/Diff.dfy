/** Keyed results and the deltas between two of them. */
module Diff {
  import opened Text

  /** A JSON value with its text; for a string the text is its content, otherwise its JSON form. */
  datatype JsonValue = JsonString(text: string) | JsonOther(text: string)

  datatype JsonRow = JsonRow(fields: map<string, JsonValue>)

  type RowHash = JsonRow -> string

  type KeyedRows = map<string, JsonRow>

  datatype Delta =
    | InsertDelta(key: string, row: JsonRow)
    | UpdateDelta(key: string, row: JsonRow)
    | DeleteDelta(key: string, row: JsonRow)

  /** The server's key of a row: its primary-key text, or a hash of the whole row. */
  function RowKey(hash: RowHash, pk: Option<string>, row: JsonRow): string {
    if pk.Some? && pk.value in row.fields then row.fields[pk.value].text else hash(row)
  }

  function Keyed(hash: RowHash, pk: Option<string>, rows: seq<JsonRow>): KeyedRows {
    if rows == [] then map[]
    else
      var n := |rows| - 1;
      Keyed(hash, pk, rows[..n])[RowKey(hash, pk, rows[n]) := rows[n]]
  }

  method KeyedMap(hash: RowHash, pk: Option<string>, rows: seq<JsonRow>) returns (m: KeyedRows)
    ensures m == Keyed(hash, pk, rows)
  {
    m := map[];
    for i := 0 to |rows|
      invariant m == Keyed(hash, pk, rows[..i])
    {
      m := m[RowKey(hash, pk, rows[i]) := rows[i]];
      assert rows[..i + 1][..i] == rows[..i];
    }
    assert rows[..|rows|] == rows;
  }

  /** A row that no later row replaces is found under its key. */
  lemma {:induction false} KeyedLast(hash: RowHash, pk: Option<string>, rows: seq<JsonRow>, i: nat)
    requires i < |rows|
    requires forall j | i < j < |rows| :: RowKey(hash, pk, rows[j]) != RowKey(hash, pk, rows[i])
    ensures RowKey(hash, pk, rows[i]) in Keyed(hash, pk, rows)
    ensures Keyed(hash, pk, rows)[RowKey(hash, pk, rows[i])] == rows[i]
  {
    var n := |rows| - 1;
    if i < n {
      assert forall j | 0 <= j < n :: rows[..n][j] == rows[j];
      KeyedLast(hash, pk, rows[..n], i);
    }
  }

  /** Everything in a keyed result is the last row with its key. */
  lemma {:induction false} KeyedOrigin(
    hash: RowHash, pk: Option<string>, rows: seq<JsonRow>, key: string)
    returns (i: nat)
    requires key in Keyed(hash, pk, rows)
    ensures i < |rows| && rows[i] == Keyed(hash, pk, rows)[key] && RowKey(hash, pk, rows[i]) == key
    ensures forall j | i < j < |rows| :: RowKey(hash, pk, rows[j]) != key
  {
    var n := |rows| - 1;
    if RowKey(hash, pk, rows[n]) == key {
      i := n;
    } else {
      i := KeyedOrigin(hash, pk, rows[..n], key);
      assert forall j | 0 <= j < n :: rows[..n][j] == rows[j];
    }
  }

  /** Rows that all have the key column are found under exactly the texts of that column, whatever its type. */
  lemma {:induction false} KeyedByColumn(hash: RowHash, column: string, rows: seq<JsonRow>, key: string)
    requires forall i | 0 <= i < |rows| :: column in rows[i].fields
    ensures key in Keyed(hash, Some(column), rows) <==>
            exists i | 0 <= i < |rows| :: rows[i].fields[column].text == key
  {
    if rows != [] {
      var n := |rows| - 1;
      assert forall i | 0 <= i < n :: rows[..n][i] == rows[i];
      KeyedByColumn(hash, column, rows[..n], key);
      if i :| 0 <= i < n && rows[i].fields[column].text == key {
        assert rows[..n][i].fields[column].text == key;
      }
    }
  }

  /** No two rows have the same text in this column. */
  ghost predicate DistinctTexts(column: string, rows: seq<JsonRow>) {
    && (forall i | 0 <= i < |rows| :: column in rows[i].fields)
    && forall i, j | 0 <= i < j < |rows| :: rows[i].fields[column].text != rows[j].fields[column].text
  }

  /** Rows with distinct texts are all kept, each under its own text. */
  lemma {:induction false} DistinctRowsAllKept(hash: RowHash, column: string, rows: seq<JsonRow>)
    requires DistinctTexts(column, rows)
    ensures var keyed := Keyed(hash, Some(column), rows);
            && |keyed| == |rows|
            && forall i | 0 <= i < |rows| ::
                 rows[i].fields[column].text in keyed && keyed[rows[i].fields[column].text] == rows[i]
  {
    if rows != [] {
      var n := |rows| - 1;
      assert forall i | 0 <= i < n :: rows[..n][i] == rows[i];
      DistinctRowsAllKept(hash, column, rows[..n]);
      var before, key := Keyed(hash, Some(column), rows[..n]), rows[n].fields[column].text;
      KeyedByColumn(hash, column, rows[..n], key);
      SizeGrows(before, key, rows[n]);
    }
  }

  lemma SizeGrows(m: KeyedRows, key: string, row: JsonRow)
    requires key !in m
    ensures |m[key := row]| == |m| + 1
  {
    assert m[key := row].Keys == m.Keys + {key};
    assert |m[key := row]| == |m[key := row].Keys| && |m| == |m.Keys|;
  }

  /** Rows without the key column are found under exactly their hashes. */
  lemma {:induction false} KeyedByContent(hash: RowHash, pk: Option<string>, rows: seq<JsonRow>, key: string)
    requires pk.Some? ==> forall i | 0 <= i < |rows| :: pk.value !in rows[i].fields
    ensures key in Keyed(hash, pk, rows) <==> exists i | 0 <= i < |rows| :: hash(rows[i]) == key
  {
    if rows != [] {
      var n := |rows| - 1;
      assert forall i | 0 <= i < n :: rows[..n][i] == rows[i];
      KeyedByContent(hash, pk, rows[..n], key);
      if i :| 0 <= i < n && hash(rows[i]) == key {
        assert hash(rows[..n][i]) == key;
      }
    }
  }

  /** What one key contributes to a difference, if anything. */
  function KeyDelta(prev: KeyedRows, next: KeyedRows, key: string): Option<Delta> {
    if key in next then
      if key !in prev then Some(InsertDelta(key, next[key]))
      else if prev[key] != next[key] then Some(UpdateDelta(key, next[key]))
      else None
    else if key in prev then Some(DeleteDelta(key, prev[key]))
    else None
  }

  /** The deltas of a difference restricted to some keys. */
  ghost predicate DiffOver(deltas: seq<Delta>, prev: KeyedRows, next: KeyedRows, keys: set<string>) {
    && (forall i | 0 <= i < |deltas| :: deltas[i].key in keys && KeyDelta(prev, next, deltas[i].key) == Some(deltas[i]))
    && (forall i, j | 0 <= i < j < |deltas| :: deltas[i].key != deltas[j].key)
    && (forall key | key in keys && KeyDelta(prev, next, key).Some? :: KeyDelta(prev, next, key).value in deltas)
  }

  /** The deltas of a difference, in any order: one for each key that changed and no other. */
  ghost predicate IsDiff(deltas: seq<Delta>, prev: KeyedRows, next: KeyedRows) {
    DiffOver(deltas, prev, next, prev.Keys + next.Keys)
  }

  lemma DiffVisits(deltas: seq<Delta>, prev: KeyedRows, next: KeyedRows, keys: set<string>, key: string)
    requires DiffOver(deltas, prev, next, keys) && key !in keys
    ensures var d := KeyDelta(prev, next, key);
            DiffOver(if d.Some? then deltas + [d.value] else deltas, prev, next, keys + {key})
  {
    var d := KeyDelta(prev, next, key);
    if d.Some? {
      var more := deltas + [d.value];
      assert forall i | 0 <= i < |deltas| :: more[i] == deltas[i];
      assert more[|deltas|] == d.value;
      assert forall k | k in keys && KeyDelta(prev, next, k).Some? :: KeyDelta(prev, next, k).value in more;
    }
  }

  /** The loop over `next`, in an arbitrary order. */
  method DiffNext(prev: KeyedRows, next: KeyedRows) returns (deltas: seq<Delta>)
    ensures DiffOver(deltas, prev, next, next.Keys)
  {
    deltas := [];
    ghost var visited: set<string> := {};
    var rest := next.Keys;
    while rest != {}
      invariant visited !! rest && visited + rest == next.Keys
      invariant DiffOver(deltas, prev, next, visited)
      decreases rest
    {
      var key :| key in rest;
      DiffVisits(deltas, prev, next, visited, key);
      rest, visited := rest - {key}, visited + {key};
      if key !in prev {
        deltas := deltas + [InsertDelta(key, next[key])];
      } else if prev[key] != next[key] {
        deltas := deltas + [UpdateDelta(key, next[key])];
      }
    }
    assert visited == next.Keys;
  }

  lemma PrevVisits(deltas: seq<Delta>, prev: KeyedRows, next: KeyedRows, done: set<string>, key: string)
    requires DiffOver(deltas, prev, next, next.Keys + done) && key in prev && key !in done
    ensures DiffOver(if key !in next then deltas + [DeleteDelta(key, prev[key])] else deltas, prev, next,
        next.Keys + (done + {key}))
  {
    if key !in next {
      DiffVisits(deltas, prev, next, next.Keys + done, key);
      assert next.Keys + done + {key} == next.Keys + (done + {key});
    } else {
      assert next.Keys + done == next.Keys + (done + {key});
    }
  }

  /** The loop over `prev`, which adds the deletions. */
  method DiffPrev(prev: KeyedRows, next: KeyedRows, updates: seq<Delta>) returns (deltas: seq<Delta>)
    requires DiffOver(updates, prev, next, next.Keys + {})
    ensures DiffOver(deltas, prev, next, next.Keys + prev.Keys)
  {
    deltas := updates;
    ghost var done: set<string> := {};
    var rest := prev.Keys;
    while rest != {}
      invariant done !! rest && done + rest == prev.Keys
      invariant DiffOver(deltas, prev, next, next.Keys + done)
      decreases rest
    {
      var key :| key in rest;
      PrevVisits(deltas, prev, next, done, key);
      rest, done := rest - {key}, done + {key};
      if key !in next {
        deltas := deltas + [DeleteDelta(key, prev[key])];
      }
    }
    assert done == prev.Keys;
  }

  method ComputeDiff(prev: KeyedRows, next: KeyedRows) returns (deltas: seq<Delta>)
    ensures IsDiff(deltas, prev, next)
  {
    deltas := DiffNext(prev, next);
    assert next.Keys + {} == next.Keys;
    deltas := DiffPrev(prev, next, deltas);
    assert next.Keys + prev.Keys == prev.Keys + next.Keys;
  }

  /** A difference inserts what was absent, updates what was present and differs, and deletes what is gone. */
  lemma DeltaKinds(deltas: seq<Delta>, prev: KeyedRows, next: KeyedRows, key: string, row: JsonRow)
    requires IsDiff(deltas, prev, next)
    ensures InsertDelta(key, row) in deltas <==> key !in prev && key in next && next[key] == row
    ensures UpdateDelta(key, row) in deltas <==> key in prev && key in next && next[key] == row && prev[key] != row
    ensures DeleteDelta(key, row) in deltas <==> key in prev && key !in next && prev[key] == row
  {
    forall d: Delta | d.key == key
      ensures d in deltas <==> KeyDelta(prev, next, key) == Some(d)
    {
      if d in deltas {
        var i :| 0 <= i < |deltas| && deltas[i] == d;
      }
    }
    assert InsertDelta(key, row).key == key && UpdateDelta(key, row).key == key && DeleteDelta(key, row).key == key;
  }

  function ApplyDelta(m: KeyedRows, d: Delta): KeyedRows {
    match d
    case InsertDelta(key, row) => m[key := row]
    case UpdateDelta(key, row) => m[key := row]
    case DeleteDelta(key, _) => m - {key}
  }

  function ApplyDeltas(m: KeyedRows, deltas: seq<Delta>): KeyedRows {
    if deltas == [] then m
    else ApplyDelta(ApplyDeltas(m, deltas[..|deltas| - 1]), deltas[|deltas| - 1])
  }

  ghost predicate SameAt(a: KeyedRows, b: KeyedRows, key: string) {
    (key in a <==> key in b) && (key in a ==> a[key] == b[key])
  }

  ghost predicate Visits(deltas: seq<Delta>, n: nat, key: string)
    requires n <= |deltas|
  {
    exists i | 0 <= i < n :: deltas[i].key == key
  }

  lemma DeltaAtKey(deltas: seq<Delta>, prev: KeyedRows, next: KeyedRows, i: nat, m: KeyedRows, key: string)
    requires IsDiff(deltas, prev, next) && i < |deltas|
    ensures SameAt(ApplyDelta(m, deltas[i]), if key == deltas[i].key then next else m, key)
  {
    assert KeyDelta(prev, next, deltas[i].key) == Some(deltas[i]);
  }

  /**
   Part way through a difference replayed over `start`, the keys already visited agree with `next` and the others
   with `start`.
   */
  lemma {:induction false} PartialReplay(
    deltas: seq<Delta>, prev: KeyedRows, next: KeyedRows, start: KeyedRows, n: nat, key: string)
    requires IsDiff(deltas, prev, next) && n <= |deltas|
    ensures SameAt(ApplyDeltas(start, deltas[..n]), if Visits(deltas, n, key) then next else start, key)
  {
    hide IsDiff, ApplyDelta;
    if n > 0 {
      assert deltas[..n][..n - 1] == deltas[..n - 1];
      PartialReplay(deltas, prev, next, start, n - 1, key);
      DeltaAtKey(deltas, prev, next, n - 1, ApplyDeltas(start, deltas[..n - 1]), key);
      assert Visits(deltas, n, key) <==> Visits(deltas, n - 1, key) || deltas[n - 1].key == key;
    }
  }

  /** The keys a difference says nothing about. */
  ghost predicate AgreesElsewhere(start: KeyedRows, prev: KeyedRows, next: KeyedRows) {
    forall key | KeyDelta(prev, next, key).None? :: SameAt(start, next, key)
  }

  lemma ReplayAt(deltas: seq<Delta>, prev: KeyedRows, next: KeyedRows, start: KeyedRows, key: string)
    requires IsDiff(deltas, prev, next)
    ensures SameAt(ApplyDeltas(start, deltas), if KeyDelta(prev, next, key).Some? then next else start, key)
  {
    hide ApplyDeltas, SameAt;
    assert deltas[..|deltas|] == deltas;
    PartialReplay(deltas, prev, next, start, |deltas|, key);
    if KeyDelta(prev, next, key).Some? {
      var i :| 0 <= i < |deltas| && deltas[i] == KeyDelta(prev, next, key).value;
      assert deltas[i].key == key;
    }
  }

  /**
   Replaying a difference in any order over any start gives the new keyed result exactly when the start
   already agrees with it at every key that the difference does not mention.
   */
  lemma ReplayFrom(deltas: seq<Delta>, prev: KeyedRows, next: KeyedRows, start: KeyedRows)
    requires IsDiff(deltas, prev, next)
    ensures ApplyDeltas(start, deltas) == next <==> AgreesElsewhere(start, prev, next)
  {
    hide IsDiff, ApplyDeltas, KeyDelta;
    var m := ApplyDeltas(start, deltas);
    if AgreesElsewhere(start, prev, next) {
      forall key
        ensures SameAt(m, next, key)
      {
        ReplayAt(deltas, prev, next, start, key);
      }
      SameEverywhere(m, next);
    }
    if m == next {
      forall key | KeyDelta(prev, next, key).None?
        ensures SameAt(start, next, key)
      {
        ReplayAt(deltas, prev, next, start, key);
      }
    }
  }

  lemma SameEverywhere(a: KeyedRows, b: KeyedRows)
    requires forall key :: SameAt(a, b, key)
    ensures a == b
  {
    forall key
      ensures key in a <==> key in b
    {
      assert SameAt(a, b, key);
    }
    forall key | key in a
      ensures a[key] == b[key]
    {
      assert SameAt(a, b, key);
    }
  }

  /** In particular, over the old keyed result it always does. */
  lemma DiffReplays(deltas: seq<Delta>, prev: KeyedRows, next: KeyedRows)
    requires IsDiff(deltas, prev, next)
    ensures ApplyDeltas(prev, deltas) == next
  {
    ReplayFrom(deltas, prev, next, prev);
  }

  /** A snapshot that is newer than the hub's `last` can leave a row behind that no later difference removes. */
  lemma NewerSnapshotDiverges(row: JsonRow, deltas: seq<Delta>)
    requires IsDiff(deltas, map[], map[])
    ensures ApplyDeltas(map["a" := row], deltas) != map[]
  {
    assert SameAt(map["a" := row], map[], "a") <==> false;
    ReplayFrom(deltas, map[], map[], map["a" := row]);
    assert KeyDelta(map[], map[], "a").None?;
  }

  /** No deltas exactly when nothing changed. */
  lemma EmptyDiff(deltas: seq<Delta>, prev: KeyedRows, next: KeyedRows)
    requires IsDiff(deltas, prev, next)
    ensures deltas == [] <==> prev == next
  {
    DiffReplays(deltas, prev, next);
    if prev == next && deltas != [] {
      assert false;
    }
  }
}

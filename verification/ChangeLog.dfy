/** Committed transactions as the replication stream reports them. */
module ChangeLog {
  import opened Text

  /** A column name with its text, or None for SQL NULL. */
  type Column = (string, Option<string>)

  type Row = seq<Column>

  datatype RowChange =
    | Insert(table: string, row: Row)
    | Update(table: string, key: Row, row: Row)
    | Delete(table: string, key: Row)
    | Truncate(table: string)

  datatype Txn = Txn(xid: nat, lsn: nat, changes: seq<RowChange>)

  /** The text of the first column with this name, ignoring ASCII case. */
  function FindValue(columns: Row, name: string): Option<string> {
    if columns == [] then None
    else if Lower(columns[0].0) == Lower(name) then columns[0].1
    else FindValue(columns[1..], name)
  }

  /** The first column whose name is this one ignoring case. */
  ghost predicate FirstNamed(columns: Row, name: string, i: nat) {
    && i < |columns| && EqualIgnoringCase(columns[i].0, name)
    && forall j | 0 <= j < i :: !EqualIgnoringCase(columns[j].0, name)
  }

  /** The value found is that of the first column of the name, and None when there is none. */
  lemma {:induction false} FindValueExact(columns: Row, name: string)
    ensures forall i: nat | FirstNamed(columns, name, i) :: FindValue(columns, name) == columns[i].1
    ensures (forall i | 0 <= i < |columns| :: !EqualIgnoringCase(columns[i].0, name)) ==>
        FindValue(columns, name) == None
  {
    hide Lower, EqualIgnoringCase;
    if columns != [] {
      LowerIffEqual(columns[0].0, name);
      var rest := columns[1..];
      FindValueExact(rest, name);
      forall i: nat | FirstNamed(columns, name, i) && i > 0
        ensures FindValue(columns, name) == columns[i].1
      {
        assert forall j | 0 <= j < i :: rest[j] == columns[j + 1];
        assert FirstNamed(rest, name, i - 1);
      }
    }
  }

  /** The non-null columns of a row, in order. */
  function NonNull(columns: Row): seq<(string, string)> {
    if columns == [] then []
    else
      var n := |columns| - 1;
      NonNull(columns[..n]) + (if columns[n].1.Some? then [(columns[n].0, columns[n].1.value)] else [])
  }

  /** Every non-null column is listed with its text, and nothing else is. */
  lemma {:induction false} NonNullContents(columns: Row, name: string, text: string)
    ensures (name, text) in NonNull(columns) <==> (name, Some(text)) in columns
  {
    if columns != [] {
      var n := |columns| - 1;
      assert columns == columns[..n] + [columns[n]];
      NonNullContents(columns[..n], name, text);
    }
  }

  /** The column texts that a change on a FULL-identity table carries. */
  function ChangedColumns(change: RowChange): seq<(string, string)> {
    match change
    case Insert(_, row) => NonNull(row)
    case Update(_, key, row) => NonNull(key) + NonNull(row)
    case Delete(_, key) => NonNull(key)
    case Truncate(_) => []
  }

  /** The loop that fills the vector of column texts. */
  method AddColumns(out: seq<(string, string)>, columns: Row) returns (r: seq<(string, string)>)
    ensures r == out + NonNull(columns)
  {
    r := out;
    for i := 0 to |columns|
      invariant r == out + NonNull(columns[..i])
    {
      assert columns[..i + 1][..i] == columns[..i];
      if columns[i].1.Some? {
        r := r + [(columns[i].0, columns[i].1.value)];
      }
    }
    assert columns[..|columns|] == columns;
  }

  method ChangeColumns(change: RowChange) returns (out: seq<(string, string)>)
    ensures out == ChangedColumns(change)
  {
    out := [];
    match change
    case Insert(_, row) => out := AddColumns(out, row);
    case Update(_, key, row) =>
      out := AddColumns(out, key);
      out := AddColumns(out, row);
    case Delete(_, key) => out := AddColumns(out, key);
    case Truncate(_) =>
  }

  /** The old and new primary-key texts that a change carries. */
  function PkValues(change: RowChange, pk: string): seq<string> {
    match change
    case Insert(_, row) => OneOrNone(FindValue(row, pk))
    case Update(_, key, row) => OneOrNone(FindValue(key, pk)) + OneOrNone(FindValue(row, pk))
    case Delete(_, key) => OneOrNone(FindValue(key, pk))
    case Truncate(_) => []
  }

  /** One of the column lists that the change carries: the new row, or the old key. */
  ghost predicate Carries(change: RowChange, columns: Row) {
    match change
    case Insert(_, row) => columns == row
    case Update(_, key, row) => columns == key || columns == row
    case Delete(_, key) => columns == key
    case Truncate(_) => false
  }

  /** Exactly the key texts that the change carries are listed. */
  lemma PkValuesExact(change: RowChange, pk: string, text: string)
    ensures text in PkValues(change, pk) <==>
        exists columns :: Carries(change, columns) && FindValue(columns, pk) == Some(text)
  {
    hide FindValue;
    match change
    case Insert(_, row) => assert Carries(change, row);
    case Update(_, key, row) => assert Carries(change, key) && Carries(change, row);
    case Delete(_, key) => assert Carries(change, key);
    case Truncate(_) =>
  }

  /** Exactly the non-null columns that the change carries are listed. */
  lemma ChangedColumnsExact(change: RowChange, name: string, text: string)
    ensures (name, text) in ChangedColumns(change) <==>
            exists columns :: Carries(change, columns) && (name, Some(text)) in columns
  {
    hide NonNull;
    match change
    case Insert(_, row) =>
      NonNullContents(row, name, text);
      assert Carries(change, row);
    case Update(_, key, row) =>
      NonNullContents(key, name, text);
      NonNullContents(row, name, text);
      assert Carries(change, key) && Carries(change, row);
    case Delete(_, key) =>
      NonNullContents(key, name, text);
      assert Carries(change, key);
    case Truncate(_) =>
  }
}

/**
 * The append-only merges from the staging sheets into the permanent ones:
 * `syncStravaToData_` (StravaData -> Data, keyed on the id column) and
 * `syncSplitsToStored_` (Splits -> SplitsDataStored, keyed on activity id and
 * km joined by '|'). A sheet is its sequence of rows up to the last one with
 * content; row 0 is the header.
 */
module SheetSync {
  import opened Wrappers
  import opened Text

  /** A spreadsheet value: text ("" for an empty cell), an integer or a boolean. */
  datatype Cell = Str(s: string) | Num(n: int) | Bool(b: bool)

  type Row = seq<Cell>
  type Table = seq<Row>

  /** JavaScript truthiness of a cell. */
  predicate Truthy(c: Cell) {
    match c
    case Str(s) => s != ""
    case Num(n) => n != 0
    case Bool(b) => b
  }

  /** JavaScript `String(value)`. */
  function CellText(c: Cell): string {
    match c
    case Str(s) => s
    case Num(n) => IntToString(n)
    case Bool(b) => if b then "true" else "false"
  }

  /** A column past the end of a row reads as an empty cell, as a sheet range does. */
  function CellAt(row: Row, i: nat): Cell {
    if i < |row| then row[i] else Str("")
  }

  /** Which columns identify a row. */
  datatype KeyColumns = IdColumn | ActivityIdAndKm

  /** Every key cell of the row is truthy; other rows take no part in the merge. */
  predicate HasKey(row: Row, key: KeyColumns) {
    Truthy(CellAt(row, 0)) && (key == ActivityIdAndKm ==> Truthy(CellAt(row, 1)))
  }

  function Key(row: Row, key: KeyColumns): string {
    match key
    case IdColumn => CellText(CellAt(row, 0))
    case ActivityIdAndKm => CellText(CellAt(row, 0)) + "|" + CellText(CellAt(row, 1))
  }

  /** Rows 2 to the last row: everything below the header. */
  function DataRows(t: Table): Table {
    if |t| == 0 then [] else t[1..]
  }

  /** The keys of the keyed rows among `rows`. */
  function KeySet(rows: Table, key: KeyColumns): set<string> {
    set i | 0 <= i < |rows| && HasKey(rows[i], key) :: Key(rows[i], key)
  }

  /** The `existingKeys` / `existingIds` set, built row by row. */
  method CollectKeys(rows: Table, key: KeyColumns) returns (keys: set<string>)
    ensures keys == KeySet(rows, key)
  {
    keys := {};
    var i := 0;
    while i < |rows|
      invariant 0 <= i <= |rows|
      invariant keys == KeySet(rows[..i], key)
    {
      KeySetSnoc(rows[..i], rows[i], key);
      assert rows[..i + 1] == rows[..i] + [rows[i]];
      if HasKey(rows[i], key) {
        keys := keys + {Key(rows[i], key)};
      }
      i := i + 1;
    }
    assert rows[..i] == rows;
  }

  lemma KeySetSnoc(rows: Table, row: Row, key: KeyColumns)
    ensures KeySet(rows + [row], key) == KeySet(rows, key) + (if HasKey(row, key) then {Key(row, key)} else {})
  {
    var all := rows + [row];
    assert forall i :: 0 <= i < |rows| ==> all[i] == rows[i];
    assert all[|rows|] == row;
  }

  /** A row is appended when it is keyed and its key is not stored yet. */
  predicate Eligible(row: Row, keys: set<string>, key: KeyColumns) {
    HasKey(row, key) && Key(row, key) !in keys
  }

  /** The `filter` that picks the rows to append, in source order. */
  function NewRows(src: Table, keys: set<string>, key: KeyColumns): (r: Table)
    ensures |r| <= |src|
    ensures forall x :: x in r ==> x in src && Eligible(x, keys, key)
  {
    if src == [] then []
    else (if Eligible(src[0], keys, key) then [src[0]] else []) + NewRows(src[1..], keys, key)
  }

  /**
   * The merge both syncs perform: nothing to do without data rows in the source;
   * otherwise an empty destination is first given the source header (when
   * `seedHeader`), then the eligible data rows go after the existing rows.
   */
  function Merged(dest: Table, src: Table, key: KeyColumns, seedHeader: bool): (r: Table)
    ensures |src| < 2 ==> r == dest
    ensures |dest| <= |r| && r[..|dest|] == dest
    ensures |src| >= 2 && seedHeader && |dest| == 0 ==> |r| >= 1 && r[0] == src[0]
  {
    if |src| < 2 then dest
    else
      var base := if seedHeader && |dest| == 0 then [src[0]] else dest;
      base + NewRows(src[1..], KeySet(DataRows(base), key), key)
  }

  /** Filtering commutes with concatenation: the order of the source is kept. */
  lemma {:induction false} NewRowsConcat(a: Table, b: Table, keys: set<string>, key: KeyColumns)
    ensures NewRows(a + b, keys, key) == NewRows(a, keys, key) + NewRows(b, keys, key)
  {
    if a != [] {
      assert (a + b)[0] == a[0];
      assert (a + b)[1..] == a[1..] + b;
      NewRowsConcat(a[1..], b, keys, key);
    } else {
      assert a + b == b;
    }
  }

  /**
   * Each eligible row is appended as often as it occurs in the source
   * (duplicates within the source are not collapsed) and no other row is.
   */
  lemma {:induction false} NewRowsCount(src: Table, keys: set<string>, key: KeyColumns, x: Row)
    ensures multiset(NewRows(src, keys, key))[x] ==
      if Eligible(x, keys, key) then multiset(src)[x] else 0
  {
    if src != [] {
      NewRowsCount(src[1..], keys, key, x);
      var head := if Eligible(src[0], keys, key) then [src[0]] else [];
      assert NewRows(src, keys, key) == head + NewRows(src[1..], keys, key);
      assert multiset(NewRows(src, keys, key)) == multiset(head) + multiset(NewRows(src[1..], keys, key));
      assert src == [src[0]] + src[1..];
      assert multiset(src) == multiset([src[0]]) + multiset(src[1..]);
    }
  }

  lemma {:induction false} NewRowsOfKnownKeys(src: Table, keys: set<string>, key: KeyColumns)
    requires forall i :: 0 <= i < |src| && HasKey(src[i], key) ==> Key(src[i], key) in keys
    ensures NewRows(src, keys, key) == []
  {
    if src != [] {
      assert forall i :: 0 <= i < |src[1..]| ==> src[1..][i] == src[i + 1];
      NewRowsOfKnownKeys(src[1..], keys, key);
    }
  }

  lemma KeySetConcat(a: Table, b: Table, key: KeyColumns)
    ensures KeySet(a + b, key) == KeySet(a, key) + KeySet(b, key)
  {
    var ab := a + b;
    forall k | k in KeySet(ab, key)
      ensures k in KeySet(a, key) + KeySet(b, key)
    {
      var i :| 0 <= i < |ab| && HasKey(ab[i], key) && Key(ab[i], key) == k;
      if i >= |a| {
        assert ab[i] == b[i - |a|];
      }
    }
    forall k | k in KeySet(a, key) + KeySet(b, key)
      ensures k in KeySet(ab, key)
    {
      if k in KeySet(a, key) {
        var i :| 0 <= i < |a| && HasKey(a[i], key) && Key(a[i], key) == k;
        assert ab[i] == a[i];
      } else {
        var i :| 0 <= i < |b| && HasKey(b[i], key) && Key(b[i], key) == k;
        assert ab[|a| + i] == b[i];
      }
    }
  }

  /** After the filter, every keyed source row has its key either stored before or appended now. */
  lemma {:induction false} KeysAfterAppend(data: Table, keys: set<string>, key: KeyColumns)
    ensures forall i :: 0 <= i < |data| && HasKey(data[i], key) ==>
      Key(data[i], key) in keys + KeySet(NewRows(data, keys, key), key)
  {
    if data != [] {
      var rest := data[1..];
      KeysAfterAppend(rest, keys, key);
      var head := if Eligible(data[0], keys, key) then [data[0]] else [];
      assert NewRows(data, keys, key) == head + NewRows(rest, keys, key);
      KeySetConcat(head, NewRows(rest, keys, key), key);
      if Eligible(data[0], keys, key) {
        assert Key(head[0], key) in KeySet(head, key);
      }
      forall i | 1 <= i < |data|
        ensures data[i] == rest[i - 1]
      {
      }
    }
  }

  /**
   * Running the merge again right away appends nothing, provided the merged
   * table has a header row: always when the header is seeded, and otherwise
   * when the destination was not empty.
   */
  lemma MergeIdempotent(dest: Table, src: Table, key: KeyColumns, seedHeader: bool)
    requires seedHeader || |dest| >= 1
    ensures Merged(Merged(dest, src, key, seedHeader), src, key, seedHeader) == Merged(dest, src, key, seedHeader)
  {
    if |src| >= 2 {
      var base := if seedHeader && |dest| == 0 then [src[0]] else dest;
      var data := src[1..];
      var keys := KeySet(DataRows(base), key);
      var added := NewRows(data, keys, key);
      var m := base + added;
      assert m == Merged(dest, src, key, seedHeader);
      assert DataRows(m) == DataRows(base) + added;
      KeySetConcat(DataRows(base), added, key);
      KeysAfterAppend(data, keys, key);
      NewRowsOfKnownKeys(data, KeySet(DataRows(m), key), key);
      assert Merged(m, src, key, seedHeader) == m + [];
    }
  }

  /** With only numeric key cells, as the importer writes them, composite keys clash only for equal ids and kms. */
  lemma NumericKeysInjective(a: Row, b: Row, id1: int, km1: int, id2: int, km2: int)
    requires |a| >= 2 && a[0] == Num(id1) && a[1] == Num(km1)
    requires |b| >= 2 && b[0] == Num(id2) && b[1] == Num(km2)
    requires Key(a, ActivityIdAndKm) == Key(b, ActivityIdAndKm)
    ensures id1 == id2 && km1 == km2
  {
    SplitAtOnlySeparator(IntToString(id1), IntToString(km1), '|');
    SplitAtOnlySeparator(IntToString(id2), IntToString(km2), '|');
    assert Key(a, ActivityIdAndKm) == IntToString(id1) + ['|'] + IntToString(km1);
    assert Key(b, ActivityIdAndKm) == IntToString(id2) + ['|'] + IntToString(km2);
    IntToStringInjective(id1, id2);
    IntToStringInjective(km1, km2);
  }

  /**
   * The code as written: an empty Data sheet gets its first data row in row 1,
   * where the next run takes it for the header and appends it again.
   */
  lemma DataSyncAsWrittenRepeatsFirstRow()
    ensures var src := [[Str("id")], [Num(1)]];
      && Merged([], src, IdColumn, false) == [[Num(1)]]
      && Merged(Merged([], src, IdColumn, false), src, IdColumn, false) == [[Num(1)], [Num(1)]]
  {
    var src: Table := [[Str("id")], [Num(1)]];
    var first := Merged([], src, IdColumn, false);
    assert KeySet(DataRows([]), IdColumn) == {};
    assert NewRows(src[1..], {}, IdColumn) == [[Num(1)]];
    assert first == [[Num(1)]];
    assert DataRows(first) == [];
    assert KeySet(DataRows(first), IdColumn) == {};
  }

  /** An existing `(1,1)` split is skipped and only `(1,2)` is appended. */
  lemma SplitsScenario()
    ensures var header := [Str("activity_id"), Str("km")];
      Merged([header, [Num(1), Num(1)]], [header, [Num(1), Num(1)], [Num(1), Num(2)]], ActivityIdAndKm, true)
        == [header, [Num(1), Num(1)], [Num(1), Num(2)]]
  {
    var header := [Str("activity_id"), Str("km")];
    var dest: Table := [header, [Num(1), Num(1)]];
    var src: Table := [header, [Num(1), Num(1)], [Num(1), Num(2)]];
    var keys := KeySet(DataRows(dest), ActivityIdAndKm);
    assert IntToString(1) == "1" by {
      assert DigitChar(1) == '1';
    }
    assert IntToString(2) == "2" by {
      assert DigitChar(2) == '2';
    }
    assert DataRows(dest) == [[Num(1), Num(1)]];
    assert Key([Num(1), Num(1)], ActivityIdAndKm) == "1|1";
    assert HasKey(DataRows(dest)[0], ActivityIdAndKm);
    assert "1|1" in keys;
    assert "1|2" !in keys;
    assert Key([Num(1), Num(2)], ActivityIdAndKm) == "1|2";
    assert src[1..] == [[Num(1), Num(1)], [Num(1), Num(2)]];
    assert NewRows(src[1..], keys, ActivityIdAndKm) == [[Num(1), Num(2)]];
  }

  /** A sheet of the spreadsheet, updated in place. */
  class Sheet {
    var rows: Table

    constructor (rows: Table)
      ensures this.rows == rows
    {
      this.rows := rows;
    }
  }

  datatype SyncError = SourceSheetMissing | DestinationSheetMissing

  /** The shared body of both merges, on two distinct sheets. */
  method AppendNewRows(src: Sheet, dest: Sheet, key: KeyColumns, seedHeader: bool)
    requires src != dest
    modifies dest
    ensures dest.rows == Merged(old(dest.rows), src.rows, key, seedHeader)
  {
    if |src.rows| < 2 {
      return;
    }
    var srcValues := src.rows[1..];
    if seedHeader && |dest.rows| == 0 {
      dest.rows := [src.rows[0]];
    }
    var existing := CollectKeys(DataRows(dest.rows), key);
    var toAppend := NewRows(srcValues, existing, key);
    dest.rows := dest.rows + toAppend;
  }

  /**
   * `syncStravaToData_` corrected: both sheets must exist; an empty Data
   * sheet is seeded with the StravaData header, as the splits merge does.
   */
  method SyncStravaToData(src: Sheet?, dest: Sheet?) returns (err: Option<SyncError>)
    requires src != null && dest != null ==> src != dest
    modifies dest
    ensures src == null ==> err == Some(SourceSheetMissing) && (dest != null ==> dest.rows == old(dest.rows))
    ensures src != null && dest == null ==> err == Some(DestinationSheetMissing)
    ensures src != null && dest != null ==>
      err == None && dest.rows == Merged(old(dest.rows), src.rows, IdColumn, true)
  {
    if src == null {
      return Some(SourceSheetMissing);
    }
    if dest == null {
      return Some(DestinationSheetMissing);
    }
    AppendNewRows(src, dest, IdColumn, true);
    err := None;
  }

  /** `syncStravaToData_` as written: an empty Data sheet is not given a header. */
  method SyncStravaToDataAsWritten(src: Sheet?, dest: Sheet?) returns (err: Option<SyncError>)
    requires src != null && dest != null ==> src != dest
    modifies dest
    ensures src == null ==> err == Some(SourceSheetMissing) && (dest != null ==> dest.rows == old(dest.rows))
    ensures src != null && dest == null ==> err == Some(DestinationSheetMissing)
    ensures src != null && dest != null ==>
      err == None && dest.rows == Merged(old(dest.rows), src.rows, IdColumn, false)
  {
    if src == null {
      return Some(SourceSheetMissing);
    }
    if dest == null {
      return Some(DestinationSheetMissing);
    }
    AppendNewRows(src, dest, IdColumn, false);
    err := None;
  }

  /**
   * `syncSplitsToStored_`: nothing happens without split rows; otherwise the
   * stored sheet is created when missing, seeded with the header when empty,
   * and the new `(activity_id, km)` rows are appended. Returns the stored sheet.
   */
  method SyncSplitsToStored(src: Sheet?, stored: Sheet?) returns (dest: Sheet?)
    requires src != null && stored != null ==> src != stored
    modifies stored
    ensures src == null || |src.rows| < 2 ==>
      dest == stored && (stored != null ==> stored.rows == old(stored.rows))
    ensures src != null && |src.rows| >= 2 ==>
      && dest != null
      && (stored != null ==> dest == stored)
      && (stored == null ==> fresh(dest))
      && dest.rows == Merged(if stored == null then [] else old(stored.rows), src.rows, ActivityIdAndKm, true)
  {
    if src == null || |src.rows| < 2 {
      return stored;
    }
    if stored == null {
      dest := new Sheet([]);
    } else {
      dest := stored;
    }
    AppendNewRows(src, dest, ActivityIdAndKm, true);
  }
}

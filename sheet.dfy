/**
 * The spreadsheet upsert of `GSheetUpdater.py`.
 *
 * The worksheet is a grid of rows of cells. The first `Head` rows are the
 * header block; the last of them names the columns, and every row after it
 * is one record whose first column is the card's name cell. A price record
 * whose key names an existing record updates that record's two current
 * prices; any other price record appends a new row.
 */
module SheetSync {
  import opened Wrappers
  import Scryfall
  import Strings

  /** A cell: plain text, or a hyperlink formula that displays its title. */
  datatype Cell = Text(value: string) | Link(uri: string, title: string)

  /** What the sheet shows for a cell. */
  function Display(c: Cell): string {
    match c
    case Text(v) => v
    case Link(_, title) => title
  }

  /** The number of header rows before the first record. */
  const Head: nat := 4

  /** Column numbers, counted from 1. */
  const NameColumn: nat := 1
  const CurrentEurColumn: nat := 4
  const CurrentUsdColumn: nat := 5

  /** The name a row's record holds: its cell in the name column, or nothing in a row too short to have one. */
  function RowName(row: seq<Cell>): string {
    if |row| < NameColumn then "" else Display(row[NameColumn - 1])
  }

  /** The names of the records, in row order, as read once at the start of an update. */
  function Snapshot(rows: seq<seq<Cell>>): (names: seq<string>)
    ensures |names| == if |rows| >= Head then |rows| - Head else 0
    ensures forall i :: 0 <= i < |names| ==> names[i] == RowName(rows[Head + i])
  {
    if |rows| >= Head then seq(|rows| - Head, i requires 0 <= i < |rows| - Head => RowName(rows[Head + i]))
    else []
  }

  /**
   * Writing a cell in column `col` (counted from 1); a row shorter than
   * that is first extended with empty cells.
   */
  function Put(row: seq<Cell>, col: nat, v: Cell): (r: seq<Cell>)
    requires col >= 1
    ensures |r| == if |row| >= col then |row| else col
    ensures r[col - 1] == v
    ensures forall k :: 0 <= k < |r| && k != col - 1 ==> r[k] == if k < |row| then row[k] else Text("")
  {
    var padded := if |row| >= col then row else row + seq(col - |row|, _ => Text(""));
    padded[col - 1 := v]
  }

  /** The name a record is matched under: `name (set) number`. */
  function Key(r: Scryfall.SyncRecord): string {
    r.name + " (" + r.setCode + ") " + r.collectorNumber
  }

  /**
   * The key tells printings apart: two records with the same key have the
   * same name, set code and collector number, as long as no name holds `(`
   * and no set code holds `)`.
   */
  lemma KeyIdentifies(r: Scryfall.SyncRecord, q: Scryfall.SyncRecord)
    requires '(' !in r.name && '(' !in q.name && ')' !in r.setCode && ')' !in q.setCode
    requires Key(r) == Key(q)
    ensures r.name == q.name && r.setCode == q.setCode && r.collectorNumber == q.collectorNumber
  {
    KeyOpens(r);
    KeyOpens(q);
    KeyCloses(r.setCode, r.collectorNumber);
    KeyCloses(q.setCode, q.collectorNumber);
  }

  /** The text of a key after its `(`. */
  function AfterOpen(setCode: string, collectorNumber: string): string {
    setCode + ") " + collectorNumber
  }

  /** The first `(` of a key follows the name and a space; the set part comes after it. */
  lemma KeyOpens(r: Scryfall.SyncRecord)
    requires '(' !in r.name
    ensures var k := Key(r);
            Strings.Find(k, '(') == |r.name| + 1 && k[..|r.name|] == r.name
            && k[|r.name| + 2..] == AfterOpen(r.setCode, r.collectorNumber)
  {
    var head, rest := r.name + " ", AfterOpen(r.setCode, r.collectorNumber);
    Strings.NotInSnoc(r.name, ' ', '(');
    assert " (" == " " + ['('];
    Strings.ConcatAssoc(r.name, " ", ['(']);
    Strings.ConcatAssoc(r.name + " (", r.setCode + ") ", r.collectorNumber);
    Strings.ConcatAssoc(r.name + " (", r.setCode, ") ");
    assert Key(r) == head + ['('] + rest;
    Strings.SplitAround(head, '(', rest);
    Strings.PrefixOfPrefix(Key(r), |r.name|, |head|);
  }

  /** The first `)` after the `(` ends the set code; the number follows it and a space. */
  lemma KeyCloses(setCode: string, collectorNumber: string)
    requires ')' !in setCode
    ensures var t := AfterOpen(setCode, collectorNumber);
            Strings.Find(t, ')') == |setCode| && t[..|setCode|] == setCode
            && t[|setCode| + 2..] == collectorNumber
  {
    var rest := " " + collectorNumber;
    assert ") " == [')'] + " ";
    Strings.ConcatAssoc(setCode, [')'], " ");
    Strings.ConcatAssoc(setCode + [')'], " ", collectorNumber);
    assert AfterOpen(setCode, collectorNumber) == setCode + [')'] + rest;
    Strings.SplitAround(setCode, ')', rest);
    Strings.SuffixOfSuffix(AfterOpen(setCode, collectorNumber), |setCode| + 1, 1);
    assert rest[1..] == collectorNumber;
  }

  /** The row appended for a new record: linked name, start prices, then current prices. */
  function NewRow(r: Scryfall.SyncRecord): (row: seq<Cell>)
    ensures |row| == 5 && RowName(row) == Key(r) && row[0] == Link(r.uri, Key(r))
    ensures row[1] == row[CurrentEurColumn - 1] == Text(r.priceEur)
    ensures row[2] == row[CurrentUsdColumn - 1] == Text(r.priceUsd)
  {
    [Link(r.uri, Key(r)), Text(r.priceEur), Text(r.priceUsd), Text(r.priceEur), Text(r.priceUsd)]
  }

  /** An existing row after its two current prices were written, USD first. */
  function Priced(row: seq<Cell>, r: Scryfall.SyncRecord): seq<Cell> {
    Put(Put(row, CurrentUsdColumn, Text(r.priceUsd)), CurrentEurColumn, Text(r.priceEur))
  }

  /** The index of the first record named `key`, if any. */
  function FirstMatch(names: seq<string>, key: string): (r: Option<nat>)
    ensures r.None? <==> key !in names
    ensures r.Some? ==> r.value < |names| && names[r.value] == key && key !in names[..r.value]
  {
    if names == [] then None
    else if names[0] == key then Some(0)
    else
      match FirstMatch(names[1..], key)
      case None => None
      case Some(i) =>
        assert names[..i + 1] == [names[0]] + names[1..][..i];
        Some(i + 1)
  }

  /** Every record of the snapshot lies on a row of the sheet. */
  predicate Fits(rows: seq<seq<Cell>>, names: seq<string>) {
    names == [] || Head + |names| <= |rows|
  }

  /** One iteration of the update loop over the price records. */
  function Step(rows: seq<seq<Cell>>, names: seq<string>, r: Scryfall.SyncRecord): seq<seq<Cell>>
    requires Fits(rows, names)
  {
    match FirstMatch(names, Key(r))
    case Some(i) => rows[Head + i := Priced(rows[Head + i], r)]
    case None => rows + [NewRow(r)]
  }

  /** The records whose key is not in the snapshot, in order. */
  function Unmatched(names: seq<string>, data: seq<Scryfall.SyncRecord>): seq<Scryfall.SyncRecord> {
    if data == [] then []
    else
      var last := data[|data| - 1];
      Unmatched(names, data[..|data| - 1]) + if Key(last) in names then [] else [last]
  }

  /**
   * The rows after the loop over `data`, matching against the one snapshot
   * `names`: the sheet gains exactly one row per record not in the snapshot.
   */
  function Upsert(rows: seq<seq<Cell>>, names: seq<string>, data: seq<Scryfall.SyncRecord>): (r: seq<seq<Cell>>)
    requires Fits(rows, names)
    ensures |r| == |rows| + |Unmatched(names, data)|
  {
    if data == [] then rows
    else
      var before := Upsert(rows, names, data[..|data| - 1]);
      Step(before, names, data[|data| - 1])
  }

  /** A whole update call: the snapshot is read from the rows as they were at the start. */
  function Sync(rows: seq<seq<Cell>>, data: seq<Scryfall.SyncRecord>): seq<seq<Cell>> {
    Upsert(rows, Snapshot(rows), data)
  }

  /** The rows appended for a sequence of records. */
  function NewRows(data: seq<Scryfall.SyncRecord>): (r: seq<seq<Cell>>)
    ensures |r| == |data| && forall i :: 0 <= i < |data| ==> r[i] == NewRow(data[i])
  {
    seq(|data|, i requires 0 <= i < |data| => NewRow(data[i]))
  }

  lemma SnapshotFits(rows: seq<seq<Cell>>)
    ensures Fits(rows, Snapshot(rows))
  {
  }

  /**
   * The rows after the old ones are the new rows of the unmatched records,
   * in order: appended rows are never matched, because they are not in the
   * snapshot.
   */
  lemma {:induction false} UpsertAppends(rows: seq<seq<Cell>>, names: seq<string>, data: seq<Scryfall.SyncRecord>)
    requires Fits(rows, names)
    ensures Upsert(rows, names, data)[|rows|..] == NewRows(Unmatched(names, data))
  {
    if data != [] {
      var prefix, last := data[..|data| - 1], data[|data| - 1];
      UpsertAppends(rows, names, prefix);
      var before := Upsert(rows, names, prefix);
      StepSuffix(before, names, last, |rows|);
      var u := Unmatched(names, prefix);
      if Key(last) in names {
        assert Unmatched(names, data) == u + [];
      } else {
        assert Unmatched(names, data) == u + [last];
      }
    }
  }

  /** A step leaves every row from `n` on alone, except that an unmatched record appends its row. */
  lemma StepSuffix(rows: seq<seq<Cell>>, names: seq<string>, r: Scryfall.SyncRecord, n: nat)
    requires Fits(rows, names) && (names == [] || Head + |names| <= n) && n <= |rows|
    ensures Step(rows, names, r)[n..] == rows[n..] + if Key(r) in names then [] else [NewRow(r)]
  {
    match FirstMatch(names, Key(r))
    case Some(i) =>
      assert Step(rows, names, r)[n..] == rows[n..];
    case None =>
      assert (rows + [NewRow(r)])[n..] == rows[n..] + [NewRow(r)];
  }

  /** Whether record `r` updates row `j` (counted from 0) of a sheet whose snapshot is `names`. */
  predicate Hits(names: seq<string>, r: Scryfall.SyncRecord, j: nat) {
    Head <= j && FirstMatch(names, Key(r)) == Some(j - Head)
  }

  /** The last record in `data` that updates row `j`, if any. */
  function LastHit(names: seq<string>, data: seq<Scryfall.SyncRecord>, j: nat): Option<Scryfall.SyncRecord> {
    if data == [] then None
    else if Hits(names, data[|data| - 1], j) then Some(data[|data| - 1])
    else LastHit(names, data[..|data| - 1], j)
  }

  /** Writing the current prices twice keeps only the second write. */
  lemma PricedTwice(row: seq<Cell>, a: Scryfall.SyncRecord, b: Scryfall.SyncRecord)
    ensures Priced(Priced(row, a), b) == Priced(row, b)
  {
    var once := Priced(row, a);
    assert |once| >= 5;
    var left, right := Priced(once, b), Priced(row, b);
    assert |left| == |right|;
    forall k | 0 <= k < |left| ensures left[k] == right[k] {
    }
  }

  /**
   * An old row is unchanged unless some record matched it; then it holds
   * the current prices of the last such record, and nothing else of it
   * changes: the name and the start prices stay as they were.
   */
  lemma {:induction false} UpsertOldRow(rows: seq<seq<Cell>>, names: seq<string>, data: seq<Scryfall.SyncRecord>, j: nat)
    requires Fits(rows, names) && j < |rows|
    ensures Upsert(rows, names, data)[j] == match LastHit(names, data, j)
                                             case None => rows[j]
                                             case Some(r) => Priced(rows[j], r)
  {
    if data != [] {
      var prefix, last := data[..|data| - 1], data[|data| - 1];
      UpsertOldRow(rows, names, prefix, j);
      var before := Upsert(rows, names, prefix);
      StepRow(before, names, last, j);
      if Hits(names, last, j) {
        match LastHit(names, prefix, j)
        case None =>
        case Some(r) => PricedTwice(rows[j], r, last);
      }
    }
  }

  /** A step writes row `j` exactly when the record hits it. */
  lemma StepRow(rows: seq<seq<Cell>>, names: seq<string>, r: Scryfall.SyncRecord, j: nat)
    requires Fits(rows, names) && j < |rows|
    ensures Step(rows, names, r)[j] == if Hits(names, r, j) then Priced(rows[j], r) else rows[j]
  {
  }

  /** The name and start prices of every row survive an update call. */
  lemma UpsertKeepsNamesAndStartPrices(rows: seq<seq<Cell>>, names: seq<string>, data: seq<Scryfall.SyncRecord>, j: nat, k: nat)
    requires Fits(rows, names) && j < |rows| && k < |rows[j]| && k < CurrentEurColumn - 1
    ensures k < |Upsert(rows, names, data)[j]| && Upsert(rows, names, data)[j][k] == rows[j][k]
  {
    UpsertOldRow(rows, names, data, j);
  }

  /** Header rows are never written. */
  lemma UpsertKeepsHeader(rows: seq<seq<Cell>>, names: seq<string>, data: seq<Scryfall.SyncRecord>)
    requires Fits(rows, names) && |rows| >= Head
    ensures Upsert(rows, names, data)[..Head] == rows[..Head]
  {
    forall j | 0 <= j < Head ensures Upsert(rows, names, data)[j] == rows[j] {
      UpsertOldRow(rows, names, data, j);
      LastHitHeader(names, data, j);
    }
  }

  lemma {:induction false} LastHitHeader(names: seq<string>, data: seq<Scryfall.SyncRecord>, j: nat)
    requires j < Head
    ensures LastHit(names, data, j) == None
  {
    if data != [] {
      LastHitHeader(names, data[..|data| - 1], j);
    }
  }

  /** Two identical records that are not in the snapshot both append a row. */
  lemma DuplicateNewRecordAppendsTwice(rows: seq<seq<Cell>>, r: Scryfall.SyncRecord)
    requires Key(r) !in Snapshot(rows)
    ensures Sync(rows, [r, r]) == rows + [NewRow(r), NewRow(r)]
  {
    var names := Snapshot(rows);
    assert [r, r][..1] == [r] && [r][..0] == [];
    assert Upsert(rows, names, [r]) == rows + [NewRow(r)];
  }

  lemma PricedKeepsName(row: seq<Cell>, r: Scryfall.SyncRecord)
    ensures RowName(Priced(row, r)) == RowName(row)
  {
  }

  /**
   * Running the update twice with the same single record changes nothing
   * the second time: a matched row is written with the same prices again,
   * and a row appended by the first call is found by the second and gets
   * the prices it already holds.
   */
  lemma SyncTwiceIsStable(rows: seq<seq<Cell>>, r: Scryfall.SyncRecord)
    requires |rows| >= Head
    ensures Sync(Sync(rows, [r]), [r]) == Sync(rows, [r])
  {
    var names := Snapshot(rows);
    if Key(r) in names {
      SyncTwiceMatched(rows, r);
    } else {
      SyncTwiceNew(rows, r);
    }
  }

  /**
   * A sheet shorter than its header block has no records to match, so the
   * row appended by one update is never found: every update appends again.
   */
  lemma ShortSheetAppendsAgain(r: Scryfall.SyncRecord)
    ensures Sync([], [r]) == [NewRow(r)]
    ensures Sync(Sync([], [r]), [r]) == [NewRow(r), NewRow(r)]
  {
    UpsertSingle([], [], r);
    UpsertSingle([NewRow(r)], [], r);
  }

  lemma SyncTwiceMatched(rows: seq<seq<Cell>>, r: Scryfall.SyncRecord)
    requires |rows| >= Head && Key(r) in Snapshot(rows)
    ensures Sync(Sync(rows, [r]), [r]) == Sync(rows, [r])
  {
    var names := Snapshot(rows);
    var i := FirstMatch(names, Key(r)).value;
    SnapshotFits(rows);
    UpsertSingle(rows, names, r);
    var once := rows[Head + i := Priced(rows[Head + i], r)];
    assert Sync(rows, [r]) == once;
    PricedKeepsName(rows[Head + i], r);
    SnapshotUpdate(rows, i, Priced(rows[Head + i], r));
    UpsertSingle(once, names, r);
    PricedTwice(rows[Head + i], r, r);
  }

  lemma SyncTwiceNew(rows: seq<seq<Cell>>, r: Scryfall.SyncRecord)
    requires |rows| >= Head && Key(r) !in Snapshot(rows)
    ensures Sync(Sync(rows, [r]), [r]) == Sync(rows, [r])
  {
    var names := Snapshot(rows);
    SnapshotFits(rows);
    UpsertSingle(rows, names, r);
    var once := rows + [NewRow(r)];
    assert Sync(rows, [r]) == once;
    SnapshotAppend(rows, NewRow(r));
    FirstMatchAppended(names, Key(r));
    UpsertSingle(once, names + [Key(r)], r);
    PricedNewRow(r);
  }

  lemma UpdateTwice<T>(s: seq<T>, j: nat, x: T, y: T)
    requires j < |s|
    ensures s[j := x][j := y] == s[j := y]
  {
  }

  lemma StepMatched(rows: seq<seq<Cell>>, names: seq<string>, r: Scryfall.SyncRecord, i: nat)
    requires Fits(rows, names) && FirstMatch(names, Key(r)) == Some(i)
    ensures Head + i < |rows| && Step(rows, names, r) == rows[Head + i := Priced(rows[Head + i], r)]
  {
  }

  lemma StepUnmatched(rows: seq<seq<Cell>>, names: seq<string>, r: Scryfall.SyncRecord)
    requires Fits(rows, names) && FirstMatch(names, Key(r)).None?
    ensures Step(rows, names, r) == rows + [NewRow(r)]
  {
  }

  lemma UpsertSnoc(rows: seq<seq<Cell>>, names: seq<string>, data: seq<Scryfall.SyncRecord>, i: nat)
    requires Fits(rows, names) && i < |data|
    ensures Upsert(rows, names, data[..i + 1]) == Step(Upsert(rows, names, data[..i]), names, data[i])
  {
    assert data[..i + 1][..i] == data[..i];
  }

  lemma UpsertSingle(rows: seq<seq<Cell>>, names: seq<string>, r: Scryfall.SyncRecord)
    requires Fits(rows, names)
    ensures Upsert(rows, names, [r]) == Step(rows, names, r)
  {
    assert [r][..0] == [];
  }

  lemma SnapshotUpdate(rows: seq<seq<Cell>>, i: nat, row: seq<Cell>)
    requires Head + i < |rows| && RowName(row) == RowName(rows[Head + i])
    ensures Snapshot(rows[Head + i := row]) == Snapshot(rows)
  {
  }

  lemma SnapshotAppend(rows: seq<seq<Cell>>, row: seq<Cell>)
    requires |rows| >= Head
    ensures Snapshot(rows + [row]) == Snapshot(rows) + [RowName(row)]
  {
  }

  lemma FirstMatchAppended(names: seq<string>, key: string)
    requires key !in names
    ensures FirstMatch(names + [key], key) == Some(|names|)
  {
    assert (names + [key])[..|names|] == names;
  }

  lemma PricedNewRow(r: Scryfall.SyncRecord)
    ensures Priced(NewRow(r), r) == NewRow(r)
  {
  }

  /** The worksheet: the grid of rows of cells the updater reads and writes. */
  class Worksheet {
    var rows: seq<seq<Cell>>

    constructor (initial: seq<seq<Cell>>)
      ensures rows == initial
    {
      rows := initial;
    }

    /** Writes one cell; `row` and `col` are counted from 1. */
    method UpdateCell(row: nat, col: nat, value: Cell)
      requires 1 <= row <= |rows| && col >= 1
      modifies this
      ensures rows == old(rows)[row - 1 := Put(old(rows)[row - 1], col, value)]
    {
      rows := rows[row - 1 := Put(rows[row - 1], col, value)];
    }

    /** Adds one row after the last. */
    method AppendRow(cells: seq<Cell>)
      modifies this
      ensures rows == old(rows) + [cells]
    {
      rows := rows + [cells];
    }
  }

  /** The inner scan of the update loop: the first record named `key`, stopping there. */
  method FindRecord(names: seq<string>, key: string) returns (found: Option<nat>)
    ensures found == FirstMatch(names, key)
  {
    found := None;
    var idx := 0;
    while idx < |names|
      invariant 0 <= idx <= |names|
      invariant key !in names[..idx]
      decreases |names| - idx
    {
      if names[idx] == key {
        found := Some(idx);
        break;
      }
      assert names[..idx + 1] == names[..idx] + [names[idx]];
      idx := idx + 1;
    }
    assert found.None? ==> names[..idx] == names;
  }

  /** The price updater, bound to one worksheet. */
  class PriceUpdater {
    const sheet: Worksheet

    constructor (sheet: Worksheet)
      ensures this.sheet == sheet
    {
      this.sheet := sheet;
    }

    /**
     * Reads the record names once, then for each price record updates the
     * current prices of the first record with its key, or appends a new row.
     */
    method UpdatePrices(priceData: seq<Scryfall.SyncRecord>)
      modifies sheet
      ensures sheet.rows == Sync(old(sheet.rows), priceData)
    {
      var existing := Snapshot(sheet.rows);
      ghost var start := sheet.rows;
      SnapshotFits(start);
      for i := 0 to |priceData|
        invariant sheet.rows == Upsert(start, existing, priceData[..i])
        invariant |start| <= |sheet.rows|
      {
        var data := priceData[i];
        UpsertSnoc(start, existing, priceData, i);
        ghost var before := sheet.rows;
        var name := Key(data);
        var hname := Link(data.uri, name);
        var existingRecord := FindRecord(existing, name);
        if existingRecord.Some? {
          var rowIdx := existingRecord.value;
          ghost var usdSet := Put(before[Head + rowIdx], CurrentUsdColumn, Text(data.priceUsd));
          sheet.UpdateCell(rowIdx + Head + 1, CurrentUsdColumn, Text(data.priceUsd));
          sheet.UpdateCell(rowIdx + Head + 1, CurrentEurColumn, Text(data.priceEur));
          UpdateTwice(before, Head + rowIdx, usdSet, Priced(before[Head + rowIdx], data));
          StepMatched(before, existing, data, rowIdx);
        } else {
          sheet.AppendRow([hname, Text(data.priceEur), Text(data.priceUsd), Text(data.priceEur), Text(data.priceUsd)]);
          StepUnmatched(before, existing, data);
        }
      }
      assert priceData[..|priceData|] == priceData;
    }
  }
}

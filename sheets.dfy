/** The spreadsheet ledger: the Products, Logs, Errors and Config tabs held in memory,
    with the reads and writes the core performs on them.  The Products tab is a header
    row and the data rows below it (sheet row `i + 2` is data row `i`); its cells keep
    the values the sheet returns. */
module Sheets {
  import opened Wrappers
  import opened Text
  import opened Lists
  import opened Records
  import opened Schemas
  import Constants

  // ---------------------------------------------------------------------------
  // Cells

  /** What `String(value)` writes for an object. */
  const OBJECT_TEXT := "[object Object]"

  /** `sanitizeCell`: absent and null stay absent; a string is trimmed; anything else is
      written out and trimmed; an empty result becomes absent. */
  function SanitizeCell(v: CellValue): (r: Option<string>)
    ensures r.Some? ==> Clean(r.value)
    ensures v.Absent? || v.Null? ==> r.None?
  {
    match v
    case Absent => None
    case Null => None
    case Str(s) => NonBlank(s)
    case Num(n) => NonBlank(IntToString(n))
    case Bool(b) => NonBlank(BoolToString(b))
    case Other => NonBlank(OBJECT_TEXT)
  }

  /** A sanitised value written back as a string reads back unchanged. */
  lemma SanitizeIdempotent(v: CellValue)
    ensures SanitizeCell(v).Some? ==> SanitizeCell(Str(SanitizeCell(v).value)) == SanitizeCell(v)
  {
    if SanitizeCell(v).Some? {
      CleanReadsBack(SanitizeCell(v).value);
    }
  }

  lemma CleanReadsBack(x: string)
    requires Clean(x)
    ensures SanitizeCell(Str(x)) == Some(x)
  {
    NonBlankOfClean(x);
  }

  /** Except for objects, which the row schema drops, the sheet reader and the row
      schema's preprocess agree on every value. */
  lemma SanitizeAgreesWithSchema(v: CellValue)
    requires !v.Other?
    ensures SanitizeCell(v) == OptionalStringCell(v)
  {
    match v
    case Num(n) => NumberWrittenOut(n);
    case Bool(b) => BoolWrittenOut(b);
    case _ =>
  }

  /** The cell in column `c` of a row, absent past its end. */
  function CellAt(cells: seq<CellValue>, c: nat): CellValue {
    if c < |cells| then cells[c] else Absent
  }

  /** The cell at data row `r`, column `c`; absent past the last row. */
  function CellOf(grid: seq<seq<CellValue>>, r: nat, c: nat): CellValue {
    if r < |grid| then CellAt(grid[r], c) else Absent
  }

  function Blanks(n: nat): (b: seq<CellValue>)
    ensures |b| == n && forall i :: 0 <= i < n ==> b[i] == Absent
  {
    if n == 0 then [] else Blanks(n - 1) + [Absent]
  }

  function BlankRows(n: nat): (b: seq<seq<CellValue>>)
    ensures |b| == n && forall i :: 0 <= i < n ==> b[i] == []
  {
    if n == 0 then [] else BlankRows(n - 1) + [[]]
  }

  /** Writing one cell, anywhere: the grid grows as far as the cell needs. */
  function SetCell(grid: seq<seq<CellValue>>, r: nat, c: nat, v: CellValue): (g: seq<seq<CellValue>>)
    ensures CellOf(g, r, c) == v
    ensures forall r', c' :: r' != r || c' != c ==> CellOf(g, r', c') == CellOf(grid, r', c')
    ensures |g| == if r < |grid| then |grid| else r + 1
  {
    var rows := if r < |grid| then grid else grid + BlankRows(r + 1 - |grid|);
    var row := if c < |rows[r]| then rows[r] else rows[r] + Blanks(c + 1 - |rows[r]|);
    rows[r := row[c := v]]
  }

  // ---------------------------------------------------------------------------
  // Header map

  /** `toHeaderMap`: each non-empty header names its column; a repeated header names
      the last column that carries it. */
  function HeaderMap(headerRow: seq<string>): (m: map<string, nat>)
    ensures forall h :: h in m <==> h != "" && h in headerRow
    ensures forall h :: h in m ==> m[h] < |headerRow| && headerRow[m[h]] == h
    ensures forall h, j :: h in m && m[h] < j < |headerRow| ==> headerRow[j] != h
    decreases |headerRow|
  {
    if headerRow == [] then map[]
    else
      var init := headerRow[..|headerRow| - 1];
      var last := headerRow[|headerRow| - 1];
      assert headerRow == init + [last];
      if last == "" then HeaderMap(init) else HeaderMap(init)[last := |headerRow| - 1]
  }

  /** Distinct headers name distinct columns. */
  predicate Injective(hm: map<string, nat>) {
    forall a, b :: a in hm && b in hm && a != b ==> hm[a] != hm[b]
  }

  lemma HeaderMapInjective(headerRow: seq<string>)
    ensures Injective(HeaderMap(headerRow))
  {
  }

  // ---------------------------------------------------------------------------
  // Column letters

  /** The bijective base-26 numeral of `n` in the letters A to Z (1 is A, 26 is Z, 27
      is AA); empty for 0. */
  function ColumnName(n: nat): (r: string)
    ensures n >= 1 <==> r != []
    ensures forall i :: 0 <= i < |r| ==> 'A' <= r[i] <= 'Z'
    decreases n
  {
    if n == 0 then "" else ColumnName((n - 1) / 26) + [(65 + (n - 1) % 26) as char]
  }

  /** The number a column name stands for. */
  function ColumnNumber(letters: string): nat
    requires forall i :: 0 <= i < |letters| ==> 'A' <= letters[i] <= 'Z'
  {
    if letters == [] then 0
    else ColumnNumber(letters[..|letters| - 1]) * 26 + (letters[|letters| - 1] as int - 64)
  }

  lemma {:induction false} ColumnNumberOfName(n: nat)
    ensures ColumnNumber(ColumnName(n)) == n
    decreases n
  {
    if n > 0 {
      var p := ColumnName((n - 1) / 26);
      assert (p + [(65 + (n - 1) % 26) as char])[..|p|] == p;
      ColumnNumberOfName((n - 1) / 26);
    }
  }

  /** Distinct columns have distinct letters. */
  lemma ColumnNameInjective(a: nat, b: nat)
    requires ColumnName(a) == ColumnName(b)
    ensures a == b
  {
    ColumnNumberOfName(a);
    ColumnNumberOfName(b);
  }

  lemma ColumnNames()
    ensures ColumnName(1) == "A" && ColumnName(26) == "Z" && ColumnName(27) == "AA"
    ensures ColumnName(702) == "ZZ"
  {
    assert ColumnName(1) == "A";
    assert ColumnName(26) == "Z";
  }

  /** `columnIndexToLetter`: the letters of the zero-based column `index`. */
  method ColumnIndexToLetter(index: nat) returns (letters: string)
    ensures letters == ColumnName(index + 1)
    ensures letters != [] && ColumnNumber(letters) == index + 1
  {
    letters := "";
    var temp: nat := index + 1;
    while temp > 0
      invariant ColumnName(temp) + letters == ColumnName(index + 1)
      decreases temp
    {
      var remainder := (temp - 1) % 26;
      var c := (65 + remainder) as char;
      assert ColumnName(temp) == ColumnName((temp - 1) / 26) + [c];
      Lists.Associate(ColumnName((temp - 1) / 26), [c], letters);
      letters := [c] + letters;
      temp := (temp - 1) / 26;
    }
    assert ColumnName(0) + letters == letters;
    ColumnNumberOfName(index + 1);
  }

  // ---------------------------------------------------------------------------
  // Reading the Products tab

  /** What column `k` of a data row reads as, through the header map. */
  function SheetCell(hm: map<string, nat>, cells: seq<CellValue>, k: string): Option<string> {
    if k in hm then SanitizeCell(CellAt(cells, hm[k])) else None
  }

  /** The raw record of a data row: each header's sanitised cell; a header whose cell is
      absent or blank is left out. */
  function RawCells(hm: map<string, nat>, cells: seq<CellValue>): map<string, string> {
    map h | h in hm && SheetCell(hm, cells, h).Some? :: SheetCell(hm, cells, h).value
  }

  /** Column `k` of a row holding a raw record is that column's sanitised cell. */
  lemma RawCellsCell(hm: map<string, nat>, cells: seq<CellValue>, k: string, n: int)
    ensures Cell(RowOf(hm, cells, n), k) == SheetCell(hm, cells, k)
  {
  }

  /** The row schema's own trimming finds nothing more to do in a raw record. */
  lemma SchemaKeepsRawCells(hm: map<string, nat>, cells: seq<CellValue>)
    ensures RowCells(RawCells(hm, cells), KNOWN_COLUMNS) == RawCells(hm, cells)
  {
    RowCellsOfClean(RawCells(hm, cells), KNOWN_COLUMNS);
  }

  /** A header called `rowNumber` or `headerMap` overwrites that field of the raw row
      with a string (or removes it), so the row fails the schema. */
  predicate Reserved(hm: map<string, nat>) {
    "rowNumber" in hm || "headerMap" in hm
  }

  /** One data row through the row schema, or absent when the schema rejects it. */
  function ReadRow(hm: map<string, nat>, cells: seq<CellValue>, rowNumber: nat): (r: Option<SheetRow>)
    ensures r.Some? <==> !Reserved(hm) && rowNumber >= 2
    ensures r.Some? ==> r.value == RowOf(hm, cells, rowNumber)
  {
    SchemaKeepsRawCells(hm, cells);
    if Reserved(hm) then None
    else
      match ParseSheetRow(rowNumber, hm, RawCells(hm, cells))
      case Ok(row) => Some(row)
      case Err(_) => None
  }

  /** The rows of the snapshot: every data row the schema accepts, in order. */
  function DataRows(hm: map<string, nat>, grid: seq<seq<CellValue>>): (rows: seq<SheetRow>)
    ensures Reserved(hm) ==> rows == []
    ensures !Reserved(hm) ==> |rows| == |grid|
    ensures !Reserved(hm) ==> forall i :: 0 <= i < |rows| ==> rows[i].rowNumber == i + 2
  {
    if Reserved(hm) then [] else seq(|grid|, i requires 0 <= i < |grid| => RowOf(hm, grid[i], i + 2))
  }

  /** Data row `cells` as sheet row `rowNumber`, once the schema has accepted it. */
  function RowOf(hm: map<string, nat>, cells: seq<CellValue>, rowNumber: int): SheetRow {
    SheetRow(rowNumber, hm, RawCells(hm, cells))
  }

  /** Row `i` of the snapshot is data row `i` read as sheet row `i + 2`. */
  lemma RowsAt(hm: map<string, nat>, grid: seq<seq<CellValue>>, i: nat)
    requires !Reserved(hm) && i < |grid|
    ensures DataRows(hm, grid)[i] == RowOf(hm, grid[i], i + 2)
  {
  }

  /** The rows read one by one are the snapshot's rows. */
  /** The row loop of `fetchProductsSheet`: each data row the schema accepts, numbered
      from 2. */
  method ReadRows(hm: map<string, nat>, grid: seq<seq<CellValue>>) returns (rows: seq<SheetRow>)
    ensures rows == DataRows(hm, grid)
  {
    rows := [];
    var idx := 0;
    while idx < |grid|
      invariant 0 <= idx <= |grid|
      invariant Reserved(hm) ==> rows == []
      invariant !Reserved(hm) ==> |rows| == idx
      invariant !Reserved(hm) ==> forall j :: 0 <= j < idx ==> rows[j] == RowOf(hm, grid[j], j + 2)
    {
      var parsed := ReadRow(hm, grid[idx], idx + 2);
      if parsed.Some? {
        RowsSnoc(hm, grid, rows, parsed.value);
        rows := rows + [parsed.value];
      }
      idx := idx + 1;
    }
    if !Reserved(hm) {
      RowsAreDataRows(hm, grid, rows);
    }
  }

  lemma RowsSnoc(hm: map<string, nat>, grid: seq<seq<CellValue>>, rows: seq<SheetRow>, row: SheetRow)
    requires |rows| < |grid| && row == RowOf(hm, grid[|rows|], |rows| + 2)
    requires forall j :: 0 <= j < |rows| ==> rows[j] == RowOf(hm, grid[j], j + 2)
    ensures forall j :: 0 <= j < |rows| + 1 ==> (rows + [row])[j] == RowOf(hm, grid[j], j + 2)
  {
  }

  lemma RowsAreDataRows(hm: map<string, nat>, grid: seq<seq<CellValue>>, rows: seq<SheetRow>)
    requires !Reserved(hm) && |rows| == |grid|
    requires forall j :: 0 <= j < |grid| ==> rows[j] == RowOf(hm, grid[j], j + 2)
    ensures rows == DataRows(hm, grid)
  {
    forall j | 0 <= j < |grid|
      ensures rows[j] == DataRows(hm, grid)[j]
    {
      RowsAt(hm, grid, j);
    }
  }

  lemma DataRowsSnoc(hm: map<string, nat>, grid: seq<seq<CellValue>>, cells: seq<CellValue>)
    requires !Reserved(hm)
    ensures DataRows(hm, grid + [cells]) == DataRows(hm, grid) + [RowOf(hm, cells, |grid| + 2)]
  {
    assert (grid + [cells])[..|grid|] == grid;
  }

  /** Column `k` of the snapshot's row `i` is the sanitised cell of data row `i`. */
  lemma DataRowCell(hm: map<string, nat>, grid: seq<seq<CellValue>>, i: nat, k: string)
    requires !Reserved(hm) && i < |grid|
    ensures DataRows(hm, grid)[i].headerMap == hm
    ensures Cell(DataRows(hm, grid)[i], k) == SheetCell(hm, grid[i], k)
  {
    RowsAt(hm, grid, i);
    RawCellsCell(hm, grid[i], k, i + 2);
  }

  /** `fetchProductsSheet`'s result. */
  datatype Snapshot = Snapshot(headerRow: seq<string>, headerMap: map<string, nat>, rows: seq<SheetRow>)

  function ProductsSnapshot(headerRow: seq<string>, grid: seq<seq<CellValue>>): Snapshot {
    Snapshot(headerRow, HeaderMap(headerRow), DataRows(HeaderMap(headerRow), grid))
  }

  // ---------------------------------------------------------------------------
  // Finding rows

  /** The row's product key, lower-cased, is `lowered` (a row without one has key ""). */
  predicate KeyIs(row: SheetRow, lowered: string) {
    ToLower(Cell(row, Constants.PRODUCT_KEY).GetOr("")) == lowered
  }

  /** The first row whose key is `lowered` (`Array.prototype.find`), or -1. */
  function KeyRowIndex(rows: seq<SheetRow>, lowered: string): (i: int)
    ensures -1 <= i < |rows|
    ensures i >= 0 ==> KeyIs(rows[i], lowered)
    ensures forall j :: 0 <= j < |rows| && (i < 0 || j < i) ==> !KeyIs(rows[j], lowered)
  {
    if rows == [] then -1
    else if KeyIs(rows[0], lowered) then 0
    else
      var i := KeyRowIndex(rows[1..], lowered);
      if i < 0 then -1 else i + 1
  }

  function FindByKey(rows: seq<SheetRow>, lowered: string): (r: Option<SheetRow>)
    ensures r.Some? ==> r.value in rows && KeyIs(r.value, lowered)
    ensures r.None? <==> forall j :: 0 <= j < |rows| ==> !KeyIs(rows[j], lowered)
  {
    var i := KeyRowIndex(rows, lowered);
    if i < 0 then None else Some(rows[i])
  }

  /** A row found by key is the first row with that key. */
  lemma FindByKeyFirst(rows: seq<SheetRow>, lowered: string, j: nat)
    requires j < |rows| && KeyIs(rows[j], lowered)
    ensures FindByKey(rows, lowered) == Some(rows[KeyRowIndex(rows, lowered)])
    ensures 0 <= KeyRowIndex(rows, lowered) <= j
  {
  }

  /** `getRowByProductKey`: the key is trimmed and lower-cased; an empty key finds
      nothing; otherwise the first row whose lower-cased product key equals it. */
  function RowByProductKey(rows: seq<SheetRow>, productKey: string): (r: Option<SheetRow>)
    ensures ToLower(Trim(productKey)) == [] ==> r.None?
    ensures r.Some? ==> r.value in rows && KeyIs(r.value, ToLower(Trim(productKey)))
    ensures r.None? && ToLower(Trim(productKey)) != [] ==>
      forall j :: 0 <= j < |rows| ==> !KeyIs(rows[j], ToLower(Trim(productKey)))
  {
    var normalizedKey := ToLower(Trim(productKey));
    if normalizedKey == [] then None else FindByKey(rows, normalizedKey)
  }

  /** A row whose product key is written in any case, with any surrounding spaces in the
      query, is found: a row with that key exists, so the result is present. */
  lemma RowByProductKeyFinds(rows: seq<SheetRow>, productKey: string, j: nat)
    requires j < |rows| && ToLower(Trim(productKey)) != []
    requires Cell(rows[j], Constants.PRODUCT_KEY).Some?
    requires ToLower(Cell(rows[j], Constants.PRODUCT_KEY).value) == ToLower(Trim(productKey))
    ensures RowByProductKey(rows, productKey).Some?
  {
    assert KeyIs(rows[j], ToLower(Trim(productKey)));
  }

  // ---------------------------------------------------------------------------
  // Rows awaiting creation

  /** A product key, no Shopify id, and a status that upper-cases to an approved value. */
  predicate NeedsCreate(row: SheetRow) {
    var productKey := Cell(row, Constants.PRODUCT_KEY);
    var shopifyId := Cell(row, Constants.SHOPIFY_PRODUCT_ID);
    var status := Cell(row, Constants.STATUS);
    productKey.Some? && productKey.value != "" &&
    !(shopifyId.Some? && shopifyId.value != "") &&
    status.Some? && ToUpper(status.value) in Constants.APPROVED_VALUES
  }

  function KeepNeedsCreate(row: SheetRow): Option<SheetRow> {
    if NeedsCreate(row) then Some(row) else None
  }

  /** `getApprovedRowsNeedingCreate`'s filter. */
  function ApprovedRowsNeedingCreate(rows: seq<SheetRow>): (r: seq<SheetRow>)
    ensures |r| <= |rows|
  {
    FilterMap(rows, KeepNeedsCreate)
  }

  /** A row is selected exactly when it is one of the rows and needs creating. */
  lemma ApprovedRowsMembers(rows: seq<SheetRow>, row: SheetRow)
    ensures row in ApprovedRowsNeedingCreate(rows) <==> row in rows && NeedsCreate(row)
  {
    FilterMapMembership(rows, KeepNeedsCreate, row);
    if row in rows && NeedsCreate(row) {
      var i :| 0 <= i < |rows| && rows[i] == row;
      assert KeepNeedsCreate(rows[i]) == Some(row);
    }
  }

  /** The selection keeps the sheet order. */
  lemma ApprovedRowsInOrder(a: seq<SheetRow>, b: seq<SheetRow>)
    ensures ApprovedRowsNeedingCreate(a + b) == ApprovedRowsNeedingCreate(a) + ApprovedRowsNeedingCreate(b)
  {
    FilterMapAppend(a, b, KeepNeedsCreate);
  }

  // ---------------------------------------------------------------------------
  // Writing cells of a row

  /** One entry of a `batchUpdate`: the value for column `column` of sheet row
      `rowNumber`. */
  datatype CellWrite = CellWrite(column: nat, rowNumber: nat, value: string)

  /** The A1 range of a write, such as `Products!C7`. */
  function Range(w: CellWrite): string {
    "Products!" + (ColumnName(w.column + 1) + NatToString(w.rowNumber))
  }

  /** The writes of `updateRowValues`: one per update whose column the row's header map
      knows, in update order, with an undefined value written as "". */
  function RowWrites(row: SheetRow, updates: seq<(string, Option<string>)>): (ws: seq<CellWrite>)
    requires row.rowNumber >= 2
    ensures ws == [] <==> forall i :: 0 <= i < |updates| ==> updates[i].0 !in row.headerMap
    ensures forall j :: 0 <= j < |ws| ==> ws[j].rowNumber == row.rowNumber
  {
    if updates == [] then []
    else
      var rest := RowWrites(row, updates[1..]);
      assert forall i :: 1 <= i < |updates| ==> updates[i] == updates[1..][i - 1];
      var column := updates[0].0;
      if column in row.headerMap then [CellWrite(row.headerMap[column], row.rowNumber, updates[0].1.GetOr(""))] + rest
      else rest
  }

  /** The `batchUpdate` itself: every write lands in its cell. */
  function ApplyWrites(grid: seq<seq<CellValue>>, ws: seq<CellWrite>): (g: seq<seq<CellValue>>)
    requires forall j :: 0 <= j < |ws| ==> ws[j].rowNumber >= 2
    decreases |ws|
  {
    if ws == [] then grid
    else ApplyWrites(SetCell(grid, ws[0].rowNumber - 2, ws[0].column, Str(ws[0].value)), ws[1..])
  }

  lemma GetCons<V>(entries: seq<(string, V)>, k: string)
    requires entries != []
    ensures Get(entries, k) == if entries[0].0 == k then Some(entries[0].1) else Get(entries[1..], k)
  {
  }

  /** The cell of an updated column holds the update's value. */
  lemma {:induction false} UpdatedCell(grid: seq<seq<CellValue>>, row: SheetRow, updates: seq<(string, Option<string>)>, k: string)
    requires row.rowNumber >= 2 && UniqueKeys(updates) && Injective(row.headerMap)
    requires k in row.headerMap && Get(updates, k).Some?
    ensures CellOf(ApplyWrites(grid, RowWrites(row, updates)), row.rowNumber - 2, row.headerMap[k]) ==
      Str(Get(updates, k).value.GetOr(""))
    decreases |updates|
  {
    var rest := updates[1..];
    UniqueTail(updates);
    GetCons(updates, k);
    var g := FirstWritten(grid, row, updates[0]);
    WritesCons(grid, row, updates);
    if updates[0].0 == k {
      OthersElsewhere(row, updates, k);
      UntouchedCell(g, row, rest, row.rowNumber - 2, row.headerMap[k]);
    } else {
      UpdatedCell(g, row, rest, k);
    }
  }

  /** The grid after the write of one update, when its column is known. */
  function FirstWritten(grid: seq<seq<CellValue>>, row: SheetRow, u: (string, Option<string>)): seq<seq<CellValue>>
    requires row.rowNumber >= 2
  {
    if u.0 in row.headerMap then SetCell(grid, row.rowNumber - 2, row.headerMap[u.0], Str(u.1.GetOr(""))) else grid
  }

  lemma WritesCons(grid: seq<seq<CellValue>>, row: SheetRow, updates: seq<(string, Option<string>)>)
    requires row.rowNumber >= 2 && updates != []
    ensures ApplyWrites(grid, RowWrites(row, updates)) ==
      ApplyWrites(FirstWritten(grid, row, updates[0]), RowWrites(row, updates[1..]))
  {
  }

  lemma UniqueTail<V>(entries: seq<(string, V)>)
    requires entries != [] && UniqueKeys(entries)
    ensures UniqueKeys(entries[1..])
  {
    assert forall i :: 0 <= i < |entries| - 1 ==> entries[1..][i] == entries[i + 1];
  }

  /** With unique keys and an injective header map, the columns the later updates name
      differ from the column of the first. */
  lemma OthersElsewhere(row: SheetRow, updates: seq<(string, Option<string>)>, k: string)
    requires updates != [] && updates[0].0 == k && UniqueKeys(updates)
    requires Injective(row.headerMap) && k in row.headerMap
    ensures forall k' :: k' in row.headerMap && Get(updates[1..], k').Some? ==> row.headerMap[k'] != row.headerMap[k]
  {
    forall k' | k' in row.headerMap && Get(updates[1..], k').Some?
      ensures row.headerMap[k'] != row.headerMap[k]
    {
    }
  }

  /** A cell outside the updated row, or in a column no update names, keeps its value. */
  lemma {:induction false} UntouchedCell(grid: seq<seq<CellValue>>, row: SheetRow, updates: seq<(string, Option<string>)>, r: nat, c: nat)
    requires row.rowNumber >= 2
    requires r != row.rowNumber - 2 || forall k :: k in row.headerMap && Get(updates, k).Some? ==> row.headerMap[k] != c
    ensures CellOf(ApplyWrites(grid, RowWrites(row, updates)), r, c) == CellOf(grid, r, c)
    decreases |updates|
  {
    if updates != [] {
      var rest := updates[1..];
      var column := updates[0].0;
      assert updates[0].0 == column && Get(updates, column).Some?;
      forall k | Get(rest, k).Some?
        ensures Get(updates, k).Some?
      {
        GetCons(updates, k);
      }
      var g := if column in row.headerMap then SetCell(grid, row.rowNumber - 2, row.headerMap[column], Str(updates[0].1.GetOr(""))) else grid;
      assert ApplyWrites(grid, RowWrites(row, updates)) == ApplyWrites(g, RowWrites(row, rest));
      UntouchedCell(g, row, rest, r, c);
    }
  }

  /** Writing inside the existing rows adds no row. */
  lemma {:induction false} ApplyWritesLength(grid: seq<seq<CellValue>>, ws: seq<CellWrite>)
    requires forall j :: 0 <= j < |ws| ==> 2 <= ws[j].rowNumber < |grid| + 2
    ensures |ApplyWrites(grid, ws)| == |grid|
    decreases |ws|
  {
    if ws != [] {
      var g := SetCell(grid, ws[0].rowNumber - 2, ws[0].column, Str(ws[0].value));
      ApplyWritesLength(g, ws[1..]);
    }
  }

  predicate IsUpper(c: char) {
    'A' <= c <= 'Z'
  }

  /** The letters of `l + d` stop where the digits start. */
  lemma LettersEndAt(l: string, d: string)
    requires forall i :: 0 <= i < |l| ==> 'A' <= l[i] <= 'Z'
    requires forall i :: 0 <= i < |d| ==> IsDigit(d[i])
    ensures LeadingCount(l + d, IsUpper) == |l|
  {
    if d != [] {
      assert (l + d)[|l|] == d[0];
    }
    assert forall i :: 0 <= i < |l| ==> (l + d)[i] == l[i];
    LeadingCountIs(l + d, IsUpper, |l|);
  }

  /** A column name followed by a row number splits in one way only. */
  lemma LettersThenDigits(l1: string, d1: string, l2: string, d2: string)
    requires forall i :: 0 <= i < |l1| ==> 'A' <= l1[i] <= 'Z'
    requires forall i :: 0 <= i < |l2| ==> 'A' <= l2[i] <= 'Z'
    requires forall i :: 0 <= i < |d1| ==> IsDigit(d1[i])
    requires forall i :: 0 <= i < |d2| ==> IsDigit(d2[i])
    requires l1 + d1 == l2 + d2
    ensures l1 == l2 && d1 == d2
  {
    LettersEndAt(l1, d1);
    LettersEndAt(l2, d2);
    assert l1 == (l1 + d1)[..|l1|];
    assert l2 == (l2 + d2)[..|l2|];
    assert d1 == (l1 + d1)[|l1|..];
    assert d2 == (l2 + d2)[|l2|..];
  }

  lemma StripPrefix(p: string, x: string, y: string)
    requires p + x == p + y
    ensures x == y
  {
    assert x == (p + x)[|p|..];
    assert y == (p + y)[|p|..];
  }

  /** Writes to different cells address different ranges. */
  lemma RangesDistinct(w1: CellWrite, w2: CellWrite)
    requires w1.column != w2.column || w1.rowNumber != w2.rowNumber
    ensures Range(w1) != Range(w2)
  {
    if Range(w1) == Range(w2) {
      var l1, d1 := ColumnName(w1.column + 1), NatToString(w1.rowNumber);
      var l2, d2 := ColumnName(w2.column + 1), NatToString(w2.rowNumber);
      StripPrefix("Products!", l1 + d1, l2 + d2);
      LettersThenDigits(l1, d1, l2, d2);
      ColumnNameInjective(w1.column + 1, w2.column + 1);
      DigitsValueOfNatToString(w1.rowNumber);
      DigitsValueOfNatToString(w2.rowNumber);
    }
  }

  // ---------------------------------------------------------------------------
  // Marking a row created

  /** The later entries of `extra` written over `updates`, as the `for … of
      Object.entries(extraUpdates)` loop assigns them. */
  function Overlay(updates: seq<(string, Option<string>)>, extra: seq<(string, Option<string>)>): (u: seq<(string, Option<string>)>)
    ensures UniqueKeys(updates) ==> UniqueKeys(u)
    decreases |extra|
  {
    if extra == [] then updates else Overlay(Put(updates, extra[0].0, extra[0].1), extra[1..])
  }

  lemma {:induction false} OverlayGet(updates: seq<(string, Option<string>)>, extra: seq<(string, Option<string>)>, k: string)
    requires UniqueKeys(extra)
    ensures Get(Overlay(updates, extra), k) == if Get(extra, k).Some? then Get(extra, k) else Get(updates, k)
    decreases |extra|
  {
    if extra != [] {
      var rest := extra[1..];
      assert UniqueKeys(rest);
      GetCons(extra, k);
      OverlayGet(Put(updates, extra[0].0, extra[0].1), rest, k);
    }
  }

  /** `updateRowWithProductId`'s updates: the id, the CREATED status and the update
      time, each unless `extra` names that column, and then every entry of `extra`. */
  function ProductIdUpdates(productId: string, extra: seq<(string, Option<string>)>, now: string): (u: seq<(string, Option<string>)>)
    requires UniqueKeys(extra)
    ensures UniqueKeys(u)
    ensures forall k :: Get(extra, k).Some? ==> Get(u, k) == Get(extra, k)
    ensures Get(extra, Constants.SHOPIFY_PRODUCT_ID).None? ==> Get(u, Constants.SHOPIFY_PRODUCT_ID) == Some(Some(productId))
    ensures Get(extra, Constants.STATUS).None? ==> Get(u, Constants.STATUS) == Some(Some(Constants.STATUS_CREATED))
    ensures Get(extra, Constants.UPDATED_AT).None? ==> Get(u, Constants.UPDATED_AT) == Some(Some(now))
  {
    var base := Put(Put(Put([], Constants.SHOPIFY_PRODUCT_ID, Some(productId)), Constants.STATUS, Some(Constants.STATUS_CREATED)), Constants.UPDATED_AT, Some(now));
    forall k | true
      ensures Get(Overlay(base, extra), k) == if Get(extra, k).Some? then Get(extra, k) else Get(base, k)
    {
      OverlayGet(base, extra, k);
    }
    Overlay(base, extra)
  }

  /** After the writes of `updateRowValues` on a snapshot row, the next snapshot reads
      each updated column of that row as the update's value, trimmed. */
  lemma WrittenColumnReadsBack(hm: map<string, nat>, grid: seq<seq<CellValue>>, i: nat,
                               updates: seq<(string, Option<string>)>, k: string)
    requires !Reserved(hm) && Injective(hm) && i < |grid| && UniqueKeys(updates)
    requires k in hm && Get(updates, k).Some?
    ensures var after := ApplyWrites(grid, RowWrites(DataRows(hm, grid)[i], updates));
      |DataRows(hm, after)| == |grid| &&
      Cell(DataRows(hm, after)[i], k) == NonBlank(Get(updates, k).value.GetOr(""))
  {
    var row := DataRows(hm, grid)[i];
    RowsAt(hm, grid, i);
    assert row.headerMap == hm && row.rowNumber == i + 2;
    var ws := RowWrites(row, updates);
    var after := ApplyWrites(grid, ws);
    UpdatedCell(grid, row, updates, k);
    assert CellOf(after, i, hm[k]) == Str(Get(updates, k).value.GetOr(""));
    ApplyWritesLength(grid, ws);
    DataRowCell(hm, after, i, k);
  }

  /** A row that carries a Shopify id is not offered for creation. */
  lemma IdBlocksCreate(row: SheetRow)
    requires Cell(row, Constants.SHOPIFY_PRODUCT_ID).Some? && Cell(row, Constants.SHOPIFY_PRODUCT_ID).value != ""
    ensures !NeedsCreate(row)
  {
  }

  /** Once a snapshot row has been marked with a Shopify id, the next snapshot no longer
      offers it for creation. */
  lemma MarkedRowLeavesQueue(headerRow: seq<string>, grid: seq<seq<CellValue>>, i: nat,
                             productId: string, extra: seq<(string, Option<string>)>, now: string)
    requires !Reserved(HeaderMap(headerRow)) && i < |grid|
    requires Constants.SHOPIFY_PRODUCT_ID in HeaderMap(headerRow)
    requires Trim(productId) != [] && UniqueKeys(extra) && Get(extra, Constants.SHOPIFY_PRODUCT_ID).None?
    ensures var hm := HeaderMap(headerRow);
      var after := ApplyWrites(grid, RowWrites(DataRows(hm, grid)[i], ProductIdUpdates(productId, extra, now)));
      |DataRows(hm, after)| == |grid| && !NeedsCreate(DataRows(hm, after)[i])
  {
    var hm := HeaderMap(headerRow);
    var u := ProductIdUpdates(productId, extra, now);
    HeaderMapInjective(headerRow);
    WrittenColumnReadsBack(hm, grid, i, u, Constants.SHOPIFY_PRODUCT_ID);
    var after := ApplyWrites(grid, RowWrites(DataRows(hm, grid)[i], u));
    assert Get(u, Constants.SHOPIFY_PRODUCT_ID).value.GetOr("") == productId;
    IdBlocksCreate(DataRows(hm, after)[i]);
  }

  // ---------------------------------------------------------------------------
  // Draft rows

  const MISSING_HEADERS := "Products sheet is missing headers; cannot create draft row"

  /** `buildRowArray`: for each header, its value, or "" when it has none. */
  function BuildRowArray(headerRow: seq<string>, values: seq<(string, string)>): (cells: seq<string>)
    ensures |cells| == |headerRow|
    ensures forall i :: 0 <= i < |headerRow| ==> cells[i] == Get(values, headerRow[i]).GetOr("")
  {
    if headerRow == [] then []
    else BuildRowArray(headerRow[..|headerRow| - 1], values) + [Get(values, headerRow[|headerRow| - 1]).GetOr("")]
  }

  /** The strings of an appended row, as cells. */
  function AsCells(values: seq<string>): (cells: seq<CellValue>)
    ensures |cells| == |values| && forall i :: 0 <= i < |values| ==> cells[i] == Str(values[i])
  {
    if values == [] then [] else AsCells(values[..|values| - 1]) + [Str(values[|values| - 1])]
  }

  /** An appended row reads back, column by column, as its trimmed values. */
  lemma BuiltRowReadsBack(headerRow: seq<string>, values: seq<(string, string)>, k: string)
    ensures SheetCell(HeaderMap(headerRow), AsCells(BuildRowArray(headerRow, values)), k) ==
      if k in HeaderMap(headerRow) then NonBlank(Get(values, k).GetOr("")) else None
  {
  }

  /** The values of a new draft row. */
  function DraftValues(productKey: string, rowId: Option<string>, now: string): (v: seq<(string, string)>)
    ensures Get(v, Constants.PRODUCT_KEY) == Some(productKey)
    ensures Get(v, Constants.STATUS) == Some(Constants.STATUS_PENDING)
    ensures Get(v, Constants.ROW_ID) == Some(rowId.GetOr(productKey))
    ensures Get(v, Constants.CREATED_AT) == Some(now) && Get(v, Constants.UPDATED_AT) == Some(now)
  {
    Put(Put(Put(Put(Put([], Constants.PRODUCT_KEY, productKey), Constants.STATUS, Constants.STATUS_PENDING),
      Constants.ROW_ID, rowId.GetOr(productKey)), Constants.CREATED_AT, now), Constants.UPDATED_AT, now)
  }

  /** The Products tab after `ensureDraftRow`: a row is appended only when no row has
      the key (compared lower-cased) and the header row is not empty. */
  function DraftGrid(headerRow: seq<string>, grid: seq<seq<CellValue>>, productKey: string, rowId: Option<string>, now: string): seq<seq<CellValue>> {
    var rows := DataRows(HeaderMap(headerRow), grid);
    if FindByKey(rows, ToLower(productKey)).Some? || headerRow == [] then grid
    else grid + [AsCells(BuildRowArray(headerRow, DraftValues(productKey, rowId, now)))]
  }

  /** What `ensureDraftRow` returns or throws. */
  function DraftOutcome(headerRow: seq<string>, grid: seq<seq<CellValue>>, productKey: string, rowId: Option<string>, now: string): Result<SheetRow, string> {
    var existing := FindByKey(DataRows(HeaderMap(headerRow), grid), ToLower(productKey));
    if existing.Some? then Ok(existing.value)
    else if headerRow == [] then Err(MISSING_HEADERS)
    else
      var created := FindByKey(DataRows(HeaderMap(headerRow), DraftGrid(headerRow, grid, productKey, rowId, now)), ToLower(productKey));
      if created.Some? then Ok(created.value) else Err("Failed to locate draft row for productKey " + productKey)
  }

  /** The three ways `ensureDraftRow` can go, one at a time. */
  lemma DraftSteps(headerRow: seq<string>, grid: seq<seq<CellValue>>, productKey: string, rowId: Option<string>, now: string)
    ensures var existing := FindByKey(DataRows(HeaderMap(headerRow), grid), ToLower(productKey));
      existing.Some? ==>
        DraftGrid(headerRow, grid, productKey, rowId, now) == grid &&
        DraftOutcome(headerRow, grid, productKey, rowId, now) == Ok(existing.value)
    ensures var existing := FindByKey(DataRows(HeaderMap(headerRow), grid), ToLower(productKey));
      existing.None? && headerRow == [] ==>
        DraftGrid(headerRow, grid, productKey, rowId, now) == grid &&
        DraftOutcome(headerRow, grid, productKey, rowId, now) == Err(MISSING_HEADERS)
    ensures var existing := FindByKey(DataRows(HeaderMap(headerRow), grid), ToLower(productKey));
      var grid' := grid + [AsCells(BuildRowArray(headerRow, DraftValues(productKey, rowId, now)))];
      var created := FindByKey(DataRows(HeaderMap(headerRow), grid'), ToLower(productKey));
      existing.None? && headerRow != [] ==>
        DraftGrid(headerRow, grid, productKey, rowId, now) == grid' &&
        DraftOutcome(headerRow, grid, productKey, rowId, now) ==
          if created.Some? then Ok(created.value) else Err("Failed to locate draft row for productKey " + productKey)
  {
  }

  /** The row a draft appends, as the next snapshot reads it. */
  lemma AppendedRowReads(headerRow: seq<string>, grid: seq<seq<CellValue>>, values: seq<(string, string)>, k: string)
    requires !Reserved(HeaderMap(headerRow))
    ensures var hm := HeaderMap(headerRow);
      var rows := DataRows(hm, grid + [AsCells(BuildRowArray(headerRow, values))]);
      |rows| == |grid| + 1 && rows[|grid|].rowNumber == |grid| + 2 &&
      Cell(rows[|grid|], k) == if k in hm then NonBlank(Get(values, k).GetOr("")) else None
  {
    var hm := HeaderMap(headerRow);
    var cells := AsCells(BuildRowArray(headerRow, values));
    DataRowCell(hm, grid + [cells], |grid|, k);
    BuiltRowReadsBack(headerRow, values, k);
  }

  /** Appending a data row leaves the rows before it as they were. */
  lemma AppendKeepsRow(hm: map<string, nat>, grid: seq<seq<CellValue>>, cells: seq<CellValue>, j: nat)
    requires !Reserved(hm) && j < |grid|
    ensures DataRows(hm, grid + [cells])[j] == DataRows(hm, grid)[j]
  {
    RowsAt(hm, grid + [cells], j);
    RowsAt(hm, grid, j);
    assert (grid + [cells])[j] == grid[j];
  }

  /** The pending status reads back unchanged. */
  lemma PendingReadsBack()
    ensures NonBlank(Constants.STATUS_PENDING) == Some(Constants.STATUS_PENDING)
  {
    NonBlankOfClean(Constants.STATUS_PENDING);
  }

  /** When only the last row has the key, it is the row found. */
  lemma FindLast(rows: seq<SheetRow>, lowered: string)
    requires rows != [] && KeyIs(rows[|rows| - 1], lowered)
    requires forall j :: 0 <= j < |rows| - 1 ==> !KeyIs(rows[j], lowered)
    ensures FindByKey(rows, lowered) == Some(rows[|rows| - 1])
  {
    FindByKeyFirst(rows, lowered, |rows| - 1);
  }

  /** Without a row holding a clean key, `ensureDraftRow` returns the row it appends. */
  lemma DraftOutcomeIsAppended(headerRow: seq<string>, grid: seq<seq<CellValue>>, productKey: string, rowId: Option<string>, now: string)
    requires Clean(productKey) && !Reserved(HeaderMap(headerRow))
    requires Constants.PRODUCT_KEY in HeaderMap(headerRow)
    requires FindByKey(DataRows(HeaderMap(headerRow), grid), ToLower(productKey)).None?
    ensures var cells := AsCells(BuildRowArray(headerRow, DraftValues(productKey, rowId, now)));
      DraftGrid(headerRow, grid, productKey, rowId, now) == grid + [cells] &&
      DraftOutcome(headerRow, grid, productKey, rowId, now) == Ok(DataRows(HeaderMap(headerRow), grid + [cells])[|grid|])
  {
    var hm := HeaderMap(headerRow);
    var lowered := ToLower(productKey);
    var values := DraftValues(productKey, rowId, now);
    var cells := AsCells(BuildRowArray(headerRow, values));
    var rows' := DataRows(hm, grid + [cells]);
    AppendedRowReads(headerRow, grid, values, Constants.PRODUCT_KEY);
    NonBlankOfClean(productKey);
    forall j | 0 <= j < |grid|
      ensures !KeyIs(rows'[j], lowered)
    {
      AppendKeepsRow(hm, grid, cells, j);
    }
    FindLast(rows', lowered);
  }

  /** With a clean key and a ProductKey column, a missing row is appended and returned,
      holding the key, the pending status, the row id and the creation time. */
  lemma DraftRowCreated(headerRow: seq<string>, grid: seq<seq<CellValue>>, productKey: string, rowId: Option<string>, now: string)
    requires Clean(productKey) && !Reserved(HeaderMap(headerRow))
    requires Constants.PRODUCT_KEY in HeaderMap(headerRow)
    requires FindByKey(DataRows(HeaderMap(headerRow), grid), ToLower(productKey)).None?
    ensures var r := DraftOutcome(headerRow, grid, productKey, rowId, now);
      var hm := HeaderMap(headerRow);
      r.Ok? && r.value.rowNumber == |grid| + 2 &&
      Cell(r.value, Constants.PRODUCT_KEY) == Some(productKey) &&
      Cell(r.value, Constants.STATUS) == (if Constants.STATUS in hm then Some(Constants.STATUS_PENDING) else None) &&
      Cell(r.value, Constants.ROW_ID) == (if Constants.ROW_ID in hm then NonBlank(rowId.GetOr(productKey)) else None) &&
      Cell(r.value, Constants.CREATED_AT) == (if Constants.CREATED_AT in hm then NonBlank(now) else None)
  {
    var values := DraftValues(productKey, rowId, now);
    DraftOutcomeIsAppended(headerRow, grid, productKey, rowId, now);
    AppendedRowReads(headerRow, grid, values, Constants.PRODUCT_KEY);
    AppendedRowReads(headerRow, grid, values, Constants.STATUS);
    AppendedRowReads(headerRow, grid, values, Constants.ROW_ID);
    AppendedRowReads(headerRow, grid, values, Constants.CREATED_AT);
    NonBlankOfClean(productKey);
    PendingReadsBack();
  }

  /** Ensuring a draft row twice appends one row: the second call finds the row the
      first one added and returns it. */
  lemma DraftRowIdempotent(headerRow: seq<string>, grid: seq<seq<CellValue>>, productKey: string,
                           rowId: Option<string>, now: string, rowId': Option<string>, now': string)
    requires Clean(productKey) && !Reserved(HeaderMap(headerRow))
    requires Constants.PRODUCT_KEY in HeaderMap(headerRow)
    ensures var grid' := DraftGrid(headerRow, grid, productKey, rowId, now);
      DraftGrid(headerRow, grid', productKey, rowId', now') == grid' &&
      DraftOutcome(headerRow, grid', productKey, rowId', now') == DraftOutcome(headerRow, grid, productKey, rowId, now)
  {
    var hm := HeaderMap(headerRow);
    if FindByKey(DataRows(hm, grid), ToLower(productKey)).None? {
      DraftRowCreated(headerRow, grid, productKey, rowId, now);
    }
  }

  // ---------------------------------------------------------------------------
  // Logs and errors

  /** A log row: timestamp, action, product key ("" when absent), message. */
  function LogRow(e: LogEntry): (row: seq<string>)
    ensures |row| == 4 && row[2] == OptionalText(e.productKey).GetOr("")
  {
    var parsed := MakeLogEntry(e.timestamp, e.action, e.productKey, e.message);
    [parsed.timestamp, parsed.action, parsed.productKey.GetOr(""), parsed.message]
  }

  function LogRows(entries: seq<LogEntry>): (rows: seq<seq<string>>)
    ensures |rows| == |entries| && forall i :: 0 <= i < |entries| ==> rows[i] == LogRow(entries[i])
  {
    if entries == [] then [] else LogRows(entries[..|entries| - 1]) + [LogRow(entries[|entries| - 1])]
  }

  /** An error row: timestamp, product key, step, message, hint, payload snippet. */
  function ErrorRow(e: ErrorEntry): (row: seq<string>)
    ensures |row| == 6 && row[1] == OptionalText(e.productKey).GetOr("")
    ensures row[4] == OptionalText(e.hint).GetOr("") && row[5] == OptionalText(e.payloadSnippet).GetOr("")
  {
    var parsed := MakeErrorEntry(e.timestamp, e.productKey, e.step, e.message, e.hint, e.payloadSnippet);
    [parsed.timestamp, parsed.productKey.GetOr(""), parsed.step, parsed.message,
     parsed.hint.GetOr(""), parsed.payloadSnippet.GetOr("")]
  }

  // ---------------------------------------------------------------------------
  // Config

  /** The first config row whose first cell is exactly the string `key` (`findIndex`),
      or -1. */
  function ConfigIndex(config: seq<seq<CellValue>>, key: string): (i: int)
    ensures -1 <= i < |config|
    ensures i >= 0 ==> CellAt(config[i], 0) == Str(key)
    ensures forall j :: 0 <= j < |config| && (i < 0 || j < i) ==> CellAt(config[j], 0) != Str(key)
  {
    if config == [] then -1
    else if CellAt(config[0], 0) == Str(key) then 0
    else
      var i := ConfigIndex(config[1..], key);
      if i < 0 then -1 else i + 1
  }

  /** `getConfigKey`: the sanitised second cell of that row. */
  function ConfigValue(config: seq<seq<CellValue>>, key: string): (v: Option<string>)
    ensures ConfigIndex(config, key) < 0 ==> v.None?
  {
    var i := ConfigIndex(config, key);
    if i < 0 then None else SanitizeCell(CellAt(config[i], 1))
  }

  /** `setConfigKey`: the second cell of the key's row is overwritten, or a row of key
      and value is appended. */
  function SetConfig(config: seq<seq<CellValue>>, key: string, value: string): (c: seq<seq<CellValue>>)
    ensures |c| == if ConfigIndex(config, key) < 0 then |config| + 1 else |config|
  {
    var i := ConfigIndex(config, key);
    if i < 0 then config + [[Str(key), Str(value)]]
    else
      var row := if |config[i]| >= 2 then config[i] else config[i] + Blanks(2 - |config[i]|);
      config[i := row[1 := Str(value)]]
  }

  /** Setting a key then reading it gives the value, trimmed (absent when blank). */
  lemma ConfigRoundTrip(config: seq<seq<CellValue>>, key: string, value: string)
    ensures ConfigValue(SetConfig(config, key, value), key) == NonBlank(value)
  {
    var c := SetConfig(config, key, value);
    var at := SetConfigRow(config, key, value);
    ConfigIndexIs(c, key, at);
    ConfigValueAt(c, key, at);
  }

  /** After the write, the key's first row holds the value in its second cell. */
  lemma SetConfigRow(config: seq<seq<CellValue>>, key: string, value: string) returns (at: int)
    ensures var c := SetConfig(config, key, value);
      0 <= at < |c| && CellAt(c[at], 0) == Str(key) && CellAt(c[at], 1) == Str(value) &&
      forall j :: 0 <= j < at ==> CellAt(c[j], 0) != Str(key)
  {
    var i := ConfigIndex(config, key);
    if i < 0 {
      at := |config|;
      AppendedRow(config, key, value);
    } else {
      at := i;
      UpdatedRow(config, key, value, i);
    }
  }

  lemma AppendedRow(config: seq<seq<CellValue>>, key: string, value: string)
    requires ConfigIndex(config, key) < 0
    ensures var c := SetConfig(config, key, value);
      |c| == |config| + 1 && CellAt(c[|config|], 0) == Str(key) && CellAt(c[|config|], 1) == Str(value) &&
      forall j :: 0 <= j < |config| ==> CellAt(c[j], 0) != Str(key)
  {
    var c := SetConfig(config, key, value);
    assert forall j :: 0 <= j < |config| ==> c[j] == config[j];
  }

  lemma UpdatedRow(config: seq<seq<CellValue>>, key: string, value: string, i: int)
    requires i == ConfigIndex(config, key) && i >= 0
    ensures var c := SetConfig(config, key, value);
      |c| == |config| && CellAt(c[i], 0) == Str(key) && CellAt(c[i], 1) == Str(value) &&
      forall j :: 0 <= j < i ==> CellAt(c[j], 0) != Str(key)
  {
    var c := SetConfig(config, key, value);
    assert forall j :: 0 <= j < i ==> c[j] == config[j];
  }

  /** The value read is the sanitised second cell of the key's row. */
  lemma ConfigValueAt(config: seq<seq<CellValue>>, key: string, at: int)
    requires 0 <= at < |config| && ConfigIndex(config, key) == at
    ensures ConfigValue(config, key) == SanitizeCell(CellAt(config[at], 1))
  {
  }

  /** The search is determined by what it promises. */
  lemma ConfigIndexIs(config: seq<seq<CellValue>>, key: string, i: int)
    requires -1 <= i < |config|
    requires i >= 0 ==> CellAt(config[i], 0) == Str(key)
    requires forall j :: 0 <= j < |config| && (i < 0 || j < i) ==> CellAt(config[j], 0) != Str(key)
    ensures ConfigIndex(config, key) == i
  {
  }

  /** Setting one key leaves every other key's value alone. */
  lemma ConfigOthers(config: seq<seq<CellValue>>, key: string, value: string, other: string)
    requires other != key
    ensures ConfigValue(SetConfig(config, key, value), other) == ConfigValue(config, other)
  {
    var i := ConfigIndex(config, key);
    var c := SetConfig(config, key, value);
    var j := ConfigIndex(config, other);
    assert forall n :: 0 <= n < |config| ==> CellAt(c[n], 0) == CellAt(config[n], 0);
    if i < 0 {
      assert CellAt(c[|config|], 0) != Str(other);
    }
    ConfigIndexIs(c, other, j);
  }

  /** Setting the same key to the same value again changes nothing. */
  lemma ConfigSetIdempotent(config: seq<seq<CellValue>>, key: string, value: string)
    ensures SetConfig(SetConfig(config, key, value), key, value) == SetConfig(config, key, value)
  {
    var i := ConfigIndex(config, key);
    var c := SetConfig(config, key, value);
    if i < 0 {
      ConfigIndexIs(c, key, |config|);
      assert c[|config|][1 := Str(value)] == c[|config|];
    } else {
      ConfigIndexIs(c, key, i);
      assert c[i][1 := Str(value)] == c[i];
    }
  }

  // ---------------------------------------------------------------------------
  // The spreadsheet

  /** The spreadsheet the service works against: the header and data rows of the
      Products tab, the rows appended to the Logs and Errors tabs, and the Config tab. */
  class Ledger {
    var headerRow: seq<string>
    var grid: seq<seq<CellValue>>
    var logRows: seq<seq<string>>
    var errorRows: seq<seq<string>>
    var config: seq<seq<CellValue>>

    constructor(headerRow: seq<string>, grid: seq<seq<CellValue>>, config: seq<seq<CellValue>>)
      ensures this.headerRow == headerRow && this.grid == grid && this.config == config
      ensures logRows == [] && errorRows == []
    {
      this.headerRow := headerRow;
      this.grid := grid;
      this.config := config;
      logRows := [];
      errorRows := [];
    }

    /** `fetchProductsSheet`: every data row is read through the header map and kept
        when the row schema accepts it. */
    method FetchProductsSheet() returns (snapshot: Snapshot)
      ensures snapshot.headerRow == headerRow && snapshot.headerMap == HeaderMap(headerRow)
      ensures snapshot.rows == DataRows(HeaderMap(headerRow), grid)
    {
      if headerRow == [] && grid == [] {
        return Snapshot([], map[], []);
      }
      var hm := HeaderMap(headerRow);
      var rows := ReadRows(hm, grid);
      snapshot := Snapshot(headerRow, hm, rows);
    }

    /** `getApprovedRowsNeedingCreate`. */
    method GetApprovedRowsNeedingCreate() returns (rows: seq<SheetRow>)
      ensures rows == ApprovedRowsNeedingCreate(DataRows(HeaderMap(headerRow), grid))
    {
      var snapshot := FetchProductsSheet();
      rows := ApprovedRowsNeedingCreate(snapshot.rows);
    }

    /** `getRowByProductKey`: an empty key is answered without reading the sheet. */
    method GetRowByProductKey(productKey: string) returns (r: Option<SheetRow>)
      ensures r == RowByProductKey(DataRows(HeaderMap(headerRow), grid), productKey)
    {
      var normalizedKey := ToLower(Trim(productKey));
      if normalizedKey == [] {
        return None;
      }
      var snapshot := FetchProductsSheet();
      r := FindByKey(snapshot.rows, normalizedKey);
    }

    /** `updateRowValues`: one write per update whose column is in the row's header map;
        nothing is sent when there is none. */
    method UpdateRowValues(row: SheetRow, updates: seq<(string, Option<string>)>)
      requires row.rowNumber >= 2
      modifies this
      ensures grid == ApplyWrites(old(grid), RowWrites(row, updates))
      ensures headerRow == old(headerRow) && config == old(config)
      ensures logRows == old(logRows) && errorRows == old(errorRows)
    {
      var data := RowWrites(row, updates);
      if data == [] {
        return;
      }
      grid := ApplyWrites(grid, data);
    }

    /** `updateRowWithProductId`. */
    method UpdateRowWithProductId(row: SheetRow, productId: string, extra: seq<(string, Option<string>)>, now: string)
      requires row.rowNumber >= 2 && UniqueKeys(extra)
      modifies this
      ensures grid == ApplyWrites(old(grid), RowWrites(row, ProductIdUpdates(productId, extra, now)))
      ensures headerRow == old(headerRow) && config == old(config)
      ensures logRows == old(logRows) && errorRows == old(errorRows)
    {
      UpdateRowValues(row, ProductIdUpdates(productId, extra, now));
    }

    /** `ensureDraftRow`: the row with the key, else a new row appended and read back. */
    method EnsureDraftRow(productKey: string, rowId: Option<string>, now: string) returns (r: Result<SheetRow, string>)
      modifies this
      ensures grid == DraftGrid(old(headerRow), old(grid), productKey, rowId, now)
      ensures r == DraftOutcome(old(headerRow), old(grid), productKey, rowId, now)
      ensures headerRow == old(headerRow) && config == old(config)
      ensures logRows == old(logRows) && errorRows == old(errorRows)
    {
      DraftSteps(headerRow, grid, productKey, rowId, now);
      var snapshot := FetchProductsSheet();
      var existing := FindByKey(snapshot.rows, ToLower(productKey));
      if existing.Some? {
        return Ok(existing.value);
      }
      if |snapshot.headerRow| == 0 {
        return Err(MISSING_HEADERS);
      }
      var valuesArray := BuildRowArray(snapshot.headerRow, DraftValues(productKey, rowId, now));
      AppendProductsRow(AsCells(valuesArray));
      var refreshed := FetchProductsSheet();
      var created := FindByKey(refreshed.rows, ToLower(productKey));
      if created.None? {
        return Err("Failed to locate draft row for productKey " + productKey);
      }
      r := Ok(created.value);
    }

    /** The `values.append` call on the Products tab: the row goes after the last one. */
    method AppendProductsRow(cells: seq<CellValue>)
      modifies this
      ensures grid == old(grid) + [cells]
      ensures headerRow == old(headerRow) && config == old(config)
      ensures logRows == old(logRows) && errorRows == old(errorRows)
    {
      grid := grid + [cells];
    }

    /** `writeLogs`: one row per entry, appended; nothing when there are none. */
    method WriteLogs(entries: seq<LogEntry>)
      modifies this
      ensures logRows == old(logRows) + LogRows(entries)
      ensures headerRow == old(headerRow) && grid == old(grid) && config == old(config)
      ensures errorRows == old(errorRows)
    {
      if entries == [] {
        return;
      }
      logRows := logRows + LogRows(entries);
    }

    /** `writeError`: one row appended. */
    method WriteError(entry: ErrorEntry)
      modifies this
      ensures errorRows == old(errorRows) + [ErrorRow(entry)]
      ensures headerRow == old(headerRow) && grid == old(grid) && config == old(config)
      ensures logRows == old(logRows)
    {
      errorRows := errorRows + [ErrorRow(entry)];
    }

    /** `getConfigKey`: the first row whose first cell is the key. */
    method GetConfigKey(key: string) returns (v: Option<string>)
      ensures v == ConfigValue(config, key)
    {
      var i := 0;
      while i < |config|
        invariant 0 <= i <= |config|
        invariant forall j :: 0 <= j < i ==> CellAt(config[j], 0) != Str(key)
      {
        if CellAt(config[i], 0) == Str(key) {
          ConfigIndexIs(config, key, i);
          return SanitizeCell(CellAt(config[i], 1));
        }
        i := i + 1;
      }
      ConfigIndexIs(config, key, -1);
      return None;
    }

    /** `setConfigKey`: column B of the key's row is overwritten, or a row is appended. */
    method SetConfigKey(key: string, value: string)
      modifies this
      ensures config == SetConfig(old(config), key, value)
      ensures headerRow == old(headerRow) && grid == old(grid)
      ensures logRows == old(logRows) && errorRows == old(errorRows)
    {
      var existingIndex := ConfigIndex(config, key);
      if existingIndex >= 0 {
        var row := config[existingIndex];
        if |row| < 2 {
          row := row + Blanks(2 - |row|);
        }
        config := config[existingIndex := row[1 := Str(value)]];
      } else {
        config := config + [[Str(key), Str(value)]];
      }
    }
  }
}

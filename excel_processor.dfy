/** The Excel-to-JSON tool's processor: it loads a per-sheet column type table
    from the TypeDefinition sheet, validates every cell of a data sheet against
    its column's declared type, logs null cells and type mismatches by
    spreadsheet row, and keeps a duplicate-free list of converted files.

    Reading a workbook is I/O: a sheet arrives as a value (`None` when it
    cannot be read). Python's `int()`, `float()` and `str()` on a cell are
    the partial functions of a `Converters` value (`None` when the conversion
    raises). */
module ExcelProcessing {
  import opened World

  /** One cell as pandas delivers it; `Na` is a missing or NaN value. */
  datatype Cell = Na | Number(r: real) | Text(t: string) | Boolean(b: bool)

  /** A processed cell: `NoneV` is Python's `None`, `CellV` the original value. */
  datatype Value = NoneV | IntV(i: int) | FloatV(f: real) | StrV(s: string) | CellV(c: Cell)

  datatype Converters = Converters(
    toInt: Cell -> Option<int>,
    toFloat: Cell -> Option<real>,
    toStr: Cell -> Option<string>)

  /** `validate_cell_type`'s pair: the value and whether it is valid. */
  datatype Validated = Validated(value: Value, valid: bool)

  const IntType: string := "INT"
  const FloatType: string := "FLOAT"
  const StringType: string := "STRING"
  const ErrorText: string := "Error"

  /** One row of the TypeDefinition sheet. */
  datatype TypeRow = TypeRow(sheetName: string, columnName: string, typeName: string)

  /** `type_definitions`: sheet name, then column name, to declared type. */
  type TypeDefs = map<string, map<string, string>>

  /** A data sheet: its column names and its rows, one cell per column. */
  datatype Sheet = Sheet(columns: seq<string>, rows: seq<seq<Cell>>)

  predicate WellFormed(sh: Sheet) {
    forall r | 0 <= r < |sh.rows| :: |sh.rows[r]| == |sh.columns|
  }

  /** Whether the sheet has a cell at all (only then is its type table looked up). */
  predicate HasCells(sh: Sheet) {
    |sh.rows| > 0 && |sh.columns| > 0
  }

  /** A log entry: the sheet, the spreadsheet row (the header is row 1), the
      column and the type the column was checked against. */
  datatype Note = Note(sheet: string, row: nat, column: string, expected: string)

  function DigitText(d: nat): string
    requires d < 10
  {
    [('0' as int + d) as char]
  }

  /** Python's decimal rendering of a natural number, as in an f-string. */
  function NatText(n: nat): string {
    if n < 10 then DigitText(n) else NatText(n / 10) + DigitText(n % 10)
  }

  /** The number a string of decimal digits denotes (the inverse of `NatText`). */
  function DigitsValue(t: string): nat {
    if t == [] then 0
    else
      var c := t[|t| - 1];
      DigitsValue(t[..|t| - 1]) * 10 + (if '0' <= c <= '9' then c as int - '0' as int else 0)
  }

  /** `NatText` writes a non-empty string of decimal digits without a leading
      zero, which reads back as the number written. */
  lemma {:induction false} NatTextRoundTrip(n: nat)
    ensures |NatText(n)| >= 1
    ensures forall i | 0 <= i < |NatText(n)| :: '0' <= NatText(n)[i] <= '9'
    ensures |NatText(n)| > 1 ==> NatText(n)[0] != '0'
    ensures DigitsValue(NatText(n)) == n
  {
    if n >= 10 {
      NatTextRoundTrip(n / 10);
      var a := NatText(n / 10);
      var t := a + DigitText(n % 10);
      assert NatText(n) == t;
      assert t[..|t| - 1] == a;
      assert t[0] == a[0];
    }
  }

  /** The text logged for a null cell. */
  function NullMessage(n: Note): string {
    n.sheet + " > " + NatText(n.row) + "," + n.column + ": null 처리됨"
  }

  /** The text logged for a type mismatch. */
  function TypeMessage(n: Note): string {
    n.sheet + " > " + NatText(n.row) + "," + n.column + ": " + n.expected + " 타입 불일치"
  }

  /** `validate_cell_type(value, expected_type)`. */
  function ValidateCellType(value: Cell, expected: string, conv: Converters): (r: Validated)
    ensures value.Na? ==> r == Validated(NoneV, true)
    ensures r.value.NoneV? <==> value.Na?
    ensures !r.valid ==> r.value == CellV(value)
    ensures r.valid && !value.Na? ==>
      || (expected == IntType && conv.toInt(value).Some? && r.value == IntV(conv.toInt(value).value))
      || (expected == FloatType && conv.toFloat(value).Some? && r.value == FloatV(conv.toFloat(value).value))
      || (expected == StringType && conv.toStr(value).Some? && r.value == StrV(conv.toStr(value).value))
  {
    if value.Na? then Validated(NoneV, true)
    else if expected == IntType then
      (match conv.toInt(value) case Some(i) => Validated(IntV(i), true) case None => Validated(CellV(value), false))
    else if expected == FloatType then
      (match conv.toFloat(value) case Some(f) => Validated(FloatV(f), true) case None => Validated(CellV(value), false))
    else if expected == StringType then
      (match conv.toStr(value) case Some(s) => Validated(StrV(s), true) case None => Validated(CellV(value), false))
    else Validated(CellV(value), false)
  }

  /** A cell is valid exactly when it is missing, or its column's type is one
      of the three known ones and the conversion succeeds. */
  lemma ValidityRule(value: Cell, expected: string, conv: Converters)
    ensures ValidateCellType(value, expected, conv).valid <==>
      || value.Na?
      || (expected == IntType && conv.toInt(value).Some?)
      || (expected == FloatType && conv.toFloat(value).Some?)
      || (expected == StringType && conv.toStr(value).Some?)
  {
  }

  // ---- The type table ----

  /** The table after the first `k` rows of the TypeDefinition sheet. */
  function LoadDefs(defs: TypeDefs, rows: seq<TypeRow>, k: nat): TypeDefs
    requires k <= |rows|
  {
    if k == 0 then defs
    else
      var d := LoadDefs(defs, rows, k - 1);
      var r := rows[k - 1];
      d[r.sheetName := (if r.sheetName in d then d[r.sheetName] else map[])[r.columnName := r.typeName]]
  }

  /** The type declared for `sheet`/`col` by the last such row among the first `k`. */
  function LastType(rows: seq<TypeRow>, sheet: string, col: string, k: nat): Option<string>
    requires k <= |rows|
  {
    if k == 0 then None
    else if rows[k - 1].sheetName == sheet && rows[k - 1].columnName == col then Some(rows[k - 1].typeName)
    else LastType(rows, sheet, col, k - 1)
  }

  /** Loading sets each row's entry, later rows overwriting earlier ones, and
      keeps every entry no row mentions. */
  lemma {:induction false} LoadDefsLookup(defs: TypeDefs, rows: seq<TypeRow>, sheet: string, col: string, k: nat)
    requires k <= |rows|
    ensures var d := LoadDefs(defs, rows, k);
      && (LastType(rows, sheet, col, k).Some? ==>
            sheet in d && col in d[sheet] && d[sheet][col] == LastType(rows, sheet, col, k).value)
      && (LastType(rows, sheet, col, k).None? ==>
            ((sheet in d && col in d[sheet]) <==> (sheet in defs && col in defs[sheet]))
            && (sheet in defs && col in defs[sheet] ==> d[sheet][col] == defs[sheet][col]))
  {
    if k > 0 {
      LoadDefsLookup(defs, rows, sheet, col, k - 1);
    }
  }

  /** No sheet is dropped, and every sheet a row names gets an entry. */
  lemma {:induction false} LoadDefsSheets(defs: TypeDefs, rows: seq<TypeRow>, k: nat)
    requires k <= |rows|
    ensures LoadDefs(defs, rows, k).Keys == defs.Keys + set i | 0 <= i < k :: rows[i].sheetName
  {
    if k > 0 {
      LoadDefsSheets(defs, rows, k - 1);
      var before := set i | 0 <= i < k - 1 :: rows[i].sheetName;
      var after := set i | 0 <= i < k :: rows[i].sheetName;
      assert after == before + {rows[k - 1].sheetName} by {
        forall x | x in after ensures x in before + {rows[k - 1].sheetName} {
          var i :| 0 <= i < k && rows[i].sheetName == x;
          if i < k - 1 {
            assert x in before;
          }
        }
      }
    }
  }

  // ---- A data sheet ----

  /** The declared type of a column, `STRING` when none is declared. */
  function Expected(exp: map<string, string>, col: string): string {
    if col in exp then exp[col] else StringType
  }

  /** One cell's contribution: its output value and the notes it adds to each log. */
  datatype Outcome = Outcome(value: Value, nulls: seq<Note>, errors: seq<Note>)

  /** A cell of row `rowIdx` (0-based, below the header) in column `col`. */
  function CellOutcome(sheet: string, exp: map<string, string>, rowIdx: nat, col: string, cell: Cell, conv: Converters): Outcome {
    var t := Expected(exp, col);
    var v := ValidateCellType(cell, t, conv);
    if v.value.NoneV? then Outcome(NoneV, [Note(sheet, rowIdx + 2, col, t)], [])
    else if !v.valid then Outcome(StrV(ErrorText), [], [Note(sheet, rowIdx + 2, col, t)])
    else Outcome(v.value, [], [])
  }

  /** A row's dict and notes after its first `j` columns. */
  datatype RowAcc = RowAcc(data: map<string, Value>, nulls: seq<Note>, errors: seq<Note>)

  function RowPart(sheet: string, exp: map<string, string>, cols: seq<string>, row: seq<Cell>, rowIdx: nat, conv: Converters, j: nat): RowAcc
    requires j <= |cols| == |row|
  {
    if j == 0 then RowAcc(map[], [], [])
    else
      var a := RowPart(sheet, exp, cols, row, rowIdx, conv, j - 1);
      var o := CellOutcome(sheet, exp, rowIdx, cols[j - 1], row[j - 1], conv);
      RowAcc(a.data[cols[j - 1] := o.value], a.nulls + o.nulls, a.errors + o.errors)
  }

  /** The sheet's dicts and notes after its first `k` rows. */
  datatype SheetAcc = SheetAcc(data: seq<map<string, Value>>, nulls: seq<Note>, errors: seq<Note>)

  function SheetPart(sheet: string, exp: map<string, string>, sh: Sheet, conv: Converters, k: nat): SheetAcc
    requires WellFormed(sh) && k <= |sh.rows|
  {
    if k == 0 then SheetAcc([], [], [])
    else
      var a := SheetPart(sheet, exp, sh, conv, k - 1);
      var r := RowPart(sheet, exp, sh.columns, sh.rows[k - 1], k - 1, conv, |sh.columns|);
      SheetAcc(a.data + [r.data], a.nulls + r.nulls, a.errors + r.errors)
  }

  /** One more column of a row. */
  lemma RowStep(sheet: string, exp: map<string, string>, cols: seq<string>, row: seq<Cell>, rowIdx: nat, conv: Converters, j: nat,
                o: Outcome, a: RowAcc)
    requires j < |cols| == |row|
    requires a == RowPart(sheet, exp, cols, row, rowIdx, conv, j)
    requires o == CellOutcome(sheet, exp, rowIdx, cols[j], row[j], conv)
    ensures RowPart(sheet, exp, cols, row, rowIdx, conv, j + 1) == RowAcc(a.data[cols[j] := o.value], a.nulls + o.nulls, a.errors + o.errors)
  {
  }

  /** One more row of a sheet. */
  lemma SheetStep(sheet: string, exp: map<string, string>, sh: Sheet, conv: Converters, k: nat, r: RowAcc, a: SheetAcc)
    requires WellFormed(sh) && k < |sh.rows|
    requires a == SheetPart(sheet, exp, sh, conv, k)
    requires r == RowPart(sheet, exp, sh.columns, sh.rows[k], k, conv, |sh.columns|)
    ensures SheetPart(sheet, exp, sh, conv, k + 1) == SheetAcc(a.data + [r.data], a.nulls + r.nulls, a.errors + r.errors)
  {
  }

  /** A missing cell stays `None` and is logged as null; an invalid one
      becomes "Error" and is logged as a mismatch; a valid one keeps its
      converted value and is not logged. Both logs name row `rowIdx + 2`. */
  lemma CellOutcomeRule(sheet: string, exp: map<string, string>, rowIdx: nat, col: string, cell: Cell, conv: Converters)
    ensures var o := CellOutcome(sheet, exp, rowIdx, col, cell, conv);
      var t := Expected(exp, col);
      && (cell.Na? ==> o == Outcome(NoneV, [Note(sheet, rowIdx + 2, col, t)], []))
      && (!cell.Na? && !ValidateCellType(cell, t, conv).valid ==>
            o == Outcome(StrV(ErrorText), [], [Note(sheet, rowIdx + 2, col, t)]))
      && (!cell.Na? && ValidateCellType(cell, t, conv).valid ==>
            o == Outcome(ValidateCellType(cell, t, conv).value, [], []))
  {
  }

  /** What a cell logs, rendered as the processor's messages: a null cell's
      message and a mismatch's message name the sheet, the spreadsheet row
      (which reads back as `rowIdx + 2`), the column and, for a mismatch, the
      type checked against. */
  lemma LoggedMessages(sheet: string, exp: map<string, string>, rowIdx: nat, col: string, cell: Cell, conv: Converters)
    ensures var o := CellOutcome(sheet, exp, rowIdx, col, cell, conv);
      && (forall k | 0 <= k < |o.nulls| ::
            NullMessage(o.nulls[k]) == sheet + " > " + NatText(rowIdx + 2) + "," + col + ": null 처리됨")
      && (forall k | 0 <= k < |o.errors| ::
            TypeMessage(o.errors[k]) == sheet + " > " + NatText(rowIdx + 2) + "," + col + ": " + Expected(exp, col) + " 타입 불일치")
      && (forall k | 0 <= k < |o.nulls| :: DigitsValue(NatText(o.nulls[k].row)) == rowIdx + 2)
      && (forall k | 0 <= k < |o.errors| :: DigitsValue(NatText(o.errors[k].row)) == rowIdx + 2)
  {
    NatTextRoundTrip(rowIdx + 2);
  }

  /** A column without a declared type is checked as `STRING`. */
  lemma UndeclaredIsString(exp: map<string, string>, col: string)
    ensures col !in exp ==> Expected(exp, col) == StringType
    ensures col in exp ==> Expected(exp, col) == exp[col]
  {
  }

  /** A row's dict has exactly the sheet's columns as keys. */
  lemma {:induction false} RowKeys(sheet: string, exp: map<string, string>, cols: seq<string>, row: seq<Cell>, rowIdx: nat, conv: Converters, j: nat)
    requires j <= |cols| == |row|
    ensures RowPart(sheet, exp, cols, row, rowIdx, conv, j).data.Keys == set c | 0 <= c < j :: cols[c]
  {
    if j > 0 {
      RowKeys(sheet, exp, cols, row, rowIdx, conv, j - 1);
      var before := set c | 0 <= c < j - 1 :: cols[c];
      var after := set c | 0 <= c < j :: cols[c];
      assert after == before + {cols[j - 1]} by {
        forall x | x in after ensures x in before + {cols[j - 1]} {
          var c :| 0 <= c < j && cols[c] == x;
          if c < j - 1 {
            assert x in before;
          }
        }
      }
    }
  }

  /** With distinct column names, each key of a row's dict holds that column's processed cell. */
  lemma {:induction false} RowValues(sheet: string, exp: map<string, string>, cols: seq<string>, row: seq<Cell>, rowIdx: nat, conv: Converters, j: nat)
    requires j <= |cols| == |row|
    requires forall a, b | 0 <= a < b < |cols| :: cols[a] != cols[b]
    ensures forall c | 0 <= c < j ::
      cols[c] in RowPart(sheet, exp, cols, row, rowIdx, conv, j).data &&
      RowPart(sheet, exp, cols, row, rowIdx, conv, j).data[cols[c]] == CellOutcome(sheet, exp, rowIdx, cols[c], row[c], conv).value
  {
    if j > 0 {
      RowValues(sheet, exp, cols, row, rowIdx, conv, j - 1);
      var a := RowPart(sheet, exp, cols, row, rowIdx, conv, j - 1);
      var o := CellOutcome(sheet, exp, rowIdx, cols[j - 1], row[j - 1], conv);
      RowStep(sheet, exp, cols, row, rowIdx, conv, j - 1, o, a);
      var d := a.data[cols[j - 1] := o.value];
      forall c | 0 <= c < j
        ensures cols[c] in d && d[cols[c]] == CellOutcome(sheet, exp, rowIdx, cols[c], row[c], conv).value
      {
        if c < j - 1 {
          assert cols[c] != cols[j - 1];
        }
      }
    }
  }

  /** The null log of a row lists, in column order, exactly its missing cells. */
  lemma {:induction false} RowNulls(sheet: string, exp: map<string, string>, cols: seq<string>, row: seq<Cell>, rowIdx: nat, conv: Converters, j: nat)
    requires j <= |cols| == |row|
    ensures forall n :: n in RowPart(sheet, exp, cols, row, rowIdx, conv, j).nulls <==>
      exists c :: 0 <= c < j && row[c].Na? && n == Note(sheet, rowIdx + 2, cols[c], Expected(exp, cols[c]))
  {
    if j > 0 {
      RowNulls(sheet, exp, cols, row, rowIdx, conv, j - 1);
    }
  }

  /** The mismatch log of a row lists exactly its present cells that fail validation. */
  lemma {:induction false} RowErrors(sheet: string, exp: map<string, string>, cols: seq<string>, row: seq<Cell>, rowIdx: nat, conv: Converters, j: nat)
    requires j <= |cols| == |row|
    ensures forall n :: n in RowPart(sheet, exp, cols, row, rowIdx, conv, j).errors <==>
      exists c :: 0 <= c < j && !row[c].Na? && !ValidateCellType(row[c], Expected(exp, cols[c]), conv).valid &&
        n == Note(sheet, rowIdx + 2, cols[c], Expected(exp, cols[c]))
  {
    if j > 0 {
      RowErrors(sheet, exp, cols, row, rowIdx, conv, j - 1);
    }
  }

  /** The output has one dict per input row. */
  lemma {:induction false} SheetLength(sheet: string, exp: map<string, string>, sh: Sheet, conv: Converters, k: nat)
    requires WellFormed(sh) && k <= |sh.rows|
    ensures |SheetPart(sheet, exp, sh, conv, k).data| == k
  {
    if k > 0 {
      SheetLength(sheet, exp, sh, conv, k - 1);
    }
  }

  /** The dicts are the rows' dicts, in row order. */
  lemma {:induction false} SheetRows(sheet: string, exp: map<string, string>, sh: Sheet, conv: Converters, k: nat)
    requires WellFormed(sh) && k <= |sh.rows|
    ensures |SheetPart(sheet, exp, sh, conv, k).data| == k
    ensures forall r | 0 <= r < k ::
      SheetPart(sheet, exp, sh, conv, k).data[r] == RowPart(sheet, exp, sh.columns, sh.rows[r], r, conv, |sh.columns|).data
  {
    SheetLength(sheet, exp, sh, conv, k);
    if k > 0 {
      SheetRows(sheet, exp, sh, conv, k - 1);
      var a := SheetPart(sheet, exp, sh, conv, k - 1);
      var r := RowPart(sheet, exp, sh.columns, sh.rows[k - 1], k - 1, conv, |sh.columns|);
      SheetStep(sheet, exp, sh, conv, k - 1, r, a);
      var d := a.data + [r.data];
      forall i | 0 <= i < k
        ensures d[i] == RowPart(sheet, exp, sh.columns, sh.rows[i], i, conv, |sh.columns|).data
      {
        if i < k - 1 {
          assert d[i] == a.data[i];
        }
      }
    }
  }

  // ---- The success list ----

  /** `add_success_file`'s list append, skipped for a name already listed. */
  function AddNew(files: seq<string>, f: string): seq<string> {
    if f in files then files else files + [f]
  }

  /** The list never gets a duplicate, keeps its order, and ends with the new name when it was new. */
  lemma AddNewRule(files: seq<string>, f: string)
    requires forall a, b | 0 <= a < b < |files| :: files[a] != files[b]
    ensures var r := AddNew(files, f);
      && (forall a, b | 0 <= a < b < |r| :: r[a] != r[b])
      && f in r && r[..|files|] == files
      && (f in files ==> r == files)
      && (f !in files ==> r == files + [f])
  {
  }

  /** Adding the same name twice is adding it once. */
  lemma AddNewIdempotent(files: seq<string>, f: string)
    ensures AddNew(AddNew(files, f), f) == AddNew(files, f)
  {
  }

  /** The outer loop of `process_sheet`: row by row. */
  method ProcessRows(name: string, exp: map<string, string>, sh: Sheet, conv: Converters) returns (acc: SheetAcc)
    requires WellFormed(sh)
    ensures acc == SheetPart(name, exp, sh, conv, |sh.rows|)
  {
    acc := SheetAcc([], [], []);
    var i := 0;
    while i < |sh.rows|
      invariant 0 <= i <= |sh.rows|
      invariant acc == SheetPart(name, exp, sh, conv, i)
    {
      var r := ProcessRow(name, exp, sh.columns, sh.rows[i], i, conv);
      SheetStep(name, exp, sh, conv, i, r, acc);
      acc := SheetAcc(acc.data + [r.data], acc.nulls + r.nulls, acc.errors + r.errors);
      i := i + 1;
    }
  }

  /** The inner loop of `process_sheet`: one row, column by column. */
  method ProcessRow(name: string, exp: map<string, string>, cols: seq<string>, row: seq<Cell>, rowIdx: nat, conv: Converters)
    returns (acc: RowAcc)
    requires |row| == |cols|
    ensures acc == RowPart(name, exp, cols, row, rowIdx, conv, |cols|)
  {
    var rowData := map[];
    var nulls := [];
    var errors := [];
    var j := 0;
    while j < |cols|
      invariant 0 <= j <= |cols|
      invariant RowAcc(rowData, nulls, errors) == RowPart(name, exp, cols, row, rowIdx, conv, j)
    {
      ghost var o := CellOutcome(name, exp, rowIdx, cols[j], row[j], conv);
      RowStep(name, exp, cols, row, rowIdx, conv, j, o, RowAcc(rowData, nulls, errors));
      var col := cols[j];
      var expected := Expected(exp, col);
      var v := ValidateCellType(row[j], expected, conv);
      var processed := v.value;
      if processed.NoneV? {
        nulls := nulls + [Note(name, rowIdx + 2, col, expected)];
      } else if !v.valid {
        errors := errors + [Note(name, rowIdx + 2, col, expected)];
        processed := StrV(ErrorText);
      }
      rowData := rowData[col := processed];
      j := j + 1;
    }
    acc := RowAcc(rowData, nulls, errors);
  }

  /** `get_processing_results`, as a value. */
  datatype Results = Results(processedSheets: set<string>, nullCells: seq<Note>, typeErrors: seq<Note>, successFiles: seq<string>)

  class ExcelProcessor {
    var sourcePath: Option<string>
    var targetPath: Option<string>
    var typeDefinitions: TypeDefs
    var sheetsData: map<string, seq<map<string, Value>>>
    var processedSheets: set<string>
    var nullCells: seq<Note>
    var typeErrors: seq<Note>
    var successFiles: seq<string>

    predicate Valid()
      reads this
    {
      forall a, b | 0 <= a < b < |successFiles| :: successFiles[a] != successFiles[b]
    }

    constructor ()
      ensures Valid()
      ensures sourcePath.None? && targetPath.None? && typeDefinitions == map[] && sheetsData == map[]
      ensures processedSheets == {} && nullCells == [] && typeErrors == [] && successFiles == []
    {
      sourcePath := None;
      targetPath := None;
      typeDefinitions := map[];
      sheetsData := map[];
      processedSheets := {};
      nullCells := [];
      typeErrors := [];
      successFiles := [];
    }

    method SetPaths(source: string, target: string)
      requires Valid()
      modifies this
      ensures Valid()
      ensures sourcePath == Some(source) && targetPath == Some(target)
      ensures typeDefinitions == old(typeDefinitions) && sheetsData == old(sheetsData) && processedSheets == old(processedSheets)
      ensures nullCells == old(nullCells) && typeErrors == old(typeErrors) && successFiles == old(successFiles)
    {
      sourcePath := Some(source);
      targetPath := Some(target);
    }

    /** `load_type_definitions`; `read` is the TypeDefinition sheet, `None` when
        it cannot be read, which raises and changes nothing. */
    method LoadTypeDefinitions(read: Option<seq<TypeRow>>) returns (ok: bool, defs: TypeDefs)
      requires Valid()
      modifies this
      ensures Valid()
      ensures ok <==> read.Some?
      ensures ok ==> typeDefinitions == LoadDefs(old(typeDefinitions), read.value, |read.value|) && defs == typeDefinitions
      ensures !ok ==> typeDefinitions == old(typeDefinitions)
      ensures sourcePath == old(sourcePath) && targetPath == old(targetPath)
      ensures sheetsData == old(sheetsData) && processedSheets == old(processedSheets)
      ensures nullCells == old(nullCells) && typeErrors == old(typeErrors) && successFiles == old(successFiles)
    {
      defs := typeDefinitions;
      if read.None? {
        return false, defs;
      }
      var rows := read.value;
      var i := 0;
      while i < |rows|
        invariant 0 <= i <= |rows|
        invariant typeDefinitions == LoadDefs(old(typeDefinitions), rows, i)
        invariant sourcePath == old(sourcePath) && targetPath == old(targetPath)
        invariant sheetsData == old(sheetsData) && processedSheets == old(processedSheets)
        invariant nullCells == old(nullCells) && typeErrors == old(typeErrors) && successFiles == old(successFiles)
      {
        var r := rows[i];
        if r.sheetName !in typeDefinitions {
          typeDefinitions := typeDefinitions[r.sheetName := map[]];
        }
        typeDefinitions := typeDefinitions[r.sheetName := typeDefinitions[r.sheetName][r.columnName := r.typeName]];
        i := i + 1;
      }
      return true, typeDefinitions;
    }

    /** `process_sheet(name)`; `read` is the sheet, `None` when it cannot be
        read. A sheet with cells but no type table entry raises at its first
        cell, before anything is logged, so a failure changes nothing. The
        notes are gathered row by row and appended to the logs once per sheet;
        nothing can observe the logs in between. */
    method ProcessSheet(name: string, read: Option<Sheet>, conv: Converters) returns (ok: bool)
      requires Valid()
      requires read.Some? ==> WellFormed(read.value)
      modifies this
      ensures Valid()
      ensures ok <==> read.Some? && (name in old(typeDefinitions) || !HasCells(read.value))
      ensures ok ==>
        var exp := if name in old(typeDefinitions) then old(typeDefinitions)[name] else map[];
        var a := SheetPart(name, exp, read.value, conv, |read.value.rows|);
        && sheetsData == old(sheetsData)[name := a.data]
        && processedSheets == old(processedSheets) + {name}
        && nullCells == old(nullCells) + a.nulls
        && typeErrors == old(typeErrors) + a.errors
      ensures !ok ==>
        && sheetsData == old(sheetsData) && processedSheets == old(processedSheets)
        && nullCells == old(nullCells) && typeErrors == old(typeErrors)
      ensures typeDefinitions == old(typeDefinitions) && successFiles == old(successFiles)
      ensures sourcePath == old(sourcePath) && targetPath == old(targetPath)
    {
      if read.None? {
        return false;
      }
      var sh := read.value;
      if name !in typeDefinitions && HasCells(sh) {
        return false;
      }
      var exp := if name in typeDefinitions then typeDefinitions[name] else map[];
      var a := ProcessRows(name, exp, sh, conv);
      sheetsData := sheetsData[name := a.data];
      processedSheets := processedSheets + {name};
      nullCells := nullCells + a.nulls;
      typeErrors := typeErrors + a.errors;
      return true;
    }
    /** `clear_results`: every result is emptied; the type table and the paths stay. */
    method ClearResults()
      requires Valid()
      modifies this
      ensures Valid()
      ensures sheetsData == map[] && processedSheets == {} && nullCells == [] && typeErrors == [] && successFiles == []
      ensures typeDefinitions == old(typeDefinitions) && sourcePath == old(sourcePath) && targetPath == old(targetPath)
    {
      sheetsData := map[];
      processedSheets := {};
      nullCells := [];
      typeErrors := [];
      successFiles := [];
    }

    method AddSuccessFile(filename: string)
      requires Valid()
      modifies this
      ensures Valid()
      ensures successFiles == AddNew(old(successFiles), filename)
      ensures typeDefinitions == old(typeDefinitions) && sheetsData == old(sheetsData) && processedSheets == old(processedSheets)
      ensures nullCells == old(nullCells) && typeErrors == old(typeErrors)
      ensures sourcePath == old(sourcePath) && targetPath == old(targetPath)
    {
      if filename !in successFiles {
        successFiles := successFiles + [filename];
      }
    }

    method GetProcessingResults() returns (r: Results)
      ensures r == Results(processedSheets, nullCells, typeErrors, successFiles)
    {
      r := Results(processedSheets, nullCells, typeErrors, successFiles);
    }
  }
}

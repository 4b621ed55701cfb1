/**
  The unified dashboard of super_extractor.py (lines 152-227): the 190 and payroll tables have
  their identifiers normalised, the 190 table can be filtered for display, and the three sources
  are joined on a common identifier column `DNI_JOIN`. Each source is grouped by that column
  (`consolidar`), the groups are outer-merged IDC, then 190, then payroll, and the key column is
  renamed `DNI_UNIFICADO` while the redundant identifier columns are dropped.

  A table is a sequence of rows, a row a map from column names to cells; the columns pandas
  would infer as numeric are given explicitly. A grouped table maps each key to its row.
*/
module Consolidate {
  import opened Wrappers
  import opened Identifiers

  type Row = map<string, Cell>

  /** The cell of a row under a column; a column the row lacks reads as missing (NaN). */
  function At(r: Row, c: string): Cell {
    if c in r then r[c] else Missing
  }

  /** A source table: its columns in order, the numeric ones among them, and its rows. */
  datatype Frame = Frame(cols: seq<string>, numeric: set<string>, rows: seq<Row>)

  /** `DataFrame.empty`: no rows or no columns. */
  predicate IsEmpty(f: Frame) {
    |f.rows| == 0 || |f.cols| == 0
  }

  const JoinCol: string := "DNI_JOIN"
  const UnifiedCol: string := "DNI_UNIFICADO"

  /** The identifier columns removed from the unified table (line 226). */
  const Dropped: set<string> := {"DNI", "NIF", "DNI_190", "NIF_190", "DNI_NOM"}

  predicate Distinct(s: seq<string>) {
    forall i, j :: 0 <= i < j < |s| ==> s[i] != s[j]
  }

  // ---------------------------------------------------------------------------------------------
  // Preparing the 190 and payroll tables (lines 155-160 and 174-175)
  // ---------------------------------------------------------------------------------------------

  /** `normalizar_dni_final` applied to a cell: a blank identifier becomes missing. */
  function NormalizeCell(v: Cell): (r: Cell)
    ensures r.Str? ==> v.Str? && NormalizeDni(Some(v.s)) == Some(r.s)
    ensures v.Missing? ==> r.Missing?
  {
    match v
    case Missing => Missing
    case Number(x) => Number(x)
    case Str(s) =>
      var n := NormalizeDni(Some(s));
      if n.None? then Missing else Str(n.value)
  }

  /** A normalised identifier that is not the empty string is left alone by a second pass. */
  lemma NormalizeCellIdempotent(v: Cell)
    requires NormalizeCell(v) != Str("")
    ensures NormalizeCell(NormalizeCell(v)) == NormalizeCell(v)
  {
    if v.Str? && NormalizeDni(Some(v.s)).Some? {
      NormalizeDniIdempotent(Some(v.s));
    }
  }

  /** Column `c` of every row replaced by `g` of its old cell. */
  function MapColumn(f: Frame, c: string, g: Cell -> Cell): (r: Frame)
    ensures r.cols == f.cols && |r.rows| == |f.rows|
    ensures forall i :: 0 <= i < |r.rows| ==> r.rows[i] == f.rows[i][c := g(At(f.rows[i], c))]
  {
    Frame(f.cols, f.numeric, seq(|f.rows|, i requires 0 <= i < |f.rows| => f.rows[i][c := g(At(f.rows[i], c))]))
  }

  /** `limpiar_valor_numerico` applied to a whole column, which then holds numbers only. */
  function CleanColumn(f: Frame, c: string): Frame {
    var g := MapColumn(f, c, (v: Cell) => Number(CleanNumeric(v)));
    Frame(g.cols, g.numeric + {c}, g.rows)
  }

  /** The identifier column of a 190 table: `NIF` when present, else `DNI`, else none. */
  function IdColumn190(f: Frame): Option<string> {
    if "NIF" in f.cols then Some("NIF") else if "DNI" in f.cols then Some("DNI") else None
  }

  /** Lines 155-160: the amount columns cleaned, the identifier column normalised. */
  function Prepare190(f: Frame): Frame {
    var f1 := if "Percepciones" in f.cols then CleanColumn(f, "Percepciones") else f;
    var f2 := if "Retenciones" in f1.cols then CleanColumn(f1, "Retenciones") else f1;
    var id := IdColumn190(f2);
    if id.Some? then MapColumn(f2, id.value, NormalizeCell) else f2
  }

  /** Lines 174-175: the payroll `DNI` column normalised. */
  function PrepareNom(f: Frame): Frame {
    if "DNI" in f.cols then MapColumn(f, "DNI", NormalizeCell) else f
  }

  /**
    After preparation the amount columns of a 190 table hold numbers only, and its identifier
    column holds normalised identifiers or missing cells; nothing else about a row changes.
  */
  lemma Prepare190Cells(f: Frame, i: int)
    requires 0 <= i < |f.rows|
    ensures var g := Prepare190(f);
            |g.rows| == |f.rows| && g.cols == f.cols
            && ("Percepciones" in f.cols ==> At(g.rows[i], "Percepciones").Number?)
            && ("Retenciones" in f.cols ==> At(g.rows[i], "Retenciones").Number?)
            && (IdColumn190(f).Some? ==> At(g.rows[i], IdColumn190(f).value) == NormalizeCell(At(f.rows[i], IdColumn190(f).value)))
            && (forall c :: c !in {"Percepciones", "Retenciones"} && Some(c) != IdColumn190(f) ==> At(g.rows[i], c) == At(f.rows[i], c))
  {
  }

  lemma PrepareNomCells(f: Frame, i: int)
    requires 0 <= i < |f.rows|
    ensures var g := PrepareNom(f);
            |g.rows| == |f.rows| && g.cols == f.cols
            && ("DNI" in f.cols ==> At(g.rows[i], "DNI") == NormalizeCell(At(f.rows[i], "DNI")))
            && (forall c :: c != "DNI" ==> At(g.rows[i], c) == At(f.rows[i], c))
  {
  }

  // ---------------------------------------------------------------------------------------------
  // The 190 display filters (lines 164-167)
  // ---------------------------------------------------------------------------------------------

  /** `df[df[col].isin(sel)] if sel else df`. */
  function Where(rows: seq<Row>, col: string, sel: seq<Cell>): (r: seq<Row>)
    ensures |r| <= |rows|
  {
    if sel == [] || rows == [] then rows
    else (if At(rows[0], col) in sel then [rows[0]] else []) + Where(rows[1..], col, sel)
  }

  /** A row is kept exactly when it is in the table and, for a non-empty selection, matches it. */
  lemma {:induction false} WhereMeaning(rows: seq<Row>, col: string, sel: seq<Cell>, x: Row)
    ensures x in Where(rows, col, sel) <==> x in rows && (sel == [] || At(x, col) in sel)
    decreases |rows|
  {
    if sel != [] && rows != [] {
      WhereMeaning(rows[1..], col, sel, x);
      assert rows == [rows[0]] + rows[1..];
    }
  }

  /** The 190 rows displayed for a selection of keys and a selection of names. */
  function Shown190(rows: seq<Row>, selClave: seq<Cell>, selNombre: seq<Cell>): seq<Row> {
    Where(Where(rows, "Clave", selClave), "Nombre", selNombre)
  }

  lemma Shown190Meaning(rows: seq<Row>, selClave: seq<Cell>, selNombre: seq<Cell>, x: Row)
    ensures x in Shown190(rows, selClave, selNombre)
            <==> x in rows && (selClave == [] || At(x, "Clave") in selClave)
                 && (selNombre == [] || At(x, "Nombre") in selNombre)
  {
    WhereMeaning(rows, "Clave", selClave, x);
    WhereMeaning(Where(rows, "Clave", selClave), "Nombre", selNombre, x);
  }

  /**
   * The filter works row by row: filtering a concatenation concatenates the filtered parts, and
   * a single row is kept, once, exactly when it matches. Together these fix the result to the
   * matching rows in their input order, each copy of a repeated row included.
   */
  lemma {:induction false} WhereAppend(a: seq<Row>, b: seq<Row>, col: string, sel: seq<Cell>)
    ensures Where(a + b, col, sel) == Where(a, col, sel) + Where(b, col, sel)
    decreases |a|
  {
    if sel != [] {
      if a == [] {
        assert a + b == b;
      } else {
        assert (a + b)[0] == a[0];
        assert (a + b)[1..] == a[1..] + b;
        WhereAppend(a[1..], b, col, sel);
      }
    }
  }

  lemma WhereOne(x: Row, col: string, sel: seq<Cell>)
    ensures Where([x], col, sel) == if sel == [] || At(x, col) in sel then [x] else []
  {
    assert [x][1..] == [];
  }

  /** The displayed 190 rows, too, are the matching rows in input order, duplicates kept. */
  lemma Shown190Append(a: seq<Row>, b: seq<Row>, selClave: seq<Cell>, selNombre: seq<Cell>)
    ensures Shown190(a + b, selClave, selNombre) == Shown190(a, selClave, selNombre) + Shown190(b, selClave, selNombre)
  {
    WhereAppend(a, b, "Clave", selClave);
    WhereAppend(Where(a, "Clave", selClave), Where(b, "Clave", selClave), "Nombre", selNombre);
  }

  lemma Shown190One(x: Row, selClave: seq<Cell>, selNombre: seq<Cell>)
    ensures Shown190([x], selClave, selNombre)
            == if (selClave == [] || At(x, "Clave") in selClave) && (selNombre == [] || At(x, "Nombre") in selNombre)
               then [x] else []
  {
    WhereOne(x, "Clave", selClave);
    WhereOne(x, "Nombre", selNombre);
    assert Where([], "Nombre", selNombre) == [];
  }

  // ---------------------------------------------------------------------------------------------
  // The join column (lines 199-201)
  // ---------------------------------------------------------------------------------------------

  /** `df['DNI_JOIN'] = df[col]`, done only for a non-empty table that has `col`. */
  function AssignJoin(f: Frame, col: string): (r: Frame)
    ensures |r.rows| == |f.rows| && IsEmpty(r) == IsEmpty(f)
  {
    if IsEmpty(f) || col !in f.cols then f
    else
      Frame(if JoinCol in f.cols then f.cols else f.cols + [JoinCol], f.numeric,
            seq(|f.rows|, i requires 0 <= i < |f.rows| => f.rows[i][JoinCol := At(f.rows[i], col)]))
  }

  /** The 190 table is keyed by `NIF` when it has one, else by `DNI`: the second assignment wins. */
  lemma JoinKey190(f: Frame, i: int)
    requires !IsEmpty(f) && 0 <= i < |f.rows|
    ensures var g := AssignJoin(AssignJoin(f, "DNI"), "NIF");
            (JoinCol in g.cols <==> "NIF" in f.cols || "DNI" in f.cols || JoinCol in f.cols)
            && At(g.rows[i], JoinCol)
               == if "NIF" in f.cols then At(f.rows[i], "NIF")
                  else if "DNI" in f.cols then At(f.rows[i], "DNI")
                  else At(f.rows[i], JoinCol)
  {
    var g1 := AssignJoin(f, "DNI");
    assert forall c :: c in g1.cols <==> c in f.cols || (c == JoinCol && "DNI" in f.cols);
    if "DNI" in f.cols {
      assert At(g1.rows[i], "NIF") == At(f.rows[i], "NIF");
    }
  }

  // ---------------------------------------------------------------------------------------------
  // Grouping one source (`consolidar`, lines 203-207)
  // ---------------------------------------------------------------------------------------------

  /** The columns aggregated: all but the key. */
  function AggCols(cols: seq<string>): (r: seq<string>)
    ensures forall c :: c in r <==> c in cols && c != JoinCol
  {
    if cols == [] then []
    else (if cols[0] == JoinCol then [] else [cols[0]]) + AggCols(cols[1..])
  }

  /** The number a numeric cell adds to a sum; NaN adds nothing. */
  function NumOf(v: Cell): real {
    if v.Number? then v.x else 0.0
  }

  /**
    A group row after taking in row `r`: numeric columns add up, the others keep the first
    value that is not missing.
  */
  function Absorb(acc: Row, r: Row, cols: seq<string>, numeric: set<string>): Row {
    map c | c in cols :: if c in numeric then Number(NumOf(At(acc, c)) + NumOf(At(r, c)))
                         else if At(acc, c) != Missing then At(acc, c) else At(r, c)
  }

  function RowOr(m: map<Cell, Row>, k: Cell): Row {
    if k in m then m[k] else map[]
  }

  /** The group rows of `rows`, keyed by their join cell; rows with a missing key are dropped. */
  function GroupRows(rows: seq<Row>, cols: seq<string>, numeric: set<string>): map<Cell, Row>
    decreases |rows|
  {
    if rows == [] then map[]
    else
      var acc := GroupRows(rows[..|rows| - 1], cols, numeric);
      var r := rows[|rows| - 1];
      var k := At(r, JoinCol);
      if k == Missing then acc else acc[k := Absorb(RowOr(acc, k), r, cols, numeric)]
  }

  /** The keys present in a table. */
  function Keys(rows: seq<Row>): set<Cell> {
    set i | 0 <= i < |rows| && At(rows[i], JoinCol) != Missing :: At(rows[i], JoinCol)
  }

  /** The sum of column `c` over the rows with key `k`. */
  function SumOf(rows: seq<Row>, k: Cell, c: string): real
    decreases |rows|
  {
    if rows == [] then 0.0
    else (if At(rows[0], JoinCol) == k then NumOf(At(rows[0], c)) else 0.0) + SumOf(rows[1..], k, c)
  }

  /** The first cell of column `c`, among the rows with key `k`, that is not missing. */
  function FirstOf(rows: seq<Row>, k: Cell, c: string): Cell
    decreases |rows|
  {
    if rows == [] then Missing
    else if At(rows[0], JoinCol) == k && At(rows[0], c) != Missing then At(rows[0], c)
    else FirstOf(rows[1..], k, c)
  }

  /** The first non-missing value is that of the earliest row whose value is not missing. */
  lemma {:induction false} FirstOfIndex(rows: seq<Row>, k: Cell, c: string)
    ensures FirstOf(rows, k, c) == Missing
            <==> forall i :: 0 <= i < |rows| && At(rows[i], JoinCol) == k ==> At(rows[i], c) == Missing
    ensures FirstOf(rows, k, c) != Missing ==>
              exists i :: 0 <= i < |rows| && At(rows[i], JoinCol) == k && At(rows[i], c) == FirstOf(rows, k, c)
                          && forall j :: 0 <= j < i && At(rows[j], JoinCol) == k ==> At(rows[j], c) == Missing
    decreases |rows|
  {
    if rows != [] {
      FirstOfIndex(rows[1..], k, c);
      if !(At(rows[0], JoinCol) == k && At(rows[0], c) != Missing) && FirstOf(rows, k, c) != Missing {
        var i :| 0 <= i < |rows[1..]| && At(rows[1..][i], JoinCol) == k && At(rows[1..][i], c) == FirstOf(rows, k, c)
                 && forall j :: 0 <= j < i && At(rows[1..][j], JoinCol) == k ==> At(rows[1..][j], c) == Missing;
        forall j | 0 <= j < i + 1 && At(rows[j], JoinCol) == k ensures At(rows[j], c) == Missing {
          if j > 0 { assert rows[j] == rows[1..][j - 1]; }
        }
      }
    }
  }

  lemma {:induction false} KeysSnoc(rows: seq<Row>, r: Row)
    ensures Keys(rows + [r]) == Keys(rows) + (if At(r, JoinCol) == Missing then {} else {At(r, JoinCol)})
  {
    var s := rows + [r];
    assert forall i :: 0 <= i < |rows| ==> s[i] == rows[i];
    assert s[|rows|] == r;
  }

  lemma {:induction false} SumOfSnoc(rows: seq<Row>, r: Row, k: Cell, c: string)
    ensures SumOf(rows + [r], k, c) == SumOf(rows, k, c) + (if At(r, JoinCol) == k then NumOf(At(r, c)) else 0.0)
    decreases |rows|
  {
    if rows != [] {
      assert (rows + [r])[1..] == rows[1..] + [r];
      SumOfSnoc(rows[1..], r, k, c);
    }
  }

  lemma {:induction false} FirstOfSnoc(rows: seq<Row>, r: Row, k: Cell, c: string)
    ensures FirstOf(rows + [r], k, c)
            == if FirstOf(rows, k, c) != Missing then FirstOf(rows, k, c)
               else if At(r, JoinCol) == k then At(r, c) else Missing
    decreases |rows|
  {
    if rows != [] {
      assert (rows + [r])[1..] == rows[1..] + [r];
      FirstOfSnoc(rows[1..], r, k, c);
    }
  }

  /** The groups are exactly the keys present, missing keys excluded, so each key occurs once. */
  lemma {:induction false} GroupKeys(rows: seq<Row>, cols: seq<string>, numeric: set<string>)
    ensures GroupRows(rows, cols, numeric).Keys == Keys(rows)
    decreases |rows|
  {
    if rows != [] {
      var p := rows[..|rows| - 1];
      GroupKeys(p, cols, numeric);
      assert p + [rows[|rows| - 1]] == rows;
      KeysSnoc(p, rows[|rows| - 1]);
    }
  }

  /** A key absent from the table contributes nothing to sums and has no first value. */
  lemma {:induction false} AbsentKey(rows: seq<Row>, k: Cell, c: string)
    requires k !in Keys(rows) && k != Missing
    ensures SumOf(rows, k, c) == 0.0 && FirstOf(rows, k, c) == Missing
    decreases |rows|
  {
    if rows != [] {
      assert At(rows[0], JoinCol) != k;
      assert Keys(rows[1..]) <= Keys(rows) by {
        forall x | x in Keys(rows[1..]) ensures x in Keys(rows) {
          var i :| 0 <= i < |rows[1..]| && At(rows[1..][i], JoinCol) != Missing && x == At(rows[1..][i], JoinCol);
          assert rows[i + 1] == rows[1..][i];
        }
      }
      AbsentKey(rows[1..], k, c);
    }
  }

  /** The meaning of one group cell: a sum for a numeric column, else the first value present. */
  predicate GroupCell(rows: seq<Row>, numeric: set<string>, k: Cell, row: Row, c: string) {
    c in row && row[c] == (if c in numeric then Number(SumOf(rows, k, c)) else FirstOf(rows, k, c))
  }

  /** Each group row has the aggregated columns, summed (numeric) or first-present (others). */
  lemma {:induction false} GroupCells(rows: seq<Row>, cols: seq<string>, numeric: set<string>, k: Cell, c: string)
    requires k in GroupRows(rows, cols, numeric) && c in cols
    ensures GroupCell(rows, numeric, k, GroupRows(rows, cols, numeric)[k], c)
    decreases |rows|
  {
    var p := rows[..|rows| - 1];
    var r := rows[|rows| - 1];
    var acc := GroupRows(p, cols, numeric);
    assert p + [r] == rows;
    SumOfSnoc(p, r, k, c);
    FirstOfSnoc(p, r, k, c);
    GroupKeys(p, cols, numeric);
    if At(r, JoinCol) != k {
      assert GroupRows(rows, cols, numeric)[k] == acc[k];
      GroupCells(p, cols, numeric, k, c);
    } else if k in acc {
      GroupCells(p, cols, numeric, k, c);
      assert GroupRows(rows, cols, numeric)[k] == Absorb(acc[k], r, cols, numeric);
      AbsorbCell(acc[k], r, cols, numeric, c, SumOf(p, k, c), FirstOf(p, k, c));
    } else {
      AbsentKey(p, k, c);
      assert GroupRows(rows, cols, numeric)[k] == Absorb(map[], r, cols, numeric);
      AbsorbCell(map[], r, cols, numeric, c, 0.0, Missing);
    }
  }

  /** Taking in a row adds its number to a numeric cell and fills a missing other cell. */
  lemma AbsorbCell(acc: Row, r: Row, cols: seq<string>, numeric: set<string>, c: string, sum: real, first: Cell)
    requires c in cols
    requires c in numeric ==> NumOf(At(acc, c)) == sum
    requires c !in numeric ==> At(acc, c) == first
    ensures c in Absorb(acc, r, cols, numeric)
    ensures Absorb(acc, r, cols, numeric)[c]
            == if c in numeric then Number(sum + NumOf(At(r, c)))
               else if first != Missing then first else At(r, c)
  {
  }

  // ---------------------------------------------------------------------------------------------
  // Grouped tables and the outer merges (lines 209-222)
  // ---------------------------------------------------------------------------------------------

  /** A grouped table: the name of its key column, its other columns in order, and a row per key. */
  datatype Keyed = Keyed(key: string, cols: seq<string>, rows: map<Cell, Row>)

  /**
    `consolidar` of a table that has its join column: `None` stands for the `KeyError` pandas
    raises when a non-empty table has none. An empty table is returned as it is; only its
    emptiness is used afterwards, so it is represented by an empty grouped table.
  */
  function Consolidar(f: Frame): (r: Option<Keyed>)
    ensures r.None? <==> !IsEmpty(f) && JoinCol !in f.cols
    ensures r.Some? ==> r.value.key == JoinCol && (IsEmpty(f) ==> r.value.rows == map[])
  {
    if IsEmpty(f) then Some(Keyed(JoinCol, [], map[]))
    else if JoinCol !in f.cols then None
    else Some(Keyed(JoinCol, AggCols(f.cols), GroupRows(f.rows, AggCols(f.cols), f.numeric)))
  }

  /** The grouped table's keys are those present in the source; its cells are sums or first values. */
  lemma ConsolidarMeaning(f: Frame, k: Cell, c: string)
    requires !IsEmpty(f) && JoinCol in f.cols
    ensures Consolidar(f).value.rows.Keys == Keys(f.rows)
    ensures k in Consolidar(f).value.rows && c in f.cols && c != JoinCol ==>
              GroupCell(f.rows, f.numeric, k, Consolidar(f).value.rows[k], c)
  {
    GroupKeys(f.rows, AggCols(f.cols), f.numeric);
    if k in Consolidar(f).value.rows && c in f.cols && c != JoinCol {
      GroupCells(f.rows, AggCols(f.cols), f.numeric, k, c);
    }
  }

  /** The name a right-hand column takes in the merge: suffixed when the left side has it. */
  function RightName(lcols: seq<string>, c: string, sfx: string): string {
    if c in lcols then c + sfx else c
  }

  function Renamed(lcols: seq<string>, rcols: seq<string>, sfx: string): (r: seq<string>)
    ensures |r| == |rcols|
    ensures forall i :: 0 <= i < |r| ==> r[i] == RightName(lcols, rcols[i], sfx)
  {
    if rcols == [] then [] else [RightName(lcols, rcols[0], sfx)] + Renamed(lcols, rcols[1..], sfx)
  }

  /** `row` with the cells of `src` entered under their merged names. */
  function Enter(row: Row, src: Row, lcols: seq<string>, rcols: seq<string>, sfx: string): Row
    decreases |rcols|
  {
    if rcols == [] then row
    else Enter(row[RightName(lcols, rcols[0], sfx) := At(src, rcols[0])], src, lcols, rcols[1..], sfx)
  }

  lemma {:induction false} EnterOther(row: Row, src: Row, lcols: seq<string>, rcols: seq<string>, sfx: string, n: string)
    requires n !in Renamed(lcols, rcols, sfx)
    ensures At(Enter(row, src, lcols, rcols, sfx), n) == At(row, n)
    decreases |rcols|
  {
    if rcols != [] {
      assert Renamed(lcols, rcols[1..], sfx) == Renamed(lcols, rcols, sfx)[1..];
      EnterOther(row[RightName(lcols, rcols[0], sfx) := At(src, rcols[0])], src, lcols, rcols[1..], sfx, n);
    }
  }

  lemma {:induction false} EnterRight(row: Row, src: Row, lcols: seq<string>, rcols: seq<string>, sfx: string, i: int)
    requires Distinct(Renamed(lcols, rcols, sfx)) && 0 <= i < |rcols|
    ensures At(Enter(row, src, lcols, rcols, sfx), RightName(lcols, rcols[i], sfx)) == At(src, rcols[i])
    decreases |rcols|
  {
    var names := Renamed(lcols, rcols, sfx);
    var row1 := row[RightName(lcols, rcols[0], sfx) := At(src, rcols[0])];
    assert Renamed(lcols, rcols[1..], sfx) == names[1..];
    assert Enter(row, src, lcols, rcols, sfx) == Enter(row1, src, lcols, rcols[1..], sfx);
    if i == 0 {
      assert names[0] !in names[1..];
      EnterOther(row1, src, lcols, rcols[1..], sfx, names[0]);
      assert At(row1, names[0]) == At(src, rcols[0]);
    } else {
      assert rcols[1..][i - 1] == rcols[i];
      EnterRight(row1, src, lcols, rcols[1..], sfx, i - 1);
    }
  }

  /** The merged row of key `k`: the left cells, then the right cells under their merged names. */
  function MergeRow(l: Keyed, r: Keyed, k: Cell, sfx: string): Row {
    Enter(map c | c in l.cols :: At(RowOr(l.rows, k), c), RowOr(r.rows, k), l.cols, r.cols, sfx)
  }

  /**
    `pd.merge(l, r, on='DNI_JOIN', how='outer', suffixes=('', sfx))`: every key of either side,
    the left columns under their own names, then the right columns, suffixed where they collide.
  */
  function Merge(l: Keyed, r: Keyed, sfx: string): (m: Keyed)
    ensures m.key == l.key && m.rows.Keys == l.rows.Keys + r.rows.Keys
    ensures |l.cols| <= |m.cols| && m.cols[..|l.cols|] == l.cols
  {
    Keyed(l.key, l.cols + Renamed(l.cols, r.cols, sfx),
          map k | k in l.rows.Keys + r.rows.Keys :: MergeRow(l, r, k, sfx))
  }

  /** The merged columns are pairwise distinct (pandas refuses a merge that would duplicate one). */
  predicate NoClash(l: Keyed, r: Keyed, sfx: string) {
    Distinct(l.cols + Renamed(l.cols, r.cols, sfx))
  }

  /** A left column keeps its name and its cell, missing when the key is only on the right. */
  lemma MergeLeft(l: Keyed, r: Keyed, sfx: string, k: Cell, c: string)
    requires NoClash(l, r, sfx) && k in Merge(l, r, sfx).rows && c in l.cols
    ensures At(Merge(l, r, sfx).rows[k], c) == At(RowOr(l.rows, k), c)
  {
    var names := Renamed(l.cols, r.cols, sfx);
    assert c !in names by {
      var j :| 0 <= j < |l.cols| && l.cols[j] == c;
      assert (l.cols + names)[j] == c;
      forall i | 0 <= i < |names| ensures names[i] != c {
        assert (l.cols + names)[|l.cols| + i] == names[i];
      }
    }
    EnterOther(map c | c in l.cols :: At(RowOr(l.rows, k), c), RowOr(r.rows, k), l.cols, r.cols, sfx, c);
  }

  /** The `i`-th right column is found under its merged name, missing when the key is only on the left. */
  lemma MergeRight(l: Keyed, r: Keyed, sfx: string, k: Cell, i: int)
    requires NoClash(l, r, sfx) && k in Merge(l, r, sfx).rows && 0 <= i < |r.cols|
    ensures Merge(l, r, sfx).cols[|l.cols| + i] == (if r.cols[i] in l.cols then r.cols[i] + sfx else r.cols[i])
    ensures At(Merge(l, r, sfx).rows[k], Merge(l, r, sfx).cols[|l.cols| + i]) == At(RowOr(r.rows, k), r.cols[i])
  {
    var names := Renamed(l.cols, r.cols, sfx);
    assert Distinct(names) by {
      forall a, b | 0 <= a < b < |names| ensures names[a] != names[b] {
        assert (l.cols + names)[|l.cols| + a] == names[a];
        assert (l.cols + names)[|l.cols| + b] == names[b];
      }
    }
    EnterRight(map c | c in l.cols :: At(RowOr(l.rows, k), c), RowOr(r.rows, k), l.cols, r.cols, sfx, i);
  }

  /** `resultado` after lines 213-222: the non-empty grouped tables, merged in the order IDC, 190, payroll. */
  function Combine(ic: Keyed, uc: Keyed, nc: Keyed): Keyed {
    var r1 := if ic.rows != map[] then ic else Keyed(JoinCol, [], map[]);
    var r2 := if uc.rows == map[] then r1 else if r1.rows == map[] then uc else Merge(r1, uc, "_190");
    if nc.rows == map[] then r2 else if r2.rows == map[] then nc else Merge(r2, nc, "_NOM")
  }

  /** The combined keys are the union of the three tables' keys. */
  lemma CombineKeys(ic: Keyed, uc: Keyed, nc: Keyed)
    ensures Combine(ic, uc, nc).rows.Keys == ic.rows.Keys + uc.rows.Keys + nc.rows.Keys
  {
  }

  /** The earliest non-empty source keeps its column names, in front of all the others. */
  lemma CombineLeading(ic: Keyed, uc: Keyed, nc: Keyed)
    ensures ic.rows != map[] ==> Combine(ic, uc, nc).cols[..|ic.cols|] == ic.cols
    ensures ic.rows == map[] && uc.rows != map[] ==> Combine(ic, uc, nc).cols[..|uc.cols|] == uc.cols
  {
    var r1 := if ic.rows != map[] then ic else Keyed(JoinCol, [], map[]);
    var r2 := if uc.rows == map[] then r1 else if r1.rows == map[] then uc else Merge(r1, uc, "_190");
    if r2.rows != map[] && nc.rows != map[] {
      var m := Merge(r2, nc, "_NOM");
      assert m.cols[..|r2.cols|] == r2.cols;
      if ic.rows != map[] {
        assert r2.cols[..|ic.cols|] == ic.cols;
        assert m.cols[..|ic.cols|] == m.cols[..|r2.cols|][..|ic.cols|];
      }
    }
  }

  // ---------------------------------------------------------------------------------------------
  // The unified table (lines 196-227)
  // ---------------------------------------------------------------------------------------------

  function Filter(cols: seq<string>, out: set<string>): (r: seq<string>)
    ensures forall c :: c in r <==> c in cols && c !in out
  {
    if cols == [] then [] else (if cols[0] in out then [] else [cols[0]]) + Filter(cols[1..], out)
  }

  /** Lines 224-227: for a non-empty result, the key renamed and the identifier columns dropped. */
  function Finish(t: Keyed): Keyed {
    if t.rows == map[] then t
    else Keyed(UnifiedCol, Filter(t.cols, Dropped), map k | k in t.rows :: t.rows[k] - Dropped)
  }

  /** What the dashboard shows: nothing to unify, the `KeyError` of a table without key, or a table. */
  datatype Board = NoData | KeyMissing | Shown(t: Keyed)

  /** The three tables after the join column is assigned (lines 199-201). */
  function JoinIdc(fi: Frame): Frame { AssignJoin(fi, "DNI") }
  function Join190(f1: Frame): Frame { AssignJoin(AssignJoin(f1, "DNI"), "NIF") }
  function JoinNom(fn: Frame): Frame { AssignJoin(fn, "DNI") }

  function BoardOf(fi: Frame, f1: Frame, fn: Frame): Board {
    if IsEmpty(fi) && IsEmpty(f1) && IsEmpty(fn) then NoData
    else
      var ic := Consolidar(JoinIdc(fi));
      var uc := Consolidar(Join190(f1));
      var nc := Consolidar(JoinNom(fn));
      if ic.None? || uc.None? || nc.None? then KeyMissing
      else Shown(Finish(Combine(ic.value, uc.value, nc.value)))
  }

  /** The unification of lines 196-227, step by step. */
  method Unify(fi: Frame, f1: Frame, fn: Frame) returns (board: Board)
    ensures board == BoardOf(fi, f1, fn)
  {
    if IsEmpty(fi) && IsEmpty(f1) && IsEmpty(fn) {
      return NoData;
    }
    var dfI, df1, dfN := fi, f1, fn;
    dfI := AssignJoin(dfI, "DNI");
    df1 := AssignJoin(df1, "DNI");
    df1 := AssignJoin(df1, "NIF");
    dfN := AssignJoin(dfN, "DNI");
    var idcC := Consolidar(dfI);
    if idcC.None? { return KeyMissing; }
    var c190 := Consolidar(df1);
    if c190.None? { return KeyMissing; }
    var nomC := Consolidar(dfN);
    if nomC.None? { return KeyMissing; }
    var resultado := Keyed(JoinCol, [], map[]);
    if idcC.value.rows != map[] {
      resultado := idcC.value;
    }
    if c190.value.rows != map[] {
      if resultado.rows == map[] {
        resultado := c190.value;
      } else {
        resultado := Merge(resultado, c190.value, "_190");
      }
    }
    if nomC.value.rows != map[] {
      if resultado.rows == map[] {
        resultado := nomC.value;
      } else {
        resultado := Merge(resultado, nomC.value, "_NOM");
      }
    }
    if resultado.rows != map[] {
      resultado := Keyed(UnifiedCol, resultado.cols, resultado.rows);
      resultado := Keyed(resultado.key, Filter(resultado.cols, Dropped), map k | k in resultado.rows :: resultado.rows[k] - Dropped);
    }
    board := Shown(resultado);
  }

  /** The keys present in a source as the unification sees it: none for an empty table. */
  function SourceKeys(f: Frame): set<Cell> {
    if IsEmpty(f) then {} else Keys(f.rows)
  }

  /** There is nothing to show exactly when all three tables are empty. */
  lemma BoardNoData(fi: Frame, f1: Frame, fn: Frame)
    ensures BoardOf(fi, f1, fn) == NoData <==> IsEmpty(fi) && IsEmpty(f1) && IsEmpty(fn)
  {
  }

  /** The unification fails exactly when a non-empty table ends up without a join column. */
  lemma BoardKeyMissing(fi: Frame, f1: Frame, fn: Frame)
    ensures BoardOf(fi, f1, fn) == KeyMissing
            <==> !(IsEmpty(fi) && IsEmpty(f1) && IsEmpty(fn))
                 && ((!IsEmpty(fi) && JoinCol !in JoinIdc(fi).cols) || (!IsEmpty(f1) && JoinCol !in Join190(f1).cols)
                     || (!IsEmpty(fn) && JoinCol !in JoinNom(fn).cols))
  {
  }

  lemma SourceKeysConsolidar(f: Frame)
    requires Consolidar(f).Some?
    ensures Consolidar(f).value.rows.Keys == SourceKeys(f)
  {
    if !IsEmpty(f) {
      ConsolidarMeaning(f, Missing, JoinCol);
    }
  }

  /**
    The unified table has one row per identifier present in any of the three sources, under the
    key column `DNI_UNIFICADO`, and none of the dropped identifier columns survives.
  */
  lemma BoardTable(fi: Frame, f1: Frame, fn: Frame)
    requires BoardOf(fi, f1, fn).Shown?
    ensures var t := BoardOf(fi, f1, fn).t;
            t.rows.Keys == SourceKeys(JoinIdc(fi)) + SourceKeys(Join190(f1)) + SourceKeys(JoinNom(fn))
            && (t.rows != map[] ==>
                  (t.key == UnifiedCol
                   && (forall c :: c in t.cols ==> c !in Dropped)
                   && (forall k :: k in t.rows ==> t.rows[k].Keys !! Dropped)))
  {
    SourceKeysConsolidar(JoinIdc(fi));
    SourceKeysConsolidar(Join190(f1));
    SourceKeysConsolidar(JoinNom(fn));
    var ic := Consolidar(JoinIdc(fi)).value;
    var uc := Consolidar(Join190(f1)).value;
    var nc := Consolidar(JoinNom(fn)).value;
    CombineKeys(ic, uc, nc);
  }
}

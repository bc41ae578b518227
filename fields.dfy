/** One spreadsheet record and the two fail-soft field readers that the
    salary-slip renderer uses on it (`get_txt` and `get_num` in app.py). */
module Fields {
  import opened Wrappers
  import opened PyString

  /** A cell of the uploaded table as pandas hands it over: a number, the
      not-a-number value pandas puts in empty cells, or text. */
  datatype Cell = Num(n: real) | NaN | Text(s: string)

  /** One row, keyed by the exact column header. A missing key is a column
      the uploaded file does not have. */
  type Row = map<string, Cell>

  /** A Python float as `float()` may return it; "nan" and "inf" parse to
      values that are not real numbers. */
  datatype PyFloat = Finite(r: real) | FloatNaN | FloatInf(negative: bool)

  /** The Python built-ins the renderer calls but that are not modelled:
      `float(text)` (None when it raises), `str(number)` and the
      `f"{amount:,.2f}"` formatting. */
  datatype Builtins = Builtins(
    parseFloat: string -> Option<PyFloat>,
    numberText: real -> string,
    format: PyFloat -> string)

  /** `str(value)` of a cell. */
  function CellText(c: Cell, b: Builtins): string
  {
    match c
    case Num(n) => b.numberText(n)
    case NaN => "nan"
    case Text(s) => s
  }

  /** The text `str()` gives for an empty (NaN) cell. */
  const NanText := "nan"

  /** `get_txt(col)`: `str(row.get(col, ''))` with every "nan" deleted. */
  function GetTxt(row: Row, col: string, b: Builtins): (r: string)
    ensures col !in row || row[col] == NaN ==> r == ""
    ensures |r| <= |if col in row then CellText(row[col], b) else ""|
  {
    var raw := if col in row then CellText(row[col], b) else "";
    DeleteNoLonger(raw, NanText);
    Replace(raw, NanText, "")
  }

  /** `get_num(col)`: the default 0 for a missing column, 0.0 for an empty
      (NaN) cell, otherwise `float(value)`, and 0.0 when that raises. */
  function GetNum(row: Row, col: string, b: Builtins): (r: PyFloat)
    ensures r != Finite(0.0) ==> col in row && !row[col].NaN?
    ensures !r.Finite? ==> col in row && row[col].Text? && b.parseFloat(row[col].s) == Some(r)
    ensures col in row && row[col].Num? ==> r == Finite(row[col].n)
    ensures col in row && row[col].Text? && b.parseFloat(row[col].s).Some? ==> r == b.parseFloat(row[col].s).value
    ensures col in row && row[col].Text? && b.parseFloat(row[col].s).None? ==> r == Finite(0.0)
  {
    var val := if col in row then row[col] else Num(0.0);
    match val
    case NaN => Finite(0.0)
    case Num(n) => Finite(n)
    case Text(s) =>
      match b.parseFloat(s)
      case None => Finite(0.0)
      case Some(v) => v
  }

  /** Python's `amount != 0`: true for NaN and the infinities. */
  predicate NonZero(a: PyFloat)
  {
    !(a.Finite? && a.r == 0.0)
  }

  /** A text cell that `float()` rejects reads as 0.0; `get_num` never fails. */
  lemma GetNumUnparsableIsZero(row: Row, col: string, b: Builtins)
    requires col in row && row[col].Text? && b.parseFloat(row[col].s) == None
    ensures GetNum(row, col, b) == Finite(0.0) && !NonZero(GetNum(row, col, b))
  {
  }

  /** The NaN test only catches empty cells: a text cell goes to `float()`,
      and when that yields a NaN or an infinity (as it does for "NAN" or
      "inf") the amount is non-zero. */
  lemma NonFiniteTextIsNonZero(row: Row, col: string, b: Builtins, v: PyFloat)
    requires col in row && row[col].Text? && b.parseFloat(row[col].s) == Some(v)
    requires !v.Finite?
    ensures GetNum(row, col, b) == v && NonZero(GetNum(row, col, b))
  {
  }

  /** `get_txt` returns `str(value)` unchanged exactly when it holds no "nan". */
  lemma GetTxtUnchangedIffNoNan(row: Row, col: string, b: Builtins)
    requires col in row
    ensures GetTxt(row, col, b) == CellText(row[col], b) <==> !Contains(CellText(row[col], b), NanText)
  {
    DeleteChangesIffFound(CellText(row[col], b), NanText);
  }

  /** `get_txt` is `str(value)` with its "nan"-separated pieces glued
      together, and no piece contains "nan". */
  lemma GetTxtJoinsPieces(row: Row, col: string, b: Builtins)
    requires col in row
    ensures var pieces := Split(CellText(row[col], b), NanText);
      GetTxt(row, col, b) == Join(pieces, "") &&
      Join(pieces, NanText) == CellText(row[col], b) &&
      forall k :: 0 <= k < |pieces| ==> !Contains(pieces[k], NanText)
  {
    var raw := CellText(row[col], b);
    ReplaceIsJoinOfSplit(raw, NanText, "");
    SplitJoinRoundTrip(raw, NanText);
    SplitPiecesFree(raw, NanText);
  }

  /** The deletion is not limited to whole values: a name that contains
      "nan" loses it. */
  lemma NameLosesNan(b: Builtins)
    ensures GetTxt(map["Rider Name" := Text("Ananya")], "Rider Name", b) == "Aya"
  {
  }

  /** One pass only: deleting can create a new "nan" out of the pieces
      around the one removed. */
  lemma DeletionIsSinglePass(b: Builtins)
    ensures GetTxt(map["City" := Text("nnanan")], "City", b) == NanText
  {
  }
}

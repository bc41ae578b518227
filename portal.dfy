/** The login step of the portal: the identifier and password columns are
    turned into text with every ".0" deleted, and the rider is the first
    row whose two normalised fields equal what was typed. */
module Portal {
  import opened PyString
  import opened Fields

  const IdColumn := "Rider ID"
  const PasswordColumn := "Password"
  const NameColumn := "Rider Name"
  const DotZero := ".0"

  /** The uploaded table: its (stripped) headers and its rows. */
  datatype Table = Table(columns: set<string>, rows: seq<Row>)

  /** What a submitted login form leads to. */
  datatype Outcome =
    | FileError              // the generic handler: no "Rider ID" column, or a
                             // rider found in a table without "Rider Name"
    | MissingPasswordColumn  // the table has no "Password" column
    | Found(rider: Row)      // the first matching row, with its normalised fields
    | InvalidCredentials     // no row matches and something was typed
    | NoMessage              // no row matches and both inputs are empty

  /** A cell as the table holds it; pandas fills a short row with NaN. */
  function CellAt(row: Row, col: string): Cell
  {
    if col in row then row[col] else NaN
  }

  /** `.astype(str).str.replace('.0', '')` on one cell. */
  function Normalise(row: Row, col: string, b: Builtins): (r: string)
    ensures |r| <= |CellText(CellAt(row, col), b)|
  {
    var raw := CellText(CellAt(row, col), b);
    DeleteNoLonger(raw, DotZero);
    Replace(raw, DotZero, "")
  }

  /** The row after both columns have been rewritten in place. */
  function NormaliseRow(row: Row, b: Builtins): (r: Row)
    ensures r.Keys == row.Keys + {IdColumn, PasswordColumn}
    ensures r[IdColumn] == Text(Normalise(row, IdColumn, b))
    ensures r[PasswordColumn] == Text(Normalise(row, PasswordColumn, b))
    ensures forall col :: col in row && col != IdColumn && col != PasswordColumn ==> r[col] == row[col]
  {
    row[IdColumn := Text(Normalise(row, IdColumn, b))][PasswordColumn := Text(Normalise(row, PasswordColumn, b))]
  }

  /** `(df['Rider ID'] == uid) & (df['Password'] == pwd)` for one row. */
  predicate Accepts(row: Row, uid: string, pwd: string, b: Builtins)
  {
    Normalise(row, IdColumn, b) == uid && Normalise(row, PasswordColumn, b) == pwd
  }

  /** `df[...]`: the accepted rows, normalised, in table order. */
  function Matching(rows: seq<Row>, uid: string, pwd: string, b: Builtins): (m: seq<Row>)
    ensures |m| <= |rows|
    ensures forall k :: 0 <= k < |m| ==>
      IdColumn in m[k] && m[k][IdColumn] == Text(uid) &&
      PasswordColumn in m[k] && m[k][PasswordColumn] == Text(pwd)
  {
    if rows == [] then []
    else
      (if Accepts(rows[0], uid, pwd, b) then [NormaliseRow(rows[0], b)] else [])
        + Matching(rows[1..], uid, pwd, b)
  }

  /** app.py:151-187 once the form is submitted. */
  function Login(t: Table, uid: string, pwd: string, b: Builtins): (r: Outcome)
    ensures r.Found? ==> IdColumn in r.rider && r.rider[IdColumn] == Text(uid) &&
                         PasswordColumn in r.rider && r.rider[PasswordColumn] == Text(pwd)
    ensures r == FileError <==>
      IdColumn !in t.columns ||
      (PasswordColumn in t.columns && NameColumn !in t.columns && |Matching(t.rows, uid, pwd, b)| > 0)
    ensures r == MissingPasswordColumn <==> IdColumn in t.columns && PasswordColumn !in t.columns
    ensures r == NoMessage ==> uid == "" && pwd == ""
  {
    if IdColumn !in t.columns then FileError
    else if PasswordColumn !in t.columns then MissingPasswordColumn
    else
      var user := Matching(t.rows, uid, pwd, b);
      if |user| > 0 then (if NameColumn in t.columns then Found(user[0]) else FileError)
      else if uid != "" || pwd != "" then InvalidCredentials
      else NoMessage
  }

  /** The filter is empty exactly when no row accepts the credentials. */
  lemma {:induction false} MatchingEmptyIffNoneAccepts(rows: seq<Row>, uid: string, pwd: string, b: Builtins)
    ensures |Matching(rows, uid, pwd, b)| == 0 <==> forall i :: 0 <= i < |rows| ==> !Accepts(rows[i], uid, pwd, b)
    decreases |rows|
  {
    if rows != [] {
      MatchingEmptyIffNoneAccepts(rows[1..], uid, pwd, b);
      if !Accepts(rows[0], uid, pwd, b) && |Matching(rows[1..], uid, pwd, b)| == 0 {
        forall i | 0 <= i < |rows| ensures !Accepts(rows[i], uid, pwd, b) {
          if i > 0 {
            assert rows[i] == rows[1..][i - 1];
          }
        }
      }
      if |Matching(rows[1..], uid, pwd, b)| != 0 {
        var i :| 0 <= i < |rows[1..]| && Accepts(rows[1..][i], uid, pwd, b);
        assert Accepts(rows[i + 1], uid, pwd, b);
      }
    }
  }

  /** The head of the filter is the first accepting row, normalised. */
  lemma {:induction false} MatchingHeadIsFirst(rows: seq<Row>, uid: string, pwd: string, b: Builtins, i: nat)
    requires i < |rows| && Accepts(rows[i], uid, pwd, b)
    requires forall j :: 0 <= j < i ==> !Accepts(rows[j], uid, pwd, b)
    ensures |Matching(rows, uid, pwd, b)| > 0
    ensures Matching(rows, uid, pwd, b)[0] == NormaliseRow(rows[i], b)
    decreases i
  {
    if i > 0 {
      assert !Accepts(rows[0], uid, pwd, b);
      forall j | 0 <= j < i - 1 ensures !Accepts(rows[1..][j], uid, pwd, b) {
        assert rows[1..][j] == rows[j + 1];
      }
      MatchingHeadIsFirst(rows[1..], uid, pwd, b, i - 1);
    }
  }

  /** With both columns present, the rider found is the first row whose
      normalised identifier and password equal the typed ones; the slip is
      generated from that row with its rewritten fields. */
  lemma LoginFindsFirstMatch(t: Table, uid: string, pwd: string, b: Builtins, i: nat)
    requires IdColumn in t.columns && PasswordColumn in t.columns && NameColumn in t.columns
    requires i < |t.rows| && Accepts(t.rows[i], uid, pwd, b)
    requires forall j :: 0 <= j < i ==> !Accepts(t.rows[j], uid, pwd, b)
    ensures Login(t, uid, pwd, b) == Found(NormaliseRow(t.rows[i], b))
    ensures Login(t, uid, pwd, b).rider[IdColumn] == Text(uid)
    ensures Login(t, uid, pwd, b).rider[PasswordColumn] == Text(pwd)
  {
    MatchingHeadIsFirst(t.rows, uid, pwd, b, i);
  }

  /** A rider is found exactly when the three columns exist and some row
      accepts. */
  lemma LoginFoundIffSomeRowAccepts(t: Table, uid: string, pwd: string, b: Builtins)
    ensures Login(t, uid, pwd, b).Found? <==>
      IdColumn in t.columns && PasswordColumn in t.columns && NameColumn in t.columns &&
      exists i :: 0 <= i < |t.rows| && Accepts(t.rows[i], uid, pwd, b)
  {
    MatchingEmptyIffNoneAccepts(t.rows, uid, pwd, b);
  }

  /** Greeting a found rider reads the "Rider Name" column; without it the
      lookup raises and the generic file error is shown instead of a slip. */
  lemma FoundWithoutNameIsFileError(t: Table, uid: string, pwd: string, b: Builtins, i: nat)
    requires IdColumn in t.columns && PasswordColumn in t.columns && NameColumn !in t.columns
    requires i < |t.rows| && Accepts(t.rows[i], uid, pwd, b)
    ensures Login(t, uid, pwd, b) == FileError
  {
    MatchingEmptyIffNoneAccepts(t.rows, uid, pwd, b);
  }

  /** "Invalid ID or Password" is shown only when no row accepts and at
      least one of the two inputs is non-empty. */
  lemma LoginRejectsOnlyWithoutMatch(t: Table, uid: string, pwd: string, b: Builtins)
    ensures Login(t, uid, pwd, b) == InvalidCredentials <==>
      IdColumn in t.columns && PasswordColumn in t.columns &&
      (forall i :: 0 <= i < |t.rows| ==> !Accepts(t.rows[i], uid, pwd, b)) &&
      (uid != "" || pwd != "")
  {
    MatchingEmptyIffNoneAccepts(t.rows, uid, pwd, b);
  }

  /** Stored credentials without ".0" are accepted when typed exactly. */
  lemma CleanCredentialsAccepted(row: Row, b: Builtins)
    requires !Contains(CellText(CellAt(row, IdColumn), b), DotZero)
    requires !Contains(CellText(CellAt(row, PasswordColumn), b), DotZero)
    ensures Accepts(row, CellText(CellAt(row, IdColumn), b), CellText(CellAt(row, PasswordColumn), b), b)
  {
    ReplaceAbsent(CellText(CellAt(row, IdColumn), b), DotZero, "");
    ReplaceAbsent(CellText(CellAt(row, PasswordColumn), b), DotZero, "");
  }

  /** An identifier pandas read as a float, "1234.0", is repaired to "1234". */
  lemma DotZeroRepairsFloatId()
    ensures Replace("1234.0", DotZero, "") == "1234"
  {
  }

  /** The deletion is literal and not limited to a trailing ".0": "10.05"
      becomes "105". */
  lemma DotZeroDeletedAnywhere()
    ensures Replace("10.05", DotZero, "") == "105"
  {
  }

  /** A stored password "a.0b" is matched by typing "ab" and not by typing
      it as stored. */
  lemma DotZeroPasswordExample(b: Builtins)
    ensures var row := map[IdColumn := Text("7"), PasswordColumn := Text("a.0b")];
      Accepts(row, "7", "ab", b) && !Accepts(row, "7", "a.0b", b)
  {
  }

  /** The identifier printed on the slip of a found rider is what was
      typed, unless that contains "nan". */
  lemma SlipShowsTypedId(t: Table, uid: string, pwd: string, b: Builtins)
    requires Login(t, uid, pwd, b).Found?
    requires !Contains(uid, NanText)
    ensures GetTxt(Login(t, uid, pwd, b).rider, IdColumn, b) == uid
  {
    ReplaceAbsent(uid, NanText, "");
  }
}

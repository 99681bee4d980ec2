/** Turning the cell matrices read from the spreadsheet into records. A
    matrix is `None` when the range holds no values; the Sheets API drops
    trailing empty cells, so rows can be shorter than the range is wide.
    Every list lookup the original makes without a bounds check becomes an
    `IndexOutOfRange` failure here.
 */
module SheetParser {
  import opened Wrappers
  import opened Records
  import opened Numbers
  import opened ClaimList
  import opened SeqFacts

  type Matrix = seq<seq<string>>

  // ------------------------------------------------------------ cover page

  const AgentName := "Agent Name"

  /** GetCoverPage: rows 0, 1 and 2 of "Cover Page!B1:B3" are the title,
      the patent number and the inventor; the preparer is a constant. */
  function GetCoverPage(matrix: Option<Matrix>): (r: Result<CoverPage>)
    ensures matrix.None? ==> r == Failure(NullReference)
    ensures r.Success? <==>
              matrix.Some? && |matrix.value| >= 3
              && forall i :: 0 <= i < 3 ==> |matrix.value[i]| >= 1
    ensures r.Success? ==>
              && r.value.title == matrix.value[0][0]
              && r.value.patentNo == matrix.value[1][0]
              && r.value.inventor == matrix.value[2][0]
              && r.value.preparedBy == AgentName
  {
    if matrix.None? then Failure(NullReference)
    else
      var m := matrix.value;
      if |m| < 1 || |m[0]| < 1 then Failure(IndexOutOfRange)
      else if |m| < 2 || |m[1]| < 1 then Failure(IndexOutOfRange)
      else if |m| < 3 || |m[2]| < 1 then Failure(IndexOutOfRange)
      else Success(CoverPage(m[0][0], AgentName, m[2][0], m[1][0]))
  }

  /** GetAbstract: the single cell of "Abstract!B5". */
  function GetAbstract(matrix: Option<Matrix>): (r: Result<string>)
    ensures r.Success? <==> matrix.Some? && |matrix.value| >= 1 && |matrix.value[0]| >= 1
    ensures r.Success? ==> r.value == matrix.value[0][0]
  {
    if matrix.None? then Failure(NullReference)
    else if |matrix.value| < 1 || |matrix.value[0]| < 1 then Failure(IndexOutOfRange)
    else Success(matrix.value[0][0])
  }

  // -------------------------------------------------- classification codes

  /** GetClassificationCodes: column 0 is the code, column 1 the definition,
      one record per row in sheet order; a row without a second cell fails. */
  function GetClassificationCodes(matrix: Option<Matrix>): (r: Result<seq<ClassificationCode>>)
    ensures matrix.None? ==> r == Success([])
    ensures matrix.Some? ==>
              (r.Success? <==> forall i :: 0 <= i < |matrix.value| ==> |matrix.value[i]| >= 2)
    ensures matrix.Some? && r.Success? ==>
              && |r.value| == |matrix.value|
              && forall i :: 0 <= i < |r.value| ==>
                   r.value[i] == ClassificationCode(matrix.value[i][0], matrix.value[i][1])
  {
    if matrix.None? then Success([]) else CodesFrom(matrix.value)
  }

  function CodesFrom(rows: Matrix): (r: Result<seq<ClassificationCode>>)
    ensures r.Success? <==> forall i :: 0 <= i < |rows| ==> |rows[i]| >= 2
    ensures r.Success? ==>
              && |r.value| == |rows|
              && forall i :: 0 <= i < |rows| ==> r.value[i] == ClassificationCode(rows[i][0], rows[i][1])
  {
    if rows == [] then Success([])
    else if |rows[0]| < 2 then Failure(IndexOutOfRange)
    else
      match CodesFrom(rows[1..])
      case Failure(e) => Failure(e)
      case Success(rest) => Success([ClassificationCode(rows[0][0], rows[0][1])] + rest)
  }

  // --------------------------------------------------------------- claims

  /** `char.IsWhiteSpace`: the space, line and paragraph separators of
      Unicode, the controls U+0009 to U+000D, and U+0085. */
  predicate IsWhiteSpace(c: char) {
    || c == ' ' || '\t' <= c <= '\r' || c == '\U{0085}' || c == '\U{00A0}'
    || c == '\U{1680}' || '\U{2000}' <= c <= '\U{200A}' || c == '\U{2028}' || c == '\U{2029}'
    || c == '\U{202F}' || c == '\U{205F}' || c == '\U{3000}'
  }

  /** `string.IsNullOrWhiteSpace` of a present cell. */
  predicate IsBlank(cell: string) {
    forall k :: 0 <= k < |cell| ==> IsWhiteSpace(cell[k])
  }

  /** The column of the first non-blank cell of a row, if any. */
  function FirstMarker(row: seq<string>): (j: Option<nat>)
    ensures j.None? <==> forall k :: 0 <= k < |row| ==> IsBlank(row[k])
    ensures j.Some? ==> j.value < |row| && !IsBlank(row[j.value])
                        && forall k :: 0 <= k < j.value ==> IsBlank(row[k])
  {
    if row == [] then None
    else if !IsBlank(row[0]) then Some(0)
    else
      match FirstMarker(row[1..])
      case None => None
      case Some(j) => Some(j + 1)
  }

  /** A cell holding only an ideographic space is blank, so the marker is
      looked for in the next column. */
  lemma FirstMarkerSkipsUnicodeSpace()
    ensures FirstMarker(["\U{3000}", "1", "B"]) == Some(1)
  {
    assert IsBlank("\U{3000}") by { assert IsWhiteSpace("\U{3000}"[0]); }
    assert !IsBlank("1") by { assert !IsWhiteSpace("1"[0]); }
    assert ["\U{3000}", "1", "B"][1..] == ["1", "B"];
    assert FirstMarker(["1", "B"]) == Some(0);
  }

  datatype ListIndentInfo = ListIndentInfo(l1Parent: int, l2Parent: int)

  /** GetListIndent: the dotted marker "a.b" names level-1 parent a and
      level-2 parent b; pieces after the second are ignored; a missing second
      piece leaves the level-2 parent 0. The second piece is parsed first. */
  function GetListIndent(indent: string): (r: Result<ListIndentInfo>)
    ensures var parts := Split(indent);
            r.Success? <==> ParseInt(parts[0]).Success? && (|parts| > 1 ==> ParseInt(parts[1]).Success?)
  {
    var parts := Split(indent);
    var l2 :- if |parts| > 1 then ParseInt(parts[1]) else Success(0);
    var l1 :- ParseInt(parts[0]);
    Success(ListIndentInfo(l1, l2))
  }

  lemma ListIndentTwoParts(a: int, b: int)
    requires InInt32(a) && InInt32(b)
    ensures GetListIndent(IntToString(a) + "." + IntToString(b)) == Success(ListIndentInfo(a, b))
  {
    SplitAtFirstDot(IntToString(a), IntToString(b));
    ParseIntToString(a);
    ParseIntToString(b);
  }

  lemma ListIndentOnePart(a: int)
    requires InInt32(a)
    ensures GetListIndent(IntToString(a)) == Success(ListIndentInfo(a, 0))
  {
    ParseIntToString(a);
  }

  /** Only the first two pieces are read. */
  lemma ListIndentIgnoresRest(x: string, y: string, rest: string)
    requires '.' !in x && '.' !in y
    ensures GetListIndent(x + "." + y + "." + rest) == GetListIndent(x + "." + y)
  {
    var long := x + "." + y + "." + rest;
    assert long == x + "." + (y + "." + rest);
    SplitAtFirstDot(x, y + "." + rest);
    SplitAtFirstDot(y, rest);
    SplitAtFirstDot(x, y);
    var p := Split(long);
    var q := Split(x + "." + y);
    assert |p| > 1 && p[0] == x && p[1] == y;
    assert |q| > 1 && q[0] == x && q[1] == y;
  }

  /** A trailing dot leaves an empty second piece, which does not parse. */
  lemma ListIndentTrailingDot(x: string)
    requires '.' !in x
    ensures GetListIndent(x + ".") == Failure(FormatError)
  {
    SplitAtFirstDot(x, "");
    assert x + "." + "" == x + ".";
  }

  /** The claim `claims[a].children[b]` exists. */
  predicate HasChild(claims: seq<Claim>, a: int, b: int) {
    0 <= a < |claims| && 0 <= b < |claims[a].children|
  }

  /** `list[a].Children.Add(c)`: only slot `a` changes, by one more child;
      a missing slot is a failure. */
  function AddChild(forest: seq<Claim>, a: int, c: Claim): (r: Result<seq<Claim>>)
    ensures r.Success? <==> 0 <= a < |forest|
    ensures r.Success? ==>
              && |r.value| == |forest|
              && r.value[a] == forest[a].(children := forest[a].children + [c])
              && forall k :: 0 <= k < |forest| && k != a ==> r.value[k] == forest[k]
  {
    if 0 <= a < |forest| then Success(forest[a := forest[a].(children := forest[a].children + [c])])
    else Failure(IndexOutOfRange)
  }

  /** `list[a].Children[b].Children.Add(c)`: only the claim at (a, b) changes,
      by one more child; a missing parent is a failure. */
  function AddGrandchild(forest: seq<Claim>, a: int, b: int, c: Claim): (r: Result<seq<Claim>>)
    ensures r.Success? <==> HasChild(forest, a, b)
    ensures r.Success? ==>
              && |r.value| == |forest|
              && (forall k :: 0 <= k < |forest| && k != a ==> r.value[k] == forest[k])
              && r.value[a].level == forest[a].level
              && r.value[a].content == forest[a].content
              && |r.value[a].children| == |forest[a].children|
              && (forall k :: 0 <= k < |forest[a].children| && k != b ==>
                    r.value[a].children[k] == forest[a].children[k])
              && var p := forest[a].children[b];
                 r.value[a].children[b] == p.(children := p.children + [c])
  {
    if HasChild(forest, a, b) then
      var p := forest[a].children[b];
      Success(forest[a := forest[a].(children := forest[a].children[b := p.(children := p.children + [c])])])
    else Failure(IndexOutOfRange)
  }

  /** One row of GetClaims. The first non-blank cell is the marker, its column
      the level, the next cell the text (read before the level is looked at). */
  function AddClaimRow(forest: seq<Claim>, row: seq<string>): (r: Result<seq<Claim>>)
    ensures FirstMarker(row).None? ==> r == Success(forest)
    ensures FirstMarker(row).Some? ==>
              var j := FirstMarker(row).value;
              && (j + 1 >= |row| ==> r == Failure(IndexOutOfRange))
              && (j + 1 < |row| && j >= 3 ==> r == Success(forest))
              && (j + 1 < |row| && j == 0 ==> r == Success(forest + [Claim(L1, row[1], [])]))
  {
    match FirstMarker(row)
    case None => Success(forest)
    case Some(j) =>
      if j + 1 >= |row| then Failure(IndexOutOfRange)
      else
        var text := row[j + 1];
        match LevelOf(j)
        case None => Success(forest)
        case Some(level) => PlaceClaim(forest, level, row[j], text)
  }

  /** The branch on the level: an L1 claim is appended to the forest, an L2
      or L3 claim goes under the parent its marker names. */
  function PlaceClaim(forest: seq<Claim>, level: IndentLevel, marker: string, text: string): Result<seq<Claim>> {
    var c := Claim(level, text, []);
    match level
    case L1 => Success(forest + [c])
    case L2 =>
      var info :- GetListIndent(marker);
      AddChild(forest, info.l1Parent - 1, c)
    case L3 =>
      var info :- GetListIndent(marker);
      AddGrandchild(forest, info.l1Parent - 1, info.l2Parent - 1, c)
  }

  /** A level-2 row (marker in column 1, text in column 2) adds the text as
      the last child of the top-level claim its marker numbers from 1. A
      marker that does not parse fails with the parse's fault, and a parent
      number outside the forest fails as an out-of-range index. */
  lemma AddClaimRowChild(forest: seq<Claim>, row: seq<string>)
    requires FirstMarker(row) == Some(1) && 2 < |row|
    ensures var r := AddClaimRow(forest, row);
            var info := GetListIndent(row[1]);
            var found := info.Success? && 1 <= info.value.l1Parent <= |forest|;
            && (r.Success? <==> found)
            && (r.Failure? ==> r.error == if info.Failure? then info.error else IndexOutOfRange)
            && (found ==>
                  var a := info.value.l1Parent - 1;
                  r.value == forest[a := forest[a].(children := forest[a].children + [Claim(L2, row[2], [])])])
  {
    AddClaimRowPlaces(forest, row, 1);
    PlaceChild(forest, row[1], row[2], AddClaimRow(forest, row));
  }

  /** A marker in one of the first three columns with a text cell after it
      places that text at the column's level. */
  lemma AddClaimRowPlaces(forest: seq<Claim>, row: seq<string>, j: nat)
    requires FirstMarker(row) == Some(j) && j < 3 && j + 1 < |row|
    ensures LevelOf(j).Some?
    ensures AddClaimRow(forest, row) == PlaceClaim(forest, LevelOf(j).value, row[j], row[j + 1])
  {
    assert LevelOf(j) == Some(if j == 0 then L1 else if j == 1 then L2 else L3);
  }

  lemma PlaceChild(forest: seq<Claim>, marker: string, text: string, r: Result<seq<Claim>>)
    requires r == PlaceClaim(forest, L2, marker, text)
    ensures var info := GetListIndent(marker);
            var found := info.Success? && 1 <= info.value.l1Parent <= |forest|;
            && (r.Success? <==> found)
            && (r.Failure? ==> r.error == if info.Failure? then info.error else IndexOutOfRange)
            && (found ==>
                  var a := info.value.l1Parent - 1;
                  r.value == forest[a := forest[a].(children := forest[a].children + [Claim(L2, text, [])])])
  {
    var info := GetListIndent(marker);
    if info.Success? {
      assert r == AddChild(forest, info.value.l1Parent - 1, Claim(L2, text, []));
    } else {
      assert r == Failure(info.error);
    }
  }

  /** A level-3 row (marker in column 2, text in column 3) adds the text as
      the last child of the level-2 claim "a.b" names, both numbered from 1;
      nothing else in the forest changes. A marker that does not parse fails
      with the parse's fault, a missing parent as an out-of-range index. */
  lemma AddClaimRowGrandchild(forest: seq<Claim>, row: seq<string>)
    requires FirstMarker(row) == Some(2) && 3 < |row|
    ensures var r := AddClaimRow(forest, row);
            var info := GetListIndent(row[2]);
            var found := info.Success? && HasChild(forest, info.value.l1Parent - 1, info.value.l2Parent - 1);
            && (r.Success? <==> found)
            && (r.Failure? ==> r.error == if info.Failure? then info.error else IndexOutOfRange)
            && (found ==>
                  var a := info.value.l1Parent - 1;
                  var b := info.value.l2Parent - 1;
                  var p := forest[a].children[b];
                  r.value == forest[a := forest[a].(children := forest[a].children[b := p.(children := p.children + [Claim(L3, row[3], [])])])])
  {
    AddClaimRowPlaces(forest, row, 2);
    PlaceGrandchild(forest, row[2], row[3], AddClaimRow(forest, row));
  }

  lemma PlaceGrandchild(forest: seq<Claim>, marker: string, text: string, r: Result<seq<Claim>>)
    requires r == PlaceClaim(forest, L3, marker, text)
    ensures var info := GetListIndent(marker);
            var found := info.Success? && HasChild(forest, info.value.l1Parent - 1, info.value.l2Parent - 1);
            && (r.Success? <==> found)
            && (r.Failure? ==> r.error == if info.Failure? then info.error else IndexOutOfRange)
            && (found ==>
                  var a := info.value.l1Parent - 1;
                  var b := info.value.l2Parent - 1;
                  var p := forest[a].children[b];
                  r.value == forest[a := forest[a].(children := forest[a].children[b := p.(children := p.children + [Claim(L3, text, [])])])])
  {
    var info := GetListIndent(marker);
    if info.Success? {
      assert r == AddGrandchild(forest, info.value.l1Parent - 1, info.value.l2Parent - 1, Claim(L3, text, []));
    } else {
      assert r == Failure(info.error);
    }
  }

  /** The rows folded in sheet order into the forest. */
  function ClaimsFrom(forest: seq<Claim>, rows: Matrix): Result<seq<Claim>>
    decreases |rows|
  {
    if rows == [] then Success(forest)
    else
      var next :- AddClaimRow(forest, rows[0]);
      ClaimsFrom(next, rows[1..])
  }

  /** GetClaims over "Claims!B4:E". */
  function GetClaims(matrix: Option<Matrix>): Result<seq<Claim>> {
    if matrix.None? then Success([]) else ClaimsFrom([], matrix.value)
  }

  /** Every row keeps the forest in its three-level shape. */
  lemma AddChildWellLeveled(forest: seq<Claim>, a: int, c: Claim)
    requires WellLeveled(forest, L1) && Leveled(c, L2)
    ensures AddChild(forest, a, c).Success? ==> WellLeveled(AddChild(forest, a, c).value, L1)
  {
    if 0 <= a < |forest| {
      assert Leveled(forest[a], L1);
      LeveledAppend(forest[a].children, L2, c);
      LeveledUpdate(forest, L1, a, forest[a].(children := forest[a].children + [c]));
    }
  }

  lemma AddGrandchildWellLeveled(forest: seq<Claim>, a: int, b: int, c: Claim)
    requires WellLeveled(forest, L1) && Leveled(c, L3)
    ensures AddGrandchild(forest, a, b, c).Success? ==> WellLeveled(AddGrandchild(forest, a, b, c).value, L1)
  {
    if HasChild(forest, a, b) {
      var p := forest[a].children[b];
      var p' := p.(children := p.children + [c]);
      assert Leveled(forest[a], L1);
      assert WellLeveled(forest[a].children, L2);
      assert Leveled(p, L2);
      LeveledAppend(p.children, L3, c);
      LeveledUpdate(forest[a].children, L2, b, p');
      LeveledUpdate(forest, L1, a, forest[a].(children := forest[a].children[b := p']));
    }
  }

  lemma PlaceClaimWellLeveled(forest: seq<Claim>, level: IndentLevel, marker: string, text: string)
    requires WellLeveled(forest, L1)
    ensures PlaceClaim(forest, level, marker, text).Success? ==> WellLeveled(PlaceClaim(forest, level, marker, text).value, L1)
  {
    var c := Claim(level, text, []);
    var info := GetListIndent(marker);
    match level
    case L1 =>
      LeveledAppend(forest, L1, c);
    case L2 =>
      if info.Success? {
        assert PlaceClaim(forest, level, marker, text) == AddChild(forest, info.value.l1Parent - 1, c);
        AddChildWellLeveled(forest, info.value.l1Parent - 1, c);
      }
    case L3 =>
      if info.Success? {
        assert PlaceClaim(forest, level, marker, text) == AddGrandchild(forest, info.value.l1Parent - 1, info.value.l2Parent - 1, c);
        AddGrandchildWellLeveled(forest, info.value.l1Parent - 1, info.value.l2Parent - 1, c);
      }
  }

  lemma AddClaimRowWellLeveled(forest: seq<Claim>, row: seq<string>)
    requires WellLeveled(forest, L1)
    ensures AddClaimRow(forest, row).Success? ==> WellLeveled(AddClaimRow(forest, row).value, L1)
  {
    var marker := FirstMarker(row);
    if marker.Some? && marker.value + 1 < |row| && LevelOf(marker.value).Some? {
      var j := marker.value;
      PlaceClaimWellLeveled(forest, LevelOf(j).value, row[j], row[j + 1]);
    }
  }

  lemma {:induction false} ClaimsFromWellLeveled(forest: seq<Claim>, rows: Matrix)
    requires WellLeveled(forest, L1)
    ensures ClaimsFrom(forest, rows).Success? ==> WellLeveled(ClaimsFrom(forest, rows).value, L1)
    decreases |rows|
  {
    if rows != [] {
      AddClaimRowWellLeveled(forest, rows[0]);
      var next := AddClaimRow(forest, rows[0]);
      if next.Success? {
        ClaimsFromWellLeveled(next.value, rows[1..]);
      }
    }
  }

  /** GetClaims builds a strict three-level forest: top-level claims are L1,
      their children L2, grandchildren L3 and nothing deeper. */
  lemma GetClaimsWellLeveled(matrix: Option<Matrix>)
    ensures GetClaims(matrix).Success? ==> WellLeveled(GetClaims(matrix).value, L1)
  {
    if matrix.Some? {
      ClaimsFromWellLeveled([], matrix.value);
    }
  }

  /** The markers of the worked example's rows: columns 0, 1 and 0, and the
      column-1 indent "1" reads as parent 1. */
  lemma ExampleMarkers()
    ensures FirstMarker(["1", "A"]) == Some(0)
    ensures FirstMarker(["", "1", "B"]) == Some(1)
    ensures FirstMarker(["2", "C"]) == Some(0)
    ensures GetListIndent("1") == Success(ListIndentInfo(1, 0))
  {
    assert !IsBlank("1") by { assert !IsWhiteSpace("1"[0]); }
    assert !IsBlank("2") by { assert !IsWhiteSpace("2"[0]); }
    assert IsBlank("");
    assert FirstMarker(["", "1", "B"]) == Some(1) by {
      assert ["", "1", "B"][1..] == ["1", "B"];
      assert FirstMarker(["1", "B"]) == Some(0);
    }
    assert DigitChar(1) == '1';
    assert IntToString(1) == "1";
    ListIndentOnePart(1);
  }

  /** A worked sheet: "1"/A, then "1"/B in the level-2 column, then "2"/C
      gives A with the single child B, followed by C with none. */
  lemma GetClaimsExample()
    ensures GetClaims(Some([["1", "A"], ["", "1", "B"], ["2", "C"]]))
         == Success([Claim(L1, "A", [Claim(L2, "B", [])]), Claim(L1, "C", [])])
  {
    var rows: Matrix := [["1", "A"], ["", "1", "B"], ["2", "C"]];
    var b := Claim(L2, "B", []);
    var f1 := [Claim(L1, "A", [])];
    var f2 := [Claim(L1, "A", [b])];
    var f3 := [Claim(L1, "A", [b]), Claim(L1, "C", [])];
    ExampleRows();
    assert rows[1..][0] == rows[1] && rows[1..][1..] == [rows[2]] && [rows[2]][1..] == [];
    assert ClaimsFrom(f3, []) == Success(f3);
    assert ClaimsFrom(f2, [rows[2]]) == Success(f3);
    assert ClaimsFrom(f1, rows[1..]) == Success(f3);
  }

  /** The example's three rows, one at a time. */
  lemma ExampleRows()
    ensures AddClaimRow([], ["1", "A"]) == Success([Claim(L1, "A", [])])
    ensures AddClaimRow([Claim(L1, "A", [])], ["", "1", "B"]) == Success([Claim(L1, "A", [Claim(L2, "B", [])])])
    ensures AddClaimRow([Claim(L1, "A", [Claim(L2, "B", [])])], ["2", "C"])
         == Success([Claim(L1, "A", [Claim(L2, "B", [])]), Claim(L1, "C", [])])
  {
    ExampleMarkers();
    var b := Claim(L2, "B", []);
    var f1 := [Claim(L1, "A", [])];
    var f2 := [Claim(L1, "A", [b])];
    assert [] + f1 == f1;
    assert AddChild(f1, 0, b) == Success(f2) by {
      assert [] + [b] == [b];
      assert f1[0 := f1[0].(children := f1[0].children + [b])] == f2;
    }
    assert f2 + [Claim(L1, "C", [])] == [Claim(L1, "A", [b]), Claim(L1, "C", [])];
  }

  /** A level-2 row whose marker ends in a dot ("2.") is a failure, even when
      the parent exists. */
  lemma GetClaimsTrailingDotFails()
    ensures GetClaims(Some([["1", "A"], ["", "1.", "B"]])).Failure?
  {
    var rows: Matrix := [["1", "A"], ["", "1.", "B"]];
    assert !IsBlank("1") by { assert !IsWhiteSpace("1"[0]); }
    assert !IsBlank("1.") by { assert !IsWhiteSpace("1."[0]); }
    assert FirstMarker(rows[0]) == Some(0);
    assert FirstMarker(rows[1]) == Some(1) by {
      assert FirstMarker(rows[1][1..]) == Some(0);
    }
    ListIndentTrailingDot("1");
    assert "1" + "." == "1.";
  }

  // ----------------------------------------------------- application events

  /** A cell of "Application Events!A5:B" with its formatted value and link. */
  datatype CellData = CellData(formattedValue: string, hyperlink: Option<string>)

  /** A grid row; `values` is None where the SDK leaves `row.Values` null
      (a row without cells). */
  datatype RowData = RowData(values: Option<seq<CellData>>)

  /** The grid of one requested range; `rowData` is None where the SDK
      leaves it null (a range without rows). */
  datatype GridData = GridData(rowData: Option<seq<RowData>>)

  /** The sheet GetSheetRange returns, one grid per requested range. */
  datatype Sheet = Sheet(data: seq<GridData>)

  /** The cell lists of all rows, when no row's list is null. */
  function AllValues(rows: seq<RowData>): (v: Option<seq<seq<CellData>>>)
    ensures v.Some? <==> forall k :: 0 <= k < |rows| ==> rows[k].values.Some?
    ensures v.Some? ==> |v.value| == |rows| && forall k :: 0 <= k < |rows| ==> v.value[k] == rows[k].values.value
  {
    if rows == [] then Some([])
    else if rows[0].values.None? then None
    else
      match AllValues(rows[1..])
      case None => None
      case Some(rest) => Some([rows[0].values.value] + rest)
  }

  /** The rows GetApplicationEvents keeps: exactly two cells. */
  function KeptRows(rows: seq<seq<CellData>>): (kept: seq<seq<CellData>>)
    ensures forall k :: 0 <= k < |kept| ==> |kept[k]| == 2
    ensures forall row :: row in kept <==> row in rows && |row| == 2
    ensures |kept| <= |rows|
  {
    if rows == [] then []
    else if |rows[0]| != 2 then KeptRows(rows[1..])
    else [rows[0]] + KeptRows(rows[1..])
  }

  /** A single row is kept exactly when it has two cells. */
  lemma KeptRowsSingle(row: seq<CellData>)
    ensures KeptRows([row]) == if |row| == 2 then [row] else []
  {
    assert [row][1..] == [];
  }

  /** Filtering distributes over concatenation, so the kept rows keep their
      sheet order and their repetitions. */
  lemma {:induction false} KeptRowsAppend(a: seq<seq<CellData>>, b: seq<seq<CellData>>)
    ensures KeptRows(a + b) == KeptRows(a) + KeptRows(b)
  {
    if a == [] {
      assert a + b == b;
    } else {
      assert (a + b)[0] == a[0] && (a + b)[1..] == a[1..] + b;
      KeptRowsAppend(a[1..], b);
      if |a[0]| == 2 {
        ConcatAssoc([a[0]], KeptRows(a[1..]), KeptRows(b));
      }
    }
  }

  /** Every row's date cell is accepted by the date parser. */
  predicate DatesParse(rows: seq<seq<CellData>>, parseDate: string -> Option<DateTime>)
    requires forall k :: 0 <= k < |rows| ==> |rows[k]| == 2
  {
    forall k :: 0 <= k < |rows| ==> parseDate(rows[k][0].formattedValue).Some?
  }

  /** The event a kept row gives once its date has parsed. */
  function EventOf(row: seq<CellData>, date: DateTime): ApplicationEvent
    requires |row| == 2
  {
    ApplicationEvent(date, row[1].formattedValue, row[1].hyperlink)
  }

  /** A kept row in front: every date parses iff its date and the rest's do. */
  lemma DatesParseCons(row: seq<CellData>, tail: Option<seq<seq<CellData>>>, parseDate: string -> Option<DateTime>)
    requires |row| == 2
    ensures tail.Some? ==>
              (DatesParse([row] + KeptRows(tail.value), parseDate)
               <==> parseDate(row[0].formattedValue).Some? && DatesParse(KeptRows(tail.value), parseDate))
  {
    if tail.Some? {
      var rest := KeptRows(tail.value);
      var rows := [row] + rest;
      if DatesParse(rows, parseDate) {
        assert rows[0] == row;
        forall k | 0 <= k < |rest|
          ensures parseDate(rest[k][0].formattedValue).Some?
        {
          assert rest[k] == rows[k + 1];
        }
      }
      if parseDate(row[0].formattedValue).Some? && DatesParse(rest, parseDate) {
        forall k | 0 <= k < |rows|
          ensures parseDate(rows[k][0].formattedValue).Some?
        {
          if k > 0 {
            assert rows[k] == rest[k - 1];
          }
        }
      }
    }
  }

  /** A kept row in front: its event goes first, the rest's events follow. */
  lemma EventsCons(row: seq<CellData>, date: DateTime, events: seq<ApplicationEvent>,
                   rows: seq<seq<CellData>>, parseDate: string -> Option<DateTime>)
    requires |row| == 2 && parseDate(row[0].formattedValue) == Some(date)
    requires forall k :: 0 <= k < |rows| ==> |rows[k]| == 2
    requires DatesParse(rows, parseDate) && |events| == |rows|
    requires forall k :: 0 <= k < |rows| ==> events[k] == EventOf(rows[k], parseDate(rows[k][0].formattedValue).value)
    ensures var all := [row] + rows;
            && |[EventOf(row, date)] + events| == |all|
            && forall k :: 0 <= k < |all| ==>
                 ([EventOf(row, date)] + events)[k] == EventOf(all[k], parseDate(all[k][0].formattedValue).value)
  {
    var all := [row] + rows;
    assert forall k :: 1 <= k < |all| ==> all[k] == rows[k - 1];
  }

  /** The `foreach` over the rows: a null cell list throws, a row without
      exactly two cells is skipped, a date the parser rejects throws. */
  function EventRows(rows: seq<RowData>, parseDate: string -> Option<DateTime>): (r: Result<seq<ApplicationEvent>>)
    ensures r.Success? <==> AllValues(rows).Some? && DatesParse(KeptRows(AllValues(rows).value), parseDate)
    ensures r.Success? ==>
              var kept := KeptRows(AllValues(rows).value);
              && |r.value| == |kept|
              && forall k :: 0 <= k < |kept| ==>
                   r.value[k] == EventOf(kept[k], parseDate(kept[k][0].formattedValue).value)
    decreases |rows|
  {
    if rows == [] then Success([])
    else
      match rows[0].values
      case None => Failure(NullReference)
      case Some(cells) =>
        var tail := AllValues(rows[1..]);
        assert tail.Some? ==> AllValues(rows) == Some([cells] + tail.value) && ([cells] + tail.value)[1..] == tail.value;
        if |cells| != 2 then EventRows(rows[1..], parseDate)
        else
          DatesParseCons(cells, tail, parseDate);
          match parseDate(cells[0].formattedValue)
          case None => Failure(FormatError)
          case Some(date) =>
            var rest :- EventRows(rows[1..], parseDate);
            EventsCons(cells, date, rest, KeptRows(tail.value), parseDate);
            Success([EventOf(cells, date)] + rest)
  }

  /** GetApplicationEvents over "Application Events!A5:B": the first grid of
      the sheet, one event per two-cell row in sheet order, the date cell
      through `parseDate` (standing for DateTime.Parse) and the status cell
      giving the text and the hyperlink. A null sheet, grid row list or
      cell list throws NullReferenceException; a sheet without grids throws
      on `Data[0]`. */
  function GetApplicationEvents(sheet: Option<Sheet>, parseDate: string -> Option<DateTime>): (r: Result<seq<ApplicationEvent>>)
    ensures sheet.None? ==> r == Failure(NullReference)
    ensures sheet.Some? && sheet.value.data == [] ==> r == Failure(IndexOutOfRange)
    ensures sheet.Some? && sheet.value.data != [] && sheet.value.data[0].rowData.None? ==> r == Failure(NullReference)
    ensures sheet.Some? && sheet.value.data != [] && sheet.value.data[0].rowData.Some? ==>
              var rows := sheet.value.data[0].rowData.value;
              && (r.Success? <==> AllValues(rows).Some? && DatesParse(KeptRows(AllValues(rows).value), parseDate))
              && (r.Success? ==>
                    var kept := KeptRows(AllValues(rows).value);
                    && |r.value| == |kept|
                    && forall k :: 0 <= k < |kept| ==>
                         r.value[k] == EventOf(kept[k], parseDate(kept[k][0].formattedValue).value))
  {
    if sheet.None? then Failure(NullReference)
    else if sheet.value.data == [] then Failure(IndexOutOfRange)
    else
      match sheet.value.data[0].rowData
      case None => Failure(NullReference)
      case Some(rows) => EventRows(rows, parseDate)
  }

  /** A row the loop gets through: its cell list is present and, when it has
      two cells, its date parses. */
  predicate PassesRow(row: RowData, parseDate: string -> Option<DateTime>) {
    row.values.Some? && (|row.values.value| == 2 ==> parseDate(row.values.value[0].formattedValue).Some?)
  }

  /** The first row the loop cannot get through decides the fault: a null
      cell list is a NullReferenceException, a rejected date a FormatException. */
  lemma {:induction false} EventRowsFirstFault(rows: seq<RowData>, parseDate: string -> Option<DateTime>, k: nat)
    requires k < |rows| && !PassesRow(rows[k], parseDate)
    requires forall i :: 0 <= i < k ==> PassesRow(rows[i], parseDate)
    ensures EventRows(rows, parseDate) == Failure(if rows[k].values.None? then NullReference else FormatError)
    decreases k
  {
    if k > 0 {
      assert PassesRow(rows[0], parseDate);
      forall i | 0 <= i < k - 1
        ensures PassesRow(rows[1..][i], parseDate)
      {
        assert rows[1..][i] == rows[i + 1];
      }
      EventRowsFirstFault(rows[1..], parseDate, k - 1);
    }
  }
}

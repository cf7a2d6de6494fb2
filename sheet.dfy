/**
 * The active worksheet as a grid of cell values, and the two scans the
 * report engine runs over it: find_header and extract_table
 * (Diary_Library.py).  Row numbers are 1-based, as in the workbook.
 */
module Sheet {
  import opened Results
  import opened Cells

  /** The rows of the sheet, top to bottom, each holding its cell values left to right. */
  type Grid = seq<seq<Cell>>

  /** Python's `keyword in text`: `keyword` occurs as a contiguous substring of `text`. */
  predicate Contains(text: string, keyword: string)
  {
    (|keyword| <= |text| && text[..|keyword|] == keyword)
    || (text != [] && Contains(text[1..], keyword))
  }

  /** A cell find_header accepts: it is truthy and its str() contains the keyword. */
  predicate Matches(c: Cell, keyword: string)
  {
    Truthy(c) && Contains(Text(c), keyword)
  }

  /** A row find_header accepts: one of its cells matches. */
  predicate Mentions(row: seq<Cell>, keyword: string)
  {
    exists j :: 0 <= j < |row| && Matches(row[j], keyword)
  }

  /**
   * find_header: the smallest 1-based number of a row that mentions the
   * keyword, or None when no row does.
   */
  function FindHeader(ws: Grid, keyword: string): (r: Option<nat>)
    ensures r.Some? ==> 1 <= r.value <= |ws| && Mentions(ws[r.value - 1], keyword)
    ensures r.Some? ==> forall i :: 0 <= i < r.value - 1 ==> !Mentions(ws[i], keyword)
    ensures r.None? <==> forall i :: 0 <= i < |ws| ==> !Mentions(ws[i], keyword)
  {
    FindFrom(ws, keyword, 0)
  }

  /** The search of find_header resumed at 0-based row `k`. */
  function FindFrom(ws: Grid, keyword: string, k: nat): (r: Option<nat>)
    requires k <= |ws|
    ensures r.Some? ==> k + 1 <= r.value <= |ws| && Mentions(ws[r.value - 1], keyword)
    ensures r.Some? ==> forall i :: k <= i < r.value - 1 ==> !Mentions(ws[i], keyword)
    ensures r.None? <==> forall i :: k <= i < |ws| ==> !Mentions(ws[i], keyword)
    decreases |ws| - k
  {
    if k == |ws| then None
    else if Mentions(ws[k], keyword) then Some(k + 1)
    else FindFrom(ws, keyword, k + 1)
  }

  /** find_header run as the source runs it: row by row, and within a row cell by cell. */
  method FindHeaderRow(ws: Grid, keyword: string) returns (r: Option<nat>)
    ensures r == FindHeader(ws, keyword)
  {
    var i := 0;
    while i < |ws|
      invariant 0 <= i <= |ws| && FindFrom(ws, keyword, i) == FindHeader(ws, keyword)
    {
      var found := ScanCells(ws[i], keyword);
      if found {
        return Some(i + 1);
      }
      i := i + 1;
    }
    return None;
  }

  /** The inner loop of find_header: the cells of one row, left to right, until one matches. */
  method ScanCells(row: seq<Cell>, keyword: string) returns (found: bool)
    ensures found <==> Mentions(row, keyword)
  {
    var j := 0;
    while j < |row|
      invariant 0 <= j <= |row|
      invariant forall k :: 0 <= k < j ==> !Matches(row[k], keyword)
    {
      if Matches(row[j], keyword) {
        return true;
      }
      j := j + 1;
    }
    return false;
  }

  /** Cells that are falsy (None, 0, "") never match, even when their text contains the keyword. */
  lemma FalsyCellsNeverMatch(keyword: string)
    requires keyword == "0" || keyword == "None"
    ensures FindHeader([[Int(0)], [Empty]], keyword) == None
  {
    var ws := [[Int(0)], [Empty]];
    assert !Mentions(ws[0], keyword) by {
      assert !Truthy(ws[0][0]);
    }
    assert !Mentions(ws[1], keyword) by {
      assert !Truthy(ws[1][0]);
    }
  }

  /** A row whose every cell is None: the row that ends a table. */
  predicate Blank(row: seq<Cell>)
  {
    forall j :: 0 <= j < |row| ==> row[j].Empty?
  }

  /** The table read from 0-based row `k` on: rows up to the first blank one or the end of the sheet. */
  function TableFrom(ws: Grid, k: nat): seq<seq<Cell>>
    requires k <= |ws|
    decreases |ws| - k
  {
    if k == |ws| || Blank(ws[k]) then [] else [ws[k]] + TableFrom(ws, k + 1)
  }

  /** The table extract_table returns for the 1-based start row `start`. */
  function Table(ws: Grid, start: nat): seq<seq<Cell>>
    requires start >= 1
  {
    TableFrom(ws, if start - 1 <= |ws| then start - 1 else |ws|)
  }

  /**
   * `t` is the run of rows of the sheet that starts at 0-based row `s`:
   * consecutive rows, none of them blank, followed by a blank row or the
   * end of the sheet.
   */
  predicate RunAt(ws: Grid, s: nat, t: Grid)
  {
    s + |t| <= |ws| && t == ws[s..s + |t|]
    && (forall i :: 0 <= i < |t| ==> !Blank(t[i]))
    && (s + |t| == |ws| || Blank(ws[s + |t|]))
  }

  /** Dropping the first `k` rows of a run leaves the run that starts `k` rows further down. */
  lemma RunSuffix(ws: Grid, s: nat, t: Grid, k: nat)
    requires RunAt(ws, s, t) && k <= |t|
    ensures RunAt(ws, s + k, t[k..])
  {
    assert t[k..] == ws[s + k..s + |t|];
    forall i | 0 <= i < |t[k..]| ensures !Blank(t[k..][i]) {
      assert t[k..][i] == t[k + i];
    }
  }

  /**
   * What the table is: the rows from `s` on, up to and not including the
   * first blank row at or after `s`, or to the end of the sheet.
   */
  lemma {:induction false} TableFromShape(ws: Grid, k: nat)
    requires k <= |ws|
    ensures RunAt(ws, k, TableFrom(ws, k))
    decreases |ws| - k
  {
    if k < |ws| && !Blank(ws[k]) {
      TableFromShape(ws, k + 1);
      var t := TableFrom(ws, k + 1);
      assert ws[k..k + 1 + |t|] == [ws[k]] + ws[k + 1..k + 1 + |t|];
    }
  }

  /**
   * extract_table: the rows from 1-based row `start` on, up to and not
   * including the first row whose cells are all None, or to the end of the
   * sheet.  A row of empty strings is not blank and does not end the table.
   */
  method ExtractTable(ws: Grid, start: nat) returns (rows: Grid)
    requires start >= 1
    ensures rows == Table(ws, start)
    ensures RunAt(ws, if start - 1 <= |ws| then start - 1 else |ws|, rows)
  {
    var s := if start - 1 <= |ws| then start - 1 else |ws|;
    rows := [];
    var k := s;
    while k < |ws| && !Blank(ws[k])
      invariant s <= k <= |ws| && rows + TableFrom(ws, k) == TableFrom(ws, s)
    {
      rows := rows + [ws[k]];
      k := k + 1;
    }
    assert TableFrom(ws, k) == [];
    TableFromShape(ws, s);
  }

  /** A row of empty strings between two data rows is carried into the table, not taken for its end. */
  method EmptyTextRowKept() returns (rows: Grid)
    ensures rows == [[Str("a")], [Str("")], [Str("b")]]
  {
    var ws := [[Str("a")], [Str("")], [Str("b")], [Empty]];
    assert !Blank(ws[0]) && !Blank(ws[1]) && !Blank(ws[2]) by {
      assert !ws[0][0].Empty? && !ws[1][0].Empty? && !ws[2][0].Empty?;
    }
    assert Blank(ws[3]);
    rows := ExtractTable(ws, 1);
  }
}

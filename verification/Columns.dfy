/** Listing names in columns: the smallest number of rows whose columns fit the display. */
module Columns {

  /** The index of the item in a row and column: columns are filled first. */
  function Index(nrows: nat, row: nat, col: nat): (i: nat)
    ensures i == row + nrows * col
  {
    row + nrows * col
  }

  function NumColumns(size: nat, nrows: nat): nat
    requires nrows > 0
  {
    (size + nrows - 1) / nrows
  }

  function Max(a: nat, b: nat): nat {
    if a < b then b else a
  }

  /** The longest of the items in the first rows of a column. */
  ghost function Widest(items: seq<string>, nrows: nat, col: nat, rows: nat): nat {
    if rows == 0 then 0
    else if Index(nrows, rows - 1, col) < |items| then
      Max(Widest(items, nrows, col, rows - 1), |items[Index(nrows, rows - 1, col)]|)
    else Widest(items, nrows, col, rows - 1)
  }

  ghost function ColumnWidth(items: seq<string>, nrows: nat, col: nat): nat {
    Widest(items, nrows, col, nrows)
  }

  /** Where a column starts: two blanks behind the one before. */
  ghost function Offset(items: seq<string>, nrows: nat, col: nat): nat {
    if col == 0 then 0 else Offset(items, nrows, col - 1) + ColumnWidth(items, nrows, col - 1) + 2
  }

  /** Every column that holds an item ends within the display. */
  ghost predicate Fits(items: seq<string>, nrows: nat, width: int) {
    forall col: nat :: Index(nrows, 0, col) < |items| ==>
      Offset(items, nrows, col) + ColumnWidth(items, nrows, col) <= width
  }

  /** The columns are exactly those that hold an item. */
  lemma {:induction false} NumColumnsIs(size: nat, nrows: nat, col: nat)
    requires nrows > 0
    ensures col < NumColumns(size, nrows) <==> Index(nrows, 0, col) < size
  {
    var n := NumColumns(size, nrows);
    assert size + nrows - 1 == nrows * n + (size + nrows - 1) % nrows;
    if col < n {
      Product(nrows, col + 1, n);
    } else {
      Product(nrows, n, col);
    }
  }

  /** The last column ends furthest to the right. */
  lemma {:induction false} FitsIff(items: seq<string>, nrows: nat, width: int)
    requires 0 < nrows <= |items|
    ensures Fits(items, nrows, width) <==> Offset(items, nrows, NumColumns(|items|, nrows)) - 2 <= width
  {
    hide ColumnWidth, NumColumns;
    var n := NumColumns(|items|, nrows);
    SomeColumns(|items|, nrows);
    NumColumnsIs(|items|, nrows, n - 1);
    forall col: nat | Index(nrows, 0, col) < |items|
      ensures Offset(items, nrows, col) + ColumnWidth(items, nrows, col) + 2 <= Offset(items, nrows, n)
    {
      NumColumnsIs(|items|, nrows, col);
      OffsetGrows(items, nrows, col + 1, n);
    }
  }

  /** A number of rows that fits such that no smaller one does, or one row per item. */
  ghost predicate Least(items: seq<string>, nrows: nat, width: int) {
    && 1 <= nrows <= |items|
    && (nrows < |items| ==> Fits(items, nrows, width))
    && forall n :: 1 <= n < nrows ==> !Fits(items, n, width)
  }

  lemma {:induction false} WidestIsMax(items: seq<string>, nrows: nat, col: nat, rows: nat, row: nat)
    requires row < rows && Index(nrows, row, col) < |items|
    ensures |items[Index(nrows, row, col)]| <= Widest(items, nrows, col, rows)
  {
    if row < rows - 1 {
      WidestIsMax(items, nrows, col, rows - 1, row);
    }
  }

  /** No column is wider than its longest item. */
  lemma {:induction false} WidestIsAttained(items: seq<string>, nrows: nat, col: nat, rows: nat) returns (row: nat)
    requires Widest(items, nrows, col, rows) > 0
    ensures row < rows && Index(nrows, row, col) < |items|
    ensures |items[Index(nrows, row, col)]| == Widest(items, nrows, col, rows)
  {
    row := rows - 1;
    if Widest(items, nrows, col, rows) == Widest(items, nrows, col, rows - 1) {
      row := WidestIsAttained(items, nrows, col, rows - 1);
    }
  }

  lemma {:induction false} WidestPastEnd(items: seq<string>, nrows: nat, col: nat, rows: nat, row: nat)
    requires row <= rows && Index(nrows, row, col) >= |items|
    ensures Widest(items, nrows, col, rows) == Widest(items, nrows, col, row)
    decreases rows
  {
    if row < rows {
      WidestPastEnd(items, nrows, col, rows - 1, row);
    }
  }

  lemma {:induction false} OffsetGrows(items: seq<string>, nrows: nat, a: nat, b: nat)
    requires a <= b
    ensures Offset(items, nrows, a) + 2 * (b - a) <= Offset(items, nrows, b)
  {
    if a < b {
      OffsetGrows(items, nrows, a, b - 1);
    }
  }

  method MeasureColumn(items: seq<string>, nrows: nat, col: nat) returns (colwidth: nat)
    ensures colwidth == ColumnWidth(items, nrows, col)
  {
    colwidth := 0;
    var row := 0;
    while row < nrows
      invariant row <= nrows && colwidth == Widest(items, nrows, col, row)
    {
      var i := row + nrows * col;
      if i >= |items| {
        WidestPastEnd(items, nrows, col, nrows, row);
        break;
      }
      colwidth := Max(colwidth, |items[i]|);
      row := row + 1;
    }
  }

  ghost predicate Measured(items: seq<string>, nrows: nat, colwidths: seq<nat>) {
    forall c :: 0 <= c < |colwidths| ==> colwidths[c] == ColumnWidth(items, nrows, c)
  }

  /** Tries the column widths for a number of rows, giving up as soon as they exceed the display. */
  method TryRows(items: seq<string>, nrows: nat, width: int) returns (fits: bool, colwidths: seq<nat>)
    requires 0 < nrows < |items|
    ensures fits <==> Fits(items, nrows, width)
    ensures fits ==> |colwidths| == NumColumns(|items|, nrows) && Measured(items, nrows, colwidths)
  {
    hide Fits;
    var ncols := NumColumns(|items|, nrows);
    SomeColumns(|items|, nrows);
    FitsIff(items, nrows, width);
    var totwidth := -2;
    colwidths := [];
    while |colwidths| < ncols
      invariant |colwidths| <= ncols && Measured(items, nrows, colwidths)
      invariant totwidth == Offset(items, nrows, |colwidths|) - 2
      invariant |colwidths| > 0 ==> totwidth <= width
    {
      var colwidth := MeasureColumn(items, nrows, |colwidths|);
      colwidths := colwidths + [colwidth];
      totwidth := totwidth + (colwidth + 2);
      if totwidth > width {
        OffsetGrows(items, nrows, |colwidths|, ncols);
        return false, colwidths;
      }
    }
    fits := totwidth <= width;
  }

  lemma {:induction false} SomeColumns(size: nat, nrows: nat)
    requires 0 < nrows <= size
    ensures NumColumns(size, nrows) > 0
  {
  }

  /** Finds the layout. */
  method Layout(items: seq<string>, width: int) returns (nrows: nat, ncols: nat, colwidths: seq<nat>)
    requires |items| >= 1
    ensures Least(items, nrows, width) && |colwidths| == ncols
    ensures nrows < |items| ==> ncols == NumColumns(|items|, nrows) && Measured(items, nrows, colwidths)
    ensures nrows == |items| ==> ncols == 1 && colwidths == [0]
  {
    nrows := 1;
    while nrows < |items|
      invariant 1 <= nrows <= |items| && forall n :: 1 <= n < nrows ==> !Fits(items, n, width)
    {
      var fits;
      fits, colwidths := TryRows(items, nrows, width);
      if fits {
        ncols := NumColumns(|items|, nrows);
        return;
      }
      nrows := nrows + 1;
    }
    ncols, colwidths := 1, [0];
  }

  // ----- the rows -----

  function Cell(items: seq<string>, nrows: nat, row: nat, col: nat): string {
    var i := Index(nrows, row, col);
    if i < |items| then items[i] else ""
  }

  function Blanks(n: nat): (s: string)
    ensures |s| == n
  {
    seq(n, _ => ' ')
  }

  /** Left-justified text. */
  function Padded(text: string, width: nat): (s: string)
    ensures |s| == Max(width, |text|) && s[..|text|] == text
  {
    text + if |text| < width then Blanks(width - |text|) else ""
  }

  /** The first `k` cells of a row, padded and two blanks apart. */
  function Line(items: seq<string>, nrows: nat, colwidths: seq<nat>, row: nat, k: nat): string
    requires k <= |colwidths|
  {
    if k == 0 then ""
    else
      var before := if k == 1 then "" else Line(items, nrows, colwidths, row, k - 1) + "  ";
      before + Padded(Cell(items, nrows, row, k - 1), colwidths[k - 1])
  }

  function Join(texts: seq<string>): string {
    if texts == [] then ""
    else (if |texts| == 1 then "" else Join(texts[..|texts| - 1]) + "  ") + texts[|texts| - 1]
  }

  /** All cells behind the first `k` are empty, the last one of these is not. */
  ghost predicate Trimmed(items: seq<string>, nrows: nat, ncols: nat, row: nat, k: nat) {
    k <= ncols && (forall c: nat :: k <= c < ncols ==> Cell(items, nrows, row, c) == "") &&
      (k > 0 ==> Cell(items, nrows, row, k - 1) != "")
  }

  /** The cells of a row, without the empty ones at its end. */
  method RowTexts(items: seq<string>, nrows: nat, ncols: nat, row: nat) returns (texts: seq<string>)
    ensures Trimmed(items, nrows, ncols, row, |texts|) && forall c: nat :: c < |texts| ==>
      texts[c] == Cell(items, nrows, row, c)
  {
    hide Cell;
    texts := [];
    while |texts| < ncols
      invariant |texts| <= ncols && forall c: nat :: c < |texts| ==> texts[c] == Cell(items, nrows, row, c)
    {
      texts := texts + [Cell(items, nrows, row, |texts|)];
    }
    while texts != [] && texts[|texts| - 1] == ""
      invariant |texts| <= ncols && forall c: nat :: c < |texts| ==> texts[c] == Cell(items, nrows, row, c)
      invariant forall c: nat :: |texts| <= c < ncols ==> Cell(items, nrows, row, c) == ""
    {
      texts := texts[..|texts| - 1];
    }
  }

  method BuildRow(items: seq<string>, nrows: nat, ncols: nat, colwidths: seq<nat>, row: nat)
    returns (line: string, ghost k: nat)
    requires |colwidths| == ncols
    ensures Trimmed(items, nrows, ncols, row, k) && line == Line(items, nrows, colwidths, row, k)
  {
    hide Cell, Padded, Line;
    var texts := RowTexts(items, nrows, ncols, row);
    k := |texts|;
    var col := 0;
    while col < |texts|
      invariant 0 <= col <= |texts| == k
      invariant forall c: nat :: c < k ==>
        texts[c] == if c < col then Padded(Cell(items, nrows, row, c), colwidths[c]) else Cell(items, nrows, row, c)
    {
      texts := texts[col := Padded(texts[col], colwidths[col])];
      col := col + 1;
    }
    line := Join(texts);
    JoinIsLine(items, nrows, colwidths, row, texts);
  }

  lemma {:induction false} JoinIsLine(items: seq<string>, nrows: nat, colwidths: seq<nat>, row: nat, texts: seq<string>)
    requires |texts| <= |colwidths| && forall c: nat :: c < |texts| ==>
      texts[c] == Padded(Cell(items, nrows, row, c), colwidths[c])
    ensures Join(texts) == Line(items, nrows, colwidths, row, |texts|)
  {
    if texts != [] {
      JoinIsLine(items, nrows, colwidths, row, texts[..|texts| - 1]);
    }
  }

  lemma {:induction false} CellFits(items: seq<string>, nrows: nat, row: nat, col: nat)
    requires row < nrows
    ensures |Cell(items, nrows, row, col)| <= ColumnWidth(items, nrows, col)
  {
    if Index(nrows, row, col) < |items| {
      WidestIsMax(items, nrows, col, nrows, row);
    }
  }

  /** The line shows the text at the offset. */
  ghost predicate Shows(line: string, offset: nat, text: string) {
    offset + |text| <= |line| && line[offset..][..|text|] == text
  }

  lemma {:induction false} ShowsMore(line: string, more: string, offset: nat, text: string)
    ensures Shows(line, offset, text) ==> Shows(line + more, offset, text)
    ensures Shows(line + text, |line|, text)
  {
    if Shows(line, offset, text) {
      assert (line + more)[offset..][..|text|] == line[offset..][..|text|];
    }
    assert (line + text)[|line|..] == text && text[..|text|] == text;
  }

  lemma {:induction false} ShowsPadded(line: string, offset: nat, text: string, width: nat)
    requires Shows(line, offset, Padded(text, width))
    ensures Shows(line, offset, text)
  {
    assert line[offset..][..|text|] == line[offset..][..|Padded(text, width)|][..|text|];
  }

  lemma {:induction false} LineLength(items: seq<string>, nrows: nat, colwidths: seq<nat>, row: nat, k: nat)
    requires 0 < k <= |colwidths| && Measured(items, nrows, colwidths) && row < nrows
    ensures |Line(items, nrows, colwidths, row, k)| == Offset(items, nrows, k) - 2
  {
    CellFits(items, nrows, row, k - 1);
    if k > 1 {
      LineLength(items, nrows, colwidths, row, k - 1);
    }
  }

  /** With measured columns every cell of a line sits at the offset of its column. */
  lemma {:induction false} LineColumns(items: seq<string>, nrows: nat, colwidths: seq<nat>, row: nat, k: nat, col: nat)
    requires k <= |colwidths| && Measured(items, nrows, colwidths) && row < nrows && col < k
    ensures Shows(Line(items, nrows, colwidths, row, k), Offset(items, nrows, col),
        Padded(Cell(items, nrows, row, col), colwidths[col]))
  {
    hide Shows, ColumnWidth, Cell, Padded;
    var last := Padded(Cell(items, nrows, row, k - 1), colwidths[k - 1]);
    if k == 1 {
      ShowsMore("", "", 0, last);
    } else {
      var before := Line(items, nrows, colwidths, row, k - 1) + "  ";
      assert Line(items, nrows, colwidths, row, k) == before + last;
      if col < k - 1 {
        LineColumns(items, nrows, colwidths, row, k - 1, col);
        ShowsMore(Line(items, nrows, colwidths, row, k - 1), "  ", Offset(items, nrows, col),
            Padded(Cell(items, nrows, row, col), colwidths[col]));
        ShowsMore(before, last, Offset(items, nrows, col), Padded(Cell(items, nrows, row, col), colwidths[col]));
      } else {
        LineLength(items, nrows, colwidths, row, k - 1);
        ShowsMore(before, "", 0, last);
      }
    }
  }

  /** The row and the column of an item. */
  lemma {:induction false} Position(size: nat, nrows: nat, i: nat)
    requires i < size && 0 < nrows
    ensures i % nrows < nrows && i / nrows < NumColumns(size, nrows)
    ensures Index(nrows, i % nrows, i / nrows) == i
  {
    assert i == nrows * (i / nrows) + i % nrows;
    Quotients(i, size + nrows - 1, nrows);
  }

  lemma {:induction false} Quotients(a: nat, b: nat, n: nat)
    requires n > 0 && a + n <= b
    ensures a / n < b / n
  {
    var p, q := a / n, b / n;
    assert a == n * p + a % n && b == n * q + b % n;
    if q <= p {
      Product(n, q, p);
    }
  }

  lemma {:induction false} Product(n: nat, q: nat, p: nat)
    requires q <= p
    ensures n * q <= n * p
  {
  }

  /** No two items share a position. */
  lemma {:induction false} PositionsDistinct(nrows: nat, row: nat, col: nat, row': nat, col': nat)
    requires row < nrows && row' < nrows && Index(nrows, row, col) == Index(nrows, row', col')
    ensures row == row' && col == col'
  {
    if col < col' {
      Product(nrows, col + 1, col');
    } else if col' < col {
      Product(nrows, col' + 1, col);
    }
  }

  lemma {:induction false} PositionOf(nrows: nat, row: nat, col: nat)
    requires row < nrows
    ensures Index(nrows, row, col) % nrows == row && Index(nrows, row, col) / nrows == col
  {
    var i := Index(nrows, row, col);
    var q, r := i / nrows, i % nrows;
    assert i == nrows * q + r;
    PositionsDistinct(nrows, r, q, row, col);
  }

  /** All rows have been built, with `ks[r]` cells in row `r`. */
  ghost predicate Built(items: seq<string>, nrows: nat, colwidths: seq<nat>, lines: seq<string>, ks: seq<nat>) {
    && |lines| == |ks|
    && forall r: nat :: r < |lines| ==>
      Trimmed(items, nrows, |colwidths|, r, ks[r]) && lines[r] == Line(items, nrows, colwidths, r, ks[r])
  }

  method BuildRows(items: seq<string>, nrows: nat, ncols: nat, colwidths: seq<nat>)
    returns (lines: seq<string>, ghost ks: seq<nat>)
    requires |colwidths| == ncols
    ensures |lines| == nrows && Built(items, nrows, colwidths, lines, ks)
  {
    hide Trimmed, Line;
    lines, ks := [], [];
    while |lines| < nrows
      invariant |lines| <= nrows && Built(items, nrows, colwidths, lines, ks)
    {
      var line;
      ghost var k;
      line, k := BuildRow(items, nrows, ncols, colwidths, |lines|);
      lines, ks := lines + [line], ks + [k];
    }
  }

  /** Every item is in its own place. */
  ghost predicate AllShown(items: seq<string>, nrows: nat, lines: seq<string>)
    requires 0 < nrows
  {
    forall i: nat :: i < |items| && items[i] != "" ==>
      i % nrows < |lines| && Shows(lines[i % nrows], Offset(items, nrows, i / nrows), items[i])
  }

  /** The text of the column covers the position. */
  ghost predicate Inside(items: seq<string>, nrows: nat, row: nat, col: nat, q: nat) {
    Offset(items, nrows, col) <= q < Offset(items, nrows, col) + |Cell(items, nrows, row, col)|
  }

  /** The line ends with its `k`-th column, and has blanks wherever there is no text. */
  ghost predicate Tight(items: seq<string>, nrows: nat, row: nat, k: nat, line: string) {
    && |line| == (if k == 0 then 0 else Offset(items, nrows, k) - 2)
    && forall q: nat :: q < |line| && line[q] != ' ' ==> exists col: nat :: col < k && Inside(items, nrows, row, col, q)
  }

  /** The line ends with the column of the last text in its row. */
  ghost predicate TightLine(items: seq<string>, nrows: nat, row: nat, line: string)
    requires 0 < nrows
  {
    exists k: nat :: Trimmed(items, nrows, NumColumns(|items|, nrows), row, k) && Tight(items, nrows, row, k, line)
  }

  ghost predicate AllTight(items: seq<string>, nrows: nat, lines: seq<string>)
    requires 0 < nrows
  {
    forall row: nat :: row < |lines| ==> TightLine(items, nrows, row, lines[row])
  }

  lemma {:induction false} LineTight(items: seq<string>, nrows: nat, colwidths: seq<nat>, row: nat, k: nat)
    requires k <= |colwidths| && Measured(items, nrows, colwidths) && row < nrows
    ensures Tight(items, nrows, row, k, Line(items, nrows, colwidths, row, k))
  {
    hide ColumnWidth, Cell, Inside;
    if k > 0 {
      LineLength(items, nrows, colwidths, row, k);
      var line := Line(items, nrows, colwidths, row, k);
      forall q: nat | q < |line| && line[q] != ' '
        ensures exists col: nat :: col < k && Inside(items, nrows, row, col, q)
      {
        TextAt(items, nrows, colwidths, row, k, q);
      }
    }
  }

  lemma {:induction false} PaddedText(text: string, width: nat, q: nat)
    requires q < |Padded(text, width)| && Padded(text, width)[q] != ' '
    ensures q < |text|
  {
  }

  lemma {:induction false} LineStep(items: seq<string>, nrows: nat, colwidths: seq<nat>, row: nat, k: nat)
    requires 0 < k <= |colwidths|
    ensures Line(items, nrows, colwidths, row, k) ==
      (if k == 1 then "" else Line(items, nrows, colwidths, row, k - 1) + "  ") +
      Padded(Cell(items, nrows, row, k - 1), colwidths[k - 1])
  {
    hide Cell, Padded;
  }

  lemma {:induction false} TextAt(items: seq<string>, nrows: nat, colwidths: seq<nat>, row: nat, k: nat, q: nat)
    requires 0 < k <= |colwidths| && Measured(items, nrows, colwidths) && row < nrows
    requires q < |Line(items, nrows, colwidths, row, k)| && Line(items, nrows, colwidths, row, k)[q] != ' '
    ensures exists col: nat :: col < k && Inside(items, nrows, row, col, q)
  {
    hide ColumnWidth, Cell, Line, Padded, Measured;
    LineStep(items, nrows, colwidths, row, k);
    var before := if k == 1 then "" else Line(items, nrows, colwidths, row, k - 1) + "  ";
    if k > 1 {
      LineLength(items, nrows, colwidths, row, k - 1);
    }
    if q < |before| {
      assert before[q] == Line(items, nrows, colwidths, row, k)[q];
      TextAt(items, nrows, colwidths, row, k - 1, q);
    } else {
      PaddedText(Cell(items, nrows, row, k - 1), colwidths[k - 1], q - |before|);
      assert Inside(items, nrows, row, k - 1, q);
    }
  }

  lemma {:induction false} TrimmedOnce(items: seq<string>, nrows: nat, ncols: nat, row: nat, k: nat, k': nat)
    requires Trimmed(items, nrows, ncols, row, k) && Trimmed(items, nrows, ncols, row, k')
    ensures k == k'
  {
  }

  lemma {:induction false} ShownAt(items: seq<string>, nrows: nat, lines: seq<string>, row: nat, col: nat, q: nat)
    requires row < nrows == |lines| && AllShown(items, nrows, lines) && Inside(items, nrows, row, col, q)
    ensures q < |lines[row]| && lines[row][q] == Cell(items, nrows, row, col)[q - Offset(items, nrows, col)]
  {
    hide Offset;
    var i := Index(nrows, row, col);
    PositionOf(nrows, row, col);
    var offset := Offset(items, nrows, col);
    assert Shows(lines[row], offset, items[i]);
    assert lines[row][offset..][..|items[i]|][q - offset] == lines[row][q];
  }

  /** There is only one such listing. */
  lemma {:induction false} ListingUnique(items: seq<string>, nrows: nat, lines: seq<string>, lines': seq<string>)
    requires 0 < nrows == |lines| == |lines'|
    requires AllShown(items, nrows, lines) && AllTight(items, nrows, lines)
    requires AllShown(items, nrows, lines') && AllTight(items, nrows, lines')
    ensures lines == lines'
  {
    hide Offset, NumColumns, AllShown, Inside, Trimmed;
    forall row: nat | row < nrows
      ensures lines[row] == lines'[row]
    {
      var ncols := NumColumns(|items|, nrows);
      assert TightLine(items, nrows, row, lines[row]) && TightLine(items, nrows, row, lines'[row]);
      var k: nat :| Trimmed(items, nrows, ncols, row, k) && Tight(items, nrows, row, k, lines[row]);
      var k': nat :| Trimmed(items, nrows, ncols, row, k') && Tight(items, nrows, row, k', lines'[row]);
      TrimmedOnce(items, nrows, ncols, row, k, k');
      forall q: nat | q < |lines[row]|
        ensures lines[row][q] == lines'[row][q]
      {
        if col: nat :| col < k && Inside(items, nrows, row, col, q) {
          ShownAt(items, nrows, lines, row, col, q);
          ShownAt(items, nrows, lines', row, col, q);
        }
      }
    }
  }

  /** What asking the terminal for its width results in. */
  datatype Terminal = Unknown | Columns(width: int)

  /** A width of zero counts as missing: then the terminal is asked. */
  function Display(width: int, terminal: Terminal): Terminal {
    if width == 0 then terminal else Columns(width)
  }

  /** The listing: every item in its own place, blanks everywhere else, and no line wider than the display;
      one item per line if the width is unknown. */
  method Columnize(items: seq<string>, width: int, terminal: Terminal) returns (lines: seq<string>, ghost nrows: nat)
    ensures items == [] ==> lines == ["<empty>"]
    ensures items != [] && Display(width, terminal).Unknown? ==> lines == items
    ensures items != [] && Display(width, terminal).Columns? ==>
      Least(items, nrows, Display(width, terminal).width) && |lines| == nrows
    ensures items != [] && Display(width, terminal).Columns? && nrows == |items| ==> lines == items
    ensures items != [] && Display(width, terminal).Columns? && nrows < |items| ==>
      && AllShown(items, nrows, lines) && AllTight(items, nrows, lines)
      && forall line :: line in lines ==> |line| <= Display(width, terminal).width
  {
    hide Built, AllShown, AllTight, Measured, Fits, NumColumns;
    nrows := |items|;
    if items == [] {
      return ["<empty>"], 0;
    }
    var columns := width;
    if width == 0 {
      if terminal.Unknown? {
        return items, |items|;
      }
      columns := terminal.width;
    }
    if |items| == 1 {
      return [items[0]], 1;
    }
    var rows, ncols, colwidths := Layout(items, columns);
    nrows := rows;
    ghost var ks;
    lines, ks := BuildRows(items, rows, ncols, colwidths);
    if rows < |items| {
      RowsFit(items, rows, colwidths, columns, lines, ks);
      ItemsShown(items, rows, colwidths, lines, ks);
      LinesTight(items, rows, colwidths, lines, ks);
    } else {
      SingleColumn(items, lines, ks);
    }
  }

  lemma {:induction false} RowsFit(items: seq<string>, nrows: nat, colwidths: seq<nat>, width: int, lines: seq<string>,
      ks: seq<nat>)
    requires 0 < nrows <= |items| && Fits(items, nrows, width) && |colwidths| == NumColumns(|items|, nrows)
    requires Measured(items, nrows, colwidths)
    requires |lines| == nrows && Built(items, nrows, colwidths, lines, ks)
    ensures forall line :: line in lines ==> |line| <= width
  {
    hide Fits, Measured, Line, NumColumns;
    forall r: nat | r < nrows
      ensures |lines[r]| <= width
    {
      assert Trimmed(items, nrows, |colwidths|, r, ks[r]);
      RowFits(items, nrows, colwidths, width, r, ks[r]);
    }
  }

  lemma {:induction false} ItemsShown(items: seq<string>, nrows: nat, colwidths: seq<nat>, lines: seq<string>,
      ks: seq<nat>)
    requires 0 < nrows && |colwidths| == NumColumns(|items|, nrows) && Measured(items, nrows, colwidths)
    requires |lines| == nrows && Built(items, nrows, colwidths, lines, ks)
    ensures AllShown(items, nrows, lines)
  {
    hide Measured, Line, Trimmed, Shows, Offset, NumColumns;
    forall i: nat | i < |items| && items[i] != ""
      ensures i % nrows < |lines| && Shows(lines[i % nrows], Offset(items, nrows, i / nrows), items[i])
    {
      Position(|items|, nrows, i);
      ItemShown(items, nrows, colwidths, i % nrows, i / nrows, ks[i % nrows]);
    }
  }

  lemma {:induction false} LinesTight(items: seq<string>, nrows: nat, colwidths: seq<nat>, lines: seq<string>,
      ks: seq<nat>)
    requires 0 < nrows && |colwidths| == NumColumns(|items|, nrows) && Measured(items, nrows, colwidths)
    requires |lines| == nrows && Built(items, nrows, colwidths, lines, ks)
    ensures AllTight(items, nrows, lines)
  {
    hide Measured, Line, Trimmed, Tight, NumColumns;
    forall row: nat | row < |lines|
      ensures TightLine(items, nrows, row, lines[row])
    {
      TrimmedWithin(items, nrows, |colwidths|, row, ks[row]);
      LineTight(items, nrows, colwidths, row, ks[row]);
    }
  }

  lemma {:induction false} TrimmedWithin(items: seq<string>, nrows: nat, ncols: nat, row: nat, k: nat)
    requires Trimmed(items, nrows, ncols, row, k)
    ensures k <= ncols
  {
  }

  lemma {:induction false} RowFits(items: seq<string>, nrows: nat, colwidths: seq<nat>, width: int, row: nat, k: nat)
    requires 0 < nrows <= |items| && Fits(items, nrows, width) && |colwidths| == NumColumns(|items|, nrows)
    requires Measured(items, nrows, colwidths)
    requires row < nrows && k <= |colwidths|
    ensures |Line(items, nrows, colwidths, row, k)| <= width
  {
    SomeColumns(|items|, nrows);
    FitsIff(items, nrows, width);
    OffsetGrows(items, nrows, k, |colwidths|);
    if k > 0 {
      LineLength(items, nrows, colwidths, row, k);
    }
  }

  lemma {:induction false} ItemShown(items: seq<string>, nrows: nat, colwidths: seq<nat>, row: nat, col: nat, k: nat)
    requires row < nrows && col < |colwidths| && Measured(items, nrows, colwidths)
    requires Index(nrows, row, col) < |items| && Cell(items, nrows, row, col) != ""
    requires Trimmed(items, nrows, |colwidths|, row, k)
    ensures Shows(Line(items, nrows, colwidths, row, k), Offset(items, nrows, col), items[Index(nrows, row, col)])
  {
    hide Shows;
    LineColumns(items, nrows, colwidths, row, k, col);
    ShowsPadded(Line(items, nrows, colwidths, row, k), Offset(items, nrows, col), Cell(items, nrows, row, col),
        colwidths[col]);
  }

  lemma {:induction false} SingleColumn(items: seq<string>, lines: seq<string>, ks: seq<nat>)
    requires |lines| == |items| && Built(items, |items|, [0], lines, ks)
    ensures lines == items
  {
    forall r: nat | r < |items|
      ensures lines[r] == items[r]
    {
      assert Trimmed(items, |items|, 1, r, ks[r]) && Cell(items, |items|, r, 0) == items[r];
    }
  }

  // Four names on a display of eight columns: a single row would take eighteen, two rows fit.
  const NAMES := ["aaa", "bbb", "ccc", "ddd"]
  const NAMES_LISTED := ["aaa  ccc", "bbb  ddd"]

  lemma {:induction false} NamesWidth(nrows: nat, col: nat)
    requires 1 <= nrows <= 2
    ensures ColumnWidth(NAMES, nrows, col) == if nrows * col < 4 then 3 else 0
  {
    assert |NAMES| == 4 && forall i :: 0 <= i < 4 ==> |NAMES[i]| == 3;
    assert ColumnWidth(NAMES, nrows, col) == Widest(NAMES, nrows, col, nrows);
    assert Widest(NAMES, nrows, col, 0) == 0;
    if nrows == 2 {
      assert Widest(NAMES, 2, col, 1) == if 2 * col < 4 then 3 else 0;
    }
  }

  lemma {:induction false} NamesOffset(nrows: nat, col: nat)
    requires 1 <= nrows <= 2 && nrows * col < 4
    ensures Offset(NAMES, nrows, col) == 5 * col
  {
    if col > 0 {
      NamesOffset(nrows, col - 1);
      NamesWidth(nrows, col - 1);
    }
  }

  lemma {:induction false} NamesFit()
    ensures !Fits(NAMES, 1, 8) && Fits(NAMES, 2, 8)
  {
    hide ColumnWidth;
    NamesOffset(1, 3);
    NamesWidth(1, 3);
    assert Index(1, 0, 3) < |NAMES|;
    forall col: nat | Index(2, 0, col) < |NAMES|
      ensures Offset(NAMES, 2, col) + ColumnWidth(NAMES, 2, col) <= 8
    {
      NamesOffset(2, col);
      NamesWidth(2, col);
    }
  }

  lemma {:induction false} NamesShown()
    ensures AllShown(NAMES, 2, NAMES_LISTED)
  {
    hide Offset;
    NamesOffset(2, 0);
    NamesOffset(2, 1);
    var lines := NAMES_LISTED;
    assert lines[0][0..][..3] == NAMES[0] && lines[0][5..][..3] == NAMES[2];
    assert lines[1][0..][..3] == NAMES[1] && lines[1][5..][..3] == NAMES[3];
    forall i: nat | i < 4
      ensures Shows(lines[i % 2], Offset(NAMES, 2, i / 2), NAMES[i])
    {
      assert i == 0 || i == 1 || i == 2 || i == 3;
    }
  }

  lemma {:induction false} NamesCells(row: nat)
    requires row < 2
    ensures Cell(NAMES, 2, row, 0) == NAMES[row] && Cell(NAMES, 2, row, 1) == NAMES[row + 2]
    ensures |NAMES[row]| == |NAMES[row + 2]| == 3
    ensures Trimmed(NAMES, 2, NumColumns(|NAMES|, 2), row, 2)
  {
    assert NumColumns(4, 2) == 2;
  }

  lemma {:induction false} NamesEnd()
    ensures Offset(NAMES, 2, 0) == 0 && Offset(NAMES, 2, 1) == 5 && Offset(NAMES, 2, 2) == 10
  {
    NamesOffset(2, 1);
    NamesWidth(2, 1);
  }

  lemma {:induction false} NamesTight()
    ensures AllTight(NAMES, 2, NAMES_LISTED)
  {
    hide Offset, Trimmed, NumColumns, Cell;
    NamesEnd();
    forall row: nat | row < 2
      ensures TightLine(NAMES, 2, row, NAMES_LISTED[row])
    {
      NamesCells(row);
      var line := NAMES_LISTED[row];
      assert |line| == 8 && line[3] == ' ' && line[4] == ' ';
      forall q: nat | q < 8 && line[q] != ' '
        ensures Inside(NAMES, 2, row, if q < 5 then 0 else 1, q)
      {
      }
      assert Tight(NAMES, 2, row, 2, line);
    }
  }

  /** The listing of these names. */
  method ListNames() returns (lines: seq<string>)
    ensures lines == ["aaa  ccc", "bbb  ddd"]
  {
    hide AllShown, AllTight, Fits;
    ghost var nrows;
    lines, nrows := Columnize(NAMES, 8, Unknown);
    NamesFit();
    NamesShown();
    NamesTight();
    assert nrows == 2;
    ListingUnique(NAMES, 2, lines, NAMES_LISTED);
  }
}

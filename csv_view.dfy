/**
 * The layout decisions of the table view (src/csv_view.cpp): the width of each column, the
 * horizontal column offset, which cells of a row fit the terminal width, how each cell is padded
 * and split around the search match, which visible row is the header and which data row index
 * every other row shows, and the colour of each column. The FTXUI elements the view builds are
 * reduced to plain data (`Frame`, `Line`, `Cell`, `Segment`).
 */
module CsvView {
  import opened Wrappers
  import CsvModel

  type Row = CsvModel.Row

  // ------------------------------------------------------------------ output data

  datatype Color =
    | Red | Green | Blue | Yellow | Magenta | Cyan | GrayDark | White
    | Orange1 | Purple | Turquoise2 | SpringGreen1 | DeepPink3 | DarkGoldenrod | DodgerBlue2
    | LightSalmon1

  /** The sixteen column colours, in the order columns cycle through them. */
  const Palette: seq<Color> :=
    [ Red, Green, Blue, Yellow, Magenta, Cyan, GrayDark, White, Orange1, Purple, Turquoise2,
      SpringGreen1, DeepPink3, DarkGoldenrod, DodgerBlue2, LightSalmon1 ]

  /** A piece of a cell's text; `Marked` is the search match, with `current` set when it is the
      match the controller last moved to. */
  datatype Segment = Plain(text: string) | Marked(text: string, current: bool)

  datatype Cell = Cell(column: nat, segments: seq<Segment>, color: Color)

  /** A rendered row: its cells, whether it is drawn as the header, and the data row index it
      shows (none for the header). */
  datatype Line = Line(cells: seq<Cell>, isHeader: bool, rowIndex: Option<nat>)

  /** What Render produces: the "no data" placeholder, or the table lines and the two texts of
      the status line. */
  datatype Frame = NoData | Table(lines: seq<Line>, command: string, last: string)

  /** The view settings that shape a cell. */
  datatype Style = Style(tabular: bool, pattern: string, matchRow: Option<nat>,
                         matchCol: Option<nat>, colors: seq<Color>)

  // ------------------------------------------------------------------ column widths

  /** Length of the longest row. */
  function MaxLen(rows: seq<Row>): nat
  {
    if |rows| == 0 then 0 else CsvModel.Max(MaxLen(rows[..|rows| - 1]), |rows[|rows| - 1]|)
  }

  /** Largest size of a cell in column `i` over the rows that have one; zero if none has. */
  function ColumnMax(rows: seq<Row>, i: nat): nat
  {
    if |rows| == 0 then 0
    else
      var last := rows[|rows| - 1];
      CsvModel.Max(ColumnMax(rows[..|rows| - 1], i), if i < |last| then |last[i]| else 0)
  }

  /** The widths ComputeColumnWidths returns. */
  function ColumnWidths(rows: seq<Row>): (w: seq<nat>)
  {
    seq(MaxLen(rows), i requires 0 <= i => ColumnMax(rows, i))
  }

  /** No row is longer than MaxLen, and some row is that long. */
  lemma {:induction false} MaxLenIsMaximum(rows: seq<Row>)
    ensures forall k :: 0 <= k < |rows| ==> |rows[k]| <= MaxLen(rows)
    ensures |rows| > 0 ==> exists k :: 0 <= k < |rows| && |rows[k]| == MaxLen(rows)
  {
    if |rows| > 0 {
      var init := rows[..|rows| - 1];
      MaxLenIsMaximum(init);
      assert forall k :: 0 <= k < |init| ==> rows[k] == init[k];
      if |init| > 0 && MaxLen(init) > |rows[|rows| - 1]| {
        var k :| 0 <= k < |init| && |init[k]| == MaxLen(init);
        assert |rows[k]| == MaxLen(rows);
      } else {
        assert |rows[|rows| - 1]| == MaxLen(rows);
      }
    }
  }

  /** No cell of column `i` is wider than ColumnMax, and when some row has column `i`, one of
      its cells is exactly that wide. */
  lemma {:induction false} ColumnMaxIsMaximum(rows: seq<Row>, i: nat)
    ensures forall k :: 0 <= k < |rows| && i < |rows[k]| ==> |rows[k][i]| <= ColumnMax(rows, i)
    ensures (exists k :: 0 <= k < |rows| && i < |rows[k]|) ==>
              exists k :: 0 <= k < |rows| && i < |rows[k]| && |rows[k][i]| == ColumnMax(rows, i)
    ensures (forall k :: 0 <= k < |rows| ==> i >= |rows[k]|) ==> ColumnMax(rows, i) == 0
  {
    if |rows| > 0 {
      var init := rows[..|rows| - 1];
      var last := rows[|rows| - 1];
      ColumnMaxIsMaximum(init, i);
      assert forall k :: 0 <= k < |init| ==> rows[k] == init[k];
      if exists k :: 0 <= k < |rows| && i < |rows[k]| {
        if i < |last| && |last[i]| >= ColumnMax(init, i) {
          assert |rows[|rows| - 1][i]| == ColumnMax(rows, i);
        } else {
          var k :| 0 <= k < |rows| && i < |rows[k]|;
          if k == |rows| - 1 {
            assert i < |last|;
          }
          var k' :| 0 <= k' < |init| && i < |init[k']| && |init[k']| >= 0 && |init[k'][i]| == ColumnMax(init, i);
          assert |rows[k'][i]| == ColumnMax(rows, i);
        }
      }
    }
  }

  /** Column widths: one entry per column of the longest row, each the widest cell of that
      column. */
  method ComputeColumnWidths(rows: seq<Row>) returns (widths: seq<nat>)
    ensures |widths| == MaxLen(rows)
    ensures forall i :: 0 <= i < |widths| ==> widths[i] == ColumnMax(rows, i)
  {
    var numCols := 0;
    for k := 0 to |rows|
      invariant numCols == MaxLen(rows[..k])
    {
      assert rows[..k + 1][..k] == rows[..k];
      numCols := CsvModel.Max(numCols, |rows[k]|);
    }
    assert rows[..|rows|] == rows;
    MaxLenIsMaximum(rows);
    widths := seq(numCols, _ => 0);
    for k := 0 to |rows|
      invariant |widths| == numCols
      invariant forall i :: 0 <= i < numCols ==> widths[i] == ColumnMax(rows[..k], i)
    {
      var row := rows[k];
      assert rows[..k + 1][..k] == rows[..k];
      assert rows[..k + 1][k] == row;
      for i := 0 to |row|
        invariant |widths| == numCols
        invariant forall j :: 0 <= j < i ==> widths[j] == ColumnMax(rows[..k + 1], j)
        invariant forall j :: i <= j < numCols ==> widths[j] == ColumnMax(rows[..k], j)
      {
        widths := widths[i := CsvModel.Max(widths[i], |row[i]|)];
      }
      assert forall j :: |row| <= j < numCols ==> ColumnMax(rows[..k + 1], j) == ColumnMax(rows[..k], j);
    }
  }

  // ------------------------------------------------------------------ horizontal offset

  /** The new column offset: the old one plus `delta`, no less than zero and, when there are
      columns, no more than the last column. */
  function ClampOffset(offset: nat, delta: int, maxCols: nat): nat
  {
    var next := if offset + delta < 0 then 0 else offset + delta;
    if maxCols == 0 then next else if next < maxCols - 1 then next else maxCols - 1
  }

  function Distance(a: int, b: int): nat { if a >= b then a - b else b - a }

  /** The clamped offset is the allowed offset nearest to `offset + delta`. */
  lemma ClampOffsetIsNearest(offset: nat, delta: int, maxCols: nat, x: nat)
    requires maxCols == 0 || x < maxCols
    ensures maxCols > 0 ==> ClampOffset(offset, delta, maxCols) < maxCols
    ensures Distance(ClampOffset(offset, delta, maxCols), offset + delta) <= Distance(x, offset + delta)
  {
  }

  // ------------------------------------------------------------------ fitting cells

  /** Width reserved for cell `i`: the column width in tabular mode when there is one, else the
      size of the value. */
  function CellWidth(row: Row, i: nat, widths: seq<nat>, tabular: bool): nat
    requires i < |row|
  {
    if tabular && i < |widths| then widths[i] else |row[i]|
  }

  /** The space each cell from `startCol` on takes: its width plus the `;` after it. */
  function Costs(row: Row, widths: seq<nat>, tabular: bool, startCol: nat): (c: seq<int>)
    ensures |c| == if startCol < |row| then |row| - startCol else 0
    ensures forall k :: 0 <= k < |c| ==> c[k] == CellWidth(row, startCol + k, widths, tabular) + 1
  {
    if startCol >= |row| then []
    else seq(|row| - startCol, k requires 0 <= k < |row| - startCol =>
               CellWidth(row, startCol + k, widths, tabular) + 1)
  }

  function Sum(s: seq<int>): int
  {
    if |s| == 0 then 0 else Sum(s[..|s| - 1]) + s[|s| - 1]
  }

  /** Total cost of the first `m` cells. */
  function PrefixSum(costs: seq<int>, m: nat): int
    requires m <= |costs|
  {
    Sum(costs[..m])
  }

  /** Taking `n` cells is the greedy choice: the first cell is always taken, each later one only
      while the total stays within `avail`, and the first that would pass it stops the row. */
  ghost predicate Greedy(costs: seq<int>, avail: int, n: nat)
  {
    && n <= |costs|
    && (|costs| > 0 ==> n >= 1)
    && (forall m :: 2 <= m <= n ==> PrefixSum(costs, m) <= avail)
    && (n < |costs| ==> PrefixSum(costs, n + 1) > avail)
  }

  /** Only one number of cells is the greedy choice. */
  lemma GreedyIsUnique(costs: seq<int>, avail: int, n1: nat, n2: nat)
    requires Greedy(costs, avail, n1) && Greedy(costs, avail, n2)
    ensures n1 == n2
  {
  }

  /** How many cells FormatRow takes, having taken the first `k` for a total of `used`: it stops
      at the end of the row or, once a cell is taken, at the first that would pass `avail`. */
  function TakeCount(costs: seq<int>, k: nat, used: int, avail: int): (n: nat)
    requires k <= |costs|
    ensures k <= n <= |costs|
    decreases |costs| - k
  {
    if k == |costs| then k
    else if k > 0 && used + costs[k] > avail then k
    else TakeCount(costs, k + 1, used + costs[k], avail)
  }

  lemma PrefixSumStep(costs: seq<int>, m: nat)
    requires m < |costs|
    ensures PrefixSum(costs, m + 1) == PrefixSum(costs, m) + costs[m]
  {
    assert costs[..m + 1][..m] == costs[..m];
  }

  /** Having taken the first `k` cells within the width, TakeCount completes the greedy choice. */
  lemma {:induction false} TakeCountIsGreedy(costs: seq<int>, k: nat, avail: int)
    requires k <= |costs|
    requires forall m :: 2 <= m <= k ==> PrefixSum(costs, m) <= avail
    ensures Greedy(costs, avail, TakeCount(costs, k, PrefixSum(costs, k), avail))
    decreases |costs| - k
  {
    if k < |costs| {
      PrefixSumStep(costs, k);
      if !(k > 0 && PrefixSum(costs, k) + costs[k] > avail) {
        TakeCountIsGreedy(costs, k + 1, avail);
      }
    }
  }

  // ------------------------------------------------------------------ search highlight

  ghost predicate OccursAt(s: string, p: string, j: nat)
  {
    j + |p| <= |s| && s[j..j + |p|] == p
  }

  /** First position at or after `from` where `p` occurs in `s`. */
  function FindFrom(s: string, p: string, from: nat): (r: Option<nat>)
    ensures r.Some? ==> from <= r.value && r.value + |p| <= |s|
    decreases |s| - from
  {
    if from + |p| > |s| then None
    else if s[from..from + |p|] == p then Some(from)
    else FindFrom(s, p, from + 1)
  }

  /** FindFrom finds an occurrence. */
  lemma {:induction false} FindFromOccurs(s: string, p: string, from: nat)
    ensures FindFrom(s, p, from).Some? ==> OccursAt(s, p, FindFrom(s, p, from).value)
    decreases |s| - from
  {
    if from + |p| <= |s| && s[from..from + |p|] != p {
      FindFromOccurs(s, p, from + 1);
    }
  }

  /** No occurrence at or after `from` comes before the one FindFrom finds; when it finds
      nothing, there is none at or after `from`. */
  lemma {:induction false} FindFromIsFirst(s: string, p: string, from: nat)
    ensures FindFrom(s, p, from).Some? ==>
              forall j :: from <= j < FindFrom(s, p, from).value ==> !OccursAt(s, p, j)
    ensures FindFrom(s, p, from).None? ==> forall j :: from <= j ==> !OccursAt(s, p, j)
    decreases |s| - from
  {
    if from + |p| <= |s| && s[from..from + |p|] != p {
      FindFromIsFirst(s, p, from + 1);
    }
  }

  /** `std::string::find`: the first occurrence of `p` in `s`. */
  function Find(s: string, p: string): Option<nat>
  {
    FindFrom(s, p, 0)
  }

  /** A value split around the first occurrence of the pattern: the text before it, the match
      itself (marked), the text after it, leaving out empty pieces. */
  function Highlight(value: string, pattern: string, current: bool): seq<Segment>
  {
    if pattern == "" then [Plain(value)]
    else
      match Find(value, pattern)
      case None => [Plain(value)]
      case Some(pos) =>
        PlainIfAny(value[..pos]) + [Marked(value[pos..pos + |pattern|], current)]
        + PlainIfAny(value[pos + |pattern|..])
  }

  /** The text of a sequence of segments. */
  function Text(segs: seq<Segment>): string
  {
    if |segs| == 0 then "" else Text(segs[..|segs| - 1]) + segs[|segs| - 1].text
  }

  /** The texts of the marked segments. */
  function MarkedTexts(segs: seq<Segment>): seq<string>
  {
    if |segs| == 0 then []
    else MarkedTexts(segs[..|segs| - 1]) + (if segs[|segs| - 1].Marked? then [segs[|segs| - 1].text] else [])
  }

  lemma TextOfOne(x: Segment)
    ensures Text([x]) == x.text
    ensures MarkedTexts([x]) == if x.Marked? then [x.text] else []
  {
    assert [x][..0] == [];
  }

  lemma {:induction false} TextAppend(a: seq<Segment>, b: seq<Segment>)
    ensures Text(a + b) == Text(a) + Text(b)
    decreases |b|
  {
    if |b| > 0 {
      TextAppend(a, b[..|b| - 1]);
      assert (a + b)[..|a + b| - 1] == a + b[..|b| - 1];
    } else {
      assert a + b == a;
    }
  }

  lemma {:induction false} MarkedTextsAppend(a: seq<Segment>, b: seq<Segment>)
    ensures MarkedTexts(a + b) == MarkedTexts(a) + MarkedTexts(b)
    decreases |b|
  {
    if |b| > 0 {
      MarkedTextsAppend(a, b[..|b| - 1]);
      assert (a + b)[..|a + b| - 1] == a + b[..|b| - 1];
    } else {
      assert a + b == a;
    }
  }

  lemma SplitThree(s: string, i: nat, n: nat)
    requires i + n <= |s|
    ensures s[..i] + s[i..i + n] + s[i + n..] == s
  {
    assert s[i..] == s[i..i + n] + s[i + n..];
    assert s == s[..i] + s[i..];
  }

  /** A piece of text as a segment, left out when empty. */
  function PlainIfAny(t: string): seq<Segment>
  {
    if t != "" then [Plain(t)] else []
  }

  lemma PlainIfAnyText(t: string)
    ensures Text(PlainIfAny(t)) == t && MarkedTexts(PlainIfAny(t)) == []
  {
    if t != "" {
      TextOfOne(Plain(t));
    }
  }

  /** Highlighting never changes a cell's text. */
  lemma HighlightKeepsText(value: string, pattern: string, current: bool)
    ensures Text(Highlight(value, pattern, current)) == value
  {
    if pattern != "" && Find(value, pattern).Some? {
      var pos := Find(value, pattern).value;
      var pre := value[..pos];
      var mid := value[pos..pos + |pattern|];
      var post := value[pos + |pattern|..];
      PlainIfAnyText(pre);
      TextOfOne(Marked(mid, current));
      PlainIfAnyText(post);
      TextAppend(PlainIfAny(pre), [Marked(mid, current)]);
      TextAppend(PlainIfAny(pre) + [Marked(mid, current)], PlainIfAny(post));
      SplitThree(value, pos, |pattern|);
    } else {
      TextOfOne(Plain(value));
    }
  }

  /** With a non-empty pattern found at `pos`, exactly one piece is marked, it is the pattern,
      and the pattern occurs nowhere before `pos`; otherwise nothing is marked. */
  lemma HighlightMarksFirstMatch(value: string, pattern: string, current: bool)
    ensures pattern != "" && Find(value, pattern).Some? ==>
              && MarkedTexts(Highlight(value, pattern, current)) == [pattern]
              && OccursAt(value, pattern, Find(value, pattern).value)
              && forall j :: 0 <= j < Find(value, pattern).value ==> !OccursAt(value, pattern, j)
    ensures pattern == "" || Find(value, pattern).None? ==>
              MarkedTexts(Highlight(value, pattern, current)) == []
  {
    if pattern != "" && Find(value, pattern).Some? {
      var pos := Find(value, pattern).value;
      var pre := value[..pos];
      var mid := value[pos..pos + |pattern|];
      var post := value[pos + |pattern|..];
      PlainIfAnyText(pre);
      TextOfOne(Marked(mid, current));
      PlainIfAnyText(post);
      MarkedTextsAppend(PlainIfAny(pre), [Marked(mid, current)]);
      MarkedTextsAppend(PlainIfAny(pre) + [Marked(mid, current)], PlainIfAny(post));
      FindFromOccurs(value, pattern, 0);
      FindFromIsFirst(value, pattern, 0);
    } else {
      TextOfOne(Plain(value));
    }
  }

  // ------------------------------------------------------------------ one cell

  function Spaces(n: nat): string
  {
    seq(n, _ => ' ')
  }

  /** Padding after a value: what is left of its width, if anything. */
  function Pad(width: nat, value: string): nat
  {
    if width > |value| then width - |value| else 0
  }

  predicate IsCurrentMatch(rowIndex: Option<nat>, i: nat, style: Style)
  {
    rowIndex.Some? && style.matchRow.Some? && style.matchCol.Some?
    && rowIndex.value == style.matchRow.value && i == style.matchCol.value
  }

  /** Cell `i` of a row: the highlighted value, its padding, the `;` separator, and the colour
      of its column. */
  function CellAt(row: Row, i: nat, widths: seq<nat>, rowIndex: Option<nat>, style: Style): Cell
    requires i < |row| && |style.colors| > 0
  {
    var value := row[i];
    var pad := Pad(CellWidth(row, i, widths, style.tabular), value);
    Cell(i,
         Highlight(value, style.pattern, IsCurrentMatch(rowIndex, i, style))
         + (if pad > 0 then [Plain(Spaces(pad))] else [])
         + [Plain(";")],
         style.colors[i % |style.colors|])
  }

  /** A cell reads as its value, padded with spaces to its width, then `;`; so it takes its
      width or its value's size, whichever is larger, plus one. */
  lemma CellText(row: Row, i: nat, widths: seq<nat>, rowIndex: Option<nat>, style: Style)
    requires i < |row| && |style.colors| > 0
    ensures var width := CellWidth(row, i, widths, style.tabular);
            Text(CellAt(row, i, widths, rowIndex, style).segments)
              == row[i] + Spaces(Pad(width, row[i])) + ";"
    ensures |Text(CellAt(row, i, widths, rowIndex, style).segments)|
              == CsvModel.Max(CellWidth(row, i, widths, style.tabular), |row[i]|) + 1
  {
    var value := row[i];
    var pad := Pad(CellWidth(row, i, widths, style.tabular), value);
    var h := Highlight(value, style.pattern, IsCurrentMatch(rowIndex, i, style));
    var p: seq<Segment> := if pad > 0 then [Plain(Spaces(pad))] else [];
    var s: seq<Segment> := [Plain(";")];
    HighlightKeepsText(value, style.pattern, IsCurrentMatch(rowIndex, i, style));
    if pad > 0 {
      TextOfOne(Plain(Spaces(pad)));
    }
    TextOfOne(Plain(";"));
    TextAppend(h, p);
    TextAppend(h + p, s);
  }

  /** In tabular mode with the widths computed over the rows, every cell of a column takes the
      same space, so the columns line up. */
  lemma TabularCellsAlign(rows: seq<Row>, k: nat, i: nat, rowIndex: Option<nat>, style: Style)
    requires k < |rows| && i < |rows[k]| && |style.colors| > 0 && style.tabular
    ensures i < |ColumnWidths(rows)|
    ensures |Text(CellAt(rows[k], i, ColumnWidths(rows), rowIndex, style).segments)|
              == ColumnWidths(rows)[i] + 1
  {
    MaxLenIsMaximum(rows);
    ColumnMaxIsMaximum(rows, i);
    CellText(rows[k], i, ColumnWidths(rows), rowIndex, style);
  }

  /** Every cell from `startCol` on, `n` of them, reads as its value, its padding and `;`. */
  lemma CellTexts(row: Row, widths: seq<nat>, rowIndex: Option<nat>, startCol: nat, n: nat, style: Style)
    requires |style.colors| > 0 && (n == 0 || startCol + n <= |row|)
    ensures forall i :: startCol <= i < startCol + n ==>
              Text(CellAt(row, i, widths, rowIndex, style).segments)
                == row[i] + Spaces(Pad(CellWidth(row, i, widths, style.tabular), row[i])) + ";"
  {
    forall i | startCol <= i < startCol + n
      ensures Text(CellAt(row, i, widths, rowIndex, style).segments)
                == row[i] + Spaces(Pad(CellWidth(row, i, widths, style.tabular), row[i])) + ";"
    {
      CellText(row, i, widths, rowIndex, style);
    }
  }

  /** The cells of a row from `startCol` on, `n` of them: cell `k` shows column `startCol + k`
      in that column's colour, and reads as the column's value padded to its width, then `;`. */
  function Cells(row: Row, widths: seq<nat>, rowIndex: Option<nat>, startCol: nat, n: nat,
                 style: Style): (cs: seq<Cell>)
    requires |style.colors| > 0 && (n == 0 || startCol + n <= |row|)
    ensures |cs| == n
    ensures forall k :: 0 <= k < n ==>
              && cs[k].column == startCol + k
              && cs[k].color == style.colors[(startCol + k) % |style.colors|]
              && Text(cs[k].segments)
                   == row[startCol + k] + Spaces(Pad(CellWidth(row, startCol + k, widths, style.tabular), row[startCol + k])) + ";"
  {
    CellTexts(row, widths, rowIndex, startCol, n, style);
    seq(n, k requires 0 <= k < n => CellAt(row, startCol + k, widths, rowIndex, style))
  }

  lemma CellsSnoc(row: Row, widths: seq<nat>, rowIndex: Option<nat>, startCol: nat, n: nat, style: Style)
    requires |style.colors| > 0 && startCol + n < |row|
    ensures Cells(row, widths, rowIndex, startCol, n + 1, style)
              == Cells(row, widths, rowIndex, startCol, n, style) + [CellAt(row, startCol + n, widths, rowIndex, style)]
  {
  }

  /** One step of FormatRow's loop: either the next cell does not fit and the count is reached,
      or it is taken and the loop's account of the row still holds. */
  lemma FormatRowStep(row: Row, widths: seq<nat>, rowIndex: Option<nat>, startCol: nat, avail: int,
                      style: Style, costs: seq<int>, cells: seq<Cell>, used: int, w: int, n: nat)
    requires |style.colors| > 0 && startCol + |cells| < |row|
    requires costs == Costs(row, widths, style.tabular, startCol)
    requires w == CellWidth(row, startCol + |cells|, widths, style.tabular) + 1
    requires TakeCount(costs, |cells|, used, avail) == n
    requires cells == Cells(row, widths, rowIndex, startCol, |cells|, style)
    ensures cells != [] && used + w > avail ==> |cells| == n
    ensures !(cells != [] && used + w > avail) ==>
              && cells + [CellAt(row, startCol + |cells|, widths, rowIndex, style)]
                   == Cells(row, widths, rowIndex, startCol, |cells| + 1, style)
              && TakeCount(costs, |cells| + 1, used + w, avail) == n
  {
    assert costs[|cells|] == w;
    CellsSnoc(row, widths, rowIndex, startCol, |cells|, style);
  }

  /** The line FormatRow returns: as many cells as the greedy count allows. */
  function FormatLine(row: Row, widths: seq<nat>, isHeader: bool, rowIndex: Option<nat>,
                      startCol: nat, avail: int, style: Style): Line
    requires |style.colors| > 0
  {
    var costs := Costs(row, widths, style.tabular, startCol);
    Line(Cells(row, widths, rowIndex, startCol, TakeCount(costs, 0, 0, avail), style), isHeader, rowIndex)
  }

  /** `line` shows `row` from `startCol` on: the greedy run of cells that fits `avail`, each
      built by CellAt. */
  ghost predicate IsFormatted(line: Line, row: Row, widths: seq<nat>, isHeader: bool,
                              rowIndex: Option<nat>, startCol: nat, avail: int, style: Style)
    requires |style.colors| > 0
  {
    && line.isHeader == isHeader && line.rowIndex == rowIndex
    && Greedy(Costs(row, widths, style.tabular, startCol), avail, |line.cells|)
    && forall k :: 0 <= k < |line.cells| ==>
         startCol + k < |row| && line.cells[k] == CellAt(row, startCol + k, widths, rowIndex, style)
  }

  /** FormatLine lays the row out as IsFormatted describes, and no other line does. */
  lemma FormatLineIsFormatted(line: Line, row: Row, widths: seq<nat>, isHeader: bool,
                              rowIndex: Option<nat>, startCol: nat, avail: int, style: Style)
    requires |style.colors| > 0
    ensures IsFormatted(FormatLine(row, widths, isHeader, rowIndex, startCol, avail, style),
                        row, widths, isHeader, rowIndex, startCol, avail, style)
    ensures IsFormatted(line, row, widths, isHeader, rowIndex, startCol, avail, style) ==>
              line == FormatLine(row, widths, isHeader, rowIndex, startCol, avail, style)
  {
    var costs := Costs(row, widths, style.tabular, startCol);
    assert PrefixSum(costs, 0) == 0 by {
      assert costs[..0] == [];
    }
    TakeCountIsGreedy(costs, 0, avail);
    var f := FormatLine(row, widths, isHeader, rowIndex, startCol, avail, style);
    if IsFormatted(line, row, widths, isHeader, rowIndex, startCol, avail, style) {
      GreedyIsUnique(costs, avail, |line.cells|, |f.cells|);
      assert line.cells == f.cells;
    }
  }

  // ------------------------------------------------------------------ header and row indices

  /** The maximum of one and the terminal width less the border. */
  function AvailableWidth(terminalWidth: int): int
  {
    if terminalWidth - 2 > 1 then terminalWidth - 2 else 1
  }

  /** The first visible row is taken for the header when it equals it. */
  function HeaderInRows(rows: seq<Row>, header: Row): bool
  {
    header != [] && rows != [] && rows[0] == header
  }

  /** The rows drawn below the pinned header: without the header row when it is pinned. */
  function BodyRows(rows: seq<Row>, header: Row, pinned: bool): seq<Row>
  {
    if pinned && HeaderInRows(rows, header) then rows[1..] else rows
  }

  /** The widths used by Render: over the header and the body rows, in tabular mode only. */
  function TableWidths(body: seq<Row>, header: Row, tabular: bool): seq<nat>
  {
    if tabular then ColumnWidths((if header != [] then [header] else []) + body) else []
  }

  /** The data row index of body row `i`: counted from `base`, skipping the unpinned header
      when it is the first row, which has none. */
  function RowLabel(i: nat, headerInRows: bool, pinned: bool, base: nat): Option<nat>
  {
    if headerInRows && !pinned then (if i == 0 then None else Some(base + (i - 1)))
    else Some(base + i)
  }

  /** What Render draws for the visible rows: the pinned header when there is one, then every
      body row with its header flag and data row index. */
  function Layout(rows: seq<Row>, header: Row, pinned: bool, base: nat, offset: nat, avail: int,
                  style: Style): seq<Line>
    requires |style.colors| > 0
  {
    HeadLines(header, pinned, TableWidths(BodyRows(rows, header, pinned), header, style.tabular),
              offset, avail, style)
    + BodyLines(BodyRows(rows, header, pinned),
                TableWidths(BodyRows(rows, header, pinned), header, style.tabular),
                HeaderInRows(rows, header), pinned, base, offset, avail, style)
  }

  /** The pinned header line, when the header is pinned and not empty: the header laid out as a
      header line with no row index. */
  function HeadLines(header: Row, pinned: bool, widths: seq<nat>, offset: nat, avail: int,
                     style: Style): (ls: seq<Line>)
    requires |style.colors| > 0
    ensures |ls| == if pinned && header != [] then 1 else 0
    ensures forall j :: 0 <= j < |ls| ==> IsFormatted(ls[j], header, widths, true, None, offset, avail, style)
  {
    if pinned && header != [] then
      var line := FormatLine(header, widths, true, None, offset, avail, style);
      FormatLineIsFormatted(line, header, widths, true, None, offset, avail, style);
      [line]
    else []
  }

  /** The lines of the body rows. */
  function BodyLines(body: seq<Row>, widths: seq<nat>, hir: bool, pinned: bool, base: nat,
                     offset: nat, avail: int, style: Style): (ls: seq<Line>)
    requires |style.colors| > 0
  {
    seq(|body|, j requires 0 <= j < |body| =>
          FormatLine(body[j], widths, hir && !pinned && j == 0, RowLabel(j, hir, pinned, base),
                     offset, avail, style))
  }

  lemma BodyLinesSnoc(rows: seq<Row>, i: nat, widths: seq<nat>, hir: bool, pinned: bool, base: nat,
                      offset: nat, avail: int, style: Style)
    requires |style.colors| > 0 && i < |rows|
    ensures BodyLines(rows[..i + 1], widths, hir, pinned, base, offset, avail, style)
              == BodyLines(rows[..i], widths, hir, pinned, base, offset, avail, style)
                 + [FormatLine(rows[i], widths, hir && !pinned && i == 0, RowLabel(i, hir, pinned, base),
                               offset, avail, style)]
  {
  }

  /** The layout has the pinned header line, when there is one, and a line per body row. */
  lemma LayoutShape(rows: seq<Row>, header: Row, pinned: bool, base: nat, offset: nat,
                    avail: int, style: Style)
    requires |style.colors| > 0
    ensures |Layout(rows, header, pinned, base, offset, avail, style)|
              == (if pinned && header != [] then 1 else 0) + |BodyRows(rows, header, pinned)|
    ensures pinned && header != [] ==>
              IsFormatted(Layout(rows, header, pinned, base, offset, avail, style)[0], header,
                          TableWidths(BodyRows(rows, header, pinned), header, style.tabular),
                          true, None, offset, avail, style)
  {
    var widths := TableWidths(BodyRows(rows, header, pinned), header, style.tabular);
    if pinned && header != [] {
      FormatLineIsFormatted(FormatLine(header, widths, true, None, offset, avail, style), header,
                            widths, true, None, offset, avail, style);
    }
  }

  /** Line `top + j` of the layout is the layout of body row `j`. */
  lemma LayoutLineAt(rows: seq<Row>, header: Row, pinned: bool, base: nat, offset: nat,
                     avail: int, style: Style, j: nat)
    requires |style.colors| > 0
    requires j < |BodyRows(rows, header, pinned)|
    ensures var top := if pinned && header != [] then 1 else 0;
            var body := BodyRows(rows, header, pinned);
            && top + j < |Layout(rows, header, pinned, base, offset, avail, style)|
            && Layout(rows, header, pinned, base, offset, avail, style)[top + j]
               == FormatLine(body[j], TableWidths(body, header, style.tabular),
                             HeaderInRows(rows, header) && !pinned && j == 0,
                             RowLabel(j, HeaderInRows(rows, header), pinned, base), offset, avail, style)
  {
    var body := BodyRows(rows, header, pinned);
    var widths := TableWidths(body, header, style.tabular);
    var head := HeadLines(header, pinned, widths, offset, avail, style);
    var bl := BodyLines(body, widths, HeaderInRows(rows, header), pinned, base, offset, avail, style);
    assert (head + bl)[|head| + j] == bl[j];
  }

  /** Body row `j` of the layout shows that row, flagged as the header only when it is the
      unpinned header row, with the index RowLabel gives it and the layout's column widths. */
  lemma LayoutBodyLine(rows: seq<Row>, header: Row, pinned: bool, base: nat, offset: nat,
                       avail: int, style: Style, j: nat)
    requires |style.colors| > 0
    requires j < |BodyRows(rows, header, pinned)|
    ensures var top := if pinned && header != [] then 1 else 0;
            var body := BodyRows(rows, header, pinned);
            && top + j < |Layout(rows, header, pinned, base, offset, avail, style)|
            && IsFormatted(Layout(rows, header, pinned, base, offset, avail, style)[top + j], body[j],
                           TableWidths(body, header, style.tabular),
                           HeaderInRows(rows, header) && !pinned && j == 0,
                           RowLabel(j, HeaderInRows(rows, header), pinned, base), offset, avail, style)
  {
    var body := BodyRows(rows, header, pinned);
    var hir := HeaderInRows(rows, header);
    LayoutLineAt(rows, header, pinned, base, offset, avail, style, j);
    var line := FormatLine(body[j], TableWidths(body, header, style.tabular), hir && !pinned && j == 0,
                           RowLabel(j, hir, pinned, base), offset, avail, style);
    FormatLineIsFormatted(line, body[j], TableWidths(body, header, style.tabular), hir && !pinned && j == 0,
                          RowLabel(j, hir, pinned, base), offset, avail, style);
  }

  /** The rows the model shows (the header, when the window starts at row 0, then the cache),
      laid out with the window's start as base: the one unlabelled row is the unpinned header,
      and every other row is labelled with its own data row number, unless the window starts
      further down and its first data row equals the header. */
  lemma RowLabelsAreDataRows(header: Row, cache: seq<Row>, start: nat, pinned: bool, i: nat)
    requires header != []
    requires start == 0 || cache == [] || cache[0] != header
    requires i < |BodyRows((if start == 0 then [header] else []) + cache, header, pinned)|
    ensures var rows := (if start == 0 then [header] else []) + cache;
            var body := BodyRows(rows, header, pinned);
            var shown := RowLabel(i, HeaderInRows(rows, header), pinned, start);
            && (shown.None? <==> start == 0 && !pinned && i == 0)
            && (shown.None? ==> body[i] == header)
            && (shown.Some? ==> start <= shown.value < start + |cache|
                                && body[i] == cache[shown.value - start])
  {
  }

  /** A window further down whose first data row equals the header: the view takes that row
      for the header and, with the header pinned, drops it. */
  lemma DuplicateHeaderRowIsHidden(header: Row, cache: seq<Row>, start: nat)
    requires header != [] && start > 0 && cache != [] && cache[0] == header
    ensures var rows := (if start == 0 then [header] else []) + cache;
            HeaderInRows(rows, header) && BodyRows(rows, header, true) == cache[1..]
  {
  }

  /** In the same window every row shown below the dropped or unlabelled copy of the header is
      labelled one less than the data row it holds: unpinned, row 0 has no label and row `i`
      (data row `start + i`) is labelled `start + i - 1`; pinned, row `i` holds data row
      `start + i + 1` and is labelled `start + i`. */
  lemma HeaderCopyShiftsLabels(header: Row, cache: seq<Row>, start: nat, pinned: bool, i: nat)
    requires header != [] && start > 0 && cache != [] && cache[0] == header
    requires i < |BodyRows(cache, header, pinned)|
    ensures var body := BodyRows(cache, header, pinned);
            var shown := RowLabel(i, HeaderInRows(cache, header), pinned, start);
            && (!pinned ==> body[i] == cache[i] && (shown.None? <==> i == 0)
                            && (i > 0 ==> shown == Some(start + i - 1)))
            && (pinned ==> body[i] == cache[i + 1] && shown == Some(start + i))
  {
  }

  // ------------------------------------------------------------------ column colours

  /** The colour of column `i` given the colour table. */
  function ColumnColor(colors: seq<Color>, i: nat): Color
    requires |colors| > 0
  {
    colors[i % |colors|]
  }

  /** With the sixteen-entry table the view builds, columns sixteen apart share a colour and
      the first sixteen columns all differ. */
  lemma ColumnColorsCycle(colors: seq<Color>, i: nat)
    requires |colors| == |Palette|
    requires forall k :: 0 <= k < |colors| ==> colors[k] == Palette[k % |Palette|]
    ensures ColumnColor(colors, i) == Palette[i % |Palette|]
    ensures ColumnColor(colors, i + |Palette|) == ColumnColor(colors, i)
    ensures forall j, k :: 0 <= j < k < |Palette| ==> ColumnColor(colors, j) != ColumnColor(colors, k)
  {
    var n := |Palette|;
    assert n == 16;
    var r := i % n;
    assert 0 <= r < n;
    assert colors[r] == Palette[r % n];
    assert r % n == r;
    assert (i + n) % n == r;
    forall j, k | 0 <= j < k < n
      ensures ColumnColor(colors, j) != ColumnColor(colors, k)
    {
      assert j % n == j && k % n == k;
      PaletteDistinct(j, k);
    }
  }

  /** The sixteen palette colours are all different. */
  lemma PaletteDistinct(j: nat, k: nat)
    requires j < k < |Palette|
    ensures Palette[j] != Palette[k]
  {
  }

  // ------------------------------------------------------------------ laying out rows

  /** The value split around the first match of the search pattern, when there is one. */
  method HighlightValue(value: string, pattern: string, isCurrent: bool) returns (segments: seq<Segment>)
    ensures segments == Highlight(value, pattern, isCurrent)
  {
    segments := [];
    if pattern != "" {
      var pos := Find(value, pattern);
      if pos.Some? {
        var pre := value[..pos.value];
        var mid := value[pos.value..pos.value + |pattern|];
        var post := value[pos.value + |pattern|..];
        if pre != "" {
          segments := segments + [Plain(pre)];
        }
        segments := segments + [Marked(mid, isCurrent)];
        if post != "" {
          segments := segments + [Plain(post)];
        }
      } else {
        segments := segments + [Plain(value)];
      }
    } else {
      segments := segments + [Plain(value)];
    }
  }

  /** One cell of FormatRow: the value split around the search match, the padding up to the
      cell's width, the separator, and the column's colour. */
  method FormatCell(row: Row, i: nat, columnWidths: seq<nat>, rowIndex: Option<nat>, style: Style)
    returns (cell: Cell)
    requires i < |row| && |style.colors| > 0
    ensures cell == CellAt(row, i, columnWidths, rowIndex, style)
  {
    var value := row[i];
    var width := if style.tabular && i < |columnWidths| then columnWidths[i] else |value|;
    var isCurrent := rowIndex.Some? && style.matchRow.Some? && style.matchCol.Some?
                     && rowIndex.value == style.matchRow.value && i == style.matchCol.value;
    var segments := HighlightValue(value, style.pattern, isCurrent);
    var pad := width - |value|;
    if pad > 0 {
      segments := segments + [Plain(Spaces(pad))];
    }
    segments := segments + [Plain(";")];
    cell := Cell(i, segments, style.colors[i % |style.colors|]);
  }

  /** Lays out one row: cells from `startCol` on, as many as fit `availableWidth` (always the
      first), each padded to its width and split around the search match. */
  method FormatRow(row: Row, columnWidths: seq<nat>, isHeader: bool, rowIndex: Option<nat>,
                   startCol: nat, availableWidth: int, style: Style) returns (line: Line)
    requires |style.colors| > 0
    ensures line == FormatLine(row, columnWidths, isHeader, rowIndex, startCol, availableWidth, style)
  {
    ghost var costs := Costs(row, columnWidths, style.tabular, startCol);
    ghost var n := TakeCount(costs, 0, 0, availableWidth);
    var cells: seq<Cell> := [];
    var usedWidth := 0;
    var i := startCol;
    while i < |row|
      invariant i == startCol + |cells| && |cells| <= |costs|
      invariant TakeCount(costs, |cells|, usedWidth, availableWidth) == n
      invariant cells == Cells(row, columnWidths, rowIndex, startCol, |cells|, style)
    {
      var cellWidth := CellWidth(row, i, columnWidths, style.tabular) + 1;
      FormatRowStep(row, columnWidths, rowIndex, startCol, availableWidth, style, costs, cells, usedWidth,
                    cellWidth, n);
      if cells != [] && usedWidth + cellWidth > availableWidth {
        break;
      }
      var cell := FormatCell(row, i, columnWidths, rowIndex, style);
      usedWidth := usedWidth + cellWidth;
      cells := cells + [cell];
      i := i + 1;
    }
    assert |cells| == n;
    line := Line(cells, isHeader, rowIndex);
  }

  /** The lines of the body rows, each with its header flag and data row index. */
  method FormatBody(rows: seq<Row>, columnWidths: seq<nat>, headerInRows: bool, pinned: bool,
                    base: nat, offset: nat, availableWidth: int, style: Style)
    returns (lines: seq<Line>)
    requires |style.colors| > 0
    ensures lines == BodyLines(rows, columnWidths, headerInRows, pinned, base, offset, availableWidth, style)
  {
    lines := [];
    for i := 0 to |rows|
      invariant lines == BodyLines(rows[..i], columnWidths, headerInRows, pinned, base, offset,
                                   availableWidth, style)
    {
      var isHeaderRow := headerInRows && !pinned && i == 0;
      var rowIndex: Option<nat> := None;
      if !isHeaderRow {
        var dataIdx := if headerInRows && !pinned then i - 1 else i;
        rowIndex := Some(base + dataIdx);
      }
      assert rowIndex == RowLabel(i, headerInRows, pinned, base);
      var line := FormatRow(rows[i], columnWidths, isHeaderRow, rowIndex, offset, availableWidth, style);
      BodyLinesSnoc(rows, i, columnWidths, headerInRows, pinned, base, offset, availableWidth, style);
      lines := lines + [line];
    }
    assert rows[..|rows|] == rows;
  }

  /** Render on the rows the model shows and the view's settings. */
  method RenderRows(visible: seq<Row>, header: Row, pinned: bool, base: nat, offset: nat,
                    terminalWidth: int, style: Style, command: string, last: string)
    returns (frame: Frame)
    requires |style.colors| > 0
    ensures visible == [] && header == [] ==> frame == NoData
    ensures !(visible == [] && header == []) ==>
              frame == Table(Layout(visible, header, pinned, base, offset, AvailableWidth(terminalWidth), style),
                             ":" + command, "Last: " + last)
  {
    var rows := visible;
    var hasHeader := header != [];
    if rows == [] && !hasHeader {
      return NoData;
    }
    var availableWidth := if terminalWidth - 2 > 1 then terminalWidth - 2 else 1;
    var headerInRows := hasHeader && rows != [] && rows[0] == header;
    if pinned && headerInRows {
      rows := rows[1..];
    }
    var widthRows := rows;
    if hasHeader {
      widthRows := [header] + widthRows;
    }
    var columnWidths: seq<nat> := [];
    if style.tabular {
      columnWidths := ComputeColumnWidths(widthRows);
      assert columnWidths == ColumnWidths(widthRows);
    }
    assert widthRows == (if hasHeader then [header] else []) + rows;
    var lines: seq<Line> := [];
    if pinned && hasHeader {
      var line := FormatRow(header, columnWidths, true, None, offset, availableWidth, style);
      lines := [line];
    }
    var body := FormatBody(rows, columnWidths, headerInRows, pinned, base, offset, availableWidth, style);
    lines := lines + body;
    frame := Table(lines, ":" + command, "Last: " + last);
  }

  /** The colour table with `count` entries cycling through the palette. */
  method InitColumnColors(count: nat) returns (colors: seq<Color>)
    ensures |colors| == count
    ensures forall i :: 0 <= i < count ==> colors[i] == Palette[i % |Palette|]
  {
    colors := [];
    for i := 0 to count
      invariant |colors| == i
      invariant forall j :: 0 <= j < i ==> colors[j] == Palette[j % |Palette|]
    {
      colors := colors + [Palette[i % |Palette|]];
    }
  }

  // ------------------------------------------------------------------ the view object

  class View {
    const model: CsvModel.Model
    var headerPinned: bool
    var tabularMode: bool
    var columnOffset: nat
    var currentCommand: string
    var lastCommand: string
    var searchPattern: string
    var startRowBase: nat
    var currentMatchRow: Option<nat>
    var currentMatchCol: Option<nat>
    /** Built once, by the constructor. */
    const columnColors: seq<Color>

    ghost predicate Valid()
    {
      |columnColors| > 0
    }

    function CurrentStyle(): Style
      reads this
    {
      Style(tabularMode, searchPattern, currentMatchRow, currentMatchCol, columnColors)
    }

    constructor (model: CsvModel.Model)
      ensures this.model == model && Valid()
      ensures headerPinned && tabularMode && columnOffset == 0 && startRowBase == 0
      ensures currentCommand == "" && lastCommand == "" && searchPattern == ""
      ensures currentMatchRow == None && currentMatchCol == None
      ensures |columnColors| == 16
      ensures forall i :: 0 <= i < |columnColors| ==> columnColors[i] == Palette[i % |Palette|]
    {
      this.model := model;
      headerPinned := true;
      tabularMode := true;
      columnOffset := 0;
      currentCommand := "";
      lastCommand := "";
      searchPattern := "";
      startRowBase := 0;
      currentMatchRow := None;
      currentMatchCol := None;
      var colors := InitColumnColors(16);
      columnColors := colors;
    }

    method ToggleHeaderPinned()
      modifies this`headerPinned
      ensures headerPinned == !old(headerPinned)
    {
      headerPinned := !headerPinned;
    }

    method ToggleTabularMode()
      modifies this`tabularMode
      ensures tabularMode == !old(tabularMode)
    {
      tabularMode := !tabularMode;
    }

    method SetCommandLine(current: string, last: string)
      modifies this`currentCommand, this`lastCommand
      ensures currentCommand == current && lastCommand == last
    {
      currentCommand := current;
      lastCommand := last;
    }

    method SetSearchPattern(pattern: string)
      modifies this`searchPattern
      ensures searchPattern == pattern
    {
      searchPattern := pattern;
    }

    method SetStartRow(startRow: nat)
      modifies this`startRowBase
      ensures startRowBase == startRow
    {
      startRowBase := startRow;
    }

    method SetCurrentMatch(row: Option<nat>, col: Option<nat>)
      modifies this`currentMatchRow, this`currentMatchCol
      ensures currentMatchRow == row && currentMatchCol == col
    {
      currentMatchRow := row;
      currentMatchCol := col;
    }

    /** The number of columns: the header's size or the longest row's, whichever is larger. */
    method MaxColumns(rows: seq<Row>) returns (maxCols: nat)
      ensures maxCols == CsvModel.Max(|model.header|, MaxLen(rows))
    {
      maxCols := |model.header|;
      for k := 0 to |rows|
        invariant maxCols == CsvModel.Max(|model.header|, MaxLen(rows[..k]))
      {
        assert rows[..k + 1][..k] == rows[..k];
        maxCols := CsvModel.Max(maxCols, |rows[k]|);
      }
      assert rows[..|rows|] == rows;
    }

    /** Moves the first shown column by `delta`, clamped to the columns of the visible rows. */
    method AdjustColumnOffset(delta: int)
      modifies this`columnOffset
      ensures columnOffset == ClampOffset(old(columnOffset), delta,
                                          CsvModel.Max(|model.header|, MaxLen(model.Visible())))
    {
      var rows := model.GetVisibleRows();
      assert rows == model.Visible();
      var maxCols := MaxColumns(rows);
      var next := columnOffset + delta;
      if next < 0 {
        next := 0;
      }
      if maxCols == 0 {
        columnOffset := next;
      } else {
        columnOffset := if next < maxCols - 1 then next else maxCols - 1;
      }
    }

    /** Lays out the visible rows: nothing to show when there are no rows and no header;
        otherwise the pinned header, then each row with its header flag and data row index. */
    method Render(terminalWidth: int) returns (frame: Frame)
      requires Valid()
      ensures model.Visible() == [] && model.header == [] ==> frame == NoData
      ensures !(model.Visible() == [] && model.header == []) ==>
                frame == Table(Layout(model.Visible(), model.header, headerPinned, startRowBase,
                                      columnOffset, AvailableWidth(terminalWidth), CurrentStyle()),
                               ":" + currentCommand, "Last: " + lastCommand)
    {
      var rows := model.GetVisibleRows();
      assert rows == model.Visible();
      frame := RenderRows(rows, model.header, headerPinned, startRowBase, columnOffset, terminalWidth,
                          CurrentStyle(), currentCommand, lastCommand);
    }
  }
}

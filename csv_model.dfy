/**
 * The row model of the viewer (src/csv_model.cpp). The open file is the sequence of lines that
 * `std::getline` yields; the first is the header. The model sniffs the delimiter from the header
 * line, splits lines into fields the way `std::getline(stream, token, delimiter)` does, counts
 * the data rows when the file is opened and caches the rows of the current viewport.
 */
module CsvModel {
  import opened Wrappers

  /** One parsed line: its fields in file order. */
  type Row = seq<string>

  /** The delimiters the sniffer tries, in the order that breaks ties. */
  const Candidates: seq<char> := [',', '\t', ';', '|']

  function Min(a: int, b: int): int { if a <= b then a else b }

  function Max(a: nat, b: nat): nat { if a >= b then a else b }

  // ------------------------------------------------------------------ delimiter sniffing

  /** Occurrences of `c` in `s` (`std::count`). */
  function Count(s: string, c: char): nat
  {
    if |s| == 0 then 0 else Count(s[..|s| - 1], c) + (if s[|s| - 1] == c then 1 else 0)
  }

  /** Count is the multiplicity of `c` in the multiset of the characters of `s`. */
  lemma {:induction false} CountIsMultiplicity(s: string, c: char)
    ensures Count(s, c) == multiset(s)[c]
  {
    if |s| > 0 {
      CountIsMultiplicity(s[..|s| - 1], c);
      assert s == s[..|s| - 1] + [s[|s| - 1]];
    }
  }

  /** Best score and best delimiter once the first `k` candidates have been tried: a candidate
      replaces the best one only when it occurs strictly more often. */
  function SniffPrefix(line: string, k: nat): (nat, char)
    requires k <= |Candidates|
  {
    if k == 0 then (0, ',')
    else
      var prev := SniffPrefix(line, k - 1);
      var c := Count(line, Candidates[k - 1]);
      if c > prev.0 then (c, Candidates[k - 1]) else prev
  }

  /** The delimiter that DetectDelimiter picks for a header line. */
  function Sniff(line: string): char
  {
    SniffPrefix(line, |Candidates|).1
  }

  /** After `k` candidates the best delimiter is the first of them with the greatest count,
      and the best score is that count. */
  lemma {:induction false} SniffPrefixWinner(line: string, k: nat) returns (w: nat)
    requires 1 <= k <= |Candidates|
    ensures w < k && Candidates[w] == SniffPrefix(line, k).1
    ensures Count(line, Candidates[w]) == SniffPrefix(line, k).0
    ensures forall j :: 0 <= j < k ==> Count(line, Candidates[j]) <= SniffPrefix(line, k).0
    ensures forall j :: 0 <= j < w ==> Count(line, Candidates[j]) < SniffPrefix(line, k).0
  {
    if k == 1 {
      w := 0;
    } else {
      var v := SniffPrefixWinner(line, k - 1);
      if Count(line, Candidates[k - 1]) > SniffPrefix(line, k - 1).0 {
        w := k - 1;
      } else {
        w := v;
      }
    }
  }

  /** The sniffer returns a candidate that occurs at least as often as every other one and
      strictly more often than every earlier one; when no candidate occurs it returns `,`. */
  lemma SniffPicksEarliestMostFrequent(line: string)
    ensures Sniff(line) in Candidates
    ensures forall c :: c in Candidates ==> Count(line, c) <= Count(line, Sniff(line))
    ensures forall j, k :: 0 <= j < k < |Candidates| && Candidates[k] == Sniff(line) ==>
              Count(line, Candidates[j]) < Count(line, Sniff(line))
    ensures (forall c :: c in Candidates ==> Count(line, c) == 0) ==> Sniff(line) == ','
  {
    var w := SniffPrefixWinner(line, |Candidates|);
    assert forall i, j :: 0 <= i < j < |Candidates| ==> Candidates[i] != Candidates[j];
    if forall c :: c in Candidates ==> Count(line, c) == 0 {
      assert Candidates[0] in Candidates;
    }
  }

  /** A header line `a;b;c` is split on `;` although `,` comes first among the candidates. */
  lemma SniffSemicolonExample()
    ensures Sniff("a;b;c") == ';'
  {
    var line := "a;b;c";
    CountIsMultiplicity(line, ',');
    CountIsMultiplicity(line, '\t');
    CountIsMultiplicity(line, ';');
    CountIsMultiplicity(line, '|');
    assert multiset(line) == multiset{'a', ';', 'b', ';', 'c'};
    assert SniffPrefix("a;b;c", 2) == (0, ',');
    assert SniffPrefix("a;b;c", 3) == (2, ';');
  }

  // ------------------------------------------------------------------ splitting a line

  /** All pieces of `s` between delimiters `d`. */
  function Fields(s: string, d: char): (r: seq<string>)
    ensures |r| >= 1
  {
    if |s| == 0 then [""]
    else
      var init := Fields(s[..|s| - 1], d);
      var last := s[|s| - 1];
      if last == d then init + [""]
      else init[..|init| - 1] + [init[|init| - 1] + [last]]
  }

  /** There is one piece more than there are delimiters, and no piece holds the delimiter. */
  lemma {:induction false} FieldsShape(s: string, d: char)
    ensures |Fields(s, d)| == Count(s, d) + 1
    ensures forall k :: 0 <= k < |Fields(s, d)| ==> d !in Fields(s, d)[k]
  {
    if |s| > 0 {
      FieldsShape(s[..|s| - 1], d);
    }
  }

  /** The pieces glued back together with `d` between neighbours. */
  function Join(ts: seq<string>, d: char): string
  {
    if |ts| == 0 then ""
    else if |ts| == 1 then ts[0]
    else Join(ts[..|ts| - 1], d) + [d] + ts[|ts| - 1]
  }

  /** Extending the last piece extends the joined text. */
  lemma JoinExtendLast(f: seq<string>, d: char, c: char)
    requires |f| >= 1
    ensures Join(f[..|f| - 1] + [f[|f| - 1] + [c]], d) == Join(f, d) + [c]
  {
    var n := |f|;
    var g := f[..n - 1] + [f[n - 1] + [c]];
    assert g[..n - 1] == f[..n - 1];
  }

  /** An empty last piece adds only the delimiter. */
  lemma JoinAppendEmpty(f: seq<string>, d: char)
    requires |f| >= 1
    ensures Join(f + [""], d) == Join(f, d) + [d]
  {
    assert (f + [""])[..|f|] == f;
  }

  lemma InitLast<T>(s: seq<T>)
    requires |s| > 0
    ensures s[..|s| - 1] + [s[|s| - 1]] == s
  {
  }

  /** Joining the pieces of a text one character longer. */
  lemma JoinFieldsStep(s: string, d: char)
    requires |s| > 0 && Join(Fields(s[..|s| - 1], d), d) == s[..|s| - 1]
    ensures Join(Fields(s, d), d) == s
  {
    var init := s[..|s| - 1];
    var last := s[|s| - 1];
    var f := Fields(init, d);
    InitLast(s);
    if last == d {
      assert Fields(s, d) == f + [""];
      JoinAppendEmpty(f, d);
    } else {
      assert Fields(s, d) == f[..|f| - 1] + [f[|f| - 1] + [last]];
      JoinExtendLast(f, d, last);
    }
  }

  /** Joining the pieces of a string gives the string back. */
  lemma {:induction false} JoinFields(s: string, d: char)
    ensures Join(Fields(s, d), d) == s
  {
    if |s| > 0 {
      JoinFields(s[..|s| - 1], d);
      JoinFieldsStep(s, d);
    }
  }

  /** The tokens that successive `std::getline(stream, token, d)` calls extract from `s`: the
      pieces between delimiters, less a final empty piece (a trailing delimiter, or an empty
      line, ends the stream without producing a token). */
  function Tokens(s: string, d: char): seq<string>
  {
    var f := Fields(s, d);
    if f[|f| - 1] == "" then f[..|f| - 1] else f
  }

  /** No token holds the delimiter. */
  lemma TokensHaveNoDelimiter(s: string, d: char)
    ensures forall k :: 0 <= k < |Tokens(s, d)| ==> d !in Tokens(s, d)[k]
  {
    FieldsShape(s, d);
  }

  /** An empty line gives no tokens, and only an empty line does. */
  lemma TokensEmptyIffLineEmpty(s: string, d: char)
    ensures Tokens(s, d) == [] <==> s == ""
  {
    if |s| > 0 {
      var init := Fields(s[..|s| - 1], d);
      if s[|s| - 1] == d {
        assert Fields(s, d) == init + [""];
        assert Tokens(s, d) == init;
      } else {
        assert Fields(s, d)[|Fields(s, d)| - 1] == init[|init| - 1] + [s[|s| - 1]];
      }
    }
  }

  /** The tokens joined with the delimiter give the line back, less its trailing delimiter when
      it has one. */
  lemma JoinTokens(s: string, d: char)
    requires s != ""
    ensures s[|s| - 1] != d ==> Join(Tokens(s, d), d) == s
    ensures s[|s| - 1] == d ==> Join(Tokens(s, d), d) + [d] == s
  {
    JoinFields(s, d);
    var init := Fields(s[..|s| - 1], d);
    assert s == s[..|s| - 1] + [s[|s| - 1]];
    if s[|s| - 1] == d {
      assert Fields(s, d) == init + [""];
      assert (init + [""])[..|init|] == init;
    } else {
      assert Fields(s, d)[|Fields(s, d)| - 1] == init[|init| - 1] + [s[|s| - 1]];
    }
  }

  /** A string without the delimiter is a single piece. */
  lemma {:induction false} FieldsOfPlain(t: string, d: char)
    requires d !in t
    ensures Fields(t, d) == [t]
  {
    if |t| > 0 {
      FieldsOfPlain(t[..|t| - 1], d);
      assert t == t[..|t| - 1] + [t[|t| - 1]];
    }
  }

  /** Appending a delimiter and a plain piece appends that piece. */
  lemma {:induction false} FieldsAppendPiece(a: string, d: char, t: string)
    requires d !in t
    ensures Fields(a + [d] + t, d) == Fields(a, d) + [t]
    decreases |t|
  {
    var s := a + [d] + t;
    if |t| == 0 {
      assert s[..|s| - 1] == a;
    } else {
      var t' := t[..|t| - 1];
      FieldsAppendPiece(a, d, t');
      assert s[..|s| - 1] == a + [d] + t';
      assert t == t' + [t[|t| - 1]];
    }
  }

  /** Splitting what Join glued together gives the pieces back, when no piece holds the
      delimiter and the last piece is not empty. */
  lemma {:induction false} TokensOfJoin(ts: seq<string>, d: char)
    requires |ts| >= 1
    requires forall k :: 0 <= k < |ts| ==> d !in ts[k]
    requires ts[|ts| - 1] != ""
    ensures Tokens(Join(ts, d), d) == ts
  {
    FieldsOfJoin(ts, d);
  }

  lemma {:induction false} FieldsOfJoin(ts: seq<string>, d: char)
    requires |ts| >= 1
    requires forall k :: 0 <= k < |ts| ==> d !in ts[k]
    ensures Fields(Join(ts, d), d) == ts
  {
    if |ts| == 1 {
      FieldsOfPlain(ts[0], d);
    } else {
      var init := ts[..|ts| - 1];
      FieldsOfJoin(init, d);
      FieldsAppendPiece(Join(init, d), d, ts[|ts| - 1]);
      assert ts == init + [ts[|ts| - 1]];
    }
  }

  // ------------------------------------------------------------------ the viewport window

  /** Every line split into its tokens. */
  function SplitAll(ls: seq<string>, d: char): (rows: seq<Row>)
    ensures |rows| == |ls|
  {
    if |ls| == 0 then [] else SplitAll(ls[..|ls| - 1], d) + [Tokens(ls[|ls| - 1], d)]
  }

  /** Row `k` of SplitAll is the tokens of line `k`. */
  lemma {:induction false} SplitAllPointwise(ls: seq<string>, d: char)
    ensures forall k :: 0 <= k < |ls| ==> SplitAll(ls, d)[k] == Tokens(ls[k], d)
  {
    if |ls| > 0 {
      SplitAllPointwise(ls[..|ls| - 1], d);
    }
  }

  lemma SliceSnoc<T>(s: seq<T>, a: nat, b: nat)
    requires a <= b < |s|
    ensures s[a..b + 1] == s[a..b] + [s[b]]
  {
  }

  /** The rows the loop of LoadRows holds once it has read the data lines before `current`. */
  function ReadSoFar(data: seq<string>, d: char, start: nat, current: nat): (rows: seq<Row>)
    requires current <= |data|
    ensures |rows| == if current <= start then 0 else current - start
  {
    if current <= start then [] else SplitAll(data[start..current], d)
  }

  /** One line more in the window. */
  lemma ReadWindowStep(data: seq<string>, d: char, start: nat, current: nat)
    requires start <= current < |data|
    ensures ReadSoFar(data, d, start, current) + [Tokens(data[current], d)]
              == ReadSoFar(data, d, start, current + 1)
  {
    SliceSnoc(data, start, current);
    SplitAllSnoc(data[start..current], data[current], d);
    assert data[start..start] == [];
  }

  lemma SplitAllSnoc(ls: seq<string>, x: string, d: char)
    ensures SplitAll(ls + [x], d) == SplitAll(ls, d) + [Tokens(x, d)]
  {
    assert (ls + [x])[..|ls|] == ls;
  }

  /** The rows LoadRows caches: `count` data lines from `start`, at least one, cut short at the
      end of the file; nothing when `start` is past the last data line. */
  function Window(data: seq<string>, d: char, start: nat, count: nat): seq<Row>
  {
    if start >= |data| then [] else SplitAll(data[start..Min(start + Max(count, 1), |data|)], d)
  }

  /** The window is empty when it starts past the data; otherwise it holds `count` rows (one
      when `count` is zero) or as many as remain, and row `k` is the split of data line
      `start + k`. */
  lemma WindowShape(data: seq<string>, d: char, start: nat, count: nat)
    ensures start >= |data| ==> Window(data, d, start, count) == []
    ensures start < |data| ==> |Window(data, d, start, count)| == Min(Max(count, 1), |data| - start)
    ensures forall k :: 0 <= k < |Window(data, d, start, count)| ==>
              start + k < |data| && Window(data, d, start, count)[k] == Tokens(data[start + k], d)
  {
    if start < |data| {
      SplitAllPointwise(data[start..Min(start + Max(count, 1), |data|)], d);
    }
  }

  /** A sequence of rows with the size of a window and, row by row, the tokens of the window's
      lines, is that window. */
  lemma WindowFromRows(data: seq<string>, d: char, start: nat, count: nat, rows: seq<Row>)
    requires |rows| == if start < |data| then Min(Max(count, 1), |data| - start) else 0
    requires forall k :: 0 <= k < |rows| ==> start + k < |data| && rows[k] == Tokens(data[start + k], d)
    ensures rows == Window(data, d, start, count)
  {
    WindowShape(data, d, start, count);
  }

  /** A window that starts inside the data is the split of the lines it covers. */
  lemma WindowIsSplitAll(data: seq<string>, d: char, start: nat, count: nat, end: nat)
    requires start < end <= |data|
    requires end - start <= Max(count, 1)
    requires end == |data| || end - start == Max(count, 1)
    ensures Window(data, d, start, count) == SplitAll(data[start..end], d)
  {
    assert Min(start + Max(count, 1), |data|) == end;
  }

  /** A requested count of zero still yields one row, when there is one to show. */
  lemma WindowOfZeroCount(data: seq<string>, d: char, start: nat)
    requires start < |data|
    ensures Window(data, d, start, 0) == [Tokens(data[start], d)]
  {
  }

  /** Splits a line on `delimiter` into the tokens std::getline yields. */
  method SplitLine(line: string, delimiter: char) returns (tokens: seq<string>)
    ensures tokens == Tokens(line, delimiter)
  {
    tokens := [];
    var token := "";
    for i := 0 to |line|
      invariant tokens + [token] == Fields(line[..i], delimiter)
    {
      var c := line[i];
      assert line[..i + 1][..i] == line[..i];
      assert (tokens + [token])[..|tokens|] == tokens;
      if c == delimiter {
        tokens := tokens + [token];
        token := "";
      } else {
        token := token + [c];
      }
    }
    assert line[..|line|] == line;
    if token != "" {
      tokens := tokens + [token];
    }
  }

  /** Counts the lines after the first one, reading them one at a time. */
  method CountDataLines(fileLines: seq<string>) returns (count: nat)
    requires |fileLines| >= 1
    ensures count == |fileLines| - 1
  {
    count := 0;
    var i := 1;
    while i < |fileLines|
      invariant 1 <= i <= |fileLines|
      invariant count == i - 1
    {
      count := count + 1;
      i := i + 1;
    }
  }

  /** The loop of LoadRows: skips the data lines before `start`, then splits lines until the
      window holds `count` rows (at least one) or the file ends. */
  method ReadWindow(fileLines: seq<string>, d: char, start: nat, count: nat) returns (rows: seq<Row>)
    requires |fileLines| >= 1
    ensures rows == Window(fileLines[1..], d, start, count)
  {
    var data := fileLines[1..];
    rows := [];
    var current := 0;
    while current < |data|
      invariant current <= |data|
      invariant rows == ReadSoFar(data, d, start, current)
      invariant |rows| < Max(count, 1)
    {
      if current >= start {
        var tokens := SplitLine(data[current], d);
        ReadWindowStep(data, d, start, current);
        rows := rows + [tokens];
        if |rows| >= count {
          WindowIsSplitAll(data, d, start, count, current + 1);
          return;
        }
      }
      current := current + 1;
    }
    if current > start {
      WindowIsSplitAll(data, d, start, count, current);
    }
  }

  // ------------------------------------------------------------------ the model object

  class Model {
    var filePath: string
    /** Whether the file handle is open. */
    var isOpen: bool
    /** The lines of the open file, header first; empty while closed. */
    var lines: seq<string>
    var delimiter: char
    var hasHeader: bool
    var rowCount: nat
    var header: Row
    var currentStartRow: nat
    var currentRowCount: nat
    var rowCache: seq<Row>

    /** An open model holds a non-empty header line, the header split on the delimiter sniffed
        from it, and the number of data lines; a closed one holds nothing. */
    ghost predicate Valid()
      reads this
    {
      && (isOpen ==>
            && |lines| >= 1 && lines[0] != ""
            && delimiter == Sniff(lines[0])
            && header == Tokens(lines[0], delimiter)
            && rowCount == |lines| - 1)
      && (!isOpen ==> lines == [] && header == [] && rowCount == 0 && rowCache == [])
    }

    /** The data lines: every line after the header. */
    function DataLines(): seq<string>
      reads this`lines
    {
      if |lines| == 0 then [] else lines[1..]
    }

    /** The cache holds the window of the current viewport. */
    ghost predicate CacheLoaded()
      reads this
    {
      isOpen ==> rowCache == Window(DataLines(), delimiter, currentStartRow, currentRowCount)
    }

    /** The model is consistent and holds the window of `count` rows from `start`. */
    ghost predicate Viewing(start: nat, count: nat)
      reads this
    {
      Valid() && CacheLoaded() && currentStartRow == start && currentRowCount == count
    }

    /** What GetVisibleRows returns. */
    ghost function Visible(): seq<Row>
      reads this
    {
      (if hasHeader && currentStartRow == 0 then [header] else []) + rowCache
    }

    constructor ()
      ensures Valid() && !isOpen
      ensures delimiter == ',' && hasHeader && filePath == ""
      ensures currentStartRow == 0 && currentRowCount == 0
    {
      filePath := "";
      isOpen := false;
      lines := [];
      delimiter := ',';
      hasHeader := true;
      rowCount := 0;
      header := [];
      currentStartRow := 0;
      currentRowCount := 0;
      rowCache := [];
    }

    /** Opens a file given by its lines (`None` when it cannot be opened). Fails, leaving the
        closed state, when the file cannot be opened or its first line is empty; otherwise
        sniffs the delimiter, splits the header and counts the remaining lines. */
    method Open(path: string, file: Option<seq<string>>) returns (ok: bool)
      modifies this
      ensures Valid()
      ensures filePath == path && hasHeader == old(hasHeader)
      ensures ok <==> file.Some? && |file.value| > 0 && file.value[0] != ""
      ensures ok ==> isOpen && lines == file.value
      ensures ok ==> delimiter == Sniff(lines[0]) && header == Tokens(lines[0], delimiter)
      ensures ok ==> rowCount == |lines| - 1
      ensures !ok ==> !isOpen && delimiter == old(delimiter)
      ensures rowCache == [] && currentStartRow == 0 && currentRowCount == 0
    {
      Close();
      filePath := path;
      if file.None? {
        return false;
      }
      var fileLines := file.value;
      var firstLine := if |fileLines| > 0 then fileLines[0] else "";
      if firstLine == "" {
        // The handle is closed again: the state stays as the first Close left it.
        return false;
      }
      DetectDelimiter(firstLine);
      var firstRow := SplitLine(firstLine, delimiter);
      var count := CountDataLines(fileLines);
      isOpen, lines, header, rowCount := true, fileLines, firstRow, count;
      ok := true;
    }

    /** Closes the file and resets the header, the counts, the viewport and the cache. */
    method Close()
      modifies this
      ensures !isOpen && lines == []
      ensures rowCache == [] && header == [] && rowCount == 0
      ensures currentStartRow == 0 && currentRowCount == 0
      ensures delimiter == old(delimiter) && hasHeader == old(hasHeader)
      ensures filePath == old(filePath)
    {
      isOpen := false;
      lines := [];
      rowCache := [];
      currentStartRow := 0;
      currentRowCount := 0;
      header := [];
      rowCount := 0;
    }

    /** Records the viewport and reloads the cache for it. */
    method SetViewport(start: nat, count: nat)
      requires Valid()
      modifies this`currentStartRow, this`currentRowCount, this`rowCache
      ensures Valid() && CacheLoaded()
      ensures currentStartRow == start && currentRowCount == count
      ensures !isOpen ==> rowCache == old(rowCache)
    {
      currentStartRow := start;
      currentRowCount := count;
      LoadRows();
    }

    /** The header followed by the cached rows when the window starts at the first data row,
        the cached rows alone otherwise. */
    method GetVisibleRows() returns (rows: seq<Row>)
      ensures hasHeader && currentStartRow == 0 ==> rows == [header] + rowCache
      ensures !(hasHeader && currentStartRow == 0) ==> rows == rowCache
    {
      rows := [];
      if hasHeader && currentStartRow == 0 {
        rows := rows + [header];
      }
      ghost var lead := rows;
      for i := 0 to |rowCache|
        invariant rows == lead + rowCache[..i]
      {
        rows := rows + [rowCache[i]];
      }
      assert rowCache[..|rowCache|] == rowCache;
    }

    /** Picks the delimiter for the header line. */
    method DetectDelimiter(line: string)
      modifies this`delimiter
      ensures delimiter == Sniff(line)
    {
      var bestScore: nat := 0;
      var bestDelim := ',';
      for i := 0 to |Candidates|
        invariant (bestScore, bestDelim) == SniffPrefix(line, i)
      {
        var c := Candidates[i];
        var count := Count(line, c);
        if count > bestScore {
          bestScore := count;
          bestDelim := c;
        }
      }
      delimiter := bestDelim;
    }


    /** Rereads the data lines and caches the window of the viewport; does nothing while the
        file is closed. */
    method LoadRows()
      requires isOpen ==> |lines| >= 1
      modifies this`rowCache
      ensures CacheLoaded()
      ensures !isOpen ==> rowCache == old(rowCache)
    {
      if !isOpen {
        return;
      }
      var rows := ReadWindow(lines, delimiter, currentStartRow, currentRowCount);
      rowCache := rows;
    }
  }

  /** Setting the same viewport twice leaves the cache that the first call built. */
  method SetViewportTwice(m: Model, start: nat, count: nat) returns (first: seq<Row>, second: seq<Row>)
    requires m.Valid()
    modifies m
    ensures first == second
  {
    m.SetViewport(start, count);
    first := m.rowCache;
    m.SetViewport(start, count);
    second := m.rowCache;
  }
}

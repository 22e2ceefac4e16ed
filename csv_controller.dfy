/**
 * The key-driven navigation controller (src/csv_controller.cpp): vim-style numeric prefixes,
 * `gg`/`G`, row and column motion, toggles and an incremental search mode.
 *
 * The event handler is written twice: as a transition function `Step` on a `State` value, about
 * which the properties are proved, and as the class `Controller`, whose methods update its
 * fields, the view and the model's viewport step by step and are proved to follow `Step`.
 * The row-count and search queries the controller asks of the model are an `Engine` value.
 */
module CsvController {
  import opened Wrappers
  import CsvModel
  import CsvView

  /** How many data rows the controller asks the model to keep loaded. */
  const VisibleRows: nat := 30

  /** The key events the handler tells apart; any other key is `OtherKey`. */
  datatype Event =
    | Character(ch: char)
    | Return
    | Escape
    | Backspace
    | ArrowLeft
    | ArrowRight
    | ArrowUp
    | ArrowDown
    | OtherKey

  /** Where a search hit lies: a data row and a column. */
  datatype Match = Match(row: nat, col: nat)

  /** The queries the controller asks of the row engine: the number of data rows, whether that
      number is final, and the next hit at or after a row / the previous one at or before it. */
  datatype Engine = Engine(rowCount: nat, rowCountKnown: bool,
                           findNext: (string, nat) -> Option<Match>,
                           findPrev: (string, nat) -> Option<Match>)

  /** The controller's own fields. */
  datatype State = State(
    startRow: nat,
    pendingCount: nat,
    awaitingSecondG: bool,
    commandBuffer: string,
    lastCommand: string,
    searchMode: bool,
    searchBuffer: string,
    lastSearch: Option<string>,
    matchRow: Option<nat>,
    matchCol: Option<nat>,
    exited: bool)

  /** What a key asks of the view besides the command line and the first row. */
  datatype Action =
    | NoAction
    | ScrollColumns(delta: int)
    | TogglePinned
    | ToggleTabular
    | ShowMatch(pattern: string, at: Match)
    | ClearMatch

  /** The new state, the request to the view, and whether the key was consumed. */
  datatype Outcome = Outcome(next: State, action: Action, handled: bool)

  /** The view's settings besides the command line, the first row and the colours. */
  datatype Display = Display(columnOffset: nat, headerPinned: bool, tabularMode: bool,
                             searchPattern: string, matchRow: Option<nat>, matchCol: Option<nat>)

  /** The view settings after the view carries out `a`; `columns` (the number of columns the
      offset is clamped to) matters only for a column scroll. */
  function Perform(d: Display, a: Action, columns: nat): Display
  {
    match a
    case NoAction => d
    case ScrollColumns(delta) => d.(columnOffset := CsvView.ClampOffset(d.columnOffset, delta, columns))
    case TogglePinned => d.(headerPinned := !d.headerPinned)
    case ToggleTabular => d.(tabularMode := !d.tabularMode)
    case ShowMatch(p, m) => d.(searchPattern := p, matchRow := Some(m.row), matchCol := Some(m.col))
    case ClearMatch => d.(matchRow := None, matchCol := None)
  }

  /** The column count matters only to a column scroll. */
  lemma PerformWithoutScroll(d: Display, a: Action)
    requires !a.ScrollColumns?
    ensures forall c1: nat, c2: nat :: Perform(d, a, c1) == Perform(d, a, c2)
  {
  }

  /** The state the constructor sets up. */
  const Initial: State := State(0, 0, false, "", "", false, "", None, None, None, false)

  /** The search invariant: in search mode the command line is `/` followed by the pattern. */
  predicate SearchLineShown(s: State)
  {
    s.searchMode ==> s.commandBuffer == "/" + s.searchBuffer
  }

  // ------------------------------------------------------------------ numbers on the command line

  predicate IsDigit(c: char) { '0' <= c <= '9' }

  function DigitValue(c: char): nat
    requires IsDigit(c)
  {
    c as int - '0' as int
  }

  function DigitChar(d: nat): (c: char)
    requires d < 10
    ensures IsDigit(c) && DigitValue(c) == d
  {
    ('0' as int + d) as char
  }

  predicate AllDigits(s: string)
  {
    forall i :: 0 <= i < |s| ==> IsDigit(s[i])
  }

  /** The count a run of digit keys builds when it starts from `p`: each key multiplies by ten
      and adds its digit. */
  function Accumulate(p: nat, ds: string): nat
    requires AllDigits(ds)
  {
    if |ds| == 0 then p else Accumulate(p, ds[..|ds| - 1]) * 10 + DigitValue(ds[|ds| - 1])
  }

  /** The decimal text of `n`, as `std::to_string` writes it. */
  function NatToString(n: nat): (r: string)
    ensures |r| >= 1
  {
    if n < 10 then [DigitChar(n)] else NatToString(n / 10) + [DigitChar(n % 10)]
  }

  lemma {:induction false} NatToStringDigits(n: nat)
    ensures AllDigits(NatToString(n))
    ensures NatToString(n)[0] != '0' || n == 0
  {
    if n >= 10 {
      NatToStringDigits(n / 10);
      var r := NatToString(n / 10);
      assert NatToString(n) == r + [DigitChar(n % 10)];
      assert NatToString(n)[0] == r[0];
    }
  }

  /** Typing the decimal text of `n` digit by digit builds `n` again. */
  lemma {:induction false} AccumulateNatToString(n: nat)
    ensures AllDigits(NatToString(n)) && Accumulate(0, NatToString(n)) == n
  {
    NatToStringDigits(n);
    if n >= 10 {
      AccumulateNatToString(n / 10);
      var r := NatToString(n / 10);
      var c := DigitChar(n % 10);
      assert (r + [c])[..|r|] == r;
    }
  }

  /** What `consume_count` returns: the pending count, or 1 when none was typed. */
  function Consumed(pending: nat): (count: nat)
    ensures count >= 1
    ensures pending > 0 ==> count == pending
  {
    if pending == 0 then 1 else pending
  }

  /** The command a counted motion records: the key alone for a count of 1, else the count
      and the key. */
  function CountLabel(count: nat, key: char): string
  {
    if count == 1 then [key] else NatToString(count) + [key]
  }

  lemma CountLabelEndsInKey(count: nat, key: char)
    ensures |CountLabel(count, key)| >= 1
    ensures CountLabel(count, key)[|CountLabel(count, key)| - 1] == key
    ensures count != 1 ==> CountLabel(count, key)[..|CountLabel(count, key)| - 1] == NatToString(count)
  {
    if count != 1 {
      var r := NatToString(count);
      assert (r + [key])[..|r|] == r;
    }
  }

  // ------------------------------------------------------------------ row arithmetic

  /** The last first row a forward motion may reach when the row count is known. */
  function MaxStart(rowCount: nat): nat
  {
    if rowCount > VisibleRows then rowCount - VisibleRows else rowCount
  }

  /** The first row after moving `delta` rows: a backward move stops at row 0, a forward move
      stops at `MaxStart` once the row count is known. */
  function Scrolled(start: nat, delta: int, engine: Engine): nat
  {
    if delta == 0 then start
    else if delta > 0 then
      if engine.rowCountKnown && start + delta > MaxStart(engine.rowCount) then MaxStart(engine.rowCount)
      else start + delta
    else if -delta > start then 0
    else start + delta
  }

  lemma ScrolledByZero(start: nat, engine: Engine)
    ensures Scrolled(start, 0, engine) == start
  {
  }

  lemma ScrolledBackward(start: nat, delta: int, engine: Engine)
    requires delta < 0
    ensures Scrolled(start, delta, engine) == if -delta <= start then start + delta else 0
  {
  }

  /** A forward move with a known row count never passes `MaxStart` and otherwise goes the
      whole way; with the count unknown it goes exactly `delta` rows. */
  lemma ScrolledForward(start: nat, delta: int, engine: Engine)
    requires delta > 0
    ensures engine.rowCountKnown ==> Scrolled(start, delta, engine) <= MaxStart(engine.rowCount)
    ensures engine.rowCountKnown && start + delta <= MaxStart(engine.rowCount) ==>
              Scrolled(start, delta, engine) == start + delta
    ensures !engine.rowCountKnown ==> Scrolled(start, delta, engine) == start + delta
  {
  }

  /** A forward move from a first row already past `MaxStart` (possible after a search or `G`
      once the count is known) moves the window back up to `MaxStart`. */
  lemma ScrolledForwardCanMoveUp(start: nat, delta: int, engine: Engine)
    requires delta > 0 && engine.rowCountKnown && start > MaxStart(engine.rowCount)
    ensures Scrolled(start, delta, engine) == MaxStart(engine.rowCount) < start
  {
  }

  /** The first row `GoToLine` picks for a 1-based target: a target of 0 counts as 1, and a
      target past the last row selects the last row (row 0 when there are none). */
  function LineIndex(target: nat, rowCount: nat): nat
  {
    var t := if target == 0 then 1 else target;
    var rowIndex := t - 1;
    if rowIndex >= rowCount then (if rowCount == 0 then 0 else rowCount - 1) else rowIndex
  }

  lemma LineIndexClosedForm(target: nat, rowCount: nat)
    ensures rowCount == 0 ==> LineIndex(target, rowCount) == 0
    ensures rowCount > 0 ==>
              LineIndex(target, rowCount) == CsvModel.Min(CsvModel.Max(target, 1) - 1, rowCount - 1)
    ensures rowCount > 0 ==> LineIndex(target, rowCount) < rowCount
  {
  }

  // ------------------------------------------------------------------ the event handler

  /** Keys while the search prompt is open: Return searches from the first row, Escape
      abandons, Backspace and characters edit the pattern, anything else is not consumed. */
  function SearchStep(s: State, e: Event, engine: Engine): Outcome
    requires s.searchMode && SearchLineShown(s)
  {
    match e
    case Return => ReturnStep(s, engine)
    case Escape => EscapeStep(s)
    case Backspace => BackspaceStep(s)
    case Character(c) => TypeStep(s, c)
    case _ => Outcome(s, NoAction, false)
  }

  /** What a search does with its result: on a hit the first row moves to the match, the view
      highlights it and `command` is recorded; otherwise `command` is recorded as not found and
      the highlight is dropped. */
  function SearchResult(s: State, hit: Option<Match>, pattern: string, command: string): Outcome
  {
    match hit
    case Some(m) =>
      Outcome(s.(startRow := m.row, lastCommand := command, matchRow := Some(m.row), matchCol := Some(m.col)),
              ShowMatch(pattern, m), true)
    case None =>
      Outcome(s.(lastCommand := command + " (not found)", matchRow := None, matchCol := None),
              ClearMatch, true)
  }

  /** Return with a pattern looks for it from the first row; the prompt closes either way. */
  function ReturnStep(s: State, engine: Engine): Outcome
  {
    if s.searchBuffer == "" then
      Outcome(s.(searchMode := false, commandBuffer := ""), NoAction, true)
    else
      var pattern := s.searchBuffer;
      var hit := engine.findNext(pattern, s.startRow);
      var found := s.(lastSearch := if hit.Some? then Some(pattern) else s.lastSearch);
      var o := SearchResult(found, hit, pattern, "/" + pattern);
      Outcome(o.next.(searchMode := false, commandBuffer := ""), o.action, true)
  }

  function EscapeStep(s: State): Outcome
  {
    Outcome(s.(searchMode := false, searchBuffer := "", commandBuffer := "",
               matchRow := None, matchCol := None),
            ClearMatch, true)
  }

  function BackspaceStep(s: State): Outcome
    requires SearchLineShown(s) && s.searchMode
  {
    if s.searchBuffer == "" then Outcome(s, NoAction, true)
    else
      Outcome(s.(searchBuffer := s.searchBuffer[..|s.searchBuffer| - 1],
                 commandBuffer := s.commandBuffer[..|s.commandBuffer| - 1]),
              NoAction, true)
  }

  function TypeStep(s: State, c: char): Outcome
  {
    Outcome(s.(searchBuffer := s.searchBuffer + [c], commandBuffer := s.commandBuffer + [c]),
            NoAction, true)
  }

  /** A digit extends the pending count and the command line and cancels a pending `g`. */
  function DigitStep(s: State, c: char): Outcome
    requires IsDigit(c)
  {
    Outcome(s.(pendingCount := s.pendingCount * 10 + DigitValue(c), awaitingSecondG := false,
               commandBuffer := s.commandBuffer + [c]),
            NoAction, true)
  }

  /** `/` opens the search prompt with an empty pattern. */
  function SlashStep(s: State): Outcome
  {
    Outcome(s.(searchMode := true, searchBuffer := "", commandBuffer := "/"), NoAction, true)
  }

  /** The first `g` waits for a second; the second goes to the pending line (line 1 if none). */
  function GStep(s: State, engine: Engine): Outcome
  {
    if s.awaitingSecondG then
      Outcome(s.(startRow := LineIndex(Consumed(s.pendingCount), engine.rowCount),
                 lastCommand := if s.commandBuffer == "" then "gg" else s.commandBuffer + "g",
                 commandBuffer := "", pendingCount := 0, awaitingSecondG := false),
              NoAction, true)
    else
      Outcome(s.(awaitingSecondG := true, commandBuffer := s.commandBuffer + "g"), NoAction, true)
  }

  /** `G` goes to the pending line, or to the last row when no count was typed. */
  function BigGStep(s: State, engine: Engine): Outcome
  {
    var target := if s.pendingCount == 0 then engine.rowCount else s.pendingCount;
    Outcome(s.(startRow := LineIndex(if target == 0 then 1 else target, engine.rowCount),
               lastCommand := if s.pendingCount == 0 then "G" else NatToString(s.pendingCount) + "G",
               pendingCount := 0, awaitingSecondG := false, commandBuffer := ""),
            NoAction, true)
  }

  /** `l`/`h` (and the arrows) shift the first shown column by the count. */
  function ColumnStep(s: State, right: bool): Outcome
  {
    var count := Consumed(s.pendingCount);
    Outcome(s.(pendingCount := 0, awaitingSecondG := false,
               lastCommand := CountLabel(count, if right then 'l' else 'h'), commandBuffer := ""),
            ScrollColumns(if right then count else -(count as int)), true)
  }

  /** `j`/`k` (and the arrows) move the first row by the count. */
  function RowStep(s: State, down: bool, engine: Engine): Outcome
  {
    var count := Consumed(s.pendingCount);
    Outcome(s.(pendingCount := 0, awaitingSecondG := false,
               startRow := Scrolled(s.startRow, if down then count else -(count as int), engine),
               lastCommand := CountLabel(count, if down then 'j' else 'k'), commandBuffer := ""),
            NoAction, true)
  }

  /** `H` and `t` flip a view setting. */
  function ToggleStep(s: State, key: char, action: Action): Outcome
  {
    Outcome(s.(lastCommand := [key], pendingCount := 0, awaitingSecondG := false, commandBuffer := ""),
            action, true)
  }

  /** `n` repeats the last search from the row after the first one, `N` backwards from the
      row before it. */
  function RepeatStep(s: State, forward: bool, engine: Engine): Outcome
    requires s.lastSearch.Some?
  {
    var pattern := s.lastSearch.value;
    var hit := if forward then engine.findNext(pattern, s.startRow + 1)
               else engine.findPrev(pattern, if s.startRow == 0 then 0 else s.startRow - 1);
    var o := SearchResult(s, hit, pattern, if forward then "n" else "N");
    Outcome(o.next.(commandBuffer := ""), o.action, true)
  }

  /** A key no branch takes clears the pending count, the pending `g` and the command line. */
  function DefaultStep(s: State): Outcome
  {
    Outcome(s.(awaitingSecondG := false, pendingCount := 0, commandBuffer := ""), NoAction, false)
  }

  /** Whether a key outside search mode has a branch of its own. */
  predicate IsBound(s: State, e: Event)
  {
    || (e.Character? && (IsDigit(e.ch) || e.ch in "/qgGlhjkHt"))
    || e in {ArrowLeft, ArrowRight, ArrowUp, ArrowDown}
    || (e in {Character('n'), Character('N')} && s.lastSearch.Some?)
  }

  /** The event handler: the search prompt first, then digits and `/`, then the bound keys in
      the order the handler tests them, and the reset for anything else. */
  function Step(s: State, e: Event, engine: Engine): Outcome
    requires !s.exited && SearchLineShown(s)
  {
    if s.searchMode then SearchStep(s, e, engine)
    else if e.Character? && IsDigit(e.ch) then DigitStep(s, e.ch)
    else if e == Character('/') then SlashStep(s)
    else if e == Character('q') then Outcome(s.(exited := true), NoAction, true)
    else if e == Character('g') then GStep(s, engine)
    else if e == Character('G') then BigGStep(s, engine)
    else MotionStep(s, e, engine)
  }

  /** The keys after `G`: the column and row motions, then the rest. */
  function MotionStep(s: State, e: Event, engine: Engine): Outcome
  {
    if e == ArrowRight || e == Character('l') then ColumnStep(s, true)
    else if e == ArrowLeft || e == Character('h') then ColumnStep(s, false)
    else if e == Character('j') || e == ArrowDown then RowStep(s, true, engine)
    else if e == Character('k') || e == ArrowUp then RowStep(s, false, engine)
    else OtherStep(s, e, engine)
  }

  /** The keys after the motions: the toggles, the repeated searches and the reset. */
  function OtherStep(s: State, e: Event, engine: Engine): Outcome
  {
    if e == Character('H') then ToggleStep(s, 'H', TogglePinned)
    else if e == Character('t') then ToggleStep(s, 't', ToggleTabular)
    else if e == Character('n') && s.lastSearch.Some? then RepeatStep(s, true, engine)
    else if e == Character('N') && s.lastSearch.Some? then RepeatStep(s, false, engine)
    else DefaultStep(s)
  }

  /** No key after the motions scrolls the columns. */
  lemma OtherStepDoesNotScroll(s: State, e: Event, engine: Engine)
    ensures !OtherStep(s, e, engine).action.ScrollColumns?
  {
  }

  /** The state after a sequence of keys; keys after `q` are never delivered. */
  function Run(s: State, events: seq<Event>, engine: Engine): (r: State)
    requires SearchLineShown(s)
    ensures SearchLineShown(r)
  {
    if |events| == 0 then s
    else
      var t := Run(s, events[..|events| - 1], engine);
      if t.exited then t
      else
        StepKeepsSearchLine(t, events[|events| - 1], engine);
        Step(t, events[|events| - 1], engine).next
  }

  /** The key events that type `ds`. */
  function Keys(ds: string): (es: seq<Event>)
    ensures |es| == |ds|
  {
    if |ds| == 0 then [] else Keys(ds[..|ds| - 1]) + [Character(ds[|ds| - 1])]
  }

  // ------------------------------------------------------------------ properties of the handler

  /** Every key keeps the search prompt in step with the pattern. */
  lemma StepKeepsSearchLine(s: State, e: Event, engine: Engine)
    requires !s.exited && SearchLineShown(s)
    ensures SearchLineShown(Step(s, e, engine).next)
  {
    if s.searchMode {
      match e
      case Backspace =>
        if s.searchBuffer != "" {
          var b := s.searchBuffer;
          assert ("/" + b)[..|"/" + b| - 1] == "/" + b[..|b| - 1];
        }
      case Character(c) =>
        assert "/" + s.searchBuffer + [c] == "/" + (s.searchBuffer + [c]);
      case _ =>
    }
  }

  /** A digit outside search mode extends the pending count by that digit, appends it to the
      command line, cancels a pending `g` and changes nothing else. */
  lemma DigitKey(s: State, c: char, engine: Engine)
    requires !s.exited && !s.searchMode && IsDigit(c)
    ensures Step(s, Character(c), engine)
              == Outcome(s.(pendingCount := 10 * s.pendingCount + DigitValue(c), awaitingSecondG := false,
                            commandBuffer := s.commandBuffer + [c]),
                         NoAction, true)
  {
  }

  lemma RunSnoc(s: State, events: seq<Event>, e: Event, engine: Engine)
    requires SearchLineShown(s)
    ensures var t := Run(s, events, engine);
            Run(s, events + [e], engine) == if t.exited then t else Step(t, e, engine).next
  {
    assert (events + [e])[..|events|] == events;
  }

  /** Typing a run of digits outside search mode builds the count they spell, starting from
      the pending count, and echoes them on the command line. */
  lemma {:induction false} TypingDigits(s: State, ds: string, engine: Engine)
    requires !s.exited && !s.searchMode && AllDigits(ds)
    ensures Run(s, Keys(ds), engine)
              == s.(pendingCount := Accumulate(s.pendingCount, ds),
                    awaitingSecondG := s.awaitingSecondG && ds == [],
                    commandBuffer := s.commandBuffer + ds)
  {
    if |ds| > 0 {
      var init := ds[..|ds| - 1];
      var c := ds[|ds| - 1];
      assert AllDigits(init) by {
        forall i | 0 <= i < |init| ensures IsDigit(init[i]) {
          assert init[i] == ds[i];
        }
      }
      TypingDigits(s, init, engine);
      RunSnoc(s, Keys(init), Character(c), engine);
      DigitKey(Run(s, Keys(init), engine), c, engine);
      assert ds == init + [c];
      assert s.commandBuffer + init + [c] == s.commandBuffer + ds;
    }
  }

  /** A typed count followed by `j` moves the first row down by that count. */
  lemma CountThenDown(s: State, n: nat, engine: Engine)
    requires !s.exited && !s.searchMode && s.pendingCount == 0 && n >= 1
    ensures var t := Run(s, Keys(NatToString(n)) + [Character('j')], engine);
            && t.startRow == Scrolled(s.startRow, n, engine)
            && t.lastCommand == CountLabel(n, 'j')
            && t.pendingCount == 0 && t.commandBuffer == ""
  {
    AccumulateNatToString(n);
    TypingDigits(s, NatToString(n), engine);
    RunSnoc(s, Keys(NatToString(n)), Character('j'), engine);
  }

  /** A typed count followed by `gg` goes to that 1-based line; with no count to line 1. */
  lemma CountThenGG(s: State, n: nat, engine: Engine)
    requires !s.exited && !s.searchMode && s.pendingCount == 0
    ensures var t := Run(s, Keys(NatToString(n)) + [Character('g'), Character('g')], engine);
            && t.startRow == LineIndex(n, engine.rowCount)
            && t.lastCommand == s.commandBuffer + NatToString(n) + "gg"
            && t.pendingCount == 0 && !t.awaitingSecondG && t.commandBuffer == ""
  {
    var ks := Keys(NatToString(n));
    AccumulateNatToString(n);
    TypingDigits(s, NatToString(n), engine);
    var typed := Run(s, ks, engine);
    RunSnoc(s, ks, Character('g'), engine);
    GKey(typed, engine);
    var first := GStep(typed, engine).next;
    assert ks + [Character('g'), Character('g')] == (ks + [Character('g')]) + [Character('g')];
    RunSnoc(s, ks + [Character('g')], Character('g'), engine);
    GKey(first, engine);
    assert s.commandBuffer + NatToString(n) + "g" + "g" == s.commandBuffer + NatToString(n) + "gg";
  }

  lemma GKey(s: State, engine: Engine)
    requires !s.exited && !s.searchMode && SearchLineShown(s)
    ensures Step(s, Character('g'), engine) == GStep(s, engine)
  {
  }

  /** `gg` from a clean command line goes to the first row and records `gg`. */
  lemma TwoGsGoToTop(s: State, engine: Engine)
    requires !s.exited && !s.searchMode && s.pendingCount == 0 && !s.awaitingSecondG
    requires s.commandBuffer == ""
    ensures var t := Run(s, [Character('g'), Character('g')], engine);
            t.startRow == 0 && t.lastCommand == "gg" && !t.awaitingSecondG
  {
    RunSnoc(s, [], Character('g'), engine);
    assert [Character('g'), Character('g')] == [Character('g')] + [Character('g')];
    RunSnoc(s, [Character('g')], Character('g'), engine);
  }

  /** The counted keys take the pending count (1 if none), then clear it and a pending `g`. */
  lemma CountedKeysConsume(s: State, e: Event, engine: Engine)
    requires !s.exited && !s.searchMode
    requires e in {Character('l'), Character('h'), Character('j'), Character('k'),
                   ArrowLeft, ArrowRight, ArrowUp, ArrowDown}
    ensures var o := Step(s, e, engine);
            && o.next.pendingCount == 0 && !o.next.awaitingSecondG && o.next.commandBuffer == ""
            && o.handled
            && (e in {Character('l'), ArrowRight} ==> o.action == ScrollColumns(Consumed(s.pendingCount)))
            && (e in {Character('h'), ArrowLeft} ==> o.action == ScrollColumns(-(Consumed(s.pendingCount) as int)))
            && (e in {Character('j'), ArrowDown} ==>
                  o.next.startRow == Scrolled(s.startRow, Consumed(s.pendingCount), engine))
            && (e in {Character('k'), ArrowUp} ==>
                  o.next.startRow == Scrolled(s.startRow, -(Consumed(s.pendingCount) as int), engine))
  {
  }

  /** Backspace on an empty pattern changes nothing. */
  lemma BackspaceOnEmptyPattern(s: State, engine: Engine)
    requires !s.exited && s.searchMode && SearchLineShown(s) && s.searchBuffer == ""
    ensures Step(s, Backspace, engine) == Outcome(s, NoAction, true)
  {
  }

  /** Backspace drops the last character of the pattern and of the command line. */
  lemma BackspaceDropsLast(s: State, engine: Engine)
    requires !s.exited && s.searchMode && SearchLineShown(s) && s.searchBuffer != ""
    ensures var t := Step(s, Backspace, engine).next;
            && t.searchBuffer + [s.searchBuffer[|s.searchBuffer| - 1]] == s.searchBuffer
            && t.commandBuffer == "/" + t.searchBuffer && t.searchMode
  {
    var b := s.searchBuffer;
    assert ("/" + b)[..|"/" + b| - 1] == "/" + b[..|b| - 1];
  }

  /** Escape leaves search mode with both buffers empty and no current match. */
  lemma EscapeLeavesSearch(s: State, engine: Engine)
    requires !s.exited && s.searchMode && SearchLineShown(s)
    ensures var o := Step(s, Escape, engine);
            && !o.next.searchMode && o.next.searchBuffer == "" && o.next.commandBuffer == ""
            && o.next.matchRow == None && o.next.matchCol == None && o.action == ClearMatch
            && o.next.startRow == s.startRow && o.next.lastSearch == s.lastSearch
  {
  }

  /** Return with a pattern searches from the first row: on a hit the window jumps to its row
      and the pattern becomes the last search; either way the prompt closes. */
  lemma ReturnSearches(s: State, engine: Engine)
    requires !s.exited && s.searchMode && SearchLineShown(s) && s.searchBuffer != ""
    ensures var o := Step(s, Return, engine);
            && !o.next.searchMode && o.next.commandBuffer == ""
            && (match engine.findNext(s.searchBuffer, s.startRow)
                case Some(m) =>
                  && o.next.startRow == m.row && o.next.lastSearch == Some(s.searchBuffer)
                  && o.next.lastCommand == "/" + s.searchBuffer
                  && o.action == ShowMatch(s.searchBuffer, m)
                case None =>
                  && o.next.startRow == s.startRow && o.next.lastSearch == s.lastSearch
                  && o.next.lastCommand == "/" + s.searchBuffer + " (not found)"
                  && o.action == ClearMatch)
  {
  }

  /** `n` repeats the last search from the row after the first one, `N` backwards from the
      row before it (row 0 stays row 0); neither touches the pending count. */
  lemma RepeatSearch(s: State, forward: bool, engine: Engine)
    requires !s.exited && !s.searchMode && s.lastSearch.Some?
    ensures var p := s.lastSearch.value;
            var hit := if forward then engine.findNext(p, s.startRow + 1)
                       else engine.findPrev(p, if s.startRow > 0 then s.startRow - 1 else 0);
            var o := Step(s, Character(if forward then 'n' else 'N'), engine);
            && o.handled && o.next.pendingCount == s.pendingCount
            && o.next.startRow == (if hit.Some? then hit.value.row else s.startRow)
            && o.action == (if hit.Some? then ShowMatch(p, hit.value) else ClearMatch)
  {
  }

  /** Outside search mode a key is consumed exactly when some branch takes it; any other key
      clears the pending count, the pending `g` and the command line and nothing else. */
  lemma UnboundKeyResets(s: State, e: Event, engine: Engine)
    requires !s.exited && !s.searchMode
    ensures Step(s, e, engine).handled <==> IsBound(s, e)
    ensures !IsBound(s, e) ==>
              Step(s, e, engine)
                == Outcome(s.(awaitingSecondG := false, pendingCount := 0, commandBuffer := ""), NoAction, false)
  {
  }

  /** The controller's match follows what the view is asked to show. */
  lemma MatchFollowsAction(s: State, e: Event, engine: Engine)
    requires !s.exited && SearchLineShown(s)
    ensures var o := Step(s, e, engine);
            && (o.action.ShowMatch? ==>
                  o.next.matchRow == Some(o.action.at.row) && o.next.matchCol == Some(o.action.at.col)
                  && o.next.startRow == o.action.at.row)
            && (o.action == ClearMatch ==> o.next.matchRow == None && o.next.matchCol == None)
            && (!o.action.ShowMatch? && o.action != ClearMatch ==>
                  o.next.matchRow == s.matchRow && o.next.matchCol == s.matchCol)
  {
    if !s.searchMode && !(e.Character? && IsDigit(e.ch))
       && e != Character('/') && e != Character('q') && e != Character('g') && e != Character('G')
    {
      assert Step(s, e, engine) == MotionStep(s, e, engine);
    }
  }

  // ------------------------------------------------------------------ the controller object

  /** The view shows the first row and the command line of `s`. */
  ghost predicate LineShown(v: CsvView.View, s: State)
    reads v
  {
    v.startRowBase == s.startRow && v.currentCommand == s.commandBuffer && v.lastCommand == s.lastCommand
  }

  class Controller {
    const model: CsvModel.Model
    const view: CsvView.View
    var startRow: nat
    var pendingCount: nat
    var awaitingSecondG: bool
    var commandBuffer: string
    var lastCommand: string
    var searchMode: bool
    var searchBuffer: string
    var lastSearch: Option<string>
    var currentMatchRow: Option<nat>
    var currentMatchCol: Option<nat>
    /** Set by `q`, which ends the process. */
    var exited: bool

    function Snapshot(): State
      reads this
    {
      State(startRow, pendingCount, awaitingSecondG, commandBuffer, lastCommand, searchMode,
            searchBuffer, lastSearch, currentMatchRow, currentMatchCol, exited)
    }

    /** The view belongs to the model; both are fixed when the controller is built. */
    ghost predicate Attached()
    {
      view.model == model && view.Valid()
    }

    /** The view shows the first row and the command line, and the search prompt matches the
        pattern. */
    ghost predicate Valid()
      reads this, view
    {
      LineShown(view, Snapshot()) && SearchLineShown(Snapshot())
    }

    /** The model is in a consistent state. */
    ghost predicate ModelConsistent()
      reads model
    {
      model.Valid()
    }

    ghost predicate ModelReady()
      reads this, model
    {
      model.Viewing(startRow, VisibleRows)
    }

    /** The number of columns the view clamps its column offset to. */
    ghost function Columns(): nat
      reads model
    {
      CsvModel.Max(|model.header|, CsvView.MaxLen(model.Visible()))
    }

    function Shown(): Display
      reads view`columnOffset, view`headerPinned, view`tabularMode, view`searchPattern
      reads view`currentMatchRow, view`currentMatchCol
    {
      Display(view.columnOffset, view.headerPinned, view.tabularMode, view.searchPattern,
              view.currentMatchRow, view.currentMatchCol)
    }

    constructor (model: CsvModel.Model, view: CsvView.View)
      requires model.Valid() && view.model == model && view.Valid()
      modifies model`currentStartRow, model`currentRowCount, model`rowCache
      modifies view`startRowBase, view`currentCommand, view`lastCommand
      ensures this.model == model && this.view == view
      ensures Attached() && Valid() && ModelReady() && Snapshot() == Initial
    {
      this.model := model;
      this.view := view;
      startRow := 0;
      pendingCount := 0;
      awaitingSecondG := false;
      commandBuffer := "";
      lastCommand := "";
      searchMode := false;
      searchBuffer := "";
      lastSearch := None;
      currentMatchRow := None;
      currentMatchCol := None;
      exited := false;
      new;
      UpdateViewport();
      view.SetCommandLine(commandBuffer, lastCommand);
    }

    /** Asks the model for the window at the first row and tells the view that row. */
    method UpdateViewport()
      requires ModelConsistent()
      modifies model`currentStartRow, model`currentRowCount, model`rowCache, view`startRowBase
      ensures ModelReady() && view.startRowBase == startRow
    {
      model.SetViewport(startRow, VisibleRows);
      view.SetStartRow(startRow);
    }

    method MoveRows(delta: int, engine: Engine)
      modifies this
      ensures Snapshot() == old(Snapshot()).(startRow := Scrolled(old(startRow), delta, engine))
    {
      var countKnown := engine.rowCountKnown;
      var rowCount := if countKnown then engine.rowCount else 0;
      if delta == 0 {
        return;
      }
      if delta > 0 {
        var maxStart := if countKnown && rowCount > VisibleRows then rowCount - VisibleRows else rowCount;
        var next := startRow + delta;
        if countKnown && next > maxStart {
          next := maxStart;
        }
        startRow := next;
      } else {
        var absDelta := -delta;
        if absDelta > startRow {
          startRow := 0;
        } else {
          startRow := startRow - absDelta;
        }
      }
    }

    /** Moves the first row to the 1-based line `target` and reloads the window. */
    method GoToLine(target: nat, engine: Engine)
      requires ModelConsistent()
      modifies this
      modifies model`currentStartRow, model`currentRowCount, model`rowCache, view`startRowBase
      ensures Snapshot() == old(Snapshot()).(startRow := LineIndex(target, engine.rowCount))
      ensures ModelReady() && view.startRowBase == startRow && Shown() == old(Shown())
    {
      var t := if target == 0 then 1 else target;
      var rowIndex := t - 1;
      var rowCount := engine.rowCount;
      if rowIndex >= rowCount {
        rowIndex := if rowCount == 0 then 0 else rowCount - 1;
      }
      startRow := rowIndex;
      UpdateViewport();
    }

    method SetCurrentMatch(row: Option<nat>, col: Option<nat>)
      modifies this`currentMatchRow, this`currentMatchCol, view`currentMatchRow, view`currentMatchCol
      ensures currentMatchRow == row && currentMatchCol == col
      ensures view.currentMatchRow == row && view.currentMatchCol == col
    {
      currentMatchRow := row;
      currentMatchCol := col;
      view.SetCurrentMatch(row, col);
    }

    method ClearCurrentMatch()
      modifies this`currentMatchRow, this`currentMatchCol, view`currentMatchRow, view`currentMatchCol
      ensures currentMatchRow == None && currentMatchCol == None
      ensures view.currentMatchRow == None && view.currentMatchCol == None
    {
      currentMatchRow := None;
      currentMatchCol := None;
      view.SetCurrentMatch(None, None);
    }

    /** The count for a counted key: the pending count, or 1; clears it and a pending `g`. */
    method ConsumeCount() returns (count: nat)
      modifies this
      ensures count == Consumed(old(pendingCount))
      ensures Snapshot() == old(Snapshot()).(pendingCount := 0, awaitingSecondG := false)
    {
      count := if pendingCount == 0 then 1 else pendingCount;
      pendingCount := 0;
      awaitingSecondG := false;
    }

    /** Shows the result of a search, as `SearchResult` describes. */
    method ShowSearchResult(hit: Option<Match>, pattern: string, command: string)
      requires ModelConsistent() && Attached()
      modifies this, view`searchPattern, view`currentMatchRow, view`currentMatchCol, view`startRowBase
      modifies model`currentStartRow, model`currentRowCount, model`rowCache
      ensures hit.Some? ==> ModelReady() && view.startRowBase == startRow
      ensures hit.None? ==> unchanged(model) && view.startRowBase == old(view.startRowBase)
      ensures Snapshot() == SearchResult(old(Snapshot()), hit, pattern, command).next
      ensures Shown() == Perform(old(Shown()), SearchResult(old(Snapshot()), hit, pattern, command).action, 0)
    {
      if hit.Some? {
        startRow := hit.value.row;
        UpdateViewport();
        lastCommand := command;
        view.SetSearchPattern(pattern);
        SetCurrentMatch(Some(hit.value.row), Some(hit.value.col));
      } else {
        lastCommand := command + " (not found)";
        ClearCurrentMatch();
      }
    }

    // -------------------------------------------------------------- keys in search mode

    method SearchReturn(engine: Engine)
      requires Attached() && Valid() && ModelReady() && searchMode && !exited
      modifies this, view
      modifies model`currentStartRow, model`currentRowCount, model`rowCache
      ensures Valid() && ModelReady() && Snapshot() == ReturnStep(old(Snapshot()), engine).next
      ensures Shown() == Perform(old(Shown()), ReturnStep(old(Snapshot()), engine).action, 0)
    {
      if searchBuffer != "" {
        var hit := engine.findNext(searchBuffer, startRow);
        if hit.Some? {
          lastSearch := Some(searchBuffer);
        }
        ShowSearchResult(hit, searchBuffer, "/" + searchBuffer);
      }
      searchMode := false;
      commandBuffer := "";
      view.SetCommandLine(commandBuffer, lastCommand);
    }

    method SearchEscape()
      requires Attached() && Valid() && searchMode && !exited
      modifies this, view
      ensures Valid() && Snapshot() == EscapeStep(old(Snapshot())).next
      ensures Shown() == Perform(old(Shown()), ClearMatch, 0)
    {
      searchMode := false;
      searchBuffer := "";
      commandBuffer := "";
      view.SetCommandLine(commandBuffer, lastCommand);
      ClearCurrentMatch();
    }

    method SearchBackspace()
      requires Attached() && Valid() && searchMode && !exited
      modifies this, view
      ensures Valid() && Snapshot() == BackspaceStep(old(Snapshot())).next
      ensures Shown() == old(Shown())
    {
      if searchBuffer != "" {
        searchBuffer := searchBuffer[..|searchBuffer| - 1];
        commandBuffer := commandBuffer[..|commandBuffer| - 1];
        view.SetCommandLine(commandBuffer, lastCommand);
      }
    }

    method SearchCharacter(c: char)
      requires Attached() && Valid() && searchMode && !exited
      modifies this, view
      ensures Valid() && Snapshot() == TypeStep(old(Snapshot()), c).next
      ensures Shown() == old(Shown())
    {
      searchBuffer := searchBuffer + [c];
      commandBuffer := commandBuffer + [c];
      view.SetCommandLine(commandBuffer, lastCommand);
    }

    // -------------------------------------------------------------- keys outside search mode

    method OnDigit(c: char)
      requires Attached() && Valid() && !searchMode && !exited && IsDigit(c)
      modifies this, view
      ensures Valid() && Snapshot() == DigitStep(old(Snapshot()), c).next
      ensures Shown() == old(Shown())
    {
      pendingCount := pendingCount * 10 + DigitValue(c);
      awaitingSecondG := false;
      commandBuffer := commandBuffer + [c];
      view.SetCommandLine(commandBuffer, lastCommand);
    }

    method OnSlash()
      requires Attached() && Valid() && !searchMode && !exited
      modifies this, view
      ensures Valid() && Snapshot() == SlashStep(old(Snapshot())).next
      ensures Shown() == old(Shown())
    {
      searchMode := true;
      searchBuffer := "";
      commandBuffer := "/";
      view.SetCommandLine(commandBuffer, lastCommand);
    }

    method OnG(engine: Engine)
      requires Attached() && Valid() && ModelReady() && !searchMode && !exited
      modifies this, view
      modifies model`currentStartRow, model`currentRowCount, model`rowCache
      ensures Valid() && ModelReady() && Snapshot() == GStep(old(Snapshot()), engine).next
      ensures Shown() == old(Shown())
    {
      if awaitingSecondG {
        var target := if pendingCount == 0 then 1 else pendingCount;
        GoToLine(target, engine);
        lastCommand, commandBuffer, pendingCount, awaitingSecondG :=
          if commandBuffer == "" then "gg" else commandBuffer + "g", "", 0, false;
      } else {
        awaitingSecondG := true;
        commandBuffer := commandBuffer + "g";
      }
      view.SetCommandLine(commandBuffer, lastCommand);
    }

    method OnBigG(engine: Engine)
      requires Attached() && Valid() && ModelReady() && !searchMode && !exited
      modifies this, view
      modifies model`currentStartRow, model`currentRowCount, model`rowCache
      ensures Valid() && ModelReady() && Snapshot() == BigGStep(old(Snapshot()), engine).next
      ensures Shown() == old(Shown())
    {
      var target := if pendingCount == 0 then engine.rowCount else pendingCount;
      GoToLine(if target == 0 then 1 else target, engine);
      lastCommand, pendingCount, awaitingSecondG, commandBuffer :=
        if pendingCount == 0 then "G" else NatToString(pendingCount) + "G", 0, false, "";
      view.SetCommandLine(commandBuffer, lastCommand);
    }

    /** `l` (`right`) or `h`: scrolls the columns by the count. */
    method OnColumnKey(right: bool)
      requires Attached() && Valid() && !searchMode && !exited
      modifies this, view
      ensures Valid() && Snapshot() == ColumnStep(old(Snapshot()), right).next
      ensures Shown() == Perform(old(Shown()), ColumnStep(old(Snapshot()), right).action, Columns())
    {
      var count := ConsumeCount();
      view.AdjustColumnOffset(if right then count else -(count as int));
      var key := if right then 'l' else 'h';
      lastCommand := if count == 1 then [key] else NatToString(count) + [key];
      commandBuffer := "";
      view.SetCommandLine(commandBuffer, lastCommand);
    }

    /** `j` (`down`) or `k`: moves the first row by the count. */
    method OnRowKey(down: bool, engine: Engine)
      requires Attached() && Valid() && ModelReady() && !searchMode && !exited
      modifies this, view
      modifies model`currentStartRow, model`currentRowCount, model`rowCache
      ensures Valid() && ModelReady() && Snapshot() == RowStep(old(Snapshot()), down, engine).next
      ensures Shown() == old(Shown())
    {
      var count := ConsumeCount();
      MoveRows(if down then count else -(count as int), engine);
      UpdateViewport();
      var key := if down then 'j' else 'k';
      lastCommand := if count == 1 then [key] else NatToString(count) + [key];
      commandBuffer := "";
      view.SetCommandLine(commandBuffer, lastCommand);
    }

    /** `H` (`pinned`) or `t`: flips the header pin or the tabular mode. */
    method OnToggle(pinned: bool)
      requires Attached() && Valid() && !searchMode && !exited
      modifies this, view
      ensures var out := if pinned then ToggleStep(old(Snapshot()), 'H', TogglePinned)
                         else ToggleStep(old(Snapshot()), 't', ToggleTabular);
              Valid() && Snapshot() == out.next && Shown() == Perform(old(Shown()), out.action, 0)
    {
      if pinned {
        view.ToggleHeaderPinned();
        lastCommand := "H";
      } else {
        view.ToggleTabularMode();
        lastCommand := "t";
      }
      pendingCount := 0;
      awaitingSecondG := false;
      commandBuffer := "";
      view.SetCommandLine(commandBuffer, lastCommand);
    }

    /** `n` (`forward`) or `N`: repeats the last search after or before the first row. */
    method OnRepeat(forward: bool, engine: Engine)
      requires Attached() && Valid() && ModelReady() && !searchMode && !exited && lastSearch.Some?
      modifies this, view
      modifies model`currentStartRow, model`currentRowCount, model`rowCache
      ensures Valid() && ModelReady()
      ensures Snapshot() == RepeatStep(old(Snapshot()), forward, engine).next
      ensures Shown() == Perform(old(Shown()), RepeatStep(old(Snapshot()), forward, engine).action, 0)
    {
      var pattern := lastSearch.value;
      var hit: Option<Match>;
      if forward {
        var start := startRow + 1;
        hit := engine.findNext(pattern, start);
      } else {
        var start := if startRow == 0 then 0 else startRow - 1;
        hit := engine.findPrev(pattern, start);
      }
      ShowSearchResult(hit, pattern, if forward then "n" else "N");
      commandBuffer := "";
      view.SetCommandLine(commandBuffer, lastCommand);
    }

    /** Any key no branch takes. */
    method OnUnbound()
      requires Attached() && Valid() && !searchMode && !exited
      modifies this, view
      ensures Valid() && Snapshot() == DefaultStep(old(Snapshot())).next
      ensures Shown() == old(Shown())
    {
      awaitingSecondG := false;
      pendingCount := 0;
      commandBuffer := "";
      view.SetCommandLine(commandBuffer, lastCommand);
    }
  
    // -------------------------------------------------------------- the event handler

    /** A key while the search prompt is open. */
    method OnSearchKey(e: Event, engine: Engine) returns (handled: bool)
      requires Attached() && Valid() && ModelReady() && searchMode && !exited
      modifies this, view
      modifies model`currentStartRow, model`currentRowCount, model`rowCache
      ensures Valid() && ModelReady()
      ensures Snapshot() == SearchStep(old(Snapshot()), e, engine).next
      ensures Shown() == Perform(old(Shown()), SearchStep(old(Snapshot()), e, engine).action, 0)
      ensures handled == SearchStep(old(Snapshot()), e, engine).handled
    {
      match e
      case Return =>
        SearchReturn(engine);
        handled := true;
      case Escape =>
        SearchEscape();
        handled := true;
      case Backspace =>
        SearchBackspace();
        handled := true;
      case Character(c) =>
        SearchCharacter(c);
        handled := true;
      case _ =>
        handled := false;
    }

    /** A key outside search mode, matched in the handler's order. */
    method OnCommandKey(e: Event, engine: Engine) returns (handled: bool)
      requires Attached() && Valid() && ModelReady() && !searchMode && !exited
      modifies this, view
      modifies model`currentStartRow, model`currentRowCount, model`rowCache
      ensures Valid() && ModelReady()
      ensures Snapshot() == Step(old(Snapshot()), e, engine).next
      ensures Shown() == Perform(old(Shown()), Step(old(Snapshot()), e, engine).action, Columns())
      ensures handled == Step(old(Snapshot()), e, engine).handled
    {
      handled := true;
      if e.Character? && IsDigit(e.ch) {
        OnDigit(e.ch);
      } else if e == Character('/') {
        OnSlash();
      } else if e == Character('q') {
        exited := true;
      } else if e == Character('g') {
        OnG(engine);
      } else if e == Character('G') {
        OnBigG(engine);
      } else {
        handled := OnMotionKey(e, engine);
      }
    }

    /** The keys after `G`: the column and row motions, then the rest. */
    method OnMotionKey(e: Event, engine: Engine) returns (handled: bool)
      requires Attached() && Valid() && ModelReady() && !searchMode && !exited
      modifies this, view
      modifies model`currentStartRow, model`currentRowCount, model`rowCache
      ensures Valid() && ModelReady()
      ensures Snapshot() == MotionStep(old(Snapshot()), e, engine).next
      ensures Shown() == Perform(old(Shown()), MotionStep(old(Snapshot()), e, engine).action, Columns())
      ensures handled == MotionStep(old(Snapshot()), e, engine).handled
    {
      handled := true;
      if e == ArrowRight || e == Character('l') {
        OnColumnKey(true);
      } else if e == ArrowLeft || e == Character('h') {
        OnColumnKey(false);
      } else if e == Character('j') || e == ArrowDown {
        OnRowKey(true, engine);
      } else if e == Character('k') || e == ArrowUp {
        OnRowKey(false, engine);
      } else {
        handled := OnOtherKey(e, engine);
      }
    }

    /** The toggles, the repeated searches and the reset. */
    method OnOtherKey(e: Event, engine: Engine) returns (handled: bool)
      requires Attached() && Valid() && ModelReady() && !searchMode && !exited
      modifies this, view
      modifies model`currentStartRow, model`currentRowCount, model`rowCache
      ensures Valid() && ModelReady()
      ensures Snapshot() == OtherStep(old(Snapshot()), e, engine).next
      ensures Shown() == Perform(old(Shown()), OtherStep(old(Snapshot()), e, engine).action, Columns())
      ensures handled == OtherStep(old(Snapshot()), e, engine).handled
    {
      handled := true;
      OtherStepDoesNotScroll(Snapshot(), e, engine);
      PerformWithoutScroll(Shown(), OtherStep(Snapshot(), e, engine).action);
      if e == Character('H') {
        OnToggle(true);
      } else if e == Character('t') {
        OnToggle(false);
      } else if e == Character('n') && lastSearch.Some? {
        OnRepeat(true, engine);
      } else if e == Character('N') && lastSearch.Some? {
        OnRepeat(false, engine);
      } else {
        OnUnbound();
        handled := false;
      }
    }

    /** Handles one key: the controller ends in the state `Step` gives, the view carries out the
        step's action, and the result says whether the key was consumed. */
    method OnEvent(e: Event, engine: Engine) returns (handled: bool)
      requires Attached() && Valid() && ModelReady() && !exited
      modifies this, view
      modifies model`currentStartRow, model`currentRowCount, model`rowCache
      ensures Valid() && ModelReady()
      ensures Snapshot() == Step(old(Snapshot()), e, engine).next
      ensures Shown() == Perform(old(Shown()), Step(old(Snapshot()), e, engine).action, Columns())
      ensures handled == Step(old(Snapshot()), e, engine).handled
    {
      if searchMode {
        handled := OnSearchKey(e, engine);
      } else {
        handled := OnCommandKey(e, engine);
      }
    }
  }
}

# csvtui core in Dafny

csvtui is a terminal CSV viewer with vim-style keys. This project models its three core
pieces and proves properties of them:

- **The row model** (`CsvModel`, `wrappers.dfy` + `csv_model.dfy`). The class `CsvModel.Model`
  holds an open file as the sequence of lines `std::getline` would read from it.
  - `Open` sniffs the delimiter from the first line, splits that line into the header and counts
    the data lines.
  - `Close` empties the header, the cache, the viewport and the row count. It keeps the
    delimiter, the header flag and the path.
  - `SetViewport`/`LoadRows` fill the row cache with the window of data rows at the viewport.
  - `GetVisibleRows` puts the header in front of that window when it starts at the first data row.
  - The pure functions `Sniff`, `Tokens` (the tokens `std::getline` yields when splitting on the
    delimiter) and `Window` specify the loops. Lemmas prove what they mean: the earliest most
    frequent candidate wins, no token holds the delimiter, joining the tokens gives back the line,
    and the window's length and contents.
- **The layout decisions** (`CsvView`, `csv_view.dfy`). The class `CsvView.View` holds the view's
  settings and its setters.
  - Its `Render` computes a `Frame` value: the lines of the table and the two halves of the status line.
  - The layout is built from functions: column widths, the column count, the clamp on the column
    offset, which cells fit the width, padding, where the search match is highlighted, whether
    the header is among the rows, the index shown for each row, and the colour palette.
  - The loop-based methods (`ComputeColumnWidths`, `FormatRow`, `HighlightValue`, ...) are proved
    to compute exactly those functions. Lemmas state what the widths, the fitting count, the
    highlight, the layout and the row labels mean.
- **The navigation controller** (`CsvController`, `csv_controller.dfy`). The key handler is
  written twice:
  - as `Step`, a transition function on a `State` value, about which the key-sequence
    properties are proved (counts, `gg`/`G`, motion clamping, the search prompt invariant, the
    reset on unbound keys);
  - as the class `CsvController.Controller`, whose methods update its fields step by step and
    drive the view and the model's viewport. Every handler is proved to leave the controller in
    `Step`'s next state and the view's settings as `Perform` says. It also keeps the view's
    command line and first row, and the model's window, in step with the controller
    (`Valid`, `ModelReady`).
  - The queries the controller makes that the model does not define (`RowCount`,
    `RowCountKnown`, `FindNext`, `FindPrev`) are an `Engine` value passed to each key.

Where src/csv_model.h and src/csv_model.cpp disagree (`SetViewport` takes a third parameter
`read_to_end` in the header), the model follows the .cpp. src/csv_controller.h does not declare
`current_match_row_`, `current_match_col_`, `SetCurrentMatch` or `ClearCurrentMatch`. The
.cpp uses them, and the model follows the .cpp.

## Model

| member | source | states |
|---|---|---|
| CsvModel.CountIsMultiplicity | src/csv_model.cpp:73 | the occurrence count of a character in a line is its multiplicity |
| CsvModel.SniffPrefixWinner | src/csv_model.cpp:69-78 | after `k` candidates the running best is the earliest candidate with the strictly greatest count among them |
| CsvModel.SniffPicksEarliestMostFrequent | src/csv_model.cpp:67-81 | the sniffed delimiter is a candidate, no candidate occurs more often, every earlier candidate occurs strictly less often, and `,` is chosen when none occurs |
| CsvModel.SniffSemicolonExample | src/csv_model.cpp:67-81 | sniffing `a;b;c` yields `;` |
| CsvModel.Model.DetectDelimiter | src/csv_model.cpp:67-81 | the loop over `, \t ; \|` leaves exactly the sniffed delimiter in the field |
| CsvModel.Fields | src/csv_model.cpp:88 | splitting always yields at least one piece |
| CsvModel.FieldsShape | src/csv_model.cpp:88 | there is one more piece than occurrences of the delimiter, and no piece contains it |
| CsvModel.JoinFields | src/csv_model.cpp:88-90 | joining the pieces with the delimiter gives back the line |
| CsvModel.TokensHaveNoDelimiter | src/csv_model.cpp:83-93 | no token contains the delimiter |
| CsvModel.TokensEmptyIffLineEmpty | src/csv_model.cpp:83-93 | a line has no tokens exactly when it is empty |
| CsvModel.JoinTokens | src/csv_model.cpp:83-93 | joining the tokens of a non-empty line gives the line back, less its final delimiter when it ends in one |
| CsvModel.TokensOfJoin | src/csv_model.cpp:83-93 | splitting delimiter-free fields joined by the delimiter gives back the fields when the last is non-empty |
| CsvModel.FieldsOfJoin | src/csv_model.cpp:88-90 | splitting joined delimiter-free fields into pieces gives back the fields |
| CsvModel.SplitLine | src/csv_model.cpp:83-93 | the token loop returns exactly the tokens `Tokens` defines |
| CsvModel.SplitAll | src/csv_model.cpp:109-111 | splitting lines one by one gives one row per line |
| CsvModel.SplitAllPointwise | src/csv_model.cpp:109-111 | row `k` holds the tokens of line `k` |
| CsvModel.WindowShape | src/csv_model.cpp:106-116 | the window is empty when it starts past the data, otherwise holds `min(max(count,1), rows-start)` rows, and row `k` holds the tokens of data line `start+k` |
| CsvModel.WindowFromRows | src/csv_model.cpp:106-116 | any row sequence of that length and contents is the window |
| CsvModel.WindowOfZeroCount | src/csv_model.cpp:110-113 | a requested count of 0 still loads the one row at the start |
| CsvModel.CountDataLines | src/csv_model.cpp:26-29 | the counting loop returns the number of lines after the header |
| CsvModel.ReadWindow | src/csv_model.cpp:103-116 | the skip-and-push loop over the data lines returns exactly the window |
| CsvModel.Model.constructor | src/csv_model.h:43-53 | a new model is closed and consistent, with delimiter `,`, a header flag and an empty viewport |
| CsvModel.Model.Open | src/csv_model.cpp:9-36 | success exactly when the file opens and its first line is non-empty; the model then holds the lines, the sniffed delimiter, the split header and the data-line count; on failure it is left closed and reset, with the path recorded |
| CsvModel.Model.Close | src/csv_model.cpp:38-46 | closes the file and empties the cache, header, viewport and row count, keeping the delimiter, header flag and path |
| CsvModel.Model.SetViewport | src/csv_model.cpp:48-52 | records the viewport and leaves the cache holding its window; a closed model's cache is untouched |
| CsvModel.SetViewportTwice | src/csv_model.cpp:48-52 | setting the same viewport twice leaves the same cache |
| CsvModel.Model.LoadRows | src/csv_model.cpp:95-116 | an open model's cache becomes the window of the viewport; a closed one returns early with the cache untouched |
| CsvModel.Model.GetVisibleRows | src/csv_model.cpp:54-63 | the header followed by the cache when the header flag is set and the window starts at row 0, the cache alone otherwise |
| CsvView.MaxLenIsMaximum | src/csv_view.cpp:106-108 | the column count is at least every row's length and equals one of them |
| CsvView.ColumnMaxIsMaximum | src/csv_view.cpp:111-115 | a column's width bounds every cell it has and equals one of them, and is 0 when no row reaches it |
| CsvView.ComputeColumnWidths | src/csv_view.cpp:104-118 | the nested loops return one width per column of the longest row, each the column's maximum |
| CsvView.View.MaxColumns | src/csv_view.cpp:120-126 | the loop returns the maximum of the header length and every row length |
| CsvView.ClampOffsetIsNearest | src/csv_view.cpp:90-96 | the clamped offset is below the column count when there are columns, and no allowed offset is nearer to `old+delta` |
| CsvView.View.AdjustColumnOffset | src/csv_view.cpp:87-97 | the offset becomes `max(0, old+delta)` clamped to the last column of the visible rows and header |
| CsvView.TakeCount | src/csv_view.cpp:137-145 | the fitting count lies between the cells already taken and the cells in the row |
| CsvView.TakeCountIsGreedy | src/csv_view.cpp:137-145 | the count the fitting loop reaches is the greedy one: at least one cell, every taken prefix of two or more cells fits, and the next cell would not |
| CsvView.GreedyIsUnique | src/csv_view.cpp:137-145 | only one count meets the greedy rule |
| CsvView.FindFromOccurs | src/csv_view.cpp:148 | a position `find` reports is an occurrence of the pattern |
| CsvView.FindFromIsFirst | src/csv_view.cpp:148 | no occurrence comes before the reported one, and none exists when nothing is reported |
| CsvView.FindFrom | src/csv_view.cpp:148 | a reported position leaves room for the pattern |
| CsvView.HighlightKeepsText | src/csv_view.cpp:147-167 | the segments of a cell read back as the value |
| CsvView.HighlightMarksFirstMatch | src/csv_view.cpp:147-167 | with a pattern found, exactly the pattern is marked, at its first occurrence; otherwise nothing is marked |
| CsvView.HighlightValue | src/csv_view.cpp:146-167 | the pre/match/post construction yields the segments `Highlight` defines |
| CsvView.CellText | src/csv_view.cpp:139-171 | a cell reads as its value, then the padding up to its width, then `;`, and is one longer than the larger of width and value length |
| CsvView.TabularCellsAlign | src/csv_view.cpp:139-171 | in tabular mode every cell of a column of the rows measured is its column width plus one long |
| CsvView.FormatCell | src/csv_view.cpp:138-178 | one iteration's cell is the cell `CellAt` defines |
| CsvView.Cells | src/csv_view.cpp:137-179 | cell k shows column startCol + k in that column's colour and reads as the column's value, padded with spaces to its width, then `;` |
| CsvView.FormatRow | src/csv_view.cpp:128-182 | the fitting loop returns the line `FormatLine` defines |
| CsvView.FormatLineIsFormatted | src/csv_view.cpp:128-182 | a formatted line holds the greedy number of consecutive cells from the first shown column, with the header flag, and is the only line that does |
| CsvView.HeadLines | src/csv_view.cpp:55-58 | a header line heads the table exactly when the header is pinned and non-empty, and it is the header laid out as a header line with no row index (IsFormatted) |
| CsvView.FormatBody | src/csv_view.cpp:60-69 | the row loop returns the body lines `BodyLines` defines |
| CsvView.LayoutShape | src/csv_view.cpp:41-58 | the table has the pinned header line, then one line per row left after dropping a pinned header row |
| CsvView.LayoutLineAt | src/csv_view.cpp:41-69 | each body line is that row formatted with the widths of the rows and header, flagged as header only when it is the unpinned header row |
| CsvView.LayoutBodyLine | src/csv_view.cpp:41-69 | each body line is correctly formatted for its row |
| CsvView.RowLabelsAreDataRows | src/csv_view.cpp:41-66 | over the model's visible rows, when the window starts at row 0 or its first data row differs from the header: unlabelled rows are exactly the unpinned header at row 0, and every labelled row shows the data row index of its contents |
| CsvView.DuplicateHeaderRowIsHidden | src/csv_view.cpp:41-44 | in a window past row 0 whose first data row equals the header, that row is taken for the header and removed when the header is pinned |
| CsvView.HeaderCopyShiftsLabels | src/csv_view.cpp:41-66 | in that window every row after the copied header is labelled one less than the data row it shows: `start+i-1` for row `i` unpinned (row 0 unlabelled), `start+i` for the row holding data row `start+i+1` pinned |
| CsvView.RenderRows | src/csv_view.cpp:29-81 | no rows and no header give the no-data frame; otherwise the table lines and the status texts `:command` and `Last: last` |
| CsvView.View.Render | src/csv_view.cpp:29-81 | the frame for the model's visible rows and header under the view's settings |
| CsvView.ColumnColorsCycle | src/csv_view.cpp:14-27 | column `i` has palette colour `i mod 16`, colours repeat every 16 columns, and the first 16 columns all differ |
| CsvView.InitColumnColors | src/csv_view.cpp:14-27 | `count` colours, colour `i` being palette entry `i mod 16` |
| CsvView.View.constructor | src/csv_view.cpp:10-12 | the view starts with 16 palette colours and the default settings |
| CsvView.View.ToggleHeaderPinned | src/csv_view.cpp:83 | flips the pinned flag |
| CsvView.View.ToggleTabularMode | src/csv_view.cpp:85 | flips the tabular flag |
| CsvView.View.SetCommandLine | src/csv_view.cpp:184-188 | stores both command-line texts |
| CsvView.View.SetSearchPattern | src/csv_view.cpp:190-192 | stores the pattern |
| CsvView.View.SetStartRow | src/csv_view.cpp:194 | stores the first row index |
| CsvView.View.SetCurrentMatch | src/csv_view.cpp:196-200 | stores the match position |
| CsvController.DigitChar | src/csv_controller.cpp:71 | the character written for a digit is a digit of that value |
| CsvController.NatToString | src/csv_controller.cpp:114-117 | the decimal text of a number is never empty |
| CsvController.NatToStringDigits | src/csv_controller.cpp:114-117 | the decimal text is all digits, without a leading zero |
| CsvController.AccumulateNatToString | src/csv_controller.cpp:68-75 | typing a number's decimal text as digit keys builds that number |
| CsvController.Consumed | src/csv_controller.cpp:85-90 | the consumed count is at least 1 and is the pending count when one was typed |
| CsvController.CountLabelEndsInKey | src/csv_controller.cpp:127-128 | a counted motion's command ends in its key, preceded by the count unless it is 1 |
| CsvController.ScrolledByZero | src/csv_controller.cpp:232-233 | a move of 0 rows changes nothing |
| CsvController.ScrolledBackward | src/csv_controller.cpp:241-247 | a backward move subtracts and saturates at row 0 |
| CsvController.ScrolledForward | src/csv_controller.cpp:234-240 | with a known count a forward move never passes the last full window's first row and otherwise goes the whole way; with the count unknown it goes exactly `delta` |
| CsvController.ScrolledForwardCanMoveUp | src/csv_controller.cpp:234-240 | with a known count, any forward move from a first row past the last full window's first row goes back up to that row |
| CsvController.LineIndexClosedForm | src/csv_controller.cpp:250-261 | the line chosen is `min(max(t,1)-1, rows-1)`, or 0 with no rows, and is a real row when there are rows |
| CsvController.Run | src/csv_controller.cpp:19-218 | a key sequence keeps the search prompt showing `/` and the pattern |
| CsvController.StepKeepsSearchLine | src/csv_controller.cpp:49-82 | no key breaks "in search mode the command buffer is `/` and the pattern" |
| CsvController.DigitKey | src/csv_controller.cpp:68-75 | a digit multiplies the count by ten and adds itself, clears the pending `g` and is echoed on the command line |
| CsvController.TypingDigits | src/csv_controller.cpp:68-75 | typing digits accumulates their decimal value and echoes them |
| CsvController.CountThenDown | src/csv_controller.cpp:141-150 | `n` then `j` scrolls by `n`, records `nj` (or `j`) and clears the count and command line |
| CsvController.CountThenGG | src/csv_controller.cpp:94-109 | `n` then `gg` goes to line `n` and records the typed command followed by `gg` |
| CsvController.TwoGsGoToTop | src/csv_controller.cpp:94-109 | `gg` alone goes to the first row and records `gg` |
| CsvController.CountedKeysConsume | src/csv_controller.cpp:85-160 | a motion key consumes the count and pending `g`, clears the command line and scrolls by the consumed count in its direction |
| CsvController.BackspaceOnEmptyPattern | src/csv_controller.cpp:49-56 | Backspace on an empty pattern changes nothing |
| CsvController.BackspaceDropsLast | src/csv_controller.cpp:49-56 | Backspace drops the pattern's last character and the prompt still shows `/` and the pattern |
| CsvController.EscapeLeavesSearch | src/csv_controller.cpp:41-48 | Escape leaves search mode with both buffers empty and the match cleared, keeping the first row and last search |
| CsvController.ReturnSearches | src/csv_controller.cpp:21-40 | Return searches from the first row; a hit moves there and records the pattern, a miss records `(not found)`; the prompt closes either way |
| CsvController.RepeatSearch | src/csv_controller.cpp:177-213 | `n`/`N` search after/before the first row for the last pattern, keep the count, and move to a hit or clear the match |
| CsvController.UnboundKeyResets | src/csv_controller.cpp:214-218 | a key is consumed exactly when a branch binds it; any other key resets the count, the pending `g` and the command line and nothing else |
| CsvController.MatchFollowsAction | src/csv_controller.cpp:24-34 | the controller's match is the one the view is told to show, and the first row is at a shown match (for Return here, and for `n`/`N` alike) |
| CsvController.Controller.constructor | src/csv_controller.cpp:13-16 | a new controller starts in the initial state, with the model holding the first window and the view showing row 0 and an empty command line |
| CsvController.Controller.UpdateViewport | src/csv_controller.cpp:224-227 | the model holds the window at the first row and the view shows that row |
| CsvController.Controller.MoveRows | src/csv_controller.cpp:229-248 | only the first row changes, to `Scrolled` of the old one |
| CsvController.Controller.GoToLine | src/csv_controller.cpp:250-262 | only the first row changes, to `LineIndex` of the target; the window is reloaded and the view follows |
| CsvController.Controller.SetCurrentMatch | src/csv_controller.cpp:264-269 | the controller and the view hold the match |
| CsvController.Controller.ClearCurrentMatch | src/csv_controller.cpp:271-275 | the controller and the view hold no match |
| CsvController.Controller.ConsumeCount | src/csv_controller.cpp:85-90 | returns the consumed count and clears the count and pending `g`, nothing else |
| CsvController.Controller.ShowSearchResult | src/csv_controller.cpp:24-34 | a hit moves to its row, reloads the window, records the command and shows the match; a miss records `(not found)` and clears the match, leaving the model alone (the same steps `n` and `N` take) |
| CsvController.Controller.SearchReturn | src/csv_controller.cpp:21-40 | the fields and the view follow Return's step |
| CsvController.Controller.SearchEscape | src/csv_controller.cpp:41-48 | the fields and the view follow Escape's step |
| CsvController.Controller.SearchBackspace | src/csv_controller.cpp:49-56 | the fields follow Backspace's step; the view settings stay |
| CsvController.Controller.SearchCharacter | src/csv_controller.cpp:57-63 | the fields follow the typed character's step; the view settings stay |
| CsvController.Controller.OnDigit | src/csv_controller.cpp:68-75 | the fields follow the digit's step; the view settings stay |
| CsvController.Controller.OnSlash | src/csv_controller.cpp:76-82 | search mode opens with the prompt `/`; the view settings stay |
| CsvController.Controller.OnG | src/csv_controller.cpp:94-109 | the fields and the model follow `g`'s step: a first `g` waits, a second goes to the counted line |
| CsvController.Controller.OnBigG | src/csv_controller.cpp:110-122 | the fields and the model follow `G`'s step: to the counted line, or the last one |
| CsvController.Controller.OnColumnKey | src/csv_controller.cpp:123-140 | the fields follow `l`/`h`'s step and the view's offset scrolls by the count, clamped |
| CsvController.Controller.OnRowKey | src/csv_controller.cpp:141-160 | the fields and the model follow `j`/`k`'s step; the view settings stay |
| CsvController.Controller.OnToggle | src/csv_controller.cpp:161-176 | the fields follow `H`/`t`'s step and the view flips the flag |
| CsvController.Controller.OnRepeat | src/csv_controller.cpp:177-213 | the fields, the model and the view follow `n`/`N`'s step |
| CsvController.Controller.OnUnbound | src/csv_controller.cpp:214-218 | the fields follow the reset of an unbound key; the view settings stay |
| CsvController.Controller.OnSearchKey | src/csv_controller.cpp:20-65 | a key in search mode follows `SearchStep` and reports whether it was consumed |
| CsvController.Controller.OnCommandKey | src/csv_controller.cpp:67-218 | a key outside search mode follows `Step` and reports whether it was consumed |
| CsvController.Controller.OnMotionKey | src/csv_controller.cpp:123-218 | the motion keys and the rest follow `MotionStep` |
| CsvController.Controller.OnOtherKey | src/csv_controller.cpp:161-218 | the toggles, repeated searches and the reset follow `OtherStep` |
| CsvController.Controller.OnEvent | src/csv_controller.cpp:19-218 | any key follows `Step`: the fields become its next state, the view's settings change as its action says, the view's command line, first row and the model's window stay in step, and the result says whether it was consumed |

## Left out

- The file's lines are a snapshot taken at `Open`: the model assumes the file does not change
  while it is open. The source rereads it from disk on every `LoadRows`, so a file edited in
  between would give it a different window; CsvModel.SetViewportTwice holds only under this
  assumption. Opening, seeking and rereading the stream (`ifstream`, `clear`, `seekg`) are not
  modelled; `None` stands for a file that cannot be opened.
- The chunk cache, LRU list, chunk offsets, pending request and worker thread declared in
  src/csv_model.h are not defined in any source file and are not modelled. Neither are the
  mutex and condition variable.
- `RowCount`, `RowCountKnown`, `FindNext` and `FindPrev` have no definition. They are the fields
  of the `Engine` parameter, and the controller only relies on what they return.
- `GetHeader` is a plain read of `header`, which the view reads directly.
- Rendering returns a `Frame` value of lines of cells and segments instead of FTXUI elements.
  The colours are values; borders, bold, underline, fillers and the Renderer closures are not
  modelled. The terminal width is a parameter of `Render`.
- src/main.cpp (argument handling, the screen loop) and src/csv_buffer.h/.cpp (an unused stub)
  are not part of this model, and neither is `GetComponent`.
- `q` calls `exit(0)`. This is modelled as the terminal flag `exited`, and `OnEvent` is not
  called once it is set.
- Integers are unbounded: the `size_t` wrap-around of `pending_count_ * 10` and the `int` casts
  in `AdjustColumnOffset`, `MoveRows` and `FormatRow` are idealised. `std::to_string` of a count
  is `NatToString`.
- CsvView.View.constructor: the colours are a constant field built once by `InitColumnColors`.
  The source can rebuild them, but nothing calls it again.
- CsvModel.Model.Open: the second `Close()` on an empty first line is not repeated. The state
  already is what that call would leave, apart from the closed handle.
- CsvController.Controller.OnEvent: the handlers state the view's settings through `Shown()`
  and `Perform` and declare the whole controller and view as their frame. They do not list
  the individual view fields they leave alone.
- Strings are `seq<char>`, but a model string stands for the source's byte string: each `char` is
  one byte, so `|s|` is `size()`, and `find`/`substr` positions count bytes. Widths, padding,
  fitting and match positions are therefore in bytes, as in the source. `Character(ch)` carries
  the first byte of the key's text (`event.character()[0]`).
- CsvView.RowLabelsAreDataRows: does not cover a window past row 0 whose first data row equals the
  header. The source takes that row for the header, so every later row is labelled one less
  than the data row it shows, and the current-match highlight follows the label. This is the
  source's behaviour, and the model keeps it; DuplicateHeaderRowIsHidden and
  HeaderCopyShiftsLabels state it.

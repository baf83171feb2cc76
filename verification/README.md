# Bingo card generator and number caller, modelled in Dafny

This project models the two small engines of a browser bingo application.

- `BingoGenerator` (generator.js) generates bingo cards:
  - It cuts `[1, maxNumber]` into one contiguous range per column and fills each column with a shuffled prefix of its range.
  - It picks the free-space cells and lays the cells out row by row.
  - It checks the submitted form.
  - When a cell is clicked, it decides whether the card wins: a full house, or a full row, column or diagonal.
- `BingoCaller` (caller.js) calls numbers over 1..75 without repetition:
  - It handles the draw button, the auto-draw interval, the speed slider and reset.
  - It derives each number's letter band and class names.
  - It works out the spoken announcement text, the recent-calls panel, and the language and theme toggles.

Everything is written as immutable datatypes and pure functions. A few operations are methods:

- `Every`, the line-checking methods that `CheckWin` calls, and `ChooseFreeSpaces` keep the source's loops, with loop invariants.
- `RollTimeout` has no loop. It replaces the rejection loop with a choice of a fresh number.

Modules, in dependency order:

| file | module | contents |
|---|---|---|
| js_values.dfy | JsValues | JavaScript value semantics: `parseInt(...) \|\| d`, loop counts for negative bounds, `Math.floor(a / b)`, `Math.min`/`Math.max`, `trim`, the decimal text of a number, ASCII lower-casing |
| counting.dfy | Counting | distinctness, integer intervals as sets, and the cardinality facts behind the sampling loops |
| column_ranges.dfy | ColumnRanges | the column ranges and their partition of `[1, maxNumber]` |
| shuffle.dfy | Shuffle | Fisher–Yates over a random-draw parameter |
| card_numbers.dfy | CardNumbers | `generateCardNumbers` and the shape of a validated card |
| card_layout.dfy | CardLayout | free-space choice, row-major cell order, marks, and the grid `checkWin` reads |
| win_check.dfy | WinCheck | the win rule, as a reference definition and as the source's loops |
| generate_form.dfy | GenerateForm | `adjustCount`, `handleGenerate`, and the click-time win check |
| caller_bands.dfy | CallerBands | letter bands, board rows, class names |
| caller_announce.dfy | CallerAnnounce | the `speakNumber` text and locale |
| caller_prefs.dfy | CallerPrefs | the language and theme toggles and their stored values |
| caller_state.dfy | CallerState | the caller as a state machine with its invariant |

Randomness is a parameter throughout:

- The shuffle's `Math.random()` draws become a function `roll`. Step i swaps position i with `roll(i) % (i + 1)`, which can reach exactly the indices `Math.floor(Math.random() * (i + 1))` can.
- The free-space loop and the caller's rejection loop (`do … while (has(num))`) become a choice of any value not chosen yet. That is exactly the set of values such a loop can stop at.

## Model

| member | source | states |
|---|---|---|
| JsValues.OrDefault | generator.js:311-316 | `parseInt(x) \|\| d` is the parsed number when that is a non-zero number, and d when it is NaN or 0, so a non-zero default never yields 0 |
| JsValues.LoopCount | generator.js:120-127 | a `for (i = 0; i < n; i++)` loop runs n times, and never when n is zero or negative |
| JsValues.FloorDiv | generator.js:334 | `Math.floor(a / b)` is the greatest q with q·b ≤ a for b > 0 (and the mirrored bound for b < 0) |
| JsValues.Trim | generator.js:309-310 | `trim()` yields the slice of the input between a whitespace-only prefix and a whitespace-only suffix, and the slice neither starts nor ends with whitespace |
| JsValues.IntToDecimal | caller.js:319 | the text `${num}` is the number's digits, with a `-` first for negatives. The digits' decimal value is the magnitude, and there is no leading zero: `0` alone for zero |
| JsValues.DecimalRoundTrip | caller.js:319 | reading back the digits written for a natural number gives that number |
| JsValues.IntToDecimalInjective | caller.js:319-323 | two different numbers never print the same text |
| JsValues.AsciiLower | caller.js:210 | `toLowerCase` maps A–Z to a–z and leaves every other character alone |
| Counting.FreeValueExists | caller.js:242-244 | a set with fewer members than an interval misses some value of the interval, so a loop that draws until it finds a fresh value has one to find |
| Counting.SubsetOfInterval | caller.js:214 | a subset of an interval is at most as large as the interval, and is equally large exactly when it is the whole interval |
| ColumnRanges.ColumnValues | generator.js:107-116 | the `available` array of column c holds exactly the values from `c * rangeSize + 1` (ColumnMin) to `(c + 1) * rangeSize` (ColumnMax), the last column running to maxNumber, each value once |
| ColumnRanges.ColumnsDisjoint | generator.js:104-108 | two different columns never share a value, for any maxNumber |
| ColumnRanges.ColumnInsideRange | generator.js:104-108 | for maxNumber ≥ 0 every column value lies in `[1, maxNumber]` |
| ColumnRanges.ColumnCovers | generator.js:104-108 | every value of `[1, maxNumber]` lies in some column, the last column taking the remainder |
| ColumnRanges.ColumnsPartition | generator.js:104-108 | the columns partition `[1, maxNumber]`: each value of it is in exactly one column, and nothing else is in any column |
| ColumnRanges.ColumnWideEnough | generator.js:334-339 | once `floor(maxNumber / cols) >= rows` holds, every column's range has at least `rows` values |
| Shuffle.Swap | generator.js:141 | the destructuring swap exchanges positions i and j and leaves every other position alone |
| Shuffle.SwapPermutes | generator.js:141 | a swap keeps the multiset of elements and keeps a duplicate-free array duplicate-free |
| Shuffle.ShuffleDown | generator.js:139-142 | the remaining passes of the Fisher–Yates loop keep the length and the multiset of elements |
| Shuffle.ShuffleArray | generator.js:138-144 | `shuffleArray` returns a permutation of its input: same length and same multiset, and no duplicates when the input had none |
| CardNumbers.ColumnNumbers | generator.js:110-129 | a column has `rows` entries; each entry within the range's length is a value of the column's range, the entries are pairwise distinct, and every later entry is 0 |
| CardNumbers.GenerateCardNumbers | generator.js:101-133 | the card has `cols` columns of `rows` entries each; entries are in their own column's range and distinct within a column, and the padding is 0 |
| CardNumbers.PaddingExactlyPastRange | generator.js:120-127 | for maxNumber ≥ 0 an entry is 0 exactly at the positions past the end of its column's range |
| CardNumbers.ValidatedCardWellFormed | generator.js:101-133 | when the range check passes there is no padding, every entry is in its column's range, and no number appears twice anywhere on the card |
| CardLayout.FreeSpacesDesired | generator.js:161 | `freeSpaces \|\| 1` asks for the given number of free spaces, and for one when 0 is given |
| CardLayout.ChooseFreeSpaces | generator.js:157-168 | the chosen free-space indices number `min(desired, rows*cols)`, or none when either is not positive, and all lie in `[0, rows*cols)` |
| CardLayout.CellIndexBijection | generator.js:187-192 | `row * cols + col` is a bijection between the grid positions and `[0, rows*cols)`, inverted by division and remainder |
| CardLayout.FlattenIndex | generator.js:187-206 | emitting a rectangular grid row by row puts cell (r, c) at index `r * cols + c` |
| CardLayout.CardCells | generator.js:187-206 | the emitted cells number rows·cols, and the cell at `row * cols + col` is a free space exactly when that index was chosen, and otherwise `columns[col][row]` |
| CardLayout.InitialMarks | generator.js:192-204 | a card starts with exactly its free-space cells marked |
| CardLayout.ToggleMark | generator.js:202 | a click flips the mark of the clicked cell and of no other |
| CardLayout.ToggleMarkTwice | generator.js:202 | clicking a cell twice restores the marks |
| CardLayout.GridFromCells | generator.js:240-253 | `grid[r][c]` is the mark of cell `r * cols + c`, or false where the card has no such cell |
| CardLayout.ReadBackRoundTrip | generator.js:240-253 | marks emitted row by row and read back with the same dimensions give back the original grid |
| WinCheck.ModeOf | generator.js:257 | only the exact string `fullhouse` selects full-house mode; any other value plays standard |
| WinCheck.Every | generator.js:259 | `every(m => m)` holds exactly when every entry is true |
| WinCheck.EveryCellMarked | generator.js:257-259 | `grid.every(row => row.every(m => m))` holds exactly when every cell is marked |
| WinCheck.AnyRowFull | generator.js:263-265 | the row loop sets the flag exactly when some row is full |
| WinCheck.AnyColumnFull | generator.js:267-270 | the column loop, over `grid.map(row => row[c])`, sets the flag exactly when some column is full |
| WinCheck.EitherDiagonalFull | generator.js:281-284 | the two diagonal tests succeed exactly when the main or the anti-diagonal is full |
| WinCheck.CheckWin | generator.js:234-285 | the source's loops report a win exactly when the reference rule holds: every cell in full-house mode. In standard mode it is a full row, a full column, or a full main or anti-diagonal when the dimensions as read are equal. Grid sizes follow the `for` loops, so a non-positive dimension gives no rows or columns |
| WinCheck.NonSquareNoDiagonalWin | generator.js:281-284 | when the two dimensions differ, standard mode wins exactly on a full row or column |
| WinCheck.SquareDiagonalWins | generator.js:281-284 | on a square grid a full diagonal alone wins |
| WinCheck.FullHouseIsStandardWin | generator.js:257-284 | a full-house win is also a standard win exactly when a dimension is positive or the two are equal. With two different non-positive dimensions no line loop runs |
| WinCheck.WinMonotone | generator.js:255-285 | marking more cells never turns a win into a loss |
| WinCheck.FullHouseNeedsEveryCell | generator.js:257-259 | a single unmarked cell rules out a full house |
| GenerateForm.AdjustCount | generator.js:85-90 | the counter ends up at least 1 and at most max. It moves by delta when that stays in bounds and is clamped at 1 or max otherwise, with missing values read as 1 and 1000 |
| GenerateForm.InitialGenerator | generator.js:37-42 | the generator starts with no cards, a 5 x 5 grid and standard mode |
| GenerateForm.FormCols | generator.js:313 | the column count used is never 0: `parseInt(...) \|\| 5` replaces 0 and NaN |
| GenerateForm.FormTitle | generator.js:309 | the title is the trimmed input when that is not empty, and the default title otherwise, so it is never empty |
| GenerateForm.Validate | generator.js:324-339 | a submission is accepted exactly when `1 <= count <= 1000` and `floor(maxNumber / cols) >= rows`; the count is checked first, and the range message reports `cols * rows` |
| GenerateForm.RangeCheckMatchesMessage | generator.js:331-337 | for a positive column count the range check fails exactly when maxNumber < cols·rows, the figure the message names; for a negative count the comparison flips |
| GenerateForm.MakeCard | generator.js:352-363 | each card carries the form's trimmed title, subtitle, rows, cols and free-space count, and its own generated numbers |
| GenerateForm.MakeCards | generator.js:349-364 | an accepted submission produces exactly `count` cards, each with the form's settings and well-formed numbers |
| GenerateForm.HandleGenerate | generator.js:306-364 | as written: the verdict is the two checks, and the cards are replaced only on acceptance. The dimensions and win rule are overwritten either way |
| GenerateForm.HandleGenerateChecked | generator.js:306-364 | corrected: a rejected submission leaves the generator unchanged; an accepted one installs the cards together with their dimensions and rule |
| GenerateForm.ClickReadsCardFaithfully | generator.js:234-253 | while the stored dimensions match the cards, a click (`ClickWins`) decides the win on exactly the grid of marks the card shows |
| GenerateForm.EmptyGridClicks | generator.js:234-284 | with non-positive stored dimensions the grid is empty: standard mode wins only when the two dimensions are equal, and a full house always wins |
| GenerateForm.InitialDimsAgree | generator.js:37-42 | at start the (empty) card list agrees with the stored dimensions |
| GenerateForm.CheckedKeepsDimsAgree | generator.js:313-315 | the corrected submission keeps the cards on screen in agreement with the dimensions `checkWin` reads |
| GenerateForm.RejectedSubmitMisreadsCard | generator.js:313-339 | as written: a 5 x 5 card with a full top row wins; after a rejected 10 x 10 submission the same card and marks no longer win |
| GenerateForm.TopRowReadWide | generator.js:240-284 | the 25 marks of a 5 x 5 card with its top row marked fill no row, column or diagonal when read as 10 x 10 |
| GenerateForm.CheckedRejectKeepsWin | generator.js:313-339 | corrected: after the same rejected submission the card still wins |
| CallerBands.LetterForNumber | caller.js:197-203 | every number gets one of B, I, N, G, O |
| CallerBands.BoardLetterIndex | caller.js:180 | the board row index `floor((i - 1) / 15)` is non-negative for i ≥ 1 |
| CallerBands.LetterMatchesBoardRow | caller.js:179-182 | for 1..75 the board row a number is placed in is the row of its letter, and row k holds 15k+1..15k+15 |
| CallerBands.BoardRowsHoldFifteen | caller.js:179-190 | a number of 1..75 goes to board row k exactly when it lies in 15k+1..15k+15, so each letter's row holds exactly fifteen numbers |
| CallerBands.IndexOfFrom | caller.js:210 | the string search finds the first occurrence of the pattern at or after the start, or reports that there is none |
| CallerBands.ReplaceFirst | caller.js:210 | `replace('ball-', '')` on a string that starts with `ball-` drops exactly that prefix |
| CallerBands.ToLowerCase | caller.js:210 | lower-casing keeps the length and lower-cases each character |
| CallerBands.ClassForLetter | caller.js:205-207 | `getClassForLetter` is `ball-` followed by the letter |
| CallerBands.ClassForNumber | caller.js:205-211 | `getClassForNumber` is the number's band letter in lower case followed by `-col` |
| CallerBands.MiniBallClass | caller.js:296-298 | a recent-call ball has class `mini-ball` and its band letter in lower case followed by `-col` |
| CallerBands.ColumnClassIsBandLetter | caller.js:205-211 | the column class is one of the five band classes, and the recent-calls ball (line 298) carries the same class as the board |
| CallerAnnounce.VietLetter | caller.js:317-318 | B, I, N, G, O are said as Bê, I, Nờ, Gờ, Ô, and any other letter is said as itself |
| CallerAnnounce.LangCode | caller.js:313-323 | the utterance is tagged `vi-VN` exactly when the language is `vi`, and `en-US` otherwise |
| CallerAnnounce.SpeakNumber | caller.js:304-324 | nothing is said when muted or without speech synthesis. Otherwise the text is the spoken letter, one space and the number's decimal text, in the language's locale |
| CallerAnnounce.SpokenLetterHasNoSpace | caller.js:317-323 | no spoken letter name contains a space |
| CallerAnnounce.CallTextInjective | caller.js:313-324 | two different numbers are never announced with the same text, in either language |
| CallerAnnounce.VietLettersDistinct | caller.js:317 | the five Vietnamese letter names are pairwise different |
| CallerAnnounce.CallTextStartsWithLetter | caller.js:313-324 | an English announcement starts with the band letter and a Vietnamese one with its Vietnamese name |
| CallerPrefs.InitialLanguage | caller.js:40 | the stored language is used unless it is missing or empty, in which case Vietnamese is |
| CallerPrefs.ToggleLanguage | caller.js:91 | the toggle always yields `vi` or `en`, and never the language it started from |
| CallerPrefs.ToggleLanguageTwice | caller.js:90-94 | toggling twice restores the language exactly when it was `vi` or `en` |
| CallerPrefs.StoredLanguageRoundTrip | caller.js:91-92 | the language the toggle stores is the one the next start reads back |
| CallerPrefs.ToggleTheme | caller.js:96-116 | the theme button moves `theme-tet` to `theme-tet-advance`, removes `theme-tet-advance`, or adds `theme-tet`, and touches no other class; it stores `theme-tet-advance`, `default` or `theme-tet` respectively |
| CallerPrefs.RestoreTheme | caller.js:119-126 | a stored `theme-tet` or `theme-tet-advance` restores that theme; anything else restores the default |
| CallerPrefs.ToggleThemeAdvances | caller.js:96-126 | on a page showing one theme, the button shows the next one in the default → Tết → Tết advance cycle, and stores a name that restores it |
| CallerPrefs.ThemeTogglePeriodThree | caller.js:98-115 | three presses of the theme button give back the original class set |
| CallerPrefs.RestoreRoundTrip | caller.js:103-126 | each theme's stored name restores that theme |
| CallerState.InitialCaller | caller.js:39-47 | the constructor's state: nothing called, empty history, no roll pending, auto-draw off, speed 3000 ms, sound on, and the stored language (Vietnamese when none is stored) |
| CallerState.InitialValid | caller.js:42-47 | the caller starts with nothing called, no roll pending, auto-draw off, and the invariant holding |
| CallerState.DrawNumber | caller.js:213-221 | with all 75 called a draw only stops auto-draw; otherwise it starts a roll and changes nothing else |
| CallerState.FinalizeDraw | caller.js:250-252 | the called set gains exactly the number, the history gains it at the front, and the roll ends. Timer, speed, mute and language are unchanged |
| CallerState.ClickDraw | caller.js:61-64 | the draw button does nothing while a roll is pending |
| CallerState.StartAutoDraw | caller.js:360-377 | with all 75 called it changes nothing; otherwise the interval runs at the current speed, a roll is pending, and nothing else changes. Calls, speed, mute flag and language are never touched |
| CallerState.StopAutoDraw | caller.js:379-385 | the interval is cleared and nothing else changes |
| CallerState.ToggleAutoDraw | caller.js:352-358 | the auto button stops a running interval. With none running it starts one at the current speed with a roll pending, unless all 75 are called, when it changes nothing. Stopping changes nothing but the interval. It never changes the calls, speed, mute flag or language |
| CallerState.AutoTick | caller.js:370-376 | a tick starts a roll exactly when idle with numbers left (and changes nothing else), stops auto-draw and nothing else when all are called, leaves the state as it is while a roll is pending, and never changes the calls |
| CallerState.ChangeSpeed | caller.js:74-82 | the new speed is stored. A running interval restarts at the new speed with a roll pending, or stops when all 75 are called; a stopped one stays stopped. The calls are unchanged |
| CallerState.ResetGame | caller.js:387-406 | a reset empties the calls and history and stops auto-draw; a pending roll stays pending, and speed, mute flag and language are kept |
| CallerState.RecentCalls | caller.js:295 | the panel shows the history after its first entry, at most five numbers |
| CallerState.Step | caller.js:60-94 | only a completed roll and a confirmed reset change the calls, and a roll adds exactly its number at the front. Only the sound button changes the mute flag, the language button always changes the language, and only the slider changes the speed |
| CallerState.Announcement | caller.js:254-284 | the announcement a draw makes is silent exactly when muted or without speech synthesis, and is otherwise tagged with the language's locale |
| CallerState.AnnouncementSaysCall | caller.js:304-324 | a spoken announcement (made at line 284) says the call text of the drawn number: the letter of its band as said in the current language, a space, and the number |
| CallerState.AnnouncementsTellNumbersApart | caller.js:304-324 | two draws of different numbers in the same settings are announced differently |
| CallerState.FinalizeKeepsValid | caller.js:241-252 | completing a draw with a fresh number in 1..75 keeps the history duplicate-free and equal to the called set as a set. The count grows by one and stays at most 75 |
| CallerState.FinalizeRepeatBreaksValid | caller.js:250-252 | finalizing a number already called would list it twice, so the rejection loop is needed |
| CallerState.StepKeepsValid | caller.js:60-94 | every event the page can deliver keeps the invariant |
| CallerState.RunKeepsValid | caller.js:213-290 | every state reachable by a run of events keeps the invariant |
| CallerState.RollTimeout | caller.js:239-247 | the roll timeout always finds a number: one in 1..75, not called, which ends up at the front of the history with the invariant intact |
| CallerState.ExhaustedMeansAllCalled | caller.js:214 | when 75 are called, the called set is exactly 1..75 and every one of them is in the history |
| CallerState.DrawWhenExhausted | caller.js:214-218 | a draw with all 75 called leaves the calls and history alone, starts no roll, and stops auto-draw |
| CallerState.RollingIgnoresDraws | caller.js:61-64 | while a roll is pending, the draw button is ignored and an auto tick starts no second roll |
| CallerState.TickDrawsIffIdle | caller.js:370-375 | a tick starts a roll exactly when idle with numbers left, and stops auto-draw exactly when all are called |
| CallerState.ResetClears | caller.js:66-70 | a confirmed reset empties the game and stops auto-draw; a cancelled one changes nothing |
| CallerState.ResetDuringRoll | caller.js:387-406 | a roll pending at reset stays valid, and its timeout makes the new game's first call |
| CallerState.RecentCallsAfterDraw | caller.js:292-301 | after a draw the panel shows the up to five previous calls, newest first, and never the number just drawn |

## Left out

- DOM construction and markup are not modelled: the card HTML, header letters, board cells, ball CSS classes other than the class names above, the rules modal, and `renderCards`. They are presentation only.
- `alert`, `confirm`, `window.print` and the print layout attributes are left out, along with `applyTheme` and its CSS variables. `confirm`'s answer is an event parameter.
- `localStorage` reads are inputs and its writes are outputs.
- Audio playback, `speechSynthesis.cancel`, voice selection, rate and pitch are left out, because they are browser APIs. Only the text and locale of an utterance are modelled, and speech availability is a parameter.
- Timers are events: the 500 ms roll delay is the `Timeout` event, the interval is `Tick`, and the 3-second `just-called` highlight is not modelled.
- Button labels, titles, the disabled state of the draw button and the `n/75` counter text are left out. Only the `isRolling` guard decides whether a draw click is taken. While a roll is pending, the button is disabled and the guard refuses the click. But `resetGame` re-enables the button (caller.js:406) while a roll is still pending. A click then passes the button and is refused by the guard alone, which is the case the model covers.
- ShuffleArray: proves that the result is a permutation for every sequence of draws. That the draws are uniformly random is a property of `Math.random`, and is not stated.
- CardLayout.ChooseFreeSpaces: covers the values the loop can end with. Its termination in practice depends on the random draws and is not modelled; the model always picks a fresh cell.
- CallerState.RollTimeout: as above, picks a fresh number directly in place of the random rejection loop.
- JsValues.AsciiLower: models `toLowerCase` on ASCII only. Every letter it sees here is B, I, N, G or O.
- ColumnRanges.ColumnsPartition: stated for maxNumber ≥ 0. For a negative maxNumber every column but the last is empty, and the last can hold non-positive values (maxNumber −1 with 3 columns gives the last column `[−1]`). The range check then accepts only rows ≤ −1, so such a card has no rows and shows none of them.
- CallerState.ChangeSpeed: the slider value is taken as a whole number of seconds. The slider's step is set in page markup that is not part of this model.
- CallerPrefs.ToggleTheme: the toggle is proved to cycle on pages that show at most one theme class, which is every page the code itself produces.
- Numbers are unbounded integers. JavaScript numbers are doubles, and are exact only up to 2^53. Form values, counts, speeds and card numbers beyond that are outside the model.
- The `generator.js` page theme (`applyTheme`, `appTheme`) and `handlePrint` are not part of this model.

## Findings

| source | as written | input that shows it | evidently intended | confidence | as-written member | corrected member |
|---|---|---|---|---|---|---|
| generator.js:313-315 | `handleGenerate` stores `gridCols`, `gridRows` and `winCondition` before validating (lines 325-339). A rejected submission leaves the old cards on screen, but `checkWin` (lines 234-235) then reads them with the new dimensions | 5 x 5 cards showing, with the top row of one marked. Submit 10 columns, 10 rows and maximum 75: the range check rejects it. Clicking on that card now reads it as 10 x 10, and the full row no longer wins | store the settings only when the submission is accepted, so a rejected submission changes nothing | high (by reading the code; not executed) | GenerateForm.HandleGenerate, GenerateForm.RejectedSubmitMisreadsCard | GenerateForm.HandleGenerateChecked, GenerateForm.CheckedRejectKeepsWin |

# Scoreboard: a verified model of the score ledger and its input screens

Scoreboard is a React score keeper for a tile-laying board game. Each player
has five score categories: castle, road, monastery, garden and field. Some
screens also know three bonus categories: barrel, wheat and cloth. This
project models in Dafny the parts of the program that decide what the
numbers are:

- **The ledger** (`App`). A roster of 1..count players is built with
  placeholder names and palette colours. Adding points to a category
  clamps that category at zero, recomputes the score as the sum of the
  categories and appends one record to the player's history. The
  application state is a class holding the game phase and the roster.
- **The history list** (`GameHistory`, `GameHistoryView`). All histories
  are merged into one list, each record tagged with its owner, and the list
  is sorted newest first. The program calls `Array.prototype.sort`, which is
  stable; `SortNewestFirst`, an in-place insertion sort on an array, stands
  in for that call. `GameHistory.NewestFirstIsUnique` proves that every
  stable newest-first sort gives the same list, so the stand-in's output is
  the one the program's call produces.
  The rows show HH:MM:SS times and signed points, or a placeholder when
  there are no records.
- **The bonus leaders** (`BonusLeaders`). For each bonus category the panel
  takes the maximum, which is at least 0, and lists every player holding
  it, ties included. It shows "尚無" (none) when the maximum is 0.
- **The input state machines**, each a class whose methods are the
  component's handlers:
  - colour picking with a capacity and no duplicates (`ColorSelection`);
  - renaming with trim-and-reject (`PlayerHeader`);
  - the two score entry buffers (`ScoreInputPanel`, `QuickScorePanel`);
  - the score sheet, where the score and bonus choices exclude each other
    (`ScoreInputModal`);
  - the older score-only detail sheet (`PlayerDetail`);
  - the scoreboard's sheets and dialogs, including the guard that keeps
    the end-of-game bonus from being applied twice (`Scoreboard`).

`JsText` and `JsNumbers` model the JavaScript built-ins these screens
depend on: `trim`, `join`, `parseInt`, `String(n)` and `padStart(2, '0')`.
`parseInt` follows ECMAScript:
- leading whitespace is skipped;
- an optional sign is read;
- a `0x` prefix switches to base 16;
- the longest run of digits is read, and NaN becomes `None`.

Two facts shape the model:
- A callback a component calls (`onAddScore`, `onNameChange`, `onReset`, …)
  is returned as the method's result, as a ledger `Command` or an `Option`.
- The clock and the random record id (`Date.now`, `Math.random`) and the
  local-time getters are parameters.

## Model

| member | source | states |
|---|---|---|
| App.EmptyBreakdown | src/App.tsx:14-20 | every category of a new breakdown is 0, and so is its total |
| App.NewRoster | src/App.tsx:23-31 | `count` players with ids 1..count, names "玩家 i+1", palette colours by position (pairwise distinct), score 0, all categories 0, empty history; the roster is consistent (valid players, unique ids) |
| App.AddToPlayer | src/App.tsx:52-73 | the chosen category becomes max(0, old + points); the other four are unchanged; the score is the sum of the categories; the history grows by exactly one record at the end, carrying the category and points, with earlier records unchanged; id, name and colour are unchanged; non-negative categories stay non-negative |
| App.AddScoreTo | src/App.tsx:44-75 | same length; every player whose id differs is returned unchanged; the player with the id changes as AddToPlayer says; an id not in the roster leaves the roster unchanged; a consistent roster stays consistent |
| App.Clamp | src/App.tsx:62 | `Math.max(0, v)`: the least value that is at least 0 and at least v, so it is either 0 or v |
| App.ClampIsOrderDependent | src/App.tsx:62 | a category at 3 that receives -10 then +5 ends at 5, and +5 then -10 ends at 0 |
| App.AppState.constructor | src/App.tsx:10-11 | the application starts in setup with no players |
| App.AppState.SelectPlayerCount | src/App.tsx:23-34 | the roster becomes NewRoster(count) and the phase becomes playing |
| App.AppState.Reset | src/App.tsx:37-39 | only the phase changes, to setup; the players are kept |
| App.AppState.AddScore | src/App.tsx:42-76 | the roster becomes AddScoreTo of the old roster; the phase is unchanged; the roster stays consistent |
| JsText.TrimStart | src/components/PlayerDetail/PlayerHeader.tsx:14 | the result is a suffix, everything removed is whitespace, and it does not start with whitespace |
| JsText.TrimEnd | src/components/PlayerDetail/PlayerHeader.tsx:14 | the result is a prefix, everything removed is whitespace, and it does not end with whitespace |
| JsText.TrimIsCore | src/components/PlayerDetail/PlayerHeader.tsx:14 | `trim` keeps the contiguous slice of the text that starts where the leading whitespace ends, and everything cut off before or after it is whitespace |
| JsText.Trim | src/components/PlayerDetail/PlayerHeader.tsx:14 | `trim`: no longer than the text, and a non-empty result has no whitespace at either end |
| JsText.TrimEmptyIffBlank | src/components/PlayerDetail/PlayerHeader.tsx:14-15 | the trimmed text is empty exactly when the text is all whitespace |
| JsText.TrimIdempotent | src/components/PlayerDetail/PlayerHeader.tsx:14 | trimming twice equals trimming once |
| JsText.Join | src/components/Scoreboard/components/ScoreboardBonusLeaders.tsx:114 | `join`: empty for no parts, the part itself for one; with more, it starts with the first part and the separator and ends with the last part |
| JsText.JoinSnoc | src/components/Scoreboard/components/ScoreboardBonusLeaders.tsx:114 | joining one more part appends the separator and that part; with the cases of zero and one part this fixes the whole joined text |
| JsNumbers.ParseInt | src/components/PlayerDetail/components/ScoreInputPanel.tsx:24-25 | `parseInt` of text with no decimal digit anywhere is NaN (`None`) |
| JsNumbers.NatToStringDigits | src/components/PlayerDetail/components/ScoreInputPanel.tsx:31 | `String(n)` of a natural number is a non-empty run of decimal digits, with no leading zero unless it is "0", whose value is n |
| JsNumbers.IntToString | src/components/PlayerDetail/components/ScoreInputPanel.tsx:31 | `String(n)`: for n >= 0 a canonical numeral (digits only, no leading zero unless "0") whose value is n; for n < 0 a '-' followed by the canonical numeral of -n; `parseInt` reads it back as n for every integer n |
| JsNumbers.CanonicalIsNatToString | src/components/PlayerDetail/components/ScoreInputPanel.tsx:31 | a canonical numeral is the decimal rendering of its own value |
| JsNumbers.IntToStringIsUnique | src/components/PlayerDetail/components/ScoreInputPanel.tsx:31 | `String(n)` is the only canonical numeral whose value is n, so the contract of IntToString fixes its text |
| JsNumbers.ParseIntOfPlusSigned | src/components/GameHistory.tsx:106 | a '+' followed by `String(n)` reads back as n |
| JsNumbers.Pad2 | src/components/GameHistory.tsx:67-69 | `padStart(2, '0')` of a number is at least two decimal digits whose value is the number: a '0' and one digit below 10, the canonical numeral from 10 on |
| JsNumbers.Pad2Digits | src/components/GameHistory.tsx:67-69 | `padStart(2, '0')` of a number below 100 is exactly two decimal digits whose value is the number |
| GameHistory.TagAll | src/components/GameHistory/utils.ts:23-30 | one entry per record, in history order, each the record tagged with the owner's id, name and CSS colour |
| GameHistory.Flatten | src/components/GameHistory/utils.ts:22-31 | the merged list has as many entries as all histories together |
| GameHistory.FlattenContents | src/components/GameHistory/utils.ts:22-31 | the merged list has one entry per record of every player (length = total history length); every entry is a record of some player tagged with that player, and every such tagged record is in the list |
| GameHistory.NoRecordsIffEmptyHistories | src/components/GameHistory/utils.ts:20-34 | there are no records exactly when every player's history is empty, which includes an empty roster |
| GameHistory.SortNewestFirst | src/components/GameHistory/utils.ts:33 | after the in-place sort the array is non-increasing by timestamp, and for every timestamp the entries carrying it are in their original order (stability) |
| GameHistory.SameOrderIsPermutation | src/components/GameHistory/utils.ts:33 | keeping the order of every timestamp group makes the sorted list a permutation of the input |
| GameHistory.NewestFirstIsUnique | src/components/GameHistory/utils.ts:33 | two newest-first lists with the same order within every timestamp are equal, so the stable sort's output is determined by its input |
| GameHistory.HeadTimestampBound | src/components/GameHistory/utils.ts:33 | the head of a newest-first list carries the largest timestamp of any list with the same entries per timestamp |
| GameHistory.BuildHistoryRecords | src/components/GameHistory/utils.ts:19-35 | the result is newest-first, is a permutation of the merged list, keeps roster-then-history order among equal timestamps, and has the total history length |
| GameHistory.LatestIsHead | src/components/GameHistory/index.tsx:19-21 | the head of the non-empty result is one of the players' records and no record is newer |
| GameHistory.RecordDisplay | src/components/GameHistory/utils.ts:38-50 | a score record shows the label and icon of its score category from the tables of src/types.ts; a bonus record shows its bonus category |
| GameHistory.ScoreDisplayIdentifies | src/components/GameHistory/utils.ts:39-43 | two score records show the same label exactly when they are of the same category |
| Types.ScoreLabel | src/types.ts:39-45 | the label table `SCORE_TYPE_LABELS`: every score category has a non-empty label |
| Types.ScoreIcon | src/types.ts:48-54 | the icon table `SCORE_TYPE_ICONS`: every score category has a non-empty icon |
| Types.ScoreLabelsDistinct | src/types.ts:39-45 | no two score categories share a label |
| Types.ScoreIconsDistinct | src/types.ts:48-54 | no two score categories share an icon |
| Types.ColorCss | src/constants/colors.ts:4-10 | the table `PLAYER_COLORS`: every colour key has a non-empty CSS colour |
| Types.ColorCssDistinct | src/constants/colors.ts:4-10 | no two colour keys share a CSS colour, so a row's border colour identifies the owner's colour |
| GameHistoryView.TimeString | src/components/GameHistory.tsx:67-70 | HH:MM:SS: eight characters, colons at positions 2 and 5, and each field is two digits reading back as the hour, minute and second |
| GameHistoryView.PointsText | src/components/GameHistory.tsx:106 | starts with '+' exactly when the points are positive; after that sign it is `String(points)`: the canonical numeral of the points, with '-' before it when they are negative (0 shows "0", 5 shows "+5"); reads back as the points |
| GameHistoryView.RowOf | src/components/GameHistory.tsx:62-107 | the row shows the owner's name and colour, the time string, the record's display and PointsText of the record's points; the positive style is used exactly when points > 0, and exactly then the text starts with '+' |
| GameHistoryView.Render | src/components/GameHistory.tsx:25-113 | the rows are the merged, newest-first, stable list rendered row by row; the placeholder is shown exactly when there are no records |
| BonusLeaders.MaxPoints | src/components/Scoreboard/components/ScoreboardBonusLeaders.tsx:32-35 | at least 0; at least every player's value, a missing value counted as 0; either 0 or some player's value; 0 with no players |
| BonusLeaders.Leading | src/components/Scoreboard/components/ScoreboardBonusLeaders.tsx:36-37 | the `===` filter: no longer than the roster, and a player is kept exactly when its raw value equals the maximum |
| BonusLeaders.LeadingCount | src/components/Scoreboard/components/ScoreboardBonusLeaders.tsx:36-37 | the leaders are exactly the players whose raw value equals the maximum, each as often as in the roster; a player without a value is never one |
| BonusLeaders.LeadingAppend | src/components/Scoreboard/components/ScoreboardBonusLeaders.tsx:36-37 | selecting leaders distributes over splitting the roster, so leaders keep roster order |
| BonusLeaders.Names | src/components/Scoreboard/components/ScoreboardBonusLeaders.tsx:38 | the names of the leaders, position by position |
| BonusLeaders.LeaderOf | src/components/Scoreboard/components/ScoreboardBonusLeaders.tsx:31-41 | the entry for one category carries the maximum and the names of the `===` leaders in roster order; every name listed belongs to a player holding the maximum, every player holding it is listed (ties included), and there is at least one name when the maximum is positive |
| BonusLeaders.Leaders | src/components/Scoreboard/components/ScoreboardBonusLeaders.tsx:29-43 | exactly one entry per bonus category, in the order barrel, wheat, cloth |
| BonusLeaders.PositiveValueHasLeaders | src/components/Scoreboard/components/ScoreboardBonusLeaders.tsx:32-38 | if some player has a positive value, the maximum is positive, there is at least one leader, every leader holds it and nobody exceeds it |
| BonusLeaders.NoPositiveValueMeansZero | src/components/Scoreboard/components/ScoreboardBonusLeaders.tsx:32-35 | with no positive value the maximum is 0 |
| BonusLeaders.LeaderText | src/components/Scoreboard/components/ScoreboardBonusLeaders.tsx:114 | "尚無" when the maximum is 0; otherwise the names joined by " / ": the name alone for one leader, "first / second" for two tied leaders |
| BonusLeaders.PointsSuffix | src/components/Scoreboard/components/ScoreboardBonusLeaders.tsx:128 | empty exactly when the maximum is not positive; otherwise full-width parentheses around digits that read back as the maximum |
| BonusLeaders.LeaderDisplay | src/components/Scoreboard/components/ScoreboardBonusLeaders.tsx:111-128 | "尚無" and no number exactly when nobody has a positive value; otherwise at least one name, joined by " / ", and the maximum in full-width parentheses |
| ColorSelection.EveryColorOfferedOnce | src/components/ColorSelection.tsx:27 | the grid offers every colour, each once |
| ColorSelection.Toggle | src/components/ColorSelection.tsx:33-39 | after a click the colour is chosen exactly when it was not and there was room; every other colour keeps its state; an added colour goes last |
| ColorSelection.Without | src/components/ColorSelection.tsx:35 | the filtered selection lacks the colour and keeps every other selected colour |
| ColorSelection.WithoutRemovesOne | src/components/ColorSelection.tsx:35 | removing the colour at position k of a duplicate-free selection leaves the others in their order |
| ColorSelection.WithoutKeepsDistinct | src/components/ColorSelection.tsx:35 | removal keeps the selection free of duplicates and does not lengthen it |
| ColorSelection.ToggleKeepsValid | src/components/ColorSelection.tsx:33-39 | every click keeps the selection free of duplicates and no longer than the player count |
| ColorSelection.ToggleDeselects | src/components/ColorSelection.tsx:34-35 | clicking a selected colour removes exactly it and keeps the others in their order |
| ColorSelection.ToggleTwiceRestores | src/components/ColorSelection.tsx:34-38 | below capacity, clicking an unselected colour twice restores the selection; at capacity the click changes nothing |
| ColorSelection.AtMostFiveColors | src/components/ColorSelection.tsx:27 | a duplicate-free selection from the five colours has at most five entries |
| ColorSelection.MoreThanFivePlayersNeverComplete | src/components/ColorSelection.tsx:42 | with more than five players a valid selection never reaches the player count, so start stays disabled |
| ColorSelection.ColorPicker.constructor | src/components/ColorSelection.tsx:30 | the picker starts with nothing selected |
| ColorSelection.ColorPicker.SelectColor | src/components/ColorSelection.tsx:33-39 | the selection becomes the toggle of the old one, and the invariant holds |
| ColorSelection.ColorPicker.IsComplete | src/components/ColorSelection.tsx:42 | once the count is reached, clicks on unchosen colours are ignored; before that, such a click adds the colour |
| ColorSelection.ColorPicker.Start | src/components/ColorSelection.tsx:77-79 | start hands on the colours in picking order exactly when as many are selected as there are players, and nothing otherwise |
| PlayerHeader.AcceptedName | src/components/PlayerDetail/PlayerHeader.tsx:14-16 | a name is passed on exactly when the text is not all whitespace and its trimmed form differs from the current name; it is the trimmed form, non-empty, with no whitespace at either end |
| PlayerHeader.AcceptedNameIsStable | src/components/PlayerDetail/PlayerHeader.tsx:14-16 | saving an accepted name again gives the same answer |
| PlayerHeader.PaddedCurrentNameIsRejected | src/components/PlayerDetail/PlayerHeader.tsx:14-20 | the current name, padded with any whitespace, is never passed on |
| PlayerHeader.TrimSurrounded | src/components/PlayerDetail/PlayerHeader.tsx:14 | trimming text surrounded by whitespace equals trimming the text |
| PlayerHeader.NameEditor.constructor | src/components/PlayerDetail/PlayerHeader.tsx:10-11 | the box starts closed, holding the current name |
| PlayerHeader.NameEditor.StartEditing | src/components/PlayerDetail/PlayerHeader.tsx:38 | a click on the name opens the box without changing its text |
| PlayerHeader.NameEditor.Change | src/components/PlayerDetail/PlayerHeader.tsx:48 | typing replaces the text |
| PlayerHeader.NameEditor.ReceiveName | src/components/PlayerDetail/PlayerHeader.tsx:9-11 | a new name from the owner leaves the box's text as it is |
| PlayerHeader.NameEditor.SaveName | src/components/PlayerDetail/PlayerHeader.tsx:13-22 | the result is AcceptedName of the text and name; a rejected text is replaced by the current name; the box closes either way |
| PlayerHeader.NameEditor.Blur | src/components/PlayerDetail/PlayerHeader.tsx:49 | leaving the box saves by the same rule |
| PlayerHeader.NameEditor.KeyDown | src/components/PlayerDetail/PlayerHeader.tsx:24-32 | Enter saves by the same rule; Escape restores the current name and closes the box with nothing passed on; other keys change nothing |
| ScoreInputPanel.BufferValue | src/components/PlayerDetail/components/ScoreInputPanel.tsx:24-25 | an unreadable buffer counts as 0; a readable one (" 7", "007", "-3x") counts as what `parseInt` reads; a buffer holding `String(n)` counts as n |
| ScoreInputPanel.AdjustedText | src/components/PlayerDetail/components/ScoreInputPanel.tsx:23-32 | the adjusted buffer is the canonical numeral (no sign, no leading zero) of max(0, value + delta), an unreadable buffer counting as 0; it reads back as that number, and it is "0" when the sum is negative |
| ScoreInputPanel.ConfirmedPoints | src/components/PlayerDetail/components/ScoreInputPanel.tsx:35-36 | points are confirmed exactly when the buffer parses to a number other than 0, and they are that number |
| ScoreInputPanel.AdjustedNeverNegative | src/components/PlayerDetail/components/ScoreInputPanel.tsx:23-40 | a buffer produced by the quick buttons confirms its value when positive and nothing when 0; it never confirms a negative number |
| ScoreInputPanel.TypedNumberConfirms | src/components/PlayerDetail/components/ScoreInputPanel.tsx:35-40 | a typed number, negative ones included, is confirmed unchanged unless it is 0 |
| ScoreInputPanel.AdjustUndo | src/components/PlayerDetail/components/ScoreInputPanel.tsx:23-32 | adjusting by a delta and back returns to the start when neither step is cut at 0 |
| ScoreInputPanel.ScoreEntry.constructor | src/components/PlayerDetail/components/ScoreInputPanel.tsx:20-21 | the buffer starts empty and the flag is the owner's first `confirmDisabled` |
| ScoreInputPanel.ScoreEntry.ReceiveDisabled | src/components/PlayerDetail/components/ScoreInputPanel.tsx:20 | a new `confirmDisabled` prop from the owner replaces the flag and keeps the typed buffer |
| ScoreInputPanel.ScoreEntry.Change | src/components/PlayerDetail/components/ScoreInputPanel.tsx:60 | typing replaces the buffer |
| ScoreInputPanel.ScoreEntry.AdjustScore | src/components/PlayerDetail/components/ScoreInputPanel.tsx:23-32 | the buffer becomes AdjustedText of the old buffer |
| ScoreInputPanel.ScoreEntry.ClickQuick | src/components/PlayerDetail/components/ScoreInputPanel.tsx:45-48 | the quick button at position k adjusts by the k-th of 1, 3, 5, 10, -1, -3, -5, -10 |
| ScoreInputPanel.ScoreEntry.Confirm | src/components/PlayerDetail/components/ScoreInputPanel.tsx:34-40 | the result is ConfirmedPoints of the buffer; the buffer is cleared after a confirmation and unchanged otherwise |
| ScoreInputPanel.ScoreEntry.KeyDown | src/components/PlayerDetail/components/ScoreInputPanel.tsx:63-67 | Enter confirms even when the button is disabled; other keys change nothing |
| ScoreInputPanel.ScoreEntry.ClickConfirm | src/components/PlayerDetail/components/ScoreInputPanel.tsx:69-71 | a disabled button does nothing; an enabled one confirms |
| QuickScorePanel.QuickEntry.constructor | src/components/PlayerDetail/ScoreInputPanel.tsx:9 | the buffer starts empty |
| QuickScorePanel.QuickEntry.Change | src/components/PlayerDetail/ScoreInputPanel.tsx:44 | typing replaces the buffer |
| QuickScorePanel.QuickEntry.QuickScore | src/components/PlayerDetail/ScoreInputPanel.tsx:23-26 | the quick button at position k passes on the k-th of 1, 2, 3, 5, 10, -1, -2, -5, which is never 0, without reading or changing the buffer |
| QuickScorePanel.QuickEntry.CustomScore | src/components/PlayerDetail/ScoreInputPanel.tsx:11-17 | the result is ConfirmedPoints of the buffer; the buffer is cleared after a confirmation and unchanged otherwise |
| QuickScorePanel.QuickEntry.KeyDown | src/components/PlayerDetail/ScoreInputPanel.tsx:47-51 | Enter confirms by the same rule as the button; other keys change nothing |
| ScoreInputModal.Dispatch | src/components/ScoreInputModal.tsx:38-47 | one command per chosen category and no other: an add-score command for a chosen score category, an add-bonus command for a chosen bonus category, each for this player and these points; none when nothing is chosen |
| ScoreInputModal.ExclusiveSendsAtMostOne | src/components/ScoreInputModal.tsx:42-47 | with at most one category chosen a confirm sends at most one command, exactly the one for the chosen category |
| ScoreInputModal.ScoreSheet.constructor | src/components/ScoreInputModal.tsx:29-33 | the sheet opens on the score tab with nothing chosen |
| ScoreInputModal.ScoreSheet.SelectTab | src/components/ScoreInputModal.tsx:89-100 | switching tabs keeps the chosen categories |
| ScoreInputModal.ScoreSheet.SelectScoreType | src/components/ScoreInputModal.tsx:116-119 | choosing a score category clears the bonus category |
| ScoreInputModal.ScoreSheet.SelectBonusType | src/components/ScoreInputModal.tsx:124-127 | choosing a bonus category clears the score category |
| ScoreInputModal.ScoreSheet.ConfirmDisabled | src/components/ScoreInputModal.tsx:132 | the confirm button is disabled exactly when a confirm would send no command, whatever the points |
| ScoreInputModal.ScoreSheet.ConfirmScore | src/components/ScoreInputModal.tsx:38-49 | the commands are Dispatch of the choice; the sheet closes exactly when a category is chosen (the button is enabled), and then exactly one command is sent |
| PlayerDetail.ScoreCommand | src/components/PlayerDetail.tsx:30-34 | an add-score command for this player, these points and the chosen category exactly when a category is chosen |
| PlayerDetail.AgreesWithScoreSheet | src/components/PlayerDetail.tsx:30-34 | this sheet sends what the later score sheet sends when no bonus category is chosen there |
| PlayerDetail.DetailSheet.constructor | src/components/PlayerDetail.tsx:26-27 | the sheet opens on the overview with nothing chosen |
| PlayerDetail.DetailSheet.ShowInput | src/components/PlayerDetail.tsx:68 | the entry view opens, keeping the choice |
| PlayerDetail.DetailSheet.SelectScoreType | src/components/PlayerDetail.tsx:86 | choosing a category only records it |
| PlayerDetail.DetailSheet.ConfirmDisabled | src/components/PlayerDetail.tsx:90 | the confirm button is disabled exactly when a confirm would send no command, whatever the points |
| PlayerDetail.DetailSheet.ConfirmScore | src/components/PlayerDetail.tsx:30-37 | without a category nothing changes and nothing is sent; with one, one add-score command is sent, the entry view closes and the choice is cleared |
| PlayerDetail.DetailSheet.Back | src/components/PlayerDetail.tsx:93-96 | back closes the entry view and clears the choice, sending nothing |
| Scoreboard.Find | src/components/Scoreboard/index.tsx:37 | nothing exactly when no player has the id; otherwise the first player with it |
| Scoreboard.SheetPlayer | src/components/Scoreboard/index.tsx:36-42 | a player exactly when an id is set, is not 0 (falsy) and belongs to some player; the player has that id |
| Scoreboard.SheetPlayerIsUnique | src/components/Scoreboard/index.tsx:36-42 | in a roster with unique ids the sheet shows the one player with the id |
| Scoreboard.NewRosterSheets | src/components/Scoreboard/index.tsx:36-38 | in a fresh roster of count players an id opens a sheet exactly when it lies in 1..count |
| Scoreboard.SheetFollowsLedger | src/components/Scoreboard/index.tsx:36-42 | after points are added to the player a sheet shows, it shows that player with the points added |
| Scoreboard.ScoreboardScreen.constructor | src/components/Scoreboard/index.tsx:31-34 | no sheet and no dialog is open at first |
| Scoreboard.ScoreboardScreen.SelectedPlayer | src/components/Scoreboard/index.tsx:36-38 | the detail sheet shows a player exactly when its id is set, not 0, and held by some player; the player shown is in the roster and has that id |
| Scoreboard.ScoreboardScreen.InputPlayer | src/components/Scoreboard/index.tsx:40-42 | the score sheet shows a player exactly when its id is set, not 0, and held by some player; the player shown is in the roster and has that id |
| Scoreboard.ScoreboardScreen.SelectPlayer | src/components/Scoreboard/index.tsx:76 | tapping a player opens the detail sheet for the id, nothing else changes |
| Scoreboard.ScoreboardScreen.InputScore | src/components/Scoreboard/index.tsx:77 | the score button opens the score sheet for the id, nothing else changes |
| Scoreboard.ScoreboardScreen.ClosePlayerDetail | src/components/Scoreboard/index.tsx:85 | closing the detail sheet clears its id only |
| Scoreboard.ScoreboardScreen.CloseScoreInput | src/components/Scoreboard/index.tsx:86 | closing the score sheet clears its id only |
| Scoreboard.ScoreboardScreen.ResetClick | src/components/Scoreboard/index.tsx:44-46 | the reset button opens the reset dialog |
| Scoreboard.ScoreboardScreen.ConfirmReset | src/components/Scoreboard/index.tsx:48-51 | confirming closes the dialog and asks for the reset |
| Scoreboard.ScoreboardScreen.CancelReset | src/components/Scoreboard/index.tsx:91 | cancelling only closes the reset dialog |
| Scoreboard.ScoreboardScreen.EndgameClick | src/components/Scoreboard/index.tsx:53-56 | the dialog opens unless the bonus was already applied, in which case nothing changes |
| Scoreboard.ScoreboardScreen.ConfirmEndgame | src/components/Scoreboard/index.tsx:58-61 | confirming closes the dialog and asks exactly once for the end-of-game bonus |
| Scoreboard.ScoreboardScreen.CancelEndgame | src/components/Scoreboard/index.tsx:93 | cancelling only closes the end-of-game dialog |

## Left out

- The chart of the bonus leader panel and its Chart.js configuration, the touch-swipe handling of the history list, timers and closing animations (`isClosing`, `setTimeout`), and all markup and styling. They carry no rule about the numbers.
- `Date.now`, `Math.random` and the local-time `Date` getters: the record id, the timestamp and the local clock reading are parameters.
- The record's optional `description`: the ledger never sets it, and the history only displays it.
- The label and icon tables of the bonus categories are not part of this model, because they are missing from src/types.ts. A bonus record's display is therefore modelled as the bonus category it is looked up by. The score-category tables are modelled (`Types.ScoreLabel`, `Types.ScoreIcon`), and a score record shows their entries (`GameHistory.RecordDisplay`).
- The history screens tell score records from bonus records by `recordType` (src/components/GameHistory/utils.ts:39-49, src/components/GameHistory.tsx:11-21), a field src/types.ts does not declare. The model gives every record a kind, `Score(t)` or `Bonus(b)`, and `GameHistory.RecordDisplay` branches on it. This loses one behaviour of the code as written: the records built at src/App.tsx:52-57 carry no `recordType`, so `getRecordDisplay` sends every one of them down its bonus branch, with an undefined label and icon. In the model, `App.AddToPlayer` makes `Score(t)` records, which are shown with their score category.
- App.NewRoster: requires at most five players. src/App.tsx:28 takes colours by position from a five-colour palette, while src/components/PlayerSetup.tsx:12 offers up to six players; a sixth player would have no colour. The palette order is that of src/constants/colors.ts:4-10. src/App.tsx imports the palette from src/types.ts, which does not export it.
- The older detail sheet's entry panel: src/components/PlayerDetail.tsx:7 imports src/components/PlayerDetail/ScoreInputPanel.tsx, whose props are `onQuickScore` and `onCustomScore`, but src/components/PlayerDetail.tsx:88-91 passes it `onConfirmScore` and `confirmDisabled`. As written, that panel never calls `handleConfirmScore`, and its quick buttons call an undefined `onQuickScore`. `PlayerDetail.DetailSheet.ConfirmScore` models the handler as the sheet defines it; it is not reachable through that panel.
- Undo, adding a bonus to the ledger, applying the end-of-game bonus, the end-of-game flag and saving the game are not part of this model: src/App.tsx has no handlers for them. The screens hand them on as commands or requests.
- JavaScript numbers are unbounded integers here. Values beyond 2^53, and `parseInt` results that JavaScript would turn into `Infinity` or write in exponent form, are not modelled. The fractional part of a parsed number never arises because `parseInt` stops at the point.
- The rename editor passes on the name; renaming the player in the roster is not part of this model (src/App.tsx has no rename handler).

# VolleyScouting stat ledger, in Dafny

VolleyScouting is a one-screen-at-a-time web app for scouting a youth
volleyball match. Its core is the **stat ledger**. For every set the app
keeps one record of seven counters per rostered player:

- reception ok and reception error;
- serve ok and serve error;
- ace, attack error and point.

Taps on the game screen raise one counter by one. Closing a set appends a
snapshot of the live ledger to the set history. The report screen then shows:

- one table per set;
- a totals table folded from the history over the players rostered now;
- two derived percentages and a points column.

The same rows go to a spreadsheet exporter. Around the ledger there are
two pieces of input handling: the lineup screen's bounded toggle of six
starters, and the roster screen's trimming of twelve name slots.

The model is six modules, one per source file plus one of shared helpers:

- `Common` (`common.dfy`): `Option`, `NoDup` and the subsequence relation
  `Subseq`, with their lemmas.
- `Types` (`types.dfy`, from `types.ts`): `PlayerStats`, `StatKey`,
  `PlayerInfo`, `AppStep`, and the ledger.
  - A JavaScript `Record<string, PlayerStats>` enumerates its keys in
    insertion order, and the report lists its rows in that order. So a
    ledger is `Ledger(order, stats)`, a map plus the list of its keys in
    insertion order.
  - `SetHistory` is the subset type of well-formed ledgers: the listed
    names are distinct, and they are exactly the map's keys.
- `App` (`app.dfy`, from `App.tsx`): the component as a class `AppState`
  whose fields the handlers overwrite, one method per handler.
  - The seeding loop of `initStats` is the method `SeedLedger`, proved
    against the function `Seeded`.
  - `handleAddStat` is the pure function `AddStat`.
  - Runs of taps (`ApplyEvents`) are counted by `EventsCounted`.
- `Summary` (`summary.dfy`, from `StepSummary.tsx`): the pure parts are
  functions: the row filter, the rates, the points column, the tables and
  the report layout.
  - The nested `forEach` loops of `calculateTotals` are the methods
    `CalculateTotals`, `AddSet` and `AddRecord`, proved against the
    function `Totals`.
  - The sheet-appending loop of `exportExcel` is `ExportWorkbook`, proved
    against `Workbook`.
- `Selection` (`selection.dfy`, from `StepSelection.tsx`): the pure new
  list `Toggle`, and the class `SelectionForm`, whose `selected` field
  `TogglePlayer` replaces.
- `Roster` (`roster.dfy`, from `StepRoster.tsx`): `String.prototype.trim`
  over the ECMAScript whitespace characters, and the slot-to-entry rule. The
  class `RosterForm`'s `HandleInputChange` copies the slots into an array,
  overwrites one index, and stores the copy back.

Counters are `nat`: the source only ever starts them at 0 and adds 1 or
another counter. Percentages are `Math.round(n / d * 100)` computed on exact
rationals, rounding halves upward: `RoundedPercent(n, d)` is the `p` with
`2·d·p ≤ 200·n + d < 2·d·p + 2·d`.

Each spreadsheet row holds the player's name and
six counters: reception ok and error, serve ok and error, ace, attack error.
It ends with the points column, `pt + ace`. The spreadsheet rows have no
rate columns (StepSummary.tsx:104-113); the percentages appear only in the
on-screen tables.

## Model

| member | source | states |
|---|---|---|
| Types.With | App.tsx:52-53 | the named counter takes the new value; each other counter keeps its value |
| Types.StatsEqual | types.ts:2-10 | a stats record is nothing but its seven counters: two records that agree on every key of `AllKeys` are equal |
| Types.AllKeysComplete | types.ts:2-10 | every counter name is among the seven of `AllKeys`, and none is listed twice |
| Types.OneRecordPerName | types.ts:17 | a ledger has one listed name per record, so a name keys at most one record |
| App.Put | App.tsx:28 | the new records are the old ones with `name` mapped to the new value and no other record changed; the old order is kept as a prefix, grown by one name exactly when the name was new |
| App.Seeded | App.tsx:24-30 | the seeded ledger's keys are exactly the names of the roster entries that are not absent, and every record is all zeros |
| App.SeededFollowsRoster | App.tsx:26-29 | when no active name is repeated, the ledger lists the players in roster order |
| App.SeedLedger | App.tsx:24-31 | the loop builds the seeded ledger: its keys are the active names, and every counter is 0 |
| App.AddStat | App.tsx:46-57 | an unknown name leaves the ledger as it was; the keys and their order never change; a known name's chosen counter rises by exactly 1, its other six counters stay, and every other player's record is unchanged |
| App.ApplyEvents | App.tsx:46-57 | any run of taps keeps the ledger's keys and their order |
| App.AddStatFieldSum | App.tsx:49-55 | one tap raises the players' sum of the tapped counter by 1 when the name is known, and leaves every other counter's sum alone |
| App.EventsCounted | App.tsx:46-57 | after any run of taps, each counter summed over the players is its sum before plus the number of taps on that counter naming a player of the ledger |
| App.SeededThenEvents | App.tsx:24-57 | in a freshly seeded set, each counter summed over the players equals the number of taps on that counter naming an active player |
| App.AppState.constructor | App.tsx:13-21 | start-up state: the roster screen, an empty match name, twelve absent slots with empty names, no starters, an empty ledger and history, and no dialog |
| App.AppState.InitStats | App.tsx:24-32 | called with the stored roster, the live ledger becomes that roster's seeded ledger, so the ledger invariant holds afterwards |
| App.AppState.SetNumber | App.tsx:133 | on the summary screen the header shows the number of closed sets; on the lineup and game screens it shows one more, the `setCount` the lineup screen gets at App.tsx:95 |
| App.AppState.HandleSetupSelection | App.tsx:34-39 | stores the name (or "Gara" when it is empty) and the roster, reseeds the live ledger from that roster, discarding any counts of the set in progress, moves to SELECTION, and changes nothing else |
| App.AppState.HandleStartGame | App.tsx:41-44 | stores the starters and moves to GAME, keeping the ledger invariant |
| App.AppState.HandleAddStat | App.tsx:46-57 | the live ledger becomes `AddStat` of the old one; closed sets are untouched |
| App.AppState.RequestTerminate | App.tsx:103 | the confirmation dialog opens |
| App.AppState.CancelTerminate | App.tsx:161 | the confirmation dialog closes |
| App.AppState.ExecuteTerminateSet | App.tsx:59-71 | the history grows by one, its last element is the live ledger, the earlier ones are unchanged, the step is SUMMARY, the dialog is closed, and the header's set number stays the same |
| App.AppState.HandleGoToNextSet | App.tsx:73-77 | the live ledger is reseeded from the current roster, the starters are cleared, the step is SELECTION, the history is unchanged, and the header shows the next set number |
| App.AppState.HandleSubstitutions | App.tsx:104 | back to SELECTION, with the live ledger and the starters kept |
| App.AppState.HandleBackToRoster | StepSelection.tsx:30 | back to ROSTER |
| Summary.ActiveEntries | StepSummary.tsx:8-9 | each kept entry is a ledger record with a positive counter sum; every name with a positive sum is kept; the kept names are a subsequence of the names, in their order |
| Summary.PlayersWithStats | StepSummary.tsx:8-9 | a table's rows are exactly the ledger's records with at least one counted event, in ledger order |
| Summary.RowsDistinct | StepSummary.tsx:8-9 | a table has no more rows than players, and no player twice |
| Summary.RoundedPercent | StepSummary.tsx:39-40 | the rounded percentage lies between 0 and 100 and is 100·n/d rounded half up |
| Summary.ReceptionRate | StepSummary.tsx:39 | "-" exactly when the player has no reception; otherwise the rounded share of good receptions |
| Summary.ServeRate | StepSummary.tsx:40 | "-" exactly when the player has no serve, counting aces; otherwise the rounded share of aces plus good serves |
| Summary.ReceptionExample | StepSummary.tsx:39 | three good receptions and one error give 75%; no reception gives "-" |
| Summary.TotalPoints | StepSummary.tsx:52 | the points column is zero exactly when there are no point and no ace taps, and never exceeds the record's number of events |
| Summary.DisplayRowOf | StepSummary.tsx:38-53 | a row shows the entry's name and six counters, the rates `ReceptionRate` and `ServeRate` of its record (each "-" exactly when its denominator is zero, otherwise at most 100), and the points `pt + ace` |
| Summary.TotalPointsExample | StepSummary.tsx:52 | four points and two aces make six points |
| Summary.TapEffects | StepSummary.tsx:40-52 | an ace tap adds to the serve numerator, the serve denominator and the points; a point tap adds only to the points; any tap adds one event |
| Summary.Table | StepSummary.tsx:33-55 | the "no data" line is shown exactly when every record sums to 0; otherwise the table has one display row per record with events, in order |
| Summary.Totals | StepSummary.tsx:74-91 | the totals' keys are exactly the active names of the current roster, listed in seeding order |
| Summary.CalculateTotals | StepSummary.tsx:74-91 | the seeding and summing loops produce `Totals` of the history and roster |
| Summary.AddSet | StepSummary.tsx:80-89 | after one set, every totals record is its old value plus that set's record for the name (zeros when the set lacks it); the keys do not change |
| Summary.AddRecord | StepSummary.tsx:83-86 | the loop over the seven keys adds the set's record to the named total, field by field, and changes no other record |
| Summary.SumForFieldwise | StepSummary.tsx:80-89 | each field of a player's sum is the sum of that field over the sets containing the player |
| Summary.TotalsAreSums | StepSummary.tsx:80-89 | every total, field by field, is the sum of that field over the sets containing the name; sets lacking the name add 0 |
| Summary.TotalsExcludeInactive | StepSummary.tsx:75-82 | a name that is not an active roster name has no total, whatever the history holds |
| Summary.TotalsOfNoSets | StepSummary.tsx:74-91 | with no closed set, the totals are the zero records of the active roster |
| Summary.SumForPermutation | StepSummary.tsx:80-89 | a player's sum does not depend on the order of the sets |
| Summary.TotalsOrderIndependent | StepSummary.tsx:80-89 | reordering the history leaves the totals unchanged |
| Summary.TotalsOfOneSet | StepSummary.tsx:74-91 | a one-set match seeded from the current roster totals to exactly that set |
| Summary.ExclusionExample | StepSummary.tsx:82 | with Anna alone on the roster, Bea's five points from another set do not reach the totals |
| Summary.ScenarioExample | App.tsx:46-71 | three points for A, an ace for B and a tap for C, who is not rostered, close a set with A at 3 points and B at 1 ace; that set's match totals equal it |
| Summary.ExportRowOf | StepSummary.tsx:104-113 | an exported row names the player and loses nothing of the record: `RecordOf` recovers the seven counters from it, and the points column is at least the aces, so it is exactly `pt + ace` |
| Summary.ExportRows | StepSummary.tsx:102-113 | every exported row is a player of the ledger with at least one event, and there are no more rows than players |
| Summary.ExportMatchesTable | StepSummary.tsx:102-113 | a sheet has no rows exactly when the on-screen table shows "no data"; otherwise it has as many rows as the table, and row i shows table row i's player, six counters and points |
| Summary.SetRows | StepSummary.tsx:101-113 | each set's export rows are built from that set's rows in order |
| Summary.SetSheetsRows | StepSummary.tsx:101-118 | every set sheet is named after a set, carries that set's rows, and has at least one row |
| Summary.SetSheetsOrdered | StepSummary.tsx:101-118 | the set sheets follow set order |
| Summary.SetSheetsPresent | StepSummary.tsx:114-117 | set i has a sheet named "Set i+1" exactly when it has at least one row |
| Summary.SetSheets | StepSummary.tsx:101-118 | there are no more set sheets than closed sets, and none is empty |
| Summary.Workbook | StepSummary.tsx:101-135 | no sheet of the workbook is empty |
| Summary.WorkbookSetSheets | StepSummary.tsx:101-118 | each closed set has a sheet in the workbook exactly when its export rows are not empty |
| Summary.WorkbookTotalSheet | StepSummary.tsx:120-135 | the "TOTALE" sheet exists exactly when the totals have a row, and then it is the last sheet |
| Summary.ExportWorkbook | StepSummary.tsx:95-135 | the appending loop builds exactly the workbook `Workbook` describes |
| Summary.Report | StepSummary.tsx:196-201 | the report screen shows one titled table per closed set in order; the totals table follows only when more than one set is closed |
| Selection.Without | StepSelection.tsx:19 | the names left are exactly the selected ones other than `name`, in their original order |
| Selection.Toggle | StepSelection.tsx:17-25 | a selected name is removed, the rest keeping their order and their copies; an unselected name is appended when fewer than six are selected and ignored otherwise |
| Selection.WithoutCount | StepSelection.tsx:19 | the result holds every other name with exactly as many copies as the selection, and no copy of `name` |
| Selection.WithoutAbsent | StepSelection.tsx:19 | filtering out a name that is not selected changes nothing |
| Selection.WithoutAt | StepSelection.tsx:18-19 | in a selection without repeats, removing a name cuts out exactly its one slot |
| Selection.TogglePreservesLineup | StepSelection.tsx:17-25 | a selection of at most six distinct names stays one under any toggle |
| Selection.ToggleTwice | StepSelection.tsx:17-25 | toggling an unselected name twice, with room for it, restores the selection |
| Selection.SelectionForm.constructor | StepSelection.tsx:15 | the screen opens with the starters the app holds |
| Selection.SelectionForm.TogglePlayer | StepSelection.tsx:17-25 | the selection becomes `Toggle` of the old one |
| Selection.SelectionForm.Start | StepSelection.tsx:71-72 | the lineup is handed on exactly when six names are selected, and it is the selection |
| Roster.TrimStart | StepRoster.tsx:26 | the result is a suffix of the text, everything cut off is whitespace, and it does not start with whitespace |
| Roster.TrimEnd | StepRoster.tsx:26 | the result is a prefix of the text, everything cut off is whitespace, and it does not end with whitespace |
| Roster.Trim | StepRoster.tsx:26-27 | the trimmed text is empty exactly when the text is all whitespace |
| Roster.TrimmedEnds | StepRoster.tsx:26 | a non-empty trimmed text has whitespace at neither end |
| Roster.TrimIdempotent | StepRoster.tsx:26 | trimming twice is trimming once |
| Roster.EntryOf | StepRoster.tsx:26-27 | an entry is absent exactly when the trimmed text is empty, an absent entry is named "Assente", and no entry has an empty name |
| Roster.EntryOfShape | StepRoster.tsx:26-27 | an entry is absent exactly when its text is blank; an absent entry is named "Assente"; any other is named by the non-empty trimmed text |
| Roster.FinalRoster | StepRoster.tsx:25-28 | one roster entry per slot, in slot order |
| Roster.InputSlots | StepRoster.tsx:14-16 | one slot per roster entry: empty for an absent entry, the name otherwise |
| Roster.RoundTrip | StepRoster.tsx:14-28 | reopening the roster screen on a roster it produced and pressing "next" gives back the same roster |
| Roster.SlotsNormalised | StepRoster.tsx:14-28 | reopening the screen shows each slot trimmed, and blank slots empty |
| Roster.RosterForm.constructor | StepRoster.tsx:13-16 | the screen opens with the given match name and the slots derived from the roster |
| Roster.RosterForm.HandleMatchNameChange | StepRoster.tsx:41 | the match name field takes the typed value |
| Roster.RosterForm.HandleInputChange | StepRoster.tsx:18-22 | the slots keep their number, slot `index` holds the typed value, and every other slot is unchanged |
| Roster.RosterForm.HandleNext | StepRoster.tsx:24-30 | hands on the match name and the roster built from the slots |

## Left out

- All JSX and CSS rendering, the icons and the confirmation dialog's markup. They are presentation only.
- `StepGame.tsx` is not part of this model. Its only logic passes one of the seven counter names to `onAddStat`, which `AppState.HandleAddStat` covers for every name and counter.
- The spreadsheet and PDF library calls, `window.XLSX`/`window.jspdf`, `document.querySelectorAll`, `alert` and the file names. The PDF page-break arithmetic and the PDF table titles are left out with them. These are foreign libraries and DOM I/O, so only the row data handed to them is modelled.
- `handleReset` (`window.location.reload`). It restarts the process; its effect is the constructor's state.
- React's asynchronous `setState` batching and `useCallback`. Each handler is one atomic step of `AppState`.
- `JSON.parse(JSON.stringify(...))` in `executeTerminateSet`. Dafny's maps and datatypes are values, so the snapshot cannot be changed through the live ledger.
- Summary.RoundedPercent: does not model IEEE floating-point division inside `Math.round`. It rounds the exact rational. Where the floating-point value of `n / d * 100` lands on the wrong side of a half, the app may show a percentage off by one.
- JavaScript number precision. Counters are unbounded naturals, where the app's counters would lose exactness beyond 2^53.
- JavaScript object key order rules for integer-like names. Such keys would be enumerated first, in numeric order. The model keeps every name in insertion order.
- App.AddStat: the source's guard `!prev[playerName]` also treats inherited object properties such as `"constructor"` as present. The model looks names up in the map only.
- Roster.Trim: uses a fixed list of the ECMAScript WhiteSpace and LineTerminator code points. The Unicode version's set of space separators is not modelled.
- Roster.RosterForm.HandleInputChange: requires `index` to be a slot. The screen only calls it with the index of a rendered slot; a JavaScript write past the end, which would grow the array, is not modelled.

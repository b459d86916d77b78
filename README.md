# AppTrack record store and sync engine, modelled in Dafny

AppTrack is a Tk desktop application that keeps a table of job
applications. Each row has five columns: Company, Position, Application
Portal URL, Date Applied and Status. The table is saved to a local Excel
file and can be mirrored to a Google Sheet. This project models the part of
the `AppTrack` window class in `src/gui/main_window.py` that owns that table
and keeps it in step with the sheet:

- **The record table** (`applications_df`). It is a sequence of records whose
  row id is the position. This stays true because Add appends with
  `ignore_index=True` and Delete ends with `reset_index`. The table
  operations are:
  - Add (`save_application`).
  - Delete by ids (`delete_rows`).
  - The three one-cell writes (`save_edit`, `save_direct_edit`,
    `save_status`).
  - The wholesale replace from the sheet (`sync_from_google_sheets`).
  - The read-only search (`perform_search`).
- **The sync state machine.** It is made of:
  - the `sync_to_google` flag;
  - the `sync_task` handle;
  - the queue of pending Tk `after` timers.

  The timers are modelled as a map from handle to callback. A pending
  `schedule_sync` callback is one link of a *pull chain*, which re-arms
  itself every 60000 ms. Start-up, `schedule_sync`, `toggle_sync` and a
  timer firing are all operations on this state.
- **Effects.** A successful local save and a successful push to the sheet
  are appended to an effect log together with the table written. Whether a
  save, push, pull or settings write succeeds is a parameter. A pull's
  result is a parameter too: `None` when reading the sheet raised.
- **Small helpers:**
  - `mask_value`.
  - The text `copy_rows` builds.
  - The key-wise merge `update_config` performs.

The modules follow the program:
- `Text`: Python's `strip`, ASCII `lower`, substring search, join and split.
- `Records`: the table, its pure operations and the search.
- `ConfigStore`: the settings merge.
- `Engine`: the window's state as a value. It has one function per method
  and the lemmas about the sync state machine.
- `AppTrackModel`: the class `AppTrack`. Its fields are the window's fields.
  Its methods update them step by step as the source does. Each method is
  proved to produce exactly the state the matching `Engine` function
  describes, so every `Engine` lemma holds of the object.
- `Clipboard`: the loop of `copy_rows` and the round trip of its text.

## Model

| member | source | states |
|---|---|---|
| Text.Strip | src/gui/main_window.py:1783-1785 | `str.strip()`: the result is empty exactly when the input is all whitespace, and otherwise starts and ends with a non-space character |
| Text.StripIdempotent | src/gui/main_window.py:1783-1785 | stripping an already stripped field changes nothing |
| Text.MaskValue | src/gui/main_window.py:1534-1545 | the mask has the value's length and consists only of the mask character; the empty value masks to "" |
| Text.MaskRevealsOnlyLength | src/gui/main_window.py:1545 | two values mask alike exactly when they have the same length |
| Text.SplitJoin | src/gui/main_window.py:1712 | splitting a tab-joined line on tabs gives back the parts when no part holds a tab |
| Text.NatToString | src/gui/main_window.py:1361 | the row number shown in the view is a non-empty string of digits |
| Text.NatToStringValue | src/gui/main_window.py:1361 | the digits shown for a row number spell exactly that number, read back in decimal |
| Records.WithCell | src/gui/main_window.py:1633 | replacing one cell sets that column to the new value and keeps every other column |
| Records.AddApplication | src/gui/main_window.py:1783-1810 | Add fails exactly when Company or Position is blank after stripping; otherwise it appends one row at index old-length holding the stripped company, position and url, today's date and "Submitted", and keeps every earlier row |
| Records.AddAppends | src/gui/main_window.py:1783-1810 | a valid Add yields exactly the old table plus the new row |
| Records.AddKeepsInvariants | src/gui/main_window.py:1790-1810 | Add keeps every row named (non-empty Company and Position) and every status one of the four names |
| Records.SetCell | src/gui/main_window.py:1633 | `.at[id, column] = value` writes exactly that cell of an existing row and leaves every other cell and row unchanged; a missing id appends a row whose other cells are empty |
| Records.SetCellUndo | src/gui/main_window.py:1633 | writing back a cell's old value restores the table |
| Records.SetStatusKeepsStatusesValid | src/gui/main_window.py:2030 | writing a drop-down choice keeps every status one of the four names |
| Records.EditMayBlankCompany | src/gui/main_window.py:1624-1633 | free-text edits do not keep rows named: a named table can lose its company through `save_edit` |
| Records.SurvivorsSpec | src/gui/main_window.py:1940-1948 | the surviving ids are exactly the ids below n that are not selected, each once, in increasing order |
| Records.DeleteIgnoresAbsent | src/gui/main_window.py:1941-1945 | selected ids that name no row make no difference to Delete |
| Records.DeleteNothing | src/gui/main_window.py:1941-1945 | deleting only absent ids leaves the table unchanged |
| Records.DeleteCount | src/gui/main_window.py:1940-1948 | Delete removes one row per distinct selected id that names a row |
| Records.DeleteOne | src/gui/main_window.py:1940-1948 | deleting one present id removes exactly that row and shifts the later rows down by one |
| Records.AddThenDelete | src/gui/main_window.py:1940-1948 | deleting the row just added gives back the table before the add |
| Records.DeleteExample | src/gui/main_window.py:1940-1948 | deleting id 1 of four rows keeps rows 0, 2 and 3, in order, renumbered 0..2 |
| Records.DropLabelsTwice | src/gui/main_window.py:1943 | dropping labels in two steps is dropping their union |
| Records.DropAbsentLabel | src/gui/main_window.py:1941-1945 | the loop's skip branch: a label not in the index drops nothing |
| Records.DropThenReset | src/gui/main_window.py:1943-1948 | dropping by label and then resetting the index gives the table without the selected rows, renumbered |
| Records.SortDescending | src/gui/main_window.py:1937 | `sorted(..., reverse=True)`: the result is in descending order and a permutation of the ids |
| Records.SortDescendingSameIds | src/gui/main_window.py:1937 | sorting keeps exactly the selected ids |
| Records.Select | src/gui/main_window.py:1869-1873 | a boolean mask selects, in table order and each once, exactly the row ids it holds for |
| Records.Search | src/gui/main_window.py:1861-1876 | an empty term, after stripping and lower-casing, shows every row; otherwise exactly the rows whose rendering contains the term, in table order; the table is an argument and is not changed |
| Records.ValueMatchIsFound | src/gui/main_window.py:1871 | a row with a lower-cased value containing the term is always found |
| Records.HeaderTextMatches | src/gui/main_window.py:1871 | the term "ate" matches a row none of whose values contains it, through the header "Date Applied" |
| Records.SearchByValue | src/gui/main_window.py:1857-1858 | the intended search: exactly the rows with some lower-cased value containing the term, in table order; every row for an empty term |
| Records.SearchByValueWithinSearch | src/gui/main_window.py:1869-1873 | every row the intended search shows, the source's search shows too |
| Records.FillAll | src/gui/main_window.py:1733-1734 | `fillna('')` keeps the row count and replaces each missing cell by "" |
| Records.Pulled | src/gui/main_window.py:1725-1751 | the table is unchanged when sync is off, when the read raised or when the sheet is empty; otherwise it is the filled sheet; it changes exactly when the filled sheet differs from it |
| Records.PullIdempotent | src/gui/main_window.py:1737-1740 | pulling the same sheet again changes nothing |
| Records.PushedSheetIsNoChange | src/gui/main_window.py:1734-1740 | a sheet holding what was last pushed never replaces the table |
| ConfigStore.UpdateConfig | src/gui/main_window.py:2946-2967 | the new settings hold every updated key with its new value and every other stored key (or default, when the file is missing) unchanged, and no other key |
| ConfigStore.UpdateConfigIdempotent | src/gui/main_window.py:2959 | writing the same settings twice is writing them once |
| ConfigStore.UpdateConfigSequential | src/gui/main_window.py:2959 | two successive updates are one update in which the later values win |
| Engine.SaveApplicationRejects | src/gui/main_window.py:1783-1793 | Add leaves the whole state (table, effects, sync state) unchanged exactly when Company or Position is blank after stripping |
| Engine.SaveApplicationAppends | src/gui/main_window.py:1783-1826 | a valid Add appends the new row, saves the new table, then pushes it when sync is on; a failed save stops before the push; the sync state is unchanged |
| Engine.DeleteNothingSelected | src/gui/main_window.py:1932-1934 | an empty selection changes nothing: no save and no push |
| Engine.DeleteRowsOne | src/gui/main_window.py:1932-1966 | deleting one present row removes it and renumbers the rest, then pushes (when sync is on) and saves, in that order |
| Engine.SaveStatusSetsRow | src/gui/main_window.py:2023-2030 | a status pick rewrites that row's Status and nothing else in the table |
| Engine.SaveStatusKeepsStatusesValid | src/gui/main_window.py:2000-2030 | a status pick keeps every status one of the four names |
| Engine.PullFailureKeepsState | src/gui/main_window.py:1725-1751 | a pull that raises, or any pull while sync is off, leaves the whole state unchanged; no pull changes the flag, the timers or the effects |
| Engine.PullAdoptsRemote | src/gui/main_window.py:1729-1737 | with sync on, a non-empty sheet becomes the table, and the state changes exactly when the filled sheet differs from the table |
| Engine.PushFailureKeepsState | src/gui/main_window.py:1759-1766 | a failed push leaves the state unchanged, and sync stays on |
| Engine.PushSendsWholeTable | src/gui/main_window.py:1757-1763 | a successful push while sync is on sends exactly the current table |
| Engine.ScheduleSyncArms | src/gui/main_window.py:1768-1775 | `schedule_sync` always arms one new 60000 ms pull tick and stores its handle, keeps every pending timer, adds one pull chain, and pulls only when sync is on |
| Engine.DisableCancelsStoredChain | src/gui/main_window.py:2094-2106 | unticking cancels the stored handle and forgets it: one chain fewer when a handle was stored; the table and effects are untouched |
| Engine.EnableArmsAndPushes | src/gui/main_window.py:2094-2115 | ticking arms one more chain without cancelling any pending timer, pulls, then pushes the whole table |
| Engine.ToggleWritesSetting | src/gui/main_window.py:2099-2100 | toggling writes the new flag under ENABLE_GOOGLE_SYNC and keeps every other setting |
| Engine.StartupChains | src/gui/main_window.py:199-200 | start-up (with `schedule_tasks`, lines 387-391) leaves one pull chain with sync off and two with sync on |
| Engine.DisableAfterStartupLeavesChain | src/gui/main_window.py:2103-2105 | unticking right after a start with sync on still leaves one pull chain armed |
| Engine.FireKeepsChains | src/gui/main_window.py:1768-1775 | a timer firing keeps the state valid and the number of pull chains: a pull tick re-arms, a one-off push leaves none |
| Engine.DisabledFireIsInert | src/gui/main_window.py:1725-1727 | with sync off, a timer firing changes neither the table nor the effects |
| Engine.DisabledRunIsInert | src/gui/main_window.py:1768-1775 | with sync off, any run of timer firings keeps the table, the effects and the number of chains |
| Engine.RunKeepsChains | src/gui/main_window.py:1768-1775 | a chain never stops by itself: any run of timer firings keeps the number of pull chains |
| Engine.Scenario | src/gui/main_window.py:1927-1948 | add two applications, mark the second as Interview, delete the first: one row remains, the second application, renumbered to id 0 with its new status |
| Engine.AddTrimmed | src/gui/main_window.py:1783-1810 | fields without surrounding whitespace are stored as typed |
| AppTrackModel.AppTrack.constructor | src/gui/main_window.py:199-200 | start-up yields the state Engine.Startup describes, and it is valid |
| AppTrackModel.AppTrack.SaveToExcel | src/gui/main_window.py:1813 | a successful save logs the current table, and a failed one logs nothing |
| AppTrackModel.AppTrack.SyncToGoogleSheets | src/gui/main_window.py:1753-1766 | pushes the current table only when sync is on and the write succeeds |
| AppTrackModel.AppTrack.SaveApplication | src/gui/main_window.py:1777-1826 | moves the object to Engine.SaveApplication of its old state and keeps it valid |
| AppTrackModel.AppTrack.DeleteRows | src/gui/main_window.py:1927-1966 | moves the object to Engine.DeleteRows of its old state and keeps it valid |
| AppTrackModel.DropThenResetIndex | src/gui/main_window.py:1940-1948 | the drop loop followed by the index reset yields the table without the listed rows, renumbered, one row shorter per distinct listed id that names a row |
| AppTrackModel.AppTrack.SaveEdit | src/gui/main_window.py:1618-1654 | moves the object to Engine.SaveEdit of its old state: no change without an open editor; write, save, then push |
| AppTrackModel.AppTrack.SaveDirectEdit | src/gui/main_window.py:1656-1672 | moves the object to Engine.SaveDirectEdit of its old state: write and save, no push |
| AppTrackModel.AppTrack.SaveStatus | src/gui/main_window.py:2018-2046 | moves the object to Engine.SaveStatus of its old state: write, save with a failure caught, then push |
| AppTrackModel.AppTrack.SyncFromGoogleSheets | src/gui/main_window.py:1723-1751 | moves the object to Engine.SyncFromGoogleSheets of its old state |
| AppTrackModel.AppTrack.After | src/gui/main_window.py:1771 | queues one 60000 ms timer under a fresh handle and returns that handle |
| AppTrackModel.AppTrack.ScheduleSync | src/gui/main_window.py:1768-1775 | moves the object to Engine.ScheduleSync of its old state |
| AppTrackModel.AppTrack.ScheduleTasks | src/gui/main_window.py:387-391 | moves the object to Engine.ScheduleTasks of its old state |
| AppTrackModel.AppTrack.UpdateConfig | src/gui/main_window.py:2946-2967 | a successful write stores the merged settings; a failed one leaves the file as it was |
| AppTrackModel.AppTrack.ToggleSync | src/gui/main_window.py:2094-2115 | moves the object to Engine.ToggleSync of its old state and keeps it valid |
| AppTrackModel.AppTrack.FireTimer | src/gui/main_window.py:1771 | moves the object to Engine.FireTimer of its old state and keeps it valid |
| Clipboard.RowValues | src/gui/main_window.py:1360-1367 | a row shows six values: its number counted from 1, then the five cells |
| Clipboard.CopyRows | src/gui/main_window.py:1698-1717 | nothing is copied for an empty selection or an id the view does not hold; otherwise the copied text is the stripped concatenation of each selected row's tab-joined values followed by a newline, in selection order |
| Clipboard.RowTextRoundTrip | src/gui/main_window.py:1712 | a row without tabs or newlines in its cells splits back on tabs into its shown values |
| Clipboard.CopyRoundTrip | src/gui/main_window.py:1703-1717 | pasting the copied text gives back the selection: one line per selected row, in order, each splitting on tabs into that row's values, when no cell holds a tab or newline and the last status does not end in whitespace |
| Clipboard.StrippedLines | src/gui/main_window.py:1717 | the final `strip` removes exactly the trailing newline when the last status does not end in whitespace |

## Left out

- Tk widgets, layout, theming, menus, the tree view's own copy of the cells, and the chart redraws after Add, Delete and status changes. These are user interface code with no state of the table.
- The Excel file and the Google Sheets client are calls into modules that are not part of this model. Whether each call succeeds is a parameter. What it writes is recorded in the effect log.
- `datetime.now()` is the `today` parameter. The system clipboard calls are left out: `CopyRows` returns the text that would be placed on the clipboard.
- Reading the settings file and `initialize_preferences` are left out. Start-up takes the flag and the stored settings as parameters, and `update_config` takes the defaults and the write's success as parameters.
- `on_close` cancels the stored handle and exits the process. It is left out, because no state outlives it.
- Records.Search: `Series.to_string()` aligns each value after the column name with a run of spaces whose width depends on the longest name. The model uses a fixed four-space `Padding`. A term that spans the name and the value can match differently.
- Text.Lower: Python's `str.lower` also lower-cases letters outside ASCII. The model only handles A-Z.
- Records.Pulled: pandas `DataFrame.equals` also compares column dtypes and index labels. The model compares the filled cell values only, and every remote cell is a string or missing.
- Records.SetCell: for an id past the last row, pandas `.at` enlargement appends a row whose index label is that id, not the next position, and whose other cells are NaN. The model appends at the next position with empty cells.
- AppTrackModel.AppTrack.SaveDirectEdit: the source derives the column from the tree view's column index. An index of 0 writes a new "No" column into the table. The model writes one of the five data columns only.
- AppTrackModel.AppTrack.SaveEdit: the tree view converts cell text that looks like a number. The model keeps every value as text.
- Clipboard.CopyRows: the view's row number comes from the tree view as shown. Row values that Tk converts to numbers are kept as text. An id missing from the view raises in the source, which the model reports as `None`.
- Text.MaskValue: `mask_char` is a single character in the model. A longer mask string in the source yields a longer result.
- ConfigStore.UpdateConfig: settings values are booleans or strings.
- AppTrackModel.AppTrack.UpdateConfig: a write that fails after the file has been opened can leave it truncated in the source. The model leaves it unchanged.

## Findings

| source | as written | input that shows it | evidently intended | confidence | as-written member | corrected member |
|---|---|---|---|---|---|---|
| src/gui/main_window.py:1869-1873 | the filter tests the term against `row.astype(str).str.lower().to_string()`. That text holds the column names ("Company", "Position", "Application Portal URL", "Date Applied", "Status") next to the values, and the names are not lower-cased. | search term "ate" over a row whose cells are all "x". It matches through "Date Applied", and so do "osition", "tatus" and "ompany", against every row. | show the rows with a value containing the term, as the method's documentation says | high, not executed | Records.HeaderTextMatches | Records.SearchByValue |

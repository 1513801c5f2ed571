# Time-entry engine of the `log` time tracker

`log` is a personal time tracker. The user registers projects, then starts and
stops work sessions ("entries") against them, optionally tagged, and lists the
entries of a day, week, month, year or all time. All state is one document,
the `LogFile`: an ordered registry of `ProjectDef` names and an ordered ledger
of `TimeEntry` records. An entry whose `end` is absent is still running.

This project models the engine in `src/data.rs` and the period filter of the
`list entries` command in `src/main.rs`:

- `outcomes.dfy` — `Option`, `Result` and `Outcome`, standing in for Rust's
  `Option` and `anyhow::Result`.
- `time.dfy` — a local timestamp as an abstract record: its date, its ISO
  week (ISO year and week number) and the second of the day.
- `sequences.dfy` — `IsSubsequence`, "dropped some elements, kept the order".
- `data.dfy` (module `Data`) — the three records, the queries
  (`ProjectExists`, `ProjectStarted`, `FirstOpen`, `RetainOthers`), the
  read-only operation `list_projects` as `ListProjects`, and one pure step
  function for each of the four operations that change the document
  (`create_project`, `delete_project`, `start_entry`, `stop_entry`). A step
  function maps the document before to a `Result` holding the document after.
- `data_properties.dfy` (module `DataProperties`) — the invariants:
  - at most one open entry;
  - unique project names;
  - ids equal to the entry's position, cast to `i32`.
  It also relates deletion to creation.
- `storage.dfy` (module `Storage`) — the class `Store`. `Store.file` is the
  persisted document. Each method of `Store` copies it (the read), checks and
  changes the copy, and assigns it back (the write) only when the operation
  succeeds. So a failed operation leaves the store unchanged. Each method is
  proved equal to its step function followed by `Commit`, and each keeps the
  document well formed.
- `commands.dfy` (module `Commands`) — the command dispatch of `main`,
  limited to the four operations that change the document. `Run` folds it
  over any sequence of commands, and a lemma shows that every reachable
  document is well formed.
- `listing.dfy` (module `Listing`) — `Period` and the period filter.

Timestamps are never computed with. The clock readings (`Local::now()` in
`stop_entry` and in the filter) are parameters. `start_entry` already takes
its start time as an argument.

Points where the code's behaviour is easy to misread:

- `delete_project` removes every project with the name (`retain`), not just one.
- The error on `delete_project`'s not-found path carries the text
  "Project already exists". The model calls it `NotFound`. Message texts are
  not modelled.
- `check_project_started` tests `!entries.is_empty()` before its `any`. That
  test is redundant, and the recursion's base case covers it.
- Ids come from `entries.len() as i32`. `AsI32` writes out the two's-complement
  truncation. `IdsDistinct` shows that ids are distinct while the ledger has
  at most 2^32 entries. `IdsCollideAfterWrap` shows that the entry at
  position 2^32 gets the same id as the first entry.
- `start_entry` closes the *first* open entry, whatever its project. Because
  the same-project check runs first, that entry always belongs to another
  project. When more than one entry is open (a document changed by hand),
  the other open entries stay open.

## Model

| member | source | states |
|---|---|---|
| `Data.AsI32` | src/data.rs:69 | the `as i32` cast: the result is in the i32 range, congruent to the length modulo 2^32, and equal to it up to 2^31 - 1 |
| `Data.ProjectExists` | src/data.rs:126-128 | true exactly when some registered project has the name |
| `Data.ProjectStarted` | src/data.rs:118-124 | true exactly when some entry of that project has no end |
| `Data.FirstOpen` | src/data.rs:130-132 | the index of an open entry before which every entry is closed; none exactly when every entry is closed |
| `Data.ListProjects` | src/data.rs:49-56 | as many names as projects, the i-th name being the i-th project's |
| `Data.RetainOthers` | src/data.rs:42 | keeps the projects whose name differs and no other, as a subsequence in original order |
| `Data.RetainOthersCounts` | src/data.rs:42 | every copy of a project whose name differs is kept, and no copy of the others |
| `Data.CloseFirstOpen` | src/data.rs:66-68 | sets `end` on the first open entry only, leaves every other entry and the length as they were, and changes nothing when none is open |
| `Data.CreateProjectStep` | src/data.rs:28-36 | fails with `AlreadyExists` exactly when the name is registered; otherwise appends exactly that name and keeps the entries |
| `Data.DeleteProjectStep` | src/data.rs:38-47 | fails with `NotFound` exactly when the name is not registered; otherwise the new registry is `RetainOthers` of the old, no project with the name remains, every other project keeps its number of copies and its order, and the entries are kept |
| `Data.StartEntryStep` | src/data.rs:58-78 | fails with `NotFound` for an unregistered project and `AlreadyStarted` for one with an open entry, succeeds otherwise; on success the projects are kept, the old entries are those of `CloseFirstOpen` at the start time, one open entry with id `AsI32(old length)` is appended, and the entry closed belongs to another project |
| `Data.StopEntryStep` | src/data.rs:80-88 | fails with `NoneStarted` exactly when no entry is open; otherwise closes the first open entry at `now` and keeps the projects |
| `Storage.Store.constructor` | src/data.rs:103-107 | a store that does not exist reads as the empty document, which is well formed |
| `Storage.Store.CreateProject` | src/data.rs:28-36 | the copy is pushed to and written back only on success (src/data.rs:32); after an error `file` is the old document; the new store content and the outcome are those of `CreateProjectStep`; a well-formed document stays well formed |
| `Storage.Store.DeleteProject` | src/data.rs:38-47 | the same for `DeleteProjectStep`: written back only on success (src/data.rs:43), and after an error `file` is the old document |
| `Storage.Store.StartEntry` | src/data.rs:58-78 | the same for `StartEntryStep`, closing the open entry in place and then pushing the new one; written back only on success (src/data.rs:77), and after either error `file` is the old document |
| `Storage.Store.StopEntry` | src/data.rs:80-88 | the same for `StopEntryStep`, with `now` for the clock reading; written back only on success (src/data.rs:84), and after an error `file` is the old document |
| `DataProperties.OpenCountClose` | src/data.rs:67 | closing an open entry lowers the number of open entries by one |
| `DataProperties.OpenCountAppend` | src/data.rs:70-76 | pushing an entry raises the number of open entries by one exactly when the entry is open |
| `DataProperties.CloseFirstOpenClosesAll` | src/data.rs:66-68 | with at most one open entry, closing the first leaves none open |
| `DataProperties.StartLeavesOnlyNewEntryOpen` | src/data.rs:66-76 | with at most one entry open before a successful start, exactly one is open after it, and it is the new last entry |
| `DataProperties.StopLeavesNoneOpen` | src/data.rs:80-88 | with at most one entry open before a successful stop, none is open after it |
| `DataProperties.StartKeepsIdsByPosition` | src/data.rs:69-76 | start keeps every entry's id equal to its position cast to i32 |
| `DataProperties.IdsDistinct` | src/data.rs:69 | ids taken from positions are pairwise distinct while the ledger has at most 2^32 entries |
| `DataProperties.IdsCollideAfterWrap` | src/data.rs:69 | the entry at position 2^32 gets the same id as the entry at position 0 |
| `DataProperties.RestartFails` | src/data.rs:63-65 | starting a project again right after a successful start fails with `AlreadyStarted` |
| `DataProperties.StopAfterStartClosesNewEntry` | src/data.rs:80-88 | with at most one entry open, a stop right after a successful start succeeds and sets `end` on the entry the start appended, and on no other |
| `DataProperties.SubsequenceKeepsUniqueNames` | src/data.rs:42 | dropping projects in order keeps the names unique |
| `DataProperties.CreateKeepsUniqueNames` | src/data.rs:30-31 | creating a project keeps the names unique |
| `DataProperties.DeleteKeepsUniqueNames` | src/data.rs:42 | deleting a project keeps the names unique |
| `DataProperties.RetainOthersAbsent` | src/data.rs:42 | retaining keeps the registry unchanged when no project has the name |
| `DataProperties.RetainOthersCons` | src/data.rs:42 | retaining decides the first project first and then the rest |
| `DataProperties.RetainOthersAppend` | src/data.rs:42 | retaining distributes over pushing one project |
| `DataProperties.DeleteUndoesCreate` | src/data.rs:28-47 | deleting a project just created gives back the document it was created in |
| `DataProperties.EmptyLogWellFormed` | src/data.rs:103-107 | the initial empty document satisfies all three invariants |
| `DataProperties.CreateKeepsWellFormed` | src/data.rs:28-36 | create, committed or not, keeps the document well formed |
| `DataProperties.DeleteKeepsWellFormed` | src/data.rs:38-47 | delete, committed or not, keeps the document well formed |
| `DataProperties.StartKeepsWellFormed` | src/data.rs:58-78 | start, committed or not, keeps the document well formed |
| `DataProperties.StopKeepsWellFormed` | src/data.rs:80-88 | stop, committed or not, keeps the document well formed |
| `Commands.Execute` | src/main.rs:11-23 | dispatches a command to its operation; project commands leave the entries alone and entry commands leave the projects alone |
| `Commands.ExecuteKeepsWellFormed` | src/main.rs:11-23 | each command keeps the document well formed (unique names, at most one open entry, ids by position), whether it succeeds or fails |
| `Commands.RunKeepsWellFormed` | src/main.rs:11-23 | every sequence of commands from a well-formed document ends in a well-formed one |
| `Commands.SwitchProjects` | src/data.rs:58-78 | creating "a" and "b", starting "a" at t0 and then "b" at t1 gives the entries a:[t0, t1] and b:[t1, open] |
| `Listing.InPeriod` | src/main.rs:49-55 | the `match` of the filter closure: `All` admits every entry, and an entry of today is in today's month and year |
| `Listing.FilterByPeriod` | src/main.rs:49-55 | keeps exactly the entries whose start is in the period as seen at `now` (Day: same date; Week: same ISO year and week; Month: same month number; Year: same year; All: every one), as a subsequence in ledger order |
| `Listing.FilterCounts` | src/main.rs:49-55 | every copy of an entry in the period is kept, and no copy of the others |
| `Listing.FilterAllKeepsEverything` | src/main.rs:54 | with `All` the result is the whole ledger |
| `Listing.FilterAppend` | src/main.rs:49-55 | the filter of a concatenation is the concatenation of the filters, so each entry is judged on its own and order is kept |
| `Listing.FilterIdempotent` | src/main.rs:49-55 | filtering twice by one period equals filtering once |
| `Listing.MonthIgnoresYear` | src/main.rs:52 | two clock readings in the same month number, of any years, select the same entries |
| `Listing.YearIgnoresDate` | src/main.rs:53 | two clock readings in the same year select the same entries |
| `Listing.DayWithinMonthAndYear` | src/main.rs:50-53 | today's entries are a subsequence of this month's and of this year's |

## Left out

- `read_log_file`, `create_log_file`, `write_log_file` (src/data.rs:90-116): file I/O and the YAML codec are not modelled. A read or write failure and a document that does not decode are not modelled either. The store is the `Store.file` field. On first use it holds the empty document that `create_log_file` writes.
- `Listing.FilterByPeriod` takes one clock reading for the whole listing. The source's closure calls `Local::now()` once per entry (src/main.rs:50-53), so a listing that runs across midnight, or across a week, month or year boundary, can judge entries of one day differently. `FilterIdempotent`, `MonthIgnoresYear` and `YearIgnoresDate` are about that single reading.
- `Local::now()` and chrono: clock readings are parameters. Timestamps are abstract records, so the ISO week is a field and is not computed from the date.
- `list_entries`, `update_entry`, `fetch_entries`, `delete_entry`: `src/main.rs` calls them, but `src/data.rs` does not define them. Their behaviour is not part of this model, nor are the `update`, `delete` and `report` commands.
- `do_report_cmd` ends in `todo!()` and is not modelled.
- Argument parsing (`src/cli.rs`) is not modelled. `Period` is repeated as a plain datatype.
- The `println!` output, `%H:%M` formatting, the "ongoing" marker and the `Error:` line of `main` are not modelled.
- Error message texts are not modelled. Each error is one constructor of `Error`.
- The commands that `Commands.Run` folds over are only the four that change the document (`create_project`, `delete_project`, `start_entry`, `stop_entry`). `list projects` only reads the document and is `Data.ListProjects`.

# Tasklet store and exporters in Dafny

Tasklet is a to-do application. All of its non-UI logic sits in two TypeScript modules, and this project models both:

- **The store of tasks and folders** (`lib/storage.ts`). It persists two collections, tasks and folders. Every mutator reads a whole collection, changes it and writes it back. Completing a task files it in a reserved folder, `completed-tasks-folder`. Reopening a task from that folder unfiles it. Deleting a folder unfiles the tasks that pointed at it. A bootstrap routine makes sure the reserved folder exists.
- **The text exporters** (`lib/export.ts`). `exportTasksToCSV` writes a header and one row per task. The title and description are quoted, with inner `"` doubled; this is the rule of items 6 and 7 of section 2 of RFC 4180. `shareTaskList` builds a plain-text summary: a title, a pending section, a completed section and a footer.

Layout:

- `wrappers.dfy`: `Option`.
- `seqs.dfy`: `filter`, `join` and appending `forEach` loops, as functions on sequences, with their algebra.
- `storage.dfy`:
  - Tasks and folders as datatypes.
  - One specification function per store operation.
  - `class Store`. Its fields `tasks` and `folders` stand for the two persisted collections. Its methods do the read-modify-write of the source through `GetTasks`/`SaveTasks` and `GetFolders`/`SaveFolders`. Each method's postcondition ties the new state to the operation's specification function.
- `store_properties.dfy`: properties that relate several operations.
  - Every folder reference stays valid.
  - Completion is lossy.
  - Deletions keep order.
  - The bootstrap is idempotent.
  - The add, file and complete scenario.
- `csv.dfy`: the CSV writer's cells, lines and documents. It also holds an RFC 4180 reader, against which the writer is proved to round-trip.
- `export.dfy`:
  - `exportTasksToCSV` as a function, with its layout and read-back lemmas.
  - `shareTaskList` as a method that appends to a string, as the source does. Both `forEach` loops are one loop, `AppendTaskLines`, called once per section; its flag `withDue` adds the due date in the pending section. The method is proved equal to the specification function `ShareText`.

Modelling choices:

- `Partial<Task>` is `TaskUpdate`. Each of its fields is `Keep` (the property is absent) or `Set(v)` (present). An optional property that is present may hold `undefined`, written `Set(None)`. `None` also stands for `null`, which a caller may pass as `folderId`; the core cannot tell the two apart, since each of its `===` tests on a folder id fails for both.
- A `Date` is a number of milliseconds.
- `toLocaleDateString` depends on the runtime's locale. It is the parameter `dateStr`.
- `crypto.randomUUID()` and `new Date()` are parameters of the operations that call them.

What the code does, and does not, enforce:

- The store does not reject an empty title or an empty folder name.
- The store does not stop the reserved folder from being deleted. `deleteFolder("completed-tasks-folder")` removes it and unfiles the tasks filed in it. `DeleteFolderKeepsFolderRefs` shows that no reference dangles afterwards.
- `addTask` with status `Completed` does not file a new task in the reserved folder. Only `updateTask` applies that rule.
- Every filed task names an existing folder as long as the reserved folder exists and every added or updated task names an existing folder or none (`AddTaskKeepsFolderRefs`, `UpdateTaskKeepsFolderRefs`). An update that completes a task may name any folder, because the reserved id overrides it.

The CSV Folder, Priority and Status columns are written without quoting. `CommaInFolderNameSplitsColumn` proves what a reader then sees: a folder name `x,y` reads back as two columns, so that row has eight columns instead of seven. `CsvReadsBack` proves that the export reads back as written whenever the verbatim columns hold no `,`, line feed or `"`.

## Model

| member | source | states |
|---|---|---|
| Seqs.Filter | lib/storage.ts:76 | `filter`: the result holds exactly the elements of the input that pass; it is no longer than the input; when every element passes, it is the input |
| Seqs.FilterConcat | lib/export.ts:57-58 | filtering keeps the relative order of survivors: the filter of `a + b` is the filter of `a` followed by that of `b` |
| Seqs.FilterComplement | lib/export.ts:57-58 | two complementary filters split the input: their lengths add up to its length |
| Seqs.Join | lib/export.ts:20 | `join`: definition only; `JoinSnoc` and `JoinSplitPart` characterise it (one more part after at least one adds one separator; a part holding the separator joins like two parts) |
| Seqs.ConcatMap | lib/export.ts:62-67 | an appending `forEach`: definition only; `ConcatMapSnoc` (one more element appends its text) and `ConcatMapConcat` (the texts of a concatenation in order) characterise it |
| Seqs.JoinSplitPart | lib/export.ts:20 | a part that contains the separator joins to the same text as the two parts around it |
| Storage.Merge | lib/storage.ts:62 | the object spread: definition only; `MergeNoChanges`, `MergeCombine` and the last ensures of `UpdatedTask` characterise it |
| Storage.Stamped | lib/storage.ts:44-48 | the record `addTask` builds carries every given field, the fresh id and the creation time |
| Storage.UpdatedTask | lib/storage.ts:62-68 | an update is the object spread, except that status Completed forces the reserved folder and status Pending unfiles a task whose previous folder was the reserved one; otherwise the folder is the merged value |
| Storage.FindIndex | lib/storage.ts:60 | `findIndex`: -1 exactly when no task has the id, else the first index holding it |
| Storage.UpdatedTasks | lib/storage.ts:59-72 | same length; an unknown id changes nothing; otherwise only the first record with the id is replaced, by its updated record; later records with the same id are untouched |
| Storage.RemainingTasks | lib/storage.ts:76 | the remaining tasks are exactly the tasks with a different id; an absent id changes nothing |
| Storage.RemainingFolders | lib/storage.ts:112 | the remaining folders are exactly those with a different id; an absent id changes nothing |
| Storage.Detached | lib/storage.ts:116 | the `map` callback of `deleteFolder`: definition only; `DetachedTasks` states its effect on every task |
| Storage.HasFolder | lib/storage.ts:125 | `some` on folder ids: definition only; the membership it expresses is used by `InitializedFolders`, `FindFolder` and the folder-reference lemmas |
| Storage.DefaultFolders | lib/storage.ts:128-133 | the four starter folders: definition only; `InitializeEmptyHasOneReservedFolder` states their names and ids |
| Storage.CompletedFolder | lib/storage.ts:136 | the reserved folder record: definition only; `InitializedFolders` states when it is appended |
| Storage.DetachedTasks | lib/storage.ts:116 | same length; no task keeps the folder id; tasks filed elsewhere are unchanged; tasks filed there differ only in having no folder |
| Storage.InitializedFolders | lib/storage.ts:123-139 | the reserved folder exists afterwards; no folders gives the four defaults; folders without the reserved one get it appended; otherwise nothing changes |
| Storage.Store.constructor | lib/storage.ts:27 | nothing persisted: both collections are empty |
| Storage.Store.GetTasks | lib/storage.ts:24-36 | returns the persisted tasks |
| Storage.Store.SaveTasks | lib/storage.ts:38-41 | replaces the persisted tasks and leaves the folders as they were |
| Storage.Store.GetFolders | lib/storage.ts:81-91 | returns the persisted folders |
| Storage.Store.SaveFolders | lib/storage.ts:93-96 | replaces the persisted folders and leaves the tasks as they were |
| Storage.Store.AddTask | lib/storage.ts:43-54 | appends exactly the stamped record and returns it; earlier records and the folders are untouched; with a fresh id, the id now finds the new record |
| Storage.Store.UpdateTask | lib/storage.ts:58-73 | the new tasks are `UpdatedTasks` of the old ones; folders untouched |
| Storage.Store.DeleteTask | lib/storage.ts:75-78 | the new tasks are `RemainingTasks` of the old ones; folders untouched |
| Storage.Store.AddFolder | lib/storage.ts:98-109 | appends exactly the new folder and returns it; the folder then exists; tasks untouched |
| Storage.Store.DeleteFolder | lib/storage.ts:111-118 | folders become `RemainingFolders`, tasks become `DetachedTasks`; the folder no longer exists |
| Storage.Store.InitializeDefaultFolders | lib/storage.ts:120-140 | folders become `InitializedFolders`; the reserved folder exists; if it existed before, nothing changes; tasks untouched |
| StoreProperties.AddTaskKeepsFolderRefs | lib/storage.ts:43-54 | adding a task filed in an existing folder keeps every folder reference valid |
| StoreProperties.AddFolderKeepsFolderRefs | lib/storage.ts:98-109 | adding a folder keeps every folder reference valid |
| StoreProperties.UpdateTaskKeepsFolderRefs | lib/storage.ts:64-67 | with the reserved folder present, an update that completes the task, or whose folder exists or is absent, keeps every folder reference valid |
| StoreProperties.DeleteTaskKeepsFolderRefs | lib/storage.ts:75-78 | deleting a task keeps every folder reference valid |
| StoreProperties.DeleteFolderKeepsFolderRefs | lib/storage.ts:111-118 | deleting any folder, the reserved one included, leaves no dangling folder reference |
| StoreProperties.InitializeKeepsFolderRefs | lib/storage.ts:120-140 | the bootstrap keeps every folder reference valid |
| StoreProperties.InitializeIdempotent | lib/storage.ts:125-139 | a second bootstrap, with any ids and time, changes nothing |
| StoreProperties.InitializeEmptyHasOneReservedFolder | lib/storage.ts:127-134 | bootstrapping no folders yields Work/Project, Study, Other and Completed Tasks, with the reserved id only on the last |
| StoreProperties.DeleteTaskKeepsOrder | lib/storage.ts:76 | deleting a task distributes over concatenation: survivors keep their order |
| StoreProperties.DeleteFolderKeepsOrder | lib/storage.ts:112 | deleting a folder distributes over concatenation: the other folders keep their order |
| StoreProperties.CompleteThenReopenUnfiles | lib/storage.ts:64-67 | completing then reopening a task leaves it Pending and unfiled: the original folder is lost |
| StoreProperties.ReopenElsewhereKeepsFolder | lib/storage.ts:66-67 | reopening a task outside the reserved folder changes only its status |
| StoreProperties.EditWithoutStatusIsSpread | lib/storage.ts:62-68 | an update without a status stores exactly the spread, folder included |
| StoreProperties.MergeNoChanges | lib/storage.ts:62 | spreading an empty update leaves the record as it was |
| StoreProperties.MergeCombine | lib/storage.ts:62 | two spreads in a row equal one spread of the combined update |
| StoreProperties.UpdateAfterAdd | lib/storage.ts:43-73 | updating a freshly added task by its id rewrites only the new last record |
| StoreProperties.CompleteFiledTaskScenario | lib/storage.ts:43-73 | after adding a folder, adding a pending task filed in it and completing that task, the task is Completed, in the reserved folder, with its title and id, and every folder reference is valid |
| Csv.Quote | lib/export.ts:11-12 | the quoted cell: definition only; `UnquoteQuote` and `ReadQuotedCell` prove that it reads back as the text |
| Csv.Line | lib/export.ts:20 | `row.join(",")`: definition only; `ReadRecordLine` and `LineSplitVerbatim` characterise it |
| Csv.Document | lib/export.ts:20 | the lines joined by a line feed: definition only; `ReadDocumentWritten` characterises it |
| Csv.Escape | lib/export.ts:11 | doubling quotes never shortens the text, and a text without `"` is unchanged |
| Csv.ReadQuotedEscape | lib/export.ts:11-12 | the escaped text and a closing quote read back as the text, followed by any text that does not start with `"` |
| Csv.ReadQuotedCell | lib/export.ts:11-12 | a quoted cell followed by a separator or the end reads back as exactly the text that was quoted |
| Csv.UnquoteQuote | lib/export.ts:11-12 | stripping the outer quotes and collapsing `""` recovers the quoted text exactly |
| Csv.ReadCellEncode | lib/export.ts:11-16 | a quoted cell, or a verbatim cell without `,`, line feed or `"`, reads back as its text when a `,`, a line feed or the end follows it |
| Csv.ReadRecordLine | lib/export.ts:10-20 | a non-empty row whose verbatim cells hold no `,`, line feed or `"`, followed by a line feed or the end, reads back as its cells' texts, in order |
| Csv.ReadDocumentWritten | lib/export.ts:20 | non-empty records of such cells, their lines joined by a line feed, read back record by record |
| Csv.LineSplitVerbatim | lib/export.ts:14-20 | a verbatim cell `x,y` is written exactly like the two cells `x` and `y` |
| Export.PriorityName | lib/export.ts:14 | the priority as written: definition only; `NamesAreBare` states that it needs no quoting |
| Export.StatusName | lib/export.ts:15 | the status as written: definition only; `NamesAreBare` states that it needs no quoting |
| Export.FindFolder | lib/export.ts:7 | `find` by id: -1 exactly when no folder has the id, else the index of the first that does |
| Export.FolderName | lib/export.ts:52 | a name exactly when a folder with the given folder id exists, and it is that first folder's name |
| Export.CsvFolderName | lib/export.ts:6-8 | the first matching folder's name, or "No Folder" when there is none or its name is empty |
| Export.HeaderLine | lib/export.ts:20 | `headers.join(",")`: definition only; `CsvLayout` puts it at the start of every export |
| Export.RowCells | lib/export.ts:10-18 | a task's seven cells, title and description quoted: definition only; `RowReadable` and `CsvReadsBack` characterise it |
| Export.ExportTasksToCsv | lib/export.ts:3-21 | `exportTasksToCSV`: definition only; `CsvLayout`, `CsvAppend`, `CsvReadsBack` and `CommaInFolderNameSplitsColumn` characterise it |
| Export.HeaderCells | lib/export.ts:4 | the header cells are the seven header names, written verbatim |
| Export.CsvAppend | lib/export.ts:10-20 | one more task adds a line feed and its row at the end |
| Export.CsvLayout | lib/export.ts:20 | the export is the header line, then a line feed and a row per task in input order; no tasks gives the header line alone |
| Export.NamesAreBare | lib/export.ts:14-15 | the priority and status names need no quoting |
| Export.HeaderReadable | lib/export.ts:4 | the header names need no quoting |
| Export.RowReadable | lib/export.ts:10-18 | a row whose dates and folder name hold no separator or quote reads back cell by cell |
| Export.CsvReadsBack | lib/export.ts:3-21 | when the verbatim columns hold no separator or quote, reading the export back gives the header and, per task in order, its seven column texts, title and description exactly as stored |
| Export.CommaInFolderNameSplitsColumn | lib/export.ts:16 | when `x`, `y` and both dates hold no `,`, line feed or `"`, a folder name `x,y` in the unquoted Folder column reads back as two columns, so the row has eight |
| Export.LineEnd | lib/export.ts:66 | the end of a listed line: definition only; `AppendedLine` proves it is what the iteration appends last |
| Export.TaskLine | lib/export.ts:63-66 | a task's listed line: definition only; `AppendedLine` proves it equals the three appends of one iteration |
| Export.FolderSuffix | lib/export.ts:63-65 | ` (name)` exactly when a task's folder exists with a non-empty name, and empty otherwise |
| Export.AppendedLine | lib/export.ts:63-66 | the three appends of one iteration add exactly that task's line |
| Export.ListedNext | lib/export.ts:62-67 | one iteration extends the listing of the first `i` tasks to the first `i + 1` |
| Export.AppendTaskLines | lib/export.ts:62-67 | the `forEach` appends every task's line, in input order |
| Export.PendingSection | lib/export.ts:60-69 | definition only; `PendingSectionPresence` and `SectionsKeepInputOrder` characterise it |
| Export.CompletedSection | lib/export.ts:71-79 | definition only; `CompletedSectionPresence` and `SectionsKeepInputOrder` characterise it |
| Export.ShareText | lib/export.ts:55-82 | the summary begins with the title heading and ends with the footer |
| Export.ShareTextSections | lib/export.ts:55-82 | the summary is the title, then the pending section, then the completed section, then the footer |
| Export.ShareTaskList | lib/export.ts:50-83 | the text built by appending equals `ShareText` |
| Export.PendingSectionPresence | lib/export.ts:57-69 | the pending section is present exactly when some task is Pending, and then starts with its heading |
| Export.CompletedSectionPresence | lib/export.ts:71-79 | the completed section is present exactly when some task is Completed, and then starts with its heading |
| Export.SectionsKeepInputOrder | lib/export.ts:57-79 | each section lists its tasks in input order |
| Export.EveryTaskListedOnce | lib/export.ts:57-58 | every task falls into exactly one of the two sections |

## Left out

- JSON encoding and decoding of the persisted collections, the revival of dates from text (lib/storage.ts:29-35, 86-90) and unparseable data: the collections are already-typed sequences.
- The `typeof window === "undefined"` guards: the model assumes that storage is available.
- `crypto.randomUUID()` and `new Date()`: the fresh ids and the time are parameters. `InitializeDefaultFolders` takes one time for all four folders, where the source reads the clock once per folder.
- `exportTasksToJSON` and `downloadFile`: JSON serialisation and browser file download, which are I/O.
- `toLocaleDateString`: locale formatting by the runtime, an uninterpreted function `dateStr`.
- The React components, the pages and the theme hook: UI, not part of this model.
- Present-but-undefined required properties: a `Partial<Task>` whose `status` (or another required property) is present but `undefined` is not representable; the spread would copy that `undefined`.
- Storage.Store.AddTask: the `...task` spread copies any extra properties the argument has; a `NewTask` has exactly a task's fields.
- Export.HeaderCells: the header line is stated as the comma join of the seven header names, not as one string literal.
- Export.CsvReadsBack: holds only when the dates and folder names hold no `,`, line feed or `"`; `CommaInFolderNameSplitsColumn` shows what happens otherwise.
- Carriage returns: the CSV reader ends records at a line feed only, because the exporter writes no carriage return.
- Strings are sequences of Unicode scalar values, not JavaScript's UTF-16 code units. The emoji of the share text are single characters.

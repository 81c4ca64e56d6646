/**
 * The text exporters of lib/export.ts: the CSV export and the plain-text share summary.
 *
 * `toLocaleDateString` depends on the runtime's locale; it is the parameter `dateStr`.
 */
module Export {
  import opened Wrappers
  import opened Seqs
  import opened Storage
  import opened Csv

  function PriorityName(p: Priority): string
  {
    match p
    case Low => "Low"
    case Medium => "Medium"
    case High => "High"
  }

  function StatusName(s: Status): string
  {
    match s
    case Pending => "Pending"
    case Completed => "Completed"
  }

  /** `folders.find((f) => f.id === id)`, as an index: the first folder with `id`, or -1. */
  function FindFolder(folders: seq<Folder>, id: string): (r: int)
    ensures r == -1 <==> !HasFolder(folders, id)
    ensures r != -1 ==> 0 <= r < |folders| && folders[r].id == id
    ensures r != -1 ==> forall k :: 0 <= k < r ==> folders[k].id != id
  {
    if |folders| == 0 then -1
    else if folders[0].id == id then 0
    else
      var k := FindFolder(folders[1..], id);
      assert HasFolder(folders, id) ==> HasFolder(folders[1..], id) by {
        if HasFolder(folders, id) {
          var j :| 0 <= j < |folders| && folders[j].id == id;
          assert folders[1..][j - 1] == folders[j];
        }
      }
      if k == -1 then -1 else k + 1
  }

  /**
   * `folders.find((f) => f.id === folderId)?.name`: the name of the first folder with the
   * task's folder id. A task without a folder id matches no folder.
   */
  function FolderName(folders: seq<Folder>, folderId: Option<string>): (r: Option<string>)
    ensures r.Some? <==> folderId.Some? && HasFolder(folders, folderId.value)
    ensures r.Some? ==> r.value == folders[FindFolder(folders, folderId.value)].name
  {
    if folderId.None? then None
    else
      var k := FindFolder(folders, folderId.value);
      if k == -1 then None else Some(folders[k].name)
  }

  // ---------------------------------------------------------------------------
  // CSV
  // ---------------------------------------------------------------------------

  const CSV_HEADERS: seq<string> :=
    ["Title", "Description", "Due Date", "Priority", "Status", "Folder", "Created At"]

  /** `headers.join(",")` */
  function HeaderLine(): string
  {
    Join(",", CSV_HEADERS)
  }

  /** The CSV Folder column: the matching folder's name, or "No Folder" if none or empty. */
  function CsvFolderName(folders: seq<Folder>, folderId: Option<string>): (r: string)
    ensures (folderId.None? || !HasFolder(folders, folderId.value)) ==> r == "No Folder"
    ensures folderId.Some? && HasFolder(folders, folderId.value) ==>
              var name := folders[FindFolder(folders, folderId.value)].name;
              r == if name == "" then "No Folder" else name
  {
    match FolderName(folders, folderId)
    case Some(name) => if name != "" then name else "No Folder"
    case None => "No Folder"
  }

  /** The header as cells, written verbatim. */
  function HeaderCells(): (r: seq<Cell>)
    ensures Encodes(r) == CSV_HEADERS && Values(r) == CSV_HEADERS
    ensures forall k :: 0 <= k < |r| ==> r[k] == Verbatim(CSV_HEADERS[k])
  {
    seq(|CSV_HEADERS|, k requires 0 <= k < |CSV_HEADERS| => Verbatim(CSV_HEADERS[k]))
  }

  /** The seven cells of a task's row: title and description quoted, the rest verbatim. */
  function RowCells(t: Task, folders: seq<Folder>, dateStr: Date -> string): seq<Cell>
  {
    [Quoted(t.title), Quoted(t.description), Verbatim(dateStr(t.dueDate)),
     Verbatim(PriorityName(t.priority)), Verbatim(StatusName(t.status)),
     Verbatim(CsvFolderName(folders, t.folderId)), Verbatim(dateStr(t.createdAt))]
  }

  /** What a CSV reader finds in a task's row. */
  function RowTexts(t: Task, folders: seq<Folder>, dateStr: Date -> string): seq<string>
  {
    [t.title, t.description, dateStr(t.dueDate), PriorityName(t.priority),
     StatusName(t.status), CsvFolderName(folders, t.folderId), dateStr(t.createdAt)]
  }

  function Records(tasks: seq<Task>, folders: seq<Folder>, dateStr: Date -> string): seq<seq<Cell>>
  {
    [HeaderCells()] + seq(|tasks|, i requires 0 <= i < |tasks| => RowCells(tasks[i], folders, dateStr))
  }

  /** `exportTasksToCSV`: the header line, then one line per task, joined by line feeds. */
  function ExportTasksToCsv(tasks: seq<Task>, folders: seq<Folder>, dateStr: Date -> string): string
  {
    Document(Records(tasks, folders, dateStr))
  }

  /** A task's row with the line feed that precedes it. */
  function RowAfterNewline(folders: seq<Folder>, dateStr: Date -> string): Task -> string
  {
    (t: Task) => "\n" + Line(RowCells(t, folders, dateStr))
  }

  /** One more task adds one line at the end: rows follow the input order. */
  lemma CsvAppend(tasks: seq<Task>, t: Task, folders: seq<Folder>, dateStr: Date -> string)
    ensures ExportTasksToCsv(tasks + [t], folders, dateStr) ==
            ExportTasksToCsv(tasks, folders, dateStr) + "\n" + Line(RowCells(t, folders, dateStr))
  {
    var before, after := Records(tasks, folders, dateStr), Records(tasks + [t], folders, dateStr);
    assert after == before + [RowCells(t, folders, dateStr)];
    var ls := seq(|before|, k requires 0 <= k < |before| => Line(before[k]));
    assert seq(|after|, k requires 0 <= k < |after| => Line(after[k])) ==
           ls + [Line(RowCells(t, folders, dateStr))];
    JoinSnoc("\n", ls, Line(RowCells(t, folders, dateStr)));
  }

  /** The priority and status names need no quoting. */
  lemma NamesAreBare(p: Priority, s: Status)
    ensures IsBare(PriorityName(p)) && IsBare(StatusName(s))
  {
    match p
    case Low =>
    case Medium =>
    case High =>
  }

  /**
   * The export is the header line, then for each task in input order a line feed and
   * its row; with no tasks it is the header line alone, with no trailing line feed.
   */
  lemma {:induction false} CsvLayout(tasks: seq<Task>, folders: seq<Folder>, dateStr: Date -> string)
    ensures ExportTasksToCsv(tasks, folders, dateStr) ==
            HeaderLine() + ConcatMap(RowAfterNewline(folders, dateStr), tasks)
    ensures |tasks| == 0 ==> ExportTasksToCsv(tasks, folders, dateStr) == HeaderLine()
  {
    if |tasks| == 0 {
      var records := Records(tasks, folders, dateStr);
      assert records == [HeaderCells()];
      assert Document(records) == Line(HeaderCells());
      assert HeaderLine() + "" == HeaderLine();
    } else {
      var init, last := tasks[..|tasks| - 1], tasks[|tasks| - 1];
      assert tasks == init + [last];
      CsvAppend(init, last, folders, dateStr);
      CsvLayout(init, folders, dateStr);
      ConcatAssoc(HeaderLine(), ConcatMap(RowAfterNewline(folders, dateStr), init),
                  RowAfterNewline(folders, dateStr)(last));
      ConcatAssoc(ExportTasksToCsv(init, folders, dateStr), "\n", Line(RowCells(last, folders, dateStr)));
    }
  }

  /** True when every column written verbatim reads back unchanged. */
  predicate VerbatimColumnsBare(tasks: seq<Task>, folders: seq<Folder>, dateStr: Date -> string)
  {
    forall i :: 0 <= i < |tasks| ==>
      IsBare(dateStr(tasks[i].dueDate)) && IsBare(dateStr(tasks[i].createdAt)) &&
      IsBare(CsvFolderName(folders, tasks[i].folderId))
  }

  /**
   * Reading the export back gives the header, then for each task in order its seven
   * columns, with title and description exactly as stored: the quoting round-trips.
   */
  lemma CsvReadsBack(tasks: seq<Task>, folders: seq<Folder>, dateStr: Date -> string)
    requires VerbatimColumnsBare(tasks, folders, dateStr)
    ensures ReadDocument(ExportTasksToCsv(tasks, folders, dateStr)) ==
            Some([CSV_HEADERS] +
                 seq(|tasks|, i requires 0 <= i < |tasks| => RowTexts(tasks[i], folders, dateStr)))
  {
    var records := Records(tasks, folders, dateStr);
    RecordsReadable(tasks, folders, dateStr);
    ReadDocumentWritten(records);
    RecordsValues(tasks, folders, dateStr);
  }

  lemma HeaderReadable()
    ensures forall k :: 0 <= k < |HeaderCells()| ==> CellReadable(HeaderCells()[k])
  {
    LeadingHeaderNamesBare();
    TrailingHeaderNamesBare();
  }

  /** The first four header names need no quoting. */
  lemma LeadingHeaderNamesBare()
    ensures forall k :: 0 <= k < 4 ==> IsBare(CSV_HEADERS[k])
  {
    assert IsBare("Title");
    assert IsBare("Description");
    assert IsBare("Due Date");
    assert IsBare("Priority");
  }

  /** The last three header names need no quoting. */
  lemma TrailingHeaderNamesBare()
    ensures forall k :: 4 <= k < 7 ==> IsBare(CSV_HEADERS[k])
  {
    assert IsBare("Status");
    assert IsBare("Folder");
    assert IsBare("Created At");
  }

  lemma RowReadable(t: Task, folders: seq<Folder>, dateStr: Date -> string)
    requires IsBare(dateStr(t.dueDate)) && IsBare(dateStr(t.createdAt))
    requires IsBare(CsvFolderName(folders, t.folderId))
    ensures forall k :: 0 <= k < 7 ==> CellReadable(RowCells(t, folders, dateStr)[k])
  {
    NamesAreBare(t.priority, t.status);
  }

  lemma RecordsReadable(tasks: seq<Task>, folders: seq<Folder>, dateStr: Date -> string)
    requires VerbatimColumnsBare(tasks, folders, dateStr)
    ensures var records := Records(tasks, folders, dateStr);
            forall i, k :: 0 <= i < |records| && 0 <= k < |records[i]| ==> CellReadable(records[i][k])
  {
    var records := Records(tasks, folders, dateStr);
    forall i, k | 0 <= i < |records| && 0 <= k < |records[i]|
      ensures CellReadable(records[i][k])
    {
      if i == 0 {
        HeaderReadable();
      } else {
        RowReadable(tasks[i - 1], folders, dateStr);
        assert records[i] == RowCells(tasks[i - 1], folders, dateStr);
      }
    }
  }

  lemma RecordsValues(tasks: seq<Task>, folders: seq<Folder>, dateStr: Date -> string)
    ensures var records := Records(tasks, folders, dateStr);
            seq(|records|, i requires 0 <= i < |records| => Values(records[i])) ==
            [CSV_HEADERS] + seq(|tasks|, i requires 0 <= i < |tasks| => RowTexts(tasks[i], folders, dateStr))
  {
    var records := Records(tasks, folders, dateStr);
    var lhs := seq(|records|, i requires 0 <= i < |records| => Values(records[i]));
    var rhs := [CSV_HEADERS] + seq(|tasks|, i requires 0 <= i < |tasks| => RowTexts(tasks[i], folders, dateStr));
    assert |lhs| == |rhs|;
    forall i | 0 <= i < |lhs|
      ensures lhs[i] == rhs[i]
    {
      if i > 0 {
        assert records[i] == RowCells(tasks[i - 1], folders, dateStr);
      }
    }
  }

  /**
   * The Folder column is written verbatim: a folder name `x,y` reads back as the two
   * columns `x` and `y`, so that row has eight columns instead of seven.
   */
  lemma CommaInFolderNameSplitsColumn(t: Task, folders: seq<Folder>, dateStr: Date -> string,
                                      x: string, y: string)
    requires CsvFolderName(folders, t.folderId) == x + "," + y
    requires IsBare(x) && IsBare(y)
    requires IsBare(dateStr(t.dueDate)) && IsBare(dateStr(t.createdAt))
    ensures ReadDocument(ExportTasksToCsv([t], folders, dateStr)) ==
            Some([CSV_HEADERS,
                  [t.title, t.description, dateStr(t.dueDate), PriorityName(t.priority),
                   StatusName(t.status), x, y, dateStr(t.createdAt)]])
  {
    var split := SplitFolderRow(t, folders, dateStr, x, y);
    var header := HeaderCells();
    var records := Records([t], folders, dateStr);
    assert records == [header, RowCells(t, folders, dateStr)];
    DocumentOfSameLines(records, [header, split]);
    HeaderReadable();
    ReadTwoRecords(header, split);
  }

  /** The eight verbatim-or-quoted cells a reader sees in a row whose folder name is `x,y`. */
  function SplitFolderRow(t: Task, folders: seq<Folder>, dateStr: Date -> string,
                          x: string, y: string): (split: seq<Cell>)
    requires CsvFolderName(folders, t.folderId) == x + "," + y
    requires IsBare(x) && IsBare(y)
    requires IsBare(dateStr(t.dueDate)) && IsBare(dateStr(t.createdAt))
    ensures |split| == 8 && Line(split) == Line(RowCells(t, folders, dateStr))
    ensures forall k :: 0 <= k < |split| ==> CellReadable(split[k])
    ensures Values(split) == [t.title, t.description, dateStr(t.dueDate), PriorityName(t.priority),
                              StatusName(t.status), x, y, dateStr(t.createdAt)]
  {
    var cells := RowCells(t, folders, dateStr);
    LineSplitVerbatim(cells, 5, x, y);
    NamesAreBare(t.priority, t.status);
    cells[..5] + [Verbatim(x), Verbatim(y)] + cells[6..]
  }

  // ---------------------------------------------------------------------------
  // Share text
  // ---------------------------------------------------------------------------

  const SHARE_HEADING: string := "\U{1F4CB} My Task List\n\n"
  const PENDING_HEADING: string := "\U{23F3} Pending Tasks:\n"
  const COMPLETED_HEADING: string := "\U{2705} Completed Tasks:\n"
  const SHARE_FOOTER: string := "\nCreated with Tasklet \U{1F4F1}"

  function IsPending(): Task -> bool
  {
    (t: Task) => t.status == Pending
  }

  function IsCompleted(): Task -> bool
  {
    (t: Task) => t.status == Completed
  }

  /** ` (folder)` when a task's folder is found and has a non-empty name, else nothing. */
  function FolderSuffix(folders: seq<Folder>, folderId: Option<string>): (r: string)
    ensures r != "" <==> exists n :: FolderName(folders, folderId) == Some(n) && n != ""
    ensures r != "" ==> r == " (" + FolderName(folders, folderId).value + ")"
  {
    match FolderName(folders, folderId)
    case Some(name) => if name != "" then " (" + name + ")" else ""
    case None => ""
  }

  /** The end of a line: ` - Due: date` and a line feed for a pending task, a line feed otherwise. */
  function LineEnd(t: Task, dateStr: Date -> string, withDue: bool): string
  {
    if withDue then " - Due: " + dateStr(t.dueDate) + "\n" else "\n"
  }

  /** `• title[ (folder)]`, then the line's end. */
  function TaskLine(t: Task, folders: seq<Folder>, dateStr: Date -> string, withDue: bool): string
  {
    ("\U{2022} " + t.title) + FolderSuffix(folders, t.folderId) + LineEnd(t, dateStr, withDue)
  }

  /** The `forEach` callback of a section, as a function of a task. */
  function LineOf(folders: seq<Folder>, dateStr: Date -> string, withDue: bool): Task -> string
  {
    (t: Task) => TaskLine(t, folders, dateStr, withDue)
  }

  /** The lines of a section, in the order of `tasks`. */
  function Lines(tasks: seq<Task>, folders: seq<Folder>, dateStr: Date -> string, withDue: bool): string
  {
    ConcatMap(LineOf(folders, dateStr, withDue), tasks)
  }

  function PendingSection(tasks: seq<Task>, folders: seq<Folder>, dateStr: Date -> string): string
  {
    var pending := Filter(IsPending(), tasks);
    if |pending| > 0 then PENDING_HEADING + Lines(pending, folders, dateStr, true) + "\n" else ""
  }

  function CompletedSection(tasks: seq<Task>, folders: seq<Folder>, dateStr: Date -> string): string
  {
    var completed := Filter(IsCompleted(), tasks);
    if |completed| > 0 then COMPLETED_HEADING + Lines(completed, folders, dateStr, false) else ""
  }

  /** The share summary: the title, the pending section, the completed section, the footer. */
  function ShareText(tasks: seq<Task>, folders: seq<Folder>, dateStr: Date -> string): (r: string)
    ensures |r| >= |SHARE_HEADING| + |SHARE_FOOTER|
    ensures r[..|SHARE_HEADING|] == SHARE_HEADING
    ensures r[|r| - |SHARE_FOOTER|..] == SHARE_FOOTER
  {
    FourPartSlices(SHARE_HEADING, PendingSection(tasks, folders, dateStr),
                   CompletedSection(tasks, folders, dateStr), SHARE_FOOTER);
    SHARE_HEADING + PendingSection(tasks, folders, dateStr) +
    CompletedSection(tasks, folders, dateStr) + SHARE_FOOTER
  }

  /**
   * The summary is laid out as the title, the pending section, the completed section and
   * the footer, in that order.
   */
  lemma ShareTextSections(tasks: seq<Task>, folders: seq<Folder>, dateStr: Date -> string)
    ensures var r, p, c := ShareText(tasks, folders, dateStr), PendingSection(tasks, folders, dateStr),
                           CompletedSection(tasks, folders, dateStr);
            var h := |SHARE_HEADING|;
            |r| == h + |p| + |c| + |SHARE_FOOTER| &&
            r[h..h + |p|] == p && r[h + |p|..h + |p| + |c|] == c
  {
    FourPartSlices(SHARE_HEADING, PendingSection(tasks, folders, dateStr),
                   CompletedSection(tasks, folders, dateStr), SHARE_FOOTER);
  }

  /** `shareTaskList`: builds the summary by appending to a string, as the source does. */
  method ShareTaskList(tasks: seq<Task>, folders: seq<Folder>, dateStr: Date -> string)
    returns (shareText: string)
    ensures shareText == ShareText(tasks, folders, dateStr)
  {
    shareText := SHARE_HEADING;

    var pendingTasks := Filter(IsPending(), tasks);
    var completedTasks := Filter(IsCompleted(), tasks);

    if |pendingTasks| > 0 {
      shareText := shareText + PENDING_HEADING;
      shareText := AppendTaskLines(shareText, pendingTasks, folders, dateStr, true);
      shareText := shareText + "\n";
      SectionAssembled(SHARE_HEADING, PENDING_HEADING, Lines(pendingTasks, folders, dateStr, true), "\n");
    }
    assert shareText == SHARE_HEADING + PendingSection(tasks, folders, dateStr);
    ghost var afterPending := shareText;

    if |completedTasks| > 0 {
      shareText := shareText + COMPLETED_HEADING;
      shareText := AppendTaskLines(shareText, completedTasks, folders, dateStr, false);
      ConcatAssoc(afterPending, COMPLETED_HEADING, Lines(completedTasks, folders, dateStr, false));
    }
    assert shareText == afterPending + CompletedSection(tasks, folders, dateStr);

    shareText := shareText + SHARE_FOOTER;
  }

  /**
   * The `forEach` over a section's tasks: appends each task's bullet, title, folder and
   * (for the pending section) due date to `text`, in the order of `tasks`.
   */
  method AppendTaskLines(text: string, tasks: seq<Task>, folders: seq<Folder>,
                         dateStr: Date -> string, withDue: bool)
    returns (shareText: string)
    ensures shareText == text + Lines(tasks, folders, dateStr, withDue)
  {
    shareText := text;
    var i := 0;
    while i < |tasks|
      invariant 0 <= i <= |tasks|
      invariant shareText == text + Lines(tasks[..i], folders, dateStr, withDue)
    {
      var task := tasks[i];
      ghost var before := shareText;
      var folder := FolderName(folders, task.folderId);
      shareText := shareText + ("\U{2022} " + task.title);
      if folder.Some? && folder.value != "" {
        shareText := shareText + (" (" + folder.value + ")");
      }
      if withDue {
        shareText := shareText + (" - Due: " + dateStr(task.dueDate) + "\n");
      } else {
        shareText := shareText + "\n";
      }
      ListedNext(text, before, shareText, tasks, i, folders, dateStr, withDue);
      i := i + 1;
    }
    assert tasks[..i] == tasks;
  }

  /**
   * One loop iteration: if the text so far lists the first `i` tasks after `start`, the
   * three appends of the iteration make it list the first `i + 1`.
   */
  lemma ListedNext(start: string, before: string, after: string, tasks: seq<Task>, i: nat,
                   folders: seq<Folder>, dateStr: Date -> string, withDue: bool)
    requires i < |tasks|
    requires before == start + Lines(tasks[..i], folders, dateStr, withDue)
    requires var t := tasks[i];
             var folder := FolderName(folders, t.folderId);
             var named := before + ("\U{2022} " + t.title);
             var filed := if folder.Some? && folder.value != "" then named + (" (" + folder.value + ")") else named;
             after == filed + (if withDue then " - Due: " + dateStr(t.dueDate) + "\n" else "\n")
    ensures after == start + Lines(tasks[..i + 1], folders, dateStr, withDue)
  {
    AppendedLine(before, after, tasks[i], folders, dateStr, withDue);
    ConcatMapSnoc(LineOf(folders, dateStr, withDue), tasks, i);
    ConcatAssoc(start, Lines(tasks[..i], folders, dateStr, withDue), TaskLine(tasks[i], folders, dateStr, withDue));
  }

  /** Regrouping the appends of a section: the text so far, the heading, the lines and the tail. */
  lemma SectionAssembled(prefix: string, heading: string, lines: string, tail: string)
    ensures prefix + heading + lines + tail == prefix + (heading + lines + tail)
  {
    ConcatAssoc(prefix, heading, lines);
    ConcatAssoc(prefix, heading + lines, tail);
  }

  /** The three appends of one loop iteration add exactly that task's line. */
  lemma AppendedLine(before: string, after: string, t: Task, folders: seq<Folder>,
                     dateStr: Date -> string, withDue: bool)
    requires var folder := FolderName(folders, t.folderId);
             var named := before + ("\U{2022} " + t.title);
             var filed := if folder.Some? && folder.value != "" then named + (" (" + folder.value + ")") else named;
             after == filed + (if withDue then " - Due: " + dateStr(t.dueDate) + "\n" else "\n")
    ensures after == before + TaskLine(t, folders, dateStr, withDue)
  {
    var a, b, c := "\U{2022} " + t.title, FolderSuffix(folders, t.folderId), LineEnd(t, dateStr, withDue);
    assert after == before + a + b + c by {
      if b == "" {
        assert before + a + b == before + a;
      }
    }
    ConcatAssoc(before, a, b);
    ConcatAssoc(before, a + b, c);
  }

  /** A filter keeps something exactly when some element passes it. */
  lemma FilterNonEmpty(p: Task -> bool, tasks: seq<Task>)
    ensures |Filter(p, tasks)| > 0 <==> exists k :: 0 <= k < |tasks| && p(tasks[k])
  {
    var r := Filter(p, tasks);
    if |r| > 0 {
      assert r[0] in r;
    }
    if exists k :: 0 <= k < |tasks| && p(tasks[k]) {
      var k :| 0 <= k < |tasks| && p(tasks[k]);
      assert tasks[k] in r;
    }
  }

  /** The pending section is present exactly when some task is pending, and then leads with its heading. */
  lemma PendingSectionPresence(tasks: seq<Task>, folders: seq<Folder>, dateStr: Date -> string)
    ensures var s := PendingSection(tasks, folders, dateStr);
            (s != "" <==> exists k :: 0 <= k < |tasks| && tasks[k].status == Pending) &&
            (s != "" ==> s[..|PENDING_HEADING|] == PENDING_HEADING)
  {
    FilterNonEmpty(IsPending(), tasks);
  }

  /** The completed section is present exactly when some task is completed, and then leads with its heading. */
  lemma CompletedSectionPresence(tasks: seq<Task>, folders: seq<Folder>, dateStr: Date -> string)
    ensures var s := CompletedSection(tasks, folders, dateStr);
            (s != "" <==> exists k :: 0 <= k < |tasks| && tasks[k].status == Completed) &&
            (s != "" ==> s[..|COMPLETED_HEADING|] == COMPLETED_HEADING)
  {
    FilterNonEmpty(IsCompleted(), tasks);
  }

  /**
   * Each section lists its tasks in input order: the listing of `a + b` is that of `a`
   * followed by that of `b`.
   */
  lemma SectionsKeepInputOrder(a: seq<Task>, b: seq<Task>, folders: seq<Folder>,
                               dateStr: Date -> string)
    ensures Lines(Filter(IsPending(), a + b), folders, dateStr, true) ==
            Lines(Filter(IsPending(), a), folders, dateStr, true) +
            Lines(Filter(IsPending(), b), folders, dateStr, true)
    ensures Lines(Filter(IsCompleted(), a + b), folders, dateStr, false) ==
            Lines(Filter(IsCompleted(), a), folders, dateStr, false) +
            Lines(Filter(IsCompleted(), b), folders, dateStr, false)
  {
    FilterConcat(IsPending(), a, b);
    ConcatMapConcat(LineOf(folders, dateStr, true), Filter(IsPending(), a), Filter(IsPending(), b));
    FilterConcat(IsCompleted(), a, b);
    ConcatMapConcat(LineOf(folders, dateStr, false), Filter(IsCompleted(), a), Filter(IsCompleted(), b));
  }

  /** Every task is listed in exactly one of the two sections. */
  lemma EveryTaskListedOnce(tasks: seq<Task>)
    ensures |Filter(IsPending(), tasks)| + |Filter(IsCompleted(), tasks)| == |tasks|
  {
    FilterComplement(IsPending(), IsCompleted(), tasks);
  }
}

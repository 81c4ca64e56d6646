/**
 * Properties of the store of tasks and folders that relate several operations or hold over
 * every reachable state: the folder references of tasks stay valid, completion is lossy,
 * deletions keep order, and the initialization is idempotent.
 */
module StoreProperties {
  import opened Wrappers
  import opened Seqs
  import opened Storage

  /**
   * Every filed task names a folder that exists. The reserved folder counts like any other,
   * so once it exists, completing a task keeps this true.
   */
  predicate FolderRefsValid(tasks: seq<Task>, folders: seq<Folder>)
  {
    forall k :: 0 <= k < |tasks| && tasks[k].folderId.Some? ==>
      HasFolder(folders, tasks[k].folderId.value)
  }

  /** The folder an update may assign is absent, `undefined`, or an existing folder. */
  predicate FolderPatchValid(u: TaskUpdate, folders: seq<Folder>)
  {
    u.folderId.Set? && u.folderId.value.Some? ==> HasFolder(folders, u.folderId.value.value)
  }

  lemma AddTaskKeepsFolderRefs(tasks: seq<Task>, folders: seq<Folder>, fields: NewTask,
                               id: string, now: Date)
    requires FolderRefsValid(tasks, folders)
    requires fields.folderId.Some? ==> HasFolder(folders, fields.folderId.value)
    ensures FolderRefsValid(tasks + [Stamped(fields, id, now)], folders)
  {
    var ts := tasks + [Stamped(fields, id, now)];
    forall k | 0 <= k < |ts| && ts[k].folderId.Some?
      ensures HasFolder(folders, ts[k].folderId.value)
    {
      if k < |tasks| {
        assert ts[k] == tasks[k];
      }
    }
  }

  lemma AddFolderKeepsFolderRefs(tasks: seq<Task>, folders: seq<Folder>, f: Folder)
    requires FolderRefsValid(tasks, folders)
    ensures FolderRefsValid(tasks, folders + [f])
  {
    forall k | 0 <= k < |tasks| && tasks[k].folderId.Some?
      ensures HasFolder(folders + [f], tasks[k].folderId.value)
    {
      var j :| 0 <= j < |folders| && folders[j].id == tasks[k].folderId.value;
      assert (folders + [f])[j] == folders[j];
    }
  }

  /**
   * An update keeps every folder reference valid as long as the reserved folder exists
   * and either it completes the task (the reserved id then overrides any folder it names)
   * or the folder it names, if any, exists.
   */
  lemma UpdateTaskKeepsFolderRefs(tasks: seq<Task>, folders: seq<Folder>, id: string,
                                  u: TaskUpdate)
    requires FolderRefsValid(tasks, folders)
    requires HasFolder(folders, COMPLETED_TASKS_FOLDER_ID)
    requires u.status == Set(Completed) || FolderPatchValid(u, folders)
    ensures FolderRefsValid(UpdatedTasks(tasks, id, u), folders)
  {
    var i := FindIndex(tasks, id);
    if i != -1 {
      var ts := UpdatedTasks(tasks, id, u);
      assert ts == tasks[i := UpdatedTask(tasks[i], u)];
      forall k | 0 <= k < |ts| && ts[k].folderId.Some?
        ensures HasFolder(folders, ts[k].folderId.value)
      {
        if k != i {
          assert ts[k] == tasks[k];
        }
      }
    }
  }

  lemma DeleteTaskKeepsFolderRefs(tasks: seq<Task>, folders: seq<Folder>, id: string)
    requires FolderRefsValid(tasks, folders)
    ensures FolderRefsValid(RemainingTasks(tasks, id), folders)
  {
    var ts := RemainingTasks(tasks, id);
    forall k | 0 <= k < |ts| && ts[k].folderId.Some?
      ensures HasFolder(folders, ts[k].folderId.value)
    {
      assert ts[k] in tasks;
      var j :| 0 <= j < |tasks| && tasks[j] == ts[k];
    }
  }

  /** Deleting any folder, even the reserved one, leaves no dangling reference. */
  lemma DeleteFolderKeepsFolderRefs(tasks: seq<Task>, folders: seq<Folder>, id: string)
    requires FolderRefsValid(tasks, folders)
    ensures FolderRefsValid(DetachedTasks(tasks, id), RemainingFolders(folders, id))
  {
    var ts, fs := DetachedTasks(tasks, id), RemainingFolders(folders, id);
    forall k | 0 <= k < |ts| && ts[k].folderId.Some?
      ensures HasFolder(fs, ts[k].folderId.value)
    {
      var fid := ts[k].folderId.value;
      assert ts[k] == tasks[k] && fid != id;
      var j :| 0 <= j < |folders| && folders[j].id == fid;
      assert folders[j] in fs;
      var m :| 0 <= m < |fs| && fs[m] == folders[j];
    }
  }

  lemma InitializeKeepsFolderRefs(tasks: seq<Task>, folders: seq<Folder>, workId: string,
                                  studyId: string, otherId: string, now: Date)
    requires FolderRefsValid(tasks, folders)
    ensures FolderRefsValid(tasks, InitializedFolders(folders, workId, studyId, otherId, now))
  {
    var fs := InitializedFolders(folders, workId, studyId, otherId, now);
    forall k | 0 <= k < |tasks| && tasks[k].folderId.Some?
      ensures HasFolder(fs, tasks[k].folderId.value)
    {
      var j :| 0 <= j < |folders| && folders[j].id == tasks[k].folderId.value;
      assert fs[j] == folders[j];
    }
  }

  /** After the bootstrap, a second call changes nothing, whatever ids and time it is given. */
  lemma InitializeIdempotent(folders: seq<Folder>, workId: string, studyId: string,
                             otherId: string, now: Date, workId': string, studyId': string,
                             otherId': string, now': Date)
    ensures var once := InitializedFolders(folders, workId, studyId, otherId, now);
            InitializedFolders(once, workId', studyId', otherId', now') == once
  {
  }

  /** Bootstrapping an empty store creates the reserved folder exactly once, at the end. */
  lemma InitializeEmptyHasOneReservedFolder(workId: string, studyId: string, otherId: string,
                                            now: Date)
    requires workId != COMPLETED_TASKS_FOLDER_ID && studyId != COMPLETED_TASKS_FOLDER_ID
    requires otherId != COMPLETED_TASKS_FOLDER_ID
    ensures var fs := InitializedFolders([], workId, studyId, otherId, now);
            |fs| == 4 &&
            (forall k :: 0 <= k < |fs| ==> (fs[k].id == COMPLETED_TASKS_FOLDER_ID <==> k == 3)) &&
            fs[0].name == "Work/Project" && fs[1].name == "Study" && fs[2].name == "Other" &&
            fs[3].name == COMPLETED_TASKS_FOLDER_NAME
  {
  }

  /** `deleteTask` distributes over concatenation: the surviving tasks keep their order. */
  lemma DeleteTaskKeepsOrder(a: seq<Task>, b: seq<Task>, id: string)
    ensures RemainingTasks(a + b, id) == RemainingTasks(a, id) + RemainingTasks(b, id)
  {
    FilterConcat(TaskIdIsNot(id), a, b);
  }

  /** `deleteFolder` distributes over concatenation: the remaining folders keep their order. */
  lemma DeleteFolderKeepsOrder(a: seq<Folder>, b: seq<Folder>, id: string)
    ensures RemainingFolders(a + b, id) == RemainingFolders(a, id) + RemainingFolders(b, id)
  {
    FilterConcat(FolderIdIsNot(id), a, b);
  }

  /** An update that sets only the status. */
  function StatusUpdate(s: Status): TaskUpdate
  {
    NoChanges.(status := Set(s))
  }

  /**
   * Completing a task and reopening it leaves it unfiled, whatever folder it was in:
   * the original folder is not restored.
   */
  lemma CompleteThenReopenUnfiles(t: Task)
    ensures UpdatedTask(t, StatusUpdate(Completed)).status == Completed
    ensures UpdatedTask(UpdatedTask(t, StatusUpdate(Completed)), StatusUpdate(Pending)) ==
            t.(status := Pending, folderId := None)
  {
  }

  /** Reopening a task that is not in the reserved folder keeps its folder. */
  lemma ReopenElsewhereKeepsFolder(t: Task)
    requires t.folderId != Some(COMPLETED_TASKS_FOLDER_ID)
    ensures UpdatedTask(t, StatusUpdate(Pending)) == t.(status := Pending)
  {
  }

  /** An edit without a status (the edit dialog's) stores exactly the spread, folder included. */
  lemma EditWithoutStatusIsSpread(t: Task, u: TaskUpdate)
    requires u.status == Keep
    ensures UpdatedTask(t, u) == Merge(t, u)
  {
  }

  /** An update with no property present leaves the record as it was. */
  lemma MergeNoChanges(t: Task)
    ensures Merge(t, NoChanges) == t
  {
  }

  /** Two spreads in a row equal one spread of the combined update. */
  lemma MergeCombine(t: Task, u1: TaskUpdate, u2: TaskUpdate)
    ensures Merge(Merge(t, u1), u2) == Merge(t, Combine(u1, u2))
  {
  }

  /**
   * Adding a task and then updating it by its fresh id rewrites only the new last
   * record; the earlier tasks are untouched.
   */
  lemma {:induction false} UpdateAfterAdd(tasks: seq<Task>, fields: NewTask, id: string,
                                          now: Date, u: TaskUpdate)
    requires forall k :: 0 <= k < |tasks| ==> tasks[k].id != id
    ensures var ts := UpdatedTasks(tasks + [Stamped(fields, id, now)], id, u);
            |ts| == |tasks| + 1 && ts[..|tasks|] == tasks &&
            ts[|tasks|] == UpdatedTask(Stamped(fields, id, now), u)
  {
    var added := tasks + [Stamped(fields, id, now)];
    assert forall k :: 0 <= k < |tasks| ==> added[k].id != id;
    assert added[|tasks|].id == id;
    var ts := UpdatedTasks(added, id, u);
    assert ts == added[|tasks| := UpdatedTask(added[|tasks|], u)];
    assert ts[..|tasks|] == added[..|tasks|] == tasks;
  }

  /**
   * The scenario of adding a folder, filing a new task in it and completing the task:
   * that task ends up Completed in the reserved folder, and every folder reference is
   * still valid.
   */
  lemma CompleteFiledTaskScenario(tasks: seq<Task>, folders: seq<Folder>, folderId: string,
                                  name: string, fields: NewTask, id: string, now: Date)
    requires FolderRefsValid(tasks, folders)
    requires HasFolder(folders, COMPLETED_TASKS_FOLDER_ID)
    requires forall k :: 0 <= k < |tasks| ==> tasks[k].id != id
    requires fields.folderId == Some(folderId) && fields.status == Pending
    ensures var fs := folders + [Folder(folderId, name, now)];
            var ts := UpdatedTasks(tasks + [Stamped(fields, id, now)], id, StatusUpdate(Completed));
            ts[|tasks|].status == Completed &&
            ts[|tasks|].folderId == Some(COMPLETED_TASKS_FOLDER_ID) &&
            ts[|tasks|].title == fields.title && ts[|tasks|].id == id &&
            FolderRefsValid(ts, fs)
  {
    var fs := folders + [Folder(folderId, name, now)];
    AddFolderKeepsFolderRefs(tasks, folders, Folder(folderId, name, now));
    assert fs[|folders|].id == folderId;
    AddTaskKeepsFolderRefs(tasks, fs, fields, id, now);
    var j :| 0 <= j < |folders| && folders[j].id == COMPLETED_TASKS_FOLDER_ID;
    assert fs[j] == folders[j];
    UpdateTaskKeepsFolderRefs(tasks + [Stamped(fields, id, now)], fs, id, StatusUpdate(Completed));
    UpdateAfterAdd(tasks, fields, id, now, StatusUpdate(Completed));
  }
}

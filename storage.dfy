/**
 * The store of tasks and folders in lib/storage.ts.
 *
 * The two persisted collections are the fields of `Store`; `GetTasks`/`SaveTasks` and
 * `GetFolders`/`SaveFolders` read and write them whole, and every mutator is a
 * read-modify-write through them, as in the source. Fresh identifiers
 * (`crypto.randomUUID()`) and timestamps (`new Date()`) are parameters.
 */
module Storage {
  import opened Wrappers
  import opened Seqs

  datatype Priority = Low | Medium | High
  datatype Status = Pending | Completed

  /** A JavaScript `Date`: milliseconds since the epoch. */
  datatype Date = Date(millis: int)

  datatype Task = Task(
    id: string,
    title: string,
    description: string,
    dueDate: Date,
    reminderTime: Option<Date>,
    folderId: Option<string>,
    priority: Priority,
    status: Status,
    createdAt: Date)

  datatype Folder = Folder(id: string, name: string, createdAt: Date)

  /** The argument of `addTask`: a task without its `id` and `createdAt`. */
  datatype NewTask = NewTask(
    title: string,
    description: string,
    dueDate: Date,
    reminderTime: Option<Date>,
    folderId: Option<string>,
    priority: Priority,
    status: Status)

  /** One property of a `Partial<Task>`: absent (`Keep`) or present with a value. */
  datatype Patch<T> = Keep | Set(value: T)

  /**
   * The `updates` argument of `updateTask`. An optional field that is present may hold
   * `undefined` (`Set(None)`), which the object spread copies like any other value.
   */
  datatype TaskUpdate = TaskUpdate(
    id: Patch<string>,
    title: Patch<string>,
    description: Patch<string>,
    dueDate: Patch<Date>,
    reminderTime: Patch<Option<Date>>,
    folderId: Patch<Option<string>>,
    priority: Patch<Priority>,
    status: Patch<Status>,
    createdAt: Patch<Date>)

  /** The reserved folder that completed tasks are moved into. */
  const COMPLETED_TASKS_FOLDER_ID: string := "completed-tasks-folder"
  const COMPLETED_TASKS_FOLDER_NAME: string := "Completed Tasks"

  /** An update with no property present. */
  const NoChanges: TaskUpdate := TaskUpdate(Keep, Keep, Keep, Keep, Keep, Keep, Keep, Keep, Keep)

  function Pick<T>(p: Patch<T>, old_: T): T
  {
    match p
    case Keep => old_
    case Set(v) => v
  }

  // ---------------------------------------------------------------------------
  // Specification functions of the operations
  // ---------------------------------------------------------------------------

  /** The record `addTask` builds: the given fields plus the fresh id and the creation time. */
  function Stamped(fields: NewTask, id: string, now: Date): (t: Task)
    ensures t.id == id && t.createdAt == now
    ensures t.title == fields.title && t.description == fields.description
    ensures t.dueDate == fields.dueDate && t.reminderTime == fields.reminderTime
    ensures t.folderId == fields.folderId && t.priority == fields.priority
    ensures t.status == fields.status
  {
    Task(id, fields.title, fields.description, fields.dueDate, fields.reminderTime,
         fields.folderId, fields.priority, fields.status, now)
  }

  /** `{ ...t, ...u }`: every property present in `u` overwrites, every absent one is kept. */
  function Merge(t: Task, u: TaskUpdate): Task
  {
    Task(Pick(u.id, t.id), Pick(u.title, t.title), Pick(u.description, t.description),
         Pick(u.dueDate, t.dueDate), Pick(u.reminderTime, t.reminderTime),
         Pick(u.folderId, t.folderId), Pick(u.priority, t.priority),
         Pick(u.status, t.status), Pick(u.createdAt, t.createdAt))
  }

  /** Spreading two updates one after the other is spreading their own spread once. */
  function Combine(u1: TaskUpdate, u2: TaskUpdate): TaskUpdate
  {
    TaskUpdate(
      if u2.id.Set? then u2.id else u1.id,
      if u2.title.Set? then u2.title else u1.title,
      if u2.description.Set? then u2.description else u1.description,
      if u2.dueDate.Set? then u2.dueDate else u1.dueDate,
      if u2.reminderTime.Set? then u2.reminderTime else u1.reminderTime,
      if u2.folderId.Set? then u2.folderId else u1.folderId,
      if u2.priority.Set? then u2.priority else u1.priority,
      if u2.status.Set? then u2.status else u1.status,
      if u2.createdAt.Set? then u2.createdAt else u1.createdAt)
  }

  /**
   * The record `updateTask` stores for a previous record `prev`: the spread of the update,
   * then the completion rule on `folderId`.
   */
  function UpdatedTask(prev: Task, u: TaskUpdate): (r: Task)
    // the completion rule: completing files a task in the reserved folder ...
    ensures u.status == Set(Completed) ==> r.folderId == Some(COMPLETED_TASKS_FOLDER_ID)
    // ... and reopening a task from the reserved folder unfiles it
    ensures u.status == Set(Pending) && prev.folderId == Some(COMPLETED_TASKS_FOLDER_ID) ==>
              r.folderId == None
    // otherwise `folderId` is the merged value and nothing is forced
    ensures u.status != Set(Completed) &&
            !(u.status == Set(Pending) && prev.folderId == Some(COMPLETED_TASKS_FOLDER_ID)) ==>
              r.folderId == Pick(u.folderId, prev.folderId)
    // every other property is the merged one
    ensures r == Merge(prev, u).(folderId := r.folderId)
  {
    var merged := Merge(prev, u);
    if u.status == Set(Completed) then merged.(folderId := Some(COMPLETED_TASKS_FOLDER_ID))
    else if u.status == Set(Pending) && prev.folderId == Some(COMPLETED_TASKS_FOLDER_ID) then
      merged.(folderId := None)
    else merged
  }

  /** `tasks.findIndex(task => task.id === id)`: the first index holding `id`, or -1. */
  function FindIndex(tasks: seq<Task>, id: string): (r: int)
    ensures r == -1 <==> forall k :: 0 <= k < |tasks| ==> tasks[k].id != id
    ensures r != -1 ==> 0 <= r < |tasks| && tasks[r].id == id
    ensures r != -1 ==> forall k :: 0 <= k < r ==> tasks[k].id != id
  {
    if |tasks| == 0 then -1
    else if tasks[0].id == id then 0
    else
      var k := FindIndex(tasks[1..], id);
      if k == -1 then -1 else k + 1
  }

  /** The collection after `updateTask(id, u)`. */
  function UpdatedTasks(tasks: seq<Task>, id: string, u: TaskUpdate): (r: seq<Task>)
    ensures |r| == |tasks|
    // an unknown id changes nothing
    ensures (forall k :: 0 <= k < |tasks| ==> tasks[k].id != id) ==> r == tasks
    // otherwise exactly the first record with that id is replaced
    ensures forall i :: 0 <= i < |tasks| && tasks[i].id == id &&
                        (forall k :: 0 <= k < i ==> tasks[k].id != id) ==>
              r == tasks[i := UpdatedTask(tasks[i], u)]
  {
    var index := FindIndex(tasks, id);
    if index == -1 then tasks else tasks[index := UpdatedTask(tasks[index], u)]
  }

  /** The callback of `deleteTask`'s filter. */
  function TaskIdIsNot(id: string): Task -> bool
  {
    (t: Task) => t.id != id
  }

  /** The callback of `deleteFolder`'s filter. */
  function FolderIdIsNot(id: string): Folder -> bool
  {
    (f: Folder) => f.id != id
  }

  /** The collection after `deleteTask(id)`. */
  function RemainingTasks(tasks: seq<Task>, id: string): (r: seq<Task>)
    ensures forall t :: t in r <==> t in tasks && t.id != id
    ensures (forall k :: 0 <= k < |tasks| ==> tasks[k].id != id) ==> r == tasks
  {
    Filter(TaskIdIsNot(id), tasks)
  }

  /** The folders after `deleteFolder(id)`. */
  function RemainingFolders(folders: seq<Folder>, id: string): (r: seq<Folder>)
    ensures forall f :: f in r <==> f in folders && f.id != id
    ensures (forall k :: 0 <= k < |folders| ==> folders[k].id != id) ==> r == folders
  {
    Filter(FolderIdIsNot(id), folders)
  }

  /** A task with `folderId == Some(id)` unfiled, any other task as it was. */
  function Detached(t: Task, id: string): Task
  {
    if t.folderId == Some(id) then t.(folderId := None) else t
  }

  /** The tasks after `deleteFolder(id)`: every reference to the folder removed. */
  function DetachedTasks(tasks: seq<Task>, id: string): (r: seq<Task>)
    ensures |r| == |tasks|
    ensures forall k :: 0 <= k < |r| ==> r[k].folderId != Some(id)
    ensures forall k :: 0 <= k < |r| && tasks[k].folderId != Some(id) ==> r[k] == tasks[k]
    ensures forall k :: 0 <= k < |r| && tasks[k].folderId == Some(id) ==>
              r[k] == tasks[k].(folderId := None)
  {
    seq(|tasks|, k requires 0 <= k < |tasks| => Detached(tasks[k], id))
  }

  /** `folders.some(folder => folder.id === id)` */
  predicate HasFolder(folders: seq<Folder>, id: string)
  {
    exists k :: 0 <= k < |folders| && folders[k].id == id
  }

  function CompletedFolder(now: Date): Folder
  {
    Folder(COMPLETED_TASKS_FOLDER_ID, COMPLETED_TASKS_FOLDER_NAME, now)
  }

  /** The starter folders written when there are none. */
  function DefaultFolders(workId: string, studyId: string, otherId: string, now: Date): seq<Folder>
  {
    [Folder(workId, "Work/Project", now), Folder(studyId, "Study", now),
     Folder(otherId, "Other", now), CompletedFolder(now)]
  }

  /** The folders after `initializeDefaultFolders()`. */
  function InitializedFolders(folders: seq<Folder>, workId: string, studyId: string,
                              otherId: string, now: Date): (r: seq<Folder>)
    ensures HasFolder(r, COMPLETED_TASKS_FOLDER_ID)
    ensures |folders| == 0 ==> r == DefaultFolders(workId, studyId, otherId, now)
    ensures |folders| > 0 && !HasFolder(folders, COMPLETED_TASKS_FOLDER_ID) ==>
              r == folders + [CompletedFolder(now)]
    ensures HasFolder(folders, COMPLETED_TASKS_FOLDER_ID) ==> r == folders
  {
    if |folders| == 0 then
      assert DefaultFolders(workId, studyId, otherId, now)[3].id == COMPLETED_TASKS_FOLDER_ID;
      DefaultFolders(workId, studyId, otherId, now)
    else if !HasFolder(folders, COMPLETED_TASKS_FOLDER_ID) then
      var r := folders + [CompletedFolder(now)];
      assert r[|folders|].id == COMPLETED_TASKS_FOLDER_ID;
      r
    else folders
  }

  // ---------------------------------------------------------------------------
  // The persisted store
  // ---------------------------------------------------------------------------

  /** The two persisted collections `tasklet_tasks` and `tasklet_folders`. */
  class Store {
    var tasks: seq<Task>
    var folders: seq<Folder>

    /** Nothing persisted yet: both reads return an empty collection. */
    constructor ()
      ensures tasks == [] && folders == []
    {
      tasks := [];
      folders := [];
    }

    method GetTasks() returns (r: seq<Task>)
      ensures r == tasks
    {
      r := tasks;
    }

    method SaveTasks(ts: seq<Task>)
      modifies this
      ensures tasks == ts && folders == old(folders)
    {
      tasks := ts;
    }

    method GetFolders() returns (r: seq<Folder>)
      ensures r == folders
    {
      r := folders;
    }

    method SaveFolders(fs: seq<Folder>)
      modifies this
      ensures folders == fs && tasks == old(tasks)
    {
      folders := fs;
    }

    /** `addTask`: appends the stamped record and returns it. */
    method AddTask(fields: NewTask, id: string, now: Date) returns (r: Task)
      modifies this
      ensures r == Stamped(fields, id, now)
      ensures tasks == old(tasks) + [r] && folders == old(folders)
      // a fresh id finds the new record
      ensures (forall k :: 0 <= k < |old(tasks)| ==> old(tasks)[k].id != id) ==>
                FindIndex(tasks, id) == |old(tasks)|
    {
      var newTask := Task(id, fields.title, fields.description, fields.dueDate,
                          fields.reminderTime, fields.folderId, fields.priority,
                          fields.status, now);
      var ts := GetTasks();
      ts := ts + [newTask];
      SaveTasks(ts);
      r := newTask;
      assert forall k :: 0 <= k < |old(tasks)| ==> tasks[k] == old(tasks)[k];
      assert tasks[|old(tasks)|].id == id;
    }

    /** `updateTask`: rewrites the first record with `id`; an unknown id writes nothing. */
    method UpdateTask(id: string, updates: TaskUpdate)
      modifies this
      ensures tasks == UpdatedTasks(old(tasks), id, updates) && folders == old(folders)
    {
      var ts := GetTasks();
      var index := FindIndex(ts, id);
      if index != -1 {
        var updatedTask := Merge(ts[index], updates);
        if updates.status == Set(Completed) {
          updatedTask := updatedTask.(folderId := Some(COMPLETED_TASKS_FOLDER_ID));
        } else if updates.status == Set(Pending) && ts[index].folderId == Some(COMPLETED_TASKS_FOLDER_ID) {
          updatedTask := updatedTask.(folderId := None);
        }
        ts := ts[index := updatedTask];
        SaveTasks(ts);
      }
    }

    /** `deleteTask`: keeps every task whose id differs, in order. */
    method DeleteTask(id: string)
      modifies this
      ensures tasks == RemainingTasks(old(tasks), id) && folders == old(folders)
    {
      var ts := GetTasks();
      ts := Filter(TaskIdIsNot(id), ts);
      SaveTasks(ts);
    }

    /** `addFolder`: appends a folder with the fresh id and returns it. */
    method AddFolder(name: string, id: string, now: Date) returns (r: Folder)
      modifies this
      ensures r == Folder(id, name, now)
      ensures folders == old(folders) + [r] && tasks == old(tasks)
      ensures HasFolder(folders, id)
    {
      var newFolder := Folder(id, name, now);
      var fs := GetFolders();
      fs := fs + [newFolder];
      SaveFolders(fs);
      r := newFolder;
      assert folders[|folders| - 1].id == id;
    }

    /** `deleteFolder`: removes the folder, then unfiles the tasks that referenced it. */
    method DeleteFolder(id: string)
      modifies this
      ensures folders == RemainingFolders(old(folders), id)
      ensures tasks == DetachedTasks(old(tasks), id)
      ensures !HasFolder(folders, id)
    {
      var fs := GetFolders();
      fs := Filter(FolderIdIsNot(id), fs);
      SaveFolders(fs);

      var ts := GetTasks();
      ts := seq(|ts|, k requires 0 <= k < |ts| => Detached(ts[k], id));
      SaveTasks(ts);
    }

    /** `initializeDefaultFolders`: makes sure the reserved folder exists. */
    method InitializeDefaultFolders(workId: string, studyId: string, otherId: string, now: Date)
      modifies this
      ensures folders == InitializedFolders(old(folders), workId, studyId, otherId, now)
      ensures tasks == old(tasks)
      ensures HasFolder(folders, COMPLETED_TASKS_FOLDER_ID)
      ensures old(HasFolder(folders, COMPLETED_TASKS_FOLDER_ID)) ==> folders == old(folders)
    {
      var existingFolders := GetFolders();
      var hasCompletedFolder := HasFolder(existingFolders, COMPLETED_TASKS_FOLDER_ID);
      if |existingFolders| == 0 {
        var defaultFolders := [
          Folder(workId, "Work/Project", now),
          Folder(studyId, "Study", now),
          Folder(otherId, "Other", now),
          Folder(COMPLETED_TASKS_FOLDER_ID, COMPLETED_TASKS_FOLDER_NAME, now)
        ];
        SaveFolders(defaultFolders);
      } else if !hasCompletedFolder {
        var completedFolder := Folder(COMPLETED_TASKS_FOLDER_ID, COMPLETED_TASKS_FOLDER_NAME, now);
        existingFolders := existingFolders + [completedFolder];
        SaveFolders(existingFolders);
      }
    }
  }
}

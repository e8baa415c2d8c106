/**
 * The in-memory task registry (src/task_manager.rs): an ordered sequence of
 * tasks, looked up by name (first match wins), plus saving to and loading
 * from a JSON file over an abstract file system.
 */
module TaskManager {
  import opened Wrappers
  import opened Tasks

  // ---------------------------------------------------------------------
  // Lookup by name
  // ---------------------------------------------------------------------

  /** `i` is the position of the first task in `ts` named `name`. */
  predicate IsFirstMatch(ts: seq<Task>, name: string, i: nat)
  {
    i < |ts| && ts[i].name == name && forall j :: 0 <= j < i ==> ts[j].name != name
  }

  /** No task in `ts` is named `name`. */
  predicate Absent(ts: seq<Task>, name: string)
  {
    forall j :: 0 <= j < |ts| ==> ts[j].name != name
  }

  /**
   * The position `iter().position` reports: the least index whose task is
   * named exactly `name`, or None when there is none.
   */
  function Position(ts: seq<Task>, name: string): (r: Option<nat>)
    ensures r.Some? ==> IsFirstMatch(ts, name, r.value)
    ensures r.None? <==> Absent(ts, name)
  {
    if ts == [] then None
    else if ts[0].name == name then Some(0)
    else match Position(ts[1..], name)
      case None => None
      case Some(k) => Some(k + 1)
  }

  /** The first match is unique, so it determines Position. */
  lemma PositionOfFirstMatch(ts: seq<Task>, name: string, i: nat)
    requires IsFirstMatch(ts, name, i)
    ensures Position(ts, name) == Some(i)
  {
    var r := Position(ts, name);
    assert r.Some? by { assert ts[i].name == name; }
  }

  // ---------------------------------------------------------------------
  // Messages (the `format!` strings)
  // ---------------------------------------------------------------------

  /** `Task "<name>"`, the head every per-task message starts with. */
  function Quoted(name: string): (r: string)
    ensures |r| == |name| + 7
    ensures r[6..6 + |name|] == name
  {
    "Task \"" + name + "\""
  }

  function RemovedMessage(name: string): (r: string)
    ensures |r| > 6 + |name| && r[6..6 + |name|] == name
  {
    Quoted(name) + " removed successfully"
  }

  function UpdatedMessage(name: string): (r: string)
    ensures |r| > 6 + |name| && r[6..6 + |name|] == name
  {
    Quoted(name) + " updated successfully"
  }

  function MissingMessage(name: string): (r: string)
    ensures |r| > 6 + |name| && r[6..6 + |name|] == name
  {
    Quoted(name) + " does not exist"
  }

  /**
   * A message tells which outcome it reports and for which name: messages
   * of different kinds never coincide, and within a kind equal messages
   * mean equal names.
   */
  lemma MessagesDistinguish(a: string, b: string)
    ensures RemovedMessage(a) != MissingMessage(b)
    ensures UpdatedMessage(a) != MissingMessage(b)
    ensures RemovedMessage(a) != UpdatedMessage(b)
    ensures RemovedMessage(a) == RemovedMessage(b) ==> a == b
    ensures UpdatedMessage(a) == UpdatedMessage(b) ==> a == b
    ensures MissingMessage(a) == MissingMessage(b) ==> a == b
  {
    var ra, ua, ma := RemovedMessage(a), UpdatedMessage(a), MissingMessage(a);
    var mb, ub := MissingMessage(b), UpdatedMessage(b);
    assert ra[|ra| - 1] == 'y' && ua[|ua| - 1] == 'y' && mb[|mb| - 1] == 't';
    if |ra| == |ub| {
      assert ra[|a| + 8] == 'r' && ub[|b| + 8] == 'u';
    }
    if ra == RemovedMessage(b) || ua == ub || ma == mb {
      assert |a| == |b|;
    }
  }

  // ---------------------------------------------------------------------
  // Files
  // ---------------------------------------------------------------------

  /**
   * What a file holds: either the JSON document serde wrote for a task
   * sequence (which reads back as that sequence), or other content, on
   * which deserialising fails with the given error text.
   */
  datatype FileData = Written(tasks: seq<Task>) | Garbled(parseError: string)

  /** The files that exist, by path. */
  type FileSystem = map<string, FileData>

  /**
   * How serialising into a freshly created file ends. A failed write leaves
   * an incomplete document behind, on which a later load fails with
   * `leftParseError`.
   */
  datatype WriteOutcome = WriteOk | WriteFailed(error: string, leftParseError: string)

  /** The outcome of a save: the message and the file system afterwards. */
  datatype Saved = Saved(message: Result<string, string>, files: FileSystem)

  /** The path a bare file name stands for: the name with ".json" appended. */
  function JsonPath(filename: string): (r: string)
    ensures |r| == |filename| + 5
    ensures r[..|filename|] == filename && r[|filename|..] == ".json"
  {
    filename + ".json"
  }

  /** The error `load_tasks_from_file` gives for a missing file; `{filename}` is literal text, not the name. */
  const LoadMissingMessage: string := "File \"{filename}\" does not exist"

  /**
   * `load_tasks_from_file` without the assignment: the sequence a load
   * installs, or the error it reports. `openError` is what `File::open`
   * fails with, if it does.
   */
  function LoadOutcome(fs: FileSystem, filename: string, openError: Option<string>): (r: Result<seq<Task>, string>)
    ensures JsonPath(filename) !in fs ==> r == Err(LoadMissingMessage)
    ensures r.Ok? <==> JsonPath(filename) in fs && openError.None? && fs[JsonPath(filename)].Written?
    ensures r.Ok? ==> r.value == fs[JsonPath(filename)].tasks
  {
    var path := JsonPath(filename);
    if path in fs then
      match openError
      case Some(e) => Err("Error opening file: " + e)
      case None =>
        match fs[path]
        case Written(ts) => Ok(ts)
        case Garbled(e) => Err("Error loading data: " + e)
    else
      Err(LoadMissingMessage)
  }

  /**
   * `save_tasks_to_file` on the sequence `ts`. `createError` is what
   * `File::create` fails with, if it does; `write` says how serialising ends.
   */
  function Save(ts: seq<Task>, fs: FileSystem, filename: string,
                createError: Option<string>, write: WriteOutcome): (r: Saved)
    // no clobber: every file that existed is left as it was
    ensures forall p :: p in fs ==> p in r.files && r.files[p] == fs[p]
    // at most the derived path is added
    ensures r.files.Keys <= fs.Keys + {JsonPath(filename)}
    ensures JsonPath(filename) in fs ==> r == Saved(Err("File already exists"), fs)
    ensures r.message.Ok? <==> JsonPath(filename) !in fs && createError.None? && write.WriteOk?
    ensures r.message.Ok? ==> r.files == fs[JsonPath(filename) := Written(ts)]
    // a failed write never leaves a new file that loads
    ensures write.WriteFailed? && JsonPath(filename) !in fs && JsonPath(filename) in r.files ==>
      r.files[JsonPath(filename)].Garbled?
  {
    var path := JsonPath(filename);
    if path !in fs then
      match createError
      case Some(e) => Saved(Err("Error creating file: " + e), fs)
      case None =>
        match write
        case WriteOk => Saved(Ok("Data saved"), fs[path := Written(ts)])
        case WriteFailed(e, parseError) => Saved(Err("Error saving data: " + e), fs[path := Garbled(parseError)])
    else
      Saved(Err("File already exists"), fs)
  }

  // ---------------------------------------------------------------------
  // The registry
  // ---------------------------------------------------------------------

  /** `TasksManager`: owns the ordered task sequence and changes it in place. */
  class TasksManager {
    var tasks: seq<Task>

    /** `TasksManager::new`: an empty registry. */
    constructor ()
      ensures tasks == []
    {
      tasks := [];
    }

    /** `add_task`: appends at the end; duplicates are allowed. */
    method AddTask(task: Task)
      modifies this
      ensures tasks == old(tasks) + [task]
    {
      tasks := tasks + [task];
    }

    /** `find_task`: a linear scan for the first task with exactly this name. */
    method FindTask(name: string) returns (r: Option<nat>)
      ensures r == Position(tasks, name)
    {
      var i := 0;
      while i < |tasks|
        invariant i <= |tasks|
        invariant forall j :: 0 <= j < i ==> tasks[j].name != name
      {
        if tasks[i].name == name {
          PositionOfFirstMatch(tasks, name, i);
          return Some(i);
        }
        i := i + 1;
      }
      return None;
    }

    /** `remove_task`: deletes the first match, shifting later tasks down one place. */
    method RemoveTask(name: string) returns (r: Result<string, string>)
      modifies this
      ensures Position(old(tasks), name).Some? ==>
        var i := Position(old(tasks), name).value;
        tasks == old(tasks)[..i] + old(tasks)[i + 1..] && r == Ok(RemovedMessage(name))
      ensures Position(old(tasks), name).None? ==>
        tasks == old(tasks) && r == Err(MissingMessage(name))
    {
      var found := FindTask(name);
      match found
      case Some(index) =>
        tasks := tasks[..index] + tasks[index + 1..];
        r := Ok(RemovedMessage(name));
      case None =>
        r := Err(MissingMessage(name));
    }

    /**
     * `edit_task`: overwrites the first match with `updatedTask` (its time
     * stamp included), leaving every other slot as it was.
     */
    method EditTask(name: string, updatedTask: Task) returns (r: Result<string, string>)
      modifies this
      ensures Position(old(tasks), name).Some? ==>
        var i := Position(old(tasks), name).value;
        tasks == old(tasks)[i := updatedTask] && r == Ok(UpdatedMessage(name))
      ensures Position(old(tasks), name).None? ==>
        tasks == old(tasks) && r == Err(MissingMessage(name))
    {
      var found := FindTask(name);
      match found
      case Some(index) =>
        if index < |tasks| {
          tasks := tasks[index := updatedTask];
          r := Ok(UpdatedMessage(name));
        } else {
          // `get_mut` cannot miss: the index came from `find_task`
          assert false;
          r := Err(MissingMessage(name));
        }
      case None =>
        r := Err(MissingMessage(name));
    }

    /** `save_tasks_to_file`: writes the registry's sequence; the registry itself is not changed. */
    function SaveTasksToFile(fs: FileSystem, filename: string,
                             createError: Option<string>, write: WriteOutcome): (r: Saved)
      reads this
      ensures r.message.Ok? ==> JsonPath(filename) in r.files && r.files[JsonPath(filename)] == Written(tasks)
      ensures JsonPath(filename) in fs ==> r.message.Err? && r.files == fs
    {
      Save(tasks, fs, filename, createError, write)
    }

    /**
     * `load_tasks_from_file`: on success the whole sequence is replaced by
     * the file's; on any error the registry is left unchanged.
     */
    method LoadTasksFromFile(fs: FileSystem, filename: string, openError: Option<string>)
      returns (r: Result<string, string>)
      modifies this
      ensures LoadOutcome(fs, filename, openError).Ok? ==>
        tasks == LoadOutcome(fs, filename, openError).value && r == Ok("Data loaded")
      ensures LoadOutcome(fs, filename, openError).Err? ==>
        tasks == old(tasks) && r == Err(LoadOutcome(fs, filename, openError).error)
    {
      var path := JsonPath(filename);
      if path in fs {
        if openError.Some? {
          return Err("Error opening file: " + openError.value);
        }
        var loaded: seq<Task>;
        match fs[path] {
          case Written(ts) => loaded := ts;
          case Garbled(e) => return Err("Error loading data: " + e);
        }
        tasks := loaded;
        r := Ok("Data loaded");
      } else {
        r := Err(LoadMissingMessage);
      }
    }
  }

  // ---------------------------------------------------------------------
  // Properties relating several operations
  // ---------------------------------------------------------------------

  /** After appending `t`, a name resolves where it did before, else to the new last slot if `t` has it. */
  lemma AddThenFind(ts: seq<Task>, t: Task, name: string)
    ensures Position(ts + [t], name) ==
      match Position(ts, name)
      case Some(i) => Some(i)
      case None => if t.name == name then Some(|ts|) else None
  {
    var ts' := ts + [t];
    match Position(ts, name)
    case Some(i) =>
      PositionOfFirstMatch(ts', name, i);
    case None =>
      if t.name == name {
        PositionOfFirstMatch(ts', name, |ts|);
      } else {
        assert Absent(ts', name) by {
          forall j | 0 <= j < |ts'| ensures ts'[j].name != name {
            if j < |ts| { assert ts'[j] == ts[j]; }
          }
        }
      }
  }

  /**
   * After removing the first match at `i`, the name resolves to the next
   * duplicate (now one place earlier), or to nothing when there was none.
   */
  lemma RemoveThenFind(ts: seq<Task>, name: string, i: nat)
    requires Position(ts, name) == Some(i)
    ensures Position(ts[..i] + ts[i + 1..], name) ==
      match Position(ts[i + 1..], name)
      case None => None
      case Some(k) => Some(i + k)
  {
    var ts' := ts[..i] + ts[i + 1..];
    var rest := ts[i + 1..];
    assert |ts'| == i + |rest|;
    match Position(rest, name)
    case Some(k) =>
      forall j | 0 <= j < i + k ensures ts'[j].name != name {
        if j < i {
          assert ts'[j] == ts[j];
        } else {
          assert ts'[j] == rest[j - i];
        }
      }
      assert ts'[i + k] == rest[k];
      PositionOfFirstMatch(ts', name, i + k);
    case None =>
      forall j | 0 <= j < |ts'| ensures ts'[j].name != name {
        if j < i {
          assert ts'[j] == ts[j];
        } else {
          assert ts'[j] == rest[j - i];
        }
      }
  }

  /**
   * After overwriting the first match at `i` with `u`, the name resolves to
   * `i` again when `u` keeps it, else to the next duplicate.
   */
  lemma EditThenFind(ts: seq<Task>, name: string, i: nat, u: Task)
    requires Position(ts, name) == Some(i)
    ensures Position(ts[i := u], name) ==
      if u.name == name then Some(i)
      else match Position(ts[i + 1..], name)
        case None => None
        case Some(k) => Some(i + 1 + k)
  {
    var ts' := ts[i := u];
    if u.name == name {
      PositionOfFirstMatch(ts', name, i);
    } else {
      var rest := ts[i + 1..];
      assert forall j :: i < j < |ts'| ==> ts'[j] == rest[j - i - 1];
      match Position(rest, name)
      case Some(k) =>
        PositionOfFirstMatch(ts', name, i + 1 + k);
      case None =>
        assert Absent(ts', name);
    }
  }

  /** Save followed by load restores the saved sequence, content and order. */
  lemma SaveThenLoad(ts: seq<Task>, fs: FileSystem, filename: string)
    requires JsonPath(filename) !in fs
    ensures Save(ts, fs, filename, None, WriteOk).message == Ok("Data saved")
    ensures LoadOutcome(Save(ts, fs, filename, None, WriteOk).files, filename, None) == Ok(ts)
  {
  }

  /** A second save under the same name fails and leaves the first file as it was. */
  lemma SaveTwice(ts: seq<Task>, us: seq<Task>, fs: FileSystem, filename: string,
                  createError: Option<string>, write: WriteOutcome)
    requires Save(ts, fs, filename, None, WriteOk).message.Ok?
    ensures var first := Save(ts, fs, filename, None, WriteOk).files;
      Save(us, first, filename, createError, write) == Saved(Err("File already exists"), first)
      && first[JsonPath(filename)] == Written(ts)
  {
  }

  // ---------------------------------------------------------------------
  // Scenarios
  // ---------------------------------------------------------------------

  /** Looking a name up in a fresh registry reports "not found" rather than failing. */
  method FindInEmptyRegistry() returns (r: Option<nat>)
    ensures r == None
  {
    var m := new TasksManager();
    r := m.FindTask("Ghost");
  }

  /** Add one task, then remove it by name: the remove succeeds and the registry is empty again. */
  method AddThenRemoveScenario(now: Timestamp) returns (afterAdd: seq<Task>, removed: Result<string, string>, afterRemove: seq<Task>)
    ensures afterAdd == [Task("Buy milk", "2%", Low, now)]
    ensures removed == Ok(RemovedMessage("Buy milk"))
    ensures afterRemove == []
  {
    var m := new TasksManager();
    m.AddTask(NewTask("Buy milk", "2%", Low, now));
    afterAdd := m.tasks;
    removed := m.RemoveTask("Buy milk");
    afterRemove := m.tasks;
  }
}

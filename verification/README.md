# Task registry of a console task manager, in Dafny

This project models the core of a small Rust command-line task manager: the
in-memory task registry (`TasksManager`) and the value types it stores
(`Task`, `Priority`).

- `tasks.dfy` (module `Tasks`, from `src/tasks.rs`): the three-valued
  `Priority` with its label and the case-insensitive text-to-priority rule,
  the `Task` record, and the construction of a task from console input with
  its fall-back defaults. The creation time is a `Timestamp` value handed in
  by the caller instead of a reading of the local clock.
- `task_manager.dfy` (module `TaskManager`, from `src/task_manager.rs`): the
  class `TasksManager`, whose field `tasks: seq<Task>` is changed in place by
  `AddTask`, `RemoveTask`, `EditTask` and `LoadTasksFromFile`. `FindTask` is
  a linear scan proved equal to the recursive specification `Position` (the
  least index whose task has exactly the given name). Duplicate names are
  allowed, and every name-based operation resolves to the first match.
  Saving and loading work on an abstract file system, a map from path to
  file content. A content is either the JSON document written for a task
  sequence (`Written`), or anything else (`Garbled`), on which
  deserialisation fails with an error text. Failures of `File::create`,
  `File::open` and of serialisation are inputs.
- `wrappers.dfy` (module `Wrappers`): `Option` and `Result`.

Behaviour kept exactly as the code has it:

- A name must match exactly (case-sensitive).
- Remove shifts the later tasks down one place. It is not a swap-remove.
- `edit_task` replaces the whole task, so the creation time becomes the
  replacement's.
- A failed load leaves the registry unchanged.
- Save refuses a path that already exists.
- The "file missing" error of a load is the literal text
  `File "{filename}" does not exist`. The name is not filled in.
- `Task::new` accepts any string as a name, including the empty one.

## Model

| member | source | states |
|---|---|---|
| `Tasks.Label` | src/tasks.rs:13-19 | every label is a non-empty word starting with a capital letter |
| `Tasks.ParseLabel` | src/tasks.rs:56-60 | round trip: parsing the label of any priority gives back that priority |
| `Tasks.LabelInjective` | src/tasks.rs:13-19 | the three labels are distinct: equal labels mean equal priorities |
| `Tasks.LowerChar` | src/tasks.rs:56 | an upper-case ASCII letter becomes the same letter in lower case, and every other character is kept (ASCII only, see "Left out") |
| `Tasks.ToLower` | src/tasks.rs:56 | lower-casing keeps the length and lowers each character in place (ASCII only, see "Left out") |
| `Tasks.ParsePriority` | src/tasks.rs:56-60 | Medium or High is chosen only by text equal to that priority's label up to letter case, and everything else gives Low; its partners are the round trip `ParseLabel` and the case-insensitivity `ParseIgnoresCase` |
| `Tasks.ParseIgnoresCase` | src/tasks.rs:56 | two texts that differ only in letter case lower-case to the same text and parse to the same priority |
| `Tasks.ParseAnyCapitalisation` | src/tasks.rs:56-58 | "HIGH", "High" and "high" give High, and "MEDIUM" gives Medium |
| `Tasks.ParseFallsBackToLow` | src/tasks.rs:59 | "", "low" and "urgent" give Low |
| `Tasks.NewTask` | src/tasks.rs:31-38 | name, description and priority are stored verbatim with no validation, and the creation time is the one supplied |
| `Tasks.NewFromConsole` | src/tasks.rs:40-67 | a read that succeeded supplies its field, and the priority text goes through the parse rule; a failed read gives name "task", description "description" or priority Low |
| `TaskManager.Position` | src/task_manager.rs:37-39 | Some(i) only when i is in range, task i has the name and no earlier task has it; None exactly when no task has the name |
| `TaskManager.Quoted` | src/task_manager.rs:31 | the per-task message head holds the name at a fixed offset |
| `TaskManager.RemovedMessage` | src/task_manager.rs:31 | the removal success message carries the looked-up name |
| `TaskManager.UpdatedMessage` | src/task_manager.rs:47 | the edit success message carries the looked-up name |
| `TaskManager.MissingMessage` | src/task_manager.rs:33 | the "does not exist" message carries the looked-up name |
| `TaskManager.MessagesDistinguish` | src/task_manager.rs:28-34 | a message determines its outcome and its name: removed, updated and "does not exist" messages never coincide, and equal messages of one kind carry equal names |
| `TaskManager.JsonPath` | src/task_manager.rs:57 | the path is the given file name followed by ".json" |
| `TaskManager.LoadOutcome` | src/task_manager.rs:72-87 | a load succeeds exactly when the derived path exists, opens, and holds a written task sequence, and it then yields that sequence; a missing path gives the literal `{filename}` message |
| `TaskManager.Save` | src/task_manager.rs:56-70 | no file that existed is changed, and at most the derived path is added; an existing path gives "File already exists"; success exactly when the path was free, creation worked and writing worked, and the path then holds the sequence; a failed write leaves only a file that does not parse |
| `TaskManager.TasksManager.constructor` | src/task_manager.rs:12-16 | a new registry holds no tasks |
| `TaskManager.TasksManager.AddTask` | src/task_manager.rs:24-26 | the task is appended: the new sequence is the old one followed by the task |
| `TaskManager.TasksManager.FindTask` | src/task_manager.rs:37-39 | the scan returns exactly `Position` of the registry's sequence |
| `TaskManager.TasksManager.RemoveTask` | src/task_manager.rs:28-35 | a present name deletes exactly the first match, keeping the order (`ts[..i] + ts[i+1..]`), and returns Ok with the removal message; an absent name returns Err and changes nothing |
| `TaskManager.TasksManager.EditTask` | src/task_manager.rs:41-54 | a present name overwrites only the first match's slot with the replacement, time included, and returns Ok; an absent name returns Err and changes nothing; the `get_mut` miss is proved unreachable |
| `TaskManager.TasksManager.SaveTasksToFile` | src/task_manager.rs:56-70 | on success the derived path holds the registry's sequence; an existing path is refused with the file system unchanged |
| `TaskManager.TasksManager.LoadTasksFromFile` | src/task_manager.rs:72-87 | on success the whole sequence is replaced by the file's and "Data loaded" is returned; on any error the sequence is unchanged and the error is returned |
| `TaskManager.AddThenFind` | src/task_manager.rs:24-26 | after an append, a name resolves where it did before, or to the new last slot when only the new task has it |
| `TaskManager.RemoveThenFind` | src/task_manager.rs:28-31 | after removing the first match, the name resolves to the next duplicate (one place earlier than before), or to nothing when there was none |
| `TaskManager.EditThenFind` | src/task_manager.rs:41-48 | after an edit, the name resolves to the same slot if the replacement keeps the name, else to the next duplicate |
| `TaskManager.SaveThenLoad` | src/task_manager.rs:56-87 | saving to a free path and then loading it restores the same sequence, content and order |
| `TaskManager.SaveTwice` | src/task_manager.rs:67-68 | a second save under the same name fails with "File already exists" and leaves the first file as written |
| `TaskManager.FindInEmptyRegistry` | src/task_manager.rs:37-39 | looking up a name in a new registry gives "not found" |
| `TaskManager.AddThenRemoveScenario` | src/task_manager.rs:24-35 | adding one task and removing it by name succeeds and leaves the registry empty |

## Left out

- `print_tasks` and `Task::print_task` only write to standard output. The
  date formatting `%d.%m.%Y at %H:%M:%S` from chrono is left out with them.
- `Local::now()` is not modelled. The creation time is an uninterpreted
  `Timestamp` supplied by the caller.
- The console menu loop (`src/console_manager.rs`) and `main`
  (`src/main.rs`) are not part of this model. The trimming done by
  `ConsoleManager::input` is taken as already applied to the text that
  `NewFromConsole` receives. The text of a failed read is only printed, so
  a failed read is modelled as `None`.
- `Tasks.LowerChar`, `Tasks.ToLower` and `Tasks.ParseIgnoresCase` (through
  `SameIgnoringCase`) treat letter case as ASCII only, while Rust's
  `to_lowercase` follows Unicode. The parse decision is the same either
  way: "medium" and "high" contain no `k`, and U+212A KELVIN SIGN (which
  lowercases to `k`) is the only non-ASCII character whose lowercase form
  is plain ASCII.
- serde_json is not modelled. The model assumes that a file written for a
  sequence reads back as that sequence. Any other content fails to parse
  with an error text carried by the content.
- What a failed serialisation leaves in the newly created file is modelled
  as content that does not parse. The error text a later load reports for
  it is an input (`WriteFailed.leftParseError`), because the model does not
  contain the partial JSON text.
- `Path::exists` is modelled as membership in the file map. The model does
  not cover `exists` returning false for an unreadable path, nor another
  process changing the files between the check and the open.

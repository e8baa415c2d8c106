/** The task record and its priority level (src/tasks.rs). */
module Tasks {
  import opened Wrappers

  /** The closed, three-valued priority of a task. */
  datatype Priority = Low | Medium | High

  /** The human-readable label of a priority (`Priority::to_string`). */
  function Label(p: Priority): (r: string)
    ensures |r| > 0 && 'A' <= r[0] <= 'Z'
  {
    match p
    case Low => "Low"
    case Medium => "Medium"
    case High => "High"
  }

  /** Round trip: parsing the label of a priority gives that priority back. */
  lemma ParseLabel(p: Priority)
    ensures ParsePriority(Label(p)) == p
  {
    match p
    case Low => assert ToLower("Low") == "low";
    case Medium => assert ToLower("Medium") == "medium";
    case High => assert ToLower("High") == "high";
  }

  /** The three labels are distinct: two priorities share a label only if they are equal. */
  lemma LabelInjective(p: Priority, q: Priority)
    requires Label(p) == Label(q)
    ensures p == q
  {
    ParseLabel(p);
    ParseLabel(q);
  }

  /** Lower-case form of one character; only 'A'..'Z' change. */
  function LowerChar(c: char): (r: char)
    ensures 'A' <= c <= 'Z' ==> 'a' <= r <= 'z' && r as int - 'a' as int == c as int - 'A' as int
    ensures !('A' <= c <= 'Z') ==> r == c
  {
    if 'A' <= c <= 'Z' then (c as int - 'A' as int + 'a' as int) as char else c
  }

  /** Lower-case form of a string, character by character. */
  function ToLower(s: string): (r: string)
    ensures |r| == |s|
    ensures forall i :: 0 <= i < |s| ==> r[i] == LowerChar(s[i])
  {
    if s == [] then [] else [LowerChar(s[0])] + ToLower(s[1..])
  }

  /** Two strings are equal up to the case of their letters. */
  predicate SameIgnoringCase(s: string, t: string)
  {
    |s| == |t| && forall i :: 0 <= i < |s| ==> LowerChar(s[i]) == LowerChar(t[i])
  }

  /**
   * The text-to-priority rule of `Task::new_from_console`: the input is
   * lower-cased, then "medium" and "high" are recognised and anything else
   * (the empty string and "low" included) gives Low.
   */
  function ParsePriority(s: string): (r: Priority)
    // Medium or High is chosen only by that priority's label, in any capitalisation
    ensures r != Low ==> ToLower(s) == ToLower(Label(r))
  {
    assert ToLower("Medium") == "medium" && ToLower("High") == "high";
    match ToLower(s)
    case "medium" => Medium
    case "high" => High
    case _ => Low
  }

  /** Parsing ignores case: strings that differ only in letter case parse alike. */
  lemma ParseIgnoresCase(s: string, t: string)
    requires SameIgnoringCase(s, t)
    ensures ToLower(s) == ToLower(t)
    ensures ParsePriority(s) == ParsePriority(t)
  {
    assert forall i :: 0 <= i < |s| ==> ToLower(s)[i] == ToLower(t)[i];
  }

  /** Any capitalisation of a recognised word selects that priority. */
  lemma ParseAnyCapitalisation()
    ensures ParsePriority("HIGH") == High
    ensures ParsePriority("High") == High
    ensures ParsePriority("high") == High
    ensures ParsePriority("MEDIUM") == Medium
  {
    assert ToLower("HIGH") == "high";
    assert ToLower("High") == "high";
    assert ToLower("high") == "high";
    assert ToLower("MEDIUM") == "medium";
  }

  /** Unrecognised text, the empty string and "low" included, falls back to Low. */
  lemma ParseFallsBackToLow()
    ensures ParsePriority("") == Low
    ensures ParsePriority("low") == Low
    ensures ParsePriority("urgent") == Low
  {
    assert ToLower("low") == "low";
    assert ToLower("urgent") == "urgent";
  }

  /** An uninterpreted point in time, supplied by the caller instead of the clock. */
  datatype Timestamp = Timestamp(ticks: int)

  /** A task: name, description, priority and the time it was added. */
  datatype Task = Task(name: string, description: string, priority: Priority, addTime: Timestamp)

  /**
   * `Task::new`: the fields are stored as given, with no validation (empty
   * strings are accepted); `now` stands for the reading of the local clock.
   */
  function NewTask(name: string, description: string, priority: Priority, now: Timestamp): (t: Task)
    ensures t.name == name && t.description == description
    ensures t.priority == priority && t.addTime == now
  {
    Task(name, description, priority, now)
  }

  /**
   * `Task::new_from_console`: each argument is the line read for that field
   * (already trimmed), or None when reading it failed. A failed read falls
   * back to name "task", description "description" and priority Low.
   */
  function NewFromConsole(nameRead: Option<string>, descriptionRead: Option<string>,
                          priorityRead: Option<string>, now: Timestamp): (t: Task)
    ensures nameRead.None? ==> t.name == "task"
    ensures nameRead.Some? ==> t.name == nameRead.value
    ensures descriptionRead.None? ==> t.description == "description"
    ensures descriptionRead.Some? ==> t.description == descriptionRead.value
    ensures priorityRead.None? ==> t.priority == Low
    ensures priorityRead.Some? ==> t.priority == ParsePriority(priorityRead.value)
    ensures t.addTime == now
  {
    var name := match nameRead case Some(n) => n case None => "task";
    var description := match descriptionRead case Some(d) => d case None => "description";
    var priority := match priorityRead case Some(p) => ParsePriority(p) case None => Low;
    NewTask(name, description, priority, now)
  }
}

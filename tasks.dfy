/** The task model the engine manipulates, its failure values and the reply texts that
    the command-line engine (Duke.java) and the GUI (Ui.java) both produce.
    The Task, Todo, Deadline and Event classes themselves are not part of this model:
    a task is a value with a kind, a description, a done flag and an optional marker,
    and `Render` stands for its `toString`. */
module Tasks {
  import opened Text

  datatype Option<T> = None | Some(value: T)

  datatype TaskKind = TodoKind | DeadlineKind | EventKind

  /** `marker` is the "by" text of a deadline or the "at" text of an event. */
  datatype Task = Task(kind: TaskKind, description: string, done: bool, marker: Option<string>)

  /** The two exceptions of the engine: `InvalidCommandException` and
      `IncompleteTaskDescriptionException(kind)`. */
  datatype DukeError = InvalidCommand | IncompleteDescription(kind: string)

  /** A value, or the exception that a Java method throws instead of returning one. */
  datatype Result<T> = Success(value: T) | Failure(error: DukeError)

  /** `new Todo(d)`, `new Deadline(d, by)`, `new Event(d, at)`: a fresh task is not done. */
  function NewTodo(description: string): Task { Task(TodoKind, description, false, None) }
  function NewDeadline(description: string, due: string): Task { Task(DeadlineKind, description, false, Some(due)) }
  function NewEvent(description: string, window: string): Task { Task(EventKind, description, false, Some(window)) }

  /** `MarkAsDone`: only the done flag changes. */
  function MarkAsDone(t: Task): (u: Task)
    ensures u.done
    ensures u.kind == t.kind && u.description == t.description && u.marker == t.marker
  {
    t.(done := true)
  }

  /** `toString` of a task: `[T][ ] text`, `[D][X] text (by: marker)`, `[E][ ] text (at: marker)`. */
  function Render(t: Task): string
  {
    var tag := match t.kind case TodoKind => "T" case DeadlineKind => "D" case EventKind => "E";
    var status := if t.done then "X" else " ";
    var suffix := match t.kind
      case TodoKind => ""
      case DeadlineKind => " (by: " + MarkerText(t.marker) + ")"
      case EventKind => " (at: " + MarkerText(t.marker) + ")";
    "[" + tag + "][" + status + "] " + t.description + suffix
  }

  function MarkerText(m: Option<string>): string
  {
    match m case None => "" case Some(text) => text
  }

  /** A task written on one line: its description and marker hold no newline. */
  predicate SingleLine(t: Task) {
    '\n' !in t.description && '\n' !in MarkerText(t.marker)
  }

  lemma RenderSingleLine(t: Task)
    requires SingleLine(t)
    ensures '\n' !in Render(t)
  {
  }
}

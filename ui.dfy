/** The GUI's parser and response builder (Ui.java). The JavaFX dialog container is the
    sequence `dialog` of its entries, each reduced to its text and whether it is shown as
    an error. */
module Ui {
  import opened Text
  import opened Tasks
  import opened Replies
  import opened Commands

  datatype Entry = Entry(text: string, isError: bool)

  /** The first line of a listing: "Here is the matching task in your list:" for one task,
      "Here are the matching tasks in your list:" for more. */
  function Header(n: nat): string
  {
    var isOrAre := if n > 1 then "are" else "is";
    var taskName := if n > 1 then "tasks" else "task";
    "Here " + isOrAre + " the matching " + taskName + " in your list:"
  }

  /** Lines, each followed by a newline. */
  function JoinLines(lines: seq<string>): string
  {
    if lines == [] then "" else lines[0] + "\n" + JoinLines(lines[1..])
  }

  /** Text cut after every newline; a last piece without one is kept. */
  function SplitLines(s: string): seq<string>
    decreases |s|
  {
    if s == [] then []
    else
      var i := IndexOf(s, "\n");
      if i < 0 then [s] else [s[..i]] + SplitLines(s[i + 1..])
  }

  /** The message `showTasks` builds for a non-empty list: the header, then `i.<task>` for
      each task, each line ending in a newline. */
  function TaskListMessage(ts: seq<Task>): string
  {
    JoinLines([Header(|ts|)] + NumberedLines(ts))
  }

  /** Adding a line at the end of the list adds it at the end of the text. */
  lemma {:induction false} JoinLinesSnoc(lines: seq<string>, line: string)
    ensures JoinLines(lines + [line]) == JoinLines(lines) + line + "\n"
  {
    if lines != [] {
      assert (lines + [line])[1..] == lines[1..] + [line];
      JoinLinesSnoc(lines[1..], line);
    }
  }

  /** In `first + "\n" + rest`, with no newline in `first`, the first newline is the one
      right after `first`. */
  lemma FirstNewline(first: string, rest: string)
    requires '\n' !in first
    ensures IndexOf(first + "\n" + rest, "\n") == |first|
  {
    var s := first + "\n" + rest;
    assert s[|first|..|first| + 1] == "\n";
    assert OccursAt(s, "\n", |first|);
    forall j: nat | j < |first| ensures !OccursAt(s, "\n", j) {
      assert s[j..j + 1] == [first[j]];
    }
  }

  /** Joined lines that hold no newline themselves are recovered by cutting at newlines. */
  lemma {:induction false} SplitJoinLines(lines: seq<string>)
    requires forall k :: 0 <= k < |lines| ==> '\n' !in lines[k]
    ensures SplitLines(JoinLines(lines)) == lines
  {
    if lines != [] {
      var first := lines[0];
      var rest := JoinLines(lines[1..]);
      var s := first + "\n" + rest;
      assert JoinLines(lines) == s;
      FirstNewline(first, rest);
      assert s[..|first|] == first;
      assert s[|first| + 1..] == rest;
      SplitJoinLines(lines[1..]);
    }
  }

  lemma HeaderSingleLine(n: nat)
    ensures '\n' !in Header(n)
  {
  }

  lemma NumberLineSingleLine(n: nat, t: Task)
    requires SingleLine(t)
    ensures '\n' !in NumberLine(n, t)
  {
    RenderSingleLine(t);
    var digits := NatToString(n);
    assert forall k :: 0 <= k < |digits| ==> IsDigit(digits[k]);
  }

  /** Cutting a listing of one-line tasks at its newlines gives back the header and then
      exactly one line per task, `i.<task>` with i = 1..n in list order. */
  lemma TaskListLines(ts: seq<Task>)
    requires forall k :: 0 <= k < |ts| ==> SingleLine(ts[k])
    ensures SplitLines(TaskListMessage(ts)) == [Header(|ts|)] + NumberedLines(ts)
  {
    var numbered := NumberedLines(ts);
    var lines := [Header(|ts|)] + numbered;
    forall k | 0 <= k < |lines| ensures '\n' !in lines[k] {
      if k == 0 {
        HeaderSingleLine(|ts|);
      } else {
        assert lines[k] == numbered[k - 1] == NumberLine(k, ts[k - 1]);
        NumberLineSingleLine(k, ts[k - 1]);
      }
    }
    SplitJoinLines(lines);
  }

  class Ui {
    var dialog: seq<Entry>
    var listOfCommands: Option<map<string, CommandKeyword>>

    /** `Ui(dialogContainer)`: the keyword map is not set yet. */
    constructor (dialogContainer: seq<Entry>)
      ensures dialog == dialogContainer && listOfCommands == None
    {
      dialog := dialogContainer;
      listOfCommands := None;
    }

    /** `setListOfCommands`. */
    method SetListOfCommands(commands: map<string, CommandKeyword>)
      modifies this`listOfCommands
      ensures listOfCommands == Some(commands)
    {
      listOfCommands := Some(commands);
    }

    /** `formatMessage`: exactly one entry more, holding the message with a tab after each
        newline and flagged as an error exactly when asked; earlier entries stay. */
    method FormatMessage(message: string, isErrorMessage: bool)
      modifies this`dialog
      ensures dialog == old(dialog) + [Entry(IndentNewlines(message), isErrorMessage)]
    {
      dialog := dialog + [Entry(IndentNewlines(message), isErrorMessage)];
    }

    /** `readCommand`: the text before the first space of the trimmed input, upper-cased,
        must be a key of the keyword map; the rest of the command is everything after that
        space, not trimmed again, or "" when there is no space. */
    function ReadCommand(input: string): (r: Result<Command>)
      reads this
      requires listOfCommands.Some?
      ensures var (head, rest) := SplitFirstSpace(Trim(input));
        (r.Success? <==> Upper(head) in listOfCommands.value) &&
        (r.Success? ==>
           r.value.GetKeyword() == listOfCommands.value[Upper(head)] &&
           r.value.GetRestOfCommand() == rest &&
           ' ' !in head &&
           (' ' in Trim(input) ==> Trim(input) == head + " " + rest) &&
           (' ' !in Trim(input) ==> Trim(input) == head && rest == "")) &&
        (r.Failure? ==> r.error == InvalidCommand)
    {
      var (head, rest) := SplitFirstSpace(Trim(input));
      SplitFirstSpaceJoin(Trim(input));
      var commandName := Upper(head);
      if commandName !in listOfCommands.value then Failure(InvalidCommand)
      else Success(Command(listOfCommands.value[commandName], rest))
    }

    /** `showError`: the exception's message as an error entry. */
    method ShowError(message: string)
      modifies this`dialog
      ensures dialog == old(dialog) + [Entry(IndentNewlines(message), true)]
    {
      FormatMessage(message, true);
    }

    /** `showAddTask`: the added task and the new total. */
    method ShowAddTask(task: Task, totalTasks: int)
      modifies this`dialog
      ensures dialog == old(dialog) + [Entry(IndentNewlines(AddedReply(task, totalTasks)), false)]
    {
      FormatMessage(AddedReply(task, totalTasks), false);
    }

    /** `showTasks`: "No task is found!" as an error for an empty list; otherwise one entry
        holding the header and a numbered line per task. */
    method ShowTasks(tasks: seq<Task>)
      modifies this`dialog
      ensures dialog == old(dialog) +
        [if |tasks| == 0 then Entry("No task is found!", true)
         else Entry(IndentNewlines(TaskListMessage(tasks)), false)]
    {
      var len := |tasks|;
      if len == 0 {
        FormatMessage("No task is found!", true);
        IndentWithoutNewline("No task is found!");
      } else {
        var isMoreThanOne := len > 1;
        var isOrAre := if isMoreThanOne then "are" else "is";
        var taskName := if isMoreThanOne then "tasks" else "task";
        var message := "Here " + isOrAre + " the matching " + taskName + " in your list:\n";
        var i := 0;
        while i < len
          invariant 0 <= i <= len
          invariant dialog == old(dialog)
          invariant message == JoinLines([Header(len)] + NumberedLines(tasks[..i]))
        {
          var line := NumberLine(i + 1, tasks[i]);
          assert tasks[..i + 1] == tasks[..i] + [tasks[i]];
          NumberedLinesSnoc(tasks[..i], tasks[i]);
          assert [Header(len)] + NumberedLines(tasks[..i + 1])
              == ([Header(len)] + NumberedLines(tasks[..i])) + [line];
          JoinLinesSnoc([Header(len)] + NumberedLines(tasks[..i]), line);
          message := message + line + "\n";
          i := i + 1;
        }
        assert tasks[..i] == tasks;
        FormatMessage(message, false);
      }
    }

    /** `showMarkedTask`: a "Nice! I've marked..." entry for a task, the error
        "There is no such task to mark!" for null. */
    method ShowMarkedTask(task: Option<Task>)
      modifies this`dialog
      ensures task.Some? ==> dialog == old(dialog) + [Entry(IndentNewlines(MarkedReply(task.value)), false)]
      ensures task.None? ==> dialog == old(dialog) + [Entry("There is no such task to mark!", true)]
    {
      if task.Some? {
        FormatMessage(MarkedReply(task.value), false);
      } else {
        FormatMessage("There is no such task to mark!", true);
        IndentWithoutNewline("There is no such task to mark!");
      }
    }

    /** `showDeletedTask`: the removed task and the remaining total, or the error
        "There is no such task to delete!" for null. */
    method ShowDeletedTask(task: Option<Task>, totalTasks: int)
      modifies this`dialog
      ensures task.Some? ==>
        dialog == old(dialog) + [Entry(IndentNewlines(RemovedReply(task.value, totalTasks)), false)]
      ensures task.None? ==> dialog == old(dialog) + [Entry("There is no such task to delete!", true)]
    {
      if task.Some? {
        FormatMessage(RemovedReply(task.value, totalTasks), false);
      } else {
        FormatMessage("There is no such task to delete!", true);
        IndentWithoutNewline("There is no such task to delete!");
      }
    }

    /** `showNoKeyword`: FIND without a keyword. */
    method ShowNoKeyword()
      modifies this`dialog
      ensures dialog == old(dialog) + [Entry("There is no keyword to search for!", true)]
    {
      FormatMessage("There is no keyword to search for!", true);
      IndentWithoutNewline("There is no keyword to search for!");
    }

    /** `showFilteredTasks`: the same reply as `showTasks`. */
    method ShowFilteredTasks(tasks: seq<Task>)
      modifies this`dialog
      ensures dialog == old(dialog) +
        [if |tasks| == 0 then Entry("No task is found!", true)
         else Entry(IndentNewlines(TaskListMessage(tasks)), false)]
    {
      ShowTasks(tasks);
    }
  }
}

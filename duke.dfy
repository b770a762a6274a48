/** The command-line engine of Duke.java: an ordered task list changed by seven keywords.
    Console output is the sequence `output` of the messages given to `printMessage`, in
    order; each is printed as the line `Display(message)`. The text that `sc.nextLine()`
    returns after the keyword is the `restOfLine` parameter. */
module Duke {
  import opened Text
  import opened Tasks
  import opened Replies

  /** The keywords of the command-line engine's `Command` enum. */
  datatype Keyword = Todo | Deadline | Event | List | Done | Delete | Bye

  function KeywordName(k: Keyword): string
  {
    match k
    case Todo => "TODO"
    case Deadline => "DEADLINE"
    case Event => "EVENT"
    case List => "LIST"
    case Done => "DONE"
    case Delete => "DELETE"
    case Bye => "BYE"
  }

  /** `Command.valueOf(token.toUpperCase())`, with `None` for the
      `IllegalArgumentException` of an unknown name. */
  function ParseKeyword(token: string): (r: Option<Keyword>)
    ensures r.Some? ==> KeywordName(r.value) == Upper(token)
    ensures r.None? ==> forall k: Keyword :: KeywordName(k) != Upper(token)
  {
    var u := Upper(token);
    if u == "TODO" then Some(Todo)
    else if u == "DEADLINE" then Some(Deadline)
    else if u == "EVENT" then Some(Event)
    else if u == "LIST" then Some(List)
    else if u == "DONE" then Some(Done)
    else if u == "DELETE" then Some(Delete)
    else if u == "BYE" then Some(Bye)
    else None
  }

  /** Every keyword is recognised under its own name, in any letter case of that name:
      "todo", "Todo" and "TODO" all give TODO. */
  lemma ParseKeywordName(k: Keyword, token: string)
    requires SameIgnoringCase(token, KeywordName(k))
    ensures ParseKeyword(token) == Some(k)
  {
    UpperMatchesIgnoringCase(token, KeywordName(k));
  }

  // ------------------------------------------------------------ indices

  const MaxInt: int := 2147483647

  /** `stringToInt`: the `\d+` check, then `Integer.parseInt`. A digit string beyond the
      `int` range fails like a non-digit payload. */
  function StringToInt(description: string): (r: Result<int>)
    ensures r.Success? <==> IsDigits(description) && DigitsValue(description) <= MaxInt
    ensures r.Success? ==> 0 <= r.value <= MaxInt && r.value == DigitsValue(description)
    ensures r.Failure? ==> r.error == InvalidCommand
  {
    if IsDigits(description) && DigitsValue(description) <= MaxInt then Success(DigitsValue(description))
    else Failure(InvalidCommand)
  }

  /** Printing a number and reading it back gives the number; "0" reads as 0, which
      DONE and DELETE turn into the position -1. */
  lemma StringToIntReadsNumber(n: nat)
    requires n <= MaxInt
    ensures StringToInt(NatToString(n)) == Success(n)
    ensures StringToInt("0") == Success(0)
  {
    assert NatToString(0) == "0";
  }

  // ------------------------------------------- the "/by" and "/at" patterns

  /** One way the regular expression `[^ ].* <sep> *[^ ].*` matches the whole of `s`:
      " " + sep starts at index `k`, spaces follow, and `s[m]` is the first non-space
      after them. `.` is taken to match any character: the payload comes from one
      input line, so no line terminator can be in it. */
  ghost predicate SeparatorMatchAt(s: string, sep: string, k: nat, m: nat)
  {
    1 <= k && k + 1 + |sep| <= m < |s| &&
    s[k..k + 1 + |sep|] == " " + sep &&
    (forall j :: k + 1 + |sep| <= j < m ==> s[j] == ' ') &&
    s[m] != ' '
  }

  /** `s.matches("[^ ].* " + sep + " *[^ ].*")`. */
  ghost predicate PatternMatches(s: string, sep: string)
  {
    |s| > 0 && s[0] != ' ' && exists k: nat, m: nat :: SeparatorMatchAt(s, sep, k, m)
  }

  ghost predicate SpaceRun(s: string, i: nat, m: nat)
  {
    i <= m < |s| && (forall j :: i <= j < m ==> s[j] == ' ') && s[m] != ' '
  }

  /** ` *[^ ]` can match starting at `i`. */
  function SpacesThenNonSpace(s: string, i: nat): (b: bool)
    requires i <= |s|
    ensures b <==> exists m: nat :: SpaceRun(s, i, m)
    decreases |s| - i
  {
    if i == |s| then false
    else if s[i] != ' ' then
      assert SpaceRun(s, i, i);
      true
    else
      var b := SpacesThenNonSpace(s, i + 1);
      assert b ==> exists m: nat :: SpaceRun(s, i, m) by {
        if b {
          var m: nat :| SpaceRun(s, i + 1, m);
          assert SpaceRun(s, i, m);
        }
      }
      assert (exists m: nat :: SpaceRun(s, i, m)) ==> b by {
        if m: nat :| SpaceRun(s, i, m) {
          assert m != i;
          assert SpaceRun(s, i + 1, m);
        }
      }
      b
  }

  /** ` <sep> *[^ ]` can match starting at some index from `k` on. */
  function SeparatorFrom(s: string, sep: string, k: nat): (b: bool)
    requires 1 <= k <= |s|
    ensures b <==> exists k': nat, m: nat :: k <= k' && SeparatorMatchAt(s, sep, k', m)
    decreases |s| - k
  {
    if k + 1 + |sep| > |s| then
      assert forall k': nat, m: nat :: k <= k' ==> !SeparatorMatchAt(s, sep, k', m);
      false
    else
      var here := s[k..k + 1 + |sep|] == " " + sep && SpacesThenNonSpace(s, k + 1 + |sep|);
      var later := SeparatorFrom(s, sep, k + 1);
      assert here ==> exists m: nat :: SeparatorMatchAt(s, sep, k, m) by {
        if here {
          var m: nat :| SpaceRun(s, k + 1 + |sep|, m);
          assert SeparatorMatchAt(s, sep, k, m);
        }
      }
      assert (exists k': nat, m: nat :: k <= k' && SeparatorMatchAt(s, sep, k', m)) ==> here || later by {
        if k': nat, m: nat :| k <= k' && SeparatorMatchAt(s, sep, k', m) {
          if k' == k {
            assert SpaceRun(s, k + 1 + |sep|, m);
          }
        }
      }
      here || later
  }

  /** The regular-expression check of `addTask`. */
  function Matches(s: string, sep: string): (b: bool)
    ensures b <==> PatternMatches(s, sep)
  {
    |s| > 0 && s[0] != ' ' && SeparatorFrom(s, sep, 1)
  }

  /** Where the pattern matches, the first occurrence of `sep` ends before the last
      character: it lies no later than the one the pattern found. */
  lemma MatchHasSeparator(s: string, sep: string)
    requires PatternMatches(s, sep)
    ensures 0 <= IndexOf(s, sep) && IndexOf(s, sep) + |sep| < |s|
  {
    var k: nat, m: nat :| SeparatorMatchAt(s, sep, k, m);
    assert s[k + 1..k + 1 + |sep|] == (" " + sep)[1..] == sep;
    assert OccursAt(s, sep, k + 1);
  }

  /** `indexOf(sep)` and the two trimmed `substring`s: (task detail, marker). */
  function SplitAt(s: string, sep: string): (parts: (string, string))
    requires Matches(s, sep)
  {
    MatchHasSeparator(s, sep);
    var i := IndexOf(s, sep);
    (Trim(s[..i]), Trim(s[i + |sep|..]))
  }

  /** On a trimmed payload that matches, the marker is never empty, and the detail is empty
      exactly when the payload starts with the separator itself. */
  lemma SplitParts(s: string, sep: string)
    requires IsTrimmed(s) && Matches(s, sep)
    ensures SplitAt(s, sep).1 != []
    ensures SplitAt(s, sep).0 == [] <==> OccursAt(s, sep, 0)
  {
    MatchHasSeparator(s, sep);
    var i := IndexOf(s, sep);
    var tail := s[i + |sep|..];
    assert tail[|tail| - 1] == s[|s| - 1];
    assert !IsBlank(tail[|tail| - 1]);
    if i > 0 {
      var head := s[..i];
      assert head[0] == s[0];
      assert !IsBlank(head[0]);
      assert !OccursAt(s, sep, 0);
    }
  }

  /** The validation half of `addTask`: the task it would add, or the exception it throws.
      A malformed EVENT payload is reported with the tag "deadline", as in the source. */
  function NewTask(description: string, command: Keyword): (r: Result<Task>)
    ensures command == Todo ==>
      (r.Success? <==> description != "") &&
      (r.Success? ==> r.value == NewTodo(description)) &&
      (r.Failure? ==> r.error == IncompleteDescription("todo"))
    ensures command == Deadline ==>
      (r.Success? <==> PatternMatches(description, "/by")) &&
      (r.Success? ==> r.value == NewDeadline(SplitAt(description, "/by").0, SplitAt(description, "/by").1)) &&
      (r.Failure? ==> r.error == IncompleteDescription("deadline"))
    ensures command == Event ==>
      (r.Success? <==> PatternMatches(description, "/at")) &&
      (r.Success? ==> r.value == NewEvent(SplitAt(description, "/at").0, SplitAt(description, "/at").1)) &&
      (r.Failure? ==> r.error == IncompleteDescription("deadline"))
    ensures command !in {Todo, Deadline, Event} ==> r == Failure(InvalidCommand)
  {
    match command
    case Todo =>
      if description != "" then Success(NewTodo(description))
      else Failure(IncompleteDescription("todo"))
    case Deadline =>
      if Matches(description, "/by") then
        var (detail, due) := SplitAt(description, "/by");
        Success(NewDeadline(detail, due))
      else Failure(IncompleteDescription("deadline"))
    case Event =>
      if Matches(description, "/at") then
        var (detail, window) := SplitAt(description, "/at");
        Success(NewEvent(detail, window))
      else Failure(IncompleteDescription("deadline"))
    case _ => Failure(InvalidCommand)
  }

  /** A task added from a trimmed payload: a todo keeps the whole payload as its
      description; a deadline or event always has a non-empty marker, and its description
      is empty only when the payload starts with the separator. */
  lemma NewTaskFields(description: string, command: Keyword)
    requires IsTrimmed(description)
    requires NewTask(description, command).Success?
    ensures var t := NewTask(description, command).value;
      !t.done &&
      (command == Todo ==> t.kind == TodoKind && t.description == description != "") &&
      (command == Deadline ==>
         t.kind == DeadlineKind && t.marker.Some? && t.marker.value != [] &&
         (t.description == [] <==> OccursAt(description, "/by", 0))) &&
      (command == Event ==>
         t.kind == EventKind && t.marker.Some? && t.marker.value != [] &&
         (t.description == [] <==> OccursAt(description, "/at", 0)))
  {
    if command == Deadline {
      SplitParts(description, "/by");
    } else if command == Event {
      SplitParts(description, "/at");
    }
  }

  // ------------------------------------------------ effects on the list

  /** The console text `printMessage` writes for a message: a tab, then the message with a
      tab after each newline. */
  function Display(message: string): string
  {
    "\t" + IndentNewlines(message)
  }

  /** The printed text determines the message: dropping the leading tab and the tabs after
      newlines gives it back. */
  lemma DisplayDeterminesMessage(message: string)
    ensures Display(message)[0] == '\t'
    ensures UnindentNewlines(Display(message)[1..]) == message
  {
    assert Display(message)[1..] == IndentNewlines(message);
    IndentRoundTrip(message);
  }

  /** The list after `markTask(index)`. */
  function MarkedTasks(ts: seq<Task>, index: int): (r: seq<Task>)
    ensures |r| == |ts|
  {
    if 0 <= index < |ts| then ts[index := MarkAsDone(ts[index])] else ts
  }

  /** The message `markTask(index)` prints. */
  function MarkReply(ts: seq<Task>, index: int): string
  {
    if 0 <= index < |ts| then MarkedReply(MarkAsDone(ts[index])) else "There is no such task!"
  }

  /** The list after `deleteTask(index)`. */
  function RemainingTasks(ts: seq<Task>, index: int): (r: seq<Task>)
    ensures |r| == if 0 <= index < |ts| then |ts| - 1 else |ts|
  {
    if 0 <= index < |ts| then ts[..index] + ts[index + 1..] else ts
  }

  /** The message `deleteTask(index)` prints: the removed task and the new size. */
  function DeleteReply(ts: seq<Task>, index: int): string
  {
    if 0 <= index < |ts| then RemovedReply(ts[index], |ts| - 1) else "There is no such task to delete!"
  }

  /** The messages `displayTasks` prints. */
  function ListingOutput(ts: seq<Task>): seq<string>
  {
    if |ts| == 0 then ["You have no task!"] else NumberedLines(ts)
  }

  /** Marking keeps the length and changes only the done flag of the task at `index`;
      out of range it changes nothing. Marking the same position again changes nothing
      more and prints the same reply. */
  lemma MarkedTasksSpec(ts: seq<Task>, index: int)
    ensures var r := MarkedTasks(ts, index);
      |r| == |ts| &&
      (forall j :: 0 <= j < |ts| && j != index ==> r[j] == ts[j]) &&
      (0 <= index < |ts| ==> r[index].done && r[index] == ts[index].(done := true)) &&
      (!(0 <= index < |ts|) ==> r == ts && MarkReply(ts, index) == "There is no such task!")
    ensures MarkedTasks(MarkedTasks(ts, index), index) == MarkedTasks(ts, index)
    ensures MarkReply(MarkedTasks(ts, index), index) == MarkReply(ts, index)
  {
  }

  /** Deleting position `index` removes exactly that task: earlier tasks keep their
      positions, later ones move down by one, and no other task is lost. */
  lemma RemainingTasksSpec(ts: seq<Task>, index: int)
    ensures var r := RemainingTasks(ts, index);
      (0 <= index < |ts| ==>
         |r| == |ts| - 1 &&
         (forall j :: 0 <= j < index ==> r[j] == ts[j]) &&
         (forall j :: index <= j < |r| ==> r[j] == ts[j + 1]) &&
         multiset(r) + multiset{ts[index]} == multiset(ts)) &&
      (!(0 <= index < |ts|) ==> r == ts && DeleteReply(ts, index) == "There is no such task to delete!")
  {
    if 0 <= index < |ts| {
      assert ts == ts[..index] + [ts[index]] + ts[index + 1..];
    }
  }

  /** After a delete, the listing numbers every later task one lower than before. */
  lemma ListingAfterDelete(ts: seq<Task>, index: int, j: int)
    requires 0 <= index <= j < |ts| - 1
    ensures NumberedLines(RemainingTasks(ts, index))[j] == NumberLine(j + 1, ts[j + 1])
  {
    RemainingTasksSpec(ts, index);
  }

  /** What one command does: the answer of `receiveCommand` (false only to stop), the
      task list after it and the lines it prints. */
  datatype Outcome = Outcome(result: Result<bool>, tasks: seq<Task>, printed: seq<string>)

  /** `receiveCommand` on the list `ts` with the trimmed payload `description`. */
  function Receive(ts: seq<Task>, command: Keyword, description: string): Outcome
  {
    match command
    case Todo | Deadline | Event => AddOutcome(ts, description, command)
    case List =>
      if description == "" then Outcome(Success(true), ts, ListingOutput(ts))
      else Outcome(Failure(InvalidCommand), ts, [])
    case Done => MarkOutcome(ts, description)
    case Delete => DeleteOutcome(ts, description)
    case Bye =>
      if description == "" then Outcome(Success(false), ts, [])
      else Outcome(Failure(InvalidCommand), ts, [])
  }

  /** TODO, DEADLINE and EVENT: `addTask`. */
  function AddOutcome(ts: seq<Task>, description: string, command: Keyword): Outcome
  {
    var n := NewTask(description, command);
    if n.Failure? then Outcome(Failure(n.error), ts, [])
    else Outcome(Success(true), ts + [n.value], [AddedReply(n.value, |ts| + 1)])
  }

  /** DONE: `stringToInt`, then `markTask` at the number minus one. */
  function MarkOutcome(ts: seq<Task>, description: string): Outcome
  {
    var n := StringToInt(description);
    if n.Failure? then Outcome(Failure(n.error), ts, [])
    else Outcome(Success(true), MarkedTasks(ts, n.value - 1), [MarkReply(ts, n.value - 1)])
  }

  /** DELETE: `stringToInt`, then `deleteTask` at the number minus one. */
  function DeleteOutcome(ts: seq<Task>, description: string): Outcome
  {
    var n := StringToInt(description);
    if n.Failure? then Outcome(Failure(n.error), ts, [])
    else Outcome(Success(true), RemainingTasks(ts, n.value - 1), [DeleteReply(ts, n.value - 1)])
  }

  /** Validation comes strictly before mutation: a command that fails leaves the list as it
      was and prints nothing (the caller prints the exception's message). */
  lemma FailureChangesNothing(ts: seq<Task>, command: Keyword, description: string)
    requires Receive(ts, command, description).result.Failure?
    ensures Receive(ts, command, description).tasks == ts
    ensures Receive(ts, command, description).printed == []
  {
  }

  /** Only BYE with an empty payload stops the session. */
  lemma OnlyByeStops(ts: seq<Task>, command: Keyword, description: string)
    ensures Receive(ts, command, description).result == Success(false) <==> command == Bye && description == ""
  {
  }

  /** A successful command changes the number of tasks by exactly one or not at all: adding
      grows it by one, a delete in range shrinks it by one, the rest keep it. */
  lemma SizeChangesByAtMostOne(ts: seq<Task>, command: Keyword, description: string)
    requires Receive(ts, command, description).result.Success?
    ensures var n := |Receive(ts, command, description).tasks|;
      (command in {Todo, Deadline, Event} ==> n == |ts| + 1) &&
      (command in {List, Done, Bye} ==> n == |ts|) &&
      (command == Delete ==> n == |ts| - 1 || n == |ts|)
  {
  }

  /** LIST and BYE take no payload: any text after them is an invalid command. DONE and
      DELETE accept only a payload of digits within the `int` range. */
  lemma StrictPayloads(ts: seq<Task>, command: Keyword, description: string)
    ensures command in {List, Bye} && description != "" ==>
      Receive(ts, command, description).result == Failure(InvalidCommand)
    ensures command in {Done, Delete} ==>
      (Receive(ts, command, description).result.Failure? <==> StringToInt(description).Failure?)
  {
  }

  /** Whatever the keyword, a successful command prints something, except BYE. */
  lemma SuccessPrints(ts: seq<Task>, command: Keyword, description: string)
    requires Receive(ts, command, description).result == Success(true)
    ensures |Receive(ts, command, description).printed| >= 1
  {
  }

  /** The number the listing shows in front of a task, typed after DONE or DELETE, passes
      `stringToInt` and addresses that very task: line k of the listing is `k+1.<task k>`,
      and DONE or DELETE with the payload "k+1" marks or removes position k. A Java list
      holds at most `MaxInt` tasks, so every listed number is within the `int` range. */
  lemma ListedNumberAddressesTask(ts: seq<Task>, k: nat)
    requires k < |ts| && k < MaxInt
    ensures NumberedLines(ts)[k] == NatToString(k + 1) + "." + Render(ts[k])
    ensures StringToInt(NatToString(k + 1)) == Success(k + 1)
    ensures MarkOutcome(ts, NatToString(k + 1)).tasks == MarkedTasks(ts, k)
    ensures DeleteOutcome(ts, NatToString(k + 1)).tasks == RemainingTasks(ts, k)
  {
    StringToIntReadsNumber(k + 1);
  }

  /** A DEADLINE or EVENT that `receiveCommand` accepts appends, from whatever line was
      typed, a task with a non-empty marker: the payload is trimmed before it is split. */
  lemma AcceptedTaskHasMarker(ts: seq<Task>, command: Keyword, line: string)
    requires command == Deadline || command == Event
    requires Receive(ts, command, Trim(line)).result.Success?
    ensures var r := Receive(ts, command, Trim(line)).tasks;
      |r| == |ts| + 1 && r[..|ts|] == ts && r[|ts|].marker.Some? && r[|ts|].marker.value != []
  {
    TrimIdempotent(line);
    NewTaskFields(Trim(line), command);
    assert (ts + [NewTask(Trim(line), command).value])[..|ts|] == ts;
  }

  // ------------------------------------------------------------- engine

  class Duke {
    var tasks: seq<Task>
    var output: seq<string>

    constructor ()
      ensures tasks == [] && output == []
    {
      tasks := [];
      output := [];
    }

    /** `printMessage`: one more message on the console, printed as `Display(message)`. */
    method PrintMessage(message: string)
      modifies this`output
      ensures output == old(output) + [message]
    {
      output := output + [message];
    }

    /** `receiveCommand`: trims the rest of the line and dispatches on the keyword; the
        answer, the new list and the printed lines are those of `Receive`. */
    method ReceiveCommand(command: Keyword, restOfLine: string) returns (r: Result<bool>)
      modifies this
      ensures var o := Receive(old(tasks), command, Trim(restOfLine));
        r == o.result && tasks == o.tasks && output == old(output) + o.printed
    {
      var description := Trim(restOfLine);
      r := Success(true);
      match command
      case Todo | Deadline | Event =>
        var added := AddTask(description, command);
        if added.Failure? { r := Failure(added.error); }
      case List =>
        if description == "" {
          DisplayTasks();
        } else {
          r := Failure(InvalidCommand);
        }
      case Done =>
        var n := StringToInt(description);
        if n.Failure? {
          r := Failure(n.error);
        } else {
          MarkTask(n.value - 1);
        }
      case Delete =>
        var n := StringToInt(description);
        if n.Failure? {
          r := Failure(n.error);
        } else {
          DeleteTask(n.value - 1);
        }
      case Bye =>
        if description == "" {
          r := Success(false);
        } else {
          r := Failure(InvalidCommand);
        }
    }

    /** `displayTasks`: "You have no task!" for an empty list, otherwise one printed line
        `i.<task>` per task, numbered from 1 in list order. */
    method DisplayTasks()
      modifies this`output
      ensures output == old(output) + ListingOutput(tasks)
    {
      var len := |tasks|;
      if len == 0 {
        PrintMessage("You have no task!");
      } else {
        var i := 0;
        while i < len
          invariant 0 <= i <= len
          invariant output == old(output) + NumberedLines(tasks[..i])
        {
          PrintMessage(NumberLine(i + 1, tasks[i]));
          assert tasks[..i + 1] == tasks[..i] + [tasks[i]];
          NumberedLinesSnoc(tasks[..i], tasks[i]);
          i := i + 1;
        }
        assert tasks[..i] == tasks;
      }
    }

    /** `markTask`: marks the task at `index` done, or reports that there is none. */
    method MarkTask(index: int)
      modifies this
      ensures tasks == MarkedTasks(old(tasks), index)
      ensures output == old(output) + [MarkReply(old(tasks), index)]
    {
      if 0 <= index < |tasks| {
        var task := MarkAsDone(tasks[index]);
        tasks := tasks[index := task];
        PrintMessage(MarkedReply(task));
      } else {
        PrintMessage("There is no such task!");
      }
    }

    /** `addTask`: validates the payload, then appends the new task at the end and reports
        the new size; on a failure nothing changes. */
    method AddTask(description: string, command: Keyword) returns (r: Result<()>)
      modifies this
      ensures r.Success? <==> NewTask(description, command).Success?
      ensures r.Failure? ==>
        r.error == NewTask(description, command).error && tasks == old(tasks) && output == old(output)
      ensures r.Success? ==>
        tasks == old(tasks) + [NewTask(description, command).value] &&
        output == old(output) + [AddedReply(NewTask(description, command).value, |old(tasks)| + 1)]
    {
      var task := NewTask(description, command);
      if task.Failure? {
        return Failure(task.error);
      }
      tasks := tasks + [task.value];
      PrintMessage(AddedReply(task.value, |tasks|));
      r := Success(());
    }

    /** `deleteTask`: removes the task at `index` and reports it with the new size, or
        reports that there is none. */
    method DeleteTask(index: int)
      modifies this
      ensures tasks == RemainingTasks(old(tasks), index)
      ensures output == old(output) + [DeleteReply(old(tasks), index)]
    {
      if 0 <= index < |tasks| {
        var task := tasks[index];
        tasks := tasks[..index] + tasks[index + 1..];
        PrintMessage(RemovedReply(task, |tasks|));
      } else {
        PrintMessage("There is no such task to delete!");
      }
    }
  }
}

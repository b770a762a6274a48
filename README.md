# Duke task tracker: command engine, reply builder and command value

This project models the core of a small Java task tracker called Duke. It has three parts.

- **The command-line engine (`Duke.java`).** The engine owns an ordered list of tasks and
  reacts to seven keywords: TODO, DEADLINE, EVENT, LIST, DONE, DELETE and BYE. The rules:
  - The payload after the keyword is trimmed.
  - TODO, DEADLINE and EVENT check the payload and append one task at the end.
  - DEADLINE and EVENT split the payload at the first `/by` or `/at`, after a regular-expression check.
  - DONE and DELETE read a 1-based number and mark or remove the task at that position.
    An out-of-range number prints a "no such task" message. It is not an exception.
  - LIST prints the numbered listing.
  - BYE stops the session.

  The class `Duke.Duke` holds the list as the field `tasks`. The messages handed to
  `printMessage` go, in order, into the field `output`. `Duke.Receive` is the reference
  definition of one command: its answer, the new list and the printed messages.
  `ReceiveCommand` is proved to agree with it.
- **The GUI's parser and reply builder (`duke/ui/Ui.java`).**
  - `readCommand` trims the input, splits it at the first space, upper-cases the keyword and
    looks it up in the keyword map.
  - The `show*` methods add exactly one dialog entry per call.
  - The JavaFX dialog container is the field `dialog`: a sequence of entries, each with its
    text and whether it is shown as an error.
- **The immutable `Command` value (`duke/command/Command.java`).** It is a datatype with its
  two getters.

Several Java library operations are written out with the semantics the code relies on
(module `Text`):
- `String.trim` removes every character up to U+0020.
- `\d+` matches ASCII digits, read by `Integer.parseInt`.
- `String.indexOf`.
- `split(" ", 2)`.
- `toUpperCase`, over ASCII.
- `replaceAll("\n", "\n\t")`.

The regular expression `[^ ].* /by *[^ ].*`, and its `/at` twin, is a Dafny predicate,
`Duke.PatternMatches`. `Duke.Matches` is a function proved equal to it. In the expression,
`.` matches any character: a payload comes from a single input line, so it holds no line
terminator.

## Model

| member | source | states |
|---|---|---|
| Commands.Command.GetKeyword | src/main/java/duke/command/Command.java:26-28 | the keyword, together with the other getter, rebuilds the command: it is the keyword given to the constructor |
| Commands.Command.GetRestOfCommand | src/main/java/duke/command/Command.java:35-37 | the rest of the command is the constructor's text verbatim, with no trimming or parsing |
| Commands.GettersReturnConstructorArguments | src/main/java/duke/command/Command.java:16-37 | the getters return exactly the constructor arguments; two commands are equal exactly when both getters agree (the value is immutable) |
| Text.Trim | src/main/java/Duke.java:42 | the trimmed payload is no longer than the input; it is empty exactly when every input character is blank; otherwise it starts and ends with a non-blank character |
| Text.TrimRemovesOnlyBlankEnds | src/main/java/Duke.java:42 | the trimmed payload is the input with blank characters removed at its two ends only: a slice of the input with nothing but characters up to U+0020 before and after it |
| Text.TrimIdempotent | src/main/java/Duke.java:42 | the payload `receiveCommand` passes on is trimmed, which `Duke.AcceptedTaskHasMarker` uses to reach `Duke.NewTaskFields`, and trimming it again changes nothing |
| Text.IndexOf | src/main/java/Duke.java:125 | `indexOf` gives -1 exactly when the pattern never occurs; otherwise it gives an index where the pattern occurs, with no occurrence before it |
| Text.SplitFirstSpaceJoin | src/main/java/duke/ui/Ui.java:91-97 | the head of `split(" ", 2)` holds no space; if the input has a space, head + " " + rest is the input, otherwise the head is the input and the rest is "" |
| Text.UpperMatchesIgnoringCase | src/main/java/duke/ui/Ui.java:92 | against a name without lower-case letters, the upper-cased text equals the name exactly when the text spells the name up to the case of ASCII letters |
| Text.NatToString | src/main/java/Duke.java:98 | `%d` of a number is a digit string, with no leading zero, that reads back as the number |
| Text.IntToString | src/main/java/Duke.java:148-150 | `%d` of the task total is a digit string that reads back as the total, after a minus sign when the number is negative |
| Text.IndentRoundTrip | src/main/java/duke/ui/Ui.java:31 | the newline-to-newline-tab rewrite loses nothing: removing the inserted tabs gives the message back |
| Text.IndentWithoutNewline | src/main/java/duke/ui/Ui.java:31 | the rewrite leaves text without a newline unchanged |
| Tasks.MarkAsDone | src/main/java/Duke.java:106 | marking sets the done flag and keeps kind, description and marker |
| Replies.NumberedLines | src/main/java/Duke.java:95-99 | the listing has one line per task |
| Replies.NumberedLinesSnoc | src/main/java/Duke.java:95-99 | listing one more task adds one line, numbered with the new size, at the end and keeps the earlier lines |
| Duke.ParseKeyword | src/main/java/Duke.java:14 | `Command.valueOf(token.toUpperCase())` gives the keyword whose name is the upper-cased token; it fails exactly when no keyword has that name |
| Duke.ParseKeywordName | src/main/java/Duke.java:14 | a token that spells a keyword's name in any mix of letter case (case compared without upper-casing) parses to that keyword |
| Duke.StringToInt | src/main/java/Duke.java:78-84 | a value is returned exactly for a non-empty all-digit payload within the `int` range, and it is the number the digits denote; anything else is an invalid command |
| Duke.StringToIntReadsNumber | src/main/java/Duke.java:78-84 | printing a number and reading it back gives the number; "0" reads as 0, which DONE and DELETE turn into position -1 |
| Duke.SpacesThenNonSpace | src/main/java/Duke.java:124 | the scan succeeds exactly when a run of spaces followed by a non-space starts at the position |
| Duke.SeparatorFrom | src/main/java/Duke.java:124 | the scan succeeds exactly when " /by", then spaces, then a non-space occur at or after the position |
| Duke.Matches | src/main/java/Duke.java:124 | the check is exactly the regular expression `[^ ].* <sep> *[^ ].*` over the whole payload |
| Duke.MatchHasSeparator | src/main/java/Duke.java:124-127 | on a matching payload the first `/by` exists and ends before the last character, so both `substring` calls are in range |
| Duke.SplitParts | src/main/java/Duke.java:124-128 | on a trimmed matching payload the marker is never empty, and the detail is empty exactly when the payload starts with the separator |
| Duke.NewTask | src/main/java/Duke.java:113-146 | TODO succeeds exactly on a non-empty payload, otherwise it fails tagged "todo"; DEADLINE and EVENT succeed exactly when the pattern matches and store the trimmed detail and marker, otherwise they fail tagged "deadline"; other keywords are invalid commands |
| Duke.NewTaskFields | src/main/java/Duke.java:116-142 | a new task is not done; a todo keeps the whole payload; a deadline or event has the right kind and a non-empty marker, and its description is empty exactly when the payload starts with the separator |
| Duke.AcceptedTaskHasMarker | src/main/java/Duke.java:42-47 | a DEADLINE or EVENT that `receiveCommand` accepts, whatever line was typed, keeps the old tasks and appends one task with a non-empty marker |
| Duke.DisplayDeterminesMessage | src/main/java/Duke.java:28-31 | the printed line starts with a tab, and removing that tab and the tabs after newlines gives the message back |
| Duke.MarkedTasks | src/main/java/Duke.java:103-111 | marking never changes the number of tasks |
| Duke.MarkedTasksSpec | src/main/java/Duke.java:103-111 | in range, only the done flag of the task at the index changes; out of range (including index -1) nothing changes and "There is no such task!" is printed; marking twice is marking once |
| Duke.RemainingTasks | src/main/java/Duke.java:153-162 | a delete in range shrinks the list by one; out of range it keeps the length |
| Duke.RemainingTasksSpec | src/main/java/Duke.java:153-162 | in range, exactly the task at the index is removed: earlier tasks stay, later ones shift down by one, and the multiset loses just that task; out of range nothing changes and "There is no such task to delete!" is printed |
| Duke.ListingAfterDelete | src/main/java/Duke.java:153-158 | after a delete, every later task is listed with a number one lower than before |
| Duke.ListedNumberAddressesTask | src/main/java/Duke.java:56-62 | line k of the listing is `k+1.<task k>`; the payload "k+1" passes `stringToInt` with value k+1, so DONE marks and DELETE removes exactly position k |
| Duke.FailureChangesNothing | src/main/java/Duke.java:40-76 | validation comes before mutation: a command that fails leaves the list unchanged and prints nothing |
| Duke.OnlyByeStops | src/main/java/Duke.java:64-75 | the engine answers `false` exactly for BYE with an empty payload |
| Duke.SizeChangesByAtMostOne | src/main/java/Duke.java:40-76 | a successful add grows the list by one, a delete shrinks it by one or keeps it, and every other command keeps its size |
| Duke.StrictPayloads | src/main/java/Duke.java:49-70 | LIST and BYE with a payload are invalid commands; DONE and DELETE fail exactly when `stringToInt` fails |
| Duke.SuccessPrints | src/main/java/Duke.java:40-76 | every successful command except BYE prints at least one message |
| Duke.Duke.constructor | src/main/java/Duke.java:5 | a new engine has no tasks and has printed nothing |
| Duke.Duke.PrintMessage | src/main/java/Duke.java:28-31 | one more message on the console, after the earlier ones |
| Duke.Duke.ReceiveCommand | src/main/java/Duke.java:40-76 | the answer, the new list and the printed messages are those of `Receive` on the old list and the trimmed payload |
| Duke.Duke.DisplayTasks | src/main/java/Duke.java:90-101 | prints "You have no task!" for an empty list, otherwise one line `i.<task>` per task with i = 1..n in list order |
| Duke.Duke.MarkTask | src/main/java/Duke.java:103-111 | the new list and the printed message are the marking of the old list at the index |
| Duke.Duke.AddTask | src/main/java/Duke.java:113-151 | succeeds exactly when validation does; on success it appends the new task at the end and reports the new size; on failure it throws the validation's exception and changes nothing |
| Duke.Duke.DeleteTask | src/main/java/Duke.java:153-162 | the new list and the printed message are the removal from the old list at the index, with the remaining size |
| Ui.JoinLinesSnoc | src/main/java/duke/ui/Ui.java:127-131 | appending one line to the lines appends that line and a newline to the message |
| Ui.HeaderSingleLine | src/main/java/duke/ui/Ui.java:123-126 | the listing header is a single line |
| Ui.SplitJoinLines | src/main/java/duke/ui/Ui.java:126-130 | lines joined with newline terminators are recovered by cutting at the newlines |
| Ui.TaskListLines | src/main/java/duke/ui/Ui.java:123-133 | cutting a listing of one-line tasks at its newlines gives the singular or plural header, then one line `i.<task>` per task with i = 1..n in order |
| Ui.Ui.constructor | src/main/java/duke/ui/Ui.java:26-28 | the dialog is the given container, and no keyword map is set yet |
| Ui.Ui.SetListOfCommands | src/main/java/duke/ui/Ui.java:182-184 | the keyword map is the one given |
| Ui.Ui.FormatMessage | src/main/java/duke/ui/Ui.java:30-38 | exactly one entry is appended: the message with a tab after every newline, flagged as an error exactly when asked; earlier entries are untouched |
| Ui.Ui.ReadCommand | src/main/java/duke/ui/Ui.java:90-99 | succeeds exactly when the upper-cased text before the first space of the trimmed input is a key of the map; the command then has that keyword and the text after the space, untrimmed, or "" when there is no space; an unknown keyword is an invalid command |
| Ui.Ui.ShowError | src/main/java/duke/ui/Ui.java:66-68 | one error entry holding the exception's message |
| Ui.Ui.ShowAddTask | src/main/java/duke/ui/Ui.java:107-111 | one non-error entry holding the added-task reply with the given total |
| Ui.Ui.ShowTasks | src/main/java/duke/ui/Ui.java:118-134 | an empty list gives the error entry "No task is found!"; otherwise one non-error entry holding the header and one numbered line per task |
| Ui.Ui.ShowMarkedTask | src/main/java/duke/ui/Ui.java:142-148 | a task gives a non-error "Nice! I've marked..." entry holding the task; null gives the error "There is no such task to mark!" |
| Ui.Ui.ShowDeletedTask | src/main/java/duke/ui/Ui.java:157-164 | a task gives a non-error removal entry holding the task and the total; null gives the error "There is no such task to delete!" |
| Ui.Ui.ShowNoKeyword | src/main/java/duke/ui/Ui.java:169-171 | one error entry "There is no keyword to search for!" |
| Ui.Ui.ShowFilteredTasks | src/main/java/duke/ui/Ui.java:178-180 | the same entry as `showTasks` on the filtered list |

The EVENT failure carries the tag "deadline", as in `Duke.java` at line 141. `Duke.NewTask`
keeps this.

## Left out

- `Duke.run`, the input loop at `Duke.java` lines 7-26, is not modelled:
  - The Scanner and its token reading are left out.
  - The two `catch` blocks are left out. `Duke.ParseKeyword` models the `Command.valueOf` lookup.
  - The text after the keyword is the `restOfLine` parameter of `ReceiveCommand`.
- `Duke.Duke.PrintMessage`: `System.out.println` is not modelled. `output` records the message,
  and `Duke.Display` gives the line printed for it.
- `Duke.StringToInt`: a digit string beyond the `int` range is an invalid command. In the source,
  `Integer.parseInt` throws `NumberFormatException` and `run` catches it with the same message.
  The extra input line that this catch discards is not modelled.
- `Text.Upper`: upper-casing covers ASCII letters only. Locale-dependent case mapping is not
  modelled.
- `Text.NatToString`: `%d` is taken to write ASCII digits. `String.format` uses the default
  locale's digits, and a locale with other digits is not modelled.
- `Duke.Matches`: only the two fixed patterns are modelled, not Java's general regex engine.
  In them, `.` is read as any character. That holds because a payload read by
  `Scanner.nextLine` holds none of the line terminators that `.` excludes (`\n`, `\r`,
  U+0085, U+2028, U+2029).
- The Task, Todo, Deadline and Event classes are not part of this model:
  - A task is a value with a kind, a description, a done flag and an optional marker.
  - `Tasks.Render` stands for its `toString`, in the `[T][X] text (by: marker)` form.
- `Duke.Duke.MarkTask`: the source marks the task object in place, so other references to the
  same object see the change. The model replaces the list element by its marked copy, so aliasing
  is not modelled.
- `Ui.Ui.ReadCommand`: requires the keyword map to be set. In the source, calling it before
  `setListOfCommands` throws a `NullPointerException`, which is not modelled.
- `Ui.Ui.ShowError`: takes the exception's message, not the exception.
- These fixed-text outputs are not modelled: `greetUser` and `exit` in `Duke.java`, and
  `greetUser`, `showFarewell` and `showLoadingError` in `Ui.java`.
- `showInput` in `Ui.java` is not modelled. It adds a dialog entry holding the user's own
  input to the same container. `dialog` holds Duke's replies only.
- The JavaFX parts are not modelled: dialog boxes, images, names and background colours.
  Each entry keeps only its text and its error flag.
- Java's 32-bit `int` for list sizes and positions is not modelled. Sizes are unbounded.
  `Duke.ListedNumberAddressesTask` therefore requires the position to be below `MaxInt`,
  which every Java list meets.

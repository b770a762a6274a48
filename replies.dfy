/** Reply texts, before the front-end's newline indentation. The command-line engine
    (Duke.java) and the GUI (Ui.java) word the add, mark and delete replies alike and
    number listed tasks alike, so both use the definitions here. */
module Replies {
  import opened Text
  import opened Tasks

  /** "Got it. I've added this task: ... Now you have N tasks in the list." */
  function AddedReply(t: Task, totalTasks: int): string
  {
    "Got it. I've added this task:\n\t" + Render(t) + "\nNow you have " + IntToString(totalTasks) + " tasks in the list."
  }

  /** "Nice! I've marked this task as done: ..." */
  function MarkedReply(t: Task): string
  {
    "Nice! I've marked this task as done: \n\t" + Render(t)
  }

  /** "Noted. I've removed this task: ... Now you have N tasks in the list." */
  function RemovedReply(t: Task, totalTasks: int): string
  {
    "Noted. I've removed this task: \n\t" + Render(t) + "\nNow you have " + IntToString(totalTasks) + " tasks in the list."
  }

  /** `String.format("%d.%s", n, task)`. */
  function NumberLine(n: nat, t: Task): string
  {
    NatToString(n) + "." + Render(t)
  }

  /** The listing of a task list: line k carries the 1-based number k + 1 and the task at
      position k, in list order. */
  function NumberedLines(ts: seq<Task>): (lines: seq<string>)
    ensures |lines| == |ts|
  {
    seq(|ts|, k requires 0 <= k < |ts| => NumberLine(k + 1, ts[k]))
  }

  /** Listing one more task adds one numbered line at the end and keeps the others. */
  lemma NumberedLinesSnoc(ts: seq<Task>, t: Task)
    ensures NumberedLines(ts + [t]) == NumberedLines(ts) + [NumberLine(|ts| + 1, t)]
  {
  }
}

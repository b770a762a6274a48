/** `duke.command.Command`: the parser's output, a keyword and the rest of the command.
    Both fields are private and written only by the constructor, so the Java object is an
    immutable value and a datatype models it. */
module Commands {

  /** The keywords of the GUI front-end. The `CommandKeyword` enum is not part of this
      model: its constants are taken to be the seven keywords of the command-line engine
      and FIND, the keyword `showNoKeyword` and `showFilteredTasks` serve. */
  datatype CommandKeyword = Todo | Deadline | Event | List | Done | Delete | Bye | Find

  datatype Command = Command(keyword: CommandKeyword, restOfCommand: string)
  {
    /** `getKeyword()`: the keyword given to the constructor; with the other getter it
        determines the command. */
    function GetKeyword(): (k: CommandKeyword)
      ensures this == Command(k, GetRestOfCommand())
    {
      keyword
    }

    /** `getRestOfCommand()`: the text given to the constructor, verbatim. */
    function GetRestOfCommand(): (rest: string)
      ensures this == Command(keyword, rest)
    {
      restOfCommand
    }
  }

  /** The getters give back exactly what the constructor was given, and two commands are
      the same exactly when both getters agree. */
  lemma GettersReturnConstructorArguments(k: CommandKeyword, rest: string, c: Command, d: Command)
    ensures Command(k, rest).GetKeyword() == k
    ensures Command(k, rest).GetRestOfCommand() == rest
    ensures c == d <==> c.GetKeyword() == d.GetKeyword() && c.GetRestOfCommand() == d.GetRestOfCommand()
  {
  }
}

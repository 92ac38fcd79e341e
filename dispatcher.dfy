/**
 * The dispatcher of the shell (execute_cmd in shell.cpp) and its table
 * of built-in commands. The built-ins in this program are stubs that
 * return 1 without doing anything; everything else goes to the launcher.
 */
module Dispatcher {
  import Tokenizer
  import opened Launcher

  /** The handlers of the built-in table. */
  datatype BuiltIn = Cd | Help | Exit

  /** built_in_cmds: the fixed table from command name to handler. */
  const BuiltInCmds: map<string, BuiltIn> := map["cd" := Cd, "help" := Help, "exit" := Exit]

  /** The table holds exactly the names cd, help and exit, spelled in lower case. */
  lemma BuiltInNames(name: string)
    ensures name in BuiltInCmds <==> name == "cd" || name == "help" || name == "exit"
  {
  }

  /** cmd_cd: a stub that changes no directory and reports success. */
  function CmdCd(args: seq<string>): (r: int)
    ensures r == 1
  {
    1
  }

  /** cmd_help: a stub that prints nothing and reports success. */
  function CmdHelp(args: seq<string>): (r: int)
    ensures r == 1
  {
    1
  }

  /** cmd_exit: a stub that does not leave the shell and reports success. */
  function CmdExit(args: seq<string>): (r: int)
    ensures r == 1
  {
    1
  }

  /** Calls the handler the table binds to a name. */
  function RunBuiltIn(b: BuiltIn, args: seq<string>): (r: int)
    ensures r == 1
  {
    match b
    case Cd => CmdCd(args)
    case Help => CmdHelp(args)
    case Exit => CmdExit(args)
  }

  /**
   * execute_cmd: an empty argument vector is a no-op returning 1; a
   * command name found in the table (exact match) runs its handler; any
   * other name is launched as an external program.
   */
  function ExecuteCmd(args: seq<string>, fork: ForkOutcome, waits: seq<WaitStatus>): (r: Outcome)
    ensures args == [] ==> r == Code(1)
    ensures args != [] && args[0] in BuiltInCmds ==> r == Code(1)
    ensures args != [] && args[0] !in BuiltInCmds ==> r == Launch(fork, waits)
  {
    if |args| == 0 then Code(1)
    else if args[0] in BuiltInCmds then Code(RunBuiltIn(BuiltInCmds[args[0]], args))
    else Launch(fork, waits)
  }

  /**
   * Neither an empty command nor a built-in consults the launcher: the
   * result does not depend on what fork and waitpid would do.
   */
  lemma NoLaunchForBuiltIns(args: seq<string>, f1: ForkOutcome, w1: seq<WaitStatus>,
                            f2: ForkOutcome, w2: seq<WaitStatus>)
    requires args == [] || args[0] in BuiltInCmds
    ensures ExecuteCmd(args, f1, w1) == ExecuteCmd(args, f2, w2) == Code(1)
  {
  }

  /** The lookup is case-sensitive: "CD" is not the built-in cd and is launched. */
  lemma LookupIsCaseSensitive(rest: seq<string>, fork: ForkOutcome, waits: seq<WaitStatus>)
    ensures ExecuteCmd(["CD"] + rest, fork, waits) == Launch(fork, waits)
  {
    BuiltInNames("CD");
  }

  /**
   * The dispatcher only ever reports 0 or 1: exit codes and signals of
   * external programs are collapsed (a program that fails still gives 1).
   */
  lemma ResultIsZeroOrOne(args: seq<string>, fork: ForkOutcome, waits: seq<WaitStatus>)
    ensures ExecuteCmd(args, fork, waits) in {Code(0), Code(1), StillWaiting}
  {
  }

  /**
   * A blank line (empty, or only delimiters) is tokenized to no
   * arguments and dispatched as the empty command.
   */
  lemma BlankLineIsNoOp(line: string, fork: ForkOutcome, waits: seq<WaitStatus>)
    requires Tokenizer.AllDelims(line)
    ensures ExecuteCmd(Tokenizer.Tokens(line), fork, waits) == Code(1)
  {
    Tokenizer.TokensEmptyIff(line);
  }
}

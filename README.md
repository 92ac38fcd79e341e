# shell-lite, modelled in Dafny

This project models the core of shell-lite, a minimal interactive shell
written in C++ (`shell.cpp`). Each input line is split into tokens. The
first token is looked up in a fixed table of built-in commands (`cd`,
`help`, `exit`). Anything else is started as an external program in a
child process, and the shell waits for that child to finish.

The model has three parts, one Dafny module each, plus a small helper
module:

- `Tokenizer` (`tokenizer.dfy`) covers `tokenize_line`. The call to
  `strtok` becomes the pure function `NextToken`, which returns where the
  next maximal run of non-delimiters lies. The growable token vector
  becomes the class `TokenVector`: an array of slots, the capacity
  `tokens_list_len` and the count `pos`. `TokenizeLine` runs the
  `while (token)` loop (in `SplitLine`) and is proved to store exactly the tokens of the
  line up to its first `'\0'` (the C string strtok sees),
  then the null terminator, in a vector whose length is
  `CapacityAfter(count)`. The meaning of `Tokens` is proved separately.
  `LayoutFrom` cuts a line into delimiter gaps and tokens. `LayoutUnique`
  shows that any cut into well-separated gaps and tokens is that same
  cut, so the tokens are exactly the maximal non-delimiter runs, in
  input order.
- `Launcher` (`launcher.dfy`) covers `launch_cmd`. `fork` is one of three
  outcomes. `execvp` is only ever seen to fail, because a successful one
  never returns. `waitpid` hands out the statuses of a given sequence, one
  per call. `LaunchCmd` runs the `do … while` loop and is proved equal to
  the function `Launch`. If the sequence runs out before a terminal
  status, the parent is still blocked, and the result is `StillWaiting`.
- `Dispatcher` (`dispatcher.dfy`) covers `execute_cmd`, the table
  `built_in_cmds` and the three built-in handlers. In this source the
  handlers are stubs that return 1.
- `Wrappers` (`wrappers.dfy`) holds the `Option` datatype.

In these places the built-ins and the launcher do less than their names
suggest; the model follows the code:

- The built-ins do nothing and return 1. So `cd` without an argument
  reports success, and `exit` does not leave the shell.
- The launcher returns 1 however the child ended. So a program that
  exits with a failure code gives the same result as one that succeeds
  (`StatusNotPropagated`, `ResultIsZeroOrOne`).
- When `execvp` fails in the child, `launch_cmd` returns 0 to the
  dispatcher. The child process then continues the read loop instead of
  exiting. The model returns `Code(0)` on that path.
- The handler definitions at shell.cpp:121-131 take a `vector<string>&`.
  The prototypes the table refers to (shell.cpp:20-22) take `char**`. The
  model follows the definitions: each handler returns 1.

## Model

| member | source | states |
|---|---|---|
| `Tokenizer.IsDelim` | shell.cpp:166 | the delimiter set is space, tab, carriage return, newline and bell |
| `Tokenizer.SkipDelims` | shell.cpp:176-181 | strtok's skip: the first index at or after i that holds no delimiter, with only delimiters before it |
| `Tokenizer.RunEnd` | shell.cpp:176-181 | strtok's scan: the first index at or after i that holds a delimiter, with no delimiter before it |
| `Tokenizer.NextToken` | shell.cpp:176-181 | strtok returns null exactly when only delimiters remain; otherwise it returns a non-empty, delimiter-free run that follows only delimiters and ends at a delimiter or at the end of the line |
| `Tokenizer.Resume` | shell.cpp:181 | the definition places strtok's next scan just past the delimiter it overwrote, or at the end of the line; the contract gives the bound: never before the token's end and never past the line |
| `Tokenizer.TokensFrom` | shell.cpp:176-181 | the tokens that repeated strtok calls return from scan position i, until it returns null; there are at most as many as characters left |
| `Tokenizer.Tokens` | shell.cpp:176-181 | the tokens of the whole line; there are at most as many as characters |
| `Tokenizer.ResumeLayoutWords` | shell.cpp:181 | skipping the overwritten delimiter loses no token |
| `Tokenizer.LayoutWords` | shell.cpp:176-181 | the tokens strtok returns are the tokens of the gap/token layout of the line |
| `Tokenizer.LayoutFrom` | shell.cpp:176-181 | a line is cut into one more gap than tokens |
| `Tokenizer.LayoutSeparated` | shell.cpp:166-181 | in that cut, gaps hold only delimiters, inner gaps are non-empty, and tokens are non-empty and delimiter-free |
| `Tokenizer.LayoutSpells` | shell.cpp:176-181 | putting the gaps and tokens back together gives the line: nothing is dropped except delimiters, and order is kept |
| `Tokenizer.LayoutUnique` | shell.cpp:166-181 | any cut of a line into delimiter gaps and maximal tokens is the one strtok finds, so tokens are exactly the maximal non-delimiter runs, in order |
| `Tokenizer.TokensAreMaximalRuns` | shell.cpp:176-181 | every line has such a cut, and its tokens are `Tokens(line)` |
| `Tokenizer.TokensAreWords` | shell.cpp:166-181 | no token is empty and no token contains a delimiter |
| `Tokenizer.TokensEmptyIff` | shell.cpp:176-179 | a line has no tokens if and only if it is empty or holds only delimiters |
| `Tokenizer.TokensExample` | shell.cpp:176-181 | "ls -la /tmp" gives ["ls", "-la", "/tmp"] |
| `Tokenizer.CapacityAfter` | shell.cpp:183-187 | the value of `tokens_list_len` after n tokens: 32, doubled whenever the count reaches length - 1; it is never below 32 |
| `Tokenizer.CapacityBounds` | shell.cpp:183-201 | after n tokens the vector length exceeds n + 1, leaving a slot for the terminator; the length is 32 doubled some number of times; it stays 32 below 31 tokens and is at most 2(n + 1) from then on |
| `Tokenizer.CapacityMonotone` | shell.cpp:186-187 | the vector never shrinks as tokens are added |
| `Tokenizer.Reallocate` | shell.cpp:189-200 | realloc gives a fresh vector of the new length whose first slots are the old ones |
| `Tokenizer.TokenVector.constructor` | shell.cpp:165-169 | the vector starts with 32 slots and no tokens |
| `Tokenizer.TokenVector.Push` | shell.cpp:180-201 | storing a token appends it to the contents; the capacity stays the same or doubles; a free slot always remains for the terminator |
| `Tokenizer.TokenVector.Terminate` | shell.cpp:205 | the slot after the last token becomes null, and the tokens are untouched |
| `Tokenizer.CString` | shell.cpp:176 | strtok sees the line only up to its first '\0': the result is a prefix of the bytes, holds no '\0', and is followed by a '\0' when shorter than the bytes |
| `Tokenizer.CStringWhole` | shell.cpp:176 | a line without '\0' is seen whole |
| `Tokenizer.EmbeddedNulEndsLine` | shell.cpp:176-181 | the bytes a, '\0', b give the one token "a" |
| `Tokenizer.SplitLine` | shell.cpp:165-207 | the strtok loop over a C string leaves `Tokens(s)` in order in the vector, then null; the count is the number of tokens and the vector length is the doubling capacity for that count |
| `Tokenizer.TokenizeLine` | shell.cpp:161-208 | a null line gives (null, 0); otherwise the vector holds the tokens of the line up to its first '\0' in order, then null, the count is the number of tokens, and the vector length is the doubling capacity for that count |
| `Launcher.Terminal` | shell.cpp:96 | the loop's exit condition: the child exited or was killed by a signal |
| `Launcher.FirstTerminal` | shell.cpp:84-96 | the index of the first exited or signalled status, with every earlier status a stop; or none if no status is terminal |
| `Launcher.Launch` | shell.cpp:62-101 | 0 when fork fails or in the child after execvp fails; in the parent, 1 exactly when some status is exited or signalled, otherwise still waiting |
| `Launcher.LaunchCmd` | shell.cpp:62-101 | the do-while loop gives the result of `Launch`; the parent stops at the first exited or signalled status and has seen only stops before it; the child and a failed fork never wait |
| `Launcher.StoppedKeepsWaiting` | shell.cpp:84-96 | a stopped child does not end the wait; the outcome is decided by the later statuses |
| `Launcher.TerminalEndsWait` | shell.cpp:96-100 | an exited or signalled status ends the wait with 1, whatever would follow |
| `Launcher.StatusNotPropagated` | shell.cpp:96-100 | any two waits that end give the same result, 1, so exit codes and signals are not passed on |
| `Dispatcher.BuiltInNames` | shell.cpp:39-43 | the built-in table holds exactly "cd", "help" and "exit" |
| `Dispatcher.CmdCd` | shell.cpp:121-123 | the cd stub returns 1 for any arguments |
| `Dispatcher.CmdHelp` | shell.cpp:125-127 | the help stub returns 1 for any arguments |
| `Dispatcher.CmdExit` | shell.cpp:129-131 | the exit stub returns 1 for any arguments |
| `Dispatcher.RunBuiltIn` | shell.cpp:111 | calling the handler the table binds to a name gives 1 for every built-in |
| `Dispatcher.ExecuteCmd` | shell.cpp:103-116 | no arguments gives 1; a first argument found in the table gives its handler's 1; any other name gives the launcher's result |
| `Dispatcher.NoLaunchForBuiltIns` | shell.cpp:104-112 | an empty command or a built-in gives 1 whatever fork and waitpid would do, so the launcher is not consulted |
| `Dispatcher.LookupIsCaseSensitive` | shell.cpp:110-115 | "CD" is not the built-in cd and is launched |
| `Dispatcher.ResultIsZeroOrOne` | shell.cpp:62-116 | the dispatcher reports only 0 or 1, or is still waiting for the child |
| `Dispatcher.BlankLineIsNoOp` | shell.cpp:104-107 | an empty or delimiter-only line is dispatched as the empty command and gives 1 |

## Left out

- `read_line`, `print_prompt`, `repl_loop` and `main` are left out. They are standard input and output plumbing and an endless loop. Their `exit()` calls are not modelled either.
- `free_args` is left out. The model does not free memory. Its element count comes from a pointer size, not from the number of arguments.
- Allocation failure is not modelled. `malloc` and `realloc` always succeed, so the `exit(EXIT_FAILURE)` paths at shell.cpp:171-174 and 191-197 are absent.
- Messages are not modelled. This covers `perror`, `cerr` and `cout` output, including the empty-command notice.
- `built_in_description` is not modelled, because no handler reads it.
- The real `fork`, `execvp` and `waitpid` are replaced by given outcomes. A `waitpid` error return is not modelled. `execvp` always fails in the model, so the argument vector is not passed to the launcher.
- Tokens are copies of the line's characters, not pointers into the line. The `'\0'` bytes that strtok writes into the line are not modelled. Characters stand for the C bytes. A `'\0'` is not an ordinary character: the line is cut at its first `'\0'` (`CString`), as strtok sees it.
- `Tokenizer.CapacityAfter` and `TokenVector` use unbounded integers. The model does not reproduce a 32-bit `int` overflow of `tokens_list_len` or `pos`.
- Slots that `malloc` and `realloc` leave uninitialised hold arbitrary values in the model as well. Only the slots up to the terminator are specified.
- `Launcher.LaunchCmd` does not block forever when no terminal status ever arrives. It returns `StillWaiting` once the given statuses are used up.

# A small Unix shell: built-ins and descriptor wiring, in Dafny

This project models the execution engine of a small Unix shell, in two modules.

`Builtins` (`builtin.dfy`) models the built-in command layer:
- the parallel name and handler tables (`help`, `cd`, `pwd`, `echo`, `exit`, `record`);
- the first-match lookup over the name table;
- dispatch to a handler;
- the six handlers. Each returns its continue/stop status (1/0) and the text it writes to standard output.

Nothing a handler learns from the operating system is computed by the model. Whether `chdir` succeeds, what `getcwd` returns, and the history buffer kept by the line reader all arrive as an `Env`.

`Shell` (`shell.dfy`) models how the shell wires descriptors.
- A process is a `Process` object whose `fds` map descriptor numbers to `FileObj`s: an inherited stream, a disk file with its open mode, or one end of a numbered pipe.
- The system calls the shell makes are methods that change that map: `open`, `pipe`, `dup`, `dup2`, `close`, `exit`, `waitpid`, and writing to stdout.
- Whether a call that can fail succeeds is an oracle argument.
- `fork` creates a second `Process` holding a copy of the table. The child runs its set-up code on that copy.
- The shell's ghost `trace` records several things:
  - the pipes created;
  - every descriptor passed to `close`, and how many of those were not open;
  - every spawn, with the child's table at the moment it would load the program;
  - the pids waited for;
  - the writes to stdout.

The pure functions give the specification of the imperative code:
- `RedirectTable` and `ChildTable` describe a child's set-up;
- `Wired`, `TableAtFork`, `ClosedUpTo`, `PipelineSpawns` and `PipelinePids` describe a pipeline;
- `SaveTable` and `RestoreTable` describe the built-in path;
- `SessionLength` describes the read-eval loop.

The methods are proved against these functions. The lemmas state what the shell promises:
- every pipe end is closed exactly once;
- adjacent stages are connected;
- no child holds a sibling's write end;
- the shell's own stdin and stdout survive a built-in with redirections;
- the loop stops exactly after `exit`, a failed `cd`, or a failed fork of a single command.

`wrappers.dfy` holds the `Option` type.

In several places the code does something other than what a shell user would expect. The model follows the code:
- **`cd` whose `chdir` fails returns 0, so the shell loop ends.** A user would expect only `exit` to end the shell. `Cd` and `LineStops` state the code's behaviour.
- **A redirection file that cannot be opened for a built-in makes the shell itself exit with status 1.** This is because `redirection` calls `exit` in the shell process (src/shell.c:28-33, 39-44, 180). A user would expect an error message, with the shell keeping its streams and going on. `RunBuiltin` and `LineExits` state the code's behaviour.
- **A fork that fails records pid 0 in `cpids`, and `fork_cmd_node` still calls `waitpid(0, …)` for it.** A user would expect no wait for a stage that never ran. `ForkCmdNode` records a wait for 0.
- **For a single external command, a failed fork makes `spawn_proc` return 0, so the loop ends.** `LineStops` states this.
- **A pipe descriptor wins over a redirection file on the same stream.** The redirection is applied first and the pipe end is then moved over it (src/shell.c:72-82). `ChildStdin`, `ChildStdout` and `PipelineConnected` state this.

## Model

| member | source | states |
|---|---|---|
| Builtins.NumBuiltins | src/builtin.c:155-157 | the registry has as many entries as the name table, and the handler table has the same number |
| Builtins.FirstIndex | src/builtin.c:19-27 | the lowest index holding the name, or -1 exactly when the name is absent; the result lies in [-1, table size) |
| Builtins.SearchBuiltInCommand | src/builtin.c:19-27 | the loop returns -1 iff `args[0]` is not a built-in name; otherwise it returns the first matching registry index, inside the table |
| Builtins.FirstIndexOfEntry | src/builtin.c:19-27 | in a table without repeated names, every entry is found at its own index |
| Builtins.RegistryLookup | src/builtin.c:131-157 | the six names are distinct, so each is found at its own index; "exit" is index 4, whose handler is `exit_shell`; the `sush`-only "amogus" is not a built-in |
| Builtins.ExecBuiltInCommand | src/builtin.c:36-39 | the result is exactly what the handler at the given registry index returns for the arguments |
| Builtins.StatusStopsOnlyOnExitOrFailedCd | src/builtin.c:41-121 | every handler returns 0 or 1, and returns 0 iff it is `exit_shell`, or `cd` with a target whose `chdir` failed |
| Builtins.Help | src/builtin.c:41-56 | `help` writes the banner, one `i: name` line per registry entry, then the rule, and returns 1 |
| Builtins.HelpLoop | src/builtin.c:51-53 | the listing loop writes `i: name_i` for every entry, in table order |
| Builtins.HelpNumbersAreRegistryIndices | src/builtin.c:51-53 | line k of the listing names entry k; its number reads back as k, the index that lookup returns for that name |
| Builtins.Decimal | src/builtin.c:52 | `%d` of a non-negative number is a non-empty string of decimal digits |
| Builtins.DecimalRoundTrip | src/builtin.c:52 | the printed number reads back as the number |
| Builtins.Pad2 | src/builtin.c:115 | `%2d` right-aligns in a field of at least two characters, padding with spaces and keeping the digits |
| Builtins.Cd | src/builtin.c:58-74 | a missing target gives status 1 and the message; otherwise the status is 1 iff `chdir` succeeded, and 0 iff it failed |
| Builtins.Pwd | src/builtin.c:77-86 | prints the working directory and a newline when `getcwd` gives one, nothing otherwise; always returns 1 |
| Builtins.ExitShell | src/builtin.c:106-109 | returns 0 for any arguments |
| Builtins.Echo | src/builtin.c:88-104 | the loop writes the arguments from index 1 joined by single spaces plus a newline, except that a `-n` at index 1 is skipped and drops the newline; returns 1 |
| Builtins.JoinSnoc | src/builtin.c:96-98 | printing one more argument adds a separating space and the argument |
| Builtins.SplitJoin | src/builtin.c:96-98 | space-joining space-free words can be undone: splitting at spaces returns the words |
| Builtins.EchoWordsRecoverable | src/builtin.c:88-104 | without its final newline (when there is one), `echo`'s output splits back into exactly the arguments it printed, with no stray space |
| Builtins.EchoDashNOnlyDropsNewline | src/builtin.c:90-101 | a leading `-n` changes nothing but the final newline |
| Builtins.WrapSlot | src/builtin.c:117-118 | the slot read on each line of the wrapped listing is a valid buffer index |
| Builtins.Record | src/builtin.c:111-121 | before the buffer wraps, lists slots 0..count-1 as lines numbered from 1; afterwards lists every slot from `count % MAX` on, wrapping round; returns 1 |
| Builtins.RenderRecordStep | src/builtin.c:114-115 | each pass of the first loop adds line k+1, showing entry k |
| Builtins.RecordWrapStep | src/builtin.c:117-118 | each pass of the wrapped loop adds the next numbered line, showing slot `i % MAX` |
| Builtins.RecordWrapSlot | src/builtin.c:116-119 | once wrapped, the listing has MAX lines, and line k+1 shows slot (count + k) mod MAX |
| Builtins.RecordWrapSlotsDistinct | src/builtin.c:116-119 | once wrapped, no slot is shown twice |
| Builtins.RecordWrapSlotsCover | src/builtin.c:116-119 | once wrapped, every slot is shown |
| Builtins.RecordShowsMostRecent | src/builtin.c:111-121 | with the buffer filled the way the line reader fills it, `record` lists all commands read (fewer than MAX) or the last MAX, oldest first |
| Shell.RedirectTemps | src/shell.c:24-48 | `redirection` uses at most two temporary descriptors, taken in order from the next fresh one |
| Shell.ChildStdin | src/shell.c:70-77 | a child's stdin is the pipe end it was given (which is closed), else its input file, else the inherited stdin |
| Shell.ChildStdout | src/shell.c:70-82 | a child's stdout is the pipe end it was given (which is closed), else its output file (write, create, truncate, mode 0644), else the inherited stdout |
| Shell.ChildOtherDescriptors | src/shell.c:70-82 | the child's set-up changes no descriptor other than 0, 1 and the two pipe ends |
| Shell.Ends | src/shell.c:127 | each pipe contributes its two descriptors |
| Shell.EndsAt | src/shell.c:127 | pipe k's read end is at position 2k of the descriptor list and its write end at 2k+1 |
| Shell.ClosedUpToIsEnds | src/shell.c:137-146 | loop invariant of the closing: after i stages, what was closed plus the read end still pending is every end of the pipes made so far, each once |
| Shell.ClosedAllIsEnds | src/shell.c:137-146 | after the last stage, the closes are a permutation of all pipe ends |
| Shell.PipeEndsClosedOnce | src/shell.c:114-146 | for fresh distinct pipe ends, each is closed exactly once and nothing else is closed |
| Shell.NewPipes | src/shell.c:125-127 | a pipeline makes one pipe per stage but the last |
| Shell.NewPipesEnds | src/shell.c:125-127 | the pipes' descriptors are consecutive fresh numbers |
| Shell.NewPipesFresh | src/shell.c:125-127 | in a valid shell the pipes are fresh: numbered above every existing pipe, with distinct descriptors that were not open and are not 0 or 1 |
| Shell.PipelineClosesEachEndOnce | src/shell.c:137-146 | every pipe end `fork_cmd_node` creates is closed exactly once by the shell, which closes nothing else |
| Shell.ForkCount | src/shell.c:136 | the number of forks that succeeded among the stages |
| Shell.PipelinePids | src/shell.c:136 | one `cpids` entry per stage |
| Shell.ClosesAfterFork | src/shell.c:137-146 | the two closes after forking stage i bring the shell back to its own table, plus the read end that stage i+1 will use |
| Shell.PipelineTraceStep | src/shell.c:114-146 | one pass of the loop adds that stage's pipe, closes and spawn to the record |
| Shell.PipelineTraceDone | src/shell.c:114-146 | after the last pass the record holds every pipe, close and spawn of the pipeline |
| Shell.PipelinePidStep | src/shell.c:136 | the pid stored for stage i is the next pid, or 0 when its fork failed; the counter advances only on success |
| Shell.PipelineSpawns | src/shell.c:114-136 | one spawn per stage, in list order |
| Shell.SpawnedChildTable | src/shell.c:62-94 | a stage's child gets past set-up iff its fork and its opens succeed, and it then holds `ChildAt` |
| Shell.PipelineConnected | src/shell.c:114-133 | stage k-1's stdout is the write end of pipe k-1 and stage k's stdin its read end, whatever redirection files they name |
| Shell.WriteEndsOnlyAtStdout | src/shell.c:114-146 | the only pipeline write end a child holds is its own pipe's, on stdout, so no reader is kept from end-of-file by a sibling |
| Shell.ChildKeepsOwnReadEnd | src/shell.c:125-136 | every stage but the last inherits the read end of its own output pipe, because the shell closes it only after forking the next stage |
| Shell.ForkCountGrows | src/shell.c:136 | each successful fork advances the pid counter |
| Shell.PipelinePidsDistinct | src/shell.c:136 | the pids stored for forked stages are distinct and increasing; a stage whose fork failed stores 0 |
| Shell.SaveTable | src/shell.c:177 | `dup` of 0 and 1 adds copies of stdin and stdout (when they are open) |
| Shell.RestoreTable | src/shell.c:184-193 | the saved copies go back onto the redirected streams only, then both copies are closed |
| Shell.RestoredTable | src/shell.c:177-193 | save, redirect, restore leaves every descriptor other than 0 and 1 as it was, and 0 and 1 as well when both were open |
| Shell.BuiltinCloses | src/shell.c:180-193 | a built-in's closes end with the two saved copies, after the temporaries `redirection` used |
| Shell.BuiltinIndex | src/shell.c:175 | the lookup result for a single command is -1 or a registry index |
| Shell.LineStops | src/shell.c:169-221 | a line's status is 0 iff it is a single command and is `exit`, a `cd` whose `chdir` failed, or an external command whose fork failed |
| Shell.StatusZeroWhateverPid | src/shell.c:195-198 | whether the status is 0 does not depend on the pid the child gets |
| Shell.SessionFlags | src/shell.c:162-221 | one flag per line read: whether the loop ends after it |
| Shell.FirstStop | src/shell.c:160-223 | the loop reads no more lines than there are |
| Shell.SessionLength | src/shell.c:160-223 | the number of lines the loop reads |
| Shell.FirstStopIsFirst | src/shell.c:220-221 | the count stops at the first raised flag |
| Shell.SessionEndsAtFirstStop | src/shell.c:160-223 | the loop runs through every line before the first that ends it, ends right after that line, and reads every line when none ends it |
| Shell.FirstStopStep | src/shell.c:220-221 | a line that does not end the loop adds one and the loop goes on |
| Shell.Process.Start | src/shell.c:160 | the shell starts holding the three standard streams |
| Shell.Process.ForkOf | src/shell.c:64 | the child of `fork` starts with a copy of the parent's table |
| Shell.Process.Open | src/shell.c:28 | `open` gives a fresh descriptor for the file in the requested mode, or -1 |
| Shell.Process.Pipe | src/shell.c:127 | `pipe` gives two fresh descriptors for the ends of a new pipe, or -1 and no change |
| Shell.Process.Dup | src/shell.c:177 | `dup` gives a fresh descriptor for the object of an open one, or -1 |
| Shell.Process.Dup2 | src/shell.c:34 | `dup2` makes `to` refer to the object of `from`; -1 and no change when `from` is not open |
| Shell.Process.Close | src/shell.c:35 | `close` removes the descriptor; closing one that is not open fails and is counted |
| Shell.Process.Exit | src/shell.c:32 | `exit` ends the process with the status and releases its descriptors |
| Shell.Process.Redirection | src/shell.c:24-48 | the process exits with status 1 iff a file it must open cannot be; otherwise stdin and stdout hold the files (input read-only, output write, create, truncate, mode 0644) and both temporary descriptors are closed |
| Shell.Process.SpawnProc | src/shell.c:62-94 | returns the child's pid, or 0 when `fork` fails; the shell's table is untouched; the child's table after set-up is `ChildTable`, or empty when it exits |
| Shell.Process.ForkCmdNode | src/shell.c:107-156 | exits with status 1 iff a `pipe` fails; otherwise returns 1, leaves the shell's table as it was, spawns every stage in order with its `Wired` descriptors, closes exactly `ClosedUpTo`, and waits once per stage on the stored pids |
| Shell.Process.SpawnStages | src/shell.c:114-146 | the first loop of `fork_cmd_node`, proved by its invariant: table, counters, `cpids` prefix and record after every pass |
| Shell.Process.ForkStage | src/shell.c:116-145 | one pass: input from the previous read end, a new pipe for output, the spawn, then the two closes |
| Shell.Process.WaitAll | src/shell.c:150-153 | `waitpid` once on each of the first i stored pids, in order |
| Shell.Process.Waitpid | src/shell.c:152 | only the pid waited for is recorded |
| Shell.Process.WriteOut | src/builtin.c:96 | text printed to stdout goes to whatever descriptor 1 refers to |
| Shell.Process.RunBuiltin | src/shell.c:176-194 | the shell exits with status 1 iff a redirection file cannot be opened. Otherwise the status is the handler's; its output goes to the redirected stdout; every descriptor other than 0 and 1 is unchanged; when 0 and 1 were open, the whole table is restored and both saved copies are closed without a bad close |
| Shell.Process.RestoreStreams | src/shell.c:184-193 | the restore step yields `RestoreTable`, with both copies closed |
| Shell.Process.RunExternal | src/shell.c:195-199 | the command is spawned once and `waitpid` is called once, on the pid `spawn_proc` returned (0 when the fork failed); the shell's table is untouched |
| Shell.Process.RunLine | src/shell.c:174-207 | the shell exits iff `LineExits`, and the status is `LineStatus`. A registered single command runs in the shell: nothing is spawned or waited for, its output goes to the redirected stdout, and with 0 and 1 open the table is restored and the closes are `BuiltinCloses`. Any other single command is spawned once and waited for once. A pipeline makes exactly the pipes, closes, spawns and waits of `fork_cmd_node`. The table survives when 0 and 1 are open |
| Shell.Process.ReadEvalLine | src/shell.c:162-221 | one pass of the loop: a line that could not be read changes no descriptor, counter or record; otherwise the line runs, the loop ends after it iff `EndsSession`, and the table survives when the shell does and 0 and 1 are open |
| Shell.Process.ReadEvalLineAt | src/shell.c:162-221 | line i of the input ends the loop iff its flag in `SessionFlags` is set, and makes the shell exit iff its flag in `ExitFlags` is set |
| Shell.ExitFlagsAt | src/shell.c:174-207 | flag i of `ExitFlags` says whether line i made the shell exit |
| Shell.Process.RunShell | src/shell.c:160-223 | the loop reads exactly `SessionLength` lines, and the shell has exited iff the last of them made it exit |

## Left out

- Process semantics of `fork`, `execvp` and `waitpid` are not modelled. The model does not load programs, run stages concurrently, or carry bytes through pipes. A spawn is recorded with the child's table at the point where it would call `execvp`, and a wait is recorded by its pid.
- The child's path after a failed `execvp` is not modelled (src/shell.c:83-86). That child returns 0 into the shell's own code, which is an operating-system effect beyond this descriptor-level model.
- What `waitpid(0, …)` does is not modelled (src/shell.c:152, 198). After a failed fork the code waits on pid 0, which means any child in the process group; the model only records that a wait for 0 happened.
- Fresh descriptors are not the lowest free number. `open`, `pipe` and `dup` return the next number above every descriptor used so far, so a number is never handed out twice.
- `Shell.PipelineClosesEachEndOnce`: the record of closes holds descriptor numbers, and "each end closed exactly once" is proved of those numbers, which the model never reuses. Under the kernel's lowest-free rule a closed number is handed out again, so a three-stage pipeline from a shell holding 0, 1 and 2 closes 4, 5, 3, 4. The model does not prove exactly-once per pipe object under that rule.
- `Shell.PipelinePidsDistinct`: pids come from a counter in the model, so the stored pids are increasing. Real pids are only distinct, and the model's "increasing" is not a property of the shell.
- Standard output buffering is not modelled. A handler's output is one write to whatever fd 1 refers to at that moment.
- Diagnostics are left out: `perror` messages, `"dup"` errors, and the `PROMPT`. The `"cd: missing argument"` message, which goes to stdout, is modelled.
- The line reader and parser are outside the model: `read_line`, `split_line`, the `cmd`/`cmd_node` records, the `history` buffer and `history_count`. A line arrives as an already parsed `Command`, or `None` when it could not be read. The history arrives inside `Env`, and MAX_RECORD_NUM is the length of its slot sequence.
- `RunShell` reads a finite sequence of lines instead of looping forever. It ends at the first line that ends the loop, or when the input runs out.
- Memory management is left out: the `malloc` and `free` of `cpids` and the freeing of the command list (src/shell.c:111, 154, 209-218).
- `cpids` has `pipe_num` slots (src/shell.c:111), and the meaning of `pipe_num` is fixed by the parser, which is not modelled. `WellFormed` and `ForkCmdNode` assume `pipeNum >= |stages|`. Nothing in `fork_cmd_node` guarantees that capacity. If `pipe_num` counts pipes rather than stages, the pid of the last stage is stored past the end of `cpids`.
- Writer stages keep the read end of their own output pipe (src/shell.c:125-136, stated by `Shell.ChildKeepsOwnReadEnd`). So a writer whose reader has exited never gets `SIGPIPE`: in `yes | head -1`, `yes` never ends and the shell waits for it forever at src/shell.c:152. The model records the descriptors only and does not model that hang.
- The `sush` build's seventh built-in (`amogus`) and its banner are left out.
- `Pad2`: the model covers `%2d` and `%d` for non-negative numbers only, which are the only values the loops print.
- `Shell.Process.RunBuiltin`: when `dup` of 0 or 1 fails (that stream is closed), the model states only that descriptors other than 0 and 1 are unchanged. It does not state what 0 and 1 then hold.
- `Shell.PipelineConnected`, `Shell.WriteEndsOnlyAtStdout` and `Shell.ChildKeepsOwnReadEnd` require the first stage to read from stdin or from an open descriptor other than 1, and the last stage to write to stdout or to an open descriptor other than 0. These are the parser's defaults.

# sh.c job-control shell: a Dafny model

`sh.c` is a small job-control shell. It reads a line, splits it on tabs and
spaces, strips a trailing `&` and turns it into the background flag, and
refuses lines with no command. It then extracts the `<`, `>` and `>>`
redirections and compacts the surviving tokens into the argument vector.
Next it runs one of the built-ins `cd`, `ln`, `rm`, `exit`, `jobs`, `bg` and
`fg`; any other command is forked as a child. Before every prompt it reaps
its background jobs. This project models that per-line processing and the bookkeeping
the shell does on its job list and its job-id counter `jid`, and proves what
the code promises about them.

The model has these modules:

- `Wrappers` (`wrappers.dfy`): `Option` and `Result`.
- `Tokenizer` (`tokenizer.dfy`):
  - `Span`/`CSpan` stand for `strspn`/`strcspn`.
  - `Tokens` is the reference definition of a line's tokens.
  - The methods `CountTokens` and `Tokenize` keep the loops of `count_tokens` and `tokenize`. `Tokenize` fills a token array in place.
- `Redirects` (`redirects.dfy`): `Scan` is the value-level reference for the loop of `check_redirects`. Its lemmas characterise when it succeeds and what it leaves behind.
- `CommandLine` (`command_line.dfy`):
  - The class `LineParser` holds `main`'s per-line state: the token array, `num_tokens`, the background flag, the three redirection flags with their filename slots, and `cmd_arg`/`num_args`.
  - Its methods are the `&` stripping, `check_redirects` (a loop over the array) and the compaction into `cmd_arg`.
  - `ParseLine` runs the whole per-line processing and is proved equal to the function `Parse`.
- `Jobs` (`jobs.dfy`):
  - The job table is a map from job id to (pid, state, command) plus the counter `jid`.
  - It holds the transitions of `reap`, `bg`, `fg` and the parent side of `run_child_process`.
  - It also defines a replay of these events, with the lemmas about job ids.
- `Builtins` (`builtins.dfy`):
  - The decision `run_command` takes: the built-in, its argument checks, the diagnostic, or the system call it requests.
  - C's `atoi` on the job number.
- `Shell` (`shell.dfy`):
  - The class `JobControl` holds the job list and `jid`.
  - Its methods are `reap`, `run_command`, the parent side of `run_child_process` and one round of the read–eval loop.
  - `Run` is the loop of `main` over a sequence of inputs.

What the operating system would report is an input to the model:

- the `waitpid` status for each pid in `reap`;
- the pid `fork` returns;
- the status of the foreground process.

What the shell asks of the operating system is an output: a requested `chdir`, `link`, `unlink`, `kill` or `exit`, or an `Exec` record naming the path, `argv` and redirections of the child.

A line that ends in a redirection operator is not always refused with a
missing-file diagnostic:

- `check_redirects` takes the token after an operator as the file name without looking at it, so `cat > <` redirects output to a file named `<` (`Redirects.OperatorAsFilename`);
- it reports the first fault it meets, so `a > b >` is refused as a second output redirection, not as a missing file (`Redirects.SecondOutputBeforeMissingFile`).

## Model

| member | source | states |
|---|---|---|
| Tokenizer.Span | sh.c:21 | `strspn` with the delimiters tab and space: the run at `i` is all delimiters and is maximal |
| Tokenizer.CSpan | sh.c:26-27 | `strcspn` with tab and space: the run at `i` has no delimiter and ends at a delimiter or at the end of the line |
| Tokenizer.TokensFrom | sh.c:19-54 | the tokens from position `i` on: the maximal runs of characters other than tab and space, in order, each one non-empty |
| Tokenizer.Tokens | sh.c:19-54 | the tokens of a whole line, the ones `count_tokens` counts and `tokenize` stores |
| Tokenizer.SkipBlank | sh.c:20-22 | skipping the leading blanks does not change the tokens |
| Tokenizer.JoinOfTokensFrom | sh.c:46-54 | every suffix of the line is its tokens, each a non-empty run of non-blanks, put back together with the blank runs between them |
| Tokenizer.TokensCharacterized | sh.c:46-54 | in both directions: the tokens rebuild the line with separating blank runs, and any words that some separating blank runs rebuild into the line are exactly its tokens |
| Tokenizer.NoTokensIffBlank | sh.c:624-628 | a line has no tokens exactly when it is all tabs and spaces |
| Tokenizer.CountTokens | sh.c:19-33 | the loop that steps over word and blanks counts exactly the tokens of the line |
| Tokenizer.Tokenize | sh.c:46-54 | `arr[k]` holds the k-th token, in order, for every token; slots past the last token are untouched |
| Redirects.Scan | sh.c:76-138 | the loop of `check_redirects` on values: an operator with its input or output slot already filled is refused, one that is the last token has no file, otherwise it takes the next token as its file and both slots become NULL; any other token is kept |
| Redirects.ScanShape | sh.c:76-138 | on success there is one slot per token, each NULL or that very token; a filled redirection is never overwritten; `>` and `>>` are never both recorded |
| Redirects.OperatorsNeverKept | sh.c:90-133 | no operator token survives a successful scan: each is either recorded or skipped as the file of the one before |
| Redirects.NullSlotsArePairs | sh.c:90-133 | every NULL slot is an operator whose file follows it, or the file of the operator before it, and that file is what the operator's redirection slot holds |
| Redirects.FilledByOperator | sh.c:90-133 | a redirection slot that ends up filled was filled by its operator at some index k, from token k+1, and slots k and k+1 are NULL |
| Redirects.ArgCount | sh.c:659-665 | the surviving tokens number `num_tokens` less two per filled redirection (input, and output or append), which is the `num_args` arithmetic |
| Redirects.ScanSucceedsIff | sh.c:76-138 | both directions: the scan returns 0 exactly when no operator read as an operator (one not taken as the file of the operator before it) is the last token, and at most one such `<` and at most one such `>`/`>>` occur; the arguments left are then the words, in order |
| Redirects.NoFileOnlyAtEnd | sh.c:86-89 | the missing-file diagnostic is given only when the last token is an operator |
| Redirects.OperatorAsFilename | sh.c:109-114 | `cat > <` is accepted, with output redirected to a file named `<` |
| Redirects.SecondOutputBeforeMissingFile | sh.c:100-104 | `a > b >` is refused as a second output redirection |
| Redirects.WordsAreNotOperators | sh.c:76-138 | no word left as an argument is `<`, `>` or `>>` |
| CommandLine.StripAmpersand | sh.c:633-638 | the tokens without a last `&`, and the background flag, set exactly when the last token was `&` |
| CommandLine.NoCommand | sh.c:640 | the first token starts with `<` or `>` and at most two tokens are left |
| CommandLine.Parse | sh.c:625-675 | what becomes of a line: blank, "No command", a redirection error, or a command with its arguments, redirections and background flag |
| CommandLine.LineParser.constructor | sh.c:630-631 | the token array is filled by `tokenize` with the line's tokens, and no flag is set |
| CommandLine.LineParser.StripBackground | sh.c:633-638 | the background flag is set exactly when the last token is `&`; `num_tokens` then drops by one, and the tokens before it are unchanged |
| CommandLine.LineParser.Record | sh.c:90-95 | an operator branch sets its flag, moves the file token into its filename slot, NULLs both token slots and goes on after the file |
| CommandLine.LineParser.CheckRedirects | sh.c:76-138 | returns the diagnostic exactly when `Scan` fails with it; on success the token array holds the scanned slots, and the flags and filename slots the redirections found |
| CommandLine.CompactArgs | sh.c:668-674 | the copy loop puts exactly the non-NULL tokens, in order, at the front of `cmd_arg` |
| CommandLine.LineParser.BuildArgs | sh.c:659-675 | `num_args` is `num_tokens` less 2 per redirection, `cmd_arg` holds the surviving tokens in order, and `cmd_arg[num_args]` is NULL |
| CommandLine.ParseLine | sh.c:625-675 | running the count, the tokenizing, `&` stripping, the no-command test, `check_redirects` and the compaction on the class gives `Parse(line)` |
| CommandLine.BlankIff | sh.c:625-628 | a line is skipped as blank exactly when it holds only tabs and spaces |
| CommandLine.RefusedIff | sh.c:640-643 | both directions: "No command" exactly when, once `&` is stripped, the first token starts with `<` or `>` and at most two tokens are left |
| CommandLine.CommandParts | sh.c:633-675 | a command is in the background exactly when its last token is `&`. Its arguments are the words left once each operator took its file, none of them an operator. Arguments, two tokens per redirection and the `&` account for every token. Output and append are never both set |
| Builtins.BuiltinNamed | sh.c:158-248 | the `strcmp` tests of `run_command` in their order: the built-in a command word names, if any |
| Builtins.Decide | sh.c:156-324 | the decision of `run_command`: the built-in named by the first argument, its argument checks in the C order, and the request it makes, or `External` |
| Builtins.Atoi | sh.c:223 | C's `atoi` on the text after `%`: leading white space, an optional sign, then the digits that follow |
| Builtins.NamesRoundTrip | sh.c:158-248 | the seven command words name the seven built-ins, each its own and no other |
| Builtins.ExternalIff | sh.c:323-324 | `run_command` returns 1 exactly when the first argument names no built-in |
| Builtins.SyntaxErrorIff | sh.c:158-245 | a syntax error is reported exactly when a built-in has fewer arguments than it needs (`ln` 3; `cd`, `rm`, `bg`, `fg` 2) |
| Builtins.NoPercentIff | sh.c:237-240 | both directions: "job input does not begin with %" exactly when `bg` or `fg` gets a second argument not starting with `%` |
| Builtins.RequestArgs | sh.c:158-215 | with enough arguments `cd`, `ln` and `rm` request `chdir`, `link` and `unlink` on the arguments after the command word; `exit` and `jobs` always run |
| Builtins.ContinueIff | sh.c:217-259 | `bg`/`fg` reach a job exactly when the argument is `%` and the id of a listed job, naming that job and its pid. A `%` argument with an id not listed is reported as "job not found" |
| Builtins.ValueOfDecimal | sh.c:223 | the digits of a number read back as that number |
| Builtins.AtoiOfDecimal | sh.c:223 | `atoi` reads back a job id written in decimal, so `%n` names job n |
| Builtins.Effect | sh.c:217-305 | the job table once `run_command` has carried out a decision: `fg` on a found job foregrounds it, `bg` resumes it, every other decision leaves the table alone |
| Builtins.DecideEffectValid | sh.c:217-305 | a job that `bg`/`fg` reach is in the table. Carrying out any decision keeps the table valid and `jid` unchanged. Diagnostics and other built-ins leave the table as it was |
| Jobs.Transition | sh.c:515-554 | the state a status report leaves a job in: removed on exit or signal, Stopped on a stop, Running on a continue, unchanged on no report |
| Jobs.Reaped | sh.c:507-564 | `reap` on the whole table: every job takes its transition, `jid` is kept |
| Jobs.Resumed | sh.c:230-235 | `bg` on a found job: it is Running |
| Jobs.Foregrounded | sh.c:273-305 | `fg` on a found job: Running, then removed, stopped or left running by the foreground status |
| Jobs.Launched | sh.c:444-486 | the parent side of `run_child_process`: a new Running job for a background child, a new Stopped job for a stopped foreground child, a job id alone for one killed by a signal |
| Jobs.ReapEffect | sh.c:515-554 | per job: it is removed exactly when its status is an exit or a signal termination; otherwise it keeps pid and command, is stopped on a stop, runs on a continue, and is unchanged on no change; `jid` does not move |
| Jobs.QuietReap | sh.c:514 | a reaping round in which no process reports leaves the table as it was |
| Jobs.ReapValid | sh.c:507-564 | reaping keeps the table valid |
| Jobs.ForegroundEffect | sh.c:273-298 | `fg %n`: job n survives exactly when it did not exit or die of a signal, and is then Stopped if it stopped and Running otherwise; every other job and `jid` are unchanged |
| Jobs.ResumeEffect | sh.c:230-235 | `bg %n`: job n runs again, nothing else changes |
| Jobs.ForegroundValid | sh.c:273-305 | `fg` and `bg` keep the table valid |
| Jobs.LaunchIds | sh.c:444-486 | `jid` rises by exactly one on a background launch, a foreground stop or a foreground signal termination, and never otherwise. Only the first two add a job, under the new id, Running and Stopped respectively |
| Jobs.LaunchValid | sh.c:444-486 | launching a child that no job owns keeps the table valid |
| Jobs.NoIdReuse | sh.c:445-480 | over any sequence of reaps, `bg`, `fg` and launches, `jid` advances by exactly the ids the launches take, and every job present afterwards was there before or has an id above the old counter |
| Shell.LastSlash | sh.c:352 | `strrchr(path, '/')`: the index of a `/` with no `/` after it, or none when the path has no `/` |
| Shell.ProgramName | sh.c:350-356 | `argv[0]` for `execv`: absent exactly when the path has no `/`, otherwise the suffix of the path after its last `/` |
| Shell.Dispatched | sh.c:677-684 | the outcome of a parsed line: nothing for a non-command, the built-in decision, or an `Exec` of the full path with `ProgramName` as `argv[0]` |
| Shell.JobControl.constructor | sh.c:569-570 | the shell starts with an empty job list and `jid` 0 |
| Shell.JobControl.Visit | sh.c:515-554 | one job's status report removes it, stops it, resumes it or leaves it as it is; nothing else changes |
| Shell.JobControl.Reap | sh.c:507-564 | visiting each job once leaves the table `Reaped` describes and keeps it valid |
| Shell.JobControl.RunCommand | sh.c:156-324 | returns 1 exactly when the decision is "not a built-in". The decision is `Decide` on the arguments and the old job list. The table changes exactly as the `bg`/`fg` effect on the found job calls for, and not otherwise |
| Shell.JobControl.RunChildProcess | sh.c:348-494 | the child is asked to `execv` the full path with `argv[0]` the program name and the other arguments unchanged, with the line's redirections. The table becomes `Launched` and stays valid |
| Shell.JobControl.Dispatch | sh.c:677-684 | a command goes to `run_command` and, when it names no built-in, to `run_child_process`. The table changes by at most the one event the outcome stands for. Every job keeps its pid or is the new child |
| Shell.JobControl.Step | sh.c:593-685 | one round reaps, parses and dispatches the line. The table ends as the replay of the reaping and the outcome's event and stays valid |
| Shell.Run | sh.c:567-687 | the loop stops after `exit` or at the end of input, and no earlier pass is `exit`. Each outcome is what its line comes to: the line parsed and dispatched on the table the earlier passes left, reaped with that pass's statuses. The table stays valid and is always the replay of the events of the passes made |

## Left out

- Process and terminal plumbing:
  - not modelled: `fork`, `setpgid`, `tcsetpgrp`, resetting signal dispositions, the `close`/`open` calls that install the redirections, and `execv` (sh.c:358-442, sh.c:452-456, sh.c:488-492);
  - instead, the child is described by an `Exec` record, and the pid `fork` returns is an input.
- The effects of `chdir`, `link`, `unlink` and `kill`: these are requests in `Builtins.Request`. Their failure paths (`perror` and exit 1) are left out.
- `waitpid` itself:
  - its result is an input (`Jobs.WaitStatus`), and blocking, `WNOHANG`, `WUNTRACED` and `WCONTINUED` are not modelled;
  - the `wret == -1` fatal paths (sh.c:277-281, sh.c:461-465, sh.c:556-560) are left out.
- `jobs.h`:
  - The job list is a map from job id to job.
  - The `jobs` built-in only requests printing.
  - `get_next_pid`'s order is not modelled. `Shell.JobControl.Reap` visits jobs in increasing job id; each job's transition depends only on its own status, so the order does not change the result.
- Printing:
  - all `printf`/`perror`/`fprintf` messages, and the branches that exit when printing fails;
  - diagnostics are values (`Builtins.Diagnostic`, `Redirects.RedirectError`, `CommandLine.Parsed.Refused`).
- Reading input:
  - the `read` into the 1024-byte buffer, the `PROMPT` macro and the signal-ignore setup (sh.c:572-623);
  - a line is the content of the C string before its terminator; NUL bytes inside a line are not modelled.
  - The `count == 1` and `count == 0` (end of input) branches are not modelled: `Shell.Run` ends when its inputs run out.
  - `buffer[count - 1]` is written before `count < 0` is checked (sh.c:609-610), and for `count == 0` it writes `buffer[-1]`. This is not modelled.
- `strtok` writes NUL bytes into the buffer; the model gives each token as its own string instead.
- Jobs.Table: `jid` is a C `int` incremented at sh.c:445, sh.c:469 and sh.c:480; the model's counter is unbounded, so its overflow past `INT_MAX` is not modelled.
- Builtins.Atoi: the overflow of C's `atoi` on more digits than an `int` holds is undefined in C and is not modelled; the value is the unbounded integer the digits spell.
- CommandLine.Parse: a line whose only token is `&` is excluded by precondition. sh.c clears the only token and then reads its first character (sh.c:636-640), which is undefined.
- Shell.Runnable: a line such as `< a > b` leaves no argument, and sh.c then calls `strcmp` on a NULL `cmd_arg[0]` (sh.c:158). Such lines are excluded by precondition of `Shell.JobControl.Step` and `Shell.Run`.
- Shell.ProgramName: when the path has no `/`, `strrchr` gives NULL and `argv[0]` becomes a null pointer (sh.c:352-356). The model gives `None` and does not go on to what `execv` does with it.
- Shell.Run: the pids `fork` hands out are required to be positive and pairwise distinct, as the operating system guarantees for live processes. Reuse of a pid after its job has been reaped is not modelled.
- Shell.JobControl.RunChildProcess: a failed `fork` is excluded by precondition (`pid > 0`). sh.c does not check for -1 (sh.c:360): its parent branch would then run with pid -1, adding a background job with pid -1 (sh.c:445-446) or, in the foreground, waiting for any child with `waitpid(-1, ...)` (sh.c:460).

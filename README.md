# xargs batching, in Dafny

A model of the core of toybox's `xargs` (`toys/posix/xargs.c`). It covers two parts:

- `handle_entries` splits one input record into arguments. It does so at blanks, or takes the whole record with `-0`. It counts each argument against the `-n` limit and charges its bytes against `TT.s`. It stops at the `-E` word. In its filling pass it also stores the arguments into the argv being built.
- The batch loop of `xargs_main`:
  - computes `TT.s` and the command's own bytes;
  - reads records into a batch until `handle_entries` stops asking for more;
  - keeps the unused tail of a record for the next batch;
  - fills the argv by a second pass over the batch's records;
  - runs the command (or not, at a `-p` prompt);
  - turns each child's exit status into xargs' exit value, and decides whether to go on.

The model has five modules:

| module | file | what it holds |
|---|---|---|
| `Tokens` | `tokens.dfy` | C strings, `isspace`, and the words of a record |
| `Accounting` | `accounting.dfy` | One call of `handle_entries` as pure functions over its counters (`Handle`, `WsScan`, `NulScan`); the counting pass over a batch (`Fold`); lemmas on which arguments are taken, what is charged, and why a call stops |
| `ExitStatus` | `exitstatus.dfy` | The exit-value rules after `waitpid`, and what they mean over a whole run |
| `Batching` | `batching.dfy` | The batch loop stated over values: where a batch leaves the input (`Place`), why a batch was closed (`Full`, `Packed`), the log of command lines run (`Log`), and how a run ends (`Ended`) |
| `Run` | `run.dfy` | The toy itself, as class `Xargs` |

In `Run`, the options and the globals `TT.s`, `TT.entries` and `TT.bytes` are the fields of the class `Xargs`. `handle_entries` and `xargs_main` are its methods, with their loops. Each method is proved against the functions of `Accounting` and the predicates of `Batching`.

The input is a sequence of raw records, one per `getdelim` call. Each record is read as the C string it holds (`CStr`).

The child processes are oracles:
- `child(m)` is how the m-th command line's child ends;
- `answer(m)` is the reply to the m-th `-p` prompt.

The main result is the postcondition of `Run.Xargs.XargsMain`. Unless the command alone is too long, it ends in `Batching.Ended`, which says:
- every command line is the command followed by one batch;
- every batch fits `-n` and `TT.s`;
- every batch but the last was closed full: it holds `-n` arguments, or the next argument of the input would have taken it to `TT.s`. So when all of the input's arguments fit with the command, only `-n` splits them: every command line but the last gets exactly `-n` arguments; without `-n` there is at most one command line, and exactly one when the input drained without `-r` (`Batching.AllFit`);
- the batches hand out the input's arguments in order, with none lost, duplicated or reordered, and never the `-E` word or anything after it;
- after a normal end, the batches hold every argument before `-E`;
- "argument too long" happens only when the next argument cannot fit even alone with the command; and a run that drained up to `-E` had the `-E` word fit alone, since its bytes are charged before the `-E` test (xargs.c:70-74);
- with `-r` no command line is empty;
- a command line with no arguments is the last, is run only when nothing has run before, comes only once every argument before `-E` was handed out, and is never followed by "argument too long" (xargs.c:151-154);
- the exit value is the one the exit-value rules give for the children that ran;
- the run ends after a child only when that child exited 126, 127 or 255, and that child's batch was full too or held every argument left before `-E`.

On three points that are easy to misread, the model follows the code:
- The exit value is overwritten by each child that is not quiet; it is not a maximum. A signal (127) followed by an exit of 1 leaves 123 (`ExitStatus.ExitNotMonotone`).
- A child exiting 128 to 254 leaves the exit value unchanged, just as 0 does (xargs.c:186-197).
- With `-0`, each argument is charged a pointer even when `-s` is given (xargs.c:83). Only the whitespace branch drops that charge under `-s` (xargs.c:68).

## Model

| member | source | states |
|---|---|---|
| Tokens.CStr | toys/posix/xargs.c:134-143 | The record handle_entries walks is the C string in the buffer getdelim filled: it holds no NUL, is a prefix of the buffer, and ends at the buffer's first NUL |
| Tokens.SkipSpace | toys/posix/xargs.c:62 | The blank skip stops at the end of the record or on a non-blank, not before |
| Tokens.WordEnd | toys/posix/xargs.c:69-73 | A word that starts on a non-blank is non-empty and ends at the next blank or at the end of the record |
| Tokens.WordsAreBlankFree | toys/posix/xargs.c:61-79 | Every word the whitespace scan yields is non-empty and holds no blank |
| Tokens.WordsSpellInk | toys/posix/xargs.c:61-79 | The words, concatenated in order, are exactly the non-blank characters of the record: none lost, none added, none reordered |
| Tokens.WordsShift | toys/posix/xargs.c:146 | Scanning the copy of a leftover tail gives the same words as scanning on from that point in the original record |
| Tokens.WordsOfSuffix | toys/posix/xargs.c:146 | The words of the leftover copy are the words of the record from the leftover pointer on |
| Accounting.CutAppend | toys/posix/xargs.c:74 | Arguments before the first -E word are unaffected by what follows them |
| Accounting.Charged | toys/posix/xargs.c:70 | When the byte loop gives up, TT.bytes ends at or past TT.s and above its old value: one more than before, or TT.s itself |
| Accounting.WsScan | toys/posix/xargs.c:61-62 | Defines one turn of the whitespace loop up to the blank skip (NULL at the end of the record). It carries no contract of its own; the WsScan lemmas below state what it yields |
| Accounting.WsNext | toys/posix/xargs.c:63-65 | Defines the -n check after the blanks (a leftover, or 1 at the end of the record), NULL at the end, or the word that starts there. No contract of its own; see the WsScan lemmas |
| Accounting.WsWord | toys/posix/xargs.c:65-79 | Defines one word: a leftover at its start when it does not fit, 2 at the -E word, otherwise taken and counted before the scan goes on. No contract of its own; see the WsScan lemmas |
| Accounting.NulScan | toys/posix/xargs.c:82-89 | With -0 the answer is NULL or the whole record as the leftover. NULL takes the record as one entry, only below -n, and leaves TT.bytes below TT.s. A leftover leaves the counters alone |
| Accounting.Handle | toys/posix/xargs.c:55-92 | One call counts one entry per argument it takes; with -0 it answers only NULL or the whole record |
| Accounting.WsScanEntries | toys/posix/xargs.c:61-79 | The whitespace scan counts one entry per word it takes and never takes the -E word |
| Accounting.WsScanTakesAll | toys/posix/xargs.c:61-64 | When the scan returns NULL or 1, it took every remaining word of the record, in order |
| Accounting.WsScanLeftover | toys/posix/xargs.c:61-73 | A leftover pointer sits on a non-blank inside the record; the words taken followed by the words from the pointer are the words of the record |
| Accounting.WsScanStop | toys/posix/xargs.c:74 | Returning 2 means the word right after the ones taken is the -E word |
| Accounting.WsScanBytes | toys/posix/xargs.c:68-73 | Each word taken is charged its length, its NUL and, without -s, a pointer and one more byte; the total stays below TT.s; the -E word is charged too |
| Accounting.WsScanFull | toys/posix/xargs.c:61-73 | The scan returns 1 only once -n entries are counted, and a leftover only when -n is reached or the next word does not fit; the count never passes -n |
| Accounting.FillMatchesCount | toys/posix/xargs.c:75-78 | The filling scan, which writes a NUL and steps over it, takes the same words with the same counters as the counting scan; only NULL may replace 1 |
| Accounting.NulRecord | toys/posix/xargs.c:83-88 | With -0 a record is taken exactly when its pointer, characters and NUL fit below TT.s and -n is not reached; then it is one entry charged exactly that, otherwise the whole record is the leftover and TT.entries and TT.bytes are unchanged |
| Accounting.HandleTakes | toys/posix/xargs.c:55-92 | One call of handle_entries takes the record's arguments in order, one entry each, never the -E word. NULL or 1 means it took all of them. A leftover is the untaken non-empty tail. 2 means the next argument is the -E word, and what was taken is everything before it |
| Accounting.HandleCharges | toys/posix/xargs.c:55-92 | One call charges exactly what it takes and keeps the total below TT.s and the count within -n. It stops early only when -n is reached or the next argument does not fit. When it stops at the -E word, that word was charged too and still fit |
| Accounting.HandleFillMatchesCount | toys/posix/xargs.c:160-164 | The filling call ends with the counters and arguments of the counting call |
| Accounting.Fold | toys/posix/xargs.c:128-148 | Over a batch's records, TT.entries counts exactly the arguments taken |
| Accounting.FoldPrefix | toys/posix/xargs.c:140-143 | The arguments taken from the first records of a batch come first and the count only grows |
| Accounting.FoldFillMatchesCount | toys/posix/xargs.c:158-164 | The filling pass over the batch's records, restarted from the same counters, stores exactly the arguments the counting pass counted |
| Accounting.FoldStep | toys/posix/xargs.c:140-143 | Adding a record to the batch is one more handle_entries call on the counters so far |
| Accounting.NextTakes | toys/posix/xargs.c:143 | One more record of an open batch adds its arguments in order; a leftover or the -E word says which are left |
| Accounting.NextCharges | toys/posix/xargs.c:143 | One more record keeps the batch within TT.s and -n and charges exactly what it adds; a batch that stops at the -E word fits with that word charged too |
| Accounting.CountNext | toys/posix/xargs.c:140-148 | The counting pass after one more record: what it takes of the arguments offered, and why it stops |
| Accounting.StopCut | toys/posix/xargs.c:144 | Once the -E word follows the arguments taken, the arguments before -E in all the input are exactly those |
| Accounting.CutEndsAtStop | toys/posix/xargs.c:74 | What Cut leaves out of the input begins with the -E word |
| ExitStatus.Classify | toys/posix/xargs.c:186-197 | 126 and 127 are passed on and end xargs; 1 to 125 give 123; 255 gives 124 and ends xargs; a signal gives 127; 0 and 128 to 254 change nothing; only 126, 127 and 255 stop |
| ExitStatus.ExitAfter | toys/posix/xargs.c:184-197 | The exit value after any sequence of children is 0, 123, 124, 126 or 127 |
| ExitStatus.ExitZeroIffQuiet | toys/posix/xargs.c:186-197 | xargs exits 0 exactly when every child exited 0 or 128 to 254 |
| ExitStatus.ExitNonzeroAfterLoud | toys/posix/xargs.c:186-197 | Once a child sets the exit value, no later child brings it back to 0 |
| ExitStatus.ExitFromLastLoud | toys/posix/xargs.c:186-197 | The exit value is decided by the last child that was not quiet, and each code names what that child did |
| ExitStatus.ExitNotMonotone | toys/posix/xargs.c:190-197 | A later child can lower the exit value: 127 after a signal becomes 123 after an exit of 1 |
| Batching.EventFor | toys/posix/xargs.c:166-182 | Command line m carries its argv either way; it is refused exactly when -p is given and the m-th answer is no |
| Batching.ExitAfterEvent | toys/posix/xargs.c:166-197 | A command line refused at the prompt leaves the exit value alone; one that ran applies the rules to its child's status |
| Batching.Advance | toys/posix/xargs.c:123-152 | One batch moves the place in the input on by its arguments and shrinks what remains. An empty batch with a leftover means its first argument alone does not fit. An empty batch without one means the input is over |
| Batching.TooLong | toys/posix/xargs.c:151-152 | With an empty batch, the leftover's first argument is the next argument of the input, and it does not fit even alone |
| Batching.Closed | toys/posix/xargs.c:143-148 | A batch closed while input remains is full: it holds -n arguments, or the next argument of the input would take it, with the command, to TT.s |
| Batching.PackedAppend | toys/posix/xargs.c:122-204 | One more batch, full unless the input is done, keeps every batch before the last full |
| Batching.AllFit | toys/posix/xargs.c:122-204 | When the command and all the input's arguments fit below TT.s, every batch but the last holds exactly -n arguments; without -n a run has at most one command line, and drained without -r exactly one, holding every argument before -E |
| Batching.ClosedByCount | toys/posix/xargs.c:143-148 | When the whole input fits below TT.s, a batch before the last was closed by -n, with exactly -n arguments |
| Batching.CutBefore | toys/posix/xargs.c:144 | Arguments free of the -E word precede the cut of anything they begin |
| Batching.LogAppend | toys/posix/xargs.c:157-197 | Running or refusing one more command line of the command and the batch keeps the log of command lines, batch bounds and exit value |
| Batching.LinesAppend | toys/posix/xargs.c:157-182 | The m-th command line is the command followed by the m-th batch, run or refused as the m-th answer says, within -n and TT.s |
| Batching.ExitsAppend | toys/posix/xargs.c:182-197 | The exit value keeps following the children's statuses, and only the last child may have stopped xargs |
| Batching.Finish | toys/posix/xargs.c:151-155 | Leaving the loop (input drained, argument too long, child stopped) establishes Ended: every line and its batch, the exit value, the input consumed up to -E, every batch but the last full, the batch of a child that stopped xargs full or the rest of the input, an empty line only once the input is over, and on a drained input an -E word that fits alone |
| Batching.NoLine | toys/posix/xargs.c:151-154 | A turn whose batch is empty runs nothing: with a leftover it ends the run as "argument too long", after a child ran it ends the run as drained, and otherwise (-r at the end of input) the loop goes round once more with the log unchanged |
| Batching.StopFits | toys/posix/xargs.c:70-74 | A batch that ended at the -E word charged that word too, so when the input holds an -E word it fits alone with the command below TT.s |
| Batching.LineGoes | toys/posix/xargs.c:166-204 | A child that does not end xargs extends the log, keeps every batch before the last full, and the loop goes on from the same place |
| Batching.LineStops | toys/posix/xargs.c:187-195 | A child exiting 126, 127 or 255 ends the run with that line as the last of the log, its batch full or holding the rest of the input before -E |
| Run.Command | toys/posix/xargs.c:111-115 | With no command, the command is echo alone; otherwise the command as given; never empty |
| Run.CommandBytes | toys/posix/xargs.c:118-119 | The command's bytes: each word its characters and NUL, plus a pointer without -s, less one |
| Run.SkipBlanks | toys/posix/xargs.c:62 | The blank-skipping loop ends where SkipSpace says |
| Run.ArgvOfSomes | toys/posix/xargs.c:158-164 | exec reads back from a NULL-terminated argv exactly the words stored in it |
| Run.ArgvOfBatch | toys/posix/xargs.c:158-164 | The filled argv, as exec reads it, is the command followed by the batch |
| Run.WrittenStep | toys/posix/xargs.c:76 | Storing one more argument is one store into the next slot |
| Run.ReadRecord | toys/posix/xargs.c:131-140 | Reading the next record moves its arguments from the unread input into the record being handled |
| Run.EndAtEof | toys/posix/xargs.c:134-137 | At the end of the input the batch is everything supplied |
| Run.GoOn | toys/posix/xargs.c:143 | When handle_entries asks for more, the batch stays open and has taken the whole record |
| Run.EndAfter | toys/posix/xargs.c:143-148 | Any other answer ends the batch: the leftover copy keeps exactly the untaken arguments, and 2 ends the input at the -E word |
| Run.Xargs.HandleEntries | toys/posix/xargs.c:55-92 | The answer, TT.entries and TT.bytes are those of Handle; with entry, the arguments taken are stored from slot TT.entries on and nothing else changes |
| Run.Xargs.HandleWords | toys/posix/xargs.c:57-79 | The whitespace loop ends with the answer and counters of WsScan and stores exactly its arguments |
| Run.Xargs.WordStep | toys/posix/xargs.c:61-79 | One turn of the loop either ends the scan with its answer or takes one more word and moves past it |
| Run.Xargs.NextWord | toys/posix/xargs.c:61-65 | After the blanks: stop at -n (leftover or 1), at the end (NULL), or take the word there |
| Run.Xargs.ChargeWord | toys/posix/xargs.c:69-73 | The byte loop gives up exactly when the word and its NUL do not fit, charging up to TT.s; otherwise it charges them and ends at the word's end |
| Run.Xargs.TakeWord | toys/posix/xargs.c:65-78 | A word that does not fit is a leftover at its start; the -E word returns 2; otherwise it is stored and counted |
| Run.Xargs.ReadStep | toys/posix/xargs.c:128-149 | One turn of the reading loop: read or reuse a record, count it, and either ask for more or end the batch as BatchEnd says |
| Run.Xargs.ReadBatch | toys/posix/xargs.c:124-149 | The reading loop ends with the counting pass over the batch's records, and the batch relates to what was offered as BatchEnd says |
| Run.Xargs.FillRecord | toys/posix/xargs.c:163-164 | The filling call on record m moves the counters and stored arguments on from those of the filling pass over the records before it to those of the pass that includes it |
| Run.Xargs.NewArgv | toys/posix/xargs.c:158-159 | The new argv is zeroed with the command's words in front |
| Run.Xargs.FillArgv | toys/posix/xargs.c:158-164 | The filled argv is the command's words, the batch's arguments and a final NULL |
| Run.Xargs.ReadPlaced | toys/posix/xargs.c:123-149 | The batch read moves the place in the input on and fits -n and TT.s; unless the input is done it is full, and once it is done an -E word in the input fits alone |
| Run.Xargs.Gather | toys/posix/xargs.c:123-164 | One batch is read and placed within -n and TT.s, and unless the input is done it is full. The argv is built unless the batch is empty and there is a leftover, a child ran, or -r was given; then it is the command and the batch |
| Run.Xargs.Launch | toys/posix/xargs.c:166-197 | The command line is refused or run as the oracles say, and the exit value and the stop follow Classify |
| Run.Xargs.Round | toys/posix/xargs.c:123-204 | One turn of the outer loop keeps Place, Log and every batch but an input-ending last one full, shrinks the input, and once the input is done an -E word in it fits alone; or it leaves the loop in a state Ended describes |
| Run.Xargs.Line | toys/posix/xargs.c:166-204 | Running one command line either keeps Place, Log and the fullness of the batches or ends the run with it, the stopping line's batch full or holding the rest of the input |
| Run.Xargs.Batches | toys/posix/xargs.c:123-204 | The outer loop ends in a state Ended describes: every line, its batch, the exit value, the input consumed up to -E, every batch but the last full, the batch of a stopping child full or the rest of the input, an empty line only once the input is over and never before "argument too long" |
| Run.Xargs.XargsMain | toys/posix/xargs.c:94-206 | TT.s is set as ARG_MAX less the environment and 4096 unless -s. The command is echo by default. "command too long" happens exactly when the command's bytes reach TT.s, and then nothing runs. Otherwise the run ends as Ended says, with every batch but the last, and that of a child that stopped xargs, filled as far as -n and TT.s allow or holding the rest of the input, and a command line with no arguments only once the input is over and never before "argument too long" |

## Left out

- Process creation, exec and `waitpid` (xargs.c:177-182) are not modelled. The child's fate is the oracle `child(m)`, and the `-o` redirection of its stdin is left out.
- The `-p` prompt, the `/dev/tty` open and `fyesno` (xargs.c:166-175) are left out. The reply is the oracle `answer(m)`. A failing tty open, and the `-t` and `-p` trace output to stderr, are not modelled.
- The `exited with status 255; aborting` message on stderr (xargs.c:193) is not modelled; `Classify` keeps only the exit value 124 and the stop.
- `sysconf(_SC_ARG_MAX)` and `environ_bytes()` (xargs.c:106) are parameters of `XargsMain`. `environ_bytes` lives in lib/, which is not part of this model.
- `getdelim` (xargs.c:134) is replaced by a sequence of raw records, each read as its C string. Allocation failures are not modelled.
- `error_exit` (xargs.c:120, 152) is modelled by the endings `CommandTooLong` and `ArgumentTooLong`. Its message and exit status come from lib/, which is not part of this model.
- The double list, `xstrdup`, `free` and `llist_traverse` (xargs.c:140, 146, 162, 201-203) are modelled as values. The leftover copy is a new sequence and the records are a sequence. Memory release is not modelled.
- Run.Xargs.HandleEntries: does not model the NUL bytes the filling pass writes into the record in place (xargs.c:77), nor the aliasing of argv slots with the record buffers. Stored arguments are copies of the words, and the filling pass steps over the word's delimiter as the code does.
- Batching.Ended: does not decide whether a command line with no arguments follows a batch closed by `-n` when no child ran before it (under `-p`, every earlier line was declined). Whether the code reads once more and runs the bare command depends on whether the last record ends in a blank (xargs.c:61-63): a blank after the last word makes the `-n` check return 1 first. `Ended` sees the input as its list of arguments, which loses the record's trailing blanks. It states only that such a line is the last, that no child ran before it, that `-r` is off, and that every argument before `-E` was handed out.
- A `char` of the model stands for one byte of a record. Dafny's `char` ranges wider than a byte; no part of the model relies on the wider range, and multi-byte encodings are not modelled.
- Option parsing (xargs.c:13) is not modelled. The options are fields of `Xargs`, and the constraint `-n >= 1` is the model's `n == 0` for "not given". `-P`, `-I`, `-L` and `-x` are not implemented in the source either.
- `TT.s`, `TT.bytes` and the `int` counters of `xargs_main` are unbounded integers. Overflow of `long` and `int` is not modelled.
- `sizeof(void *)` and `sizeof(char *)` are taken as 8 (a 64-bit target).
- The line-number oracles make each command line's child depend only on its position. Commands that read xargs' own environment or input are outside the model.

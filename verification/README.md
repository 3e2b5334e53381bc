# Verification of the process, pipe and file layer

A Dafny model of the logic between the system calls of this library, with proofs about every
run of it. The kernel, libuv and the other threads are small explicit transition systems, or
scripts over which every theorem is quantified; the library's own code is modelled in the form
it has: loops over arrays, objects whose methods update their fields, and a state machine where
threads interleave. `dafny verify dfyconfig.toml` checks everything.

| file | what it models |
|---|---|
| `WaitProtocol.dfy` | `mpp::process` waiting: three caches, a pool worker, the loop, a child that can be reaped once; the timed wait |
| `AwaitWork.dfy` | the destructor's wait for one queued job of any kind, under endless schedules |
| `Communicate.dfy` | many `communicate()` calls over bounded pipes and one FIFO thread pool, as a step machine |
| `Session.dfy` | `communicate()` in parts and repeated, mixed with waits and reads through the streams, up to the destructor |
| `CommandLine.dfy` | Windows command-line quoting against the argument rules of the C runtime |
| `EnvBlock.dfy` | the Windows environment block: merge, size in `size_t`, writer, block parser |
| `Descriptors.dfy` | the child's dup2/close sequence and the range-split close |
| `CreateProcess.dfy` | the parent: binding streams, fail pipe, rollback, the handle's closes |
| `Spawn.dfy` | parent and child together: what the child reports and what the parent makes of it |
| `ExecSearch.dfy` | PATH split in place, the exec search, the argv shift for the shell and its undo |
| `FileIO.dfy` | file reads and writes with deadlines, a cancel that races with the worker |
| `Descendants.dfy` | the descendant walk with an explicit stack and no visited set |
| `StreamBuf.dfy` | the stream buffer with a putback area, and the unbuffered output side |
| `StatLine.dfy` | the start time out of a proc(5) stat line |
| `Common.dfy` | optional values, C strings, character search, memmove |

## What the proofs found

Some natural properties fail; each is stated with the exact condition under which it holds.

- A command line comes back exactly when its first element does: the runtime reads the program
  name by rules of its own, so a quoted program name must hold no quote and must not end in a
  backslash (`RoundTrip`, `ProgramNameCounterexamples`).
- The overflow guards of the environment block decide correctly exactly for values of at most
  `PTRDIFF_MAX - 2` characters; above that the subtraction wraps (`GuardsExact`).
- An environment reaches the child unchanged exactly when every overriding key has no `=` apart
  from a leading one with more text behind it (`EnvironmentBlock`, `KeyWithEquals`).
- The child's descriptors are as configured exactly when no redirect target in use is 0, 1 or 2;
  such a target is closed again behind the dup2 calls (`ChildProc`, `RedirectedToStderr`).
- A failed pipe behind a redirected stream closes the caller's descriptor, and closes it twice,
  because src/process.cpp:44-57 asks only about inheritance. Every failure restores the table,
  whatever the kernel answers, exactly when no pipe is needed behind a redirected stream
  (`RestoredUnderEveryKernel`, `Create`, `RedirectLost`). The comment at src/process.cpp:64-65
  promises otherwise.
- Creation succeeds exactly when the child executed or died without a word: a child killed
  before exec looks to the parent like one that executed (`Spawn.Create`).
- `communicate()` can deadlock with fewer than three pool threads, for every pipe size, and never
  with three (`DeadlockFreeIff`).
- The descendant walk ends exactly when the root does not descend from itself (`EndsUnlessCycle`,
  `TwoInACycle`).
- A refill that brings nothing has already overwritten the putback area: going back is then right
  for every stream exactly within the last chunk (`UngetAfterMissIff`), past it only when two bytes
  happen to be equal (`UngetAfterMiss`, `PutbackWrong`), and in general exactly where no byte is out
  of place (`UngetRightIff`); a later refill puts it right again if the last chunk had at least four
  bytes (`RecoversBehindAChunk`).
- `wait_timeout_ms` is truthful under every schedule exactly when the code is cached, no wait is
  queued, or the true code is 0: with a wait queued the worker may reap first, and the call then
  returns and caches the ECHILD placeholder (`TimedTruthIff`, `TimedPlaceholder`).
- The destructor's wait for a job, wait or reader, ends exactly when the cancel comes before a
  worker or what holds the worker up, the child or the stream, ends; otherwise it goes on for ever
  (`EndsIff`, `AwaitEndsIff`, `HeldForEver`). It closes stdin only behind its joins, too late for
  a child that waits for the end of its input (`Destroy`).
- The start time is not read but the terminator stepped over exactly when the last character read
  is a parenthesis, which no line of the kernel is (`GetProcessStartTime`, `ParenthesisLast`,
  `StatRoundTrip`).
- The comment at src/process_unix.cpp:528-529 counts a zero-length read of the fail pipe as a
  failure; the code takes it for success, and so does the model.

## Model

| member | source | states |
|---|---|---|
| WaitProtocol.ReactsSound | include/mozart++/mpp_system/process.hpp:167-171 | Whatever the child, the pool and its worker do between two calls, in any order and number, the child is reaped at most once and a finished work item holds the decoded status, never the ECHILD placeholder. |
| WaitProtocol.SettleSettles | src/process_unix_wait.cpp:120-155 | Once the child has ended, or if it ends now, one more round of the pool ends the wait. |
| WaitProtocol.WorkerReapsFirst | src/process_unix_wait.cpp:133-141 | Whatever stage a queued wait has reached, the worker can be the one that reaps; from then on the kernel answers ECHILD to everybody else. |
| WaitProtocol.TimedTruthIff | include/mozart++/mpp_system/process.hpp:335-346 | The answer of a timed wait is true under every schedule and every interruption of its sleeps iff the code is cached, no wait is queued, or the true code is 0. |
| WaitProtocol.TimedPlaceholder | include/mozart++/mpp_system/process.hpp:335-368 | From the constructor to a wrong answer: a wait is queued, the worker reaps, and the timed wait returns and caches 0 whatever the child's code. |
| WaitProtocol.AwaitEndsIff | include/mozart++/mpp_system/process.hpp:225-240 | For every endless schedule in which the pool keeps serving, the destructor's wait ends iff the cancel comes before a worker, the worker is not held up in waitid by a running child, or the child ends. |
| AwaitWork.EndsIff | include/mozart++/mpp_system/process.hpp:225-240 | The same for any queued job, the readers included: the wait for it ends iff no worker is held up by it, or what holds the worker up, the child or the stream, ends. |
| AwaitWork.HeldForEver | include/mozart++/mpp_system/process.hpp:225-240 | A worker held up by something that goes on: the pool serves at every turn, and still no turn ends the wait. |
| WaitProtocol.Process.WaitFor | src/process_unix_wait.cpp:120-155 | For a child that ends the blocking wait ends; if no wait is queued it gives the exit status, or 128 plus the signal that killed the child, as the only reap, and otherwise exactly what the schedule leaves it. |
| WaitProtocol.CodesApart | src/process_unix_wait.cpp:143-149 | A code tells how the child ended: an exit status below 128 and a signal of at least 1 never give the same, and equal codes mean the same status or the same signal. |
| WaitProtocol.Process.BeginWait | include/mozart++/mpp_system/process.hpp:353-368 | Idempotent: a wait is queued afterwards iff one was, or no code is cached and the submission succeeds; nothing else changes but what the rest of the system does. |
| WaitProtocol.Process.PollWait | include/mozart++/mpp_system/process.hpp:376-399 | True iff the end is known, and then the child really has ended; false only while the child runs or the work is still with the pool. |
| WaitProtocol.Process.HasExited | include/mozart++/mpp_system/process.hpp:427-449 | The same answer as poll_wait by the same evidence, and nothing known is ever revised. |
| WaitProtocol.Process.CollectWait | include/mozart++/mpp_system/process.hpp:406-425 | For a child that ends it ends under every schedule with the exit status, or 128 plus the signal, cached, the child reaped and no work left. |
| WaitProtocol.Process.AwaitWork | include/mozart++/mpp_system/process.hpp:225-240 | The cancel-and-drain ends if the child does or the cancel comes before a worker; afterwards neither the pool nor the loop holds a work item that points here, and a worker that had taken the wait has reaped. |
| WaitProtocol.Process.TimedWait | src/process_unix_wait.cpp:190-241 | Ends even if the child never does; no 64-bit overflow; on a timeout the time slept is at least the timeout and less than a poll interval more, an interval being at least one millisecond, and the child still runs; the answer is exactly what the schedule gives a countdown that charges interrupted sleeps what they took. |
| WaitProtocol.Process.WaitTimeoutMs | include/mozart++/mpp_system/process.hpp:335-346 | The answer for the schedule and the sleeps at hand, cached; the child's own code whenever no wait is queued; none only while the child runs; with no wait queued it is the exit status or 128 plus the signal. |
| WaitProtocol.Client | include/mozart++/mpp_system/process.hpp:353-449 | Any sequence of calls under any interleaving: each answer is what its call says of the process at that time, every code is the decoded status, an end once reported is never taken back, and the child is reaped at most once. |
| Communicate.StepInv | include/mozart++/mpp_system/process.hpp:167-186 | Every step of children, pipes, pool and loop keeps the invariant: no byte is lost, doubled or reordered between script, pipe and reader, and a finished job has seen its process through. |
| Communicate.OldestRuns | include/mozart++/mpp_system/process.hpp:494-525 | With at least three threads the oldest unfinished process has all its jobs taken by threads, or fewer than three threads are busy and the next of them can start. |
| Communicate.Progress | include/mozart++/mpp_system/process.hpp:494-525 | With at least three threads and any pipe size some step other than a new call is possible while a job is unfinished or its callback has not run. |
| Communicate.StepDecreases | include/mozart++/mpp_system/process.hpp:548-570 | Every step lowers one natural measure, so no schedule goes on for ever. |
| Communicate.RunBounded | include/mozart++/mpp_system/process.hpp:548-570 | The length of any run from any reachable state is bounded by the measure. |
| Communicate.ThreeThreadsSuffice | include/mozart++/mpp_system/process.hpp:494-582 | With three threads no reachable state is stuck, for any number of children with any scripts. |
| Communicate.ReachJam | include/mozart++/mpp_system/process.hpp:494-525 | With fewer than three threads there is a run, for every pipe size, into the state where a child fills a pipe whose reader has no thread. |
| Communicate.JamIsStuck | include/mozart++/mpp_system/process.hpp:494-525 | In that state nothing can move any more. |
| Communicate.DeadlockFreeIff | include/mozart++/mpp_system/process.hpp:494-582 | communicate() is free of deadlock iff the pool has at least three threads. |
| Communicate.CompleteResults | include/mozart++/mpp_system/process.hpp:548-570 | When nothing is pending, each process has handed over exactly what it wrote to its captured streams, and its real exit status. |
| Communicate.RunsComplete | include/mozart++/mpp_system/process.hpp:578-582 | With three threads any run is bounded and can go on while something is pending, and when nothing is, every process that was begun has delivered exactly its output and status. |
| Communicate.MaximalRunDelivers | include/mozart++/mpp_system/process.hpp:494-582 | A run that can go no further has begun every process and delivered the output and status of each. |
| Session.Channel.RunLoop | include/mozart++/mpp_system/process.hpp:173-186 | A turn of the loop hands nothing to the caller, keeps what a finished reader holds equal to the stream between the caller and its position, and brings a reader whose stream ends closer. |
| Session.Channel.Take | include/mozart++/mpp_system/process.hpp:293-308 | A byte read through the stream is the one behind what the caller has; none only at the end or after a failed read. |
| Session.Session.CloseStdin | include/mozart++/mpp_system/process.hpp:314-327 | Idempotent; afterwards the input side refuses every write, and the descriptor, closed once, is no longer owned. |
| Session.Session.BeginCommunicate | include/mozart++/mpp_system/process.hpp:494-525 | Closes stdin; a wait is queued iff one was, or the code is not known and the submission succeeds; a captured stream gets a reader iff it had none and the submission succeeds; a failed submission loses nothing. |
| Session.Session.PollCommunicate | include/mozart++/mpp_system/process.hpp:534-542 | True iff end_communicate will find both readers ready; nothing is handed over. |
| Session.Session.EndCommunicate | include/mozart++/mpp_system/process.hpp:548-570 | For a child and streams that end it ends under every schedule; each pending reader's text is handed over once, complete up to the end of the stream unless a read failed, with the child's exit status or 128 plus its signal. |
| Session.Session.Communicate | include/mozart++/mpp_system/process.hpp:578-582 | Also for a child that ends only behind the end of its input: each text is the stream from where the caller was to where it is now, all of it for a captured stream whose reader was queued, unless a read failed, and empty otherwise; stdin is closed and the code is the child's exit status or 128 plus its signal. |
| Session.CommunicateTwice | include/mozart++/mpp_system/process.hpp:578-582 | The first call returns all that the caller had not got, the second empty texts and the same exit code, with one reap in all. |
| Session.Perform | include/mozart++/mpp_system/process.hpp:353-582 | One call, whichever it is: its reply and the change of streams, exit knowledge and owned descriptors are exactly what that call does, and nothing else changes. |
| Session.TextsJoined | include/mozart++/mpp_system/process.hpp:494-570 | Over any calls, replied to as their relations say, the texts of the replies joined are the stream from where the caller was to where it is, in order and without a gap. |
| Session.CollectedWhole | include/mozart++/mpp_system/process.hpp:494-570 | Whatever else is called before, in between and after: once a reader was queued for a captured stream and end_communicate called later, nothing of the stream is missing unless a read failed. |
| Session.ExitsTruthful | include/mozart++/mpp_system/process.hpp:353-449 | The replies about the exit give only the true code and never say "running" after an end was reported. |
| Session.Client | include/mozart++/mpp_system/process.hpp:353-582 | Any mix of close_stdin, stream reads, waiting calls and communicate calls in parts: every reply is what its call did, and so the texts are the child's output in order, whole once queued and collected, and the answers about the exit are truthful. |
| Session.Session.Destroy | include/mozart++/mpp_system/process.hpp:245-252 | With any of the wait, stdout and stderr jobs in flight, before or after close_stdin: while the descriptors are open all jobs are joined, so that neither the pool nor the loop holds one any more, a worker that was waiting has reaped and one that was reading has read to the end; then each descriptor owned is closed once and nothing else. |
| Session.Lifetime | include/mozart++/mpp_system/process.hpp:225-252 | From creation over any calls to the destructor: every reply is what its call did, from an unused object with exactly the parent's pipe ends on; the texts are the beginning of what the child wrote, all of it once queued and collected if no read fails, and empty for a stream not captured; in the end the descriptor table is as before with no close gone wrong. |
| CommandLine.EscapeInto | src/process_win32.cpp:216-242 | The nested counting loops append the escaped text and change nothing before it. |
| CommandLine.QuotedIff | src/process_win32.cpp:209-216 | An argument is left as it is iff it is not empty and holds no blank, tab, newline, vertical tab or quote. |
| CommandLine.BuildLine | src/process_win32.cpp:207-246 | The stream after the loop is the command line of the whole list. |
| CommandLine.ReadEscaped | src/process_win32.cpp:221-240 | Inside quotes, and after any run of backslashes already counted, the C runtime reads the escaped argument back and stops behind it. |
| CommandLine.ReadBare | src/process_win32.cpp:212-214 | An argument that needs no quotes is read back as it stands. |
| CommandLine.ReadLineOfArguments | src/process_win32.cpp:207-246 | Every list of arguments after the program name comes back exactly, empty ones and any mix of quotes, blanks and backslashes included. |
| CommandLine.ProgramRoundTrip | src/process_win32.cpp:207-246 | The program name comes back iff it needs no quotes, or holds no quote and does not end in a backslash. |
| CommandLine.RoundTrip | src/process_win32.cpp:207-246 | The whole line is read back as the list that was quoted iff the program name survives. |
| CommandLine.LineNulFree | src/process_win32.cpp:207-246 | Quoting adds no NUL. |
| CommandLine.CommandBuffer | src/process_win32.cpp:246-353 | The writable buffer holds one C string, which the child reads as the original list iff the program name survives. |
| CommandLine.ProgramNameCounterexamples | src/process_win32.cpp:207-246 | Two program names, one with a blank and a final backslash and one with a quote, that do not come back. |
| EnvBlock.GuardsExact | src/process_win32.cpp:308-311 | In wrapping 64-bit arithmetic the two guards accept exactly what fits iff the value is at most PTRDIFF_MAX - 2 long. |
| EnvBlock.BlockSize | src/process_win32.cpp:299-314 | The precomputed size is refused iff the block is larger than any object, and is otherwise the number of characters written, for the empty block as well. |
| EnvBlock.EndsTwice | src/process_win32.cpp:320-333 | Whatever it lists, a block ends with two NULs, and the empty one is just these. |
| EnvBlock.WriteBlock | src/process_win32.cpp:316-341 | The moving pointer ends exactly at the end of the array, the copy check never fails, and the array is the block of the entries. |
| EnvBlock.ParseBlock | src/process_win32.cpp:257-272 | The parsing loop finds the meaning of the listed strings, the first entry of a key counting and hidden drive variables keeping their leading `=`. |
| EnvBlock.FirstCounts | src/process_win32.cpp:260-273 | A key has the value of the first string of the block that gives it, and no other key is there. |
| EnvBlock.BlockRoundTrip | src/process_win32.cpp:316-338 | Writing and then parsing restores the variables iff every key is restorable. |
| EnvBlock.ListVariables | src/process_win32.cpp:284-289 | The vector lists every variable with a non-empty key once, with its value. |
| EnvBlock.ListsPermuted | src/process_win32.cpp:290-297 | Sorting, whatever the comparison, keeps it such a listing. |
| EnvBlock.ChildEnvironment | src/process_win32.cpp:284-338 | The child's environment is the merged one without the empty key iff all keys are restorable, for every order of the entries. |
| EnvBlock.OnlyOverridesMatter | src/process_win32.cpp:255-278 | What came from the parent's block is always restorable, so the overrides alone decide. |
| EnvBlock.EnvironmentBlock | src/process_win32.cpp:253-342 | Nothing is passed iff the parent's environment is wanted without overrides; otherwise the block lists the merge, is refused iff it is larger than any object, and parsing it gives the merge iff every overriding key is restorable; in the merge an override wins and every other key is the parent's if inherited, which is also what the child finds when all overriding keys are restorable; the entries ascend in the order of the sort. |
| EnvBlock.SizeOfListing | src/process_win32.cpp:290-314 | Whether the block is too large depends on the variables alone, not on the order the sort chose. |
| EnvBlock.NothingOverridden | src/process_win32.cpp:251-253 | Passing nothing means the same environment as merging without overrides. |
| EnvBlock.OverridesWin | src/process_win32.cpp:256-281 | An override beats the parent's value, which counts for every other key if the environment is inherited. |
| EnvBlock.KeyWithEquals | src/process_win32.cpp:260-338 | A variable a=b with the value c reaches the child as a variable a with the value b=c. |
| EnvBlock.DriveVariable | src/process_win32.cpp:264-269 | A hidden drive variable keeps its name with the leading sign. |
| Descriptors.FdTable.ClosePipe | include/mozart++/mpp_foundation/io.hpp:127-131 | Both ends are closed, and a pair that names one descriptor twice closes it a second time in vain. |
| Descriptors.FdTable.CloseAllDescriptors | src/process_unix.cpp:90-122 | Whatever close_range answers, partial failures included, exactly the descriptors below from_fd and fail_fd remain below the cap, unchanged, as with the brute-force loop alone. |
| Descriptors.HighTargetsRight | src/process_unix.cpp:354-397 | With no redirect target on a standard descriptor the three streams refer to their configured sources, even when streams share a target, and the fail pipe survives. |
| Descriptors.LowTargetLost | src/process_unix.cpp:395-397 | A redirect target on a standard descriptor is closed again, so one of 0, 1 and 2 is missing. |
| Descriptors.RedirectedToStderr | src/process_unix.cpp:354-397 | Stdin redirected to descriptor 2 with everything else inherited: the child has no descriptor 2. |
| Descriptors.Plumb | src/process_unix.cpp:354-397 | The close, dup2 and close sequence turns the forked table into the planned one. |
| Descriptors.PipesClosed | src/process_unix.cpp:358-397 | Every pipe end but the way back to the parent is closed one by one, the parent's ends included. |
| Descriptors.ChildProc | src/process_unix.cpp:343-430 | At exec, reached iff chdir and fcntl succeed, the table is as configured, merged stderr equal to final stdout and nothing else open but the close-on-exec fail pipe, iff no redirect target in use is 0, 1 or 2; the fail pipe stays open in any case; no end of a pipe is left open, whatever the limit of the fallback. |
| CreateProcess.ReadFully | src/process_unix.cpp:132-157 | However the report is split and interrupted: its first bytes, fewer only at the end, and -1 only for an error before that many. |
| CreateProcess.RedirectOrPipe | src/process.cpp:19-29 | A target fills both ends of the pair and opens nothing; otherwise a new pipe does, or the call fails. |
| CreateProcess.AwaitExec | src/process_unix.cpp:509-537 | Both ends of the fail pipe end up closed; four bytes are an exec error with that errno, silence is success, anything else a failed read; the report is read only once the parent's own write end is closed. |
| CreateProcess.CreateProcessImpl | src/process_unix.cpp:484-580 | Which step failed is exact; on failure the parent's table and the pairs are as before, on success the child's ends are closed and nothing else. |
| CreateProcess.BindStreams | src/process.cpp:41-58 | The first pipe needed and refused decides the failure, which undoes the earlier pipes but also closes exactly the redirect targets bound before it. |
| CreateProcess.RestoredUnderEveryKernel | src/process.cpp:41-58 | For the caller: every failure restores the table whatever the kernel answers iff no pipe is needed behind a redirected stream. |
| CreateProcess.RedirectLost | src/process.cpp:44-47 | Stdin redirected to descriptor 5 and no pipe for stdout: creation fails, 5 is closed, and closed once too often. |
| CreateProcess.CloseBound | src/process.cpp:45-55 | The early close asks only about inheritance: a redirect target is closed, and closed twice. |
| CreateProcess.Rollback | src/process.cpp:60-77 | The rollback closes exactly the pipes opened by the call. |
| CreateProcess.GrantedForked | src/process_unix.cpp:484-500 | The table at the fork meets what the child's code relies on. |
| CreateProcess.FailPipeCloses | src/process_unix.cpp:484-491 | The fail pipe is born with close-on-exec. |
| CreateProcess.Create | src/process.cpp:31-78 | Success, exactly when every answer is good, hands over exactly the parent's pipe ends; a failure, which one being exact, leaves the table as it was iff no pipe was refused behind a redirected stream, and otherwise lacks exactly the targets bound before. |
| CreateProcess.WhichFailure | src/process.cpp:41-78 | The failure is that of the first pipe needed and refused, else of the fail pipe, of the fork, of four bytes of report as an errno, or of a report that is cut short or unreadable. |
| CreateProcess.Handle.CloseStdin | include/mozart++/mpp_system/process.hpp:314-327 | The first call closes the write end, later ones do nothing. |
| CreateProcess.Handle.Destroy | include/mozart++/mpp_system/process.hpp:245-252 | Every end still owned is closed once. |
| Spawn.Child | src/process_unix.cpp:328-430 | The child's own code, with an environment of its own or an inherited one, ends in exec, in a report of the first error it meets, chdir before fcntl before exec, on an open fail pipe, or in silence if it is killed; at exec its table is as configured iff no redirect target is a standard descriptor. |
| Spawn.Create | src/process_unix.cpp:484-537 | With pipes and fork granted, creation succeeds iff the child executed or died without a word; otherwise the parent throws with the very errno the child met, and its table is as before. |
| Spawn.NumberOfBytes | src/process_unix.cpp:328-346 | An errno written as four bytes is read back as the same number. |
| ExecSearch.JoinSplit | src/process_unix.cpp:173-201 | Joining the components with colons gives PATH back. |
| ExecSearch.ComponentsWithoutColon | src/process_unix.cpp:190-198 | No component holds a colon. |
| ExecSearch.CountComponents | src/process_unix.cpp:177 | There is one component more than there are colons, so the vector has the right size. |
| ExecSearch.EffectivePathv | src/process_unix.cpp:173-201 | After the in-place cuts the i-th pointer leads to the i-th component as a C string, `.` for an empty one. |
| ExecSearch.Process.ExecveWithoutShebang | src/process_unix.cpp:207-222 | The shell gets its own name, the script and the other arguments, within the spare slot, and argv is afterwards what it was. |
| ExecSearch.Process.ExecveOrShebang | src/process_unix.cpp:228-235 | The file is tried first, the shell only for ENOEXEC, and the last answer stays in errno. |
| ExecSearch.Process.FillPath | src/process_unix.cpp:277-284 | The candidate is directory, one slash and file, terminated, written inside the PATH_MAX buffer. |
| ExecSearch.Process.SearchPath | src/process_unix.cpp:268-324 | The loop makes the attempts and leaves the errno of the search, with argv the same before every attempt. |
| ExecSearch.SearchIsFound | src/process_unix.cpp:268-324 | The search stops at the first success or error that is not one to skip; otherwise errno is EACCES if any candidate gave it, else what the last directory gave. |
| ExecSearch.Process.Execvpe | src/process_unix.cpp:240-326 | An inherited environment leaves all to execvp; an empty name is errno 2 without an attempt; a name with a slash is tried as it is, and through the shell iff that gives errno 8; any other name is tried in each directory of PATH, or of the current directory, /bin and /usr/bin, with one slash in between, going past exactly errnos 13, 2, 20, 40, 116, 19 and 110 and paths that are too long. |
| ExecSearch.DefaultPath | src/process_unix.cpp:159-171 | Without PATH the directories are the current one, /bin and /usr/bin, in that order. |
| ExecSearch.DirectoryOf | src/process_unix.cpp:190-198 | An empty component of PATH is the current directory, any other stands for itself. |
| FileIO.WriteLeaves | process.cpp:291-299 | A write that failed, fell short or came late leaves everything in front of its offset, and an acknowledged prefix stands at the offset. |
| FileIO.Loop.Complete | process.cpp:82-88 | The callback stores the result and runs once; the request, its result and the times of its wait go on record. |
| FileIO.Loop.WaitWithDeadline | process.cpp:100-131 | Returns only after the one callback, with one cancel iff late; the deadline counts from the first look at the clock behind the submission; late means that it had passed when looked at, on time that it had not when the loop last came back empty; a negative deadline never passes. |
| FileIO.File.CloseFile | include/mozart++/mpp_system/file.hpp:185-209 | The descriptor is released by the first call only. |
| FileIO.File.Read | process.cpp:206-252 | A request is served iff the file is open for reading and takes it, and is given its deadline; data is returned iff its result is positive and on time, and is the file's bytes at the old position; null never moves the position; empty means end of file. |
| FileIO.File.Write | process.cpp:262-326 | A request is served iff the file is open for writing, takes it and the data fits in 32 bits, and is given its deadline; the position moves by exactly what is acknowledged, the bytes in front of it are the old ones and the acknowledged prefix, and a late result is -1 whatever the disk did. |
| FileIO.File.Flush | process.cpp:333-363 | True iff the request was served, succeeded and was on time; it is given its deadline. |
| FileIO.ReadsJoin | process.cpp:206-252 | Over any calls but writes the results of the reads joined are the file from the old position to the new one, and behind an empty result for a positive size the position is the end of the file. |
| FileIO.WritesJoin | process.cpp:262-326 | Over any calls the file up to the write position is what was there plus the acknowledged prefixes of the write calls in order. |
| FileIO.LateOnlyByDeadline | process.cpp:100-131 | A request that was served is answered by its result alone unless it was cancelled, which is no sooner than its deadline after the wait began, and never without a deadline. |
| FileIO.Client | process.cpp:206-363 | Any mix of reads, writes, flushes and closes, with any deadlines and race outcomes: each reply is what its call did, one request served for each that reaches the disk, so that a missing result is excused only by a file not open for it, no submission, an error or a deadline that passed, and no result is withheld as late from a call without a deadline; reads and writes join as above. |
| Descendants.CollectChildren | src/process_win32_wait.cpp:47-54 | The map holds, for each parent that occurs, its children in snapshot order. |
| Descendants.ChildrenAreChildren | src/process_win32_wait.cpp:47-54 | With unique pids those are the pids whose parent it is, each once. |
| Descendants.ChildrenNew | src/process_win32_wait.cpp:63-73 | The children of a popped pid have not been seen: a pid could repeat only if its parent did, up to a cycle through the root. |
| Descendants.TurnSound | src/process_win32_wait.cpp:63-73 | Every turn keeps stack and order free of repeats, made of descendants, with parents first and no child forgotten. |
| Descendants.Traverse | src/process_win32_wait.cpp:57-73 | The loop ends and lists every proper descendant exactly once, parents before children. |
| Descendants.TerminateDescendants | src/process_win32_wait.cpp:27-77 | Every descendant but pid 0 and the own process is killed exactly once, each before its parent. |
| Descendants.CycleNeverEmpties | src/process_win32_wait.cpp:63-73 | If the root descends from itself the stack always holds a pid of the cycle. |
| Descendants.EndsUnlessCycle | src/process_win32_wait.cpp:57-73 | The loop ends iff the root does not descend from itself. |
| Descendants.TwoInACycle | src/process_win32_wait.cpp:57-73 | Two processes that name each other as parent: the stack is never empty. |
| StreamBuf.FdInBuf.SavePutback | include/mozart++/mpp_foundation/fdstream.hpp:157-168 | The last bytes read, at most four, stand in front of the buffer, as intact as they were. |
| StreamBuf.RefilledValid | include/mozart++/mpp_foundation/fdstream.hpp:157-184 | A refill that brings bytes keeps every byte in use tied to its stream position, and while no refill misses nothing is ever out of place. |
| StreamBuf.FdInBuf.Underflow | include/mozart++/mpp_foundation/fdstream.hpp:150-184 | The next byte without moving on; a refill happens only at the end of the buffer and changes indices and layout by exactly the number of bytes that came; a refill that misses moves the putback bytes and nothing else. |
| StreamBuf.FdInBuf.Get | include/mozart++/mpp_foundation/fdstream.hpp:150-184 | The stream's byte at the position, which moves by one; nothing only at the end or after an error. |
| StreamBuf.FdInBuf.Unget | include/mozart++/mpp_foundation/fdstream.hpp:143-145 | Goes back iff there is something to put back, by one, and yields the byte of the stream position that place was filled from: the true previous byte wherever nothing is out of place. |
| StreamBuf.FdInBuf.Drain | include/mozart++/mpp_system/process.hpp:173-180 | Reading to the end yields the rest of the stream, however read splits it, unless a read fails. |
| StreamBuf.Reader | include/mozart++/mpp_foundation/fdstream.hpp:130-184 | Any mix of get and unget over any split of the stream delivers at each position the stream's byte; get yields nothing only at the end or after an error, and while no refill has missed unget only after min(4, consumed) steps back from the furthest position. |
| StreamBuf.UngetRightIff | include/mozart++/mpp_foundation/fdstream.hpp:143-175 | An unget yields the previous byte for every content of the stream iff it stays at or behind the first place that is in order. |
| StreamBuf.UngetAfterMissIff | include/mozart++/mpp_foundation/fdstream.hpp:157-175 | Right after a refill that brought nothing, an unget is right for every stream iff it stays within the last chunk. |
| StreamBuf.RecoversBehindAChunk | include/mozart++/mpp_foundation/fdstream.hpp:157-184 | After a chunk of at least four bytes the next refill that brings something puts everything in order again, however many have missed. |
| StreamBuf.UngetAfterMiss | include/mozart++/mpp_foundation/fdstream.hpp:157-175 | At the end of the stream the refill always misses; then the byte put back past the last chunk is the last byte of that chunk, right iff the two are equal. |
| StreamBuf.PutbackWrong | include/mozart++/mpp_foundation/fdstream.hpp:157-175 | On the stream abcde, read as four bytes, one byte and the end, the second byte put back is e where the stream has d. |
| StreamBuf.FdOutBuf.Overflow | include/mozart++/mpp_foundation/fdstream.hpp:51-62 | The character is reported written iff it reached the descriptor, and nothing is after invalidation. |
| StreamBuf.FdOutBuf.Put | include/mozart++/mpp_foundation/fdstream.hpp:64-84 | The count returned is exactly the prefix that reached the descriptor; all of it unless invalidated or refused. |
| StatLine.GetProcessStartTime | src/process_unix_wait.cpp:57-85 | The bounded read, the search for the last parenthesis and the blank-skipping loop compute the start time of what was read, 0 without a file, parenthesis or field, and step past the terminator iff the last character read is a parenthesis. |
| StatLine.NoField | src/process_unix_wait.cpp:69-82 | Without a parenthesis, or with fewer than 19 blanks behind the last one, the start time is 0. |
| StatLine.SeenPrefix | src/process_unix_wait.cpp:62-68 | At most 1023 characters are read, and a text without NUL is seen as far as it is read. |
| StatLine.ParenthesisLast | src/process_unix_wait.cpp:66-72 | The text 1 (x) makes the parser step over the terminator. |
| StatLine.NumberReadBack | src/process_unix_wait.cpp:83 | A printed 64-bit number is read back whatever non-digit follows. |
| StatLine.LineParsed | src/process_unix_wait.cpp:66-83 | The parser finds field 22 whatever stands in front of the last parenthesis. |
| StatLine.StatRoundTrip | src/process_unix_wait.cpp:57-85 | For every name, parentheses and blanks included, a line whose first 22 fields fit in the read gives back field 22. |
| StatLine.StatAlwaysFits | src/process_unix_wait.cpp:62-65 | A 64-byte name and 64-bit fields always fit, with half of the buffer to spare. |

## Left out

- WaitProtocol.Process.WaitFor: its -1 for errors of waitid other than EINTR and ECHILD is not modelled; the arguments passed leave no other error.
- WaitProtocol.Client: leaves out a timed wait while a queued wait is outstanding, where the answer can be the placeholder; calls that wait without a limit are made for a child that ends.
- WaitProtocol.Process.TimedWait: a list of interrupted sleeps is finite; sleeps after it run to their end.
- EnvBlock.BlockSize: assumes values of at most PTRDIFF_MAX - 2 characters, the exact range in which the guards work.
- EnvBlock.EnvironmentBlock: assumes keys and values without NUL, values of that length, and a parent block that is well terminated.
- CommandLine.CommandBuffer: assumes a command line that is not empty and arguments without NUL; a NUL would cut the line.
- StreamBuf.Reader: after a refill that missed, goes back only within the last chunk; what lies before it is UngetAfterMiss.
- Session.Client: a read through a stream that a reader job holds yields nothing here, bytes put back into a stream are not followed, and collecting is done for a child and streams that end.
- Descriptors.ChildProc: assumes 0, 1 and 2 open at the fork, which puts all pipe ends above them; descriptors at or above the fallback's cap may stay open when close_range fails.
- Descendants.Traverse: assumes unique pids and that the root does not descend from itself; otherwise the loop does not end.
- CreateProcess.Create: assumes that redirect targets in use are open; the outcome of fork, the pipes granted and the child's report are inputs here, and the report is derived in Spawn.Create.
- Session.Session.Destroy: assumes that the child ends if a worker waits for it, and that a stream ends if its reader cannot be cancelled in time, in either case with stdin closed if the child waits for that; otherwise the destructor does not end.
- Session.Lifetime: for a child that waits for the end of its input, some call closes stdin.
- ExecSearch.Process.Execvpe: with an inherited environment the C library's execvp is one answer; its own search is not part of this model.
- FileIO.Client: the reads are joined for a run without writes and a read position inside the file.
- FileIO.File.Write: in append mode the contents after a write that was not acknowledged are only known to start with the old contents.
- Kernel, libuv and other threads are scripts or steps: a script is finite, after it the pending thing happens; uv_cancel succeeds only for a request no worker has taken.
- The order that CompareStringA gives: it is a parameter, and sorting is any permutation that ascends in it.
- The library calls std::getenv, GetEnvironmentStrings and sysconf: their results are inputs; a null parent block is not modelled.
- The Unix environment merge: no further properties.
- Failing memory allocation, such as that of the split PATH.
- Signals, process groups, pid reuse checks, the SIGCHLD handler test and the Darwin branches.
- File opening, the streams of a file object, and mixing them with positional reads and writes.
- libuv's own thread accounting with other work in the pool; wait jobs of children that nobody drains.
- Script bindings, fibers, the builder's setters, event emitter, exceptions, demangling.

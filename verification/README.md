# A verified model of the computer-docker core

computer-docker gives an agent a remote computer: it starts processes and streams their output, keeps files in a jailed
directory, edits and searches them, and records what was done. This project models the parts where these promises are
hard to keep, in Dafny, and proves what the code does keep - for every input, every run and every interleaving. Where
the code keeps less than its comments say, the exact condition is proved instead.

`dafny verify dfyconfig.toml` checks the whole project.

## How it is laid out

**Processes and their live logs.** `LogRing` holds the critical sections of the ring buffer as functions on values.
`Stream` makes one process a transition system: two pumps, the waiter and any number of subscribers take steps in any
order, and a separate ledger, kept from the steps' labels alone, records what was scanned, added, subscribed and
received. `StreamTheorems` compares the program with the ledger after every run. `LogStreamHandler` runs the
Server-Sent Events loop against such a process. `Decimal` and `ProcTable` add the table of processes and its ids.

`ManagerThreads` runs every operation as goroutines that take and release the three levels of mutex, with each critical
section still one step; `ThreadSafety` is the lock discipline they keep. `Goroutines` takes the critical sections apart
into single loads, field writes, channel sends and closes that never ask whether a mutex is held, with receives between
any two of them. `Bodies` and `Atomicity` prove that because of the mutexes every interleaving of those is explained by
critical sections one after the other, and so by a run of `ProcTable`; `Stories` ascribes every step of that run to the
goroutine that made it, and `Calls` says what every call, exit and line of output has come to in it; `Completion` proves
that every call can be brought to its end from wherever it is.

`Windows`, `RingObjects` and `ProcManager` are the same rings, processes and table as mutable objects whose methods are
proved to make exactly those steps; `Windows` models the slice that is appended to and resliced over a reused backing
array, and serves both rings. `Scanning` is the line scanner with its buffer limit, which the pumps and the content
search share.

**The edit.** `Substrings` implements the greedy count and the bounded replace as loops, and says what the count means;
`Patch` says which edits are accepted and which can be undone.

**The jail.** `Paths` models lexical path cleaning as a stack of segments and, separately, as the one-pass loop over
bytes; `PathRules` is the rules it is documented by, in any order; `Jail` is `resolve` and the paths that are reported
back; `Tree` is a link-free file tree with the system calls the service makes; `FileService` performs whole operations
on it and proves that the jail holds over every sequence of them; `ServiceObject` is the service as an object.

**Search and audit.** `Search` is the bounded search over a walk, `Audit` the recorder with its ring and its file.

## What is proved that the comments do not say

- A block that overlaps itself is accepted as unique although it occurs twice: "aa" in "aaa". The comment on `Patch`
  (internal/fsapi/patch.go:15-18) asks for a unique occurrence; the code asks that no two occurrences be disjoint. The
  two agree for every text exactly when the block has no proper border (`Patch.UnborderedIsStrict`,
  `Patch.BorderedIsLax`).
- With the jail at "/" every path but the root's own is refused, because the prefix compared with is "//"
  (internal/fsapi/fsapi.go:38): `Jail.RootSlashRefusesAll`.
- The ids are "collision-free" (internal/procapi/procapi.go:192) for the first 2^63 starts, and then repeat:
  `Decimal.IdsUnique`, `Decimal.IdsRepeatAfterOverflow`.
- A content search returns the files containing the needle (internal/fsapi/ops.go:70-72) if and only if the needle has no
  newline in it and no carriage return at its end, for files whose lines fit the scanner's buffer:
  `Scanning.FindsExactly`.
- A move onto an existing directory fails, even of a directory onto itself: `FileService.MoveSucceeds`.
- A copy of a directory fails, but only after it has made the destination's directories and emptied the destination
  (internal/fsapi/ops.go:37-51): `FileService.CopyFailure`.
- A stream's `end` says that the process has exited and that every line accepted for this reader was delivered, not that
  all output was captured: the waiter does not wait for the pumps (internal/procapi/procapi.go:245-260), and the model
  keeps them independent.

## Model

| member | source | states |
|---|---|---|
| `Stream.StepKeeps` | internal/procapi/procapi.go:42-106 | every step of pump, waiter, subscriber or canceller, from any state in agreement with the ledger, crashes nothing and keeps the agreement |
| `Stream.RunKeeps` | internal/procapi/procapi.go:42-106 | so after every run: ring, channels, pumps, waiter and ledger agree |
| `StreamTheorems.ChannelSafety` | internal/procapi/procapi.go:50-106 | in no run is a closed channel sent on or closed again; a channel is open exactly while registered; once closed the ring has no subscribers |
| `StreamTheorems.ClosedChannelDrains` | internal/procapi/procapi.go:85-106 | a closed channel never reopens and gains nothing; receives drain what it held, in order |
| `StreamTheorems.ClosedStreamTerminates` | internal/handler/procs.go:85-96 | once its channel is closed a reader can always move, whatever others do; the lines left are its measure, and at zero, and only then, the channel reads as closed |
| `StreamTheorems.ClosedForEver` | internal/procapi/procapi.go:85-106 | after closeSubs nothing is ever registered again, and a late cancel changes nothing |
| `StreamTheorems.StreamConservation` | internal/procapi/procapi.go:42-83 | lines added while registered = received + pending + dropped, position by position; received then pending lines are an ordered, duplicate-free selection of the history |
| `StreamTheorems.StreamGapFree` | internal/procapi/procapi.go:42-83 | snapshot, received and pending lines are one contiguous stretch of the history if and only if nothing was dropped |
| `StreamTheorems.NoDropWithinCapacity` | internal/procapi/procapi.go:50-55 | a subscriber that saw at most 256 lines added lost none, however slowly it read |
| `StreamTheorems.HistoryIsMerge` | internal/procapi/procapi.go:265-271 | the history is a merge of what the two pumps scanned, less the line each still holds; the buffer is its last max lines, and one pump's lines in it are a contiguous suffix of that pump's |
| `StreamTheorems.HistoryIsOutput` | internal/procapi/procapi.go:265-271 | each pump's part of the history is a beginning of the lines of the output it reads, never past a line too long for its scanner, whatever others do |
| `StreamTheorems.ReadsAreTrue` | internal/procapi/procapi.go:58-162 | after any run a snapshot can only be the last max lines of the history, and a view only the running one or the reported exit |
| `StreamTheorems.Lifecycle` | internal/procapi/procapi.go:140-162 | a process exits at most once; its view is running with code 0 and no end time before, and the reported exit afterwards |
| `StreamTheorems.ExitIsFinal` | internal/procapi/procapi.go:247-260 | after the exit no step changes state, exit code or end time |
| `StreamTheorems.ClosedMeansExited` | internal/procapi/procapi.go:258-259 | a channel closed otherwise than by its own cancel means that the process has exited |
| `StreamTheorems.EndOfStream` | internal/procapi/procapi.go:258-259 | a reader that finds its channel closed and drained has had every line accepted for it, and unless it cancelled the process has exited |
| `StreamTheorems.WaiterClosesEveryStream` | internal/procapi/procapi.go:247-260 | from every reachable state the waiter can run to its end, and then every channel is closed |
| `LogStreamHandler.TakeTurn` | internal/handler/procs.go:86-95 | one pass of the select, entirely: a read takes and writes the line that waits, whether the channel is open or not, writes `end` exactly on a closed and drained channel, and does nothing on an open empty one |
| `LogStreamHandler.ProcLogsStream` | internal/handler/procs.go:61-96 | the output is the snapshot, the received lines in order, then at most one `end`, last, only on an exited process and after every accepted line; turn by turn the run goes on as one pass of the select makes it, and the loop is left only at `end`, when the client has left, or for want of turns; the channel is forgotten on every way out |
| `LogStreamHandler.WaitingIsWritten` | internal/handler/procs.go:85-94 | live delivery: the lines that wait after one turn have all been written, in their order, once there have been as many reads, while the process runs or not and whatever others do in between |
| `LogStreamHandler.EndIsReached` | internal/handler/procs.go:85-96 | if the client stays, a stream whose ring has been closed ends once there has been a read for every line that waited then and one more |
| `Decimal.Itoa` | internal/procapi/procapi.go:351-363 | for every 64-bit value the index stays in the 20-byte buffer and the loop ends with the decimal digits |
| `Decimal.ItoaRoundTrip` | internal/procapi/procapi.go:351-363 | every non-negative value is written canonically, without leading zeros, and parses back to itself |
| `Decimal.ItoaOfParse` | internal/procapi/procapi.go:351-363 | and every canonical decimal is what is written for its value |
| `Decimal.IdsCollide` | internal/procapi/procapi.go:190-194 | two starts get one id exactly when the 64-bit counter repeats, or is negative both times |
| `Decimal.IdsUnique` | internal/procapi/procapi.go:190-194 | the first 2^63 starts get distinct ids |
| `Decimal.IdsRepeatAfterOverflow` | internal/procapi/procapi.go:190-194 | the next one does not |
| `ProcTable.ProcessesAreIndependent` | internal/procapi/procapi.go:228-260 | in every run of the whole manager each process, in the table or removed, has made a run of its own |
| `ProcTable.ManagerNeverPanics` | internal/procapi/procapi.go:197-349 | no run of the manager crashes |
| `ProcTable.IdsNeverReused` | internal/procapi/procapi.go:190-243 | ids are distinct in every run of starts and removals, the k-th being "p" and the decimal k; the table maps an id only to the process that got it |
| `ProcTable.GoneForGood` | internal/procapi/procapi.go:338-349 | an id issued and gone from the table never comes back |
| `ProcTable.TableIsWhatIsLeft` | internal/procapi/procapi.go:240-349 | while at most 2^63 processes have been started, an id is in the table if and only if it was handed out and no removal of it has succeeded |
| `ProcTable.RemovedOnce` | internal/procapi/procapi.go:274-349 | of all interleaved removals of an id at most one succeeds; afterwards every lookup reports not found and no listing shows the process |
| `ProcTable.RemovalStrandsNoStream` | internal/procapi/procapi.go:247-260 | whatever was removed, the waiter of every process can still finish and close all its channels |
| `Bodies.InstructKeeps` | internal/procapi/procapi.go:42-106 | no instruction of a critical section under way crashes, and all but the last leave memory as far changed as it should be then, other goroutines' receives included |
| `Bodies.DoneMatches` | internal/procapi/procapi.go:42-349 | a critical section that ends has done, instruction by instruction, what it does in one go |
| `Atomicity.BodiesAreAtomic` | internal/procapi/procapi.go:42-349 | no interleaving of single instructions crashes, and each is explained by a run in which every critical section happens in one go, with the same calls, lines and exits in the same order and, but for receipts held up by a section under way, the same receipts on every channel |
| `Stories.StoriesHold` | internal/procapi/procapi.go:197-349 | in every run of the manager's goroutines each one's steps so far, with those it has left, are what it was called for: no step is skipped, doubled or another's |
| `Calls.CallsAreAnswered` | internal/procapi/procapi.go:197-349 | after any interleaving there is a run of the manager, consistent with memory, in which every returned call made exactly the steps that answer it - a lookup, then a view, snapshot or subscription by its purpose, then for a removal the deletion of that id - and every pump at rest has added exactly the lines it was given |
| `Calls.ExitIsTold` | internal/procapi/procapi.go:247-260 | a waiter that is done has recorded the exit code and time that Wait returned, which the view in memory now shows, and then closed the subscribers, and did nothing else |
| `Atomicity.MemoryIsConsistent` | internal/procapi/procapi.go:42-349 | after any interleaving there is a run of the manager with which memory agrees, on all that is guarded by a mutex in whose sections nobody is, and entirely if nobody is in any |
| `Atomicity.LoadsStayTrue` | internal/procapi/procapi.go:140-162 | what a critical section has loaded is still so when it writes or returns: no update is lost, and no view is torn by the three writes of setState |
| `Atomicity.MutualExclusion` | internal/procapi/procapi.go:42-349 | who is inside a critical section holds its mutex; nobody else holds it or is inside one of its sections |
| `Atomicity.LockNesting` | internal/procapi/procapi.go:285-293 | the only mutex ever taken while holding another is a process's, under the table's |
| `Completion.OnlyMutexesBlock` | internal/procapi/procapi.go:50-55 | only taking a mutex can make a goroutine wait; every other instruction goes on and brings it closer to its end |
| `Completion.EveryCallCanFinish` | internal/procapi/procapi.go:42-349 | after any run every call, pump and waiter can be brought to its end, holding nothing, by instructions of goroutines alone; what it has then done is `Calls.CallsAreAnswered` |
| `Completion.NoDeadlock` | internal/procapi/procapi.go:42-349 | while any goroutine has work left some goroutine can take its next instruction |
| `Windows.Window.Append` | internal/procapi/procapi.go:46-49 | appending and reslicing, in place or into a larger array, leaves the last max elements of what was there and the new one |
| `Windows.Window.CopyLast` | internal/procapi/procapi.go:61-63 | a private copy of the last n elements |
| `RingObjects.Channel.Close` | internal/procapi/procapi.go:75-104 | closes an open channel and keeps what is queued |
| `RingObjects.RingBuffer.Add` | internal/procapi/procapi.go:42-56 | makes exactly the add step of the transition system, in whatever order the subscribers are visited |
| `RingObjects.RingBuffer.Snapshot` | internal/procapi/procapi.go:58-64 | a fresh copy of the buffered lines |
| `RingObjects.RingBuffer.Subscribe` | internal/procapi/procapi.go:68-83 | makes exactly the subscribe step; after closeSubs the channel comes closed |
| `RingObjects.RingBuffer.Unsubscribe` | internal/procapi/procapi.go:85-92 | makes exactly the cancel step |
| `RingObjects.RingBuffer.CloseSubs` | internal/procapi/procapi.go:95-106 | makes exactly the closeSubs step |
| `RingObjects.Pump` | internal/procapi/procapi.go:265-271 | with the ring to itself, leaves the last max of all it held and all the output's lines up to the first that is too long for the scanner |
| `RingObjects.SnapshotThenPump` | internal/procapi/procapi.go:58-64 | a snapshot once returned is not altered by any later lines |
| `ProcManager.Process.SetState` | internal/procapi/procapi.go:140-146 | changes state, exit code and end time and no more, and is exactly the setState step of the transition system |
| `ProcManager.Process.View` | internal/procapi/procapi.go:148-162 | shows exactly what an observer of the transition system may see of the process at that moment, so that the lifecycle theorems hold of it |
| `ProcManager.Manager.Start` | internal/procapi/procapi.go:197-263 | an empty command or a failed launch changes nothing; otherwise the new running process, with an empty ring, is in the table under the next id and no other entry is touched |
| `ProcManager.Manager.Register` | internal/procapi/procapi.go:240-243 | makes exactly the table step: a fresh process under the next id, no other entry touched |
| `ProcManager.Manager.NextId` | internal/procapi/procapi.go:190-194 | steps the 64-bit counter and returns "p" and its decimal |
| `ProcManager.Manager.Find` | internal/procapi/procapi.go:274-282 | the registered process, or not found, as the table says |
| `ProcManager.Manager.List` | internal/procapi/procapi.go:285-293 | one true view for every entry, none twice, none left out |
| `ProcManager.Manager.Get` | internal/procapi/procapi.go:296-302 | the view, or not found |
| `ProcManager.Manager.Logs` | internal/procapi/procapi.go:305-311 | a fresh copy of the process's lines, or not found |
| `ProcManager.Manager.Subscribe` | internal/procapi/procapi.go:315-322 | subscribes to the process's ring, or not found |
| `ProcManager.Manager.Stop` | internal/procapi/procapi.go:325-335 | signals the process's group exactly if its view is running, and reports what became of that |
| `ProcManager.Manager.Remove` | internal/procapi/procapi.go:338-349 | drops the entry and nothing else whether or not the signal worked; not found exactly if it was not there |
| `Substrings.IndexOf` | internal/fsapi/patch.go:36 | the leftmost occurrence, or -1 |
| `Substrings.CountOf` | internal/fsapi/patch.go:36 | the greedy count, by search and skip |
| `Substrings.ReplaceIn` | internal/fsapi/patch.go:41 | the bounded replacement, copied piece by piece |
| `Substrings.CountIsMaximum` | internal/fsapi/patch.go:36 | the greedy count is the largest number of occurrences without overlap |
| `Substrings.CountMeaning` | internal/fsapi/patch.go:36-44 | zero means none; two or more means two disjoint occurrences, and conversely |
| `Patch.Apply` | internal/fsapi/patch.go:25-45 | computes the outcome of an edit of a text by the count and the replacement |
| `Patch.EditOutcome` | internal/fsapi/patch.go:36-45 | no match exactly if there is no occurrence, ambiguous exactly if two are disjoint, otherwise the leftmost occurrence is replaced and everything around it kept |
| `Patch.UnborderedIsStrict` | internal/fsapi/patch.go:36-45 | a block without a proper border is edited exactly when it occurs at one position |
| `Patch.BorderedIsLax` | internal/fsapi/patch.go:36-45 | for every other block there is a text where it is edited though it occurs twice |
| `Patch.LaxExample` | internal/fsapi/patch.go:36-45 | "aa" is edited in "aaa" |
| `Patch.UndoExactly` | internal/fsapi/patch.go:36-42 | swapping the blocks undoes an edit if and only if the new block is counted once and agrees with the edit on the stretch between its leftmost occurrence and the edit |
| `Patch.UndoRestores` | internal/fsapi/patch.go:36-42 | in particular if the new block stands at one position only, overlaps counted |
| `Patch.UndoCanMiss` | internal/fsapi/patch.go:36-42 | a count of one is not enough: "aX", with "X" for "aa", is undone to "Xa" |
| `Paths.CleanLoop` | internal/fsapi/fsapi.go:36-37 | the one-pass loop of path cleaning computes the fold of a segment stack |
| `PathRules.RulesAgree` | internal/fsapi/fsapi.go:36-37 | whichever rule is applied where - drop an empty piece or ".", a name with the ".." after it, a ".." at the root - once none applies the pieces left are those of the segment stack |
| `PathRules.RulesEnd` | internal/fsapi/fsapi.go:36-37 | from every list of pieces such rules lead to one where none applies |
| `PathRules.RuleKeeps` | internal/fsapi/fsapi.go:36-37 | no single application of a rule, anywhere in a path, changes what the path cleans to |
| `PathRules.NormIsClear` | internal/fsapi/fsapi.go:36-37 | in a cleaned path no name is followed by "..", no piece is empty or ".", and a rooted one has no ".." |
| `PathRules.IntoAndBack` | internal/fsapi/fsapi.go:36-37 | a/e is e below a, a/e/.. is a, and a/e/../b is a/b |
| `PathRules.NothingAbove` | internal/fsapi/fsapi.go:36-37 | at the root ".." stays there; "." and doubled slashes change nothing anywhere |
| `Jail.ResolveSegments` | internal/fsapi/fsapi.go:36-37 | the joined path is the root's segments followed by those of the clamping fold |
| `Jail.ResolveConfines` | internal/fsapi/fsapi.go:35-42 | for a clean root other than "/" every string resolves to the root or below it, by non-empty segments none of which is "." or ".." |
| `Jail.RootSlashRefusesAll` | internal/fsapi/fsapi.go:38-40 | with root "/" only the root itself resolves |
| `Jail.CleanThenClamp` | internal/fsapi/fsapi.go:36 | Clean("/" + Clean(x)) = Clean("/" + x) for every x |
| `Jail.ReportedResolvesBack` | internal/fsapi/fsapi.go:130-134 | the path reported for anything in the jail, the root's "/." included, resolves back to it, except below a root "/" |
| `Jail.UploadResolvesBack` | internal/handler/fs_ops.go:138-143 | the path an upload reports resolves to the file it wrote |
| `Jail.DirSegments` | internal/fsapi/fsapi.go:103 | the directory of an absolute path is that path without its last segment, and "/" stays "/" |
| `Tree.MkdirAllKeeps` | internal/fsapi/fsapi.go:103-115 | fails exactly if a file is in the way, changing nothing; otherwise adds the missing directories and no more |
| `Tree.MovedAt` | internal/fsapi/ops.go:24 | node by node, what a rename that succeeds leaves |
| `Tree.RenameKeeps` | internal/fsapi/ops.go:24 | a rename, successful or not, leaves a tree |
| `FileService.Located` | internal/fsapi/fsapi.go:35-42 | a path resolves to a node at or below the root's, its directory being that node's parent - for path "/" the parent of the root |
| `FileService.PerformSafe` | internal/fsapi/ops.go:12-52 | each operation, failing or not, changes no node outside the root and leaves the root a directory |
| `FileService.JailHolds` | internal/fsapi/fsapi.go:98-128 | so does every sequence of Write, Mkdir, Delete, Move, Copy and Patch with any arguments |
| `FileService.WriteOutcome` | internal/fsapi/fsapi.go:98-107 | succeeds exactly if no file is in the way and no directory is there; then reading gives the data and no other node has changed but for new directories above |
| `FileService.WriteFailure` | internal/fsapi/fsapi.go:98-107 | a write that fails has changed nothing |
| `FileService.MkdirOutcome` | internal/fsapi/fsapi.go:110-116 | succeeds exactly if no file is there or in the way, and then the directory is there, all above it too, and nothing else has changed; a failure changes nothing |
| `FileService.WriteReadsBack` | internal/fsapi/fsapi.go:89-107 | a write that succeeds is read back under every path that clamps to the same segments |
| `ServiceObject.DeleteForgets` | internal/fsapi/fsapi.go:119-128 | after a deletion no path at or below the deleted one finds anything, and every other path finds what it did |
| `FileService.MoveSucceeds` | internal/fsapi/ops.go:12-25 | a move succeeds if and only if the source exists, the destination is not below it, no file is in the way, and the destination is free or both are files |
| `FileService.MoveOutcome` | internal/fsapi/ops.go:12-25 | a move that succeeds takes the subtree along, node by node, leaves nothing behind and touches nothing else |
| `FileService.MoveToItself` | internal/fsapi/ops.go:12-25 | moving a file onto itself succeeds and changes nothing; anything else onto itself fails |
| `FileService.MoveFailure` | internal/fsapi/ops.go:12-25 | a move that fails moves nothing: it leaves at most the new directories above the destination |
| `FileService.CopySucceeds` | internal/fsapi/ops.go:28-52 | a copy succeeds if and only if the source is a file and one could be written at the destination |
| `FileService.CopyOutcome` | internal/fsapi/ops.go:28-52 | a copy that succeeds was of a file, whose content the destination now has - or is empty, when it is the same file |
| `FileService.CopyFailure` | internal/fsapi/ops.go:28-52 | a copy that fails has changed nothing - above all not when the source is missing - unless the source is a directory and a file could be written at the destination, which then is there and empty |
| `FileService.EditUndone` | internal/fsapi/patch.go:19-46 | an edit whose new block stands once can be undone, and the whole tree is as before |
| `FileService.EditRefusals` | internal/fsapi/patch.go:30-44 | with an old block: not found if nothing is there, an error of the system on a directory, no match exactly if the block does not occur, ambiguous exactly if two occurrences are apart, and no other error |
| `FileService.EditCreates` | internal/fsapi/patch.go:25-28 | without an old block it succeeds exactly if no file is in the way and no directory is there, and then reading gives the new text and no other node has changed but for new directories above |
| `FileService.Refusals` | internal/fsapi/fsapi.go:119-128 | a path that escapes is refused as such; the deletion of the root, and of nothing else, is refused by the service itself, and changes nothing |
| `ServiceObject.Service.Write` | internal/fsapi/fsapi.go:98-107 | leaves exactly the tree and the error of the write step of the tree model, whose jail it keeps |
| `ServiceObject.Service.Mkdir` | internal/fsapi/fsapi.go:110-116 | leaves exactly the tree and the error of the mkdir step, and keeps the jail |
| `ServiceObject.Service.Delete` | internal/fsapi/fsapi.go:119-128 | leaves exactly the tree and the error of the delete step, the root refused, and keeps the jail |
| `ServiceObject.Service.Move` | internal/fsapi/ops.go:12-25 | leaves exactly the tree and the error of the move step, and keeps the jail |
| `ServiceObject.Service.Copy` | internal/fsapi/ops.go:28-52 | leaves exactly the tree and the error of the copy step, the destination truncated before the source is read, and keeps the jail |
| `ServiceObject.Service.Edit` | internal/fsapi/patch.go:19-46 | leaves exactly the tree and the error of the edit step, which without an old block is a write, and keeps the jail |
| `ServiceObject.Service.Read` | internal/fsapi/fsapi.go:89-95 | the content exactly if the path resolves to a file |
| `ServiceObject.Service.Stat` | internal/fsapi/fsapi.go:76-86 | an entry exactly if the path resolves to a node, with the node's name, kind, size, mode and time, and a path that resolves to the same |
| `ServiceObject.Service.List` | internal/fsapi/fsapi.go:55-73 | a true entry for every name that can still be stat'ed, in the order read; each entry's path resolves to that entry's node |
| `ServiceObject.ChildResolvesBack` | internal/fsapi/fsapi.go:70-71 | the path reported for a child of a directory in the jail resolves to the child |
| `ServiceObject.Service.Upload` | internal/handler/fs_ops.go:121-145 | no file is an error; otherwise the files are written in order up to the first that cannot be read or written, whose failure is the answer, and if there is none the answer is where each was written |
| `ServiceObject.UploadSucceeds` | internal/handler/fs_ops.go:126-145 | an upload succeeds if and only if every file can be read and, when its turn comes, written |
| `ServiceObject.UploadReadsBack` | internal/handler/fs_ops.go:126-145 | after a whole upload every reported path reads back its file, unless a later file of the form went to the same place |
| `Scanning.Scanner.Scan` | internal/procapi/procapi.go:266-268 | hands out the lines of a text one by one, up to the first that fills the buffer |
| `Scanning.FoundIsThere` | internal/fsapi/ops.go:120-123 | a needle in a line handed out is in the text |
| `Scanning.FindsExactly` | internal/fsapi/ops.go:70-123 | for all texts whose lines the buffer can hold, the needle is found if and only if it occurs - exactly when it has no newline and no return at its end, or is too long for any of them |
| `Search.AppendContentMatches` | internal/fsapi/ops.go:111-130 | stops at the limit with the first of the file's hits |
| `Search.VisitNode` | internal/fsapi/ops.go:82-107 | the visitor's part: the first of the hits so far and this node's, and an early end only at the limit |
| `Search.Search` | internal/fsapi/ops.go:73-109 | returns exactly the first min(k', total) hits of the unlimited search in walk order, k' being the limit, or 200 if it is not positive |
| `Search.HitsAre` | internal/fsapi/ops.go:82-130 | the unlimited search finds exactly the visited files whose name fits, and the lines with the needle in them |
| `Search.NothingMissed` | internal/fsapi/ops.go:89-126 | with fewer hits than the limit no answer among the visited files is missing |
| `Search.SearchIsExact` | internal/fsapi/ops.go:73-130 | after a walk of everything below the start, with fewer hits than the limit, the hits are exactly the answers in the tree, in whatever order it was walked |
| `Search.HitReadsBack` | internal/fsapi/ops.go:98-106 | the path of a hit resolves to a file below the start whose name fits and whose line of that number has that text |
| `Search.LinesRise` | internal/fsapi/ops.go:119-126 | within a file line numbers rise strictly, so without content there is one hit a file |
| `Audit.Recorder.constructor` | internal/audit/audit.go:33-37 | a maximum that is not positive becomes 1000 |
| `Audit.New` | internal/audit/audit.go:33-46 | no recorder exactly if a path is given and its file cannot be opened |
| `Audit.Record` | internal/audit/audit.go:49-71 | one more entry in the log and, if encoding and writing work, at the end of the file; nothing without a recorder |
| `Audit.Recorder.Recent` | internal/audit/audit.go:74-83 | a fresh copy of the last min(limit, max, n) of all entries ever recorded; not positive means all retained |
| `Audit.RecordMany` | internal/audit/audit.go:49-83 | while every write succeeds the ring is the end of the file in the same order, and earlier results are not altered |
| `Audit.RecentOfWindow` | internal/audit/audit.go:63-82 | reading from the ring is reading from the unbounded log, as far back as the ring goes |

## Left out

- LogStreamHandler.ProcLogsStream: other threads and the select's choice are a finite list of turns; a run whose client
  never leaves and whose process never ends is the limit of such lists.
- RingObjects.Pump: one pump with the ring to itself; two pumps at once are `StreamTheorems.HistoryIsMerge` and
  `StreamTheorems.HistoryIsOutput`.
- Goroutines.Instruct: the loads of one critical section are one instruction, and so are the writes of the table's entry
  and counter, a line's append and reslice, and a close with the delete before it; the memory model is sequentially
  consistent.
- Atomicity.BodiesAreAtomic: the explaining run may put receives on different channels, made while one `add` was under
  way, in another order than they happened.
- Spawning, pipes, signals and pids: starting, exiting and being signalled are inputs of the model. Nothing is said about
  a group being alive when it is signalled, since the state check and the kill are separate steps.
- All output being delivered before `end`: the code does not guarantee it, nor does the model.
- A direct hand-off to a waiting receiver is two steps here, a send and a receive.
- Goroutines of a process exist in the model from the moment it is registered; in the code they start just after.
- Fairness: it is proved that every call can finish, not that the scheduler lets it.
- Symbolic and hard links, permissions, modification times, `Chmod`, input and output errors, and changes to the tree from
  outside; file descriptors that outlive a removal.
- Error numbers are told apart only as far as callers can see a difference between success and failure.
- The order of directory reading, of the walk and of map iteration: parameters, or arbitrary choices.
- Pattern matching of file names (`filepath.Match`): an arbitrary predicate.
- The error of a walk: the visitor never returns one, so neither does the search.
- Audit file lines written in part, and their JSON form; time order of entries, which the code does not guarantee, because
  the clock is read before the lock is taken.
- Strings are sequences of bytes or characters without encoding; 64-bit width is modelled where it shows, in the id
  counter.
- Request parsing, routing, status codes, MCP tools, middleware, configuration, the `exec` endpoint and the browser proxy:
  only easy members.

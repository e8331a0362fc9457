# evcollect: a verified model

evcollect collects events from log files on a schedule and hands them to output
plugins.  This project models the stateful parts of the daemon and its text and
byte codecs, and proves what they promise over all inputs, runs and
interleavings.

**The log tailer.**  `LogfileSource.dfy` is the object of `logfile.cc` with its
own fields, loops and chunk buffer; each method is proved against functions on
positions in `Tailer.dfy`, where `Lines.dfy` says what the complete lines of a
text are.  A file is a string with an inode, `read` delivers non-empty chunks of
any size up to the buffer's, and `stat`, `open` and `read` may each fail.
`CheckpointRecovery.dfy` makes every statement of `getNextLine`,
`writeCheckpoint`, attach and detach a step; a crash may come between any two,
also between truncating the checkpoint file and writing it, and the log may
grow or rotate at any step.  Over all runs: the checkpoint on disk is a line
boundary of one file generation and covers only lines that were returned or
lost; a crash loses at most one line, and only in one window; without crashes and
checkpoint failures every line is returned exactly once and in order.
`Truncation.dfy` adds logs that are truncated in place or come back under an
inode used before.  Each run over such a log in which these files are noticed
as new, or nothing was read before them, is followed step by step by a run of `CheckpointRecovery.dfy`, so the same
holds there.

**The service.**  `Scheduler.dfy` is the tick queue under an arbitrary
monotonic clock; `Service.dfy` holds the objects: targets, bindings, `addEvent`,
the run loop and `processEvent`, which drains its sources.  The run loop is
proved to be the transition system of `Scheduler.dfy`, and each firing to process its
binding.  Whatever the logs do while `processEvent` polls them, it delivers to every target exactly the events of the
lines taken from the last source, in order; on a log that grows meanwhile these are
exactly the lines between the old and the new position, and on logs that stay as they
are it ends by itself with every pending line taken.  `EventJson.dfy` and `Json.dfy`
prove that each event parses back to the line or the captures.

**The upload queue.**  `UploadQueue.dfy` has one program counter for each
producer and one for the upload thread, a lock owner, wait sets and spurious
wakeups; setting the shutdown flag and notifying are two steps.  Events are
conserved and stay in order, no wakeup is lost, and the threads come to rest only
when everything is taken.  `Routing.dfy` holds the
property list, the reading of routes, and routing of events into that queue.

**Codecs and text.**  `Sha1.dfy` refines `Sha1Spec.dfy`, which writes out FIPS
180-4 (sections 4.1.1, 4.2.1, 5.1.1, 5.2.1, 5.3.1, 6.1.2); `Sha1Example.dfy` works out the
standard's example in it.  `Sha1Hash.dfy` has hex text and ordering.
`Base64.dfy` states section 4 of RFC 4648 on bits and proves the loops against it.  `StringUtil.dfy` has splitting, joining, replacing and
formatting.  `ConfigLexer.dfy` is the scanner of the configuration language and
`ConfigText.dfy` the printer it inverts.

These properties do not hold in general, and the exact condition is proved:

- After a file replaces the one read so far, the position is sound in it exactly
  when it has another inode, is shorter than the offset, or happens to have a
  line boundary there; all its lines are handed out exactly when it has another
  inode, is shorter than the offset, has no complete line, or nothing was read before.
- Stopping ends the upload thread exactly when the notification does not
  find it between its shutdown test and its wait with an empty queue and no producer
  in a call.  That is for a capacity above zero; at capacity zero producers in a call do
  not help, and it must only not be found between the test and the wait.
- A crash loses the line in hand exactly when its checkpoint is completely
  written and the call has not returned, if the process could read its checkpoint
  when it started.
- Detaching then attaching resumes at the consumed position exactly when, if
  something had to be written and the checkpoint file could be opened, all of it was
  written, and otherwise the file already held the position.
- Formatting with `$`-free arguments means simultaneous substitution exactly
  when no `$` of the template stands directly before a placeholder; with any `n`
  arguments, exactly when no placeholder but that of the last one occurs.
- The SHA-1 padding is right exactly for messages below 2^29 bytes.

A failed checkpoint write is not tried again, which
`CheckpointRecovery.FailedWriteIsNotRetried` and `FailedWriteHappens` show.  A crash
between truncating and writing the checkpoint file makes the next process start over
(`TornWriteStartsOver`), and a stop leaves queued events behind
(`UploadQueue.StopLeavesEvents`).

Where code and documentation disagree, the model follows the code:
`config-syntax.md` knows no escapes in a quoted value, the scanner takes a
quote after a backslash as content and keeps the backslash; it knows no
values that start with a digit, the scanner does; `README.md` shows routes
with `*` and `%E`, the plugin compares event names for equality and uses the
target as it stands.

Methods are proved against functions; functions that only compute are
named in the contracts of the methods below and have no row.  Strings are
sequences of characters and SHA-1 and Base64 data sequences of 8-bit words.

## Model

| member | source | states |
|---|---|---|
| Lines.LinesUnique | src/evcollect/logfile.cc:294-307 | lines ending in their only newline, followed by text without one, are the only division of a text into complete lines |
| Lines.LinesAndRemainder | src/evcollect/logfile.cc:294-307 | the complete lines and the unfinished last line concatenate to the text |
| Lines.LinesMonotone | src/evcollect/logfile.cc:294-307 | text appended later never changes lines that were complete |
| Lines.PrefixLines | src/evcollect/logfile.cc:284-288 | the first k lines are a prefix of the text, and the other lines are those of the rest |
| Tailer.OffsetIsBoundary | src/evcollect/logfile.cc:173-181 | consumed offset plus the buffered sizes is the read offset, and it lies on a line boundary |
| Tailer.AlignedUnderAppend | src/evcollect/logfile.cc:258-269 | appending to the file keeps the position invariant |
| Tailer.AlignedAfterReadLines | src/evcollect/logfile.cc:252-292 | reading keeps the position invariant, for every failure of a system call, read limit, rotation and truncation below the offset |
| Tailer.AlignedAfterTake | src/evcollect/logfile.cc:175-180 | taking a line keeps the invariant, and the line is the file's bytes from the old to the new consumed offset |
| Tailer.FillDropsNothing | src/evcollect/logfile.cc:258-265 | starting over clears the line buffer but never drops a line, because it happens only on an empty buffer |
| Tailer.SoundExactly | src/evcollect/logfile.cc:258-292 | whatever file is met with nothing buffered, the position is sound in it afterwards if and only if it is noticed as new or has a line boundary at the offset |
| Tailer.AllPendingExactly | src/evcollect/logfile.cc:258-292 | all complete lines of that file are pending if and only if it is noticed, nothing was read before, or it has none |
| Tailer.RegrownFileMisleads | src/evcollect/logfile.cc:260-265 | the condition can fail: a concrete file truncated and regrown past the offset, of which a line is cut |
| Tailer.FillKeepsPending | src/evcollect/logfile.cc:159-173 | filling the buffer neither adds nor loses a pending line, and finds one if and only if one is pending |
| Tailer.FillFailsExactly | src/evcollect/logfile.cc:252-282 | filling fails if and only if nothing is buffered and the file cannot be looked at, or has something to read and cannot be opened or positioned |
| Tailer.FillTakesFirst | src/evcollect/logfile.cc:284-288 | a fill of an empty buffer takes in the first 8192 pending lines, or all if there are fewer |
| Tailer.PendingIsRestOfFile | src/evcollect/logfile.cc:252-292 | on a stable file the pending lines are all complete lines after the consumed offset, or, for a new generation, what is buffered and then every line of the file |
| Tailer.RoundEffect | src/evcollect/service.cc:373-394 | one poll of a source hands out the first pending line, leaves the others, and reports more if and only if one is left |
| Tailer.RoundTracks | src/evcollect/service.cc:373-394 | polling a stable file keeps the position invariant, and reports nothing more only at the end of the last complete line |
| Tailer.SteadyWalk | src/evcollect/service.cc:369-394 | with outcomes that stay the same, n polls hand out the first n pending lines, leave the others, and report more if and only if one is left |
| Tailer.GrowingLogTaken | src/evcollect/service.cc:369-394 | while the log grows between polls, the lines handed out are exactly the complete lines, byte for byte, between the old and the new consumed position |
| Tailer.TakenAreLines | src/evcollect/logfile.cc:167-180 | whatever the outcomes of the system calls, only complete lines are handed out |
| Tailer.TextWithNewline | src/evcollect/logfile.cc:176-177 | of a line handed out exactly the newline is taken off |
| Tailer.NextStartReads | src/evcollect/logfile.cc:328-382 | after a checkpoint write the next start reads the consumed position if all sixteen bytes were written, nothing after a short write, and the old checkpoint when the file was not touched |
| Tailer.DrainedAtLastLine | src/evcollect/logfile.cc:159-192 | a drained position has consumed everything up to a line boundary with no complete line after it |
| Truncation.EventFollowed | src/evcollect/logfile.cc:258-265 | every event over a log whose inodes may come back, truncation in place included, is followed by steps over numbered generations, as long as a file under the same inode is first read at a size below the offset or at offset zero |
| Truncation.RunFollowed | src/evcollect/logfile.cc:258-265 | so is every run |
| Truncation.OneGeneration | src/evcollect/logfile.cc:258-265 | in every such run, with crashes anywhere, the position and the checkpoint on disk each describe one generation at a line boundary, lines before the checkpoint were returned, are in hand or were lost, and no more were lost than crashes happened |
| Truncation.EachGenerationOnce | src/evcollect/logfile.cc:258-292 | without crashes and checkpoint failures the returned lines of each generation, truncated ones included, concatenate to its bytes up to the consumed position |
| Truncation.NotRecognised | src/evcollect/logfile.cc:258-265 | the first file of a run for which this fails is read at an offset above zero; the position is sound if and only if a line boundary is there, and all its lines are handed out if and only if there are none |
| LogfileSource.FileDescriptor.Read | src/evcollect/logfile.cc:311-314 | delivers any non-empty chunk of the file's next bytes, and nothing only at the end |
| LogfileSource.LogfileSource.constructor | src/evcollect/logfile.cc:88-103 | starts at inode and offsets zero with nothing buffered |
| LogfileSource.LogfileSource.ReadNextByte | src/evcollect/logfile.cc:309-326 | for every chunking, hands out the file byte under the cursor and moves on by one, and fails exactly at the end of what can be read |
| LogfileSource.LogfileSource.ReadLine | src/evcollect/logfile.cc:294-307 | returns the file's next line with its newline, and fails only when no newline is left |
| LogfileSource.LogfileSource.ReadLines | src/evcollect/logfile.cc:252-292 | success and all four position fields equal the specified ones: the first complete lines that fit, the line read beyond the limit left unread |
| LogfileSource.LogfileSource.ReadUpToLimit | src/evcollect/logfile.cc:284-288 | for every chunking, queues exactly the first complete lines that fit and advances the offset over these alone |
| LogfileSource.LogfileSource.HasNextLine | src/evcollect/logfile.cc:159-165 | reads only with an empty buffer, and is true if and only if a line is buffered afterwards |
| LogfileSource.LogfileSource.GetNextLine | src/evcollect/logfile.cc:167-192 | hands out the next line, which with a newline is the complete line of the file, advances the consumed offset over it, and writes a checkpoint exactly when one is due |
| LogfileSource.CheckpointDueExactly | src/evcollect/logfile.cc:182-183 | a checkpoint is due ten seconds after the last one; after the clock was set back, unless by almost 2^64 microseconds |
| LogfileSource.LogfileSource.GetNextEvent | src/evcollect/logfile.cc:194-250 | adds the event of the next complete line: an object of the named groups that took part, in order, each with the text between its offsets in the line, or of the whole line; nothing for an empty or unmatched line; the position changes as by getNextLine |
| LogfileSource.LogfileSource.ReadCheckpoint | src/evcollect/logfile.cc:328-347 | a missing or short checkpoint reads as zero; position and marks are what the file holds |
| LogfileSource.LogfileSource.WriteCheckpoint | src/evcollect/logfile.cc:349-382 | the marks are set before the file is opened; the file is complete, short or unchanged as open and write turn out |
| CheckpointRecovery.StepKeepsInv | src/evcollect/logfile.cc:167-192 | every statement, crash, rotation and append keeps the recovery invariant |
| CheckpointRecovery.RunKeepsInv | src/evcollect/logfile.cc:167-192 | so does every run |
| CheckpointRecovery.CheckpointIsSafe | src/evcollect/logfile.cc:349-382 | after any run the checkpoint on disk is zero or a line boundary of one generation, not past the consumed position of a process that could read it at its start, every line before it was returned, is in hand or was lost, and no more lines were lost than crashes happened |
| CheckpointRecovery.AtLeastOnce | src/evcollect/logfile.cc:167-192 | between calls every line before the consumed offset was returned at least once or lost in a crash |
| CheckpointRecovery.ReturnedLinesAreReal | src/evcollect/logfile.cc:167-192 | every line ever returned is a complete line of its generation |
| CheckpointRecovery.LossWindow | src/evcollect/logfile.cc:182-191 | in any phase of a running process: the process started after a crash goes on past the line in hand if and only if the checkpoint write was complete and the call had not returned, and then right behind that line (for a process that could read its checkpoint at its start); the lines counted as lost are exactly these |
| CheckpointRecovery.LossHappens | src/evcollect/logfile.cc:182-191 | in every reachable state a line in hand whose checkpoint is due can be lost in this way |
| CheckpointRecovery.OnlyLineLost | src/evcollect/logfile.cc:182-191 | a run from the start in which the only line of a log is never returned |
| CheckpointRecovery.TornWriteStartsOver | src/evcollect/logfile.cc:359-376 | a crash between truncating and writing the checkpoint file loses no line but the position: the next process starts before the first generation |
| CheckpointRecovery.CleanIffCleanSteps | src/evcollect/logfile.cc:328-382 | a run is clean if and only if none of its steps is a crash or a failure of the checkpoint file |
| CheckpointRecovery.ChainText | src/evcollect/logfile.cc:175-180 | a gap-free chain of lines up to a mark is, per generation, exactly the bytes before the mark |
| CheckpointRecovery.ExactlyOnce | src/evcollect/logfile.cc:389-418 | in clean runs, with any number of restarts and rotations, the returned lines concatenate to each generation's bytes up to the consumed offset |
| CheckpointRecovery.UninterruptedCall | src/evcollect/logfile.cc:167-192 | the steps of one call compose to what the contract of GetNextLine says |
| CheckpointRecovery.RunRestart | src/evcollect/logfile.cc:389-418 | detaching and attaching lands on what the checkpoint write left on disk |
| CheckpointRecovery.RestartResumes | src/evcollect/logfile.cc:389-418 | from every state between calls it resumes at the consumed position if and only if all sixteen bytes were written when something was to be written and the file could be opened, and otherwise the file already held the position; when the last checkpoint write did not fail, if and only if nothing was to be written or everything was |
| CheckpointRecovery.FailedWriteIsNotRetried | src/evcollect/logfile.cc:349-357 | after a failed write, detach reports success without writing and the next start repeats lines |
| CheckpointRecovery.FailedWriteHappens | src/evcollect/logfile.cc:349-371 | a concrete run reaches that state |
| Scheduler.InsertSorted | src/evcollect/service.cc:111-113 | inserting keeps the queue ordered by next tick |
| Scheduler.InsertKeepsPrefix | src/evcollect/service.cc:111-113 | a job is inserted behind all jobs with an equal or earlier tick |
| Scheduler.StepKeepsInv | src/evcollect/service.cc:297-357 | one turn of the loop keeps the invariant and the set of bindings |
| Scheduler.AddKeepsInv | src/evcollect/service.cc:139-173 | registering a new binding keeps the invariant and adds just that binding |
| Scheduler.RunIsSafe | src/evcollect/service.cc:292-358 | in every run each binding stays in the queue exactly once, the order is never corrupted and no binding fires early |
| Scheduler.RegisteredInv | src/evcollect/service.cc:139-173 | any sequence of registrations at rising times establishes the invariant, with exactly the registered bindings, intervals and times in the queue |
| Scheduler.FiringRate | src/evcollect/service.cc:330-356 | a binding keeps the interval and time it was registered with and fires at most once per interval since then; its tick is one interval behind that of its last firing, or the end of that firing if it ended later, and one interval behind the registration before any; it is registration plus the regular intervals if and only if it was never late |
| Scheduler.DueHeadFires | src/evcollect/service.cc:330-356 | when a due job stands at place n, the head fires and the due jobs before it move up one place |
| Scheduler.DueJobsFireInOrder | src/evcollect/service.cc:297-357 | bounded waiting: once the job at place n is due, the next firings are exactly the jobs before it in queue order, each once |
| Service.ServiceImpl.AddEvent | src/evcollect/service.cc:139-173 | attaches the sources one by one, each at its checkpoint, and registers the binding one interval from now, if and only if every source can be attached; otherwise nothing is registered |
| Service.AttachAll | src/evcollect/service.cc:144-167 | attaches all sources in order, each a new one at its checkpoint, or gives up at the first that cannot be |
| LogfileSource.Attach | src/evcollect/logfile.cc:389-412 | fails if and only if the file name is missing or the regex does not compile; otherwise the source stands at its checkpoint with nothing buffered |
| Service.ServiceImpl.Requeue | src/evcollect/service.cc:343-356 | moves the tick by one interval, or to now if that has passed, and queues the job behind all jobs with an equal or earlier tick |
| Service.ServiceImpl.RunTurn | src/evcollect/service.cc:297-357 | one turn of the loop over the objects is one step of the transition system, and exactly when the head is due its sources are polled and its targets get the events, as ProcessEvent says |
| Service.ServiceImpl.Process | src/evcollect/service.cc:334-340 | processes the fired binding for any outcomes of its system calls, without touching the queue: unless an event was refused or a source failed, until the outcomes are used up or no source has more |
| Service.ServiceImpl.Run | src/evcollect/service.cc:292-358 | the loop over the objects is a run of the transition system; an empty queue ends it at once |
| Service.ServiceImpl.DeliverEvent | src/evcollect/service.cc:280-290 | every target gets the event even when an earlier one fails; success if and only if all accept |
| Service.ServiceImpl.EmitEvent | src/evcollect/service.cc:267-278 | every target gets the event with the binding's name, unless its text is empty; success if and only if it is empty or all accept |
| Service.PollSource | src/evcollect/service.cc:373-393 | asks for the next event, then for more, with separate outcomes of the system calls: the next line is taken off and the answer is right |
| Service.PollSources | src/evcollect/service.cc:369-394 | one pass takes one line off every source, but of several events only the last source's survives |
| Service.ServiceImpl.PollUntilDone | src/evcollect/service.cc:367-405 | for any outcomes of the system calls in any number of passes, every target has received exactly the events of the lines taken from the last source, in order; it succeeds only if all were accepted, ends at the first event refused, and ends in another error only when a source cannot be read in the next pass; on success the sources stand where the passes lead and, unless the given passes are used up, none has more |
| Service.ServiceImpl.ProcessEvent | src/evcollect/service.cc:360-405 | the same, each event saying what the captures of its line, or the line itself, are; and with outcomes that stay the same, one pass more than the longest list of pending lines is enough, after which every pending line was taken from every source and all those of the last source delivered; with one source without a regex on a stable file and accepting targets it succeeds, every target gets one event for each non-empty line from the old position on that reads back as that line, and the position ends behind the last complete line |
| Service.GrowthDelivers | src/evcollect/service.cc:367-405 | for one source without a regex whose log grows meanwhile, what was delivered is one event for each complete line between the old and the new position that is more than its newline, in order; its one member, `data`, with a newline is that line |
| Service.DrainDelivers | src/evcollect/service.cc:360-405 | why: the pending lines of a stable file are those from the position on, each with a newline is what one event reads back as, and a drained position is at the last line |
| Service.EventsReadBack | src/evcollect/service.cc:396-401 | the delivered events parse back, one for one and in order, to the members of each line that is not empty and matches |
| Service.EventsOfLines | src/evcollect/service.cc:396-401 | of complete lines, the events delivered are in order those that say what each line says, found from the file bytes and the offsets of the regex |
| Service.DataOfLines | src/evcollect/service.cc:396-401 | without a regex there is one event for each line that is more than its newline, and its data with a newline is the line |
| EventJson.AppendCaptures | src/evcollect/logfile.cc:221-242 | appends the object of exactly the named groups, in order, with commas in the right places; each value is the text between the two offsets of its group, empty for an unset one |
| EventJson.NamedAreCaptures | src/evcollect/logfile.cc:224-236 | the members are the groups below the result code that have a name, each with the text that lies between its offsets |
| EventJson.EventParsesBack | src/evcollect/logfile.cc:207-247 | the event of a line parses back to exactly its ordered names and values; no match, no event |
| EventJson.EventTextSays | src/evcollect/logfile.cc:203-247 | so the event of a line parses to the line, or to its captures as the offsets give them; an empty line and one that does not match give none |
| EventJson.DataTemplate | src/evcollect/logfile.cc:244-246 | formatting the template gives the one-member object whatever the line contains, `$` included |
| Json.JsonEscape | src/evcollect/util/stringutil.cc:412-525 | returns the escaped string of which ParseEscaped speaks |
| Json.EscapedCharForm | src/evcollect/util/stringutil.cc:416-520 | only quote, backslash and control characters are escaped, seven of them with two characters and the others with six |
| Json.EscapedUnchanged | src/evcollect/util/stringutil.cc:412-525 | so a string is unchanged if and only if it holds none of these |
| Json.ParseEscaped | src/evcollect/util/stringutil.cc:412-525 | escaped text is legal string content by section 7 of RFC 8259 and reads back as the input |
| Json.EscapesOfRfc8259 | src/evcollect/util/stringutil.cc:412-525 | the escapes read by the parser are those of section 7 of RFC 8259, by code point |
| Json.ParseObjectText | src/evcollect/logfile.cc:222-241 | an assembled object parses back to its list of members, in order |
| Json.ObjectExample | src/evcollect/logfile.cc:222-246 | objects of two members, of none and of an unsplit line, letter by letter |
| Json.ParseDataText | src/evcollect/logfile.cc:244-246 | so does the object of an unsplit line |
| UploadQueue.StepKeepsInv | plugins/eventql/eventql_plugin.cc:184-212 | every step of every thread keeps mutual exclusion, the bound, conservation and no lost wakeup |
| UploadQueue.RunKeepsInv | plugins/eventql/eventql_plugin.cc:184-244 | so does every interleaving |
| UploadQueue.QueueConserves | plugins/eventql/eventql_plugin.cc:184-212 | events taken followed by the queue are the events accepted, in order; each producer's events are all there, in order; the capacity is kept |
| UploadQueue.CallsArrive | plugins/eventql/eventql_plugin.cc:184-195 | the events of the finished calls of a producer and of the one in progress are the events passed in, in order |
| UploadQueue.EnvironmentIsFree | plugins/eventql/eventql_plugin.cc:184-262 | calls with any event, spurious wakeups and the stop may come whenever their thread is there |
| UploadQueue.SleepersHaveReason | plugins/eventql/eventql_plugin.cc:184-212 | with no notification under way a sleeping upload thread means an empty queue and a sleeping producer a full one, and they never sleep together |
| UploadQueue.NoDeadlock | plugins/eventql/eventql_plugin.cc:184-244 | with room for one event and no stop, the threads are stuck only when every call returned and every event is taken |
| UploadQueue.NoRoomNoEvents | plugins/eventql/eventql_plugin.cc:187-189 | with capacity zero nothing is ever accepted |
| UploadQueue.WorkingRunsEnd | plugins/eventql/eventql_plugin.cc:219-244 | without new calls and spurious wakeups every schedule ends within a computed number of steps |
| UploadQueue.ComesToRestDone | plugins/eventql/eventql_plugin.cc:184-244 | and where it comes to rest every accepted event was taken, in order |
| UploadQueue.StopIsHonoured | plugins/eventql/eventql_plugin.cc:253-262 | after any history and any steps between setting the flag and notifying, the threads come to rest within a computed number of steps, and then the upload thread has exited if and only if the notification did not find it between its shutdown test and its wait with an empty queue and, for a capacity above zero, no producer in a call |
| UploadQueue.StopLeavesEvents | plugins/eventql/eventql_plugin.cc:219-228 | once the flag is set the upload thread takes at most one more event, and none unless it is past its shutdown test; the queued events stay behind |
| UploadQueue.StopCanBeMissed | plugins/eventql/eventql_plugin.cc:253-262 | a schedule in which it does |
| Routing.PropertyList.Getv | src/evcollect/config.cc:154-178 | finds argument j of the i-th property with this name, and nothing when either is missing |
| Routing.PropertyList.Get | src/evcollect/config.cc:180-193 | collects the arguments of exactly the properties with this name, in order, and their number |
| Routing.RowsAreNamed | src/evcollect/config.cc:180-193 | the rows are the argument lists at exactly the places of that name, in order |
| Routing.EventQLTarget.ReadRoutes | plugins/eventql/eventql_plugin.cc:429-453 | rebuilds the routes from the cells up to the first empty one, and fails at the first that is not a pair, with the routes before it added |
| Routing.EventQLTarget.ReadRow | plugins/eventql/eventql_plugin.cc:430-438 | reads one property cell by cell |
| Routing.EventQLTarget.AddRoute | plugins/eventql/eventql_plugin.cc:126-133 | appends a route |
| Routing.EventQLTarget.EmitEvent | plugins/eventql/eventql_plugin.cc:154-182 | queues the event for exactly the routes of its name, in order; database, slash and table make up the target of the route; on error for those before the first ill-formed target |
| Routing.MatchingAreRoutes | plugins/eventql/eventql_plugin.cc:157-160 | the matching routes are those at exactly the places of that event name, in order |
| Routing.TargetForm | plugins/eventql/eventql_plugin.cc:162-168 | database and table without slashes, joined by one, split into the two |
| Routing.OnlyTargetForm | plugins/eventql/eventql_plugin.cc:162-168 | and only such targets are accepted |
| Sha1.RolIsRotl | src/evcollect/util/sha1.cc:167-171 | shifting and or-ing is rotating |
| Sha1.ChooseIsCh | src/evcollect/util/sha1.cc:201-206 | the code's choice with or is the standard's with exclusive or |
| Sha1.MajorityIsMaj | src/evcollect/util/sha1.cc:216 | likewise the majority |
| Sha1.MacroIsRound | src/evcollect/util/sha1.cc:190-198 | the macro is one round of the standard |
| Sha1.BlockRounds | src/evcollect/util/sha1.cc:200-203 | the first sixteen rounds on the block |
| Sha1.MixRounds | src/evcollect/util/sha1.cc:204-223 | each later loop stores its schedule words in place and performs its rounds |
| Sha1.InnerHash | src/evcollect/util/sha1.cc:181-232 | adds one block to the hash value, whatever the buffer held beyond the block |
| Sha1.LoadBlock | src/evcollect/util/sha1.cc:250-259 | the buffer's words are the block's bytes, most significant first |
| Sha1.ClearWBuffer | src/evcollect/util/sha1.cc:173-179 | the sixteen words of a block are zero |
| Sha1.LoadTail | src/evcollect/util/sha1.cc:264-272 | or-ing bytes into zeroed words gives the tail, the closing bit and zeros |
| Sha1.ShortTail | src/evcollect/util/sha1.cc:273-278 | a tail below 56 bytes is padded in its own block |
| Sha1.LongTail | src/evcollect/util/sha1.cc:273-278 | a longer one takes a second block |
| Sha1.NextBlock | src/evcollect/util/sha1.cc:249-262 | hashing one full block leaves the padded rest to hash |
| Sha1.BlocksInOrder | src/evcollect/util/sha1.cc:249-262 | each block is added to the hash value of the blocks before it |
| Sha1.PaddingIsExact | src/evcollect/util/sha1.cc:264-278 | the words hashed are the padded message of FIPS 180-4 if and only if the message is below 2^29 bytes |
| Sha1.HashTail | src/evcollect/util/sha1.cc:264-278 | hashes the one or two blocks after the last full one |
| Sha1.HashMessage | src/evcollect/util/sha1.cc:234-278 | hashes exactly the words of the message and its padding |
| Sha1.Compute | src/evcollect/util/sha1.cc:234-284 | below 2^29 bytes the output is the digest of FIPS 180-4, whatever was in the buffers; AbcDigest pins that digest by the example of the standard |
| Sha1Example.AbcDigest | src/evcollect/util/sha1.cc:181-284 | the digest of the three bytes 61 62 63 is a9993e36 4706816a ba3e2571 7850c26c 9cd0d89d, from the padded block through every schedule word and round |
| Sha1Spec.PaddingForm | src/evcollect/util/sha1.cc:264-278 | a one bit and the fewest zero bytes that end at 56 modulo 64 |
| Sha1Hash.ToString | src/evcollect/util/sha1.cc:83-94 | each byte as the digit of its sixteens and the digit of its ones, in lower case |
| Sha1Hash.FromHexString | src/evcollect/util/sha1.cc:30-48 | fills the bytes the text has digits for, leaves the others, and accepts exactly from 39 characters on |
| Sha1Hash.DigitsRead | src/evcollect/util/sha1.cc:30-48 | digits are read in either case, and what is no digit as zero |
| Sha1Hash.SingleDigit | src/evcollect/util/sha1.cc:30-48 | a last digit without a second one is the high digit of its byte |
| Sha1Hash.HexRoundTrip | src/evcollect/util/sha1.cc:30-48 | the text of every hash is accepted and gives back each byte |
| Sha1Hash.Compare | src/evcollect/util/sha1.cc:116-131 | the sign of the difference of the two hashes as little-endian numbers |
| Sha1Hash.EqualValues | src/evcollect/util/sha1.cc:58-76 | the order's zero is equality of all bytes |
| Sha1Hash.TopByteDecides | src/evcollect/util/sha1.cc:120-128 | the last byte decides the order unless it is equal, then the others do |
| Base64.Encode | src/evcollect/util/base64.h:114-141 | appends the encoding of section 4 of RFC 4648, four characters for every three bytes begun |
| Base64.Decode | src/evcollect/util/base64.h:69-96 | for any text, appends the whole bytes in the bits of its longest alphabet prefix |
| Base64.ScanPrefix | src/evcollect/util/base64.h:72-73 | the scan finds the length of the longest alphabet prefix |
| Base64.DecodeEncode | src/evcollect/util/base64.h:69-141 | decoding an encoding gives the data back |
| Base64.EncodeDecode | src/evcollect/util/base64.h:69-141 | whole groups of four alphabet characters are the encoding of what they decode to |
| Base64.DecodedBits | src/evcollect/util/base64.h:69-96 | what any text decodes to holds the bits of its alphabet prefix, without fewer than eight at the end |
| Base64.Alphabet | src/evcollect/util/base64.h:115-116 | the alphabet of table 1 in section 4 of RFC 4648, character by character |
| Base64.Rfc4648Examples | src/evcollect/util/base64.h:114-141 | examples of section 10 of RFC 4648 with each kind of padding |
| Base64.BitsOfSymbols | src/evcollect/util/base64.h:114-141 | the characters hold the data's bits followed by fewer than six zero bits |
| Base64.SymbolRoundTrip | src/evcollect/util/base64.h:49-67 | the value of the character of a value is that value |
| Base64.CharRoundTrip | src/evcollect/util/base64.h:49-67 | the decoding table knows exactly the characters of the encoding table, and the character of the value of such a character is that character |
| StringUtil.JoinSplit | src/evcollect/util/stringutil.cc:138-173 | joining the pieces with the pattern gives the string back |
| StringUtil.SplitJoin | src/evcollect/util/stringutil.cc:138-173 | splitting a joined list gives the list back when no earlier occurrence arises |
| StringUtil.SplitSeparable | src/evcollect/util/stringutil.cc:138-157 | the pieces of a split always have that form |
| StringUtil.Split | src/evcollect/util/stringutil.cc:138-157 | the pieces between successive leftmost occurrences |
| StringUtil.Join | src/evcollect/util/stringutil.cc:159-173 | the joined list of which JoinSplit speaks |
| StringUtil.ReplaceAll | src/evcollect/util/stringutil.cc:123-136 | editing in place terminates and equals joining the split pieces with the replacement |
| StringUtil.FormatImpl | src/evcollect/util/stringutil_impl.h:45-68 | one replacement per remaining argument, in order |
| StringUtil.DecimalReads | src/evcollect/util/stringutil_impl.h:45-68 | the number in a placeholder is written in decimal, without leading zeros |
| StringUtil.Formatv | src/evcollect/util/stringutil.cc:385-398 | the same as `format` |
| StringUtil.FormatIsSimultaneous | src/evcollect/util/stringutil_impl.h:45-82 | for all `$`-free arguments the result is simultaneous substitution, if and only if no `$` of the template stands directly before a placeholder |
| StringUtil.FormatRescansArguments | src/evcollect/util/stringutil_impl.h:45-82 | for all lists of n arguments, whatever they contain, the result is simultaneous substitution, if and only if every placeholder with an argument is that of the last one |
| StringUtil.FormatOneArgument | src/evcollect/util/stringutil_impl.h:59-82 | with one argument no condition is needed |
| ConfigLexer.Lexer.constructor | src/evcollect/config.cc:198-209 | the first token is read at once, from a NUL |
| ConfigLexer.Lexer.NextChar | src/evcollect/config.cc:428-453 | moves to the next character; at the end sets the end-of-file bit and stays there |
| ConfigLexer.Lexer.PeekChar | src/evcollect/config.cc:420-422 | looks one character ahead, and at the end sets the end-of-file bit |
| ConfigLexer.Lexer.ConsumeBlanks | src/evcollect/config.cc:357-418 | skips blanks and comments as the specification function does |
| ConfigLexer.Lexer.ConsumeLineEnds | src/evcollect/config.cc:263-289 | skips any number of LF and CR LF, and stops at a lone CR |
| ConfigLexer.Lexer.ParseQuoted | src/evcollect/config.cc:303-327 | takes everything up to a delimiter that does not follow a backslash |
| ConfigLexer.Lexer.ParseName | src/evcollect/config.cc:329-351 | takes a word and tells keywords from names |
| ConfigLexer.Lexer.ParseValue | src/evcollect/config.cc:291-301 | takes a word as a value |
| ConfigLexer.Lexer.GetToken | src/evcollect/config.cc:226-261 | token, text and stream equal those of the specification function, for every input |
| ConfigLexer.NextTokenConsumes | src/evcollect/config.cc:226-261 | every call that returns neither Eof nor Unknown consumes input |
| ConfigLexer.CharacterClasses | src/evcollect/config.cc:226-418 | what blanks, line ends, words and delimiters are, character by character |
| ConfigText.QuotedExactly | src/evcollect/config.cc:303-323 | a text between delimiters is read back if and only if every delimiter in it follows a backslash and it does not end in one |
| ConfigText.GapSkipped | src/evcollect/config.cc:357-418 | any mix of blanks and block comments changes nothing |
| ConfigText.LexemeScanned | src/evcollect/config.cc:226-351 | each printed lexeme is returned as its token and text, whatever follows that does not go on with it |
| ConfigText.WordsScanned | src/evcollect/config.cc:329-351 | four words are keywords, every other word that begins with a letter is a name, one that begins with a digit a value; a word ends at the first character that is none of a word |
| ConfigText.LineEndsScanned | src/evcollect/config.cc:263-289 | a note and all the LF and CR LF behind it are one token |
| ConfigText.LoneReturn | src/evcollect/config.cc:263-289 | a CR that no LF follows is no line end and no token |
| ConfigText.OtherCharacter | src/evcollect/config.cc:226-261 | nor does any other printable character begin one |
| ConfigText.OpenQuote | src/evcollect/config.cc:303-327 | a delimiter that is never closed takes in all the rest and is no token |
| ConfigText.OpenComment | src/evcollect/config.cc:393-414 | a block comment that is never closed takes in all the rest, up to the end |
| ConfigText.PrintScan | src/evcollect/config.cc:226-418 | any list of legal lexemes, with blanks, comments and notes between them, scans to exactly their tokens and then Eof |
| ConfigText.TokenIsLexeme | src/evcollect/config.cc:226-351 | conversely, every token scanned from any input is the meaning of a legal lexeme |
| ConfigText.ScanPrintScan | src/evcollect/config.cc:226-418 | any input that scans to Eof can be rewritten without comments and extra blanks and scans to the same tokens |

## Left out

- `ConfigParser` (config.cc:460-696): unfinished in the source; it has no success exit to prove against the grammar.
- The join in `stopUploadThread`, and a new start after it: the model ends with the upload thread exited, or asleep in the runs StopIsHonoured describes.
- The shutdown flag is written without the lock; it is modelled as one atomic write.
- `uploadEvent`: the HTTP request and its body are libcurl I/O; an upload is a step with any result.
- PCRE: a regex is a function from lines to result code and offsets, bounded as libpcre guarantees; the name table is a list.
- `select`, pipes, dlopen, syslog, signals: system calls; `select` may wake the loop at any time and nothing is claimed about promptness.
- The kill that ends the run loop: a run is any finite number of turns.
- The plugin registry: each source declaration says whether its plugin is known.
- The name of the checkpoint file is the SHA-1 of the log's name; a source declaration holds the file itself.
- `stat`, `open`, `lseek` and `read` of one `readLines` see one snapshot of the file; a rotation between `stat` and `open` is not modelled.
- CheckpointRecovery: generations of the log are numbered in order and only grow; Truncation drops both.
- What is read after a file that was not noticed: NotRecognised says what the first such read does, and the run is not followed beyond it.
- The sixteen bytes of the checkpoint file: a complete file is a pair of numbers, a shorter one reads as none.
- Widths of offsets and ticks: unbounded here, 64 bits in the source; the wall-clock difference in `getNextLine` does wrap.
- `sleep` wraps when a tick is past; it only reaches `select`, which may return at any time.
- The end of `processEvent` on a log that grows as fast as it is polled: it need not come, so the passes made are given as a finite list.
- `mergeEvents`: a placeholder that keeps the overlay; modelled as it is, so of several sources only the last one's events are delivered.
- InnerHash: its four loops after the first are one method with the round function and the constant as parameters.
- Compute: sizes from 2^31 on, where the source's `int` overflows.
- Encode: data below two bytes, where the source's unsigned `len - 2` wraps.
- Split: an empty pattern, on which the source does not terminate.
- ReplaceAll: an empty pattern, and strings beyond the range of the `int` cursor.
- FormatImpl: conversion of the arguments to strings; they are strings here.
- Getv: a NUL inside an argument, which ends the C string handed out.
- Line and column numbers and the traces of the lexer.
- `FlagParser`, `Logger`, number formatting, the hostname plugin, plugin wrappers: only easy members.

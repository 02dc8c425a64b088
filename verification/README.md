# Verified model of the Cray power API library and daemon

This project models, in Dafny, the parts of the power API library and of its daemon that keep state over long runs,
and proves what every run keeps:

* **The logging engine** (`lib/log.c`). The byte ring (`RingBuffer`) is an array with two indices that refines a queue
  of messages (`LogMessages`). The monitor between user threads and the write thread (`RingPool`, `LogFlow`,
  `LogMonitor`, `LogMonitorSafety`, `LogMonitorProgress`, `LogMonitorCalls`) is a transition system whose steps lie
  between the points where the mutex is released. The rotation of one log file by several processes (`LogFiles`, `LogRotation`, `LogRotationSafety`,
  `LogRotationOutcome`, `LogRotationRace`) is a transition system with one step per system call.
* **The daemon's arbitration** (`daemon/`). `Priority` and `PathRequests` are about one path's sorted list of requests,
  `Arbitration` and `ArbitrationSafety` about the tables over whole runs, `Credentials` about who may change them,
  `HardwareAgreement` about when the hardware holds the value of the list head, and `StrandedValue` a run in which it
  does not, even after the last client has left. `PowerDaemon` is the daemon itself, with tables updated in place, proved to take exactly those steps. `CStates`
  is the one attribute whose hardware is not a single cell.
* **Setting an attribute on a tree of objects** (`lib/object.c`): `Forwarding`, `ForwardingKinds`,
  `ForwardingResults`.
* **Statistics, groups, system files** (`lib/statistics.c`, `lib/group.c`, `lib/utility.c`): `RunningStatistics`,
  `Statistics` and `StatisticReduction`; `GroupLists` and `Groups`; `FormatMatch`, `SysFileLines` and `SysFiles`.

`Options` holds the one shared datatype. `dafny verify dfyconfig.toml` checks everything.

## How the model stands to the code

* Bytes are integers below 256, a message is the byte image of a `msgblk_t` whose first word is its own length. The
  length is a multiple of eight between 40 and 4000, a ring has at least 4096 and less than 2^31 bytes.
* In the monitor, waiting threads may resume at any time, whether they were signalled or not. Messages written,
  overwritten and cleared are recorded as history.
* In the rotation, inodes are numbered in order of creation; a process may be held up between any two calls for any
  time, it may die there, which releases its lock, and any call that can fail may fail. Each process has one logging
  context per log, for the lock on the control file belongs to the process and would not keep two of its contexts
  apart. A process whose open failed
  goes on without a log file and may still be asked for a forced rotation; the size check of an automatic one would
  use the missing file, so it is left to the death of the process. All processes agree on `max_files` and `max_size`. A
  file is assumed not to be deleted by anyone else.
* In the daemon, a worker step and a disconnection are atomic, timestamps increase, the path determines the attribute,
  and doubles and integers are both embedded in the reals. `g_slist_insert_sorted` inserts before the first element
  that compares at least as large.
* In the statistics, doubles are reals; infinities, the square root and 0/0 are values of their own.

## Where the code and what is said about it differ

* `lib/object.c:686-699` says that warnings are ignored. They are not: `ForwardingResults.WarningIsNotIgnored` gives a
  tree, and `ForwardingResults.KeepsPromiseIff` says for every tree exactly when the result is the promised one. The
  plugins and the daemon in this repository return no warning, so the case needs a handler of another plugin.
* "The hardware holds the value of the list head" fails when a client that owned the head asks for a weaker value:
  `StrandedValue.GivingUpTheHeadDisagrees` gives a run, `HardwareAgreement.SetAgreesIff` the exact condition for one
  request and `HardwareAgreement.RunAgreesIff` for whole runs.
* "A disconnection restores the hardware" then fails as well: at the end of the run of
  `StrandedValue.ValueIsStranded` nobody is connected any more and the hardware holds what only the client that left had
  asked for. `HardwareAgreement.DisconnectAgreesIff` is the exact condition for one rollback from any state, and
  `HardwareAgreement.DefaultsLeft` for whole runs: the last event that touched the path decides.
* "There is a current log file whenever no rotation is under way" fails after a rotation that could not create its new
  file, or died before it: `LogRotationRace.FailedOpenLeavesNoFile` and `LogRotationRace.DeathLeavesNoFile` give runs,
  `LogRotationSafety.CurrentFileExists` the exact condition.
* "An automatic rotation archives full files only" fails after such a rotation, when a third process creates the new
  file while a rotation that found none is under way: `LogRotationRace.ArchivedTooEarly` gives a run.
  `LogRotationSafety.ArchivedWereFull` says exactly when the archived file is the one that was seen full: if that is
  in place at the second stat (`lib/log.c:2017`), which a stat that succeeds makes sure of.
* `gov_compare` is not transitive (`Priority.GovCompareIsNotTransitive`); that lists of governors are sorted all the same
  is `Priority.InsertSorted` and `Priority.GovernorBlocks`.
* A chroot with a `%` in it changes the specifiers of every entry that is not set explicitly:
  `SysFiles.ChrootChangesSpecifiers` gives a file, `SysFiles.SpecifiersKeptIff` the exact condition.
* `PWR_StatGetReduce` takes its final square root according to the statistic, not the operation: two
  clauses of `StatisticReduction.Reduce` say what is returned when only one of them is STDEV.

## Model

| member | source | states |
|---|---|---|
| LogMessages.FormattedLengthFits | lib/log.c:590-603 | every text the formatter can produce gives a length that is a multiple of 8, at most 4000, with less than 8 bytes of padding |
| LogMessages.KeepFromIsLongestSuffix | lib/log.c:1006-1033 | the index from which a ring retains messages is that of the longest suffix strictly shorter than the ring, both directions |
| LogMessages.DropFromSuffix | lib/log.c:1016-1019 | discarding the oldest messages for a new one leaves exactly the suffix from the later of the old start and the longest suffix that fits |
| LogMessages.RunIsExact | lib/log.c:967-1033 | for every run of puts, gets and clears the contents are exactly the messages put since the last clear from an index on: after the last one got, or the start of the longest suffix that fits |
| LogMessages.RunWithoutGets | lib/log.c:1006-1033 | without gets since the last clear the ring holds the longest suffix of all messages put whose total length is strictly below the ring size: it fits, and any suffix fits exactly if it is no longer |
| RingBuffer.EqualIndicesMeanEmpty | lib/log.c:967-972 | write and read index are equal exactly when the ring is empty |
| RingBuffer.TakeOldest | lib/log.c:967-994 | the header of the oldest message lies in one piece at the read index and gives its length; advancing past it, wrapped or not, leaves the other messages stored |
| RingBuffer.StoreNewest | lib/log.c:1006-1033 | writing a message at the write index and nowhere else, wrapped or not, stores it behind the others and harms none |
| RingBuffer.Ring.Space | lib/log.c:944-952 | the free bytes computed from the indices are the ring size less the stored messages |
| RingBuffer.Ring.GetMessage | lib/log.c:967-994 | returns exactly the bytes of the oldest message and removes it; fails exactly on an empty ring |
| RingBuffer.Ring.MakeRoom | lib/log.c:1016-1019 | the discard loop ends for every message of at most 4000 bytes and leaves at least one byte free behind it |
| RingBuffer.Ring.PutMessage | lib/log.c:1006-1033 | the contents become the oldest-first remainder followed by the new message; indices stay multiples of 8 inside the buffer |
| RingBuffer.Ring.Clear | lib/log.c:1155-1160 | the ring becomes empty |
| RingBuffer.Ring.Run | lib/log.c:944-1033 | any sequence of puts, gets and clears on the bytes does what it does on the abstract queue, and the bytes handed out are those of the queue |
| RingPool.ExactlyOnePlace | lib/log.c:1079-1160 | counting occurrences, a ring is in one of idle queue, active pointer, locked queue and the writer's hand, its tag says which, and an idle ring is empty |
| RingPool.LongestIdleFirst | lib/log.c:1100-1106 | the ring that becomes active is the one idle for longest |
| RingPool.FlushFlow | lib/log.c:1117-1146 | flushing moves the active ring's messages behind all flushed ones |
| RingPool.TakeFlow | lib/log.c:2177-2182 | the write thread takes the first of all flushed messages |
| LogFlow.PutInv | lib/log.c:1006-1033 | a put keeps delivery order and accounts for each overwritten message; what is flushed is untouched |
| LogFlow.ClearInv | lib/log.c:1155-1160 | a clear drops exactly the active ring's messages and keeps the order of the rest |
| LogFlow.ThroughPutInv | lib/log.c:1048-1059 | a write-through put that did not have to wait drops nothing |
| LogMonitorSafety.StepKeeps | lib/log.c:2106-2230 | every step of the write thread and of every user thread keeps the whole invariant of the monitor |
| LogMonitorSafety.RingsInOnePlace | lib/log.c:1079-1160 | in every reachable state each normal ring is in exactly one place, its tag says which, and idle rings are empty |
| LogMonitorSafety.DeliveryOrder | lib/log.c:2177-2229 | in every reachable state written, in flight, held, locked and active messages form a subsequence of those put, missing exactly the overwritten and cleared ones; the active ring holds the longest suffix that fits |
| LogMonitorSafety.ThroughNeverDrops | lib/log.c:1048-1059 | in every reachable state the write-through history is exactly written, in flight, stored, in this order |
| LogMonitorSafety.NoLostWakeup | lib/log.c:2148-2230 | while the write thread waits unsignalled there is no work and no flag set, and every thread still blocked has been signalled and will not have to wait again |
| LogMonitorSafety.SyncIsBarrier | lib/log.c:1175-1189 | when a sync returns, every message flushed or written through before the call has been handed to the file writer, before anything committed later |
| LogMonitorProgress.StepLess | lib/log.c:2148-2230 | every step of the write thread, unless it sleeps, brings it nearer to sleep in a well-founded measure of the work left |
| LogMonitorProgress.WriterSleeps | lib/log.c:2148-2230 | from every reachable state the write thread alone, in finitely many steps, goes to sleep with nothing left to do |
| LogMonitorProgress.EveryCallReturns | lib/log.c:1048-1189 | from every reachable state, without new calls, there is a way to a state in which every blocked thread has returned from its call, the write thread sleeps, and all that was flushed or written through is written |
| LogMonitorProgress.NormalRingsFirst | lib/log.c:2176-2210 | in every pass the write-through ring is looked at only when no ring is locked |
| LogMonitorCalls.CallsDoTheirWork | lib/log.c:2389-2530 | over every run, the step in which a call returns does its work and nothing else: a logged message goes to the write-through ring if autoflush was on or it is internal or a plain message, else it is the newest of the active ring, or the newest of all flushed ones if it is critical, a warning or a fault; a flush, a clear and a change of autoflush do what they say |
| LogMonitorCalls.PutIsLogged | lib/log.c:2389-2472 | in every reachable state what was put into the write-through ring, and into the normal rings, is exactly the messages of the log calls of the one and the other class that have returned, in the order in which they returned |
| LogMonitorCalls.ForcedRotationHappened | lib/log.c:2160-2174 | a call for a rotation returns only after the write thread has rotated since |
| LogMonitorCalls.WithoutRings | lib/log.c:1079-1160 | without normal rings, messages that are not written through are lost, and flush and clear do nothing |
| LogMonitorCalls.AutoflushWithoutRings | lib/log.c:2493-2530 | autoflush can be changed without normal rings too |
| LogFiles.Directory.Shift | lib/log.c:2030-2069 | the files from some slot on have moved up by one and the rest is as before, however the shift ended; of the old files at most that of slot max_files-1 is gone; it is complete exactly when no call failed |
| LogFiles.Directory.Rename | lib/log.c:2052-2068 | its requirement, met in every iteration, is that the target slot is free: no rename overwrites a file |
| LogFiles.CompletedShift | lib/log.c:2050-2069 | a complete shift moves the content of slot i to slot i+1, missing files included, and frees slot 0 |
| LogRotationSafety.StepInv | lib/log.c:1905-2092 | every system call of every process, and the death of any process at any point, keeps the invariant of the rotation |
| LogRotationSafety.CurrentFileExists | lib/log.c:1956-2092 | in every reachable state with the control lock free and a file ever created, slot 0 is occupied exactly unless a rotation failed or died between its last rename and its open, with no file in place, and nobody has created one since |
| LogRotationSafety.LeavesOnce | lib/log.c:1956-2092 | no inode leaves slot 0 twice, over every interleaving, forced rotations and deaths included |
| LogRotationSafety.NeverReturns | lib/log.c:1956-2092 | an inode that has left slot 0 is never there again |
| LogRotationSafety.ArchivedWereFull | lib/log.c:1966-2025 | an automatic rotation archives its process's own file if and only if that is in slot 0 at its second stat, and then it had reached max_size, which is not zero; none is there only after some rotation ended between its last rename and its open, another one only if a stat failed |
| LogRotationSafety.SlotsNewestFirst | lib/log.c:2049-2069 | lower slots hold younger files in every reachable state, and a rename under way has a free target |
| LogRotationSafety.OnlyOldestIsLost | lib/log.c:2030-2069 | no step of any process makes a file disappear except the unlink of slot max_files-1 and the purge of slots from max_files on |
| LogRotationSafety.RotationShifts | lib/log.c:2030-2069 | while one process renames, the archives above the slot it is at have moved up by one and the others are where they were, whatever other processes do in between |
| LogRotationSafety.CompletedRotation | lib/log.c:2050-2069 | a complete rotation among the steps of other processes has moved the file that was in slot i when it began to slot i+1, for all i, missing archives included, and freed slot 0; only a log file that was missing then may be one that another process created meanwhile |
| LogRotationOutcome.ForcedRequestRotates | lib/log.c:1924-2080 | over every run, a forced rotation whose calls succeed archives the log file that is there when it gets the lock, by exactly one entry, and leaves its process at work with another file open in slot 0 |
| LogRotationOutcome.FullFileRotates | lib/log.c:1946-2080 | the same for an automatic rotation of a file that has reached max_size and is in slot 0 both times its process looks |
| LogRotationOutcome.StartOpensAndPurges | lib/log.c:2120-2135 | a process that starts, and whose calls succeed, has the file of slot 0 open and has purged the archives from max_files on |
| LogRotationOutcome.OpenedIsCurrent | lib/log.c:1747-1785 | whenever a process opens the log, it has the file of slot 0 open, the one that was there if there was one |
| LogRotationOutcome.FailedOpenLeavesNone | lib/log.c:1747-1765 | an open that fails leaves the process without a log file |
| LogRotationOutcome.ReplacedIsReopened | lib/log.c:1993-2021 | a process that sees that its file was replaced goes to open the new one |
| LogRotationSafety.PurgedIff | lib/log.c:1880-1894 | a purge removes exactly the unbroken row of archives from max_files on |
| LogRotationRace.FailedOpenLeavesNoFile | lib/log.c:2080-2092 | a run of automatic rotations at whose end the lock is free and slot 0 is empty |
| LogRotationRace.DeathLeavesNoFile | lib/log.c:2069-2080 | the same by a process that dies between its last rename and its open |
| LogRotationRace.ArchivedTooEarly | lib/log.c:1985-2092 | a run of three processes, without forced rotations, in which a file that was just created is archived |
| Priority.GovCompareIsNotTransitive | daemon/pwrapi_set.c:246-273 | three governors in a row of which the first and last tie, the last beats the second and the second beats the first |
| Priority.InsertSorted | daemon/pwrapi_set.c:48-65 | inserting a request with a fresh timestamp keeps every list sorted, governor lists included |
| Priority.WithoutKeeps | daemon/pwrapi_set.c:67-84 | removal keeps order and distinct owners and removes exactly that owner's request |
| Priority.GovernorBlocks | daemon/pwrapi_set.c:246-273 | a sorted governor list is all userspace requests, then all others, each block newest first |
| Priority.HeadIsExtreme | daemon/pwrapi_set.c:276-320 | the head is the minimum (maximum limits, C-state limit, frequency request) or the maximum (minimum limits) of all outstanding values |
| PathRequests.SetOutcome | daemon/pwrapi_worker.c:554-631 | a new request becomes the head exactly when it wins against everyone else's, the default excluded if it replaces the default; otherwise the first of these is the head |
| PathRequests.RollbackAgrees | daemon/pwrapi_set.c:100-138 | writing the new head exactly when the removed request had priority over it keeps hardware and head in agreement |
| ArbitrationSafety.StepInv | daemon/powerapid.c:368-406 | connections, authorizations, requests and disconnections all keep the tables consistent |
| ArbitrationSafety.TablesAgree | daemon/pwrapi_worker.c:554-621 | in every reachable state a path's list holds exactly its default and one request of each client that has one, as the other tables have them, sorted, with the extreme value first |
| Credentials.PersistentIff | daemon/pwrapi_socket.c:49-62 | over every run, the persistent requests are exactly those of clients that connected as root and whose first authorization was as resource manager |
| Credentials.DefaultAfterSet | daemon/pwrapi_worker.c:554-607 | a request by an authorized client replaces an existing default if the client is root and resource manager, and leaves it otherwise |
| Credentials.UnauthorizedIgnored | daemon/powerapid.c:391-399 | a request before the first authorization changes nothing |
| Credentials.AuthorizedRecorded | daemon/pwrapi_worker.c:609-621 | any other request is recorded as its client's newest, unless it needed a default that could not be read; nobody else's request changes |
| HardwareAgreement.SetAgreesIff | daemon/pwrapi_worker.c:554-631 | from any state, agreeing or not, a request ends in agreement if and only if: it wins against its competitors and its write works or is superfluous, or it does not win and the strongest competitor asks for the value already in the hardware, or it is refused; where reads and writes work, if and only if it ties with the new head or the head asks for what the hardware held |
| HardwareAgreement.SafeSetHarmless | daemon/pwrapi_worker.c:554-631 | a request that leaves the head alone or becomes it is one that keeps agreement |
| HardwareAgreement.DisconnectAgreesIff | daemon/pwrapi_set.c:100-138 | from any state, agreeing or not, a rollback ends in agreement if and only if the path was untouched and agreed, or the new head is written, or the hardware already holds its value |
| HardwareAgreement.DisconnectAgrees | daemon/pwrapi_socket.c:92-113 | rolling back a client's requests keeps agreement of every path where writes work |
| HardwareAgreement.RunAgreesIff | daemon/pwrapi_worker.c:554-631 | over every run, from any agreeing state on, hardware and head of a path agree all the time if and only if every event meets the condition for its kind |
| HardwareAgreement.AgreesIffLastTouch | daemon/pwrapi_worker.c:554-631 | after every run, however much it disagreed before, hardware and head of a path agree if and only if the last event that touched the path, if any, met the condition for its kind |
| HardwareAgreement.SafeRunsAgree | daemon/pwrapi_worker.c:554-631 | from any agreeing state on, hardware and head of a path agree as long as no request for it gives up the head without becoming it |
| HardwareAgreement.DefaultIsBaseline | daemon/pwrapi_worker.c:554-607 | in every reachable state a default is the value of the last request by a client that connected as root and was first authorized as resource manager, or else what the hardware held at first |
| HardwareAgreement.DefaultsLeft | daemon/powerapid.c:821-834 | after the last client has gone, whatever happened before, every list is just its default, which is the last persistent value or else the first one, and the hardware holds it if and only if the last event that touched the path, if any, met the condition for its kind |
| HardwareAgreement.LastClientRestores | daemon/powerapid.c:821-834 | if hardware and head agreed at some time and no request gave up the head since, the hardware holds that value once the last client has gone |
| StrandedValue.GivingUpTheHeadDisagrees | daemon/pwrapi_worker.c:611-631 | a run of four events whose last request turns agreement into disagreement |
| StrandedValue.ValueIsStranded | daemon/pwrapi_set.c:100-138 | the run goes on to a state without clients in which the hardware holds neither the first value nor a persistent one |
| PowerDaemon.Daemon.EnsureDefault | daemon/pwrapi_worker.c:554-607 | a default is recorded when there is none or the request is persistent; a default that cannot be read changes nothing |
| PowerDaemon.Daemon.ProcessItem | daemon/pwrapi_worker.c:539-636 | the daemon's tables take exactly the step of the abstract model and stay consistent; success means that the request is not the head or is in the hardware |
| PowerDaemon.Daemon.SetRollback | daemon/pwrapi_set.c:100-138 | the request is gone, and the new head is written exactly when the request had priority over it |
| PowerDaemon.Daemon.RollbackAll | daemon/pwrapi_socket.c:104-106 | rolling back a client's requests one by one, in any order, gives the order-free result |
| PowerDaemon.Daemon.SocketDestruct | daemon/pwrapi_socket.c:92-113 | the abstract disconnection, or nothing for an unknown client |
| PowerDaemon.Daemon.Shutdown | daemon/powerapid.c:821-834 | afterwards no client is left, every list is just its default and the hardware holds it |
| CStates.WriteLimit | daemon/pwrapi_worker.c:423-461 | succeeds exactly for a limit in range with all files writable; which flags are written in every case, failures included |
| CStates.ReadLimit | daemon/pwrapi_worker.c:291-331 | returns the deepest state up to which all are enabled; fails exactly on a broken file before that |
| CStates.RoundTrip | daemon/pwrapi_worker.c:423-461 | what was written is read back; a limit out of range changes nothing |
| Forwarding.CalledExactly | lib/object.c:633-719 | for every tree the handlers called are exactly the nearest descendants that handle the attribute, each exactly once, whatever they return |
| ForwardingKinds.CalledByKind | lib/object.c:753-1110 | told by kinds alone: for every tree, a power limit is set on exactly the outermost sockets and memories, a C-state limit, frequency request or limit or governor on exactly the outermost hardware threads, and any other attribute on nothing, each device once |
| ForwardingKinds.CalledInOrder | lib/object.c:633-655 | the devices are called in the order of a walk over the tree |
| ForwardingKinds.ReadOnlyByKind | lib/object.c:753-1110 | an attribute that cannot be set returns read-only if an object on which it can be read is reached, and not implemented otherwise |
| Forwarding.Devices.SetValue | lib/object.c:753-1110 | the set functions of all kinds make exactly these calls and return the nested combination |
| Forwarding.Devices.ForwardSetValue | lib/object.c:633-719 | the loop over the children computes the combination of their results: not-implemented if none implements the attribute, the first error or warning if no other error differs from it, else a failure |
| ForwardingResults.ResultClosedForm | lib/object.c:633-719 | for every tree and all statuses, warnings included, the nested result in closed form over the flat list of handler statuses |
| ForwardingResults.KeepsPromiseIff | lib/object.c:686-714 | the result is the promised one if and only if: with errors, every failing subtree is free of a leading warning or a failure is due anyway; without errors, there is no warning |
| ForwardingResults.WithoutWarnings | lib/object.c:686-714 | without warnings the result depends on the set of handler statuses only: not-implemented is the identity, one common error survives, two different ones give a failure |
| ForwardingResults.WarningIsNotIgnored | lib/object.c:686-714 | a tree whose set returns the warning of its handler instead of success |
| ForwardingResults.WarningHidesError | lib/object.c:686-714 | a warning before an error makes it a failure, after it not |
| RunningStatistics.MeanStep | lib/statistics.c:222-229 | the incremental update gives the arithmetic mean |
| RunningStatistics.WelfordStep | lib/statistics.c:226-232 | the update of roll_sum gives the sum of squared deviations from the new mean |
| RunningStatistics.ExtremeStep | lib/statistics.c:210-221 | the update keeps the extremum and the instant of the earliest reading that attains it |
| RunningStatistics.MinimumKept | lib/statistics.c:210-215 | MIN keeps the least of all readings and the instant of the first one that attains it |
| RunningStatistics.MaximumKept | lib/statistics.c:216-221 | MAX keeps the greatest and the instant of the first one that attains it |
| RunningStatistics.NextSummarises | lib/statistics.c:208-235 | one step keeps an object's slots a summary of all its readings, for all four statistics |
| RunningStatistics.VarianceNotNegative | lib/statistics.c:233-234 | for two readings or more the square root is taken of the sample variance, which is not negative |
| RunningStatistics.SingleSample | lib/statistics.c:226-234 | after one reading there is no standard deviation |
| Statistics.Statistic.Update | lib/statistics.c:205-242 | a sampling of all objects extends every object's history by its reading |
| Statistics.Statistic.Sample | lib/statistics.c:189-245 | after any sequence of samplings, failed ones skipped, every object's slots summarise all its successful readings |
| StatisticReduction.Reduce | lib/statistics.c:909-968 | the first extremum with its index and instant, or the infinity and nothing set if no value beats it; the mean, or the sample standard deviation, of the values if all are finite, and no number otherwise; what is returned when statistic and operation do not fit |
| StatisticReduction.LocatedIsExtreme | lib/statistics.c:934-947 | for finite values the reduction finds the least, or the greatest, and its first index |
| GroupLists.IncreasingUnique | lib/group.c:44-55 | a strictly increasing list is determined by its members |
| GroupLists.PassFirst | lib/group.c:346-410 | passing the smaller object of the first list decides its membership correctly and keeps the output increasing |
| GroupLists.PassBoth | lib/group.c:346-410 | passing an object of both lists decides its membership correctly and keeps the output increasing |
| GroupLists.WalkEnds | lib/group.c:346-586 | at the end of the walk the output is strictly increasing and denotes the set operation |
| Groups.InsertObj | lib/group.c:191-223 | the group stays strictly increasing and gains exactly the object; a null group or object fails and changes nothing |
| Groups.RemoveObj | lib/group.c:243-274 | the group stays strictly increasing and loses exactly the object; a missing object is no error |
| Groups.GroupUnion | lib/group.c:346-410 | the result is strictly increasing and its members are the union; null groups give -1 |
| Groups.GroupIntersection | lib/group.c:413-457 | the same for the intersection |
| Groups.GroupDifference | lib/group.c:460-518 | the same for the difference |
| Groups.GroupSymDifference | lib/group.c:521-586 | the same for the symmetric difference |
| Groups.SymDifferenceOfParts | lib/group.c:521-586 | as lists, the symmetric difference equals the union without the intersection |
| FormatMatch.Fmtmatch | lib/utility.c:141-170 | terminates on all strings and is true exactly when both have the same sequence of conversion specifiers and neither or both are empty |
| FormatMatch.SpecsEquations | lib/utility.c:141-170 | a specifier goes from a '%' to the first d, u, x, f or s behind it, or to the end; a format without '%' has none |
| FormatMatch.PrefixKeepsSpecsIff | lib/utility.c:366-386 | a directory put before a format keeps its specifiers if and only if it has no '%' |
| SysFileLines.ParseIff | lib/utility.c:259-302 | a line is read as a setting exactly when it spells that setting with any white space around its parts |
| SysFileLines.BlankIff | lib/utility.c:259-270 | a line is skipped exactly when nothing but spaces, tabs and line feeds comes before its end or a '#' |
| SysFileLines.MalformedIff | lib/utility.c:280-299 | a line is malformed exactly when it is neither skipped nor spells a setting |
| SysFileLines.ParseLine | lib/utility.c:259-302 | the pointer scans classify every line as that reading does |
| SysFiles.GoodLineIff | lib/utility.c:280-340 | a line is accepted exactly when it is not malformed and any setting on it, unless a chroot, has a known key, a value whose specifiers are the default's, and no earlier line for its key |
| SysFiles.FindIff | lib/utility.c:315-319 | the entry of a key is the first one with it |
| SysFiles.TrimSlashesIff | lib/utility.c:304-310 | a chroot loses exactly its trailing slashes |
| SysFiles.RootIsLast | lib/utility.c:304-313 | the last chroot of the file counts |
| SysFiles.Catalog.SetEntry | lib/utility.c:315-356 | a setting is accepted exactly when its key is known, not set before, and its format compatible |
| SysFiles.Catalog.ReadLines | lib/utility.c:251-357 | succeeds exactly when every line is good; then the values are those of the file and the root that of the last chroot |
| SysFiles.Catalog.Configure | lib/utility.c:236-415 | all or nothing: a good file gives its values and the chroot to all other entries, one bad line leaves every entry at its default |
| SysFiles.SpecifiersKeptIff | lib/utility.c:335-386 | all entries keep their default's specifiers if and only if the file is rejected, sets every entry, or has no chroot with a '%' |
| SysFiles.ChrootOnly | lib/utility.c:304-386 | a file that only sets a chroot puts it before every default, and keeps an entry's specifiers if and only if it has no '%' |
| SysFiles.ChrootChangesSpecifiers | lib/utility.c:304-386 | a one-line file after which an entry has other specifiers than its default |

## Left out

- LogRotationSafety.ArchivedWereFull: says nothing about the size of a file that an automatic rotation archives although it was not in place at its second stat; it can be any size.
- Two logging contexts of one process on the same log file.
- HardwareAgreement.SetAgreesIff: attributes that attr_value_comp does not list compare equal to everything and are excluded.
- A log file that is created by an open whose later fdopen fails, which the source says never happens.
- Logging: initialisation and termination counts, fork handlers, the fault handler, stderr output and verbosity filtering; the padding bytes themselves (only the rounded length is modelled).
- How many rotations two simultaneous forced requests cause; the flag is one bit.
- The delay of the size check until 1024 bytes were written: a process may check, or not, at any time.
- A log with max_files 1, which is never rotated, and changes of max_files and max_size by a process that starts later.
- Simultaneous access to the daemon's tables by main and worker thread: the code takes no lock, so only atomic steps have a meaning.
- The daemon's limit on clients, its select loop, message formats, and the parsing of sysfs files.
- Wrap-around and rounding of stored values: 64-bit integers and doubles are exact reals.
- Getting attribute values, metadata, object lookup by name, opaque handles, contexts, plugins and the construction of the object tree.
- Statistics: thread start and stop, invalidation when a group changes, time stamps of AVG and STDEV.
- Groups: duplication, lookup by index, and groups of attribute values; each would only add easy members.
- Failed memory allocation everywhere.
- Bit masks, timers, lists, command-line clients and the demonstration programs.

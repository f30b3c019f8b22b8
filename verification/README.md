# Protocols of the map service infrastructure

The scripts of this repository mask coordinates in logs, ship logs to an archive, change what serves
the public, format disks and keep backups, on machines where a process may be killed between any two
writes. This project models those scripts and proves what their comments and documentation promise of
them.

| module | what it models |
|---|---|
| `Chars`, `Substitution`, `Scanner`, `Patterns` | regular expressions as scanners, what their patterns match however they are cut, and leftmost substitution without overlap |
| `Redaction`, `Escapes`, `RedactionFacts`, `Addresses` | the masking stages behind the first pass, decoding, the detector, and the client address that stays |
| `Fragments` | rejoining log records that Docker cut |
| `Calendar`, `Timestamps` | nanosecond timestamps (section 5.6 of RFC 3339) and object names |
| `Runs` | behaviours of a state machine, shared by the protocols below |
| `Archive`, `ArchiveLoss`, `ArchiveShip`, `ArchiveRun` | shipping log windows: the protocol, what it can lose, what one ship reports and leaves, and the program as a class |
| `Cutover`, `Watchdog` | the deployment latch and receipt, and the supervisor's recovery pass |
| `Environment`, `Readiness` | pinning image tags in an environment file, and waiting for the public entry point |
| `Volume` | enrolling one empty disk |
| `HostInstall` | the bootstrap transaction of a host |
| `BackupStore` | snapshot, publication and restore of closed backups |
| `ServingDoor` | the public door of the production host and its watchdog |
| `Migration` | the launcher of database migrations |
| `Rollover` | replacing one service behind the proxy |
| `DumpRows` | counting rows in a plain SQL dump |

## How it is modelled

Protocols whose point is what survives a kill (`Archive`, `Cutover`, `Volume`, `ServingDoor`,
`Migration`, `HostInstall`) are state machines: an action is one step of the code, failing calls and kills are
actions or places to stop, and theorems speak of whole runs, as sequences of worlds. Each has beside it a
class with the program's own methods (`ArchiveRun.Service`, `Cutover.Deployment`, `Volume.Enrollment`,
`ServingDoor.Controller`, `Migration.Launcher`, `HostInstall.Host`), which change fields in place. Such a
class keeps, as ghost state, every world it has been in and the step taken in each. Every durable write is
one step of the state machine, so a method that swaps two writes or skips one does not verify, and what is
proved of runs holds at every moment a kill may come (`TerminalLatchAlways`, `NoLineTwiceEver`,
`FormattedOnceEver`, `QuarantinedForGood`, `ClosedDoorEver`, `StoppedDoorEver`, `SecretIsMarkedEver`, `FileHadItsRecordEver`,
`RolledBackHasCopiesEver`). The other code that changes things in place is a class with methods alone
(`Watchdog.Machine`, `Rollover.Machine`, `BackupStore.Store`), with a log, a history of states or an early
return for the place where the process is killed.

How the calls of an operation end is an argument. `Cutover`, `ServingDoor`, `Watchdog`, `Rollover`, `Volume`
and `ArchiveRun` list them, and the contracts say which answers lead to which end. In `HostInstall`,
`Migration` and `BackupStore` the results that decide are listed, and any other call may fail unless `smooth`
says that none does; the contracts say when such an operation succeeds. What a failing call leaves behind is
arbitrary within what the code can leave.

## Where the code does less than its documentation says

* Shipping: besides the gaps the comments name, a line is passed without the code `gap` for good in four
  cases, each shown by a run. It left the file before the first window of its container was read
  (`RotatedLineIsLost`, which a comment admits). Its container came and went between two completed ships while
  the one before it was read to its end (`UnseenContainerIsLost`). Its container was recorded as read to its
  end, ran again, and was then replaced (`RestartedContainerIsLost`). A ship saw its container stopped, and
  the line was under way in a container running by then when the ship read the clock
  (`ClockAfterInspectLoses`). `NoSilentLoss` proves that there is no fifth, and `SilentLossIsExact` that
  without the last case the first three lose the line exactly when they apply. Both assume nothing of when
  containers are stopped, started and replaced. What they assume of the host is `Orderly` and `FairMove`: the
  clock does not go back; a line is stamped with the clock and reaches the log file within the settle time
  of that; the file holds lines of the current container only; container numbers only grow; what was written
  stays written; rotation deletes the oldest lines first and brings none back.
* Cutover: an exception after the complete latch is on disk runs the failure branch of a deployment that
  is already complete. If that deployment may roll back and is killed between the two writes of the rollback,
  it leaves a complete latch with a rolled back receipt, and the supervisor then starts nothing
  (`LateFailureIsReached`, `LateFailureParts`, `StartsOnlyWhatTheRunRecorded`). Latch and receipt agree in
  every run without such a failure (`TerminalLatchHasItsReceipt`).
* Rollover: a reload that fails after the override file was written leaves that file behind while the
  copy it names is removed (`LeavesOverride`). If traffic cannot be taken off the copy, the copy is removed all
  the same. And if the reload that switches to the copy takes effect but its call fails, the program takes
  nothing back, reports a failed switch and removes the copy the proxy is on (`EndsOnCopy`). `Replace` says
  exactly which calls end so, and `FailuresAreReached` gives one of each.
* Host bootstrap: the record of a file is overwritten before the file is compared, so a second attempt that
  computes other bytes leaves a journal its own disk contradicts (`SecondAttemptBreaks`); it does so exactly if a
  record written ahead does not fit the disk that was found (`Install`).
* Migration: a kill between removing a job's marker and its directory, or between making the directory and
  writing the marker, stops every later run until someone removes the directory (`StaysBlocked`).

## Model

| member | source | states |
|---|---|---|
| `Patterns.ScannerReads` | scripts/coordinate_redaction.py:58-80 | what the scanner of any of the seven patterns gives can be cut into the parts of that pattern |
| `Patterns.ScannerLongest` | scripts/coordinate_redaction.py:58-80 | wherever a pattern matches, however it is cut, its scanner gives a match that keeps the very same head and is at least as long: reading greedily without giving back misses nothing |
| `Patterns.AddressReads` | scripts/coordinate_redaction.py:80 | the test for an address accepts exactly four numbers of one to three digits joined by points, with an optional port |
| `Patterns.NumberMasked` | scripts/coordinate_redaction.py:138-143 | a number run is masked exactly if it has a point and is no such address |
| `Scanner.EnvelopeMatch` | scripts/coordinate_redaction.py:58 | an envelope taken to the end of its last run, its first three characters kept |
| `Scanner.NamedMatch` | scripts/coordinate_redaction.py:73-74 | a named value: a kept head without digits that starts with a letter, then a number that no digit follows |
| `Substitution.Trace` | scripts/coordinate_redaction.py:126-128 | any stretch of output without a mask is a stretch of the input, and what stands before it was there or is a mask: masking cuts runs and never joins them |
| `Redaction.EscapesGone` | scripts/coordinate_redaction.py:136 | after the first stripping step no escape is left |
| `Redaction.KeepsNoEscape` | scripts/coordinate_redaction.py:128-129 | no later step makes an escape |
| `Redaction.NumbersMadeSafe` | scripts/coordinate_redaction.py:138-145 | after the number step every digit run that has a point and follows none is the head of an IPv4 address |
| `Redaction.KeepsNumbersSafe` | scripts/coordinate_redaction.py:130-132 | a mask that spares addresses leaves that so, also where it cuts one |
| `Redaction.NoLooseNumber` | scripts/coordinate_redaction.py:75 | in such a line the residue detector can start on no number |
| `Redaction.HexRunsGone` | scripts/coordinate_redaction.py:146 | after the hash step no 64 hexadecimal digits stand in a row |
| `Redaction.KeepsNoHexRun` | scripts/coordinate_redaction.py:132-133 | no later step brings such a run back |
| `Redaction.EnvelopesGone` | scripts/coordinate_redaction.py:147 | after the envelope step no envelope is left |
| `Redaction.KeepsNoEnvelope` | scripts/coordinate_redaction.py:127-128 | no step makes an envelope |
| `Redaction.NamedValuesGone` | scripts/coordinate_redaction.py:133-135 | after the name step no named value is left: a mask frees a short name only where a digit stood, which had freed it before |
| `Redaction.StripLeavesNoResidue` | scripts/coordinate_redaction.py:126-164 | for every line whatever, the detector finds nothing after the stripping stage, also after decoding |
| `Redaction.Scrub` | scripts/coordinate_redaction.py:167-179 | for every result of the first pass: the line returned has no residue, nothing is ever withheld, and text and count are those of the first stage that suffices |
| `RedactionFacts.DetectsExactly` | scripts/coordinate_redaction.py:156-161 | a search finds an envelope, hash or named value exactly if one stands anywhere |
| `RedactionFacts.NumberDetectedExactly` | scripts/coordinate_redaction.py:75 | the scan for numbers reports one exactly if somewhere, however it is cut, an optional minus, two or three digits, a point and digits stand outside a time and outside a longer number, and all its digits read as one number lie in the ranges, scaled by its decimals |
| `Escapes.DecodingInvertsWriting` | scripts/coordinate_redaction.py:154 | one level of decoding gives back what was written, whichever characters and bytes are written as escapes and however, if none of the others begins an escape |
| `Escapes.EveryLineIsWritten` | scripts/coordinate_redaction.py:154 | and every line is written so, so this is what decoding does to it |
| `RedactionFacts.SilentExactly` | scripts/coordinate_redaction.py:152-164 | whichever characters of a text are written as %NN or \xNN, with digits in either case, the residue list is empty exactly if no envelope, hash or named value and no number in the ranges stands anywhere in the text |
| `RedactionFacts.SilentAsWritten` | scripts/coordinate_redaction.py:152-164 | on a line without escapes it is empty exactly if none of them stands in the line |
| `RedactionFacts.LooseMasksWhatIsFound` | scripts/coordinate_redaction.py:117-123 | on a line without escapes the looser stage masks something exactly if the detector finds something, and otherwise leaves the line as it is |
| `Addresses.AddressKept` | scripts/coordinate_redaction.py:104-147 | whatever masking steps run in whatever order, an IPv4 address with an optional port that stands apart in the line, is no value of a name and begins no hexadecimal run of 64 stays in the line as it is, and is one again |
| `Addresses.ClientAt` | scripts/coordinate_redaction.py:138-141 | for that it is enough that behind the address no hexadecimal digit follows |
| `Addresses.HeadIsClient` | scripts/coordinate_redaction.py:138-141 | the address at the head of an access log line is such a one |
| `RedactionFacts.LooseStageIsNotEnough` | scripts/coordinate_redaction.py:117-123 | a line on which the looser stage itself makes a hash, so that the stripping stage is needed |
| `Fragments.PrefixUnbordered` | scripts/coordinate_redaction.py:182 | no proper beginning of a timestamp prefix is also an end of it |
| `Fragments.NoSeam` | scripts/coordinate_redaction.py:189-191 | an unbordered word cannot occur across the seam before a copy of itself |
| `Fragments.RemovedAtSeam` | scripts/coordinate_redaction.py:197 | removing the prefix by value works on the two sides of a printed copy separately |
| `Fragments.JoinInvertsPrinting` | scripts/coordinate_redaction.py:185-197 | with a first fragment of at least 16384 characters, rejoining gives back prefix and message if and only if the prefix occurs neither behind that point of the first fragment nor in a later one |
| `Fragments.PrefixLengthExactly` | scripts/coordinate_redaction.py:182 | the prefix is found exactly if the record begins with a date and time, a point and one to nine digits or nothing, the zone and a space |
| `Fragments.UnsplitStays` | scripts/coordinate_redaction.py:192-194 | a record without a timestamp prefix, or whose message is no longer than one fragment, stays as it is |
| `Calendar.DateOfNumber` | scripts/request_log_archive.py:108 | the Gregorian date of a day number is the date that has it (section 5.6 of RFC 3339) |
| `Calendar.DayNumberAscends` | scripts/request_log_archive.py:115 | later dates have greater day numbers |
| `Calendar.EpochIs1970` | scripts/request_log_archive.py:107-109 | the day from which nanoseconds are counted is 1 January 1970, by the leap-year rule |
| `Calendar.DayNumberClosed` | scripts/request_log_archive.py:107-115 | the day number has a closed form that counts years and months from March and knows no table of months |
| `Calendar.MonthDaysClosed` | scripts/request_log_archive.py:115 | and the days of a month are those between two of its values |
| `Timestamps.TimestampRoundTrip` | scripts/request_log_archive.py:107-116 | reading back a written timestamp gives the same nanosecond, for every nanosecond of the years 1000 to 9999 |
| `Timestamps.TimestampNormalised` | scripts/request_log_archive.py:107-116 | writing what was read from any accepted text gives that text with its fraction padded to nine digits |
| `Timestamps.TextMeans` | scripts/request_log_archive.py:112-116 | a text of the form is read exactly if its date and time exist, and then as the nanoseconds since 1970 that this closed form gives for its digits |
| `Timestamps.FractionExactly` | scripts/request_log_archive.py:113 | a text has the form with this fraction exactly if it can be cut into a date and time, a point and one to nine digits or nothing, and the zone |
| `Timestamps.TimestampsAscend` | scripts/request_log_archive.py:107-109 | written timestamps sort as the instants they name |
| `Timestamps.ObjectNamesAscend` | scripts/request_log_archive.py:245-247 | for one service object names sort as the windows end, and two windows never share one |
| `Timestamps.NameFromStamp` | scripts/request_log_archive.py:245-247 | an object name is laid out from the parts of the written timestamp of its window's end: the date as directories, the service, the time and the fraction |
| `Archive.StepKeepsProtocol` | scripts/request_log_archive.py:249-334 | every step of a ship, of a lost upload answer, of a kill and of the host, whatever its clock does, keeps the window protocol, never moves the cursor back and never changes an object |
| `Archive.RunKeepsProtocol` | scripts/request_log_archive.py:228-334 | the same over every run from arming on |
| `Archive.KilledAnywhere` | scripts/request_log_archive.py:315-334 | a kill at any moment of a ship leaves the entry on disk and the objects as they are, and the next run begins from them |
| `Archive.RunTiles` | scripts/request_log_archive.py:275-303 | every instant from the armed start to the cursor lies in exactly one completed window |
| `Archive.NoLineTwice` | scripts/request_log_archive.py:276-302 | over every run no line is in two objects, because a window and its name are on disk before its upload and a retry repeats both |
| `ArchiveLoss.StillThere` | scripts/request_log_archive.py:282-288 | if rotation deletes the oldest lines first, finding the last shipped line proves everything newer is still there |
| `ArchiveLoss.StepKeepsSound` | scripts/request_log_archive.py:249-313 | on such a host every step keeps what holds of the entries on disk and in memory |
| `ArchiveLoss.StepTracks` | scripts/request_log_archive.py:249-313 | and what a ship has learnt of any one line, except a step that lays out a window up to the clock behind a container it saw stopped while that line is under way |
| `ArchiveLoss.PassesNothingSilently` | scripts/request_log_archive.py:287-313 | a completing ship without the code gap has every line it passes in an object, except one that left the file unread before its container's first window, one of a container that came and went unseen, or one of the container it drops as read to its end |
| `ArchiveLoss.PassedIsKeptExactly` | scripts/request_log_archive.py:269-302 | whatever the host does: of a window that the stored ship had laid out, exactly the lines it read are in an object at any later time |
| `ArchiveLoss.DrainedWasReadOut` | scripts/request_log_archive.py:303-310 | over whole runs: a container recorded as read to its end was seen stopped by a ship that then read the clock, at the time of the cursor |
| `ArchiveLoss.DropsNothingSilently` | scripts/request_log_archive.py:254-263 | a ship without the code gap drops a container only if a ship that had seen it stopped read the clock at the cursor; what it wrote above the cursor is stamped after that reading |
| `ArchiveLoss.NoSilentLoss` | scripts/request_log_archive.py:249-334 | over every run: a line at or below the cursor is in an object, or a stored ship passed it that reported a gap, had an excuse for this very line or dropped its container as read to its end, or a ship laid out its window up to the clock while this line was under way in a container it had seen stopped |
| `ArchiveLoss.SilentLossIsExact` | scripts/request_log_archive.py:249-334 | where that last step did not happen, a stored ship that laid out its window and reports no gap loses for good exactly the lines it passes that have an excuse or whose container it drops |
| `ArchiveLoss.RotatedLineIsLost` | scripts/request_log_archive.py:283-286 | the first excuse is real: a run in which a line rotated away before the first window is passed without a gap and is in no object |
| `ArchiveLoss.UnseenContainerIsLost` | scripts/request_log_archive.py:254-263 | the second excuse is real: a run in which the line of a container that came and went is passed without a gap and is in no object |
| `ArchiveLoss.RestartedContainerIsLost` | scripts/request_log_archive.py:251-310 | dropping a drained container is a real cause: a run in which one that ran again loses a line without a gap or an excuse |
| `ArchiveLoss.ClockAfterInspectLoses` | scripts/request_log_archive.py:251-275 | so is the clock: a run in which a container restarted between inspection and clock reading loses a line that is still in its file, without a gap, an excuse or a dropped container |
| `ArchiveShip.GapExactly` | scripts/request_log_archive.py:249-312 | in every run a stored ship reports gap exactly if it began with another container than the entry's, not read to its end, or read a clock below its cursor, or did not find the last shipped line after its read |
| `ArchiveShip.EntryLeft` | scripts/request_log_archive.py:269-310 | in every run a stored ship leaves the cursor at the end of its window, its container, whether that was read to its end, and the newest line that its read found in the window; the window is the one left over or ends at the clock it read, less the settle time of a running container |
| `ArchiveRun.Newest` | scripts/request_log_archive.py:170-302 | the last of the sorted lines is the newest |
| `ArchiveRun.Service.constructor` | scripts/request_log_archive.py:228-243 | an armed service is a start of the protocol |
| `ArchiveRun.Service.Observe` | scripts/request_log_archive.py:251-268 | a replaced container that was not read to its end, and a clock below the cursor, are seen exactly when they are so; the last line of a replaced container is forgotten |
| `ArchiveRun.Service.PlanWindow` | scripts/request_log_archive.py:269-275 | a window that is left is taken up unchanged, and a new one ends at the clock, or the settle time before it for a running container |
| `ArchiveRun.Service.LayOut` | scripts/request_log_archive.py:269-278 | a new window is on disk before the ship goes on, an old one is taken up unchanged |
| `ArchiveRun.Service.ReadLines` | scripts/request_log_archive.py:156-171 | an empty window is not read; otherwise the read needs the observed container |
| `ArchiveRun.Service.ReadWindow` | scripts/request_log_archive.py:279-280 | the lines read are those of the file in the window; a replaced container or a failing read stops the ship unless the window is empty |
| `ArchiveRun.Service.LookBack` | scripts/request_log_archive.py:281-288 | the last shipped line is looked up after the read, unless there is none, and counts as rotated exactly if no line of the file has its timestamp |
| `ArchiveRun.Service.Send` | scripts/request_log_archive.py:296-302 | an upload creates the object or leaves the one that exists, and a failed one keeps the window |
| `ArchiveRun.Service.Close` | scripts/request_log_archive.py:303-310 | cursor, container, drained mark, last line and window are updated together |
| `ArchiveRun.Service.Run` | scripts/request_log_archive.py:315-334 | one run passes only worlds of the protocol, by its own steps, with file and bucket as they are then; it fails exactly if a call fails and then stores no ship, says gap exactly if there was one, and leaves the entry a completed ship leaves |
| `ArchiveRun.Service.NoLineTwiceEver` | scripts/request_log_archive.py:276-302 | so at every moment of any runs of the program no line is in two objects |
| `Cutover.TerminalLatchHasItsReceipt` | scripts/deploy-gcp.py:1161-1229 | over every run of deployments with kills, a complete or rolled back latch has a ready receipt of the same run and sources, and of the same outcome unless a receiver that may roll back failed after its complete latch was on disk |
| `Cutover.LateFailureParts` | scripts/deploy-gcp.py:1209-1229 | that condition is exact: every run that comes to such a failure goes on to one in which a kill between the two writes of the rollback leaves a complete latch with a rolled back receipt |
| `Cutover.LateFailureIsReached` | scripts/deploy-gcp.py:1161-1218 | and every enrolled host has a run that comes to it |
| `Cutover.ReceiptHasAWriter` | scripts/deploy-gcp.py:1209-1227 | the receipt on disk, with its containers, is the one the last step that writes receipts wrote, or that of the enrolment |
| `Cutover.ReceiptIsSettled` | scripts/cutover_watchdog.py:113-123 | and always speaks of a complete or rolled back attempt |
| `Cutover.NoRollbackAfterUnfinished` | scripts/deploy-gcp.py:1085-1114 | once an attempt is left in a phase that is not terminal, no later attempt rolls back before one has become complete |
| `Cutover.Deployment.BeginServing` | scripts/deploy-gcp.py:1161-1201 | the latch of this run is on disk when serving first changes; then private_ready and opening_ingress, as far as the calls work; the receipt is not touched |
| `Cutover.Deployment.CompleteServing` | scripts/deploy-gcp.py:1202-1218 | the receipt is on disk before the latch is complete; which of them are written follows from the calls |
| `Cutover.Deployment.Serve` | scripts/deploy-gcp.py:1161-1218 | serving ends complete with its receipt exactly if every call of it works |
| `Cutover.Deployment.WriteBackMarks` | scripts/deploy-gcp.py:1225-1227 | the receipt of a rollback is on disk before its latch |
| `Cutover.Deployment.RollBack` | scripts/deploy-gcp.py:1219-1238 | a rollback ends with latch and receipt rolled back exactly if its calls work, and otherwise as quarantined exactly if the public services were stopped |
| `Cutover.Deployment.CloseOrKeep` | scripts/deploy-gcp.py:1239-1275 | without an approved prior release a replacement goes on serving exactly if the traffic is back on the old containers, the temporary ones are gone and the old ones answer; otherwise the run is quarantined, and says quarantine_failed exactly if the stop failed; the receipt is not touched |
| `Cutover.Deployment.Recover` | scripts/deploy-gcp.py:1219-1279 | a failed deployment ends rolled back exactly if it may roll back and that works, and otherwise with its own latch in the phase that its calls say |
| `Cutover.Deployment.Receive` | scripts/deploy-gcp.py:1070-1279 | one deployment passes only states of the model, by its own steps; it ends unchanged, complete or rolled back exactly if its calls say so and, for a rollback, the prior attempt was finished and approved; and otherwise its latch says which calls failed |
| `Cutover.Deployment.TerminalLatchAlways` | scripts/deploy-gcp.py:1161-1229 | so at every moment of any deployments latch and receipt agree once the latch is terminal, unless one failed late |
| `Watchdog.Machine.StopEach` | scripts/deploy-gcp.py:341-350 | every service is tried even if another fails; a service whose calls worked is stopped |
| `Watchdog.Machine.StillUp` | scripts/deploy-gcp.py:351-356 | the second look reports nothing only if no call failed and every service is down |
| `Watchdog.Machine.StopPublicServices` | scripts/deploy-gcp.py:341-357 | stopping succeeds exactly if no call failed, starts nothing, touches no other service, and what did not fail is stopped |
| `Watchdog.Machine.Containers` | scripts/cutover_watchdog.py:52-68 | a look works exactly if each of the four services can be inspected and has one container, and returns these |
| `Watchdog.Machine.ReturnToCanonical` | scripts/cutover_watchdog.py:71-90 | overrides are only removed, from the front; it succeeds exactly if all are unlinked, all four services run and the proxy takes the canonical configuration; nothing is started or stopped |
| `Watchdog.Machine.StartRecorded` | scripts/cutover_watchdog.py:197-206 | only recorded containers that do not run are started, each in its turn and the edge only if the private smoke passed; it succeeds exactly if each runs or its start works, and then all four run |
| `Watchdog.Machine.RecoverOnce` | scripts/cutover_watchdog.py:165-207 | one pass ends receiver_active, handed back, closed or supervised exactly when what it reads and its calls say so; a run that is not terminal gets nothing started, a terminal one without a hold nothing stopped; every start is justified, and the edge is started only if the private smoke passed |
| `Watchdog.KilledPassIsJustified` | scripts/cutover_watchdog.py:165-207 | the same holds of what a pass did when it is killed after any number of steps |
| `Watchdog.StartsOnlyWhatTheRunRecorded` | scripts/cutover_watchdog.py:126-145 | in every run of deployments with kills, each container a pass starts is the one that the last writer of a receipt, acting for the latched run, put into it, or that of the enrolment if none was written since; latch and receipt agree then, and the receipt's images are the latched ones of a complete run or verified ones of a rolled back run |
| `Environment.FindKey` | scripts/deploy-gcp.py:628-629 | the list of a key's lines has at most one entry exactly if the file has, and its first is the first such line |
| `Environment.Set` | scripts/deploy-gcp.py:628-635 | one key is replaced in place or appended behind an ended last line, and refused exactly if it has two lines |
| `Environment.UpdatedEnvironment` | scripts/deploy-gcp.py:623-636 | the update of the text is refused exactly if the tag names no release or a key has two lines |
| `Environment.SplitPrint` | scripts/deploy-gcp.py:626-636 | joining lines and splitting the text again gives the lines back, if only the last one may lack its newline |
| `Environment.PrintSplit` | scripts/deploy-gcp.py:626-636 | splitting a text gives such lines, and joining them gives the text back |
| `Environment.PutWellEnded` | scripts/deploy-gcp.py:630-635 | editing a key keeps the lines such: a new one never runs into an unended last line |
| `Environment.AssignsExactly` | scripts/deploy-gcp.py:628 | a line assigns a key exactly if it can be cut anywhere into spaces, the key, spaces, an equals sign and a rest |
| `Environment.ValidTagExactly` | scripts/release_manifest.py:124-127 | a tag is accepted exactly if it is a letter, digit or underscore and up to 127 more of these, points and hyphens, and none of the three moving names |
| `Environment.UpdateLaws` | scripts/deploy-gcp.py:623-636 | the text written, split again, has exactly one line for each key with the new value and all other lines in order, and is accepted again |
| `Environment.LastTagWins` | scripts/deploy-gcp.py:623-636 | updating with one tag and then another writes the very text that updating with the other writes |
| `Readiness.RoundsFit` | scripts/deploy-gcp.py:869-1003 | the doubling delays leave room for exactly 48 rounds before the deadline |
| `Readiness.RunRound` | scripts/deploy-gcp.py:988-994 | a round stops at its first probe that does not pass, and passes only whole and in time |
| `Readiness.WaitPublicReadiness` | scripts/deploy-gcp.py:983-1005 | the wait succeeds exactly if one whole round passed before the deadline, fails exactly at a probe that must not be repeated, and begins at most 48 rounds |
| `Volume.ScanStream` | scripts/ncp-bootstrap-volume.py:75-85 | the scan passes exactly on a disk of the approved size whose every byte is zero, however the reads are cut, and otherwise tells which of the three is wrong |
| `Volume.FormatsOnce` | scripts/ncp-bootstrap-volume.py:302-339 | over every run of the commands with kills the disk is formatted at most once, then empty and with formatting in its journal |
| `Volume.InterruptedNeverReady` | scripts/ncp-bootstrap-volume.py:350-393 | a format that stopped before filesystem_ready never becomes ready or closed, and no command restores, formats or finishes it |
| `Volume.ReadyKeepsItsData` | scripts/ncp-bootstrap-volume.py:342-393 | once the filesystem is recorded no command changes the disk, it is never quarantined, and what a rollback closed can be restored |
| `Volume.Enrollment.MayFormat` | scripts/ncp-bootstrap-volume.py:314-317 | formatting may begin only on a disk of the approved size that the scan found empty, and does exactly if the other checks pass too |
| `Volume.Enrollment.PrepareDisk` | scripts/ncp-bootstrap-volume.py:302-339 | a preparation, stopped anywhere, passes only worlds of the model; an enrolled disk keeps journal and data, and only an empty one is written; it works exactly if the checks at its end pass and the disk is ready already, or is empty and of the approved size and every call works |
| `Volume.Enrollment.FormatDisk` | scripts/ncp-bootstrap-volume.py:321-323 | the format follows its durable mark, and its success is journalled exactly if it began and the new header opens |
| `Volume.Enrollment.MakeAndMount` | scripts/ncp-bootstrap-volume.py:324-337 | the filesystem is marked before it is made and recorded after, and ready comes last |
| `Volume.Enrollment.MakeFilesystemOn` | scripts/ncp-bootstrap-volume.py:326-329 | over a durable filesystem_creating the filesystem is made and only then recorded |
| `Volume.Enrollment.RestoreMount` | scripts/ncp-bootstrap-volume.py:342-364 | a journal that is not good, or is closing, is refused unchanged; any other is made ready exactly if its calls work, and only ready is written |
| `Volume.Enrollment.CloseDisk` | scripts/ncp-bootstrap-volume.py:367-395 | a close works exactly if nothing uses the disk, the mapping is shut and both journal writes work, and ends closed or quarantined by the state it was first closed from, which it keeps |
| `Volume.Enrollment.FormattedOnceEver` | scripts/ncp-bootstrap-volume.py:302-339 | so of any commands, whenever killed, at most one formats, over an empty disk with its durable mark |
| `Volume.Enrollment.QuarantinedForGood` | scripts/ncp-bootstrap-volume.py:350-393 | and a disk left unfinished between commands never becomes ready or closed |
| `ServingDoor.ClosedDoorStaysClosed` | scripts/ncp-production-serving.py:486-559 | after a stop that worked and kept no intent, no interleaving of commands, failures, kills and watchdog ticks runs the edge before a publish begins |
| `ServingDoor.StoppedDoorWaits` | scripts/ncp-serving-watchdog.py:31-49 | after any stop that worked, with or without the intent to resume, no watchdog tick, start, failure or kill runs the edge before a publish or a resume begins |
| `ServingDoor.PublishedMeansOpened` | scripts/ncp-serving-watchdog.py:31-49 | in every run the watchdog takes the receipt as open exactly if the last step that wrote it was an opening |
| `ServingDoor.EdgeDiesAnywhere` | scripts/ncp-serving-watchdog.py:72-100 | an edge that dies at any moment over an open receipt is started again by a tick |
| `ServingDoor.OpeningIsAuthorized` | scripts/ncp-production-serving.py:519-547 | the edge is started only by a publish over a private-ready receipt of the same binding, by a resume whose receipt has intent, binding and files, or by the watchdog while no command runs and the last step that wrote the receipt was an opening |
| `ServingDoor.IntentHasAnOpening` | scripts/ncp-serving-watchdog.py:31-49 | a receipt that asks to resume was written by an opening with the same binding and files, and no stop without the keep flag came since |
| `ServingDoor.Controller.StopPublicDoor` | scripts/ncp-production-serving.py:486-504 | it stops exactly if the calls work, and then the edge was already down while the old receipt still stood; the rest of the receipt is kept, and the intent only if asked to |
| `ServingDoor.Controller.CloseBehind` | scripts/ncp-production-serving.py:548-559 | a failed command closes the door behind it and says so exactly if the stop worked, and otherwise says that it is not certain |
| `ServingDoor.Controller.ServePrivately` | scripts/ncp-production-serving.py:530-539 | the private stack comes up behind a closed edge and is recorded as such, exactly if its calls work |
| `ServingDoor.Controller.OpenDoor` | scripts/ncp-production-serving.py:540-547 | exactly if the edge comes up and answers, the open receipt is written, and the edge was already up while the private receipt still stood |
| `ServingDoor.Controller.Serve` | scripts/ncp-production-serving.py:505-559 | a command passes only worlds of the model; a private start of an open door is refused, a command that does not pass its guards closes the door, and one that does ends, with the edge up or down, exactly as its calls say |
| `ServingDoor.Controller.TickOnce` | scripts/ncp-serving-watchdog.py:72-100 | after a tick the edge runs exactly if it ran before, or the lock was free, the call worked and the last step that wrote the receipt was an opening |
| `ServingDoor.Controller.ClosedDoorEver` | scripts/ncp-production-serving.py:486-559 | so of any commands and ticks, whenever killed, none runs the edge after such a stop before a publish begins |
| `ServingDoor.Controller.StoppedDoorEver` | scripts/ncp-serving-watchdog.py:31-49 | nor, after any stop that worked, before a publish or a resume begins |
| `DumpRows.HeaderReadsBack` | scripts/pg_backup.py:183 | a line laid out as the header of a table is read as that header |
| `DumpRows.HeaderMeansHeader` | scripts/pg_backup.py:183 | and only such a line is |
| `DumpRows.HeaderExactly` | scripts/pg_backup.py:183 | a line is read as the header of a table exactly if it can be cut as the pattern says: the keyword, two names that begin with a small letter or underscore and go on with these and digits, and any column list |
| `DumpRows.DumpRowCounts` | scripts/pg_backup.py:172-193 | the loop computes the scan of all lines, refuses a dump that ends in a block, and keeps the application tables |
| `DumpRows.CountsInvertLayout` | scripts/pg_backup.py:172-193 | for every interleaving of other lines and blocks, the count of an application table is the number of rows of its block, and no other table is reported |
| `Rollover.Machine.ReloadProxy` | scripts/service-rollover.py:242-267 | only a reload that takes effect changes what the proxy has loaded, also one whose call fails; the file is changed, removed or kept according to where the call failed |
| `Rollover.Machine.StartCopy` | scripts/service-rollover.py:336-350 | the temporary copy is made beside the serving container, which is not touched; it answers exactly if all four calls end well, and is absent, created or running as they say |
| `Rollover.Machine.Switch` | scripts/service-rollover.py:336-353 | up to the switch the serving container is the first one; the proxy is on the copy exactly if the switch took effect, and the file names it exactly if it was written and not rejected |
| `Rollover.Machine.Forward` | scripts/service-rollover.py:354-380 | from the switch to the return the loaded container runs at every moment |
| `Rollover.Machine.RemoveCopy` | scripts/service-rollover.py:393-401 | a removal reported as done has removed the copy; a call that fails, whether or not it took effect, ends it; how the copy stands then follows from the calls; nothing else changes and the copy is never started again |
| `Rollover.Machine.Replace` | scripts/service-rollover.py:312-403 | for every way the calls may end: the proxy ends on the copy, the override stays, and the copy is left, exactly under the stated conditions on the calls; otherwise the container the proxy has loaded runs at every moment, though the canonical one is down for a while exactly if it is stopped to be replaced, unless traffic was returned to a canonical container that does not run; the copy is stopped only when the proxy is off it; a failure to take traffic off is reported exactly if that call fails; success means replaced and proven by the public probes |
| `Rollover.FailuresAreReached` | scripts/service-rollover.py:312-403 | there are calls with a switch that takes effect unsaid, with an override left behind, and with traffic stuck on the copy |
| `BackupStore.Entries` | scripts/ncp-bootstrap-backup.py:160-172 | a record list is accepted exactly if it is valid: count, safe and distinct names, sizes, checksums of 64 hexadecimal digits, and total |
| `BackupStore.ValidEntriesExactly` | scripts/ncp-bootstrap-backup.py:154-172 | a valid list has 1 to 64 records with as many names, at most a tebibyte in all, and each a name cut as the pattern says that the store does not use itself, a size and a checksum in lower case |
| `BackupStore.Store.CopyChecked` | scripts/ncp-bootstrap-backup.py:245-257 | a copy is accepted exactly if the target is free and the bytes are the recorded ones, and then all of them are there |
| `BackupStore.Store.CopyAll` | scripts/ncp-bootstrap-backup.py:324-325 | all recorded files are copied, or the first that does not match stops it |
| `BackupStore.Store.MoveFiles` | scripts/ncp-bootstrap-backup.py:287-289 | while the files are moved in any order nothing is lost or doubled and the manifest stays behind |
| `BackupStore.Store.Publish` | scripts/ncp-bootstrap-backup.py:280-293 | at every moment stage and target hold exactly the original files, each once; the manifest is in the target only with everything else; a target that exists is refused untouched, and otherwise the whole stage is published if no rename fails |
| `BackupStore.CarefulVerifies` | scripts/ncp-bootstrap-backup.py:280-312 | a publication cut short anywhere leaves a target that verifies exactly if it has the manifest |
| `BackupStore.Store.Snapshot` | scripts/ncp-bootstrap-backup.py:315-330 | a snapshot that succeeds verifies and holds the source's bytes for every recorded file; one of a valid source to a free target succeeds if no rename fails |
| `BackupStore.Store.Restore` | scripts/ncp-bootstrap-backup.py:333-348 | a restore that succeeds gives the very directory it was given, manifest and all; one of a directory that verifies to a free target succeeds if no rename fails |
| `HostInstall.WriteAheadIsSafe` | scripts/ncp-bootstrap-host.py:357-360 | after a record is written ahead the journal describes the disk if and only if the file is not there yet or has that very record |
| `HostInstall.SecondAttemptBreaks` | scripts/ncp-bootstrap-host.py:357-360 | a second attempt that computes other bytes for a file that is there leaves a journal its disk contradicts |
| `HostInstall.OwnedAfter` | scripts/ncp-bootstrap-host.py:354-377 | after an attempt of any plan, wherever it stopped, the journal describes the disk exactly if every record it wrote ahead fitted the disk it found |
| `HostInstall.StepKeepsOwned` | scripts/ncp-bootstrap-host.py:342-391 | no step of installs and rollbacks makes the journal contradict the disk except the writing of a record that does not fit, and that always does |
| `HostInstall.JournalDescribes` | scripts/ncp-bootstrap-host.py:328-459 | over every run of installs of any plans, rollbacks and kills the journal describes every managed file at every moment, if no such record was written |
| `HostInstall.FileHadItsRecord` | scripts/ncp-bootstrap-host.py:354-377 | over every such run, whatever was recorded: every managed file came onto the disk when its own record was in the journal already |
| `HostInstall.RunIsRegular` | scripts/ncp-bootstrap-host.py:328-459 | over every run, whatever an administrator edits: the status only moves on, records are fixed once installed, copies are never lost or changed, the service policy is there only while installing, and a rolled back host has a copy of every recorded file with its digest |
| `HostInstall.EditedAnywhere` | scripts/ncp-bootstrap-host.py:438-440 | runs include an administrator's change of any file at any moment |
| `HostInstall.Host.WriteOnce` | scripts/ncp-bootstrap-host.py:60-79 | a name that is taken keeps its file, and only the same file is accepted there; a file is published only over its record |
| `HostInstall.Host.Place` | scripts/ncp-bootstrap-host.py:357-360 | one managed file of any plan: the moments passed are none, the record, or the record and then the file; the journal goes on describing the disk exactly if no record was written or the record fitted |
| `HostInstall.Host.PlaceAll` | scripts/ncp-bootstrap-host.py:354-360 | all managed files of any plan in order: at every moment n records and m files, with never more than one record without its file |
| `HostInstall.Host.Open` | scripts/ncp-bootstrap-host.py:342-353 | the transaction is opened once or taken up; an existing service policy is refused |
| `HostInstall.Host.PlaceLast` | scripts/ncp-bootstrap-host.py:374-377 | the last file is placed under the policy file, which is there at every moment of it |
| `HostInstall.Host.BehindPolicy` | scripts/ncp-bootstrap-host.py:368-377 | the packages and then the last file come while the policy file is there, at every moment, and the packages always come |
| `HostInstall.Host.UnderPolicy` | scripts/ncp-bootstrap-host.py:365-381 | from the moment the policy file is written to the last but one it is there; it is gone afterwards unless the process was killed |
| `HostInstall.Host.Install` | scripts/ncp-bootstrap-host.py:328-404 | for any plan on any host: every moment is one that a stop of the attempt leaves, the status only moves on, and the journal describes the disk afterwards exactly if the records written ahead fitted it; a host only ever installed to this plan stays sound and is intact once installed; done means every planned file is there, the packages were installed and no recorded file drifted in content or mode, however often it was killed; it means that the services started and answer; a host only ever installed to this plan gets done if no call fails; and a policy file that was there before is refused |
| `HostInstall.Host.FittingPlan` | scripts/ncp-bootstrap-host.py:354-377 | if the whole plan fits, the journal describes the disk at every moment of its attempts |
| `HostInstall.Host.StartRollback` | scripts/ncp-bootstrap-host.py:441-444 | rolling_back is on disk before anything is stopped |
| `HostInstall.Host.CopyFiles` | scripts/ncp-bootstrap-host.py:447-453 | every recorded file has its copy, and copies that were there are kept |
| `HostInstall.Host.Rollback` | scripts/ncp-bootstrap-host.py:428-459 | drift is refused before anything is done; done means rolled back, with the services stopped in this attempt or an earlier one that was done, and a copy of every recorded file, and no file is removed; it gets done if no call fails and no copy that is there differs |
| `HostInstall.Host.RolledBackHasCopiesEver` | scripts/ncp-bootstrap-host.py:428-459 | so at every moment of any installs and rollbacks a rolled back host has a copy of every recorded file |
| `HostInstall.Host.FileHadItsRecordEver` | scripts/ncp-bootstrap-host.py:354-377 | and every managed file was published over its durable record |
| `Migration.OneMigrationAtATime` | scripts/service-migration-job.py:333-384 | over all runs with kills and lost answers at most one migration runs, no secret is without its marker, and a pass leaves no container and no job directory |
| `Migration.PassKeepsPostgres` | scripts/service-migration-job.py:420-468 | a passing run finds the database container as it was when this very run had swept and not yet made its job |
| `Migration.UnmarkedHasAKill` | scripts/service-migration-job.py:374-384 | a directory is left without a marker only by a kill after it was made or after its marker was removed |
| `Migration.StaysBlocked` | scripts/service-migration-job.py:333-371 | such a directory stops every later run for good |
| `Migration.NextRunGoesOn` | scripts/service-migration-job.py:333-371 | a later launcher gets past what earlier runs left if and only if no job container runs and every directory has its marker |
| `Migration.Launcher.RemoveOldContainers` | scripts/service-migration-job.py:359-368 | a running container of an earlier job stops the launcher before anything is done; otherwise all are removed |
| `Migration.Launcher.RemoveLeftJob` | scripts/service-migration-job.py:333-356 | a directory without a marker is refused untouched; otherwise secret, marker and directory go in that order, each as one step of the model |
| `Migration.Launcher.NoPreviousJob` | scripts/service-migration-job.py:359-371 | on success nothing of earlier runs is left; it succeeds if none of them runs, all their directories are marked and no call fails |
| `Migration.Launcher.MakeJob` | scripts/service-migration-job.py:374-384 | the directory and its durable marker come before anything else |
| `Migration.Launcher.WriteEnvironment` | scripts/service-migration-job.py:430-435 | the secret is written beside its marker, and a failed write takes the directory away again |
| `Migration.Launcher.PrepareJob` | scripts/service-migration-job.py:429-435 | directory, durable marker and only then the secret |
| `Migration.Launcher.CreateContainer` | scripts/service-migration-job.py:436-440 | an unknown outcome of the create leaves the marked directory |
| `Migration.Launcher.RunContainer` | scripts/service-migration-job.py:436-461 | the container is removed or the directory keeps its marker; it counts as good only if the container did its work |
| `Migration.Launcher.EmptyOwnJob` | scripts/service-migration-job.py:333-356 | the launcher's own secret goes before its marker |
| `Migration.Launcher.RunJob` | scripts/service-migration-job.py:415-479 | a launch passes only worlds of the model; a pass leaves no container, no directory and the database container as it was, and a running container of an earlier job leaves everything as it was; if what is left can be swept and no call fails, it passes exactly if the container did its work, the database container is what it was, and it alone is on the network |
| `Migration.Launcher.SecretIsMarkedEver` | scripts/service-migration-job.py:374-435 | so at every moment of any launches a secret has its marker |

## Left out

- The first masking pass, with its search-text and route-path masks: `Redaction.Scrub` takes its result as a parameter and is proved for every result.
- Letters, digits and spaces outside ASCII: character classes are the ASCII ones, and a decoded byte of 0x80 or above is one opaque character.
- The rounding of a decimal that is parsed as a float next to the bounds of the masked ranges: `Scanner.InKorea` compares exactly.
- Years outside 1000 to 9999, which the year directive of the platform does not pad to four digits.
- ArchiveRun.Newest: does not model the stable sort of the lines, because lines are a set: of the sort only its newest timestamp is used, and two lines alike in container, timestamp and text are one.
- Addresses.AddressKept: does not speak of an address glued to a letter, digit, point, colon, hyphen, underscore or percent sign before it, nor of one behind a coordinate name, which is masked as its value.
- BackupStore.Entries: takes records with exactly their three fields, so the checks of an entry's key set and value types are not modelled.
- Environment.UpdateLaws: splits lines at the newline only; the other line boundaries the library knows (a lone carriage return, form feed, separators) are characters of their line.
- More than one service in an archive run: services share no entry, so the model has one, and the state file is its entry.
- Encryption, compression, checksums of uploads, Docker, cloud and SQL commands: each is a step that succeeds, fails, or fails with its effect done.
- An engine call that takes effect only after the process that made it was killed and another command has begun.
- Aliasing of the dictionaries that are passed between functions: each class has its own fields.
- Waits, timeouts and signals other than as a step that may fail or end the run.
- Ownership, mode, link and path checks of files, schema checks of manifests and policies, and the checks of a backup contract beyond its file records and helper manifest.
- The age of a backup, and the checks of source and role.
- The deployment's work between latch writes (source checkout, images, backups, smoke tests): a step that works or raises.
- The order of renames in `publish`: any order is allowed, with the manifest last.
- The command line, the receipts' extra fields, and the scripts for end-to-end runs, load, probes, audits and training.
- ServingDoor.OpeningIsAuthorized: does not say which container the watchdog starts, because the door is one edge that runs or not.
- Readiness.WaitPublicReadiness: assumes that a sleep is not short.

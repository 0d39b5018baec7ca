# Crash-safe incident publishing, and five report and run protocols around it

A Dafny model of the parts of the trading research agent that carry their own complete logic, and proofs of what
they promise.

**The incident publisher** (`run_future_session_execution_incident_publisher.py`). Under one lock it publishes an
immutable receipt and then a queue pointer that holds the receipt's hash. Each file is staged under an exclusive
name, written, synced, hard-linked to its final name and unstaged, with a directory sync after the link and after the
unlink; a later run finishes or repairs what a killed run left.

| file | content |
|---|---|
| `tree.dfy` | inodes, directory entries and their durable copies, and the system calls on them |
| `machine.dfy` | the publisher as a state machine: any number of processes, one step per system call that changes something, kills, write-backs and power losses anywhere |
| `invariant.dfy`, `runs.dfy` | the inductive invariant, and what holds in every run |
| `vouch.dfy` | what a process has established about the manifest and the receipt by the time it is somewhere |
| `recovery.dfy` | what one turn of a publisher, from taking the lock to its exit, makes of any safe disk, whatever is written back and whoever starts or dies meanwhile |
| `progress.dfy` | turns end, and publishers together neither deadlock nor go on for ever |
| `completion.dfy` | what becomes of a published incident: any number of later turns, with and without power losses |
| `powerloss.dfy`, `aftermath.dfy` | recovery after interrupted runs; exactly when a power loss can take a receipt, and what becomes of the incident then |
| `leftovers.dfy`, `umask.dfy` | exactly when a stale staging name can return after a power loss; what the umask can break |
| `publisher.dfy`, `reading.dfy` | the publisher as imperative code whose every execution is a run of the machine, and the bounded read loop |
| `paths.dfy` | input validation, the spelling of file names, the staging prefix test |
| `json.dfy`, `order.dfy`, `receipt.dfy` | canonical JSON, the receipt and pointer payloads, the receipt comparison |
| `payload.dfy` | the text of the two files, letter by letter |
| `concrete.dfy` | the real payloads as an instance of the machine's configuration, and what is published in the end |

**The rest.**

| file | content |
|---|---|
| `wrappers.dfy`, `numerals.dfy` | the option type, decimal numerals |
| `lines.dfy` | Python's `splitlines` and the `- key: value` lines of the text reports |
| `cycle.dfy` | the same-cycle run and its report, and the reader the watch has for it |
| `watch.dfy` | the bounded polling watch |
| `research.dfy` | the autonomous research report and its fail-closed loader |
| `session.dfy` | the post-session chain with one trial terminal unless its runner raises |
| `merge.dfy` | the conflict-detecting sorted merge of classifications |

## What the code does not do

Some promises one would expect turn out not to hold of the code. They are modelled as the code has them, with the
exact condition under which they hold.

* **A durable pointer without a receipt.** `_repair_stage_alias` syncs the directory only when it has just unlinked an
  alias. If it is killed between that unlink (line 310) and the sync (line 311) while the receipt's own entry is
  not durable, the next run sees one link, skips the sync, and makes the pointer durable; a power loss then leaves
  a pointer whose receipt is gone. `RerunAnchors` says exactly when a turn leaves its files durable,
  `PowerLossKeepsReceipts` that an incident loses nothing without such a kill of its own, `SuchAKillIsFatal` that any
  such kill can be continued to the loss, and `ReceiptCanBeLost` that it can happen for every request.
* **A retry after that loss.** The next run builds a receipt at its own time, publishes it, and only then finds that the
  queue file holds another hash (lines 253-254): it raises, and leaves a receipt and a pointer that contradict each other.
  `RerunOutcome` gives the exact condition of success for every disk that can occur, `TurnAfterTheLoss` and
  `LostForGood` what a run makes of a lone pointer, and `NoTurnSucceeds` that no later run of the incident succeeds.
* **Staging names after a power loss.** The sweep of orphans syncs the directory once, after all unlinks. If it is killed
  before that sync (line 335), the next run finds nothing to sweep, and the old entry can come back beside the new
  final name, with another inode. `LeftoversStayNeat` says that without such a kill for the file this never happens to
  it, `SuchAKillIsUntidy` that any such kill can be continued to it, and `StaleNameCanReturn` that it can happen for
  every request. `ForeignForever` says that no run removes such a name.
* **Canonical JSON and surrogates.** A string with a high surrogate directly before a low one prints like the one code
  point the pair encodes; printing and checking is the identity exactly on objects without such a string.
* **A looser comparison than bytes.** A stored receipt whose schema version is `true` is accepted, since it equals 1.
* **The umask.** Under a umask that clears the owner's bits, a kill between the creation of a staging file and its
  `fchmod` leaves a file that no later run accepts or removes. A power loss takes it away if its entry was never written
  back; otherwise it blocks the incident for good (`BlockedForever`, `OutageOnOrphan`). What is published is whole and
  private all the same.
* **A negative clock.** A receipt written at a negative time is refused by every later run.
* **A trial without a terminal.** Nothing in `run_kis_paper_watch.py` catches an exception of the runner (lines 264-340, and
  the call on line 511), although starting a command can raise `OSError`, which
  `trading_agent/operational_child_preflight.py` (lines 46-57) does catch, and so can writing the audit after the command has
  run. A trial then ends without a terminal. `NoTerminalIffAPhaseRaises` says for which runners:
  exactly those that raise in a phase that is reached. `RaisingAtOnce` is the case of the first phase.
* **Research reports.** A reason that holds `": "` or a line break does not come back from a blocked report. A feedback
  with line breaks can add lines that make a complete report be refused.

## Assumptions

A system call either succeeds or is cut off by a kill or a power loss. The state root and the five directories below it
exist, are the owner's and have mode 0700; the publisher refuses to work otherwise (lines 67-80 and 169-196 of
`run_future_session_execution_incident_publisher.py`), and then changes nothing. Nobody else edits the directories. The
clock is not negative. Where a theorem says `createMode == FILE_MODE`, the umask leaves the mode 0600 alone. A file
system keeps the contents of a synced file, and each durable directory entry on its own; everything else may be lost
or come back changed. The hash is any function to 64 hexadecimal digits; that equal hashes mean equal contents is
used nowhere.

## Model

| member | source | states |
|---|---|---|
| Runs.EveryRunIsSafe | run_future_session_execution_incident_publisher.py:258-335 | in every interleaving of any number of publishers, with kills and power losses at any call, the lock has at most one holder and the invariant of disk and processes holds |
| Runs.FinalsAreWhole | run_future_session_execution_incident_publisher.py:258-335 | a final name, cached or durable, is absent or bound to a synced file of mode 0600 and at most 64 MiB holding a whole payload of its kind, under any umask; and unless the umask interferes no process ever reaches an internal error branch |
| Runs.StagingNameIsFree | run_future_session_execution_incident_publisher.py:258-266 | when the exclusive creation is due, no staging name of the target is bound, whatever token is drawn |
| Runs.StagingIsGone | run_future_session_execution_incident_publisher.py:281-286 | in every run, by the last check of a new file its staging name is gone and its whole directory is on the disk as it stands, so that the clean-up's sync changes nothing |
| Runs.KillsKeepOrder | run_future_session_execution_incident_publisher.py:82-115 | with kills alone, a pointer exists only beside its receipt and names the hash of exactly its bytes; each target has at most one staging name, beside a final name only a second link to it |
| Runs.PowerLossKeepsReceipts | run_future_session_execution_incident_publisher.py:275-283 | with power losses too, incident by incident: unless a process of the incident is killed between the two calls of its receipt's repair, a durable pointer always has a durable, whole and matching receipt, whatever happens to other incidents |
| Runs.AllReceiptsAreKept | run_future_session_execution_incident_publisher.py:275-283 | and so for all incidents at once when there is no such kill at all |
| Runs.PublishedForever | run_future_session_execution_incident_publisher.py:230-255 | once bound, a final name keeps its inode and bytes in every later state, across power losses if it was durable |
| Runs.NextFrame | run_future_session_execution_incident_publisher.py:300-333 | one call changes only entries of the caller's own incident, keeps every published file, and binds no final name but the one it links |
| Recovery.RerunOutcome | run_future_session_execution_incident_publisher.py:230-335 | from every safe state, with any write-backs, starts and other kills meanwhile: a turn succeeds exactly when the manifest is readable, a receipt already there is acceptable and a pointer already there is the one it would publish; it then leaves both files with one link and a matching pointer; an unacceptable request changes nothing; a pointer that does not fit is found only after the receipt is published |
| Recovery.ManifestDecides | run_future_session_execution_incident_publisher.py:199-211 | a turn succeeds only over a manifest with mode 0600, one name and at most 67108864 bytes; over any other it fails and nothing changes but what was written back; over such a one, with nothing published yet, it succeeds |
| Recovery.RerunCleansUp | run_future_session_execution_incident_publisher.py:318-335 | where staging names were tidy, none is left beside a file that the turn got past |
| Recovery.RerunAnchors | run_future_session_execution_incident_publisher.py:295-315 | a file that a turn got past is durable exactly unless it had, when the turn began, one link and no synced entry, and that entry was not written back meanwhile |
| Recovery.RerunFrame | run_future_session_execution_incident_publisher.py:127-132 | a turn frees the lock, moves no entry of another incident, and leaves any process alone that is not itself started or killed |
| Recovery.CompletedRerunChangesNothing | run_future_session_execution_incident_publisher.py:42-132 | publishing a completed request again, at any time, succeeds, and in every state on the way nothing has changed but what was written back |
| Recovery.SuccessIsCompletion | run_future_session_execution_incident_publisher.py:82-132 | a turn succeeds exactly when it leaves the incident published for its own request: manifest readable, receipt acceptable to it, pointer matching, one link each |
| Completion.CompletedForever | run_future_session_execution_incident_publisher.py:230-335 | a published incident stays so in every continuation without a power loss, for whatever requests and wherever processes are killed, with the same files and contents |
| Completion.OncePublished | run_future_session_execution_incident_publisher.py:42-132 | a request that has succeeded once succeeds at each of any number of later turns, none of which changes anything but what is written back, whatever happens between them but a power loss |
| Completion.SuccessRoots | run_future_session_execution_incident_publisher.py:275-315 | where the manifest is on the disk, a successful turn leaves its whole incident there, exactly unless it found one of the two files with one link and no durable entry that is not written back meanwhile |
| Completion.PublishedForGood | run_future_session_execution_incident_publisher.py:230-335 | an incident that is on the disk is published with the same receipt by every later turn of its request, whatever happens in between, power losses included |
| Recovery.TheTime | run_future_session_execution_incident_publisher.py:82-95 | a turn asks for the time once |
| Progress.EveryCallAdvances | run_future_session_execution_incident_publisher.py:212-274 | every call lowers a lexicographic measure of what is left to do, whatever the sizes of the writes |
| Progress.RunsEnd | run_future_session_execution_incident_publisher.py:42-132 | from every safe state in which the lock is free or its own, a process can run to its exit by calls alone |
| Progress.SomeCallIsAllowed | run_future_session_execution_incident_publisher.py:67-70 | no deadlock: while a process has not finished, some process can make its next call |
| Progress.CallsAreBounded | run_future_session_execution_incident_publisher.py:67-132 | no livelock: without new starts and power losses, the calls of any interleaving, with kills and write-backs anywhere, are bounded from its first state on |
| PowerLoss.CrashedRunsRecover | run_future_session_execution_incident_publisher.py:230-335 | after any run whatsoever, a turn of the same request succeeds exactly when a pointer that is there is the one it would publish; that is so without power losses, when nothing is left over either, and whenever no process of the incident was killed inside its repair |
| PowerLoss.UnanchoredReceiptIsLost | run_future_session_execution_incident_publisher.py:299-313 | from a receipt with one link and no durable entry, the next run and a power loss end with a durable pointer and no receipt |
| PowerLoss.ReceiptCanBeLost | run_future_session_execution_incident_publisher.py:310-311 | for every admitted request and every manifest, two kills, a successful run and a power loss reach that end, with the manifest still readable |
| PowerLoss.SuchAKillIsFatal | run_future_session_execution_incident_publisher.py:310-311 | an incident's first kill inside the repair of its receipt, while that is not durable, can always be continued to the loss |
| PowerLoss.KilledAfterLink | run_future_session_execution_incident_publisher.py:276-281 | a kill right after the link leaves a receipt with two links and no durable entry |
| PowerLoss.KilledInsideRepair | run_future_session_execution_incident_publisher.py:310-311 | a kill between unlink and sync of the repair leaves one link and no durable entry |
| Vouching.OthersKept | run_future_session_execution_incident_publisher.py:258-335 | no call changes the inode, contents or link count of a file that is not the publisher's |
| Vouching.EveryRunIsVouched | run_future_session_execution_incident_publisher.py:82-115 | in every run, while a process works on a file, the manifest it read is unchanged, and the receipt it goes on from is one its request accepts |
| Vouching.WorkingIsAcceptable | run_future_session_execution_incident_publisher.py:230-255 | so a process past the look at its first file works on a disk on which its request is acceptable |
| Aftermath.TurnAfterTheLoss | run_future_session_execution_incident_publisher.py:230-255 | over a pointer without its receipt a turn succeeds exactly at a time at which it would rebuild the lost receipt; at any other it fails after publishing another receipt, durably |
| Aftermath.ContradictedForever | run_future_session_execution_incident_publisher.py:247-254 | a receipt and a pointer that contradict each other stay so, through kills, and through power losses when both are durable |
| Aftermath.NoTurnSucceeds | run_future_session_execution_incident_publisher.py:247-254 | from then on no turn of any request for the incident succeeds |
| Leftovers.LeftoversStayNeat | run_future_session_execution_incident_publisher.py:258-335 | kills and power losses anywhere, target by target: unless a process is killed in a sweep of the target whose orphan the disk still knows, the target has at most one staging name, beside its final name only a second link to it, in the cache and on the disk |
| Leftovers.AllLeftoversAreTidy | run_future_session_execution_incident_publisher.py:258-335 | and so all targets are tidy when there is no such kill at all |
| Leftovers.NothingIsLeftOver | run_future_session_execution_incident_publisher.py:230-335 | after such runs a turn leaves no staging name beside a file it got past |
| Leftovers.SuchAKillIsUntidy | run_future_session_execution_incident_publisher.py:331-335 | the first kill of that kind for a target can always be continued to a stale staging name beside the published file, bound to another inode, both on the disk |
| Leftovers.StaleReturns | run_future_session_execution_incident_publisher.py:318-335 | an orphan that only the disk knows comes back after the next publication, a write-back and a power loss, bound to another inode than the final name, and both entries are on the disk |
| Leftovers.OrphanCanGoStale | run_future_session_execution_incident_publisher.py:331-335 | such a kill is reachable for every admitted request and every manifest |
| Leftovers.StaleNameCanReturn | run_future_session_execution_incident_publisher.py:318-335 | so for every admitted request and manifest a run ends with a stale name beside the published receipt, both on the disk |
| Leftovers.ForeignForever | run_future_session_execution_incident_publisher.py:295-335 | a staging name bound to another inode than its final name is never removed: in any continuation without power losses, and in any at all once both entries are on the disk |
| Umask.BlockedForever | run_future_session_execution_incident_publisher.py:324-331 | beside a staging file with a foreign mode no process of that incident ever succeeds or removes it, in any interleaving with kills and write-backs, and with power losses too if its entry is on the disk |
| Umask.UmaskCanBlock | run_future_session_execution_incident_publisher.py:261-268 | under a umask that changes the mode, a kill before the fchmod leaves such a file, for every request, with its entry written back or not |
| Umask.OutageOnOrphan | run_future_session_execution_incident_publisher.py:261-268 | a power loss leaves the incident blocked exactly if the entry it brings back is that of a file with a foreign mode, as it is if the orphan's entry was on the disk |
| Publishing.Publisher.Publish | run_future_session_execution_incident_publisher.py:42-132 | the code itself, from any safe state: success exactly on a disk that admits it, and only over a manifest with mode 0600, one name and at most 64 MiB; no change for an unacceptable request, the receipt alone published when the pointer does not fit, durability exactly as above, no change at all for a completed request |
| Publishing.Publisher.WriteAll | run_future_session_execution_incident_publisher.py:269-274 | for every schedule of short writes the staging file ends up holding exactly the payload and no other file changes |
| Publishing.Publisher.RemoveOrphanStaging | run_future_session_execution_incident_publisher.py:318-335 | in whatever order the listing comes, the loop takes the steps of the machine and ends before the creation or in its error |
| Publishing.Publisher.PublishNew | run_future_session_execution_incident_publisher.py:258-292 | staging, link, unstaging and the clean-up on every way out are one run of the machine |
| Publishing.Publisher.RepairStageAlias | run_future_session_execution_incident_publisher.py:295-315 | the repair is one run of the machine, and its result says which exit it took |
| Publishing.Publisher.PublishFile | run_future_session_execution_incident_publisher.py:230-255 | publishes a new file or accepts and repairs the one there, and returns the bytes now published |
| Publishing.Publisher.ReadPrivateFile | run_future_session_execution_incident_publisher.py:199-227 | returns the whole file exactly when its mode is 0600, the number of its names is admitted, and it has at most 67108864 bytes |
| FileReading.ReadBounded | run_future_session_execution_incident_publisher.py:212-225 | for every schedule of short reads, the whole file exactly when its length is the size seen and within the bound |
| Spelling.StageTestIsExact | run_future_session_execution_incident_publisher.py:300-323 | among the entries of valid incidents, the prefix and suffix test finds exactly the staging names of its own target |
| Spelling.EntryNamesDiffer | run_future_session_execution_incident_publisher.py:260-260 | entries of one directory that are spelled alike are the same entry |
| Spelling.PrefixOwner | run_future_session_execution_incident_publisher.py:300-321 | a name that starts with a target's staging prefix belongs to that target |
| Spelling.NormalIsPlain | run_future_session_execution_incident_publisher.py:147-149 | a path is its own absolute form exactly when none of its components is empty, `.` or `..` |
| Spelling.ValidatedMeansPlaced | run_future_session_execution_incident_publisher.py:135-166 | arguments are accepted exactly when the request is valid and its three paths lie at their places under one absolute root whose components stand for themselves |
| Spelling.PlacesAreInjective | run_future_session_execution_incident_publisher.py:154-164 | accepted arguments that share a receipt or a queue path are about the same incident |
| Spelling.AcceptedIsSpelled | run_future_session_execution_incident_publisher.py:135-166 | the arguments accepted, spelled out: the seven roles, the lengths and digits of the hashes, and the three paths component by component |
| Spelling.NamesAreSpelled | run_future_session_execution_incident_publisher.py:260-260 | the names of an incident's entries, staging names and manifest included |
| CanonicalJson.PrintThenCheck | run_future_session_execution_incident_publisher.py:368-379 | printing then checking returns the object exactly when no string in it has a high surrogate directly before a low one |
| CanonicalJson.CheckIsExact | run_future_session_execution_incident_publisher.py:368-375 | a payload is accepted as an object exactly when it is that object's canonical encoding |
| CanonicalJson.PrintIsInjective | run_future_session_execution_incident_publisher.py:378-379 | equal encodings mean equal objects |
| CanonicalJson.EscapeIsSpelled | run_future_session_execution_incident_publisher.py:378-379 | what is printed for each code point, in bytes: a letter escape, the character itself, or one or two escapes of four lower-case hexadecimal digits |
| CanonicalJson.PrintIsOneLine | run_future_session_execution_incident_publisher.py:378-379 | whatever the strings hold, what is printed is one line of printable ASCII in braces, ended by a line feed |
| Payloads.PrintIsBraced | run_future_session_execution_incident_publisher.py:378-379 | members are printed in ascending order of their names, parted by commas, name and value by a colon, without spaces |
| Order.BeforeIsLexicographic | run_future_session_execution_incident_publisher.py:378-379 | that order is by code point: a proper beginning first, otherwise the first difference decides |
| CanonicalJson.SurrogatePairsCollide | run_future_session_execution_incident_publisher.py:378-379 | two different objects, one with a surrogate pair, with one encoding |
| CanonicalJson.ParsedIsPlain | run_future_session_execution_incident_publisher.py:368-372 | whatever is parsed has no adjacent surrogates |
| CanonicalJson.ParseInverse | run_future_session_execution_incident_publisher.py:370-379 | parsing a printed plain object gives it back |
| Payloads.ReceiptSays | run_future_session_execution_incident_publisher.py:83-95 | whoever parses a published receipt finds eleven fields, each named and with its own value of the request, the manifest and the time |
| Payloads.PointerSays | run_future_session_execution_incident_publisher.py:108-114 | and in a pointer five, the incident's and the hash of the receipt's bytes |
| Payloads.ReceiptIsSpelled | run_future_session_execution_incident_publisher.py:83-96 | the text of the receipt of every admitted request, letter by letter |
| Payloads.PointerIsSpelled | run_future_session_execution_incident_publisher.py:108-115 | the text of the pointer to every receipt |
| Receipts.AcceptanceIsExact | run_future_session_execution_incident_publisher.py:237-242 | a stored receipt is accepted exactly when it is the canonical encoding of the candidate at some non-negative time, its version written as 1 or true |
| Receipts.AcceptedForItsRequestOnly | run_future_session_execution_incident_publisher.py:237-242 | a receipt written for one request is accepted for another exactly when its time is not negative and every bound field and the manifest hash agree |
| Receipts.BooleanVersionIsAccepted | run_future_session_execution_incident_publisher.py:239-241 | a receipt whose version is true is accepted and is not one any run writes |
| Concrete.RealConfigIsLawful | run_future_session_execution_incident_publisher.py:82-115 | the real payloads are accepted by their own comparison and within the size bound, so the theorems about the machine are about this publisher |
| Concrete.AcceptableMeansSameRequest | run_future_session_execution_incident_publisher.py:237-242 | over a receipt of an earlier request, a later one is acceptable exactly if it is that request and its manifest has that hash |
| Concrete.DifferingRequestChangesNothing | run_future_session_execution_incident_publisher.py:230-244 | over a receipt of a request with any other bound field, or of another manifest, a turn fails and nothing changes but what was written back |
| Concrete.PointersDifferByHash | run_future_session_execution_incident_publisher.py:108-115 | two pointers of an incident are equal exactly when the hashes they hold are |
| Concrete.LostForGood | run_future_session_execution_incident_publisher.py:230-254 | once a receipt is lost, a turn succeeds exactly if the receipt it builds has the lost one's hash; otherwise it leaves the incident contradicted, durably |
| Concrete.PublishedIsSpelled | run_future_session_execution_incident_publisher.py:82-115 | a turn that succeeds where there was no receipt leaves exactly these two texts, made from the request, the manifest that is there and the time it read |
| Concrete.AcceptedIsPublished | run_future_session_execution_incident_publisher.py:42-115 | for all accepted arguments and every manifest within the bound such a turn exists, from the first state on |
| CycleReport.RoundTrip | run_kr_same_cycle_opportunity.py:279-302 | the watch reads back the result and the count that the cycle printed, for every result and count |
| CycleReport.ReportIsSpelled | run_kr_same_cycle_opportunity.py:279-302 | the ten lines of the report: the result in one of three words, the count in decimal, and the safety lines |
| CycleReport.ReadIsExact | run_kr_same_cycle_opportunity_watch.py:174-195 | any text is read as a result and a count exactly when the last line that tells the result tells one of the three words and the last that tells the count a number |
| CycleReport.IntIsExact | run_kr_same_cycle_opportunity_watch.py:190-194 | what counts as a number and which: digits, single underscores between them, a sign, white space around |
| CycleReport.StripIsExact | run_kr_same_cycle_opportunity_watch.py:183-186 | stripping removes exactly the white space around a key or a value |
| Lines.SplitIsExact | run_autonomous_research_cycle.py:89-89 | the lines of a text are the one way of cutting it at line breaks, a carriage return and line feed being one |
| CycleReport.RunCycle | run_kr_same_cycle_opportunity.py:81-213 | the exact outcome by the names of the steps: raises exactly when an unknown error, a due incident or the report makes it; else 0 and what was found when no step raised, 1 and a blocked report otherwise; which incidents were asked for in every case, none before the authority check |
| CycleReport.Attempt | run_kr_same_cycle_opportunity.py:86-157 | how the try block ends is the first step that raises, and what the handlers then find in the three variables |
| Watch.Watch | run_kr_same_cycle_opportunity_watch.py:60-124 | the loop refines the recursive description for every clock and cycle behaviour, and returns 0 exactly when a cycle is selected |
| Watch.SleepIsBounded | run_kr_same_cycle_opportunity_watch.py:79-114 | with a steady clock the sleeps add up to at most the time from the first observation to the deadline |
| Watch.SleepsAreSpelled | run_kr_same_cycle_opportunity_watch.py:110-114 | each sleep lasts the poll interval, or what is left until the deadline if that is less, and is never empty |
| Watch.AttemptsFitTheDeadline | run_kr_same_cycle_opportunity_watch.py:79-114 | at most two attempts more than full poll intervals are left, and at most one when none is left |
| Watch.NoAttemptIsLate | run_kr_same_cycle_opportunity_watch.py:80-86 | outside fixture mode no attempt starts past the deadline or on another day |
| Watch.AttemptsAreConsistent | run_kr_same_cycle_opportunity_watch.py:95-99 | an attempt counts only if its cycle returned 0 with no blocked result, or 1 with one |
| Watch.FailureIsExact | run_kr_same_cycle_opportunity_watch.py:79-107 | each way of raising has its own cause at the moment reached, and that is it |
| Watch.AcceptedIsSpelled | run_kr_same_cycle_opportunity_watch.py:68-74 | the watch starts exactly with a poll interval of a second to an hour, 1 to 999 attempts, a deadline on the collection's day in Korea and a prefix of 1 to 124 safe characters that starts with no mark |
| Watch.IdIsSpelled | run_kr_same_cycle_opportunity_watch.py:87-87 | an id is the prefix, a hyphen and the number in three digits |
| Watch.EndingIsExact | run_kr_same_cycle_opportunity_watch.py:99-114 | a cycle is selected exactly when the last attempt is ready, with count 1; exhausted exactly when every attempt was made and the last is not ready |
| Watch.StopIsExact | run_kr_same_cycle_opportunity_watch.py:81-113 | the reason given is the right one: the wrong day before the deadline, an observation past the deadline, or no time left for a sleep |
| Watch.OnlyTheLastIsReady | run_kr_same_cycle_opportunity_watch.py:99-114 | every attempt that a sleep follows was blocked or empty, with count 0 |
| Watch.SleepsFollowAttempts | run_kr_same_cycle_opportunity_watch.py:108-114 | every attempt but perhaps the last is followed by a sleep |
| Watch.AttemptsAreNumbered | run_kr_same_cycle_opportunity_watch.py:87-99 | attempts are numbered on and carry the result of their own cycle |
| Watch.IdsOfOneWatch | run_kr_same_cycle_opportunity_watch.py:69-73 | all ids of a watch match the safe pattern, though only the last is checked, and differ from each other |
| Watch.OnlyManyOpportunitiesRaise | run_kr_same_cycle_opportunity_watch.py:95-107 | with the repository's own cycle the watch raises exactly for a ready cycle with more than one Opportunity |
| ResearchReport.Load | run_autonomous_research_cycle.py:84-123 | the loop over the lines computes the loader's description |
| ResearchReport.LoadIsExact | run_autonomous_research_cycle.py:84-123 | a text loads to a result exactly when no key comes twice, each authority is said safely, the result is what the lines say, and the status contract holds |
| ResearchReport.FailClosed | run_autonomous_research_cycle.py:68-106 | whatever text loads has each authority in exactly one line with its safe value; a complete one has each of the five ids in one line and no reason, a blocked one no id and some reason; the result's ids are those of the lines |
| ResearchReport.LoadsExactlyWhen | run_autonomous_research_cycle.py:84-123 | and a text loads exactly when that is so and no key comes twice |
| ResearchReport.ScanIsExact | run_autonomous_research_cycle.py:87-99 | the loop goes through exactly when no key repeats, and then holds every field and every reason |
| ResearchReport.ReportIsSpelled | run_autonomous_research_cycle.py:232-253 | the lines of a report: the status in one of two words, the details, the four authorities with their safe values |
| ResearchReport.DetailsAreSpelled | run_autonomous_research_cycle.py:217-228 | the details of a complete cycle, each id under its own name |
| ResearchReport.BlockedRoundTrip | run_autonomous_research_cycle.py:232-253 | a blocked report comes back with its details as sorted reasons exactly when there is one and none holds a line break or a separator |
| ResearchReport.CompleteRoundTrip | run_autonomous_research_cycle.py:217-228 | a complete report comes back with its five ids exactly when none of them holds a line break and the feedback adds no line that the loader takes notice of |
| PostSession.RunSessionMetrics | run_kis_paper_watch.py:264-340 | for every runner, raising ones included: refuses a wrong configuration, does nothing while the session is open or without a database, else issues the phases up to the first that fails or raises and the right close, and nothing after an exception, which is then the session's |
| PostSession.PhasesAreInOrder | run_kis_paper_watch.py:297-336 | metrics, research record, evaluation and, with a lane, validation are issued in this order, each as soon as all before it returned 0 |
| PostSession.PhasesAreSpelled | run_kis_paper_watch.py:119-170 | the command of each phase, word by word |
| PostSession.AuditsAreSpelled | run_kis_paper_watch.py:288-322 | the audit file of each phase and of the terminals |
| PostSession.TerminalsAreSpelled | run_kis_paper_watch.py:218-261 | the finalization and the failure of each phase, word by word |
| PostSession.TrialEndsOnce | run_kis_paper_watch.py:290-340 | with a trial, one terminal is issued exactly when no phase raised: last, the failure of the phase that did not return 0, with its audit, or the finalization exactly when all four returned 0, whatever it is answered itself; none is issued exactly when a phase raised, which is then the last command |
| PostSession.NoTerminalIffAPhaseRaises | run_kis_paper_watch.py:264-340 | a trial gets no terminal exactly when the runner raises in a phase all of whose predecessors it answers with 0; the chain then stops at that phase |
| PostSession.RaisingAtOnce | run_kis_paper_watch.py:264-305 | a runner that cannot start the first command is given that command alone, and no terminal follows |
| PostSession.ZeroMeansFinalized | run_kis_paper_watch.py:321-340 | with a trial, 0 is returned only after the finalization has returned 0 |
| PostSession.NoTrialNoTerminal | run_kis_paper_watch.py:290-320 | without a trial no terminal is issued, whatever raises, and the last phase's answer is the session's |
| PostSession.FailureNamesItsPhase | run_kis_paper_watch.py:241-261 | reading the failure's options gives its phase and its audit, whatever the paths are called, and failures of different phases differ |
| PostSession.ConfigIsExact | run_kis_paper_watch.py:63-95 | the four lane paths are given together or not at all, each in its place, and a lane or a trial only for the ORB strategy, a trial only with a lane |
| PostSession.BuiltConfigurationsAreGuarded | run_kis_paper_watch.py:63-95 | every configuration that main builds passes the guard of the chain |
| Merge.MergeClassifications | run_kr_theme_projection.py:237-249 | fails exactly when existing ids repeat or one id has two values, else returns the union, strictly sorted by id |
| Merge.MergeIsDetermined | run_kr_theme_projection.py:237-249 | that description has one answer |
| Merge.MergingAgainChangesNothing | run_kr_theme_projection.py:237-249 | merging the same batch into the result is accepted and returns the result |
| Merge.MergeDependsOnContents | run_kr_theme_projection.py:241-249 | the answer depends on which records there are, not on their order or side |

## Left out

- Recovery.RerunOutcome: takes for granted that the state root and its directories exist with mode 0700; without that the code fails before it reads anything.
- Publishing.Publisher.Publish: takes the same for granted.
- Watch.AttemptsFitTheDeadline: speaks of clocks that never go back and sleeps that last as long as asked; Korean time is taken at nine hours ahead throughout, without the summer times of earlier decades, and a poll interval need not be whole seconds.
- Watch.SleepIsBounded: counts what the sleeps were asked to last, not how long cycles take.
- CanonicalJson.CheckIsExact: speaks of flat objects of strings, integers, booleans and nulls; the code's check also takes nested values and numbers with a fraction or an exponent.
- Receipts.AcceptanceIsExact: does not cover numbers written with a fraction or an exponent, which the canonical check admits and the comparison takes for 1 when they equal it.
- CycleReport.RoundTrip: the count is read as ASCII digits; other decimal digits that `int` takes are not modelled.
- Ownership checks, symbolic-link flags, file types and `_require_tree_binding` of the publisher: they guard against edits from outside, which the model excludes.
- System calls that change nothing are merged with the next that does: stats and listings, made under the lock, cannot be overtaken. The order of closing descriptors is not modelled.
- Reuse of inode numbers, and running out of space or inodes.
- JSON values other than strings, integers, booleans and nulls, payloads that are not ASCII, Python's limits on nesting and on the length of integers: a canonical receipt has none of them.
- The imperative publisher runs by its own calls; write-backs and other publishers around it are the machine's, whose theorems cover every turn.
- `_run_and_audit`: the class `Runner` stands for any runner, one that raises before or after the command has run included, and is the environment of the chain rather than a result; what the audit file then holds is not modelled.
- SHA-256 itself, and the entropy of the staging token: any hash, any token.
- The queue's consumer, and everything under `trading_agent`: stores, orchestrators, report writing and audits; the cycle's steps and the runner's exit codes are arbitrary instead.
- The watch's own report text, its target checks and the arguments it passes to the cycle.
- Argument parsing, waiting for the session, premarket collection and the scan cycles of the paper watch.
- Classification itself and the counters of the theme projection.

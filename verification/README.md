# Husker: a verified model of its guest agent and factory pipeline

Husker runs commands inside disposable virtual machines. This project models the parts of it whose
correctness rests on order, arithmetic or agreement between programs, and proves what they promise over
every run, every crash and every input.

**Sessions.** The agent's session store accepts a command under an id the caller chooses and must keep its
promises over crashes, concurrent readers, late workers, removal and reuse of ids. `SessionStore` is a step
machine of its separate effects: the holder of the creation lock, readers outside it, workers,
cancellations and crashes, interleaved in any way. `SessionDisk` says what a crash may undo: each directory
and file is restored, independently of every other, to some version since its last sync. `SessionSafety`,
`SessionSupervision`, `SessionCapacity` and `SessionBudget` prove what holds in every reachable state,
`SessionAnswers` and `SessionStatuses` trace every answer and every status to what happened before it,
`SessionOverflow` decides from which states the replay budget can be exceeded, `SessionWitness` gives a run
that shows where a proviso is needed, and `SessionTable` is the in-memory table as the object it is.
`SessionLog`, `SessionReading`, `SessionWorker` and `SessionCursor` follow a session's output from the worker's loop through the
log file, torn at any byte, to the client's paging loop, and `SessionOrder` proves of the store what that loop
relies on.

**Jobs.** A frozen bundle is a map of files with one canonical ustar archive (`BundlePath`, `SafePaths`,
`BundleEntry`, `Bundle`, `BundleBytes`). It is laid out as a tree (`Workspace`, `WorkspaceSetup`), commands run in it (`JobExecution`,
`JobRunner`), it is frozen again (`BundleTree`, `BundleInventory`, `Reinventory`), and a manifest is written
that the host checks (`JobResult`); `JobSource` says what the verdict means for the source tree.

**Images and checks.** `Versions` and `Resolver` model the package resolver, `GuestPath`, `ImageLayers`,
`ImageMerge`, `ImageContents`, `ImageWrite`, `ImageRecords` and `Hardlinks` the assembly of an image, `Journal`
and `JournalHistory` the caller's once-only journal.

**Wire formats.** `Base64`, `Netlink`, `RangedRead`, `Utf8` and `Utf8Scalars`.

Code that works by loops and updates is modelled by methods with invariants, tied to functions that say what
they compute; code that only computes is modelled by functions. Two objects are classes
(`SessionTable.Table`, `Journal.Store`). Events that come from outside, such as reads, exits, deadlines,
clocks, replies and crashes, are parameters, so that a theorem about a method is one about every order of
events.

Five promises turn out to need a condition, and the model says which:

- A `get` is not under the creation lock, so it can report a running session as interrupted when its id is
  removed and restarted while that one `get` is under way (`SessionWitness.StaleReport`). The supervision
  theorems are about one id at a time and hold for every id whose readers have, since the agent last started,
  written only into directories they had read. No session of another id is affected, and no session loses its
  entry to a predecessor either way.
- That a client whose loop has ended has all events needs the same condition: such a report shows the session
  over while its worker goes on appending (`SessionOrder.StaleEndsEarly`). Otherwise nothing is appended once a
  directory shows the end, be it written by the worker, a reader or a failing start
  (`SessionOrder.SessionIsLawful`), and whether anything can still be appended is decided in every reachable
  state (`SessionOrder.SilentExactly`). What a client holds is a prefix of the events in any case.
- The replay budget of 1024 ids can be exceeded after the root failed to sync in an accepted start
  (`SessionOverflow.UnsyncedIsRoomless`) and after the cleanup of a failed start stopped half way
  (`SessionOverflow.CleanupConceals`). Every other step keeps to it. These two keep to it exactly if they
  leave no more than 1024 ids that a version of the root and the removable sessions can present together, and
  no receipt that escapes the count while a crash can bring it back (`SessionOverflow.BudgetDecided`).
- The image writer refuses some images the merge accepts: exactly those with a link target over 100 bytes or
  a name that has no place in a ustar header (`ImageWrite.WriteTar`, `ImageWrite.LongNameIsNotWritten`,
  `ImageWrite.LongTargetIsNotWritten`).
- The address dump parser reads past the end of its buffer on exactly the buffers that
  `Netlink.PanicsWhen` describes.

## Model

| member | source | states |
|---|---|---|
| `SessionSafety.SpawnedAtMostOnce` | crates/husker-agent/src/sessions.rs:298-468 | over every interleaving and every crash, no id is spawned twice by the replay path |
| `SessionSafety.ReplayAnswered` | crates/husker-agent/src/sessions.rs:326-339 | in every reachable state a replay of a started id gets the same session for the same specification and a conflict for another one or after a removal |
| `SessionAnswers.StartAnswered` | crates/husker-agent/src/sessions.rs:326-381 | in every reachable state, the cause of every answer to a start: a conflict means a tombstone or a directory without the receipt of this specification; an existing session, that this run wrote this very receipt into the directory for this id; an exhausted budget, too many running, too many retained, an id in use and a creation, each exactly what the limits and the root say |
| `SessionAnswers.LegacyIsConflict` | crates/husker-agent/src/sessions.rs:331-337 | in every reachable state a replay of an id whose directory belongs to a session started without replay is a conflict, whatever it asks for |
| `SessionAnswers.ReceiptWasWritten` | crates/husker-agent/src/sessions.rs:399-403 | whatever directory an id names with a whole receipt in it, over any crashes, the run wrote that receipt there for that id |
| `SessionAnswers.IdExactly` | crates/husker-agent/src/sessions.rs:153-167 | an id is valid exactly if it is hexadecimal digits in groups of 8, 4, 4, 4 and 12 with hyphens between them |
| `SessionSafety.PublishedBeforeLaunch` | crates/husker-agent/src/sessions.rs:398-436 | a replayed command is launched only when no crash can lose its receipt and status |
| `SessionSafety.RemovalIsFinal` | crates/husker-agent/src/sessions.rs:484-499 | once a removal has synced its tombstone, every later replay of the id is a conflict, over any further steps and crashes |
| `SessionSafety.SafeAlways` | crates/husker-agent/src/sessions.rs:298-499 | the safety invariant holds after every run from a safe state |
| `SessionSupervision.WorkerHoldsItsEntry` | crates/husker-agent/src/sessions.rs:409-461 | a worker whose outcome is still to come holds the active entry of its id and its directory shows it running, unless a reader of that same id wrote into a directory it had not read |
| `SessionSupervision.ReaderSparesTheSupervised` | crates/husker-agent/src/sessions.rs:210-226 | a `get` that marks the directory it read as interrupted finds it supervised by nobody, and overwrites no outcome a worker published unless a reader of that same id was stale |
| `SessionSupervision.EntriesAreAccounted` | crates/husker-agent/src/sessions.rs:409-417 | active entries have distinct sequence numbers, each has a worker or a start left to release it, and its cancel sender is there exactly if the session was not cancelled |
| `SessionSupervision.SuccessorIsNotEvicted` | crates/husker-agent/src/sessions.rs:143-151 | in every run, no step by which a session keeps its directory, a predecessor's late release included, evicts it or takes its cancel sender other than by cancelling it |
| `SessionSupervision.WorkingIsNotEvicted` | crates/husker-agent/src/sessions.rs:143-151 | nor does any step evict a working session of an id without a stale reader |
| `SessionSupervision.SupervisedAlways` | crates/husker-agent/src/sessions.rs:210-482 | the supervision invariant holds after every run |
| `SessionStatuses.StatusWasTold` | crates/husker-agent/src/sessions.rs:210-461 | whatever a directory shows, over any crashes, a step of the run wrote it there: running only its start; completed, cancelled or timed out only a worker that published it |
| `SessionStatuses.NothingIsLeftBehind` | crates/husker-agent/src/sessions.rs:464-466 | in every run without a crash or a failed deletion, whatever starts and removals fail, every directory shows a status whenever nobody holds the lock |
| `SessionWitness.StaleReport` | crates/husker-agent/src/sessions.rs:210-226 | a reachable state in which a `get` that spans a removal and a restart has reported the running successor as interrupted |
| `SessionCapacity.LimitsHold` | crates/husker-agent/src/sessions.rs:365-372 | at most 16 active sessions and 128 directories in every run and after any crash |
| `SessionBudget.BudgetKept` | crates/husker-agent/src/sessions.rs:233-499 | every step, a crash included, other than a failed root sync of an accepted start and a removal that stops half way keeps the budget invariant |
| `SessionBudget.ReceiptBudgetHolds` | crates/husker-agent/src/sessions.rs:340-364 | tombstones and receipts together name at most 1024 ids in every run whose steps of those two kinds leave room and conceal no receipt, crashes between tombstone and directory removal included |
| `SessionOverflow.BudgetDecided` | crates/husker-agent/src/sessions.rs:340-364 | from every reachable state between operations, all runs without a further step of those two kinds keep to 1024 ids if and only if there is room and no receipt is concealed |
| `SessionOverflow.RoomlessOverflows` | crates/husker-agent/src/sessions.rs:422-433 | without room there is such a run to more than 1024 ids: everybody finishes, every removable receipt is buried and a crash brings the fuller root back |
| `SessionOverflow.ConcealedOverflows` | crates/husker-agent/src/sessions.rs:464-466 | with a receipt concealed there is such a run too: all other sessions are removed, new ones use up the budget and a crash brings the receipt back |
| `SessionOverflow.UnsyncedIsRoomless` | crates/husker-agent/src/sessions.rs:422-433 | a failed root sync does leave a reachable state without room, and more than 1024 ids are reached from it |
| `SessionOverflow.CleanupConceals` | crates/husker-agent/src/sessions.rs:464-466 | a half cleanup does leave a reachable state with a concealed receipt, and more than 1024 ids are reached from it |
| `SessionTable.Table.Register` | crates/husker-agent/src/sessions.rs:409-417 | a start gets a sequence number no entry has, and only its own entry changes |
| `SessionTable.Table.Drop` | crates/husker-agent/src/sessions.rs:143-151 | a release removes the entry exactly if it still carries the number given; every entry with another number stays |
| `SessionTable.Table.TakeSender` | crates/husker-agent/src/sessions.rs:470-482 | a cancellation takes the sender once and leaves everything else |
| `SessionWorker.Run` | crates/husker-agent/src/sessions.rs:566-647 | for every order of reads, exit, cancellation and deadlines: the first of exit, cancellation and deadline that no failure precedes decides the state and the exit code, namely completed with the code, cancelled with 130 or timed out with 124, and there is none exactly if the session is still running; the log holds exactly the appended chunks, these are a prefix of the interleaved output within 4096 events and 4 MiB, and truncation is reported exactly when the prefix is strict; if a write or flush fails, at any byte, the run fails and the file is a byte prefix of that log |
| `SessionWorker.Retain` | crates/husker-agent/src/sessions.rs:624-641 | as much of one read is appended as the limits leave room for, the log, the counts and the truncation flag still account for all output, and earlier truncation is never taken back; it fails exactly if a line had to be written and that failed |
| `SessionWorker.LoggedIsKept` | crates/husker-agent/src/sessions.rs:588-641 | the log that would be written is within the limits and a prefix of all output, for every sequence of inputs |
| `SessionWorker.EventsCarryBytes` | crates/husker-agent/src/sessions.rs:630-641 | decoding the events gives back the retained bytes |
| `SessionLog.ReadEvents` | crates/husker-agent/src/sessions.rs:501-551 | the reader's loop computes the specified page or the specified error, and terminates on every file |
| `SessionReading.FileIsRead` | crates/husker-agent/src/sessions.rs:507-551 | the answer for any file whatever: too long exactly above 8 MiB; otherwise the file begins with good lines of less than 16 KiB, numbered from 1 to at most 4096, of which at most a page is wanted, and what comes next decides: nothing whole, one good line more than the page, 16 KiB without a newline, a line that does not parse, or a wrong number |
| `SessionLog.LogFits` | crates/husker-agent/src/sessions.rs:19-27 | every log a worker can write stays under 8 MiB after base64 expansion |
| `SessionLog.RecordFits` | crates/husker-agent/src/sessions.rs:517-526 | every record a worker can write stays under 16 KiB |
| `SessionLog.JsonIsFaithful` | crates/husker-agent/src/sessions.rs:630-641 | the line written for an event has no newline in it, is bounded, and parses back to the event |
| `SessionLog.TornLogReads` | crates/husker-agent/src/sessions.rs:507-551 | a worker's log cut at any byte is accepted, and the reader sees exactly the events whose lines are whole, a page at a time |
| `SessionLog.WholeLogReads` | crates/husker-agent/src/sessions.rs:507-551 | the uncut log gives exactly the events after the cursor, a page at a time |
| `SessionOrder.SessionIsLawful` | crates/husker-agent/src/sessions.rs:210-461 | from every reachable state up to a crash, with appends of any size and whoever writes the status, no worker appends to a session's directory after it shows the session over, unless a reader of that id wrote into a directory it had not read |
| `SessionOrder.EndIsFinal` | crates/husker-agent/src/sessions.rs:210-461 | once a reachable state shows a session over, without a stale reader of its id so far, no run up to a crash appends to its log |
| `SessionOrder.SilentExactly` | crates/husker-agent/src/sessions.rs:449-461 | in every reachable state, no run up to a crash appends to a session's log if and only if every worker of it is closing and no start can launch another |
| `SessionOrder.StaleEndsEarly` | crates/husker-agent/src/sessions.rs:210-226 | a reachable state in which a directory shows its session over by a stale `get` and its worker appends once more |
| `SessionOrder.EndIsTold` | crates/husker-agent/src/sessions.rs:501-507 | whoever finds the directory showing the end has the end behind them in the order the cursor theorem is about |
| `SessionOrder.SessionIsSetting` | crates/husker-agent/src/sessions.rs:449-647 | so what a run of the worker left in the file, a failed write included, and what the store did meanwhile meet the conditions of the cursor theorem |
| `SessionCursor.RunIsReadable` | crates/husker-agent/src/sessions.rs:566-647 | whatever a run of the worker leaves in the file, a failed write included, is a log the cursor theorem is about |
| `SessionCursor.AgentAnswers` | crates/husker-agent/src/sessions.rs:501-551 | whatever part of the log is visible, the agent answers with the page of its whole events |
| `SessionCursor.IterEvents` | husker/__init__.py:398-409 | for a log of any length, torn at its end or not, and whatever is done to its directory, the client always holds a prefix of the readable events after its cursor, each once and in order, and its loop ends once enough polls find the session terminal; if nothing was appended after a status it took for the end, it then holds all of them, and all events of an untorn log |
| `JobExecution.Execute` | crates/husker-agent/src/job_runner.rs:199-318 | for every order of events: the report is that of the events up to the first point at which nothing more is awaited, and its outcome, exit code and confirmation are those of the first event that ends the command; the passed-on bytes are a prefix of the output within the 4 MiB shared by all commands, and an error is returned only for an event that failed |
| `JobExecution.Absorb` | crates/husker-agent/src/job_runner.rs:272-300 | the tail is the last 256 bytes of all output, and what lands is a prefix of the bytes within the remaining room, whole unless the write failed |
| `JobExecution.ReportStands` | crates/husker-agent-proto/src/job_result.rs:85-110 | every report the runner can make passes the host's check of one command |
| `JobExecution.NothingLost` | crates/husker-agent/src/job_runner.rs:272-314 | `logs_truncated` is false exactly when every byte read was passed on and both streams ended |
| `JobRunner.RunCommands` | crates/husker-agent/src/job_runner.rs:397-423 | which commands run is told by their events alone: every command that ran but the last ended by a confirmed wait, and commands are left out only after one that did not or where something failed; the results are of those, and the outcome is that of the last command that did not complete |
| `JobRunner.CollectArtifact` | crates/husker-agent-proto/src/frozen_bundle_fs.rs:77-132 | an artifact is returned exactly if it is a regular single-linked file, unchanged while read and within its bound, and then whole |
| `JobRunner.CollectArtifacts` | crates/husker-agent/src/job_runner.rs:458-504 | every declared artifact has a receipt in order, complete exactly if it was retrievable and otherwise empty with an error, and failure is noted exactly if some receipt is an error |
| `JobRunner.Conclude` | crates/husker-agent/src/job_runner.rs:383-507 | the source is looked at only when every command was confirmed terminated, and outcome and collection status follow from the parts with the later finding counting |
| `JobRunner.Run` | crates/husker-agent/src/job_runner.rs:383-513 | whatever happens, the manifest is a true account, is accepted by the host's check when short enough, and the bytes passed on over all commands are a prefix of all output within 4 MiB; no manifest only while a command runs or the artifact directory cannot be made |
| `JobRunner.CompletedExactly` | crates/husker-agent/src/job_runner.rs:397-507 | the outcome is Completed exactly when every declared command exited 0 with confirmed termination, the source digest is unchanged, every artifact was retrievable and the deadline was met |
| `JobRunner.CommandFailedExactly` | crates/husker-agent/src/job_runner.rs:397-507 | if every command ends by a confirmed wait, every declared command has a result with the exit code of that wait, and, the source unchanged, every artifact retrievable and the deadline met, the outcome is CommandFailed exactly if some command exited non-zero and Completed otherwise |
| `JobSource.Look` | crates/husker-agent/src/job_runner.rs:427-444 | the digest found is that of the files a walk meets outside the writable directories, and none is found of an unchanging tree only if there is none |
| `JobSource.CompletedKeepsSource` | crates/husker-agent/src/job_runner.rs:397-507 | after a job called Completed every path outside the writable directories has exactly the bundle's file, or none |
| `JobSource.UntouchedIsUnchanged` | crates/husker-agent/src/job_runner.rs:427-444 | commands that change only the writable directories are never blamed for a changed source |
| `JobResult.DecodesExactly` | crates/husker-agent-proto/src/job_result.rs:67-170 | the check's chain of early returns accepts exactly the manifests whose every claim is backed |
| `JobResult.DigestMeans` | crates/husker-agent-proto/src/job_spec.rs:115-122 | a digest is valid exactly if it is the scheme and 64 hexadecimal digits in lower case |
| `JobResult.DecimalReturns` | crates/husker-agent/src/job_runner.rs:470-470 | the number in a stored name is the decimal text of the index |
| `Utf8.LossyIsText` | crates/husker-agent/src/job_runner.rs:312-312 | lossy decoding of any bytes is well-formed UTF-8 at most three times as long |
| `Utf8.LossyKeepsText` | crates/husker-agent/src/job_runner.rs:312-312 | and leaves well-formed text as it is |
| `Utf8.TakeCharsBounds` | crates/husker-agent/src/job_runner.rs:195-197 | truncation to n characters keeps text well-formed, keeps that many characters and at most 4n bytes |
| `Utf8Scalars.TextExactly` | crates/husker-agent/src/job_runner.rs:312-312 | bytes are well-formed exactly if they are the encodings of Unicode scalar values, in shortest form and without surrogates |
| `Utf8Scalars.TakesScalars` | crates/husker-agent/src/job_runner.rs:195-197 | truncation keeps exactly the first n of them |
| `Utf8Scalars.StretchIsFurthest` | crates/husker-agent/src/job_runner.rs:312-312 | each stretch that lossy decoding takes goes as far as it begins a character, and is one byte at least |
| `Utf8Scalars.LossyReplaces` | crates/husker-agent/src/job_runner.rs:312-312 | and one that is no character becomes one U+FFFD |
| `Utf8Scalars.NoControlExactly` | crates/husker-agent-proto/src/frozen_bundle.rs:51-51 | the test for control characters on bytes finds exactly C0, DEL and C1 |
| `BundlePath.SplitReturns` | crates/husker-agent-proto/src/frozen_bundle.rs:47-55 | joining components with slashes and splitting again gives the components back |
| `BundlePath.JoinReturns` | crates/husker-agent-proto/src/frozen_bundle.rs:47-55 | splitting a path and joining again gives the path back |
| `SafePaths.SafePathExactly` | crates/husker-agent-proto/src/frozen_bundle.rs:47-55 | a path is safe exactly if it is 1 to 255 bytes of text without a backslash or a control character and no stretch between slashes is empty, a direction or an excluded name |
| `BundleEntry.EntryReturns` | crates/husker-agent-proto/src/frozen_bundle.rs:194-209 | reading a written header, data and padding gives the file back and leaves what follows |
| `BundleEntry.ChecksumReturns` | crates/husker-agent-proto/src/frozen_bundle.rs:197-206 | the checksum written over a header with blanks in its place is the one a reader computes |
| `Bundle.Validate` | crates/husker-agent-proto/src/frozen_bundle.rs:167-192 | validation accepts exactly the maps of bounded files with safe paths, none above another, whose archive is within 32 MiB |
| `Bundle.Encode` | crates/husker-agent-proto/src/frozen_bundle.rs:194-209 | the archive loop produces the canonical archive, whose bytes the next rows give, or fails exactly if some path cannot be placed in a header |
| `BundleBytes.ArchiveBytes` | crates/husker-agent-proto/src/frozen_bundle.rs:194-209 | byte by byte, for every file in byte order of the paths: name and prefix; mode 0000755 or 0000644 by the execute bit; owner, group and time zero; the octal size; as checksum the octal sum of the other 504 bytes and of eight blanks; type 0 and the ustar magic; then the data and zeros up to a whole block |
| `BundleBytes.ArchiveEnd` | crates/husker-agent-proto/src/frozen_bundle.rs:208-208 | and at the end two blocks of zeros |
| `BundleBytes.PlacedExactly` | crates/husker-agent-proto/src/frozen_bundle.rs:198-198 | a path of up to 100 bytes is the name; another is cut at a slash with the longest prefix of up to 155 bytes, and is refused exactly if no slash leaves both sides short enough |
| `Bundle.ReadFiles` | crates/husker-agent-proto/src/frozen_bundle.rs:104-136 | the reading loop collects every entry up to the first zero block, or refuses at the first bad, duplicate or excessive one |
| `Bundle.CanonicalLength` | crates/husker-agent-proto/src/frozen_bundle.rs:171-189 | an archive has 1024 bytes and for each file 512 and its data in whole blocks |
| `Bundle.FromFiles` | crates/husker-agent-proto/src/frozen_bundle.rs:78-87 | a bundle is made for exactly the valid maps whose paths can be placed, and is never above 32 MiB |
| `Bundle.ArchiveReturns` | crates/husker-agent-proto/src/frozen_bundle.rs:91-150 | reading the archive of valid files gives exactly those files |
| `Bundle.ArchiveDetermines` | crates/husker-agent-proto/src/frozen_bundle.rs:138-144 | valid maps with the same archive are the same map |
| `Bundle.Decode` | crates/husker-agent-proto/src/frozen_bundle.rs:91-150 | decoding accepts exactly the bytes with the expected digest and size that are the archive of some valid files, and returns those files |
| `Bundle.ListingAscends` | crates/husker-agent-proto/src/frozen_bundle.rs:194-196 | files are written in byte order of their paths |
| `BundleTree.Walk` | crates/husker-agent-proto/src/frozen_bundle_fs.rs:200-266 | the recursive walk with its three accumulators computes the tally of the tree, and fails exactly when something forbidden is met or a limit is exceeded |
| `BundleTree.WalkEntry` | crates/husker-agent-proto/src/frozen_bundle_fs.rs:212-263 | one entry is passed over, refused, added or descended into, as its name, path and kind say, and the accumulators grow by exactly its tally |
| `BundleTree.ExecutableMeans` | crates/husker-agent-proto/src/frozen_bundle_fs.rs:258-258 | a file is executable exactly if one of the three lowest octal digits of its mode is odd |
| `BundleTree.Freeze` | crates/husker-agent-proto/src/frozen_bundle_fs.rs:290-312 | freezing returns the files of the walk with a valid archive, and on an unchanged tree refuses only if the walk, the validation or the archive does |
| `BundleInventory.GatherExact` | crates/husker-agent-proto/src/frozen_bundle_fs.rs:211-260 | what a walk gathers at a path is exactly the regular file there, with its data and execute bit, unless an ignored directory or an excluded component hides it |
| `Workspace.PutFaces` | crates/husker-agent-proto/src/frozen_bundle_fs.rs:322-349 | extracting a file changes nothing at any other place but the directories on its way |
| `WorkspaceSetup.Extract` | crates/husker-agent-proto/src/frozen_bundle_fs.rs:319-354 | extraction of a bundle succeeds and the tree holds exactly its files and the directories above them |
| `WorkspaceSetup.FreezeModes` | crates/husker-agent/src/job_runner.rs:156-176 | every file of the bundle ends read-only with its execute bits, and every file and its data is kept |
| `WorkspaceSetup.CheckDirectories` | crates/husker-agent/src/job_runner.rs:25-32 | the overlap test on strings accepts exactly the directories that are not, do not contain and do not lie below a file |
| `WorkspaceSetup.MakeWritable` | crates/husker-agent/src/job_runner.rs:377-382 | making the declared directories adds exactly them and those above them |
| `WorkspaceSetup.PrepareWorkspace` | crates/husker-agent/src/job_runner.rs:364-382 | an admitted bundle always yields a workspace with exactly its files and the declared directories, and an overlapping one none |
| `Reinventory.ReinventoryReturns` | crates/husker-agent/src/job_runner.rs:427-444 | after any change inside the writable directories a walk of the workspace meets nothing forbidden and finds exactly the bundle's files, execute bits included |
| `Reinventory.FreezeAgain` | crates/husker-agent-proto/src/frozen_bundle_fs.rs:290-312 | so freezing it again returns the original file map, as long as entries counted with directories stay within 8192 |
| `Reinventory.DigestTells` | crates/husker-agent/src/job_runner.rs:439-445 | with an injective hash the digests agree exactly when the files do |
| `Versions.DependencyReturns` | scripts/plan_factory_alpine.py:73-77 | every well-formed dependency token parses to its name, operator and version |
| `Versions.LetterExactly` | scripts/plan_factory_alpine.py:74-74 | a name or version is made of everything but the comparison signs and white space |
| `Versions.OrderIsTotal` | scripts/plan_factory_alpine.py:89-96 | with pairwise zero padding any two versions compare, and both ways exactly if they differ in trailing zeros |
| `Versions.OrderIsTransitive` | scripts/plan_factory_alpine.py:89-96 | the comparison is transitive although each pair is padded to its own width |
| `Versions.NotOlderMeans` | scripts/plan_factory_alpine.py:94-96 | one version is not older than another exactly if at the first number in which they differ, missing ones being zero, it has the larger one, or they differ in none and its revision is not smaller |
| `Versions.VersionExactly` | scripts/plan_factory_alpine.py:89-93 | a text is read as a version exactly if it is decimal numerals with points between them and possibly -r and a numeral, and it is then read as those numbers |
| `Versions.VersionReturns` | scripts/plan_factory_alpine.py:89-93 | the text of any version is read back as that version |
| `Versions.SatisfiesMeans` | scripts/plan_factory_alpine.py:80-96 | a provided version satisfies a constraint exactly if there is none, or if it is the same text, or if it reads as a version that is not older than the one read |
| `Resolver.Offers` | scripts/plan_factory_alpine.py:99-106 | a package offers itself and each named capability once, or is refused exactly if that is impossible |
| `Resolver.Choose` | scripts/plan_factory_alpine.py:121-139 | a provider is chosen exactly when one is the single admissible one |
| `Resolver.PicksByRank` | scripts/plan_factory_alpine.py:124-137 | which provider is taken: the only one from the base; only if there is none there, the only one already selected; only then the preferred one, or the only one if none is preferred |
| `Resolver.MeetsMeans` | scripts/plan_factory_alpine.py:80-96 | a package meets a dependency exactly if it offers the name and the offered version is the same text or reaches the minimum, where one is asked for |
| `Resolver.RootsExactly` | scripts/plan_factory_alpine.py:111-113 | roots are accepted exactly if there are 1 to 64, none twice and each a package name |
| `Resolver.Recheck` | scripts/plan_factory_alpine.py:152-156 | the final check passes exactly if every edge leads to a selected provider that satisfies it |
| `Resolver.Turn` | scripts/plan_factory_alpine.py:119-149 | one turn keeps the selection genuine, every edge fulfilled, every wanted token led to or pending and everything reachable, and comes closer to the end, or stops for cause |
| `Resolver.Resolve` | scripts/plan_factory_alpine.py:109-157 | the loop ends; success is a closure in which every root and dependency has an edge to a selected satisfying provider, everything selected is reachable from a root and no index package shadows an installed one; a refusal names a wanted token without a single admissible provider, or too large a selection; the final check never fails |
| `GuestPath.NormalisedMeans` | scripts/prepare_factory_arm64.py:75-86 | the canonical paths are exactly those that normalise to themselves |
| `GuestPath.AncestorIsCanonical` | scripts/prepare_factory_arm64.py:75-86 | every directory above a canonical path is canonical |
| `SafePaths.CanonicalExactly` | scripts/prepare_factory_arm64.py:75-86 | a path is canonical exactly if it has 1 to 255 bytes and every stretch between slashes is a proper name |
| `SafePaths.NormalisedExactly` | scripts/prepare_factory_arm64.py:75-86 | a name without one ./ in front and without the slashes at its end is the root exactly if nothing or a point is left, a place exactly if what is left is canonical, and unsafe otherwise |
| `ImageLayers.MergeLayer` | scripts/prepare_factory_arm64.py:97-137 | a layer is merged exactly if no member is refused, no path repeats, nothing contradicts the image and the limits hold, and then the image has exactly the layer's additions |
| `ImageContents.AddsExactly` | scripts/prepare_factory_arm64.py:100-131 | a member adds exactly the entry it stands for: no special mode bit but a directory's sticky bit, a whole file of at most 512 MiB, a link of 1 to 255 bytes that at no point of its way leaves the root; it adds nothing exactly if it is the root |
| `ImageMerge.MergeLayers` | scripts/prepare_factory_arm64.py:95-137 | the layers are merged exactly if no member is refused, no layer repeats a path, no path is given two contents and the total bytes and distinct paths are within the limits, and then the image holds exactly what all members add |
| `ImageMerge.CloseAbove` | scripts/prepare_factory_arm64.py:139-147 | the directories above one path are added nearest first, and a refusal means a path below a file or link, or too many paths |
| `ImageMerge.Close` | scripts/prepare_factory_arm64.py:138-147 | the directories above every path are added exactly if nothing descends through a file or link and the quota holds |
| `ImageMerge.Members` | scripts/prepare_factory_arm64.py:89-148 | there is a result exactly if the limits are in range, the layers can be merged, no path lies below a file or link and the paths with all directories are within the quota; it is the image the layers make, closed under directories |
| `ImageContents.ImageIsSafe` | scripts/prepare_factory_arm64.py:97-148 | so whatever the layers, every path of the image is canonical, every mode plain, every file bounded and no link leads out of the root |
| `ImageMerge.OrderDoesNotMatter` | scripts/prepare_factory_arm64.py:96-148 | the order of the layers makes no difference to the result |
| `ImageMerge.AcceptableInAnyOrder` | scripts/prepare_factory_arm64.py:89-148 | nor to whether there is one |
| `ImageWrite.WriteTar` | scripts/prepare_factory_arm64.py:157-167 | one ustar record is written for each path, in path order, exactly if every link target has at most 100 bytes, every name, a directory's with its slash, fits the name field or can be cut at a slash, and every file is below 8 GiB, which the merge's bound of 512 MiB on a member implies |
| `ImageRecords.ArchiveRecords` | scripts/prepare_factory_arm64.py:157-167 | record by record, in byte order of the paths, the header fields: prefix and name with the shortest prefix, kind, mode, size and target, and the data |
| `ImageRecords.WritableExactly` | scripts/prepare_factory_arm64.py:157-167 | an entry can be written exactly if its name, a directory's with its slash, has at most 100 bytes or a slash with at most 155 before and 100 after it, its target has at most 100 bytes and its data is below 8 GiB |
| `ImageWrite.WriteAndRead` | scripts/prepare_factory_arm64.py:89-167 | writing an image made from layers succeeds exactly if it is so writable, and reading the archive back with the same limits is then the identity |
| `ImageWrite.LongNameIsNotWritten` | scripts/prepare_factory_arm64.py:157-167 | within any limits the merge accepts a file name of 101 bytes that cannot be written |
| `ImageWrite.LongTargetIsNotWritten` | scripts/prepare_factory_arm64.py:157-167 | and a link target of 101 bytes |
| `Hardlinks.ChainEnd` | scripts/export_factory_alpine.py:61-65 | following links terminates, at the end of the chain or with the finding that it has none |
| `Hardlinks.Materialise` | scripts/export_factory_alpine.py:60-71 | in any order of the links: they become copies exactly if each chain ends at a regular file of the package and the bound holds; each then equals the end of its chain and nothing else changes |
| `Hardlinks.OrderOfLinksDoesNotMatter` | scripts/export_factory_alpine.py:60-71 | any two orders give the same result |
| `Journal.Store.PrepareStage` | examples/factory_checks_v1.py:137-154 | a new row is frozen exactly if digests match, the request is within 64 KiB and the bundles within 32 MiB, the key is new and there are fewer than 64 rows; otherwise nothing changes and the error says which of these failed first |
| `Journal.Store.MarkRequested` | examples/factory_checks_v1.py:156-158 | a prepared row becomes requested and nothing else changes |
| `Journal.Store.BindReceipt` | examples/factory_checks_v1.py:160-174 | identities are learnt once, a receipt that contradicts them is a conflict that changes nothing |
| `Journal.Store.RetainEvidence` | examples/factory_checks_v1.py:176-181 | bounded evidence is stored and the row is collected |
| `Journal.SubmittedAtMostOnce` | examples/factory_checks_v1.py:188-226 | over every run of callers that may die anywhere, each key is submitted at most once and with exactly what was frozen for it |
| `Journal.RunAdvances` | examples/factory_checks_v1.py:137-181 | over every run frozen inputs never change, job id, session id and replay flag are written once and the phase never goes back |
| `Journal.RunBounded` | examples/factory_checks_v1.py:151-154 | over every run the journal has at most 64 rows |
| `JournalHistory.RowsAreTold` | examples/factory_checks_v1.py:137-181 | over every run every row is bounded, was prepared by a caller with exactly what it froze, has job and session from one receipt for that and its evidence from a retention, and its phase says which of these it has |
| `JournalHistory.MarkedBeforeSent` | examples/factory_checks_v1.py:198-203 | over every run nothing was submitted whose row is not durably marked as requested |
| `JournalHistory.CallSends` | examples/factory_checks_v1.py:197-203 | a caller whose row is new, if it does not die and nothing comes between, submits exactly what it froze |
| `Netlink.AddAddrMsg` | crates/husker-agent/src/netlink.rs:57-119 | the encoder's pushes and patches produce the specified 40-byte address message |
| `Netlink.MessageBytes` | crates/husker-agent/src/netlink.rs:77-119 | every one of its 40 bytes |
| `Netlink.FindAttr` | crates/husker-agent/src/netlink.rs:217-231 | the attribute loop terminates and finds the first address attribute of the message |
| `Netlink.ParseDumpAddrs` | crates/husker-agent/src/netlink.rs:197-236 | the nested loops terminate on every buffer and compute the specified entries or the specified out-of-bounds read |
| `Netlink.DumpHasDone` | crates/husker-agent/src/netlink.rs:241-255 | the loop terminates on every buffer and finds the end of the dump |
| `Netlink.ReplyReturns` | crates/husker-agent/src/netlink.rs:103-255 | parsing encoded addresses, interleaved with any other framed messages and followed by DONE, gives exactly the entries of the interface in order, and DONE is recognised |
| `Netlink.PanicsWhen` | crates/husker-agent/src/netlink.rs:209-215 | the parser reads past the end exactly on buffers of whole padded messages, none of them DONE or ERROR, followed by 16 to 23 bytes that begin an address message |
| `Netlink.BareHeaderPanics` | crates/husker-agent/src/netlink.rs:209-215 | one such buffer |
| `RangedRead.ReadFile` | crates/husker-agent/src/lib.rs:992-1062 | a range is clamped to the ceiling, and only a whole read of an oversized file errs |
| `RangedRead.IterFile` | husker/__init__.py:307-332 | each chunk is what its own request found at the offset reached; a transfer completes only if every request found the same size and time and then has that size, and reports the first that did not; if changes show in those, the chunks are a prefix of the file, all of it on completion, and every request but the last brings a full chunk |
| `RangedRead.UnseenChangeSplices` | husker/__init__.py:307-332 | a change that keeps size and time goes unnoticed: the transfer completes with the front of one file and the back of the other |
| `Base64.Encode` | crates/husker-agent-proto/src/lib.rs:670-701 | the encoder's shifts, masks and table lookups on 8-bit words stay in range and compute the specified text |
| `Base64.Decode` | crates/husker-agent-proto/src/lib.rs:703-741 | the decoder's shifts on 8-bit words compute the specified bytes or error |
| `Base64.RoundTrip` | crates/husker-agent-proto/src/lib.rs:670-741 | decoding the encoding of any bytes gives them back |
| `Base64.EncodedLength` | crates/husker-agent-proto/src/lib.rs:670-701 | the encoding has four letters for every three bytes begun |
| `Base64.DecodesWhen` | crates/husker-agent-proto/src/lib.rs:703-741 | decoding succeeds exactly when the length is a multiple of four and every character is a table letter or padding |
| `Base64.DecodingIsLax` | crates/husker-agent-proto/src/lib.rs:703-741 | padding is read wherever it stands, so a text no encoding produces decodes to the same bytes as another |

## Left out

- SHA-256, JSON text in general and SQLite: a digest is a function that tells inputs apart where a theorem needs it, JSON is a faithful encoding (the session event line is modelled in full), a SQL transaction is one step.
- Durability of the session root's parent directory, the temporary files of status writes and foreign entries in the root: not modelled; a crash can lose more in the model than on the real disk.
- SessionCursor.IterEvents: is about one directory and one start of the agent. The agent takes the status by id and then opens the log by path, so an id removed and restarted between the two or between polls is outside it; and a crash may cut a log a client has read, though one that starts after the crash is covered.
- SessionOrder.SessionIsLawful: is not stated for an id one of whose readers wrote into a directory it had not read; SessionOrder.StaleEndsEarly shows the run that makes this necessary.
- SessionSupervision.WorkerHoldsItsEntry: is not stated for an id one of whose readers wrote into a directory it had not read; SessionWitness.StaleReport shows the run that makes this necessary.
- Session listing's refusal of a directory with output and no status: appears only as a listing that gives up the lock.
- JobRunner.Run: takes the encoded manifest's length as given, since the runner enforces the 64 KiB bound rather than guaranteeing it; staging, deadlines before the first command, process containment and kernel policy are not modelled.
- JobSpec::validate: only that there is at least one command, and that declared directories are safe, enter as conditions; the remaining clauses are independent range checks.
- WorkspaceSetup.FreezeModes: sets the modes of files only; a directory has no mode in the model, so that directories become read-only is not stated.
- File ownership and the descriptor-relative system calls of extraction: the tree is a value, and extraction descends by recursion.
- BundleEntry.ReadHeader: reads fewer spellings of a number than the tar library does; re-encoding rejects the others, so the accepted archives are the same.
- Resolver.Resolve: returns the edges in the order found; the source sorts them afterwards. Reading the package index into records is not modelled.
- The first loop of `package_members`: it reads members as `members` does; `Hardlinks` starts from its two maps.
- `target_path`, `resolve_file` and the package merge of `export`: not modelled, they would repeat the merge of `members`.
- RangedRead.IterFile: a change inside one request after its metadata was taken is outside its promise, as in the source; read errors are not modelled.
- The other netlink encoders, length-prefixed framing, HTTP routing, authentication, the daemon and the virtual machine monitor: not modelled.
- The evidence checks of `_collect`: a list of independent comparisons; only that they end in a stored row is modelled.

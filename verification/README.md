# A verified model of the replica file server

A Dafny 4.11 model of a multi-threaded TCP file server with replica mode, and proofs about it. It covers
the file client and its four global tables, the replication of requests to peers, the vote peers take on a
read, the access control of a file, the worker pool, and the line reader, tokenizer and reply printer that
carry all of it.

| file | what it holds |
|---|---|
| `Text.dfy`, `Numerals.dfy`, `LineReader.dfy` | words, numbers, `readline` |
| `OperatingSystem.dfy` | disk and descriptors: the environment of the file client |
| `FileOperations.dfy`, `FileClient.dfy` | each file operation as a function on the state, and the class whose methods compute it in place |
| `TableConsistency.dfy`, `RequestRuns.dfy` | the invariant of the tables, the store by name they implement, whole runs of one server |
| `FileContents.dfy` | what FSEEK, FREAD and FWRITE do to bytes and offsets |
| `ServerResponse.dfy`, `MajorityVote.dfy`, `PrintedReplies.dfy` | the printer, the vote that parses what it prints, and the printed lines as words |
| `Replication.dfy`, `FileCallback.dfy` | a request in replica mode, as a function and as methods |
| `Connections.dfy`, `ClientAnswers.dfy` | which lines of a connection are served; what the client is told, as text and over runs |
| `Simulation.dfy`, `Divergence.dfy` | why peers stay in step with the origin, and exactly when they do not |
| `DivergedVote.dfy`, `PeerLag.dfy` | the vote on peers that disagree; what becomes of a peer that missed a message |
| `ReplicaWitnesses.dfy`, `ClusterRuns.dfy` | concrete runs that fall out of step; any number of servers, each an origin |
| `ControlRecord.dfy` | one control record step by step |
| `AccessControl.dfy`, `DescriptorSafety.dfy` | any number of threads on the tables: what the records keep, and what that is worth for files and descriptors |
| `EntryConditions.dfy` | who has to wait, told from the records and from the threads |
| `WorkerPool.dfy`, `BatchOrders.dfy` | pool counters and their interleavings; when workers are created and cleaned up |

## How it is modelled

- **Files and descriptors.** The disk maps a name to its bytes, a descriptor is a name and an offset. Opening
  is granted or refused by the environment; a grant is a positive `int` not in use. Writes are whole, and a
  hole left by seeking past the end reads as NULs. Two names are two files.
- **State in place.** `FileClient.FileClient`, `ServerResponse.ServerResponse`, `FileCallback.Connection`,
  `LineReader.ByteStream` and `WorkerPool.ThreadsMan` update their fields; each method is proved to compute a
  function of the old state, and the theorems are about those functions. `operator[]` on the maps inserts, as
  in the source.
- **Waits.** In a sequential operation a false wait predicate ends it with `Blocked`; in a run of one server
  this never happens (`RequestRuns.EveryReachableStateIsGood`).
- **Peers.** A message to a peer is delivered, and answered in time or not, or not delivered; each goes to its
  own peer, at most once. What peers do with it is the same callback on the same operations.
- **Granularity.** The source tests a wait predicate under a mutex local to the function, and takes
  `writeLock` and increments the counter afterwards; FCLOSE tests, marks the record and erases it.
  `ControlRecord` has all of these as separate steps on one record, until FCLOSE erases it. `AccessControl`
  has two steps for FOPEN: the look for a descriptor, and the system's grant together with the registration;
  and two steps for each other operation: the look-up, and then predicate, re-check, lock and increment
  together (FCLOSE: predicate, mark and removal together). An operation resuming from its wait finds its
  record by name, where the source holds a reference. Uninterrupted, these steps are the operations of the
  file client (`AccessControl.StepsComposeToOperations`). In `WorkerPool` a worker's test and its call of
  `tryThreadQuitting` are separate steps; the call itself is one step, although nothing in the source keeps
  several callers from passing its guard (src/threads/ThreadMan.cpp:14) before any of them increments. The
  guards of the main thread's wait (src/main.cpp:42-50) and of a clean-up (src/threads/ThreadMan.cpp:159-163)
  are one step each, while the source loads the two counters one after the other. The results on the floor do
  not need more: `WorkerPool.FloorIffSurplus` holds whatever a clean-up's guard answers; only the main thread
  raises the thread count, so its bound is still good after the later load; and in the pools that
  `WorkerPool.FloorSafeIffTooSmallToClean` finds safe the loads satisfy no clean-up guard in any order.
- **Numbers.** `atoi` is glibc's: clamp to `long`, convert to 32 bits; `stoi` fails out of range.

## What the code does not promise

Following the code, some expected properties are false. Each has a concrete run and an exact condition. A
step is called clean when it meets the condition; a condition is exact when the property holds in every
continuation whose later steps are clean if and only if the step is clean.

- Readers and writers can be inside together, against README.MD lines 61-64
  (`ControlRecord.ReaderAndWriterTogether`), and FCLOSE can erase a record with a reader counted in
  (`ControlRecord.ErasedUnderReader`). For each of the two a test is clean when no thread of the other side
  -- readers and writers; those two and closers -- is past its own test: `ControlRecord.SafeIffCleanTest`.
- A file can be read and written at once, against README.MD lines 61-64, even with each entry in one step
  (`DescriptorSafety.ReadWhileWritten`): the record guards the name a thread looked up, and the descriptor check
  after a wait does not see that the descriptor has meanwhile been granted to another file. FCLOSE then takes
  descriptors from under their users (`DescriptorSafety.StaleReuseHappens`). A file can also be opened while it
  is written, against README.MD line 55, and then has two descriptors, of which the tables find one
  (`DescriptorSafety.OpenedWhileWritten`). An FOPEN is clean when it registers no descriptor with which a thread
  waits for another file and, where a file is to have one descriptor, when it looks while no other FOPEN of the
  file is between its look and its registration: `DescriptorSafety.SafeIffClean`. For files read and written apart
  alone the first half is the condition: `DescriptorSafety.FilesApartIffNotStale`.
- With the default settings the whole pool can quit: `WorkerPool.FloorCanBeLost`. The settings for which no
  schedule takes the pool below one batch are those for which it never starts a clean-up:
  `WorkerPool.FloorSafeIffTooSmallToClean`. A run keeps one batch exactly when every call of
  `tryThreadQuitting` finds a surplus: `WorkerPool.FloorIffSurplus`.
- In replica mode a read at end of file (`ReplicaWitnesses.EndOfFileRefused`), or of white space only other
  than one single space (`ReplicaWitnesses.BlankReadRefused`), is always refused: `Simulation.ReadVerdict`.
- A vote does not mean that the replicas read the same bytes (`ReplicaWitnesses.DifferentBytesAccepted`). It
  passes exactly when enough replicas read anything countable: `DivergedVote.VerdictComparesNothing`.
- The client is told of success whether or not a request other than a read reached any peer
  (`Divergence.FireAndForget`). After a
  message that was lost (`ReplicaWitnesses.LostWriteSucceeds`), that found a peer unable to open the file
  (`ReplicaWitnesses.RefusedWriteSucceeds`) or whose line was longer than the peer's buffer
  (`ReplicaWitnesses.LongWriteSucceeds`) the peer disagrees about the file. It agrees exactly when what arrives
  there advances the file as far as it was advanced here: `Divergence.AgreesIffAdvanceArrives`, and
  `Divergence.CloseFollowsIff` for FCLOSE. What a peer has
  missed is not made up for until the file is closed: `PeerLag.MissedAdvanceIsNeverMadeUp`.

- A request line of exactly 255 characters is served and ends the connection: its newline stays in the stream and
  reads as a line without a word, and what the client sent after it is never served
  (`Connections.FullLineEnds`). Every shorter line with a word in it is served, and the next one after it
  (`Connections.ShortLineServed`).

## Model

| member | source | states |
|---|---|---|
| Simulation.PeersFollowOrigin | src/main.cpp:217-292 | from equal contents, after any sequence of client lines whose messages are delivered, every peer agrees with the origin on the content and position of every file, whatever descriptors each was granted |
| Simulation.RequestKeepsStep | src/main.cpp:217-278 | one client request of any kind, accepted or not, keeps all peers in step with the origin |
| Simulation.PeerFollows | src/components/FileClient.cpp:315-395 | a peer in step that serves the sync line of an FSEEK, FREAD, FWRITE or FCLOSE makes by name the origin's move, opening the file first if it must |
| Simulation.SyncLineRoundTrip | src/components/FileClient.cpp:397-422 | a sync line tokenizes back to the SYNC command, the file's name and the original third token if there is one, and is a single line |
| Simulation.PeerHandlesLine | src/main.cpp:193-197 | a line that fits the buffer reaches the peer as exactly one request, and its reply is the one the printer makes |
| Simulation.AnnouncedEffect | src/main.cpp:217-274 | an accepted request is run here and its sync line, built from the live tables, is served by every peer; for FCLOSE the line is built before the descriptor goes |
| Simulation.ReadVerdict | src/main.cpp:405-449 | in a cluster in step the answer to a read is the content exactly when it has a word in it, or is a single space, and a strict majority of replicas answered; otherwise SYNC FAIL |
| Divergence.FireAndForget | src/main.cpp:396-402 | FSEEK, FWRITE and FCLOSE are answered with local success whatever becomes of the messages |
| Divergence.AgreesIffAdvanceArrives | src/main.cpp:340-382 | after an FSEEK, FREAD or FWRITE a peer agrees with the origin about the file if and only if what arrives there -- nothing if it is not reached or cannot open the file, else what its buffer holds of the line -- advances the file as far; after a read at end of file whose number does not arrive, if and only if the rest of the line has not moved the file there |
| Divergence.WriteFollowsIffLineFits | src/main.cpp:175-197 | after an FWRITE a peer agrees if and only if it was reached, could open the file and the line has at most 255 bytes |
| Divergence.SeekFollowsIffNumberArrives | src/components/FileClient.cpp:315-334 | after an FSEEK a peer agrees if and only if it was reached, could open the file and the part of the number in its buffer reads as the same number |
| Divergence.CloseFollowsIff | src/components/FileClient.cpp:379-395 | after an FCLOSE a peer agrees if and only if it did not have the file open or was reached by a line whose name has at most 245 characters; after a longer name and a superfluous token, if and only if the file is closed there once the whole line is served |
| Divergence.MissedMessageDiverges | src/main.cpp:347-368 | a peer not reached by a request stays exactly the request's advance behind, and agrees if and only if that is zero; for FCLOSE, if and only if it did not have the file open |
| Divergence.CutLineEffect | src/components/FileClient.cpp:315-377 | the whole store of a peer after a sync line of any length: the move of the part of the third token in its buffer and nothing else; if no part is, every content is unchanged and no file stands further |
| ReplicaWitnesses.OpenedIs | src/components/FileClient.cpp:59-89 | from equal disks with file "a", the first FOPEN of a client leads to a cluster in step with the file open on 5 |
| ReplicaWitnesses.EndOfFileRefused | src/main.cpp:438-447 | there a read is refused although the peer is reached, opens the file and answers |
| ReplicaWitnesses.BlankReadRefused | src/main.cpp:421-447 | and so is one of two spaces |
| ReplicaWitnesses.DifferentBytesAccepted | src/main.cpp:434-447 | there, after a lost FSEEK, a read for which the origin holds "y" and its only peer "x" is accepted |
| ReplicaWitnesses.LostWriteSucceeds | src/main.cpp:357-363 | there a write is answered with success, the only peer is not reached and disagrees |
| ReplicaWitnesses.RefusedWriteSucceeds | src/components/FileClient.cpp:77-79 | so it is when the peer is reached and cannot open the file |
| ReplicaWitnesses.LongWriteSucceeds | src/main.cpp:175-194 | a client line of 255 characters makes a sync line of 258: success, and the peer that was reached, opened the file and answered disagrees |
| DivergedVote.VerdictComparesNothing | src/main.cpp:405-449 | for peers in any state: the origin's own bytes are the answer if and only if, with the origin, more than half of the replicas answered with something countable, each read at its own position of its own content |
| PeerLag.MissedAdvanceIsNeverMadeUp | src/main.cpp:347-402 | after a missed FSEEK, FREAD or FWRITE, along every later run whose messages arrive and that does not close the file, the peer agrees about all other files and stands behind in this one by what it missed, corrected by what reads of the file took the origin further than the peer |
| PeerLag.RequestKeepsLag | src/main.cpp:217-278 | one delivered request keeps such a peer behind by the same amount; a read of the file adds what the origin read more |
| PeerLag.LaterWriteLandsOff | src/components/FileClient.cpp:234-235 | a later write lands at the origin's position here and at the peer's there, that far off |
| ClusterRuns.EveryServerStaysSound | src/main.cpp:174-325 | any number of servers, each an origin for its clients, any lines, fates, over-long messages and SYNC commands: at every server the tables stay consistent and match the descriptors of the operating system |
| TableConsistency.SeekRefines | src/components/FileClient.cpp:91-124 | FSEEK on a registered descriptor moves its file's position and nothing else, and returns 0; on any other it returns the error code and changes no file |
| TableConsistency.ReadRefines | src/components/FileClient.cpp:126-194 | FREAD returns the number and, as a C string, the text of the bytes at the file's position, or the end marker, and advances the position |
| FileContents.ReadFinds | src/components/FileClient.cpp:174-193 | FREAD of up to n bytes at offset o of content c finds what is left there, n bytes at most and none at or past the end; it returns how many, hands out the text of exactly these bytes up to the first NUL, or the end marker, and leaves the offset past them |
| FileContents.ReadToEndIsTheRest | src/components/FileClient.cpp:184-193 | reading a file without NULs any number of bytes at a time until the end marker hands out the rest of it, whole and in order |
| FileContents.SeekMoves | src/components/FileClient.cpp:118-121 | FSEEK adds its number to the offset, past the end of the file too, and changes nothing else of disk and descriptors |
| TableConsistency.WriteRefines | src/components/FileClient.cpp:196-247 | FWRITE overlays the content at the position; on a bad descriptor it leaves only stray entries |
| FileContents.WriteLands | src/components/FileClient.cpp:234-246 | FWRITE, byte by byte: the content stands at the offset, every other byte stays, a gap reads as NULs, no other file or descriptor changes |
| TableConsistency.CloseRefines | src/components/FileClient.cpp:249-311 | FCLOSE removes the file's position, its registration and its control record, and nothing of any other file |
| TableConsistency.OpenIsExclusive | src/components/FileClient.cpp:59-89 | FOPEN asks the operating system exactly when no descriptor is open on the name; otherwise it returns 0, reports the one descriptor that is, and changes nothing; a refusal throws and opens nothing |
| RequestRuns.OpenIsExclusiveOverRuns | src/components/FileClient.cpp:59-89 | after any history of requests and restarts, FOPEN reports the descriptor of the name's last successful open if no close of it and no restart followed, changing nothing; any other name is opened by the system or refused |
| ClientAnswers.OpenAnswer | src/main.cpp:309-317 | the text the client of an FOPEN is sent, after any history and whatever the peers: ERR with the descriptor of the name's last successful open if it is still open, else OK with the new descriptor if the system grants one, else FAIL |
| ClientAnswers.OpenAnswerInReplicaMode | src/main.cpp:309-317 | the same for a server with peers whose clients have sent any lines, whatever became of the messages |
| ClientAnswers.PeersDoNotShow | src/main.cpp:294-321 | with peers in any state and messages of any fate the origin is left as if it had none, and but for a read put to the vote the client is told what it would be told then |
| ClientAnswers.OriginRunsAlone | src/main.cpp:208-274 | over any run of client lines the state of the origin is that of a server without peers |
| ClientAnswers.AnswerTold | src/main.cpp:313-313 | the text the client is sent for a request whose code is decided by its tokens and the descriptors in use: OK, the code and a standing text, or ERR and which of the five errors |
| ClientAnswers.ReadTold | src/main.cpp:313-313 | the text the client of an FREAD is sent by a server without peers: how many bytes, and which, or the end marker; a single space is told as a standing text |
| ClientAnswers.ReplyHeard | src/main.cpp:344-382 | what counts as a peer's reply: its text, 256 bytes of it at most, nothing if it is late, the mark of a connection error if it was not reached |
| TableConsistency.EnsureOpenRefines | src/components/FileClient.cpp:319-325 | the look-up by name of a SYNC request ends with the file open, at its old position or at the start, or throws with no file changed |
| TableConsistency.RemoveConsistent | src/components/FileClient.cpp:288-305 | the removal steps of FCLOSE keep names and descriptors in one-to-one correspondence and leave every other entry as it was |
| TableConsistency.AddConsistent | src/components/FileClient.cpp:81-86 | the three assignments of FOPEN keep that correspondence for any descriptor not in use |
| RequestRuns.EveryReachableStateIsGood | src/main.cpp:174-325 | after any sequence of request lines and restarts the four tables are consistent, match the descriptors of the operating system, every registered name is one token, and the next request does not wait for ever |
| RequestRuns.HandleKeeps | src/main.cpp:212-292 | every request, whatever its tokens and whatever is granted, keeps the tables consistent, never waits for ever, and opens at most the name it gives |
| RequestRuns.ResultCodes | src/components/FileClient.hpp:20-25 | the result of every operation on a descriptor, of requests with too few tokens, SYNC requests included, and of unknown commands, as decided by the number of tokens, registration and parameters alone |
| RequestRuns.StrayEntries | src/components/FileClient.cpp:67-79 | an FWRITE on a bad descriptor, a refused FOPEN and a SYNCCLOSE of a file that is not open leave one entry that stands for no file, if there was none, and nothing else |
| RequestRuns.CleanUpClosesEverything | src/components/FileClient.cpp:22-34 | after CleanUp no table has an entry and no descriptor is open, and every file keeps its content |
| TableConsistency.WithoutKeepsOrder | src/components/FileClient.cpp:288-297 | the search of FCLOSE takes the first entry for the descriptor out of the list of open files, whose order stays |
| RequestRuns.WrittenDataReadsBack | src/components/FileClient.cpp:234-235 | what FWRITE wrote at a position is what FREAD returns there after FCLOSE, FOPEN and FSEEK |
| FileClient.FileClient.FOPEN | src/components/FileClient.cpp:59-89 | computes the specified step of the tables in place |
| FileClient.FileClient.FSEEK | src/components/FileClient.cpp:91-124 | computes the specified step of the tables in place |
| FileClient.FileClient.FREAD | src/components/FileClient.cpp:126-194 | computes the specified step of the tables in place, counting the reader in and out |
| FileClient.FileClient.FWRITE | src/components/FileClient.cpp:196-247 | computes the specified step of the tables in place, counting the writer in and out |
| FileClient.FileClient.FCLOSE | src/components/FileClient.cpp:249-311 | computes the specified step of the tables in place, finding the entry to erase by a loop |
| FileClient.FileClient.FDChcker | src/components/FileClient.cpp:46-57 | the registration check, by a loop over the open files |
| FileClient.FileClient.CleanUp | src/components/FileClient.cpp:22-34 | closes every listed descriptor, then empties the tables |
| FileClient.FileClient.SYNCSEEK | src/components/FileClient.cpp:315-334 | computes the specified step by name |
| FileClient.FileClient.SYNCREAD | src/components/FileClient.cpp:336-356 | computes the specified step by name |
| FileClient.FileClient.SYNCWRITE | src/components/FileClient.cpp:358-377 | computes the specified step by name |
| FileClient.FileClient.SYNCCLOSE | src/components/FileClient.cpp:379-395 | computes the specified step by name; a file that is not open is no error |
| FileClient.FileClient.SyncRequestBuilder | src/components/FileClient.cpp:397-422 | builds the sync line, inserting a stray entry for an unknown descriptor |
| FileCallback.Connection.HandleRequest | src/main.cpp:208-321 | one client request, from its tokens to the new cluster and the text sent back |
| FileCallback.Connection.HandleSync | src/main.cpp:329-394 | sends the line to every peer in order and collects the replies in that order |
| FileCallback.Connection.ServeConnection | src/main.cpp:193-322 | serves a connection line by line, with or without peers, until the input ends, a line has no word or a request waits for ever: the cluster and all that was sent |
| Connections.ShortLineServed | src/main.cpp:193-198 | a line that leaves room in the buffer and has a word in it is served as one request, and what follows it after it |
| Connections.FullLineEnds | src/main.cpp:193-198 | a line that fills the buffer is served and is the last one |
| Connections.ConversationServed | src/main.cpp:193-322 | a client that sends any number of request lines that leave room gets each served, in order, and all that it is sent is the answers in that order |
| Replication.AloneServesLikeAPeer | src/main.cpp:193-322 | without peers this is the callback peers run on what they are sent |
| MajorityVote.CountVotes | src/main.cpp:405-449 | accepts exactly on a strict majority of the replicas taking part, unreachable ones included in the total, and keeps the counted replies in order |
| MajorityVote.VerdictIgnoresOrder | src/main.cpp:412-447 | permuting the replies changes neither the verdict nor the collection of counted reads |
| MajorityVote.AcceptedReadsIntersect | src/main.cpp:447-448 | any two accepted reads in a replica group, at whatever origins, share a voting replica |
| MajorityVote.BallotOfFileReply | src/components/ServerResponse.cpp:18-51 | a printed read result is one vote exactly when its count is positive and its message has a word or is a single space; the vote reads back the count that was printed |
| MajorityVote.BallotOfFailure | src/main.cpp:344-356 | FAIL replies, empty replies and connection errors give no vote |
| PrintedReplies.VoteIgnoresStatus | src/main.cpp:414-443 | the vote goes by the number and the word after it; the status may be any word that does not begin with the mark of a connection error |
| PrintedReplies.StatusWord | src/components/ServerResponse.cpp:18-30 | the first word of a printed reply is OK exactly for a code that is not negative, otherwise ERR; then the second is the code, otherwise ENOENT |
| ServerResponse.SuccessLine | src/components/ServerResponse.cpp:23-36 | the printed line of a success |
| ServerResponse.FailureLine | src/components/ServerResponse.cpp:26-45 | the printed line of a failure, with the text of each of the five codes |
| ServerResponse.InUseLine | src/components/ServerResponse.cpp:53-59 | the printed line for a file that is open already |
| ServerResponse.FailLines | src/components/ServerResponse.cpp:3-104 | the printed lines of the failures that are told by name, with the text of each of the six in the table |
| ServerResponse.ServerResponse.File | src/components/ServerResponse.cpp:18-51 | appends the reply line of a file operation to what the client has been sent |
| ServerResponse.ServerResponse.FileInUse | src/components/ServerResponse.cpp:53-59 | appends the in-use line |
| ServerResponse.ServerResponse.Fail | src/components/ServerResponse.cpp:89-97 | appends the failure line with the text of the code |
| ServerResponse.ServerResponse.Peers | src/components/ServerResponse.cpp:111-121 | appends one line per counted peer read, in order |
| AccessControl.PolicyAlwaysHolds | src/components/FileClient.cpp:114-122 | with atomic entry, over every run of any number of threads, the counters of the record kept under a name count exactly the threads inside that looked their file up as this name, and of these none writes while another reads or writes |
| EntryConditions.EntersIff | src/components/FileClient.cpp:157-169 | with atomic entry, in every run: a thread that waits may go on exactly when, of the threads inside under its name, none writes (FSEEK, FREAD), none reads and on a good descriptor none writes (FWRITE), there is none (FCLOSE), and, but for FCLOSE, the record is not marked as closing |
| EntryConditions.WaitsIff | src/components/FileClient.cpp:209-226 | which whole operation waits for ever on which control record, on tables in any state; FWRITE waits before it checks its descriptor |
| DescriptorSafety.FilesReadAndWrittenApart | README.MD:57-64 | with atomic entry, over every run without a stale grant, double opens allowed: of two threads that use descriptors of one file neither writes |
| DescriptorSafety.SafeIffClean | src/components/FileClient.cpp:66-86 | with atomic entry, double opens allowed or not: a step leaves the tables in order, descriptors in use open on their files, and files read and written apart in all clean continuations if and only if it is clean: not the registration of a descriptor with which a thread is parked for another file, nor, if double opens are not allowed, the look of an FOPEN while another one of the file has looked and not registered |
| DescriptorSafety.FilesApartIffNotStale | src/components/FileClient.cpp:75-86 | a grant that is not stale leaves files read and written apart in all continuations without a stale grant; a stale one does not, unless the record of the granted file is marked as closing |
| DescriptorSafety.DescriptorsInUseStayOpen | src/components/FileClient.cpp:156-182 | with atomic entry, in every run whose FOPENs are clean, the tables stay consistent, a thread inside FREAD or FWRITE has its descriptor open on the file it looked up, and no FCLOSE ready to fire takes it away |
| DescriptorSafety.CloseFindsNobodyInside | src/components/FileClient.cpp:276-305 | with FCLOSE's test, mark and removal in one step, and in every state of runs without a stale grant: when it removes a file both counters are zero and no thread reads or writes through the descriptor |
| DescriptorSafety.NoOpeningWhileWritten | README.MD:55 | with atomic entry, in every run whose FOPENs are clean, no FOPEN of a file that is being written is about to register, and one that comes changes nothing |
| DescriptorSafety.ReadWhileWritten | src/components/FileClient.cpp:209-226 | a reachable state, its tables consistent, in which one thread reads and another writes the same file |
| DescriptorSafety.StaleReuseHappens | src/components/FileClient.cpp:161-182 | a reachable state in which FCLOSE has removed a descriptor with a reader inside |
| DescriptorSafety.OpenedWhileWritten | src/components/FileClient.cpp:67-86 | a reachable state in which a file has two registered descriptors while a thread writes through the first |
| AccessControl.StepsComposeToOperations | src/components/FileClient.cpp:91-311 | the interleaved steps, FOPEN's included, run without interruption, leave the tables as the whole operations do |
| ControlRecord.CountersAreExact | src/components/FileClient.cpp:11-20 | for any number of threads and any schedule, test and increment apart: both counters are exact, there is at most one writer, and it holds the write lock |
| EntryConditions.TestPassesIff | src/components/FileClient.cpp:114-116 | in every run of one record: a reader's test passes exactly when no thread is counted in as a writer and nobody has marked the record, a writer's when none is counted in as a reader and it is not marked, an FCLOSE's when nobody is counted in |
| EntryConditions.NobodyIsStuck | src/components/FileClient.cpp:196-305 | in every run of one record a thread past its test can go on, or waits for the write lock of a thread that can |
| ControlRecord.SafeIffCleanTest | src/components/FileClient.cpp:114-122 | tests and increments apart: a step keeps readers and writers apart, or no record erased under a thread counted in, in all clean continuations if and only if it is not a test made while a thread of the other side is past its own test |
| ControlRecord.CleanTestsKeepPolicy | src/components/FileClient.cpp:157-169 | for any number of threads, every run whose tests are clean keeps readers and writers apart, and erases no record under a thread counted in |
| ControlRecord.ReaderAndWriterTogether | src/components/FileClient.cpp:157-169 | five steps of two threads that put a reader and a writer inside together |
| ControlRecord.ErasedUnderReader | src/components/FileClient.cpp:276-305 | five steps of two threads after which FCLOSE has erased a record with a reader counted in |
| ControlRecord.AtomicEntryKeepsExclusion | README.MD:61-64 | whole runs of any number of threads in which nobody tests while another is between a test and what it is for keep the policy, FCLOSE's included |
| WorkerPool.ThreadsMan.TryThreadQuitting | src/threads/ThreadMan.cpp:13-25 | computes the counter step of a quitting worker in place |
| WorkerPool.ThreadsMan.SetActiveAndNotify | src/threads/ThreadMan.cpp:54-69 | computes in place the counter part of a worker's accepting a client |
| WorkerPool.ThreadsMan.NotActive | src/threads/ThreadMan.cpp:71-72 | computes in place the counter part of a worker's return from a callback |
| WorkerPool.FloorSafeIffTooSmallToClean | src/threads/ThreadMan.cpp:159-168 | for all settings: every interleaving from the start keeps one batch if and only if tMax is zero, or tIncr and tMax are one |
| WorkerPool.ThreadsMan.CreateThreads | src/main.cpp:107-121 | the creation loop counts one batch |
| WorkerPool.FloorIffSurplus | src/threads/ThreadMan.cpp:87-171 | for every interleaving from the start the pool keeps one batch if and only if every call of tryThreadQuitting finds a clean-up under way or more than one batch; then all counters are exact, tryThreadQuitting never refuses, and fewer than two batches and tMax threads exist |
| WorkerPool.AtomicDecisionsKeepFloor | src/threads/ThreadMan.cpp:107-113 | with test and call in one step the pool never falls below one batch |
| WorkerPool.FloorCanBeLost | src/threads/ThreadMan.cpp:159-168 | with the default settings a reachable state in which all four workers have quit |
| WorkerPool.StepKeepsInv | src/main.cpp:40-56 | every step, a call of tryThreadQuitting given a surplus, keeps the stock a whole number of batches, two at least during a clean-up, the switch on exactly then, and the active count equal to the workers in a callback |
| BatchOrders.BatchOrderedIff | src/main.cpp:42-50 | in every reachable state a batch is ordered exactly when the one before is complete, every worker that has not quit serves a client or there was a SIGHUP, and there are fewer workers than tIncr and tMax together |
| BatchOrders.CleanUpStartedIff | src/threads/ThreadMan.cpp:159-163 | in every reachable state a worker starts a clean-up exactly when more than tIncr + 1 of the counted workers are without a client |
| BatchOrders.RoundsOfQuits | src/threads/ThreadMan.cpp:13-25 | in every run the quits so far make whole rounds of tIncr but for what QuitingThreads says, the quit switch is on exactly in the middle of a round, and a worker that calls tryThreadQuitting quits |
| BatchOrders.WithoutClientsOneBatch | src/main.cpp:42-50 | a server without clients and SIGHUP never has more than one batch, and none of it quits |
| LineReader.ReadLineInto | src/Lib.cpp:4-24 | reads one line into the buffer: result, remaining stream and every cell of the buffer |
| LineReader.ReadAllConserves | src/Lib.cpp:4-24 | repeated calls terminate and reproduce the stream up to its first failing read, dropping only the line under way then |
| LineReader.ReadAllLines | src/Lib.cpp:8-23 | every line fits the bound, and only a newline, a full buffer or the end of the input ends one |
| LineReader.ReadLineTakes | src/Lib.cpp:4-24 | one call takes its characters from the stream and the newline only if that ended the line, which is then shorter than the bound |
| LineReader.FullLine | src/Lib.cpp:8-23 | a line of exactly the bound is read whole and without its newline, and the newline reads as an empty line before the rest |
| Text.Tokenize | src/Lib.cpp:71-84 | the extraction loop returns the words of the line |
| Text.TokensKeepEveryCharacter | src/Lib.cpp:71-84 | the tokens together are the line without its white space, in order |
| Text.TokensAreWords | src/Lib.cpp:79 | every token is non-empty and free of white space |
| Text.TokensOfLayout | src/Lib.cpp:71-84 | any word list laid out with any white space tokenizes back to that list |
| Text.PrintedIntReadsBack | src/components/FileClient.cpp:36-44 | a printed int is read back by atoi and stoi |
| Numerals.NumberIsRead | src/components/FileClient.cpp:36-44 | a number is read from white space, a sign or none, digits and any text that does not begin with a digit; without digits there is none |
| Numerals.NumberBecomes | src/components/FileClient.cpp:36-44 | atoi and stoi of such a number: itself if it is an int; out of range stoi fails and atoi keeps the low 32 bits of the number clamped to long |

## Left out

- Simulation.PeersFollowOrigin: stated for one origin whose clients send no SYNC commands, for messages that reach every peer on a line of at most 255 bytes, and for peers that can open the file; `Divergence` shows exactly what the other messages do.
- Simulation.ReadVerdict: stated for replies shorter than 256 bytes; a longer one fills the receive buffer without a terminator.
- DivergedVote.VerdictComparesNothing: stated, as `Simulation.ReadVerdict` is, for a sync line of at most 255 bytes and for replies shorter than 256.
- DescriptorSafety.FilesReadAndWrittenApart: leaves FSEEK out, which does not check its descriptor again after its wait and writes nothing.
- DescriptorSafety.SafeIffClean: does not bound descriptors by `INT_MAX`, and takes the system's grant and the registration as one step.
- DescriptorSafety.FilesApartIffNotStale: does not decide a stale grant to a file whose record an FCLOSE that came too late has marked as closing, which may be harmless because nobody can enter.
- DescriptorSafety.CloseFindsNobodyInside: holds with atomic entry only; `ControlRecord.ErasedUnderReader` shows what happens with separate steps, and `DescriptorSafety.StaleReuseHappens` after a stale grant.
- ControlRecord.CountersAreExact: covers a record until FCLOSE erases it; threads that still hold a reference then are outside.
- WorkerPool.FloorIffSurplus: covers runs between restarts; `RestThreadsCounters` resets neither `QuitingThreads` nor the quit switch.
- WorkerPool.ThreadsMan.TryThreadQuitting: takes the call as one step; callers interleaved inside it are not modelled.
- Messages to the wrong peer: src/main.cpp:340-341 captures the loop variable by reference in the asynchronous call, so with two or more peers a message can go twice to one and not at all to another; here each goes to its own peer, at most once.
- Overlapping client requests in replica mode: in `Simulation`, `Divergence`, `PeerLag` and `ClusterRuns` one request is served, with its messages, before the next begins, so two workers whose sync lines leave in another order than their local writes are not covered.
- Peers with peers: a peer serves what it is sent as a server without peers. SYNC commands are never passed on; a piece of an over-long line that reads as another command would be.
- Wake-ups: condition variables are modelled by their predicates; liveness and fairness are not.
- Raw pointers: `Tokenize` and the SYNC operations are modelled on the strings they mean, not on the character buffers they allocate or borrow; references to erased control records likewise.
- The buffer of FREAD on the stack (src/components/FileClient.cpp:176), which a huge length overflows: that an operation does not wait for ever does not mean that it returns.
- NUL bytes in a request line, where `std::string(req)` would cut it, and overflow of a file offset.
- Aliases of a file (two paths to it), directories and devices; other processes changing the disk.
- Sockets, poll, accept, time-outs, the welcome message, logging, debug delays, option parsing, daemonizing.
- The shell server and `ShellClient`.
- Signal handlers, except `CleanUp` as a step between requests.
- Exceptions that leave a callback on a worker thread, which skip `notActive`; the callback is assumed to return.
- The `SSocksRef` list and the logging branch of `notActive`.

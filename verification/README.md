# omniEvents: model and proofs

omniEvents is an event channel server. Suppliers push events into a channel or are pulled
for them, and the channel pushes them on to its consumers. The server keeps its state in a
log that it appends to and from time to time replaces by a snapshot. The log also brings
it back after a crash. This project models the parts of the server, and of the programs
beside it, that hold the harder promises, and proves what those parts promise.

One module stands in one file (`Wrappers` holds the option type):

- `Text`, `PersistTree`, `PersistFormat`, `PersistPrint`, `PersistImage`, `PersistTrip`: the
  log as text. Words and comments of the stream, the tree of paths and attributes, the
  reader as a fold over words, the records that are written, the printed tree, and what
  can come out of reading. Trees refine prefix-closed maps from paths to attributes;
  printing and reading are inverse on exactly the trees that fit the format.
- `PersistNode`: the same tree as linked nodes changed in place, the loops that read the
  stream and the recursion that prints it.
- `EventLog`, `ServerRuns`, `ServerEffects`: the live state (channels, and in each the
  connections of four kinds), its records and snapshots, runs of the server, and what each
  event does to the live state and to the file. The log always says the live state. When
  does a restart bring it all back?
- `Checkpoint`: the files of the log as names for inodes, the calls that replace the
  active file, a crash or failure at any of them, and start-up.
- `EventQueue`: the ring buffer and its readers.
- `Pipeline`, `Channel`: a channel as a state machine over the ring, the suppliers' local
  queue, the proxies and the worker thread, and the objects whose methods do its steps.
- `Getopt`: the in-place permutation of argv, with the block rotation it rests on.
- `ServantLocator`, `PullConsumer`, `NextPull`, `OrbRun`, `Naming`, `MakeDeps`: smaller
  state machines, and loops over text and graphs.

Objects whose methods update fields are classes, loops are loops, and each method is
proved against a function or a step of a state machine, about which the lemmas then speak.
Answers of remote objects, clocks, the file system's inode numbers and the order in which
containers are walked are parameters of the steps, so every statement holds for all of them.

## What the proofs found

- `ProxyPushSupplier_i::reincarnate` sets its target but not the string that it prints. A
  push consumer that stays connected through two restarts is lost by the second. A pull
  consumer that connects without a reference is lost by the first.
  `ServerRuns.RestartKeepsClientsIff` says exactly when a restart loses a client.
- If a crash leaves the checkpoint name on the active file, the next checkpoint empties the
  log by opening the checkpoint file. `Checkpoint.SafeIffNotAliased` shows that this is the
  only way to lose the state, `Checkpoint.AliasOnlyWhileLinked` that only dying between one
  pair of calls can leave the name there, and `Checkpoint.AliasArises` that it can happen to
  every server.
- Connecting a client to a proxy that has a backlog does not wake the worker thread.
  `Pipeline.AsleepStaysRightIff` shows that every other step is right.
- At the end of the stream the word buffer keeps the last word, which is applied once more
  unless it closed a record. The last word of a log may be a deletion, and deleting twice
  is deleting once (`PersistTree.DelIdempotent`).
- A record whose name begins with a slash, or with ";;" and a slash, is read but does not
  survive printing and reading again (`PersistTrip.ReadPrintReadIff`).
- A name that is not found in the search path may be the path of another file. The
  dependency generator then may skip that file; `MakeDeps.RunMissesIff` says exactly when a
  run misses something, `MakeDeps.OverlapLoses` that it happens.

## Model

| member | source | states |
|---|---|---|
| `Text.SplitJoin` | src/PersistNode.cc:99-118 | a path written with slashes is taken apart into the same components, if none has a slash in it |
| `PersistTree.PrefixClosed` | src/PersistNode.cc:99-118 | the paths of a tree are closed under prefixes, so a tree is a prefix-closed map from paths to attributes |
| `PersistTree.Extensional` | src/PersistNode.cc:99-137 | two trees that map all paths alike are the same tree |
| `PersistTree.LookupPut` | src/PersistNode.cc:99-118 | a record replaces exactly the paths that extend the one given: the leaf is as new, missing branches are made bare, every other path is as before |
| `PersistTree.LookupDel` | src/PersistNode.cc:120-137 | deletion removes exactly the paths that extend the one given and leaves all others |
| `PersistTree.DelIdempotent` | src/PersistNode.cc:120-137 | deleting twice is deleting once |
| `PersistTree.DelDelCommute` | src/PersistNode.cc:120-137 | deletions commute, whatever the paths |
| `PersistTree.PutPutCommute` | src/PersistNode.cc:99-118 | records commute where neither path is a prefix of the other |
| `PersistTree.PutDelCommute` | src/PersistNode.cc:99-137 | a record and a deletion commute where neither path is a prefix of the other |
| `PersistTree.PutOverwrites` | src/PersistNode.cc:99-118 | a second record for a path leaves no trace of the first |
| `PersistTree.LookupSetAttrs` | src/PersistNode.cc:139-143 | adding attributes changes one path |
| `PersistFormat.LexOp` | src/ProxyManager.cc:179-231 | the words of a written record or deletion are read back, whatever text follows |
| `PersistFormat.RunRecord` | src/PersistNode.cc:68-97 | reading a record puts a leaf with its attributes, whatever records follow |
| `PersistFormat.RunErase` | src/PersistNode.cc:68-97 | reading a deletion deletes the subtree, and the word left over at the end of the file does no harm |
| `PersistFormat.Replay` | src/PersistNode.cc:68-97 | reading a written log applies its records in order |
| `PersistFormat.ReplaysAppend` | src/ProxyManager.cc:189-231 | appending records to a file that replays to a tree gives a file that replays to that tree with the records applied |
| `PersistFormat.OpsWordsConcat` | src/PersistNode.cc:68-97 | the words of two lists of records are those of one list |
| `PersistFormat.WithAttrMeans` | src/PersistNode.cc:139-143 | the key is what stands before the first equals sign, the value what stands behind it; a word without one is a key with an empty value |
| `PersistNodes.PersistNode.AddNode` | src/PersistNode.cc:99-118 | in place, in a tree of nodes: the node returned is the one at the path, and the tree is the old one with that leaf made new |
| `PersistNodes.PersistNode.DelNode` | src/PersistNode.cc:120-137 | in place: the tree is the old one without that subtree |
| `PersistNodes.PersistNode.ReadNode` | src/PersistNode.cc:68-97 | the loop over the stream leaves the tree that the words say |
| `PersistNodes.PersistNode.Read` | src/PersistNode.cc:34-37 | constructing from a stream gives the parse of its text |
| `PersistNodes.PersistNode.AddAttrTo` | src/PersistNode.cc:139-143 | one attribute of one node deep in the tree is set and nothing else changes |
| `PersistNodes.PersistNode.Output` | src/PersistNode.cc:45-66 | what is printed is the text of the tree |
| `PersistNodes.ReadToken` | src/PersistNode.cc:85-97 | one more word is read, comments to the end of the line being skipped |
| `PersistNodes.IStream.Extract` | src/PersistNode.cc:85-97 | the next word of the stream, or the end of it |
| `PersistPrint.RoundTrip` | src/PersistNode.cc:45-143 | the reader rebuilds any tree without root attributes, whose names and attributes fit the format, from what output() prints |
| `PersistPrint.TreeLogSafe` | src/PersistNode.cc:45-66 | the text of a tree is the text of a log of one record for each node |
| `PersistPrint.ApplyTree` | src/PersistNode.cc:45-137 | applying those records to any tree grafts the tree that was printed |
| `PersistPrint.SortedAscends` | src/PersistNode.cc:45-66 | attributes and children are printed in ascending order of their keys |
| `PersistImage.ReadWordsReadable` | src/PersistNode.cc:68-143 | whatever words are read, attributes and names below the first level fit the format, and the root has no attributes |
| `PersistImage.ReadIsPrintable` | src/PersistNode.cc:34-143 | what is read from any file is a tree that can be printed if and only if no child of the root is named with the empty string or ";;" |
| `PersistTrip.TextIsBlocks` | src/PersistNode.cc:45-66 | the printed text of any tree is that of one block for each node |
| `PersistTrip.LexBlocks` | src/PersistNode.cc:85-97 | its words are read back, names that begin as comments included |
| `PersistTrip.RunBlocks` | src/PersistNode.cc:68-97 | what the reading makes of them, names that are read as comments, deletions or the end included |
| `PersistTrip.RoundTripIff` | src/PersistNode.cc:34-143 | any tree at all is rebuilt from what output() prints if and only if its root has no attributes and its names and attributes fit the format |
| `PersistTrip.ReadPrintReadIff` | src/PersistNode.cc:34-143 | whatever file was read, printing the tree and reading that gives it again if and only if no child of the root is named with the empty string or ";;" |
| `PersistTrip.NamelessDiffers` | src/PersistNode.cc:45-97 | a tree with a nameless child of the root does not come back |
| `PersistTrip.MarkDiffers` | src/PersistNode.cc:45-97 | nor does one with a child named ";;" |
| `PersistTrip.NamelessVanishes` | src/PersistNode.cc:45-66 | a nameless child of any root is printed as if its children were the root's |
| `PersistTrip.NothingIsReadAfter` | src/PersistNode.cc:68-83 | a record named ";;" ends the reading, whatever is printed before and after it |
| `PersistTrip.LastWordTwice` | src/PersistNode.cc:68-97 | a file that ends in a name makes that word an attribute of the node it has named |
| `EventLog.SnapshotRepresents` | src/EventChannelFactory.cc:325-333 | the records of a snapshot, applied to nothing, give a tree that says the live state |
| `EventLog.PutConn` | src/ProxyManager.cc:201-231 | the record of a connection changes what the log says by that connection and nothing else |
| `EventLog.DelConn` | src/ProxyManager.cc:189-199 | the deletion of a key takes that connection, and no other, out of what the log says |
| `EventLog.PutChannel` | src/EventChannel.cc:172-178 | the record of a channel makes the log say a channel with these properties and no connections |
| `EventLog.DelChannel` | src/EventChannel.cc:190-197 | the deletion of a channel takes it and all its connections out of what the log says |
| `EventLog.PutChannelLog` | src/EventChannel.cc:289-298 | the records of a whole channel make the log say that channel, whatever it said before |
| `EventLog.RepresentUnique` | src/EventChannelFactory.cc:325-333 | two trees that say the same live state differ in bare branches only |
| `ServerRuns.StepKeepsInv` | src/ProxyPushConsumer.cc:34-98 | each change of the live state appends what keeps the log saying the live state: create, destroy, connect, disconnect, the answer to the question whether the client is a proxy, checkpoint and restart |
| `ServerRuns.RunKeepsInv` | src/EventChannel.cc:175-199 | so does every run |
| `ServerRuns.LogIsSnapshot` | src/omniEventsLog.cc:426-431 | in every state of every run, reading the log gives the tree that a snapshot of the live state would print, up to bare branches |
| `ServerRuns.CheckpointStarts` | src/omniEventsLog.cc:426-496 | a snapshot alone says the live state |
| `ServerRuns.UnloggedAnswer` | src/ProxyPushConsumer.cc:361-389 | an answer that the client is no proxy needs no record |
| `ServerRuns.RecoverExact` | src/EventChannelFactory.cc:59-78 | a restart finds exactly the live state that was printed |
| `ServerRuns.RestoreConnExact` | src/ProxyManager.cc:60-85 | what is found of a connection depends on its printed reference and flag only |
| `ServerRuns.AtolDec` | src/PersistNode.cc:145-170 | a number printed as an attribute is read back |
| `ServerRuns.RestartKeepsClientsIff` | src/ProxyPushSupplier.cc:404-459 | a restart keeps every client if and only if no push supplier has been through a restart before and no pull supplier has a client without a reference |
| `ServerRuns.SecondRestartForgets` | src/ProxyPushSupplier.cc:404-459 | a push consumer that stays connected through two restarts is forgotten by the second, because the first does not keep its printed reference |
| `ServerEffects.ConnInFile` | src/ProxyPushConsumer.cc:380-389 | a connection is in the file if and only if it is live, at its place, with the reference that its proxy prints and the mark of a proxy |
| `ServerEffects.ChannelInFile` | src/EventChannel.cc:289-298 | a channel is in the file if and only if it is live, with its properties |
| `ServerEffects.EcfInFile` | src/EventChannelFactory.cc:325-333 | the factory is in the file with its port and end point |
| `ServerEffects.CreateDoes` | src/EventChannel.cc:172-178 | a new channel has its properties and no connection, live and in the file; nothing else changes |
| `ServerEffects.DestroyDoes` | src/EventChannel.cc:190-197 | the channel and its connections are gone, live and from the file; nothing else changes |
| `ServerEffects.ConnectDoes` | src/ProxyPushConsumer.cc:34-68 | an accepted client is connected, awaits an answer if its kind is asked, and is in the file with its reference; nothing else changes |
| `ServerEffects.DisconnectDoes` | src/ProxyPushConsumer.cc:71-98 | the client is gone, live and from the file; nothing else changes |
| `ServerEffects.AnswerDoes` | src/ProxyPushConsumer.cc:361-389 | an awaited answer makes the client a proxy if and only if it says so, live and in the file |
| `ServerEffects.CheckpointDoes` | src/omniEventsLog.cc:426-431 | the live state stays as it is and the file says the records of its snapshot |
| `ServerEffects.RestoreMeans` | src/ProxyPushSupplier.cc:404-459 | what a record of a connection makes of it: nothing without a reference, else a proxy with that client |
| `ServerEffects.RecoverDefaults` | src/EventChannelFactory.cc:59-78 | the port and end point that a file without them stands for, and its channels |
| `ServerEffects.RestartDoes` | src/ProxyManager.cc:60-85 | which clients a restart keeps, with what; properties, port and end point stay |
| `ServerEffects.StepConnects` | src/ProxyManager.cc:189-231 | after any event a client is connected if and only if the event made the connection, or it was there and the event did not end it |
| `ServerEffects.ConnectedIff` | src/ProxyManager.cc:189-231 | in every state of every run, a client is connected if and only if it was from the start, or a connect was accepted, and no disconnect, destruction or forgetting restart came since |
| `ServerEffects.ConnRecords` | src/ProxyManager.cc:179-231 | the text of the record of a connection, of its deletion and of that of a channel |
| `Checkpoint.DoKeepsGood` | src/omniEventsLog.cc:472-595 | every step of the checkpoint, every failure, every logged change and every later restart keeps the invariant of the files |
| `Checkpoint.CrashIsSafe` | src/omniEventsLog.cc:472-595 | wherever a run is cut off, the state is whole in the active file, or in the backup while there is no active file; start-up then recovers it or refuses, and never starts from nothing |
| `Checkpoint.NotNeededMeansUnchanged` | src/omniEventsLog.h:243-256 | when no checkpoint is needed, the log is still the last snapshot |
| `Checkpoint.AliasOnlyWhileLinked` | src/omniEventsLog.cc:560-578 | the checkpoint name is left on the active file only by a death or failure between the last two calls of the swap |
| `Checkpoint.DyingLeavesAlias` | src/omniEventsLog.cc:560-578 | dying there does leave it, and a server started again on these files has it too |
| `Checkpoint.AliasArises` | src/omniEventsLog.cc:472-578 | from every safe start there is a run at whose end dying leaves it |
| `Checkpoint.AliasedBeginLoses` | src/omniEventsLog.cc:479-490 | if it is there at the start, opening the checkpoint file empties the log |
| `Checkpoint.SafeIffNotAliased` | src/omniEventsLog.cc:433-598 | all runs from a started server are safe at every step if and only if the checkpoint name does not name the active file at the start |
| `Checkpoint.SwapLeaves` | src/omniEventsLog.cc:472-595 | after every completed checkpoint the backup is the log as it stood when that began, the active file holds the snapshot of that moment, there is no third name and no other file has changed |
| `Checkpoint.RunUnderway` | src/omniEventsLog.cc:530-580 | what the names and the files are after each call of a checkpoint |
| `Checkpoint.PreparingFails` | src/omniEventsLog.cc:503-515 | preparing that fails takes the checkpoint name away and nothing else |
| `Checkpoint.SwapFails` | src/omniEventsLog.cc:530-580 | a failing call of the swap changes no file and ends the process, but for the removal of the backup |
| `Checkpoint.LogDoes` | src/omniEventsLog.h:243-256 | an event is logged to the open file and no other, and asks for a checkpoint if it has written anything |
| `Checkpoint.StartUpIs` | src/main.cc:157-198 | start-up takes the active file if it is a log of a factory with a port, refuses to start from a backup alone, and makes a new state if and only if there is neither |
| `Checkpoint.EventsLog.Pass` | src/omniEventsLog.cc:455-597 | one pass of the loop, with any call failing, is a run of these steps; it ends in exit or back at the top; then the snapshot is active and the old log the backup, or, if preparing failed, only the checkpoint name is gone |
| `Checkpoint.EventsLog.Prepare` | src/omniEventsLog.cc:472-515 | the checkpoint file holds the whole snapshot; or, if it could not be opened, or written at any place, its name is gone again |
| `Checkpoint.EventsLog.Commit` | src/omniEventsLog.cc:517-595 | the swap of the names, in the order of the calls, changes no file; if the process goes on, the checkpoint file is active and the active file the backup |
| `EventQueues.SlotIsMod` | src/EventQueue.h:79-87 | the slot of an index is the index modulo the size of the ring |
| `EventQueues.EventQueue.constructor` | src/EventQueue.cc:43-55 | an empty ring with one slot more than its length |
| `EventQueues.EventQueue.Append` | src/EventQueue.h:79-87 | the history grows by the event if and only if the filter keeps it, the ring holding the latest of the history; the event overwritten is deleted |
| `EventQueues.EventQueue.Destroy` | src/EventQueue.cc:57-68 | after the destructor every kept event has been deleted exactly once |
| `EventQueues.Reader.constructor` | src/EventQueue.cc:70-76 | a reader starts at the next event |
| `EventQueues.Reader.MoreEvents` | src/EventQueue.cc:78-82 | there are more events if and only if the number of unread ones is not a multiple of the size |
| `EventQueues.Reader.NextEvent` | src/EventQueue.cc:84-90 | the event read is the one that many whole rings ahead of the reader as the unread events make |
| `EventQueues.NextIndexInWindow` | src/EventQueue.cc:84-90 | that event is in the ring, in the slot the reader looks at |
| `EventQueues.DeliveredInOrder` | src/EventQueue.cc:78-90 | for every interleaving of appends and guarded reads, the indices delivered increase, and what is skipped between two of them is a multiple of the size |
| `EventQueues.NothingLostIff` | src/EventQueue.cc:78-90 | a reader gets every event if and only if it never has a ring of unread events before it |
| `EventQueues.OvertakenOnce` | src/EventQueue.cc:78-90 | a whole ring of unread events looks like none, and the next event skips it |
| `Pipeline.PipelineIsFifo` | src/ProxyPushConsumer.cc:102-113 | over every run, the events handed to the ring and then those in the local queue are all arrivals, each once, in order; without the local queue in use it is empty |
| `Pipeline.SentInOrder` | src/ProxyPushSupplier.cc:321-376 | what a proxy has sent is an ordered selection, without repetition, of the arrivals that the filter keeps, and at most one request is unanswered |
| `Pipeline.SendsOnlyToClient` | src/ProxyPushSupplier.cc:321-376 | a proxy sends only when it is triggered, has a client and has no request outstanding |
| `Pipeline.TriggerSendsIff` | src/ProxyPushSupplier.cc:321-376 | a trigger sends if and only if there is a client, no request is open once the answer is taken, and the backlog is not a number of whole rings |
| `Pipeline.TriggerSendsNext` | src/ProxyPushSupplier.cc:364-376 | it sends the one event of the ring that is whole rings ahead, which is the next one if the backlog is less than a ring |
| `Pipeline.TriggerElse` | src/ProxyPushSupplier.cc:321-376 | otherwise it reads nothing; an answer closes the request, a failure also the connection |
| `Pipeline.TriggerFlags` | src/ProxyPushSupplier.cc:321-376 | what the two flags say |
| `Pipeline.SentInLaps` | src/ProxyPushSupplier.cc:364-376 | over every run, events sent one after the other are next to each other in the ring's history, or whole rings apart in addition |
| `Pipeline.SendsAll` | src/ProxyPushSupplier.cc:364-376 | a proxy that never falls a ring behind has sent every event the ring has taken, from where it was made to where it is, in order |
| `Pipeline.PushDoes` | src/ProxyPushConsumer.cc:102-113 | in real-time mode the first event of a cycle goes to the ring at once, any other to the local queue |
| `Pipeline.TransferDoes` | src/SupplierAdmin.cc:105-135 | the ring is given the local queue and then what was pulled |
| `Pipeline.ProxyStepsDo` | src/ProxyPushSupplier.cc:250-300 | what making, connecting, disconnecting and dropping a proxy changes |
| `Pipeline.ScanStepsDo` | src/ProxyPushSupplier.cc:155-196 | a scan looks at every proxy; afterwards the worker goes on, waits for a time or sleeps, as the flags say |
| `Pipeline.AsleepStaysRightIff` | src/ProxyPushSupplier.cc:155-196 | a worker asleep with nothing to do stays so, or is woken, at every step if and only if the step is not the connection of a client to a proxy with a backlog |
| `Pipeline.SleepsOnlyWhenQuiet` | src/ProxyPushSupplier.cc:155-196 | while the worker sleeps without a time limit, no proxy with a client has a request or an event pending, unless a client connected late since the scan began |
| `Pipeline.RunOk` | src/EventChannel.cc:229-253 | these invariants hold in every state of every run |
| `Pipeline.KeptAscending` | src/ConsumerAdmin.cc:100-116 | the history of the ring is an ordered selection of the arrivals |
| `Channel.ConsumerAdmin.Send` | src/ConsumerAdmin.cc:100-105 | one event goes to the ring |
| `Channel.ConsumerAdmin.SendAll` | src/ConsumerAdmin.cc:107-116 | all events of the list go to the ring in order, and the list is empty |
| `Channel.SupplierAdmin.Push` | src/ProxyPushConsumer.cc:102-113 | objects that agree with a state of the pipeline agree with the state after a push; on either path the event comes last of the arrivals |
| `Channel.SupplierAdmin.Collect` | src/SupplierAdmin.cc:105-135 | the list handed over is the local queue and then what was pulled, and nothing is left |
| `Channel.SupplierAdmin.Transfer` | src/EventChannel.cc:236-246 | they agree with the state after a transfer; the ring has been given every arrival in order |
| `Channel.ProxyPushSupplier.Trigger` | src/ProxyPushSupplier.cc:321-376 | the new state and the two flags are those of the state machine; it sends if and only if there is a client, no open request and something to read, and then the next event if less than a ring is unread; if neither flag is set there is nothing to do |
| `Channel.Scan` | src/ProxyPushSupplier.cc:163-174 | the scan is the triggers of the state machine, one for each proxy, and its flags are the worker's; if neither is set at the end, no proxy with a client has a request or an event pending |
| `Channel.ScanStep` | src/ProxyPushSupplier.cc:163-174 | one trigger changes one proxy and the worker |
| `Getopt.SwapBlocks` | examples/java/gnu/getopt/Getopt.java:803-809 | two blocks of the same length change places and nothing else moves |
| `Getopt.Exchange` | examples/java/gnu/getopt/Getopt.java:788-836 | the two segments change places, each in its order, and nothing else moves; the fields say where they are now |
| `Getopt.ShortBottom` | examples/java/gnu/getopt/Getopt.java:797-813 | after a swap with the bottom segment the shorter, what is still to be rotated gives the same result |
| `Getopt.ShortTop` | examples/java/gnu/getopt/Getopt.java:814-830 | and with the top segment the shorter |
| `Getopt.FindLongMeans` | examples/java/gnu/getopt/Getopt.java:863-890 | a long option is found by its own name, or else by an abbreviation of one name only |
| `Getopt.FindLongNone` | examples/java/gnu/getopt/Getopt.java:863-890 | none is found if and only if the name abbreviates none |
| `Getopt.Getopt.SearchLong` | examples/java/gnu/getopt/Getopt.java:863-890 | the loop over the long options finds that option, or that there are several, or none |
| `Getopt.Getopt.CheckLongOption` | examples/java/gnu/getopt/Getopt.java:849-994 | answer, argument, rest of the element and steps over elements are those of the decoding of one long option; or it is not handled and nothing has changed |
| `Getopt.Getopt.ShortOption` | examples/java/gnu/getopt/Getopt.java:1159-1333 | the same for one short option |
| `Getopt.Getopt.Permute` | examples/java/gnu/getopt/Getopt.java:1025-1040 | operands passed before the last options are brought next to optind |
| `Getopt.Getopt.PassOperands` | examples/java/gnu/getopt/Getopt.java:1042-1049 | operands are passed, and everything passed keeps its order |
| `Getopt.Getopt.DoubleDash` | examples/java/gnu/getopt/Getopt.java:1055-1067 | "--" counts as an option and everything after it as an operand |
| `Getopt.Getopt.NextElement` | examples/java/gnu/getopt/Getopt.java:1023-1099 | the scan comes to the next option, or to the end with argv sorted out |
| `Getopt.Getopt.GetOpt` | examples/java/gnu/getopt/Getopt.java:1015-1334 | each call gives the next of the answers that a reading from left to right would give, or, when there are none left, argv sorted out |
| `Getopt.ScanAll` | examples/java/gnu/getopt/Getopt.java:1015-1334 | the whole scan terminates; its answers are those of a reading from left to right that moves nothing, and argv is the elements that belong to options in order and then the operands in order, with optind between them |
| `Getopt.PermutedMeans` | examples/java/gnu/getopt/Getopt.java:1069-1079 | that is a permutation of the arguments given |
| `Getopt.Clustered` | examples/java/gnu/getopt/Getopt.java:1159-1170 | options without arguments may be written together |
| `Getopt.JoinedArgument` | examples/java/gnu/getopt/Getopt.java:1263-1330 | the argument of a short option may stand behind it or be the next element |
| `Getopt.JoinedLongArgument` | examples/java/gnu/getopt/Getopt.java:918-965 | the argument of a long option may stand behind an equals sign or be the next element |
| `Getopt.OperandAnswer` | examples/java/gnu/getopt/Getopt.java:1042-1067 | what is no option is passed over, and two dashes end the options |
| `Getopt.ArgMeans` | examples/java/gnu/getopt/Getopt.java:1166-1170 | the first occurrence of a character in the option string decides, by the colons behind it |
| `Getopt.ArgUnknown` | examples/java/gnu/getopt/Getopt.java:1173-1196 | a colon, or a character that does not occur, is no option |
| `Getopt.ShortAnswer` | examples/java/gnu/getopt/Getopt.java:1159-1333 | the answer to every short option: plain, required or optional argument, joined or not, missing, unknown; and what is read next |
| `Getopt.ShortTakes` | examples/java/gnu/getopt/Getopt.java:1159-1333 | the elements that it takes |
| `Getopt.DashedGroup` | examples/java/gnu/getopt/Getopt.java:1093-1098 | without long options two dashes open a group as one does |
| `Getopt.LongAnswer` | examples/java/gnu/getopt/Getopt.java:849-994 | the answer to every long option without an equals sign: its value, or 0 if it has a flag; its argument from the next element; missing, unknown and ambiguous |
| `Getopt.LongAnswerWith` | examples/java/gnu/getopt/Getopt.java:912-965 | and to every one with an equals sign |
| `Getopt.LongTakes` | examples/java/gnu/getopt/Getopt.java:965-975 | the elements that it takes |
| `Getopt.LongTakesOne` | examples/java/gnu/getopt/Getopt.java:912-920 | one with an equals sign takes one |
| `ServantLocator.DoKeepsInv` | src/IteratorSupport.cc:142-203 | every operation keeps each reference count equal to the references of creators, entries and open invocations |
| `ServantLocator.NeverUsedAfterDeletion` | src/IteratorSupport.cc:142-203 | over every interleaving, a servant is deleted if and only if nobody holds it, and at most once |
| `ServantLocator.HolderIsPositive` | src/IteratorSupport.cc:142-161 | whoever holds a reference has a live servant |
| `ServantLocator.RegisterDoes` | src/IteratorSupport.cc:172-188 | a registered object has the entry that was asked for |
| `ServantLocator.PreinvokeDoes` | src/IteratorSupport.cc:142-161 | an invocation touches the entry, or ends it if it is the one that destroys, and holds the servant |
| `ServantLocator.OthersDo` | src/IteratorSupport.cc:163-203 | the other steps give up one reference of one holder |
| `ServantLocator.SweptAll` | src/IteratorSupport.cc:190-203 | what is left of the map is the entries no older than their time to live |
| `ServantLocator.GCServantLocator.RegisterServant` | src/IteratorSupport.cc:172-188 | an object that is active is refused; otherwise the entry is made, with a reference |
| `ServantLocator.GCServantLocator.PreInvoke` | src/IteratorSupport.cc:142-161 | what is handed out is alive and held for the invocation; the destroy operation takes over the reference of the entry |
| `ServantLocator.GCServantLocator.PostInvoke` | src/IteratorSupport.cc:163-170 | the reference of the invocation is dropped |
| `ServantLocator.GCServantLocator.GcSweep` | src/IteratorSupport.cc:190-203 | exactly the entries whose age exceeds their time to live are dropped |
| `ServantLocator.GCServantLocator.Destructor` | src/IteratorSupport.cc:131-140 | all entries are dropped; if nobody else holds a servant, all are deleted |
| `PullConsumer.DoKeepsInv` | src/ProxyPullConsumer.cc:170-260 | the fields say what the history of answers says |
| `PullConsumer.GivesUpIff` | src/ProxyPullConsumer.cc:170-239 | a supplier is given up if and only if its last four answers were exceptions, and is asked nothing afterwards |
| `PullConsumer.BothWereTried` | src/ProxyPullConsumer.cc:170-239 | those four were two pulls and two try_pulls, in turn |
| `PullConsumer.OneAtATime` | src/ProxyPullConsumer.cc:170-260 | at most one request is unanswered, and the events of the answers, each once and in order, are those taken and those queued |
| `PullConsumer.CollectDoes` | src/ProxyPullConsumer.cc:170-239 | an answer closes the request, and its event is queued if and only if the request was a pull that returned or a try_pull that returned with an event |
| `PullConsumer.TriggerDoes` | src/ProxyPullConsumer.cc:241-260 | a request is sent if and only if there is a supplier and none is open, and it is the one whose turn it is |
| `PullConsumer.OthersDo` | src/ProxyPullConsumer.cc:114-129 | what connecting and taking the queue change |
| `PullConsumer.EventsAre` | src/ProxyPullConsumer.cc:170-260 | over whole runs, the events taken and queued are those of the answers that carry one, in order |
| `PullConsumer.ProxyPullConsumer.Pickup` | src/ProxyPullConsumer.cc:170-239 | the method does what the step does |
| `PullConsumer.ProxyPullConsumer.Trigger` | src/ProxyPullConsumer.cc:241-260 | the method does what the step does |
| `NextPull.PairOrderIsTimeOrder` | src/SupplierAdmin.cc:117-119 | the order of pairs is the order of times while nanoseconds stay below one billion |
| `NextPull.AddPeriodAdds` | src/SupplierAdmin.cc:124-126 | one round of the loop adds one period and keeps nanoseconds below one billion |
| `NextPull.MovedByTheLeast` | src/SupplierAdmin.cc:123-127 | the number of periods added is the least positive one that passes the time |
| `NextPull.ZeroPeriodStays` | src/SupplierAdmin.cc:123-127 | with a period of zero the loop would not end |
| `NextPull.PullTimer.constructor` | src/SupplierAdmin.cc:65-70 | the deadline is set only if the retry period is longer than a cycle, hence positive |
| `NextPull.PullTimer.Due` | src/SupplierAdmin.cc:109-128 | a pull is due if there is no deadline or it has passed, and then it moves past the time |
| `NextPull.PullTimer.MoveOn` | src/SupplierAdmin.cc:122-127 | the loop terminates, with the deadline moved on by the least positive number of periods |
| `OrbRun.PollSplits` | src/Orb.cc:137-181 | a poll splits the list into what it keeps and what it answers, and the callbacks likewise |
| `OrbRun.DoKeepsInv` | src/Orb.cc:125-217 | entries and references are conserved by every step |
| `OrbRun.ReferencesBalance` | src/Orb.cc:190-217 | once run() has returned, every reference taken has been dropped as often as it was taken |
| `OrbRun.ReleasedOnce` | src/Orb.cc:125-200 | every request put on the list before run() returns is answered or drained once |
| `OrbRun.LateStayForever` | src/Orb.cc:203-217 | a request added after that is never released |
| `OrbRun.CalledOnSuccess` | src/Orb.cc:148-164 | a callback is called for a request as often as that was answered with success |
| `OrbRun.CalledAtMostOnce` | src/Orb.cc:125-200 | so at most once for a request put on the list once |
| `OrbRun.AddDoes` | src/Orb.cc:203-217 | a request comes last, with its callback and a reference taken for it before shutdown, and without after |
| `OrbRun.PollOne` | src/Orb.cc:137-181 | one request: it stays if nothing has arrived, and else is answered as it was; a callback is called for a success only |
| `OrbRun.PollEach` | src/Orb.cc:137-181 | and so for each request of a list, in order |
| `OrbRun.OthersDo` | src/Orb.cc:183-201 | what a poll, the dropping of references, shutdown and the drain change |
| `OrbRun.Orb.PollAll` | src/Orb.cc:137-181 | the loop that erases as it goes does what a poll does, and calls the callbacks in order |
| `OrbRun.Orb.DropUsedCallbacks` | src/Orb.cc:186-190 | the references of used callbacks are dropped, each once, in order |
| `OrbRun.Orb.DrainAll` | src/Orb.cc:193-201 | the rest of the list is released in order, without calling back |
| `OrbRun.Orb.DeferredRequest` | src/Orb.cc:203-217 | the request comes last; after shutdown its callback is neither held nor called |
| `Naming.Str2Name` | src/naming.cc:119-146 | the loop terminates, never indexes an empty name, and gives the parse of the string |
| `Naming.Print` | src/naming.cc:104-116 | what is written is the text of the name |
| `Naming.RoundTripIff` | src/naming.cc:104-146 | a name is read back from its text if and only if its ids are not empty and nothing in it is a separator |
| `Naming.ReadPrintRead` | src/naming.cc:104-146 | any string reads as a name that prints and reads as itself |
| `Naming.SeparatorDecides` | src/naming.cc:119-146 | it is the separator right behind a piece that decides what the next piece is, whatever other separators stand around |
| `Naming.TwoPieces` | src/naming.cc:119-146 | of two pieces the second is a kind if a dot stands right behind the first, else an id |
| `MakeDeps.VisitsWhatIsIncluded` | auto/makedeps.py:48-59 | in whatever order files are taken, what is visited in the end is exactly what is included in one or more steps, if no name met from the source that is not found is also found as a path |
| `MakeDeps.VisitsOnlyIncluded` | auto/makedeps.py:48-59 | only what is included is visited, and is noted with a file that includes it, in any case |
| `MakeDeps.RunMissesIff` | auto/makedeps.py:48-59 | a finished run misses something that is included if and only if it took a file for visited without reading it and that file includes something unseen |
| `MakeDeps.NotedFirstIsNeverRead` | auto/makedeps.py:105-114 | a file noted as missing before it is found is never read from then on |
| `MakeDeps.VisitSettles` | auto/makedeps.py:54-58 | each round settles one more of the finitely many paths |
| `MakeDeps.OverlapLoses` | auto/makedeps.py:105-114 | there is such a run |
| `MakeDeps.MakeDep.ReadFile` | auto/makedeps.py:78-115 | the loop over the lines of one file |
| `MakeDeps.MakeDep.Process` | auto/makedeps.py:48-59 | the loop terminates on every graph and misses something if and only if a file was skipped; it fails only if the source or a file found from it cannot be opened |

## Left out

Assumptions of the model:

- A connect or disconnect and its record are one step, as is a channel's removal and its record; so is a restart with the records that the restored channels write again. The record that a reincarnated pull proxy writes for itself in addition is not modelled.
- Only connections count as live state. Proxies that exist without a client are not printed in the model.
- The answer to "are you a proxy" only comes while the connection is still there.
- A client connects to a pull proxy once. When the proxy gives its supplier up, its object is deactivated.
- Names and values have no white space, components no `/`, keys no `=`, and no word begins in a way that would make it a comment or a deletion. The server does not check this for channel names and object ids.
- A printed reference that is not empty converts back to an object, and an empty one does not.
- A run of the server starts from a file that says its live state, as after a completed checkpoint. On a cold start that is the first checkpoint.
- A record is written whole or not at all, and system calls other than those of the checkpoint do not fail.
- The fields of the ring are `long` and the reader's index is `int`; the model takes the size to fit both. Deadlines do not overflow `unsigned long`.

Not modelled:

- PersistNodes.PersistNode.AddAttr: the overload that takes a `long` is used for one number only, whose printed form `ServerRuns.AtolDec` covers.
- Port numbers wider than their C type, and white space or overflow in `atol`.
- Channel.Scan: the pause between two scans and its doubling; the lock and the condition are the atomic steps and the signal of `Pipeline`. Wake-ups without a signal are harmless and left out.
- EventQueues.EventQueue.Append: an event that the filter rejects is not deleted by the original either, so nothing is said about freeing it. Which events the two filters keep is a parameter.
- Getopt.ScanAll: the modes other than permuting (an option string beginning with `-` or `+`, or the POSIX property), the `W;` convention and `long_only`; messages on the error stream. The end of the scan is `None` and not -1, which a long option's value could be too. What a further call does after the end is not modelled.
- PullConsumer.ProxyPullConsumer.Pickup: an answer that arrives after a client has disconnected itself, and the request that tells the supplier it is given up.
- OrbRun.Orb.DeferredRequest: the test of the shutdown flag and the insertion are one step.
- ServantLocator.GCServantLocator.GcSweep: the thread that calls it.
- MakeDeps.MakeDep.Process: the regular expressions, the search path and the output; what each `#include` line comes to is given.
- Checkpoint.EventsLog.Pass: the wait between passes and the variants for Windows, VMS and SunPro.
- Remote calls, object adapters, references and the marshalling of events. Their outcomes are parameters.
- Reconnecting federated channels after a restart, as remote calls decide what happens.
- `parseCriteria`, the iterator template, the channel store's look-ups and the eviction of idle pull suppliers, which would add only easy members.
- The tools, the daemon code, the Windows `getopt`, and the other examples.

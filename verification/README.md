# go-fluentd, modelled in Dafny

go-fluentd is a log pipeline of goroutines. Receivers glue split log lines back together, a journal logs every
message before it goes on, filters rework messages, and a producer hands each one to every sender of its tag and
commits its id once all of them have succeeded. This project models the parts whose correctness spans many steps,
and proves what they promise:

- **Concator** (`Concator`, `ConcatorFanOut`, `ConcatorOthers`, `ConcatorWorker`): the receiver's concatenation of
  fragments. A small splitter says what becomes of one container; NFork workers, each with one slot map for many
  containers, are shown to do just that for every container under every interleaving. `ConcatorOthers` follows the
  messages that are no fragments, `ConcatorWorker` is the loop over its message objects.
- **Tag concator** (`TagConcator`, `TagConcatorIds`, `TagConcatorWorker`): the same after the journal, where ids must be
  conserved as well as bytes.
- **Senders** (`SenderBatch`): the batch, flush and retry loops of the Elasticsearch and fluentd senders.
- **Producer** (modules whose names begin with `Producer`): the acknowledgement protocol as a state machine in which
  every access to a shared map, the lock or a channel is a step. `ProducerInvariant` says what every step keeps,
  `ProducerSteps` and `ProducerProof` show it, `ProducerTheorems`, `ProducerAnswers`, `ProducerSpawns`,
  `ProducerRegistry`, `ProducerBlind` and `ProducerIsolation` state the guarantees of every run. `ProducerReports` and
  `ProducerVerdicts` trace every verdict back to what the senders reported, `ProducerProgress` shows that no run gets
  stuck, and `ProducerCollector` is the collector's loop over the records it recycles.
- **Journal** (`JournalMachine`, `JournalSteps`, `JournalProof`, `JournalCommits`, `JournalProgress`, `JournalCopies`,
  `JournalPass`, `JournalLastCopy`, `JournalLosses`, `JournalRunners`): the write-ahead flow and the way of ids to disk,
  what a legacy pass brings back, and exactly when the last copy of a message goes. `JournalSteps` says what each step
  does in every state that a run can reach, and `JournalRunners` has the goroutines as loops over one Journal object,
  each proved to make these steps.
- **Pipeline**: producer and journal together, for the safety of commits and for delivery from end to end.
- **Messages** (`MsgPackFormat`, `MsgPack`, `MsgPackWire`, `MsgSize`, `FluentMsgCodec`, `FluentMsgWire`): the
  MessagePack formats that messages use, how long their encodings are, and the generated encoder and decoder of
  FluentMsg and FluentBatchMsg. The two Wire modules hold both to the bytes that the MessagePack specification gives.
- **Templates, nested maps, timer** (`Template`, `NestedMap`, `FlattenOrder`, `FlattenMap`, `BackoffTimer`).

Channels are sequences, and a full channel is either an explicit branch or a step that is not possible yet. Regular
expressions and the hash are functions about which nothing is assumed; clock readings, the results of attempts and the
choices of the Go scheduler and of `range` are inputs of a run, so theorems hold for all of them.

Some promises do not hold as they stand. The members named here show the input that breaks them, or when exactly they
hold:

- The template loop keeps the value of the previous variable for one that is missing or of an unhandled type
  (`Template.MissingKeyRepeatsTheLastValue`, `Template.PromiseKeptIff`), and expands a variable inside a value again if
  it is visited later (`Template.LoopIsExpansion`, `Template.MarksLeftAlone`, `Template.ValueIsExpandedAgain`).
- An unsigned number below 128 comes back from MessagePack as a signed one (`MsgPack.RoundTripIff`,
  `FluentMsgCodec.MsgRoundTripIff`).
- `Msgsize` is an upper bound exactly as long as the arrays of a message are not too long
  (`FluentMsgCodec.MsgsizeBoundIff`): with arrays of at most 512 bytes each, for example of up to 56 numbers, it always
  is one (`FluentMsgCodec.MsgsizeBound`, `MsgSize.FewNumbers`), and a message whose one array comes out longer than that
  and the slack of the other fields together exceeds it (`FluentMsgCodec.MsgsizeMissesArrays`).
- The log of a record is overwritten when the tag is stored under the key of the log (`Concator.SealedLog`).
- The tag concator discards a tail, and so has its id committed, when it appends it, usually before the record that
  now carries its bytes is sent (`TagConcatorIds.TailDiscardedEarlyIff`). If the record then fails in a sender or the
  process stops, only the first line is loaded again.
- The documentation (docs/README_cn.md:174-175) promises that whatever reached the journal is consumed at least once.
  The dumper gives a message up when journal and way out are both busy (`JournalCopies.DropsIffBusy`), sends it on
  unlogged when only the journal is, and one whose two write attempts fail is not logged either. In every run, a message
  is gone for good exactly after one of four steps on its only copy (`JournalLastCopy.GoneIff`): the dumper finds both
  channels full, the data writer cannot write it while the way out is full, the dispatcher takes it, or a pass leaves it
  out since its id is committed. `JournalLosses.LosesForGood` has an input for each of the first two. With these named,
  `JournalProof.JournalNeverForgets` and `Pipeline.DeliveredOrKept` hold for all others.
- The retry loop of the ids writer makes one attempt, not two: its `break` is outside the test for an error
  (`JournalRunners.Journal.TryId`).
- Flattening loses a leaf in every order if two leaves with different values join to one path
  (`FlattenOrder.ClashLosesOne`), and otherwise some order loses none, that which visits submaps with longer keys first
  (`FlattenOrder.SomeOrderFlatIff`). If the leaves have joined paths of their own, the result is the same in every order
  of the range exactly when no leaf joins to the key of a submap that has leaves (`FlattenOrder.OrderIndependentIff`,
  `FlattenOrder.OrderMatters`). Submaps may share joined paths without harm. With the empty delimiter this needs that no
  leaf of a submap joins to the empty string: such a leaf can be lost in every order alike
  (`FlattenOrder.EmptyDelimiter`). The walker misses leaves below keys with a dot (`FlattenMap.WalkerAgreesIff`).

## Model

| member | source | states |
|---|---|---|
| Concator.SplitterConserves | internal/recvs/fluentd.go:416-544 | the groups of a container, then its open group, are its fragments in order: none lost, doubled or moved |
| Concator.SegmentShape | internal/recvs/fluentd.go:482-536 | a record is one fragment followed by non-heads; without its last fragment it is one fragment or below the cap; what is pending and has grown is below the cap |
| Concator.ClassifyIs | internal/recvs/fluentd.go:446-480 | a message takes part iff its tag is configured and log and identifier are strings or byte slices; nothing of it changes but the log, which becomes a byte slice |
| Concator.NextFragmentJoinsIff | internal/recvs/fluentd.go:425-536 | for every container with an open record, after any run: the next fragment joins it iff it is not a head, comes within the wait and neither a cleaning that found the record overdue nor an exit came between; the record is then sent iff it came to the cap, and otherwise as it was before |
| Concator.FirstFragmentWaitsIff | internal/recvs/fluentd.go:482-500 | without an open record a fragment opens one iff it is a head, and is sent by itself otherwise |
| Concator.StepRefines | internal/recvs/fluentd.go:416-544 | non-interference: whatever a worker does, slot and records of a container move as its own splitter does |
| Concator.WorkerRefinesSplitter | internal/recvs/fluentd.go:399-544 | for every sequence of steps, what one worker sent and holds of a container is what the splitter makes of its events |
| Concator.NoPanic | internal/recvs/fluentd.go:523-524 | the type assertion on a pending log cannot fail for a container that keeps its logs under one key |
| Concator.OneKeyNeverPanics | internal/recvs/fluentd.go:523-524 | over every sequence of steps, a worker whose containers keep their logs under one key each does not panic |
| Concator.SealedLog | internal/recvs/fluentd.go:382-387 | a sent record carries the joined bytes iff the tag key is not the log key |
| ConcatorFanOut.SubmittedIs | internal/recvs/fluentd.go:344-366 | what a worker makes of a submitted message is the fragment that the message, after the optional rewrite of its tag, has in its fields |
| ConcatorFanOut.RunRouted | internal/recvs/fluentd.go:363-379 | in every reachable state each queued fragment and each slot is at the worker its container hashes to |
| ConcatorFanOut.FanOutRefinesSplitter | internal/recvs/fluentd.go:344-544 | for every interleaving of submissions, NFork workers, clocks, cleanings and exits, the records sent for a container are exactly those of one sequential splitter on its own events, and no worker panics |
| ConcatorFanOut.InOrder | internal/recvs/fluentd.go:344-424 | what a worker took of a container, then what is queued of it, is what was submitted, in order |
| ConcatorFanOut.ByteConservation | internal/recvs/fluentd.go:344-544 | bytes sent, then pending, then queued, are the bytes submitted for the container, in order, in every reachable state |
| ConcatorFanOut.AllSentAfterExit | internal/recvs/fluentd.go:539-543 | after the exit flush the bytes sent, then those the worker left in its channel, are the bytes submitted for the container; if it left none, all have been sent |
| ConcatorOthers.SubmitDoes | internal/recvs/fluentd.go:344-380 | ProcessMsg discards a message iff its tag is to be rewritten from a field that is neither string nor byte slice; otherwise only the tag and its field change, and it goes to the one worker, or to that of the hash of its load-balancing key, or on at once if it has none |
| ConcatorOthers.OthersInOrder | internal/recvs/fluentd.go:344-480 | for every interleaving: each worker sends on the messages that are no fragments once, in the order submitted and as they were, but for a log that became a byte slice |
| ConcatorOthers.PastWorkersInOrder | internal/recvs/fluentd.go:367-379 | messages without a load-balancing key are sent on at once, in order, as they were |
| ConcatorOthers.OthersAreAll | internal/recvs/fluentd.go:344-544 | nothing goes out without a container but what ProcessMsg and the workers sent on so, each record as often |
| ConcatorWorker.Worker.Inspect | internal/recvs/fluentd.go:446-480 | classifies a message object and converts its log in place as the value model says |
| ConcatorWorker.Worker.PlaceMsg | internal/recvs/fluentd.go:482-536 | the slot part on objects: new view of the slots and records sent equal the model's turn, or it panics just when that does |
| ConcatorWorker.Worker.Receive | internal/recvs/fluentd.go:446-537 | one message on objects makes the model's step, and the slots never share pending objects or messages |
| ConcatorWorker.Worker.Extend | internal/recvs/fluentd.go:517-536 | appends in place, and sends and frees the slot iff the cap is reached |
| ConcatorWorker.Worker.CleanAll | internal/recvs/fluentd.go:425-444 | a tick visits each slot that there is once, in any order, with the clock read for it; afterwards no slot is overdue |
| ConcatorWorker.Worker.FlushAll | internal/recvs/fluentd.go:539-543 | flushes each slot once and leaves none |
| ConcatorWorker.Worker.SendMsg | internal/recvs/fluentd.go:382-387 | the record goes out sealed with its tag, after those before it, and the message gets the next number as its ID |
| ConcatorWorker.Worker.Arrive | internal/recvs/fluentd.go:267-332 | a message is read into a new object or into one that has come back, whatever that held, and never into one that waits in a slot |
| ConcatorWorker.Worker.Handle | internal/recvs/fluentd.go:418-537 | one pass of the select, message objects being reused: it makes the steps that its event asks for and no others |
| ConcatorWorker.Worker.Run | internal/recvs/fluentd.go:399-544 | from first select to exit, for all events: each message is handled once, in order, with its own clock readings; each tick visits each slot once; each slot left is flushed once; the worker ends in the state of these steps, with nothing waiting, and panics just when the model does |
| TagConcator.InspectIs | internal/tagfilters/concator_f.go:120-149 | a message takes part iff identifier and log are strings or byte slices; only its log changes, into a byte slice |
| TagConcator.StepRefines | internal/tagfilters/concator_f.go:68-206 | slot, sent records and discards of a container move as its own splitter does, and no step of its own panics |
| TagConcator.WorkerRefinesSplitter | internal/tagfilters/concator_f.go:50-207 | for every sequence of messages and visits the worker never panics (the panic at 101 is unreachable), and every container's slot, records and discards are what its splitter says |
| TagConcatorIds.IdsConserved | internal/tagfilters/concator_f.go:68-206 | ID and ExtIds of records sent, in order, then of the pending one, are the ids received for the container, in order; likewise the bytes; as many messages as came are sent, pending and discarded |
| TagConcatorIds.EachMessageOnce | internal/tagfilters/concator_f.go:68-206 | what was received falls into segments, in order: one record sent or pending for each, made of the whole segment, and all but its first message discarded, in order; so each message is just one of sent, pending and discarded |
| TagConcatorIds.EachIdOnce | internal/tagfilters/concator_f.go:68-206 | as a multiset, the IDs of what is sent, pending and discarded are the IDs received |
| TagConcatorIds.IdConservation | internal/tagfilters/concator_f.go:182-205 | whatever ExtIds messages arrive with: ids received are, as a multiset, those of records sent and pending and the ExtIds of the tails discarded |
| TagConcatorIds.OthersPass | internal/tagfilters/concator_f.go:120-149 | messages without identifier or log are sent on unchanged, in order, and never discarded |
| TagConcatorIds.SegmentShape | internal/tagfilters/concator_f.go:151-202 | a record is a head with continuations or a lone message, and was within MaxLen before its last fragment |
| TagConcatorIds.NextFragmentJoinsIff | internal/tagfilters/concator_f.go:88-205 | for every container with an open record, after any run: the next message joins it iff it is not a head and no look in between found the record overdue; the record is then sent iff it came to MaxLen, and otherwise as it was before |
| TagConcatorIds.FirstFragmentWaitsIff | internal/tagfilters/concator_f.go:151-169 | without an open record a message opens one iff it is a head, and is sent by itself otherwise |
| TagConcatorIds.TailDiscardedEarlyIff | internal/tagfilters/concator_f.go:182-205 | a tail is discarded in the step that appends it; its record is then still pending iff it is shorter than MaxLen |
| TagConcatorWorker.Worker.Inspect | internal/tagfilters/concator_f.go:120-149 | the checks of identifier and log on a message object, with the conversion in place |
| TagConcatorWorker.Worker.PlaceMsg | internal/tagfilters/concator_f.go:151-205 | the slot part on objects makes the model's turn |
| TagConcatorWorker.Worker.Concat | internal/tagfilters/concator_f.go:182-205 | appends bytes and id in place, sends and frees the slot iff MaxLen is reached, and discards the tail |
| TagConcatorWorker.Worker.VisitAll | internal/tagfilters/concator_f.go:89-111 | looks at each slot once, in any order; afterwards none is overdue |
| TagConcatorWorker.Worker.Run | internal/tagfilters/concator_f.go:68-206 | over all events, message objects being reused: the loop never panics, handles each message once and in order, looks at each slot once when there is none, and ends in the state of these steps |
| SenderBatch.OneOutcomeEach | internal/senders/elasticsearch.go:282-344 | at every loop head the batch is below BatchSize, and messages sent in flushes, then the batch, are those received, in order |
| SenderBatch.OutcomesNameWhatWasSent | internal/senders/elasticsearch.go:326-343 | the outcomes name the messages of the flushes, one each, in order |
| SenderBatch.FlushesWellMade | internal/senders/elasticsearch.go:301-335 | a flush is all success or all failure, of 1 to BatchSize messages, fails only after all its attempts and never makes more |
| SenderBatch.HeldOnlyBriefly | internal/senders/elasticsearch.go:301-304 | messages are kept only below BatchSize and less than MaxWait after the last flush |
| SenderBatch.InputDoes | internal/senders/elasticsearch.go:282-343 | for every run: an input makes a flush iff something has no outcome yet and it fills the batch or MaxWait has passed since the clock of the last flush; the flush is just what has no outcome, a success iff nothing is really sent or one of the first `limit` attempts succeeds, with as many attempts as that takes |
| SenderBatch.OutcomesRight | internal/senders/elasticsearch.go:311-343 | for every run and each outcome: outcome number j is of message number j received, and true iff the input it came with was dry or one of its first `limit` attempts succeeded |
| SenderBatch.Batch.Take | internal/senders/elasticsearch.go:284-309 | the array turn that both loops share: what stays in the batch and what is taken out of it for delivery are the model's |
| SenderBatch.ElasticSearchSender.Send | internal/senders/elasticsearch.go:318-335 | succeeds iff one of at most four attempts does, and makes just as many as needed |
| SenderBatch.ElasticSearchSender.Handle | internal/senders/elasticsearch.go:284-343 | one turn over the batch array in place, with its delivery and outcomes, makes the model's turn |
| SenderBatch.ElasticSearchSender.Run | internal/senders/elasticsearch.go:253-345 | over every input: outcomes, then what is in the batch, are the messages received, in order, and each outcome on the two channels is true iff its flush was dry or had a success within four attempts |
| SenderBatch.FluentChildSender.Send | internal/senders/fluentd.go:174-199 | succeeds iff one of at most three attempts does |
| SenderBatch.FluentChildSender.Handle | internal/senders/fluentd.go:138-206 | one turn makes the model's turn, and gives up the connection iff its flush failed |
| SenderBatch.FluentChildSender.Run | internal/senders/fluentd.go:104-209 | as for Elasticsearch with three attempts, over every number of reconnections: one for each flush that failed |
| ProducerSteps.ForkKept | internal/controller/producer.go:249-325 | every step of a fork keeps the whole invariant |
| ProducerProof.CollectKept | internal/controller/producer.go:161-220 | taking any outcome keeps the whole invariant, and the collector does not panic |
| ProducerProof.Always | internal/controller/producer.go:223-329 | the invariant holds after every run |
| ProducerTheorems.AcknowledgementConservation | internal/controller/producer.go:199-218 | in every reachable state, for a message being sent: sends to make, copies in inboxes and batches, outcomes on their way and the pending count add up to its number of parties, no copy being anywhere twice; any other object has no copy, outcome or count, so a reused one starts from nothing |
| ProducerTheorems.FinalisedOnceAndRightly | internal/controller/producer.go:150-218 | each use of an object is finalised at most once and never while alive, with exactly one outcome per party, and committed iff all are successes |
| ProducerTheorems.VerdictsStand | internal/controller/producer.go:150-159 | no step takes back or changes a verdict, and none gives more than one |
| ProducerTheorems.RegistryPublication | internal/controller/producer.go:189-197 | in every reachable state: the collector has not panicked and the tag of each waiting outcome is registered; a visible cache list has its length as count; one fork at most is inside; each sender spawned at most once |
| ProducerTheorems.CopiesReachTheirSenders | internal/controller/producer.go:309-325 | a copy in a sender's inbox is the one meant for that sender in the list of the tag |
| ProducerAnswers.AnsweredForRightly | internal/controller/producer.go:251-325 | after every run: a message of a tag that no sender supports is always committed, and a send that found an inbox full counts as a success iff its sender discards when blocked |
| ProducerReports.AlwaysHonest | internal/controller/producer.go:161-329 | after every run, for each use and each sender of its tag: what the run has of offers and reports about it is exactly what the books say, an outcome being the one reported |
| ProducerVerdicts.NotedIn | internal/controller/producer.go:309-325 | each offer and report is an action of the run: a fork at that send, or a report on that copy |
| ProducerVerdicts.UsesAreSubmits | internal/controller/producer.go:249-250 | the uses of objects are the messages submitted, with tag, ID and ExtIds as submitted |
| ProducerVerdicts.VerdictsFromReports | internal/controller/producer.go:150-329 | after every run: a message that has left was offered once to each sender of its tag, each that took it reported once, and it is committed iff every sender reported success or, being full, is one that discards when blocked |
| ProducerVerdicts.AcceptIs | internal/controller/producer.go:258-288 | the list of a tag holds exactly the senders that support it, as often as configured |
| ProducerVerdicts.AcceptAt | internal/controller/producer.go:258-288 | and in the configured order |
| ProducerProgress.EveryMessageCanEnd | internal/controller/producer.go:150-329 | no run gets stuck: from every reachable state, whatever the senders report from then on, the run can go on with nothing new coming in until every message submitted has its verdict |
| ProducerProgress.SomethingToDo | internal/controller/producer.go:150-329 | in every reachable state in which not all is done some step brings the end nearer |
| ProducerSpawns.SpawnedBeforeUse | internal/controller/producer.go:264-325 | after every run: a sender with anything in its inbox, and every sender of a cached list, has been spawned |
| ProducerRegistry.RegisteredForGood | internal/controller/producer.go:251-308 | after every run: a tag whose count is registered is known for good, by its list or as unsupported, but for the moment until the fork that registered it has published that |
| ProducerRegistry.KnownNeedsNoLock | internal/controller/producer.go:249-257 | a fork with a message of such a tag goes straight on to send it, to the senders of the list or as unsupported to the collector, with no lock and no change to a registry |
| ProducerBlind.IdsNeverMatter | internal/controller/producer.go:39-46 | blanking the ids of a run blanks them in its states and changes nothing else |
| ProducerIsolation.StepsApart | internal/controller/producer.go:39-46 | a step about one message object leaves count, verdicts, sends and outcomes of every other as they are, whatever their ids |
| ProducerIsolation.BooksFromOutcomes | internal/controller/producer.go:161-220 | after every run of the whole protocol the books are what the collector's ledger makes of the outcomes it took |
| ProducerIsolation.ObjectsDoNotMeet | internal/controller/producer.go:39-46 | leaving out all outcomes of one object leaves counts and verdicts of all others, and their order, as in the run: a message and its copy out of the journal, with one id, do not meet |
| ProducerCollector.Collector.GetPending | internal/controller/producer.go:199-204 | a record from the pool, stale or new, is in no use |
| ProducerCollector.Collector.Mark | internal/controller/producer.go:199-210 | enters one outcome in the record of its message and leaves the others alone |
| ProducerCollector.Collector.Settle | internal/controller/producer.go:212-218 | a complete count is deleted and the message committed or recycled, another is stored |
| ProducerCollector.Collector.Collect | internal/controller/producer.go:189-218 | one turn on recycled records makes the model's count, and panics iff the tag has none |
| ProducerCollector.Collector.Run | internal/controller/producer.go:161-220 | over every order of outcomes: table, commits and recycled messages are those of the model's ledger |
| JournalProof.LoadNextKept | internal/controller/journal.go:239-298 | an entry left out by a legacy pass has its id committed; any other stays with the loader |
| JournalSteps.DumpDoes | internal/controller/journal.go:559-591 | in every reachable state the dumper hands the message at its head to the data writer of its tag iff that has room, else to the way out iff that has room, else gives it up |
| JournalSteps.WriteDataDoes | internal/controller/journal.go:454-480 | the data writer logs its message iff one of its attempts succeeds, and sends it on iff the way out has room |
| JournalSteps.RunCommitDoes | internal/controller/journal.go:608-645 | in every reachable state the commit runner appends the message at its head to the channel of its ids writer iff that has room; puts it at the end of its own channel iff not and that has room; and sheds it iff both are full |
| JournalSteps.IdsCommitted | internal/controller/journal.go:387-414 | the ids writer commits exactly the ids of the message at its head whose attempt succeeds |
| JournalProof.DumpedKept | internal/controller/journal.go:568-591 | the dumper loses a message only into the set of those sent on unlogged or dropped |
| JournalProof.WriteDataKept | internal/controller/journal.go:454-480 | a message shed because the way out is full is in the log, unless both attempts to write it failed |
| JournalProof.JournalNeverForgets | internal/controller/journal.go:210-593 | after every run, whatever arrived is committed, logged or on its way into the log, or in the explicit sets of those let go; if these are empty nothing is forgotten; and nothing in log or output is made up |
| JournalProgress.AllCanBeLogged | internal/controller/journal.go:454-592 | no message gets stuck on its way into the log: after any run dumper and data writers can go on, with nothing new coming in and nothing let go, until every message that ever arrived is committed, logged, with a legacy loader, or was let go before |
| JournalCopies.CopiesConserved | internal/controller/journal.go:443-592 | after every run: as often as a message entered dumpChan, from acceptors or a legacy loader, it waits there or at its data writer, is in the writer's hand, has gone out or is back in the pool |
| JournalCopies.DropsIffBusy | internal/controller/journal.go:574-591 | a turn of the dumper gives a message up for good iff the channel of its journal and the way out are both full |
| JournalLastCopy.NeverComesBack | internal/controller/journal.go:454-592 | after any run, a message of which no copy is left in a log, on the way or on the way out stays gone in every continuation, until it arrives anew |
| JournalLastCopy.LastCopyIff | internal/controller/journal.go:239-592 | a step lets go the last copy of a message iff it is its only copy and the dumper finds both channels full, or the data writer fails at all attempts while the way out is full, or the dispatcher takes it, or a pass leaves it out for its committed id |
| JournalLastCopy.GoneIff | internal/controller/journal.go:239-592 | for every run and message: no copy is left of what arrived iff one step of the run, and just one, let go the last copy so and the message has not entered since |
| JournalLosses.LosesForGood | docs/README_cn.md:172-175 | the two inputs that lose a message neither committed nor handed on: the dumper finds both channels full, or both write attempts fail while the way out is full; however the journal goes on, no copy comes back |
| JournalCommits.OneAttemptEach | internal/controller/journal.go:387-414 | the ids writer tries ID and ExtIds once each, in order, whatever the results |
| JournalCommits.CommitsAreExact | internal/controller/journal.go:376-417 | after every run: each message handed over waits, is written or is shed, as often as it was handed over; the calls of WriteId are exactly the ids of the messages written; each is for an id handed over under that tag; an id counts as committed iff a call succeeded |
| JournalProgress.CommitsCanFinish | internal/controller/journal.go:376-417 | no commit gets stuck: after any run the commit runner and the ids writers can go on, with nothing new coming in and nothing shed, until each message handed over has been written as often as it was handed over and not shed, with its ids committed |
| JournalRunners.Journal.CreateJournalRunner | internal/controller/journal.go:311-350 | a new tag gets journal and both channels together, a known one is left alone |
| JournalRunners.Journal.DumpMsg | internal/controller/journal.go:559-592 | a turn of the dumper makes the model's step |
| JournalRunners.Journal.WriteMsg | internal/controller/journal.go:454-480 | a turn of the data writer makes the model's step, with a second attempt iff the first failed |
| JournalRunners.Journal.TryId | internal/controller/journal.go:388-394 | the retry loop makes exactly one attempt |
| JournalRunners.Journal.WriteIds | internal/controller/journal.go:387-417 | a turn of the ids writer makes the model's step |
| JournalRunners.Journal.CommitMsg | internal/controller/journal.go:621-645 | a turn of the commit runner makes the model's step, and sheds iff the channel of the ids writer and its own are both full |
| JournalRunners.Journal.LoadLegacyBuf | internal/controller/journal.go:242-269 | makes steps of the model until the next entry without a committed id is in hand or the files are at their end |
| JournalRunners.Journal.GiveBack | internal/controller/journal.go:287-297 | the inner loop waits for room in dumpChan while the dumper makes its steps, then makes the model's step that gives the entry back |
| JournalPass.PassIsExact | internal/controller/journal.go:237-298 | whatever all other runners do in the meantime: what a pass has given to the dumper, then its entry in hand, then the uncommitted rest, are the entries it began with that have no committed id, in order; so a complete pass gives the dumper exactly these |
| JournalRunners.Journal.ProcessLegacyMsg | internal/controller/journal.go:237-298 | one pass is a run of the state machine of load, give-back and dumper steps; it gives the dumper exactly the entries without a committed id, in order, and reports the largest id of them |
| JournalPass.UncommittedAll | docs/README_cn.md:172-175 | what a pass yields are the entries of the old data whose id is not in the ids read |
| JournalRunners.MaxId | internal/controller/journal.go:277-282 | the largest of the ids and zero |
| Pipeline.ProducedKept | internal/controller/producer.go:150-159 | a message that is through goes to the commit channel once, others never |
| Pipeline.ProducerRuns | internal/controller/producer.go:150-159 | the steps that the producer makes in a run of the whole are a run of the producer by itself |
| Pipeline.JournalRuns | internal/controller/journal.go:608-645 | the steps that the journal makes in a run of the whole, a message handed over for each that is through or discarded, are a run of the journal by itself |
| Pipeline.HandsOver | internal/controller/producer.go:150-159 | a message that is through goes to the end of the commit channel with its tag, ID and ExtIds; while that is full nothing moves |
| Pipeline.CommitSafety | internal/controller/journal.go:376-417 | after every run of producer and journal, every id that WriteId is called with is the ID or an ExtId of a message that came in under that tag and that every sender of the tag approved by the reports of the run, or which a filter discarded; and the journal was asked to commit exactly those |
| Pipeline.DeliveredOrKept | docs/README_cn.md:172-175 | after every run of producer and journal, every message the journal was given is in the log, on its way into it, delivered, discarded by a filter, or one of those let go |
| MsgPackFormat.ReadsInt | library/data_gen.go:271 | every int64 is read back from what AppendInt64 wrote, whatever follows |
| MsgPackFormat.ReadsUint | library/data_gen.go:263 | every uint64 is read back with its sign kind decided by its size |
| MsgPackFormat.ReadsHeader | library/data_gen.go:260 | every map, array, str and bin header is read back, with the rest exact |
| MsgPackFormat.ReadsRaw | library/data_gen.go:257 | every string and byte slice is read back, with the rest exact |
| MsgPackWire.HeaderOnWire | library/data_gen.go:257-262 | for each family and range of lengths, the bytes of a header: the format byte as a literal and the length in big-endian digits |
| MsgPackWire.RawOnWire | library/data_gen.go:257 | a string or byte slice is its header followed by its bytes |
| MsgPackWire.IntOnWire | library/data_gen.go:271 | for each range of int64, format byte and digits of what AppendInt64 writes |
| MsgPackWire.UintOnWire | library/data_gen.go:263 | for each range of uint64, format byte and digits of what AppendUint64 writes |
| MsgPackWire.ScalarOnWire | library/data_gen.go:263 | the bytes of nil, booleans and floats |
| MsgPackWire.NumberReadOff | library/data_gen.go:336 | for every input: the reader takes a number of each numeric format from its digits, two's complement where signed |
| MsgPackWire.HeaderReadOff | library/data_gen.go:290-310 | for every input: the reader takes a header of each format with its length, and refuses every other byte and every input that is too short |
| MsgPackWire.ValueReadOff | library/data_gen.go:328 | for every input: each first byte is read as the value that its format stands for |
| MsgPackWire.CollectionReadOff | library/data_gen.go:300-334 | for every input: an array or map is read as its header and as many elements, later values of a key replacing earlier ones |
| MsgPack.RoundTrip | library/data_gen.go:254-258 | nested values are read back as written, up to small unsigned numbers, in every map order, with the rest exact |
| MsgPack.RoundTripIff | library/data_gen.go:254-258 | a value survives unchanged iff no unsigned number below 128 is in it |
| MsgPack.SettlesIff | library/data_gen.go:328 | the change to small unsigned numbers is the identity iff there are none |
| MsgPack.AppendIntf | library/data_gen.go:263 | appending a value writes an encoding of it, for whatever order its maps are walked in |
| MsgSize.SizeBoundIff | library/data_gen.go:87-94 | GuessSize bounds the encoding of a value iff its arrays come out no longer than 512 bytes each on average plus the exact slack of the rest; for an array by itself iff it comes out at 512 bytes or less |
| MsgSize.SizeBound | library/data_gen.go:87-94 | GuessSize bounds every value whose arrays come out at 512 bytes or less each |
| MsgSize.LightArray | library/data_gen.go:87-94 | an array is that short if the guesses for its elements and five more bytes add up to at most 512 |
| MsgSize.FewNumbers | library/data_gen.go:87-94 | an array of up to 56 numbers is that short |
| FluentMsgCodec.MsgRoundTrip | library/data_gen.go:252-370 | unmarshalling a marshalled message, whatever follows it, whatever the map order and whatever the receiver held, restores every field and leaves exactly the rest |
| FluentMsgCodec.MsgRoundTripIff | library/data_gen.go:252-370 | it restores the message unchanged iff its map holds no unsigned number below 128 |
| FluentMsgCodec.MsgsizeBoundIff | library/data_gen.go:373-383 | for every message: Msgsize bounds MarshalMsg's output iff its arrays come out no longer than 512 bytes each on average plus the exact slack of all other fields |
| FluentMsgCodec.MsgsizeBound | library/data_gen.go:373-383 | so it does when each array comes out at 512 bytes or less |
| FluentMsgCodec.MsgsizeMissesArrays | library/data_gen.go:373-383 | a message with one array exceeds Msgsize iff the array comes out longer than 512 bytes and the slack of the other fields, so always with 536 elements or more, and 8 more for each ExtId |
| FluentMsgCodec.BatchMsgsizeBound | library/data_gen.go:87-94 | Msgsize of a batch bounds its encoding when each array in its values comes out at 512 bytes or less |
| FluentMsgCodec.FluentMsg.MarshalMsg | library/data_gen.go:252-279 | what the loops append, whatever order the map is walked in, is read back by any receiver, whatever it held, as the message, with nothing left over |
| FluentMsgWire.MsgOnWire | library/data_gen.go:252-279 | a marshalled message is a map of four fields in order, each under its name as a string, every number and length as its digits |
| FluentMsgWire.KeyReadOff | library/data_gen.go:295-300 | a field name is read from a str or a bin of any form |
| FluentMsgWire.FieldReadOff | library/data_gen.go:300-360 | for every input: each of the four names overwrites its own field with what is read and leaves the others |
| FluentMsgWire.UnknownFieldSkipped | library/data_gen.go:360-365 | a field of another name is read over, and the message stays as it is |
| FluentMsgCodec.FluentMsg.UnmarshalMsg | library/data_gen.go:282-370 | the loop over fields overwrites the receiver with what the model reads, fails iff that does, and returns the rest |
| FluentMsgCodec.FluentMsg.UnmarshalMap | library/data_gen.go:305-334 | the old map is emptied and then holds just the entries read |
| FluentMsgCodec.FluentMsg.UnmarshalExtIds | library/data_gen.go:341-359 | old ExtIds are overwritten and cut to the length read |
| FluentMsgCodec.FluentBatchMsg.MarshalMsg | library/data_gen.go:50-61 | what it appends is read back as the batch, with nothing left over |
| FluentMsgCodec.FluentBatchMsg.UnmarshalMsg | library/data_gen.go:64-85 | the receiver becomes what the model reads, whatever it held |
| FluentMsgCodec.BatchRoundTrip | library/data_gen.go:50-85 | a marshalled batch of nested values is read back, with the rest exact |
| Template.FindsTheVariables | library/utils.go:99 | the matches in a rendered template are its variables, in order, repeated ones included |
| Template.FindsFirst | library/utils.go:99 | for all strings: the first key found is that of the leftmost match, and then those behind it |
| Template.ReplaceOneVariable | library/utils.go:113 | ReplaceAll of one mark replaces that variable everywhere and touches nothing else |
| Template.ReplacesFirst | library/utils.go:113 | for all strings: ReplaceAll replaces the leftmost occurrence and goes on behind it |
| Template.DigitsAre | library/utils.go:106-109 | the digits of a number have it as their decimal value, with none superfluous |
| Template.LastTextIs | library/utils.go:100-113 | the text put in is that of the last key visited that has one, and empty before the first |
| Template.LoopIsSubstitution | library/utils.go:95-117 | on plain templates the loop is a one-pass substitution of the texts it carries |
| Template.PromiseKeptIff | library/utils.go:95-117 | it is the promised substitution iff no missing variable first occurs after one whose text is not empty |
| Template.AllHandled | library/utils.go:95-117 | it is the promised substitution when every key has a supported type |
| Template.LoopIsExpansion | library/utils.go:95-117 | for values made of text and marks the loop is macro expansion, one key after the other in the order found |
| Template.MarksLeftAlone | library/utils.go:95-117 | if no value put in has a mark of a key visited later, the loop is the substitution of the carried texts, marks and all, and the promised one iff nothing is carried over |
| Template.MissingKeyRepeatsTheLastValue | library/utils.go:101-113 | two variables of which the second is missing: the first text comes out twice |
| Template.ValueIsExpandedAgain | library/utils.go:95-117 | the input that fails that: in a template of two variables the value of the first is a mark of the second, and both come out as the second value |
| Template.TemplateWithMap | library/utils.go:95-117 | the loop with its carried `vs` computes the rewriting that the lemmas are about |
| NestedMap.SplitThenJoin | library/add.go:213 | splitting at the separator and joining again gives the string, in pieces without separator |
| NestedMap.JoinThenSplit | library/add.go:213 | splitting a joined path gives the path if no key has the separator |
| NestedMap.KeysFreeNoClash | library/utils.go:80 | without separators in keys the joined path of a leaf is that of no other node |
| NestedMap.NoClashFits | library/utils.go:80 | if no leaf has the joined path of another node, leaves have paths of their own and meet no submap |
| FlattenMap.MoveUp | library/utils.go:79-81 | the inner range adds each entry under its prefixed key, in any order |
| FlattenOrder.TurnDoes | library/utils.go:76-84 | a turn at a submap puts its flattened entries under prefixed keys, over whatever was there, takes the submap out and leaves the rest |
| FlattenOrder.CompleteSound | library/utils.go:75-85 | in every order, what is left are leaves under joined paths that the tree has |
| FlattenOrder.CompleteFlat | library/utils.go:75-85 | if leaves at one path agree and none meets a submap, every order gives exactly the joined paths with their values |
| FlattenOrder.ClashLosesOne | library/utils.go:75-85 | if two leaves at one path differ, every order leaves at most one of them |
| FlattenOrder.SomeOrderLoses | library/utils.go:75-85 | if anywhere a leaf joins to the key of a submap with leaves, some order loses a leaf |
| FlattenOrder.EveryOrderFlatIff | library/utils.go:75-85 | for trees whose leaves have joined paths of their own, and any delimiter: every order gives exactly those paths with their values iff no leaf meets a submap |
| FlattenOrder.FlatOrder | library/utils.go:75-85 | visiting submaps with longer keys first loses no leaf, if leaves at one path agree and the delimiter is not empty (or no leaf of a submap joins to the empty string) |
| FlattenOrder.SomeOrderFlatIff | library/utils.go:75-85 | then some order gives exactly the joined paths with their values iff leaves at one path agree |
| FlattenOrder.OrderIndependentIff | library/utils.go:75-85 | for trees whose leaves have joined paths of their own and every delimiter but the empty one: all orders give one result iff no leaf meets a submap; with the empty one too, if no leaf of a submap joins to the empty string |
| FlattenOrder.EmptyDelimiter | library/utils.go:75-85 | the input that fails it otherwise: a leaf that meets its own submap and is lost in every order, with one result |
| FlattenOrder.OrderMatters | library/utils.go:75-85 | a tree with such a meeting, an order that keeps both leaves and one that loses one |
| FlattenMap.FlattenMap | library/utils.go:75-85 | on an unshared tree, whatever its keys and the delimiter: it terminates, no map values are left, and the entries are what the tree becomes in the order that the range took, keys inserted on the way visited or not; they are exactly the joined paths of the leaves with their values if leaves at one path agree and none meets a submap |
| FlattenMap.GetValFromMap | library/add.go:210-250 | the walker returns what is at the path the key splits into, nil if nothing is |
| FlattenMap.WalkIs | library/add.go:210-250 | for every string: the walker has what is at the end of its path of dot-free keys, leaf or submap, and nil where nothing is |
| FlattenMap.WalkerAgreesIff | library/add.go:210-250 | for trees whose leaves have joined paths of their own, the walker finds just the non-nil leaves of the map flattened at "." iff no key on the way to one has a dot |
| FlattenMap.WalkerAgrees | library/add.go:210-250 | for trees whose keys have no dot it agrees at every string |
| BackoffTimer.NewTimer | library/timer.go:29-41 | panics just for a wait below a millisecond or not below the cap |
| BackoffTimer.Timer.Sleep | library/timer.go:52-67 | sleeps as the schedule says for its number of sleeps since the reset, without overflow of int64 |
| BackoffTimer.Timer.Reset | library/timer.go:69-73 | starts the schedule over |
| BackoffTimer.Timer.Tick | library/timer.go:43-50 | fires, and resets, iff the timeout has passed |
| BackoffTimer.SleepTimes | library/timer.go:52-73 | after a reset, the first n waits are those of the schedule |
| BackoffTimer.NextSleep | library/timer.go:52-66 | the doubling step of the code leads from each point of the schedule to the next |
| BackoffTimer.ClosedForm | library/timer.go:52-73 | with 0 < init the schedule is min(init * 2^(n div every), max), never decreases and stays within the cap, if init is at most max |

## Left out

- ConcatorFanOut.FanOutRefinesSplitter: takes, like the other theorems about whole runs of the fan-out, the load-balancing key to be the identifier key and each container to keep its logs under one key; the slot map is keyed by the container alone, so two tags sharing a container could differ in that.
- Concator.WorkerRefinesSplitter: speaks of runs without a panic; Concator.OneKeyNeverPanics and the fan-out theorem show that one key per container makes all runs such.
- ConcatorWorker.Worker.SendMsg: message IDs come from a counter of the worker; in the source the counter is shared by all workers. Byte slices are values, so sharing of the backing array between a pending log and an appended one is not modelled.
- TagConcatorIds.IdsConserved: takes messages to arrive with empty ExtIds, as the pool is meant to supply them. internal/controller/journal.go:413 and internal/acceptorfilters/base.go:31 clear them, internal/controller/producer.go:155 and internal/controller/journal.go:479, 588 and 643 give messages back without doing so, and the legacy loader (internal/controller/journal.go:242-281) takes an object from the pool and sets its ID, Tag and Message only; TagConcatorIds.IdConservation holds without the assumption.
- TagConcatorWorker.Worker.Run: one worker that owns its slot map; the map that internal/tagfilters/concator_f.go:221 shares between tags and forks is not modelled, nor the load balancer in tagfilters/base.go, which drops messages when a worker's channel is full. The timer only paces the loop. Message objects come back as for the receiver.
- SenderBatch.ElasticSearchSender.Run: a send attempt is a success or a failure; what SendBulkMsgs does with single messages it cannot marshal is part of that result.
- SenderBatch.FluentChildSender.Run: a lost connection shows only as failed attempts; waiting for a connection, and `EncodeBatch`, are not modelled.
- ProducerTheorems.AcknowledgementConservation: senders report on every message they take, as SenderBatch.OneOutcomeEach shows for two of them, and leave its tag alone, as the source asks of them.
- ProducerCollector.Collector.Run: the registry is read by the caller: each outcome comes with the count that is registered for its tag.
- JournalProof.JournalNeverForgets: go-journal is taken by its documented contract, its files as sequences and sets. Rotation, compression, expiry of ids (a pass may read any part of the ids ever written), damaged files and so the branches at internal/controller/journal.go:256-275, and what memory loses when the process stops, are not modelled.
- JournalCopies.CopiesConserved: messages that skip the dump (internal/controller/journal.go:527-547) go straight to the way out and are not modelled.
- JournalCommits.CommitsAreExact: a message that finds both the ids writer and the commit channel full is shed without its ids, as in the source; it is loaded again.
- JournalRunners.Journal.WriteMsg: the two attempts are made in one step of the state machine.
- Pipeline.CommitSafety: "discarded by a filter" is any message a tag or post filter hands to the commit channel; which messages filters discard is shown for the concator only. What filters do between journal and producer is arbitrary. The ExtIds of a message are whatever its object carries: if the legacy loader got one with ExtIds left from another message (see TagConcatorIds.IdsConserved), these are committed with it, and the theorem takes them for its own.
- MsgPack.RoundTrip: float32 and float64 are bit patterns, all integer widths are one signed and one unsigned type, a nil map or slice is an empty one, and extension, complex and time types are missing. Lengths are below 2^32, as the format requires.
- MsgPackFormat.ReadsUint: the format itself writes small unsigned numbers as positive fixint, so which kind was written is lost.
- FluentMsgCodec.FluentMsg.UnmarshalMsg: on a decoding error nothing is said of what the receiver holds. DecodeMsg and EncodeMsg, the same over streams, are missing. An unknown field is skipped as a value is read; msgp.Skip also skips forms that the value reader refuses.
- FluentMsgCodec.MsgsizeBound: the sizes that GuessSize adds up are constants of the msgp library.
- Template.PromiseKeptIff: keys have no `$` and no `}`, and in literals and values each `$` is followed by something other than `{`; Template.LoopIsExpansion and Template.MarksLeftAlone also have values with whole marks in them. Half a mark, completed by what stands next to it, is not covered. Floats are formatted before they reach the model.
- FlattenMap.FlattenMap: takes the tree unshared.
- FlattenMap.GetValFromMap: maps have string keys; reflection over other key types is missing.
- BackoffTimer.ClosedForm: what a Go sleep does to the clock is left out.
- ConcatorWorker.Worker.Run: a sent message object may come back at any time after it was sent, but is taken not to be changed by its next user while a former one still reads it; the records on the wire are what was sent.
- JournalRunners.Journal.ProcessLegacyMsg: between its own steps only the dumper moves, and dumpChan has room for at least one message; JournalPass.PassIsExact has the same of runs in which all others move. The branches for entries that cannot be decoded (internal/controller/journal.go:256-275) are missing.
- FlattenOrder.OrderIndependentIff: where two leaves share a joined path and agree on its value, a meeting may or may not lose a leaf; FlattenOrder.CompleteFlat has the harmless half of that case. With the empty delimiter and a leaf of a submap that joins to the empty string nothing is said but FlattenOrder.EveryOrderFlatIff.
- ProducerTheorems.FinalisedOnceAndRightly: a message object is handed to the producer only when it is not inside already (Producer.Next leaves such a step out): the pool gives an object to one user at a time, and upstream code is taken not to send a message that it has sent before.
- JournalProgress.CommitsCanFinish: takes the channels of ids to have room for at least one message, and JournalProgress.AllCanBeLogged those of data, as internal/controller/journal.go:119-127 makes sure.
- Termination and liveness of the goroutines: closing of channels and cancellation of contexts stop a run, and a run may stop anywhere. That no run of producer or journal gets stuck is shown (ProducerProgress.EveryMessageCanEnd, JournalProgress.AllCanBeLogged, JournalProgress.CommitsCanFinish); that the scheduler and the senders go on is not.
- Listeners, clients, compression, settings, logging, metrics and the HTTP server: input and output around the modelled parts.
- Kafka and HTTP senders: the same loop as Elasticsearch. Fan-out of the fluentd sender over tags and forks (internal/senders/fluentd.go:56-98): only its child loop is modelled.
- Field filters, tag and environment helpers, ParseAddCfg, ProcessAdd and the spawning of tag pipelines: they would add easy members only.

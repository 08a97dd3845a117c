# Verified model of the money-laundering analysis pipeline

The repository runs a pipeline of worker stages over RabbitMQ. Workers exchange
batches of messages, drop duplicates by key, agree among themselves when a
client's data has come to an end, and compute three distributed queries. This
project models that behaviour in Dafny and proves what the stages promise.

| files | what they model |
|---|---|
| `EofStates`, `EofWorker`, `EofMessages`, `EofController` | the EOF controller of one worker: the client states, its handlers as a class over per-client dictionaries, the two-slot control messages |
| `EofProtocol` | a stage of n workers as a step relation: a control thread and input threads in each, FIFO channels between leader and workers, packets each taken and counted once, every locked block one step |
| `EofInvariants`, `EofLocal`, `EofDataSteps`, `EofReception`, `EofSoundness`, `EofControlSteps`, `EofDecisionSteps`, `EofPostSteps`, `EofRuns` | the inductive invariant and its preservation by every step |
| `EofHandlers` | the protocol's steps against the contracts of the controller's handlers |
| `EofSafety`, `EofDissemination`, `EofLiveness`, `EofCleanRuns`, `EofTermination`, `EofExample`, `EofRace` | what holds in every reachable state, that the end of data is reached in a bounded number of control steps, and the two runs that go wrong |
| `EofPipeline`, `EofLinkExample`, `EndToEnd` | consecutive stages, the EOF of one being the announcement of the next; the three queries with their complete deliveries derived from the consensus of every stage |
| `Ranges`, `RangeText`, `Decimal`, `Dedup`, `BatchAck`, `ExactlyOnce`, `BankForwarding`, `BatchPublisher` | the set of processed ids and its text form, message keys, deduplication, settling of batches, the effects of redelivery, the bank filter whose sends may raise, the batching publisher |
| `ScatterGather`, `ScatterGatherStages` | the scatter-gather query and its four stages |
| `MaxPerBank`, `AverageFilter` | the maximum per bank with its name, and the filter below one percent of the average |
| `Wire` | the client protocol over a byte stream |
| `Recovery` | the supervisor that restarts silent containers |
| `Sums`, `Options` | finite sums and lists put together, optional values |

## What the proofs show about the code

- The registration of an EOF takes three separately locked blocks
  (`src/common/controllers/eof_controller/EOF_controller.py:141-155`), and the
  check that starts consensus looks only at the first of them. With two upstream
  fluxes the check can therefore run while another EOF is half registered. If the
  leader's counter for that flux does not exist yet, its snapshot lacks the
  prefix and the round never ends (`EofRace.RoundCanHang`); if its total is not
  recorded yet when the last answer arrives, the leader can decide OK while
  packets still wait (`EofRace.ConsensusCanBeWrong`). The exact conditions are
  `EofLiveness.RoundEndsExactlyIfCovered` and `EofSafety.ConsensusSound`; a
  condition on the start alone that rules both out, and that always holds with a
  single upstream flux, is the subject of `EofCleanRuns`; from such a start the
  stage always comes to an end (`EofTermination`).
- A pooled sum over two fluxes is sound: each stored partial is a lower bound on
  its worker's counter and each flux is bounded by its announcement, so equal
  sums force equality in each flux (`EofSoundness`).
- Sends are counted before the packet that caused them is counted as processed;
  this is why the downstream totals are final (`EofSafety.DownstreamTotalsExact`).
- Because the totals are final and a consensus accounts for all of them, a stage
  that agrees has processed exactly the messages the stage before it sent
  (`EofPipeline.EveryMessageProcessed`); the queries rest on nothing else
  (`EndToEnd`).
- The two slots of a control message lose counters exactly when there are more
  than fit, which no reachable state of a stage with two fluxes does.
- A set of processed ids with a negative id cannot be read back from its text.
- Composite keys collide for ids outside 0 to 10^12 - 1, and a text id that is no
  number leaves the type out of its key (`Dedup.ToldApartExactly`).
- A bank filter remembers a bank before it sends it. If the send raises, the
  redelivered record is acknowledged and the bank is never forwarded
  (`BankForwarding.BankLost`; exactly when is `BankForwarding.ForwardedExactly`).
- An empty batch is never settled: no acknowledgement completes its count.
- A bank literally named "Unknown" gets no row (`MaxPerBank.NamedLikeThePlaceholder`).
  With several names forwarded for a bank the last one to arrive decides
  (`MaxPerBank.RowExactly`), and only the first record of a bank at each filter
  counts (`MaxPerBank.NamelessFirst`).
- The entity id of an account record is sent as text and read as the number its
  octets spell.

## Model

| member | source | states |
|---|---|---|
| `EofStates.AchievedIsNeverLeftDownward` | `src/common/controllers/eof_controller/types.py:26-28` | From EOF_CONSENSUS_ACHIEVED on, any run of updates in any order ends in the highest state it was ever told, so that region is never left downward. |
| `EofStates.OnlyFailedRoundsGoDown` | `src/common/controllers/eof_controller/types.py:26-40` | A run that ends lower than it started passed through RESPONSE_SENT and was told PENDING_EOF there. |
| `EofStates.TransitionsAre` | `src/common/controllers/eof_controller/types.py:30-40` | The transitions that let a control message pass, each by name: one step up, from before consensus to pending, and from a sent response back to pending. |
| `EofStates.UpdatesAre` | `src/common/controllers/eof_controller/types.py:26-28` | An update goes up in the order of the seven states, or from RESPONSE_SENT back to PENDING_EOF, and is ignored otherwise. |
| `EofStates.ClientEofState.UpdateState` | `src/common/controllers/eof_controller/types.py:26-28` | The state object moves up, or from RESPONSE_SENT back to PENDING_EOF, and ignores every other update. |
| `EofStates.ClientRegistry.MarkAs` | `src/common/controllers/eof_controller/types.py:63-89` | Marking a client updates its state, creates it on first use, and leaves every other client alone. |
| `EofStates.ClientRegistry.WithValidTransitionTo` | `src/common/controllers/eof_controller/types.py:92-94` | The guard of control messages reports whether the transition is valid and changes no state. |
| `EofStates.ClientRegistry.CanReceiveInputEof` | `src/common/controllers/eof_controller/types.py:96-109` | An EOF is refused exactly from consensus on; the first one makes the client active. |
| `EofStates.ClientRegistry.TryStartEofConsensus` | `src/common/controllers/eof_controller/types.py:114-125` | Succeeds exactly for the caller that takes the client from active to pending. |
| `EofMessages.FillRequest` | `src/common/controllers/eof_controller/message_handler/message_handler.py:14-26` | The two slots of a request name only received EOFs, and all of them exactly if there are at most two; with auxiliary input the broadcast flux sits in slot two. |
| `EofMessages.FillResponse` | `src/common/controllers/eof_controller/message_handler/message_handler.py:28-68` | The two slots of a response carry the first and the last counter, or with auxiliary input the broadcast one and the last other; that is every counter exactly if they fit. |
| `EofMessages.TravelsExactlyIfFits` | `src/common/controllers/eof_controller/message_handler/message_handler.py:37-57` | For every dictionary: what travels equals the dictionary if and only if it has at most two entries or, with auxiliary input, at most one besides the broadcast flux. |
| `EofController.Controller.OnProcessedPacket` | `src/common/controllers/eof_controller/EOF_controller.py:115-118` | Counts one processed packet of the prefix for that client and changes nothing else. |
| `EofController.Controller.OnPacketSent` | `src/common/controllers/eof_controller/EOF_controller.py:136-139` | Counts one send to the output for that client and changes nothing else. |
| `EofController.Controller.ProcessStartingEof` | `src/common/controllers/eof_controller/EOF_controller.py:141-155` | The three locked blocks record the EOF, give its counter a start value and keep the first announced total. |
| `EofWorker.RegisteredAgain` | `src/common/controllers/eof_controller/EOF_controller.py:141-155` | Registering an EOF again, with whatever total, changes nothing: the first total and the counter are kept. |
| `EofController.Controller.OnInputEof` | `src/common/controllers/eof_controller/EOF_controller.py:121-128` | An upstream EOF is refused after consensus, otherwise registered, passed on to the other workers and only then checked; the request goes out exactly if the check moved the state. |
| `EofController.Controller.OnEofCopy` | `src/common/controllers/eof_controller/EOF_controller.py:157-171` | A copy from another worker does the same without being passed on. |
| `EofController.Controller.CheckAndStart` | `src/common/controllers/eof_controller/EOF_controller.py:203-214` | Consensus starts exactly if the expected number of EOFs is recorded and the client is active; only the leader opens a round. |
| `EofController.Controller.UpdateLeaderOwnPartials` | `src/common/controllers/eof_controller/EOF_controller.py:329-338` | The loop stores each of the leader's own counters under its id and keeps all other partials. |
| `EofController.Controller.SendConsensusRequest` | `src/common/controllers/eof_controller/EOF_controller.py:439-446` | The leader snapshots its counters, asks for the recorded prefixes and marks the request as sent. |
| `EofController.Controller.OnConsensusRequest` | `src/common/controllers/eof_controller/EOF_controller.py:341-369` | The answer carries every counter, with zero for awaited prefixes never seen, if and only if they fit the slots; the worker ends in RESPONSE_SENT. |
| `EofController.Controller.AccumulatePartials` | `src/common/controllers/eof_controller/EOF_controller.py:234-242` | Both slots are stored under the sender's id; all other partials are kept. |
| `EofController.Controller.HaveReceivedAllPartials` | `src/common/controllers/eof_controller/EOF_controller.py:244-262` | True exactly if the prefixes with partials are the expected ones and each has every worker id. |
| `EofController.PooledAgree` | `src/common/controllers/eof_controller/EOF_controller.py:267-286` | Without auxiliary input the loop compares the sum of all partials with the sum of all announced totals. |
| `EofController.AuxiliaryAgree` | `src/common/controllers/eof_controller/EOF_controller.py:288-326` | With auxiliary input: the loop, which compares running sums after each flux, agrees exactly if every worker agrees on the broadcast flux and each other flux agrees with its total, in whatever order and number the fluxes come. |
| `EofController.Controller.DecideRound` | `src/common/controllers/eof_controller/EOF_controller.py:377-391` | The outcome is the specified decision on the recorded partials; OK and FAIL change the state, the partials and the messages sent accordingly. |
| `EofController.Controller.OnConsensusResponse` | `src/common/controllers/eof_controller/EOF_controller.py:175-181` | A response is dropped exactly if the state guard refuses it, otherwise recorded and decided on; EOF_CONSENSUS_OK goes out exactly on OK, EOF_CONSENSUS_FAIL exactly on FAIL, nothing otherwise. |
| `EofController.Controller.OnConsensusOk` | `src/common/controllers/eof_controller/EOF_controller.py:182-185` | OK is acted on exactly in RESPONSE_SENT. |
| `EofController.Controller.OnConsensusFail` | `src/common/controllers/eof_controller/EOF_controller.py:186-189` | FAIL takes a worker back to waiting where that is a valid transition. |
| `EofController.Controller.SendPost` | `src/common/controllers/eof_controller/EOF_controller.py:493-497` | The report carries the worker's own send counters; then the client is finished and forgotten. |
| `EofController.Controller.ProcessPost` | `src/common/controllers/eof_controller/EOF_controller.py:408-427` | Reports are collected per worker; the last distinct one, and no other, sends the downstream EOF and finishes the client. |
| `EofWorker.FinishedForgets` | `src/common/controllers/eof_controller/EOF_controller.py:408-427` | A worker that has reported, and a leader after the last distinct report and no other, keep nothing of the client but the collected sends. |
| `EofController.Controller.OnPost` | `src/common/controllers/eof_controller/EOF_controller.py:190-193` | Another worker's report is dropped exactly if the state guard refuses it, otherwise collected. |
| `EofController.Controller.OnOwnPost` | `src/common/controllers/eof_controller/EOF_controller.py:382-386` | The leader's own report is collected like any other. |
| `EofController.Controller.SendEofToNextStage` | `src/common/controllers/eof_controller/EOF_controller.py:449-464` | The downstream EOF carries per output the sum of all reported sends, and never the broadcast flux under auxiliary input. |
| `EofController.Controller.ClearAllClientData` | `src/common/controllers/eof_controller/EOF_controller.py:504-523` | Everything kept for the client is forgotten except the sends collected by the leader; other clients are untouched. |
| `EofRuns.ReachableInv` | `src/common/controllers/eof_controller/EOF_controller.py:164-197` | The inductive invariant holds in every state any run of the stage can reach: any number of workers, threads and clients' packets, any interleaving. |
| `EofSafety.ConsensusSound` | `src/common/controllers/eof_controller/EOF_controller.py:264-326` | Once the leader has decided OK: its snapshots accounted for every announced packet if and only if it knew every non-zero total, and then every packet of every flux has been processed, the broadcast flux at each worker. |
| `EofSafety.SingleDownstreamEof` | `src/common/controllers/eof_controller/EOF_controller.py:394-427` | At most one downstream EOF, and only after every worker has run its on-consensus callback exactly once and finished. |
| `EofSafety.DownstreamTotalsExact` | `src/common/controllers/eof_controller/EOF_controller.py:449-464` | If every total was known at the decision, the downstream EOF equals per output the sends of all workers, and no worker can count another send. |
| `EofSafety.SlotsSuffice` | `src/common/controllers/eof_controller/message_handler/message_handler.py:14-59` | In every reachable state the counters and EOFs fit the two slots. |
| `EofDissemination.RecordsDependOnArrivedSet` | `src/common/controllers/eof_controller/EOF_controller.py:141-161` | Between registrations the recorded prefixes and totals depend only on the set of EOFs that arrived, whatever their order, duplication and thread; each of them has a counter, and every counter is the number of packets counted. |
| `EofDissemination.StartsExactlyOnce` | `src/common/controllers/eof_controller/EOF_controller.py:203-225` | The leader starts consensus at most once, never before the last expected EOF, and has started when registrations under way are done. |
| `EofHandlers.ResponseStepIsTheHandler` | `src/common/controllers/eof_controller/EOF_controller.py:372-391` | The protocol's step on a response leaves the leader the records that OnConsensusResponse ensures and puts the messages it sends into the channel of every other worker: OK exactly if complete partials agree, FAIL exactly if they do not. |
| `EofHandlers.EofStepsAreTheHandler` | `src/common/controllers/eof_controller/EOF_controller.py:121-161` | The separate steps of an EOF, with the leader's snapshot and request if its check starts consensus, are enabled one after the other and, run without interruption, leave the records, copies and requests that OnInputEof and OnEofCopy ensure; a refused EOF changes nothing. |
| `EofLiveness.ExactlyOnePlace` | `src/common/controllers/eof_controller/EOF_controller.py:361-391` | While the leader waits, each other worker has exactly one of: the request in flight, a response in flight, a recorded partial. |
| `EofLiveness.NothingRefused` | `src/common/controllers/eof_controller/EOF_controller.py:164-194` | No response, report, OK or FAIL of a round is ever refused by the state guards. |
| `EofLiveness.CompleteExactly` | `src/common/controllers/eof_controller/EOF_controller.py:244-262` | The leader holds all partials if and only if everyone answered and its own snapshot covered every expected prefix. |
| `EofLiveness.RoundEndsExactlyIfCovered` | `src/common/controllers/eof_controller/EOF_controller.py:372-391` | The last response ends the round, in OK or FAIL, if and only if the leader's snapshot was covered. |
| `EofLiveness.UncoveredNeverEnds` | `src/common/controllers/eof_controller/EOF_controller.py:244-262` | From a round whose snapshot is not covered no run whatsoever leads to a decision or a downstream EOF. |
| `EofLiveness.ControlProgress` | `src/common/controllers/eof_controller/EOF_controller.py:164-197` | From the start of consensus until the leader is done some control step is enabled, unless the leader waits in an uncovered round. |
| `EofLiveness.LateRoundSucceeds` | `src/common/controllers/eof_controller/EOF_controller.py:264-326` | A covered round with known totals whose snapshots were all taken after the last packet was processed ends in OK; so a FAIL means an unprocessed packet at some snapshot or a missing total. |
| `EofLiveness.FailMeansUnprocessed` | `src/common/controllers/eof_controller/EOF_controller.py:372-391` | A round that ends in FAIL had a snapshot taken before all packets were processed, or the leader missed a total. |
| `EofCleanRuns.CleanRunsAreCorrect` | `src/common/controllers/eof_controller/EOF_controller.py:121-161` | If consensus only ever starts with every expected EOF registered completely: an OK means everything is processed, the downstream EOF is exact and the stage never gets stuck. |
| `EofCleanRuns.SingleFluxIsClean` | `src/common/controllers/eof_controller/EOF_controller.py:203-225` | With one upstream flux every run is of that kind. |
| `EofRace.ConsensusCanBeWrong` | `src/common/controllers/eof_controller/EOF_controller.py:141-161` | With two fluxes a run exists in which the leader decides OK while an announced packet still waits in the queue. |
| `EofRace.RoundCanHang` | `src/common/controllers/eof_controller/EOF_controller.py:329-338` | With two fluxes a run exists after which the leader waits for ever, whatever happens. |
| `EofTermination.EndOfDataIsReached` | `src/common/controllers/eof_controller/EOF_controller.py:164-197` | After a clean run that has processed every packet and started consensus, in every further run, whatever its callbacks send and whatever EOFs still arrive: at most 5 control steps per thread, 11 per worker and 5 per EOF accepted later; and whenever no control step is left the downstream EOF has been sent once with exact totals. |
| `EofTermination.EndOfDataCanBeReached` | `src/common/controllers/eof_controller/EOF_controller.py:164-197` | From every such state some run of control steps does send the downstream EOF. |
| `EofExample.SomeStageCompletes` | `src/common/controllers/eof_controller/EOF_controller.py:164-197` | The conditions can be met: a stage of two workers has a run from its initial state to its downstream EOF. |
| `EofTermination.LateMeansAgreement` | `src/common/controllers/eof_controller/EOF_controller.py:264-326` | A clean round whose snapshots were all taken after the last packet was processed agrees. |
| `EofTermination.OneMoreFailure` | `src/common/controllers/eof_controller/EOF_controller.py:377-391` | From a clean start of consensus with every packet processed, at most one round of any further run ends in FAIL. |
| `EofPipeline.SendsAreProcessed` | `src/common/controllers/eof_controller/EOF_controller.py:449-464` | If the totals of one stage's downstream EOF are the announcement of the next, then once that one has agreed it has processed exactly as many packets as the first ever sent to that output, each worker of it if the flux is broadcast. |
| `EofPipeline.EveryMessageProcessed` | `src/common/controllers/eof_controller/EOF_controller.py:449-464` | So, as the broker invents nothing and duplicates are dropped, the messages processed are exactly the messages sent, each once. |
| `EofPipeline.EveryWorkerProcessed` | `src/common/controllers/eof_controller/EOF_controller.py:288-326` | Of a broadcast flux every worker has processed exactly the messages sent, each once. |
| `EofPipeline.EachProcessesItsOwn` | `src/common/controllers/eof_controller/EOF_controller.py:449-464` | Of messages with an address each worker has processed exactly those sent to it, and none was sent to a worker that does not exist. |
| `EofPipeline.CleanDecisionsAreSound` | `src/common/controllers/eof_controller/EOF_controller.py:203-225` | A decision in a clean run, and so any decision of a stage with one flux, is one the results above hold for. |
| `EofLinkExample.SomeStagesAreLinked` | `src/common/controllers/eof_controller/EOF_controller.py:449-464` | The conditions of these results can be met: a stage of two workers exists that completes and is linked to a stage. |
| `Ranges.SameIdsSameList` | `src/common/dedup/ranges.py:53-91` | Two canonical lists (sorted, no empty range, a missing id between ranges) with the same ids are the same list. |
| `Ranges.AddOrderIrrelevant` | `src/common/dedup/ranges.py:53-91` | Two sequences of additions of the same ranges to an empty set, in any order and with any repetition and overlap, end in the same list. |
| `Ranges.ProcessedRanges.AddAll` | `src/common/dedup/ranges.py:2-6` | The constructor's loop is such a sequence, and fails exactly if some range is inverted. |
| `Ranges.ExtendLast` | `src/common/dedup/ranges.py:61-64` | The first fast path keeps the list canonical and adds exactly the given ids. |
| `Ranges.AppendLast` | `src/common/dedup/ranges.py:66-68` | So does the second. |
| `Ranges.Merge` | `src/common/dedup/ranges.py:70-91` | The merge loop over any canonical list gives a canonical list with exactly the added ids. |
| `Ranges.ProcessedRanges.AddRange` | `src/common/dedup/ranges.py:53-91` | Whichever path is taken: canonical, old ids plus the range; an inverted range raises and changes nothing. |
| `Ranges.ProcessedRanges.Contains` | `src/common/dedup/ranges.py:33-48` | True exactly for the ids of the list, with both early exits. |
| `RangeText.FromString` | `src/common/dedup/ranges.py:8-22` | Any text with parts in any order and overlap gives the canonical list of their union, and fails exactly if some non-empty part is no range. |
| `RangeText.ToString` | `src/common/dedup/ranges.py:24-31` | The text is the parts joined by semicolons, single ids without a dash. |
| `RangeText.PartRoundTrip` | `src/common/dedup/ranges.py:17-21` | A part reads back as its range if its start is not negative, and is refused otherwise. |
| `RangeText.PartMeans` | `src/common/dedup/ranges.py:17-21` | Any part: without a dash it is one id, and the first dash separates a start from an end that must not be smaller. |
| `RangeText.TextMeans` | `src/common/dedup/ranges.py:8-22` | Any text of pieces between semicolons is read exactly if every piece that is not empty is a part, and stands for the ids of its parts. |
| `RangeText.JoinSplit` | `src/common/dedup/ranges.py:14-16` | Every text is its pieces put together, and no piece holds a semicolon. |
| `RangeText.WrittenAs` | `src/common/dedup/ranges.py:24-31` | A list of three ranges and the text it is written as. |
| `RangeText.RoundTrip` | `src/common/dedup/ranges.py:8-31` | A canonical list reads back as itself if and only if it has no negative id; otherwise reading fails. |
| `RangeText.ReloadIsSame` | `src/common/dedup/ranges.py:8-31` | Writing and reading back a set of non-negative ids rebuilds the identical list. |
| `Decimal.IntRoundTrip` | `src/common/dedup/ranges.py:19-28` | The decimal text of any integer reads back as the integer. |
| `Decimal.NoLeadingZero` | `src/common/dedup/ranges.py:24-31` | And has no needless zero in front. |
| `Decimal.ValueAppend` | `src/common/dedup/ranges.py:17-21` | Digits are read in positional notation: those in front count as many tens as digits follow. |
| `Decimal.LeadingZeros` | `src/entities/max_amount_per_bank/data_per_bank_redirector/main.py:102-106` | Leading zeros do not change what digits are read as. |
| `Decimal.BlanksIgnored` | `src/entities/max_amount_per_bank/data_per_bank_redirector/main.py:102-106` | Nor do blanks at the ends. |
| `Decimal.SignsAre` | `src/entities/max_amount_per_bank/data_per_bank_redirector/main.py:102-106` | A plus sign does not change the number and a minus sign negates it. |
| `Decimal.UnderscoreJoins` | `src/entities/max_amount_per_bank/data_per_bank_redirector/main.py:102-106` | A single underscore between two groups of digits joins them. |
| `Decimal.NotRead` | `src/entities/max_amount_per_bank/data_per_bank_redirector/main.py:102-106` | What is not digits with single underscores between them, after an optional sign, is no integer. |
| `Decimal.TextsThatAreRead` | `src/entities/max_amount_per_bank/data_per_bank_redirector/main.py:102-106` | Some such texts and their numbers, "001" among them. |
| `Dedup.CollideExactly` | `src/common/dedup/message.py:4-15` | For any ids and types: two messages share a key exactly if the sums of type and number agree, or their ids are the same text that is no number, whatever the types. |
| `Dedup.ToldApartExactly` | `src/common/dedup/message.py:4-15` | A key tells the type and the id of a message from those of all ids in the room and of itself if and only if the id is absent or a number from 0 below 10^12. |
| `Dedup.OutsideRoomCollides` | `src/common/dedup/message.py:1-15` | Every id outside that room shares its key with an id inside it of another type. |
| `Dedup.InMemoryDeduplicator.ShouldProcess` | `src/common/dedup/deduplicator.py:11-37` | True exactly if the message has no key or the key was not marked for that client, for numbers and texts alike. |
| `Dedup.InMemoryDeduplicator.MarkProcessed` | `src/common/dedup/deduplicator.py:39-50` | Marks exactly that client's key; no key marks nothing. |
| `Dedup.InMemoryDeduplicator.RemoveClient` | `src/common/dedup/deduplicator.py:52-55` | Forgets exactly that client's keys. |
| `BatchAck.BatchAckController.AckOne` | `src/common/middleware/batch_controller.py:60-68` | The delivery is acknowledged by the acknowledgement that completes the count, once, and never after it was settled. |
| `BatchAck.BatchAckController.NackAll` | `src/common/middleware/batch_controller.py:70-75` | The delivery is refused unless it was settled before. |
| `BatchAck.Deliver` | `src/common/middleware/batch_controller.py:78-97` | A delivery is settled at most once: refused at the first refusal or exception, acknowledged exactly if it is not empty and every message was; messages after a refusal are not handed over. |
| `ExactlyOnce.KeyForExactly` | `src/common/dedup/deduplicator.py:11-50` | Two messages share a key exactly if they are of one client and their types and ids collide; only a message without id has none. |
| `ExactlyOnce.EachKeyTakesEffectOnce` | `src/entities/filters/bank_filter/main.py:70-90` | Over any sequence of deliveries, repeated or refused midway: the effects are, in order, the acknowledged messages with no earlier one of the same client and key; no two effects share client and key, and every acknowledged message is one of them or shares them with one. |
| `ExactlyOnce.AcknowledgedHasEffect` | `src/entities/filters/bank_filter/main.py:70-90` | If all ids fit, every acknowledged message has an effect with its own client, type and number. |
| `ExactlyOnce.WorkingIsAcknowledged` | `src/entities/filters/bank_filter/main.py:70-90` | A delivery in which no work fails is acknowledged message by message. |
| `ExactlyOnce.UpToTheRefusal` | `src/common/middleware/batch_controller.py:78-97` | A delivery is handled up to its first refusal, which is one of failing work, and no further. |
| `ExactlyOnce.AckedMeansDone` | `src/common/middleware/batch_controller.py:78-97` | An acknowledged delivery had each of its messages acknowledged. |
| `ExactlyOnce.RedeliveryIsHarmless` | `src/entities/filters/bank_filter/main.py:76-86` | Redelivering messages that all had their effect changes nothing and is acknowledged. |
| `ExactlyOnce.Worker.ProcessMessage` | `src/entities/filters/bank_filter/main.py:70-90` | Check, work, mark, acknowledge: the handler does to keys and effects what the specification says, for work that fails before it has any effect. |
| `BankForwarding.ForwardedExactly` | `src/entities/filters/bank_filter/main.py:106-119` | Over any attempts and redeliveries a bank is forwarded if and only if the send did not raise on the first attempt at a record of it that is no duplicate. |
| `BankForwarding.AtMostOnce` | `src/entities/filters/bank_filter/main.py:111-119` | And never twice for one client. |
| `BankForwarding.BankLost` | `src/entities/filters/bank_filter/main.py:70-90` | After a send that raises, the redelivered record is acknowledged and marked, and its bank is never forwarded, whatever follows. |
| `BankForwarding.BankFilter.ProcessMessage` | `src/entities/filters/bank_filter/main.py:70-122` | The bank is remembered before it is sent and the message marked after: state and answer as specified, for sends that succeed and that raise. |
| `ExactlyOnce.Worker.ProcessBatch` | `src/common/middleware/batch_controller.py:78-97` | A whole delivery through handler and ack controller: state and settlement as specified. |
| `BatchPublisher.Publisher.FlushDestination` | `src/common/middleware/batch_controller.py:287-305` | The group of a destination is published as one batch and forgotten, every other is kept, and all messages stay in order; if the broker raises nothing has changed. |
| `BatchPublisher.Publisher.FlushExpired` | `src/common/middleware/batch_controller.py:262-276` | Exactly the groups that waited long enough are published, each whole, or some of them if the broker raises. |
| `BatchPublisher.Publisher.Turn` | `src/common/middleware/batch_controller.py:159-214` | One turn of the loop loses, doubles and reorders nothing. The event's message joins its group; exactly the groups then full or overdue are published, each whole, and every other is held back unchanged with its first-message time; only a broker that raises leaves a due group behind. |
| `BatchPublisher.Publisher.Run` | `src/common/middleware/batch_controller.py:139-234` | Over the whole life everything dequeued for a destination is published to it or still buffered, in order; all of what was dequeued before the closing sentinel is published unless a publishing raised and ended the thread; and every batch but those of the last flush had the full number of messages or a first message that had waited long enough. |
| `ScatterGather.AllNeighboursMeet` | `src/entities/scather_gather/scather_gather_mapper/main.py:117-137` | Whatever the split among mappers, the aggregator of an account sees all its neighbours and any other aggregator none. |
| `ScatterGather.PruningIsSafe` | `src/entities/scather_gather/scather_gather_aggregator/main.py:102-124` | Dropping accounts with fewer than five neighbours never changes whether a pair has five middle accounts. |
| `ScatterGather.MiddlesMeet` | `src/entities/scather_gather/scather_gather_pair_joiner/main.py:118-144` | The joiner of a pair receives exactly the pair's middle accounts that passed both thresholds. |
| `ScatterGather.PipelineAnswersQuery` | `src/entities/scather_gather/scather_gather_joiner/main.py:89-109` | For every set of transfers, split, routing, order and repetition of deliveries: a pair is emitted exactly if the two accounts differ and share at least five middle accounts, and only by one joiner. |
| `ScatterGatherStages.Mapper.OnTransaction` | `src/entities/scather_gather/scather_gather_mapper/main.py:88-95` | The partial dictionaries stay the neighbours of the transfers seen. |
| `ScatterGatherStages.Mapper.OnConsensus` | `src/entities/scather_gather/scather_gather_mapper/main.py:105-137` | One message per origin and per destination, each once, routed by its key. |
| `ScatterGatherStages.Aggregator.OnMessage` | `src/entities/scather_gather/scather_gather_aggregator/main.py:88-124` | Candidates and saved accounts stay a function of the set of messages received; an account is saved exactly from the fifth neighbour on. |
| `ScatterGatherStages.Aggregator.OnConsensus` | `src/entities/scather_gather/scather_gather_aggregator/main.py:132-178` | Candidates are dropped; one message per neighbour of each saved account, each once, routed by the middle account. |
| `ScatterGatherStages.PairJoiner.OnMessage` | `src/entities/scather_gather/scather_gather_pair_joiner/main.py:102-108` | The two sides of every middle account stay what was received. |
| `ScatterGatherStages.PairJoiner.OnConsensus` | `src/entities/scather_gather/scather_gather_pair_joiner/main.py:118-144` | Exactly the products of both sides of every middle account, each triple once. |
| `ScatterGatherStages.Joiner.OnMessage` | `src/entities/scather_gather/scather_gather_joiner/main.py:89-91` | The middle accounts of every pair stay what was received. |
| `ScatterGatherStages.Joiner.OnConsensus` | `src/entities/scather_gather/scather_gather_joiner/main.py:94-109` | Exactly the pairs of different accounts with at least five middle accounts, each once. |
| `ScatterGatherStages.StagesAnswerQuery` | `src/entities/scather_gather/scather_gather_joiner/main.py:94-109` | Workers that send what the contracts of their classes say and receive exactly what was sent to them emit together exactly the answer of the query, each pair at its own joiner. |
| `EndToEnd.ScatterGatherAnswers` | `src/entities/scather_gather/scather_gather_joiner/main.py:94-109` | Four stages, each linked to the one before by its EOF and sending on consensus what its class promises: together the joiners emit exactly the answer of the query on the transfers sent to the mappers. That every stage has received everything follows from the counters. |
| `MaxPerBank.FirstSeenIsFirst` | `src/entities/filters/bank_filter/main.py:106-119` | A bank filter forwards a record exactly if it is the first of its bank. |
| `MaxPerBank.ForwardedOnce` | `src/entities/filters/bank_filter/main.py:106-119` | No bank is forwarded twice by one filter. |
| `MaxPerBank.BankFilter.OnRecord` | `src/entities/filters/bank_filter/main.py:96-122` | One record at a time: forwarded if its bank is new, skipped if it has none, refused if its bank is no number. |
| `MaxPerBank.SameWay` | `src/entities/max_amount_per_bank/data_per_bank_redirector/main.py:30-35` | A bank is hashed alike whether its id is passed as a number or as its decimal text, so all stages agree where it belongs. |
| `MaxPerBank.PaddedSameWay` | `src/entities/max_amount_per_bank/data_per_bank_redirector/main.py:102-108` | Leading zeros, a plus sign or blanks around a bank's number change neither the bank nor the worker it goes to. |
| `MaxPerBank.Redirect` | `src/entities/max_amount_per_bank/data_per_bank_redirector/main.py:102-128` | Every transaction with a bank goes to the mapper its number hashes to, though its text is what is hashed; one without bank is skipped, one whose bank is no number refused. |
| `MaxPerBank.ImprovedMaxima` | `src/entities/max_amount_per_bank/map_max_amount_per_bank/main.py:146-156` | Replacing the stored amount only by a larger one keeps, per bank, a maximum attained by its origin. |
| `MaxPerBank.MaxMapper.OnTransaction` | `src/entities/max_amount_per_bank/map_max_amount_per_bank/main.py:146-158` | The stored maxima are those of the usable transactions seen, the earlier of two equal amounts staying; one without bank or amount is skipped, one whose bank is no number is refused and changes nothing. |
| `MaxPerBank.MaxMapper.OnConsensus` | `src/entities/max_amount_per_bank/map_max_amount_per_bank/main.py:79-94` | One result per bank, routed by the bank. |
| `MaxPerBank.MaxJoiner.OnBank` | `src/entities/max_amount_per_bank/join_max_amount_per_bank/main.py:101-112` | A name that is not missing or empty takes the place of the bank's cached one. |
| `MaxPerBank.MaxJoiner.OnResult` | `src/entities/max_amount_per_bank/join_max_amount_per_bank/main.py:114-128` | The pending results are the maxima of what was received, the earlier of two equal amounts staying. |
| `MaxPerBank.MaxJoiner.OnConsensus` | `src/entities/max_amount_per_bank/join_max_amount_per_bank/main.py:130-151` | One row per bank with a pending result and a cached name other than the placeholder. |
| `MaxPerBank.MaximaMeet` | `src/entities/max_amount_per_bank/map_max_amount_per_bank/main.py:79-94` | For any routing, exactly the joiner of a bank has its result, and it is the bank's maximum over all transactions. |
| `MaxPerBank.NamesMeet` | `src/entities/filters/bank_filter/main.py:109-121` | Exactly the joiner of a bank has its name, if a non-empty one was forwarded, and it is the last one received. |
| `MaxPerBank.RowsAreMaxima` | `src/entities/max_amount_per_bank/join_max_amount_per_bank/main.py:130-151` | Every row has its bank's maximum, attained by the row's origin, and a forwarded name. |
| `MaxPerBank.RowExactly` | `src/entities/max_amount_per_bank/join_max_amount_per_bank/main.py:130-151` | A bank has a row if and only if it has a transaction, a non-empty name was forwarded, and the last such name its joiner received is not the placeholder. |
| `MaxPerBank.RowInEveryOrder` | `src/entities/max_amount_per_bank/join_max_amount_per_bank/main.py:130-151` | It has a row in every order of arrival if and only if it has a transaction, a non-empty name was forwarded, and none that is the placeholder. |
| `MaxPerBank.RowInNoOrder` | `src/entities/max_amount_per_bank/join_max_amount_per_bank/main.py:130-151` | A bank with a transaction has no row in any order of arrival if and only if every non-empty name forwarded for it is the placeholder. |
| `MaxPerBank.NamedLikeThePlaceholder` | `src/entities/max_amount_per_bank/join_max_amount_per_bank/main.py:138-142` | A bank with a transaction and the name "Unknown" that has no row. |
| `MaxPerBank.RowFromRecords` | `src/entities/max_amount_per_bank/join_max_amount_per_bank/main.py:130-151` | From the records of the bank filters: a bank with a transaction has a row if and only if the last name received is the non-empty name on its first record at some filter and not the placeholder; in every order if and only if some first record has a name and none the placeholder; in none if and only if every such name is the placeholder. |
| `MaxPerBank.NamelessFirst` | `src/entities/filters/bank_filter/main.py:106-119` | A bank whose first record at every filter has no name has no row, whatever later records say. |
| `EndToEnd.MaxPerBankAnswers` | `src/entities/max_amount_per_bank/join_max_amount_per_bank/main.py:130-151` | From redirected transactions and bank records, with stages linked in the same way: every row has its bank's maximum over all transactions and the name of a first record; a bank has a row if and only if it has a transaction and the last name received is such a name and not the placeholder. |
| `AverageFilter.AverageMapper.OnTransaction` | `src/entities/average_per_pay_format/average_per_pay_format_mapper/main.py:89-105` | Sums and counts stay those of the rows with a format and a readable amount; a missing amount counts as zero. |
| `AverageFilter.AverageMapper.OnConsensus` | `src/entities/average_per_pay_format/average_per_pay_format_mapper/main.py:118-129` | The partials sent report exactly the sum and count of every format. |
| `AverageFilter.AverageJoiner.OnPartial` | `src/entities/average_per_pay_format/average_per_pay_format_joiner/main.py:92-110` | Merged sums and counts are those of all partials received. |
| `AverageFilter.AverageJoiner.BuildAverages` | `src/entities/average_per_pay_format/average_per_pay_format_joiner/main.py:112-126` | An average exactly for the formats with a positive count: merged sum by merged count. |
| `AverageFilter.MergedIsAverage` | `src/entities/average_per_pay_format/average_per_pay_format_joiner/main.py:92-126` | For every split of the rows among mappers and every order of partials the merged average of each format is its average over all rows. |
| `AverageFilter.AmountFilter.OnAverages` | `src/entities/filters/amount_filter_q3/main.py:95-99` | The limits become a hundredth of the averages received, at any time; what was filtered before stays as it is. |
| `AverageFilter.AmountFilter.OnRow` | `src/entities/filters/amount_filter_q3/main.py:128-135` | A row is stored before the averages are complete and filtered at once afterwards; either way it is accounted for. |
| `AverageFilter.AmountFilter.BeginConsensus` | `src/entities/filters/amount_filter_q3/main.py:101-103` | The callback first declares the averages complete; nothing that was received or stored changes. |
| `AverageFilter.AmountFilter.DrainNext` | `src/entities/filters/amount_filter_q3/main.py:101-108` | The callback filters one stored row, which is emitted if it passes; the account of received, stored and filtered rows is kept. |
| `AverageFilter.AmountFilter.EachRowOnce` | `src/entities/filters/amount_filter_q3/main.py:101-145` | Whatever the interleaving of rows, averages and callback, if no averages came after the callback began: a row is emitted as often as it was received if it passes, and never otherwise. |
| `AverageFilter.PassesExactly` | `src/entities/filters/amount_filter_q3/main.py:137-145` | With the averages of all rows as limits, a row passes exactly if its amount is positive and below one percent of its format's average. |
| `AverageFilter.QueryAnswered` | `src/entities/filters/amount_filter_q3/main.py:137-145` | From mappers to filters: for every split of the rows, order of the partials and split of the payments, a payment is emitted as often as it was received if it is positive and below one percent of its format's average over all rows, and never otherwise. |
| `EndToEnd.SmallPaymentsAnswer` | `src/entities/filters/amount_filter_q3/main.py:137-145` | From the rows and payments sent to mappers and filters, linked in the same way: a payment is emitted as often as it was sent if it is positive and below one percent of its format's average over all usable rows, and never otherwise. |
| `Wire.RecvSized` | `src/common/message_protocol/external.py:19-31` | For any sizes of the pieces the socket delivers: exactly the next bytes and no more, or an error if the stream ends before. |
| `Wire.RecvMessage` | `src/common/message_protocol/external.py:213-218` | One message is read exactly as the byte stream says, leaving the rest of the stream; unknown types are errors. |
| `Wire.RecvRecord` | `src/common/message_protocol/external.py:34-171` | The field-by-field handlers read the fields of their type in order. |
| `Wire.RecvAccounts` | `src/common/message_protocol/external.py:173-186` | The list of query 4 is read as its count and then each account. |
| `Wire.MessageRoundTrip` | `src/common/message_protocol/external.py:34-311` | Every serialised message, followed by anything, parses as what its receiver is meant to get, leaving what follows. |
| `Wire.ReceivedAsSent` | `src/common/message_protocol/external.py:53-55` | Every message arrives as it was sent except account records, whose entity id arrives as the number its octets spell. |
| `Wire.StreamRoundTrip` | `src/common/message_protocol/external.py:213-311` | The concatenated bytes of any list of messages parse as the list. |
| `Wire.CutShort` | `src/common/message_protocol/external.py:19-31` | Wherever the stream ends before the last octet of a message nothing is read and that is an error. |
| `Wire.UnknownTypes` | `src/common/message_protocol/external.py:199-218` | Types 1 to 10 have a handler and no other has. |
| `Wire.TypeComesFirst` | `src/common/message_protocol/external.py:221-311` | The first four octets are the type, and types 8 to 10 have no others. |
| `Wire.AccountOctets` | `src/common/message_protocol/external.py:221-236` | The octets of an account record, field by field. |
| `Wire.TwoAccountsOctets` | `src/common/message_protocol/external.py:300-306` | The octets of a list of accounts: their number, then each after its length. |
| `Wire.RecvAll` | `src/common/message_protocol/external.py:19-218` | Reading repeatedly from a socket that delivers those bytes in any pieces returns the messages one by one. |
| `Recovery.RecoveryNode.ProcessHeartbeat` | `src/recovery_node/main.py:125-142` | Ignored for unknown containers and during a restart or its grace period, otherwise recorded as sign of life, ending the recovery. |
| `Recovery.RecoveryNode.CheckHeartbeats` | `src/recovery_node/main.py:163-182` | Ends exactly the grace periods that are over and names exactly the overdue containers. |
| `Recovery.RecoveryNode.ResetBegin` | `src/recovery_node/main.py:188-204` | A restart is committed exactly for a known container that is not being restarted and silent for longer than the timeout. |
| `Recovery.RecoveryNode.ResetEnd` | `src/recovery_node/main.py:206-214` | Success starts the grace period and counts as sign of life; failure only ends the restart. |
| `Recovery.RestartsAreSpaced` | `src/recovery_node/main.py:125-214` | In every run of interleaved blocks, even with clock readings older than the block that uses them: no second restart while one runs, none while the last sign of life is recent, and at least the timeout after a successful one (more than it with prompt readings). |
| `Recovery.LiveIsNotRestarted` | `src/recovery_node/main.py:125-204` | From the steps of a run alone: a container is named by a check, and its restart committed, only if it is supervised, no restart of it is running, and the start and every heartbeat of it that came outside restarts and grace periods are older than the timeout. |
| `Recovery.SilentIsRestarted` | `src/recovery_node/main.py:163-204` | And a supervised container whose heartbeats and restarts are all older than the timeout, with no restart running, is named by the check, and its restart commits whatever is done about others in between. |

## Left out

- EofProtocol: one client of one stage, with at least two workers and at most two upstream fluxes, one of them the broadcast flux when there is auxiliary input; a single worker skips the comparison of counters and finishes on EOFs alone.
- EofProtocol: the leader's queue is modelled as one FIFO channel per sender, and copies of EOFs may arrive at any time and any number of times after they were sent; both allow more runs than the broker does.
- EofProtocol: answering a request is one step, as nothing a worker does between its blocks can be seen by the others; the leader's handling of a response is one step up to its callback, as it holds the transition lock.
- EofController.Controller.OnInputEof: the number of origin workers in an EOF is stored by the source and never read; it is not modelled.
- Callbacks given to the controller: they run between OnConsensusResponse and OnOwnPost, and between OnConsensusOk and SendPost; what they count goes through OnPacketSent.
- The pause before a failed round is repeated, shutdown, logging, and the closing of consumers and producers.
- Crashes and restarts of workers, whose memory is lost, and duplicates that reach a different worker or arrive after the client was removed.
- RabbitMQ, sockets below single reads, threads and locks: channels are sequences and every locked block is one step.
- ExactlyOnce.Worker.ProcessMessage: the work on a message either fails before it has any effect or has its whole effect; the bank filter, where it can fail in between, is the subject of `BankForwarding`. A failure after the send and before the mark is not modelled.
- RangeText.FromString: text is ASCII; the source's integer parser also takes digits and blanks of other scripts.
- Dedup.InMemoryDeduplicator.ShouldProcess: ids given as text are ASCII; ids that are neither absent, integers nor text are not modelled.
- BatchPublisher.Publisher.Run: the connection opens; enqueueing after close is refused by the source and not modelled.
- BatchPublisher.Publisher.Turn: the encoding of a batch in base64 and JSON is library code that undoes itself.
- ScatterGatherStages, MaxPerBank, AverageFilter: one client; the source keeps a dictionary entry per client.
- EofPipeline.EveryMessageProcessed: that no worker processes a message twice, and that the broker neither invents messages nor delivers one to two workers, are hypotheses; the first is what `ExactlyOnce` proves of one worker.
- EndToEnd.SmallPaymentsAnswer: the joiner of averages is a single worker, which runs no consensus; that it received every partial, and the filters its averages, are hypotheses.
- ScatterGather.PipelineAnswersQuery: the hashes are arbitrary functions of the keys, as sha256 and crc32 are deterministic.
- AverageFilter.MergedIsAverage: amounts are exact numbers, with no rounding and no infinities.
- AverageFilter.AmountFilter.EachRowOnce: averages that arrive after the callback began are stored like any others, and rows filtered before went by the limits there were; consensus covers the broadcast flux, so that they all arrive before. There is one joiner of averages. Rows whose amount is no number make the source raise and are not modelled.
- Wire.RecvString: text is ASCII; other text is decoded by the source as UTF-8 while its length counts characters.
- Wire.MessageRoundTrip: sizes and numbers of 2^32 and more make the source raise an exception when sending; doubles are eight octets that are not interpreted.
- Recovery.LiveIsNotRestarted: each of the two threads reads the clock after its previous block, as one thread handles heartbeats and one checks and restarts.
- Recovery.RestartsAreSpaced: which supervisor watches which container, and the docker command itself.
- The gateway, the client, the currency converter, rate providers and the stateless filters.

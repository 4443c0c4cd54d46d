# Session manager of the WebRTC samples: a verified model

The samples of the Kinesis Video WebRTC SDK share one session manager (`samples/Common.c`). It keeps a
bounded array of streaming sessions, a table from the CRC of a peer id to a session, and per-key queues of
ICE candidates that arrive before their offer or answer. Signaling callbacks, a cleanup loop, timers,
connection callbacks and media senders work on this state concurrently. This project models the manager and
the sender loops that read it, and proves what holds over every run.

| file | what it holds |
|---|---|
| `Samples.dfy` | what the components share |
| `CallLog.dfy` | the observable history of a run and the properties stated on it |
| `SessionScan.dfy` | the swap-with-last cleanup scan as a function of the list |
| `PendingQueues.dfy` | the per-key queues, their lookup and their expiry |
| `SessionRegistry.dfy` | the signaling state machine as a value, with every failure outcome, and its runs |
| `RegistryCalls.dfy`, `RegistryInvariants.dfy` | what a step logs, and what every step keeps |
| `RegistryTheorems.dfy`, `CandidateOrder.dfy` | results about whole runs |
| `RegistryEffects.dfy` | what each event brings about, and what that means over runs for flags and expiry |
| `SampleConfiguration.dfy` | the mutable object; each method performs exactly one registry step |
| `SenderInterleaving.dfy` | the two locks, statement by statement, with any number of senders |
| `BitrateControl.dfy` | the TWCC loop between estimator callbacks and the shared encoder |
| `FramePacing.dfy` | the pacing of the video and audio senders |
| `AnswerProtocol.dfy`, `MediaThread.dfy` | who answers an offer; who starts the media sender routine |
| `CertificatePool.dfy`, `MetricsHistory.dfy` | pregenerated certificates; periodic stats |

## How the code is modelled

- A registry step is one critical section under `sampleConfigurationObjLock`, or one change of a terminate
  flag. What unseen calls answer (whether an offer is handled and how far it gets, which candidates
  `handleRemoteCandidate` rejects, the time) is part of the event, so the theorems hold for every answer.
- COMPUTE_CRC32 is an arbitrary function parameter; colliding peers are included.
- A session handle is the identity of one allocation and is never used again, so that a pointer to a freed
  session can be told apart from a pointer to a later session at the same address.
- StackQueue is a FIFO sequence; `hashTablePut` fails on an existing key; time never goes back and sums of
  times do not overflow. DOUBLE is modelled as `real`.
- A terminate flag may be set while an offer or a scan is under way. An offer reads no flags, so the
  registry takes it as set after the offer. For a scan, `SenderInterleaving` sets flags between any two
  statements, and `CleanupPassIsScan` proves that the pass leaves the list and frees the sessions of an atomic
  scan with each of those flags set before it or after it.

## What turned out

- If a queued candidate is rejected while an offer's queue is drained (`samples/Common.c:1517`), the clean-up
  frees the session although the table already holds it.
- The answer case (`samples/Common.c:1531-1540`) asks for no role. An answer that reaches a master files its first
  session under the key of the sender as well, and a cleanup pass later removes the session's own key only.
- `RegistryIffNothingBreaks` shows that these are the only two ways in which table and list of a master come
  apart. `BrokenForever` shows that neither can be repaired: every later offer with the key is turned away.
- A run submits a candidate to a freed session exactly if one arrives for a key after an offer for that key whose
  drain failed, or after a pass that freed a session which an answer had filed under that key (`RunSafety`);
  `FiledAnswerExample` is a run of the second kind in which every drain succeeds.
- The answer case reads the first slot without looking at the count. It finds a session that is not freed exactly
  if one is listed (`FirstSlotIsLiveIff`); otherwise the slot is still NULL or stale.
- A peer that does not trickle can be answered more than once: an answer that reaches its session with new ICE
  credentials restarts gathering, and n restarts can give n + 1 answers but no more (`AtMostOneAnswer`,
  `RestartsAnswerAgain`).
- One cleanup pass need not clear all terminated sessions. It clears t of them exactly if the last t - 1 slots
  of the list hold none (`OnePassClearsIff`). It always halves them, and that is exact for a list in which all
  have terminated.
- Video pacing has no drift exactly if every iteration's delay is shorter than a frame; the audio loop
  accumulates every delay.
- A failed THREAD_CREATE leaves `mediaThreadStarted` set, and no sender routine is started again. The flag can
  be relied on exactly if none has failed (`FlagIsHonestIff`).
- The loss figure is the percentage of lost packets exactly if no more packets were acknowledged than sent and
  a hundred times the lost ones fits 32 bits (`PercentLostIff`). Otherwise it is wrong in one of two ways
  (`PercentLostWraps`): 11 packets acknowledged of 10 sent read as a loss of over 400 million percent, which
  drives the bitrate down, and 42949673 packets all lost read as no loss, which lets it rise. The bitrate limits
  hold nevertheless.

## Model

| member | source | states |
|---|---|---|
| `SessionScan.ScanHalves` | samples/Common.c:1341-1366 | one pass splits the list into what stays and what is freed, frees only terminated sessions, keeps every other one, and leaves at most as many terminated ones as it freed |
| `SessionScan.OnePassClearsIff` | samples/Common.c:1341-1366 | one pass clears all t terminated sessions iff the last t - 1 slots hold none of them |
| `SessionScan.ScansClearAll` | samples/Common.c:1341-1366 | t >= 1 terminated sessions are gone after floor(log2 t) + 1 passes |
| `SessionScan.ScansBoundIsTight` | samples/Common.c:1341-1366 | if all t sessions of the list have terminated, floor(log2 t) passes do not suffice, for every t |
| `PendingQueues.GetPendingMessageQueueForHash` | samples/Common.c:1668-1700 | finds the first queue of the key iff there is one, and takes out that one and no other if asked to |
| `PendingQueues.RemoveExpiredMessageQueues` | samples/Common.c:1702-1732 | the dequeue and enqueue rotation keeps the unexpired queues and frees the expired ones, both in their order |
| `PendingQueues.KeptDroppedMembers` | samples/Common.c:1715-1727 | a queue is kept iff it has not expired and freed iff it has |
| `PendingQueues.KeptForTwentySeconds` | samples/Common.c:1718-1727 | a queue is kept iff at most 200000000 units of 100 ns, 20 seconds, have passed since its creation, and dropped iff more have |
| `PendingQueues.ExpiryDropsPrefix` | samples/Common.c:1715-1727 | on queues in order of creation, expiry drops exactly a prefix |
| `RegistryCalls.DrainProject` | samples/Common.c:1436-1450 | a drain settles the whole queue in order, and submits all of it if no candidate is rejected |
| `RegistryCalls.DrainStops` | samples/Common.c:1436-1450 | candidates before the first rejected one are submitted and accepted, it is submitted and rejected, and those behind it are discarded and never submitted |
| `RegistryCalls.DrainGives` | samples/Common.c:1436-1450 | what the session is given is the queue up to and including the first rejected candidate |
| `RegistryInvariants.StepKeepsInv` | samples/Common.c:1472-1622 | every step, with every failure outcome and either role, keeps the invariant of list, table, queues, frees and candidates |
| `RegistryInvariants.RunKeepsInv` | samples/Common.c:1324-1622 | in every run: at most 10 distinct listed sessions; a session is listed iff it is not freed and none is freed twice; one pending queue per key, disjoint from the table, non-empty, candidates only, sorted by creation; each key's arrivals are its settled and then its queued candidates, in order |
| `RegistryInvariants.StepProgress` | samples/Common.c:1558-1583 | what arrives for a key in a step is settled or queued behind what is there, exactly once |
| `RegistryInvariants.ScanStructure` | samples/Common.c:1341-1366 | a pass takes out of the table exactly the own keys of the sessions it frees; foreign keys of theirs stay |
| `RegistryTheorems.StepDangling` | samples/Common.c:1510-1526 | a key comes to point to a freed session exactly by an offer whose drain fails, or by a pass that frees a session filed under it that has another key |
| `RegistryTheorems.StepForeign` | samples/Common.c:1537-1540 | a session of a master comes to be filed under a foreign key exactly by an accepted answer with a new key, and no step removes that entry |
| `RegistryTheorems.DanglingIff` | samples/Common.c:1475-1550 | after any prefix of any run of either role, a key points to a freed session iff an offer for it had a failing drain, or an answer filed a session under it that a later pass freed |
| `RegistryTheorems.RegistryIffNothingBreaks` | samples/Common.c:1475-1550 | after any run of a master, table and list are in bijection iff in it no offer's drain failed and no answer with a new key was accepted |
| `RegistryTheorems.MasterRegistry` | samples/Common.c:1475-1550 | the same from the start of a master, with the whole invariant |
| `RegistryTheorems.BrokenForever` | samples/Common.c:1484-1486 | a key that such an offer or answer has broken keeps its session in every continuation, and offers for it have no effect |
| `RegistryTheorems.DanglingForever` | samples/Common.c:1484-1517 | once a key is mapped to a freed session, in every continuation it stays mapped to it, offers for it have no effect, and a candidate for it is submitted to freed memory |
| `RegistryTheorems.FailedDrainBreaks` | samples/Common.c:1605-1614 | any offer whose drain fails breaks the bijection and makes the key's next candidate unsafe |
| `RegistryTheorems.FailedDrainExample` | samples/Common.c:1605-1614 | a concrete run in which the bijection is lost |
| `RegistryTheorems.RunSafety` | samples/Common.c:1558-1583 | in every run of either role, candidates are submitted only to described, unfreed sessions iff none arrives for a key after an offer for that key whose drain failed, or after a pass that freed a session which an answer had filed under that key |
| `RegistryTheorems.FiledAnswerExample` | samples/Common.c:1581-1581 | a run of the second kind in which every drain succeeds |
| `RegistryTheorems.ViewerFreesNone` | samples/Common.c:1341-1366 | in runs of a viewer the second kind does not occur |
| `RegistryTheorems.CandidatesAreSafe` | samples/Common.c:1510-1517 | if no offer's drain fails and no pass frees a session that an answer has filed, every submission follows a successful setRemoteDescription of a session not freed, no session is freed twice, and no key points to a freed session |
| `RegistryTheorems.StepDeadCount` | samples/Common.c:1341-1366 | a pass at least halves the terminated sessions of the registry, and no event other than a termination changes their number |
| `RegistryTheorems.PassesClearTerminated` | samples/Common.c:1335-1366 | every run without further terminations that contains floor(log2 t) + 1 passes, among whatever offers and candidates, ends with no terminated session listed |
| `CandidateOrder.EachCandidateOnce` | samples/Common.c:1558-1583 | in every run, failing drains included, each candidate that arrived was settled exactly once or is still queued, and nothing else was settled |
| `CandidateOrder.KeysShareNothing` | samples/Common.c:1558-1583 | no candidate arrives, is settled or is queued under two keys |
| `CandidateOrder.NeverOutOfOrder` | samples/Common.c:1427-1583 | in every run, failing drains included, a session is given the candidates of a key in order of arrival and none twice |
| `CandidateOrder.StepDiscards` | samples/Common.c:1496-1505 | candidates are discarded only by expiry, by an offer that finds the list full, or by a failing drain |
| `CandidateOrder.CandidatesInOrder` | samples/Common.c:1427-1583 | with successful drains, what a session was given for a key is a contiguous, in-order, duplicate-free segment of the key's arrivals, from the first one unsettled at registration, and up to the last one while it is in the table |
| `CandidateOrder.StepKeepsPair` | samples/Common.c:1483-1588 | every step with a successful drain extends the segment of the registered session and no other |
| `RegistryEffects.OfferTurnedAway` | samples/Common.c:1484-1506 | an offer with a known key, or one that finds 10 sessions, creates and files nothing; its key has no queue afterwards and no other key is touched |
| `RegistryEffects.OfferOpens` | samples/Common.c:1507-1526 | any other offer creates one unflagged session, files it iff handled, and lists it last iff every waiting candidate is accepted too; no other key is touched |
| `RegistryEffects.OfferTalks` | samples/Common.c:1507-1517 | with exactly which outcome the session is described, which candidates it is given, and that it is freed iff not listed |
| `RegistryEffects.AnswerDescribes` | samples/Common.c:1538-1540 | every answer describes the first listed session exactly once, also if its key is taken; only an accepted one with a new key files it |
| `RegistryEffects.AnswerGives` | samples/Common.c:1543-1550 | such an answer gives the session the queue of the key up to the first rejected candidate |
| `RegistryEffects.CandidateGoesOn` | samples/Common.c:1558-1583 | a candidate is submitted to the session of its key with the outcome of that call, or queued; nothing else changes |
| `RegistryEffects.OtherMessages` | samples/Common.c:1585-1588 | other messages change nothing, and the clock follows the events that read it |
| `RegistryEffects.ViewerExample` | samples/kvsWebRTCClientViewer.c:103-106 | a viewer's session is the one that the answer files |
| `RegistryEffects.TerminateFlags` | samples/Common.c:59-66 | a termination flags its session, no other, and changes nothing else |
| `RegistryEffects.FlaggedIff` | samples/Common.c:59-66 | in every run, a session is flagged iff there was a termination of it |
| `RegistryEffects.PassFreesTerminated` | samples/Common.c:1341-1363 | in every run, a pass frees only listed sessions of which there was a termination before |
| `RegistryEffects.QueueOrigin` | samples/Common.c:1625-1650 | in every run, the creation time of a queue is the arrival time of the first candidate in it |
| `RegistryEffects.ExpiresIffTooOld` | samples/Common.c:1402-1403 | in every run, an expiry discards all candidates waiting for a key iff the first of them arrived more than 20 seconds before, and none otherwise |
| `SampleConfigurations.SampleConfiguration.constructor` | samples/Common.c:963-967 | starts empty |
| `SampleConfigurations.SampleConfiguration.SubmitPendingIceCandidate` | samples/Common.c:1427-1457 | submits in order until the first candidate that is rejected, and leaves exactly those behind it; succeeds iff none is |
| `SampleConfigurations.SampleConfiguration.PutAndDrain` | samples/Common.c:1540-1550 | table entry, removal of the queue, and exactly the calls of the drain |
| `SampleConfigurations.SampleConfiguration.OpenSession` | samples/Common.c:1507-1526 | performs the offer step for a new peer, with the clean-up of each failure |
| `SampleConfigurations.SampleConfiguration.ReceiveOffer` | samples/Common.c:1484-1529 | performs the offer step; reports success iff the peer is new and the list is full or everything succeeds |
| `SampleConfigurations.SampleConfiguration.ReceiveAnswer` | samples/Common.c:1531-1556 | performs the answer step on the first listed session; reports success iff the answer is accepted, its key is new, no queued candidate is rejected and the metrics call succeeds |
| `SampleConfigurations.SampleConfiguration.ReceiveCandidate` | samples/Common.c:1558-1583 | performs the candidate step: queue without a session, submit with one |
| `SampleConfigurations.SampleConfiguration.SignalingMessageReceived` | samples/Common.c:1459-1622 | one message is one registry step, and the returned status is the one of its case |
| `SampleConfigurations.SampleConfiguration.RemoveSession` | samples/Common.c:1343-1363 | swap with the last slot, unlink from the table, free |
| `SampleConfigurations.SampleConfiguration.ScanTerminatedSessions` | samples/Common.c:1341-1366 | the loop in place on the array performs the scan step |
| `SampleConfigurations.SampleConfiguration.ExpirePending` | samples/Common.c:1402-1403 | performs the expiry step |
| `SampleConfigurations.SampleConfiguration.TerminateSession` | samples/Common.c:59-66 | sets the terminate flag of the given session and leaves every other one as it was |
| `SenderInterleaving.SafeInEveryInterleaving` | samples/Common.c:1337-1366 | in every interleaving of passes, offers, stats and senders, every session read is unfreed, no freed session is listed, and senders see the list as it was when they took the lock |
| `SenderInterleaving.RunKeepsInv` | samples/Common.c:1523-1526 | every run keeps the lock and list invariant |
| `SenderInterleaving.StepKeepsInv` | samples/Common.c:1345-1363 | every statement of every thread keeps the lock and list invariant |
| `SenderInterleaving.FirstSlotIsLiveIff` | samples/Common.c:1538-1539 | in every interleaving, whenever the object lock is free, the unfreed sessions are those listed, and the first slot holds one iff one is listed |
| `SenderInterleaving.SenderServesEveryone` | samples/kvsWebRTCClientMaster.c:215-240 | a sender that leaves the lock has served each listed session exactly once, in order |
| `SenderInterleaving.SomeHolderCanMove` | samples/kvsWebrtcClientMasterGstSample.c:63-120 | no deadlock over the two locks: while one is held, a holder can go on; the thread join and timer cancel inside freeing a session (samples/Common.c:622-632) are taken as steps that proceed |
| `SenderInterleaving.ListLockIsReleased` | samples/kvsWebrtcClientMasterGstSample.c:63-120 | the list lock is released after a bounded number of steps of its holder, delayed by nobody else |
| `SenderInterleaving.FlagsAreSet` | samples/Common.c:59-66 | in every run, a session is flagged iff its connection failed in it |
| `SenderInterleaving.OfferAppends` | samples/Common.c:1507-1526 | an offer interleaved with senders and terminations appends its session to the list iff it is handled, and frees it otherwise |
| `SenderInterleaving.StatsServeAll` | samples/Common.c:1072-1075 | a stats callback, whatever is interleaved with it, reads each listed session once, in order |
| `SenderInterleaving.PassIsScan` | samples/Common.c:1341-1366 | a pass interleaved with senders and with terminations at any point ends with the list, and has freed the sessions, of the atomic scan for some set of terminated sessions between the one at its start and the one at its end |
| `SenderInterleaving.PassStarts` | samples/Common.c:1337-1341 | the expected result at the start of a pass is the scan of the current list |
| `SenderInterleaving.CleanupPassIsScan` | samples/Common.c:1337-1366 | the same for the whole pass, in terms of the scan of the registry: every termination during a pass counts as before or after it |
| `BitrateControl.NextBitrateBounds` | samples/Common.c:726-736 | a bitrate within the limits stays within them for any loss, grows by at most five percent, moves in the direction the loss asks for, and is 0 only if there was none |
| `BitrateControl.NextBitrateIs` | samples/Common.c:726-736 | the next bitrate is the greatest whole one within five percent and the upper limit, or the current one less the loss but not below the lower limit, and no other |
| `BitrateControl.PercentLostIff` | samples/Common.c:702-703 | the loss figure is the rounded-down percentage iff no more packets were acknowledged than sent and a hundred times the lost ones fits 32 bits; it is then at most 100 |
| `BitrateControl.PercentLostWraps` | samples/Common.c:702-703 | an input for each of the two ways in which it is wrong |
| `BitrateControl.LoopStaysWithin` | samples/Common.c:722-741 | in any interleaving with any sessions, the encoder stays within its limits and every proposal is 0 or within them |
| `BitrateControl.LoopGrowth` | samples/kvsWebrtcClientMasterGstSample.c:68-102 | with k adjustments over all sessions the encoder is at most the start raised k times by five percent |
| `BitrateControl.LoopGrowthFromStart` | samples/Samples.h:89-93 | the same as initial * 1.05^k, from a start within the limits |
| `BitrateControl.AverageBetween` | samples/Common.c:712-713 | the average lies strictly between the old average and the new percentage, and is both if they agree |
| `BitrateControl.RepeatedReports` | samples/Common.c:712-713 | n equal reports leave the part (1 - alpha)^n of the distance to their percentage |
| `BitrateControl.LossIsAverage` | samples/Common.c:702-713 | over any run in which a session stays, its average is the one of its own reports in their order, whatever other sessions and frames do |
| `BitrateControl.LossSinceJoin` | samples/Common.c:712-713 | for a new session, from 0 on |
| `BitrateControl.EstimateEffect` | samples/Common.c:715-743 | less than a second after the last adjustment only the average changes; otherwise both media are proposed the next bitrate for the new average; no other session is touched |
| `BitrateControl.RoundFeedsBack` | samples/Common.c:722-738 | a frame, an estimate that adjusts and a frame set the encoder to the next bitrate of what it was |
| `BitrateControl.LoopRecovers` | samples/Common.c:722-738 | without loss, the loop takes the encoder to its upper limit, from anywhere within the limits |
| `BitrateControl.FrameApplies` | samples/kvsWebrtcClientMasterGstSample.c:72-79 | in every run, whatever estimates come between reading the encoder and applying: the session notes the bitrate the encoder has, its proposal is applied if there is one, and nothing else changes |
| `BitrateControl.AdjustmentsAreSpaced` | samples/Common.c:715-743 | in every run, the i-th and the j-th adjustment of one session are at least j - i intervals apart, for all i < j |
| `BitrateControl.LastProposalWins` | samples/kvsWebrtcClientMasterGstSample.c:64-107 | after a frame the encoder has the last listed proposal, each listed session has noted what the encoder was at its turn, all listed proposals are cleared, nothing else changes |
| `BitrateControl.SharedEncoder.Adjust` | samples/Common.c:723-736 | both media get exactly that next bitrate, and with it the bounds: within the limits or 0, at most five percent more, up or down as the loss asks for |
| `BitrateControl.SharedEncoder.SenderBandwidthEstimation` | samples/Common.c:696-743 | performs the estimate step |
| `BitrateControl.SharedEncoder.OnNewSample` | samples/kvsWebrtcClientMasterGstSample.c:64-119 | the session loop reads, applies and clears for each listed session in turn |
| `FramePacing.VideoWakeExactly` | samples/kvsWebRTCClientMaster.c:246-248 | the exact wake-up time for any delays: one slot per frame plus the whole frames each delay costs |
| `FramePacing.NoDriftIffDelaysFit` | samples/kvsWebRTCClientMaster.c:242-248 | every k-th wake-up lies in the k-th frame iff every delay is shorter than a frame |
| `FramePacing.AudioLagIsSum` | samples/kvsWebRTCClientMaster.c:292-317 | the audio sender lags by the sum of all delays, and by less than a frame iff that sum is |
| `FramePacing.SendAudioPackets` | samples/kvsWebRTCClientMaster.c:271-318 | timestamp, file and wake-up of every audio frame |
| `FramePacing.FilesSinceReset` | samples/kvsWebRTCClientMaster.c:188-237 | from a reset on, files are sent from the first in order and cyclically, for any number of files |
| `FramePacing.SendVideoPackets` | samples/kvsWebRTCClientMaster.c:183-249 | timestamp, file and wake-up of every frame; with fitting delays the timestamp is ahead of wall time by at most one frame |
| `AnswerProtocol.RunKeepsInv` | samples/Common.c:219-238 | every interleaving of handler, gathering thread and restarts keeps the protocol invariant and the count of answers |
| `AnswerProtocol.AtMostOneAnswer` | samples/Common.c:327-349 | a peer that trickles gets at most one answer, from the handler; any other peer gets answers only at the end of gathering, at most one more than there were restarts of it, and no candidate |
| `AnswerProtocol.HandlerFailsIff` | samples/Common.c:219-233 | the handler fails iff one of its calls does |
| `AnswerProtocol.StepAnswers` | samples/Common.c:327-335 | the gathering thread answers only after createAnswer succeeded, and an answer more is out iff the sending step got it out |
| `AnswerProtocol.CandidatesAreSent` | samples/Common.c:341-348 | a peer that trickles is sent exactly the candidates that were found and could be sent, any other peer none |
| `AnswerProtocol.RestartsAnswerAgain` | src/source/PeerConnection/PeerConnection.c:1460-1467 | for every n there is a run with n restarts and n + 1 answers |
| `MediaThread.AtMostOneRoutine` | samples/Common.c:235-238 | at most one sender routine is alive or about to be created, for any racing offers and restarts |
| `MediaThread.FailedCreateIsFinal` | samples/Common.c:200-204 | once the flag is set without a routine, no routine is ever started |
| `MediaThread.FlagIsHonestIff` | samples/Common.c:235-238 | in every run from the start, a set flag means a routine that runs or is about to be created, iff no THREAD_CREATE failed |
| `MediaThread.NextOfferStartsAgain` | samples/Common.c:200-204 | when a routine has ended, the next offer starts another one |
| `MediaThread.FailedCreateHappens` | samples/Common.c:235-238 | a run that gets there |
| `CertificatePool.CertificatesConserved` | samples/Common.c:1168-1194 | in every run the pool holds at most 3, each certificate is pooled or freed exactly once, none is used twice |
| `CertificatePool.FirstPooledFirstUsed` | samples/Common.c:437-447 | in every run, the k-th connection that finds a certificate is given the k-th one pooled, and what was pooled and not given is still in the pool |
| `CertificatePool.PregeneratedCertificates.PregenerateCertTimerCallback` | samples/Common.c:1161-1196 | performs the timer step, including a failed enqueue |
| `CertificatePool.PregeneratedCertificates.TakeCertificate` | samples/Common.c:437-456 | performs the connection step for either outcome |
| `MetricsHistory.CallbacksTelescope` | samples/Common.c:1066-1138 | from any recorded history, callbacks keep the sum of deltas equal to the last counters modulo 2^64, and exactly iff no counter goes back |
| `MetricsHistory.ReportsTelescope` | samples/Common.c:1066-1138 | the same over the whole life of a session, with busy locks, failed metrics calls, short intervals and moves within the list |
| `MetricsHistory.ReportedAfterASecond` | samples/Common.c:1077-1082 | a sample a second or more after the last report is reported and recorded, any other is not |
| `MetricsHistory.NotSampled` | samples/Common.c:1066-1076 | a busy lock, an unlisted session or failed metrics leave the history alone |
| `MetricsHistory.NeverASecondBehind` | samples/Common.c:1066-1138 | over any run of callbacks, the last report is less than a second older than the last sample |
| `MetricsHistory.StatsTimer.StatsCallback` | samples/Common.c:1066-1138 | each listed session with metrics is reported once, every other one is left alone, wherever they are in the list |

## Left out

- Jitter buffer, RTP and RTCP buffers, STUN, SDP, ICE agent, SRTP, DTLS and the signaling client: separate components of the SDK behind the calls that are events here.
- Data channel messages, log and metrics formatting, ICE server URLs, certificate lookup, file and command-line handling: string plumbing.
- SenderInterleaving.SomeHolderCanMove: does not model the thread join and timer cancel inside `freeSampleStreamingSession`, because they end inside the library and its threads.
- SampleConfigurations.SampleConfiguration.ReceiveAnswer: does not model an answer while no session is listed, because the code then dereferences NULL or freed memory; `SenderInterleaving.FirstSlotIsLiveIff` says exactly when that is.
- Teardown (`freeSampleConfiguration`) and process exit: depends on thread joins inside the library.
- Out-of-memory and container failures, except the failed certificate enqueue.
- Signaling reconnection inside the cleanup loop: calls into the signaling client.
- The viewer's own first append to the list (`samples/kvsWebRTCClientViewer.c:106`) happens without the list lock; the viewer sample has no media senders, and `SenderInterleaving` covers masters.
- Handlers of the viewer: `RegistryIffNothingBreaks` is about masters, because a viewer files its session under the key of the answering peer and never runs the cleanup loop.
- BitrateControl.LoopGrowth: does not model rounding of doubles, because `real` arithmetic is exact.
- `SenderInterleaving`, `AnswerProtocol` and `MediaThread` are step relations on values rather than objects, because they are about the order in which threads take their statements.
- Of the write loops of the senders, the frame itself, encoder statistics and the first-frame profiling are not modelled.

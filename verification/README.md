# Verification of the media, queue, session and message cores

A Dafny 4.11 model of the parts of the Aloqa server and client that keep state over long runs, with
proofs of what they promise. `dafny verify dfyconfig.toml` checks all of it.

| files | what they model |
|---|---|
| `Layers`, `RoomModel`, `Room` | the SFU room: presenters, viewers, track routers, simulcast streams and each peer's senders, as values (`RoomModel`) and as the objects that update them (`Room`) |
| `RoomMesh`, `RoomLedger`, `RoomDelivery`, `RoomControl`, `RoomFlapping`, `PolicyFlapping` | what every run of a room keeps: the subscription mesh, what is live and what it carries, live media, caps, layer records, bounded flapping |
| `Adaptive`, `Hysteresis`, `Flapping`, `Smoothing`, `Monotone`, `AudioFirst`, `QualityReports` | the adaptive quality controller, its hysteresis and averages, the call service's policy and report validation |
| `SearchQueue`, `SearchAgreement`, `SearchWorkers`, `SearchDrain`, `SearchFairness`, `SearchBatches`, `Backoff` | the search index and its job queue, one worker or many, who is claimed when, and retrying with doubling delays |
| `Sessions`, `SessionManager`, `SessionRuns`, `SessionCap`, `SessionUse` | the Redis session store and the refresh of tokens |
| `Outbox`, `OutboxRuns`, `OutboxFates` | the realtime outbox, its leases and what becomes of each event |
| `Hub`, `HubServer`, `HubRuns`, `HubMembership` | the WebSocket hub and its rooms, channels and evictions |
| `AwsQuery`, `CanonicalQuery`, `CanonicalReading` | percent-encoding and the canonical query of request signing |
| `Slugs` | slugs and unique workspace slugs |
| `Reactions`, `Messages`, `MessageStore`, `MessageEvents`, `MessageHistory` | the client's message store and its event reducer |

Every component is built the same way. A value (`RoomState`, `Queue`, `Store`, `Table`, `HubState`,
`State`) is the state; a function says what one handler does to it; a class with the program's own
fields has a method for each handler, with the program's loops, proved to have exactly that effect;
and lemmas about the functions state what single steps and whole runs keep, and what they bring about, told
from the steps, reports, acts or events themselves.

## Where the code does less than it promises

Each of these comes with the exact condition under which the code does what it should, and most
with the shortest input for which it does not.

- A bandwidth that is not known counts as unlimited (`Monotone.UnknownBandwidthCountsAsUnlimited`,
  `Monotone.TierFollowsBandwidth`).
- A policy that lowers a subscriber is not remembered as a switch, so the next report under another
  policy may move it up at once (`PolicyFlapping.LiftedRisesAtOnce`, `PolicyFlapping.SpacedExactly`).
- A track id or simulcast layer that is published again leaves its receivers on the old local track
  (`RoomDelivery.RepublishLeavesStaleSender`, `RoomDelivery.StepDeliversExactly`).
- A presenter that leaves stays on record in every stream it did not source
  (`RoomControl.DepartedOnRecordExactly`).
- A search job that is finished after its key was enqueued again loses the newer enqueue
  (`SearchWorkers.OvertakenCompletionLosesUpdate`, `SearchAgreement.FinishAgreesExactly`).
- A search row whose lease ran out on its last try makes every claim fail on the table's own check as long
  as fewer than a batch of rows are in line before it; one failed completion can leave such a row
  (`SearchDrain.ClaimRefusedExactly`, `SearchDrain.FailedCompletionBlocks`,
  `SearchDrain.StuckHeadBlocksEveryBatch`).
- A session revoked or rotated between the two rounds of a touch flush comes back as it was
  (`SessionCap.FlushRestoresRevoked`, `SessionCap.FlushWriteConsistentExactly`).
- Two refreshes with one token that overlap can both succeed
  (`SessionCap.InterleavedRefreshesBothSucceedExactly`).
- A refresh whose access token cannot be signed spends the refresh token all the same, and nobody has the new
  one (`SessionUse.RefreshHandsOver`).
- A workspace slug base of 78 bytes repeats itself within its 25 tries, and one of 79 bytes or more never
  gets a number (`Slugs.CandidatesDistinctExactly`, `Slugs.NumberingLostExactly`,
  `Slugs.LongBaseConflicts`).
- The first retry delay is not capped (`Backoff.DelayGrowsExactly`).
- A deletion without a time of its own is stamped again by every delivery
  (`MessageEvents.DeleteTwiceExactly`).
- Forgetting a stream also forgets streams whose ids end in a colon and its id
  (`Adaptive.ForgetStreamIsExact`).

## Model

| member | source | states |
|---|---|---|
| RoomMesh.RunKeepsMesh | internal/media/sfu/room.go:153-298 | after every run of joins, leaves, publishes, relay injections, layer switches and closing that keeps track ids and stream ids apart: each peer is subscribed to every live track and stream it does not source and to nothing that is not live, is on record for every stream it receives, every recorded layer exists, no user is presenter and viewer at once, and both peer caps hold |
| RoomMesh.StepKeepsMesh | internal/media/sfu/room.go:451-708 | each single public handler keeps that mesh |
| RoomMesh.JoinKeepsMesh | internal/media/sfu/room.go:934-970 | a joining presenter or viewer ends up subscribed to all it must be, at a layer that exists |
| RoomMesh.LeaveKeepsMesh | internal/media/sfu/room.go:245-298 | a leaving peer takes its tracks, streams and everyone's subscriptions to them along and nothing else |
| RoomMesh.InsertStreamKeepsMesh | internal/media/sfu/room.go:589-623 | the first layer of a new stream attaches every other peer and puts it on record |
| RoomMesh.SwitchKeepsMesh | internal/media/sfu/room.go:799-818 | a layer switch keeps sender, record and mesh |
| RoomMesh.StepKeepsCaps | internal/media/sfu/room.go:170-172 | no step lets presenters or viewers exceed their caps, from any room within them |
| RoomLedger.StreamLedger | internal/media/sfu/room.go:541-705 | over every run, told from the steps: a stream that appeared and whose source has not ended since is live with the source it appeared with, and its layers are exactly those published or injected since, each carrying the local track of its last publish, or of its first injection if nothing was published |
| RoomLedger.LiveStreamAppeared | internal/media/sfu/room.go:541-705 | and every live stream appeared that way |
| RoomLedger.TrackLedger | internal/media/sfu/room.go:451-660 | the same for tracks, whose source is that of the last publish taken |
| RoomLedger.LiveTrackAppeared | internal/media/sfu/room.go:451-660 | and every live track appeared that way |
| RoomLedger.StreamLiveExactly | internal/media/sfu/room.go:541-705 | a stream is live after a step exactly if it was and its source stays, or the step publishes it within the cap into an open room or injects it |
| RoomLedger.TrackLiveExactly | internal/media/sfu/room.go:451-660 | the same for tracks |
| RoomLedger.PublishBelowCapGoesLive | internal/media/sfu/room.go:716-742 | in an open room a publish below the cap makes the id live with the local track it brings |
| RoomLedger.PresentExactly | internal/media/sfu/room.go:153-298 | a user is in the room after a step exactly if it was and does not leave, or joins an open room that does not have it and is below the cap of the role |
| RoomLedger.JoinedLayerExactly | internal/media/sfu/room.go:934-970 | of every stream it does not source, a joiner is put on the best layer for High as a presenter and for Medium as a viewer |
| RoomDelivery.StepDeliversExactly | internal/media/sfu/room.go:492-509 | a step leaves every sender on the media now live under its id if and only if it does not overwrite a track somebody receives or a layer somebody is on record for |
| RoomDelivery.PublishTrackDeliversExactly | internal/media/sfu/peer.go:111-122 | publishing a track id reaches everyone if and only if nobody was subscribed to that id before: Subscribe leaves an existing sender on the old local track |
| RoomDelivery.PublishLayerDeliversExactly | internal/media/sfu/simulcast.go:101-107 | adding a layer keeps everyone on live media if and only if nobody is on record for that layer: an overwritten layer keeps its watchers on the old local track |
| RoomDelivery.RunDelivers | internal/media/sfu/room.go:451-708 | over every run without such an overwrite, each sender carries its router's track or the layer on record |
| RoomDelivery.RepublishLeavesStaleSender | internal/media/sfu/room.go:492-509 | two joins and the same track id published twice: the viewer's sender stays on the first local track for good |
| RoomControl.RunKeepsTracksCapped | internal/media/sfu/room.go:716-742 | over every run, with republishes and with one presenter overwriting another's id, no local publisher owns more distinct ids than MaxTracksPerPresenter |
| RoomControl.DepartedOnRecordExactly | internal/media/sfu/room.go:1038-1045 | after a peer leaves, a surviving stream still has it on record if and only if it was a presenter: only a viewer's records are cleared |
| RoomControl.AppliedOnBestLayer | internal/media/sfu/room.go:891-902 | after a changed or suspended decision is applied with success, the subscriber is on record on exactly the best available layer for the target |
| RoomControl.ApplySucceeds | internal/media/sfu/room.go:771-829 | in a meshed room, applying any decision for a present peer and a live stream succeeds |
| RoomControl.FailuresExactly | internal/media/sfu/room.go:771-902 | which failure is answered when, in the order in which it is looked for, with the room unchanged |
| RoomControl.PlannedExactly | internal/media/sfu/room.go:858-888 | for a named stream: the three failures exactly, and otherwise the decision on the layer found with the stream's layers, kept as the subscriber's only new state |
| RoomControl.OnlyStreamIsPlanned | internal/media/sfu/room.go:858-888 | a sample that names no stream is about the room's only one |
| RoomControl.DecideIgnoresLayerOrder | internal/media/sfu/simulcast.go:256-265 | a decision does not depend on the order in which the layer map lists the available layers |
| RoomControl.AdaptMovesTowards | internal/media/sfu/room.go:906-915 | planning and applying one report moves the subscriber's record towards the decided target or not at all |
| RoomControl.AudioFirstEndToEnd | internal/service/call/media.go:397-435 | whenever the decision reports audio priority or suspension, then after any runtime policy and the application the subscriber is on record on the lowest layer of the stream |
| RoomFlapping.Moving | internal/service/call/media.go:397-435 | one report, planned, put through the runtime policy and applied, moves the subscriber up only if its decision's own target is up; a policy that leaves targets alone moves it towards the target, one that forces them low never up |
| RoomFlapping.VisitsAreAdmissible | internal/service/call/media.go:397-435 | reports of one subscriber, each under any policy and each finding the room and its own record changed in any way, are a run the flapping bound speaks about |
| RoomFlapping.RoomFlapsBounded | internal/media/sfu/adaptive.go:218-237 | so in a live room, under any policies and with layers switched by hand, reports move one subscriber's layer of one stream up at most once an interval and move it at most 2 + 3 times as often plus twice for each move by others; while no policy lowers a target, every move up also waits for the interval since the last move |
| PolicyFlapping.SpacedExactly | internal/service/call/media.go:676-713 | every move up waits for the interval since the last move, over every run under the given policies, if and only if none of them lowers a target or all of them force it low; also when nobody else moves the subscriber |
| PolicyFlapping.LiftedRisesAtOnce | internal/service/call/media.go:676-713 | the failing run for any other policies: one policy lowers the subscriber, which the controller does not remember, and a report under another moves it up again at that moment |
| Room.Room.constructor | internal/media/sfu/room.go:73-94 | a new room is empty and open, with a controller whose options are sane |
| Room.Room.AddPresenter | internal/media/sfu/room.go:153-195 | the join succeeds exactly when the room is open, the user absent and the cap not reached; its whole effect is Join, whose mesh property is RoomMesh.JoinKeepsMesh |
| Room.Room.AddViewer | internal/media/sfu/room.go:199-240 | the same for viewers |
| Room.Room.RemovePlainTracks | internal/media/sfu/room.go:975-1003 | all plain tracks of the user are gone, from the room and from every peer's senders, and no others |
| Room.Room.RemoveStreams | internal/media/sfu/room.go:1005-1033 | the same for streams, and exactly their adaptive states are forgotten |
| Room.Room.ForgetRecords | internal/media/sfu/room.go:1042-1044 | the user's layer record is dropped from every stream, nobody else's is |
| Room.Room.RemovePeer | internal/media/sfu/room.go:245-298 | the room becomes Leave of itself and the controller loses exactly the states of the user and of the streams that ended |
| Room.Room.Close | internal/media/sfu/room.go:392-429 | the first close empties all four maps; later ones change nothing |
| Room.Room.PublisherTrackCount | internal/media/sfu/room.go:729-742 | the count equals the number of tracks plus the number of streams whose source is the user |
| Room.Room.CanPublishTrack | internal/media/sfu/room.go:716-727 | the answer is yes for an id the user owns already, otherwise exactly while the user is below the cap |
| Room.Room.HandleNewTrack | internal/media/sfu/room.go:451-509 | a refused or late track changes nothing; an accepted one is routed and offered to everyone but its source |
| Room.Room.HandleSimulcastTrack | internal/media/sfu/room.go:541-623 | a new stream attaches everyone else to its first layer; a known one only gains the layer; a refused one leaves no trace |
| Room.Room.InjectRelayTrack | internal/media/sfu/room.go:634-660 | an id already routed is left alone, a new one is inserted whatever the caps say |
| Room.Room.InjectRelayLayer | internal/media/sfu/room.go:664-705 | an existing layer is kept, a new stream attaches everyone but its source |
| Room.Room.SetSubscriberQuality | internal/media/sfu/room.go:771-829 | outcome and new room, for all four outcomes: unknown stream, unknown peer, no layer, or the peer moved to the best available layer |
| Room.Room.AvailableLayers | internal/media/sfu/simulcast.go:256-265 | the listed layers are exactly the stream's layers |
| Room.Room.PlanSubscriberAdaptation | internal/media/sfu/room.go:858-888 | the plan and the controller's new state for every case: no user, no stream, no peer, or a decision on the recorded layer; a sample that names no stream uses the room's only one |
| Room.Room.ApplyAdaptiveDecision | internal/media/sfu/room.go:891-902 | an unnamed decision is refused, an unchanged one does nothing, any other is a layer switch |
| Room.Room.AdaptSubscriber | internal/media/sfu/room.go:906-915 | planning then applying, with the room unchanged when planning fails |
| Room.SubscribeToTracks | internal/media/sfu/room.go:936-948 | the loop leaves the peer subscribed to exactly the tracks it does not source |
| Room.SubscribeToStreams | internal/media/sfu/room.go:956-969 | the loop adds exactly the streams the peer does not source, at its best layer, and records it there |
| Room.AttachPeers | internal/media/sfu/room.go:746-766 | every peer but the skipped has the layer's track as its sender and is on record for it |
| Room.SubscribePeers | internal/media/sfu/room.go:497-509 | every peer but the skipped gains the id, and a sender it had for the id is kept |
| Room.UnsubscribePeers | internal/media/sfu/room.go:985-994 | the id is gone from every peer |
| Room.SimulcastTrack.BestAvailableLayer | internal/media/sfu/simulcast.go:175-192 | the layer picked is BestAvailable of the request |
| Layers.BestAvailable | internal/media/sfu/simulcast.go:175-192 | the highest available layer not above the request, or the lowest above it when there is none, or High when there is no layer |
| Layers.BestMovesTowards | internal/media/sfu/simulcast.go:375-386 | resolving a target from a layer that exists never moves away from the target, and an upgrade never lands above it |
| Layers.BestOfFloorIsLowest | internal/media/sfu/simulcast.go:375-386 | a target no higher than every layer resolves to the lowest one |
| Adaptive.WithDefaults | internal/media/sfu/adaptive.go:45-74 | the options that result are positive with alpha in (0, 1], and sane options are left as they are |
| Adaptive.AdaptiveController.constructor | internal/media/sfu/adaptive.go:147-152 | the controller starts with sane options and no states |
| Adaptive.AdaptiveController.Decide | internal/media/sfu/adaptive.go:178-261 | decision and new state for the sample's user and stream, every other state untouched; a missing layer counts as Medium |
| Adaptive.SettleOn | internal/media/sfu/adaptive.go:207-260 | counters, hysteresis and switch bookkeeping, step by step, come to Settle |
| Adaptive.Clamp | internal/media/sfu/adaptive.go:400-414 | the two loops pick the best available layer, or the request itself when none is listed |
| Adaptive.AdaptiveController.ForgetUser | internal/media/sfu/adaptive.go:154-164 | exactly the states whose key starts with the user id and a colon are gone |
| Adaptive.AdaptiveController.ForgetStream | internal/media/sfu/adaptive.go:166-176 | exactly the states whose key ends with a colon and the stream id are gone |
| Adaptive.ForgetUserIsExact | internal/media/sfu/adaptive.go:190 | with no colon in user ids, that is the user's own states |
| Adaptive.ForgetStreamIsExact | internal/media/sfu/adaptive.go:166-176 | that is the stream's own states and those of every stream whose id ends in a colon and this id |
| Hysteresis.TargetExactly | internal/media/sfu/adaptive.go:207-234 | over every run of reports: the target is the wanted layer or the one found; it moves up exactly when the last GoodSamplesForUpgrade reports all asked for more and the last switch is the interval ago, down exactly when it is urgent or the last PoorSamplesForDowngrade all asked for less and the last switch is that interval ago |
| Hysteresis.StateCounts | internal/media/sfu/adaptive.go:207-241 | the counters are the numbers of reports in a row that ask for the same direction, and the clock is that of the last switch |
| Hysteresis.WantedExactly | internal/media/sfu/adaptive.go:198-205 | the lowest available layer when video is to be suspended, otherwise the best for the supported layer, capped at Low on legacy and at Medium on weak devices |
| Hysteresis.RawQualityExactly | internal/media/sfu/adaptive.go:327-369 | High is supported exactly when bandwidth, transport, decoding and audio are in order, and at least Medium exactly when audio is, the transport is fair and the bandwidth suffices, with a layer to spare if decoding is hard |
| Hysteresis.RawFlagsExactly | internal/media/sfu/adaptive.go:320-378 | when audio comes first, when video is to be suspended, when the grade is critical, and the caps that go with the first two |
| Hysteresis.ScoreOfWholeMetrics | internal/media/sfu/adaptive.go:299-318 | what each metric and counter costs, for whole-number metrics |
| Hysteresis.GradeExactly | internal/media/sfu/adaptive.go:385-398 | the grade by score |
| Hysteresis.CapsMatchTiers | internal/media/sfu/adaptive.go:327-378 | the bitrate cap of a layer is the most bandwidth for which the tiers choose that layer |
| Hysteresis.DegradesExactly | internal/media/sfu/adaptive.go:435-448 | which degradation is advised, in which order of precedence |
| Hysteresis.BuffersExactly | internal/media/sfu/adaptive.go:450-493 | buffers and lip-sync window by grade, audio priority and suspension |
| Hysteresis.FrameRateExactly | internal/media/sfu/adaptive.go:370-378 | the frame rate by supported layer |
| Hysteresis.DecisionCarries | internal/media/sfu/adaptive.go:239-260 | subscriber, stream, time, layer found, smoothed bandwidth and score of a decision |
| Hysteresis.DefaultsExactly | internal/media/sfu/adaptive.go:45-74 | the documented limits stand in for those that are not positive, one by one |
| Flapping.BoundedFlapping | internal/media/sfu/adaptive.go:218-237 | over every run of reports with nondecreasing timestamps, whatever lowers the subscriber and whoever moves it in between: every up-switch comes at least MinUpswitchInterval after the up-switch before it (or the first report), there are at most elapsed / interval of them, and all switches number at most 2 + 3 times the up-switches plus twice the moves by others; when only targets lower it, every up-switch also waits since the last switch; forgetting users and streams loosens none of this |
| Flapping.UpswitchWaits | internal/media/sfu/adaptive.go:219-224 | a decision to move up has waited the interval since the last switch the state remembers |
| Smoothing.SmoothedWithinHull | internal/media/sfu/adaptive.go:263-297 | after every run of samples each of the nine smoothed metrics lies within any bounds on the values folded into it, for any options after withDefaults |
| Smoothing.FoldIsEwmaTimes | internal/media/sfu/adaptive.go:281-296 | a run of samples that fold the same value into a metric applies the average once a sample, whatever the rest carries |
| Smoothing.EwmaTimesConverges | internal/media/sfu/adaptive.go:381-383 | n identical values leave exactly (1 - alpha)^n of the distance to them |
| Monotone.RawDecisionMonotone | internal/media/sfu/adaptive.go:299-379 | no metric or counter that got worse makes layer, score, grade, frame rate, audio priority or suspension of the raw decision better, when the bandwidth tiers are ordered |
| Monotone.TierFollowsBandwidth | internal/media/sfu/adaptive.go:327-342 | less bandwidth means no higher a tier if and only if the smaller bandwidth is known (rounds to a positive number) or the larger one is in the top tier |
| Monotone.MonotoneExactly | internal/media/sfu/adaptive.go:299-379 | for two given bandwidths the decision is monotone in everything else if and only if the bandwidth tiers are ordered |
| Monotone.UnknownBandwidthCountsAsUnlimited | internal/media/sfu/adaptive.go:339-341 | the failing input: no bandwidth decides High, 400 kbps decides Low |
| AudioFirst.AudioFirstTarget | internal/media/sfu/adaptive.go:198-237 | whenever Decide reports audio priority or suspension, its target is no higher than the lowest available layer, whatever the state, counters, device and timers |
| AudioFirst.PolicyTightensExactly | internal/service/call/media.go:676-713 | the runtime policy never raises the layer, and raises neither frame rate nor bitrate if and only if the decision's caps are not below what the policy's mode sets |
| AudioFirst.DecisionCaps | internal/service/call/media.go:761-807 | decisions of the controller and of the fallback have caps that high |
| AudioFirst.PolicyNeverRaises | internal/service/call/media.go:676-713 | so the policy never raises layer, frame rate or bitrate of a decision that reaches it, and keeps audio-first targets at the lowest layer |
| AudioFirst.PolicyIdempotent | internal/service/call/media.go:676-713 | applying the policy twice is applying it once, reasons aside |
| AudioFirst.PolicyIsMeet | internal/service/call/media.go:676-713 | the policy leaves the lesser of what was decided and what its mode allows, in layer, frame rate and bitrate |
| AudioFirst.PolicySuspendsExactly | internal/service/call/media.go:676-713 | audio only also suspends the video and empties its buffer, no other mode does |
| AudioFirst.PolicyTouchesNothingElse | internal/service/call/media.go:676-713 | nothing else changes but whether the target is a change |
| AudioFirst.FallbackExactly | internal/service/call/media.go:761-807 | target, grade and caps of the fallback decision by loss, delay, jitter and reported bitrate |
| QualityReports.ValidateQualityReport | internal/service/call/media.go:485-511 | a report is accepted if and only if every field is in its range, and a refusal names a field that is not |
| QualityReports.AcceptedRunsStayInRange | internal/media/sfu/adaptive.go:299-318 | over every run of accepted reports the smoothed metrics stay in the reportable ranges and every decision's score is between 0 and 100 |
| QualityReports.ScoreWithinHundred | internal/media/sfu/adaptive.go:301-318 | metrics and counters in range score between 0 and 100 |
| QualityReports.RefusedReportWouldScoreAbove | internal/media/sfu/adaptive.go:301-302 | without the validation a loss of -10 would score 140 |
| SearchAgreement.RunAgrees | internal/repository/postgres/search.go:147-231 | over every run of enqueues and batches, whatever fails in them: the index overlaid with the jobs left to do is the index of applying every enqueue at once, and the two are equal once every job is processed |
| SearchAgreement.FinishAgreesExactly | internal/repository/postgres/search.go:704-719 | finishing a claimed job keeps the agreement if and only if its row still holds what was claimed: the completion does not look for a newer enqueue |
| SearchAgreement.ApplyAgreesExactly | internal/repository/postgres/search.go:632-651 | writing the index for a job keeps the agreement if and only if the row is still to be done or holds what the job holds |
| SearchAgreement.CompleteAgreesExactly | internal/repository/postgres/search.go:704-719 | marking a row processed keeps the agreement if and only if the index already holds what the row holds |
| SearchAgreement.FailAgrees | internal/repository/postgres/search.go:721-746 | recording a failure keeps the agreement, however late it comes |
| SearchAgreement.BatchAgrees | internal/repository/postgres/search.go:456-489 | a batch keeps the agreement whichever of its statements fail |
| SearchWorkers.InterleavedRunAgrees | internal/repository/postgres/search.go:547-719 | any number of workers, statement by statement, with leases lost and jobs claimed again: the agreement holds after every statement as long as nobody writes or completes for an overtaken job |
| SearchWorkers.OvertakenCompletionLosesUpdate | internal/repository/postgres/search.go:704-719 | the failing history: claim, enqueue again, finish; everything is processed and the index holds the old document |
| SearchDrain.BatchSpends | internal/repository/postgres/search.go:456-489 | with one worker whose status writes succeed, a batch is never refused, keeps attempts within max_attempts and, if it claimed anything, strictly lowers the tries left over the whole queue |
| SearchDrain.DrainIsBounded | internal/repository/postgres/search.go:456-489 | so at most as many non-empty batches follow one another as tries are left |
| SearchDrain.EmptyBatchMeansDone | internal/repository/postgres/search.go:556-567 | a batch that finds nothing when every row's time has come finds every row processed or dead |
| SearchDrain.ClaimRefusedExactly | internal/repository/postgres/search.go:556-624 | a claim is refused by the table's attempts check if and only if a row whose lease ran out on its last try has fewer than a batch of claimable rows before it; with ties, both bounds between which the query may choose |
| SearchDrain.FailedCompletionBlocks | internal/repository/postgres/search.go:480-485 | the failing history: one job with one try is applied, its completion fails, and after its lease every claim is refused |
| SearchDrain.StuckHeadBlocksEveryBatch | migrations/025_schema_hardening.sql:21 | while such a row is first in line, every batch is refused and the queue does not move |
| SearchDrain.EnqueueKeepsBetween | internal/repository/postgres/search.go:147-231 | a new enqueue leaves the queue fit for draining: attempts within bounds and nothing in processing |
| SearchFairness.ClaimTakesLongestWaiting | internal/repository/postgres/search.go:556-567 | what a claim takes is due and in order of waiting; what is due and left out is so only for a full batch of rows available no later |
| SearchFairness.FewRivalsMeansClaimed | internal/repository/postgres/search.go:556-567 | a due row with fewer than a batch of others available no later is claimed |
| SearchFairness.NoStarvation | internal/repository/postgres/search.go:456-630 | with one worker, whatever is enqueued later and whatever fails, a due job is passed over for at most as many places as there are jobs that became available no later |
| SearchFairness.ClaimedIsLeased | internal/repository/postgres/search.go:556-624 | a claimed row is due again exactly when more than five minutes have gone by |
| SearchFairness.FailedWaitsItsDelay | internal/repository/postgres/search.go:721-783 | a failed job with tries left is not claimed before its retry delay is over, and is due from then on |
| SearchFairness.DeadIsNotClaimed | internal/repository/postgres/search.go:721-746 | a job that has used up its tries is never claimed again |
| SearchBatches.BatchExactly | internal/repository/postgres/search.go:456-489 | up to the first completion that fails each job leaves its row and index entry as its answer says, later ones stay claimed, no other key is touched, and the counts are the numbers of jobs that went each way |
| SearchBatches.RunKeepsLocks | internal/repository/postgres/search.go:547-746 | over every run a row is locked exactly while a worker has it |
| SearchBatches.EnqueuedInLine | internal/repository/postgres/search.go:147-231 | an enqueued key is in line as of now with all its tries and no lock; a deletion keeps its creation time |
| SearchQueue.SearchRepo.constructor | internal/repository/postgres/search.go:71-89 | limits default to 8 attempts and five seconds; the queue starts empty |
| SearchQueue.SearchRepo.EnqueueUpsert | internal/repository/postgres/search.go:147-194 | the key's row is replaced by a pending upsert with no attempts |
| SearchQueue.SearchRepo.EnqueueDelete | internal/repository/postgres/search.go:196-231 | the key's row becomes a pending delete, with the creation time it had |
| SearchQueue.SearchRepo.SelectRows | internal/repository/postgres/search.go:556-567 | the rows selected are claimable, distinct, in order, at most the batch, and leave out only rows not before them, and only when the batch is full |
| SearchQueue.SearchRepo.ClaimPendingJobs | internal/repository/postgres/search.go:547-630 | the selected rows are locked with one more attempt and returned, or the claim is refused and nothing changes |
| SearchQueue.SearchRepo.Apply | internal/repository/postgres/search.go:632-702 | an upsert stores the document, a delete removes it, no other document changes |
| SearchQueue.SearchRepo.Complete | internal/repository/postgres/search.go:704-719 | the row is processed whatever it holds by now |
| SearchQueue.SearchRepo.Fail | internal/repository/postgres/search.go:721-746 | the row is failed or dead, and available again after the retry delay |
| SearchQueue.SearchRepo.ProcessPendingJobs | internal/repository/postgres/search.go:456-489 | queue and counts after a whole batch, for every pattern of failing statements; the first failed completion ends it |
| Backoff.RetryDelay | internal/repository/postgres/search.go:771-783 | the doubling loop gives the base for attempt 1 and min(base * 2^(attempt-1), one hour) from attempt 2 on |
| Backoff.BackoffForAttempt | internal/platform/reliability/policy.go:140-149 | the same with the policy's cap |
| Backoff.DelayGrowsExactly | internal/platform/reliability/policy.go:140-149 | the delay does not shrink from one attempt to the next, except after attempt 1 exactly when the base exceeds the cap: the first delay is not capped |
| Backoff.DelayDoubles | internal/platform/reliability/policy.go:140-149 | from the base on each delay is twice the one before, up to the cap |
| Backoff.SleptUncapped | internal/platform/reliability/policy.go:58-81 | until the cap is reached the sleeps before attempt n add up to base * (2^(n-1) - 1) |
| Backoff.NormalizedExactly | internal/platform/reliability/policy.go:28-42 | one attempt, 200 ms and five seconds stand in for limits that are not positive |
| Backoff.DoValue | internal/platform/reliability/policy.go:58-98 | the call that ends it is the first that succeeds or cannot be retried, the first the context does not outlive, or the last allowed; the time slept is the sum of the delays before it; a sleep cut short adds its error |
| SessionRuns.RunConsistent | internal/service/auth/session.go:118-381 | over every run: a session and its refresh entry name each other and expire together at ExpiresAt, no refresh entry is an orphan, and a live session is in its user's set and in no other |
| SessionRuns.TokenRefreshesOnce | internal/service/auth/service.go:540-587 | over a whole run a refresh token leads to at most one successful RefreshToken |
| SessionUse.RefreshSucceedsExactly | internal/service/auth/service.go:540-587 | in a consistent store new tokens are issued exactly to an active user who presents the token of a live session with time left, if the access token can be signed |
| SessionUse.InactiveKeepsTokens | internal/service/auth/service.go:553-563 | a user who is not active gets none and loses none: every session and refresh entry keeps its token |
| SessionUse.RefreshHandsOver | internal/service/auth/service.go:565-587 | for an active user with a good token the session goes over to the new token and the old one is spent, whether or not the access token can then be signed |
| SessionUse.ValidateExactly | internal/service/auth/session.go:242-291 | a token is valid for exactly the session that carries it and is not over |
| SessionUse.ValidateTouches | internal/service/auth/session.go:271-288 | validating moves the activity time of the session found and changes nothing else |
| SessionUse.ExpiredIsRemoved | internal/service/auth/session.go:262-269 | a session that outlived its ExpiresAt is removed with its token |
| SessionUse.RotateHandsOver | internal/service/auth/session.go:295-338 | rotation succeeds exactly for a session with time left, and changes its token and activity time alone |
| SessionUse.TouchExactly | internal/service/auth/session.go:488-514 | a touch moves the activity time of a session with time left and changes nothing else |
| SessionUse.CreateGivesSession | internal/service/auth/session.go:118-174 | the session just created is there with its token, owner and lifetime, if the user's others are older |
| SessionUse.EnforcingDropsExpired | internal/service/auth/session.go:177-238 | a set that exceeds the cap is left with live sessions only |
| SessionUse.RevokeAllDropsSet | internal/service/auth/session.go:384-410 | revoking all leaves the user no set |
| SessionRuns.LiveSessionIsReachable | internal/service/auth/session.go:242-291 | in a consistent store a live session is found through its own token and through no other |
| SessionRuns.RevokeAllConsistent | internal/service/auth/session.go:384-410 | revoking all of a user's sessions keeps the store consistent and leaves the user none alive |
| SessionRuns.RevokeSeqRemoves | internal/service/auth/session.go:341-381 | revoking a list removes exactly the listed live sessions and changes no other |
| SessionCap.CreateKeepsCap | internal/service/auth/session.go:118-238 | after Create the user has as many live sessions as before plus the new one, or the cap, and every survivor was created no earlier than every session revoked for excess |
| SessionCap.CreateSparesOthers | internal/service/auth/session.go:118-238 | no other user's session or set changes |
| SessionCap.RunKeepsCap | internal/service/auth/session.go:118-238 | at every moment of every run no user has more than maxSessions live sessions |
| SessionCap.FlushWriteConsistentExactly | internal/service/auth/session.go:563-607 | writing a session back after a flush keeps the store consistent if and only if the session is still there with the token it had when it was read |
| SessionCap.FlushRestoresRevoked | internal/service/auth/session.go:563-607 | the failing history: a session revoked between the two rounds is valid again after them |
| SessionCap.InterleavedRefreshesBothSucceedExactly | internal/service/auth/service.go:540-571 | two refreshes that validate one token before either rotates, at four times of their own, both succeed if and only if the token was good and the session still has time left at the last rotation; the store stays consistent and only the second new token is then good |
| SessionManagement.SessionManager.Create | internal/service/auth/session.go:118-174 | the store after inserting the session and enforcing the cap on the age order found |
| SessionManagement.SessionManager.EnforceMaxSessions | internal/service/auth/session.go:177-238 | dead members are pruned and the oldest live sessions beyond the cap revoked, only when the set exceeds it |
| SessionManagement.SessionManager.LoadLive | internal/service/auth/session.go:196-215 | the members alive are returned and the others leave the set |
| SessionManagement.SessionManager.OldestFirst | internal/service/auth/session.go:221-224 | the same sessions, each once, by creation time |
| SessionManagement.SessionManager.ValidateRefreshToken | internal/service/auth/session.go:242-291 | found session and store for every case: unknown token, dead session, expired, or touched |
| SessionManagement.SessionManager.RotateRefreshToken | internal/service/auth/session.go:295-338 | refused without time left; otherwise the old entry is gone and the new one leads to the session |
| SessionManagement.SessionManager.RefreshToken | internal/service/auth/service.go:540-587 | tokens are issued exactly when validation, user check, rotation and signing all pass; the store after each way out |
| SessionManagement.SessionManager.Revoke | internal/service/auth/session.go:341-381 | session, refresh entry and set membership go together, or nothing changes when it is gone already |
| SessionManagement.SessionManager.RevokeAllUserSessions | internal/service/auth/session.go:384-410 | every listed member revoked and the set deleted |
| SessionManagement.SessionManager.TouchSession | internal/service/auth/session.go:488-514 | refused for a dead or expired session, otherwise only LastActiveAt changes |
| SessionManagement.SessionManager.FlushRead | internal/service/auth/session.go:544-575 | the pending set is emptied and exactly its live sessions are read; after a failed read every id is pending again |
| SessionManagement.SessionManager.FlushWriteBack | internal/service/auth/session.go:577-607 | exactly the copies with time left go back, over whatever is there by then |
| OutboxRuns.BoundedBypass | internal/repository/postgres/realtime.go:96-195 | within a lease and with no earlier event put back, the claims that pass over a claimable event hold no more places altogether than there are events before it |
| OutboxRuns.PassedOverForDistinct | internal/repository/postgres/realtime.go:96-195 | those claims took that many different earlier events, none twice |
| OutboxRuns.ClaimedTwiceOnlyAfter | internal/repository/postgres/realtime.go:96-195 | an event is claimed twice only if in between it was marked failed, was reset while stuck, or more than its five-minute lease went by |
| OutboxRuns.HeldUntilPutBack | internal/repository/postgres/realtime.go:182-195 | while nothing puts a claimed event back, it is published or locked since its last claim |
| OutboxRuns.AttemptsCountClaims | internal/repository/postgres/realtime.go:182-187 | the attempts of every event equal the number of claims of it in the history |
| OutboxRuns.ClaimNumbersAttempts | internal/repository/postgres/realtime.go:165-170 | a claim hands an event out with the number of its claims so far, itself included |
| OutboxFates.RowsFollowFates | internal/repository/postgres/realtime.go:63-402 | over every history each row is where the acts about its event have brought it: status, time of availability and lock |
| OutboxFates.ClaimTakesExactly | internal/repository/postgres/realtime.go:96-195 | a claim hands an event out exactly if it may be handed out by those acts and fewer than a batch of earlier events may |
| OutboxFates.PublishedIsNotClaimed | internal/repository/postgres/realtime.go:197-228 | a published event is handed out again only after somebody marks it failed |
| OutboxFates.StaysDelivered | internal/repository/postgres/realtime.go:197-210 | until then it is published, unlocked and out of every reset |
| OutboxFates.TriesAreKept | internal/repository/postgres/realtime.go:63-94 | an event keeps the tries its enqueue asked for, or eight |
| Outbox.RealtimeRepo.Insert | internal/repository/postgres/realtime.go:63-94 | a pending event under the next sequence, with 8 attempts by default |
| Outbox.RealtimeRepo.SelectRows | internal/repository/postgres/realtime.go:109-121 | the lowest claimable sequences, strictly increasing, at most the batch |
| Outbox.RealtimeRepo.ClaimPending | internal/repository/postgres/realtime.go:96-195 | exactly the selected rows are locked with one more attempt, and returned with it |
| Outbox.RealtimeRepo.Publish | internal/repository/postgres/realtime.go:197-210 | the row is published and unlocked, no other changes |
| Outbox.RealtimeRepo.Fail | internal/repository/postgres/realtime.go:212-228 | the row is failed or dead whatever it was, at the retry time if one is given |
| Outbox.RealtimeRepo.ResetStuckJobs | internal/repository/postgres/realtime.go:387-402 | exactly the stuck rows are pending again, and their number is returned |
| HubRuns.EveryRunIsSafe | internal/platform/ws/hub.go:83-150 | under every interleaving of the locked sections and of open scans: rooms are non-empty and hold only registered clients, a registered client's channel is open and every other was closed exactly once, and whoever has reached the limit of drops is on an eviction list |
| HubRuns.SendsReachOpenChannels | internal/platform/ws/hub.go:244-283 | in every such state the next target of a scan is registered and its channel open |
| HubRuns.QuietMeansBelowLimit | internal/platform/ws/hub.go:335-348 | with no scan open or waiting to evict, every registered client has fewer than maxSlowDrops consecutive drops |
| HubRuns.MoveKeepsSafe | internal/platform/ws/hub.go:168-358 | each move keeps that |
| HubRuns.DeliverExactly | internal/platform/ws/hub.go:244-290 | a delivery run to completion: each target gets the message once at the end of its queue with its counter reset, or its buffer is full and it loses the message; it is removed exactly when that was one drop too many; nobody else is touched |
| HubMembership.MembersAsked | internal/platform/ws/hub.go:95-219 | under every interleaving a registered client is in exactly the rooms its last subscribe or unsubscribe asked for, its signal room included from registration on, and whoever is not registered is in none |
| HubMembership.RegisteredExactly | internal/platform/ws/hub.go:83-166 | a client is registered after a move exactly if it was and is not taken out, or the move registers it, and it keeps user, session and workspace |
| HubMembership.QueueExactly | internal/platform/ws/hub.go:244-333 | what waits in a client's channel after each move: nothing at registration, each message sent while fewer than 256 wait behind the others, and the first taken out |
| HubMembership.SendToUserReaches | internal/platform/ws/hub.go:294-333 | a message to a user reaches exactly the user's clients, of one workspace if named: at the end of the queue if fewer than 256 wait, else lost, the fifth loss in a row removing the client |
| HubMembership.BroadcastReaches | internal/platform/ws/hub.go:244-290 | the same for the members of a room |
| HubMembership.ScansTargetExactly | internal/platform/ws/hub.go:244-333 | which clients an open scan has to try, and the write pump takes the oldest message |
| HubServer.Server.Register | internal/platform/ws/hub.go:95-103 | the client is registered and in its signal room |
| HubServer.Server.Subscribe | internal/platform/ws/hub.go:168-186 | an unknown client changes nothing, a known one joins the room |
| HubServer.Server.Unsubscribe | internal/platform/ws/hub.go:201-219 | the client leaves the room, and an emptied room goes |
| HubServer.Server.RemoveClient | internal/platform/ws/hub.go:381-395 | a registered client goes from the map and every room, its channel closed once; an unknown one changes nothing |
| HubServer.Server.EvictSession | internal/platform/ws/hub.go:122-136 | exactly the session's clients are removed; the empty session evicts nobody |
| HubServer.Server.Shutdown | internal/platform/ws/hub.go:86-94 | every client is removed |
| HubServer.Server.DeliverTo | internal/platform/ws/hub.go:258-289 | the scan and its evictions come to Deliver |
| HubServer.Server.BroadcastToRoom | internal/platform/ws/hub.go:244-290 | the members of the room are delivered to; an unknown room changes nothing |
| HubServer.Server.SendToUser | internal/platform/ws/hub.go:294-333 | the user's clients, of one workspace if one is given, are delivered to |
| AwsQuery.AwsEncodeIsPercentEncode | internal/platform/storage/s3.go:570-575 | the query escape with its three replacements is byte-wise percent-encoding that leaves exactly the unreserved characters of section 2.3 of RFC 3986 |
| AwsQuery.DecodeEncode | internal/platform/storage/s3.go:570-575 | percent-decoding (section 2.1 of RFC 3986) undoes that encoding |
| AwsQuery.AwsEncodeInjective | internal/platform/storage/s3.go:570-575 | so awsEncode can be undone and never maps two strings to one |
| CanonicalQuery.CanonicalQueryString | internal/platform/storage/s3.go:543-557 | the result joins the encoded pairs in the byte order of their keys |
| CanonicalQuery.CanonicalIsUnique | internal/platform/storage/s3.go:548-551 | it does not depend on the order the map is iterated in |
| CanonicalQuery.CanonicalIsInjective | internal/platform/storage/s3.go:543-557 | different key/value maps have different canonical strings |
| CanonicalReading.CanonicalReadsBack | internal/platform/storage/s3.go:543-557 | splitting the string at its ampersands and equals signs and decoding gives every parameter, once, in strictly increasing byte order of the keys |
| CanonicalReading.LessExactly | internal/platform/storage/s3.go:551 | the order of the keys is byte order: a proper prefix, or smaller where they first differ |
| CanonicalQuery.SortKeys | internal/platform/storage/s3.go:547-551 | the keys, each once, in strictly increasing byte order |
| Slugs.Slugify | internal/service/auth/service.go:756-779 | the loop with its builder and flag yields the maximal runs of [a-z0-9] of the lower-cased text joined by single hyphens |
| Slugs.SlugKeepsLetters | internal/service/auth/service.go:756-779 | a slug has exactly the letters a to z and digits of its text, in order |
| Slugs.SlugCharacters | internal/service/auth/service.go:756-779 | and all else in it is hyphens |
| Slugs.SlugIsSlug | internal/service/auth/service.go:756-779 | that is empty or hyphen-separated non-empty runs of [a-z0-9] |
| Slugs.SlugifyIdempotent | internal/service/auth/service.go:756-779 | slugifying a slug changes nothing |
| Slugs.UniqueWorkspaceSlug | internal/service/auth/service.go:724-754 | the slug returned has that grammar, is 1 to 80 bytes long, and is the first candidate that was free when checked; otherwise all 25 were taken, or a lookup failed right after taken ones |
| Slugs.CandidateIsSlug | internal/service/auth/service.go:740-744 | every candidate, cut and trimmed, is a slug of 1 to 80 bytes |
| Slugs.BaseExactly | internal/service/auth/service.go:724-735 | the base is the slug, "workspace" for the empty one, or the longest prefix of at most 80 bytes that is a slug |
| Slugs.CandidateExactly | internal/service/auth/service.go:737-744 | with room for two digits the candidates are the base and the base numbered from 2 to 25 |
| Slugs.CandidatesDistinctExactly | internal/service/auth/service.go:737-744 | the 25 candidates are all different if and only if the base has 77 bytes or fewer |
| Slugs.NumberingLostExactly | internal/service/auth/service.go:740-744 | every numbered candidate is the base again if and only if the base has 79 bytes or more |
| Slugs.LongBaseConflicts | internal/service/auth/service.go:737-753 | so such a base, once taken, uses up all tries |
| MessageEvents.RunKeepsWellFormed | frontend/src/stores/messages.ts:270-346 | over every run of events with well-formed payloads, ids are unique in each channel and thread list and (actor, emoji) pairs on each message |
| MessageEvents.ApplyTwice | frontend/src/stores/messages.ts:270-346 | applying an update, a pin, a reaction event, a top-level creation or a timestamped deletion twice, at any two times, is applying it once |
| MessageEvents.DuplicateDeliveryHarmless | frontend/src/stores/messages.ts:270-346 | so after any run such an event may be delivered twice |
| MessageEvents.DeleteTwiceExactly | frontend/src/stores/messages.ts:311-319 | deleting twice at different times is deleting once if and only if the event carries its time or the message is not in the store |
| MessageEvents.PatchTwice | frontend/src/stores/messages.ts:433-467 | two patches of a message are one patch, the second spread over the first |
| MessageEvents.FindPatched | frontend/src/stores/messages.ts:379-390 | a patched message is found with the patch spread over it |
| MessageEvents.ReactThenUnreact | frontend/src/stores/messages.ts:469-489 | adding an absent reaction and removing it again leaves the message with the list it had |
| MessageHistory.CopiesFollowHistory | frontend/src/stores/messages.ts:270-489 | over every run the channel's copy of each message is what its own events have made of it: created, updated property by property, deleted, pinned, reacted to, replied to |
| MessageHistory.ChannelsAreNewestFirst | frontend/src/stores/messages.ts:392-401 | over every run a channel lists exactly the messages created in it, each once, the newest first |
| MessageHistory.ThreadsAreInOrder | frontend/src/stores/messages.ts:272-292 | over every run a thread lists exactly the replies to its parent, each once, in the order they came |
| MessageHistory.ActorExactly | frontend/src/stores/messages.ts:497-506 | whose a reaction event is |
| MessageHistory.ActorIdExactly | frontend/src/lib/types.ts:321-325 | whose a reaction is |
| MessageHistory.AddedExactly | frontend/src/stores/messages.ts:510-535 | adding puts exactly the actor's emoji on the list, at the end, and keeps the rest |
| MessageHistory.RemovedExactly | frontend/src/stores/messages.ts:537-538 | removing takes exactly the actor's emoji off a list without repeated pairs |
| MessageStore.Store.FindMessage | frontend/src/stores/messages.ts:379-390 | the channel's copy first, then the threads' in order |
| MessageStore.Store.PrependMessage | frontend/src/stores/messages.ts:392-401 | an id already listed changes nothing, a new message goes first |
| MessageStore.Store.PatchMessage | frontend/src/stores/messages.ts:403-467 | the channel's copy and every thread's copy get the patch, nothing else changes |
| MessageStore.Store.PatchReaction | frontend/src/stores/messages.ts:469-489 | without actor or message nothing changes; otherwise every copy gets the new list |
| MessageStore.Store.AppendToThread | frontend/src/stores/messages.ts:277-292 | the reply is at the end of its thread, once |
| MessageStore.Store.ApplyEvent | frontend/src/stores/messages.ts:270-346 | the state after any of the seven events |
| Reactions.ApplyReaction | frontend/src/stores/messages.ts:510-539 | the added or removed reaction, with the list unchanged when there is nothing to do |
| Reactions.AddThenRemove | frontend/src/stores/messages.ts:510-539 | adding an absent reaction then removing it restores the list |
| Reactions.AddIdempotent | frontend/src/stores/messages.ts:520-535 | adding again changes nothing |
| Reactions.RemoveIdempotentExactly | frontend/src/stores/messages.ts:537-538 | removing again changes nothing if and only if the pair was there at most once |
| Reactions.AggregateReactions | frontend/src/lib/types.ts:300-319 | one group an emoji in first-seen order, each listing every distinct actor who used it once and counting exactly them; reactions without an actor do not count |

## Left out

- Room.Room.AddPresenter: says whether the join is refused, not which of the program's messages it is refused with.
- Room.SimulcastTrack.BestAvailableLayer: the room of the model holds each peer's senders and each stream's layers and records as values in its own maps; the classes `Peer` and `SimulcastTrack` are proved against the same functions but are not the objects the room's maps hold, so sharing one object between maps is not captured.
- RoomMesh.RunKeepsMesh: each handler is one step and transport calls succeed; the windows in which `handleNewTrack` and `handleSimulcastTrack` drop the lock are not opened, and a run that uses one id for a track and for a stream is not covered.
- RoomFlapping.RoomFlapsBounded: the room does not change between the planning and the applying of one report, and the fallback decision for a stream the server does not know yet is left out; both services' policies set the same targets.
- RoomControl.RunKeepsTracksCapped: counts distinct ids; relay sources are users that do not publish locally.
- QualityReports.AcceptedRunsStayInRange: metrics are real numbers, so rounding, infinities and NaN of the program's floats are not covered; the same holds for every lemma about smoothed metrics.
- SearchAgreement.RunAgrees: agreement is about content and creation time, not `updated_at`, which claiming and failing rewrite.
- SearchFairness.NoStarvation: one worker whose status writes succeed; with leases that lapse, older rows come back.
- MessageHistory.CopiesFollowHistory: speaks of the channel's copies; a thread's copy takes the reactions of whichever copy is found first.
- Hysteresis.TargetExactly: counts the reports since the user or stream was last forgotten.
- SearchQueue.SearchRepo.ProcessPendingJobs: the two tries of each statement are one statement that succeeds or fails; a row whose metadata does not parse and an unknown operation are not modelled.
- SessionManagement.SessionManager.Create: Redis commands succeed and a pipeline is one step; the session lifetime is positive, since Redis keeps a key with lifetime zero for good.
- Outbox.RealtimeRepo.ClaimPending: bodies parse; two claims at once, which skip each other's locked rows, are two steps.
- HubServer.Server.BroadcastToRoom: persisted subscriptions and delivered sequences are left out, as is closing the connection itself.
- Slugs.Slugify: lower-casing maps each character to one character and texts are sequences of characters; bytes that are not valid UTF-8 are not covered.
- Reactions.AggregateReactions: the record of groups is a map, so an emoji named like a property every JavaScript object inherits is not covered.
- MessageStore.Store.ApplyEvent: typing, loading flags and payloads without a message are left out; a reply delivered twice counts twice on its parent, so no idempotence is claimed for it.
- Backoff.DoValue: which errors can be retried is a parameter.
- WebRTC, SDP, RTP forwarding, sinks, observers and RTCP: foreign calls; a local track is a token, a sender is what it forwards.
- HTTP handlers, configuration, logging, metrics, JWT and password hashing: plumbing; hashing is injective, ids and tokens are fresh.
- Full-text ranking, the search query and reindexing: the index is its content fields.
- Replaying rooms from the outbox and its statistics: reads only.
- Channel access policy, breakout rooms, recordings, notifications and the user interface: no property of comparable depth.

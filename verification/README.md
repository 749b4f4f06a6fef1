# Rynmesh protocols in Dafny

Models of the stateful cores of Rynmesh and proofs of what they promise over whole runs. Every
component is modelled twice where the program updates state: as functions on values, which
the theorems are about, and as classes and loops in the program's own form, whose contracts tie
them to those functions. `dafny verify dfyconfig.toml` checks everything.

| files | component |
|---|---|
| `ResumePlan`, `TargetSink`, `SinkManifests`, `SinkSessions`, `TransferRuns`, `TransferStream` | resumable file transfer: plan, checkpointing sink, the manifests it takes, interleaved sessions, retry loop, segments through the encrypted stream |
| `TransitFrames`, `TransitStream` | framing, the sequenced cipher, sender, relay and receiver |
| `Routes` | hysteresis between the direct and the transit path |
| `MailboxStore`, `MailboxRegistry`, `MailboxOrder` | the registry's spool: quotas, tombstones, byte budget, order of age, token bucket |
| `MailboxClient`, `MailboxLooks`, `MailboxRestart`, `MailboxDrain`, `MailboxThrash` | the node's side of the mailbox, one look at a message, restarts; both ends together, and when they drain a box |
| `PersonalSpace`, `SpaceAuthority`, `SpaceRuns`, `SpaceDevices` | the coordinator and the devices of a personal space, who may do what in it, and what devices hold |
| `WorkOrders` | work orders, results and the marker index of the open listing |
| `EigenTrust`, `TrustIteration`, `TrustFixedPoint` | the dense definition over the reals, the sparse power iteration, and the vector it is after |
| `Provenance` | chains of signed links |
| `ThinkingSplitter` | splitting reasoning from answer in a stream |
| `Basics`, `Text`, `Sorting`, `Sums` | shared vocabulary |

Cryptography is symbolic. A digest stands for the bytes it was made from, a sealed body opens
only under the key, nonce and associated data it was sealed with, and a signature is valid only
for its key and payload (in `Provenance` the link hash is an arbitrary collision-free
function). Time is a real number handed to each operation; one operation reads the clock once,
or at the two instants its parameters name. Files and directories are maps, sets and sequences,
and one write is atomic except where a torn finish is an explicit step.

## What the proofs found

- **A torn commit strands a transfer.** `finish` renames the last segment into place and then
  writes the checkpoint. If a session dies in between and the transfer has more than one
  segment, every retry is refused (the partial file is missing) although the destination is
  complete. `RetryAcceptedIff` shows that among attempts made one after the other this is the
  only way a retry is refused (one that arrives while an earlier session still holds the
  transfer is refused as already active), `BackedThroughoutIff` that it is the only way a
  checkpoint loses its bytes, and `TornCommitExample` is such a run. The destination never holds
  anything but the source bytes.
- **Padded identifiers break the open-order index.** Looking up an order's results strips the
  id, provider and requester it is given and compares the stripped text with the stored text, so
  the results of an order with a padded field are never found. After such an order's result is
  published the full scan still lists it and the index does not. `PublishKeepsIff`,
  `AgreeIff` and, over whole runs, `AgreeThroughoutIff` give the exact condition.
- **Acknowledged mail can come back** once 2048 younger live tombstones have pushed out its own
  (`EvictionReopens`); `BlockedWhileMarked` says exactly when an envelope is turned away.
- **With more than one attempt the drain needs a row for every message of a poll.** A poll
  serves at most 50 messages, and those that stay are served again. With a single attempt, or at
  least min(50, n) rows in the retry table, a box of n messages always drains (`BoxDrains`); with
  two or more attempts and fewer rows than a poll serves messages, a box whose messages all fail
  never does (`ThrashNeverDrains`). `DrainsIff` is exact for every box whose first min(50, n)
  messages fit the byte budget, `AscendingDrainsIff` for every box in which no message is smaller
  than an older one. The comment at
  rynmesh/mailbox_client.py:229-231 says undecryptable mail is never acknowledged; the code at
  lines 289-292 acknowledges it once its budget is spent, and the model follows the code.
- **A refused local invitation is not rolled back.** When a hundred invitations are live, one
  more is refused, but expired ones are dropped first. `RefusedLocallyIff` says exactly when a
  refused local action leaves a trace, and `RefusalDropsOne` is a case.
- **A request takes effect at most once because it expires before its answer is forgotten.**
  The sealed bodies of the program live at most a day; `LifetimeThreshold` shows that a lifetime
  is safe exactly when it is shorter than the two days an answer is remembered.

## Model

| member | source | states |
|---|---|---|
| ResumePlan.BuildPlan | rynmesh/peer_transit_service.py:211-256 | A plan is produced exactly for a chunk-aligned segment size within bounds; it carries the file digest, and its segments tile the file without gap or overlap at chunk-aligned offsets, each described by its own and its prefix digest. |
| ResumePlan.ReadSegment | rynmesh/peer_transit_service.py:222-231 | Blockwise reading feeds both running digests with exactly the segment and exactly the prefix. |
| ResumePlan.DataChunks | rynmesh/peer_transit_service.py:183-200 | The data chunks after the manifest concatenate to exactly the segment's bytes, none empty and none over the chunk size. |
| ResumePlan.PlanAt | rynmesh/peer_transit_service.py:221-243 | Only the last segment of a plan is marked last, and segment ends climb strictly. |
| ResumePlan.ManySegments | rynmesh/peer_transit_service.py:221-243 | More than one segment is cut only for a file larger than one segment. |
| TargetSink.TargetFileSink.Load | rynmesh/peer_transit_service.py:325-464 | Loading a manifest takes the claim, checks every manifest rule and the saved state, recognises duplicates and truncates the partial file to the verified offset; on any refusal only the claim may change. |
| TargetSink.TargetFileSink.Accept | rynmesh/peer_transit_service.py:466-483 | A data chunk that would overflow the segment is refused; otherwise it is appended to the partial file, unless the segment is a duplicate. |
| TargetSink.TargetFileSink.Close | rynmesh/peer_transit_service.py:485-547 | Finishing checks size and digests, rolls the partial file back on a bad prefix, renames only after the last segment and then saves the advanced checkpoint; the receipt states what was committed. |
| TargetSink.TargetFileSink.GiveUp | rynmesh/peer_transit_service.py:554-568 | Aborting rolls the partial file back to the verified offset, only when the session owned it, and releases the claim. |
| TargetSink.TargetFileSink.AcknowledgeReceipt | rynmesh/peer_transit_service.py:549-552 | An acknowledged last segment drops the saved state; the claim is released either way. |
| TargetSink.TargetFileSink.ReleaseClaim | rynmesh/peer_transit_service.py:320-323 | A claim is given back only by the session that holds it. |
| SinkManifests.TakenIff | rynmesh/peer_transit_service.py:325-464 | For every manifest and every state on disk: it is taken if and only if it announces a plain name, a well-formed id and digests, a permitted size and an aligned segment, no session holds the transfer, and the segment is the next one with its verified bytes still there, one recorded before, or the last of a file complete with this size and digest; taking the next segment cuts the partial file to what is verified, and everything else leaves all files alone. |
| SinkManifests.ManifestComesFirst | rynmesh/peer_transit_service.py:466-483 | Before the manifest nothing but a manifest that is taken is accepted, and anything else changes nothing. |
| SinkManifests.DataTakenIff | rynmesh/peer_transit_service.py:466-483 | After it a chunk is accepted if and only if it is data and stays within the announced segment; then its bytes follow those received, in the partial file too unless the segment is a repeat, and a refused chunk changes nothing. |
| SinkManifests.FinishedIff | rynmesh/peer_transit_service.py:485-547 | A session finishes if and only if exactly the announced segment was received and, unless it is a repeat, the partial file is the file up to its end, the last prefix digest is that of the file and its name is free; a repeat changes no file, the last segment moves the partial file to its name, and every new one saves the advanced checkpoint. |
| SinkManifests.RefusedFinish | rynmesh/peer_transit_service.py:489-517 | A refused finish stores and records nothing, and cuts the partial file down to the bytes verified before only if its digest is not the announced one. |
| SinkManifests.AcknowledgedIff | rynmesh/peer_transit_service.py:549-552 | After its receipt a session gives back its claim and drops the saved state exactly when it has finished the last segment; nothing else changes. |
| SinkManifests.GivenUpIff | rynmesh/peer_transit_service.py:554-568 | A session that gives up gives back its claim; if it was writing an unfinished segment the partial file goes back to the verified bytes, or is removed with the saved state if there are none, and otherwise no file changes. |
| SinkSessions.CheckpointInvariant | rynmesh/peer_transit_service.py:320-568 | For every interleaving of sessions on one transfer, with crashes and torn commits: the recorded segments tile the verified bytes, and those bytes are in the partial file or, once renamed, in the committed one, with the recorded digests; an unfinished transfer without its partial file takes a torn commit (`BackedThroughoutIff`). |
| SinkSessions.BackedUnlessTorn | rynmesh/peer_transit_service.py:521-547 | From a sound state an event separates an unfinished checkpoint from its partial file if and only if it is a finish, on the last segment of a transfer that has a checkpoint, that passes every segment and commit check and dies between the rename and the new checkpoint. |
| SinkSessions.BackedThroughoutIff | rynmesh/peer_transit_service.py:320-568 | Over every interleaving an unfinished transfer keeps its partial file, long enough and with the recorded digests, at every moment if and only if no such commit is torn. |
| SinkSessions.BackedWithoutTearing | rynmesh/peer_transit_service.py:320-568 | A run without a torn commit keeps an unfinished transfer backed by its partial file at every moment. |
| SinkSessions.NextKeeps | rynmesh/peer_transit_service.py:320-568 | Each single event of an interleaving, a torn commit included, keeps the checkpoint invariant (partial file or, after a torn commit, the renamed one) and what is true of every other session. |
| SinkSessions.OnlyTheOwnerWrites | rynmesh/peer_transit_service.py:449-568 | A session that lost the claim, failed a manifest check or is a duplicate never changes the partial bytes or a committed file. |
| SinkSessions.CommittedFilesStay | rynmesh/peer_transit_service.py:521-528 | A committed file is never replaced or removed by any later event. |
| SinkSessions.FinishKeeps | rynmesh/peer_transit_service.py:485-547 | A session finishes if and only if no check failed, and the checkpoint stays backed by the bytes on disk. |
| SinkSessions.AdvanceBacks | rynmesh/peer_transit_service.py:510-520 | Advancing the checkpoint by a verified segment keeps every recorded digest true of the data. |
| SinkSessions.StoredFileRefusesIff | rynmesh/peer_transit_service.py:382-404 | With no checkpoint and a file stored under the announced name, loading is refused if and only if the segment is not the last or the stored bytes differ from the announced size or digest. |
| SinkSessions.DuplicateIsAnnounced | rynmesh/peer_transit_service.py:384-447 | A last segment is recognised as one the target already has only when the file of the announced size and digest is stored. |
| SinkSessions.CompletedIsAnnounced | rynmesh/peer_transit_service.py:325-547 | Over every interleaving, with crashes and torn commits, whenever a session finishes a last segment, as a duplicate or not, a file with the announced size and digest is stored under the announced name, and stays there. |
| TransferRuns.FreshAttempt | rynmesh/peer_transit_service.py:286-568 | An attempt at a segment not yet taken is accepted, ends before or after the segment with exactly the source bytes, and strands the transfer only when its commit of the last of several segments is torn. |
| TransferRuns.RepeatAttempt | rynmesh/peer_transit_service.py:429-483 | An attempt at a segment already taken is accepted as a duplicate and changes no byte. |
| TransferRuns.StuckAttempt | rynmesh/peer_transit_service.py:405-453 | After a torn commit of the last of several segments every further attempt is refused, although the destination is complete. |
| TransferRuns.WhereAttemptsLead | rynmesh/peer_transit_service.py:286-568 | After any series of attempts the target stands exactly before the segment, exactly after it, or stranded, and stranded only in the torn case. |
| TransferRuns.RetryAcceptedIff | rynmesh/peer_transit_service.py:405-528 | A retry that reaches the manifest is accepted if and only if no earlier attempt first delivered the last of several segments and died between the rename and the checkpoint. |
| TransferRuns.FeedFills | rynmesh/peer_transit_service.py:466-483 | Any prefix of the segment's chunks leaves exactly that prefix of its bytes after the verified ones in the partial file. |
| TransferRuns.FinishTakes | rynmesh/peer_transit_service.py:485-547 | Finishing a fully received segment succeeds and leaves the target exactly after it. |
| TransferRuns.TornFinishLeaves | rynmesh/peer_transit_service.py:521-528 | A session that dies between the rename and the checkpoint leaves a transfer where it was, or done if it had one segment, or stranded at the last of several. |
| TransferRuns.TornCommitRefuses | rynmesh/peer_transit_service.py:405-528 | In every two-segment transfer whose second commit is torn, the retry is refused with every byte committed. |
| TransferRuns.TornCommitExample | rynmesh/peer_transit_service.py:521-528 | Such a transfer exists: a file of one chunk and one byte. |
| TransferRuns.SendSegment | rynmesh/peer_transit_service.py:1220-1253 | The retry loop ends within its budget, succeeds only after the segment is taken, and gives up early only on an unretryable failure; a refusal happens only after a torn commit. |
| TransferRuns.SendFile | rynmesh/peer_transit_service.py:1177-1253 | A committed destination always equals the source bytes; success implies it exists; failure after a delivered session implies a torn commit. |
| TargetSink.TargetFileSink.Receive | rynmesh/peer_transit_service.py:466-483 | A chunk is refused when it is empty, out of place or unreadable; otherwise the first loads the manifest and the others add data. |
| TransferStream.WritesFeed | rynmesh/peer_transit_service.py:183-200 | Through the tags and the text of the manifest the sink sees the manifest first and then exactly the data chunks. |
| TransferStream.SessionIsAttempt | rynmesh/peer_transit_service.py:880-957 | A session that a stream brought n of its plaintexts is an attempt at the segment that got exactly that far. |
| TransferStream.HostileSegment | rynmesh/peer_transit_service.py:880-957 | Whatever a hostile relay and hostile hops deliver, and wherever earlier sessions left the target: a completed stream takes exactly the segment, an incomplete one leaves the target before it, a segment already taken stays taken, and only a torn commit of the last of several segments strands it. |
| TransferStream.RelayedSegment | rynmesh/peer_transit_service.py:880-957 | Over a relay and two redelivering hops the same holds, and the stream completes exactly when both hops brought every frame through. |
| TransferStream.FileArrives | rynmesh/peer_transit_service.py:1177-1253 | After any series of hostile sessions, incomplete, repeated or torn, a segment being sent again until its receipt is back: a committed file holds exactly the bytes of the source, receipts for all segments mean that it is committed, and the target is stranded only by a torn commit. |
| TransferStream.ConfirmedSessionsCount | rynmesh/peer_transit_service.py:1177-1253 | Without a torn commit the segments sent are as many as the sessions whose stream completed and whose receipt came back, up to all of them. |
| TransferStream.FeedSink | rynmesh/peer_transit_service.py:466-483 | Handing the opened plaintexts to the sink one by one, up to the first refusal, touches no other transfer. |
| TransferStream.Settle | rynmesh/peer_transit_service.py:931-956 | A completed stream is finished, then confirmed if the reply went out, and otherwise given up. |
| TransferStream.ServeTarget | rynmesh/peer_transit_service.py:893-957 | One session of the target over its objects leaves the inbox and the receipt of the session on values, and leaves every other transfer alone. |
| TransitFrames.InspectPacked | rynmesh/peer_transit.py:257-350 | Inspection recovers exactly the header that was packed. |
| TransitFrames.PackInspected | rynmesh/peer_transit.py:330-350 | Every frame that passes inspection carries the packed form of what was read, of the stated length. |
| TransitFrames.NumberRoundTrip | rynmesh/peer_transit.py:257-264 | Big-endian fields give back the number that was written. |
| TransitFrames.BytesRoundTrip | rynmesh/peer_transit.py:333-335 | Reading a big-endian field and writing it again gives back its bytes. |
| TransitFrames.NonceInjective | rynmesh/peer_transit.py:325-327 | Distinct (direction, sequence) pairs never share a nonce, and a nonce has twelve bytes. |
| TransitFrames.TransitCipher.Seal | rynmesh/peer_transit.py:252-271 | Sealing refuses empty, oversized and exhausted input, advances one counter by one, and never uses a nonce it has used before. |
| TransitFrames.TransitCipher.Open | rynmesh/peer_transit.py:273-296 | Opening accepts exactly the next genuine frame of this session and direction; the counter moves only on success. |
| TransitFrames.OpensIff | rynmesh/peer_transit.py:273-306 | A frame opens as the expected one if and only if it is exactly what sealing some permitted plaintext under these keys, this direction and this number gives, and it opens to that plaintext. |
| TransitFrames.ReplayedIff | rynmesh/peer_transit.py:273-285 | A frame is passed over as a replay if and only if it is well formed, of this session and direction, and of a number already taken. |
| TransitStream.SendStream | rynmesh/peer_transit.py:353-390 | The chunks leave as consecutively numbered frames, only the last one marked final. |
| TransitStream.ReceiveStream | rynmesh/peer_transit.py:393-429 | The receiving loop takes chunks until the final frame, skips replays and stops at the first other error. |
| TransitStream.Forward | rynmesh/peer_transit.py:451-472 | The relay loop forwards a frame only when it is the next one, ignores earlier ones and treats a gap or a foreign frame as an error. |
| TransitStream.RelayNumbersFrames | rynmesh/peer_transit.py:451-472 | Whatever arrives, the forwarded frames are of the session and direction and numbered consecutively, with none repeated and none skipped. |
| TransitStream.OpensOnlyTheSent | rynmesh/peer_transit.py:273-306 | With unforgeable sealing, the frame that opens as number n holds exactly the n-th chunk sent, and is final exactly when it was. |
| TransitStream.ReceivedIsSent | rynmesh/peer_transit.py:393-429 | Against a hostile relay the target takes a prefix of what was sent, and completes exactly when it took all of it. |
| TransitStream.RedeliveryReads | rynmesh/peer_transit.py:393-429 | Over a hop that may re-deliver any earlier frame any number of times there is never a gap, and reading completes exactly when every frame has come through. |
| TransitStream.JumpIsAnError | rynmesh/peer_transit.py:451-472 | A frame that jumps ahead is an error and never a silent skip. |
| TransitStream.RelayedStream | rynmesh/peer_transit.py:432-476 | Source, relay and target over two redelivering hops: each frame is forwarded exactly once, each chunk taken exactly once and in order, and completion means all of them. |
| Routes.RouteManager.Observe | rynmesh/peer_transit.py:644-714 | One update of the state machine, with its holds and probes, and the path it reports. |
| Routes.RouteManager.ChangeTo | rynmesh/peer_transit.py:716-722 | A change of state is logged from the old state to the new one at its time. |
| Routes.ScoreOrdersPaths | rynmesh/peer_transit.py:542-545 | A path that is no slower and no lossier never scores worse. |
| Routes.LogIsConnected | rynmesh/peer_transit.py:716-722 | After any run the log is a chain of allowed changes from direct to the current state, in order of time. |
| Routes.NoFlapping | rynmesh/peer_transit.py:690-714 | A switch to transit and the next switch back are at least the minimum hold plus the recovery hold apart, and the switch back follows at least the required number of consecutive healthy samples. |
| Routes.HoldingSince | rynmesh/peer_transit.py:690-709 | While on transit, recovery begins only after the minimum hold, and the probe count is a streak of healthy samples. |
| Routes.DirectIsNotLeftEarly | rynmesh/peer_transit.py:668-689 | Direct is left only when the sample is not healthy and transit can be reached and costs less by the asked ratio, where the cost is latency plus a penalty for loss, and without a hard failure only after the degraded hold of unbroken degradation. |
| Routes.TestsMean | rynmesh/peer_transit.py:542-666 | Healthy, better and hard-failing mean the thresholds on latency, loss and reachability and the asked ratio between the two latencies with their loss penalties. |
| Routes.EntryIsRemembered | rynmesh/peer_transit.py:668-714 | Over every run what the route remembers is when it entered its state, and how many healthy samples a recovery has seen. |
| Routes.EveryChange | rynmesh/peer_transit.py:668-714 | Over every run the next state is determined by the metrics of the new sample, the time since the route entered its state and the number of samples since, in both directions. |
| Routes.ForgetsWhatIsOver | rynmesh/peer_transit.py:668-714 | Outside a degradation no start of one is remembered, and outside a recovery neither its start nor probes. |
| MailboxStore.AcceptanceWindow | rynmesh/mailbox.py:277-319 | An envelope verifies only between its creation (less the clock skew) and its expiry, so never for longer than the largest lifetime plus the skew, and only for its signer. |
| MailboxStore.VerifiedUntilExpiry | rynmesh/mailbox.py:307-316 | Once verified, an envelope stays acceptable until exactly the instant it expires. |
| MailboxStore.VerifiesDuring | rynmesh/mailbox.py:277-319 | An envelope is acceptable at exactly the moments from one clock skew before its creation until its expiry, if its signer is its sender, its id is 32 hexadecimal digits, its lifetime positive and at most a day and its size within the limit, and otherwise never. |
| MailboxStore.InsertKeeps | rynmesh/mailbox_store.py:137-146 | Depositing keeps ids distinct and the listing in deposit order, and counts one more for its sender only. |
| MailboxStore.SweepKeeps | rynmesh/mailbox_store.py:275-299 | A sweep leaves only envelopes that still verify and keeps the caps, the order and the separation of pending and tombstones. |
| MailboxStore.DepositKeeps | rynmesh/mailbox_store.py:87-118 | A deposit, accepted or not, keeps both pending caps and never has an id both pending and buried. |
| MailboxStore.AcceptedIff | rynmesh/mailbox_store.py:87-118 | On any box, swept or not, a deposit is accepted if and only if its id is neither pending nor buried and the unexpired entries leave room, in all and for its sender; then the box holds it and the unexpired entries, a duplicate changes nothing, and other refusals drop only what has expired. |
| MailboxStore.AckKeeps | rynmesh/mailbox_store.py:249-273 | An acknowledgement keeps the box sound: the id moves from pending to a tombstone. |
| MailboxStore.ScanServes | rynmesh/mailbox_store.py:141-171 | Serving takes the longest prefix of the box that fits the count and the byte budget, and at least the first envelope. |
| MailboxStore.PollKeeps | rynmesh/mailbox_store.py:120-171 | A poll keeps the caps, fits the byte budget and the limit, serves oldest first, and serves something unless the box is empty. |
| MailboxRegistry.PollWindow | rynmesh/mailbox.py:400-439 | A poll request is good for at most twice the clock skew, which is how long its nonce is kept, and asks for a bounded amount. |
| MailboxRegistry.PollAcceptedIff | rynmesh/mailbox.py:400-439 | A poll request is accepted if and only if the clocks agree within five minutes, it asks for 1 to 50 messages, and it acknowledges at most 200 well-formed ids. |
| MailboxRegistry.Serve | rynmesh/mailbox_store.py:148-171 | The serving loop with its decreasing byte budget computes the specified selection and deletes what no longer verifies. |
| MailboxRegistry.SweepBox | rynmesh/mailbox_store.py:275-327 | The sweeping loops drop exactly what has expired and then the oldest markers over the bound. |
| MailboxRegistry.Admit | rynmesh/mailbox_store.py:97-118 | Duplicates, a full box and an exhausted sender quota are refused in that order; otherwise the envelope is stored. |
| MailboxRegistry.AckOne | rynmesh/mailbox_store.py:249-273 | An acknowledged envelope leaves a tombstone with its own expiry; an unknown id changes nothing. |
| MailboxRegistry.FileMailboxStore.constructor | rynmesh/mailbox_store.py:58-83 | Limits and rate are at least one; the spool starts empty. |
| MailboxRegistry.FileMailboxStore.TakeTokenFor | rynmesh/mailbox_store.py:358-369 | One call of the token bucket refills, caps and charges exactly one sender. |
| MailboxRegistry.FileMailboxStore.DepositMail | rynmesh/mailbox_store.py:87-118 | A deposit is verified, then charged, then admitted; every box stays sound and no other box or bucket changes. |
| MailboxRegistry.FileMailboxStore.PollMail | rynmesh/mailbox_store.py:120-171 | A verified poll acknowledges, sweeps and serves one box within the byte budget; every box stays sound and no other changes. |
| MailboxRegistry.AckMakesGone | rynmesh/mailbox_store.py:249-273 | Acknowledging a stored envelope leaves it gone: out of the box and marked until it expires. |
| MailboxRegistry.StoredIff | rynmesh/mailbox_store.py:87-118 | A deposit of a run is stored exactly when the envelope verified, its id is neither pending nor buried, and the unexpired mail leaves room. |
| MailboxRegistry.RoomSpares | rynmesh/mailbox_store.py:301-327 | A box with room for its live markers pushes none out. |
| MailboxRegistry.RoomKeepsMarker | rynmesh/mailbox_store.py:301-327 | Room for the live markers at every operation of a run keeps the marker of a gone envelope as long as it is needed. |
| MailboxRegistry.AckIsFinal | rynmesh/mailbox_store.py:87-171 | With a nondecreasing clock, a gone envelope is never stored or served by any later operation as long as its own marker, until it expires, stays among the youngest 2048 live ones at every sweep. |
| MailboxRegistry.AckingPoll | rynmesh/mailbox_store.py:120-171 | A poll that acknowledges a pending envelope does not serve it and leaves it gone. |
| MailboxRegistry.AckedNeverReturns | rynmesh/mailbox_store.py:87-171 | From the poll that acknowledges it on, an envelope is never served or stored by any operation of any run with a nondecreasing clock, if no operation finds more than 2048 live markers, or at least none pushes out its own. |
| MailboxRegistry.BlockedWhileMarked | rynmesh/mailbox_store.py:301-327 | After a sweep, an unexpired envelope that is not pending is a duplicate if and only if a marker with its id is among the youngest live ones kept. |
| MailboxRegistry.EvictionReopens | rynmesh/mailbox_store.py:249-327 | On a box with 2048 live markers a poll that acknowledges one more envelope evicts the oldest marker, and the envelope it stood for is stored a second time. |
| MailboxRegistry.TokenStep | rynmesh/mailbox_store.py:358-369 | Tokens stay within [0, rate], and passes plus tokens grow by no more than what flowed in. |
| MailboxRegistry.ClockStepsBack | rynmesh/mailbox_store.py:358-369 | When the clock steps back nothing is refilled, and a call passes exactly if a whole token is left. |
| MailboxRegistry.Inflow | rynmesh/mailbox_store.py:358-369 | Over any nondecreasing times, passes plus tokens left never exceed a full bucket plus what has flowed in. |
| MailboxRegistry.WindowBound | rynmesh/mailbox_store.py:358-369 | In every window [a, b] of any run a sender passes at most rate + (b - a) * rate / 60 times. |
| MailboxOrder.RunByAge | rynmesh/mailbox_store.py:137-146 | Whatever the clock does, every run keeps the mail and the markers of a box in order of modification time and name. |
| MailboxOrder.OldestFirst | rynmesh/mailbox_store.py:301-327 | After every run from an empty box, an operation that drops an unexpired marker keeps none that is older. |
| MailboxOrder.ServedBeforeLeft | rynmesh/mailbox_store.py:137-171 | A poll serves the head of the box in order of age, and nothing it leaves is older. |
| MailboxClient.MailboxClient.constructor | rynmesh/mailbox_client.py:446-489 | A restart reads back rows with well-formed ids, ordered by expiry, prunes the expired and keeps the capacity; nothing is left to acknowledge. |
| MailboxClient.MailboxClient.CountAttempt | rynmesh/mailbox_client.py:401-422 | A failed look is counted under its message's expiry; an expiry already past spends the budget. |
| MailboxClient.MailboxClient.Handle | rynmesh/mailbox_client.py:248-353 | Each delivery has exactly the outcome, queue, caches and counters of its branch. |
| MailboxClient.MailboxClient.DispatchBatch | rynmesh/mailbox_client.py:241-366 | The dispatch loop handles a batch in order and saves once if anything worth saving changed. |
| MailboxClient.MailboxClient.Poll | rynmesh/mailbox_client.py:210-220 | After a successful poll exactly the sent acknowledgements leave the queue and the batch is dispatched. |
| MailboxLooks.LooksDecide | rynmesh/mailbox_client.py:248-353 | The outcome of one look: handled if and only if the message was not completed before, is acceptable, addressed to this node and well formed, opens, has a handler, and the handler returns; kept for another look if and only if a key or a handler failed, it has not expired and attempts are left. |
| MailboxLooks.LooksAcknowledge | rynmesh/mailbox_client.py:248-353 | Every message that is done with is queued for acknowledgement once, at the end, and one kept for another look is not; the counters of handled, dropped and undecryptable messages move exactly so. |
| MailboxLooks.LooksRecord | rynmesh/mailbox_client.py:385-422 | Only a completion is remembered; a failure that is not the last counts one more under the message's expiry, and after the last one or a completion no count is left; no other message's count changes. |
| MailboxLooks.PollSaves | rynmesh/mailbox_client.py:202-366 | After an answered poll at most the first 200 acknowledgements are done with, and the tables go to the file, without what has expired, if and only if something was handled, kept for another look or given up. |
| MailboxClient.RememberCovers | rynmesh/mailbox_client.py:385-399 | Remembering a completion keeps every earlier unexpired completion in the cache when nothing is evicted. |
| MailboxClient.BatchCovers | rynmesh/mailbox_client.py:241-366 | Within a batch no handler returns for an envelope completed before, and all completions stay covered until they expire. |
| MailboxClient.RestartCovers | rynmesh/mailbox_client.py:446-489 | Completions that were saved are still covered after a restart. |
| MailboxRestart.RestartBringsBack | rynmesh/mailbox_client.py:446-489 | After a restart nothing waits to be acknowledged and both tables hold exactly the unexpired well-formed rows of the file, or as many as fit, none of which expires before one that is lost. |
| MailboxRestart.CountsSurvive | rynmesh/mailbox_client.py:446-511 | A restart renews no retry budget: every count saved after a changing poll is there again until its message expires. |
| MailboxClient.AtMostOnce | rynmesh/mailbox_client.py:241-511 | Over every sequence of polls and restarts, with any redelivery, no handler returns twice for one envelope, as long as the cache evicts no unexpired row. |
| MailboxClient.EvictedRunsTwice | rynmesh/mailbox_client.py:394-398 | With a cache of one row, a redelivery after a second message runs the first handler again. |
| MailboxDrain.PollsAreAccepted | rynmesh/mailbox.py:367-439 | Whatever the registry serves, the next request is accepted exactly when the two clocks agree within the skew. |
| MailboxDrain.EvictHeld | rynmesh/mailbox_client.py:417-422 | A row with fewer than capacity other ids behind it in the retry table is never pushed out. |
| MailboxDrain.CountsSelf | rynmesh/mailbox_client.py:401-422 | Counting a message's own failure makes its row the youngest, one higher than it was. |
| MailboxDrain.CountsOther | rynmesh/mailbox_client.py:401-422 | Counting another message's failure leaves an unexpired row alone while fewer than capacity other messages can follow it. |
| MailboxDrain.SelfWeighs | rynmesh/mailbox_client.py:241-353 | Whatever a key or a handler does, a look at a message whose row is held costs it at least one of its remaining looks. |
| MailboxDrain.OtherWeighs | rynmesh/mailbox_client.py:241-353 | A look at another message raises nobody's remaining looks as long as the row is held. |
| MailboxDrain.BatchLooks | rynmesh/mailbox_client.py:241-366 | Over a whole batch of at most capacity messages each served message keeps its row and has fewer looks left than before. |
| MailboxDrain.Serves | rynmesh/mailbox_store.py:120-171 | What a round leaves in the box is what was neither acknowledged nor expired, and the batch is exactly the longest head of it that fits the poll limit and the byte budget. |
| MailboxDrain.ServedAgain | rynmesh/mailbox_store.py:141-171 | Messages of the last batch that stay in the box are at its head and are all served again. |
| MailboxDrain.RoundDrains | rynmesh/mailbox_client.py:180-220 | With client and store composed and whatever stale rows the table holds, a poll that serves no more messages than the table has rows lowers the looks left in the box by at least the number served, and serves some unless the box is empty. |
| MailboxDrain.FittingRoundsDrain | rynmesh/mailbox_client.py:180-374 | With no new deposits, n messages are gone after at most n * max_attempts + 1 polls if no poll serves more than the table has rows. |
| MailboxDrain.SingleRoundDrains | rynmesh/mailbox_client.py:267-293 | With a single attempt every poll of a nonempty box leaves fewer messages without an acknowledgement, however small the table. |
| MailboxDrain.BoxDrains | rynmesh/mailbox_client.py:180-374 | With no new deposits n messages are gone after at most n * max_attempts + 1 polls if there is a single attempt, or the table has at least min(50, n) rows, whatever stale rows it holds. |
| MailboxDrain.NothingHidden | rynmesh/mailbox_client.py:275-293 | With a single attempt or such a table every message that does not expire first is looked at within the same number of polls, however many undecryptable or failing ones sit before it. |
| MailboxThrash.CountsOne | rynmesh/mailbox_client.py:401-422 | With fewer rows than failing messages a failed look in turn finds its row gone and counts one again. |
| MailboxThrash.RoundThrashes | rynmesh/mailbox_client.py:180-374 | A round of failures through both ends over a table with fewer rows than the poll serves messages leaves the box as it was and the table ready for the next. |
| MailboxThrash.ThrashNeverDrains | rynmesh/mailbox_client.py:417-422 | For every table with fewer rows than a poll serves messages and two or more attempts: no number of failing polls, over messages not yet touched and unexpired, takes anything out of the box. |
| MailboxThrash.CanFailForever | rynmesh/mailbox_client.py:267-293 | Such runs of any length exist for every such box. |
| MailboxThrash.DrainsOnlyIf | rynmesh/mailbox_client.py:401-422 | With two or more attempts, if every long enough run empties the box, the table has at least as many rows as its first poll serves messages. |
| MailboxThrash.DrainsIff | rynmesh/mailbox_client.py:401-422 | For every max_attempts from one on, a box of n untouched, unexpired messages whose first min(50, n) fit the byte budget drains in every run if and only if there is a single attempt or the table has at least min(50, n) rows. |
| MailboxThrash.AscendingFits | rynmesh/mailbox_store.py:148-171 | In a box where no message is smaller than an older one no poll of any run serves more messages than the table has rows, if that holds of the first. |
| MailboxThrash.AscendingDrainsIff | rynmesh/mailbox_client.py:401-422 | Such a box, in particular one of messages of one size, drains in every run if and only if there is a single attempt or the table has a row for each message of the first poll, however short the byte budget cuts it. |
| PersonalSpace.PersonalSpace.CreateSpace | rynmesh/personal_space.py:171-193 | Creating signs revision one with the creator as the only, managing member; a device in a space cannot create. |
| PersonalSpace.PersonalSpace.RevokeInvitesBy | rynmesh/personal_space.py:286-295 | Exactly the issuer's invitations become revoked. |
| PersonalSpace.PersonalSpace.AdmitSender | rynmesh/personal_space.py:202-227 | Joining needs a usable invitation, room and a clean name, marks the invitation used and signs. |
| PersonalSpace.PersonalSpace.SyncSender | rynmesh/personal_space.py:228-241 | Syncing renames an active member, and re-signs on a rename or a stale signature. |
| PersonalSpace.PersonalSpace.ChangeTarget | rynmesh/personal_space.py:277-299 | Removing or demoting an active member other than the coordinator revokes its invitations and signs. |
| PersonalSpace.PersonalSpace.ApplyAction | rynmesh/personal_space.py:200-299 | Every action in place has the specified new state or error. |
| PersonalSpace.PersonalSpace.ProcessOrder | rynmesh/personal_space.py:395-457 | A request is answered from the cache, refused when its sealed body has expired, or applied in place and rolled back when refused or when its reply cannot be sealed. |
| PersonalSpace.PersonalSpace.ActLocally | rynmesh/personal_space.py:301-312 | A local action of the coordinator is applied without rollback. |
| PersonalSpace.PersonalSpace.Tick | rynmesh/personal_space.py:504-533 | One turn of the coordinator signs an old list again and then handles the first hundred open requests in order; it is the run of those steps and keeps the delegation invariant. |
| PersonalSpace.PersonalSpace.AcceptSnapshot | rynmesh/personal_space.py:385-393 | A device takes only a fresh list of its own coordinator and space that is neither older than nor different at the same revision from the one it holds. |
| PersonalSpace.PersonalSpace.AllowsPeer | rynmesh/personal_space.py:618-632 | A peer is admitted to AI service exactly when it is this device, or the policy is space-wide and both are active in a list whose lease has not run out. |
| PersonalSpace.PersonalSpace.SetPolicy | rynmesh/personal_space.py:608-616 | Space-wide access needs a current active membership. |
| PersonalSpace.PersonalSpace.Leave | rynmesh/personal_space.py:638-646 | Leaving forgets everything; the coordinator cannot leave. |
| PersonalSpace.CreateOk | rynmesh/personal_space.py:171-193 | A new space satisfies the delegation invariant. |
| PersonalSpace.JoinKeeps | rynmesh/personal_space.py:202-227 | Joining keeps at most 64 members and the delegation invariant. |
| PersonalSpace.TargetKeeps | rynmesh/personal_space.py:277-299 | Removing, demoting and promoting keep every live invitation's issuer an active manager and the coordinator one too. |
| PersonalSpace.ApplyKeeps | rynmesh/personal_space.py:195-299 | Every action by whomever, accepted or not, keeps the delegation invariant and signs at most once. |
| PersonalSpace.RefusalChangesNothing | rynmesh/personal_space.py:248-257 | Whatever a refused action changes is the dropping of expired invitations, and only a refused invitation does it. |
| PersonalSpace.RefusedLocallyIff | rynmesh/personal_space.py:248-257 | A refused action of the coordinator's own user leaves everything as it was if and only if it is not a well-formed invitation asked for while a hundred or more are live and an expired one is on the books. |
| PersonalSpace.RefusalDropsOne | rynmesh/personal_space.py:251-257 | A coordinator with a hundred or more live invitations and an expired one refuses another and forgets the expired one. |
| PersonalSpace.FailedRequestChangesOnlyReplies | rynmesh/personal_space.py:424-447 | A remote request that does not take effect changes only the reply cache. |
| PersonalSpace.NextKeeps | rynmesh/personal_space.py:395-457 | Every step of the coordinator keeps the invariant, moves the revision by at most one, and answers only with the list it stands by or one it answered with before. |
| PersonalSpace.ReplayIsIdempotent | rynmesh/personal_space.py:406-410 | A request answered once gets the same answer for two days, whatever happens in between, and asking again changes nothing. |
| PersonalSpace.SettledStaysOut | rynmesh/personal_space.py:406-417 | A request that is remembered for longer than it can be opened never takes effect again. |
| PersonalSpace.AppliedAtMostOnce | rynmesh/personal_space.py:395-457 | Over every run with a nondecreasing clock, however often and however late it is delivered, a request takes effect at most once if on each delivery less than two days of its sealed body's life are left. |
| PersonalSpace.LongerLivedAppliesTwice | rynmesh/personal_space.py:449-456 | A request good for exactly two days can take effect twice. |
| PersonalSpace.LifetimeThreshold | rynmesh/personal_space.py:406-456 | Requests of a given lifetime take effect at most once in every run if and only if the lifetime is shorter than the two days an answer is remembered. |
| PersonalSpace.StepsKeep | rynmesh/personal_space.py:395-457 | Any number of steps at one instant keep the delegation invariant. |
| PersonalSpace.InvitationsAdmitOnce | rynmesh/personal_space.py:202-227 | Over every run with fresh tokens an invitation admits at most one device. |
| SpaceAuthority.OnlyManagersManage | rynmesh/personal_space.py:195-312 | A step whose actor is not an active manager removes nobody, changes nobody else's entry and no role, and neither issues nor revokes an invitation; it can at most join as a device, rename itself and spend an invitation. |
| SpaceAuthority.WithoutManagers | rynmesh/personal_space.py:195-312 | Over every run in which no manager acts the managers stay the same, nobody is removed, and no invitation is issued or revoked. |
| SpaceAuthority.NonManagersAreRefused | rynmesh/personal_space.py:242-242 | Anybody who is not a manager and asks for anything but to join or to sync is refused as such, and only the memory of that answer changes. |
| SpaceAuthority.AppliedIff | rynmesh/personal_space.py:195-447 | A request takes effect if and only if it is addressed to this coordinator, new, unexpired, bound and sealable and its action is permitted: who may do it, to whom, with which name, and with how many members and live invitations. |
| SpaceAuthority.Effects | rynmesh/personal_space.py:200-299 | What an accepted action changes, entry by entry: the one member it is about, the invitations it adds, spends or withdraws, and whether the list is signed again, with which revision and lease. |
| SpaceAuthority.AnswersRemembered | rynmesh/personal_space.py:424-456 | A considered request is told its outcome, with the list and the new invitation if it took effect, and the answer is remembered for two days; only expired answers are forgotten. |
| SpaceAuthority.OnlyFromMemory | rynmesh/personal_space.py:395-423 | A request that is not considered changes nothing and is answered only if it is the very request answered before under its id. |
| SpaceAuthority.TimerOnlyRenews | rynmesh/personal_space.py:504-533 | The clock alone signs a list more than an hour old again, with the same members, and does nothing else. |
| SpaceAuthority.DeadAdmitsNobody | rynmesh/personal_space.py:202-227 | Over every run that does not draw the same token again, an invitation that is revoked, used or expired admits nobody. |
| SpaceAuthority.WithdrawnIsDead | rynmesh/personal_space.py:259-298 | Cancelling an invitation, or removing or demoting the device that issued it, makes it admit nobody. |
| SpaceAuthority.AdmissionsAre | rynmesh/personal_space.py:202-227 | The admissions of a run are the tokens of the joins that took effect, in order. |
| SpaceAuthority.AcceptedIff | rynmesh/personal_space.py:90-109 | A device accepts a list if and only if its coordinator manages it, it has at most 64 members, its lease is of at most a day and running, it is of the device's own coordinator and space, and it is newer than or equal to the one held. |
| SpaceAuthority.AdmittedIff | rynmesh/personal_space.py:618-632 | A peer is admitted to AI service if and only if it is this device, or access is space-wide and the list held is reliable now and shows both as present. |
| SpaceRuns.FreshSpaceOk | rynmesh/personal_space.py:171-193 | A newly created space, with no list handed out and no device holding one, satisfies the invariant of the runs. |
| SpaceRuns.CoordinateKeeps | rynmesh/personal_space.py:395-457 | A step of the coordinator keeps every released list earlier than or equal to the current one. |
| SpaceRuns.StepKeeps | rynmesh/personal_space.py:385-457 | Every move of the whole space keeps: one released list per revision, and devices hold only released lists. |
| SpaceRuns.DevicesAgree | rynmesh/personal_space.py:385-393 | After any run, two devices at the same revision hold identical lists, and at the coordinator's revision its own. |
| SpaceRuns.RevisionsClimb | rynmesh/personal_space.py:385-393 | Until it leaves, a device's revision never decreases, whatever it is handed. |
| SpaceRuns.OwnListsAreAcceptable | rynmesh/personal_space.py:99-109 | A list the coordinator signed passes a device's checks exactly from a minute before its signing until its lease ends. |
| SpaceRuns.SyncRenews | rynmesh/personal_space.py:228-241 | A successful sync hands out a list its device accepts at once, whatever it held, and that is good for at least 23 more hours. |
| SpaceRuns.RemovalRevokes | rynmesh/personal_space.py:284-298 | A removal that takes effect leaves no list showing the device as active that was signed later. |
| SpaceRuns.RevocationIsBounded | rynmesh/personal_space.py:618-632 | From one lease after a removal on, no other device and not the coordinator admits the removed one unless it joins again, for any delay, loss, repetition or reordering. |
| SpaceRuns.RevocationIsTight | rynmesh/personal_space.py:103-109 | A device that hears nothing admits the removed one exactly until the lease of the list it holds ends. |
| SpaceDevices.HeldAfter | rynmesh/personal_space.py:385-457 | What each move of the whole space changes: a device's list only when it is handed one that may be relied on and is no step back or when it leaves, its policy only when it chooses or leaves, and lists go out only in replies. |
| SpaceDevices.SyncedServesMembers | rynmesh/personal_space.py:228-241 | In every reachable space, when a permitted sync is answered within 23 hours, the device holds the list of that moment, whatever it held or missed before, and admits exactly itself and, if it is a member, the members of that list. |
| WorkOrders.FilePeerRegistry.constructor | rynmesh/registry.py:202-215 | Opening a directory with or without an index leaves it indexed. |
| WorkOrders.FilePeerRegistry.InitializeIndex | rynmesh/registry.py:248-279 | The migration adds a marker for exactly the open, unanswered orders. |
| WorkOrders.FilePeerRegistry.SubmitWorkOrder | rynmesh/registry.py:364-400 | An order is stored once, a different one under the same id is refused, and its marker is written or removed by its state. |
| WorkOrders.FilePeerRegistry.PublishWorkResult | rynmesh/registry.py:519-551 | A result is recorded only for the matching order, whose marker goes. |
| WorkOrders.FilePeerRegistry.ScanOpen | rynmesh/registry.py:425-456 | The full scan lists exactly the matching, open, unanswered orders in file order. |
| WorkOrders.FilePeerRegistry.ListOpen | rynmesh/registry.py:458-517 | The marker walk lists the marked, matching, open, unanswered orders in file order and discards exactly the visited markers that are not live. |
| WorkOrders.ListsOnce | rynmesh/registry.py:458-517 | A listing in file order is determined by the names it keeps. |
| WorkOrders.StaleNeverSurfaces | rynmesh/registry.py:478-505 | Whatever the markers hold, nothing is listed that the scan would not list. |
| WorkOrders.ListingsAgree | rynmesh/registry.py:402-517 | When every order wanted by the scan has its marker, both listings are the same list in the same order. |
| WorkOrders.AgreeIff | rynmesh/registry.py:402-517 | The two listings agree on every query if and only if the index is exact. |
| WorkOrders.FoundIffVisible | rynmesh/registry.py:553-619 | A matching result is found by the status lookup if and only if the order's id, provider and requester survive stripping (or strip to nothing). |
| WorkOrders.PublishKeepsIff | rynmesh/registry.py:519-551 | Publishing keeps the index exact if and only if the order's fields survive stripping or the order has closed. |
| WorkOrders.TrimmedIff | rynmesh/registry.py:563-565 | A field survives stripping, or strips to nothing, if and only if it is all blanks or neither starts nor ends with a blank. |
| WorkOrders.PaddedOrderDisagrees | rynmesh/registry.py:553-571 | For every open order with a padded field, after its result is published the scan lists it and the index does not. |
| WorkOrders.DoKeepsIff | rynmesh/registry.py:364-551 | One operation leaves an exact index exact if and only if it does not accept a result for an open order with a padded field. |
| WorkOrders.IndexRefinesScan | rynmesh/registry.py:248-551 | Over every run of submitting, publishing, listing and reopening, from a legacy or indexed directory, in which no result is accepted for an open order with a padded field, the marker walk returns exactly the scan's list. |
| WorkOrders.AgreeThroughoutIff | rynmesh/registry.py:248-551 | Over every run from an exact index the two listings agree on every query at the start and after every operation if and only if the run accepts no such result. |
| WorkOrders.SubmitAcceptedIff | rynmesh/registry.py:364-400 | A submission succeeds if and only if the order is valid and its id free or already its own; then exactly that order is stored, no other entry changes, and a refusal changes nothing. |
| WorkOrders.PublishAcceptedIff | rynmesh/registry.py:519-551 | A result is recorded if and only if it is valid and names a stored order with its provider, requester and network; nothing recorded is dropped, and a refusal changes nothing. |
| WorkOrders.RecordsStay | rynmesh/registry.py:364-551 | Over every run orders and results, once stored, are there for good exactly as they were. |
| WorkOrders.MarkedIff | rynmesh/registry.py:248-551 | After each operation a marker is there if and only if: for a submission its order is unexpired and without a result that can be found, for a result it is another order's, for a listing it is not visited or still live, for indexing it was there or its order awaits a result. |
| WorkOrders.ScanListsIff | rynmesh/registry.py:402-456 | An order is listed by the full scan if and only if it is of the network, passes each filter with the blanks around it ignored, is young enough, has not expired and has no result that can be found. |
| EigenTrust.PretrustIsProportional | rynmesh/eigentrust.py:58-61 | With a positive total, a peer's pre-trust is its clipped share of it. |
| EigenTrust.PretrustIsDistribution | rynmesh/eigentrust.py:46-62 | Given weights or not, the pre-trust vector is nonnegative and sums to one. |
| EigenTrust.RowStochastic | rynmesh/eigentrust.py:131-142 | Every row of the trust matrix is nonnegative and sums to one; stranded raters defer to the pre-trust. |
| EigenTrust.NextIsDistribution | rynmesh/eigentrust.py:144-168 | Every step turns a distribution into a distribution. |
| EigenTrust.IteratesAreDistributions | rynmesh/eigentrust.py:144-172 | Every iterate is nonnegative and sums to one. |
| EigenTrust.StepContracts | rynmesh/eigentrust.py:144-172 | A step brings any two vectors closer by at least the factor 1 - alpha in the L1 distance. |
| EigenTrust.DeltaShrinks | rynmesh/eigentrust.py:169-172 | The change per iteration is at most 2 (1 - alpha)^k. |
| EigenTrust.FixedPointIsUnique | rynmesh/eigentrust.py:25-30 | With alpha positive, t = (1 - alpha) C^T t + alpha p has at most one solution. |
| EigenTrust.IteratesAreCauchy | rynmesh/eigentrust.py:144-172 | From step k on no two iterates are further apart than 2 (1 - alpha)^k. |
| EigenTrust.StoppingBound | rynmesh/eigentrust.py:169-172 | How far a step ends from a fixed point is at most (1 - alpha) / alpha times how far it moved. |
| TrustFixedPoint.Solvable | rynmesh/eigentrust.py:25-30 | A system x = M x + b with nonnegative M whose columns sum to less than one, and nonnegative b, has a nonnegative solution. |
| TrustFixedPoint.FixedPointExists | rynmesh/eigentrust.py:25-30 | For every positive alpha t = (1 - alpha) C^T t + alpha p has a solution, and it is a distribution. |
| TrustFixedPoint.IteratesApproach | rynmesh/eigentrust.py:144-172 | There is exactly one solution, and the k-th iterate is within 2 (1 - alpha)^k of it. |
| TrustFixedPoint.StoppedIsClose | rynmesh/eigentrust.py:144-174 | The vector returned is that close to the solution, and within epsilon (1 - alpha) / alpha of it when the loop stopped because the last change was below epsilon. |
| EigenTrust.IsolatedGetNothing | rynmesh/eigentrust.py:118-174 | A group without pre-trust and without positive scores from outside gets exactly no trust after any number of iterations, however its members rate each other. |
| EigenTrust.AnchorsHold | rynmesh/eigentrust.py:149-149 | Every peer keeps at least alpha times its own pre-trust. |
| EigenTrust.WithoutWeightsNobodyIsIsolated | rynmesh/eigentrust.py:58-62 | Without a positive weight the uniform fallback anchors everybody, so no nonempty group is isolated. |
| TrustIteration.BuildRows | rynmesh/eigentrust.py:121-129 | The sparse rows and row sums hold exactly what each rater gave, negatives left out. |
| TrustIteration.Normalize | rynmesh/eigentrust.py:131-142 | The normalised rows and the stranded list stand for the dense matrix. |
| TrustIteration.GatherMass | rynmesh/eigentrust.py:151-153 | Adding up the stranded raters gives their whole mass. |
| TrustIteration.SpreadStranded | rynmesh/eigentrust.py:150-157 | Stranded raters contribute their mass times the pre-trust vector. |
| TrustIteration.SpreadActive | rynmesh/eigentrust.py:158-165 | Walking only existing edges adds each active rater's whole contribution. |
| TrustIteration.MassesMakeNext | rynmesh/eigentrust.py:144-165 | The stranded and active contributions together are the dense product. |
| TrustIteration.RenormalizeTotal | rynmesh/eigentrust.py:166-168 | Renormalising a distribution changes nothing. |
| TrustIteration.IterateOnce | rynmesh/eigentrust.py:148-170 | One pass of the sparse loop computes exactly (1 - alpha) C^T t + alpha p. |
| TrustIteration.EigenTrustOf | rynmesh/eigentrust.py:65-174 | Bad parameters are refused in order; otherwise the result is the first iterate that moved by less than epsilon, or the last one allowed. |
| Provenance.VerifyChain | rynmesh/provenance.py:183-268 | The verification loop gives the first failing check of the chain or its summary. |
| Provenance.LinksAreAttributed | rynmesh/provenance.py:212-256 | Every link of a verifying chain is signed by its issuer over its payload, is about the one content and has its required fields. |
| Provenance.VerifiesIff | rynmesh/provenance.py:183-268 | A chain verifies if and only if it starts with the one genesis, every link is about the same content, names the hash of its predecessor, has its required fields and the signature of its issuer, and the last hashes to the head asked for, if any; the summary lists the kinds and issuers link by link. |
| Provenance.WalksIff | rynmesh/provenance.py:212-256 | The same for the walk from any link on. |
| Provenance.HeadDeterminesChain | rynmesh/provenance.py:183-268 | Two chains that verify with the same head hash are equal link by link, with the same summary. |
| Provenance.GenesisVerifiesIff | rynmesh/provenance.py:110-138 | A genesis link starts a verifying chain if and only if its publisher signed it, it names content, and the extra fields leave the content hash alone. |
| Provenance.AppendVerifiesIff | rynmesh/provenance.py:141-171 | Appending to a verifying chain gives a verifying one if and only if the link is no genesis, has its required fields and is signed by its issuer. |
| Provenance.AppendSucceedsIff | rynmesh/provenance.py:152-160 | On a verifying chain appending fails exactly for an unknown type or other content. |
| Provenance.Chain.AppendLink | rynmesh/provenance.py:141-171 | Appending in place extends the chain by exactly the new link, or changes nothing. |
| ThinkingSplitter.ThinkingSplitter.FeedText | rynmesh/llm_runtime_server.py:33-53 | One feed has the specified new state and output. |
| ThinkingSplitter.OpenedAppend | rynmesh/llm_runtime_server.py:37-43 | Once the beginning is decided, more text does not change the decision. |
| ThinkingSplitter.MarkersInHeldBack | rynmesh/llm_runtime_server.py:50-53 | Holding back seven characters suffices: a marker found later starts in what was held back. |
| ThinkingSplitter.FeedTracks | rynmesh/llm_runtime_server.py:33-53 | After every feed the output so far is the part of the one-shot split that is already certain. |
| ThinkingSplitter.FinalFeedFinishes | rynmesh/llm_runtime_server.py:342-344 | The final empty feed completes the split and never yields answer text. |
| ThinkingSplitter.HoldsLittle | rynmesh/llm_runtime_server.py:33-53 | What is held back is blanks with a part of the opening marker before the beginning is decided, at most seven characters after that, and nothing once the stream or the reasoning has ended. |
| ThinkingSplitter.SplitStream | rynmesh/llm_runtime_server.py:315-344 | For every way of cutting the text, the streamed reasoning and answer equal the one-shot split, although the final feed's answer is thrown away. |

## Left out

- Key agreement, key derivation, signatures, scrypt and authenticated encryption themselves: represented symbolically.
- ICE and UDP connections, timeouts, HTTP routes, network clients and thread pools: a hop is a sequence of frames, a transport may lose, repeat and reorder.
- Filesystem errors, permissions, fsync and temporary files; the only failure inside a write is the torn finish between rename and checkpoint.
- JSON text, base64 and time stamps as text: a field that cannot be read is an absent value or a failed validity flag.
- Slugs and hashed file names: collision free and represented by what they are made from, so file order is the order of the ids.
- The nonce replay cache of the mailbox: only the window its entries must cover is stated.
- Several clock readings inside one operation, other than those named by parameters, are one reading.
- MailboxClient.AtMostOnce: restarts happen between polls; a crash inside a batch loses that batch's record of completions in the program as well.
- MailboxThrash.DrainsIff: when the byte budget cuts the first poll short of min(50, n) messages, some later message is smaller than an older one and there are two or more attempts, tables with a size between what the first poll serves and min(50, n) are left undecided; `FittingRoundsDrain` covers the runs in which no poll outgrows the table.
- TransferRuns.RetryAcceptedIff: attempts follow one another; one that overlaps an earlier session is refused while that session holds the transfer, and interleavings are the subject of `SinkSessions`.
- TransferStream.FileArrives: the text of a manifest is any pair of functions in which reading undoes writing.
- MailboxDrain.BoxDrains: covers runs of successful polls without restarts; a restart forgets queued acknowledgements, which only repeats looks.
- SpaceRuns.RevocationIsBounded: one space and one shared clock; a device in several spaces over time is several devices.
- Pending requests of a member, name settings and the transport of requests: a device may be handed any released list at any time, which includes every run they allow.
- Backup and restore of a personal space, which assume that the two copies never run together.
- Which status is the latest when an order has several results: only whether there is one matters to the open listing.
- Building the sorted universe of peers for the trust computation: peers are their positions in it.
- TrustIteration.EigenTrustOf: over the reals; floating-point rounding is not modelled.
- The tool-call parsing of the streaming chat loop around the splitter, its error paths and usage counts.
- Reading the routing policy from the environment: the theorems hold for every policy.
- Credits, ranking, discovery, NAS, packaging, settings and worker backoff: easy or unrelated members.

# Verified model of the real-time media path, the voice rooms and the wire formats

A Dafny model of the parts of OpenSocialNet that are state machines, loops and modular arithmetic: the
video path from packetizer to decoder, the two lock-free queues, the voice-room protocol between the
signaling server and its clients, the video loss concealer, the WebSocket, video-stream and base64url
codecs, and the relay's room table. Objects the program updates in place are classes whose methods are
proved against functions on values; what the program is for is then proved about those functions over
every input, every schedule and every run. `dafny verify dfyconfig.toml` checks everything.

## How the model is laid out

- `Words`, `Packets`, `SerialNumbers`: 8/16/32/64-bit words with explicit wrap-around, sequence helpers,
  the packet, and serial-number order (section 3.2 of RFC 1982).
- `JitterBuffer` (the class), `ArrivalStatistics` (the jitter estimate and counters over runs of arrivals),
  `JitterBufferOrder` (delivery order over unbounded runs, with a ghost unbounded number behind every
  16-bit key), `JitterBufferRuns` (conservation, adaptation), `JitterBufferWedge` (when a full buffer can
  stick).
- `LossSim`, `UnorderedSending`: the simulator with its random draws as an argument, and swapped sending
  undone by the playout buffer.
- `VideoPacketizer`, `VideoReassembler`, `PeerVideoRouter`, `VideoPipeline`, `DisplayOrder` (where the
  substitutes for lost frames are shown), `LossCounters` (what the counters count), `EndToEnd`: the video
  path.
- `RingSlots`, `SpscQueue`, `RingBuffer`: queues as interleaved atomic steps with counters modulo 2^64.
- `VoiceRooms`, `VoiceRoomInvariant`, `SignalingClient`, `ReplicatedRooms`, `RoomReplication`,
  `ReplicatedRuns`: the server, what its runs keep, the client's peer list, and the two together;
  `InitialSync` (when a join gives up), `RoomSwitching` (what leaving and switching do to the list).
- `VideoPlanes`, `MotionSearch`, `MotionCandidates` (the search in coordinates), `VideoConcealment`,
  `VideoPlc`: loss concealment.
- `Sockets`, `WebSocketFrames`, `WebSocketWire` (frames bit by bit, deliveries and refusals),
  `WebSocketClient`, `VideoIpcFormat`, `VideoIpc`, `Base64Url`: byte streams.
- `RoomTable`: the relay.

## What the proofs found about the code

- Playback start and both skips jump to the numerically first buffered key. That is the earliest packet
  exactly when the buffered numbers do not straddle 65535 to 0 (`FirstKeyIsEarliestIff`); a run that
  starts on straddling numbers delivers packet 65535 after packets 65536 and 98302
  (`StraddlingStartReorders`).
- A playout threshold above 47, or an adaptive upper bound above 47, can wedge the buffer for good: full,
  refusing every push and delivering nothing (`WedgeIffThreshold`, `WedgedForever`). The pile-up skip needs
  threshold + 3 packets and only 50 fit.
- With a threshold of 1 a swapped first pair is delivered out of order (`RestoredIffThreshold`).
- The loss counters miss the frames of a jump made before the timestamp step is learned or spanning more
  than 30 frames, and only those (`ExactAccountingIff`, with the run of `EarlyLossIsUncounted`).
- `LeaveVoice` naming a room the sender is not in clears the session's room but leaves its seat
  (`LeaveKeepsSoundIff`, `WrongLeaveBreaksPlaced`); `JoinVoice` with an empty channel id creates a room no
  close will clear (`JoinKeepsSoundIff`, `EmptyChannelBreaksPlaced`).
- A client that leaves its room is told nothing and keeps its list (`LeaverKeepsListIff`); one that switches
  rooms ends with the new room's members exactly when nobody else was in the old one
  (`SwitchKeepsReplicaIff`, with the run of `SwitchKeepsStalePeer`). A user with two sessions in a room is
  shown once (`JoiningFollowsEntering`).
- src/plc/src/VideoPlc.cc:144-158 says a change of resolution drops all history; the code then moves the
  old frame into the previous slot, still valid. It is never used across sizes (`ResizeHolds`).
- A frame sent over the video stream is refused by its reader if a side does not fit sixteen bits, although
  the size in its header is right (`WrittenIsPlausibleIff`, `WideFrameIsRefused`).

## Model

| member | source | states |
|---|---|---|
| SerialNumbers.SequenceLessIsOrder | src/network/src/PacketJitterBuffer.cc:130-135 | on numbers less than half a period apart, the 16-bit comparison is the order of the unbounded numbers, over any number of wraps |
| JitterBuffer.FirstKey | src/network/src/PacketJitterBuffer.cc:45 | begin() of the ordered map: a key no other key is numerically below |
| JitterBuffer.TargetThreshold | src/network/src/PacketJitterBuffer.cc:112-128 | within the bounds; below the upper one it covers 20 ms plus twice the jitter, and above the lower one a frame less would not |
| JitterBuffer.PacketJitterBuffer.Push | src/network/src/PacketJitterBuffer.cc:21-33 | whole new state, the observation of `ArrivalStatistics` included; true exactly if not late and not full, also for a duplicate, which is not inserted |
| JitterBuffer.PacketJitterBuffer.SeekHead | src/network/src/PacketJitterBuffer.cc:40-80 | playback start, pile-up skip and burst skip find exactly the key the next delivery takes |
| JitterBuffer.PacketJitterBuffer.AdaptPlayout | src/network/src/PacketJitterBuffer.cc:86-106 | every fiftieth successful pop moves the threshold one step towards the target and counts it |
| JitterBuffer.PacketJitterBuffer.Pop | src/network/src/PacketJitterBuffer.cc:35-110 | whole new state and the packet delivered, if any |
| JitterBuffer.PacketJitterBuffer.SetAdaptiveBounds | src/network/include/PacketJitterBuffer.hh:72-78 | a zero minimum becomes 1 and the maximum is never below the minimum |
| JitterBuffer.PacketJitterBuffer.SetPlayoutThreshold | src/network/include/PacketJitterBuffer.hh:49 | only the threshold changes; the buffer stays fit for use iff it is at least 1 |
| JitterBuffer.StepsKeepWellFormed | src/network/src/PacketJitterBuffer.cc:21-110 | push and pop keep at most 50 packets, a threshold of at least 1, ordered bounds and nonnegative jitter |
| ArrivalStatistics.NextObserved | src/network/include/JitterStats.hh:79-107 | for two arrivals less than half a period apart: the jitter moves a sixteenth of the way towards the deviation of arrival from media time, forward steps count the numbers skipped, backward steps count once |
| ArrivalStatistics.JitterIsBounded | src/network/include/JitterStats.hh:57-109 | over every run of arrivals, if each comes at most D earlier or later than its media time says after the one before, the jitter never exceeds D |
| ArrivalStatistics.JitterStepIsBounded | src/network/include/JitterStats.hh:82-96 | from any jitter, deviations of at most D never raise it above the larger of the two |
| ArrivalStatistics.OneLatePacket | src/network/include/JitterStats.hh:82-96 | after perfectly paced packets the jitter is 0, and one packet d early or late adds exactly d / 16 |
| ArrivalStatistics.CountersAreExact | src/network/include/JitterStats.hh:98-107 | over any number of wraps the counters are the arrivals, the numbers stepped over and the backward steps |
| ArrivalStatistics.StatsOfRun | src/network/src/PacketJitterBuffer.cc:21-33 | over every run of pushes and pops the statistics are those of the arrivals: every push is observed, accepted or not, and no pop is |
| ArrivalStatistics.PacedStreamKeepsThreshold | src/network/src/PacketJitterBuffer.cc:86-128 | a perfectly paced stream leaves the jitter at 0 and an adaptive threshold at its initial 2 frames, however long it plays |
| JitterBufferOrder.HeadIsEarliest | src/network/src/PacketJitterBuffer.cc:40-84 | the packet a pop takes has the smallest unbounded number in the buffer, at or after the play head |
| JitterBufferOrder.OrderedDelivery | src/network/src/PacketJitterBuffer.cc:27-84 | over every run whose pushes are within half a window and whose starts and skips do not straddle the wrap, the unbounded numbers delivered strictly increase |
| JitterBufferOrder.GapIsSkippedIff | src/network/src/PacketJitterBuffer.cc:49-78 | a stalled pop gives up on the missing packet iff threshold + 3 packets wait or the earliest one waiting is more than five places ahead |
| JitterBufferOrder.PopDeliversIff | src/network/src/PacketJitterBuffer.cc:40-84 | a pop delivers iff, before playback, the threshold is reached or, during playback, the packet at the play head is buffered, threshold + 3 packets wait, or the earliest one is more than five places ahead |
| JitterBufferOrder.AcceptedIff | src/network/src/PacketJitterBuffer.cc:21-33 | a push takes packet x iff it is not before the play head and fewer than 50 are held; it inserts it iff x is not held already |
| JitterBufferOrder.DeliveryIsRun | src/network/src/PacketJitterBuffer.cc:21-110 | the run with ghost numbers delivers exactly the packets the buffer itself delivers |
| JitterBufferOrder.FirstKeyIsEarliestIff | src/network/src/PacketJitterBuffer.cc:45 | jumping to begin() takes the earliest packet iff the buffered numbers do not straddle the wrap |
| JitterBufferOrder.StraddlingStartReorders | src/network/src/PacketJitterBuffer.cc:43-76 | the concrete run that delivers 65536, 98302, 65535 |
| JitterBufferRuns.Conservation | src/network/src/PacketJitterBuffer.cc:30-84 | packets held before plus packets inserted equal packets delivered plus packets still held, as multisets, over every run |
| JitterBufferWedge.NeverWedges | src/network/src/PacketJitterBuffer.cc:28-78 | with the threshold in 1..47, in every reachable state pop succeeds at size ≥ threshold + 3, and at size ≥ threshold before playback; a full buffer always yields |
| JitterBufferWedge.WedgedForever | src/network/src/PacketJitterBuffer.cc:28-78 | a full buffer with nothing to deliver stays so under every further run |
| JitterBufferWedge.HighThresholdWedges | src/network/src/PacketJitterBuffer.cc:66-78 | a run that wedges a fresh buffer whose threshold exceeds 47 |
| JitterBufferWedge.HighBoundWedges | src/network/src/PacketJitterBuffer.cc:92-128 | a run of late packets that drives an adaptive threshold from any start to 48 and then wedges the buffer |
| JitterBufferWedge.WedgeIffThreshold | src/network/src/PacketJitterBuffer.cc:66-78 | a fresh buffer with any threshold and any bounds can be wedged by some run iff the threshold exceeds 47 or may be adapted beyond it |
| JitterBufferRuns.Convergence | src/network/src/PacketJitterBuffer.cc:92-106 | while the clamped target stays T: one step per 50 successful pops, never past T, each step counted once |
| JitterBufferRuns.TargetReachedExactly | src/network/src/PacketJitterBuffer.cc:92-106 | from a fresh counter the threshold equals T iff at least 50 times the distance were popped |
| JitterBufferRuns.DefaultBounds | src/network/src/PacketJitterBuffer.cc:112-128 | with the default bounds and any jitter the threshold stays in 2..20 |
| LossSim.LossSim.Submit | src/network/src/LossSim.cc:47-82 | whole new state and what is sent at once, for any draws |
| LossSim.LossSim.EnqueueOrSendInline | src/network/src/LossSim.cc:84-103 | sent at once without jitter, else queued with its deadline |
| LossSim.SubmissionConserves | src/network/src/LossSim.cc:47-103 | every packet not dropped is sent, parked or queued exactly once |
| LossSim.DrawsDecide | src/network/src/LossSim.cc:47-82 | without jitter: a draw below the drop percentage drops; otherwise a parked packet goes out behind this one; otherwise a draw below the swap percentage parks; otherwise it is sent |
| LossSim.DelaysQueue | src/network/src/LossSim.cc:60-103 | with jitter: nothing is sent at once, and what is not dropped or parked is queued, each packet with its own delay |
| LossSim.ExtremePercentages | src/network/src/LossSim.cc:47-82 | 100 percent loses every packet and 0 percent none |
| UnorderedSending.SwapsAreUndone | src/network/src/LossSim.cc:56-82 | from any reachable state of the link, with other streams using the simulator in between: every delivered packet is taken in, no pop skips, the packets popped are the next ones of the stream, and the state reached is again a reachable one |
| UnorderedSending.InStepIsComplete | src/network/src/PacketJitterBuffer.cc:27-84 | popped, buffered, on the wire and parked packets add up to those submitted; in a settled link all are popped |
| UnorderedSending.SwappedStreamIsRestored | src/network/src/PacketJitterBuffer.cc:27-84 | without drops and jitter, threshold at least 2 and capacity not hit: for every interleaving nothing delivered is rejected, the stream comes out as 0, 1, 2, … over unboundedly many wraps, everything else submitted is buffered, on the wire or parked, and once the link has settled all of it is popped |
| UnorderedSending.RestoredIffThreshold | src/network/src/PacketJitterBuffer.cc:40-47 | every schedule restores the stream in this sense iff playback waits for at least two packets |
| VideoPacketizer.VideoPacketizer.Init | src/video_engine/src/VideoPacketizer.cc:17-26 | whole new state |
| VideoPacketizer.VideoPacketizer.PacketizeFrame | src/video_engine/src/VideoPacketizer.cc:28-63 | exactly the fragments of the frame, and the sender after it |
| VideoPacketizer.FragmentsJoin | src/video_engine/src/VideoPacketizer.cc:38-58 | the payloads joined are the frame, byte for byte |
| VideoPacketizer.FragmentsShape | src/video_engine/src/VideoPacketizer.cc:38-58 | payloads of 1 to 1200 bytes, one mark on the last, one timestamp, consecutive sequence numbers modulo 65536 |
| VideoPacketizer.FragmentsNameSender | src/video_engine/src/VideoPacketizer.cc:38-58 | every packet carries the sender's own stream identifier and payload type, all but the last 1200 bytes, and there are ceil(n / 1200) of them |
| VideoPacketizer.SentNamesSender | src/video_engine/src/VideoPacketizer.cc:28-63 | so does every packet of a whole stream |
| VideoPacketizer.SentLayout | src/video_engine/src/VideoPacketizer.cc:28-63 | the packets of a list of frames form one stamped stream, frame after frame, the clock one step per frame |
| VideoPacketizer.SentCarries | src/video_engine/src/VideoPacketizer.cc:28-63 | each frame is carried whole by one contiguous block of the stream and by no other packet |
| VideoPacketizer.EmptyFramesVanish | src/video_engine/src/VideoPacketizer.cc:32 | empty frames send nothing and leave the clock and numbering untouched |
| VideoReassembler.VideoReassembler.Feed | src/video_engine/src/VideoReassembler.cc:15-47 | whole new state; true exactly when a frame is ready |
| VideoReassembler.VideoReassembler.TakeCompleteFrame | src/video_engine/src/VideoReassembler.cc:49-55 | the buffer if a frame is ready, nothing otherwise |
| VideoReassembler.OrphanIsAbandonedIff | src/video_engine/src/VideoReassembler.cc:27-41 | a fragment that lost its mark stays out of the next frame iff the timestamps differ or it carried nothing |
| PeerVideoRouter.VideoSource.Pump | src/network/src/PeerVideoRouter.cc:76-156 | pops until nothing is ready and routes exactly those packets |
| PeerVideoRouter.VideoSource.Route | src/network/src/PeerVideoRouter.cc:84-145 | whole new state of a source for one packet, the calls to concealer and decoder in their order (`DisplayOrder.ConcealmentsPrecede`) |
| PeerVideoRouter.VideoSource.AccountLoss | src/network/src/PeerVideoRouter.cc:98-129 | dropped, missed, learned step and concealments at a frame boundary |
| VideoPipeline.FrameTimesDiffer | src/network/src/PeerVideoRouter.cc:98-111 | across a jump shorter than a clock period the 32-bit difference is the number of frames times the step, so timestamps differ iff the frames do |
| VideoPipeline.ExactFrames | src/network/src/PeerVideoRouter.cc:81-147 | for any in-order subsequence the decoder gets one frame per surviving mark, each the joined surviving payloads of its own frame |
| VideoPipeline.EmissionsByFrame | src/video_engine/src/VideoReassembler.cc:15-47 | the frames emitted have strictly increasing numbers: none twice, none out of order |
| VideoPipeline.CompleteFrameIsEmitted | src/video_engine/src/VideoReassembler.cc:15-47 | a frame whose packets all survive is emitted byte for byte, exactly once |
| VideoPipeline.LossAccounting | src/network/src/PeerVideoRouter.cc:81-140 | the learned step is 0 or the sender's; one concealment per dropped or missed frame; completed + dropped + missed + in progress + uncounted spans first to last frame |
| VideoPipeline.ExactAccountingIff | src/network/src/PeerVideoRouter.cc:111-125 | the counters account for every frame iff each jump of two or more frames comes after the step is learned and spans at most 30 |
| VideoPipeline.EarlyLossIsUncounted | src/network/src/PeerVideoRouter.cc:111-125 | the three-frame run in which a lost frame is neither counted nor concealed |
| DisplayOrder.ConcealmentsPrecede | src/network/src/PeerVideoRouter.cc:98-147 | whatever was lost, the concealments a packet causes, one per frame newly counted as dropped or missed, come before the frame the packet completes, and nothing shown before changes |
| DisplayOrder.DisplayIsExact | src/network/src/PeerVideoRouter.cc:98-147 | where the counters are exact, the calls are in display order: entry k stands for frame first + k and is its surviving payloads joined if its mark survived, a concealment otherwise |
| LossCounters.CountersTell | src/network/src/PeerVideoRouter.cc:98-129 | in every run the dropped frames are those of which something but not the mark survived, and missed plus uncounted frames those of which nothing survived |
| LossCounters.CountersAreExactIff | src/network/src/PeerVideoRouter.cc:98-129 | the missed counter is the number of frames of which nothing survived iff each longer jump is learned and spans at most 30 |
| EndToEnd.DeliveriesAreClose | src/network/src/PacketJitterBuffer.cc:43-84 | two packets delivered one after the other are at most one sequence period apart |
| EndToEnd.FramesArriveInOrder | src/network/src/PeerVideoRouter.cc:76-156 | packetizer to decoder, any schedule of losses, reorderings, repeats and pops the buffer orders: one call per surviving mark, for increasing frames, made of that frame's surviving payloads |
| EndToEnd.FramesAreShownInOrder | src/network/src/PeerVideoRouter.cc:76-156 | packetizer to screen: where the counters are exact, one entry per frame from the first heard to the last begun, in order, a concealment standing exactly for each frame without its mark |
| EndToEnd.WholeFrameArrives | src/video_engine/src/VideoPacketizer.cc:28-63 | a frame all of whose packets come out of the buffer reaches the decoder byte for byte in exactly one call |
| EndToEnd.LossIsAccounted | src/network/src/PeerVideoRouter.cc:81-140 | for any clock step, if no two survivors in a row are a sequence or clock period apart, the accounting identity holds end to end |
| EndToEnd.SmallStepIsAccounted | src/network/src/PeerVideoRouter.cc:81-140 | with a clock step below 65536 that condition always holds |
| EndToEnd.PumpsComputeOutput | src/network/src/PeerVideoRouter.cc:65-156 | a receiver that pushes and pumps in any order ends as the corresponding single pushes and pops leave it, so the results above speak of the router as it works |
| SpscQueue.EveryInterleavingIsSound | src/network/include/SpscQueue.hh:43-71 | every interleaving of the eight atomic steps keeps counters, slots and both threads consistent, counters wrapping at 2^64 |
| SpscQueue.FirstInFirstOut | src/network/include/SpscQueue.hh:43-71 | popped is a prefix of pushed, at most the capacity in flight, the producer never writes the slot the consumer reads |
| SpscQueue.RefusalsAreExact | src/network/include/SpscQueue.hh:49-65 | a push is refused iff the queue is full, and a pop iff it is empty, when the other counter is loaded |
| SpscQueue.SpscQueue.TryPush | src/network/include/SpscQueue.hh:43-55 | uninterrupted, it is its four steps; refused exactly when full |
| SpscQueue.SpscQueue.TryPop | src/network/include/SpscQueue.hh:59-71 | uninterrupted, it is its four steps; returns the oldest element |
| RingBuffer.EveryInterleavingIsSound | src/network/include/RingBuffer.hh:27-56 | every interleaving of single element copies and publications keeps the ring consistent |
| RingBuffer.ReadsFollowWrites | src/network/include/RingBuffer.hh:27-56 | what read returned is a prefix of what write accepted, and no copy overwrites an unread element |
| RingBuffer.TransfersAreMaximal | src/network/include/RingBuffer.hh:32-54 | each call moves the minimum of its request and the space or data it saw |
| RingBuffer.RingBuffer.Write | src/network/include/RingBuffer.hh:27-39 | accepts min(count, space) elements and appends exactly these |
| RingBuffer.RingBuffer.Read | src/network/include/RingBuffer.hh:43-56 | returns the next min(count, ready) elements in order |
| VoiceRooms.GatewayState.RemoveFromVoiceRoom | src/signaling_server/src/EnvelopeHandlers.cc:507-525 | the room without the session, dropped if empty; the peers that remain |
| VoiceRooms.GatewayState.LeaveVoiceRoom | src/signaling_server/src/EnvelopeHandlers.cc:530-560 | whole new state, including one VoicePeerLeft to each remaining peer |
| VoiceRooms.GatewayState.OnJoinVoice | src/signaling_server/src/EnvelopeHandlers.cc:563-631 | whole new state: leaving first, own entry, replay, announcement to the others |
| VoiceRooms.GatewayState.ReplayPeers | src/signaling_server/src/EnvelopeHandlers.cc:613-618 | the joiner gets one VoicePeerJoined per peer already there, in order |
| VoiceRooms.GatewayState.OnLeaveVoice | src/signaling_server/src/EnvelopeHandlers.cc:633-638 | leaves the room the request names |
| VoiceRooms.GatewayState.OnClose | src/signaling_server/src/main.cc:177-206 | leaves the current room, then forgets the session |
| VoiceRoomInvariant.EventKeepsPlaced | src/signaling_server/src/EnvelopeHandlers.cc:507-638 | every well-behaved event keeps each session seated exactly once, in the room it believes it is in, and no room empty |
| VoiceRoomInvariant.EventKeepsStreams | src/signaling_server/src/EnvelopeHandlers.cc:592-603 | up to 2^32 joins no two sessions share an SSRC, whatever is requested |
| VoiceRoomInvariant.ClosingKeepsPlaced | src/signaling_server/src/main.cc:177-206 | after a close no room lists the session |
| VoiceRoomInvariant.ServerStaysSound | src/signaling_server/src/EnvelopeHandlers.cc:507-638 | the invariant over all runs from any sound state |
| VoiceRoomInvariant.ServerIsSound | src/signaling_server/src/EnvelopeHandlers.cc:507-638 | the invariant over all runs of a new server |
| VoiceRoomInvariant.LeaveKeepsSoundIff | src/signaling_server/src/EnvelopeHandlers.cc:530-560 | LeaveVoice keeps the invariant iff it names nothing, the sender's own room, or the sender is in none |
| VoiceRoomInvariant.JoinKeepsSoundIff | src/signaling_server/src/EnvelopeHandlers.cc:563-631 | JoinVoice keeps it iff the channel id is not empty |
| VoiceRoomInvariant.EmptyChannelBreaksPlaced | src/signaling_server/src/EnvelopeHandlers.cc:563-631 | the run from a new server in which a join without a channel name breaks the invariant |
| VoiceRoomInvariant.WrongLeaveBreaksPlaced | src/signaling_server/src/EnvelopeHandlers.cc:530-560 | the run in which leaving another room leaves a seat behind |
| SignalingClient.SignalingClient.JoinVoice | src/network/src/SignalingClient.cc:112-195 | on any client: consumes messages until the own entry, an error, or 32 messages, and is then live with the peers seen before |
| SignalingClient.SignalingClient.RunReader | src/network/src/SignalingClient.cc:213-305 | joined or not, after reading everything queued the list is what the messages, applied in order, make of it |
| SignalingClient.SyncSucceedsIff | src/network/src/SignalingClient.cc:128-180 | the initial sync succeeds iff the own entry is among the first 32 messages and no error comes before it; the list is then what was announced before that entry, in order |
| ReplicatedRooms.BroadcastReaches | src/signaling_server/src/EnvelopeHandlers.cc:550-627 | every listed peer whose session is registered gets the message exactly once, nobody else anything |
| RoomReplication.EnterIsHeard | src/signaling_server/src/EnvelopeHandlers.cc:604-627 | a join is announced exactly once to every connection seated in the room, and to nobody else |
| RoomReplication.JoinerHearsRoom | src/signaling_server/src/EnvelopeHandlers.cc:604-618 | the joiner hears of itself first and then of each member, in the order of the room, with user and stream |
| RoomReplication.JoinIsRefused | src/signaling_server/src/EnvelopeHandlers.cc:567 | a join without a Hello is answered with error 401 and changes nothing else |
| RoomReplication.LeaveIsHeard | src/signaling_server/src/EnvelopeHandlers.cc:530-560 | leaving is announced exactly once to everyone who stays in the room, and to nobody else, the leaver included |
| ReplicatedRooms.OthersUsers | src/network/src/SignalingClient.cc:232-259 | the list a client should have names exactly the members under other sessions, each with its stream |
| ReplicatedRooms.OthersSize | src/network/src/SignalingClient.cc:232-259 | and each of them once |
| ReplicatedRooms.ErasingFollowsLeaving | src/network/src/SignalingClient.cc:262-274 | VoicePeerLeft does to the client's list what leaving does to the room |
| ReplicatedRooms.JoiningFollowsEntering | src/network/src/SignalingClient.cc:232-259 | VoicePeerJoined does to the list what entering does to the room iff the user was not listed already |
| ReplicatedRooms.ReplayYields | src/network/src/SignalingClient.cc:232-259 | after the replay of a room the list is that room's members behind whatever the room does not mention |
| ReplicatedRooms.ReplayCoversIff | src/network/src/SignalingClient.cc:232-259 | a replay read over a live list leaves exactly the room's members iff the room lists everyone who was on the list |
| ReplicatedRuns.RunKeepsReplicated | src/network/src/SignalingClient.cc:112-305 | every event, request, reader start, delivery and unrelated message keeps every client's queue and list in step with the server |
| ReplicatedRuns.ReplicaIsRoom | src/signaling_server/src/EnvelopeHandlers.cc:530-631 | in every reachable state draining a joined client's queue yields the (user, ssrc) pairs of the other members of its room, in order, unless its initial sync gave up |
| InitialSync.JoinSucceedsIff | src/network/src/SignalingClient.cc:128-180 | in a run, the join of a syncing client makes it live iff what it has read and what waits for it is fewer than 32 messages and none waiting is an error |
| InitialSync.RunKeepsCalm | src/network/src/SignalingClient.cc:112-305 | over a run with fewer than 32 other messages while in no room and no refused join, a client seated in a room is live once it has read its queue |
| InitialSync.QuietReplicaIsRoom | src/signaling_server/src/EnvelopeHandlers.cc:530-631 | for such a connection draining its queue always yields exactly the other members of its room |
| RoomSwitching.LeaverKeepsListIff | src/network/src/main.cc:720-729 | LeaveVoice leaves the sender's list as it was; it is empty iff nobody else was in the room |
| RoomSwitching.LeaveThenJoin | src/network/src/main.cc:714-729 | leaving first makes no difference to a later join |
| RoomSwitching.SwitchKeepsReplicaIff | src/network/src/main.cc:714-729 | a live client that switches rooms and reads everything queued has the new room's members iff nobody else was in the old one |
| RoomSwitching.SwitchKeepsStalePeer | src/network/src/main.cc:714-729 | the run from a new server in which a client alone in its new room still lists a peer of the old one |
| VideoPlanes.PackPlane | src/plc/src/VideoPlc.cc:67-72 | the rows of the plane without their padding |
| VideoPlanes.PackedPixel | src/plc/src/VideoPlc.cc:67-72 | packing moves no pixel |
| VideoPlanes.SampleDisplaced | src/plc/src/VideoPlc.cc:76-83 | in bounds for every coordinate and displacement; no displacement fetches the pixel itself |
| MotionCandidates.DisplacedByte | src/plc/src/VideoPlc.cc:76-83 | the byte fetched is the one at row y - dy and column x - dx, each moved to the plane's border where it falls outside |
| MotionSearch.BlockSad | src/plc/src/VideoPlc.cc:39-63 | the sum of absolute differences, without wrap of the 32-bit accumulator |
| MotionSearch.Sad | src/plc/src/VideoPlc.cc:39-63 | at most 65280 |
| MotionSearch.SadZeroIff | src/plc/src/VideoPlc.cc:39-63 | zero iff the block equals what the displaced reads fetch, pixel for pixel |
| MotionSearch.SadBetween | src/plc/src/VideoPlc.cc:39-63 | if every pixel is off by at least low and at most high, the score lies between low and high times the number of pixels; errors all equal give exactly that |
| MotionSearch.RoundIsFirstLeast | src/plc/src/VideoPlc.cc:406-432 | a round keeps the centre if nothing beats it, else takes the first neighbour of the least score |
| MotionSearch.SearchBlock | src/plc/src/VideoPlc.cc:393-434 | the three rounds with steps 4, 2, 1, whose candidates `MotionCandidates` states in coordinates |
| MotionSearch.SearchIsSound | src/plc/src/VideoPlc.cc:393-436 | vector in [-7,7] squared, scoring at most zero motion and at most every candidate tried |
| MotionSearch.StillBlockStays | src/plc/src/VideoPlc.cc:397-400 | where zero motion matches perfectly the vector is zero |
| MotionCandidates.RoundInCoordinates | src/plc/src/VideoPlc.cc:406-432 | a round looks at (dx + i step, dy + j step) for all i and j in -1..1; it keeps its centre unless one of them scores less, and takes the first of the least, row by row |
| MotionCandidates.SearchInCoordinates | src/plc/src/VideoPlc.cc:393-436 | nothing 4 pixels around zero, 2 around the first result or 1 around the second, in either direction or both, scores below the vector found |
| MotionCandidates.PerfectMatchIsFound | src/plc/src/VideoPlc.cc:393-436 | a block that matches perfectly at (4i, 4j) and at no other position of the first round is given exactly that motion, in whichever of the nine directions it lies |
| MotionCandidates.BlocksAreSixteen | src/plc/src/VideoPlc.cc:374-441 | the vector of a pixel is the one found for the 16x16 square it lies in, cut off at the frame's edge |
| MotionSearch.PixelUsesItsBlock | src/plc/src/VideoPlc.cc:338-350 | the vector index of a pixel is in bounds and names the vector of the block containing it |
| VideoConcealment.BlendEasesIn | src/plc/src/VideoPlc.cc:263-296 | as the gap grows each pixel moves towards the hint and never away from it |
| VideoConcealment.Blend | src/plc/src/VideoPlc.cc:283-296 | the blended byte lies between the two bytes although the shift rounds down |
| VideoConcealment.BlendIsMean | src/plc/src/VideoPlc.cc:263-296 | the blended byte is within two of the exact weighted mean, (k + 1) / (k + 2) of the way to the hint, and in the first concealment of a gap it is the mean of the two, rounded down |
| VideoConcealment.StillFrame | src/plc/src/VideoPlc.cc:338-367 | zero vectors leave all three planes unchanged at every scale |
| VideoConcealment.DisplaceLuma | src/plc/src/VideoPlc.cc:338-350 | every luma pixel displaced by its block's scaled vector |
| VideoConcealment.DisplaceChroma | src/plc/src/VideoPlc.cc:351-367 | every chroma pixel displaced by its block's scaled vector halved towards zero |
| VideoPlc.VideoPlc.OnRealFrame | src/plc/src/VideoPlc.cc:139-164 | whole new history; empty sizes ignored; the streak restarts |
| VideoPlc.VideoPlc.HintNextFrame | src/plc/src/VideoPlc.cc:166-173 | the hint for the next concealment |
| VideoPlc.VideoPlc.Conceal | src/plc/src/VideoPlc.cc:175-208 | the frame emitted and the new history equal those of a concealer without a vector cache; cached vectors always fit the current pair |
| VideoPlc.VideoPlc.ConcealInterp | src/plc/src/VideoPlc.cc:271-306 | the blend with a hint of the same size, else the last frame, else nothing |
| VideoPlc.VideoPlc.ConcealMotion | src/plc/src/VideoPlc.cc:314-372 | vectors reused in a gap are the estimate for the current previous and last frame, one per block |
| VideoPlc.VideoPlc.EstimateMotion | src/plc/src/VideoPlc.cc:374-441 | one searched vector per 16x16 block, row by row, for any size |
| VideoPlc.VideoPlc.SetMaxConsecutiveConcealments | src/plc/src/VideoPlc.cc:224-229 | only the cap changes |
| VideoPlc.HistoryIsLastTwo | src/plc/src/VideoPlc.cc:139-164 | over every run of calls, sizes changing at will, the last and the previous frame are the two latest real frames accepted |
| VideoPlc.HintWaits | src/plc/src/VideoPlc.cc:139-173 | a hint waits for the next concealment: whatever frames of its size come in between, that one is blended from the last of them towards the hint |
| VideoPlc.HintServesOnce | src/plc/src/VideoPlc.cc:175-206 | whatever comes of a request, the next one of the gap does without the hint; a refusal at the cap changes nothing |
| VideoPlc.TotalCountsEmitted | src/plc/src/VideoPlc.cc:198-204 | over every run of calls the total is the number of frames emitted, modulo 2^64 |
| VideoPlc.CapHolds | src/plc/src/VideoPlc.cc:175-206 | between real frames, whatever is hinted and asked, at most the cap is emitted and the streak counts it |
| VideoPlc.GapFrames | src/plc/src/VideoPlc.cc:263-372 | each frame of a gap is determined by the last two real frames and its place in the gap |
| VideoPlc.GapLength | src/plc/src/VideoPlc.cc:178-206 | a gap is bridged completely up to the cap and then not at all |
| VideoPlc.StillPictureStays | src/plc/src/VideoPlc.cc:314-372 | if the last two frames are equal, the concealed frame is the last one at every streak length |
| VideoPlc.MotionIsCarriedOn | src/plc/src/VideoPlc.cc:338-350 | a concealed pixel is read from the last frame as its block was read from the previous one, k + 1 times as far |
| VideoPlc.ChromaIsCarriedOn | src/plc/src/VideoPlc.cc:351-367 | both chroma planes follow the vector of the luma pixel they cover, carried on and halved towards zero |
| VideoPlc.EqualHintStays | src/plc/src/VideoPlc.cc:271-306 | blending with an equal hint changes nothing |
| VideoPlc.InterpolatesTowardsHint | src/plc/src/VideoPlc.cc:271-306 | with a hint of its size each byte of all three planes is within two of the exact weighted mean of last frame and hint, and at the start of a gap their mean rounded down |
| VideoPlc.FallsBackToLast | src/plc/src/VideoPlc.cc:239-336 | Hold shows the last frame; so do Interpolate without a hint of its size and MotionCompensated without a previous frame of its size |
| VideoPlc.ResizeHolds | src/plc/src/VideoPlc.cc:144-158 | after a change of size the old frame stays as previous but every strategy holds the new frame |
| WebSocketFrames.MaskingUndone | src/network/src/WebSocketClient.cc:393-404 | masking twice with one key gives the payload back |
| WebSocketWire.XorIsBitwise | src/network/src/WebSocketClient.cc:393-404 | every bit of a masked byte is the bit of the data, flipped exactly where the key's is set |
| WebSocketWire.MaskedHello | src/network/src/WebSocketClient.cc:350-409 | the masked "Hello" of section 5.7 of RFC 6455 |
| WebSocketWire.HeaderBytes | src/network/src/WebSocketClient.cc:355-389 | the header byte by byte, as sections 5.2 and 5.3 of RFC 6455 lay it out |
| WebSocketFrames.LengthIsMinimal | src/network/src/WebSocketClient.cc:361-381 | no length field accepted for the same length is shorter (section 5.2 of RFC 6455) |
| WebSocketFrames.ParseEncoded | src/network/src/WebSocketClient.cc:350-457 | parsing undoes encoding, masked or not, and leaves exactly the rest |
| WebSocketFrames.FrameIsReceived | src/network/src/WebSocketClient.cc:414-521 | after any pings and pongs the payload of the binary frame is delivered, exactly the bytes after it remain, every ping is answered in order |
| WebSocketWire.NextFrameDecides | src/network/src/WebSocketClient.cc:458-521 | after any acceptable pings and pongs, the next frame is delivered iff it is final with opcode 2, and refused iff it is unfinished, has an opcode other than 2, 9 and 10, or is a ping of more than 65535 bytes |
| WebSocketWire.CutFrameIsRefused | src/network/src/WebSocketClient.cc:414-457 | a stream that ends inside a frame delivers nothing of it |
| WebSocketFrames.AnswerCarriesPing | src/network/src/WebSocketClient.cc:474-503 | each answer is a masked pong that unmasks to the ping's payload (section 5.5.3 of RFC 6455) |
| WebSocketClient.WebSocketClient.WriteAll | src/network/src/WebSocketClient.cc:111-126 | everything is written however the socket splits it, unless it fails |
| WebSocketClient.WebSocketClient.ReadExact | src/network/src/WebSocketClient.cc:131-155 | exactly the next n bytes of buffer and socket, however they are split |
| WebSocketClient.WebSocketClient.ReadHttpResponseHeader | src/network/src/WebSocketClient.cc:160-189 | the shortest prefix ending in an empty line, nothing after it lost |
| WebSocketClient.WebSocketClient.SendBinary | src/network/src/WebSocketClient.cc:350-409 | one masked frame of the payload, written in chunks |
| WebSocketClient.WebSocketClient.BuildHeader | src/network/src/WebSocketClient.cc:355-389 | the header bytes, with the minimal length field |
| WebSocketClient.WebSocketClient.ReadFrame | src/network/src/WebSocketClient.cc:420-456 | one frame off the stream, unmasked; on a reliable socket it fails only if the stream holds no whole frame |
| WebSocketClient.WebSocketClient.Reply | src/network/src/WebSocketClient.cc:474-503 | one masked pong with the ping's payload |
| WebSocketClient.WebSocketClient.RecvBinary | src/network/src/WebSocketClient.cc:412-521 | delivers, replies, refuses and leaves exactly as the stream specification says, whose decision `WebSocketWire.NextFrameDecides` states in terms of the wire; fails on a reliable socket only if that does |
| VideoIpcFormat.HeadRoundTrip | src/network/src/main.cc:982-1004 | the 17-byte little-endian header gives its fields back |
| VideoIpcFormat.WireBytes | src/network/src/main.cc:982-1004 | the bytes of a frame: the magic, peer at byte 4, flags at 8, width at 9, height at 11, size at 13, little-endian, then the data |
| VideoIpcFormat.WrittenIsPlausibleIff | src/native_client/src/main.cc:1321-1324 | the reader takes a written header iff the frame has 1 byte to 8 MiB and both sides fit sixteen bits |
| VideoIpcFormat.WideFrameIsRefused | src/native_client/src/main.cc:1321-1324 | a frame 65538 pixels wide is announced as 2 pixels wide and refused |
| VideoIpcFormat.StreamIsRead | src/native_client/src/main.cc:1289-1335 | whole frames come out whole and in order, whatever follows |
| VideoIpcFormat.RoundTrip | src/native_client/src/main.cc:1289-1335 | the frames sent are the frames read, also if the writer died inside a further one |
| VideoIpcFormat.GarbageIsSkipped | src/native_client/src/main.cc:1295-1310 | garbage without the magic bytes, before or between frames, costs no frame |
| VideoIpc.WrittenIsSendable | src/network/src/main.cc:990-1004 | a picture of at most 8 MiB whose sides fit sixteen bits makes a frame the reader takes |
| VideoIpc.DataShowsPicture | src/network/src/main.cc:990-1020 | the frame written has the picture's width and height, its byte y w + x is luma pixel (x, y), and the two chroma planes follow likewise, whatever the buffer held before |
| VideoIpc.PictureIsRead | src/native_client/src/main.cc:1289-1335 | end to end: after any frames, a picture written is the last frame read, for its peer, with its size and its pixels |
| VideoIpc.FrameWriter.WriteFrame | src/network/src/main.cc:979-1050 | the pipe always holds whole frames, plus part of one only after a hard error; a frame is dropped only before its first byte; the last frame sent names the peer and shows the picture in its width and height, pixel by pixel |
| VideoIpc.FrameWriter.FillBuffer | src/network/src/main.cc:990-1020 | the buffer is the header and the three planes (for odd sizes, then stale bytes) |
| VideoIpc.FrameReader.ReadHeader | src/native_client/src/main.cc:1292-1310 | slides to the next magic and loses no frame |
| VideoIpc.FrameReader.Run | src/native_client/src/main.cc:1289-1337 | delivers exactly the frames of the stream and stores the latest of each peer |
| VideoIpc.LatestIsLast | src/native_client/src/main.cc:1325-1337 | what is stored for a peer is the last frame it sent |
| VideoIpc.LatestKeepsOthers | src/native_client/src/main.cc:1325-1337 | a peer that sent none keeps what was there |
| VideoIpc.WrittenIsRead | src/network/src/main.cc:1022-1050 | reading whatever a writer left in the pipe delivers exactly the frames it completed |
| Base64Url.Base64UrlEncode | src/native_client/src/OAuthClient.cc:37-68 | the unpadded encoding, ceil(4n/3) letters |
| Base64Url.Base64UrlDecode | src/native_client/src/OAuthClient.cc:74-106 | the decoder, table and accumulator included |
| Base64Url.LetterIsAlphabet | src/native_client/src/OAuthClient.cc:37-68 | the letters are the literal URL-safe alphabet of section 5 of RFC 4648, in its order |
| Base64Url.KnownEncodings | src/native_client/src/OAuthClient.cc:37-68 | vectors of section 10 of RFC 4648 without padding, and one that needs both URL-safe letters |
| Base64Url.DecodingRefines | src/native_client/src/OAuthClient.cc:86-102 | the unmasked 32-bit accumulator decodes like one that keeps exactly the pending bits |
| Base64Url.RoundTrip | src/native_client/src/OAuthClient.cc:37-106 | decoding an encoding gives every byte string back |
| Base64Url.PaddedRoundTrip | src/native_client/src/OAuthClient.cc:91-93 | foreign characters and anything from the first padding sign on make no difference |
| RoomTable.RoomTable.OnPacket | src/relay/src/RoomTable.cc:16-42 | the entry is replaced; the result lists each other peer of the room once, at its address |
| RoomTable.RoomTable.ReapExpired | src/relay/src/RoomTable.cc:44-77 | exactly the stale peers and the emptied rooms go; the result is the drop in the number of peers |
| RoomTable.RoomTable.PeerCount | src/relay/src/RoomTable.cc:79-86 | the number of (room, peer) pairs |
| RoomTable.TableIsLog | src/relay/src/RoomTable.cc:16-77 | a peer is present iff its latest packet was not followed by a reap more than the ttl later, with that packet's address and time |
| RoomTable.RecipientsAreLatest | src/relay/src/RoomTable.cc:29-40 | recipients are the latest addresses of the other present peers of the room |
| RoomTable.NoEmptyRoom | src/relay/src/RoomTable.cc:71-72 | after any run no room is empty |

## Left out

- JitterBufferOrder.OrderedDelivery: needs the condition that starts and skips do not straddle the wrap; the code loses the order without it (`StraddlingStartReorders`).
- ReplicatedRuns.ReplicaIsRoom: for clients that stay in one room, do not send LeaveVoice and have one session per user. What leaving and switching do instead is in `RoomSwitching`, what a second session does in `JoiningFollowsEntering`.
- VideoIpc.FrameWriter.WriteFrame: for frames of less than 2^32 / 3 pixels; larger ones overrun the program's own buffer. A pipe that answers EAGAIN for ever in the middle of a frame keeps the program waiting and is not modelled.
- VideoIpc.FrameWriter.FillBuffer: the same bound of 2^32 / 3 pixels.
- Sockets.Pipe: a hard write error is taken to be final, as when the other side has exited; a passing one in mid-frame (an interrupted call, say) followed by later writes would desynchronise the stream and is not modelled.
- SpscQueue, RingBuffer: steps are sequentially consistent; acquire/release on weak memory is not modelled, and masking with capacity - 1 is written as the remainder by a power of two.
- JitterStats and the adaptive target use real numbers where the program uses doubles; counters other than sequence numbers and timestamps are unbounded.
- PacketJitterBuffer and RoomTable times are arguments; mutexes are left out because every operation holds its lock throughout.
- LossSim's worker thread, its wall-clock deadlines and the packets it drops at shutdown are not modelled; queued packets are kept in submission order with their deadlines.
- PeerVideoRouter: creation, reaping and iteration over sources, the decoder's output and the renderer; a source records the calls made to its decoder and concealer.
- VideoPlc: returned frames are values, not references to storage valid until the next call; 32-bit overflow after millions of concealments in one gap is not modelled.
- VoiceRooms: relay address and port in the messages, topic subscriptions, the Ready reply, authentication, chat, history, friends and calls; Chat stands for every message the voice protocol ignores.
- SignalingClient: receive timeouts appear as running out of messages; the initial sync and the reader do not read at the same time.
- WebSocketClient: the HTTP upgrade request, header lookup, SHA-1 and TCP connect; masking keys are an argument; a length beyond memory fails like a stream that ends.
- Base64Url: characters are bytes, and letters are computed from ASCII ranges, which `LetterIsAlphabet` shows to be the literal alphabet.
- The relay's sockets and its periodic call of reap, DNS, OAuth requests and JWT checks.
- Opus, x264, FFmpeg, Speex, libnice, Kafka and Scylla wrappers, audio concealment and mixing, and the user interface.

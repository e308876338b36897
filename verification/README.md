# A verified model of the OxLens SFU core

This project models the stateful core of a WebRTC selective forwarding unit in Dafny and proves what the
server is for: whoever waits for the floor gets it, many speakers come out as one continuous RTP stream,
feedback packets tell which packets arrived and when, lost packets are found again, and the lookup tables agree with
the rooms. Where one of these fails, the project says exactly when, and gives an input.

Conventions:

- `u8`, `u16` and `u32` are ranges of `int`; every wrap-around, saturation and truncating cast of the Rust code
  is written out (`Wrap16`, `Wrap32`, `SatSub`, `% 0x100`). Arithmetic is that of a release build.
- Clock reads are parameters. `Instant` is nanoseconds; the floor works in milliseconds. `_try_grant_next` reads
  its own clock, so floor events carry that second reading.
- HMAC, CRC and UTF-8 validity are function parameters; keyframe detection is a boolean of the packet event.
- An object with mutable fields is a class. Each of its methods is proved equal to a function on the object's
  value, and the theorems are about runs of those functions.
- "Unwrapped" counters are integers of which the 16- or 32-bit fields are the remainders.

| module | models |
|---|---|
| `Words` | integer ranges, wrap-around, big-endian fields, bit operations |
| `Floor`, `FloorLaws`, `FloorRuns` | the floor controller; what each operation does to speaker, queue and actions; invariants, action log and waiting times over all runs |
| `FloorHandlers` | the request, release, ping, MBCP, timer and leave handlers around floor and rewriters |
| `PttRooms` | whole runs of a push-to-talk room: handlers, media, joins and reaping, tied to floor, streams, caches and membership |
| `PttRewriter`, `PttStream` | the push-to-talk rewriter; the virtual stream over all runs |
| `Twcc`, `TwccDecoder`, `TwccWindows` | transport-wide feedback; a decoder written from section 3.1 of draft-holmer-rmcat-transport-wide-cc-extensions-01; runs of the recorder |
| `RecvStats` | receiver statistics (appendices A.1 and A.3 of RFC 3550) |
| `RoomIndex` | rooms, hub, and their five lookup tables |
| `Stun`, `Rtcp` | the STUN codec (RFC 8489), compound RTCP and MBCP messages |
| `Nack` | packet cache, NACK parsing, RTX packets (RFC 4588), recovery |
| `Simulcast` | the simulcast rewriter and layer selection |

Where the code differs from its documentation or from the standard, the model follows the code:

- Preemption does not remove the preemptor's queue entry, so a speaker can also be waiting (`SpeakerWaitsExactly`).
- A leaving speaker's handover is applied first and the rewriters are cleared afterwards, so the new speaker is
  unknown to them until the floor next moves (`RewritersFollowFloor`).
- `last_virtual_seq` is the last number processed, not the highest (`VirtualStreamContinuity`, `LateRunReuses`).
- The timer and both MBCP paths throw away the silence frames that a clear produces and counts, so subscribers see a gap
  of three numbers there (`RoomAudioContinuity`, `TimedOutSkipsThree`).
- A feedback packet can report a lost number as received, from an entry 2^16 numbers old (`StatusMeansArrival`,
  `StaleEntryReported`).
- A feedback packet's `body_len` counts four bytes too many; length field and decoding stay consistent (`FeedbackRoundTrip`).
- A clear takes number 0 at timestamp 0 for "nothing sent yet"; if the first two packets ever come swapped, the clear after
  them sends no silence (`SilenceIff`, `SpokenWithoutSilence`).
- `bad_seq` starts at the first number plus one and is never masked (`SingleJumpRestarts`, `JumpPairRestarts`).
- A hub address key outlives a rebind; lookups stay sound, but a latch onto a held address can lose a session (`AddrLookupIsScan`, `SharedRunLosesSession`).
- A compound block shorter than 12 bytes takes its media SSRC from the next block (`SplitAssembled`, `ShortReportBorrows`).
- A switch without a clear, by preemption or a repeated grant, leaves no gap at all between two audio bursts (`AudioGapWithoutClear`).
- The reaper does not tell the floor, and a floor request does not check membership, so somebody outside the room can get
  the floor (`FloorIsInRoomIff`, `ReapedWaiterSpeaks`).
- An RTX packet puts the original number in front of a header extension instead of behind it; no receiver can read one
  made from a packet with one-byte extensions (`RtxReadableIff`, `OneByteExtensionUnreadable`).

## Model

| member | source | states |
|---|---|---|
| `Floor.FloorController.Request` | src/room/floor.rs:210-323 | refines `OnRequest`: grant when idle, re-grant to the speaker, preempt, deny (queuing off, queue full), report the place of a user already queued, or enqueue in priority order |
| `Floor.FloorController.Release` | src/room/floor.rs:329-364 | refines `OnRelease`: the speaker's release ends the burst and grants the head of the queue, anybody else's only leaves the queue |
| `Floor.FloorController.Ping` | src/room/floor.rs:370-379 | refines `OnPing`: only the speaker's ping refreshes the heartbeat |
| `Floor.FloorController.CancelQueue` | src/room/floor.rs:395-400 | removes the user's entries and says whether there were any |
| `Floor.FloorController.CheckTimers` | src/room/floor.rs:406-446 | refines `OnTimer`: over-long burst first, then lost heartbeat; either revokes and grants the next waiter |
| `Floor.FloorController.OnParticipantLeave` | src/room/floor.rs:452-473 | refines `OnLeave`: leaves the queue and, as speaker, hands over |
| `Floor.FloorController.TryGrantNext` | src/room/floor.rs:482-505 | refines `GrantNext`: the head of the queue becomes speaker at the clock read there |
| `FloorLaws.WithoutRemoves` | src/room/floor.rs:395-400 | removing a user leaves no entry of theirs, and every other entry in its order |
| `FloorLaws.RequestLaw` | src/room/floor.rs:210-323 | from any state that satisfies the invariant below: exactly when a request takes the floor, and from whom; exactly when it finds no place (queuing off, or queue full and not yet in it) and changes nothing; otherwise the user waits, and everybody else keeps their order |
| `FloorLaws.ReleaseLaw` | src/room/floor.rs:329-364 | from any state: the speaker's release emits Released first and makes the old queue's first user the speaker, or leaves the floor idle; anybody else's keeps speaker and burst, removes that user from the queue and keeps all others in order |
| `FloorLaws.CancelLaw` | src/room/floor.rs:395-400 | cancelling does the same to the queue and nothing else |
| `FloorLaws.TimerLaw` | src/room/floor.rs:406-446 | from any state: exactly when the timer revokes and with which reason, and the same handover; otherwise nothing changes |
| `FloorLaws.LeaveLaw` | src/room/floor.rs:452-473 | from any state: the leaver is off the queue, all others keep their order, and a leaving speaker hands over to the first of them |
| `FloorLaws.PingLaw` | src/room/floor.rs:370-379 | from any state: a ping moves the heartbeat of the speaker who sends it and nothing else |
| `FloorRuns.StableSortCorrect` | src/room/floor.rs:297-301 | the queue sort yields a sorted permutation that keeps equal entries in order |
| `FloorRuns.NoPriorityInversion` | src/room/floor.rs:210-505 | in every reachable state: queue sorted, duplicate-free, within its limit; idle means empty queue; with preemption no waiter outranks the speaker |
| `FloorRuns.StepKeepsInv` | src/room/floor.rs:210-505 | every operation preserves that invariant from any state satisfying it |
| `FloorRuns.SpeakerWaitsExactly` | src/room/floor.rs:242-263 | the speaker occupies a queue slot after exactly those requests in which a waiter preempts |
| `FloorRuns.SpeakerCanWait` | src/room/floor.rs:242-263 | a three-request run that gets there |
| `FloorRuns.ActionLogRefinesState` | src/room/floor.rs:210-505 | over any run, folding the emitted actions gives the current speaker, no grant to somebody else appears during an open burst, and an idle floor remembers the last grantee |
| `FloorRuns.RequestAnswered` | src/room/floor.rs:210-323 | the last action of a request is its honest answer: a denial changes nothing, a grant makes the user the speaker, otherwise the speaker stays and the user waits at the reported place |
| `FloorRuns.RevokedIffSilentOrLong` | src/room/floor.rs:370-446 | over any events without release, departure or preemption, the speaker is revoked iff some tick finds the burst over-long or its last ping too old; until then speaker, priority and burst start stay |
| `FloorRuns.BurstNotExtended` | src/room/floor.rs:210-240 | no event that keeps the speaker moves the burst start: re-requests and pings do not extend a burst |
| `FloorRuns.WaitStep` | src/room/floor.rs:210-505 | any single event either grants a patient waiter by its deadline or leaves it waiting with no later deadline and its entry intact |
| `FloorRuns.BoundedWait` | src/room/floor.rs:406-446 | with ticks at most P apart, the entry at place k is granted within (k+1)(max burst + P) of the burst start, as long as it stays and nobody requests above its priority |
| `FloorRuns.EveryWaiterServed` | src/room/floor.rs:406-505 | the same for whoever is waiting after any timely run |
| `FloorHandlers.PttRoom.HandleFloorRequest` | src/signaling/handler/floor_ops.rs:22-119 | the handler's whole effect on the floor and on both rewriters' states; no silence is sent |
| `FloorHandlers.PttRoom.HandleFloorRelease` | src/signaling/handler/floor_ops.rs:125-154 | clear on release, then apply grants; the silence returned is what gets broadcast |
| `FloorHandlers.PttRoom.HandleFloorPing` | src/signaling/handler/floor_ops.rs:160-178 | changes the floor only |
| `FloorHandlers.PttRoom.ApplyGrants` | src/signaling/handler/floor_ops.rs:218-310 | both rewriters are switched once per grant, in order, and not otherwise touched |
| `FloorHandlers.PttRoom.HandleMbcpRequest` | src/transport/udp/ingress.rs:546-553 | request at default priority, then revokes and grants in order; silence is thrown away |
| `FloorHandlers.PttRoom.HandleMbcpRelease` | src/transport/udp/ingress.rs:554-567 | clear on release, then revokes and grants; silence is thrown away |
| `FloorHandlers.PttRoom.ApplyRevokesAndGrants` | src/transport/udp/ingress.rs:588-700 | both rewriters are cleared per revocation and switched per grant, in order |
| `FloorHandlers.PttRoom.RunFloorTimer` | src/tasks.rs:57-110 | the timer's revocations and grants reach both rewriters; silence is thrown away |
| `FloorHandlers.PttRoom.HandleLeave` | src/signaling/handler/room_ops.rs:287-293 | grants first, then the flush of both rewriters, whose silence is broadcast |
| `FloorHandlers.PttRoom.ClearBoth` | src/signaling/handler/helpers.rs:242-256 | both rewriters cleared; the audio rewriter's silence is returned |
| `FloorHandlers.WhoBroadcasts` | src/signaling/handler/helpers.rs:242-256 | of all handlers, exactly the WebSocket release and the leave paths broadcast the silence they flush |
| `FloorHandlers.MovesPlay` | src/signaling/handler/floor_ops.rs:143-153 | a handler's moves, appended to any rewriter run, lead to the state its contract names and send the subscribers exactly the broadcast silence |
| `FloorHandlers.SpeakersAfterCall` | src/signaling/handler/floor_ops.rs:44-310 | from any state: a call that moves the floor leaves both rewriters with the floor's speaker, or with none if it is a leave that hands over; other calls change no speaker |
| `FloorHandlers.AgreementStep` | src/signaling/handler/room_ops.rs:390-396 | from any state, a handler that moves the floor leaves both rewriters on the floor's speaker iff it is not a leave that hands over; any other handler keeps what agreement there was |
| `FloorHandlers.RewritersFollowFloor` | src/signaling/handler/room_ops.rs:287-293 | after any run of handlers, rewriters and floor agree iff the last floor movement was not such a leave, and otherwise neither rewriter has a speaker |
| `FloorHandlers.HandoverOnLeaveDisagrees` | src/signaling/handler/room_ops.rs:287-293 | a three-call run that loses agreement |
| `FloorHandlers.FanoutFollowsAgreement` | src/transport/udp/ingress.rs:352-428 | after any run of handlers, a media packet passes iff its sender holds the floor and the rewriter, agreeing with the floor, does not await a keyframe it is not; it goes out rewritten, payload intact, under the virtual SSRC iff the last floor movement was not a leave with handover, and as it came otherwise |
| `PttRewriter.Rewriter.SwitchSpeaker` | src/room/ptt_rewriter.rs:124-175 | refines `Switch`: new bases from the last number and timestamp plus the idle gap |
| `PttRewriter.Rewriter.ClearSpeaker` | src/room/ptt_rewriter.rs:179-241 | refines `Clear` and returns exactly the three silence frames (none for video or before anything was sent) |
| `PttRewriter.Rewriter.Rewrite` | src/room/ptt_rewriter.rs:251-347 | refines `Verdict`, `AfterPacket` and `Rewritten`: buffer untouched unless accepted, and then only header fields change |
| `PttRewriter.PatchFields` | src/room/ptt_rewriter.rs:318-344 | a patched packet has the new number, timestamp and SSRC, the old payload type, the marker if asked or set before, and the same bytes from 12 on |
| `PttStream.BurstsKeepSourceDistances` | src/room/ptt_rewriter.rs:263-347 | in any run, everything sent carries the virtual SSRC; media keep flags, payload type and payload of their source, with the marker set on the first packet of an audio burst, and the rest are Opus silence frames; differences of numbers and timestamps inside a burst are the source's modulo 2^16 and 2^32, reordered or not; and `reverse_seq` traces every packet of the running burst back |
| `PttStream.ReverseInverts` | src/room/ptt_rewriter.rs:365-369 | `reverse_seq` and the rewrite are inverse bijections in every state |
| `PttStream.ReportsFollowMedia` | src/room/ptt_rewriter.rs:352-362 | a sender report taken at an accepted packet translates to that packet's outgoing timestamp |
| `PttStream.ReportsTranslate` | src/room/ptt_rewriter.rs:352-362 | in any run, a report can be translated iff a packet was sent since the last switch and no clear came since |
| `PttStream.VirtualStreamSteps` | src/room/ptt_rewriter.rs:124-347 | in any run what subscribers receive follows one unwrapped counter that steps at every boundary by one plus the silence frames thrown away there; it increases iff each burst's accepted packets arrive in source order; nothing is thrown away iff every flushing clear is broadcast |
| `PttStream.VirtualStreamContinuity` | src/room/ptt_rewriter.rs:124-347 | the received stream strictly increases with unit steps at all boundaries iff bursts arrive in source order and every flushing clear is broadcast |
| `PttStream.LateLastPacketIsReused` | src/room/ptt_rewriter.rs:315 | if a burst ends on a late packet, the next burst reuses a wire number |
| `PttStream.LateRunReuses` | src/room/ptt_rewriter.rs:315 | a six-event run that sends one wire number twice |
| `PttStream.QuietRunSkipsThree` | src/room/ptt_rewriter.rs:229-233 | a five-event run with a clear that is not broadcast: positions 1 and 5 |
| `PttStream.SilenceIff` | src/room/ptt_rewriter.rs:187-201 | in any run, clearing an audio rewriter produces three frames iff something has been sent and the last packet produced was not number 0 at timestamp 0; clearing a video rewriter produces none |
| `PttStream.SpokenWithoutSilence` | src/room/ptt_rewriter.rs:193-196 | whenever the first two packets ever come swapped with one timestamp, that exception occurs |
| `PttStream.SilenceSteps` | src/room/ptt_rewriter.rs:196-236 | silence frames continue the numbers and step 960 ticks |
| `PttStream.AudioGap` | src/room/ptt_rewriter.rs:130-149 | after a clear, the next audio burst starts max(2880, 48 per idle ms) ticks after the last media packet; before anything was sent only the excess over 2880 |
| `PttStream.AudioGapWithoutClear` | src/room/ptt_rewriter.rs:139-149 | after a switch without a clear, the next audio burst opens with exactly the last packet's timestamp |
| `PttStream.ClearTimeForgotten` | src/room/ptt_rewriter.rs:167 | in any run, from a switch to the next clear no clear time is on record, so that case is the one without a clear |
| `PttStream.SwitchTimeForgotten` | src/room/ptt_rewriter.rs:179-185 | from a clear to the next switch there is neither a speaker nor a switch time |
| `PttStream.VideoGap` | src/room/ptt_rewriter.rs:263-300 | video opens only with a keyframe, max(3000, 90 per idle ms) after the last packet plus 90 per ms waited beyond 50 ms; other packets change nothing |
| `PttStream.VideoGapWithoutClear` | src/room/ptt_rewriter.rs:161-165 | without a clear, 3000 after the last packet plus the same wait |
| `Twcc.TwccRecorder.RecordArrival` | src/transport/udp/twcc.rs:164-181 | refines `Record`: slot overwritten, base and maximum maintained modulo 2^16 |
| `Twcc.TwccRecorder.Lookup` | src/transport/udp/twcc.rs:184-187 | an entry is returned only under its own number |
| `Twcc.TwccRecorder.Pending` | src/transport/udp/twcc.rs:195-200 | numbers from base to maximum, modulo 2^16 |
| `Twcc.TwccRecorder.Collect` | src/transport/udp/twcc.rs:291-356 | one status per pending number and one delta per arrival, in sequence order |
| `Twcc.TwccRecorder.BuildTwccFeedback` | src/transport/udp/twcc.rs:263-471 | refines `BuildFeedback` and `AfterBuild`: nothing to report, overflow guard, or packet and advanced base |
| `Twcc.EncodeStatusChunks` | src/transport/udp/twcc.rs:481-504 | or-ing shifted symbols yields the seven-symbol status vectors |
| `Twcc.EncodeRecvDeltas` | src/transport/udp/twcc.rs:511-538 | clamped one- and two-byte deltas, one per received status |
| `Twcc.AssemblePacket` | src/transport/udp/twcc.rs:405-462 | header, chunks, deltas, surplus bytes and padding count |
| `TwccDecoder.FeedbackRoundTrip` | src/transport/udp/twcc.rs:263-538 | every emitted packet decodes to base, count, reference time, one status per number (not received iff no arrival on record) and every delta clamped to 14 bits; its size is 24 + ceil4(2 chunks + delta bytes) |
| `TwccDecoder.FeedbackShortest` | src/transport/udp/twcc.rs:325-345 | every packet reads back with one delta per received number, in one byte iff it is 0 to 255 |
| `TwccDecoder.Framing` | src/transport/udp/twcc.rs:405-462 | the length field counts the packet, the padding count is honest, and the content is followed by four zero bytes |
| `TwccDecoder.ChunksDecode` | src/transport/udp/twcc.rs:481-504 | the draft's chunk reader gives back any status list |
| `TwccDecoder.DeltasDecode` | src/transport/udp/twcc.rs:511-538 | the delta reader gives back any delta list, clamped |
| `TwccDecoder.DeltasExactIffInRange` | src/transport/udp/twcc.rs:511-538 | clamping changes nothing iff all deltas lie in [-8192, 8191] |
| `TwccDecoder.FirstDeltaSmall` | src/transport/udp/twcc.rs:311-321 | the first delta lies in [0, 255] and completes the reference time |
| `TwccDecoder.ArrivalTimesRecovered` | src/transport/udp/twcc.rs:291-356 | reference time plus deltas gives the k-th arrival within (k+1) * 250 us, one-sided for arrivals in sequence order |
| `TwccDecoder.ClampedTimes` | src/transport/udp/twcc.rs:511-538 | whatever the deltas, the k-th reconstruction is off by 250 us per unit clamped off the deltas up to k, and by less than (k+1) * 250 us beyond that |
| `TwccDecoder.FeedbackTimes` | src/transport/udp/twcc.rs:263-471 | the same law read off the decoded packet, and the plain bound whenever the deltas up to k are in range |
| `TwccWindows.FeedbackWindowsTile` | src/transport/udp/twcc.rs:164-200 | over any run with jumps below 2^15 and fewer than 2^16 pending: base and maximum are wrapped counters, the base only advances and never passes max+1, emitted windows decode to themselves, are ordered, disjoint, and adjacent unless the overflow guard restarted |
| `TwccWindows.EmitsIff` | src/transport/udp/twcc.rs:263-350 | over every legal run, building emits a packet iff something has arrived, the window holds 1 to 8192 numbers and one of them is on record, and then for the whole window; only a wider window moves the base otherwise, to 100 below the maximum |
| `TwccWindows.PacketsNumbered` | src/transport/udp/twcc.rs:401-402 | over every run, the i-th packet emitted reads back with feedback count i modulo 256 |
| `TwccWindows.TotalIsArrivals` | src/transport/udp/twcc.rs:164-181 | over every run, the recorder's total is the number of arrivals |
| `TwccWindows.NothingBeforeBase` | src/transport/udp/twcc.rs:164-181 | with a monotonic clock no recorded arrival precedes the base time |
| `TwccWindows.RunTimesRecovered` | src/transport/udp/twcc.rs:263-356 | on every such run the next packet gives arrival times back by that law |
| `TwccWindows.ThreeSecondGap` | src/transport/udp/twcc.rs:511-538 | a window with a clamped delta: packets 3 s apart read as 2.04775 s apart |
| `TwccWindows.ArrivalRetained` | src/transport/udp/twcc.rs:164-187 | an arrival stays on record through all events whose numbers stay within the ring around it |
| `TwccWindows.OnRecordIff` | src/transport/udp/twcc.rs:164-187 | on any run a number is on record iff the last arrival in its slot has the same 16 bits |
| `TwccWindows.StatusMeansArrival` | src/transport/udp/twcc.rs:291-345 | without arrivals a whole ring late, a number of the window is on record iff it arrived, except where the newest arrival of its slot is a multiple of 2^16 older |
| `TwccWindows.FeedbackTellsTruth` | src/transport/udp/twcc.rs:263-471 | the same for the statuses decoded from the packet, over every legal and prompt run |
| `TwccWindows.StaleEntryReported` | src/transport/udp/twcc.rs:184-187 | a legal run on which a lost number is on record as received |
| `RecvStats.Receiver.OnPacket` | src/transport/udp/rtcp_terminator.rs:87-140 | refines `Update`: first packet, probation, in order, jump, restart, reordered |
| `RecvStats.Receiver.Init` | src/transport/udp/rtcp_terminator.rs:73-84 | all counters restart at the given number |
| `RecvStats.Receiver.BuildRrBlock` | src/transport/udp/rtcp_terminator.rs:165-214 | refines `Report` and `AfterReport` |
| `RecvStats.ExtendedSequenceRefinement` | src/transport/udp/rtcp_terminator.rs:87-193 | after probation, over any stream whose indices stay in [max-100, max+2999], reports in between: cycles and maximum are the unwrapped maximum, expected the index span, received the packet count (all modulo 2^32), and loss the clamped difference |
| `RecvStats.QuotientFloor` | src/transport/udp/rtcp_terminator.rs:182-186 | the loss quotient is the floor of 256 times the missing over the expected packets |
| `RecvStats.LossFractionReported` | src/transport/udp/rtcp_terminator.rs:165-190 | over the same streams, the reported fraction is the floor of 256 times (indices newly spanned since the last report, less the packets since, at least 0) over the indices newly spanned, or 0 when there are none |
| `RecvStats.RealIffSequential` | src/transport/udp/rtcp_terminator.rs:87-114 | over any packets, a source leaves probation iff two of them in a row had consecutive numbers; until then the last number is all it remembers |
| `RecvStats.LossFractionNeverWraps` | src/transport/udp/rtcp_terminator.rs:165-190 | in every reachable initialised state with under 2^32 packets since the last report, the u8 cast of the loss fraction is exact, through restarts and probation |
| `RecvStats.CastExactIff` | src/transport/udp/rtcp_terminator.rs:174-186 | in any state, the cast is exact iff nothing was expected or something received |
| `RecvStats.FreshReportWraps` | src/transport/udp/rtcp_terminator.rs:165-190 | why that needs an initialised state; the server reports no other, since an entry is created and updated under one lock |
| `RecvStats.SingleJumpRestarts` | src/transport/udp/rtcp_terminator.rs:76 | over any such stream, a single packet restarts the source iff it is number first + 1 and the maximum is, modulo 2^16, 102 to 62537 ahead of first |
| `RecvStats.JumpPairRestarts` | src/transport/udp/rtcp_terminator.rs:125-133 | two consecutive jumping numbers restart the source iff they do not wrap |
| `RoomIndex.RoomHub.AddParticipant` | src/room/room.rs:300-308 | refines `Add` with the errors for missing room, full room and double join, in that order |
| `RoomIndex.RoomHub.RemoveParticipant` | src/room/room.rs:311-325 | refines `Remove` with both error cases |
| `RoomIndex.RoomHub.LatchByUfrag` | src/room/room.rs:329-340 | refines `Latch`: old room key dropped, new keys set, old hub key left |
| `RoomIndex.RoomHub.DropRoom` | src/room/room.rs:270-291 | all ufrags and addresses of all members leave the hub's tables |
| `RoomIndex.RoomHub.ReapZombies` | src/room/room.rs:360-395 | equals removing the returned participants one by one; every one of them was silent for too long, and no such participant remains in any room |
| `RoomIndex.JoinedOk` | src/room/room.rs:93-121 | a room's tables stay exact through a join with fresh ufrags |
| `RoomIndex.LeftOk` | src/room/room.rs:124-144 | and through a removal |
| `RoomIndex.LatchedOk` | src/room/room.rs:147-167 | and through a latch |
| `RoomIndex.RunSound` | src/room/room.rs:93-356 | after any run with fresh ids and ufrags, room and hub tables are sound |
| `RoomIndex.MembersAfterStep` | src/room/room.rs:93-144 | after any such run, an event changes exactly the memberships it should: a join adds its participant iff the room exists, has a place and does not know the user; a leave takes out that one; a closed room is gone with all its members; nobody else is affected |
| `RoomIndex.RunFits` | src/room/room.rs:93-99 | on every run no room has more members than its capacity |
| `RoomIndex.HubKeysIff` | src/room/room.rs:270-340 | after any such run, the hub's address table has exactly the addresses that were latched by a live session and whose holders have not left or lost their room since |
| `RoomIndex.LatchedFound` | src/room/room.rs:329-348 | after any such run, latching a live session's ufrag makes it the one found under the address and leaves every other session's address alone; an unknown ufrag changes nothing |
| `RoomIndex.ReapIsLeaves` | src/room/room.rs:360-395 | reaping is a run of departures, so all statements about runs cover it |
| `RoomIndex.LatchCompleteIff` | src/room/room.rs:329-340 | from a sound, complete hub, a latch keeps every held address listed iff no other live session holds the address |
| `RoomIndex.RunCompleteIff` | src/room/room.rs:147-356 | every held address is listed all through a run iff live sessions never share one, iff no latch takes over a held one |
| `RoomIndex.UfragLookupIsScan` | src/room/room.rs:351-356 | `find_by_ufrag` returns a session iff a scan over all participants finds it |
| `RoomIndex.AddrLookupSound` | src/room/room.rs:343-348 | after any run, `find_by_addr` returns only live sessions holding the address |
| `RoomIndex.AddrLookupIsScan` | src/room/room.rs:343-348 | all through a run, `find_by_addr` equals the scan over all participants iff live sessions never share an address, iff no latch takes over a held one |
| `RoomIndex.SharedAddressLost` | src/room/room.rs:156-161 | from any sound hub: latching onto a held address and leaving makes its holder unfindable |
| `RoomIndex.SharedRunLosesSession` | src/room/room.rs:156-161 | a six-event run that does so |
| `Stun.ParseMessage` | src/transport/stun.rs:69-128 | refines `Parse` with all rejections |
| `Stun.ParseAttributes` | src/transport/stun.rs:100-119 | the cursor loop reads the attribute list, stopping at a value that does not fit |
| `Stun.FindOffset` | src/transport/stun.rs:302-314 | the raw scan finds the first attribute of the type |
| `Stun.OffsetFindsParsedAttr` | src/transport/stun.rs:302-314 | for any bytes, the offset found is that of the attribute `get_attr` returns, with its type, length and value |
| `Stun.AttrsRoundTrip` | src/transport/stun.rs:248-254 | any attribute list survives writing and parsing |
| `Stun.ParseIff` | src/transport/stun.rs:69-128 | any bytes are taken for a message iff they start with the header of one and hold all it announces; type, length, transaction id and extent are that header's |
| `Stun.MessageRoundTrip` | src/transport/stun.rs:69-128 | a message of any type and attributes, followed by anything, parses to exactly itself |
| `Stun.IntegrityIff` | src/transport/stun.rs:212-238 | a message of any type and attributes passes the integrity check iff its first MESSAGE-INTEGRITY is the keyed hash of what precedes it with the length field ending there |
| `Stun.UnsignedRefused` | src/transport/stun.rs:212-215 | a message without MESSAGE-INTEGRITY is refused whatever the key |
| `Stun.MappedAddressRoundTrip` | src/transport/stun.rs:257-286 | the XOR address decodes to the input, IPv4 and IPv6 |
| `Stun.BuildBindingResponse` | src/transport/stun.rs:167-209 | the buffer built by appending and patching lengths is `Response` |
| `Stun.ResponseParses` | src/transport/stun.rs:167-209 | parsing it yields the four attributes in order, the transaction id and the client's own address |
| `Stun.ResponseVerifies` | src/transport/stun.rs:212-238 | integrity verification of any built response succeeds with a key iff that key gives the same hash as its own |
| `Stun.ResponseFingerprint` | src/transport/stun.rs:196-202 | FINGERPRINT of any built response, taken off its mask, is the checksum of everything before it |
| `Rtcp.SplitCompound` | src/transport/udp/rtcp.rs:146-212 | the loop terminates on every buffer and sorts the items of `Split` by kind, in order |
| `Rtcp.BlocksInBounds` | src/transport/udp/rtcp.rs:146-212 | for every buffer the visited blocks lie inside it, one directly after the other, and the items are what those blocks contribute |
| `Rtcp.SplitAssembled` | src/transport/udp/rtcp.rs:146-222 | on the concatenation of any well-formed blocks each is found and classified as if alone, in order, up to the media SSRC of short blocks; the result is exactly the classification alone iff no referred-to block under 12 bytes is followed by enough bytes whose would-be SSRC is not 0 |
| `Rtcp.CompoundSorted` | src/transport/udp/rtcp.rs:146-212 | on the concatenation of any well-formed blocks the five lists are exactly the blocks of each kind, whole and in order: NACKs by their bytes, sender reports, receiver reports, PLI and REMB by references to theirs, MBCP messages read |
| `Rtcp.ShortReportBorrows` | src/transport/udp/rtcp.rs:164-172 | in every compound that starts with an 8-byte receiver report and goes on, the report takes its media SSRC from the next block |
| `Rtcp.TwoShortReports` | src/transport/udp/rtcp.rs:164-172 | such a compound of two 8-byte reports |
| `Rtcp.BuildMbcpApp` | src/transport/udp/rtcp.rs:477-504 | the buffer is the padded APP packet |
| `Rtcp.MbcpIff` | src/transport/udp/rtcp.rs:434-470 | exactly the APP blocks of at least 12 bytes with the name MBCP are messages, and their text is what stands before the first zero byte, if non-empty and valid |
| `Rtcp.MbcpRoundTrip` | src/transport/udp/rtcp.rs:434-504 | subtype and sender read back; the text does iff it is valid, non-empty and NUL-free |
| `Nack.RtpCache.StorePacket` | src/room/participant.rs:436-439 | only the number's slot changes |
| `Nack.RtpCache.Lookup` | src/room/participant.rs:454-466 | a packet is returned only under its own number |
| `Nack.LostIffOverwritten` | src/room/participant.rs:436-466 | after any stores, in any order and with any gaps, a stored number is lost iff a different number of its slot was stored later and it was not stored again; an untouched slot gives its own packet |
| `Nack.LatestRetrievable` | src/room/participant.rs:436-466 | across gaps, reordering and wraps, a packet is retrievable while everything stored after it is less than 512 numbers away |
| `Nack.OnlyLatestRetrievable` | src/room/participant.rs:436-466 | whatever is found was stored under that number; after an unbroken stretch it is one of the latest 512 |
| `Nack.ExpandNack` | src/transport/udp/rtcp.rs:228-236 | the PID followed by the numbers of the set bits |
| `Nack.ExpandExactly` | src/transport/udp/rtcp.rs:228-236 | a number is listed iff it is the PID or its bit is set; the PID comes first and distances ascend, so none is listed twice |
| `Nack.NackListsLost` | src/transport/udp/rtcp.rs:228-236 | a number behind the PID is asked for iff the receiver marked it lost |
| `Nack.ParseRtcpNack` | src/transport/udp/rtcp.rs:73-111 | all items of all Generic NACK blocks, a last block cut short included |
| `Nack.NackRoundTrip` | src/transport/udp/rtcp.rs:73-111 | any compound of loss reports and other blocks gives back all losses, in order |
| `Nack.CutNackRead` | src/transport/udp/rtcp.rs:93-108 | a loss report cut short anywhere gives exactly the losses that are whole |
| `Nack.BuildRtxPacket` | src/transport/udp/rtcp.rs:247-282 | refines `BuildRtx`; empty for packets shorter than their header |
| `Nack.RtxCarriesSource` | src/transport/udp/rtcp.rs:247-282 | own number, SSRC, payload type and contributing sources and the source's timestamp in front, then the source's number and remaining bytes |
| `Nack.RtxOfParts` | src/transport/udp/rtcp.rs:247-282 | the retransmission of a packet put together from RTP parts is the packet put together from the same top bits, timestamp and contributing sources, the RTX payload type, number and SSRC, and the original number in front of the rest |
| `Nack.RtxEmptyIff` | src/transport/udp/rtcp.rs:247-262 | nothing is built iff the packet is shorter than its own header |
| `Nack.RtxReadableIff` | src/transport/udp/rtcp.rs:252-279 | a receiver following RFC 4588 reads the source's number and payload back iff the source has no header extension, or its profile equals its length and the last two bytes before the payload are the number |
| `Nack.OneByteExtensionUnreadable` | src/transport/udp/rtcp.rs:252-279 | of a datagram-sized packet with one-byte extensions, which carry the transport-wide numbers, the receiver reads nothing |
| `Nack.RecoverLost` | src/transport/udp/ingress.rs:1162-1171 | one RTX per cached number, numbered consecutively |
| `Nack.RecoverExactly` | src/transport/udp/ingress.rs:1162-1171 | the retransmissions are exactly those of the cached packets among the numbers asked for, in that order |
| `Nack.BurstRecovery` | src/transport/udp/ingress.rs:1097-1171 | in any rewriter run, out of any cache that holds it, a packet of the running burst is retransmitted for any list of lost numbers with its virtual number, and read back iff it is readable in the sense above |
| `PttRooms.PublisherIsLastSwitched` | src/room/floor.rs:173-192 | over every room run, the current or else previous speaker is whoever the rewriters were last switched to |
| `PttRooms.PublisherIsSender` | src/transport/udp/ingress.rs:1097-1117 | hence the publisher chosen for a NACK is the sender of every packet relayed in the running burst |
| `PttRooms.CachedThroughRun` | src/transport/udp/ingress.rs:319-330 | a video packet stays in its sender's cache while the sender stays in the room and uses the slot for nothing else |
| `PttRooms.OnlyOwnCached` | src/transport/udp/ingress.rs:319-330 | the cache has nothing but video its owner sent as a member and since last leaving, and nothing for who is not in the room |
| `PttRooms.NackRecovery` | src/transport/udp/ingress.rs:1097-1171 | over every room run, such a packet of the running burst is retransmitted for any NACK whose PID is its virtual number or whose mask marks it, out of the cache of the publisher the floor names, and the receiver reads its number and payload back iff it is readable |
| `PttRooms.RunView` | src/signaling/handler/floor_ops.rs:22-310 | over every room run, floor and rewriter speakers are those of the handlers' own run |
| `PttRooms.PendingIsAwaited` | src/room/ptt_rewriter.rs:124-300 | over every room run, the video rewriter waits for a keyframe iff the last floor movement switched the speaker and no keyframe of the floor holder, who is in the room, has come since |
| `PttRooms.FanoutIff` | src/transport/udp/ingress.rs:352-428 | over every room run, a packet is sent on iff its sender holds the floor and it is not an ordinary video frame while a keyframe is awaited |
| `PttRooms.FanoutIsStream` | src/transport/udp/ingress.rs:385-428 | what is sent on after a clean last move is the very packet the virtual stream appends for it; after a leave with handover it is the packet as it came |
| `PttRooms.RoomAudioContinuity` | src/tasks.rs:63-110 | over every room run, the audio subscribers receive is continuous iff bursts arrive in source order and no flushing clear comes from the timer or an MBCP call |
| `PttRooms.TimedOutSkipsThree` | src/tasks.rs:63-110 | request, packet, timer, request, packet: positions 1 and 5 |
| `PttRooms.PresentStep` | src/tasks.rs:187-224 | from a state with speaker and waiters all in the room, one input keeps that iff it neither reaps somebody on the floor nor admits an outsider |
| `PttRooms.FloorIsInRoomIff` | src/tasks.rs:187-224 | speaker and waiters are room members all through a run iff no input ever does |
| `PttRooms.ReapedWaiterSpeaks` | src/tasks.rs:187-224 | a six-input run on which a reaped waiter is granted the floor |
| `Simulcast.SimulcastRewriter.SwitchLayer` | src/room/participant.rs:181-184 | the next packet must be a keyframe |
| `Simulcast.SimulcastRewriter.Rewrite` | src/room/participant.rs:187-226 | refines `Forwards`, `After` and `Rewritten`; a packet held back is left untouched |
| `Simulcast.SwitchContinues` | src/room/participant.rs:200-214 | the packet that completes a switch has the next number and timestamp |
| `Simulcast.SingleLayerSegments` | src/transport/udp/ingress.rs:461-490 | in every run of layer requests and packets the forwarded stream is a concatenation of single-layer segments, each opened by a keyframe, numbers and timestamps advancing by one at each switch; in the running segment each packet is its source with number, timestamp and SSRC replaced |
| `Simulcast.RunningSegmentReverses` | src/room/participant.rs:228-230 | inside the running segment `reverse_seq` undoes the rewrite |
| `Simulcast.ForwardedIffDue` | src/transport/udp/ingress.rs:461-490 | over every run, in terms of the requests and packets alone: a packet is forwarded iff it has 12 bytes, belongs to the layer last subscribed to (h if none), that layer is not pause, and it is a keyframe or some packet was forwarded since that layer was chosen |
| `Simulcast.SegmentPositions` | src/room/participant.rs:187-226 | what a subscriber receives follows one unwrapped counter that advances by one at each switch and increases iff each segment arrives in source order |

## Left out

- Sockets, DTLS, SRTP, WebSocket and task scheduling: foreign libraries and I/O.
- Interleavings inside one handler: each handler with its action loop is one atomic step.
- Metrics, logging, telemetry and admin snapshots: reporting only.
- JSON payloads, codec and header-extension policy, opcodes: tables without a hard property.
- Random SSRC, ufrag and id generation: freshness is a hypothesis of the runs in `RoomIndex`.
- Jitter, NTP wall clock, DLSR and round-trip fields of reports: floating point and real clocks.
- The bytes of receiver reports, sender reports, REMB and PLI packets: fixed layouts that nothing else here depends on.
- `parse_twcc_seq` and the VP8/H264 keyframe detectors: bounded readers; keyframe is a boolean of the packet event.
- UTF-8 decoding of MBCP texts: validity is an uninterpreted predicate.
- Shared ownership of rooms and participants: the hub is one object holding room values; a session's address lives in a table keyed by participant id, since it is shared between room and hub.
- NACK storm suppression, RTX budget and PLI escalation: limits around the recovery modelled in `Nack` and `PttRooms`.
- Track SSRCs: the publisher of a push-to-talk NACK is found by user, where the server goes on by the SSRC of that user's video track.
- Simulcast retransmission across layers: both layers share one cache keyed by number, so no per-layer claim holds.
- `Room`'s getters and snapshots: plain reads.
- Discarding a subscriber's layer entry when the publisher leaves: the next entry starts a new stream.
- Counters wider than 32 bits (millisecond clocks, arrival count) are unbounded.
- RoomIndex.RoomHub.ReapZombies: requires the room tables to be keyed by user id, which `RunSound` proves of every reachable hub; the last-seen times are a parameter.
- RecvStats.LossFractionReported: needs fewer than 2^32 indices and packets since the last report, since both counters are 32 bits wide.
- RecvStats.LossFractionNeverWraps: needs fewer than 2^32 packets between two reports, since the received counter is 32 bits wide.
- PttRooms.NackRecovery: says nothing about packets of earlier bursts, whose offsets the rewriter no longer has; the sender must not have left or been reaped since, because the cache goes with the participant.
- TwccWindows.StatusMeansArrival: assumes no arrival a whole ring (8192) behind the maximum; what is on record without that is exactly `OnRecordIff`.

# Voice chat core: a Dafny model

The repository is a voice chat: a client that captures, gates, sends, buffers and
plays speech, and a server that keeps channels and relays packets. This project
models the state machines whose correctness is not visible in any one function,
and proves what they keep over whole runs.

- **Receiving** (`Serial`, `Jitter`, `JitterRing`, `Estimates`, `DepthWindow`,
  `Stats`, `Streams`, `SenderStream`, `StreamRuns`, `FrameOps`, `StreamTraces`,
  `Starts`, `Talkspurts`, `Lead`, `Audio`, `Engine`, `EngineRuns`, `PlayoutEngine`,
  `Mixing`, `PlayoutPump`, `PumpFrames`). The 15-slot ring over
  wrapping numbers is proved against a map from unbounded stream positions to
  packets; one sender's Idle/Playing machine is a step function with an in-place
  form; theorems are about every run of arrivals and frames.
- **Output** (`Playback`, `TrimSmooth`, `EdgeSmooth`, `Output`, `OutputRuns`, `PlaybackDevice`,
  `VirtualOutput`, `SystemRuns`, `LeadRuns`). The pump fills a bounded ring and the
  device callback drains it. One pump call and one callback are atomic; every
  interleaving of them, and of arriving packets, is covered.
- **Server** (`Server`, `ServerState`, `ServerInvariants`, `ServerSteps`,
  `ServerRuns`, `ServerAnswers`, `ServerExact`, `Relay`, `Stranded`, `Hearing`,
  `ChannelKeys`). Every operation is a step; the relay's two loads may have any operations in between.
- **Rate limiting, framing, the voice gate, live levels** (`RateLimit`,
  `RateLimitRuns`, `RateLimitSweeps`, `Framing`, `Vad`, `VadRuns`, `LiveLevels`).
  Step-by-step code against a declarative account of what it lets through,
  delivers, sends or shows.

Code that updates state in place is a class whose methods equate the new abstract
state with a step function of the old one; the theorems are about the step
functions. Times, random draws, decoder answers and decoded samples are parameters.

## Limits of the code that the proofs bring out

- `pop` reads an empty slot as a packet at sequence number 0.
  `Jitter.PopAgreesIffNonzero` gives the exact condition and `Jitter.PhantomStart`
  a stream that does. A push of number 0 right behind a buffered packet evicts it,
  and short of a restart no other push loses one (`Jitter.PushLosesExactly`).
- The read that completes an oversized frame header delivers nothing, so how the
  bytes were split decides which of the frames in front of it arrive
  (`Framing.SplitDecides`, `Framing.DeliveredExactly`).
- The comment on `render` says an idle stream waits until its buffer "still holds
  the target" after the pull. Over bare renders that fails for announced pulls of
  11 to 13 frames, when the tenth quiet frame already allows a drop
  (`Lead.LeadKeptExactly`), and over a run of pumps and callbacks of a device that
  asks for 9000 samples at once (`LeadRuns.LeadLostOverPumps`). It takes more than
  one pump, since one renders at most nine frames (`PumpLead.PumpFramesBounded`):
  at the end of the pump that starts a sender by depth the target is always still
  there (`PumpLead.PumpKeepsLead`).
- The ring of eight frames refuses samples as soon as a device asks for more than
  6720 at once (`OutputRuns.RequestBoundExact`).
- A channel can be destroyed under a client that is in it, when the last UDP
  address leaves before the client has said hello or when the client shares that
  address (`Stranded.SomeoneStranded`, `Stranded.RunStrandsExactly`).
- A registered member can be missing from its channel's peers, when a client that
  shares its address leaves or rebinds, or when the channel was destroyed and
  created anew under it (`Hearing.SomeoneMuted`, `Hearing.RunHeardExactly`).
- Members of a channel can hold different keys, when it was destroyed under one of
  them and created anew (`ChannelKeys.SomeoneDivided`, `ChannelKeys.RunKeysExactly`).
- A ramp is cut short where a read right after silence, or the samples left for a
  short read, are fewer than the fade: the next sample, or the first, then jumps
  (`EdgeSmooth.JoinExactly`, `EdgeSmooth.JoinGains`).
- A device that reports no channels is given silence for the samples it consumes
  (`Playback.SamplesReachExactly`).
- A sweep shows whenever its ttl does not refill the bucket of a policy that
  allows anything at all (`RateLimitSweeps.UnobservableExactly`); the server's own
  ttl always does (`RateLimitRuns.ServerSweepsLate`).

## Model

| member | source | states |
|---|---|---|
| `Serial.SeqBeforeIsOrder` | crates/client/src/playout.rs:71-75 | serial comparison (section 3.2 of RFC 1982) of two wrapped numbers is integer order of the stream positions behind them, for positions less than 2^31 apart |
| `Serial.WindowSlotsDistinct` | crates/client/src/playout.rs:122-188 | two nonzero numbers in one 15-position window never share a ring slot, also across the wrap, although 15 does not divide 2^32 |
| `Serial.ZeroSharesWithPredecessor` | crates/client/src/playout.rs:255-256 | number 0 shares its slot with exactly one window neighbour, the position before it |
| `Jitter.PushWellFormed` | crates/client/src/playout.rs:122-188 | every push, of any number and in any state, leaves every buffered position in [pos, pos+15) with a nonzero number |
| `Jitter.ReanchorKeepsWindow` | crates/client/src/playout.rs:137-146 | moving a provisional start back lands exactly on the late packet, and keeps every buffered packet in the window whenever `fits_from` accepts it |
| `Jitter.PopWellFormed` | crates/client/src/playout.rs:231-282 | pop and skip keep the buffer well formed |
| `Jitter.PopAgreesIffNonzero` | crates/client/src/playout.rs:250-282 | pop answers "packet" exactly when the next position is buffered, if and only if `next_seq` is not 0 |
| `Jitter.PushLosesExactly` | crates/client/src/playout.rs:122-188 | a push that restarts nothing loses a buffered packet if and only if it is of number 0 landing in the window right behind one, and then that one; the others keep their bytes unless it is their duplicate |
| `Jitter.PushExactly` | crates/client/src/playout.rs:122-188 | by the signed distance d of a nonzero number from the start: beyond two rings behind, the stream starts over with it; at most half a ring behind, nothing consumed and room for what is buffered, it becomes the start; otherwise behind, it is late; in the window, it is buffered with its bytes; ahead, it is counted, and the third in a row starts the stream over |
| `Jitter.PushStarts` | crates/client/src/playout.rs:122-126 | the first packet of all is buffered at the start it sets |
| `Jitter.DistanceUnique` | crates/client/src/playout.rs:72-75 | no other position that near the start carries the number |
| `Jitter.PhantomStart` | crates/client/src/playout.rs:122-126 | a stream whose first packet carries number 0 plays a packet it never buffered |
| `Jitter.SkipFindsOldest` | crates/client/src/playout.rs:231-240 | a skip lands on a buffered packet with none before it and drops nothing |
| `Jitter.TargetFrames` | crates/client/src/playout.rs:327-332 | the target is always within its configured bounds |
| `Jitter.TargetIsLeast` | crates/client/src/playout.rs:326-332 | it is the least number of frames, at least 2, that covers one frame and twice the jitter, or it is 10 |
| `Estimates.ObserveMeasuresTransit` | crates/client/src/playout.rs:196-211 | past the onset the estimate moves a sixteenth towards the difference of two transit times (section 6.4.1 of RFC 3550), whether numbers wrapped or arrived out of order |
| `Estimates.OnsetIsNotJitter` | crates/client/src/playout.rs:190-217 | after a talkspurt, neither the silence nor the burst the next one opens with moves the estimate |
| `Estimates.EstimateBounded` | crates/client/src/playout.rs:190-217 | over any run of talkspurts, silences and restarts the estimate stays in [0, m] while neighbouring packets of a talkspurt have transit times at most m apart |
| `Jitter.AtMostCapacity` | crates/shared/src/config.rs:146 | the window never holds more packets than the ring has slots |
| `JitterRing.JitterBuffer.SlotMeansBuffered` | crates/client/src/playout.rs:243-246 | a slot answers for a number exactly when the map holds that position, with the same bytes: no slot is stale |
| `JitterRing.JitterBuffer.NextSlot` | crates/client/src/playout.rs:255-256 | the slot of `next_seq` is either empty or its own; it matches when the position is buffered or the number is 0 |
| `JitterRing.OthersElsewhere` | crates/client/src/playout.rs:181-188 | no other buffered packet uses the slot of a window position, save the one number 0 shares with |
| `JitterRing.JitterBuffer.StoreKeepsOthers` | crates/client/src/playout.rs:181-188 | storing a packet leaves every other slot the slot of a buffered packet |
| `JitterRing.JitterBuffer.Peek` | crates/client/src/playout.rs:243-246 | peek is the map lookup |
| `JitterRing.JitterBuffer.CountBuffered` | crates/client/src/playout.rs:285-293 | the count of matching slots is the size of the map |
| `JitterRing.JitterBuffer.Fits` | crates/client/src/playout.rs:221-227 | the slot scan decides whether every buffered packet would stay in the ring from a new start |
| `JitterRing.JitterBuffer.OldestOffset` | crates/client/src/playout.rs:231-240 | the scan finds the offset of the first buffered position |
| `JitterRing.JitterBuffer.SkipToOldest` | crates/client/src/playout.rs:231-240 | the in-place skip is the skip of the map |
| `JitterRing.JitterBuffer.HasFuture` | crates/client/src/playout.rs:267-272 | with the next position free, the scan finds something exactly when the map is not empty |
| `JitterRing.JitterBuffer.Consume` | crates/client/src/playout.rs:258-278 | clearing the next slot and stepping past it removes exactly that position |
| `JitterRing.JitterBuffer.ClearNext` | crates/client/src/playout.rs:258-278 | clearing the next slot drops its position and leaves every other slot valid |
| `JitterRing.JitterBuffer.Pop` | crates/client/src/playout.rs:250-282 | the in-place pop is the pop of the map, with the same answer and, for a buffered position, the same bytes |
| `JitterRing.JitterBuffer.Push` | crates/client/src/playout.rs:122-188 | the in-place push of any number in any state is the push of the map: late, restart, re-anchor, forward gap, resync and store |
| `JitterRing.JitterBuffer.PushBehind` | crates/client/src/playout.rs:128-153 | a number behind the window restarts, re-anchors or is late under exactly the stated conditions |
| `JitterRing.JitterBuffer.PushAhead` | crates/client/src/playout.rs:161-187 | a number ahead is stored in the window, counted, or resynced onto at the third in a row |
| `JitterRing.JitterBuffer.StoreSlot` | crates/client/src/playout.rs:181-188 | the packet is in the map afterwards, and no other position changed (for number 0: its predecessor is evicted) |
| `JitterRing.JitterBuffer.Reanchor` | crates/client/src/playout.rs:142-146 | re-anchoring moves the start and nothing else |
| `JitterRing.JitterBuffer.MoveStart` | crates/client/src/playout.rs:231-282 | moving the start inside the ring leaves no slot stale |
| `JitterRing.JitterBuffer.ResetTo` | crates/client/src/playout.rs:298-308 | a reset empties the ring and starts a fresh estimate at the new number |
| `JitterRing.JitterBuffer.EndOfTalkspurt` | crates/client/src/playout.rs:214-217 | only the reference and the onset count are dropped; the estimate survives |
| `Depths.DepthWindow.Push` | crates/client/src/playout.rs:351-355 | the history grows by the depth, saturated to a byte |
| `Depths.DepthWindow.Min` | crates/client/src/playout.rs:358-361 | the minimum of the circular array is the minimum of the last 50 recorded depths |
| `Depths.DepthWindow.RingIsRotatedWindow` | crates/client/src/playout.rs:336-367 | the array is the sliding window, rotated |
| `Depths.DepthWindow.Reset` | crates/client/src/playout.rs:363-366 | a reset forgets the history |
| `Stats.WindowsAreBlocks` | crates/client/src/voice.rs:123-161 | after any run of outcomes the open window holds exactly those since the last multiple of 150, so it never sums to a full window between calls, and the published loss is that of the last full window |
| `Stats.RecordAllConcat` | crates/client/src/voice.rs:123-161 | recording two batches is recording their concatenation |
| `Stats.NetworkStats.Outcome` | crates/client/src/voice.rs:123-161 | count, then finalize, in place |
| `Stats.NetworkStats.MaybeFinalizeWindow` | crates/client/src/voice.rs:149-161 | a full window publishes its loss percentage and starts over; a partial one is left alone |
| `Streams.RenderWellFormed` | crates/client/src/playout.rs:469-591 | every render keeps the stream well formed: hold within its limit, idle means no pending concealment |
| `Streams.ReceiveWellFormed` | crates/client/src/playout.rs:697-701 | so does every arrival |
| `SenderStreams.SenderStream.Receive` | crates/client/src/playout.rs:697-701 | an arrival in place, with the activation timer of an idle stream |
| `SenderStreams.SenderStream.GoIdle` | crates/client/src/playout.rs:447-463 | idling resets the talkspurt state and discards pending concealment |
| `SenderStreams.SenderStream.ShouldAccelerate` | crates/client/src/playout.rs:596-609 | the test on the circular window decides by the sliding-window minimum |
| `SenderStreams.SenderStream.TakePacket` | crates/client/src/playout.rs:526-529 | a second packet leaves the buffer and is counted received; the bytes decoded are its own |
| `SenderStreams.SenderStream.PlayPacket` | crates/client/src/playout.rs:514-546 | a packet is played, or dropped for the one behind it; outcomes, counters and decoded bytes are those of the step |
| `SenderStreams.SenderStream.ConcealLoss` | crates/client/src/playout.rs:558-578 | a loss is recovered from the packet now at the start when it can carry redundancy, else concealed |
| `SenderStreams.SenderStream.Underrun` | crates/client/src/playout.rs:580-589 | an underrun is bridged up to the hold, then the stream idles |
| `SenderStreams.SenderStream.RenderPlaying` | crates/client/src/playout.rs:511-590 | one playing frame in place is the step function, with what it records |
| `SenderStreams.SenderStream.Activate` | crates/client/src/playout.rs:494-508 | activation skips the hole at the head, one recorded loss for each position |
| `SenderStreams.SenderStream.Render` | crates/client/src/playout.rs:469-591 | one render in place is the step function: same stream, operation, decoded packets, recorded outcomes and counters |
| `StreamRuns.PopAccounts` | crates/client/src/playout.rs:250-282 | one pop consumes exactly what its outcome says |
| `StreamRuns.SkipAccounts` | crates/client/src/playout.rs:505-508 | a skipped hole is one loss per position and passes over no packet |
| `StreamRuns.PlayingConserves` | crates/client/src/playout.rs:511-590 | a playing render records what it consumed |
| `StreamRuns.RenderConserves` | crates/client/src/playout.rs:469-591 | conservation: each render records one outcome per sequence number it consumes, received exactly where one was buffered; 2 for a drop, 0 for an expand or idle, 1 per skipped hole |
| `StreamRuns.OpNamesPositions` | crates/client/src/playout.rs:511-578 | the operation names the numbers it consumed, and FEC the one still to come, which is buffered |
| `StreamRuns.ActivationPlaysOldest` | crates/client/src/playout.rs:478-511 | the first frame of a talkspurt is the oldest buffered packet, never concealment; everything before it is counted lost |
| `StreamRuns.AccelerationSafe` | crates/client/src/playout.rs:509-545 | a drop happens only if each of the last 10 to 50 depths since activation or the previous drop exceeded target + 1, and leaves the target buffered |
| `StreamRuns.DeepWindow` | crates/client/src/playout.rs:596-609 | what a positive acceleration test says about every recorded depth |
| `StreamTraces.PlayedInOrder` | crates/client/src/playout.rs:122-282 | over any run, restarts included: the operations, losses and fed packets reported since the last restart are one entry for every stream position in order, none left out; each decoded entry names its position's number and was fed bytes that arrived under it; every position ever buffered is still buffered, was decoded, or was evicted by a push; and a provisional start means nothing was reported yet |
| `StreamTraces.EveryPacketPlays` | crates/client/src/playout.rs:122-282 | in a run without number 0 every position buffered since the last restart still holds the bytes last buffered there, or they were decoded |
| `StreamTraces.PushFate` | crates/client/src/playout.rs:122-188 | each push of a nonzero number is exactly one of: late, out of reach, or in its place with its bytes; and it is told late exactly when it is |
| `StreamTraces.ArrivalFate` | crates/client/src/playout.rs:122-282 | in a run without number 0 every arrival is late, out of reach, thrown away by a later restart, or in its place: its bytes, or those of a later duplicate, are still waiting there or were decoded |
| `StreamTraces.NothingEvicted` | crates/client/src/playout.rs:122-188 | no push of such a run evicts anything |
| `StreamTraces.PlayedOnce` | crates/client/src/playout.rs:469-591 | two decoded entries under one number are at least 2^32 positions apart: each packet is played at most once |
| `StreamTraces.RenderReports` | crates/client/src/playout.rs:469-591 | what one render reports, position by position, is what the buffer held there, and what it reports lost was not there |
| `StreamTraces.PushSources` | crates/client/src/playout.rs:122-188 | whatever a push leaves buffered was buffered before at its position, or is the packet pushed; after a restart only that |
| `StreamTraces.NextInOrder` | crates/client/src/playout.rs:122-282 | each arrival and each frame keeps that log |
| `StreamTraces.PushKeepsStart` | crates/client/src/playout.rs:128-153 | a push that restarts nothing moves the start only while it is provisional |
| `StreamTraces.StartFixedOncePlayed` | crates/client/src/playout.rs:137-146 | once anything was consumed only a restart or a frame moves the start |
| `StreamTraces.FecPacketIsDecodedNext` | crates/client/src/playout.rs:558-578 | the packet peeked for FEC is the first one decoded by the next frame, whatever arrives in between short of a restart or of number 0 right behind a packet numbered 2^32 - 1 |
| `StreamTraces.PushKeepsHead` | crates/client/src/playout.rs:122-188 | an arrival that restarts nothing leaves the head of a stream that has played in place if and only if it is not that number 0 |
| `StreamTraces.ArrivalsKeepHead` | crates/client/src/playout.rs:558-567 | such arrivals leave a waiting head where it is, with its bytes unless a duplicate replaced them |
| `Talkspurts.StreamDrains` | crates/client/src/playout.rs:511-590 | drain: a playing stream without arrivals decodes its buffered span once and in order, one loss per hole, plays exactly the remaining hold of expands, then is silent with everything consumed; at number 0 a hole plays as the phantom packet |
| `Talkspurts.DrainPacket` | crates/client/src/playout.rs:511-578 | one frame of a drain moves on in order and never past the end |
| `Talkspurts.DrainUnderrun` | crates/client/src/playout.rs:580-589 | with nothing left, a frame expands until the hold is used up, then idles |
| `Talkspurts.SilentStaysSilent` | crates/client/src/playout.rs:478-485 | quiescence: a silent stream renders nothing, records nothing and keeps its sequence state for ever |
| `Starts.StartsExactly` | crates/client/src/playout.rs:478-508 | an idle stream with packets whose timer runs since t plays its oldest packet if and only if it holds target + pull packets or now - t reaches 20 ms times that; otherwise nothing about it changes |
| `Starts.StartsInTime` | crates/client/src/playout.rs:483-492 | whatever else arrives, with frames at most 20 ms apart a waiting stream starts within 20 ms of its deadline |
| `Starts.TimerExactly` | crates/client/src/playout.rs:697-701 | an arrival starts the idle timer exactly when the stream does not play, no timer runs and the packet is not late, and touches nothing else beside the buffer |
| `Starts.TimerRuns` | crates/client/src/playout.rs:697-701 | in every run whose times never go back an idle stream with packets has its timer running, set no later than now |
| `Starts.HeardInTime` | crates/client/src/playout.rs:478-508 | from the start of a stream: what an idle stream holds at any instant starts playing by the deadline of that instant |
| `FrameOps.LossExactly` | crates/client/src/playout.rs:548-578 | a hole in a playing stream is one loss, recovered if and only if the packet right behind it is there, names a SILK or hybrid mode and the decoder makes something of it; concealed otherwise |
| `FrameOps.DropsExactly` | crates/client/src/playout.rs:509-547 | a packet is dropped for the one behind it if and only if that one is there, at least ten depths were recorded, the last fifty all exceed target + 1, and the frame is quiet or they all exceed target + 4 (at most 13); otherwise it is played |
| `FrameOps.ExpandsExactly` | crates/client/src/playout.rs:514-589 | what each kind of frame does to the pending expands: reported by a packet, forgotten when the stream falls idle, one more by an expand |
| `FrameOps.BridgesExactly` | crates/client/src/playout.rs:580-589 | a playing stream with nothing to play bridges exactly three frames in a row and falls idle at the fourth, and never otherwise; whatever else it plays starts the count anew |
| `FrameOps.ExpandsConserved` | crates/client/src/playout.rs:514-589 | over any run of frames every expand is reported once, forgotten once, or still pending |
| `FrameOps.RenderedEstimate` | crates/client/src/playout.rs:447-463 | rendering leaves the jitter estimate alone, except that falling idle drops its reference |
| `FrameOps.RepairsCounted` | crates/client/src/playout.rs:536-576 | over any run the counters of drops, recoveries and concealments count each once |
| `Lead.ShortPullKeepsLead` | crates/client/src/playout.rs:486-492 | after activation by depth, a list of up to ten renders, as many as announced, leaves the target buffered |
| `Lead.LongPullLosesLead` | crates/client/src/playout.rs:486-492 | for each announced pull of 11 to 13 frames, a list of as many renders that does not |
| `LeadRuns.LeadLostOverPumps` | crates/client/src/playout.rs:464-492 | a run of packets, pumps and callbacks from the start of the receiver: an idle sender with exactly its target and a pull of eleven, and when two pumps have filled the output again, less than the target |
| `Lead.LeadKeptExactly` | crates/client/src/playout.rs:464-468 | over lists of renders as long as announced, the lead is kept if and only if the pull is at most 10, or too long for the ring ever to hold the lead |
| `Lead.ServedPullsKeepLead` | crates/client/src/playout.rs:838-843 | every pull of a device served without refusals is at most 8 frames, the least number that reaches the low-water mark, so its lead is kept |
| `PumpLead.PumpKeepsLead` | crates/client/src/playout.rs:464-492 | over real pumps, for every engine, output and request: a sender that a pump starts by depth, at its first frame or a later one, still holds its target when the pump is done |
| `PumpLead.StartByDepth` | crates/client/src/playout.rs:486-492 | whichever frame of the pump first finds its lead buffered, the sender counts as started by depth |
| `PumpLead.PumpFramesBounded` | crates/client/src/playout.rs:911-932 | a pump renders at most nine frames, the last into a full ring |
| `Engine.OnPacketWellFormed` | crates/client/src/playout.rs:671-702 | never more than 16 streams, all well formed, whatever names arrive |
| `Engine.SendersIndependent` | crates/client/src/playout.rs:671-708 | a packet changes its own sender only; another disappears only after its TTL |
| `EngineRuns.PacketExactly` | crates/client/src/playout.rs:671-708 | a sender the periodic prune keeps buffers the packet in its own stream; any other starts anew if the decoder can be made and fewer than sixteen are kept or one of them is stale; its arrival is noted; everybody else is unchanged, or was not heard for ten seconds |
| `EngineRuns.NeverPruned` | crates/client/src/playout.rs:704-708 | over any run a sender heard at gaps below ten seconds is never pruned |
| `EngineRuns.PrunedInTime` | crates/client/src/playout.rs:671-676 | the 150th packet leaves only senders heard within ten seconds |
| `EngineRuns.ActiveExactly` | crates/client/src/playout.rs:804-810 | the tick is needed if and only if some frame without further packets may play something or move a level |
| `Mixing.LevelsFollowFrames` | crates/client/src/playout.rs:733-752 | a frame moves each stream on by its own decoder's answers; a sender who played shows the mean square of the frame it put into the mix, one who fell idle 0, and nobody else moves |
| `Mixing.EpochTellsLevels` | crates/client/src/playout.rs:776-778 | the epoch stands still if and only if nobody played or fell idle, and then no level moved |
| `Mixing.FrameKeepsIdleSilent` | crates/client/src/playout.rs:733-752 | an idle sender always shows 0 |
| `Engine.InactiveFrame` | crates/client/src/playout.rs:716-783 | a frame of an inactive engine plays nothing and moves nothing |
| `Engine.InactiveIsQuiet` | crates/client/src/playout.rs:804-810 | once inactive, any number of later frames play nothing, move no level and no epoch, and consume nothing |
| `PlayoutEngines.PlayoutEngine.Prune` | crates/client/src/playout.rs:704-708 | the retain loop keeps exactly the senders heard within the TTL |
| `PlayoutEngines.PlayoutEngine.OnPacket` | crates/client/src/playout.rs:671-702 | one arrival on the map of senders: periodic prune, limit, decoder failure, new sender, buffered packet |
| `PlayoutEngines.PlayoutEngine.RenderFrame` | crates/client/src/playout.rs:716-783 | one frame in place: every sender advanced, its level that of the frame it put into the mix, the epoch moved, and each output sample the sum of the playing senders scaled by their gains; untouched when nobody plays |
| `Audio.Measure` | crates/client/src/level.rs:28-30 | the loop computes the mean square, the square of the RMS |
| `PlayoutEngines.PlayoutEngine.Active` | crates/client/src/playout.rs:804-810 | active exactly when some sender plays or has something buffered |
| `PlayoutEngines.PlayoutEngine.CountPlaying` | crates/client/src/playout.rs:797-802 | the count is the number of senders playing |
| `PlayoutEngines.MixOrderFree` | crates/client/src/playout.rs:732-775 | the mix does not depend on the order the map of senders is visited in |
| `Mixing.MixFollowsGains` | crates/client/src/playout.rs:754-775 | each sample of the mix is the sum of the playing senders' frames at the listener's gains when no gain is within 2^-23 of 1, and within 2^-23 of their loudness of it in any case |
| `Mixing.MutedIsAbsent` | crates/client/src/playout.rs:754-775 | a sender at gain 0 leaves the mix as if it did not play |
| `Playback.PlaybackQueue.TrimTo` | crates/client/src/audio.rs:336-352 | the in-place crossfade computes the blend of the original samples: no sample is read after it was overwritten |
| `Playback.PlaybackQueue.CrossfadeHead` | crates/client/src/audio.rs:343-348 | the loop, as a function of the queue before it |
| `Playback.CrossfadeStep` | crates/client/src/audio.rs:343-348 | each step reads two samples no earlier step wrote |
| `Playback.PlaybackQueue.Fill` | crates/client/src/audio.rs:358-389 | the device buffer is what the read delivers: the ramped samples on every channel, then silence, or with no channels silence only; the queue loses exactly those samples; dry is the transition only |
| `Playback.SamplesReachExactly` | crates/client/src/audio.rs:358-389 | the samples read are in the device buffer if and only if the device reports a channel, or they were silence anyway |
| `Playback.NoChannelsNoSound` | crates/client/src/audio.rs:383-385 | with no channels a sample is consumed and silence delivered |
| `Playback.PlaybackQueue.WriteSamples` | crates/client/src/audio.rs:364-382 | the upmix loop writes each ramped sample to every channel of its frame |
| `Playback.EdgeGain` | crates/client/src/audio.rs:366-376 | a silence ramp only ever attenuates, and never to zero |
| `EdgeSmooth.ReadIsSmooth` | crates/client/src/audio.rs:358-389 | if neighbours in the queue differ by at most d and none is larger than m, each step of what is heard of a read is at most d + m/(fade+1): out of the silence before it, inside, and into the padding |
| `EdgeSmooth.ReadUnchanged` | crates/client/src/audio.rs:364-376 | further than the fade from silence a read delivers the queue's own samples |
| `EdgeSmooth.ReadRamps` | crates/client/src/audio.rs:366-374 | within it, sample i from the edge is scaled by (i+1)/(fade+1) |
| `EdgeSmooth.JoinExactly` | crates/client/src/audio.rs:364-388 | two reads join without a click for every signal if and only if the gain moves by at most one notch between them |
| `EdgeSmooth.JoinGains` | crates/client/src/audio.rs:364-388 | a satisfied read ends at full gain unless it follows silence and is shorter than the fade, and the next one starts at full gain unless it is short and finds less than the fade |
| `Playback.DeliveredAt` | crates/client/src/audio.rs:377-387 | every channel carries the read's samples in order, and all behind them is silence |
| `TrimSmooth.TrimIsSmooth` | crates/client/src/audio.rs:331-352 | if neighbours differ by at most d and the two heads by at most m, each step after a trim, splice included, is at most d + m/(f+1) with f the length of the fade |
| `TrimSmooth.TrimKeepsNewest` | crates/client/src/audio.rs:336-352 | behind the crossfade the trimmed queue is the newest of the old one, sample for sample |
| `TrimSmooth.TrimmedStep` | crates/client/src/audio.rs:343-348 | the same for one step inside the trimmed queue |
| `TrimSmooth.BlendStep` | crates/client/src/audio.rs:343-348 | one step along a crossfade moves by at most the signals' own step plus the fade's share of their difference |
| `OutputRuns.SamplesConserved` | crates/client/src/audio.rs:442-505 | over every run of pumps and callbacks each sample offered is refused and counted, in the ring, in the queue, trimmed and counted, or played |
| `OutputRuns.VolumeApplied` | crates/client/src/audio.rs:451-457 | with the volume fixed, what leaves the ring enters the queue times the volume, in order |
| `OutputRuns.CallbackExactly` | crates/client/src/audio.rs:482-501 | a callback plays all it was asked for or everything there is; it is dry if it plays too few though it plays some or the one before was satisfied, starved if somebody was playing then; it publishes what is left and its largest request |
| `OutputRuns.LatencyBounded` | crates/client/src/playout.rs:822-844 | for requests up to 6720 samples, in every interleaving ring plus queue stay below low-water plus a frame, nothing is refused or trimmed, and the samples come out as offered, in order |
| `OutputRuns.RequestBoundExact` | crates/client/src/playout.rs:911-932 | no run refuses a sample if and only if the device never asks for more than 6720 samples |
| `OutputRuns.PumpBounded` | crates/client/src/playout.rs:911-932 | a pump of a bounded output accepts every frame whole |
| `OutputRuns.CallbackBounded` | crates/client/src/audio.rs:442-505 | a callback of a bounded output empties the ring and trims nothing |
| `OutputRuns.NeverStarved` | crates/client/src/playout.rs:822-836 | if a pump completes between every two callbacks and requests have been published, no callback runs dry and `output_starved` never moves |
| `OutputRuns.ServedRunsNeverStarve` | crates/client/src/playout.rs:822-836 | the same from every state a run can reach |
| `OutputRuns.FullCallbackIsFed` | crates/client/src/audio.rs:489-501 | a callback after a completed pump is satisfied |
| `Pumps.PlayoutPump.Pump` | crates/client/src/playout.rs:902-966 | the pump in place over its engine, mix buffer, ring and signals is the pump of the engine: every frame is told its pull, mixed, pushed and counted; the playing count is published |
| `Pumps.PlayoutPump.RenderOne` | crates/client/src/playout.rs:912-931 | one round of its loop |
| `Pumps.PlayoutPump.PumpWithoutDevice` | crates/client/src/playout.rs:934-961 | the pump without a device in place: lag forgiven, frames rendered and discarded until the virtual output is covered |
| `VirtualOutput.VirtualKeepsTime` | crates/client/src/playout.rs:934-961 | it covers the virtual output by one frame per 20 ms, or leaves nobody playing |
| `VirtualOutput.VirtualPumpBounded` | crates/client/src/playout.rs:939-943 | one such pump renders at most 17 frames, whatever the clock did |
| `VirtualOutput.RealTime` | crates/client/src/playout.rs:934-961 | over any run in which somebody plays and no pump is too late to catch up, the frames rendered differ from the time passed by less than one frame |
| `EnginePumps.PumpIsOutputPump` | crates/client/src/playout.rs:911-932 | what the engine renders is a supply in the sense of the output model, so the theorems about runs of pumps hold of it |
| `PumpFrames.PumpPlaysMix` | crates/client/src/playout.rs:911-932 | the frames a pump pushes are, in order, the mixes of consecutive frames of the engine, nothing left out or rendered twice, and each is told what the output still takes; a call nobody plays in ends it |
| `PumpFrames.PullIsLeast` | crates/client/src/playout.rs:827-843 | the announced pull is the least number of frames that lifts the output to two frames, or one request and a frame |
| `PumpFrames.VirtualPumpMoves` | crates/client/src/playout.rs:934-961 | without a device the engine moves on by exactly the frames counted, one per 20 ms of the clock |
| `EnginePumps.PumpStops` | crates/client/src/playout.rs:911-932 | a pump stops because the output is full, nobody plays any more, or the ring refused samples |
| `EnginePumps.PlayingPumpCompletes` | crates/client/src/playout.rs:911-965 | on an output within its bound, a pump that publishes anyone as playing has filled the output |
| `SystemRuns.AlwaysBounded` | crates/client/src/playout.rs:822-844 | over any run of packets, pumps and callbacks of up to 6720 samples the output stays within its bound: nothing refused, nothing trimmed |
| `SystemRuns.NeverStarves` | crates/client/src/audio.rs:489-501 | over any run of packets, pumps and callbacks, whoever plays: if some pump runs between every two callbacks and requests are published, `output_starved` never moves |
| `SystemRuns.NeverDry` | crates/client/src/audio.rs:489-501 | if moreover that pump publishes somebody as playing, no callback runs dry |
| `SystemRuns.ReceiverNeverStarves` | crates/client/src/audio.rs:489-501 | the same from the start of the receiver, after any run of such a device |
| `PlaybackDevice.PushCounted` | crates/client/src/audio.rs:525-530 | what fits is in the ring, the rest is counted |
| `PlaybackDevice.PlaybackRenderer.DrainRing` | crates/client/src/audio.rs:450-477 | the whole frames of the ring, scaled, are at the end of the queue |
| `PlaybackDevice.PlaybackRenderer.Render` | crates/client/src/audio.rs:442-505 | one callback in place is the callback step, and the device buffer holds what the read delivers, before the limiter |
| `PlaybackDevice.PlaybackRenderer.Deliver` | crates/client/src/audio.rs:489-501 | fill, count a dry read, publish queue and request |
| `ServerInvariants.ApplyCoherent` | crates/server/src/state.rs:478-532 | after every operation the peer cache equals the participant sets, a missing entry meaning empty |
| `ServerInvariants.PublishCoherent` | crates/server/src/state.rs:497-520 | storing one channel's set repairs the cache for that channel and no other |
| `ServerInvariants.VacateCoherent` | crates/server/src/state.rs:406-422 | vacating a channel, destroyed or not, leaves the cache in agreement |
| `ServerSteps.ApplyTokens` | crates/server/src/state.rs:274-336 | each in-channel client owns exactly the token it was issued, which names its channel; no other token exists |
| `ServerSteps.CleanupKeepsTokens` | crates/server/src/state.rs:591-643 | under that invariant a cleanup revokes no token, whatever its grace and TTL |
| `ServerSteps.ApplyPeers` | crates/server/src/state.rs:442-473 | every address in a channel's set is the UDP address of a client now in that channel |
| `Hearing.ApplyHeardExactly` | crates/server/src/state.rs:140-643 | the converse: after any operation every registered member of an existing channel is in its set if and only if the operation does not take out an address another member shares, nor re-create a channel under a registered member |
| `Hearing.RunHeardExactly` | crates/server/src/state.rs:140-643 | over any run, at every instant, if and only if no operation of the run does that |
| `Hearing.RelayFindsMembers` | crates/server/src/state.rs:478-492 | after such a run a relay finds exactly the registered members of an existing channel, minus the sender |
| `Hearing.SomeoneMuted` | crates/server/src/state.rs:392-424 | a run after which a registered member of a lobby is in nobody's peer list: two clients share an address and one leaves |
| `ServerSteps.HelloPeers` | crates/server/src/state.rs:442-473 | a hello keeps that, address rebinding included |
| `ServerRuns.ApplySource` | crates/server/src/state.rs:442-455 | a registered UDP address has the canonical IP of its TCP session |
| `ServerRuns.ApplyKeyed` | crates/server/src/state.rs:215-245 | channels, keys and creation times stay in step; persistent channels exist |
| `ServerRuns.PersistentStep` | crates/server/src/state.rs:285-303 | a persistent channel is never destroyed, and its key changes only on a join of the empty channel, to the key that client is handed |
| `ServerRuns.ApplyCurrent` | crates/server/src/state.rs:285-336 | everyone in a persistent channel was handed the key it has now |
| `ServerRuns.ApplyIndex` | crates/server/src/state.rs:161-187 | the key index never points at a client without that key |
| `ServerRuns.NextKeepsInvariant` | crates/server/src/state.rs:140-643 | every operation keeps the conjunction of all of these |
| `ServerAnswers.RegisterExactly` | crates/server/src/state.rs:140-157 | a client registers exactly while there is room, under the next number's name |
| `ServerAnswers.CreateExactly` | crates/server/src/state.rs:215-251 | a channel is created exactly while there is room and its name is free, empty and with the key drawn; persistent if asked |
| `ServerAnswers.JoinExactly` | crates/server/src/state.rs:274-336 | a join succeeds exactly for an existing channel and a registered client in none, errors in that order; the client is in the channel with the token issued and was handed the key the channel has now, drawn just then only for a persistent channel nobody was in; nothing else changes |
| `ServerAnswers.EchoExactly` | crates/server/src/state.rs:343-389 | an echo test succeeds exactly while there is room for a registered client in no channel, alone in a new channel with a new key |
| `ServerAnswers.LeaveExactly` | crates/server/src/state.rs:392-424 | who leaves is in no channel, with no address and no token; name and key stay |
| `ServerAnswers.RemoveExactly` | crates/server/src/state.rs:179-211 | who disconnects is gone with its tokens and its key; other keys resolve as before |
| `ServerAnswers.HelloExactly` | crates/server/src/state.rs:442-473 | a hello is accepted exactly for a known token, from its session's IP, while its client is registered; its address replaces the old one |
| `ServerAnswers.SameSourceExactly` | crates/server/src/state.rs:435-448 | a v4-mapped v6 address counts as the v4 address, any other as itself |
| `ServerAnswers.CleanupExactly` | crates/server/src/state.rs:591-623 | a cleanup leaves a channel if and only if it has peers, somebody is in it, it is persistent, or it is no older than the grace |
| `ServerAnswers.TokenOutlivesExactly` | crates/server/src/state.rs:624-641 | a cleanup keeps a token if and only if its channel is not removed and its client is in it or the token is younger than the ttl |
| `ServerAnswers.SetPubkeyExactly` | crates/server/src/state.rs:159-171 | after a registered client binds a key the key resolves to it, its old one to nobody, others as before |
| `ServerAnswers.RenameExactly` | crates/server/src/state.rs:558-568 | a rename changes one name |
| `ServerAnswers.RunWithinLimits` | crates/server/src/state.rs:32-40 | in every reachable state clients and channels are within the limits |
| `ServerAnswers.CounterExactly` | crates/server/src/state.rs:145-146 | the number behind names grows by one with every registration that succeeds |
| `ChannelKeys.ApplyKeysExactly` | crates/server/src/state.rs:274-336 | after any operation everyone in an existing channel was handed the key it has, if and only if the operation does not create a channel anew, with another key, under members who stayed |
| `ChannelKeys.RunKeysExactly` | crates/server/src/state.rs:140-643 | over any run, at every instant, if and only if no operation of the run does that |
| `ChannelKeys.SomeoneDivided` | crates/server/src/state.rs:215-245 | a run that does |
| `ChannelKeys.OrdinaryKeyIsDrawnOnce` | crates/server/src/state.rs:234-245 | from the operation that created it on, while it exists, a channel that is not persistent has the key drawn then |
| `ServerRuns.ReachableInvariant` | crates/server/src/state.rs:140-643 | so it holds in every reachable state |
| `ServerRuns.CleanupRevokesNothing` | crates/server/src/state.rs:624-641 | in every reachable state a cleanup revokes no token |
| `ServerRuns.HelloReaches` | crates/server/src/state.rs:442-495 | in every reachable state a client's own token is accepted from its own IP, and if its channel exists every other member's relay then finds it |
| `Stranded.ApplyStrandsExactly` | crates/server/src/state.rs:140-643 | after any of the eleven operations every client's channel still exists if and only if it is not a leave or disconnect that takes the last UDP address out of a non-persistent channel someone else is in |
| `Stranded.RunStrandsExactly` | crates/server/src/state.rs:140-643 | over any run, at every instant, if and only if no operation of the run does that |
| `Stranded.LeaveStrandsExactly` | crates/server/src/state.rs:392-424 | leaving keeps every remaining client's channel in existence if and only if it does not take the last UDP address out of a non-persistent channel someone else is in |
| `Stranded.RemoveStrandsExactly` | crates/server/src/state.rs:179-211 | the same for a disconnect |
| `Stranded.SomeoneStranded` | crates/server/src/state.rs:406-417 | a run of six operations after which a client is in a channel that does not exist |
| `Relay.RelayReadsOneInstant` | crates/server/src/state.rs:478-492 | a relay's two loads, with any operations in between, return the channel's set at one instant between them, minus the sender |
| `Relay.CellHolds` | crates/server/src/state.rs:478-532 | a loaded cell holds, at every later instant, the channel's set at some instant since |
| `Relay.ApplyStable` | crates/server/src/state.rs:497-532 | no operation writes a cell that only old readers hold, and none takes a cell from its channel without freezing it |
| `ServerStates.ServerState.RegisterClient` | crates/server/src/state.rs:140-157 | registration in place, the limit included |
| `ServerStates.ServerState.SetPubkey` | crates/server/src/state.rs:161-171 | last writer wins; a client's previous key leaves the index |
| `ServerStates.ServerState.RemoveClient` | crates/server/src/state.rs:179-211 | a disconnect in place |
| `ServerStates.ServerState.CreateChannel` | crates/server/src/state.rs:215-245 | creation in place, limit and taken names refused |
| `ServerStates.ServerState.JoinChannel` | crates/server/src/state.rs:274-336 | a join in place: error order, key rotation, token |
| `ServerStates.ServerState.StartEchoTest` | crates/server/src/state.rs:343-389 | an echo test in place |
| `ServerStates.ServerState.LeaveChannel` | crates/server/src/state.rs:392-424 | a leave in place |
| `ServerStates.ServerState.RegisterUdpByToken` | crates/server/src/state.rs:442-473 | a hello in place: unknown token, wrong IP, vanished client, rebinding |
| `ServerStates.ServerState.UpdateChannelPeers` | crates/server/src/state.rs:497-520 | the cache gains exactly this channel's current set |
| `ServerStates.ServerState.RemoveChannelFromCache` | crates/server/src/state.rs:524-532 | the cache loses exactly this channel |
| `ServerStates.ServerState.FillChannelPeers` | crates/server/src/state.rs:478-492 | the uninterrupted read is the cached set minus the sender |
| `ServerStates.ServerState.CleanupWith` | crates/server/src/state.rs:591-643 | reaping channel by channel and then filtering tokens is one simultaneous cleanup |
| `RateLimit.RateLimiter.CheckNow` | crates/server/src/rate_limit.rs:25-33 | one check of a bucket in place |
| `RateLimit.RateLimiter.Refill` | crates/server/src/rate_limit.rs:35-40 | the refill in place, capped at the burst |
| `RateLimit.IpRateLimiter.TrackIp` | crates/server/src/rate_limit.rs:74-83 | a connection in place: a fresh full bucket only for an unknown IP |
| `RateLimit.IpRateLimiter.UntrackIp` | crates/server/src/rate_limit.rs:88-94 | a disconnect in place |
| `RateLimit.IpRateLimiter.CheckNow` | crates/server/src/rate_limit.rs:99-109 | a check updates the IP's own limiter in place; unknown IPs are allowed |
| `RateLimit.IpRateLimiter.SweepIdle` | crates/server/src/rate_limit.rs:113-119 | the retain loop is the sweep, and how many entries it dropped |
| `RateLimit.IpRateLimiter.Put` | crates/server/src/rate_limit.rs:58-62 | no two IPs ever share a limiter, so one IP's update leaves the others alone |
| `RateLimitRuns.SweepingUnobservable` | crates/server/src/rate_limit.rs:74-119 | for IPs checked only while tracked and ttl x rate >= burst, every answer of every run is that of a limiter that never forgets |
| `RateLimitRuns.StepSimulates` | crates/server/src/rate_limit.rs:74-119 | one operation answers alike on both and keeps them corresponding |
| `RateLimitRuns.ConnectionsCounted` | crates/server/src/rate_limit.rs:74-94 | in every run an IP is counted exactly as often as it is connected, saturating at 32 bits, whatever is checked and swept in between; so nobody connected is forgotten |
| `RateLimitRuns.UnknownIsAllowed` | crates/server/src/rate_limit.rs:97-109 | an IP the limiter does not know is never refused |
| `RateLimitRuns.WindowBound` | crates/server/src/rate_limit.rs:25-40 | in any window [s, t] of any run whose checks are of tracked IPs and whose sweeps satisfy ttl x rate >= burst, at most burst + rate x (t - s) checks of one IP succeed |
| `RateLimitRuns.AdmittedBounded` | crates/server/src/rate_limit.rs:25-40 | the same of a limiter that never forgets, from the tokens at hand at the start of the window |
| `RateLimitRuns.ServerSweepsLate` | crates/shared/src/config.rs:313-318 | the server's own rates and TTL satisfy the condition for every multiplier |
| `RateLimitSweeps.UnobservableExactly` | crates/server/src/rate_limit.rs:74-119 | for every policy and ttl: no run with checks of tracked IPs only can tell the sweep, if and only if ttl x rate >= burst or the burst is below one |
| `RateLimitSweeps.EarlySweepShows` | crates/server/src/rate_limit.rs:113-119 | for every policy with burst >= 1 and every ttl with ttl x rate < burst, a run that can |
| `RateLimitSweeps.TellApart` | crates/server/src/rate_limit.rs:25-40 | two buckets of different content are told apart by checks alone |
| `Framing.ToBe` | crates/shared/src/protocol.rs:267-270 | the four length bytes read back as the length |
| `Framing.TryDecode` | crates/shared/src/protocol.rs:283-296 | a decoded frame consumes its header and its payload, which is within the limit |
| `Framing.RoundTripExact` | crates/shared/src/protocol.rs:265-296 | an encoded payload decodes to itself if and only if it is within the frame limit |
| `Framing.DecodeEncoded` | crates/shared/src/protocol.rs:265-296 | also with more bytes behind it |
| `Framing.ExtractFrames` | crates/shared/src/protocol.rs:306-319 | the loop returns the recursive extraction and its rest, and nothing when a header is too large |
| `Framing.ExtractResumes` | crates/shared/src/protocol.rs:306-319 | extracting, then extracting the rest with more bytes, is extracting everything at once |
| `Framing.RestIsShort` | crates/shared/src/protocol.rs:306-319 | what stays pending is less than one frame |
| `Framing.Reader.OnRead` | crates/server/src/tcp.rs:235-260 | one read in place: accumulate, overflow check, extract |
| `Framing.ChunkingIndependent` | crates/server/src/tcp.rs:235-260 | a stream without an oversized header leaves the connection where one read of everything would, however it is split; one with such a header closes it after a prefix of the frames in front; reads of up to 65533 bytes never overflow |
| `Framing.DeliveredExactly` | crates/server/src/tcp.rs:235-260 | for any bytes in any split: delivered are exactly the frames of the reads before the one that completes an oversized header, and the connection is open exactly when there is none |
| `Framing.GoodReadsIsLongest` | crates/shared/src/protocol.rs:306-319 | those reads are the longest prefix that extracts well |
| `Framing.SplitDecides` | crates/shared/src/protocol.rs:306-319 | eight bytes that deliver nothing in one read and a frame in two |
| `Framing.PayloadsDelivered` | crates/server/src/tcp.rs:235-260 | any split of a concatenation of encoded payloads within the limit delivers exactly those, in order, and keeps nothing |
| `Framing.OverflowExactly` | crates/server/src/tcp.rs:246-251 | a reader can overflow if and only if it may be handed more than 65533 bytes at a time; the server hands it 8192 |
| `Framing.PendingBound` | crates/shared/src/config.rs:33 | pending bytes before extraction never exceed MAX_FRAME_SIZE + 3 + TCP_READ_BUF |
| `Vad.RotatedPush` | crates/client/src/voice.rs:779-789 | pushing onto the pre-roll ring keeps the newest five frames, oldest first |
| `Vad.VadPreroll.Push` | crates/client/src/voice.rs:779-789 | in place |
| `Vad.VadPreroll.Drain` | crates/client/src/voice.rs:792-800 | the frames oldest first, then empty |
| `Vad.CaptureLoop.IsLoud` | crates/client/src/voice.rs:809-810 | the sum of squares decides loudness |
| `Vad.LoudExtremes` | crates/client/src/voice.rs:804-812 | a frame whose every sample reaches a positive threshold is loud, one whose every sample stays below it is not, and without a threshold every frame is |
| `Vad.CaptureLoop.PassGate` | crates/client/src/voice.rs:804-819 | the gate with its hangover |
| `Vad.CaptureLoop.OnFrame` | crates/client/src/voice.rs:657-719 | one captured frame in place is the step of the gate |
| `Vad.CaptureLoop.SendAll` | crates/client/src/voice.rs:669-719 | frames go out in order under consecutive numbers |
| `VadRuns.SentExactlyWanted` | crates/client/src/voice.rs:657-719 | with a fixed threshold, frame i is sent iff a loud frame lies in [i - hangover, i + pre-roll]: once, in capture order, numbered consecutively from 1 |
| `VadRuns.TracksStep` | crates/client/src/voice.rs:804-819 | each frame keeps hangover, pre-roll, sent frames and number determined by the loudness so far |
| `VadRuns.WantedStep` | crates/client/src/voice.rs:657-719 | what one more frame changes about the frames before it |
| `VadRuns.HeldBack` | crates/client/src/voice.rs:762-800 | the frames held back are unwanted so far, and those before them within reach are wanted already |
| `Levels.LiveLevels.Snapshot` | crates/client/src/level.rs:79-97 | the slot-by-slot copy over a reused buffer is the current list |
| `Levels.LiveLevels.SetOwn` | crates/client/src/level.rs:100-105 | the version moves exactly when our own level changed |
| `Levels.LiveLevels.Clear` | crates/client/src/level.rs:109-112 | everything is silent, and the version moved by what changed |
| `Levels.LiveLevels.PublishPeers` | crates/client/src/level.rs:117-149 | one publication in place is the specification's |
| `Levels.LiveLevels.NoteOne` | crates/client/src/level.rs:125-140 | one level found or pushed, and whether it changed anything |
| `Levels.PublishShows` | crates/client/src/level.rs:114-149 | after a publication each name shows the level last published under it, and no other name remains |
| `Levels.ChangedExact` | crates/client/src/level.rs:117-149 | no version step means nothing changed; with distinct names, a version step means something did |
| `LevelRuns.NoMissedUpdate` | crates/client/src/level.rs:75-97 | if a completed snapshot returned v and the version is still v with no writer mid-operation, the copy equals the current levels, in every interleaving of any number of writers |
| `LevelRuns.VersionCountsChanges` | crates/client/src/level.rs:46-48 | between two instants with no writer mid-operation the version moves by exactly the number of changes |
| `LevelRuns.ChangesCounted` | crates/client/src/level.rs:100-149 | version plus bumps owed counts the changes at every instant |
| `LevelRuns.PeersDistinct` | crates/client/src/level.rs:117-149 | names stay distinct in every reachable board |

## Left out

- Codec, denoiser, encryption, sockets and devices: whether a decoded frame is quiet, whether an FEC decode succeeds and what a frame sounds like are inputs.
- Floating-point rounding: samples, gains, jitter, tokens and times are reals; RMS is compared with the threshold through squares; the loss percentage is the integer quotient.
- The output limiter and the resampled device rates.
- Threads inside one step: a pump, a callback, a server operation under its lock and a limiter call are atomic, and memory is sequentially consistent. `LevelRuns` and `Relay` split the steps that readers can see between.
- PlayoutEngines.PlayoutEngine.RenderFrame: each sender's stream is a value in the map, not a shared mutable object; `SenderStreams.SenderStream` is its in-place form, but the two are not composed through the heap.
- Pumps.PlayoutPump.Pump: the decoders' answers and the decoded frames are given turn by turn; the engine's streams are values, as in `PlayoutEngines`. The two branches are two methods.
- Lead.LeadKeptExactly: about lists of renders as long as the announced pull; `PumpLead.PumpKeepsLead` is the statement about one pump, and `LeadRuns.LeadLostOverPumps` a run of several that breaks it.
- RateLimitRuns.WindowBound: runs that check an IP without a connection, or sweep too early, are not bounded, because such checks are always allowed and such sweeps refill early.
- Playback.PlaybackQueue.TrimTo: the deque is a sequence field, so its capacity and allocation are not modelled.
- NetworkStats: the 32-bit width of the counters, which a window bound of 150 keeps out of reach, and the quality tier derived from the loss.
- Engine: counters of late packets and per-sender diagnostics.
- ServerInvariants.ApplyCoherent: creating a persistent channel takes the lock twice in the code; the model makes it one step, before anyone is in the channel, as at startup. A TCP address registers once, and drawn tokens and ids are not in use.
- ServerStates.ServerState.FillChannelPeers: peers are a set; the order of the vector and the reuse of its storage are not modelled. Participant names returned by a join, broadcasts, renames' answers and metrics are not modelled either.
- ServerRuns.ApplyIndex: the index is sound but not complete; after a reconnect a key may be missing from it.
- ServerRuns.HelloReaches: only promises delivery while the channel exists; `Stranded` says when it does not.
- RateLimitRuns.SweepingUnobservable: reclaimed memory and lock poisoning.
- Framing.Reader.OnRead: what is done with each frame, the idle timeout and end of stream; a read returns at most TCP_READ_BUF bytes.
- Vad.CaptureLoop.OnFrame: paranoid mode, mute, echo and noise processing, and the branches for a failed encode, encryption or send.
- LevelRuns.NoMissedUpdate: the version is unbounded, so a wrap of 64 bits during one snapshot is not modelled; a poisoned mutex neither.
- The user interfaces, settings, identity, invite links, voice packet encodings and the client's own copy of the framing loop.

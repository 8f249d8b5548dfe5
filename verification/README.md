# Reostream's protocol cores, modelled and proved

Reostream bridges Reolink cameras and recorders to ordinary video software. This project models the parts
of it where a mistake is hardest to see and proves what those parts are for:

- **The reliable UDP stream** a battery camera is reached through (`internal/bcudp`). `UdpConn` is the code,
  with 32-bit ids that wrap: the state under the mutex, each critical section as a function of it, and a
  class whose methods update the fields in place. `UdpStream` is the same machine over unbounded packet
  numbers, two ends joined by a network that may lose, repeat, delay and reorder every datagram.
  `UdpSafety` proves its safety over all runs, `UdpProgress` that what gets through is accepted, that resending
  completes and that nothing is ever stuck, `UdpRefinement` that the wrapped code does what the unbounded machine
  does while nothing in flight reaches back more than half a turn. `UdpPacket` and `Bits` cover the packets, the
  cipher and the CRC.
- **The media depacketizer** (`internal/baichuan/media.go`). `Media` and `Nal` are the parser and the class
  around its buffer, `MediaStream` reads any padded packet stream cut anywhere, `MediaPackets` says exactly
  which video packets may be cut anywhere, `MediaFields` reads packets back that are laid out from their fields,
  `MediaLedger` accounts for every byte.
- **Shared recorder connections** (`shared.go`, `pool.go`, the `also` list in `conn.go`). `Shared` and `Pool`
  are the classes, `SharedRuns` and `PoolRuns` every interleaving of their critical sections. `PoolReaders` says
  what a returned reader is worth, `PoolStreams` when a stream is on one connection, `PoolProgress` that logins end.
  `SharedMedia` ties demux's tests to the packets, `SharedQueues` bounds the readers' queues.
- **The ADPCM codec** (`internal/adpcm`): `Adpcm` on samples and states, `AdpcmLadder` on the ladder of steps,
  `AdpcmBlocks` on blocks, streams and the encoder object.
- **Message framing and ciphers**: `Framing`, `FramingErrors` for broken streams, `Ciphers`. `MediaPath` follows a
  packet from the writer through reader and depacketizer.
- **Editing the config text**: `ConfigScan`, `ConfigLines`, `ConfigBlocks`, `ConfigLayout`, `ConfigUndo`, `ConfigEdit`,
  `ConfigOrders`, `ConfigSaves`, `ConfigTables`, `ConfigAppends`, `ConfigRemoves`, and `ConfigCases` for literal
  files.
- **Alarm events** over whole runs of the watch loop: `Alarms`.

`Bytes`, `Wrappers`, `Lists` and `Text` hold what these share. `dafny verify dfyconfig.toml` checks everything.

## What the proofs found

- `Write` on the UDP connection counts only the chunks before one the socket refuses, but the refused chunk
  stays queued and is resent (`UdpConn.WriteCountIffAllTaken`): a caller that retries from the count queues it
  twice (`UdpConn.RetryRepeatsChunk`).
- Without the half-turn window a stale packet can be appended again (`UdpRefinement.StaleTurnAppended`). Which late
  packets change nothing is an if-and-only-if (`UdpRefinement.LateIsHarmlessIff`).
- Under AES, media that its own extension declares encrypted is read back changed, since `WriteMedia` sends it plain
  (`Framing.MediaComesBackChanged`). `Framing.ReadBackIff` has the exact guard.
- A connection that ends after the first 20 bytes of a 24-byte header reads as a plain end, like one that ends between
  messages; every other cut is told as one (`FramingErrors.CutFrame`).
- A video packet whose picture is hardly longer than its metadata can be cut into an early frame by an unlucky
  message boundary. Which packets are safe is an if-and-only-if (`MediaPackets.VideoCutsAlikeIff`), and without start
  codes in the metadata one comparison: six bytes longer for HEVC, mostly five for H.264
  (`MediaPackets.CleanExposedIff`).
- The ADPCM error is at most an eighth of the step and two for samples within twice the step, except at exactly
  twice a step that is 7 modulo 8, where it is one more (`Adpcm.QuantiserBound`, `Adpcm.FarthestIsReached`). Slope
  overload lasts at most eleven samples, and eleven is reached (`Adpcm.OverloadIsShort`, `Adpcm.OverloadOfEleven`).
- Transcoding keeps the codes exactly when no code aims past the clamp by more than the rounding term and none is a
  clamped negative zero at the floor (`Adpcm.TranscodeIff`). A clamped code can come back as another sound
  (`Adpcm.ClampedDrifts`), or as another code with the same sound: `Adpcm.HeardAlikeIff` is exact for the sound
  and the state it leaves.
- A pool does not keep a stream on one connection, whatever its limit is below the 768 streams a recorder can tell
  apart (`PoolStreams.DoubledInSomeRunIff`). It does in exactly the runs in which no login publishes a stream that a
  published connection carries by then (`PoolStreams.OneConnectionIff`).
- Open can return a reader that has ended, on a connection idle has closed: a new connection is open to the network
  between its first subscription and the return (`PoolReaders.ReturnedOnIdled`, `PoolReaders.OpenedReturnsGoodIff`).
  A reader got from a connection already in the pool is always good (`PoolReaders.JoinReturnsGood`).
- In `findCameraBlock` each later header moves the end of the camera block before it, so a table that stands
  between two cameras belongs to the first, while the last camera's block is cut before the file's last table.
  Reordering can then be undone for one order when a table ends the file, or when the camera asked for last has none
  below it and the text ends outside a string or that camera is the last already; and it cannot when not
  (`ConfigOrders.UndoneForOrderIff`). It can for every order when a table ends the file, or when none comes after the
  first camera and the text ends outside a string or there is but one camera, and else not
  (`ConfigOrders.UndoneIff`). Both exclude only that a string left open at the end is ended by a line of another block.
  Saving a camera with a block that ends outside strings keeps every table exactly when the old block held none
  (`ConfigTables.UpsertKeepsTablesIff`). Removing a camera that nothing follows takes the last table of the one above
  out of its block; all the others are found as before (`ConfigRemoves.RemoveKeepsOthers`). `ConfigCases` has a
  five-line file where all three go wrong.
- The same scan counts the marks of long strings wherever they stand in a line, so a password holding `'''`,
  which is valid TOML, leaves it inside a string. Saving such a camera can hide the cameras below it from the form,
  and saving it again deletes them (`ConfigCases.CameraDeleted`), as does removing it (`ConfigCases.HiddenIsDeleted`).
  Moving such a camera up from the end of a file without any table is not undone by moving it back, because the camera
  below is no longer found (`ConfigCases.LastNotRestored`). `ConfigSaves.UpsertTwiceIff` and
  `ConfigSaves.SavedIsFoundIff` say when saving again is safe, `ConfigAppends.UpsertNewTwiceIff` when it is for a
  camera the file did not have.
- A late ack can make the sender forget a packet that never arrived, but only from half a turn back
  (`UdpRefinement.LateAckForgetsIff`, `UdpRefinement.StaleAckForgets`).
- An AI type that normalises to the word motion makes the alarm changes repeat themselves
  (`Alarms.MotionTypeRepeats`); exactly when is `Alarms.RunAlternatesIff`. A lost connection leaves nothing on
  in any case (`Alarms.LostLeavesNothing`).

## Model

| member | source | states |
|---|---|---|
| UdpSafety.RunIsSafe | internal/bcudp/conn.go:214-405 | over every run with loss, repetition and reordering, each end has accepted a prefix of everything the other end's Writes queued, and the protocol invariant holds both ways |
| UdpSafety.DataKeeps | internal/bcudp/conn.go:225-245 | a data packet that was really sent, delivered at any time and any number of times, keeps the receiver's bytes the concatenation of the packets before its gap |
| UdpSafety.AckExact | internal/bcudp/conn.go:284-304 | an ack names exactly the packets the receiver holds |
| UdpSafety.AckKeeps | internal/bcudp/conn.go:246-264 | any ack that was ever sent, however stale, removes only packets the receiver holds, so every sent packet is unacked or held |
| UdpProgress.AwaitedIsUnacked | internal/bcudp/conn.go:246-264 | while data is outstanding the packet the receiver waits for is still in the sender's unacked map |
| UdpProgress.DeliveredIsHeld | internal/bcudp/conn.go:225-245 | a packet less than the window past the gap is held once delivered, and what is held stays held |
| UdpProgress.ThroughIsAccepted | internal/bcudp/conn.go:225-245 | over any run, whatever else either end does in it, if every packet from the gap up to at most a window on is held or gets through once, the gap moves past all of them |
| UdpProgress.TickSendsOverdue | internal/bcudp/conn.go:306-342 | a tick sends every packet overdue at it and counts that packet's delay from then on, each packet by its own stamp |
| UdpProgress.RoundAdvances | internal/bcudp/conn.go:306-342 | a round, any stretch of a run in which each awaited unacked packet is resent at a tick of its own and one copy gets through, moves the receiver on by a whole window or to the end of what was queued |
| UdpProgress.RoundsComplete | internal/bcudp/conn.go:306-342 | k rounds, with anything at all before and between them, carry at least k windows, so enough rounds carry all that was queued at the start |
| UdpProgress.CanAlwaysFinish | internal/bcudp/conn.go:214-342 | from every reachable state in which the sender has not failed, and from any time on, some run whose clock is never turned back delivers all it has queued |
| UdpProgress.LastAckClears | internal/bcudp/conn.go:284-304 | once all has arrived, the next ack, however late, empties the unacked map |
| UdpRefinement.Serial | internal/bcudp/conn.go:225-227 | within half a turn the signed 32-bit comparison is the order of the unbounded numbers |
| UdpRefinement.BeforeIffInWindow | internal/bcudp/conn.go:225-227 | the comparison agrees with the numbers exactly when the packets lie in the half-turn window |
| UdpRefinement.StepRefines | internal/bcudp/conn.go:214-405 | every step of the unbounded machine within the window is a step of the wrapped code, on its real datagrams, to a corresponding state |
| UdpRefinement.OrderLifts | internal/bcudp/conn.go:306-342 | every order in which the wrapped code may resend is one the unbounded machine allows, so no tick of the code is missing from its runs |
| UdpRefinement.RealRunIsSafe | internal/bcudp/conn.go:214-405 | end-to-end safety of the wrapped code: what a user has read and what waits in the buffer is a prefix of what the other user's Writes queued, over every windowed run, in which stray datagrams of any bytes may come at any time |
| UdpRefinement.FreshConnsRelate | internal/bcudp/conn.go:166-182 | two new, paired connections are where those runs start |
| UdpRefinement.LateIsHarmlessIff | internal/bcudp/conn.go:225-245 | a packet from before the gap, however old, changes nothing exactly when it compares as past, lies outside the receive window or takes a place already kept |
| UdpRefinement.StaleTurnAppended | internal/bcudp/conn.go:225-231 | outside the window the property fails: a packet a whole turn late is appended again, whatever is kept ahead |
| UdpRefinement.LateAckForgetsIff | internal/bcudp/conn.go:246-264 | a late ack makes the sender forget a packet the receiver lacks exactly when it is from half a turn or more before the packet and its order or a wrapped offset reads as naming it |
| UdpRefinement.StaleAckForgets | internal/bcudp/conn.go:246-264 | such an ack: the very first one, delivered when a packet half a turn to a turn on is unacked, makes the sender forget it |
| UdpConn.DataKeepsWindow | internal/bcudp/conn.go:225-245 | after any data packet every kept packet lies strictly between the gap and the window's end |
| UdpConn.IgnoredIff | internal/bcudp/conn.go:214-281 | from any state, a datagram that by its words is for another connection, cut short, overrun by its own length, damaged or of no kind, and a discovery packet that does not parse, changes nothing; every other is heard |
| UdpConn.ReadsInOrder | internal/bcudp/conn.go:346-381 | reads of any sizes hand out the buffered bytes in order, as many as fit, whatever error has come; only then the error, and without one they wait |
| UdpConn.WriteCountIffAllTaken | internal/bcudp/conn.go:385-405 | the count Write returns is what it queued exactly when the socket took every chunk |
| UdpConn.RetryRepeatsChunk | internal/bcudp/conn.go:385-405 | a caller that retries from the count queues the refused chunk a second time |
| UdpConn.Conn.Handle | internal/bcudp/conn.go:214-281 | one datagram changes the connection as its magic says, and a packet for another connection or cut short changes nothing |
| UdpConn.Conn.HandleData | internal/bcudp/conn.go:225-245 | the data case in place, draining the packets kept ahead |
| UdpConn.Conn.HandleAck | internal/bcudp/conn.go:246-264 | the ack case in place: deletes exactly the packets the ack names, over any order of the map |
| UdpConn.Conn.AckLocked | internal/bcudp/conn.go:284-304 | builds the ack of the current state, its list ending at the farthest packet kept |
| UdpConn.Conn.TimerTurn | internal/bcudp/conn.go:306-342 | one turn of the timer: the ack, each overdue packet once and restamped, the silence limit, and the heartbeat when a second has passed since the last |
| UdpConn.Conn.Write | internal/bcudp/conn.go:385-405 | splits, numbers, queues and sends, stopping at the chunk the socket refuses |
| UdpConn.Conn.Read | internal/bcudp/conn.go:346-381 | hands out buffered bytes before any error |
| UdpPacket.DataRoundTrip | internal/bcudp/packet.go:95-118 | decoding inverts encoding for every data packet |
| UdpPacket.AckRoundTrip | internal/bcudp/packet.go:127-152 | decoding inverts encoding for every ack |
| UdpPacket.CryptInvolution | internal/bcudp/packet.go:42-52 | the discovery cipher is its own inverse under every tid |
| UdpPacket.CryptAt | internal/bcudp/packet.go:36-52 | each byte meets its byte of the table's words plus the tid, little endian, cycling after eight words |
| UdpPacket.DiscoveryWords | internal/bcudp/packet.go:60-70 | which field stands in which word of a discovery packet |
| UdpPacket.DataWords | internal/bcudp/packet.go:95-103 | the same for a data packet |
| UdpPacket.AckPacketWords | internal/bcudp/packet.go:127-136 | and for an ack |
| UdpPacket.DiscoveryRoundTrip | internal/bcudp/packet.go:60-87 | decoding inverts encoding for every tid and body |
| UdpPacket.DecodeFramed | internal/bcudp/packet.go:73-87 | a framed packet decodes exactly when its header's checksum is its body's |
| UdpPacket.DamagedDiscoveryRefused | internal/bcudp/packet.go:73-87 | a packet whose body was changed within four consecutive bytes, one byte included, is refused |
| UdpPacket.WriteData | internal/bcudp/packet.go:95-103 | fills the packet buffer in place to the packet's bytes |
| UdpPacket.WriteAck | internal/bcudp/packet.go:127-136 | fills the ack buffer in place to the ack's bytes |
| UdpPacket.CryptInto | internal/bcudp/packet.go:42-52 | fills the output with the body under the keystream, cycling after 32 bytes |
| UdpPacket.WriteDiscovery | internal/bcudp/packet.go:60-70 | encrypts, sums and frames a discovery body |
| Bits.ChecksumDetectsBurst | internal/bcudp/packet.go:55-57 | any change within four consecutive bytes changes this CRC-32, from its linearity and injective byte step |
| Bits.PolyIsStandard | internal/bcudp/packet.go:55-57 | its polynomial is that of section 3.2.9 of IEEE 802.3, reflected |
| MediaStream.FeedStream | internal/baichuan/media.go:399-533 | a padded packet stream gives the same frames and leaves the same buffer however it is cut into continuation messages |
| MediaStream.StreamIsRead | internal/baichuan/media.go:232-247 | any packets, each after at most seven zero bytes, followed by filler, come out as exactly their frames in order, cut anywhere |
| MediaPackets.AudioFramed | internal/baichuan/media.go:399-517 | an audio packet is taken whole whatever follows it and waited for at every length before |
| MediaPackets.InfoFramed | internal/baichuan/media.go:399-517 | the same for an info packet |
| MediaPackets.VideoWhole | internal/baichuan/media.go:318-351 | a complete video packet whose declared metadata length checks out is taken as declared, whatever follows |
| MediaPackets.VideoPart | internal/baichuan/media.go:318-375 | an incomplete one is waited for, except at the lengths where it is exposed |
| MediaPackets.VideoCutsAlikeIff | internal/baichuan/media.go:318-375 | cutting a video packet anywhere makes no difference exactly when no length exposes it |
| MediaPackets.LongPictureIsSafe | internal/baichuan/media.go:318-375 | a picture at least six bytes longer than the metadata is never exposed |
| MediaPackets.CleanExposedIff | internal/baichuan/media.go:318-375 | with no start code in the metadata a packet of any codec is exposed exactly when the picture is not longer than the metadata by what the search needs to see of it: six bytes for HEVC, five for H.264 or six before a sequence parameter set, four for the rest, and six where the search does not reach that far |
| MediaPackets.SmallPictureCutEarly | internal/baichuan/media.go:360-375 | a concrete packet below it gives an early frame |
| MediaPackets.TalkPacketReadBack | internal/baichuan/talk.go:103-117 | what TalkPacket writes is read back as one ADPCM frame holding the block |
| MediaFields.VideoReadBack | internal/baichuan/media.go:401-465 | a packet laid out from channel, kind, codec, time, metadata and picture is read back as just those fields, whatever follows it |
| MediaFields.VideoCutsAlike | internal/baichuan/media.go:401-465 | and cut into messages anywhere, when the picture is six bytes longer than the metadata |
| MediaFields.SearchedReadBack | internal/baichuan/media.go:153-170 | with a metadata length that cannot be, the picture is found by the first start code the codec's search accepts, an I frame's by its parameter sets, and the fields are the same |
| MediaFields.InfoReadBack | internal/baichuan/media.go:477-497 | an info packet laid out from width, height and rate is read back as those |
| MediaFields.ShortInfoReadBack | internal/baichuan/media.go:477-497 | a shorter one has a size only with both words and no rate |
| MediaFields.AudioReadBack | internal/baichuan/media.go:465-476 | an audio packet of either kind is read back with its sound |
| MediaFields.MagicIff | internal/baichuan/media.go:381-396 | the first four bytes of those layouts are all that begin a packet, and no two kinds share them |
| MediaFields.BadLengthSkipped | internal/baichuan/media.go:420-425 | a length no packet has costs one skipped byte |
| MediaFields.OnlyPackets | internal/baichuan/media.go:399-533 | nothing else is skipped as one, and only packets are given out |
| MediaFields.HevcHeaderIff | internal/baichuan/media.go:46-53 | which type, layer and temporal id make an HEVC unit that the search accepts |
| MediaFields.H264HeaderIff | internal/baichuan/media.go:100-131 | which reference count, type and profile make an H.264 unit, and which begin a keyframe |
| MediaFields.CapturedMetadataRefused | internal/baichuan/media.go:80-98 | the metadata that once ended the search is refused |
| MediaLedger.BytesConserved | internal/baichuan/media.go:232-257 | over every sequence of calls, bytes written are bytes in frames, cut packets, padding, skipped and still buffered, and lost and gap count the cut packets |
| MediaLedger.NextConserves | internal/baichuan/media.go:399-538 | Next only moves bytes between buffer and counters and takes out the packet it returns |
| Media.Depacketizer.Write | internal/baichuan/media.go:232-247 | appends, or starts over, counting a cut-short video packet as lost |
| Media.Depacketizer.Next | internal/baichuan/media.go:399-517 | the frame and the buffer the specification gives, every pass shrinking the buffer |
| Media.Search | internal/baichuan/media.go:360-375 | the search for the first NAL unit within 4096 bytes |
| Media.PadBeforePacket | internal/baichuan/media.go:521-533 | counts one to seven zero bytes before a packet magic |
| Nal.FirstHitIsFirst | internal/baichuan/media.go:31-171 | the first hit of a NAL search is one, and nothing before it is |
| Nal.Find | internal/baichuan/media.go:31-171 | the search loops return the first hit or minus one |
| SharedRuns.RunKeepsInv | internal/baichuan/shared.go:135-365 | every interleaving of subscribing, leaving, routing, delivering, dropping, ending and closing keeps the invariant |
| SharedRuns.EachStartStoppedOnce | internal/baichuan/shared.go:135-206 | in every run ended by closing, the stop requests are exactly the start requests, each once, with distinct handles |
| SharedRuns.OpenListIsPreviews | internal/baichuan/conn.go:436-468 | while a shared connection is open its list of extra streams is exactly its previews, and each has a reader |
| SharedRuns.LateJoinerLog | internal/baichuan/shared.go:135-279 | in every run, whether it still reads, was dropped or lost its connection, unless its user closed it: a late joiner has been sent the stream's last info message before it joined, then status messages only, then every message in order from one on that the depacketizer reads an I frame from, up to the point where it stopped, or to the present |
| SharedRuns.FirstReaderLog | internal/baichuan/shared.go:143-162 | and the reader that started the stream has every message from the first one on, up to such a point |
| SharedRuns.EndedLogFrozen | internal/baichuan/shared.go:304-365 | once a reader's channel is closed, no further run adds to what it was sent or changes the reason |
| SharedRuns.JoinLogShape | internal/baichuan/shared.go:239-279 | the shape of what the keyframe gate lets through |
| Shared.KeyframeIff | internal/baichuan/shared.go:257 | demux takes a message for a keyframe exactly when the depacketizer reads an I frame of channel 0 from it |
| SharedMedia.VideoAtGate | internal/baichuan/shared.go:252-273 | a message that starts a video packet laid out from its fields opens the gate exactly when that is an I frame of channel 0 |
| SharedMedia.OthersAtGate | internal/baichuan/shared.go:252-273 | one that starts an info packet is given to a waiting reader, and one that starts sound is not |
| SharedMedia.MiddleAtGate | internal/baichuan/shared.go:252-273 | a message that does not start a packet is neither keyframe nor, unless empty, status |
| SharedMedia.EchoHasKey | internal/baichuan/header.go:129-134 | messages that echo a request's encryption offset have the key of the stream it asked for, whatever the counter |
| SharedQueues.QueuesInRun | internal/baichuan/shared.go:334-365 | in every run a reader has at most 256 messages queued, the last of its log, and on an open connection can have ended only because it stalled |
| SharedRuns.NoUseAfterClose | internal/baichuan/shared.go:334-365 | no run sends on a closed channel or closes one twice |
| Shared.Conn.StopVideoOn | internal/baichuan/conn.go:458-468 | the first such stream leaves the list and a stop goes out |
| Shared.Conn.Close | internal/baichuan/conn.go:733-751 | the first Close stops every stream still listed |
| Shared.SharedConn.Subscribe | internal/baichuan/shared.go:135-162 | refuses on a closed connection, starts a stream nobody reads, hands a late joiner the info message |
| Shared.SharedConn.Unsubscribe | internal/baichuan/shared.go:165-184 | removes the reader, stops a stream with none left, reports an idle connection |
| Shared.SharedConn.Route | internal/baichuan/shared.go:239-279 | the readers a message goes to, and the gates it opens, over any order of the readers |
| Shared.SharedConn.EndConnection | internal/baichuan/shared.go:281-302 | the end of the connection takes every reader off it |
| Shared.SharedConn.CloseIfIdle | internal/baichuan/shared.go:188-198 | closes exactly an open connection with nothing on it |
| PoolRuns.RunKeepsInv | internal/baichuan/pool.go:81-222 | every interleaving of concurrent Opens with readers leaving, connections ending and idle closing keeps the invariant |
| PoolRuns.NeverOverMax | internal/baichuan/pool.go:104-136 | no connection ever carries more than MaxPreviews streams |
| PoolRuns.OneDialAtATime | internal/baichuan/pool.go:136-152 | at most one call is logging in, and the channel it will close is still open |
| PoolRuns.DialOnlyWhenFull | internal/baichuan/pool.go:104-147 | a login begins only when no published connection has the stream and each was found full under the same lock |
| PoolRuns.WaiterIsWoken | internal/baichuan/pool.go:136-152 | a waiting call is woken already or waits on the login under way, whose end wakes it |
| PoolProgress.OpenerOnlyAdvances | internal/baichuan/pool.go:136-190 | every step of a call that is logging in brings it strictly nearer the end, and no step of anyone else moves it |
| PoolProgress.OpenerIsBounded | internal/baichuan/pool.go:136-190 | over every run such a call makes at most four more steps of its own, and is logging in or has returned throughout |
| PoolProgress.LoginEnds | internal/baichuan/pool.go:136-190 | with the mutex free, at most four steps, all of them the call's own, end its login and close the channel its waiters wait on |
| PoolReaders.JoinReturnsGood | internal/baichuan/pool.go:104-135 | over every run, a reader got from a connection in the pool is listed on it at the return, and the connection is open and not closed by idle |
| PoolReaders.OpenedReturnsGoodIff | internal/baichuan/pool.go:136-190 | a reader on a connection its own call opened is as good at the return exactly when, since its first subscription, it has not left and the connection has not ended |
| PoolReaders.ListedAtEndIff | internal/baichuan/pool.go:136-222 | over any run, a reader is still listed exactly when it was and has neither left nor lost its connection |
| PoolReaders.ReturnedOnIdled | internal/baichuan/pool.go:158-222 | a run from the start, under any limit, in which Open returns a reader on a connection idle has closed |
| PoolRuns.NothingIsLeaked | internal/baichuan/pool.go:158-222 | an open connection with nothing on it always has an idle call or its opener to close or fill it |
| PoolStreams.DoubledInSomeRunIff | internal/baichuan/pool.go:92-190 | some run from the start puts one stream on two published connections exactly when the limit is below 768, the number of streams there are |
| PoolStreams.DoubledStepIff | internal/baichuan/pool.go:92-190 | a stream not yet on two connections comes to be exactly at a publish of it beside a connection that carries it: no join doubles it |
| PoolStreams.OneConnectionIff | internal/baichuan/pool.go:92-190 | over every run, a stream is never on two published connections exactly when no such publish happens |
| PoolRuns.LooksUndisturbed | internal/baichuan/pool.go:107-115 | the interleaved steps, undisturbed, pick the first connection that carries the stream |
| PoolRuns.RoomsUndisturbed | internal/baichuan/pool.go:116-123 | and otherwise the first with room |
| PoolRuns.JoinAnswers | internal/baichuan/pool.go:124-131 | a call fails at the connection it picked only when the stream had to be started there and could not be, and goes round again when that was closed |
| PoolRuns.WaiterJoins | internal/baichuan/pool.go:132-141 | a woken waiter that finds a connection with room gets its reader there |
| PoolRuns.IdleTakesOut | internal/baichuan/pool.go:208-222 | idle takes a connection out of the group exactly when it closes it |
| PoolRuns.CameraDialsAlone | internal/baichuan/pool.go:98-101 | once a login has found a camera, in every run calls dial for themselves until one finds a recorder |
| PoolRuns.CameraDialEnds | internal/baichuan/pool.go:191-206 | such a call gets its own connection or an error, and finding a recorder it turns sharing on again |
| Pool.Group.Prune | internal/baichuan/pool.go:104-110 | the group keeps exactly its open connections, in order |
| Pool.Group.Pick | internal/baichuan/pool.go:111-127 | the first connection with the stream, else the first with room, else none because all are full |
| Pool.Group.Locked | internal/baichuan/pool.go:92-147 | Open under its lock: which connection is tried, waited for or dialed, and that no other connection changes |
| Pool.Group.Idle | internal/baichuan/pool.go:208-222 | closes and removes exactly an open connection with nothing on it |
| Adpcm.Step | internal/adpcm/adpcm.go:24-32 | every entry of the ladder is between 7 and 32767, the last being 32767 |
| AdpcmLadder.StepsGrow | internal/adpcm/adpcm.go:24-32 | the steps go up from 7 by a tenth each, to within one, and end in 32767 |
| AdpcmLadder.QuietDescends | internal/adpcm/adpcm.go:35 | any number of codes of the lower four magnitudes take the ladder down a rung each, to the bottom and no further |
| AdpcmLadder.LoudClimbs | internal/adpcm/adpcm.go:35 | the upper four take it up by two, four, six and eight, to the top and no further |
| AdpcmLadder.SampleMoves | internal/adpcm/adpcm.go:58-96 | where a sample takes the ladder, by its distance from the predictor in quarters of the step |
| Adpcm.Magnitude | internal/adpcm/adpcm.go:62-86 | the three-bit search finds the highest of the eight levels not above the difference |
| Adpcm.RoundsDownOnce | internal/adpcm/adpcm.go:62-86 | that level is unique |
| Adpcm.QuantiserBound | internal/adpcm/adpcm.go:58-96 | a sample within twice the step is reproduced to an eighth of the step and two exactly when it is not at twice a step that is 7 modulo 8, and there the error is one more, clamping included |
| Adpcm.FarthestIsReached | internal/adpcm/adpcm.go:58-96 | the first sample of a call can be there |
| Adpcm.OverloadStep | internal/adpcm/adpcm.go:58-96 | an overloaded sample moves the ladder up by eight and the predictor towards it but not to it |
| Adpcm.OverloadIsShort | internal/adpcm/adpcm.go:58-96 | from any state at most eleven consecutive samples are out of reach |
| Adpcm.OverloadOfEleven | internal/adpcm/adpcm.go:58-96 | eleven is reached |
| Adpcm.Lockstep | internal/adpcm/adpcm.go:58-171 | after any number of samples the decoder's state is the encoder's, in range |
| Adpcm.CodeSurvivesIff | internal/adpcm/adpcm.go:58-171 | a decoded sample encodes to the same code exactly when the code settles |
| Adpcm.TranscodeIff | internal/adpcm/adpcm.go:132-220 | re-encoding decoded sound gives the same codes, zero differences counted positive, exactly when every code settles |
| Adpcm.TranscodeIsStable | internal/adpcm/adpcm.go:132-220 | and then the same sound and end state, at every length |
| Adpcm.HeardAlikeIff | internal/adpcm/adpcm.go:58-171 | the code a decoded sample encodes to takes the decoder to the same sound and state exactly when the update is not clamped, or the headroom it had lies within the rounding term above a level on which the index moves alike |
| Adpcm.HeardAlikeThroughout | internal/adpcm/adpcm.go:132-220 | and a run of such codes is heard alike at every length |
| Adpcm.UnclampedSettles | internal/adpcm/adpcm.go:132-220 | a run in which no update is clamped settles |
| Adpcm.ClampedDrifts | internal/adpcm/adpcm.go:132-220 | a clamped one need not |
| AdpcmBlocks.UnpackPack | internal/adpcm/adpcm.go:115-126 | codes packed two to a byte, the first in the high nibble, come back, an odd run with one zero code more |
| AdpcmBlocks.BlockReadBack | internal/adpcm/adpcm.go:103-146 | a block's preamble reads back as the state before it, and its bytes as its codes |
| AdpcmBlocks.AnyPreamble | internal/adpcm/adpcm.go:132-141 | in a block of any bytes the first two are the predictor in two's complement and the third the index, held to the ladder |
| AdpcmBlocks.PaddedAt | internal/adpcm/adpcm.go:103-114 | a block holds the first 1024 samples in order, and silence where there are none |
| AdpcmBlocks.BlocksAreOneStream | internal/adpcm/adpcm.go:103-171 | decoding blocks one by one is decoding one continuous stream of codes |
| AdpcmBlocks.PreamblesChain | internal/adpcm/adpcm.go:103-171 | decoding a block ends in exactly the state the next preamble holds |
| AdpcmBlocks.HeardIsPredicted | internal/adpcm/adpcm.go:178-220 | what a listener hears is the encoder's own predictor, sample by sample |
| AdpcmBlocks.HeardIsNear | internal/adpcm/adpcm.go:178-220 | end to end through encoder, bytes and decoder, a sample within reach is heard within the quantiser bound, exactly |
| AdpcmBlocks.TwelveCatchUp | internal/adpcm/adpcm.go:178-220 | among any twelve consecutive samples one is within reach |
| AdpcmBlocks.Search | internal/adpcm/adpcm.go:66-86 | the encoder's search yields the level and the decoder's own difference |
| AdpcmBlocks.Encoder.EncodeSample | internal/adpcm/adpcm.go:58-96 | the code, and the state the decoder reaches from it |
| AdpcmBlocks.Encoder.EncodeBlock | internal/adpcm/adpcm.go:103-128 | the block in its buffer and the state after a padded or cut input |
| AdpcmBlocks.EncodeStream | internal/adpcm/adpcm.go:178-190 | the whole input packed from silence |
| AdpcmBlocks.DecodeCode | internal/adpcm/adpcm.go:149-168 | one code of either decoder |
| AdpcmBlocks.Decode | internal/adpcm/adpcm.go:132-171 | any block, too short or with an index out of range included |
| AdpcmBlocks.DecodeStream | internal/adpcm/adpcm.go:193-220 | any stream of codes |
| Ciphers.BCInvolution | internal/baichuan/crypto.go:20-28 | the handshake cipher is its own inverse under every offset |
| Ciphers.BCAt | internal/baichuan/crypto.go:12-28 | each byte meets the key's byte at its place plus the offset, and the offset's low byte |
| Ciphers.BCCrypt | internal/baichuan/crypto.go:20-28 | the loop fills the buffer with it |
| Ciphers.DecryptEncrypt | internal/baichuan/crypto.go:41-60 | cipher feedback is inverted over any block function and any length |
| Ciphers.EncryptDecrypt | internal/baichuan/crypto.go:41-60 | and the other way round |
| Ciphers.DecryptPrefix | internal/baichuan/crypto.go:52-60 | decrypting a prefix, cut anywhere, gives a prefix |
| Ciphers.EncryptAt | internal/baichuan/crypto.go:41-49 | every byte meets the recurrence of section 6.3 of NIST SP 800-38A, a partial last block included |
| Framing.HeaderReadBack | internal/baichuan/header.go:86-127 | an encoded header decodes to what the wire carries of it |
| Framing.HeaderWrittenBack | internal/baichuan/header.go:86-127 | a decoded header encodes to the bytes it came from |
| Framing.EncodeHeader | internal/baichuan/header.go:113-127 | the buffer is filled in place |
| Framing.UnsealSeal | internal/baichuan/message.go:206-216 | unsealing undoes sealing under the connection's cipher |
| Framing.FrameReadBack | internal/baichuan/message.go:78-159 | the reader takes exactly one frame off the stream |
| Framing.ReadBackIff | internal/baichuan/message.go:78-312 | a message written by Write, WriteParts or WriteMedia is read back with its header, its own sections and whether it starts a packet exactly when the header can say where they meet and, under AES, the extension declares no media encrypted; for AES exactness is over all block functions |
| Framing.StartsIff | internal/baichuan/message.go:136-156 | a located message starts a media packet exactly when something stands behind a document of it that is no extension or one that declares binary data; all-payload messages never do |
| MediaPath.PacketArrives | internal/baichuan/message.go:78-159 | end to end: a packet that may be cut anywhere, sent in media messages of which only the first is marked as its start, comes out of the reader and the depacketizer as exactly its frame, the buffer left as if nothing had been |
| MediaPath.PictureArrives | internal/baichuan/media.go:399-465 | and a picture laid out from its fields with just those fields |
| FramingErrors.CutFrame | internal/baichuan/message.go:78-105 | a stream that ends inside a frame gives an error and no message, by where it ends |
| FramingErrors.TooLargeRefused | internal/baichuan/message.go:96-98 | a header that announces too much is refused and its body left unread |
| FramingErrors.OffsetRefused | internal/baichuan/message.go:122-133 | so is a payload offset past the body, the frame consumed |
| FramingErrors.MagicRefused | internal/baichuan/header.go:74-82 | and a header without the magic |
| FramingErrors.CameraMedia | internal/baichuan/message.go:107-120 | the camera's own media messages are located, and without a mark continue a packet |
| FramingErrors.VideoHasNoDocuments | internal/baichuan/message.go:134-138 | media is never taken for documents |
| Framing.MediaComesBackChanged | internal/baichuan/message.go:188-312 | otherwise it can be read back changed: a concrete message |
| Framing.SessionReadBack | internal/baichuan/message.go:78-312 | a whole session of such messages, the key changing between them, is read back in order, every section as it was handed over, with nothing left over |
| Framing.SealedHeadReadBack | internal/baichuan/message.go:188-204 | a payload sealed as far as encryptLen says is read back as plaintext |
| Framing.SplitDocumentReadBack | internal/baichuan/message.go:110-135 | when the payload offset falls inside one sealed document, the XML is its first part and WholeXML all of it |
| Framing.Reader.Next | internal/baichuan/message.go:78-159 | every outcome, error cases included, and what is consumed |
| Framing.Writer.Write | internal/baichuan/message.go:297-312 | the bytes put on the wire, or none when the cipher refuses its key |
| Framing.Writer.SendParts | internal/baichuan/message.go:260-273 | the same for a message in two sections |
| ConfigScan.ScanInOrder | internal/control/camform.go:340-369 | the blocks the scan finds are in bounds, in order and disjoint |
| ConfigScan.FindInIsFirst | internal/control/camform.go:371-392 | the block found is the first the decoder gives that name |
| ConfigScan.ScanLines | internal/control/camform.go:340-369 | the scanning loop |
| ConfigScan.FindCameraBlock | internal/control/camform.go:340-393 | the whole search, trimming included |
| ConfigLines.TableArray | internal/control/camform.go:355-362 | of the lines in double brackets, spaces or not, exactly those holding the word camera are a camera's header |
| ConfigLines.Table | internal/control/camform.go:355-362 | a line in single brackets is a header and no camera's |
| ConfigLines.OneMark | internal/control/camform.go:346-368 | one mark on a line opens a string of its kind, ends one it stands in, and is nothing in one of the other kind |
| ConfigLines.NeverOpens | internal/control/camform.go:352-362 | comments and headers open no string, whatever they hold |
| ConfigBlocks.WantIsPermutation | internal/control/fleetorder.go:63-76 | whatever is asked for, every camera is placed exactly once |
| ConfigBlocks.WantInOrder | internal/control/fleetorder.go:63-76 | the cameras asked for come first, in the order asked for, and the others after them in the file's |
| ConfigBlocks.OwnOrderIsText | internal/control/fleetorder.go:47-91 | asked for the file's own order, the text comes back byte for byte |
| ConfigBlocks.ReorderKeepsCharacters | internal/control/fleetorder.go:47-91 | in any order no character is lost, added or changed |
| ConfigBlocks.BuiltIsWoven | internal/control/fleetorder.go:78-90 | the builder's line ends are those of the rearranged lines |
| ConfigBlocks.ReorderCameraBlocks | internal/control/fleetorder.go:47-91 | the loops compute the rearrangement, or fail leaving the text |
| ConfigLayout.SpansOfDoc | internal/control/camform.go:340-369 | what the scan finds in a file taken apart into prefix, cameras and last table |
| ConfigLayout.ReorderDoc | internal/control/fleetorder.go:47-91 | reordering puts each named block in its slot and keeps everything between |
| ConfigLayout.UndoneInDoc | internal/control/fleetorder.go:47-91 | reordering back restores every line of such a file |
| ConfigOrders.ReorderIsUndone | internal/control/fleetorder.go:47-91 | for every order the file comes back byte for byte, when a table ends it, or when none follows the first camera and the text ends outside a string or there is but one camera |
| ConfigOrders.UndoneIff | internal/control/camform.go:355-361 | that condition is exact in any text, unless a string left open at its end would be ended by a line of an earlier block |
| ConfigOrders.UndoneForOrderIff | internal/control/fleetorder.go:47-91 | in any text one order is undone by reordering back when a table ends the file, or when the camera asked for last has no table below it and the text ends outside a string or that camera is the last already; and it is not when not, with the same exception |
| ConfigUndo.NotUndoneInDoc | internal/control/camform.go:355-361 | where no table ends the file and every block ends outside strings, no order that puts a camera with a table last is undone by reordering back |
| ConfigCases.NotRestored | internal/control/camform.go:355-361 | in a literal five-line file, moving the first camera last and back does not restore the file |
| ConfigCases.LastNotRestored | internal/control/camform.go:340-369 | in a literal file without a table, moving its last camera, whose password is three single quotes, up and back does not restore the file |
| ConfigEdit.UpsertInDoc | internal/control/camform.go:405-424 | saving a camera puts its new block where the old one was and changes nothing before or behind it |
| ConfigSaves.UpsertTwiceIff | internal/control/camform.go:405-424 | in any text, saving a camera a second time changes nothing when the block as written ends outside a string or has only blank lines behind it, and does change the text when not, unless the rest of the file holds a copy of the block |
| ConfigSaves.SavedIsFoundIff | internal/control/camform.go:340-424 | that condition is exact, in any text, for the saved file giving the saved block when searched again |
| ConfigAppends.UpsertNewTwiceIff | internal/control/camform.go:405-424 | saving a camera the file did not have a second time changes nothing exactly when the file held no text, or its scan ends outside strings and the last camera's block, taken on to the end, is not given the new name |
| ConfigTables.UpsertKeepsTablesIff | internal/control/camform.go:405-424 | in any text that has the camera, the saved file has the same tables exactly when those in the old block and behind it are those the scan sees behind the new one, which for a block that stays apart means that the old block held none |
| ConfigCases.TableDropped | internal/control/camform.go:405-424 | in the literal file, saving the first camera as it is drops the table below it |
| ConfigCases.CameraDeleted | internal/control/camform.go:340-424 | a literal file and a password of three single quotes: the first save hides the camera below from the scan, and the same save again deletes it |
| ConfigEdit.RemoveTakes | internal/control/camform.go:434-454 | in any text, removing a camera takes the block found and all the blank lines around it, and nothing else |
| ConfigRemoves.RemoveKeepsOthers | internal/control/camform.go:340-454 | in any text, every other camera found before the removal is found after it with the same lines; only the camera directly above, when nothing is left below, has its block cut before its last table, and is found exactly when what is left still has its name |
| ConfigCases.HiddenIsDeleted | internal/control/camform.go:340-454 | in the file the password above leaves, removing that camera deletes the hidden one too |
| ConfigCases.TableLeftOut | internal/control/camform.go:340-454 | in the literal five-line file, removing the second camera leaves the first one's table outside its block |
| ConfigEdit.UpsertCameraBlock | internal/control/camform.go:405-424 | the edit, the appended block included |
| ConfigEdit.RemoveCameraBlock | internal/control/camform.go:434-454 | the loops over blank lines |
| Alarms.StateOfIsNamed | internal/alarms/alarms.go:56-76 | the state says exactly what the events name, each object once |
| Alarms.StateIsCanonical | internal/alarms/alarms.go:56-76 | the state depends on what is named and whether anything moved alone, its objects in order, not on which event says it or when |
| Alarms.ChannelState | internal/alarms/alarms.go:171-181 | a watch of one channel of a recorder reports exactly what that channel's events say, and a camera's own all of them |
| Alarms.Synonyms | internal/alarms/alarms.go:34-52 | what the spellings of each kind are called, and when a type is none |
| Alarms.OnBeforeOff | internal/alarms/alarms.go:79-98 | after motion, what came is told before what went |
| Alarms.DiffAlternatesIff | internal/alarms/alarms.go:79-100 | an update's changes are all news and replay to the new state exactly when the two states are compatible |
| Alarms.RunAlternatesIff | internal/alarms/alarms.go:105-188 | over whole runs, reconnects included, the changes alternate exactly when every update is compatible |
| Alarms.WatchAlternates | internal/alarms/alarms.go:105-188 | with no type called motion, each kind goes on, off, on, off, and replaying gives the current state |
| Alarms.LostLeavesNothing | internal/alarms/alarms.go:109-114 | after a lost connection nothing is left on, in any run |
| Alarms.MotionTypeRepeats | internal/alarms/alarms.go:79-83 | a type called motion makes motion go on twice |
| Alarms.EachKindAlternates | internal/alarms/alarms.go:79-100 | changes that are all news alternate kind by kind |
| Alarms.BuildState | internal/alarms/alarms.go:56-76 | the merging loop |
| Alarms.Report | internal/alarms/alarms.go:84-98 | a loop of diff |
| Alarms.Watcher.MoveTo | internal/alarms/alarms.go:181-185 | tells the listener the difference and goes to the new state |
| Alarms.Watcher.Handle | internal/alarms/alarms.go:133-188 | one turn of the loop |
| Alarms.Watcher.Watch | internal/alarms/alarms.go:105-131 | a whole run tells the listener what the specification says |

## Left out

- Sockets, deadlines, tickers, goroutines and contexts: only the steps they trigger are modelled. A resend may
  fire, a connection may end, a reader may stall, a dial may fail, at any time.
- XML and TOML decoding: functions given to the model. What a discovery packet means, what an extension holds and
  what a config block is called are parameters.
- AES below the block function, and the MD5 key derivation.
- A nil slice and an empty one are not told apart.
- What a heartbeat or a disconnect datagram says is a parameter. Read's wake channel and deadline are left out: the
  model has one pass of its loop.
- Go's 64-bit int is taken as unbounded. The 32-bit fields wrap as in the source, and an ADPCM predictor stays in
  16 bits by proof.
- UdpSafety.RunIsSafe: the packets in flight carry unbounded numbers, since Write has no window. The wrapped code
  is tied to it by UdpRefinement.RealRunIsSafe, which assumes that nothing delivered reaches back half a turn.
- UdpProgress.RoundsComplete: that a copy of each packet gets through is left to the network, since the code cannot
  force it. UdpProgress.CanAlwaysFinish says only that it can.
- Reader objects on a shared connection are rows of a table indexed by number, so two references to one reader are
  not modelled. The Conn and the Shared are objects.
- Shared.SharedConn.Route: the loop visits the readers in an arbitrary order, as Go's map does. The delivery after
  the lock is a step of SharedRuns, not a method.
- PoolRuns.RunKeepsInv: one group, since groups share nothing but the mutex. Message delivery is left out there,
  because it changes neither which streams nor which readers a connection has.
- Pool.Group.Locked: the class runs the locked part of Open undisturbed. What may happen between its looks at the
  connections is in PoolRuns.
- White space and upper case in config lines and alarm types are the ASCII ones.
- Alarms.RunAlternatesIff: a change's camera and time are left out.
- ConfigOrders.UndoneIff: in a text that ends inside a string which a line of an earlier block would end, only that
  the condition suffices. What the scan then sees of the blocks below depends on what their own strings hold.
- ConfigOrders.UndoneForOrderIff: likewise.
- ConfigSaves.UpsertTwiceIff: with a copy of the block further down the file, only that a block that stays apart is
  saved again without a change. `ConfigSaves.SavedIsFoundIff` has no such case.
- PoolProgress.LoginEnds: that the mutex comes free and that a login's steps are taken is left to the scheduler.
- `loginReplyXML`, `ParseTalkAbility`, message-id tables, the CGI client, MQTT, RTSP, web pages and discovery sweeps:
  single-branch logic or plumbing that would add only easy members.

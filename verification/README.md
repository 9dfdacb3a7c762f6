# A verified model of the remote-projection redirector

An agent next to a remote desktop session redirects its screen, device, audio and input channels to a
projector.  One control connection sets the channels up, and one media connection per channel carries the
data.  This project models the logic between the sockets and the decoders and proves what holds for every
chunking of the streams and every interleaving of the threads.

| Dafny files | Repository code |
|---|---|
| `FrameStream`, `LengthPrefix`, `DataBuffers`, `StreamingParser` | length-prefixed frames and their incremental parser over aliased buffers |
| `Tcp`, `SocketReaders`, `AudioReader` | chunked delivery, fragmentation, the agent's record readers and its blocking audio decoder |
| `PipeMonitor`, `PipeThreshold` | the bounded queue with one condition variable and `notify_one` |
| `Pipeline`, `MediaPaths`, `SinkShutdown`, `StopHangs` | reader thread, parser, pipe and sink end to end, as a system and as objects; how a sink is stopped |
| `Text`, `Messages`, `RtspSessions`, `Watchdog`, `Resolutions` | control messages, their framing, numbering and dispatch, the silent-peer check |
| `Handshake`, `LaggedSetup`, `SetupProgress`, `SetupLiveness`, `Endpoints`, `ControlChannel` | the channel set-up between agent and server: its safety, its receive loops, its end, as objects, and as bytes |

Code that updates state is a class or a method with loops (`RdpStreamingParser`, `TcpChannel`, `SharedPipe`,
`D2DRender`, `RtspSession`, `ProjectorAgent`, `Session`, `RedirectChannelFactory`, the socket readers).
Where threads interleave, a method is the stretch a thread executes between two points where another can
interfere; its contract says that it is one step of a transition system, and the theorems are about all
runs of that system.

## Assumptions

* Sockets are reliable FIFO byte streams.  A receive returns any non-empty part of what is there; sends
  are taken whole.  A receive of zero bytes returns 0, which common/utility/private/common/Socket.cpp
  reports as a closed connection.
* `Signal` callbacks run synchronously in the thread that fires them.
* `m_CSeq++` is one atomic step, also where the heartbeat timer executes it outside the lock
  (common/rtsp/RtspSession.cpp:26), and `D2DRender::m_IsAlive` is read and written atomically.
* Structure layout is that of the 32-bit Windows build: 4-byte little-endian lengths, 8-byte
  `RdpStreamingMessage`.  The sizes of the HID and pointer records are parameters.
* A decoder returns from every stream it is given.
* `notify_one` wakes one waiter of the scheduler's choice if there is one; wakeups may also be spurious.

## What the proofs show about the code

* Two producers on a pipe of four slots cannot lose a wakeup.  A state in which every thread of a pipe
  sleeps for good is reachable if and only if there are at least twice as many producers as slots.
* `D2DRender::Stop` hangs for good in exactly one situation: when it clears `m_IsAlive`, the pipe is full
  and the worker has not yet gone on to `Pop`.  The sentinel then never finds room.  `StopHangs.StopCanHang`
  is a run of the media path into that situation and a fair execution that stays in it.
* `AudioSocketReader` takes a single receive for the whole header.  A run of it delivers what
  `RdpStreamingParser` delivers if and only if every frame has 1 to 1000 bytes and every header arrives in
  one piece, except that the last frame's may be split if its payload is all zeros and the part that was
  read shows its size.  An empty frame ends
  the reader, a longer one overruns its buffer, and after a split header it takes header bytes for payload
  (`AudioReader.SplitHeaderExample`).
* `IMsg` reads back what it printed if and only if command and data are single lines and the command does
  not contain `Data:` (or happens to go on with the data there).  Session.cpp sends the text of exceptions
  as data; `Messages.TwoLinesExample` loses the second line of one.
* The control loop handles at most one message per receive.  The backlog this leaves is exact in
  `RtspSessions.LagExact`; there never is one if and only if no receive completes two messages.
* Because of it the set-up can stop until a heartbeat comes: a call that arrives together with a heartbeat
  stays in the server's buffer, and nothing but a timer can move (`LaggedSetup.BufferedCallExample`).
  `LaggedSetup.TimersOnlyDoneIff` says exactly when a state in which only timers can move is the finished
  one.  With both heartbeat timers running every fair execution ends (`SetupLiveness.SetupCompletes`), and
  with all channels set up unless the screen's initialisation failed (`SetupLiveness.GoodSetupCompletes`).
* A session can cut a printed message off its stream at the message's end if and only if neither command nor
  data holds a blank line or ends with a line end (`Messages.PrintedEndIff`).
* The server answers a set-up request before it accepts the connection, and nothing names the channel on
  the media connection; still every pipeline gets the connection that was opened for it.
* A heartbeat takes two numbers and uses the second, so a session's numbers have gaps.

## Model

| member | source | states |
|---|---|---|
| FrameStream.DecodeKeepsAll | projector/RdpStreamingParser.cpp:13-56 | cutting a stream into frames loses, adds and reorders nothing |
| FrameStream.DecodePieces | projector/RdpStreamingParser.cpp:13-56 | the pieces are complete frames and one incomplete rest |
| FrameStream.DecodeAppend | projector/RdpStreamingParser.cpp:13-56 | decoding a ++ b is decoding a and then the rest of a ++ b, for every split |
| FrameStream.DecodeEncoded | projector/RdpStreamingParser.cpp:13-56 | frames written back to back are recovered, whatever follows |
| LengthPrefix.FrameCutStable | projector/RdpStreamingDef.h:2-14 | where a length-prefixed frame ends does not depend on what follows it |
| LengthPrefix.EncodeIsFrame | redirector-client/Redirector.cpp:173-196 | a sender callback's two writes are one complete frame |
| LengthPrefix.LengthOnWire | redirector-client/Redirector.cpp:173-196 | the payload follows four bytes that hold its length, the least significant first |
| LengthPrefix.ReceivedAppend | projector/RdpStreamingParser.cpp:13-56 | one Process of a ++ b is Process of a and then of b: same payloads, same residue |
| LengthPrefix.NeedExact | projector/RdpStreamingParser.cpp:21-48 | the need subtractions are positive, and a pass never reads beyond the frame in progress |
| LengthPrefix.ReceivedEncoded | redirector-client/Redirector.cpp:173-196 | decoding inverts encoding for all payload lists, empty payloads included, also when the stream breaks off |
| DataBuffers.DataBuffer.SetBufferSizeLowerBound | common/utility/include/buffer.h:33-42 | storage is replaced if and only if it is too small |
| DataBuffers.DataBuffer.AppendFrom | common/utility/include/DataBuffer.h:18-32 | appends when the bytes fit, touches nothing behind them, otherwise refuses |
| StreamingParser.StreamCollector.OnMessage | projector/IRdpSource.cpp:20-25 | the subscriber copies the payload that the message's two words describe |
| StreamingParser.RdpStreamingParser.constructor | projector/RdpStreamingParser.cpp:4-12 | both overlays point at the header buffer's storage, nothing is pending |
| StreamingParser.RdpStreamingParser.TakeHeader | projector/RdpStreamingParser.cpp:19-41 | takes exactly what the header needs; keeps the frame, or delivers an empty payload; the overlay's pointer word stays |
| StreamingParser.RdpStreamingParser.TakeBody | projector/RdpStreamingParser.cpp:42-53 | takes exactly what the body needs; keeps the frame, or delivers its payload |
| StreamingParser.RdpStreamingParser.OnMessageParsed | projector/RdpStreamingParser.cpp:57-63 | the callback sees the full payload although both buffers were cleared before |
| StreamingParser.RdpStreamingParser.Process | projector/RdpStreamingParser.cpp:13-56 | refinement: after any calls the delivered payloads and the residue are those of the reference decoder on all bytes so far |
| Tcp.SocketTcp.Recv | common/utility/private/common/Socket.cpp:379-388 | a non-empty prefix of what has arrived, or an exception at the end of the stream or for a request of zero bytes |
| Tcp.FragmentsExact | projector/TcpChannel.cpp:27-59 | the writes of one Send concatenate to the data |
| Tcp.FragmentsFit | projector/TcpChannel.cpp:27-59 | no write is empty or larger than the buffer |
| Tcp.FragmentsCount | projector/TcpChannel.cpp:27-59 | there are exactly len / size writes, rounded up |
| Tcp.SendWrites | projector/TcpChannel.cpp:10-59 | one Send issues len / 1316 writes, rounded up, of 1 to 1316 bytes each, that concatenate to the data |
| Tcp.TcpChannel.Send | projector/TcpChannel.cpp:27-42 | issues exactly these writes and leaves the buffer empty |
| Tcp.TcpChannel.Flush | projector/TcpChannel.cpp:49-59 | writes the buffered bytes, if any, and clears the buffer |
| Tcp.TcpChannel.Receive | projector/TcpChannel.cpp:72-76 | a round reads at least a byte and parses all it has read |
| Tcp.TcpChannel.Workloop | projector/TcpChannel.cpp:68-78 | what has been read has been parsed, for every chunking and every moment of being stopped; every round reads on unless the peer has closed |
| Tcp.WholeStreamDelivered | redirector-client/Redirector.cpp:173-180 | a whole stream of payloads is delivered with nothing pending |
| SocketReaders.RecordStep | redirector-client/HIDSocketReader.cpp:32-45 | a receive completes the record in progress or extends it |
| SocketReaders.SendEachExact | projector/HIDRedirector.cpp:28-43 | one Send per record writes the concatenation of the records |
| SocketReaders.RecordsRoundTrip | projector/TouchAndPen.cpp:46-58 | records sent one by one, each fragmented, are the records read |
| SocketReaders.ReceiveInto | redirector-client/HIDSocketReader.cpp:32-35 | the receive at bufpointer = buf + len extends the partial record and never overruns it |
| SocketReaders.HidDeliversAll | redirector-client/HIDSocketReader.cpp:35-45 | one event per record, unchanged and in order |
| SocketReaders.PointerDeliversByType | redirector-client/TouchAndPenMsgReader.cpp:41-56 | the touch frames are exactly the records of type 2, the pen frames those of type 3, unchanged and in order; every event comes from a record of its type and nothing else is delivered |
| SocketReaders.RecordReader.Pass | redirector-client/TouchAndPenMsgReader.cpp:38-56 | a pass keeps len below the record size and hands a full record to the handler of its pointer type |
| SocketReaders.RecordReader.Workloop | redirector-client/HIDSocketReader.cpp:25-47 | for every chunking exactly the consecutive whole records are delivered |
| AudioReader.AudioSocketReader.ReadBody | redirector-client/AudioSocketReader.cpp:40-54 | reads exactly the frame's bytes over any number of receives; fails if and only if the size is zero or the stream ends first |
| AudioReader.AudioSocketReader.ReadFrame | redirector-client/AudioSocketReader.cpp:30-55 | one round, for every number of bytes the header read returned; the size is what those bytes show |
| AudioReader.OneMoreRound | redirector-client/AudioSocketReader.cpp:28-56 | what the thread delivers grows by the frame of each round |
| AudioReader.AudioSocketReader.Workloop | redirector-client/AudioSocketReader.cpp:26-57 | what is delivered is a function of the stream and of the lengths of the header reads alone; it ends early only for want of a frame |
| AudioReader.PartHeader | redirector-client/AudioSocketReader.cpp:32-53 | behind a split header the frame is right if and only if it is all zeros and its size shows |
| AudioReader.OutOfStep | redirector-client/AudioSocketReader.cpp:32-53 | after that the reader never gets the next frame right |
| AudioReader.DeliversAllIff | redirector-client/AudioSocketReader.cpp:26-57 | a run delivers exactly what was sent if and only if sizes and header reads are as Readable says |
| AudioReader.DecodersAgreeIff | projector/RdpStreamingParser.cpp:13-63 | a run delivers what the parser delivers if and only if the same condition holds |
| AudioReader.WholeHeadersAgreeIff | redirector-client/AudioSocketReader.cpp:37 | with whole headers they agree if and only if all sizes are 1 to 1000 |
| AudioReader.SplitHeaderExample | redirector-client/AudioSocketReader.cpp:37-44 | the frame [1] with its header read as 2 bytes is delivered as [0], by the parser as [1] |
| PipeMonitor.FifoStep | common/media/Pipe.cpp:14-37 | every step keeps pushed = popped ++ queued and the size bound |
| PipeMonitor.NoLostWakeupStep | common/media/Pipe.cpp:14-30 | below twice the size, every step keeps the bounds on sleeping producers |
| PipeMonitor.ReachableIsFifo | common/media/Pipe.cpp:14-37 | in every run nothing is lost, duplicated or reordered, and Cancel leaves nobody asleep |
| PipeMonitor.NoLostWakeups | common/media/Pipe.cpp:14-30 | with at most size producers: sleeping producers <= queue length <= size, and the consumer sleeps only on an empty pipe with no producer asleep |
| PipeMonitor.SharedPipe.Push | common/media/Pipe.cpp:14-20 | the critical section from the call is one step of the system; it returns if and only if there is room or the pipe is cancelled |
| PipeMonitor.SharedPipe.PushWoken | common/media/Pipe.cpp:17-19 | the same for a producer that comes out of its wait |
| PipeMonitor.SharedPipe.Pop | common/media/Pipe.cpp:22-30 | takes the oldest stream, or waits while there is none |
| PipeMonitor.SharedPipe.Cancel | common/media/Pipe.cpp:32-37 | wakes everybody |
| PipeThreshold.DeadlockIff | common/media/Pipe.cpp:14-30 | a state where every thread sleeps un-notified is reachable if and only if producers >= 2 * size |
| Pipeline.ParseStep | projector/RdpStreamingParser.cpp:13-63 | a pass of the parser keeps the end-to-end invariant |
| Pipeline.DecodableOne | projector/D2DRender.cpp:41-44 | a stream of two or more bytes is decoded, a shorter one is not |
| Pipeline.DecodableAppend | projector/D2DRender.cpp:36-46 | each stream is judged on its own and keeps its place |
| Pipeline.NothingLostOrReordered | projector/IRdpSource.cpp:14-27 | for all inputs, chunkings and interleavings: popped ++ queued ++ blocked in Push = payloads completed so far; at most size + 1 under way; the decoder got the popped ones longer than a byte |
| Pipeline.QuiescentMeansDelivered | projector/D2DRender.cpp:36-46 | when neither thread can move, everything sent has been decoded: no deadlock |
| Pipeline.PayloadsArriveInOrder | redirector-client/Redirector.cpp:173-180 | the decoder sees a prefix of the agent's payloads at all times, all of them in the end |
| MediaPaths.PassExact | projector/RdpStreamingParser.cpp:13-63 | a pass either keeps the frame in progress or completes its payload |
| MediaPaths.MediaPath.ReceiveChunk | projector/TcpChannel.cpp:72-76 | on the objects one event of the media path |
| MediaPaths.MediaPath.ParseSome | projector/RdpStreamingParser.cpp:15-55 | a pass of the parser object is the parse event of the media path |
| MediaPaths.MediaPath.PushPayload | projector/IRdpSource.cpp:20-25 | one event of the media path |
| MediaPaths.MediaPath.PopStream | projector/D2DRender.cpp:40 | one event of the media path |
| MediaPaths.Deliver | projector/IRdpSource.cpp:14-27 | new objects under any schedule do a run of the media path, so what the parser object delivered is popped, queued or in Push, and the decoder got the popped ones longer than a byte |
| SinkShutdown.InvStep | projector/D2DRender.cpp:20-46 | every move of worker, stopping thread and environment keeps the invariant |
| SinkShutdown.AccountsStep | projector/D2DRender.cpp:36-46 | decoded, with the stream in the decoder, is what it was plus the streams popped since that are longer than a byte, in order; every move keeps this |
| SinkShutdown.DecodesWhatItPops | projector/D2DRender.cpp:36-46 | the same between any two moments of any execution |
| SinkShutdown.RunningSinkDrains | common/media/Component.cpp:20-33 | a running sink whose worker is scheduled fairly empties its pipe, and all it popped is accounted for as decoded |
| SinkShutdown.SwitchesStay | common/media/Component.cpp:13-58 | pause, cancel and m_IsAlive change only by the calls that switch them; the worker waits only while paused, and Resume and Stop leave it not waiting |
| SinkShutdown.PausedStops | common/media/Component.cpp:13-18 | as long as the component is paused at most one more stream is popped |
| SinkShutdown.StepProgress | common/media/Component.cpp:13-45 | once there is room, no move undoes progress towards the end of Stop, and the helpful thread's move makes some |
| SinkShutdown.StopReturns | projector/D2DRender.cpp:28-34 | under fair scheduling Stop returns from any state with room, for every worker position |
| SinkShutdown.StuckForever | projector/D2DRender.cpp:28-34 | with a full pipe and a worker that is not on its way into Pop, the sentinel is never queued |
| SinkShutdown.StopReturnsIff | projector/D2DRender.cpp:28-46 | Stop returns if and only if, when m_IsAlive is cleared, the pipe has a free slot or the worker is already going into Pop |
| SinkShutdown.AtMostOneMorePop | projector/D2DRender.cpp:36-46 | after that at most one stream is popped, and the sentinel never reaches the decoder |
| StopHangs.HandOverInv | projector/RedirectChannelFactory.cpp:108-112 | every reachable state of the media path with the source outside Push is a state the shutdown model starts from |
| StopHangs.PipeFills | common/media/Pipe.cpp:14-20 | a run of the media path fills the pipe while the sink is not in Pop |
| StopHangs.HangsForever | projector/D2DRender.cpp:28-34 | from a full pipe with the worker at CanLoop a fair execution exists in which Stop never returns |
| StopHangs.StopCanHang | projector/D2DRender.cpp:28-46 | both together: the hanging Stop is reachable |
| SinkShutdown.D2DRender.CheckCanLoop | common/media/Component.cpp:13-18 | one move of the system: ends, waits while paused, or goes on |
| SinkShutdown.D2DRender.ReadIsAlive | projector/D2DRender.cpp:38 | one move of the system |
| SinkShutdown.D2DRender.PopInput | projector/D2DRender.cpp:40 | one move of the system |
| SinkShutdown.D2DRender.DecodeStream | projector/D2DRender.cpp:41-44 | one move of the system: streams of one byte are dropped |
| SinkShutdown.D2DRender.PushSentinel | projector/D2DRender.cpp:31-32 | one move of the system |
| SinkShutdown.D2DRender.CancelWorker | common/media/Component.cpp:37-40 | one move of the system, which wakes a paused worker |
| SinkShutdown.D2DRender.ResumeWorker | common/media/Component.cpp:53-58 | one move of the system |
| SinkShutdown.Perform | projector/D2DRender.cpp:20-46 | on the object every move is the move of the system |
| SinkShutdown.RunSink | projector/D2DRender.cpp:20-46 | a new sink under any schedule is in exactly the scheduled state, which keeps the invariant; it has decoded exactly the popped streams longer than a byte, in order, but for one still in the decoder; the sentinel is never decoded |
| Text.ExtractPrintedInt | common/rtsp/IMsg.cpp:31-32 | reading back a printed int gives the int, negative ones included, whatever non-digit follows |
| Text.ExtractPrintedUnsigned | redirector-client/ProjectorAgent.cpp:162 | the same for an unsigned |
| Text.PrintedPlain | common/rtsp/IMsg.cpp:73 | numbers are printed without leading zeros, with a minus sign only when negative |
| Text.ExtractAnyInt | common/rtsp/IMsg.cpp:31-32 | extraction from any text of blanks, an optional sign and digits: the number, or the nearest int and failure when it does not fit |
| Text.ExtractAnyUnsigned | redirector-client/ProjectorAgent.cpp:162 | the same for an unsigned |
| Text.ExtractWrapped | redirector-client/ProjectorAgent.cpp:162 | a negative number wraps around modulo 2^32 |
| Messages.ResponseText | common/rtsp/ResponseMsg.cpp:4-9 | the text of every reply, literally: 200 OK for a success, 100 FAIL for a failure |
| Messages.RequestText | common/rtsp/IMsg.cpp:69-77 | the text of every request, literally |
| Messages.SuccessIff | common/rtsp/ResponseMsg.cpp:20-23 | a received text counts as a success if and only if its type line is exactly "Resp 200 OK" |
| Messages.DeriveNothing | common/rtsp/IMsg.cpp:5-18 | a header that is missing, or that no line end follows, is read as empty |
| Messages.ParsedHeaders | common/rtsp/IMsg.cpp:25-33 | type and number of a printed message always come back; the command if and only if it is a single line |
| Messages.ParsedData | common/rtsp/IMsg.cpp:5-18 | what is read as the data: the data, or what follows "Data:" in the command |
| Messages.DataCut | common/rtsp/IMsg.cpp:5-18 | data of several lines never comes back |
| Messages.ParseInvertsPrintIff | common/rtsp/IMsg.cpp:25-77 | for all values: parsing inverts printing if and only if both are single lines and a command containing "Data:" goes on with the data there |
| Messages.TwoLinesExample | projector/Session.cpp:48-51 | a failure reply with a text of two lines loses the second |
| Messages.PrintedEndIff | common/rtsp/IMsg.cpp:69-77 | for all values: the first blank line of a printed message is its end if and only if neither command nor data holds one or ends with a line end |
| Messages.PrintedEnd | common/rtsp/IMsg.cpp:69-77 | in particular with single-line values, even if they end in a carriage return |
| Messages.DataEndExamples | common/rtsp/IMsg.cpp:69-77 | data of two lines leaves the end alone, data ending with its line moves it forward |
| RtspSessions.MsgCutStable | common/rtsp/RtspSession.cpp:88-92 | where a control message ends does not depend on what follows it |
| RtspSessions.DispatchIff | common/rtsp/RtspSession.cpp:50-58 | for all texts, in literal words: what is answered, what is raised as a request or as a response, and what throws |
| RtspSessions.OnlyHeartbeatsAnswered | common/rtsp/RtspSession.cpp:123-131 | the session itself answers a message if and only if it is a request with the command HEARTBEAT |
| RtspSessions.RtspSession.Send | common/rtsp/RtspSession.cpp:106-115 | a request gets the next number, stored in the caller's object, before its text is sent; a response keeps its own |
| RtspSessions.RtspSession.SendHeartbeat | common/rtsp/RtspSession.cpp:23-35 | a heartbeat takes two numbers and is sent under the second |
| RtspSessions.RtspSession.HandleMessage | common/rtsp/RtspSession.cpp:50-104 | dispatch by type and command; a heartbeat is answered under its own number; the peer counts as alive unless the dispatch threw |
| RtspSessions.RtspSession.CheckAlive | common/rtsp/RtspSession.cpp:37-45 | reports the peer if and only if the flag was still cleared, and clears it |
| RtspSessions.RtspSession.OnRecv | common/rtsp/RtspSession.cpp:77-97 | one round: handled ++ buffer = received, and exactly one message more is handled if one is complete |
| RtspSessions.Workloop | common/rtsp/RtspSession.cpp:74-98 | after k receives the handled messages are the first HandledAfter(k) of the stream, each dispatched once |
| RtspSessions.LagExact | common/rtsp/RtspSession.cpp:77-97 | HandledAfter(k) is the minimum over j <= k of complete(j) + (k - j) |
| RtspSessions.NoLagAt | common/rtsp/RtspSession.cpp:77-97 | nothing lags after k receives if and only if no stretch of receives up to k completed more messages than it has receives |
| RtspSessions.NoLagIff | common/rtsp/RtspSession.cpp:77-97 | nothing ever lags if and only if no receive completes two messages |
| RtspSessions.LagExample | common/rtsp/RtspSession.cpp:89-97 | of two messages in one piece the second is left in the buffer |
| RtspSessions.CutAtEndIff | common/rtsp/RtspSession.cpp:88-92 | a session cuts a message off at its end if and only if it is framable |
| RtspSessions.PrintedCompleteIff | common/rtsp/RtspSession.cpp:74-98 | a list of printed messages is cut into these messages if and only if all are framable |
| RtspSessions.ControlStreamRoundTrip | common/rtsp/RtspSession.cpp:74-98 | of a printed list of framable messages, in any chunks, a prefix is handled in order, and each is read back exactly if printing and parsing give it back |
| Watchdog.ReportedIff | common/rtsp/RtspSession.cpp:37-45 | a check reports the peer if and only if there was an earlier check and nothing was handled since the last one |
| Watchdog.NeverReportedIff | common/rtsp/RtspSession.cpp:37-45 | a peer is never reported if and only if it is heard between every two checks |
| Watchdog.Watch | common/rtsp/RtspSession.cpp:37-104 | a session driven by handled messages and checks has exactly this flag and these reports |
| Watchdog.ReportMeansSilence | common/rtsp/RtspSession.cpp:37-45 | a report means that nothing was handled during the last period |
| Watchdog.SilenceIsReported | common/rtsp/RtspSession.cpp:10-13 | a peer silent since t is reported between one and two periods after t |
| Resolutions.ResolutionSurvives | projector/Session.cpp:32-37 | every screen size survives formatting, printing, parsing and ParseResolution |
| Resolutions.ParseFormatted | redirector-client/ProjectorAgent.cpp:157-164 | ParseResolution reads back what the server formats |
| Resolutions.FormatText | projector/Session.cpp:32-37 | the size is sent as width, x, height |
| Handshake.Match | redirector-client/ProjectorAgent.cpp:32-69 | the first request with the reply's number, none if there is no such request |
| Handshake.InvStep | redirector-client/ProjectorAgent.cpp:91-156 | every step of either end, heartbeats included, keeps the set-up's invariant |
| Handshake.ChannelsArePaired | projector/RedirectChannelFactory.cpp:48-102 | in every run each pipeline is built on the connection its own call opened; at most one connection is pending; the agent is at most one call ahead |
| Handshake.RepliesMatchTheirCall | redirector-client/ProjectorAgent.cpp:30-70 | a reply is matched if and only if a call was sent under its number, and then to that call, the current one; replies to heartbeats match nothing |
| Handshake.NumbersIncrease | common/rtsp/RtspSession.cpp:23-35 | requests leave both sessions with strictly increasing numbers >= 0, and a call's number is stored before it is sent |
| Handshake.AnswersEcho | common/rtsp/RtspSession.cpp:117-131 | each end answers exactly the requests it has handled, once each, in order, under their numbers |
| Handshake.RepliesAreRight | projector/Session.cpp:28-105 | in every run a reply under a request's number says the right thing: the size, the outcome of the screen set-up, otherwise success with no data; all the agent's replies are successes with no data |
| Handshake.NumbersAreSpent | common/rtsp/RtspSession.cpp:23-35 | in every run both counters are exact: one number for each call, two for each heartbeat |
| Handshake.ScreenRefusedIff | projector/Session.cpp:39-51 | a screen set-up is refused, with the reason as data, if and only if the initialisation failed; otherwise it is accepted and its connection awaited |
| Handshake.FailedBecause | projector/Session.cpp:41-51 | in every run a screen recorded as failed goes back to an event with a failed initialisation |
| Handshake.NoFailureWithoutCause | redirector-client/ProjectorAgent.cpp:106-107 | without such an event neither end ever fails |
| Handshake.ResultsArrive | redirector-client/ProjectorAgent.cpp:91-109 | the first call returns the server's screen size; the agent fails only if the server could not set the screen up |
| Handshake.NoReplyMatchesOutsideCalls | redirector-client/ProjectorAgent.cpp:30-89 | with no call under way the reader takes no reply for an answer, so the destructor's join is not held up by the mutex |
| Handshake.RankDrops | redirector-client/Redirector.cpp:111-155 | every step but a timer's brings the set-up closer to its end |
| Handshake.QuietRunsEnd | redirector-client/Redirector.cpp:111-155 | without timers the set-up handles, sends and accepts only boundedly often |
| LaggedSetup.LaggedRefines | common/rtsp/RtspSession.cpp:74-98 | with the receive loops every reachable state is a reachable state of the set-up, so all its safety results hold |
| LaggedSetup.TimersOnlyDoneIff | common/rtsp/RtspSession.cpp:77-97 | a reachable state in which only timers can move is done if and only if no buffer holds a call or the answer to one |
| LaggedSetup.NothingBufferedMeansDone | projector/Session.cpp:26-105 | in particular it is done when everything that has arrived has been handled: neither the early answers nor the locks can block |
| LaggedSetup.BufferedCallExample | common/rtsp/RtspSession.cpp:89-96 | a heartbeat and a call that arrive in one piece lead to a reachable state where only timers can move and nothing is set up |
| LaggedSetup.ArrivedComplete | common/rtsp/RtspSession.cpp:87-92 | at a position of the byte stream exactly the messages in front of it are complete |
| LaggedSetup.PositionOf | common/rtsp/RtspSession.cpp:82 | every part of the stream that can have been received ends at a position |
| LaggedSetup.LongerIsLater | common/rtsp/RtspSession.cpp:82 | more bytes end at a later position |
| LaggedSetup.Receive | common/rtsp/RtspSession.cpp:77-97 | a receive of the session object handles a message exactly if one has arrived that has not been handled, as the receive events do |
| SetupProgress.StepProgress | projector/Session.cpp:26-105 | no step leads back, heartbeats included, and the thread whose turn it is leads on |
| SetupLiveness.EveryStep | common/rtsp/RtspSession.cpp:20-98 | the same for receives: each brings a byte of the next message or hands over one that has arrived, and a heartbeat makes the next one possible |
| SetupLiveness.SomebodyMoves | redirector-client/ProjectorAgent.cpp:91-156 | until the set-up is done the thread or timer whose turn it is can move |
| SetupLiveness.SetupCompletes | redirector-client/Redirector.cpp:110-155 | in every infinite execution that is fair to the three threads and to both heartbeat timers the set-up completes |
| SetupLiveness.GoodSetupCompletes | redirector-client/Redirector.cpp:110-155 | if no initialisation fails, every such execution gets to all six calls returned, the size known and five pipelines, each on its own connection |
| SetupLiveness.FailedSetupStops | projector/Session.cpp:48-51 | if one failed, a finished set-up has no pipeline and a failed agent |
| Endpoints.ProjectorAgent.NumberRequest | common/rtsp/RtspSession.cpp:108-112 | one step of the set-up: the number is stored under both locks |
| Endpoints.ProjectorAgent.TransmitRequest | common/rtsp/RtspSession.cpp:113-115 | one step of the set-up |
| Endpoints.ProjectorAgent.ReturnFromCall | redirector-client/ProjectorAgent.cpp:104-108 | one step of the set-up: connect and return, or throw when the screen failed |
| Endpoints.ProjectorAgent.HandleMessage | redirector-client/ProjectorAgent.cpp:30-32 | one step of the set-up: answer a heartbeat, or compare a response's number |
| Endpoints.ProjectorAgent.NoteResponse | redirector-client/ProjectorAgent.cpp:34-68 | one step of the set-up: the result and the flag of the matching call, and no other |
| Endpoints.FindRequest | redirector-client/ProjectorAgent.cpp:32-69 | the chain of comparisons finds the first match |
| Endpoints.RedirectChannelFactory.SetupScreenPipeline | projector/RedirectChannelFactory.cpp:48-59 | the oldest pending connection goes to the screen pipeline, the others stay |
| Endpoints.RedirectChannelFactory.SetupHIDPipeline | projector/RedirectChannelFactory.cpp:60-69 | the same for the HID redirector |
| Endpoints.RedirectChannelFactory.SetupDrRedirect | projector/RedirectChannelFactory.cpp:70-81 | the same for the device channel |
| Endpoints.RedirectChannelFactory.SetupAudioPlaybackRedirect | projector/RedirectChannelFactory.cpp:82-93 | the same for audio |
| Endpoints.RedirectChannelFactory.SetupTouchAndPenRedirect | projector/RedirectChannelFactory.cpp:94-102 | the same for touch and pen |
| Endpoints.Session.HandleMessage | projector/Session.cpp:28-105 | one step of the set-up: the answer goes out before anything is accepted |
| Endpoints.Session.SetupPipeline | projector/Session.cpp:45-96 | one step of the set-up: the pipeline of the answered call gets the oldest connection |
| Endpoints.ControlStream.Receive | common/rtsp/RtspSession.cpp:82-92 | a receive holds a message back for handling exactly if one is complete |
| Endpoints.Perform | projector/Session.cpp:26-105 | on the objects every event is the step of the system with receive loops |
| Endpoints.SetUp | redirector-client/Redirector.cpp:110-155 | new objects under any schedule: exactly the scheduled state, which is reachable; pipelines are on their own connections; where only timers can move it is done if and only if no buffer holds a call or an answer |
| ControlChannel.MessageSurvives | projector/Session.cpp:30-88 | printing, parsing and the comparisons of both ends give back every message of the set-up |
| ControlChannel.CallText | redirector-client/ProjectorAgent.cpp:10-15 | the text of each call, literally |
| ControlChannel.HeartbeatAnswered | common/rtsp/RtspSession.cpp:123-131 | the literal text of a heartbeat under any int is answered with one framable text, literally "Resp 200 OK" under the same number with no data, which the peer takes for a successful reply to it |
| ControlChannel.BytesCarryTheSetup | common/rtsp/RtspSession.cpp:74-98 | in every run, for every part of either byte stream received in any pieces, each end has understood exactly the first messages the other sent |

## Left out

- PipeMonitor.SharedPipe.Pop: a cancelled empty pipe is excluded, since `front()` of an empty queue is undefined.  The repository cancels a pipe only when it is destroyed.
- Failures after a positive answer to a set-up request, client timeouts and a second set-up of the same channel: the pairing theorem does not extend to them.
- Handshake.Enabled, event ServerHandle: the text of an exception from the server's screen initialisation holds no carriage return, as the only text the repository itself throws there; a blank line in another text would break the framing of the reply.
- DataBuffers.DataBuffer.AppendFrom: takes requests whose sum with the stored length fits 32 bits; the original's check wraps around beyond that.
- Growing `m_CSeq` past the largest int: `ControlChannel.BytesCarryTheSetup` assumes the numbers still fit.
- AudioReader.AudioSocketReader.ReadBody: sizes above the 1000-byte buffer are excluded; ReadFrame ends before it is called for one.
- AudioReader.AudioSocketReader.ReadFrame: ends with Overrun when the size exceeds the 1000-byte buffer, which the original then writes past.
- The Windows layout of `HIDDATASTRUCT` and `POINTER_DATA`: record size and the offset of the pointer type are parameters; HIDSocketReader and TouchAndPenMsgReader share one class. The injection of the events is not modelled.
- AudioPlayback, DeviceRedirecr, ScreenDataChannel: the loops of D2DRender and HIDSocketReader once more.
- FreeRDP, D2D and Windows calls, timers, `AsyncBase`, `AsyncSocketWriter` and `TimeBasedWorker` internals: parameters or assumptions.
- The debug build, in which the watchdog is switched off.
- SessionManager, settings, plugin globals, TestChannel, HIDRedirector, TouchAndPen::Send: plumbing around the modelled parts.
- DestoryAllChannel: its order, source before sink, is the precondition of SinkShutdown; the order among different channels has no effect in the model.

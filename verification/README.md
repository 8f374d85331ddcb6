# microADB: a verified model

microADB is an event-driven ADB daemon. This project models the parts of it that carry protocol state and
proves, for all inputs and over all runs, what they promise.

- **Transport.** A 24-byte header and a payload are gathered from reads of any size into one packet, checked,
  and handed to the dispatcher, each against the size limit in force at its turn (`Frame`, `Decoder`,
  `ClientReassembly`, `ClientFrames`).
- **Packet pool.** One integer counts the live packets and, one above its maximum, remembers that somebody was
  refused; the release that clears this mark kicks the transport and every service, and a kick may allocate
  again (`ClientInvariant`, `ClientTheorems`).
- **Dispatch and services.** OPEN, OKAY, WRTE and CLSE frames act on a linked list of services; forward streams
  and shells send one WRTE at a time and carry their bytes unchanged in both directions (`ClientSpec`, `ClientWire`,
  `ClientSafety`, `ClientLedger`, `ClientRuns`, `ClientTalk`, `ClientTheorems`, `ClientAnswers`, `ClientLimits`,
  `Client`).
- **File sync service.** A state machine that is fed arbitrary pieces of a byte stream and serves STAT, LIST,
  SEND and RECV over an explicit file system with short reads, short writes, interruptions and failures
  (`SyncWorld`, `SyncSpec`, `SyncSplit`, `SyncTransfer`, `SyncUpload`, `SyncLinks`, `SyncHonesty`, `SyncStreams`,
  `SyncAnswers`, `SyncResources`, `SyncLimits`, `FileSync`).
- **Both together.** In the client the sync service is asked and answers through the dispatch; what it is asked is
  exactly what the peer has sent since its OPEN, so what is proved of the service holds across the transport
  (`ClientTalk`, `Transfer`, `TransferRun`).

Each part is written twice. `ClientSpec` and `SyncSpec` say in functions what one event or one step does to the
whole state. `Client` and `FileSync` keep the state as the source does: mutable fields, services linked through
`next`, the packet being received in uninitialised memory, a state number with a union beside it, a
name buffer shared by partial headers and C strings, replies written into the packet that brought the request.
Every method of these classes is proved to do exactly what its function says, so the theorems about the
functions hold of the classes; `Client.Client.React` closes the circle for one event of an open client. The
history of a client (`log`) and the bytes it has read (`rx`) exist only to state properties.

Configuration sizes are constants without a value: the proofs hold for every FRAME_MAX of at least 1 and every
payload size of at least 20 (below 2^31).

The file sync service stores its replies at the start of the packet it is still reading from. `SyncSpec.Loop` is
this loop: unread bytes that a reply reaches are replaced (`SyncSpec.Overlay`), and later replies are cut to the room
that the earlier ones leave. All results about frames, uploads, downloads and resources are about this loop. It is
the source's as long as the replies fit the packet, which is what `FileSync.FileSync.OnWrite` asks for.

What the code does not promise, although one might expect it:

- Requests may not be put behind others in one frame: their bytes may have been replaced, or their answers cut, by
  the time they are read. `SyncSplit.FeedSplit` says for every input what the second part of a frame meets;
  `SyncSplit.SplitsFreely` that, for a host that waits for its answers within each part, cutting behind a part is
  harmless for everything that may follow if and only if that part fails or is not answered; and
  `SyncLimits.StatReachesOn` shows a request of nine bytes whose answer replaces the next seven. STAT requests of
  paths of at least eight bytes are an exception (`SyncLimits.PipelinedStats`).
- One case of this is a block of an upload whose write fails: the part of it in the same frame is swallowed, the
  part in a later frame is read as a new command (`SyncLimits.BlockIsLost`, from an idle service).
- The answers to a frame need not fit the packet they are stored in: for every payload size of at least 64 there is
  a frame within it whose answers are longer (`SyncLimits.AnswersCanOutgrow`).
- A download ends with DONE if and only if none of its reads fails; otherwise it ends with FAIL after some part of
  the file, perhaps all of it (`SyncStreams.DownloadIsExact`).
- Packets allocated before the connect hold CNXN_PAYLOAD_SIZE bytes, but answers are made for PAYLOAD_SIZE, and the
  dispatch does not wait for the connect. An answer alone in its packet fits it, whatever the state and the system,
  if and only if the packet holds at least PAYLOAD_SIZE bytes (`SyncLimits.AnswersFitExactly`).
- Packets queued on the socket of a service that is closed are never released, nor are packets whose write is
  refused. Any number below FRAME_MAX can be lost in this way while another service is listed
  (`ClientLimits.PacketsAreLost`), but never all of them while the client is open, so a marked pool always has
  somebody left to release a packet (`ClientTheorems.MarkedPoolHasAHolder`). If the closed service was the last one,
  the callback of its cancelled write enters `adb_service_close` with an empty list, whose walk
  (adb_client.c:411) reads through a null pointer: the model goes on there, the source does not.

## Model

| member | source | states |
|---|---|---|
| Frame.EncodedFrameIsAccepted | adb_client.c:63-86 | a frame within the limit, sealed by `send_frame`, passes the magic, length and checksum tests and reads back as the same command, arguments and payload, whatever follows it |
| Frame.AcceptedBytesAreAnEncoding | adb_frame.c:24-85 | conversely, bytes that pass the three tests are exactly the encoding of the frame that is delivered |
| Frame.Checksum | adb_client.c:71-77 | the loop computes the byte sum modulo 2^32 of the first `data_length` bytes |
| Frame.CheckFrameData | adb_frame.c:68-85 | accepts exactly the payloads whose sum is the `data_check` of the header |
| Frame.CommandsAreLetters | adb.h:62-66 | the five commands go over the wire as the letters CNXN, OPEN, OKAY, CLSE and WRTE |
| Frame.FrameLayout | adb_client.c:63-86 | the bytes of a frame: command, two arguments, length, byte sum, the bytewise complement of the command, and the payload from offset 24 |
| Bytes.SumOfParts | adb_client.c:71-77 | the checksum is additive and the identity on single bytes |
| Decoder.DecodeInvertsEncode | adb_client.c:63-86 | decoding any concatenation of encoded frames, each within the limit in force when it comes, gives back these frames and leaves nothing |
| Decoder.EncodeInvertsDecode | adb_frame.c:24-85 | the accepted part of any byte stream is the encoding of the frames it decodes to |
| Decoder.DecodeAppend | hal/hal_uv_packet.c:178-212 | decoding may stop anywhere and go on from the bytes left over |
| ClientReassembly.StepRefines | hal/hal_uv_packet.c:114-213 | every event keeps the receiver in step with the one-shot decoder over all bytes read so far |
| ClientTheorems.ReassemblyRefinesDecoding | hal/hal_uv_packet.c:149-213 | over every run, with any read sizes and refused allocations in between, the frames delivered and the point of rejection are those of the decoder, no byte after the offending part has been read, and the buffer offered is never empty |
| ClientTheorems.FramesArriveInAnyPieces | hal/hal_uv_packet.c:178-212 | frames built by `send_frame` and read in any pieces arrive unchanged, each once and in order |
| ClientFrames.LimitInForce | adb_frame.c:38-66 | over every run: a frame whose bytes are read next is delivered with its last byte if its payload is at most PAYLOAD_SIZE when a CNXN is among the frames delivered before it, and at most CNXN_PAYLOAD_SIZE otherwise; if it is longer, the client is closed behind its header and nothing is delivered |
| ClientInvariant.AllocatePool | hal/hal_uv_packet.c:62-91 | an allocation gives a packet nobody owns, or sets the mark and gives none; the count stays exact |
| ClientInvariant.ReleasePool | hal/hal_uv_packet.c:40-60 | a release never meets a count of zero (the assertion holds) and keeps the count exact, although the kicks it runs allocate again |
| ClientTheorems.PoolAccounting | hal/hal_uv_packet.c:40-91 | in every reachable state `0 <= frame_count <= FRAME_MAX + 1`, the live packets number `min(frame_count, FRAME_MAX)`, none has two owners, and all carry numbers already given out |
| ClientTheorems.NoLostWakeup | hal/hal_uv_packet.c:64-71 | in every reachable state, if the transport or a service that may read is not reading, or a stream still has its OKAY or CLOSE to send, the pool carries the mark |
| ClientTheorems.MarkedReleaseServes | hal/hal_uv_packet.c:48-56 | the release that clears the mark restarts the transport and every service that may read, serves exactly one of the streams with something to send, and the mark comes back exactly when another one is left |
| ClientTheorems.MarkedPoolHasAHolder | hal/hal_uv_packet.c:62-91 | an open client has lost fewer than FRAME_MAX packets, so while its pool is marked the receiver or an outstanding write holds a packet; in a closing client this is so exactly while fewer than FRAME_MAX are lost |
| ClientLimits.PacketsAreLost | adb_client.c:403-427 | for every number below FRAME_MAX there is a run after which an open client, its sync service still listed and nothing outstanding, has lost that many packets, each queued on the socket of a stream that the peer closed |
| ClientTheorems.StopAndWait | hal/shell_service_uv.c:98-206 | by the frames on the wire, a stream or shell has at most one unanswered WRTE, exactly while it waits; while it waits it does not read, so the assertion of `alloc_buffer` holds |
| ClientTheorems.ForwardStream | tcp_service.c:104-182 | at most one connect OKAY is sent; it precedes every WRTE and every write acknowledgement, and each accepted WRTE is acknowledged at most once |
| ClientTalk.StreamIsCarried | tcp_service.c:63-182 | in every state of every run, a listed stream or shell whose connect has not failed was opened by an OPEN of its own kind of name, has been handed, each once and in order, exactly the payloads of the WRTE frames delivered for it since, and has sent in its WRTE frames, in order, exactly the bytes read from its socket or pipe; a packet still queued on its socket holds the bytes that were handed over with it |
| ClientTheorems.ReadTakes | hal/shell_service_uv.c:98-147 | what is read with a packet at hand is all that is there, up to PAYLOAD_SIZE bytes |
| ClientTheorems.FramesNameThePeer | adb_client.c:307-333 | in every run each OKAY and WRTE that goes out under the id of a listed service carries the id of the peer that opened it, replies that waited in a packet included |
| ClientTheorems.FramesAreEncodings | adb_client.c:63-86 | in every run each frame offered to the transport is the encoding of the fields and the payload it carries |
| ClientTheorems.FailedConnectIsReported | tcp_service.c:104-152 | over every order of connect results, refused allocations and kicks: a stream whose connect has failed stays listed without its id, the pool marked, until it is closed; it is closed at most once, and the entry of the history just before is its one report, a CLOSE with local id 0 to its own peer, or a CLOSE that the peer itself sent for local id 0 |
| ClientTheorems.ReportOnce | tcp_service.c:104-114 | the kick that finds a packet for such a stream sends exactly this report with it and unlinks exactly this stream; without a packet only the pool is marked |
| ClientTheorems.ServiceTable | adb_client.c:335-441 | in every run non-zero ids strictly decrease along the list, lookup finds the one matching service or none, and a service is registered once, closed at most once and listed exactly in between |
| ClientTheorems.CloseRemovesOne | adb_client.c:403-427 | closing a listed service removes it alone |
| ClientTheorems.DestroyClosesAll | adb_client.c:470-481 | destroying the client empties the list, and every service ever registered has been closed exactly once |
| ClientTheorems.ReplyLife | hal/hal_uv_packet.c:93-112 | a packet with reply bytes in an outstanding write is an OKAY; it goes out once more as a WRTE with the same ids and exactly these bytes and is then freed; without reply bytes it is freed at once |
| ClientTalk.SyncIsAsked | adb_client.c:177-240 | in every state of every run, a listed sync service was opened by an OPEN of its name and peer, has been asked, each once and in order, exactly what the WRTE and READY frames delivered since then ask of it, and has refused nothing; while the client is open each of its replies is the payload of one WRTE sent for it or waits behind its OKAY |
| ClientTalk.TalkIsSuffix | adb_client.c:483-540 | that OPEN and the frames since are the last of all frames delivered |
| ClientAnswers.ConnectAnswered | adb_client.c:99-108 | a CNXN is answered by a CNXN with the version 0x01000000, PAYLOAD_SIZE and the banner, and connects the client |
| ClientAnswers.OpenIgnored | adb_client.c:138-142 | an OPEN without the peer's id, or with an id of this side, is only released |
| ClientAnswers.OpenAnswered | adb_client.c:144-163 | an OPEN of `sync:` or of a name that begins with `shell` registers the service under the next id and is answered by an OKAY with this id and the peer's |
| ClientAnswers.ForwardOpened | adb_client.c:156-159 | an OPEN of `tcp:` registers a stream that is not connected and is not answered yet |
| ClientAnswers.OpenRefused | adb_client.c:146-154 | an unknown or refused name is answered by a CLSE with local id 0, a one-shot reply by an OKAY under the next id with the reply waiting behind it; no service is listed |
| ClientAnswers.StrayAnswered | adb_client.c:181-213 | a WRTE or OKAY that no service matches is answered by a CLSE with the two ids exchanged |
| ClientAnswers.WriteAnswered | adb_client.c:188-201 | a WRTE for a connected stream or shell is queued whole and not answered yet; if the service or its socket refuses, a CLSE with the service's ids closes it |
| ClientAnswers.CloseAnswered | adb_client.c:166-175 | a CLSE closes exactly the service with this id and peer, silently, and its packet is released |
| ClientAnswers.UnknownCommand | adb_client.c:530-540 | any other command closes the client, its packet released |
| ClientAnswers.SocketWritten | tcp_service.c:154-163 | a completed socket write is answered by an OKAY with the service's ids, a failed one by a CLSE with them and the end of the service |
| ClientAnswers.TransportWriteFailed | hal/hal_uv_packet.c:93-112 | a failed transport write releases its packet, drops the reply in it and closes the client |
| ClientAnswers.ReadEnds | hal/shell_service_uv.c:126-133 | the end or an error of a shell, and an error of a stream, are answered by a CLSE with the service's ids; an empty read of a stream only gives its packet back |
| ClientAnswers.ReadStops | hal/shell_service_uv.c:120-124 | without a packet nothing is read: only this reader stops, and the pool is marked |
| ClientAnswers.NothingRead | hal/hal_uv_packet.c:149-178 | a read callback without bytes gives its packet back, unless part of a frame is already in it |
| ClientAnswers.TransportFails | hal/hal_uv_packet.c:149-213 | a transport error closes the client and nothing else, if there is a packet for the read callback |
| ClientAnswers.ConnectReported | tcp_service.c:202-220 | with a packet at hand a connect is answered by an OKAY with the stream's ids, a failed one by a CLSE with local id 0 |
| ClientLedger.ProcessMoved | adb_client.c:483-540 | processing a frame disposes of its packet exactly once (freed, offered to the transport, or left with a service) and of no other packet allocated before; packets carry increasing numbers, and those live are below `nextPid` |
| ClientRuns.StepInv | adb_client.c:134-240 | every event keeps the pool exact, the wire accounts of every service in balance, the table in order and nobody forgotten |
| ClientRuns.RunInv | adb_client.c:453-540 | so does every run |
| Client.Client.constructor | adb_client.c:453-458 | a new client shows the initial state |
| Client.Client.Allocate | hal/hal_uv_packet.c:62-91 | the fields follow `ClientSpec.Allocate` |
| Client.Client.Release | hal/hal_uv_packet.c:40-60 | the count, and through the kicks the list, the services and the frames sent, follow `ClientSpec.Release` |
| Client.Client.SendFrame | adb_client.c:63-86 | the packet is sealed with magic and checksum and offered once; a refused write closes the client |
| Client.Client.SendClose | adb_client.c:88-97 | a CLSE without payload or pending reply is offered |
| Client.Client.SendOkayWithData | adb_client.c:307-315 | an OKAY without payload is offered, its pending reply kept |
| Client.Client.SendData | adb_client.c:327-333 | a WRTE with exactly the pending bytes is offered, and nothing is pending afterwards |
| Client.Client.RegisterService | adb_client.c:335-340 | the new node becomes the head of the list, with the next id |
| Client.Client.FindService | adb_client.c:429-441 | the node returned is the first in the list with this id (and peer, unless 0), or null if there is none |
| Client.Client.Predecessor | adb_client.c:404-420 | the walk finds the node before a listed service, and null for the head or a service that is not listed |
| Client.Client.Unlink | adb_client.c:403-420 | the list is the old one without this service, the order of the others kept, or the same list if the service is not in it |
| Client.Client.CloseService | adb_client.c:403-427 | unlink, CLOSE if a packet is at hand, and on_close, as `ClientSpec.CloseService`; nothing at all for a service that is not listed |
| Client.Client.TryClose | tcp_service.c:104-114 | with a packet the service is closed, without one only the pool is marked |
| Client.Client.TryConnect | tcp_service.c:116-130 | with a packet the stream is connected, reads and sends its OKAY; without one only the pool is marked |
| Client.Client.OnKick | tcp_service.c:132-152 | each state of a stream resumes, retries or does nothing, as `ClientSpec.OnKick` |
| Client.Client.KickServices | adb_client.c:443-451 | walking the links while services unlink themselves kicks every service exactly once |
| Client.Client.Kick | hal/hal_uv_client_tcp.c:76-88 | the transport reads again and every service is kicked |
| Client.Client.HandleOpen | adb_client.c:134-164 | the four ends of an OPEN: ignored, refused, answered at once, or a new service of the kind its name begins with, that answers now or later |
| Client.Client.HandleClose | adb_client.c:166-175 | the matching service, if any, is closed without a CLOSE, and the packet is released |
| Client.Client.HandleWrite | adb_client.c:177-202 | unknown id, refused, answered, or left with the service |
| Client.Client.SyncWrite | adb_client.c:188-199 | an error of the sync service closes it, otherwise its reply goes behind the OKAY |
| Client.Client.HandleOkay | adb_client.c:204-240 | the peer id is learnt once, the service gets its credit back, and the packet is sent on or released |
| Client.Client.SyncOkay | adb_client.c:219-239 | an error closes the sync service, a message is sent at once as a WRTE, and without one the packet is released |
| Client.Client.ProcessPacket | adb_client.c:483-540 | the dispatch follows `ClientSpec.ProcessPacket`; an unknown command releases the packet and closes the client |
| Client.Client.AllocateFrame | hal/hal_uv_packet.c:114-147 | the length offered is never zero while a packet is incomplete, stays inside its memory, and is what is missing of the header or of the packet |
| Client.Client.OnDataAvailable | hal/hal_uv_packet.c:149-213 | reading the header from the packet's memory, as yet partly unwritten, decides as if only the bytes received were looked at, and the header is checked exactly once |
| Client.Client.TransportRead | hal/hal_uv_packet.c:114-213 | allocation callback, read and read callback together follow `ClientSpec.TransportRead` |
| Client.Client.OnStreamData | tcp_service.c:63-90 | the bytes go out as one WRTE and the stream waits, or the service is closed |
| Client.Client.StreamRead | hal/hal_uv_socket.c:29-78 | a refused allocation stops the reader, an error closes, an empty read gives the packet back, data is passed on |
| Client.Client.ShellRead | hal/shell_service_uv.c:98-147 | a refused allocation stops the reader, an end or error closes, data goes out as one WRTE and takes the credit |
| Client.Client.ConnectDone | tcp_service.c:202-220 | both results of a connect, with and without a packet at hand |
| Client.Client.AfterWrite | hal/hal_uv_packet.c:93-112 | a failed write releases and closes; a pending reply is sent; otherwise the packet is released |
| Client.Client.AfterSocketWrite | tcp_service.c:154-163 | a completed socket write is acknowledged with its own packet, a failed one closes the service |
| Client.Client.DestroyServices | adb_client.c:470-481 | walking the saved `next` pointers closes every service, head first, and leaves an empty list |
| Client.Client.React | hal/hal_uv_packet.c:93-213 | whatever event libuv delivers to an open client, the class does the step of the model and keeps both the invariant and the agreement with the decoder |
| SyncSpec.HandleProgress | file_sync_service.c:730-777 | every handler that continues decreases `2*data_length`, plus one in the `*_DATA` states, and keeps the buffered bytes within bounds |
| SyncSpec.Step | file_sync_service.c:737-773 | one iteration of the loop makes progress or ends it, for every input and every failure |
| SyncSplit.FeedSplit | file_sync_service.c:730-777 | for every state, system and pair of parts of a frame, the second part runs on where the first has left the service, behind its replies, with the bytes these reach replaced and the rest of a failed block skipped |
| SyncSplit.SplitsFreely | file_sync_service.c:730-777 | for a host that waits for its answers within each part, whether it acknowledges them or not, and a frame with room for a command behind `x`: whatever follows `x` may come in a frame of its own, with the same state, effects, result and replies heard, if and only if `x` fails or is not answered |
| SyncSplit.ClearIsSeparate | file_sync_service.c:182-213 | storing the replies over the packet's input is storing them elsewhere, if each ends at or before the next unread byte or nothing is unread |
| SyncSplit.FramesDoNotMatter | file_sync_service.c:730-777 | for a host that sends nothing behind a request until it has been answered, however its bytes are cut into frames, state, buffer, effects, result and replies heard are those of one frame |
| SyncSplit.SplitsAgree | file_sync_service.c:215-240 | two ways in which such a host cuts the same bytes end in the same state with the same effects and replies |
| SyncTransfer.TameAnswersLast | file_sync_service.c:730-777 | a byte stream that is answered only at its end has no unread input behind an answer |
| SyncTransfer.TameIsUnpipelined | file_sync_service.c:730-777 | however such a stream is cut, its sender has waited for every answer |
| SyncWorld.WriteAllAppend | file_sync_service.c:545-563 | writing in two pieces is writing the whole, including where an error strikes |
| SyncWorld.ReadTakesFront | file_sync_service.c:623-651 | a read that does not fail takes from 1 to `n` bytes from the front of what is left, and none only at the end or for `n == 0` |
| SyncAnswers.IdsAreLetters | file_sync_service.c:37-49 | the ten ids go over the wire as their four letters |
| SyncAnswers.DentLayout | file_sync_service.c:71-77 | the fields of a DENT in their order, each with its lowest byte first |
| SyncAnswers.ZeroEndsTheArgument | file_sync_service.c:685-728 | the argument of a request ends at its first zero byte: what follows it changes neither the answer nor the effects, in any two cuts into frames |
| SyncAnswers.StatIsAnswered | file_sync_service.c:296-319 | for every cut of the request, STAT is answered by one message with what `stat` says of the requested path at that turn, or zeros, and the service is idle |
| SyncAnswers.RefusedDownload | file_sync_service.c:605-614 | for every path and cut of the request, if the file does not exist or its open fails, the one answer is FAIL with the length and text of "file does not exist", and the service is idle with the system unchanged but for the turn |
| SyncAnswers.FirstAnswer | file_sync_service.c:605-651 | for every path and cut, the first message of a download is FAIL if and only if the file does not exist or the open or the first read fails, DONE for an empty file, and else DATA with bytes from its start |
| SyncAnswers.RefusedListing | file_sync_service.c:321-361 | for every cut, LIST of a path of at least PATH_MAX-3 bytes or of one that does not open is answered by DONE at once, with nothing held and the path block released |
| SyncAnswers.UploadBegins | file_sync_service.c:431-502 | for every argument and cut, SEND unlinks the path and asks for its parents; it is answered by FAIL with the system's reason, nothing held, if and only if the path is relative, a parent is refused or the file does not open, and otherwise holds the file, or the path of the link, unanswered |
| SyncAnswers.InvalidMessage | file_sync_service.c:504-533 | anything but DATA and DONE between the blocks of an upload is answered by FAIL "invalid data message" and ends the upload |
| SyncAnswers.BadHeader | file_sync_service.c:653-683 | QUIT and arguments of 4096 bytes or more end the service without an answer |
| SyncAnswers.UnknownCommand | file_sync_service.c:685-728 | so does any id but STAT, LIST, SEND and RECV |
| SyncAnswers.AckOutsideStreams | file_sync_service.c:779-815 | an acknowledgement that no stream waits for ends an upload between two blocks, is ignored by an idle service and is an error in a name, block or target |
| SyncLinks.LinkUploadIsExact | file_sync_service.c:431-602 | for every absolute path with a link mode, every target shorter than PATH_MAX, up to its first zero byte, and every cut into frames: a link at the path that leads to the target replaces what was there, no other link or file changes, one OKAY is heard, and the service is idle with the path block released |
| SyncLinks.RefusedLink | file_sync_service.c:573-602 | for every cut, a target that fills the buffer or a link the system refuses is answered by FAIL with the reason of the source, with no link made and the path block released |
| SyncLinks.TargetIsRefused | file_sync_service.c:573-602 | the first byte of a target longer than the buffer is answered by FAIL, and one in a build without symlinks ends the service; the path block is released |
| SyncUpload.PathAndMode | file_sync_service.c:436-446 | the argument of a SEND is cut at its last comma, the mode text follows it, and without a comma it is all path and no link |
| SyncUpload.UploadIsExact | file_sync_service.c:431-570 | for every path, blocks, cut into frames and pattern of short writes, the file becomes the concatenation of the blocks, no other file or link changes, one OKAY is heard, the service is idle with nothing open, and no frame has unread input behind an answer |
| SyncHonesty.OkayIsHonest | file_sync_service.c:431-570 | whatever calls fail, wherever in a frame FAIL is stored over unread blocks, however the bytes are cut and wherever the host acknowledges what it has heard, a lone OKAY is heard only if the file is exactly the concatenation of the blocks, no other file changed and nothing is left open |
| SyncHonesty.LossIsHeard | file_sync_service.c:559-561 | a host whose block is lost in part at the end of a frame hears more than an OKAY, whatever it acknowledges |
| SyncStreams.DownloadIsExact | file_sync_service.c:605-651 | for every pattern of short reads the DATA messages, one per acknowledgement, each within the payload, concatenate to the file and end with one DONE if and only if none of these reads fails, and otherwise to a part from its start, ended by FAIL; the acknowledgements are bounded by the file's length |
| SyncStreams.AckProgress | file_sync_service.c:779-815 | each acknowledgement decreases the number of messages that can still come |
| SyncStreams.RoundTrip | file_sync_service.c:431-651 | pushing a file and pulling it back gives the pushed bytes |
| SyncStreams.ListingIsComplete | file_sync_service.c:321-429 | a listing is one DENT per entry in order, with what lstat says at that turn or zeros if the name is too long or lstat fails, the name cut only to the space left, and one DONE; the directory and the path block are released |
| SyncResources.ResourcesFollowThePhase | file_sync_service.c:265-294 | after any frames, whatever their replies replace, and any acknowledgements, the service holds exactly what its state says, of the right kind, and has released everything else exactly once |
| SyncResources.ClosingReleasesAll | file_sync_service.c:817-821 | closing at any time leaves nothing open, and every resource ever acquired has been released exactly once |
| SyncResources.AncestorsInOrder | file_sync_service.c:250-255 | the list of ancestors is exactly the prefixes that end before a slash, each parent before its children |
| SyncResources.ParentsInOrder | file_sync_service.c:242-263 | they are asked for in this order up to the first real refusal, and success means that none was refused |
| SyncResources.ParentsOfThePath | file_sync_service.c:242-263 | for the path of a SEND: a relative path is refused unasked; otherwise its ancestors below the root are asked for, parents first, and it succeeds if and only if each exists or is created |
| SyncLimits.StatReachesOn | file_sync_service.c:296-319 | a STAT request of nine bytes is answered by sixteen, which replace the next seven bytes of its frame, although nothing fails |
| SyncLimits.BlockIsLost | file_sync_service.c:545-563 | from an idle service: a failing write inside a block cut over two frames, whose second byte is swallowed in one frame and taken for a command in the next |
| SyncLimits.AnswersFitExactly | hal/hal_uv_packet.c:73-79 | every message that is alone in its packet, in answer to a frame or to an acknowledgement, fits it, in every state and system, if and only if the packet holds at least PAYLOAD_SIZE bytes |
| SyncLimits.StepFits | file_sync_service.c:182-198 | whatever the state and the system, an answer that stands behind others in its packet stays within PAYLOAD_SIZE as long as 20 bytes are left for it |
| SyncLimits.PipelinedStats | file_sync_service.c:296-319 | a frame of STAT requests for paths of at least eight bytes is answered in full and in order, one STAT message each with what the system says at its turn, and the replies fit the frame |
| SyncLimits.AnswersCanOutgrow | file_sync_service.c:182-213 | for every payload size of at least 64, a frame that fits it and whose answers do not |
| Transfer.PushOverTheTransport | adb_client.c:177-202 | in every run in which a sync service is listed and answers as `file_sync_on_write` and `file_sync_on_ack` do: if the frames delivered for it since its OPEN, among any others and read in any pieces, carry an upload, the file is exactly the pushed blocks, the service is idle with nothing open, and the one reply, OKAY, is the payload of the one WRTE sent for it, or still waits |
| Transfer.ServedOverTheTransport | adb_client.c:177-240 | the same for every conversation: the service ends where the frames since its OPEN lead it, these are the last frames decoded from the bytes read, and its replies are the payloads sent or waiting |
| Transfer.OkayOverTheTransport | adb_client.c:177-240 | whatever calls fail, a lone OKAY is sent or about to be sent in answer to an upload only if the file is exactly the pushed blocks |
| TransferRun.PushHappens | adb_client.c:134-202 | there is a run, from the first byte of a client, that meets all of this and after which the WRTE with the OKAY has been sent |
| FileSync.Os.Write | file_sync_service.c:549-557 | a write is interrupted without effect, fails at its first byte, or has put some bytes from the start into the file |
| FileSync.FileSync.constructor | file_sync_service.c:834-849 | a new service is idle with nothing buffered |
| FileSync.FileSync.ReadFromPacket | file_sync_service.c:215-240 | the buffer and what is left of the packet are those of `SyncSpec.Gather`, in all three cases |
| FileSync.FileSync.PrepareFail | file_sync_service.c:182-198 | a FAIL message stands behind the replies already in the packet, its reason cut to the space left, the unread input is what it has not reached, and the state is untouched |
| FileSync.FileSync.StateReset | file_sync_service.c:265-294 | what the state holds is released through the union member last written, and the service is idle |
| FileSync.FileSync.InitStat | file_sync_service.c:296-319 | one STAT message, zeros if there is no such file |
| FileSync.FileSync.InitList | file_sync_service.c:321-361 | the first entry of a directory, or DONE with nothing held |
| FileSync.FileSync.ProcessList | file_sync_service.c:363-429 | one DENT within the payload, or DONE |
| FileSync.FileSync.CreatePathDirectories | file_sync_service.c:242-263 | the calls are those of `SyncSpec.Parents`, and the path buffer is unchanged on every exit although it is cut and restored in place |
| FileSync.FileSync.CutArgument | file_sync_service.c:436-446 | the argument in the buffer is cut at its last comma, and the link flag is read from what follows it |
| FileSync.FileSync.InitSend | file_sync_service.c:431-465 | unlink, parents, then a file or a link, or FAIL |
| FileSync.FileSync.InitSendFile | file_sync_service.c:467-480 | the descriptor is held in the header state, or FAIL |
| FileSync.FileSync.InitSendLink | file_sync_service.c:482-502 | the path block is held in the header state |
| FileSync.FileSync.InitRecv | file_sync_service.c:605-621 | the first message of a file, or FAIL with nothing held |
| FileSync.FileSync.ProcessRecv | file_sync_service.c:623-651 | one DATA within the payload, DONE or FAIL |
| FileSync.FileSync.WaitCmdHandler | file_sync_service.c:653-683 | a command header gathered over any number of frames, QUIT and long names refused |
| FileSync.FileSync.WaitCmdDataHandler | file_sync_service.c:685-728 | a name gathered over any number of frames, terminated in place and dispatched |
| FileSync.FileSync.HeaderHandler | file_sync_service.c:504-533 | DATA moves to the data state by `state += 1`, DONE is answered with OKAY, anything else with FAIL |
| FileSync.FileSync.WriteBlock | file_sync_service.c:545-563 | short and interrupted writes together put every byte in the file up to the first real failure |
| FileSync.FileSync.FileHandler | file_sync_service.c:535-570 | the piece of the block in this frame is written, and `state -= 1` follows its last byte |
| FileSync.FileSync.SymHandler | file_sync_service.c:573-602 | the target is gathered, terminated in place and linked, or FAIL |
| FileSync.FileSync.OnWrite | file_sync_service.c:730-777 | for every frame whose replies fit the packet, with input behind answers or not, the loop terminates with the state, effects, replies and result of `SyncSpec.Loop` |
| FileSync.FileSync.OnAck | file_sync_service.c:779-815 | the next message of a stream, or the reset that follows its last one, as `SyncSpec.Ack` |
| FileSync.FileSync.OnClose | file_sync_service.c:817-821 | whatever is held is released |

## Left out

- FileSync.FileSync.OnWrite: asks that the replies to the frame fit the packet and the payload declared for it; what the source overwrites otherwise (`SyncLimits.AnswersCanOutgrow`) is not modelled. A frame with nothing unread behind an answer always meets this in a packet of PAYLOAD_SIZE bytes (`SyncLimits.AnswersFitExactly`), as uploads and the requests of downloads and listings do in every cut, and so do several STAT requests of long paths (`SyncLimits.PipelinedStats`).
- FileSync.FileSync.OnAck: asks the same of the one message it adds.
- FileSync.FileSync.InitStat: what `stat`, `lstat` and a directory say of a path at a turn is chosen by the environment, independently of the files of the model, and so is the text of `strerror`; file modes and the `strtoul` of the mode text are reduced to the link flag.
- SyncUpload.UploadIsExact: is stated for an environment in which no call fails; for failing calls `SyncHonesty.OkayIsHonest` says what an OKAY means. The path is absolute and the mode text does not ask for a symlink.
- SyncStreams.RoundTrip: like `SyncUpload.UploadIsExact`, for an environment in which no call fails.
- ClientLimits.PacketsAreLost: for numbers a little below 2^32, so that every stream has an id that fits a frame.
- SyncSplit.SplitsFreely: about frames whose requests are answered at their end; for others `SyncSplit.FeedSplit` says what happens, but whether it differs then depends on the system and on the size of the frame.
- Client.Client.HandleWrite: the answer of the sync service (at most PAYLOAD_SIZE reply bytes, or an error) is a choice of the environment here, also for packets allocated before the connect. `FileSync` proves what it is, and the results of `Transfer` are about the runs in which the two agree.
- Client.Client.HandleOpen: whether the constructor that a name selects succeeds, and which kinds are built in, is a choice of the environment; the port of a forward and the command of a shell are not modelled.
- Client.Client.SendFrame: packets of a client are values carrying the identity of their memory; that headers are rewritten in place in this memory is not modelled.
- Client.Client.DestroyServices: does not release the packet being received nor the requests cancelled by closing the transport.
- Client.Client.HandleOkay: the answer of the sync service is a choice of the environment here too, and reading from a socket that has been stopped never fails to start again.
- ClientTheorems.NoLostWakeup: says who is waiting between events; that libuv delivers completions at some time is not stated.
- Authentication: the model is the default build without CONFIG_ADBD_AUTHENTICATION, where an AUTH frame is an unknown command and a CNXN frame connects.
- Write callbacks cancelled by the close of a service: its queued packets are counted as lost, also where the callback would find an empty list.
- The connect callback of a stream that the peer closes while it is still connecting: the source frees the stream (tcp_service.c:190-199); in the model its connect simply never completes.
- malloc failures, overflow of the 32-bit service id (ids are unbounded; a frame carries them modulo 2^32), endless EINTR.
- PATH_MAX is 4096.
- Logcat, reboot, the banner text, authentication keys and logging.
- libuv itself, ptys and child processes, and the USB and QEMU transports: only reading flags, pending writes and completions appear.

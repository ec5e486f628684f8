# Verification of the LLNCP transfer protocol

LLNCP copies files one by one over a permanent connection of two TCP sockets: headers and answers travel on the
command socket, path and file bytes on the data socket. This project models the daemon (`client_daemon.c`), the
server thread (`server.c`), the shared socket layer (`libs/libllncp.c`), the local client's encoder (`client.c`) and
the list macros (`libs/utlist.h`) in Dafny, and proves what the protocol promises. `dafny verify dfyconfig.toml`
checks everything.

## Layout

| file | content |
|---|---|
| `Bytes.dfy`, `Headers.dfy`, `Messages.dfy` | C strings and decimals, the two headers, the short messages; round trips |
| `Chunks.dfy` | arithmetic of the div/mod loops |
| `Sockets.dfy`, `Wire.dfy`, `Transfer.dfy`, `Server.dfy` | the imperative layer: partial `send`/`recv`, real buffers, the loops of both programs |
| `Protocol.dfy` | daemon and server thread as a step system over byte channels |
| `ProtocolInvariant.dfy`, `ProtocolSteps.dfy` | the invariant and one lemma for each step |
| `ProtocolTheorems.dfy` | resynchronisation, integrity, what a resend sends |
| `ProtocolProgress.dfy` | when the programs block each other, termination of every request |
| `ProtocolStale.dfy` | what a wrong discard leads to |
| `ProtocolPaths.dfy`, `ProtocolRounds.dfy`, `ProtocolSends.dfy` | runs as a relation between states; the server's and the daemon's methods as runs |
| `ProtocolRuns.dfy` | concrete runs that reach the failures |
| `MergeSpec.dfy`, `ListSort.dfy`, `ListOps.dfy` | the list macros on heap nodes, the mergesort and its sequence specification |
| `Connections.dfy` | pairing of the two sockets of a client |

## The imperative layer

The methods on sockets, buffers and files are those of the source, loop by loop. What they depend on besides their
arguments is recorded: a `Socket` counts the sends that failed and the answers of `select` that it may not be written or
read, a `Disk` the writes it refused. Only `Recv`, `Send`, `Post`, `Select` and `Write` are free in what they do. Every
other method's result is fixed by the streams and these records, so that on sockets and a disk without a failure there
is one outcome.

## The protocol model

A state holds the daemon's loop position with its counters, the `discard` field, the header as printed into
`dest_file_attrs_buffer`, what `file_attrs` yields beside the request that header was printed for,
`file_resend_needed`, the server thread's position with its buffers, and three byte channels. A step is one system
call or one branch. Sends and receives move any positive number of bytes the call allows; `BUFFERSIZE`, the data
channel's capacity and the free space `select` needs to report a socket writable are parameters. Only the data socket
opened by `init` is non-blocking: on a later connection a `send` that has begun returns when all its bytes are on the
channel. `fopen`, `mkdir`, a disk error, a lost connection and a local client that goes
away are choices of the environment.

The server may refuse a file while its bytes are still arriving. The daemon then prints how many bytes it had pushed
into the next header, and the server drops that many. The central results say when this count is right, and what holds
when it is not. The shift is by how much the discard of the next header exceeds the bytes on the channel.

* `ShiftConserved`: in every run the shift is conserved by all steps, refusals included, except those that `NextShift`
  names: a reconnect and an accepted directory set it to what the discard field or the resent header then holds, and a
  file that cannot be opened after a reconnect clears it.
* `ResynchronisedExactly`: in a run without stale steps every way back to the head of the request loop keeps the count
  exact, except the steps that `Stale` names, and after each of those the count is wrong. They are an accepted
  directory whose header carried a nonzero discard (the field is only cleared by `send_data`), a reconnect that resends
  a header with a nonzero discard, and a forced reconnect while the field is nonzero. Each condition can be read off
  before the step. `StaleStepOccurs` and `StaleReconnectsOccur` give legal runs with the shipped buffer size that
  contain each kind: one refused three-byte file is enough.
* `ServedFrom` and `StaleDiscardMisnames`: in every run the server reads name and file exactly the shift too far in path
  and payload (`WrongNameOccurs` reaches such a name). `StaleDiscardHangs`: a request whose file is shorter than the
  shift is never answered.
* `EndToEndIntegrity` and `NothingAcknowledgedShifted`: in every run, stale steps included, an acknowledgement is
  truthful, because while the shift is not 0 nothing is acknowledged at all.

The repository's README.md:6 promises automatic recovery of a broken connection; the code delivers it when the printed
discard is 0 (`ResendFromByteZero`) and not otherwise, and the model follows the code.

A local client that closes before its header is complete raises the same exception as a broken server connection, so
the daemon sends the previous header again (`EarlyCloseRepeatsRequest`). By then a client whose load failed may have
left its source, or a part of its destination, in `file_attrs`. `RepeatsExactly` gives the exact condition under which
the repeated request is the one its header was printed for: no source byte of a failed load arrived, or the header
announces no file bytes and the failed load reached no byte of the path. `IntactExactly` carries this over whole
runs, and `EndToEndIntegrity` states what an answer means in both cases. `OverwrittenFileSaved` is a legal run with the
shipped sizes in which a saved file is replaced by another client's byte and acknowledged.

`BlockedExactly` describes, for every run, the states of a request in which neither program can move; only a lost
connection ends them. Either, on a connection after the first, a server that has refused a file and a daemon inside
`send` on a full channel wait for each other; `StuckOccurs` reaches this for every channel that takes some whole
buffers and then a part of one, as with the shipped buffer and 4096 bytes of channel. Or the shift is not 0 and the
server waits for bytes that it has dropped; `StarvedOccurs` reaches this on the first connection. With shift 0 there is
none on the first connection (`NeverDeadlocked`), and a request whose file fits the channel comes back to the loop head
on any (`EveryRequestFinishes`).

## Other findings

* The header buffer of 31 bytes holds exactly the headers with at most 24 digits (`HeaderLength`). Below 10^10 bytes for
  every file it always suffices (`SmallFilesFit`); a path of 1000 bytes, 10^9 refused bytes and a file of 10^10 bytes
  together overflow it (`LargeFileOverflows`).
* `send_path` advances `BUFFERSIZE - 1` bytes a round but sends `BUFFERSIZE`; it sends the path and nothing else exactly
  when the path is shorter than `BUFFERSIZE - 1` (`PathWireExact`), which `PATH_MAX` guarantees here.
* An empty message leaves the receiver's text buffer as it was (`TextRoundTrip`, `MessagesRoundTrip`); a connection
  whose first message is empty therefore takes the token left in the buffer (`TokenExact`).
* A client path of `PATH_MAX` characters is refused by the daemon, every shorter one is read back (`RequestRoundTrip`).

## Model

| member | source | states |
|---|---|---|
| ProtocolTheorems.ShiftConserved | client_daemon.c:630-724 | in every run, whatever refusals and reconnects it contains, each step keeps the difference between the printed or next discard and the bytes of earlier requests, or sets it to what a reconnect, an accepted directory or an unopened resend leaves in field or header |
| ProtocolTheorems.ServedFrom | server.c:384-398 | in every run the name and file bytes the server holds are those that lie exactly that difference too far in path and payload |
| ProtocolTheorems.ResynchronisedExactly | client_daemon.c:652-703 | after any step that returns to the loop head from a run without stale steps, the next printed discard equals the bytes on the data channel if and only if the step is not stale |
| ProtocolTheorems.Resynchronised | server.c:384-398 | in every run without stale steps, between requests the next discard is the number of unconsumed bytes; a path read starts at the path's first byte, and path and file bytes held by the server are prefixes of what is sent |
| ProtocolTheorems.StepExact | client_daemon.c:630-724 | every single step of either program keeps the global invariant at the same shift if and only if it does not set the shift anew |
| ProtocolTheorems.StaleExact | client_daemon.c:652-703 | from an exact count exactly the stale steps, recognised by their guards, lead to a wrong one |
| ProtocolTheorems.RunKeeps | client_daemon.c:630-724 | the invariant holds after every run, with the shift that the run's steps make |
| ProtocolTheorems.EndToEndIntegrity | client_daemon.c:652-678 | in every run, stale steps included, on every connection: the i-th answer belongs to the i-th request handled; ACK_OK means exactly the path and bytes sent were written, of the lengths its header announced, and they are those of the request the header was printed for if no harmful load failed in between; a refused name is the path sent if no step was stale, and otherwise bytes of the same request |
| ProtocolTheorems.NothingAcknowledgedShifted | client_daemon.c:663-678 | from a wrong count on, nothing is acknowledged and the count stays wrong until a step whose guard clears it: a reconnect after which the next discard is 0, or a resend that cannot be opened |
| ProtocolTheorems.IntactExactly | client_daemon.c:642-647 | over any run until the next header is printed: what the daemon would send is marked as the printed request exactly when no load failed after its first source byte in a way the old header would show, and so marked it is that request |
| ProtocolTheorems.RepeatsExactly | client_daemon.c:642-661 | after one client's failed load and another's early close, the resent request is the one its header was printed for, whatever the failed load carried, if and only if no source byte of it arrived, or the header announces no file bytes and no destination byte was overwritten |
| ProtocolTheorems.ResendFromByteZero | client_daemon.c:641-666 | over any number of breaks with printed discard 0 the present connection carries the unchanged header, then path and file from byte 0 |
| ProtocolTheorems.HeldStep | client_daemon.c:630-650 | while a request is being sent or resent no other local client is accepted, its header is not reprinted, and only a break changes the shift, to the printed discard |
| ProtocolTheorems.EarlyCloseRepeatsRequest | client_daemon.c:693-698 | a local client gone before its header is complete makes the daemon send the previous request's header again, followed by what file_attrs now holds, which is the previous request if no harmful load failed since |
| ProtocolSteps.TakeMessageShifts | client_daemon.c:394-404 | taking a complete answer, in the middle of a file or at its end: a refusal keeps the shift, a success comes only when it is 0, and a forced close leaves what the discard field holds |
| ProtocolSteps.RestartKeeps | client_daemon.c:693-703 | a reconnect empties the channels and makes the shift the discard that the next header will carry |
| ProtocolSteps.ReplyLeavesRest | server.c:390-419 | when an answer is read the data channel holds exactly what was sent and will not be taken: nothing after success, the pushed file bytes less the shift after a refusal |
| ProtocolSteps.TakeHeaderKeeps | server.c:381-386 | a header read in fragments parses to what the daemon printed, and the server then drops exactly the printed discard |
| ProtocolSteps.PullDiscardKeeps | server.c:289-303 | dropping takes what earlier requests left first and then the request's own bytes, and no others |
| ProtocolSteps.PushDataKeeps | client_daemon.c:346-358 | any partial send inside a chunk puts the file's next bytes on the channel |
| ProtocolSteps.PullDataKeeps | server.c:254-280 | any partial receive inside a chunk leaves file plus buffer the next bytes of what is sent, from the path's end and the shift on |
| ProtocolProgress.BlockedExactly | client_daemon.c:337-353 | in every run, neither program can move by itself in a busy request if and only if the connection is not the first, the daemon is inside send, the channel is full and the server has refused the file, or the daemon waits for an answer and the server, which reads too far in the request, for more bytes; from there only a lost connection leads on |
| ProtocolProgress.NeverDeadlocked | client_daemon.c:477-481 | on the connection that init made non-blocking, in every state of a busy request with an exact count, as all are in runs without stale steps, one of the two programs can move by itself, whatever the channel's capacity |
| ProtocolProgress.EveryRequestFinishes | client_daemon.c:390-422 | every infinite schedule brings a request whose header was sent back to the loop head or into a blocked state; with an exact count to the loop head on the first connection, on any connection if its file fits the channel, and on any if the channel holds whole buffers only |
| ProtocolRuns.StuckOccurs | client_daemon.c:553-560 | for every buffer and channel size with a rest of at least the free space select wants, so also the shipped ones, a run into the blocked send: a client leaves while its request is read, and the next file, one byte larger than the channel, is refused |
| ProtocolRuns.StarvedOccurs | client_daemon.c:663-666 | with the shipped sizes a one-byte file after a stale directory blocks both programs on the first connection |
| ProtocolProgress.StepMakesProgress | server.c:293-301 | each step of a busy state ends the request or lowers a lexicographic measure of the remaining work of server and daemon |
| ProtocolProgress.InterruptedIsRejected | client_daemon.c:394-398 | a message taken while a file is being sent is a refusal, never an acknowledgement |
| ProtocolStale.StaleDiscardHangs | client_daemon.c:663-666 | whenever the count is wrong at the loop head, a request whose file is shorter than the difference is never answered and its path never read to the end, however the programs continue |
| ProtocolStale.OnlyRefused | server.c:390-419 | whenever the count is wrong at the loop head, a request of any size is answered only when the server's file system refuses or fails or its name check finds "../" |
| ProtocolStale.StaleStepShifts | client_daemon.c:652-703 | after every stale step the count is wrong at the loop head |
| ProtocolStale.StaleDiscardMisnames | server.c:384-419 | in every run, on every request under a wrong count, however many were refused before: the server opens only a name cut out of path and payload, what it stores there misses as many bytes as the count is wrong by, and it records no success |
| ProtocolRuns.WrongNameOccurs | server.c:384-390 | after the stale directory a four-byte file is opened under the name made of its own second byte and NUL |
| ProtocolRuns.StaleStepOccurs | client_daemon.c:663-666 | a legal run with the shipped sizes whose last step, an accepted directory, leaves a discard of 3 over an empty channel |
| ProtocolRuns.StaleReconnectsOccur | client_daemon.c:693-703 | legal runs in which a broken connection, and a local client that leaves before or after its header is printed, are stale |
| ProtocolRuns.OverwrittenFileSaved | client_daemon.c:642-661 | a legal run with the shipped sizes: a file is saved, a second client's load fails after its source, a third closes early, and the second client's bytes are acknowledged under the first one's header and path |
| Headers.HeaderLength | client_daemon.c:308-320 | the header is 7 bytes plus the digits, its first byte says so, and it fits its buffer if and only if there are at most 24 digits |
| Headers.SmallFilesFit | constants.h:25 | paths up to PATH_MAX with files below 10^10 bytes always fit |
| Headers.LargeFileOverflows | constants.h:25 | a path of at least 1000 bytes with a discard of at least 10^9 and a file of at least 10^10 bytes exceeds the buffer |
| Headers.HeaderBytes | client_daemon.c:308-320 | the bytes of one header of each kind, character by character |
| Headers.MalformedHeaders | server.c:196-206 | a peer that sends fewer than ten bytes, announces fewer than ten, or more than the buffer's thirty-one, is told apart from one that keeps the format |
| Headers.LoadSmallHeader | server.c:215-242 | headers of files below 10^10 bytes are read back whatever the field widths |
| Headers.LoadWidestHeader | server.c:215-242 | every header that fits and whose values are below 2^63 and 2^64 is read back |
| Headers.ParseEncodedHeader | server.c:215-242 | parsing a printed header returns its four values and passes the length check, whatever stale bytes follow it in the buffer |
| Headers.LoadEncodedHeader | server.c:192-209 | the two-phase read consumes exactly one header |
| Headers.HeadersRoundTrip | server.c:192-209 | repeated two-phase reads into one buffer recover a list of headers exactly and take no byte of what follows, whatever the buffer held |
| Headers.HeadersSelfDelimiting | server.c:192-209 | two equal command streams of equally many headers carry the same headers and the same rest |
| Headers.RequestRoundTrip | client_daemon.c:244-273 | the daemon reads back both paths of a local request and consumes exactly its bytes if and only if both lengths are at most PATH_MAX, and otherwise reports FILE_ERROR |
| Headers.LoadEncodedFileAttrs | client.c:49-68 | the local client's header is read back with both lengths |
| Headers.FileAttrsLength | constants.h:21 | the local header fits its buffer of twenty bytes if and only if both lengths have at most 16 digits together |
| Headers.MalformedFileAttrs | client_daemon.c:248-255 | a local client that sends or announces fewer than six bytes, or announces more than twenty, is told apart from one that keeps the format |
| Messages.LoadEncodedMessage | libs/libllncp.c:141-165 | a message is received with its flag and text and exactly its bytes are consumed |
| Messages.MessageLength | libs/libllncp.c:146-158 | a message announces its own length and fills the 255-byte buffer exactly when its text has 252 bytes |
| Messages.MessagesRoundTrip | libs/libllncp.c:171-196 | any list of messages arrives in order with the text buffer evolving message by message |
| Messages.TextRoundTrip | libs/libllncp.c:146-153 | the text buffer reads back the sent text exactly when the text is nonempty or the buffer was empty |
| Bytes.FieldRoundTrip | libs/libllncp.c:8-18 | a NUL-ended decimal is measured by _strnlen and read by strtol to its value |
| Bytes.DigitsPrinted | client_daemon.c:308-310 | the k-th byte from the right that sprintf writes is the character '0' plus the k-th decimal digit, and no '0' leads a positive number |
| Bytes.DecimalRead | server.c:223-234 | strtol and strtoull read the longest run of '0' to '9' as the sum of its digits by weight, up to the type's maximum |
| Sockets.Strnlen | libs/libllncp.c:8-18 | the scanning loop computes the length up to NUL or the maximum |
| Sockets.RecvBytes | libs/libllncp.c:41-56 | for every fragmentation the buffer gets exactly the next bytes, or SOCKET_CLOSED after the fewer that came |
| Sockets.SendBytes | libs/libllncp.c:62-91 | partial sends put all bytes on the wire in order, and the call fails exactly when one of its sends does |
| Sockets.SendPath | libs/libllncp.c:97-115 | the rounds put the sequence PathWire on the wire; the call fails exactly when a send does, and then a first part of PathWire is on the wire |
| Sockets.PathWireExact | libs/libllncp.c:97-115 | that sequence is the path if and only if its length is below BUFFERSIZE - 1; in general it is longer by one byte a round |
| Sockets.LoadPathInto | libs/libllncp.c:121-134 | a path is read whole, refused untouched when longer than PATH_MAX, or cut by a closed socket with what came in the buffer |
| Sockets.SendMessage | libs/libllncp.c:141-165 | the message built in the 255-byte buffer is the encoding of flag and text if and only if the text has at most 252 bytes; a longer one overruns the buffer, and otherwise the call fails exactly when the send does |
| Sockets.ReceiveMessage | libs/libllncp.c:171-196 | receiving agrees with the message decoder on every stream, and the text buffer gets what arrived even of an incomplete message |
| Wire.CreateDestFileAttrs | client_daemon.c:281-323 | the buffer starts with the encoding of command (1 for a directory, 2 for a file), lengths and the discard field, and keeps its old bytes behind; when stat fails the local client is told so and the header is printed from the unfilled result all the same, unless that message cannot be sent |
| Wire.LoadDestFileAttrs | server.c:192-242 | reading and parsing a header into the struct agrees with the decoder on every stream, malformed ones included, and leaves the header's bytes over the buffer's old ones |
| Wire.CreateFileAttrs | client.c:49-68 | the client's buffer holds the encoding of both lengths |
| Wire.LoadFileAttrsFrom | client_daemon.c:244-273 | the daemon's read of that header agrees with its decoder on every stream |
| Chunks.ChunkStep | server.c:252-254 | full buffers and the remainder cover the item without gap or overlap |
| Transfer.SendBytesCheckMessage | client_daemon.c:329-374 | a prefix of the buffer is sent, the whole of it unless a send failed or select found the socket not writable; then the next message of the server, or of the local client if select found none from the server, is taken with its flag and text and no byte more |
| Transfer.SendData | client_daemon.c:380-425 | of each chunk in turn a first part is pushed, all of it unless a send failed or a message came; the messages heard are those on the streams in order, the flag of the last decides between refusal, forced close and going on, and a forced close is relayed to the local client with its own text; on a refusal the discard field is the number of bytes pushed, in every other outcome 0; if no message was ignored a prefix of what the file yields is pushed, without messages the whole |
| Transfer.FileYieldsItself | client_daemon.c:390-393 | as far as the file goes, what is sent are its own bytes in their places, however much shorter than announced it is |
| ProtocolSends.SendIsRun | client_daemon.c:380-425 | what SendData's contract says of a transfer in which no message was ignored, sent whole or met by an answer on a full channel, is a run of the step system's daemon steps with the same bytes; the answer that waits decides between the refusal with its discard and the forced reconnect |
| Transfer.WriteData | server.c:248-283 | exactly the next data_len bytes of the stream are stored if they come and the disk refuses no write; if it refuses one, and only then, the bytes up to that chunk's end are off the stream and FORCED_SOCKET_CLOSED with the reason is sent |
| Transfer.DiscardData | server.c:289-303 | exactly discard bytes are dropped, or the stream ends before |
| Server.ReadRequest | server.c:381-388 | header, discard and path: succeeds exactly when the streams hold them, and the path over the buffer's old bytes is what lies behind the discarded ones |
| Server.HandleRequest | server.c:380-420 | the streams, the path, the file system's decision, the disk and the command socket fix what one round comes to; stored bytes are the ones behind the path, a refused file's bytes stay on the socket, and exactly one answer with its text is sent, none only if sending fails, the streams hold too little or the command is unknown |
| Server.HasDotsExactly | server.c:75-80 | the check finds exactly the C strings that contain "../" |
| Server.RepliesOnWire | server.c:394-416 | the bytes of the four answers: [2, 1], the error text behind flag 0, "BAD PATH" and the disk's error text behind flag 8 |
| ProtocolRounds.RoundIsRun | server.c:380-420 | every answered round that HandleRequest's contract allows is a run of the step system's server steps that takes the same bytes, records the same outcome and sends the same answer |
| MergeSpec.PassDoublesRuns | libs/utlist.h:186-219 | runs of insize sorted before a pass are runs of 2*insize sorted after it |
| MergeSpec.PassStable | libs/utlist.h:203-205 | a pass keeps nodes that compare equal in order |
| MergeSpec.MergesIsCeiling | libs/utlist.h:187 | a pass performs ceil(len / (2*insize)) merges |
| MergeSpec.StableSortUnique | libs/utlist.h:171-228 | sorted, same nodes and stable determine the result node by node |
| ListSort.MergeRuns | libs/utlist.h:196-217 | on the heap the two runs become their stable merge behind the list built so far, and the rest of the list keeps its links |
| ListSort.SortPass | libs/utlist.h:182-219 | one pass over the heap list builds the specified sequence and counts its merges |
| ListSort.DlSort | libs/utlist.h:171-228 | the result is a well-formed doubly linked list that stably sorts the input nodes |
| ListSort.CdlSort | libs/utlist.h:233-304 | the same on a circular list, whose end is found by the old head |
| ListOps.DList.Append | libs/utlist.h:522-534 | the node sequence gets the node at its end, the shape stays valid |
| ListOps.DList.Delete | libs/utlist.h:557-573 | the node sequence loses exactly that node |
| ListOps.DList.Concat | libs/utlist.h:539-552 | the node sequences are concatenated |
| ListOps.DList.ReplaceElem | libs/utlist.h:603-627 | exactly that position holds the new node |
| ListOps.DList.PrependElem | libs/utlist.h:629-642 | the new node stands right before the given one |
| ListOps.DList.Search | libs/utlist.h:453-458 | the first node that compares equal, or none |
| Connections.StrCmpZero | server.c:455-458 | namecmp is 0 exactly on equal tokens |
| Connections.ServeRefinesParity | server.c:469-494 | for every token and every sequence of arrivals, what is pending and what is paired is what pairing consecutive arrivals of that token gives |
| Connections.KthPair | server.c:483-490 | the k-th pair of a token is its (2k-1)-th and 2k-th arrivals, the earlier as command socket |
| Connections.PendingParity | server.c:482-493 | pending tokens are pairwise distinct, and a token is pending exactly when it arrived an odd number of times |
| Connections.ServeConserves | server.c:469-494 | every arrival is pending or in exactly one pair |
| Connections.SocketsUsedOnce | server.c:469-494 | with distinct sockets no connection is used twice |
| Connections.Acceptor.Match | server.c:482-493 | the heap search, removal and append realise one arrival of the specification |
| Connections.Acceptor.AcceptConnection | server.c:461-495 | each call takes arrivals with the tokens their first messages leave in the one buffer, complete or not, up to the one that completes a pair, and returns that pair of the specification |
| Connections.TokenExact | server.c:477-479 | a connection is listed under the token its peer sent if and only if that is nonempty or the buffer held no text |

## Left out

- Socket set-up, fork, signals, logging, help texts and file system calls: opaque; `fopen`, `mkdir` and disk errors are choices, a file is a byte sequence.
- setjmp/longjmp: THROW and CATCH are steps of the request loop or result values.
- Failure of `stat` in the step system: the code goes on with an uninitialised result, which there is one more choice of the request.
- A read error of `fread` in the middle of a file; a file that is shorter or longer than `stat` said is modelled.
- Negative results of `send` and `recv` compared through unsigned variables: a receive yields 0 or a positive count, a send fails or yields a positive count.
- EWOULDBLOCK after `select` reported a socket writable: the retry of the loop is a step that changes nothing.
- ProtocolSends.SendIsRun: the daemon's method with benign or forcing messages in mid-file, and its method for the header, are not composed into runs.
- Reconnect attempts that fail or succeed by half, exceptions thrown inside handlers, and a previous server thread that is still alive: a reconnect is one step to two fresh channels and a fresh thread.
- A local client that sends other messages than client.c does: its program sends only FORCED_SOCKET_CLOSED (client.c:39), which is a step; any other flag would be returned to `send_data` like the server's (client_daemon.c:362-366).
- A local client that goes away before the very first request was read: the daemon would resend uninitialised structures.
- Wire.LoadDestFileAttrs: an announced length above the buffer is the value Overflow, since the source writes past its buffer there; a field scan that would leave the buffer counts as a failed length check.
- Bytes.ParseDecimal: leading blanks and signs, which strtol accepts, are not modelled; no header contains them.
- ListSort.Sort: run lengths are unbounded integers where the macros use int; the two macros share one body because they differ only in the end value and the last link.
- LL_SORT and the singly linked macros: the same algorithms without the prev links; counting, iteration and the VS2008 variants are routine operations.
- Connections.Acceptor.AcceptConnection: a failed `accept` ends the program and is not modelled; running out of arrivals stands for waiting forever.
- The server's registry of clients (`last_client`): it is changed by several threads without locks and its middle removal does not relink one neighbour, so no list invariant holds of it.
- Password check, generation of tokens, and the server's destination directory, which is put before every path. In the step system the refusal of a path with `../` is a free choice.

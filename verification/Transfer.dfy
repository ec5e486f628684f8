/** The chunked loops of send_data, write_data and discard_data on real buffers. */
module Transfer {
  import opened Bytes
  import opened Headers
  import opened Messages
  import opened Chunks
  import opened Sockets
  import opened Wire

  /** A buffer after fread has put up to `n` bytes of what is left of a file at its start. */
  function Refilled(buffer: seq<Byte>, left: seq<Byte>, n: nat): (r: seq<Byte>)
    requires n <= |buffer|
    ensures |r| == |buffer| && (n <= |left| ==> r[..n] == left[..n])
  {
    var m := if n <= |left| then n else |left|;
    left[..m] + buffer[m..]
  }

  /** A disk that may refuse writes; the refusals are recorded. */
  class Disk {
    ghost var refusals: nat

    constructor ()
      ensures refusals == 0
    {
      refusals := 0;
    }
  }

  /** An open file: its bytes, the position of the next read or write, and the disk it is on. */
  class OpenFile {
    const disk: Disk
    var content: seq<Byte>
    var position: nat

    constructor (content: seq<Byte>, disk: Disk)
      ensures this.content == content && position == 0 && this.disk == disk
    {
      this.content, position, this.disk := content, 0, disk;
    }

    /** fread, whose short count nobody looks at. */
    method Read(buffer: array<Byte>, len: nat)
      requires position <= |content| && len <= buffer.Length
      modifies this`position, buffer
      ensures position == if old(position) + len <= |content| then old(position) + len else |content|
      ensures buffer[..] == Refilled(old(buffer[..]), content[old(position)..], len)
    {
      var n := if position + len <= |content| then len else |content| - position;
      Put(buffer, 0, content[position..position + n]);
      position := position + n;
    }

    /** fwrite to a file opened for writing; a disk that refuses may have taken a part. */
    method Write(buffer: array<Byte>, len: nat) returns (ok: bool)
      requires len <= buffer.Length
      modifies this`content, disk`refusals
      ensures old(content) <= content <= old(content) + buffer[..len]
      ensures ok ==> content == old(content) + buffer[..len]
      ensures disk.refusals == old(disk.refusals) + if ok then 0 else 1
    {
      var n: nat :| n <= len;
      content := content + buffer[..n];
      ok := n == len;
      if !ok { disk.refusals := disk.refusals + 1; }
    }
  }

  // ---------------------------------------------------------------- server side

  /** Length of the next chunk the loop handles, in the source's order: full buffers, then the rest. */
  lemma ChunkTaken(b: nat, len: nat, i: nat, stream: seq<Byte>)
    requires b > 0 && i < NumChunks(b, len) && ChunkStart(b, len, i) <= |stream|
    ensures var from, n := ChunkStart(b, len, i), ChunkLen(b, len, i);
            && ChunkStart(b, len, i + 1) == from + n <= len
            && (n <= |stream[from..]| ==> stream[..from] + stream[from..][..n] == stream[..from + n]
                                          && stream[from..][n..] == stream[from + n..])
  {
    ChunkStep(b, len, i);
  }

  /** discard_data drops exactly `discard` bytes whatever the buffer size, or meets the end of the stream. */
  method DiscardData(b: nat, discard: nat, socket: Socket, buffer: array<Byte>) returns (status: Status)
    requires b > 0 && buffer.Length == b
    modifies socket`incoming, buffer
    ensures status == (if discard <= |old(socket.incoming)| then Success else SocketClosed)
    ensures status == Success ==> socket.incoming == old(socket.incoming)[discard..]
  {
    hide ChunkStart, ChunkLen, NumChunks;
    ghost var stream := socket.incoming;
    var remaining := discard % b;
    ChunkEnds(b, discard);
    LoopThenRest(b, discard);
    for i := 0 to discard / b
      invariant i <= NumChunks(b, discard) && ChunkStart(b, discard, i) <= |stream|
      invariant socket.incoming == stream[ChunkStart(b, discard, i)..]
    {
      FullChunk(b, discard, i);
      ChunkTaken(b, discard, i, stream);
      status := RecvBytes(buffer, 0, socket, b);
      if status != Success { return; }
    }
    if remaining > 0 {
      ChunkTaken(b, discard, discard / b, stream);
      status := RecvBytes(buffer, 0, socket, remaining);
      return;
    }
    return Success;
  }

  lemma FullChunk(b: nat, len: nat, i: nat)
    requires b > 0 && i < len / b
    ensures i < NumChunks(b, len) && ChunkLen(b, len, i) == b
  {
  }

  /** After the full buffers there is at most one more chunk, of the remainder's length. */
  lemma LoopThenRest(b: nat, len: nat)
    requires b > 0
    ensures len / b <= NumChunks(b, len)
    ensures len % b > 0 ==> NumChunks(b, len) == len / b + 1 && ChunkLen(b, len, len / b) == len % b
    ensures len % b == 0 ==> NumChunks(b, len) == len / b
  {
  }

  /** How write_data ends: `told` says whether the message about the disk could be sent. */
  datatype WriteResult = Stored | StreamEnded | DiskFailed(told: bool)

  /** What the thread puts on the command socket while storing. */
  function Complaint(result: WriteResult, reason: seq<Byte>): seq<Byte>
    requires |Text(reason)| <= 252
  {
    if result == DiskFailed(true) then EncodeMessage(Message(FORCED_SOCKET_CLOSED, Text(reason))) else []
  }

  /** One chunk: received whole, then written; a refusing disk is reported with its reason. The stream, the disk and the
      command socket decide the result. */
  method StoreChunk(n: nat, socket: Socket, file: OpenFile, buffer: array<Byte>, command: Socket, reason: array<Byte>)
    returns (result: WriteResult)
    requires n <= buffer.Length && reason != buffer && |Text(reason[..])| <= 252 && |Text(reason[..])| < reason.Length
    modifies socket`incoming, buffer, file`content, file.disk`refusals, command`outgoing, command`failures
    ensures result == if |old(socket.incoming)| < n then StreamEnded
                      else if file.disk.refusals == old(file.disk.refusals) then Stored
                      else DiskFailed(command.failures == old(command.failures))
    ensures !result.DiskFailed? ==>
              file.disk.refusals == old(file.disk.refusals) && command.failures == old(command.failures)
    ensures file.disk.refusals >= old(file.disk.refusals) && command.failures >= old(command.failures)
    ensures command.outgoing == old(command.outgoing) + Complaint(result, reason[..])
    ensures result != StreamEnded ==>
              && socket.incoming == old(socket.incoming)[n..]
              && old(file.content) <= file.content <= old(file.content) + old(socket.incoming)[..n]
    ensures result == Stored ==> file.content == old(file.content) + old(socket.incoming)[..n]
  {
    hide EncodeMessage;
    var status := RecvBytes(buffer, 0, socket, n);
    if status != Success { return StreamEnded; }
    assert buffer[..n] == old(socket.incoming)[..n];
    var diskOk := file.Write(buffer, n);
    if diskOk { return Stored; }
    status := SendMessage(command, FORCED_SOCKET_CLOSED, reason);
    return DiskFailed(status == Success);
  }

  /** What write_data leaves when it stopped before chunk `i` or in it. */
  ghost predicate StoredUpTo(b: nat, dataLen: nat, i: nat, stream: seq<Byte>, rest: seq<Byte>,
                             was: seq<Byte>, content: seq<Byte>)
    requires b > 0
  {
    && i < NumChunks(b, dataLen) && ChunkStart(b, dataLen, i) <= ChunkStart(b, dataLen, i + 1) <= |stream|
    && rest == stream[ChunkStart(b, dataLen, i + 1)..]
    && was + stream[..ChunkStart(b, dataLen, i)] <= content <= was + stream[..ChunkStart(b, dataLen, i + 1)]
  }

  /** write_data stores exactly the next `dataLen` bytes of the stream behind what the file held, unless the stream ends
      before or the disk refuses a write; when it does in chunk `failed`, exactly the chunks up to that one are off the
      stream and the daemon is told why. */
  method WriteData(b: nat, dataLen: nat, socket: Socket, file: OpenFile, buffer: array<Byte>, command: Socket,
                   reason: array<Byte>)
    returns (result: WriteResult, ghost failed: nat)
    requires b > 0 && buffer.Length == b && reason != buffer
    requires |Text(reason[..])| <= 252 && |Text(reason[..])| < reason.Length
    modifies socket`incoming, buffer, file`content, file.disk`refusals, command`outgoing, command`failures
    ensures result == if file.disk.refusals > old(file.disk.refusals)
                      then DiskFailed(command.failures == old(command.failures))
                      else if dataLen <= |old(socket.incoming)| then Stored else StreamEnded
    ensures file.disk.refusals >= old(file.disk.refusals) && command.failures >= old(command.failures)
    ensures !result.DiskFailed? ==> command.failures == old(command.failures)
    ensures command.outgoing == old(command.outgoing) + Complaint(result, reason[..])
    ensures result == Stored ==>
              && file.content == old(file.content) + old(socket.incoming)[..dataLen]
              && socket.incoming == old(socket.incoming)[dataLen..]
    ensures result.DiskFailed? ==>
              StoredUpTo(b, dataLen, failed, old(socket.incoming), socket.incoming, old(file.content), file.content)
  {
    hide ChunkStart, ChunkLen, NumChunks, Complaint;
    ghost var stream, was := socket.incoming, file.content;
    result, failed := Stored, 0;
    assert Complaint(Stored, reason[..]) == [] by { NoComplaint(reason[..]); }
    var remaining := dataLen % b;
    ChunkEnds(b, dataLen);
    LoopThenRest(b, dataLen);
    for i := 0 to dataLen / b
      invariant i <= NumChunks(b, dataLen) && ChunkStart(b, dataLen, i) <= |stream|
      invariant socket.incoming == stream[ChunkStart(b, dataLen, i)..]
      invariant file.content == was + stream[..ChunkStart(b, dataLen, i)]
      invariant result == Stored && command.outgoing == old(command.outgoing)
      invariant file.disk.refusals == old(file.disk.refusals) && command.failures == old(command.failures)
    {
      FullChunk(b, dataLen, i);
      ChunkTaken(b, dataLen, i, stream);
      failed := i;
      result := StoreChunk(b, socket, file, buffer, command, reason);
      if result != Stored { return; }
    }
    if remaining > 0 {
      ChunkTaken(b, dataLen, dataLen / b, stream);
      failed := dataLen / b;
      result := StoreChunk(remaining, socket, file, buffer, command, reason);
    }
  }

  lemma NoComplaint(reason: seq<Byte>)
    requires |Text(reason)| <= 252
    ensures Complaint(Stored, reason) == [] == Complaint(StreamEnded, reason)
  {
  }

  // ---------------------------------------------------------------- daemon side

  /** Why send_data and send_bytes_check_message stop. Forced is a message that ends the connection, and says
      whether it could be relayed to the local client; ClientGone is the local client's closed socket. */
  datatype SendResult = Sent | BadAck | Forced(relayed: bool) | ClientGone | ConnectionClosed

  /** What ended the sending of one buffer. */
  datatype Stop = AllSent | SendFailed | ServerSpoke | ClientSpoke

  /** The streams from the server and from the local client, and the buffer for the texts of their messages. */
  datatype Talk = Talk(server: seq<Byte>, client: seq<Byte>, message: seq<Byte>)

  /** One message taken, from the server or from the local client. */
  datatype Heard = Heard(server: bool, flag: Byte, text: seq<Byte>)

  /** The next message on that stream, if it is complete. */
  function Next(t: Talk, server: bool): Option<Heard> {
    match LoadMessage(if server then t.server else t.client)
    case Loaded(m, _) => Some(Heard(server, m.0, m.1))
    case _ => None
  }

  /** receive_message has been called on that stream, whatever came of it. */
  function Received(t: Talk, server: bool): (r: Talk)
    requires |t.message| == MESSAGE_BUFFERSIZE
    ensures |r.message| == MESSAGE_BUFFERSIZE
  {
    var stream := if server then t.server else t.client;
    var rest := match LoadMessage(stream) case Loaded(_, rest) => rest case _ => [];
    var message := Spliced(t.message, 0, TextArrived(stream));
    if server then Talk(rest, t.client, message) else Talk(t.server, rest, message)
  }

  /** The streams and the buffer after these messages. */
  function After(t: Talk, heard: seq<Heard>): (r: Talk)
    requires |t.message| == MESSAGE_BUFFERSIZE
    ensures |r.message| == MESSAGE_BUFFERSIZE
    decreases |heard|
  {
    if heard == [] then t else Received(After(t, heard[..|heard| - 1]), heard[|heard| - 1].server)
  }

  /** These are the messages that the streams bring, in this order. */
  predicate Spoken(t: Talk, heard: seq<Heard>)
    requires |t.message| == MESSAGE_BUFFERSIZE
    decreases |heard|
  {
    heard == [] ||
    var before, h := heard[..|heard| - 1], heard[|heard| - 1];
    Spoken(t, before) && Next(After(t, before), h.server) == Some(h)
  }

  /** What the flag of a message makes send_data do; a forced close is relayed if the local client still listens. */
  function Verdict(flag: Byte, relayed: bool): SendResult {
    if flag == ACK_ERROR then BadAck else if flag == FORCED_SOCKET_CLOSED then Forced(relayed) else Sent
  }

  predicate Benign(heard: seq<Heard>) {
    forall i :: 0 <= i < |heard| ==> Verdict(heard[i].flag, true) == Sent
  }

  /** Sends while select finds the data socket writable, else takes a message from the server if select finds one, else
      from the local client. What select and send answered decides why it stops, and the streams decide the rest.
      `flag` is the caller's flag unless a message was taken. */
  method SendBytesCheckMessage(buffer: array<Byte>, data: Socket, server: Socket, client: Socket, bytes: nat,
                               flagIn: Byte, message: array<Byte>)
    returns (result: SendResult, flag: Byte, sent: nat, ghost stop: Stop)
    requires bytes <= buffer.Length && message.Length == MESSAGE_BUFFERSIZE && message != buffer
    requires data != server && data != client && server != client
    modifies data`outgoing, data`failures, data`full, server`incoming, server`quiet, client`incoming, message
    ensures sent <= bytes && data.outgoing == old(data.outgoing) + buffer[..sent]
    ensures stop == AllSent <==> sent == bytes
    ensures data.failures == old(data.failures) + if stop == SendFailed then 1 else 0
    ensures data.full == old(data.full) + if stop == ServerSpoke || stop == ClientSpoke then 1 else 0
    ensures server.quiet == old(server.quiet) + if stop == ClientSpoke then 1 else 0
    ensures stop == AllSent ==> result == Sent
    ensures stop == SendFailed ==> result == ConnectionClosed
    ensures stop == AllSent || stop == SendFailed ==>
              flag == flagIn && message[..] == old(message[..])
              && server.incoming == old(server.incoming) && client.incoming == old(client.incoming)
    ensures stop == ServerSpoke || stop == ClientSpoke ==>
              var t := Talk(old(server.incoming), old(client.incoming), old(message[..]));
              var next := Next(t, stop == ServerSpoke);
              && message[..] == Received(t, stop == ServerSpoke).message
              && (next.Some? ==> Talk(server.incoming, client.incoming, message[..]) == Received(t, stop == ServerSpoke)
                                 && result == Sent && flag == next.value.flag)
              && (next == None ==> result == if stop == ServerSpoke then ConnectionClosed else ClientGone)
  {
    sent, flag := 0, flagIn;
    while sent < bytes
      invariant sent <= bytes && flag == flagIn && message[..] == old(message[..])
      invariant data.outgoing == old(data.outgoing) + buffer[..sent]
      invariant data.failures == old(data.failures) && data.full == old(data.full)
      invariant server.quiet == old(server.quiet)
      invariant server.incoming == old(server.incoming) && client.incoming == old(client.incoming)
    {
      var writable, serverReadable := Select(data, server, client);
      if writable {
        var ok, n := data.Send(buffer, sent, bytes - sent);
        assert buffer[..sent] + buffer[sent..sent + n] == buffer[..sent + n];
        if !ok { return ConnectionClosed, flag, sent, SendFailed; }
        sent := sent + n;
      } else if serverReadable {
        var status, got := ReceiveMessage(server, message);
        if status != Success { return ConnectionClosed, flag, sent, ServerSpoke; }
        return Sent, got, sent, ServerSpoke;
      } else {
        var status, got := ReceiveMessage(client, message);
        if status == SocketClosed { return ClientGone, flag, sent, ClientSpoke; }
        return Sent, got, sent, ClientSpoke;
      }
    }
    return Sent, flag, sent, AllSent;
  }

  /** What the local client is sent while a file is being sent: only the text of a message that ends the connection. */
  ghost predicate Relayed(result: SendResult, text: seq<Byte>, before: seq<Byte>, after: seq<Byte>) {
    if result == Forced(true) then
      Sendable(Message(ACK_ERROR, text)) && after == before + EncodeMessage(Message(ACK_ERROR, text))
    else after == before
  }

  /** What one buffer came to, from why its sending stopped, the message that then came and whether it was relayed. */
  function ChunkResult(stop: Stop, next: Option<Heard>, relayed: bool): SendResult {
    match stop
    case AllSent => Sent
    case SendFailed => ConnectionClosed
    case ServerSpoke => if next.Some? then Verdict(next.value.flag, relayed) else ConnectionClosed
    case ClientSpoke => if next.Some? then Verdict(next.value.flag, relayed) else ClientGone
  }

  /** One chunk of send_data: read it, send it, and look at the flag. `goOn` says the loop continues. */
  method SendChunk(attrs: DestFileAttrs, data: Socket, server: Socket, client: Socket, n: nat, before: nat,
                   file: OpenFile, buffer: array<Byte>, message: array<Byte>)
    returns (goOn: bool, result: SendResult, total: nat, ghost stop: Stop)
    requires n <= buffer.Length && message.Length == MESSAGE_BUFFERSIZE && message != buffer
    requires data != server && data != client && server != client
    requires file.position <= |file.content|
    modifies attrs`discard, data`outgoing, data`failures, data`full, server`incoming, server`quiet
    modifies client, message, buffer, file`position
    ensures file.position == if old(file.position) + n <= |file.content| then old(file.position) + n else |file.content|
    ensures buffer[..] == Refilled(old(buffer[..]), file.content[old(file.position)..], n)
    ensures before <= total <= before + n && (stop == AllSent <==> total == before + n)
    ensures data.outgoing == old(data.outgoing) + buffer[..total - before]
    ensures data.failures == old(data.failures) + if stop == SendFailed then 1 else 0
    ensures data.full == old(data.full) + if stop == ServerSpoke || stop == ClientSpoke then 1 else 0
    ensures stop == AllSent || stop == SendFailed ==>
              Talk(server.incoming, client.incoming, message[..])
              == Talk(old(server.incoming), old(client.incoming), old(message[..]))
    ensures stop == ServerSpoke || stop == ClientSpoke ==>
              var t := Talk(old(server.incoming), old(client.incoming), old(message[..]));
              Next(t, stop == ServerSpoke).Some? ==>
                Talk(server.incoming, client.incoming, message[..]) == Received(t, stop == ServerSpoke)
    ensures var t := Talk(old(server.incoming), old(client.incoming), old(message[..]));
            result == ChunkResult(stop, Next(t, stop == ServerSpoke),
                                  |Text(message[..])| <= 252 && client.failures == old(client.failures))
    ensures client.failures >= old(client.failures)
    ensures !result.Forced? ==> client.failures == old(client.failures)
    ensures attrs.discard == if result == BadAck then total else old(attrs.discard)
    ensures Relayed(result, Text(message[..]), old(client.outgoing), client.outgoing)
    ensures goOn <==> result == Sent
  {
    hide LoadMessage, EncodeMessage, StrnLen, Refilled, Spliced;
    file.Read(buffer, n);
    var flag, sent;
    result, flag, sent, stop := SendBytesCheckMessage(buffer, data, server, client, n, ACK_OK, message);
    total := before + sent;
    if result != Sent { return false, result, total, stop; }
    if flag == ACK_ERROR {
      attrs.discard := total;
      return false, BadAck, total, stop;
    } else if flag == FORCED_SOCKET_CLOSED {
      var status := SendMessage(client, ACK_ERROR, message);
      return false, Forced(status == Success), total, stop;
    }
    return true, Sent, total, stop;
  }

  // ---------------------------------------------------------------- what the read loop yields

  /** Where the i-th read starts in a file that may be shorter than announced. */
  function ReadAt(content: seq<Byte>, b: nat, len: nat, i: nat): (at: nat)
    requires b > 0
    ensures at <= |content|
  {
    if ChunkStart(b, len, i) <= |content| then ChunkStart(b, len, i) else |content|
  }

  /** The buffer after the first `i` reads of a file of `len` announced bytes. */
  function BufferAfterReads(content: seq<Byte>, b: nat, len: nat, was: seq<Byte>, i: nat): (r: seq<Byte>)
    requires b > 0 && |was| == b && i <= NumChunks(b, len)
    ensures |r| == b
  {
    if i == 0 then was else
    ChunkFits(b, len, i - 1);
    Refilled(BufferAfterReads(content, b, len, was, i - 1), content[ReadAt(content, b, len, i - 1)..],
             ChunkLen(b, len, i - 1))
  }

  lemma ChunkFits(b: nat, len: nat, i: nat)
    requires b > 0
    ensures ChunkLen(b, len, i) <= b
  {
  }

  /** The bytes the first `i` chunks take from the buffer: the file's, and where it is too short what the buffer
      held before. */
  function Yielded(content: seq<Byte>, b: nat, len: nat, was: seq<Byte>, i: nat): (r: seq<Byte>)
    requires b > 0 && |was| == b && i <= NumChunks(b, len)
    ensures |r| == ChunkStart(b, len, i)
  {
    if i == 0 then [] else
    ChunkFits(b, len, i - 1); ChunkStep(b, len, i - 1);
    Yielded(content, b, len, was, i - 1) + BufferAfterReads(content, b, len, was, i)[..ChunkLen(b, len, i - 1)]
  }

  /** All that send_data would send of the file. */
  function Yield(content: seq<Byte>, b: nat, len: nat, was: seq<Byte>): (r: seq<Byte>)
    requires b > 0 && |was| == b
    ensures |r| == len
  {
    ChunkEnds(b, len);
    Yielded(content, b, len, was, NumChunks(b, len))
  }

  lemma {:induction false} YieldedPrefix(content: seq<Byte>, b: nat, len: nat, was: seq<Byte>, i: nat, j: nat)
    requires b > 0 && |was| == b && i <= j <= NumChunks(b, len)
    ensures Yielded(content, b, len, was, i) <= Yielded(content, b, len, was, j)
    decreases j
  {
    hide ChunkStart, ChunkLen, NumChunks, BufferAfterReads;
    if i < j {
      YieldedPrefix(content, b, len, was, i, j - 1);
      ChunkStep(b, len, j - 1);
    }
  }

  /** The i-th chunk of what is yielded is what the buffer then holds. */
  lemma YieldedChunk(content: seq<Byte>, b: nat, len: nat, was: seq<Byte>, i: nat)
    requires b > 0 && |was| == b && i < NumChunks(b, len)
    ensures var at, n, whole := ChunkStart(b, len, i), ChunkLen(b, len, i), Yield(content, b, len, was);
            at + n <= len && n <= b && whole[at..at + n] == BufferAfterReads(content, b, len, was, i + 1)[..n]
  {
    ChunkStep(b, len, i);
    ChunkFits(b, len, i);
    YieldedPrefix(content, b, len, was, i + 1, NumChunks(b, len));
    hide ChunkStart, ChunkLen, NumChunks, BufferAfterReads;
  }

  /** As far as the file goes, what is yielded are its own bytes in their places. */
  lemma {:induction false} FileYieldsItself(content: seq<Byte>, b: nat, len: nat, was: seq<Byte>, i: nat, j: nat)
    requires b > 0 && |was| == b && i <= NumChunks(b, len) && j < ChunkStart(b, len, i) && j < |content|
    ensures Yielded(content, b, len, was, i)[j] == content[j]
  {
    hide ChunkStart, ChunkLen, NumChunks, BufferAfterReads;
    ChunkEnds(b, len);
    ChunkStep(b, len, i - 1);
    if j < ChunkStart(b, len, i - 1) {
      FileYieldsItself(content, b, len, was, i - 1, j);
    } else {
      ReadInPlace(content, b, len, was, i - 1, j);
    }
  }

  lemma ReadInPlace(content: seq<Byte>, b: nat, len: nat, was: seq<Byte>, i: nat, j: nat)
    requires b > 0 && |was| == b && i < NumChunks(b, len) && j < |content|
    requires ChunkStart(b, len, i) <= j < ChunkStart(b, len, i) + ChunkLen(b, len, i)
    ensures ChunkLen(b, len, i) <= b
    ensures BufferAfterReads(content, b, len, was, i + 1)[j - ChunkStart(b, len, i)] == content[j]
  {
    hide ChunkStart, ChunkLen, NumChunks, BufferAfterReads;
    ChunkFits(b, len, i);
    NextBuffer(content, b, len, was, i);
    var at := ReadAt(content, b, len, i);
    assert at == ChunkStart(b, len, i);
    assert content[at..][j - at] == content[j];
  }

  lemma NextBuffer(content: seq<Byte>, b: nat, len: nat, was: seq<Byte>, i: nat)
    requires b > 0 && |was| == b && i < NumChunks(b, len)
    ensures ChunkLen(b, len, i) <= b
    ensures var before, at := BufferAfterReads(content, b, len, was, i), ReadAt(content, b, len, i);
            BufferAfterReads(content, b, len, was, i + 1) == Refilled(before, content[at..], ChunkLen(b, len, i))
  {
    ChunkFits(b, len, i);
    hide ChunkStart, ChunkLen, NumChunks, Refilled, ReadAt;
  }

  // ---------------------------------------------------------------- send_data

  /** `pieces[i]` bytes of the i-th chunk, for each chunk so far. */
  predicate PiecesFit(b: nat, len: nat, pieces: seq<nat>)
    requires b > 0
  {
    |pieces| <= NumChunks(b, len) && forall i :: 0 <= i < |pieces| ==> pieces[i] <= ChunkLen(b, len, i)
  }

  /** What the chunks so far put on the wire: of each its first bytes. */
  function Pushed(content: seq<Byte>, b: nat, pieces: seq<nat>): seq<Byte>
    requires b > 0 && PiecesFit(b, |content|, pieces)
    decreases |pieces|
  {
    if pieces == [] then [] else
    var i := |pieces| - 1;
    ChunkStep(b, |content|, i);
    Pushed(content, b, pieces[..i])
    + content[ChunkStart(b, |content|, i)..ChunkStart(b, |content|, i) + pieces[i]]
  }

  /** One more chunk of which `n` bytes were sent. */
  lemma PushedNext(content: seq<Byte>, b: nat, pieces: seq<nat>, n: nat)
    requires b > 0 && PiecesFit(b, |content|, pieces) && |pieces| < NumChunks(b, |content|)
    requires n <= ChunkLen(b, |content|, |pieces|)
    ensures var from := ChunkStart(b, |content|, |pieces|);
            && PiecesFit(b, |content|, pieces + [n]) && from + n <= |content|
            && Pushed(content, b, pieces + [n]) == Pushed(content, b, pieces) + content[from..][..n]
  {
    hide ChunkStart, ChunkLen, NumChunks;
    ChunkStep(b, |content|, |pieces|);
    assert (pieces + [n])[..|pieces|] == pieces;
    var from := ChunkStart(b, |content|, |pieces|);
    assert content[from..][..n] == content[from..from + n];
  }

  predicate Whole(b: nat, len: nat, pieces: seq<nat>)
    requires b > 0
  {
    forall i :: 0 <= i < |pieces| ==> pieces[i] == ChunkLen(b, len, i)
  }

  /** How many chunks were not sent whole. */
  function Parts(b: nat, len: nat, pieces: seq<nat>): nat
    requires b > 0
    decreases |pieces|
  {
    if pieces == [] then 0 else
    Parts(b, len, pieces[..|pieces| - 1]) + if pieces[|pieces| - 1] == ChunkLen(b, len, |pieces| - 1) then 0 else 1
  }

  lemma {:induction false} NoParts(b: nat, len: nat, pieces: seq<nat>)
    requires b > 0 && Parts(b, len, pieces) == 0
    ensures Whole(b, len, pieces)
    decreases |pieces|
  {
    hide ChunkLen;
    if pieces != [] {
      var front := pieces[..|pieces| - 1];
      NoParts(b, len, front);
      assert forall i :: 0 <= i < |front| ==> pieces[i] == front[i];
    }
  }

  lemma PartsNext(b: nat, len: nat, pieces: seq<nat>, n: nat)
    requires b > 0
    ensures Parts(b, len, pieces + [n]) == Parts(b, len, pieces) + if n == ChunkLen(b, len, |pieces|) then 0 else 1
  {
    assert (pieces + [n])[..|pieces|] == pieces;
  }

  /** Chunks sent whole make up a prefix of the file, and so does a part of the next one. */
  lemma {:induction false} WholePieces(content: seq<Byte>, b: nat, pieces: seq<nat>)
    requires b > 0 && PiecesFit(b, |content|, pieces)
    requires pieces != [] ==> Whole(b, |content|, pieces[..|pieces| - 1])
    ensures var p := Pushed(content, b, pieces);
            && p <= content
            && (pieces != [] ==> |p| == ChunkStart(b, |content|, |pieces| - 1) + pieces[|pieces| - 1])
    decreases |pieces|
  {
    hide ChunkStart, ChunkLen, NumChunks;
    if pieces != [] {
      var i := |pieces| - 1;
      var from := ChunkStart(b, |content|, i);
      assert i > 0 ==> pieces[..i][..i - 1] == pieces[..i - 1] && Whole(b, |content|, pieces[..i - 1]);
      WholePieces(content, b, pieces[..i]);
      ChunkStep(b, |content|, i);
      if i > 0 { ChunkStep(b, |content|, i - 1); }
      ChunkEnds(b, |content|);
      assert Pushed(content, b, pieces[..i]) == content[..from];
      assert content[..from] + content[from..from + pieces[i]] == content[..from + pieces[i]];
    }
  }

  lemma AllPushed(content: seq<Byte>, b: nat, pieces: seq<nat>)
    requires b > 0 && |pieces| == NumChunks(b, |content|) && PiecesFit(b, |content|, pieces)
    requires Whole(b, |content|, pieces)
    ensures Pushed(content, b, pieces) == content
  {
    hide ChunkStart, ChunkLen, NumChunks;
    WholePieces(content, b, pieces);
    ChunkEnds(b, |content|);
    if pieces != [] { ChunkStep(b, |content|, |pieces| - 1); }
  }

  lemma NothingPushed(content: seq<Byte>, b: nat)
    requires b > 0
    ensures PiecesFit(b, |content|, []) && Pushed(content, b, []) == []
  {
  }

  /** `pieces` of the file are on the wire behind what was there at the start, `total` bytes in all. */
  ghost predicate OnWire(content: seq<Byte>, b: nat, pieces: seq<nat>, start: seq<Byte>, wire: seq<Byte>, total: nat)
    requires b > 0
  {
    && PiecesFit(b, |content|, pieces)
    && wire == start + Pushed(content, b, pieces) && total == |Pushed(content, b, pieces)|
  }

  /** The read loop is about to read chunk `i`. */
  ghost predicate AtRead(file: OpenFile, buffer: array<Byte>, b: nat, len: nat, was: seq<Byte>, i: nat)
    requires b > 0 && |was| == b
    reads file, buffer
  {
    && i <= NumChunks(b, len) && file.position == ReadAt(file.content, b, len, i)
    && buffer[..] == BufferAfterReads(file.content, b, len, was, i)
  }

  lemma NextRead(content: seq<Byte>, b: nat, len: nat, i: nat)
    requires b > 0 && i < NumChunks(b, len)
    ensures var at, n := ReadAt(content, b, len, i), ChunkLen(b, len, i);
            ReadAt(content, b, len, i + 1) == if at + n <= |content| then at + n else |content|
  {
    ChunkStep(b, len, i);
    hide ChunkStart, ChunkLen, NumChunks;
  }

  /** Between two chunks: the benign messages so far are off the streams, each cut one chunk short. */
  ghost predicate Underway(t0: Talk, heard: seq<Heard>, t: Talk, b: nat, len: nat, pieces: seq<nat>)
    requires b > 0 && |t0.message| == MESSAGE_BUFFERSIZE
  {
    Spoken(t0, heard) && Benign(heard) && t == After(t0, heard) && Parts(b, len, pieces) == |heard|
  }

  /** How a transfer can end that heard these messages: `fulls` times select found the data socket not writable,
      `failures` sends failed, and `relayed` says whether the local client could be told. */
  ghost predicate Ends(result: SendResult, t0: Talk, heard: seq<Heard>, fulls: int, failures: int, relayed: bool)
    requires |t0.message| == MESSAGE_BUFFERSIZE
  {
    && Spoken(t0, heard)
    && match result
       case Sent => Benign(heard) && fulls == |heard| && failures == 0
       case BadAck => heard != [] && Benign(heard[..|heard| - 1]) && fulls == |heard| && failures == 0
                      && heard[|heard| - 1].flag == ACK_ERROR
       case Forced(told) => heard != [] && Benign(heard[..|heard| - 1]) && fulls == |heard| && failures == 0
                            && heard[|heard| - 1].flag == FORCED_SOCKET_CLOSED && told == relayed
       case ClientGone =>
         Benign(heard) && fulls == |heard| + 1 && failures == 0 && Next(After(t0, heard), false) == None
       case ConnectionClosed =>
         && Benign(heard)
         && ((fulls == |heard| && failures == 1)
             || (fulls == |heard| + 1 && failures == 0 && Next(After(t0, heard), true) == None))
  }

  /** The loop ended in the chunk behind `done`, having heard `sofar` before it. */
  ghost predicate StoppedIn(result: SendResult, t0: Talk, sofar: seq<Heard>, heard: seq<Heard>, t: Talk, fulls: int,
                            failures: int, relayed: bool, b: nat, len: nat, done: seq<nat>, pieces: seq<nat>)
    requires b > 0 && |t0.message| == MESSAGE_BUFFERSIZE
  {
    && result != Sent && Ends(result, t0, heard, fulls, failures, relayed) && fulls + failures == |sofar| + 1
    && |pieces| == |done| + 1 && pieces[..|done|] == done
    && Parts(b, len, done) == |sofar| && Parts(b, len, pieces) == |sofar| + 1
    && |heard| == |sofar| + (if result == BadAck || result.Forced? then 1 else 0)
    && (result == BadAck || result.Forced? ==> t == After(t0, heard))
  }

  lemma HeardNext(t0: Talk, heard: seq<Heard>, h: Heard)
    requires |t0.message| == MESSAGE_BUFFERSIZE && Spoken(t0, heard) && Next(After(t0, heard), h.server) == Some(h)
    ensures Spoken(t0, heard + [h]) && After(t0, heard + [h]) == Received(After(t0, heard), h.server)
    ensures (heard + [h])[..|heard|] == heard
    ensures Benign(heard) && Verdict(h.flag, true) == Sent ==> Benign(heard + [h])
  {
    assert (heard + [h])[..|heard|] == heard;
    hide Received, Next;
  }

  /** Whether a message was heard in this chunk. */
  predicate Hears(stop: Stop, next: Option<Heard>) {
    (stop == ServerSpoke || stop == ClientSpoke) && next.Some?
  }

  function HeardAfter(was: seq<Heard>, stop: Stop, next: Option<Heard>): seq<Heard> {
    if Hears(stop, next) then was + [next.value] else was
  }

  lemma DeafChunk(t0: Talk, was: seq<Heard>, t: Talk, stop: Stop, result: SendResult, relayed: bool)
    requires |t0.message| == MESSAGE_BUFFERSIZE && Spoken(t0, was) && Benign(was) && t == After(t0, was)
    requires result == ChunkResult(stop, Next(t, stop == ServerSpoke), relayed)
    requires !Hears(stop, Next(t, stop == ServerSpoke)) && result != Sent
    ensures Ends(result, t0, was, |was| + (if stop == ServerSpoke || stop == ClientSpoke then 1 else 0),
                 if stop == SendFailed then 1 else 0, relayed)
  {
    hide Spoken, After, Next, Benign;
  }

  lemma HearingChunk(t0: Talk, was: seq<Heard>, t: Talk, server: bool, relayed: bool)
    requires |t0.message| == MESSAGE_BUFFERSIZE && Spoken(t0, was) && Benign(was) && t == After(t0, was)
    requires Next(t, server).Some?
    ensures var h := Next(t, server).value;
            var heard, result := was + [h], Verdict(h.flag, relayed);
            && Spoken(t0, heard) && After(t0, heard) == Received(t, server)
            && (result == Sent ==> Benign(heard))
            && (result != Sent ==> Ends(result, t0, heard, |was| + 1, 0, relayed))
  {
    hide Received, After, LoadMessage, Spoken, Benign;
    var h := Next(t, server).value;
    HeardNext(t0, was, h);
    hide Next;
    assert (was + [h])[|was + [h]| - 1] == h && (was + [h])[..|was + [h]| - 1] == was;
  }

  /** From what one chunk came to, to how the transfer stands or ends. */
  lemma ChunkEnded(t0: Talk, was: seq<Heard>, t: Talk, stop: Stop, result: SendResult, relayed: bool)
    returns (heard: seq<Heard>)
    requires |t0.message| == MESSAGE_BUFFERSIZE && Spoken(t0, was) && Benign(was) && t == After(t0, was)
    requires result == ChunkResult(stop, Next(t, stop == ServerSpoke), relayed)
    ensures Spoken(t0, heard) && heard == HeardAfter(was, stop, Next(t, stop == ServerSpoke))
    ensures Hears(stop, Next(t, stop == ServerSpoke)) ==> After(t0, heard) == Received(t, stop == ServerSpoke)
    ensures result == Sent ==> Benign(heard) && |heard| == |was| + if stop == AllSent then 0 else 1
    ensures result != Sent ==>
              Ends(result, t0, heard, |was| + (if stop == ServerSpoke || stop == ClientSpoke then 1 else 0),
                   if stop == SendFailed then 1 else 0, relayed)
  {
    hide Spoken, After, Next, Benign, Ends, Received;
    heard := HeardAfter(was, stop, Next(t, stop == ServerSpoke));
    if Hears(stop, Next(t, stop == ServerSpoke)) {
      HearingChunk(t0, was, t, stop == ServerSpoke, relayed);
    } else if result != Sent {
      DeafChunk(t0, was, t, stop, result, relayed);
    }
  }

  /** SendChunk on the next chunk of the file. */
  method SendNext(attrs: DestFileAttrs, data: Socket, server: Socket, client: Socket, b: nat, n: nat, before: nat,
                  file: OpenFile, buffer: array<Byte>, message: array<Byte>, ghost len: nat, ghost was: seq<Byte>,
                  ghost done: seq<nat>, ghost start: seq<Byte>, ghost t0: Talk, ghost sofar: seq<Heard>)
    returns (goOn: bool, result: SendResult, total: nat, ghost pieces: seq<nat>, ghost heard: seq<Heard>)
    requires b > 0 && |was| == b && |done| < NumChunks(b, len) && n == ChunkLen(b, len, |done|)
    requires buffer.Length == b && message.Length == MESSAGE_BUFFERSIZE && message != buffer
    requires data != server && data != client && server != client
    requires AtRead(file, buffer, b, len, was, |done|)
    requires OnWire(Yield(file.content, b, len, was), b, done, start, data.outgoing, before)
    requires |t0.message| == MESSAGE_BUFFERSIZE
    requires Underway(t0, sofar, Talk(server.incoming, client.incoming, message[..]), b, len, done)
    modifies attrs`discard, data`outgoing, data`failures, data`full, server`incoming, server`quiet
    modifies client, message, buffer, file`position
    ensures AtRead(file, buffer, b, len, was, |done| + 1)
    ensures |pieces| == |done| + 1 && pieces[..|done|] == done
    ensures OnWire(Yield(file.content, b, len, was), b, pieces, start, data.outgoing, total)
    ensures goOn ==> Underway(t0, heard, Talk(server.incoming, client.incoming, message[..]), b, len, pieces)
    ensures goOn ==> data.full - old(data.full) == |heard| - |sofar| && data.failures == old(data.failures)
    ensures !goOn ==>
              StoppedIn(result, t0, sofar, heard, Talk(server.incoming, client.incoming, message[..]),
                        |sofar| + data.full - old(data.full), data.failures - old(data.failures),
                        |Text(message[..])| <= 252 && client.failures == old(client.failures), b, len, done, pieces)
    ensures attrs.discard == if result == BadAck then total else old(attrs.discard)
    ensures client.failures >= old(client.failures) && (!result.Forced? ==> client.failures == old(client.failures))
    ensures Relayed(result, Text(message[..]), old(client.outgoing), client.outgoing)
    ensures goOn <==> result == Sent
  {
    hide ChunkStart, ChunkLen, NumChunks, EncodeMessage, StrnLen, Relayed, Pushed, Yield, Refilled, ReadAt, Spoken,
         After, Received, Next, Text;
    ghost var i, t := |done|, Talk(server.incoming, client.incoming, message[..]);
    ChunkFits(b, len, i);
    NextRead(file.content, b, len, i);
    YieldedChunk(file.content, b, len, was, i);
    ghost var stop;
    goOn, result, total, stop := SendChunk(attrs, data, server, client, n, before, file, buffer, message);
    heard := ChunkEnded(t0, sofar, t, stop, result,
                        |Text(message[..])| <= 252 && client.failures == old(client.failures));
    ghost var whole, m := Yield(file.content, b, len, was), total - before;
    ghost var at := ChunkStart(b, len, i);
    assert buffer[..n][..m] == buffer[..m];
    FrontOfSlice(whole, at, n, m);
    PushedNext(whole, b, done, m);
    PartsNext(b, len, done, m);
    pieces := done + [m];
  }

  lemma FrontOfSlice(whole: seq<Byte>, at: nat, n: nat, m: nat)
    requires m <= n && at + n <= |whole|
    ensures whole[at..][..m] == whole[at..at + n][..m]
  {
  }

  /** No message was heard that the daemon ignored. */
  predicate NoneIgnored(result: SendResult, heard: seq<Heard>) {
    |heard| == if result == BadAck || result.Forced? then 1 else 0
  }

  /** What became of the bytes `whole` that the read loop would send, when no message was ignored: a first part of them
      is on the wire, all of them if none came, and a refusal leaves their number in the discard field. */
  ghost predicate SendEnds(whole: seq<Byte>, result: SendResult, wire: seq<Byte>, discard: nat) {
    && wire <= whole && (result == Sent ==> wire == whole)
    && discard == if result == BadAck then |wire| else 0
  }

  /** The first message waiting on a socket, if complete, is one that ends the transfer. */
  predicate Stopping(incoming: seq<Byte>) {
    match LoadMessage(incoming)
    case Loaded(m, _) => Verdict(m.0, true) != Sent
    case _ => true
  }

  lemma {:induction false} FirstSpoken(t: Talk, heard: seq<Heard>)
    requires |t.message| == MESSAGE_BUFFERSIZE && Spoken(t, heard) && heard != []
    ensures Next(t, heard[0].server) == Some(heard[0])
    decreases |heard|
  {
    if |heard| > 1 {
      FirstSpoken(t, heard[..|heard| - 1]);
    } else {
      assert heard[..0] == [];
    }
  }

  /** If the first messages waiting end the transfer, none is ignored. */
  lemma StoppingIsHeeded(result: SendResult, t: Talk, heard: seq<Heard>, fulls: int, failures: int, relayed: bool)
    requires |t.message| == MESSAGE_BUFFERSIZE && Ends(result, t, heard, fulls, failures, relayed)
    requires Stopping(t.server) && Stopping(t.client)
    ensures NoneIgnored(result, heard)
  {
    hide LoadMessage, Spoken, After;
    if heard != [] {
      FirstSpoken(t, heard);
      assert Verdict(heard[0].flag, true) != Sent;
    }
  }

  /** The loop over the full buffers. */
  method SendBuffers(attrs: DestFileAttrs, data: Socket, server: Socket, client: Socket, b: nat, len: nat,
                     file: OpenFile, buffer: array<Byte>, message: array<Byte>)
    returns (goOn: bool, result: SendResult, total: nat, ghost pieces: seq<nat>, ghost heard: seq<Heard>,
             ghost done: seq<nat>, ghost sofar: seq<Heard>)
    requires b > 0 && buffer.Length == b && message.Length == MESSAGE_BUFFERSIZE && message != buffer
    requires data != server && data != client && server != client
    requires file.position == 0 && attrs.discard == 0
    modifies attrs`discard, data`outgoing, data`failures, data`full, server`incoming, server`quiet
    modifies client, message, buffer, file`position
    ensures OnWire(Yield(file.content, b, len, old(buffer[..])), b, pieces, old(data.outgoing), data.outgoing, total)
    ensures attrs.discard == if result == BadAck then total else 0
    ensures client.failures >= old(client.failures) && (!result.Forced? ==> client.failures == old(client.failures))
    ensures var t0 := Talk(old(server.incoming), old(client.incoming), old(message[..]));
            var t := Talk(server.incoming, client.incoming, message[..]);
            if goOn then
              && result == Sent && |pieces| == len / b && AtRead(file, buffer, b, len, old(buffer[..]), len / b)
              && client.outgoing == old(client.outgoing) && data.failures == old(data.failures)
              && Underway(t0, heard, t, b, len, pieces) && data.full == old(data.full) + |heard|
            else
              && StoppedIn(result, t0, sofar, heard, t, data.full - old(data.full), data.failures - old(data.failures),
                           |Text(message[..])| <= 252 && client.failures == old(client.failures), b, len, done, pieces)
              && Relayed(result, Text(message[..]), old(client.outgoing), client.outgoing)
  {
    hide ChunkStart, ChunkLen, NumChunks, Pushed, PiecesFit, EncodeMessage, StrnLen, Spoken, After, Text, Relayed,
         Parts, Ends, Benign, BufferAfterReads, Refilled, Yielded, StoppedIn;
    ghost var was, t0, start := buffer[..], Talk(server.incoming, client.incoming, message[..]), data.outgoing;
    ghost var whole := Yield(file.content, b, len, was);
    hide Yield;
    total, goOn := 0, true;
    result, pieces, heard, done, sofar := Sent, [], [], [], [];
    NothingPushed(whole, b);
    assert OnWire(whole, b, [], start, start, 0);
    NothingHeard(t0, b, len);
    ChunkEnds(b, len);
    LoopThenRest(b, len);
    assert AtRead(file, buffer, b, len, was, 0) by { NothingRead(file.content, b, len, was); }
    hide AtRead, ReadAt, Underway, OnWire;
    for i := 0 to len / b
      invariant |pieces| == i && AtRead(file, buffer, b, len, was, i)
      invariant goOn && attrs.discard == 0 && client.outgoing == old(client.outgoing) && result == Sent
      invariant client.failures == old(client.failures) && data.failures == old(data.failures)
      invariant OnWire(whole, b, pieces, start, data.outgoing, total)
      invariant Underway(t0, heard, Talk(server.incoming, client.incoming, message[..]), b, len, pieces)
      invariant data.full == old(data.full) + |heard|
    {
      FullChunk(b, len, i);
      done, sofar := pieces, heard;
      goOn, result, total, pieces, heard :=
        SendNext(attrs, data, server, client, b, b, total, file, buffer, message, len, was, done, start, t0, sofar);
      if !goOn { return; }
      NothingRelayed(result, message[..], old(client.outgoing), client.outgoing);
    }
  }

  lemma NothingRead(content: seq<Byte>, b: nat, len: nat, was: seq<Byte>)
    requires b > 0 && |was| == b
    ensures BufferAfterReads(content, b, len, was, 0) == was && ReadAt(content, b, len, 0) == 0
  {
  }

  /** The daemon sends what the file yields chunk by chunk, of a chunk in which a message arrives only a part. The flag
      of the last message heard decides how it ends; select and send decide whether there is one. After a refusal the
      discard field counts exactly the bytes pushed, and in every other outcome it is 0; a message that ends the
      connection is relayed to the local client with its own text. If no message was ignored, as when the first on
      either socket ends the transfer, what is pushed is a prefix of what the file yields; a file still as long as
      announced yields itself. */
  method SendData(attrs: DestFileAttrs, data: Socket, server: Socket, client: Socket, b: nat, len: nat,
                  file: OpenFile, buffer: array<Byte>, message: array<Byte>)
    returns (result: SendResult, ghost pieces: seq<nat>, ghost heard: seq<Heard>)
    requires b > 0 && buffer.Length == b && message.Length == MESSAGE_BUFFERSIZE && message != buffer
    requires data != server && data != client && server != client
    requires file.position == 0
    modifies attrs`discard, data`outgoing, data`failures, data`full, server`incoming, server`quiet
    modifies client, message, buffer, file`position
    ensures PiecesFit(b, len, pieces)
    ensures data.outgoing == old(data.outgoing) + Pushed(Yield(file.content, b, len, old(buffer[..])), b, pieces)
    ensures attrs.discard == if result == BadAck
                             then |Pushed(Yield(file.content, b, len, old(buffer[..])), b, pieces)| else 0
    ensures result == Sent ==> |pieces| == NumChunks(b, len)
    ensures Ends(result, Talk(old(server.incoming), old(client.incoming), old(message[..])), heard,
                 data.full - old(data.full), data.failures - old(data.failures),
                 |Text(message[..])| <= 252 && client.failures == old(client.failures))
    ensures result == Sent || result == BadAck || result.Forced? ==>
              Talk(server.incoming, client.incoming, message[..])
              == After(Talk(old(server.incoming), old(client.incoming), old(message[..])), heard)
    ensures Parts(b, len, pieces) == data.full - old(data.full) + data.failures - old(data.failures)
    ensures client.failures >= old(client.failures) && (!result.Forced? ==> client.failures == old(client.failures))
    ensures Relayed(result, Text(message[..]), old(client.outgoing), client.outgoing)
    ensures NoneIgnored(result, heard) ==>
              var whole := Yield(file.content, b, len, old(buffer[..]));
              SendEnds(whole, result, Pushed(whole, b, pieces), attrs.discard)
    ensures Stopping(old(server.incoming)) && Stopping(old(client.incoming)) ==> NoneIgnored(result, heard)
    ensures len <= |file.content| ==> Yield(file.content, b, len, old(buffer[..])) == file.content[..len]
  {
    hide ChunkStart, ChunkLen, NumChunks, Stopping, Pushed, PiecesFit, EncodeMessage, StrnLen, Whole, Spoken, After,
         Text, Relayed, Parts, Ends, Benign, AtRead, ReadAt, BufferAfterReads, Refilled, Yielded, Underway, OnWire,
         NoneIgnored, SendEnds, StoppedIn;
    ghost var was, t0 := buffer[..], Talk(server.incoming, client.incoming, message[..]);
    ghost var whole := Yield(file.content, b, len, was);
    if len <= |file.content| { YieldsItself(file.content, b, len, was); }
    hide Yield;
    var remaining := len % b;
    attrs.discard := 0;
    var total, goOn;
    ghost var start, done, sofar := data.outgoing, [], [];
    LoopThenRest(b, len);
    goOn, result, total, pieces, heard, done, sofar :=
      SendBuffers(attrs, data, server, client, b, len, file, buffer, message);
    if goOn && remaining > 0 {
      done, sofar := pieces, heard;
      goOn, result, total, pieces, heard :=
        SendNext(attrs, data, server, client, b, remaining, total, file, buffer, message, len, was, done, start, t0,
                 sofar);
      if goOn { NothingRelayed(result, message[..], old(client.outgoing), client.outgoing); }
    }
    ghost var relayed := |Text(message[..])| <= 252 && client.failures == old(client.failures);
    ghost var t := Talk(server.incoming, client.incoming, message[..]);
    if goOn {
      NothingToRelay(message[..], client.outgoing);
      SentToTheEnd(whole, b, pieces, t0, heard, t, relayed, start, data.outgoing, total);
    } else {
      StoppedThere(whole, b, done, pieces, result, t0, sofar, heard, t, data.full - old(data.full),
                   data.failures - old(data.failures), relayed, start, data.outgoing, total);
    }
  }

  lemma NothingHeard(t: Talk, b: nat, len: nat)
    requires b > 0 && |t.message| == MESSAGE_BUFFERSIZE
    ensures Underway(t, [], t, b, len, [])
  {
  }

  lemma NothingRelayed(result: SendResult, message: seq<Byte>, before: seq<Byte>, after: seq<Byte>)
    requires result == Sent && Relayed(result, Text(message), before, after)
    ensures after == before
  {
  }

  lemma NothingToRelay(message: seq<Byte>, wire: seq<Byte>)
    ensures Relayed(Sent, Text(message), wire, wire)
  {
  }

  /** The loop was left in the middle: every chunk before was sent whole unless a message was ignored in it. */
  lemma StoppedThere(whole: seq<Byte>, b: nat, done: seq<nat>, pieces: seq<nat>, result: SendResult, t0: Talk,
                     sofar: seq<Heard>, heard: seq<Heard>, t: Talk, fulls: int, failures: int, relayed: bool,
                     start: seq<Byte>, wire: seq<Byte>, total: nat)
    requires b > 0 && OnWire(whole, b, pieces, start, wire, total) && |t0.message| == MESSAGE_BUFFERSIZE
    requires StoppedIn(result, t0, sofar, heard, t, fulls, failures, relayed, b, |whole|, done, pieces)
    ensures PiecesFit(b, |whole|, pieces) && wire == start + Pushed(whole, b, pieces)
    ensures total == |Pushed(whole, b, pieces)| && result != Sent
    ensures Ends(result, t0, heard, fulls, failures, relayed) && Parts(b, |whole|, pieces) == fulls + failures
    ensures result == BadAck || result.Forced? ==> t == After(t0, heard)
    ensures NoneIgnored(result, heard) ==>
              SendEnds(whole, result, Pushed(whole, b, pieces), if result == BadAck then total else 0)
    ensures Stopping(t0.server) && Stopping(t0.client) ==> NoneIgnored(result, heard)
  {
    hide Ends, Stopping, Pushed, Parts, PiecesFit, After;
    if NoneIgnored(result, heard) {
      NoParts(b, |whole|, done);
      WholePieces(whole, b, pieces);
    }
    if Stopping(t0.server) && Stopping(t0.client) { StoppingIsHeeded(result, t0, heard, fulls, failures, relayed); }
  }

  lemma SentToTheEnd(whole: seq<Byte>, b: nat, pieces: seq<nat>, t0: Talk, heard: seq<Heard>, t: Talk, relayed: bool,
                     start: seq<Byte>, wire: seq<Byte>, total: nat)
    requires b > 0 && OnWire(whole, b, pieces, start, wire, total) && |pieces| == NumChunks(b, |whole|)
    requires |t0.message| == MESSAGE_BUFFERSIZE && Underway(t0, heard, t, b, |whole|, pieces)
    ensures PiecesFit(b, |whole|, pieces) && wire == start + Pushed(whole, b, pieces)
    ensures Ends(Sent, t0, heard, |heard|, 0, relayed) && t == After(t0, heard) && Parts(b, |whole|, pieces) == |heard|
    ensures NoneIgnored(Sent, heard) ==> SendEnds(whole, Sent, Pushed(whole, b, pieces), 0)
    ensures Stopping(t0.server) && Stopping(t0.client) ==> NoneIgnored(Sent, heard)
  {
    hide Stopping, Pushed, Parts, NumChunks, After, Spoken, PiecesFit;
    if NoneIgnored(Sent, heard) {
      NoParts(b, |whole|, pieces);
      AllPushed(whole, b, pieces);
    }
    if Stopping(t0.server) && Stopping(t0.client) { StoppingIsHeeded(Sent, t0, heard, |heard|, 0, relayed); }
  }

  lemma YieldsItself(content: seq<Byte>, b: nat, len: nat, was: seq<Byte>)
    requires b > 0 && |was| == b && len <= |content|
    ensures Yield(content, b, len, was) == content[..len]
  {
    ChunkEnds(b, len);
    forall j: nat | j < len ensures Yield(content, b, len, was)[j] == content[j] {
      FileYieldsItself(content, b, len, was, NumChunks(b, len), j);
    }
  }
}

/** One round of the server thread's loop over real sockets and buffers. */
module Server {
  import opened Bytes
  import opened Headers
  import opened Messages
  import opened Chunks
  import opened Sockets
  import opened Wire
  import opened Transfer

  /** What one round of thr_func came to. After the last three the thread ends; Left is every end without an answer. */
  datatype Handling =
    | Saved(path: seq<Byte>, content: seq<Byte>)
    | Refused(path: seq<Byte>)
    | BadName(path: seq<Byte>)
    | DiskFull(path: seq<Byte>)
    | Left

  function WantedLen(h: Header): nat {
    if h.command == MK_FILE then h.dataLen else 0
  }

  predicate KnownCommand(h: Header) {
    h.command == MK_FILE || h.command == MK_DIRECTORY
  }

  /** One answered round: the header is what the command stream starts with, the path lies right behind the discarded
      bytes, what is stored right behind the path, and what is not stored stays on the data stream. `failed` is
      the chunk in which the disk failed, if it did. */
  ghost predicate RoundEnds(b: nat, command: seq<Byte>, data: seq<Byte>, buffer: seq<Byte>, handling: Handling,
                            failed: nat, h: Header, command': seq<Byte>, data': seq<Byte>, reply: Message)
    requires b > 0 && |buffer| == MAX_HEADER_LEN
  {
    && !handling.Left? && Sendable(reply)
    && LoadHeader(command, buffer) == Loaded(h, command')
    && h.pathLen <= PATH_MAX && h.discard + h.pathLen <= |data|
    && handling.path == data[h.discard..h.discard + h.pathLen]
    && Answers(b, handling, failed, h, data[h.discard + h.pathLen..], data', reply)
  }

  /** What becomes of the bytes behind the path, and the answer that goes with it. */
  ghost predicate Answers(b: nat, handling: Handling, failed: nat, h: Header, behind: seq<Byte>, data': seq<Byte>,
                          reply: Message)
    requires b > 0 && !handling.Left?
  {
    match handling
    case Saved(_, content) =>
      && KnownCommand(h) && reply == Message(ACK_OK, [])
      && |content| == WantedLen(h) && behind == content + data'
    case Refused(_) => KnownCommand(h) && reply.flag == ACK_ERROR && data' == behind
    case BadName(_) => reply.flag == FORCED_SOCKET_CLOSED && data' == behind
    case DiskFull(_) =>
      && h.command == MK_FILE && reply.flag == FORCED_SOCKET_CLOSED
      && failed < NumChunks(b, h.dataLen) && ChunkStart(b, h.dataLen, failed + 1) <= |behind|
      && data' == behind[ChunkStart(b, h.dataLen, failed + 1)..]
  }

  predicate DotsAt(name: seq<Byte>, k: nat) {
    k + 3 <= |name| && name[k..k + 3] == [46, 46, 47]
  }

  /** The C string at the start of the path buffer. */
  function Name(path: seq<Byte>): seq<Byte> {
    path[..StrnLen(path, PATH_MAX)]
  }

  /** strstr(path, "../"). */
  predicate HasDots(path: seq<Byte>) {
    exists k: nat :: k < |Name(path)| && DotsAt(Name(path), k)
  }

  /** The name consists of these two parts around the text "../". */
  predicate AroundDots(name: seq<Byte>, p: seq<Byte>, q: seq<Byte>) {
    name == p + Ascii("../") + q
  }

  /** The check finds exactly the C strings that contain the text "../". */
  lemma HasDotsExactly(path: seq<Byte>)
    ensures HasDots(path) <==> exists p: seq<Byte>, q: seq<Byte> :: AroundDots(Name(path), p, q)
  {
    hide AroundDots, DotsAt, Name;
    if HasDots(path) {
      var k: nat :| k < |Name(path)| && DotsAt(Name(path), k);
      var p, q := DotsAround(Name(path), k);
    }
    forall p: seq<Byte>, q: seq<Byte> | AroundDots(Name(path), p, q) ensures HasDots(path) {
      DotsBetween(Name(path), p, q);
      assert |p| < |Name(path)| && DotsAt(Name(path), |p|);
    }
  }

  lemma DotsAround(name: seq<Byte>, k: nat) returns (p: seq<Byte>, q: seq<Byte>)
    requires DotsAt(name, k)
    ensures AroundDots(name, p, q)
  {
    assert name[k..k + 3] == Ascii("../");
    p, q := name[..k], name[k + 3..];
  }

  lemma DotsBetween(name: seq<Byte>, p: seq<Byte>, q: seq<Byte>)
    requires AroundDots(name, p, q)
    ensures |p| < |name| && DotsAt(name, |p|)
  {
    assert name[|p|..|p| + 3] == Ascii("../") == [46, 46, 47];
  }

  /** What one round comes to, from the streams, the buffer, whether the path has dots, what the file system says to the
      name, and whether the disk refuses a write. */
  function Due(command: seq<Byte>, data: seq<Byte>, buffer: seq<Byte>, dots: bool, opens: bool, refused: bool): Handling
    requires |buffer| == MAX_HEADER_LEN
  {
    match LoadHeader(command, buffer)
    case Loaded(h, _) =>
      if h.pathLen > PATH_MAX || |data| < h.discard + h.pathLen then Left else
      DueFor(h, data[h.discard..h.discard + h.pathLen], data[h.discard + h.pathLen..], dots, opens, refused)
    case _ => Left
  }

  function DueFor(h: Header, name: seq<Byte>, behind: seq<Byte>, dots: bool, opens: bool, refused: bool): Handling {
    if dots then BadName(name)
    else if !KnownCommand(h) then Left
    else if !opens then Refused(name)
    else DueToStore(h, name, behind, refused)
  }

  function DueToStore(h: Header, name: seq<Byte>, behind: seq<Byte>, refused: bool): Handling {
    if refused then DiskFull(name)
    else if |behind| < WantedLen(h) then Left
    else Saved(name, behind[..WantedLen(h)])
  }

  /** The answer that goes with it: `reason` is the text of the error that open or mkdir met, `fault` the disk's. */
  function ReplyTo(handling: Handling, reason: seq<Byte>, fault: seq<Byte>): Message {
    match handling
    case Saved(_, _) => Message(ACK_OK, [])
    case Refused(_) => Message(ACK_ERROR, Text(reason))
    case BadName(_) => Message(FORCED_SOCKET_CLOSED, Ascii("BAD PATH"))
    case DiskFull(_) => Message(FORCED_SOCKET_CLOSED, Text(fault))
    case Left => Message(ACK_OK, [])
  }

  /** The bytes of the answers: length, flag, text and NUL. */
  lemma {:induction false} RepliesOnWire(handling: Handling, reason: seq<Byte>, fault: seq<Byte>)
    requires |Text(reason)| <= 252 && |Text(fault)| <= 252
    ensures Sendable(ReplyTo(handling, reason, fault))
    ensures var bytes := EncodeMessage(ReplyTo(handling, reason, fault));
            && (handling.Saved? ==> bytes == [2, 1])
            && (handling.Refused? && Text(reason) != [] ==> bytes == [|Text(reason)| + 3, 0] + Text(reason) + [0])
            && (handling.BadName? ==> bytes == [11, 8] + Ascii("BAD PATH") + [0])
            && (handling.DiskFull? && Text(fault) != [] ==> bytes == [|Text(fault)| + 3, 8] + Text(fault) + [0])
  {
    hide StrnLen;
  }

  /** Header, then the discarded bytes, then the path: the path starts right behind what is discarded. */
  method ReadRequest(b: nat, attrs: DestFileAttrs, command: Socket, data: Socket, header: array<Byte>,
                     buffer: array<Byte>, path: array<Byte>)
    returns (ok: bool)
    requires b > 0 && buffer.Length == b && header.Length == MAX_HEADER_LEN && path.Length == PATH_MAX
    requires command != data && header != buffer && header != path && buffer != path
    modifies attrs, command`incoming, data`incoming, header, buffer, path
    ensures ok <==> (match LoadHeader(old(command.incoming), old(header[..]))
                     case Loaded(h, _) => h.pathLen <= PATH_MAX && h.discard + h.pathLen <= |old(data.incoming)|
                     case _ => false)
    ensures ok ==>
              && attrs.Value() == LoadHeader(old(command.incoming), old(header[..])).value
              && command.incoming == LoadHeader(old(command.incoming), old(header[..])).rest
              && path[..] == Spliced(old(path[..]), 0, old(data.incoming)[attrs.discard..attrs.discard + attrs.pathLen])
              && data.incoming == old(data.incoming)[attrs.discard + attrs.pathLen..]
  {
    hide LoadHeader, Spliced;
    ghost var stream := data.incoming;
    var loaded := LoadDestFileAttrs(header, attrs, command);
    if !loaded.Loaded? { return false; }
    if attrs.discard > 0 {
      var status := DiscardData(b, attrs.discard, data, buffer);
      if status != Success { return false; }
    }
    assert data.incoming == stream[attrs.discard..];
    var status := LoadPathInto(attrs.pathLen, data, path);
    var d, n := attrs.discard, attrs.pathLen;
    if status == Success {
      assert stream[d..][..n] == stream[d..d + n] && stream[d..][n..] == stream[d + n..];
    }
    return status == Success;
  }

  /** An answer is sent, or none when the round is left. */
  ghost predicate Replied(handling: Handling, reply: Message, before: seq<Byte>, after: seq<Byte>) {
    if handling.Left? then after == before else Sendable(reply) && after == before + EncodeMessage(reply)
  }

  /** A C string that send_message can send. */
  ghost predicate SendableText(text: array<Byte>)
    reads text
  {
    |Text(text[..])| <= 252 && |Text(text[..])| < text.Length
  }

  /** A string literal of the program. */
  method Literal(text: seq<Byte>) returns (literal: array<Byte>)
    requires |text| <= 252 && forall k :: 0 <= k < |text| ==> text[k] != 0
    ensures fresh(literal) && SendableText(literal) && Text(literal[..]) == text
  {
    literal := new Byte[|text| + 1];
    Put(literal, 0, text + [0]);
    assert literal[..] == text + [0];
    EndsAtNul(text);
  }

  lemma EndsAtNul(text: seq<Byte>)
    requires |text| <= 252 && forall k :: 0 <= k < |text| ==> text[k] != 0
    ensures Text(text + [0]) == text
  {
    var s := text + [0];
    assert s[|text|] == 0 && forall k :: 0 <= k < |text| ==> s[k] == text[k];
  }

  /** Sends the answer; the thread goes on to `next` only if the send succeeds. */
  method Reply(command: Socket, flag: Byte, text: array<Byte>, next: Handling) returns (handling: Handling, sent: bool)
    requires SendableText(text) && !next.Left?
    modifies command`outgoing, command`failures
    ensures command.failures >= old(command.failures)
    ensures sent <==> command.failures == old(command.failures)
    ensures handling == if sent then next else Left
    ensures Replied(handling, Message(flag, Text(text[..])), old(command.outgoing), command.outgoing)
  {
    var status := SendMessage(command, flag, text);
    sent := status == Success;
    handling := if sent then next else Left;
  }

  /** The file or directory could be created: store the file's bytes, if any, and acknowledge. */
  method Accept(b: nat, attrs: DestFileAttrs, command: Socket, data: Socket, buffer: array<Byte>,
                name: seq<Byte>, disk: Disk, fault: array<Byte>)
    returns (handling: Handling, sent: bool, ghost failed: nat)
    requires b > 0 && buffer.Length == b && command != data && fault != buffer
    requires SendableText(fault) && KnownCommand(attrs.Value())
    modifies command`outgoing, command`failures, data`incoming, buffer, disk`refusals
    ensures command.failures >= old(command.failures) && disk.refusals >= old(disk.refusals)
    ensures sent <==> command.failures == old(command.failures)
    ensures handling == if sent then DueToStore(attrs.Value(), name, old(data.incoming),
                                                disk.refusals > old(disk.refusals))
                        else Left
    ensures !handling.Left? ==>
              Answers(b, handling, failed, attrs.Value(), old(data.incoming), data.incoming,
                      ReplyTo(handling, [], fault[..]))
    ensures Replied(handling, ReplyTo(handling, [], fault[..]), old(command.outgoing), command.outgoing)
  {
    hide EncodeMessage, StrnLen, Text, ChunkLen, ChunkStart, NumChunks;
    ghost var stream := data.incoming;
    failed := 0;
    var content := [];
    if attrs.command == MK_FILE {
      var file := new OpenFile([], disk);
      var result: WriteResult;
      result, failed := WriteData(b, attrs.dataLen, data, file, buffer, command, fault);
      if result == StreamEnded {
        return Left, true, failed;
      } else if result.DiskFailed? {
        return if result.told then DiskFull(name) else Left, result.told, failed;
      }
      content := file.content;
      assert content == stream[..attrs.dataLen] && stream == content + data.incoming;
    } else {
      assert stream == [] + stream && stream[..0] == [];
    }
    var nothing := Literal([]);
    handling, sent := Reply(command, ACK_OK, nothing, Saved(name, content));
  }

  /** `opens` is the file system's decision on the name, `reason` its error text, `fault` that of a failing disk. The
      streams, the path, the file system, the disk and the command socket decide what the round comes to and which one
      answer is sent. */
  method HandleRequest(b: nat, attrs: DestFileAttrs, command: Socket, data: Socket, header: array<Byte>,
                       buffer: array<Byte>, path: array<Byte>, opens: bool, reason: array<Byte>, disk: Disk,
                       fault: array<Byte>)
    returns (handling: Handling, sent: bool, ghost failed: nat)
    requires b > 0 && buffer.Length == b && header.Length == MAX_HEADER_LEN && path.Length == PATH_MAX
    requires command != data && header != buffer && header != path && buffer != path
    requires {reason, fault} !! {header, buffer, path} && SendableText(reason) && SendableText(fault)
    modifies attrs, command, data`incoming, header, buffer, path, disk`refusals
    ensures command.failures >= old(command.failures) && disk.refusals >= old(disk.refusals)
    ensures sent <==> command.failures == old(command.failures)
    ensures handling == if sent then Due(old(command.incoming), old(data.incoming), old(header[..]), HasDots(path[..]),
                                         opens, disk.refusals > old(disk.refusals))
                        else Left
    ensures LoadHeader(old(command.incoming), old(header[..])).Loaded? ==>
              var h := LoadHeader(old(command.incoming), old(header[..])).value;
              h.pathLen <= PATH_MAX && h.discard + h.pathLen <= |old(data.incoming)| ==>
                path[..] == Spliced(old(path[..]), 0, old(data.incoming)[h.discard..h.discard + h.pathLen])
    ensures !handling.Left? ==>
              RoundEnds(b, old(command.incoming), old(data.incoming), old(header[..]), handling, failed, attrs.Value(),
                        command.incoming, data.incoming, ReplyTo(handling, reason[..], fault[..]))
    ensures Replied(handling, ReplyTo(handling, reason[..], fault[..]), old(command.outgoing), command.outgoing)
  {
    hide LoadHeader, EncodeMessage, StrnLen, WantedLen, HasDots, Text;
    failed := 0;
    var ok := ReadRequest(b, attrs, command, data, header, buffer, path);
    if !ok { return Left, true, failed; }
    var name := path[..attrs.pathLen];
    if HasDots(path[..]) {
      var bad := Literal(Ascii("BAD PATH"));
      handling, sent := Reply(command, FORCED_SOCKET_CLOSED, bad, BadName(name));
      return;
    }
    if attrs.command != MK_FILE && attrs.command != MK_DIRECTORY { return Left, true, failed; }
    if opens {
      handling, sent, failed := Accept(b, attrs, command, data, buffer, name, disk, fault);
    } else {
      handling, sent := Reply(command, ACK_ERROR, reason, Refused(name));
    }
  }
}

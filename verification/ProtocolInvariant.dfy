/** What every reachable state of the two programs satisfies, and exactly which steps break it. */
module ProtocolInvariant {
  import opened Bytes
  import opened Headers
  import opened Messages
  import opened Chunks
  import opened Protocol

  /** What is sent under a header has the lengths printed in it; it is the request the header was printed
      for unless a load has overwritten it. */
  ghost predicate SentUnder(printed: Request, sent: Request, intact: bool) {
    && sent.kind == printed.kind && |sent.path| == |printed.path| && |sent.data| == |printed.data|
    && (intact ==> sent == printed)
  }

  /** Bytes `from` on of what the request puts on the channel. */
  predicate IsPiece(r: Request, from: nat, piece: seq<Byte>) {
    from + |piece| <= |Stream(r)| && piece == Stream(r)[from..from + |piece|]
  }

  /** The answer tells the truth about what the server did with the bytes sent for that request. A name the server
      refused may start too far in them, a name it accepted never does. */
  ghost predicate Agrees(a: Answer, o: Outcome) {
    && o.command == Code(a.sent.kind)
    && a.flag == (if o.ok then ACK_OK else ACK_ERROR)
    && |o.path| == |a.sent.path|
    && (o.ok ==> o.path == a.sent.path && o.content == a.sent.data)
    && (exists shift: nat :: IsPiece(a.sent, shift, o.path))
    && SentUnder(a.request, a.sent, a.intact)
  }

  /** The i-th answer belongs to the i-th request the server handled; at most one is under way. */
  ghost predicate Matches(h: History) {
    && |h.answers| <= |h.log| <= |h.answers| + 1
    && forall i :: 0 <= i < |h.answers| ==> Agrees(h.answers[i], h.log[i])
  }

  ghost predicate PastMatches(past: seq<History>) {
    forall k :: 0 <= k < |past| ==> Matches(past[k])
  }

  /** Both channels' command side is silent and the server waits for a header. */
  ghost predicate Quiescent(s: State) {
    s.server == ReadHeader([]) && s.command == [] && s.acks == [] && |s.answers| == |s.log|
  }

  ghost predicate HeaderPrinted(r: Request, h: Header) {
    && ValidRequest(r)
    && h == HeaderFor(r, h.discard)
    && HeaderFits(h) && HeaderTyped(h)
  }

  /** Once a request has been printed, its header stays in the buffer until the next one. */
  ghost predicate Reusable(s: State) {
    s.header.command != 0 ==> HeaderPrinted(s.request, s.header)
  }

  /** A header has been sent and its answer is not handled yet. */
  ghost predicate Busy(s: State) {
    s.phase.SendPath? || s.phase.SendData? || s.phase.Interrupted? || s.phase.AwaitAck?
  }

  /** The server has answered (or refused) the request the client is working on. */
  ghost predicate Replied(s: State) {
    s.server.Gone? || |s.log| == |s.answers| + 1
  }

  /** The part of the reply the client has already received. */
  ghost function Received(s: State): seq<Byte> {
    if s.phase.Interrupted? || s.phase.AwaitAck? then s.phase.got else []
  }

  /** Bytes of the current request already on the data channel or beyond. */
  ghost function SentLen(c: Config, s: State): nat
    requires ValidConfig(c)
  {
    match s.phase
    case SendPath(sent) => sent
    case SendData(i, sent, _) => |s.request.path| + ChunkStart(c.bufferSize, |s.request.data|, i) + sent
    case Interrupted(i, sent, _, _) => |s.request.path| + ChunkStart(c.bufferSize, |s.request.data|, i) + sent
    case _ => |Stream(s.request)|
  }

  /** Bytes the server has taken from the data channel since the head of the request loop, or has answered for
      without taking them: a refused file ends behind its path. */
  ghost function Consumed(c: Config, s: State): nat
    requires ValidConfig(c)
  {
    var d, p := s.header.discard, |s.request.path|;
    match s.server
    case ReadHeader(_) =>
      if |s.log| != |s.answers| + 1 then 0
      else if s.log[|s.answers|].ok then d + p + |s.request.data| else d + p
    case Discarding(i, dropped) => ChunkStart(c.bufferSize, d, i) + dropped
    case ReadPath(got) => d + |got|
    case Opening(_) => d + p
    case Writing(_, _, chunk, file) => d + p + |file| + |chunk|
    case Gone => 0
  }

  /** How far the server is into the bytes of the current request when `shift` of the bytes it drops are the
      request's own; negative as long as bytes of earlier requests are in front of it. */
  ghost function Gap(c: Config, s: State, shift: nat): int
    requires ValidConfig(c)
  {
    Consumed(c, s) + shift - s.header.discard
  }

  /** The data channel is what is left of earlier requests, then the sent part of this one from `gap` on. */
  ghost predicate ChannelHolds(data: seq<Byte>, gap: int, stream: seq<Byte>, sent: int) {
    && gap <= sent <= |stream| && 0 <= sent && |data| == sent - gap
    && if gap < 0 then data[-gap..] == stream[..sent] else data == stream[gap..sent]
  }

  /** The send loops' counters stay within the path, the chunk and the file. */
  ghost predicate CountersOk(c: Config, s: State)
    requires ValidConfig(c)
  {
    var len := |s.request.data|;
    match s.phase
    case SendPath(sent) => sent <= |s.request.path|
    case SendData(i, sent, total) =>
      && s.request.kind == File
      && i <= NumChunks(c.bufferSize, len) && total == ChunkStart(c.bufferSize, len, i)
      && sent <= (if i < NumChunks(c.bufferSize, len) then ChunkLen(c.bufferSize, len, i) else 0)
    case Interrupted(i, sent, total, _) =>
      && s.request.kind == File && Replied(s)
      && i < NumChunks(c.bufferSize, len) && total == ChunkStart(c.bufferSize, len, i)
      && sent < ChunkLen(c.bufferSize, len, i)
    case _ => true
  }

  /** The discard field is the printed one, or was cleared by a reconnect over a fresh channel. */
  ghost predicate FieldOk(s: State, shift: nat) {
    s.discard == s.header.discard || (s.discard == 0 && shift == s.header.discard)
  }

  /** send_data has cleared the discard field once a file's bytes are being sent. */
  ghost predicate SenderOk(c: Config, s: State, shift: nat)
    requires ValidConfig(c)
  {
    CountersOk(c, s)
    && if s.phase.SendPath? || s.request.kind == Directory then FieldOk(s, shift) else s.discard == 0
  }

  ghost predicate Silent(s: State) {
    s.acks == [] && Received(s) == [] && |s.log| == |s.answers|
  }

  /** The reply under way is one whole message with this flag. */
  ghost predicate ReplyUnderWay(s: State, m: Message) {
    Sendable(m) && Received(s) + s.acks == EncodeMessage(m)
  }

  ghost predicate ReplyHasFlag(s: State, flag: Byte) {
    exists text :: ReplyUnderWay(s, Message(flag, text))
  }

  /** What the server has recorded of the request it has answered. */
  ghost predicate Recorded(s: State, shift: nat)
    requires |s.log| == |s.answers| + 1
  {
    var o := s.log[|s.answers|];
    && Agrees(AnswerNow(s, if o.ok then ACK_OK else ACK_ERROR), o)
    && ReplyHasFlag(s, if o.ok then ACK_OK else ACK_ERROR)
    && IsPiece(s.request, shift, o.path) && (o.ok ==> shift == 0)
  }

  ghost predicate ReceiverOk(c: Config, s: State, shift: nat)
    requires ValidConfig(c)
  {
    match s.server
    case ReadHeader(got) =>
      if |s.log| == |s.answers| + 1 then
        got == [] && s.command == [] && Recorded(s, shift)
      else
        Silent(s) && got + s.command == EncodeHeader(s.header)
    case Discarding(i, dropped) =>
      var discard := s.header.discard;
      && Silent(s) && s.command == [] && s.parsed == s.header
      && i <= NumChunks(c.bufferSize, discard)
      && dropped <= (if i < NumChunks(c.bufferSize, discard) then ChunkLen(c.bufferSize, discard, i) else 0)
    case ReadPath(got) =>
      && Silent(s) && s.command == [] && s.parsed == s.header
      && |got| <= |s.request.path| && IsPiece(s.request, shift, got)
    case Opening(path) =>
      && Silent(s) && s.command == [] && s.parsed == s.header
      && |path| == |s.request.path| && IsPiece(s.request, shift, path)
    case Writing(path, i, chunk, file) =>
      var len := |s.request.data|;
      && Silent(s) && s.command == [] && s.parsed == s.header && s.request.kind == File
      && |path| == |s.request.path| && IsPiece(s.request, shift, path)
      && i <= NumChunks(c.bufferSize, len) && |file| == ChunkStart(c.bufferSize, len, i)
      && |chunk| <= (if i < NumChunks(c.bufferSize, len) then ChunkLen(c.bufferSize, len, i) else 0)
      && IsPiece(s.request, shift + |path|, file + chunk)
    case Gone =>
      && |s.log| == |s.answers| && s.command == []
      && |s.request.path| <= SentLen(c, s) && ReplyHasFlag(s, FORCED_SOCKET_CLOSED)
  }

  ghost predicate Aligned(c: Config, s: State, shift: nat)
    requires ValidConfig(c)
  {
    s.server.Gone? || ChannelHolds(s.data, Gap(c, s, shift), Stream(s.request), SentLen(c, s))
  }

  /** The discard the next header will carry: a resend reuses the printed one. */
  function NextDiscard(s: State): nat {
    if s.resend then s.header.discard else s.discard
  }

  /** The invariant of all runs. `shift` is by how much the discard of the next header, or of the one under way,
      exceeds the bytes of earlier requests on the data channel. */
  ghost predicate Inv(c: Config, s: State, shift: nat)
    requires ValidConfig(c)
  {
    && PastMatches(s.past) && Matches(History(s.answers, s.log)) && SentUnder(s.printed, s.request, s.intact)
    && |s.data| <= c.capacity
    && match s.phase
       case Top => Quiescent(s) && |s.data| + shift == NextDiscard(s) && Reusable(s)
                   && (s.resend ==> HeaderPrinted(s.request, s.header) && s.discard == 0 && s.data == [])
       case Loading => Quiescent(s) && |s.data| + shift == s.discard && !s.resend && Reusable(s)
       case Ready => Quiescent(s) && |s.data| + shift == s.header.discard && !s.resend
                     && HeaderPrinted(s.request, s.header) && FieldOk(s, shift)
       case _ => !s.resend && HeaderPrinted(s.request, s.header) && shift <= s.header.discard
                 && SenderOk(c, s, shift) && ReceiverOk(c, s, shift) && Aligned(c, s, shift)
  }

  /** The shift after a step. Only reconnects, an accepted directory and a file that cannot be opened after a
      reconnect set it anew: to what the discard field or the printed header then holds over an empty channel. */
  function NextShift(s: State, a: Action, shift: nat): nat {
    match a
    case TakeMessage =>
      if !(s.phase.Interrupted? || s.phase.AwaitAck?) || !MessageRead(s.phase.got) then shift
      else if s.phase.got[1] == FORCED_SOCKET_CLOSED then s.discard
      else if s.phase.got[1] == ACK_OK && s.request.kind == Directory then s.discard
      else shift
    case CutLoad(_) => s.discard
    case LocalCloses => s.discard
    case Break => s.header.discard
    case OpenFails => if s.discard == s.header.discard then shift else 0
    case _ => shift
  }

  /** The steps after which the discard the next header carries no longer counts the bytes in flight:
      an accepted directory with a nonzero printed discard, a reconnect that resends such a header,
      and a forced reconnect while the discard field is nonzero. */
  predicate Stale(s: State, a: Action) {
    match a
    case TakeMessage =>
      if !(s.phase.Interrupted? || s.phase.AwaitAck?) || !MessageRead(s.phase.got) then false
      else if s.phase.got[1] == FORCED_SOCKET_CLOSED then s.discard != 0
      else s.phase.got[1] == ACK_OK && s.request.kind == Directory && s.header.discard != 0
    case CutLoad(_) => s.discard != 0
    case LocalCloses => s.discard != 0
    case Break => s.header.discard != 0
    case _ => false
  }
}

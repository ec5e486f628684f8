/** Every step from a state satisfying the invariant, one lemma a step. */
module ProtocolSteps {
  import opened Bytes
  import opened Headers
  import opened Messages
  import opened Chunks
  import opened Protocol
  import opened ProtocolInvariant

  lemma ChannelPush(data: seq<Byte>, gap: int, stream: seq<Byte>, sent: int, bytes: seq<Byte>)
    requires ChannelHolds(data, gap, stream, sent)
    requires sent + |bytes| <= |stream| && bytes == stream[sent..sent + |bytes|]
    ensures ChannelHolds(data + bytes, gap, stream, sent + |bytes|)
  {
    assert stream[..sent] + bytes == stream[..sent + |bytes|];
    if gap < 0 {
      assert (data + bytes)[-gap..] == data[-gap..] + bytes;
    } else {
      assert stream[gap..sent] + bytes == stream[gap..sent + |bytes|];
    }
  }

  /** Whatever the server takes moves it on by as many bytes, first through what earlier requests left. */
  lemma ChannelPull(data: seq<Byte>, gap: int, stream: seq<Byte>, sent: int, n: nat)
    requires ChannelHolds(data, gap, stream, sent) && n <= |data|
    ensures ChannelHolds(data[n..], gap + n, stream, sent)
    ensures gap >= 0 ==> data[..n] == stream[gap..gap + n]
  {
    if gap >= 0 {
      assert stream[gap..sent][..n] == stream[gap..gap + n] && stream[gap..sent][n..] == stream[gap + n..sent];
    } else if gap + n < 0 {
      assert data[n..][-gap - n..] == data[-gap..];
    } else {
      assert data[n..] == data[-gap..][gap + n..] && stream[..sent][gap + n..] == stream[gap + n..sent];
    }
  }

  /** A piece grows by the bytes taken off the channel behind it. */
  lemma PieceGrows(r: Request, from: nat, piece: seq<Byte>, more: seq<Byte>)
    requires IsPiece(r, from, piece)
    requires from + |piece| + |more| <= |Stream(r)| && more == Stream(r)[from + |piece|..from + |piece| + |more|]
    ensures IsPiece(r, from, piece + more)
  {
  }

  lemma StreamSlices(r: Request, x: nat, y: nat)
    requires x <= y
    ensures y <= |r.path| ==> r.path[x..y] == Stream(r)[x..y]
    ensures y <= |r.data| ==> r.data[x..y] == Stream(r)[|r.path| + x..|r.path| + y]
  {
  }

  // ---------------------------------------------------------------- daemon

  /** A step of the daemon that sends or counts leaves the server's side of the invariant alone. */
  lemma ReceiverFrame(c: Config, s: State, k: nat, t: State)
    requires ValidConfig(c) && ReceiverOk(c, s, k)
    requires t == s.(phase := t.phase, data := t.data, discard := t.discard)
    requires Received(s) == Received(t) && SentLen(c, s) <= SentLen(c, t)
    ensures ReceiverOk(c, t, k)
  {
    if Replied(s) {
      forall flag | ReplyHasFlag(s, flag) ensures ReplyHasFlag(t, flag) {
        var text :| ReplyUnderWay(s, Message(flag, text));
        assert ReplyUnderWay(t, Message(flag, text));
      }
    }
  }

  lemma LoadKeeps(c: Config, s: State, k: nat, a: Action)
    requires ValidConfig(c) && Inv(c, s, k) && Enabled(c, s, a)
    requires a.Accept? || a.Load? || a.LoadFails? || a.Retry? || a.OpenFails?
    ensures Inv(c, Apply(c, s, a), NextShift(s, a, k))
  {
    hide Matches, PastMatches, Agrees;
    if a.LoadFails? { FailedLoadKeeps(c, s, k, a.o); }
  }

  /** A failed load leaves something of the printed lengths, and the printed request if it was harmless. */
  lemma OverwrittenFits(r: Request, o: Overwrite)
    requires OverwriteFits(r, o)
    ensures var w := Overwritten(r, o);
            w.kind == r.kind && |w.path| == |r.path| && |w.data| == |r.data| && (Harmless(r, o) ==> w == r)
  {
    assert o.Touched? && r.data == [] ==> o.data == [];
  }

  lemma FailedLoadKeeps(c: Config, s: State, k: nat, o: Overwrite)
    requires ValidConfig(c) && Inv(c, s, k) && s.phase == Loading && OverwriteFits(s.request, o)
    ensures Inv(c, FailedLoad(s, o), k)
  {
    hide Matches, PastMatches, Agrees, Overwritten, Harmless;
    OverwrittenFits(s.request, o);
  }

  /** Nothing of a request sent yet: the channel is all junk. */
  lemma NothingSent(data: seq<Byte>, stream: seq<Byte>)
    ensures ChannelHolds(data, -|data|, stream, 0)
  {
    assert data[|data|..] == stream[..0];
    assert |data| == 0 ==> data == stream[0..0];
  }

  lemma SendHeaderKeeps(c: Config, s: State, k: nat)
    requires ValidConfig(c) && Inv(c, s, k) && Enabled(c, s, SendHeader)
    ensures Inv(c, Apply(c, s, SendHeader), k)
  {
    hide Matches, PastMatches, Agrees, HeaderPrinted, Reusable, ChannelHolds, EncodeHeader;
    NothingSent(s.data, Stream(s.request));
    assert [] + EncodeHeader(s.header) == EncodeHeader(s.header);
    var t := Apply(c, s, SendHeader);
    assert t == s.(phase := SendPath(0), command := EncodeHeader(s.header));
    hide Apply, Enabled;
    assert SentLen(c, t) == 0 && Gap(c, t, k) == -|s.data|;
  }

  lemma PushPathKeeps(c: Config, s: State, k: nat, n: nat)
    requires ValidConfig(c) && Inv(c, s, k) && Enabled(c, s, PushPath(n))
    ensures Inv(c, Apply(c, s, PushPath(n)), k)
  {
    hide Matches, PastMatches, HeaderPrinted, ReceiverOk, ChannelHolds, Stream, ChunkStart, ChunkLen, NumChunks;
    var at := s.phase.sent;
    var bytes := s.request.path[at..at + n];
    var t := Apply(c, s, PushPath(n));
    assert t == s.(phase := SendPath(at + n), data := s.data + bytes);
    assert SenderOk(c, t, k) && SentLen(c, t) == at + n && Gap(c, t, k) == Gap(c, s, k);
    hide SenderOk, CountersOk, Apply, Enabled, Gap;
    if !s.server.Gone? {
      StreamSlices(s.request, at, at + n);
      ChannelPush(s.data, Gap(c, s, k), Stream(s.request), at, bytes);
    }
    ReceiverFrame(c, s, k, t);
  }

  lemma PathSentEffect(c: Config, s: State, k: nat)
    requires ValidConfig(c) && SenderOk(c, s, k) && Enabled(c, s, PathSent)
    requires s.request.kind == Directory ==> s.request.data == []
    ensures var t := Apply(c, s, PathSent);
            && t == s.(phase := t.phase, discard := t.discard) && (t.phase.SendData? || t.phase.AwaitAck?)
            && SenderOk(c, t, k) && SentLen(c, t) == SentLen(c, s) && Received(t) == Received(s)
  {
    hide ChunkStart, ChunkLen, NumChunks;
    ChunkEnds(c.bufferSize, |s.request.data|);
  }

  lemma PathSentKeeps(c: Config, s: State, k: nat)
    requires ValidConfig(c) && Inv(c, s, k) && Enabled(c, s, PathSent)
    ensures Inv(c, Apply(c, s, PathSent), k)
  {
    hide Matches, PastMatches, Agrees, ReceiverOk, SenderOk, CountersOk, SentLen, ChannelHolds, EncodeHeader;
    assert s.request.kind == Directory ==> s.request.data == [];
    PathSentEffect(c, s, k);
    hide Apply, Enabled, HeaderPrinted, ReplyHasFlag, Quiescent, Reusable;
    ReceiverFrame(c, s, k, Apply(c, s, PathSent));
  }

  /** What a push changes, and which of the file's bytes it puts on the channel. */
  lemma PushDataEffect(c: Config, s: State, k: nat, n: nat)
    requires ValidConfig(c) && SenderOk(c, s, k) && Enabled(c, s, PushData(n))
    ensures var t, at := Apply(c, s, PushData(n)), SentLen(c, s) - |s.request.path|;
            && 0 <= at && at + n <= |s.request.data| && n > 0
            && t == s.(phase := t.phase, data := s.data + s.request.data[at..at + n]) && |t.data| <= c.capacity
            && t.phase.SendData? && SenderOk(c, t, k) && SentLen(c, t) == SentLen(c, s) + n
  {
    hide ChunkStart, ChunkLen, NumChunks;
    ChunkStep(c.bufferSize, |s.request.data|, s.phase.i);
  }

  lemma PushDataKeeps(c: Config, s: State, k: nat, n: nat)
    requires ValidConfig(c) && Inv(c, s, k) && Enabled(c, s, PushData(n))
    ensures Inv(c, Apply(c, s, PushData(n)), k)
  {
    hide Matches, PastMatches, Agrees, HeaderPrinted, ReceiverOk, ChannelHolds, Stream, SenderOk, CountersOk;
    assert Busy(s) && SenderOk(c, s, k) && ReceiverOk(c, s, k);
    PushDataEffect(c, s, k, n);
    hide Apply, Enabled;
    var at, t := SentLen(c, s) - |s.request.path|, Apply(c, s, PushData(n));
    assert Gap(c, t, k) == Gap(c, s, k);
    hide SentLen, Gap, Quiescent, Reusable, ReplyHasFlag, EncodeHeader, ChunkStart, ChunkLen, NumChunks;
    if !s.server.Gone? {
      StreamSlices(s.request, at, at + n);
      ChannelPush(s.data, Gap(c, s, k), Stream(s.request), SentLen(c, s), s.request.data[at..at + n]);
    }
    ReceiverFrame(c, s, k, t);
  }

  lemma ChunkSentKeeps(c: Config, s: State, k: nat)
    requires ValidConfig(c) && Inv(c, s, k) && Enabled(c, s, ChunkSent)
    ensures Inv(c, Apply(c, s, ChunkSent), k)
  {
    hide Matches, PastMatches, Agrees, HeaderPrinted, ReceiverOk, ChunkStart, ChunkLen, NumChunks;
    ChunkStep(c.bufferSize, |s.request.data|, s.phase.i);
    ChunkEnds(c.bufferSize, |s.request.data|);
    var t := Apply(c, s, ChunkSent);
    assert t == s.(phase := SendData(s.phase.i + 1, 0, s.phase.total + s.phase.sent));
    assert SenderOk(c, t, k) && SentLen(c, t) == SentLen(c, s) by { hide ChannelHolds; }
    hide Apply, Enabled, SenderOk, CountersOk, SentLen, ChannelHolds;
    ReceiverFrame(c, s, k, t);
  }

  lemma DataSentKeeps(c: Config, s: State, k: nat)
    requires ValidConfig(c) && Inv(c, s, k) && Enabled(c, s, DataSent)
    ensures Inv(c, Apply(c, s, DataSent), k)
  {
    hide Matches, PastMatches, Agrees, HeaderPrinted, ReceiverOk, ChunkStart, ChunkLen, NumChunks;
    ChunkEnds(c.bufferSize, |s.request.data|);
    var t := Apply(c, s, DataSent);
    assert t == s.(phase := AwaitAck([]));
    assert SenderOk(c, t, k) && SentLen(c, t) == SentLen(c, s) by { hide ChannelHolds; }
    hide Apply, Enabled, SenderOk, CountersOk, SentLen, ChannelHolds;
    ReceiverFrame(c, s, k, t);
  }

  lemma NoticeMessageKeeps(c: Config, s: State, k: nat)
    requires ValidConfig(c) && Inv(c, s, k) && Enabled(c, s, NoticeMessage)
    ensures Inv(c, Apply(c, s, NoticeMessage), k)
  {
    hide Matches, PastMatches, Agrees;
    hide HeaderPrinted, ReplyHasFlag, ChannelHolds, EncodeHeader;
    var t := Apply(c, s, NoticeMessage);
    assert Replied(s);
    hide ReceiverOk;
    ReceiverFrame(c, s, k, t);
  }

  lemma PullMessageKeeps(c: Config, s: State, k: nat, n: nat)
    requires ValidConfig(c) && Inv(c, s, k) && Enabled(c, s, PullMessage(n))
    ensures Inv(c, Apply(c, s, PullMessage(n)), k)
  {
    hide Matches, PastMatches, Agrees, HeaderPrinted, EncodeHeader, EncodeMessage, ChannelHolds, Stream, ChunkStart,
         ChunkLen, NumChunks, HeaderFits, Sendable;
    var t := Apply(c, s, PullMessage(n));
    assert Replied(s);
    assert t == s.(phase := t.phase, acks := s.acks[n..]) && Received(t) == Received(s) + s.acks[..n];
    assert SenderOk(c, t, k) && SentLen(c, t) == SentLen(c, s) && Busy(t) && !t.phase.SendPath?;
    hide Apply, Enabled, SenderOk, CountersOk, SentLen;
    assert Received(t) + t.acks == Received(s) + s.acks;
    forall flag | ReplyHasFlag(s, flag) ensures ReplyHasFlag(t, flag) {
      var text :| ReplyUnderWay(s, Message(flag, text));
      assert ReplyUnderWay(t, Message(flag, text));
    }
  }

  /** A complete message is the whole reply: nothing of it stays on the channel. */
  lemma ReplyRead(s: State, flag: Byte)
    requires ReplyHasFlag(s, flag) && MessageRead(Received(s))
    ensures s.acks == [] && Received(s)[1] == flag && Received(s)[0] != 0
  {
    var text :| ReplyUnderWay(s, Message(flag, text));
    var e := EncodeMessage(Message(flag, text));
    assert e[0] == |e|;
    assert Received(s)[0] == e[0] && Received(s)[1] == e[1];
  }

  /** A reconnect empties the channels: the shift is then the discard that the next header carries. */
  lemma RestartKeeps(c: Config, s: State, k: nat, resend: bool)
    requires ValidConfig(c) && Inv(c, s, k)
    ensures resend && HeaderPrinted(s.request, s.header) ==> Inv(c, Reconnect(s), s.header.discard)
    ensures !resend ==> Inv(c, Restart(s, false), s.discard)
  {
    hide Agrees, HeaderPrinted, SenderOk, Aligned, ReplyHasFlag, EncodeHeader;
    var h := History(s.answers, s.log);
    assert Matches(h);
    assert forall i :: 0 <= i < |s.past + [h]| ==> (s.past + [h])[i] == h || (s.past + [h])[i] == s.past[i];
    assert PastMatches(s.past + [h]) && Matches(History([], []));
    hide Matches, PastMatches, ReceiverOk;
  }

  /** The answer lands beside the server's own record of the same request. */
  lemma AnswerMatches(s: State, flag: Byte)
    requires Matches(History(s.answers, s.log)) && |s.log| == |s.answers| + 1
    requires Agrees(AnswerNow(s, flag), s.log[|s.answers|])
    ensures Matches(History(s.answers + [AnswerNow(s, flag)], s.log))
  {
  }

  /** Once the reply is read, what is left on the data channel is what the server will not take. */
  lemma ReplyLeavesRest(c: Config, s: State, k: nat)
    requires ValidConfig(c) && Inv(c, s, k) && Enabled(c, s, TakeMessage) && !s.server.Gone?
    ensures |s.log| == |s.answers| + 1
    ensures var o := s.log[|s.answers|];
            && Quiescent(s.(answers := s.answers + [AnswerNow(s, s.phase.got[1])]))
            && s.phase.got[0] != 0 && s.phase.got[1] == (if o.ok then ACK_OK else ACK_ERROR)
            && Agrees(AnswerNow(s, s.phase.got[1]), o)
            && IsPiece(s.request, k, o.path) && (o.ok ==> k == 0)
            && |s.data| + k == SentLen(c, s) - if o.ok then |Stream(s.request)| else |s.request.path|
  {
    assert |s.log| == |s.answers| + 1;
    ReplyRead(s, if s.log[|s.answers|].ok then ACK_OK else ACK_ERROR);
  }

  /** Taking a complete answer. A refusal keeps the shift, and a success comes only when it is 0. */
  lemma TakeMessageShifts(c: Config, s: State, k: nat)
    requires ValidConfig(c) && Inv(c, s, k) && Enabled(c, s, TakeMessage)
    ensures Inv(c, Apply(c, s, TakeMessage), NextShift(s, TakeMessage, k))
    ensures s.phase.got[1] == ACK_OK ==> k == 0
  {
    if s.server.Gone? {
      ReplyRead(s, FORCED_SOCKET_CLOSED);
      RestartKeeps(c, s, k, false);
    } else {
      ReplyLeavesRest(c, s, k);
      AnswerMatches(s, s.phase.got[1]);
      if s.phase.Interrupted? {
        ChunkStep(c.bufferSize, |s.request.data|, s.phase.i);
      }
      hide ReceiverOk, ChunkStart, ChunkLen, NumChunks, Aligned, Agrees, Matches, MessageRead, IsPiece;
    }
  }

  // ---------------------------------------------------------------- server

  predicate ServerAction(a: Action) {
    a.PullHeader? || a.TakeHeader? || a.PullDiscard? || a.ChunkDropped? || a.DiscardDone? || a.PullPath?
    || a.PathDone? || a.Accepted? || a.Rejected? || a.BadPath? || a.PullData? || a.ChunkWritten?
    || a.WriteFails? || a.DataWritten?
  }

  /** The server only moves while a request is unanswered, so the client has read nothing of a reply. */
  lemma ServerMovesEarly(c: Config, s: State, k: nat, a: Action)
    requires ValidConfig(c) && Inv(c, s, k) && Enabled(c, s, a) && ServerAction(a)
    ensures Busy(s) && !Replied(s) && !s.phase.Interrupted? && |s.log| == |s.answers|
  {
    hide Aligned, ChunkStart, ChunkLen, NumChunks, EncodeHeader, Agrees, HeaderPrinted, ReplyHasFlag;
  }

  /** A step of the server touches neither the daemon's fields nor its answers. */
  lemma ServerKeepsClient(c: Config, s: State, a: Action)
    requires ValidConfig(c) && Enabled(c, s, a) && ServerAction(a)
    ensures var t := Apply(c, s, a);
            t == s.(server := t.server, parsed := t.parsed, log := t.log, command := t.command,
                    data := t.data, acks := t.acks)
  {
    hide EncodeMessage, EncodeHeader, ParseHeader, NumChunks, ChunkLen, Sendable, HeaderWants, MessageWants,
         ValidRequest, HeaderFits, HeaderTyped, ChunkStart, GoodMessage, OverwriteFits, Overwritten, MidChunk, MaySend,
         Waiting, AtChunkWrite, TakeMessageStep, Restart;
  }

  /** A step of the server leaves the sender's side of the invariant alone. */
  lemma SenderFrame(c: Config, s: State, k: nat, t: State)
    requires ValidConfig(c) && SenderOk(c, s, k) && !s.phase.Interrupted?
    requires t == s.(server := t.server, parsed := t.parsed, log := t.log, command := t.command,
                     data := t.data, acks := t.acks)
    ensures SenderOk(c, t, k) && SentLen(c, t) == SentLen(c, s) && Received(t) == Received(s)
  {
  }

  /** A step of the server that takes bytes and answers nothing: only its own side and the channel change. */
  lemma TakingKeeps(c: Config, s: State, k: nat, t: State)
    requires ValidConfig(c) && Inv(c, s, k) && Busy(s) && !s.phase.Interrupted?
    requires t == s.(server := t.server, parsed := t.parsed, command := t.command, data := t.data)
    requires |t.data| <= |s.data| && ReceiverOk(c, t, k) && Aligned(c, t, k)
    ensures Inv(c, t, k)
  {
    SenderFrame(c, s, k, t);
    hide Matches, PastMatches, SenderOk, ReceiverOk, Aligned, HeaderPrinted, Quiescent, Reusable;
  }

  /** What the invariant says of a request the server is working on. */
  lemma ServerSide(c: Config, s: State, k: nat, a: Action)
    requires ValidConfig(c) && Inv(c, s, k) && Enabled(c, s, a) && ServerAction(a)
    ensures Busy(s) && !Replied(s) && !s.phase.Interrupted? && |s.log| == |s.answers| && Silent(s)
    ensures SenderOk(c, s, k) && ReceiverOk(c, s, k) && HeaderPrinted(s.request, s.header) && k <= s.header.discard
    ensures ChannelHolds(s.data, Gap(c, s, k), Stream(s.request), SentLen(c, s))
    ensures s.header.dataLen == |s.request.data| && s.header.pathLen == |s.request.path| <= PATH_MAX
    ensures s.header.command == Code(s.request.kind)
  {
    ServerMovesEarly(c, s, k, a);
    hide SenderOk, ChannelHolds, Gap, ChunkStart, ChunkLen, NumChunks, EncodeHeader, Agrees, ReplyHasFlag, IsPiece,
         HeaderFits, HeaderTyped, Stream;
  }

  lemma PullHeaderKeeps(c: Config, s: State, k: nat, n: nat)
    requires ValidConfig(c) && Inv(c, s, k) && Enabled(c, s, PullHeader(n))
    ensures Inv(c, Apply(c, s, PullHeader(n)), k)
  {
    hide Inv, ChannelHolds, EncodeHeader, HeaderPrinted, SenderOk, Stream;
    ServerSide(c, s, k, PullHeader(n));
    assert s.server.got + s.command[..n] + s.command[n..] == s.server.got + s.command;
    var t := Apply(c, s, PullHeader(n));
    assert t == s.(server := ReadHeader(s.server.got + s.command[..n]), command := s.command[n..]);
    hide Apply, Enabled;
    TakingKeeps(c, s, k, t);
  }

  /** A complete read of the header is the header the client printed, and it parses to it. */
  lemma HeaderRead(s: State)
    requires s.server.ReadHeader? && HeaderWants(s.server.got) == 0
    requires HeaderPrinted(s.request, s.header) && s.server.got + s.command == EncodeHeader(s.header)
    ensures s.command == [] && s.server.got[0] >= MIN_DEST_FILE_ATTRS_LEN
    ensures ParseHeader(s.server.got, s.server.got[0]) == Some(s.header)
  {
    hide EncodeHeader, ParseHeader;
    HeaderLength(s.header);
    ParseEncodedHeader(s.header, []);
    assert s.server.got[0] == EncodeHeader(s.header)[0];
    assert EncodeHeader(s.header) + [] == EncodeHeader(s.header) == s.server.got;
  }

  lemma HeaderTaken(c: Config, s: State, k: nat)
    requires ValidConfig(c) && Inv(c, s, k) && Enabled(c, s, TakeHeader)
    ensures Busy(s) && !Replied(s) && !s.phase.Interrupted? && s.command == []
    ensures Apply(c, s, TakeHeader)
         == s.(parsed := s.header, server := if s.header.discard > 0 then Discarding(0, 0) else ReadPath([]))
  {
    hide Inv, SenderOk, SentLen, Gap, ChannelHolds, ParseHeader, EncodeHeader, HeaderPrinted;
    ServerSide(c, s, k, TakeHeader);
    HeaderRead(s);
  }

  lemma TakeHeaderKeeps(c: Config, s: State, k: nat)
    requires ValidConfig(c) && Inv(c, s, k) && Enabled(c, s, TakeHeader)
    ensures Inv(c, Apply(c, s, TakeHeader), k)
  {
    hide Inv, Apply, ChannelHolds, EncodeHeader, HeaderPrinted, SenderOk, ChunkStart, ChunkLen, NumChunks, SentLen,
         Stream;
    assert s.server.ReadHeader?;
    HeaderTaken(c, s, k);
    hide Enabled;
    ServerSide(c, s, k, TakeHeader);
    ChunkEnds(c.bufferSize, s.header.discard);
    var t := Apply(c, s, TakeHeader);
    assert k == 0 ==> IsPiece(s.request, k, []);
    hide IsPiece;
    assert SentLen(c, t) == SentLen(c, s) by { SenderFrame(c, s, k, t); }
    TakingKeeps(c, s, k, t);
  }

  lemma ChannelReaches(data: seq<Byte>, gap: int, stream: seq<Byte>, sent: int)
    requires ChannelHolds(data, gap, stream, sent)
    ensures gap <= sent <= |stream| && |data| == sent - gap
  {
  }

  lemma PullDiscardKeeps(c: Config, s: State, k: nat, n: nat)
    requires ValidConfig(c) && Inv(c, s, k) && Enabled(c, s, PullDiscard(n))
    ensures Inv(c, Apply(c, s, PullDiscard(n)), k)
  {
    hide Inv, ChannelHolds, EncodeHeader, HeaderPrinted, SenderOk, ChunkStart, ChunkLen, NumChunks, Stream, SentLen;
    ServerSide(c, s, k, PullDiscard(n));
    ChannelPull(s.data, Gap(c, s, k), Stream(s.request), SentLen(c, s), n);
    var t := Apply(c, s, PullDiscard(n));
    assert t == s.(server := Discarding(s.server.i, s.server.dropped + n), data := s.data[n..]);
    hide Apply, Enabled;
    assert SentLen(c, t) == SentLen(c, s) by { SenderFrame(c, s, k, t); }
    TakingKeeps(c, s, k, t);
  }

  lemma ChunkDroppedKeeps(c: Config, s: State, k: nat)
    requires ValidConfig(c) && Inv(c, s, k) && Enabled(c, s, ChunkDropped)
    ensures Inv(c, Apply(c, s, ChunkDropped), k)
  {
    hide Inv, ChannelHolds, EncodeHeader, HeaderPrinted, SenderOk, ChunkStart, ChunkLen, NumChunks, Stream, SentLen;
    ServerSide(c, s, k, ChunkDropped);
    ChunkStep(c.bufferSize, s.header.discard, s.server.i);
    var t := Apply(c, s, ChunkDropped);
    assert t == s.(server := Discarding(s.server.i + 1, 0));
    hide Apply, Enabled;
    assert SentLen(c, t) == SentLen(c, s) by { SenderFrame(c, s, k, t); }
    TakingKeeps(c, s, k, t);
  }

  lemma DiscardDoneKeeps(c: Config, s: State, k: nat)
    requires ValidConfig(c) && Inv(c, s, k) && Enabled(c, s, DiscardDone)
    ensures Inv(c, Apply(c, s, DiscardDone), k)
  {
    hide Inv, ChannelHolds, EncodeHeader, HeaderPrinted, SenderOk, ChunkStart, ChunkLen, NumChunks, SentLen;
    ServerSide(c, s, k, DiscardDone);
    ChunkEnds(c.bufferSize, s.header.discard);
    ChannelReaches(s.data, Gap(c, s, k), Stream(s.request), SentLen(c, s));
    var t := Apply(c, s, DiscardDone);
    assert t == s.(server := ReadPath([]));
    hide Apply, Enabled;
    assert SentLen(c, t) == SentLen(c, s) by { SenderFrame(c, s, k, t); }
    TakingKeeps(c, s, k, t);
  }

  lemma PullPathKeeps(c: Config, s: State, k: nat, n: nat)
    requires ValidConfig(c) && Inv(c, s, k) && Enabled(c, s, PullPath(n))
    ensures Inv(c, Apply(c, s, PullPath(n)), k)
  {
    hide Inv, ChannelHolds, EncodeHeader, HeaderPrinted, SenderOk, ChunkStart, ChunkLen, NumChunks, Stream, SentLen,
         IsPiece;
    ServerSide(c, s, k, PullPath(n));
    ChannelPull(s.data, Gap(c, s, k), Stream(s.request), SentLen(c, s), n);
    var t := Apply(c, s, PullPath(n));
    assert t == s.(server := ReadPath(s.server.got + s.data[..n]), data := s.data[n..]);
    hide Apply, Enabled;
    ChannelReaches(t.data, Gap(c, t, k), Stream(s.request), SentLen(c, s));
    PieceGrows(s.request, k, s.server.got, s.data[..n]);
    assert SentLen(c, t) == SentLen(c, s) by { SenderFrame(c, s, k, t); }
    TakingKeeps(c, s, k, t);
  }

  lemma PathDoneKeeps(c: Config, s: State, k: nat)
    requires ValidConfig(c) && Inv(c, s, k) && Enabled(c, s, PathDone)
    ensures Inv(c, Apply(c, s, PathDone), k)
  {
    hide Inv, ChannelHolds, EncodeHeader, HeaderPrinted, SenderOk, ChunkStart, ChunkLen, NumChunks, Stream, SentLen,
         IsPiece;
    ServerSide(c, s, k, PathDone);
    var t := Apply(c, s, PathDone);
    assert t == s.(server := Opening(s.server.got));
    hide Apply, Enabled;
    assert SentLen(c, t) == SentLen(c, s) by { SenderFrame(c, s, k, t); }
    TakingKeeps(c, s, k, t);
  }

  /** Answering one request puts exactly one whole message on a silent command channel. */
  lemma HandledKeeps(c: Config, s: State, k: nat, o: Outcome, text: seq<Byte>)
    requires ValidConfig(c) && Inv(c, s, k) && Busy(s) && !Replied(s) && !s.phase.Interrupted? && Silent(s)
    requires s.command == []
    requires Sendable(Message(if o.ok then ACK_OK else ACK_ERROR, text))
    requires Agrees(AnswerNow(s, if o.ok then ACK_OK else ACK_ERROR), o)
    requires IsPiece(s.request, k, o.path) && (o.ok ==> k == 0)
    requires ChannelHolds(s.data, k + if o.ok then |Stream(s.request)| else |s.request.path|, Stream(s.request),
                          SentLen(c, s))
    ensures Inv(c, Handled(s, o, if o.ok then ACK_OK else ACK_ERROR, text), k)
  {
    hide IsPiece;
    var m := Message(if o.ok then ACK_OK else ACK_ERROR, text);
    var t := Handled(s, o, m.flag, text);
    assert [] + ([] + EncodeMessage(m)) == EncodeMessage(m);
    assert ReplyUnderWay(t, m);
    SenderFrame(c, s, k, t);
    hide SenderOk, SentLen, ChannelHolds, Agrees, Sendable, EncodeMessage, HeaderPrinted;
    forall i | 0 <= i < |t.answers| ensures Agrees(t.answers[i], t.log[i]) {
      assert t.log[i] == s.log[i];
    }
  }

  lemma ForcedKeeps(c: Config, s: State, k: nat, text: seq<Byte>)
    requires ValidConfig(c) && Inv(c, s, k) && Busy(s) && !Replied(s) && !s.phase.Interrupted? && Silent(s)
    requires s.command == [] && |s.request.path| <= SentLen(c, s)
    requires Sendable(Message(FORCED_SOCKET_CLOSED, text))
    ensures Inv(c, Respond(s.(server := Gone), FORCED_SOCKET_CLOSED, text), k)
  {
    hide Matches, PastMatches, Agrees;
    var m := Message(FORCED_SOCKET_CLOSED, text);
    var t := Respond(s.(server := Gone), FORCED_SOCKET_CLOSED, text);
    assert [] + ([] + EncodeMessage(m)) == EncodeMessage(m);
    assert ReplyUnderWay(t, m);
    SenderFrame(c, s, k, t);
    hide SenderOk, SentLen, ChannelHolds, Sendable, EncodeMessage;
  }

  lemma BeginWritingKeeps(c: Config, s: State, k: nat)
    requires ValidConfig(c) && Inv(c, s, k) && Enabled(c, s, Accepted) && s.request.kind == File
    ensures Inv(c, Apply(c, s, Accepted), k)
  {
    hide Inv, ChannelHolds, EncodeHeader, HeaderPrinted, SenderOk, ChunkStart, ChunkLen, NumChunks, SentLen,
         EncodeMessage, Sendable;
    ServerSide(c, s, k, Accepted);
    ChunkEnds(c.bufferSize, |s.request.data|);
    ChannelReaches(s.data, Gap(c, s, k), Stream(s.request), SentLen(c, s));
    var t := Apply(c, s, Accepted);
    assert t == s.(server := Writing(s.server.path, 0, [], []));
    assert IsPiece(s.request, k + |s.server.path|, [] + []);
    hide Apply, Enabled, IsPiece, Stream;
    assert SentLen(c, t) == SentLen(c, s) by { SenderFrame(c, s, k, t); }
    TakingKeeps(c, s, k, t);
  }

  /** A name read to its end that is as long as all that was sent is the path itself. */
  lemma WholePath(r: Request, k: nat, path: seq<Byte>)
    requires IsPiece(r, k, path) && |path| == |r.path|
    ensures k == 0 ==> path == r.path
    ensures r.data == [] ==> k == 0
  {
  }

  lemma DirectoryMadeKeeps(c: Config, s: State, k: nat)
    requires ValidConfig(c) && Inv(c, s, k) && Enabled(c, s, Accepted) && s.request.kind == Directory
    ensures Inv(c, Apply(c, s, Accepted), k)
  {
    ServerSide(c, s, k, Accepted);
    assert s.request.data == [] by { hide Inv; }
    hide Inv, ReceiverOk, SenderOk, ChannelHolds, EncodeHeader, SentLen, Gap, EncodeMessage;
    assert |s.server.path| == |s.request.path| && IsPiece(s.request, k, s.server.path) && s.command == []
           && s.parsed == s.header by { OpeningSide(c, s, k); }
    WholePath(s.request, k, s.server.path);
    assert Gap(c, s, k) == k + |s.request.path| by { OpeningSide(c, s, k); }
    HandledKeeps(c, s, k, Outcome(MK_DIRECTORY, s.server.path, [], true), []);
  }

  lemma OpeningSide(c: Config, s: State, k: nat)
    requires ValidConfig(c) && ReceiverOk(c, s, k) && s.server.Opening?
    ensures |s.server.path| == |s.request.path| && IsPiece(s.request, k, s.server.path) && s.command == []
    ensures s.parsed == s.header && Gap(c, s, k) == k + |s.request.path|
  {
  }

  lemma RefusedKeeps(c: Config, s: State, k: nat, text: seq<Byte>)
    requires ValidConfig(c) && Inv(c, s, k) && Enabled(c, s, Rejected(text))
    ensures Inv(c, Apply(c, s, Rejected(text)), k)
  {
    ServerSide(c, s, k, Rejected(text));
    OpeningSide(c, s, k);
    assert SentUnder(s.printed, s.request, s.intact) by { hide SentUnder; }
    hide Inv, ReceiverOk, SenderOk, ChannelHolds, EncodeHeader, SentLen, Gap, EncodeMessage, SentUnder, IsPiece;
    HandledKeeps(c, s, k, Outcome(s.parsed.command, s.server.path, [], false), text);
  }

  lemma OpeningKeeps(c: Config, s: State, k: nat, a: Action)
    requires ValidConfig(c) && Inv(c, s, k) && Enabled(c, s, a)
    requires a.Accepted? || a.Rejected? || a.BadPath?
    ensures Inv(c, Apply(c, s, a), k)
  {
    hide Inv;
    if a.Rejected? {
      RefusedKeeps(c, s, k, a.text);
    } else if a.BadPath? {
      ServerSide(c, s, k, a);
      OpeningSide(c, s, k);
      ChannelReaches(s.data, Gap(c, s, k), Stream(s.request), SentLen(c, s));
      hide ReceiverOk, SenderOk, ChannelHolds, SentLen, EncodeMessage, EncodeHeader;
      ForcedKeeps(c, s, k, a.text);
    } else if s.request.kind == Directory {
      DirectoryMadeKeeps(c, s, k);
    } else {
      BeginWritingKeeps(c, s, k);
    }
  }

  lemma PullDataKeeps(c: Config, s: State, k: nat, n: nat)
    requires ValidConfig(c) && Inv(c, s, k) && Enabled(c, s, PullData(n))
    ensures Inv(c, Apply(c, s, PullData(n)), k)
  {
    hide Inv, ChannelHolds, EncodeHeader, HeaderPrinted, SenderOk, ChunkStart, ChunkLen, NumChunks, Stream, SentLen,
         IsPiece;
    ServerSide(c, s, k, PullData(n));
    ChannelPull(s.data, Gap(c, s, k), Stream(s.request), SentLen(c, s), n);
    var t, whole, more := Apply(c, s, PullData(n)), s.server.file + s.server.chunk, s.data[..n];
    assert t == s.(server := Writing(s.server.path, s.server.i, s.server.chunk + more, s.server.file),
                   data := s.data[n..]);
    hide Apply, Enabled;
    ChannelReaches(t.data, Gap(c, t, k), Stream(s.request), SentLen(c, s));
    PieceGrows(s.request, k + |s.server.path|, whole, more);
    assert whole + more == s.server.file + (s.server.chunk + more);
    assert SentLen(c, t) == SentLen(c, s) by { SenderFrame(c, s, k, t); }
    TakingKeeps(c, s, k, t);
  }

  lemma ChunkWrittenKeeps(c: Config, s: State, k: nat)
    requires ValidConfig(c) && Inv(c, s, k) && Enabled(c, s, ChunkWritten)
    ensures Inv(c, Apply(c, s, ChunkWritten), k)
  {
    hide Inv, ChannelHolds, EncodeHeader, HeaderPrinted, SenderOk, ChunkStart, ChunkLen, NumChunks, Stream, SentLen,
         IsPiece;
    ServerSide(c, s, k, ChunkWritten);
    ChunkStep(c.bufferSize, |s.request.data|, s.server.i);
    var t, whole := Apply(c, s, ChunkWritten), s.server.file + s.server.chunk;
    assert whole + [] == whole;
    assert t == s.(server := Writing(s.server.path, s.server.i + 1, [], whole));
    hide Apply, Enabled;
    assert SentLen(c, t) == SentLen(c, s) by { SenderFrame(c, s, k, t); }
    TakingKeeps(c, s, k, t);
  }

  /** A file of the announced length whose bytes all were sent is the file itself. */
  lemma WholeFile(r: Request, k: nat, path: seq<Byte>, file: seq<Byte>)
    requires |path| == |r.path| && |file| == |r.data| && IsPiece(r, k, path) && IsPiece(r, k + |path|, file)
    ensures k == 0 && path == r.path && file == r.data
  {
  }

  lemma FileWrittenKeeps(c: Config, s: State, k: nat)
    requires ValidConfig(c) && Inv(c, s, k) && Enabled(c, s, DataWritten)
    ensures Inv(c, Apply(c, s, DataWritten), k)
  {
    ServerSide(c, s, k, DataWritten);
    ChunkEnds(c.bufferSize, |s.request.data|);
    assert SentUnder(s.printed, s.request, s.intact) by { hide SentUnder; }
    assert s.server.chunk == [] && s.server.file + [] == s.server.file;
    assert IsPiece(s.request, k + |s.server.path|, s.server.file + s.server.chunk);
    WholeFile(s.request, k, s.server.path, s.server.file);
    assert Gap(c, s, k) == |Stream(s.request)|;
    hide Inv, ReceiverOk, SenderOk, ChannelHolds, EncodeHeader, SentLen, Gap, EncodeMessage, SentUnder, IsPiece,
         ChunkStart, ChunkLen, NumChunks, HeaderPrinted;
    HandledKeeps(c, s, k, Outcome(MK_FILE, s.server.path, s.server.file, true), []);
  }

  lemma WriteFailsKeeps(c: Config, s: State, k: nat, text: seq<Byte>)
    requires ValidConfig(c) && Inv(c, s, k) && Enabled(c, s, WriteFails(text))
    ensures Inv(c, Apply(c, s, WriteFails(text)), k)
  {
    hide Inv, SenderOk, ChannelHolds, SentLen, EncodeMessage, EncodeHeader, IsPiece, ChunkStart, ChunkLen, NumChunks;
    ServerSide(c, s, k, WriteFails(text));
    ChannelReaches(s.data, Gap(c, s, k), Stream(s.request), SentLen(c, s));
    ForcedKeeps(c, s, k, text);
  }
}

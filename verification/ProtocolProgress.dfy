/** When the two programs block each other on a bounded data channel, and termination of every request. */
module ProtocolProgress {
  import opened Bytes
  import opened Headers
  import opened Messages
  import opened Chunks
  import opened Protocol
  import opened ProtocolInvariant
  import opened ProtocolSteps
  import opened ProtocolTheorems

  /** What the two programs do by themselves: no break of the connection, no local client leaving. */
  predicate ProgramStep(a: Action) {
    !a.Break? && !a.LocalCloses? && !a.CutLoad?
  }

  /** A send blocked on a connection that the server thread has closed fails: that break is the daemon's own step. */
  predicate OwnStep(s: State, a: Action) {
    ProgramStep(a) || (a.Break? && s.server.Gone? && InsideSend(s))
  }

  ghost predicate CanMove(c: Config, s: State)
    requires ValidConfig(c)
  {
    exists a :: Enabled(c, s, a) && OwnStep(s, a)
  }

  /** The server has refused the file and reads headers only. */
  predicate Refused(s: State) {
    !s.server.Gone? && |s.log| == |s.answers| + 1 && !s.log[|s.answers|].ok
  }

  /** On a reconnected data socket the daemon is inside send on a full channel, and the server has refused the file. */
  predicate Stuck(c: Config, s: State)
    requires ValidConfig(c)
  {
    MidChunk(c, s) && InsideSend(s) && |s.data| >= c.capacity && Refused(s)
  }

  /** What the server's receive on the data socket still wants. */
  function DataWants(c: Config, s: State): int
    requires ValidConfig(c)
  {
    match s.server
    case Discarding(i, dropped) =>
      if i < NumChunks(c.bufferSize, s.parsed.discard) then ChunkLen(c.bufferSize, s.parsed.discard, i) - dropped else 0
    case ReadPath(got) => s.parsed.pathLen - |got|
    case Writing(_, i, chunk, _) =>
      if i < NumChunks(c.bufferSize, s.parsed.dataLen) then ChunkLen(c.bufferSize, s.parsed.dataLen, i) - |chunk| else 0
    case _ => 0
  }

  /** The daemon has sent everything and waits for the answer; the server has taken all that and waits for more. */
  predicate Starved(c: Config, s: State)
    requires ValidConfig(c)
  {
    s.phase == AwaitAck([]) && s.acks == [] && s.data == [] && DataWants(c, s) > 0
  }

  lemma HeaderMoves(c: Config, s: State) returns (a: Action)
    requires ValidConfig(c) && s.server.ReadHeader? && HeaderPrinted(s.request, s.header)
    requires s.server.got + s.command == EncodeHeader(s.header)
    ensures ServerAction(a) && Enabled(c, s, a)
  {
    hide EncodeHeader;
    var got := s.server.got;
    HeaderLength(s.header);
    a := if HeaderWants(got) == 0 then TakeHeader else PullHeader(1);
    if s.command == [] {
      assert got + [] == got;
    }
  }

  lemma DiscardMoves(c: Config, s: State) returns (a: Action)
    requires ValidConfig(c) && s.server.Discarding? && s.server.i <= NumChunks(c.bufferSize, s.parsed.discard)
    requires s.server.i < NumChunks(c.bufferSize, s.parsed.discard) ==>
               s.server.dropped <= ChunkLen(c.bufferSize, s.parsed.discard, s.server.i)
    ensures ServerAction(a)
    ensures Enabled(c, s, a) || (s.data == [] && DataWants(c, s) > 0)
  {
    var d := s.parsed.discard;
    a := if s.server.i == NumChunks(c.bufferSize, d) then DiscardDone
         else if s.server.dropped == ChunkLen(c.bufferSize, d, s.server.i) then ChunkDropped else PullDiscard(1);
    hide ChunkStart, ChunkLen, NumChunks;
  }

  lemma WritingMoves(c: Config, s: State) returns (a: Action)
    requires ValidConfig(c) && s.server.Writing? && s.server.i <= NumChunks(c.bufferSize, s.parsed.dataLen)
    requires s.server.i < NumChunks(c.bufferSize, s.parsed.dataLen) ==>
               |s.server.chunk| <= ChunkLen(c.bufferSize, s.parsed.dataLen, s.server.i)
    ensures ServerAction(a)
    ensures Enabled(c, s, a) || (s.data == [] && DataWants(c, s) > 0)
  {
    var len := s.parsed.dataLen;
    a := if s.server.i == NumChunks(c.bufferSize, len) then DataWritten
         else if |s.server.chunk| == ChunkLen(c.bufferSize, len, s.server.i) then ChunkWritten else PullData(1);
    hide ChunkStart, ChunkLen, NumChunks;
  }

  lemma ChannelCount(c: Config, s: State, k: nat)
    requires ValidConfig(c) && Inv(c, s, k) && Busy(s) && !s.server.Gone?
    ensures Gap(c, s, k) <= SentLen(c, s) <= |Stream(s.request)|
    ensures |s.data| == SentLen(c, s) - Gap(c, s, k) && k <= s.header.discard
  {
    hide SenderOk, ReceiverOk, SentLen, Gap;
  }

  /** While the request is unanswered the server can move, unless it has taken all that was sent and wants more. */
  lemma ServerMoves(c: Config, s: State, k: nat) returns (a: Action)
    requires ValidConfig(c) && Inv(c, s, k) && Busy(s) && !Replied(s)
    ensures ServerAction(a)
    ensures Enabled(c, s, a) || (s.data == [] && DataWants(c, s) > 0)
  {
    hide EncodeHeader, Agrees, SenderOk, Aligned, ChunkStart, ChunkLen, NumChunks, SentLen, ReplyHasFlag, IsPiece;
    a := PathDone;
    match s.server {
      case ReadHeader(got) => a := HeaderMoves(c, s);
      case Discarding(i, dropped) => a := DiscardMoves(c, s);
      case ReadPath(got) => a := if |got| == s.parsed.pathLen then PathDone else PullPath(1);
      case Opening(_) => a := OpeningMoves(c, s);
      case Writing(_, _, _, _) => a := WritingMoves(c, s);
      case Gone =>
    }
  }

  lemma OpeningMoves(c: Config, s: State) returns (a: Action)
    requires ValidConfig(c) && s.server.Opening?
    ensures ServerAction(a) && Enabled(c, s, a)
  {
    a := Accepted;
  }

  /** A reply that is not completely read has bytes waiting. */
  lemma ReplyLeft(s: State, got: seq<Byte>)
    requires got == Received(s) && exists flag :: ReplyHasFlag(s, flag)
    ensures MessageRead(got) || (s.acks != [] && MessageWants(got) >= 1)
  {
    var flag :| ReplyHasFlag(s, flag);
    var text :| ReplyUnderWay(s, Message(flag, text));
    var e := EncodeMessage(Message(flag, text));
    assert e[0] == |e|;
    if s.acks == [] { assert got + [] == got == e; }
    if |got| >= 2 { assert got[0] == e[0]; }
  }

  lemma SendDataMoves(c: Config, s: State, k: nat) returns (a: Action)
    requires ValidConfig(c) && s.phase.SendData? && SenderOk(c, s, k)
    requires s.acks != [] || Writable(c, s)
    requires MidChunk(c, s) && InsideSend(s) && |s.data| >= c.capacity ==> s.server.Gone?
    ensures OwnStep(s, a) && Enabled(c, s, a)
  {
    var len := |s.request.data|;
    ChunkEnds(c.bufferSize, len);
    if s.phase.i == NumChunks(c.bufferSize, len) {
      a := DataSent;
    } else {
      ChunkStep(c.bufferSize, len, s.phase.i);
      a := if s.phase.sent == ChunkLen(c.bufferSize, len, s.phase.i) then ChunkSent
           else if Writable(c, s) || (InsideSend(s) && |s.data| < c.capacity) then PushData(1)
           else if InsideSend(s) then Break else NoticeMessage;
    }
    hide ChunkStart, ChunkLen, NumChunks;
  }

  /** While file bytes are still to be sent, a server that has answered has refused the file. */
  lemma MidChunkRefused(c: Config, s: State, k: nat)
    requires ValidConfig(c) && Inv(c, s, k) && Busy(s) && MidChunk(c, s) && Replied(s) && !s.server.Gone?
    ensures Refused(s)
  {
    ChannelCount(c, s, k);
    ChunkStep(c.bufferSize, |s.request.data|, s.phase.i);
    hide Agrees, ChunkStart, ChunkLen, NumChunks, ReplyHasFlag, Aligned;
  }

  lemma RepliedClient(c: Config, s: State, k: nat)
    requires ValidConfig(c) && Inv(c, s, k) && Busy(s) && Replied(s)
    ensures s.phase.SendPath? ==> s.phase.sent == |s.request.path|
    ensures MessageRead(Received(s)) || (s.acks != [] && MessageWants(Received(s)) >= 1)
  {
    hide EncodeHeader, Agrees, HeaderPrinted, Matches, PastMatches, MessageRead, MessageWants;
    assert exists flag :: ReplyHasFlag(s, flag);
    ReplyLeft(s, Received(s));
    if !s.server.Gone? { ChannelCount(c, s, k); }
    hide Aligned, ReplyHasFlag;
  }

  /** The client waits on a channel it has filled, or for a reply, only when it is stuck or starved. */
  lemma ClientMoves(c: Config, s: State, k: nat) returns (a: Action)
    requires ValidConfig(c) && Inv(c, s, k) && Busy(s) && !Stuck(c, s)
    requires Replied(s) || (s.data == [] && (s.phase.SendPath? || s.phase.SendData?))
    ensures OwnStep(s, a) && Enabled(c, s, a)
  {
    if Replied(s) {
      RepliedClient(c, s, k);
      if MidChunk(c, s) && !s.server.Gone? { MidChunkRefused(c, s, k); }
    }
    assert SenderOk(c, s, k);
    hide Inv, ChunkStart, ChunkLen, NumChunks;
    match s.phase {
      case SendPath(sent) => a := if sent == |s.request.path| then PathSent else PushPath(1);
      case SendData(_, _, _) => a := SendDataMoves(c, s, k);
      case _ => a := MessageMoves(c, s);
    }
  }

  lemma MessageMoves(c: Config, s: State) returns (a: Action)
    requires ValidConfig(c) && (s.phase.Interrupted? || s.phase.AwaitAck?)
    requires MessageRead(s.phase.got) || (s.acks != [] && MessageWants(s.phase.got) >= 1)
    ensures ProgramStep(a) && Enabled(c, s, a)
  {
    a := if MessageRead(s.phase.got) then TakeMessage else PullMessage(1);
    hide MessageRead, MessageWants;
  }

  /** In every run, stale steps included: neither program can move in exactly the stuck and the starved states, only a
      lost connection ends those, and a starved request is one whose server reads too far in it. */
  lemma BlockedExactly(c: Config, s: State)
    requires ValidConfig(c) && Reachable(c, s) && Busy(s)
    ensures CanMove(c, s) <==> !Stuck(c, s) && !Starved(c, s)
    ensures Stuck(c, s) || Starved(c, s) ==> forall a :: Enabled(c, s, a) ==> a.Break?
    ensures Starved(c, s) ==> Shift(c, s) > 0
  {
    var k := ReachableInv(c, s);
    hide Reachable, Shift;
    if Stuck(c, s) {
      StuckStays(c, s, k);
    } else if Starved(c, s) {
      StarvedStays(c, s);
    } else {
      UnblockedMoves(c, s, k);
    }
    if Starved(c, s) {
      StarvedIsShifted(c, s, k);
      ShiftIs(c, s, k);
    }
  }

  lemma UnblockedMoves(c: Config, s: State, k: nat)
    requires ValidConfig(c) && Inv(c, s, k) && Busy(s) && !Stuck(c, s) && !Starved(c, s)
    ensures CanMove(c, s)
  {
    hide Enabled, SentLen, Stuck, DataWants;
    if Replied(s) {
      hide Inv;
      var a := ClientMoves(c, s, k);
    } else {
      var a := ServerMoves(c, s, k);
      if !Enabled(c, s, a) {
        UnrepliedPhase(c, s, k);
        hide Inv;
        var b := ClientMoves(c, s, k);
      }
    }
  }

  lemma UnrepliedPhase(c: Config, s: State, k: nat)
    requires ValidConfig(c) && Inv(c, s, k) && Busy(s) && !Replied(s)
    ensures s.phase.SendPath? || s.phase.SendData? || (s.phase == AwaitAck([]) && s.acks == [])
  {
    hide Aligned, ChunkStart, ChunkLen, NumChunks, EncodeHeader, Agrees, HeaderPrinted, ReplyHasFlag, IsPiece;
  }

  lemma StuckStays(c: Config, s: State, k: nat)
    requires ValidConfig(c) && Inv(c, s, k) && Stuck(c, s)
    ensures forall a :: Enabled(c, s, a) ==> a.Break?
  {
    hide Inv, ChunkStart, ChunkLen, NumChunks, Sendable, EncodeHeader, GoodMessage, ValidRequest, HeaderFits,
         HeaderTyped, OverwriteFits;
    RefusingServerWaits(c, s, k);
  }

  lemma RefusingServerWaits(c: Config, s: State, k: nat)
    requires ValidConfig(c) && Inv(c, s, k) && Busy(s) && Refused(s)
    ensures s.server == ReadHeader([]) && s.command == []
  {
    hide SenderOk, Aligned, Agrees, HeaderPrinted, EncodeHeader, ReplyHasFlag, IsPiece;
  }

  lemma StarvedStays(c: Config, s: State)
    requires ValidConfig(c) && Starved(c, s)
    ensures forall a :: Enabled(c, s, a) ==> a.Break?
  {
    hide ChunkStart, ChunkLen, NumChunks, Sendable, EncodeHeader, ValidRequest, HeaderFits, HeaderTyped, OverwriteFits;
  }

  lemma StarvedIsShifted(c: Config, s: State, k: nat)
    requires ValidConfig(c) && Inv(c, s, k) && Starved(c, s)
    ensures k > 0 && !s.server.Gone?
  {
    ChannelCount(c, s, k);
    ServerCounters(c, s, k);
    var b, d, len := c.bufferSize, s.header.discard, |s.request.data|;
    if s.server.Discarding? && s.server.i < NumChunks(b, d) { ChunkStep(b, d, s.server.i); }
    if s.server.Writing? && s.server.i < NumChunks(b, len) { ChunkStep(b, len, s.server.i); }
    hide Inv, ChunkStart, ChunkLen, NumChunks;
  }

  /** What a stuck daemon is sending does not fit the channel, nor can the channel hold whole buffers only. */
  lemma StuckSize(c: Config, s: State, k: nat)
    requires ValidConfig(c) && Inv(c, s, k) && Stuck(c, s)
    ensures s.past != [] && |s.request.data| > c.capacity
    ensures k == 0 ==> c.capacity % c.bufferSize > 0
  {
    ChannelCount(c, s, k);
    var b, len, i := c.bufferSize, |s.request.data|, s.phase.i;
    ChunkStep(b, len, i);
    RefusingServerWaits(c, s, k);
    assert |s.data| == c.capacity;
    assert |s.data| + k == ChunkStart(b, len, i) + s.phase.sent;
    hide Inv, NumChunks;
    DivMod(b, len);
    if k == 0 { DivUnique(b, c.capacity, i, s.phase.sent); }
  }

  /** On the connection that init opened, with an exact count, no state a request passes through has both programs
      blocked. The count is exact in every run without stale steps. */
  lemma NeverDeadlocked(c: Config, s: State)
    requires ValidConfig(c) && Reachable(c, s) && Busy(s) && s.past == []
    requires ReachableWithoutStale(c, s) || Shift(c, s) == 0
    ensures exists a :: ProgramStep(a) && Enabled(c, s, a)
  {
    BlockedExactly(c, s);
    hide Reachable, Enabled;
    if ReachableWithoutStale(c, s) {
      WithoutStale(c, s);
      if Starved(c, s) { StarvedIsShifted(c, s, 0); }
    }
  }

  // ---------------------------------------------------------------- termination

  /** Server phase, bytes and chunks it still wants in it, client phase, and the same for the client. */
  datatype Measure = Measure(server: int, wants: int, client: int, left: int)

  ghost predicate Below(m: Measure, n: Measure) {
    || (0 <= n.server && m.server < n.server)
    || (m.server == n.server && 0 <= n.wants && m.wants < n.wants)
    || (m.server == n.server && m.wants == n.wants && 0 <= n.client && m.client < n.client)
    || (m.server == n.server && m.wants == n.wants && m.client == n.client && 0 <= n.left && m.left < n.left)
  }

  /** Bytes from the start of chunk `i` on, and chunks from it on. */
  function CursorLeft(b: nat, len: nat, i: nat): int
    requires b > 0
  {
    len - ChunkStart(b, len, i) + NumChunks(b, len) - i
  }

  /** The server's phase and what it still wants in it. */
  ghost function ServerWork(c: Config, s: State): (int, int)
    requires ValidConfig(c)
  {
    match s.server
    case ReadHeader(_) => if Replied(s) then (0, 0) else (5, |s.command|)
    case Discarding(i, dropped) => (4, CursorLeft(c.bufferSize, s.header.discard, i) - dropped)
    case ReadPath(got) => (3, |s.request.path| - |got|)
    case Opening(_) => (2, 0)
    case Writing(_, i, chunk, _) => (1, CursorLeft(c.bufferSize, |s.request.data|, i) - |chunk|)
    case Gone => (0, 0)
  }

  function ClientWork(c: Config, s: State): (int, int)
    requires ValidConfig(c)
  {
    match s.phase
    case SendPath(sent) => (3, |s.request.path| - sent)
    case SendData(i, sent, _) => (2, CursorLeft(c.bufferSize, |s.request.data|, i) - sent)
    case _ => (1, |s.acks|)
  }

  ghost function Work(c: Config, s: State): Measure
    requires ValidConfig(c)
  {
    var (server, wants) := ServerWork(c, s);
    var (client, left) := ClientWork(c, s);
    Measure(server, wants, client, left)
  }

  /** Every step of a busy state ends the request or makes the remaining work smaller. */
  lemma StepMakesProgress(c: Config, s: State, k: nat, a: Action)
    requires ValidConfig(c) && Inv(c, s, k) && Busy(s) && Enabled(c, s, a)
    ensures var t := Apply(c, s, a);
            t.phase == Top
            || (Busy(t) && Inv(c, t, k) && t.past == s.past && t.request == s.request && Below(Work(c, t), Work(c, s)))
  {
    StepShifts(c, s, k, a);
    hide Work;
    if NextShift(s, a, k) != k { ShiftSetAtTop(c, s, k, a); }
    HeldStep(c, s, k, a);
    hide Inv, Enabled, Apply, NextShift;
    if a.TakeMessage? {
      MessageEndsRequest(c, s, k);
    } else if ServerAction(a) {
      ServerMovesEarly(c, s, k, a);
      ServerKeepsClient(c, s, a);
      ServerMakesProgress(c, s, k, a);
    } else {
      ClientMakesProgress(c, s, k, a);
    }
  }

  lemma MessageEndsRequest(c: Config, s: State, k: nat)
    requires ValidConfig(c) && Inv(c, s, k) && Enabled(c, s, TakeMessage)
    ensures Apply(c, s, TakeMessage).phase == Top
  {
    if s.server.Gone? {
      ReplyRead(s, FORCED_SOCKET_CLOSED);
    } else {
      ReplyLeavesRest(c, s, k);
      if s.phase.Interrupted? { InterruptedIsRejected(c, s, k); }
    }
    hide Inv, Agrees, Quiescent;
  }

  /** A reply that interrupts the sending of a file is a rejection. */
  lemma InterruptedIsRejected(c: Config, s: State, k: nat)
    requires ValidConfig(c) && Inv(c, s, k) && Enabled(c, s, TakeMessage) && !s.server.Gone? && s.phase.Interrupted?
    ensures s.phase.got[1] == ACK_ERROR
  {
    ReplyLeavesRest(c, s, k);
    ChannelCount(c, s, k);
    ChunkStep(c.bufferSize, |s.request.data|, s.phase.i);
    hide Agrees, Quiescent, ChunkStart, ChunkLen, NumChunks, ReplyHasFlag, Aligned;
  }

  /** What the server's counters are compared with. */
  lemma ServerCounters(c: Config, s: State, k: nat)
    requires ValidConfig(c) && Inv(c, s, k) && Busy(s) && !Replied(s)
    ensures !s.server.ReadHeader? ==> s.parsed == s.header
    ensures s.header.dataLen == |s.request.data| && s.header.pathLen == |s.request.path| <= PATH_MAX
    ensures s.server.Discarding? && s.server.i >= NumChunks(c.bufferSize, s.header.discard) ==> s.server.dropped == 0
    ensures s.server.Writing? ==> |s.server.file| == ChunkStart(c.bufferSize, s.header.dataLen, s.server.i)
  {
    hide Aligned, SenderOk, Agrees, ReplyHasFlag, EncodeHeader, HeaderFits;
  }

  lemma CursorMoves(b: nat, len: nat, i: nat)
    requires b > 0 && i < NumChunks(b, len)
    ensures CursorLeft(b, len, i + 1) < CursorLeft(b, len, i) - ChunkLen(b, len, i)
    ensures CursorLeft(b, len, i) > ChunkLen(b, len, i)
  {
    ChunkStep(b, len, i);
    hide ChunkStart, ChunkLen, NumChunks;
  }

  ghost predicate ServerGains(c: Config, s: State, t: State)
    requires ValidConfig(c)
  {
    var m, n := ServerWork(c, t), ServerWork(c, s);
    0 <= n.0 && 0 <= n.1 && (m.0 < n.0 || (m.0 == n.0 && m.1 < n.1))
  }

  lemma HeaderGains(c: Config, s: State, k: nat, a: Action)
    requires ValidConfig(c) && Inv(c, s, k) && Enabled(c, s, a) && (a.PullHeader? || a.TakeHeader?)
    ensures ServerGains(c, s, Apply(c, s, a))
  {
    hide Inv;
    ServerMovesEarly(c, s, k, a);
    if a.TakeHeader? {
      HeaderTaken(c, s, k);
      hide Enabled, Apply;
    }
    hide EncodeHeader, ParseHeader, CursorLeft;
  }

  lemma DiscardGains(c: Config, s: State, k: nat, a: Action)
    requires ValidConfig(c) && Inv(c, s, k) && Enabled(c, s, a) && s.server.Discarding? && ServerAction(a)
    ensures ServerGains(c, s, Apply(c, s, a))
  {
    hide Inv;
    ServerMovesEarly(c, s, k, a);
    ServerCounters(c, s, k);
    hide CursorLeft, ChunkLen, NumChunks, ChunkStart, ParseHeader, EncodeMessage, Sendable;
    CursorNonNegative(c.bufferSize, s.header.discard);
    if a.DiscardDone? {
      assert Apply(c, s, a) == s.(server := BeginPath(s.parsed));
    } else {
      CursorMoves(c.bufferSize, s.header.discard, s.server.i);
      assert a.PullDiscard? || a.ChunkDropped?;
    }
  }

  lemma CursorNonNegative(b: nat, len: nat)
    requires b > 0
    ensures CursorLeft(b, len, NumChunks(b, len)) == 0
  {
    ChunkEnds(b, len);
  }

  lemma PathGains(c: Config, s: State, k: nat, a: Action)
    requires ValidConfig(c) && Inv(c, s, k) && Enabled(c, s, a) && s.server.ReadPath? && ServerAction(a)
    ensures ServerGains(c, s, Apply(c, s, a))
  {
    hide Inv;
    ServerMovesEarly(c, s, k, a);
    ServerCounters(c, s, k);
    hide CursorLeft, EncodeMessage, ParseHeader, Sendable, NumChunks, ChunkLen, ChunkStart;
    assert a.PullPath? || a.PathDone?;
  }

  lemma OpeningGains(c: Config, s: State, k: nat, a: Action)
    requires ValidConfig(c) && Inv(c, s, k) && Enabled(c, s, a) && s.server.Opening? && ServerAction(a)
    ensures ServerGains(c, s, Apply(c, s, a))
  {
    hide Inv;
    ServerMovesEarly(c, s, k, a);
    hide EncodeMessage, ParseHeader, Sendable, CursorLeft, NumChunks, ChunkLen, ChunkStart;
    assert a.Accepted? || a.Rejected? || a.BadPath?;
    if a.Accepted? { assert Apply(c, s, a) == AcceptedStep(s); }
  }

  lemma WritingEnds(c: Config, s: State, a: Action)
    requires ValidConfig(c) && Enabled(c, s, a) && |s.log| == |s.answers| && (a.WriteFails? || a.DataWritten?)
    ensures ServerWork(c, Apply(c, s, a)) == (0, 0)
  {
    hide EncodeMessage, Sendable, CursorLeft, ChunkStart, ChunkLen, NumChunks, EncodeHeader;
  }

  lemma WritingGains(c: Config, s: State, k: nat, a: Action)
    requires ValidConfig(c) && Inv(c, s, k) && Enabled(c, s, a) && s.server.Writing? && ServerAction(a)
    ensures ServerGains(c, s, Apply(c, s, a))
  {
    hide Inv, EncodeMessage, ParseHeader, Sendable, CursorLeft, ChunkStart, ChunkLen, NumChunks, EncodeHeader,
         HeaderWants;
    ServerMovesEarly(c, s, k, a);
    ServerCounters(c, s, k);
    WritingBounded(c, s, k);
    if a.PullData? || a.ChunkWritten? {
      CursorMoves(c.bufferSize, |s.request.data|, s.server.i);
    } else {
      assert a.WriteFails? || a.DataWritten?;
      WritingEnds(c, s, a);
      hide Enabled, Apply;
    }
  }

  lemma WritingBounded(c: Config, s: State, k: nat)
    requires ValidConfig(c) && Inv(c, s, k) && Busy(s) && s.server.Writing?
    ensures CursorLeft(c.bufferSize, |s.request.data|, s.server.i) >= |s.server.chunk|
  {
    var b, len := c.bufferSize, |s.request.data|;
    hide Aligned, SenderOk, ChunkStart, ChunkLen, NumChunks, EncodeHeader, Agrees, CursorLeft;
    if s.server.i < NumChunks(b, len) { CursorMoves(b, len, s.server.i); } else { CursorNonNegative(b, len); }
  }

  lemma ServerMakesProgress(c: Config, s: State, k: nat, a: Action)
    requires ValidConfig(c) && Inv(c, s, k) && Enabled(c, s, a) && ServerAction(a)
    ensures Below(Work(c, Apply(c, s, a)), Work(c, s))
  {
    hide Inv, Apply, NumChunks, ChunkLen, ServerWork, ClientWork, Sendable;
    if a.PullHeader? || a.TakeHeader? { HeaderGains(c, s, k, a); }
    else if s.server.Discarding? { DiscardGains(c, s, k, a); }
    else if s.server.ReadPath? { PathGains(c, s, k, a); }
    else if s.server.Opening? { OpeningGains(c, s, k, a); }
    else {
      assert s.server.Writing?;
      WritingGains(c, s, k, a);
    }
  }

  /** Inside the file the daemon's cursor moves and nothing of the server does. */
  lemma SendingGains(c: Config, s: State, a: Action)
    requires ValidConfig(c) && Enabled(c, s, a) && (a.PushData? || a.ChunkSent?)
    ensures var t := Apply(c, s, a);
            t == s.(phase := t.phase, data := t.data) && t.phase.SendData? && s.phase.SendData?
            && 0 <= ClientWork(c, s).1 && ClientWork(c, t).1 < ClientWork(c, s).1
  {
    hide CursorLeft, ChunkStart, ChunkLen, NumChunks, EncodeHeader;
    CursorMoves(c.bufferSize, |s.request.data|, s.phase.i);
  }

  lemma ClientMakesProgress(c: Config, s: State, k: nat, a: Action)
    requires ValidConfig(c) && Inv(c, s, k) && Busy(s) && Enabled(c, s, a) && !ServerAction(a) && !a.TakeMessage?
    ensures var t := Apply(c, s, a); t.phase == Top || (Busy(t) && t.past == s.past && Below(Work(c, t), Work(c, s)))
  {
    hide Inv, EncodeHeader, EncodeMessage, CursorLeft, ChunkStart, ChunkLen, NumChunks, HeaderFits, HeaderTyped,
         ValidRequest, Overwritten, Harmless, OverwriteFits, GoodMessage, MaySend;
    if a.PushData? || a.ChunkSent? {
      SendingGains(c, s, a);
      hide Enabled, Apply;
    }
  }

  /** One step of either program or of the world around them. */
  ghost predicate Step(c: Config, s: State, t: State)
    requires ValidConfig(c)
  {
    exists a :: Enabled(c, s, a) && t == Apply(c, s, a)
  }

  ghost predicate Blocked(c: Config, s: State)
    requires ValidConfig(c)
  {
    Stuck(c, s) || Starved(c, s)
  }

  /** Whatever the scheduling, however partial the sends and receives, and whatever the server decides, a request
      whose header was sent comes back to the head of the loop or ends in a blocked state. With an exact count it
      comes back on the first connection, on any connection if its file fits the channel, and on any connection
      if the channel holds whole buffers only. */
  lemma {:induction false} EveryRequestFinishes(c: Config, run: nat -> State, i: nat, k: nat) returns (n: nat)
    requires ValidConfig(c) && Inv(c, run(i), k) && Busy(run(i))
    requires forall j: nat :: j >= i && Busy(run(j)) && !Blocked(c, run(j)) ==> Step(c, run(j), run(j + 1))
    ensures n >= i && (run(n).phase == Top || Blocked(c, run(n)))
    ensures forall j :: i <= j < n ==> Busy(run(j)) && !Blocked(c, run(j))
    ensures k == 0 && (run(i).past == [] || |run(i).request.data| <= c.capacity || c.capacity % c.bufferSize == 0) ==>
              run(n).phase == Top
    decreases Work(c, run(i)).server, Work(c, run(i)).wants, Work(c, run(i)).client, Work(c, run(i)).left
  {
    hide Inv, Enabled, Apply, Work, Busy, Blocked;
    if Blocked(c, run(i)) {
      BlockedSize(c, run(i), k);
      return i;
    }
    assert Step(c, run(i), run(i + 1));
    var a :| Enabled(c, run(i), a) && run(i + 1) == Apply(c, run(i), a);
    StepMakesProgress(c, run(i), k, a);
    n := i + 1;
    if run(i + 1).phase != Top {
      n := EveryRequestFinishes(c, run, i + 1, k);
    }
  }

  lemma BlockedSize(c: Config, s: State, k: nat)
    requires ValidConfig(c) && Inv(c, s, k) && Blocked(c, s)
    ensures k == 0 ==> s.past != [] && |s.request.data| > c.capacity && c.capacity % c.bufferSize > 0
  {
    if Stuck(c, s) { StuckSize(c, s, k); } else { StarvedIsShifted(c, s, k); }
  }
}

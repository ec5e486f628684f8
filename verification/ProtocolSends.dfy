/** The sending of a file as the daemon's method describes it is a run of the daemon's steps. */
module ProtocolSends {
  import opened Bytes
  import opened Headers
  import opened Messages
  import opened Chunks
  import opened Protocol
  import opened ProtocolInvariant
  import opened ProtocolSteps
  import opened ProtocolTheorems
  import opened ProtocolPaths
  import Transfer

  /** Steps of send_data and of the reading of the answer. */
  predicate Sending(a: Action) {
    a.PushData? || a.ChunkSent? || a.DataSent? || a.NoticeMessage? || a.PullMessage? || a.TakeMessage?
  }

  /** One chunk pushed in one call. */
  lemma ChunkPushed(c: Config, s: State)
    requires ValidConfig(c) && s.phase.SendData? && s.phase.sent == 0
    requires s.phase.i < NumChunks(c.bufferSize, |s.request.data|) && Writable(c, s)
    requires |s.data| + ChunkLen(c.bufferSize, |s.request.data|, s.phase.i) <= c.capacity
    ensures var b, len, i := c.bufferSize, |s.request.data|, s.phase.i;
            var at, n := ChunkStart(b, len, i), ChunkLen(b, len, i);
            && at + n == ChunkStart(b, len, i + 1) <= len
            && Leads(c, Sending, s, s.(phase := SendData(i + 1, 0, s.phase.total + n),
                                       data := s.data + s.request.data[at..at + n]))
  {
    hide Leads, ChunkStart, ChunkLen, NumChunks, EncodeHeader, ParseHeader, HeaderWants, MessageWants;
    var b, len, i := c.bufferSize, |s.request.data|, s.phase.i;
    ChunkStep(b, len, i);
    var at, n := ChunkStart(b, len, i), ChunkLen(b, len, i);
    Stays(c, Sending, s);
    var s1 := s.(phase := SendData(i, n, s.phase.total), data := s.data + s.request.data[at..at + n]);
    Then(c, Sending, s, s, PushData(n), s1);
    Then(c, Sending, s, s1, ChunkSent, s1.(phase := SendData(i + 1, 0, s.phase.total + n)));
  }

  /** At the head of send_data's loop, with room for all chunks before the j-th and for select to see after them. */
  predicate CanPush(c: Config, s: State, j: nat)
    requires ValidConfig(c)
  {
    var b, len := c.bufferSize, |s.request.data|;
    && s.phase.SendData? && s.phase.sent == 0 && s.phase.i <= j <= NumChunks(b, len)
    && s.phase.total == ChunkStart(b, len, s.phase.i) <= ChunkStart(b, len, j) <= len
    && |s.data| + ChunkStart(b, len, j) - s.phase.total + c.lowWater <= c.capacity
  }

  function PushedBefore(c: Config, s: State, j: nat): State
    requires ValidConfig(c) && CanPush(c, s, j)
  {
    var to := ChunkStart(c.bufferSize, |s.request.data|, j);
    s.(phase := SendData(j, 0, to), data := s.data + s.request.data[s.phase.total..to])
  }

  lemma PushOn(c: Config, s: State, j: nat)
    requires ValidConfig(c) && CanPush(c, s, j) && s.phase.i < j
    ensures CanPush(c, s, s.phase.i + 1) && CanPush(c, PushedBefore(c, s, s.phase.i + 1), j)
    ensures PushedBefore(c, PushedBefore(c, s, s.phase.i + 1), j) == PushedBefore(c, s, j)
  {
    var b, len, i := c.bufferSize, |s.request.data|, s.phase.i;
    ChunkStep(b, len, i);
    ChunksOrdered(b, len, i + 1, j);
    hide ChunkStart, ChunkLen, NumChunks;
    var x, y, z := s.phase.total, ChunkStart(b, len, i + 1), ChunkStart(b, len, j);
    assert s.data + s.request.data[x..y] + s.request.data[y..z] == s.data + s.request.data[x..z];
  }

  lemma {:induction false} ChunksOrdered(b: nat, len: nat, i: nat, j: nat)
    requires b > 0 && i <= j <= NumChunks(b, len)
    ensures ChunkStart(b, len, i) <= ChunkStart(b, len, j) <= len
    decreases j - i
  {
    hide ChunkStart, ChunkLen, NumChunks;
    ChunkEnds(b, len);
    if i < j {
      ChunkStep(b, len, i);
      ChunksOrdered(b, len, i + 1, j);
    } else if j > 0 {
      ChunkStep(b, len, j - 1);
    }
  }

  /** The loop of send_data up to chunk `j`. */
  lemma {:induction false} ChunksPushed(c: Config, s: State, j: nat)
    requires ValidConfig(c) && CanPush(c, s, j)
    ensures Leads(c, Sending, s, PushedBefore(c, s, j))
    decreases j - if s.phase.SendData? then s.phase.i else 0
  {
    hide Leads, ChunkStart, ChunkLen, NumChunks, Enabled, Apply;
    var i := s.phase.i;
    if i == j {
      Stays(c, Sending, s);
      assert s.request.data[s.phase.total..s.phase.total] == [] && s.data + [] == s.data;
    } else {
      PushOn(c, s, j);
      ChunkStep(c.bufferSize, |s.request.data|, i);
      ChunkPushed(c, s);
      ChunksPushed(c, PushedBefore(c, s, i + 1), j);
      Onwards(c, Sending, s, PushedBefore(c, s, i + 1), PushedBefore(c, s, j));
    }
  }

  /** The start of a file whose loop has not begun. */
  predicate AtFile(s: State) {
    s.phase == SendData(0, 0, 0) && s.request.kind == File && s.discard == 0
  }

  /** Whole chunks and then a part of the next one, filling the channel up. */
  lemma PartPushed(c: Config, s: State, j: nat, n: nat)
    requires ValidConfig(c) && AtFile(s) && j < NumChunks(c.bufferSize, |s.request.data|)
    requires 0 < n <= ChunkLen(c.bufferSize, |s.request.data|, j)
    requires |s.data| + ChunkStart(c.bufferSize, |s.request.data|, j) + c.lowWater <= c.capacity
    requires |s.data| + ChunkStart(c.bufferSize, |s.request.data|, j) + n <= c.capacity
    ensures var at := ChunkStart(c.bufferSize, |s.request.data|, j);
            at + n <= |s.request.data|
            && Leads(c, Sending, s, s.(phase := SendData(j, n, at), data := s.data + s.request.data[..at + n]))
  {
    hide Leads, ChunkStart, ChunkLen, NumChunks, EncodeHeader, ParseHeader, HeaderWants, MessageWants;
    var b, len := c.bufferSize, |s.request.data|;
    var at := ChunkStart(b, len, j);
    ChunkEnds(b, len);
    ChunksOrdered(b, len, 0, j);
    ChunkStep(b, len, j);
    ChunksPushed(c, s, j);
    var t := s.(phase := SendData(j, 0, at), data := s.data + s.request.data[0..at]);
    assert s.request.data[0..at] + s.request.data[at..at + n] == s.request.data[..at + n];
    assert s.data + s.request.data[0..at] + s.request.data[at..at + n] == s.data + s.request.data[..at + n];
    Then(c, Sending, s, t, PushData(n), s.(phase := SendData(j, n, at), data := s.data + s.request.data[..at + n]));
  }

  /** The whole file is sent. */
  lemma FilePushed(c: Config, s: State)
    requires ValidConfig(c) && AtFile(s) && |s.data| + |s.request.data| + c.lowWater <= c.capacity
    ensures Leads(c, Sending, s, s.(phase := AwaitAck([]), data := s.data + s.request.data))
  {
    hide Leads, ChunkStart, ChunkLen, NumChunks, EncodeHeader, ParseHeader, HeaderWants, MessageWants;
    var len, n := |s.request.data|, NumChunks(c.bufferSize, |s.request.data|);
    ChunkEnds(c.bufferSize, len);
    ChunksPushed(c, s, n);
    assert s.request.data[0..len] == s.request.data;
    var t := s.(phase := SendData(n, 0, len), data := s.data + s.request.data);
    Then(c, Sending, s, t, DataSent, t.(phase := AwaitAck([])));
  }

  /** A complete message is read by the two receives of receive_message. */
  lemma MessageTaken(c: Config, s: State, m: Message)
    requires ValidConfig(c) && (s.phase.Interrupted? || s.phase.AwaitAck?) && s.phase.got == []
    requires Sendable(m) && s.acks == EncodeMessage(m)
    ensures Leads(c, Sending, s, s.(phase := s.phase.(got := EncodeMessage(m)), acks := []))
  {
    hide Leads;
    var e := EncodeMessage(m);
    assert e[0] == |e|;
    hide EncodeHeader, ParseHeader, HeaderWants, ChunkStart, ChunkLen, NumChunks, EncodeMessage;
    Stays(c, Sending, s);
    var s1 := s.(phase := s.phase.(got := e[..2]), acks := e[2..]);
    assert [] + e[..2] == e[..2];
    Then(c, Sending, s, s, PullMessage(2), s1);
    assert e[..2] + e[2..] == e;
    if |e| > 2 {
      assert e[2..][..|e| - 2] == e[2..] && e[2..][|e| - 2..] == [];
      Then(c, Sending, s, s1, PullMessage(|e| - 2), s.(phase := s.phase.(got := e), acks := []));
    } else {
      assert e[..2] == e && e[2..] == [];
    }
  }

  /** The refusal is noticed where the channel is full, and its answer leaves the number of bytes pushed. */
  lemma RefusalTaken(c: Config, s: State, t: State, text: seq<Byte>)
    requires ValidConfig(c) && Leads(c, Sending, s, t) && MidChunk(c, t) && !Writable(c, t) && t.past == []
    requires Sendable(Message(ACK_ERROR, text)) && t.acks == EncodeMessage(Message(ACK_ERROR, text))
    ensures Leads(c, Sending, s, t.(phase := Top, acks := [], discard := t.phase.total + t.phase.sent,
                                    answers := t.answers + [AnswerNow(t, ACK_ERROR)]))
  {
    hide Leads, ChunkStart, ChunkLen, NumChunks, EncodeHeader, ParseHeader, HeaderWants;
    var m := Message(ACK_ERROR, text);
    var e := EncodeMessage(m);
    assert e[0] == |e| && e[1] == ACK_ERROR;
    var t1 := t.(phase := Interrupted(t.phase.i, t.phase.sent, t.phase.total, []));
    Then(c, Sending, s, t, NoticeMessage, t1);
    MessageTaken(c, t1, m);
    var t2 := t1.(phase := t1.phase.(got := e), acks := []);
    Onwards(c, Sending, s, t1, t2);
    hide EncodeMessage;
    Then(c, Sending, s, t2, TakeMessage, Apply(c, t2, TakeMessage));
  }

  /** A forced close is noticed in the same place, and the daemon reconnects. */
  lemma ForcedTaken(c: Config, s: State, t: State, text: seq<Byte>)
    requires ValidConfig(c) && Leads(c, Sending, s, t) && MidChunk(c, t) && !Writable(c, t) && t.past == []
    requires Sendable(Message(FORCED_SOCKET_CLOSED, text)) && t.discard == 0
    requires t.acks == EncodeMessage(Message(FORCED_SOCKET_CLOSED, text))
    ensures Leads(c, Sending, s, Restart(t, false))
  {
    hide Leads, ChunkStart, ChunkLen, NumChunks, EncodeHeader, ParseHeader, HeaderWants;
    var m := Message(FORCED_SOCKET_CLOSED, text);
    var e := EncodeMessage(m);
    assert e[0] == |e| && e[1] == FORCED_SOCKET_CLOSED;
    var t1 := t.(phase := Interrupted(t.phase.i, t.phase.sent, t.phase.total, []));
    Then(c, Sending, s, t, NoticeMessage, t1);
    MessageTaken(c, t1, m);
    var t2 := t1.(phase := t1.phase.(got := e), acks := []);
    Onwards(c, Sending, s, t1, t2);
    hide EncodeMessage;
    Then(c, Sending, s, t2, TakeMessage, Apply(c, t2, TakeMessage));
  }

  /** The only message that waits decides how the transfer ends. */
  lemma HeardIsWaiting(m: Message, t0: Transfer.Talk, result: Transfer.SendResult, heard: seq<Transfer.Heard>,
                       relayed: bool)
    requires |t0.message| == MESSAGE_BUFFERSIZE && Sendable(m) && t0.server == EncodeMessage(m)
    requires Transfer.Ends(result, t0, heard, |heard|, 0, relayed) && Transfer.NoneIgnored(result, heard)
    requires heard != [] && heard[0].server
    ensures |heard| == 1 && heard[0].flag == m.flag
    ensures m.flag == ACK_ERROR || m.flag == FORCED_SOCKET_CLOSED
    ensures result == if m.flag == ACK_ERROR then Transfer.BadAck else Transfer.Forced(relayed)
  {
    Transfer.FirstSpoken(t0, heard);
    assert EncodeMessage(m) + [] == EncodeMessage(m);
    LoadEncodedMessage(m, []);
    hide LoadMessage, EncodeMessage, Transfer.After, Transfer.Spoken, Transfer.Benign;
  }

  /** The channel stops the daemon in mid-file behind `n` bytes of it. */
  predicate FullAfter(c: Config, s: State, n: nat)
    requires ValidConfig(c)
  {
    && n < |s.request.data| && n % c.bufferSize > 0
    && |s.data| + n <= c.capacity < |s.data| + n + c.lowWater
    && |s.data| + n - n % c.bufferSize + c.lowWater <= c.capacity
  }

  /** What SendData's contract says of a transfer in which no message was ignored and no send failed, on an initial
      connection whose channel takes the file or stops the daemon where the contract's `wire` ends, is a run of the
      daemon's steps. The answer that waits, if any was heard, decides between a refusal that leaves the length of
      `wire` in the discard field and a forced reconnect. */
  lemma SendIsRun(c: Config, s: State, m: Message, t0: Transfer.Talk, result: Transfer.SendResult,
                  heard: seq<Transfer.Heard>, relayed: bool, wire: seq<Byte>, discard: nat)
    requires ValidConfig(c) && AtFile(s) && s.past == []
    requires |t0.message| == MESSAGE_BUFFERSIZE && t0.server == s.acks
    requires Transfer.Ends(result, t0, heard, |heard|, 0, relayed) && Transfer.NoneIgnored(result, heard)
    requires Transfer.SendEnds(s.request.data, result, wire, discard)
    requires heard == [] ==> |s.data| + |s.request.data| + c.lowWater <= c.capacity
    requires heard != [] ==>
               heard[0].server && Sendable(m) && s.acks == EncodeMessage(m) && FullAfter(c, s, |wire|)
    ensures heard == [] ==>
              result == Transfer.Sent
              && Leads(c, Sending, s, s.(phase := AwaitAck([]), data := s.data + s.request.data))
    ensures heard != [] ==> m.flag == ACK_ERROR || m.flag == FORCED_SOCKET_CLOSED
    ensures heard != [] && m.flag == ACK_ERROR ==>
              result == Transfer.BadAck && discard == |wire|
              && Leads(c, Sending, s, s.(phase := Top, acks := [], discard := |wire|, data := s.data + wire,
                                         answers := s.answers + [AnswerNow(s, ACK_ERROR)]))
    ensures heard != [] && m.flag == FORCED_SOCKET_CLOSED ==>
              result == Transfer.Forced(relayed) && discard == 0 && Leads(c, Sending, s, Restart(s, false))
  {
    hide Leads, EncodeMessage, Enabled, Apply, Transfer.Spoken, Transfer.After;
    if heard == [] {
      FilePushed(c, s);
    } else {
      HeardIsWaiting(m, t0, result, heard, relayed);
      hide Transfer.Ends;
      var j, n := |wire| / c.bufferSize, |wire| % c.bufferSize;
      PartOf(c.bufferSize, |s.request.data|, |wire|);
      PartPushed(c, s, j, n);
      assert s.request.data[..|wire|] == wire;
      var t := s.(phase := SendData(j, n, |wire| - n), data := s.data + wire);
      if m.flag == ACK_ERROR { RefusalTaken(c, s, t, m.text); } else { ForcedTaken(c, s, t, m.text); }
    }
  }

  /** A position that is not a chunk's start lies inside the chunk that the division names. */
  lemma PartOf(b: nat, len: nat, m: nat)
    requires b > 0 && m < len && m % b > 0
    ensures m / b < NumChunks(b, len) && ChunkStart(b, len, m / b) == m - m % b
    ensures m % b < ChunkLen(b, len, m / b)
  {
    DivMod(b, m);
    DivMod(b, len);
    var p, q := m / b, len / b;
    assert (q + 1) * b == q * b + b;
    if p > q { MulMono(q + 1, p, b); }
  }
}

/** A round of the server thread as its method describes it is a run of the server's steps. */
module ProtocolRounds {
  import opened Bytes
  import opened Headers
  import opened Messages
  import opened Chunks
  import opened Protocol
  import opened ProtocolInvariant
  import opened ProtocolSteps
  import opened ProtocolTheorems
  import opened ProtocolPaths
  import Server

  /** Steps of the server that read a request and answer nothing. */
  predicate Reading(a: Action) {
    a.PullHeader? || a.TakeHeader? || a.PullDiscard? || a.ChunkDropped? || a.DiscardDone? || a.PullPath? || a.PathDone?
  }

  /** The header read in its two parts. */
  lemma HeaderReceived(c: Config, s: State, buffer: seq<Byte>)
    requires ValidConfig(c) && s.server == ReadHeader([]) && |buffer| == MAX_HEADER_LEN
    requires LoadHeader(s.command, buffer).Loaded?
    ensures var l := LoadHeader(s.command, buffer);
            var next := if l.value.discard > 0 then Discarding(0, 0) else BeginPath(l.value);
            Leads(c, Reading, s, s.(command := l.rest, parsed := l.value, server := next))
  {
    hide Leads, ParseHeader;
    var l, len := LoadHeader(s.command, buffer), s.command[0];
    LoadedHeaderBytes(s.command, buffer);
    ParseWithoutStale(s.command[..len], buffer[len..]);
    hide LoadHeader, EncodeHeader, NumChunks, ChunkLen, MessageWants;
    var s1 := s.(server := ReadHeader(s.command[..10]), command := s.command[10..]);
    var s2 := s.(server := ReadHeader(s.command[..len]), command := l.rest);
    assert [] + s.command[..10] == s.command[..10];
    Stays(c, Reading, s);
    Then(c, Reading, s, s, PullHeader(10), s1);
    if len > 10 {
      assert s.command[..10] + s.command[10..][..len - 10] == s.command[..len];
      assert s.command[10..][len - 10..] == s.command[len..];
      Then(c, Reading, s, s1, PullHeader(len - 10), s2);
    }
    HeaderParsed(c, s, s2, l.value);
  }

  lemma HeaderParsed(c: Config, s: State, t: State, h: Header)
    requires ValidConfig(c) && Leads(c, Reading, s, t) && t.server.ReadHeader?
    requires MIN_DEST_FILE_ATTRS_LEN <= |t.server.got| && t.server.got[0] == |t.server.got|
    requires ParseHeader(t.server.got, |t.server.got|) == Some(h)
    ensures Leads(c, Reading, s,
                  t.(parsed := h, server := if h.discard > 0 then Discarding(0, 0) else BeginPath(h)))
  {
    hide Leads, ParseHeader, EncodeHeader, NumChunks, ChunkLen, MessageWants;
    Then(c, Reading, s, t, TakeHeader, Apply(c, t, TakeHeader));
  }

  /** One chunk dropped. */
  lemma ChunkGone(c: Config, s: State)
    requires ValidConfig(c) && s.server.Discarding? && s.server.dropped == 0
    requires s.server.i < NumChunks(c.bufferSize, s.parsed.discard)
    requires 0 < ChunkLen(c.bufferSize, s.parsed.discard, s.server.i) <= |s.data|
    ensures Leads(c, Reading, s,
                  s.(server := Discarding(s.server.i + 1, 0),
                     data := s.data[ChunkLen(c.bufferSize, s.parsed.discard, s.server.i)..]))
  {
    hide Leads, ChunkStart, ChunkLen, NumChunks, EncodeHeader, ParseHeader;
    var i, n := s.server.i, ChunkLen(c.bufferSize, s.parsed.discard, s.server.i);
    Stays(c, Reading, s);
    var s1 := s.(server := Discarding(i, n), data := s.data[n..]);
    Then(c, Reading, s, s, PullDiscard(n), s1);
    Then(c, Reading, s, s1, ChunkDropped, s1.(server := Discarding(i + 1, 0)));
  }

  /** The loop of discard_data from chunk `i` on. */
  lemma {:induction false} JunkDropped(c: Config, s: State, i: nat)
    requires ValidConfig(c) && s.server == Discarding(i, 0) && i <= NumChunks(c.bufferSize, s.parsed.discard)
    requires ChunkStart(c.bufferSize, s.parsed.discard, i) <= s.parsed.discard
    requires s.parsed.discard - ChunkStart(c.bufferSize, s.parsed.discard, i) <= |s.data|
    ensures Leads(c, Reading, s,
                  s.(server := Discarding(NumChunks(c.bufferSize, s.parsed.discard), 0),
                     data := s.data[s.parsed.discard - ChunkStart(c.bufferSize, s.parsed.discard, i)..]))
    decreases NumChunks(c.bufferSize, s.parsed.discard) - i
  {
    hide Leads, ChunkStart, ChunkLen, NumChunks, Enabled, Apply;
    var d := s.parsed.discard;
    var n, last := ChunkLen(c.bufferSize, d, i), NumChunks(c.bufferSize, d);
    ChunkEnds(c.bufferSize, d);
    if i == last {
      Stays(c, Reading, s);
      assert s.data[0..] == s.data;
    } else {
      ChunkStep(c.bufferSize, d, i);
      var s2 := s.(server := Discarding(i + 1, 0), data := s.data[n..]);
      ChunkGone(c, s);
      var m := d - ChunkStart(c.bufferSize, d, i + 1);
      JunkDropped(c, s2, i + 1);
      assert s.data[n..][m..] == s.data[n + m..];
      Onwards(c, Reading, s, s2, s.(server := Discarding(last, 0), data := s.data[n + m..]));
    }
  }

  lemma JunkGone(c: Config, s: State)
    requires ValidConfig(c) && s.server == Discarding(0, 0) && s.parsed.discard <= |s.data|
    ensures Leads(c, Reading, s, s.(server := BeginPath(s.parsed), data := s.data[s.parsed.discard..]))
  {
    hide Leads, ChunkStart, ChunkLen, NumChunks, EncodeHeader, ParseHeader;
    ChunkEnds(c.bufferSize, s.parsed.discard);
    JunkDropped(c, s, 0);
    var s1 := s.(server := Discarding(NumChunks(c.bufferSize, s.parsed.discard), 0),
                 data := s.data[s.parsed.discard..]);
    Then(c, Reading, s, s1, DiscardDone, s1.(server := BeginPath(s.parsed)));
  }

  lemma PathRead(c: Config, s: State)
    requires ValidConfig(c) && s.server == ReadPath([]) && s.parsed.pathLen <= |s.data|
    ensures var n := s.parsed.pathLen;
            Leads(c, Reading, s, s.(server := Opening(s.data[..n]), data := s.data[n..]))
  {
    hide Leads;
    var n := s.parsed.pathLen;
    Stays(c, Reading, s);
    var s1 := s.(server := ReadPath(s.data[..n]), data := s.data[n..]);
    if n > 0 {
      assert [] + s.data[..n] == s.data[..n];
      Then(c, Reading, s, s, PullPath(n), s1);
    } else {
      assert s1 == s;
    }
    Then(c, Reading, s, s1, PathDone, s1.(server := Opening(s.data[..n])));
  }

  /** From a waiting server to the point where it has the path in hand. */
  lemma RequestRead(c: Config, s: State, buffer: seq<Byte>)
    requires ValidConfig(c) && s.server == ReadHeader([]) && |buffer| == MAX_HEADER_LEN
    requires LoadHeader(s.command, buffer).Loaded?
    requires var h := LoadHeader(s.command, buffer).value;
             h.pathLen <= PATH_MAX && h.discard + h.pathLen <= |s.data|
    ensures var l := LoadHeader(s.command, buffer);
            var h := l.value;
            Leads(c, Reading, s, s.(command := l.rest, parsed := h,
                                         server := Opening(s.data[h.discard..h.discard + h.pathLen]),
                                         data := s.data[h.discard + h.pathLen..]))
  {
    hide Leads, LoadHeader, ChunkStart, ChunkLen, NumChunks;
    var l := LoadHeader(s.command, buffer);
    var h := l.value;
    var d, n := h.discard, h.pathLen;
    HeaderReceived(c, s, buffer);
    var s0 := s.(command := l.rest, parsed := h, server := if d > 0 then Discarding(0, 0) else BeginPath(h));
    var s1 := s0.(server := ReadPath([]), data := s.data[d..]);
    if d > 0 {
      JunkGone(c, s0);
      Onwards(c, Reading, s, s0, s1);
    } else {
      assert s.data[0..] == s.data;
    }
    PathRead(c, s1);
    assert s.data[d..][..n] == s.data[d..d + n] && s.data[d..][n..] == s.data[d + n..];
    Onwards(c, Reading, s, s1, s1.(server := Opening(s.data[d..d + n]), data := s.data[d + n..]));
  }

  /** One chunk received and written. */
  lemma ChunkTaken(c: Config, s: State)
    requires ValidConfig(c) && s.server.Writing? && s.server.chunk == []
    requires s.server.i < NumChunks(c.bufferSize, s.parsed.dataLen)
    requires 0 < ChunkLen(c.bufferSize, s.parsed.dataLen, s.server.i) <= |s.data|
    ensures var i, n := s.server.i, ChunkLen(c.bufferSize, s.parsed.dataLen, s.server.i);
            Leads(c, ServerAction, s, s.(server := Writing(s.server.path, i + 1, [], s.server.file + s.data[..n]),
                                         data := s.data[n..]))
  {
    hide Leads, ChunkStart, ChunkLen, NumChunks, EncodeHeader, ParseHeader, EncodeMessage, Sendable;
    var i, n, file := s.server.i, ChunkLen(c.bufferSize, s.parsed.dataLen, s.server.i), s.server.file;
    Stays(c, ServerAction, s);
    assert [] + s.data[..n] == s.data[..n];
    var s1 := s.(server := Writing(s.server.path, i, s.data[..n], file), data := s.data[n..]);
    Then(c, ServerAction, s, s, PullData(n), s1);
    Then(c, ServerAction, s, s1, ChunkWritten, s1.(server := Writing(s.server.path, i + 1, [], file + s.data[..n])));
  }

  lemma {:induction false} ChunkOrder(b: nat, len: nat, i: nat, j: nat)
    requires b > 0 && i <= j <= NumChunks(b, len)
    ensures ChunkStart(b, len, i) <= ChunkStart(b, len, j)
    decreases j - i
  {
    hide ChunkStart, ChunkLen, NumChunks;
    if i < j {
      ChunkStep(b, len, i);
      ChunkOrder(b, len, i + 1, j);
    }
  }

  /** At the head of write_data's loop, with the bytes of all chunks before the j-th on the channel. */
  predicate CanStore(c: Config, s: State, j: nat)
    requires ValidConfig(c)
  {
    var b, len := c.bufferSize, s.parsed.dataLen;
    && s.server.Writing? && s.server.chunk == [] && s.server.i <= j <= NumChunks(b, len)
    && ChunkStart(b, len, s.server.i) <= ChunkStart(b, len, j) <= ChunkStart(b, len, s.server.i) + |s.data|
  }

  function StoredBefore(c: Config, s: State, j: nat): State
    requires ValidConfig(c) && CanStore(c, s, j)
  {
    var n := ChunkStart(c.bufferSize, s.parsed.dataLen, j) - ChunkStart(c.bufferSize, s.parsed.dataLen, s.server.i);
    s.(server := Writing(s.server.path, j, [], s.server.file + s.data[..n]), data := s.data[n..])
  }

  lemma SliceAgain(file: seq<Byte>, data: seq<Byte>, n: nat, m: nat)
    requires n <= m <= |data|
    ensures file + data[..n] + data[n..][..m - n] == file + data[..m] && data[n..][m - n..] == data[m..]
  {
  }

  lemma CanStoreMore(c: Config, s: State, i: nat, j: nat)
    requires ValidConfig(c) && CanStore(c, s, j) && s.server.i <= i <= j
    ensures CanStore(c, s, i) && CanStore(c, StoredBefore(c, s, i), j)
  {
    ChunkOrder(c.bufferSize, s.parsed.dataLen, s.server.i, i);
    ChunkOrder(c.bufferSize, s.parsed.dataLen, i, j);
    hide ChunkStart, NumChunks;
  }

  lemma StoredAgain(c: Config, s: State, i: nat, j: nat)
    requires ValidConfig(c) && CanStore(c, s, j) && s.server.i <= i <= j
    ensures CanStore(c, s, i) && CanStore(c, StoredBefore(c, s, i), j)
    ensures StoredBefore(c, StoredBefore(c, s, i), j) == StoredBefore(c, s, j)
  {
    CanStoreMore(c, s, i, j);
    hide ChunkStart, NumChunks, CanStore;
    var from := ChunkStart(c.bufferSize, s.parsed.dataLen, s.server.i);
    var n := ChunkStart(c.bufferSize, s.parsed.dataLen, i) - from;
    var m := ChunkStart(c.bufferSize, s.parsed.dataLen, j) - from;
    StoreBounds(c, s, i, j);
    SliceAgain(s.server.file, s.data, n, m);
  }

  lemma StoreBounds(c: Config, s: State, i: nat, j: nat)
    requires ValidConfig(c) && CanStore(c, s, j) && CanStore(c, s, i) && CanStore(c, StoredBefore(c, s, i), j)
    ensures var len, b := s.parsed.dataLen, c.bufferSize;
            ChunkStart(b, len, s.server.i) <= ChunkStart(b, len, i) <= ChunkStart(b, len, j)
            <= ChunkStart(b, len, s.server.i) + |s.data|
  {
    hide ChunkStart, NumChunks;
  }

  /** The loop of write_data up to chunk `j`. */
  lemma {:induction false} ChunksStored(c: Config, s: State, j: nat)
    requires ValidConfig(c) && CanStore(c, s, j)
    ensures Leads(c, ServerAction, s, StoredBefore(c, s, j))
    decreases j - s.server.i
  {
    hide Leads, ChunkStart, ChunkLen, NumChunks, Enabled, Apply;
    var i := s.server.i;
    if i == j {
      Stays(c, ServerAction, s);
      assert s.server.file + s.data[..0] == s.server.file && s.data[0..] == s.data;
    } else {
      ChunkStep(c.bufferSize, s.parsed.dataLen, i);
      StoredAgain(c, s, i + 1, j);
      ChunkTaken(c, s);
      ChunksStored(c, StoredBefore(c, s, i + 1), j);
      Onwards(c, ServerAction, s, StoredBefore(c, s, i + 1), StoredBefore(c, s, j));
    }
  }

  /** What the thread has recorded and answered after a round, and whether it goes on. */
  function AfterRound(s: State, handling: Server.Handling, h: Header, command: seq<Byte>, data: seq<Byte>,
                      reply: Message): State
    requires !handling.Left? && Sendable(reply)
  {
    var t := s.(parsed := h, command := command, data := data, acks := s.acks + EncodeMessage(reply));
    match handling
    case Saved(path, content) => t.(server := ReadHeader([]), log := s.log + [Outcome(h.command, path, content, true)])
    case Refused(path) => t.(server := ReadHeader([]), log := s.log + [Outcome(h.command, path, [], false)])
    case _ => t.(server := Gone)
  }

  /** From the path in hand to the answer. */
  lemma AnswerGiven(c: Config, s: State, handling: Server.Handling, failed: nat, data: seq<Byte>, reply: Message)
    requires ValidConfig(c) && s.server.Opening? && !handling.Left? && handling.path == s.server.path
    requires Sendable(reply) && Server.Answers(c.bufferSize, handling, failed, s.parsed, s.data, data, reply)
    ensures Leads(c, ServerAction, s, AfterRound(s, handling, s.parsed, s.command, data, reply))
  {
    hide Leads, EncodeMessage, ChunkStart, ChunkLen, NumChunks;
    Stays(c, ServerAction, s);
    var t := AfterRound(s, handling, s.parsed, s.command, data, reply);
    if handling.Refused? {
      Then(c, ServerAction, s, s, Rejected(reply.text), t);
    } else if handling.BadName? {
      Then(c, ServerAction, s, s, BadPath(reply.text), t);
    } else if s.parsed.command == MK_DIRECTORY {
      assert handling.content == [];
      assert s.data == [] + data == data;
      Then(c, ServerAction, s, s, Accepted, t);
    } else {
      FileHandled(c, s, handling, failed, data, reply);
    }
  }

  lemma FileHandled(c: Config, s: State, handling: Server.Handling, failed: nat, data: seq<Byte>, reply: Message)
    requires ValidConfig(c) && s.server.Opening? && (handling.Saved? || handling.DiskFull?)
    requires handling.path == s.server.path && s.parsed.command == MK_FILE
    requires Sendable(reply) && Server.Answers(c.bufferSize, handling, failed, s.parsed, s.data, data, reply)
    ensures Leads(c, ServerAction, s, AfterRound(s, handling, s.parsed, s.command, data, reply))
  {
    hide Leads, EncodeMessage, ChunkStart, ChunkLen, NumChunks, EncodeHeader, ParseHeader;
    var len, path := s.parsed.dataLen, s.server.path;
    Stays(c, ServerAction, s);
    var s1 := s.(server := Writing(path, 0, [], []));
    Then(c, ServerAction, s, s, Accepted, s1);
    hide Enabled, Apply;
    ChunkEnds(c.bufferSize, len);
    if handling.Saved? {
      ChunksStored(c, s1, NumChunks(c.bufferSize, len));
      assert s.data[..len] == handling.content && s.data[len..] == data && [] + handling.content == handling.content;
      var s2 := s1.(server := Writing(path, NumChunks(c.bufferSize, len), [], handling.content), data := data);
      Onwards(c, ServerAction, s, s1, s2);
      FileAcknowledged(c, s, s2);
    } else {
      ChunkStep(c.bufferSize, len, failed);
      ChunkOrder(c.bufferSize, len, 0, failed);
      var n := ChunkStart(c.bufferSize, len, failed);
      ChunksStored(c, s1, failed);
      var s2 := s1.(server := Writing(path, failed, [], [] + s.data[..n]), data := s.data[n..]);
      Onwards(c, ServerAction, s, s1, s2);
      DiskFails(c, s, s2, reply);
      assert s.data[n..][ChunkLen(c.bufferSize, len, failed)..] == data;
    }
  }

  lemma FileAcknowledged(c: Config, s: State, t: State)
    requires ValidConfig(c) && Leads(c, ServerAction, s, t) && t.server.Writing?
    requires t.server.i == NumChunks(c.bufferSize, t.parsed.dataLen)
    ensures Leads(c, ServerAction, s,
                  t.(server := ReadHeader([]), log := t.log + [Outcome(MK_FILE, t.server.path, t.server.file, true)],
                     acks := t.acks + EncodeMessage(Message(ACK_OK, []))))
  {
    hide Leads, EncodeMessage, NumChunks;
    Then(c, ServerAction, s, t, DataWritten, Apply(c, t, DataWritten));
  }

  lemma DiskFails(c: Config, s: State, t: State, reply: Message)
    requires ValidConfig(c) && Leads(c, ServerAction, s, t) && t.server.Writing? && t.server.chunk == []
    requires t.server.i < NumChunks(c.bufferSize, t.parsed.dataLen)
    requires 0 < ChunkLen(c.bufferSize, t.parsed.dataLen, t.server.i) <= |t.data|
    requires Sendable(reply) && reply.flag == FORCED_SOCKET_CLOSED
    ensures Leads(c, ServerAction, s,
                  t.(server := Gone, data := t.data[ChunkLen(c.bufferSize, t.parsed.dataLen, t.server.i)..],
                     acks := t.acks + EncodeMessage(reply)))
  {
    hide Leads, EncodeMessage, NumChunks, ChunkLen, ChunkStart;
    var n := ChunkLen(c.bufferSize, t.parsed.dataLen, t.server.i);
    assert [] + t.data[..n] == t.data[..n];
    var t1 := t.(server := t.server.(chunk := t.data[..n]), data := t.data[n..]);
    Then(c, ServerAction, s, t, PullData(n), t1);
    Then(c, ServerAction, s, t1, WriteFails(reply.text), Apply(c, t1, WriteFails(reply.text)));
  }

  /** Every round that Server.HandleRequest answers, on the streams the channels hold, is a run of the server's steps:
      the same bytes are taken, the same outcome is recorded and the same answer is sent. */
  lemma RoundIsRun(c: Config, s: State, buffer: seq<Byte>, handling: Server.Handling, failed: nat, h: Header,
                   command: seq<Byte>, data: seq<Byte>, reply: Message)
    requires ValidConfig(c) && s.server == ReadHeader([]) && |buffer| == MAX_HEADER_LEN
    requires Server.RoundEnds(c.bufferSize, s.command, s.data, buffer, handling, failed, h, command, data, reply)
    ensures Leads(c, ServerAction, s, AfterRound(s, handling, h, command, data, reply))
  {
    hide Leads, LoadHeader, EncodeMessage, Server.Answers;
    RequestRead(c, s, buffer);
    var s1 := s.(command := command, parsed := h, server := Opening(handling.path),
                 data := s.data[h.discard + h.pathLen..]);
    Widen(c, Reading, ServerAction, s, s1);
    AnswerGiven(c, s1, handling, failed, data, reply);
    Onwards(c, ServerAction, s, s1, AfterRound(s1, handling, h, command, data, reply));
  }
}

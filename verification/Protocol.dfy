/** The daemon and one server thread as a step system over two byte channels and the answer stream.
    A step is one system call or one branch of the two programs; sends and receives are partial. */
module Protocol {
  import opened Bytes
  import opened Headers
  import opened Messages
  import opened Chunks

  /** BUFFERSIZE, the data channel's capacity, and the free space select asks for before it
      reports the data socket writable. */
  datatype Config = Config(bufferSize: nat, capacity: nat, lowWater: nat)

  predicate ValidConfig(c: Config) {
    c.bufferSize > 0 && 1 <= c.lowWater <= c.capacity
  }

  datatype Kind = Directory | File

  function Code(k: Kind): Byte {
    if k == File then MK_FILE else MK_DIRECTORY
  }

  /** What a local client asks for: the destination path with its NUL, and the file's bytes. */
  datatype Request = Request(kind: Kind, path: seq<Byte>, data: seq<Byte>)

  predicate ValidRequest(r: Request) {
    |r.path| <= PATH_MAX && (r.kind == Directory ==> r.data == [])
  }

  function HeaderFor(r: Request, discard: nat): Header {
    Header(Code(r.kind), |r.path|, |r.data|, discard)
  }

  /** All a request puts on the data channel. */
  function Stream(r: Request): (s: seq<Byte>)
    ensures |s| == |r.path| + |r.data|
  {
    r.path + r.data
  }

  /** What a local client whose load fails leaves in file_attrs. Before its first source byte nothing;
      after it the source names another file, of which the daemon would read `data`, and the
      destination starts with the bytes `got` of the other path. */
  datatype Overwrite = Untouched | Touched(data: seq<Byte>, got: seq<Byte>)

  function Overlay(got: seq<Byte>, path: seq<Byte>): (p: seq<Byte>)
    ensures |p| == |path|
  {
    if |got| >= |path| then got[..|path|] else got + path[|got|..]
  }

  /** The loops read data_len bytes whatever file the source names. */
  predicate OverwriteFits(r: Request, o: Overwrite) {
    o.Touched? ==> |o.data| == |r.data|
  }

  /** What file_attrs yields under the old header after the failed load. */
  function Overwritten(r: Request, o: Overwrite): Request {
    match o
    case Untouched => r
    case Touched(data, got) => Request(r.kind, Overlay(got, r.path), data)
  }

  /** The failed load reached nothing the old header would make the daemon send. */
  predicate Harmless(r: Request, o: Overwrite) {
    o.Untouched? || (r.data == [] && (o.got == [] || r.path == []))
  }

  /** The request the header was printed for, what was sent under that header, whether no harmful load
      failed in between, and the answer's flag. */
  datatype Answer = Answer(request: Request, sent: Request, intact: bool, flag: Byte)

  /** What the server thread did about one request. */
  datatype Outcome = Outcome(command: Byte, path: seq<Byte>, content: seq<Byte>, ok: bool)

  /** Answers received and requests handled over one connection. */
  datatype History = History(answers: seq<Answer>, log: seq<Outcome>)

  datatype ClientPhase =
    | Top                                      // head of the request loop
    | Loading                                  // reading a local client's request
    | Ready                                    // header printed, file not opened yet
    | SendPath(sent: nat)
    | SendData(i: nat, sent: nat, total: nat)  // chunk, bytes of it sent, bytes of earlier chunks
    | Interrupted(i: nat, sent: nat, total: nat, got: seq<Byte>)  // select chose the command socket
    | AwaitAck(got: seq<Byte>)

  datatype ServerPhase =
    | ReadHeader(got: seq<Byte>)
    | Discarding(i: nat, dropped: nat)
    | ReadPath(got: seq<Byte>)
    | Opening(path: seq<Byte>)
    | Writing(path: seq<Byte>, i: nat, chunk: seq<Byte>, file: seq<Byte>)
    | Gone

  datatype State = State(
    phase: ClientPhase,
    resend: bool,            // file_resend_needed
    discard: nat,            // dest_file_attrs.discard
    header: Header,          // what dest_file_attrs_buffer holds
    request: Request,        // what file_attrs yields: the path and file bytes the daemon sends
    printed: Request,        // the request the header was printed for
    intact: bool,            // no harmful load has failed since
    answers: seq<Answer>,
    server: ServerPhase,
    parsed: Header,          // the server's dest_file_attrs
    log: seq<Outcome>,
    command: seq<Byte>,      // command channel, daemon to server
    data: seq<Byte>,         // data channel, daemon to server
    acks: seq<Byte>,         // command channel, server to daemon
    past: seq<History>       // earlier connections
  )

  function Init(): State {
    State(Top, false, 0, Header(0, 0, 0, 0), Request(Directory, [], []), Request(Directory, [], []), true, [],
          ReadHeader([]), Header(0, 0, 0, 0), [], [], [], [], [])
  }

  datatype Action =
    // daemon
    | Accept | Load(r: Request) | LoadFails(o: Overwrite) | CutLoad(o: Overwrite) | LocalCloses | Retry
    | OpenFails | SendHeader
    | PushPath(n: nat) | PathSent
    | PushData(n: nat) | ChunkSent | DataSent
    | NoticeMessage | PullMessage(n: nat) | TakeMessage
    | Break
    // server thread
    | PullHeader(n: nat) | TakeHeader
    | PullDiscard(n: nat) | ChunkDropped | DiscardDone
    | PullPath(n: nat) | PathDone
    | Accepted | Rejected(text: seq<Byte>) | BadPath(text: seq<Byte>)
    | PullData(n: nat) | ChunkWritten | WriteFails(text: seq<Byte>) | DataWritten

  predicate Writable(c: Config, s: State) {
    |s.data| + c.lowWater <= c.capacity
  }

  /** recv_bytes' two rounds for a header: how many bytes the current round still wants. */
  function HeaderWants(got: seq<Byte>): nat {
    if |got| < MIN_DEST_FILE_ATTRS_LEN then MIN_DEST_FILE_ATTRS_LEN - |got|
    else if |got| < got[0] then got[0] - |got| else 0
  }

  function MessageWants(got: seq<Byte>): nat {
    if |got| < 2 then 2 - |got| else if |got| < got[0] then got[0] - |got| else 0
  }

  predicate MessageRead(got: seq<Byte>) {
    |got| >= 2 && MessageWants(got) == 0
  }

  /** A message that is neither ACK_ERROR nor FORCED_SOCKET_CLOSED nor a closed socket. */
  predicate GoodMessage(got: seq<Byte>) {
    MessageRead(got) && got[0] != 0 && got[1] != ACK_ERROR && got[1] != FORCED_SOCKET_CLOSED
  }

  predicate MidChunk(c: Config, s: State)
    requires c.bufferSize > 0
  {
    s.phase.SendData? && s.phase.i < NumChunks(c.bufferSize, |s.request.data|)
    && s.phase.sent < ChunkLen(c.bufferSize, |s.request.data|, s.phase.i)
  }

  /** Only the data socket that init opened is non-blocking; restart_connection's is not. */
  predicate Blocking(s: State) {
    s.past != []
  }

  /** A blocking send returns only when all it was given is on the channel: until then no select. */
  predicate InsideSend(s: State) {
    Blocking(s) && (s.phase.SendPath? || s.phase.SendData?) && s.phase.sent > 0
  }

  /** The daemon may put bytes on the data channel. */
  predicate MaySend(c: Config, s: State) {
    Writable(c, s) || InsideSend(s)
  }

  /** The daemon waits in select and the data socket is not writable. */
  predicate Waiting(c: Config, s: State)
    requires c.bufferSize > 0
  {
    MidChunk(c, s) && !Writable(c, s) && !InsideSend(s)
  }

  predicate AtChunkWrite(c: Config, s: State)
    requires c.bufferSize > 0
  {
    s.server.Writing? && s.server.i < NumChunks(c.bufferSize, s.parsed.dataLen)
    && |s.server.chunk| == ChunkLen(c.bufferSize, s.parsed.dataLen, s.server.i)
  }

  /** Break is SOCKET_CLOSED: the connection to the server is lost, or a local client goes away before its
      header is complete (which the code cannot tell apart; before the first request the structs it would
      resend are uninitialised, and that case is not modelled). CutLoad and LocalCloses are
      FORCED_SOCKET_CLOSED: the local client goes away, or sends the one message it ever sends. */
  predicate Enabled(c: Config, s: State, a: Action)
    requires ValidConfig(c)
  {
    var b := c.bufferSize;
    match a
    case Accept => s.phase == Top && !s.resend
    case Load(r) => s.phase == Loading && ValidRequest(r)
                    && HeaderFits(HeaderFor(r, s.discard)) && HeaderTyped(HeaderFor(r, s.discard))
    case LoadFails(o) => s.phase == Loading && OverwriteFits(s.request, o) && (o.Touched? ==> o.got == [])
    case CutLoad(o) => s.phase == Loading && OverwriteFits(s.request, o)
    case LocalCloses =>
      || (s.phase == Ready && s.request.kind == File)
      || (Waiting(c, s) && s.acks == [])
      || (s.phase.AwaitAck? && GoodMessage(s.phase.got))
    case Retry => s.phase == Top && s.resend
    case OpenFails => s.phase == Ready && s.request.kind == File
    case SendHeader => s.phase == Ready
    case PushPath(n) => s.phase.SendPath? && MaySend(c, s) && 1 <= n <= |s.request.path| - s.phase.sent
                        && |s.data| + n <= c.capacity
    case PathSent => s.phase.SendPath? && s.phase.sent == |s.request.path|
    case PushData(n) => MidChunk(c, s) && MaySend(c, s)
                        && 1 <= n <= ChunkLen(b, |s.request.data|, s.phase.i) - s.phase.sent
                        && |s.data| + n <= c.capacity
    case ChunkSent => s.phase.SendData? && s.phase.i < NumChunks(b, |s.request.data|)
                      && s.phase.sent == ChunkLen(b, |s.request.data|, s.phase.i)
    case DataSent => s.phase.SendData? && s.phase.i == NumChunks(b, |s.request.data|)
    case NoticeMessage => Waiting(c, s) && s.acks != []
    case PullMessage(n) =>
      && (s.phase.Interrupted? || s.phase.AwaitAck?)
      && 1 <= n <= MessageWants(s.phase.got) && n <= |s.acks|
    case TakeMessage => (s.phase.Interrupted? || s.phase.AwaitAck?) && MessageRead(s.phase.got)
    case Break => s.phase != Top && (s.phase == Loading ==> s.header.command != 0)
    case PullHeader(n) => s.server.ReadHeader? && 1 <= n <= HeaderWants(s.server.got) && n <= |s.command|
    case TakeHeader => s.server.ReadHeader? && HeaderWants(s.server.got) == 0
    case PullDiscard(n) =>
      && s.server.Discarding? && s.server.i < NumChunks(b, s.parsed.discard)
      && 1 <= n <= ChunkLen(b, s.parsed.discard, s.server.i) - s.server.dropped && n <= |s.data|
    case ChunkDropped => s.server.Discarding? && s.server.i < NumChunks(b, s.parsed.discard)
                         && s.server.dropped == ChunkLen(b, s.parsed.discard, s.server.i)
    case DiscardDone => s.server.Discarding? && s.server.i == NumChunks(b, s.parsed.discard)
    case PullPath(n) => s.server.ReadPath? && 1 <= n <= s.parsed.pathLen - |s.server.got| && n <= |s.data|
    case PathDone => s.server.ReadPath? && |s.server.got| == s.parsed.pathLen
    case Accepted => s.server.Opening?
    case Rejected(text) => s.server.Opening? && s.parsed.command in {MK_FILE, MK_DIRECTORY}
                           && Sendable(Message(ACK_ERROR, text))
    case BadPath(text) => s.server.Opening? && Sendable(Message(FORCED_SOCKET_CLOSED, text))
    case PullData(n) =>
      && s.server.Writing? && s.server.i < NumChunks(b, s.parsed.dataLen)
      && 1 <= n <= ChunkLen(b, s.parsed.dataLen, s.server.i) - |s.server.chunk| && n <= |s.data|
    case ChunkWritten => AtChunkWrite(c, s)
    case WriteFails(text) => AtChunkWrite(c, s) && Sendable(Message(FORCED_SOCKET_CLOSED, text))
    case DataWritten => s.server.Writing? && s.server.i == NumChunks(b, s.parsed.dataLen)
  }

  /** restart_connection: two fresh sockets and a fresh server thread. */
  function Restart(s: State, resend: bool): State {
    s.(phase := Top, resend := resend, past := s.past + [History(s.answers, s.log)],
       answers := [], log := [], server := ReadHeader([]), command := [], data := [], acks := [])
  }

  /** The SOCKET_CLOSED handler. */
  function Reconnect(s: State): State {
    Restart(s.(discard := 0), true)
  }

  /** A local client's request was given up while file_attrs was being filled. */
  function FailedLoad(s: State, o: Overwrite): State {
    s.(request := Overwritten(s.request, o), intact := s.intact && Harmless(s.request, o))
  }

  function Respond(s: State, flag: Byte, text: seq<Byte>): State
    requires Sendable(Message(flag, text))
  {
    s.(acks := s.acks + EncodeMessage(Message(flag, text)))
  }

  /** The server thread has handled a request and goes back to reading headers. */
  function Handled(s: State, o: Outcome, flag: Byte, text: seq<Byte>): State
    requires Sendable(Message(flag, text))
  {
    Respond(s.(server := ReadHeader([]), log := s.log + [o]), flag, text)
  }

  /** The answer to what is being sent now. */
  function AnswerNow(s: State, flag: Byte): Answer {
    Answer(s.printed, s.request, s.intact, flag)
  }

  function Answered(s: State, flag: Byte, discard: nat): State {
    s.(phase := Top, answers := s.answers + [AnswerNow(s, flag)], discard := discard)
  }

  function BeginPath(h: Header): ServerPhase {
    if h.pathLen > PATH_MAX then Gone else ReadPath([])
  }

  function TakeHeaderStep(s: State): State
    requires s.server.ReadHeader? && HeaderWants(s.server.got) == 0
  {
    var got := s.server.got;
    if got[0] < MIN_DEST_FILE_ATTRS_LEN then s.(server := Gone) else
    match ParseHeader(got, got[0])
    case None => s.(server := Gone)
    case Some(h) => s.(parsed := h, server := if h.discard > 0 then Discarding(0, 0) else BeginPath(h))
  }

  /** The flag of a complete message decides: rejected, forced restart, or the answer is relayed. */
  function TakeMessageStep(s: State): State
    requires (s.phase.Interrupted? || s.phase.AwaitAck?) && MessageRead(s.phase.got)
  {
    var got := s.phase.got;
    if got[0] == 0 then Reconnect(s) else
    if got[1] == FORCED_SOCKET_CLOSED then Restart(s, false) else
    match s.phase
    case Interrupted(i, sent, total, _) =>
      if got[1] == ACK_ERROR then Answered(s, ACK_ERROR, total + sent)
      else s.(phase := SendData(i + 1, 0, total + sent))
    case AwaitAck(_) =>
      Answered(s, got[1], if got[1] == ACK_ERROR then s.header.dataLen else s.discard)
  }

  function AcceptedStep(s: State): State
    requires s.server.Opening?
  {
    if s.parsed.command == MK_FILE then s.(server := Writing(s.server.path, 0, [], []))
    else if s.parsed.command == MK_DIRECTORY then
      Handled(s, Outcome(MK_DIRECTORY, s.server.path, [], true), ACK_OK, [])
    else s.(server := Gone)
  }

  function Apply(c: Config, s: State, a: Action): State
    requires ValidConfig(c) && Enabled(c, s, a)
  {
    match a
    case Accept => s.(phase := Loading)
    case Load(r) =>
      s.(phase := Ready, request := r, printed := r, intact := true, header := HeaderFor(r, s.discard))
    case LoadFails(o) => FailedLoad(s, o).(phase := Top)
    case CutLoad(o) => Restart(FailedLoad(s, o), false)
    case LocalCloses => Restart(s, false)
    case Retry => s.(phase := Ready, resend := false)
    case OpenFails => s.(phase := Top)
    case SendHeader => s.(phase := SendPath(0), command := s.command + EncodeHeader(s.header))
    case PushPath(n) =>
      s.(phase := SendPath(s.phase.sent + n), data := s.data + s.request.path[s.phase.sent..s.phase.sent + n])
    case PathSent =>
      if s.request.kind == File then s.(phase := SendData(0, 0, 0), discard := 0) else s.(phase := AwaitAck([]))
    case PushData(n) =>
      ChunkStep(c.bufferSize, |s.request.data|, s.phase.i);
      var at := ChunkStart(c.bufferSize, |s.request.data|, s.phase.i) + s.phase.sent;
      s.(phase := SendData(s.phase.i, s.phase.sent + n, s.phase.total),
         data := s.data + s.request.data[at..at + n])
    case ChunkSent => s.(phase := SendData(s.phase.i + 1, 0, s.phase.total + s.phase.sent))
    case DataSent => s.(phase := AwaitAck([]))
    case NoticeMessage => s.(phase := Interrupted(s.phase.i, s.phase.sent, s.phase.total, []))
    case PullMessage(n) => s.(phase := s.phase.(got := s.phase.got + s.acks[..n]), acks := s.acks[n..])
    case TakeMessage => TakeMessageStep(s)
    case Break => Reconnect(s)
    case PullHeader(n) => s.(server := ReadHeader(s.server.got + s.command[..n]), command := s.command[n..])
    case TakeHeader => TakeHeaderStep(s)
    case PullDiscard(n) => s.(server := Discarding(s.server.i, s.server.dropped + n), data := s.data[n..])
    case ChunkDropped => s.(server := Discarding(s.server.i + 1, 0))
    case DiscardDone => s.(server := BeginPath(s.parsed))
    case PullPath(n) => s.(server := ReadPath(s.server.got + s.data[..n]), data := s.data[n..])
    case PathDone => s.(server := Opening(s.server.got))
    case Accepted => AcceptedStep(s)
    case Rejected(text) => Handled(s, Outcome(s.parsed.command, s.server.path, [], false), ACK_ERROR, text)
    case BadPath(text) => Respond(s.(server := Gone), FORCED_SOCKET_CLOSED, text)
    case PullData(n) => s.(server := s.server.(chunk := s.server.chunk + s.data[..n]), data := s.data[n..])
    case ChunkWritten =>
      s.(server := Writing(s.server.path, s.server.i + 1, [], s.server.file + s.server.chunk))
    case WriteFails(text) => Respond(s.(server := Gone), FORCED_SOCKET_CLOSED, text)
    case DataWritten => Handled(s, Outcome(MK_FILE, s.server.path, s.server.file, true), ACK_OK, [])
  }
}

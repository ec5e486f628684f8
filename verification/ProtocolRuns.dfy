/** Concrete runs that reach what the theorems warn of. */
module ProtocolRuns {
  import opened Headers
  import opened Messages
  import opened Chunks
  import opened Protocol
  import opened ProtocolInvariant
  import opened ProtocolSteps
  import opened ProtocolTheorems
  import opened ProtocolProgress
  import opened ProtocolStale
  import opened ProtocolPaths
  import opened ProtocolSends
  import opened ProtocolRounds
  import Bytes
  import Server

  // ---------------------------------------------------------------- parts of runs

  /** Steps of the two programs in which nothing is refused. */
  predicate Quiet(a: Action) {
    ProgramStep(a) && !Refusal(a)
  }

  lemma ReadingIsQuiet(c: Config, s: State, t: State)
    requires ValidConfig(c) && Leads(c, Reading, s, t)
    ensures Leads(c, Quiet, s, t)
  {
    hide Leads;
    Widen(c, Reading, Quiet, s, t);
  }

  lemma SendingIsQuiet(c: Config, s: State, t: State)
    requires ValidConfig(c) && Leads(c, Sending, s, t)
    ensures Leads(c, Quiet, s, t)
  {
    hide Leads;
    Widen(c, Sending, Quiet, s, t);
  }

  lemma PathLeaves(c: Config, s: State)
    requires ValidConfig(c) && s.phase == SendPath(0) && s.request.path != []
    requires Writable(c, s) && |s.data| + |s.request.path| <= c.capacity
    ensures Leads(c, Quiet, s, s.(phase := SendPath(|s.request.path|), data := s.data + s.request.path))
  {
    hide Leads;
    Stays(c, Quiet, s);
    var n := |s.request.path|;
    assert s.request.path[0..n] == s.request.path;
    Then(c, Quiet, s, s, PushPath(n), s.(phase := SendPath(n), data := s.data + s.request.path));
  }

  /** Path and file on a channel with room for both. */
  lemma RequestLeaves(c: Config, s: State)
    requires ValidConfig(c) && s.phase == SendPath(0) && s.request.kind == File && s.request.path != []
    requires |s.data| + |Stream(s.request)| + c.lowWater <= c.capacity
    ensures Leads(c, Quiet, s, s.(phase := AwaitAck([]), discard := 0, data := s.data + Stream(s.request)))
  {
    hide Leads;
    var s1 := s.(phase := SendPath(|s.request.path|), data := s.data + s.request.path);
    PathLeaves(c, s);
    var s2 := s1.(phase := SendData(0, 0, 0), discard := 0);
    Then(c, Quiet, s, s1, PathSent, s2);
    FilePushed(c, s2);
    assert s.data + s.request.path + s.request.data == s.data + Stream(s.request);
    hide Enabled, Apply;
    var s3 := s2.(phase := AwaitAck([]), data := s.data + Stream(s.request));
    SendingIsQuiet(c, s2, s3);
    Onwards(c, Quiet, s, s2, s3);
  }

  /** A buffer for headers that holds nothing yet. */
  function Blank(): (r: seq<Bytes.Byte>)
    ensures |r| == MAX_HEADER_LEN
  {
    seq(MAX_HEADER_LEN, _ => 0)
  }

  lemma HeaderWaits(h: Header)
    requires HeaderFits(h) && HeaderTyped(h)
    ensures LoadHeader(EncodeHeader(h), Blank()) == Loaded(h, [])
  {
    hide EncodeHeader, LoadHeader, HeaderFits;
    assert EncodeHeader(h) + [] == EncodeHeader(h);
    LoadEncodedHeader(h, [], Blank());
  }

  /** The server reads the printed header, drops what it announces and reads the path behind that. */
  lemma RequestArrives(c: Config, s: State)
    requires ValidConfig(c) && s.server == ReadHeader([]) && s.command == EncodeHeader(s.header)
    requires HeaderFits(s.header) && HeaderTyped(s.header) && s.header.pathLen <= PATH_MAX
    requires s.header.discard + s.header.pathLen <= |s.data|
    ensures var d, n := s.header.discard, s.header.pathLen;
            Leads(c, Reading, s, s.(command := [], parsed := s.header, server := Opening(s.data[d..d + n]),
                                    data := s.data[d + n..]))
  {
    hide Leads, EncodeHeader, LoadHeader, HeaderFits, HeaderTyped;
    HeaderWaits(s.header);
    RequestRead(c, s, Blank());
  }

  /** The server stores and acknowledges a file that is all on the channel. */
  lemma FileStored(c: Config, s: State)
    requires ValidConfig(c) && s.server == ReadHeader([]) && s.command == EncodeHeader(s.header)
    requires HeaderFits(s.header) && HeaderTyped(s.header) && s.header == HeaderFor(s.request, 0)
    requires s.request.kind == File && |s.request.path| <= PATH_MAX && s.data == Stream(s.request)
    ensures Leads(c, ServerAction, s,
                  s.(server := ReadHeader([]), parsed := s.header, command := [], data := [],
                     acks := s.acks + [2, ACK_OK],
                     log := s.log + [Outcome(MK_FILE, s.request.path, s.request.data, true)]))
  {
    hide Leads, EncodeHeader, LoadHeader, HeaderFits, HeaderTyped;
    HeaderWaits(s.header);
    var r, n, m := s.request, |s.request.path|, Message(ACK_OK, []);
    assert EncodeMessage(m) == [2, ACK_OK];
    assert Stream(r)[0..n] == r.path && Stream(r)[n..] == r.data == r.data + [];
    var saved := Server.Saved(r.path, r.data);
    assert Server.RoundEnds(c.bufferSize, s.command, s.data, Blank(), saved, 0, s.header, [], [], m);
    RoundIsRun(c, s, Blank(), saved, 0, s.header, [], [], m);
  }

  /** A file from its header's first byte to its acknowledgement, on a channel with room for it. */
  lemma SmallFileSaved(c: Config, s: State)
    requires ValidConfig(c) && ReachableWithoutStale(c, s) && s.phase == Ready && s.request.kind == File
    requires Quiescent(s) && s.data == [] && s.discard == 0 && s.header == HeaderFor(s.request, 0)
    requires HeaderFits(s.header) && HeaderTyped(s.header) && 0 < |s.request.path| <= PATH_MAX
    requires |Stream(s.request)| + c.lowWater <= c.capacity
    ensures ReachableWithoutStale(
              c, s.(phase := Top, parsed := s.header, answers := s.answers + [AnswerNow(s, ACK_OK)],
                    log := s.log + [Outcome(MK_FILE, s.request.path, s.request.data, true)]))
  {
    hide ReachableWithoutStale, Leads, EncodeHeader, HeaderFits, HeaderTyped;
    assert [] + EncodeHeader(s.header) == EncodeHeader(s.header);
    var s1 := s.(phase := SendPath(0), command := EncodeHeader(s.header));
    Go(c, s, SendHeader, s1);
    hide Enabled, Apply;
    assert [] + Stream(s.request) == Stream(s.request);
    var s2 := s1.(phase := AwaitAck([]), data := Stream(s.request));
    RequestLeaves(c, s1);
    ReachableOnwards(c, Quiet, s1, s2);
    var s3 := s2.(server := ReadHeader([]), parsed := s.header, command := [], data := [], acks := [2, ACK_OK],
                  log := s.log + [Outcome(MK_FILE, s.request.path, s.request.data, true)]);
    assert [] + [2, ACK_OK] == [2, ACK_OK];
    FileStored(c, s2);
    ReachableOnwards(c, ServerAction, s2, s3);
    AcknowledgementTaken(c, s3);
  }

  lemma AcknowledgementTaken(c: Config, s: State)
    requires ValidConfig(c) && ReachableWithoutStale(c, s) && s.phase == AwaitAck([]) && s.request.kind == File
    requires s.acks == [2, ACK_OK]
    ensures ReachableWithoutStale(c, s.(phase := Top, acks := [], answers := s.answers + [AnswerNow(s, ACK_OK)]))
  {
    hide ReachableWithoutStale, Leads;
    assert EncodeMessage(Message(ACK_OK, [])) == [2, ACK_OK];
    MessageTaken(c, s, Message(ACK_OK, []));
    var t := s.(phase := AwaitAck([2, ACK_OK]), acks := []);
    ReachableOnwards(c, Sending, s, t);
    Go(c, t, TakeMessage, Apply(c, t, TakeMessage));
  }

  /** A first local client's request is printed. */
  lemma Printed(c: Config, r: Request)
    requires ValidConfig(c) && ValidRequest(r) && HeaderFits(HeaderFor(r, 0)) && HeaderTyped(HeaderFor(r, 0))
    ensures ReachableWithoutStale(c, Init().(phase := Ready, header := HeaderFor(r, 0), request := r, printed := r))
  {
    hide ReachableWithoutStale;
    InitReachable(c);
    var s1 := Init().(phase := Loading);
    Go(c, Init(), Accept, s1);
    Go(c, s1, Load(r), s1.(phase := Ready, header := HeaderFor(r, 0), request := r, printed := r));
  }

  // ---------------------------------------------------------------- stale steps do occur

  const SHIPPED: Config := Config(512000, 4096, 1)
  const REJECTED: Request := Request(File, [65, 0], [1, 2, 3])
  const MADE: Request := Request(Directory, [66, 0], [])

  /** The daemon has sent a three-byte file; the server has read its path and is about to open it. */
  function FileOpening(): State {
    Init().(phase := AwaitAck([]), header := HeaderFor(REJECTED, 0), request := REJECTED, printed := REJECTED,
            parsed := HeaderFor(REJECTED, 0), server := Opening([65, 0]), data := [1, 2, 3])
  }

  lemma FileOpeningReachable()
    ensures ReachableWithoutStale(SHIPPED, FileOpening())
  {
    hide ReachableWithoutStale, Leads, EncodeHeader;
    var c, h := SHIPPED, HeaderFor(REJECTED, 0);
    assert HeaderDigits(h) == 3;
    Printed(c, REJECTED);
    var s0 := Init().(phase := Ready, header := h, request := REJECTED, printed := REJECTED);
    assert [] + EncodeHeader(h) == EncodeHeader(h);
    var s1 := s0.(phase := SendPath(0), command := EncodeHeader(h));
    Go(c, s0, SendHeader, s1);
    hide Enabled, Apply;
    var s2 := s1.(phase := AwaitAck([]), data := [65, 0, 1, 2, 3]);
    assert [] + Stream(REJECTED) == [65, 0, 1, 2, 3];
    RequestLeaves(c, s1);
    ReachableOnwards(c, Quiet, s1, s2);
    assert s2.data[0..2] == [65, 0] && s2.data[2..] == [1, 2, 3];
    RequestArrives(c, s2);
    ReachableOnwards(c, Reading, s2, FileOpening());
  }

  /** The server refused to open the file and the daemon has taken the answer. */
  function FileRejected(): State {
    Init().(header := HeaderFor(REJECTED, 0), request := REJECTED, printed := REJECTED, discard := 3,
            parsed := HeaderFor(REJECTED, 0), data := [1, 2, 3],
            answers := [Answer(REJECTED, REJECTED, true, ACK_ERROR)], log := [Outcome(MK_FILE, [65, 0], [], false)])
  }

  lemma FileRejectedReachable()
    ensures ReachableWithoutStale(SHIPPED, FileRejected())
  {
    hide ReachableWithoutStale, Leads, EncodeHeader, ParseHeader, HeaderWants, ChunkStart, ChunkLen, NumChunks;
    FileOpeningReachable();
    var c, s4, m := SHIPPED, FileOpening(), Message(ACK_ERROR, [69]);
    assert EncodeMessage(m) == [4, 0, 69, 0] == [] + [4, 0, 69, 0];
    var s5 := s4.(server := ReadHeader([]), log := FileRejected().log, acks := [4, 0, 69, 0]);
    Go(c, s4, Rejected([69]), s5);
    var s6 := s5.(phase := AwaitAck([4, 0, 69, 0]), acks := []);
    MessageTaken(c, s5, m);
    ReachableOnwards(c, Sending, s5, s6);
    FileAnswerTaken();
    hide Enabled, Apply, Stale;
    Go(c, s6, TakeMessage, FileRejected());
  }

  lemma FileAnswerTaken()
    ensures var s6 := FileOpening().(phase := AwaitAck([4, 0, 69, 0]), server := ReadHeader([]),
                                     log := FileRejected().log);
            Enabled(SHIPPED, s6, TakeMessage) && !Stale(s6, TakeMessage)
            && Apply(SHIPPED, s6, TakeMessage) == FileRejected()
  {
  }

  /** After the refused file a directory has been sent, and the server has dropped the file's bytes. */
  function DirectoryOpening(): State {
    FileRejected().(phase := AwaitAck([]), request := MADE, printed := MADE, header := HeaderFor(MADE, 3),
                    parsed := HeaderFor(MADE, 3), server := Opening([66, 0]), data := [])
  }

  lemma DirectoryOpeningReachable()
    ensures ReachableWithoutStale(SHIPPED, DirectoryOpening())
  {
    hide ReachableWithoutStale, Leads, EncodeHeader;
    var c, s0, h := SHIPPED, FileRejected(), HeaderFor(MADE, 3);
    assert HeaderDigits(h) == 3;
    DirectoryReady();
    var s1 := s0.(phase := Ready, request := MADE, printed := MADE, header := h);
    assert [] + EncodeHeader(h) == EncodeHeader(h);
    var s2 := s1.(phase := SendPath(0), command := EncodeHeader(h));
    Go(c, s1, SendHeader, s2);
    assert [1, 2, 3] + MADE.path == [1, 2, 3, 66, 0];
    var s3 := s2.(phase := SendPath(2), data := [1, 2, 3, 66, 0]);
    PathLeaves(c, s2);
    ReachableOnwards(c, Quiet, s2, s3);
    var s4 := s3.(phase := AwaitAck([]));
    Go(c, s3, PathSent, s4);
    hide Enabled, Apply;
    assert s4.data[3..5] == [66, 0] && s4.data[5..] == [];
    RequestArrives(c, s4);
    ReachableOnwards(c, Reading, s4, DirectoryOpening());
  }

  lemma DirectoryReady()
    ensures ReachableWithoutStale(SHIPPED, FileRejected().(phase := Loading))
    ensures ReachableWithoutStale(SHIPPED, FileRejected().(phase := Ready, request := MADE, printed := MADE,
                                                           header := HeaderFor(MADE, 3)))
  {
    hide ReachableWithoutStale;
    FileRejectedReachable();
    var s0 := FileRejected();
    var s1 := s0.(phase := Loading);
    Go(SHIPPED, s0, Accept, s1);
    Go(SHIPPED, s1, Load(MADE), s1.(phase := Ready, request := MADE, printed := MADE, header := HeaderFor(MADE, 3)));
  }

  /** The directory is made and its answer read, with the printed discard still in the field. */
  function DirectoryMade(): State {
    DirectoryOpening().(phase := AwaitAck([2, 1]), server := ReadHeader([]),
                        log := [Outcome(MK_FILE, [65, 0], [], false), Outcome(MK_DIRECTORY, [66, 0], [], true)])
  }

  /** The shipped buffer size, one rejected three-byte file, then one accepted directory: the run is
      legal and its last step is stale. */
  lemma {:induction false} StaleStepOccurs()
    ensures ReachableWithoutStale(SHIPPED, DirectoryMade()) && Enabled(SHIPPED, DirectoryMade(), TakeMessage)
    ensures Stale(DirectoryMade(), TakeMessage)
    ensures var t := Apply(SHIPPED, DirectoryMade(), TakeMessage);
            t.phase == Top && NextDiscard(t) == 3 && t.data == []
  {
    hide ReachableWithoutStale, Leads;
    DirectoryOpeningReachable();
    var s5 := DirectoryOpening();
    var s6 := s5.(server := ReadHeader([]), log := DirectoryMade().log, acks := [2, 1]);
    assert EncodeMessage(Message(ACK_OK, [])) == [2, 1] == [] + [2, 1];
    Go(SHIPPED, s5, Accepted, s6);
    MessageTaken(SHIPPED, s6, Message(ACK_OK, []));
    ReachableOnwards(SHIPPED, Sending, s6, DirectoryMade());
  }

  /** The same rejected file makes a lost connection and a local client that goes away stale. */
  lemma {:induction false} StaleReconnectsOccur()
    ensures exists s :: ReachableWithoutStale(SHIPPED, s) && Enabled(SHIPPED, s, Break) && Stale(s, Break)
    ensures exists s :: ReachableWithoutStale(SHIPPED, s) && Enabled(SHIPPED, s, LocalCloses) && Stale(s, LocalCloses)
    ensures exists s, o ::
              ReachableWithoutStale(SHIPPED, s) && Enabled(SHIPPED, s, CutLoad(o)) && Stale(s, CutLoad(o))
  {
    hide ReachableWithoutStale;
    DirectoryReady();
    var s1 := FileRejected().(phase := Loading);
    assert Enabled(SHIPPED, s1, CutLoad(Untouched)) && Stale(s1, CutLoad(Untouched));
    var s2 := s1.(phase := Ready, request := MADE, printed := MADE, header := HeaderFor(MADE, 3));
    assert Enabled(SHIPPED, s2, Break) && Stale(s2, Break);
    var s3 := s1.(phase := Ready, header := HeaderFor(REJECTED, 3));
    Go(SHIPPED, s1, Load(REJECTED), s3);
    assert Enabled(SHIPPED, s3, LocalCloses) && Stale(s3, LocalCloses);
  }

  // ---------------------------------------------------------------- requests after the stale step

  const LONGER: Request := Request(File, [67, 0], [1, 2, 0, 4])
  const BRIEF: Request := Request(File, [67, 0], [9])

  /** The head of the loop after the accepted directory. */
  function AfterDirectory(): State {
    DirectoryMade().(phase := Top, answers := [Answer(REJECTED, REJECTED, true, ACK_ERROR),
                                               Answer(MADE, MADE, true, ACK_OK)])
  }

  lemma AfterDirectoryReachable()
    ensures Reachable(SHIPPED, AfterDirectory())
  {
    StaleStepOccurs();
    WithoutStaleIsReachable(SHIPPED, DirectoryMade());
    hide ReachableWithoutStale, Reachable;
    assert Apply(SHIPPED, DirectoryMade(), TakeMessage) == AfterDirectory();
    ReachableByStep(SHIPPED, DirectoryMade(), TakeMessage);
  }

  /** A small file's header has been sent after the accepted directory. */
  function SentNext(r: Request): State {
    AfterDirectory().(phase := SendPath(0), request := r, printed := r, header := HeaderFor(r, 3),
                      command := EncodeHeader(HeaderFor(r, 3)))
  }

  lemma SentNextReachable(r: Request)
    requires r == LONGER || r == BRIEF
    ensures SentFrom(SHIPPED, AfterDirectory(), r, SentNext(r)) && Reachable(SHIPPED, SentNext(r))
  {
    AfterDirectoryReachable();
    hide EncodeHeader, Reachable;
    assert HeaderDigits(HeaderFor(r, 3)) == 3;
    assert [] + EncodeHeader(HeaderFor(r, 3)) == EncodeHeader(HeaderFor(r, 3));
    var s1 := AfterDirectory().(phase := Loading);
    ReachableByStep(SHIPPED, AfterDirectory(), Accept);
    var s2 := s1.(phase := Ready, request := r, printed := r, header := HeaderFor(r, 3));
    ReachableByStep(SHIPPED, s1, Load(r));
    ReachableByStep(SHIPPED, s2, SendHeader);
  }

  /** The next file is sent whole while the server waits for its header. */
  lemma NextLeaves(r: Request)
    requires r == LONGER || r == BRIEF
    ensures var s, t := SentNext(r), SentNext(r).(phase := AwaitAck([]), discard := 0, data := Stream(r));
            && Leads(SHIPPED, Quiet, s, t)
            && t.server == ReadHeader([]) && t.command == EncodeHeader(t.header) && t.header == HeaderFor(r, 3)
            && HeaderFits(t.header) && HeaderTyped(t.header) && t.acks == [] && t.past == []
  {
    hide Leads, EncodeHeader;
    assert HeaderDigits(HeaderFor(r, 3)) == 3;
    assert [] + Stream(r) == Stream(r);
    RequestLeaves(SHIPPED, SentNext(r));
  }

  lemma LongerOpened(s: State)
    requires s.server == ReadHeader([]) && s.command == EncodeHeader(s.header) && s.header == HeaderFor(LONGER, 3)
    requires HeaderFits(s.header) && HeaderTyped(s.header) && s.data == Stream(LONGER)
    ensures Leads(SHIPPED, Reading, s, s.(command := [], parsed := s.header, server := Opening([2, 0]), data := [4]))
  {
    hide Leads, EncodeHeader, HeaderFits, HeaderTyped;
    assert Stream(LONGER)[3..5] == [2, 0] && Stream(LONGER)[5..] == [4];
    RequestArrives(SHIPPED, s);
  }

  /** Files sent whole, then read by the server as far as it can. */
  lemma NextRead(r: Request, t: State)
    requires r == LONGER || r == BRIEF
    requires Leads(SHIPPED, Reading, SentNext(r).(phase := AwaitAck([]), discard := 0, data := Stream(r)), t)
    ensures Leads(SHIPPED, Quiet, SentNext(r), t) && Reachable(SHIPPED, t)
  {
    SentNextReachable(r);
    NextLeaves(r);
    hide Leads, Reachable, EncodeHeader, SentFrom, SentNext, HeaderFits, HeaderTyped, Enabled, Apply, Stream, Reading,
         Quiet;
    var s1 := SentNext(r).(phase := AwaitAck([]), discard := 0, data := Stream(r));
    ReadingIsQuiet(SHIPPED, s1, t);
    Onwards(SHIPPED, Quiet, SentNext(r), s1, t);
    ReachableByRun(SHIPPED, Quiet, SentNext(r), t);
  }

  /** After the stale directory a four-byte file is opened under the name that its own second byte and NUL make. */
  lemma {:induction false} WrongNameOccurs()
    ensures SentFrom(SHIPPED, AfterDirectory(), LONGER, SentNext(LONGER))
    ensures exists t :: Leads(SHIPPED, Quiet, SentNext(LONGER), t) && Reachable(SHIPPED, t)
                        && t.server == Opening([2, 0]) && t.data == [4]
  {
    SentNextReachable(LONGER);
    NextLeaves(LONGER);
    hide Leads, Reachable, EncodeHeader, SentFrom, SentNext, HeaderFits, HeaderTyped, Enabled, Apply;
    var s1 := SentNext(LONGER).(phase := AwaitAck([]), discard := 0, data := Stream(LONGER));
    LongerOpened(s1);
    NextRead(LONGER, s1.(command := [], parsed := s1.header, server := Opening([2, 0]), data := [4]));
  }

  /** A one-byte file is dropped whole, and both programs wait for ever on the connection that init opened. */
  lemma {:induction false} StarvedOccurs()
    ensures SentFrom(SHIPPED, AfterDirectory(), BRIEF, SentNext(BRIEF))
    ensures exists t :: Leads(SHIPPED, Quiet, SentNext(BRIEF), t) && Reachable(SHIPPED, t) && t.past == [] && Busy(t)
                        && Starved(SHIPPED, t) && !CanMove(SHIPPED, t)
  {
    SentNextReachable(BRIEF);
    NextLeaves(BRIEF);
    hide Leads, Reachable, EncodeHeader, SentFrom, SentNext, HeaderFits, HeaderTyped, Enabled, Apply, CanMove, Shift;
    var s1 := SentNext(BRIEF).(phase := AwaitAck([]), discard := 0, data := Stream(BRIEF));
    BriefDropped(s1);
    var t := s1.(command := [], parsed := s1.header, server := ReadPath([]), data := []);
    NextRead(BRIEF, t);
    BlockedExactly(SHIPPED, t);
  }

  lemma BriefDropped(s: State)
    requires s.server == ReadHeader([]) && s.command == EncodeHeader(s.header) && s.header == HeaderFor(BRIEF, 3)
    requires HeaderFits(s.header) && HeaderTyped(s.header) && s.data == Stream(BRIEF)
    ensures Leads(SHIPPED, Reading, s, s.(command := [], parsed := s.header, server := ReadPath([]), data := []))
  {
    hide Leads, EncodeHeader, LoadHeader, HeaderFits, HeaderTyped;
    HeaderWaits(s.header);
    HeaderReceived(SHIPPED, s, Blank());
    var s2 := s.(command := [], parsed := s.header, server := Discarding(0, 0));
    assert s2.data[3..] == [];
    JunkGone(SHIPPED, s2);
    Onwards(SHIPPED, Reading, s, s2, s2.(server := ReadPath([]), data := []));
  }

  // ---------------------------------------------------------------- an overwritten request

  const SMALL: Request := Request(File, [65, 0], [1])
  const OVERWRITTEN: Request := Request(File, [65, 0], [9])

  /** One client's file is saved, a second one's load fails after its source path, a third one closes early: the
      daemon resends the first header and path with the second client's file, and it is acknowledged. */
  lemma {:induction false} OverwrittenFileSaved()
    ensures exists s :: ReachableWithoutStale(SHIPPED, s)
                        && s.answers == [Answer(SMALL, OVERWRITTEN, false, ACK_OK)]
                        && s.log == [Outcome(MK_FILE, SMALL.path, OVERWRITTEN.data, true)]
                        && s.past == [History([Answer(SMALL, SMALL, true, ACK_OK)],
                                              [Outcome(MK_FILE, SMALL.path, SMALL.data, true)])]
  {
    hide ReachableWithoutStale;
    var c, h := SHIPPED, HeaderFor(SMALL, 0);
    assert HeaderDigits(h) == 3;
    Printed(c, SMALL);
    var s0 := Init().(phase := Ready, header := h, request := SMALL, printed := SMALL);
    var log1 := [Outcome(MK_FILE, SMALL.path, SMALL.data, true)];
    var s1 := s0.(phase := Top, parsed := h, answers := [Answer(SMALL, SMALL, true, ACK_OK)], log := log1);
    SmallFileSaved(c, s0);
    assert [] + s1.answers == s1.answers && [] + log1 == log1;
    var s2 := RetryReady(c, s1);
    var log2 := [Outcome(MK_FILE, SMALL.path, OVERWRITTEN.data, true)];
    var s3 := s2.(phase := Top, parsed := h, answers := [Answer(SMALL, OVERWRITTEN, false, ACK_OK)], log := log2);
    SmallFileSaved(c, s2);
    assert [] + s3.answers == s3.answers && [] + log2 == log2;
  }

  /** The failing second client and the departing third one. */
  lemma RetryReady(c: Config, s1: State) returns (s6: State)
    requires ValidConfig(c) && ReachableWithoutStale(c, s1) && s1.phase == Top && !s1.resend && s1.request == SMALL
    requires s1.header == HeaderFor(SMALL, 0) && s1.intact && s1.discard == 0 && s1.past == []
    ensures ReachableWithoutStale(c, s6)
    ensures s6 == Restart(s1, false).(phase := Ready, request := OVERWRITTEN, intact := false)
  {
    hide ReachableWithoutStale;
    var o := Touched([9], []);
    assert Overlay([], SMALL.path) == SMALL.path;
    var s2 := s1.(phase := Loading);
    Go(c, s1, Accept, s2);
    var s3 := s1.(request := OVERWRITTEN, intact := false);
    Go(c, s2, LoadFails(o), s3);
    var s4 := s3.(phase := Loading);
    Go(c, s3, Accept, s4);
    var s5 := Restart(s3, true);
    Go(c, s4, Break, s5);
    s6 := s5.(phase := Ready, resend := false);
    Go(c, s5, Retry, s6);
  }

  // ---------------------------------------------------------------- a deadlock after a reconnect

  /** A file without a name, one byte larger than the channel. */
  function Nameless(c: Config): Request {
    Request(File, [0], seq(c.capacity + 1, _ => 0))
  }

  lemma NamelessFits(c: Config)
    requires c.capacity < Bytes.ULLONG_MAX
    ensures HeaderFits(HeaderFor(Nameless(c), 0)) && HeaderTyped(HeaderFor(Nameless(c), 0))
  {
    assert Bytes.Pow10(10) == 1_00000_00000 by {
      assert Bytes.Pow10(4) == 10000 by { assert Bytes.Pow10(2) == 100; }
      assert Bytes.Pow10(8) == 1000_00000 by { assert Bytes.Pow10(6) == 10_00000; }
    }
    assert Bytes.Pow10(20) > Bytes.ULLONG_MAX by {
      assert Bytes.Pow10(14) == 10000_00000_00000 by { assert Bytes.Pow10(12) == 100_00000_00000; }
      assert Bytes.Pow10(18) == 1000_00000_00000_00000 by { assert Bytes.Pow10(16) == 10_00000_00000_00000; }
    }
    Bytes.DigitsLength(c.capacity + 1, 20);
  }

  /** For every buffer and channel size that leaves the last buffer a part of the channel, as the shipped ones do: a
      local client goes away while its request is read, so the data socket blocks from then on; the next client's file
      does not fit the channel and the server, which finds no name for it, refuses it. */
  lemma {:induction false} StuckOccurs(c: Config)
    requires ValidConfig(c) && c.lowWater <= c.capacity % c.bufferSize && c.capacity < Bytes.ULLONG_MAX
    ensures exists s :: ReachableWithoutStale(c, s) && Busy(s) && Stuck(c, s) && s.request == Nameless(c)
  {
    hide ReachableWithoutStale, Leads, EncodeHeader, HeaderFits, HeaderTyped, HeaderDigits, Stuck;
    var r := Nameless(c);
    var h := HeaderFor(r, 0);
    NamelessFits(c);
    var s0 := ReconnectedReady(c, r);
    assert [] + EncodeHeader(h) == EncodeHeader(h);
    var s1 := s0.(phase := SendPath(0), command := EncodeHeader(h));
    Go(c, s0, SendHeader, s1);
    var s2 := s1.(phase := SendPath(1), data := [0]);
    assert [] + r.path == [0];
    PathLeaves(c, s1);
    ReachableOnwards(c, Quiet, s1, s2);
    hide Enabled, Apply;
    var s3 := s2.(command := [], parsed := h, server := Opening([0]), data := []);
    assert [0][0..1] == [0] && [0][1..] == [];
    RequestArrives(c, s2);
    ReachableOnwards(c, Reading, s2, s3);
    RefusedInsideSend(c, s3);
  }

  lemma ReconnectedReady(c: Config, r: Request) returns (s: State)
    requires ValidConfig(c) && ValidRequest(r) && HeaderFits(HeaderFor(r, 0)) && HeaderTyped(HeaderFor(r, 0))
    ensures ReachableWithoutStale(c, s)
    ensures s == Init().(phase := Ready, header := HeaderFor(r, 0), request := r, printed := r,
                         past := [History([], [])])
  {
    hide ReachableWithoutStale, HeaderFits, HeaderTyped;
    InitReachable(c);
    var s1 := Init().(phase := Loading);
    Go(c, Init(), Accept, s1);
    var s2 := Init().(past := [History([], [])]);
    assert Overwritten(s1.request, Untouched) == s1.request;
    Go(c, s1, CutLoad(Untouched), s2);
    var s3 := s2.(phase := Loading);
    Go(c, s2, Accept, s3);
    s := s3.(phase := Ready, header := HeaderFor(r, 0), request := r, printed := r);
    Go(c, s3, Load(r), s);
  }

  lemma RefusedInsideSend(c: Config, s: State)
    requires ValidConfig(c) && ReachableWithoutStale(c, s) && c.lowWater <= c.capacity % c.bufferSize
    requires s.phase == SendPath(1) && s.request == Nameless(c) && s.data == [] && s.past != []
    requires s.server == Opening([0]) && s.parsed.command == MK_FILE && s.log == [] && s.answers == []
    ensures exists t :: ReachableWithoutStale(c, t) && Busy(t) && Stuck(c, t) && t.request == Nameless(c)
  {
    hide ReachableWithoutStale, Leads, ChunkStart, ChunkLen, NumChunks, EncodeHeader, ParseHeader, HeaderWants,
         MessageWants;
    var len, m := c.capacity + 1, c.capacity;
    var j, n := m / c.bufferSize, m % c.bufferSize;
    PartOf(c.bufferSize, len, m);
    var s1 := s.(phase := SendData(0, 0, 0), discard := 0);
    Go(c, s, PathSent, s1);
    PartPushed(c, s1, j, n);
    var s2 := s1.(phase := SendData(j, n, m - n), data := s.request.data[..m]);
    assert [] + s.request.data[..m] == s.request.data[..m];
    ReachableOnwards(c, Sending, s1, s2);
    assert EncodeMessage(Message(ACK_ERROR, [])) == [2, 0];
    var t := s2.(server := ReadHeader([]), log := [Outcome(MK_FILE, [0], [], false)], acks := s2.acks + [2, 0]);
    Go(c, s2, Rejected([]), t);
    hide Enabled, Apply;
    assert Stuck(c, t);
  }
}

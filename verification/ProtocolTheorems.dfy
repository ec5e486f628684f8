/** Resynchronisation with its exact condition, end-to-end integrity, and what a resend sends. */
module ProtocolTheorems {
  import opened Bytes
  import opened Headers
  import opened Messages
  import opened Chunks
  import opened Protocol
  import opened ProtocolInvariant
  import opened ProtocolSteps

  /** Every step of either program takes the invariant over to the next shift. */
  lemma StepShifts(c: Config, s: State, k: nat, a: Action)
    requires ValidConfig(c) && Inv(c, s, k) && Enabled(c, s, a)
    ensures Inv(c, Apply(c, s, a), NextShift(s, a, k))
  {
    if a.TakeMessage? { TakeMessageShifts(c, s, k); }
    else if a.LocalCloses? { RestartKeeps(c, s, k, false); }
    else if a.CutLoad? { CutLoadShifts(c, s, k, a.o); }
    else if a.Break? { RestartKeeps(c, s, k, true); }
    else { StepKeeps(c, s, k, a); }
  }

  lemma CutLoadShifts(c: Config, s: State, k: nat, o: Overwrite)
    requires ValidConfig(c) && Inv(c, s, k) && Enabled(c, s, CutLoad(o))
    ensures Inv(c, Apply(c, s, CutLoad(o)), s.discard)
  {
    FailedLoadKeeps(c, s, k, o);
    RestartKeeps(c, FailedLoad(s, o), k, false);
    hide Inv;
  }

  lemma StepKeeps(c: Config, s: State, k: nat, a: Action)
    requires ValidConfig(c) && Inv(c, s, k) && Enabled(c, s, a)
    requires !a.TakeMessage? && !a.LocalCloses? && !a.CutLoad? && !a.Break?
    ensures Inv(c, Apply(c, s, a), NextShift(s, a, k))
  {
    hide Inv, Enabled, Apply;
    match a
    case SendHeader => SendHeaderKeeps(c, s, k);
    case PushPath(n) => PushPathKeeps(c, s, k, n);
    case PathSent => PathSentKeeps(c, s, k);
    case PushData(n) => PushDataKeeps(c, s, k, n);
    case ChunkSent => ChunkSentKeeps(c, s, k);
    case DataSent => DataSentKeeps(c, s, k);
    case NoticeMessage => NoticeMessageKeeps(c, s, k);
    case PullMessage(n) => PullMessageKeeps(c, s, k, n);
    case PullHeader(n) => PullHeaderKeeps(c, s, k, n);
    case TakeHeader => TakeHeaderKeeps(c, s, k);
    case PullDiscard(n) => PullDiscardKeeps(c, s, k, n);
    case ChunkDropped => ChunkDroppedKeeps(c, s, k);
    case DiscardDone => DiscardDoneKeeps(c, s, k);
    case PullPath(n) => PullPathKeeps(c, s, k, n);
    case PathDone => PathDoneKeeps(c, s, k);
    case Accepted => OpeningKeeps(c, s, k, a);
    case Rejected(_) => OpeningKeeps(c, s, k, a);
    case BadPath(_) => OpeningKeeps(c, s, k, a);
    case PullData(n) => PullDataKeeps(c, s, k, n);
    case ChunkWritten => ChunkWrittenKeeps(c, s, k);
    case WriteFails(text) => WriteFailsKeeps(c, s, k, text);
    case DataWritten => FileWrittenKeeps(c, s, k);
    case _ => LoadKeeps(c, s, k, a);
  }

  /** At the head of the loop the shift is a plain count. */
  lemma ShiftUnique(c: Config, s: State, k: nat, l: nat)
    requires ValidConfig(c) && Inv(c, s, k) && Inv(c, s, l) && s.phase == Top
    ensures k == l
  {
    hide Matches, PastMatches, HeaderPrinted;
  }

  lemma ShiftSetAtTop(c: Config, s: State, k: nat, a: Action)
    requires ValidConfig(c) && Inv(c, s, k) && Enabled(c, s, a) && NextShift(s, a, k) != k
    ensures Apply(c, s, a).phase == Top
  {
    if a.TakeMessage? {
      if s.server.Gone? { ReplyRead(s, FORCED_SOCKET_CLOSED); } else { ReplyLeavesRest(c, s, k); }
    }
    hide Inv, EncodeHeader, Agrees;
  }

  /** A step keeps the invariant at the same shift exactly when it does not set the shift anew. */
  lemma StepExact(c: Config, s: State, k: nat, a: Action)
    requires ValidConfig(c) && Inv(c, s, k) && Enabled(c, s, a)
    ensures Inv(c, Apply(c, s, a), k) <==> NextShift(s, a, k) == k
  {
    StepShifts(c, s, k, a);
    if NextShift(s, a, k) != k {
      ShiftSetAtTop(c, s, k, a);
      hide Inv, Enabled, Apply, NextShift;
      if Inv(c, Apply(c, s, a), k) { ShiftUnique(c, Apply(c, s, a), k, NextShift(s, a, k)); }
    }
  }

  /** From an aligned state exactly the stale steps lead to a nonzero shift. */
  lemma StaleExact(c: Config, s: State, a: Action)
    requires ValidConfig(c) && Inv(c, s, 0) && Enabled(c, s, a)
    ensures NextShift(s, a, 0) != 0 <==> Stale(s, a)
  {
    if a.TakeMessage? {
      if s.server.Gone? { ReplyRead(s, FORCED_SOCKET_CLOSED); } else { ReplyLeavesRest(c, s, 0); }
      hide ReceiverOk, Aligned, Agrees, HeaderPrinted;
    }
  }

  // ---------------------------------------------------------------- whole runs

  predicate Runs(c: Config, s: State, steps: seq<Action>)
    requires ValidConfig(c)
    decreases |steps|
  {
    steps == [] || (Enabled(c, s, steps[0]) && Runs(c, Apply(c, s, steps[0]), steps[1..]))
  }

  function Exec(c: Config, s: State, steps: seq<Action>): State
    requires ValidConfig(c) && Runs(c, s, steps)
    decreases |steps|
  {
    if steps == [] then s else Exec(c, Apply(c, s, steps[0]), steps[1..])
  }

  /** The shift at the end of a run. */
  function ShiftAfter(c: Config, s: State, k: nat, steps: seq<Action>): nat
    requires ValidConfig(c) && Runs(c, s, steps)
    decreases |steps|
  {
    if steps == [] then k else ShiftAfter(c, Apply(c, s, steps[0]), NextShift(s, steps[0], k), steps[1..])
  }

  lemma {:induction false} RunKeeps(c: Config, s: State, k: nat, steps: seq<Action>)
    requires ValidConfig(c) && Inv(c, s, k) && Runs(c, s, steps)
    ensures Inv(c, Exec(c, s, steps), ShiftAfter(c, s, k, steps))
    decreases |steps|
  {
    hide Inv, NextShift, Enabled, Apply;
    if steps != [] {
      StepShifts(c, s, k, steps[0]);
      RunKeeps(c, Apply(c, s, steps[0]), NextShift(s, steps[0], k), steps[1..]);
    }
  }

  /** A state some run from the start reaches. */
  ghost predicate Reachable(c: Config, s: State)
    requires ValidConfig(c)
  {
    exists steps :: Runs(c, Init(), steps) && Exec(c, Init(), steps) == s
  }

  lemma ReachableInv(c: Config, s: State) returns (k: nat)
    requires ValidConfig(c) && Reachable(c, s)
    ensures Inv(c, s, k)
  {
    hide NextShift, Enabled, Apply;
    var steps :| Runs(c, Init(), steps) && Exec(c, Init(), steps) == s;
    k := ShiftAfter(c, Init(), 0, steps);
    RunKeeps(c, Init(), 0, steps);
  }

  predicate NeverStale(c: Config, s: State, steps: seq<Action>)
    requires ValidConfig(c) && Runs(c, s, steps)
    decreases |steps|
  {
    steps == [] || (!Stale(s, steps[0]) && NeverStale(c, Apply(c, s, steps[0]), steps[1..]))
  }

  /** A state some run from the start reaches without a stale step. */
  ghost predicate ReachableWithoutStale(c: Config, s: State)
    requires ValidConfig(c)
  {
    exists steps :: Runs(c, Init(), steps) && NeverStale(c, Init(), steps) && Exec(c, Init(), steps) == s
  }

  lemma WithoutStaleIsReachable(c: Config, s: State)
    requires ValidConfig(c) && ReachableWithoutStale(c, s)
    ensures Reachable(c, s)
  {
    hide Enabled, Apply, Stale;
  }

  /** Every name the server was given is the path sent. */
  ghost predicate NamesTrue(h: History) {
    forall i :: 0 <= i < |h.answers| && i < |h.log| ==> h.log[i].path == h.answers[i].sent.path
  }

  ghost predicate Unshifted(c: Config, s: State)
    requires ValidConfig(c)
  {
    && Inv(c, s, 0) && NamesTrue(History(s.answers, s.log))
    && forall i :: 0 <= i < |s.past| ==> NamesTrue(s.past[i])
  }

  lemma NamesStayTrue(c: Config, s: State, a: Action)
    requires ValidConfig(c) && Unshifted(c, s) && Enabled(c, s, a)
    ensures var t := Apply(c, s, a);
            NamesTrue(History(t.answers, t.log)) && forall i :: 0 <= i < |t.past| ==> NamesTrue(t.past[i])
  {
    if a.TakeMessage? {
      NameTaken(c, s);
    } else if ServerAction(a) {
      ServerMovesEarly(c, s, 0, a);
      ServerKeepsClient(c, s, a);
      LogGrows(c, s, a);
      hide Inv, Enabled, Apply;
    } else {
      hide Inv, EncodeHeader, ChunkStart, ChunkLen, NumChunks, Overwritten, Harmless;
    }
  }

  lemma LogGrows(c: Config, s: State, a: Action)
    requires ValidConfig(c) && Enabled(c, s, a) && ServerAction(a)
    ensures s.log <= Apply(c, s, a).log
  {
    hide EncodeMessage, EncodeHeader, ParseHeader, NumChunks, ChunkLen, Sendable, HeaderWants, MessageWants,
         ValidRequest, HeaderFits, HeaderTyped, ChunkStart, GoodMessage, OverwriteFits, Overwritten, MidChunk, MaySend,
         Waiting, AtChunkWrite, TakeMessageStep, Restart;
  }

  /** The name in the record that the answer belongs to. */
  lemma NameInReply(c: Config, s: State)
    requires ValidConfig(c) && Inv(c, s, 0) && Enabled(c, s, TakeMessage)
    ensures s.phase.got[0] != 0 && (s.server.Gone? ==> s.phase.got[1] == FORCED_SOCKET_CLOSED)
    ensures !s.server.Gone? ==> |s.log| == |s.answers| + 1 && s.log[|s.answers|].path == s.request.path
  {
    hide Stream, HeaderPrinted, SenderOk;
    if s.server.Gone? {
      ReplyRead(s, FORCED_SOCKET_CLOSED);
    } else {
      ReplyLeavesRest(c, s, 0);
      WholePath(s.request, 0, s.log[|s.answers|].path);
    }
  }

  lemma NameTaken(c: Config, s: State)
    requires ValidConfig(c) && Unshifted(c, s) && Enabled(c, s, TakeMessage)
    ensures var t := Apply(c, s, TakeMessage);
            NamesTrue(History(t.answers, t.log)) && forall i :: 0 <= i < |t.past| ==> NamesTrue(t.past[i])
  {
    hide Inv;
    NameInReply(c, s);
  }

  lemma {:induction false} UnshiftedRun(c: Config, s: State, steps: seq<Action>)
    requires ValidConfig(c) && Unshifted(c, s) && Runs(c, s, steps) && NeverStale(c, s, steps)
    ensures Unshifted(c, Exec(c, s, steps))
    decreases |steps|
  {
    hide Inv, NextShift, Stale, Enabled, Apply, NamesTrue;
    if steps != [] {
      StepShifts(c, s, 0, steps[0]);
      StaleExact(c, s, steps[0]);
      NamesStayTrue(c, s, steps[0]);
      UnshiftedRun(c, Apply(c, s, steps[0]), steps[1..]);
    }
  }

  lemma WithoutStale(c: Config, s: State)
    requires ValidConfig(c) && ReachableWithoutStale(c, s)
    ensures Reachable(c, s) && Unshifted(c, s)
  {
    hide Stale, Enabled, Apply;
    WithoutStaleIsReachable(c, s);
    var steps :| Runs(c, Init(), steps) && NeverStale(c, Init(), steps) && Exec(c, Init(), steps) == s;
    UnshiftedRun(c, Init(), steps);
  }

  // ---------------------------------------------------------------- the shift as a count

  /** By how much the discard of the next or present header exceeds the bytes of earlier requests in front of its
      request: what was printed and sent against what the channel holds and the server has taken. */
  ghost function Shift(c: Config, s: State): int
    requires ValidConfig(c)
  {
    match s.phase
    case Top => NextDiscard(s) - |s.data|
    case Loading => s.discard - |s.data|
    case Ready => s.header.discard - |s.data|
    case _ => s.header.discard + SentLen(c, s) - |s.data| - Consumed(c, s)
  }

  lemma ShiftIs(c: Config, s: State, k: nat)
    requires ValidConfig(c) && Inv(c, s, k) && !s.server.Gone?
    ensures Shift(c, s) == k
  {
    hide SenderOk, ReceiverOk, SentLen, Consumed, HeaderPrinted, Matches, PastMatches;
  }

  lemma ReachableShift(c: Config, s: State)
    requires ValidConfig(c) && Reachable(c, s) && !s.server.Gone?
    ensures Shift(c, s) >= 0 && Inv(c, s, Shift(c, s))
  {
    hide Reachable, Inv, Shift;
    var k := ReachableInv(c, s);
    ShiftIs(c, s, k);
  }

  lemma ServerStaysGone(c: Config, s: State, a: Action, k: nat, l: nat)
    requires ValidConfig(c) && Inv(c, s, k) && Enabled(c, s, a) && s.server.Gone? && !Apply(c, s, a).server.Gone?
    ensures NextShift(s, a, k) == NextShift(s, a, l)
  {
    if a.TakeMessage? { ReplyRead(s, FORCED_SOCKET_CLOSED); }
    hide Inv, EncodeHeader, EncodeMessage, ChunkStart, ChunkLen, NumChunks;
  }

  /** In every run, stale steps included, the count is conserved: refusals keep it however often they come, and
      only the steps that NextShift names set it anew. */
  lemma ShiftConserved(c: Config, s: State, a: Action)
    requires ValidConfig(c) && Reachable(c, s) && Enabled(c, s, a)
    requires !s.server.Gone? && !Apply(c, s, a).server.Gone?
    ensures 0 <= Shift(c, s) && Shift(c, Apply(c, s, a)) == NextShift(s, a, Shift(c, s))
  {
    hide Reachable, Inv, Shift, NextShift, Enabled, Apply;
    ReachableShift(c, s);
    StepShifts(c, s, Shift(c, s), a);
    ShiftIs(c, Apply(c, s, a), NextShift(s, a, Shift(c, s)));
  }

  /** A server thread that ended in the middle of a request leaves the count to the reconnect. */
  lemma ShiftAfterGone(c: Config, s: State, a: Action, l: nat)
    requires ValidConfig(c) && Reachable(c, s) && Enabled(c, s, a)
    requires s.server.Gone? && !Apply(c, s, a).server.Gone?
    ensures Shift(c, Apply(c, s, a)) == NextShift(s, a, l)
  {
    hide Reachable, Inv, Shift, NextShift, Enabled, Apply;
    var k := ReachableInv(c, s);
    StepShifts(c, s, k, a);
    ServerStaysGone(c, s, a, k, l);
    ShiftIs(c, Apply(c, s, a), NextShift(s, a, k));
  }

  /** In every run, whatever name and file bytes the server holds lie the shift too far in what is sent. */
  lemma ServedFrom(c: Config, s: State)
    requires ValidConfig(c) && Reachable(c, s) && !s.server.Gone?
    ensures 0 <= Shift(c, s)
    ensures s.server == ReadPath([]) ==>
              Shift(c, s) <= SentLen(c, s) <= |Stream(s.request)|
              && s.data == Stream(s.request)[Shift(c, s)..SentLen(c, s)]
    ensures s.server.ReadPath? ==> IsPiece(s.request, Shift(c, s), s.server.got)
    ensures s.server.Opening? || s.server.Writing? ==>
              |s.server.path| == |s.request.path| && IsPiece(s.request, Shift(c, s), s.server.path)
    ensures s.server.Writing? ==>
              IsPiece(s.request, Shift(c, s) + |s.request.path|, s.server.file + s.server.chunk)
  {
    ReachableShift(c, s);
    hide Reachable, Shift, SenderOk, SentLen, IsPiece, Stream, EncodeHeader, Agrees;
  }

  /** Without stale steps the next discard counts exactly the rejected bytes still on the channel between requests,
      and whenever the server starts a path it starts at the path's first byte. */
  lemma Resynchronised(c: Config, s: State)
    requires ValidConfig(c) && ReachableWithoutStale(c, s)
    ensures s.phase == Top ==> NextDiscard(s) == |s.data|
    ensures s.phase == Loading || s.phase == Ready ==> s.discard == |s.data|
    ensures s.server == ReadPath([]) ==>
              SentLen(c, s) <= |Stream(s.request)| && s.data == Stream(s.request)[..SentLen(c, s)]
    ensures s.server.ReadPath? ==> s.server.got <= s.request.path
    ensures s.server.Opening? || s.server.Writing? ==> s.server.path == s.request.path
    ensures s.server.Writing? ==> s.server.file + s.server.chunk <= s.request.data
  {
    WithoutStale(c, s);
    hide Reachable, ReachableWithoutStale, NamesTrue, SenderOk, SentLen, EncodeHeader, Agrees;
    if !s.server.Gone? { PiecesAtZero(c, s); }
  }

  lemma PiecesAtZero(c: Config, s: State)
    requires ValidConfig(c) && Inv(c, s, 0) && !s.server.Gone?
    ensures s.server == ReadPath([]) ==>
              SentLen(c, s) <= |Stream(s.request)| && s.data == Stream(s.request)[..SentLen(c, s)]
    ensures s.server.ReadPath? ==> s.server.got <= s.request.path
    ensures s.server.Opening? || s.server.Writing? ==> s.server.path == s.request.path
    ensures s.server.Writing? ==> s.server.file + s.server.chunk <= s.request.data
  {
    hide SenderOk, SentLen, EncodeHeader, Agrees;
    if s.server.Writing? {
      assert s.server.file + s.server.chunk
          == Stream(s.request)[|s.request.path|..|s.request.path| + |s.server.file + s.server.chunk|];
    }
  }

  /** Exactly the stale steps break the count: every other way back to the loop head keeps it. */
  lemma ResynchronisedExactly(c: Config, s: State, a: Action)
    requires ValidConfig(c) && ReachableWithoutStale(c, s) && Enabled(c, s, a) && Apply(c, s, a).phase == Top
    ensures NextDiscard(Apply(c, s, a)) == |Apply(c, s, a).data| <==> !Stale(s, a)
  {
    WithoutStale(c, s);
    hide Reachable, ReachableWithoutStale, Enabled, Apply, NextShift, Stale;
    StepShifts(c, s, 0, a);
    StaleExact(c, s, a);
  }

  // ---------------------------------------------------------------- integrity

  /** In every run: the i-th answer on a connection belongs to the i-th request handled there, and ACK_OK means that
      the path and bytes sent were written. They are those of the request its header was printed for unless a
      harmful load failed before the header was sent again. A refused name is the path sent if no step was stale,
      and otherwise bytes of the request that start too far in it. */
  lemma EndToEndIntegrity(c: Config, s: State, h: History, i: nat)
    requires ValidConfig(c) && Reachable(c, s)
    requires h == History(s.answers, s.log) || h in s.past
    requires i < |h.answers|
    ensures i < |h.log| && h.log[i].command == Code(h.answers[i].request.kind)
    ensures h.answers[i].flag == ACK_OK <==> h.log[i].ok
    ensures h.answers[i].flag == ACK_OK ==>
              h.log[i].path == h.answers[i].sent.path && h.log[i].content == h.answers[i].sent.data
    ensures h.answers[i].flag == ACK_OK || h.answers[i].flag == ACK_ERROR
    ensures exists shift: nat :: IsPiece(h.answers[i].sent, shift, h.log[i].path)
    ensures ReachableWithoutStale(c, s) ==> h.log[i].path == h.answers[i].sent.path
    ensures h.answers[i].intact ==> h.answers[i].sent == h.answers[i].request
    ensures |h.answers[i].sent.path| == |h.answers[i].request.path|
    ensures |h.answers[i].sent.data| == |h.answers[i].request.data|
  {
    var k := ReachableInv(c, s);
    if ReachableWithoutStale(c, s) { WithoutStale(c, s); }
    hide Reachable, ReachableWithoutStale, Stream;
    assert Matches(h);
    assert Agrees(h.answers[i], h.log[i]);
  }

  /** The steps after which the count is right whatever it was. */
  predicate Clears(s: State, a: Action) {
    NextShift(s, a, 1) == 0
  }

  /** No file or directory is acknowledged along the run. */
  predicate NothingAcknowledged(c: Config, s: State, steps: seq<Action>)
    requires ValidConfig(c) && Runs(c, s, steps)
    decreases |steps|
  {
    steps == [] ||
    (!(steps[0].TakeMessage? && s.phase.got[1] == ACK_OK)
     && NothingAcknowledged(c, Apply(c, s, steps[0]), steps[1..]))
  }

  predicate NeverCleared(c: Config, s: State, steps: seq<Action>)
    requires ValidConfig(c) && Runs(c, s, steps)
    decreases |steps|
  {
    steps == [] || (!Clears(s, steps[0]) && NeverCleared(c, Apply(c, s, steps[0]), steps[1..]))
  }

  /** Once the count is wrong it stays wrong, and nothing is acknowledged, until a reconnect after which the next
      discard is 0 (or the next file cannot be opened after a reconnect). */
  lemma {:induction false} NothingAcknowledgedShifted(c: Config, s: State, k: nat, steps: seq<Action>)
    requires ValidConfig(c) && Inv(c, s, k) && k > 0 && Runs(c, s, steps) && NeverCleared(c, s, steps)
    ensures NothingAcknowledged(c, s, steps) && ShiftAfter(c, s, k, steps) > 0
    decreases |steps|
  {
    hide Inv, Enabled, Apply, NextShift;
    if steps != [] {
      StepShifts(c, s, k, steps[0]);
      if steps[0].TakeMessage? { TakeMessageShifts(c, s, k); }
      ShiftStays(s, steps[0], k);
      NothingAcknowledgedShifted(c, Apply(c, s, steps[0]), NextShift(s, steps[0], k), steps[1..]);
    }
  }

  lemma ShiftStays(s: State, a: Action, k: nat)
    requires k > 0 && !Clears(s, a)
    ensures NextShift(s, a, k) > 0
  {
  }

  // ---------------------------------------------------------------- resending after breaks

  /** The daemon works on one request: header printed, being sent, or waiting to be resent. */
  ghost predicate InHand(s: State) {
    s.phase == Ready || Busy(s) || (s.phase == Top && s.resend)
  }

  ghost predicate HeldThroughout(c: Config, s: State, steps: seq<Action>)
    requires ValidConfig(c) && Runs(c, s, steps)
    decreases |steps|
  {
    InHand(s) && (steps == [] || HeldThroughout(c, Apply(c, s, steps[0]), steps[1..]))
  }

  /** A complete message is never an empty one; it finds the daemon at work, in mid-file only on a file. */
  lemma MessageFacts(c: Config, s: State, k: nat)
    requires ValidConfig(c) && Inv(c, s, k) && Enabled(c, s, TakeMessage)
    ensures s.phase.got[0] != 0 && !s.resend && (s.phase.Interrupted? ==> s.request.kind == File)
  {
    if s.server.Gone? { ReplyRead(s, FORCED_SOCKET_CLOSED); } else { ReplyLeavesRest(c, s, k); }
    hide ReceiverOk, Aligned, Agrees, HeaderPrinted, Quiescent, ChunkStart, ChunkLen, NumChunks, IsPiece;
  }

  lemma MessageReleases(c: Config, s: State, k: nat)
    requires ValidConfig(c) && Inv(c, s, k) && Enabled(c, s, TakeMessage)
    ensures var t := Apply(c, s, TakeMessage);
            && t.request == s.request && t.header == s.header && t.phase != Loading
            && (InHand(t) ==> NextShift(s, TakeMessage, k) == k)
  {
    hide Inv;
    MessageFacts(c, s, k);
  }

  /** While a request is in hand no other local client is accepted, its printed header stays, and the shift is
      what it was or, after a break, the printed discard. */
  lemma HeldStep(c: Config, s: State, k: nat, a: Action)
    requires ValidConfig(c) && Inv(c, s, k) && InHand(s) && Enabled(c, s, a)
    ensures var t := Apply(c, s, a);
            && t.request == s.request && t.header == s.header
            && t.phase != Loading && !a.Accept? && !a.Load?
            && (InHand(t) ==> NextShift(s, a, k) == if a.Break? then s.header.discard else k)
  {
    if a.TakeMessage? {
      MessageReleases(c, s, k);
      hide Inv, Enabled, Apply;
    } else if ServerAction(a) {
      ServerKeepsClient(c, s, a);
      hide Inv, Enabled, Apply;
    } else {
      assert s.phase == Ready ==> !s.resend;
      hide Inv;
      HeldDaemonStep(c, s, k, a);
    }
  }

  lemma HeldDaemonStep(c: Config, s: State, k: nat, a: Action)
    requires ValidConfig(c) && InHand(s) && Enabled(c, s, a) && !a.TakeMessage? && !ServerAction(a)
    requires s.phase == Ready ==> !s.resend
    ensures var t := Apply(c, s, a);
            && t.request == s.request && t.header == s.header
            && t.phase != Loading && !a.Accept? && !a.Load?
            && (InHand(t) ==> NextShift(s, a, k) == if a.Break? then s.header.discard else k)
  {
    hide EncodeHeader, ChunkLen, ChunkStart, NumChunks, Overwritten, Harmless, HeaderFits, HeaderTyped, ValidRequest,
         MessageWants, GoodMessage, MaySend, Waiting;
  }

  /** However often the connection breaks while a request printed with discard 0 is in hand, the
      connection of the moment carries that request's header, then its path and file from byte 0. */
  lemma {:induction false} ResendFromByteZero(c: Config, s: State, steps: seq<Action>)
    requires ValidConfig(c) && Inv(c, s, 0) && s.header.discard == 0
    requires Runs(c, s, steps) && HeldThroughout(c, s, steps)
    ensures var t := Exec(c, s, steps);
            && t.request == s.request && t.header == s.header && Inv(c, t, 0)
            && (Busy(t) && t.server.ReadHeader? && !Replied(t) ==>
                  t.server.got + t.command == EncodeHeader(HeaderFor(s.request, 0)))
            && (Busy(t) && !t.server.Gone? ==>
                  Consumed(c, t) <= SentLen(c, t) <= |Stream(s.request)|
                  && t.data == Stream(s.request)[Consumed(c, t)..SentLen(c, t)])
    decreases |steps|
  {
    if steps == [] {
      if Busy(s) && !s.server.Gone? { SentSinceByteZero(c, s); }
    } else {
      HeldStep(c, s, 0, steps[0]);
      StepShifts(c, s, 0, steps[0]);
      hide Inv, NextShift, Enabled, Apply, Busy, Replied, Consumed, SentLen, Stream, EncodeHeader, InHand;
      assert HeldThroughout(c, Apply(c, s, steps[0]), steps[1..]);
      HeldStart(c, Apply(c, s, steps[0]), steps[1..]);
      ResendFromByteZero(c, Apply(c, s, steps[0]), steps[1..]);
    }
  }

  lemma HeldStart(c: Config, s: State, steps: seq<Action>)
    requires ValidConfig(c) && Runs(c, s, steps) && HeldThroughout(c, s, steps)
    ensures InHand(s)
  {
  }

  lemma SentSinceByteZero(c: Config, s: State)
    requires ValidConfig(c) && Inv(c, s, 0) && Busy(s) && s.header.discard == 0 && !s.server.Gone?
    ensures s.server.ReadHeader? && !Replied(s) ==> s.server.got + s.command == EncodeHeader(HeaderFor(s.request, 0))
    ensures Consumed(c, s) <= SentLen(c, s) <= |Stream(s.request)|
    ensures s.data == Stream(s.request)[Consumed(c, s)..SentLen(c, s)]
  {
    hide SenderOk, EncodeHeader, Agrees, Consumed, SentLen;
  }

  /** A local client that goes away before its header is complete makes the daemon send the printed
      header again, whatever its answer was, and after it what file_attrs now yields. */
  lemma {:induction false} EarlyCloseRepeatsRequest(c: Config, s: State)
    requires ValidConfig(c) && Reachable(c, s) && s.phase == Loading && Enabled(c, s, Break)
    ensures var t := Apply(c, s, Break);
            && InHand(t) && t.request == s.request && ValidRequest(s.request)
            && Enabled(c, t, Retry) && !Enabled(c, t, Accept)
            && Apply(c, Apply(c, t, Retry), SendHeader).command
               == EncodeHeader(HeaderFor(s.printed, s.header.discard))
            && (s.intact ==> t.request == s.printed)
  {
    var k := ReachableInv(c, s);
    hide Reachable, EncodeHeader, HeaderFits;
    assert [] + EncodeHeader(s.header) == EncodeHeader(s.header);
    assert HeaderFor(s.printed, s.header.discard) == HeaderFor(s.request, s.header.discard);
  }

  // ---------------------------------------------------------------- overwritten requests

  /** A load that failed so far that the old header would send something of the new request. */
  predicate Harmful(printed: Request, a: Action) {
    (a.LoadFails? || a.CutLoad?) && !Harmless(printed, a.o)
  }

  lemma IntactStep(c: Config, s: State, a: Action)
    requires ValidConfig(c) && SentUnder(s.printed, s.request, s.intact) && Enabled(c, s, a) && !a.Load?
    ensures var t := Apply(c, s, a);
            && t.printed == s.printed && SentUnder(t.printed, t.request, t.intact)
            && (t.intact <==> s.intact && !Harmful(s.printed, a))
  {
    if ServerAction(a) {
      ServerKeepsClient(c, s, a);
      hide Enabled, Apply;
    } else {
      if Harmful(s.printed, a) || a.LoadFails? || a.CutLoad? { OverwrittenFits(s.request, a.o); }
      hide EncodeHeader, ChunkLen, ChunkStart, NumChunks, Overwritten;
    }
  }

  /** Until the next header is printed, `intact` says exactly that no harmful load has failed, and as long
      as none has the daemon would send the request the header was printed for. */
  lemma {:induction false} IntactExactly(c: Config, s: State, steps: seq<Action>)
    requires ValidConfig(c) && SentUnder(s.printed, s.request, s.intact) && Runs(c, s, steps)
    requires forall k :: 0 <= k < |steps| ==> !steps[k].Load?
    ensures var t := Exec(c, s, steps);
            && t.printed == s.printed && SentUnder(t.printed, t.request, t.intact)
            && (t.intact <==> s.intact && forall k :: 0 <= k < |steps| ==> !Harmful(s.printed, steps[k]))
    decreases |steps|
  {
    hide Enabled, Apply, Harmful, SentUnder;
    if steps != [] {
      IntactStep(c, s, steps[0]);
      IntactExactly(c, Apply(c, s, steps[0]), steps[1..]);
      assert forall k :: 1 <= k < |steps| ==> steps[k] == steps[1..][k - 1];
    }
  }

  /** Failed loads in which the same bytes arrived, whatever their values and the file named by them. */
  predicate SameExtent(o: Overwrite, p: Overwrite) {
    if o.Untouched? then p.Untouched? else p.Touched? && |o.got| == |p.got|
  }

  /** What the daemon sends under the old header when one local client's load fails (`cut`: with a forced
      reconnect) and the next client goes away at once. */
  function SentAgain(c: Config, s: State, o: Overwrite, cut: bool): Request
    requires ValidConfig(c) && s.phase == Loading && s.header.command != 0 && !s.resend && OverwriteFits(s.request, o)
    requires cut || o.Untouched? || o.got == []
  {
    Apply(c, Apply(c, Apply(c, s, if cut then CutLoad(o) else LoadFails(o)), Accept), Break).request
  }

  /** The repeated request is the one its header was printed for, whatever the failed load carried, if and
      only if the load was harmless: no source byte arrived, or the header announces no file bytes and no
      destination byte arrived or was announced. */
  lemma RepeatsExactly(c: Config, s: State, o: Overwrite, cut: bool)
    requires ValidConfig(c) && Reachable(c, s) && s.phase == Loading && s.header.command != 0 && s.intact
    requires OverwriteFits(s.request, o) && (cut || o.Untouched? || o.got == []) && !s.resend
    ensures Harmless(s.printed, o) <==>
              forall p :: SameExtent(o, p) && OverwriteFits(s.request, p) ==> SentAgain(c, s, p, cut) == s.printed
  {
    var k := ReachableInv(c, s);
    hide Reachable, Inv;
    forall p | SameExtent(o, p) && OverwriteFits(s.request, p) && Harmless(s.printed, o)
      ensures SentAgain(c, s, p, cut) == s.printed
    {
      OverwrittenFits(s.request, p);
    }
    if !Harmless(s.printed, o) {
      var p := Another(s.request, o);
      assert SentAgain(c, s, p, cut) == Overwritten(s.request, p) != s.printed;
    }
  }

  /** Bytes that differ from the given ones in every place. */
  function Others(bytes: seq<Byte>): (r: seq<Byte>)
    ensures |r| == |bytes| && forall i :: 0 <= i < |r| ==> r[i] != bytes[i]
  {
    seq(|bytes|, i requires 0 <= i < |bytes| => if bytes[i] == 0 then 1 else 0)
  }

  lemma Another(r: Request, o: Overwrite) returns (p: Overwrite)
    requires OverwriteFits(r, o) && !Harmless(r, o)
    ensures SameExtent(o, p) && OverwriteFits(r, p) && Overwritten(r, p) != r
  {
    var n := if |o.got| < |r.path| then |o.got| else |r.path|;
    p := Touched(Others(r.data), Others(r.path[..n]) + o.got[n..]);
    if r.data != [] {
      assert Overwritten(r, p).data[0] != r.data[0];
    } else {
      assert Overlay(p.got, r.path)[0] == Others(r.path[..n])[0] != r.path[0];
    }
  }
}

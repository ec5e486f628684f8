/** What a wrong count leads to: the server takes the next request's bytes for junk. */
module ProtocolStale {
  import opened Bytes
  import opened Headers
  import opened Messages
  import opened Chunks
  import opened Protocol
  import opened ProtocolInvariant
  import opened ProtocolSteps
  import opened ProtocolTheorems
  import opened ProtocolProgress

  /** The server gives the request up: the file system refuses the name or fails, or the name contains "../". */
  predicate Refusal(a: Action) {
    a.Rejected? || a.BadPath? || a.WriteFails?
  }

  /** The server opens nothing but a name that lies `d` bytes too far in the request, and what it stores there
      misses that many bytes. */
  ghost predicate Misnamed(t: State, r: Request, d: nat) {
    && (t.server.Opening? || t.server.Writing? ==>
          d <= |r.data| && d + |r.path| <= |Stream(r)| && t.server.path == Stream(r)[d..d + |r.path|])
    && (t.server.Writing? ==>
          t.server.file + t.server.chunk <= Stream(r)[d + |r.path|..]
          && |t.server.file + t.server.chunk| <= |r.data| - d)
  }

  lemma PieceIs(r: Request, from: nat, piece: seq<Byte>)
    requires IsPiece(r, from, piece)
    ensures from + |piece| <= |Stream(r)| && piece == Stream(r)[from..from + |piece|] && piece <= Stream(r)[from..]
  {
  }

  lemma ShiftedIsMisnamed(c: Config, s: State, k: nat)
    requires ValidConfig(c) && Inv(c, s, k)
    ensures Misnamed(s, s.request, k)
  {
    hide SenderOk, Aligned, EncodeHeader, Agrees, ReplyHasFlag, HeaderPrinted, ChunkStart, ChunkLen, NumChunks, IsPiece,
         Stream;
    if s.server.Opening? || s.server.Writing? { PieceIs(s.request, k, s.server.path); }
    if s.server.Writing? { PieceIs(s.request, k + |s.request.path|, s.server.file + s.server.chunk); }
  }

  /** A server that reads too far in a request records no success. */
  lemma NoSuccessShifted(c: Config, s: State, k: nat, a: Action)
    requires ValidConfig(c) && Inv(c, s, k) && k > 0 && Enabled(c, s, a) && ServerAction(a)
    ensures forall i :: |s.log| <= i < |Apply(c, s, a).log| ==> !Apply(c, s, a).log[i].ok
  {
    StepShifts(c, s, k, a);
    ServerMovesEarly(c, s, k, a);
    ServerKeepsClient(c, s, a);
    LogGrows(c, s, a);
    hide Enabled, Apply;
    SuccessIsAligned(c, Apply(c, s, a), k);
  }

  lemma SuccessIsAligned(c: Config, t: State, k: nat)
    requires ValidConfig(c) && Inv(c, t, k) && Busy(t) && k > 0
    ensures |t.answers| <= |t.log| <= |t.answers| + 1
    ensures |t.log| == |t.answers| + 1 ==> !t.log[|t.answers|].ok
  {
    hide SenderOk, Aligned, EncodeHeader, Agrees, ReplyHasFlag, HeaderPrinted, IsPiece, ChunkStart, ChunkLen, NumChunks;
  }

  /** In every run, on every request of a connection whose count is wrong, however many were refused before: the
      server opens only a name cut out of path and payload, what it stores there misses the shift at its end, and it
      records no success. */
  lemma StaleDiscardMisnames(c: Config, s: State, a: Action)
    requires ValidConfig(c) && Reachable(c, s) && !s.server.Gone? && Shift(c, s) > 0
    requires Enabled(c, s, a) && ServerAction(a)
    ensures Misnamed(s, s.request, Shift(c, s))
    ensures forall i :: |s.log| <= i < |Apply(c, s, a).log| ==> !Apply(c, s, a).log[i].ok
  {
    hide Reachable, Inv, Shift, Enabled, Apply, Misnamed;
    ReachableShift(c, s);
    ShiftedIsMisnamed(c, s, Shift(c, s));
    NoSuccessShifted(c, s, Shift(c, s), a);
  }

  // ---------------------------------------------------------------- requests that are never answered

  lemma AnswersOnlyWhenDone(c: Config, s: State, a: Action)
    requires ValidConfig(c) && Enabled(c, s, a) && ServerAction(a) && !Refusal(a)
    ensures var t := Apply(c, s, a);
            t.acks == s.acks || (|t.log| == |s.log| + 1 && t.log[|s.log|].ok)
  {
    hide EncodeMessage, EncodeHeader, ParseHeader, NumChunks, ChunkLen, Sendable, HeaderWants, MessageWants,
         ValidRequest, HeaderFits, HeaderTyped, ChunkStart, GoodMessage, OverwriteFits, Overwritten, MidChunk, MaySend,
         Waiting, AtChunkWrite, TakeMessageStep, Restart;
  }

  lemma NoReplyWithoutBytes(c: Config, t: State, k: nat)
    requires ValidConfig(c) && Inv(c, t, k) && Busy(t) && Received(t) == [] && t.acks == []
    ensures !Replied(t)
  {
    hide SenderOk, Aligned, EncodeHeader, Agrees, HeaderPrinted, IsPiece, ChunkStart, ChunkLen, NumChunks;
    assert [] + t.acks == [];
  }

  lemma ServerStaysSilent(c: Config, s: State, k: nat, a: Action)
    requires ValidConfig(c) && Inv(c, s, k) && k > 0 && Busy(s) && Enabled(c, s, a) && ServerAction(a) && !Refusal(a)
    ensures !Replied(Apply(c, s, a))
  {
    hide Inv, Enabled, Apply;
    ServerSide(c, s, k, a);
    ServerKeepsClient(c, s, a);
    AnswersOnlyWhenDone(c, s, a);
    NoSuccessShifted(c, s, k, a);
    StepShifts(c, s, k, a);
    NoReplyWithoutBytes(c, Apply(c, s, a), k);
  }

  lemma DaemonLeavesServer(c: Config, s: State, k: nat, a: Action)
    requires ValidConfig(c) && Inv(c, s, k) && Busy(s) && !Replied(s) && Enabled(c, s, a)
    requires ProgramStep(a) && !ServerAction(a)
    ensures var t := Apply(c, s, a);
            t.server == s.server && t.log == s.log && t.answers == s.answers && Busy(t) && NextShift(s, a, k) == k
  {
    UnrepliedPhase(c, s, k);
    hide Inv, EncodeHeader, ChunkStart, ChunkLen, NumChunks;
  }

  lemma RefusalNeedsName(c: Config, s: State, a: Action)
    requires ValidConfig(c) && Enabled(c, s, a) && Refusal(a)
    ensures (s.server.Opening? || s.server.Writing?) && ServerAction(a)
  {
  }

  lemma ShiftedStep(c: Config, s: State, k: nat, a: Action)
    requires ValidConfig(c) && Inv(c, s, k) && k > 0 && Busy(s) && !Replied(s)
    requires Enabled(c, s, a) && ProgramStep(a) && (Refusal(a) ==> |s.request.data| < k)
    ensures var t := Apply(c, s, a);
            && Inv(c, t, k) && Busy(t) && !Replied(t) && t.answers == s.answers
            && t.request == s.request && t.header == s.header
  {
    hide Inv, Enabled, Apply;
    StepShifts(c, s, k, a);
    HeldStep(c, s, k, a);
    if Refusal(a) {
      RefusalNeedsName(c, s, a);
      ShiftedIsMisnamed(c, s, k);
    }
    if ServerAction(a) {
      ServerKeepsClient(c, s, a);
      ServerStaysSilent(c, s, k, a);
    } else {
      DaemonLeavesServer(c, s, k, a);
    }
  }

  /** Nothing the two programs do ever answers a shifted request; only a refusal does, and a request whose file is
      shorter than the shift not even that. */
  lemma {:induction false} ShiftedForever(c: Config, s: State, k: nat, steps: seq<Action>)
    requires ValidConfig(c) && Inv(c, s, k) && k > 0 && Busy(s) && !Replied(s) && Runs(c, s, steps)
    requires forall i :: 0 <= i < |steps| ==> ProgramStep(steps[i]) && (Refusal(steps[i]) ==> |s.request.data| < k)
    ensures var t := Exec(c, s, steps);
            && Inv(c, t, k) && Busy(t) && !Replied(t) && t.answers == s.answers
            && t.request == s.request && t.header == s.header
    decreases |steps|
  {
    hide Inv, Enabled, Apply, Busy, Replied;
    if steps != [] {
      ShiftedStep(c, s, k, steps[0]);
      ShiftedForever(c, Apply(c, s, steps[0]), k, steps[1..]);
    }
  }

  /** A local client's request taken from the head of the loop to its header on the wire. */
  function Submit(c: Config, t: State, r: Request): State
    requires ValidConfig(c) && t.phase == Top && !t.resend && Enabled(c, t.(phase := Loading), Load(r))
  {
    Apply(c, Apply(c, Apply(c, t, Accept), Load(r)), SendHeader)
  }

  function Resubmit(c: Config, t: State): State
    requires ValidConfig(c) && t.phase == Top && t.resend
  {
    Apply(c, Apply(c, t, Retry), SendHeader)
  }

  /** The state after the sending of the next request's header. */
  ghost predicate SentFrom(c: Config, t: State, r: Request, u: State)
    requires ValidConfig(c)
  {
    && t.phase == Top
    && (!t.resend ==> Enabled(c, t.(phase := Loading), Load(r)))
    && (t.resend ==> r == t.request)
    && u == if t.resend then Resubmit(c, t) else Submit(c, t, r)
  }

  lemma SentShift(c: Config, t: State, k: nat, r: Request, u: State)
    requires ValidConfig(c) && Inv(c, t, k) && SentFrom(c, t, r, u)
    ensures Inv(c, u, k) && Busy(u) && !Replied(u) && u.request == r && u.answers == t.answers
    ensures k == NextDiscard(t) - |t.data|
  {
    assert !u.server.Gone? && |u.log| == |u.answers| && u.request == r && u.answers == t.answers && Busy(u) by {
      hide EncodeHeader, HeaderFits, HeaderTyped;
    }
    hide EncodeHeader, HeaderFits, HeaderTyped, Agrees, Matches, PastMatches, HeaderPrinted;
    if t.resend {
      LoadKeeps(c, t, k, Retry);
      SendHeaderKeeps(c, Apply(c, t, Retry), k);
    } else {
      LoadKeeps(c, t, k, Accept);
      LoadKeeps(c, Apply(c, t, Accept), k, Load(r));
      SendHeaderKeeps(c, Apply(c, Apply(c, t, Accept), Load(r)), k);
    }
  }

  /** Whenever the count is wrong at the head of the loop, as after every stale step: a request whose file is shorter
      than the difference is never answered and its path never read to the end, however the two programs continue. */
  lemma StaleDiscardHangs(c: Config, t: State, r: Request, u: State, steps: seq<Action>)
    requires ValidConfig(c) && Reachable(c, t) && SentFrom(c, t, r, u)
    requires |r.data| < NextDiscard(t) - |t.data|
    requires Runs(c, u, steps) && forall i :: 0 <= i < |steps| ==> ProgramStep(steps[i])
    ensures var v := Exec(c, u, steps);
            Busy(v) && v.answers == t.answers && !v.server.Opening? && !v.server.Writing?
  {
    var k := ReachableInv(c, t);
    SentShift(c, t, k, r, u);
    hide Inv, Reachable, SentFrom, Enabled, Apply, NextDiscard, Busy, Replied, Exec, Runs;
    ShiftedForever(c, u, k, steps);
    ShiftedIsMisnamed(c, Exec(c, u, steps), k);
  }

  /** A longer one is answered only by a refusal. */
  lemma OnlyRefused(c: Config, t: State, r: Request, u: State, steps: seq<Action>)
    requires ValidConfig(c) && Reachable(c, t) && SentFrom(c, t, r, u) && NextDiscard(t) > |t.data|
    requires Runs(c, u, steps) && forall i :: 0 <= i < |steps| ==> ProgramStep(steps[i]) && !Refusal(steps[i])
    ensures Busy(Exec(c, u, steps)) && Exec(c, u, steps).answers == t.answers
  {
    var k := ReachableInv(c, t);
    SentShift(c, t, k, r, u);
    hide Inv, Reachable, SentFrom, Enabled, Apply, NextDiscard, Busy, Replied, Exec, Runs;
    ShiftedForever(c, u, k, steps);
  }

  /** After every stale step the count is wrong. */
  lemma StaleStepShifts(c: Config, s: State, a: Action)
    requires ValidConfig(c) && ReachableWithoutStale(c, s) && Enabled(c, s, a) && Stale(s, a)
    ensures var t := Apply(c, s, a); t.phase == Top && NextDiscard(t) > |t.data|
  {
    WithoutStale(c, s);
    StaleExact(c, s, a);
    ShiftSetAtTop(c, s, 0, a);
    StepShifts(c, s, 0, a);
    hide Reachable, ReachableWithoutStale, Enabled, Apply, NextShift, Stale;
  }
}

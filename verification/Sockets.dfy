/** libs/libllncp.c over sockets whose calls transfer any nonempty part of what is asked for. */
module Sockets {
  import opened Bytes
  import opened Headers
  import opened Messages
  import opened Chunks

  /** Overrun: the source writes past its message buffer, and nothing more is said. */
  datatype Status = Success | SocketClosed | TooLong | Overrun

  /** `s` with `bytes` written over it from position `at` on. */
  function Spliced(s: seq<Byte>, at: nat, bytes: seq<Byte>): (r: seq<Byte>)
    requires at + |bytes| <= |s|
    ensures |r| == |s|
  {
    s[..at] + bytes + s[at + |bytes|..]
  }

  /** One end of a stream: what will still arrive before the peer closes, and what was accepted for sending. What the
      network does is recorded: sends that failed, and answers of select that it may not be written or read. */
  class Socket {
    var incoming: seq<Byte>
    var outgoing: seq<Byte>
    ghost var failures: nat
    ghost var full: nat
    ghost var quiet: nat

    constructor (incoming: seq<Byte>)
      ensures this.incoming == incoming && outgoing == [] && failures == 0 && full == 0 && quiet == 0
    {
      this.incoming := incoming;
      outgoing := [];
      failures, full, quiet := 0, 0, 0;
    }

    /** recv: 0 when the peer has closed, otherwise between one byte and what was asked for. */
    method Recv(buffer: array<Byte>, at: nat, max: nat) returns (n: nat)
      requires at + max <= buffer.Length && max > 0
      modifies this`incoming, buffer
      ensures n <= max && n <= |old(incoming)| && (n == 0 <==> old(incoming) == [])
      ensures incoming == old(incoming)[n..]
      ensures buffer[..] == Spliced(old(buffer[..]), at, old(incoming)[..n])
    {
      if incoming == [] { return 0; }
      n :| 1 <= n <= max && n <= |incoming|;
      forall k | 0 <= k < n { buffer[at + k] := incoming[k]; }
      incoming := incoming[n..];
    }

    /** send: a failure, or between one byte and what was offered. */
    method Send(buffer: array<Byte>, at: nat, max: nat) returns (ok: bool, n: nat)
      requires at + max <= buffer.Length && max > 0
      modifies this`outgoing, this`failures
      ensures ok ==> 1 <= n <= max
      ensures !ok ==> n == 0
      ensures failures == old(failures) + if ok then 0 else 1
      ensures outgoing == old(outgoing) + buffer[at..at + n]
    {
      ok := *;
      n := 0;
      if ok { n :| 1 <= n <= max; } else { failures := failures + 1; }
      outgoing := outgoing + buffer[at..at + n];
    }

    /** send of a few bytes, which goes through whole or fails. */
    method Post(buffer: array<Byte>, n: nat) returns (ok: bool)
      requires n <= buffer.Length
      modifies this`outgoing, this`failures
      ensures failures == old(failures) + if ok then 0 else 1
      ensures outgoing == old(outgoing) + if ok then buffer[..n] else []
    {
      ok := *;
      if ok { outgoing := outgoing + buffer[..n]; } else { failures := failures + 1; }
    }
  }

  /** select on a socket to write and two to read; `readable` is about the first reader. */
  method Select(write: Socket, first: Socket, second: Socket) returns (writable: bool, readable: bool)
    modifies write`full, first`quiet
    ensures write.full == old(write.full) + if writable then 0 else 1
    ensures first.quiet == old(first.quiet) + if writable || readable then 0 else 1
  {
    writable, readable := *, *;
    if !writable {
      write.full := write.full + 1;
      if !readable { first.quiet := first.quiet + 1; }
    }
  }

  method Strnlen(s: array<Byte>, from: nat, max: nat) returns (n: nat)
    requires from <= s.Length
    ensures n == StrnLen(s[from..], max)
  {
    n := 0;
    while n < max && from + n < s.Length && s[from + n] != 0
      invariant n <= max && from + n <= s.Length
      invariant StrnLen(s[from..], max) == n + StrnLen(s[from + n..], max - n)
    {
      assert s[from + n..][1..] == s[from + n + 1..];
      n := n + 1;
    }
  }

  /** Splicing two received pieces one behind the other is splicing their concatenation. */
  lemma SpliceAgain(was: seq<Byte>, at: nat, stream: seq<Byte>, got: nat, n: nat)
    requires got + n <= |stream| && at + got + n <= |was|
    ensures Spliced(Spliced(was, at, stream[..got]), at + got, stream[got..][..n])
         == Spliced(was, at, stream[..got + n])
    ensures stream[got..][n..] == stream[got + n..]
  {
    assert stream[..got + n] == stream[..got] + stream[got..][..n];
  }

  lemma SpliceNothing(was: seq<Byte>, at: nat)
    requires at <= |was|
    ensures Spliced(was, at, []) == was
  {
  }

  /** Any fragmentation of the stream delivers exactly the first `bytes` bytes, or the peer has closed. */
  method RecvBytes(buffer: array<Byte>, at: nat, socket: Socket, bytes: nat) returns (status: Status)
    requires at + bytes <= buffer.Length
    modifies socket`incoming, buffer
    ensures status == (if bytes <= |old(socket.incoming)| then Success else SocketClosed)
    ensures status == Success ==>
              && socket.incoming == old(socket.incoming)[bytes..]
              && buffer[..] == Spliced(old(buffer[..]), at, old(socket.incoming)[..bytes])
    ensures status == SocketClosed ==>
              socket.incoming == [] && buffer[..] == Spliced(old(buffer[..]), at, old(socket.incoming))
  {
    hide Spliced;
    ghost var was, stream := buffer[..], socket.incoming;
    SpliceNothing(was, at);
    assert stream[..0] == [];
    var received := 0;
    while received < bytes
      invariant received <= bytes && received <= |stream|
      invariant socket.incoming == stream[received..]
      invariant buffer[..] == Spliced(was, at, stream[..received])
    {
      var n := socket.Recv(buffer, at + received, bytes - received);
      SpliceAgain(was, at, stream, received, n);
      if n == 0 {
        assert stream[..received] == stream;
        return SocketClosed;
      }
      received := received + n;
    }
    return Success;
  }

  /** A send that does not fail accepts all the bytes, in order; the call fails exactly when a send does. */
  method SendBytes(buffer: array<Byte>, at: nat, socket: Socket, bytes: nat) returns (status: Status, ghost sent: nat)
    requires at + bytes <= buffer.Length
    modifies socket`outgoing, socket`failures
    ensures status == (if socket.failures == old(socket.failures) then Success else SocketClosed)
    ensures socket.failures >= old(socket.failures)
    ensures status == Success ==> sent == bytes
    ensures sent <= bytes && socket.outgoing == old(socket.outgoing) + buffer[..][at..at + sent]
  {
    var k := 0;
    sent := 0;
    while k < bytes
      invariant sent == k <= bytes && socket.failures == old(socket.failures)
      invariant socket.outgoing == old(socket.outgoing) + buffer[..][at..at + k]
    {
      var ok, n := socket.Send(buffer, at + k, bytes - k);
      assert buffer[..][at..at + k] + buffer[at + k..at + k + n] == buffer[..][at..at + k + n];
      if !ok { return SocketClosed, sent; }
      k, sent := k + n, k + n;
    }
    return Success, sent;
  }

  // ---------------------------------------------------------------- paths

  /** Where round `i` of send_path starts: rounds advance b-1 bytes but send b bytes each. */
  function RoundAt(b: nat, i: nat): nat
    requires b >= 2
  {
    (b - 1) * i
  }

  lemma RoundGrows(b: nat, i: nat)
    requires b >= 2
    ensures RoundAt(b, i + 1) == RoundAt(b, i) + b - 1
    ensures (i + 1) * b == i * b + b
  {
  }

  /** The full rounds of send_path. */
  function PathRounds(path: seq<Byte>, b: nat, rounds: nat): (s: seq<Byte>)
    requires b >= 2 && (rounds > 0 ==> RoundAt(b, rounds - 1) + b <= |path|)
    ensures |s| == rounds * b
  {
    if rounds == 0 then [] else
    if rounds == 1 then path[RoundAt(b, 0)..RoundAt(b, 0) + b] else
    RoundGrows(b, rounds - 2); RoundGrows(b, rounds - 1);
    PathRounds(path, b, rounds - 1) + path[RoundAt(b, rounds - 1)..RoundAt(b, rounds - 1) + b]
  }

  predicate PathReadable(path: seq<Byte>, len: nat, b: nat) {
    b >= 2 && len <= |path| && (len >= b - 1 ==> len < |path|)
  }

  /** How many full rounds send_path runs, and how many bytes it sends after them. */
  function Rounds(len: nat, b: nat): nat
    requires b >= 2
  {
    len / (b - 1)
  }

  function Remaining(len: nat, b: nat): (r: nat)
    requires b >= 2
    ensures r <= len
  {
    len % (b - 1)
  }

  lemma RoundsFit(path: seq<Byte>, len: nat, b: nat, rounds: nat)
    requires PathReadable(path, len, b) && 0 < rounds <= Rounds(len, b)
    ensures RoundAt(b, rounds - 1) + b <= |path|
  {
    ChunkStep(b - 1, len, rounds - 1);
    assert RoundAt(b, rounds - 1) == ChunkStart(b - 1, len, rounds - 1);
  }

  /** All send_path puts on the wire for a path of `len` bytes and buffer size `b`. */
  function PathWire(path: seq<Byte>, len: nat, b: nat): seq<Byte>
    requires PathReadable(path, len, b)
  {
    var rounds, last := Rounds(len, b), path[len - Remaining(len, b)..len];
    if rounds > 0 then RoundsFit(path, len, b, rounds); PathRounds(path, b, rounds) + last else last
  }

  /** send_path sends exactly the path exactly when no full round runs: a length below b-1. */
  lemma {:induction false} PathWireExact(path: seq<Byte>, len: nat, b: nat)
    requires PathReadable(path, len, b)
    ensures |PathWire(path, len, b)| == len + len / (b - 1)
    ensures PathWire(path, len, b) == path[..len] <==> len < b - 1
  {
    DivMod(b - 1, len);
    DivZero(b - 1, len);
    RoundLength(b, Rounds(len, b));
    hide PathRounds;
  }

  lemma RoundLength(b: nat, r: nat)
    requires b > 0
    ensures r * b == r * (b - 1) + r
  {
  }

  /** What is on the wire grows by the next round. */
  lemma NextRound(wire: seq<Byte>, path: seq<Byte>, b: nat, i: nat)
    requires b >= 2 && RoundAt(b, i) + b <= |path| && (i > 0 ==> RoundAt(b, i - 1) + b <= |path|)
    ensures wire + PathRounds(path, b, i) + path[RoundAt(b, i)..RoundAt(b, i) + b] == wire + PathRounds(path, b, i + 1)
  {
    assert PathRounds(path, b, i + 1) == PathRounds(path, b, i) + path[RoundAt(b, i)..RoundAt(b, i) + b];
    hide PathRounds;
  }

  lemma PathWireParts(wire: seq<Byte>, path: seq<Byte>, len: nat, b: nat)
    requires PathReadable(path, len, b)
    requires Rounds(len, b) > 0 ==> RoundAt(b, Rounds(len, b) - 1) + b <= |path|
    ensures wire + PathRounds(path, b, Rounds(len, b)) + path[len - Remaining(len, b)..len]
         == wire + PathWire(path, len, b)
  {
    hide PathRounds, RoundAt, Rounds, Remaining;
    var rounds, last := PathRounds(path, b, Rounds(len, b)), path[len - Remaining(len, b)..len];
    if Rounds(len, b) == 0 { NoRounds(path, b); }
    assert wire + rounds + last == wire + (rounds + last);
  }

  lemma NoRounds(path: seq<Byte>, b: nat)
    requires b >= 2
    ensures PathRounds(path, b, 0) == []
  {
  }

  /** One more round of which `sent` bytes went out is a prefix of all that goes on the wire. */
  lemma PartOfRound(path: seq<Byte>, len: nat, b: nat, i: nat, sent: nat)
    requires PathReadable(path, len, b) && i < Rounds(len, b) && sent <= b
    requires RoundAt(b, i) + b <= |path| && (i > 0 ==> RoundAt(b, i - 1) + b <= |path|)
    ensures PathRounds(path, b, i) + path[RoundAt(b, i)..RoundAt(b, i) + sent] <= PathWire(path, len, b)
  {
    RoundsFit(path, len, b, Rounds(len, b));
    RoundsGrow(path, b, i + 1, Rounds(len, b));
    assert PathRounds(path, b, i + 1) == PathRounds(path, b, i) + path[RoundAt(b, i)..RoundAt(b, i) + b];
    assert path[RoundAt(b, i)..RoundAt(b, i) + sent] <= path[RoundAt(b, i)..RoundAt(b, i) + b];
    hide PathRounds, RoundAt, Rounds, Remaining;
  }

  lemma {:induction false} RoundsGrow(path: seq<Byte>, b: nat, i: nat, j: nat)
    requires b >= 2 && 0 < i <= j && RoundAt(b, j - 1) + b <= |path|
    ensures RoundAt(b, i - 1) + b <= |path| && PathRounds(path, b, i) <= PathRounds(path, b, j)
    decreases j - i
  {
    if i < j {
      RoundGrows(b, j - 2);
      RoundsGrow(path, b, i, j - 1);
      assert PathRounds(path, b, j) == PathRounds(path, b, j - 1) + path[RoundAt(b, j - 1)..RoundAt(b, j - 1) + b];
      hide PathRounds, RoundAt;
    }
  }

  lemma PartOfRest(path: seq<Byte>, len: nat, b: nat, sent: nat)
    requires PathReadable(path, len, b) && sent <= Remaining(len, b)
    requires Rounds(len, b) > 0 ==> RoundAt(b, Rounds(len, b) - 1) + b <= |path|
    ensures var at := len - Remaining(len, b);
            PathRounds(path, b, Rounds(len, b)) + path[at..at + sent] <= PathWire(path, len, b)
  {
    if Rounds(len, b) == 0 { NoRounds(path, b); }
    hide PathRounds, RoundAt, Rounds, Remaining;
    var at := len - Remaining(len, b);
    assert path[at..at + sent] <= path[at..len];
  }

  /** send_path fails exactly when a send does, and what it sent is always a first part of the same bytes. */
  method SendPath(path: array<Byte>, socket: Socket, len: nat, b: nat) returns (status: Status)
    requires PathReadable(path[..], len, b)
    modifies socket`outgoing, socket`failures
    ensures status == (if socket.failures == old(socket.failures) then Success else SocketClosed)
    ensures socket.failures >= old(socket.failures)
    ensures old(socket.outgoing) <= socket.outgoing <= old(socket.outgoing) + PathWire(path[..], len, b)
    ensures status == Success ==> socket.outgoing == old(socket.outgoing) + PathWire(path[..], len, b)
  {
    hide PathRounds, RoundAt, PathWire, Rounds, Remaining;
    var remaining, rounds := Remaining(len, b), Rounds(len, b);
    ghost var sent, start := 0, socket.outgoing;
    NoRounds(path[..], b);
    if rounds > 0 { RoundsFit(path[..], len, b, rounds); }
    for i := 0 to rounds
      invariant i > 0 ==> RoundAt(b, i - 1) + b <= path.Length
      invariant socket.outgoing == start + PathRounds(path[..], b, i) && socket.failures == old(socket.failures)
    {
      RoundsFit(path[..], len, b, i + 1);
      status, sent := SendBytes(path, RoundAt(b, i), socket, b);
      if status != Success {
        PartOfRound(path[..], len, b, i, sent);
        Appended(start, PathRounds(path[..], b, i), path[..][RoundAt(b, i)..RoundAt(b, i) + sent],
                 PathWire(path[..], len, b));
        return;
      }
      NextRound(start, path[..], b, i);
    }
    status := Success;
    PathWireParts(start, path[..], len, b);
    if remaining > 0 {
      status, sent := SendBytes(path, len - remaining, socket, remaining);
      PartOfRest(path[..], len, b, sent);
      Appended(start, PathRounds(path[..], b, rounds), path[..][len - remaining..len - remaining + sent],
               PathWire(path[..], len, b));
    }
  }

  lemma Appended(start: seq<Byte>, a: seq<Byte>, b: seq<Byte>, whole: seq<Byte>)
    requires a + b <= whole
    ensures start <= start + a + b <= start + whole
  {
    assert start + a + b == start + (a + b);
  }

  /** load_path: a path too long is left alone; of one cut short the buffer has what came. */
  method LoadPathInto(pathLen: nat, socket: Socket, path: array<Byte>) returns (status: Status)
    requires path.Length == PATH_MAX
    modifies socket`incoming, path
    ensures status == if pathLen > PATH_MAX then TooLong
                      else if |old(socket.incoming)| < pathLen then SocketClosed else Success
    ensures status == TooLong ==> socket.incoming == old(socket.incoming) && path[..] == old(path[..])
    ensures status == SocketClosed ==>
              socket.incoming == [] && path[..] == Spliced(old(path[..]), 0, old(socket.incoming))
    ensures status == Success ==>
              && LoadPath(old(socket.incoming), pathLen) == Loaded(path[..pathLen], socket.incoming)
              && path[..] == Spliced(old(path[..]), 0, old(socket.incoming)[..pathLen])
  {
    if pathLen > PATH_MAX { return TooLong; }
    status := RecvBytes(path, 0, socket, pathLen);
    assert status == Success ==> path[..pathLen] == old(socket.incoming)[..pathLen];
  }

  // ---------------------------------------------------------------- messages

  /** strcpy and memcpy into a buffer. */
  method Put(buffer: array<Byte>, at: nat, bytes: seq<Byte>)
    requires at + |bytes| <= buffer.Length
    modifies buffer
    ensures buffer[..] == Spliced(old(buffer[..]), at, bytes)
  {
    forall k | 0 <= k < |bytes| { buffer[at + k] := bytes[k]; }
  }

  /** The C string at the start of a buffer, as far as send_message looks for its end. */
  function Text(buffer: seq<Byte>): (t: seq<Byte>)
    ensures t <= buffer && forall k :: 0 <= k < |t| ==> t[k] != 0
  {
    buffer[..StrnLen(buffer, MESSAGE_BUFFERSIZE)]
  }

  /** One blocking send of the whole message, built in a buffer of MESSAGE_BUFFERSIZE bytes. It fails exactly when the
      send does. */
  method SendMessage(socket: Socket, flag: Byte, message: array<Byte>) returns (status: Status)
    requires |Text(message[..])| < message.Length || message.Length == MESSAGE_BUFFERSIZE
    modifies socket`outgoing, socket`failures
    ensures status == if |Text(message[..])| > 252 then Overrun
                      else if socket.failures == old(socket.failures) then Success else SocketClosed
    ensures status == Overrun ==> socket.failures == old(socket.failures)
    ensures old(socket.failures) <= socket.failures <= old(socket.failures) + 1
    ensures |Text(message[..])| <= 252 ==> Sendable(Message(flag, Text(message[..])))
    ensures socket.outgoing == old(socket.outgoing)
                               + if status == Success then EncodeMessage(Message(flag, Text(message[..]))) else []
  {
    var buf := new Byte[MESSAGE_BUFFERSIZE];
    var len := Strnlen(message, 0, MESSAGE_BUFFERSIZE);
    assert message[0..] == message[..];
    ghost var text := message[..len];
    if len > 252 { return Overrun; }
    var total := len;
    if len == 0 {
      total := total + 2;
    } else {
      Put(buf, 2, message[..len + 1]);
      assert message[..len + 1] == text + [0];
      total := total + 3;
    }
    buf[0] := total;
    buf[1] := flag;
    assert buf[..total] == EncodeMessage(Message(flag, text));
    hide EncodeMessage, StrnLen;
    var ok := socket.Post(buf, total);
    return if ok then Success else SocketClosed;
  }

  method ReceiveMessage(socket: Socket, message: array<Byte>) returns (status: Status, flag: Byte)
    requires message.Length == MESSAGE_BUFFERSIZE
    modifies socket`incoming, message
    ensures match LoadMessage(old(socket.incoming))
            case Loaded(m, rest) => status == Success && flag == m.0 && socket.incoming == rest
            case _ => status == SocketClosed
    ensures message[..] == Spliced(old(message[..]), 0, TextArrived(old(socket.incoming)))
  {
    var header := new Byte[2];
    ghost var stream := socket.incoming;
    header[0], header[1] := 0, ACK_ERROR;
    flag := header[1];
    status := RecvBytes(header, 0, socket, 2);
    if status != Success { return; }
    assert header[..] == stream[..2];
    assert header[0] == stream[0] && header[1] == stream[1];
    flag := header[1];
    var len := header[0];
    if len == 0 { return SocketClosed, flag; }
    if len > 2 {
      status := RecvBytes(message, 0, socket, len - 2);
      assert status == Success ==> stream[2..][..len - 2] == stream[2..len] && stream[2..][len - 2..] == stream[len..];
    } else {
      assert stream[2..2] == [];
    }
  }
}

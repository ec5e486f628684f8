/** The header builders and readers of client_daemon.c, server.c and client.c on their fixed buffers. */
module Wire {
  import opened Bytes
  import opened Headers
  import opened Messages
  import opened Sockets

  /** The daemon's and the server's struct dest_file_attrs. */
  class DestFileAttrs {
    var command: Byte
    var pathLen: nat
    var dataLen: nat
    var discard: nat

    constructor ()
      ensures discard == 0
    {
      command, pathLen, dataLen, discard := 0, 0, 0, 0;
    }

    function Value(): Header
      reads this
    {
      Header(command, pathLen, dataLen, discard)
    }
  }

  /** Extends what has been written so far; the rest of the buffer keeps what it held. */
  method Extend(buffer: array<Byte>, at: nat, bytes: seq<Byte>, ghost done: seq<Byte>, ghost was: seq<Byte>)
    requires at == |done| && at + |bytes| <= buffer.Length == |was|
    requires buffer[..] == done + was[at..]
    modifies buffer
    ensures buffer[..] == done + bytes + was[at + |bytes|..]
  {
    Put(buffer, at, bytes);
  }

  lemma HeaderPieces(h: Header)
    ensures EncodeHeader(h) == [(7 + HeaderDigits(h)) % 256, 0, h.command, 0]
                               + (Digits(h.pathLen) + [0]) + (Digits(h.dataLen) + [0]) + (Digits(h.discard) + [0])
  {
    hide Digits;
    assert PutField(h.discard, []) == Digits(h.discard) + [0];
  }

  /** The pieces of a header one after another into the buffer: a fixed part, then NUL-ended numbers. */
  method PutPieces(buffer: array<Byte>, lead: seq<Byte>, a: seq<Byte>, b: seq<Byte>, c: seq<Byte>)
    requires |lead| + |a| + |b| + |c| <= buffer.Length
    modifies buffer
    ensures buffer[..] == lead + a + b + c + old(buffer[..])[|lead| + |a| + |b| + |c|..]
  {
    ghost var was := buffer[..];
    Put(buffer, 0, lead);
    assert buffer[..] == lead + was[|lead|..];
    Extend(buffer, |lead|, a, lead, was);
    Extend(buffer, |lead| + |a|, b, lead + a, was);
    Extend(buffer, |lead| + |a| + |b|, c, lead + a + b, was);
  }

  /** `isDirectory` and `size` are what st_buf holds and `statOk` whether stat filled it; the discard printed is the
      field's. When stat fails the local client is told so, and the header is printed from st_buf all the same. Nothing
      is printed only if that message cannot be sent. */
  method CreateDestFileAttrs(attrs: DestFileAttrs, statOk: bool, reason: array<Byte>, client: Socket, isDirectory: bool,
                             size: nat, destinationLen: nat, buffer: array<Byte>)
    returns (status: Status)
    requires buffer.Length == MAX_HEADER_LEN && reason != buffer && |Text(reason[..])| < reason.Length
    requires HeaderFits(Header(0, destinationLen, if isDirectory then 0 else size, attrs.discard))
    modifies attrs, buffer, client`outgoing, client`failures
    ensures status == if statOk then Success else if |Text(reason[..])| > 252 then Overrun
                      else if client.failures == old(client.failures) then Success else SocketClosed
    ensures statOk ==> client.outgoing == old(client.outgoing) && client.failures == old(client.failures)
    ensures !statOk && status == Success ==>
              Sendable(Message(ACK_ERROR, Text(reason[..])))
              && client.outgoing == old(client.outgoing) + EncodeMessage(Message(ACK_ERROR, Text(reason[..])))
    ensures status != Success ==>
              client.outgoing == old(client.outgoing) && attrs.Value() == old(attrs.Value())
              && buffer[..] == old(buffer[..])
    ensures status == Success ==>
              attrs.Value() == Header(if isDirectory then MK_DIRECTORY else MK_FILE, destinationLen,
                                      if isDirectory then 0 else size, old(attrs.discard))
              && buffer[2] == if isDirectory then 1 else 2
    ensures var e := EncodeHeader(attrs.Value());
            status == Success ==> |e| <= MAX_HEADER_LEN && buffer[..] == e + old(buffer[..])[|e|..]
  {
    status := Success;
    if !statOk {
      status := SendMessage(client, ACK_ERROR, reason);
      if status != Success { return; }
    }
    PrintDestFileAttrs(attrs, isDirectory, size, destinationLen, buffer);
    assert buffer[2] == EncodeHeader(attrs.Value())[2];
  }

  method PrintDestFileAttrs(attrs: DestFileAttrs, isDirectory: bool, size: nat, destinationLen: nat,
                            buffer: array<Byte>)
    requires buffer.Length == MAX_HEADER_LEN
    requires HeaderFits(Header(0, destinationLen, if isDirectory then 0 else size, attrs.discard))
    modifies attrs, buffer
    ensures attrs.Value() == Header(if isDirectory then MK_DIRECTORY else MK_FILE, destinationLen,
                                    if isDirectory then 0 else size, old(attrs.discard))
    ensures var e := EncodeHeader(attrs.Value());
            |e| <= MAX_HEADER_LEN && buffer[..] == e + old(buffer[..])[|e|..]
  {
    attrs.pathLen := destinationLen;
    attrs.command := if isDirectory then MK_DIRECTORY else MK_FILE;
    attrs.dataLen := if isDirectory then 0 else size;
    ghost var h := attrs.Value();
    HeaderLength(h);
    HeaderPieces(h);
    var path, data, discard := Digits(attrs.pathLen), Digits(attrs.dataLen), Digits(attrs.discard);
    var structureLen := 1 + 1 + 1 + 1 + |path| + 1 + |data| + 1 + |discard| + 1;
    assert structureLen == 7 + HeaderDigits(h) <= MAX_HEADER_LEN;
    hide Digits, EncodeHeader, HeaderDigits;
    PutPieces(buffer, [structureLen, 0, attrs.command, 0], path + [0], data + [0], discard + [0]);
  }

  /** Two rounds of recv_bytes and the length check, on a buffer that keeps stale bytes. */
  method LoadDestFileAttrs(buffer: array<Byte>, attrs: DestFileAttrs, command: Socket) returns (result: Loaded<Header>)
    requires buffer.Length == MAX_HEADER_LEN
    modifies buffer, attrs, command`incoming
    ensures result == LoadHeader(old(command.incoming), old(buffer[..]))
    ensures result.Loaded? ==> attrs.Value() == result.value && command.incoming == result.rest
    ensures result.Loaded? ==>
              var len := |old(command.incoming)| - |command.incoming|;
              len <= MAX_HEADER_LEN && buffer[..] == old(command.incoming)[..len] + old(buffer[..])[len..]
    ensures !result.Loaded? ==> attrs.Value() == old(attrs.Value())
  {
    hide ParseHeader, Spliced;
    ghost var was, stream := buffer[..], command.incoming;
    var status := RecvBytes(buffer, 0, command, MIN_DEST_FILE_ATTRS_LEN);
    if status != Success { return Closed; }
    FirstByte(was, stream, MIN_DEST_FILE_ATTRS_LEN);
    var len := buffer[0];
    if len < MIN_DEST_FILE_ATTRS_LEN { return ProtocolError; }
    if len > MAX_HEADER_LEN { return Overflow; }
    status := RecvBytes(buffer, MIN_DEST_FILE_ATTRS_LEN, command, len - MIN_DEST_FILE_ATTRS_LEN);
    if status != Success { return Closed; }
    TwoRounds(was, stream, MIN_DEST_FILE_ATTRS_LEN, len);
    var parsed := ParseHeader(buffer[..], len);
    match parsed {
      case None => result := ProtocolError;
      case Some(h) =>
        attrs.command, attrs.pathLen, attrs.dataLen, attrs.discard := h.command, h.pathLen, h.dataLen, h.discard;
        result := Loaded(h, command.incoming);
    }
  }

  lemma FirstByte(was: seq<Byte>, stream: seq<Byte>, first: nat)
    requires 0 < first <= |was| && first <= |stream|
    ensures Spliced(was, 0, stream[..first])[0] == stream[0]
  {
  }

  /** Reading `first` bytes and then up to `len` fills the buffer's front with the first `len` bytes. */
  lemma TwoRounds(was: seq<Byte>, stream: seq<Byte>, first: nat, len: nat)
    requires first <= len <= |was| && len <= |stream|
    ensures Spliced(Spliced(was, 0, stream[..first]), first, stream[first..][..len - first])
         == stream[..len] + was[len..]
    ensures stream[first..][len - first..] == stream[len..]
  {
  }

  /** client.c's struct file_attrs printed into the client's buffer. */
  method CreateFileAttrs(sourceLen: nat, destinationLen: nat, buffer: array<Byte>) returns (fileAttrsLen: nat)
    requires buffer.Length == MAX_FILE_ATTRS_LEN && FileAttrsFit(FileAttrs(sourceLen, destinationLen))
    modifies buffer
    ensures fileAttrsLen <= MAX_FILE_ATTRS_LEN
    ensures buffer[..fileAttrsLen] == EncodeFileAttrs(FileAttrs(sourceLen, destinationLen))
  {
    var source, destination := Digits(sourceLen), Digits(destinationLen);
    fileAttrsLen := 1 + 1 + |source| + 1 + |destination| + 1;
    assert PutField(sourceLen, PutField(destinationLen, [])) == (source + [0]) + (destination + [0]);
    hide Digits, PutField;
    PutPieces(buffer, [fileAttrsLen, 0], source + [0], destination + [0], []);
    assert buffer[..fileAttrsLen] == [fileAttrsLen, 0] + (source + [0]) + (destination + [0]);
  }

  /** The daemon's reader of the same header. */
  method LoadFileAttrsFrom(buffer: array<Byte>, client: Socket) returns (result: Loaded<FileAttrs>)
    requires buffer.Length == MAX_FILE_ATTRS_LEN
    modifies buffer, client`incoming
    ensures result == LoadFileAttrs(old(client.incoming), old(buffer[..]))
    ensures result.Loaded? ==> client.incoming == result.rest
  {
    hide ParseFileAttrs, Spliced;
    ghost var was, stream := buffer[..], client.incoming;
    var status := RecvBytes(buffer, 0, client, MIN_FILE_ATTRS_LEN);
    if status != Success { return Closed; }
    FirstByte(was, stream, MIN_FILE_ATTRS_LEN);
    var len := buffer[0];
    if len < MIN_FILE_ATTRS_LEN { return ProtocolError; }
    if len > MAX_FILE_ATTRS_LEN { return Overflow; }
    status := RecvBytes(buffer, MIN_FILE_ATTRS_LEN, client, len - MIN_FILE_ATTRS_LEN);
    if status != Success { return Closed; }
    TwoRounds(was, stream, MIN_FILE_ATTRS_LEN, len);
    var parsed := ParseFileAttrs(buffer[..], len);
    match parsed {
      case None => result := ProtocolError;
      case Some(a) => result := Loaded(a, client.incoming);
    }
  }
}

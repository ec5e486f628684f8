/** The two NUL-separated decimal headers: daemon to server, and local client to daemon. */
module Headers {
  import opened Bytes

  const MIN_DEST_FILE_ATTRS_LEN: nat := 10
  const MAX_HEADER_LEN: nat := 31
  const MIN_FILE_ATTRS_LEN: nat := 6
  const MAX_FILE_ATTRS_LEN: nat := 20
  const PATH_MAX: nat := 4096

  const MK_DIRECTORY: Byte := 1
  const MK_FILE: Byte := 2

  /** What a read from a byte stream delivers, with the bytes it leaves behind. */
  datatype Loaded<+T> =
    | Loaded(value: T, rest: seq<Byte>)
    | Closed          // the peer closed before the item was complete
    | ProtocolError   // the length byte or the length check is wrong
    | FileError       // a path longer than PATH_MAX
    | Overflow        // the announced length exceeds the receive buffer: undefined in the source

  // ---------------------------------------------------------------- daemon to server

  datatype Header = Header(command: Byte, pathLen: nat, dataLen: nat, discard: nat)

  function HeaderDigits(h: Header): nat {
    |Digits(h.pathLen)| + |Digits(h.dataLen)| + |Digits(h.discard)|
  }

  /** The header fits the buffer that both sides reserve for it. */
  predicate HeaderFits(h: Header) {
    HeaderDigits(h) <= 24
  }

  /** The values the C fields can hold. */
  predicate HeaderTyped(h: Header) {
    h.pathLen <= LONG_MAX && h.dataLen <= ULLONG_MAX && h.discard <= ULLONG_MAX
  }

  function EncodeHeader(h: Header): seq<Byte> {
    [(7 + HeaderDigits(h)) % 256, 0, h.command, 0]
    + PutField(h.pathLen, PutField(h.dataLen, PutField(h.discard, [])))
  }

  function ParseHeader(buf: seq<Byte>, structureLen: nat): Option<Header>
    requires |buf| >= MIN_DEST_FILE_ATTRS_LEN
  {
    match TakeField(buf[4..], MAX_HEADER_LEN, LONG_MAX)
    case None => None
    case Some(path) => (
      match TakeField(path.rest, MAX_HEADER_LEN, ULLONG_MAX)
      case None => None
      case Some(data) => (
        match TakeField(data.rest, MAX_HEADER_LEN, ULLONG_MAX)
        case None => None
        case Some(discard) =>
          if 4 + path.raw + 1 + data.raw + 1 + discard.raw + 1 != structureLen then None else
          Some(Header(buf[2], path.value, data.value, discard.value))
      )
    )
  }

  /** Ten bytes first, then what the length byte announces, over the stale contents of `buf`. */
  function LoadHeader(stream: seq<Byte>, buf: seq<Byte>): Loaded<Header>
    requires |buf| == MAX_HEADER_LEN
  {
    if |stream| < MIN_DEST_FILE_ATTRS_LEN then Closed else
    var len := stream[0];
    if len < MIN_DEST_FILE_ATTRS_LEN then ProtocolError else
    if len > MAX_HEADER_LEN then Overflow else
    if |stream| < len then Closed else
    match ParseHeader(stream[..len] + buf[len..], len)
    case Some(h) => Loaded(h, stream[len..])
    case None => ProtocolError
  }

  /** The exact condition under which the encoder stays inside its buffer. */
  lemma HeaderLength(h: Header)
    ensures |EncodeHeader(h)| == 7 + HeaderDigits(h) >= MIN_DEST_FILE_ATTRS_LEN
    ensures |EncodeHeader(h)| <= MAX_HEADER_LEN <==> HeaderFits(h)
    ensures HeaderFits(h) ==> EncodeHeader(h)[0] == |EncodeHeader(h)|
  {
  }

  /** Every file below ten thousand million bytes has a header that fits. */
  lemma {:induction false} SmallFilesFit(h: Header)
    requires h.pathLen <= PATH_MAX && h.dataLen < Pow10(10) && h.discard < Pow10(10)
    ensures HeaderFits(h)
  {
    assert Pow10(4) == 10000 by { assert Pow10(2) == 100; }
    DigitsLength(h.pathLen, 4);
    DigitsLength(h.dataLen, 10);
    DigitsLength(h.discard, 10);
  }

  /** Beyond that the buffer can overflow: a path of 1000 bytes, 10^9 rejected bytes and a file of 10^10
      together need 25 digits. */
  lemma {:induction false} LargeFileOverflows(h: Header)
    requires h.pathLen >= 1000 && h.dataLen >= Pow10(10) && h.discard >= Pow10(9)
    ensures |EncodeHeader(h)| > MAX_HEADER_LEN
  {
    assert Pow10(3) == 1000 by { assert Pow10(1) == 10; }
    DigitsLength(h.pathLen, 3);
    DigitsLength(h.dataLen, 10);
    DigitsLength(h.discard, 9);
    HeaderLength(h);
  }

  lemma {:induction false} ParseEncodedHeader(h: Header, stale: seq<Byte>)
    requires HeaderFits(h) && HeaderTyped(h)
    ensures ParseHeader(EncodeHeader(h) + stale, |EncodeHeader(h)|) == Some(h)
  {
    hide TakeField, PutField, Digits;
    var r2 := PutField(h.discard, stale);
    var r1 := PutField(h.dataLen, r2);
    PutFieldAppend(h.discard, [], stale);
    PutFieldAppend(h.dataLen, PutField(h.discard, []), stale);
    PutFieldAppend(h.pathLen, PutField(h.dataLen, PutField(h.discard, [])), stale);
    assert [] + stale == stale;
    var lead: seq<Byte> := [(7 + HeaderDigits(h)) % 256, 0, h.command, 0];
    AfterPrefix(lead, PutField(h.pathLen, PutField(h.dataLen, PutField(h.discard, []))), stale);
    assert (EncodeHeader(h) + stale)[2] == lead[2];
    HeaderLength(h);
    FieldRoundTrip(h.pathLen, r1, MAX_HEADER_LEN, LONG_MAX);
    FieldRoundTrip(h.dataLen, r2, MAX_HEADER_LEN, ULLONG_MAX);
    FieldRoundTrip(h.discard, stale, MAX_HEADER_LEN, ULLONG_MAX);
  }

  /** Reading a header takes exactly its own bytes, whatever follows it and whatever the buffer held. */
  lemma {:induction false} LoadEncodedHeader(h: Header, rest: seq<Byte>, buf: seq<Byte>)
    requires HeaderFits(h) && HeaderTyped(h) && |buf| == MAX_HEADER_LEN
    ensures LoadHeader(EncodeHeader(h) + rest, buf) == Loaded(h, rest)
  {
    var e := EncodeHeader(h);
    HeaderLength(h);
    AfterPrefix(e, [], rest);
    ParseEncodedHeader(h, buf[|e|..]);
  }

  /** In particular every header of files below ten thousand million bytes is read back, whatever the widths of the
      server's fields. */
  lemma {:induction false} LoadSmallHeader(h: Header, rest: seq<Byte>, buf: seq<Byte>)
    requires h.pathLen <= 4096 && h.dataLen < Pow10(10) && h.discard < Pow10(10) && |buf| == MAX_HEADER_LEN
    ensures LoadHeader(EncodeHeader(h) + rest, buf) == Loaded(h, rest)
  {
    SmallFilesFit(h);
    assert Pow10(10) == 10_000_000_000 by {
      assert Pow10(4) == 10_000 by { assert Pow10(2) == 100; }
      assert Pow10(8) == 100_000_000 by { assert Pow10(6) == 1_000_000; }
    }
    LoadEncodedHeader(h, rest, buf);
  }

  /** The fields of the server are 64 bits wide: every value they hold is read back if the header fits. */
  lemma {:induction false} LoadWidestHeader(h: Header, rest: seq<Byte>, buf: seq<Byte>)
    requires HeaderFits(h) && |buf| == MAX_HEADER_LEN && h.pathLen <= 9_223_372_036_854_775_807
    requires h.dataLen <= 18_446_744_073_709_551_615 && h.discard <= 18_446_744_073_709_551_615
    ensures LoadHeader(EncodeHeader(h) + rest, buf) == Loaded(h, rest)
  {
    LoadEncodedHeader(h, rest, buf);
  }

  lemma DigitsOfTwelve()
    ensures Digits(12) == Ascii("12") && Digits(3) == Ascii("3") && Digits(0) == Ascii("0")
  {
    assert Digits(12) == Digits(1) + [ZERO + 2];
  }

  /** The bytes on the wire for a file of three bytes with a path of twelve, and for the local client's header. */
  lemma {:induction false} HeaderBytes()
    ensures EncodeHeader(Header(2, 12, 3, 0))
         == [11, 0, 2, 0] + Ascii("12") + [0] + Ascii("3") + [0] + Ascii("0") + [0]
    ensures EncodeFileAttrs(FileAttrs(12, 3)) == [7, 0] + Ascii("12") + [0] + Ascii("3") + [0]
  {
    DigitsOfTwelve();
    hide Digits;
    var x, y, z := Ascii("12"), Ascii("3"), Ascii("0");
    hide Ascii;
    assert PutField(0, []) == z + [0];
    assert PutField(3, PutField(0, [])) == y + [0] + z + [0];
    assert PutField(3, []) == y + [0];
  }

  /** What a peer that does not keep to the format gets: the reader waits for ten bytes, refuses an announced length
      below ten, and has room for thirty-one. */
  lemma {:induction false} MalformedHeaders(stream: seq<Byte>, buf: seq<Byte>)
    requires |buf| == MAX_HEADER_LEN
    ensures |stream| < 10 ==> LoadHeader(stream, buf) == Closed
    ensures |stream| >= 10 && stream[0] < 10 ==> LoadHeader(stream, buf) == ProtocolError
    ensures |stream| >= 10 && stream[0] > 31 <==> LoadHeader(stream, buf) == Overflow
    ensures 10 <= |stream| < stream[0] <= 31 ==> LoadHeader(stream, buf) == Closed
  {
    hide ParseHeader;
  }

  /** A header that parses within its announced length parses the same without the stale bytes behind it. */
  lemma ParseWithoutStale(bytes: seq<Byte>, stale: seq<Byte>)
    requires MIN_DEST_FILE_ATTRS_LEN <= |bytes| <= MAX_HEADER_LEN && ParseHeader(bytes + stale, |bytes|).Some?
    ensures ParseHeader(bytes, |bytes|) == ParseHeader(bytes + stale, |bytes|)
  {
    hide TakeField;
    assert (bytes + stale)[4..] == bytes[4..] + stale;
    var path := TakeField(bytes[4..] + stale, MAX_HEADER_LEN, LONG_MAX).value;
    FieldWithoutStale(bytes[4..], stale, MAX_HEADER_LEN, LONG_MAX);
    var r1 := bytes[4..][path.raw + 1..];
    var data := TakeField(r1 + stale, MAX_HEADER_LEN, ULLONG_MAX).value;
    FieldWithoutStale(r1, stale, MAX_HEADER_LEN, ULLONG_MAX);
    FieldWithoutStale(r1[data.raw + 1..], stale, MAX_HEADER_LEN, ULLONG_MAX);
  }

  function EncodeHeaders(hs: seq<Header>): seq<Byte> {
    if hs == [] then [] else EncodeHeader(hs[0]) + EncodeHeaders(hs[1..])
  }

  predicate Wellformed(hs: seq<Header>) {
    forall k :: 0 <= k < |hs| ==> HeaderFits(hs[k]) && HeaderTyped(hs[k])
  }

  /** What the first read of a stream of headers delivers. */
  lemma LoadFirstHeader(hs: seq<Header>, rest: seq<Byte>, buf: seq<Byte>)
    requires hs != [] && Wellformed(hs) && |buf| == MAX_HEADER_LEN
    ensures LoadHeader(EncodeHeaders(hs) + rest, buf) == Loaded(hs[0], EncodeHeaders(hs[1..]) + rest)
  {
    hide EncodeHeader, LoadHeader;
    assert EncodeHeaders(hs) + rest == EncodeHeader(hs[0]) + (EncodeHeaders(hs[1..]) + rest);
    LoadEncodedHeader(hs[0], EncodeHeaders(hs[1..]) + rest, buf);
  }

  /** `n` reads in a row into the same buffer: each leaves its header's bytes there for the next one. */
  function LoadHeaders(stream: seq<Byte>, buf: seq<Byte>, n: nat): Option<(seq<Header>, seq<Byte>)>
    requires |buf| == MAX_HEADER_LEN
  {
    if n == 0 then Some(([], stream)) else
    match LoadHeader(stream, buf)
    case Loaded(h, rest) => (
      LoadedHeaderBytes(stream, buf);
      match LoadHeaders(rest, stream[..stream[0]] + buf[stream[0]..], n - 1)
      case Some(tail) => Some(([h] + tail.0, tail.1))
      case None => None
    )
    case _ => None
  }

  lemma LoadedHeaderBytes(stream: seq<Byte>, buf: seq<Byte>)
    requires |buf| == MAX_HEADER_LEN && LoadHeader(stream, buf).Loaded?
    ensures MIN_DEST_FILE_ATTRS_LEN <= |stream| && MIN_DEST_FILE_ATTRS_LEN <= stream[0] <= MAX_HEADER_LEN
    ensures stream[0] <= |stream| && LoadHeader(stream, buf).rest == stream[stream[0]..]
    ensures ParseHeader(stream[..stream[0]] + buf[stream[0]..], stream[0]) == Some(LoadHeader(stream, buf).value)
  {
  }

  /** Repeated reads recover the list of headers and take no byte of what follows it, whatever the buffer held. */
  lemma {:induction false} HeadersRoundTrip(hs: seq<Header>, rest: seq<Byte>, buf: seq<Byte>)
    requires Wellformed(hs) && |buf| == MAX_HEADER_LEN
    ensures LoadHeaders(EncodeHeaders(hs) + rest, buf, |hs|) == Some((hs, rest))
  {
    hide EncodeHeader, LoadHeader, ParseHeader, HeaderFits, HeaderTyped;
    var stream := EncodeHeaders(hs) + rest;
    if hs == [] {
      assert stream == rest;
    } else {
      LoadFirstHeader(hs, rest, buf);
      LoadedHeaderBytes(stream, buf);
      hide EncodeHeaders;
      HeadersRoundTrip(hs[1..], rest, stream[..stream[0]] + buf[stream[0]..]);
      assert hs == [hs[0]] + hs[1..];
    }
  }

  /** Headers are self-delimiting: equal streams of equally many headers carry the same headers. */
  lemma {:induction false} HeadersSelfDelimiting(a: seq<Header>, b: seq<Header>, ra: seq<Byte>, rb: seq<Byte>)
    requires |a| == |b| && Wellformed(a) && Wellformed(b)
    requires EncodeHeaders(a) + ra == EncodeHeaders(b) + rb
    ensures a == b && ra == rb
  {
    hide EncodeHeaders, LoadHeaders;
    var buf := seq(MAX_HEADER_LEN, _ => 0);
    HeadersRoundTrip(a, ra, buf);
    HeadersRoundTrip(b, rb, buf);
  }

  // ---------------------------------------------------------------- local client to daemon

  datatype FileAttrs = FileAttrs(sourceLen: nat, destinationLen: nat)

  function EncodeFileAttrs(a: FileAttrs): seq<Byte> {
    var s, d := Digits(a.sourceLen), Digits(a.destinationLen);
    [(4 + |s| + |d|) % 256, 0] + PutField(a.sourceLen, PutField(a.destinationLen, []))
  }

  predicate FileAttrsFit(a: FileAttrs) {
    |Digits(a.sourceLen)| + |Digits(a.destinationLen)| <= 16
  }

  /** The local header fits its buffer exactly if both numbers have at most 16 digits together. */
  lemma {:induction false} FileAttrsLength(a: FileAttrs)
    ensures |EncodeFileAttrs(a)| <= MAX_FILE_ATTRS_LEN <==> FileAttrsFit(a)
    ensures 6 <= |EncodeFileAttrs(a)| && (FileAttrsFit(a) ==> EncodeFileAttrs(a)[0] == |EncodeFileAttrs(a)|)
  {
    hide Digits;
  }

  function ParseFileAttrs(buf: seq<Byte>, structureLen: nat): Option<FileAttrs>
    requires |buf| >= MIN_FILE_ATTRS_LEN
  {
    match TakeField(buf[2..], MAX_FILE_ATTRS_LEN, LONG_MAX)
    case None => None
    case Some(source) => (
      match TakeField(source.rest, MAX_FILE_ATTRS_LEN, LONG_MAX)
      case None => None
      case Some(destination) =>
        if structureLen != 1 + 1 + source.raw + 1 + destination.raw + 1 then None else
        Some(FileAttrs(source.value, destination.value))
    )
  }

  function LoadFileAttrs(stream: seq<Byte>, buf: seq<Byte>): Loaded<FileAttrs>
    requires |buf| == MAX_FILE_ATTRS_LEN
  {
    if |stream| < MIN_FILE_ATTRS_LEN then Closed else
    var len := stream[0];
    if len < MIN_FILE_ATTRS_LEN then ProtocolError else
    if len > MAX_FILE_ATTRS_LEN then Overflow else
    if |stream| < len then Closed else
    match ParseFileAttrs(stream[..len] + buf[len..], len)
    case Some(a) => Loaded(a, stream[len..])
    case None => ProtocolError
  }

  function LoadPath(stream: seq<Byte>, pathLen: nat): Loaded<seq<Byte>> {
    if pathLen > PATH_MAX then FileError else
    if |stream| < pathLen then Closed else
    Loaded(stream[..pathLen], stream[pathLen..])
  }

  lemma {:induction false} MalformedFileAttrs(stream: seq<Byte>, buf: seq<Byte>)
    requires |buf| == MAX_FILE_ATTRS_LEN
    ensures |stream| < 6 ==> LoadFileAttrs(stream, buf) == Closed
    ensures |stream| >= 6 && stream[0] < 6 ==> LoadFileAttrs(stream, buf) == ProtocolError
    ensures |stream| >= 6 && stream[0] > 20 <==> LoadFileAttrs(stream, buf) == Overflow
    ensures 6 <= |stream| < stream[0] <= 20 ==> LoadFileAttrs(stream, buf) == Closed
  {
    hide ParseFileAttrs;
  }

  lemma {:induction false} LoadEncodedFileAttrs(a: FileAttrs, rest: seq<Byte>, buf: seq<Byte>)
    requires FileAttrsFit(a) && a.sourceLen <= LONG_MAX && a.destinationLen <= LONG_MAX
    requires |buf| == MAX_FILE_ATTRS_LEN
    ensures LoadFileAttrs(EncodeFileAttrs(a) + rest, buf) == Loaded(a, rest)
  {
    hide TakeField, PutField, Digits;
    var e := EncodeFileAttrs(a);
    var stale := buf[|e|..];
    AfterPrefix(e, [], rest);
    PutFieldAppend(a.destinationLen, [], stale);
    PutFieldAppend(a.sourceLen, PutField(a.destinationLen, []), stale);
    assert [] + stale == stale;
    var lead: seq<Byte> := [(4 + |Digits(a.sourceLen)| + |Digits(a.destinationLen)|) % 256, 0];
    AfterPrefix(lead, PutField(a.sourceLen, PutField(a.destinationLen, [])), stale);
    FieldRoundTrip(a.sourceLen, PutField(a.destinationLen, stale), MAX_FILE_ATTRS_LEN, LONG_MAX);
    FieldRoundTrip(a.destinationLen, stale, MAX_FILE_ATTRS_LEN, LONG_MAX);
  }

  /** The two paths a request carries, each with its terminating NUL. */
  datatype LocalRequest = LocalRequest(source: seq<Byte>, destination: seq<Byte>)

  function EncodeRequest(r: LocalRequest): seq<Byte> {
    EncodeFileAttrs(FileAttrs(|r.source|, |r.destination|)) + r.source + r.destination
  }

  /** The daemon's three reads in a row. */
  function LoadRequest(stream: seq<Byte>, buf: seq<Byte>): Loaded<LocalRequest>
    requires |buf| == MAX_FILE_ATTRS_LEN
  {
    match LoadFileAttrs(stream, buf)
    case Loaded(a, r0) => (
      match LoadPath(r0, a.sourceLen)
      case Loaded(source, r1) => (
        match LoadPath(r1, a.destinationLen)
        case Loaded(destination, r2) => Loaded(LocalRequest(source, destination), r2)
        case Closed => Closed
        case _ => FileError
      )
      case Closed => Closed
      case _ => FileError
    )
    case Closed => Closed
    case ProtocolError => ProtocolError
    case _ => Overflow
  }

  /** The daemon reads back the client's request exactly when both paths respect PATH_MAX. */
  lemma {:induction false} RequestRoundTrip(r: LocalRequest, rest: seq<Byte>, buf: seq<Byte>)
    requires |r.source| <= PATH_MAX + 1 && |r.destination| <= PATH_MAX + 1 && |buf| == MAX_FILE_ATTRS_LEN
    ensures LoadRequest(EncodeRequest(r) + rest, buf)
         == if |r.source| <= PATH_MAX && |r.destination| <= PATH_MAX then Loaded(r, rest) else FileError
  {
    hide EncodeFileAttrs, LoadFileAttrs, Digits;
    var a := FileAttrs(|r.source|, |r.destination|);
    assert Pow10(4) == 10000 by { assert Pow10(2) == 100; }
    DigitsLength(a.sourceLen, 4);
    DigitsLength(a.destinationLen, 4);
    var r1 := r.destination + rest;
    var r0 := r.source + r1;
    assert EncodeRequest(r) + rest == EncodeFileAttrs(a) + r0;
    LoadEncodedFileAttrs(a, r0, buf);
    assert r0[..|r.source|] == r.source && r0[|r.source|..] == r1;
    assert r1[..|r.destination|] == r.destination && r1[|r.destination|..] == rest;
  }
}

/** The short messages: a length byte, a flag, and a NUL-terminated text that may be absent. */
module Messages {
  import opened Bytes
  import opened Headers

  const MESSAGE_BUFFERSIZE: nat := 255

  const ACK_ERROR: Byte := 0
  const ACK_OK: Byte := 1
  const FORCED_SOCKET_CLOSED: Byte := 8

  datatype Message = Message(flag: Byte, text: seq<Byte>)

  /** A C string the sender's buffer has room for. */
  predicate Sendable(m: Message) {
    |m.text| <= 252 && forall k :: 0 <= k < |m.text| ==> m.text[k] != 0
  }

  function EncodeMessage(m: Message): (s: seq<Byte>)
    requires Sendable(m)
    ensures s != []
  {
    if m.text == [] then [2, m.flag] else [|m.text| + 3, m.flag] + m.text + [0]
  }

  /** A message announces its own length, and the longest that can be sent fills the sender's buffer. */
  lemma {:induction false} MessageLength(m: Message)
    requires Sendable(m)
    ensures EncodeMessage(m)[0] == |EncodeMessage(m)| && EncodeMessage(m)[1] == m.flag
    ensures |EncodeMessage(m)| <= MESSAGE_BUFFERSIZE
    ensures |EncodeMessage(m)| == MESSAGE_BUFFERSIZE <==> |m.text| == 252
  {
  }

  /** The bytes that land in the receiver's text buffer: none for an empty message. */
  function TextBytes(m: Message): seq<Byte> {
    if m.text == [] then [] else m.text + [0]
  }

  /** receive_message: two bytes, then the announced remainder. The value pairs flag and text bytes. */
  function LoadMessage(stream: seq<Byte>): (r: Loaded<(Byte, seq<Byte>)>)
    ensures r.Loaded? ==> |r.value.1| <= 253
  {
    if |stream| < 2 || stream[0] == 0 then Closed else
    var len := if stream[0] > 2 then stream[0] else 2;
    if |stream| < len then Closed else
    Loaded((stream[1], stream[2..len]), stream[len..])
  }

  /** What receive_message writes into the text buffer, whether or not the message is complete. */
  function TextArrived(stream: seq<Byte>): (t: seq<Byte>)
    ensures |t| <= 253
    ensures LoadMessage(stream).Loaded? ==> t == LoadMessage(stream).value.1
  {
    if |stream| < 2 || stream[0] <= 2 then [] else
    if |stream| < stream[0] then stream[2..] else stream[2..stream[0]]
  }

  lemma {:induction false} LoadEncodedMessage(m: Message, rest: seq<Byte>)
    requires Sendable(m)
    ensures LoadMessage(EncodeMessage(m) + rest) == Loaded((m.flag, TextBytes(m)), rest)
  {
    var e := EncodeMessage(m);
    assert e[0] == |e|;
    assert (e + rest)[2..|e|] == e[2..] == TextBytes(m);
    assert (e + rest)[|e|..] == rest;
  }

  /** The receiver's text buffer after one message: the old text stays when the message is empty. */
  function BufferAfter(m: Message, buffer: seq<Byte>): seq<Byte>
    requires Sendable(m) && |buffer| == MESSAGE_BUFFERSIZE
  {
    TextBytes(m) + buffer[|TextBytes(m)|..]
  }

  /** The text buffer reads back as the message's own text exactly when the message has one,
      or when there was no text in the buffer before. */
  lemma {:induction false} TextRoundTrip(m: Message, buffer: seq<Byte>)
    requires Sendable(m) && |buffer| == MESSAGE_BUFFERSIZE
    ensures var after := BufferAfter(m, buffer);
            after[..StrnLen(after, MESSAGE_BUFFERSIZE)] == m.text <==> m.text != [] || buffer[0] == 0
  {
    var after := BufferAfter(m, buffer);
    var n := StrnLen(after, MESSAGE_BUFFERSIZE);
    if m.text == [] {
      assert after == buffer;
    } else {
      assert after[|m.text|] == 0;
      assert forall k :: 0 <= k < |m.text| ==> after[k] == m.text[k] != 0;
      assert n == |m.text|;
    }
  }

  predicate AllSendable(ms: seq<Message>) {
    forall k :: 0 <= k < |ms| ==> Sendable(ms[k])
  }

  function EncodeMessages(ms: seq<Message>): seq<Byte>
    requires AllSendable(ms)
  {
    if ms == [] then [] else EncodeMessage(ms[0]) + EncodeMessages(ms[1..])
  }

  /** One receive_message after another into the same text buffer: each flag with the buffer after it. */
  function ReceiveAll(stream: seq<Byte>, buffer: seq<Byte>, n: nat): Option<(seq<(Byte, seq<Byte>)>, seq<Byte>)>
    requires |buffer| == MESSAGE_BUFFERSIZE
  {
    if n == 0 then Some(([], stream)) else
    match LoadMessage(stream)
    case Loaded(m, rest) => (
      var after := m.1 + buffer[|m.1|..];
      match ReceiveAll(rest, after, n - 1)
      case Some(tail) => Some(([(m.0, after)] + tail.0, tail.1))
      case None => None
    )
    case _ => None
  }

  /** What the receiver should see of a list of messages. */
  function Receipts(ms: seq<Message>, buffer: seq<Byte>): seq<(Byte, seq<Byte>)>
    requires AllSendable(ms) && |buffer| == MESSAGE_BUFFERSIZE
  {
    if ms == [] then [] else
    [(ms[0].flag, BufferAfter(ms[0], buffer))] + Receipts(ms[1..], BufferAfter(ms[0], buffer))
  }

  lemma ReceiveOne(m: Message, tail: seq<Byte>, buffer: seq<Byte>, n: nat)
    requires Sendable(m) && |buffer| == MESSAGE_BUFFERSIZE && n > 0
    ensures ReceiveAll(EncodeMessage(m) + tail, buffer, n)
         == match ReceiveAll(tail, BufferAfter(m, buffer), n - 1)
            case Some(rest) => Some(([(m.flag, BufferAfter(m, buffer))] + rest.0, rest.1))
            case None => None
  {
    LoadEncodedMessage(m, tail);
    hide LoadMessage, EncodeMessage, TextBytes;
  }

  /** Messages sent back to back arrive one by one, in order, and nothing behind them is touched. */
  lemma {:induction false} MessagesRoundTrip(ms: seq<Message>, rest: seq<Byte>, buffer: seq<Byte>)
    requires AllSendable(ms) && |buffer| == MESSAGE_BUFFERSIZE
    ensures ReceiveAll(EncodeMessages(ms) + rest, buffer, |ms|) == Some((Receipts(ms, buffer), rest))
  {
    if ms == [] {
      assert [] + rest == rest;
    } else {
      var tail := EncodeMessages(ms[1..]) + rest;
      assert EncodeMessages(ms) + rest == EncodeMessage(ms[0]) + tail;
      ReceiveOne(ms[0], tail, buffer, |ms|);
      hide ReceiveAll, EncodeMessage, BufferAfter;
      MessagesRoundTrip(ms[1..], rest, BufferAfter(ms[0], buffer));
    }
  }
}

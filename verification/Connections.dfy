/** accept_connection: two connections that carry the same token become one client. */
module Connections {
  import opened Bytes
  import opened Messages
  import opened Sockets
  import opened MergeSpec
  import opened ListSort
  import opened ListOps

  /** One accepted TCP connection: the token of its first message, its socket and its address. */
  datatype Conn = Conn(token: seq<Byte>, socket: int, info: int)

  datatype Pair = Pair(command: Conn, data: Conn)

  /** strcmp on two NUL-free strings. */
  function StrCmp(a: seq<Byte>, b: seq<Byte>): int {
    if a == [] && b == [] then 0
    else if a == [] then -b[0]
    else if b == [] then a[0]
    else if a[0] != b[0] then a[0] - b[0]
    else StrCmp(a[1..], b[1..])
  }

  predicate NulFree(s: seq<Byte>) {
    forall i :: 0 <= i < |s| ==> s[i] != 0
  }

  function NameCmp(a: Conn, b: Conn): int {
    StrCmp(a.token, b.token)
  }

  lemma {:induction false} StrCmpZero(a: seq<Byte>, b: seq<Byte>)
    requires NulFree(a) && NulFree(b)
    ensures StrCmp(a, b) == 0 <==> a == b
    decreases |a|
  {
    if a != [] && b != [] && a[0] == b[0] {
      StrCmpZero(a[1..], b[1..]);
      assert a == [a[0]] + a[1..] && b == [b[0]] + b[1..];
    }
  }

  /** Position of the first pending connection with this token. */
  function Find(pending: seq<Conn>, token: seq<Byte>): (k: nat)
    ensures k <= |pending| && (k < |pending| ==> pending[k].token == token)
    ensures forall i :: 0 <= i < k ==> pending[i].token != token
  {
    if pending == [] || pending[0].token == token then 0 else 1 + Find(pending[1..], token)
  }

  /** One arrival: it is paired with the first pending connection of its token, or becomes pending. */
  function Arrive(pending: seq<Conn>, pairs: seq<Pair>, c: Conn): (seq<Conn>, seq<Pair>) {
    var k := Find(pending, c.token);
    if k < |pending| then (Without(pending, k), pairs + [Pair(pending[k], c)]) else (pending + [c], pairs)
  }

  /** Pending connections and the pairs handed out, after these arrivals. */
  function Serve(arrivals: seq<Conn>): (seq<Conn>, seq<Pair>) {
    if arrivals == [] then ([], []) else
    var (pending, pairs) := Serve(arrivals[..|arrivals| - 1]);
    Arrive(pending, pairs, arrivals[|arrivals| - 1])
  }

  // ---------------------------------------------------------------- the per-token reference

  function Of(token: seq<Byte>, s: seq<Conn>): seq<Conn> {
    if s == [] then [] else (if s[0].token == token then [s[0]] else []) + Of(token, s[1..])
  }

  function PairsOf(token: seq<Byte>, s: seq<Pair>): seq<Pair> {
    if s == [] then [] else (if s[0].command.token == token then [s[0]] else []) + PairsOf(token, s[1..])
  }

  /** First with second, third with fourth, and so on; the earlier is the command connection. */
  function PairUp(s: seq<Conn>): seq<Pair> {
    if |s| < 2 then [] else [Pair(s[0], s[1])] + PairUp(s[2..])
  }

  function Leftover(s: seq<Conn>): seq<Conn> {
    if |s| % 2 == 1 then [s[|s| - 1]] else []
  }

  lemma {:induction false} OfAppend(token: seq<Byte>, a: seq<Conn>, b: seq<Conn>)
    ensures Of(token, a + b) == Of(token, a) + Of(token, b)
    decreases |a|
  {
    if a == [] {
      assert a + b == b;
    } else {
      OfAppend(token, a[1..], b);
      assert (a + b)[1..] == a[1..] + b;
    }
  }

  lemma {:induction false} PairsOfAppend(token: seq<Byte>, a: seq<Pair>, b: seq<Pair>)
    ensures PairsOf(token, a + b) == PairsOf(token, a) + PairsOf(token, b)
    decreases |a|
  {
    if a == [] {
      assert a + b == b;
    } else {
      PairsOfAppend(token, a[1..], b);
      assert (a + b)[1..] == a[1..] + b;
    }
  }

  lemma {:induction false} PairUpNext(s: seq<Conn>, c: Conn)
    ensures PairUp(s + [c]) == PairUp(s) + if |s| % 2 == 1 then [Pair(s[|s| - 1], c)] else []
    decreases |s|
  {
    if |s| >= 2 {
      PairUpNext(s[2..], c);
      assert (s + [c])[2..] == s[2..] + [c];
    }
  }

  /** The k-th pair is the (2k-1)-th arrival with the 2k-th. */
  lemma {:induction false} PairUpAt(s: seq<Conn>, k: nat)
    requires 2 * k + 1 < |s|
    ensures |PairUp(s)| == |s| / 2 && PairUp(s)[k] == Pair(s[2 * k], s[2 * k + 1])
    decreases |s|
  {
    if k > 0 {
      PairUpAt(s[2..], k - 1);
    } else if |s| >= 4 {
      PairUpAt(s[2..], 0);
    }
  }

  /** No pending connection before the found one has its token, so taking it out takes the first of them. */
  lemma TakeOut(token: seq<Byte>, s: seq<Conn>, k: nat)
    requires k < |s| && forall i :: 0 <= i < k ==> s[i].token != s[k].token
    ensures Of(token, s) == (if s[k].token == token then [s[k]] else []) + Of(token, Without(s, k))
  {
    assert s == s[..k] + ([s[k]] + s[k + 1..]);
    OfAppend(token, s[..k], [s[k]] + s[k + 1..]);
    OfAppend(token, [s[k]], s[k + 1..]);
    OfAppend(token, s[..k], s[k + 1..]);
    if s[k].token == token { OfNone(token, s[..k]); }
  }

  lemma {:induction false} OfNone(token: seq<Byte>, s: seq<Conn>)
    ensures Of(token, s) == [] <==> forall i :: 0 <= i < |s| ==> s[i].token != token
    decreases |s|
  {
    if s != [] {
      OfNone(token, s[1..]);
      assert forall i :: 1 <= i < |s| ==> s[i] == s[1..][i - 1];
    }
  }

  predicate Agree(token: seq<Byte>, seen: seq<Conn>, pending: seq<Conn>, pairs: seq<Pair>) {
    Of(token, pending) == Leftover(Of(token, seen)) && PairsOf(token, pairs) == PairUp(Of(token, seen))
  }

  lemma ArriveAgrees(token: seq<Byte>, seen: seq<Conn>, pending: seq<Conn>, pairs: seq<Pair>, c: Conn)
    requires Agree(token, seen, pending, pairs) && Agree(c.token, seen, pending, pairs)
    ensures var (pending', pairs') := Arrive(pending, pairs, c); Agree(token, seen + [c], pending', pairs')
  {
    hide PairUp, PairsOf, Of;
    var k := Find(pending, c.token);
    OfAppend(token, seen, [c]);
    OfOne(token, c);
    PairUpNext(Of(token, seen), c);
    OfNone(c.token, pending);
    assert Of(token, seen) + [] == Of(token, seen) && PairsOf(token, pairs) + [] == PairsOf(token, pairs);
    if k < |pending| {
      TakeOut(token, pending, k);
      assert token == c.token ==> Of(token, pending)[0] == pending[k];
      PairsOfAppend(token, pairs, [Pair(pending[k], c)]);
      PairsOfOne(token, Pair(pending[k], c));
    } else {
      OfAppend(token, pending, [c]);
      assert Of(token, pending) + [] == Of(token, pending);
    }
  }

  lemma OfOne(token: seq<Byte>, c: Conn)
    ensures Of(token, [c]) == if c.token == token then [c] else []
  {
  }

  lemma PairsOfOne(token: seq<Byte>, p: Pair)
    ensures PairsOf(token, [p]) == if p.command.token == token then [p] else []
  {
  }

  /** For every token and every sequence of arrivals the server pairs exactly as the reference does. */
  lemma {:induction false} ServeRefinesParity(arrivals: seq<Conn>, token: seq<Byte>)
    ensures Of(token, Serve(arrivals).0) == Leftover(Of(token, arrivals))
    ensures PairsOf(token, Serve(arrivals).1) == PairUp(Of(token, arrivals))
    decreases |arrivals|
  {
    if arrivals != [] {
      var before, c := arrivals[..|arrivals| - 1], arrivals[|arrivals| - 1];
      hide Arrive, Of, PairUp, PairsOf, Leftover;
      ServeRefinesParity(before, token);
      ServeRefinesParity(before, c.token);
      assert arrivals == before + [c];
      ArriveAgrees(token, before, Serve(before).0, Serve(before).1, c);
    }
  }

  /** A token is pending exactly when it has arrived an odd number of times, and then once. */
  lemma {:induction false} PendingParity(arrivals: seq<Conn>)
    ensures forall i, j :: 0 <= i < j < |Serve(arrivals).0| ==> Serve(arrivals).0[i].token != Serve(arrivals).0[j].token
    ensures forall token :: |Of(token, Serve(arrivals).0)| == |Of(token, arrivals)| % 2
  {
    var pending := Serve(arrivals).0;
    forall token ensures |Of(token, pending)| == |Of(token, arrivals)| % 2 {
      ServeRefinesParity(arrivals, token);
    }
    forall i, j | 0 <= i < j < |pending| ensures pending[i].token != pending[j].token {
      ServeRefinesParity(arrivals, pending[i].token);
      if pending[i].token == pending[j].token { TwoOf(pending, i, j); }
    }
  }

  lemma TwoOf(s: seq<Conn>, i: nat, j: nat)
    requires i < j < |s| && s[i].token == s[j].token
    ensures |Of(s[i].token, s)| >= 2
  {
    var t := s[i].token;
    assert s == s[..j] + s[j..];
    OfAppend(t, s[..j], s[j..]);
    OfNone(t, s[..j]);
    OfNone(t, s[j..]);
    assert s[..j][i].token == t && s[j..][0].token == t;
  }

  function Members(pairs: seq<Pair>): multiset<Conn> {
    if pairs == [] then multiset{}
    else Members(pairs[..|pairs| - 1]) + multiset{pairs[|pairs| - 1].command, pairs[|pairs| - 1].data}
  }

  lemma TakeOutMultiset(s: seq<Conn>, k: nat)
    requires k < |s|
    ensures multiset(s) == multiset(Without(s, k)) + multiset{s[k]}
  {
    assert s == s[..k] + [s[k]] + s[k + 1..];
  }

  lemma ArriveConserves(pending: seq<Conn>, pairs: seq<Pair>, c: Conn)
    ensures var (pending', pairs') := Arrive(pending, pairs, c);
            multiset(pending') + Members(pairs') == multiset(pending) + Members(pairs) + multiset{c}
  {
    var k := Find(pending, c.token);
    if k < |pending| {
      var p := Pair(pending[k], c);
      assert (pairs + [p])[..|pairs|] == pairs;
      TakeOutMultiset(pending, k);
      hide Without;
    }
  }

  /** Every arrival is either pending or in exactly one pair: none is lost, duplicated or invented. */
  lemma {:induction false} ServeConserves(arrivals: seq<Conn>)
    ensures multiset(arrivals) == multiset(Serve(arrivals).0) + Members(Serve(arrivals).1)
    decreases |arrivals|
  {
    if arrivals != [] {
      var before, c := arrivals[..|arrivals| - 1], arrivals[|arrivals| - 1];
      hide Arrive, Members;
      ServeConserves(before);
      assert arrivals == before + [c];
      ArriveConserves(Serve(before).0, Serve(before).1, c);
    }
  }

  lemma {:induction false} OnceEach(s: seq<Conn>, c: Conn)
    requires forall i, j :: 0 <= i < j < |s| ==> s[i] != s[j]
    ensures multiset(s)[c] <= 1
    decreases |s|
  {
    if s != [] {
      OnceEach(s[1..], c);
      assert s == [s[0]] + s[1..];
    }
  }

  /** With a fresh socket for every arrival, no connection is in two pairs, twice in one, or both paired and pending. */
  lemma SocketsUsedOnce(arrivals: seq<Conn>, c: Conn)
    requires forall i, j :: 0 <= i < j < |arrivals| ==> arrivals[i].socket != arrivals[j].socket
    ensures multiset(Serve(arrivals).0)[c] + Members(Serve(arrivals).1)[c] <= 1
  {
    hide Serve, Members;
    ServeConserves(arrivals);
    OnceEach(arrivals, c);
  }

  /** The k-th pair returned for a token joins its (2k-1)-th and 2k-th arrivals, the earlier as command socket. */
  lemma {:induction false} KthPair(arrivals: seq<Conn>, token: seq<Byte>, k: nat)
    requires 2 * k + 1 < |Of(token, arrivals)|
    ensures var pairs := PairsOf(token, Serve(arrivals).1);
            k < |pairs| && pairs[k] == Pair(Of(token, arrivals)[2 * k], Of(token, arrivals)[2 * k + 1])
  {
    hide Serve, PairsOf, Of;
    ServeRefinesParity(arrivals, token);
    PairUpAt(Of(token, arrivals), k);
  }

  // ---------------------------------------------------------------- the server's list and loop

  function Values(nodes: seq<Node<Conn>>): (s: seq<Conn>)
    ensures |s| == |nodes|
  {
    seq(|nodes|, i requires 0 <= i < |nodes| => nodes[i].value)
  }

  /** The search on the heap finds the position the specification names. */
  lemma FoundIsFind(nodes: seq<Node<Conn>>, c: Conn, k: nat)
    requires NulFree(c.token) && forall i :: 0 <= i < |nodes| ==> NulFree(nodes[i].value.token)
    requires k <= |nodes| && forall i :: 0 <= i < k ==> NameCmp(nodes[i].value, c) != 0
    requires k < |nodes| ==> NameCmp(nodes[k].value, c) == 0
    ensures k == Find(Values(nodes), c.token)
  {
    forall i | 0 <= i < |nodes| ensures NameCmp(nodes[i].value, c) == 0 <==> Values(nodes)[i].token == c.token {
      StrCmpZero(nodes[i].value.token, c.token);
    }
    var f := Find(Values(nodes), c.token);
    assert f < |nodes| ==> Values(nodes)[f].token == c.token;
  }

  lemma ServeNext(seen: seq<Conn>, c: Conn)
    ensures Serve(seen + [c]) == Arrive(Serve(seen).0, Serve(seen).1, c)
  {
    assert (seen + [c])[..|seen|] == seen;
  }

  /** A connection as accepted: all its peer will send, its socket and its address. */
  datatype Arrival = Arrival(stream: seq<Byte>, socket: int, info: int)

  /** The message buffer after receive_message, whatever came of it. */
  function Received(buffer: seq<Byte>, stream: seq<Byte>): (after: seq<Byte>)
    requires |buffer| == MESSAGE_BUFFERSIZE
    ensures |after| == MESSAGE_BUFFERSIZE
  {
    Spliced(buffer, 0, TextArrived(stream))
  }

  function LeftBehind(arrivals: seq<Arrival>, buffer: seq<Byte>): (after: seq<Byte>)
    requires |buffer| == MESSAGE_BUFFERSIZE
    ensures |after| == MESSAGE_BUFFERSIZE
    decreases |arrivals|
  {
    if arrivals == [] then buffer
    else Received(LeftBehind(arrivals[..|arrivals| - 1], buffer), arrivals[|arrivals| - 1].stream)
  }

  /** The connections with their tokens: each token is what the buffer then holds, so that an empty or incomplete
      first message leaves all or part of the previous one's. */
  function Tokens(arrivals: seq<Arrival>, buffer: seq<Byte>): (conns: seq<Conn>)
    requires |buffer| == MESSAGE_BUFFERSIZE
    ensures |conns| == |arrivals|
    decreases |arrivals|
  {
    if arrivals == [] then [] else
    var last := arrivals[|arrivals| - 1];
    Tokens(arrivals[..|arrivals| - 1], buffer) + [Conn(Text(LeftBehind(arrivals, buffer)), last.socket, last.info)]
  }

  lemma TokensNext(arrivals: seq<Arrival>, k: nat, buffer: seq<Byte>)
    requires k < |arrivals| && |buffer| == MESSAGE_BUFFERSIZE
    ensures LeftBehind(arrivals[..k + 1], buffer) == Received(LeftBehind(arrivals[..k], buffer), arrivals[k].stream)
    ensures Tokens(arrivals[..k + 1], buffer) == Tokens(arrivals[..k], buffer)
            + [Conn(Text(LeftBehind(arrivals[..k + 1], buffer)), arrivals[k].socket, arrivals[k].info)]
  {
    assert arrivals[..k + 1][..k] == arrivals[..k];
  }

  /** A connection gets the token its peer sent exactly when the peer sent a nonempty one or the buffer was empty. */
  lemma TokenExact(m: Message, rest: seq<Byte>, buffer: seq<Byte>)
    requires Sendable(m) && |buffer| == MESSAGE_BUFFERSIZE
    ensures Text(Received(buffer, EncodeMessage(m) + rest)) == m.text <==> m.text != [] || buffer[0] == 0
  {
    LoadEncodedMessage(m, rest);
    assert Received(buffer, EncodeMessage(m) + rest) == BufferAfter(m, buffer);
    TextRoundTrip(m, buffer);
  }

  /** The server's global list with the connections that will still arrive. */
  class Acceptor {
    const list: DList<Conn>
    var arrivals: seq<Arrival>
    ghost var seen: seq<Conn>
    ghost var pairs: seq<Pair>

    ghost predicate Valid()
      reads this, list, list.nodes
    {
      && list.Valid()
      && Serve(seen) == (Values(list.nodes), pairs)
      && (forall i :: 0 <= i < |list.nodes| ==> NulFree(list.nodes[i].value.token))
    }

    constructor (arrivals: seq<Arrival>)
      ensures Valid() && this.arrivals == arrivals && seen == [] && pairs == []
    {
      list := new DList<Conn>();
      this.arrivals := arrivals;
      seen, pairs := [], [];
    }

    /** Searches the list for the connection's token; takes the match out or appends the connection. */
    method Match(connection: Node<Conn>) returns (client: Option<Pair>)
      requires Valid() && NulFree(connection.value.token) && connection !in list.nodes
      modifies this`seen, this`pairs, list, list.nodes`next, list.nodes`prev, connection`next, connection`prev
      ensures Valid() && seen == old(seen) + [connection.value]
      ensures pairs == old(pairs) + if client.Some? then [client.value] else []
      ensures client.Some? ==> client.value.data == connection.value
      ensures forall k :: 0 <= k < |list.nodes| ==> list.nodes[k] in old(list.nodes) || list.nodes[k] == connection
    {
      hide Serve, Find, Doubly, NulFree, StrCmp;
      ghost var c, was := connection.value, Values(list.nodes);
      var elt, k := list.Search(NameCmp, connection.value);
      FoundIsFind(list.nodes, c, k);
      ServeNext(seen, c);
      seen := seen + [c];
      if elt != null {
        list.Delete(elt, k);
        assert Values(list.nodes) == Without(was, k);
        client := Some(Pair(elt.value, connection.value));
        pairs := pairs + [client.value];
      } else {
        list.Append(connection);
        assert Values(list.nodes) == was + [c];
        client := None;
      }
    }

    /** Takes connections until one completes a pair; None when none is left to arrive. `message` is the buffer on the
        stack with whatever it holds. */
    method AcceptConnection(message: array<Byte>) returns (client: Option<Pair>, ghost taken: nat)
      requires Valid() && message.Length == MESSAGE_BUFFERSIZE
      modifies this`arrivals, this`seen, this`pairs, list, list.nodes`next, list.nodes`prev, message
      ensures Valid() && taken <= |old(arrivals)| && arrivals == old(arrivals)[taken..]
      ensures seen == old(seen) + Tokens(old(arrivals)[..taken], old(message[..]))
      ensures pairs == old(pairs) + if client.Some? then [client.value] else []
      ensures client == None ==> arrivals == []
      ensures client.Some? ==>
                taken > 0 && client.value.data == Tokens(old(arrivals)[..taken], old(message[..]))[taken - 1]
    {
      hide TextArrived, Text, Spliced, Serve, Received;
      ghost var all, was := arrivals, message[..];
      taken := 0;
      while true
        invariant Valid() && taken <= |all| && arrivals == all[taken..]
        invariant seen == old(seen) + Tokens(all[..taken], was) && message[..] == LeftBehind(all[..taken], was)
        invariant pairs == old(pairs)
        invariant forall k :: 0 <= k < |list.nodes| ==> list.nodes[k] in old(list.nodes) || fresh(list.nodes[k])
        decreases |arrivals|
      {
        if arrivals == [] { return None, taken; }
        TokensNext(all, taken, was);
        var connection := TakeNext(message);
        taken := taken + 1;
        client := Match(connection);
        if client.Some? { return; }
      }
    }

    /** accept and receive_message: the token is copied from the buffer even if no complete message came. */
    method TakeNext(message: array<Byte>) returns (connection: Node<Conn>)
      requires Valid() && arrivals != [] && message.Length == MESSAGE_BUFFERSIZE
      modifies this`arrivals, message
      ensures Valid() && arrivals == old(arrivals)[1..] && fresh(connection)
      ensures message[..] == Received(old(message[..]), old(arrivals)[0].stream)
      ensures connection.value == Conn(Text(message[..]), old(arrivals)[0].socket, old(arrivals)[0].info)
    {
      hide TextArrived, Spliced, Serve, EncodeMessage;
      var socket := new Socket(arrivals[0].stream);
      var status, flag := ReceiveMessage(socket, message);
      var token := message[..StrnLen(message[..], MESSAGE_BUFFERSIZE)];
      connection := new Node<Conn>(Conn(token, arrivals[0].socket, arrivals[0].info));
      arrivals := arrivals[1..];
    }
  }
}

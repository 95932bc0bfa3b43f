/** Both ends of the control connection together: the scripted server of
    tests/mock_control_server.py serves a cut-up stream of requests, and the client of
    tests/control_client.py reads a cut-up stream of its replies. */
module ControlConversation {
  import opened Common
  import opened Bytes
  import opened Sockets
  import opened ControlFraming

  /** The network: it cuts a stream into non-empty pieces any way it likes. */
  ghost predicate Delivers(cut: bytes -> seq<bytes>) {
    forall b :: Flatten(cut(b)) == b && NoneEmpty(cut(b))
  }

  ghost predicate NoneEmpty(pieces: seq<bytes>) {
    forall i :: 0 <= i < |pieces| ==> pieces[i] != []
  }

  /** No piece exceeds one `recv` and no line comes near the buffer bound. */
  ghost predicate WithinBounds(pieces: seq<bytes>) {
    && (forall i :: 0 <= i < |pieces| ==> |pieces[i]| <= RECV_MAX)
    && ShortLines(Flatten(pieces), BUFFER_LIMIT - RECV_MAX)
  }

  lemma AllAdmitted(pieces: seq<bytes>)
    requires WithinBounds(pieces)
    ensures Admitted([], pieces) == |pieces| && pieces[..|pieces|] == pieces
  {
    assert [] + Flatten(pieces) == Flatten(pieces);
    BoundNeverTrips([], pieces);
  }

  /** Reading frames until the stream ends: exactly the lines that were sent, in order. */
  method ReadAllFrames(client: Client) returns (lines: seq<bytes>)
    requires client.Valid()
    modifies client`buffer, client.sock
    ensures lines == Lines(old(client.Pending()))
  {
    lines := [];
    ghost var all := Lines(client.Pending());
    while true
      invariant client.Valid() && all == lines + Lines(client.Pending())
      decreases |all| - |lines|
    {
      ghost var rest := Lines(client.Pending());
      var f := client.ReadFrame();
      match f
      case Line(text) =>
        assert lines + ([text] + rest[1..]) == (lines + [text]) + rest[1..];
        lines := lines + [text];
      case EndOfStream =>
        assert lines + [] == lines;
        return;
    }
  }

  /** A whole conversation, fragmented in both directions: without overrides the client
      reads one reply per request, and the i-th carries the i-th request's id. */
  method Converse(server: Server, requests: Connection, cut: bytes -> seq<bytes>, idOf: bytes -> Option<string>)
      returns (replies: seq<bytes>)
    requires Plain(server.fx) && Faithful(server.fx, idOf) && server.log.rawResponses == []
    requires NoneEmpty(requests.incoming) && WithinBounds(requests.incoming) && Delivers(cut)
    modifies server, requests
    ensures var frames := NonEmpty(Lines(Flatten(old(requests.incoming))));
            && |replies| == |frames|
            && forall i :: 0 <= i < |frames| ==> idOf(replies[i]) == server.fx.parse(frames[i]).id
  {
    ghost var pieces, log := requests.incoming, server.log;
    ghost var frames := NonEmpty(Lines(Flatten(pieces)));
    AllAdmitted(pieces);
    var open := server.HandleClient(requests);
    RepliesCorrelate(server.fx, idOf, log, frames);
    var wire := Flatten(server.log.rawResponses);
    var sock := new Connection(cut(wire));
    var client := new Client(sock);
    assert client.Pending() == wire by { assert [] + wire == wire; }
    replies := ReadAllFrames(client);
  }
}

/** The response parsers of tests/http_harness.py: one response off the front of a
    buffer, a stream that reads responses from a connection as pieces arrive, and
    the parser that splits a whole byte stream at once. */
module Responses {
  import opened Common
  import opened Bytes
  import opened Chunked
  import opened Sockets
  import opened Numerals

  /** A status line and its headers, as text; header names are already lower case. */
  datatype Head = Head(statusText: string, reason: string, headers: map<string, string>)

  /** Splitting, latin-1 decoding and stripping of a head; `None` is "not a status
      line". Every theorem below holds for every such function. */
  type HeadDecoder = bytes -> Option<Head>

  datatype Response =
    Response(status: nat, reason: string, headers: map<string, string>, body: bytes, raw: bytes)

  const BLANK_LINE: bytes := CRLF + CRLF

  predicate IsChunked(h: Head) {
    "transfer-encoding" in h.headers && Lower(h.headers["transfer-encoding"]) == "chunked"
  }

  function ContentLength(h: Head): Option<nat> {
    if "content-length" !in h.headers then Some(0)
    else if IsNatural(h.headers["content-length"]) then Some(ParseNatural(h.headers["content-length"]))
    else None
  }

  /** The body a head announces, off the front of what followed it
      (section 6 of RFC 9112). */
  function TakeBody(h: Head, rest: bytes): (d: Decoded)
    ensures d.Body? ==> |d.rest| <= |rest|
  {
    if IsChunked(h) then DecodeShrinks(rest); Decode(rest)
    else match ContentLength(h)
      case None => Malformed
      case Some(n) => if |rest| < n then Incomplete else Body(rest[..n], rest[n..])
  }

  lemma {:induction false} DecodeShrinks(data: bytes)
    ensures Decode(data).Body? ==> |Decode(data).rest| <= |data|
    decreases |data|
  {
    match NextChunk(data)
    case Chunk(_, rest) => DecodeShrinks(rest);
    case _ =>
  }

  datatype Prefix = Parsed(response: Response, rest: bytes) | NeedMore | Invalid {
    function Extend(more: bytes): Prefix {
      if Parsed? then Parsed(response, rest + more) else this
    }
  }

  /** The status number is read last, after the body is known to be whole. */
  function Finish(h: Head, raw: bytes, d: Decoded): Prefix {
    match d
    case Incomplete => NeedMore
    case Malformed => Invalid
    case Body(body, rest) =>
      if IsNatural(h.statusText)
      then Parsed(Response(ParseNatural(h.statusText), h.reason, h.headers, body, raw), rest)
      else Invalid
  }

  /** `parse_prefix` with `partial_ok`. */
  function ParsePrefix(decode: HeadDecoder, raw: bytes): (p: Prefix)
    ensures p.Parsed? ==> |p.rest| < |raw|
  {
    var split := Find(raw, BLANK_LINE);
    if split < 0 then NeedMore
    else
      match decode(raw[..split])
      case None => Invalid
      case Some(h) => Finish(h, raw[..split], TakeBody(h, raw[split + 4..]))
  }

  lemma TakeBodyStable(h: Head, rest: bytes, more: bytes)
    requires !TakeBody(h, rest).Incomplete?
    ensures TakeBody(h, rest + more) == TakeBody(h, rest).Extend(more)
  {
    if IsChunked(h) {
      DecodeStable(rest, more);
    } else if ContentLength(h).Some? {
      var n := ContentLength(h).value;
      assert (rest + more)[..n] == rest[..n];
      assert (rest + more)[n..] == rest[n..] + more;
    }
  }

  /** A parsed prefix stays parsed, and a rejected one rejected, under any extension. */
  lemma PrefixStable(decode: HeadDecoder, raw: bytes, more: bytes)
    requires !ParsePrefix(decode, raw).NeedMore?
    ensures ParsePrefix(decode, raw + more) == ParsePrefix(decode, raw).Extend(more)
  {
    var split := Find(raw, BLANK_LINE);
    FindStable(raw, more, BLANK_LINE);
    assert (raw + more)[..split] == raw[..split];
    assert (raw + more)[split + 4..] == raw[split + 4..] + more;
    var h := decode(raw[..split]);
    if h.Some? {
      TakeBodyStable(h.value, raw[split + 4..], more);
    }
  }

  // --- reading from a connection ---------------------------------------------

  datatype Received = Got(response: Response) | Closed | Failed

  /** Everything repeated reads make of a byte stream: the responses, the bytes never
      consumed, and whether the reading stopped for want of bytes (rather than on an
      error). */
  datatype Transcript = Transcript(responses: seq<Response>, leftover: bytes, clean: bool) {
    function After(earlier: seq<Response>): Transcript {
      this.(responses := earlier + responses)
    }
  }

  function Incremental(decode: HeadDecoder, raw: bytes): Transcript
    decreases |raw|
  {
    match ParsePrefix(decode, raw)
    case NeedMore => Transcript([], raw, true)
    case Invalid => Transcript([], raw, false)
    case Parsed(r, rest) =>
      Incremental(decode, rest).After([r])
  }

  lemma IncrementalStep(decode: HeadDecoder, raw: bytes, earlier: seq<Response>)
    ensures var p := ParsePrefix(decode, raw);
            Incremental(decode, raw).After(earlier) ==
            if p.Parsed? then Incremental(decode, p.rest).After(earlier + [p.response])
            else Transcript(earlier, raw, p.NeedMore?)
  {
    match ParsePrefix(decode, raw)
    case Parsed(r, rest) =>
      var more := Incremental(decode, rest).responses;
      assert earlier + ([r] + more) == (earlier + [r]) + more;
    case _ =>
      assert earlier + [] == earlier;
  }

  class ResponseStream {
    const sock: Connection
    const decode: HeadDecoder
    var buffered: bytes

    constructor (sock: Connection, decode: HeadDecoder)
      ensures this.sock == sock && this.decode == decode && buffered == []
    {
      this.sock, this.decode, buffered := sock, decode, [];
    }

    ghost predicate Valid()
      reads this, sock
    {
      forall i :: 0 <= i < |sock.incoming| ==> sock.incoming[i] != []
    }

    /** The bytes not yet turned into a response, wherever they currently are. */
    ghost function Pending(): bytes
      reads this, sock
    {
      buffered + Flatten(sock.incoming)
    }

    /** `ResponseStream.next`. The outcome is a function of the bytes pending, so no
        cutting of them can change it; a response takes exactly its own bytes. */
    method Next() returns (r: Received)
      requires Valid()
      modifies this`buffered, sock
      ensures Valid()
      ensures match r
        case Got(response) => ParsePrefix(decode, old(Pending())) == Parsed(response, Pending())
        case Closed => ParsePrefix(decode, old(Pending())) == NeedMore && Pending() == old(Pending())
        case Failed => ParsePrefix(decode, old(Pending())) == Invalid && Pending() == old(Pending())
    {
      while true
        invariant Valid() && Pending() == old(Pending())
        decreases |sock.incoming|
      {
        var p := ParsePrefix(decode, buffered);
        if !p.NeedMore? {
          PrefixStable(decode, buffered, Flatten(sock.incoming));
          if p.Invalid? {
            return Failed;
          }
          buffered := p.rest;
          return Got(p.response);
        }
        ghost var before := sock.incoming;
        var piece := sock.Recv();
        if piece == [] {
          assert buffered + [] == buffered;
          return Closed;
        }
        assert buffered + (piece + Flatten(sock.incoming)) == (buffered + piece) + Flatten(sock.incoming);
        buffered := buffered + piece;
      }
    }

    /** Calling `next` until it stops yields the same responses for every cutting of
        the stream into pieces, with no byte lost or duplicated. */
    method ReadAll() returns (responses: seq<Response>, end: Received)
      requires Valid()
      modifies this`buffered, sock
      ensures !end.Got?
      ensures Incremental(decode, old(Pending())) == Transcript(responses, Pending(), end.Closed?)
    {
      responses := [];
      ghost var goal := Incremental(decode, Pending());
      assert goal.After([]) == goal;
      while true
        invariant Valid()
        invariant goal == Incremental(decode, Pending()).After(responses)
        decreases |Pending()|
      {
        IncrementalStep(decode, Pending(), responses);
        end := Next();
        match end
        case Got(r) =>
          responses := responses + [r];
        case _ =>
          return;
      }
    }
  }

  // --- splitting a whole stream ------------------------------------------------

  /** The body as `parse_responses` takes it: a chunked body must be whole, but a
      declared length is only an upper bound on the slice. */
  function TakeWhole(h: Head, rest: bytes): (d: Decoded)
    ensures d.Body? ==> |d.rest| <= |rest|
  {
    if IsChunked(h) then DecodeShrinks(rest); Decode(rest).InMode(false)
    else match ContentLength(h)
      case None => Malformed
      case Some(n) => var k := Min(n, |rest|); Body(rest[..k], rest[k..])
  }

  function WholePrefix(decode: HeadDecoder, raw: bytes): (p: Prefix)
    ensures p.Parsed? ==> |p.rest| < |raw|
  {
    var split := Find(raw, BLANK_LINE);
    if split < 0 then NeedMore
    else
      match decode(raw[..split])
      case None => Invalid
      case Some(h) => Finish(h, raw[..split], TakeWhole(h, raw[split + 4..]))
  }

  function WholeStream(decode: HeadDecoder, raw: bytes): Option<seq<Response>>
    decreases |raw|
  {
    match WholePrefix(decode, raw)
    case NeedMore => Some([])
    case Invalid => None
    case Parsed(r, rest) =>
      Prepend([r], WholeStream(decode, rest))
  }

  function Prepend(earlier: seq<Response>, more: Option<seq<Response>>): Option<seq<Response>> {
    if more.None? then None else Some(earlier + more.value)
  }

  lemma PrependNothing(more: Option<seq<Response>>)
    ensures Prepend([], more) == more
  {
    if more.Some? {
      assert [] + more.value == more.value;
    }
  }

  lemma PrependTwice(a: seq<Response>, b: seq<Response>, more: Option<seq<Response>>)
    ensures Prepend(a, Prepend(b, more)) == Prepend(a + b, more)
  {
    if more.Some? {
      assert a + (b + more.value) == (a + b) + more.value;
    }
  }

  /** `parse_responses`; `None` is a raised error. */
  method ParseResponses(decode: HeadDecoder, raw: bytes) returns (out: Option<seq<Response>>)
    ensures out == WholeStream(decode, raw)
  {
    var responses, rest := [], raw;
    PrependNothing(WholeStream(decode, raw));
    while rest != []
      invariant WholeStream(decode, raw) == Prepend(responses, WholeStream(decode, rest))
      decreases |rest|
    {
      var split := Find(rest, BLANK_LINE);
      if split < 0 {
        break;
      }
      var head, after := rest[..split], rest[split + 4..];
      var h := decode(head);
      if h.None? {
        return None;
      }
      var taken;
      if IsChunked(h.value) {
        taken := DecodeChunked(after, false);
      } else {
        taken := TakeWhole(h.value, after);
      }
      if taken.Malformed? || !IsNatural(h.value.statusText) {
        return None;
      }
      var response := Response(ParseNatural(h.value.statusText), h.value.reason, h.value.headers, taken.body, head);
      assert WholePrefix(decode, rest) == Parsed(response, taken.rest);
      PrependTwice(responses, [response], WholeStream(decode, taken.rest));
      responses := responses + [response];
      rest := taken.rest;
    }
    assert responses + [] == responses;
    return Some(responses);
  }

  lemma WholePrefixAgrees(decode: HeadDecoder, raw: bytes)
    requires !ParsePrefix(decode, raw).NeedMore?
    ensures WholePrefix(decode, raw) == ParsePrefix(decode, raw)
  {
  }

  /** What `parse_responses` makes of the bytes the stream reader would still be
      waiting to complete: nothing if the head is not all there, otherwise an error,
      or a response whose body is cut short. */
  function LastWord(decode: HeadDecoder, leftover: bytes): Option<seq<Response>> {
    match WholePrefix(decode, leftover)
    case NeedMore => Some([])
    case Invalid => None
    case Parsed(r, _) => Some([r])
  }

  lemma Truncated(decode: HeadDecoder, leftover: bytes)
    requires ParsePrefix(decode, leftover).NeedMore? && WholePrefix(decode, leftover).Parsed?
    ensures WholePrefix(decode, leftover).rest == []
    ensures var split := Find(leftover, BLANK_LINE);
            && split >= 0 && decode(leftover[..split]).Some?
            && var n := ContentLength(decode(leftover[..split]).value);
            && n.Some? && |WholePrefix(decode, leftover).response.body| < n.value
  {
  }

  lemma WholeOfLeftover(decode: HeadDecoder, leftover: bytes)
    requires ParsePrefix(decode, leftover).NeedMore?
    ensures WholeStream(decode, leftover) == LastWord(decode, leftover)
  {
    var p := WholePrefix(decode, leftover);
    if p.Parsed? {
      Truncated(decode, leftover);
      assert WholeStream(decode, p.rest) == Some([]);
      assert [p.response] + [] == [p.response];
    }
  }

  lemma {:induction false} WholeFromTranscript(decode: HeadDecoder, raw: bytes)
    ensures var t := Incremental(decode, raw);
            WholeStream(decode, raw) ==
            if t.clean then Prepend(t.responses, LastWord(decode, t.leftover)) else None
    decreases |raw|
  {
    match ParsePrefix(decode, raw)
    case Invalid => WholePrefixAgrees(decode, raw);
    case Parsed(r, rest) =>
      WholePrefixAgrees(decode, raw);
      WholeFromTranscript(decode, rest);
      var t := Incremental(decode, rest);
      PrependTwice([r], t.responses, LastWord(decode, t.leftover));
    case NeedMore =>
      WholeOfLeftover(decode, raw);
      PrependNothing(LastWord(decode, raw));
  }

  /** For every byte stream, the two parsers are related; they agree exactly when
      the stream reader stopped cleanly with no complete head left over. */
  lemma WholeAgainstIncremental(decode: HeadDecoder, raw: bytes)
    ensures var t := Incremental(decode, raw);
            && WholeStream(decode, raw) ==
               (if t.clean then Prepend(t.responses, LastWord(decode, t.leftover)) else None)
            && (WholeStream(decode, raw) == Some(t.responses) <==> t.clean && Find(t.leftover, BLANK_LINE) < 0)
  {
    WholeFromTranscript(decode, raw);
    var t := Incremental(decode, raw);
    SameList(t.responses, LastWord(decode, t.leftover));
  }

  lemma SameList(responses: seq<Response>, last: Option<seq<Response>>)
    ensures Prepend(responses, last) == Some(responses) <==> last == Some([])
  {
    if last.Some? {
      assert |responses + last.value| == |responses| + |last.value|;
    }
    assert responses + [] == responses;
  }

  /** On a concatenation of complete responses both parsers return exactly those
      responses and consume everything. */
  lemma {:induction false} CompleteResponses(decode: HeadDecoder, wires: seq<bytes>, responses: seq<Response>)
    requires |wires| == |responses|
    requires forall i :: 0 <= i < |wires| ==> ParsePrefix(decode, wires[i]) == Parsed(responses[i], [])
    ensures Incremental(decode, Flatten(wires)) == Transcript(responses, [], true)
    ensures WholeStream(decode, Flatten(wires)) == Some(responses)
  {
    if wires != [] {
      var more := Flatten(wires[1..]);
      PrefixStable(decode, wires[0], more);
      assert ParsePrefix(decode, wires[0] + more) == Parsed(responses[0], more) by { assert [] + more == more; }
      CompleteResponses(decode, wires[1..], responses[1..]);
      assert [responses[0]] + responses[1..] == responses;
    }
    WholeAgainstIncremental(decode, Flatten(wires));
  }
}

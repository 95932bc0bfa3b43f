/** Chunked transfer coding, section 7.1 of RFC 9112: the test harness's decoder
    (tests/http_harness.py) against the grammar, and the encoder it inverts
    (tests/test_http_fragments.py). */
module Chunked {
  import opened Bytes

  // --- chunk sizes: 1*HEXDIG ------------------------------------------------

  predicate IsHex(b: byte) {
    48 <= b <= 57 || 97 <= b <= 102 || 65 <= b <= 70
  }

  function HexDigitValue(b: byte): (v: nat)
    requires IsHex(b)
    ensures v < 16
  {
    if b <= 57 then b as int - 48
    else if b <= 70 then b as int - 55
    else b as int - 87
  }

  function HexDigit(v: nat): (b: byte)
    requires v < 16
    ensures IsHex(b) && HexDigitValue(b) == v
  {
    if v < 10 then (48 + v) as byte else (87 + v) as byte
  }

  predicate IsChunkSize(header: bytes) {
    header != [] && forall i :: 0 <= i < |header| ==> IsHex(header[i])
  }

  /** `int(header, 16)` on a string of hexadecimal digits. */
  function ParseHex(header: bytes): nat
    requires forall i :: 0 <= i < |header| ==> IsHex(header[i])
  {
    if header == [] then 0
    else ParseHex(header[..|header| - 1]) * 16 + HexDigitValue(header[|header| - 1])
  }

  /** `f"{n:x}"`: lower case, no leading zeros, a single digit for zero. */
  function FormatHex(n: nat): (s: bytes)
    ensures IsChunkSize(s)
    ensures ParseHex(s) == n
  {
    if n < 16 then
      assert [HexDigit(n)][..0] == [];
      [HexDigit(n)]
    else
      var s := FormatHex(n / 16) + [HexDigit(n % 16)];
      assert s[..|s| - 1] == FormatHex(n / 16);
      s
  }

  // --- the decoder ------------------------------------------------------------

  datatype Decoded = Body(body: bytes, rest: bytes) | Incomplete | Malformed {
    function Prepend(front: bytes): Decoded {
      if Body? then Body(front + body, rest) else this
    }
    function Extend(more: bytes): Decoded {
      if Body? then Body(body, rest + more) else this
    }
    /** With `partial_ok` false, running out of bytes is an error like any other. */
    function InMode(partialOk: bool): Decoded {
      if Incomplete? && !partialOk then Malformed else this
    }
  }

  /** What the next chunk header says about the bytes in hand. */
  datatype Progress = Chunk(data: bytes, rest: bytes) | Final(rest: bytes) | Short | Bad {
    function Extend(more: bytes): Progress {
      match this
      case Chunk(d, r) => Chunk(d, r + more)
      case Final(r) => Final(r + more)
      case _ => this
    }
  }

  function NextChunk(data: bytes): (p: Progress)
    ensures p.Chunk? ==> p.data != [] && |p.rest| < |data|
  {
    var split := Find(data, CRLF);
    if split < 0 then Short
    else
      var header, rest := data[..split], data[split + 2..];
      if !IsChunkSize(header) then Bad
      else
        var size := ParseHex(header);
        if size == 0 then
          if |rest| < 2 then Short else if rest[..2] != CRLF then Bad else Final(rest[2..])
        else if |rest| < size + 2 then Short
        else if rest[size..size + 2] != CRLF then Bad
        else Chunk(rest[..size], rest[size + 2..])
  }

  function Decode(data: bytes): Decoded
    decreases |data|
  {
    match NextChunk(data)
    case Chunk(d, rest) => Decode(rest).Prepend(d)
    case Final(rest) => Body([], rest)
    case Short => Incomplete
    case Bad => Malformed
  }

  /** The body of the decoding loop, up to the chunk it takes. */
  method TakeChunk(rest: bytes) returns (p: Progress)
    ensures p == NextChunk(rest)
  {
    var split := Find(rest, CRLF);
    if split < 0 {
      return Short;
    }
    var header, after := rest[..split], rest[split + 2..];
    if !IsChunkSize(header) {
      return Bad;
    }
    var size := ParseHex(header);
    if size == 0 {
      if |after| < 2 {
        return Short;
      }
      return if after[..2] == CRLF then Final(after[2..]) else Bad;
    }
    if |after| < size + 2 {
      return Short;
    }
    return if after[size..size + 2] == CRLF then Chunk(after[..size], after[size + 2..]) else Bad;
  }

  /** `decode_chunked`. */
  method DecodeChunked(data: bytes, partialOk: bool) returns (r: Decoded)
    ensures r == Decode(data).InMode(partialOk)
  {
    var body, rest := [], data;
    PrependNothing(Decode(data));
    while true
      invariant Decode(data) == Decode(rest).Prepend(body)
      decreases |rest|
    {
      var p := TakeChunk(rest);
      match p
      case Short => return if partialOk then Incomplete else Malformed;
      case Bad => return Malformed;
      case Final(after) =>
        assert body + [] == body;
        return Body(body, after);
      case Chunk(d, after) =>
        PrependTwice(Decode(after), body, d);
        body, rest := body + d, after;
    }
  }

  lemma PrependNothing(d: Decoded)
    ensures d.Prepend([]) == d
  {
    if d.Body? {
      assert [] + d.body == d.body;
    }
  }

  lemma PrependTwice(d: Decoded, a: bytes, b: bytes)
    ensures d.Prepend(b).Prepend(a) == d.Prepend(a + b)
  {
    if d.Body? {
      assert a + (b + d.body) == (a + b) + d.body;
    }
  }

  // --- an answer, once given, survives every later byte -----------------------

  lemma NextChunkStable(s: bytes, t: bytes)
    requires !NextChunk(s).Short?
    ensures NextChunk(s + t) == NextChunk(s).Extend(t)
  {
    var split := Find(s, CRLF);
    FindStable(s, t, CRLF);
    var header, rest := s[..split], s[split + 2..];
    assert (s + t)[..split] == header;
    assert (s + t)[split + 2..] == rest + t;
    if IsChunkSize(header) {
      var size := ParseHex(header);
      if size == 0 {
        assert (rest + t)[..2] == rest[..2];
        assert (rest + t)[2..] == rest[2..] + t;
      } else {
        assert (rest + t)[size..size + 2] == rest[size..size + 2];
        assert (rest + t)[..size] == rest[..size];
        assert (rest + t)[size + 2..] == rest[size + 2..] + t;
      }
    }
  }

  lemma {:induction false} DecodeStable(s: bytes, t: bytes)
    requires !Decode(s).Incomplete?
    ensures Decode(s + t) == Decode(s).Extend(t)
    decreases |s|
  {
    NextChunkStable(s, t);
    match NextChunk(s)
    case Chunk(d, rest) => DecodeStable(rest, t);
    case _ =>
  }

  // --- the grammar --------------------------------------------------------------

  /** One `chunk` production; `size` may be any spelling of the length. */
  datatype WireChunk = WireChunk(size: bytes, data: bytes) {
    predicate Valid() {
      IsChunkSize(size) && ParseHex(size) == |data| > 0
    }
    function Render(): bytes {
      size + CRLF + data + CRLF
    }
  }

  predicate ValidChunks(chunks: seq<WireChunk>) {
    forall i :: 0 <= i < |chunks| ==> chunks[i].Valid()
  }

  predicate ValidLast(last: bytes) {
    IsChunkSize(last) && ParseHex(last) == 0
  }

  /** `chunked-body = *chunk last-chunk CRLF`, with no extensions or trailers. */
  function RenderBody(chunks: seq<WireChunk>, last: bytes): bytes {
    if chunks == [] then last + CRLF + CRLF
    else chunks[0].Render() + RenderBody(chunks[1..], last)
  }

  function Payload(chunks: seq<WireChunk>): bytes {
    if chunks == [] then [] else chunks[0].data + Payload(chunks[1..])
  }

  lemma HeaderEnds(size: bytes, after: bytes)
    requires IsChunkSize(size)
    ensures Find(size + CRLF + after, CRLF) == |size|
  {
    var s := size + CRLF + after;
    assert s[|size|..|size| + 2] == CRLF;
    forall k: nat | k < |size|
      ensures !At(s, CRLF, k)
    {
      assert s[k..k + 2][0] == size[k];
    }
    FindIs(s, CRLF, |size|);
  }

  lemma RenderedChunk(c: WireChunk, after: bytes)
    requires c.Valid()
    ensures NextChunk(c.Render() + after) == Chunk(c.data, after)
  {
    var rest := c.data + CRLF + after;
    var s := c.Render() + after;
    assert s == c.size + CRLF + rest;
    HeaderEnds(c.size, rest);
    assert s[..|c.size|] == c.size;
    assert s[|c.size| + 2..] == rest;
    assert rest[|c.data|..|c.data| + 2] == CRLF;
    assert rest[|c.data| + 2..] == after;
  }

  lemma RenderedLast(last: bytes, tail: bytes)
    requires ValidLast(last)
    ensures NextChunk(last + CRLF + CRLF + tail) == Final(tail)
  {
    var rest := CRLF + tail;
    var s := last + CRLF + CRLF + tail;
    assert s == last + CRLF + rest;
    HeaderEnds(last, rest);
    assert s[..|last|] == last;
    assert s[|last| + 2..] == rest;
  }

  /** Completeness: every chunked body is decoded to its payload, and what follows
      it on the connection is handed back untouched. */
  lemma {:induction false} DecodesEveryBody(chunks: seq<WireChunk>, last: bytes, tail: bytes)
    requires ValidChunks(chunks) && ValidLast(last)
    ensures Decode(RenderBody(chunks, last) + tail) == Body(Payload(chunks), tail)
  {
    if chunks == [] {
      RenderedLast(last, tail);
    } else {
      var after := RenderBody(chunks[1..], last) + tail;
      assert RenderBody(chunks, last) + tail == chunks[0].Render() + after;
      RenderedChunk(chunks[0], after);
      DecodesEveryBody(chunks[1..], last, tail);
    }
  }

  lemma ChunkWasRendered(data: bytes) returns (c: WireChunk)
    requires NextChunk(data).Chunk?
    ensures c.Valid() && c.data == NextChunk(data).data
    ensures data == c.Render() + NextChunk(data).rest
  {
    var split := Find(data, CRLF);
    var header, rest := data[..split], data[split + 2..];
    assert data == header + CRLF + rest;
    c := WireChunk(header, rest[..ParseHex(header)]);
    assert rest == c.data + CRLF + NextChunk(data).rest;
  }

  lemma FinalWasRendered(data: bytes) returns (last: bytes)
    requires NextChunk(data).Final?
    ensures ValidLast(last) && data == last + CRLF + CRLF + NextChunk(data).rest
  {
    var split := Find(data, CRLF);
    last := data[..split];
    var rest := data[split + 2..];
    assert data == last + CRLF + rest;
    assert rest == CRLF + NextChunk(data).rest;
  }

  /** What one turn of the loop recognises: a chunk, or the last one, exactly when the
      bytes in hand begin with that production of the grammar. */
  lemma NextChunkIsAProduction(data: bytes, d: bytes, rest: bytes)
    ensures NextChunk(data) == Chunk(d, rest) <==>
            exists size :: WireChunk(size, d).Valid() && data == WireChunk(size, d).Render() + rest
    ensures NextChunk(data) == Final(rest) <==>
            exists last :: ValidLast(last) && data == last + CRLF + CRLF + rest
  {
    if NextChunk(data) == Chunk(d, rest) {
      var c := ChunkWasRendered(data);
      assert c == WireChunk(c.size, d);
    }
    forall size | WireChunk(size, d).Valid() && data == WireChunk(size, d).Render() + rest
      ensures NextChunk(data) == Chunk(d, rest)
    {
      RenderedChunk(WireChunk(size, d), rest);
    }
    if NextChunk(data) == Final(rest) {
      var last := FinalWasRendered(data);
    }
    forall last | ValidLast(last) && data == last + CRLF + CRLF + rest
      ensures NextChunk(data) == Final(rest)
    {
      RenderedLast(last, rest);
    }
  }

  ghost predicate Derives(data: bytes, chunks: seq<WireChunk>, last: bytes, body: bytes, rest: bytes) {
    && ValidChunks(chunks) && ValidLast(last)
    && data == RenderBody(chunks, last) + rest
    && body == Payload(chunks)
  }

  lemma RenderCons(c: WireChunk, more: seq<WireChunk>, last: bytes)
    ensures RenderBody([c] + more, last) == c.Render() + RenderBody(more, last)
    ensures Payload([c] + more) == c.data + Payload(more)
  {
    assert ([c] + more)[1..] == more;
  }

  lemma DerivesCons(c: WireChunk, after: bytes, more: seq<WireChunk>, last: bytes, body: bytes, rest: bytes)
    requires c.Valid() && Derives(after, more, last, body, rest)
    ensures Derives(c.Render() + after, [c] + more, last, c.data + body, rest)
  {
    RenderCons(c, more, last);
    Assoc(c.Render(), RenderBody(more, last), rest);
  }

  /** Soundness: an answer exhibits the derivation that produced it. */
  lemma {:induction false} DecodedWasRendered(data: bytes) returns (chunks: seq<WireChunk>, last: bytes)
    requires Decode(data).Body?
    ensures Derives(data, chunks, last, Decode(data).body, Decode(data).rest)
    decreases |data|
  {
    if NextChunk(data).Final? {
      last := FinalWasRendered(data);
      chunks := [];
    } else {
      var c := ChunkWasRendered(data);
      var after := NextChunk(data).rest;
      var more;
      more, last := DecodedWasRendered(after);
      chunks := [c] + more;
      DerivesCons(c, after, more, last, Decode(after).body, Decode(after).rest);
    }
  }

  /** The decoder accepts exactly the language of the grammar. */
  lemma DecoderIsTheGrammar(data: bytes, body: bytes, rest: bytes)
    ensures Decode(data) == Body(body, rest) <==>
            exists chunks, last :: Derives(data, chunks, last, body, rest)
  {
    if Decode(data) == Body(body, rest) {
      var chunks, last := DecodedWasRendered(data);
      assert Derives(data, chunks, last, body, rest);
    }
    forall chunks, last | Derives(data, chunks, last, body, rest)
      ensures Decode(data) == Body(body, rest)
    {
      DecodesEveryBody(chunks, last, rest);
    }
  }

  /** No proper prefix of a body is an early answer or an error: it is `Incomplete`. */
  lemma PrefixIsIncomplete(chunks: seq<WireChunk>, last: bytes, cut: nat)
    requires ValidChunks(chunks) && ValidLast(last)
    requires cut < |RenderBody(chunks, last)|
    ensures Decode(RenderBody(chunks, last)[..cut]) == Incomplete
  {
    var wire := RenderBody(chunks, last);
    var p, q := wire[..cut], wire[cut..];
    assert p + q == wire == wire + [];
    DecodesEveryBody(chunks, last, []);
    if !Decode(p).Incomplete? {
      DecodeStable(p, q);
    }
  }

  // --- the encoder --------------------------------------------------------------

  function OneChunk(piece: bytes): bytes {
    FormatHex(|piece|) + CRLF + piece + CRLF
  }

  function Encode(pieces: seq<bytes>): bytes {
    if pieces == [] then [48] + CRLF + CRLF
    else OneChunk(pieces[0]) + Encode(pieces[1..])
  }

  function AsChunks(pieces: seq<bytes>): (chunks: seq<WireChunk>)
    requires forall i :: 0 <= i < |pieces| ==> pieces[i] != []
    ensures ValidChunks(chunks)
  {
    if pieces == [] then []
    else [WireChunk(FormatHex(|pieces[0]|), pieces[0])] + AsChunks(pieces[1..])
  }

  lemma {:induction false} EncodeIsRendering(pieces: seq<bytes>)
    requires forall i :: 0 <= i < |pieces| ==> pieces[i] != []
    ensures ValidLast([48])
    ensures Encode(pieces) == RenderBody(AsChunks(pieces), [48])
    ensures Payload(AsChunks(pieces)) == Flatten(pieces)
  {
    assert ParseHex([48]) == 0 by { assert [48 as byte][..0] == []; }
    if pieces != [] {
      EncodeIsRendering(pieces[1..]);
      assert AsChunks(pieces)[1..] == AsChunks(pieces[1..]);
    }
  }

  /** For every body, however it is cut, and whatever follows: the decoder returns
      the body and the tail, and never answers on less than the whole encoding. */
  lemma RoundTrip(pieces: seq<bytes>, tail: bytes)
    requires forall i :: 0 <= i < |pieces| ==> pieces[i] != []
    ensures Decode(Encode(pieces) + tail) == Body(Flatten(pieces), tail)
    ensures forall cut: nat :: cut < |Encode(pieces)| ==> Decode(Encode(pieces)[..cut]) == Incomplete
  {
    EncodeIsRendering(pieces);
    DecodesEveryBody(AsChunks(pieces), [48], tail);
    forall cut: nat | cut < |Encode(pieces)|
      ensures Decode(Encode(pieces)[..cut]) == Incomplete
    {
      PrefixIsIncomplete(AsChunks(pieces), [48], cut);
    }
  }

  function Min(a: nat, b: nat): nat { if a < b then a else b }

  /** `body[0:7], body[7:14], ...`: the encoder's cutting, for any step. */
  function Cut(body: bytes, step: nat): (pieces: seq<bytes>)
    requires step > 0
    ensures forall i :: 0 <= i < |pieces| ==> 0 < |pieces[i]| <= step
    ensures Flatten(pieces) == body
    decreases |body|
  {
    if body == [] then []
    else
      var n := Min(step, |body|);
      var rest := Cut(body[n..], step);
      assert ([body[..n]] + rest)[1..] == rest;
      [body[..n]] + rest
  }

  /** What the loop will have written in the end, given what it has written so far. */
  ghost function Remaining(wire: bytes, body: bytes, start: nat, step: nat): bytes
    requires step > 0
  {
    wire + (if start < |body| then Encode(Cut(body[start..], step)) else Encode([]))
  }

  lemma RemainingStart(body: bytes, step: nat)
    requires step > 0
    ensures Remaining([], body, 0, step) == Encode(Cut(body, step))
  {
    assert body[0..] == body;
    var e := Encode(Cut(body, step));
    assert [] + e == e;
  }

  lemma EncodeCut(wire: bytes, body: bytes, start: nat, step: nat)
    requires step > 0 && start < |body|
    ensures Remaining(wire + OneChunk(body[start..Min(start + step, |body|)]), body, start + step, step)
         == Remaining(wire, body, start, step)
  {
    var stop := Min(start + step, |body|);
    CutUnfold(body, start, step);
    Assoc(wire, OneChunk(body[start..stop]), Encode(Cut(body[stop..], step)));
    if stop == |body| {
      assert body[stop..] == [];
    }
  }

  lemma CutUnfold(body: bytes, start: nat, step: nat)
    requires step > 0 && start < |body|
    ensures var stop := Min(start + step, |body|);
            Encode(Cut(body[start..], step)) == OneChunk(body[start..stop]) + Encode(Cut(body[stop..], step))
  {
    var stop := Min(start + step, |body|);
    var left, n := body[start..], stop - start;
    assert left[..n] == body[start..stop];
    assert left[n..] == body[stop..];
    assert Cut(left, step)[1..] == Cut(body[stop..], step);
  }

  lemma Assoc(a: bytes, b: bytes, c: bytes)
    ensures a + (b + c) == (a + b) + c
  {
  }

  /** The stepped loop of `_both_framings`; its output decodes to `body`, whatever
      follows it. */
  method EncodeChunked(body: bytes, step: nat) returns (wire: bytes)
    requires step > 0
    ensures wire == Encode(Cut(body, step))
    ensures forall tail :: Decode(wire + tail) == Body(body, tail)
  {
    CutRoundTrip(body, step);
    RemainingStart(body, step);
    ghost var target := Remaining([], body, 0, step);
    wire := [];
    var start := 0;
    while start < |body|
      invariant Remaining(wire, body, start, step) == target
    {
      EncodeCut(wire, body, start, step);
      wire := wire + OneChunk(body[start..Min(start + step, |body|)]);
      start := start + step;
    }
    wire := wire + Encode([]);
  }

  lemma CutRoundTrip(body: bytes, step: nat)
    requires step > 0
    ensures forall tail :: Decode(Encode(Cut(body, step)) + tail) == Body(body, tail)
  {
    forall tail
      ensures Decode(Encode(Cut(body, step)) + tail) == Body(body, tail)
    {
      RoundTrip(Cut(body, step), tail);
    }
  }
}

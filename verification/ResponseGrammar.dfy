/** The responses of tests/http_harness.py as the messages of RFC 9112: what a head, a
    chunk size and a body are, said without the parser, and the parser's answer on every
    byte string in those terms. */
module ResponseGrammar {
  import opened Common
  import opened Bytes
  import opened Chunked
  import opened Responses
  import opened Numerals

  // --- chunk sizes ----------------------------------------------------------------------

  /** `A` to `F` as `a` to `f`. */
  function LowerHex(s: bytes): bytes {
    seq(|s|, i requires 0 <= i < |s| => if 65 <= s[i] <= 70 then s[i] + 32 else s[i])
  }

  /** `s` spells `n` in hexadecimal: in either case, with any number of leading zeros. */
  ghost predicate HexNumeral(s: bytes, n: nat) {
    exists z: nat :: HexPadded(s, z, n)
  }

  ghost predicate HexPadded(s: bytes, z: nat, n: nat) {
    LowerHex(s) == Zeros(48 as byte, z) + FormatHex(n)
  }

  lemma {:induction false} LowerHexReadsAlike(s: bytes)
    ensures (forall i :: 0 <= i < |s| ==> IsHex(s[i])) <==> (forall i :: 0 <= i < |s| ==> IsHex(LowerHex(s)[i]))
    ensures (forall i :: 0 <= i < |s| ==> IsHex(s[i])) ==> ParseHex(s) == ParseHex(LowerHex(s))
  {
    if s != [] {
      var front := s[..|s| - 1];
      LowerHexReadsAlike(front);
      assert LowerHex(s)[..|s| - 1] == LowerHex(front);
      assert forall i :: 0 <= i < |front| ==> front[i] == s[i];
      assert forall i :: 0 <= i < |s| ==> (IsHex(s[i]) <==> IsHex(LowerHex(s)[i]));
    }
  }

  lemma {:induction false} LeadingHexZero(s: bytes)
    requires IsChunkSize(s)
    ensures IsChunkSize([48] + s) && ParseHex([48] + s) == ParseHex(s)
  {
    var front, last := s[..|s| - 1], s[|s| - 1];
    assert ([48] + s)[..|s|] == [48] + front;
    if front == [] {
      assert [48 as byte][..0] == [] && ParseHex([48]) == 0;
    } else {
      LeadingHexZero(front);
    }
  }

  lemma {:induction false} ReadsHexPadded(s: bytes, z: nat, n: nat)
    requires s == Zeros(48 as byte, z) + FormatHex(n)
    ensures IsChunkSize(s) && ParseHex(s) == n
    decreases z
  {
    if z == 0 {
      assert s == FormatHex(n);
    } else {
      var rest := Zeros(48 as byte, z - 1) + FormatHex(n);
      assert s == [48] + rest;
      ReadsHexPadded(rest, z - 1, n);
      LeadingHexZero(rest);
    }
  }

  lemma LowerDigit(b: byte)
    requires IsHex(b) && !(65 <= b <= 70)
    ensures b == HexDigit(HexDigitValue(b))
  {
  }

  lemma FormatHexGrows(m: nat, v: nat)
    requires v < 16
    ensures FormatHex(m * 16 + v) == (if m == 0 then [] else FormatHex(m)) + [HexDigit(v)]
  {
    assert (m * 16 + v) / 16 == m && (m * 16 + v) % 16 == v;
  }

  lemma PadsOneMore(z: nat, m: nat, v: nat) returns (y: nat)
    requires v < 16
    ensures Zeros(48 as byte, z) + FormatHex(m) + [HexDigit(v)] == Zeros(48 as byte, y) + FormatHex(m * 16 + v)
  {
    FormatHexGrows(m, v);
    ZerosEnd(48 as byte, z);
    if m == 0 {
      y := z + 1;
      assert FormatHex(0) == [48];
    } else {
      y := z;
      Assoc(Zeros(48 as byte, z), FormatHex(m), [HexDigit(v)]);
    }
  }

  lemma {:induction false} IsHexPadded(s: bytes) returns (z: nat)
    requires IsChunkSize(s) && forall i :: 0 <= i < |s| ==> !(65 <= s[i] <= 70)
    ensures s == Zeros(48 as byte, z) + FormatHex(ParseHex(s))
    decreases |s|
  {
    var front, last := s[..|s| - 1], s[|s| - 1];
    LowerDigit(last);
    if front == [] {
      assert s == [last];
      z := 0;
    } else {
      var y := IsHexPadded(front);
      assert s == front + [last];
      z := PadsOneMore(y, ParseHex(front), HexDigitValue(last));
    }
  }

  /** Exactly the hexadecimal spellings of `n` are chunk sizes read as `n`. */
  lemma ChunkSizeIff(s: bytes, n: nat)
    ensures IsChunkSize(s) && ParseHex(s) == n <==> HexNumeral(s, n)
  {
    LowerHexReadsAlike(s);
    if IsChunkSize(s) && ParseHex(s) == n {
      var z := IsHexPadded(LowerHex(s));
      assert HexPadded(s, z, n);
    }
    forall z: nat | HexPadded(s, z, n)
      ensures IsChunkSize(s) && ParseHex(s) == n
    {
      ReadsHexPadded(LowerHex(s), z, n);
    }
  }

  // --- unfinished chunked bodies -----------------------------------------------------------

  function RenderChunks(chunks: seq<WireChunk>): bytes {
    if chunks == [] then [] else chunks[0].Render() + RenderChunks(chunks[1..])
  }

  /** The next chunk is not all there: its size line has no end yet, or fewer bytes follow
      the line than it announces (and the line end after them). */
  ghost predicate Unfinished(data: bytes) {
    || (forall k: nat :: !At(data, CRLF, k))
    || (exists size, rest :: Announces(data, size, rest) && |rest| < ParseHex(size) + 2)
  }

  ghost predicate Announces(data: bytes, size: bytes, rest: bytes) {
    IsChunkSize(size) && data == size + CRLF + rest
  }

  lemma ShortIff(data: bytes)
    ensures NextChunk(data).Short? <==> Unfinished(data)
  {
    forall size, rest | Announces(data, size, rest)
      ensures NextChunk(data).Short? <==> |rest| < ParseHex(size) + 2
    {
      HeaderEnds(size, rest);
      assert data[..|size|] == size && data[|size| + 2..] == rest;
    }
    var at := Find(data, CRLF);
    if at >= 0 && IsChunkSize(data[..at]) {
      assert Announces(data, data[..at], data[at + 2..]);
    }
  }

  ghost predicate Waits(data: bytes, chunks: seq<WireChunk>, rest: bytes) {
    ValidChunks(chunks) && data == RenderChunks(chunks) + rest && Unfinished(rest)
  }

  lemma {:induction false} WaitingIsIncomplete(data: bytes, chunks: seq<WireChunk>, rest: bytes)
    requires Waits(data, chunks, rest)
    ensures Decode(data) == Incomplete
    decreases |chunks|
  {
    if chunks == [] {
      assert data == rest;
      ShortIff(rest);
    } else {
      var after := RenderChunks(chunks[1..]) + rest;
      Assoc(chunks[0].Render(), RenderChunks(chunks[1..]), rest);
      RenderedChunk(chunks[0], after);
      WaitingIsIncomplete(after, chunks[1..], rest);
    }
  }

  lemma {:induction false} IncompleteWaits(data: bytes) returns (chunks: seq<WireChunk>, rest: bytes)
    requires Decode(data) == Incomplete
    ensures Waits(data, chunks, rest)
    decreases |data|
  {
    if NextChunk(data).Short? {
      ShortIff(data);
      chunks, rest := [], data;
      assert RenderChunks(chunks) + rest == data;
    } else {
      var c := ChunkWasRendered(data);
      var more;
      more, rest := IncompleteWaits(NextChunk(data).rest);
      chunks := [c] + more;
      assert chunks[1..] == more;
      Assoc(c.Render(), RenderChunks(more), rest);
    }
  }

  /** The decoder asks for more exactly after whole chunks followed by an unfinished one. */
  lemma IncompleteIff(data: bytes)
    ensures Decode(data) == Incomplete <==> exists chunks, rest :: Waits(data, chunks, rest)
  {
    if Decode(data) == Incomplete {
      var chunks, rest := IncompleteWaits(data);
    }
    forall chunks, rest | Waits(data, chunks, rest)
      ensures Decode(data) == Incomplete
    {
      WaitingIsIncomplete(data, chunks, rest);
    }
  }

  // --- what a head says ------------------------------------------------------------------

  /** Any capitalisation of "chunked"; Python also lower-cases the Kelvin sign to `k`. */
  predicate SpellsChunked(v: string) {
    |v| == 7 && forall i :: 0 <= i < 7 ==> v[i] == "chunked"[i] || v[i] == "CHUNKED"[i] || (i == 4 && v[i] == '\U{212A}')
  }

  predicate SaysChunked(h: Head) {
    "transfer-encoding" in h.headers && SpellsChunked(h.headers["transfer-encoding"])
  }

  /** The declared length, which is nothing where none is declared. */
  ghost predicate SaysLength(h: Head, n: nat) {
    if "content-length" in h.headers then Numeral(h.headers["content-length"], n) else n == 0
  }

  lemma LowerAt(c: char, i: nat)
    requires i < 7
    ensures LowerChar(c) == "chunked"[i] <==> c == "chunked"[i] || c == "CHUNKED"[i] || (i == 4 && c == '\U{212A}')
  {
  }

  lemma ChunkedSpelling(v: string)
    ensures Lower(v) == "chunked" <==> SpellsChunked(v)
  {
    forall i: nat | i < 7 && i < |v|
      ensures Lower(v)[i] == "chunked"[i] <==>
              v[i] == "chunked"[i] || v[i] == "CHUNKED"[i] || (i == 4 && v[i] == '\U{212A}')
    {
      LowerAt(v[i], i);
    }
    assert |Lower(v)| == |v| && |"chunked"| == 7;
    if SpellsChunked(v) {
      assert forall i :: 0 <= i < 7 ==> Lower(v)[i] == "chunked"[i];
    }
  }

  lemma HeadSays(h: Head, n: nat)
    ensures IsChunked(h) <==> SaysChunked(h)
    ensures ContentLength(h) == Some(n) <==> SaysLength(h, n)
  {
    if "transfer-encoding" in h.headers {
      ChunkedSpelling(h.headers["transfer-encoding"]);
    }
    if "content-length" in h.headers {
      NaturalIff(h.headers["content-length"], n);
    }
  }

  // --- a message -------------------------------------------------------------------------

  /** Nothing in `head`, nor its last bytes with the blank line after it, is a blank line. */
  ghost predicate EndsAtBlankLine(head: bytes) {
    forall k: nat :: k < |head| ==> !At(head + BLANK_LINE, BLANK_LINE, k)
  }

  /** `after` starts with the body `h` announces, and goes on with `rest`. */
  ghost predicate Carries(h: Head, after: bytes, body: bytes, rest: bytes) {
    if SaysChunked(h) then exists chunks, last :: Derives(after, chunks, last, body, rest)
    else after == body + rest && SaysLength(h, |body|)
  }

  /** `after` is too short for the body `h` announces. */
  ghost predicate Wants(h: Head, after: bytes) {
    if SaysChunked(h) then exists chunks, rest :: Waits(after, chunks, rest)
    else exists n: nat :: SaysLength(h, n) && |after| < n
  }

  ghost predicate IsMessage(decode: HeadDecoder, raw: bytes, r: Response, after: bytes, rest: bytes) {
    && raw == r.raw + BLANK_LINE + after && EndsAtBlankLine(r.raw)
    && decode(r.raw).Some?
    && var h := decode(r.raw).value;
       && Numeral(h.statusText, r.status) && r.reason == h.reason && r.headers == h.headers
       && Carries(h, after, r.body, rest)
  }

  ghost predicate IsUnfinished(decode: HeadDecoder, raw: bytes, head: bytes, after: bytes) {
    && raw == head + BLANK_LINE + after && EndsAtBlankLine(head)
    && decode(head).Some? && Wants(decode(head).value, after)
  }

  lemma BodyIff(h: Head, after: bytes, body: bytes, rest: bytes)
    ensures TakeBody(h, after) == Body(body, rest) <==> Carries(h, after, body, rest)
  {
    HeadSays(h, |body|);
    if SaysChunked(h) {
      DecoderIsTheGrammar(after, body, rest);
    } else {
      if after == body + rest {
        assert after[..|body|] == body && after[|body|..] == rest;
      }
    }
  }

  lemma WantsIff(h: Head, after: bytes)
    ensures TakeBody(h, after) == Incomplete <==> Wants(h, after)
  {
    HeadSays(h, 0);
    if SaysChunked(h) {
      IncompleteIff(after);
    } else {
      forall n: nat
        ensures ContentLength(h) == Some(n) <==> SaysLength(h, n)
      {
        HeadSays(h, n);
      }
    }
  }

  lemma HeadSplits(head: bytes, after: bytes)
    requires EndsAtBlankLine(head)
    ensures Find(head + BLANK_LINE + after, BLANK_LINE) == |head|
    ensures (head + BLANK_LINE + after)[..|head|] == head && (head + BLANK_LINE + after)[|head| + 4..] == after
  {
    var s := head + BLANK_LINE;
    assert At(s, BLANK_LINE, |head|);
    FindIs(s, BLANK_LINE, |head|);
    FindStable(s, after, BLANK_LINE);
  }

  lemma SplitsHead(raw: bytes) returns (head: bytes, after: bytes)
    requires Find(raw, BLANK_LINE) >= 0
    ensures raw == head + BLANK_LINE + after && EndsAtBlankLine(head) && |head| == Find(raw, BLANK_LINE)
  {
    var n := Find(raw, BLANK_LINE);
    head, after := raw[..n], raw[n + 4..];
    assert raw == head + BLANK_LINE + after;
    var s := head + BLANK_LINE;
    forall k: nat | k < n
      ensures !At(s, BLANK_LINE, k)
    {
      assert !At(raw, BLANK_LINE, k);
      if k + 4 <= |s| {
        assert s[k..k + 4] == raw[k..k + 4];
      }
    }
  }

  /** The parser returns a response exactly when the bytes begin with that message. */
  lemma ParsedIff(decode: HeadDecoder, raw: bytes, r: Response, rest: bytes)
    ensures ParsePrefix(decode, raw) == Parsed(r, rest) <==> exists after :: IsMessage(decode, raw, r, after, rest)
  {
    if ParsePrefix(decode, raw) == Parsed(r, rest) {
      var head, after := SplitsHead(raw);
      HeadSplits(head, after);
      var h := decode(head).value;
      BodyIff(h, after, r.body, rest);
      NaturalIff(h.statusText, r.status);
      assert IsMessage(decode, raw, r, after, rest);
    }
    forall after | IsMessage(decode, raw, r, after, rest)
      ensures ParsePrefix(decode, raw) == Parsed(r, rest)
    {
      HeadSplits(r.raw, after);
      var h := decode(r.raw).value;
      BodyIff(h, after, r.body, rest);
      NaturalIff(h.statusText, r.status);
    }
  }

  /** It asks for more exactly while the head has no end, or its body is not all there. */
  lemma NeedMoreIff(decode: HeadDecoder, raw: bytes)
    ensures ParsePrefix(decode, raw) == NeedMore <==>
            (forall k: nat :: !At(raw, BLANK_LINE, k)) || exists head, after :: IsUnfinished(decode, raw, head, after)
  {
    if Find(raw, BLANK_LINE) >= 0 {
      var head, after := SplitsHead(raw);
      HeadSplits(head, after);
      if decode(head).Some? {
        WantsIff(decode(head).value, after);
      }
      if ParsePrefix(decode, raw) == NeedMore {
        assert IsUnfinished(decode, raw, head, after);
      }
    }
    forall head, after | IsUnfinished(decode, raw, head, after)
      ensures ParsePrefix(decode, raw) == NeedMore
    {
      HeadSplits(head, after);
      WantsIff(decode(head).value, after);
    }
  }

  // --- what the harness is sent -------------------------------------------------------------

  /** `wire` reads as `r` in both parsers, whatever follows it, and on less than all of it
      the stream reader waits. */
  ghost predicate ReadsAs(decode: HeadDecoder, wire: bytes, r: Response) {
    && (forall tail :: ParsePrefix(decode, wire + tail) == Parsed(r, tail)
                       && WholeStream(decode, wire + tail) == Prepend([r], WholeStream(decode, tail)))
    && (forall cut: nat :: cut < |wire| ==> ParsePrefix(decode, wire[..cut]) == NeedMore)
  }

  lemma ReadsBefore(decode: HeadDecoder, wire: bytes, r: Response, tail: bytes)
    requires ParsePrefix(decode, wire) == Parsed(r, [])
    ensures ParsePrefix(decode, wire + tail) == Parsed(r, tail)
    ensures WholeStream(decode, wire + tail) == Prepend([r], WholeStream(decode, tail))
  {
    PrefixStable(decode, wire, tail);
    assert [] + tail == tail;
    WholePrefixAgrees(decode, wire + tail);
  }

  lemma WaitsWithin(decode: HeadDecoder, wire: bytes, r: Response, cut: nat)
    requires ParsePrefix(decode, wire) == Parsed(r, []) && cut < |wire|
    ensures ParsePrefix(decode, wire[..cut]) == NeedMore
  {
    var p, q := wire[..cut], wire[cut..];
    assert p + q == wire;
    if !ParsePrefix(decode, p).NeedMore? {
      PrefixStable(decode, p, q);
    }
  }

  lemma MessageReads(decode: HeadDecoder, wire: bytes, r: Response, after: bytes)
    requires IsMessage(decode, wire, r, after, [])
    ensures ReadsAs(decode, wire, r)
  {
    ParsedIff(decode, wire, r, []);
    forall tail
      ensures ParsePrefix(decode, wire + tail) == Parsed(r, tail)
      ensures WholeStream(decode, wire + tail) == Prepend([r], WholeStream(decode, tail))
    {
      ReadsBefore(decode, wire, r, tail);
    }
    forall cut: nat | cut < |wire|
      ensures ParsePrefix(decode, wire[..cut]) == NeedMore
    {
      WaitsWithin(decode, wire, r, cut);
    }
  }

  /** A head naming any capitalisation of the chunked coding, followed by any cutting of a
      body into chunks, is read as that body. */
  lemma ChunkedResponse(decode: HeadDecoder, head: bytes, h: Head, status: nat, pieces: seq<bytes>)
    requires EndsAtBlankLine(head) && decode(head) == Some(h) && Numeral(h.statusText, status)
    requires "transfer-encoding" in h.headers && SpellsChunked(h.headers["transfer-encoding"])
    requires forall i :: 0 <= i < |pieces| ==> pieces[i] != []
    ensures ReadsAs(decode, head + BLANK_LINE + Encode(pieces), Response(status, h.reason, h.headers, Flatten(pieces), head))
  {
    EncodeIsRendering(pieces);
    assert Encode(pieces) + [] == Encode(pieces);
    assert Derives(Encode(pieces), AsChunks(pieces), [48], Flatten(pieces), []);
    MessageReads(decode, head + BLANK_LINE + Encode(pieces), Response(status, h.reason, h.headers, Flatten(pieces), head), Encode(pieces));
  }

  /** A head naming no such coding, followed by as many bytes as it declares, is read as
      those bytes. */
  lemma MeasuredResponse(decode: HeadDecoder, head: bytes, h: Head, status: nat, body: bytes)
    requires EndsAtBlankLine(head) && decode(head) == Some(h) && Numeral(h.statusText, status)
    requires "transfer-encoding" in h.headers ==> !SpellsChunked(h.headers["transfer-encoding"])
    requires if "content-length" in h.headers then Numeral(h.headers["content-length"], |body|) else body == []
    ensures ReadsAs(decode, head + BLANK_LINE + body, Response(status, h.reason, h.headers, body, head))
  {
    assert body + [] == body;
    MessageReads(decode, head + BLANK_LINE + body, Response(status, h.reason, h.headers, body, head), body);
  }
}

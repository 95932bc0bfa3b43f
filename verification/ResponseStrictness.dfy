/** How strict `parse_responses` (tests/http_harness.py) is about Content-Length. Its
    documentation promises that a wrong one fails; this is exactly when it does not. */
module ResponseStrictness {
  import opened Common
  import opened Bytes
  import opened Chunked
  import opened Responses
  import opened Numerals

  // --- the responses it returns -------------------------------------------------------

  function HeadOf(r: Response): Head {
    Head("", r.reason, r.headers)
  }

  /** The response declares a length and its body has another. */
  predicate Mislabelled(r: Response) {
    !IsChunked(HeadOf(r)) && ContentLength(HeadOf(r)) != Some(|r.body|)
  }

  /** A head with a natural status and no chunking declares more bytes than follow it. */
  ghost predicate CutShort(decode: HeadDecoder, leftover: bytes) {
    var split := Find(leftover, BLANK_LINE);
    && split >= 0 && decode(leftover[..split]).Some?
    && var h := decode(leftover[..split]).value;
       && !IsChunked(h) && IsNatural(h.statusText)
       && ContentLength(h).Some? && ContentLength(h).value > |leftover| - (split + 4)
  }

  lemma ParsedIsLabelled(decode: HeadDecoder, raw: bytes)
    requires ParsePrefix(decode, raw).Parsed?
    ensures !Mislabelled(ParsePrefix(decode, raw).response)
  {
  }

  lemma {:induction false} TranscriptIsLabelled(decode: HeadDecoder, raw: bytes)
    ensures var t := Incremental(decode, raw);
            && (forall i :: 0 <= i < |t.responses| ==> !Mislabelled(t.responses[i]))
            && (t.clean ==> ParsePrefix(decode, t.leftover).NeedMore?)
    decreases |raw|
  {
    match ParsePrefix(decode, raw)
    case Parsed(_, rest) =>
      ParsedIsLabelled(decode, raw);
      TranscriptIsLabelled(decode, rest);
    case _ =>
  }

  lemma LastWordMislabels(decode: HeadDecoder, leftover: bytes)
    requires ParsePrefix(decode, leftover).NeedMore?
    ensures var last := LastWord(decode, leftover);
            && (last.Some? && last.value != [] <==> CutShort(decode, leftover))
            && (last.Some? ==> |last.value| <= 1 && forall i :: 0 <= i < |last.value| ==> Mislabelled(last.value[i]))
  {
  }

  ghost predicate SomeMislabelled(rs: seq<Response>) {
    exists i :: 0 <= i < |rs| && Mislabelled(rs[i])
  }

  lemma OnlyTheLast(earlier: seq<Response>, last: seq<Response>)
    requires forall i :: 0 <= i < |earlier| ==> !Mislabelled(earlier[i])
    requires forall i :: 0 <= i < |last| ==> Mislabelled(last[i])
    ensures SomeMislabelled(earlier + last) <==> last != []
  {
    if last != [] {
      assert (earlier + last)[|earlier|] == last[0];
    }
  }

  /** `parse_responses` returns a response whose body is not of its declared length if and
      only if the stream, read response by response, ends in a whole head that declares
      more bytes than are left. */
  lemma ShortBodyIsReturnedIff(decode: HeadDecoder, raw: bytes)
    ensures var out, t := WholeStream(decode, raw), Incremental(decode, raw);
            (out.Some? && SomeMislabelled(out.value)) <==> (t.clean && CutShort(decode, t.leftover))
  {
    var t := Incremental(decode, raw);
    WholeFromTranscript(decode, raw);
    TranscriptIsLabelled(decode, raw);
    if t.clean {
      LastWordMislabels(decode, t.leftover);
      var last := LastWord(decode, t.leftover);
      if last.Some? {
        OnlyTheLast(t.responses, last.value);
      }
    }
  }

  // --- the bytes it accounts for ------------------------------------------------------

  /** `wires`, one after another, are the complete encodings of `rs`. */
  ghost predicate Complete(decode: HeadDecoder, wires: seq<bytes>, rs: seq<Response>) {
    |wires| == |rs| && forall i :: 0 <= i < |wires| ==> ParsePrefix(decode, wires[i]) == Parsed(rs[i], [])
  }

  lemma DecodeIsLocal(data: bytes) returns (used: bytes)
    requires Decode(data).Body?
    ensures data == used + Decode(data).rest && Decode(used) == Body(Decode(data).body, [])
  {
    var chunks, last := DecodedWasRendered(data);
    used := RenderBody(chunks, last);
    DecodesEveryBody(chunks, last, []);
    assert used + [] == used;
  }

  lemma TakeBodyIsLocal(h: Head, rest: bytes) returns (used: bytes)
    requires TakeBody(h, rest).Body?
    ensures rest == used + TakeBody(h, rest).rest && TakeBody(h, used) == Body(TakeBody(h, rest).body, [])
  {
    if IsChunked(h) {
      used := DecodeIsLocal(rest);
    } else {
      var n := ContentLength(h).value;
      used := rest[..n];
      assert used[..n] == used && used[n..] == [];
    }
  }

  lemma FindInPrefix(s: bytes, n: nat)
    requires n <= |s| && 0 <= Find(s, BLANK_LINE) && Find(s, BLANK_LINE) + 4 <= n
    ensures Find(s[..n], BLANK_LINE) == Find(s, BLANK_LINE)
  {
    var r := Find(s, BLANK_LINE);
    assert s[..n][r..r + 4] == s[r..r + 4];
    forall k: nat | k < r
      ensures !At(s[..n], BLANK_LINE, k)
    {
      assert !At(s, BLANK_LINE, k);
      assert s[..n][k..k + 4] == s[k..k + 4];
    }
    FindIs(s[..n], BLANK_LINE, r);
  }

  lemma CutWire(raw: bytes, at: nat, used: bytes, rest: bytes)
    requires at + 4 <= |raw| && raw[at + 4..] == used + rest
    ensures var n := at + 4 + |used|;
            n <= |raw| && raw == raw[..n] + rest && raw[..n][..at] == raw[..at] && raw[..n][at + 4..] == used
  {
    var n := at + 4 + |used|;
    assert |raw[at + 4..]| == |used| + |rest|;
    assert raw[n..] == raw[at + 4..][|used|..] == rest;
    assert raw[..n][at + 4..] == raw[at + 4..][..|used|] == used;
  }

  lemma ParseOf(decode: HeadDecoder, raw: bytes, at: nat, h: Head)
    requires Find(raw, BLANK_LINE) == at && decode(raw[..at]) == Some(h)
    ensures at + 4 <= |raw| && ParsePrefix(decode, raw) == Finish(h, raw[..at], TakeBody(h, raw[at + 4..]))
  {
  }

  /** A response is the parse of exactly the bytes it consumed. */
  lemma ResponseIsLocal(decode: HeadDecoder, raw: bytes) returns (wire: bytes)
    requires ParsePrefix(decode, raw).Parsed?
    ensures raw == wire + ParsePrefix(decode, raw).rest
    ensures ParsePrefix(decode, wire) == Parsed(ParsePrefix(decode, raw).response, [])
  {
    var at := Find(raw, BLANK_LINE);
    var h := decode(raw[..at]).value;
    ParseOf(decode, raw, at, h);
    var used := TakeBodyIsLocal(h, raw[at + 4..]);
    CutWire(raw, at, used, TakeBody(h, raw[at + 4..]).rest);
    wire := raw[..at + 4 + |used|];
    FindInPrefix(raw, |wire|);
    ParseOf(decode, wire, at, h);
  }

  /** The stream reader finishes with nothing left if and only if the stream is a
      concatenation of complete responses, and then it returns exactly those. */
  lemma {:induction false} CompleteIff(decode: HeadDecoder, raw: bytes, rs: seq<Response>)
    ensures Incremental(decode, raw) == Transcript(rs, [], true) <==>
            exists wires :: Complete(decode, wires, rs) && Flatten(wires) == raw
    decreases |raw|
  {
    forall wires | Complete(decode, wires, rs) && Flatten(wires) == raw
      ensures Incremental(decode, raw) == Transcript(rs, [], true)
    {
      CompleteResponses(decode, wires, rs);
    }
    if Incremental(decode, raw) == Transcript(rs, [], true) {
      var wires := WiresOf(decode, raw, rs);
    }
  }

  lemma {:induction false} WiresOf(decode: HeadDecoder, raw: bytes, rs: seq<Response>) returns (wires: seq<bytes>)
    requires Incremental(decode, raw) == Transcript(rs, [], true)
    ensures Complete(decode, wires, rs) && Flatten(wires) == raw
    decreases |raw|
  {
    if ParsePrefix(decode, raw).Parsed? {
      var wire := ResponseIsLocal(decode, raw);
      var rest := ParsePrefix(decode, raw).rest;
      assert rs[1..] == Incremental(decode, rest).responses;
      var more := WiresOf(decode, rest, rs[1..]);
      wires := [wire] + more;
      assert wires[1..] == more;
    } else {
      wires := [];
    }
  }

  ghost predicate IsComplete(decode: HeadDecoder, raw: bytes) {
    exists rs, wires :: Complete(decode, wires, rs) && Flatten(wires) == raw
  }

  lemma IsCompleteMeans(decode: HeadDecoder, raw: bytes)
    ensures var t := Incremental(decode, raw);
            IsComplete(decode, raw) <==> t.clean && t.leftover == []
  {
    var t := Incremental(decode, raw);
    if t.clean && t.leftover == [] {
      CompleteIff(decode, raw, t.responses);
    }
    forall rs, wires | Complete(decode, wires, rs) && Flatten(wires) == raw
      ensures t.clean && t.leftover == []
    {
      CompleteIff(decode, raw, rs);
    }
  }

  /** Exactly when `parse_responses` raises nothing although the stream is not a
      concatenation of complete responses: bytes are left over that hold no whole head
      (they are dropped), or a whole head that declares more than follows it (the body is
      cut short). */
  lemma PapersOverIff(decode: HeadDecoder, raw: bytes)
    ensures var t := Incremental(decode, raw);
            (WholeStream(decode, raw).Some? && !IsComplete(decode, raw)) <==>
            (t.clean && t.leftover != [] && (Find(t.leftover, BLANK_LINE) < 0 || CutShort(decode, t.leftover)))
  {
    var t := Incremental(decode, raw);
    WholeFromTranscript(decode, raw);
    TranscriptIsLabelled(decode, raw);
    IsCompleteMeans(decode, raw);
    if t.clean {
      LastWordMislabels(decode, t.leftover);
    }
  }

  // --- one such stream -------------------------------------------------------------------

  /** `HTTP/1.1 200 OK` and `Content-Length: 5`. */
  const STATUS_LINE: bytes := [72, 84, 84, 80, 47, 49, 46, 49, 32, 50, 48, 48, 32, 79, 75]
  const LENGTH_FIELD: bytes := [67, 111, 110, 116, 101, 110, 116, 45, 76, 101, 110, 103, 116, 104, 58, 32, 53]
  const HEAD_BYTES: bytes := STATUS_LINE + CRLF + LENGTH_FIELD
  const HEAD: Head := Head("200", "OK", map["content-length" := "5"])

  /** A head of two lines ends where its blank line begins. */
  lemma TwoLineHeadEnds(a: bytes, b: bytes, body: bytes)
    requires b != [] && (forall k :: 0 <= k < |a| ==> a[k] != 13) && (forall k :: 0 <= k < |b| ==> b[k] != 13)
    ensures Find(a + CRLF + b + BLANK_LINE + body, BLANK_LINE) == |a| + 2 + |b|
  {
    var n, s := |a| + 2 + |b|, a + CRLF + b + BLANK_LINE + body;
    assert s[n..n + 4] == BLANK_LINE;
    forall k: nat | k < n
      ensures !At(s, BLANK_LINE, k)
    {
      var window := s[k..k + 4];
      assert window[0] == s[k] && window[2] == s[k + 2];
      assert k < |a| ==> s[k] == a[k];
      assert k == |a| ==> s[k + 2] == b[0];
      assert k > |a| + 1 ==> s[k] == b[k - |a| - 2];
    }
    FindIs(s, BLANK_LINE, n);
  }

  lemma HeadEnds(body: bytes)
    ensures Find(HEAD_BYTES + BLANK_LINE + body, BLANK_LINE) == |HEAD_BYTES|
  {
    TwoLineHeadEnds(STATUS_LINE, LENGTH_FIELD, body);
  }

  lemma NumbersRead()
    ensures IsNatural("5") && ParseNatural("5") == 5 && IsNatural("200") && ParseNatural("200") == 200
  {
    assert ParseNatural("5") == 5 by { assert "5"[..0] == []; }
    assert ParseNatural("200") == 200 by {
      assert "200"[..2] == "20" && "20"[..1] == "2" && "2"[..0] == [];
    }
  }

  lemma HeadDeclaresFive()
    ensures !IsChunked(HEAD) && ContentLength(HEAD) == Some(5)
  {
    NumbersRead();
    assert HEAD.headers["content-length"] == "5";
    assert "transfer-encoding"[0] == 't' && "content-length"[0] == 'c';
  }

  /** A response that declares five bytes and has one, under any decoder that reads its
      head: it comes back one byte long, and no error is raised. */
  lemma ShortBodyIsPaperedOver(decode: HeadDecoder)
    requires decode(HEAD_BYTES) == Some(HEAD)
    ensures WholeStream(decode, HEAD_BYTES + BLANK_LINE + [97]) ==
            Some([Response(200, "OK", HEAD.headers, [97], HEAD_BYTES)])
  {
    var raw := HEAD_BYTES + BLANK_LINE + [97];
    HeadEnds([97]);
    HeadDeclaresFive();
    NumbersRead();
    assert raw[..|HEAD_BYTES|] == HEAD_BYTES && raw[|HEAD_BYTES| + 4..] == [97];
    assert TakeWhole(HEAD, [97]) == Body([97], []) by {
      assert [97 as byte][..1] == [97] && [97 as byte][1..] == [];
    }
    var response := Response(200, "OK", HEAD.headers, [97], HEAD_BYTES);
    assert WholePrefix(decode, raw) == Parsed(response, []);
    assert WholeStream(decode, []) == Some([]);
    assert [response] + [] == [response];
  }
}

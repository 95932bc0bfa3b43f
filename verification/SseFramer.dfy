/** The daemon's streaming relay (src/providers/provider_sse.asm): upstream bytes are
    cut at Server-Sent Event boundaries, each complete event leaves as one chunk of a
    chunked response, and `limits.sse_event_max_bytes` bounds an event. */
module SseFramer {
  import opened Bytes
  import opened Chunked

  // --- where an event ends -------------------------------------------------------

  /** A line terminator of `width` bytes at `i`: CRLF, LF, or a CR known not to be
      the first half of a CRLF. */
  predicate IsEol(p: bytes, i: nat, width: nat) {
    || (width == 2 && At(p, CRLF, i))
    || (width == 1 && i < |p| && p[i] == LF && (i == 0 || p[i - 1] != CR))
    || (width == 1 && i + 1 < |p| && p[i] == CR && p[i + 1] != LF)
  }

  predicate StartsLine(p: bytes, i: nat) {
    i <= |p| && (i == 0 || p[i - 1] == LF || (p[i - 1] == CR && i < |p| && p[i] != LF))
  }

  /** An empty line at `i`. */
  predicate Blank(p: bytes, i: nat, width: nat) {
    IsEol(p, i, width) && StartsLine(p, i)
  }

  function ScanFrom(p: bytes, i: nat, lineStart: nat): (n: nat)
    requires lineStart <= i
    ensures n != 0 ==> i < n <= |p|
    decreases |p| - i
  {
    if i >= |p| then 0
    else if p[i] == CR then
      if i + 1 >= |p| then 0
      else
        var eol := if p[i + 1] == LF then 2 else 1;
        if i == lineStart then i + eol else ScanFrom(p, i + eol, i + eol)
    else if p[i] == LF then
      if i == lineStart then i + 1 else ScanFrom(p, i + 1, i + 1)
    else ScanFrom(p, i + 1, lineStart)
  }

  function EventLength(p: bytes): nat {
    ScanFrom(p, 0, 0)
  }

  /** `af_prov_sse_scan`. */
  method Scan(p: bytes) returns (n: nat)
    ensures n == EventLength(p)
  {
    var i, lineStart := 0, 0;
    while i < |p|
      invariant lineStart <= i
      invariant EventLength(p) == ScanFrom(p, i, lineStart)
      decreases |p| - i
    {
      var eol := 1;
      if p[i] == CR {
        if i + 1 >= |p| {
          return 0;
        }
        if p[i + 1] == LF {
          eol := 2;
        }
      } else if p[i] != LF {
        i := i + 1;
        continue;
      }
      if i == lineStart {
        return i + eol;
      }
      i := i + eol;
      lineStart := i;
    }
    return 0;
  }

  lemma {:induction false} ScanFindsBlank(p: bytes, i: nat, lineStart: nat)
    requires lineStart <= i && StartsLine(p, lineStart)
    requires forall k :: lineStart <= k < i && k < |p| ==> p[k] != CR && p[k] != LF
    requires forall k: nat, w: nat :: k < i ==> !Blank(p, k, w)
    ensures var n := ScanFrom(p, i, lineStart);
            if n == 0 then forall k: nat, w: nat :: !Blank(p, k, w)
            else exists j: nat, w: nat :: n == j + w && Blank(p, j, w) && forall k: nat, v: nat :: k < j ==> !Blank(p, k, v)
    decreases |p| - i
  {
    if i < |p| {
      if p[i] == CR && i + 1 < |p| {
        var eol := if p[i + 1] == LF then 2 else 1;
        assert IsEol(p, i, eol);
        if i == lineStart {
          assert Blank(p, i, eol);
        } else {
          assert !StartsLine(p, i);
          ScanFindsBlank(p, i + eol, i + eol);
        }
      } else if p[i] == LF {
        if i == lineStart {
          assert IsEol(p, i, 1);
          assert Blank(p, i, 1);
        } else {
          assert !StartsLine(p, i);
          ScanFindsBlank(p, i + 1, i + 1);
        }
      } else if p[i] != CR {
        ScanFindsBlank(p, i + 1, lineStart);
      }
    }
  }

  /** The scanner stops at the end of the first empty line, and says "not yet"
      exactly when no empty line is complete; a trailing bare CR is never guessed. */
  lemma EventEndsAtFirstBlankLine(p: bytes)
    ensures EventLength(p) == 0 <==> forall k: nat, w: nat :: !Blank(p, k, w)
    ensures EventLength(p) > 0 ==> exists j: nat, w: nat ::
              EventLength(p) == j + w && Blank(p, j, w) && forall k: nat, v: nat :: k < j ==> !Blank(p, k, v)
  {
    ScanFindsBlank(p, 0, 0);
  }

  // --- more bytes never change a decision -----------------------------------------

  lemma {:induction false} ScanStable(a: bytes, b: bytes, i: nat, lineStart: nat)
    requires lineStart <= i
    ensures ScanFrom(a, i, lineStart) > 0 ==> ScanFrom(a + b, i, lineStart) == ScanFrom(a, i, lineStart)
    ensures ScanFrom(a, i, lineStart) == 0 ==>
              ScanFrom(a + b, i, lineStart) == 0 || ScanFrom(a + b, i, lineStart) >= |a|
    decreases |a| - i
  {
    if i < |a| {
      assert (a + b)[i] == a[i];
      if a[i] == CR && i + 1 < |a| {
        assert (a + b)[i + 1] == a[i + 1];
        var eol := if a[i + 1] == LF then 2 else 1;
        ScanStable(a, b, i + eol, i + eol);
      } else if a[i] == LF {
        ScanStable(a, b, i + 1, i + 1);
      } else if a[i] != CR {
        ScanStable(a, b, i + 1, lineStart);
      }
    }
  }

  /** What a byte stream frames to: the events that may be forwarded, the bytes held
      back, and whether the ceiling was what stopped the framing. */
  datatype Framing = Framing(events: seq<bytes>, carry: bytes, overflow: bool) {
    function After(earlier: seq<bytes>): Framing {
      this.(events := earlier + events)
    }
  }

  function Frame(limit: nat, data: bytes): Framing
    decreases |data|
  {
    var n := EventLength(data);
    if n == 0 then Framing([], data, 0 < limit < |data|)
    else if 0 < limit < n then Framing([], data, true)
    else Frame(limit, data[n..]).After([data[..n]])
  }

  lemma AfterTwice(f: Framing, a: seq<bytes>, b: seq<bytes>)
    ensures f.After(b).After(a) == f.After(a + b)
  {
    assert a + (b + f.events) == (a + b) + f.events;
  }

  /** Framing a stream in two parts: the carry of the first is where the second
      begins, and an overflow is final whatever follows. */
  lemma {:induction false} FrameInParts(limit: nat, a: bytes, b: bytes)
    ensures var f := Frame(limit, a); var g := Frame(limit, a + b);
            if f.overflow then g.overflow && g.events == f.events
            else g == Frame(limit, f.carry + b).After(f.events)
    decreases |a|
  {
    var n := EventLength(a);
    ScanStable(a, b, 0, 0);
    if n > 0 && !(0 < limit < n) {
      assert (a + b)[..n] == a[..n];
      assert (a + b)[n..] == a[n..] + b;
      FrameInParts(limit, a[n..], b);
      var f := Frame(limit, a[n..]);
      if !f.overflow {
        AfterTwice(Frame(limit, f.carry + b), [a[..n]], f.events);
      }
    } else if n == 0 && !Frame(limit, a).overflow {
      var g := Frame(limit, a + b);
      assert [] + g.events == g.events;
    }
  }

  lemma CutSpells(data: bytes, n: nat, events: bytes, carry: bytes)
    requires n <= |data| && events + carry == data[n..]
    ensures (data[..n] + events) + carry == data
  {
    assert (data[..n] + events) + carry == data[..n] + (events + carry);
    assert data[..n] + data[n..] == data;
  }

  lemma {:induction false} FrameSpells(limit: nat, data: bytes)
    ensures Flatten(Frame(limit, data).events) + Frame(limit, data).carry == data
    decreases |data|
  {
    var n := EventLength(data);
    if n > 0 && !(0 < limit < n) {
      var f := Frame(limit, data[n..]);
      FrameSpells(limit, data[n..]);
      FlattenFirst(data[..n], f.events);
      CutSpells(data, n, Flatten(f.events), f.carry);
    } else {
      assert [] + data == data;
    }
  }

  lemma FlattenFirst(e: bytes, events: seq<bytes>)
    ensures Flatten([e] + events) == e + Flatten(events)
  {
    assert ([e] + events)[1..] == events;
  }

  predicate WithinLimit(limit: nat, e: bytes) {
    e != [] && (limit > 0 ==> |e| <= limit)
  }

  lemma {:induction false} FrameLimits(limit: nat, data: bytes)
    ensures var f := Frame(limit, data);
            && (forall i :: 0 <= i < |f.events| ==> WithinLimit(limit, f.events[i]))
            && (f.overflow <==> 0 < limit < |f.carry| && (EventLength(f.carry) == 0 || limit < EventLength(f.carry)))
            && (!f.overflow ==> EventLength(f.carry) == 0)
    decreases |data|
  {
    var n := EventLength(data);
    if n > 0 && !(0 < limit < n) {
      FrameLimits(limit, data[n..]);
    }
  }

  /** Nothing is lost, duplicated or reordered, and the ceiling holds: events and
      carry spell the input, no forwarded event exceeds the limit, and a carry above
      it is never left pending. */
  lemma {:induction false} FrameConserves(limit: nat, data: bytes)
    ensures var f := Frame(limit, data);
            && Flatten(f.events) + f.carry == data
            && (forall i :: 0 <= i < |f.events| ==> WithinLimit(limit, f.events[i]))
            && (f.overflow <==> 0 < limit < |f.carry| && (EventLength(f.carry) == 0 || limit < EventLength(f.carry)))
            && (!f.overflow ==> EventLength(f.carry) == 0)
  {
    FrameSpells(limit, data);
    FrameLimits(limit, data);
  }

  /** Each forwarded event is the first event of what was left when it was cut off: none is
      split, and no two leave together. */
  lemma {:induction false} OneEventAtATime(limit: nat, data: bytes, i: nat)
    requires i < |Frame(limit, data).events|
    ensures var f := Frame(limit, data);
            EventLength(Flatten(f.events[i..]) + f.carry) == |f.events[i]| > 0
    decreases |data|
  {
    FrameSpells(limit, data);
    var f, n := Frame(limit, data), EventLength(data);
    if i == 0 {
      assert f.events[0..] == f.events;
    } else {
      assert f.events[i..] == f.events[1..][i - 1..];
      OneEventAtATime(limit, data[n..], i - 1);
    }
  }

  // --- the relay ------------------------------------------------------------------

  function HexReversed(digits: bytes): bytes {
    if digits == [] then [] else HexReversed(digits[1..]) + [digits[0]]
  }

  lemma {:induction false} HexReversedSnoc(digits: bytes, d: byte)
    ensures HexReversed(digits + [d]) == [d] + HexReversed(digits)
  {
    if digits != [] {
      assert (digits + [d])[1..] == digits[1..] + [d];
      HexReversedSnoc(digits[1..], d);
    }
  }

  /** The digits of a value, least significant first. */
  method HexDigits(value: nat) returns (digits: bytes)
    ensures HexReversed(digits) == FormatHex(value)
  {
    digits := [];
    if value == 0 {
      return [48];
    }
    var v := value;
    while v != 0
      invariant v != 0 ==> FormatHex(v) + HexReversed(digits) == FormatHex(value)
      invariant v == 0 ==> HexReversed(digits) == FormatHex(value)
    {
      HexReversedSnoc(digits, HexDigit(v % 16));
      HexMore(v, HexReversed(digits));
      digits := digits + [HexDigit(v % 16)];
      v := v / 16;
    }
  }

  lemma HexMore(v: nat, tail: bytes)
    requires v > 0
    ensures FormatHex(v) + tail == (if v < 16 then [] else FormatHex(v / 16)) + ([HexDigit(v % 16)] + tail)
  {
  }

  /** `af_prov_append_hex`: the digits are appended most significant first. */
  method AppendHex(buffer: bytes, value: nat) returns (out: bytes)
    ensures out == buffer + FormatHex(value)
  {
    var digits := HexDigits(value);
    out := buffer;
    var n := |digits|;
    assert digits[..n] == digits;
    while n != 0
      invariant 0 <= n <= |digits|
      invariant out + HexReversed(digits[..n]) == buffer + HexReversed(digits)
    {
      n := n - 1;
      assert digits[..n + 1] == digits[..n] + [digits[n]];
      HexReversedSnoc(digits[..n], digits[n]);
      out := out + [digits[n]];
    }
  }

  /** The chunks written for a list of events, without the terminating chunk. */
  function Wire(events: seq<bytes>): bytes {
    if events == [] then [] else OneChunk(events[0]) + Wire(events[1..])
  }

  lemma {:induction false} WireSnoc(events: seq<bytes>, e: bytes)
    ensures Wire(events + [e]) == Wire(events) + OneChunk(e)
  {
    if events != [] {
      assert (events + [e])[1..] == events[1..] + [e];
      WireSnoc(events[1..], e);
      assert OneChunk(events[0]) + (Wire(events[1..]) + OneChunk(e)) == Wire(events) + OneChunk(e);
    }
  }

  lemma {:induction false} WireIsEncoding(events: seq<bytes>)
    ensures Wire(events) + Encode([]) == Encode(events)
  {
    if events != [] {
      WireIsEncoding(events[1..]);
      assert OneChunk(events[0]) + (Wire(events[1..]) + Encode([])) == Wire(events) + Encode([]);
    }
  }

  ghost predicate NoneEmpty(events: seq<bytes>) {
    forall i :: 0 <= i < |events| ==> events[i] != []
  }

  lemma ClientDecodes(events: seq<bytes>)
    requires NoneEmpty(events)
    ensures Decode(Wire(events) + Encode([])) == Body(Flatten(events), [])
  {
    WireIsEncoding(events);
    RoundTrip(events, []);
    assert Encode(events) + [] == Encode(events);
  }

  lemma {:induction false} FlattenSnoc(events: seq<bytes>, e: bytes)
    ensures Flatten(events + [e]) == Flatten(events) + e
  {
    FlattenAppend(events, [e]);
    assert Flatten([e]) == e by { assert [e][1..] == []; }
  }

  /** The events a client has been sent when the stream is over. */
  ghost function Sent(f: Framing): seq<bytes> {
    if f.overflow || f.carry == [] then f.events else f.events + [f.carry]
  }

  ghost function Delivered(limit: nat, data: bytes): bytes {
    var f := Frame(limit, data);
    if f.overflow then Flatten(f.events) else data
  }

  /** Everything that is sent, the unterminated end of the stream included, is within the
      limit. */
  lemma SentIsWithinLimit(limit: nat, data: bytes)
    ensures var sent := Sent(Frame(limit, data)); forall i :: 0 <= i < |sent| ==> WithinLimit(limit, sent[i])
  {
    FrameLimits(limit, data);
  }

  lemma ClientDecodesAll(limit: nat, data: bytes)
    ensures Decode(Wire(Sent(Frame(limit, data))) + Encode([])) == Body(Delivered(limit, data), [])
  {
    var f := Frame(limit, data);
    FrameConserves(limit, data);
    FlattenSnoc(f.events, f.carry);
    assert f.carry == [] ==> Flatten(f.events) + f.carry == Flatten(f.events);
    ClientDecodes(Sent(f));
  }

  class Relay {
    const limit: nat
    var carry: bytes
    var events: nat
    var overflow: bool
    var outbox: bytes

    ghost var fed: bytes
    ghost var forwarded: seq<bytes>

    ghost predicate Valid()
      reads this
    {
      && Frame(limit, fed) == Framing(forwarded, carry, overflow)
      && Consistent()
    }

    ghost predicate Consistent()
      reads this
    {
      && outbox == Wire(forwarded)
      && events == |forwarded|
    }

    constructor (limit: nat)
      ensures Valid() && this.limit == limit && fed == [] && !overflow
    {
      this.limit := limit;
      carry, events, overflow, outbox := [], 0, false, [];
      fed, forwarded := [], [];
    }

    /** `af_prov_emit_chunk`. */
    method EmitChunk(e: bytes)
      requires Consistent() && e != []
      modifies this`outbox, this`events, this`forwarded
      ensures Consistent() && forwarded == old(forwarded) + [e]
    {
      outbox := AppendHex(outbox, |e|);
      outbox := outbox + CRLF;
      outbox := outbox + e;
      outbox := outbox + CRLF;
      events := events + 1;
      WireSnoc(forwarded, e);
      assert outbox == old(outbox) + OneChunk(e);
      forwarded := forwarded + [e];
    }

    /** `af_prov_sse_feed`, on one callback's worth of bytes; false is AF_E_LIMIT. */
    method Feed(piece: bytes) returns (ok: bool)
      requires Valid() && !overflow
      modifies this
      ensures Valid() && fed == old(fed) + piece
      ensures ok == !overflow
    {
      FrameInParts(limit, fed, piece);
      FrameConserves(limit, fed);
      ghost var goal := Frame(limit, fed + piece);
      fed := fed + piece;
      if piece == [] {
        assert fed == old(fed);
        return true;
      }
      carry := carry + piece;
      while carry != []
        invariant Consistent() && !overflow
        invariant fed == old(fed) + piece
        invariant goal == Frame(limit, carry).After(forwarded)
        decreases |carry|
      {
        var n := Scan(carry);
        if n == 0 {
          assert forwarded + [] == forwarded;
          overflow := 0 < limit < |carry|;
          return !overflow;
        }
        if 0 < limit < n {
          assert forwarded + [] == forwarded;
          overflow := true;
          return false;
        }
        AfterTwice(Frame(limit, carry[n..]), forwarded, [carry[..n]]);
        EmitChunk(carry[..n]);
        carry := carry[n..];
      }
      assert forwarded + [] == forwarded;
      return true;
    }

    /** `af_prov_sse_finish` and the terminating chunk. A client decoding the outbox
        gets every byte that was fed, or, when the ceiling stopped the stream, whole
        events only: the bytes the ceiling refused are not flushed at the end. Every
        event forwarded, the unterminated last one included, is within the limit. */
    method Finish()
      requires Valid()
      modifies this
      ensures fed == old(fed) && overflow == old(overflow) && carry == []
      ensures forwarded == Sent(Frame(limit, fed)) && forall i :: 0 <= i < |forwarded| ==> WithinLimit(limit, forwarded[i])
      ensures Decode(outbox) == Body(Delivered(limit, fed), [])
    {
      ClientDecodesAll(limit, fed);
      SentIsWithinLimit(limit, fed);
      ghost var sent := Sent(Frame(limit, fed));
      if !overflow && carry != [] {
        EmitChunk(carry);
      }
      assert forwarded == sent;
      carry := [];
      outbox := outbox + Encode([]);
    }

    /** A whole transfer: libcurl's pieces in order until one is refused, then the
        end of the stream. What the client decodes depends on the bytes and the limit
        alone, not on how the network cut them. */
    method Transfer(pieces: seq<bytes>)
      requires Valid() && fed == []
      modifies this
      ensures overflow == Frame(limit, Flatten(pieces)).overflow
      ensures Decode(outbox) == Body(Delivered(limit, Flatten(pieces)), [])
    {
      var i := 0;
      var ok := true;
      while i < |pieces| && ok
        invariant 0 <= i <= |pieces|
        invariant Valid() && ok == !overflow
        invariant fed == Flatten(pieces[..i])
      {
        assert pieces[..i + 1] == pieces[..i] + [pieces[i]];
        FlattenSnoc(pieces[..i], pieces[i]);
        ok := Feed(pieces[i]);
        i := i + 1;
      }
      ghost var rest := Flatten(pieces[i..]);
      assert pieces[..i] + pieces[i..] == pieces;
      FlattenAppend(pieces[..i], pieces[i..]);
      FrameInParts(limit, fed, rest);
      assert i == |pieces| ==> pieces[i..] == [] && fed + [] == fed;
      Finish();
    }
  }
}

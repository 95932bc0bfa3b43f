/** Newline-delimited framing of the control plane: the scripted server of
    tests/mock_control_server.py and the client of tests/control_client.py. */
module ControlFraming {
  import opened Common
  import opened Bytes
  import opened Sockets
  import opened Numerals

  const NEWLINE: bytes := [LF]
  const BUFFER_LIMIT: nat := 1024 * 1024
  const RECV_MAX: nat := 65536

  // --- lines -------------------------------------------------------------------------------

  /** The newline-terminated frames of a byte stream, and what follows the last one. */
  function Lines(b: bytes): seq<bytes>
    decreases |b|
  {
    var i := Find(b, NEWLINE);
    if i < 0 then [] else [b[..i]] + Lines(b[i + 1..])
  }

  function Tail(b: bytes): (t: bytes)
    ensures |t| <= |b|
    decreases |b|
  {
    var i := Find(b, NEWLINE);
    if i < 0 then b else Tail(b[i + 1..])
  }

  lemma {:induction false} LinesConcat(a: bytes, b: bytes)
    ensures Lines(a + b) == Lines(a) + Lines(Tail(a) + b)
    ensures Tail(a + b) == Tail(Tail(a) + b)
    decreases |a|
  {
    var i := Find(a, NEWLINE);
    if i >= 0 {
      FindStable(a, b, NEWLINE);
      assert (a + b)[..i] == a[..i] && (a + b)[i + 1..] == a[i + 1..] + b;
      LinesConcat(a[i + 1..], b);
    }
  }

  function NonEmpty(frames: seq<bytes>): seq<bytes> {
    if frames == [] then []
    else (if frames[0] == [] then [] else [frames[0]]) + NonEmpty(frames[1..])
  }

  lemma {:induction false} NonEmptyConcat(a: seq<bytes>, b: seq<bytes>)
    ensures NonEmpty(a + b) == NonEmpty(a) + NonEmpty(b)
  {
    if a == [] {
      assert a + b == b;
    } else {
      assert (a + b)[1..] == a[1..] + b;
      NonEmptyConcat(a[1..], b);
    }
  }

  // --- the scripted server ---------------------------------------------------------------------

  datatype Request = Request(id: Option<string>, name: string)

  /** A scripted reply: an ordinary one (perhaps with its own id), bytes sent verbatim,
      or a closed connection. */
  datatype Envelope = Ordinary(body: string) | WithId(body: string, id: Option<string>) | Raw(payload: bytes) | Close

  datatype Script = Always(reply: Envelope) | Sequence(replies: seq<Envelope>)

  /** The fixture: what each method answers, how a request is read, and how a reply is
      written. */
  datatype Fixture = Fixture(
    methods: map<string, Script>,
    parse: bytes -> Request,
    render: (Option<string>, string) -> bytes,
    unknown: string -> string)

  datatype Log = Log(counts: map<string, nat>, requests: seq<Request>, rawRequests: seq<bytes>, rawResponses: seq<bytes>)

  function CountOf(log: Log, name: string): nat {
    if name in log.counts then log.counts[name] else 0
  }

  function Min(a: nat, b: nat): nat { if a < b then a else b }

  /** `_reply_for`; an empty sequence raises, which ends the connection. */
  function ReplyFor(fx: Fixture, rq: Request, count: nat): Envelope {
    if rq.name !in fx.methods then Ordinary(fx.unknown(rq.name))
    else match fx.methods[rq.name]
      case Always(reply) => reply
      case Sequence(replies) => if replies == [] then Close else replies[Min(count, |replies| - 1)]
  }

  function Payload(fx: Fixture, rq: Request, reply: Envelope): bytes {
    match reply
    case Close => []
    case Raw(p) => if p != [] && p[|p| - 1] == LF then p else p + NEWLINE
    case Ordinary(body) => fx.render(rq.id, body) + NEWLINE
    case WithId(body, id) => fx.render(id, body) + NEWLINE
  }

  datatype Outcome = Outcome(log: Log, open: bool)

  function Dispatched(fx: Fixture, log: Log, raw: bytes): Outcome {
    var rq := fx.parse(raw);
    var count := CountOf(log, rq.name);
    var reply := ReplyFor(fx, rq, count);
    var seen := Log(if rq.name in fx.methods then log.counts[rq.name := count + 1] else log.counts,
                    log.requests + [rq], log.rawRequests + [raw + NEWLINE], log.rawResponses);
    if reply.Close? then Outcome(seen, false)
    else Outcome(seen.(rawResponses := seen.rawResponses + [Payload(fx, rq, reply)]), true)
  }

  function Served(fx: Fixture, log: Log, frames: seq<bytes>): Outcome
    decreases |frames|
  {
    if frames == [] then Outcome(log, true)
    else
      var o := Dispatched(fx, log, frames[0]);
      if o.open then Served(fx, o.log, frames[1..]) else o
  }

  lemma {:induction false} ServedConcat(fx: Fixture, log: Log, a: seq<bytes>, b: seq<bytes>)
    ensures Served(fx, log, a + b) == var o := Served(fx, log, a); if o.open then Served(fx, o.log, b) else o
    decreases |a|
  {
    if a == [] {
      assert a + b == b;
    } else {
      assert (a + b)[1..] == a[1..] + b;
      var o := Dispatched(fx, log, a[0]);
      if o.open {
        ServedConcat(fx, o.log, a[1..], b);
      }
    }
  }

  /** How many pieces are taken before one overfills the buffer. */
  function Admitted(carry: bytes, pieces: seq<bytes>): (n: nat)
    ensures n <= |pieces|
    decreases |pieces|
  {
    if pieces == [] || |carry + pieces[0]| > BUFFER_LIMIT then 0
    else 1 + Admitted(Tail(carry + pieces[0]), pieces[1..])
  }

  class Server {
    const fx: Fixture
    var log: Log

    constructor (fx: Fixture)
      ensures this.fx == fx && log == Log(map[], [], [], [])
    {
      this.fx, log := fx, Log(map[], [], [], []);
    }

    /** `_dispatch`. */
    method Dispatch(raw: bytes) returns (open: bool)
      modifies this
      ensures Outcome(log, open) == Dispatched(fx, old(log), raw)
    {
      var rq := fx.parse(raw);
      log := log.(requests := log.requests + [rq], rawRequests := log.rawRequests + [raw + NEWLINE]);
      var count := CountOf(log, rq.name);
      if rq.name in fx.methods {
        log := log.(counts := log.counts[rq.name := count + 1]);
      }
      var reply := ReplyFor(fx, rq, count);
      if reply.Close? {
        return false;
      }
      log := log.(rawResponses := log.rawResponses + [Payload(fx, rq, reply)]);
      return true;
    }

    /** `_handle_client`: whatever the fragmentation, exactly the non-empty frames of the
        bytes admitted are dispatched, in order, until one closes the connection. */
    method HandleClient(client: Connection) returns (open: bool)
      requires forall i :: 0 <= i < |client.incoming| ==> client.incoming[i] != []
      modifies this, client
      ensures var n := Admitted([], old(client.incoming));
              Outcome(log, open) == Served(fx, old(log), NonEmpty(Lines(Flatten(old(client.incoming)[..n]))))
    {
      var buffer: bytes := [];
      ghost var pieces := client.incoming;
      ghost var taken := 0;
      assert pieces[..0] == [];
      while true
        invariant 0 <= taken <= |pieces| && client.incoming == pieces[taken..]
        invariant forall i :: 0 <= i < |pieces| ==> pieces[i] != []
        invariant buffer == Tail(Flatten(pieces[..taken]))
        invariant Admitted([], pieces) == taken + Admitted(buffer, pieces[taken..])
        invariant Outcome(log, true) == Served(fx, old(log), NonEmpty(Lines(Flatten(pieces[..taken]))))
        decreases |client.incoming|
      {
        var chunk := client.Recv();
        if chunk == [] {
          assert pieces[..taken] == pieces;
          return true;
        }
        ghost var received := Flatten(pieces[..taken]);
        if |buffer + chunk| > BUFFER_LIMIT {
          return true;
        }
        assert pieces[taken..][0] == chunk && pieces[taken..][1..] == pieces[taken + 1..];
        FlattenOneMore(pieces, taken);
        LinesConcat(received, chunk);
        NonEmptyConcat(Lines(received), Lines(buffer + chunk));
        ServedConcat(fx, old(log), NonEmpty(Lines(received)), NonEmpty(Lines(buffer + chunk)));
        buffer, open := Drain(buffer + chunk);
        taken := taken + 1;
        if !open {
          ServedPrefix(fx, old(log), pieces, taken, Admitted([], pieces));
          return false;
        }
      }
    }

    /** The inner loop: every complete frame in the buffer. */
    method Drain(filled: bytes) returns (buffer: bytes, open: bool)
      modifies this
      ensures Outcome(log, open) == Served(fx, old(log), NonEmpty(Lines(filled)))
      ensures open ==> buffer == Tail(filled)
    {
      buffer := filled;
      ghost var goal := Served(fx, log, NonEmpty(Lines(filled)));
      while Find(buffer, NEWLINE) >= 0
        invariant goal == Served(fx, log, NonEmpty(Lines(buffer)))
        invariant Tail(filled) == Tail(buffer)
        decreases |buffer|
      {
        var i := Find(buffer, NEWLINE);
        var raw := buffer[..i];
        DrainStep(buffer, i);
        buffer := buffer[i + 1..];
        if raw == [] {
          continue;
        }
        open := Dispatch(raw);
        if !open {
          return;
        }
      }
      open := true;
    }
  }

  lemma DrainStep(buffer: bytes, i: nat)
    requires i == Find(buffer, NEWLINE)
    ensures var frames, rest := NonEmpty(Lines(buffer)), NonEmpty(Lines(buffer[i + 1..]));
            if buffer[..i] == [] then frames == rest
            else frames != [] && frames[0] == buffer[..i] && frames[1..] == rest
  {
    assert ([buffer[..i]] + Lines(buffer[i + 1..]))[1..] == Lines(buffer[i + 1..]);
  }

  lemma FlattenOneMore(pieces: seq<bytes>, n: nat)
    requires n < |pieces|
    ensures Flatten(pieces[..n + 1]) == Flatten(pieces[..n]) + pieces[n]
  {
    assert pieces[..n + 1] == pieces[..n] + [pieces[n]];
    FlattenAppend(pieces[..n], [pieces[n]]);
    assert Flatten([pieces[n]]) == pieces[n] by { assert [pieces[n]][1..] == []; }
  }

  /** A connection that has closed stays closed: later frames change nothing. */
  lemma ServedPrefix(fx: Fixture, log: Log, pieces: seq<bytes>, k: nat, n: nat)
    requires k <= n <= |pieces|
    requires !Served(fx, log, NonEmpty(Lines(Flatten(pieces[..k])))).open
    ensures Served(fx, log, NonEmpty(Lines(Flatten(pieces[..n])))) == Served(fx, log, NonEmpty(Lines(Flatten(pieces[..k]))))
  {
    var a, b := Flatten(pieces[..k]), Flatten(pieces[k..n]);
    assert pieces[..n] == pieces[..k] + pieces[k..n];
    FlattenAppend(pieces[..k], pieces[k..n]);
    LinesConcat(a, b);
    NonEmptyConcat(Lines(a), Lines(Tail(a) + b));
    ServedConcat(fx, log, NonEmpty(Lines(a)), NonEmpty(Lines(Tail(a) + b)));
  }

  // --- the client ---------------------------------------------------------------------------------

  /** `read_frame`'s result: a line, or the end of the connection. */
  datatype Frame = Line(text: bytes) | EndOfStream

  class Client {
    const sock: Connection
    var buffer: bytes
    var nextId: nat
    var sent: bytes

    constructor (sock: Connection)
      ensures this.sock == sock && buffer == [] && nextId == 1 && sent == []
    {
      this.sock, buffer, nextId, sent := sock, [], 1, [];
    }

    ghost predicate Valid()
      reads this, sock
    {
      forall i :: 0 <= i < |sock.incoming| ==> sock.incoming[i] != []
    }

    ghost function Pending(): bytes
      reads this, sock
    {
      buffer + Flatten(sock.incoming)
    }

    /** `read_frame`: the next line of what the server sent, whatever its fragmentation. */
    method ReadFrame() returns (f: Frame)
      requires Valid()
      modifies this`buffer, sock
      ensures Valid()
      ensures match f
        case Line(text) => Lines(old(Pending())) == [text] + Lines(Pending()) && Tail(old(Pending())) == Tail(Pending())
        case EndOfStream => Lines(old(Pending())) == [] && Pending() == old(Pending())
    {
      while Find(buffer, NEWLINE) < 0
        invariant Valid() && Pending() == old(Pending())
        decreases |sock.incoming|
      {
        var chunk := sock.Recv();
        if chunk == [] {
          assert buffer + [] == buffer;
          return EndOfStream;
        }
        assert buffer + (chunk + Flatten(sock.incoming)) == (buffer + chunk) + Flatten(sock.incoming);
        buffer := buffer + chunk;
      }
      var i := Find(buffer, NEWLINE);
      ghost var all := Pending();
      FindStable(buffer, Flatten(sock.incoming), NEWLINE);
      assert all[..i] == buffer[..i] && all[i + 1..] == buffer[i + 1..] + Flatten(sock.incoming);
      f := Line(buffer[..i]);
      buffer := buffer[i + 1..];
    }

    /** `call`: one request, one reply, correlated by id. A generated id is used once. */
    method Call(name: string, requestId: Option<string>, codec: Codec) returns (r: CallResult)
      requires Valid()
      modifies this, sock
      ensures Valid()
      ensures nextId == old(nextId) + if requestId.None? then 1 else 0
      ensures var id := if requestId.Some? then requestId.value else GeneratedId(old(nextId));
              && sent == old(sent) + codec.encode(id, name) + NEWLINE
              && match r
                 case Lost => Lines(old(Pending())) == []
                 case Mismatched(line) => HeadLine(old(Pending()), line) && codec.idOf(line) != Some(id)
                 case Refused(line) => HeadLine(old(Pending()), line) && codec.idOf(line) == Some(id) && !codec.isOk(line)
                 case Answered(line) => HeadLine(old(Pending()), line) && codec.idOf(line) == Some(id) && codec.isOk(line)
    {
      var id;
      if requestId.None? {
        id := GeneratedId(nextId);
        nextId := nextId + 1;
      } else {
        id := requestId.value;
      }
      sent := sent + codec.encode(id, name) + NEWLINE;
      var f := ReadFrame();
      match f
      case EndOfStream => return Lost;
      case Line(text) =>
        if codec.idOf(text) != Some(id) {
          return Mismatched(text);
        }
        return if codec.isOk(text) then Answered(text) else Refused(text);
    }
  }

  ghost predicate HeadLine(pending: bytes, line: bytes) {
    Lines(pending) != [] && Lines(pending)[0] == line
  }

  /** How requests are written and replies are read. */
  datatype Codec = Codec(encode: (string, string) -> bytes, idOf: bytes -> Option<string>, isOk: bytes -> bool)

  datatype CallResult = Answered(line: bytes) | Refused(line: bytes) | Mismatched(line: bytes) | Lost

  function GeneratedId(n: nat): string {
    "ctl-" + Decimal(n)
  }

  /** Generated ids never repeat on a connection. */
  lemma GeneratedIdsDiffer(m: nat, n: nat)
    requires m != n
    ensures GeneratedId(m) != GeneratedId(n)
  {
    if Decimal(m) == Decimal(n) {
      DecimalTellsApart(m, n);
    }
    assert GeneratedId(m)[4..] == Decimal(m) && GeneratedId(n)[4..] == Decimal(n);
  }

  // --- both ends together ----------------------------------------------------------------------------

  /** No reply is overridden, sent raw, or replaced by a close. */
  ghost predicate Plain(fx: Fixture) {
    forall m :: m in fx.methods ==>
      match fx.methods[m]
      case Always(reply) => reply.Ordinary?
      case Sequence(replies) => replies != [] && forall i :: 0 <= i < |replies| ==> replies[i].Ordinary?
  }

  /** Rendered replies are single lines, and reading one back gives its id. */
  ghost predicate Faithful(fx: Fixture, idOf: bytes -> Option<string>) {
    forall id, body :: Find(fx.render(id, body), NEWLINE) < 0 && idOf(fx.render(id, body)) == id
  }

  function BodyOf(e: Envelope): string {
    if e.Ordinary? then e.body else ""
  }

  /** The line an ordinary reply to `raw` consists of. */
  function ReplyLine(fx: Fixture, log: Log, raw: bytes): bytes {
    var rq := fx.parse(raw);
    fx.render(rq.id, BodyOf(ReplyFor(fx, rq, CountOf(log, rq.name))))
  }

  lemma DispatchPlain(fx: Fixture, log: Log, raw: bytes)
    requires Plain(fx)
    ensures var o := Dispatched(fx, log, raw);
            o.open && o.log.rawResponses == log.rawResponses + [ReplyLine(fx, log, raw) + NEWLINE]
  {
    var rq := fx.parse(raw);
    var reply := ReplyFor(fx, rq, CountOf(log, rq.name));
    assert reply.Ordinary? by {
      if rq.name in fx.methods {
        var script := fx.methods[rq.name];
        if script.Sequence? {
          assert script.replies[Min(CountOf(log, rq.name), |script.replies| - 1)].Ordinary?;
        }
      }
    }
  }

  function ReplyLines(fx: Fixture, log: Log, frames: seq<bytes>): (lines: seq<bytes>)
    ensures |lines| == |frames|
    decreases |frames|
  {
    if frames == [] then []
    else [ReplyLine(fx, log, frames[0])] + ReplyLines(fx, Dispatched(fx, log, frames[0]).log, frames[1..])
  }

  function Terminated(lines: seq<bytes>): seq<bytes> {
    if lines == [] then [] else [lines[0] + NEWLINE] + Terminated(lines[1..])
  }

  lemma {:induction false} ServedPlain(fx: Fixture, log: Log, frames: seq<bytes>)
    requires Plain(fx)
    ensures var o := Served(fx, log, frames);
            o.open && o.log.rawResponses == log.rawResponses + Terminated(ReplyLines(fx, log, frames))
    decreases |frames|
  {
    if frames == [] {
      assert log.rawResponses + [] == log.rawResponses;
    } else {
      DispatchPlain(fx, log, frames[0]);
      var mid := Dispatched(fx, log, frames[0]).log;
      ServedPlain(fx, mid, frames[1..]);
      var more := ReplyLines(fx, mid, frames[1..]);
      assert ReplyLines(fx, log, frames)[1..] == more;
      assert mid.rawResponses + Terminated(more) ==
             log.rawResponses + ([ReplyLine(fx, log, frames[0]) + NEWLINE] + Terminated(more));
    }
  }

  lemma {:induction false} RepliesCarryIds(fx: Fixture, idOf: bytes -> Option<string>, log: Log, frames: seq<bytes>, i: nat)
    requires Faithful(fx, idOf) && i < |frames|
    ensures Find(ReplyLines(fx, log, frames)[i], NEWLINE) < 0
    ensures idOf(ReplyLines(fx, log, frames)[i]) == fx.parse(frames[i]).id
    decreases |frames|
  {
    if i > 0 {
      RepliesCarryIds(fx, idOf, Dispatched(fx, log, frames[0]).log, frames[1..], i - 1);
    }
  }

  lemma LineOf(line: bytes, more: bytes)
    requires Find(line, NEWLINE) < 0
    ensures Lines(line + NEWLINE + more) == [line] + Lines(more)
  {
    var s := line + NEWLINE + more;
    forall k: nat | k < |line|
      ensures !At(s, NEWLINE, k)
    {
      assert s[k..k + 1] == line[k..k + 1];
      assert !At(line, NEWLINE, k);
    }
    assert s[|line|..|line| + 1] == NEWLINE;
    FindIs(s, NEWLINE, |line|);
    assert s[..|line|] == line && s[|line| + 1..] == more;
  }

  lemma {:induction false} LinesOfTerminated(lines: seq<bytes>)
    requires forall i :: 0 <= i < |lines| ==> Find(lines[i], NEWLINE) < 0
    ensures Lines(Flatten(Terminated(lines))) == lines
  {
    if lines != [] {
      var more := Flatten(Terminated(lines[1..]));
      LinesOfTerminated(lines[1..]);
      assert Terminated(lines)[1..] == Terminated(lines[1..]);
      assert Flatten(Terminated(lines)) == lines[0] + NEWLINE + more;
      LineOf(lines[0], more);
    }
  }

  /** Without overrides every frame is answered, and the i-th line the client can read
      carries the i-th request's id, however either direction was fragmented. */
  lemma RepliesCorrelate(fx: Fixture, idOf: bytes -> Option<string>, log: Log, frames: seq<bytes>)
    requires Plain(fx) && Faithful(fx, idOf) && log.rawResponses == []
    ensures var o := Served(fx, log, frames);
            var lines := Lines(Flatten(o.log.rawResponses));
            && o.open && |lines| == |frames|
            && forall i :: 0 <= i < |frames| ==> idOf(lines[i]) == fx.parse(frames[i]).id
  {
    ServedPlain(fx, log, frames);
    var replies := ReplyLines(fx, log, frames);
    assert [] + Terminated(replies) == Terminated(replies);
    forall i | 0 <= i < |frames|
      ensures Find(replies[i], NEWLINE) < 0 && idOf(replies[i]) == fx.parse(frames[i]).id
    {
      RepliesCarryIds(fx, idOf, log, frames, i);
    }
    LinesOfTerminated(replies);
  }

  // --- scripted sequences ------------------------------------------------------------------------------

  function Asked(requests: seq<Request>, name: string): nat {
    if requests == [] then 0
    else Asked(requests[..|requests| - 1], name) + (if requests[|requests| - 1].name == name then 1 else 0)
  }

  ghost predicate Counted(fx: Fixture, log: Log) {
    forall name :: name in fx.methods ==> CountOf(log, name) == Asked(log.requests, name)
  }

  /** The counters behind scripted sequences count the requests served. */
  lemma {:induction false} SequencesAdvance(fx: Fixture, log: Log, frames: seq<bytes>)
    requires Counted(fx, log)
    ensures Counted(fx, Served(fx, log, frames).log)
    decreases |frames|
  {
    if frames != [] {
      var o := Dispatched(fx, log, frames[0]);
      assert o.log.requests[..|log.requests|] == log.requests;
      if o.open {
        SequencesAdvance(fx, o.log, frames[1..]);
      }
    }
  }

  // --- when the bound cannot trip ------------------------------------------------------------------------

  ghost predicate ShortLines(b: bytes, limit: nat) {
    forall i, j :: Unbroken(b, i, j) ==> j - i <= limit
  }

  ghost predicate Unbroken(b: bytes, i: int, j: int) {
    0 <= i <= j <= |b| && forall k :: i <= k < j ==> b[k] != LF
  }

  lemma {:induction false} TailIsSuffix(b: bytes)
    ensures var t := Tail(b); b[|b| - |t|..] == t && forall k :: 0 <= k < |t| ==> t[k] != LF
    decreases |b|
  {
    var i := Find(b, NEWLINE);
    if i < 0 {
      forall k | 0 <= k < |b|
        ensures b[k] != LF
      {
        assert !At(b, NEWLINE, k);
        assert b[k..k + 1] == [b[k]];
      }
    } else {
      TailIsSuffix(b[i + 1..]);
    }
  }

  /** No fragmentation into `recv`-sized pieces can overfill the buffer when no line is
      longer than the bound less one `recv`. */
  lemma {:induction false} BoundNeverTrips(done: bytes, pieces: seq<bytes>)
    requires forall i :: 0 <= i < |pieces| ==> |pieces[i]| <= RECV_MAX
    requires ShortLines(done + Flatten(pieces), BUFFER_LIMIT - RECV_MAX)
    ensures Admitted(Tail(done), pieces) == |pieces|
    decreases |pieces|
  {
    if pieces != [] {
      var all := done + Flatten(pieces);
      var t := Tail(done);
      TailIsSuffix(done);
      assert forall k :: |done| - |t| <= k < |done| ==> all[k] == t[k - (|done| - |t|)];
      assert Unbroken(all, |done| - |t|, |done|);
      assert all == (done + pieces[0]) + Flatten(pieces[1..]);
      LinesConcat(done, pieces[0]);
      BoundNeverTrips(done + pieces[0], pieces[1..]);
    }
  }
}

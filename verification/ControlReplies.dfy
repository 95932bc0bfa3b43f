/** What a client of the scripted control server (tests/mock_control_server.py) is sent over
    a whole connection, said of the script and the frames alone. */
module ControlReplies {
  import opened Common
  import opened Bytes
  import opened ControlFraming

  // --- frames --------------------------------------------------------------------------------

  lemma SpellOneMore(line: bytes, lines: seq<bytes>, tail: bytes)
    ensures Flatten(Terminated([line] + lines)) + tail == line + NEWLINE + (Flatten(Terminated(lines)) + tail)
  {
    assert ([line] + lines)[1..] == lines;
    var more := Terminated(lines);
    assert ([line + NEWLINE] + more)[1..] == more;
    assert ((line + NEWLINE) + Flatten(more)) + tail == line + NEWLINE + (Flatten(more) + tail);
  }

  lemma CutAt(b: bytes, i: nat)
    requires i == Find(b, NEWLINE)
    ensures i < |b| && b == b[..i] + NEWLINE + b[i + 1..]
  {
    assert At(b, NEWLINE, i);
    assert b[i..i + 1] == NEWLINE;
  }

  /** Lines and the unfinished rest spell the stream. */
  lemma {:induction false} LinesSpell(b: bytes)
    ensures Flatten(Terminated(Lines(b))) + Tail(b) == b
    decreases |b|
  {
    var i := Find(b, NEWLINE);
    if i < 0 {
      assert [] + b == b;
    } else {
      CutAt(b, i);
      LinesSpell(b[i + 1..]);
      SpellOneMore(b[..i], Lines(b[i + 1..]), Tail(b[i + 1..]));
    }
  }

  lemma {:induction false} LinesAreLines(b: bytes)
    ensures forall i :: 0 <= i < |Lines(b)| ==> LF !in Lines(b)[i]
    ensures LF !in Tail(b)
    decreases |b|
  {
    TailIsSuffix(b);
    var i := Find(b, NEWLINE);
    if i >= 0 {
      LinesAreLines(b[i + 1..]);
      NoNewlineBefore(b, i);
    }
  }

  lemma NoNewlineBefore(b: bytes, i: nat)
    requires i == Find(b, NEWLINE)
    ensures LF !in b[..i]
  {
    forall k | 0 <= k < i
      ensures b[..i][k] != LF
    {
      assert !At(b, NEWLINE, k);
      assert b[k..k + 1] == [b[k]];
    }
  }

  /** Empty frames are skipped and every other kept in its place. */
  lemma NonEmptyKeeps(a: seq<bytes>, frame: bytes, b: seq<bytes>)
    ensures NonEmpty(a + [frame] + b) == NonEmpty(a) + (if frame == [] then [] else [frame]) + NonEmpty(b)
  {
    NonEmptyConcat(a + [frame], b);
    NonEmptyConcat(a, [frame]);
    assert [frame][1..] == [];
  }

  // --- the bound on the buffer ------------------------------------------------------------------

  /** Piece `k`, with what is unfinished of the bytes before it, exceeds a megabyte. */
  ghost predicate Overfills(carry: bytes, pieces: seq<bytes>, k: nat)
    requires k < |pieces|
  {
    |Tail(carry + Flatten(pieces[..k]))| + |pieces[k]| > 1_048_576
  }

  lemma OverfillsLater(carry: bytes, pieces: seq<bytes>, k: nat)
    requires k + 1 < |pieces|
    ensures Overfills(carry, pieces, k + 1) <==> Overfills(Tail(carry + pieces[0]), pieces[1..], k)
  {
    var rest := Flatten(pieces[1..][..k]);
    assert pieces[..k + 1][0] == pieces[0] && pieces[..k + 1][1..] == pieces[1..][..k];
    assert carry + (pieces[0] + rest) == (carry + pieces[0]) + rest;
    LinesConcat(carry + pieces[0], rest);
    assert pieces[1..][k] == pieces[k + 1];
  }

  lemma FirstOverfills(carry: bytes, pieces: seq<bytes>)
    requires pieces != []
    ensures Overfills(carry, pieces, 0) <==> |Tail(carry)| + |pieces[0]| > 1_048_576
  {
    assert pieces[..0] == [] && carry + [] == carry;
  }

  /** Pieces are taken up to the first that overfills the buffer. */
  lemma {:induction false} AdmittedUpToTheFirst(carry: bytes, pieces: seq<bytes>)
    requires Tail(carry) == carry
    ensures var n := Admitted(carry, pieces);
            && (n < |pieces| ==> Overfills(carry, pieces, n))
            && forall k: nat :: k < n ==> !Overfills(carry, pieces, k)
    decreases |pieces|
  {
    if pieces != [] {
      FirstOverfills(carry, pieces);
      if |carry + pieces[0]| <= BUFFER_LIMIT {
        TailOfTail(carry + pieces[0]);
        AdmittedUpToTheFirst(Tail(carry + pieces[0]), pieces[1..]);
        forall k: nat | k + 1 < |pieces|
          ensures Overfills(carry, pieces, k + 1) <==> Overfills(Tail(carry + pieces[0]), pieces[1..], k)
        {
          OverfillsLater(carry, pieces, k);
        }
        forall k: nat | k < Admitted(carry, pieces)
          ensures !Overfills(carry, pieces, k)
        {
          if k > 0 {
            OverfillsLater(carry, pieces, k - 1);
          }
        }
      }
    }
  }

  lemma TailOfTail(b: bytes)
    ensures Tail(Tail(b)) == Tail(b)
  {
    LinesConcat(b, []);
    assert b + [] == b && Tail(b) + [] == Tail(b);
  }

  // --- the script -------------------------------------------------------------------------------

  /** The script answers the request with `e` when `earlier` requests named the same method. */
  ghost predicate Scripted(fx: Fixture, rq: Request, earlier: nat, e: Envelope) {
    if rq.name !in fx.methods then e == Ordinary(fx.unknown(rq.name))
    else match fx.methods[rq.name]
      case Always(reply) => e == reply
      case Sequence(replies) =>
        if earlier < |replies| then e == replies[earlier]
        else if replies == [] then e == Close
        else e == replies[|replies| - 1]
  }

  /** `line` is what the envelope becomes on the wire: its own id or else the request's, and
      one newline, which raw bytes get only if they have none. */
  ghost predicate Written(fx: Fixture, rq: Request, e: Envelope, line: bytes) {
    match e
    case Ordinary(body) => line == fx.render(rq.id, body) + [10]
    case WithId(body, id) => line == fx.render(id, body) + [10]
    case Raw(payload) => line != [] && line[|line| - 1] == 10 && (payload == line || (payload + [10] == line && !EndsLine(payload)))
    case Close => false
  }

  predicate EndsLine(b: bytes) {
    b != [] && b[|b| - 1] == 10
  }

  /** One request: the scripted reply is written, or closes the connection. */
  lemma DispatchSends(fx: Fixture, log: Log, raw: bytes) returns (e: Envelope)
    requires Counted(fx, log)
    ensures var rq, o := fx.parse(raw), Dispatched(fx, log, raw);
            && Scripted(fx, rq, Asked(log.requests, rq.name), e)
            && o.log.requests == log.requests + [rq] && o.log.rawRequests == log.rawRequests + [raw + [10]]
            && (o.open <==> !e.Close?)
            && if o.open then |o.log.rawResponses| == |log.rawResponses| + 1 && o.log.rawResponses[..|log.rawResponses|] == log.rawResponses
                              && Written(fx, rq, e, o.log.rawResponses[|log.rawResponses|])
               else o.log.rawResponses == log.rawResponses
  {
    var rq := fx.parse(raw);
    e := ReplyFor(fx, rq, CountOf(log, rq.name));
  }

  function Parsed(fx: Fixture, frames: seq<bytes>): (rs: seq<Request>)
    ensures |rs| == |frames| && forall i :: 0 <= i < |frames| ==> rs[i] == fx.parse(frames[i])
  {
    seq(|frames|, i requires 0 <= i < |frames| => fx.parse(frames[i]))
  }

  /** The script's answer to the i-th frame, counting the frames before it. */
  ghost predicate Due(fx: Fixture, frames: seq<bytes>, i: nat, e: Envelope)
    requires i < |frames|
  {
    Scripted(fx, fx.parse(frames[i]), Asked(Parsed(fx, frames[..i]), fx.parse(frames[i]).name), e)
  }

  ghost predicate Sent(fx: Fixture, frames: seq<bytes>, i: nat, line: bytes)
    requires i < |frames|
  {
    exists e :: Due(fx, frames, i, e) && Written(fx, fx.parse(frames[i]), e, line)
  }

  /** What a connection that has served `n` of the frames has done. */
  ghost predicate Followed(fx: Fixture, frames: seq<bytes>, o: Outcome, n: nat) {
    && n <= |frames|
    && o.log.requests == Parsed(fx, frames[..n])
    && (forall i :: 0 <= i < |o.log.rawResponses| && i < |frames| ==> Sent(fx, frames, i, o.log.rawResponses[i]))
    && if o.open then n == |frames| && |o.log.rawResponses| == n
       else n > 0 && |o.log.rawResponses| == n - 1 && Due(fx, frames, n - 1, Close)
  }

  const SILENT: Log := Log(map[], [], [], [])

  lemma SentEarlier(fx: Fixture, frames: seq<bytes>, m: nat, i: nat, line: bytes)
    requires i < m <= |frames|
    ensures Sent(fx, frames[..m], i, line) <==> Sent(fx, frames, i, line)
    ensures forall e :: Due(fx, frames[..m], i, e) <==> Due(fx, frames, i, e)
  {
    assert frames[..m][..i] == frames[..i];
  }

  lemma FollowedEarlier(fx: Fixture, frames: seq<bytes>, m: nat, o: Outcome, n: nat)
    requires m <= |frames| && Followed(fx, frames[..m], o, n) && !o.open
    ensures Followed(fx, frames, o, n)
  {
    assert frames[..m][..n] == frames[..n];
    forall i | 0 <= i < |o.log.rawResponses|
      ensures Sent(fx, frames, i, o.log.rawResponses[i])
    {
      SentEarlier(fx, frames, m, i, o.log.rawResponses[i]);
    }
    SentEarlier(fx, frames, m, n - 1, []);
  }

  lemma FollowedOneMore(fx: Fixture, frames: seq<bytes>, m: nat, o: Outcome)
    requires m + 1 == |frames| && o.open && Followed(fx, frames[..m], o, m) && Counted(fx, o.log)
    ensures Followed(fx, frames, Dispatched(fx, o.log, frames[m]), m + 1)
  {
    var next := Dispatched(fx, o.log, frames[m]);
    var e := DispatchSends(fx, o.log, frames[m]);
    assert frames[..m][..m] == frames[..m] && frames[..m + 1] == frames;
    assert Due(fx, frames, m, e);
    assert next.log.requests == Parsed(fx, frames);
    forall i | 0 <= i < |next.log.rawResponses|
      ensures Sent(fx, frames, i, next.log.rawResponses[i])
    {
      if i < m {
        assert next.log.rawResponses[i] == o.log.rawResponses[i];
        SentEarlier(fx, frames, m, i, o.log.rawResponses[i]);
      }
    }
  }

  /** A whole connection: the frames are read in order, each is answered as the script says
      for its place among the requests of its name, and the first to be due a close ends it. */
  lemma {:induction false} ScriptIsFollowed(fx: Fixture, frames: seq<bytes>) returns (n: nat)
    ensures Followed(fx, frames, Served(fx, SILENT, frames), n)
    ensures Counted(fx, Served(fx, SILENT, frames).log)
    decreases |frames|
  {
    SequencesAdvance(fx, SILENT, frames);
    if frames == [] {
      n := 0;
    } else {
      var m := |frames| - 1;
      var front := frames[..m];
      assert frames == front + [frames[m]];
      ServedConcat(fx, SILENT, front, [frames[m]]);
      n := ScriptIsFollowed(fx, front);
      var o := Served(fx, SILENT, front);
      if o.open {
        n := m + 1;
        ServedOne(fx, o.log, frames[m]);
        FollowedOneMore(fx, frames, m, o);
      } else {
        FollowedEarlier(fx, frames, m, o, n);
      }
    }
  }

  lemma ServedOne(fx: Fixture, log: Log, frame: bytes)
    ensures Served(fx, log, [frame]) == Dispatched(fx, log, frame)
  {
    assert [frame][1..] == [];
  }
}

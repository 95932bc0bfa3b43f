/** Octet strings and the two sequence operations every framer here is built on:
    `bytes.find` and the concatenation of received pieces. */
module Bytes {
  newtype byte = b: int | 0 <= b < 256
  type bytes = seq<byte>

  const CR: byte := 13
  const LF: byte := 10
  const CRLF: bytes := [CR, LF]

  predicate At<T(==)>(s: seq<T>, pattern: seq<T>, i: nat) {
    i + |pattern| <= |s| && s[i..i + |pattern|] == pattern
  }

  /** `s.find(pattern, i)`: the first occurrence at or after `i`, or -1. */
  function FindFrom<T(==)>(s: seq<T>, pattern: seq<T>, i: nat): (r: int)
    ensures r >= 0 ==> i <= r && At(s, pattern, r) && forall k: nat :: i <= k < r ==> !At(s, pattern, k)
    ensures r < 0 ==> forall k: nat :: i <= k ==> !At(s, pattern, k)
    decreases |s| - i
  {
    if i + |pattern| > |s| then -1
    else if At(s, pattern, i) then i
    else FindFrom(s, pattern, i + 1)
  }

  function Find<T(==)>(s: seq<T>, pattern: seq<T>): (r: int)
    ensures r >= 0 ==> At(s, pattern, r) && forall k: nat :: k < r ==> !At(s, pattern, k)
    ensures r < 0 ==> forall k: nat :: !At(s, pattern, k)
  {
    FindFrom(s, pattern, 0)
  }

  /** More bytes arriving never move a match that has already been found. */
  lemma FindStable<T>(s: seq<T>, t: seq<T>, pattern: seq<T>)
    requires Find(s, pattern) >= 0
    ensures Find(s + t, pattern) == Find(s, pattern)
  {
    var r := Find(s, pattern);
    assert (s + t)[r..r + |pattern|] == s[r..r + |pattern|];
    assert At(s + t, pattern, r);
    forall k: nat | k < r
      ensures !At(s + t, pattern, k)
    {
      assert !At(s, pattern, k);
      assert (s + t)[k..k + |pattern|] == s[k..k + |pattern|];
    }
    FindIs(s + t, pattern, r);
  }

  /** The search is decided by any position known to be the first match. */
  lemma FindIs<T>(s: seq<T>, pattern: seq<T>, r: nat)
    requires At(s, pattern, r)
    requires forall k: nat :: k < r ==> !At(s, pattern, k)
    ensures Find(s, pattern) == r
  {
    var f := Find(s, pattern);
    assert f >= 0;
    assert !(r < f);
  }

  /** The bytes a peer sent, as the pieces `recv` cut them into. */
  function Flatten<T>(pieces: seq<seq<T>>): seq<T> {
    if pieces == [] then [] else pieces[0] + Flatten(pieces[1..])
  }

  lemma {:induction false} FlattenAppend<T>(a: seq<seq<T>>, b: seq<seq<T>>)
    ensures Flatten(a + b) == Flatten(a) + Flatten(b)
  {
    if a == [] {
      assert a + b == b;
    } else {
      assert (a + b)[1..] == a[1..] + b;
      FlattenAppend(a[1..], b);
    }
  }
}

/** The receiving end of a connection. */
module Sockets {
  import opened Bytes

  /** A peer's bytes, in the pieces `recv` will return; empty once it has closed. */
  class Connection {
    var incoming: seq<bytes>

    constructor (pieces: seq<bytes>)
      ensures incoming == pieces
    {
      incoming := pieces;
    }

    method Recv() returns (piece: bytes)
      modifies this
      ensures old(incoming) == [] ==> piece == [] && incoming == []
      ensures old(incoming) != [] ==> piece == old(incoming)[0] && incoming == old(incoming)[1..]
    {
      if incoming == [] {
        piece := [];
      } else {
        piece, incoming := incoming[0], incoming[1..];
      }
    }
  }
}

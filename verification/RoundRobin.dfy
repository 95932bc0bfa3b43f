/** Fairness of the round-robin policy of tests/route_oracle.py. */
module RoundRobin {
  import opened RouteOracle

  /** How many of the cursors `start, start + 1, ..., start + m - 1` pick `c`. */
  function Picks(cs: seq<Candidate>, c: Candidate, start: nat, m: nat): nat {
    if m == 0 then 0
    else Picks(cs, c, start, m - 1) + (if SelectRoundRobin(cs, start + m - 1) == Chosen(c) then 1 else 0)
  }

  /** Occurrences of residue `p` modulo `n` among `m` consecutive numbers. */
  function Hits(n: nat, p: nat, start: nat, m: nat): nat
    requires n > 0
  {
    if m == 0 then 0 else Hits(n, p, start, m - 1) + (if (start + m - 1) % n == p then 1 else 0)
  }

  lemma {:induction false} HitsSplit(n: nat, p: nat, start: nat, a: nat, b: nat)
    requires n > 0
    ensures Hits(n, p, start, a + b) == Hits(n, p, start, a) + Hits(n, p, start + a, b)
  {
    if b > 0 {
      HitsSplit(n, p, start, a, b - 1);
    }
  }

  lemma {:induction false} MultipleIsFar(d: int, n: nat)
    ensures d > 0 ==> d * n >= n
    ensures d < 0 ==> d * n <= -(n as int)
    decreases if d < 0 then -d else d
  {
    if d > 1 {
      MultipleIsFar(d - 1, n);
      assert d * n == (d - 1) * n + n;
    } else if d < -1 {
      MultipleIsFar(d + 1, n);
      assert d * n == (d + 1) * n - n;
    }
  }

  /** Division with remainder is unique. */
  lemma Residue(x: nat, n: nat, q: nat, r: nat)
    requires r < n && x == q * n + r
    ensures x % n == r && x / n == q
  {
    var d := x / n - q;
    assert x == (x / n) * n + x % n;
    assert d * n == (x / n) * n - q * n;
    MultipleIsFar(d, n);
  }

  lemma Advance(start: nat, n: nat, j: nat)
    requires n > 0 && j <= n
    ensures var r := start % n + j; (start + j) % n == (if r < n then r else r - n)
    ensures (start + n) / n == start / n + 1
  {
    var q, r := start / n, start % n;
    assert start == q * n + r;
    if r + j < n {
      Residue(start + j, n, q, r + j);
    } else {
      assert (q + 1) * n == q * n + n;
      Residue(start + j, n, q + 1, r + j - n);
    }
    assert (q + 1) * n == q * n + n;
    Residue(start + n, n, q + 1, r);
  }

  /** At most `n` consecutive numbers meet residue `p` once if they reach it. */
  lemma {:induction false} HitsWithin(n: nat, p: nat, start: nat, m: nat)
    requires p < n && m <= n
    ensures var r := start % n;
            Hits(n, p, start, m) == if (r <= p < r + m) || p + n < r + m then 1 else 0
  {
    if m > 0 {
      HitsWithin(n, p, start, m - 1);
      Advance(start, n, m - 1);
    }
  }

  lemma {:induction false} HitsBounds(n: nat, p: nat, start: nat, m: nat)
    requires p < n
    ensures m / n <= Hits(n, p, start, m) <= m / n + (if m % n == 0 then 0 else 1)
    decreases m
  {
    if m < n {
      HitsWithin(n, p, start, m);
      Residue(m, n, 0, m);
    } else {
      HitsWithin(n, p, start, n);
      HitsSplit(n, p, start, n, m - n);
      HitsBounds(n, p, start + n, m - n);
      Advance(m - n, n, n);
    }
  }

  lemma {:induction false} PicksAreHits(cs: seq<Candidate>, c: Candidate, pos: nat, start: nat, m: nat)
    requires cs != [] && pos < |SortBy(cs, ByConfiguration)| == |cs|
    requires SortBy(cs, ByConfiguration)[pos] == c
    requires forall i :: 0 <= i < |cs| && SortBy(cs, ByConfiguration)[i] == c ==> i == pos
    ensures Picks(cs, c, start, m) == Hits(|cs|, pos, start, m)
  {
    if m > 0 {
      PicksAreHits(cs, c, pos, start, m - 1);
    }
  }

  /** Over any `m` consecutive cursors on a fixed set of `n` eligible candidates, each
      candidate is picked floor(m/n) or ceil(m/n) times. */
  lemma RoundRobinIsFair(cs: seq<Candidate>, c: Candidate, start: nat, m: nat)
    requires c in cs && forall i, j :: 0 <= i < j < |cs| ==> cs[i].index != cs[j].index
    ensures m / |cs| <= Picks(cs, c, start, m) <= m / |cs| + (if m % |cs| == 0 then 0 else 1)
  {
    var s := SortBy(cs, ByConfiguration);
    SortLength(cs, ByConfiguration);
    assert c in multiset(s);
    var pos :| 0 <= pos < |s| && s[pos] == c;
    forall i | 0 <= i < |cs| && s[i] == c
      ensures i == pos
    {
      OnlyOnce(cs, c);
      if i < pos {
        CountedTwice(s, c, i, pos);
      } else if pos < i {
        CountedTwice(s, c, pos, i);
      }
    }
    PicksAreHits(cs, c, pos, start, m);
    HitsBounds(|cs|, pos, start, m);
  }

  lemma {:induction false} OnlyOnce(cs: seq<Candidate>, c: Candidate)
    requires forall i, j :: 0 <= i < j < |cs| ==> cs[i].index != cs[j].index
    ensures multiset(cs)[c] <= 1
  {
    if cs != [] {
      var front, last := cs[..|cs| - 1], cs[|cs| - 1];
      OnlyOnce(front, c);
      assert cs == front + [last];
      if last == c {
        assert c !in front;
      }
    }
  }

  lemma CountedTwice(s: seq<Candidate>, c: Candidate, i: nat, j: nat)
    requires i < j < |s| && s[i] == c && s[j] == c
    ensures multiset(s)[c] >= 2
  {
    assert s == s[..j] + s[j..];
    assert c in multiset(s[..j]) by { assert s[..j][i] == c; }
    assert c in multiset(s[j..]) by { assert s[j..][0] == c; }
    assert multiset(s)[c] == multiset(s[..j])[c] + multiset(s[j..])[c];
  }
}

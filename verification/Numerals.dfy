/** Decimal and hexadecimal numerals: what the parsers read is what is written. */
module Numerals {
  /** `str(n)`. */
  function Decimal(n: nat): (s: string)
    ensures s != "" && forall i :: 0 <= i < |s| ==> '0' <= s[i] <= '9'
  {
    if n < 10 then [n as char + '0'] else Decimal(n / 10) + [(n % 10) as char + '0']
  }

  predicate IsNatural(s: string) {
    s != [] && forall i :: 0 <= i < |s| ==> '0' <= s[i] <= '9'
  }

  /** `int(s)` on a string of decimal digits. */
  function ParseNatural(s: string): nat
    requires forall i :: 0 <= i < |s| ==> '0' <= s[i] <= '9'
  {
    if s == [] then 0 else ParseNatural(s[..|s| - 1]) * 10 + (s[|s| - 1] - '0') as nat
  }

  function Zeros<T>(zero: T, n: nat): seq<T> {
    if n == 0 then [] else [zero] + Zeros(zero, n - 1)
  }

  lemma {:induction false} ZerosEnd<T>(zero: T, n: nat)
    ensures Zeros(zero, n + 1) == Zeros(zero, n) + [zero]
    ensures |Zeros(zero, n)| == n
  {
    if n > 0 {
      ZerosEnd(zero, n - 1);
    }
  }

  /** `s` spells `n`, in digits and with any number of leading zeros. */
  ghost predicate Numeral(s: string, n: nat) {
    exists z: nat :: Padded(s, z, n)
  }

  ghost predicate Padded(s: string, z: nat, n: nat) {
    s == Zeros('0', z) + Decimal(n)
  }

  lemma ReadsOneMore(front: string, digit: char)
    requires IsNatural(front) && '0' <= digit <= '9'
    ensures IsNatural(front + [digit])
    ensures ParseNatural(front + [digit]) == ParseNatural(front) * 10 + (digit - '0') as nat
  {
    assert (front + [digit])[..|front|] == front;
  }

  lemma {:induction false} ReadsDecimal(n: nat)
    ensures ParseNatural(Decimal(n)) == n
  {
    if n >= 10 {
      ReadsDecimal(n / 10);
      ReadsOneMore(Decimal(n / 10), (n % 10) as char + '0');
    } else {
      assert Decimal(n)[..0] == [];
    }
  }

  lemma {:induction false} LeadingZero(s: string)
    requires IsNatural(s)
    ensures IsNatural(['0'] + s) && ParseNatural(['0'] + s) == ParseNatural(s)
  {
    var front, last := s[..|s| - 1], s[|s| - 1];
    assert (['0'] + s)[..|s|] == ['0'] + front;
    if front == [] {
      assert "0"[..0] == [] && ParseNatural("0") == 0;
    } else {
      LeadingZero(front);
    }
  }

  lemma {:induction false} ReadsPadded(s: string, z: nat, n: nat)
    requires Padded(s, z, n)
    ensures IsNatural(s) && ParseNatural(s) == n
    decreases z
  {
    if z == 0 {
      assert s == Decimal(n);
      ReadsDecimal(n);
    } else {
      var rest := Zeros('0', z - 1) + Decimal(n);
      assert s == ['0'] + rest;
      ReadsPadded(rest, z - 1, n);
      LeadingZero(rest);
    }
  }

  lemma DecimalGrows(m: nat, v: nat)
    requires v < 10
    ensures Decimal(m * 10 + v) == (if m == 0 then [] else Decimal(m)) + [v as char + '0']
  {
    assert (m * 10 + v) / 10 == m && (m * 10 + v) % 10 == v;
  }

  lemma PadsOneMore(z: nat, m: nat, v: nat) returns (y: nat)
    requires v < 10
    ensures Zeros('0', z) + Decimal(m) + [v as char + '0'] == Zeros('0', y) + Decimal(m * 10 + v)
  {
    DecimalGrows(m, v);
    ZerosEnd('0', z);
    if m == 0 {
      y := z + 1;
      assert Decimal(0) == "0";
    } else {
      y := z;
    }
  }

  lemma {:induction false} IsPadded(s: string) returns (z: nat)
    requires IsNatural(s)
    ensures Padded(s, z, ParseNatural(s))
    decreases |s|
  {
    var front, last := s[..|s| - 1], s[|s| - 1];
    if front == [] {
      assert s == [last];
      z := 0;
    } else {
      var y := IsPadded(front);
      assert s == front + [last];
      z := PadsOneMore(y, ParseNatural(front), (last - '0') as nat);
    }
  }

  /** Exactly the spellings of `n` are read as `n`. */
  lemma NaturalIff(s: string, n: nat)
    ensures IsNatural(s) && ParseNatural(s) == n <==> Numeral(s, n)
  {
    if IsNatural(s) && ParseNatural(s) == n {
      var z := IsPadded(s);
    }
    forall z: nat | Padded(s, z, n)
      ensures IsNatural(s) && ParseNatural(s) == n
    {
      ReadsPadded(s, z, n);
    }
  }

  lemma DecimalTellsApart(m: nat, n: nat)
    requires Decimal(m) == Decimal(n)
    ensures m == n
  {
    assert Padded(Decimal(m), 0, m) && Padded(Decimal(n), 0, n);
    ReadsPadded(Decimal(m), 0, m);
    ReadsPadded(Decimal(n), 0, n);
  }
}

/** `fnv1a64` (tests/test_cli_contract.py): the configuration revision hash, in
    arithmetic modulo 2^64. */
module Fnv {
  import opened Bytes

  const OFFSET_BASIS: int := 0xCBF2_9CE4_8422_2325
  const PRIME: int := 0x100_0000_01B3
  const MODULUS: int := 0x1_0000_0000_0000_0000

  /** The inverse of PRIME modulo 2^64; it exists because PRIME is odd. */
  const INVERSE: int := 0xCE96_5057_AFF6_957B

  type word = v: int | 0 <= v < MODULUS

  // --- exclusive or -----------------------------------------------------------------------

  function Pow2(n: nat): (p: nat)
    ensures p >= 1
  {
    if n == 0 then 1 else 2 * Pow2(n - 1)
  }

  /** The exclusive or of two bits. */
  function Flip(a: nat, b: nat): (r: nat)
    requires a < 2 && b < 2
    ensures r < 2
  {
    if a == b then 0 else 1
  }

  /** Bitwise exclusive or of the low `n` bits. */
  function Xor(x: nat, y: nat, n: nat): (r: nat)
    ensures r < Pow2(n)
  {
    if n == 0 then 0 else Flip(x % 2, y % 2) + 2 * Xor(x / 2, y / 2, n - 1)
  }

  lemma Halves(bit: nat, half: nat)
    requires bit < 2
    ensures (bit + 2 * half) % 2 == bit && (bit + 2 * half) / 2 == half
  {
  }

  lemma Recombine(x: nat)
    ensures x == x % 2 + 2 * (x / 2)
  {
  }

  /** The parts of an exclusive or. */
  lemma XorParts(x: nat, y: nat, n: nat)
    requires n > 0
    ensures Xor(x, y, n) % 2 == Flip(x % 2, y % 2) && Xor(x, y, n) / 2 == Xor(x / 2, y / 2, n - 1)
  {
    Halves(Flip(x % 2, y % 2), Xor(x / 2, y / 2, n - 1));
  }

  lemma HalfFits(x: nat, n: nat)
    requires n > 0 && x < Pow2(n)
    ensures x / 2 < Pow2(n - 1)
  {
    Recombine(x);
  }

  /** Bit `k` of `x`. */
  function Bit(x: nat, k: nat): nat {
    if k == 0 then x % 2 else Bit(x / 2, k - 1)
  }

  /** Exclusive or, bit by bit: set exactly where the two differ. */
  lemma {:induction false} XorIsBitwise(x: nat, y: nat, n: nat, k: nat)
    requires k < n
    ensures Bit(Xor(x, y, n), k) == if Bit(x, k) == Bit(y, k) then 0 else 1
  {
    XorParts(x, y, n);
    if k > 0 {
      XorIsBitwise(x / 2, y / 2, n - 1, k - 1);
    }
  }

  lemma {:induction false} XorZero(x: nat, n: nat)
    requires x < Pow2(n)
    ensures Xor(x, 0, n) == x
  {
    if n > 0 {
      HalfFits(x, n);
      XorZero(x / 2, n - 1);
      Recombine(x);
    }
  }

  lemma {:induction false} XorUndoes(x: nat, y: nat, n: nat)
    requires x < Pow2(n)
    ensures Xor(Xor(x, y, n), y, n) == x
  {
    if n > 0 {
      HalfFits(x, n);
      XorUndoes(x / 2, y / 2, n - 1);
      XorParts(x, y, n);
      Recombine(x);
    }
  }

  lemma {:induction false} XorTellsApart(x: nat, y: nat, z: nat, n: nat)
    requires Xor(x, y, n) == Xor(x, z, n) && y < Pow2(n) && z < Pow2(n)
    ensures y == z
  {
    if n > 0 {
      HalfFits(y, n);
      HalfFits(z, n);
      XorParts(x, y, n);
      XorParts(x, z, n);
      XorTellsApart(x / 2, y / 2, z / 2, n - 1);
      Recombine(y);
      Recombine(z);
    }
  }

  lemma PowersUsed()
    ensures Pow2(64) == MODULUS && Pow2(8) == 256
  {
    assert Pow2(2) == 4 by { assert Pow2(0) == 1 && Pow2(1) == 2; }
    PowerSum(2, 2);
    assert Pow2(4) == 16;
    PowerSum(4, 4);
    assert Pow2(8) == 0x100;
    PowerSum(8, 8);
    assert Pow2(16) == 0x1_0000;
    PowerSum(16, 16);
    assert Pow2(32) == 0x1_0000_0000;
    PowerSum(32, 32);
  }

  lemma {:induction false} PowerSum(a: nat, b: nat)
    ensures Pow2(a + b) == Pow2(a) * Pow2(b)
  {
    if a > 0 {
      PowerSum(a - 1, b);
      assert 2 * (Pow2(a - 1) * Pow2(b)) == (2 * Pow2(a - 1)) * Pow2(b);
    }
  }

  // --- the hash --------------------------------------------------------------------------------

  function Mix(v: word, b: byte): word {
    (Xor(v, b as int, 64) * PRIME) % MODULUS
  }

  function Unmix(v: word, b: byte): (u: word) {
    PowersUsed();
    Xor((v * INVERSE) % MODULUS, b as int, 64)
  }

  function Fold(v: word, payload: bytes): word
    decreases |payload|
  {
    if payload == [] then v else Fold(Mix(v, payload[0]), payload[1..])
  }

  function Unfold(v: word, payload: bytes): word
    decreases |payload|
  {
    if payload == [] then v else Unmix(Unfold(v, payload[1..]), payload[0])
  }

  /** `fnv1a64`. */
  method Hash(payload: bytes) returns (value: word)
    ensures value == Fold(OFFSET_BASIS, payload)
  {
    value := OFFSET_BASIS;
    assert payload[0..] == payload;
    for i := 0 to |payload|
      invariant Fold(OFFSET_BASIS, payload) == Fold(value, payload[i..])
    {
      assert payload[i..][1..] == payload[i + 1..];
      value := (Xor(value, payload[i] as int, 64) * PRIME) % MODULUS;
    }
  }

  // --- each step is a bijection ------------------------------------------------------------------

  lemma InverseIsInverse()
    ensures PRIME * INVERSE == 1 + ((PRIME * INVERSE - 1) / MODULUS) * MODULUS
  {
  }

  lemma ModShift(x: word, t: int)
    ensures (x + t * MODULUS) % MODULUS == x
  {
  }

  /** Multiplying by one of a pair of inverses and then by the other changes nothing. */
  lemma TimesAndBack(x: word, a: int, b: int)
    requires a * b == PRIME * INVERSE
    ensures (((x * a) % MODULUS) * b) % MODULUS == x
  {
    var c := (PRIME * INVERSE - 1) / MODULUS;
    InverseIsInverse();
    var k := (x * a) / MODULUS;
    var y := (x * a) % MODULUS;
    assert x * a == k * MODULUS + y;
    assert y * b == (x * a) * b - (k * MODULUS) * b;
    assert (x * a) * b == x * (a * b);
    assert x * (1 + c * MODULUS) == x + (x * c) * MODULUS;
    assert (k * MODULUS) * b == (k * b) * MODULUS;
    assert y * b == x + (x * c - k * b) * MODULUS;
    ModShift(x, x * c - k * b);
  }

  lemma MixIsBijective(v: word, b: byte)
    ensures Unmix(Mix(v, b), b) == v
    ensures Mix(Unmix(v, b), b) == v
  {
    PowersUsed();
    TimesAndBack(Xor(v, b as int, 64), PRIME, INVERSE);
    XorUndoes(v, b as int, 64);
    TimesAndBack(v, INVERSE, PRIME);
    XorUndoes((v * INVERSE) % MODULUS, b as int, 64);
  }

  lemma MixTellsApart(v: word, b: byte, c: byte)
    requires Mix(v, b) == Mix(v, c)
    ensures b == c
  {
    PowersUsed();
    TimesAndBack(Xor(v, b as int, 64), PRIME, INVERSE);
    TimesAndBack(Xor(v, c as int, 64), PRIME, INVERSE);
    XorTellsApart(v, b as int, c as int, 64);
  }

  /** Hashing a concatenation is hashing the second part from the first part's hash. */
  lemma {:induction false} FoldConcat(v: word, p: bytes, q: bytes)
    ensures Fold(v, p + q) == Fold(Fold(v, p), q)
    decreases |p|
  {
    if p == [] {
      assert p + q == q;
    } else {
      assert (p + q)[1..] == p[1..] + q;
      FoldConcat(Mix(v, p[0]), p[1..], q);
    }
  }

  /** For every payload, hashing is a bijection on 64-bit states: the state it started
      from can be computed back, and every state is reached. */
  lemma {:induction false} FoldIsBijective(v: word, p: bytes)
    ensures Unfold(Fold(v, p), p) == v
    ensures Fold(Unfold(v, p), p) == v
    decreases |p|
  {
    if p != [] {
      FoldIsBijective(Mix(v, p[0]), p[1..]);
      MixIsBijective(v, p[0]);
      FoldIsBijective(v, p[1..]);
      MixIsBijective(Unfold(v, p[1..]), p[0]);
    }
  }

  /** Two payloads that differ in exactly one byte never collide. */
  lemma OneByteNeverCollides(p: bytes, q: bytes, i: nat)
    requires |p| == |q| && i < |p| && p[i] != q[i]
    requires forall k :: 0 <= k < |p| && k != i ==> p[k] == q[k]
    ensures Fold(OFFSET_BASIS, p) != Fold(OFFSET_BASIS, q)
  {
    var front, back := p[..i], p[i + 1..];
    assert p == front + ([p[i]] + back) && q == front + ([q[i]] + back);
    var v := Fold(OFFSET_BASIS, front);
    FoldConcat(OFFSET_BASIS, front, [p[i]] + back);
    FoldConcat(OFFSET_BASIS, front, [q[i]] + back);
    assert Fold(v, [p[i]] + back) == Fold(Mix(v, p[i]), back);
    assert Fold(v, [q[i]] + back) == Fold(Mix(v, q[i]), back);
    FoldIsBijective(Mix(v, p[i]), back);
    FoldIsBijective(Mix(v, q[i]), back);
    if Mix(v, p[i]) == Mix(v, q[i]) {
      MixTellsApart(v, p[i], q[i]);
    }
  }

  // --- known hashes --------------------------------------------------------------------------------

  lemma XorStep(x: nat, y: nat, n: nat, half: nat, half': nat, r: nat)
    requires n > 0 && half == x / 2 && half' == y / 2 && Xor(half, half', n - 1) == r
    ensures Xor(x, y, n) == (if x % 2 == y % 2 then 0 else 1) + 2 * r
  {
  }

  /** The first step on the letter `a`: only the low byte changes, from 0x25 to 0x44. */
  lemma FirstByte()
    ensures Xor(OFFSET_BASIS, 97, 64) == 0xCBF2_9CE4_8422_2344
  {
    PowersUsed();
    PowerSum(7, 57);
    assert Pow2(7) == 128 by { assert Pow2(8) == 2 * Pow2(7); }
    var high := OFFSET_BASIS / 128;
    assert high < Pow2(57);
    XorZero(high, 57);
    XorStep(OFFSET_BASIS / 64, 1, 58, high, 0, high);
    XorStep(OFFSET_BASIS / 32, 3, 59, OFFSET_BASIS / 64, 1, Xor(OFFSET_BASIS / 64, 1, 58));
    XorStep(OFFSET_BASIS / 16, 6, 60, OFFSET_BASIS / 32, 3, Xor(OFFSET_BASIS / 32, 3, 59));
    XorStep(OFFSET_BASIS / 8, 12, 61, OFFSET_BASIS / 16, 6, Xor(OFFSET_BASIS / 16, 6, 60));
    XorStep(OFFSET_BASIS / 4, 24, 62, OFFSET_BASIS / 8, 12, Xor(OFFSET_BASIS / 8, 12, 61));
    XorStep(OFFSET_BASIS / 2, 48, 63, OFFSET_BASIS / 4, 24, Xor(OFFSET_BASIS / 4, 24, 62));
    XorStep(OFFSET_BASIS, 97, 64, OFFSET_BASIS / 2, 48, Xor(OFFSET_BASIS / 2, 48, 63));
  }

  lemma MixFirst(x: nat)
    requires x == 0xCBF2_9CE4_8422_2344
    ensures (x * PRIME) % MODULUS == 0xAF63_DC4C_8601_EC8C
  {
  }

  lemma FoldOne(v: word, b: byte)
    ensures Fold(v, [b]) == Mix(v, b)
  {
    assert [b][1..] == [];
    assert Fold(Mix(v, b), []) == Mix(v, b);
  }

  /** The hashes of nothing and of the letter `a`, as the FNV-1a reference gives them. */
  lemma KnownHashes()
    ensures Fold(OFFSET_BASIS, []) == 0xCBF2_9CE4_8422_2325
    ensures Fold(OFFSET_BASIS, [97]) == 0xAF63_DC4C_8601_EC8C
  {
    FirstByte();
    MixFirst(Xor(OFFSET_BASIS, 97, 64));
    FoldOne(OFFSET_BASIS, 97);
  }
}

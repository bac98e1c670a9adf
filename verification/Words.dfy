/** Powers of two, and the bitwise operations on machine words written out on naturals. */
module Words {

  function Pow2(k: nat): (p: nat)
    ensures 0 < p
  {
    if k == 0 then 1 else 2 * Pow2(k - 1)
  }

  function Shr(a: nat, k: nat): nat {
    if k == 0 then a else Shr(a / 2, k - 1)
  }

  function Or(a: nat, b: nat): nat {
    if a == 0 then b
    else if b == 0 then a
    else 2 * Or(a / 2, b / 2) + if a % 2 == 1 || b % 2 == 1 then 1 else 0
  }

  function And(a: nat, b: nat): nat {
    if a == 0 || b == 0 then 0
    else 2 * And(a / 2, b / 2) + if a % 2 == 1 && b % 2 == 1 then 1 else 0
  }

  const WORD := 0x1_0000_0000_0000_0000
  const TOP_BIT := 0x8000_0000_0000_0000

  lemma {:induction false} Pow2Add(a: nat, b: nat)
    ensures Pow2(a + b) == Pow2(a) * Pow2(b)
  {
    if a != 0 {
      Pow2Add(a - 1, b);
    }
  }

  lemma WordBits()
    ensures WORD == Pow2(64) && TOP_BIT == Pow2(63)
  {
    assert Pow2(4) == 2 * Pow2(3) == 16;
    Pow2Add(4, 4);
    Pow2Add(8, 8);
    Pow2Add(16, 16);
    Pow2Add(32, 32);
  }

  function Smear(n: nat): nat {
    var n1 := Or(n, Shr(n, 1));
    var n2 := Or(n1, Shr(n1, 2));
    var n3 := Or(n2, Shr(n2, 4));
    var n4 := Or(n3, Shr(n3, 8));
    var n5 := Or(n4, Shr(n4, 16));
    Or(n5, Shr(n5, 32))
  }

  /** The bit-smearing round-up to a power of two on 64-bit words. */
  function NextPowerOf2(n: nat): nat
    requires n < WORD
  {
    var before := if n == 0 then WORD - 1 else n - 1;
    (Smear(before) + 1) % WORD
  }

  lemma {:induction false} Pow2Monotone(a: nat, b: nat)
    requires a <= b
    ensures Pow2(a) <= Pow2(b)
  {
    if a < b {
      Pow2Monotone(a, b - 1);
    }
  }

  lemma {:induction false} ShrShr(a: nat, j: nat, k: nat)
    ensures Shr(Shr(a, j), k) == Shr(a, j + k)
  {
    if j != 0 {
      ShrShr(a / 2, j - 1, k);
    }
  }

  lemma ShrHalf(a: nat, k: nat)
    ensures Shr(a, k) / 2 == Shr(a / 2, k)
  {
    ShrShr(a, k, 1);
    ShrShr(a, 1, k);
    assert Shr(a, 1) == Shr(a / 2, 0) == a / 2;
    assert Shr(Shr(a, k), 1) == Shr(Shr(a, k) / 2, 0);
  }

  lemma {:induction false} ShrOr(a: nat, b: nat, k: nat)
    ensures Shr(Or(a, b), k) == Or(Shr(a, k), Shr(b, k))
  {
    if k != 0 {
      assert Or(a, b) / 2 == Or(a / 2, b / 2);
      ShrOr(a / 2, b / 2, k - 1);
    }
  }

  lemma {:induction false} ShrOnes(m: nat, k: nat)
    requires k <= m
    ensures Shr(Pow2(m) - 1, k) == Pow2(m - k) - 1
  {
    if k != 0 {
      assert (Pow2(m) - 1) / 2 == Pow2(m - 1) - 1;
      ShrOnes(m - 1, k - 1);
    }
  }

  /** `y` starts with `m` one bits, followed by `j` other bits. */
  predicate TopOnes(y: nat, m: nat, j: nat) {
    Shr(y, j) == Pow2(m) - 1
  }

  lemma {:induction false} SmearRest(y: nat, m: nat, j: nat)
    requires TopOnes(y, m, j) && j <= m
    ensures Or(y, Shr(y, m)) == Pow2(m + j) - 1
    decreases j
  {
    ShrShr(y, j, m - j);
    ShrOnes(m, m - j);
    assert Shr(y, m) == Pow2(j) - 1;
    if j != 0 {
      SmearRest(y / 2, m, j - 1);
      ShrHalf(y, m);
      assert Shr(y, m) % 2 == 1;
      assert Or(y, Shr(y, m)) / 2 == Or(y / 2, Shr(y, m) / 2);
    }
  }

  /** One smearing step doubles the leading run of ones. */
  lemma SmearStep(y: nat, m: nat, j: nat)
    requires TopOnes(y, m, j)
    ensures if j <= m then TopOnes(Or(y, Shr(y, m)), m + j, 0) else TopOnes(Or(y, Shr(y, m)), 2 * m, j - m)
  {
    hide Or, Shr, Pow2;
    if j <= m {
      SmearRest(y, m, j);
      NoShift(Or(y, Shr(y, m)));
    } else {
      var z := Shr(y, j - m);
      ShrShr(y, j - m, m);
      ShrShr(y, m, j - m);
      SmearRest(z, m, m);
      ShrOr(y, Shr(y, m), j - m);
    }
  }

  lemma NoShift(y: nat)
    ensures Shr(y, 0) == y
  {
  }

  function Min(a: nat, b: nat): nat {
    if a < b then a else b
  }

  lemma {:induction false} ShrZero(k: nat)
    ensures Shr(0, k) == 0
  {
    if k != 0 {
      ShrZero(k - 1);
    }
  }

  /** The same for a word of `p` bits, once the run may already fill it. */
  lemma SmearBy(y: nat, s: nat, p: nat)
    requires TopOnes(y, Min(s, p), p - Min(s, p))
    ensures TopOnes(Or(y, Shr(y, s)), Min(2 * s, p), p - Min(2 * s, p))
  {
    hide Or, Shr, Pow2;
    if p < s {
      SmearFull(y, s, p);
    } else {
      var j := p - s;
      SmearStep(y, s, j);
      assert s + j == p && (s < j ==> j - s == p - 2 * s);
    }
  }

  lemma SmearFull(y: nat, s: nat, p: nat)
    requires TopOnes(y, p, 0) && p <= s
    ensures Or(y, Shr(y, s)) == y
  {
    ShrOnes(p, p);
    ShrShr(y, p, s - p);
    ShrZero(s - p);
  }

  /** The number of bits of `n`. */
  lemma {:induction false} Bits(n: nat) returns (p: nat)
    requires 0 < n
    ensures 0 < p && Pow2(p - 1) <= n < Pow2(p) && TopOnes(n, 1, p - 1)
  {
    if n == 1 {
      p := 1;
    } else {
      p := Bits(n / 2);
      p := p + 1;
    }
  }

  ghost predicate LeastPow2AtLeast(r: nat, n: nat) {
    exists k: nat :: r == Pow2(k) && n <= r && (k == 0 || Pow2(k - 1) < n)
  }

  lemma SmearFills(n: nat, p: nat)
    requires 0 < p <= 64 && TopOnes(n, 1, p - 1)
    ensures Smear(n) == Pow2(p) - 1
  {
    hide Or, Pow2;
    SmearBy(n, 1, p);
    var n1 := Or(n, Shr(n, 1));
    SmearBy(n1, 2, p);
    var n2 := Or(n1, Shr(n1, 2));
    SmearBy(n2, 4, p);
    var n3 := Or(n2, Shr(n2, 4));
    SmearBy(n3, 8, p);
    var n4 := Or(n3, Shr(n3, 8));
    SmearBy(n4, 16, p);
    var n5 := Or(n4, Shr(n4, 16));
    SmearBy(n5, 32, p);
  }

  /** Rounding up works for 1 <= n <= 2^63; for all other words the result is 0. */
  lemma NextPowerOf2Rounds(n: nat)
    requires n < WORD
    ensures 1 <= n <= TOP_BIT ==> LeastPow2AtLeast(NextPowerOf2(n), n)
    ensures !(1 <= n <= TOP_BIT) ==> NextPowerOf2(n) == 0
  {
    hide Smear, Pow2;
    var n0 := if n == 0 then WORD - 1 else n - 1;
    if n0 == 0 {
      SmearZero();
    } else {
      var p := Bits(n0);
      WordBits();
      if 64 < p { Pow2Monotone(64, p - 1); }
      SmearFills(n0, p);
      RoundedUp(n, p);
    }
  }

  lemma SmearZero()
    ensures Smear(0) == 0 && LeastPow2AtLeast(1, 1)
  {
    ShrZero(1); ShrZero(2); ShrZero(4); ShrZero(8); ShrZero(16); ShrZero(32);
    assert Pow2(0) == 1;
  }

  lemma RoundedUp(n: nat, p: nat)
    requires 0 < p <= 64 && n < WORD && n != 1
    requires Pow2(p - 1) <= (if n == 0 then WORD - 1 else n - 1) < Pow2(p)
    ensures 1 <= n <= TOP_BIT ==> Pow2(p) % WORD == Pow2(p) && LeastPow2AtLeast(Pow2(p), n)
    ensures !(1 <= n <= TOP_BIT) ==> Pow2(p) % WORD == 0
  {
    WordBits();
    if p < 64 {
      Pow2Monotone(p, 63);
    }
  }

  /** Masking with a power of two less one is the remainder. */
  lemma {:induction false} AndMask(h: nat, k: nat)
    ensures And(h, Pow2(k) - 1) == h % Pow2(k)
  {
    if k == 0 {
      assert h % 1 == 0;
    } else {
      var m := Pow2(k - 1);
      assert (Pow2(k) - 1) / 2 == m - 1;
      AndMask(h / 2, k - 1);
      RemainderBit(h, m);
    }
  }

  lemma RemainderBit(h: nat, m: nat)
    requires 0 < m
    ensures h % (2 * m) == 2 * (h / 2 % m) + h % 2
  {
    var q, r := h / 2 / m, h / 2 % m;
    assert h == 2 * m * q + (2 * r + h % 2);
    Remainder(h, 2 * m, q, 2 * r + h % 2);
  }

  lemma Remainder(h: nat, m: nat, q: nat, r: nat)
    requires r < m && h == m * q + r
    ensures h % m == r
  {
    var d := q - h / m;
    assert m * d == h % m - r;
    Multiple(m, d);
  }

  lemma {:induction false} Multiple(m: nat, d: int)
    ensures d == 0 || m <= m * d || m * d + m <= 0
    decreases if d < 0 then -d else d
  {
    if 1 < d {
      Multiple(m, d - 1);
    } else if d < -1 {
      Multiple(m, d + 1);
    }
  }

  /** Under a doubled mask a word keeps its remainder under the old one. */
  lemma DoubledMask(h: nat, k: nat)
    ensures And(h, 2 * Pow2(k) - 1) % Pow2(k) == And(h, Pow2(k) - 1)
  {
    AndMask(h, k);
    AndMask(h, k + 1);
    RemainderTwice(h, Pow2(k));
  }

  lemma Twice(m: nat, q: nat)
    ensures 2 * m * q == m * (2 * q) && m * (2 * q + 1) == m * (2 * q) + m
  {
  }

  lemma RemainderTwice(h: nat, m: nat)
    requires 0 < m
    ensures h % (2 * m) % m == h % m
  {
    var q, r := h / (2 * m), h % (2 * m);
    assert h == 2 * m * q + r;
    Twice(m, q);
    if r < m {
      Remainder(h, m, 2 * q, r);
      Remainder(r, m, 0, r);
    } else {
      Remainder(h, m, 2 * q + 1, r - m);
      Remainder(r, m, 1, r - m);
    }
  }
}

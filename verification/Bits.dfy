/**
 Powers of two, the bit operations used by the ring queue, and both versions of
 `next_pow2`: the doubling loop of the feed handler and the bit-smearing form of
 the Kafka client.  A `size_t` is a natural number below 2^64 and every
 operation that can wrap says so.
 */
module Bits {

  function Pow2(k: nat): (p: nat)
    ensures p > 0
  {
    if k == 0 then 1 else 2 * Pow2(k - 1)
  }

  const WORD: nat := 0x1_0000_0000_0000_0000
  const HALF_WORD: nat := 0x8000_0000_0000_0000

  ghost predicate IsPow2(n: nat) {
    exists k: nat :: n == Pow2(k)
  }

  /** Bitwise `a & b`. */
  function And(a: nat, b: nat): nat {
    if a == 0 || b == 0 then 0
    else (if a % 2 == 1 && b % 2 == 1 then 1 else 0) + 2 * And(a / 2, b / 2)
  }

  /** Bitwise `a | b`. */
  function Or(a: nat, b: nat): nat {
    if a == 0 && b == 0 then 0
    else (if a % 2 == 1 || b % 2 == 1 then 1 else 0) + 2 * Or(a / 2, b / 2)
  }

  /** Bitwise `a & ~b`. */
  function AndNot(a: nat, b: nat): nat {
    if a == 0 then 0
    else (if a % 2 == 1 && b % 2 == 0 then 1 else 0) + 2 * AndNot(a / 2, b / 2)
  }

  /** Bit `k` of `x`. */
  predicate Bit(x: nat, k: nat)
    decreases k
  {
    if k == 0 then x % 2 == 1 else Bit(x / 2, k - 1)
  }

  // Each operation bit by bit: the lowest bit and the remaining ones.

  lemma AndHalf(a: nat, b: nat)
    ensures And(a, b) / 2 == And(a / 2, b / 2)
    ensures And(a, b) % 2 == if a % 2 == 1 && b % 2 == 1 then 1 else 0
  {
  }

  lemma OrHalf(a: nat, b: nat)
    ensures Or(a, b) / 2 == Or(a / 2, b / 2)
    ensures Or(a, b) % 2 == if a % 2 == 1 || b % 2 == 1 then 1 else 0
  {
  }

  lemma AndNotHalf(a: nat, b: nat)
    ensures AndNot(a, b) / 2 == AndNot(a / 2, b / 2)
    ensures AndNot(a, b) % 2 == if a % 2 == 1 && b % 2 == 0 then 1 else 0
  {
  }

  lemma AddHalf(e: nat, r: nat)
    ensures (2 * e + r) / 2 == e + r / 2 && (2 * e + r) % 2 == r % 2
  {
  }

  // ---------------------------------------------------------------- powers

  lemma {:induction false} Pow2Add(a: nat, b: nat)
    ensures Pow2(a + b) == Pow2(a) * Pow2(b)
  {
    if b == 0 {
      assert Pow2(0) == 1;
    } else {
      Pow2Add(a, b - 1);
      assert Pow2(a + b) == 2 * Pow2(a + b - 1);
      assert Pow2(a) * Pow2(b) == 2 * (Pow2(a) * Pow2(b - 1));
    }
  }

  lemma {:induction false} Pow2Monotone(a: nat, b: nat)
    requires a < b
    ensures Pow2(a) < Pow2(b)
    decreases b
  {
    if a < b - 1 { Pow2Monotone(a, b - 1); }
  }

  lemma Pow2At64()
    ensures Pow2(63) == HALF_WORD && Pow2(64) == WORD
  {
    assert Pow2(8) == 256;
    Pow2Add(8, 8);
    Pow2Add(16, 16);
    Pow2Add(32, 32);
    assert Pow2(64) == 2 * Pow2(63);
  }

  // ---------------------------------------------------------------- masks

  lemma AndIs(x: nat, m: nat, r: nat)
    requires And(x / 2, m / 2) == r / 2 && m % 2 == 1 && x % 2 == r % 2
    ensures And(x, m) == r
  {
    AndHalf(x, m);
  }

  lemma PredecessorHalf(h: nat)
    requires h > 0
    ensures (2 * h - 1) / 2 == h - 1 && (2 * h - 1) % 2 == 1
  {
  }

  lemma HalfBelow(r: nat, k: nat)
    requires k > 0 && r < Pow2(k)
    ensures r / 2 < Pow2(k - 1)
  {
  }

  /** `h << m`, on unbounded numbers. */
  function Shl(h: nat, m: nat): nat
    decreases m
  {
    if m == 0 then h else 2 * Shl(h, m - 1)
  }

  lemma {:induction false} ShlIs(h: nat, m: nat)
    ensures Shl(h, m) == h * Pow2(m)
    decreases m
  {
    if m > 0 {
      ShlIs(h, m - 1);
      Assoc(h, Pow2(m - 1));
    }
  }

  lemma {:induction false} AndLow(q: nat, r: nat, k: nat)
    requires r < Pow2(k)
    ensures And(Shl(q, k) + r, Pow2(k) - 1) == r
    decreases k
  {
    if k == 0 {
      AndZero(q);
    } else {
      HalfBelow(r, k);
      AndLow(q, r / 2, k - 1);
      AddHalf(Shl(q, k - 1), r);
      PredecessorHalf(Pow2(k - 1));
      AndIs(2 * Shl(q, k - 1) + r, 2 * Pow2(k - 1) - 1, r);
    }
  }

  /** Masking with 2^k - 1 keeps exactly the part below 2^k. */
  lemma AndMask(q: nat, r: nat, k: nat)
    requires r < Pow2(k)
    ensures And(q * Pow2(k) + r, Pow2(k) - 1) == r
  {
    ShlIs(q, k);
    AndLow(q, r, k);
  }

  lemma AndZero(a: nat)
    ensures And(a, 0) == 0 && And(0, a) == 0
  {
  }

  lemma DivMod(x: nat, p: nat)
    requires p > 0
    ensures x / p >= 0 && 0 <= x % p < p && (x / p) * p + x % p == x
  {
  }

  lemma AndMaskIsMod(x: nat, k: nat)
    ensures And(x, Pow2(k) - 1) == x % Pow2(k)
  {
    var p := Pow2(k);
    DivMod(x, p);
    AndMask(x / p, x % p, k);
  }

  /** The constructor test `cap < 2 || (cap & (cap - 1)) != 0` rejects exactly
      the capacities that are not a power of two of at least two. */
  predicate CapacityOk(cap: nat) {
    !(cap < 2 || And(cap, cap - 1) != 0)
  }

  lemma {:induction false} AndPredecessor(n: nat)
    requires n > 0
    ensures And(n, n - 1) == 0 <==> IsPow2(n)
  {
    AndHalf(n, n - 1);
    if n == 1 {
      assert n == Pow2(0);
    } else if n % 2 == 0 {
      AndPredecessor(n / 2);
      EvenPow2(n);
    } else {
      AndSelf(n / 2);
      OddPow2(n);
    }
  }

  lemma EvenPow2(n: nat)
    requires n > 0 && n % 2 == 0
    ensures IsPow2(n) <==> IsPow2(n / 2)
  {
    if IsPow2(n / 2) {
      var k: nat :| n / 2 == Pow2(k);
      assert n == Pow2(k + 1);
    }
    forall k: nat | n == Pow2(k) ensures IsPow2(n / 2) {
      assert k > 0 && n / 2 == Pow2(k - 1);
    }
  }

  lemma OddPow2(n: nat)
    requires n > 1 && n % 2 == 1
    ensures !IsPow2(n)
  {
    forall k: nat ensures Pow2(k) != n {
      if k > 0 { assert Pow2(k) == 2 * Pow2(k - 1); }
    }
  }

  lemma {:induction false} AndSelf(n: nat)
    ensures And(n, n) == n
  {
    AndHalf(n, n);
    if n > 0 { AndSelf(n / 2); }
  }

  lemma CapacityOkIffPow2(cap: nat)
    ensures CapacityOk(cap) <==> cap >= 2 && IsPow2(cap)
  {
    if cap >= 2 { AndPredecessor(cap); }
  }

  /** In an accepted ring, `(i + 1) & mask` is the cyclic successor. */
  lemma MaskedSuccessor(cap: nat, i: nat)
    requires CapacityOk(cap) && i < cap
    ensures And(i + 1, cap - 1) == if i + 1 == cap then 0 else i + 1
  {
    CapacityOkIffPow2(cap);
    var k: nat :| cap == Pow2(k);
    if i + 1 == cap { AndMask(1, 0, k); } else { AndMask(0, i + 1, k); }
  }

  // ---------------------------------------------------------------- single bits

  lemma {:induction false} BitOfOr(a: nat, b: nat, k: nat)
    ensures Bit(Or(a, b), k) <==> Bit(a, k) || Bit(b, k)
    decreases k
  {
    OrHalf(a, b);
    if k > 0 { BitOfOr(a / 2, b / 2, k - 1); }
  }

  lemma {:induction false} BitOfAndNot(a: nat, b: nat, k: nat)
    ensures Bit(AndNot(a, b), k) <==> Bit(a, k) && !Bit(b, k)
    decreases k
  {
    AndNotHalf(a, b);
    if k > 0 { BitOfAndNot(a / 2, b / 2, k - 1); }
  }

  lemma {:induction false} BitOfZero(k: nat)
    ensures !Bit(0, k)
  {
    if k > 0 { BitOfZero(k - 1); }
  }

  lemma {:induction false} BitOfPow2(j: nat, k: nat)
    ensures Bit(Pow2(j), k) <==> j == k
    decreases k
  {
    if k == 0 {
      if j > 0 { assert Pow2(j) == 2 * Pow2(j - 1); }
    } else if j == 0 {
      BitOfZero(k - 1);
    } else {
      BitOfPow2(j - 1, k - 1);
    }
  }

  /** `x & (1 << k)` tests bit k. */
  lemma {:induction false} AndPow2(x: nat, k: nat)
    ensures And(x, Pow2(k)) != 0 <==> Bit(x, k)
    decreases k
  {
    AndHalf(x, Pow2(k));
    if k == 0 {
      AndZero(x / 2);
    } else {
      AddHalf(Pow2(k - 1), 0);
      AndPow2(x / 2, k - 1);
    }
  }

  /** Two numbers below 2^n with the same n low bits are equal. */
  lemma {:induction false} SameBits(a: nat, b: nat, n: nat)
    requires a < Pow2(n) && b < Pow2(n)
    requires forall k: nat :: k < n ==> (Bit(a, k) <==> Bit(b, k))
    ensures a == b
  {
    if n > 0 {
      forall k: nat | k < n - 1 ensures Bit(a / 2, k) <==> Bit(b / 2, k) {
        assert Bit(a, k + 1) <==> Bit(b, k + 1);
      }
      SameBits(a / 2, b / 2, n - 1);
      assert Bit(a, 0) <==> Bit(b, 0);
    }
  }

  // ---------------------------------------------------------------- next_pow2

  /** `p` is the least power of two that is at least 2 and at least `v`. */
  ghost predicate LeastPow2(v: nat, p: nat) {
    && IsPow2(p) && 2 <= p && v <= p
    && forall q: nat :: IsPow2(q) && 2 <= q && v <= q ==> p <= q
  }

  lemma LeastPow2FromHalf(v: nat, k: nat)
    requires Pow2(k) < v <= Pow2(k + 1)
    ensures LeastPow2(v, Pow2(k + 1))
  {
    forall q: nat | IsPow2(q) && 2 <= q && v <= q ensures Pow2(k + 1) <= q {
      var j: nat :| q == Pow2(j);
      if j < k { Pow2Monotone(j, k); }
      if k + 1 < j { Pow2Monotone(k + 1, j); }
    }
  }

  lemma LeastPow2Small(v: nat)
    requires v <= 2
    ensures LeastPow2(v, 2)
  {
    assert Pow2(1) == 2;
  }

  /** One iteration of the loop on a 64-bit word: `p <<= 1`. */
  function ShiftLeft1(p: nat): nat { (2 * p) % WORD }

  method NextPow2Loop(v: nat) returns (p: nat)
    requires v <= HALF_WORD
    ensures LeastPow2(v, p)
  {
    Pow2At64();
    if v < 2 {
      LeastPow2Small(v);
      return 2;
    }
    p := 1;
    ghost var k: nat := 0;
    while p < v
      invariant p == Pow2(k) && k <= 63
      invariant k > 0 ==> Pow2(k - 1) < v
      decreases 63 - k
    {
      if k == 63 { assert false; }
      Pow2Monotone(k, 64);
      if k < 62 { Pow2Monotone(k + 1, 63); }
      p := ShiftLeft1(p);
      k := k + 1;
    }
    LeastPow2FromHalf(v, k - 1);
  }

  /** The value of `p` after `n` iterations, were the loop never to stop. */
  function LoopValue(n: nat): nat {
    if n == 0 then 1 else ShiftLeft1(LoopValue(n - 1))
  }

  lemma {:induction false} LoopValueIs(n: nat)
    ensures LoopValue(n) == if n < 64 then Pow2(n) else 0
  {
    if n > 0 {
      LoopValueIs(n - 1);
      ShiftValue(n);
    }
  }

  lemma ShiftValue(n: nat)
    requires n > 0
    ensures n < 64 ==> ShiftLeft1(Pow2(n - 1)) == Pow2(n)
    ensures ShiftLeft1(HALF_WORD) == 0 && ShiftLeft1(0) == 0 && Pow2(63) == HALF_WORD
  {
    Pow2At64();
    if n < 64 {
      Pow2Monotone(n, 64);
      SmallMod(2 * Pow2(n - 1), WORD);
    }
  }

  lemma SmallMod(x: nat, w: nat)
    requires x < w
    ensures x % w == x
  {
  }

  /** The doubling loop terminates on a 64-bit word exactly when v <= 2^63:
      beyond that the shifted bit falls off the word and `p` stays 0. */
  lemma LoopTerminatesIff(v: nat)
    requires v < WORD
    ensures (exists n: nat :: LoopValue(n) >= v) <==> v <= HALF_WORD
  {
    Pow2At64();
    LoopValueIs(63);
    forall n: nat ensures LoopValue(n) <= HALF_WORD {
      LoopValueIs(n);
      if n < 63 { Pow2Monotone(n, 63); }
    }
  }

  /** One above 2^63, for instance, the loop never ends. */
  lemma EndlessLoopExample()
    ensures forall n: nat :: LoopValue(n) < HALF_WORD + 1
  {
    LoopTerminatesIff(HALF_WORD + 1);
  }

  // The bit-smearing form.  `TopBits(x, k, s)` says that x has exactly k bits
  // and that its s leading bits are ones (all of them, when s >= k).

  ghost predicate TopBits(x: nat, k: nat, s: nat) {
    Pow2(k) - Pow2(if s < k then k - s else 0) <= x < Pow2(k)
  }

  lemma {:induction false} OrAtLeast(a: nat, b: nat)
    ensures Or(a, b) >= a && Or(a, b) >= b
  {
    OrHalf(a, b);
    if a != 0 || b != 0 { OrAtLeast(a / 2, b / 2); }
  }

  lemma {:induction false} OrBelow(a: nat, b: nat, k: nat)
    requires a < Pow2(k) && b < Pow2(k)
    ensures Or(a, b) < Pow2(k)
    decreases k
  {
    OrHalf(a, b);
    if k > 0 { OrBelow(a / 2, b / 2, k - 1); }
  }

  lemma OrIs(x: nat, b: nat, r: nat)
    requires Or(x / 2, b / 2) == r / 2 && r % 2 == if x % 2 == 1 || b % 2 == 1 then 1 else 0
    ensures Or(x, b) == r
  {
    OrHalf(x, b);
  }

  lemma OrStep(e: nat, l: nat, b: nat)
    requires Or(e + l / 2, b / 2) == e + Or(l / 2, b / 2)
    ensures Or(2 * e + l, b) == 2 * e + Or(l, b)
  {
    OrHalf(l, b);
    AddHalf(e, l);
    AddHalf(e, Or(l, b));
    OrIs(2 * e + l, b, 2 * e + Or(l, b));
  }

  lemma {:induction false} OrLow(h: nat, l: nat, b: nat, m: nat)
    requires l < Pow2(m) && b < Pow2(m)
    ensures Or(Shl(h, m) + l, b) == Shl(h, m) + Or(l, b)
    decreases m
  {
    if m > 0 {
      HalfBelow(l, m);
      HalfBelow(b, m);
      OrLow(h, l / 2, b / 2, m - 1);
      OrStep(Shl(h, m - 1), l, b);
    } else {
      OrZero(h);
    }
  }

  /** Or-ing a number below 2^m leaves the bits from m up alone. */
  lemma OrKeepsHigh(h: nat, l: nat, b: nat, m: nat)
    requires l < Pow2(m) && b < Pow2(m)
    ensures Or(h * Pow2(m) + l, b) == h * Pow2(m) + Or(l, b)
  {
    ShlIs(h, m);
    OrLow(h, l, b, m);
  }

  lemma {:induction false} OrZero(a: nat)
    ensures Or(a, 0) == a
  {
    OrHalf(a, 0);
    if a > 0 { OrZero(a / 2); }
  }

  /** `x >> s`. */
  function Shr(x: nat, s: nat): nat
    decreases s
  {
    if s == 0 then x else Shr(x / 2, s - 1)
  }

  lemma Assoc(y: nat, p: nat)
    ensures y * (2 * p) == 2 * (y * p)
  {
  }

  lemma {:induction false} ShrBounds(x: nat, s: nat)
    ensures Shr(x, s) * Pow2(s) <= x < (Shr(x, s) + 1) * Pow2(s)
    decreases s
  {
    if s > 0 {
      ShrBounds(x / 2, s - 1);
      var y, p := Shr(x, s), Pow2(s - 1);
      Assoc(y, p);
      Assoc(y + 1, p);
    }
  }

  lemma MulMonotone(a: int, b: int, c: nat)
    requires a <= b
    ensures a * c <= b * c
  {
  }

  lemma MulLess(a: int, b: int, c: nat)
    requires a * c < b * c
    ensures a < b
  {
    if a >= b {
      MulMonotone(b, a, c);
      assert false;
    }
  }

  lemma SubMul(a: int, b: int, c: nat)
    ensures (a - b) * c == a * c - b * c
  {
  }

  lemma LeadingOnesShifted(m: nat, s: nat)
    ensures Pow2(if s < m then m - s else 0) * Pow2(s) >= Pow2(m)
  {
    if s < m {
      Pow2Add(m - s, s);
    } else if m < s {
      Pow2Monotone(m, s);
    }
  }

  /** `x >> s` of a number with s leading ones: either all of the remaining
      k - s bits are ones, or the s leading ones of them are. */
  lemma ShrTopBits(x: nat, k: nat, s: nat)
    requires TopBits(x, k, s) && 0 < s < k
    ensures TopBits(Shr(x, s), k - s, s)
  {
    var m := k - s;
    ShrBounds(x, s);
    Pow2Add(m, s);
    LeadingOnesShifted(m, s);
    ShrBetween(x, Shr(x, s), Pow2(s), Pow2(m), Pow2(if s < m then m - s else 0));
  }

  lemma ShrBetween(x: nat, b: nat, p: nat, top: nat, low: nat)
    requires b * p <= x < (b + 1) * p
    requires top * p - top <= x < top * p && low * p >= top
    ensures top - low <= b < top
  {
    MulLess(b, top, p);
    SubMul(top, low, p);
    MulLess(top - low, b + 1, p);
  }

  lemma Distribute(a: nat, b: nat)
    requires a > 0
    ensures (a - 1) * b == a * b - b
  {
  }

  /** One smearing step `v |= v >> s` doubles the number of leading ones. */
  lemma SmearStep(x: nat, k: nat, s: nat)
    requires TopBits(x, k, s) && s > 0
    ensures TopBits(Or(x, Shr(x, s)), k, 2 * s)
  {
    if s >= k {
      ShrBelow(x, s);
      OrBelow(x, Shr(x, s), k);
      OrAtLeast(x, Shr(x, s));
    } else {
      ShrTopBits(x, k, s);
      SmearHigh(x, k, s, Shr(x, s));
    }
  }

  lemma ShrBelow(x: nat, s: nat)
    ensures Shr(x, s) <= x
  {
    ShrBounds(x, s);
    MulMonotone(1, Pow2(s), Shr(x, s));
  }

  lemma SmearHigh(x: nat, k: nat, s: nat, b: nat)
    requires 0 < s < k && TopBits(x, k, s) && TopBits(b, k - s, s)
    ensures TopBits(Or(x, b), k, 2 * s)
  {
    var m := k - s;
    var l := x - (Pow2(k) - Pow2(m));
    Pow2Add(s, m);
    Distribute(Pow2(s), Pow2(m));
    OrKeepsHigh(Pow2(s) - 1, l, b, m);
    OrBelow(l, b, m);
    OrAtLeast(l, b);
  }

  lemma {:induction false} BitLength(x: nat) returns (k: nat)
    requires x > 0
    ensures k > 0 && TopBits(x, k, 1) && Pow2(k - 1) <= x < Pow2(k)
  {
    if x == 1 {
      k := 1;
    } else {
      k := BitLength(x / 2);
      k := k + 1;
      assert Pow2(k - 1) == 2 * Pow2(k - 2);
    }
  }

  /** `v |= v >> s` */
  method SmearBy(v: nat, s: nat, ghost k: nat) returns (r: nat)
    requires TopBits(v, k, s) && s > 0
    ensures TopBits(r, k, 2 * s)
  {
    SmearStep(v, k, s);
    r := Or(v, Shr(v, s));
  }

  method NextPow2Smear(v0: nat) returns (p: nat)
    requires v0 < WORD
    ensures v0 <= HALF_WORD ==> LeastPow2(v0, p)
    ensures v0 > HALF_WORD ==> p == 0
  {
    if v0 < 2 {
      LeastPow2Small(v0);
      return 2;
    }
    var v := v0 - 1;
    ghost var k := BitLength(v);
    v := SmearBy(v, 1, k);
    v := SmearBy(v, 2, k);
    v := SmearBy(v, 4, k);
    v := SmearBy(v, 8, k);
    v := SmearBy(v, 16, k);
    v := SmearBy(v, 32, k);
    SmearWraps(v0, v, k);
    p := (v + 1) % WORD;
  }

  lemma SmearWraps(v0: nat, v: nat, k: nat)
    requires 2 <= v0 < WORD && k > 0 && Pow2(k - 1) <= v0 - 1 < Pow2(k)
    requires TopBits(v, k, 64)
    ensures v0 <= HALF_WORD ==> LeastPow2(v0, (v + 1) % WORD)
    ensures v0 > HALF_WORD ==> (v + 1) % WORD == 0
  {
    SmearResult(v0, v, k);
    if v0 <= HALF_WORD { SmallMod(v + 1, WORD); }
  }

  lemma SmearResult(v0: nat, v: nat, k: nat)
    requires 2 <= v0 < WORD && k > 0 && Pow2(k - 1) <= v0 - 1 < Pow2(k)
    requires TopBits(v, k, 64)
    ensures v + 1 == Pow2(k)
    ensures v0 <= HALF_WORD ==> v + 1 < WORD && LeastPow2(v0, v + 1)
    ensures v0 > HALF_WORD ==> v + 1 == WORD
  {
    Pow2At64();
    if k > 64 { Pow2Monotone(64, k); if k > 65 { Pow2Monotone(64, k - 1); } }
    assert k <= 64;
    LeastPow2FromHalf(v0, k - 1);
    if v0 <= HALF_WORD {
      if k == 64 { assert false; }
      Pow2Monotone(k, 64);
    } else if k < 64 {
      if k < 63 { Pow2Monotone(k, 63); }
      assert false;
    }
  }

  /** Both forms compute the same capacity on every argument on which the loop
      terminates, and the ring's constructor accepts it. */
  lemma NextPow2FormsAgree(v: nat, loop: nat, smear: nat)
    requires LeastPow2(v, loop) && LeastPow2(v, smear)
    ensures loop == smear && CapacityOk(loop)
  {
    CapacityOkIffPow2(loop);
  }

  /** The ring built for `max` queued items still holds `max` of them although
      one slot stays empty, and never more than twice that. */
  lemma QueueRoom(max: nat, cap: nat)
    requires LeastPow2(max + 1, cap)
    ensures cap - 1 >= max
    ensures max >= 1 ==> cap <= 2 * max
  {
    if max >= 1 {
      var k: nat :| cap == Pow2(k);
      if k == 0 {
        assert false;
      } else if k > 1 {
        assert IsPow2(Pow2(k - 1));
        assert Pow2(k - 1) == 2 * Pow2(k - 2);
      }
    }
  }

  /** The feed's inbox rounds the configured capacity itself, without the extra
      slot: it holds that many envelopes exactly when the capacity is not
      already a power of two of at least two. */
  lemma InboxRoomIff(capacity: nat, cap: nat)
    requires LeastPow2(capacity, cap)
    ensures cap - 1 >= capacity <==> !(capacity >= 2 && IsPow2(capacity))
  {
    if capacity >= 2 && IsPow2(capacity) {
      assert cap <= capacity;
    }
  }

  /** So the default capacity of the feed's inbox, 8192, is one too many. */
  lemma DefaultInboxExample()
    ensures LeastPow2(8192, 8192) && 8192 - 1 < 8192
    ensures forall cap: nat :: LeastPow2(8192, cap) ==> cap == 8192
  {
    assert Pow2(8) == 256 && Pow2(5) == 32;
    Pow2Add(8, 5);
    assert IsPow2(8192);
  }
}

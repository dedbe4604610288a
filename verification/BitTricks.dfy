/**
 The bit arithmetic of the queue on 64-bit unsigned words, written as naturals with the
 wrap-around explicit: rounding up to a power of two by smearing the top bit, and index
 arithmetic by masking.
 */
module BitTricks {

  function Pow2(k: nat): (p: nat)
    ensures 1 <= p
  {
    if k == 0 then 1 else 2 * Pow2(k - 1)
  }

  ghost predicate IsPow2(n: nat) {
    exists k: nat :: n == Pow2(k)
  }

  /** The number of values of a 64-bit word. */
  const WORD: nat := 0x1_0000_0000_0000_0000

  function BitOr(a: nat, b: nat): nat {
    if a == 0 && b == 0 then 0
    else 2 * BitOr(a / 2, b / 2) + (if a % 2 == 1 || b % 2 == 1 then 1 else 0)
  }

  function BitAnd(a: nat, b: nat): nat {
    if a == 0 || b == 0 then 0
    else 2 * BitAnd(a / 2, b / 2) + (if a % 2 == 1 && b % 2 == 1 then 1 else 0)
  }

  function Quotient(y: nat, d: nat): nat
    requires 0 < d
  {
    y / d
  }

  function ShiftRight(y: nat, n: nat): nat {
    Quotient(y, Pow2(n))
  }

  /** `x + d` on 64-bit words, for d from -WORD to WORD. */
  function Add64(x: nat, d: int): (r: nat)
    requires x < WORD && 0 <= d + WORD && d <= WORD
    ensures r == if x + d < 0 then x + d + WORD else if WORD <= x + d then x + d - WORD else x + d
  {
    (x + d + WORD) % WORD
  }

  // ----- powers of two

  lemma {:induction false} Pow2Add(a: nat, b: nat)
    ensures Pow2(a + b) == Pow2(a) * Pow2(b)
  {
    if a != 0 {
      Pow2Add(a - 1, b);
      var p, q := Pow2(a - 1), Pow2(b);
      assert 2 * (p * q) == (2 * p) * q;
    }
  }

  lemma {:induction false} Pow2Less(a: nat, b: nat)
    requires a < b
    ensures 2 * Pow2(a) <= Pow2(b)
  {
    if a + 1 < b {
      Pow2Less(a, b - 1);
    }
  }

  /** The bit length k of m: Pow2(k - 1) <= m < Pow2(k). */
  function BitLength(m: nat): (k: nat)
    ensures m < Pow2(k)
    ensures k == 0 <==> m == 0
    ensures 0 < k ==> Pow2(k - 1) <= m
  {
    if m == 0 then 0 else 1 + BitLength(m / 2)
  }

  // ----- smearing

  lemma {:induction false} OrZero(h: nat)
    ensures BitOr(h, 0) == h
  {
    if h != 0 {
      OrZero(h / 2);
    }
  }

  /** An operand below bit j does not reach the bits from j up, and is not lost. */
  lemma {:induction false} OrLow(j: nat, h: nat, a: nat, b: nat)
    requires a < Pow2(j) && b < Pow2(j)
    ensures h * Pow2(j) + b <= BitOr(h * Pow2(j) + a, b) < h * Pow2(j) + Pow2(j)
  {
    if j == 0 {
      OrZero(h);
    } else {
      var q := h * Pow2(j - 1);
      assert h * Pow2(j) == 2 * q;
      assert (2 * q + a) / 2 == q + a / 2 && (2 * q + a) % 2 == a % 2;
      OrLow(j - 1, h, a / 2, b / 2);
    }
  }

  /** The top w bits of the k-bit number y are ones. */
  ghost predicate Smeared(k: nat, y: nat, w: nat) {
    y < Pow2(k) && Pow2(k) <= y + Pow2(if w < k then k - w else 0)
  }

  lemma MulMono(a: nat, b: nat, d: nat)
    requires a <= b
    ensures a * d <= b * d
  {
  }

  lemma MulStep(m: nat, n: nat)
    ensures m * (n + 1) == m * n + m
  {
  }

  lemma DivBounds(n: nat, d: nat, q: nat)
    requires 0 < d
    ensures n < q * d ==> n / d < q
    ensures q * d <= n ==> q <= n / d
  {
    var r := n / d;
    assert n == r * d + n % d;
    if q <= r {
      MulMono(q, r, d);
    } else {
      MulMono(r + 1, q, d);
      assert (r + 1) * d == r * d + d;
    }
  }

  lemma DivModUnique(x: nat, n: nat, q: nat, r: nat)
    requires 0 < n && x == q * n + r && r < n
    ensures x / n == q && x % n == r
  {
    assert (q + 1) * n == q * n + n;
    DivBounds(x, n, q);
    DivBounds(x, n, q + 1);
  }

  /** The arithmetic of one step: pw = 2^w, pj = 2^j for the j bits not smeared yet, and pd the
      bound for those that are still not after the step. */
  lemma SmearArith(y: nat, pw: nat, pj: nat, pd: nat)
    requires 0 < pw && 0 < pj && pd <= pj
    requires pw * pj - pj <= y < pw * pj
    requires pj == pw * pd || (pd == 1 && pj <= pw)
    ensures (pw - 1) * pj == pw * pj - pj
    ensures pj - pd <= Quotient(y, pw) < pj
  {
    assert pj * pw == pw * pj;
    DivBounds(y, pw, pj);
    assert (pj - pd) * pw == pj * pw - pd * pw;
    DivBounds(y, pw, pj - pd);
  }

  lemma SmearDone(k: nat, y: nat, w: nat)
    requires Smeared(k, y, w) && k <= w
    ensures Smeared(k, BitOr(y, ShiftRight(y, w)), 2 * w)
  {
    hide Pow2, BitOr;
    if k < w { Pow2Less(k, w); }
    DivBounds(y, Pow2(w), 1);
    OrZero(y);
  }

  lemma SmearMore(k: nat, y: nat, w: nat)
    requires Smeared(k, y, w) && 0 < w < k
    ensures var pd := Pow2(if 2 * w < k then k - 2 * w else 0);
      Pow2(k) - pd <= BitOr(y, ShiftRight(y, w)) < Pow2(k)
  {
    hide Pow2, BitOr, Quotient;
    var j, pw, pj := k - w, Pow2(w), Pow2(k - w);
    var pd := Pow2(if w < j then j - w else 0);
    Pow2Add(w, j);
    assert Pow2(0) == 1 by { SmallPow2(); }
    if w < j {
      Pow2Add(w, j - w);
    } else if j < w {
      Pow2Less(j, w);
    }
    SmearArith(y, pw, pj, pd);
    var hi, q := (pw - 1) * pj, Quotient(y, pw);
    assert hi == Pow2(k) - pj;
    OrLow(j, pw - 1, y - hi, q);
    assert (pw - 1) * Pow2(j) == hi && hi + (y - hi) == y;
  }

  /** One smearing step doubles the number of leading ones. */
  lemma SmearStep(k: nat, y: nat, w: nat)
    requires Smeared(k, y, w) && 0 < w
    ensures Smeared(k, BitOr(y, ShiftRight(y, w)), 2 * w)
  {
    hide Pow2, BitOr;
    if k <= w {
      SmearDone(k, y, w);
    } else {
      SmearMore(k, y, w);
    }
  }

  lemma SmallPow2()
    ensures Pow2(0) == 1 && Pow2(1) == 2 && Pow2(2) == 4 && Pow2(4) == 16
    ensures 2 * Pow2(63) == Pow2(64) == WORD
  {
    assert Pow2(3) == 8;
    assert Pow2(4) == 16;
    Pow2Add(4, 4);
    Pow2Add(8, 8);
    Pow2Add(16, 16);
    Pow2Add(32, 32);
  }

  /** Where rounding up ends: x - 1 has k bits. */
  lemma LeastPow2(x: nat, k: nat)
    requires 1 <= x && k == BitLength(x - 1)
    ensures x <= Pow2(k) && forall e: nat :: x <= Pow2(e) ==> Pow2(k) <= Pow2(e)
  {
    hide Pow2, BitLength;
    SmallPow2();
    forall e: nat | x <= Pow2(e)
      ensures Pow2(k) <= Pow2(e)
    {
      if k < e {
        Pow2Less(k, e);
      } else if e + 1 < k {
        Pow2Less(e, k - 1);
      }
    }
  }

  lemma BitLengthBound(m: nat, n: nat)
    requires m < Pow2(n)
    ensures BitLength(m) <= n
  {
    hide Pow2;
    if n + 1 < BitLength(m) {
      Pow2Less(n, BitLength(m) - 1);
    }
  }

  lemma SmearStart(m: nat)
    ensures Smeared(BitLength(m), m, 1)
  {
    hide BitLength;
  }

  /** Adding one to a fully smeared word. */
  lemma SmearEnd(x: nat, m: nat, y: nat)
    requires x < WORD && m == (if x == 0 then WORD - 1 else x - 1) && Smeared(BitLength(m), y, 64)
    ensures y < WORD
    ensures 1 <= x <= Pow2(63) ==> y + 1 == Pow2(BitLength(m)) <= Pow2(63)
    ensures x == 0 || Pow2(63) < x ==> y + 1 == WORD
  {
    hide Pow2, BitLength;
    SmallPow2();
    var k := BitLength(m);
    BitLengthBound(m, 64);
    if 1 <= x <= Pow2(63) {
      BitLengthBound(m, 63);
    }
    if k < 63 { Pow2Less(k, 63); }
  }

  /** `ceilToPow2`: the least power of two that is at least x.  Outside 1 .. 2^63 the result
      does not fit and the code returns 0. */
  method CeilToPow2(x: nat) returns (r: nat)
    requires x < WORD
    ensures 1 <= x <= Pow2(63) ==> IsPow2(r) && x <= r <= Pow2(63)
    ensures 1 <= x <= Pow2(63) ==> forall e: nat :: x <= Pow2(e) ==> r <= Pow2(e)
    ensures x == 0 || Pow2(63) < x ==> r == 0
  {
    hide Pow2, BitOr, BitLength, Smeared, ShiftRight, Add64;
    SmallPow2();
    var y := Add64(x, -1);
    ghost var m := y;
    ghost var k := BitLength(m);
    SmearStart(m);
    SmearStep(k, y, 1);
    y := BitOr(y, ShiftRight(y, 1));
    SmearStep(k, y, 2);
    y := BitOr(y, ShiftRight(y, 2));
    SmearStep(k, y, 4);
    y := BitOr(y, ShiftRight(y, 4));
    var i: nat := 1;
    while i < 8
      invariant i == 1 || i == 2 || i == 4 || i == 8
      invariant Smeared(k, y, 8 * i)
    {
      SmearStep(k, y, 8 * i);
      y := BitOr(y, ShiftRight(y, 8 * i));
      i := 2 * i;
    }
    SmearEnd(x, m, y);
    r := Add64(y, 1);
    if 1 <= x <= Pow2(63) {
      LeastPow2(x, k);
    }
  }

  // ----- masking

  lemma ModDouble(x: nat, p: nat)
    requires 0 < p
    ensures x % (2 * p) == 2 * ((x / 2) % p) + x % 2
  {
    var q, s := (x / 2) / p, (x / 2) % p;
    assert x / 2 == q * p + s;
    assert q * (2 * p) == 2 * (q * p);
    DivModUnique(x, 2 * p, q, 2 * s + x % 2);
  }

  lemma AndStep(a: nat, b: nat)
    requires b % 2 == 1
    ensures BitAnd(a, b) == 2 * BitAnd(a / 2, b / 2) + a % 2
  {
  }

  /** Masking with 2^k - 1 is the remainder modulo 2^k. */
  lemma {:induction false} MaskIsMod(x: nat, k: nat)
    ensures BitAnd(x, Pow2(k) - 1) == x % Pow2(k)
  {
    if k != 0 {
      var p := Pow2(k - 1);
      assert Pow2(k) == 2 * p;
      hide BitAnd, Pow2;
      MaskIsMod(x / 2, k - 1);
      ModDouble(x, p);
      assert (2 * p - 1) / 2 == p - 1 && (2 * p - 1) % 2 == 1;
      AndStep(x, 2 * p - 1);
    }
  }

  lemma ModSmall(x: nat, n: nat)
    requires x < n
    ensures x % n == x
  {
  }

  /** `(i + 1) & sizeMask` steps to the next index of a block whose size is a power of two. */
  lemma MaskIncrements(i: nat, n: nat)
    requires IsPow2(n) && i < n
    ensures BitAnd(i + 1, n - 1) == if i + 1 == n then 0 else i + 1
  {
    hide Pow2, BitAnd;
    var k: nat :| n == Pow2(k);
    MaskIsMod(i + 1, k);
    if i + 1 < n {
      ModSmall(i + 1, n);
    }
  }

  /** `(tail - front) & sizeMask`, with the subtraction wrapping around, counts the elements
      between two indices of a block whose size is a power of two of at most 64 bits. */
  lemma MaskCounts(front: nat, tail: nat, n: nat)
    requires IsPow2(n) && n <= WORD && front < n && tail < n
    ensures BitAnd(Add64(tail, 0 - front), n - 1)
         == if front <= tail then tail - front else tail + n - front
  {
    hide Pow2, BitAnd, Add64;
    SmallPow2();
    var k: nat :| n == Pow2(k);
    MaskIsMod(Add64(tail, 0 - front), k);
    if front <= tail {
      ModSmall(tail - front, n);
    } else {
      if 64 < k { Pow2Less(64, k); }
      Pow2Add(64 - k, k);
      var c := Pow2(64 - k);
      assert (c - 1) * n == c * n - n;
      DivModUnique(tail + WORD - front, n, c - 1, tail + n - front);
    }
  }
}

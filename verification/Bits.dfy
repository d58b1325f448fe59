/** Fixed-width unsigned arithmetic as the queues use it: bit masks that pick a slot,
    subtraction that wraps, and the signed difference of two unsigned counters. */
module Bits {

  function Pow2(n: nat): (r: nat)
    ensures r >= 1
  {
    if n == 0 then 1 else 2 * Pow2(n - 1)
  }

  /** Bitwise and of two naturals. */
  function And(a: nat, b: nat): nat {
    if a == 0 || b == 0 then 0
    else 2 * And(a / 2, b / 2) + (if a % 2 == 1 && b % 2 == 1 then 1 else 0)
  }

  /** The value a `bits`-wide unsigned integer holds after a computation whose true result is x. */
  function Wrap(x: int, bits: nat): nat {
    x % Pow2(bits)
  }

  /** The condition of the static_assert, on `bits`-wide unsigned operands. */
  predicate PassesAssert(cap: nat, bits: nat) {
    And(cap, Wrap(cap - 1, bits)) == 0
  }

  lemma {:induction false} AndSelf(a: nat)
    ensures And(a, a) == a
  {
    if a != 0 { AndSelf(a / 2); }
  }

  lemma {:induction false} AndComm(a: nat, b: nat)
    ensures And(a, b) == And(b, a)
  {
    if a != 0 && b != 0 { AndComm(a / 2, b / 2); }
  }

  /** x mod 2c from x/2 mod c. */
  lemma {:induction false} HalveMod(x: nat, c: nat)
    requires c >= 1
    ensures x % (2 * c) == 2 * ((x / 2) % c) + x % 2
  {
    var q, r := (x / 2) / c, (x / 2) % c;
    assert x / 2 == c * q + r;
    assert x == (2 * c) * q + (2 * r + x % 2) by {
      assert 2 * (c * q) == (2 * c) * q;
    }
    ModUnique(x, 2 * c, q, 2 * r + x % 2);
  }

  lemma {:induction false} ModUnique(x: int, c: nat, q: int, r: int)
    requires c >= 1 && 0 <= r < c && x == c * q + r
    ensures x % c == r
  {
    var q', r' := x / c, x % c;
    assert x == c * q' + r';
    assert c * (q - q') == r' - r;
    MultipleBound(c, q - q');
  }

  lemma {:induction false} MultipleBound(c: nat, d: int)
    ensures d >= 1 ==> c * d >= c
    ensures d <= 0 ==> c * d <= 0
    ensures d <= -1 ==> c * d + c <= 0
  {
    if d >= 1 { assert c * d == c + c * (d - 1); }
    if d <= -1 { assert c * d + c == c * (d + 1); }
  }

  lemma {:induction false} Distribute(c: int, a: int, b: int)
    ensures c * (a + b) == c * a + c * b
    ensures c * (a - b) == c * a - c * b
  {
  }

  /** A capacity that passes the assertion turns the mask into a remainder. */
  lemma {:induction false} MaskIsMod(x: nat, c: nat)
    requires c >= 1 && And(c, c - 1) == 0
    ensures And(x, c - 1) == x % c
    decreases c
  {
    if c == 1 {
    } else if c % 2 == 1 {
      assert (c - 1) / 2 == c / 2;
      AndSelf(c / 2);
      assert false;
    } else {
      var d := c / 2;
      assert (c - 1) / 2 == d - 1;
      MaskIsMod(x / 2, d);
      HalveMod(x, d);
      assert c == 2 * d;
      if x != 0 && d - 1 != 0 {
        assert And(x, c - 1) == 2 * And(x / 2, d - 1) + x % 2;
      } else if x != 0 {
        assert And(x, 1) == 2 * And(x / 2, 0) + x % 2;
      }
    }
  }

  /** The assertion admits exactly zero and the powers of two. */
  lemma {:induction false} AssertAdmits(cap: nat, bits: nat)
    requires cap < Pow2(bits)
    ensures PassesAssert(cap, bits) <==> cap == 0 || exists k: nat :: k < bits && cap == Pow2(k)
  {
    if cap == 0 {
    } else {
      WrapSmall(cap - 1, bits);
      if And(cap, cap - 1) == 0 {
        var k := LogOf(cap);
        if k >= bits { Pow2Mono(bits, k); }
      }
      if exists k: nat :: k < bits && cap == Pow2(k) {
        var k: nat :| k < bits && cap == Pow2(k);
        Pow2Passes(k);
      }
    }
  }

  lemma {:induction false} LogOf(c: nat) returns (k: nat)
    requires c >= 1 && And(c, c - 1) == 0
    ensures c == Pow2(k)
  {
    if c == 1 { return 0; }
    if c % 2 == 1 {
      assert (c - 1) / 2 == c / 2;
      AndSelf(c / 2);
      assert false;
    }
    assert (c - 1) / 2 == c / 2 - 1;
    var j := LogOf(c / 2);
    k := j + 1;
  }

  lemma {:induction false} Pow2Passes(k: nat)
    ensures And(Pow2(k), Pow2(k) - 1) == 0
  {
    if k > 0 {
      var d := Pow2(k - 1);
      assert (Pow2(k) - 1) / 2 == d - 1;
      Pow2Passes(k - 1);
    }
  }

  lemma {:induction false} Pow2Mono(i: nat, j: nat)
    requires i <= j
    ensures Pow2(i) <= Pow2(j)
  {
    if i < j { Pow2Mono(i, j - 1); }
  }

  lemma {:induction false} WrapSmall(x: int, bits: nat)
    requires 0 <= x < Pow2(bits)
    ensures Wrap(x, bits) == x
  {
    ModUnique(x, Pow2(bits), 0, x);
  }

  /** Taking a remainder by a multiple first changes nothing. */
  lemma {:induction false} ModOfMod(x: int, c: nat, m: nat)
    requires c >= 1 && m >= 1
    ensures c * m >= 1 && (x % (c * m)) % c == x % c
  {
    MultipleBound(c, m);
    var q, r := x / (c * m), x % (c * m);
    assert (c * m) * q == c * (m * q);
    Distribute(c, m * q, r / c);
    ModUnique(x, c, m * q + r / c, r % c);
  }

  /** A capacity that passes the assertion divides 2^bits, so slots survive index wrap-around. */
  lemma {:induction false} SlotSurvivesWrap(x: nat, cap: nat, bits: nat)
    requires 1 <= cap < Pow2(bits) && PassesAssert(cap, bits)
    ensures And(Wrap(x, bits), Wrap(cap - 1, bits)) == x % cap
  {
    WrapSmall(cap - 1, bits);
    MaskIsMod(Wrap(x, bits), cap);
    var k := LogOf(cap);
    if k >= bits { Pow2Mono(bits, k); }
    Pow2Split(k, bits - k);
    ModOfMod(x, cap, Pow2(bits - k));
  }

  lemma {:induction false} Pow2Split(i: nat, j: nat)
    ensures Pow2(i + j) == Pow2(i) * Pow2(j)
  {
    if i > 0 { Pow2Split(i - 1, j); }
  }

  /** Subtracting wrapped counters gives the true distance when it fits. */
  lemma {:induction false} WrapSub(a: int, b: int, bits: nat)
    requires 0 <= a - b < Pow2(bits)
    ensures Wrap(Wrap(a, bits) - Wrap(b, bits), bits) == a - b
  {
    var m := Pow2(bits);
    var qa, qb := a / m, b / m;
    assert a % m - b % m == m * (qb - qa) + (a - b);
    ModUnique(a % m - b % m, m, qb - qa, a - b);
  }

  /** Subtracting wrapped values wraps the difference, whichever is the greater. */
  lemma {:induction false} WrapDiff(a: int, b: int, bits: nat)
    ensures Wrap(Wrap(a, bits) - Wrap(b, bits), bits) == Wrap(a - b, bits)
  {
    var m := Pow2(bits);
    var qa, qb, q, r := a / m, b / m, (a - b) / m, (a - b) % m;
    assert a % m - b % m == m * (qb - qa + q) + r by {
      Distribute(m, qb - qa, q);
      Distribute(m, qb, qa);
    }
    ModUnique(a % m - b % m, m, qb - qa + q, r);
  }

  lemma {:induction false} WrapNegative(d: int, bits: nat)
    requires 0 < d < Pow2(bits)
    ensures Wrap(-d, bits) == Pow2(bits) - d
  {
    ModUnique(-d, Pow2(bits), -1, Pow2(bits) - d);
  }

  /** For values of the type the wrapped difference is zero only if they are equal. */
  lemma {:induction false} WrappedEqual(a: nat, b: nat, bits: nat)
    requires a < Pow2(bits) && b < Pow2(bits)
    ensures Wrap(a - b, bits) == 0 <==> a == b
  {
    if a >= b { WrapSmall(a - b, bits); } else { WrapNegative(b - a, bits); }
  }

  lemma {:induction false} WrapInRange(a: int, bits: nat)
    ensures Wrap(a, bits) < Pow2(bits)
  {
  }

  lemma {:induction false} WrapEq(a: int, b: int, bits: nat)
    requires 0 <= a - b < Pow2(bits)
    ensures Wrap(a, bits) == Wrap(b, bits) <==> a == b
  {
    WrapSub(a, b, bits);
    if Wrap(a, bits) == Wrap(b, bits) { ModUnique(0, Pow2(bits), 0, 0); }
  }

  lemma {:induction false} WrapSucc(a: int, bits: nat)
    ensures Wrap(Wrap(a, bits) + 1, bits) == Wrap(a + 1, bits)
  {
    var m := Pow2(bits);
    var q, r := (a % m + 1) / m, (a % m + 1) % m;
    assert a + 1 == m * (a / m) + (a % m + 1);
    assert a + 1 == m * (a / m + q) + r by { assert m * (a / m + q) == m * (a / m) + m * q; }
    ModUnique(a + 1, m, a / m + q, r);
  }

  /** Positions of one slot are a whole lap apart. */
  lemma {:induction false} LapApart(p: int, q: int, cap: nat)
    requires cap >= 1 && p % cap == q % cap && p < q
    ensures q >= p + cap
  {
    var a, b := p / cap, q / cap;
    Distribute(cap, b, a);
    MultipleBound(cap, b - a);
  }

  lemma {:induction false} AddLap(p: int, cap: nat)
    requires cap >= 1
    ensures (p + cap) % cap == p % cap
  {
    ModUnique(p + cap, cap, p / cap + 1, p % cap);
  }

  /** Fewer than a lap of positions before q: none of them shares q's slot. */
  lemma {:induction false} LanesApart(from: nat, q: nat, cap: nat)
    requires cap >= 1 && from <= q < from + cap
    ensures forall i | from <= i < q :: i % cap != q % cap
  {
    forall i | from <= i < q
      ensures i % cap != q % cap
    {
      if i % cap == q % cap { LapApart(i, q, cap); }
    }
  }

  lemma {:induction false} ModLe(p: nat, cap: nat)
    requires cap >= 1
    ensures p % cap <= p
  {
    MultipleBound(cap, p / cap);
  }

  lemma {:induction false} NextDiffers(p: int, cap: nat)
    requires cap >= 2
    ensures (p + 1) % cap != p % cap
  {
    if (p + 1) % cap == p % cap { LapApart(p, p + 1, cap); }
  }
}

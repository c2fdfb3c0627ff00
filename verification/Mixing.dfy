/** The mixing of a hash: one multiplication and one shifted exclusive or, on 64 bits. */
module Mixing {
  import opened Words

  /** A shift to the right. */
  function DropBits(h: nat, shift: nat): nat {
    if shift == 0 then h else DropBits(h / 2, shift - 1)
  }

  /** The exclusive or of the bits of two numbers. */
  function Xor(a: nat, b: nat): nat {
    if a == 0 then b else if b == 0 then a else 2 * Xor(a / 2, b / 2) + (a + b) % 2
  }

  function Times(h: nat, multiplier: nat): nat {
    h * multiplier % WORD64
  }

  /** What the table makes of a hash before it takes slot and info bits from it. */
  function Mixed(h: nat, multiplier: nat): nat {
    var p := Times(h, multiplier);
    Xor(p, DropBits(p, 33))
  }

  function Mixer<K>(hash: K -> nat): (K, nat) -> nat {
    (k, multiplier) => Mixed(hash(k), multiplier)
  }

  // ------------------------------------------------------------ nothing is lost

  function Pow2(n: nat): (r: nat)
    ensures 0 < r
  {
    if n == 0 then 1 else 2 * Pow2(n - 1)
  }

  lemma {:induction false} DropAll(h: nat, n: nat)
    requires h < Pow2(n)
    ensures DropBits(h, n) == 0
  {
    if n > 0 {
      DropAll(h / 2, n - 1);
    }
  }

  lemma {:induction false} DropBoth(h: nat, m: nat, n: nat)
    ensures DropBits(DropBits(h, m), n) == DropBits(h, m + n)
  {
    if m > 0 {
      DropBoth(h / 2, m - 1, n);
    }
  }

  lemma XorUnfold(a: nat, b: nat)
    ensures Xor(a, b) == 2 * Xor(a / 2, b / 2) + (a + b) % 2
  {
  }

  /** The bits above those of b come through an exclusive or with b. */
  lemma {:induction false} XorDrop(a: nat, b: nat, n: nat)
    requires DropBits(b, n) == 0
    ensures DropBits(Xor(a, b), n) == DropBits(a, n)
  {
    if n > 0 {
      XorUnfold(a, b);
      XorDrop(a / 2, b / 2, n - 1);
      assert Xor(a, b) / 2 == Xor(a / 2, b / 2);
    } else {
      assert b == 0;
    }
  }

  lemma {:induction false} XorInjective(a: nat, c: nat, b: nat)
    requires Xor(a, b) == Xor(c, b)
    ensures a == c
    decreases a + b + c
  {
    hide Xor;
    XorUnfold(a, b);
    XorUnfold(c, b);
    if a + b + c > 0 {
      var x, y := Xor(a / 2, b / 2), Xor(c / 2, b / 2);
      assert x == y && a % 2 == c % 2 by { SameHalves(x, y, a + b, c + b); }
      XorInjective(a / 2, c / 2, b / 2);
    }
  }

  lemma SameHalves(x: nat, y: nat, a: nat, c: nat)
    requires 2 * x + a % 2 == 2 * y + c % 2
    ensures x == y && a % 2 == c % 2
  {
  }

  /** An odd factor takes no factor of two away. */
  lemma {:induction false} OddFactor(d: nat, m: nat, q: nat, n: nat) returns (c: nat)
    requires d * m == q * Pow2(n) && m % 2 == 1
    ensures d == c * Pow2(n)
  {
    if n == 0 {
      c := d;
    } else {
      var p := Pow2(n - 1);
      HalveBoth(d, m, q, p);
      c := OddFactor(d / 2, m, q, n - 1);
      assert 2 * (c * p) == c * (2 * p);
    }
  }

  lemma HalveBoth(d: nat, m: nat, q: nat, p: nat)
    requires d * m == q * (2 * p) && m % 2 == 1
    ensures d % 2 == 0 && d / 2 * m == q * p
  {
    var k := m / 2;
    assert q * (2 * p) == 2 * (q * p);
    assert d * m == 2 * (d * k) + d by { assert m == 2 * k + 1; }
    var e := d / 2;
    assert d == 2 * (q * p - d * k);
    assert d * m == 2 * (e * m);
  }

  lemma {:induction false} Pow2Sum(m: nat, n: nat)
    ensures Pow2(m + n) == Pow2(m) * Pow2(n)
  {
    if m > 0 {
      Pow2Sum(m - 1, n);
      assert Pow2(m) * Pow2(n) == 2 * (Pow2(m - 1) * Pow2(n));
    }
  }

  lemma Pow2Of4()
    ensures Pow2(4) == 16
  {
  }

  lemma WordIsPower()
    ensures Pow2(64) == WORD64
  {
    hide Pow2;
    Pow2Of4();
    Pow2Sum(4, 4);
    Pow2Sum(8, 8);
    Pow2Sum(16, 16);
    Pow2Sum(32, 32);
  }

  lemma TimesInjective(h: nat, g: nat, multiplier: nat)
    requires g <= h < WORD64 && multiplier % 2 == 1 && Times(h, multiplier) == Times(g, multiplier)
    ensures h == g
  {
    var x, y := h * multiplier, g * multiplier;
    var q := x / WORD64 - y / WORD64;
    assert (h - g) * multiplier == x - y == q * WORD64;
    assert 0 <= (h - g) * multiplier;
    WordIsPower();
    var c := OddFactor(h - g, multiplier, q, 64);
  }

  /** Under an odd multiplier two 64-bit hashes are mixed alike only if they are equal. */
  lemma MixedInjective(h: nat, g: nat, multiplier: nat)
    requires h < WORD64 && g < WORD64 && multiplier % 2 == 1
    ensures Mixed(h, multiplier) == Mixed(g, multiplier) <==> h == g
  {
    if Mixed(h, multiplier) == Mixed(g, multiplier) {
      var p, q := Times(h, multiplier), Times(g, multiplier);
      WordIsPower();
      ShiftTells(p);
      ShiftTells(q);
      XorInjective(p, q, DropBits(p, 33));
      if g <= h {
        TimesInjective(h, g, multiplier);
      } else {
        TimesInjective(g, h, multiplier);
      }
    }
  }

  /** What was shifted down can be read off the result. */
  lemma ShiftTells(p: nat)
    requires p < Pow2(64)
    ensures DropBits(p, 33) == DropBits(DropBits(Xor(p, DropBits(p, 33)), 31), 2)
  {
    hide DropBits, Xor, Pow2;
    DropBoth(p, 33, 31);
    DropAll(p, 64);
    XorDrop(p, DropBits(p, 33), 31);
    DropBoth(p, 31, 2);
  }
}

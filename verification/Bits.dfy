/** Unsigned words as bit sequences: bit k of a number, and what C's bitwise operators do to it.
    Words are naturals; the operators whose result depends on the width are spelled for 64 bits. */
module Bits {
  const ULONG_MAX: nat := 0xffff_ffff_ffff_ffff

  type Word = w: nat | w <= ULONG_MAX

  /** Bit k of w. */
  predicate Bit(w: nat, k: nat)
    decreases k
  {
    if k == 0 then w % 2 == 1 else Bit(w / 2, k - 1)
  }

  function Pow2(n: nat): (p: nat)
    ensures p >= 1
  {
    if n == 0 then 1 else 2 * Pow2(n - 1)
  }

  /** x & y */
  function And(x: nat, y: nat): (r: nat)
    ensures r <= x && r <= y
  {
    if x == 0 || y == 0 then 0
    else 2 * And(x / 2, y / 2) + if x % 2 == 1 && y % 2 == 1 then 1 else 0
  }

  /** x | y */
  function Or(x: nat, y: nat): nat {
    if x == 0 then y
    else 2 * Or(x / 2, y / 2) + if x % 2 == 1 || y % 2 == 1 then 1 else 0
  }

  /** x & ~y, which needs no width. */
  function AndNot(x: nat, y: nat): nat { x - And(x, y) }

  function AndNotWord(x: Word, y: Word): (w: Word)
    ensures w == AndNot(x, y)
  {
    AndNot(x, y)
  }

  /** ~w */
  function Not(w: Word): Word { ULONG_MAX - w }

  /** w >> n */
  function Shr(w: nat, n: nat): nat
    decreases n
  {
    if n == 0 then w else Shr(w / 2, n - 1)
  }

  /** w << n, dropping what leaves the 64 bits. */
  function Shl(w: Word, n: nat): Word
    decreases n
  {
    if n == 0 then w else (2 * Shl(w, n - 1)) % (ULONG_MAX + 1)
  }

  // ---------- The operators bit by bit ----------

  lemma {:induction false} BitAnd(x: nat, y: nat, k: nat)
    ensures Bit(And(x, y), k) <==> Bit(x, k) && Bit(y, k)
    decreases k
  {
    if x == 0 || y == 0 {
      BitZero(k);
    } else if k > 0 {
      BitAnd(x / 2, y / 2, k - 1);
    }
  }

  lemma {:induction false} BitOr(x: nat, y: nat, k: nat)
    ensures Bit(Or(x, y), k) <==> Bit(x, k) || Bit(y, k)
    decreases k
  {
    if x == 0 {
      BitZero(k);
    } else if k > 0 {
      BitOr(x / 2, y / 2, k - 1);
    }
  }

  lemma {:induction false} BitAndNot(x: nat, y: nat, k: nat)
    ensures Bit(AndNot(x, y), k) <==> Bit(x, k) && !Bit(y, k)
    decreases k
  {
    if x == 0 || y == 0 {
      BitZero(k);
    } else if k > 0 {
      BitAndNot(x / 2, y / 2, k - 1);
      assert AndNot(x, y) / 2 == AndNot(x / 2, y / 2);
    }
  }

  lemma {:induction false} BitZero(k: nat)
    ensures !Bit(0, k)
  {
    if k > 0 {
      BitZero(k - 1);
    }
  }

  lemma {:induction false} BitShr(w: nat, n: nat, k: nat)
    ensures Bit(Shr(w, n), k) <==> Bit(w, n + k)
    decreases n
  {
    if n > 0 {
      BitShr(w / 2, n - 1, k);
    }
  }

  lemma HalfComplement(w: nat, p: nat)
    requires w < 2 * p
    ensures w / 2 < p && (2 * p - 1 - w) / 2 == p - 1 - w / 2
    ensures (2 * p - 1 - w) % 2 == 1 - w % 2
  {}

  /** Complement within n bits. */
  lemma {:induction false} BitComplement(w: nat, n: nat, k: nat)
    requires w < Pow2(n) && k < n
    ensures Bit(Pow2(n) - 1 - w, k) <==> !Bit(w, k)
  {
    HalfComplement(w, Pow2(n - 1));
    if k > 0 {
      BitComplement(w / 2, n - 1, k - 1);
    }
  }

  lemma {:induction false} BitMod(w: nat, n: nat, k: nat)
    ensures Bit(w % Pow2(n), k) <==> k < n && Bit(w, k)
    decreases n
  {
    if n == 0 {
      BitZero(k);
    } else {
      ModHalf(w, n);
      if k > 0 {
        BitMod(w / 2, n - 1, k - 1);
      }
    }
  }

  lemma ModHalf(w: nat, n: nat)
    requires n > 0
    ensures (w % Pow2(n)) / 2 == (w / 2) % Pow2(n - 1) && (w % Pow2(n)) % 2 == w % 2
  {
    HalfMod(w, Pow2(n - 1));
  }

  lemma HalfMod(w: nat, p: nat)
    requires p > 0
    ensures (w % (2 * p)) / 2 == (w / 2) % p && (w % (2 * p)) % 2 == w % 2
  {
    var q: nat, r: nat := w / (2 * p), w % (2 * p);
    var m: nat := p * q;
    assert (2 * p) * q == 2 * m;
    assert w == 2 * m + r;
    ModUnique(w / 2, p, q, r / 2);
  }

  lemma ModUnique(x: nat, p: nat, q: nat, r: nat)
    requires x == p * q + r && r < p
    ensures x % p == r && x / p == q
  {
    var d, m := x / p, x % p;
    assert p * (d - q) == r - m;
    SmallMultiple(p, d - q, r - m);
  }

  lemma SmallMultiple(p: int, k: int, v: int)
    requires p * k == v && -p < v < p
    ensures k == 0
  {
    if k >= 1 {
      AtLeastOnce(p, k);
      assert false;
    } else if k <= -1 {
      AtLeastOnce(p, -k);
      assert false;
    }
  }

  lemma AtLeastOnce(p: int, k: int)
    requires p >= 0 && k >= 1
    ensures p * k >= p
  {}

  lemma Pow2Of64()
    ensures Pow2(64) == ULONG_MAX + 1
  {
    assert Pow2(8) == 256;
    hide Pow2;
    Pow2Add(8, 8);
    assert Pow2(16) == 0x1_0000;
    Pow2Add(16, 16);
    assert Pow2(32) == 0x1_0000_0000;
    Pow2Add(32, 32);
  }

  lemma {:induction false} Pow2Add(m: nat, n: nat)
    ensures Pow2(m + n) == Pow2(m) * Pow2(n)
    decreases n
  {
    if n > 0 {
      Pow2Add(m, n - 1);
      TwiceProduct(Pow2(m), Pow2(n - 1));
    }
  }

  lemma TwiceProduct(a: nat, b: nat)
    ensures a * (2 * b) == 2 * (a * b)
  {}

  lemma BitNot(w: Word, k: nat)
    requires k < 64
    ensures Bit(Not(w), k) <==> !Bit(w, k)
  {
    Pow2Of64();
    BitComplement(w, 64, k);
  }

  lemma {:induction false} BitHigh(w: nat, n: nat, k: nat)
    requires w < Pow2(n) && n <= k
    ensures !Bit(w, k)
    decreases n
  {
    if n == 0 {
      BitZero(k);
    } else {
      BitHigh(w / 2, n - 1, k - 1);
    }
  }

  lemma WordHigh(w: Word, k: nat)
    requires 64 <= k
    ensures !Bit(w, k)
  {
    Pow2Of64();
    BitHigh(w, 64, k);
  }

  lemma BitAllOnes(k: nat)
    ensures Bit(ULONG_MAX, k) <==> k < 64
  {
    if k < 64 {
      BitNot(0, k);
      BitZero(k);
    } else {
      WordHigh(ULONG_MAX, k);
    }
  }

  lemma {:induction false} BitShl(w: Word, n: nat, k: nat)
    requires k < 64
    ensures Bit(Shl(w, n), k) <==> n <= k && Bit(w, k - n)
    decreases n
  {
    if n > 0 {
      var x: nat := Shl(w, n - 1);
      Pow2Of64();
      BitMod(2 * x, 64, k);
      if k > 0 {
        assert 2 * x / 2 == x;
        BitShl(w, n - 1, k - 1);
      }
    }
  }

  // ---------- Words are determined by their bits ----------

  lemma {:induction false} SomeBit(w: nat, n: nat) returns (k: nat)
    requires 0 < w < Pow2(n)
    ensures k < n && Bit(w, k)
  {
    if w % 2 == 1 {
      k := 0;
    } else {
      k := SomeBit(w / 2, n - 1);
      k := k + 1;
    }
  }

  lemma SomeWordBit(w: Word) returns (k: nat)
    requires w != 0
    ensures k < 64 && Bit(w, k)
  {
    Pow2Of64();
    k := SomeBit(w, 64);
  }

  // ---------- Masks ----------

  /** x & (2^n - 1) is the remainder. */
  lemma {:induction false} AndLowMask(x: nat, n: nat)
    ensures And(x, Pow2(n) - 1) == x % Pow2(n)
    decreases n
  {
    if n == 0 {
    } else if x == 0 {
      ModUnique(0, Pow2(n), 0, 0);
    } else {
      AndLowMask(x / 2, n - 1);
      ModHalf(x, n);
      MaskHalf(n);
      AndStep(x, Pow2(n) - 1);
    }
  }

  lemma MaskHalf(n: nat)
    requires n > 0
    ensures (Pow2(n) - 1) / 2 == Pow2(n - 1) - 1 && (Pow2(n) - 1) % 2 == 1
  {}

  lemma AndStep(x: nat, y: nat)
    requires y % 2 == 1
    ensures And(x, y) / 2 == And(x / 2, y / 2) && And(x, y) % 2 == x % 2
  {}

  /** x & (1 << k) tests bit k. */
  lemma {:induction false} AndPow2(x: nat, k: nat)
    ensures And(x, Pow2(k)) != 0 <==> Bit(x, k)
    decreases k
  {
    if x == 0 {
      BitZero(k);
    } else if k == 0 {
      assert And(x, 1) == 2 * And(x / 2, 0) + x % 2;
    } else {
      AndPow2(x / 2, k - 1);
    }
  }

  /** Or of a multiple of 2^n and a number below 2^n is their sum. */
  lemma {:induction false} OrDisjoint(x: nat, y: nat, n: nat)
    requires x % Pow2(n) == 0 && y < Pow2(n)
    ensures Or(x, y) == x + y
    decreases n
  {
    if n == 0 {
      OrZero(x);
    } else if x > 0 {
      ModHalf(x, n);
      OrDisjoint(x / 2, y / 2, n - 1);
    }
  }

  lemma {:induction false} OrZero(x: nat)
    ensures Or(x, 0) == x
  {
    if x > 0 {
      OrZero(x / 2);
    }
  }
}

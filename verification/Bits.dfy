/** Bitwise operators on natural numbers, digit by digit, and what they mean for low-order masks. */
module Bits {
  function Pow2(k: nat): (p: nat)
    ensures p > 0
  {
    if k == 0 then 1 else 2 * Pow2(k - 1)
  }

  function And(a: nat, b: nat): nat {
    if a == 0 || b == 0 then 0 else (if b % 2 == 1 then a % 2 else 0) + 2 * And(a / 2, b / 2)
  }

  function Or(a: nat, b: nat): nat
    decreases a + b
  {
    if a == 0 then b else if b == 0 then a
    else (if a % 2 == 1 || b % 2 == 1 then 1 else 0) + 2 * Or(a / 2, b / 2)
  }

  function Xor(a: nat, b: nat): nat
    decreases a + b
  {
    if a == 0 && b == 0 then 0 else (a + b) % 2 + 2 * Xor(a / 2, b / 2)
  }

  // a &^ b.
  function AndNot(a: nat, b: nat): nat {
    if a == 0 then 0 else (if b % 2 == 1 then 0 else a % 2) + 2 * AndNot(a / 2, b / 2)
  }

  // The k low digits of a, and the digits above them.
  function Low(a: nat, k: nat): nat
    decreases k
  {
    if k == 0 then 0 else a % 2 + 2 * Low(a / 2, k - 1)
  }

  function High(a: nat, k: nat): nat
    decreases k
  {
    if k == 0 then a else High(a / 2, k - 1)
  }

  lemma {:induction false} Doubled(p: nat, h: nat, l: nat)
    ensures 2 * (p * h + l) == (2 * p) * h + 2 * l
  {
  }

  lemma {:induction false} Digits(a: nat, k: nat)
    ensures Low(a, k) < Pow2(k) && a == Pow2(k) * High(a, k) + Low(a, k)
    decreases k
  {
    if k > 0 {
      Digits(a / 2, k - 1);
      Doubled(Pow2(k - 1), High(a / 2, k - 1), Low(a / 2, k - 1));
    }
  }

  lemma {:induction false} AtLeastOnce(d: int, k: int)
    requires d >= 0 && k >= 1
    ensures d * k >= d
  {
  }

  lemma {:induction false} DivModUnique(a: int, d: int, q: int, r: int)
    requires a == d * q + r && 0 <= r < d
    ensures a / d == q && a % d == r
  {
    var q', r' := a / d, a % d;
    assert d * (q - q') == d * q - d * q' == r' - r;
    if q > q' {
      AtLeastOnce(d, q - q');
    } else if q' > q {
      assert d * (q' - q) == -(d * (q - q'));
      AtLeastOnce(d, q' - q);
    }
  }

  // Low and High are remainder and quotient.
  lemma {:induction false} LowIsMod(a: nat, k: nat)
    ensures Low(a, k) == a % Pow2(k) && High(a, k) == a / Pow2(k)
  {
    Digits(a, k);
    DivModUnique(a, Pow2(k), High(a, k), Low(a, k));
  }

  lemma {:induction false} AndMask(a: nat, k: nat)
    ensures And(a, Pow2(k) - 1) == Low(a, k)
    decreases k
  {
    if k > 0 {
      var m := Pow2(k) - 1;
      assert m % 2 == 1 && m / 2 == Pow2(k - 1) - 1;
      AndMask(a / 2, k - 1);
    }
  }

  lemma {:induction false} AndNotMask(a: nat, k: nat)
    ensures AndNot(a, Pow2(k) - 1) == a - Low(a, k)
    decreases k
  {
    if k == 0 {
      AndNotZero(a);
    } else {
      var m := Pow2(k) - 1;
      assert m % 2 == 1 && m / 2 == Pow2(k - 1) - 1;
      AndNotMask(a / 2, k - 1);
    }
  }

  lemma {:induction false} AndNotZero(a: nat)
    ensures AndNot(a, 0) == a
  {
    if a > 0 {
      AndNotZero(a / 2);
    }
  }

  // Joining a number without low digits with something that has nothing else.
  lemma {:induction false} OrLow(a: nat, t: nat, k: nat)
    requires Low(a, k) == 0 && High(t, k) == 0
    ensures Or(a, t) == a + t
    decreases k
  {
    if k > 0 {
      OrLow(a / 2, t / 2, k - 1);
    }
  }

  lemma {:induction false} LowCleared(a: nat, k: nat)
    ensures Low(a, k) <= a && Low(a - Low(a, k), k) == 0
    decreases k
  {
    if k > 0 {
      LowCleared(a / 2, k - 1);
      assert (a - Low(a, k)) / 2 == a / 2 - Low(a / 2, k - 1);
    }
  }

  lemma {:induction false} XorHalf(a: nat, b: nat)
    ensures Xor(a, b) % 2 == (a + b) % 2 && Xor(a, b) / 2 == Xor(a / 2, b / 2)
  {
    if a > 0 || b > 0 {
      FirstDigit((a + b) % 2, Xor(a / 2, b / 2));
    }
  }

  lemma {:induction false} FirstDigit(d: nat, x: nat)
    requires d < 2
    ensures (d + 2 * x) % 2 == d && (d + 2 * x) / 2 == x
  {
  }

  lemma {:induction false} XorNothing(a: nat)
    ensures Xor(a, 0) == a
  {
    if a > 0 {
      XorNothing(a / 2);
    }
  }

  lemma {:induction false} XorFromNothing(b: nat)
    ensures Xor(0, b) == b
  {
    if b > 0 {
      XorFromNothing(b / 2);
    }
  }

  lemma {:induction false} XorXor(a: nat, b: nat)
    ensures Xor(Xor(a, b), b) == a
    decreases a + b
  {
    if a > 0 || b > 0 {
      XorXor(a / 2, b / 2);
      XorHalf(a, b);
      XorHalf(Xor(a, b), b);
      FlipTwice(a, b, Xor(a, b));
      SameDigits(Xor(Xor(a, b), b), a);
    }
  }

  lemma {:induction false} FlipTwice(a: nat, b: nat, x: nat)
    requires x % 2 == (a + b) % 2
    ensures (x + b) % 2 == a % 2
  {
  }

  lemma {:induction false} SameDigits(a: nat, b: nat)
    requires a % 2 == b % 2 && a / 2 == b / 2
    ensures a == b
  {
  }

  // Masking with low digits leaves the digits above them alone.
  lemma {:induction false} XorHigh(a: nat, b: nat, k: nat)
    requires High(b, k) == 0
    ensures High(Xor(a, b), k) == High(a, k)
    decreases k
  {
    if k > 0 {
      XorHalf(a, b);
      XorHigh(a / 2, b / 2, k - 1);
    } else {
      XorNothing(a);
    }
  }

  lemma {:induction false} XorBelow(a: nat, b: nat, k: nat)
    requires High(a, k) == 0 && High(b, k) == 0
    ensures High(Xor(a, b), k) == 0
    decreases k
  {
    if k > 0 {
      XorHalf(a, b);
      XorBelow(a / 2, b / 2, k - 1);
    }
  }

  lemma {:induction false} HighOfHigh(a: nat, j: nat, k: nat)
    ensures High(High(a, j), k) == High(a, j + k)
    decreases j
  {
    if j > 0 {
      HighOfHigh(a / 2, j - 1, k);
    }
  }

  lemma {:induction false} LowIsLow(a: nat, k: nat)
    ensures High(Low(a, k), k) == 0
    decreases k
  {
    if k > 0 {
      LowIsLow(a / 2, k - 1);
    }
  }

  // Testing one digit.
  lemma {:induction false} AndPow(a: nat, k: nat)
    ensures And(a, Pow2(k)) == Pow2(k) * (High(a, k) % 2)
    decreases k
  {
    if k > 0 {
      AndPow(a / 2, k - 1);
      var p, d := Pow2(k - 1), High(a / 2, k - 1) % 2;
      assert 2 * (p * d) == (2 * p) * d;
    } else if a > 0 {
      assert And(a, 1) == a % 2 + 2 * And(a / 2, 0);
    }
  }
}

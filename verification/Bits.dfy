/** Bitwise operations on naturals. */
module Bits {

  /** Bitwise and on naturals. */
  function BitAnd(a: nat, b: nat): (r: nat)
    ensures r <= b
  {
    if a == 0 || b == 0 then 0 else 2 * BitAnd(a / 2, b / 2) + (if a % 2 == 1 && b % 2 == 1 then 1 else 0)
  }

  function Pow2(n: nat): (r: nat)
    ensures r >= 1
  {
    if n == 0 then 1 else 2 * Pow2(n - 1)
  }

  /** Masking with one less than a power of two is reduction modulo that power. */
  lemma {:induction false} MaskIsModulo(a: nat, n: nat)
    ensures BitAnd(a, Pow2(n) - 1) == a % Pow2(n)
    decreases n
  {
    if n > 0 {
      MaskIsModulo(a / 2, n - 1);
      var q := Pow2(n - 1);
      ModuloOfDouble(a, q);
      assert (2 * q - 1) / 2 == q - 1 && (2 * q - 1) % 2 == 1;
    }
  }

  lemma ModuloOfDouble(a: nat, q: nat)
    requires q >= 1
    ensures a % (2 * q) == 2 * ((a / 2) % q) + a % 2
  {
    var t, r := (a / 2) / q, (a / 2) % q;
    assert a / 2 == q * t + r;
    assert a == (2 * q) * t + (2 * r + a % 2) by {
      assert 2 * (q * t) == (2 * q) * t;
    }
    RemainderIsUnique(a, 2 * q, t, 2 * r + a % 2);
  }

  lemma RemainderIsUnique(a: nat, d: nat, q: nat, r: nat)
    requires a == d * q + r && r < d
    ensures a % d == r
  {
    var q', r' := a / d, a % d;
    assert a == d * q' + r';
    assert d * (q - q') == d * q - d * q';
    if q != q' {
      FarMultiple(q - q', d);
    }
  }

  lemma FarMultiple(x: int, d: int)
    requires x != 0 && d >= 0
    ensures d * x >= d || d * x <= -d
  {
    if x > 0 {
      assert d * (x - 1) >= 0;
    } else {
      assert d * (-x - 1) >= 0;
    }
  }

  /** Bitwise or on naturals. */
  function BitOr(a: nat, b: nat): nat {
    if a == 0 && b == 0 then 0 else 2 * BitOr(a / 2, b / 2) + (if a % 2 == 1 || b % 2 == 1 then 1 else 0)
  }

  lemma {:induction false} OrNothing(b: nat)
    ensures BitOr(0, b) == b
  {
    if b > 0 {
      OrNothing(b / 2);
    }
  }

  /** Setting a high bit adds it when it is not there, and changes nothing when it is. */
  lemma {:induction false} OrHighBit(n: nat, b: nat)
    requires b < 2 * Pow2(n)
    ensures BitOr(Pow2(n), b) == if b < Pow2(n) then Pow2(n) + b else b
    decreases n
  {
    if n == 0 {
      OrNothing(0);
      assert Pow2(0) == 1 && BitOr(1, b) == 2 * BitOr(0, 0) + 1;
    } else {
      OrHighBit(n - 1, b / 2);
    }
  }

  /** Whether the highest of `n + 1` bits is set. */
  lemma {:induction false} AndHighBit(n: nat, b: nat)
    requires b < 2 * Pow2(n)
    ensures BitAnd(b, Pow2(n)) == if b < Pow2(n) then 0 else Pow2(n)
    decreases n
  {
    if n == 0 {
      assert Pow2(0) == 1 && (b == 1 ==> BitAnd(1, 1) == 2 * BitAnd(0, 0) + 1);
    } else {
      AndHighBit(n - 1, b / 2);
      assert BitAnd(0, Pow2(n - 1)) == 0;
    }
  }
}

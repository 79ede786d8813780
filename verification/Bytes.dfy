/** Bytes as numbers. */
module Bytes {

  type byte = b: int | 0 <= b < 256

  // bitwise exclusive or
  function Xor(a: nat, b: nat): nat
    decreases a + b
  {
    if a == 0 && b == 0 then 0 else (a + b) % 2 + 2 * Xor(a / 2, b / 2)
  }

  lemma {:induction false} XorBound(a: nat, b: nat, n: nat)
    requires a < Power2(n) && b < Power2(n)
    ensures Xor(a, b) < Power2(n)
  {
    if n > 0 {
      XorBound(a / 2, b / 2, n - 1);
    }
  }

  function Power2(n: nat): nat {
    if n == 0 then 1 else 2 * Power2(n - 1)
  }

  lemma XorStep(a: nat, b: nat)
    ensures Xor(a, b) == (a + b) % 2 + 2 * Xor(a / 2, b / 2)
    ensures Xor(a, b) / 2 == Xor(a / 2, b / 2) && Xor(a, b) % 2 == (a + b) % 2
  {
  }

  // from the lowest bit on
  function Bit(a: nat, k: nat): nat {
    if k == 0 then a % 2 else Bit(a / 2, k - 1)
  }

  // each bit on its own
  lemma {:induction false} XorBit(a: nat, b: nat, k: nat)
    ensures Bit(Xor(a, b), k) == (Bit(a, k) + Bit(b, k)) % 2
    decreases k
  {
    XorStep(a, b);
    if k == 0 {
      BitSum(a, b);
    } else {
      XorBit(a / 2, b / 2, k - 1);
    }
  }

  lemma BitSum(a: nat, b: nat)
    ensures (a + b) % 2 == (a % 2 + b % 2) % 2
  {
  }

  lemma {:induction false} XorTwice(a: nat, b: nat)
    ensures Xor(Xor(a, b), b) == a
    decreases a + b
  {
    if a + b > 0 {
      XorTwice(a / 2, b / 2);
      XorStep(a, b);
      XorStep(Xor(a, b), b);
      Parity(a, b, Xor(a, b));
    }
  }

  lemma Parity(a: nat, b: nat, x: nat)
    requires x % 2 == (a + b) % 2
    ensures (x + b) % 2 == a % 2
  {
  }

  lemma {:induction false} XorInjective(x: nat, a: nat, b: nat)
    requires Xor(x, a) == Xor(x, b)
    ensures a == b
    decreases x + a + b
  {
    if x + a + b > 0 {
      XorStep(x, a);
      XorStep(x, b);
      XorInjective(x / 2, a / 2, b / 2);
      Parity(a, x, Xor(x, a));
      Parity(b, x, Xor(x, b));
    }
  }

  function XorByte(a: byte, b: byte): (r: byte) {
    assert Xor(a, b) < 256 by {
      assert Power2(8) == 256;
      XorBound(a, b, 8);
    }
    Xor(a, b)
  }

  // bitwise or
  function Or(a: nat, b: nat): nat
    decreases a + b
  {
    if a == 0 && b == 0 then 0 else (if a % 2 == 1 || b % 2 == 1 then 1 else 0) + 2 * Or(a / 2, b / 2)
  }

  // bits that do not overlap just add up
  lemma {:induction false} OrDisjoint(a: nat, b: nat, n: nat)
    requires b < Power2(n)
    ensures Or(a * Power2(n), b) == a * Power2(n) + b
  {
    if n == 0 {
      OrZero(a);
    } else {
      var m := a * Power2(n - 1);
      assert a * Power2(n) == 2 * m;
      OrDisjoint(a, b / 2, n - 1);
      if m + b > 0 {
        assert Or(2 * m, b) == b % 2 + 2 * Or(m, b / 2);
      }
    }
  }

  lemma {:induction false} OrZero(a: nat)
    ensures Or(a, 0) == a
  {
    if a > 0 {
      OrZero(a / 2);
    }
  }

  function Reversed<T>(s: seq<T>): (r: seq<T>)
    ensures |r| == |s|
    ensures forall i :: 0 <= i < |s| ==> r[i] == s[|s| - 1 - i]
  {
    seq(|s|, i requires 0 <= i < |s| => s[|s| - 1 - i])
  }
}

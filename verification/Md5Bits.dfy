/**
  The 32-bit words of MD5: sums modulo 2^32, rotation, and the bitwise functions, as the program's
  macros and as the standard write them.
*/
module Md5Bits {

  type word = bv32

  // F1 to F4 of the program
  function MacroF1(x: word, y: word, z: word): word { z ^ (x & (y ^ z)) }

  function MacroF2(x: word, y: word, z: word): word { MacroF1(z, x, y) }

  function MacroF3(x: word, y: word, z: word): word { x ^ y ^ z }

  function MacroF4(x: word, y: word, z: word): word { y ^ (x | !z) }

  // F, G, H and I of section 3.4 of RFC 1321
  function StandardF(x: word, y: word, z: word): word { (x & y) | (!x & z) }

  function StandardG(x: word, y: word, z: word): word { (x & z) | (y & !z) }

  function StandardH(x: word, y: word, z: word): word { Differ(Differ(x, y), z) }

  function StandardI(x: word, y: word, z: word): word { Differ(y, x | !z) }

  // exclusive or: the bits in one of the two and not in both
  function Differ(x: word, y: word): word { (x | y) & !(x & y) }

  // the macros' formulas are those of the standard, on plain words
  lemma FirstWords(x: bv32, y: bv32, z: bv32)
    ensures z ^ (x & (y ^ z)) == (x & y) | (!x & z)
  {
  }

  lemma SecondWords(x: bv32, y: bv32, z: bv32)
    ensures y ^ (z & (x ^ y)) == (x & z) | (y & !z)
  {
  }

  lemma FirstMacro(x: word, y: word, z: word)
    ensures MacroF1(x, y, z) == StandardF(x, y, z)
  {
    FirstWords(x, y, z);
  }

  lemma SecondMacro(x: word, y: word, z: word)
    ensures MacroF2(x, y, z) == StandardG(x, y, z)
  {
    SecondWords(x, y, z);
  }

  lemma XorWords(x: bv32, y: bv32)
    ensures x ^ y == (x | y) & !(x & y)
  {
  }

  lemma XorIsDiffer(x: word, y: word)
    ensures x ^ y == Differ(x, y)
  {
    XorWords(x, y);
  }

  lemma ThirdMacro(x: word, y: word, z: word)
    ensures MacroF3(x, y, z) == StandardH(x, y, z)
  {
    calc {
      MacroF3(x, y, z);
      (x ^ y) ^ z;
      { XorIsDiffer(x ^ y, z); }
      Differ(x ^ y, z);
      { XorIsDiffer(x, y); }
      Differ(Differ(x, y), z);
    }
  }

  lemma FourthWords(x: bv32, y: bv32, z: bv32)
    ensures y ^ (x | !z) == ((y | (x | !z)) & !(y & (x | !z)))
  {
  }

  lemma FourthMacro(x: word, y: word, z: word)
    ensures MacroF4(x, y, z) == StandardI(x, y, z)
  {
    FourthWords(x, y, z);
  }

  // "+=" of the macros
  function Sum(u: word, v: word): word {
    u + v
  }

  // addition of words in the standard
  function Plus(u: word, v: word): word {
    u + v
  }

  lemma WordsAssociate(u: word, v: word, w: word)
    ensures (u + v) + w == u + (v + w)
  {
  }

  lemma SumAssociates(u: word, v: word, w: word)
    ensures Sum(Sum(u, v), w) == Sum(u, Sum(v, w))
  {
    calc {
      Sum(Sum(u, v), w);
      Sum(u + v, w);
      (u + v) + w;
      { WordsAssociate(u, v, w); }
      u + (v + w);
      Sum(u, v + w);
      Sum(u, Sum(v, w));
    }
  }

  // "w << s | w >> (32 - s)"
  function MacroRotate(w: word, s: nat): word {
    if s <= 32 then (w << s) | (w >> (32 - s)) else w
  }

  // p is 2^s, and q is 2^32 / p
  function Rotated(w: word, p: word, q: word): word {
    if q == 0 then w else w * p + w / q
  }

  // s places to the left: the number times 2^s, modulo 2^32, and the s bits that fall out on the left come
  // in again on the right
  function Rotate(w: word, s: nat): word {
    if s == 0 || s >= 32 then w else Rotated(w, 1 << s, 1 << (32 - s))
  }

  // the macro's two shifts rotate to the left, by each of the sixteen numbers of places that it is used with

  lemma Rotates4(w: word)
    ensures MacroRotate(w, 4) == Rotate(w, 4)
  {
  }

  lemma Rotates5(w: word)
    ensures MacroRotate(w, 5) == Rotate(w, 5)
  {
  }

  lemma Rotates6(w: word)
    ensures MacroRotate(w, 6) == Rotate(w, 6)
  {
  }

  lemma Rotates7(w: word)
    ensures MacroRotate(w, 7) == Rotate(w, 7)
  {
  }

  lemma Rotates9(w: word)
    ensures MacroRotate(w, 9) == Rotate(w, 9)
  {
  }

  lemma Rotates10(w: word)
    ensures MacroRotate(w, 10) == Rotate(w, 10)
  {
  }

  lemma Rotates11(w: word)
    ensures MacroRotate(w, 11) == Rotate(w, 11)
  {
  }

  lemma Rotates12(w: word)
    ensures MacroRotate(w, 12) == Rotate(w, 12)
  {
  }

  lemma Rotates14(w: word)
    ensures MacroRotate(w, 14) == Rotate(w, 14)
  {
  }

  lemma Rotates15(w: word)
    ensures MacroRotate(w, 15) == Rotate(w, 15)
  {
  }

  lemma Rotates16(w: word)
    ensures MacroRotate(w, 16) == Rotate(w, 16)
  {
  }

  lemma Rotates17(w: word)
    ensures MacroRotate(w, 17) == Rotate(w, 17)
  {
  }

  lemma Rotates20(w: word)
    ensures MacroRotate(w, 20) == Rotate(w, 20)
  {
  }

  lemma Rotates21(w: word)
    ensures MacroRotate(w, 21) == Rotate(w, 21)
  {
  }

  lemma Rotates22(w: word)
    ensures MacroRotate(w, 22) == Rotate(w, 22)
  {
  }

  lemma Rotates23(w: word)
    ensures MacroRotate(w, 23) == Rotate(w, 23)
  {
  }
}

/** C strings and numbers as the C library reads and prints them. */
module CText {

  // what strlen and c_str see of a buffer
  function CStr(s: string): (r: string)
    ensures r <= s && '\0' !in r
    ensures '\0' !in s ==> r == s
  {
    if s == [] || s[0] == '\0' then [] else [s[0]] + CStr(s[1..])
  }

  // strchr and std::string::find of one character: the first position at or after k, or |s|
  function IndexOf(s: string, c: char, k: nat): (i: nat)
    requires k <= |s|
    ensures k <= i <= |s|
    decreases |s| - k
  {
    if k == |s| || s[k] == c then k else IndexOf(s, c, k + 1)
  }

  lemma {:induction false} IndexOfFinds(s: string, c: char, k: nat)
    requires k <= |s|
    ensures var i := IndexOf(s, c, k);
            (forall j :: k <= j < i ==> s[j] != c) && (i < |s| ==> s[i] == c)
    decreases |s| - k
  {
    if k < |s| && s[k] != c {
      IndexOfFinds(s, c, k + 1);
    }
  }

  // the position is determined by these two facts
  lemma {:induction false} IndexOfIs(s: string, c: char, k: nat, i: nat)
    requires k <= i <= |s| && (forall j :: k <= j < i ==> s[j] != c) && (i < |s| ==> s[i] == c)
    ensures IndexOf(s, c, k) == i
    decreases i - k
  {
    if k < i {
      IndexOfIs(s, c, k + 1, i);
    }
  }

  // ----- numbers -----

  predicate IsDigit(c: char) {
    '0' <= c <= '9'
  }

  predicate IsSpace(c: char) {
    c == ' ' || '\t' <= c <= '\r'
  }

  function DigitValue(c: char): (d: nat)
    requires IsDigit(c)
    ensures d < 10
  {
    c as int - '0' as int
  }

  function DigitChar(d: nat): (c: char)
    requires d < 10
    ensures IsDigit(c) && DigitValue(c) == d
  {
    (d + '0' as int) as char
  }

  function PrintNat(n: nat): (s: string)
    ensures |s| > 0 && forall i :: 0 <= i < |s| ==> IsDigit(s[i])
  {
    if n < 10 then [DigitChar(n)] else PrintNat(n / 10) + [DigitChar(n % 10)]
  }

  // "%d"
  function Print(n: int): string {
    if n < 0 then "-" + PrintNat(-n) else PrintNat(n)
  }

  // the value of the digits from the left, on top of `acc`
  function ReadDigits(s: string, acc: nat): nat {
    if s == [] || !IsDigit(s[0]) then acc else ReadDigits(s[1..], 10 * acc + DigitValue(s[0]))
  }

  function Unsigned(s: string): nat {
    ReadDigits(s, 0)
  }

  function SkipSpace(s: string): string {
    if s != [] && IsSpace(s[0]) then SkipSpace(s[1..]) else s
  }

  const INT_LIMIT: int := 0x8000_0000
  const LONG_LIMIT: int := 0x8000_0000_0000_0000

  predicate InLong(n: int) {
    -LONG_LIMIT <= n < LONG_LIMIT
  }

  // the mathematical value strtol reads
  function Signed(s: string): int {
    var t := SkipSpace(s);
    if t != [] && t[0] == '-' then 0 - (Unsigned(t[1..]) as int)
    else if t != [] && t[0] == '+' then Unsigned(t[1..])
    else Unsigned(t)
  }

  // atol: out-of-range values saturate
  function Atol(s: string): (r: int)
    ensures -LONG_LIMIT <= r < LONG_LIMIT
  {
    var v := Signed(s);
    if v < -LONG_LIMIT then -LONG_LIMIT else if v >= LONG_LIMIT then LONG_LIMIT - 1 else v
  }

  // atoi: the low 32 bits of atol, as a signed number
  function Atoi(s: string): (r: int)
    ensures -INT_LIMIT <= r < INT_LIMIT
  {
    (Atol(s) + INT_LIMIT) % (2 * INT_LIMIT) - INT_LIMIT
  }

  // conversion to uint16_t
  function ToUint16(n: int): (r: int)
    ensures 0 <= r < 65536
  {
    n % 65536
  }

  predicate NoDigitFirst(s: string) {
    s == [] || !IsDigit(s[0])
  }

  lemma {:induction false} ReadDigitsAppend(a: string, rest: string, acc: nat)
    requires forall i :: 0 <= i < |a| ==> IsDigit(a[i])
    ensures ReadDigits(a + rest, acc) == ReadDigits(rest, ReadDigits(a, acc))
    decreases |a|
  {
    if a == [] {
      assert a + rest == rest;
    } else {
      assert (a + rest)[1..] == a[1..] + rest;
      ReadDigitsAppend(a[1..], rest, 10 * acc + DigitValue(a[0]));
    }
  }

  lemma {:induction false} UnsignedPrint(n: nat, rest: string)
    requires NoDigitFirst(rest)
    ensures Unsigned(PrintNat(n) + rest) == n
    ensures !IsSpace(PrintNat(n)[0])
  {
    UnsignedPrintAll(n);
    ReadDigitsAppend(PrintNat(n), rest, 0);
  }

  lemma {:induction false} UnsignedPrintAll(n: nat)
    ensures ReadDigits(PrintNat(n), 0) == n
  {
    if n >= 10 {
      UnsignedPrintAll(n / 10);
      ReadDigitsAppend(PrintNat(n / 10), [DigitChar(n % 10)], 0);
      assert [DigitChar(n % 10)][1..] == [];
    }
  }

  // reading back what "%d" printed, whatever non-digit follows
  lemma SignedPrint(n: int, rest: string)
    requires NoDigitFirst(rest)
    ensures Signed(Print(n) + rest) == n
  {
    var s := Print(n) + rest;
    if n < 0 {
      assert s == "-" + (PrintNat(-n) + rest);
      assert s[1..] == PrintNat(-n) + rest;
      UnsignedPrint(-n, rest);
    } else {
      UnsignedPrint(n, rest);
      assert s[0] == PrintNat(n)[0];
    }
  }

  lemma AtoiPrint(n: int, rest: string)
    requires -INT_LIMIT <= n < INT_LIMIT && NoDigitFirst(rest)
    ensures Atoi(Print(n) + rest) == n
  {
    SignedPrint(n, rest);
  }
}

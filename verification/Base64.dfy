/**
  Base64 (section 4 of RFC 4648) over either alphabet of the program, and the XOR/reverse wrapper
  around it.  Letters and data are bytes.  The masks and shifts of the program are written as
  quotients and remainders; `MaskForms` states that they are the same on every byte, and storing
  into an unsigned char is remainder 256.
*/
module Base64 {
  import opened Bytes
  import opened Base64Text

  const PAD: byte := 61          // '='
  const NOT_FOUND: byte := 255   // std::string::npos stored in an unsigned char

  // ----- alphabets -----

  predicate IsAlnum(c: byte) {
    48 <= c <= 57 || 65 <= c <= 90 || 97 <= c <= 122
  }

  // 'A'..'Z', 'a'..'z', '0'..'9', then the two extra characters
  function Letter(c62: byte, i: nat): byte
    requires i < 64
  {
    if i < 26 then 65 + i
    else if i < 52 then 71 + i
    else if i < 62 then i - 4
    else if i == 62 then c62
    else 47
  }

  function Alphabet(c62: byte): (alpha: seq<byte>)
    ensures |alpha| == 64
  {
    seq(64, i requires 0 <= i < 64 => Letter(c62, i))
  }

  const PLUS: byte := 43   // '+' and '/', Base64.cpp
  const DASH: byte := 45   // '-' and '/', Base64_2.cpp

  // is_base64 and is_base64_2
  predicate IsBase64(c62: byte, c: byte) {
    IsAlnum(c) || c == c62 || c == 47
  }

  // std::string::find of one character, stored in an unsigned char
  function Find(alpha: seq<byte>, c: byte): (r: byte)
    requires |alpha| == 64
    ensures if c in alpha then r < 64 && alpha[r] == c else r == NOT_FOUND
  {
    FindFrom(alpha, c, 0)
  }

  function FindFrom(alpha: seq<byte>, c: byte, k: nat): (r: byte)
    requires |alpha| == 64 && k <= 64
    ensures if c in alpha[k..] then r < 64 && alpha[r] == c else r == NOT_FOUND
    decreases 64 - k
  {
    if k == 64 then NOT_FOUND
    else if alpha[k] == c then k
    else FindFrom(alpha, c, k + 1)
  }

  // what the codec needs of an alphabet, and of the test that goes with it
  predicate Usable(alpha: seq<byte>) {
    && |alpha| == 64
    && (forall i, j :: 0 <= i < j < 64 ==> alpha[i] != alpha[j])
    && PAD !in alpha && 0 !in alpha
  }

  lemma AlphabetUsable(c62: byte)
    requires c62 == PLUS || c62 == DASH
    ensures Usable(Alphabet(c62))
    ensures forall c: byte :: c in Alphabet(c62) <==> IsBase64(c62, c)
  {
    var alpha := Alphabet(c62);
    forall c: byte
      ensures c in alpha <==> IsBase64(c62, c)
    {
      var i :=
        if c == c62 then 62 else if c == 47 then 63 else if c <= 57 then c + 4 else if c <= 90 then c - 65 else c - 71;
      if IsBase64(c62, c) {
        assert alpha[i] == c;
      }
    }
  }

  // the masks and shifts of the program as quotients and remainders
  lemma MaskForms(b: bv8)
    ensures ((b & 0xfc) >> 2) as int == b as int / 4
    ensures ((b & 0x03) << 4) as int == b as int % 4 * 16
    ensures ((b & 0xf0) >> 4) as int == b as int / 16
    ensures ((b & 0x0f) << 2) as int == b as int % 16 * 4
    ensures ((b & 0xc0) >> 6) as int == b as int / 64
    ensures (b & 0x3f) as int == b as int % 64
    ensures ((b & 0x30) >> 4) as int == b as int / 16 % 4
    ensures ((b & 0x0f) << 4) as int == b as int % 16 * 16
    ensures ((b & 0x3c) >> 2) as int == b as int / 4 % 16
    ensures ((b & 0x03) << 6) as int == b as int % 4 * 64
  {
  }

  // ----- groups -----

  function Sextets(t: Three<byte>): (r: Four<byte>)
    ensures r.a < 64 && r.b < 64 && r.c < 64 && r.d < 64
  {
    Four(t.a / 4, t.a % 4 * 16 + t.b / 16, t.b % 16 * 4 + t.c / 64, t.c % 64)
  }

  function Octets(x: Four<byte>): Three<byte> {
    Three((x.a * 4 + x.b / 16 % 4) % 256, (x.b % 16 * 16 + x.c / 4 % 16) % 256, (x.c % 4 * 64 + x.d) % 256)
  }

  function Quad(alpha: seq<byte>, t: Three<byte>): Four<byte>
    requires |alpha| == 64
  {
    var x := Sextets(t);
    Four(alpha[x.a], alpha[x.b], alpha[x.c], alpha[x.d])
  }

  function Triple(alpha: seq<byte>, q: Four<byte>): Three<byte>
    requires |alpha| == 64
  {
    Octets(Lookup(alpha, q))
  }

  function CodecOf(c62: byte): Codec<byte, byte> {
    var alpha := Alphabet(c62);
    Codec((c: byte) => IsBase64(c62, c), (t: Three<byte>) => Quad(alpha, t), (q: Four<byte>) => Triple(alpha, q),
          0, 0, PAD, (c: byte) => Find(alpha, c) % 4 == 0, (c: byte) => Find(alpha, c) % 16 == 0)
  }

  // ----- the laws of a group -----

  function Lookup(alpha: seq<byte>, q: Four<byte>): Four<byte>
    requires |alpha| == 64
  {
    Four(Find(alpha, q.a), Find(alpha, q.b), Find(alpha, q.c), Find(alpha, q.d))
  }

  // the three octets of a group depend on the sextets like this
  lemma OctetA(a: byte, x1: byte)
    requires x1 / 16 == a % 4
    ensures (a / 4 * 4 + x1 / 16 % 4) % 256 == a
  {
  }

  lemma OctetB(b: byte, x1: byte, x2: byte)
    requires x1 % 16 == b / 16 && x2 / 4 == b % 16
    ensures (x1 % 16 * 16 + x2 / 4 % 16) % 256 == b
  {
  }

  lemma OctetC(c: byte, x2: byte)
    requires x2 % 4 == c / 64
    ensures (x2 % 4 * 64 + c % 64) % 256 == c
  {
  }

  // the middle sextets hold the ends of two octets
  lemma SextetParts(t: Three<byte>)
    ensures var x := Sextets(t);
            x.b / 16 == t.a % 4 && x.b % 16 == t.b / 16 && x.c / 4 == t.b % 16 && x.c % 4 == t.c / 64
  {
  }

  lemma SextetsOctets(t: Three<byte>, x2: byte, x3: byte)
    ensures Octets(Sextets(t)) == t
    ensures Octets(Sextets(t).(d := x3)).a == t.a && Octets(Sextets(t).(d := x3)).b == t.b
    ensures Octets(Sextets(t).(c := x2, d := x3)).a == t.a
  {
    var x := Sextets(t);
    SextetParts(t);
    OctetA(t.a, x.b);
    OctetB(t.b, x.b, x.c);
    OctetC(t.c, x.c);
  }

  lemma SextetA(x0: byte, x1: byte, o: byte)
    requires x0 < 64 && x1 < 64 && o == x0 * 4 + x1 / 16
    ensures o / 4 == x0 && o % 4 * 16 == x1 / 16 * 16
  {
  }

  lemma SextetB(x1: byte, x2: byte, o: byte)
    requires x1 < 64 && x2 < 64 && o == x1 % 16 * 16 + x2 / 4
    ensures o / 16 == x1 % 16 && o % 16 * 4 == x2 / 4 * 4
  {
  }

  lemma SextetC(x2: byte, x3: byte, o: byte)
    requires x2 < 64 && x3 < 64 && o == x2 % 4 * 64 + x3
    ensures o / 64 == x2 % 4 && o % 64 == x3
  {
  }

  // octets stay below 256, so nothing is cut off
  lemma OctetValues(x: Four<byte>)
    requires x.a < 64 && x.b < 64 && x.c < 64 && x.d < 64
    ensures Octets(x) == Three(x.a * 4 + x.b / 16, x.b % 16 * 16 + x.c / 4, x.c % 4 * 64 + x.d)
  {
    assert x.b / 16 < 4 && x.c / 4 < 16;
    SmallMod(x.b / 16, 4);
    SmallMod(x.c / 4, 16);
    SmallMod(x.a * 4 + x.b / 16, 256);
    SmallMod(x.b % 16 * 16 + x.c / 4, 256);
    SmallMod(x.c % 4 * 64 + x.d, 256);
  }

  lemma SmallMod(n: nat, m: nat)
    requires n < m
    ensures n % m == n
  {
  }

  lemma OctetsSextets(x: Four<byte>)
    requires x.a < 64 && x.b < 64 && x.c < 64 && x.d < 64
    ensures Sextets(Octets(x)) == x
  {
    OctetValues(x);
    var o := Octets(x);
    SextetA(x.a, x.b, o.a);
    SextetB(x.b, x.c, o.b);
    SextetC(x.c, x.d, o.c);
  }

  lemma OctetsSextetsOnePad(x: Four<byte>)
    requires x.a < 64 && x.b < 64 && x.c < 64 && x.c % 4 == 0
    ensures var y := Sextets(Octets(x).(c := 0)); y.a == x.a && y.b == x.b && y.c == x.c
  {
    var o := Octets(x);
    assert o.a == x.a * 4 + x.b / 16 && o.b == x.b % 16 * 16 + x.c / 4;
    SextetA(x.a, x.b, o.a);
    SextetB(x.b, x.c, o.b);
  }

  lemma OctetsSextetsTwoPads(x: Four<byte>)
    requires x.a < 64 && x.b < 64 && x.b % 16 == 0
    ensures var y := Sextets(Octets(x).(b := 0, c := 0)); y.a == x.a && y.b == x.b
  {
    var o := Octets(x);
    assert o.a == x.a * 4 + x.b / 16;
    SextetA(x.a, x.b, o.a);
  }

  lemma FindLetter(alpha: seq<byte>, i: nat)
    requires Usable(alpha) && i < 64
    ensures Find(alpha, alpha[i]) == i && alpha[i] in alpha
  {
  }

  // looking up the letters of sextets gives the sextets; NUL is no letter
  lemma LookupSextets(alpha: seq<byte>, x: Four<byte>)
    requires Usable(alpha) && x.a < 64 && x.b < 64 && x.c < 64 && x.d < 64
    ensures var q := Four(alpha[x.a], alpha[x.b], alpha[x.c], alpha[x.d]);
            && Lookup(alpha, q) == x && Lookup(alpha, q.(d := 0)) == x.(d := NOT_FOUND)
            && Lookup(alpha, q.(c := 0, d := 0)) == x.(c := NOT_FOUND, d := NOT_FOUND)
  {
    FindLetter(alpha, x.a);
    FindLetter(alpha, x.b);
    FindLetter(alpha, x.c);
    FindLetter(alpha, x.d);
    assert Find(alpha, 0) == NOT_FOUND;
  }

  lemma BytesSurvive(alpha: seq<byte>, t: Three<byte>)
    requires Usable(alpha)
    ensures var q := Quad(alpha, t);
            && Triple(alpha, q) == t
            && Triple(alpha, q.(d := 0)).a == t.a && Triple(alpha, q.(d := 0)).b == t.b
            && Triple(alpha, q.(c := 0, d := 0)).a == t.a
            && Lookup(alpha, q) == Sextets(t)
  {
    var x := Sextets(t);
    LookupSextets(alpha, x);
    SextetsOctets(t, NOT_FOUND, NOT_FOUND);
  }

  lemma SpareBits(t: Three<byte>)
    ensures t.c == 0 ==> Sextets(t).c % 4 == 0
    ensures t.b == 0 ==> Sextets(t).b % 16 == 0
  {
  }

  lemma DecodeLawHolds(c62: byte, t: Three<byte>)
    requires c62 == PLUS || c62 == DASH
    ensures DecodeLaw(CodecOf(c62), t)
  {
    AlphabetUsable(c62);
    BytesSurvive(Alphabet(c62), t);
    SpareBits(t);
  }

  lemma LettersSurvive(alpha: seq<byte>, q: Four<byte>)
    requires |alpha| == 64 && q.a in alpha && q.b in alpha
    ensures var o := Triple(alpha, q);
            && (q.c in alpha && q.d in alpha ==> Quad(alpha, o) == q)
            && (q.c in alpha && Find(alpha, q.c) % 4 == 0 ==>
                  var p := Quad(alpha, o.(c := 0)); p.a == q.a && p.b == q.b && p.c == q.c)
            && (Find(alpha, q.b) % 16 == 0 ==>
                  var p := Quad(alpha, o.(b := 0, c := 0)); p.a == q.a && p.b == q.b)
  {
    var x := Lookup(alpha, q);
    if q.c in alpha && q.d in alpha {
      OctetsSextets(x);
    }
    if q.c in alpha && x.c % 4 == 0 {
      OctetsSextetsOnePad(x);
    }
    if x.b % 16 == 0 {
      OctetsSextetsTwoPads(x);
    }
  }

  lemma EncodeLawHolds(c62: byte, q: Four<byte>)
    requires c62 == PLUS || c62 == DASH
    ensures EncodeLaw(CodecOf(c62), q)
  {
    AlphabetUsable(c62);
    if IsBase64(c62, q.a) && IsBase64(c62, q.b) {
      LettersSurvive(Alphabet(c62), q);
    }
  }

  lemma LawsHold(c62: byte)
    requires c62 == PLUS || c62 == DASH
    ensures Laws(CodecOf(c62))
  {
    var c := CodecOf(c62);
    forall t: Three<byte>
      ensures DecodeLaw(c, t)
    {
      DecodeLawHolds(c62, t);
    }
    forall q: Four<byte>
      ensures EncodeLaw(c, q)
    {
      EncodeLawHolds(c62, q);
    }
  }

  // ----- the standard's definition -----

  // the value of a letter in table 1 of the standard, and in table 2 for the first extra character
  function ValueOf(c62: byte, c: byte): nat {
    var letter := c as char;
    if 'A' <= letter <= 'Z' then letter as int - 'A' as int
    else if 'a' <= letter <= 'z' then 26 + (letter as int - 'a' as int)
    else if '0' <= letter <= '9' then 52 + (letter as int - '0' as int)
    else if c == c62 then 62
    else 63
  }

  lemma LetterValue(c62: byte, i: nat)
    requires (c62 == PLUS || c62 == DASH) && i < 64
    ensures ValueOf(c62, Alphabet(c62)[i]) == i && IsBase64(c62, Alphabet(c62)[i])
  {
  }

  lemma SextetNumber(t: Three<byte>)
    ensures var x := Sextets(t);
            262144 * x.a + 4096 * x.b + 64 * x.c + x.d == 65536 * t.a + 256 * t.b + t.c
  {
  }

  // three bytes are a number of 24 bits, and the values of their four letters are its digits to the base 64, the
  // highest first
  lemma GroupNumber(c62: byte, a: byte, b: byte, c: byte, rest: seq<byte>)
    requires c62 == '+' as int || c62 == '-' as int
    ensures var s := Encoded(CodecOf(c62), [a, b, c] + rest);
            && |s| >= 4 && s[4..] == Encoded(CodecOf(c62), rest)
            && 262144 * ValueOf(c62, s[0]) + 4096 * ValueOf(c62, s[1]) + 64 * ValueOf(c62, s[2]) +
               ValueOf(c62, s[3]) == 65536 * a + 256 * b + c
  {
    assert ([a, b, c] + rest)[3..] == rest;
    GroupValues(c62, Three(a, b, c));
  }

  // the bits that are missing behind the last one or two bytes are zero
  lemma TailNumber(c62: byte, a: byte, b: byte)
    requires c62 == '+' as int || c62 == '-' as int
    ensures var s := Encoded(CodecOf(c62), [a, b]);
            && |s| == 4 && s[3] == '=' as int
            && 4096 * ValueOf(c62, s[0]) + 64 * ValueOf(c62, s[1]) + ValueOf(c62, s[2]) == 4 * (256 * a + b)
    ensures var s := Encoded(CodecOf(c62), [a]);
            && |s| == 4 && s[2] == s[3] == '=' as int
            && 64 * ValueOf(c62, s[0]) + ValueOf(c62, s[1]) == 16 * a
  {
    GroupValues(c62, Three(a, b, 0));
    GroupValues(c62, Three(a, 0, 0));
  }

  lemma GroupValues(c62: byte, t: Three<byte>)
    requires c62 == PLUS || c62 == DASH
    ensures var q, x := CodecOf(c62).quad(t), Sextets(t);
            && ValueOf(c62, q.a) == x.a && ValueOf(c62, q.b) == x.b
            && ValueOf(c62, q.c) == x.c && ValueOf(c62, q.d) == x.d
            && 262144 * x.a + 4096 * x.b + 64 * x.c + x.d == 65536 * t.a + 256 * t.b + t.c
  {
    var x := Sextets(t);
    LetterValue(c62, x.a);
    LetterValue(c62, x.b);
    LetterValue(c62, x.c);
    LetterValue(c62, x.d);
    SextetNumber(t);
  }

  // ----- the program's loops -----

  // what the encoding loop knows of the codec it implements
  ghost predicate Writes(c: Codec<byte, byte>, c62: byte) {
    && c.zero == 0 && c.pad == PAD
    && forall t: Three<byte> {:trigger WritesGroup(c, c62, t)} :: WritesGroup(c, c62, t)
  }

  predicate WritesGroup(c: Codec<byte, byte>, c62: byte, t: Three<byte>) {
    c.quad(t) == Quad(Alphabet(c62), t)
  }

  // the four assignments to char_array_4, then the first n letters
  method EncodeGroup(c62: byte, a3: array<byte>, a4: array<byte>, n: nat, ghost c: Codec<byte,
                     byte>) returns (ret: seq<byte>)
    requires a3.Length == 3 && a4.Length == 4 && a3 != a4 && n <= 4 && Writes(c, c62)
    modifies a4
    ensures ret == Letters(c.quad(Three(a3[0], a3[1], a3[2])))[..n]
  {
    var alpha := Alphabet(c62);
    var x := Sextets(Three(a3[0], a3[1], a3[2]));
    assert WritesGroup(c, c62, Three(a3[0], a3[1], a3[2]));
    a4[0], a4[1], a4[2], a4[3] := x.a, x.b, x.c, x.d;
    ret := [];
    for j := 0 to n
      invariant a4[0] == x.a && a4[1] == x.b && a4[2] == x.c && a4[3] == x.d
      invariant ret == [alpha[x.a], alpha[x.b], alpha[x.c], alpha[x.d]][..j]
    {
      ret := ret + [alpha[a4[j]]];
    }
  }

  method Encode(c62: byte, bytes: seq<byte>) returns (ret: seq<byte>)
    ensures ret == Encoded(CodecOf(c62), bytes)
  {
    ret := EncodeLoop(c62, bytes, CodecOf(c62));
  }

  method EncodeLoop(c62: byte, bytes: seq<byte>, ghost c: Codec<byte, byte>) returns (ret: seq<byte>)
    requires Writes(c, c62)
    ensures ret == Encoded(c, bytes)
  {
    ret := [];
    var a3, a4 := new byte[3](_ => 0), new byte[4](_ => 0);
    var i, k := 0, 0;
    ghost var whole, left := Encoded(c, bytes), Encoded(c, bytes);
    while k < |bytes|
      invariant 0 <= i < 3 && i <= k <= |bytes|
      invariant (i > 0 ==> a3[0] == bytes[k - i]) && (i > 1 ==> a3[1] == bytes[k - 1])
      invariant left == Encoded(c, bytes[k - i..]) && ret + left == whole
    {
      var group, j := FeedByte(c62, bytes[k], a3, a4, i, c);
      if i == 2 {
        ghost var next := Encoded(c, bytes[k + 1..]);
        EncodedStep(c, bytes, k - 2);
        Regroup(ret, group, next, left, whole);
        ret, left := ret + group, next;
      }
      i, k := j, k + 1;
    }
    if i != 0 {
      var tail := EncodeTail(c62, a3, a4, i, bytes[k - i..], c);
      ret := ret + tail;
    }
  }

  // one byte goes into char_array_3; the third one completes a group
  method FeedByte(c62: byte, b: byte, a3: array<byte>, a4: array<byte>, i: nat, ghost c: Codec<byte, byte>)
    returns (group: seq<byte>, j: nat)
    requires a3.Length == 3 && a4.Length == 4 && a3 != a4 && i < 3 && Writes(c, c62)
    modifies a3, a4
    ensures i < 2 ==> j == i + 1 && a3[i] == b && forall m :: 0 <= m < i ==> a3[m] == old(a3[m])
    ensures i == 2 ==> j == 0 && group == Letters(c.quad(Three(old(a3[0]), old(a3[1]), b)))
  {
    a3[i] := b;
    group, j := [], i + 1;
    if j == 3 {
      group := EncodeGroup(c62, a3, a4, 4, c);
      j := 0;
    }
  }

  // one or two bytes are left in char_array_3
  method EncodeTail(c62: byte, a3: array<byte>, a4: array<byte>, i: nat, ghost rest: seq<byte>, ghost c: Codec<byte,
                    byte>)
    returns (ret: seq<byte>)
    requires a3.Length == 3 && a4.Length == 4 && a3 != a4 && 1 <= i <= 2 && Writes(c, c62)
    requires |rest| == i && a3[0] == rest[0] && (i == 2 ==> a3[1] == rest[1])
    modifies a3, a4
    ensures ret == Encoded(c, rest)
  {
    for j := i to 3
      invariant a3[0] == rest[0] && (i == 2 ==> a3[1] == rest[1])
      invariant forall m :: i <= m < j ==> a3[m] == 0
    {
      a3[j] := 0;
    }
    ret := EncodeGroup(c62, a3, a4, i + 1, c);
    var k := i;
    ghost var q := c.quad(Three(a3[0], a3[1], a3[2]));
    while k < 3
      invariant i <= k <= 3
      invariant ret == Letters(q)[..i + 1] + [PAD, PAD][..k - i]
    {
      ret := ret + [PAD];
      k := k + 1;
    }
  }

  // what the decoding loop knows of the codec it implements
  ghost predicate Reads(c: Codec<byte, byte>, c62: byte) {
    c.nul == 0 && forall q: Four<byte> {:trigger ReadsGroup(c, c62, q)} :: ReadsGroup(c, c62, q)
  }

  predicate ReadsGroup(c: Codec<byte, byte>, c62: byte, q: Four<byte>) {
    c.triple(q) == Triple(Alphabet(c62), q)
  }

  // looks the four characters up in place, then the three assignments to char_array_3
  method DecodeGroup(c62: byte, a4: array<byte>, a3: array<byte>, n: nat, ghost c: Codec<byte,
                     byte>) returns (ret: seq<byte>)
    requires a3.Length == 3 && a4.Length == 4 && a3 != a4 && n <= 3 && Reads(c, c62)
    modifies a4, a3
    ensures var t := c.triple(Four(old(a4[0]), old(a4[1]), old(a4[2]), old(a4[3])));
            ret == [t.a, t.b, t.c][..n]
  {
    ghost var q := Four(a4[0], a4[1], a4[2], a4[3]);
    FindAll(Alphabet(c62), a4);
    var t := Octets(Four(a4[0], a4[1], a4[2], a4[3]));
    assert ReadsGroup(c, c62, q);
    a3[0], a3[1], a3[2] := t.a, t.b, t.c;
    ret := [];
    for j := 0 to n
      invariant a3[0] == t.a && a3[1] == t.b && a3[2] == t.c
      invariant ret == [t.a, t.b, t.c][..j]
    {
      ret := ret + [a3[j]];
    }
  }

  method FindAll(alpha: seq<byte>, a4: array<byte>)
    requires a4.Length == 4 && |alpha| == 64
    modifies a4
    ensures Four(a4[0], a4[1], a4[2], a4[3])
            == Lookup(alpha, Four(old(a4[0]), old(a4[1]), old(a4[2]), old(a4[3])))
  {
    for j := 0 to 4
      invariant forall m :: 0 <= m < j ==> a4[m] == Find(alpha, old(a4[m]))
      invariant forall m :: j <= m < 4 ==> a4[m] == old(a4[m])
    {
      a4[j] := Find(alpha, a4[j]);
    }
  }

  // v is what the loop condition lets through
  predicate IsTextOf(c62: byte, s: seq<byte>, v: seq<byte>) {
    && v <= s
    && (forall p :: 0 <= p < |v| ==> v[p] != PAD && IsBase64(c62, v[p]))
    && (|v| < |s| ==> s[|v|] == PAD || !IsBase64(c62, s[|v|]))
  }

  method Decode(c62: byte, s: seq<byte>) returns (ret: seq<byte>)
    ensures ret == Decoded(CodecOf(c62), s)
  {
    ghost var c := CodecOf(c62);
    ghost var v := Text(c, s);
    TextEnds(c, s, |v|);
    ret := DecodeLoop(c62, s, v, c);
  }

  method DecodeLoop(c62: byte, s: seq<byte>, ghost v: seq<byte>, ghost c: Codec<byte, byte>) returns (ret: seq<byte>)
    requires IsTextOf(c62, s, v) && Reads(c, c62)
    ensures ret == DecodedText(c, v)
  {
    ret := [];
    var a4, a3 := new byte[4](_ => 0), new byte[3](_ => 0);
    var i, k := 0, 0;
    ghost var whole, left := DecodedText(c, v), DecodedText(c, v);
    while k < |s| && s[k] != PAD && IsBase64(c62, s[k])
      invariant 0 <= i < 4 && i <= k <= |v|
      invariant (i > 0 ==> a4[0] == v[k - i]) && (i > 1 ==> a4[1] == v[k - i + 1]) && (i > 2 ==> a4[2] == v[k - 1])
      invariant left == DecodedText(c, v[k - i..]) && ret + left == whole
      decreases |s| - k
    {
      assert s[k] == v[k];
      var group, j := Feed(c62, s[k], a4, a3, i, c);
      if i == 3 {
        ghost var next := DecodedText(c, v[k + 1..]);
        DecodedStep(c, v, k - 3);
        Regroup(ret, group, next, left, whole);
        ret, left := ret + group, next;
      }
      i, k := j, k + 1;
    }
    if i != 0 {
      var tail := DecodeTail(c62, a4, a3, i, v[k - i..], c);
      ret := ret + tail;
    }
  }

  lemma Regroup(done: seq<byte>, group: seq<byte>, next: seq<byte>, left: seq<byte>, whole: seq<byte>)
    requires left == group + next && done + left == whole
    ensures (done + group) + next == whole
  {
  }

  // one character goes into char_array_4; the fourth one completes a group
  method Feed(c62: byte, ch: byte, a4: array<byte>, a3: array<byte>, i: nat, ghost c: Codec<byte, byte>)
    returns (group: seq<byte>, j: nat)
    requires a3.Length == 3 && a4.Length == 4 && a3 != a4 && i < 4 && Reads(c, c62)
    modifies a4, a3
    ensures i < 3 ==> j == i + 1 && a4[i] == ch && forall m :: 0 <= m < i ==> a4[m] == old(a4[m])
    ensures i == 3 ==> j == 0
    ensures var t := c.triple(Four(old(a4[0]), old(a4[1]), old(a4[2]), ch));
            i == 3 ==> group == [t.a, t.b, t.c]
  {
    a4[i] := ch;
    group, j := [], i + 1;
    if j == 4 {
      group := DecodeGroup(c62, a4, a3, 3, c);
      j := 0;
    }
  }

  // one, two or three characters are left in char_array_4
  method DecodeTail(c62: byte, a4: array<byte>, a3: array<byte>, i: nat, ghost rest: seq<byte>, ghost c: Codec<byte,
                    byte>)
    returns (ret: seq<byte>)
    requires a3.Length == 3 && a4.Length == 4 && a3 != a4 && 1 <= i <= 3 && Reads(c, c62)
    requires |rest| == i && a4[0] == rest[0] && (i > 1 ==> a4[1] == rest[1]) && (i > 2 ==> a4[2] == rest[2])
    modifies a3, a4
    ensures ret == DecodedText(c, rest)
  {
    for j := i to 4
      invariant a4[0] == rest[0] && (i > 1 ==> a4[1] == rest[1]) && (i > 2 ==> a4[2] == rest[2])
      invariant forall m :: i <= m < j ==> a4[m] == 0
    {
      a4[j] := 0;
    }
    ret := DecodeGroup(c62, a4, a3, i - 1, c);
  }

  // ----- the codec laws for both alphabets -----

  // base64_decode(base64_encode(b)) == b, although the tail looks up NUL and stores npos;
  // the output has 4 * ceil(n / 3) characters; a text is a fixed point exactly when it is canonical
  lemma Base64RoundTrip(c62: byte, b: seq<byte>, s: seq<byte>)
    requires c62 == PLUS || c62 == DASH
    ensures Decoded(CodecOf(c62), Encoded(CodecOf(c62), b)) == b
    ensures |Encoded(CodecOf(c62), b)| == 4 * ((|b| + 2) / 3)
    ensures Encoded(CodecOf(c62), Decoded(CodecOf(c62), s)) == s <==> Canonical(CodecOf(c62), s)
  {
    LawsHold(c62);
    DecodeEncode(CodecOf(c62), b);
    EncodedShape(CodecOf(c62), b);
    CanonicalIffFixed(CodecOf(c62), s);
  }

  // ----- the XOR/reverse wrapper -----

  // the mask used for encryption: the number itself is a non-negative int
  function SealMask(key: byte): byte {
    key % 32
  }

  // the mask used for decryption: the key is read back through a signed char, and the remainder
  // of a negative number is negative; only its low eight bits matter
  function OpenMask(key: byte): byte {
    if key < 128 then key % 32 else (256 - (256 - key) % 32) % 256
  }

  function Masked(s: seq<byte>, mask: byte): (r: seq<byte>)
    ensures |r| == |s|
  {
    seq(|s|, i requires 0 <= i < |s| => XorByte(s[i], mask))
  }

  // the bytes are reversed and masked, and the key itself goes last
  function Sealed(key: byte, s: seq<byte>): seq<byte> {
    Masked(Reversed(s), SealMask(key)) + [key]
  }

  function Opened(d: seq<byte>): seq<byte>
    requires d != []
  {
    Reversed(Masked(d[..|d| - 1], OpenMask(d[|d| - 1])))
  }

  // the bytes from the last to the first, every bit of each changed where the mask has one, then the key
  lemma SealedBits(key: byte, s: seq<byte>, i: nat, k: nat)
    requires i < |s|
    ensures |Sealed(key, s)| == |s| + 1 && Sealed(key, s)[|s|] == key
    ensures Bit(Sealed(key, s)[i], k) == (Bit(s[|s| - 1 - i], k) + Bit(key % 32, k)) % 2
  {
    XorBit(s[|s| - 1 - i], key % 32, k);
  }

  // the remainder by 32 of the key as a signed char, with the sign of the key
  predicate SignedRemainder(key: byte, quotient: int, remainder: int) {
    var signed := if key < 128 then key as int else key - 256;
    && signed == 32 * quotient + remainder && -32 < remainder < 32
    && (signed >= 0 ==> remainder >= 0) && (signed <= 0 ==> remainder <= 0)
  }

  lemma OpenMaskIs(key: byte, quotient: int, remainder: int)
    requires SignedRemainder(key, quotient, remainder)
    ensures OpenMask(key) == remainder % 256
  {
    if key >= 128 {
      DivisionIs(256 - key, -quotient, -remainder);
    } else {
      DivisionIs(key, quotient, remainder);
    }
  }

  lemma DivisionIs(n: nat, q: int, r: int)
    requires n == 32 * q + r && 0 <= r < 32
    ensures n % 32 == r
  {
  }

  // opening goes the other way: every bit changed where the low byte of that remainder has one, from the last byte
  // in front of the key to the first
  lemma OpenedBits(d: seq<byte>, quotient: int, remainder: int, i: nat, k: nat)
    requires d != [] && i < |d| - 1 && SignedRemainder(d[|d| - 1], quotient, remainder)
    ensures |Opened(d)| == |d| - 1
    ensures Bit(Opened(d)[i], k) == (Bit(d[|d| - 2 - i], k) + Bit(remainder % 256, k)) % 2
  {
    OpenMaskIs(d[|d| - 1], quotient, remainder);
    XorBit(d[|d| - 2 - i], remainder % 256, k);
  }

  method Encrypt(c62: byte, key: byte, s: seq<byte>) returns (r: seq<byte>)
    ensures r == Encoded(CodecOf(c62), Sealed(key, s))
  {
    var reversed := Reversed(s);
    var final := [];
    for i := 0 to |reversed|
      invariant final == Masked(reversed, SealMask(key))[..i]
    {
      final := final + [XorByte(reversed[i], SealMask(key))];
    }
    assert final == Masked(reversed, SealMask(key));
    r := Encode(c62, final + [key]);
  }

  // std::string::at throws on an empty decoded string
  method Decrypt(c62: byte, t: seq<byte>) returns (ok: bool, r: seq<byte>)
    ensures ok <==> Decoded(CodecOf(c62), t) != []
    ensures ok ==> r == Opened(Decoded(CodecOf(c62), t))
  {
    var d := Decode(c62, t);
    if d == [] {
      return false, [];
    }
    var mask := OpenMask(d[|d| - 1]);
    var final := [];
    for i := 0 to |d| - 1
      invariant final == Masked(d[..|d| - 1], mask)[..i]
    {
      final := final + [XorByte(d[i], mask)];
    }
    assert final == Masked(d[..|d| - 1], mask);
    return true, Reversed(final);
  }

  lemma MasksAgree(key: byte)
    ensures SealMask(key) == OpenMask(key) <==> key < 128 || key % 32 == 0
  {
    if key >= 128 {
      assert (256 - key) % 32 == (32 - key % 32) % 32;
    }
  }

  lemma MaskedTwice(s: seq<byte>, a: byte, b: byte)
    ensures Masked(Masked(s, a), b) == s <==> a == b || s == []
  {
    if a == b {
      forall i | 0 <= i < |s|
        ensures Masked(Masked(s, a), b)[i] == s[i]
      {
        XorTwice(s[i], a);
      }
    } else if s != [] && Masked(Masked(s, a), b) == s {
      assert Masked(Masked(s, a), b)[0] == s[0];
      var x := Xor(s[0], a);
      XorTwice(x, b);
      assert x == Xor(s[0], b);
      XorInjective(s[0], a, b);
    }
  }

  // every byte string comes back, whatever bytes the mask produces, exactly when the key is a
  // non-negative char or a multiple of 32; the program's key is 20
  lemma OpenSealed(key: byte, s: seq<byte>)
    ensures Opened(Sealed(key, s)) == s <==> key < 128 || key % 32 == 0 || s == []
  {
    var m := Masked(Reversed(s), SealMask(key));
    assert (m + [key])[..|m|] == m;
    MaskedTwice(Reversed(s), SealMask(key), OpenMask(key));
    MasksAgree(key);
    assert Reversed(Reversed(s)) == s;
    if Opened(Sealed(key, s)) == s {
      assert Reversed(Opened(Sealed(key, s))) == Masked(m, OpenMask(key));
    }
  }

  lemma DecryptEncrypt(c62: byte, key: byte, s: seq<byte>)
    requires c62 == PLUS || c62 == DASH
    ensures var d := Decoded(CodecOf(c62), Encoded(CodecOf(c62), Sealed(key, s)));
            d != [] && (Opened(d) == s <==> key < 128 || key % 32 == 0 || s == [])
  {
    Base64RoundTrip(c62, Sealed(key, s), []);
    OpenSealed(key, s);
  }
}

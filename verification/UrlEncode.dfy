/**
  url_encode and url_decode: percent-encoding with the unreserved characters of section 2.3 of
  RFC 3986, and '+' for a blank.  A C string is its bytes, none of them NUL, followed by the NUL.
*/
module UrlEncode {
  import opened Bytes

  predicate Unreserved(c: byte) {
    48 <= c <= 57 || 65 <= c <= 90 || 97 <= c <= 122 || c == 45 || c == 95 || c == 46 || c == 126
  }

  const BLANK: byte := 32
  const PLUS: byte := 43
  const PERCENT: byte := 37

  predicate NulFree(s: seq<byte>) {
    forall i :: 0 <= i < |s| ==> s[i] != 0
  }

  // "0123456789ABCDEF"[code & 15]
  function ToHex(code: byte): byte {
    var d := code % 16;
    if d < 10 then 48 + d else 55 + d
  }

  // digits, else the lower-cased character less 'a' plus 10, in eight bits
  function FromHex(c: byte): byte {
    if 48 <= c <= 57 then c - 48
    else ((if 65 <= c <= 90 then c + 32 else c) + 169) % 256
  }

  // from_hex(a) << 4 | from_hex(b), in eight bits
  function Pair(a: byte, b: byte): (r: byte) {
    Or(FromHex(a) * 16 % 256, FromHex(b)) % 256
  }

  function EncodedChar(c: byte): seq<byte> {
    if Unreserved(c) then [c] else if c == BLANK then [PLUS] else [PERCENT, ToHex(c / 16), ToHex(c % 16)]
  }

  function Encoded(s: seq<byte>): seq<byte> {
    if s == [] then [] else EncodedChar(s[0]) + Encoded(s[1..])
  }

  // a percent sign without two characters behind it is dropped
  function Decoded(t: seq<byte>): (r: seq<byte>)
    ensures |r| <= |t|
  {
    if t == [] then []
    else if t[0] == PERCENT then
      if |t| >= 3 then [Pair(t[1], t[2])] + Decoded(t[3..]) else Decoded(t[1..])
    else [if t[0] == PLUS then BLANK else t[0]] + Decoded(t[1..])
  }

  // std::string(buf): up to the first NUL
  function Visible(s: seq<byte>): (r: seq<byte>)
    ensures NulFree(s) ==> r == s
  {
    if s == [] || s[0] == 0 then [] else [s[0]] + Visible(s[1..])
  }

  // ----- round trip -----

  lemma HexDigits(d: byte)
    requires d < 16
    ensures FromHex(ToHex(d)) == d && ToHex(d) != 0
  {
  }

  lemma PairOfHex(c: byte)
    ensures Pair(ToHex(c / 16), ToHex(c % 16)) == c
  {
    HexDigits(c / 16);
    HexDigits(c % 16);
    Nibbles(c / 16, c % 16);
  }

  lemma Nibbles(a: nat, b: nat)
    requires a < 16 && b < 16
    ensures Or(a * 16 % 256, b) % 256 == 16 * a + b
  {
    var four := 4;
    assert Power2(four) == 16;
    OrDisjoint(a, b, four);
    assert a * 16 % 256 == a * Power2(four);
  }

  lemma CharDecodes(c: byte, rest: seq<byte>)
    ensures Decoded(EncodedChar(c) + rest) == [c] + Decoded(rest)
  {
    var t := EncodedChar(c) + rest;
    if Unreserved(c) || c == BLANK {
      assert t[1..] == rest;
    } else {
      PairOfHex(c);
      assert t[3..] == rest;
    }
  }

  lemma {:induction false} DecodeEncode(s: seq<byte>)
    ensures Decoded(Encoded(s)) == s
  {
    if s != [] {
      CharDecodes(s[0], Encoded(s[1..]));
      DecodeEncode(s[1..]);
    }
  }

  // at most three characters for one, none of them NUL
  lemma {:induction false} EncodedFits(s: seq<byte>)
    ensures |s| <= |Encoded(s)| <= 3 * |s|
    ensures NulFree(s) ==> NulFree(Encoded(s))
  {
    if s != [] {
      EncodedFits(s[1..]);
      var a, b := EncodedChar(s[0]), Encoded(s[1..]);
      if NulFree(s) {
        assert s[0] != 0 && (forall i :: 0 <= i < |s[1..]| ==> s[1..][i] == s[i + 1]);
        HexDigits(s[0] / 16);
        HexDigits(s[0] % 16);
        assert forall i :: 0 <= i < |a + b| ==> (a + b)[i] == if i < |a| then a[i] else b[i - |a|];
      }
    }
  }

  // url_decode(url_encode(s)) for every C string
  lemma UrlRoundTrip(s: seq<byte>)
    requires NulFree(s)
    ensures Visible(Decoded(Visible(Encoded(s)))) == s
  {
    EncodedFits(s);
    DecodeEncode(s);
  }

  // ----- the form of an encoded text -----

  // the characters that stand for themselves: ALPHA, DIGIT, "-", ".", "_" and "~"
  predicate StandsForItself(c: char) {
    'A' <= c <= 'Z' || 'a' <= c <= 'z' || '0' <= c <= '9' || c in "-._~"
  }

  // the value of a hexadecimal digit, in upper or lower case
  function HexValue(c: char): int {
    if '0' <= c <= '9' then c as int - '0' as int
    else if 'A' <= c <= 'F' then c as int - 'A' as int + 10
    else if 'a' <= c <= 'f' then c as int - 'a' as int + 10
    else -1
  }

  // one byte and the rest: itself, a plus sign for a blank, or '%' and its value in two upper-case digits
  lemma EncodedForm(c: byte, rest: seq<byte>)
    ensures var t, tail := Encoded([c] + rest), Encoded(rest);
            if StandsForItself(c as char) then t == [c] + tail
            else if c as char == ' ' then t == ['+' as int] + tail
            else
              && |t| == |tail| + 3 && t[3..] == tail && t[0] == '%' as int
              && 16 * HexValue(t[1] as char) + HexValue(t[2] as char) == c
              && t[1] as char < 'a' && t[2] as char < 'a'
              && 0 <= HexValue(t[1] as char) < 16 && 0 <= HexValue(t[2] as char) < 16
  {
    assert ([c] + rest)[1..] == rest;
    HexForm(c / 16);
    HexForm(c % 16);
  }

  lemma HexForm(d: byte)
    requires d < 16
    ensures HexValue(ToHex(d) as char) == d && ToHex(d) < 'a' as int
  {
  }

  lemma HexRead(c: byte)
    requires HexValue(c as char) >= 0
    ensures FromHex(c) == HexValue(c as char) < 16
  {
  }

  // '%' and two digits of either case are read as their value, '+' as a blank, any other character as itself
  lemma DecodedForm(c: byte, h: byte, l: byte, rest: seq<byte>)
    ensures c as char != '%' ==>
              Decoded([c] + rest) == [if c as char == '+' then ' ' as int else c] + Decoded(rest)
    ensures HexValue(h as char) >= 0 && HexValue(l as char) >= 0 ==>
              Decoded(['%' as int, h, l] + rest) == [16 * HexValue(h as char) + HexValue(l as char)] + Decoded(rest)
  {
    assert ([c] + rest)[1..] == rest && (['%' as int, h, l] + rest)[3..] == rest;
    if HexValue(h as char) >= 0 && HexValue(l as char) >= 0 {
      HexRead(h);
      HexRead(l);
      Nibbles(FromHex(h), FromHex(l));
    }
  }

  // ----- the program's loops -----

  // writes through a pointer into a buffer
  method Write(buf: array<byte>, at: nat, bytes: seq<byte>, ghost done: seq<byte>)
    requires at + |bytes| <= buf.Length && buf[..at] == done
    modifies buf
    ensures buf[..at + |bytes|] == done + bytes
  {
    forall i | 0 <= i < |bytes| {
      buf[at + i] := bytes[i];
    }
    assert buf[..at + |bytes|] == buf[..at] + buf[at..at + |bytes|];
    assert buf[..at] == done && buf[at..at + |bytes|] == bytes;
  }

  // a C string: its text, then the NUL
  predicate IsCString(str: seq<byte>) {
    str != [] && str[|str| - 1] == 0 && NulFree(str[..|str| - 1])
  }

  function TextOf(str: seq<byte>): seq<byte>
    requires IsCString(str)
  {
    str[..|str| - 1]
  }

  lemma EndOfText(str: seq<byte>, p: nat)
    requires IsCString(str) && p < |str|
    ensures str[p] == 0 <==> p == |TextOf(str)|
    ensures p < |TextOf(str)| ==> TextOf(str)[p] == str[p]
  {
    assert p < |TextOf(str)| ==> TextOf(str)[p] == str[p];
  }

  // done ++ bytes ++ after is the whole again
  lemma Advance(done: seq<byte>, bytes: seq<byte>, after: seq<byte>, left: seq<byte>, whole: seq<byte>)
    requires done + left == whole && left == bytes + after
    ensures (done + bytes) + after == whole
  {
  }

  // the buffer has 3 * strlen + 1 bytes
  method UrlEncode(str: seq<byte>) returns (r: seq<byte>)
    requires IsCString(str)
    ensures r == Visible(Encoded(TextOf(str)))
  {
    ghost var text := TextOf(str);
    var buf := new byte[3 * (|str| - 1) + 1](_ => 0);
    var p, q := 0, 0;
    ghost var done, left, whole := [], Encoded(text), Encoded(text);
    assert text[0..] == text;
    while str[p] != 0
      invariant 0 <= p <= |text| && q == |done| && q <= 3 * p && buf[..q] == done
      invariant left == Encoded(text[p..]) && done + left == whole
      decreases |str| - p
    {
      EndOfText(str, p);
      var bytes := EncodedChar(str[p]);
      ghost var after := Encoded(text[p + 1..]);
      assert text[p..][1..] == text[p + 1..];
      Advance(done, bytes, after, left, whole);
      Write(buf, q, bytes, done);
      done, left := done + bytes, after;
      p, q := p + 1, q + |bytes|;
    }
    EndOfText(str, p);
    assert left == [] && done == whole;
    buf[q] := 0;
    assert buf[..q] == done;
    r := Visible(buf[..q]);
  }

  // one turn of the decoding loop; it looks at most at the terminator
  method TakeChar(str: seq<byte>, p: nat) returns (bytes: seq<byte>, next: nat)
    requires IsCString(str) && p < |TextOf(str)|
    ensures p < next <= |TextOf(str)| && |bytes| <= 1
    ensures Decoded(TextOf(str)[p..]) == bytes + Decoded(TextOf(str)[next..])
  {
    ghost var text := TextOf(str);
    ghost var rest := text[p..];
    EndOfText(str, p);
    next := p + 1;
    if str[p] == PERCENT {
      EndOfText(str, p + 1);
      bytes := [];
      if str[p + 1] != 0 && str[p + 2] != 0 {
        EndOfText(str, p + 2);
        bytes := [Pair(str[p + 1], str[p + 2])];
        next := p + 3;
        assert rest[3..] == text[next..];
      } else {
        if str[p + 1] != 0 {
          EndOfText(str, p + 2);
        }
        assert rest[1..] == text[next..];
      }
    } else {
      bytes := [if str[p] == PLUS then BLANK else str[p]];
      assert rest[1..] == text[next..];
    }
  }

  // the buffer has strlen + 1 bytes
  method UrlDecode(str: seq<byte>) returns (r: seq<byte>)
    requires IsCString(str)
    ensures r == Visible(Decoded(TextOf(str)))
  {
    ghost var text := TextOf(str);
    var buf := new byte[|str|](_ => 0);
    var p, q := 0, 0;
    ghost var done, left, whole := [], Decoded(text), Decoded(text);
    assert text[0..] == text;
    while str[p] != 0
      invariant 0 <= p <= |text| && q == |done| && q <= p && buf[..q] == done
      invariant left == Decoded(text[p..]) && done + left == whole
      decreases |str| - p
    {
      EndOfText(str, p);
      var bytes, next := TakeChar(str, p);
      ghost var after := Decoded(text[next..]);
      Advance(done, bytes, after, left, whole);
      Write(buf, q, bytes, done);
      done, left := done + bytes, after;
      p, q := next, q + |bytes|;
    }
    EndOfText(str, p);
    assert left == [] && done == whole;
    buf[q] := 0;
    assert buf[..q] == done;
    r := Visible(buf[..q]);
  }
}

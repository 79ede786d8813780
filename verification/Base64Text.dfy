/**
  The text level of Base64: groups of three bytes to groups of four letters, padding, and decoding up
  to the first character that is not a letter.  What a group means is a parameter; the laws a group
  codec must obey are `Laws`.
*/
module Base64Text {

  datatype Three<B> = Three(a: B, b: B, c: B)
  datatype Four<L> = Four(a: L, b: L, c: L, d: L)

  // `zero` fills up the last bytes, `nul` the missing letters; `spare2` and `spare4` hold of the
  // letters whose lowest two or four bits are zero
  datatype Codec<!B, !L> = Codec(letter: L -> bool, quad: Three<B> -> Four<L>, triple: Four<L> -> Three<B>,
                                 zero: B, nul: L, pad: L, spare2: L -> bool, spare4: L -> bool)

  // bytes survive encoding, also when the last one or two slots of the group are missing
  predicate DecodeLaw<B(==), L>(c: Codec<B, L>, t: Three<B>) {
    var q := c.quad(t);
    && c.letter(q.a) && c.letter(q.b) && c.letter(q.c) && c.letter(q.d)
    && c.triple(q) == t
    && c.triple(q.(d := c.nul)).a == t.a && c.triple(q.(d := c.nul)).b == t.b
    && c.triple(q.(c := c.nul, d := c.nul)).a == t.a
    && (t.c == c.zero ==> c.spare2(q.c))
    && (t.b == c.zero ==> c.spare4(q.b))
  }

  // letters survive decoding, and so do padded groups whose unused bits are zero
  predicate EncodeLaw<B, L(==)>(c: Codec<B, L>, q: Four<L>) {
    c.letter(q.a) && c.letter(q.b) ==>
      var t := c.triple(q);
      && (c.letter(q.c) && c.letter(q.d) ==> c.quad(t) == q)
      && (c.letter(q.c) && c.spare2(q.c) ==>
            var p := c.quad(t.(c := c.zero)); p.a == q.a && p.b == q.b && p.c == q.c)
      && (c.spare4(q.b) ==>
            var p := c.quad(t.(b := c.zero, c := c.zero)); p.a == q.a && p.b == q.b)
  }

  ghost predicate Laws<B(!new), L(!new)>(c: Codec<B, L>) {
    && !c.letter(c.pad)
    && (forall t: Three<B> {:trigger DecodeLaw(c, t)} :: DecodeLaw(c, t))
    && (forall q: Four<L> {:trigger EncodeLaw(c, q)} :: EncodeLaw(c, q))
  }

  // ----- specifications: RFC 4648, section 4 -----

  function Letters<L>(q: Four<L>): seq<L> {
    [q.a, q.b, q.c, q.d]
  }

  function Encoded<B, L>(c: Codec<B, L>, b: seq<B>): seq<L> {
    if |b| == 0 then []
    else if |b| == 1 then var q := c.quad(Three(b[0], c.zero, c.zero)); [q.a, q.b, c.pad, c.pad]
    else if |b| == 2 then var q := c.quad(Three(b[0], b[1], c.zero)); [q.a, q.b, q.c, c.pad]
    else Letters(c.quad(Three(b[0], b[1], b[2]))) + Encoded(c, b[3..])
  }

  // what decode reads: everything before the first pad or foreign character
  function Text<B, L(==)>(c: Codec<B, L>, s: seq<L>): (r: seq<L>)
    ensures r <= s && forall k :: 0 <= k < |r| ==> c.letter(r[k]) && r[k] != c.pad
  {
    if s == [] || s[0] == c.pad || !c.letter(s[0]) then [] else [s[0]] + Text(c, s[1..])
  }

  // groups of four, then a tail of one, two or three letters with NUL in the missing slots
  function DecodedText<B, L>(c: Codec<B, L>, v: seq<L>): seq<B> {
    if |v| <= 1 then []
    else if |v| == 2 then [c.triple(Four(v[0], v[1], c.nul, c.nul)).a]
    else if |v| == 3 then var t := c.triple(Four(v[0], v[1], v[2], c.nul)); [t.a, t.b]
    else var t := c.triple(Four(v[0], v[1], v[2], v[3])); [t.a, t.b, t.c] + DecodedText(c, v[4..])
  }

  function Decoded<B, L(==)>(c: Codec<B, L>, s: seq<L>): seq<B> {
    DecodedText(c, Text(c, s))
  }

  // full groups of letters, then possibly one padded group whose unused bits are zero (section 3.5)
  predicate Canonical<B, L(==)>(c: Codec<B, L>, s: seq<L>) {
    s == [] ||
    (&& |s| >= 4 && c.letter(s[0]) && c.letter(s[1])
     && if s[3] != c.pad then c.letter(s[2]) && c.letter(s[3]) && Canonical(c, s[4..])
        else |s| == 4 && if s[2] != c.pad then c.letter(s[2]) && c.spare2(s[2]) else c.spare4(s[1]))
  }

  // ----- round trips -----

  // the text of letters followed by anything is the letters and the text of the rest
  lemma {:induction false} TextOf<B, L>(c: Codec<B, L>, v: seq<L>, rest: seq<L>)
    requires (forall k :: 0 <= k < |v| ==> c.letter(v[k])) && !c.letter(c.pad)
    ensures Text(c, v + rest) == v + Text(c, rest)
  {
    if v == [] {
      assert v + rest == rest;
    } else {
      assert (v + rest)[1..] == v[1..] + rest;
      TextOf(c, v[1..], rest);
    }
  }

  // one or two bytes: two or three letters, whose missing slots decode looks up as NUL
  lemma TailDecodes<B(!new), L(!new)>(c: Codec<B, L>, b: seq<B>)
    requires Laws(c) && 1 <= |b| <= 2
    ensures Decoded(c, Encoded(c, b)) == b
  {
    var t := Three(b[0], if |b| == 2 then b[1] else c.zero, c.zero);
    assert DecodeLaw(c, t);
    var q := c.quad(t);
    var v, pads := Letters(q)[..|b| + 1], if |b| == 1 then [c.pad, c.pad] else [c.pad];
    assert Encoded(c, b) == v + pads;
    TextOf(c, v, pads);
    assert Text(c, v + pads) == v;
  }

  lemma GroupDecodes<B(!new), L(!new)>(c: Codec<B, L>, t: Three<B>, rest: seq<L>)
    requires Laws(c)
    ensures Decoded(c, Letters(c.quad(t)) + rest) == [t.a, t.b, t.c] + Decoded(c, rest)
  {
    assert DecodeLaw(c, t);
    var q := c.quad(t);
    var v := Letters(q);
    TextOf(c, v, rest);
    assert (v + Text(c, rest))[4..] == Text(c, rest);
    assert Four(q.a, q.b, q.c, q.d) == q;
  }

  // decoding undoes encoding
  lemma {:induction false} DecodeEncode<B(!new), L(!new)>(c: Codec<B, L>, b: seq<B>)
    requires Laws(c)
    ensures Decoded(c, Encoded(c, b)) == b
  {
    if |b| == 0 {
    } else if |b| < 3 {
      TailDecodes(c, b);
    } else {
      GroupDecodes(c, Three(b[0], b[1], b[2]), Encoded(c, b[3..]));
      DecodeEncode(c, b[3..]);
      assert b == [b[0], b[1], b[2]] + b[3..];
    }
  }

  lemma GroupCanonical<B(!new), L(!new)>(c: Codec<B, L>, t: Three<B>, rest: seq<L>)
    requires Laws(c) && Canonical(c, rest)
    ensures Canonical(c, Letters(c.quad(t)) + rest)
  {
    assert DecodeLaw(c, t);
    assert (Letters(c.quad(t)) + rest)[4..] == rest;
  }

  // length 4 * ceil(n / 3), letters, and pads only at the end
  lemma {:induction false} EncodedShape<B(!new), L(!new)>(c: Codec<B, L>, b: seq<B>)
    requires Laws(c)
    ensures |Encoded(c, b)| == 4 * ((|b| + 2) / 3)
    ensures Canonical(c, Encoded(c, b))
  {
    if |b| == 1 {
      assert DecodeLaw(c, Three(b[0], c.zero, c.zero));
    } else if |b| == 2 {
      assert DecodeLaw(c, Three(b[0], b[1], c.zero));
    } else if |b| >= 3 {
      EncodedShape(c, b[3..]);
      GroupCanonical(c, Three(b[0], b[1], b[2]), Encoded(c, b[3..]));
    }
  }

  lemma PadEncodes<B(!new), L(!new)>(c: Codec<B, L>, s: seq<L>)
    requires Laws(c) && |s| == 4 && s[3] == c.pad && Canonical(c, s)
    ensures Encoded(c, Decoded(c, s)) == s
  {
    var n := if s[2] == c.pad then 2 else 3;
    var q := Four(s[0], s[1], if n == 3 then s[2] else c.nul, c.nul);
    assert EncodeLaw(c, q);
    var t := c.triple(q);
    TextOf(c, s[..n], s[n..]);
    assert s[..n] + s[n..] == s;
    assert Text(c, s) == s[..n];
    assert Decoded(c, s) == [t.a, t.b, t.c][..n - 1];
    assert t.(c := c.zero) == Three(t.a, t.b, c.zero);
    assert t.(b := c.zero, c := c.zero) == Three(t.a, c.zero, c.zero);
  }

  lemma GroupEncodes<B(!new), L(!new)>(c: Codec<B, L>, q: Four<L>, rest: seq<L>)
    requires Laws(c) && c.letter(q.a) && c.letter(q.b) && c.letter(q.c) && c.letter(q.d)
    ensures Encoded(c, Decoded(c, Letters(q) + rest)) == Letters(q) + Encoded(c, Decoded(c, rest))
  {
    assert EncodeLaw(c, q);
    var v, t := Letters(q), c.triple(q);
    TextOf(c, v, rest);
    assert (v + Text(c, rest))[4..] == Text(c, rest);
    assert Four(q.a, q.b, q.c, q.d) == q && Three(t.a, t.b, t.c) == t;
    assert ([t.a, t.b, t.c] + Decoded(c, rest))[3..] == Decoded(c, rest);
  }

  lemma {:induction false} EncodeDecode<B(!new), L(!new)>(c: Codec<B, L>, s: seq<L>)
    requires Laws(c) && Canonical(c, s)
    ensures Encoded(c, Decoded(c, s)) == s
  {
    if s == [] {
    } else if s[3] != c.pad {
      var q := Four(s[0], s[1], s[2], s[3]);
      assert s == Letters(q) + s[4..];
      GroupEncodes(c, q, s[4..]);
      EncodeDecode(c, s[4..]);
    } else {
      PadEncodes(c, s);
    }
  }

  // re-encoding gives the text back exactly for the canonical texts
  lemma CanonicalIffFixed<B(!new), L(!new)>(c: Codec<B, L>, s: seq<L>)
    requires Laws(c)
    ensures Encoded(c, Decoded(c, s)) == s <==> Canonical(c, s)
  {
    if Canonical(c, s) {
      EncodeDecode(c, s);
    } else {
      EncodedShape(c, Decoded(c, s));
    }
  }

  // ----- one group at a time, for the loops -----

  lemma EncodedStep<B, L>(c: Codec<B, L>, b: seq<B>, m: nat)
    requires m + 3 <= |b|
    ensures Encoded(c, b[m..]) == Letters(c.quad(Three(b[m], b[m + 1], b[m + 2]))) + Encoded(c, b[m + 3..])
  {
    assert b[m..][3..] == b[m + 3..];
  }

  lemma DecodedStep<B, L>(c: Codec<B, L>, v: seq<L>, m: nat)
    requires m + 4 <= |v|
    ensures var t := c.triple(Four(v[m], v[m + 1], v[m + 2], v[m + 3]));
            DecodedText(c, v[m..]) == [t.a, t.b, t.c] + DecodedText(c, v[m + 4..])
  {
    assert v[m..][4..] == v[m + 4..];
  }

  // the loop condition of decode holds exactly inside the text
  lemma {:induction false} TextEnds<B, L>(c: Codec<B, L>, s: seq<L>, p: nat)
    requires p <= |Text(c, s)|
    ensures p < |Text(c, s)| <==> p < |s| && s[p] != c.pad && c.letter(s[p])
    ensures p < |Text(c, s)| ==> Text(c, s)[p] == s[p]
  {
    if p > 0 {
      TextEnds(c, s[1..], p - 1);
    }
  }
}

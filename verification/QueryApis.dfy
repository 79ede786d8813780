/**
  BdxGetServerUrlAPI: the value of URLS cut by two nested strtok_r loops, at ';' and inside at ',', every
  fifth token closing an API entry.

  Positions are absolute in the line buffer. A token is a span of positions, as the pointer array of the
  program refers to it; its text is what the buffer held there before the cutting.
*/
module QueryApis {
  import opened CText
  import opened Conf

  // ----- tokens -----

  // which positions hold a separator
  type Sep = nat -> bool

  datatype Span = Span(b: nat, e: nat)

  function Start(sep: Sep, lo: nat, hi: nat): (r: nat)
    requires lo <= hi
    ensures lo <= r <= hi && (r < hi ==> !sep(r))
    decreases hi - lo
  {
    if lo < hi && sep(lo) then Start(sep, lo + 1, hi) else lo
  }

  function End(sep: Sep, lo: nat, hi: nat): (r: nat)
    requires lo <= hi
    ensures lo <= r <= hi && (lo < hi && !sep(lo) ==> lo < r)
    decreases hi - lo
  {
    if lo < hi && !sep(lo) then End(sep, lo + 1, hi) else lo
  }

  // the longest runs without a separator, from left to right
  function Spans(sep: Sep, lo: nat, hi: nat): seq<Span>
    requires lo <= hi
    decreases hi - lo
  {
    var b := Start(sep, lo, hi);
    if b == hi then [] else [Span(b, End(sep, b, hi))] + Spans(sep, End(sep, b, hi), hi)
  }

  lemma {:induction false} StartIs(sep: Sep, lo: nat, hi: nat, r: nat)
    requires lo <= r <= hi && (forall i :: lo <= i < r ==> sep(i)) && (r < hi ==> !sep(r))
    ensures Start(sep, lo, hi) == r
    decreases r - lo
  {
    if lo < r {
      StartIs(sep, lo + 1, hi, r);
    }
  }

  lemma {:induction false} EndIs(sep: Sep, lo: nat, hi: nat, r: nat)
    requires lo <= r <= hi && (forall i :: lo <= i < r ==> !sep(i)) && (r < hi ==> sep(r))
    ensures End(sep, lo, hi) == r
    decreases r - lo
  {
    if lo < r {
      EndIs(sep, lo + 1, hi, r);
    }
  }

  lemma {:induction false} StartEndFind(sep: Sep, lo: nat, hi: nat)
    requires lo <= hi
    ensures forall i :: lo <= i < Start(sep, lo, hi) ==> sep(i)
    ensures forall i :: lo <= i < End(sep, lo, hi) ==> !sep(i)
    ensures End(sep, lo, hi) < hi ==> sep(End(sep, lo, hi))
    decreases hi - lo
  {
    if lo < hi {
      StartEndFind(sep, lo + 1, hi);
    }
  }

  // separators in front do not matter
  lemma SkipSeparators(sep: Sep, lo: nat, m: nat, hi: nat)
    requires lo <= m <= hi && forall i :: lo <= i < m ==> sep(i)
    ensures Spans(sep, lo, hi) == Spans(sep, m, hi)
  {
    var b := Start(sep, m, hi);
    StartEndFind(sep, m, hi);
    StartIs(sep, lo, hi, b);
  }

  // a run up to a separator is the first token
  lemma FirstToken(sep: Sep, lo: nat, m: nat, hi: nat)
    requires lo < m <= hi && (forall i :: lo <= i < m ==> !sep(i)) && (m < hi ==> sep(m))
    ensures Spans(sep, lo, hi) == [Span(lo, m)] + Spans(sep, m, hi)
  {
    StartIs(sep, lo, hi, lo);
    EndIs(sep, lo, hi, m);
  }

  lemma Associate(first: Span, more: seq<Span>, rest: seq<Span>)
    ensures [first] + (more + rest) == ([first] + more) + rest
  {
  }

  // cutting at a separator
  lemma {:induction false} SpansSplit(sep: Sep, lo: nat, m: nat, hi: nat)
    requires lo <= m <= hi && (m < hi ==> sep(m))
    ensures Spans(sep, lo, hi) == Spans(sep, lo, m) + Spans(sep, m, hi)
    decreases m - lo
  {
    var b := Start(sep, lo, m);
    StartEndFind(sep, lo, m);
    SkipSeparators(sep, lo, b, hi);
    if b < m {
      var e := End(sep, b, m);
      StartEndFind(sep, b, m);
      FirstToken(sep, b, e, hi);
      SpansSplit(sep, e, m, hi);
      Associate(Span(b, e), Spans(sep, e, m), Spans(sep, m, hi));
    }
  }

  // only the separators between lo and hi matter
  lemma {:induction false} SpansAgree(sep: Sep, sep': Sep, lo: nat, hi: nat)
    requires lo <= hi && forall i :: lo <= i < hi ==> sep(i) == sep'(i)
    ensures Spans(sep, lo, hi) == Spans(sep', lo, hi)
    decreases hi - lo
  {
    var b := Start(sep, lo, hi);
    StartEndFind(sep, lo, hi);
    StartIs(sep', lo, hi, b);
    if b < hi {
      var e := End(sep, b, hi);
      StartEndFind(sep, b, hi);
      EndIs(sep', b, hi, e);
      SpansAgree(sep, sep', e, hi);
    }
  }

  // the next run without a separator
  ghost predicate FirstSpan(sep: Sep, lo: nat, hi: nat, span: Span) {
    && lo <= span.b < span.e <= hi && (span.e < hi ==> sep(span.e))
    && (forall i :: lo <= i < span.b ==> sep(i)) && (forall i :: span.b <= i < span.e ==> !sep(i))
  }

  ghost predicate NoSpan(sep: Sep, lo: nat, hi: nat) {
    lo <= hi && forall i :: lo <= i < hi ==> sep(i)
  }

  // the position behind the terminator
  function Behind(e: nat, hi: nat): nat {
    if e < hi then e + 1 else e
  }

  lemma SpansFirst(sep: Sep, lo: nat, hi: nat, span: Span)
    requires FirstSpan(sep, lo, hi, span)
    ensures Spans(sep, lo, hi) == [span] + Spans(sep, Behind(span.e, hi), hi)
  {
    SkipSeparators(sep, lo, span.b, hi);
    FirstToken(sep, span.b, span.e, hi);
    SkipSeparators(sep, span.e, Behind(span.e, hi), hi);
  }

  lemma SpansNone(sep: Sep, lo: nat, hi: nat)
    requires NoSpan(sep, lo, hi)
    ensures Spans(sep, lo, hi) == []
  {
    SkipSeparators(sep, lo, hi, hi);
  }

  // the two loops together: the tokens at either separator are those at the inner one inside the next
  // piece of the outer one, and then the rest
  lemma NestedIsFlat(outer: Sep, inner: Sep, either: Sep, lo: nat, hi: nat, piece: Span)
    requires FirstSpan(outer, lo, hi, piece)
    requires forall i :: lo <= i < hi ==> (either(i) <==> outer(i) || inner(i))
    ensures Spans(either, lo, hi) == Spans(inner, piece.b, piece.e) + Spans(either, Behind(piece.e, hi), hi)
  {
    SkipSeparators(either, lo, piece.b, hi);
    SpansSplit(either, piece.b, piece.e, hi);
    SpansAgree(either, inner, piece.b, piece.e);
    SkipSeparators(either, piece.e, Behind(piece.e, hi), hi);
  }

  // tokens need a separator between them
  lemma {:induction false} SpanCount(sep: Sep, lo: nat, hi: nat)
    requires lo <= hi
    ensures 2 * |Spans(sep, lo, hi)| <= hi - lo + 1
    decreases hi - lo
  {
    var b := Start(sep, lo, hi);
    if b < hi {
      var e := End(sep, b, hi);
      StartEndFind(sep, b, hi);
      if e < hi {
        SkipSeparators(sep, e, e + 1, hi);
        SpanCount(sep, e + 1, hi);
      }
    }
  }

  // ----- entries -----

  datatype Api = Api(param: string, province: int, carrier: string, limits: int)
  type Apis = map<string, Api>

  const PARAM_WIDTH: nat := 128
  const CARRIER_WIDTH: nat := 8

  // what a field of n bytes keeps of a text
  function Clip(s: string, n: nat): string {
    if |s| <= n then s else s[..n]
  }

  function ApiOf(param: string, province: string, carrier: string, limits: string): Api {
    Api(Clip(param, PARAM_WIDTH), Atol(province), Clip(carrier, CARRIER_WIDTH), Atol(limits))
  }

  // which tokens close an entry
  type Closing = nat -> bool

  function Fifth(): Closing {
    (n: nat) => n % 5 == 4
  }

  // the map after these tokens, the first of which opens an entry
  function Registered(closes: Closing, fields: seq<string>, apis: Apis): Apis {
    if fields == [] then apis
    else
      var n := |fields| - 1;
      var before := Registered(closes, fields[..n], apis);
      if n >= 4 && closes(n) then before[fields[n - 4] := ApiOf(fields[n - 3], fields[n - 2], fields[n - 1], fields[n])]
      else before
  }

  function TextOf(text: seq<char>, span: Span): string {
    if span.b <= span.e <= |text| then text[span.b..span.e] else ""
  }

  function Texts(text: seq<char>, spans: seq<Span>): seq<string> {
    seq(|spans|, (j: nat) requires j < |spans| => TextOf(text, spans[j]))
  }

  // where the tokens start, which is all that the pointer array keeps of them
  function Begins(spans: seq<Span>): (starts: seq<nat>)
    ensures |starts| == |spans| && forall j :: 0 <= j < |spans| ==> starts[j] == spans[j].b
  {
    seq(|spans|, (j: nat) requires j < |spans| => spans[j].b)
  }

  // the fixed widths are copied from inside the line buffer
  predicate ReadableAt(starts: seq<nat>, j: nat)
    requires 4 <= j < |starts|
  {
    starts[j - 3] + PARAM_WIDTH <= PACKET && starts[j - 1] + CARRIER_WIDTH <= PACKET
  }

  ghost predicate Readable(starts: seq<nat>) {
    forall j :: 4 <= j < |starts| && j % 5 == 4 ==> ReadableAt(starts, j)
  }

  // the pointer array, with its closing null, and the copies stay inside their buffers
  ghost predicate Fits(starts: seq<nat>) {
    |starts| < PACKET && Readable(starts)
  }

  lemma FitsPrefix(starts: seq<nat>, all: seq<nat>)
    requires starts <= all
    ensures Fits(all) ==> Fits(starts)
  {
    if Fits(all) {
      forall j | 4 <= j < |starts| && j % 5 == 4
        ensures ReadableAt(starts, j)
      {
        assert ReadableAt(all, j);
      }
    }
  }

  // ... for the last token, if it closes an entry
  predicate LastReadable(starts: seq<nat>)
    requires starts != []
  {
    var n := |starts| - 1;
    n % 5 == 4 ==> n >= 4 && ReadableAt(starts, n)
  }

  lemma LastReadableIs(starts: seq<nat>, index: nat)
    requires |starts| == index + 1
    ensures index % 5 == 4 ==> index >= 4 && LastReadable(starts) == ReadableAt(starts, index)
    ensures index % 5 != 4 ==> LastReadable(starts)
  {
  }

  lemma FitsSnoc(starts: seq<nat>, start: nat)
    requires Fits(starts)
    ensures Fits(starts + [start]) <==> |starts| + 1 < PACKET && LastReadable(starts + [start])
  {
    var all := starts + [start];
    forall j | 4 <= j < |starts| && j % 5 == 4
      ensures ReadableAt(all, j)
    {
      assert ReadableAt(starts, j);
    }
  }

  // ----- strtok_r in place -----

  function SepOf(text: seq<char>, c: char): Sep {
    (i: nat) => i < |text| && text[i] == c
  }

  function EitherOf(text: seq<char>): Sep {
    (i: nat) => i < |text| && (text[i] == ';' || text[i] == ',')
  }

  // from cur to the terminator at hi the buffer still is the original text
  ghost predicate Uncut(a: seq<char>, text: seq<char>, cur: nat, hi: nat) {
    && |text| == |a| && cur <= hi < |a| && a[hi] == '\0'
    && forall i :: cur <= i < hi ==> a[i] == text[i] && text[i] != '\0'
  }

  // sep marks the positions of the character
  ghost predicate Marks(sep: Sep, text: seq<char>, c: char) {
    forall i :: 0 <= i < |text| ==> (sep(i) <==> text[i] == c)
  }

  // one call: the next token is terminated in place, -1 for none
  method Strtok(a: array<char>, cur: nat, delim: char, ghost hi: nat, ghost text: seq<char>, ghost sep: Sep)
      returns (tok: int, next: nat, ghost span: Span)
    requires Uncut(a[..], text, cur, hi) && delim != '\0' && Marks(sep, text, delim)
    modifies a
    ensures tok == -1 ==> NoSpan(sep, cur, hi) && next == hi && a[..] == old(a[..])
    ensures tok != -1 ==> FirstSpan(sep, cur, hi, span) && tok == span.b && next == Behind(span.e, hi)
    ensures tok != -1 ==> a[span.e] == '\0' && forall i :: 0 <= i < a.Length && i != span.e ==> a[i] == old(a[i])
  {
    var p := cur;
    while a[p] == delim
      invariant cur <= p <= hi && forall i :: cur <= i < p ==> sep(i)
      decreases a.Length - p
    {
      p := p + 1;
    }
    if a[p] == '\0' {
      return -1, p, Span(p, p);
    }
    var q := p;
    while a[q] != '\0' && a[q] != delim
      invariant p <= q <= hi && forall i :: p <= i < q ==> !sep(i)
      decreases a.Length - q
    {
      q := q + 1;
    }
    if a[q] == '\0' {
      return p, q, Span(p, q);
    }
    a[q] := '\0';
    return p, q + 1, Span(p, q);
  }

  // ----- the token array -----

  // the token still stands in the buffer, in front of cur
  ghost predicate SpanHeld(a: seq<char>, text: seq<char>, span: Span, cur: nat) {
    && span.b < span.e <= cur && span.e < |a| == |text| && a[span.e] == '\0'
    && forall i :: span.b <= i < span.e ==> a[i] == text[i] && text[i] != '\0'
  }

  ghost predicate AllHeld(a: seq<char>, text: seq<char>, spans: seq<Span>, cur: nat) {
    forall j :: 0 <= j < |spans| ==> SpanHeld(a, text, spans[j], cur)
  }

  // the pointers taken so far, each to a position of the buffer
  ghost predicate Pointers(temp: array<int>, starts: seq<nat>)
    reads temp
  {
    && temp.Length == PACKET && |starts| <= PACKET
    && forall k :: 0 <= k < |starts| ==> temp[k] == starts[k] && starts[k] < PACKET
  }

  lemma {:induction false} CStrIs(s: string, n: nat)
    requires n < |s| && s[n] == '\0' && forall i :: 0 <= i < n ==> s[i] != '\0'
    ensures CStr(s) == s[..n]
  {
    if n > 0 {
      CStrIs(s[1..], n - 1);
      assert s[..n] == [s[0]] + s[1..][..n - 1];
    }
  }

  lemma HeldText(a: seq<char>, text: seq<char>, span: Span, cur: nat)
    requires SpanHeld(a, text, span, cur)
    ensures CStr(a[span.b..]) == TextOf(text, span)
  {
    var n := span.e - span.b;
    var s := a[span.b..];
    CStrIs(s, n);
    assert s[..n] == text[span.b..span.e];
  }

  // the C string at a position of the buffer
  function Reader(buffer: seq<char>): nat -> string {
    (at: nat) => if at <= |buffer| then CStr(buffer[at..]) else ""
  }

  function RegisteredAt(read: nat -> string, url: nat, param: nat, province: nat, carrier: nat, limits: nat, apis: Apis)
    : Apis
  {
    apis[read(url) := ApiOf(read(param), read(province), read(carrier), read(limits))]
  }

  lemma TextsSnoc(text: seq<char>, spans: seq<Span>, span: Span)
    ensures Texts(text, spans + [span]) == Texts(text, spans) + [TextOf(text, span)]
    ensures Texts(text, spans + [span])[..|spans|] == Texts(text, spans)
  {
  }

  // the buffer still reads as these tokens
  ghost predicate Reads(read: nat -> string, text: seq<char>, spans: seq<Span>) {
    forall j :: 0 <= j < |spans| ==> read(spans[j].b) == TextOf(text, spans[j])
  }

  lemma HeldReads(a: seq<char>, text: seq<char>, spans: seq<Span>, cur: nat)
    requires AllHeld(a, text, spans, cur)
    ensures Reads(Reader(a), text, spans)
  {
    forall j | 0 <= j < |spans|
      ensures Reader(a)(spans[j].b) == TextOf(text, spans[j])
    {
      assert SpanHeld(a, text, spans[j], cur);
      HeldText(a, text, spans[j], cur);
    }
  }

  lemma FifthField(closes: Closing, fields: seq<string>, n: nat, apis: Apis)
    requires |fields| == n + 1 && n >= 4 && closes(n)
    ensures Registered(closes, fields, apis) == Registered(closes, fields[..n], apis)[
              fields[n - 4] := ApiOf(fields[n - 3], fields[n - 2], fields[n - 1], fields[n])]
  {
  }

  // fewer than five tokens register nothing
  lemma {:induction false} FewFields(closes: Closing, fields: seq<string>, apis: Apis)
    requires |fields| < 5
    ensures Registered(closes, fields, apis) == apis
  {
    if fields != [] {
      FewFields(closes, fields[..|fields| - 1], apis);
    }
  }

  // between five and five nothing is registered
  lemma OtherField(closes: Closing, fields: seq<string>, field: string, apis: Apis)
    requires !closes(|fields|)
    ensures Registered(closes, fields + [field], apis) == Registered(closes, fields, apis)
  {
    assert (fields + [field])[..|fields|] == fields;
  }

  // the last five fields are read from the last five pointers
  ghost predicate LastFive(read: nat -> string, fields: seq<string>, starts: seq<nat>) {
    && |fields| >= 5 && |starts| >= 5
    && forall i :: |fields| - 5 <= i < |fields| ==> fields[i] == read(starts[i - |fields| + |starts|])
  }

  // the entry read through the last five pointers
  function RegisteredLast(read: nat -> string, starts: seq<nat>, apis: Apis): Apis
    requires |starts| >= 5
  {
    var k := |starts| - 1;
    RegisteredAt(read, starts[k - 4], starts[k - 3], starts[k - 2], starts[k - 1], starts[k], apis)
  }

  lemma LastFiveRegister(closes: Closing, read: nat -> string, fields: seq<string>, field: string, starts: seq<nat>,
                         apis: Apis, before: Apis)
    requires LastFive(read, fields + [field], starts) && closes(|fields|)
    requires before == Registered(closes, fields, apis)
    ensures Registered(closes, fields + [field], apis) == RegisteredLast(read, starts, before)
  {
    var all, n, k := fields + [field], |fields|, |starts| - 1;
    assert all[..n] == fields;
    FifthField(closes, all, n, apis);
    EntryRead(read, starts[k - 4], starts[k - 3], starts[k - 2], starts[k - 1], starts[k],
              all[n - 4], all[n - 3], all[n - 2], all[n - 1], all[n], before);
  }

  lemma EntryRead(read: nat -> string, url: nat, param: nat, province: nat, carrier: nat, limits: nat,
                  a: string, b: string, c: string, d: string, e: string, apis: Apis)
    requires read(url) == a && read(param) == b && read(province) == c && read(carrier) == d && read(limits) == e
    ensures RegisteredAt(read, url, param, province, carrier, limits, apis) == apis[a := ApiOf(b, c, d, e)]
  {
  }

  // ----- one line behind others -----

  // a line before it is cut: its text, the pointers taken from earlier lines, how many of them belong to a
  // broken entry, and the map so far
  datatype Cutting = Cutting(text: seq<char>, starts: seq<nat>, broken: nat, apis: Apis)

  function StartsOf(g: Cutting, spans: seq<Span>): seq<nat> {
    g.starts + Begins(spans)
  }

  // the tokens that an entry begun in the earlier lines already has
  function Begun(starts: seq<nat>): nat {
    |starts| % 5
  }

  // the map after the tokens `done`: those of the line itself, behind what the buffer held at the pointers of
  // the broken entry when that entry was closed
  ghost predicate Described(closes: Closing, g: Cutting, done: seq<Span>, apis: Apis, before: seq<string>) {
    |before| == g.broken && apis == Registered(closes, before + Texts(g.text, done), g.apis)
  }

  // a token that closes no entry
  lemma DescribedOther(closes: Closing, g: Cutting, done: seq<Span>, span: Span, apis: Apis, before: seq<string>)
    requires Described(closes, g, done, apis, before) && !closes(|before| + |done|)
    ensures Described(closes, g, done + [span], apis, before)
  {
    FieldsSnoc(g.text, before, done, span);
    OtherField(closes, before + Texts(g.text, done), TextOf(g.text, span), g.apis);
  }

  lemma FieldsSnoc(text: seq<char>, before: seq<string>, done: seq<Span>, span: Span)
    ensures before + Texts(text, done + [span]) == (before + Texts(text, done)) + [TextOf(text, span)]
  {
    TextsSnoc(text, done, span);
  }

  // a token that closes an entry begun in this line
  lemma OwnFive(read: nat -> string, g: Cutting, spans: seq<Span>, before: seq<string>)
    requires Reads(read, g.text, spans) && |spans| >= 5
    ensures LastFive(read, before + Texts(g.text, spans), StartsOf(g, spans))
  {
    var fields, starts := before + Texts(g.text, spans), StartsOf(g, spans);
    forall i | |fields| - 5 <= i < |fields|
      ensures fields[i] == read(starts[i - |fields| + |starts|])
    {
      var j := i - |before|;
      assert fields[i] == TextOf(g.text, spans[j]) && starts[i - |fields| + |starts|] == spans[j].b;
    }
  }

  // what the buffer holds at the pointers of the broken entry
  function FieldsHeld(read: nat -> string, starts: seq<nat>, broken: nat): (fields: seq<string>)
    requires broken <= |starts|
    ensures |fields| == broken
  {
    seq(broken, (i: nat) requires i < broken => read(starts[|starts| - broken + i]))
  }

  // a token that closes the broken entry
  lemma BrokenFive(read: nat -> string, g: Cutting, spans: seq<Span>)
    requires Reads(read, g.text, spans) && g.broken + |spans| == 5 && g.broken <= |g.starts|
    ensures LastFive(read, FieldsHeld(read, g.starts, g.broken) + Texts(g.text, spans), StartsOf(g, spans))
  {
    var before := FieldsHeld(read, g.starts, g.broken);
    var fields, starts := before + Texts(g.text, spans), StartsOf(g, spans);
    forall i | 0 <= i < 5
      ensures fields[i] == read(starts[i - 5 + |starts|])
    {
      if i < |before| {
        assert fields[i] == before[i] && starts[i - 5 + |starts|] == g.starts[|g.starts| - |before| + i];
      } else {
        var j := i - |before|;
        assert fields[i] == TextOf(g.text, spans[j]) && starts[i - 5 + |starts|] == spans[j].b;
      }
    }
  }

  // before the first entry is closed it does not matter what the broken one has
  lemma DescribedBefore(closes: Closing, g: Cutting, done: seq<Span>, apis: Apis, before: seq<string>,
                        before': seq<string>)
    requires Described(closes, g, done, apis, before) && |before'| == |before| && |before| + |done| < 5
    ensures Described(closes, g, done, apis, before')
  {
    FewFields(closes, before + Texts(g.text, done), g.apis);
    FewFields(closes, before' + Texts(g.text, done), g.apis);
  }

  lemma DescribedFifth(closes: Closing, read: nat -> string, g: Cutting, done: seq<Span>, span: Span, apis: Apis,
                       before: seq<string>)
    requires Described(closes, g, done, apis, before) && closes(|before| + |done|)
    requires LastFive(read, before + Texts(g.text, done + [span]), StartsOf(g, done + [span]))
    ensures Described(closes, g, done + [span], RegisteredLast(read, StartsOf(g, done + [span]), apis), before)
  {
    var fields, field := before + Texts(g.text, done), TextOf(g.text, span);
    TextsSnoc(g.text, done, span);
    assert before + Texts(g.text, done + [span]) == fields + [field];
    LastFiveRegister(closes, read, fields, field, StartsOf(g, done + [span]), g.apis, apis);
  }

  // the index in the pointer array and the place behind the broken entry close the same entries
  lemma SameTurn(g: Cutting, n: nat, index: nat)
    requires index == |g.starts| + n && g.broken == Begun(g.starts)
    ensures ClosesAt(Fifth(), index % 5 == 4, index, g.broken, n) && g.broken <= |g.starts|
  {
  }

  ghost predicate ClosesAt(closes: Closing, closing: bool, index: nat, broken: nat, n: nat) {
    && closing == closes(broken + n)
    && (closing ==> index >= 4 && (n < 4 ==> broken + n == 4))
  }

  lemma LastPointers(temp: array<int>, starts: seq<nat>, index: nat)
    requires Pointers(temp, starts) && |starts| == index + 1 >= 5
    ensures temp[index - 4] == starts[index - 4] && temp[index - 3] == starts[index - 3]
    ensures temp[index - 2] == starts[index - 2] && temp[index - 1] == starts[index - 1]
    ensures temp[index] == starts[index]
  {
  }

  // the token that closes an entry: the copies of fixed width, and the new map entry
  method CloseEntry(ghost closes: Closing, a: array<char>, temp: array<int>, index: nat, apis: Apis,
                    ghost g: Cutting, ghost done: seq<Span>, ghost span: Span, ghost cur: nat,
                    ghost before: seq<string>)
      returns (readable: bool, apis': Apis, ghost before': seq<string>)
    requires Closed(a[..]) && AllHeld(a[..], g.text, done + [span], cur)
    requires Pointers(temp, StartsOf(g, done + [span])) && index == |g.starts| + |done| >= 4
    requires Described(closes, g, done, apis, before) && closes(g.broken + |done|) && g.broken <= |g.starts|
    requires |done| < 4 ==> g.broken + |done| == 4
    ensures readable == ReadableAt(StartsOf(g, done + [span]), index)
    ensures Described(closes, g, done + [span], apis', before')
  {
    ghost var read, starts := Reader(a[..]), StartsOf(g, done + [span]);
    HeldReads(a[..], g.text, done + [span], cur);
    before' := DescribedClosed(closes, read, g, done, span, apis, before);
    readable, apis' := ReadEntry(Reader(a[..]), temp, index, apis, starts);
  }

  method ReadEntry(read: nat -> string, temp: array<int>, index: nat, apis: Apis, ghost starts: seq<nat>)
      returns (readable: bool, apis': Apis)
    requires Pointers(temp, starts) && |starts| == index + 1 >= 5
    ensures readable == ReadableAt(starts, index)
    ensures apis' == RegisteredLast(read, starts, apis)
  {
    LastPointers(temp, starts, index);
    var url, param, province, carrier, limits :=
      temp[index - 4], temp[index - 3], temp[index - 2], temp[index - 1], temp[index];
    readable := param + PARAM_WIDTH <= PACKET && carrier + CARRIER_WIDTH <= PACKET;
    apis' := RegisteredAt(read, url, param, province, carrier, limits, apis);
  }

  lemma DescribedClosed(closes: Closing, read: nat -> string, g: Cutting, done: seq<Span>, span: Span, apis: Apis,
                        before: seq<string>)
      returns (before': seq<string>)
    requires Reads(read, g.text, done + [span]) && |StartsOf(g, done + [span])| >= 5
    requires Described(closes, g, done, apis, before) && closes(g.broken + |done|) && g.broken <= |g.starts|
    requires |done| < 4 ==> g.broken + |done| == 4
    ensures Described(closes, g, done + [span], RegisteredLast(read, StartsOf(g, done + [span]), apis), before')
  {
    if |done| >= 4 {
      before' := before;
      OwnFive(read, g, done + [span], before);
    } else {
      before' := FieldsHeld(read, g.starts, g.broken);
      BrokenFive(read, g, done + [span]);
      DescribedBefore(closes, g, done, apis, before, before');
    }
    DescribedFifth(closes, read, g, done, span, apis, before');
  }

  // the body of the inner loop
  method TakeToken(closing: bool, ghost closes: Closing, a: array<char>, tok: nat, temp: array<int>, index: nat,
                   apis: Apis, ghost g: Cutting, ghost done: seq<Span>, ghost span: Span, ghost cur: nat,
                   ghost before: seq<string>)
      returns (readable: bool, apis': Apis, ghost before': seq<string>)
    requires Closed(a[..]) && AllHeld(a[..], g.text, done + [span], cur) && span.b == tok < PACKET
    requires Pointers(temp, StartsOf(g, done)) && index == |g.starts| + |done| < PACKET
    requires Described(closes, g, done, apis, before) && ClosesAt(closes, closing, index, g.broken, |done|)
    requires g.broken <= |g.starts|
    modifies temp
    ensures Pointers(temp, StartsOf(g, done + [span]))
    ensures readable == (closing ==> ReadableAt(StartsOf(g, done + [span]), index))
    ensures Described(closes, g, done + [span], apis', before')
  {
    temp[index] := tok;
    StartsSnoc(g, done, span);
    if closing {
      readable, apis', before' := CloseEntry(closes, a, temp, index, apis, g, done, span, cur, before);
    } else {
      DescribedOther(closes, g, done, span, apis, before);
      readable, apis', before' := true, apis, before;
    }
  }

  lemma StartsSnoc(g: Cutting, done: seq<Span>, span: Span)
    ensures StartsOf(g, done + [span]) == StartsOf(g, done) + [span.b]
  {
  }

  // cutting behind cur leaves the tokens in front of it alone, and makes the piece a text of its own
  lemma CutKeeps(a: seq<char>, a': seq<char>, text: seq<char>, done: seq<Span>, cur: nat, span: Span, hi: nat)
    requires Uncut(a, text, cur, hi) && AllHeld(a, text, done, cur) && cur <= span.b < span.e <= hi && |a'| == |a|
    requires a'[span.e] == '\0' && forall i :: 0 <= i < |a| && i != span.e ==> a'[i] == a[i]
    ensures Uncut(a', text, Behind(span.e, hi), hi) && Uncut(a', text, span.b, span.e)
    ensures AllHeld(a', text, done, span.b) && AllHeld(a', text, done + [span], span.e)
  {
    forall j | 0 <= j < |done|
      ensures SpanHeld(a', text, done[j], span.b) && SpanHeld(a', text, done[j], span.e)
    {
      assert SpanHeld(a, text, done[j], cur);
    }
  }

  // ----- the two loops -----

  // both loops between two tokens
  ghost predicate Between(a: seq<char>, g: Cutting, temp: array<int>, done: seq<Span>, cur: nat, apis: Apis,
                          before: seq<string>)
    reads temp
  {
    && Closed(a) && AllHeld(a, g.text, done, cur)
    && Pointers(temp, StartsOf(g, done)) && Fits(StartsOf(g, done)) && g.broken == Begun(g.starts)
    && Described(Fifth(), g, done, apis, before)
  }

  datatype Turn = Exhausted | Taken | Outside

  // one turn of the inner loop
  method PieceTurn(a: array<char>, cur: nat, temp: array<int>, index: nat, apis: Apis, ghost hi: nat,
                   ghost g: Cutting, ghost comma: Sep, ghost done: seq<Span>, ghost before: seq<string>)
      returns (turn: Turn, next: nat, apis': Apis, ghost span: Span, ghost before': seq<string>)
    requires Uncut(a[..], g.text, cur, hi) && Between(a[..], g, temp, done, cur, apis, before)
    requires index == |g.starts| + |done| && Marks(comma, g.text, ',')
    modifies a, temp
    ensures forall i :: hi <= i < a.Length ==> a[i] == old(a[i])
    ensures match turn
            case Exhausted => NoSpan(comma, cur, hi) && Between(a[..], g, temp, done, cur, apis', before')
            case Taken =>
              && FirstSpan(comma, cur, hi, span) && next == Behind(span.e, hi) && Uncut(a[..], g.text, next, hi)
              && Between(a[..], g, temp, done + [span], span.e, apis', before')
            case Outside => FirstSpan(comma, cur, hi, span) && !Fits(StartsOf(g, done + [span]))
  {
    ghost var was := a[..];
    var tok;
    tok, next, span := Strtok(a, cur, ',', hi, g.text, comma);
    if tok == -1 {
      temp[index] := tok;
      return Exhausted, next, apis, span, before;
    }
    CutKeeps(was, a[..], g.text, done, cur, span, hi);
    StartsSnoc(g, done, span);
    FitsSnoc(StartsOf(g, done), span.b);
    var inside;
    SameTurn(g, |done|, index);
    LastReadableIs(StartsOf(g, done + [span]), index);
    inside, apis', before' :=
      TakeToken(index % 5 == 4, Fifth(), a, tok, temp, index, apis, g, done, span, span.e, before);
    turn := if inside && index + 1 < PACKET then Taken else Outside;
  }

  // the tokens taken so far, with those of the rest, are all of them
  ghost predicate Remaining(sep: Sep, cur: nat, hi: nat, done: seq<Span>, all: seq<Span>) {
    cur <= hi && done + Spans(sep, cur, hi) == all
  }

  lemma FitsMore(g: Cutting, spans: seq<Span>, all: seq<Span>)
    requires spans <= all && !Fits(StartsOf(g, spans))
    ensures !Fits(StartsOf(g, all))
  {
    assert StartsOf(g, spans) <= StartsOf(g, all);
    FitsPrefix(StartsOf(g, spans), StartsOf(g, all));
  }

  // the inner loop over the piece from `from` to its terminator; false for an access outside a buffer
  method CutPiece(a: array<char>, from: nat, temp: array<int>, index0: nat, apis: Apis, ghost hi: nat,
                  ghost g: Cutting, ghost comma: Sep, ghost done0: seq<Span>, ghost before: seq<string>)
      returns (inside: bool, index: nat, apis': Apis, ghost before': seq<string>)
    requires Uncut(a[..], g.text, from, hi) && Between(a[..], g, temp, done0, from, apis, before)
    requires index0 == |g.starts| + |done0| && Marks(comma, g.text, ',')
    modifies a, temp
    ensures forall i :: hi <= i < a.Length ==> a[i] == old(a[i])
    ensures var done := done0 + Spans(comma, from, hi);
            && (inside ==> index == |g.starts| + |done| && Between(a[..], g, temp, done, hi, apis', before'))
            && (inside <==> Fits(StartsOf(g, done)))
  {
    ghost var done, all := done0, done0 + Spans(comma, from, hi);
    var cur := from;
    inside, index, apis', before' := true, index0, apis, before;
    while true
      invariant from <= cur && Remaining(comma, cur, hi, done, all)
      invariant Uncut(a[..], g.text, cur, hi) && Between(a[..], g, temp, done, cur, apis', before')
      invariant inside && index == |g.starts| + |done|
      invariant forall i :: hi <= i < a.Length ==> a[i] == old(a[i])
      decreases hi - cur
    {
      var turn, next;
      ghost var span;
      turn, next, apis', span, before' := PieceTurn(a, cur, temp, index, apis', hi, g, comma, done, before');
      if turn == Exhausted {
        AllTaken(comma, cur, hi, done, all);
        HeldFurther(a[..], g.text, done, cur, hi);
        return;
      }
      TakeSpan(comma, cur, hi, span, done, all);
      if turn == Outside {
        FitsMore(g, done + [span], all);
        return false, index, apis', before';
      }
      HeldFurther(a[..], g.text, done + [span], span.e, next);
      index, cur, done := index + 1, next, done + [span];
    }
  }

  lemma HeldFurther(a: seq<char>, text: seq<char>, done: seq<Span>, cur: nat, cur': nat)
    requires AllHeld(a, text, done, cur) && cur <= cur'
    ensures AllHeld(a, text, done, cur')
  {
    forall j | 0 <= j < |done|
      ensures SpanHeld(a, text, done[j], cur')
    {
      assert SpanHeld(a, text, done[j], cur);
    }
  }

  lemma Regroup(done: seq<Span>, more: seq<Span>, rest: seq<Span>, all: seq<Span>)
    requires done + (more + rest) == all
    ensures (done + more) + rest == all && done + more <= all
  {
  }

  lemma AllTaken(sep: Sep, cur: nat, hi: nat, done: seq<Span>, all: seq<Span>)
    requires Remaining(sep, cur, hi, done, all) && NoSpan(sep, cur, hi)
    ensures done == all
  {
    SpansNone(sep, cur, hi);
  }

  lemma TakeSpan(sep: Sep, cur: nat, hi: nat, span: Span, done: seq<Span>, all: seq<Span>)
    requires Remaining(sep, cur, hi, done, all) && FirstSpan(sep, cur, hi, span)
    ensures done + [span] <= all && Remaining(sep, Behind(span.e, hi), hi, done + [span], all)
  {
    SpansFirst(sep, cur, hi, span);
    Regroup(done, [span], Spans(sep, Behind(span.e, hi), hi), all);
  }

  lemma TakePiece(outer: Sep, inner: Sep, either: Sep, cur: nat, hi: nat, piece: Span, done: seq<Span>, all: seq<Span>)
    requires Remaining(either, cur, hi, done, all) && FirstSpan(outer, cur, hi, piece)
    requires forall i :: cur <= i < hi ==> (either(i) <==> outer(i) || inner(i))
    ensures var more := Spans(inner, piece.b, piece.e);
            done + more <= all && Remaining(either, Behind(piece.e, hi), hi, done + more, all)
  {
    NestedIsFlat(outer, inner, either, cur, hi, piece);
    Regroup(done, Spans(inner, piece.b, piece.e), Spans(either, Behind(piece.e, hi), hi), all);
  }

  // one turn of the outer loop
  method LineTurn(a: array<char>, cur: nat, temp: array<int>, index: nat, apis: Apis, ghost hi: nat,
                  ghost g: Cutting, ghost semi: Sep, ghost comma: Sep, ghost done: seq<Span>,
                  ghost before: seq<string>)
      returns (turn: Turn, next: nat, index': nat, apis': Apis, ghost piece: Span, ghost before': seq<string>)
    requires Uncut(a[..], g.text, cur, hi) && Between(a[..], g, temp, done, cur, apis, before)
    requires index == |g.starts| + |done| && Marks(semi, g.text, ';') && Marks(comma, g.text, ',')
    modifies a, temp
    ensures forall i :: hi <= i < a.Length ==> a[i] == old(a[i])
    ensures turn == Exhausted ==>
              NoSpan(semi, cur, hi) && Between(a[..], g, temp, done, cur, apis', before') && index' == index
    ensures turn != Exhausted ==> FirstSpan(semi, cur, hi, piece) && next == Behind(piece.e, hi)
    ensures turn == Taken ==>
              var done' := done + Spans(comma, piece.b, piece.e);
              && Uncut(a[..], g.text, next, hi) && index' == |g.starts| + |done'|
              && Between(a[..], g, temp, done', piece.e, apis', before')
    ensures turn == Outside ==> !Fits(StartsOf(g, done + Spans(comma, piece.b, piece.e)))
  {
    ghost var was := a[..];
    var tok;
    tok, next, piece := Strtok(a, cur, ';', hi, g.text, semi);
    temp[index] := tok;
    if tok == -1 {
      return Exhausted, next, index, apis, piece, before;
    }
    CutKeeps(was, a[..], g.text, done, cur, piece, hi);
    was := a[..];
    var inside;
    inside, index', apis', before' := CutPiece(a, tok, temp, index, apis, piece.e, g, comma, done, before);
    StillUncut(was, a[..], g.text, piece.e, hi);
    turn := if inside then Taken else Outside;
  }

  lemma StillUncut(a: seq<char>, a': seq<char>, text: seq<char>, e: nat, hi: nat)
    requires Uncut(a, text, Behind(e, hi), hi) && |a'| == |a| && forall i :: e <= i < |a| ==> a'[i] == a[i]
    ensures Uncut(a', text, Behind(e, hi), hi)
  {
  }

  // the outer loop over the value at `at`, with pointers taken from earlier lines
  method CutLine(a: array<char>, at: nat, temp: array<int>, index0: nat, apis: Apis, ghost hi: nat,
                 ghost starts: seq<nat>)
      returns (inside: bool, index: nat, apis': Apis, ghost before: seq<string>)
    requires Closed(a[..]) && Uncut(a[..], a[..], at, hi)
    requires Pointers(temp, starts) && Fits(starts) && index0 == |starts|
    modifies a, temp
    ensures Closed(a[..])
    ensures var text := old(a[..]);
            var spans := Spans(EitherOf(text), at, hi);
            var all := starts + Begins(spans);
            && (inside <==> Fits(all))
            && (inside ==> index == |all| && Pointers(temp, all))
            && (inside ==> |before| == Begun(starts))
            && (inside ==> apis' == Registered(Fifth(), before + Texts(text, spans), apis))
  {
    ghost var text := a[..];
    ghost var g := Cutting(text, starts, Begun(starts), apis);
    inside, index, apis', before :=
      CutAll(a, at, temp, index0, apis, hi, g, SepOf(text, ';'), SepOf(text, ','), EitherOf(text));
  }

  lemma NothingCut(g: Cutting)
    requires g.broken < 5
    ensures StartsOf(g, []) == g.starts
    ensures Described(Fifth(), g, [], g.apis, seq(g.broken, (i: nat) => ""))
  {
    var before := seq(g.broken, (i: nat) => "");
    assert before + Texts(g.text, []) == before;
    FewFields(Fifth(), before, g.apis);
  }

  method CutAll(a: array<char>, at: nat, temp: array<int>, index0: nat, apis: Apis, ghost hi: nat,
                ghost g: Cutting, ghost semi: Sep, ghost comma: Sep, ghost either: Sep)
      returns (inside: bool, index: nat, apis': Apis, ghost before: seq<string>)
    requires Closed(a[..]) && Uncut(a[..], g.text, at, hi) && apis == g.apis
    requires Pointers(temp, g.starts) && Fits(g.starts) && index0 == |g.starts| && g.broken == Begun(g.starts)
    requires Marks(semi, g.text, ';') && Marks(comma, g.text, ',')
    requires forall i :: at <= i < hi ==> (either(i) <==> semi(i) || comma(i))
    modifies a, temp
    ensures forall i :: hi <= i < a.Length ==> a[i] == old(a[i])
    ensures var spans := Spans(either, at, hi);
            && (inside <==> Fits(StartsOf(g, spans)))
            && (inside ==> index == |g.starts| + |spans| && Pointers(temp, StartsOf(g, spans)))
            && (inside ==> Described(Fifth(), g, spans, apis', before))
  {
    ghost var done, all := [], Spans(either, at, hi);
    var cur := at;
    NothingCut(g);
    inside, index, apis', before := true, index0, apis, seq(g.broken, (i: nat) => "");
    while true
      invariant at <= cur && Remaining(either, cur, hi, done, all)
      invariant Uncut(a[..], g.text, cur, hi) && Between(a[..], g, temp, done, cur, apis', before)
      invariant inside && index == |g.starts| + |done|
      invariant forall i :: hi <= i < a.Length ==> a[i] == old(a[i])
      decreases hi - cur
    {
      var turn, next;
      ghost var piece;
      turn, next, index, apis', piece, before :=
        LineTurn(a, cur, temp, index, apis', hi, g, semi, comma, done, before);
      if turn == Exhausted {
        AllTaken(either, cur, hi, done, all);
        return;
      }
      ghost var more := Spans(comma, piece.b, piece.e);
      TakePiece(semi, comma, either, cur, hi, piece, done, all);
      if turn == Outside {
        FitsMore(g, done + more, all);
        return false, index, apis', before;
      }
      HeldFurther(a[..], g.text, done + more, piece.e, next);
      cur, done := next, done + more;
    }
  }

  // ----- what a configured list of entries gives -----

  // a field and the separator printed behind it
  datatype Cell = Cell(text: string, sep: char)

  predicate Word(s: string) {
    s != "" && forall i :: 0 <= i < |s| ==> s[i] != ',' && s[i] != ';'
  }

  predicate Separated(cells: seq<Cell>) {
    forall i :: 0 <= i < |cells| ==> Word(cells[i].text) && (cells[i].sep == ',' || cells[i].sep == ';')
  }

  function Show(cells: seq<Cell>): string {
    if cells == [] then "" else cells[0].text + [cells[0].sep] + Show(cells[1..])
  }

  function CellTexts(cells: seq<Cell>): seq<string> {
    seq(|cells|, (j: nat) requires j < |cells| => cells[j].text)
  }

  // the cells stand in the buffer from at to hi
  ghost predicate StandsAt(text: seq<char>, at: nat, hi: nat, cells: seq<Cell>)
    decreases |cells|
  {
    if cells == [] then at == hi
    else
      var m := at + |cells[0].text|;
      m < hi <= |text| && text[at..m] == cells[0].text && text[m] == cells[0].sep &&
          StandsAt(text, m + 1, hi, cells[1..])
  }

  lemma {:induction false} ShownStands(text: seq<char>, at: nat, hi: nat, cells: seq<Cell>)
    requires at <= hi <= |text| && text[at..hi] == Show(cells)
    ensures StandsAt(text, at, hi, cells)
    decreases |cells|
  {
    if cells != [] {
      var field, rest := cells[0].text, Show(cells[1..]);
      var m := at + |field|;
      var s := text[at..hi];
      assert s == field + [cells[0].sep] + rest;
      assert s[..|field|] == field && s[|field|] == cells[0].sep && s[|field| + 1..] == rest;
      assert text[at..m] == s[..|field|] && text[m + 1..hi] == s[|field| + 1..];
      ShownStands(text, m + 1, hi, cells[1..]);
    }
  }

  // where the fields of the cells stand
  function CellSpans(at: nat, cells: seq<Cell>): seq<Span>
    decreases |cells|
  {
    if cells == [] then []
    else
      var m := at + |cells[0].text|;
      [Span(at, m)] + CellSpans(m + 1, cells[1..])
  }

  // these are the runs between the separators
  ghost predicate Laid(sep: Sep, at: nat, hi: nat, spans: seq<Span>)
    decreases |spans|
  {
    if spans == [] then NoSpan(sep, at, hi)
    else FirstSpan(sep, at, hi, spans[0]) && Laid(sep, Behind(spans[0].e, hi), hi, spans[1..])
  }

  lemma {:induction false} LaidSpans(sep: Sep, at: nat, hi: nat, spans: seq<Span>)
    requires at <= hi && Laid(sep, at, hi, spans)
    ensures Spans(sep, at, hi) == spans
    decreases |spans|
  {
    if spans == [] {
      SpansNone(sep, at, hi);
    } else {
      SpansFirst(sep, at, hi, spans[0]);
      LaidSpans(sep, Behind(spans[0].e, hi), hi, spans[1..]);
      assert spans == [spans[0]] + spans[1..];
    }
  }

  lemma {:induction false} ShownLaid(text: seq<char>, sep: Sep, at: nat, hi: nat, cells: seq<Cell>)
    requires at <= hi <= |text| && StandsAt(text, at, hi, cells) && Separated(cells) && Separates(sep, text)
    ensures Laid(sep, at, hi, CellSpans(at, cells))
    decreases |cells|
  {
    if cells != [] {
      var m := at + |cells[0].text|;
      SeparatedFirst(cells);
      ShownStep(text, sep, at, m, hi, cells[0]);
      ShownLaid(text, sep, m + 1, hi, cells[1..]);
      var rest := CellSpans(m + 1, cells[1..]);
      assert CellSpans(at, cells) == [Span(at, m)] + rest && ([Span(at, m)] + rest)[1..] == rest;
    }
  }

  lemma SeparatedFirst(cells: seq<Cell>)
    requires Separated(cells) && cells != []
    ensures Separated([cells[0]]) && Separated(cells[1..])
  {
  }

  ghost predicate Separates(sep: Sep, text: seq<char>) {
    forall i :: 0 <= i < |text| ==> (sep(i) <==> text[i] == ',' || text[i] == ';')
  }

  lemma {:induction false} CellSpansTexts(text: seq<char>, at: nat, hi: nat, cells: seq<Cell>)
    requires StandsAt(text, at, hi, cells)
    ensures Texts(text, CellSpans(at, cells)) == CellTexts(cells)
    decreases |cells|
  {
    if cells != [] {
      var m := at + |cells[0].text|;
      CellSpansTexts(text, m + 1, hi, cells[1..]);
      TextsCons(text, Span(at, m), CellSpans(m + 1, cells[1..]));
      CellTextsCons(cells);
    }
  }

  // cutting a printed list gives its fields back, wherever it stands in the buffer
  lemma ShownTokens(text: seq<char>, sep: Sep, at: nat, hi: nat, cells: seq<Cell>)
    requires at <= hi <= |text| && StandsAt(text, at, hi, cells) && Separated(cells) && Separates(sep, text)
    ensures Texts(text, Spans(sep, at, hi)) == CellTexts(cells)
  {
    ShownLaid(text, sep, at, hi, cells);
    LaidSpans(sep, at, hi, CellSpans(at, cells));
    CellSpansTexts(text, at, hi, cells);
  }

  lemma ShownStep(text: seq<char>, sep: Sep, at: nat, m: nat, hi: nat, cell: Cell)
    requires m == at + |cell.text| && m < hi <= |text| && text[at..m] == cell.text && text[m] == cell.sep
    requires Separated([cell]) && Separates(sep, text)
    ensures FirstSpan(sep, at, hi, Span(at, m)) && Behind(m, hi) == m + 1
  {
    assert Word([cell][0].text);
    forall i | at <= i < m
      ensures !sep(i)
    {
      assert text[i] == text[at..m][i - at];
    }
  }

  lemma CellTextsCons(cells: seq<Cell>)
    requires cells != []
    ensures CellTexts(cells) == [cells[0].text] + CellTexts(cells[1..])
  {
  }

  lemma CellTextsAppend(cells: seq<Cell>, more: seq<Cell>)
    ensures CellTexts(cells + more) == CellTexts(cells) + CellTexts(more)
    ensures Separated(cells) && Separated(more) ==> Separated(cells + more)
  {
  }

  lemma TextsCons(text: seq<char>, span: Span, spans: seq<Span>)
    ensures Texts(text, [span] + spans) == [TextOf(text, span)] + Texts(text, spans)
  {
  }

  datatype Entry = Entry(url: string, api: Api)

  // fields that are not empty, without separators and not wider than where they are copied to
  predicate Listable(entry: Entry) {
    && Word(entry.url) && Word(entry.api.param) && Word(entry.api.carrier)
    && |entry.api.param| <= PARAM_WIDTH && |entry.api.carrier| <= CARRIER_WIDTH
    && InLong(entry.api.province) && InLong(entry.api.limits)
  }

  function CellsOf(entry: Entry): seq<Cell> {
    [Cell(entry.url, ','), Cell(entry.api.param, ','), Cell(Print(entry.api.province), ','),
     Cell(entry.api.carrier, ','), Cell(Print(entry.api.limits), ';')]
  }

  function ListCells(list: seq<Entry>): (cells: seq<Cell>)
    ensures |cells| == 5 * |list|
  {
    if list == [] then [] else ListCells(list[..|list| - 1]) + CellsOf(list[|list| - 1])
  }

  function Inserted(list: seq<Entry>, apis: Apis): Apis {
    if list == [] then apis
    else
      var last := list[|list| - 1];
      Inserted(list[..|list| - 1], apis)[last.url := last.api]
  }

  lemma RegisteredSnoc(closes: Closing, fields: seq<string>, field: string, apis: Apis)
    ensures var n := |fields|;
            Registered(closes, fields + [field], apis) ==
            var before := Registered(closes, fields, apis);
            if n >= 4 && closes(n) then
              before[fields[n - 4] := ApiOf(fields[n - 3], fields[n - 2], fields[n - 1], field)]
            else before
  {
    assert (fields + [field])[..|fields|] == fields;
  }

  // an entry of five tokens starts at n
  predicate Opens(closes: Closing, n: nat) {
    !closes(n) && !closes(n + 1) && !closes(n + 2) && !closes(n + 3) && closes(n + 4)
  }

  lemma RegisteredFive(closes: Closing, fields: seq<string>, a: string, b: string, c: string, d: string, e: string,
                       apis: Apis)
    requires Opens(closes, |fields|)
    ensures Registered(closes, fields +
            [a, b, c, d, e], apis) == Registered(closes, fields, apis)[a := ApiOf(b, c, d, e)]
  {
    var one := fields + [a];
    var two := one + [b];
    var three := two + [c];
    var four := three + [d];
    RegisteredSnoc(closes, fields, a, apis);
    RegisteredSnoc(closes, one, b, apis);
    RegisteredSnoc(closes, two, c, apis);
    RegisteredSnoc(closes, three, d, apis);
    RegisteredSnoc(closes, four, e, apis);
    assert fields + [a, b, c, d, e] == four + [e];
  }

  lemma {:induction false} PrintedWord(n: int)
    ensures Word(Print(n))
  {
    var digits := PrintNat(if n < 0 then -n else n);
    forall i | 0 <= i < |digits|
      ensures digits[i] != ',' && digits[i] != ';'
    {
      assert IsDigit(digits[i]);
    }
  }

  lemma EntryFields(entry: Entry)
    requires Listable(entry)
    ensures Separated(CellsOf(entry))
    ensures CellTexts(CellsOf(entry)) ==
            [entry.url, entry.api.param, Print(entry.api.province), entry.api.carrier, Print(entry.api.limits)]
    ensures ApiOf(entry.api.param, Print(entry.api.province), entry.api.carrier, Print(entry.api.limits)) == entry.api
  {
    AtolPrint(entry.api.province);
    AtolPrint(entry.api.limits);
  }

  lemma {:induction false} ListRegisters(list: seq<Entry>, apis: Apis)
    requires forall i :: 0 <= i < |list| ==> Listable(list[i])
    ensures Separated(ListCells(list))
    ensures Registered(Fifth(), CellTexts(ListCells(list)), apis) == Inserted(list, apis)
  {
    if list != [] {
      var n := |list| - 1;
      ListRegisters(list[..n], apis);
      FifthOpens(n, 5 * n);
      EntryRegisters(Fifth(), ListCells(list[..n]), list[n], apis);
    }
  }

  lemma EntryRegisters(closes: Closing, cells: seq<Cell>, entry: Entry, apis: Apis)
    requires Opens(closes, |cells|) && Separated(cells) && Listable(entry)
    ensures Separated(cells + CellsOf(entry))
    ensures Registered(closes, CellTexts(cells + CellsOf(entry)), apis) ==
            Registered(closes, CellTexts(cells), apis)[entry.url := entry.api]
  {
    var api := entry.api;
    EntryFields(entry);
    CellTextsAppend(cells, CellsOf(entry));
    RegisteredFive(closes, CellTexts(cells), entry.url, api.param, Print(api.province), api.carrier, Print(api.limits),
                   apis);
  }

  lemma FifthOpens(n: nat, k: nat)
    requires k == 5 * n
    ensures Opens(Fifth(), k)
  {
  }

  // a value that lists entries registers exactly these, the later ones over the earlier ones
  lemma ListedApis(text: seq<char>, at: nat, hi: nat, list: seq<Entry>, apis: Apis)
    requires at <= hi <= |text| && text[at..hi] == Show(ListCells(list))
    requires forall i :: 0 <= i < |list| ==> Listable(list[i])
    ensures Registered(Fifth(), Texts(text, Spans(EitherOf(text), at, hi)), apis) == Inserted(list, apis)
  {
    ListRegisters(list, apis);
    ShownStands(text, at, hi, ListCells(list));
    ShownTokens(text, EitherOf(text), at, hi, ListCells(list));
  }

  function FiveCells(a: string, b: string, c: string, d: string, e: string): seq<Cell> {
    [Cell(a, ',')] + ([Cell(b, ',')] + ([Cell(c, ',')] + ([Cell(d, ',')] + ([Cell(e, ';')] + []))))
  }

  lemma ShowCons(cell: Cell, cells: seq<Cell>)
    ensures Show([cell] + cells) == cell.text + [cell.sep] + Show(cells)
  {
    assert ([cell] + cells)[1..] == cells;
  }

  lemma ShownFive(a: string, b: string, c: string, d: string, e: string)
    ensures Show(FiveCells(a, b, c, d, e)) ==
            a + "," + (b + "," + (c + "," + (d + "," + (e + ";" + ""))))
  {
    var last := [Cell(e, ';')] + [];
    var four := [Cell(d, ',')] + last;
    var three := [Cell(c, ',')] + four;
    ShowCons(Cell(e, ';'), []);
    ShowCons(Cell(d, ','), last);
    ShowCons(Cell(c, ','), four);
    ShowCons(Cell(b, ','), three);
    ShowCons(Cell(a, ','), [Cell(b, ',')] + three);
  }

  lemma FiveFields(text: string, a: string, b: string, c: string, d: string, e: string, apis: Apis)
    requires Word(a) && Word(b) && Word(c) && Word(d) && Word(e) && text == Show(FiveCells(a, b, c, d, e))
    ensures Registered(Fifth(), Texts(text, Spans(EitherOf(text), 0, |text|)), apis) == apis[a := ApiOf(b, c, d, e)]
  {
    var cells := FiveCells(a, b, c, d, e);
    assert text[0..|text|] == text;
    assert Separated(cells);
    ShownStands(text, 0, |text|, cells);
    ShownTokens(text, EitherOf(text), 0, |text|, cells);
    RegisteredFive(Fifth(), [], a, b, c, d, e, apis);
    assert CellTexts(cells) == [] + [a, b, c, d, e];
  }

  lemma AtolPrint(n: int)
    requires InLong(n)
    ensures Atol(Print(n)) == n && Word(Print(n))
  {
    SignedPrint(n, "");
    assert Print(n) + "" == Print(n);
    PrintedWord(n);
  }

  // one entry as it is written: the address, the parameter, the province, the carrier and the limit
  lemma EntryRegistered(url: string, param: string, province: int, carrier: string, limits: int, apis: Apis)
    requires Word(url) && Word(param) && Word(carrier) && InLong(province) && InLong(limits)
    ensures var text :=
              url + "," + (param + "," + (Print(province) + "," + (carrier + "," + (Print(limits) + ";" + ""))));
            Registered(Fifth(), Texts(text, Spans(EitherOf(text), 0, |text|)), apis) ==
            apis[url := Api(if |param| <= 128 then param else param[..128], province,
                            if |carrier| <= 8 then carrier else carrier[..8], limits)]
  {
    var p, l := Print(province), Print(limits);
    AtolPrint(province);
    AtolPrint(limits);
    ShownFive(url, param, p, carrier, l);
    FiveFields(Show(FiveCells(url, param, p, carrier, l)), url, param, p, carrier, l, apis);
  }

  // one line that fits its buffer cannot fill the token array
  lemma OneLineFits(sep: Sep, at: nat, hi: nat)
    requires at <= hi < PACKET
    ensures |Spans(sep, at, hi)| <= PACKET / 2
  {
    SpanCount(sep, at, hi);
  }
}

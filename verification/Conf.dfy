/**
  CConf: the line buffer of the configuration reader and the routines that trim it in place.

  A buffer holds a C string from some position on; the routines are specified by what they do to that
  string and by the characters they leave alone.
*/
module Conf {
  import opened CText

  const PACKET: nat := 1024

  predicate Blank(c: char) {
    c == '\t' || c == '\r' || c == '\n' || c == ' '
  }

  function LTrim(s: string): string {
    if s != "" && Blank(s[0]) then LTrim(s[1..]) else s
  }

  function RTrim(s: string): string {
    if s != "" && Blank(s[|s| - 1]) then RTrim(s[..|s| - 1]) else s
  }

  lemma {:induction false} LTrimStarts(s: string)
    ensures LTrim(s) == "" || !Blank(LTrim(s)[0])
    ensures LTrim(LTrim(s)) == LTrim(s)
  {
    if s != "" && Blank(s[0]) {
      LTrimStarts(s[1..]);
    }
  }

  lemma {:induction false} RTrimPrefix(s: string)
    ensures RTrim(s) <= s
  {
    if s != "" && Blank(s[|s| - 1]) {
      RTrimPrefix(s[..|s| - 1]);
    }
  }

  // the trimmed text is determined by what is blank
  lemma {:induction false} LTrimIs(s: string, k: nat)
    requires k <= |s| && (forall i :: 0 <= i < k ==> Blank(s[i])) && (k < |s| ==> !Blank(s[k]))
    ensures LTrim(s) == s[k..]
  {
    if k > 0 {
      LTrimIs(s[1..], k - 1);
    }
  }

  lemma {:induction false} RTrimIs(s: string, k: nat)
    requires k <= |s| && (forall i :: k <= i < |s| ==> Blank(s[i])) && (k > 0 ==> !Blank(s[k - 1]))
    ensures RTrim(s) == s[..k]
    decreases |s|
  {
    if k < |s| {
      RTrimIs(s[..|s| - 1], k);
      assert s[..|s| - 1][..k] == s[..k];
    }
  }

  // the text before the first '#'
  function Cut(s: string): (r: string)
    ensures r <= s
  {
    s[..IndexOf(s, '#', 0)]
  }

  // the C string at position `at` is s
  ghost predicate Holds(a: array<char>, at: nat, s: string)
    reads a
  {
    at + |s| < a.Length && a[at..at + |s|] == s && a[at + |s|] == '\0' && '\0' !in s
  }

  // the last position of the buffer is a terminator, so every string in it ends inside
  ghost predicate Closed(a: seq<char>) {
    |a| == PACKET && a[PACKET - 1] == '\0'
  }

  // nothing outside the string of length n at `at` is touched
  twostate predicate OnlyInside(a: array<char>, at: nat, n: nat)
    reads a
  {
    forall i :: 0 <= i < a.Length && !(at <= i <= at + n) ==> a[i] == old(a[i])
  }

  lemma HeldChars(a: array<char>, at: nat, s: string)
    requires Holds(a, at, s)
    ensures forall i :: 0 <= i < |s| ==> a[at + i] == s[i] && s[i] != '\0'
  {
    forall i | 0 <= i < |s|
      ensures a[at + i] == s[i]
    {
      assert a[at..at + |s|][i] == s[i];
    }
  }

  lemma HoldsIntro(a: array<char>, at: nat, s: string)
    requires at + |s| < a.Length && a[at + |s|] == '\0' && '\0' !in s
    requires forall i :: 0 <= i < |s| ==> a[at + i] == s[i]
    ensures Holds(a, at, s)
  {
  }

  // a string whose characters are left alone stays
  lemma Kept(before: seq<char>, a: array<char>, at: nat, s: string)
    requires at + |s| < |before| == a.Length
    requires before[at..at + |s|] == s && before[at + |s|] == '\0' && '\0' !in s
    requires forall i :: at <= i <= at + |s| ==> a[i] == before[i]
    ensures Holds(a, at, s)
  {
    forall i | 0 <= i < |s|
      ensures a[at + i] == s[i]
    {
      assert before[at..at + |s|][i] == s[i];
    }
  }

  // ----- ConfTrimLeft -----

  // the first position that is not blank
  method SkipBlanks(a: array<char>, at: nat, ghost s: string) returns (cur: nat)
    requires Holds(a, at, s)
    ensures at <= cur <= at + |s| && LTrim(s) == s[cur - at..]
  {
    HeldChars(a, at, s);
    cur := at;
    while Blank(a[cur])
      invariant at <= cur <= at + |s|
      invariant forall i :: 0 <= i < cur - at ==> Blank(s[i])
      decreases a.Length - cur
    {
      cur := cur + 1;
    }
    LTrimIs(s, cur - at);
  }

  // the copying loop: the string at `from` moves down to `at`
  method CopyDown(a: array<char>, at: nat, from: nat, ghost t: string)
    requires at <= from && Holds(a, from, t)
    modifies a
    ensures Holds(a, at, t)
    ensures OnlyInside(a, at, from - at + |t|)
    ensures old(Closed(a[..])) ==> Closed(a[..])
  {
    HeldChars(a, from, t);
    var dst, src := at, from;
    while true
      invariant at <= dst <= at + |t| && src - from == dst - at
      invariant forall i :: at <= i < dst ==> a[i] == t[i - at]
      invariant forall i :: 0 <= i < a.Length && !(at <= i < dst) ==> a[i] == old(a[i])
      decreases a.Length - src
    {
      var c := a[src];
      a[dst] := c;
      if c == '\0' {
        break;
      }
      dst, src := dst + 1, src + 1;
    }
    HoldsIntro(a, at, t);
  }

  method TrimLeft(a: array<char>, at: nat, ghost s: string)
    requires Holds(a, at, s)
    modifies a
    ensures Holds(a, at, LTrim(s))
    ensures OnlyInside(a, at, |s|)
    ensures old(Closed(a[..])) ==> Closed(a[..])
  {
    HeldChars(a, at, s);
    var cur := SkipBlanks(a, at, s);
    HoldsIntro(a, cur, s[cur - at..]);
    CopyDown(a, at, cur, s[cur - at..]);
  }

  // ----- ConfTrimRight -----

  // does the backward scan meet a character that is not blank
  predicate Inside(s: string) {
    s == "" || RTrim(Cut(s)) != ""
  }

  // where the text ends or its comment begins
  method ScanRemark(a: array<char>, at: nat, ghost s: string) returns (cur: nat)
    requires Holds(a, at, s)
    ensures at <= cur <= at + |s| && Cut(s) == s[..cur - at]
  {
    HeldChars(a, at, s);
    cur := at;
    while a[cur] != '\0' && a[cur] != '#'
      invariant at <= cur <= at + |s|
      invariant forall i :: 0 <= i < cur - at ==> s[i] != '#'
      decreases a.Length - cur
    {
      cur := cur + 1;
    }
    IndexOfIs(s, '#', 0, cur - at);
  }

  // the string t ends at `end`: its last character that is not blank, or at - 1
  method ScanBack(a: array<char>, at: nat, end: nat, ghost t: string) returns (cur: int)
    requires end == at + |t| && Holds(a, at, t)
    ensures at - 1 <= cur < end && RTrim(t) == t[..cur + 1 - at]
  {
    HeldChars(a, at, t);
    cur := end - 1;
    while cur >= at && Blank(a[cur])
      invariant at - 1 <= cur < end
      invariant forall i :: cur + 1 - at <= i < |t| ==> Blank(t[i])
    {
      cur := cur - 1;
    }
    RTrimIs(t, cur + 1 - at);
  }

  // false: the scan for the last character reads the byte before the text
  method TrimRight(a: array<char>, at: nat, ghost s: string) returns (inside: bool)
    requires Holds(a, at, s)
    modifies a
    ensures inside == Inside(s)
    ensures inside ==> Holds(a, at, RTrim(Cut(s)))
    ensures OnlyInside(a, at, |s|)
    ensures old(Closed(a[..])) ==> Closed(a[..])
  {
    HeldChars(a, at, s);
    if a[at] == '\0' {
      return true;
    }
    var cur := ScanRemark(a, at, s);
    a[cur] := '\0';
    ghost var t := Cut(s);
    HoldsIntro(a, at, t);
    var last := ScanBack(a, at, cur, t);
    if last < at {
      return false;
    }
    a[last + 1] := '\0';
    HoldsIntro(a, at, RTrim(t));
    return true;
  }

  // ----- ConfTrim, ConfIsValid, ConfIsSection -----

  function Trimmed(s: string): string {
    RTrim(Cut(LTrim(s)))
  }

  predicate TrimsInside(s: string) {
    Inside(LTrim(s))
  }

  // the caller's view: the only texts that are trimmed past their beginning start with '#'
  lemma TrimsInsideIff(s: string)
    ensures TrimsInside(s) <==> LTrim(s) == "" || LTrim(s)[0] != '#'
  {
    TrimmedStarts(s);
    if LTrim(s) != "" && LTrim(s)[0] == '#' {
      IndexOfIs(LTrim(s), '#', 0, 0);
    }
  }

  // a text that is trimmed inside keeps its first character
  lemma TrimmedStarts(s: string)
    ensures LTrim(s) == "" ==> Trimmed(s) == ""
    ensures LTrim(s) != "" && LTrim(s)[0] != '#' ==> Trimmed(s) != "" && Trimmed(s)[0] == LTrim(s)[0]
  {
    var t := LTrim(s);
    LTrimStarts(s);
    if t != "" && t[0] != '#' {
      IndexOfFinds(t, '#', 0);
      assert Cut(t)[0] == t[0];
      RTrimKeeps(Cut(t));
    }
  }

  lemma {:induction false} RTrimKeeps(u: string)
    requires u != "" && !Blank(u[0])
    ensures RTrim(u) != "" && RTrim(u)[0] == u[0]
  {
    if |u| > 1 && Blank(u[|u| - 1]) {
      RTrimKeeps(u[..|u| - 1]);
    }
  }

  method Trim(a: array<char>, ghost s: string) returns (inside: bool)
    requires Holds(a, 0, s)
    modifies a
    ensures inside == TrimsInside(s)
    ensures inside ==> Holds(a, 0, Trimmed(s))
    ensures old(Closed(a[..])) ==> Closed(a[..])
  {
    TrimLeft(a, 0, s);
    inside := TrimRight(a, 0, LTrim(s));
  }

  // is there anything in the line; looks for '#' before it trims
  method IsValid(a: array<char>, ghost s: string) returns (valid: bool)
    requires Holds(a, 0, s)
    modifies a
    ensures valid <==> !(s != "" && s[0] == '#') && LTrim(s) != ""
    ensures Holds(a, 0, if s != "" && s[0] == '#' then s else LTrim(s))
    ensures old(Closed(a[..])) ==> Closed(a[..])
  {
    HeldChars(a, 0, s);
    if a[0] == '#' {
      return false;
    }
    TrimLeft(a, 0, s);
    HeldChars(a, 0, LTrim(s));
    return a[0] != '\0';
  }

  method IsSection(a: array<char>, ghost s: string) returns (header: bool)
    requires Holds(a, 0, s)
    ensures header <==> s != "" && s[0] == '['
  {
    HeldChars(a, 0, s);
    return a[0] == '[';
  }

  // ----- ConfKeyValue -----

  function KeyText(s: string): string {
    s[..IndexOf(s, '=', 0)]
  }

  function KeyOf(s: string): string {
    RTrim(Cut(KeyText(s)))
  }

  function ValueOf(s: string): string
    requires IndexOf(s, '=', 0) < |s|
  {
    LTrim(s[IndexOf(s, '=', 0) + 1..])
  }

  method ScanEqual(a: array<char>, ghost s: string) returns (cur: nat)
    requires Holds(a, 0, s)
    ensures cur == IndexOf(s, '=', 0)
  {
    HeldChars(a, 0, s);
    cur := 0;
    while a[cur] != '\0' && a[cur] != '='
      invariant cur <= |s|
      invariant forall i :: 0 <= i < cur ==> s[i] != '='
      decreases a.Length - cur
    {
      cur := cur + 1;
    }
    IndexOfIs(s, '=', 0, cur);
  }

  // the key at position 0 and the value behind the '='; not inside: the key is trimmed past its beginning
  method KeyValue(a: array<char>, ghost s: string) returns (found: bool, val: nat, inside: bool)
    requires Holds(a, 0, s)
    modifies a
    ensures found == (IndexOf(s, '=', 0) < |s|)
    ensures inside == (found ==> Inside(KeyText(s)))
    ensures found && inside ==>
              val == IndexOf(s, '=', 0) + 1 && Holds(a, 0, KeyOf(s)) && Holds(a, val, ValueOf(s))
    ensures old(Closed(a[..])) ==> Closed(a[..])
  {
    HeldChars(a, 0, s);
    var cur := ScanEqual(a, s);
    if a[cur] == '\0' {
      return false, 0, true;
    }
    a[cur] := '\0';
    ghost var key, rest := s[..cur], s[cur + 1..];
    HoldsIntro(a, 0, key);
    HoldsIntro(a, cur + 1, rest);
    inside := TrimHalves(a, cur + 1, key, rest);
    found, val := true, cur + 1;
  }

  method TrimHalves(a: array<char>, val: nat, ghost key: string, ghost rest: string) returns (inside: bool)
    requires val == |key| + 1 && Holds(a, 0, key) && Holds(a, val, rest)
    modifies a
    ensures inside == Inside(key)
    ensures inside ==> Holds(a, 0, RTrim(Cut(key))) && Holds(a, val, LTrim(rest))
    ensures old(Closed(a[..])) ==> Closed(a[..])
  {
    RTrimPrefix(Cut(key));
    ghost var before := a[..];
    inside := TrimRight(a, 0, key);
    if !inside {
      return;
    }
    Kept(before, a, val, rest);
    before := a[..];
    TrimLeft(a, val, rest);
    Kept(before, a, 0, RTrim(Cut(key)));
  }

  // the key of a trimmed line is trimmed inside
  lemma KeyIsInside(key: string)
    requires '#' !in key && (key != "" ==> !Blank(key[0]))
    ensures Cut(key) == key && Inside(key)
  {
    IndexOfIs(key, '#', 0, |key|);
    if key != "" {
      RTrimKeeps(key);
    }
  }
}

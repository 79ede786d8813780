/**
  CConf::replace_all and CConf::replace_all_distinct, on strings of any characters.

  Searching and replacing are written over an arbitrary predicate on positions, `Hit`; the text enters
  only where a position is compared with the old text.
*/
module Replace {

  predicate OccursAt(s: string, old_: string, i: nat) {
    i + |old_| <= |s| && s[i..i + |old_|] == old_
  }

  ghost predicate Occurs(s: string, old_: string) {
    exists i: nat :: OccursAt(s, old_, i)
  }

  type Hit = nat -> bool

  function Hits(s: string, old_: string): Hit {
    (i: nat) => OccursAt(s, old_, i)
  }

  // std::string::find: the first hit at or after k and before n, or npos
  datatype Found = At(pos: nat) | Npos

  function FindHit(hit: Hit, n: nat, k: nat): Found
    decreases n - k
  {
    if k >= n then Npos else if hit(k) then At(k) else FindHit(hit, n, k + 1)
  }

  lemma {:induction false} FindFirst(hit: Hit, n: nat, k: nat)
    ensures match FindHit(hit, n, k)
            case At(p) => k <= p < n && hit(p) && forall i :: k <= i < p ==> !hit(i)
            case Npos => forall i :: k <= i < n ==> !hit(i)
    decreases n - k
  {
    if k < n && !hit(k) {
      FindFirst(hit, n, k + 1);
    }
  }

  // the empty text is found even at the end of the string
  function Find(s: string, old_: string, k: nat): Found {
    FindHit(Hits(s, old_), |s| + 1, k)
  }

  function Substituted(s: string, p: nat, n: nat, new_: string): string
    requires p + n <= |s|
  {
    s[..p] + new_ + s[p + n..]
  }

  // ----- left-to-right replacement of occurrences that do not overlap -----

  // the replacement of s from position k on, where hits are m long
  function DistinctFrom(hit: Hit, s: string, m: nat, new_: string, k: nat): string
    requires m > 0
    decreases |s| - k
  {
    if k >= |s| then ""
    else if hit(k) then new_ + DistinctFrom(hit, s, m, new_, k + m)
    else [s[k]] + DistinctFrom(hit, s, m, new_, k + 1)
  }

  function Distinct(s: string, old_: string, new_: string): string
    requires old_ != ""
  {
    DistinctFrom(Hits(s, old_), s, |old_|, new_, 0)
  }

  lemma Regroup(s: string, k: nat, p: nat, rest: string)
    requires k < p <= |s|
    ensures [s[k]] + (s[k + 1..p] + rest) == s[k..p] + rest
  {
    assert s[k..p] == [s[k]] + s[k + 1..p];
  }

  // up to the next hit nothing changes
  lemma {:induction false} DistinctSkips(hit: Hit, s: string, m: nat, new_: string, k: nat, p: nat)
    requires m > 0 && k <= p <= |s| && forall i :: k <= i < p ==> !hit(i)
    ensures DistinctFrom(hit, s, m, new_, k) == s[k..p] + DistinctFrom(hit, s, m, new_, p)
    decreases p - k
  {
    if k == p {
      assert s[k..p] == "";
    } else {
      DistinctSkips(hit, s, m, new_, k + 1, p);
      Regroup(s, k, p, DistinctFrom(hit, s, m, new_, p));
    }
  }

  // what the next call of find means for the rest
  lemma DistinctTurn(hit: Hit, s: string, m: nat, new_: string, k: nat)
    requires m > 0 && k <= |s| && !hit(|s|)
    ensures match FindHit(hit, |s| + 1, k)
            case At(p) =>
              && k <= p < |s|
              && DistinctFrom(hit, s, m, new_, k) == s[k..p] + (new_ + DistinctFrom(hit, s, m, new_, p + m))
            case Npos => DistinctFrom(hit, s, m, new_, k) == s[k..]
  {
    FindFirst(hit, |s| + 1, k);
    match FindHit(hit, |s| + 1, k)
    case At(p) =>
      DistinctSkips(hit, s, m, new_, k, p);
    case Npos =>
      DistinctSkips(hit, s, m, new_, k, |s|);
      assert s[k..|s|] + "" == s[k..];
  }

  // hit behind pos is hit' behind k
  ghost predicate SameBehind(hit: Hit, pos: nat, hit': Hit, k: nat) {
    forall p: nat, q: nat :: p >= pos && p - pos == q - k ==> hit(p) == hit'(q)
  }

  // find only sees what is behind its starting point
  lemma {:induction false} FindBehind(hit: Hit, n: nat, hit': Hit, n': nat, pos: nat, k: nat)
    requires n - pos == n' - k
    requires SameBehind(hit, pos, hit', k)
    ensures match FindHit(hit', n', k)
            case At(q) => q >= k && FindHit(hit, n, pos) == At(q - k + pos)
            case Npos => FindHit(hit, n, pos) == Npos
    decreases n - pos
  {
    if pos < n {
      assert hit(pos) == hit'(k);
      FindBehind(hit, n, hit', n', pos + 1, k + 1);
    }
  }

  // the same text behind two positions has the same occurrences
  lemma SameHits(done: string, str: string, k: nat, old_: string)
    requires k <= |str|
    ensures SameBehind(Hits(done + str[k..], old_), |done|, Hits(str, old_), k)
  {
    var s := done + str[k..];
    forall p: nat, q: nat | p >= |done| && p - |done| == q - k
      ensures Hits(s, old_)(p) == Hits(str, old_)(q)
    {
      if q + |old_| <= |str| {
        assert s[p..p + |old_|] == str[q..q + |old_|];
      }
    }
  }

  lemma FindInRest(done: string, str: string, k: nat, old_: string)
    requires k <= |str|
    ensures match Find(str, old_, k)
            case At(q) => q >= k && Find(done + str[k..], old_, |done|) == At(q - k + |done|)
            case Npos => Find(done + str[k..], old_, |done|) == Npos
  {
    var s := done + str[k..];
    SameHits(done, str, k, old_);
    FindBehind(Hits(s, old_), |s| + 1, Hits(str, old_), |str| + 1, |done|, k);
  }

  lemma FoundFits(s: string, old_: string, k: nat)
    ensures Find(s, old_, k).At? ==> Find(s, old_, k).pos + |old_| <= |s|
  {
    FindFirst(Hits(s, old_), |s| + 1, k);
  }

  // the loop between two turns: done is finished text, k how far the input is used, and tail(k) what the
  // replacement of the rest is
  ghost predicate Between(str: string, whole: string, tail: nat -> string, s: string, pos: nat, done: string, k: nat)
  {
    pos == |done| && k <= |str| && s == done + str[k..] && done + tail(k) == whole
  }

  function Tail(str: string, old_: string, new_: string): nat -> string
    requires old_ != ""
  {
    (k: nat) => DistinctFrom(Hits(str, old_), str, |old_|, new_, k)
  }

  lemma OneSubstitution(str: string, whole: string, tail: nat -> string, s: string, pos: nat, done: string, k: nat,
                        q: nat, n: nat, new_: string)
    requires Between(str, whole, tail, s, pos, done, k)
    requires k <= q && q + n <= |str| && tail(k) == str[k..q] + (new_ + tail(q + n))
    ensures pos + (q - k) + n <= |s|
    ensures Between(str, whole, tail, Substituted(s, pos + (q - k), n, new_), pos + (q - k) + |new_|,
                    (done + str[k..q]) + new_, q + n)
  {
    assert s[..pos + (q - k)] == done + str[k..q];
    assert s[pos + (q - k) + n..] == str[q + n..];
    assert done + (str[k..q] + (new_ + tail(q + n))) == ((done + str[k..q]) + new_) + tail(q + n);
  }

  lemma TailTurn(str: string, old_: string, new_: string, k: nat)
    requires old_ != "" && k <= |str|
    ensures match Find(str, old_, k)
            case Npos => Tail(str, old_, new_)(k) == str[k..]
            case At(q) =>
              && k <= q && q + |old_| <= |str|
              && Tail(str, old_, new_)(k) == str[k..q] + (new_ + Tail(str, old_, new_)(q + |old_|))
  {
    DistinctTurn(Hits(str, old_), str, |old_|, new_, k);
    FoundFits(str, old_, k);
  }

  lemma TurnFinds(str: string, old_: string, new_: string, whole: string, s: string, pos: nat, done: string, k: nat)
      returns (done': string, k': nat)
    requires old_ != "" && Between(str, whole, Tail(str, old_, new_), s, pos, done, k)
    ensures match Find(s, old_, pos)
            case Npos => s == whole
            case At(p) =>
              && k < k' <= |str| && p + |old_| <= |s|
              && Between(str, whole, Tail(str, old_, new_), Substituted(s, p, |old_|, new_), p + |new_|, done', k')
  {
    FindInRest(done, str, k, old_);
    TailTurn(str, old_, new_, k);
    match Find(str, old_, k)
    case Npos =>
      done', k' := done, k;
    case At(q) =>
      OneSubstitution(str, whole, Tail(str, old_, new_), s, pos, done, k, q, |old_|, new_);
      done', k' := (done + str[k..q]) + new_, q + |old_|;
  }

  method ReplaceAllDistinct(str: string, old_: string, new_: string) returns (s: string)
    requires old_ != ""
    ensures s == Distinct(str, old_, new_)
  {
    s := str;
    var pos: nat := 0;
    ghost var whole, done, k: nat := Distinct(str, old_, new_), "", 0;
    while true
      invariant Between(str, whole, Tail(str, old_, new_), s, pos, done, k)
      decreases |str| - k
    {
      ghost var done', k' := TurnFinds(str, old_, new_, whole, s, pos, done, k);
      var found := Find(s, old_, pos);
      if found.Npos? {
        return;
      }
      s := Substituted(s, found.pos, |old_|, new_);
      pos := found.pos + |new_|;
      done, k := done', k';
    }
  }

  // ----- replacing the first occurrence until there is none -----

  // one turn of replace_all, where there is an occurrence
  function Rewritten(s: string, old_: string, new_: string): (r: string)
    requires Find(s, old_, 0).At?
    ensures |r| == |s| - |old_| + |new_|
  {
    FoundFits(s, old_, 0);
    Substituted(s, Find(s, old_, 0).pos, |old_|, new_)
  }

  lemma FindIffOccurs(s: string, old_: string)
    ensures Find(s, old_, 0).At? <==> Occurs(s, old_)
  {
    var hit := Hits(s, old_);
    FindFirst(hit, |s| + 1, 0);
    assert forall i: nat :: hit(i) == OccursAt(s, old_, i);
  }

  // the loop after n turns, standing still once there is no occurrence
  function Turns(s: string, old_: string, new_: string, n: nat): string {
    if n == 0 then s else OneTurn(Turns(s, old_, new_, n - 1), old_, new_)
  }

  function OneTurn(t: string, old_: string, new_: string): string {
    if Find(t, old_, 0).At? then Rewritten(t, old_, new_) else t
  }

  lemma {:induction false} TurnsFirst(s: string, old_: string, new_: string, n: nat)
    ensures Turns(s, old_, new_, n + 1) == Turns(OneTurn(s, old_, new_), old_, new_, n)
  {
    if n > 0 {
      TurnsFirst(s, old_, new_, n - 1);
    }
  }

  // ----- why it ends -----

  const BASE: int := 0x11_0000

  function Power(n: nat): (p: nat)
    ensures p > 0
  {
    if n == 0 then 1 else BASE * Power(n - 1)
  }

  // a text as a number, its characters being the digits
  function Value(s: string): nat {
    if s == "" then 0 else Value(s[..|s| - 1]) * BASE + s[|s| - 1] as int
  }

  lemma {:induction false} ValueBound(s: string)
    ensures Value(s) < Power(|s|)
  {
    if s != "" {
      var n := |s| - 1;
      ValueBound(s[..n]);
      DigitBound(Value(s[..n]), Power(n), s[n] as int);
    }
  }

  lemma DigitBound(v: nat, p: nat, d: nat)
    requires v < p && d < BASE
    ensures v * BASE + d < BASE * p
  {
    assert (p - v) * BASE >= BASE;
  }

  // texts of one length are different numbers
  lemma {:induction false} ValueInjective(a: string, b: string)
    requires |a| == |b| && Value(a) == Value(b)
    ensures a == b
  {
    if a != "" {
      var n := |a| - 1;
      SameDigits(Value(a[..n]), a[n] as int, Value(b[..n]), b[n] as int);
      ValueInjective(a[..n], b[..n]);
      assert a == a[..n] + [a[n]] && b == b[..n] + [b[n]];
    }
  }

  lemma SameDigits(v: nat, d: nat, w: nat, e: nat)
    requires d < BASE && e < BASE && v * BASE + d == w * BASE + e
    ensures v == w && d == e
  {
  }

  lemma {:induction false} ValueAppend(a: string, b: string)
    ensures Value(a + b) == Value(a) * Power(|b|) + Value(b)
    decreases |b|
  {
    if b == "" {
      assert a + b == a;
    } else {
      var n := |b| - 1;
      assert (a + b)[..|a| + n] == a + b[..n];
      ValueAppend(a, b[..n]);
      Shifted(Value(a), Power(n), Value(b[..n]), b[n] as int);
    }
  }

  lemma Shifted(v: nat, p: nat, w: nat, d: nat)
    ensures (v * p + w) * BASE + d == v * (BASE * p) + (w * BASE + d)
  {
  }

  // putting one text for another of its length moves the number the way of the two
  lemma SubstitutedValue(x: string, y: string, old_: string, new_: string)
    requires |old_| == |new_|
    ensures Value(new_) < Value(old_) ==> Value((x + new_) + y) < Value((x + old_) + y)
    ensures Value(new_) > Value(old_) ==> Value((x + new_) + y) > Value((x + old_) + y)
  {
    var head := Value(x) * Power(|old_|);
    var a, b, p := head + Value(new_), head + Value(old_), Power(|y|);
    MiddleValue(x, new_, y, a, p);
    MiddleValue(x, old_, y, b, p);
    Ordered(a, b, p);
    Ordered(b, a, p);
  }

  lemma MiddleValue(x: string, m: string, y: string, head: nat, p: nat)
    requires head == Value(x) * Power(|m|) + Value(m) && p == Power(|y|)
    ensures Value((x + m) + y) == head * p + Value(y)
  {
    ValueAppend(x + m, y);
    ValueAppend(x, m);
  }

  lemma Ordered(a: nat, b: nat, p: nat)
    requires p > 0
    ensures a < b ==> a * p < b * p
  {
    if a < b {
      assert (b - a) * p > 0;
      assert b * p == a * p + (b - a) * p;
    }
  }

  // what every turn makes smaller
  function Measure(s: string, old_: string, new_: string): int {
    if |new_| < |old_| then |s|
    else if Value(new_) < Value(old_) then Value(s)
    else Power(|s|) - Value(s)
  }

  // what a turn takes out of the text, and what it puts there
  lemma TurnParts(s: string, old_: string, new_: string) returns (x: string, y: string)
    requires Find(s, old_, 0).At?
    ensures s == (x + old_) + y && Rewritten(s, old_, new_) == (x + new_) + y
  {
    FoundFits(s, old_, 0);
    FindFirst(Hits(s, old_), |s| + 1, 0);
    var p := Find(s, old_, 0).pos;
    x, y := s[..p], s[p + |old_|..];
  }

  lemma TurnShrinks(s: string, old_: string, new_: string)
    requires |new_| <= |old_| && new_ != old_ && Find(s, old_, 0).At?
    ensures 0 <= Measure(Rewritten(s, old_, new_), old_, new_) < Measure(s, old_, new_)
  {
    var x, y := TurnParts(s, old_, new_);
    if |new_| == |old_| {
      SubstitutedValue(x, y, old_, new_);
      if Value(new_) == Value(old_) {
        ValueInjective(new_, old_);
      }
      ValueBound(s);
      ValueBound(Rewritten(s, old_, new_));
    }
  }

  // the loop ends for this text
  ghost predicate Ends(s: string, old_: string, new_: string) {
    exists n: nat :: !Occurs(Turns(s, old_, new_, n), old_)
  }

  // called where it ends, the loop leaves no occurrence of the old text
  method ReplaceAll(str: string, old_: string, new_: string) returns (s: string, ghost turns: nat)
    requires Ends(str, old_, new_)
    ensures s == Turns(str, old_, new_, turns) && !Occurs(s, old_)
    ensures turns == 0 <==> !Occurs(str, old_)
  {
    s, turns := str, 0;
    ghost var last := LastTurn(str, old_, new_);
    while Find(s, old_, 0).At?
      invariant Reached(str, old_, new_, last, turns, s)
      decreases last - turns
    {
      NextTurn(str, old_, new_, last, turns, s);
      s, turns := Rewritten(s, old_, new_), turns + 1;
    }
    FindIffOccurs(s, old_);
  }

  lemma LastTurn(str: string, old_: string, new_: string) returns (last: nat)
    requires Ends(str, old_, new_)
    ensures Reached(str, old_, new_, last, 0, str)
  {
    last :| !Occurs(Turns(str, old_, new_, last), old_);
  }

  // the loop after n turns, of no more than `last`
  ghost predicate Reached(str: string, old_: string, new_: string, last: nat, n: nat, s: string) {
    && s == Turns(str, old_, new_, n) && n <= last && !Occurs(Turns(str, old_, new_, last), old_)
    && (n > 0 ==> Occurs(str, old_))
  }

  lemma NextTurn(str: string, old_: string, new_: string, last: nat, n: nat, s: string)
    requires Reached(str, old_, new_, last, n, s) && Find(s, old_, 0).At?
    ensures n < last && Reached(str, old_, new_, last, n + 1, Rewritten(s, old_, new_))
  {
    FindIffOccurs(s, old_);
  }

  lemma {:induction false} EndsBy(s: string, old_: string, new_: string)
    requires |new_| <= |old_| && new_ != old_
    ensures Ends(s, old_, new_)
    decreases Measure(s, old_, new_)
  {
    FindIffOccurs(s, old_);
    if Find(s, old_, 0).Npos? {
      assert !Occurs(Turns(s, old_, new_, 0), old_);
    } else {
      TurnShrinks(s, old_, new_);
      EndsBy(OneTurn(s, old_, new_), old_, new_);
      var n: nat :| !Occurs(Turns(OneTurn(s, old_, new_), old_, new_, n), old_);
      TurnsFirst(s, old_, new_, n);
      assert !Occurs(Turns(s, old_, new_, n + 1), old_);
    }
  }

  // for a new text that is no longer: the loop ends exactly when the texts differ or there is no occurrence
  lemma EndsIff(s: string, old_: string, new_: string)
    requires |new_| <= |old_|
    ensures Ends(s, old_, new_) <==> new_ != old_ || !Occurs(s, old_)
  {
    if new_ != old_ {
      EndsBy(s, old_, new_);
    } else if Occurs(s, old_) {
      assert OccursAt(new_, old_, 0);
      forall n: nat
        ensures Occurs(Turns(s, old_, new_, n), old_)
      {
        NeverEnds(s, old_, new_, n);
      }
    } else {
      assert !Occurs(Turns(s, old_, new_, 0), old_);
    }
  }

  lemma SubstitutedContains(t: string, p: nat, n: nat, new_: string, old_: string, k: nat)
    requires p + n <= |t| && OccursAt(new_, old_, k)
    ensures OccursAt(Substituted(t, p, n, new_), old_, p + k)
  {
    var r := Substituted(t, p, n, new_);
    assert r[p..p + |new_|] == new_;
    assert r[p + k..p + k + |old_|] == r[p..p + |new_|][k..k + |old_|];
  }

  // when the new text contains the old one, a string with an occurrence keeps one for ever
  lemma {:induction false} NeverEnds(s: string, old_: string, new_: string, n: nat)
    requires Occurs(new_, old_) && Occurs(s, old_)
    ensures Occurs(Turns(s, old_, new_, n), old_)
  {
    if n > 0 {
      NeverEnds(s, old_, new_, n - 1);
      var t := Turns(s, old_, new_, n - 1);
      FindIffOccurs(t, old_);
      FoundFits(t, old_, 0);
      var k: nat :| OccursAt(new_, old_, k);
      SubstitutedContains(t, Find(t, old_, 0).pos, |old_|, new_, old_, k);
    }
  }

  // ----- a longer text that cannot make an occurrence with what is around it -----

  // the new text is no shorter and does not contain the old one, and no end of one begins the other
  ghost predicate Apart(old_: string, new_: string) {
    && |old_| <= |new_| && !Occurs(new_, old_)
    && forall k :: 0 < k < |old_| ==> old_[|old_| - k..] != new_[..k] && old_[..k] != new_[|new_| - k..]
  }

  // no occurrence begins in front of `pos`
  predicate ClearBefore(s: string, old_: string, pos: nat) {
    forall i: nat :: i < pos ==> !OccursAt(s, old_, i)
  }

  // an occurrence that begins in front of the text put in, in it, and one that reaches beyond it
  lemma CrossesLeft(x: string, new_: string, y: string, old_: string, i: nat, k: nat)
    requires OccursAt((x + new_) + y, old_, i) && i < |x| && i + |old_| == |x| + k && 0 < k <= |new_|
    ensures k < |old_| && old_[|old_| - k..] == new_[..k]
  {
    var r := (x + new_) + y;
    assert r[|x|..|x| + k] == new_[..k] && r[|x|..|x| + k] == r[i..i + |old_|][|old_| - k..];
  }

  lemma LiesInside(x: string, new_: string, y: string, old_: string, i: nat)
    requires OccursAt((x + new_) + y, old_, |x| + i) && i + |old_| <= |new_|
    ensures OccursAt(new_, old_, i)
  {
    var r, j := (x + new_) + y, |x| + i;
    assert r[j..j + |old_|] == new_[i..i + |old_|];
  }

  lemma CrossesRight(x: string, new_: string, y: string, old_: string, i: nat, k: nat)
    requires OccursAt((x + new_) + y, old_, i) && |x| <= i && i + k == |x| + |new_| && 0 < k < |old_|
    ensures old_[..k] == new_[|new_| - k..]
  {
    var r := (x + new_) + y;
    assert r[i..i + k] == new_[|new_| - k..] && r[i..i + k] == r[i..i + |old_|][..k];
  }

  // the text put in is in no occurrence that begins in front of its end
  lemma PutInClear(x: string, new_: string, y: string, old_: string, i: nat)
    requires Apart(old_, new_) && i < |x| + |new_|
    requires OccursAt((x + new_) + y, old_, i)
    ensures i + |old_| <= |x| && OccursAt(x, old_, i)
  {
    if i + |old_| <= |x| {
      assert ((x + new_) + y)[i..i + |old_|] == x[i..i + |old_|];
    } else if i < |x| {
      CrossesLeft(x, new_, y, old_, i, i + |old_| - |x|);
    } else if i + |old_| <= |x| + |new_| {
      LiesInside(x, new_, y, old_, i - |x|);
    } else {
      CrossesRight(x, new_, y, old_, i, |x| + |new_| - i);
    }
  }

  lemma TurnClears(s: string, old_: string, new_: string)
    requires old_ != "" && Apart(old_, new_) && Find(s, old_, 0).At?
    ensures ClearBefore(Rewritten(s, old_, new_), old_, Find(s, old_, 0).pos + |new_|)
  {
    FoundFits(s, old_, 0);
    FindFirst(Hits(s, old_), |s| + 1, 0);
    var p := Find(s, old_, 0).pos;
    assert forall i: nat :: i < p ==> !Hits(s, old_)(i);
    forall i: nat | i < p + |new_|
      ensures !OccursAt(Rewritten(s, old_, new_), old_, i)
    {
      if OccursAt(Rewritten(s, old_, new_), old_, i) {
        PutInClear(s[..p], new_, s[p + |old_|..], old_, i);
        OccursInFront(s, p, old_, i);
      }
    }
  }

  lemma OccursInFront(s: string, p: nat, old_: string, i: nat)
    requires p <= |s| && OccursAt(s[..p], old_, i)
    ensures Hits(s, old_)(i)
  {
    assert s[i..i + |old_|] == s[..p][i..i + |old_|];
  }

  // a search from the beginning finds what a search from there finds
  lemma {:induction false} FindLater(hit: Hit, n: nat, k: nat, pos: nat)
    requires k <= pos <= n && forall i: nat :: k <= i < pos ==> !hit(i)
    ensures FindHit(hit, n, k) == FindHit(hit, n, pos)
    decreases pos - k
  {
    if k < pos {
      FindLater(hit, n, k + 1, pos);
    }
  }

  lemma FindBehindClear(s: string, old_: string, pos: nat)
    requires pos <= |s| && ClearBefore(s, old_, pos)
    ensures Find(s, old_, 0) == Find(s, old_, pos)
  {
    FindLater(Hits(s, old_), |s| + 1, 0, pos);
  }

  // both loops take the same turn
  lemma SameTurn(str: string, old_: string, new_: string, whole: string, s: string, done: string, k: nat)
      returns (done': string, k': nat)
    requires old_ != "" && Apart(old_, new_) && ClearBefore(s, old_, |done|)
    requires Between(str, whole, Tail(str, old_, new_), s, |done|, done, k)
    ensures if Find(s, old_, 0).Npos? then s == whole && !Occurs(s, old_)
            else
              && k < k' <= |str| && ClearBefore(Rewritten(s, old_, new_), old_, |done'|)
              && Between(str, whole, Tail(str, old_, new_), Rewritten(s, old_, new_), |done'|, done', k')
  {
    done', k' := TurnFinds(str, old_, new_, whole, s, |done|, done, k);
    FindBehindClear(s, old_, |done|);
    FindIffOccurs(s, old_);
    if Find(s, old_, 0).At? {
      TurnClears(s, old_, new_);
    }
  }

  // the loop of replace_all is that of replace_all_distinct, turn by turn
  lemma {:induction false} ApartTurns(str: string, old_: string, new_: string, whole: string, s: string, done: string,
                                      k: nat)
      returns (n: nat)
    requires old_ != "" && Apart(old_, new_) && ClearBefore(s, old_, |done|)
    requires Between(str, whole, Tail(str, old_, new_), s, |done|, done, k)
    ensures Turns(s, old_, new_, n) == whole && !Occurs(whole, old_)
    decreases |str| - k
  {
    var done', k' := SameTurn(str, old_, new_, whole, s, done, k);
    if Find(s, old_, 0).Npos? {
      n := 0;
    } else {
      var rest := ApartTurns(str, old_, new_, whole, Rewritten(s, old_, new_), done', k');
      TurnsFirst(s, old_, new_, rest);
      n := rest + 1;
    }
  }

  // such texts are replaced from left to right, each occurrence once, as by replace_all_distinct
  lemma ApartIsDistinct(str: string, old_: string, new_: string)
    requires old_ != "" && Apart(old_, new_)
    ensures Ends(str, old_, new_) && !Occurs(Distinct(str, old_, new_), old_)
    ensures forall n: nat :: !Occurs(Turns(str, old_, new_, n), old_) ==>
                               Turns(str, old_, new_, n) == Distinct(str, old_, new_)
  {
    var whole := Distinct(str, old_, new_);
    assert "" + Tail(str, old_, new_)(0) == whole;
    var n := ApartTurns(str, old_, new_, whole, str, "", 0);
    forall j: nat | !Occurs(Turns(str, old_, new_, j), old_)
      ensures Turns(str, old_, new_, j) == whole
    {
      StandStill(str, old_, new_, j, n);
      StandStill(str, old_, new_, n, j);
    }
  }

  // without an occurrence nothing changes any more
  lemma {:induction false} StandStill(str: string, old_: string, new_: string, n: nat, later: nat)
    requires !Occurs(Turns(str, old_, new_, n), old_)
    ensures later >= n ==> Turns(str, old_, new_, later) == Turns(str, old_, new_, n)
    decreases later
  {
    if later > n {
      StandStill(str, old_, new_, n, later - 1);
      FindIffOccurs(Turns(str, old_, new_, n), old_);
    }
  }
}

/**
  The members of the order sets, "user#repo#item#subscription": CUserQueryUpdate takes them apart with four
  calls of find and substr and puts them together again.

  The positions are ints: where find reports npos, the next search starts at 0 and the piece runs to the
  end of the text.
*/
module OrderMember {
  import opened CText
  import opened RedisText

  // find of '#' at or after `from`, -1 for npos
  function FindHash(s: string, from: nat): (i: int)
    requires from <= |s|
    ensures i == -1 || from <= i < |s|
  {
    var i := IndexOf(s, '#', from);
    if i == |s| then -1 else i
  }

  // substr from `from`, up to the '#' found or to the end
  function Piece(s: string, from: nat): string
    requires from <= |s|
  {
    var i := FindHash(s, from);
    if i == -1 then s[from..] else s[from..i]
  }

  function NextStart(s: string, from: nat): (next: nat)
    requires from <= |s|
    ensures next <= |s|
  {
    FindHash(s, from) + 1
  }

  // the four pieces
  function UserOf(s: string): string {
    Piece(s, 0)
  }

  function RepoOf(s: string): string {
    Piece(s, NextStart(s, 0))
  }

  function ItemOf(s: string): string {
    Piece(s, NextStart(s, NextStart(s, 0)))
  }

  function SubscriptionOf(s: string): string {
    Piece(s, NextStart(s, NextStart(s, NextStart(s, 0))))
  }

  function Joined(user: string, repo: string, item: string, subscription: string): string {
    user + "#" + repo + "#" + item + "#" + subscription
  }

  function Rebuilt(s: string): string {
    Joined(UserOf(s), RepoOf(s), ItemOf(s), SubscriptionOf(s))
  }

  function Hashes(s: string): nat {
    if s == "" then 0 else (if s[0] == '#' then 1 else 0) + Hashes(s[1..])
  }

  lemma {:induction false} HashesAppend(s: string, t: string)
    ensures Hashes(s + t) == Hashes(s) + Hashes(t)
  {
    if s == "" {
      assert s + t == t;
    } else {
      HashesAppend(s[1..], t);
      assert (s + t)[1..] == s[1..] + t;
    }
  }

  lemma {:induction false} NoHashes(s: string)
    ensures Hashes(s) == 0 <==> '#' !in s
  {
    if s != "" {
      NoHashes(s[1..]);
    }
  }

  lemma PieceFree(s: string, from: nat)
    requires from <= |s|
    ensures '#' !in Piece(s, from)
  {
    IndexOfFinds(s, '#', from);
  }

  lemma JoinedHashes(user: string, repo: string, item: string, subscription: string)
    ensures Hashes(Joined(user, repo, item, subscription)) ==
            Hashes(user) + Hashes(repo) + Hashes(item) + Hashes(subscription) + 3
  {
    HashesAppend(user + "#" + repo + "#" + item + "#", subscription);
    HashesAppend(user + "#" + repo + "#" + item, "#");
    HashesAppend(user + "#" + repo + "#", item);
    HashesAppend(user + "#" + repo, "#");
    HashesAppend(user + "#", repo);
    HashesAppend(user, "#");
  }

  // whatever it is made from, the rebuilt text has exactly four fields
  lemma RebuiltHashes(s: string)
    ensures Hashes(Rebuilt(s)) == 3
  {
    var a := NextStart(s, 0);
    var b := NextStart(s, a);
    var c := NextStart(s, b);
    PieceFree(s, 0);
    PieceFree(s, a);
    PieceFree(s, b);
    PieceFree(s, c);
    NoHashes(UserOf(s));
    NoHashes(RepoOf(s));
    NoHashes(ItemOf(s));
    NoHashes(SubscriptionOf(s));
    JoinedHashes(UserOf(s), RepoOf(s), ItemOf(s), SubscriptionOf(s));
  }

  // one piece from the left
  lemma Peel(s: string, from: nat)
    requires from <= |s|
    ensures if Hashes(s[from..]) == 0 then Piece(s, from) == s[from..]
            else
              var next := NextStart(s, from);
              && next > from && s[from..] == Piece(s, from) + "#" + s[next..]
              && Hashes(s[next..]) == Hashes(s[from..]) - 1
  {
    var i := IndexOf(s, '#', from);
    IndexOfFinds(s, '#', from);
    NoHashes(s[from..]);
    if i < |s| {
      assert s[from..][i - from] == '#';
      assert s[from..] == s[from..i] + "#" + s[i + 1..];
      HashesAppend(s[from..i] + "#", s[i + 1..]);
      HashesAppend(s[from..i], "#");
      NoHashes(s[from..i]);
    } else {
      assert '#' !in s[from..];
    }
  }

  // the members of four fields, and no others, are rebuilt as they were
  lemma RebuiltIff(s: string)
    ensures Rebuilt(s) == s <==> Hashes(s) == 3
  {
    RebuiltHashes(s);
    if Hashes(s) == 3 {
      var a := NextStart(s, 0);
      var b := NextStart(s, a);
      var c := NextStart(s, b);
      assert s[0..] == s;
      Peel(s, 0);
      Peel(s, a);
      Peel(s, b);
      Peel(s, c);
      Reassemble(s, UserOf(s), s[a..], RepoOf(s), s[b..], ItemOf(s), s[c..]);
    }
  }

  lemma Reassemble(s: string, user: string, s1: string, repo: string, s2: string, item: string, s3: string)
    requires s == user + "#" + s1 && s1 == repo + "#" + s2 && s2 == item + "#" + s3
    ensures s == Joined(user, repo, item, s3)
  {
  }

  // a text is cut at its first '#' in one way only
  lemma CutUnique(p: string, x: string, q: string, y: string)
    requires '#' !in p && '#' !in q && p + "#" + x == q + "#" + y
    ensures p == q && x == y
  {
    var s := p + "#" + x;
    assert s[|p|] == '#' && s[|q|] == '#';
    assert forall i :: 0 <= i < |p| ==> s[i] == p[i];
    assert forall i :: 0 <= i < |q| ==> s[i] == q[i];
    assert |p| == |q|;
    assert s[..|p|] == p && s[..|q|] == q && s[|p| + 1..] == x && s[|q| + 1..] == y;
  }

  lemma PeelIs(s: string, from: nat, field: string, rest: string)
    requires from <= |s| && s[from..] == field + "#" + rest && '#' !in field
    ensures Piece(s, from) == field && s[NextStart(s, from)..] == rest
  {
    assert s[from..][|field|] == '#';
    NoHashes(s[from..]);
    Peel(s, from);
    PieceFree(s, from);
    CutUnique(Piece(s, from), s[NextStart(s, from)..], field, rest);
  }

  // fields without '#' are found again
  lemma FieldsRecovered(user: string, repo: string, item: string, subscription: string)
    requires '#' !in user && '#' !in repo && '#' !in item && '#' !in subscription
    ensures var s := Joined(user, repo, item, subscription);
            && UserOf(s) == user && RepoOf(s) == repo && ItemOf(s) == item && SubscriptionOf(s) == subscription
            && Rebuilt(s) == s
  {
    var s2 := item + "#" + subscription;
    var s1 := repo + "#" + s2;
    var s := user + "#" + s1;
    Reassemble(s, user, s1, repo, s2, item, subscription);
    assert s[0..] == s;
    PeelIs(s, 0, user, s1);
    var a := NextStart(s, 0);
    PeelIs(s, a, repo, s2);
    var b := NextStart(s, a);
    PeelIs(s, b, item, subscription);
    NoHashes(subscription);
    Peel(s, NextStart(s, b));
  }

  // without any '#' every search fails and starts over, so the text becomes all four fields
  lemma RebuiltOneField(s: string)
    requires '#' !in s
    ensures Rebuilt(s) == Joined(s, s, s, s)
  {
    IndexOfIs(s, '#', 0, |s|);
    assert s[0..] == s;
  }

  // the rebuilt text has no characters of its own but '#'
  lemma RebuiltFrom(s: string, c: char)
    requires c != '#' && c !in s
    ensures c !in Rebuilt(s)
  {
  }

  // blanks around a word do not change its fields
  lemma {:induction false} OneWordHashes(s: string, w: string)
    requires Words(s) == [w]
    ensures Hashes(w) == Hashes(s)
    decreases |s|
  {
    if s[0] == ' ' {
      OneWordHashes(s[1..], w);
    } else {
      var e := IndexOf(s, ' ', 0);
      assert [w] == [s[..e]] + Words(s[e..]);
      assert [w][1..] == Words(s[e..]) && [w][0] == s[..e];
      NoWordsHashes(s[e..]);
      assert s == s[..e] + s[e..];
      HashesAppend(s[..e], s[e..]);
    }
  }

  lemma {:induction false} NoWordsHashes(s: string)
    requires Words(s) == []
    ensures Hashes(s) == 0
  {
    if s != "" && s[0] == ' ' {
      NoWordsHashes(s[1..]);
    }
  }
}

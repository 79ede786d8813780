/**
  The commands that CDataRedis prints into a buffer and hands over as a format: SADD and SMOVE.

  The client library cuts the text into words at its blanks, so a key or member with a blank is several
  words. A text with '%' is a format with arguments that are not there; how it is read is a parameter.
*/
module RedisText {
  import opened CText

  const COMMAND_LIMIT: nat := 4095

  // how a text with '%' is read
  type Formatter = string -> seq<string>

  // what snprintf leaves of a text
  function Printed(s: string): string {
    if |s| <= COMMAND_LIMIT then s else s[..COMMAND_LIMIT]
  }

  predicate Word(s: string) {
    s != "" && ' ' !in s
  }

  // the longest runs without a blank
  function Words(s: string): seq<string>
    decreases |s|
  {
    if s == "" then []
    else if s[0] == ' ' then Words(s[1..])
    else
      var e := IndexOf(s, ' ', 0);
      [s[..e]] + Words(s[e..])
  }

  function Arguments(format: Formatter, s: string): seq<string> {
    if '%' in Printed(s) then format(Printed(s)) else Words(Printed(s))
  }

  // what the server is asked to do
  datatype Call = Refused | Adding(key: string, members: seq<string>) | Moving(from: string, to: string, member: string)

  // SADD takes a key and at least one member
  function SaddCall(format: Formatter, key: string, member: string): Call {
    var words := Arguments(format, "sadd " + key + " " + member);
    if |words| < 3 then Refused else Adding(words[1], words[2..])
  }

  // SMOVE takes two keys and one member
  function SmoveCall(format: Formatter, from: string, to: string, member: string): Call {
    var words := Arguments(format, "smove " + from + " " + to + " " + member);
    if |words| != 4 then Refused else Moving(words[1], words[2], words[3])
  }

  // ----- words -----

  lemma FirstWord(w: string, rest: string)
    requires Word(w)
    ensures Words(w + " " + rest) == [w] + Words(rest)
  {
    var s := w + " " + rest;
    IndexOfIs(s, ' ', 0, |w|);
    assert s[..|w|] == w && s[|w|..][1..] == rest && s[|w|..][0] == ' ';
  }

  lemma {:induction false} OneWord(w: string)
    requires ' ' !in w
    ensures Words(w) == if w == "" then [] else [w]
  {
    if w != "" {
      IndexOfIs(w, ' ', 0, |w|);
      assert w[..|w|] == w && w[|w|..] == "";
    }
  }

  // a text cut short has no more words
  lemma {:induction false} FewerWords(s: string, k: nat)
    requires k <= |s|
    ensures |Words(s[..k])| <= |Words(s)|
    decreases |s|
  {
    if s != "" && k > 0 {
      var t := s[..k];
      if s[0] == ' ' {
        FewerWords(s[1..], k - 1);
        assert t[1..] == s[1..][..k - 1];
      } else {
        var e := IndexOf(s, ' ', 0);
        IndexOfFinds(s, ' ', 0);
        if e < k {
          IndexOfIs(t, ' ', 0, e);
          FewerWords(s[e..], k - e);
          assert t[e..] == s[e..][..k - e];
        } else {
          OneWord(t);
        }
      }
    }
  }

  // ----- what is sent for keys and a member -----

  // a key that is sent as it is
  predicate Key(s: string) {
    Word(s) && '%' !in s
  }

  // what the buffer takes of the rest of a text
  function Fitting(used: nat, s: string): string {
    if used + |s| <= COMMAND_LIMIT then s else if used <= COMMAND_LIMIT then s[..COMMAND_LIMIT - used] else ""
  }

  lemma PrintedRest(front: string, rest: string)
    ensures |front| <= COMMAND_LIMIT ==> Printed(front + rest) == front + Fitting(|front|, rest)
    ensures |front| > COMMAND_LIMIT ==> Printed(front + rest) == front[..COMMAND_LIMIT]
  {
  }

  lemma SaddWords(key: string, rest: string)
    requires Key(key)
    ensures Words("sadd " + key + " " + rest) == ["sadd", key] + Words(rest)
  {
    assert "sadd " + key + " " + rest == "sadd" + " " + (key + " " + rest);
    FirstWord("sadd", key + " " + rest);
    FirstWord(key, rest);
  }

  lemma SmoveWords(from: string, to: string, rest: string)
    requires Key(from) && Key(to)
    ensures Words("smove " + from + " " + to + " " + rest) == ["smove", from, to] + Words(rest)
  {
    assert "smove " + from + " " + to + " " + rest == "smove" + " " + (from + " " + (to + " " + rest));
    FirstWord("smove", from + " " + (to + " " + rest));
    FirstWord(from, to + " " + rest);
    FirstWord(to, rest);
  }

  // behind a front of n words, what is printed has the words of the member, or at most n words
  lemma PrintedWords(format: Formatter, front: string, words: seq<string>, member: string)
    requires '%' !in front && '%' !in member
    requires Words(front) == words
    requires Words(front + Fitting(|front|, member)) == words + Words(Fitting(|front|, member))
    ensures var got := Arguments(format, front + member);
            if |front| <= COMMAND_LIMIT then got == words + Words(Fitting(|front|, member)) else |got| <= |words|
  {
    PrintedRest(front, member);
    if |front| > COMMAND_LIMIT {
      FewerWords(front, COMMAND_LIMIT);
    }
  }

  // every word of the member is added
  lemma SaddIs(format: Formatter, key: string, member: string)
    requires Key(key) && '%' !in member
    ensures var words := Words(Fitting(|key| + 6, member));
            SaddCall(format, key, member) == if words == [] then Refused else Adding(key, words)
  {
    var front := "sadd " + key + " ";
    SaddWords(key, "");
    SaddWords(key, Fitting(|front|, member));
    assert front + "" == front;
    PrintedWords(format, front, ["sadd", key], member);
  }

  // a member that is not one word is refused
  lemma SmoveIs(format: Formatter, from: string, to: string, member: string)
    requires Key(from) && Key(to) && '%' !in member
    ensures var words := Words(Fitting(|from| + |to| + 8, member));
            SmoveCall(format, from, to, member) == if |words| == 1 then Moving(from, to, words[0]) else Refused
  {
    var front := "smove " + from + " " + to + " ";
    SmoveWords(from, to, "");
    SmoveWords(from, to, Fitting(|front|, member));
    assert front + "" == front;
    PrintedWords(format, front, ["smove", from, to], member);
  }

  // the members that are sent as they are
  lemma SaddSendsIff(format: Formatter, key: string, member: string)
    requires Key(key) && '%' !in member
    ensures SaddCall(format, key, member) == Adding(key, [member]) <==>
            Word(member) && |key| + 6 + |member| <= COMMAND_LIMIT
  {
    SaddIs(format, key, member);
    SentIff(|key| + 6, member);
  }

  lemma SmoveSendsIff(format: Formatter, from: string, to: string, member: string)
    requires Key(from) && Key(to) && '%' !in member
    ensures SmoveCall(format, from, to, member) == Moving(from, to, member) <==>
            Word(member) && |from| + |to| + 8 + |member| <= COMMAND_LIMIT
  {
    SmoveIs(format, from, to, member);
    SentIff(|from| + |to| + 8, member);
  }

  lemma SentIff(used: nat, member: string)
    ensures Words(Fitting(used, member)) == [member] <==> Word(member) && used + |member| <= COMMAND_LIMIT
  {
    if Words(Fitting(used, member)) == [member] {
      WordsInside(Fitting(used, member), 0);
    } else if ' ' !in member {
      OneWord(member);
    }
  }

  lemma {:induction false} WordsInside(s: string, j: nat)
    requires j < |Words(s)|
    ensures |Words(s)[j]| <= |s| && Word(Words(s)[j])
    decreases |s|
  {
    if s[0] == ' ' {
      WordsInside(s[1..], j);
    } else {
      IndexOfFinds(s, ' ', 0);
      if j > 0 {
        WordsInside(s[IndexOf(s, ' ', 0)..], j - 1);
      }
    }
  }
}

/**
  CUserQueryTask::BdxGetUrlDomain: the host of a URL with its labels rearranged, those that are no suffix in
  front, the suffixes behind them, the last label last.
*/
module UrlDomain {
  import opened CText

  // ----- labels -----

  // cut at every '.'
  function Labels(s: string): (labels: seq<string>)
    ensures |labels| > 0
  {
    var i := IndexOf(s, '.', 0);
    if i == |s| then [s] else [s[..i]] + Labels(s[i + 1..])
  }

  function Joined(labels: seq<string>): string
    requires |labels| > 0
  {
    if |labels| == 1 then labels[0] else labels[0] + "." + Joined(labels[1..])
  }

  ghost predicate Free(c: char, labels: seq<string>) {
    forall i :: 0 <= i < |labels| ==> c !in labels[i]
  }

  lemma {:induction false} LabelsFree(c: char, s: string)
    requires c == '.' || c !in s
    ensures Free(c, Labels(s))
  {
    var i := IndexOf(s, '.', 0);
    IndexOfFinds(s, '.', 0);
    if i < |s| {
      LabelsFree(c, s[i + 1..]);
    }
  }

  lemma {:induction false} JoinedFree(c: char, labels: seq<string>)
    requires |labels| > 0 && Free(c, labels) && c != '.'
    ensures c !in Joined(labels)
  {
    if |labels| > 1 {
      JoinedFree(c, labels[1..]);
    }
  }

  lemma {:induction false} LabelsJoined(labels: seq<string>)
    requires |labels| > 0 && Free('.', labels)
    ensures Labels(Joined(labels)) == labels
  {
    if |labels| == 1 {
      OnlyLabel(labels[0]);
    } else {
      LabelsJoined(labels[1..]);
      FirstLabel(labels[0], Joined(labels[1..]));
    }
  }

  lemma OnlyLabel(s: string)
    requires '.' !in s
    ensures Labels(s) == [s]
  {
    IndexOfIs(s, '.', 0, |s|);
  }

  lemma FirstLabel(first: string, rest: string)
    requires '.' !in first
    ensures Labels(first + "." + rest) == [first] + Labels(rest)
  {
    var s := first + "." + rest;
    IndexOfIs(s, '.', 0, |first|);
    assert s[..|first|] == first && s[|first| + 1..] == rest;
  }

  // ----- the partition -----

  datatype Kind = Plain | Suffix | Dropped

  function Of(kind: string -> Kind, k: Kind, labels: seq<string>): seq<string> {
    if labels == [] then []
    else
      var n := |labels| - 1;
      Of(kind, k, labels[..n]) + (if kind(labels[n]) == k then [labels[n]] else [])
  }

  // the two vectors of the program
  datatype Parts = Parts(domain: seq<string>, suffix: seq<string>)

  function PartsOf(kind: string -> Kind, labels: seq<string>): Parts
    requires |labels| > 0
  {
    var n := |labels| - 1;
    Parts(Of(kind, Plain, labels[..n]),
          Of(kind, Suffix, labels[..n]) + (if labels[n] == "" then [] else [labels[n]]))
  }

  lemma OfSnoc(kind: string -> Kind, k: Kind, labels: seq<string>, x: string)
    ensures Of(kind, k, labels + [x]) == Of(kind, k, labels) + (if kind(x) == k then [x] else [])
    ensures Bag(Of(kind, k, labels + [x])) == Bag(Of(kind, k, labels)) +
            (if kind(x) == k then multiset{x} else multiset{})
  {
    assert (labels + [x])[..|labels|] == labels;
  }

  function Bag(labels: seq<string>): multiset<string> {
    multiset(labels)
  }

  lemma BagSnoc(labels: seq<string>, x: string)
    ensures Bag(labels + [x]) == Bag(labels) + multiset{x}
  {
  }

  // three kinds make up all labels
  lemma {:induction false} KindsConserve(kind: string -> Kind, labels: seq<string>)
    ensures Bag(labels) ==
            Bag(Of(kind, Plain, labels)) + Bag(Of(kind, Suffix, labels)) + Bag(Of(kind, Dropped, labels))
  {
    if labels != [] {
      var n := |labels| - 1;
      var init, x := labels[..n], labels[n];
      KindsConserve(kind, init);
      Unsnoc([], labels, init, x);
      BagSnoc(init, x);
      OfSnoc(kind, Plain, init, x);
      OfSnoc(kind, Suffix, init, x);
      OfSnoc(kind, Dropped, init, x);
      OneOf(kind(x), x, Bag(init), Bag(Of(kind, Plain, init)), Bag(Of(kind, Suffix, init)), Bag(Of(kind, Dropped,
          init)));
    }
  }

  lemma OneOf(k: Kind, x: string, all: multiset<string>, p: multiset<string>, s: multiset<string>, d: multiset<string>)
    requires all == p + s + d
    ensures all + multiset{x} ==
            (p + (if k == Plain then multiset{x} else multiset{})) +
            (s + (if k == Suffix then multiset{x} else multiset{})) +
            (d + (if k == Dropped then multiset{x} else multiset{}))
  {
  }

  // one word alone is dropped
  ghost predicate DropsOnly(kind: string -> Kind, word: string) {
    forall x :: kind(x) == Dropped <==> x == word
  }

  // so many times the one word
  function Copies(word: string, n: nat): multiset<string> {
    multiset{}[word := n]
  }

  lemma {:induction false} DroppedAre(kind: string -> Kind, word: string, labels: seq<string>)
    requires DropsOnly(kind, word)
    ensures Bag(Of(kind, Dropped, labels)) == Copies(word, Bag(labels)[word])
  {
    if labels != [] {
      var n := |labels| - 1;
      var init, x := labels[..n], labels[n];
      DroppedAre(kind, word, init);
      Unsnoc([], labels, init, x);
      BagSnoc(init, x);
      OfSnoc(kind, Dropped, init, x);
    }
  }

  // the labels are those of the two vectors, the dropped word in front of the last label, and the last label
  // if it is empty
  lemma PartsConserve(kind: string -> Kind, word: string, labels: seq<string>)
    requires DropsOnly(kind, word) && |labels| > 0
    ensures var parts, n := PartsOf(kind, labels), |labels| - 1;
            Bag(labels) == Bag(parts.domain) + Bag(parts.suffix) + Copies(word, Bag(labels[..n])[word])
                           + (if labels[n] == "" then multiset{""} else multiset{})
  {
    var n := |labels| - 1;
    var init, last := labels[..n], labels[n];
    KindsConserve(kind, init);
    DroppedAre(kind, word, init);
    Unsnoc([], labels, init, last);
    BagSnoc(init, last);
    BagSnoc(Of(kind, Suffix, init), last);
    LastLabelBag(Bag(init), Bag(Of(kind, Plain, init)), Bag(Of(kind, Suffix, init)), Copies(word, Bag(init)[word]),
        last);
    assert Of(kind, Suffix, init) + [] == Of(kind, Suffix, init);
  }

  lemma LastLabelBag(all: multiset<string>, p: multiset<string>, s: multiset<string>, d: multiset<string>, last: string)
    requires all == p + s + d
    ensures all + multiset{last} == p + (s + multiset{last}) + d
    ensures all + multiset{last} == p + s + d + multiset{last}
  {
  }

  // the labels of the result
  function Arranged(parts: Parts): (labels: seq<string>)
    ensures |labels| > 0
  {
    parts.domain + (if parts.suffix == [] then [""] else parts.suffix)
  }

  lemma {:induction false} OfAppend(kind: string -> Kind, k: Kind, a: seq<string>, b: seq<string>)
    ensures Of(kind, k, a + b) == Of(kind, k, a) + Of(kind, k, b)
    decreases |b|
  {
    if b == [] {
      assert a + b == a;
    } else {
      var n := |b| - 1;
      var init, x := b[..n], b[n];
      Unsnoc(a, b, init, x);
      OfAppend(kind, k, a, init);
      OfSnoc(kind, k, a + init, x);
      OfSnoc(kind, k, init, x);
    }
  }

  lemma Unsnoc(a: seq<string>, b: seq<string>, init: seq<string>, x: string)
    requires |b| > 0 && init == b[..|b| - 1] && x == b[|b| - 1]
    ensures b == init + [x] && a + b == (a + init) + [x]
  {
  }

  ghost predicate AllOf(kind: string -> Kind, k: Kind, labels: seq<string>) {
    forall i :: 0 <= i < |labels| ==> kind(labels[i]) == k
  }

  lemma {:induction false} OfAllOf(kind: string -> Kind, k: Kind, labels: seq<string>)
    ensures AllOf(kind, k, Of(kind, k, labels))
  {
    if labels != [] {
      OfAllOf(kind, k, labels[..|labels| - 1]);
    }
  }

  lemma {:induction false} AllOfKept(kind: string -> Kind, k: Kind, j: Kind, labels: seq<string>)
    requires AllOf(kind, k, labels)
    ensures Of(kind, j, labels) == if j == k then labels else []
  {
    if labels != [] {
      var n := |labels| - 1;
      AllOfKept(kind, k, j, labels[..n]);
      assert labels == labels[..n] + [labels[n]];
    }
  }

  // what the vectors of the program look like
  ghost predicate Sorted(kind: string -> Kind, parts: Parts) {
    && AllOf(kind, Plain, parts.domain)
    && (parts.suffix != [] ==>
          var n := |parts.suffix| - 1;
          AllOf(kind, Suffix, parts.suffix[..n]) && parts.suffix[n] != "")
  }

  lemma PartsSorted(kind: string -> Kind, labels: seq<string>)
    requires |labels| > 0 && kind("") == Plain
    ensures Sorted(kind, PartsOf(kind, labels))
  {
    var n := |labels| - 1;
    var suffix := Of(kind, Suffix, labels[..n]);
    OfAllOf(kind, Plain, labels[..n]);
    OfAllOf(kind, Suffix, labels[..n]);
    var all := PartsOf(kind, labels).suffix;
    if all != [] {
      if labels[n] == "" {
        assert all == suffix;
        assert kind(suffix[|suffix| - 1]) == Suffix;
      } else {
        assert all[..|all| - 1] == suffix;
      }
    }
  }

  lemma PartedFront(kind: string -> Kind, d: seq<string>, s: seq<string>)
    requires AllOf(kind, Plain, d) && AllOf(kind, Suffix, s)
    ensures Of(kind, Plain, d + s) == d && Of(kind, Suffix, d + s) == s
  {
    AllOfKept(kind, Plain, Plain, d);
    AllOfKept(kind, Plain, Suffix, d);
    AllOfKept(kind, Suffix, Plain, s);
    AllOfKept(kind, Suffix, Suffix, s);
    OfAppend(kind, Plain, d, s);
    OfAppend(kind, Suffix, d, s);
  }

  lemma PartsSnoc(kind: string -> Kind, d: seq<string>, s: seq<string>, last: string)
    requires AllOf(kind, Plain, d) && AllOf(kind, Suffix, s)
    ensures PartsOf(kind, (d + s) + [last]) == Parts(d, s + (if last == "" then [] else [last]))
  {
    PartedFront(kind, d, s);
    assert ((d + s) + [last])[..|d + s|] == d + s;
  }

  // arranged labels are parted as they stand
  lemma ArrangedParts(kind: string -> Kind, parts: Parts)
    requires Sorted(kind, parts)
    ensures PartsOf(kind, Arranged(parts)) == parts
  {
    var d, s := parts.domain, parts.suffix;
    if s == [] {
      PartsSnoc(kind, d, [], "");
      assert Arranged(parts) == (d + []) + [""];
    } else {
      var m := |s| - 1;
      Unsnoc(d, s, s[..m], s[m]);
      PartsSnoc(kind, d, s[..m], s[m]);
    }
  }

  lemma OfPair(kind: string -> Kind, k: Kind, a: seq<string>, x: string, y: string)
    requires kind(x) != kind(y)
    ensures Of(kind, k, a + [x] + [y]) == Of(kind, k, a + [y] + [x])
  {
    OfSnoc(kind, k, a + [x], y);
    OfSnoc(kind, k, a, x);
    OfSnoc(kind, k, a + [y], x);
    OfSnoc(kind, k, a, y);
    assert Of(kind, k, a) + [] == Of(kind, k, a);
  }

  lemma OfFront(kind: string -> Kind, k: Kind, a: seq<string>, a': seq<string>, b: seq<string>)
    requires Of(kind, k, a) == Of(kind, k, a')
    ensures Of(kind, k, a + b) == Of(kind, k, a' + b)
  {
    OfAppend(kind, k, a, b);
    OfAppend(kind, k, a', b);
  }

  lemma PartsFront(kind: string -> Kind, a: seq<string>, a': seq<string>, b: seq<string>)
    requires b != [] && Of(kind, Plain, a) == Of(kind, Plain, a') && Of(kind, Suffix, a) == Of(kind, Suffix, a')
    ensures PartsOf(kind, a + b) == PartsOf(kind, a' + b)
  {
    var init, last := b[..|b| - 1], b[|b| - 1];
    Unsnoc(a, b, init, last);
    Unsnoc(a', b, init, last);
    OfFront(kind, Plain, a, a', init);
    OfFront(kind, Suffix, a, a', init);
    PartsLast(kind, a + init, last);
    PartsLast(kind, a' + init, last);
  }

  lemma PartsLast(kind: string -> Kind, init: seq<string>, last: string)
    ensures PartsOf(kind, init + [last]) ==
            Parts(Of(kind, Plain, init), Of(kind, Suffix, init) + (if last == "" then [] else [last]))
  {
    assert (init + [last])[..|init|] == init;
  }

  // labels of different kinds in front of the last label may change places, which together with ArrangedParts says
  // what becomes of any labels
  lemma PartsSwapped(kind: string -> Kind, a: seq<string>, x: string, y: string, b: seq<string>)
    requires kind(x) != kind(y) && b != []
    ensures PartsOf(kind, a + [x] + [y] + b) == PartsOf(kind, a + [y] + [x] + b)
  {
    OfPair(kind, Plain, a, x, y);
    OfPair(kind, Suffix, a, x, y);
    PartsFront(kind, a + [x] + [y], a + [y] + [x], b);
  }

  // a dropped label in front of the last one leaves nothing
  lemma PartsDropped(kind: string -> Kind, a: seq<string>, x: string, b: seq<string>)
    requires kind(x) == Dropped && b != []
    ensures PartsOf(kind, a + [x] + b) == PartsOf(kind, a + b)
  {
    OfSnoc(kind, Plain, a, x);
    OfSnoc(kind, Suffix, a, x);
    PartsFront(kind, a + [x], a, b);
  }

  lemma {:induction false} OfFree(c: char, kind: string -> Kind, k: Kind, labels: seq<string>)
    requires Free(c, labels)
    ensures Free(c, Of(kind, k, labels))
  {
    if labels != [] {
      OfFree(c, kind, k, labels[..|labels| - 1]);
    }
  }

  lemma ArrangedFree(c: char, kind: string -> Kind, labels: seq<string>)
    requires |labels| > 0 && Free(c, labels)
    ensures Free(c, Arranged(PartsOf(kind, labels)))
  {
    var n := |labels| - 1;
    OfFree(c, kind, Plain, labels[..n]);
    OfFree(c, kind, Suffix, labels[..n]);
  }

  // ----- the URL -----

  function Without(prefix: string, s: string): string {
    if prefix <= s then s[|prefix|..] else s
  }

  // the scheme, either or both, is taken off
  function Stripped(url: string): string {
    Without("https://", Without("http://", url))
  }

  function Host(s: string): string {
    s[..IndexOf(s, '/', 0)]
  }

  function HostLabels(url: string): (labels: seq<string>)
    ensures |labels| > 0
  {
    Labels(Host(Stripped(url)))
  }

  function Domain(kind: string -> Kind, url: string): string {
    Joined(Arranged(PartsOf(kind, HostLabels(url))))
  }

  lemma SlashFree(s: string)
    requires '/' !in s
    ensures Stripped(s) == s && Host(s) == s
  {
    assert "http://"[5] == '/' && "https://"[6] == '/';
    IndexOfIs(s, '/', 0, |s|);
  }

  lemma HostLabelsFree(url: string)
    ensures Free('/', HostLabels(url)) && Free('.', HostLabels(url))
  {
    var s := Stripped(url);
    IndexOfFinds(s, '/', 0);
    LabelsFree('/', Host(s));
    LabelsFree('.', Host(s));
  }

  // the labels of the result are the arranged labels of the host
  lemma DomainLabels(kind: string -> Kind, url: string)
    ensures HostLabels(Domain(kind, url)) == Arranged(PartsOf(kind, HostLabels(url)))
  {
    var labels := HostLabels(url);
    HostLabelsFree(url);
    ArrangedFree('/', kind, labels);
    ArrangedFree('.', kind, labels);
    var arranged := Arranged(PartsOf(kind, labels));
    JoinedFree('/', arranged);
    SlashFree(Joined(arranged));
    LabelsJoined(arranged);
  }

  // a normal form: for every text, twice is once
  lemma DomainTwice(kind: string -> Kind, url: string)
    requires kind("") == Plain
    ensures Domain(kind, Domain(kind, url)) == Domain(kind, url)
  {
    DomainLabels(kind, url);
    PartsSorted(kind, HostLabels(url));
    ArrangedParts(kind, PartsOf(kind, HostLabels(url)));
  }

  // ----- the program -----

  // BdxSuffix
  predicate IsSuffix(word: string) {
    || word == "asia" || word == "biz" || word == "cc" || word == "cn" || word == "co" || word == "com"
    || word == "edu" || word == "gov" || word == "hk" || word == "info" || word == "me" || word == "mobi"
    || word == "name" || word == "net" || word == "org" || word == "so" || word == "tel" || word == "tv"
    || word == "www"
  }

  function KindOf(word: string): Kind {
    if !IsSuffix(word) then Plain else if word != "www" then Suffix else Dropped
  }

  // nothing of the host is lost but "www" in front of the last label and an empty last label, and nothing is
  // added
  lemma UrlDomainConserves(url: string)
    ensures var labels := HostLabels(url);
            var parts, n := PartsOf(KindOf, labels), |labels| - 1;
            && HostLabels(Domain(KindOf, url)) == Arranged(parts)
            && Bag(labels) == Bag(parts.domain) + Bag(parts.suffix) + Copies("www", Bag(labels[..n])["www"])
                              + (if labels[n] == "" then multiset{""} else multiset{})
  {
    DomainLabels(KindOf, url);
    PartsConserve(KindOf, "www", HostLabels(url));
  }

  lemma UrlDomainTwice(url: string)
    ensures Domain(KindOf, Domain(KindOf, url)) == Domain(KindOf, url)
  {
    DomainTwice(KindOf, url);
  }

  predicate SchemeInFront(s: string) {
    "http://" <= s || "https://" <= s
  }

  predicate Scheme(s: string) {
    s == "" || s == "http://" || s == "https://" || s == "http://https://"
  }

  lemma SchemeStripped(scheme: string, rest: string)
    requires Scheme(scheme) && !SchemeInFront(rest)
    ensures Stripped(scheme + rest) == rest
  {
    var url := scheme + rest;
    if scheme == "http://" {
      assert url[7..] == rest;
    } else if scheme == "https://" {
      assert url[4] == 's' && url[8..] == rest;
    } else if scheme == "http://https://" {
      assert url == "http://" + ("https://" + rest) && url[7..] == "https://" + rest && url[7..][8..] == rest;
    } else {
      assert url == rest;
    }
  }

  lemma HostInFront(host: string, path: string)
    requires '/' !in host && (path == "" || path[0] == '/')
    ensures Host(host + path) == host
  {
    IndexOfIs(host + path, '/', 0, |host|);
  }

  // whatever scheme stands in front and whatever path behind, a URL has the domain of its host
  lemma DomainOfHost(kind: string -> Kind, scheme: string, host: string, path: string)
    requires Scheme(scheme) && '/' !in host && (path == "" || path[0] == '/')
    requires !SchemeInFront(host + path)
    ensures HostLabels(scheme + (host + path)) == Labels(host)
    ensures Domain(kind, scheme + (host + path)) == Domain(kind, host)
  {
    SchemeStripped(scheme, host + path);
    HostInFront(host, path);
    SlashFree(host);
  }

  // appends to what the caller's string already holds
  method GetUrlDomain(kind: string -> Kind, url: string, mediaDomain: string) returns (result: string)
    ensures result == mediaDomain + Domain(kind, url)
  {
    var s := url;
    if "http://" <= s {
      s := s[7..];
    }
    if "https://" <= s {
      s := s[8..];
    }
    assert s == Stripped(url);
    IndexOfFinds(s, '/', 0);
    var domain, suffix := ScanHost(kind, s, Host(s));
    result := AppendParts(mediaDomain, domain, suffix);
  }

  // the two vectors hold the labels in `done`
  ghost predicate Filed(kind: string -> Kind, done: seq<string>, domain: seq<string>, suffix: seq<string>) {
    domain == Of(kind, Plain, done) && suffix == Of(kind, Suffix, done)
  }

  method FileLabel(kind: string -> Kind, domain: seq<string>, suffix: seq<string>, word: string,
                   ghost done: seq<string>)
      returns (domain': seq<string>, suffix': seq<string>)
    requires Filed(kind, done, domain, suffix)
    ensures Filed(kind, done + [word], domain', suffix')
  {
    OfSnoc(kind, Plain, done, word);
    OfSnoc(kind, Suffix, done, word);
    domain', suffix' := domain, suffix;
    if kind(word) == Plain {
      domain' := domain + [word];
    } else if kind(word) != Dropped {
      suffix' := suffix + [word];
    }
  }

  method FileLast(kind: string -> Kind, s: string, ghost host: string, begin: nat, index: nat,
                  ghost domain: seq<string>, suffix: seq<string>, ghost done: seq<string>)
      returns (suffix': seq<string>)
    requires host <= s && index == |host|
    requires Scanned(host, begin, index, done) && Filed(kind, done, domain, suffix)
    ensures Parts(domain, suffix') == PartsOf(kind, Labels(host))
  {
    LastLabel(host, begin, index, done);
    assert s[begin..index] == host[begin..index];
    suffix' := suffix;
    if index > begin {
      suffix' := suffix + [s[begin..index]];
    }
  }

  // done are the labels of the host in front of begin, and index has met no '.' behind it
  ghost predicate Scanned(host: string, begin: nat, index: nat, done: seq<string>) {
    && begin <= index <= |host| && (forall i :: begin <= i < index ==> host[i] != '.')
    && done + Labels(host[begin..]) == Labels(host)
  }

  // the loop over the characters, up to the first '/'
  method ScanHost(kind: string -> Kind, s: string, ghost host: string)
      returns (domain: seq<string>, suffix: seq<string>)
    requires host <= s && '/' !in host && (|host| < |s| ==> s[|host|] == '/')
    ensures Parts(domain, suffix) == PartsOf(kind, Labels(host))
  {
    ghost var done := [];
    domain, suffix := [], [];
    var begin: nat, index: nat := 0, 0;
    assert host[0..] == host;
    while index < |s|
      invariant Scanned(host, begin, index, done) && Filed(kind, done, domain, suffix)
    {
      assert index < |host| <==> s[index] != '/';
      if s[index] == '.' {
        var word := s[begin..index];
        NextLabel(s, host, begin, index, done, word);
        domain, suffix := FileLabel(kind, domain, suffix, word, done);
        begin := index + 1;
        done := done + [word];
      } else if s[index] == '/' {
        break;
      }
      index := index + 1;
    }
    suffix := FileLast(kind, s, host, begin, index, domain, suffix, done);
  }

  lemma NextLabel(text: string, host: string, begin: nat, index: nat, done: seq<string>, word: string)
    requires Scanned(host, begin, index, done) && host <= text
    requires index < |host| && host[index] == '.' && word == text[begin..index]
    ensures Scanned(host, index + 1, index + 1, done + [word])
  {
    var s := host[begin..];
    assert word == host[begin..index];
    IndexOfIs(s, '.', 0, index - begin);
    assert s[..index - begin] == word && s[index - begin + 1..] == host[index + 1..];
  }

  lemma LastLabel(host: string, begin: nat, index: nat, done: seq<string>)
    requires Scanned(host, begin, index, done) && index == |host|
    ensures Labels(host) == done + [host[begin..index]] && Labels(host)[..|Labels(host)| - 1] == done
  {
    var s := host[begin..];
    assert s == host[begin..index];
    IndexOfIs(s, '.', 0, |s|);
  }

  function Dotted(labels: seq<string>): string {
    if labels == [] then "" else Dotted(labels[..|labels| - 1]) + labels[|labels| - 1] + "."
  }

  lemma {:induction false} JoinedDotted(labels: seq<string>, last: string)
    ensures Joined(labels + [last]) == Dotted(labels) + last
    decreases |labels|
  {
    if labels == [] {
      assert labels + [last] == [last];
    } else {
      DottedCons(labels);
      JoinedDotted(labels[1..], last);
      assert (labels + [last])[1..] == labels[1..] + [last];
    }
  }

  lemma {:induction false} DottedCons(labels: seq<string>)
    requires labels != []
    ensures Dotted(labels) == labels[0] + "." + Dotted(labels[1..])
    decreases |labels|
  {
    var n := |labels| - 1;
    if n == 0 {
      assert labels[..0] == [] && labels[1..] == [];
    } else {
      var rest := labels[1..];
      DottedCons(labels[..n]);
      assert labels[..n][1..] == rest[..n - 1] && rest[n - 1] == labels[n];
      Reassociate(labels[0] + ".", Dotted(rest[..n - 1]), labels[n]);
    }
  }

  lemma DottedSnoc(labels: seq<string>, i: nat)
    requires i < |labels|
    ensures Dotted(labels[..i + 1]) == Dotted(labels[..i]) + labels[i] + "."
  {
    assert labels[..i + 1][..i] == labels[..i];
  }

  // the two printing loops
  method AppendParts(mediaDomain: string, domain: seq<string>, suffix: seq<string>) returns (result: string)
    ensures result == mediaDomain + Joined(Arranged(Parts(domain, suffix)))
  {
    var front := AppendDomain(mediaDomain, domain);
    result := AppendSuffix(front, suffix);
    PartsPrinted(domain, suffix);
    if suffix != [] {
      ghost var n := |suffix| - 1;
      Associate(mediaDomain, Dotted(domain), Dotted(suffix[..n]), suffix[n]);
    }
  }

  method AppendDomain(front: string, domain: seq<string>) returns (result: string)
    ensures result == front + Dotted(domain)
  {
    result := front;
    var i := 0;
    while i < |domain|
      invariant i <= |domain| && result == front + Dotted(domain[..i])
    {
      DottedSnoc(domain, i);
      result := result + domain[i] + ".";
      i := i + 1;
    }
    assert domain[..i] == domain;
  }

  method AppendSuffix(front: string, suffix: seq<string>) returns (result: string)
    ensures suffix == [] ==> result == front
    ensures suffix != [] ==> result == front + Dotted(suffix[..|suffix| - 1]) + suffix[|suffix| - 1]
  {
    result := front;
    var i := 0;
    while i < |suffix|
      invariant i <= |suffix| && (suffix == [] ==> result == front)
      invariant i < |suffix| ==> result == front + Dotted(suffix[..i])
      invariant i == |suffix| > 0 ==> result == front + Dotted(suffix[..i - 1]) + suffix[i - 1]
    {
      DottedSnoc(suffix, i);
      if i != |suffix| - 1 {
        result := result + suffix[i] + ".";
      } else {
        result := result + suffix[i];
      }
      i := i + 1;
    }
  }

  lemma PartsPrinted(domain: seq<string>, suffix: seq<string>)
    ensures Joined(Arranged(Parts(domain, suffix))) ==
            if suffix == [] then Dotted(domain)
            else Dotted(domain) + Dotted(suffix[..|suffix| - 1]) + suffix[|suffix| - 1]
  {
    if suffix == [] {
      JoinedDotted(domain, "");
    } else {
      var n := |suffix| - 1;
      assert domain + suffix == (domain + suffix[..n]) + [suffix[n]];
      JoinedDotted(domain + suffix[..n], suffix[n]);
      DottedAppend(domain, suffix[..n]);
    }
  }

  lemma Associate(m: string, a: string, b: string, x: string)
    ensures (m + a) + b + x == m + (a + b + x)
  {
  }

  lemma Reassociate(a: string, b: string, x: string)
    ensures (a + b) + x + "." == a + (b + x + ".")
  {
  }

  lemma {:induction false} DottedAppend(a: seq<string>, b: seq<string>)
    ensures Dotted(a + b) == Dotted(a) + Dotted(b)
    decreases |b|
  {
    if b == [] {
      assert a + b == a;
    } else {
      var n := |b| - 1;
      DottedAppend(a, b[..n]);
      assert (a + b)[..|a| + n] == a + b[..n];
      Reassociate(Dotted(a), Dotted(b[..n]), b[n]);
    }
  }
}

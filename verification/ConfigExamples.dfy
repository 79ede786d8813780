/** Configuration files as they would stand on disk: what the program makes of them. */
module ConfigExamples {
  import opened CText
  import opened Conf
  import opened QueryApis
  import opened ConfigRows
  import opened ConfigFile
  import opened ConfigLines

  lemma OneLineFile(s: string)
    requires s != "" && |s| < PACKET && '\n' !in s && '\0' !in s
    ensures Rows(s) == [RowOf(s)]
  {
    IndexOfIs(s, '\n', 0, |s|);
    assert s[..|s|] == s;
    assert Lines(s[|s|..]) == [];
  }

  lemma UnknownHeaderSpins(h: Handling, s: string)
    requires PlainText(s) && s[0] == '[' && |s| < PACKET && !h.known(s)
    ensures OutcomeOf(FedAll(h, Initial(), Rows(s)).phase) == Spins
  {
    HeaderRead("", s, "", "");
    assert "" + s + "" + "" == s;
    OneLineFile(s);
    OneRow(h, Row(Header(s), false));
  }

  // a section of the database server, whose handler is commented out, keeps the main loop in place
  lemma UnknownSectionSpins()
    ensures OutcomeOf(FedAll(Program(), Initial(), Rows("[MYSQLSERVER]")).phase) == Spins
  {
    NotRecognised();
    UnknownHeaderSpins(Program(), "[MYSQLSERVER]");
  }

  lemma NotRecognised()
    ensures !Recognised("[MYSQLSERVER]")
  {
    assert "[MYSQLSERVER]"[1] == 'M';
  }

  lemma OneRow(h: Handling, row: Row)
    ensures FedAll(h, Initial(), [row]) == Fed(h, Initial(), row)
  {
    assert [row][1..] == [];
  }

  // a comment in front of the first section is trimmed past the beginning of the buffer
  lemma CommentFirstUnderruns()
    ensures OutcomeOf(FedAll(Program(), Initial(), Rows("# settings")).phase) == OutOfBounds
  {
    var file := "# settings";
    OneLineFile(file);
    OneRow(Program(), RowOf(file));
  }

  // ----- several lines of URLS -----

  // n tokens of one letter
  function Letters(n: nat): (s: string)
    ensures |s| == 2 * n
  {
    if n == 0 then "" else "a," + Letters(n - 1)
  }

  lemma {:induction false} LettersAt(n: nat, i: nat)
    requires i < 2 * n
    ensures Letters(n)[i] == if i % 2 == 0 then 'a' else ','
  {
    if i >= 2 {
      LettersAt(n - 1, i - 2);
    }
  }

  function UrlsLine(n: nat): string {
    "URLS=" + Letters(n)
  }

  // a header, the same line three times, and more
  function ThreeLines(n: nat, rest: string): string {
    FourLines("[QUERYAPIS]", UrlsLine(n), rest)
  }

  function FourLines(first: string, line: string, rest: string): string {
    first + "\n" + (line + "\n" + (line + "\n" + (line + "\n" + rest)))
  }

  lemma FirstOfLines(line: string, rest: string)
    requires '\n' !in line && '\0' !in line && |line| + 1 < PACKET
    ensures Lines(line + "\n" + rest) == [line + "\n"] + Lines(rest)
  {
    var file := line + "\n" + rest;
    IndexOfIs(file, '\n', 0, |line|);
    assert file[..|line| + 1] == line + "\n" && file[|line| + 1..] == rest;
    assert '\0' !in line + "\n";
  }

  lemma UrlsLineChars(n: nat)
    ensures forall c :: c in UrlsLine(n) ==>
            c == 'U' || c == 'R' || c == 'L' || c == 'S' || c == '=' || c == 'a' || c == ','
  {
    var s := UrlsLine(n);
    forall i | 5 <= i < |s|
      ensures s[i] == 'a' || s[i] == ','
    {
      LettersAt(n, i - 5);
    }
  }

  // what the handler sees of such a line
  lemma UrlsLineRow(n: nat)
    requires n > 0
    ensures RowOf(UrlsLine(n) + "\n") == Row(Pair("URLS", Letters(n), 5), false)
  {
    var u := UrlsLine(n);
    UrlsLineChars(n);
    LettersAt(n, 2 * n - 1);
    TrimmedLine(u);
    UrlsContent(n);
  }

  // a line without blanks at its ends or a remark loses its line feed
  lemma TrimmedLine(u: string)
    requires u != "" && !Blank(u[0]) && !Blank(u[|u| - 1]) && '#' !in u
    ensures Trimmed(u + "\n") == u && LTrim(u + "\n") == u + "\n" && TrimsInside(u + "\n")
  {
    var s := u + "\n";
    LTrimIs(s, 0);
    assert s[0..] == s;
    IndexOfIs(s, '#', 0, |s|);
    assert Cut(s) == s;
    RTrimIs(s, |u|);
    TrimsInsideIff(s);
  }

  lemma UrlsContent(n: nat)
    requires n > 0
    ensures ContentOf(UrlsLine(n)) == Pair("URLS", Letters(n), 5)
  {
    var u := UrlsLine(n);
    IndexOfIs(u, '=', 0, 4);
    assert u[..4] == "URLS" && u[5..] == Letters(n);
    KeyIsInside("URLS");
    RTrimIs("URLS", 4);
    LettersAt(n, 0);
    LTrimIs(Letters(n), 0);
  }

  // every second position holds a separator
  ghost predicate Alternates(sep: Sep, lo: nat, n: nat)
    decreases n
  {
    n == 0 || (!sep(lo) && sep(lo + 1) && Alternates(sep, lo + 2, n - 1))
  }

  lemma {:induction false} AlternatingSpans(sep: Sep, lo: nat, n: nat)
    requires Alternates(sep, lo, n)
    ensures var spans := Spans(sep, lo, lo + 2 * n);
            |spans| == n && forall j :: 0 <= j < n ==> spans[j].b == lo + 2 * j
    decreases n
  {
    var hi := lo + 2 * n;
    if n > 0 {
      FirstToken(sep, lo, lo + 1, hi);
      SkipSeparators(sep, lo + 1, lo + 2, hi);
      AlternatingSpans(sep, lo + 2, n - 1);
    } else {
      SkipSeparators(sep, lo, hi, hi);
    }
  }

  lemma {:induction false} LettersAlternate(text: seq<char>, at: nat, n: nat)
    requires at + 2 * n <= |text| && text[at..at + 2 * n] == Letters(n)
    ensures Alternates(EitherOf(text), at, n)
    decreases n
  {
    if n > 0 {
      var s := text[at..at + 2 * n];
      assert s == "a," + Letters(n - 1);
      assert text[at] == s[0] && text[at + 1] == s[1];
      assert text[at + 2..at + 2 * n] == s[2..] == Letters(n - 1);
      LettersAlternate(text, at + 2, n - 1);
    }
  }

  lemma LettersSpans(n: nat, at: nat)
    ensures var spans := ValueSpans(Letters(n), at);
            |spans| == n && forall j :: 0 <= j < n ==> spans[j].b == at + 2 * j
  {
    var text := Placed(Letters(n), at);
    assert text[at..at + 2 * n] == Letters(n);
    LettersAlternate(text, at, n);
    AlternatingSpans(EitherOf(text), at, n);
  }

  // an entry closed by any of these tokens is copied from inside the buffer
  predicate Early(starts: seq<nat>) {
    forall j :: 0 <= j < |starts| ==> starts[j] + PARAM_WIDTH <= PACKET
  }

  lemma EarlyFits(starts: seq<nat>)
    requires Early(starts)
    ensures Fits(starts) <==> |starts| < PACKET
  {
    forall j | 4 <= j < |starts| && j % 5 == 4
      ensures ReadableAt(starts, j)
    {
    }
  }

  // the action of one of the lines, behind any such tokens
  lemma UrlsLineAction(n: nat, starts: seq<nat>)
    requires n <= 445 && Early(starts)
    ensures var action := UrlsAction(starts, Letters(n), 5);
            if |starts| + n < PACKET then action.Add? && |action.more| == n && Early(starts + action.more)
            else action == Fault(OutOfBounds)
  {
    LettersSpans(n, 5);
    EarlyFits(starts + Begins(ValueSpans(Letters(n), 5)));
  }

  // the header's handler
  lemma ApisSection()
    ensures Recognised("[QUERYAPIS]") && IsUrls("[QUERYAPIS]", "URLS")
  {
  }

  // in the section, after k such tokens, or out of the pointer array
  predicate Took(phase: Phase, k: nat) {
    if k < PACKET then phase.Within? && phase.section == "[QUERYAPIS]" && |phase.starts| == k && Early(phase.starts)
    else phase == Stopped(OutOfBounds)
  }

  // one of the lines in the fold
  lemma UrlsLineFed(n: nat, k: nat, st: Config)
    requires 0 < n <= 445 && Took(st.phase, k)
    ensures Took(Fed(Program(), st, RowOf(UrlsLine(n) + "\n")).phase, k + n)
  {
    UrlsLineRow(n);
    if k < PACKET {
      var starts := st.phase.starts;
      UrlsLineAction(n, starts);
      var action := ActionBy(ProgramTables(), "[QUERYAPIS]", starts, "URLS", Letters(n), 5);
      assert action == UrlsAction(starts, Letters(n), 5);
      ActedUrls(st, starts, action);
    }
  }

  lemma ActedUrls(st: Config, starts: seq<nat>, action: Doing)
    requires action.Add? || action.Fault?
    ensures Acted(st, "[QUERYAPIS]", starts, action).phase ==
            if action.Add? then Within("[QUERYAPIS]", starts + action.more) else Stopped(action.outcome)
  {
  }

  lemma ApisHeaderFed()
    ensures Fed(Program(), Initial(), RowOf("[QUERYAPIS]" + "\n")).phase == Within("[QUERYAPIS]", [])
  {
    var u := "[QUERYAPIS]";
    TrimmedLine(u);
    assert ContentOf(u) == Header(u);
    ApisSection();
  }

  lemma FirstOfRows(line: string, rest: string)
    requires '\n' !in line && '\0' !in line && |line| + 1 < PACKET
    ensures Rows(line + "\n" + rest) == [RowOf(line + "\n")] + Rows(rest)
  {
    FirstOfLines(line, rest);
  }

  lemma FourLinesAre(first: string, line: string, rest: string)
    requires '\n' !in first && '\0' !in first && |first| + 1 < PACKET
    requires '\n' !in line && '\0' !in line && |line| + 1 < PACKET
    ensures var a, b := RowOf(first + "\n"), RowOf(line + "\n");
            Rows(FourLines(first, line, rest)) == [a, b, b, b] + Rows(rest)
  {
    FirstOfRows(line, rest);
    FirstOfRows(line, line + "\n" + rest);
    FirstOfRows(line, line + "\n" + (line + "\n" + rest));
    FirstOfRows(first, line + "\n" + (line + "\n" + (line + "\n" + rest)));
  }

  lemma ThreeLinesAre(n: nat, rest: string)
    requires 0 < n <= 445
    ensures var a, b := RowOf("[QUERYAPIS]" + "\n"), RowOf(UrlsLine(n) + "\n");
            Rows(ThreeLines(n, rest)) == [a, b, b, b] + Rows(rest)
  {
    UrlsLineChars(n);
    FourLinesAre("[QUERYAPIS]", UrlsLine(n), rest);
  }

  lemma FedCons(h: Handling, st: Config, row: Row, rows: seq<Row>)
    ensures FedAll(h, st, [row] + rows) == FedAll(h, Fed(h, st, row), rows)
  {
    FedFirst(h, st, [row] + rows);
    assert ([row] + rows)[1..] == rows;
  }

  lemma FourRows(h: Handling, st: Config, a: Row, b: Row, rows: seq<Row>)
    ensures FedAll(h, st, [a, b, b, b] + rows) == FedAll(h, Fed(h, Fed(h, Fed(h, Fed(h, st, a), b), b), b), rows)
  {
    assert [a, b, b, b] + rows == [a] + ([b] + ([b] + ([b] + rows)));
    FedCons(h, st, a, [b] + ([b] + ([b] + rows)));
    FedCons(h, Fed(h, st, a), b, [b] + ([b] + rows));
    FedCons(h, Fed(h, Fed(h, st, a), b), b, [b] + rows);
    FedCons(h, Fed(h, Fed(h, Fed(h, st, a), b), b), b, rows);
  }

  // the fold over the header and the three lines
  ghost function AfterThree(n: nat): Config {
    var a, b := RowOf("[QUERYAPIS]" + "\n"), RowOf(UrlsLine(n) + "\n");
    Fed(Program(), Fed(Program(), Fed(Program(), Fed(Program(), Initial(), a), b), b), b)
  }

  lemma ThreeTimes(n: nat)
    requires 0 < n <= 445
    ensures Took(AfterThree(n).phase, 3 * n)
  {
    ApisHeaderFed();
    var b := RowOf(UrlsLine(n) + "\n");
    var st0 := Fed(Program(), Initial(), RowOf("[QUERYAPIS]" + "\n"));
    var st1 := Fed(Program(), st0, b);
    var st2 := Fed(Program(), st1, b);
    UrlsLineFed(n, 0, st0);
    UrlsLineFed(n, n, st1);
    UrlsLineFed(n, 2 * n, st2);
  }

  // three lines of URLS, each of which fits its buffer, load exactly if their tokens together leave room for
  // the closing null in the pointer array, whether or not they make whole entries
  lemma ThreeLinesIff(n: nat)
    requires 0 < n <= 445
    ensures var outcome := OutcomeOf(FedAll(Program(), Initial(), Rows(ThreeLines(n, ""))).phase);
            outcome == if n <= 341 then Loaded else OutOfBounds
  {
    ThreeLinesAre(n, "");
    FourRows(Program(), Initial(), RowOf("[QUERYAPIS]" + "\n"), RowOf(UrlsLine(n) + "\n"), Rows(""));
    ThreeTimes(n);
  }

  // ----- a section behind a list that is broken inside an entry -----

  // a header and one key and value
  predicate PlainSection(section: string, e: Assignment) {
    && PlainText(section) && section[0] == '[' && |section| + 1 < PACKET
    && Plain(e) && '\n' !in Written(e) && '\0' !in Written(e) && |Written(e)| + 1 < PACKET
  }

  function SectionFile(section: string, e: Assignment): string {
    section + "\n" + (Written(e) + "\n" + "")
  }

  // the line feed is one more blank behind the value, or the end of the remark
  function WithFeed(e: Assignment): Assignment {
    if e.remark == "" then e.(back := e.back + "\n") else e.(remark := e.remark + "\n")
  }

  lemma FeedIsWritten(e: Assignment)
    requires Plain(e)
    ensures Plain(WithFeed(e)) && Written(WithFeed(e)) == Written(e) + "\n" && Column(WithFeed(e)) == Column(e)
  {
  }

  lemma HeaderLine(section: string)
    requires PlainText(section) && section[0] == '['
    ensures RowOf(section + "\n") == Row(Header(section), false)
  {
    HeaderRead("", section, "\n", "");
    assert "" + section + "\n" + "" == section + "\n";
  }

  lemma WrittenLine(e: Assignment)
    requires Plain(e)
    ensures RowOf(Written(e) + "\n") == Row(Pair(e.key, e.value, Column(e)), false)
  {
    FeedIsWritten(e);
    AssignmentRead(WithFeed(e));
  }

  lemma SectionRows(section: string, e: Assignment)
    requires PlainSection(section, e)
    ensures Rows(SectionFile(section, e)) ==
            [Row(Header(section), false), Row(Pair(e.key, e.value, Column(e)), false)]
  {
    FirstOfRows(Written(e), "");
    FirstOfRows(section, Written(e) + "\n" + "");
    HeaderLine(section);
    WrittenLine(e);
  }

  lemma TwoRows(h: Handling, st: Config, a: Row, b: Row)
    ensures FedAll(h, st, [a, b]) == Fed(h, Fed(h, st, a), b)
  {
    assert [a, b] == [a] + ([b] + []);
    FedCons(h, st, a, [b] + []);
    FedCons(h, Fed(h, st, a), b, []);
  }

  lemma SectionRead(h: Handling, st: Config, section: string, e: Assignment, field: Field, v: Setting)
    requires PlainSection(section, e) && st.phase.Within? && h.known(section)
    requires h.act(section, [], e.key, e.value, Column(e)) == Set(field, v)
    ensures var st' := FedAll(h, st, Rows(SectionFile(section, e)));
            st'.phase == Within(section, []) && st'.settings == st.settings[field := v]
  {
    SectionRows(section, e);
    TwoRows(h, st, Row(Header(section), false), Row(Pair(e.key, e.value, Column(e)), false));
  }

  // whatever the last entry of the list lacks, the file loads and the next section is read: the field is what the
  // line says, however its key and value are spaced
  lemma BrokenListGoesOn(n: nat, section: string, e: Assignment, field: Field)
    requires 0 < n <= 341 && PlainSection(section, e)
    requires Recognised(section) && FieldOf(section, e.key) == ThatField(field) && CopiesInside(field, Column(e))
    ensures var st := FedAll(Program(), Initial(), Rows(ThreeLines(n, SectionFile(section, e))));
            && OutcomeOf(st.phase) == Loaded && field in st.settings
            && st.settings[field] == SettingOf(field, e.value)
  {
    var rest := SectionFile(section, e);
    ThreeLinesAre(n, rest);
    FourRows(Program(), Initial(), RowOf("[QUERYAPIS]" + "\n"), RowOf(UrlsLine(n) + "\n"), Rows(rest));
    ThreeTimes(n);
    AddressFields(section, e.key);
    SectionRead(Program(), AfterThree(n), section, e, field, SettingOf(field, e.value));
  }

  // "IP =  0.0.0.0"
  lemma AddressRead()
    ensures RowOf("IP =  0.0.0.0\n") == Row(Pair("IP", "0.0.0.0", 4), false)
  {
    var e := Assignment("", "IP", " ", "  ", "0.0.0.0", "\n", "");
    assert Written(e) == "IP =  0.0.0.0\n";
    AssignmentRead(e);
  }
}

/**
  The program that reads a configuration file: one line buffer, trimmed and cut in place, a search for the
  first section, and a main loop that calls the handler of the current section until the file ends.
*/
module ConfigReader {
  import opened CText
  import opened Conf
  import opened QueryApis
  import opened ConfigRows
  import opened ConfigFile

  // ----- the lines one by one -----

  lemma {:induction false} CStrStops(s: string)
    ensures |CStr(s)| < |s| ==> s[|CStr(s)|] == '\0'
  {
    if s != [] && s[0] != '\0' {
      CStrStops(s[1..]);
    }
  }

  lemma HeldCStr(a: array<char>, at: nat, s: string)
    requires Holds(a, at, s)
    ensures CStr(a[at..]) == s
  {
    HeldChars(a, at, s);
    CStrIs(a[at..], |s|);
  }

  lemma {:induction false} FedStopped(h: Handling, st: Config, rows: seq<Row>)
    requires st.phase.Stopped?
    ensures FedAll(h, st, rows) == st
    decreases |rows|
  {
    if rows != [] {
      FedStopped(h, st, rows[1..]);
    }
  }

  // the rows of a file are its first line and those of the rest
  lemma FirstRow(h: Handling, st: Config, file: string)
    requires file != ""
    ensures FedAll(h, st, Rows(file)) ==
            FedAll(h, Fed(h, st, RowOf(CStr(file[..ChunkLength(file)]))), Rows(file[ChunkLength(file)..]))
  {
    var n := ChunkLength(file);
    assert Lines(file)[1..] == Lines(file[n..]);
    assert Rows(file)[1..] == Rows(file[n..]);
  }

  // ----- tokens of a value in the buffer -----

  lemma {:induction false} TextsAgree(sep: Sep, text: seq<char>, text': seq<char>, lo: nat, hi: nat)
    requires lo <= hi <= |text| && hi <= |text'| && forall i :: lo <= i < hi ==> text[i] == text'[i]
    ensures Texts(text, Spans(sep, lo, hi)) == Texts(text', Spans(sep, lo, hi))
    decreases hi - lo
  {
    var b := Start(sep, lo, hi);
    if b < hi {
      var e := End(sep, b, hi);
      assert text[b..e] == text'[b..e];
      TextsAgree(sep, text, text', e, hi);
      TextsCons(text, Span(b, e), Spans(sep, e, hi));
      TextsCons(text', Span(b, e), Spans(sep, e, hi));
    }
  }

  // the buffer's tokens are those of the value at its place
  lemma BufferSpans(text: seq<char>, value: string, at: nat)
    requires at + |value| <= |text| && text[at..at + |value|] == value
    ensures Spans(EitherOf(text), at, at + |value|) == ValueSpans(value, at)
    ensures Texts(text, ValueSpans(value, at)) == Texts(Placed(value, at), ValueSpans(value, at))
  {
    var hi, placed := at + |value|, Placed(value, at);
    forall i | at <= i < hi
      ensures text[i] == placed[i]
    {
      assert text[i] == text[at..hi][i - at];
    }
    SpansAgree(EitherOf(text), EitherOf(placed), at, hi);
    TextsAgree(EitherOf(placed), text, placed, at, hi);
  }

  // ----- the reader -----

  datatype LineEnd = Continue | NextSection(section: string) | EndOfFile | Broken(outcome: Outcome)

  class Reader {
    const tables: Tables
    const line: array<char>
    const temp: array<int>
    var unread: string
    var settings: Settings
    var apis: Apis
    // what the broken entries had in the buffer when they were closed, listing by listing
    ghost var olds: seq<seq<string>>

    constructor (file: string, tables: Tables)
      ensures fresh(line) && fresh(temp) && Sized() && this.tables == tables
      ensures unread == file && Shows(Initial())
    {
      this.tables := tables;
      line := new char[PACKET](_ => '\0');
      temp := new int[PACKET](_ => -1);
      unread, settings, apis := file, map[], map[];
      olds := [];
    }

    // the line buffer ends with a terminator
    ghost predicate Sized()
      reads line
    {
      Closed(line[..]) && temp.Length == PACKET
    }

    // the fields assigned so far are those of the fold
    ghost predicate Shows(st: Config)
      reads this
    {
      settings == st.settings && Olds(st.added, olds) && apis == ApisOf(st.added, olds)
    }

    // ConfGetLine
    method GetLine() returns (ok: bool, ghost s: string)
      requires Sized()
      modifies this`unread, line
      ensures Sized()
      ensures ok <==> old(unread) != ""
      ensures ok ==>
                var n := ChunkLength(old(unread));
                s == CStr(old(unread)[..n]) && Holds(line, 0, s) && unread == old(unread)[n..]
      ensures !ok ==> unread == old(unread)
    {
      if unread == "" {
        return false, "";
      }
      var i: nat := 0;
      while i < PACKET - 1 && i < |unread| && (i == 0 || unread[i - 1] != '\n')
        invariant Sized() && i < PACKET && i <= |unread| && line[..i] == unread[..i]
        invariant forall j :: 0 <= j < i - 1 ==> unread[j] != '\n'
        invariant unread == old(unread)
      {
        line[i] := unread[i];
        i := i + 1;
      }
      ChunkIs(unread, i);
      line[i] := '\0';
      s := CStr(unread[..i]);
      CStrStops(unread[..i]);
      unread := unread[i..];
      ok := true;
    }

    // the search for the first section
    method Seek(ghost h: Handling) returns (end: LineEnd)
      requires Sized()
      modifies this`unread, line
      ensures Sized()
      ensures match end
              case Continue => false
              case EndOfFile => FedAll(h, Initial(), Rows(old(unread))) == Initial()
              case Broken(outcome) => FedAll(h, Initial(), Rows(old(unread))) == Initial().(phase := Stopped(outcome))
              case NextSection(section) =>
                && section != "" && |unread| < |old(unread)|
                && FedAll(h, Initial(), Rows(old(unread))) ==
                   FedAll(h, Initial().(phase := Entering(h, section)), Rows(unread))
    {
      ghost var whole := FedAll(h, Initial(), Rows(unread));
      while true
        invariant Sized() && FedAll(h, Initial(), Rows(unread)) == whole && |unread| <= |old(unread)|
        decreases |unread|
      {
        ghost var before := unread;
        var ok, s := GetLine();
        if !ok {
          return EndOfFile;
        }
        FirstRow(h, Initial(), before);
        end := SeekLine(s);
        if end != Continue {
          if end.Broken? {
            FedStopped(h, Initial().(phase := Stopped(end.outcome)), Rows(unread));
          }
          return;
        }
      }
    }

    // one line of the search: trimmed first, looked at then
    method SeekLine(ghost s: string) returns (end: LineEnd)
      requires Sized() && Holds(line, 0, s)
      modifies line
      ensures Sized()
      ensures match FirstLine(RowOf(s))
              case Underrun => end == Broken(OutOfBounds)
              case Header(section) => end == NextSection(section) && section != ""
              case _ => end == Continue
    {
      FirstLineIs(s);
      TrimmedShape(s);
      var inside := Trim(line, s);
      if !inside {
        return Broken(OutOfBounds);
      }
      ghost var u := Trimmed(s);
      TrimmedAgain(u);
      var valid := IsValid(line, u);
      var header := IsSection(line, u);
      HeldCStr(line, 0, u);
      return if valid && header then NextSection(CStr(line[0..])) else Continue;
    }

    // what is left after an action of a handler
    ghost predicate Did(st: Config, section: string, starts: seq<nat>, action: Doing, end: LineEnd, index': nat,
                        starts': seq<nat>)
      reads this, line, temp
    {
      && Shows(Acted(st, section, starts, action))
      && end == (if action.Fault? then Broken(action.outcome) else Continue)
      && (end == Continue ==> Acted(st, section, starts, action).phase == Within(section, starts'))
      && (end == Continue ==> Ready(index', starts'))
    }

    // the pointers to the tokens of this visit to the section
    ghost predicate Ready(index: nat, starts: seq<nat>)
      reads line, temp
    {
      Sized() && Pointers(temp, starts) && Fits(starts) && index == |starts|
    }

    // the handlers' bodies for a key and value
    method HandlePair(section: string, index: nat, val: nat, ghost starts: seq<nat>, ghost key: string,
                      ghost value: string, ghost st: Config)
        returns (end: LineEnd, index': nat, ghost action: Doing, ghost starts': seq<nat>)
      requires Ready(index, starts) && Holds(line, 0, key) && Holds(line, val, value)
      requires st.phase == Within(section, starts) && Shows(st)
      modifies this`settings, this`apis, this`olds, line, temp
      ensures action == ActionBy(tables, section, starts, key, value, val)
      ensures Did(st, section, starts, action, end, index', starts')
    {
      HeldCStr(line, 0, key);
      var k := CStr(line[0..]);
      if tables.urls(section, k) {
        end, index', action, starts' := HandleTokens(section, index, val, starts, value, st);
      } else {
        var field := tables.field(section, k);
        end, index', action, starts' := HandleKey(section, index, field, val, starts, value, st);
      }
    }

    method HandleTokens(ghost section: string, index: nat, val: nat, ghost starts: seq<nat>, ghost value: string,
                        ghost st: Config)
        returns (end: LineEnd, index': nat, ghost action: Doing, ghost starts': seq<nat>)
      requires Ready(index, starts) && Holds(line, val, value)
      requires st.phase == Within(section, starts) && Shows(st)
      modifies this`apis, this`olds, line, temp
      ensures action == UrlsAction(starts, value, val) && Did(st, section, starts, action, end, index', starts')
    {
      action := UrlsAction(starts, value, val);
      end, index' := HandleUrls(index, val, starts, value, st.added);
      starts' := if action.Add? then starts + action.more else starts;
    }

    // a key outside of URLS: nothing for an unknown one
    method HandleKey(ghost section: string, index: nat, field: MaybeField<Field>, val: nat, ghost starts: seq<nat>,
                     ghost value: string, ghost st: Config)
        returns (end: LineEnd, index': nat, ghost action: Doing, ghost starts': seq<nat>)
      requires Ready(index, starts) && Holds(line, val, value)
      requires st.phase == Within(section, starts) && Shows(st)
      modifies this`settings
      ensures action == if field == NoField then Ignore else FieldAction(tables, field.field, value, val)
      ensures Did(st, section, starts, action, end, index', starts')
    {
      if field == NoField {
        return Continue, index, Ignore, starts;
      }
      action := FieldAction(tables, field.field, value, val);
      index', starts' := index, starts;
      end := HandleField(field.field, val, value);
    }

    method HandleField(field: Field, val: nat, ghost value: string) returns (end: LineEnd)
      requires Holds(line, val, value)
      modifies this`settings
      ensures match FieldAction(tables, field, value, val)
              case Set(f, setting) => end == Continue && settings == old(settings)[f := setting]
              case Fault(outcome) => end == Broken(outcome) && settings == old(settings)
              case _ => false
    {
      HeldCStr(line, val, value);
      if !CopiesInside(field, val) {
        return Broken(OutOfBounds);
      }
      settings := settings[field := tables.setting(field, CStr(line[val..]))];
      end := Continue;
    }

    // a value of URLS, behind the tokens of earlier lines
    method HandleUrls(index: nat, val: nat, ghost starts: seq<nat>, ghost value: string, ghost added: seq<Listing>)
        returns (end: LineEnd, index': nat)
      requires Ready(index, starts) && Holds(line, val, value)
      requires Olds(added, olds) && apis == ApisOf(added, olds)
      modifies this`apis, this`olds, line, temp
      ensures match UrlsAction(starts, value, val)
              case Fault(outcome) =>
                end == Broken(outcome) && Olds(added, olds) && apis == ApisOf(added, olds)
              case Add(more, listing) =>
                && end == Continue && Ready(index', starts + more)
                && Olds(added + [listing], olds) && apis == ApisOf(added + [listing], olds)
              case _ => false
    {
      ghost var text, hi := line[..], val + |value|;
      HeldChars(line, val, value);
      assert text[val..hi] == value;
      BufferSpans(text, value, val);
      var inside, after;
      ghost var had;
      inside, index', after, had := CutLine(line, val, temp, index, apis, hi, starts);
      if !inside {
        return Broken(OutOfBounds), index';
      }
      apis := after;
      ApisSnoc(added, olds, Listing(Begun(starts), Texts(Placed(value, val), ValueSpans(value, val))), had);
      olds := olds + [had];
      end := Continue;
    }

    // what a handler's line is, found out in place: a value is left at val
    method ClassifyLine(ghost s: string) returns (end: LineEnd, val: nat)
      requires Sized() && Holds(line, 0, s)
      modifies line
      ensures Sized()
      ensures match LineOf(s)
              case Underrun => end == Broken(OutOfBounds)
              case Header(section) => end == NextSection(section) && section != ""
              case Pair(key, value, at) => end == Continue && val == at && Holds(line, 0, key) && Holds(line, at, value)
              case _ => end == Continue && val == 0
    {
      TrimmedTwice(s);
      TrimmedShape(s);
      var valid := IsValid(line, s);
      if !valid {
        return Continue, 0;
      }
      var inside := Trim(line, LTrim(s));
      if !inside {
        return Broken(OutOfBounds), 0;
      }
      ghost var u := Trimmed(s);
      var header := IsSection(line, u);
      if header {
        HeldCStr(line, 0, u);
        return NextSection(CStr(line[0..])), 0;
      }
      KeyIsInside(KeyText(u));
      var found, sound;
      found, val, sound := KeyValue(line, u);
      return Continue, if found then val else 0;
    }

    // one turn of a handler's loop
    method HandleLine(section: string, index: nat, ghost starts: seq<nat>, ghost s: string, ghost h: Handling,
                      ghost st: Config)
        returns (end: LineEnd, index': nat, ghost starts': seq<nat>)
      requires h == HandlersBy(tables) && Ready(index, starts) && Holds(line, 0, s)
      requires st.phase == Within(section, starts) && Shows(st)
      modifies this`settings, this`apis, this`olds, line, temp
      ensures Shows(Fed(h, st, RowOf(s)))
      ensures match end
              case Continue => Fed(h, st, RowOf(s)).phase == Within(section, starts') && Ready(index', starts')
              case NextSection(next) => Sized() && next != "" && Fed(h, st, RowOf(s)).phase == Entering(h, next)
              case Broken(outcome) => Fed(h, st, RowOf(s)).phase == Stopped(outcome)
              case EndOfFile => false
    {
      ghost var content := LineOf(s);
      var val;
      end, val := ClassifyLine(s);
      index', starts' := index, starts;
      if end == Continue && val > 0 {
        ghost var action;
        end, index', action, starts' := HandlePair(section, index, val, starts, content.key, content.value, st);
      }
    }

    // a section handler: to the next header or the end of the file
    method ReadSection(section: string, ghost h: Handling, ghost st0: Config) returns (end: LineEnd, ghost st: Config)
      requires h == HandlersBy(tables) && Sized() && st0.phase == Within(section, []) && Shows(st0)
      modifies this, line, temp
      ensures Shows(st) && FedAll(h, st, Rows(unread)) == FedAll(h, st0, Rows(old(unread)))
      ensures match end
              case Continue => false
              case EndOfFile => unread == "" && st.phase.Within?
              case Broken(outcome) => st.phase == Stopped(outcome)
              case NextSection(next) =>
                Sized() && next != "" && st.phase == Entering(h, next) && |unread| < |old(unread)|
    {
      var index: nat := 0;
      ghost var starts: seq<nat> := [];
      st := st0;
      while true
        invariant Shows(st) && st.phase == Within(section, starts) && |unread| <= |old(unread)|
        invariant FedAll(h, st, Rows(unread)) == FedAll(h, st0, Rows(old(unread)))
        invariant Ready(index, starts)
        decreases |unread|
      {
        ghost var before := unread;
        var ok, s := GetLine();
        if !ok {
          return EndOfFile, st;
        }
        FirstRow(h, st, before);
        end, index, starts := HandleLine(section, index, starts, s, h, st);
        st := Fed(h, st, RowOf(s));
        if end != Continue {
          return;
        }
      }
    }

    // the main loop, from the section the search found
    method MainLoop(first: string, ghost h: Handling, ghost st0: Config) returns (outcome: Outcome)
      requires h == HandlersBy(tables) && Sized()
      requires first != "" && st0.phase == Entering(h, first) && Shows(st0)
      modifies this, line, temp
      ensures var st := FedAll(h, st0, Rows(old(unread)));
              outcome == OutcomeOf(st.phase) && Shows(st)
    {
      var section := first;
      ghost var st := st0;
      while true
        invariant Sized() && section != "" && st.phase == Entering(h, section) && Shows(st)
        invariant FedAll(h, st, Rows(unread)) == FedAll(h, st0, Rows(old(unread)))
        decreases |unread|
      {
        if !tables.known(section) {
          FedStopped(h, st, Rows(unread));
          return Spins;
        }
        var end;
        end, st := ReadSection(section, h, st);
        match end {
          case EndOfFile =>
            return Loaded;
          case Broken(o) =>
            FedStopped(h, st, Rows(unread));
            return o;
          case NextSection(next) =>
            section := next;
        }
      }
    }

    method InitConfig() returns (outcome: Outcome)
      requires Sized() && Shows(Initial())
      modifies this, line, temp
      ensures var st := FedAll(HandlersBy(tables), Initial(), Rows(old(unread)));
              outcome == OutcomeOf(st.phase) && Shows(st)
    {
      ghost var h := HandlersBy(tables);
      var end := Seek(h);
      match end {
        case EndOfFile =>
          return NoSection;
        case Broken(o) =>
          return o;
        case NextSection(section) =>
          outcome := MainLoop(section, h, Initial().(phase := Entering(h, section)));
      }
    }
  }

  // what a file gives: the outcome, the fields it assigns and the interfaces it registers
  method LoadConfig(file: string)
      returns (outcome: Outcome, settings: Settings, apis: Apis, ghost olds: seq<seq<string>>)
    ensures var st := FedAll(Program(), Initial(), Rows(file));
            outcome == OutcomeOf(st.phase) && settings == st.settings
    ensures var st := FedAll(Program(), Initial(), Rows(file));
            Olds(st.added, olds) && apis == ApisOf(st.added, olds)
  {
    var reader := new Reader(file, ProgramTables());
    outcome := reader.InitConfig();
    settings, apis, olds := reader.settings, reader.apis, reader.olds;
  }

  // a trimmed line has no remark and no blank in front
  lemma TrimmedShape(s: string)
    ensures '#' !in Trimmed(s) && (Trimmed(s) != "" ==> !Blank(Trimmed(s)[0]))
  {
    var t := LTrim(s);
    LTrimStarts(s);
    IndexOfFinds(t, '#', 0);
    RTrimPrefix(Cut(t));
  }

  lemma TrimmedAgain(u: string)
    requires '#' !in u && (u != "" ==> !Blank(u[0]))
    ensures LTrim(u) == u && !(u != "" && u[0] == '#')
  {
    LTrimIs(u, 0);
  }

  // where fgets stops
  lemma ChunkIs(file: string, i: nat)
    requires 0 < i <= |file| && i < PACKET && forall j :: 0 <= j < i - 1 ==> file[j] != '\n'
    requires i == PACKET - 1 || i == |file| || file[i - 1] == '\n'
    ensures ChunkLength(file) == i
  {
    if file[i - 1] == '\n' {
      IndexOfIs(file, '\n', 0, i - 1);
    } else {
      IndexOfFinds(file, '\n', 0);
    }
  }
}

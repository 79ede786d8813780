/**
  The reading of a configuration file as a fold over its lines, for any set of section handlers.

  The two nested loops of CUserQueryMain::BdxInitConfig read a line, and either take it for the header of
  the next section or hand its key and value to the handler of the current one. Which sections have a
  handler, and what a handler does with a key and value, are parameters here.
*/
module ConfigRows {

  // what a section handler makes of a line; Underrun: it is trimmed past its beginning
  datatype Line = Skipped | Underrun | Header(section: string) | Pair(key: string, value: string, at: nat) | Other

  // a line, and whether '#' is its first character
  datatype Row = Row(line: Line, comment: bool)

  // what the search for the first section makes of a line: it trims before it looks for '#'
  function FirstLine(row: Row): Line {
    if row.comment then Underrun
    else if row.line.Header? || row.line.Underrun? then row.line
    else Skipped
  }

  // Loaded and NoSection are the program's true and false; the others are where the model ends: an access
  // outside a buffer, and the endless loop on a section without a handler
  datatype Outcome = Loaded | NoSection | OutOfBounds | Spins

  datatype MaybeField<F> = NoField | ThatField(field: F)

  // what a handler does with a key and value: an assignment, or more tokens of URLS, which start at these
  // places of the line buffer
  datatype Action<F, V, A> =
    | Ignore
    | Set(field: F, setting: V)
    | Add(more: seq<nat>, entries: A)
    | Fault(outcome: Outcome)

  // `act` sees the section, where the tokens so far start, the key, the value and the value's place in the buffer
  datatype Handlers<!F, !V, !A> = Handlers(
    known: string -> bool,
    field: (string, string) -> MaybeField<F>,
    setting: (F, string) -> V,
    act: (string, seq<nat>, string, string, nat) -> Action<F, V, A>)

  ghost predicate ActFits<F, V, A>(h: Handlers<F, V, A>, section: string, starts: seq<nat>, key: string,
                                   value: string, at: nat) {
    match h.act(section, starts, key, value, at)
    case Set(field, setting) => h.field(section, key) == ThatField(field) && setting == h.setting(field, value)
    case Fault(outcome) => outcome == OutOfBounds
    case _ => h.field(section, key) == NoField
  }

  // handlers assign the field of the section and key, and no field without a section
  ghost predicate Lawful<F, V, A>(h: Handlers<F, V, A>) {
    && (forall section, starts: seq<nat>, key, value, at: nat :: ActFits(h, section, starts, key, value, at))
    && forall key :: h.field("", key) == NoField
  }

  // ----- the fold -----

  // `starts` are the places of the URLS tokens of this visit to the section
  datatype Phase = Seeking | Within(section: string, starts: seq<nat>) | Stopped(outcome: Outcome)

  // the fields assigned so far and the lists of entries added, in order
  datatype State<F(==), V, A> = State(phase: Phase, settings: map<F, V>, added: seq<A>)

  function Initial<F, V, A>(): State<F, V, A> {
    State(Seeking, map[], [])
  }

  // the main loop sees a new section
  function Entering<F, V, A>(h: Handlers<F, V, A>, section: string): Phase {
    if h.known(section) then Within(section, []) else Stopped(Spins)
  }

  function Acted<F, V, A>(st: State<F, V, A>, section: string, starts: seq<nat>, action: Action<F, V, A>)
    : State<F, V, A>
  {
    match action
    case Ignore => st
    case Set(field, setting) => st.(settings := st.settings[field := setting])
    case Add(more, entries) => st.(phase := Within(section, starts + more), added := st.added + [entries])
    case Fault(outcome) => st.(phase := Stopped(outcome))
  }

  function Fed<F, V, A>(h: Handlers<F, V, A>, st: State<F, V, A>, row: Row): State<F, V, A> {
    match st.phase
    case Stopped(_) => st
    case Seeking =>
      (match FirstLine(row)
       case Underrun => st.(phase := Stopped(OutOfBounds))
       case Header(section) => st.(phase := Entering(h, section))
       case _ => st)
    case Within(section, starts) =>
      (match row.line
       case Underrun => st.(phase := Stopped(OutOfBounds))
       case Header(next) => st.(phase := Entering(h, next))
       case Pair(key, value, at) => Acted(st, section, starts, h.act(section, starts, key, value, at))
       case _ => st)
  }

  function FedAll<F, V, A>(h: Handlers<F, V, A>, st: State<F, V, A>, rows: seq<Row>): State<F, V, A>
    decreases |rows|
  {
    if rows == [] then st else FedAll(h, Fed(h, st, rows[0]), rows[1..])
  }

  function OutcomeOf(phase: Phase): Outcome {
    match phase
    case Seeking => NoSection
    case Within(_, _) => Loaded
    case Stopped(outcome) => outcome
  }

  // the state after the first n lines
  function After<F, V, A>(h: Handlers<F, V, A>, rows: seq<Row>, n: nat): State<F, V, A>
    requires n <= |rows|
  {
    if n == 0 then Initial() else Fed(h, After(h, rows, n - 1), rows[n - 1])
  }

  lemma FedFirst<F, V, A>(h: Handlers<F, V, A>, st: State<F, V, A>, rows: seq<Row>)
    requires rows != []
    ensures FedAll(h, st, rows) == FedAll(h, Fed(h, st, rows[0]), rows[1..])
  {
  }

  lemma {:induction false} AfterAll<F, V, A>(h: Handlers<F, V, A>, rows: seq<Row>, n: nat)
    requires n <= |rows|
    ensures FedAll(h, After(h, rows, n), rows[n..]) == After(h, rows, |rows|)
    decreases |rows| - n
  {
    if n < |rows| {
      FedFirst(h, After(h, rows, n), rows[n..]);
      assert rows[n..][1..] == rows[n + 1..];
      AfterAll(h, rows, n + 1);
    } else {
      assert rows[n..] == [];
    }
  }

  // ----- what becomes of a file, from its lines alone -----

  // the section a line stands in: the last header in front of it, "" for none
  function SectionAt(rows: seq<Row>, n: nat): string
    requires n <= |rows|
  {
    if n == 0 then "" else if rows[n - 1].line.Header? then rows[n - 1].line.section else SectionAt(rows, n - 1)
  }

  // where the URLS tokens since that header start
  function StartsAt<F, V, A>(h: Handlers<F, V, A>, rows: seq<Row>, n: nat): seq<nat>
    requires n <= |rows|
  {
    if n == 0 || rows[n - 1].line.Header? then []
    else StartsAt(h, rows, n - 1) + Tokens(h, SectionAt(rows, n - 1), StartsAt(h, rows, n - 1), rows[n - 1].line)
  }

  function Tokens<F, V, A>(h: Handlers<F, V, A>, section: string, starts: seq<nat>, line: Line): seq<nat> {
    if !line.Pair? then []
    else
      match h.act(section, starts, line.key, line.value, line.at)
      case Add(more, _) => more
      case _ => []
  }

  // what stops the program at a line, if anything
  datatype Verdict = Fine | Bad(outcome: Outcome)

  // a line in front of the first header: '#' as its first non-blank is trimmed past the beginning
  function SeekVerdict(row: Row): Verdict {
    if FirstLine(row).Underrun? then Bad(OutOfBounds) else Fine
  }

  // a line of a section
  function LineVerdict<F, V, A>(h: Handlers<F, V, A>, section: string, starts: seq<nat>, line: Line): Verdict {
    match line
    case Underrun => Bad(OutOfBounds)
    case Pair(key, value, at) =>
      (match h.act(section, starts, key, value, at)
       case Fault(outcome) => Bad(outcome)
       case _ => Fine)
    case _ => Fine
  }

  function VerdictAt<F, V, A>(h: Handlers<F, V, A>, rows: seq<Row>, n: nat): Verdict
    requires n < |rows|
  {
    var section := SectionAt(rows, n);
    var verdict :=
      if section == "" then SeekVerdict(rows[n]) else LineVerdict(h, section, StartsAt(h, rows, n), rows[n].line);
    if verdict == Fine && rows[n].line.Header? && !h.known(rows[n].line.section) then Bad(Spins) else verdict
  }

  // the first of the first n lines that stops the program, or n
  function FirstBad<F, V, A>(h: Handlers<F, V, A>, rows: seq<Row>, n: nat): (k: nat)
    requires n <= |rows|
    ensures k <= n
  {
    if n == 0 then 0
    else
      var k := FirstBad(h, rows, n - 1);
      if k < n - 1 then k else if VerdictAt(h, rows, n - 1) == Fine then n else n - 1
  }

  lemma {:induction false} FirstBadIs<F, V, A>(h: Handlers<F, V, A>, rows: seq<Row>, n: nat)
    requires n <= |rows|
    ensures var k := FirstBad(h, rows, n);
            && (forall i: nat :: i < k ==> VerdictAt(h, rows, i) == Fine)
            && (k < n ==> VerdictAt(h, rows, k).Bad?)
  {
    if n > 0 {
      FirstBadIs(h, rows, n - 1);
    }
  }

  predicate NamedHeaders(rows: seq<Row>) {
    forall n :: 0 <= n < |rows| && rows[n].line.Header? ==> rows[n].line.section != ""
  }

  predicate HeaderBefore(rows: seq<Row>, n: nat)
    requires n <= |rows|
  {
    exists i :: 0 <= i < n && rows[i].line.Header?
  }

  lemma {:induction false} SectionIff(rows: seq<Row>, n: nat)
    requires n <= |rows| && NamedHeaders(rows)
    ensures SectionAt(rows, n) != "" <==> HeaderBefore(rows, n)
  {
    if n > 0 {
      SectionIff(rows, n - 1);
    }
  }

  // the phase before any line that stops the program
  function PhaseAt<F, V, A>(h: Handlers<F, V, A>, rows: seq<Row>, n: nat): Phase
    requires n <= |rows|
  {
    if SectionAt(rows, n) == "" then Seeking else Within(SectionAt(rows, n), StartsAt(h, rows, n))
  }

  // the phase in terms of the lines alone
  ghost predicate PhaseFits<F, V, A>(h: Handlers<F, V, A>, rows: seq<Row>, n: nat, phase: Phase)
    requires n <= |rows|
  {
    var k := FirstBad(h, rows, n);
    if k < n then VerdictAt(h, rows, k).Bad? && phase == Stopped(VerdictAt(h, rows, k).outcome)
    else phase == PhaseAt(h, rows, n)
  }

  // for every file and after any number of its lines
  lemma {:induction false} PhaseIs<F, V, A>(h: Handlers<F, V, A>, rows: seq<Row>, n: nat)
    requires n <= |rows| && NamedHeaders(rows)
    ensures PhaseFits(h, rows, n, After(h, rows, n).phase)
  {
    if n > 0 {
      PhaseIs(h, rows, n - 1);
      PhaseStep(h, rows, n - 1, After(h, rows, n - 1));
    }
  }

  lemma PhaseStep<F, V, A>(h: Handlers<F, V, A>, rows: seq<Row>, n: nat, st: State<F, V, A>)
    requires n < |rows| && NamedHeaders(rows) && PhaseFits(h, rows, n, st.phase)
    ensures PhaseFits(h, rows, n + 1, Fed(h, st, rows[n]).phase)
  {
    if FirstBad(h, rows, n) == n {
      OneLine(h, rows, n, st);
    }
  }

  // one line in the phase of its place
  lemma OneLine<F, V, A>(h: Handlers<F, V, A>, rows: seq<Row>, n: nat, st: State<F, V, A>)
    requires n < |rows| && NamedHeaders(rows) && st.phase == PhaseAt(h, rows, n)
    ensures Fed(h, st, rows[n]).phase ==
            match VerdictAt(h, rows, n)
            case Bad(outcome) => Stopped(outcome)
            case Fine => PhaseAt(h, rows, n + 1)
  {
  }

  // what becomes of every file: the first line that stops the program decides, and without one the file
  // loads if it has a section and is refused if it has none
  lemma OutcomeIs<F, V, A>(h: Handlers<F, V, A>, rows: seq<Row>)
    requires NamedHeaders(rows)
    ensures var n, k := |rows|, FirstBad(h, rows, |rows|);
            && (k < n ==> VerdictAt(h, rows, k).Bad?)
            && OutcomeOf(FedAll(h, Initial(), rows).phase) ==
               if k < n then VerdictAt(h, rows, k).outcome else if HeaderBefore(rows, n) then Loaded else NoSection
  {
    assert rows[0..] == rows;
    AfterAll(h, rows, 0);
    PhaseIs(h, rows, |rows|);
    FirstBadIs(h, rows, |rows|);
    SectionIff(rows, |rows|);
  }

  ghost predicate AllFine<F, V, A>(h: Handlers<F, V, A>, rows: seq<Row>) {
    forall n: nat :: n < |rows| ==> VerdictAt(h, rows, n) == Fine
  }

  // exactly the files with a section, none of whose lines stops the program, load
  lemma LoadsIff<F, V, A>(h: Handlers<F, V, A>, rows: seq<Row>)
    requires Lawful(h) && NamedHeaders(rows)
    ensures var outcome := OutcomeOf(FedAll(h, Initial(), rows).phase);
            && (outcome == Loaded <==> HeaderBefore(rows, |rows|) && AllFine(h, rows))
            && (outcome == NoSection <==> !HeaderBefore(rows, |rows|) && AllFine(h, rows))
  {
    OutcomeIs(h, rows);
    var k := FirstBad(h, rows, |rows|);
    FirstBadIs(h, rows, |rows|);
    if k < |rows| {
      BadIsNoReturn(h, rows, k);
    }
  }

  lemma BadIsNoReturn<F, V, A>(h: Handlers<F, V, A>, rows: seq<Row>, k: nat)
    requires Lawful(h) && k < |rows| && VerdictAt(h, rows, k).Bad?
    ensures VerdictAt(h, rows, k).outcome != Loaded && VerdictAt(h, rows, k).outcome != NoSection
  {
    var line := rows[k].line;
    if line.Pair? {
      assert ActFits(h, SectionAt(rows, k), StartsAt(h, rows, k), line.key, line.value, line.at);
    }
  }

  // ----- the last assignment wins -----

  // line n assigns the field
  predicate Assigns<F(==), V, A>(h: Handlers<F, V, A>, rows: seq<Row>, n: nat, field: F)
    requires n < |rows|
  {
    rows[n].line.Pair? && h.field(SectionAt(rows, n), rows[n].line.key) == ThatField(field)
  }

  // the last of the first n lines that assigns the field, -1 for none
  function LastAt<F(==), V, A>(h: Handlers<F, V, A>, rows: seq<Row>, n: nat, field: F): (k: int)
    requires n <= |rows|
    ensures -1 <= k < n
  {
    if n == 0 then -1 else if Assigns(h, rows, n - 1, field) then n - 1 else LastAt(h, rows, n - 1, field)
  }

  lemma {:induction false} LastAtIs<F, V, A>(h: Handlers<F, V, A>, rows: seq<Row>, n: nat, field: F)
    requires n <= |rows|
    ensures var k := LastAt(h, rows, n, field);
            && (k >= 0 ==> Assigns(h, rows, k, field))
            && forall i: nat :: k < i < n ==> !Assigns(h, rows, i, field)
  {
    if n > 0 {
      LastAtIs(h, rows, n - 1, field);
    }
  }

  ghost predicate LastWins<F, V, A>(h: Handlers<F, V, A>, rows: seq<Row>, n: nat, settings: map<F, V>, field: F)
    requires n <= |rows|
  {
    var k := LastAt(h, rows, n, field);
    if k < 0 then field !in settings
    else field in settings && rows[k].line.Pair? && settings[field] == h.setting(field, rows[k].line.value)
  }

  // for every file: a field holds what the last line of its section and key gives it, of the lines before
  // the one that stops the program, and no other field is assigned
  lemma SettingsAre<F, V, A>(h: Handlers<F, V, A>, rows: seq<Row>, field: F)
    requires Lawful(h) && NamedHeaders(rows)
    ensures LastWins(h, rows, FirstBad(h, rows, |rows|), FedAll(h, Initial(), rows).settings, field)
  {
    assert rows[0..] == rows;
    AfterAll(h, rows, 0);
    LastWinsAfter(h, rows, |rows|, field);
  }

  lemma {:induction false} LastWinsAfter<F, V, A>(h: Handlers<F, V, A>, rows: seq<Row>, n: nat, field: F)
    requires Lawful(h) && NamedHeaders(rows) && n <= |rows|
    ensures LastWins(h, rows, FirstBad(h, rows, n), After(h, rows, n).settings, field)
  {
    if n > 0 {
      LastWinsAfter(h, rows, n - 1, field);
      PhaseIs(h, rows, n - 1);
      LastWinsNext(h, rows, n - 1, After(h, rows, n - 1), field);
    }
  }

  lemma LastWinsNext<F, V, A>(h: Handlers<F, V, A>, rows: seq<Row>, n: nat, st: State<F, V, A>, field: F)
    requires Lawful(h) && n < |rows| && PhaseFits(h, rows, n, st.phase)
    requires LastWins(h, rows, FirstBad(h, rows, n), st.settings, field)
    ensures LastWins(h, rows, FirstBad(h, rows, n + 1), Fed(h, st, rows[n]).settings, field)
  {
    if FirstBad(h, rows, n) == n {
      OneAssignment(h, rows, n, st, field);
    }
  }

  // what one line does to the settings
  lemma OneAssignment<F, V, A>(h: Handlers<F, V, A>, rows: seq<Row>, n: nat, st: State<F, V, A>, field: F)
    requires Lawful(h) && n < |rows| && st.phase == PhaseAt(h, rows, n)
    ensures var settings := Fed(h, st, rows[n]).settings;
            if VerdictAt(h, rows, n) == Fine && Assigns(h, rows, n, field) then
              field in settings && settings[field] == h.setting(field, rows[n].line.value)
            else
              && (field in settings <==> field in st.settings)
              && (field in settings ==> settings[field] == st.settings[field])
  {
    if rows[n].line.Pair? && st.phase.Within? {
      var line := rows[n].line;
      assert ActFits(h, st.phase.section, st.phase.starts, line.key, line.value, line.at);
    }
  }

  // ----- the main loop -----

  // the current section, "" at the end of the file, and the lines not read yet
  datatype Main = Main(section: string, lines: seq<Line>)

  // a section handler returns at the next header
  function NextHeader(lines: seq<Line>): Main {
    if lines == [] then Main("", [])
    else if lines[0].Header? then Main(lines[0].section, lines[1..])
    else NextHeader(lines[1..])
  }

  function MainTurn(known: string -> bool, m: Main): Main {
    if m.section != "" && known(m.section) then NextHeader(m.lines) else m
  }

  function MainTurns(known: string -> bool, m: Main, n: nat): Main
    decreases n
  {
    if n == 0 then m else MainTurns(known, MainTurn(known, m), n - 1)
  }

  ghost predicate Ends(known: string -> bool, m: Main) {
    exists n: nat :: MainTurns(known, m, n).section == ""
  }

  predicate Named(lines: seq<Line>) {
    lines == [] || ((lines[0].Header? ==> lines[0].section != "") && Named(lines[1..]))
  }

  predicate AllKnown(known: string -> bool, lines: seq<Line>) {
    lines == [] || ((lines[0].Header? ==> known(lines[0].section)) && AllKnown(known, lines[1..]))
  }

  lemma {:induction false} KnownAhead(known: string -> bool, lines: seq<Line>)
    requires Named(lines)
    ensures var m := NextHeader(lines);
            if m.section == "" then AllKnown(known, lines)
            else
              && |m.lines| < |lines| && Named(m.lines)
              && (AllKnown(known, lines) <==> known(m.section) && AllKnown(known, m.lines))
  {
    if lines != [] && !lines[0].Header? {
      KnownAhead(known, lines[1..]);
    }
  }

  lemma {:induction false} StandsStill(known: string -> bool, m: Main, n: nat)
    requires MainTurn(known, m) == m
    ensures MainTurns(known, m, n) == m
  {
    if n > 0 {
      StandsStill(known, m, n - 1);
    }
  }

  // the loop ends exactly when every section it comes to has a handler
  lemma {:induction false} MainLoopEndsIff(known: string -> bool, m: Main)
    requires Named(m.lines)
    ensures Ends(known, m) <==> m.section == "" || (known(m.section) && AllKnown(known, m.lines))
    decreases |m.lines|
  {
    if m.section == "" {
      assert MainTurns(known, m, 0).section == "";
    } else if !known(m.section) {
      forall n: nat
        ensures MainTurns(known, m, n).section != ""
      {
        StandsStill(known, m, n);
      }
    } else {
      var next := MainTurn(known, m);
      KnownAhead(known, m.lines);
      EndsNext(known, m);
      if next.section == "" {
        assert MainTurns(known, next, 0).section == "";
      } else {
        MainLoopEndsIff(known, next);
      }
    }
  }

  lemma EndsNext(known: string -> bool, m: Main)
    requires m.section != ""
    ensures Ends(known, m) <==> Ends(known, MainTurn(known, m))
  {
    var next := MainTurn(known, m);
    if Ends(known, m) {
      var n: nat :| MainTurns(known, m, n).section == "";
      assert MainTurns(known, next, n - 1).section == "";
    }
    if Ends(known, next) {
      var n: nat :| MainTurns(known, next, n).section == "";
      assert MainTurns(known, m, n + 1).section == "";
    }
  }
}

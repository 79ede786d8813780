/**
  CUserQueryMain::BdxInitConfig and its section handlers: what a line of a configuration file is, which
  sections and keys there are, and the program's loops, which work in place on one line buffer.
*/
module ConfigFile {
  import opened CText
  import opened Conf
  import opened QueryApis
  import opened ConfigRows

  // ----- lines -----

  // fgets: up to and including the first line feed, at most PACKET - 1 characters
  function ChunkLength(file: string): (n: nat)
    requires file != ""
    ensures 0 < n <= |file| && n < PACKET
  {
    var feed := IndexOf(file, '\n', 0);
    var n := if feed < |file| then feed + 1 else |file|;
    if n < PACKET then n else PACKET - 1
  }

  function LineOf(s: string): Line {
    if (s != "" && s[0] == '#') || LTrim(s) == "" then Skipped
    else if !TrimsInside(s) then Underrun
    else ContentOf(Trimmed(s))
  }

  function ContentOf(u: string): Line {
    if u != "" && u[0] == '[' then Header(u)
    else if IndexOf(u, '=', 0) < |u| then Pair(KeyOf(u), ValueOf(u), IndexOf(u, '=', 0) + 1)
    else Other
  }

  function RowOf(s: string): Row {
    Row(LineOf(s), s != "" && s[0] == '#')
  }

  // the C strings the program reads one after the other
  function Lines(file: string): seq<string> {
    if file == "" then [] else [CStr(file[..ChunkLength(file)])] + Lines(file[ChunkLength(file)..])
  }

  function RowsOf(lines: seq<string>): (rows: seq<Row>)
    ensures |rows| == |lines| && forall n :: 0 <= n < |rows| ==> rows[n] == RowOf(lines[n])
  {
    seq(|lines|, n requires 0 <= n < |lines| => RowOf(lines[n]))
  }

  function Rows(file: string): seq<Row> {
    RowsOf(Lines(file))
  }

  // a header is at least its opening bracket
  lemma HeadersNamed(lines: seq<string>)
    ensures NamedHeaders(RowsOf(lines))
  {
  }

  // the lines that are trimmed past their beginning: a comment behind blanks
  lemma UnderrunIff(s: string)
    ensures LineOf(s).Underrun? <==> s != "" && Blank(s[0]) && LTrim(s) != "" && LTrim(s)[0] == '#'
  {
    assert LineOf(s).Underrun? <==> !RowOf(s).comment && LTrim(s) != "" && !TrimsInside(s);
    TrimsInsideIff(s);
    if s != "" && !Blank(s[0]) {
      LTrimIs(s, 0);
    }
  }

  // the search for the first section trims without looking
  lemma FirstLineIs(s: string)
    ensures FirstLine(RowOf(s)) ==
            if !TrimsInside(s) then Underrun
            else if Trimmed(s) != "" && Trimmed(s)[0] == '[' then Header(Trimmed(s))
            else Skipped
  {
    TrimsInsideIff(s);
    TrimmedStarts(s);
    if s != "" && s[0] == '#' {
      LTrimIs(s, 0);
    }
  }

  // the handlers trim on the left twice
  lemma TrimmedTwice(s: string)
    ensures LTrim(LTrim(s)) == LTrim(s) && TrimsInside(LTrim(s)) == TrimsInside(s) && Trimmed(LTrim(s)) == Trimmed(s)
  {
    LTrimStarts(s);
  }

  // ----- sections and keys -----

  datatype Rank = RankDebug | RankInfo | RankWarning | RankError | RankRequired
  datatype Setting = Text(text: string) | Number(n: int) | Level(rank: Rank)

  // the configuration fields, by section and key
  datatype Field =
    | LogRank | LogFile | LogPath | LogMaxLine
    | HivePath | HiveFile | HiveTime
    | StatPath | StatFile | StatTime | SslPath | SslPassword | ApiQpsLimit
    | RedisIp | RedisPort | RedisIdx | RedisNums
    | LocalIp | LocalPort | LocalIdx | LocalNums
    | ThreadsNum

  predicate Recognised(section: string) {
    || section == "[LOG]" || section == "[TRAFFICHIVELOG]" || section == "[TRAFFICSTATISTICS]"
    || section == "[REDISSERVER]" || section == "[LOCALSERVER]" || section == "[WORKTHREADS]"
    || section == "[QUERYAPIS]"
  }

  function FieldOf(section: string, key: string): MaybeField<Field> {
    if section == "[LOG]" then LogField(key)
    else if section == "[TRAFFICHIVELOG]" then HiveField(key)
    else if section == "[TRAFFICSTATISTICS]" then StatField(key)
    else if section == "[REDISSERVER]" then ServerField(key, RedisIp, RedisPort, RedisIdx, RedisNums)
    else if section == "[LOCALSERVER]" then ServerField(key, LocalIp, LocalPort, LocalIdx, LocalNums)
    else if section == "[WORKTHREADS]" && key == "NUM" then ThatField(ThreadsNum)
    else NoField
  }

  function LogField(key: string): MaybeField<Field> {
    if key == "RANK" then ThatField(LogRank)
    else if key == "FILE" then ThatField(LogFile)
    else if key == "PATH" then ThatField(LogPath)
    else if key == "MAXLINE" then ThatField(LogMaxLine)
    else NoField
  }

  function HiveField(key: string): MaybeField<Field> {
    if key == "PATH" then ThatField(HivePath)
    else if key == "FILE" then ThatField(HiveFile)
    else if key == "TIME" then ThatField(HiveTime)
    else NoField
  }

  function StatField(key: string): MaybeField<Field> {
    if key == "PATH" then ThatField(StatPath)
    else if key == "FILE" then ThatField(StatFile)
    else if key == "TIME" then ThatField(StatTime)
    else if key == "SSLPATH" then ThatField(SslPath)
    else if key == "SSLPASSWORD" then ThatField(SslPassword)
    else if key == "APIQPSLIMIT" then ThatField(ApiQpsLimit)
    else NoField
  }

  function ServerField(key: string, ip: Field, port: Field, idx: Field, nums: Field): MaybeField<Field> {
    if key == "IP" then ThatField(ip)
    else if key == "PORT" then ThatField(port)
    else if key == "IDX" then ThatField(idx)
    else if key == "NUMS" then ThatField(nums)
    else NoField
  }

  function RankOf(value: string): Rank {
    if value == "INFO" then RankInfo
    else if value == "WARNING" then RankWarning
    else if value == "ERROR" then RankError
    else if value == "REQUIRED" then RankRequired
    else RankDebug
  }

  const UINT_LIMIT: int := 0x1_0000_0000
  const IP_WIDTH: nat := 128

  function SettingOf(field: Field, value: string): Setting {
    match field
    case LogRank => Level(RankOf(value))
    case RedisIp | LocalIp => Text(Clip(value, IP_WIDTH))
    case RedisPort | LocalPort => Number(ToUint16(Atoi(value)))
    case RedisIdx | RedisNums | LocalIdx | LocalNums | ApiQpsLimit => Number(Atoi(value))
    case LogMaxLine | HiveTime | StatTime | ThreadsNum => Number(Atoi(value) % UINT_LIMIT)
    case LogFile | LogPath | HivePath | HiveFile | StatPath | StatFile | SslPath | SslPassword => Text(value)
  }

  type Settings = map<Field, Setting>

  // the section and key that assign a field
  function NameOf(field: Field): (string, string) {
    match field
    case LogRank => ("[LOG]", "RANK")
    case LogFile => ("[LOG]", "FILE")
    case LogPath => ("[LOG]", "PATH")
    case LogMaxLine => ("[LOG]", "MAXLINE")
    case HivePath => ("[TRAFFICHIVELOG]", "PATH")
    case HiveFile => ("[TRAFFICHIVELOG]", "FILE")
    case HiveTime => ("[TRAFFICHIVELOG]", "TIME")
    case StatPath => ("[TRAFFICSTATISTICS]", "PATH")
    case StatFile => ("[TRAFFICSTATISTICS]", "FILE")
    case StatTime => ("[TRAFFICSTATISTICS]", "TIME")
    case SslPath => ("[TRAFFICSTATISTICS]", "SSLPATH")
    case SslPassword => ("[TRAFFICSTATISTICS]", "SSLPASSWORD")
    case ApiQpsLimit => ("[TRAFFICSTATISTICS]", "APIQPSLIMIT")
    case RedisIp => ("[REDISSERVER]", "IP")
    case RedisPort => ("[REDISSERVER]", "PORT")
    case RedisIdx => ("[REDISSERVER]", "IDX")
    case RedisNums => ("[REDISSERVER]", "NUMS")
    case LocalIp => ("[LOCALSERVER]", "IP")
    case LocalPort => ("[LOCALSERVER]", "PORT")
    case LocalIdx => ("[LOCALSERVER]", "IDX")
    case LocalNums => ("[LOCALSERVER]", "NUMS")
    case ThreadsNum => ("[WORKTHREADS]", "NUM")
  }

  // no field is assigned from two places
  lemma FieldNamed(section: string, key: string)
    ensures FieldOf(section, key).ThatField? ==> NameOf(FieldOf(section, key).field) == (section, key)
  {
  }

  // ... and every field from its place
  lemma NamedField(field: Field)
    ensures Recognised(NameOf(field).0) && FieldOf(NameOf(field).0, NameOf(field).1) == ThatField(field)
  {
  }

  // the ranks by their names; any other name is RankDebug
  function RankName(rank: Rank): string {
    match rank
    case RankDebug => "DEBUG"
    case RankInfo => "INFO"
    case RankWarning => "WARNING"
    case RankError => "ERROR"
    case RankRequired => "REQUIRED"
  }

  lemma RankNamed(value: string, rank: Rank)
    ensures value == RankName(rank) ==> SettingOf(LogRank, value) == Level(rank)
    ensures SettingOf(LogRank, value) == Level(rank) && rank != RankDebug ==> value == RankName(rank)
  {
  }

  // the numbers a field can hold: ports have 16 bits, counts are unsigned
  predicate Holdable(field: Field, n: int) {
    match field
    case RedisPort | LocalPort => 0 <= n < 65536
    case RedisIdx | RedisNums | LocalIdx | LocalNums | ApiQpsLimit => -INT_LIMIT <= n < INT_LIMIT
    case LogMaxLine | HiveTime | StatTime | ThreadsNum => 0 <= n < INT_LIMIT
    case _ => false
  }

  // a number that is written in decimal is read back, whatever other than a digit follows
  lemma NumberRead(field: Field, n: int, rest: string)
    requires Holdable(field, n) && NoDigitFirst(rest)
    ensures SettingOf(field, Print(n) + rest) == Number(n)
  {
    AtoiPrint(n, rest);
  }

  // a negative one wraps around in a field without a sign
  lemma NegativeRead(field: Field, n: int, rest: string)
    requires -INT_LIMIT <= n < 0 && NoDigitFirst(rest)
    ensures Holdable(field, 0x7fff_ffff) && !Holdable(field, n) ==>
              SettingOf(field, Print(n) + rest) == Number(n + 0x1_0000_0000)
    ensures field == RedisPort || field == LocalPort ==>
              SettingOf(field, Print(n) + rest) == Number(n % 65536)
  {
    AtoiPrint(n, rest);
  }

  // ----- handlers -----

  // a value at its place in the line buffer
  function Placed(value: string, at: nat): string {
    seq(at, (i: nat) => ' ') + value
  }

  function ValueSpans(value: string, at: nat): seq<Span> {
    Spans(EitherOf(Placed(value, at)), at, at + |value|)
  }

  predicate IsUrls(section: string, key: string) {
    section == "[QUERYAPIS]" && key == "URLS"
  }

  // 128 bytes are copied for an address, whatever its length
  predicate CopiesInside(field: Field, at: nat) {
    field == RedisIp || field == LocalIp ==> at + IP_WIDTH <= PACKET
  }

  // what a line of URLS adds: its fields, behind so many of an entry that earlier lines began
  datatype Listing = Listing(begun: nat, fields: seq<string>)

  type Doing = Action<Field, Setting, Listing>

  // an entry of earlier lines goes on in this one, wherever it was broken
  ghost function UrlsAction(starts: seq<nat>, value: string, at: nat): Doing {
    var spans := ValueSpans(value, at);
    if Fits(starts + Begins(spans)) then Add(Begins(spans), Listing(Begun(starts), Texts(Placed(value, at), spans)))
    else Fault(OutOfBounds)
  }

  // which sections and keys there are, and how values are read
  datatype Tables = Tables(
    known: string -> bool,
    field: (string, string) -> MaybeField<Field>,
    setting: (Field, string) -> Setting,
    urls: (string, string) -> bool)

  function FieldAction(t: Tables, field: Field, value: string, at: nat): Doing {
    if CopiesInside(field, at) then Set(field, t.setting(field, value)) else Fault(OutOfBounds)
  }

  ghost function ActionBy(t: Tables, section: string, starts: seq<nat>, key: string, value: string, at: nat): Doing {
    if t.urls(section, key) then UrlsAction(starts, value, at)
    else
      match t.field(section, key)
      case NoField => Ignore
      case ThatField(field) => FieldAction(t, field, value, at)
  }

  type Handling = Handlers<Field, Setting, Listing>
  type Config = State<Field, Setting, Listing>

  ghost function HandlersBy(t: Tables): Handling {
    Handlers(t.known, t.field, t.setting,
             (section: string, starts: seq<nat>, key: string, value: string, at: nat) =>
               ActionBy(t, section, starts, key, value, at))
  }

  // the tables of the program
  function ProgramTables(): Tables {
    Tables(Recognised, FieldOf, SettingOf, IsUrls)
  }

  ghost function Program(): Handling {
    HandlersBy(ProgramTables())
  }

  lemma ProgramLawful()
    ensures Lawful(Program())
  {
    var h := Program();
    forall section, starts: seq<nat>, key, value, at: nat
      ensures ActFits(h, section, starts, key, value, at)
    {
    }
    forall key
      ensures h.field("", key) == NoField
    {
    }
  }

  // olds[i] are the fields that the broken entry of listing i already had. The program kept pointers to them
  // only, and a later line is read into the same buffer: they are what stood there when the entry was closed
  ghost predicate Olds(added: seq<Listing>, olds: seq<seq<string>>) {
    |olds| == |added| && forall i :: 0 <= i < |added| ==> |olds[i]| == added[i].begun
  }

  // the registered interfaces, from the lines of URLS in the order they were read
  function ApisOf(added: seq<Listing>, olds: seq<seq<string>>): Apis
    requires |olds| == |added|
  {
    if added == [] then map[]
    else
      var n := |added| - 1;
      Registered(Fifth(), olds[n] + added[n].fields, ApisOf(added[..n], olds[..n]))
  }

  lemma ApisSnoc(added: seq<Listing>, olds: seq<seq<string>>, listing: Listing, had: seq<string>)
    requires Olds(added, olds) && |had| == listing.begun
    ensures Olds(added + [listing], olds + [had])
    ensures ApisOf(added + [listing], olds + [had]) ==
            Registered(Fifth(), had + listing.fields, ApisOf(added, olds))
  {
    assert (added + [listing])[..|added|] == added && (olds + [had])[..|olds|] == olds;
  }

  // the interfaces that lines of whole entries register
  function WholeApis(added: seq<Listing>): Apis {
    if added == [] then map[]
    else Registered(Fifth(), added[|added| - 1].fields, WholeApis(added[..|added| - 1]))
  }

  // without a broken entry the texts of the file alone decide
  lemma {:induction false} WholeApisIs(added: seq<Listing>, olds: seq<seq<string>>)
    requires Olds(added, olds) && forall i :: 0 <= i < |added| ==> added[i].begun == 0
    ensures ApisOf(added, olds) == WholeApis(added)
  {
    if added != [] {
      var n := |added| - 1;
      WholeApisIs(added[..n], olds[..n]);
      assert olds[n] + added[n].fields == added[n].fields;
    }
  }

  // ----- which files load -----

  // a key and value that leave no buffer: an address begins 128 bytes before the end of the line buffer, the
  // tokens of URLS so far leave room in the pointer array and close no entry too near that end
  ghost predicate PlainPair(section: string, starts: seq<nat>, line: Line)
    requires line.Pair?
  {
    && (line.key == "IP" && (section == "[REDISSERVER]" || section == "[LOCALSERVER]") ==> line.at <= LAST_COLUMN)
    && (IsUrls(section, line.key) ==> Fits(starts + Begins(ValueSpans(line.value, line.at))))
  }

  const LAST_COLUMN: nat := 896

  lemma PlainPairIff(section: string, starts: seq<nat>, line: Line)
    requires line.Pair?
    ensures ActionBy(ProgramTables(), section, starts, line.key, line.value, line.at).Fault? <==>
            !PlainPair(section, starts, line)
  {
    AddressFields(section, line.key);
  }

  lemma AddressFields(section: string, key: string)
    ensures FieldOf(section, key) == ThatField(RedisIp) || FieldOf(section, key) == ThatField(LocalIp) <==>
            key == "IP" && (section == "[REDISSERVER]" || section == "[LOCALSERVER]")
    ensures IsUrls(section, key) ==> FieldOf(section, key) == NoField
  {
  }

  // what a line must be: a comment only in the first column and behind the first header, a header with a
  // handler, a key and value that leave no buffer
  ghost predicate PlainAt(lines: seq<string>, n: nat)
    requires n < |lines|
  {
    var s, rows := lines[n], RowsOf(lines);
    var section, line := SectionAt(rows, n), LineOf(s);
    && (LTrim(s) != "" && LTrim(s)[0] == '#' ==> section != "" && s[0] == '#')
    && (line.Header? ==> Recognised(line.section))
    && (line.Pair? && section != "" ==> PlainPair(section, StartsAt(Program(), rows, n), line))
  }

  // no line stops the program unless it breaks one of these rules
  lemma PlainIff(lines: seq<string>, n: nat)
    requires n < |lines|
    ensures VerdictAt(Program(), RowsOf(lines), n) == Fine <==> PlainAt(lines, n)
  {
    var s, rows := lines[n], RowsOf(lines);
    var section, starts, line := SectionAt(rows, n), StartsAt(Program(), rows, n), LineOf(s);
    CommentIff(s);
    if line.Pair? {
      PlainPairIff(section, starts, line);
    }
  }

  ghost predicate AllPlain(lines: seq<string>) {
    forall n: nat :: n < |lines| ==> PlainAt(lines, n)
  }

  lemma AllPlainIff(lines: seq<string>)
    ensures AllFine(Program(), RowsOf(lines)) <==> AllPlain(lines)
  {
    forall n: nat | n < |lines|
      ensures VerdictAt(Program(), RowsOf(lines), n) == Fine <==> PlainAt(lines, n)
    {
      PlainIff(lines, n);
    }
  }

  // which lines are trimmed past their beginning, in a section and in front of the first one
  lemma CommentIff(s: string)
    ensures var comment := LTrim(s) != "" && LTrim(s)[0] == '#';
            && (LineOf(s).Underrun? <==> comment && s[0] != '#')
            && (FirstLine(RowOf(s)).Underrun? <==> comment)
  {
    UnderrunIff(s);
    TrimsInsideIff(s);
    FirstLineIs(s);
    if s != "" && !Blank(s[0]) {
      LTrimIs(s, 0);
    }
  }

  // exactly the files with a section whose lines are all plain load; exactly those without one whose lines
  // are all plain are refused; every other file leaves a buffer or keeps the main loop in place
  lemma FileLoadsIff(file: string)
    ensures var lines, rows := Lines(file), Rows(file);
            var outcome := OutcomeOf(FedAll(Program(), Initial(), rows).phase);
            && (outcome == Loaded <==> HeaderBefore(rows, |rows|) && AllPlain(lines))
            && (outcome == NoSection <==> !HeaderBefore(rows, |rows|) && AllPlain(lines))
  {
    var lines := Lines(file);
    HeadersNamed(lines);
    ProgramLawful();
    LoadsIff(Program(), Rows(file));
    AllPlainIff(lines);
  }

  // for every file: a field is what the last line for it says, up to the line that stops the program, which
  // is none in a file that loads
  lemma FileSettings(file: string, field: Field)
    ensures var h, rows := Program(), Rows(file);
            var st, k := FedAll(h, Initial(), rows), FirstBad(h, rows, |rows|);
            && LastWins(h, rows, k, st.settings, field)
            && (OutcomeOf(st.phase) == Loaded ==> k == |rows|)
  {
    var h, rows := Program(), Rows(file);
    ProgramLawful();
    HeadersNamed(Lines(file));
    SettingsAre(h, rows, field);
    OutcomeIs(h, rows);
    if FirstBad(h, rows, |rows|) < |rows| {
      BadIsNoReturn(h, rows, FirstBad(h, rows, |rows|));
    }
  }
}

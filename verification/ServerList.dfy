/**
  redis_serv_list: the text "n;host:port,idx;host:port,idx;..." read with strchr, strncpy and atoi, and
  the printers that produce such texts.

  A missing ';' makes the program compute with a null pointer, and an entry of 256 characters or more
  does not fit its buffer: both are `Undefined` here.
*/
module ServerList {
  import opened CText
  import opened Options

  datatype Server = Server(host: string, port: nat, idx: nat)

  datatype Parsed = Servers(list: seq<Server>) | Rejected | Undefined

  const ENTRY_LIMIT: nat := 256

  // how a port or database number is read
  type Reader = string -> nat

  function Uint16(text: string): nat {
    ToUint16(Atoi(text))
  }

  // host up to the first ':', port after it, database after the first ',' behind that
  function ServerOf(read: Reader, entry: string): Server
    requires IndexOf(entry, ':', 0) < |entry|
  {
    var colon := IndexOf(entry, ':', 0);
    var comma := IndexOf(entry, ',', colon);
    Server(entry[..colon], read(entry[colon + 1..]), if comma == |entry| then 0 else read(entry[comma + 1..]))
  }

  // one turn of the loop: it ends the parse, or takes a server and moves the cursor
  datatype Turn = Stop(outcome: Parsed) | Take(server: Server, next: nat)

  function TurnAt(read: Reader, s: string, curr: nat): Turn {
    if curr > |s| then Stop(Undefined)
    else
      var semi := IndexOf(s, ';', curr);
      if semi == |s| || semi - curr >= ENTRY_LIMIT then Stop(Undefined)
      else if IndexOf(s[curr..semi], ':', 0) == semi - curr then Stop(Rejected)
      else Take(ServerOf(read, s[curr..semi]), semi + 1)
  }

  function Turns(read: Reader, s: string): nat -> Turn {
    (curr: nat) => TurnAt(read, s, curr)
  }

  // n more turns from position curr, behind the servers already taken
  function Entries(turn: nat -> Turn, curr: nat, n: nat, done: seq<Server>): Parsed
    decreases n
  {
    if n == 0 then Servers(done)
    else
      match turn(curr)
      case Stop(outcome) => outcome
      case Take(server, next) => Entries(turn, next, n - 1, done + [server])
  }

  // uint32_t count = atoi(...)
  function Uint32(text: string): nat {
    Atoi(text) % 0x1_0000_0000
  }

  function ParseWith(read: Reader, readCount: Reader, s: string): Parsed {
    var semi := IndexOf(s, ';', 0);
    if semi == |s| then Undefined else Entries(Turns(read, s), semi + 1, readCount(s), [])
  }

  // the text ends at its first NUL
  function Parse(s: string): Parsed {
    ParseWith(Uint16, Uint32, CStr(s))
  }

  // the three deques describe these servers
  predicate Zips(done: seq<Server>, hosts: seq<string>, ports: seq<nat>, idxs: seq<nat>) {
    && |hosts| == |ports| == |idxs| == |done|
    && forall i :: 0 <= i < |done| ==> done[i] == Server(hosts[i], ports[i], idxs[i])
  }

  method ServList(s: string) returns (r: Parsed)
    ensures r == Parse(s)
  {
    r := ServListWith(Uint16, Uint32, CStr(s));
  }

  method ServListWith(read: Reader, readCount: Reader, s: string) returns (r: Parsed)
    ensures r == ParseWith(read, readCount, s)
  {
    var count := readCount(s);
    var token := IndexOf(s, ';', 0);
    if token == |s| {
      return Undefined;
    }
    var curr: nat, left: nat := token + 1, count;
    var hosts: seq<string>, ports: seq<nat>, idxs: seq<nat> := [], [], [];
    ghost var turn, done: seq<Server>, goal := Turns(read, s), [], ParseWith(read, readCount, s);
    while left > 0
      invariant curr <= |s| && Zips(done, hosts, ports, idxs)
      invariant Entries(turn, curr, left, done) == goal
    {
      var outcome, server, next := TakeEntry(read, s, curr, turn);
      if !outcome.Servers? {
        return outcome;
      }
      hosts, ports, idxs := hosts + [server.host], ports + [server.port], idxs + [server.idx];
      done := done + [server];
      curr, left := next, left - 1;
    }
    r := Servers(seq(|hosts|, i requires 0 <= i < |hosts| => Server(hosts[i], ports[i], idxs[i])));
    assert r.list == done;
  }

  // the body of the loop
  method TakeEntry(read: Reader, s: string, curr: nat, ghost turn: nat -> Turn)
      returns (outcome: Parsed, server: Server, next: nat)
    requires curr <= |s| && turn == Turns(read, s)
    ensures if outcome.Servers? then turn(curr) == Take(server, next) && next <= |s| else turn(curr) == Stop(outcome)
  {
    server, next := Server("", 0, 0), curr;
    var token := IndexOf(s, ';', curr);
    if token == |s| || token - curr >= ENTRY_LIMIT {
      return Undefined, server, next;
    }
    var serv := s[curr..token];
    var ok, host, port, idx := ReadEntry(read, serv);
    if !ok {
      return Rejected, server, next;
    }
    return Servers([]), Server(host, port, idx), token + 1;
  }

  // "host:port,idx" or "host:port"
  method ReadEntry(read: Reader, serv: string) returns (ok: bool, host: string, port: nat, idx: nat)
    ensures ok <==> IndexOf(serv, ':', 0) < |serv|
    ensures ok ==> Server(host, port, idx) == ServerOf(read, serv)
  {
    host, port, idx := "", 0, 0;
    var colon := IndexOf(serv, ':', 0);
    ok := colon < |serv|;
    if ok {
      host, port := serv[..colon], read(serv[colon + 1..]);
      var comma := IndexOf(serv, ',', colon);
      if comma < |serv| {
        idx := read(serv[comma + 1..]);
      }
    }
  }

  // ----- printing -----

  // an entry may leave out its database
  datatype Entry = Entry(host: string, port: nat, idx: Option<nat>)

  function TailText(idx: Option<nat>): string {
    if idx.Some? then "," + Print(idx.value) else ""
  }

  function Body(e: Entry): string {
    e.host + ":" + (Print(e.port) + TailText(e.idx))
  }

  function Concat(bodies: seq<string>): string {
    if bodies == [] then "" else (bodies[0] + ";") + Concat(bodies[1..])
  }

  function Bodies(es: seq<Entry>): seq<string> {
    seq(|es|, i requires 0 <= i < |es| => Body(es[i]))
  }

  function Show(es: seq<Entry>): string {
    Print(|es|) + (";" + Concat(Bodies(es)))
  }

  function Meant(e: Entry): Server {
    Server(e.host, e.port, if e.idx.Some? then e.idx.value else 0)
  }

  function MeantAll(es: seq<Entry>): seq<Server> {
    seq(|es|, i requires 0 <= i < |es| => Meant(es[i]))
  }

  predicate WellFormed(e: Entry) {
    && ':' !in e.host && ';' !in e.host && '\0' !in e.host
    && e.port < 65536 && (e.idx.Some? ==> e.idx.value < 65536)
    && |Body(e)| < ENTRY_LIMIT
  }

  // no punctuation in a printed number
  predicate Plain(text: string) {
    ':' !in text && ';' !in text && ',' !in text
  }

  lemma PrintIsPlain(n: int)
    ensures Plain(Print(n)) && '\0' !in Print(n)
  {
  }

  // the parts of an entry, whatever its numbers look like
  lemma ServerOfParts(read: Reader, host: string, port: string, tail: string)
    requires ':' !in host && Plain(port) && (tail == "" || tail[0] == ',')
    ensures var b := host + ":" + (port + tail);
            && IndexOf(b, ':', 0) < |b|
            && ServerOf(read, b) == Server(host, read(port + tail), if tail == "" then 0 else read(tail[1..]))
  {
    var b, h := host + ":" + (port + tail), |host|;
    assert b[h] == ':' && b[..h] == host;
    IndexOfIs(b, ':', 0, h);
    assert b[h + 1..] == port + tail;
    var comma := h + 1 + |port|;
    assert b[h..comma] == ":" + port;
    assert b[comma..] == tail;
    if tail != "" {
      assert b[comma + 1..] == tail[1..];
    }
    IndexOfIs(b, ',', h, comma);
  }

  lemma Uint16Print(n: nat, rest: string)
    requires n < 65536 && NoDigitFirst(rest)
    ensures Uint16(Print(n) + rest) == n
  {
    AtoiPrint(n, rest);
  }

  lemma BodyParses(e: Entry)
    requires WellFormed(e)
    ensures Separable(Body(e)) && ServerOf(Uint16, Body(e)) == Meant(e) && '\0' !in Body(e)
  {
    PrintIsPlain(e.port);
    ServerOfParts(Uint16, e.host, Print(e.port), TailText(e.idx));
    Uint16Print(e.port, TailText(e.idx));
    if e.idx.Some? {
      PrintIsPlain(e.idx.value);
      Uint16Print(e.idx.value, "");
      assert TailText(e.idx)[1..] == Print(e.idx.value) + "";
    }
  }

  predicate Separable(body: string) {
    ';' !in body && |body| < ENTRY_LIMIT && IndexOf(body, ':', 0) < |body|
  }

  predicate Means(read: Reader, body: string, server: Server) {
    Separable(body) && ServerOf(read, body) == server
  }

  // one entry in the middle of a text
  lemma EntryParses(read: Reader, s: string, curr: nat, body: string, server: Server)
    requires Means(read, body, server)
    requires curr + |body| < |s| && s[curr..curr + |body|] == body && s[curr + |body|] == ';'
    ensures TurnAt(read, s, curr) == Take(server, curr + |body| + 1)
  {
    IndexOfIs(s, ';', curr, curr + |body|);
  }

  lemma Cut(s: string, curr: nat, body: string, rest: string)
    requires curr <= |s| && s[curr..] == (body + ";") + rest
    ensures curr + |body| < |s| && s[curr..curr + |body|] == body && s[curr + |body|] == ';'
    ensures s[curr + |body| + 1..] == rest
  {
    var t := s[curr..];
    assert s[curr..curr + |body|] == t[..|body|] == body;
    assert s[curr + |body| + 1..] == t[|body| + 1..] == rest;
    assert s[curr + |body|] == t[|body|];
  }

  // turns that take these servers, one after the other
  predicate Walks(turn: nat -> Turn, curr: nat, servers: seq<Server>)
    decreases |servers|
  {
    servers == [] ||
    (turn(curr).Take? && turn(curr).server == servers[0] && Walks(turn, turn(curr).next, servers[1..]))
  }

  lemma {:induction false} WalkTakes(turn: nat -> Turn, curr: nat, done: seq<Server>, servers: seq<Server>)
    requires Walks(turn, curr, servers)
    ensures Entries(turn, curr, |servers|, done) == Servers(done + servers)
    decreases |servers|
  {
    if servers == [] {
      assert done + servers == done;
    } else {
      WalkTakes(turn, turn(curr).next, done + [servers[0]], servers[1..]);
      assert (done + [servers[0]]) + servers[1..] == done + servers;
    }
  }

  // the entries from position curr to the end of a text
  lemma {:induction false} TextWalks(read: Reader, s: string, curr: nat, bodies: seq<string>, servers: seq<Server>)
    requires curr <= |s| && s[curr..] == Concat(bodies) && |servers| == |bodies|
    requires forall i :: 0 <= i < |bodies| ==> Means(read, bodies[i], servers[i])
    ensures Walks(Turns(read, s), curr, servers)
    decreases |bodies|
  {
    if bodies != [] {
      Cut(s, curr, bodies[0], Concat(bodies[1..]));
      EntryParses(read, s, curr, bodies[0], servers[0]);
      var next := curr + |bodies[0]| + 1;
      TextWalks(read, s, next, bodies[1..], servers[1..]);
      WalkStep(Turns(read, s), curr, next, servers);
    }
  }

  lemma WalkStep(turn: nat -> Turn, curr: nat, next: nat, servers: seq<Server>)
    requires servers != [] && turn(curr) == Take(servers[0], next) && Walks(turn, next, servers[1..])
    ensures Walks(turn, curr, servers)
  {
  }

  lemma HeadParses(n: int, rest: string)
    requires -INT_LIMIT <= n < INT_LIMIT
    ensures var s := Print(n) + (";" + rest);
            IndexOf(s, ';', 0) == |Print(n)| && Uint32(s) == n % 0x1_0000_0000
  {
    var s := Print(n) + (";" + rest);
    PrintIsPlain(n);
    assert s[0..|Print(n)|] == Print(n);
    IndexOfIs(s, ';', 0, |Print(n)|);
    AtoiPrint(n, ";" + rest);
  }

  // parsing undoes printing, in order; a missing database reads as 0
  lemma ParseShow(es: seq<Entry>)
    requires |es| < INT_LIMIT && forall i :: 0 <= i < |es| ==> WellFormed(es[i])
    ensures Parse(Show(es)) == Servers(MeantAll(es))
  {
    BodiesMean(es);
    ParseCounted(Bodies(es), MeantAll(es));
  }

  lemma BodiesMean(es: seq<Entry>)
    requires forall i :: 0 <= i < |es| ==> WellFormed(es[i])
    ensures forall i :: 0 <= i < |es| ==> Means(Uint16, Bodies(es)[i], MeantAll(es)[i]) && '\0' !in Bodies(es)[i]
  {
    forall i | 0 <= i < |es|
      ensures Means(Uint16, Bodies(es)[i], MeantAll(es)[i]) && '\0' !in Bodies(es)[i]
    {
      BodyParses(es[i]);
    }
  }

  lemma ParseCounted(bodies: seq<string>, servers: seq<Server>)
    requires |bodies| == |servers| < INT_LIMIT
    requires forall i :: 0 <= i < |bodies| ==> Means(Uint16, bodies[i], servers[i]) && '\0' !in bodies[i]
    ensures Parse(Print(|bodies|) + (";" + Concat(bodies))) == Servers(servers)
  {
    var count, text := Print(|bodies|), Concat(bodies);
    HeadParses(|bodies|, text);
    SmallCount(|bodies|);
    NoNul(bodies);
    PrintIsPlain(|bodies|);
    PlainParse(count + (";" + text));
    BehindCount(count, text);
    ParseText(Uint16, Uint32, count + (";" + text), |count|, bodies, servers);
  }

  lemma {:induction false} NoNul(bodies: seq<string>)
    requires forall i :: 0 <= i < |bodies| ==> '\0' !in bodies[i]
    ensures '\0' !in Concat(bodies)
  {
    if bodies != [] {
      NoNul(bodies[1..]);
    }
  }

  lemma SmallCount(n: nat)
    requires n < INT_LIMIT
    ensures n % 0x1_0000_0000 == n
  {
  }

  lemma PlainParse(s: string)
    requires '\0' !in s
    ensures Parse(s) == ParseWith(Uint16, Uint32, s)
  {
  }

  lemma ParseAt(read: Reader, readCount: Reader, s: string, semi: nat, servers: seq<Server>)
    requires semi < |s| && IndexOf(s, ';', 0) == semi && readCount(s) == |servers|
    requires Walks(Turns(read, s), semi + 1, servers)
    ensures ParseWith(read, readCount, s) == Servers(servers)
  {
    WalkTakes(Turns(read, s), semi + 1, [], servers);
    assert [] + servers == servers;
  }

  // a count, then the entries
  lemma ParseText(read: Reader, readCount: Reader, s: string, semi: nat, bodies: seq<string>, servers: seq<Server>)
    requires semi < |s| && IndexOf(s, ';', 0) == semi && s[semi + 1..] == Concat(bodies)
    requires readCount(s) == |bodies| == |servers|
    requires forall i :: 0 <= i < |bodies| ==> Means(read, bodies[i], servers[i])
    ensures ParseWith(read, readCount, s) == Servers(servers)
  {
    TextWalks(read, s, semi + 1, bodies, servers);
    ParseAt(read, readCount, s, semi, servers);
  }

  lemma BehindCount(count: string, rest: string)
    ensures var s := count + (";" + rest);
            |count| < |s| && s[|count| + 1..] == rest
  {
  }

  // ----- the text the two callers build -----

  function CallerBody(ip: string, port: nat, idx: int): string {
    ip + ":" + (Print(port) + ("," + Print(idx)))
  }

  function CallerList(count: int, ip: string, port: nat, idx: int): string {
    Print(count) + ";" + ip + ":" + Print(port) + "," + Print(idx) + ";"
  }

  // the arrays the callers print the count and the database into, with the terminator
  const NUMBER_WIDTH: nat := 10

  predicate Overruns(n: int) {
    |Print(n)| >= NUMBER_WIDTH
  }

  function CallerParse(count: int, ip: string, port: nat, idx: int): Parsed {
    if Overruns(count) || Overruns(idx) then Undefined else Parse(CallerList(count, ip, port, idx))
  }

  // an address that fits its field of 128 bytes with its terminator
  predicate Address(ip: string) {
    ':' !in ip && ';' !in ip && '\0' !in ip && |ip| < 128
  }

  predicate InInt(n: int) {
    -INT_LIMIT <= n < INT_LIMIT
  }

  // one entry is printed whatever the configured count is, so the text means the one server, with the low 16
  // bits of the database, exactly when the count is 1: a count of 0 gives no server, and any other runs off
  // the text, if not already off the array it is printed into
  lemma CallerListParses(count: int, ip: string, port: nat, idx: int)
    requires InInt(count) && InInt(idx) && port < 65536 && Address(ip)
    ensures CallerParse(count, ip, port, idx) ==
            if Overruns(idx) then Undefined
            else if count == 1 then Servers([Server(ip, port, idx % 65536)])
            else if count == 0 then Servers([])
            else Undefined
  {
    if !Overruns(idx) {
      CallerMeans(ip, port, idx);
      CallerReads(count, ip, port, idx, Server(ip, port, idx % 65536));
    }
  }

  lemma Uint16PrintAny(n: int, rest: string)
    requires InInt(n) && NoDigitFirst(rest)
    ensures Uint16(Print(n) + rest) == n % 65536
  {
    AtoiPrint(n, rest);
  }

  lemma Uint16PrintOnly(n: int)
    requires InInt(n)
    ensures Uint16(Print(n)) == n % 65536
  {
    Uint16PrintAny(n, "");
    assert Print(n) + "" == Print(n);
  }

  lemma CallerMeans(ip: string, port: nat, idx: int)
    requires InInt(idx) && port < 65536 && Address(ip) && !Overruns(idx)
    ensures var body := CallerBody(ip, port, idx);
            Means(Uint16, body, Server(ip, port, idx % 65536)) && '\0' !in body
  {
    PrintIsPlain(port);
    PrintIsPlain(idx);
    PortWidth(port);
    Uint16PrintAny(port, "," + Print(idx));
    Uint16PrintOnly(idx);
    PartsMean(Uint16, ip, Print(port), Print(idx), Server(ip, port, idx % 65536));
  }

  lemma PartsMean(read: Reader, ip: string, port: string, idx: string, server: Server)
    requires Address(ip) && Plain(port) && Plain(idx) && |port| <= 5 && |idx| < NUMBER_WIDTH
    requires '\0' !in port && '\0' !in idx
    requires server == Server(ip, read(port + ("," + idx)), read(idx))
    ensures var body := ip + ":" + (port + ("," + idx));
            Means(read, body, server) && '\0' !in body
  {
    var tail := "," + idx;
    ServerOfParts(read, ip, port, tail);
    assert tail[1..] == idx;
  }

  lemma PortWidth(port: nat)
    requires port < 65536
    ensures |Print(port)| <= 5
  {
    var tens := port / 10;
    var hundreds := tens / 10;
    var thousands := hundreds / 10;
    assert |PrintNat(thousands / 10)| <= 1;
    OneMoreDigit(thousands, 1);
    OneMoreDigit(hundreds, 2);
    OneMoreDigit(tens, 3);
    OneMoreDigit(port, 4);
  }

  lemma OneMoreDigit(n: nat, k: nat)
    requires |PrintNat(n / 10)| <= k && k > 0
    ensures |PrintNat(n)| <= k + 1
  {
  }

  lemma CallerReads(count: int, ip: string, port: nat, idx: int, server: Server)
    requires InInt(count) && !Overruns(idx)
    requires Means(Uint16, CallerBody(ip, port, idx), server) && '\0' !in CallerBody(ip, port, idx)
    ensures CallerParse(count, ip, port, idx) ==
            if count == 1 then Servers([server]) else if count == 0 then Servers([]) else Undefined
  {
    var s := CallerList(count, ip, port, idx);
    CallerText(count, ip, port, idx);
    PrintIsPlain(count);
    HeadParses(count, CallerBody(ip, port, idx) + ";");
    CallerCount(count);
    PlainParse(s);
    CallerTurns(s, Print(count), CallerBody(ip, port, idx), server);
    CallerEnds(Uint16, Uint32, s, |Print(count)|, server);
  }

  lemma CallerEnds(read: Reader, readCount: Reader, s: string, semi: nat, server: Server)
    requires IndexOf(s, ';', 0) == semi < |s|
    requires TurnAt(read, s, semi + 1) == Take(server, |s|) && TurnAt(read, s, |s|) == Stop(Undefined)
    ensures ParseWith(read, readCount, s) ==
            if readCount(s) == 1 then Servers([server]) else if readCount(s) == 0 then Servers([]) else Undefined
  {
    if readCount(s) > 0 {
      OneTurn(Turns(read, s), semi + 1, |s|, readCount(s), server);
    }
  }

  // the first turn takes the server, the second one finds nothing
  lemma CallerTurns(s: string, count: string, body: string, server: Server)
    requires s == count + (";" + (body + ";")) && Means(Uint16, body, server)
    ensures TurnAt(Uint16, s, |count| + 1) == Take(server, |s|) && TurnAt(Uint16, s, |s|) == Stop(Undefined)
  {
    assert s[|count| + 1..] == (body + ";") + "";
    Cut(s, |count| + 1, body, "");
    EntryParses(Uint16, s, |count| + 1, body, server);
  }

  // one server, then nothing
  lemma OneTurn(turn: nat -> Turn, curr: nat, end: nat, n: nat, server: Server)
    requires n > 0 && turn(curr) == Take(server, end) && turn(end) == Stop(Undefined)
    ensures Entries(turn, curr, n, []) == if n == 1 then Servers([server]) else Undefined
  {
    assert [] + [server] == [server];
    assert Entries(turn, curr, n, []) == Entries(turn, end, n - 1, [server]);
  }

  lemma CallerText(count: int, ip: string, port: nat, idx: int)
    ensures CallerList(count, ip, port, idx) == Print(count) + (";" + (CallerBody(ip, port, idx) + ";"))
  {
    Grouped(Print(count), ip, Print(port), Print(idx));
  }

  lemma Grouped(count: string, ip: string, port: string, idx: string)
    ensures count + ";" + ip + ":" + port + "," + idx + ";" ==
            count + (";" + ((ip + ":" + (port + ("," + idx))) + ";"))
  {
  }

  // the counts 0 and 1 are printed in one digit
  lemma CallerCount(count: int)
    requires InInt(count)
    ensures (count % 0x1_0000_0000 == 0 <==> count == 0) && (count % 0x1_0000_0000 == 1 <==> count == 1)
    ensures count == 0 || count == 1 ==> !Overruns(count)
  {
    if count == 0 || count == 1 {
      assert Print(count) == PrintNat(count) == [DigitChar(count)];
    }
  }
}

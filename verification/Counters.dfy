/**
  The traffic counters: workers add to reports of their own, CUserQueryCount drains these into its report,
  prints it and clears it.

  Draining one worker's report is one step. The counters are 64 bits wide.
*/
module Counters {
  import opened Sets

  const LIMIT: int := 0x1_0000_0000_0000_0000

  datatype Counter = Req | Res | EmptyRes | ResTag | ResError

  datatype Info = Info(req: int, res: int, emptyRes: int, resTag: int, resError: int)

  type Report = map<string, Info>

  const ZERO := Info(0, 0, 0, 0, 0)

  function Value(info: Info, c: Counter): int {
    match c
    case Req => info.req
    case Res => info.res
    case EmptyRes => info.emptyRes
    case ResTag => info.resTag
    case ResError => info.resError
  }

  // operator[] of the map: a new entry is zero
  function InfoAt(report: Report, user: string): Info {
    if user in report then report[user] else ZERO
  }

  function Get(report: Report, user: string, c: Counter): int {
    Value(InfoAt(report, user), c)
  }

  function Sum64(a: int, b: int): int {
    (a + b) % LIMIT
  }

  function Plus(a: Info, b: Info): Info {
    Info(Sum64(a.req, b.req), Sum64(a.res, b.res), Sum64(a.emptyRes, b.emptyRes), Sum64(a.resTag, b.resTag),
         Sum64(a.resError, b.resError))
  }

  // ----- operator += -----

  type Adding = (Info, Info) -> Info

  // the users in `done` are added
  ghost predicate AddedBy(plus: Adding, report: Report, other: Report, done: set<string>, sum: Report) {
    && sum.Keys == report.Keys + done
    && forall u :: u in sum ==> sum[u] == if u in done then plus(InfoAt(report, u), InfoAt(other, u)) else report[u]
  }

  ghost predicate AddedFor(report: Report, other: Report, done: set<string>, sum: Report) {
    AddedBy(Plus, report, other, done, sum)
  }

  method AddReport(report: Report, other: Report) returns (sum: Report)
    ensures AddedFor(report, other, other.Keys, sum)
  {
    sum := AddAll(Plus, report, other);
  }

  method AddAll(plus: Adding, report: Report, other: Report) returns (sum: Report)
    ensures AddedBy(plus, report, other, other.Keys, sum)
  {
    sum := report;
    var rest := other.Keys;
    ghost var done := {};
    while rest != {}
      invariant Split(other.Keys, done, rest) && AddedBy(plus, report, other, done, sum)
      decreases |rest|
    {
      var user :| user in rest;
      SplitMore(other.Keys, done, rest, user);
      AddedMore(plus, report, other, done, sum, user);
      sum := sum[user := plus(InfoAt(sum, user), InfoAt(other, user))];
      rest, done := rest - {user}, done + {user};
    }
    assert done == other.Keys;
  }

  lemma AddedMore(plus: Adding, report: Report, other: Report, done: set<string>, sum: Report, user: string)
    requires AddedBy(plus, report, other, done, sum) && user !in done
    ensures AddedBy(plus, report, other, done + {user}, sum[user := plus(InfoAt(sum, user), InfoAt(other, user))])
  {
    assert InfoAt(sum, user) == InfoAt(report, user);
  }

  lemma AddedGet(report: Report, other: Report, sum: Report, u: string, c: Counter)
    requires AddedFor(report, other, other.Keys, sum)
    ensures (Get(sum, u, c) - Get(report, u, c) - Get(other, u, c)) % LIMIT == 0
  {
    if u in other {
      ModGone(Get(report, u, c) + Get(other, u, c));
    }
  }

  lemma ModGone(x: int)
    ensures (x % LIMIT - x) % LIMIT == 0
  {
    var q := x / LIMIT;
    assert x == q * LIMIT + x % LIMIT;
    assert x % LIMIT - x == (-q) * LIMIT;
    MultipleGone(-q);
  }

  lemma BothMultiples(a: int, b: int)
    requires a % LIMIT == 0 && b % LIMIT == 0
    ensures (a + b) % LIMIT == 0
  {
  }

  lemma MultipleGone(q: int)
    ensures q * LIMIT % LIMIT == 0
  {
  }

  // ----- the printed rows -----

  // one line of the file: the error counter is not printed
  datatype Row = Row(user: string, req: int, res: int, emptyRes: int, resTag: int)

  function RowOf(user: string, info: Info): Row {
    Row(user, info.req, info.res, info.emptyRes, info.resTag)
  }

  function Printed(row: Row, c: Counter): int {
    match c
    case Req => row.req
    case Res => row.res
    case EmptyRes => row.emptyRes
    case ResTag => row.resTag
    case ResError => 0
  }

  function PrintedSum(rows: seq<Row>, user: string, c: Counter): int {
    if rows == [] then 0
    else
      var last := rows[|rows| - 1];
      PrintedSum(rows[..|rows| - 1], user, c) + (if last.user == user then Printed(last, c) else 0)
  }

  // the rows list exactly the users in `done`, once each
  ghost predicate Lists(report: Report, rows: seq<Row>, done: set<string>) {
    && done <= report.Keys
    && forall u, c :: c != ResError ==> PrintedSum(rows, u, c) == if u in done then Get(report, u, c) else 0
  }

  method PrintReport(report: Report) returns (rows: seq<Row>)
    ensures Lists(report, rows, report.Keys)
  {
    rows := [];
    var rest := report.Keys;
    ghost var done := {};
    while rest != {}
      invariant Split(report.Keys, done, rest) && Lists(report, rows, done)
      decreases |rest|
    {
      var user :| user in rest;
      SplitMore(report.Keys, done, rest, user);
      ListsMore(report, rows, done, user);
      rows := rows + [RowOf(user, report[user])];
      rest, done := rest - {user}, done + {user};
    }
  }

  lemma ListsMore(report: Report, rows: seq<Row>, done: set<string>, user: string)
    requires Lists(report, rows, done) && user in report && user !in done
    ensures Lists(report, rows + [RowOf(user, report[user])], done + {user})
  {
    var more := rows + [RowOf(user, report[user])];
    assert more[..|rows|] == rows;
  }

  lemma {:induction false} PrintedAppend(a: seq<Row>, b: seq<Row>, u: string, c: Counter)
    ensures PrintedSum(a + b, u, c) == PrintedSum(a, u, c) + PrintedSum(b, u, c)
    decreases |b|
  {
    if b == [] {
      assert a + b == a;
    } else {
      var n := |b| - 1;
      PrintedAppend(a, b[..n], u, c);
      assert (a + b)[..|a| + n] == a + b[..n];
    }
  }

  // ----- the reports of the workers -----

  function WorkersSum(workers: seq<Report>, u: string, c: Counter): int {
    if workers == [] then 0
    else WorkersSum(workers[..|workers| - 1], u, c) + Get(workers[|workers| - 1], u, c)
  }

  lemma {:induction false} WorkersUpdate(workers: seq<Report>, w: nat, report: Report, u: string, c: Counter)
    requires w < |workers|
    ensures WorkersSum(workers[w := report], u, c) ==
            WorkersSum(workers, u, c) - Get(workers[w], u, c) + Get(report, u, c)
  {
    var n := |workers| - 1;
    if w == n {
      assert workers[w := report][..n] == workers[..n];
    } else {
      WorkersUpdate(workers[..n], w, report, u, c);
      assert workers[w := report][..n] == workers[..n][w := report];
    }
  }

  // ----- conservation over runs -----

  // what a worker records: so much more of one counter of one user
  datatype Record = Record(user: string, amount: Info)

  function RecordedSum(records: seq<Record>, u: string, c: Counter): int {
    if records == [] then 0
    else
      var last := records[|records| - 1];
      RecordedSum(records[..|records| - 1], u, c) + (if last.user == u then Value(last.amount, c) else 0)
  }

  datatype State = State(workers: seq<Report>, report: Report, printed: seq<Row>, recorded: seq<Record>)

  // `rows` are the report's users in whatever order, `sum` the drained report
  datatype Step = RecordStep(w: nat, record: Record) | Drain(w: nat, sum: Report) | Print(rows: seq<Row>)

  ghost predicate Enabled(s: State, step: Step) {
    match step
    case RecordStep(w, _) => w < |s.workers|
    case Drain(w, sum) => w < |s.workers| && AddedFor(s.report, s.workers[w], s.workers[w].Keys, sum)
    case Print(rows) => Lists(s.report, rows, s.report.Keys)
  }

  ghost function Apply(s: State, step: Step): State
    requires Enabled(s, step)
  {
    match step
    case RecordStep(w, record) =>
      var mine := s.workers[w];
      s.(workers := s.workers[w := mine[record.user := Plus(InfoAt(mine, record.user), record.amount)]],
         recorded := s.recorded + [record])
    case Drain(w, sum) => s.(workers := s.workers[w := map[]], report := sum)
    case Print(rows) => s.(printed := s.printed + rows, report := map[])
  }

  // printed so far, in the report and with the workers, against what was recorded
  ghost function Excess(s: State, u: string, c: Counter): int {
    PrintedSum(s.printed, u, c) + Get(s.report, u, c) + WorkersSum(s.workers, u, c) - RecordedSum(s.recorded, u, c)
  }

  lemma StepConserves(s: State, step: Step, u: string, c: Counter)
    requires Enabled(s, step) && c != ResError
    ensures (Excess(Apply(s, step), u, c) - Excess(s, u, c)) % LIMIT == 0
  {
    match step
    case RecordStep(w, record) =>
      RecordConserves(s, w, record, u, c);
    case Drain(w, sum) =>
      AddedGet(s.report, s.workers[w], sum, u, c);
      WorkersUpdate(s.workers, w, map[], u, c);
    case Print(rows) =>
      PrintedAppend(s.printed, rows, u, c);
  }

  lemma RecordConserves(s: State, w: nat, record: Record, u: string, c: Counter)
    requires w < |s.workers|
    ensures (Excess(Apply(s, RecordStep(w, record)), u, c) - Excess(s, u, c)) % LIMIT == 0
  {
    var mine, user := s.workers[w], record.user;
    var more := mine[user := Plus(InfoAt(mine, user), record.amount)];
    WorkersUpdate(s.workers, w, more, u, c);
    assert (s.recorded + [record])[..|s.recorded|] == s.recorded;
    if u == user {
      ModGone(Get(mine, u, c) + Value(record.amount, c));
    }
  }

  ghost predicate Run(states: seq<State>, steps: seq<Step>) {
    && |states| == |steps| + 1
    && forall i :: 0 <= i < |steps| ==> Enabled(states[i], steps[i]) && states[i + 1] == Apply(states[i], steps[i])
  }

  // nothing printed or drained yet, and nothing recorded
  function Empty(n: nat): State {
    State(Idle(n), map[], [], [])
  }

  function Idle(n: nat): seq<Report> {
    seq(n, _ => map[])
  }

  lemma {:induction false} EmptyBalanced(n: nat, u: string, c: Counter)
    ensures WorkersSum(Idle(n), u, c) == 0
  {
    if n > 0 {
      EmptyBalanced(n - 1, u, c);
      assert Idle(n)[..n - 1] == Idle(n - 1);
    }
  }

  // in every run, for every user and each printed counter, nothing recorded is lost or counted twice
  lemma {:induction false} RunConserves(n: nat, states: seq<State>, steps: seq<Step>, k: nat, u: string, c: Counter)
    requires Run(states, steps) && states[0] == Empty(n) && k <= |steps| && c != ResError
    ensures Excess(states[k], u, c) % LIMIT == 0
  {
    if k == 0 {
      EmptyBalanced(n, u, c);
    } else {
      RunConserves(n, states, steps, k - 1, u, c);
      StepConserves(states[k - 1], steps[k - 1], u, c);
    }
  }

  // the errors that the first k steps clear without printing them
  ghost function Lost(states: seq<State>, steps: seq<Step>, k: nat, u: string): int
    requires Run(states, steps) && k <= |steps|
  {
    if k == 0 then 0
    else Lost(states, steps, k - 1, u) + LostBy(states[k - 1], steps[k - 1], u)
  }

  function LostBy(s: State, step: Step, u: string): int {
    if step.Print? then Get(s.report, u, ResError) else 0
  }

  // in every run no error is ever printed, and each one recorded is either still in a report or lost
  lemma {:induction false} ErrorsLost(n: nat, states: seq<State>, steps: seq<Step>, k: nat, u: string)
    requires Run(states, steps) && states[0] == Empty(n) && k <= |steps|
    ensures PrintedSum(states[k].printed, u, ResError) == 0
    ensures (Lost(states, steps, k, u) + Excess(states[k], u, ResError)) % LIMIT == 0
  {
    NoErrors(states[k].printed, u);
    if k == 0 {
      EmptyBalanced(n, u, ResError);
    } else {
      ErrorsLost(n, states, steps, k - 1, u);
      LostNext(states, steps, k, u);
    }
  }

  lemma LostNext(states: seq<State>, steps: seq<Step>, k: nat, u: string)
    requires Run(states, steps) && 0 < k <= |steps|
    requires (Lost(states, steps, k - 1, u) + Excess(states[k - 1], u, ResError)) % LIMIT == 0
    ensures (Lost(states, steps, k, u) + Excess(states[k], u, ResError)) % LIMIT == 0
  {
    var s, step := states[k - 1], steps[k - 1];
    var more := LostBy(s, step, u);
    assert states[k] == Apply(s, step);
    ErrorStep(s, step, u);
    LostMore(Lost(states, steps, k - 1, u), Excess(s, u, ResError), Excess(states[k], u, ResError), more);
  }

  lemma LostMore(lost: int, before: int, after: int, more: int)
    requires (lost + before) % LIMIT == 0 && (more + after - before) % LIMIT == 0
    ensures (lost + more + after) % LIMIT == 0
  {
    BothMultiples(lost + before, more + after - before);
    assert (lost + before) + (more + after - before) == lost + more + after;
  }

  lemma ErrorStep(s: State, step: Step, u: string)
    requires Enabled(s, step)
    ensures (LostBy(s, step, u) + Excess(Apply(s, step), u, ResError) - Excess(s, u, ResError)) % LIMIT == 0
  {
    NoErrors(s.printed, u);
    NoErrors(Apply(s, step).printed, u);
    match step
    case RecordStep(w, record) =>
      RecordConserves(s, w, record, u, ResError);
    case Drain(w, sum) =>
      AddedGet(s.report, s.workers[w], sum, u, ResError);
      WorkersUpdate(s.workers, w, map[], u, ResError);
    case Print(rows) =>
  }

  lemma {:induction false} NoErrors(rows: seq<Row>, u: string)
    ensures PrintedSum(rows, u, ResError) == 0
  {
    if rows != [] {
      NoErrors(rows[..|rows| - 1], u);
    }
  }

  // ----- the program -----

  class Count {
    var workers: seq<Report>
    var report: Report
    var printed: seq<Row>

    // the constructor drains what the workers recorded before it
    constructor (workers: seq<Report>)
      ensures |this.workers| == |workers| && printed == []
      ensures forall i :: 0 <= i < |workers| ==> this.workers[i] == map[]
      ensures forall u, c ::
                (Get(report, u, c) - WorkersSum(workers, u, c)) % LIMIT == 0
    {
      this.workers, report, printed := workers, map[], [];
      new;
      GetReport();
      AllDrained(map[], report, workers);
    }

    // BdxQueryCountGetReport
    method GetReport()
      modifies this`workers, this`report
      ensures |workers| == |old(workers)| && forall i :: 0 <= i < |workers| ==> workers[i] == map[]
      ensures DrainedInto(old(report), report, old(workers))
    {
      var i := 0;
      ghost var before := workers;
      while i < |workers|
        invariant i <= |workers| == |before| && (forall j :: 0 <= j < i ==> workers[j] == map[])
        invariant forall j :: i <= j < |workers| ==> workers[j] == before[j]
        invariant DrainedInto(old(report), report, before[..i])
      {
        ghost var was := report;
        report := AddReport(report, workers[i]);
        DrainedMore(old(report), was, report, before, i);
        workers := workers[i := map[]];
        i := i + 1;
      }
      assert before[..i] == before;
    }

    // one turn of Core
    method Turn()
      modifies this
      ensures |workers| == |old(workers)| && report == map[]
      ensures forall i :: 0 <= i < |workers| ==> workers[i] == map[]
      ensures forall u, c :: c != ResError ==>
                (PrintedSum(printed, u, c) - PrintedSum(old(printed), u, c)
                 - Get(old(report), u, c) - WorkersSum(old(workers), u, c)) % LIMIT == 0
    {
      GetReport();
      var rows := PrintReport(report);
      PrintedAll(old(report), report, old(workers), old(printed), rows);
      printed, report := printed + rows, map[];
    }
  }

  ghost predicate DrainedInto(report: Report, after: Report, workers: seq<Report>) {
    forall u, c :: (Get(after, u, c) - Get(report, u, c) - WorkersSum(workers, u, c)) % LIMIT == 0
  }

  lemma DrainedMore(start: Report, report: Report, after: Report, workers: seq<Report>, i: nat)
    requires i < |workers| && DrainedInto(start, report, workers[..i])
    requires AddedFor(report, workers[i], workers[i].Keys, after)
    ensures DrainedInto(start, after, workers[..i + 1])
  {
    assert workers[..i + 1][..i] == workers[..i];
    forall u, c
      ensures (Get(after, u, c) - Get(start, u, c) - WorkersSum(workers[..i + 1], u, c)) % LIMIT == 0
    {
      AddedGet(report, workers[i], after, u, c);
      var step := Get(after, u, c) - Get(report, u, c) - Get(workers[i], u, c);
      var before := Get(report, u, c) - Get(start, u, c) - WorkersSum(workers[..i], u, c);
      assert before % LIMIT == 0;
      BothMultiples(step, before);
      assert Get(after, u, c) - Get(start, u, c) - WorkersSum(workers[..i + 1], u, c) == step + before;
    }
  }

  lemma AllDrained(empty: Report, report: Report, workers: seq<Report>)
    requires empty == map[] && DrainedInto(empty, report, workers)
    ensures forall u, c :: (Get(report, u, c) - WorkersSum(workers, u, c)) % LIMIT == 0
  {
    forall u, c
      ensures (Get(report, u, c) - WorkersSum(workers, u, c)) % LIMIT == 0
    {
      assert (Get(report, u, c) - Get(empty, u, c) - WorkersSum(workers, u, c)) % LIMIT == 0;
    }
  }

  lemma PrintedAll(start: Report, report: Report, workers: seq<Report>, printed: seq<Row>, rows: seq<Row>)
    requires DrainedInto(start, report, workers) && Lists(report, rows, report.Keys)
    ensures forall u, c :: c != ResError ==>
              (PrintedSum(printed + rows, u, c) - PrintedSum(printed, u, c)
               - Get(start, u, c) - WorkersSum(workers, u, c)) % LIMIT == 0
  {
    forall u, c | c != ResError
      ensures (PrintedSum(printed + rows, u, c) - PrintedSum(printed, u, c)
               - Get(start, u, c) - WorkersSum(workers, u, c)) % LIMIT == 0
    {
      PrintedAppend(printed, rows, u, c);
      assert (Get(report, u, c) - Get(start, u, c) - WorkersSum(workers, u, c)) % LIMIT == 0;
    }
  }
}

/**
  The daily settlement of CUserQueryUpdate: every order in the set of orders to update whose count has
  reached its limit, and which has not expired on its own, is marked and moved to the set of updated ones.

  Redis is one flat store that answers every command. The order in which SMEMBERS lists a set is left open;
  members that read alike are settled once, because the second visit finds the mark of the first.
*/
module Settlement {
  import opened CText
  import opened Options
  import opened RedisStore
  import opened RedisText
  import opened OrderMember
  import opened Sets

  // the keys of an order, and how the texts under them are read; `seen` is what the program reads of a
  // member, `rebuilt` what it makes of that, and `sent` what the server is asked to move for a text, if anything
  datatype Names = Names(
    need: string,
    already: string,
    status: string -> string,
    count: string -> string,
    limit: string -> string,
    expire: string -> string,
    ranking: string -> string,
    seen: string -> string,
    rebuilt: string -> string,
    sent: string -> Option<string>,
    open: string -> bool,
    reached: (string, string) -> bool)

  const NEED: string := "need_updated_datahub_order"
  const ALREADY: string := "already_updated_datahub_order"

  function StatusKey(m: string): string {
    "order_status#" + m
  }

  function CountKey(m: string): string {
    "order_count#" + m
  }

  function LimitKey(m: string): string {
    "order_limit#" + m
  }

  function ExpireKey(m: string): string {
    "order_expire#" + m
  }

  function RankingKey(m: string): string {
    UserOf(m) + "#orderid"
  }

  // the member behind the two keys, as the library cuts the text of the command
  function SentMember(format: Formatter, u: string): Option<string> {
    match SmoveCall(format, NEED, ALREADY, u)
    case Moving(from, to, member) => if from == NEED && to == ALREADY then Some(member) else None
    case _ => None
  }

  function ProgramNames(format: Formatter): Names {
    Names(NEED, ALREADY, StatusKey, CountKey, LimitKey, ExpireKey,
          RankingKey, CStr, Rebuilt, (u: string) => SentMember(format, u),
          (t: string) => Atoi(t) == 0, (c: string, l: string) => Atoi(c) >= Atoi(l))
  }

  // the status keys are nobody else's, and the two sets are no order's
  ghost predicate Distinct(n: Names) {
    && n.need != n.already
    && (forall m :: n.status(m) != n.need && n.status(m) != n.already)
    && (forall m :: n.ranking(m) != n.need && n.ranking(m) != n.already)
    && (forall m, m' :: n.status(m) == n.status(m') ==> m == m')
    && (forall m, u :: n.status(m) != n.count(u))
    && (forall m, u :: n.status(m) != n.limit(u))
    && (forall m, u :: n.status(m) != n.expire(u))
  }

  lemma StatusKeyOnly(m: string, u: string)
    ensures StatusKey(m) != CountKey(u) && StatusKey(m) != LimitKey(u) && StatusKey(m) != ExpireKey(u)
    ensures StatusKey(m)[0] == 'o'
  {
    assert StatusKey(m)[6] == 's' && CountKey(u)[6] == 'c' && LimitKey(u)[6] == 'l' && ExpireKey(u)[6] == 'e';
  }

  lemma StatusKeyInjective(m: string, m': string)
    requires StatusKey(m) == StatusKey(m')
    ensures m == m'
  {
    assert StatusKey(m)[13..] == m && StatusKey(m')[13..] == m';
  }

  lemma KeysApart()
    ensures forall m, u :: StatusKey(m) != CountKey(u)
    ensures forall m, u :: StatusKey(m) != LimitKey(u)
    ensures forall m, u :: StatusKey(m) != ExpireKey(u)
    ensures forall m, m' :: StatusKey(m) == StatusKey(m') ==> m == m'
  {
    forall m, u
      ensures StatusKey(m) != CountKey(u) && StatusKey(m) != LimitKey(u) && StatusKey(m) != ExpireKey(u)
    {
      StatusKeyOnly(m, u);
    }
    forall m, m' | StatusKey(m) == StatusKey(m')
      ensures m == m'
    {
      StatusKeyInjective(m, m');
    }
  }

  lemma StatusNotSet(m: string)
    ensures StatusKey(m) != NEED && StatusKey(m) != ALREADY && NEED != ALREADY
  {
    assert StatusKey(m)[0] == 'o' && NEED[0] == 'n' && ALREADY[0] == 'a';
  }

  lemma RankingNotSet(m: string)
    ensures RankingKey(m) != NEED && RankingKey(m) != ALREADY
  {
    var key := RankingKey(m);
    assert key[|key| - 1] == "#orderid"[7] == 'd' && NEED[|NEED| - 1] == 'r' && ALREADY[|ALREADY| - 1] == 'r';
  }

  lemma ProgramNamesDistinct(format: Formatter)
    ensures Distinct(ProgramNames(format))
  {
    KeysApart();
    StatusNotSet("");
    forall m
      ensures StatusKey(m) != NEED && StatusKey(m) != ALREADY
      ensures RankingKey(m) != NEED && RankingKey(m) != ALREADY
    {
      StatusNotSet(m);
      RankingNotSet(m);
    }
  }

  // ----- what the pass reads -----

  // UserGet: a text that is not empty
  function GetText(store: Store, key: string): Option<string> {
    match Lookup(store, key)
    case Some(Text(t, _)) => if t == "" then None else Some(t)
    case _ => None
  }

  function MembersAt(store: Store, key: string): set<string> {
    match Lookup(store, key)
    case Some(Members(s)) => s
    case _ => {}
  }

  // the members as the program reads them
  function Listed(n: Names, store: Store): set<string> {
    set m | m in MembersAt(store, n.need) :: n.seen(m)
  }

  predicate Due(n: Names, store: Store, m: string) {
    var u := n.rebuilt(m);
    var status, count, limit := GetText(store, n.status(m)), GetText(store, n.count(u)), GetText(store, n.limit(u));
    && status.Some? && n.open(status.value)
    && count.Some? && limit.Some? && n.reached(count.value, limit.value)
    && GetText(store, n.expire(u)).None?
  }

  // ----- one member -----

  // ZREMRANGEBYRANK 0 0, where `first` picks the member of lowest rank
  function DropFirst(first: map<string, Score> -> string): Command {
    (slot: Slot) =>
      match slot
      case Some(Ranked(z)) =>
        var rest := z - {first(z)};
        Effect(if rest == map[] then None else Some(Ranked(rest)), Integer(|z| - |rest|))
      case None => Effect(slot, Integer(0))
      case _ => Effect(slot, Error)
  }

  const SETTLED: string := "1"

  // UserSmove
  function MoveSent(n: Names, store: Store, sent: Option<string>): Store {
    match sent
    case None => store
    case Some(w) => Smove(store, n.need, n.already, w).0
  }

  function SettledOne(n: Names, first: map<string, Score> -> string, store: Store, m: string): Store {
    if !Due(n, store, m) then store
    else
      var marked := Run(store, n.status(m), Set(SETTLED, -1)).0;
      var moved := MoveSent(n, marked, n.sent(n.rebuilt(m)));
      Run(moved, n.ranking(m), DropFirst(first)).0
  }

  lemma SmoveKeepsTexts(store: Store, from: string, to: string, member: string, k: string)
    ensures GetText(Smove(store, from, to, member).0, k) == GetText(store, k)
  {
  }

  lemma DropKeepsAll(store: Store, key: string, first: map<string, Score> -> string, k: string)
    ensures var after := Run(store, key, DropFirst(first)).0;
            GetText(after, k) == GetText(store, k) && MembersAt(after, k) == MembersAt(store, k)
  {
  }

  // the texts after one member
  lemma TextsAfterOne(n: Names, first: map<string, Score> -> string, store: Store, m: string, k: string)
    requires Due(n, store, m)
    ensures GetText(SettledOne(n, first, store, m), k) == if k == n.status(m) then Some(SETTLED) else GetText(store, k)
  {
    var marked := Run(store, n.status(m), Set(SETTLED, -1)).0;
    assert GetText(marked, k) == if k == n.status(m) then Some(SETTLED) else GetText(store, k);
    var sent := n.sent(n.rebuilt(m));
    if sent.Some? {
      SmoveKeepsTexts(marked, n.need, n.already, sent.value, k);
    }
    DropKeepsAll(MoveSent(n, marked, sent), n.ranking(m), first, k);
  }

  // the open orders are a set, or none
  predicate HasSet(n: Names, store: Store) {
    !WrongType(Lookup(store, n.need))
  }

  // the server is asked to move this text for the member
  predicate SentAs(n: Names, m: string, u: string) {
    n.sent(n.rebuilt(m)) == Some(u)
  }

  // SMOVE refuses a target that is some other kind of value
  predicate Movable(n: Names, store: Store, m: string) {
    && !WrongType(Lookup(store, n.already))
    && n.sent(n.rebuilt(m)).Some? && n.sent(n.rebuilt(m)).value in MembersAt(store, n.need)
  }

  function MovedFor(n: Names, store: Store, m: string): set<string> {
    if Movable(n, store, m) then {n.sent(n.rebuilt(m)).value} else {}
  }

  // the two sets after one member
  lemma SetsAfterOne(n: Names, first: map<string, Score> -> string, store: Store, m: string)
    requires Distinct(n) && HasSet(n, store) && Due(n, store, m)
    ensures var after, moved := SettledOne(n, first, store, m), MovedFor(n, store, m);
            && HasSet(n, after) && WrongType(Lookup(after, n.already)) == WrongType(Lookup(store, n.already))
            && MembersAt(after, n.need) == MembersAt(store, n.need) - moved
            && MembersAt(after, n.already) == MembersAt(store, n.already) + moved
  {
    var sent := n.sent(n.rebuilt(m));
    var marked := Run(store, n.status(m), Set(SETTLED, -1)).0;
    assert Lookup(marked, n.need) == Lookup(store, n.need) && Lookup(marked, n.already) == Lookup(store, n.already);
    var moved := MoveSent(n, marked, sent);
    if sent.Some? {
      SmoveSets(marked, n.need, n.already, sent.value);
    }
    var after := Run(moved, n.ranking(m), DropFirst(first)).0;
    assert Lookup(after, n.need) == Lookup(moved, n.need) && Lookup(after, n.already) == Lookup(moved, n.already);
  }

  lemma SmoveSets(store: Store, from: string, to: string, u: string)
    requires from != to && !WrongType(Lookup(store, from))
    ensures var after := Smove(store, from, to, u).0;
            var moved := if !WrongType(Lookup(store, to)) && u in MembersAt(store, from) then {u} else {};
            && !WrongType(Lookup(after, from)) && WrongType(Lookup(after, to)) == WrongType(Lookup(store, to))
            && MembersAt(after, from) == MembersAt(store, from) - moved
            && MembersAt(after, to) == MembersAt(store, to) + moved
  {
  }

  // ----- one pass -----

  // what the members in `done` moved
  function Moved(n: Names, store: Store, done: set<string>): set<string> {
    set m | m in done && Due(n, store, m) && Movable(n, store, m) :: n.sent(n.rebuilt(m)).value
  }

  ghost predicate MarkedBy(n: Names, store: Store, done: set<string>, k: string) {
    exists m :: m in done && Due(n, store, m) && k == n.status(m)
  }

  // the two sets and the texts after the members in `done`, in whatever order
  ghost predicate SetsPassed(n: Names, store: Store, after: Store, done: set<string>) {
    && HasSet(n, after) && WrongType(Lookup(after, n.already)) == WrongType(Lookup(store, n.already))
    && MembersAt(after, n.need) == MembersAt(store, n.need) - Moved(n, store, done)
    && MembersAt(after, n.already) == MembersAt(store, n.already) + Moved(n, store, done)
  }

  ghost predicate TextsPassed(n: Names, store: Store, after: Store, done: set<string>) {
    forall k :: GetText(after, k) == if MarkedBy(n, store, done, k) then Some(SETTLED) else GetText(store, k)
  }

  ghost predicate PassedOver(n: Names, store: Store, after: Store, done: set<string>) {
    SetsPassed(n, store, after, done) && TextsPassed(n, store, after, done)
  }

  // the members not visited yet are as due as before
  lemma DueKept(n: Names, store: Store, after: Store, done: set<string>, m: string)
    requires Distinct(n) && TextsPassed(n, store, after, done) && m !in done
    ensures Due(n, after, m) == Due(n, store, m)
  {
    var u := n.rebuilt(m);
    assert !MarkedBy(n, store, done, n.status(m));
    assert !MarkedBy(n, store, done, n.count(u));
    assert !MarkedBy(n, store, done, n.limit(u));
    assert !MarkedBy(n, store, done, n.expire(u));
  }

  lemma PassOne(n: Names, first: map<string, Score> -> string, store: Store, after: Store, done: set<string>, m: string)
    requires Distinct(n) && HasSet(n, store) && PassedOver(n, store, after, done) && m !in done
    ensures PassedOver(n, store, SettledOne(n, first, after, m), done + {m})
  {
    DueKept(n, store, after, done, m);
    if Due(n, store, m) {
      SetsOne(n, first, store, after, done, m);
      TextsOne(n, first, store, after, done, m);
    } else {
      MovedSame(n, store, done, m);
    }
  }

  lemma SetsOne(n: Names, first: map<string, Score> -> string, store: Store, after: Store, done: set<string>, m: string)
    requires Distinct(n) && SetsPassed(n, store, after, done) && Due(n, store, m) && Due(n, after, m)
    ensures SetsPassed(n, store, SettledOne(n, first, after, m), done + {m})
  {
    SetsAfterOne(n, first, after, m);
    MovedMore(n, store, done, m);
    var sent, target := n.sent(n.rebuilt(m)), !WrongType(Lookup(store, n.already));
    MoveOneMore(MembersAt(store, n.need), MembersAt(store, n.already), Moved(n, store, done),
                if sent.Some? then sent.value else "", target && sent.Some?);
  }

  lemma MoveOneMore(need: set<string>, already: set<string>, moved: set<string>, u: string, movable: bool)
    ensures var more := moved + (if movable && u in need then {u} else {});
            var one := if movable && u in need - moved then {u} else {};
            && (need - moved) - one == need - more
            && (already + moved) + one == already + more
  {
  }

  lemma TextsOne(n: Names, first: map<string, Score> -> string, store: Store, after: Store, done: set<string>,
                 m: string)
    requires TextsPassed(n, store, after, done) && Due(n, store, m) && Due(n, after, m)
    ensures TextsPassed(n, store, SettledOne(n, first, after, m), done + {m})
  {
    forall k
      ensures GetText(SettledOne(n, first, after, m), k) ==
              if MarkedBy(n, store, done + {m}, k) then Some(SETTLED) else GetText(store, k)
    {
      TextsAfterOne(n, first, after, m, k);
      MarkedMore(n, store, done, m, k);
    }
  }

  lemma MarkedMore(n: Names, store: Store, done: set<string>, m: string, k: string)
    requires Due(n, store, m)
    ensures MarkedBy(n, store, done + {m}, k) <==> MarkedBy(n, store, done, k) || k == n.status(m)
  {
    if k == n.status(m) {
      assert m in done + {m};
    }
  }

  lemma MovedMore(n: Names, store: Store, done: set<string>, m: string)
    requires Due(n, store, m)
    ensures Moved(n, store, done + {m}) ==
            Moved(n, store, done) + MovedFor(n, store, m)
  {
  }

  lemma MovedSame(n: Names, store: Store, done: set<string>, m: string)
    requires !Due(n, store, m)
    ensures Moved(n, store, done + {m}) == Moved(n, store, done)
    ensures forall k :: MarkedBy(n, store, done + {m}, k) == MarkedBy(n, store, done, k)
  {
    forall k
      ensures MarkedBy(n, store, done + {m}, k) == MarkedBy(n, store, done, k)
    {
      if MarkedBy(n, store, done, k) {
        var d :| d in done && Due(n, store, d) && k == n.status(d);
        assert d in done + {m};
      }
    }
  }

  // ----- the ranked sets -----

  function RankedAt(store: Store, key: string): map<string, Score> {
    match Lookup(store, key)
    case Some(Ranked(z)) => z
    case _ => map[]
  }

  // without its lowest members, one after the other
  function Dropped(first: map<string, Score> -> string, z: map<string, Score>, count: nat): map<string, Score> {
    if count == 0 then z
    else
      var rest := Dropped(first, z, count - 1);
      rest - {first(rest)}
  }

  function Chosen(p: string -> bool, done: set<string>): set<string> {
    set m | m in done && p(m)
  }

  // the settled members of one ranked set
  function RankedBy(n: Names, store: Store, done: set<string>, k: string): set<string> {
    Chosen((m: string) => Due(n, store, m) && n.ranking(m) == k, done)
  }

  // every ranked set has lost its lowest member once for each settled member
  ghost predicate RanksPassed(n: Names, first: map<string, Score> -> string, store: Store, after: Store,
                              done: set<string>) {
    forall k :: RankedAt(after, k) == Dropped(first, RankedAt(store, k), |RankedBy(n, store, done, k)|)
  }

  lemma RanksAfterOne(n: Names, first: map<string, Score> -> string, store: Store, m: string, k: string)
    requires Due(n, store, m)
    ensures var z := RankedAt(store, k);
            RankedAt(SettledOne(n, first, store, m), k) == if k == n.ranking(m) then z - {first(z)} else z
  {
    var marked := Run(store, n.status(m), Set(SETTLED, -1)).0;
    assert RankedAt(marked, k) == RankedAt(store, k);
    var sent := n.sent(n.rebuilt(m));
    var moved := MoveSent(n, marked, sent);
    if sent.Some? {
      SmoveKeepsRanks(marked, n.need, n.already, sent.value, k);
    }
    DropRanks(moved, n.ranking(m), first, k);
  }

  lemma SmoveKeepsRanks(store: Store, from: string, to: string, member: string, k: string)
    ensures RankedAt(Smove(store, from, to, member).0, k) == RankedAt(store, k)
  {
  }

  lemma DropRanks(store: Store, key: string, first: map<string, Score> -> string, k: string)
    ensures var z := RankedAt(store, k);
            RankedAt(Run(store, key, DropFirst(first)).0, k) == if k == key then z - {first(z)} else z
  {
  }

  lemma RanksOne(n: Names, first: map<string, Score> -> string, store: Store, after: Store, done: set<string>,
                 m: string)
    requires Distinct(n) && TextsPassed(n, store, after, done) && RanksPassed(n, first, store, after, done)
    requires m !in done
    ensures RanksPassed(n, first, store, SettledOne(n, first, after, m), done + {m})
  {
    DueKept(n, store, after, done, m);
    forall k
      ensures RankedAt(SettledOne(n, first, after, m), k) ==
              Dropped(first, RankedAt(store, k), |RankedBy(n, store, done + {m}, k)|)
    {
      RankedMore(n, store, done, m, k);
      if Due(n, store, m) {
        RanksAfterOne(n, first, after, m, k);
      }
    }
  }

  lemma RankedMore(n: Names, store: Store, done: set<string>, m: string, k: string)
    requires m !in done
    ensures |RankedBy(n, store, done + {m}, k)| ==
            |RankedBy(n, store, done, k)| + if Due(n, store, m) && k == n.ranking(m) then 1 else 0
  {
    ChosenMore((u: string) => Due(n, store, u) && n.ranking(u) == k, done, m);
  }

  lemma ChosenMore(p: string -> bool, done: set<string>, m: string)
    requires m !in done
    ensures |Chosen(p, done + {m})| == |Chosen(p, done)| + if p(m) then 1 else 0
  {
    assert Chosen(p, done + {m}) == Chosen(p, done) + if p(m) then {m} else {};
  }

  class Updater {
    const names: Names
    const first: map<string, Score> -> string
    var store: Store
    var currentDate: string

    constructor (names: Names, first: map<string, Score> -> string, store: Store, today: string)
      ensures this.names == names && this.first == first && this.store == store && currentDate == today
    {
      this.names, this.first, this.store, currentDate := names, first, store, today;
    }

    // the body of the loop over the members
    method SettleMember(m: string, ghost before: Store, ghost done: set<string>)
      requires Distinct(names) && HasSet(names, before) && PassedOver(names, before, store, done) && m !in done
      requires RanksPassed(names, first, before, store, done)
      modifies this`store
      ensures store == SettledOne(names, first, old(store), m)
      ensures PassedOver(names, before, store, done + {m})
      ensures RanksPassed(names, first, before, store, done + {m})
    {
      PassOne(names, first, before, store, done, m);
      RanksOne(names, first, before, store, done, m);
      store := SettledOne(names, first, store, m);
    }

    method SettleAll(members: set<string>, ghost before: Store)
      requires Distinct(names) && HasSet(names, before) && store == before
      modifies this`store
      ensures PassedOver(names, before, store, members) && RanksPassed(names, first, before, store, members)
    {
      var rest := members;
      ghost var done := {};
      NothingPassed(names, first, before);
      while rest != {}
        invariant Split(members, done, rest) && PassedOver(names, before, store, done)
        invariant RanksPassed(names, first, before, store, done)
        decreases |rest|
      {
        var m :| m in rest;
        SplitMore(members, done, rest, m);
        SettleMember(m, before, done);
        rest, done := rest - {m}, done + {m};
      }
      assert done == members;
    }

    // one turn of the endless loop, on the date `today`
    method Turn(today: string)
      requires Distinct(names)
      modifies this
      ensures currentDate == today
      ensures today == old(currentDate) ==> store == old(store)
      ensures !HasSet(names, old(store)) ==> store == old(store)
      ensures today != old(currentDate) && HasSet(names, old(store)) ==>
                PassedOver(names, old(store), store, Listed(names, old(store))) &&
                    RanksPassed(names, first, old(store), store, Listed(names, old(store)))
    {
      if today == currentDate {
        return;
      }
      currentDate := today;
      var reply := Smembers(Lookup(store, names.need)).reply;
      if reply.Array? {
        SettleAll(set m | m in reply.items :: names.seen(m), store);
      }
    }
  }

  lemma NothingPassed(n: Names, first: map<string, Score> -> string, store: Store)
    requires HasSet(n, store)
    ensures PassedOver(n, store, store, {}) && RanksPassed(n, first, store, store, {})
  {
  }

  // ----- what a pass means -----

  ghost predicate Pass(n: Names, store: Store, after: Store) {
    HasSet(n, store) && PassedOver(n, store, after, Listed(n, store))
  }

  predicate Apart(n: Names, store: Store) {
    MembersAt(store, n.need) !! MembersAt(store, n.already)
  }

  function Orders(n: Names, store: Store): set<string> {
    MembersAt(store, n.need) + MembersAt(store, n.already)
  }

  // no order is lost, none is in both sets
  lemma PassConserves(n: Names, store: Store, after: Store)
    requires Pass(n, store, after)
    ensures Orders(n, after) == Orders(n, store)
    ensures Apart(n, store) ==> Apart(n, after)
    ensures MembersAt(after, n.need) <= MembersAt(store, n.need)
  {
  }

  // an order moves exactly when the server is asked to move it for some member that is due, and the target
  // is a set
  lemma MovesIff(n: Names, store: Store, after: Store, u: string)
    requires Pass(n, store, after) && u in MembersAt(store, n.need)
    ensures u !in MembersAt(after, n.need) <==>
            && !WrongType(Lookup(store, n.already))
            && exists m :: m in Listed(n, store) && SentAs(n, m, u) && Due(n, store, m)
    ensures u !in MembersAt(after, n.need) ==> u in MembersAt(after, n.already)
  {
  }

  // a pass marks the members that are due and no others
  lemma MarkedIff(n: Names, store: Store, after: Store, m: string)
    requires Distinct(n) && Pass(n, store, after)
    ensures GetText(after, n.status(m)) ==
            if m in Listed(n, store) && Due(n, store, m) then Some(SETTLED) else GetText(store, n.status(m))
  {
    assert MarkedBy(n, store, Listed(n, store), n.status(m)) <==> m in Listed(n, store) && Due(n, store, m);
  }

  // the order is moved for itself and for nothing else
  ghost predicate Alone(n: Names, store: Store, u: string) {
    && n.seen(u) == u && SentAs(n, u, u)
    && forall m :: m in Listed(n, store) && SentAs(n, m, u) ==> m == u
  }

  // such an order moves exactly when it is due itself
  lemma AloneMovesIff(n: Names, store: Store, after: Store, u: string)
    requires Distinct(n) && Pass(n, store, after) && Alone(n, store, u) && u in MembersAt(store, n.need)
    ensures u !in MembersAt(after, n.need) <==> !WrongType(Lookup(store, n.already)) && Due(n, store, u)
    ensures u !in MembersAt(after, n.need) ==> GetText(after, n.status(u)) == Some(SETTLED)
  {
    MovesIff(n, store, after, u);
    MarkedIff(n, store, after, u);
  }

  // what goes into the command as one word, behind the two keys
  predicate Sendable(m: string) {
    Word(m) && '%' !in m && '\0' !in m && RoomFor(m)
  }

  predicate RoomFor(m: string) {
    |NEED| + |ALREADY| + 8 + |m| <= COMMAND_LIMIT
  }

  // with such members of four fields only, every order is alone
  lemma FourFieldsAlone(format: Formatter, store: Store, u: string)
    requires forall m :: m in MembersAt(store, NEED) ==> Hashes(m) == 3 && Sendable(m)
    requires u in MembersAt(store, NEED)
    ensures Alone(ProgramNames(format), store, u)
  {
    forall m | m in MembersAt(store, NEED)
      ensures CStr(m) == m && SentAs(ProgramNames(format), m, m)
    {
      SentItself(format, m);
    }
  }

  lemma SentItself(format: Formatter, m: string)
    requires Hashes(m) == 3 && Sendable(m)
    ensures SentAs(ProgramNames(format), m, m)
  {
    RebuiltIff(m);
    SetNames();
    SmoveSendsIff(format, NEED, ALREADY, m);
  }

  lemma SetNames()
    ensures Key(NEED) && Key(ALREADY)
  {
  }

  // a member whose command is cut as it stands
  predicate Clear(m: string) {
    '%' !in m && RoomFor(Rebuilt(m))
  }

  lemma SentMemberIs(format: Formatter, u: string)
    requires '%' !in u && RoomFor(u)
    ensures SentMember(format, u) == if |Words(u)| == 1 then Some(Words(u)[0]) else None
  {
    SetNames();
    SmoveIs(format, NEED, ALREADY, u);
  }

  // what is moved for such a member is a word of four fields
  lemma SentShape(format: Formatter, m: string, w: string)
    requires Clear(m) && SentAs(ProgramNames(format), m, w)
    ensures Hashes(w) == 3 && ' ' !in w
  {
    RebuiltFrom(m, '%');
    RebuiltHashes(m);
    SentMemberIs(format, Rebuilt(m));
    OneWordHashes(Rebuilt(m), w);
    WordsInside(Rebuilt(m), 0);
  }

  predicate AllClear(members: set<string>) {
    forall m :: m in members ==> Clear(m)
  }

  // a member that is due is marked. It moves if it has four fields and can be sent; where every member is
  // cut as it stands it stays exactly when it has more or fewer than four fields, or a blank
  lemma DueStaysIff(format: Formatter, store: Store, after: Store, m: string)
    requires Pass(ProgramNames(format), store, after) && !WrongType(Lookup(store, ALREADY))
    requires m in MembersAt(store, NEED) && '\0' !in m && Due(ProgramNames(format), store, m)
    ensures Hashes(m) == 3 && Sendable(m) ==> m !in MembersAt(after, NEED)
    ensures AllClear(Listed(ProgramNames(format), store)) ==>
              (m in MembersAt(after, NEED) <==> Hashes(m) != 3 || ' ' in m)
    ensures GetText(after, StatusKey(m)) == Some(SETTLED)
  {
    var n := ProgramNames(format);
    ProgramNamesDistinct(format);
    assert n.seen(m) == m;
    MovesIff(n, store, after, m);
    MarkedIff(n, store, after, m);
    if Hashes(m) == 3 && Sendable(m) {
      SentItself(format, m);
    } else if AllClear(Listed(n, store)) {
      NotSent(format, store, m);
    }
  }

  lemma NotSent(format: Formatter, store: Store, m: string)
    requires AllClear(Listed(ProgramNames(format), store))
    requires m in Listed(ProgramNames(format), store) && '\0' !in m && !(Hashes(m) == 3 && Sendable(m))
    ensures Hashes(m) != 3 || ' ' in m
    ensures forall m' :: m' in Listed(ProgramNames(format), store) ==> !SentAs(ProgramNames(format), m', m)
  {
    RebuiltIff(m);
    forall m' | m' in Listed(ProgramNames(format), store)
      ensures !SentAs(ProgramNames(format), m', m)
    {
      if SentAs(ProgramNames(format), m', m) {
        SentShape(format, m', m);
      }
    }
  }

  // an order that is due, and no other
  function LoneOrder(u: string): Store {
    var v := Rebuilt(u);
    map[NEED := Members({u}), StatusKey(u) := Text("0", 0), CountKey(v) := Text("1", 0), LimitKey(v) := Text("1", 0)]
  }

  lemma LoneKeys(u: string, v: string)
    ensures NEED != StatusKey(u) && NEED != CountKey(v) && NEED != LimitKey(v)
    ensures StatusKey(u) != CountKey(v) && StatusKey(u) != LimitKey(v) && CountKey(v) != LimitKey(v)
    ensures ExpireKey(v) != NEED && ExpireKey(v) != StatusKey(u) && ExpireKey(v) != CountKey(v) &&
            ExpireKey(v) != LimitKey(v)
    ensures ALREADY != NEED && ALREADY != StatusKey(u) && ALREADY != CountKey(v) && ALREADY != LimitKey(v)
  {
    assert NEED[0] == 'n' && StatusKey(u)[0] == 'o' && CountKey(v)[0] == 'o' && LimitKey(v)[0] == 'o';
    assert ExpireKey(v)[0] == 'o' && ALREADY[0] == 'a';
    assert StatusKey(u)[6] == 's' && CountKey(v)[6] == 'c' && LimitKey(v)[6] == 'l' && ExpireKey(v)[6] == 'e';
  }

  lemma LoneDue(format: Formatter, u: string)
    ensures Due(ProgramNames(format), LoneOrder(u), u)
  {
    var store, v := LoneOrder(u), Rebuilt(u);
    LoneKeys(u, v);
    AtoiPrint(0, "");
    assert Print(0) + "" == "0";
    assert GetText(store, StatusKey(u)) == Some("0") && GetText(store, ExpireKey(v)) == None;
    assert GetText(store, CountKey(v)) == Some("1") && GetText(store, LimitKey(v)) == Some("1");
  }

  // in this store a pass marks the order, and leaves it where it is exactly if it has not four fields or a blank
  lemma LoneOrderStaysIff(format: Formatter, u: string, after: Store)
    requires '\0' !in u && Clear(u) && Pass(ProgramNames(format), LoneOrder(u), after)
    ensures Due(ProgramNames(format), LoneOrder(u), u) && GetText(after, StatusKey(u)) == Some(SETTLED)
    ensures u in MembersAt(after, NEED) <==> Hashes(u) != 3 || ' ' in u
  {
    LoneDue(format, u);
    LoneSets(u);
    OnlyOneStaysIff(format, LoneOrder(u), u, after);
  }

  lemma LoneSets(u: string)
    ensures MembersAt(LoneOrder(u), NEED) == {u} && Lookup(LoneOrder(u), ALREADY) == None
  {
    LoneKeys(u, Rebuilt(u));
    assert Lookup(LoneOrder(u), NEED) == Some(Members({u}));
  }

  lemma ListedOne(n: Names, store: Store, u: string)
    requires MembersAt(store, n.need) == {u} && n.seen(u) == u
    ensures Listed(n, store) == {u}
  {
  }

  lemma OnlyOneStaysIff(format: Formatter, store: Store, u: string, after: Store)
    requires '\0' !in u && Clear(u) && Pass(ProgramNames(format), store, after)
    requires MembersAt(store, NEED) == {u} && Lookup(store, ALREADY) == None && Due(ProgramNames(format), store, u)
    ensures GetText(after, StatusKey(u)) == Some(SETTLED)
    ensures u in MembersAt(after, NEED) <==> Hashes(u) != 3 || ' ' in u
  {
    ListedOne(ProgramNames(format), store, u);
    DueStaysIff(format, store, after, u);
  }

  // ----- runs -----

  datatype Step = Passes | Outside

  ghost predicate Trace(n: Names, stores: seq<Store>, steps: seq<Step>) {
    && |stores| == |steps| + 1
    && forall i :: 0 <= i < |steps| && steps[i] == Passes ==> Pass(n, stores[i], stores[i + 1])
  }

  // over any number of passes no order is lost or doubled
  lemma {:induction false} RunConserves(n: Names, stores: seq<Store>, steps: seq<Step>, k: nat)
    requires Trace(n, stores, steps) && k <= |steps| && forall i :: 0 <= i < k ==> steps[i] == Passes
    ensures Orders(n, stores[k]) == Orders(n, stores[0])
    ensures Apart(n, stores[0]) ==> Apart(n, stores[k])
    ensures MembersAt(stores[0], n.already) <= MembersAt(stores[k], n.already)
  {
    if k > 0 {
      RunConserves(n, stores, steps, k - 1);
      PassConserves(n, stores[k - 1], stores[k]);
    }
  }

  // a step from outside that leaves the order's status alone
  ghost predicate LeavesStatus(n: Names, stores: seq<Store>, k: nat, u: string)
    requires k + 1 < |stores|
  {
    GetText(stores[k + 1], n.status(u)) == GetText(stores[k], n.status(u))
  }

  // once its status is not open, an order keeps that status as long as nobody else changes it
  lemma {:induction false} StatusKept(n: Names, stores: seq<Store>, steps: seq<Step>, i: nat, j: nat, u: string)
    requires Distinct(n) && Trace(n, stores, steps) && i <= j <= |steps|
    requires GetText(stores[i], n.status(u)).Some? && !n.open(GetText(stores[i], n.status(u)).value)
    requires forall k: nat :: i <= k < j && steps[k] == Outside ==> LeavesStatus(n, stores, k, u)
    ensures GetText(stores[j], n.status(u)) == GetText(stores[i], n.status(u))
    decreases j - i
  {
    if i < j {
      StatusKept(n, stores, steps, i, j - 1, u);
      if steps[j - 1] == Passes {
        NotMarked(n, stores[j - 1], stores[j], u);
      } else {
        assert LeavesStatus(n, stores, j - 1, u);
      }
    }
  }

  lemma NotMarked(n: Names, store: Store, after: Store, u: string)
    requires Distinct(n) && Pass(n, store, after) && !Due(n, store, u)
    ensures GetText(after, n.status(u)) == GetText(store, n.status(u))
  {
    MarkedIff(n, store, after, u);
  }

  // an order that a pass has settled, with nothing else rebuilt to it, is settled by no later pass, even if
  // it is added again, as long as its status is not reset from outside
  lemma SettledOnce(n: Names, stores: seq<Store>, steps: seq<Step>, i: nat, j: nat, u: string)
    requires Distinct(n) && !n.open(SETTLED) && Trace(n, stores, steps)
    requires i < j < |steps| && steps[i] == Passes && steps[j] == Passes
    requires Alone(n, stores[i], u) && u in MembersAt(stores[i], n.need) && u !in MembersAt(stores[i + 1], n.need)
    requires forall k: nat :: i < k < j && steps[k] == Outside ==> LeavesStatus(n, stores, k, u)
    requires Alone(n, stores[j], u)
    ensures !Due(n, stores[j], u)
    ensures u in MembersAt(stores[j], n.need) ==> u in MembersAt(stores[j + 1], n.need)
  {
    AloneMovesIff(n, stores[i], stores[i + 1], u);
    StatusKept(n, stores, steps, i + 1, j, u);
    if u in MembersAt(stores[j], n.need) {
      AloneMovesIff(n, stores[j], stores[j + 1], u);
    }
  }

  // the program's mark reads as settled
  lemma ProgramSettles(format: Formatter)
    ensures !ProgramNames(format).open(SETTLED)
  {
    AtoiPrint(1, "");
    assert Print(1) + "" == "1";
  }
}

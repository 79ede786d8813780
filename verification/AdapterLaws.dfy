/**
  What a caller of CDataAdapter can rely on between requests, said of requests and results alone: what was put
  is got, numbers grow by what was added, members are found where they were added or moved.

  The connections may lose any requests in between; the keys of the requests are good, and the store never
  takes a key away by itself.
*/
module AdapterLaws {
  import opened CText
  import opened Options
  import opened RedisStore
  import opened RedisText
  import opened Sharding
  import opened DataAdapter

  // ----- what is said -----

  // a request that may change what stands under a key
  predicate Changes(q: Request, key: string) {
    && !q.GetReq? && !q.SmembersReq?
    && (q.uid == key || (q.SmoveReq? && q.dst == key))
  }

  predicate Puts(q: Request, key: string, text: string) {
    (q.PutReq? || q.PutExpireReq?) && q.uid == key && q.rule == text
  }

  predicate Increments(q: Request, key: string) {
    (q.IncrReq? || q.IncrByReq?) && q.uid == key
  }

  function Increment(q: Request): (d: int)
    ensures d > 0
  {
    if q.IncrByReq? && q.increment > 0 then q.increment else 1
  }

  // a member that goes into the command as it is, behind so many other characters
  predicate Storable(used: nat, member: string) {
    Word(member) && '\0' !in member && used + |member| <= COMMAND_LIMIT
  }

  predicate MayRemove(q: Request, key: string) {
    (q.PutReq? || q.PutExpireReq? || q.SmoveReq?) && q.uid == key
  }

  // nothing from the first position up to the second one changes the key
  ghost predicate Untouched(requests: seq<Request>, key: string, i: nat, j: nat)
    requires j <= |requests|
  {
    forall m :: i <= m < j ==> !Changes(requests[m], key)
  }

  // nothing between the two positions may take a member away
  ghost predicate Unremoved(requests: seq<Request>, key: string, i: nat, j: nat)
    requires j <= |requests|
  {
    forall m :: i < m < j ==> !MayRemove(requests[m], key)
  }

  // the requests with their results and whether they were answered
  datatype Talk = Talk(requests: seq<Request>, results: seq<Result>, links: seq<Link>)

  predicate WellFormed(t: Talk) {
    |t.requests| == |t.results| == |t.links|
  }

  // a text that was put is got, unless it is empty or the answer is lost
  ghost predicate PutGot(t: Talk, i: nat, j: nat, key: string, text: string)
    requires WellFormed(t)
  {
    && i < j < |t.requests| && Puts(t.requests[i], key, text) && t.results[i] == Succeeded
    && t.requests[j] == GetReq(key) && Untouched(t.requests, key, i + 1, j)
    ==> t.results[j] == if t.links[j] == Answered && CStr(text) != "" then GotText(CStr(text)) else Failed
  }

  // what the increments between two positions add
  function Added(t: Talk, key: string, i: nat, j: nat): int
    requires WellFormed(t) && i < j <= |t.requests|
    decreases j
  {
    if j == i + 1 then 0
    else
      Added(t, key, i, j - 1) +
      if Increments(t.requests[j - 1], key) && t.results[j - 1] == Succeeded then Increment(t.requests[j - 1]) else 0
  }

  // between the two positions the key is changed by increments only, and their answers arrive
  ghost predicate OnlyCounted(t: Talk, key: string, i: nat, j: nat)
    requires WellFormed(t) && j <= |t.requests|
  {
    forall m :: i < m < j && Changes(t.requests[m], key) ==> Increments(t.requests[m], key) && t.links[m] == Answered
  }

  // a number that was put grows by every increment that succeeds; an increment fails only at the end of the range
  ghost predicate NumberGrows(t: Talk, i: nat, j: nat, key: string, n: int)
    requires WellFormed(t)
  {
    && i < j < |t.requests| && Puts(t.requests[i], key, Print(n)) && t.results[i] == Succeeded && InLong(n)
    && OnlyCounted(t, key, i, j) && t.links[j] == Answered
    ==> var now := n + Added(t, key, i, j);
        && (t.requests[j] == GetReq(key) ==> t.results[j] == GotText(Print(now)))
        && (Increments(t.requests[j], key) ==>
              t.results[j] == if InLong(now + Increment(t.requests[j])) then Succeeded else Failed)
  }

  // a member that was added is listed until a put or a move may take it away
  ghost predicate AddedListed(t: Talk, i: nat, j: nat, key: string, member: string)
    requires WellFormed(t)
  {
    && i < j < |t.requests| && t.requests[i] == SaddReq(key, member) && t.results[i] == Succeeded
    && Storable(|key| + 6, member) && Unremoved(t.requests, key, i, j)
    && t.requests[j] == SmembersReq(key) && t.links[j] == Answered
    ==> t.results[j].GotMembers? && member in t.results[j].members
  }

  // an addition and a move of the same member, both of which succeed
  ghost predicate AddedAndMoved(t: Talk, i: nat, m: nat, from: string, to: string, member: string)
    requires WellFormed(t) && i < m < |t.requests|
  {
    && from != to && Storable(|from| + |to| + 8, member)
    && t.requests[i] == SaddReq(from, member) && t.results[i] == Succeeded
    && Unremoved(t.requests, from, i, m)
    && t.requests[m] == SmoveReq(from, to, member) && t.results[m] == Succeeded
  }

  // a member that was added and moved is listed under the second key and not under the first one
  ghost predicate MovedListed(t: Talk, i: nat, m: nat, j: nat, from: string, to: string, member: string)
    requires WellFormed(t)
  {
    i < m < j < |t.requests| && AddedAndMoved(t, i, m, from, to, member) && t.links[j] == Answered
    ==> && (t.requests[j] == SmembersReq(to) && Unremoved(t.requests, to, m, j) ==>
              t.results[j].GotMembers? && member in t.results[j].members)
        && (t.requests[j] == SmembersReq(from) && Untouched(t.requests, from, m + 1, j) ==>
              t.results[j].GotMembers? && member !in t.results[j].members)
  }

  // a key that is not there yet holds nothing
  ghost predicate NothingYet(t: Talk, j: nat, key: string)
    requires WellFormed(t)
  {
    j < |t.requests| && Untouched(t.requests, key, 0, j) && t.links[j] == Answered
    ==> && (t.requests[j] == GetReq(key) ==> t.results[j] == Failed)
        && (t.requests[j] == SmembersReq(key) ==> t.results[j] == GotMembers({}))
  }

  // the expiry a put asks for, 0 for none
  function Expiry(q: Request): nat {
    if q.PutExpireReq? && q.expiration > 0 then q.expiration else 0
  }

  predicate ExpiresIn(store: Store, key: string, ttl: nat) {
    var slot := Lookup(store, key);
    slot.Some? && slot.value.Text? && slot.value.ttl == ttl
  }

  // a text that was put has the expiry of the last put, whatever was counted on it since
  ghost predicate ExpiryKept(t: Talk, i: nat, key: string, text: string, store: Store)
    requires WellFormed(t)
  {
    && i < |t.requests| && Puts(t.requests[i], key, text) && t.results[i] == Succeeded
    && OnlyIncremented(t.requests, key, i, |t.requests|)
    ==> ExpiresIn(store, key, Expiry(t.requests[i]))
  }

  ghost predicate OnlyIncremented(requests: seq<Request>, key: string, i: nat, j: nat)
    requires j <= |requests|
  {
    forall m :: i < m < j && Changes(requests[m], key) ==> Increments(requests[m], key)
  }

  // ----- one turn -----

  // a request that is answered by the flat store, or lost
  ghost predicate Turned(read: Reading, link: Link, before: Store, q: Request, after: Store, result: Result) {
    var r := OverFlat(before, Sending(Sent(read, q), link));
    after == r.0 && result == Seen(q, r.1)
  }

  lemma SaddIsOne(read: Reading, key: string, member: string)
    requires Key(key) && '%' !in member
    ensures var op := CallOp(key, SaddCall(read.format, key, member));
            op.One? && op.hashed == op.key == key &&
            (Storable(|key| + 6, member) ==> op == One(key, key, Sadd({member})))
  {
    SaddIs(read.format, key, member);
    SaddSendsIff(read.format, key, member);
    assert (set m | m in [member]) == {member};
  }

  lemma SmoveIsMove(read: Reading, from: string, to: string, member: string)
    requires Key(from) && Key(to) && '%' !in member
    ensures var op := CallOp(from, SmoveCall(read.format, from, to, member));
            (op == One(from, from, Refuse)) || (op.Move? && op.from == from && op.to == to)
    ensures Storable(|from| + |to| + 8, member) ==>
              CallOp(from, SmoveCall(read.format, from, to, member)) == Move(from, from, to, member)
  {
    SmoveIs(read.format, from, to, member);
    SmoveSendsIff(read.format, from, to, member);
  }

  // a request leaves the keys alone that are not its own
  lemma TurnKeeps(home: string -> nat, read: Reading, link: Link, before: Store, q: Request, after: Store,
                  result: Result, key: string)
    requires Good(home, q) && Turned(read, link, before, q, after, result) && !Changes(q, key)
    ensures Lookup(after, key) == Lookup(before, key)
  {
    match q
    case SaddReq(uid, rule) =>
      SaddIsOne(read, uid, CStr(rule));
    case SmoveReq(uid, dst, rule) =>
      SmoveKeeps(read, before, uid, dst, CStr(rule), key);
    case _ =>
      OtherKeeps(home, read, before, q, key);
  }

  lemma SmoveKeeps(read: Reading, before: Store, uid: string, dst: string, rule: string, key: string)
    requires Key(uid) && Key(dst) && '%' !in rule && key != uid && key != dst
    ensures Lookup(ApplyFlat(before, CallOp(uid, SmoveCall(read.format, uid, dst, rule))).0, key) ==
            Lookup(before, key)
  {
    SmoveIsMove(read, uid, dst, rule);
  }

  lemma OtherKeeps(home: string -> nat, read: Reading, before: Store, q: Request, key: string)
    requires Good(home, q) && !q.SaddReq? && !q.SmoveReq? && !Changes(q, key)
    ensures Lookup(ApplyFlat(before, Sent(read, q)).0, key) == Lookup(before, key)
  {
  }

  lemma TurnPut(home: string -> nat, read: Reading, link: Link, before: Store, q: Request, after: Store,
                result: Result, key: string, text: string)
    requires Good(home, q) && Turned(read, link, before, q, after, result) && Puts(q, key, text) && result == Succeeded
    ensures TextAt(after, key, CStr(text))
  {
  }

  lemma TurnPutExpires(home: string -> nat, read: Reading, link: Link, before: Store, q: Request, after: Store,
                       result: Result, key: string, text: string)
    requires Good(home, q) && Turned(read, link, before, q, after, result) && Puts(q, key, text) && result == Succeeded
    ensures ExpiresIn(after, key, Expiry(q))
  {
  }

  lemma TurnKeepsExpiry(home: string -> nat, read: Reading, link: Link, before: Store, q: Request, after: Store,
                        result: Result, key: string, ttl: nat)
    requires Good(home, q) && Turned(read, link, before, q, after, result)
    requires (Changes(q, key) ==> Increments(q, key)) && ExpiresIn(before, key, ttl)
    ensures ExpiresIn(after, key, ttl)
  {
    if !Changes(q, key) {
      TurnKeeps(home, read, link, before, q, after, result, key);
    }
  }

  predicate TextAt(store: Store, key: string, text: string) {
    var slot := Lookup(store, key);
    slot.Some? && slot.value.Text? && slot.value.text == text
  }

  lemma TurnGet(home: string -> nat, read: Reading, link: Link, before: Store, key: string, after: Store,
                result: Result, text: string)
    requires Good(home, GetReq(key)) && Turned(read, link, before, GetReq(key), after, result)
    requires TextAt(before, key, text)
    ensures result == if link == Answered && text != "" then GotText(text) else Failed
  {
  }

  lemma PrintIsNumber(n: int)
    ensures Print(n) != "" && '\0' !in Print(n) && (InLong(n) ==> Number(Print(n)) == Some(n))
  {
    SignedPrint(n, "");
    assert Print(n) + "" == Print(n);
  }

  // an answered increment of a number
  lemma TurnIncrement(home: string -> nat, read: Reading, before: Store, q: Request, after: Store, result: Result,
                      key: string, n: int)
    requires Good(home, q) && Turned(read, Answered, before, q, after, result) && Increments(q, key)
    requires TextAt(before, key, Print(n)) && InLong(n)
    ensures result == if InLong(n + Increment(q)) then Succeeded else Failed
    ensures TextAt(after, key, Print(if result == Succeeded then n + Increment(q) else n))
  {
    PrintIsNumber(n);
  }

  // a request that leaves a number alone or adds to it
  lemma TurnCounts(home: string -> nat, read: Reading, link: Link, before: Store, q: Request, after: Store,
                   result: Result, key: string, was: int, now: int)
    requires Good(home, q) && Turned(read, link, before, q, after, result)
    requires Changes(q, key) ==> Increments(q, key) && link == Answered
    requires TextAt(before, key, Print(was)) && InLong(was)
    requires now == was + if Increments(q, key) && result == Succeeded then Increment(q) else 0
    ensures TextAt(after, key, Print(now)) && InLong(now)
  {
    if Changes(q, key) {
      TurnIncrement(home, read, before, q, after, result, key, was);
    } else {
      TurnKeeps(home, read, link, before, q, after, result, key);
    }
  }

  lemma TurnAdd(home: string -> nat, read: Reading, link: Link, before: Store, key: string, member: string,
                after: Store, result: Result)
    requires Good(home, SaddReq(key, member)) && Turned(read, link, before, SaddReq(key, member), after, result)
    requires Storable(|key| + 6, member) && result == Succeeded
    ensures HoldsMember(Lookup(after, key), member)
  {
    SaddIsOne(read, key, member);
  }

  // a member that is there stays there
  lemma TurnKeepsMember(home: string -> nat, read: Reading, link: Link, before: Store, q: Request, after: Store,
                        result: Result, key: string, member: string)
    requires Good(home, q) && Turned(read, link, before, q, after, result) && !MayRemove(q, key)
    requires HoldsMember(Lookup(before, key), member)
    ensures HoldsMember(Lookup(after, key), member)
  {
    match q
    case SaddReq(uid, rule) =>
      SaddKeeps(read, before, uid, CStr(rule), key, member);
    case SmoveReq(uid, dst, rule) =>
      SmoveKeepsMember(read, before, uid, dst, CStr(rule), key, member);
    case _ =>
      OtherKeepsMember(home, read, before, q, key, member);
  }

  lemma OtherKeepsMember(home: string -> nat, read: Reading, before: Store, q: Request, key: string, member: string)
    requires Good(home, q) && !q.SaddReq? && !q.SmoveReq? && !MayRemove(q, key)
    requires HoldsMember(Lookup(before, key), member)
    ensures HoldsMember(Lookup(ApplyFlat(before, Sent(read, q)).0, key), member)
  {
  }

  lemma SaddKeeps(read: Reading, before: Store, uid: string, rule: string, key: string, member: string)
    requires Key(uid) && '%' !in rule && HoldsMember(Lookup(before, key), member)
    ensures HoldsMember(Lookup(ApplyFlat(before, CallOp(uid, SaddCall(read.format, uid, rule))).0, key), member)
  {
    SaddIs(read.format, uid, rule);
  }

  lemma SmoveKeepsMember(read: Reading, before: Store, uid: string, dst: string, rule: string, key: string,
                         member: string)
    requires Key(uid) && Key(dst) && '%' !in rule && key != uid && HoldsMember(Lookup(before, key), member)
    ensures HoldsMember(Lookup(ApplyFlat(before, CallOp(uid, SmoveCall(read.format, uid, dst, rule))).0, key), member)
  {
    SmoveIsMove(read, uid, dst, rule);
  }

  lemma TurnMove(home: string -> nat, read: Reading, link: Link, before: Store, from: string, to: string,
                 member: string, after: Store, result: Result)
    requires Good(home, SmoveReq(from, to, member)) && Storable(|from| + |to| + 8, member) && from != to
    requires Turned(read, link, before, SmoveReq(from, to, member), after, result) && result == Succeeded
    requires HoldsMember(Lookup(before, from), member)
    ensures HoldsMember(Lookup(after, to), member)
    ensures !HoldsMember(Lookup(after, from), member) && !WrongType(Lookup(after, from))
  {
    SmoveIsMove(read, from, to, member);
  }

  lemma TurnMembers(home: string -> nat, read: Reading, before: Store, key: string, after: Store, result: Result,
                    member: string)
    requires Good(home, SmembersReq(key)) && Turned(read, Answered, before, SmembersReq(key), after, result)
    requires !WrongType(Lookup(before, key)) && Clean(before) && '\0' !in member
    ensures result.GotMembers? && (member in result.members <==> HoldsMember(Lookup(before, key), member))
  {
    assert Lookup(before, key).Some? ==> key in before;
  }

  // the members of all sets are C strings
  ghost predicate Clean(store: Store) {
    forall key, m :: key in store && HoldsMember(Some(store[key]), m) ==> '\0' !in m
  }

  lemma {:induction false} WordsClean(s: string, j: nat)
    requires '\0' !in s && j < |Words(s)|
    ensures '\0' !in Words(s)[j]
    decreases |s|
  {
    if s[0] == ' ' {
      WordsClean(s[1..], j);
    } else if j > 0 {
      IndexOfFinds(s, ' ', 0);
      WordsClean(s[IndexOf(s, ' ', 0)..], j - 1);
    }
  }

  lemma TurnClean(home: string -> nat, read: Reading, link: Link, before: Store, q: Request, after: Store,
                  result: Result)
    requires Good(home, q) && Turned(read, link, before, q, after, result) && Clean(before)
    ensures Clean(after)
  {
    forall key, m | key in after && HoldsMember(Some(after[key]), m)
      ensures '\0' !in m
    {
      assert HoldsMember(Lookup(after, key), m);
      if !HoldsMember(Lookup(before, key), m) {
        TurnNewMember(home, read, link, before, q, after, result, key, m);
      }
    }
  }

  // only words of a request become members
  lemma TurnNewMember(home: string -> nat, read: Reading, link: Link, before: Store, q: Request, after: Store,
                      result: Result, key: string, m: string)
    requires Good(home, q) && Turned(read, link, before, q, after, result)
    requires HoldsMember(Lookup(after, key), m) && !HoldsMember(Lookup(before, key), m)
    ensures '\0' !in m
  {
    match q
    case SaddReq(uid, rule) =>
      SaddNew(read, before, uid, CStr(rule), key, m);
    case SmoveReq(uid, dst, rule) =>
      SmoveNew(read, before, uid, dst, CStr(rule), key, m);
    case _ =>
      OtherNew(home, read, before, q, key, m);
  }

  lemma SaddNew(read: Reading, before: Store, uid: string, rule: string, key: string, m: string)
    requires Key(uid) && '%' !in rule && '\0' !in rule && !HoldsMember(Lookup(before, key), m)
    requires HoldsMember(Lookup(ApplyFlat(before, CallOp(uid, SaddCall(read.format, uid, rule))).0, key), m)
    ensures '\0' !in m
  {
    SaddIs(read.format, uid, rule);
    var fitting := Fitting(|uid| + 6, rule);
    var words := RedisText.Words(fitting);
    assert m in words;
    var j :| 0 <= j < |words| && words[j] == m;
    WordsClean(fitting, j);
  }

  lemma SmoveNew(read: Reading, before: Store, uid: string, dst: string, rule: string, key: string, m: string)
    requires Key(uid) && Key(dst) && '%' !in rule && '\0' !in rule && !HoldsMember(Lookup(before, key), m)
    requires HoldsMember(Lookup(ApplyFlat(before, CallOp(uid, SmoveCall(read.format, uid, dst, rule))).0, key), m)
    ensures '\0' !in m
  {
    SmoveIs(read.format, uid, dst, rule);
    var fitting := Fitting(|uid| + |dst| + 8, rule);
    assert |RedisText.Words(fitting)| == 1 && m == RedisText.Words(fitting)[0];
    WordsClean(fitting, 0);
  }

  // the other requests make no members
  lemma OtherNew(home: string -> nat, read: Reading, before: Store, q: Request, key: string, m: string)
    requires Good(home, q) && !q.SaddReq? && !q.SmoveReq?
    ensures HoldsMember(Lookup(ApplyFlat(before, Sent(read, q)).0, key), m) ==> HoldsMember(Lookup(before, key), m)
  {
  }

  // ----- runs -----

  // the states of the flat store between the requests
  ghost predicate History(home: string -> nat, read: Reading, states: seq<Store>, t: Talk) {
    && WellFormed(t) && |states| == |t.requests| + 1 && AllGood(home, t.requests)
    && forall k :: 0 <= k < |t.requests| ==> Turn(read, states, t, k)
  }

  ghost predicate Turn(read: Reading, states: seq<Store>, t: Talk, k: nat)
    requires WellFormed(t) && k < |t.requests| < |states|
  {
    Turned(read, t.links[k], states[k], t.requests[k], states[k + 1], t.results[k])
  }

  lemma {:induction false} SpanKeeps(home: string -> nat, read: Reading, states: seq<Store>, t: Talk, key: string,
                                     i: nat, j: nat)
    requires History(home, read, states, t) && i <= j <= |t.requests| && Untouched(t.requests, key, i, j)
    ensures Lookup(states[j], key) == Lookup(states[i], key)
    decreases j
  {
    if i < j {
      SpanKeeps(home, read, states, t, key, i, j - 1);
      assert Turn(read, states, t, j - 1);
      TurnKeeps(home, read, t.links[j - 1], states[j - 1], t.requests[j - 1], states[j], t.results[j - 1], key);
    }
  }

  lemma {:induction false} SpanKeepsMember(home: string -> nat, read: Reading, states: seq<Store>, t: Talk,
                                           key: string, member: string, i: nat, j: nat)
    requires History(home, read, states, t) && i < j <= |t.requests| && Unremoved(t.requests, key, i, j)
    requires HoldsMember(Lookup(states[i + 1], key), member)
    ensures HoldsMember(Lookup(states[j], key), member)
    decreases j
  {
    if i + 1 < j {
      SpanKeepsMember(home, read, states, t, key, member, i, j - 1);
      assert Turn(read, states, t, j - 1);
      TurnKeepsMember(home, read, t.links[j - 1], states[j - 1], t.requests[j - 1], states[j], t.results[j - 1],
                      key, member);
    }
  }

  lemma {:induction false} SpanCounts(home: string -> nat, read: Reading, states: seq<Store>, t: Talk, key: string,
                                      n: int, i: nat, j: nat)
      returns (now: int)
    requires History(home, read, states, t) && i < j <= |t.requests| && OnlyCounted(t, key, i, j)
    requires TextAt(states[i + 1], key, Print(n)) && InLong(n)
    ensures now == n + Added(t, key, i, j) && TextAt(states[j], key, Print(now)) && InLong(now)
    decreases j
  {
    now := n + Added(t, key, i, j);
    if i + 1 < j {
      var was := SpanCounts(home, read, states, t, key, n, i, j - 1);
      assert Turn(read, states, t, j - 1);
      TurnCounts(home, read, t.links[j - 1], states[j - 1], t.requests[j - 1], states[j], t.results[j - 1], key,
                 was, now);
    }
  }

  lemma {:induction false} SpanClean(home: string -> nat, read: Reading, states: seq<Store>, t: Talk, k: nat)
    requires History(home, read, states, t) && k <= |t.requests| && Clean(states[0])
    ensures Clean(states[k])
  {
    if k > 0 {
      SpanClean(home, read, states, t, k - 1);
      assert Turn(read, states, t, k - 1);
      TurnClean(home, read, t.links[k - 1], states[k - 1], t.requests[k - 1], states[k], t.results[k - 1]);
    }
  }

  lemma PutIsGot(home: string -> nat, read: Reading, states: seq<Store>, t: Talk, i: nat, j: nat, key: string,
                 text: string)
    requires History(home, read, states, t)
    ensures PutGot(t, i, j, key, text)
  {
    if && i < j < |t.requests| && Puts(t.requests[i], key, text) && t.results[i] == Succeeded
       && t.requests[j] == GetReq(key) && Untouched(t.requests, key, i + 1, j) {
      assert Turn(read, states, t, i) && Turn(read, states, t, j);
      TurnPut(home, read, t.links[i], states[i], t.requests[i], states[i + 1], t.results[i], key, text);
      SpanKeeps(home, read, states, t, key, i + 1, j);
      TurnGet(home, read, t.links[j], states[j], key, states[j + 1], t.results[j], CStr(text));
    }
  }

  lemma NumberIsGrown(home: string -> nat, read: Reading, states: seq<Store>, t: Talk, i: nat, j: nat, key: string,
                      n: int)
    requires History(home, read, states, t)
    ensures NumberGrows(t, i, j, key, n)
  {
    if && i < j < |t.requests| && Puts(t.requests[i], key, Print(n)) && t.results[i] == Succeeded && InLong(n)
       && OnlyCounted(t, key, i, j) && t.links[j] == Answered {
      assert Turn(read, states, t, i) && Turn(read, states, t, j);
      PrintIsNumber(n);
      TurnPut(home, read, t.links[i], states[i], t.requests[i], states[i + 1], t.results[i], key, Print(n));
      var now := SpanCounts(home, read, states, t, key, n, i, j);
      NumberSeen(home, read, states[j], t.requests[j], states[j + 1], t.results[j], key, now);
    }
  }

  // what a get or an increment of a number returns
  lemma NumberSeen(home: string -> nat, read: Reading, before: Store, q: Request, after: Store, result: Result,
                   key: string, now: int)
    requires Good(home, q) && Turned(read, Answered, before, q, after, result)
    requires TextAt(before, key, Print(now)) && InLong(now)
    ensures q == GetReq(key) ==> result == GotText(Print(now))
    ensures Increments(q, key) ==> result == if InLong(now + Increment(q)) then Succeeded else Failed
  {
    PrintIsNumber(now);
    if q == GetReq(key) {
      TurnGet(home, read, Answered, before, key, after, result, Print(now));
    } else if Increments(q, key) {
      TurnIncrement(home, read, before, q, after, result, key, now);
    }
  }

  lemma {:induction false} SpanKeepsExpiry(home: string -> nat, read: Reading, states: seq<Store>, t: Talk,
                                           key: string, ttl: nat, i: nat, j: nat)
    requires History(home, read, states, t) && i < j <= |t.requests| && OnlyIncremented(t.requests, key, i, j)
    requires ExpiresIn(states[i + 1], key, ttl)
    ensures ExpiresIn(states[j], key, ttl)
    decreases j
  {
    if i + 1 < j {
      SpanKeepsExpiry(home, read, states, t, key, ttl, i, j - 1);
      assert Turn(read, states, t, j - 1);
      TurnKeepsExpiry(home, read, t.links[j - 1], states[j - 1], t.requests[j - 1], states[j], t.results[j - 1], key,
                      ttl);
    }
  }

  lemma ExpiryIsKept(home: string -> nat, read: Reading, states: seq<Store>, t: Talk, i: nat, key: string,
                     text: string)
    requires History(home, read, states, t)
    ensures ExpiryKept(t, i, key, text, states[|t.requests|])
  {
    var n := |t.requests|;
    if && i < n && Puts(t.requests[i], key, text) && t.results[i] == Succeeded
       && OnlyIncremented(t.requests, key, i, n) {
      assert Turn(read, states, t, i);
      TurnPutExpires(home, read, t.links[i], states[i], t.requests[i], states[i + 1], t.results[i], key, text);
      SpanKeepsExpiry(home, read, states, t, key, Expiry(t.requests[i]), i, n);
    }
  }

  // what the members of a key are after a number of requests
  lemma MembersListed(home: string -> nat, read: Reading, states: seq<Store>, t: Talk, j: nat, key: string,
                      member: string)
    requires History(home, read, states, t) && Clean(states[0]) && j < |t.requests| && '\0' !in member
    requires t.requests[j] == SmembersReq(key) && t.links[j] == Answered && !WrongType(Lookup(states[j], key))
    ensures t.results[j].GotMembers?
    ensures member in t.results[j].members <==> HoldsMember(Lookup(states[j], key), member)
  {
    assert Turn(read, states, t, j);
    SpanClean(home, read, states, t, j);
    TurnMembers(home, read, states[j], key, states[j + 1], t.results[j], member);
  }

  lemma AddedIsListed(home: string -> nat, read: Reading, states: seq<Store>, t: Talk, i: nat, j: nat, key: string,
                      member: string)
    requires History(home, read, states, t) && Clean(states[0])
    ensures AddedListed(t, i, j, key, member)
  {
    if && i < j < |t.requests| && t.requests[i] == SaddReq(key, member) && t.results[i] == Succeeded
       && Storable(|key| + 6, member) && Unremoved(t.requests, key, i, j)
       && t.requests[j] == SmembersReq(key) && t.links[j] == Answered {
      assert Turn(read, states, t, i);
      TurnAdd(home, read, t.links[i], states[i], key, member, states[i + 1], t.results[i]);
      SpanKeepsMember(home, read, states, t, key, member, i, j);
      MembersListed(home, read, states, t, j, key, member);
    }
  }

  lemma MoveDone(home: string -> nat, read: Reading, states: seq<Store>, t: Talk, i: nat, m: nat,
                 from: string, to: string, member: string)
    requires History(home, read, states, t) && i < m < |t.requests| && AddedAndMoved(t, i, m, from, to, member)
    ensures HoldsMember(Lookup(states[m + 1], to), member)
    ensures !HoldsMember(Lookup(states[m + 1], from), member) && !WrongType(Lookup(states[m + 1], from))
  {
    assert Turn(read, states, t, i) && Turn(read, states, t, m);
    TurnAdd(home, read, t.links[i], states[i], from, member, states[i + 1], t.results[i]);
    SpanKeepsMember(home, read, states, t, from, member, i, m);
    TurnMove(home, read, t.links[m], states[m], from, to, member, states[m + 1], t.results[m]);
  }

  lemma MovedIsListed(home: string -> nat, read: Reading, states: seq<Store>, t: Talk, i: nat, m: nat, j: nat,
                      from: string, to: string, member: string)
    requires History(home, read, states, t) && Clean(states[0])
    ensures MovedListed(t, i, m, j, from, to, member)
  {
    if i < m < j < |t.requests| && AddedAndMoved(t, i, m, from, to, member) && t.links[j] == Answered {
      MoveDone(home, read, states, t, i, m, from, to, member);
      if t.requests[j] == SmembersReq(to) && Unremoved(t.requests, to, m, j) {
        SpanKeepsMember(home, read, states, t, to, member, m, j);
        MembersListed(home, read, states, t, j, to, member);
      } else if t.requests[j] == SmembersReq(from) && Untouched(t.requests, from, m + 1, j) {
        SpanKeeps(home, read, states, t, from, m + 1, j);
        MembersListed(home, read, states, t, j, from, member);
      }
    }
  }

  lemma NothingIsYet(home: string -> nat, read: Reading, states: seq<Store>, t: Talk, j: nat, key: string)
    requires History(home, read, states, t) && key !in states[0]
    ensures NothingYet(t, j, key)
  {
    if j < |t.requests| && Untouched(t.requests, key, 0, j) {
      assert Turn(read, states, t, j);
      SpanKeeps(home, read, states, t, key, 0, j);
      assert Lookup(states[j], key) == None;
    }
  }

  // ----- through the operations -----

  lemma {:induction false} FoldedAt<S, T, R>(step: (S, T) -> (S, R), s: S, items: seq<T>, k: nat)
    requires k < |items|
    ensures var before := Folded(step, s, items[..k]).0;
            Folded(step, s, items[..k + 1]).0 == step(before, items[k]).0 &&
                Folded(step, s, items).1[k] == step(before, items[k]).1
    decreases |items|
  {
    var n := |items| - 1;
    FoldedMore(step, s, items, k);
    if k < n {
      FoldedAt(step, s, items[..n], k);
      assert items[..n][..k] == items[..k];
    } else {
      assert items[..n + 1] == items;
    }
  }

  function StatesOf(flat: Store, sendings: seq<Sending>): (states: seq<Store>)
    ensures |states| == |sendings| + 1 && states[0] == flat
  {
    seq(|sendings| + 1, k requires 0 <= k <= |sendings| => Folded(OverFlat, flat, sendings[..k]).0)
  }

  lemma ServedIsHistory(home: string -> nat, read: Reading, link: nat -> Link, time: nat, flat: Store, t: Talk,
                        after: Store)
    requires WellFormed(t) && AllGood(home, t.requests)
    requires t.links == LinksFrom(link, time, |t.requests|)
    requires ServedUpTo(OverFlat, flat, t.requests, SentAll(read, link, time, t.requests), |t.requests|, after,
                        t.results)
    ensures History(home, read, StatesOf(flat, SentAll(read, link, time, t.requests)), t)
  {
    var sendings := SentAll(read, link, time, t.requests);
    assert sendings[..|t.requests|] == sendings && t.requests[..|t.requests|] == t.requests;
    forall k | 0 <= k < |t.requests|
      ensures Turn(read, StatesOf(flat, sendings), t, k)
    {
      ServedTurn(read, flat, t, sendings, k);
    }
  }

  lemma ServedTurn(read: Reading, flat: Store, t: Talk, sendings: seq<Sending>, k: nat)
    requires WellFormed(t) && |sendings| == |t.requests| && k < |t.requests|
    requires sendings[k] == Sending(Sent(read, t.requests[k]), t.links[k])
    requires t.results[k] == Seen(t.requests[k], Folded(OverFlat, flat, sendings).1[k])
    ensures Turn(read, StatesOf(flat, sendings), t, k)
  {
    FoldedAt(OverFlat, flat, sendings, k);
  }

  function LinksFrom(link: nat -> Link, time: nat, n: nat): (links: seq<Link>)
    ensures |links| == n && forall k :: 0 <= k < n ==> links[k] == link(time + k)
  {
    seq(n, k requires 0 <= k < n => link(time + k))
  }

  // what holds of requests and their results on top of a store
  ghost predicate Lawful(flat: Store, t: Talk) {
    && WellFormed(t)
    && (forall j: nat, key :: key !in flat ==> NothingYet(t, j, key))
    && (forall i: nat, j: nat, key, text :: PutGot(t, i, j, key, text))
    && (forall i: nat, j: nat, key, n :: NumberGrows(t, i, j, key, n))
    && (forall i: nat, j: nat, key, member :: AddedListed(t, i, j, key, member))
    && forall i: nat, m: nat, j: nat, from, to, member :: MovedListed(t, i, m, j, from, to, member)
  }

  lemma HistoryLawful(home: string -> nat, read: Reading, states: seq<Store>, t: Talk)
    requires History(home, read, states, t) && Clean(states[0])
    ensures Lawful(states[0], t)
  {
    forall j: nat, key | key !in states[0]
      ensures NothingYet(t, j, key)
    {
      NothingIsYet(home, read, states, t, j, key);
    }
    forall i: nat, j: nat, key, text
      ensures PutGot(t, i, j, key, text)
    {
      PutIsGot(home, read, states, t, i, j, key, text);
    }
    forall i: nat, j: nat, key, n
      ensures NumberGrows(t, i, j, key, n)
    {
      NumberIsGrown(home, read, states, t, i, j, key, n);
    }
    forall i: nat, j: nat, key, member
      ensures AddedListed(t, i, j, key, member)
    {
      AddedIsListed(home, read, states, t, i, j, key, member);
    }
    forall i: nat, m: nat, j: nat, from, to, member
      ensures MovedListed(t, i, m, j, from, to, member)
    {
      MovedIsListed(home, read, states, t, i, m, j, from, to, member);
    }
  }

  // ... and of what is left in the store
  ghost predicate LawfulAfter(t: Talk, store: Store) {
    WellFormed(t) && forall i: nat, key, text :: ExpiryKept(t, i, key, text, store)
  }

  lemma HistoryExpiries(home: string -> nat, read: Reading, states: seq<Store>, t: Talk)
    requires History(home, read, states, t)
    ensures LawfulAfter(t, states[|t.requests|])
  {
    forall i: nat, key, text
      ensures ExpiryKept(t, i, key, text, states[|t.requests|])
    {
      ExpiryIsKept(home, read, states, t, i, key, text);
    }
  }

  // any number of servers, links and good requests, served one after the other: the laws hold of the results, and
  // of the flat store that the servers stand for afterwards
  method ServeLawfully<C>(d: DataAdapter<C>, requests: seq<Request>, ghost flat: Store)
      returns (results: seq<Result>, ghost after: Store)
    requires d.Valid() && AllGood(d.home, requests) && Represents(d.home, d.shards, flat) && Clean(flat)
    modifies d`shards, d`clock, d.md5, d.md5.input
    ensures d.Valid() && Represents(d.home, d.shards, after)
    ensures var t := Talk(requests, results, LinksFrom(d.link, old(d.clock), |requests|));
            Lawful(flat, t) && LawfulAfter(t, after)
  {
    ghost var time := d.clock;
    results, after := ServeAll(d, requests, flat);
    ghost var sendings := SentAll(d.read, d.link, time, requests);
    ghost var t := Talk(requests, results, LinksFrom(d.link, time, |requests|));
    ServedIsHistory(d.home, d.read, d.link, time, flat, t, after);
    HistoryLawful(d.home, d.read, StatesOf(flat, sendings), t);
    HistoryExpiries(d.home, d.read, StatesOf(flat, sendings), t);
    assert sendings[..|requests|] == sendings;
  }
}

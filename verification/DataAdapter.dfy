/**
  CDataAdapter: every operation hashes a text with MD5, takes the first eight bytes of the digest
  modulo the number of servers, and sends its command there.  The hash covers the whole std::string,
  the command only what c_str shows of it.

  A connection may lose a command, before or after its server has executed it; how connections are opened
  again is the subject of `DataRedis`.
*/
module DataAdapter {
  import opened Bytes
  import opened CText
  import opened Options
  import opened RedisStore
  import opened RedisText
  import opened Sharding
  import opened Md5Stream
  import opened Md5Transform

  function ToBytes(s: string): (r: seq<byte>)
    ensures |r| == |s|
  {
    seq(|s|, i requires 0 <= i < |s| => s[i] as int % 256)
  }

  // an unsigned number, least significant byte first
  function NumberOf(d: seq<byte>): nat {
    if d == [] then 0 else d[0] + 256 * NumberOf(d[1..])
  }

  // the first eight bytes of the digest, read through an integer pointer
  function KeyOf(digest: seq<byte>): nat {
    NumberOf(if |digest| < 8 then digest else digest[..8])
  }

  // the length is passed on in 32 bits
  function Hashed(text: string): (r: string)
    ensures |r| < TWO32 && (|text| < TWO32 ==> r == text)
  {
    text[..|text| % TWO32]
  }

  // the shard of each text among n servers, for a digest computed with f, iv and encode
  function HomesBy<C>(f: (C, seq<byte>) -> C, iv: C, encode: C -> seq<byte>, n: nat): (home: string -> nat)
    requires n > 0
    ensures forall text :: home(text) < n
  {
    (text: string) => KeyOf(DigestOf(f, iv, encode, ToBytes(Hashed(text)))) % n
  }

  // ... with MD5
  function Homes(n: nat): (home: string -> nat)
    requires n > 0
    ensures forall text :: home(text) < n
  {
    HomesBy(Compress, IV, EncodeRegs, n)
  }

  lemma {:induction false} NumberMore(d: seq<byte>)
    requires d != []
    ensures NumberOf(d) == d[0] + 0x100 * NumberOf(d[1..])
  {
  }

  function FourBytes(a: nat, b: nat, c: nat, d: nat): nat {
    a + 0x100 * b + 0x1_0000 * c + 0x100_0000 * d
  }

  lemma FirstFour(d: seq<byte>)
    requires |d| >= 4
    ensures NumberOf(d) == FourBytes(d[0], d[1], d[2], d[3]) + 0x1_0000_0000 * NumberOf(d[4..])
  {
    assert d[1..][1..] == d[2..] && d[2..][1..] == d[3..] && d[3..][1..] == d[4..];
    NumberMore(d);
    NumberMore(d[1..]);
    NumberMore(d[2..]);
    NumberMore(d[3..]);
  }

  // the number is made of the first eight bytes, least significant first
  lemma KeyBytes(d: seq<byte>)
    requires |d| >= 8
    ensures KeyOf(d) ==
            FourBytes(d[0], d[1], d[2], d[3]) + 0x1_0000_0000 * FourBytes(d[4], d[5], d[6], d[7])
  {
    var e := d[..8];
    FirstFour(e);
    FirstFour(e[4..]);
    assert e[4..][4..] == [];
  }

  // the shard of a text is the number in the first eight bytes of its MD5 digest, modulo the number of servers
  lemma HomeOfText(n: nat, text: string)
    requires n > 0 && |text| < TWO32
    ensures var d := DigestOf(StandardWords, IV, EncodeRegs, ToBytes(text));
            && |d| == 16
            && Homes(n)(text) ==
               (FourBytes(d[0], d[1], d[2], d[3]) + 0x1_0000_0000 * FourBytes(d[4], d[5], d[6], d[7])) % n
  {
    DigestIsStandard(ToBytes(text));
    KeyBytes(Md5Digest(ToBytes(text)));
  }

  // ----- requests -----

  // the operations, and how each is sent
  datatype Request =
    | GetReq(uid: string)
    | PutReq(uid: string, rule: string)
    | PutExpireReq(uid: string, rule: string, expiration: int)
    | IncrReq(uid: string)
    | IncrByReq(uid: string, increment: int)
    | SaddReq(uid: string, rule: string)
    | SmembersReq(uid: string)
    | SmoveReq(uid: string, dst: string, rule: string)
    | PutOrderReq(uid: string, score: string, rule: string)

  // how the server reads the text of a score, and the client library one with '%'
  datatype Reading = Reading(score: ScoreReader, format: Formatter)

  // what is sent for a text that was printed; a refused one changes no key
  function CallOp(hashed: string, call: Call): Op {
    match call
    case Refused => One(hashed, hashed, Refuse)
    case Adding(key, members) => One(hashed, key, Sadd(set m | m in members))
    case Moving(from, to, member) => Move(hashed, from, to, member)
  }

  function Sent(read: Reading, q: Request): Op {
    match q
    case GetReq(u) => One(u, CStr(u), Get)
    case PutReq(u, r) => One(u, CStr(u), Set(CStr(r), -1))
    case PutExpireReq(u, r, e) => One(u, CStr(u), Set(CStr(r), e))
    case IncrReq(u) => One(u, CStr(u), IncrBy(1))
    case IncrByReq(u, n) => One(u, CStr(u), IncrBy(if n > 0 then n else 1))
    case SaddReq(u, r) => CallOp(u, SaddCall(read.format, CStr(u), CStr(r)))
    case SmembersReq(u) => One(u, CStr(u), Smembers)
    case SmoveReq(u, d, r) => CallOp(u, SmoveCall(read.format, CStr(u), CStr(d), CStr(r)))
    case PutOrderReq(k, s, r) => One(s, CStr(k), Zadd(read.score(CStr(s)), CStr(r)))
  }

  // members are handed on as C strings
  function Shown(items: set<string>): set<string> {
    set m | m in items :: CStr(m)
  }

  // what the caller sees of a reply
  datatype Result = Failed | Succeeded | GotText(text: string) | GotMembers(members: set<string>)

  function Seen(q: Request, reply: Option<Reply>): Result {
    match (q, reply)
    case (_, None) => Failed
    case (GetReq(_), Some(r)) => if r.Bulk? && r.text != "" then GotText(r.text) else Failed
    case (SmembersReq(_), Some(r)) => if r.Array? then GotMembers(Shown(r.items)) else Failed
    case (_, Some(r)) => if r.Error? then Failed else Succeeded
  }

  // a text whose home is worked out; the homes are given for these only, because the digest is large
  predicate Asked(text: string) {
    true
  }

  class DataAdapter<C> {
    const md5: Md5<C>
    const count: nat
    const read: Reading
    const link: nat -> Link
    ghost const home: string -> nat
    var clock: nat              // commands sent so far
    var shards: Shards

    ghost predicate Valid()
      reads this
    {
      && md5.input.Length == 64 && |shards| == count > 0 && Total(home, count)
      && forall text {:trigger Asked(text)} :: Asked(text) &&
          home(text) == HomesBy(md5.f, md5.iv, md5.encode, count)(text)
    }

    constructor (f: (C, seq<byte>) -> C, iv: C, encode: C -> seq<byte>, n: nat, read: Reading, link: nat -> Link)
      requires n > 0
      ensures Valid() && shards == seq(n, _ => map[]) && home == HomesBy(f, iv, encode, n)
      ensures this.read == read && this.link == link && clock == 0
      ensures fresh(md5) && fresh(md5.input)
    {
      md5 := new Md5(f, iv, encode);
      count, home := n, HomesBy(f, iv, encode, n);
      this.read, this.link, clock := read, link, 0;
      shards := seq(n, _ => map[]);
    }

    // Md5Init, Md5Update, Md5Final, and the remainder
    method Pick(text: string) returns (idx: nat)
      requires Valid()
      modifies md5, md5.input
      ensures Valid() && idx == home(text) < |shards|
    {
      assert Asked(text);
      md5.Init();
      md5.Update(ToBytes(Hashed(text)));
      assert md5.msg == ToBytes(Hashed(text));
      var digest := md5.Final();
      idx := KeyOf(digest) % count;
    }

    // one command over the connection of its shard
    method Send(op: Op) returns (reply: Option<Reply>)
      requires Valid()
      modifies this`shards, this`clock, md5, md5.input
      ensures Valid() && clock == old(clock) + 1
      ensures (shards, reply) == Over(home, old(shards), Sending(op, link(old(clock))))
    {
      var idx := Pick(op.hashed);
      var r := match op
               case One(_, key, command) => Run(shards[idx], key, command)
               case Move(_, from, to, member) => Smove(shards[idx], from, to, member);
      match link(clock) {
        case Answered =>
          shards, reply := shards[idx := r.0], Some(r.1);
        case Lost(executed) =>
          shards, reply := if executed then shards[idx := r.0] else shards, None;
      }
      clock := clock + 1;
    }

    // the store and the result after the request
    ghost predicate Served(q: Request, before: Shards, time: nat, result: Result)
      requires Valid() && |before| == |shards|
      reads this
    {
      var r := Over(home, before, Sending(Sent(read, q), link(time)));
      shards == r.0 && result == Seen(q, r.1) && clock == time + 1
    }

    // a command of which only the failure is seen
    method Accepted(op: Op, ghost q: Request) returns (ok: bool)
      requires Valid() && op == Sent(read, q) && !q.GetReq? && !q.SmembersReq?
      modifies this`shards, this`clock, md5, md5.input
      ensures Valid() && Served(q, old(shards), old(clock), if ok then Succeeded else Failed)
    {
      var reply := Send(op);
      ok := reply.Some? && !reply.value.Error?;
    }

    method UserGet(uid: string) returns (ok: bool, rule: string)
      requires Valid()
      modifies this`shards, this`clock, md5, md5.input
      ensures Valid() && shards == old(shards)
      ensures Served(GetReq(uid), old(shards), old(clock), if ok then GotText(rule) else Failed)
    {
      var reply := Send(One(uid, CStr(uid), Get));
      ok := reply.Some? && reply.value.Bulk? && reply.value.text != "";
      rule := if ok then reply.value.text else "";
      GetChangesNothing(old(shards), home(uid), CStr(uid));
    }

    method UserPut(uid: string, rule: string) returns (ok: bool)
      requires Valid()
      modifies this`shards, this`clock, md5, md5.input
      ensures Valid()
      ensures Served(PutReq(uid, rule), old(shards), old(clock), if ok then Succeeded else Failed)
    {
      ok := Accepted(One(uid, CStr(uid), Set(CStr(rule), -1)), PutReq(uid, rule));
    }

    method UserPutExpire(uid: string, rule: string, expiration: int) returns (ok: bool)
      requires Valid()
      modifies this`shards, this`clock, md5, md5.input
      ensures Valid()
      ensures Served(PutExpireReq(uid, rule, expiration), old(shards), old(clock), if ok then Succeeded else Failed)
    {
      ok := Accepted(One(uid, CStr(uid), Set(CStr(rule), expiration)), PutExpireReq(uid, rule, expiration));
    }

    // without an expiry
    method UserIncr(uid: string) returns (ok: bool)
      requires Valid()
      modifies this`shards, this`clock, md5, md5.input
      ensures Valid()
      ensures Served(IncrReq(uid), old(shards), old(clock), if ok then Succeeded else Failed)
    {
      ok := Accepted(One(uid, CStr(uid), IncrBy(1)), IncrReq(uid));
    }

    // an increment that is not positive is sent as a plain INCR
    method UserIncrBy(uid: string, increment: int) returns (ok: bool)
      requires Valid()
      modifies this`shards, this`clock, md5, md5.input
      ensures Valid()
      ensures Served(IncrByReq(uid, increment), old(shards), old(clock), if ok then Succeeded else Failed)
    {
      if increment > 0 {
        ok := Accepted(One(uid, CStr(uid), IncrBy(increment)), IncrByReq(uid, increment));
      } else {
        ok := Accepted(One(uid, CStr(uid), IncrBy(1)), IncrByReq(uid, increment));
      }
    }

    method UserSadd(uid: string, rule: string) returns (ok: bool)
      requires Valid()
      modifies this`shards, this`clock, md5, md5.input
      ensures Valid()
      ensures Served(SaddReq(uid, rule), old(shards), old(clock), if ok then Succeeded else Failed)
    {
      var call := SaddCall(read.format, CStr(uid), CStr(rule));
      ok := Accepted(CallOp(uid, call), SaddReq(uid, rule));
    }

    method UserSmembers(uid: string) returns (ok: bool, members: set<string>)
      requires Valid()
      modifies this`shards, this`clock, md5, md5.input
      ensures Valid() && shards == old(shards)
      ensures Served(SmembersReq(uid), old(shards), old(clock), if ok then GotMembers(members) else Failed)
    {
      var reply := Send(One(uid, CStr(uid), Smembers));
      ok := reply.Some? && reply.value.Array?;
      members := if ok then Shown(reply.value.items) else {};
      SmembersChangesNothing(old(shards), home(uid), CStr(uid));
    }

    method UserSmove(uid: string, dst: string, rule: string) returns (ok: bool)
      requires Valid()
      modifies this`shards, this`clock, md5, md5.input
      ensures Valid()
      ensures Served(SmoveReq(uid, dst, rule), old(shards), old(clock), if ok then Succeeded else Failed)
    {
      var call := SmoveCall(read.format, CStr(uid), CStr(dst), CStr(rule));
      ok := Accepted(CallOp(uid, call), SmoveReq(uid, dst, rule));
    }

    // the score chooses the shard, the key is where the value goes
    method UserPutOrderSet(key: string, score: string, member: string) returns (ok: bool)
      requires Valid()
      modifies this`shards, this`clock, md5, md5.input
      ensures Valid()
      ensures Served(PutOrderReq(key, score, member), old(shards), old(clock), if ok then Succeeded else Failed)
    {
      var command := Zadd(read.score(CStr(score)), CStr(member));
      ok := Accepted(One(score, CStr(key), command), PutOrderReq(key, score, member));
    }

    // one request, through the operation it stands for
    method Serve(q: Request) returns (result: Result)
      requires Valid()
      modifies this`shards, this`clock, md5, md5.input
      ensures Valid()
      ensures Served(q, old(shards), old(clock), result)
    {
      var ok;
      match q {
        case GetReq(uid) =>
          var rule;
          ok, rule := UserGet(uid);
          return if ok then GotText(rule) else Failed;
        case PutReq(uid, rule) =>
          ok := UserPut(uid, rule);
        case PutExpireReq(uid, rule, expiration) =>
          ok := UserPutExpire(uid, rule, expiration);
        case IncrReq(uid) =>
          ok := UserIncr(uid);
        case IncrByReq(uid, increment) =>
          ok := UserIncrBy(uid, increment);
        case SaddReq(uid, rule) =>
          ok := UserSadd(uid, rule);
        case SmembersReq(uid) =>
          var members;
          ok, members := UserSmembers(uid);
          return if ok then GotMembers(members) else Failed;
        case SmoveReq(uid, dst, rule) =>
          ok := UserSmove(uid, dst, rule);
        case PutOrderReq(uid, score, rule) =>
          ok := UserPutOrderSet(uid, score, rule);
      }
      result := if ok then Succeeded else Failed;
    }
  }

  // reading commands put back what they found
  lemma GetChangesNothing(shards: Shards, at: nat, key: string)
    requires at < |shards|
    ensures RunAt(shards, at, key, Get).0 == shards
  {
    StoredSame(shards[at], key);
  }

  lemma SmembersChangesNothing(shards: Shards, at: nat, key: string)
    requires at < |shards|
    ensures RunAt(shards, at, key, Smembers).0 == shards
  {
    StoredSame(shards[at], key);
  }

  lemma StoredSame(store: Store, key: string)
    ensures Stored(store, key, Lookup(store, key)) == store
  {
    assert key !in store ==> store - {key} == store;
    assert key in store ==> store[key := store[key]] == store;
  }

  // ----- the adapter is one flat store -----

  // keys without a NUL byte, and of one word where a text is printed; the two keys of a move, and the score
  // and key of a ranked put, share a shard
  predicate Good(home: string -> nat, q: Request) {
    && '\0' !in q.uid
    && (q.SaddReq? || q.SmoveReq? ==> Key(q.uid) && '%' !in CStr(q.rule))
    && (q.SmoveReq? ==> '\0' !in q.dst && Key(q.dst) && home(q.uid) == home(q.dst))
    && (q.PutOrderReq? ==> home(q.score) == home(q.uid))
  }

  predicate AllGood(home: string -> nat, requests: seq<Request>) {
    forall k :: 0 <= k < |requests| ==> Good(home, requests[k])
  }

  // the commands of a sequence of requests, with their fate, from a point in time on
  function SentAll(read: Reading, link: nat -> Link, time: nat, requests: seq<Request>): (sendings: seq<Sending>)
    ensures |sendings| == |requests|
    ensures forall k :: 0 <= k < |requests| ==> sendings[k] == Sending(Sent(read, requests[k]), link(time + k))
  {
    seq(|requests|, k requires 0 <= k < |requests| => Sending(Sent(read, requests[k]), link(time + k)))
  }

  function SeenAll(requests: seq<Request>, replies: seq<Option<Reply>>): (results: seq<Result>)
    requires |requests| == |replies|
    ensures |results| == |requests| && forall k :: 0 <= k < |results| ==> results[k] == Seen(requests[k], replies[k])
  {
    seq(|requests|, k requires 0 <= k < |requests| => Seen(requests[k], replies[k]))
  }

  // the state and results after the first k requests, for commands that are run one after the other by `step`
  ghost predicate ServedUpTo<S>(step: (S, Sending) -> (S, Option<Reply>), before: S, requests: seq<Request>,
                                sendings: seq<Sending>, k: nat, after: S, results: seq<Result>)
    requires k <= |requests| == |sendings|
  {
    var run := Folded(step, before, sendings[..k]);
    after == run.0 && results == SeenAll(requests[..k], run.1)
  }

  lemma ServedMore<S>(step: (S, Sending) -> (S, Option<Reply>), before: S, requests: seq<Request>,
                      sendings: seq<Sending>, k: nat, after: S, results: seq<Result>)
    requires k < |requests| == |sendings| && ServedUpTo(step, before, requests, sendings, k, after, results)
    ensures var last := step(after, sendings[k]);
            ServedUpTo(step, before, requests, sendings, k + 1, last.0, results + [Seen(requests[k], last.1)])
  {
    FoldedMore(step, before, sendings, k);
    var replies := Folded(step, before, sendings[..k]).1;
    SeenMore(requests, replies, k, step(after, sendings[k]).1);
  }

  lemma SeenMore(requests: seq<Request>, replies: seq<Option<Reply>>, k: nat, reply: Option<Reply>)
    requires |replies| == k < |requests|
    ensures SeenAll(requests[..k + 1], replies + [reply]) ==
            SeenAll(requests[..k], replies) + [Seen(requests[k], reply)]
  {
  }

  method ServeNext<C>(d: DataAdapter<C>, requests: seq<Request>, k: nat, ghost results: seq<Result>,
                      ghost before: Shards, ghost sendings: seq<Sending>,
                      ghost step: (Shards, Sending) -> (Shards, Option<Reply>))
      returns (result: Result)
    requires d.Valid() && k < |requests| == |sendings| && step == Steps(d.home)
    requires sendings[k] == Sending(Sent(d.read, requests[k]), d.link(d.clock))
    requires ServedUpTo(step, before, requests, sendings, k, d.shards, results)
    modifies d`shards, d`clock, d.md5, d.md5.input
    ensures d.Valid() && d.clock == old(d.clock) + 1
    ensures ServedUpTo(step, before, requests, sendings, k + 1, d.shards, results + [result])
  {
    ServedMore(step, before, requests, sendings, k, d.shards, results);
    result := d.Serve(requests[k]);
  }

  // a sequence of requests, through the operations of the object: its shards and results are those of the
  // run of commands ...
  method ServeRun<C>(d: DataAdapter<C>, requests: seq<Request>, ghost sendings: seq<Sending>,
                     ghost step: (Shards, Sending) -> (Shards, Option<Reply>))
      returns (results: seq<Result>)
    requires d.Valid() && sendings == SentAll(d.read, d.link, d.clock, requests) && step == Steps(d.home)
    modifies d`shards, d`clock, d.md5, d.md5.input
    ensures d.Valid() && ServedUpTo(step, old(d.shards), requests, sendings, |requests|, d.shards, results)
  {
    ghost var before, time := d.shards, d.clock;
    results := [];
    for k := 0 to |requests|
      invariant d.Valid() && d.clock == time + k
      invariant ServedUpTo(step, before, requests, sendings, k, d.shards, results)
    {
      var result := ServeNext(d, requests, k, results, before, sendings, step);
      results := results + [result];
    }
  }

  // ... and for good requests those of the flat store it stands for
  method ServeAll<C>(d: DataAdapter<C>, requests: seq<Request>, ghost flat: Store)
      returns (results: seq<Result>, ghost flat': Store)
    requires d.Valid()
    modifies d`shards, d`clock, d.md5, d.md5.input
    ensures d.Valid()
    ensures var sendings, n := SentAll(d.read, d.link, old(d.clock), requests), |requests|;
            && ServedUpTo(Steps(d.home), old(d.shards), requests, sendings, n, d.shards, results)
            && (Represents(d.home, old(d.shards), flat) && AllGood(d.home, requests) ==>
                  Represents(d.home, d.shards, flat') &&
                      ServedUpTo(OverFlat, flat, requests, sendings, n, flat', results))
  {
    ghost var before, sendings := d.shards, SentAll(d.read, d.link, d.clock, requests);
    results := ServeRun(d, requests, sendings, Steps(d.home));
    flat' := RunAllFlat(flat, sendings).0;
    if Represents(d.home, before, flat) && AllGood(d.home, requests) {
      ServedLikeFlat(d.home, d.read, before, flat, requests, sendings, d.shards, results);
    }
  }

  ghost predicate Sends(read: Reading, requests: seq<Request>, sendings: seq<Sending>) {
    |requests| == |sendings| && forall k :: 0 <= k < |requests| ==> sendings[k].op == Sent(read, requests[k])
  }

  lemma ServedLikeFlat(home: string -> nat, read: Reading, before: Shards, flat: Store, requests: seq<Request>,
                       sendings: seq<Sending>, shards: Shards, results: seq<Result>)
    requires AllGood(home, requests) && Represents(home, before, flat)
    requires Sends(read, requests, sendings)
    requires ServedUpTo(Steps(home), before, requests, sendings, |requests|, shards, results)
    ensures var flat' := RunAllFlat(flat, sendings).0;
            Represents(home, shards, flat') &&
                ServedUpTo(OverFlat, flat, requests, sendings, |requests|, flat', results)
  {
    assert sendings[..|requests|] == sendings && requests[..|requests|] == requests;
    GoodAtHome(home, read, requests, sendings);
    RunAllRefines(home, before, flat, sendings);
  }

  lemma GoodAtHome(home: string -> nat, read: Reading, requests: seq<Request>, sendings: seq<Sending>)
    requires AllGood(home, requests) && Sends(read, requests, sendings)
    ensures forall k :: 0 <= k < |sendings| ==> AtHome(home, sendings[k].op)
  {
    forall k | 0 <= k < |sendings|
      ensures AtHome(home, sendings[k].op)
    {
      assert Good(home, requests[k]);
      SentAtHome(home, read, requests[k]);
    }
  }

  // a good request goes where its keys live; the member of a set may be several words, or none
  lemma SentAtHome(home: string -> nat, read: Reading, q: Request)
    requires Good(home, q)
    ensures AtHome(home, Sent(read, q))
  {
    match q
    case SaddReq(uid, rule) =>
      SaddAtHome(home, read.format, uid, CStr(rule));
    case SmoveReq(uid, dst, rule) =>
      SmoveAtHome(home, read.format, uid, dst, CStr(rule));
    case _ =>
      PlainAtHome(home, read, q);
  }

  lemma PlainAtHome(home: string -> nat, read: Reading, q: Request)
    requires Good(home, q) && !q.SaddReq? && !q.SmoveReq?
    ensures AtHome(home, Sent(read, q))
  {
  }

  lemma SaddAtHome(home: string -> nat, format: Formatter, key: string, member: string)
    requires Key(key) && '%' !in member
    ensures AtHome(home, CallOp(key, SaddCall(format, key, member)))
  {
    SaddIs(format, key, member);
  }

  lemma SmoveAtHome(home: string -> nat, format: Formatter, from: string, to: string, member: string)
    requires Key(from) && Key(to) && '%' !in member && home(from) == home(to)
    ensures AtHome(home, CallOp(from, SmoveCall(format, from, to, member)))
  {
    SmoveIs(format, from, to, member);
  }

  // from empty servers, for the program's hash and any number of servers: any run of good requests, over
  // connections that may fail, gives the replies of one flat store, and every key is in its home shard only
  lemma AdapterRefinesFlat(n: nat, read: Reading, link: nat -> Link, requests: seq<Request>)
    requires n > 0 && AllGood(Homes(n), requests)
    ensures var sendings := SentAll(read, link, 0, requests);
            var (shards, replies) := RunAll(Homes(n), seq(n, _ => map[]), sendings);
            var (flat, replies') := RunAllFlat(map[], sendings);
            replies == replies' && Represents(Homes(n), shards, flat)
  {
    RefinesFromEmpty(Homes(n), n, read, requests, SentAll(read, link, 0, requests));
  }

  lemma RefinesFromEmpty(home: string -> nat, n: nat, read: Reading, requests: seq<Request>, sendings: seq<Sending>)
    requires Total(home, n) && AllGood(home, requests) && Sends(read, requests, sendings)
    ensures var (shards, replies) := RunAll(home, seq(n, _ => map[]), sendings);
            var (flat, replies') := RunAllFlat(map[], sendings);
            replies == replies' && Represents(home, shards, flat)
  {
    EmptyRepresents(home, n);
    GoodAtHome(home, read, requests, sendings);
    RunAllRefines(home, seq(n, _ => map[]), map[], sendings);
  }

  // one server: everything shares the only shard
  lemma OneServerIsGood(home: string -> nat, q: Request)
    requires Total(home, 1) && '\0' !in q.uid && (q.SmoveReq? ==> '\0' !in q.dst && Key(q.dst))
    requires q.SaddReq? || q.SmoveReq? ==> Key(q.uid) && '%' !in CStr(q.rule)
    ensures Good(home, q)
  {
    if q.SmoveReq? {
      assert home(q.uid) < 1 && home(q.dst) < 1;
    } else if q.PutOrderReq? {
      assert home(q.uid) < 1 && home(q.score) < 1;
    }
  }

  lemma ZaddCreates(score: Option<Score>, member: string)
    ensures Zadd(score, member)(None).slot.None? <==> score.None?
  {
  }

  lemma RankedMisplaced(home: string -> nat, shards: Shards, hashed: string, key: string, score: Option<Score>,
                        member: string)
    requires Placed(home, shards) && home(hashed) < |shards| && home(hashed) != home(key)
    ensures Placed(home, RunAt(shards, home(hashed), key, Zadd(score, member)).0) <==> score.None?
  {
    ZaddCreates(score, member);
    MisplacedIff(home, shards, home(hashed), key, Zadd(score, member));
  }

  // a request whose hashed text and key live apart leaves its key in the wrong shard exactly when
  // the command creates a value: a ranked put does so when Redis takes the score for a number ...
  lemma RankedPutMisplacedIff(home: string -> nat, read: Reading, shards: Shards, key: string, score: string,
                              member: string)
    requires Placed(home, shards) && home(score) < |shards|
    requires home(score) != home(CStr(key))
    ensures Placed(home, Apply(home, shards, Sent(read, PutOrderReq(key, score, member))).0) <==>
            read.score(CStr(score)).None?
  {
    RankedMisplaced(home, shards, score, CStr(key), read.score(CStr(score)), CStr(member));
  }

  // ... a put under a key with a NUL byte always does ...
  lemma NulPutMisplaced(home: string -> nat, read: Reading, shards: Shards, key: string, value: string)
    requires Total(home, |shards|) && Placed(home, shards)
    requires home(key) != home(CStr(key))
    ensures !Placed(home, Apply(home, shards, Sent(read, PutReq(key, value))).0)
  {
    MisplacedIff(home, shards, home(key), CStr(key), Set(CStr(value), -1));
  }

  // ... and an addition under a key with a blank adds all words behind the first one under that one
  lemma BlankKeyMisplaced(home: string -> nat, format: Formatter, shards: Shards, key: string, rest: string,
                          member: string)
    requires Total(home, |shards|) && Placed(home, shards)
    requires Key(key) && '%' !in rest && '%' !in member && home(key + " " + rest) != home(key)
    ensures var uid := key + " " + rest;
            Placed(home, Apply(home, shards, CallOp(uid, SaddCall(format, uid, member))).0) <==>
            RedisText.Words(Fitting(|key| + 6, rest + " " + member)) == []
  {
    var uid, more := key + " " + rest, rest + " " + member;
    assert "sadd " + uid + " " + member == "sadd " + key + " " + more;
    SaddIs(format, key, more);
    CallPlaced(home, shards, uid, key, SaddCall(format, key, more));
  }

  // nothing is left behind by a call that is refused only
  lemma CallPlaced(home: string -> nat, shards: Shards, uid: string, key: string, call: Call)
    requires Total(home, |shards|) && Placed(home, shards) && home(uid) != home(key)
    requires call.Refused? || (call.Adding? && call.key == key)
    ensures Placed(home, Apply(home, shards, CallOp(uid, call)).0) <==> call.Refused?
  {
    if call.Adding? {
      var members := set m | m in call.members;
      assert Sadd(members)(None).slot.Some?;
      MisplacedIff(home, shards, home(uid), key, Sadd(members));
    } else {
      StoredSame(shards[home(uid)], uid);
    }
  }
}

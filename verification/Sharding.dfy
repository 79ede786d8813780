/**
  Sharded stores and the flat store they stand for.  The hash is a parameter: nothing here depends on
  how a key chooses its home.
*/
module Sharding {
  import opened Options
  import opened RedisStore

  type Shards = seq<Store>

  // every key lives only in its home shard
  ghost predicate Placed(home: string -> nat, shards: Shards) {
    forall i, k :: 0 <= i < |shards| && k in shards[i] ==> home(k) == i
  }

  // the shards together are the flat store
  ghost predicate Represents(home: string -> nat, shards: Shards, flat: Store) {
    && Placed(home, shards)
    && forall k :: home(k) < |shards| && Lookup(flat, k) == Lookup(shards[home(k)], k)
  }

  // one command, sent to shard `at`
  function RunAt(shards: Shards, at: nat, key: string, command: Command): (Shards, Reply)
    requires at < |shards|
  {
    var (store, reply) := Run(shards[at], key, command);
    (shards[at := store], reply)
  }

  function MoveAt(shards: Shards, at: nat, from: string, to: string, member: string): (Shards, Reply)
    requires at < |shards|
  {
    var (store, reply) := Smove(shards[at], from, to, member);
    (shards[at := store], reply)
  }

  // a command at the key's home does to the shards what it does to the flat store
  lemma RunRefines(home: string -> nat, shards: Shards, flat: Store, key: string, command: Command)
    requires Represents(home, shards, flat)
    ensures var (shards', reply) := RunAt(shards, home(key), key, command);
            var (flat', reply') := Run(flat, key, command);
            reply == reply' && Represents(home, shards', flat')
  {
    var h := home(key);
    var (store, _) := Run(shards[h], key, command);
    var shards' := shards[h := store];
    forall i, k | 0 <= i < |shards'| && k in shards'[i]
      ensures home(k) == i
    {
      assert Lookup(shards'[i], k).Some?;
      if i != h || k != key {
        assert k in shards[i];
      }
    }
  }

  // a command at another shard keeps every key at home exactly when it leaves no value behind there
  lemma MisplacedIff(home: string -> nat, shards: Shards, at: nat, key: string, command: Command)
    requires Placed(home, shards) && at < |shards| && home(key) != at
    ensures Placed(home, RunAt(shards, at, key, command).0) <==> command(None).slot.None?
  {
    assert Lookup(shards[at], key) == None;
    var (store, _) := Run(shards[at], key, command);
    var shards' := shards[at := store];
    assert Lookup(store, key) == command(None).slot;
    if command(None).slot.Some? {
      assert key in shards'[at];
    } else {
      forall i, k | 0 <= i < |shards'| && k in shards'[i]
        ensures home(k) == i
      {
        assert Lookup(shards'[i], k).Some?;
        assert k in shards[i];
      }
    }
  }

  // what SMOVE leaves under each key
  lemma SmoveSlots(store: Store, from: string, to: string, member: string, k: string)
    ensures Lookup(Smove(store, from, to, member).0, k) ==
            if !Moves(store, from, to, member) then Lookup(store, k)
            else if k == to then With(Lookup(store, to), member)
            else if k == from then Without(Lookup(store, from), member)
            else Lookup(store, k)
  {
  }

  lemma SmoveDependsOn(a: Store, b: Store, from: string, to: string, member: string)
    requires Lookup(a, from) == Lookup(b, from) && Lookup(a, to) == Lookup(b, to)
    ensures Smove(a, from, to, member).1 == Smove(b, from, to, member).1
    ensures Moves(a, from, to, member) == Moves(b, from, to, member)
  {
  }

  // SMOVE between two keys of one shard
  lemma SmoveRefines(home: string -> nat, shards: Shards, flat: Store, from: string, to: string, member: string)
    requires Represents(home, shards, flat) && home(from) == home(to)
    ensures var (shards', reply) := MoveAt(shards, home(from), from, to, member);
            var (flat', reply') := Smove(flat, from, to, member);
            reply == reply' && Represents(home, shards', flat')
  {
    var h := home(from);
    var store := Smove(shards[h], from, to, member).0;
    var flat' := Smove(flat, from, to, member).0;
    var shards' := shards[h := store];
    SmoveDependsOn(shards[h], flat, from, to, member);
    forall k
      ensures Lookup(flat', k) == Lookup(shards'[home(k)], k)
    {
      SmoveSlots(shards[h], from, to, member, k);
      SmoveSlots(flat, from, to, member, k);
    }
    forall i, k | 0 <= i < |shards'| && k in shards'[i]
      ensures home(k) == i
    {
      SmoveSlots(shards[h], from, to, member, k);
      assert Lookup(shards'[i], k).Some?;
      if k != from && k != to {
        assert k in shards[i];
      } else if i != h {
        assert k in shards[i];
      }
    }
  }

  // across shards SMOVE puts the member into a set in the wrong shard, unless it moves nothing
  lemma SmoveMisplacedIff(home: string -> nat, shards: Shards, flat: Store, from: string, to: string, member: string)
    requires Represents(home, shards, flat) && home(from) != home(to)
    ensures Placed(home, MoveAt(shards, home(from), from, to, member).0) <==> !HoldsMember(Lookup(flat, from), member)
  {
    var h := home(from);
    var store := Smove(shards[h], from, to, member).0;
    var shards' := shards[h := store];
    assert Lookup(shards[h], to) == None;
    SmoveSlots(shards[h], from, to, member, to);
    if HoldsMember(Lookup(flat, from), member) {
      assert Lookup(store, to).Some?;
      assert to in shards'[h];
    } else {
      forall i, k | 0 <= i < |shards'| && k in shards'[i]
        ensures home(k) == i
      {
        SmoveSlots(shards[h], from, to, member, k);
        assert Lookup(shards'[i], k).Some?;
        assert k in shards[i];
      }
    }
  }

  // ----- runs -----

  // `hashed` is the text that chooses the shard, `key` the text that is sent
  datatype Op =
    | One(hashed: string, key: string, command: Command)
    | Move(hashed: string, from: string, to: string, member: string)

  function Apply(home: string -> nat, shards: Shards, op: Op): (Shards, Reply)
    requires home(op.hashed) < |shards|
  {
    match op
    case One(hashed, key, command) => RunAt(shards, home(hashed), key, command)
    case Move(hashed, from, to, member) => MoveAt(shards, home(hashed), from, to, member)
  }

  function ApplyFlat(flat: Store, op: Op): (Store, Reply) {
    match op
    case One(_, key, command) => Run(flat, key, command)
    case Move(_, from, to, member) => Smove(flat, from, to, member)
  }

  // the shard chosen is the home of every key the command touches
  predicate AtHome(home: string -> nat, op: Op) {
    match op
    case One(hashed, key, _) => home(hashed) == home(key)
    case Move(hashed, from, to, _) => home(hashed) == home(from) == home(to)
  }

  ghost predicate Total(home: string -> nat, n: nat) {
    forall k :: home(k) < n
  }

  // what the connection does with a command: it answers, or loses the command before or after the server
  // has executed it
  datatype Link = Answered | Lost(executed: bool)

  datatype Sending = Sending(op: Op, link: Link)

  function Over(home: string -> nat, shards: Shards, sending: Sending): (r: (Shards, Option<Reply>))
    requires home(sending.op.hashed) < |shards|
    ensures |r.0| == |shards|
  {
    var (after, reply) := Apply(home, shards, sending.op);
    match sending.link
    case Answered => (after, Some(reply))
    case Lost(executed) => (if executed then after else shards, None)
  }

  function OverFlat(flat: Store, sending: Sending): (Store, Option<Reply>) {
    var (after, reply) := ApplyFlat(flat, sending.op);
    match sending.link
    case Answered => (after, Some(reply))
    case Lost(executed) => (if executed then after else flat, None)
  }

  // one after the other, with all that is returned
  function Folded<S, T, R>(step: (S, T) -> (S, R), s: S, items: seq<T>): (r: (S, seq<R>))
    ensures |r.1| == |items|
  {
    if items == [] then (s, [])
    else
      var n := |items| - 1;
      var before := Folded(step, s, items[..n]);
      var last := step(before.0, items[n]);
      (last.0, before.1 + [last.1])
  }

  lemma FoldedMore<S, T, R>(step: (S, T) -> (S, R), s: S, items: seq<T>, k: nat)
    requires k < |items|
    ensures Folded(step, s, items[..k + 1]) ==
            var before := Folded(step, s, items[..k]);
            var last := step(before.0, items[k]);
            (last.0, before.1 + [last.1])
  {
    assert items[..k + 1][..k] == items[..k];
  }

  function Steps(home: string -> nat): (Shards, Sending) -> (Shards, Option<Reply>) {
    (shards: Shards, sending: Sending) =>
      if home(sending.op.hashed) < |shards| then Over(home, shards, sending) else (shards, None)
  }

  function RunAll(home: string -> nat, shards: Shards, sendings: seq<Sending>): (Shards, seq<Option<Reply>>) {
    Folded(Steps(home), shards, sendings)
  }

  function RunAllFlat(flat: Store, sendings: seq<Sending>): (Store, seq<Option<Reply>>) {
    Folded(OverFlat, flat, sendings)
  }

  lemma OverRefines(home: string -> nat, shards: Shards, flat: Store, sending: Sending)
    requires Represents(home, shards, flat) && AtHome(home, sending.op)
    ensures var (shards', reply) := Steps(home)(shards, sending);
            var (flat', reply') := OverFlat(flat, sending);
            reply == reply' && Represents(home, shards', flat')
  {
    match sending.op
    case One(_, key, command) => RunRefines(home, shards, flat, key, command);
    case Move(_, from, to, member) => SmoveRefines(home, shards, flat, from, to, member);
  }

  // steps that keep two states alike return the same
  lemma {:induction false} FoldedAlike<S(!new), S'(!new), T(!new), R>(alike: (S, S') -> bool, good: T -> bool,
      step: (S, T) -> (S, R), step': (S', T) -> (S', R), s: S, s': S', items: seq<T>)
    requires alike(s, s') && forall k :: 0 <= k < |items| ==> good(items[k])
    requires forall a, a', t :: alike(a, a') && good(t) ==>
               step(a, t).1 == step'(a', t).1 && alike(step(a, t).0, step'(a', t).0)
    ensures var (r, r') := (Folded(step, s, items), Folded(step', s', items));
            r.1 == r'.1 && alike(r.0, r'.0)
  {
    if items != [] {
      FoldedAlike(alike, good, step, step', s, s', items[..|items| - 1]);
    }
  }

  // any run of commands sent to the homes of their keys, over connections that may fail, is a run of one
  // flat store: the same replies in the same order, and the shards still stand for the flat store
  lemma RunAllRefines(home: string -> nat, shards: Shards, flat: Store, sendings: seq<Sending>)
    requires Represents(home, shards, flat)
    requires forall k :: 0 <= k < |sendings| ==> AtHome(home, sendings[k].op)
    ensures var (shards', replies) := RunAll(home, shards, sendings);
            var (flat', replies') := RunAllFlat(flat, sendings);
            replies == replies' && Represents(home, shards', flat')
  {
    var alike := (a: Shards, b: Store) => Represents(home, a, b);
    var good := (t: Sending) => AtHome(home, t.op);
    forall a, b, t | alike(a, b) && good(t)
      ensures Steps(home)(a, t).1 == OverFlat(b, t).1 && alike(Steps(home)(a, t).0, OverFlat(b, t).0)
    {
      OverRefines(home, a, b, t);
    }
    FoldedAlike(alike, good, Steps(home), OverFlat, shards, flat, sendings);
  }

  lemma EmptyRepresents(home: string -> nat, n: nat)
    requires Total(home, n)
    ensures Represents(home, seq(n, _ => map[]), map[])
  {
  }
}

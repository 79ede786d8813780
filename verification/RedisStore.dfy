/** One Redis server: a finite map from key to value, and the commands the program sends. */
module RedisStore {
  import opened CText
  import opened Options

  // a score of a ranked set
  datatype Score = Finite(value: real) | PlusInfinity | MinusInfinity

  // `ttl` is 0 for a value without expiry
  datatype Value =
    | Text(text: string, ttl: nat)
    | Members(members: set<string>)
    | Ranked(scores: map<string, Score>)

  type Store = map<string, Value>
  type Slot = Option<Value>

  datatype Reply = Nil | Done | Bulk(text: string) | Integer(n: int) | Array(items: set<string>) | Error

  function Lookup(store: Store, key: string): Slot {
    if key in store then Some(store[key]) else None
  }

  function Stored(store: Store, key: string, slot: Slot): (r: Store)
    ensures forall k :: Lookup(r, k) == if k == key then slot else Lookup(store, k)
  {
    match slot
    case None => store - {key}
    case Some(v) => store[key := v]
  }

  // what a command does with the value of its key
  datatype Effect = Effect(slot: Slot, reply: Reply)
  type Command = Slot -> Effect

  // ----- commands on one key -----

  // GET
  function Get(slot: Slot): Effect {
    match slot
    case None => Effect(slot, Nil)
    case Some(Text(t, _)) => Effect(slot, Bulk(t))
    case _ => Effect(slot, Error)
  }

  // SET, with "ex" when the expiration is positive
  function Set(value: string, expiration: int): Command {
    (slot: Slot) => Effect(Some(Text(value, if expiration > 0 then expiration else 0)), Done)
  }

  // the integers Redis accepts: exactly what it prints, in 64 bits
  function Number(t: string): Option<int> {
    var n := Signed(t);
    if t == Print(n) && InLong(n) then Some(n) else None
  }

  // INCR and INCRBY
  function Increased(slot: Slot, delta: int): Effect {
    match slot
    case None => Effect(Some(Text(Print(delta), 0)), Integer(delta))
    case Some(Text(t, ttl)) =>
      (match Number(t)
       case Some(n) =>
         if !InLong(n + delta) then Effect(slot, Error)
         else Effect(Some(Text(Print(n + delta), ttl)), Integer(n + delta))
       case None => Effect(slot, Error))
    case _ => Effect(slot, Error)
  }

  function IncrBy(delta: int): Command {
    (slot: Slot) => Increased(slot, delta)
  }

  // SADD
  function Sadd(members: set<string>): Command {
    (slot: Slot) =>
      match slot
      case None => Effect(Some(Members(members)), Integer(|members|))
      case Some(Members(m)) => Effect(Some(Members(m + members)), Integer(|members - m|))
      case _ => Effect(slot, Error)
  }

  // a command with too few or too many words
  function Refuse(slot: Slot): Effect {
    Effect(slot, Error)
  }

  // SMEMBERS
  function Smembers(slot: Slot): Effect {
    match slot
    case None => Effect(slot, Array({}))
    case Some(Members(m)) => Effect(slot, Array(m))
    case _ => Effect(slot, Error)
  }

  // how Redis reads the text of a score, if it takes it for one
  type ScoreReader = string -> Option<Score>

  // ZADD with the score that was read, if any
  function Zadd(score: Option<Score>, member: string): Command {
    (slot: Slot) =>
      match (slot, score)
      case (_, None) => Effect(slot, Error)
      case (None, Some(n)) => Effect(Some(Ranked(map[member := n])), Integer(1))
      case (Some(Ranked(z)), Some(n)) => Effect(Some(Ranked(z[member := n])), Integer(if member in z then 0 else 1))
      case _ => Effect(slot, Error)
  }

  function Run(store: Store, key: string, command: Command): (Store, Reply) {
    var e := command(Lookup(store, key));
    (Stored(store, key, e.slot), e.reply)
  }

  // ----- SMOVE, the one command on two keys -----

  predicate HoldsMember(slot: Slot, member: string) {
    slot.Some? && slot.value.Members? && member in slot.value.members
  }

  predicate WrongType(slot: Slot) {
    slot.Some? && !slot.value.Members?
  }

  // a set without members is no key
  function Without(slot: Slot, member: string): Slot
    requires HoldsMember(slot, member)
  {
    var rest := slot.value.members - {member};
    if rest == {} then None else Some(Members(rest))
  }

  function With(slot: Slot, member: string): Slot
    requires !WrongType(slot)
  {
    Some(Members((if slot.Some? then slot.value.members else {}) + {member}))
  }

  // does SMOVE change anything
  predicate Moves(store: Store, from: string, to: string, member: string) {
    from != to && HoldsMember(Lookup(store, from), member) && !WrongType(Lookup(store, to))
  }

  function Smove(store: Store, from: string, to: string, member: string): (Store, Reply) {
    var source, target := Lookup(store, from), Lookup(store, to);
    if source.None? then (store, Integer(0))
    else if WrongType(source) || WrongType(target) then (store, Error)
    else if from == to ||
        !HoldsMember(source, member) then (store, Integer(if HoldsMember(source, member) then 1 else 0))
    else (Stored(Stored(store, from, Without(source, member)), to, With(target, member)), Integer(1))
  }
}

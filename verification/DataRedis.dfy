/**
  CDataRedis: one lazily opened connection.  Every command first makes sure of a connection; whenever
  a command fails the connection is dropped, and the next command opens a new one and selects the
  database again.

  What the network does is an arbitrary function of the number of calls made so far.  Handles and
  replies are numbered; the object records which of them are allocated, so that freeing one twice or
  using one after it was freed violates a precondition.
*/
module DataRedis {
  import opened Options

  // redisConnectWithTimeout: NULL, a context with `err` set, or a good context
  datatype Connected = NoContext | BadContext | GoodContext

  // redisCommand: NULL, an error reply, or a reply; a command without a reply may still have been executed
  datatype Answered = NoReply(executed: bool) | ErrorReply | GoodReply(text: string)

  datatype Answer = Answer(connect: Connected, command: Answered)

  datatype Command = Select(db: nat) | Ping | Other(text: string)

  // what is sent over a new connection before anything else
  function Opening(idx: nat): (commands: seq<Command>) {
    (if idx == 0 then [] else [Select(idx)]) + [Ping]
  }

  // from this call on, the network connects and answers all of that
  predicate Opens(net: nat -> Answer, idx: nat, time: nat) {
    && net(time).connect.GoodContext?
    && (idx != 0 ==> net(time + 1).command.GoodReply?)
    && net(time + |Opening(idx)|).command.GoodReply?
  }

  class DataRedis {
    const net: nat -> Answer
    const idx: nat
    var clock: nat                    // remote calls made so far
    var context: Option<nat>          // context_

    // the world outside: allocated contexts with their selected database, and allocated replies
    var open: map<nat, nat>
    var replies: set<nat>

    // all commands that were sent
    var sent: seq<Command>

    constructor (net: nat -> Answer, idx: nat)
      ensures Valid() && context.None? && this.idx == idx && this.net == net
    {
      this.net, this.idx := net, idx;
      clock, context := 0, None;
      open, replies, sent := map[], {}, [];
    }

    // nothing leaked: the only context is the one in use, and every reply has been freed
    ghost predicate Clean()
      reads this
    {
      && replies == {}
      && open.Keys == (if context.Some? then {context.value} else {})
      && (forall h :: h in open ==> h < clock)
    }

    // between public calls: no connection, or a live one with the configured database selected
    ghost predicate Valid()
      reads this
    {
      Clean() && (context.Some? ==> open[context.value] == idx)
    }

    // ----- the client library -----

    method RedisConnect() returns (handle: Option<nat>, err: bool)
      modifies this`clock, this`open
      ensures clock == old(clock) + 1
      ensures var answer := net(old(clock)).connect;
              (handle.None? <==> answer.NoContext?) && (err <==> answer.BadContext?)
      ensures handle.None? ==> open == old(open)
      ensures handle.Some? ==> handle == Some(old(clock)) && open == old(open)[old(clock) := 0]
    {
      var answer := net(clock).connect;
      handle, err := None, answer.BadContext?;
      if !answer.NoContext? {
        handle := Some(clock);
        open := open[clock := 0];
      }
      clock := clock + 1;
    }

    method RedisFree(handle: nat)
      requires handle in open
      modifies this`open
      ensures open == old(open) - {handle}
    {
      open := open - {handle};
    }

    method RedisCommand(handle: nat, command: Command) returns (reply: Option<nat>, answer: Answered)
      requires handle in open
      modifies this`clock, this`open, this`replies, this`sent
      ensures clock == old(clock) + 1 && open.Keys == old(open).Keys && sent == old(sent) + [command]
      ensures answer == net(old(clock)).command && (reply.None? <==> answer.NoReply?)
      ensures replies == old(replies) + (if reply.Some? then {reply.value} else {})
      ensures reply.Some? ==> reply.value == old(clock)
      ensures answer.GoodReply? ==> open[handle] == if command.Select? then command.db else old(open)[handle]
    {
      answer := net(clock).command;
      sent := sent + [command];
      reply := None;
      if !answer.NoReply? {
        reply := Some(clock);
        replies := replies + {clock};
      }
      if command.Select? && (answer.GoodReply? || (answer.NoReply? && answer.executed)) {
        open := open[handle := command.db];
      }
      clock := clock + 1;
    }

    method FreeReply(reply: nat)
      requires reply in replies
      modifies this`replies
      ensures replies == old(replies) - {reply}
    {
      replies := replies - {reply};
    }

    // ----- CDataRedis -----

    // the commands of a new connection, if there is none yet
    function Needed(before: Option<nat>): seq<Command> {
      if before.None? then Opening(idx) else []
    }

    // the first remote call behind the opening of the connection itself
    function Connecting(before: Option<nat>, time: nat): nat {
      if before.None? then time + 1 else time
    }

    // the remote call of the command proper
    function Start(before: Option<nat>, time: nat): nat {
      Connecting(before, time) + |Needed(before)|
    }

    // of the commands planned some were sent in their order, and all of them on success
    ghost predicate Reached(ok: bool, before: seq<Command>, planned: seq<Command>, time: nat)
      reads this
    {
      && before <= sent <= before + planned
      && (ok ==> sent == before + planned && clock == time + |planned|)
    }

    method DisConnect()
      requires context.Some? ==> context.value in open
      modifies this`context, this`open
      ensures context.None?
      ensures open == if old(context).Some? then old(open) - {old(context).value} else old(open)
    {
      if context.Some? {
        RedisFree(context.value);
        context := None;
      }
    }

    // redisCommand, the test of the reply, and the clean-up on both paths
    method Exchange(command: Command, needText: bool) returns (ok: bool, text: string)
      requires Clean() && context.Some?
      modifies this`clock, this`open, this`replies, this`context, this`sent
      ensures Clean()
      ensures ok <==> context.Some?
      ensures ok ==> context == old(context)
      ensures clock == old(clock) + 1 && sent == old(sent) + [command]
      ensures ok ==> open[context.value] == if command.Select? then command.db else old(open)[context.value]
      ensures var answer := net(old(clock)).command;
              && (ok <==> answer.GoodReply? && (needText ==> answer.text != ""))
              && (ok ==> text == answer.text)
    {
      var reply, answer := RedisCommand(context.value, command);
      text := "";
      if reply.None? || answer.ErrorReply? || (needText && answer.text == "") {
        if reply.Some? {
          FreeReply(reply.value);
        }
        DisConnect();
        return false, text;
      }
      text := answer.text;
      FreeReply(reply.value);
      ok := true;
    }

    method KeepConnect() returns (ok: bool)
      requires Clean()
      modifies this`clock, this`open, this`replies, this`context, this`sent
      ensures Clean()
      ensures ok <==> context.Some?
      ensures old(context).Some? ==>
                ok && context == old(context) && open == old(open) && clock == old(clock) && sent == old(sent)
      ensures old(context).None? ==>
                && (ok <==> Opens(net, idx, old(clock))) && (ok ==> open[context.value] == idx)
                && Reached(ok, old(sent), Opening(idx), old(clock) + 1)
      decreases if context.None? then 2 else 0
    {
      if context.Some? {
        return true;
      }
      var err;
      context, err := RedisConnect();
      if context.None? || err {
        if context.Some? {
          RedisFree(context.value);
          context := None;
        }
        return false;
      }
      if idx != 0 {
        var selected := SelectDB(idx);
        if !selected {
          return false;
        }
      }
      var text;
      ok, text := Exchange(Ping, false);
    }

    method SelectDB(db: nat) returns (ok: bool)
      requires Clean()
      modifies this`clock, this`open, this`replies, this`context, this`sent
      ensures Clean()
      ensures ok <==> context.Some?
      ensures ok ==> open[context.value] == db
      ensures var start := Start(old(context), old(clock));
              && (ok <==> (old(context).None? ==> Opens(net, idx, old(clock))) && net(start).command.GoodReply?)
              && Reached(ok, old(sent), Needed(old(context)) + [Select(db)], Connecting(old(context), old(clock)))
      decreases if context.None? then 3 else 1
    {
      ok := KeepConnect();
      if !ok {
        return false;
      }
      var text;
      ok, text := Exchange(Select(db), false);
    }

    method Init() returns (ok: bool)
      requires Valid()
      modifies this`clock, this`open, this`replies, this`context, this`sent
      ensures Valid() && (ok <==> context.Some?)
    {
      ok := KeepConnect();
    }

    // the pattern shared by the other commands; GET also fails on an empty text
    method Perform(request: string, needText: bool) returns (ok: bool, text: string)
      requires Valid()
      modifies this`clock, this`open, this`replies, this`context, this`sent
      ensures Valid()
      ensures ok <==> context.Some?
      ensures var start := Start(old(context), old(clock));
              var answer := net(start).command;
              && (ok <==> (old(context).None? ==> Opens(net, idx, old(clock))) && answer.GoodReply? &&
                          (needText ==> answer.text != ""))
              && (ok ==> text == answer.text)
              && Reached(ok, old(sent), Needed(old(context)) + [Other(request)], Connecting(old(context), old(clock)))
    {
      ok := KeepConnect();
      text := "";
      if !ok {
        return;
      }
      ok, text := Exchange(Other(request), needText);
    }
  }

  // one public call
  datatype Call = Call(request: string, needText: bool)

  // over any sequence of public calls and any behaviour of the network: the object stays valid,
  // and the last call returned false exactly when no connection is left
  method Session(d: DataRedis, calls: seq<Call>) returns (results: seq<bool>)
    requires d.Valid()
    modifies d
    ensures d.Valid() && |results| == |calls|
    ensures calls != [] ==> (results[|calls| - 1] <==> d.context.Some?)
  {
    results := [];
    for k := 0 to |calls|
      invariant d.Valid() && |results| == k
      invariant k > 0 ==> (results[k - 1] <==> d.context.Some?)
    {
      var ok, _ := d.Perform(calls[k].request, calls[k].needText);
      results := results + [ok];
    }
  }

  // an outside SelectDB breaks the agreement with the configured database, exactly when it succeeds
  // with another one
  method SelectOutside(d: DataRedis, db: nat) returns (ok: bool)
    requires d.Valid()
    modifies d
    ensures d.Clean() && (ok <==> d.context.Some?)
    ensures d.Valid() <==> !ok || db == d.idx
  {
    ok := d.SelectDB(db);
  }
}

/**
  What the settlement does with orders that are kept as the program keeps them: members of four fields, with
  decimal numbers under their keys.
*/
module SettledOrders {
  import opened CText
  import opened RedisStore
  import opened RedisText
  import opened OrderMember
  import opened Settlement

  // a text under a key, with or without an expiry
  predicate Holds(store: Store, key: string, text: string) {
    key in store && store[key].Text? && store[key].text == text
  }

  // the order has not expired on its own
  predicate Unexpired(store: Store, u: string) {
    var key := "order_expire#" + u;
    key in store && store[key].Text? ==> store[key].text == ""
  }

  predicate OrdersOnly(members: set<string>) {
    forall m :: m in members ==> Hashes(m) == 3 && Sendable(m)
  }

  // what an int is left of a number: strtol stops at the limits of a long, and its low 32 bits are kept
  function AsInt(n: int): (r: int)
    ensures -INT_LIMIT <= r < INT_LIMIT
    ensures -INT_LIMIT <= n < INT_LIMIT ==> r == n
  {
    LowBits(if n < -LONG_LIMIT then -LONG_LIMIT else if n < LONG_LIMIT then n else LONG_LIMIT - 1)
  }

  // the low 32 bits, as a signed number
  function LowBits(n: int): (r: int)
    ensures -INT_LIMIT <= r < INT_LIMIT
    ensures -INT_LIMIT <= n < INT_LIMIT ==> r == n
  {
    var low := n % (2 * INT_LIMIT);
    if low < INT_LIMIT then low else low - 2 * INT_LIMIT
  }

  lemma LowBitsShifted(n: int)
    ensures (n + INT_LIMIT) % (2 * INT_LIMIT) - INT_LIMIT == LowBits(n)
  {
  }

  lemma NumberRead(n: int)
    ensures Atoi(Print(n)) == AsInt(n) && Print(n) != ""
  {
    SignedPrint(n, "");
    assert Print(n) + "" == Print(n);
    LowBitsShifted(Atol(Print(n)));
  }

  // whether the order is due can be read off the numbers
  lemma DueByNumbers(format: Formatter, store: Store, u: string, st: int, c: int, l: int)
    requires Hashes(u) == 3
    requires Holds(store, "order_status#" + u, Print(st))
    requires Holds(store, "order_count#" + u, Print(c)) && Holds(store, "order_limit#" + u, Print(l))
    ensures Due(ProgramNames(format), store, u) <==> AsInt(st) == 0 && AsInt(c) >= AsInt(l) && Unexpired(store, u)
  {
    RebuiltIff(u);
    NumberRead(st);
    NumberRead(c);
    NumberRead(l);
  }

  // for all numbers: the order leaves the set of orders to update exactly when its status is zero, its count has
  // reached its limit and it has not expired; it is then among the updated ones, and otherwise not more than before
  lemma LeavesIff(format: Formatter, store: Store, after: Store, u: string, st: int, c: int, l: int)
    requires Pass(ProgramNames(format), store, after) && OrdersOnly(MembersAt(store, NEED))
    requires ALREADY in store ==> store[ALREADY].Members?
    requires u in MembersAt(store, NEED)
    requires Holds(store, "order_status#" + u, Print(st))
    requires Holds(store, "order_count#" + u, Print(c)) && Holds(store, "order_limit#" + u, Print(l))
    ensures var settled := AsInt(st) == 0 && AsInt(c) >= AsInt(l) && Unexpired(store, u);
            && (u !in MembersAt(after, NEED) <==> settled)
            && (u in MembersAt(after, ALREADY) <==> settled || u in MembersAt(store, ALREADY))
            && Holds(after, "order_status#" + u, if settled then "1" else Print(st))
  {
    var n := ProgramNames(format);
    ProgramNamesDistinct(format);
    FourFieldsAlone(format, store, u);
    AloneMovesIff(n, store, after, u);
    DueByNumbers(format, store, u, st, c, l);
    NumberRead(st);
    MarkedIff(n, store, after, u);
  }

  // ... which for numbers that an int holds are the numbers themselves
  lemma IntsLeaveIff(format: Formatter, store: Store, after: Store, u: string, st: int, c: int, l: int)
    requires Pass(ProgramNames(format), store, after) && OrdersOnly(MembersAt(store, NEED))
    requires ALREADY in store ==> store[ALREADY].Members?
    requires u in MembersAt(store, NEED)
    requires Holds(store, "order_status#" + u, Print(st))
    requires Holds(store, "order_count#" + u, Print(c)) && Holds(store, "order_limit#" + u, Print(l))
    requires -INT_LIMIT <= st < INT_LIMIT && -INT_LIMIT <= c < INT_LIMIT && -INT_LIMIT <= l < INT_LIMIT
    ensures u !in MembersAt(after, NEED) <==> st == 0 && c >= l && Unexpired(store, u)
  {
    LeavesIff(format, store, after, u, st, c, l);
  }

  // ----- the ranked set of a user -----

  // the members of a user that are due
  function DueOf(format: Formatter, store: Store, user: string): set<string> {
    set m | m in Listed(ProgramNames(format), store) && Due(ProgramNames(format), store, m) && UserOf(m) == user
  }

  lemma RankingKeyInjective(m: string, user: string)
    ensures RankingKey(m) == user + "#orderid" <==> UserOf(m) == user
  {
    var a, b := RankingKey(m), user + "#orderid";
    if a == b {
      assert a[..|a| - 8] == UserOf(m) && b[..|b| - 8] == user;
    }
  }

  // the ranked set of each user loses its lowest member once for every order of the user that is due
  lemma UserRanksDrop(format: Formatter, first: map<string, Score> -> string, store: Store, after: Store, user: string)
    requires RanksPassed(ProgramNames(format), first, store, after, Listed(ProgramNames(format), store))
    ensures RankedAt(after, user + "#orderid") ==
            Dropped(first, RankedAt(store, user + "#orderid"), |DueOf(format, store, user)|)
  {
    var n, k := ProgramNames(format), user + "#orderid";
    forall m
      ensures n.ranking(m) == k <==> UserOf(m) == user
    {
      RankingKeyInjective(m, user);
    }
    assert RankedBy(n, store, Listed(n, store), k) == DueOf(format, store, user);
  }
}

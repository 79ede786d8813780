/** Multisets of the elements of several sequences. */
module Bags {

  function Bag<T>(lines: seq<seq<T>>): multiset<T> {
    if lines == [] then multiset{} else Bag(lines[..|lines| - 1]) + multiset(lines[|lines| - 1])
  }

  // one line gains the element x
  lemma {:induction false} BagMore<T>(lines: seq<seq<T>>, i: nat, line: seq<T>, x: T)
    requires i < |lines| && multiset(line) == multiset(lines[i]) + multiset{x}
    ensures Bag(lines[i := line]) == Bag(lines) + multiset{x}
  {
    var n := |lines| - 1;
    var front := lines[..n];
    if i == n {
      assert lines[i := line][..n] == front;
    } else {
      BagMore(front, i, line, x);
      assert lines[i := line][..n] == front[i := line];
    }
  }

  // every key is in exactly one of: the set, the hand, the bag; and nothing else is anywhere
  ghost predicate Balanced<T>(armed: set<T>, hand: multiset<T>, bag: multiset<T>, keys: set<T>) {
    multiset(armed) + hand + bag == multiset(keys)
  }

  lemma BalancedCount<T>(armed: set<T>, hand: multiset<T>, bag: multiset<T>, keys: set<T>, x: T)
    requires Balanced(armed, hand, bag, keys)
    ensures (if x in armed then 1 else 0) + hand[x] + bag[x] == if x in keys then 1 else 0
  {
    assert (multiset(armed) + hand + bag)[x] == multiset(keys)[x];
  }

  lemma BagToHand<T>(armed: set<T>, bag: multiset<T>, keys: set<T>, x: T, bag': multiset<T>)
    requires Balanced(armed, multiset{}, bag, keys) && bag == bag' + multiset{x}
    ensures Balanced(armed, multiset{x}, bag', keys)
  {
  }

  lemma HandToBag<T>(armed: set<T>, bag: multiset<T>, keys: set<T>, x: T, bag': multiset<T>)
    requires Balanced(armed, multiset{x}, bag, keys) && bag' == bag + multiset{x}
    ensures Balanced(armed, multiset{}, bag', keys)
  {
  }

  lemma HandToSet<T>(armed: set<T>, bag: multiset<T>, keys: set<T>, x: T)
    requires Balanced(armed, multiset{x}, bag, keys)
    ensures Balanced(armed + {x}, multiset{}, bag, keys)
  {
    BalancedCount(armed, multiset{x}, bag, keys, x);
    assert multiset(armed + {x}) == multiset(armed) + multiset{x};
  }

  lemma SetToHand<T>(armed: set<T>, bag: multiset<T>, keys: set<T>, x: T)
    requires Balanced(armed, multiset{}, bag, keys) && x in armed
    ensures Balanced(armed - {x}, multiset{x}, bag, keys)
  {
    assert multiset(armed) == multiset(armed - {x}) + multiset{x};
  }

  lemma HandToNowhere<T>(armed: set<T>, bag: multiset<T>, keys: set<T>, x: T)
    requires Balanced(armed, multiset{x}, bag, keys)
    ensures Balanced(armed, multiset{}, bag, keys - {x})
  {
    BalancedCount(armed, multiset{x}, bag, keys, x);
    assert multiset(keys) == multiset(keys - {x}) + multiset{x};
    assert multiset(armed) + multiset{} + bag == multiset(keys) - multiset{x};
  }

  lemma NowhereToSet<T>(armed: set<T>, bag: multiset<T>, keys: set<T>, x: T)
    requires Balanced(armed, multiset{}, bag, keys) && x !in keys
    ensures Balanced(armed + {x}, multiset{}, bag, keys + {x})
  {
    BalancedCount(armed, multiset{}, bag, keys, x);
    assert multiset(armed + {x}) == multiset(armed) + multiset{x};
    assert multiset(keys + {x}) == multiset(keys) + multiset{x};
  }

  lemma {:induction false} BagContains<T>(lines: seq<seq<T>>, i: nat)
    requires i < |lines|
    ensures multiset(lines[i]) <= Bag(lines)
  {
    var n := |lines| - 1;
    if i < n {
      BagContains(lines[..n], i);
    }
  }

  lemma {:induction false} BagContainsBoth<T>(lines: seq<seq<T>>, i: nat, j: nat)
    requires i < j < |lines|
    ensures multiset(lines[i]) + multiset(lines[j]) <= Bag(lines)
  {
    var n := |lines| - 1;
    if j == n {
      BagContains(lines[..n], i);
    } else {
      BagContainsBoth(lines[..n], i, j);
    }
  }

  lemma {:induction false} BagWitness<T>(lines: seq<seq<T>>, x: T) returns (i: nat)
    requires x in Bag(lines)
    ensures i < |lines| && x in lines[i]
  {
    var n := |lines| - 1;
    if x in lines[n] {
      i := n;
    } else {
      i := BagWitness(lines[..n], x);
    }
  }

  lemma InOneLine<T>(lines: seq<seq<T>>, x: T, i: nat)
    requires Bag(lines)[x] <= 1 && i < |lines| && x in lines[i]
    ensures multiset(lines[i])[x] == 1 == Bag(lines)[x]
    ensures forall j :: 0 <= j < |lines| && j != i ==> x !in lines[j]
  {
    BagContains(lines, i);
    assert multiset(lines[i])[x] <= Bag(lines)[x];
    forall j | 0 <= j < |lines| && j != i
      ensures x !in lines[j]
    {
      BagContainsBoth(lines, if i < j then i else j, if i < j then j else i);
      assert (multiset(lines[i]) + multiset(lines[j]))[x] <= Bag(lines)[x];
    }
  }

  lemma {:induction false} BagEmpty<T>(lines: seq<seq<T>>)
    requires forall i :: 0 <= i < |lines| ==> lines[i] == []
    ensures Bag(lines) == multiset{}
  {
    if lines != [] {
      BagEmpty(lines[..|lines| - 1]);
    }
  }
}

/** Facts about infinite runs, over indices alone. */
module Temporal {

  type Stage = nat -> bool

  // what holds at first and is handed on holds for ever
  lemma {:induction false} Always(p: Stage, from: nat, k: nat)
    requires p(from) && from <= k
    requires forall i: nat :: from <= i && p(i) ==> p(i + 1)
    ensures p(k)
    decreases k
  {
    if from < k {
      Always(p, from, k - 1);
    }
  }

  // while `holds` lasts the goal has not been met; `mine` are the steps that bring it closer, by the pair of
  // measures in order of weight
  datatype Chase = Chase(holds: Stage, goal: Stage, mine: Stage, major: nat -> nat, minor: nat -> nat)

  ghost predicate Closer(c: Chase, k: nat) {
    c.major(k + 1) < c.major(k) || (c.major(k + 1) == c.major(k) && c.minor(k + 1) < c.minor(k))
  }

  ghost predicate NotFarther(c: Chase, k: nat) {
    c.major(k + 1) == c.major(k) && c.minor(k + 1) == c.minor(k)
  }

  // a step meets the goal, brings it closer, or is somebody else's
  ghost predicate Steps(c: Chase, k: nat) {
    c.holds(k) ==> c.goal(k + 1) || (c.holds(k + 1) && (Closer(c, k) || (!c.mine(k) && NotFarther(c, k))))
  }

  // a step of mine will come, as long as `holds` lasts
  ghost predicate Comes(c: Chase, k: nat) {
    exists j: nat :: k <= j && (c.mine(j) || !c.holds(j))
  }

  ghost predicate Chases(c: Chase) {
    (forall k: nat :: Steps(c, k)) && (forall k: nat :: Comes(c, k))
  }

  // so the goal is met
  lemma Met(c: Chase, k: nat) returns (j: nat)
    requires Chases(c) && c.holds(k)
    ensures k < j && c.goal(j)
    decreases c.major(k), c.minor(k), 1
  {
    assert Comes(c, k);
    var t: nat :| k <= t && (c.mine(t) || !c.holds(t));
    j := MetBy(c, k, t);
  }

  lemma MetBy(c: Chase, k: nat, t: nat) returns (j: nat)
    requires Chases(c) && c.holds(k) && k <= t && (c.mine(t) || !c.holds(t))
    ensures k < j && c.goal(j)
    decreases c.major(k), c.minor(k), 0, t - k
  {
    assert Steps(c, k);
    if c.goal(k + 1) {
      j := k + 1;
    } else if Closer(c, k) {
      j := Met(c, k + 1);
    } else {
      j := MetBy(c, k + 1, t);
    }
  }
}

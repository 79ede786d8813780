/**
  Liveness of the dispatcher/worker protocol: in every infinite run without accept and read events in which
  no thread is passed over for ever, the work in flight drains.
*/
module FairDispatch {
  import opened Dispatch
  import opened Temporal

  // an infinite run: the states and the step taken in each
  datatype Run = Run(state: nat -> State, step: nat -> Step)

  ghost predicate Follows(r: Run, k: nat) {
    && Enabled(r.state(k), r.step(k)) && Quiet(r.step(k))
    && r.state(k + 1) == Apply(r.state(k), r.step(k))
  }

  // the worker can go on by itself
  predicate Ready(w: Worker) {
    || ((w.pc.AtLock? || w.pc.Woken?) && w.lock.Free?)
    || w.pc.Checking? || w.pc.Running? || w.pc.Unlocking? || w.pc.Notifying?
  }

  predicate OfServer(step: Step) {
    !step.Work?
  }

  predicate OfWorker(step: Step, i: nat) {
    step.Work? && step.w == i
  }

  // the server, which never blocks, steps again
  ghost predicate ServerTurn(r: Run, k: nat) {
    exists j: nat :: k <= j && OfServer(r.step(j))
  }

  // worker i steps again, or is seen unable to
  ghost predicate WorkerTurn(r: Run, i: nat, k: nat) {
    exists j: nat :: k <= j && (OfWorker(r.step(j), i) || (i < |r.state(j).workers| && !Ready(r.state(j).workers[i])))
  }

  // weak fairness towards every thread
  ghost predicate Fair(r: Run) {
    && (forall k: nat :: ServerTurn(r, k))
    && (forall i: nat, k: nat :: i < |r.state(0).workers| ==> WorkerTurn(r, i, k))
  }

  ghost predicate QuietForever(r: Run) {
    forall k: nat :: Follows(r, k)
  }

  // the facts that hold all along
  ghost predicate Sound(r: Run, n: nat, k: nat) {
    Inv(r.state(k)) && Calm(r.state(k).batch) && |r.state(k).workers| == n
  }

  lemma SoundForever(r: Run, n: nat, k: nat)
    requires QuietForever(r) && Sound(r, n, 0)
    ensures Sound(r, n, k)
  {
    var sound := (i: nat) => Sound(r, n, i);
    forall i: nat | sound(i)
      ensures sound(i + 1)
    {
      assert Follows(r, i);
      SoundNext(r, n, i);
    }
    Always(sound, 0, k);
  }

  lemma SoundNext(r: Run, n: nat, k: nat)
    requires Follows(r, k) && Sound(r, n, k)
    ensures Sound(r, n, k + 1)
  {
    StepInv(r.state(k), r.step(k));
    QuietKeepsCalm(r.state(k), r.step(k));
  }

  function LoadAt(r: Run, k: nat): nat {
    TotalLoad(r.state(k).workers)
  }

  // the server has no task on its way to a worker
  predicate Handless(pc: ServerPc) {
    pc.Scan? || pc.Reap? || pc.Handle?
  }

  // once it has none it takes none, and the load only falls
  lemma HandlessNext(s: State, step: Step)
    requires Enabled(s, step) && Quiet(step) && Handless(s.pc)
    ensures Handless(Apply(s, step).pc)
    ensures TotalLoad(Apply(s, step).workers) == TotalLoad(s.workers) - (if Advances(step) then 1 else 0)
  {
    LoadLaw(s, step);
  }

  // ----- the server gets rid of what it has in hand -----

  lemma HandRankFalls(s: State, step: Step)
    requires ServerOk(s) && Enabled(s, step) && Quiet(step) && OfServer(step) && !Handless(s.pc)
    ensures HandRank(Apply(s, step).pc, |s.workers|) < HandRank(s.pc, |s.workers|)
  {
  }

  lemma WorkKeepsHand(s: State, step: Step)
    requires Enabled(s, step) && !OfServer(step)
    ensures Apply(s, step).pc == s.pc && Apply(s, step).batch == s.batch
  {
  }

  ghost function HandChase(r: Run, n: nat): Chase {
    Chase((k: nat) => !Handless(r.state(k).pc), (k: nat) => Handless(r.state(k).pc), (k: nat) => OfServer(r.step(k)),
          (k: nat) => HandRank(r.state(k).pc, n), (k: nat) => 0)
  }

  lemma HandStep(r: Run, n: nat, k: nat)
    requires Follows(r, k) && Sound(r, n, k)
    ensures Steps(HandChase(r, n), k)
  {
    var s, step := r.state(k), r.step(k);
    if !OfServer(step) {
      WorkKeepsHand(s, step);
    } else if !Handless(s.pc) {
      HandRankFalls(s, step);
    }
  }

  lemma BecomesHandless(r: Run, n: nat) returns (j: nat)
    requires QuietForever(r) && Fair(r) && Sound(r, n, 0)
    ensures Handless(r.state(j).pc)
  {
    if Handless(r.state(0).pc) {
      j := 0;
    } else {
      var c := HandChase(r, n);
      forall k: nat
        ensures Steps(c, k) && Comes(c, k)
      {
        SoundForever(r, n, k);
        assert Follows(r, k);
        HandStep(r, n, k);
        ServerComes(r, k);
        var t: nat :| k <= t && OfServer(r.step(t));
        assert c.mine(t);
      }
      j := Met(c, 0);
    }
  }

  lemma ServerComes(r: Run, k: nat)
    requires Fair(r)
    ensures exists t: nat :: k <= t && OfServer(r.step(t))
  {
    assert ServerTurn(r, k);
  }

  // ----- a status is reaped -----

  lemma StatusesStay(s: State, step: Step, i: nat)
    requires Enabled(s, step) && step.Work? && i < |s.workers| && s.workers[i].statuses != []
    ensures i < |Apply(s, step).workers| && Apply(s, step).workers[i].statuses != []
  {
  }

  lemma ScanRankFalls(s: State, step: Step, i: nat)
    requires ServerOk(s) && Enabled(s, step) && Quiet(step) && OfServer(step) && Handless(s.pc)
    requires i < |s.workers| && s.workers[i].statuses != [] && !Advances(step)
    ensures var s', n := Apply(s, step), |s.workers|;
            && s'.workers == s.workers && ScanRank(s'.pc, n, i) <= ScanRank(s.pc, n, i)
            && (ScanRank(s'.pc, n, i) == ScanRank(s.pc, n, i) ==> |s'.batch| < |s.batch|)
  {
  }

  // load is what it was, and nothing but scanning is left to the server
  predicate Same(s: State, load: nat) {
    Handless(s.pc) && TotalLoad(s.workers) == load
  }

  predicate Less(s: State, load: nat) {
    Handless(s.pc) && TotalLoad(s.workers) < load
  }

  predicate HasStatus(s: State, i: nat) {
    i < |s.workers| && s.workers[i].statuses != []
  }

  ghost function StatusChase(r: Run, n: nat, i: nat, load: nat): Chase
    requires i < n
  {
    Chase((k: nat) => Same(r.state(k), load) && HasStatus(r.state(k), i), (k: nat) => Less(r.state(k), load),
          (k: nat) => OfServer(r.step(k)),
          (k: nat) => ScanRank(r.state(k).pc, n, i), (k: nat) => |r.state(k).batch|)
  }

  lemma StatusStep(r: Run, n: nat, i: nat, load: nat, k: nat)
    requires i < n && Follows(r, k) && Sound(r, n, k)
    ensures Steps(StatusChase(r, n, i, load), k)
  {
    var s, step := r.state(k), r.step(k);
    if Same(s, load) && HasStatus(s, i) {
      HandlessNext(s, step);
      if !OfServer(step) {
        WorkKeepsHand(s, step);
        StatusesStay(s, step, i);
      } else if !Advances(step) {
        ScanRankFalls(s, step, i);
      }
    }
  }

  lemma StatusReaped(r: Run, n: nat, k: nat, i: nat) returns (j: nat)
    requires QuietForever(r) && Fair(r) && Sound(r, n, 0) && i < n
    requires Same(r.state(k), LoadAt(r, k)) && HasStatus(r.state(k), i)
    ensures Less(r.state(j), LoadAt(r, k))
  {
    var c := StatusChase(r, n, i, LoadAt(r, k));
    forall m: nat
      ensures Steps(c, m) && Comes(c, m)
    {
      SoundForever(r, n, m);
      assert Follows(r, m);
      StatusStep(r, n, i, LoadAt(r, k), m);
      ServerComes(r, m);
      var t: nat :| m <= t && OfServer(r.step(t));
      assert c.mine(t);
    }
    j := Met(c, k);
  }

  // ----- a worker with a task goes on -----

  predicate Busy(w: Worker) {
    w.queue != [] || w.pc.Running?
  }

  // steps of others leave a busy worker as it is, but for its statuses
  ghost predicate SameWork(a: Worker, b: Worker) {
    a.pc == b.pc && a.queue == b.queue
  }

  lemma OthersLeave(s: State, step: Step, i: nat)
    requires Enabled(s, step) && Quiet(step) && !OfWorker(step, i) && Handless(s.pc) && i < |s.workers|
    ensures i < |Apply(s, step).workers| && SameWork(s.workers[i], Apply(s, step).workers[i])
  {
  }

  lemma BusyReady(s: State, i: nat)
    requires Inv(s) && Handless(s.pc) && i < |s.workers| && Busy(s.workers[i])
    ensures Ready(s.workers[i])
  {
    assert WorkerOk(s.tasks, s.pc, i, s.workers[i]);
  }

  lemma WorkerRankFalls(s: State, i: nat, act: Act)
    requires Inv(s) && Handless(s.pc) && i < |s.workers| && Busy(s.workers[i]) && CanAct(s.workers[i], act)
    ensures var w, w' := s.workers[i], Acted(s.workers[i], act);
            act.Pop? || act.Finish? || (Busy(w') && WorkerRank(w'.pc) < WorkerRank(w.pc))
  {
    assert WorkerOk(s.tasks, s.pc, i, s.workers[i]);
  }

  predicate HasWork(s: State, i: nat) {
    i < |s.workers| && Busy(s.workers[i])
  }

  function RankOf(s: State, i: nat): nat {
    if i < |s.workers| then WorkerRank(s.workers[i].pc) else 0
  }

  ghost function WorkChase(r: Run, i: nat, load: nat): Chase {
    Chase((k: nat) => Same(r.state(k), load) && HasWork(r.state(k), i), (k: nat) => Less(r.state(k), load),
          (k: nat) => OfWorker(r.step(k), i), (k: nat) => RankOf(r.state(k), i), (k: nat) => 0)
  }

  lemma WorkStep(r: Run, n: nat, i: nat, load: nat, k: nat)
    requires Follows(r, k) && Sound(r, n, k)
    ensures Steps(WorkChase(r, i, load), k)
  {
    var s, step := r.state(k), r.step(k);
    if Same(s, load) && HasWork(s, i) {
      HandlessNext(s, step);
      if OfWorker(step, i) {
        WorkerRankFalls(s, i, step.act);
      } else {
        OthersLeave(s, step, i);
      }
    }
  }

  lemma WorkerComes(r: Run, n: nat, i: nat, load: nat, k: nat)
    requires QuietForever(r) && Fair(r) && Sound(r, n, 0) && i < n
    ensures Comes(WorkChase(r, i, load), k)
  {
    assert WorkerTurn(r, i, k);
    var t: nat :| k <= t && (OfWorker(r.step(t), i) || (i < |r.state(t).workers| && !Ready(r.state(t).workers[i])));
    var c := WorkChase(r, i, load);
    if !OfWorker(r.step(t), i) && Same(r.state(t), load) && HasWork(r.state(t), i) {
      SoundForever(r, n, t);
      BusyReady(r.state(t), i);
    }
    assert c.mine(t) || !c.holds(t);
  }

  lemma WorkDone(r: Run, n: nat, k: nat, i: nat) returns (j: nat)
    requires QuietForever(r) && Fair(r) && Sound(r, n, 0) && i < n
    requires Same(r.state(k), LoadAt(r, k)) && HasWork(r.state(k), i)
    ensures Less(r.state(j), LoadAt(r, k))
  {
    var c := WorkChase(r, i, LoadAt(r, k));
    forall m: nat
      ensures Steps(c, m) && Comes(c, m)
    {
      SoundForever(r, n, m);
      assert Follows(r, m);
      WorkStep(r, n, i, LoadAt(r, k), m);
      WorkerComes(r, n, i, LoadAt(r, k), m);
    }
    j := Met(c, k);
  }

  // ----- the load falls to zero and stays there -----

  lemma LoadFalls(r: Run, n: nat, k: nat) returns (j: nat)
    requires QuietForever(r) && Fair(r) && Sound(r, n, 0) && Handless(r.state(k).pc) && LoadAt(r, k) > 0
    ensures Less(r.state(j), LoadAt(r, k))
  {
    SoundForever(r, n, k);
    var i := TotalLoadWitness(r.state(k).workers);
    if r.state(k).workers[i].statuses != [] {
      j := StatusReaped(r, n, k, i);
    } else {
      j := WorkDone(r, n, k, i);
    }
  }

  lemma LoadGone(r: Run, n: nat, k: nat) returns (j: nat)
    requires QuietForever(r) && Fair(r) && Sound(r, n, 0) && Handless(r.state(k).pc)
    ensures LoadAt(r, j) == 0 && Handless(r.state(j).pc)
    decreases LoadAt(r, k)
  {
    if LoadAt(r, k) == 0 {
      j := k;
    } else {
      var m := LoadFalls(r, n, k);
      j := LoadGone(r, n, m);
    }
  }

  // nothing left to reap either
  predicate Resting(s: State) {
    TotalLoad(s.workers) == 0 && (s.pc.Scan? || s.pc.Handle?)
  }

  lemma RestingNext(s: State, step: Step)
    requires Enabled(s, step) && Quiet(step) && Resting(s)
    ensures Resting(Apply(s, step))
  {
    HandlessNext(s, step);
    if s.pc.Scan? && s.pc.i < |s.workers| {
      TotalLoadZero(s.workers, s.pc.i);
    }
  }

  lemma RestingForever(r: Run, n: nat, k: nat, j: nat)
    requires QuietForever(r) && Sound(r, n, 0) && Resting(r.state(k)) && k <= j
    ensures Resting(r.state(j)) && r.state(j).tasks.Keys == r.state(j).armed
  {
    var resting := (i: nat) => Resting(r.state(i));
    forall i: nat | resting(i)
      ensures resting(i + 1)
    {
      assert Follows(r, i);
      RestingNext(r.state(i), r.step(i));
    }
    Always(resting, k, j);
    SoundForever(r, n, j);
    AllArmed(r.state(j));
  }

  ghost function RestChase(r: Run): Chase {
    Chase((k: nat) => Same(r.state(k), 0) && r.state(k).pc.Reap?, (k: nat) => Resting(r.state(k)),
          (k: nat) => OfServer(r.step(k)), (k: nat) => 0, (k: nat) => 0)
  }

  lemma RestStep(r: Run, k: nat)
    requires Follows(r, k)
    ensures Steps(RestChase(r), k)
  {
    var s, step := r.state(k), r.step(k);
    if Same(s, 0) && s.pc.Reap? {
      HandlessNext(s, step);
      if !OfServer(step) {
        WorkKeepsHand(s, step);
      }
    }
  }

  lemma ComesToRest(r: Run, k: nat) returns (j: nat)
    requires QuietForever(r) && Fair(r) && Same(r.state(k), 0)
    ensures Resting(r.state(j))
  {
    if r.state(k).pc.Reap? {
      var c := RestChase(r);
      forall m: nat
        ensures Steps(c, m) && Comes(c, m)
      {
        assert Follows(r, m);
        RestStep(r, m);
        ServerComes(r, m);
        var t: nat :| m <= t && OfServer(r.step(t));
        assert c.mine(t);
      }
      j := Met(c, k);
    } else {
      j := k;
    }
  }

  // every fair run from a reachable state, without accept and read events, comes to a point from which on
  // no work is in flight and every task in the map is armed
  lemma FairRunDrains(r: Run) returns (k: nat)
    requires Reachable(r.state(0)) && Calm(r.state(0).batch) && QuietForever(r) && Fair(r)
    ensures forall j: nat :: k <= j ==> LoadAt(r, j) == 0 && r.state(j).tasks.Keys == r.state(j).armed
  {
    ReachableInv(r.state(0));
    var n := |r.state(0).workers|;
    var a := BecomesHandless(r, n);
    var b := LoadGone(r, n, a);
    k := ComesToRest(r, b);
    forall j: nat | k <= j
      ensures LoadAt(r, j) == 0 && r.state(j).tasks.Keys == r.state(j).armed
    {
      RestingForever(r, n, k, j);
    }
  }
}

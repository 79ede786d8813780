/**
  What the dispatcher is for: a request reaches the first worker whose mutex can be had, it is given up
  only after every worker's mutex was found taken, the worker's verdict decides what becomes of the
  connection, and no connection is lost otherwise.
*/
module DispatchService {
  import opened Dispatch

  // ----- runs -----

  lemma RunCons(s: State, step: Step, rest: seq<Step>)
    requires Enabled(s, step) && Runs(Apply(s, step), rest)
    ensures Runs(s, [step] + rest) && Exec(s, [step] + rest) == Exec(Apply(s, step), rest)
  {
    assert ([step] + rest)[1..] == rest;
  }

  lemma {:induction false} RunAppend(s: State, a: seq<Step>, b: seq<Step>)
    requires Runs(s, a) && Runs(Exec(s, a), b)
    ensures Runs(s, a + b) && Exec(s, a + b) == Exec(Exec(s, a), b)
    decreases |a|
  {
    if a == [] {
      assert a + b == b;
    } else {
      RunAppend(Apply(s, a[0]), a[1..], b);
      RunCons(s, a[0], a[1..] + b);
      assert a + b == [a[0]] + (a[1..] + b);
    }
  }

  lemma {:induction false} RunSplit(s: State, a: seq<Step>, b: seq<Step>)
    requires Runs(s, a + b)
    ensures Runs(s, a) && Runs(Exec(s, a), b) && Exec(s, a + b) == Exec(Exec(s, a), b)
    decreases |a|
  {
    if a == [] {
      assert a + b == b;
    } else {
      assert (a + b)[1..] == a[1..] + b;
      RunSplit(Apply(s, a[0]), a[1..], b);
    }
  }

  lemma RunOne(s: State, step: Step)
    requires Enabled(s, step)
    ensures Runs(s, [step]) && Exec(s, [step]) == Apply(s, step)
  {
    RunCons(s, step, []);
    assert [step] + [] == [step];
  }

  // the state after the first k steps
  function After(s: State, steps: seq<Step>, k: nat): State
    requires Runs(s, steps) && k <= |steps|
    decreases k
  {
    if k == 0 then s else After(Apply(s, steps[0]), steps[1..], k - 1)
  }

  // ----- a request reaches a worker -----

  // the first worker whose mutex is free
  predicate FirstFree(ws: seq<Worker>, j: nat) {
    j < |ws| && ws[j].lock.Free? && forall i :: 0 <= i < j ==> !ws[i].lock.Free?
  }

  function Asking(n: nat): (steps: seq<Step>)
    ensures |steps| == n
  {
    seq(n, _ => STryBusy)
  }

  function Request(j: nat): seq<Step> {
    [SRead] + (Asking(j) + [STryOk, SPush, SNotify, SUnlock])
  }

  // nothing is changed by the server but what it holds of worker j
  ghost predicate OnlyWorker(s: State, s': State, j: nat) {
    && |s'.workers| == |s.workers| && s'.tasks == s.tasks && s'.freed == s.freed && s'.next == s.next
    && forall i :: 0 <= i < |s.workers| && i != j ==> s'.workers[i] == s.workers[i]
  }

  // the task is the last one in the worker's queue, the mutex is free again, and a sleeper is woken
  predicate Given(w: Worker, w': Worker, t: Task) {
    && w'.queue == w.queue + [t] && w'.pushed == w.pushed + [t.fd] && w'.lock.Free?
    && w'.pc == (if w.pc.Asleep? then Woken else w.pc)
    && w'.statuses == w.statuses && w'.reaped == w.reaped
  }

  lemma {:induction false} AsksOn(s: State, j: nat)
    requires s.pc.Try? && s.pc.i <= j <= |s.workers|
    requires forall i :: s.pc.i <= i < j ==> !s.workers[i].lock.Free?
    ensures Runs(s, Asking(j - s.pc.i)) && Exec(s, Asking(j - s.pc.i)) == s.(pc := Try(s.pc.task, j))
    decreases j - s.pc.i
  {
    if s.pc.i < j {
      var s' := s.(pc := Try(s.pc.task, s.pc.i + 1));
      assert Apply(s, STryBusy) == s';
      AsksOn(s', j);
      RunCons(s, STryBusy, Asking(j - s'.pc.i));
      assert [STryBusy] + Asking(j - s'.pc.i) == Asking(j - s.pc.i);
    }
  }

  lemma HandsOver(s: State)
    requires s.pc.Try? && s.pc.i < |s.workers| && s.workers[s.pc.i].lock.Free?
    ensures var steps := [STryOk, SPush, SNotify, SUnlock];
            && Runs(s, steps) && Exec(s, steps).pc == Handle && Exec(s, steps).batch == s.batch
            && Exec(s, steps).armed == s.armed && OnlyWorker(s, Exec(s, steps), s.pc.i)
            && Given(s.workers[s.pc.i], Exec(s, steps).workers[s.pc.i], s.pc.task)
  {
    var s1 := Apply(s, STryOk);
    var s2 := Apply(s1, SPush);
    var s3 := Apply(s2, SNotify);
    RunOne(s3, SUnlock);
    RunCons(s2, SNotify, [SUnlock]);
    RunCons(s1, SPush, [SNotify] + [SUnlock]);
    RunCons(s, STryOk, [SPush] + ([SNotify] + [SUnlock]));
    assert [STryOk] + ([SPush] + ([SNotify] + [SUnlock])) == [STryOk, SPush, SNotify, SUnlock];
  }

  // a read event at hand: the server can ask the workers in turn, and the first one with a free mutex has
  // the task of the descriptor in its queue
  lemma RequestReachesWorker(s: State, fd: Fd, j: nat)
    requires Inv(s) && s.pc == Handle && s.batch != [] && s.batch[0] == Read(fd) && FirstFree(s.workers, j)
    ensures fd in s.tasks && Runs(s, Request(j))
    ensures var s' := Exec(s, Request(j));
            && s'.pc == Handle && s'.batch == s.batch[1..] && s'.armed == s.armed - {fd}
            && OnlyWorker(s, s', j) && Given(s.workers[j], s'.workers[j], s.tasks[fd])
  {
    ArmedIsMapped(s, fd);
    var s1 := Apply(s, SRead);
    AsksOn(s1, j);
    var s2 := s1.(pc := Try(s1.pc.task, j));
    HandsOver(s2);
    RunAppend(s1, Asking(j), [STryOk, SPush, SNotify, SUnlock]);
    RunCons(s, SRead, Asking(j) + [STryOk, SPush, SNotify, SUnlock]);
  }

  // ----- a request is given up only when no worker can be had -----

  function Busies(steps: seq<Step>): nat {
    if steps == [] then 0 else (if steps[0].STryBusy? then 1 else 0) + Busies(steps[1..])
  }

  predicate NoRead(steps: seq<Step>) {
    forall k :: 0 <= k < |steps| ==> !steps[k].SRead?
  }

  lemma {:induction false} NoWayBack(s: State, steps: seq<Step>)
    requires Runs(s, steps) && NoRead(steps) && !s.pc.Try?
    ensures !Exec(s, steps).pc.Try?
    decreases |steps|
  {
    if steps != [] {
      assert !Apply(s, steps[0]).pc.Try?;
      assert forall k :: 0 <= k < |steps[1..]| ==> steps[1..][k] == steps[k + 1];
      NoWayBack(Apply(s, steps[0]), steps[1..]);
    }
  }

  // step k of the run asks the next worker, whose mutex is taken at that moment, or is a worker's own
  ghost predicate AsksNext(s: State, steps: seq<Step>, k: nat, asked: nat)
    requires Runs(s, steps) && k < |steps|
  {
    if steps[k].STryBusy? then
      var ws, i := After(s, steps, k).workers, asked + Busies(steps[..k]);
      i < |ws| && !ws[i].lock.Free?
    else steps[k].Work?
  }

  // from the moment the server is about to ask worker s.pc.i, until it finds that there is no other
  lemma {:induction false} AskedInVain(s: State, steps: seq<Step>)
    requires s.pc.Try? && s.pc.i <= |s.workers| && Runs(s, steps) && NoRead(steps)
    requires Enabled(Exec(s, steps), SNoFreeThread)
    ensures s.pc.i + Busies(steps) == |s.workers|
    ensures forall k: nat :: k < |steps| ==> AsksNext(s, steps, k, s.pc.i)
    ensures var s' := Exec(s, steps);
            s'.pc == Try(s.pc.task, |s.workers|) && s'.tasks == s.tasks && s'.freed == s.freed && s'.batch == s.batch
    decreases |steps|
  {
    if steps != [] {
      var s1, rest := Apply(s, steps[0]), steps[1..];
      assert forall k :: 0 <= k < |rest| ==> rest[k] == steps[k + 1];
      if !s1.pc.Try? {
        NoWayBack(s1, rest);
      }
      AskedInVain(s1, rest);
      forall k: nat | k < |steps|
        ensures AsksNext(s, steps, k, s.pc.i)
      {
        if k > 0 {
          assert AsksNext(s1, rest, k - 1, s1.pc.i);
          assert steps[..k][1..] == rest[..k - 1];
        }
      }
    }
  }

  // between a read event and the moment a request is given up for want of a worker, whatever the workers do
  // meanwhile: the server has asked each of them once, in turn, and found its mutex taken; only then is the
  // task deleted
  lemma GivenUpWhenAllBusy(s: State, fd: Fd, between: seq<Step>)
    requires Inv(s) && s.pc == Handle && s.batch != [] && s.batch[0] == Read(fd)
    requires Runs(s, [SRead] + (between + [SNoFreeThread])) && NoRead(between)
    ensures Busies(between) == |s.workers|
    ensures var s1 := Apply(s, SRead);
            Runs(s1, between) && forall k: nat :: k < |between| ==> AsksNext(s1, between, k, 0)
    ensures var s' := Exec(s, [SRead] + (between + [SNoFreeThread]));
            fd in s.tasks && s'.tasks == s.tasks - {fd} && s'.freed == s.freed + [s.tasks[fd].id]
  {
    ArmedIsMapped(s, fd);
    RunSplit(s, [SRead], between + [SNoFreeThread]);
    RunOne(s, SRead);
    var s1 := Apply(s, SRead);
    RunSplit(s1, between, [SNoFreeThread]);
    AskedInVain(s1, between);
    RunOne(Exec(s1, between), SNoFreeThread);
  }

  // ----- the worker's verdict -----

  function Works(j: nat, acts: seq<Act>): (steps: seq<Step>)
    ensures |steps| == |acts|
  {
    seq(|acts|, k requires 0 <= k < |acts| => Work(j, acts[k]))
  }

  predicate CanActAll(w: Worker, acts: seq<Act>)
    decreases |acts|
  {
    acts == [] || (CanAct(w, acts[0]) && CanActAll(Acted(w, acts[0]), acts[1..]))
  }

  function ActedAll(w: Worker, acts: seq<Act>): Worker
    requires CanActAll(w, acts)
    decreases |acts|
  {
    if acts == [] then w else ActedAll(Acted(w, acts[0]), acts[1..])
  }

  lemma {:induction false} WorkerRuns(s: State, j: nat, acts: seq<Act>)
    requires j < |s.workers| && CanActAll(s.workers[j], acts)
    ensures Runs(s, Works(j, acts)) && Exec(s, Works(j, acts)) == Put(s, j, ActedAll(s.workers[j], acts))
    decreases |acts|
  {
    if acts == [] {
      assert Put(s, j, s.workers[j]) == s;
    } else {
      var s1 := Apply(s, Work(j, acts[0]));
      WorkerRuns(s1, j, acts[1..]);
      RunCons(s, Work(j, acts[0]), Works(j, acts[1..]));
      assert [Work(j, acts[0])] + Works(j, acts[1..]) == Works(j, acts);
      assert Put(s1, j, ActedAll(s1.workers[j], acts[1..])) == Put(s, j, ActedAll(s.workers[j], acts));
    }
  }

  // how a worker with a free mutex comes to look at its queue
  function Wakes(pc: WorkerPc): seq<Act> {
    match pc
    case Woken => [Relock]
    case Notifying => [Signal, Lock]
    case _ => [Lock]
  }

  // ... runs its only task and starts over
  function Serving(pc: WorkerPc, ok: bool): seq<Act> {
    Wakes(pc) + [Pop, Finish(ok), Release, Signal]
  }

  // the worker has a task to run, and has reported everything else
  predicate HasOnly(w: Worker, t: Task) {
    w.queue == [t] && w.statuses == [] && w.lock.Free? && (w.pc.AtLock? || w.pc.Woken? || w.pc.Notifying?)
  }

  lemma {:induction false} ActsAppend(w: Worker, a: seq<Act>, b: seq<Act>)
    requires CanActAll(w, a) && CanActAll(ActedAll(w, a), b)
    ensures CanActAll(w, a + b) && ActedAll(w, a + b) == ActedAll(ActedAll(w, a), b)
    decreases |a|
  {
    if a == [] {
      assert a + b == b;
    } else {
      assert (a + b)[1..] == a[1..] + b;
      ActsAppend(Acted(w, a[0]), a[1..], b);
    }
  }

  lemma ActsOne(w: Worker, act: Act, rest: seq<Act>)
    requires CanAct(w, act) && CanActAll(Acted(w, act), rest)
    ensures CanActAll(w, [act] + rest) && ActedAll(w, [act] + rest) == ActedAll(Acted(w, act), rest)
  {
    assert ([act] + rest)[1..] == rest;
  }

  lemma Woke(w: Worker, t: Task)
    requires HasOnly(w, t)
    ensures CanActAll(w, Wakes(w.pc)) && ActedAll(w, Wakes(w.pc)) == w.(lock := ByWorker, pc := Checking)
  {
    match w.pc
    case Notifying =>
      var w1 := Acted(w, Signal);
      ActsOne(w1, Lock, []);
      ActsOne(w, Signal, [Lock] + []);
      assert [Signal] + ([Lock] + []) == Wakes(w.pc);
    case Woken =>
      ActsOne(w, Relock, []);
    case _ =>
      ActsOne(w, Lock, []);
  }

  lemma Ran(w: Worker, t: Task, ok: bool)
    requires w.pc.Checking? && w.queue == [t] && w.statuses == []
    ensures var acts := [Pop, Finish(ok), Release, Signal];
            && CanActAll(w, acts)
            && ActedAll(w, acts) == w.(lock := Free, pc := AtLock, queue := [], statuses := [Status(t.fd, ok)])
  {
    var w1 := Acted(w, Pop);
    var w2 := Acted(w1, Finish(ok));
    var w3 := Acted(w2, Release);
    ActsOne(w3, Signal, []);
    ActsOne(w2, Release, [Signal] + []);
    ActsOne(w1, Finish(ok), [Release] + ([Signal] + []));
    ActsOne(w, Pop, [Finish(ok)] + ([Release] + ([Signal] + [])));
    assert [Pop] + ([Finish(ok)] + ([Release] + ([Signal] + []))) == [Pop, Finish(ok), Release, Signal];
  }

  lemma Served(w: Worker, t: Task, ok: bool)
    requires HasOnly(w, t)
    ensures CanActAll(w, Serving(w.pc, ok))
    ensures ActedAll(w, Serving(w.pc, ok)) ==
            w.(lock := Free, pc := AtLock, queue := [], statuses := [Status(t.fd, ok)])
  {
    Woke(w, t);
    Ran(ActedAll(w, Wakes(w.pc)), t, ok);
    ActsAppend(w, Wakes(w.pc), [Pop, Finish(ok), Release, Signal]);
  }

  // ----- the server collects it -----

  function Scanning(n: nat): (steps: seq<Step>)
    ensures |steps| == n
  {
    seq(n, _ => SScanNext)
  }

  lemma {:induction false} ScansOn(s: State, j: nat)
    requires s.pc.Scan? && s.pc.i <= j <= |s.workers|
    requires forall i :: s.pc.i <= i < j ==> s.workers[i].statuses == []
    ensures Runs(s, Scanning(j - s.pc.i)) && Exec(s, Scanning(j - s.pc.i)) == s.(pc := Scan(j))
    decreases j - s.pc.i
  {
    if s.pc.i < j {
      var s' := s.(pc := Scan(s.pc.i + 1));
      assert Apply(s, SScanNext) == s';
      ScansOn(s', j);
      RunCons(s, SScanNext, Scanning(j - s'.pc.i));
      assert [SScanNext] + Scanning(j - s'.pc.i) == Scanning(j - s.pc.i);
    }
  }

  function Collecting(j: nat): seq<Step> {
    [SBatchDone] + (Scanning(j) + [SPopStatus, SReap(true)])
  }

  // the connection is armed again, or deleted
  ghost predicate Closed(s: State, s': State, fd: Fd, ok: bool)
    requires fd in s.tasks
  {
    if ok then s'.armed == s.armed + {fd} && s'.tasks == s.tasks && s'.freed == s.freed
    else s'.armed == s.armed - {fd} && s'.tasks == s.tasks - {fd} && s'.freed == s.freed + [s.tasks[fd].id]
  }

  lemma Collected(s: State, j: nat, fd: Fd, ok: bool)
    requires s.pc == Handle && s.batch == [] && j < |s.workers| && fd in s.tasks && fd !in s.armed
    requires s.workers[j].statuses == [Status(fd, ok)] && forall i :: 0 <= i < j ==> s.workers[i].statuses == []
    ensures Runs(s, Collecting(j))
    ensures var s' := Exec(s, Collecting(j));
            && s'.pc == Scan(j) && s'.batch == [] && Closed(s, s', fd, ok)
            && s'.workers == s.workers[j := StatusTaken(s.workers[j])]
  {
    var s1 := Apply(s, SBatchDone);
    ScansOn(s1, j);
    var s2 := s1.(pc := Scan(j));
    var s3 := Apply(s2, SPopStatus);
    RunOne(s3, SReap(true));
    RunCons(s2, SPopStatus, [SReap(true)]);
    assert [SPopStatus] + [SReap(true)] == [SPopStatus, SReap(true)];
    RunAppend(s1, Scanning(j), [SPopStatus, SReap(true)]);
    RunCons(s, SBatchDone, Scanning(j) + [SPopStatus, SReap(true)]);
  }

  // ----- a whole visit -----

  function Visit(fd: Fd, j: nat, pc: WorkerPc, ok: bool): seq<Step> {
    [SEpollWait([Read(fd)])] +
        (Request(j) + (Works(j, Serving(if pc.Asleep? then Woken else pc, ok)) + Collecting(j)))
  }

  // worker j is the first one with a free mutex and has nothing to do; the queues up to its own are collected
  predicate ReadyFor(s: State, fd: Fd, j: nat) {
    && s.pc == Scan(|s.workers|) && fd in s.armed && FirstFree(s.workers, j) && s.workers[j].queue == []
    && forall i :: 0 <= i <= j ==> s.workers[i].statuses == []
  }

  // worker j has been given the task
  ghost predicate GivenOnly(s: State, j: nat, t: Task) {
    && s.pc == Handle && s.batch == [] && j < |s.workers| && HasOnly(s.workers[j], t)
    && t.fd in s.tasks && t.fd !in s.armed && forall i :: 0 <= i < j ==> s.workers[i].statuses == []
  }

  // every other worker is as before, and this one has reported the task and nothing else
  ghost predicate ReportedOnly(s: State, s': State, j: nat, fd: Fd)
    requires j < |s.workers|
  {
    && |s'.workers| == |s.workers|
    && s'.workers[j].queue == [] && s'.workers[j].statuses == []
    && s'.workers[j].reaped == s.workers[j].reaped + [fd]
    && forall i :: 0 <= i < |s.workers| && i != j ==> s'.workers[i] == s.workers[i]
  }

  lemma RunsAndReports(s: State, j: nat, t: Task, ok: bool)
    requires GivenOnly(s, j, t)
    ensures var steps := Works(j, Serving(s.workers[j].pc, ok)) + Collecting(j);
            && Runs(s, steps) && Exec(s, steps).pc == Scan(j) && Exec(s, steps).batch == []
            && Closed(s, Exec(s, steps), t.fd, ok) && ReportedOnly(s, Exec(s, steps), j, t.fd)
  {
    var w := s.workers[j];
    Served(w, t, ok);
    var acts := Serving(w.pc, ok);
    WorkerRuns(s, j, acts);
    var s' := Exec(s, Works(j, acts));
    Collected(s', j, t.fd, ok);
    RunAppend(s, Works(j, acts), Collecting(j));
  }

  lemma ReadyIsGiven(s: State, fd: Fd, j: nat)
    requires Inv(s) && ReadyFor(s, fd, j)
    ensures var s1 := Apply(s, SEpollWait([Read(fd)]));
            && fd in s.tasks && Runs(s1, Request(j))
            && var s2 := Exec(s1, Request(j));
               && s2.armed == s.armed - {fd} && OnlyWorker(s, s2, j) && GivenOnly(s2, j, s.tasks[fd])
               && s2.workers[j].pc == (if s.workers[j].pc.Asleep? then Woken else s.workers[j].pc)
               && s2.workers[j].reaped == s.workers[j].reaped && s.tasks[fd].fd == fd
  {
    var s1 := Apply(s, SEpollWait([Read(fd)]));
    StepInv(s, SEpollWait([Read(fd)]));
    RequestReachesWorker(s1, fd, j);
    assert WorkerOk(s.tasks, s.pc, j, s.workers[j]);
  }

  // from an armed connection that becomes readable to the same connection armed again, if the worker says so,
  // or else deleted
  lemma VisitRuns(s: State, fd: Fd, j: nat, ok: bool)
    requires Inv(s) && ReadyFor(s, fd, j)
    ensures fd in s.tasks && Runs(s, Visit(fd, j, s.workers[j].pc, ok))
    ensures var s' := Exec(s, Visit(fd, j, s.workers[j].pc, ok));
            && s'.pc == Scan(j) && s'.batch == []
            && ReportedOnly(s, s', j, fd)
            && if ok then s'.armed == s.armed && s'.tasks == s.tasks && s'.freed == s.freed
               else s'.armed == s.armed - {fd} && s'.tasks == s.tasks - {fd} && s'.freed == s.freed + [s.tasks[fd].id]
  {
    var s1 := Apply(s, SEpollWait([Read(fd)]));
    ReadyIsGiven(s, fd, j);
    var s2 := Exec(s1, Request(j));
    RunsAndReports(s2, j, s.tasks[fd], ok);
    var rest := Works(j, Serving(s2.workers[j].pc, ok)) + Collecting(j);
    RunAppend(s1, Request(j), rest);
    RunCons(s, SEpollWait([Read(fd)]), Request(j) + rest);
  }

  // ----- what every run keeps account of -----

  // a connection is accepted and armed
  function Arrives(step: Step): nat {
    if step.SAccept? && step.armOk then 1 else 0
  }

  function Arrivals(steps: seq<Step>): nat {
    if steps == [] then 0 else Arrives(steps[0]) + Arrivals(steps[1..])
  }

  // every connection that was ever accepted is in the map or was deleted, and not both
  lemma {:induction false} ConnectionsCounted(s: State, steps: seq<Step>)
    requires Inv(s) && Runs(s, steps)
    ensures var s' := Exec(s, steps);
            |s'.tasks| + |s'.freed| == |s.tasks| + |s.freed| + Arrivals(steps)
    decreases |steps|
  {
    if steps != [] {
      OneCounted(s, steps[0]);
      StepInv(s, steps[0]);
      ConnectionsCounted(Apply(s, steps[0]), steps[1..]);
    }
  }

  lemma DeleteCounts(s: State, fd: Fd)
    requires fd in s.tasks
    ensures |Delete(s, fd).tasks| + |Delete(s, fd).freed| == |s.tasks| + |s.freed|
  {
    var tasks := s.tasks - {fd};
    assert tasks.Keys == s.tasks.Keys - {fd};
    assert |tasks.Keys| == |tasks| && |s.tasks.Keys| == |s.tasks|;
  }

  lemma ReapCounted(s: State, armOk: bool)
    requires Inv(s) && s.pc.Reap?
    ensures |Reaped(s, armOk).tasks| + |Reaped(s, armOk).freed| == |s.tasks| + |s.freed|
  {
    HandIsElsewhere(s, s.pc.st.fd);
    DeleteCounts(s.(pc := Scan(s.pc.i)), s.pc.st.fd);
  }

  lemma AcceptCounted(s: State, fd: Fd, armOk: bool)
    requires s.batch != [] && fd !in s.tasks
    ensures |Accepted(s, fd, armOk).tasks| == |s.tasks| + if armOk then 1 else 0
  {
  }

  lemma OneCounted(s: State, step: Step)
    requires Inv(s) && Enabled(s, step)
    ensures |Apply(s, step).tasks| + |Apply(s, step).freed| == |s.tasks| + |s.freed| + Arrives(step)
  {
    match step
    case SReap(armOk) => ReapCounted(s, armOk);
    case SAccept(fd, armOk) => AcceptCounted(s, fd, armOk);
    case STryError => DeleteCounts(s.(pc := Handle), s.pc.task.fd);
    case SNoFreeThread => DeleteCounts(s.(pc := Handle), s.pc.task.fd);
    case _ =>
  }

  // a request that found no worker, or a failing lock
  function GivesUp(step: Step): nat {
    if step.SNoFreeThread? || step.STryError? then 1 else 0
  }

  // a worker ends its task with failure
  function Fails(step: Step): nat {
    if step.Work? && step.act == Finish(false) then 1 else 0
  }

  // a connection that was to be kept cannot be armed
  function Refuses(s: State, step: Step): nat {
    if step == SReap(false) && s.pc.Reap? && s.pc.st.ok then 1 else 0
  }

  // all of these in a run
  function Reasons(s: State, steps: seq<Step>): nat
    requires Runs(s, steps)
    decreases |steps|
  {
    if steps == [] then 0
    else GivesUp(steps[0]) + Fails(steps[0]) + Refuses(s, steps[0]) + Reasons(Apply(s, steps[0]), steps[1..])
  }

  function Failed(q: seq<Status>): nat {
    if q == [] then 0 else Failed(q[..|q| - 1]) + (if q[|q| - 1].ok then 0 else 1)
  }

  function FailedIn(ws: seq<Worker>): nat {
    if ws == [] then 0 else FailedIn(ws[..|ws| - 1]) + Failed(ws[|ws| - 1].statuses)
  }

  // failures that the server has not acted on yet
  function FailedWaiting(s: State): nat {
    FailedIn(s.workers) + (if s.pc.Reap? && !s.pc.st.ok then 1 else 0)
  }

  lemma {:induction false} FailedFirst(q: seq<Status>)
    requires q != []
    ensures Failed(q) == (if q[0].ok then 0 else 1) + Failed(q[1..])
  {
    if |q| > 1 {
      FailedFirst(q[..|q| - 1]);
      assert q[..|q| - 1][1..] == q[1..][..|q| - 2];
    }
  }

  lemma {:induction false} FailedUpdate(ws: seq<Worker>, i: nat, w: Worker)
    requires i < |ws|
    ensures FailedIn(ws[i := w]) + Failed(ws[i].statuses) == FailedIn(ws) + Failed(w.statuses)
  {
    var n := |ws| - 1;
    if i == n {
      assert ws[i := w][..n] == ws[..n];
    } else {
      assert ws[i := w][..n] == ws[..n][i := w];
      FailedUpdate(ws[..n], i, w);
    }
  }

  lemma ActFailures(w: Worker, act: Act)
    requires CanAct(w, act)
    ensures Failed(Acted(w, act).statuses) == Failed(w.statuses) + if act == Finish(false) then 1 else 0
  {
    if act.Finish? {
      var q := Acted(w, act).statuses;
      assert q[..|q| - 1] == w.statuses;
    }
  }

  // in every run a connection is deleted once for each request given up, each failure reported to the server
  // and each connection that could not be armed again, and for nothing else
  lemma {:induction false} DeletionsExplained(s: State, steps: seq<Step>)
    requires Inv(s) && Runs(s, steps)
    ensures var s' := Exec(s, steps);
            |s'.freed| + FailedWaiting(s') == |s.freed| + FailedWaiting(s) + Reasons(s, steps)
    decreases |steps|
  {
    if steps != [] {
      OneExplained(s, steps[0]);
      StepInv(s, steps[0]);
      DeletionsExplained(Apply(s, steps[0]), steps[1..]);
    }
  }

  lemma SameStatuses(s: State, i: nat, w: Worker)
    requires i < |s.workers| && w.statuses == s.workers[i].statuses
    ensures FailedIn(Put(s, i, w).workers) == FailedIn(s.workers)
  {
    FailedUpdate(s.workers, i, w);
  }

  // one step adds to the account what it gives as a reason
  ghost predicate Explained(s: State, step: Step)
    requires Enabled(s, step)
  {
    var s' := Apply(s, step);
    |s'.freed| + FailedWaiting(s') ==
    |s.freed| + FailedWaiting(s) + (GivesUp(step) + Fails(step) + Refuses(s, step))
  }

  lemma PopExplained(s: State)
    requires Enabled(s, SPopStatus)
    ensures Explained(s, SPopStatus)
  {
    FailedFirst(s.workers[s.pc.i].statuses);
    FailedUpdate(s.workers, s.pc.i, StatusTaken(s.workers[s.pc.i]));
  }

  lemma ReapExplained(s: State, armOk: bool)
    requires Inv(s) && s.pc.Reap?
    ensures Explained(s, SReap(armOk))
  {
    HandIsElsewhere(s, s.pc.st.fd);
  }

  lemma WorkFailures(s: State, i: nat, act: Act)
    requires i < |s.workers| && CanAct(s.workers[i], act)
    ensures FailedIn(s.workers[i := Acted(s.workers[i], act)]) ==
            FailedIn(s.workers) + if act == Finish(false) then 1 else 0
  {
    ActFailures(s.workers[i], act);
    FailedUpdate(s.workers, i, Acted(s.workers[i], act));
  }

  lemma WorkExplained(s: State, i: nat, act: Act)
    requires i < |s.workers| && CanAct(s.workers[i], act)
    ensures Explained(s, Work(i, act))
  {
    WorkFailures(s, i, act);
    assert Apply(s, Work(i, act)) == s.(workers := s.workers[i := Acted(s.workers[i], act)]);
  }

  lemma HoldExplained(s: State, step: Step)
    requires Enabled(s, step) && (step.STryOk? || step.SPush? || step.SNotify? || step.SUnlock?)
    ensures Explained(s, step)
  {
    match step
    case STryOk => SameStatuses(s, s.pc.i, Locked(s).workers[s.pc.i]);
    case SPush => SameStatuses(s, s.pc.i, WithTask(s.workers[s.pc.i], s.pc.task));
    case SNotify => SameStatuses(s, s.pc.i, Notified(s).workers[s.pc.i]);
    case SUnlock => SameStatuses(s, s.pc.i, Unlocked(s).workers[s.pc.i]);
  }

  lemma GiveUpExplained(s: State, step: Step)
    requires Inv(s) && Enabled(s, step) && (step.STryError? || step.SNoFreeThread?)
    ensures Explained(s, step)
  {
  }

  lemma MoveExplained(s: State, step: Step)
    requires Enabled(s, step)
    requires match step
             case SScanNext => true case SEpollWait(_) => true case SBatchDone => true case SAcceptFails => true
             case SAccept(_, _) => true case SIgnore => true case SRead => true case STryBusy => true
             case _ => false
    ensures Explained(s, step)
  {
  }

  lemma OneExplained(s: State, step: Step)
    requires Inv(s) && Enabled(s, step)
    ensures Explained(s, step)
  {
    match step
    case Work(i, act) => WorkExplained(s, i, act);
    case SPopStatus => PopExplained(s);
    case SReap(armOk) => ReapExplained(s, armOk);
    case STryOk => HoldExplained(s, step);
    case SPush => HoldExplained(s, step);
    case SNotify => HoldExplained(s, step);
    case SUnlock => HoldExplained(s, step);
    case STryError => GiveUpExplained(s, step);
    case SNoFreeThread => GiveUpExplained(s, step);
    case _ => MoveExplained(s, step);
  }

  // ----- events -----

  function EventsFrom(steps: seq<Step>): seq<Event> {
    if steps == [] then [] else (if steps[0].SEpollWait? then steps[0].events else []) + EventsFrom(steps[1..])
  }

  // the event a step answers
  function Answers(step: Step, event: Event): bool {
    match step
    case SAccept(_, _) => event.Accept?
    case SAcceptFails => event.Accept?
    case SRead => event.Read?
    case SIgnore => event.Other?
    case _ => false
  }

  predicate OfEvent(step: Step) {
    step.SAccept? || step.SAcceptFails? || step.SRead? || step.SIgnore?
  }

  // what was answered, step by step
  function AnsweredBy(steps: seq<Step>): seq<Step> {
    if steps == [] then [] else (if OfEvent(steps[0]) then [steps[0]] else []) + AnsweredBy(steps[1..])
  }

  // each answer is of the kind of its event, and the rest of the events is at hand
  ghost predicate Matched(events: seq<Event>, answers: seq<Step>, after: seq<Event>) {
    && |events| == |answers| + |after| && events[|answers|..] == after
    && forall k :: 0 <= k < |answers| ==> Answers(answers[k], events[k])
  }

  // every event that epoll reports is answered once, in order, by a step of its kind, or still at hand
  ghost predicate InOrder(before: seq<Event>, steps: seq<Step>, after: seq<Event>) {
    Matched(before + EventsFrom(steps), AnsweredBy(steps), after)
  }

  lemma {:induction false} EventsAnswered(s: State, steps: seq<Step>)
    requires Inv(s) && Runs(s, steps)
    ensures InOrder(s.batch, steps, Exec(s, steps).batch)
    decreases |steps|
  {
    if steps != [] {
      OneAnswered(s, steps[0]);
      StepInv(s, steps[0]);
      EventsAnswered(Apply(s, steps[0]), steps[1..]);
      MoreAnswered(s.batch, Apply(s, steps[0]).batch, steps, Exec(s, steps).batch);
    }
  }

  // what a step does to the events at hand
  ghost predicate Takes(before: seq<Event>, step: Step, after: seq<Event>) {
    if OfEvent(step) then before != [] && Answers(step, before[0]) && after == before[1..]
    else if step.SEpollWait? then before == [] && after == step.events
    else after == before
  }

  lemma OneAnswered(s: State, step: Step)
    requires ServerOk(s) && Enabled(s, step)
    ensures Takes(s.batch, step, Apply(s, step).batch)
  {
  }

  lemma MatchedMore(event: Event, step: Step, events: seq<Event>, answers: seq<Step>, after: seq<Event>)
    requires Matched(events, answers, after) && Answers(step, event)
    ensures Matched([event] + events, [step] + answers, after)
  {
  }

  lemma TakeFirst(before: seq<Event>, events: seq<Event>)
    requires before != []
    ensures before + events == [before[0]] + (before[1..] + events)
  {
    assert before == [before[0]] + before[1..];
  }

  lemma MoreAnswered(before: seq<Event>, next: seq<Event>, steps: seq<Step>, after: seq<Event>)
    requires steps != [] && Takes(before, steps[0], next) && InOrder(next, steps[1..], after)
    ensures InOrder(before, steps, after)
  {
    var events, answers := EventsFrom(steps[1..]), AnsweredBy(steps[1..]);
    var arrived := if steps[0].SEpollWait? then steps[0].events else [];
    assert EventsFrom(steps) == arrived + events;
    if OfEvent(steps[0]) {
      assert [] + events == events;
      TakeFirst(before, events);
      MatchedMore(before[0], steps[0], next + events, answers, after);
    } else {
      assert before + (arrived + events) == next + events;
      assert [] + answers == answers;
    }
  }
}

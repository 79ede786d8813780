/**
  The dispatcher/worker protocol as a transition system.

  One server thread owns the map from socket descriptor to task, the epoll interest set and the
  batch of events still to be handled.  Each worker owns a mutex, a condition variable, a task queue
  and a status queue.  A step is one access to state that another thread can see; code of the server
  between two such accesses touches only the server's own map and epoll set and is part of one step.

  Assumptions on the environment, all visible in `Enabled`:
    - a push to or a pop from a status queue is one atomic step;
    - accept never returns a descriptor that is still in the map;
    - a descriptor is fixed for the life of its task (it is a component of `Task`);
    - the server name is "location", so an accepted connection always becomes a task;
    - one epoll batch names each registered descriptor at most once.
*/
module Dispatch {
  import opened Bags

  type Fd = int

  // `id` is the identity of the allocation, `fd` the descriptor of its socket
  datatype Task = Task(id: nat, fd: Fd)

  datatype Status = Status(fd: Fd, ok: bool)

  datatype Owner = Free | ByServer | ByWorker

  datatype WorkerPc =
    | AtLock                // about to call MutexLock
    | Checking              // holds the mutex, about to test the queue
    | Asleep                // inside MutexWait, not signalled
    | Woken                 // signalled (or spuriously woken), must take the mutex again
    | Running(task: Task)   // holds the mutex, inside BdxRunTask
    | Unlocking             // status pushed, about to call MutexUnlock
    | Notifying             // about to call MutexNotify

  // `pushed` and `reaped` record the whole history: descriptors ever pushed to this worker's
  // queue, and descriptors ever popped from its status queue
  datatype Worker = Worker(lock: Owner, pc: WorkerPc, queue: seq<Task>, statuses: seq<Status>,
                           pushed: seq<Fd>, reaped: seq<Fd>)

  datatype Event = Accept | Read(fd: Fd) | Other(fd: Fd)

  datatype ServerPc =
    | Scan(i: nat)                  // BdxServerGetFreeTask, at status queue i
    | Reap(i: nat, st: Status)      // holds a popped status of worker i
    | Handle                        // at the head of the event loop
    | Try(task: Task, i: nat)       // BdxServerPutTask, about to try the mutex of worker i
    | Push(task: Task, i: nat)      // holds the mutex of worker i, about to push
    | Notify(i: nat)
    | Unlock(i: nat)

  // `freed` records the identities of all deleted tasks, in order
  datatype State = State(tasks: map<Fd, Task>, armed: set<Fd>, batch: seq<Event>, pc: ServerPc,
                         workers: seq<Worker>, next: nat, freed: seq<nat>)

  // one step of CUserQueryWorkThreads::Core
  datatype Act = Lock | Sleep | SpuriousWake | Relock | Pop | Finish(ok: bool) | Release | Signal

  datatype Step =
    | Work(w: nat, act: Act)
    | SScanNext | SPopStatus | SReap(armOk: bool) | SEpollWait(events: seq<Event>) | SBatchDone
    | SAcceptFails | SAccept(fd: Fd, armOk: bool) | SIgnore | SRead
    | STryBusy | STryOk | STryError | SNoFreeThread | SPush | SNotify | SUnlock

  // ----- the transition system -----

  predicate EventsOf(events: seq<Event>, armed: set<Fd>) {
    && (forall k :: 0 <= k < |events| && !events[k].Accept? ==> events[k].fd in armed)
    && (forall j, k :: 0 <= j < k < |events| && !events[j].Accept? && !events[k].Accept? ==>
          events[j].fd != events[k].fd)
  }

  predicate CanAct(w: Worker, act: Act) {
    match act
    case Lock => w.pc.AtLock? && w.lock.Free?
    case Sleep => w.pc.Checking? && w.queue == []
    case SpuriousWake => w.pc.Asleep?
    case Relock => w.pc.Woken? && w.lock.Free?
    case Pop => w.pc.Checking? && w.queue != []
    case Finish(_) => w.pc.Running?
    case Release => w.pc.Unlocking?
    case Signal => w.pc.Notifying?
  }

  function Acted(w: Worker, act: Act): Worker
    requires CanAct(w, act)
  {
    match act
    case Lock => w.(lock := ByWorker, pc := Checking)
    case Sleep => w.(lock := Free, pc := Asleep)
    case SpuriousWake => w.(pc := Woken)
    case Relock => w.(lock := ByWorker, pc := Checking)
    case Pop => w.(pc := Running(w.queue[0]), queue := w.queue[1..])
    case Finish(ok) => w.(pc := Unlocking, statuses := w.statuses + [Status(w.pc.task.fd, ok)])
    case Release => w.(lock := Free, pc := Notifying)
    case Signal => w.(pc := AtLock)       // its own condition variable: nobody else waits on it
  }

  predicate Enabled(s: State, step: Step) {
    match step
    case Work(w, act) => w < |s.workers| && CanAct(s.workers[w], act)
    case SScanNext => s.pc.Scan? && s.pc.i < |s.workers| && s.workers[s.pc.i].statuses == []
    case SPopStatus => s.pc.Scan? && s.pc.i < |s.workers| && s.workers[s.pc.i].statuses != []
    case SReap(_) => s.pc.Reap?
    case SEpollWait(events) => s.pc.Scan? && s.pc.i == |s.workers| && EventsOf(events, s.armed)
    case SBatchDone => s.pc.Handle? && s.batch == []
    case SAcceptFails => s.pc.Handle? && s.batch != [] && s.batch[0].Accept?
    case SAccept(fd, _) => s.pc.Handle? && s.batch != [] && s.batch[0].Accept? && fd !in s.tasks
    case SIgnore => s.pc.Handle? && s.batch != [] && s.batch[0].Other?
    case SRead => s.pc.Handle? && s.batch != [] && s.batch[0].Read?
    case STryBusy => s.pc.Try? && s.pc.i < |s.workers| && !s.workers[s.pc.i].lock.Free?
    case STryOk => s.pc.Try? && s.pc.i < |s.workers| && s.workers[s.pc.i].lock.Free?
    case STryError => s.pc.Try? && s.pc.i < |s.workers|
    case SNoFreeThread => s.pc.Try? && s.pc.i == |s.workers|
    case SPush => s.pc.Push? && s.pc.i < |s.workers|
    case SNotify => s.pc.Notify? && s.pc.i < |s.workers|
    case SUnlock => s.pc.Unlock? && s.pc.i < |s.workers|
  }

  function Put(s: State, w: nat, worker: Worker): State
    requires w < |s.workers|
  {
    s.(workers := s.workers[w := worker])
  }

  // delete the task found under `fd` and erase its map entry
  function Delete(s: State, fd: Fd): State
    requires fd in s.tasks
  {
    s.(tasks := s.tasks - {fd}, freed := s.freed + [s.tasks[fd].id])
  }

  function PopStatus(s: State): State
    requires s.pc.Scan? && s.pc.i < |s.workers| && s.workers[s.pc.i].statuses != []
  {
    Put(s, s.pc.i, StatusTaken(s.workers[s.pc.i])).(pc := Reap(s.pc.i, s.workers[s.pc.i].statuses[0]))
  }

  function StatusTaken(w: Worker): Worker
    requires w.statuses != []
  {
    w.(statuses := w.statuses[1..], reaped := w.reaped + [w.statuses[0].fd])
  }

  function Reaped(s: State, armOk: bool): State
    requires s.pc.Reap?
  {
    var s' := s.(pc := Scan(s.pc.i));
    var fd := s.pc.st.fd;
    if fd !in s.tasks then s'                    // "can not find task"
    else if s.pc.st.ok && armOk then s'.(armed := s.armed + {fd})
    else Delete(s', fd)
  }

  function Accepted(s: State, fd: Fd, armOk: bool): State
    requires s.batch != []
  {
    var s' := s.(batch := s.batch[1..]);
    if armOk then s'.(armed := s.armed + {fd}, tasks := s.tasks[fd := Task(s.next, fd)], next := s.next + 1)
    else s'
  }

  function TakeRead(s: State): State
    requires s.batch != [] && s.batch[0].Read?
  {
    var fd := s.batch[0].fd;
    var s' := s.(batch := s.batch[1..]);
    if fd !in s.tasks then s'                    // "can not find [fd] Task"
    else s'.(armed := s.armed - {fd}, pc := Try(s.tasks[fd], 0))
  }

  function Locked(s: State): State
    requires s.pc.Try? && s.pc.i < |s.workers|
  {
    Put(s, s.pc.i, s.workers[s.pc.i].(lock := ByServer)).(pc := Push(s.pc.task, s.pc.i))
  }

  function Pushed(s: State): State
    requires s.pc.Push? && s.pc.i < |s.workers|
  {
    Put(s, s.pc.i, WithTask(s.workers[s.pc.i], s.pc.task)).(pc := Notify(s.pc.i))
  }

  function WithTask(w: Worker, t: Task): Worker {
    w.(queue := w.queue + [t], pushed := w.pushed + [t.fd])
  }

  function Notified(s: State): State
    requires s.pc.Notify? && s.pc.i < |s.workers|
  {
    var w := s.workers[s.pc.i];
    Put(s, s.pc.i, if w.pc.Asleep? then w.(pc := Woken) else w).(pc := Unlock(s.pc.i))
  }

  function Unlocked(s: State): State
    requires s.pc.Unlock? && s.pc.i < |s.workers|
  {
    Put(s, s.pc.i, s.workers[s.pc.i].(lock := Free)).(pc := Handle)
  }

  function Apply(s: State, step: Step): State
    requires Enabled(s, step)
  {
    match step
    case Work(w, act) => Put(s, w, Acted(s.workers[w], act))
    case SScanNext => s.(pc := Scan(s.pc.i + 1))
    case SPopStatus => PopStatus(s)
    case SReap(armOk) => Reaped(s, armOk)
    case SEpollWait(events) => s.(pc := Handle, batch := events)
    case SBatchDone => s.(pc := Scan(0))
    case SAcceptFails => s.(batch := s.batch[1..])
    case SAccept(fd, armOk) => Accepted(s, fd, armOk)
    case SIgnore => s.(batch := s.batch[1..])
    case SRead => TakeRead(s)
    case STryBusy => s.(pc := Try(s.pc.task, s.pc.i + 1))
    case STryOk => Locked(s)
    case STryError => GiveUp(s)
    case SNoFreeThread => GiveUp(s)
    case SPush => Pushed(s)
    case SNotify => Notified(s)
    case SUnlock => Unlocked(s)
  }

  // the failure branch of BdxServerReadEvent: the task in hand is deleted
  function GiveUp(s: State): State
    requires s.pc.Try?
  {
    var s' := s.(pc := Handle);
    if s.pc.task.fd in s.tasks then Delete(s', s.pc.task.fd) else s'
  }

  function Init(n: nat): State {
    State(map[], {}, [], Scan(0), seq(n, _ => Worker(Free, AtLock, [], [], [], [])), 0, [])
  }

  // a run is a list of steps, each enabled where it is taken
  predicate Runs(s: State, steps: seq<Step>)
    decreases |steps|
  {
    steps == [] || (Enabled(s, steps[0]) && Runs(Apply(s, steps[0]), steps[1..]))
  }

  function Exec(s: State, steps: seq<Step>): State
    requires Runs(s, steps)
    decreases |steps|
  {
    if steps == [] then s else Exec(Apply(s, steps[0]), steps[1..])
  }

  ghost predicate Reachable(s: State) {
    exists n: nat, steps: seq<Step> :: Runs(Init(n), steps) && Exec(Init(n), steps) == s
  }

  // ----- where a descriptor can be -----

  function Fds(q: seq<Task>): (r: seq<Fd>) {
    seq(|q|, k requires 0 <= k < |q| => q[k].fd)
  }

  function StatusFds(q: seq<Status>): (r: seq<Fd>) {
    seq(|q|, k requires 0 <= k < |q| => q[k].fd)
  }

  function Held(w: Worker): seq<Fd> {
    if w.pc.Running? then [w.pc.task.fd] else []
  }

  // statuses not yet reaped, then the running task, then the queue: oldest push first
  function Line(w: Worker): seq<Fd> {
    StatusFds(w.statuses) + Held(w) + Fds(w.queue)
  }

  function LineOf(ws: seq<Worker>): (lines: seq<seq<Fd>>)
    ensures |lines| == |ws|
    ensures forall i :: 0 <= i < |ws| ==> lines[i] == Line(ws[i])
  {
    seq(|ws|, i requires 0 <= i < |ws| => Line(ws[i]))
  }

  // the descriptor the server thread itself is carrying, if any
  function Hand(pc: ServerPc): multiset<Fd> {
    match pc
    case Reap(_, st) => multiset{st.fd}
    case Try(t, _) => multiset{t.fd}
    case Push(t, _) => multiset{t.fd}
    case _ => multiset{}
  }

  function Queued(s: State): multiset<Fd> {
    Bag(LineOf(s.workers))
  }

  // ----- the invariant -----

  predicate Points(tasks: map<Fd, Task>, t: Task) {
    t.fd in tasks && tasks[t.fd] == t
  }

  predicate ServerHolds(pc: ServerPc, i: nat) {
    match pc
    case Push(_, k) => k == i
    case Notify(k) => k == i
    case Unlock(k) => k == i
    case _ => false
  }

  // what holds of worker i in every reachable state
  predicate WorkerOk(tasks: map<Fd, Task>, pc: ServerPc, i: nat, w: Worker) {
    // mutual exclusion
    && (w.lock.ByWorker? <==> w.pc.Checking? || w.pc.Running? || w.pc.Unlocking?)
    && (w.lock.ByServer? <==> ServerHolds(pc, i))
    // no lost wakeup: a sleeping worker has an empty queue unless its signal is the server's next step
    && (w.pc.Asleep? && w.queue != [] ==> pc == Notify(i))
    // FIFO: nothing pushed is lost, duplicated or reordered
    && w.pushed == w.reaped + Line(w)
    // every pointer the worker can follow is the live task of its descriptor
    && (w.pc.Running? ==> Points(tasks, w.pc.task))
    && (forall k :: 0 <= k < |w.queue| ==> Points(tasks, w.queue[k]))
  }

  predicate HeapOk(s: State) {
    && (forall fd :: fd in s.tasks ==> s.tasks[fd].fd == fd && s.tasks[fd].id < s.next && s.tasks[fd].id !in s.freed)
    && (forall a, b :: a in s.tasks && b in s.tasks && s.tasks[a].id == s.tasks[b].id ==> a == b)
    && (forall k :: 0 <= k < |s.freed| ==> s.freed[k] < s.next)
    && (forall j, k :: 0 <= j < k < |s.freed| ==> s.freed[j] != s.freed[k])
  }

  predicate ServerOk(s: State) {
    && EventsOf(s.batch, s.armed)
    && (s.pc.Scan? ==> s.pc.i <= |s.workers|)
    && (s.pc.Reap? || s.pc.Push? || s.pc.Notify? || s.pc.Unlock? ==> s.pc.i < |s.workers|)
    && (s.pc.Scan? || s.pc.Reap? ==> s.batch == [])
    && (s.pc.Try? ==> s.pc.i <= |s.workers|)
    && (s.pc.Try? || s.pc.Push? ==> Points(s.tasks, s.pc.task))
  }

  predicate WorkersOk(s: State) {
    forall i :: 0 <= i < |s.workers| ==> WorkerOk(s.tasks, s.pc, i, s.workers[i])
  }

  ghost predicate PlacesOk(s: State) {
    Balanced(s.armed, Hand(s.pc), Queued(s), s.tasks.Keys)
  }

  ghost predicate Inv(s: State) {
    HeapOk(s) && ServerOk(s) && WorkersOk(s) && PlacesOk(s)
  }

  // ----- preservation -----

  lemma InitInv(n: nat)
    ensures Inv(Init(n))
  {
    var s := Init(n);
    assert WorkersOk(s) by {
      forall i | 0 <= i < n
        ensures WorkerOk(s.tasks, s.pc, i, s.workers[i])
      {
        assert Line(s.workers[i]) == [];
      }
    }
    assert PlacesOk(s) by {
      BagEmpty(LineOf(s.workers));
    }
  }

  lemma LineStays(ws: seq<Worker>, i: nat, w: Worker)
    requires i < |ws| && Line(w) == Line(ws[i])
    ensures LineOf(ws[i := w]) == LineOf(ws)
  {
  }

  lemma LineGrows(ws: seq<Worker>, i: nat, w: Worker, fd: Fd)
    requires i < |ws| && Line(w) == Line(ws[i]) + [fd]
    ensures Bag(LineOf(ws[i := w])) == Bag(LineOf(ws)) + multiset{fd}
  {
    BagMore(LineOf(ws), i, Line(w), fd);
    assert LineOf(ws[i := w]) == LineOf(ws)[i := Line(w)];
  }

  lemma LineShrinks(ws: seq<Worker>, i: nat, w: Worker, fd: Fd)
    requires i < |ws| && Line(ws[i]) == [fd] + Line(w)
    ensures Bag(LineOf(ws)) == Bag(LineOf(ws[i := w])) + multiset{fd}
  {
    var lines := LineOf(ws[i := w]);
    assert LineOf(ws) == lines[i := Line(ws[i])];
    BagMore(lines, i, Line(ws[i]), fd);
  }

  // popping a task, running it and emitting its status leave the worker's line as it is
  lemma ActKeepsLine(w: Worker, act: Act)
    requires CanAct(w, act)
    ensures Line(Acted(w, act)) == Line(w)
  {
    var w' := Acted(w, act);
    if act.Pop? {
      assert Fds(w.queue) == Held(w') + Fds(w'.queue);
    } else if act.Finish? {
      assert StatusFds(w'.statuses) == StatusFds(w.statuses) + Held(w);
    }
  }

  lemma ActKeepsWorkerOk(tasks: map<Fd, Task>, pc: ServerPc, i: nat, w: Worker, act: Act)
    requires WorkerOk(tasks, pc, i, w) && CanAct(w, act)
    ensures WorkerOk(tasks, pc, i, Acted(w, act))
  {
    ActKeepsLine(w, act);
  }

  // a step that changes one worker and moves the server between program points of that worker
  lemma OneWorkerChanges(s: State, i: nat, w: Worker, pc: ServerPc)
    requires WorkersOk(s) && i < |s.workers|
    requires WorkerOk(s.tasks, pc, i, w)
    requires forall j: nat :: j != i ==> ServerHolds(pc, j) == ServerHolds(s.pc, j) && (s.pc == Notify(j) ==>
             pc == Notify(j))
    ensures WorkersOk(Put(s, i, w).(pc := pc))
  {
    var ws := s.workers[i := w];
    forall j | 0 <= j < |ws|
      ensures WorkerOk(s.tasks, pc, j, ws[j])
    {
      assert WorkerOk(s.tasks, s.pc, j, s.workers[j]);
    }
  }

  lemma ActInv(s: State, i: nat, act: Act)
    requires Inv(s) && i < |s.workers| && CanAct(s.workers[i], act)
    ensures Inv(Put(s, i, Acted(s.workers[i], act)))
  {
    var w := s.workers[i];
    var w' := Acted(w, act);
    var s' := Put(s, i, w');
    assert WorkersOk(s') by {
      assert WorkerOk(s.tasks, s.pc, i, w);
      ActKeepsWorkerOk(s.tasks, s.pc, i, w, act);
      OneWorkerChanges(s, i, w', s.pc);
    }
    ActKeepsLine(w, act);
    LineStays(s.workers, i, w');
  }

  // an entry that is in the server's hand is in no worker's line
  lemma HandIsElsewhere(s: State, fd: Fd)
    requires Inv(s) && fd in Hand(s.pc)
    ensures fd in s.tasks && fd !in s.armed
    ensures forall i :: 0 <= i < |s.workers| ==> fd !in Line(s.workers[i])
  {
    BalancedCount(s.armed, Hand(s.pc), Queued(s), s.tasks.Keys, fd);
    forall i | 0 <= i < |s.workers|
      ensures fd !in Line(s.workers[i])
    {
      BagContains(LineOf(s.workers), i);
    }
  }

  lemma DeleteKeepsWorkerOk(tasks: map<Fd, Task>, pc: ServerPc, i: nat, w: Worker, fd: Fd, pc': ServerPc)
    requires WorkerOk(tasks, pc, i, w) && fd !in Line(w)
    requires ServerHolds(pc', i) == ServerHolds(pc, i) && pc != Notify(i)
    ensures WorkerOk(tasks - {fd}, pc', i, w)
  {
    forall k | 0 <= k < |w.queue|
      ensures Points(tasks - {fd}, w.queue[k])
    {
      assert Line(w)[|w.statuses| + |Held(w)| + k] == w.queue[k].fd;
    }
    if w.pc.Running? {
      assert Line(w)[|w.statuses|] == w.pc.task.fd;
    }
  }

  lemma DeleteKeepsHeapOk(s: State, fd: Fd)
    requires HeapOk(s) && fd in s.tasks
    ensures HeapOk(Delete(s, fd))
  {
  }

  // deleting the task in hand frees nothing that a worker can reach
  lemma DeleteInv(s: State, fd: Fd, pc: ServerPc)
    requires Inv(s) && Hand(s.pc) == multiset{fd} && fd in s.tasks
    requires (s.pc.Reap? && pc == Scan(s.pc.i)) || (s.pc.Try? && pc == Handle)
    ensures Inv(Delete(s, fd).(pc := pc))
  {
    var s' := Delete(s, fd).(pc := pc);
    HandIsElsewhere(s, fd);
    assert HeapOk(s') by {
      DeleteKeepsHeapOk(s, fd);
    }
    assert PlacesOk(s') by {
      assert s'.tasks.Keys == s.tasks.Keys - {fd};
      HandToNowhere(s.armed, Queued(s), s.tasks.Keys, fd);
    }
    assert WorkersOk(s') by {
      forall i | 0 <= i < |s.workers|
        ensures WorkerOk(s'.tasks, s'.pc, i, s'.workers[i])
      {
        assert WorkerOk(s.tasks, s.pc, i, s.workers[i]);
        DeleteKeepsWorkerOk(s.tasks, s.pc, i, s.workers[i], fd, pc);
      }
    }
  }

  // ----- server steps -----

  lemma SameWorkers(s: State, s': State)
    requires WorkersOk(s) && s'.workers == s.workers
    requires forall fd :: fd in s.tasks ==> fd in s'.tasks && s'.tasks[fd] == s.tasks[fd]
    requires forall j: nat :: !ServerHolds(s.pc, j) && !ServerHolds(s'.pc, j)
    ensures WorkersOk(s')
  {
    forall i | 0 <= i < |s.workers|
      ensures WorkerOk(s'.tasks, s'.pc, i, s'.workers[i])
    {
      assert WorkerOk(s.tasks, s.pc, i, s.workers[i]);
    }
  }

  // the server moves on without touching anything a worker sees
  lemma MovesInv(s: State, pc: ServerPc, batch: seq<Event>)
    requires Inv(s) && ServerOk(s.(pc := pc, batch := batch)) && Hand(pc) == Hand(s.pc)
    requires forall j: nat :: !ServerHolds(s.pc, j) && !ServerHolds(pc, j)
    ensures Inv(s.(pc := pc, batch := batch))
  {
    SameWorkers(s, s.(pc := pc, batch := batch));
  }

  lemma ScanNextInv(s: State)
    requires Inv(s) && s.pc.Scan? && s.pc.i < |s.workers|
    ensures Inv(s.(pc := Scan(s.pc.i + 1)))
  {
    MovesInv(s, Scan(s.pc.i + 1), s.batch);
  }

  lemma EpollWaitInv(s: State, events: seq<Event>)
    requires Inv(s) && s.pc.Scan? && EventsOf(events, s.armed)
    ensures Inv(s.(pc := Handle, batch := events))
  {
    MovesInv(s, Handle, events);
  }

  lemma BatchDoneInv(s: State)
    requires Inv(s) && s.pc.Handle? && s.batch == []
    ensures Inv(s.(pc := Scan(0)))
  {
    MovesInv(s, Scan(0), s.batch);
  }

  lemma SkipInv(s: State)
    requires Inv(s) && s.pc.Handle? && s.batch != []
    ensures Inv(s.(batch := s.batch[1..]))
  {
    MovesInv(s, Handle, s.batch[1..]);
  }

  lemma TryBusyInv(s: State)
    requires Inv(s) && s.pc.Try? && s.pc.i < |s.workers|
    ensures Inv(s.(pc := Try(s.pc.task, s.pc.i + 1)))
  {
    MovesInv(s, Try(s.pc.task, s.pc.i + 1), s.batch);
  }

  lemma StatusPopped(w: Worker)
    requires w.statuses != []
    ensures Line(w) == [w.statuses[0].fd] + Line(StatusTaken(w))
    ensures w.reaped + Line(w) == StatusTaken(w).reaped + Line(StatusTaken(w))
  {
    assert StatusFds(w.statuses) == [w.statuses[0].fd] + StatusFds(w.statuses[1..]);
  }

  lemma StatusPoppedOk(tasks: map<Fd, Task>, pc: ServerPc, i: nat, w: Worker, pc': ServerPc)
    requires WorkerOk(tasks, pc, i, w) && w.statuses != [] && pc == Scan(i) && pc'.Reap?
    ensures WorkerOk(tasks, pc', i, StatusTaken(w))
  {
    StatusPopped(w);
  }

  lemma PopStatusInv(s: State)
    requires Inv(s) && s.pc.Scan? && s.pc.i < |s.workers| && s.workers[s.pc.i].statuses != []
    ensures Inv(PopStatus(s))
  {
    var s' := PopStatus(s);
    var i, w := s.pc.i, s.workers[s.pc.i];
    assert WorkersOk(s') by {
      StatusPoppedOk(s.tasks, s.pc, i, w, s'.pc);
      OneWorkerChanges(s, i, StatusTaken(w), s'.pc);
    }
    assert PlacesOk(s') by {
      StatusPopped(w);
      LineShrinks(s.workers, i, StatusTaken(w), w.statuses[0].fd);
      BagToHand(s.armed, Queued(s), s.tasks.Keys, w.statuses[0].fd, Queued(s'));
    }
  }

  lemma ReapInv(s: State, armOk: bool)
    requires Inv(s) && s.pc.Reap?
    ensures Inv(Reaped(s, armOk))
  {
    var fd := s.pc.st.fd;
    HandIsElsewhere(s, fd);
    if s.pc.st.ok && armOk {
      SameWorkers(s, Reaped(s, armOk));
      HandToSet(s.armed, Queued(s), s.tasks.Keys, fd);
    } else {
      DeleteInv(s, fd, Scan(s.pc.i));
    }
  }

  lemma AcceptInv(s: State, fd: Fd, armOk: bool)
    requires Inv(s) && s.pc.Handle? && s.batch != [] && fd !in s.tasks
    ensures Inv(Accepted(s, fd, armOk))
  {
    var s' := Accepted(s, fd, armOk);
    SameWorkers(s, s');
    if armOk {
      assert s'.tasks.Keys == s.tasks.Keys + {fd};
      NowhereToSet(s.armed, Queued(s), s.tasks.Keys, fd);
    }
  }

  // the descriptor of the next event is armed, hence in the map
  lemma ArmedIsMapped(s: State, fd: Fd)
    requires Inv(s) && fd in s.armed
    ensures fd in s.tasks
  {
    BalancedCount(s.armed, Hand(s.pc), Queued(s), s.tasks.Keys, fd);
  }

  lemma ReadInv(s: State)
    requires Inv(s) && s.pc.Handle? && s.batch != [] && s.batch[0].Read?
    ensures Inv(TakeRead(s))
  {
    var fd := s.batch[0].fd;
    ArmedIsMapped(s, fd);
    SameWorkers(s, TakeRead(s));
    SetToHand(s.armed, Queued(s), s.tasks.Keys, fd);
  }

  // steps in which the server works on worker i and the worker's line stays
  lemma ServerTouchesInv(s: State, i: nat, w: Worker, pc: ServerPc)
    requires Inv(s) && i < |s.workers| && Line(w) == Line(s.workers[i]) && WorkerOk(s.tasks, pc, i, w)
    requires forall j: nat :: j != i ==> ServerHolds(pc, j) == ServerHolds(s.pc, j) && (s.pc == Notify(j) ==>
             pc == Notify(j))
    requires Hand(pc) == Hand(s.pc) && ServerOk(s.(pc := pc))
    ensures Inv(Put(s, i, w).(pc := pc))
  {
    var s' := Put(s, i, w).(pc := pc);
    assert WorkersOk(s') by {
      OneWorkerChanges(s, i, w, pc);
    }
    assert PlacesOk(s') by {
      LineStays(s.workers, i, w);
    }
  }

  lemma TryOkInv(s: State)
    requires Inv(s) && s.pc.Try? && s.pc.i < |s.workers| && s.workers[s.pc.i].lock.Free?
    ensures Inv(Locked(s))
  {
    var w := s.workers[s.pc.i];
    assert WorkerOk(s.tasks, s.pc, s.pc.i, w);
    ServerTouchesInv(s, s.pc.i, w.(lock := ByServer), Push(s.pc.task, s.pc.i));
  }

  lemma TaskQueued(w: Worker, t: Task)
    ensures Line(WithTask(w, t)) == Line(w) + [t.fd]
  {
    assert Fds(w.queue + [t]) == Fds(w.queue) + [t.fd];
  }

  lemma TaskQueuedOk(tasks: map<Fd, Task>, i: nat, w: Worker, t: Task)
    requires WorkerOk(tasks, Push(t, i), i, w) && Points(tasks, t)
    ensures WorkerOk(tasks, Notify(i), i, WithTask(w, t))
  {
    TaskQueued(w, t);
  }

  lemma PushQueues(s: State)
    requires s.pc.Push? && s.pc.i < |s.workers|
    ensures Queued(Pushed(s)) == Queued(s) + multiset{s.pc.task.fd}
  {
    TaskQueued(s.workers[s.pc.i], s.pc.task);
    LineGrows(s.workers, s.pc.i, WithTask(s.workers[s.pc.i], s.pc.task), s.pc.task.fd);
  }

  lemma PushBalance(s: State, s': State, t: Task)
    requires Hand(s.pc) == multiset{t.fd} && PlacesOk(s)
    requires s'.armed == s.armed && s'.tasks == s.tasks && Hand(s'.pc) == multiset{}
    requires Queued(s') == Queued(s) + multiset{t.fd}
    ensures PlacesOk(s')
  {
    HandToBag(s.armed, Queued(s), s.tasks.Keys, t.fd, Queued(s'));
  }

  lemma PushInv(s: State)
    requires Inv(s) && s.pc.Push? && s.pc.i < |s.workers|
    ensures Inv(Pushed(s))
  {
    var s' := Pushed(s);
    var i, t, w := s.pc.i, s.pc.task, s.workers[s.pc.i];
    assert WorkersOk(s') by {
      assert WorkerOk(s.tasks, s.pc, i, w);
      TaskQueuedOk(s.tasks, i, w, t);
      OneWorkerChanges(s, i, WithTask(w, t), Notify(i));
    }
    assert PlacesOk(s') by {
      PushQueues(s);
      PushBalance(s, s', t);
    }
  }

  lemma NotifyInv(s: State)
    requires Inv(s) && s.pc.Notify? && s.pc.i < |s.workers|
    ensures Inv(Notified(s))
  {
    var i, w := s.pc.i, s.workers[s.pc.i];
    assert WorkerOk(s.tasks, s.pc, i, w);
    ServerTouchesInv(s, i, if w.pc.Asleep? then w.(pc := Woken) else w, Unlock(i));
  }

  lemma UnlockInv(s: State)
    requires Inv(s) && s.pc.Unlock? && s.pc.i < |s.workers|
    ensures Inv(Unlocked(s))
  {
    var i, w := s.pc.i, s.workers[s.pc.i];
    assert WorkerOk(s.tasks, s.pc, i, w);
    ServerTouchesInv(s, i, w.(lock := Free), Handle);
  }

  lemma GiveUpInv(s: State)
    requires Inv(s) && s.pc.Try?
    ensures Inv(GiveUp(s))
  {
    HandIsElsewhere(s, s.pc.task.fd);
    DeleteInv(s, s.pc.task.fd, Handle);
  }

  lemma ScanStepInv(s: State, step: Step)
    requires Inv(s) && Enabled(s, step)
    requires step.SScanNext? || step.SPopStatus? || step.SReap? || step.SEpollWait? || step.SBatchDone?
    ensures Inv(Apply(s, step))
  {
    match step
    case SScanNext => ScanNextInv(s);
    case SPopStatus => PopStatusInv(s);
    case SReap(armOk) => ReapInv(s, armOk);
    case SEpollWait(events) => EpollWaitInv(s, events);
    case SBatchDone => BatchDoneInv(s);
  }

  lemma EventStepInv(s: State, step: Step)
    requires Inv(s) && Enabled(s, step)
    requires step.SAcceptFails? || step.SAccept? || step.SIgnore? || step.SRead?
    ensures Inv(Apply(s, step))
  {
    match step
    case SAcceptFails => SkipInv(s);
    case SAccept(fd, armOk) => AcceptInv(s, fd, armOk);
    case SIgnore => SkipInv(s);
    case SRead => ReadInv(s);
  }

  // every step keeps the invariant
  lemma StepInv(s: State, step: Step)
    requires Inv(s) && Enabled(s, step)
    ensures Inv(Apply(s, step))
  {
    match step
    case Work(w, act) => ActInv(s, w, act);
    case STryBusy => TryBusyInv(s);
    case STryOk => TryOkInv(s);
    case STryError => GiveUpInv(s);
    case SNoFreeThread => GiveUpInv(s);
    case SPush => PushInv(s);
    case SNotify => NotifyInv(s);
    case SUnlock => UnlockInv(s);
    case SAcceptFails => EventStepInv(s, step);
    case SAccept(_, _) => EventStepInv(s, step);
    case SIgnore => EventStepInv(s, step);
    case SRead => EventStepInv(s, step);
    case _ => ScanStepInv(s, step);
  }

  lemma {:induction false} RunInv(s: State, steps: seq<Step>)
    requires Inv(s) && Runs(s, steps)
    ensures Inv(Exec(s, steps))
    decreases |steps|
  {
    if steps != [] {
      StepInv(s, steps[0]);
      RunInv(Apply(s, steps[0]), steps[1..]);
    }
  }

  lemma ReachableInv(s: State)
    requires Reachable(s)
    ensures Inv(s)
  {
    var n: nat, steps: seq<Step> :| Runs(Init(n), steps) && Exec(Init(n), steps) == s;
    InitInv(n);
    RunInv(Init(n), steps);
  }

  // ----- safety over whole runs -----

  // a descriptor is in the map exactly when it is somewhere, and it is nowhere twice
  lemma ExactlyOnePlace(s: State, fd: Fd)
    requires Reachable(s)
    ensures fd in s.tasks <==>
            fd in s.armed || fd in Hand(s.pc) || exists i :: 0 <= i < |s.workers| && fd in Line(s.workers[i])
    ensures fd in s.armed ==> fd !in Hand(s.pc)
    ensures forall i :: 0 <= i < |s.workers| && fd in Line(s.workers[i]) ==>
              && fd !in s.armed && fd !in Hand(s.pc)
              && multiset(Line(s.workers[i]))[fd] == 1
              && forall j :: 0 <= j < |s.workers| && j != i ==> fd !in Line(s.workers[j])
  {
    ReachableInv(s);
    var lines := LineOf(s.workers);
    BalancedCount(s.armed, Hand(s.pc), Queued(s), s.tasks.Keys, fd);
    if fd in Queued(s) {
      var i := BagWitness(lines, fd);
      assert fd in Line(s.workers[i]);
    }
    forall i | 0 <= i < |s.workers| && fd in Line(s.workers[i])
      ensures Queued(s)[fd] == 1 && multiset(Line(s.workers[i]))[fd] == 1
      ensures forall j :: 0 <= j < |s.workers| && j != i ==> fd !in Line(s.workers[j])
    {
      InOneLine(lines, fd, i);
      forall j | 0 <= j < |s.workers| && j != i
        ensures fd !in Line(s.workers[j])
      {
        assert lines[j] == Line(s.workers[j]);
      }
    }
  }

  // no deleted task can be reached from a worker or the server's hand, and nothing is deleted twice
  lemma NoUseAfterFree(s: State)
    requires Reachable(s)
    ensures forall i :: 0 <= i < |s.workers| && s.workers[i].pc.Running? ==> s.workers[i].pc.task.id !in s.freed
    ensures forall i, k :: 0 <= i < |s.workers| && 0 <= k < |s.workers[i].queue| ==>
            s.workers[i].queue[k].id !in s.freed
    ensures s.pc.Try? || s.pc.Push? ==> s.pc.task.id !in s.freed
    ensures forall j, k :: 0 <= j < k < |s.freed| ==> s.freed[j] != s.freed[k]
  {
    ReachableInv(s);
    forall i | 0 <= i < |s.workers|
      ensures s.workers[i].pc.Running? ==> s.workers[i].pc.task.id !in s.freed
      ensures forall k :: 0 <= k < |s.workers[i].queue| ==> s.workers[i].queue[k].id !in s.freed
    {
      assert WorkerOk(s.tasks, s.pc, i, s.workers[i]);
    }
  }

  // both "can not find" branches of the server are dead code
  lemma LookupsSucceed(s: State)
    requires Reachable(s)
    ensures s.pc.Reap? ==> s.pc.st.fd in s.tasks
    ensures Enabled(s, SRead) ==> s.batch[0].fd in s.tasks
    ensures s.pc.Try? ==> s.pc.task.fd in s.tasks
  {
    ReachableInv(s);
    if s.pc.Reap? {
      HandIsElsewhere(s, s.pc.st.fd);
    } else if Enabled(s, SRead) {
      ArmedIsMapped(s, s.batch[0].fd);
    }
  }

  // emitted statuses, then the running task, then the queue: exactly what was pushed, in order;
  // a push never lands while the worker runs a task; no wakeup is lost
  lemma WorkerHistory(s: State, i: nat)
    requires Reachable(s) && i < |s.workers|
    ensures var w := s.workers[i];
            w.pushed == (w.reaped + StatusFds(w.statuses)) + Held(w) + Fds(w.queue)
    ensures s.pc.Push? && s.pc.i == i ==> !s.workers[i].pc.Running? && !s.workers[i].pc.Checking?
    ensures s.workers[i].pc.Asleep? && s.workers[i].queue != [] ==> s.pc == Notify(i)
  {
    ReachableInv(s);
    var w := s.workers[i];
    assert WorkerOk(s.tasks, s.pc, i, w);
    assert w.reaped + Line(w) == (w.reaped + StatusFds(w.statuses)) + Held(w) + Fds(w.queue);
  }

  // ----- progress -----

  function Load(w: Worker): nat {
    3 * |w.queue| + 2 * |Held(w)| + |w.statuses|
  }

  function TotalLoad(ws: seq<Worker>): nat {
    if ws == [] then 0 else TotalLoad(ws[..|ws| - 1]) + Load(ws[|ws| - 1])
  }

  lemma {:induction false} TotalLoadUpdate(ws: seq<Worker>, i: nat, w: Worker)
    requires i < |ws|
    ensures TotalLoad(ws[i := w]) + Load(ws[i]) == TotalLoad(ws) + Load(w)
  {
    var n := |ws| - 1;
    if i == n {
      assert ws[i := w][..n] == ws[..n];
    } else {
      assert ws[i := w][..n] == ws[..n][i := w];
      TotalLoadUpdate(ws[..n], i, w);
    }
  }

  lemma {:induction false} TotalLoadWitness(ws: seq<Worker>) returns (i: nat)
    requires TotalLoad(ws) > 0
    ensures i < |ws| && Load(ws[i]) > 0
  {
    var n := |ws| - 1;
    if Load(ws[n]) > 0 {
      i := n;
    } else {
      i := TotalLoadWitness(ws[..n]);
    }
  }

  lemma {:induction false} TotalLoadZero(ws: seq<Worker>, i: nat)
    requires TotalLoad(ws) == 0 && i < |ws|
    ensures Load(ws[i]) == 0
  {
    var n := |ws| - 1;
    if i < n {
      TotalLoadZero(ws[..n], i);
    }
  }

  // the three steps by which work advances
  predicate Advances(step: Step) {
    step.SPopStatus? || (step.Work? && (step.act.Pop? || step.act.Finish?))
  }

  lemma ActLoad(w: Worker, act: Act)
    requires CanAct(w, act)
    ensures Load(Acted(w, act)) == Load(w) - if act.Pop? || act.Finish? then 1 else 0
  {
  }

  // a push adds three units, each of the three advancing steps removes one, nothing else counts
  lemma LoadLaw(s: State, step: Step)
    requires Enabled(s, step)
    ensures TotalLoad(Apply(s, step).workers) ==
            TotalLoad(s.workers) + (if step.SPush? then 3 else 0) - (if Advances(step) then 1 else 0)
  {
    match step
    case Work(i, act) =>
      ActLoad(s.workers[i], act);
      TotalLoadUpdate(s.workers, i, Acted(s.workers[i], act));
    case SPopStatus => TotalLoadUpdate(s.workers, s.pc.i, PopStatus(s).workers[s.pc.i]);
    case STryOk => TotalLoadUpdate(s.workers, s.pc.i, Locked(s).workers[s.pc.i]);
    case SPush => TotalLoadUpdate(s.workers, s.pc.i, Pushed(s).workers[s.pc.i]);
    case SNotify => TotalLoadUpdate(s.workers, s.pc.i, Notified(s).workers[s.pc.i]);
    case SUnlock => TotalLoadUpdate(s.workers, s.pc.i, Unlocked(s).workers[s.pc.i]);
    case _ =>
  }

  function Pushes(steps: seq<Step>): nat {
    if steps == [] then 0 else (if steps[0].SPush? then 1 else 0) + Pushes(steps[1..])
  }

  function Advanced(steps: seq<Step>): nat {
    if steps == [] then 0 else (if Advances(steps[0]) then 1 else 0) + Advanced(steps[1..])
  }

  // over any run the load is conserved: three units per push less one per advancing step
  lemma {:induction false} LoadConserved(s: State, steps: seq<Step>)
    requires Runs(s, steps)
    ensures TotalLoad(Exec(s, steps).workers) == TotalLoad(s.workers) + 3 * Pushes(steps) - Advanced(steps)
    decreases |steps|
  {
    if steps != [] {
      LoadLaw(s, steps[0]);
      LoadConserved(Apply(s, steps[0]), steps[1..]);
    }
  }

  // neither an accept nor a read event
  predicate Calm(events: seq<Event>) {
    forall k :: 0 <= k < |events| ==> events[k].Other?
  }

  // any step but accepting and reading
  predicate Quiet(step: Step) {
    !step.SAccept? && !step.SAcceptFails? && !step.SRead? && (step.SEpollWait? ==> Calm(step.events))
  }

  lemma QuietKeepsCalm(s: State, step: Step)
    requires Enabled(s, step) && Quiet(step) && Calm(s.batch)
    ensures Calm(Apply(s, step).batch)
  {
  }

  predicate Idle(s: State) {
    s.pc.Scan? || s.pc.Reap? || (s.pc.Handle? && s.batch == [])
  }

  predicate QuietRun(s: State, steps: seq<Step>) {
    Runs(s, steps) && forall k :: 0 <= k < |steps| ==> Quiet(steps[k])
  }

  lemma QuietCons(s: State, step: Step, rest: seq<Step>)
    requires Enabled(s, step) && Quiet(step) && QuietRun(Apply(s, step), rest)
    ensures QuietRun(s, [step] + rest)
    ensures Exec(s, [step] + rest) == Exec(Apply(s, step), rest)
  {
    assert ([step] + rest)[1..] == rest;
  }

  lemma {:induction false} QuietAppend(s: State, a: seq<Step>, b: seq<Step>)
    requires QuietRun(s, a) && QuietRun(Exec(s, a), b)
    ensures QuietRun(s, a + b) && Exec(s, a + b) == Exec(Exec(s, a), b)
    decreases |a|
  {
    if a == [] {
      assert a + b == b;
    } else {
      QuietAppend(Apply(s, a[0]), a[1..], b);
      QuietCons(s, a[0], a[1..] + b);
      assert a + b == [a[0]] + (a[1..] + b);
    }
  }

  function WorkerRank(pc: WorkerPc): nat {
    match pc
    case Running(_) => 0
    case Checking => 0
    case AtLock => 1
    case Woken => 1
    case Notifying => 2
    case Unlocking => 3
    case Asleep => 0
  }

  // the next act of a worker that has a task
  function Turn(pc: WorkerPc): Act {
    match pc
    case Running(_) => Finish(true)
    case Checking => Pop
    case AtLock => Lock
    case Woken => Relock
    case Notifying => Signal
    case Unlocking => Release
    case Asleep => SpuriousWake
  }

  lemma TurnTaken(tasks: map<Fd, Task>, pc: ServerPc, i: nat, w: Worker)
    requires WorkerOk(tasks, pc, i, w) && !ServerHolds(pc, i)
    requires w.queue != [] || w.pc.Running?
    ensures CanAct(w, Turn(w.pc))
    ensures Turn(w.pc).Pop? || Turn(w.pc).Finish? ||
            (Acted(w, Turn(w.pc)).queue != [] && WorkerRank(Acted(w, Turn(w.pc)).pc) < WorkerRank(w.pc))
  {
  }

  // a worker with a task advances by its own steps alone
  lemma WorkerAdvances(s: State, i: nat) returns (steps: seq<Step>)
    requires Inv(s) && Idle(s) && i < |s.workers|
    requires s.workers[i].queue != [] || s.workers[i].pc.Running?
    ensures QuietRun(s, steps) && Idle(Exec(s, steps)) && Inv(Exec(s, steps))
    ensures TotalLoad(Exec(s, steps).workers) < TotalLoad(s.workers)
    decreases WorkerRank(s.workers[i].pc)
  {
    var w := s.workers[i];
    assert WorkerOk(s.tasks, s.pc, i, w);
    TurnTaken(s.tasks, s.pc, i, w);
    var step := Work(i, Turn(w.pc));
    StepInv(s, step);
    LoadLaw(s, step);
    var rest := [];
    if !Advances(step) {
      rest := WorkerAdvances(Apply(s, step), i);
    }
    QuietCons(s, step, rest);
    steps := [step] + rest;
  }

  // how far the scan is from status queue i
  function ScanRank(pc: ServerPc, n: nat, i: nat): nat
    requires i < n
  {
    match pc
    case Scan(k) => if k <= i then 2 * (i - k) else if k <= n then 2 * (n - k) + 2 * i + 4 else 0
    case Reap(k, _) => if k <= i then 2 * (i - k) + 1 else if k <= n then 2 * (n - k) + 2 * i + 5 else 0
    case _ => 2 * i + 1
  }

  // the server's next step when nothing is ready
  function Poll(s: State): Step {
    if s.pc.Handle? then SBatchDone
    else if s.pc.Reap? then SReap(true)
    else if s.pc.Scan? && s.pc.i < |s.workers| then
      if s.workers[s.pc.i].statuses == [] then SScanNext else SPopStatus
    else SEpollWait([])
  }

  // it pops a status or comes closer to queue i
  lemma PollTaken(s: State, i: nat)
    requires ServerOk(s) && Idle(s) && i < |s.workers| && s.workers[i].statuses != []
    ensures Enabled(s, Poll(s)) && Quiet(Poll(s))
    ensures var s' := Apply(s, Poll(s));
            Idle(s') && |s'.workers| == |s.workers| &&
            (Advances(Poll(s)) ||
             (s'.workers == s.workers && ScanRank(s'.pc, |s.workers|, i) < ScanRank(s.pc, |s.workers|, i)))
  {
    match s.pc
    case Handle =>
    case Reap(_, _) => assert Apply(s, SReap(true)) == Reaped(s, true);
    case Scan(k) =>
  }

  lemma ServerAdvances(s: State, i: nat) returns (steps: seq<Step>)
    requires Inv(s) && Idle(s) && i < |s.workers| && s.workers[i].statuses != []
    ensures QuietRun(s, steps) && Idle(Exec(s, steps)) && Inv(Exec(s, steps))
    ensures TotalLoad(Exec(s, steps).workers) < TotalLoad(s.workers)
    decreases ScanRank(s.pc, |s.workers|, i)
  {
    var step := Poll(s);
    PollTaken(s, i);
    StepInv(s, step);
    LoadLaw(s, step);
    var rest := [];
    if !Advances(step) {
      rest := ServerAdvances(Apply(s, step), i);
    }
    QuietCons(s, step, rest);
    steps := [step] + rest;
  }

  lemma IdleAdvances(s: State) returns (steps: seq<Step>)
    requires Inv(s) && Idle(s) && TotalLoad(s.workers) > 0
    ensures QuietRun(s, steps) && Idle(Exec(s, steps)) && Inv(Exec(s, steps))
    ensures TotalLoad(Exec(s, steps).workers) < TotalLoad(s.workers)
  {
    var i := TotalLoadWitness(s.workers);
    if s.workers[i].statuses != [] {
      steps := ServerAdvances(s, i);
    } else {
      steps := WorkerAdvances(s, i);
    }
  }

  lemma DrainFrom(s: State) returns (steps: seq<Step>)
    requires Inv(s) && Idle(s)
    ensures QuietRun(s, steps) && Inv(Exec(s, steps)) && TotalLoad(Exec(s, steps).workers) == 0 && Idle(Exec(s, steps))
    decreases TotalLoad(s.workers)
  {
    if TotalLoad(s.workers) == 0 {
      steps := [];
    } else {
      var first := IdleAdvances(s);
      var rest := DrainFrom(Exec(s, first));
      QuietAppend(s, first, rest);
      steps := first + rest;
    }
  }

  // with the load gone, everything in the map is armed, save what the server still carries
  lemma LoadZeroAllArmed(s: State)
    requires Inv(s) && TotalLoad(s.workers) == 0
    ensures multiset(s.tasks.Keys) == multiset(s.armed) + Hand(s.pc)
  {
    forall i | 0 <= i < |s.workers|
      ensures LineOf(s.workers)[i] == []
    {
      TotalLoadZero(s.workers, i);
    }
    BagEmpty(LineOf(s.workers));
  }

  // the server puts down a status it carries by one more quiet step
  lemma PutDown(s: State)
    requires Inv(s) && s.pc.Reap?
    ensures QuietRun(s, [SReap(true)]) && Inv(Exec(s, [SReap(true)]))
    ensures Exec(s, [SReap(true)]).workers == s.workers && Exec(s, [SReap(true)]).pc.Scan?
  {
    var step := SReap(true);
    ReapInv(s, true);
    QuietCons(s, step, []);
    assert [step] + [] == [step];
    assert Exec(s, [step]) == Reaped(s, true);
  }

  lemma SameElements<T>(a: set<T>, b: set<T>)
    requires multiset(a) == multiset(b)
    ensures a == b
  {
    forall x
      ensures x in a <==> x in b
    {
      assert x in a <==> x in multiset(a);
    }
  }

  lemma DrainAndPutDown(s: State) returns (steps: seq<Step>)
    requires Inv(s) && Idle(s)
    ensures QuietRun(s, steps) && Inv(Exec(s, steps)) && TotalLoad(Exec(s, steps).workers) == 0
    ensures Hand(Exec(s, steps).pc) == multiset{}
  {
    steps := DrainFrom(s);
    if Exec(s, steps).pc.Reap? {
      PutDown(Exec(s, steps));
      QuietAppend(s, steps, [SReap(true)]);
      steps := steps + [SReap(true)];
    }
  }

  // ----- from any point of the server -----

  // how far the server is from having nothing in hand
  function HandRank(pc: ServerPc, n: nat): nat {
    match pc
    case Try(_, i) => if i <= n then 5 + (n - i) else 0
    case Push(_, _) => 4
    case Notify(_) => 3
    case Unlock(_) => 2
    case Handle => 1
    case _ => 0
  }

  // the server's next step when it has a task in hand, or events to ignore
  function PutAway(s: State): Step {
    match s.pc
    case Try(_, i) =>
      if i < |s.workers| then (if s.workers[i].lock.Free? then STryOk else STryBusy) else SNoFreeThread
    case Push(_, _) => SPush
    case Notify(_) => SNotify
    case Unlock(_) => SUnlock
    case _ => SIgnore
  }

  lemma PutAwayTaken(s: State)
    requires ServerOk(s) && Calm(s.batch) && !Idle(s)
    ensures Enabled(s, PutAway(s)) && Quiet(PutAway(s))
    ensures var s', n := Apply(s, PutAway(s)), |s.workers|;
            && |s'.workers| == n && HandRank(s'.pc, n) <= HandRank(s.pc, n)
            && (HandRank(s'.pc, n) == HandRank(s.pc, n) ==> |s'.batch| < |s.batch|)
  {
  }

  lemma ToIdle(s: State) returns (steps: seq<Step>)
    requires Inv(s) && Calm(s.batch)
    ensures QuietRun(s, steps) && Inv(Exec(s, steps)) && Idle(Exec(s, steps))
    decreases HandRank(s.pc, |s.workers|), |s.batch|
  {
    if Idle(s) {
      steps := [];
    } else {
      var step := PutAway(s);
      PutAwayTaken(s);
      StepInv(s, step);
      QuietKeepsCalm(s, step);
      var rest := ToIdle(Apply(s, step));
      QuietCons(s, step, rest);
      steps := [step] + rest;
    }
  }

  // the one task the server may still push
  function InHand(pc: ServerPc): nat {
    if pc.Try? || pc.Push? then 1 else 0
  }

  lemma {:induction false} QuietPushes(s: State, steps: seq<Step>)
    requires QuietRun(s, steps)
    ensures Pushes(steps) + InHand(Exec(s, steps).pc) <= InHand(s.pc)
    decreases |steps|
  {
    if steps != [] {
      assert forall k :: 0 <= k < |steps[1..]| ==> steps[1..][k] == steps[k + 1];
      QuietPushes(Apply(s, steps[0]), steps[1..]);
    }
  }

  // while work is left, a run without accept or read events reaches a smaller load
  lemma SomethingAdvances(s: State) returns (steps: seq<Step>)
    requires Reachable(s) && Calm(s.batch) && TotalLoad(s.workers) > 0
    ensures QuietRun(s, steps) && TotalLoad(Exec(s, steps).workers) < TotalLoad(s.workers)
  {
    steps := Drain(s);
  }

  // every reachable state without accept or read events at hand can be drained without another one, by
  // exactly as many advancing steps as its load and the push still to come ask for, and then every task
  // left in the map is armed
  lemma Drain(s: State) returns (steps: seq<Step>)
    requires Reachable(s) && Calm(s.batch)
    ensures QuietRun(s, steps)
    ensures Advanced(steps) == TotalLoad(s.workers) + 3 * Pushes(steps)
    ensures Pushes(steps) <= if s.pc.Try? || s.pc.Push? then 1 else 0
    ensures TotalLoad(Exec(s, steps).workers) == 0
    ensures Exec(s, steps).tasks.Keys == Exec(s, steps).armed
  {
    ReachableInv(s);
    var first := ToIdle(s);
    var rest := DrainAndPutDown(Exec(s, first));
    QuietAppend(s, first, rest);
    steps := first + rest;
    AllArmed(Exec(s, steps));
    LoadConserved(s, steps);
    QuietPushes(s, steps);
  }

  lemma AllArmed(s: State)
    requires Inv(s) && TotalLoad(s.workers) == 0 && Hand(s.pc) == multiset{}
    ensures s.tasks.Keys == s.armed
  {
    LoadZeroAllArmed(s);
    SameElements(s.tasks.Keys, s.armed);
  }
}

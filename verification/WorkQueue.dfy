/** The worker-thread queue (src/kernel/thread/kernel_workqueue.cpp) as interleaved steps.

    Each thread advances one step at a time: taking or releasing the mutex, one test of the
    wait predicate, entering the wait set of the condition variable, one atomic update.  The
    threads are the worker, one controller that calls start() and stop() in turn (the header
    forbids calling them concurrently), and any number of producers and flushers. */
module WorkQueue {
  type Task = nat

  datatype Tid = Worker | Control | Producer(id: nat) | Flusher(id: nat)

  datatype WorkerPc =
    | NoThread           // not spawned, or joined
    | AtLock             // top of worker_loop
    | Testing            // holds the mutex, about to test the wait predicate
    | Deciding           // the predicate was false; holds the mutex, about to wait
    | Asleep             // in the wait set
    | Woken              // left the wait set, wants the mutex back
    | Popped(task: Task) // mutex released, in_flight not raised yet
    | Running(task: Task)
    | Ran                // task done, in_flight not lowered yet
    | Notifying          // about to notify_all
    | Exited

  datatype ControlPc =
    | Idle
    | Spawning           // start() has set started_, thread not created yet
    | StopWant           // stop() wants the mutex
    | StopHold           // holds it, about to clear started_
    | StopNotify         // released it, about to notify_all
    | Joining
    | ClearWant
    | ClearHold

  datatype ProducerPc = PushWant(task: Task) | PushHold(task: Task) | Pushed

  datatype FlusherPc = FlushWant | FlushTest | FlushDecide | FlushAsleep

  datatype State = State(
    started: bool,
    queue: seq<Task>,
    inFlight: nat,
    mutex: set<Tid>,      // the owner, if any
    worker: WorkerPc,
    control: ControlPc,
    producers: map<nat, ProducerPc>,
    flushers: map<nat, FlusherPc>,
    log: seq<Task>,       // tasks pushed and not dropped by a final clear, in order
    executed: seq<Task>,  // tasks run, in order
    atStop: seq<Task>)    // the log when stop() last cleared started_

  datatype Action =
    | WLock | WTest | WSleep | WSpurious | WBegin | WRun | WLower | WNotifyAll
    | CStart | CSpawn | CStop | CStopLock | CStopClear | CNotifyAll | CJoin | CClearLock | CClear
    | PEnqueue(p: nat, task: Task) | PLock(p: nat) | PPush(p: nat) | PNotifyOne(p: nat, target: Tid) | PNotifyNone(p: nat)
    | FFlush(f: nat) | FLock(f: nat) | FTest(f: nat) | FSleep(f: nat) | FTimeout(f: nat) | FExpire(f: nat)

  function Initial(): State {
    State(false, [], 0, {}, NoThread, Idle, map[], map[], [], [], [])
  }

  /** Threads in the wait set of the condition variable. */
  predicate Waiting(s: State, t: Tid) {
    match t
    case Worker => s.worker == Asleep
    case Flusher(f) => f in s.flushers && s.flushers[f] == FlushAsleep
    case _ => false
  }

  function WakeWorker(w: WorkerPc): WorkerPc { if w == Asleep then Woken else w }

  function WakeFlushers(fs: map<nat, FlusherPc>): map<nat, FlusherPc> {
    map f | f in fs :: if fs[f] == FlushAsleep then FlushWant else fs[f]
  }

  function WakeAll(s: State): State {
    s.(worker := WakeWorker(s.worker), flushers := WakeFlushers(s.flushers))
  }

  predicate HasPush(s: State, p: nat, pc: ProducerPc) { p in s.producers && s.producers[p] == pc }

  predicate HasFlush(s: State, f: nat, pc: FlusherPc) { f in s.flushers && s.flushers[f] == pc }

  predicate Enabled(s: State, a: Action) {
    match a
    case WLock => (s.worker == AtLock || s.worker == Woken) && s.mutex == {}
    case WTest => s.worker == Testing
    case WSleep => s.worker == Deciding
    case WSpurious => s.worker == Asleep
    case WBegin => s.worker.Popped?
    case WRun => s.worker.Running?
    case WLower => s.worker == Ran && s.inFlight > 0
    case WNotifyAll => s.worker == Notifying
    case CStart => s.control == Idle
    case CSpawn => s.control == Spawning
    case CStop => s.control == Idle
    case CStopLock => s.control == StopWant && s.mutex == {}
    case CStopClear => s.control == StopHold
    case CNotifyAll => s.control == StopNotify
    case CJoin => s.control == Joining && s.worker == Exited
    case CClearLock => s.control == ClearWant && s.mutex == {}
    case CClear => s.control == ClearHold
    case PEnqueue(p, task) => p !in s.producers
    case PLock(p) => p in s.producers && s.producers[p].PushWant? && s.mutex == {}
    case PPush(p) => p in s.producers && s.producers[p].PushHold?
    case PNotifyOne(p, target) => HasPush(s, p, Pushed) && Waiting(s, target)
    case PNotifyNone(p) => HasPush(s, p, Pushed) && s.worker != Asleep
                           && forall f :: f in s.flushers ==> s.flushers[f] != FlushAsleep
    case FFlush(f) => f !in s.flushers
    case FLock(f) => HasFlush(s, f, FlushWant) && s.mutex == {}
    case FTest(f) => HasFlush(s, f, FlushTest)
    case FSleep(f) => HasFlush(s, f, FlushDecide)
    case FTimeout(f) => HasFlush(s, f, FlushAsleep)
    case FExpire(f) => HasFlush(s, f, FlushDecide)
  }

  function After(s: State, a: Action): State
    requires Enabled(s, a)
  {
    match a
    case WLock => s.(worker := Testing, mutex := {Worker})
    case WTest =>
      if s.queue == [] && s.started then s.(worker := Deciding)
      else if s.queue == [] then s.(worker := Exited, mutex := {})
      else s.(worker := Popped(s.queue[0]), queue := s.queue[1..], mutex := {})
    case WSleep => s.(worker := Asleep, mutex := {})
    case WSpurious => s.(worker := Woken)
    case WBegin => s.(worker := Running(s.worker.task), inFlight := s.inFlight + 1)
    case WRun => s.(worker := Ran, executed := s.executed + [s.worker.task])
    case WLower => s.(worker := Notifying, inFlight := s.inFlight - 1)
    case WNotifyAll => WakeAll(s.(worker := AtLock))
    case CStart => if s.started then s else s.(started := true, control := Spawning)
    case CSpawn => s.(worker := AtLock, control := Idle)
    case CStop => s.(control := StopWant)
    case CStopLock => s.(control := StopHold, mutex := {Control})
    case CStopClear =>
      if s.started then s.(started := false, atStop := s.log, control := StopNotify, mutex := {})
      else s.(control := Idle, mutex := {})
    case CNotifyAll => WakeAll(s.(control := Joining))
    case CJoin => s.(worker := NoThread, control := ClearWant)
    case CClearLock => s.(control := ClearHold, mutex := {Control})
    case CClear => s.(queue := [], log := s.executed, control := Idle, mutex := {})
    case PEnqueue(p, task) => s.(producers := s.producers[p := PushWant(task)])
    case PLock(p) => s.(producers := s.producers[p := PushHold(s.producers[p].task)], mutex := {Producer(p)})
    case PPush(p) =>
      var task := s.producers[p].task;
      s.(producers := s.producers[p := Pushed], queue := s.queue + [task], log := s.log + [task], mutex := {})
    case PNotifyOne(p, target) =>
      var s' := s.(producers := s.producers - {p});
      if target == Worker then s'.(worker := Woken)
      else s'.(flushers := s.flushers[target.id := FlushWant])
    case PNotifyNone(p) => s.(producers := s.producers - {p})
    case FFlush(f) => s.(flushers := s.flushers[f := FlushWant])
    case FLock(f) => s.(flushers := s.flushers[f := FlushTest], mutex := {Flusher(f)})
    case FTest(f) =>
      if s.queue == [] && s.inFlight == 0 then s.(flushers := s.flushers - {f}, mutex := {})
      else s.(flushers := s.flushers[f := FlushDecide])
    case FSleep(f) => s.(flushers := s.flushers[f := FlushAsleep], mutex := {})
    case FTimeout(f) => s.(flushers := s.flushers[f := FlushWant])
    case FExpire(f) => s.(flushers := s.flushers - {f}, mutex := {})
  }

  // ---------- what every step keeps ----------

  /** Who holds the mutex, according to the program counters. */
  ghost predicate Holds(s: State, t: Tid) {
    match t
    case Worker => s.worker == Testing || s.worker == Deciding
    case Control => s.control == StopHold || s.control == ClearHold
    case Producer(p) => p in s.producers && s.producers[p].PushHold?
    case Flusher(f) => f in s.flushers && (s.flushers[f] == FlushTest || s.flushers[f] == FlushDecide)
  }

  /** The mutex has at most one owner, and exactly the threads in critical sections own it. */
  ghost predicate MutexInv(s: State) {
    && (forall t :: t in s.mutex <==> Holds(s, t))
    && (forall t, u :: t in s.mutex && u in s.mutex ==> t == u)
  }

  /** The task the worker has taken from the queue and not run yet. */
  function InHand(w: WorkerPc): seq<Task> {
    match w
    case Popped(t) => [t]
    case Running(t) => [t]
    case _ => []
  }

  /** Nothing is lost, duplicated or reordered. */
  ghost predicate Accounted(s: State) {
    s.executed + InHand(s.worker) + s.queue == s.log
  }

  /** The worker exists when it should, and what was in the log when stop() cleared started_
      has been run by the time the worker exits. */
  ghost predicate Lifecycle(s: State) {
    && s.inFlight == (if s.worker.Running? || s.worker == Ran then 1 else 0)
    && (s.started && s.control != Spawning ==> s.worker != NoThread)
    && (s.worker == Exited ==> !s.started && s.atStop <= s.executed)
    && (s.control == Spawning ==> s.started && s.worker == NoThread)
    && (!s.started && s.control in {Idle, StopWant, StopHold} ==> s.worker == NoThread)
    && (s.control in {StopNotify, Joining} ==> !s.started && s.worker != NoThread && s.atStop <= s.log)
    && (s.control in {ClearWant, ClearHold} ==> !s.started && s.worker == NoThread && s.atStop <= s.executed)
  }

  /** The worker never sleeps through the stop notification. */
  ghost predicate StopWakes(s: State) {
    && (s.worker == Deciding ==> s.started && s.queue == [])
    && (s.worker == Asleep && !s.started ==> s.control == StopNotify)
  }

  ghost predicate Inv(s: State) {
    MutexInv(s) && Accounted(s) && Lifecycle(s) && StopWakes(s)
  }

  lemma InitialInv()
    ensures Inv(Initial())
  {
  }

  /** Waking threads moves nobody into or out of a critical section. */
  lemma WakeKeepsHolds(s: State)
    ensures forall t :: Holds(WakeAll(s), t) == Holds(s, t)
  {
    forall t ensures Holds(WakeAll(s), t) == Holds(s, t) {
      match t
      case Worker =>
      case Control =>
      case Producer(p) =>
      case Flusher(f) =>
    }
  }

  /** Two threads are never in critical sections together. */
  lemma Exclusive(s: State, t: Tid, u: Tid)
    requires MutexInv(s) && Holds(s, t) && Holds(s, u)
    ensures t == u
  {
  }

  /** Only thread `me` moved. */
  ghost predicate OnlyMoved(s: State, r: State, me: Tid) {
    && (me != Worker ==> r.worker == s.worker)
    && (me != Control ==> r.control == s.control)
    && (forall p :: me != Producer(p) ==> (p in r.producers <==> p in s.producers)
                                          && (p in s.producers ==> r.producers[p] == s.producers[p]))
    && (forall f :: me != Flusher(f) ==> (f in r.flushers <==> f in s.flushers)
                                         && (f in s.flushers ==> r.flushers[f] == s.flushers[f]))
  }

  lemma OthersHold(s: State, r: State, me: Tid)
    requires OnlyMoved(s, r, me)
    ensures forall t :: t != me ==> Holds(r, t) == Holds(s, t)
  {
    forall t | t != me ensures Holds(r, t) == Holds(s, t) {
      match t
      case Worker =>
      case Control =>
      case Producer(p) =>
      case Flusher(f) =>
    }
  }

  /** The owner of the mutex is its only owner. */
  lemma Exclusively(s: State, t: Tid)
    requires MutexInv(s) && Holds(s, t)
    ensures s.mutex == {t}
  {
  }

  /** The thread that takes the step. */
  function Actor(a: Action): Tid {
    match a
    case WLock | WTest | WSleep | WSpurious | WBegin | WRun | WLower | WNotifyAll => Worker
    case CStart | CSpawn | CStop | CStopLock | CStopClear | CNotifyAll | CJoin | CClearLock | CClear => Control
    case PEnqueue(p, _) => Producer(p)
    case PLock(p) => Producer(p)
    case PPush(p) => Producer(p)
    case PNotifyOne(p, _) => Producer(p)
    case PNotifyNone(p) => Producer(p)
    case FFlush(f) => Flusher(f)
    case FLock(f) => Flusher(f)
    case FTest(f) => Flusher(f)
    case FSleep(f) => Flusher(f)
    case FTimeout(f) => Flusher(f)
    case FExpire(f) => Flusher(f)
  }

  lemma WorkerKeepsMutex(s: State, a: Action)
    requires MutexInv(s) && Enabled(s, a) && Actor(a) == Worker
    ensures MutexInv(After(s, a))
  {
    hide Waiting;
    var r := After(s, a);
    if a.WNotifyAll? {
      WakeKeepsHolds(s.(worker := AtLock));
      OthersHold(s, s.(worker := AtLock), Worker);
    } else {
      OthersHold(s, r, Worker);
      if a.WTest? || a.WSleep? { Exclusively(s, Worker); }
    }
  }

  lemma ControlKeepsMutex(s: State, a: Action)
    requires MutexInv(s) && Lifecycle(s) && Enabled(s, a) && Actor(a) == Control
    ensures MutexInv(After(s, a))
  {
    hide Waiting;
    var r := After(s, a);
    if a.CNotifyAll? {
      WakeKeepsHolds(s.(control := Joining));
      OthersHold(s, s.(control := Joining), Control);
    } else if a.CJoin? || a.CSpawn? {
      OthersHold(s, s.(worker := r.worker), Worker);
      OthersHold(s.(worker := r.worker), r, Control);
    } else {
      OthersHold(s, r, Control);
      if a.CStopClear? || a.CClear? { Exclusively(s, Control); }
    }
  }

  lemma ProducerKeepsMutex(s: State, a: Action)
    requires MutexInv(s) && Enabled(s, a) && Actor(a).Producer?
    ensures MutexInv(After(s, a))
  {
    var r := After(s, a);
    if a.PNotifyOne? {
      forall t ensures Holds(r, t) == Holds(s, t) {
        match t
        case Worker =>
        case Control =>
        case Producer(q) =>
        case Flusher(f) =>
      }
    } else {
      OthersHold(s, r, Actor(a));
      if a.PPush? { Exclusively(s, Actor(a)); }
    }
  }

  lemma FlusherKeepsMutex(s: State, a: Action)
    requires MutexInv(s) && Enabled(s, a) && Actor(a).Flusher?
    ensures MutexInv(After(s, a))
  {
    hide Waiting;
    var r := After(s, a);
    OthersHold(s, r, Actor(a));
    if a.FTest? || a.FSleep? || a.FExpire? { Exclusively(s, Actor(a)); }
  }

  lemma StepKeepsMutex(s: State, a: Action)
    requires MutexInv(s) && Lifecycle(s) && Enabled(s, a)
    ensures MutexInv(After(s, a))
  {
    hide MutexInv, Enabled, Lifecycle;
    if Actor(a) == Worker {
      WorkerKeepsMutex(s, a);
    } else if Actor(a) == Control {
      ControlKeepsMutex(s, a);
    } else if Actor(a).Producer? {
      ProducerKeepsMutex(s, a);
    } else {
      FlusherKeepsMutex(s, a);
    }
  }

  lemma StepKeepsAccount(s: State, a: Action)
    requires Accounted(s) && Lifecycle(s) && Enabled(s, a)
    ensures Accounted(After(s, a))
  {
    hide WakeFlushers, HasPush, HasFlush, Lifecycle;
    if Actor(a) == Worker {
      WorkerKeepsAccount(s, a);
    } else if Actor(a) == Control {
      ControlKeepsAccount(s, a);
    } else if a.PPush? {
      Regroup(s.executed + InHand(s.worker), s.producers[a.p].task, s.queue);
    }
  }

  lemma ControlKeepsAccount(s: State, a: Action)
    requires Accounted(s) && Lifecycle(s) && Enabled(s, a) && Actor(a) == Control
    ensures Accounted(After(s, a))
  {
    hide WakeFlushers, HasPush, HasFlush, Waiting;
    if a.CClear? { assert s.executed + [] + [] == s.executed; }
  }

  lemma WorkerKeepsAccount(s: State, a: Action)
    requires Accounted(s) && Enabled(s, a) && Actor(a) == Worker
    ensures Accounted(After(s, a))
  {
    hide WakeFlushers, HasPush, HasFlush, Waiting;
    if a.WTest? && s.queue != [] {
      Regroup(s.executed, s.queue[0], s.queue[1..]);
    } else if a.WRun? {
      Regroup(s.executed, s.worker.task, s.queue);
    }
  }

  lemma Regroup(x: seq<Task>, t: Task, y: seq<Task>)
    ensures x + [] + ([t] + y) == x + [t] + y == (x + [t]) + [] + y
    ensures x + (y + [t]) == (x + y) + [t]
  {
  }

  lemma StepKeepsLifecycle(s: State, a: Action)
    requires Inv(s) && Enabled(s, a)
    ensures Lifecycle(After(s, a))
  {
    hide MutexInv, Accounted, Lifecycle, StopWakes, Enabled, After;
    if Actor(a) == Worker {
      WorkerKeepsLifecycle(s, a);
    } else if Actor(a) == Control {
      ControlKeepsLifecycle(s, a);
    } else {
      OthersKeepLifecycle(s, a);
    }
  }

  lemma ControlKeepsLifecycle(s: State, a: Action)
    requires Accounted(s) && Lifecycle(s) && Enabled(s, a) && Actor(a) == Control
    ensures Lifecycle(After(s, a))
  {
    hide WakeFlushers, HasPush, HasFlush, Waiting;
    if a.CNotifyAll? { WakeKeepsLifecycle(s.(control := Joining)); }
  }

  lemma WakeKeepsLifecycle(s: State)
    requires Lifecycle(s)
    ensures Lifecycle(WakeAll(s))
  {
    hide WakeFlushers;
  }

  lemma OthersKeepLifecycle(s: State, a: Action)
    requires Lifecycle(s) && Enabled(s, a) && Actor(a) != Worker && Actor(a) != Control
    ensures Lifecycle(After(s, a))
  {
    hide WakeFlushers, HasPush, HasFlush;
    if a.PPush? { assert s.atStop <= s.log ==> s.atStop <= s.log + [s.producers[a.p].task]; }
  }

  lemma WorkerKeepsLifecycle(s: State, a: Action)
    requires Accounted(s) && Lifecycle(s) && Enabled(s, a) && Actor(a) == Worker
    ensures Lifecycle(After(s, a))
  {
    hide WakeFlushers, Accounted, HasPush, HasFlush, Waiting;
    if a.WTest? && s.queue == [] && !s.started { ExitRunsAll(s); }
  }

  /** With the queue empty and nothing in hand the whole log has been run. */
  lemma ExitRunsAll(s: State)
    requires Accounted(s) && s.queue == [] && s.worker == Testing
    ensures s.executed == s.log
  {
  }

  lemma StepKeepsWakes(s: State, a: Action)
    requires Inv(s) && Enabled(s, a)
    ensures StopWakes(After(s, a))
  {
    match a {
      case PPush(p) => if s.worker == Deciding { Exclusive(s, Worker, Producer(p)); }
      case CStopClear => if s.worker == Deciding { Exclusive(s, Worker, Control); }
      case CClear => if s.worker == Deciding { Exclusive(s, Worker, Control); }
      case _ =>
    }
  }

  lemma StepKeepsInv(s: State, a: Action)
    requires Inv(s) && Enabled(s, a)
    ensures Inv(After(s, a))
  {
    hide MutexInv, Accounted, Lifecycle, StopWakes, Enabled;
    StepKeepsMutex(s, a);
    StepKeepsAccount(s, a);
    StepKeepsLifecycle(s, a);
    StepKeepsWakes(s, a);
  }

  // ---------- runs ----------

  /** The action sequence can be performed from `s`. */
  ghost predicate Runs(s: State, run: seq<Action>)
    decreases |run|
  {
    run == [] || (Enabled(s, run[0]) && Runs(After(s, run[0]), run[1..]))
  }

  ghost function Final(s: State, run: seq<Action>): (r: State)
    requires Runs(s, run)
    decreases |run|
  {
    if run == [] then s else Final(After(s, run[0]), run[1..])
  }

  lemma {:induction false} RunKeepsInv(s: State, run: seq<Action>)
    requires Inv(s) && Runs(s, run)
    ensures Inv(Final(s, run))
    decreases |run|
  {
    hide Inv, Enabled;
    if run != [] {
      StepKeepsInv(s, run[0]);
      RunKeepsInv(After(s, run[0]), run[1..]);
    }
  }

  lemma {:induction false} LastStep(s: State, run: seq<Action>)
    requires run != [] && Runs(s, run)
    ensures var prev, a := run[..|run| - 1], run[|run| - 1];
            Runs(s, prev) && Enabled(Final(s, prev), a) && Final(s, run) == After(Final(s, prev), a)
    decreases |run|
  {
    hide Enabled, After;
    if |run| > 1 {
      LastStep(After(s, run[0]), run[1..]);
      assert run[1..][..|run| - 2] == run[..|run| - 1][1..];
    } else {
      assert run[..0] == [] && run[1..] == [];
    }
  }

  // ---------- what the callers asked for, from the actions alone ----------

  /** The task of the call to enqueue that producer `p` is in, if any. */
  function Carried(run: seq<Action>, p: nat): seq<Task> {
    if run == [] then []
    else
      var prev := run[..|run| - 1];
      match run[|run| - 1]
      case PEnqueue(q, task) => if q == p then [task] else Carried(prev, p)
      case PNotifyOne(q, _) => if q == p then [] else Carried(prev, p)
      case PNotifyNone(q) => if q == p then [] else Carried(prev, p)
      case _ => Carried(prev, p)
  }

  /** How many tasks the worker has run. */
  function TasksRun(run: seq<Action>): nat {
    if run == [] then 0 else TasksRun(run[..|run| - 1]) + if run[|run| - 1].WRun? then 1 else 0
  }

  /** The tasks of the calls to enqueue that have got to their push, in the order they did; a
      final clear drops those not run yet. */
  function Enqueued(run: seq<Action>): seq<Task> {
    if run == [] then []
    else
      var prev := run[..|run| - 1];
      match run[|run| - 1]
      case PPush(p) => Enqueued(prev) + Carried(prev, p)
      case CClear => if TasksRun(prev) <= |Enqueued(prev)| then Enqueued(prev)[..TasksRun(prev)] else Enqueued(prev)
      case _ => Enqueued(prev)
  }

  predicate StartedBy(run: seq<Action>) {
    run != [] &&
    match run[|run| - 1]
    case CStart => true
    case CStopClear => false
    case _ => StartedBy(run[..|run| - 1])
  }

  /** The tasks enqueued before stop() last cleared started_. */
  function EnqueuedAtStop(run: seq<Action>): seq<Task> {
    if run == [] then []
    else
      var prev := run[..|run| - 1];
      if run[|run| - 1].CStopClear? && StartedBy(prev) then Enqueued(prev) else EnqueuedAtStop(prev)
  }

  /** The state keeps the books the actions call for. */
  ghost predicate Tracks(s: State, run: seq<Action>) {
    && s.log == Enqueued(run) && |s.executed| == TasksRun(run)
    && s.started == StartedBy(run) && s.atStop == EnqueuedAtStop(run)
    && CarriesTasks(s, run)
  }

  ghost predicate CarriesTasks(s: State, run: seq<Action>) {
    forall p :: p in s.producers && s.producers[p] != Pushed ==> Carried(run, p) == [s.producers[p].task]
  }

  /** The action list after one more action. */
  lemma Longer(run: seq<Action>, a: Action)
    ensures (run + [a])[..|run + [a]| - 1] == run && (run + [a])[|run + [a]| - 1] == a
  {
  }

  /** From the call to the push a producer carries the caller's task. */
  lemma StepCarries(s: State, run: seq<Action>, a: Action)
    requires CarriesTasks(s, run) && Enabled(s, a)
    ensures CarriesTasks(After(s, a), run + [a])
  {
    Longer(run, a);
    hide WakeFlushers, Waiting, HasPush, HasFlush;
  }

  lemma StepTracks(s: State, run: seq<Action>, a: Action)
    requires Inv(s) && Tracks(s, run) && Enabled(s, a)
    ensures Tracks(After(s, a), run + [a])
  {
    hide MutexInv, StopWakes, Waiting, WakeFlushers, CarriesTasks, HasPush, HasFlush, Lifecycle, Accounted, Carried;
    Longer(run, a);
    StepCarries(s, run, a);
    if a.PPush? {
      CarriedAt(s, run, a.p);
    } else if a.CClear? {
      ClearKeepsRun(s);
    }
  }

  lemma CarriedAt(s: State, run: seq<Action>, p: nat)
    requires CarriesTasks(s, run) && p in s.producers && s.producers[p] != Pushed
    ensures Carried(run, p) == [s.producers[p].task]
  {
  }

  /** What a final clear leaves of the log is what has been run. */
  lemma ClearKeepsRun(s: State)
    requires Inv(s) && s.control == ClearHold
    ensures |s.executed| <= |s.log| && s.log[..|s.executed|] == s.executed
  {
    hide MutexInv, StopWakes;
    assert s.executed + [] + s.queue == s.log;
  }

  lemma {:induction false} RunTracks(run: seq<Action>)
    requires Runs(Initial(), run)
    ensures Inv(Final(Initial(), run)) && Tracks(Final(Initial(), run), run)
  {
    hide Inv, Tracks, Enabled, After, Runs, Final;
    InitialInv();
    RunKeepsInv(Initial(), run);
    if run == [] {
      StartTracks();
    } else {
      var prev := run[..|run| - 1];
      LastStep(Initial(), run);
      RunTracks(prev);
      StepTracks(Final(Initial(), prev), prev, run[|run| - 1]);
      assert prev + [run[|run| - 1]] == run;
    }
  }

  lemma StartTracks()
    ensures Tracks(Final(Initial(), []), [])
  {
  }

  /** In every interleaving: what has been run, what the worker has in hand and what is queued
      make up the tasks the callers enqueued, in order, up to the ones a final clear dropped. */
  lemma TasksInOrder(run: seq<Action>)
    requires Runs(Initial(), run)
    ensures var s := Final(Initial(), run);
            s.executed + InHand(s.worker) + s.queue == Enqueued(run) && |s.executed| == TasksRun(run)
  {
    hide CarriesTasks;
    RunTracks(run);
  }

  /** The drain contract: when stop() has joined the worker, every task enqueued before it
      cleared started_ has been run, once and in order, and nothing is in hand. */
  lemma StopDrains(run: seq<Action>)
    requires Runs(Initial(), run)
    ensures var s := Final(Initial(), run);
            s.control in {ClearWant, ClearHold} ==>
              EnqueuedAtStop(run) <= s.executed && s.executed + s.queue == Enqueued(run) && s.inFlight == 0
  {
    hide Inv, CarriesTasks;
    RunTracks(run);
    if Final(Initial(), run).control in {ClearWant, ClearHold} { DrainedAtJoin(Final(Initial(), run)); }
  }

  lemma DrainedAtJoin(s: State)
    requires Inv(s) && s.control in {ClearWant, ClearHold}
    ensures s.atStop <= s.executed && s.executed + s.queue == s.log && s.inFlight == 0
  {
    hide MutexInv, StopWakes;
    assert s.executed + [] + s.queue == s.executed + s.queue;
  }

  /** `atStop` is the log at the step that clears started_, and stays so until stop() returns. */
  lemma AtStopIsLog(s: State, a: Action)
    requires Enabled(s, a)
    ensures a.CStopClear? && s.started ==> After(s, a).atStop == s.log
    ensures !a.CStopClear? ==> After(s, a).atStop == s.atStop
  {
  }

  /** After its notify_all, stop() never waits for a worker that sleeps: the worker is out of
      the wait set, and it, the owner of the mutex or the join itself can move. */
  lemma JoinProgress(run: seq<Action>) returns (a: Action)
    requires Runs(Initial(), run) && Final(Initial(), run).control == Joining
    ensures var s := Final(Initial(), run);
            && s.worker != Asleep && s.worker != Deciding && s.worker != NoThread
            && Enabled(s, a) && (Actor(a) == Worker || Actor(a) in s.mutex || a == CJoin)
  {
    InitialInv();
    RunKeepsInv(Initial(), run);
    a := JoinStep(Final(Initial(), run));
  }

  lemma JoinStep(s: State) returns (a: Action)
    requires Inv(s) && s.control == Joining
    ensures s.worker != Asleep && s.worker != Deciding && s.worker != NoThread
    ensures Enabled(s, a) && (Actor(a) == Worker || Actor(a) in s.mutex || a == CJoin)
  {
    hide Accounted;
    if s.worker == Testing {
      a := WTest;
    } else if s.worker.Popped? {
      a := WBegin;
    } else if s.worker.Running? {
      a := WRun;
    } else if s.worker == Ran {
      a := WLower;
    } else if s.worker == Notifying {
      a := WNotifyAll;
    } else if s.worker == Exited {
      a := CJoin;
    } else if s.mutex == {} {
      a := WLock;
    } else {
      a := OwnerStep(s);
    }
  }

  /** Outside the worker and the controller, the owner of the mutex can always move. */
  lemma OwnerStep(s: State) returns (a: Action)
    requires MutexInv(s) && s.mutex != {} && !Holds(s, Worker) && !Holds(s, Control)
    ensures Enabled(s, a) && Actor(a) in s.mutex
  {
    var t :| t in s.mutex;
    assert Holds(s, t);
    if t.Producer? {
      a := PPush(t.id);
    } else {
      a := if s.flushers[t.id] == FlushTest then FTest(t.id) else FSleep(t.id);
    }
  }

  /** How far the worker is from exiting once started_ is clear. */
  function Remaining(s: State): nat {
    8 * |s.queue| +
    match s.worker
    case Popped(t) => 7
    case Running(t) => 6
    case Ran => 5
    case Notifying => 4
    case Deciding => 4
    case Asleep => 3
    case AtLock => 2
    case Woken => 2
    case Testing => 1
    case Exited => 0
    case NoThread => 0
  }

  /** While stop() waits, every step of the worker brings it closer to exiting, and no step of
      another thread moves it away except by enqueueing. */
  lemma WorkerDrains(s: State, a: Action)
    requires Inv(s) && s.control == Joining && Enabled(s, a)
    ensures Actor(a) == Worker ==> Remaining(After(s, a)) < Remaining(s)
    ensures Actor(a) != Worker && !a.PPush? && !a.CJoin? ==> Remaining(After(s, a)) <= Remaining(s)
  {
    hide MutexInv, Accounted;
  }

  // ---------- notify_one ----------

  /** A queued task does not wait on a sleeping worker unless a notification is on its way. */
  ghost predicate NoLostWakeup(s: State) {
    s.worker == Asleep && s.queue != [] ==> s.control == StopNotify || exists p :: HasPush(s, p, Pushed)
  }

  /** The step hands the last notification on its way to a flusher while the worker sleeps on a
      queued task. */
  ghost predicate Loses(s: State, a: Action) {
    && a.PNotifyOne? && a.target.Flusher?
    && s.worker == Asleep && s.queue != [] && s.control != StopNotify
    && forall p :: HasPush(s, p, Pushed) ==> p == a.p
  }

  /** Exactly such a step loses a wakeup. */
  lemma WakeupLostIff(s: State, a: Action)
    requires Inv(s) && NoLostWakeup(s) && Enabled(s, a)
    ensures NoLostWakeup(After(s, a)) <==> !Loses(s, a)
  {
    hide Accounted, MutexInv, Lifecycle, WakeFlushers;
    var r := After(s, a);
    if Actor(a).Producer? {
      ProducerWakeup(s, a);
    } else if r.worker == Asleep && r.queue != [] && s.worker == Asleep && s.control != StopNotify {
      var p :| HasPush(s, p, Pushed);
      assert HasPush(r, p, Pushed);
    }
  }

  lemma ProducerWakeup(s: State, a: Action)
    requires NoLostWakeup(s) && Enabled(s, a) && Actor(a).Producer?
    ensures NoLostWakeup(After(s, a)) <==> !Loses(s, a)
  {
    var r := After(s, a);
    forall p | p != Actor(a).id ensures HasPush(s, p, Pushed) == HasPush(r, p, Pushed) {}
    if a.PPush? { assert HasPush(r, a.p, Pushed); }
  }

  ghost predicate NeverLost(s: State, run: seq<Action>)
    requires Runs(s, run)
    decreases |run|
  {
    NoLostWakeup(s) && (run != [] ==> NeverLost(After(s, run[0]), run[1..]))
  }

  ghost predicate NoneLoses(s: State, run: seq<Action>)
    requires Runs(s, run)
    decreases |run|
  {
    run != [] ==> !Loses(s, run[0]) && NoneLoses(After(s, run[0]), run[1..])
  }

  lemma {:induction false} NeverLostFrom(s: State, run: seq<Action>)
    requires Inv(s) && NoLostWakeup(s) && Runs(s, run)
    ensures NeverLost(s, run) <==> NoneLoses(s, run)
    decreases |run|
  {
    hide Inv, Enabled, After, NoLostWakeup, Loses;
    if run != [] {
      WakeupLostIff(s, run[0]);
      StepKeepsInv(s, run[0]);
      if !Loses(s, run[0]) {
        NeverLostFrom(After(s, run[0]), run[1..]);
      } else {
        LostNow(After(s, run[0]), run[1..]);
      }
    }
  }

  lemma LostNow(s: State, run: seq<Action>)
    requires Runs(s, run) && !NoLostWakeup(s)
    ensures !NeverLost(s, run)
  {
  }

  /** In every interleaving: no state has a lost wakeup exactly when no step loses one. */
  lemma NeverLostIff(run: seq<Action>)
    requires Runs(Initial(), run)
    ensures NeverLost(Initial(), run) <==> NoneLoses(Initial(), run)
  {
    InitialInv();
    NeverLostFrom(Initial(), run);
  }

  lemma {:induction false} NoFlusherNoLoss(s: State, run: seq<Action>)
    requires s.flushers == map[] && Runs(s, run)
    requires forall i :: 0 <= i < |run| ==> !Actor(run[i]).Flusher?
    ensures NoneLoses(s, run)
    decreases |run|
  {
    if run != [] {
      NoFlusherAppears(s, run[0]);
      NoFlusherNoLoss(After(s, run[0]), run[1..]);
    }
  }

  lemma NoFlusherAppears(s: State, a: Action)
    requires s.flushers == map[] && Enabled(s, a) && !Actor(a).Flusher?
    ensures After(s, a).flushers == map[] && !Loses(s, a)
  {
  }

  /** No wakeup is lost in any run in which nobody calls flush(). */
  lemma WithoutFlush(run: seq<Action>)
    requires Runs(Initial(), run) && forall i :: 0 <= i < |run| ==> !Actor(run[i]).Flusher?
    ensures NeverLost(Initial(), run)
  {
    NeverLostIff(run);
    NoFlusherNoLoss(Initial(), run);
  }

  lemma {:induction false} Extend(s: State, run: seq<Action>, a: Action)
    requires Runs(s, run) && Enabled(Final(s, run), a)
    ensures Runs(s, run + [a]) && Final(s, run + [a]) == After(Final(s, run), a)
    decreases |run|
  {
    hide Enabled, After;
    if run == [] {
      assert run + [a] == [a];
    } else {
      Extend(After(s, run[0]), run[1..], a);
      assert (run + [a])[1..] == run[1..] + [a];
    }
  }

  /** Some run from the initial state ends in `s`. */
  ghost predicate Reachable(s: State) {
    exists run :: Runs(Initial(), run) && Final(Initial(), run) == s
  }

  lemma Then(s: State, a: Action) returns (r: State)
    requires Reachable(s) && Enabled(s, a)
    ensures Reachable(r) && r == After(s, a)
  {
    hide Enabled, After, Runs, Final;
    var run :| Runs(Initial(), run) && Final(Initial(), run) == s;
    Extend(Initial(), run, a);
    r := After(s, a);
  }

  /** The queue is not empty, the worker sleeps, and no notification is on its way. */
  ghost predicate Stuck(s: State) {
    && s.started && s.control == Idle && s.worker == Asleep && s.queue != [] && s.mutex == {}
    && s.producers == map[] && forall f :: f in s.flushers ==> s.flushers[f] == FlushAsleep
  }

  /** A run that loses one: the flusher tests the predicate while the
      worker's task is in flight, misses the worker's notify_all because it comes before the
      flusher is in the wait set, and so shares the wait set with the worker; then it takes
      the one notification of the next enqueue.  Nothing but a timeout, a spurious wakeup or
      another call moves the worker on. */
  lemma FlushStealsWakeup() returns (s: State)
    ensures Reachable(s) && Stuck(s) && !NoLostWakeup(s)
  {
    hide Reachable;
    s := TaskInFlight();
    s := BothAsleep(s);
    s := TaskQueued(s);
  }

  lemma TaskInFlight() returns (s: State)
    ensures Reachable(s) && s == State(true, [], 1, {}, Ran, Idle, map[], map[], [0], [0], [])
  {
    hide Reachable;
    s := FirstTaskQueued();
    s := Then(s, WLock);
    s := Then(s, WTest);
    s := Then(s, WBegin);
    s := Then(s, WRun);
  }

  lemma FirstTaskQueued() returns (s: State)
    ensures Reachable(s) && s == State(true, [0], 0, {}, AtLock, Idle, map[], map[], [0], [], [])
  {
    hide Reachable;
    s := Started();
    s := Then(s, PEnqueue(0, 0));
    s := Then(s, PLock(0));
    s := Then(s, PPush(0));
    assert HasPush(s, 0, Pushed);
    s := Then(s, PNotifyNone(0));
    assert s.producers == map[];
  }

  lemma Started() returns (s: State)
    ensures Reachable(s) && s == State(true, [], 0, {}, AtLock, Idle, map[], map[], [], [], [])
  {
    s := Initial();
    assert Runs(s, []) && Final(s, []) == s;
    s := Then(s, CStart);
    s := Then(s, CSpawn);
  }

  /** A flusher enters the wait set after the worker's notify_all, and the worker, finding the
      queue empty, joins it there. */
  lemma BothAsleep(s0: State) returns (s: State)
    requires Reachable(s0) && s0 == State(true, [], 1, {}, Ran, Idle, map[], map[], [0], [0], [])
    ensures Reachable(s) && s == State(true, [], 0, {}, Asleep, Idle, map[], map[0 := FlushAsleep], [0], [0], [])
  {
    hide Reachable;
    s := FlusherLate(s0);
    s := Then(s, FSleep(0));
    s := Then(s, WLock);
    s := Then(s, WTest);
    s := Then(s, WSleep);
    assert s.flushers == map[0 := FlushAsleep];
  }

  lemma FlusherLate(s0: State) returns (s: State)
    requires Reachable(s0) && s0 == State(true, [], 1, {}, Ran, Idle, map[], map[], [0], [0], [])
    ensures Reachable(s)
    ensures s == State(true, [], 0, {Flusher(0)}, AtLock, Idle, map[], map[0 := FlushDecide], [0], [0], [])
  {
    hide Reachable, WakeFlushers;
    s := FlusherTested(s0);
    s := Then(s, WLower);
    s := Then(s, WNotifyAll);
    NobodyWoken(map[0 := FlushDecide]);
  }

  lemma NobodyWoken(fs: map<nat, FlusherPc>)
    requires forall f :: f in fs ==> fs[f] != FlushAsleep
    ensures WakeFlushers(fs) == fs
  {
  }

  lemma FlusherTested(s0: State) returns (s: State)
    requires Reachable(s0) && s0 == State(true, [], 1, {}, Ran, Idle, map[], map[], [0], [0], [])
    ensures Reachable(s)
    ensures s == State(true, [], 1, {Flusher(0)}, Ran, Idle, map[], map[0 := FlushDecide], [0], [0], [])
  {
    hide Reachable, WakeAll, Waiting;
    s := FlusherLocked(s0);
    s := Then(s, FTest(0));
    assert s.flushers == map[0 := FlushDecide];
  }

  lemma FlusherLocked(s0: State) returns (s: State)
    requires Reachable(s0) && s0.flushers == map[] && s0.mutex == {}
    ensures Reachable(s) && s == s0.(flushers := map[0 := FlushTest], mutex := {Flusher(0)})
  {
    hide Reachable, WakeAll, Waiting;
    s := Then(s0, FFlush(0));
    s := Then(s, FLock(0));
    assert s.flushers == map[0 := FlushTest];
  }

  /** A task is enqueued, its notification goes to the flusher, which goes back to sleep. */
  lemma TaskQueued(s0: State) returns (s: State)
    requires Reachable(s0)
    requires s0 == State(true, [], 0, {}, Asleep, Idle, map[], map[0 := FlushAsleep], [0], [0], [])
    ensures Reachable(s) && Stuck(s)
  {
    hide Reachable;
    s := NotifiedFlusher(s0);
    s := Then(s, FLock(0));
    s := Then(s, FTest(0));
    s := Then(s, FSleep(0));
    assert s.flushers == map[0 := FlushAsleep];
  }

  lemma NotifiedFlusher(s0: State) returns (s: State)
    requires Reachable(s0)
    requires s0 == State(true, [], 0, {}, Asleep, Idle, map[], map[0 := FlushAsleep], [0], [0], [])
    ensures Reachable(s)
    ensures s == State(true, [1], 0, {}, Asleep, Idle, map[], map[0 := FlushWant], [0, 1], [0], [])
  {
    hide Reachable;
    s := Then(s0, PEnqueue(0, 1));
    s := Then(s, PLock(0));
    s := Then(s, PPush(0));
    s := Then(s, PNotifyOne(0, Flusher(0)));
    assert s.producers == map[] && s.flushers == map[0 := FlushWant];
  }

  // ---------- what a flush has seen ----------

  /** A flush that returns true has seen every task run exactly when the worker is not between
      taking a task off the queue and raising in_flight_. */
  lemma FlushSeesAllIff(s: State, f: nat)
    requires Inv(s) && Enabled(s, FTest(f)) && f !in After(s, FTest(f)).flushers
    ensures s.executed == s.log <==> !s.worker.Popped?
  {
    hide MutexInv, StopWakes;
    assert s.queue == [] && s.inFlight == 0;
    assert |s.executed| + |InHand(s.worker)| == |s.log|;
    assert s.executed + [] + [] == s.executed;
  }

  /** It can be there: a flush returns true with a task not run. */
  lemma FlushReturnsEarly() returns (s: State)
    ensures Reachable(s) && Enabled(s, FTest(0)) && 0 !in After(s, FTest(0)).flushers
    ensures s.executed != s.log
  {
    hide Reachable;
    s := FirstTaskQueued();
    s := Then(s, WLock);
    s := Then(s, WTest);
    s := FlusherLocked(s);
  }

  // ---------- how each call proceeds ----------

  /** A wakeup, by notification, timeout or for no reason, takes its thread out of the wait set,
      and nothing else but a notify_all does. */
  lemma WakesUp(s: State, a: Action, t: Tid)
    requires Inv(s) && Enabled(s, a) && Waiting(s, t)
    ensures !Waiting(After(s, a), t) <==>
              || (t == Worker && a == WSpurious) || (t.Flusher? && a == FTimeout(t.id))
              || (a.PNotifyOne? && a.target == t) || a == WNotifyAll || a == CNotifyAll
  {
    hide MutexInv, Accounted, StopWakes;
  }

  /** How many steps of its own stop() or start() still has to take. */
  function ControlLeft(c: ControlPc): nat {
    match c
    case StopWant => 6
    case StopHold => 5
    case StopNotify => 4
    case Joining => 3
    case ClearWant => 2
    case ClearHold => 1
    case Spawning => 1
    case Idle => 0
  }

  /** Every step of a call to start() or stop() under way brings it nearer to its end; a call to
      stop() begins with all six, and one to start() with one unless already started. */
  lemma ControlAdvances(s: State, a: Action)
    requires Enabled(s, a)
    ensures var r := After(s, a);
            if a == CStop then ControlLeft(r.control) == 6
            else if a == CStart then ControlLeft(r.control) == (if s.started then 0 else 1) && r.started
            else if Actor(a) == Control then ControlLeft(r.control) < ControlLeft(s.control)
            else r.control == s.control
  {
    hide WakeFlushers, HasPush, HasFlush, Waiting;
    if Actor(a) != Control { ControlStays(s, a); }
  }

  lemma ControlStays(s: State, a: Action)
    requires Enabled(s, a) && Actor(a) != Control
    ensures After(s, a).control == s.control
  {
    hide WakeFlushers, HasPush, HasFlush, Waiting;
  }

  /** A call to enqueue lasts from PEnqueue to its notification. */
  lemma EnqueueUnderWay(s: State, a: Action, p: nat)
    requires Enabled(s, a)
    ensures p in After(s, a).producers <==>
              || (a.PEnqueue? && a.p == p)
              || (p in s.producers && !(a.PNotifyOne? && a.p == p) && !(a.PNotifyNone? && a.p == p))
  {
    hide WakeFlushers, Waiting, HasFlush;
    if !Actor(a).Producer? { ProducersStay(s, a); }
  }

  lemma ProducersStay(s: State, a: Action)
    requires Enabled(s, a) && !Actor(a).Producer?
    ensures After(s, a).producers == s.producers
  {
    hide WakeFlushers, HasPush, HasFlush, Waiting;
  }

  /** A call to flush() lasts from FFlush until it finds everything done or its time is up. */
  lemma FlushUnderWay(s: State, a: Action, f: nat)
    requires Enabled(s, a)
    ensures f in After(s, a).flushers <==>
              || a == FFlush(f)
              || (f in s.flushers && a != FExpire(f) && !(a == FTest(f) && s.queue == [] && s.inFlight == 0))
  {
    hide WakeFlushers, HasPush;
    if !Actor(a).Flusher? { FlushersStay(s, a); }
  }

  lemma FlushersStay(s: State, a: Action)
    requires Enabled(s, a) && !Actor(a).Flusher?
    ensures After(s, a).flushers.Keys == s.flushers.Keys
  {
    hide WakeFlushers, HasPush;
    WakeKeepsKeys(s.flushers);
    if a.PNotifyOne? && a.target.Flusher? { assert a.target.id in s.flushers; }
  }

  lemma WakeKeepsKeys(fs: map<nat, FlusherPc>)
    ensures WakeFlushers(fs).Keys == fs.Keys
  {
  }

  // ---------- wakeups of flush ----------

  /** A flusher in the wait set is not kept there with nothing left to wait for, unless a
      notify_all is about to come. */
  ghost predicate FlushServed(s: State) {
    AllDone(s) && s.worker != Notifying && s.control != StopNotify
    ==> forall f :: f in s.flushers ==> s.flushers[f] != FlushAsleep
  }

  /** Nothing is queued, in hand or in flight. */
  predicate AllDone(s: State) { s.queue == [] && s.inFlight == 0 && !s.worker.Popped? }

  /** A flusher enters the wait set after the worker's last notify_all, or the final clear of
      stop() drops tasks a flusher in the wait set was waiting for. */
  ghost predicate MissesFlush(s: State, a: Action) {
    || (a.FSleep? && AllDone(s) && s.worker != Notifying && s.control != StopNotify)
    || (a == CClear && s.queue != [] && exists f :: HasFlush(s, f, FlushAsleep))
  }

  /** Exactly such a step leaves a flusher waiting for its timeout for no reason. */
  lemma FlushMissedIff(s: State, a: Action)
    requires Inv(s) && FlushServed(s) && Enabled(s, a)
    ensures FlushServed(After(s, a)) <==> !MissesFlush(s, a)
  {
    hide MutexInv, Accounted, StopWakes, FlushServed, MissesFlush, Lifecycle, After, Enabled;
    if Actor(a) == Worker {
      WorkerFlush(s, a);
    } else if Actor(a) == Control {
      ControlFlush(s, a);
    } else if Actor(a).Producer? {
      ProducerFlush(s, a);
    } else {
      FlusherFlush(s, a);
    }
  }

  lemma NoneLeftAsleep(fs: map<nat, FlusherPc>)
    ensures forall f :: f in WakeFlushers(fs) ==> WakeFlushers(fs)[f] != FlushAsleep
  {
  }

  lemma WorkerFlush(s: State, a: Action)
    requires Lifecycle(s) && FlushServed(s) && Enabled(s, a) && Actor(a) == Worker
    ensures FlushServed(After(s, a)) && !MissesFlush(s, a)
  {
    hide WakeFlushers, HasPush, HasFlush, Waiting;
    if a.WNotifyAll? { NoneLeftAsleep(s.flushers); }
  }

  lemma ControlFlush(s: State, a: Action)
    requires Lifecycle(s) && FlushServed(s) && Enabled(s, a) && Actor(a) == Control
    ensures FlushServed(After(s, a)) <==> !MissesFlush(s, a)
  {
    hide WakeFlushers, HasPush, Waiting;
    NoneLeftAsleep(s.flushers);
    if a == CClear { ClearFlush(s); }
  }

  lemma ClearFlush(s: State)
    requires Lifecycle(s) && FlushServed(s) && s.control == ClearHold
    ensures FlushServed(After(s, CClear)) <==> s.queue == [] || forall f :: !HasFlush(s, f, FlushAsleep)
  {
    if f :| HasFlush(s, f, FlushAsleep) { assert f in s.flushers && s.flushers[f] == FlushAsleep; }
    if f :| f in s.flushers && s.flushers[f] == FlushAsleep { assert HasFlush(s, f, FlushAsleep); }
  }

  lemma ProducerFlush(s: State, a: Action)
    requires FlushServed(s) && Enabled(s, a) && Actor(a).Producer?
    ensures FlushServed(After(s, a)) && !MissesFlush(s, a)
  {
    hide WakeFlushers, HasFlush;
  }

  lemma FlusherFlush(s: State, a: Action)
    requires FlushServed(s) && Enabled(s, a) && Actor(a).Flusher?
    ensures FlushServed(After(s, a)) <==> !MissesFlush(s, a)
  {
    hide WakeFlushers, HasPush, Waiting;
    if a.FSleep? { assert After(s, a).flushers[a.f] == FlushAsleep; }
  }

  /** It happens: everything is done, a flusher is in the wait set, and no notification is coming. */
  lemma FlushMisses() returns (s: State)
    ensures Reachable(s) && !FlushServed(s)
  {
    s := TaskInFlight();
    s := BothAsleep(s);
    assert s.flushers[0] == FlushAsleep;
  }
}

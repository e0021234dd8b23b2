/**
 * The fiber runtime of `dwframe/scheduler.cc`, `dwframe/IoManager.cc`, `dwframe/fiber.cc` and
 * `dwframe/hook.cc` as a protocol. Every region under a mutex is one atomic step; so are the context
 * switches, the decrement of the active count and the settling after a fiber has come back.
 */
module Runtime {
  import opened Options

  type Fiber = nat
  type Tid = nat

  datatype FState = Init | Hold | Exec | Term | Ready | Except

  datatype Event = Read | Write
  datatype Key = Key(fd: nat, event: Event)

  /** `Wake(f)` is `bind(schedule, iom, f, -1)`, what `sleep` puts into a timer; anything else is `Other`. */
  datatype Callback = Wake(f: Fiber) | Other(code: nat)

  /** What `schedule` takes, and what an event context holds. */
  datatype Task = Resume(f: Fiber) | Call(cb: Callback)

  /** An element of `m_fibers`; `thread` is -1 for any. The serial number tells equal tasks apart. */
  datatype Entry = Entry(id: nat, task: Task, thread: int)

  datatype Timer = Timer(cb: Callback, recurring: bool)

  /**
   * `Running`: the fiber executes. `Leaving`: it has set its state but not yet saved its context.
   * `Back`: the worker continues behind `swapIn`. `Dropped`: the active count has been decremented.
   */
  datatype Stage = Running | Leaving | Back | Dropped

  datatype Phase =
    | Head                       // at the head of the run loop
    | Taken(e: Entry)            // dequeued
    | On(id: nat, f: Fiber, viaCb: bool, stage: Stage, owes: Option<Fiber>)
    | Idle(batch: seq<Callback>) // in the idle fiber, with expired callbacks in hand
    | Exited

  /** `spare` is `cb_fiber`; `idleDone` says that the idle fiber is in state TERM. */
  datatype Worker = Worker(phase: Phase, spare: Option<Fiber>, idleDone: bool)

  datatype State = State(
    fibers: map<Fiber, FState>,
    queue: seq<Entry>,
    workers: map<Tid, Worker>,
    events: map<Key, Task>,
    timers: map<nat, Timer>,
    active: int,
    next: nat,
    retired: set<nat>)

  /** `actor` is the worker on which the step is taken; none is a thread that is not a worker. */
  datatype Step =
    | Dequeue(w: Tid)
    | Start(w: Tid, made: Fiber)
    | Discharge(w: Tid)
    | AddEvent(actor: Option<Tid>, key: Key, task: Task)
    | DelEvent(actor: Option<Tid>, key: Key)
    | Trigger(actor: Option<Tid>, key: Key)
    | AddTimer(actor: Option<Tid>, t: nat, timer: Timer)
    | CancelTimer(actor: Option<Tid>, t: nat)
    | Schedule(actor: Option<Tid>, task: Task, thread: int)
    | NewFiber(f: Fiber)
    | Yield(w: Tid)
    | Leave(w: Tid, st: FState)
    | SwapOut(w: Tid)
    | Account(w: Tid)
    | Settle(w: Tid)
    | GoIdle(w: Tid)
    | Expire(w: Tid, t: nat)
    | Flush(w: Tid)
    | LeaveIdle(w: Tid)
    | StopIdle(w: Tid)
    | Exit(w: Tid)

  // ---- The scan of the run loop ----------------------------------------------------------------

  /** The scan takes an entry that is not pinned elsewhere and whose fiber is not executing. */
  predicate Eligible(fibers: map<Fiber, FState>, e: Entry, w: Tid) {
    && (e.thread == -1 || e.thread == w)
    && !(e.task.Resume? && e.task.f in fibers && fibers[e.task.f] == Exec)
  }

  /** Index of the first eligible entry, or the length. */
  function Scan(fibers: map<Fiber, FState>, q: seq<Entry>, w: Tid): (k: nat)
    ensures k <= |q|
    ensures k < |q| ==> Eligible(fibers, q[k], w)
    ensures forall i :: 0 <= i < k ==> !Eligible(fibers, q[i], w)
  {
    if q == [] then 0 else if Eligible(fibers, q[0], w) then 0 else 1 + Scan(fibers, q[1..], w)
  }

  function Without<T>(q: seq<T>, k: nat): seq<T>
    requires k < |q|
  {
    q[..k] + q[k + 1..]
  }

  // ---- Steps -----------------------------------------------------------------------------------

  function SetPhase(s: State, w: Tid, p: Phase): State
    requires w in s.workers
  {
    s.(workers := s.workers[w := s.workers[w].(phase := p)])
  }

  /** `scheduleNolock`: a task goes to the end of the list. */
  function Push(s: State, task: Task, thread: int): State {
    s.(queue := s.queue + [Entry(s.next, task, thread)], next := s.next + 1)
  }

  function Calls(batch: seq<Callback>, from: nat): seq<Entry> {
    seq(|batch|, i requires 0 <= i < |batch| => Entry(from + i, Call(batch[i]), -1))
  }

  /** The worker whose running fiber has nothing left to discharge may do anything. */
  predicate Free(s: State, w: Tid) {
    w in s.workers && s.workers[w].phase.On? && s.workers[w].phase.stage == Running
    && s.workers[w].phase.owes.None?
  }

  predicate MayAct(s: State, actor: Option<Tid>) {
    actor.Some? ==> Free(s, actor.value)
  }

  /** An event waits with a callback or with the fiber that is running. */
  predicate IsOwn(s: State, actor: Option<Tid>, task: Task)
    requires MayAct(s, actor)
  {
    task.Resume? ==> actor.Some? && task.f == s.workers[actor.value].phase.f
  }

  predicate IsIdle(s: State, w: Tid) {
    w in s.workers && s.workers[w].phase.Idle?
  }

  predicate AtHead(s: State, w: Tid) {
    w in s.workers && s.workers[w].phase.Head?
  }

  predicate Staged(s: State, w: Tid, stage: Stage) {
    w in s.workers && s.workers[w].phase.On? && s.workers[w].phase.stage == stage
  }

  /** Whether a step can happen. The source's assertions are not part of this; see `Asserted`. */
  predicate Enabled(s: State, t: Step) {
    match t
    case Dequeue(w) => AtHead(s, w) && Scan(s.fibers, s.queue, w) < |s.queue|
    case Start(w, made) => w in s.workers && s.workers[w].phase.Taken? && made !in s.fibers
    case Discharge(w) => Staged(s, w, Running) && s.workers[w].phase.owes.Some?
    case AddEvent(actor, key, task) => MayAct(s, actor) && key !in s.events && IsOwn(s, actor, task)
    case DelEvent(actor, key) => MayAct(s, actor) && key in s.events
    case Trigger(actor, key) => (MayAct(s, actor) || (actor.Some? && IsIdle(s, actor.value))) && key in s.events
    case AddTimer(actor, t, timer) => MayAct(s, actor) && t !in s.timers
    case CancelTimer(actor, t) => MayAct(s, actor) && t in s.timers
    case Schedule(actor, task, thread) => MayAct(s, actor)
    case NewFiber(f) => f !in s.fibers
    case Yield(w) => Free(s, w)
    case Leave(w, st) => Free(s, w) && st in {Ready, Term, Except}
    case SwapOut(w) => Staged(s, w, Leaving)
    case Account(w) => Staged(s, w, Back)
    case Settle(w) => Staged(s, w, Dropped)
    case GoIdle(w) => AtHead(s, w) && Scan(s.fibers, s.queue, w) == |s.queue| && !s.workers[w].idleDone
    case Expire(w, t) => IsIdle(s, w) && t in s.timers
    case Flush(w) => IsIdle(s, w)
    case LeaveIdle(w) => IsIdle(s, w) && s.workers[w].phase.batch == []
    case StopIdle(w) => IsIdle(s, w) && s.workers[w].phase.batch == []
    case Exit(w) => AtHead(s, w) && Scan(s.fibers, s.queue, w) == |s.queue| && s.workers[w].idleDone
  }

  /** `Start` for a callback: the recycled or a new callback fiber executes it. */
  function StartCall(s: State, w: Tid, e: Entry, cb: Callback, c: Fiber): State
    requires w in s.workers
  {
    s.(fibers := s.fibers[c := Exec],
       workers := s.workers[w := s.workers[w].(
         phase := On(e.id, c, true, Running, if cb.Wake? then Some(cb.f) else None), spare := None)])
  }

  function Retire(s: State, w: Tid, id: nat): State
    requires w in s.workers
  {
    SetPhase(s, w, Head).(retired := s.retired + {id})
  }

  function StateOf(s: State, f: Fiber): FState {
    if f in s.fibers then s.fibers[f] else Init
  }

  function SettleNext(s: State, w: Tid, id: nat, f: Fiber, viaCb: bool): State
    requires w in s.workers
  {
    var r := Retire(s, w, id);
    match StateOf(s, f)
    case Ready => Push(r, Resume(f), -1)
    case Init => r.(fibers := r.fibers[f := Hold])
    case Hold => r.(fibers := r.fibers[f := Hold])
    case Exec => r.(fibers := r.fibers[f := Hold])
    case _ =>
      if viaCb then
        r.(fibers := r.fibers[f := Init], workers := r.workers[w := r.workers[w].(spare := Some(f))])
      else r
  }

  function Next(s: State, t: Step): State
    requires Enabled(s, t)
  {
    match t
    case Dequeue(w) =>
      var k := Scan(s.fibers, s.queue, w);
      SetPhase(s, w, Taken(s.queue[k])).(queue := Without(s.queue, k), active := s.active + 1)
    case Start(w, made) =>
      var e := s.workers[w].phase.e;
      (match e.task
       case Resume(f) =>
         if StateOf(s, f) in {Term, Except} then Retire(s, w, e.id).(active := s.active - 1)
         else SetPhase(s, w, On(e.id, f, false, Running, None)).(fibers := s.fibers[f := Exec])
       case Call(cb) =>
         StartCall(s, w, e, cb, if s.workers[w].spare.Some? then s.workers[w].spare.value else made))
    case Discharge(w) =>
      var p := s.workers[w].phase;
      Push(SetPhase(s, w, p.(owes := None)), Resume(p.owes.value), -1)
    case AddEvent(w, key, task) => s.(events := s.events[key := task])
    case DelEvent(w, key) => s.(events := s.events - {key})
    case Trigger(w, key) => Push(s.(events := s.events - {key}), s.events[key], -1)
    case AddTimer(w, t, timer) => s.(timers := s.timers[t := timer])
    case CancelTimer(w, t) => s.(timers := s.timers - {t})
    case Schedule(actor, task, thread) => Push(s, task, thread)
    case NewFiber(f) => s.(fibers := s.fibers[f := Init])
    case Yield(w) => SetPhase(s, w, s.workers[w].phase.(stage := Back))
    case Leave(w, st) =>
      SetPhase(s, w, s.workers[w].phase.(stage := Leaving)).(fibers := s.fibers[s.workers[w].phase.f := st])
    case SwapOut(w) => SetPhase(s, w, s.workers[w].phase.(stage := Back))
    case Account(w) => SetPhase(s, w, s.workers[w].phase.(stage := Dropped)).(active := s.active - 1)
    case Settle(w) =>
      var p := s.workers[w].phase;
      SettleNext(s, w, p.id, p.f, p.viaCb)
    case GoIdle(w) => SetPhase(s, w, Idle([]))
    case Expire(w, t) =>
      var timer := s.timers[t];
      SetPhase(s, w, Idle(s.workers[w].phase.batch + [timer.cb])).(
        timers := if timer.recurring then s.timers else s.timers - {t})
    case Flush(w) =>
      var batch := s.workers[w].phase.batch;
      SetPhase(s, w, Idle([])).(queue := s.queue + Calls(batch, s.next), next := s.next + |batch|)
    case LeaveIdle(w) => SetPhase(s, w, Head)
    case StopIdle(w) => s.(workers := s.workers[w := s.workers[w].(phase := Head, idleDone := true)])
    case Exit(w) => SetPhase(s, w, Exited)
  }

  /** The assertions of the source at the step: in `swapIn`, in `reset`, in `addEvent`. */
  predicate Asserted(s: State, t: Step) {
    match t
    case Start(w, _) =>
      w in s.workers && s.workers[w].phase.Taken? ==>
        (match s.workers[w].phase.e.task
         case Resume(f) => f in s.fibers && s.fibers[f] != Exec
         case Call(_) => s.workers[w].spare.Some? ==> StateOf(s, s.workers[w].spare.value) in {Term, Except, Init})
    case AddEvent(actor, key, task) =>
      MayAct(s, actor) && IsOwn(s, actor, task) && task.Resume? ==> StateOf(s, task.f) == Exec
    case _ => true
  }
}

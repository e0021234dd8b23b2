/**
 * Linear wake-ups. A claim on a fiber is anything that may lead to its being switched to: a queue entry,
 * an event context, a timer, a callback in some hand, a dequeued task, the READY state a worker is about
 * to settle, or being the spare callback fiber. The runtime never duplicates a claim; if its users do not
 * either, no two workers ever hold the same fiber.
 */
module RuntimeClaims {
  import opened Options
  import opened Runtime

  /** The places where a claim can be. */
  datatype Place =
    | AtQueue(i: nat)
    | AtEvent(key: Key)
    | AtTimer(t: nat)
    | AtBatch(w: Tid, i: nat)
    | AtHand(w: Tid)    // dequeued, to be resumed
    | AtBody(w: Tid)    // a callback dequeued or executing, which will schedule the fiber
    | AtSettle(w: Tid)  // in state READY on its worker
    | AtSpare(w: Tid)

  function CallbackClaim(cb: Callback): Option<Fiber> {
    if cb.Wake? then Some(cb.f) else None
  }

  function TaskClaim(t: Task): Option<Fiber> {
    if t.Resume? then Some(t.f) else CallbackClaim(t.cb)
  }

  /** The fiber that is on a worker: between `swapIn` and settling. */
  function OnFiber(s: State, w: Tid): Option<Fiber> {
    if w in s.workers && s.workers[w].phase.On? then Some(s.workers[w].phase.f) else None
  }

  function PhaseHand(p: Phase): Option<Fiber> {
    if p.Taken? && p.e.task.Resume? then Some(p.e.task.f) else None
  }

  function PhaseBody(p: Phase): Option<Fiber> {
    match p
    case Taken(e) => if e.task.Call? then CallbackClaim(e.task.cb) else None
    case On(_, _, _, _, owes) => owes
    case _ => None
  }

  function PhaseSettle(s: State, p: Phase): Option<Fiber> {
    if p.On? && StateOf(s, p.f) == Ready then Some(p.f) else None
  }

  function PhaseBatch(p: Phase, i: nat): Option<Fiber> {
    if p.Idle? && i < |p.batch| then CallbackClaim(p.batch[i]) else None
  }

  /** The fiber claimed at a place. */
  function Claim(s: State, p: Place): Option<Fiber> {
    match p
    case AtQueue(i) => if i < |s.queue| then TaskClaim(s.queue[i].task) else None
    case AtEvent(key) => if key in s.events then TaskClaim(s.events[key]) else None
    case AtTimer(t) => if t in s.timers then CallbackClaim(s.timers[t].cb) else None
    case AtBatch(w, i) => if w in s.workers then PhaseBatch(s.workers[w].phase, i) else None
    case AtHand(w) => if w in s.workers then PhaseHand(s.workers[w].phase) else None
    case AtBody(w) => if w in s.workers then PhaseBody(s.workers[w].phase) else None
    case AtSettle(w) => if w in s.workers then PhaseSettle(s, s.workers[w].phase) else None
    case AtSpare(w) => if w in s.workers then s.workers[w].spare else None
  }

  /** Every fiber is claimed at one place at most. */
  ghost predicate Linear(s: State) {
    forall p, q :: Claim(s, p).Some? && Claim(s, p) == Claim(s, q) ==> p == q
  }

  /** Claimed fibers exist. */
  ghost predicate Known(s: State) {
    forall p :: Claim(s, p).Some? ==> Claim(s, p).value in s.fibers
  }

  /** A fiber is on one worker at most, and in a state that fits its stage. */
  ghost predicate Placed(s: State) {
    && (forall w, v :: OnFiber(s, w).Some? && OnFiber(s, w) == OnFiber(s, v) ==> w == v)
    && (forall w :: OnFiber(s, w).Some? ==> OnFiber(s, w).value in s.fibers && FitsStage(s, s.workers[w].phase))
  }

  predicate FitsStage(s: State, p: Phase)
    requires p.On?
  {
    var st := StateOf(s, p.f);
    match p.stage
    case Running => st == Exec
    case Leaving => st in {Ready, Term, Except}
    case _ => st in {Exec, Ready, Term, Except}
  }

  /**
   * A fiber on a worker is claimed only while it is EXEC, or by that worker because it is READY. A
   * fiber in hand or spare is on no worker; in hand it is not EXEC, spare it is INIT.
   */
  ghost predicate Guarded(s: State) {
    && (forall p, w :: Claim(s, p).Some? && Claim(s, p) == OnFiber(s, w) ==>
          p == AtSettle(w) || (StateOf(s, Claim(s, p).value) == Exec && !p.AtHand? && !p.AtSpare?))
    && (forall w :: Claim(s, AtHand(w)).Some? ==> StateOf(s, Claim(s, AtHand(w)).value) != Exec)
    && (forall w :: Claim(s, AtSpare(w)).Some? ==> StateOf(s, Claim(s, AtSpare(w)).value) == Init)
  }

  /** A recurring timer fires more than once, so it must not carry a wake-up. */
  ghost predicate NoRecurringWake(s: State) {
    forall t :: t in s.timers && s.timers[t].recurring ==> CallbackClaim(s.timers[t].cb).None?
  }

  ghost predicate Inv(s: State) {
    Linear(s) && Known(s) && Placed(s) && Guarded(s) && NoRecurringWake(s)
  }

  // ---- The discipline of the users -----------------------------------------------------------

  ghost predicate Unclaimed(s: State, f: Fiber) {
    forall p :: Claim(s, p) != Some(f)
  }

  /** A wake-up may be created only for a fiber that has none and is not just ending on its worker. */
  ghost predicate MayClaim(s: State, c: Option<Fiber>) {
    c.Some? ==>
      && c.value in s.fibers
      && Unclaimed(s, c.value)
      && forall w :: OnFiber(s, w) == c ==> StateOf(s, c.value) == Exec
  }

  /**
   * What the runtime asks of fibers and callers: at most one wake-up at a time per fiber; none is
   * outstanding when the fiber yields READY or ends; recurring timers do not wake fibers.
   */
  ghost predicate Disciplined(s: State, t: Step) {
    match t
    case AddEvent(_, _, task) => MayClaim(s, TaskClaim(task))
    case AddTimer(_, _, timer) =>
      MayClaim(s, CallbackClaim(timer.cb)) && (timer.recurring ==> !timer.cb.Wake?)
    case Schedule(_, task, _) => MayClaim(s, TaskClaim(task))
    case Leave(w, _) => w in s.workers && s.workers[w].phase.On? ==> Unclaimed(s, s.workers[w].phase.f)
    case _ => true
  }
}

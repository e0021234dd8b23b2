/** Whole runs of the runtime: mutual exclusion and recycling. */
module RuntimeRuns {
  import opened Options
  import opened Runtime
  import opened RuntimeClaims
  import opened RuntimeSafety
  import opened RuntimeTasks

  lemma QuietKeeps(s: State, t: Step)
    requires Inv(s) && Enabled(s, t) && Disciplined(s, t) && ClaimsMove(s, t, Next(s, t))
    requires !t.Start? && !t.Leave? && !t.Settle? && !t.NewFiber?
    ensures Placed(Next(s, t)) && Guarded(Next(s, t))
  {
    var s' := Next(s, t);
    QuietStep(s, t);
    assert CreatedFairly(s, t, s');
    hide Quiet, AllFit, HandsStill, CreatedFairly, ClaimsMove, Linear, Known;
    QuietPlaced(s, s');
    QuietGuarded(s, t, s');
  }

  lemma QuietStep(s: State, t: Step)
    requires Inv(s) && Enabled(s, t)
    requires !t.Start? && !t.Leave? && !t.Settle? && !t.NewFiber?
    ensures Quiet(s, Next(s, t)) && AllFit(Next(s, t)) && HandsStill(Next(s, t))
  {
    hide Quiet, AllFit, HandsStill, Linear, Known;
    match t
    case Yield(_) => QuietStage(s, t);
    case SwapOut(_) => QuietStage(s, t);
    case Account(_) => QuietStage(s, t);
    case Dequeue(_) => QuietQueue(s, t);
    case Discharge(_) => QuietQueue(s, t);
    case Schedule(_, _, _) => QuietQueue(s, t);
    case GoIdle(_) => QuietIdle(s, t);
    case LeaveIdle(_) => QuietIdle(s, t);
    case StopIdle(_) => QuietExit(s, t);
    case Exit(_) => QuietExit(s, t);
    case Expire(_, _) => QuietExpire(s, t);
    case Flush(_) => QuietExpire(s, t);
    case _ => QuietTable(s, t);
  }

  lemma LoudKeeps(s: State, t: Step)
    requires Inv(s) && Enabled(s, t) && Disciplined(s, t) && ClaimsMove(s, t, Next(s, t))
    requires t.Start? || t.Leave? || t.Settle? || t.NewFiber?
    ensures Placed(Next(s, t)) && Guarded(Next(s, t))
  {
    match t
    case Start(w, made) =>
      var task := s.workers[w].phase.e.task;
      if task.Call? {
        KeepCall(s, w, made);
      } else if StateOf(s, task.f) in {Term, Except} {
        KeepRetire(s, w, made, task.f);
      } else {
        KeepResume(s, w, made, task.f);
      }
    case Leave(w, st) => KeepLeave(s, w, st);
    case Settle(w) => SettlePlaced(s, w); SettleGuarded(s, w);
    case NewFiber(f) => KeepNewFiber(s, f);
  }

  lemma StepKeeps(s: State, t: Step)
    requires Inv(s) && Enabled(s, t) && Disciplined(s, t)
    ensures Inv(Next(s, t))
  {
    Moves(s, t);
    LinearKept(s, t, Next(s, t));
    KnownKept(s, t);
    RecurringKept(s, t);
    if t.Start? || t.Leave? || t.Settle? || t.NewFiber? { LoudKeeps(s, t); } else { QuietKeeps(s, t); }
  }

  // ---- The discipline is exactly what the invariant needs -----------------------------------------

  lemma NeededForTask(s: State, s': State, p: Place, c: Option<Fiber>)
    requires Inv(s') && Claim(s, p).None? && Claim(s', p) == c
    requires s'.fibers == s.fibers && s'.workers == s.workers
    requires forall q :: q != p ==> Claim(s', q) == Claim(s, q)
    requires !p.AtSettle?
    ensures MayClaim(s, c)
  {
    if c.Some? {
      forall q ensures Claim(s, q) != c {
        assert q != p ==> Claim(s', q) == Claim(s, q);
      }
      forall w | OnFiber(s, w) == c ensures StateOf(s, c.value) == Exec {
        assert OnFiber(s', w) == c;
      }
    }
  }

  lemma EventNeeded(s: State, t: Step)
    requires Inv(s) && Enabled(s, t) && Inv(Next(s, t)) && t.AddEvent?
    ensures Disciplined(s, t)
  {
    hide Scan, Calls, Inv;
    assert Inv(Next(s, t));
    NeededForTask(s, Next(s, t), AtEvent(t.key), TaskClaim(t.task));
  }

  lemma TimerNeeded(s: State, t: Step)
    requires Inv(s) && Enabled(s, t) && Inv(Next(s, t)) && t.AddTimer?
    ensures Disciplined(s, t)
  {
    hide Scan, Calls;
    assert Next(s, t).timers[t.t] == t.timer;
    NeededForTask(s, Next(s, t), AtTimer(t.t), CallbackClaim(t.timer.cb));
  }

  lemma ScheduleNeeded(s: State, t: Step)
    requires Inv(s) && Enabled(s, t) && Inv(Next(s, t)) && t.Schedule?
    ensures Disciplined(s, t)
  {
    hide Scan, Calls, Inv;
    NeededForTask(s, Next(s, t), AtQueue(|s.queue|), TaskClaim(t.task));
  }

  lemma DisciplineNeeded(s: State, t: Step)
    requires Inv(s) && Enabled(s, t) && Inv(Next(s, t))
    ensures Disciplined(s, t)
  {
    hide Inv, Next, Enabled;
    match t
    case AddEvent(_, _, _) => EventNeeded(s, t);
    case AddTimer(_, _, _) => TimerNeeded(s, t);
    case Schedule(_, _, _) => ScheduleNeeded(s, t);
    case Leave(w, st) => LeaveNeeded(s, w, st);
    case _ =>
  }

  lemma LeaveBreaks(s: State, w: Tid, st: FState, p: Place)
    requires Inv(s) && Enabled(s, Leave(w, st)) && Claim(s, p) == Some(s.workers[w].phase.f)
    ensures !Inv(Next(s, Leave(w, st)))
  {
    var s', f := Next(s, Leave(w, st)), s.workers[w].phase.f;
    assert OnFiber(s, w) == Some(f) && OnFiber(s', w) == Some(f);
    assert Claim(s', p) == Some(f);
    assert st == Ready ==> Claim(s', AtSettle(w)) == Some(f);
  }

  lemma LeaveNeeded(s: State, w: Tid, st: FState)
    requires Inv(s) && Enabled(s, Leave(w, st)) && Inv(Next(s, Leave(w, st)))
    ensures Unclaimed(s, s.workers[w].phase.f)
  {
    forall p ensures Claim(s, p) != Some(s.workers[w].phase.f) {
      if Claim(s, p) == Some(s.workers[w].phase.f) { LeaveBreaks(s, w, st, p); }
    }
  }

  /** A step keeps wake-ups linear and guarded if and only if it obeys the discipline. */
  lemma DisciplineIsExact(s: State, t: Step)
    requires Inv(s) && Enabled(s, t)
    ensures Inv(Next(s, t)) <==> Disciplined(s, t)
  {
    if Disciplined(s, t) { StepKeeps(s, t); } else if Inv(Next(s, t)) { DisciplineNeeded(s, t); }
  }

  // ---- Runs ----------------------------------------------------------------------------------------

  /** `start()`: workers at the head of their loop, nothing scheduled. */
  function Initial(tids: set<Tid>): State {
    State(map[], [], map w | w in tids :: Worker(Head, None, false), map[], map[], 0, 0, {})
  }

  predicate IsRun(s: State, steps: seq<Step>)
    decreases |steps|
  {
    steps == [] || (Enabled(s, steps[0]) && IsRun(Next(s, steps[0]), steps[1..]))
  }

  function After(s: State, steps: seq<Step>): State
    requires IsRun(s, steps)
    decreases |steps|
  {
    if steps == [] then s else After(Next(s, steps[0]), steps[1..])
  }

  ghost predicate DisciplinedRun(s: State, steps: seq<Step>)
    requires IsRun(s, steps)
    decreases |steps|
  {
    steps == [] || (Disciplined(s, steps[0]) && DisciplinedRun(Next(s, steps[0]), steps[1..]))
  }

  lemma InitialInv(tids: set<Tid>)
    ensures Inv(Initial(tids))
  {
    assert forall p :: Claim(Initial(tids), p).None?;
    assert forall w :: OnFiber(Initial(tids), w).None?;
  }

  lemma {:induction false} RunKeeps(s: State, steps: seq<Step>)
    requires Inv(s) && IsRun(s, steps) && DisciplinedRun(s, steps)
    ensures Inv(After(s, steps))
    decreases |steps|
  {
    if steps != [] {
      StepKeeps(s, steps[0]);
      RunKeeps(Next(s, steps[0]), steps[1..]);
    }
  }

  /** A worker holds a fiber from dequeuing it until it has settled. */
  predicate Holds(s: State, w: Tid, f: Fiber) {
    OnFiber(s, w) == Some(f) || Claim(s, AtHand(w)) == Some(f)
  }

  lemma HoldsOne(s: State, w: Tid, v: Tid, f: Fiber)
    requires Inv(s) && Holds(s, w, f) && Holds(s, v, f)
    ensures w == v
  {
    assert Claim(s, AtHand(w)) == Some(f) && Claim(s, AtHand(v)) == Some(f) ==> AtHand(w) == AtHand(v);
  }

  /** The assertions in `swapIn`, `Fiber::reset` and `addEvent` hold whenever they are reached. */
  lemma AssertionsHold(s: State, t: Step)
    requires Inv(s) && Enabled(s, t)
    ensures Asserted(s, t)
  {
    match t
    case Start(w, _) =>
      assert Claim(s, AtHand(w)) == PhaseHand(s.workers[w].phase);
      assert Claim(s, AtSpare(w)) == s.workers[w].spare;
    case AddEvent(actor, key, task) =>
      assert actor.Some? ==> OnFiber(s, actor.value) == Some(s.workers[actor.value].phase.f);
    case _ =>
  }

  /**
   * In every state of every disciplined run, with any number of workers: each fiber has at most one
   * wake-up, no two workers hold the same fiber, no assertion of the next step fails, and a spare
   * callback fiber is in INIT and on no worker, so that `reset` never reuses a suspended stack.
   */
  lemma MutualExclusion(tids: set<Tid>, steps: seq<Step>)
    requires IsRun(Initial(tids), steps) && DisciplinedRun(Initial(tids), steps)
    ensures var s := After(Initial(tids), steps);
            && (forall p, q :: Claim(s, p).Some? && Claim(s, p) == Claim(s, q) ==> p == q)
            && (forall w, v, f :: Holds(s, w, f) && Holds(s, v, f) ==> w == v)
            && (forall t :: Enabled(s, t) ==> Asserted(s, t))
            && (forall w :: w in s.workers && s.workers[w].spare.Some? ==>
                  var c := s.workers[w].spare.value;
                  StateOf(s, c) == Init && forall v :: !Holds(s, v, c))
  {
    InitialInv(tids);
    RunKeeps(Initial(tids), steps);
    var s := After(Initial(tids), steps);
    forall w, v, f | Holds(s, w, f) && Holds(s, v, f) ensures w == v { HoldsOne(s, w, v, f); }
    forall t | Enabled(s, t) ensures Asserted(s, t) { AssertionsHold(s, t); }
    forall w | w in s.workers && s.workers[w].spare.Some?
      ensures var c := s.workers[w].spare.value; StateOf(s, c) == Init && forall v :: !Holds(s, v, c)
    {
      SpareIdle(s, w);
    }
  }

  lemma SpareIdle(s: State, w: Tid)
    requires Inv(s) && w in s.workers && s.workers[w].spare.Some?
    ensures var c := s.workers[w].spare.value; StateOf(s, c) == Init && forall v :: !Holds(s, v, c)
  {
    assert Claim(s, AtSpare(w)) == s.workers[w].spare;
  }

  /** Without the discipline it fails: two wake-ups for one fiber put it into the hands of two workers. */
  lemma TwoWakesTwoHands(w: Tid, v: Tid, f: Fiber)
    requires w != v
    ensures var t := Schedule(None, Resume(f), -1);
            var steps := [NewFiber(f), t, t, Dequeue(w), Dequeue(v)];
            && IsRun(Initial({w, v}), steps)
            && Holds(After(Initial({w, v}), steps), w, f) && Holds(After(Initial({w, v}), steps), v, f)
  {
    var t := Schedule(None, Resume(f), -1);
    var s0 := Initial({w, v});
    var s1 := s0.(fibers := map[f := Init]);
    var s2 := s1.(queue := [Entry(0, Resume(f), -1)], next := 1);
    var s3 := s1.(queue := [Entry(0, Resume(f), -1), Entry(1, Resume(f), -1)], next := 2);
    assert Next(s0, NewFiber(f)) == s1 && Next(s1, t) == s2 && Next(s2, t) == s3;
    TakeBoth(s3, w, v, f);
    Unroll(s2, t, [Dequeue(w), Dequeue(v)]);
    Unroll(s1, t, [t, Dequeue(w), Dequeue(v)]);
    Unroll(s0, NewFiber(f), [t, t, Dequeue(w), Dequeue(v)]);
  }

  lemma TakeBoth(s: State, w: Tid, v: Tid, f: Fiber)
    requires w != v && AtHead(s, w) && AtHead(s, v) && f in s.fibers && s.fibers[f] == Init
    requires s.queue == [Entry(0, Resume(f), -1), Entry(1, Resume(f), -1)]
    ensures IsRun(s, [Dequeue(w), Dequeue(v)])
    ensures Holds(After(s, [Dequeue(w), Dequeue(v)]), w, f) && Holds(After(s, [Dequeue(w), Dequeue(v)]), v, f)
  {
    assert Eligible(s.fibers, s.queue[0], w) && Scan(s.fibers, s.queue, w) == 0;
    var s1 := Next(s, Dequeue(w));
    assert s1.queue == [Entry(1, Resume(f), -1)];
    assert Eligible(s1.fibers, s1.queue[0], v) && Scan(s1.fibers, s1.queue, v) == 0;
    Unroll(s1, Dequeue(v), []);
    Unroll(s, Dequeue(w), [Dequeue(v)]);
  }

  lemma Unroll(s: State, t: Step, rest: seq<Step>)
    requires Enabled(s, t) && IsRun(Next(s, t), rest)
    ensures IsRun(s, [t] + rest) && After(s, [t] + rest) == After(Next(s, t), rest)
  {
    assert ([t] + rest)[1..] == rest;
  }

  // ---- Conservation of tasks -----------------------------------------------------------------------

  lemma InitialTasks(tids: set<Tid>)
    ensures TaskInv(Initial(tids))
  {
    assert Active(Initial(tids).workers) == {};
    assert forall a :: Serial(Initial(tids), a).None?;
  }

  lemma {:induction false} TasksKeep(s: State, steps: seq<Step>)
    requires TaskInv(s) && IsRun(s, steps)
    ensures TaskInv(After(s, steps))
    decreases |steps|
  {
    if steps != [] {
      TaskStep(s, steps[0]);
      TasksKeep(Next(s, steps[0]), steps[1..]);
    }
  }

  /**
   * In every state of every run, disciplined or not: of the tasks scheduled so far each is retired or
   * at exactly one location, never both; the active count is the number of workers between
   * dequeuing and settling and never negative; a pinned task is only ever taken by its thread.
   */
  lemma TaskConservation(tids: set<Tid>, steps: seq<Step>)
    requires IsRun(Initial(tids), steps)
    ensures var s := After(Initial(tids), steps);
            && (forall n :: 0 <= n < s.next ==> n in s.retired || Located(s, n))
            && (forall n :: n in s.retired ==> n < s.next && !Located(s, n))
            && (forall a, b :: Serial(s, a).Some? && Serial(s, a) == Serial(s, b) ==> a == b)
            && s.active == |Active(s.workers)| >= 0
            && (forall w :: w in s.workers && s.workers[w].phase.Taken? ==> s.workers[w].phase.e.thread in {-1, w})
  {
    InitialTasks(tids);
    TasksKeep(Initial(tids), steps);
  }

  // ---- A single worker ---------------------------------------------------------------------------

  /** What `stopping()` tests, beyond the two stop flags. */
  predicate MayStop(s: State) {
    s.queue == [] && s.active == 0 && s.events == map[] && s.timers == map[]
  }

  /** No thread but the worker takes a step, and the idle fiber returns only when `stopping()` holds. */
  predicate Honest(s: State, t: Step) {
    && (t.Schedule? || t.AddEvent? || t.DelEvent? || t.Trigger? || t.AddTimer? || t.CancelTimer? ==> t.actor.Some?)
    && (t.StopIdle? ==> MayStop(s))
  }

  predicate HonestRun(s: State, steps: seq<Step>)
    requires IsRun(s, steps)
    decreases |steps|
  {
    steps == [] || (Honest(s, steps[0]) && HonestRun(Next(s, steps[0]), steps[1..]))
  }

  /** Once the idle fiber of the only worker has ended, nothing can happen any more but the exit. */
  predicate Stopped(s: State, w: Tid) {
    && s.workers.Keys == {w}
    && (s.workers[w].phase.Exited? ==> s.workers[w].idleDone)
    && (s.workers[w].idleDone ==> (s.workers[w].phase.Head? || s.workers[w].phase.Exited?) && MayStop(s))
  }

  lemma StoppedKept(s: State, w: Tid, t: Step)
    requires Stopped(s, w) && Enabled(s, t) && Honest(s, t)
    ensures Stopped(Next(s, t), w)
  {
    if t.Start? || t.Settle? || t.Dequeue? || t.Exit? || t.StopIdle? { StoppedByTask(s, w, t); } else { StoppedElse(s, w, t); }
  }

  lemma StoppedByTask(s: State, w: Tid, t: Step)
    requires Stopped(s, w) && Enabled(s, t) && Honest(s, t)
    requires t.Start? || t.Settle? || t.Dequeue? || t.Exit? || t.StopIdle?
    ensures Stopped(Next(s, t), w)
  {
    hide Calls;
  }

  lemma StoppedElse(s: State, w: Tid, t: Step)
    requires Stopped(s, w) && Enabled(s, t) && Honest(s, t)
    requires !t.Start? && !t.Settle? && !t.Dequeue? && !t.Exit? && !t.StopIdle?
    ensures Stopped(Next(s, t), w)
  {
    hide Calls, Scan;
  }

  lemma {:induction false} StoppedRun(s: State, w: Tid, steps: seq<Step>)
    requires Stopped(s, w) && IsRun(s, steps) && HonestRun(s, steps)
    ensures Stopped(After(s, steps), w)
    decreases |steps|
  {
    if steps != [] {
      StoppedKept(s, w, steps[0]);
      StoppedRun(Next(s, steps[0]), w, steps[1..]);
    }
  }

  /**
   * With one worker and no scheduling from outside, the run loop exits only when no task is queued or in
   * flight, no event is registered and no timer is left.
   */
  lemma SingleWorkerQuiescence(w: Tid, steps: seq<Step>)
    requires IsRun(Initial({w}), steps) && HonestRun(Initial({w}), steps)
    ensures var s := After(Initial({w}), steps);
            w in s.workers && (s.workers[w].phase.Exited? ==>
              MayStop(s) && Active(s.workers) == {} && forall n :: 0 <= n < s.next ==> n in s.retired)
  {
    StoppedRun(Initial({w}), w, steps);
    TaskConservation({w}, steps);
    var s := After(Initial({w}), steps);
    if s.workers[w].phase.Exited? {
      assert forall a :: Serial(s, a).None?;
    }
  }
}

/**
 * No wake-up is lost: what may lead to a fiber being resumed stays somewhere until the fiber is resumed, or its
 * event or timer is taken away. And a fiber that has ended stays ended.
 */
module RuntimeWakes {
  import opened Options
  import opened Runtime
  import opened RuntimeClaims
  import opened RuntimeSafety
  import opened RuntimeRuns

  /** Where a wake-up goes in a step. */
  function Goal(s: State, t: Step, p: Place): Place {
    match t
    case Dequeue(w) =>
      var k := Scan(s.fibers, s.queue, w);
      if !p.AtQueue? || p.i < k then p
      else if p.i > k then AtQueue(p.i - 1)
      else if k < |s.queue| && s.queue[k].task.Resume? then AtHand(w) else AtBody(w)
    case Discharge(w) => if p == AtBody(w) then AtQueue(|s.queue|) else p
    case Trigger(_, key) => if p == AtEvent(key) then AtQueue(|s.queue|) else p
    case Settle(w) => if p == AtSettle(w) then AtQueue(|s.queue|) else p
    case Expire(w, n) =>
      if p == AtTimer(n) && n in s.timers && !s.timers[n].recurring && IsIdle(s, w)
      then AtBatch(w, |s.workers[w].phase.batch|) else p
    case Flush(w) => if p.AtBatch? && p.w == w then AtQueue(|s.queue| + p.i) else p
    case _ => p
  }

  /** The step resumes the fiber, or finds that it has ended. */
  predicate Resumes(s: State, t: Step, f: Fiber) {
    t.Start? && Claim(s, AtHand(t.w)) == Some(f)
  }

  /** The users take the wake-up at `p` away. */
  predicate Withdraws(t: Step, p: Place) {
    (t.DelEvent? && p == AtEvent(t.key)) || (t.CancelTimer? && p == AtTimer(t.t))
  }

  /** Only a running fiber owes a wake-up, and a worker executes no callback with a spare fiber beside it. */
  ghost predicate Tidy(s: State) {
    forall w :: w in s.workers && s.workers[w].phase.On? ==>
      && (s.workers[w].phase.owes.Some? ==> s.workers[w].phase.stage == Running)
      && (s.workers[w].phase.viaCb ==> s.workers[w].spare.None?)
  }

  lemma TidyByTask(s: State, t: Step)
    requires Tidy(s) && Enabled(s, t) && (t.Start? || t.Settle? || t.Dequeue?)
    ensures Tidy(Next(s, t))
  {
    hide Scan, Calls;
  }

  lemma TidyByOthers(s: State, t: Step)
    requires Tidy(s) && Enabled(s, t) && !t.Start? && !t.Settle? && !t.Dequeue?
    ensures Tidy(Next(s, t))
  {
    hide Scan, Calls;
  }

  lemma TidyKept(s: State, t: Step)
    requires Tidy(s) && Enabled(s, t)
    ensures Tidy(Next(s, t))
  {
    hide Tidy, Enabled, Next;
    if t.Start? || t.Settle? || t.Dequeue? { TidyByTask(s, t); } else { TidyByOthers(s, t); }
  }

  /** A wake-up that is not a spare fiber. */
  ghost predicate Wakes(s: State, p: Place, f: Fiber) { Claim(s, p) == Some(f) && !p.AtSpare? }

  lemma KeptByDequeue(s: State, t: Step, p: Place, f: Fiber)
    requires Enabled(s, t) && t.Dequeue? && Wakes(s, p, f)
    ensures Wakes(Next(s, t), Goal(s, t, p), f)
  {
  }

  lemma KeptByStart(s: State, t: Step, p: Place, f: Fiber)
    requires Inv(s) && Enabled(s, t) && t.Start? && Wakes(s, p, f) && !Resumes(s, t, f)
    ensures Wakes(Next(s, t), p, f)
  {
    hide Scan, Calls;
    if p.AtSettle? { SettleUntouched(s, t, p, f); }
  }

  lemma SettleUntouched(s: State, t: Step, p: Place, f: Fiber)
    requires Inv(s) && Enabled(s, t) && t.Start? && Claim(s, p) == Some(f) && p.AtSettle? && !Resumes(s, t, f)
    ensures Claim(Next(s, t), p) == Some(f)
  {
    hide Scan, Calls;
    assert OnFiber(s, p.w) == Some(f);
    assert Claim(s, AtSpare(t.w)).Some? ==> StateOf(s, Claim(s, AtSpare(t.w)).value) == Init;
  }

  lemma KeptByStage(s: State, t: Step, p: Place, f: Fiber)
    requires Inv(s) && Tidy(s) && Enabled(s, t) && Wakes(s, p, f)
    requires t.Discharge? || t.Yield? || t.SwapOut? || t.Account?
    ensures Wakes(Next(s, t), Goal(s, t, p), f)
  {
    hide Scan, Calls, Linear, Known, Guarded, NoRecurringWake;
  }

  lemma KeptByLeave(s: State, t: Step, p: Place, f: Fiber)
    requires Inv(s) && Enabled(s, t) && Wakes(s, p, f) && t.Leave?
    ensures Wakes(Next(s, t), p, f)
  {
    hide Scan, Calls;
    if p.AtSettle? { assert OnFiber(s, p.w) == Some(f); }
  }

  lemma KeptBySettle(s: State, t: Step, p: Place, f: Fiber)
    requires Inv(s) && Tidy(s) && Enabled(s, t) && Wakes(s, p, f) && t.Settle?
    ensures Wakes(Next(s, t), Goal(s, t, p), f)
  {
    hide Scan, Calls, Linear, Known, Guarded, NoRecurringWake;
    if p.AtSettle? { assert OnFiber(s, p.w) == Some(f); }
  }

  lemma KeptByTable(s: State, t: Step, p: Place, f: Fiber)
    requires Enabled(s, t) && Wakes(s, p, f) && !Withdraws(t, p)
    requires t.AddEvent? || t.DelEvent? || t.Trigger? || t.AddTimer? || t.CancelTimer? || t.Schedule?
    ensures Wakes(Next(s, t), Goal(s, t, p), f)
  {
    hide Scan, Calls;
  }

  lemma KeptByFlush(s: State, t: Step, p: Place, f: Fiber)
    requires Enabled(s, t) && Wakes(s, p, f) && t.Flush?
    ensures Wakes(Next(s, t), Goal(s, t, p), f)
  {
    hide Scan;
  }

  lemma KeptByExpire(s: State, t: Step, p: Place, f: Fiber)
    requires Enabled(s, t) && Wakes(s, p, f) && t.Expire?
    ensures Wakes(Next(s, t), Goal(s, t, p), f)
  {
    hide Scan, Calls;
  }

  lemma KeptByIdle(s: State, t: Step, p: Place, f: Fiber)
    requires Enabled(s, t) && Wakes(s, p, f)
    requires t.GoIdle? || t.LeaveIdle? || t.StopIdle? || t.Exit?
    ensures Wakes(Next(s, t), Goal(s, t, p), f)
  {
    hide Scan, Calls;
  }

  lemma KeptByNew(s: State, t: Step, p: Place, f: Fiber)
    requires Enabled(s, t) && Wakes(s, p, f) && t.NewFiber?
    ensures Wakes(Next(s, t), p, f)
  {
    hide Scan, Calls;
  }

  /** In every step each wake-up has a place to go, unless its fiber is resumed or it is taken away. */
  lemma WakeKept(s: State, t: Step, p: Place, f: Fiber)
    requires Inv(s) && Tidy(s) && Enabled(s, t) && Wakes(s, p, f)
    ensures Wakes(Next(s, t), Goal(s, t, p), f) || Resumes(s, t, f) || Withdraws(t, p)
  {
    hide Inv, Tidy, Enabled, Next, Wakes, Claim;
    match t
    case Dequeue(_) => KeptByDequeue(s, t, p, f);
    case Start(_, _) => if !Resumes(s, t, f) { KeptByStart(s, t, p, f); }
    case Discharge(_) => KeptByStage(s, t, p, f);
    case Yield(_) => KeptByStage(s, t, p, f);
    case SwapOut(_) => KeptByStage(s, t, p, f);
    case Account(_) => KeptByStage(s, t, p, f);
    case Leave(_, _) => KeptByLeave(s, t, p, f);
    case Settle(_) => KeptBySettle(s, t, p, f);
    case NewFiber(_) => KeptByNew(s, t, p, f);
    case GoIdle(_) => KeptByIdle(s, t, p, f);
    case Expire(_, _) => KeptByExpire(s, t, p, f);
    case Flush(_) => KeptByFlush(s, t, p, f);
    case LeaveIdle(_) => KeptByIdle(s, t, p, f);
    case StopIdle(_) => KeptByIdle(s, t, p, f);
    case Exit(_) => KeptByIdle(s, t, p, f);
    case _ => if !Withdraws(t, p) { KeptByTable(s, t, p, f); }
  }

  // ---- Over runs -------------------------------------------------------------------------------------

  /** Some step of the run resumes the fiber. */
  predicate ResumedIn(s: State, steps: seq<Step>, f: Fiber)
    requires IsRun(s, steps)
    decreases |steps|
  {
    steps != [] && (Resumes(s, steps[0], f) || ResumedIn(Next(s, steps[0]), steps[1..], f))
  }

  /** Some step of the run takes a wake-up of the fiber away. */
  ghost predicate WithdrawnIn(s: State, steps: seq<Step>, f: Fiber)
    requires IsRun(s, steps)
    decreases |steps|
  {
    steps != [] &&
    ((exists p :: Wakes(s, p, f) && Withdraws(steps[0], p)) || WithdrawnIn(Next(s, steps[0]), steps[1..], f))
  }

  lemma {:induction false} StillThere(s: State, steps: seq<Step>, p: Place, f: Fiber) returns (q: Place)
    requires Inv(s) && Tidy(s) && IsRun(s, steps) && DisciplinedRun(s, steps) && Wakes(s, p, f)
    requires !ResumedIn(s, steps, f) && !WithdrawnIn(s, steps, f)
    ensures Wakes(After(s, steps), q, f)
    decreases |steps|
  {
    hide Inv, Tidy, Enabled, Next, Wakes, Withdraws, Resumes, Disciplined;
    q := p;
    if steps != [] {
      WakeKept(s, steps[0], p, f);
      StepKeeps(s, steps[0]);
      TidyKept(s, steps[0]);
      q := StillThere(Next(s, steps[0]), steps[1..], Goal(s, steps[0], p), f);
    }
  }

  lemma {:induction false} TidyOverRun(s: State, steps: seq<Step>)
    requires Tidy(s) && IsRun(s, steps)
    ensures Tidy(After(s, steps))
    decreases |steps|
  {
    hide Tidy, Enabled, Next;
    if steps != [] {
      TidyKept(s, steps[0]);
      TidyOverRun(Next(s, steps[0]), steps[1..]);
    }
  }

  /**
   * Over every disciplined run: a fiber that has a wake-up keeps one, in the list, in an event or a timer, or in
   * some worker's hands, until a worker resumes it or the users take the wake-up away.
   */
  lemma NoWakeLost(tids: set<Tid>, before: seq<Step>, after: seq<Step>, p: Place, f: Fiber)
    requires IsRun(Initial(tids), before) && DisciplinedRun(Initial(tids), before)
    requires var s := After(Initial(tids), before); IsRun(s, after) && DisciplinedRun(s, after) && Wakes(s, p, f)
    ensures var s := After(Initial(tids), before);
            (exists q :: Wakes(After(s, after), q, f)) || ResumedIn(s, after, f) || WithdrawnIn(s, after, f)
  {
    InitialInv(tids);
    RunKeeps(Initial(tids), before);
    TidyOverRun(Initial(tids), before);
    var s := After(Initial(tids), before);
    if !ResumedIn(s, after, f) && !WithdrawnIn(s, after, f) { var q := StillThere(s, after, p, f); }
  }

  /** A fiber that is resumed and has not ended is executing then, on the worker that resumed it. */
  lemma ResumedRuns(s: State, t: Step, f: Fiber)
    requires Enabled(s, t) && Resumes(s, t, f) && StateOf(s, f) !in {Term, Except}
    ensures OnFiber(Next(s, t), t.w) == Some(f) && StateOf(Next(s, t), f) == Exec
  {
    hide Scan, Calls;
  }

  // ---- Ended fibers ----------------------------------------------------------------------------------

  /** The fiber has ended, has left its worker and is not kept for callbacks. */
  ghost predicate Ended(s: State, f: Fiber) {
    && f in s.fibers && s.fibers[f] in {Term, Except}
    && (forall w :: OnFiber(s, w) != Some(f))
    && (forall w :: w in s.workers ==> s.workers[w].spare != Some(f))
  }

  lemma EndedByStart(s: State, t: Step, f: Fiber)
    requires Ended(s, f) && Enabled(s, t) && t.Start?
    ensures Ended(Next(s, t), f)
  {
    hide Scan, Calls;
    var s' := Next(s, t);
    assert s.workers[t.w].spare != Some(f);
    forall w: Tid ensures OnFiber(s', w) != Some(f) {
      assert OnFiber(s, w) != Some(f);
    }
  }

  lemma EndedByFiber(s: State, t: Step, f: Fiber)
    requires Ended(s, f) && Enabled(s, t)
    requires t.Leave? || t.Settle? || t.Yield? || t.SwapOut? || t.Account? || t.Discharge?
    ensures Ended(Next(s, t), f)
  {
    hide Scan, Calls;
    var s' := Next(s, t);
    assert OnFiber(s, t.w) != Some(f);
    forall w: Tid ensures OnFiber(s', w) != Some(f) {
      assert OnFiber(s, w) != Some(f);
    }
  }

  lemma EndedByOthers(s: State, t: Step, f: Fiber)
    requires Ended(s, f) && Enabled(s, t)
    requires !t.Start? && !t.Leave? && !t.Settle? && !t.Yield? && !t.SwapOut? && !t.Account? && !t.Discharge?
    ensures Ended(Next(s, t), f)
  {
    hide Scan, Calls;
    var s' := Next(s, t);
    assert forall w: Tid :: OnFiber(s', w).Some? ==> OnFiber(s', w) == OnFiber(s, w);
  }

  lemma EndedKept(s: State, t: Step, f: Fiber)
    requires Ended(s, f) && Enabled(s, t)
    ensures Ended(Next(s, t), f)
  {
    hide Ended, Enabled, Next;
    match t
    case Start(_, _) => EndedByStart(s, t, f);
    case Leave(_, _) => EndedByFiber(s, t, f);
    case Settle(_) => EndedByFiber(s, t, f);
    case Yield(_) => EndedByFiber(s, t, f);
    case SwapOut(_) => EndedByFiber(s, t, f);
    case Account(_) => EndedByFiber(s, t, f);
    case Discharge(_) => EndedByFiber(s, t, f);
    case _ => EndedByOthers(s, t, f);
  }

  /** Over every run, disciplined or not: a fiber that has ended is on no worker ever again. */
  lemma {:induction false} EndedForGood(s: State, steps: seq<Step>, f: Fiber)
    requires Ended(s, f) && IsRun(s, steps)
    ensures Ended(After(s, steps), f)
    decreases |steps|
  {
    hide Ended, Enabled, Next;
    if steps != [] {
      EndedKept(s, steps[0], f);
      EndedForGood(Next(s, steps[0]), steps[1..], f);
    }
  }

  /** The step is the end of the fiber: it leaves its worker for good. */
  predicate Ends(s: State, t: Step, f: Fiber) {
    t.Leave? && t.st in {Term, Except} && OnFiber(s, t.w) == Some(f)
  }

  lemma EndsByStep(s: State, t: Step, f: Fiber)
    requires Enabled(s, t) && !Ends(s, t, f) && StateOf(s, f) !in {Term, Except}
    ensures StateOf(Next(s, t), f) !in {Term, Except}
  {
    hide Scan, Calls;
  }

  predicate EndsIn(s: State, steps: seq<Step>, f: Fiber)
    requires IsRun(s, steps)
    decreases |steps|
  {
    steps != [] && (Ends(s, steps[0], f) || EndsIn(Next(s, steps[0]), steps[1..], f))
  }

  /** Over every run, disciplined or not: a fiber has ended only if it did so itself. */
  lemma {:induction false} EndsByItself(s: State, steps: seq<Step>, f: Fiber)
    requires IsRun(s, steps) && StateOf(s, f) !in {Term, Except} && StateOf(After(s, steps), f) in {Term, Except}
    ensures EndsIn(s, steps, f)
    decreases |steps|
  {
    hide Enabled, Next, StateOf, Ends;
    if steps != [] && !Ends(s, steps[0], f) {
      EndsByStep(s, steps[0], f);
      EndsByItself(Next(s, steps[0]), steps[1..], f);
    }
  }
}

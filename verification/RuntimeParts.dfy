/**
 * The event table and the timers as parts of the protocol: what they do to their own state is a step, or a run,
 * of `Runtime`.
 */
module RuntimeParts {
  import opened Options
  import opened Runtime
  import opened RuntimeRuns
  import IoManager
  import Timers
  import TimerTable

  // ---- The event table -----------------------------------------------------------------------------

  function EventStep(c: IoManager.Change, actor: Option<Tid>): Step {
    match c
    case Added(key, task) => AddEvent(actor, key, task)
    case Deleted(key) => DelEvent(actor, key)
    case Woken(key) => Trigger(actor, key)
  }

  function Tasks(q: seq<Entry>): seq<Task> {
    if q == [] then [] else [q[0].task] + Tasks(q[1..])
  }

  lemma {:induction false} TasksPushed(q: seq<Entry>, e: Entry)
    ensures Tasks(q + [e]) == Tasks(q) + [e.task]
  {
    if q == [] {
      assert q + [e] == [e];
    } else {
      assert (q + [e])[1..] == q[1..] + [e];
      TasksPushed(q[1..], e);
    }
  }

  /** The registered waiters are the protocol's, and what was pushed is at the end of the queue. */
  ghost predicate ShowsEvents(s: State, log: seq<IoManager.Change>, before: seq<Task>) {
    s.events == IoManager.Waiting(log) && Tasks(s.queue) == before + IoManager.Pushes(log)
  }

  /** Every change of the table is a step of the protocol with the same effect on waiters and queue. */
  lemma ChangeIsStep(s: State, log: seq<IoManager.Change>, c: IoManager.Change, before: seq<Task>, actor: Option<Tid>)
    requires ShowsEvents(s, log, before) && IoManager.Lawful(log)
    requires if c.Added? then c.key !in IoManager.Waiting(log) else c.key in IoManager.Waiting(log)
    requires MayAct(s, actor) && (c.Added? ==> IsOwn(s, actor, c.task))
    ensures Enabled(s, EventStep(c, actor))
    ensures ShowsEvents(Next(s, EventStep(c, actor)), log + [c], before)
  {
    IoManager.Extend(log, c);
    if c.Woken? { TasksPushed(s.queue, Entry(s.next, s.events[c.key], -1)); }
  }

  /** The history of the table under threads that are no workers. */
  function EventSteps(log: seq<IoManager.Change>): seq<Step> {
    if log == [] then [] else EventSteps(log[..|log| - 1]) + [EventStep(log[|log| - 1], None)]
  }

  predicate OnlyCalls(log: seq<IoManager.Change>) {
    forall c <- log :: c.Added? ==> c.task.Call?
  }

  lemma {:induction false} RunOneMore(s: State, steps: seq<Step>, t: Step)
    requires IsRun(s, steps) && Enabled(After(s, steps), t)
    ensures IsRun(s, steps + [t]) && After(s, steps + [t]) == Next(After(s, steps), t)
    decreases |steps|
  {
    hide Enabled, Next;
    if steps == [] {
      assert steps + [t] == [t] && [t][1..] == [];
    } else {
      assert (steps + [t])[1..] == steps[1..] + [t];
      RunOneMore(Next(s, steps[0]), steps[1..], t);
    }
  }

  /** A whole history of the table is a run of the protocol that leaves the same waiters and pushes. */
  lemma {:induction false} HistoryIsRun(s: State, log: seq<IoManager.Change>)
    requires s.events == map[] && IoManager.Lawful(log) && OnlyCalls(log)
    ensures IsRun(s, EventSteps(log)) && ShowsEvents(After(s, EventSteps(log)), log, Tasks(s.queue))
    decreases |log|
  {
    if log == [] {
      assert Tasks(s.queue) + [] == Tasks(s.queue);
    } else {
      hide Enabled, Next, IsRun, After, ShowsEvents;
      var front, c := log[..|log| - 1], log[|log| - 1];
      assert front + [c] == log && c in log && forall d <- front :: d in log;
      HistoryIsRun(s, front);
      ChangeIsStep(After(s, EventSteps(front)), front, c, Tasks(s.queue), None);
      RunOneMore(s, EventSteps(front), EventStep(c, None));
    }
  }

  // ---- Timers --------------------------------------------------------------------------------------

  /** Callbacks as numbers: negative ones resume a fiber. */
  function Meaning(cb: int): Callback {
    if cb < 0 then Wake(-cb - 1) else Other(cb)
  }

  /** The live timers of a table. */
  function TimersOf(t: TimerTable.Table): map<nat, Timer> {
    map i | 0 <= i < |t| && TimerTable.IsLive(t, i) :: i := Timer(Meaning(t[i].cb.value), t[i].recurring)
  }

  /** An added timer is a step. */
  lemma AddIsStep(s: State, t: TimerTable.Table, e: TimerTable.Event, a: TimerTable.Answer, u: TimerTable.Table, actor: Option<Tid>)
    requires s.timers == TimersOf(t) && TimerTable.Means(t, e, a, u) && e.op.Add? && a.Made? && MayAct(s, actor)
    ensures var x := AddTimer(actor, a.i, Timer(Meaning(e.op.cb), e.op.recurring));
            Enabled(s, x) && Next(s, x).timers == TimersOf(u)
  {
  }

  /** A cancel that returned true is a step. */
  lemma CancelIsStep(s: State, t: TimerTable.Table, e: TimerTable.Event, a: TimerTable.Answer, u: TimerTable.Table, actor: Option<Tid>)
    requires s.timers == TimersOf(t) && TimerTable.Means(t, e, a, u) && e.op.Cancel? && a == TimerTable.Said(true)
    requires MayAct(s, actor)
    ensures var x := CancelTimer(actor, e.op.i); Enabled(s, x) && Next(s, x).timers == TimersOf(u)
  {
  }

  /** Refused operations, refresh, reset and asking for the wait change nothing that the protocol sees. */
  lemma OthersAreSilent(t: TimerTable.Table, e: TimerTable.Event, a: TimerTable.Answer, u: TimerTable.Table)
    requires TimerTable.Means(t, e, a, u)
    requires e.op.Refresh? || e.op.Reset? || e.op.Next? || a == TimerTable.Refused || a == TimerTable.Said(false)
    ensures TimersOf(u) == TimersOf(t)
  {
  }

  /** One step for each expired timer, by an idle worker. */
  function ExpireSteps(w: Tid, ns: seq<nat>): seq<Step> {
    if ns == [] then [] else ExpireSteps(w, ns[..|ns| - 1]) + [Expire(w, ns[|ns| - 1])]
  }

  function Meanings(cbs: seq<int>): seq<Callback> {
    if cbs == [] then [] else Meanings(cbs[..|cbs| - 1]) + [Meaning(cbs[|cbs| - 1])]
  }

  /** What is left of the timers when those of `ns` have fired. */
  function Rest(ts: map<nat, Timer>, ns: seq<nat>): map<nat, Timer> {
    map n | n in ts && (n in ns ==> ts[n].recurring) :: ts[n]
  }

  /** Firing timers one after the other collects their callbacks, and the one-shot timers are gone. */
  lemma {:induction false} ExpireRun(s: State, w: Tid, ns: seq<nat>, cbs: seq<int>)
    requires IsIdle(s, w) && |cbs| == |ns| && (forall i, j :: 0 <= i < j < |ns| ==> ns[i] != ns[j])
    requires forall k :: 0 <= k < |ns| ==> ns[k] in s.timers && s.timers[ns[k]].cb == Meaning(cbs[k])
    ensures IsRun(s, ExpireSteps(w, ns))
    ensures After(s, ExpireSteps(w, ns)) == SetPhase(s, w, Idle(s.workers[w].phase.batch + Meanings(cbs))).(timers := Rest(s.timers, ns))
    decreases |ns|
  {
    var batch := s.workers[w].phase.batch;
    if ns == [] {
      assert batch + [] == batch && Rest(s.timers, []) == s.timers;
      assert s.workers[w := s.workers[w].(phase := Idle(batch))] == s.workers;
    } else {
      var front, n := ns[..|ns| - 1], ns[|ns| - 1];
      ExpireRun(s, w, front, cbs[..|cbs| - 1]);
      var m := After(s, ExpireSteps(w, front));
      assert n !in front && n in m.timers;
      RunOneMore(s, ExpireSteps(w, front), Expire(w, n));
      ExpireLast(s, m, w, ns, cbs);
    }
  }

  lemma RestOneMore(ts: map<nat, Timer>, front: seq<nat>, n: nat)
    requires n in ts && n !in front
    ensures n in Rest(ts, front) && Rest(ts, front)[n] == ts[n]
    ensures Rest(ts, front + [n]) == if ts[n].recurring then Rest(ts, front) else Rest(ts, front) - {n}
  {
    assert forall x :: x in front + [n] <==> x in front || x == n;
  }

  lemma ExpireEffect(m: State, w: Tid, n: nat)
    requires IsIdle(m, w) && n in m.timers
    ensures Enabled(m, Expire(w, n))
    ensures Next(m, Expire(w, n)) == SetPhase(m, w, Idle(m.workers[w].phase.batch + [m.timers[n].cb])).(
              timers := if m.timers[n].recurring then m.timers else m.timers - {n})
  {
    hide Scan, Calls;
  }

  lemma PhaseTwice(s: State, w: Tid, p: Phase, q: Phase, ts: map<nat, Timer>, us: map<nat, Timer>)
    requires w in s.workers
    ensures var m := SetPhase(s, w, p).(timers := ts);
            w in m.workers && m.workers[w].phase == p && m.timers == ts
            && SetPhase(m, w, q).(timers := us) == SetPhase(s, w, q).(timers := us)
  {
  }

  lemma ExpireLast(s: State, m: State, w: Tid, ns: seq<nat>, cbs: seq<int>)
    requires IsIdle(s, w) && ns != [] && |cbs| == |ns| && ns[|ns| - 1] !in ns[..|ns| - 1]
    requires ns[|ns| - 1] in s.timers && s.timers[ns[|ns| - 1]].cb == Meaning(cbs[|cbs| - 1])
    requires m == SetPhase(s, w, Idle(s.workers[w].phase.batch + Meanings(cbs[..|cbs| - 1]))).(timers := Rest(s.timers, ns[..|ns| - 1]))
    ensures Enabled(m, Expire(w, ns[|ns| - 1]))
    ensures Next(m, Expire(w, ns[|ns| - 1]))
            == SetPhase(s, w, Idle(s.workers[w].phase.batch + Meanings(cbs))).(timers := Rest(s.timers, ns))
  {
    hide Enabled, Next, Meanings, Rest, SetPhase;
    var front, n, b := ns[..|ns| - 1], ns[|ns| - 1], s.workers[w].phase.batch;
    assert ns == front + [n];
    RestOneMore(s.timers, front, n);
    MeaningsLast(cbs);
    var early := Meanings(cbs[..|cbs| - 1]);
    assert b + Meanings(cbs) == (b + early) + [Meaning(cbs[|cbs| - 1])];
    PhaseTwice(s, w, Idle(b + early), Idle(b + Meanings(cbs)), Rest(s.timers, front), Rest(s.timers, ns));
    ExpireEffect(m, w, n);
  }

  lemma MeaningsLast(cbs: seq<int>)
    requires cbs != []
    ensures Meanings(cbs) == Meanings(cbs[..|cbs| - 1]) + [Meaning(cbs[|cbs| - 1])]
  {
  }

  /** `listExpiredCb` is a run of the protocol: it hands the idle worker the callbacks, in order. */
  lemma ExpiryIsRun(s: State, w: Tid, t: TimerTable.Table, now: nat, addr: nat, cbs: seq<int>, u: TimerTable.Table, ns: seq<nat>)
    requires IsIdle(s, w) && s.timers == TimersOf(t) && TimerTable.Expires(t, now, addr, cbs, u, ns)
    ensures IsRun(s, ExpireSteps(w, ns))
    ensures After(s, ExpireSteps(w, ns)).timers == TimersOf(u)
    ensures w in After(s, ExpireSteps(w, ns)).workers
    ensures After(s, ExpireSteps(w, ns)).workers[w].phase == Idle(s.workers[w].phase.batch + Meanings(cbs))
  {
    OrderDistinct(t, ns);
    assert forall k :: 0 <= k < |ns| ==> ns[k] in ns;
    ExpireRun(s, w, ns, cbs);
    assert Rest(s.timers, ns) == TimersOf(u);
  }

  lemma OrderDistinct(t: TimerTable.Table, ns: seq<nat>)
    requires forall i, j :: 0 <= i < j < |ns| ==>
               ns[i] < |t| && ns[j] < |t| && Timers.Before(TimerTable.KeyOf(t[ns[i]]), TimerTable.KeyOf(t[ns[j]]))
    ensures forall i, j :: 0 <= i < j < |ns| ==> ns[i] != ns[j]
  {
  }
}

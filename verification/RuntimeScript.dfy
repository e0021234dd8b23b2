/** What the script of a run says about its tasks: a task stays what it was scheduled as, on the thread it names. */
module RuntimeScript {
  import opened Options
  import opened Runtime
  import opened RuntimeTasks
  import opened RuntimeRuns

  /** Worker `w` has the task numbered `id` in hand. */
  predicate HasInHand(s: State, w: Tid, id: nat) {
    w in s.workers && HandSerial(s.workers[w].phase) == Some(id)
  }

  /** What `phase` does is what the entry asks for: it was dequeued as it is, or its fiber or callback runs. */
  predicate IsDoing(phase: Phase, e: Entry) {
    match phase
    case Taken(x) => x == e
    case On(_, f, viaCb, _, _) => if e.task.Resume? then f == e.task.f && !viaCb else viaCb
    case _ => false
  }

  /** Wherever the number of `e` turns up, it is with the task of `e`, and with no thread but that of `e`. */
  ghost predicate Carried(s: State, e: Entry) {
    && e.id < s.next
    && (forall i :: 0 <= i < |s.queue| && s.queue[i].id == e.id ==> s.queue[i] == e)
    && (forall w: Tid :: HasInHand(s, w, e.id) ==> IsDoing(s.workers[w].phase, e) && e.thread in {-1, w as int})
  }

  lemma CarriedByDequeue(s: State, t: Step, e: Entry)
    requires Carried(s, e) && Enabled(s, t) && t.Dequeue?
    ensures Carried(Next(s, t), e)
  {
    var k := Scan(s.fibers, s.queue, t.w);
    assert Eligible(s.fibers, s.queue[k], t.w);
  }

  lemma CarriedByStart(s: State, t: Step, e: Entry)
    requires Carried(s, e) && Enabled(s, t) && t.Start?
    ensures Carried(Next(s, t), e)
  {
    hide Scan, Calls;
    assert HasInHand(s, t.w, s.workers[t.w].phase.e.id);
  }

  lemma CarriedByStage(s: State, t: Step, e: Entry)
    requires Carried(s, e) && Enabled(s, t)
    requires t.Discharge? || t.Yield? || t.Leave? || t.SwapOut? || t.Account? || t.Settle?
    ensures Carried(Next(s, t), e)
  {
    hide Scan, Calls;
    var s' := Next(s, t);
    forall w: Tid | HasInHand(s', w, e.id) ensures IsDoing(s'.workers[w].phase, e) && e.thread in {-1, w as int} {
      assert HasInHand(s, w, e.id);
    }
  }

  lemma CarriedByTable(s: State, t: Step, e: Entry)
    requires Carried(s, e) && Enabled(s, t)
    requires t.AddEvent? || t.DelEvent? || t.Trigger? || t.AddTimer? || t.CancelTimer? || t.Schedule? || t.NewFiber?
    ensures Carried(Next(s, t), e)
  {
    hide Scan, Calls;
  }

  lemma CarriedByIdle(s: State, t: Step, e: Entry)
    requires Carried(s, e) && Enabled(s, t)
    requires t.GoIdle? || t.Expire? || t.Flush? || t.LeaveIdle? || t.StopIdle? || t.Exit?
    ensures Carried(Next(s, t), e)
  {
    hide Scan;
    var s' := Next(s, t);
    forall w: Tid | HasInHand(s', w, e.id) ensures IsDoing(s'.workers[w].phase, e) && e.thread in {-1, w as int} {
      assert HasInHand(s, w, e.id);
    }
  }

  lemma CarriedOn(s: State, t: Step, e: Entry)
    requires Carried(s, e) && Enabled(s, t)
    ensures Carried(Next(s, t), e)
  {
    hide Carried, Next;
    match t
    case Dequeue(_) => CarriedByDequeue(s, t, e);
    case Start(_, _) => CarriedByStart(s, t, e);
    case Discharge(_) => CarriedByStage(s, t, e);
    case Yield(_) => CarriedByStage(s, t, e);
    case Leave(_, _) => CarriedByStage(s, t, e);
    case SwapOut(_) => CarriedByStage(s, t, e);
    case Account(_) => CarriedByStage(s, t, e);
    case Settle(_) => CarriedByStage(s, t, e);
    case GoIdle(_) => CarriedByIdle(s, t, e);
    case Expire(_, _) => CarriedByIdle(s, t, e);
    case Flush(_) => CarriedByIdle(s, t, e);
    case LeaveIdle(_) => CarriedByIdle(s, t, e);
    case StopIdle(_) => CarriedByIdle(s, t, e);
    case Exit(_) => CarriedByIdle(s, t, e);
    case _ => CarriedByTable(s, t, e);
  }

  lemma {:induction false} CarriedOverRun(s: State, steps: seq<Step>, e: Entry)
    requires Carried(s, e) && IsRun(s, steps)
    ensures Carried(After(s, steps), e)
    decreases |steps|
  {
    hide Carried, Enabled, Next;
    if steps != [] {
      CarriedOn(s, steps[0], e);
      CarriedOverRun(Next(s, steps[0]), steps[1..], e);
    }
  }

  /** An entry of the list is all there is with its number. */
  lemma EntryIsCarried(s: State, i: nat)
    requires TaskInv(s) && i < |s.queue|
    ensures Carried(s, s.queue[i])
  {
    var e := s.queue[i];
    assert Serial(s, InQueue(i)) == Some(e.id);
    forall j | 0 <= j < |s.queue| && s.queue[j].id == e.id ensures s.queue[j] == e {
      assert Serial(s, InQueue(j)) == Some(e.id);
    }
    forall w: Tid ensures !HasInHand(s, w, e.id) {
      assert InHandOf(w) != InQueue(i) && Serial(s, InHandOf(w)) != Serial(s, InQueue(i));
    }
  }

  /** The state after a run is the state after its later steps from that after its earlier ones. */
  lemma {:induction false} Parted(s: State, a: seq<Step>, b: seq<Step>)
    requires IsRun(s, a + b)
    ensures IsRun(s, a) && IsRun(After(s, a), b) && After(s, a + b) == After(After(s, a), b)
    decreases |a|
  {
    hide Enabled, Next;
    if a == [] {
      assert a + b == b;
    } else {
      assert (a + b)[0] == a[0] && (a + b)[1..] == a[1..] + b;
      Parted(Next(s, a[0]), a[1..], b);
    }
  }

  /**
   * Over every run, by its script: a task scheduled for a thread is dequeued and executed by no other worker,
   * and what is executed under its number is that task. For thread -1 any worker may.
   */
  lemma ScheduledForThread(tids: set<Tid>, before: seq<Step>, actor: Option<Tid>, task: Task, th: int, after: seq<Step>)
    requires IsRun(Initial(tids), before + [Schedule(actor, task, th)] + after)
    ensures IsRun(Initial(tids), before)
    ensures var n := After(Initial(tids), before).next;
            var s := After(Initial(tids), before + [Schedule(actor, task, th)] + after);
            && (forall w: Tid :: HasInHand(s, w, n) ==> IsDoing(s.workers[w].phase, Entry(n, task, th)) && (th != -1 ==> w == th))
            && (forall i :: 0 <= i < |s.queue| && s.queue[i].id == n ==> s.queue[i] == Entry(n, task, th))
  {
    var t := Schedule(actor, task, th);
    assert before + [t] + after == before + ([t] + after);
    Parted(Initial(tids), before, [t] + after);
    PushedIsCarried(tids, before, t, after, Entry(After(Initial(tids), before).next, task, th));
  }

  /** The waiter of a triggered event is scheduled for any thread, and stays what it was registered as. */
  lemma TriggeredForAny(tids: set<Tid>, before: seq<Step>, actor: Option<Tid>, key: Key, after: seq<Step>)
    requires IsRun(Initial(tids), before + [Trigger(actor, key)] + after)
    ensures IsRun(Initial(tids), before) && key in After(Initial(tids), before).events
    ensures var m := After(Initial(tids), before);
            var s := After(Initial(tids), before + [Trigger(actor, key)] + after);
            && (forall w: Tid :: HasInHand(s, w, m.next) ==> IsDoing(s.workers[w].phase, Entry(m.next, m.events[key], -1)))
            && (forall i :: 0 <= i < |s.queue| && s.queue[i].id == m.next ==> s.queue[i] == Entry(m.next, m.events[key], -1))
  {
    var t := Trigger(actor, key);
    assert before + [t] + after == before + ([t] + after);
    Parted(Initial(tids), before, [t] + after);
    var m := After(Initial(tids), before);
    PushedIsCarried(tids, before, t, after, Entry(m.next, m.events[key], -1));
  }

  /** A step that puts one entry at the end of the list, and the run behind it. */
  lemma PushedIsCarried(tids: set<Tid>, before: seq<Step>, t: Step, after: seq<Step>, e: Entry)
    requires IsRun(Initial(tids), before + ([t] + after))
    ensures IsRun(Initial(tids), before) && Enabled(After(Initial(tids), before), t)
    ensures var m := After(Initial(tids), before);
            Next(m, t).queue == m.queue + [e] ==> Carried(After(Initial(tids), before + ([t] + after)), e)
  {
    hide Enabled, Next, Carried;
    Parted(Initial(tids), before, [t] + after);
    var m := After(Initial(tids), before);
    assert ([t] + after)[1..] == after;
    var s := Next(m, t);
    if s.queue == m.queue + [e] {
      InitialTasks(tids);
      TasksKeep(Initial(tids), before);
      TaskStep(m, t);
      EntryIsCarried(s, |m.queue|);
      CarriedOverRun(s, after, e);
    }
  }
}

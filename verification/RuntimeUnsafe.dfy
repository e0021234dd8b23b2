/**
 * Two wake-ups for one fiber are not only against the discipline: from any state in which both can still
 * be delivered, the runtime by itself can put the fiber into the hands of two workers.
 */
module RuntimeUnsafe {
  import opened Options
  import opened Runtime
  import opened RuntimeClaims
  import opened RuntimeRuns

  /** Steps that ask the users for nothing: no wake-up is created and no fiber ends or yields READY. */
  predicate Internal(t: Step) {
    !t.AddEvent? && !t.AddTimer? && !t.Schedule? && !t.NewFiber? && !t.Leave? && !t.DelEvent? && !t.CancelTimer?
  }

  predicate InternalRun(steps: seq<Step>) {
    forall t <- steps :: Internal(t)
  }

  /** `s'` can be reached from `s` by such steps. */
  ghost predicate Leads(s: State, s': State) {
    exists steps :: IsRun(s, steps) && InternalRun(steps) && After(s, steps) == s'
  }

  lemma Stays(s: State)
    ensures Leads(s, s)
  {
    assert IsRun(s, []) && InternalRun([]) && After(s, []) == s;
  }

  lemma {:induction false} Joined(s: State, a: seq<Step>, b: seq<Step>)
    requires IsRun(s, a) && IsRun(After(s, a), b)
    ensures IsRun(s, a + b) && After(s, a + b) == After(After(s, a), b)
    decreases |a|
  {
    hide Enabled, Next;
    if a == [] {
      assert a + b == b;
    } else {
      assert (a + b)[1..] == a[1..] + b;
      Joined(Next(s, a[0]), a[1..], b);
    }
  }

  lemma Then(s: State, m: State, s': State)
    requires Leads(s, m) && Leads(m, s')
    ensures Leads(s, s')
  {
    var a :| IsRun(s, a) && InternalRun(a) && After(s, a) == m;
    var b :| IsRun(m, b) && InternalRun(b) && After(m, b) == s';
    Joined(s, a, b);
    assert InternalRun(a + b);
  }

  lemma ByStep(s: State, t: Step)
    requires Enabled(s, t) && Internal(t)
    ensures Leads(s, Next(s, t))
  {
    hide Enabled, Next;
    var n := Next(s, t);
    assert IsRun(n, []) && After(n, []) == n;
    Unroll(s, t, []);
    var steps := [t] + [];
    assert InternalRun(steps) && IsRun(s, steps) && After(s, steps) == n;
  }

  /** The runs of `Leads` obey the discipline. */
  lemma {:induction false} InternalIsDisciplined(s: State, steps: seq<Step>)
    requires IsRun(s, steps) && InternalRun(steps)
    ensures DisciplinedRun(s, steps)
    decreases |steps|
  {
    hide Enabled, Next;
    if steps != [] {
      assert steps[0] in steps && forall t <- steps[1..] :: t in steps;
      InternalIsDisciplined(Next(s, steps[0]), steps[1..]);
    }
  }

  predicate Still(s: State, f: Fiber) {
    StateOf(s, f) != Exec
  }

  /** Worker `w` has got ahead: the others are where they were, and tasks were only added to the list. */
  ghost predicate Alone(s: State, s': State, w: Tid) {
    && s'.workers.Keys == s.workers.Keys
    && (forall v :: v in s.workers && v != w ==> s'.workers[v] == s.workers[v])
    && s'.events == s.events && s'.timers == s.timers
  }

  ghost predicate Grown(s: State, s': State) {
    s.queue <= s'.queue
  }

  /** A number that no fiber has. */
  lemma {:induction false} Unused(taken: set<nat>) returns (n: nat)
    ensures forall x <- taken :: x < n
  {
    if taken == {} {
      n := 0;
    } else {
      var x :| x in taken;
      var m := Unused(taken - {x});
      n := if m <= x then x + 1 else m;
      assert forall y <- taken :: y == x || y in taken - {x};
    }
  }

  // ---- A worker comes back to the head of its loop -------------------------------------------------

  /** Worker `w` alone moves, from `s` to the head of its loop in `s'`; `f` is not executing then. */
  ghost predicate Brought(s: State, s': State, w: Tid, f: Fiber) {
    Alone(s, s', w) && Grown(s, s') && AtHead(s', w) && Still(s', f)
  }

  lemma BroughtLater(s: State, m: State, s': State, w: Tid, f: Fiber)
    requires Leads(s, m) && Alone(s, m, w) && Grown(s, m)
    requires Leads(m, s') && Brought(m, s', w, f)
    ensures Leads(s, s') && Brought(s, s', w, f)
  {
    hide Leads;
    Then(s, m, s');
  }

  lemma SettleBrings(s: State, w: Tid, f: Fiber)
    requires Staged(s, w, Dropped)
    requires Still(s, f) || OnFiber(s, w) == Some(f)
    ensures Enabled(s, Settle(w)) && Brought(s, Next(s, Settle(w)), w, f)
  {
    hide Scan, Calls;
  }

  lemma FromDropped(s: State, w: Tid, f: Fiber) returns (s': State)
    requires Staged(s, w, Dropped)
    requires Still(s, f) || OnFiber(s, w) == Some(f)
    ensures Leads(s, s') && Brought(s, s', w, f)
  {
    SettleBrings(s, w, f);
    hide Enabled, Next, Leads;
    ByStep(s, Settle(w));
    s' := Next(s, Settle(w));
  }

  /** Behind `swapIn`: the count goes down and the fiber settles. */
  lemma FromBack(s: State, w: Tid, f: Fiber) returns (s': State)
    requires Staged(s, w, Back)
    requires Still(s, f) || OnFiber(s, w) == Some(f)
    ensures Leads(s, s') && Brought(s, s', w, f)
  {
    hide Scan, Calls, Leads;
    var a := Next(s, Account(w));
    ByStep(s, Account(w));
    assert Alone(s, a, w) && Grown(s, a);
    hide Brought, Enabled, Next;
    s' := FromDropped(a, w, f);
    BroughtLater(s, a, s', w, f);
  }

  /** A running fiber delivers what it owes and yields. */
  lemma FromRunning(s: State, w: Tid, f: Fiber) returns (s': State)
    requires Staged(s, w, Running)
    requires Still(s, f) || OnFiber(s, w) == Some(f)
    ensures Leads(s, s') && Brought(s, s', w, f)
    ensures var p := s.workers[w].phase;
            p.owes.Some? ==> |s'.queue| > |s.queue| && Unpinned(s', |s.queue|, Resume(p.owes.value))
  {
    hide Scan, Calls, Leads;
    var a := s;
    Stays(s);
    if s.workers[w].phase.owes.Some? {
      a := Next(s, Discharge(w));
      ByStep(s, Discharge(w));
    }
    var b := Next(a, Yield(w));
    ByStep(a, Yield(w));
    s' := FromBack(b, w, f);
    Then(a, b, s');
    Then(s, a, s');
  }

  /** The entry at `i` is for any thread and has this task. */
  predicate Unpinned(s: State, i: nat, task: Task) {
    i < |s.queue| && s.queue[i].thread == -1 && s.queue[i].task == task
  }

  /** Starting: an ended fiber is dropped at once, any other task runs. */
  lemma Started(s: State, w: Tid, made: Fiber, f: Fiber) returns (a: State)
    requires w in s.workers && s.workers[w].phase.Taken? && Still(s, f) && made !in s.fibers
    ensures Leads(s, a) && Alone(s, a, w) && a.queue == s.queue
    ensures if AtHead(a, w) then s.workers[w].phase.e.task.Resume? && Still(a, f)
            else Staged(a, w, Running) && (Still(a, f) || OnFiber(a, w) == Some(f))
    ensures !AtHead(a, w) && s.workers[w].phase.e.task == Call(Wake(f)) ==> a.workers[w].phase.owes == Some(f)
  {
    hide Scan, Calls, Leads;
    ByStep(s, Start(w, made));
    a := Next(s, Start(w, made));
  }

  /** What a worker has in hand is started and left again. */
  lemma FromTaken(s: State, w: Tid, f: Fiber) returns (s': State)
    requires w in s.workers && s.workers[w].phase.Taken? && Still(s, f)
    ensures Leads(s, s') && Brought(s, s', w, f)
    ensures s.workers[w].phase.e.task == Call(Wake(f)) ==>
              |s'.queue| > |s.queue| && Unpinned(s', |s.queue|, Resume(f))
  {
    hide Leads, Still;
    var made := Unused(s.fibers.Keys);
    var a := Started(s, w, made, f);
    if AtHead(a, w) {
      s' := a;
    } else {
      s' := FromRunning(a, w, f);
      BroughtLater(s, a, s', w, f);
    }
  }

  lemma FromIdle(s: State, w: Tid, f: Fiber) returns (s': State)
    requires IsIdle(s, w) && Still(s, f)
    ensures Leads(s, s') && Brought(s, s', w, f)
  {
    hide Scan, Leads;
    var a := Next(s, Flush(w));
    ByStep(s, Flush(w));
    s' := Next(a, LeaveIdle(w));
    ByStep(a, LeaveIdle(w));
    Then(s, a, s');
  }

  lemma FromLeaving(s: State, w: Tid, f: Fiber) returns (s': State)
    requires Staged(s, w, Leaving)
    requires Still(s, f) || OnFiber(s, w) == Some(f)
    ensures Leads(s, s') && Brought(s, s', w, f)
  {
    hide Scan, Calls, Leads;
    var a := Next(s, SwapOut(w));
    ByStep(s, SwapOut(w));
    assert Alone(s, a, w) && Grown(s, a);
    hide Brought, Enabled, Next;
    s' := FromBack(a, w, f);
    BroughtLater(s, a, s', w, f);
  }

  /** A worker that has not exited can come back to the head of its loop. */
  lemma Home(s: State, w: Tid, f: Fiber) returns (s': State)
    requires w in s.workers && !s.workers[w].phase.Exited?
    requires Still(s, f) || OnFiber(s, w) == Some(f)
    ensures Leads(s, s') && Brought(s, s', w, f)
  {
    hide Leads;
    match s.workers[w].phase
    case Head => s' := s; Stays(s);
    case Taken(_) => s' := FromTaken(s, w, f);
    case Idle(_) => s' := FromIdle(s, w, f);
    case On(_, _, _, stage, _) =>
      match stage
      case Running => s' := FromRunning(s, w, f);
      case Back => s' := FromBack(s, w, f);
      case Leaving => s' := FromLeaving(s, w, f);
      case Dropped => s' := FromDropped(s, w, f);
  }

  /** The worker that takes a step. */
  predicate Acts(t: Step, w: Tid) {
    (t.Dequeue? || t.Start? || t.Discharge? || t.Yield? || t.SwapOut? || t.Account? || t.Settle? || t.GoIdle? ||
     t.Flush? || t.Exit?) && t.w == w
  }

  /** No worker is ever stuck: as long as it has not exited, it has a step to take. */
  lemma NeverStuck(s: State, w: Tid) returns (t: Step)
    requires w in s.workers && !s.workers[w].phase.Exited?
    ensures Enabled(s, t) && Acts(t, w)
  {
    var made := Unused(s.fibers.Keys);
    match s.workers[w].phase
    case Head =>
      t := if Scan(s.fibers, s.queue, w) < |s.queue| then Dequeue(w) else if s.workers[w].idleDone then Exit(w) else GoIdle(w);
    case Taken(_) => t := Start(w, made);
    case Idle(_) => t := Flush(w);
    case On(_, _, _, stage, owes) =>
      t := match stage
           case Running => (if owes.Some? then Discharge(w) else Yield(w))
           case Leaving => SwapOut(w)
           case Back => Account(w)
           case Dropped => Settle(w);
  }

  // ---- A worker takes a wake-up from the list -------------------------------------------------------

  /** An entry for any thread that will wake `f`, itself or by a callback. */
  predicate WakesAt(s: State, i: nat, f: Fiber) {
    i < |s.queue| && s.queue[i].thread == -1 && TaskClaim(s.queue[i].task) == Some(f)
  }

  predicate InHand(s: State, w: Tid, f: Fiber) {
    w in s.workers && s.workers[w].phase.Taken? && s.workers[w].phase.e.task == Resume(f)
  }

  /** Callbacks still to be turned into entries. */
  function Weight(s: State, i: nat, f: Fiber): nat {
    if WakesAt(s, i, f) && s.queue[i].task.Call? then 1 else 0
  }

  lemma ScanNotBehind(s: State, w: Tid, f: Fiber, i: nat)
    requires Still(s, f) && WakesAt(s, i, f)
    ensures Scan(s.fibers, s.queue, w) <= i && Eligible(s.fibers, s.queue[i], w)
  {
  }

  /** One dequeue: entries behind the taken one move up. */
  lemma Dequeued(s: State, w: Tid, k: nat) returns (a: State)
    requires AtHead(s, w) && k < |s.queue| && k == Scan(s.fibers, s.queue, w)
    ensures Leads(s, a) && Alone(s, a, w) && forall f :: Still(s, f) ==> Still(a, f)
    ensures a.queue == Without(s.queue, k)
    ensures w in a.workers && a.workers[w].phase == Taken(s.queue[k])
  {
    hide Scan, Leads;
    ByStep(s, Dequeue(w));
    a := Next(s, Dequeue(w));
  }

  /** A worker takes the first entry it may and deals with it; `k` is where that entry was. */
  lemma Drained(s: State, w: Tid, f: Fiber, k: nat) returns (b: State)
    requires AtHead(s, w) && Still(s, f) && k < |s.queue| && k == Scan(s.fibers, s.queue, w)
    ensures Leads(s, b) && Brought(s.(queue := Without(s.queue, k)), b, w, f)
    ensures s.queue[k].task == Call(Wake(f)) ==>
              |b.queue| >= |s.queue| && Unpinned(b, |s.queue| - 1, Resume(f))
  {
    hide Scan, Leads;
    var a := Dequeued(s, w, k);
    b := FromTaken(a, w, f);
    Then(s, a, b);
  }

  /**
   * From the head of its loop a worker comes to have `f` in hand, if the entry at `i` wakes it; another
   * entry behind it that wakes `f` is not lost.
   */
  lemma Reach(s: State, w: Tid, f: Fiber, i: nat, j: nat) returns (s': State, j': nat)
    requires AtHead(s, w) && Still(s, f) && WakesAt(s, i, f) && i < j
    ensures Leads(s, s') && Alone(s, s', w) && InHand(s', w, f) && Still(s', f)
    ensures WakesAt(s, j, f) ==> WakesAt(s', j', f)
    decreases Weight(s, i, f) + Weight(s, j, f), i
  {
    hide Scan, Leads, StateOf;
    ScanNotBehind(s, w, f, i);
    var k := Scan(s.fibers, s.queue, w);
    j' := j - 1;
    if k == i && s.queue[i].task.Resume? {
      s' := Dequeued(s, w, k);
      return;
    }
    var b := Drained(s, w, f, k);
    var last := |s.queue| - 1;
    if k < i {
      s', j' := Reach(b, w, f, i - 1, if j <= last then j - 1 else |b.queue|);
    } else if WakesAt(s, j, f) {
      s', j' := Reach(b, w, f, j - 1, last);
    } else {
      s', j' := Reach(b, w, f, last, |b.queue|);
    }
    Then(s, b, s');
  }

  // ---- Both are delivered ----------------------------------------------------------------------------

  /** Two entries wake `f`, two workers live: both can come to have it in hand. */
  lemma BothInHand(s: State, w: Tid, v: Tid, f: Fiber, i: nat, j: nat) returns (s': State)
    requires WakesAt(s, i, f) && WakesAt(s, j, f) && i < j
    requires Lives(s, w) && Lives(s, v) && w != v
    requires Still(s, f) || exists u :: OnFiber(s, u) == Some(f)
    ensures Leads(s, s') && InHand(s', w, f) && InHand(s', v, f)
  {
    hide Leads, Still;
    var a := s;
    Stays(s);
    if !Still(s, f) {
      var u :| OnFiber(s, u) == Some(f);
      a := Home(s, u, f);
    }
    var b := Home(a, w, f);
    Then(s, a, b);
    var c := Home(b, v, f);
    Then(s, b, c);
    var d, j' := Reach(c, w, f, i, j);
    Then(s, c, d);
    var last;
    s', last := Reach(d, v, f, j', |d.queue|);
    Then(s, d, s');
  }

  predicate Lives(s: State, w: Tid) {
    w in s.workers && !s.workers[w].phase.Exited?
  }

  /** A wake-up that can still be delivered without the users: for any thread, by an event, or by a timer. */
  ghost predicate Ripe(s: State, p: Place, f: Fiber) {
    && Claim(s, p) == Some(f)
    && match p
       case AtQueue(i) => s.queue[i].thread == -1
       case AtEvent(_) => true
       case AtTimer(_) => exists u :: IsIdle(s, u)
       case _ => false
  }

  /** The same workers live, and `f` is where it was. */
  ghost predicate Aside(s: State, s': State, f: Fiber) {
    && Grown(s, s') && (forall w :: Lives(s, w) ==> Lives(s', w))
    && (Still(s, f) ==> Still(s', f)) && forall w :: OnFiber(s', w) == OnFiber(s, w)
  }

  /** A deliverable wake-up comes into the list, and another one stays deliverable. */
  lemma Surface(s: State, p: Place, q: Place, f: Fiber) returns (s': State, i: nat)
    requires Ripe(s, p, f) && Ripe(s, q, f) && p != q
    ensures Leads(s, s') && Aside(s, s', f) && WakesAt(s', i, f) && Ripe(s', q, f) && q != AtQueue(i)
  {
    hide Leads, Scan;
    match p
    case AtQueue(k) => s', i := s, k; Stays(s); 
    case AtEvent(key) => s' := SurfaceEvent(s, key, q, f); i := |s.queue|;
    case AtTimer(n) => s', i := SurfaceTimer(s, n, q, f);
  }

  /** The idle worker empties its hands, takes the expired timer and schedules its callback. */
  lemma SurfaceTimer(s: State, n: nat, q: Place, f: Fiber) returns (s': State, i: nat)
    requires Ripe(s, AtTimer(n), f) && Ripe(s, q, f) && q != AtTimer(n)
    ensures Leads(s, s') && Aside(s, s', f) && WakesAt(s', i, f) && Ripe(s', q, f) && i >= |s.queue|
  {
    hide Leads, Scan;
    var u :| IsIdle(s, u);
    var a := Next(s, Flush(u));
    ByStep(s, Flush(u));
    var b := Next(a, Expire(u, n));
    ByStep(a, Expire(u, n));
    Then(s, a, b);
    i := |b.queue|;
    s' := Next(b, Flush(u));
    ByStep(b, Flush(u));
    Then(s, b, s');
    assert IsIdle(s', u);
  }

  lemma SurfaceEvent(s: State, key: Key, q: Place, f: Fiber) returns (s': State)
    requires Ripe(s, AtEvent(key), f) && Ripe(s, q, f) && q != AtEvent(key)
    ensures Leads(s, s') && Aside(s, s', f) && WakesAt(s', |s.queue|, f) && Ripe(s', q, f)
  {
    hide Leads, Scan;
    ByStep(s, Trigger(None, key));
    s' := Next(s, Trigger(None, key));
    assert forall u :: IsIdle(s, u) ==> IsIdle(s', u);
  }

  /** Only a fiber on a worker is executing. */
  ghost predicate ExecIsOn(s: State) {
    forall f: Fiber :: StateOf(s, f) == Exec ==> exists u :: OnFiber(s, u) == Some(f)
  }

  lemma ExecKept(s: State, t: Step)
    requires ExecIsOn(s) && Enabled(s, t)
    ensures ExecIsOn(Next(s, t))
  {
    hide ExecIsOn;
    match t
    case Start(_, _) => ExecKeptByStart(s, t);
    case Settle(_) => ExecKeptBySettle(s, t);
    case Leave(_, _) => ExecKeptByLeave(s, t);
    case _ => ExecKeptElse(s, t);
  }

  lemma ExecKeptByStart(s: State, t: Step)
    requires ExecIsOn(s) && Enabled(s, t) && t.Start?
    ensures ExecIsOn(Next(s, t))
  {
    var s' := Next(s, t);
    forall f: Fiber | StateOf(s', f) == Exec ensures exists u :: OnFiber(s', u) == Some(f) {
      if StateOf(s, f) == Exec {
        var u :| OnFiber(s, u) == Some(f);
        assert OnFiber(s', u) == Some(f);
      } else {
        assert OnFiber(s', t.w) == Some(f);
      }
    }
  }

  lemma ExecKeptBySettle(s: State, t: Step)
    requires ExecIsOn(s) && Enabled(s, t) && t.Settle?
    ensures ExecIsOn(Next(s, t))
  {
    var s' := Next(s, t);
    forall f: Fiber | StateOf(s', f) == Exec ensures exists u :: OnFiber(s', u) == Some(f) {
      var u :| OnFiber(s, u) == Some(f);
      assert OnFiber(s', u) == Some(f);
    }
  }

  lemma ExecKeptByLeave(s: State, t: Step)
    requires ExecIsOn(s) && Enabled(s, t) && t.Leave?
    ensures ExecIsOn(Next(s, t))
  {
    var s' := Next(s, t);
    forall f: Fiber | StateOf(s', f) == Exec ensures exists u :: OnFiber(s', u) == Some(f) {
      var u :| OnFiber(s, u) == Some(f);
      assert OnFiber(s', u) == Some(f);
    }
  }

  lemma ExecKeptElse(s: State, t: Step)
    requires ExecIsOn(s) && Enabled(s, t) && !t.Start? && !t.Settle? && !t.Leave?
    ensures ExecIsOn(Next(s, t))
  {
    hide Scan, Calls;
    var s' := Next(s, t);
    forall f: Fiber | StateOf(s', f) == Exec ensures exists u :: OnFiber(s', u) == Some(f) {
      assert StateOf(s, f) == Exec;
      var u :| OnFiber(s, u) == Some(f);
      assert OnFiber(s', u) == Some(f);
    }
  }

  lemma {:induction false} ExecOverRun(s: State, steps: seq<Step>)
    requires ExecIsOn(s) && IsRun(s, steps)
    ensures ExecIsOn(After(s, steps))
    decreases |steps|
  {
    hide Enabled, Next, ExecIsOn;
    if steps != [] {
      ExecKept(s, steps[0]);
      ExecOverRun(Next(s, steps[0]), steps[1..]);
    }
  }

  /** Two workers have the fiber in hand after some run that asks the users for nothing. */
  ghost predicate TwoHands(s: State, f: Fiber) {
    exists more, w, v ::
      IsRun(s, more) && InternalRun(more) && w != v && Holds(After(s, more), w, f) && Holds(After(s, more), v, f)
  }

  lemma RipeTwice(s: State, p: Place, q: Place, f: Fiber, w: Tid, v: Tid)
    requires ExecIsOn(s) && Ripe(s, p, f) && Ripe(s, q, f) && p != q
    requires Lives(s, w) && Lives(s, v) && w != v
    ensures TwoHands(s, f)
  {
    hide Ripe, WakesAt, Leads;
    var a, i := Surface(s, p, q, f);
    RipeInQueue(a, i, f);
    var b, j := Surface(a, q, AtQueue(i), f);
    Then(s, a, b);
    RipeInQueue(b, i, f);
    assert Still(b, f) || exists u :: OnFiber(b, u) == Some(f);
    var c := BothInHand(b, w, v, f, if i < j then i else j, if i < j then j else i);
    Then(s, b, c);
    BothHold(s, c, w, v, f);
  }

  lemma BothHold(s: State, c: State, w: Tid, v: Tid, f: Fiber)
    requires Leads(s, c) && InHand(c, w, f) && InHand(c, v, f) && w != v
    ensures TwoHands(s, f)
  {
    var more :| IsRun(s, more) && InternalRun(more) && After(s, more) == c;
    assert Holds(After(s, more), w, f) && Holds(After(s, more), v, f);
  }

  lemma RipeInQueue(s: State, i: nat, f: Fiber)
    ensures WakesAt(s, i, f) <==> Ripe(s, AtQueue(i), f)
  {
  }

  /** The claim that a step of the users makes, if it can be delivered without them. */
  ghost predicate MakesRipe(s: State, t: Step, f: Fiber) {
    match t
    case Schedule(_, task, thread) => TaskClaim(task) == Some(f) && thread == -1
    case AddEvent(_, _, task) => TaskClaim(task) == Some(f)
    case AddTimer(_, _, timer) => timer.cb == Wake(f) && !timer.recurring && exists u :: IsIdle(s, u)
    case _ => false
  }

  lemma MakesSecond(s: State, t: Step, p: Place, f: Fiber) returns (q: Place)
    requires Enabled(s, t) && MakesRipe(s, t, f) && Ripe(s, p, f)
    ensures p != q && Ripe(Next(s, t), p, f) && Ripe(Next(s, t), q, f)
  {
    hide Scan, Calls;
    q := if t.AddEvent? then AtEvent(t.key) else if t.AddTimer? then AtTimer(t.t) else AtQueue(|s.queue|);
    assert forall u :: IsIdle(s, u) ==> IsIdle(Next(s, t), u);
  }

  /**
   * The discipline is needed for safety itself. After any disciplined run in which the wake-ups of `f` can
   * be delivered, `f` is not ending and two workers live: a wake-up made for `f` obeys the discipline if
   * and only if from then on the runtime, left to itself, never has `f` in the hands of two workers.
   */
  lemma SecondWakeExact(tids: set<Tid>, steps: seq<Step>, t: Step, f: Fiber, w: Tid, v: Tid)
    requires IsRun(Initial(tids), steps) && DisciplinedRun(Initial(tids), steps)
    requires var s := After(Initial(tids), steps);
             && Enabled(s, t) && MakesRipe(s, t, f) && f in s.fibers
             && (forall p :: Claim(s, p) == Some(f) ==> Ripe(s, p, f))
             && (forall u :: OnFiber(s, u) == Some(f) ==> StateOf(s, f) == Exec)
             && Lives(s, w) && Lives(s, v) && w != v
    ensures var s := After(Initial(tids), steps);
            Disciplined(s, t) <==> !TwoHands(Next(s, t), f)
  {
    hide Enabled, Next, Ripe, TwoHands;
    InitialInv(tids);
    RunKeeps(Initial(tids), steps);
    assert ExecIsOn(Initial(tids));
    ExecOverRun(Initial(tids), steps);
    var s := After(Initial(tids), steps);
    ExecKept(s, t);
    if Disciplined(s, t) {
      StepKeeps(s, t);
      OneHand(Next(s, t), f);
    } else {
      var p :| Claim(s, p) == Some(f);
      var q := MakesSecond(s, t, p, f);
      LivesOn(s, t, f, w);
      LivesOn(s, t, f, v);
      RipeTwice(Next(s, t), p, q, f, w, v);
    }
  }

  lemma LivesOn(s: State, t: Step, f: Fiber, w: Tid)
    requires Enabled(s, t) && Lives(s, w) && MakesRipe(s, t, f)
    ensures Lives(Next(s, t), w)
  {
    hide Scan, Calls;
  }

  lemma OneHand(s: State, f: Fiber)
    requires Inv(s)
    ensures !TwoHands(s, f)
  {
    forall more, w, v | IsRun(s, more) && InternalRun(more) && Holds(After(s, more), w, f) && Holds(After(s, more), v, f)
      ensures w == v
    {
      InternalIsDisciplined(s, more);
      RunKeeps(s, more);
      HoldsOne(After(s, more), w, v, f);
    }
  }
}

/**
 * The discipline as a rule that each fiber can follow on its own: while it runs it arms at most one wake-up,
 * for itself, and none if it then yields READY or ends; a new fiber is scheduled once. Runs in which all
 * fibers follow it are disciplined, whatever the other fibers, the timers and the kernel do.
 */
module RuntimeLocal {
  import opened Options
  import opened Runtime
  import opened RuntimeClaims
  import opened RuntimeSafety
  import opened RuntimeRuns

  /** `armed`: workers whose running fiber has armed a wake-up; `born`: fibers not scheduled yet. */
  datatype Book = Book(armed: set<Tid>, born: set<Fiber>)

  /** A wake-up is for a fiber not scheduled yet, or the running fiber's only one for itself. */
  predicate Own(s: State, actor: Option<Tid>, c: Option<Fiber>, b: Book) {
    c.Some? ==> c.value in b.born || (actor.Some? && OnFiber(s, actor.value) == c && actor.value !in b.armed)
  }

  predicate Local(s: State, t: Step, b: Book) {
    match t
    case AddEvent(actor, _, task) => Own(s, actor, TaskClaim(task), b)
    case AddTimer(actor, _, timer) => Own(s, actor, CallbackClaim(timer.cb), b) && (timer.recurring ==> !timer.cb.Wake?)
    case Schedule(actor, task, _) => Own(s, actor, TaskClaim(task), b)
    case Leave(w, _) => w !in b.armed
    case _ => true
  }

  function Booked(b: Book, actor: Option<Tid>, c: Option<Fiber>): Book {
    if c.None? then b
    else if c.value in b.born then b.(born := b.born - {c.value})
    else if actor.Some? then b.(armed := b.armed + {actor.value}) else b
  }

  function NextBook(s: State, t: Step, b: Book): Book {
    match t
    case AddEvent(actor, _, task) => Booked(b, actor, TaskClaim(task))
    case AddTimer(actor, _, timer) => Booked(b, actor, CallbackClaim(timer.cb))
    case Schedule(actor, task, _) => Booked(b, actor, TaskClaim(task))
    case Start(w, _) => b.(armed := b.armed - {w})
    case NewFiber(f) => b.(born := b.born + {f})
    case _ => b
  }

  /** A running fiber that has armed nothing is claimed nowhere; a new fiber neither, and is on no worker. */
  ghost predicate Kept(s: State, b: Book) {
    && (forall w :: w !in b.armed && Staged(s, w, Running) ==> Unclaimed(s, s.workers[w].phase.f))
    && (forall f :: f in b.born ==> NewlyBorn(s, f))
  }

  ghost predicate NewlyBorn(s: State, f: Fiber) {
    f in s.fibers && Unclaimed(s, f) && forall w :: OnFiber(s, w) != Some(f)
  }

  lemma LocalDisciplined(s: State, t: Step, b: Book)
    requires Inv(s) && Kept(s, b) && Enabled(s, t) && Local(s, t, b)
    ensures Disciplined(s, t)
  {
    match t
    case AddEvent(actor, _, task) => OwnMayClaim(s, actor, TaskClaim(task), b);
    case AddTimer(actor, _, timer) => OwnMayClaim(s, actor, CallbackClaim(timer.cb), b);
    case Schedule(actor, task, _) => OwnMayClaim(s, actor, TaskClaim(task), b);
    case _ =>
  }

  lemma OwnMayClaim(s: State, actor: Option<Tid>, c: Option<Fiber>, b: Book)
    requires Inv(s) && Kept(s, b) && Own(s, actor, c, b) && MayAct(s, actor)
    ensures MayClaim(s, c)
  {
    if c.Some? && c.value !in b.born { assert OnFiber(s, actor.value) == c; }
  }

  // ---- The fiber that a step arms ------------------------------------------------------------------

  function Arms(s: State, t: Step): Option<Fiber> {
    match t
    case AddEvent(_, _, task) => TaskClaim(task)
    case AddTimer(_, _, timer) => CallbackClaim(timer.cb)
    case Schedule(_, task, _) => TaskClaim(task)
    case Leave(w, _) => OnFiber(s, w)
    case Settle(w) => OnFiber(s, w)
    case _ => None
  }

  lemma CreatedIsArmed(s: State, t: Step, p: Place)
    requires Enabled(s, t) && Created(s, t) == Some(p) && Claim(Next(s, t), p).Some?
    ensures Claim(Next(s, t), p) == Arms(s, t) || Claim(Next(s, t), p) == Claim(s, p)
  {
    hide Scan, Calls;
  }

  /** A fiber that no step arms stays unclaimed. */
  lemma StaysUnclaimed(s: State, t: Step, f: Fiber)
    requires Inv(s) && Enabled(s, t) && Disciplined(s, t) && Unclaimed(s, f) && Arms(s, t) != Some(f)
    ensures Unclaimed(Next(s, t), f)
  {
    var s' := Next(s, t);
    Moves(s, t);
    forall p ensures Claim(s', p) != Some(f) {
      if Claim(s', p) == Some(f) && Created(s, t) == Some(p) { CreatedIsArmed(s, t, p); }
    }
  }

  // ---- The book stays right ------------------------------------------------------------------------

  /** Only `Start` puts a fiber on a worker. */
  lemma OnBefore(s: State, t: Step, v: Tid)
    requires Enabled(s, t) && !(t.Start? && t.w == v)
    ensures OnFiber(Next(s, t), v).Some? ==> OnFiber(s, v) == OnFiber(Next(s, t), v)
    ensures Staged(Next(s, t), v, Running) ==> Staged(s, v, Running) && OnFiber(s, v) == OnFiber(Next(s, t), v)
  {
    hide Scan, Calls;
  }

  /** A fiber that starts to run has used up its wake-up. */
  lemma StartUnclaims(s: State, w: Tid, made: Fiber)
    requires Inv(s) && Enabled(s, Start(w, made)) && Staged(Next(s, Start(w, made)), w, Running)
    ensures Unclaimed(Next(s, Start(w, made)), Next(s, Start(w, made)).workers[w].phase.f)
  {
    var t := Start(w, made);
    var s', task := Next(s, t), s.workers[w].phase.e.task;
    var f := s'.workers[w].phase.f;
    var from := if task.Resume? then AtHand(w) else AtSpare(w);
    assert Claim(s', from).None?;
    Moves(s, t);
    StartFrom(s, w, made);
    assert forall p :: Claim(s', p) == Some(f) ==> Claim(s, p) == Some(f);
  }

  lemma StartFrom(s: State, w: Tid, made: Fiber)
    requires Enabled(s, Start(w, made)) && Staged(Next(s, Start(w, made)), w, Running)
    ensures var f := Next(s, Start(w, made)).workers[w].phase.f;
            if s.workers[w].phase.e.task.Resume? then Claim(s, AtHand(w)) == Some(f)
            else Claim(s, AtSpare(w)) == Some(f) || f == made
  {
  }

  /** A fiber that was never scheduled is not started. */
  lemma StartLeaves(s: State, w: Tid, made: Fiber, g: Fiber)
    requires Enabled(s, Start(w, made)) && NewlyBorn(s, g)
    ensures OnFiber(Next(s, Start(w, made)), w) != Some(g)
  {
    if Staged(Next(s, Start(w, made)), w, Running) { StartFrom(s, w, made); }
    assert OnFiber(Next(s, Start(w, made)), w).Some? ==> Staged(Next(s, Start(w, made)), w, Running);
  }

  lemma RunningKept(s: State, t: Step, b: Book, v: Tid)
    requires Inv(s) && Kept(s, b) && Enabled(s, t) && Local(s, t, b)
    requires v !in NextBook(s, t, b).armed && Staged(Next(s, t), v, Running)
    ensures Unclaimed(Next(s, t), Next(s, t).workers[v].phase.f)
  {
    hide Guarded, Linear, Known, Unclaimed;
    if t.Start? && t.w == v {
      StartUnclaims(s, v, t.made);
    } else {
      OnBefore(s, t, v);
      LocalDisciplined(s, t, b);
      NotArmed(s, t, b, v);
      StaysUnclaimed(s, t, s.workers[v].phase.f);
    }
  }

  /** What a step arms is not the fiber of another worker that has armed nothing. */
  lemma NotArmed(s: State, t: Step, b: Book, v: Tid)
    requires Inv(s) && Kept(s, b) && Enabled(s, t) && Local(s, t, b) && !(t.Start? && t.w == v)
    requires v !in NextBook(s, t, b).armed && Staged(Next(s, t), v, Running) && Staged(s, v, Running)
    ensures v !in b.armed && Arms(s, t) != Some(s.workers[v].phase.f)
  {
    hide Guarded, Linear, Known, Unclaimed, Scan, Calls;
    assert OnFiber(s, v) == Some(s.workers[v].phase.f);
    assert forall w :: OnFiber(s, w) == OnFiber(s, v) ==> w == v;
  }

  lemma BornKept(s: State, t: Step, b: Book, g: Fiber)
    requires Inv(s) && Kept(s, b) && Enabled(s, t) && Local(s, t, b) && g in NextBook(s, t, b).born
    ensures NewlyBorn(Next(s, t), g)
  {
    hide Guarded, Linear;
    LocalDisciplined(s, t, b);
    if t == NewFiber(g) {
      assert forall p :: Claim(s, p).Some? ==> Claim(s, p).value in s.fibers;
    }
    StaysUnclaimed(s, t, g);
    forall w ensures OnFiber(Next(s, t), w) != Some(g) {
      if t.Start? && t.w == w { StartLeaves(s, w, t.made, g); } else { OnBefore(s, t, w); }
    }
  }

  lemma BookKept(s: State, t: Step, b: Book)
    requires Inv(s) && Kept(s, b) && Enabled(s, t) && Local(s, t, b)
    ensures Inv(Next(s, t)) && Kept(Next(s, t), NextBook(s, t, b))
  {
    hide Inv, Local, NextBook, NewlyBorn, Unclaimed;
    LocalDisciplined(s, t, b);
    StepKeeps(s, t);
    forall v | v !in NextBook(s, t, b).armed && Staged(Next(s, t), v, Running)
      ensures Unclaimed(Next(s, t), Next(s, t).workers[v].phase.f)
    {
      RunningKept(s, t, b, v);
    }
    forall g | g in NextBook(s, t, b).born ensures NewlyBorn(Next(s, t), g) { BornKept(s, t, b, g); }
  }

  // ---- Runs ----------------------------------------------------------------------------------------

  predicate LocalRun(s: State, steps: seq<Step>, b: Book)
    requires IsRun(s, steps)
    decreases |steps|
  {
    steps == [] || (Local(s, steps[0], b) && LocalRun(Next(s, steps[0]), steps[1..], NextBook(s, steps[0], b)))
  }

  lemma {:induction false} LocalRunDisciplined(s: State, steps: seq<Step>, b: Book)
    requires Inv(s) && Kept(s, b) && IsRun(s, steps) && LocalRun(s, steps, b)
    ensures DisciplinedRun(s, steps)
    decreases |steps|
  {
    hide Inv, Kept, Local, NextBook, Disciplined;
    if steps != [] {
      LocalDisciplined(s, steps[0], b);
      BookKept(s, steps[0], b);
      LocalRunDisciplined(Next(s, steps[0]), steps[1..], NextBook(s, steps[0], b));
    }
  }

  /**
   * If every running fiber registers at most one wake-up before it yields, then in every state of the run
   * no two workers hold the same fiber, each fiber has one wake-up at most, and no assertion fails.
   */
  lemma LocalMutualExclusion(tids: set<Tid>, steps: seq<Step>)
    requires IsRun(Initial(tids), steps) && LocalRun(Initial(tids), steps, Book({}, {}))
    ensures var s := After(Initial(tids), steps);
            && (forall p, q :: Claim(s, p).Some? && Claim(s, p) == Claim(s, q) ==> p == q)
            && (forall w, v, f :: Holds(s, w, f) && Holds(s, v, f) ==> w == v)
            && (forall t :: Enabled(s, t) ==> Asserted(s, t))
  {
    hide Claim, Holds, Asserted, Enabled;
    InitialInv(tids);
    StartsKept(tids);
    LocalRunDisciplined(Initial(tids), steps, Book({}, {}));
    MutualExclusion(tids, steps);
  }

  lemma StartsKept(tids: set<Tid>)
    ensures Kept(Initial(tids), Book({}, {}))
  {
  }

  function BookAfter(s: State, steps: seq<Step>, b: Book): Book
    requires IsRun(s, steps)
    decreases |steps|
  {
    if steps == [] then b else BookAfter(Next(s, steps[0]), steps[1..], NextBook(s, steps[0], b))
  }

  lemma {:induction false} LocalRunKeeps(s: State, steps: seq<Step>, b: Book)
    requires Inv(s) && Kept(s, b) && IsRun(s, steps) && LocalRun(s, steps, b)
    ensures Kept(After(s, steps), BookAfter(s, steps, b))
    decreases |steps|
  {
    hide Inv, Kept, Local, NextBook;
    if steps != [] {
      BookKept(s, steps[0], b);
      LocalRunKeeps(Next(s, steps[0]), steps[1..], NextBook(s, steps[0], b));
    }
  }

  /** A fiber that runs and has armed nothing since it was resumed has no wake-up left over from before. */
  lemma ResumedOnce(tids: set<Tid>, steps: seq<Step>, w: Tid)
    requires IsRun(Initial(tids), steps) && LocalRun(Initial(tids), steps, Book({}, {}))
    requires w !in BookAfter(Initial(tids), steps, Book({}, {})).armed && Staged(After(Initial(tids), steps), w, Running)
    ensures Unclaimed(After(Initial(tids), steps), After(Initial(tids), steps).workers[w].phase.f)
  {
    InitialInv(tids);
    StartsKept(tids);
    LocalRunKeeps(Initial(tids), steps, Book({}, {}));
  }

  // ---- The hooked system calls ---------------------------------------------------------------------

  /** `do_io` and `connect_with_timeout` on EAGAIN: a timer that will cancel, the event, and the yield. */
  function ParkOnEvent(w: Tid, f: Fiber, key: Key, n: nat, code: nat): seq<Step> {
    [AddTimer(Some(w), n, Timer(Other(code), false)), AddEvent(Some(w), key, Resume(f)), Yield(w)]
  }

  /** `sleep`, `usleep`, `nanosleep`. */
  function ParkOnTimer(w: Tid, f: Fiber, n: nat): seq<Step> {
    [AddTimer(Some(w), n, Timer(Wake(f), false)), Yield(w)]
  }

  lemma LocalUnroll(s: State, t: Step, rest: seq<Step>, b: Book)
    requires Enabled(s, t) && Local(s, t, b) && IsRun(Next(s, t), rest) && LocalRun(Next(s, t), rest, NextBook(s, t, b))
    ensures IsRun(s, [t] + rest) && LocalRun(s, [t] + rest, b) && After(s, [t] + rest) == After(Next(s, t), rest)
    ensures BookAfter(s, [t] + rest, b) == BookAfter(Next(s, t), rest, NextBook(s, t, b))
  {
    assert ([t] + rest)[1..] == rest;
  }

  /** What a hooked call finds: its fiber runs on `w` and has armed nothing. */
  predicate AtCall(s: State, w: Tid, f: Fiber, b: Book) {
    Free(s, w) && w !in b.armed && s.workers[w].phase.f == f
  }

  /** Waiting for a descriptor follows the rule and leaves the fiber with the event as its wake-up. */
  lemma EventIsLocal(s: State, w: Tid, f: Fiber, key: Key, n: nat, code: nat, b: Book)
    requires AtCall(s, w, f, b) && n !in s.timers && key !in s.events
    ensures var steps := ParkOnEvent(w, f, key, n, code);
            IsRun(s, steps) && LocalRun(s, steps, b) && Claim(After(s, steps), AtEvent(key)) == Some(f)
  {
    var t1, t2, t3 := AddTimer(Some(w), n, Timer(Other(code), false)), AddEvent(Some(w), key, Resume(f)), Yield(w);
    var s1 := Next(s, t1);
    var s2 := Next(s1, t2);
    LocalUnroll(s2, t3, [], NextBook(s1, t2, b));
    LocalUnroll(s1, t2, [t3], b);
    LocalUnroll(s, t1, [t2, t3], b);
    assert [t1] + [t2, t3] == ParkOnEvent(w, f, key, n, code);
  }

  /** Sleeping follows the rule and leaves the fiber with the timer as its wake-up. */
  lemma SleepIsLocal(s: State, w: Tid, f: Fiber, n: nat, b: Book)
    requires AtCall(s, w, f, b) && n !in s.timers
    ensures var steps := ParkOnTimer(w, f, n);
            IsRun(s, steps) && LocalRun(s, steps, b) && Claim(After(s, steps), AtTimer(n)) == Some(f)
  {
    var t1, t2 := AddTimer(Some(w), n, Timer(Wake(f), false)), Yield(w);
    var s1 := Next(s, t1);
    LocalUnroll(s1, t2, [], NextBook(s, t1, b));
    LocalUnroll(s, t1, [t2], b);
    assert [t1] + [t2] == ParkOnTimer(w, f, n);
  }

  /** Where `addEvent` fails the timer is cancelled, and the call returns with nothing armed. */
  lemma FailedAddIsLocal(s: State, w: Tid, f: Fiber, n: nat, code: nat, b: Book)
    requires AtCall(s, w, f, b) && n !in s.timers
    ensures var steps := [AddTimer(Some(w), n, Timer(Other(code), false)), CancelTimer(Some(w), n)];
            IsRun(s, steps) && LocalRun(s, steps, b) && After(s, steps) == s && BookAfter(s, steps, b) == b
  {
    var t1, t2 := AddTimer(Some(w), n, Timer(Other(code), false)), CancelTimer(Some(w), n);
    var s1 := Next(s, t1);
    assert Next(s1, t2) == s;
    LocalUnroll(s1, t2, [], b);
    LocalUnroll(s, t1, [t2], b);
    assert [t1] + [t2] == [t1, t2] && [t2] + [] == [t2];
  }

  /** Behind the yield the timer is cancelled if it is still there; the call goes on as it was entered. */
  lemma ResumeIsLocal(s: State, w: Tid, f: Fiber, n: nat, b: Book)
    requires AtCall(s, w, f, b) && n in s.timers
    ensures var t := CancelTimer(Some(w), n);
            Enabled(s, t) && Local(s, t, b) && NextBook(s, t, b) == b && AtCall(Next(s, t), w, f, b)
  {
  }

  // ---- Readiness against timeout -------------------------------------------------------------------

  /** The steps that take the registration of `key`: readiness, cancellation, deletion. */
  predicate Takes(t: Step, key: Key) { (t.Trigger? || t.DelEvent?) && t.key == key }

  function Taken(steps: seq<Step>, key: Key): nat {
    if steps == [] then 0 else (if Takes(steps[0], key) then 1 else 0) + Taken(steps[1..], key)
  }

  predicate NoNewEvent(steps: seq<Step>, key: Key) {
    forall t <- steps :: !(t.AddEvent? && t.key == key)
  }

  lemma EventStep(s: State, t: Step, key: Key)
    requires Enabled(s, t) && !(t.AddEvent? && t.key == key)
    ensures key in Next(s, t).events <==> key in s.events && !Takes(t, key)
    ensures Takes(t, key) ==> key in s.events
  {
    hide Scan, Calls;
  }

  /**
   * Whatever happens, on any worker or thread, until the event is registered again: its registration is taken
   * at most once, by readiness or by the timeout's `cancelEvent` but not by both.
   */
  lemma {:induction false} TakenOnce(s: State, steps: seq<Step>, key: Key)
    requires IsRun(s, steps) && NoNewEvent(steps, key)
    ensures Taken(steps, key) + (if key in After(s, steps).events then 1 else 0) == if key in s.events then 1 else 0
    decreases |steps|
  {
    hide Enabled, Next;
    if steps != [] {
      assert steps[0] in steps;
      EventStep(s, steps[0], key);
      TakenOnce(Next(s, steps[0]), steps[1..], key);
    }
  }

  /** The one that comes first hands the waiting fiber to the queue. */
  lemma FirstWakes(s: State, actor: Option<Tid>, key: Key, f: Fiber)
    requires Enabled(s, Trigger(actor, key)) && Claim(s, AtEvent(key)) == Some(f)
    ensures Claim(Next(s, Trigger(actor, key)), AtQueue(|s.queue|)) == Some(f)
    ensures forall other: Option<Tid> :: !Enabled(Next(s, Trigger(actor, key)), Trigger(other, key))
  {
  }
}

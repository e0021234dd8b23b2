/**
 * Where the tasks are: every task ever scheduled is in exactly one of the queue, one worker's hand and
 * the retired ones, and `m_activeThreadCount` is the number of workers between dequeuing and settling.
 */
module RuntimeTasks {
  import opened Options
  import opened Runtime

  datatype Loc = InQueue(i: nat) | InHandOf(w: Tid)

  function HandSerial(p: Phase): Option<nat> {
    match p
    case Taken(e) => Some(e.id)
    case On(id, _, _, _, _) => Some(id)
    case _ => None
  }

  function Serial(s: State, a: Loc): Option<nat> {
    match a
    case InQueue(i) => if i < |s.queue| then Some(s.queue[i].id) else None
    case InHandOf(w) => if w in s.workers then HandSerial(s.workers[w].phase) else None
  }

  /** No serial number at two locations; none beyond those given out; located ones are not retired. */
  ghost predicate Distinct(s: State) {
    && (forall a, b :: Serial(s, a).Some? && Serial(s, a) == Serial(s, b) ==> a == b)
    && (forall a :: Serial(s, a).Some? ==> Serial(s, a).value < s.next && Serial(s, a).value !in s.retired)
    && (forall n :: n in s.retired ==> n < s.next)
  }

  ghost predicate Located(s: State, n: nat) {
    exists a :: Serial(s, a) == Some(n)
  }

  /** No task is lost. */
  ghost predicate Covered(s: State) {
    forall n | 0 <= n < s.next :: n in s.retired || Located(s, n)
  }

  predicate Counted(p: Phase) {
    p.Taken? || (p.On? && p.stage != Dropped)
  }

  function Active(workers: map<Tid, Worker>): set<Tid> {
    set w | w in workers && Counted(workers[w].phase)
  }

  ghost predicate Accounted(s: State) {
    s.active == |Active(s.workers)|
  }

  /** A pinned task is only ever in the hand of its thread. */
  ghost predicate Pinned(s: State) {
    forall w :: w in s.workers && s.workers[w].phase.Taken? ==> s.workers[w].phase.e.thread in {-1, w}
  }

  ghost predicate TaskInv(s: State) {
    Distinct(s) && Covered(s) && Accounted(s) && Pinned(s)
  }

  // ---- Locations across a step ---------------------------------------------------------------------

  /** Where a location of the state after step `t` was before it. */
  function Was(s: State, t: Step, a: Loc): Loc {
    match t
    case Dequeue(w) =>
      var k := Scan(s.fibers, s.queue, w);
      if a.InQueue? then InQueue(if a.i < k then a.i else a.i + 1) else if a.w == w then InQueue(k) else a
    case _ => a
  }

  /** Where a location of the state before step `t` is after it. */
  function Goes(s: State, t: Step, a: Loc): Loc {
    match t
    case Dequeue(w) =>
      var k := Scan(s.fibers, s.queue, w);
      if !a.InQueue? || a.i < k then a else if a.i == k then InHandOf(w) else InQueue(a.i - 1)
    case _ => a
  }

  /** A location after the step holds what its old location held, or one of the new numbers. */
  ghost predicate Backward(s: State, t: Step, s': State) {
    forall a :: Serial(s', a).Some? ==>
      || Serial(s, Was(s, t, a)) == Serial(s', a)
      || (s.next <= Serial(s', a).value < s'.next && a == InQueue(|s.queue| + Serial(s', a).value - s.next))
  }

  /** What was somewhere is somewhere, or has retired. */
  ghost predicate Forward(s: State, t: Step, s': State) {
    forall a :: Serial(s, a).Some? ==>
      Serial(s', Goes(s, t, a)) == Serial(s, a) || Serial(s, a).value in s'.retired
  }

  /** The new numbers are at the end of the queue. */
  ghost predicate Issued(s: State, s': State) {
    s.next <= s'.next &&
    forall n | s.next <= n < s'.next :: Serial(s', InQueue(|s.queue| + n - s.next)) == Some(n)
  }

  /** What retires was in a hand and is no longer anywhere. */
  ghost predicate Retires(s: State, s': State) {
    && s.retired <= s'.retired
    && forall n :: n in s'.retired && n !in s.retired ==> n < s.next && !Located(s', n)
  }

  /** Old numbers do not share an old location. */
  ghost predicate Apart(s: State, t: Step, s': State) {
    forall a, b :: Serial(s', a).Some? && Serial(s', b).Some? && Was(s, t, a) == Was(s, t, b) ==> a == b
  }

  ghost predicate Tracks(s: State, t: Step, s': State) {
    Backward(s, t, s') && Forward(s, t, s') && Issued(s, s') && Retires(s, s') && Apart(s, t, s')
  }

  lemma TracksDistinct(s: State, t: Step, s': State)
    requires Distinct(s) && Backward(s, t, s') && Issued(s, s') && Retires(s, s') && Apart(s, t, s')
    ensures Distinct(s')
  {
    forall a, b | Serial(s', a).Some? && Serial(s', a) == Serial(s', b) ensures a == b {
      var wa, wb := Was(s, t, a), Was(s, t, b);
      assert Serial(s, wa) == Serial(s', a) ==> Serial(s, wa).value < s.next;
      assert Serial(s, wb) == Serial(s', b) ==> Serial(s, wb).value < s.next;
    }
    forall a | Serial(s', a).Some? ensures Serial(s', a).value < s'.next && Serial(s', a).value !in s'.retired {
      var wa := Was(s, t, a);
      assert Serial(s, wa) == Serial(s', a) ==> Serial(s, wa).value < s.next && Serial(s, wa).value !in s.retired;
    }
  }

  lemma TracksCovered(s: State, t: Step, s': State)
    requires Covered(s) && Forward(s, t, s') && Issued(s, s') && Retires(s, s')
    ensures Covered(s')
  {
    forall n | 0 <= n < s'.next ensures n in s'.retired || Located(s', n) {
      if n < s.next && n !in s'.retired {
        var a :| Serial(s, a) == Some(n);
        assert Serial(s', Goes(s, t, a)) == Some(n);
      } else if n >= s.next {
        assert Serial(s', InQueue(|s.queue| + n - s.next)) == Some(n);
      }
    }
  }

  lemma DequeueBackward(s: State, t: Step)
    requires Enabled(s, t) && (t.Dequeue?)
    ensures Backward(s, t, Next(s, t)) && Apart(s, t, Next(s, t))
  {
  }

  lemma DequeueForward(s: State, t: Step)
    requires Enabled(s, t) && (t.Dequeue?)
    ensures Forward(s, t, Next(s, t)) && Issued(s, Next(s, t)) && Retires(s, Next(s, t))
  {
  }

  lemma TracksPush(s: State, t: Step)
    requires Enabled(s, t) && (t.Discharge? || t.Trigger? || t.Schedule?)
    ensures Tracks(s, t, Next(s, t))
  {
    PushAppends(s, t);
    AppendTracks(s, t, Next(s, t));
  }

  /** One new number at the end of the queue, and nothing else moves. */
  ghost predicate Appends(s: State, s': State) {
    && s'.next == s.next + 1 && s'.retired == s.retired
    && |s'.queue| == |s.queue| + 1 && s'.queue[|s.queue|].id == s.next
    && (forall i :: 0 <= i < |s.queue| ==> s'.queue[i] == s.queue[i])
    && forall w :: Serial(s', InHandOf(w)) == Serial(s, InHandOf(w))
  }

  lemma PushAppends(s: State, t: Step)
    requires Enabled(s, t) && (t.Discharge? || t.Trigger? || t.Schedule?)
    ensures Appends(s, Next(s, t))
  {
  }

  lemma AppendTracks(s: State, t: Step, s': State)
    requires !t.Dequeue? && Appends(s, s')
    ensures Tracks(s, t, s')
  {
    hide Was, Goes;
    forall a: Loc ensures Was(s, t, a) == a && Goes(s, t, a) == a { Stays(s, t, a); }
    forall a ensures Serial(s', a) == if a == InQueue(|s.queue|) then Some(s.next) else Serial(s, a) { AppendAt(s, s', a); }
    assert Serial(s, InQueue(|s.queue|)) == None;
    hide Serial;
  }

  lemma Stays(s: State, t: Step, a: Loc)
    requires !t.Dequeue?
    ensures Was(s, t, a) == a && Goes(s, t, a) == a
  {
  }

  lemma AppendAt(s: State, s': State, a: Loc)
    requires Appends(s, s')
    ensures Serial(s', a) == if a == InQueue(|s.queue|) then Some(s.next) else Serial(s, a)
  {
  }

  lemma FlushBackward(s: State, t: Step)
    requires Enabled(s, t) && (t.Flush?)
    ensures Backward(s, t, Next(s, t)) && Apart(s, t, Next(s, t))
  {
  }

  lemma FlushForward(s: State, t: Step)
    requires Enabled(s, t) && t.Flush?
    ensures Forward(s, t, Next(s, t)) && Issued(s, Next(s, t)) && Retires(s, Next(s, t))
  {
    var s' := Next(s, t);
    var batch := s.workers[t.w].phase.batch;
    forall n | s.next <= n < s'.next ensures Serial(s', InQueue(|s.queue| + n - s.next)) == Some(n) {
      assert s'.queue[|s.queue| + n - s.next] == Calls(batch, s.next)[n - s.next];
    }
  }

  lemma StartBackward(s: State, t: Step)
    requires Enabled(s, t) && t.Start?
    ensures Backward(s, t, Next(s, t)) && Apart(s, t, Next(s, t))
  {
    hide Scan, Calls;
  }

  lemma TracksStart(s: State, t: Step)
    requires Distinct(s) && Enabled(s, t) && t.Start?
    ensures Tracks(s, t, Next(s, t))
  {
    StartBackward(s, t);
    hide Backward, Apart, Scan, Calls;
    assert Serial(s, InHandOf(t.w)) == Some(s.workers[t.w].phase.e.id);
  }

  lemma SettleBackward(s: State, t: Step)
    requires Enabled(s, t) && (t.Settle?)
    ensures Backward(s, t, Next(s, t)) && Apart(s, t, Next(s, t))
  {
  }

  /** The hand of `w` is emptied and its number retired; a READY fiber goes to the end of the queue. */
  ghost predicate Settles(s: State, s': State, w: Tid, id: nat) {
    && s'.retired == s.retired + {id} && Serial(s', InHandOf(w)) == None
    && (forall v :: v != w ==> Serial(s', InHandOf(v)) == Serial(s, InHandOf(v)))
    && ((s'.queue == s.queue && s'.next == s.next)
        || (s'.next == s.next + 1 && |s'.queue| == |s.queue| + 1 && s'.queue[..|s.queue|] == s.queue
            && s'.queue[|s.queue|].id == s.next))
  }

  lemma SettleSettles(s: State, w: Tid)
    requires Enabled(s, Settle(w))
    ensures Settles(s, Next(s, Settle(w)), w, s.workers[w].phase.id)
    ensures Serial(s, InHandOf(w)) == Some(s.workers[w].phase.id)
  {
    hide Scan, Calls;
  }

  lemma SettlesAt(s: State, s': State, w: Tid, id: nat, a: Loc)
    requires Settles(s, s', w, id)
    ensures Serial(s', a) == (if a == InHandOf(w) then None
                              else if a == InQueue(|s.queue|) && s'.next > s.next then Some(s.next) else Serial(s, a))
    ensures Serial(s, InQueue(|s.queue|)) == None
  {
    if a.InQueue? && a.i < |s.queue| { assert s'.queue[..|s.queue|][a.i] == s'.queue[a.i]; }
  }

  lemma SettlesForward(s: State, t: Step, s': State, w: Tid, id: nat)
    requires Distinct(s) && Settles(s, s', w, id) && Serial(s, InHandOf(w)) == Some(id) && !t.Dequeue?
    ensures Forward(s, t, s') && Issued(s, s') && Retires(s, s')
  {
    hide Was, Goes;
    forall a: Loc
      ensures Goes(s, t, a) == a
      ensures Serial(s', a) == (if a == InHandOf(w) then None
                                else if a == InQueue(|s.queue|) && s'.next > s.next then Some(s.next) else Serial(s, a))
    {
      Stays(s, t, a);
      SettlesAt(s, s', w, id, a);
    }
    SettlesAt(s, s', w, id, InQueue(|s.queue|));
    hide Serial;
  }

  lemma SettleForward(s: State, t: Step)
    requires Distinct(s) && Enabled(s, t) && (t.Settle?)
    ensures Forward(s, t, Next(s, t)) && Issued(s, Next(s, t)) && Retires(s, Next(s, t))
  {
    hide Settles, Distinct, Forward, Issued, Retires;
    SettleSettles(s, t.w);
    SettlesForward(s, t, Next(s, t), t.w, s.workers[t.w].phase.id);
  }

  /** Queue, hands and numbers are as before. */
  ghost predicate Unmoved(s: State, s': State) {
    s'.queue == s.queue && s'.next == s.next && s'.retired == s.retired
    && forall w :: Serial(s', InHandOf(w)) == Serial(s, InHandOf(w))
  }

  lemma UnmovedAt(s: State, s': State, a: Loc)
    requires Unmoved(s, s')
    ensures Serial(s', a) == Serial(s, a)
  {
  }

  lemma UnmovedTracks(s: State, t: Step, s': State)
    requires !t.Dequeue? && Unmoved(s, s')
    ensures Tracks(s, t, s')
  {
    hide Was, Goes;
    forall a: Loc ensures Was(s, t, a) == a && Goes(s, t, a) == a && Serial(s', a) == Serial(s, a) {
      Stays(s, t, a);
      UnmovedAt(s, s', a);
    }
    hide Serial;
  }

  lemma StageUnmoved(s: State, t: Step)
    requires Enabled(s, t) && (t.Yield? || t.Leave? || t.SwapOut? || t.Account?)
    ensures Unmoved(s, Next(s, t))
  {
    hide Scan, Calls;
  }

  lemma TableUnmoved(s: State, t: Step)
    requires Enabled(s, t) && (t.AddEvent? || t.DelEvent? || t.AddTimer? || t.CancelTimer? || t.NewFiber?)
    ensures Unmoved(s, Next(s, t))
  {
    hide Scan, Calls;
  }

  lemma IdleUnmoved(s: State, t: Step)
    requires Enabled(s, t) && (t.GoIdle? || t.Expire? || t.LeaveIdle? || t.StopIdle? || t.Exit?)
    ensures Unmoved(s, Next(s, t))
  {
    hide Scan, Calls;
  }

  lemma TracksStage(s: State, t: Step)
    requires Enabled(s, t) && (t.Yield? || t.Leave? || t.SwapOut? || t.Account?)
    ensures Tracks(s, t, Next(s, t))
  {
    hide Unmoved, Tracks;
    StageUnmoved(s, t);
    UnmovedTracks(s, t, Next(s, t));
  }

  lemma TracksTable(s: State, t: Step)
    requires Enabled(s, t) && (t.AddEvent? || t.DelEvent? || t.AddTimer? || t.CancelTimer? || t.NewFiber?)
    ensures Tracks(s, t, Next(s, t))
  {
    hide Unmoved, Tracks;
    TableUnmoved(s, t);
    UnmovedTracks(s, t, Next(s, t));
  }

  lemma TracksIdle(s: State, t: Step)
    requires Enabled(s, t) && (t.GoIdle? || t.Expire? || t.LeaveIdle? || t.StopIdle? || t.Exit?)
    ensures Tracks(s, t, Next(s, t))
  {
    hide Unmoved, Tracks;
    IdleUnmoved(s, t);
    UnmovedTracks(s, t, Next(s, t));
  }

  lemma TracksStep(s: State, t: Step)
    requires Distinct(s) && Enabled(s, t)
    ensures Tracks(s, t, Next(s, t))
  {
    hide Backward, Forward, Issued, Retires, Apart, Distinct;
    match t
    case Dequeue(_) => DequeueBackward(s, t); DequeueForward(s, t);
    case Flush(_) => FlushBackward(s, t); FlushForward(s, t);
    case Settle(_) => SettleBackward(s, t); SettleForward(s, t);
    case Start(_, _) => TracksStart(s, t);
    case Discharge(_) => TracksPush(s, t);
    case Trigger(_, _) => TracksPush(s, t);
    case Schedule(_, _, _) => TracksPush(s, t);
    case Yield(_) => TracksStage(s, t);
    case Leave(_, _) => TracksStage(s, t);
    case SwapOut(_) => TracksStage(s, t);
    case Account(_) => TracksStage(s, t);
    case AddEvent(_, _, _) => TracksTable(s, t);
    case DelEvent(_, _) => TracksTable(s, t);
    case AddTimer(_, _, _) => TracksTable(s, t);
    case CancelTimer(_, _) => TracksTable(s, t);
    case NewFiber(_) => TracksTable(s, t);
    case _ => TracksIdle(s, t);
  }

  // ---- The active count ----------------------------------------------------------------------------

  /** One worker's phase decides whether it counts. */
  lemma ActiveChange(ws: map<Tid, Worker>, w: Tid, x: Worker)
    requires w in ws
    ensures |Active(ws[w := x])| == |Active(ws)| + (if Counted(x.phase) then 1 else 0) - (if Counted(ws[w].phase) then 1 else 0)
  {
    var rest := Active(ws) - {w};
    assert Active(ws[w := x]) == if Counted(x.phase) then rest + {w} else rest;
    assert Active(ws) == if Counted(ws[w].phase) then rest + {w} else rest;
  }

  lemma AccountedTaken(s: State, t: Step)
    requires Accounted(s) && Enabled(s, t) && (t.Dequeue? || t.Start?)
    ensures Accounted(Next(s, t))
  {
    var w := t.w;
    ActiveChange(s.workers, w, Next(s, t).workers[w]);
    assert Next(s, t).workers == s.workers[w := Next(s, t).workers[w]];
  }

  lemma AccountedStage(s: State, t: Step)
    requires Accounted(s) && Enabled(s, t)
    requires t.Discharge? || t.Yield? || t.Leave? || t.SwapOut? || t.Account?
    ensures Accounted(Next(s, t))
  {
    var w := t.w;
    ActiveChange(s.workers, w, Next(s, t).workers[w]);
    assert Next(s, t).workers == s.workers[w := Next(s, t).workers[w]];
  }

  lemma AccountedSettle(s: State, t: Step)
    requires Accounted(s) && Enabled(s, t) && t.Settle?
    ensures Accounted(Next(s, t))
  {
    var w := t.w;
    ActiveChange(s.workers, w, Next(s, t).workers[w]);
    assert Next(s, t).workers == s.workers[w := Next(s, t).workers[w]];
  }

  lemma AccountedIdle(s: State, t: Step)
    requires Accounted(s) && Enabled(s, t)
    requires t.GoIdle? || t.Expire? || t.Flush? || t.LeaveIdle? || t.StopIdle? || t.Exit?
    ensures Accounted(Next(s, t))
  {
    var w := t.w;
    ActiveChange(s.workers, w, Next(s, t).workers[w]);
    assert Next(s, t).workers == s.workers[w := Next(s, t).workers[w]];
  }

  lemma AccountedKept(s: State, t: Step)
    requires Accounted(s) && Enabled(s, t)
    ensures Accounted(Next(s, t))
  {
    hide Accounted;
    match t
    case Dequeue(_) => AccountedTaken(s, t);
    case Start(_, _) => AccountedTaken(s, t);
    case Discharge(_) => AccountedStage(s, t);
    case Yield(_) => AccountedStage(s, t);
    case Leave(_, _) => AccountedStage(s, t);
    case SwapOut(_) => AccountedStage(s, t);
    case Account(_) => AccountedStage(s, t);
    case Settle(_) => AccountedSettle(s, t);
    case GoIdle(_) => AccountedIdle(s, t);
    case Expire(_, _) => AccountedIdle(s, t);
    case Flush(_) => AccountedIdle(s, t);
    case LeaveIdle(_) => AccountedIdle(s, t);
    case StopIdle(_) => AccountedIdle(s, t);
    case Exit(_) => AccountedIdle(s, t);
    case _ => AccountedTable(s, t);
  }

  lemma AccountedTable(s: State, t: Step)
    requires Accounted(s) && Enabled(s, t)
    requires t.AddEvent? || t.DelEvent? || t.Trigger? || t.AddTimer? || t.CancelTimer? || t.Schedule? || t.NewFiber?
    ensures Accounted(Next(s, t))
  {
  }

  lemma PinnedKept(s: State, t: Step)
    requires Pinned(s) && Enabled(s, t)
    ensures Pinned(Next(s, t))
  {
    if t.Dequeue? { PinnedTaken(s, t.w); } else { NothingTaken(s, t); }
  }

  lemma PinnedTaken(s: State, w: Tid)
    requires Pinned(s) && Enabled(s, Dequeue(w))
    ensures Pinned(Next(s, Dequeue(w)))
  {
  }

  /** No other step takes a task. */
  lemma NothingTaken(s: State, t: Step)
    requires Enabled(s, t) && !t.Dequeue?
    ensures forall w :: w in Next(s, t).workers && Next(s, t).workers[w].phase.Taken? ==>
              w in s.workers && s.workers[w] == Next(s, t).workers[w]
  {
    hide Scan, Calls;
    if t.Start? || t.Settle? { NothingTakenByTask(s, t); }
  }

  lemma NothingTakenByTask(s: State, t: Step)
    requires Enabled(s, t) && (t.Start? || t.Settle?)
    ensures forall w :: w in Next(s, t).workers && Next(s, t).workers[w].phase.Taken? ==>
              w in s.workers && s.workers[w] == Next(s, t).workers[w]
  {
    hide Scan, Calls;
  }

  lemma TaskStep(s: State, t: Step)
    requires TaskInv(s) && Enabled(s, t)
    ensures TaskInv(Next(s, t))
  {
    TracksStep(s, t);
    TracksDistinct(s, t, Next(s, t));
    TracksCovered(s, t, Next(s, t));
    AccountedKept(s, t);
    PinnedKept(s, t);
  }
}

/** Every step of a disciplined run keeps the invariant, hence no two workers ever hold the same fiber. */
module RuntimeSafety {
  import opened Options
  import opened Runtime
  import opened RuntimeClaims

  /** The place a claim at `p` comes from when step `t` is taken. */
  function Origin(s: State, t: Step, p: Place): Place {
    match t
    case Dequeue(w) =>
      var k := Scan(s.fibers, s.queue, w);
      if p.AtQueue? then AtQueue(if p.i < k then p.i else p.i + 1)
      else if p == AtHand(w) || p == AtBody(w) then AtQueue(k) else p
    case Discharge(w) => if p == AtQueue(|s.queue|) then AtBody(w) else p
    case Trigger(_, key) => if p == AtQueue(|s.queue|) then AtEvent(key) else p
    case Settle(w) => if p == AtQueue(|s.queue|) then AtSettle(w) else p
    case Expire(w, n) =>
      if w in s.workers && s.workers[w].phase.Idle? && p == AtBatch(w, |s.workers[w].phase.batch|)
      then AtTimer(n) else p
    case Flush(w) => if p.AtQueue? && p.i >= |s.queue| then AtBatch(w, p.i - |s.queue|) else p
    case _ => p
  }

  /** The place where step `t` may create a claim. */
  function Created(s: State, t: Step): Option<Place> {
    match t
    case AddEvent(_, key, _) => Some(AtEvent(key))
    case AddTimer(_, n, _) => Some(AtTimer(n))
    case Schedule(_, _, _) => Some(AtQueue(|s.queue|))
    case Leave(w, _) => Some(AtSettle(w))
    case Settle(w) => if StateOf(s, if OnFiber(s, w).Some? then OnFiber(s, w).value else 0) == Ready then None else Some(AtSpare(w))
    case _ => None
  }

  /** A step moves claims; it creates one only for a fiber that had none. */
  ghost predicate ClaimsMove(s: State, t: Step, s': State) {
    forall p :: Claim(s', p).Some? ==>
      if Created(s, t) == Some(p) && Claim(s, p) != Claim(s', p) then Unclaimed(s, Claim(s', p).value)
      else Claim(s, Origin(s, t, p)) == Claim(s', p)
  }

  /** No two claims come from the same place. */
  ghost predicate OriginsDiffer(s: State, t: Step, s': State) {
    forall p, q :: Claim(s', p).Some? && Claim(s', q).Some? && Origin(s, t, p) == Origin(s, t, q) ==> p == q
  }

  lemma LinearKept(s: State, t: Step, s': State)
    requires Linear(s) && ClaimsMove(s, t, s') && OriginsDiffer(s, t, s')
    ensures Linear(s')
  {
    forall p, q | Claim(s', p).Some? && Claim(s', p) == Claim(s', q)
      ensures p == q
    {
      assert Claim(s, Origin(s, t, p)) == Claim(s', p) || Created(s, t) == Some(p);
    }
  }

  lemma DequeueMoves(s: State, t: Step)
    requires Enabled(s, t) && t.Dequeue?
    ensures ClaimsMove(s, t, Next(s, t))
  {
  }

  lemma DequeueOrigins(s: State, t: Step)
    requires Enabled(s, t) && t.Dequeue?
    ensures OriginsDiffer(s, t, Next(s, t))
  {
  }

  lemma MovesDequeue(s: State, t: Step)
    requires Enabled(s, t) && t.Dequeue?
    ensures ClaimsMove(s, t, Next(s, t)) && OriginsDiffer(s, t, Next(s, t))
  {
    DequeueMoves(s, t);
    DequeueOrigins(s, t);
  }

  lemma MovesStart(s: State, t: Step)
    requires Enabled(s, t) && t.Start?
    ensures ClaimsMove(s, t, Next(s, t)) && OriginsDiffer(s, t, Next(s, t))
  {
    StartDiffers(s, t);
    hide OriginsDiffer, Scan, Calls;
  }

  lemma StartDiffers(s: State, t: Step)
    requires Enabled(s, t) && t.Start?
    ensures OriginsDiffer(s, t, Next(s, t))
  {
    hide Scan, Calls;
  }

  lemma MovesDischarge(s: State, t: Step)
    requires Enabled(s, t) && t.Discharge?
    ensures ClaimsMove(s, t, Next(s, t)) && OriginsDiffer(s, t, Next(s, t))
  {
  }

  lemma MovesTrigger(s: State, t: Step)
    requires Enabled(s, t) && t.Trigger?
    ensures ClaimsMove(s, t, Next(s, t)) && OriginsDiffer(s, t, Next(s, t))
  {
  }

  lemma MovesSchedule(s: State, t: Step)
    requires Enabled(s, t) && t.Schedule? && Disciplined(s, t)
    ensures ClaimsMove(s, t, Next(s, t)) && OriginsDiffer(s, t, Next(s, t))
  {
  }

  lemma MovesTable(s: State, t: Step)
    requires Enabled(s, t) && Disciplined(s, t)
    requires t.AddEvent? || t.DelEvent? || t.AddTimer? || t.CancelTimer?
    ensures ClaimsMove(s, t, Next(s, t)) && OriginsDiffer(s, t, Next(s, t))
  {
    hide Scan, Calls;
  }

  lemma MovesStage(s: State, t: Step)
    requires Enabled(s, t)
    requires t.Yield? || t.SwapOut? || t.Account?
    ensures ClaimsMove(s, t, Next(s, t)) && OriginsDiffer(s, t, Next(s, t))
  {
    hide Scan, Calls;
  }

  lemma MovesLeave(s: State, t: Step)
    requires Placed(s) && Enabled(s, t) && Disciplined(s, t) && t.Leave?
    ensures ClaimsMove(s, t, Next(s, t)) && OriginsDiffer(s, t, Next(s, t))
  {
    hide Scan, Calls;
  }

  lemma SettleReadyMoves(s: State, t: Step)
    requires Placed(s) && Guarded(s) && Enabled(s, t) && t.Settle?
    requires StateOf(s, s.workers[t.w].phase.f) == Ready
    ensures ClaimsMove(s, t, Next(s, t))
  {
  }

  /** A fiber that has ended, and is still on its worker, is claimed nowhere. */
  lemma EndedUnclaimed(s: State, w: Tid, f: Fiber)
    requires Guarded(s) && OnFiber(s, w) == Some(f) && StateOf(s, f) in {Term, Except}
    ensures Unclaimed(s, f)
  {
  }

  lemma SettleEndedMoves(s: State, t: Step)
    requires Enabled(s, t) && t.Settle? && Unclaimed(s, s.workers[t.w].phase.f)
    requires StateOf(s, s.workers[t.w].phase.f) in {Term, Except}
    ensures ClaimsMove(s, t, Next(s, t))
  {
    hide Scan, Calls;
  }

  lemma SettleHeldMoves(s: State, t: Step)
    requires Placed(s) && Guarded(s) && Enabled(s, t) && t.Settle?
    requires StateOf(s, s.workers[t.w].phase.f) in {Init, Hold, Exec}
    ensures ClaimsMove(s, t, Next(s, t))
  {
    hide Scan, Calls;
  }

  lemma MovesSettle(s: State, t: Step)
    requires Placed(s) && Guarded(s) && Enabled(s, t) && t.Settle?
    ensures ClaimsMove(s, t, Next(s, t)) && OriginsDiffer(s, t, Next(s, t))
  {
    hide ClaimsMove, OriginsDiffer;
    SettleOrigins(s, t);
    var f := s.workers[t.w].phase.f;
    match StateOf(s, f)
    case Ready => SettleReadyMoves(s, t);
    case Term => EndedUnclaimed(s, t.w, f); SettleEndedMoves(s, t);
    case Except => EndedUnclaimed(s, t.w, f); SettleEndedMoves(s, t);
    case _ => SettleHeldMoves(s, t);
  }

  lemma SettleOrigins(s: State, t: Step)
    requires Placed(s) && Guarded(s) && Enabled(s, t) && t.Settle?
    ensures OriginsDiffer(s, t, Next(s, t))
  {
  }

  lemma MovesExpire(s: State, t: Step)
    requires NoRecurringWake(s) && Enabled(s, t) && t.Expire?
    ensures ClaimsMove(s, t, Next(s, t)) && OriginsDiffer(s, t, Next(s, t))
  {
  }

  lemma MovesFlush(s: State, t: Step)
    requires Enabled(s, t) && t.Flush?
    ensures ClaimsMove(s, t, Next(s, t)) && OriginsDiffer(s, t, Next(s, t))
  {
  }

  lemma MovesIdle(s: State, t: Step)
    requires Enabled(s, t) && (t.GoIdle? || t.LeaveIdle? || t.StopIdle? || t.Exit?)
    ensures ClaimsMove(s, t, Next(s, t)) && OriginsDiffer(s, t, Next(s, t))
  {
    hide Scan, Calls;
  }

  lemma MovesNewFiber(s: State, t: Step)
    requires Enabled(s, t) && t.NewFiber?
    ensures ClaimsMove(s, t, Next(s, t)) && OriginsDiffer(s, t, Next(s, t))
  {
  }

  lemma Moves(s: State, t: Step)
    requires Inv(s) && Enabled(s, t) && Disciplined(s, t)
    ensures ClaimsMove(s, t, Next(s, t)) && OriginsDiffer(s, t, Next(s, t))
  {
    hide ClaimsMove, OriginsDiffer, Linear, Known, Guarded;
    match t
    case Dequeue(_) => MovesDequeue(s, t);
    case Start(_, _) => MovesStart(s, t);
    case Discharge(_) => MovesDischarge(s, t);
    case Trigger(_, _) => MovesTrigger(s, t);
    case Schedule(_, _, _) => MovesSchedule(s, t);
    case AddEvent(_, _, _) => MovesTable(s, t);
    case DelEvent(_, _) => MovesTable(s, t);
    case AddTimer(_, _, _) => MovesTable(s, t);
    case CancelTimer(_, _) => MovesTable(s, t);
    case Yield(_) => MovesStage(s, t);
    case SwapOut(_) => MovesStage(s, t);
    case Account(_) => MovesStage(s, t);
    case Leave(_, _) => MovesLeave(s, t);
    case Settle(_) => MovesSettle(s, t);
    case Expire(_, _) => MovesExpire(s, t);
    case Flush(_) => MovesFlush(s, t);
    case NewFiber(_) => MovesNewFiber(s, t);
    case _ => MovesIdle(s, t);
  }

  lemma FibersStay(s: State, t: Step)
    requires Placed(s) && Enabled(s, t)
    ensures forall f :: f in s.fibers ==> f in Next(s, t).fibers
  {
    hide Scan, Calls;
  }

  /** What a step creates a claim for exists. */
  lemma CreatedKnown(s: State, t: Step, p: Place)
    requires Placed(s) && Enabled(s, t) && Disciplined(s, t) && Created(s, t) == Some(p) && Claim(Next(s, t), p).Some?
    ensures Claim(Next(s, t), p) == Claim(s, p) || Claim(Next(s, t), p).value in s.fibers
  {
    hide Scan, Calls, Unclaimed;
  }

  lemma KnownKept(s: State, t: Step)
    requires Inv(s) && Enabled(s, t) && Disciplined(s, t) && ClaimsMove(s, t, Next(s, t))
    ensures Known(Next(s, t))
  {
    hide Next, Enabled, Disciplined, Claim, Origin, Created, Placed, Guarded, Linear, Unclaimed;
    FibersStay(s, t);
    var s' := Next(s, t);
    forall p | Claim(s', p).Some? ensures Claim(s', p).value in s'.fibers {
      if Created(s, t) == Some(p) { CreatedKnown(s, t, p); }
    }
  }

  // ---- Steps that change neither the state of a fiber nor which fiber is on which worker ---------

  ghost predicate Quiet(s: State, s': State) {
    s'.fibers == s.fibers && forall w :: OnFiber(s', w) == OnFiber(s, w)
  }

  /** No fiber in hand is executing. */
  ghost predicate HandsStill(s: State) {
    forall w :: Claim(s, AtHand(w)).Some? ==> StateOf(s, Claim(s, AtHand(w)).value) != Exec
  }

  ghost predicate CreatedFairly(s: State, t: Step, s': State) {
    Created(s, t).Some? ==>
      var c := Created(s, t).value;
      Claim(s', c) == Claim(s, c) || MayClaim(s, Claim(s', c))
  }

  lemma QuietClaim(s: State, t: Step, s': State, p: Place, w: Tid)
    requires Inv(s) && ClaimsMove(s, t, s') && Quiet(s, s') && HandsStill(s') && CreatedFairly(s, t, s')
    requires !t.Leave? && !t.Settle?
    requires Claim(s', p).Some? && Claim(s', p) == OnFiber(s', w)
    ensures p == AtSettle(w) || (StateOf(s', Claim(s', p).value) == Exec && !p.AtHand? && !p.AtSpare?)
  {
    assert OnFiber(s, w) == OnFiber(s', w);
    var o := Origin(s, t, p);
    assert Claim(s, o) == Claim(s', p) || (Created(s, t) == Some(p) && MayClaim(s, Claim(s', p)));
    assert p.AtHand? ==> StateOf(s', Claim(s', p).value) != Exec;
  }

  lemma QuietGuarded(s: State, t: Step, s': State)
    requires Inv(s) && ClaimsMove(s, t, s') && Quiet(s, s') && HandsStill(s') && CreatedFairly(s, t, s')
    requires !t.Leave? && !t.Settle?
    ensures Guarded(s')
  {
    hide OnFiber, MayClaim;
    forall p, w | Claim(s', p).Some? && Claim(s', p) == OnFiber(s', w)
      ensures p == AtSettle(w) || (StateOf(s', Claim(s', p).value) == Exec && !p.AtHand? && !p.AtSpare?)
    {
      QuietClaim(s, t, s', p, w);
    }
    forall w ensures Claim(s', AtSpare(w)).Some? ==> StateOf(s', Claim(s', AtSpare(w)).value) == Init {
      assert Origin(s, t, AtSpare(w)) == AtSpare(w) && Created(s, t) != Some(AtSpare(w));
    }
  }

  ghost predicate AllFit(s: State) {
    forall w :: OnFiber(s, w).Some? ==> FitsStage(s, s.workers[w].phase)
  }

  lemma QuietPlaced(s: State, s': State)
    requires Placed(s) && Quiet(s, s') && AllFit(s')
    ensures Placed(s')
  {
    forall w, v | OnFiber(s', w).Some? && OnFiber(s', w) == OnFiber(s', v) ensures w == v {
      assert OnFiber(s, w) == OnFiber(s', w) && OnFiber(s, v) == OnFiber(s', v);
    }
    forall w | OnFiber(s', w).Some? ensures OnFiber(s', w).value in s'.fibers {
      assert OnFiber(s, w) == OnFiber(s', w);
    }
  }

  lemma StageHands(s: State, t: Step)
    requires Guarded(s) && Enabled(s, t) && (t.Yield? || t.SwapOut? || t.Account?)
    ensures HandsStill(Next(s, t))
  {
    hide Scan, Calls;
  }

  lemma StageFits(s: State, t: Step)
    requires Placed(s) && Enabled(s, t) && (t.Yield? || t.SwapOut? || t.Account?)
    ensures AllFit(Next(s, t))
  {
    hide Scan, Calls;
  }

  lemma QuietStage(s: State, t: Step)
    requires Placed(s) && Enabled(s, t) && (t.Yield? || t.SwapOut? || t.Account?)
    ensures Quiet(s, Next(s, t)) && AllFit(Next(s, t)) && (Guarded(s) ==> HandsStill(Next(s, t)))
  {
    if Guarded(s) { StageHands(s, t); }
    StageFits(s, t);
    hide HandsStill, Guarded, AllFit, Scan, Calls;
    hide Scan, Calls;
  }

  lemma QuietQueue(s: State, t: Step)
    requires Placed(s) && Enabled(s, t) && (t.Dequeue? || t.Discharge? || t.Schedule?)
    ensures Quiet(s, Next(s, t)) && AllFit(Next(s, t)) && (Guarded(s) ==> HandsStill(Next(s, t)))
  {
  }

  lemma QuietTable(s: State, t: Step)
    requires Placed(s) && Enabled(s, t) && (t.Trigger? || t.AddEvent? || t.DelEvent? || t.AddTimer? || t.CancelTimer?)
    ensures Quiet(s, Next(s, t)) && AllFit(Next(s, t)) && (Guarded(s) ==> HandsStill(Next(s, t)))
  {
    hide Scan, Calls;
  }

  lemma QuietIdle(s: State, t: Step)
    requires Placed(s) && Enabled(s, t) && (t.GoIdle? || t.LeaveIdle?)
    ensures Quiet(s, Next(s, t)) && AllFit(Next(s, t)) && (Guarded(s) ==> HandsStill(Next(s, t)))
  {
    hide Scan, Calls, Push;
  }

  lemma QuietExit(s: State, t: Step)
    requires Placed(s) && Enabled(s, t) && (t.StopIdle? || t.Exit?)
    ensures Quiet(s, Next(s, t)) && AllFit(Next(s, t)) && (Guarded(s) ==> HandsStill(Next(s, t)))
  {
    hide Scan, Calls, Push;
  }

  lemma QuietExpire(s: State, t: Step)
    requires Placed(s) && Enabled(s, t) && (t.Expire? || t.Flush?)
    ensures Quiet(s, Next(s, t)) && AllFit(Next(s, t)) && (Guarded(s) ==> HandsStill(Next(s, t)))
  {
  }

  lemma RecurringKept(s: State, t: Step)
    requires NoRecurringWake(s) && Enabled(s, t) && Disciplined(s, t)
    ensures NoRecurringWake(Next(s, t))
  {
    hide Scan, Calls;
  }

  // ---- Steps that change the state of one fiber, or take it on or off a worker ------------------

  /** Only fiber `g` changes its state, or goes on or off a worker. */
  ghost predicate OnlyFiber(s: State, s': State, g: Fiber) {
    && (forall f :: f != g ==> StateOf(s', f) == StateOf(s, f))
    && (forall w :: OnFiber(s', w).Some? && OnFiber(s', w) != Some(g) ==> OnFiber(s', w) == OnFiber(s, w))
  }

  ghost predicate SparesInit(s: State) {
    forall w :: Claim(s, AtSpare(w)).Some? ==> StateOf(s, Claim(s, AtSpare(w)).value) == Init
  }

  ghost predicate FairFor(s: State, g: Fiber) {
    forall p, w :: Claim(s, p) == Some(g) && OnFiber(s, w) == Some(g) ==>
      p == AtSettle(w) || (StateOf(s, g) == Exec && !p.AtHand? && !p.AtSpare?)
  }

  lemma ChangedGuarded(s: State, t: Step, s': State, g: Fiber)
    requires Inv(s) && ClaimsMove(s, t, s') && OnlyFiber(s, s', g)
    requires t.Start? || t.Leave? || t.Settle? || t.NewFiber?
    requires t.Settle? ==> OnFiber(s, t.w) == Some(g)
    requires HandsStill(s') && SparesInit(s') && FairFor(s', g)
    requires Created(s, t).Some? ==> var c := Claim(s', Created(s, t).value);
               c == Claim(s, Created(s, t).value) || c == Some(g)
    ensures Guarded(s')
  {
    hide Claim, OnFiber, Origin, Created;
    forall p, w | Claim(s', p).Some? && Claim(s', p) == OnFiber(s', w)
      ensures p == AtSettle(w) || (StateOf(s', Claim(s', p).value) == Exec && !p.AtHand? && !p.AtSpare?)
    {
      if Claim(s', p) != Some(g) { UnchangedClaim(s, t, s', g, p, w); }
    }
  }

  lemma UnchangedClaim(s: State, t: Step, s': State, g: Fiber, p: Place, w: Tid)
    requires Inv(s) && ClaimsMove(s, t, s') && OnlyFiber(s, s', g)
    requires t.Start? || t.Leave? || t.Settle? || t.NewFiber?
    requires t.Settle? ==> OnFiber(s, t.w) == Some(g)
    requires HandsStill(s') && SparesInit(s')
    requires Created(s, t).Some? ==> var c := Claim(s', Created(s, t).value);
               c == Claim(s, Created(s, t).value) || c == Some(g)
    requires Claim(s', p).Some? && Claim(s', p) == OnFiber(s', w) && Claim(s', p) != Some(g)
    ensures p == AtSettle(w) || (StateOf(s', Claim(s', p).value) == Exec && !p.AtHand? && !p.AtSpare?)
  {
    assert OnFiber(s, w) == OnFiber(s', w);
    assert Claim(s, Origin(s, t, p)) == Claim(s', p);
  }

  lemma ChangedPlaced(s: State, s': State, g: Fiber)
    requires Placed(s) && OnlyFiber(s, s', g) && AllFit(s')
    requires forall f :: f in s.fibers ==> f in s'.fibers
    requires forall w, v :: OnFiber(s', w) == Some(g) && OnFiber(s', v) == Some(g) ==> w == v && g in s'.fibers
    ensures Placed(s')
  {
    forall w, v | OnFiber(s', w).Some? && OnFiber(s', w) == OnFiber(s', v) ensures w == v {
      if OnFiber(s', w) != Some(g) {
        assert OnFiber(s, w) == OnFiber(s', w) && OnFiber(s, v) == OnFiber(s', v);
      }
    }
    forall w | OnFiber(s', w).Some? ensures OnFiber(s', w).value in s'.fibers {
      if OnFiber(s', w) != Some(g) {
        assert OnFiber(s, w) == OnFiber(s', w);
      }
    }
  }

  lemma KeepNewFiber(s: State, f: Fiber)
    requires Inv(s) && Enabled(s, NewFiber(f)) && ClaimsMove(s, NewFiber(f), Next(s, NewFiber(f)))
    ensures Placed(Next(s, NewFiber(f))) && Guarded(Next(s, NewFiber(f)))
  {
    var s' := Next(s, NewFiber(f));
    ChangedGuarded(s, NewFiber(f), s', f);
    ChangedPlaced(s, s', f);
  }

  /** Leaving the running stage: nobody claims the fiber but, if it is READY, its own worker. */
  lemma KeepLeave(s: State, w: Tid, st: FState)
    requires Inv(s) && Enabled(s, Leave(w, st)) && Disciplined(s, Leave(w, st))
    requires ClaimsMove(s, Leave(w, st), Next(s, Leave(w, st)))
    ensures Placed(Next(s, Leave(w, st))) && Guarded(Next(s, Leave(w, st)))
  {
    hide Scan, Calls;
    var t := Leave(w, st);
    var s', f := Next(s, t), s.workers[w].phase.f;
    assert OnFiber(s, w) == Some(f);
    ChangedPlaced(s, s', f);
    ChangedGuarded(s, t, s', f);
  }

  /** A resumed fiber: it was claimed in this worker's hand and nowhere else, and is on no other worker. */
  lemma KeepResume(s: State, w: Tid, made: Fiber, f: Fiber)
    requires Inv(s) && Enabled(s, Start(w, made)) && s.workers[w].phase.e.task == Resume(f)
    requires StateOf(s, f) !in {Term, Except}
    requires ClaimsMove(s, Start(w, made), Next(s, Start(w, made)))
    ensures Placed(Next(s, Start(w, made))) && Guarded(Next(s, Start(w, made)))
  {
    var t := Start(w, made);
    var s' := Next(s, t);
    assert Claim(s, AtHand(w)) == Some(f);
    assert Unclaimed(s', f) by {
      forall p ensures Claim(s', p) != Some(f) {
        assert Claim(s', p).Some? ==> Claim(s, p) == Claim(s', p);
      }
    }
    ChangedPlaced(s, s', f);
    ChangedGuarded(s, t, s', f);
  }

  lemma KeepRetire(s: State, w: Tid, made: Fiber, f: Fiber)
    requires Inv(s) && Enabled(s, Start(w, made)) && s.workers[w].phase.e.task == Resume(f)
    requires StateOf(s, f) in {Term, Except}
    requires ClaimsMove(s, Start(w, made), Next(s, Start(w, made)))
    ensures Placed(Next(s, Start(w, made))) && Guarded(Next(s, Start(w, made)))
  {
    var t := Start(w, made);
    var s' := Next(s, t);
    ChangedPlaced(s, s', made);
    ChangedGuarded(s, t, s', made);
  }

  /** A callback fiber: the spare one, claimed as such and nowhere else, or a new one. */
  lemma KeepCall(s: State, w: Tid, made: Fiber)
    requires Inv(s) && Enabled(s, Start(w, made)) && s.workers[w].phase.e.task.Call?
    requires ClaimsMove(s, Start(w, made), Next(s, Start(w, made)))
    ensures Placed(Next(s, Start(w, made))) && Guarded(Next(s, Start(w, made)))
  {
    hide Scan, Calls;
    var t := Start(w, made);
    var s' := Next(s, t);
    var c := if s.workers[w].spare.Some? then s.workers[w].spare.value else made;
    assert Claim(s, AtSpare(w)) == s.workers[w].spare;
    assert Unclaimed(s', c) by {
      forall p ensures Claim(s', p) != Some(c) {
        assert Claim(s', p).Some? ==> Claim(s, p) == Claim(s', p);
      }
    }
    ChangedPlaced(s, s', c);
    ChangedGuarded(s, t, s', c);
  }

  lemma SettlePlaced(s: State, w: Tid)
    requires Placed(s) && Enabled(s, Settle(w))
    ensures Placed(Next(s, Settle(w)))
  {
    var s', f := Next(s, Settle(w)), s.workers[w].phase.f;
    assert OnFiber(s, w) == Some(f);
    SettleOthers(s, w);
    hide SettleNext;
    ChangedPlaced(s, s', f);
  }

  lemma SettleOthers(s: State, w: Tid)
    requires Placed(s) && Enabled(s, Settle(w))
    ensures var s', f := Next(s, Settle(w)), s.workers[w].phase.f;
            && OnlyFiber(s, s', f) && AllFit(s') && (forall g :: g in s.fibers ==> g in s'.fibers)
            && forall v :: OnFiber(s', v) != Some(f)
  {
    hide Scan, Calls, Eligible;
    SettleSummary(s, w);
    assert OnFiber(s, w) == Some(s.workers[w].phase.f);
    hide SettleNext;
  }

  /** Nothing changes but the fiber that is settled and its worker. */
  lemma SettleSummary(s: State, w: Tid)
    requires Enabled(s, Settle(w))
    ensures var s', f := Next(s, Settle(w)), s.workers[w].phase.f;
            && s'.workers.Keys == s.workers.Keys && s'.workers[w].phase == Head
            && (forall v :: v in s.workers && v != w ==> s'.workers[v] == s.workers[v])
            && (forall g :: g != f ==> StateOf(s', g) == StateOf(s, g))
            && forall g :: g in s.fibers ==> g in s'.fibers
  {
    hide Scan, Calls;
  }

  lemma SettleHands(s: State, w: Tid)
    requires Guarded(s) && Enabled(s, Settle(w))
    ensures HandsStill(Next(s, Settle(w)))
  {
    var s' := Next(s, Settle(w));
    forall v | Claim(s', AtHand(v)).Some? ensures StateOf(s', Claim(s', AtHand(v)).value) != Exec {
      assert Claim(s, AtHand(v)) == Claim(s', AtHand(v));
    }
  }

  lemma SettleSpares(s: State, w: Tid)
    requires Guarded(s) && Enabled(s, Settle(w))
    ensures SparesInit(Next(s, Settle(w)))
  {
    var s' := Next(s, Settle(w));
    assert OnFiber(s, w) == Some(s.workers[w].phase.f);
    forall v | Claim(s', AtSpare(v)).Some? ensures StateOf(s', Claim(s', AtSpare(v)).value) == Init {
      assert Claim(s', AtSpare(v)) != Some(s.workers[w].phase.f) ==> Claim(s, AtSpare(v)) == Claim(s', AtSpare(v));
    }
  }

  lemma SettleFrees(s: State, w: Tid)
    requires Placed(s) && Enabled(s, Settle(w))
    ensures var f := s.workers[w].phase.f;
            OnlyFiber(s, Next(s, Settle(w)), f) && FairFor(Next(s, Settle(w)), f)
  {
    assert OnFiber(s, w) == Some(s.workers[w].phase.f);
  }

  /** Settling takes the fiber off the worker; in hand or spare elsewhere it cannot be. */
  lemma SettleGuarded(s: State, w: Tid)
    requires Inv(s) && Enabled(s, Settle(w)) && ClaimsMove(s, Settle(w), Next(s, Settle(w)))
    ensures Guarded(Next(s, Settle(w)))
  {
    SettleHands(s, w);
    SettleSpares(s, w);
    SettleFrees(s, w);
    hide HandsStill, SparesInit, OnlyFiber, FairFor, Guarded, ClaimsMove;
    ChangedGuarded(s, Settle(w), Next(s, Settle(w)), s.workers[w].phase.f);
  }
}

/**
 * What the operations on timers mean, without the ordered set: a table of all timers ever created, and for
 * each operation the answer and the next table.
 */
module TimerTable {
  import opened Options
  import opened Timers

  /** Timers are named by the order of their creation. */
  datatype Op =
    | Add(ms: nat, cb: int, recurring: bool, addr: nat)
    | Cancel(i: nat)
    | Refresh(i: nat)
    | Reset(i: nat, period: nat, fromNow: bool)
    | Next
    | Expire(addr: nat)

  datatype Event = Event(now: nat, op: Op)

  /** What an operation returns; `Refused` where a number or a free address does not exist. */
  datatype Answer = Refused | Made(i: nat) | Said(ok: bool) | Awaits(wait: nat) | Handed(cbs: seq<int>)

  /** A timer is live while it has a callback. */
  datatype Row = Row(cb: Option<int>, period: nat, next: nat, recurring: bool, addr: nat)

  type Table = seq<Row>

  predicate IsLive(t: Table, i: int) { 0 <= i < |t| && t[i].cb.Some? }

  function KeyOf(r: Row): Key { Key(r.next, r.addr) }

  predicate Free(t: Table, addr: nat) { forall r <- t :: r.addr != addr }

  /** `ns` are the live timers that come before `k`, in the order of their deadlines. */
  ghost predicate DueBefore(t: Table, k: Key, ns: seq<nat>) {
    && (forall n <- ns :: IsLive(t, n) && Before(KeyOf(t[n]), k))
    && (forall n :: IsLive(t, n) && Before(KeyOf(t[n]), k) ==> n in ns)
    && (forall i, j :: 0 <= i < j < |ns| ==> ns[i] < |t| && ns[j] < |t| && Before(KeyOf(t[ns[i]]), KeyOf(t[ns[j]])))
  }

  /** A recurring timer starts again, any other is no longer live. */
  function AfterFiring(r: Row, now: nat): Row {
    if r.recurring then r.(next := Low(now + r.period)) else r.(cb := None)
  }

  ghost predicate Expires(t: Table, now: nat, addr: nat, cbs: seq<int>, u: Table, ns: seq<nat>) {
    && DueBefore(t, Key(Low(now), addr), ns)
    && |cbs| == |ns| && (forall k :: 0 <= k < |ns| ==> ns[k] < |t| && t[ns[k]].cb == Some(cbs[k]))
    && |u| == |t| && forall i :: 0 <= i < |t| ==> u[i] == if i in ns then AfterFiring(t[i], now) else t[i]
  }

  /** The time to the earliest deadline, counted in 32 bits. */
  ghost predicate IsWait(t: Table, now: nat, wait: nat) {
    if forall i :: 0 <= i < |t| ==> t[i].cb.None? then wait == 0xffff_ffff_ffff_ffff
    else exists i :: IsLive(t, i) && wait == Wait(t[i].next, now) && forall j :: IsLive(t, j) ==> t[i].next <= t[j].next
  }

  function Restarted(r: Row, period: nat, fromNow: bool, now: nat): Row {
    r.(period := period, next := Low(if fromNow then now + period else r.next - r.period + period))
  }

  /** From table `t`, operation `e` gives answer `a` and table `u`. */
  ghost predicate Means(t: Table, e: Event, a: Answer, u: Table) {
    match e.op
    case Add(ms, cb, recurring, addr) =>
      if Free(t, addr) then a == Made(|t|) && u == t + [Row(Some(cb), ms, Low(e.now + ms), recurring, addr)]
      else a == Refused && u == t
    case Cancel(i) =>
      if i < |t| then a == Said(IsLive(t, i)) && u == t[i := t[i].(cb := None)] else a == Refused && u == t
    case Refresh(i) =>
      if i < |t| then a == Said(IsLive(t, i)) && u == if IsLive(t, i) then t[i := Restarted(t[i], t[i].period, true, e.now)] else t
      else a == Refused && u == t
    case Reset(i, period, fromNow) =>
      if i >= |t| then a == Refused && u == t
      else if period == t[i].period && !fromNow then a == Said(true) && u == t
      else a == Said(IsLive(t, i)) && u == if IsLive(t, i) then t[i := Restarted(t[i], period, fromNow, e.now)] else t
    case Next => a.Awaits? && IsWait(t, e.now, a.wait) && u == t
    case Expire(addr) =>
      if Free(t, addr) then a.Handed? && exists ns :: Expires(t, e.now, addr, a.cbs, u, ns) else a == Refused && u == t
  }

  // ---- Runs ----------------------------------------------------------------------------------------

  /** The tables between the operations of a script, from the empty one on, and the answers. */
  ghost predicate Ran(script: seq<Event>, answers: seq<Answer>, tables: seq<Table>) {
    && |answers| == |script| && |tables| == |script| + 1 && tables[0] == []
    && forall k :: 0 <= k < |script| ==> Means(tables[k], script[k], answers[k], tables[k + 1])
  }

  /** A timer keeps its callback or loses it, and nothing else about it becomes someone else's. */
  lemma MeansKeeps(t: Table, e: Event, a: Answer, u: Table, i: nat)
    requires Means(t, e, a, u) && i < |t|
    ensures i < |u| && (u[i].cb == None || u[i].cb == t[i].cb) && u[i].recurring == t[i].recurring && u[i].addr == t[i].addr
  {
  }

  lemma {:induction false} RanKeeps(script: seq<Event>, answers: seq<Answer>, tables: seq<Table>, j: nat, k: nat, i: nat)
    requires Ran(script, answers, tables) && j <= k <= |script| && i < |tables[j]|
    ensures i < |tables[k]| && (tables[k][i].cb == None || tables[k][i].cb == tables[j][i].cb)
    ensures tables[k][i].recurring == tables[j][i].recurring
    decreases k
  {
    hide Means;
    if j < k {
      RanKeeps(script, answers, tables, j, k - 1, i);
      MeansKeeps(tables[k - 1], script[k - 1], answers[k - 1], tables[k], i);
    }
  }

  /** Whose callbacks the operation number `k` hands out. */
  ghost predicate FiresAt(script: seq<Event>, answers: seq<Answer>, tables: seq<Table>, k: nat, ns: seq<nat>)
    requires Ran(script, answers, tables)
  {
    && k < |script| && script[k].op.Expire? && answers[k].Handed?
    && Expires(tables[k], script[k].now, script[k].op.addr, answers[k].cbs, tables[k + 1], ns)
  }

  /** After a cancel that returned true, the timer never fires again. */
  lemma CancelSilences(script: seq<Event>, answers: seq<Answer>, tables: seq<Table>, j: nat, k: nat, i: nat, ns: seq<nat>)
    requires Ran(script, answers, tables) && j < k < |script|
    requires script[j].op == Cancel(i) && answers[j] == Said(true)
    requires FiresAt(script, answers, tables, k, ns)
    ensures i !in ns
  {
    hide Expires;
    assert Means(tables[j], script[j], answers[j], tables[j + 1]);
    RanKeeps(script, answers, tables, j + 1, k, i);
    FiredLive(tables[k], script[k].now, script[k].op.addr, answers[k].cbs, tables[k + 1], ns);
  }

  lemma FiredLive(t: Table, now: nat, addr: nat, cbs: seq<int>, u: Table, ns: seq<nat>)
    requires Expires(t, now, addr, cbs, u, ns)
    ensures forall n <- ns :: IsLive(t, n)
  {
  }

  /** A timer that does not recur fires once at most. */
  lemma OneShotOnce(script: seq<Event>, answers: seq<Answer>, tables: seq<Table>, j: nat, k: nat, i: nat,
                    ms: seq<nat>, ns: seq<nat>)
    requires Ran(script, answers, tables) && j < k
    requires FiresAt(script, answers, tables, j, ms) && FiresAt(script, answers, tables, k, ns)
    requires i in ms && i in ns
    ensures tables[j][i].recurring
  {
    hide Means;
    FiredLive(tables[j], script[j].now, script[j].op.addr, answers[j].cbs, tables[j + 1], ms);
    FiredLive(tables[k], script[k].now, script[k].op.addr, answers[k].cbs, tables[k + 1], ns);
    RanKeeps(script, answers, tables, j + 1, k, i);
  }

  // ---- What callers see ----------------------------------------------------------------------------

  /** No callback is given to two timers. */
  predicate Distinct(script: seq<Event>) {
    forall j, k :: 0 <= j < k < |script| && script[j].op.Add? && script[k].op.Add? ==> script[j].op.cb != script[k].op.cb
  }

  /** Every callback in a table was given when its timer was made, by the operation of that answer. */
  lemma {:induction false} Given(script: seq<Event>, answers: seq<Answer>, tables: seq<Table>, k: nat, i: nat) returns (j: nat)
    requires Ran(script, answers, tables) && k <= |script| && i < |tables[k]|
    ensures j < k && script[j].op.Add? && answers[j] == Made(i)
    ensures tables[k][i].cb.Some? ==> tables[k][i].cb == Some(script[j].op.cb)
    decreases k
  {
    assert Means(tables[k - 1], script[k - 1], answers[k - 1], tables[k]);
    if i < |tables[k - 1]| {
      j := Given(script, answers, tables, k - 1, i);
      MeansKeeps(tables[k - 1], script[k - 1], answers[k - 1], tables[k], i);
    } else {
      j := k - 1;
    }
  }

  /**
   * In terms of arguments and results alone: if no callback is given twice, then the callback of a timer is
   * not among those handed out after a cancel of that timer returned true.
   */
  lemma CancelledNotHanded(script: seq<Event>, answers: seq<Answer>, tables: seq<Table>, a: nat, j: nat, k: nat, i: nat)
    requires Ran(script, answers, tables) && Distinct(script) && a < |script| && j < k < |script|
    requires script[a].op.Add? && answers[a] == Made(i)
    requires script[j].op == Cancel(i) && answers[j] == Said(true) && answers[k].Handed?
    ensures script[a].op.cb !in answers[k].cbs
  {
    var t, u, cbs := tables[k], tables[k + 1], answers[k].cbs;
    assert Means(t, script[k], answers[k], u);
    var ns :| Expires(t, script[k].now, script[k].op.addr, cbs, u, ns);
    CancelSilences(script, answers, tables, j, k, i, ns);
    forall x | 0 <= x < |cbs| ensures cbs[x] != script[a].op.cb {
      var n := ns[x];
      assert n in ns && IsLive(t, n);
      var g := Given(script, answers, tables, k, n);
      if g != a { assert script[g].op.cb != script[a].op.cb; }
    }
  }
}

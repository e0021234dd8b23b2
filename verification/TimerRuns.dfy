/** Runs of timer operations under a clock that does not go back. */
module TimerRuns {
  import opened Options
  import opened Timers
  import opened TimerTable

  /** The longest period that an operation asks for. */
  predicate PeriodAtMost(op: Op, cap: nat) {
    match op
    case Add(ms, _, _, _) => ms <= cap
    case Reset(_, period, _) => period <= cap
    case _ => true
  }

  /** All timers were started in the window from `lo` and not in the future. */
  ghost predicate Started(m: TimerManager, lo: nat, clock: nat, cap: nat)
    reads m, m.all
  {
    forall t <- m.all :: lo <= t.start <= clock && t.ms <= cap
  }

  predicate Window(lo: nat, last: nat, cap: nat) {
    lo % WINDOW == 0 && lo <= last && last + cap < lo + WINDOW
  }

  /** The row of a timer. */
  ghost function RowOf(t: Timer): Row
    reads t
  {
    Row(t.cb, t.ms, t.next, t.recurring, t.addr)
  }

  /** The manager's timers are those of the table, each by its number. */
  ghost predicate Shows(m: TimerManager, handles: seq<Timer>, t: Table)
    reads m, m.all, handles
  {
    && (forall x <- m.all :: x in handles) && (forall x <- handles :: x in m.all)
    && (forall i, j :: 0 <= i < j < |handles| ==> handles[i] != handles[j])
    && |t| == |handles| && forall i :: 0 <= i < |t| ==> t[i] == RowOf(handles[i])
  }

  /** What holds between any two operations, for any clock. */
  ghost predicate Sound(m: TimerManager, handles: seq<Timer>, t: Table)
    reads m, m.all, handles
  {
    m.Valid() && Shows(m, handles, t)
  }

  /** What holds between any two operations in one window. */
  ghost predicate Good(m: TimerManager, lo: nat, clock: nat, cap: nat)
    reads m, m.all
  {
    m.Valid() && m.Awake() && Started(m, lo, clock, cap)
  }

  /** In one window the first deadline is no later than any deadline counted from now. */
  lemma NotBefore(m: TimerManager, lo: nat, clock: nat, cap: nat, now: nat, t: Timer)
    requires Good(m, lo, clock, cap) && Window(lo, now, cap) && clock <= now && t in m.timers
    ensures m.timers[0].next <= t.next <= Low(now + t.ms)
  {
    SortedFirst(m.timers);
    LowIs(lo, t.start + t.ms);
    LowIs(lo, now + t.ms);
  }

  /** A step of the window from `clock` to `now`. */
  ghost predicate Advances(lo: nat, clock: nat, now: nat, cap: nat) {
    Window(lo, now, cap) && clock <= now
  }

  lemma AddressesOfRows(m: TimerManager, handles: seq<Timer>, t: Table, addr: nat)
    requires Shows(m, handles, t)
    ensures Free(t, addr) <==> forall x <- handles :: x.addr != addr
    ensures Free(t, addr) ==> forall x <- m.all :: x.addr != addr
  {
    assert forall i :: 0 <= i < |t| ==> t[i] in t && handles[i] in handles;
  }

  method DoAdd(m: TimerManager, handles: seq<Timer>, op: Op, now: nat, ghost t: Table, ghost lo: nat, ghost clock: nat, ghost cap: nat)
    returns (more: seq<Timer>, a: Answer, ghost u: Table)
    requires Sound(m, handles, t) && op.Add?
    modifies m
    ensures Sound(m, more, u) && Means(t, Event(now, op), a, u) && fresh(m.all - old(m.all))
    ensures old(Good(m, lo, clock, cap)) && Advances(lo, clock, now, cap) && PeriodAtMost(op, cap) ==> Good(m, lo, now, cap)
  {
    hide Low, Sorted;
    AddressesOfRows(m, handles, t, op.addr);
    more, a, u := handles, Refused, t;
    if forall x <- handles :: x.addr != op.addr {
      var x, wakes := m.AddTimer(op.ms, op.cb, op.recurring, op.addr, now);
      more, a, u := handles + [x], Made(|handles|), t + [RowOf(x)];
    }
  }

  method DoCancel(m: TimerManager, handles: seq<Timer>, i: nat, now: nat, ghost t: Table, ghost lo: nat, ghost clock: nat, ghost cap: nat)
    returns (a: Answer, ghost u: Table)
    requires Sound(m, handles, t)
    modifies m`timers, m.all
    ensures Sound(m, handles, u) && Means(t, Event(now, Cancel(i)), a, u)
    ensures old(Good(m, lo, clock, cap)) && Advances(lo, clock, now, cap) ==> Good(m, lo, now, cap)
  {
    hide Low, Sorted;
    a, u := Refused, t;
    if i < |handles| {
      var ok := handles[i].Cancel();
      a, u := Said(ok), t[i := t[i].(cb := None)];
    }
  }

  method DoRefresh(m: TimerManager, handles: seq<Timer>, i: nat, now: nat, ghost t: Table, ghost lo: nat, ghost clock: nat, ghost cap: nat)
    returns (a: Answer, ghost u: Table)
    requires Sound(m, handles, t)
    modifies m`timers, m.all
    ensures Sound(m, handles, u) && Means(t, Event(now, Refresh(i)), a, u)
    ensures old(Good(m, lo, clock, cap)) && Advances(lo, clock, now, cap) ==> Good(m, lo, now, cap)
  {
    hide Low, Sorted, Window, Apart;
    a, u := Refused, t;
    if i < |handles| {
      var x := handles[i];
      if Good(m, lo, clock, cap) && Advances(lo, clock, now, cap) && x in m.timers {
        NotBefore(m, lo, clock, cap, now, x);
      }
      var ok := x.Refresh(now);
      a, u := Said(ok), if ok then t[i := RowOf(x)] else t;
    }
  }

  lemma LowRestart(start: nat, ms: nat, period: nat)
    ensures Low(Low(start + ms) - ms + period) == Low(start + period)
  {
    var q := (start + ms) / WINDOW;
    assert Low(start + ms) - ms + period == start + period + (-q) * WINDOW;
    LowAdd(start + period, -q);
  }

  method DoReset(m: TimerManager, handles: seq<Timer>, op: Op, now: nat, ghost t: Table, ghost lo: nat, ghost clock: nat, ghost cap: nat)
    returns (a: Answer, ghost u: Table)
    requires Sound(m, handles, t) && op.Reset?
    modifies m`timers, m`tickled, m.all
    ensures Sound(m, handles, u) && Means(t, Event(now, op), a, u)
    ensures old(Good(m, lo, clock, cap)) && Advances(lo, clock, now, cap) && PeriodAtMost(op, cap) ==> Good(m, lo, now, cap)
  {
    hide Low, Sorted;
    a, u := Refused, t;
    if op.i < |handles| {
      var x := handles[op.i];
      LowRestart(x.start, x.ms, op.period);
      var ok, wakes := x.Reset(op.period, op.fromNow, now);
      a, u := Said(ok), t[op.i := RowOf(x)];
    }
  }

  method DoNext(m: TimerManager, handles: seq<Timer>, now: nat, ghost t: Table, ghost lo: nat, ghost clock: nat, ghost cap: nat)
    returns (a: Answer)
    requires Sound(m, handles, t)
    modifies m`tickled, m`seen
    ensures Sound(m, handles, t) && Means(t, Event(now, Next), a, t)
    ensures old(Good(m, lo, clock, cap)) && Advances(lo, clock, now, cap) ==> Good(m, lo, now, cap)
  {
    hide Low, Sorted;
    var wait := m.GetNextTimer(now);
    FirstRow(m, handles, t);
    a := Awaits(wait);
  }

  /** The first of the set is a live row with the earliest deadline. */
  lemma FirstRow(m: TimerManager, handles: seq<Timer>, t: Table)
    requires Sound(m, handles, t)
    ensures m.timers == [] <==> forall i :: 0 <= i < |t| ==> t[i].cb.None?
    ensures m.timers != [] ==>
              exists i :: IsLive(t, i) && t[i].next == m.timers[0].next && forall j :: IsLive(t, j) ==> t[i].next <= t[j].next
  {
    SortedFirst(m.timers);
    if m.timers != [] {
      var x := m.timers[0];
      assert x in m.timers;
      var i :| 0 <= i < |handles| && handles[i] == x;
      assert IsLive(t, i);
      assert forall j :: IsLive(t, j) ==> handles[j] in m.timers;
    } else {
      assert forall j :: 0 <= j < |t| ==> handles[j] !in m.timers;
    }
  }

  // ---- Expiry --------------------------------------------------------------------------------------

  /** The numbers of timers that have handles. */
  ghost function Numbers(handles: seq<Timer>, ts: seq<Timer>): (ids: seq<nat>)
    requires forall t <- ts :: t in handles
    ensures |ids| == |ts| && forall k :: 0 <= k < |ts| ==> ids[k] < |handles| && handles[ids[k]] == ts[k]
  {
    if ts == [] then []
    else
      assert ts[|ts| - 1] in handles;
      var i :| 0 <= i < |handles| && handles[i] == ts[|ts| - 1];
      Numbers(handles, ts[..|ts| - 1]) + [i]
  }

  /** `ns` are the numbers of the first timers of the set. */
  ghost predicate Names(handles: seq<Timer>, ts: seq<Timer>, ns: seq<nat>) {
    |ns| <= |ts| && forall i :: 0 <= i < |ns| ==> ns[i] < |handles| && handles[ns[i]] == ts[i]
  }

  lemma NamedRow(handles: seq<Timer>, ts: seq<Timer>, ns: seq<nat>, n: nat)
    requires Names(handles, ts, ns) && n < |handles|
    requires forall i, j :: 0 <= i < j < |handles| ==> handles[i] != handles[j]
    ensures n in ns <==> handles[n] in ts[..|ns|]
  {
    if n in ns {
      var i :| 0 <= i < |ns| && ns[i] == n;
      assert ts[..|ns|][i] == handles[n];
    }
    if handles[n] in ts[..|ns|] {
      var i :| 0 <= i < |ns| && ts[..|ns|][i] == handles[n];
      assert handles[ns[i]] == handles[n];
    }
  }

  /** A timer is cut off exactly if it is live and comes before the key. */
  lemma DueRow(m: TimerManager, handles: seq<Timer>, t: Table, k: Key, n: nat)
    requires Sound(m, handles, t) && n < |handles| && handles[n].addr != k.addr
    ensures handles[n] in m.timers[..UpperBound(m.timers, k)] <==> IsLive(t, n) && Before(KeyOf(t[n]), k)
  {
    var ts, u := m.timers, UpperBound(m.timers, k);
    if IsLive(t, n) {
      var i :| 0 <= i < |ts| && ts[i] == handles[n];
      assert i < u ==> ts[..u][i] == ts[i];
      if u <= i {
        SortedPrefixBefore(ts, k, u);
        SortedDistinct(ts);
      }
    }
  }

  /** The rows of the first timers of the set that come before `k` are those that are due, in order. */
  lemma DueRows(m: TimerManager, handles: seq<Timer>, t: Table, k: Key, ns: seq<nat>)
    requires Sound(m, handles, t) && forall x <- handles :: x.addr != k.addr
    requires Names(handles, m.timers, ns) && |ns| == UpperBound(m.timers, k)
    ensures DueBefore(t, k, ns)
    ensures forall i :: 0 <= i < |handles| ==> (i in ns <==> handles[i] in m.timers[..|ns|])
  {
    hide Before, UpperBound;
    forall n | 0 <= n < |handles|
      ensures n in ns <==> handles[n] in m.timers[..|ns|]
      ensures n in ns <==> IsLive(t, n) && Before(KeyOf(t[n]), k)
    {
      NamedRow(handles, m.timers, ns, n);
      DueRow(m, handles, t, k, n);
      assert handles[n] in handles;
    }
    OrderedRows(m, handles, t, ns);
  }

  lemma OrderedRows(m: TimerManager, handles: seq<Timer>, t: Table, ns: seq<nat>)
    requires Sound(m, handles, t) && Names(handles, m.timers, ns)
    ensures forall i, j :: 0 <= i < j < |ns| ==> ns[i] < |t| && ns[j] < |t| && Before(KeyOf(t[ns[i]]), KeyOf(t[ns[j]]))
    ensures forall n <- ns :: n < |t|
  {
    forall i, j | 0 <= i < j < |ns| ensures ns[i] < |t| && ns[j] < |t| && Before(KeyOf(t[ns[i]]), KeyOf(t[ns[j]])) {
      assert Before(m.timers[i].Rank(), m.timers[j].Rank());
    }
  }

  /** What `listExpiredCb` does to the timers. */
  twostate predicate Listed(m: TimerManager, gone: seq<Timer>, now: nat)
    reads m, m.all
  {
    m.all == old(m.all) && forall x <- m.all :: if x in gone then Fired(x, now) else Kept(x)
  }

  /** `listExpiredCb` in and out of the window. */
  method ListGood(m: TimerManager, addr: nat, now: nat, ghost gone: seq<Timer>, ghost lo: nat, ghost clock: nat, ghost cap: nat)
    returns (cbs: seq<int>)
    requires m.Valid() && (forall u <- m.all :: u.addr != addr)
    requires gone == m.timers[..UpperBound(m.timers, Key(Low(now), addr))]
    modifies m`timers, m.all
    ensures m.Valid() && Listed(m, gone, now) && |cbs| == |gone|
    ensures forall i :: 0 <= i < |gone| ==> old(gone[i].cb) == Some(cbs[i])
    ensures old(Good(m, lo, clock, cap)) && Advances(lo, clock, now, cap) ==> Good(m, lo, now, cap)
  {
    hide Low, Sorted, Window, Before;
    if Good(m, lo, clock, cap) && Advances(lo, clock, now, cap) {
      forall x | x in m.timers ensures m.timers[0].next <= x.next <= Low(now + x.ms) { NotBefore(m, lo, clock, cap, now, x); }
    }
    cbs := m.ListExpired(now, addr);
  }

  /** The rows of the fired timers and of the others. */
  ghost predicate RowsFired(handles: seq<Timer>, t: Table, ns: seq<nat>, now: nat)
    reads handles
  {
    |t| == |handles|
    && forall i :: 0 <= i < |handles| ==> RowOf(handles[i]) == if i in ns then AfterFiring(t[i], now) else t[i]
  }

  /** The same, seen as a change of rows. */
  method ListMapped(m: TimerManager, addr: nat, now: nat, ghost gone: seq<Timer>, ghost rows: map<Timer, Row>,
                    ghost lo: nat, ghost clock: nat, ghost cap: nat)
    returns (cbs: seq<int>)
    requires m.Valid() && (forall u <- m.all :: u.addr != addr)
    requires gone == m.timers[..UpperBound(m.timers, Key(Low(now), addr))]
    requires forall x <- m.all :: x in rows && rows[x] == RowOf(x)
    modifies m`timers, m.all
    ensures m.Valid() && m.all == old(m.all) && |cbs| == |gone|
    ensures forall i :: 0 <= i < |gone| ==> gone[i] in rows && rows[gone[i]].cb == Some(cbs[i])
    ensures forall x <- m.all :: x in rows && RowOf(x) == if x in gone then AfterFiring(rows[x], now) else rows[x]
    ensures old(Good(m, lo, clock, cap)) && Advances(lo, clock, now, cap) ==> Good(m, lo, now, cap)
  {
    assert forall i :: 0 <= i < |gone| ==> gone[i] in m.all;
    hide Low, Good, Advances, TimerManager.Valid, UpperBound;
    cbs := ListGood(m, addr, now, gone, lo, clock, cap);
  }

  ghost function RowMap(m: TimerManager): (rows: map<Timer, Row>)
    reads m, m.all
    ensures forall x <- m.all :: x in rows && rows[x] == RowOf(x)
  {
    map x | x in m.all :: RowOf(x)
  }

  /** `listExpiredCb` on rows. */
  method ListRows(m: TimerManager, handles: seq<Timer>, addr: nat, now: nat, ghost t: Table, ghost ns: seq<nat>,
                  ghost lo: nat, ghost clock: nat, ghost cap: nat)
    returns (cbs: seq<int>)
    requires Sound(m, handles, t) && forall x <- handles :: x.addr != addr
    requires Names(handles, m.timers, ns) && |ns| == UpperBound(m.timers, Key(Low(now), addr))
    requires forall i :: 0 <= i < |handles| ==> (i in ns <==> handles[i] in m.timers[..|ns|])
    modifies m`timers, m.all
    ensures m.Valid() && |cbs| == |ns| && forall i :: 0 <= i < |ns| ==> t[ns[i]].cb == Some(cbs[i])
    ensures RowsFired(handles, t, ns, now) && m.all == old(m.all)
    ensures old(Good(m, lo, clock, cap)) && Advances(lo, clock, now, cap) ==> Good(m, lo, now, cap)
  {
    ghost var gone, rows := m.timers[..|ns|], RowMap(m);
    assert forall i :: 0 <= i < |handles| ==> handles[i] in handles && handles[i] in m.all && t[i] == rows[handles[i]];
    assert forall x <- m.all :: x.addr != addr;
    assert forall i :: 0 <= i < |ns| ==> gone[i] == handles[ns[i]] && t[ns[i]] == rows[gone[i]];
    hide Low, Good, Advances, TimerManager.Valid, Shows, Sound, Names, UpperBound, AfterFiring, RowOf;
    cbs := ListMapped(m, addr, now, gone, rows, lo, clock, cap);
  }

  ghost function Updated(t: Table, ns: seq<nat>, now: nat): (u: Table)
    ensures |u| == |t| && forall i :: 0 <= i < |t| ==> u[i] == if i in ns then AfterFiring(t[i], now) else t[i]
  {
    seq(|t|, i requires 0 <= i < |t| => if i in ns then AfterFiring(t[i], now) else t[i])
  }

  lemma FiredShows(m: TimerManager, handles: seq<Timer>, t: Table, ns: seq<nat>, now: nat)
    requires RowsFired(handles, t, ns, now)
    requires (forall x <- m.all :: x in handles) && (forall x <- handles :: x in m.all)
    requires forall i, j :: 0 <= i < j < |handles| ==> handles[i] != handles[j]
    ensures Shows(m, handles, Updated(t, ns, now))
  {
  }

  method DoExpire(m: TimerManager, handles: seq<Timer>, addr: nat, now: nat, ghost t: Table, ghost lo: nat, ghost clock: nat, ghost cap: nat)
    returns (a: Answer, ghost u: Table)
    requires Sound(m, handles, t) && forall x <- handles :: x.addr != addr
    modifies m`timers, m.all
    ensures Sound(m, handles, u)
    ensures a.Handed? && exists ns :: Expires(t, now, addr, a.cbs, u, ns)
    ensures old(Good(m, lo, clock, cap)) && Advances(lo, clock, now, cap) ==> Good(m, lo, now, cap)
  {
    ghost var ns := DueNumbers(m, handles, t, Key(Low(now), addr));
    hide Low, Good, Advances, DueBefore, UpperBound, TimerManager.Valid, RowOf, Names, Expires, Before, RowsFired, Updated;
    var cbs := ListRows(m, handles, addr, now, t, ns, lo, clock, cap);
    a, u := Handed(cbs), Updated(t, ns, now);
    FiredShows(m, handles, t, ns, now);
    ExpiresIs(t, now, addr, cbs, ns);
  }

  lemma ExpiresIs(t: Table, now: nat, addr: nat, cbs: seq<int>, ns: seq<nat>)
    requires DueBefore(t, Key(Low(now), addr), ns) && |cbs| == |ns| && (forall n <- ns :: n < |t|)
    requires forall i :: 0 <= i < |ns| ==> ns[i] < |t| && t[ns[i]].cb == Some(cbs[i])
    ensures Expires(t, now, addr, cbs, Updated(t, ns, now), ns)
  {
  }

  lemma DueNumbers(m: TimerManager, handles: seq<Timer>, t: Table, k: Key) returns (ns: seq<nat>)
    requires Sound(m, handles, t) && forall x <- handles :: x.addr != k.addr
    ensures Names(handles, m.timers, ns) && |ns| == UpperBound(m.timers, k) && forall n <- ns :: n < |t|
    ensures forall i :: 0 <= i < |handles| ==> (i in ns <==> handles[i] in m.timers[..|ns|])
    ensures DueBefore(t, k, ns)
  {
    ns := Numbers(handles, m.timers[..UpperBound(m.timers, k)]);
    DueRows(m, handles, t, k, ns);
  }

  // ---- Runs ----------------------------------------------------------------------------------------

  /** One operation of the manager means what the table says, for any clock; in one window it keeps the wait right. */
  method Perform(m: TimerManager, handles: seq<Timer>, e: Event, ghost t: Table, ghost lo: nat, ghost clock: nat, ghost cap: nat)
    returns (more: seq<Timer>, a: Answer, ghost u: Table)
    requires Sound(m, handles, t)
    modifies m, m.all
    ensures Sound(m, more, u) && Means(t, e, a, u) && fresh(m.all - old(m.all))
    ensures old(Good(m, lo, clock, cap)) && Advances(lo, clock, e.now, cap) && PeriodAtMost(e.op, cap) ==> Good(m, lo, e.now, cap)
  {
    hide Sound, Good, Advances, Means, Expires;
    more := handles;
    match e.op {
      case Add(_, _, _, _) => more, a, u := DoAdd(m, handles, e.op, e.now, t, lo, clock, cap);
      case Cancel(i) => a, u := DoCancel(m, handles, i, e.now, t, lo, clock, cap);
      case Refresh(i) => a, u := DoRefresh(m, handles, i, e.now, t, lo, clock, cap);
      case Reset(_, _, _) => a, u := DoReset(m, handles, e.op, e.now, t, lo, clock, cap);
      case Next =>
        a := DoNext(m, handles, e.now, t, lo, clock, cap);
        u := t;
      case Expire(addr) => a, u := DoExpireIf(m, handles, addr, e.now, t, lo, clock, cap);
    }
  }

  method DoExpireIf(m: TimerManager, handles: seq<Timer>, addr: nat, now: nat, ghost t: Table, ghost lo: nat, ghost clock: nat, ghost cap: nat)
    returns (a: Answer, ghost u: Table)
    requires Sound(m, handles, t)
    modifies m`timers, m.all
    ensures Sound(m, handles, u) && Means(t, Event(now, Expire(addr)), a, u)
    ensures old(Good(m, lo, clock, cap)) && Advances(lo, clock, now, cap) ==> Good(m, lo, now, cap)
  {
    AddressesOfRows(m, handles, t, addr);
    GoodLater(m, lo, clock, now, cap);
    hide Good, Advances, Expires;
    if forall x <- handles :: x.addr != addr {
      a, u := DoExpire(m, handles, addr, now, t, lo, clock, cap);
    } else {
      a, u := Refused, t;
    }
  }

  lemma GoodLater(m: TimerManager, lo: nat, clock: nat, now: nat, cap: nat)
    ensures Good(m, lo, clock, cap) && Advances(lo, clock, now, cap) ==> Good(m, lo, now, cap)
  {
  }

  /** The clock does not go back, and no clock value or deadline leaves the window from `lo`. */
  predicate Paced(script: seq<Event>, lo: nat, clock: nat, cap: nat) {
    script == [] ||
    (&& clock <= script[0].now && Window(lo, script[0].now, cap) && PeriodAtMost(script[0].op, cap)
     && Paced(script[1..], lo, script[0].now, cap))
  }

  /**
   * Every run of operations, whatever the clock does, has the answers that the tables give. If it stays in one
   * window, the idle worker never waits beyond the earliest deadline without a wake-up under way.
   */
  method Play(script: seq<Event>, ghost lo: nat, ghost cap: nat)
    returns (m: TimerManager, handles: seq<Timer>, answers: seq<Answer>, ghost tables: seq<Table>)
    ensures Ran(script, answers, tables) && Sound(m, handles, tables[|script|])
    ensures lo % WINDOW == 0 && Paced(script, lo, lo, cap) ==> m.Awake()
  {
    hide Means, Sound, Good, Advances;
    m := new TimerManager();
    handles, answers, tables := [], [], [[]];
    ghost var clock, paced := lo, lo % WINDOW == 0 && Paced(script, lo, lo, cap);
    Begins(m, lo, cap);
    var k := 0;
    while k < |script|
      invariant 0 <= k <= |script| && |answers| == k && |tables| == k + 1 && tables[0] == []
      invariant forall j :: 0 <= j < k ==> Means(tables[j], script[j], answers[j], tables[j + 1])
      invariant Sound(m, handles, tables[k])
      invariant paced ==> Good(m, lo, clock, cap) && Paced(script[k..], lo, clock, cap)
      invariant fresh(m) && fresh(m.all)
    {
      var e, a := script[k], Refused;
      ghost var u;
      if paced { PacedNext(script[k..], lo, clock, cap); }
      handles, a, u := Perform(m, handles, e, tables[k], lo, clock, cap);
      answers, tables, clock := answers + [a], tables + [u], e.now;
      assert script[k..][1..] == script[k + 1..];
      k := k + 1;
    }
    if paced { GoodAwake(m, lo, clock, cap); }
  }

  lemma Begins(m: TimerManager, lo: nat, cap: nat)
    requires m.Valid() && m.Awake() && m.all == {}
    ensures Sound(m, [], []) && Good(m, lo, lo, cap)
  {
  }

  lemma PacedNext(script: seq<Event>, lo: nat, clock: nat, cap: nat)
    requires script != [] && Paced(script, lo, clock, cap)
    ensures Advances(lo, clock, script[0].now, cap) && PeriodAtMost(script[0].op, cap)
    ensures Paced(script[1..], lo, script[0].now, cap)
  {
  }

  lemma GoodAwake(m: TimerManager, lo: nat, clock: nat, cap: nat)
    requires Good(m, lo, clock, cap)
    ensures m.Awake()
  {
  }

  /** Across the end of a window a refresh moves the 32-bit deadline back below the awaited one, unnoticed. */
  method WrapLosesWakeUp() returns (m: TimerManager, t: Timer)
    ensures m.Valid() && t in m.timers && !m.tickled && !m.Awake()
    ensures t.start + t.ms == WINDOW + 2 && t.next == 2 && m.seen == Some(WINDOW - 10)
  {
    m, t := OneTimer();
    assert m.timers[0] == t;
    var wait := m.GetNextTimer(WINDOW - 20);
    hide Sorted;
    var ok := t.Refresh(WINDOW - 8);
  }

  method OneTimer() returns (m: TimerManager, t: Timer)
    ensures fresh(m) && fresh(t) && m.Valid() && m.all == {t} && t.manager == m
    ensures t in m.timers && |m.timers| > 0 && forall u <- m.timers :: u == t
    ensures t.start == WINDOW - 20 && t.ms == 10 && t.next == WINDOW - 10
  {
    hide Sorted;
    m := new TimerManager();
    var wakes;
    t, wakes := m.AddTimer(10, 0, false, 0, WINDOW - 20);
  }
}

/** Timers and their manager (`dwframe/timer.cc`): a set ordered by deadline, with a wake-up flag. */
module Timers {
  import opened Options

  /** Deadlines are 32 bits wide. */
  const WINDOW: nat := 0x1_0000_0000

  /** Conversion to the 32-bit deadline. */
  function Low(n: int): (r: nat)
    ensures r < WINDOW
  {
    n % WINDOW
  }

  /** Deadlines within 32 bits are kept as they are; those beyond come round again. */
  lemma LowBits(n: nat)
    ensures n < 0x1_0000_0000 ==> Low(n) == n
    ensures Low(n + 0x1_0000_0000) == Low(n)
  {
  }

  datatype Key = Key(next: nat, addr: nat)

  /** `Comparator`: by deadline, then by address. */
  predicate Before(a: Key, b: Key) {
    a.next < b.next || (a.next == b.next && a.addr < b.addr)
  }

  /** The order of the set. */
  ghost predicate Sorted(ts: seq<Timer>)
    reads ts
  {
    forall i, j :: 0 <= i < j < |ts| ==> Before(ts[i].Rank(), ts[j].Rank())
  }

  /** `lower_bound`: the first element not before the key. */
  function LowerBound(ts: seq<Timer>, k: Key): (i: nat)
    reads ts
    ensures i <= |ts|
    ensures forall j :: 0 <= j < i ==> Before(ts[j].Rank(), k)
    ensures i < |ts| ==> !Before(ts[i].Rank(), k)
  {
    if ts == [] || !Before(ts[0].Rank(), k) then 0 else 1 + LowerBound(ts[1..], k)
  }

  /** `upper_bound`: the first element behind the key. */
  function UpperBound(ts: seq<Timer>, k: Key): (i: nat)
    reads ts
    ensures i <= |ts|
    ensures forall j :: 0 <= j < i ==> !Before(k, ts[j].Rank())
    ensures i < |ts| ==> Before(k, ts[i].Rank())
  {
    if ts == [] || Before(k, ts[0].Rank()) then 0 else 1 + UpperBound(ts[1..], k)
  }

  lemma SortedDistinct(ts: seq<Timer>)
    requires Sorted(ts)
    ensures forall i, j :: 0 <= i < j < |ts| ==> ts[i] != ts[j]
  {
    forall i, j | 0 <= i < j < |ts| ensures ts[i] != ts[j] {
      assert Before(ts[i].Rank(), ts[j].Rank());
    }
  }

  lemma SortedPrefixBefore(ts: seq<Timer>, k: Key, i: nat)
    requires Sorted(ts) && i < |ts| && Before(k, ts[i].Rank())
    ensures forall j :: i <= j < |ts| ==> Before(k, ts[j].Rank())
  {
    forall j | i <= j < |ts| ensures Before(k, ts[j].Rank()) {
      if i < j { assert Before(ts[i].Rank(), ts[j].Rank()); }
    }
  }

  /** What `listExpiredCb` cuts off: all deadlines before now, none behind it, ties by address. */
  lemma ExpiredAre(ts: seq<Timer>, now: nat, addr: nat, i: nat)
    requires Sorted(ts) && i < |ts| && forall t <- ts :: t.addr != addr
    ensures i < UpperBound(ts, Key(Low(now), addr))
            <==> ts[i].next < Low(now) || (ts[i].next == Low(now) && ts[i].addr < addr)
  {
    var k := Key(Low(now), addr);
    var u := UpperBound(ts, k);
    if u <= i { SortedPrefixBefore(ts, k, u); }
  }

  class Timer {
    const addr: nat
    const manager: TimerManager
    const recurring: bool
    var ms: nat
    var next: nat
    var cb: Option<int>
    /** The clock value that the deadline counts from. */
    ghost var start: nat

    constructor (addr: nat, ms: nat, cb: int, recurring: bool, manager: TimerManager, now: nat)
      ensures this.addr == addr && this.manager == manager && this.recurring == recurring
      ensures this.ms == ms && this.cb == Some(cb) && start == now && next == Low(now + ms)
    {
      this.addr, this.manager, this.recurring := addr, manager, recurring;
      this.ms, this.next, this.cb, this.start := ms, Low(now + ms), Some(cb), now;
    }

    function Rank(): Key
      reads this`next
    {
      Key(next, addr)
    }

    /** `cancel`: true exactly if the timer was live; it is no longer. */
    method Cancel() returns (ok: bool)
      requires manager.Valid() && this in manager.all
      modifies this`cb, manager`timers
      ensures manager.Valid() && ok == (this in old(manager.timers)) && cb == None
      ensures forall u :: u in manager.timers <==> u in old(manager.timers) && u != this
      ensures old(manager.Awake()) ==> manager.Awake()
    {
      ok := cb.Some?;
      if ok {
        cb := None;
        var i := manager.Search(this);
        manager.Erase(i);
      }
    }

    /** Taking a live timer out of the set, to change its deadline. */
    method Unlink()
      requires Sorted(manager.timers) && this in manager.timers
      requires forall u <- manager.timers :: u.addr == addr ==> u == this
      modifies manager`timers
      ensures Sorted(manager.timers) && forall u :: u in manager.timers <==> u in old(manager.timers) && u != this
      ensures forall u <- manager.timers :: old(manager.timers[0].next) <= u.next
    {
      var i := manager.Search(this);
      SortedFirst(manager.timers);
      manager.Erase(i);
    }

    /** The deadline of a timer outside the set. */
    method Restart(from: nat, period: nat)
      requires this !in manager.timers && Sorted(manager.timers)
      modifies this`next, this`start, this`ms
      ensures next == Low(from + period) && start == from && ms == period && Sorted(manager.timers)
    {
      next := Low(from + period);
      start, ms := from, period;
    }

    /** Putting it back. */
    method Link(ghost first: nat)
      requires Sorted(manager.timers) && this !in manager.timers
      requires forall u <- manager.timers :: u.addr != addr && first <= u.next
      modifies manager`timers
      ensures Sorted(manager.timers) && forall u :: u in manager.timers <==> u in old(manager.timers) || u == this
      ensures manager.timers[0].next <= next && (first <= manager.timers[0].next || manager.timers[0] == this)
    {
      hide Before;
      var i := manager.Insert(this);
      FirstOf(manager.timers, this, first);
    }

    /**
     * `refresh`: the deadline counts from now. The flag is not touched, so a wait stays right exactly if
     * the deadline did not become smaller than the one awaited.
     */
    method Refresh(now: nat) returns (ok: bool)
      requires manager.Valid() && this in manager.all
      modifies this`next, this`start, this`ms, manager`timers
      ensures manager.Valid() && ok == (this in manager.timers) && ms == old(ms)
      ensures forall u :: u in manager.timers <==> u in old(manager.timers)
      ensures if ok then start == now else start == old(start) && next == old(next) && manager.timers == old(manager.timers)
      ensures ok && old(manager.Awake()) && !manager.tickled ==>
                (manager.Awake() <==> manager.seen.Some? && manager.seen.value <= next)
    {
      hide Before, Low;
      ok := cb.Some?;
      if ok {
        ghost var first := manager.timers[0].next;
        Unlink();
        Restart(now, ms);
        Link(first);
      }
    }
  
    /** `reset`: a new period, counted from now or from the old start. */
    method Reset(period: nat, fromNow: bool, now: nat) returns (ok: bool, wakes: bool)
      requires manager.Valid() && this in manager.all
      modifies this`next, this`start, this`ms, manager`timers, manager`tickled
      ensures manager.Valid() && forall u :: u in manager.timers <==> u in old(manager.timers)
      ensures ok == (this in manager.timers || (period == old(ms) && !fromNow))
      ensures ms == (if this in manager.timers then period else old(ms))
      ensures start == if this in manager.timers && fromNow then now else old(start)
      ensures wakes <==> this in manager.timers && (period != old(ms) || fromNow) && !old(manager.tickled)
                         && manager.timers[0] == this
      ensures manager.tickled == (old(manager.tickled) || wakes)
      ensures old(manager.Awake()) ==> manager.Awake()
    {
      wakes := false;
      if period == ms && !fromNow {
        return true, wakes;
      }
      ok := cb.Some?;
      if ok {
        hide Low, Before, Sorted;
        wakes := Again(period, fromNow, now);
      }
    }

    /** The part of `reset` under a live timer: out of the set, new deadline, back into the set. */
    method Again(period: nat, fromNow: bool, now: nat) returns (wakes: bool)
      requires Sorted(manager.timers) && this in manager.timers && next == Low(start + ms)
      requires forall u <- manager.timers :: u.addr == addr ==> u == this
      modifies this`next, this`start, this`ms, manager`timers, manager`tickled
      ensures Sorted(manager.timers) && forall u :: u in manager.timers <==> u in old(manager.timers)
      ensures next == Low(start + ms) && ms == period && start == if fromNow then now else old(start)
      ensures manager.tickled == (old(manager.tickled) || wakes)
      ensures manager.timers != [] && wakes == (!old(manager.tickled) && manager.timers[0] == this)
      ensures old(manager.timers[0].next) <= manager.timers[0].next || manager.timers[0] == this
    {
      hide Low, Before, Sorted;
      ghost var first := manager.timers[0].next;
      Unlink();
      RestartFrom(now, period, fromNow);
      wakes := Rejoin(first);
    }

    /** Back into the set through the private `addTimer`, and once more, which changes nothing. */
    method Rejoin(ghost first: nat) returns (wakes: bool)
      requires Sorted(manager.timers) && this !in manager.timers
      requires forall u <- manager.timers :: u.addr != addr && first <= u.next
      modifies manager`timers, manager`tickled
      ensures Sorted(manager.timers) && manager.timers != []
      ensures forall u :: u in manager.timers <==> u in old(manager.timers) || u == this
      ensures wakes == (!old(manager.tickled) && manager.timers[0] == this)
      ensures manager.tickled == (old(manager.tickled) || wakes)
      ensures first <= manager.timers[0].next || manager.timers[0] == this
    {
      wakes := manager.Register(this);
      var i := manager.Insert(this);
    }

    /** The new deadline, from now or from a 64-bit difference. */
    method RestartFrom(now: nat, period: nat, fromNow: bool)
      requires this !in manager.timers && Sorted(manager.timers) && next == Low(start + ms)
      modifies this`next, this`start, this`ms
      ensures start == (if fromNow then now else old(start)) && ms == period
      ensures next == Low(start + ms) && Sorted(manager.timers)
    {
      var from := if fromNow then now else (next - ms) % WIDE;
      LowShift(start, ms, period);
      ms := period;
      next := Low(from + ms);
      start := if fromNow then now else start;
    }
  }

  const WIDE: nat := 0x1_0000_0000_0000_0000

  /** The start comes back from the truncated deadline as far as the new deadline needs it. */
  lemma LowShift(start: nat, ms: nat, period: nat)
    ensures Low((Low(start + ms) - ms) % WIDE + period) == Low(start + period)
  {
    var a := Low(start + ms) - ms;
    var q := (start + ms) / WINDOW;
    assert a == start - q * WINDOW;
    var w := a / WIDE;
    assert a % WIDE == a - w * WIDE;
    LowAdd(start + period, - q - w * WINDOW);
    assert a % WIDE + period == start + period + (- q - w * WINDOW) * WINDOW;
  }

  lemma LowAdd(n: int, k: int)
    ensures Low(n + k * WINDOW) == Low(n)
  {
    var q, r := n / WINDOW, n % WINDOW;
    assert n + k * WINDOW == (q + k) * WINDOW + r;
    Divides(q + k, r);
  }

  lemma Divides(q: int, r: nat)
    requires r < WINDOW
    ensures (q * WINDOW + r) % WINDOW == r
  {
  }

  lemma FirstOf(ts: seq<Timer>, t: Timer, first: nat)
    requires Sorted(ts) && t in ts && forall u <- ts :: u == t || first <= u.next
    ensures ts[0].next <= t.next && (first <= ts[0].next || ts[0] == t)
  {
    SortedFirst(ts);
  }

  lemma SortedFirst(ts: seq<Timer>)
    requires Sorted(ts)
    ensures forall t <- ts :: ts[0].next <= t.next
  {
    forall t | t in ts ensures ts[0].next <= t.next {
      var i :| 0 <= i < |ts| && ts[i] == t;
      if i > 0 { assert Before(ts[0].Rank(), ts[i].Rank()); }
    }
  }

  class TimerManager {
    var timers: seq<Timer>
    var tickled: bool
    /** All timers that exist. */
    ghost var all: set<Timer>
    /** The earliest deadline that the latest `getNextTimer` saw. */
    ghost var seen: Option<nat>

    constructor ()
      ensures Valid() && Awake() && timers == [] && all == {} && !tickled && seen == None
    {
      timers, tickled, all, seen := [], false, {}, None;
    }

    ghost predicate Valid()
      reads this, all
    {
      && Dated(all, this)
      && Live(all, timers)
      && Apart(all)
      && Sorted(timers)
    }

    /** Unless a wake-up is under way, no deadline is earlier than the one that the idle fiber waits for. */
    ghost predicate Awake()
      reads this, all, timers
    {
      tickled || timers == [] || (seen.Some? && seen.value <= timers[0].next)
    }

    /** `set::find`. */
    method Search(t: Timer) returns (i: nat)
      requires Sorted(timers) && forall u <- timers :: u.addr == t.addr ==> u == t
      ensures i <= |timers| && (t in timers <==> i < |timers|) && (i < |timers| ==> timers[i] == t)
    {
      i := LowerBound(timers, t.Rank());
      if i < |timers| && Before(t.Rank(), timers[i].Rank()) {
        ghost var at := i;
        SortedPrefixBefore(timers, t.Rank(), at);
        i := |timers|;
      }
    }
  
    /** `set::insert`. */
    method Insert(t: Timer) returns (i: nat)
      requires Sorted(timers) && forall u <- timers :: u.addr == t.addr ==> u == t
      modifies this`timers
      ensures i < |timers| && timers[i] == t && Sorted(timers) && i <= |old(timers)|
      ensures timers == if t in old(timers) then old(timers) else old(timers)[..i] + [t] + old(timers)[i..]
    {
      i := LowerBound(timers, t.Rank());
      if i < |timers| && !Before(t.Rank(), timers[i].Rank()) {
        SortedDistinct(timers);
        return;
      }
      if i < |timers| {
        SortedPrefixBefore(timers, t.Rank(), i);
      }
      timers := timers[..i] + [t] + timers[i..];
    }

    /** `set::erase`; there must be such an element. */
    method Erase(i: nat)
      requires Sorted(timers) && i < |timers|
      modifies this`timers
      ensures timers == old(timers)[..i] + old(timers)[i + 1..] && Sorted(timers)
      ensures old(timers)[i] !in timers
      ensures forall t :: t in timers <==> t in old(timers) && t != old(timers)[i]
    {
      SortedDistinct(timers);
      timers := timers[..i] + timers[i + 1..];
    }

    /** The private `addTimer`: whether it wakes the idle worker. */
    method Register(t: Timer) returns (wakes: bool)
      requires Sorted(timers) && forall u <- timers :: u.addr == t.addr ==> u == t
      modifies this`timers, this`tickled
      ensures Sorted(timers) && |timers| > 0 && forall u :: u in timers <==> u == t || u in old(timers)
      ensures wakes == (!old(tickled) && timers[0] == t) && tickled == (old(tickled) || wakes)
      ensures (timers[0] == t || (old(timers) != [] && timers[0] == old(timers[0])))
    {
      var i := Insert(t);
      wakes := i == 0 && !tickled;
      if wakes {
        tickled := true;
      }
      SortedDistinct(timers);
    }

    /** `addtimer`. The allocator has given the timer an address of its own. */
    method AddTimer(ms: nat, cb: int, recurring: bool, addr: nat, now: nat) returns (t: Timer, wakes: bool)
      requires Valid() && forall u <- all :: u.addr != addr
      modifies this
      ensures Valid() && all == old(all) + {t} && fresh(t) && seen == old(seen)
      ensures t.addr == addr && t.ms == ms && t.cb == Some(cb) && t.recurring == recurring && t.start == now
      ensures forall u :: u in timers <==> u == t || u in old(timers)
      ensures wakes == (!old(tickled) && timers[0] == t)
      ensures old(Awake()) ==> Awake()
    {
      hide Before, Low;
      t := new Timer(addr, ms, cb, recurring, this, now);
      assert t !in timers;
      all := all + {t};
      wakes := Register(t);
    }

    /** `getNextTimer`: the time to wait, counted in the 32 bits of the deadline. */
    method GetNextTimer(now: nat) returns (wait: nat)
      requires Valid()
      modifies this`tickled, this`seen
      ensures Valid() && Awake() && !tickled
      ensures seen == if timers == [] then None else Some(timers[0].next)
      ensures wait == if timers == [] then 0xffff_ffff_ffff_ffff else Wait(timers[0].next, now)
      ensures wait == 0xffff_ffff_ffff_ffff <==> forall t <- all :: t.cb.None?
      ensures timers == [] ==> forall next, clock :: 0 <= next < 0x1_0000_0000 && clock >= 0 ==> wait > Wait(next, clock)
    {
      tickled := false;
      seen := if timers == [] then None else Some(timers[0].next);
      if |timers| == 0 {
        return NEVER;
      }
      if now >= timers[0].next {
        return 0;
      }
      wait := timers[0].next - now;
    }

    /** One turn of the loop of `listExpiredCb`. */
    method Fire(t: Timer, now: nat)
      requires Sorted(timers) && t !in timers && forall u <- timers :: u.addr != t.addr
      modifies this`timers, t`next, t`start, t`cb
      ensures Sorted(timers) && Fired(t, now)
      ensures forall u :: u in timers <==> u in old(timers) || (u == t && t.recurring)
    {
      if t.recurring {
        t.next := Low(now + t.ms);
        t.start := now;
        var i := Insert(t);
      } else {
        t.cb := None;
      }
    }

    /** The loop of `listExpiredCb` over the timers cut off. */
    method FireAll(expired: seq<Timer>, now: nat) returns (cbs: seq<int>)
      requires Sorted(timers) && Apart(all) && forall t <- timers :: t in all
      requires forall t <- expired :: t in all && t !in timers && t.cb.Some?
      requires forall i, j :: 0 <= i < j < |expired| ==> expired[i] != expired[j]
      modifies this`timers, all
      ensures Sorted(timers)
      ensures forall t <- all :: if t in expired then Fired(t, now) else Kept(t)
      ensures forall t :: t in timers <==> t in old(timers) || (t in expired && t.recurring)
      ensures |cbs| == |expired| && forall i :: 0 <= i < |expired| ==> old(expired[i].cb) == Some(cbs[i])
    {
      hide Low, Before, Sorted;
      cbs := [];
      var k := 0;
      while k < |expired|
        invariant k <= |expired| && Sorted(timers)
        invariant forall t <- all :: if t in expired[..k] then Fired(t, now) else Kept(t)
        invariant forall t :: t in timers <==> t in old(timers) || (t in expired[..k] && t.recurring)
        invariant |cbs| == k && forall i :: 0 <= i < k ==> old(expired[i].cb) == Some(cbs[i])
      {
        var t := expired[k];
        assert t !in expired[..k] && Kept(t);
        assert expired[..k + 1] == expired[..k] + [t];
        cbs := cbs + [t.cb.value];
        Fire(t, now);
        k := k + 1;
      }
      assert expired[..k] == expired;
    }

    /**
     * `listExpiredCb`: the callbacks of the expired timers in the order of their deadlines. `addr` is the
     * address of the key made up for now. The flag is not touched, so a wait stays right exactly if no
     * timer was started again with a smaller deadline than the one awaited.
     */
    method ListExpired(now: nat, addr: nat) returns (cbs: seq<int>)
      requires Valid() && forall u <- all :: u.addr != addr
      modifies this`timers, all
      ensures Valid()
      ensures var gone := old(timers[..UpperBound(timers, Key(Low(now), addr))]);
              && (forall t <- all :: if t in gone then Fired(t, now) else Kept(t))
              && |cbs| == |gone| && (forall i :: 0 <= i < |gone| ==> old(gone[i].cb) == Some(cbs[i]))
              && (forall t :: t in timers <==> t in old(timers) && (t in gone ==> t.recurring))
              && (old(Awake()) && !tickled ==>
                    (Awake() <==> forall t <- gone :: t.recurring ==> seen.Some? && seen.value <= t.next))
    {
      hide Low, Before, Sorted;
      if |timers| == 0 {
        return [];
      }
      var n := UpperBound(timers, Key(Low(now), addr));
      SortedDistinct(timers);
      SortedCut(timers, n);
      SortedFirst(timers);
      var expired := timers[..n];
      timers := timers[n..];
      cbs := FireAll(expired, now);
      SortedFirst(timers);
    }
  }

  lemma SortedCut(ts: seq<Timer>, n: nat)
    requires Sorted(ts) && n <= |ts|
    ensures Sorted(ts[n..])
  {
  }

  // ---- Expiry --------------------------------------------------------------------------------------

  twostate predicate Kept(t: Timer)
    reads t
  {
    t.ms == old(t.ms) && t.next == old(t.next) && t.start == old(t.start) && t.cb == old(t.cb)
  }

  /** A recurring timer starts again, any other loses its callback. */
  twostate predicate Fired(t: Timer, now: nat)
    reads t
  {
    && t.ms == old(t.ms)
    && if t.recurring then t.start == now && t.next == Low(now + t.ms) && t.cb == old(t.cb)
       else t.start == old(t.start) && t.next == old(t.next) && t.cb == None
  }

  const NEVER: nat := 0xffff_ffff_ffff_ffff

  function Wait(next: nat, now: nat): nat {
    if now >= next then 0 else next - now
  }

  /** Deadlines are the low bits of start and period. */
  ghost predicate Dated(all: set<Timer>, manager: TimerManager)
    reads all
  {
    forall t <- all :: t.manager == manager && t.next == Low(t.start + t.ms)
  }

  /** A timer has a callback exactly while it is in the set. */
  ghost predicate Live(all: set<Timer>, ts: seq<Timer>)
    reads all
  {
    (forall t <- ts :: t in all) && forall t <- all :: t.cb.Some? <==> t in ts
  }

  /** Addresses tell timers apart. */
  ghost predicate Apart(all: set<Timer>) {
    forall t <- all, u <- all :: t.addr == u.addr ==> t == u
  }

  // ---- What the 32 bits mean -----------------------------------------------------------------------

  /** A stretch of clock values that starts at a multiple of the window. */
  lemma LowIs(lo: nat, n: nat)
    requires lo % WINDOW == 0 && lo <= n < lo + WINDOW
    ensures Low(n) == n - lo
  {
    var q := lo / WINDOW;
    assert n == q * WINDOW + (n - lo);
    Divides(q, n - lo);
  }

  /**
   * Counting from another clock value gives a 32-bit deadline that is no smaller if and only if adding the
   * difference does not carry out of the 32 bits.
   */
  lemma RestartIsLater(start: nat, now: nat, ms: nat)
    ensures Low(start + ms) <= Low(now + ms) <==> Low(start + ms) + Low(now - start) < 0x1_0000_0000
  {
    var a, d := Low(start + ms), Low(now - start);
    var q := (start + ms) / WINDOW + (now - start) / WINDOW;
    assert now + ms == q * WINDOW + (a + d);
    if a + d < WINDOW { Divides(q, a + d); } else { Divides(q + 1, a + d - WINDOW); }
  }

  /**
   * The wait is the true time to the deadline if and only if the deadline has passed or fits into 32 bits
   * itself: for all other deadlines it is too short.
   */
  lemma WaitIsRight(due: nat, now: nat)
    ensures Wait(Low(due), now) == (if due <= now then 0 else due - now) <==> due <= now || due < 0x1_0000_0000
  {
  }

  /** Just before the clock leaves the 32 bits, six milliseconds count as none. */
  lemma WaitAcrossWindows()
    ensures Wait(Low(0x1_0000_0005), 0xffff_ffff) == 0
  {
    LowIs(WINDOW, WINDOW + 5);
  }

  /** Within one window, the expired timers are those whose true deadline has come. */
  lemma ExpiredInTime(ts: seq<Timer>, lo: nat, now: nat, addr: nat, i: nat)
    requires Sorted(ts) && i < |ts| && forall t <- ts :: t.addr != addr
    requires lo % WINDOW == 0 && lo <= now < lo + WINDOW
    requires ts[i].next == Low(ts[i].start + ts[i].ms) && lo <= ts[i].start + ts[i].ms < lo + WINDOW
    ensures var due := ts[i].start + ts[i].ms;
            i < UpperBound(ts, Key(Low(now), addr)) <==> due < now || (due == now && ts[i].addr < addr)
  {
    ExpiredAre(ts, now, addr, i);
    LowIs(lo, now);
    LowIs(lo, ts[i].start + ts[i].ms);
  }
}

/**
 * The event table of `dwframe/IoManager.cc`: one context per descriptor, the kernel's interest set, the
 * pending count and the tasks handed to the scheduler.
 */
module IoManager {
  import opened Options
  import opened Runtime

  // ---- Ledger of registrations -----------------------------------------------------------------

  /**
   * Every successful `addEvent` gets the next number. `live` are the registered ones, `deleted` those
   * removed by `delEvent`, `woken` those whose waiter was handed to the scheduler, in order.
   */
  datatype Ledger = Ledger(tasks: seq<Task>, live: map<Key, nat>, deleted: set<nat>, woken: seq<nat>)

  const EMPTY_LEDGER := Ledger([], map[], {}, [])

  function Register(l: Ledger, key: Key, task: Task): Ledger {
    l.(tasks := l.tasks + [task], live := l.live[key := |l.tasks|])
  }

  function Delete(l: Ledger, key: Key): Ledger
    requires key in l.live
  {
    l.(live := l.live - {key}, deleted := l.deleted + {l.live[key]})
  }

  function WakeUp(l: Ledger, key: Key): Ledger
    requires key in l.live
  {
    l.(live := l.live - {key}, woken := l.woken + [l.live[key]])
  }

  /** Each registration is exactly one of live, deleted and woken, and is woken once at most. */
  ghost predicate Sound(l: Ledger) {
    && (forall k, j :: k in l.live && j in l.live && l.live[k] == l.live[j] ==> k == j)
    && (forall k :: k in l.live ==> l.live[k] < |l.tasks| && l.live[k] !in l.deleted && l.live[k] !in l.woken)
    && (forall n :: n in l.deleted ==> n < |l.tasks| && n !in l.woken)
    && (forall i, j :: 0 <= i < j < |l.woken| ==> l.woken[i] != l.woken[j])
    && (forall i :: 0 <= i < |l.woken| ==> l.woken[i] < |l.tasks|)
    && (forall n :: 0 <= n < |l.tasks| ==> n in l.deleted || n in l.woken || n in l.live.Values)
  }

  /** The tasks pushed so far are those of the woken registrations. */
  ghost predicate Pushed(l: Ledger, queue: seq<Task>) {
    |queue| == |l.woken|
    && forall i :: 0 <= i < |queue| ==> l.woken[i] < |l.tasks| && queue[i] == l.tasks[l.woken[i]]
  }

  lemma RegisterSound(l: Ledger, key: Key, task: Task)
    requires Sound(l) && key !in l.live
    ensures Sound(Register(l, key, task))
  {
    var r := Register(l, key, task);
    forall n | 0 <= n < |r.tasks| ensures n in r.deleted || n in r.woken || n in r.live.Values {
      if n == |l.tasks| {
        assert r.live[key] == n;
      } else if n in l.live.Values {
        var k :| k in l.live && l.live[k] == n;
        assert r.live[k] == n;
      }
    }
  }

  lemma ConsumeKeeps(l: Ledger, key: Key, n: nat)
    requires key in l.live && n in l.live.Values && n != l.live[key]
    ensures n in (l.live - {key}).Values
  {
    var k :| k in l.live && l.live[k] == n;
    assert (l.live - {key})[k] == n;
  }

  lemma DeleteSound(l: Ledger, key: Key)
    requires Sound(l) && key in l.live
    ensures Sound(Delete(l, key))
  {
    var r := Delete(l, key);
    forall n | 0 <= n < |r.tasks| ensures n in r.deleted || n in r.woken || n in r.live.Values {
      if n in l.live.Values && n != l.live[key] { ConsumeKeeps(l, key, n); }
    }
  }

  lemma WakeUpSound(l: Ledger, key: Key)
    requires Sound(l) && key in l.live
    ensures Sound(WakeUp(l, key))
  {
    var r := WakeUp(l, key);
    forall n | 0 <= n < |r.tasks| ensures n in r.deleted || n in r.woken || n in r.live.Values {
      if n in l.live.Values && n != l.live[key] { ConsumeKeeps(l, key, n); }
      if n == l.live[key] { assert r.woken[|l.woken|] == n; }
    }
  }

  /** The registered waiters and the tasks pushed so far are what the ledger says. */
  ghost predicate Records(l: Ledger, waiters: map<Key, Task>, queue: seq<Task>) {
    && Sound(l)
    && Pushed(l, queue)
    && waiters.Keys == l.live.Keys
    && forall k :: k in waiters ==> waiters[k] == l.tasks[l.live[k]]
  }

  lemma RecordsRegister(l: Ledger, waiters: map<Key, Task>, queue: seq<Task>, key: Key, task: Task)
    requires Records(l, waiters, queue) && key !in waiters
    ensures Records(Register(l, key, task), waiters[key := task], queue)
  {
    RegisterSound(l, key, task);
  }

  lemma RecordsDelete(l: Ledger, waiters: map<Key, Task>, queue: seq<Task>, key: Key)
    requires Records(l, waiters, queue) && key in waiters
    ensures Records(Delete(l, key), waiters - {key}, queue)
  {
    DeleteSound(l, key);
  }

  lemma RecordsWakeUp(l: Ledger, waiters: map<Key, Task>, queue: seq<Task>, key: Key)
    requires Records(l, waiters, queue) && key in waiters
    ensures Records(WakeUp(l, key), waiters - {key}, queue + [waiters[key]])
  {
    WakeUpSound(l, key);
  }

  // ---- Histories -----------------------------------------------------------------------------------

  /** What happens to the table: a registration, `delEvent`, or a trigger. */
  datatype Change = Added(key: Key, task: Task) | Deleted(key: Key) | Woken(key: Key)

  /** The registered waiters after a history. */
  function Waiting(log: seq<Change>): map<Key, Task> {
    if log == [] then map[]
    else
      var before := Waiting(log[..|log| - 1]);
      match log[|log| - 1]
      case Added(key, task) => before[key := task]
      case Deleted(key) => before - {key}
      case Woken(key) => before - {key}
  }

  /** Events are added when absent and consumed when present. */
  predicate Lawful(log: seq<Change>) {
    log == [] ||
    (var before := Waiting(log[..|log| - 1]);
     var c := log[|log| - 1];
     Lawful(log[..|log| - 1]) && if c.Added? then c.key !in before else c.key in before)
  }

  /** The tasks handed to the scheduler by a history. */
  function Pushes(log: seq<Change>): seq<Task> {
    if log == [] then []
    else
      var before := log[..|log| - 1];
      var c := log[|log| - 1];
      if c.Woken? && c.key in Waiting(before) then Pushes(before) + [Waiting(before)[c.key]] else Pushes(before)
  }

  function LedgerOf(log: seq<Change>): (l: Ledger)
    requires Lawful(log)
    ensures l.live.Keys == Waiting(log).Keys
  {
    if log == [] then EMPTY_LEDGER
    else
      var before := LedgerOf(log[..|log| - 1]);
      match log[|log| - 1]
      case Added(key, task) => Register(before, key, task)
      case Deleted(key) => Delete(before, key)
      case Woken(key) => WakeUp(before, key)
  }

  /**
   * Over every history of the table: each registration is live, deleted or woken, exactly one of these,
   * and the tasks pushed are the waiters of the woken registrations, each pushed exactly once.
   */
  lemma {:induction false} ExactlyOnce(log: seq<Change>)
    requires Lawful(log)
    ensures Records(LedgerOf(log), Waiting(log), Pushes(log))
  {
    if log != [] {
      var before, c := log[..|log| - 1], log[|log| - 1];
      ExactlyOnce(before);
      var l, w, q := LedgerOf(before), Waiting(before), Pushes(before);
      match c
      case Added(key, task) => RecordsRegister(l, w, q, key, task);
      case Deleted(key) => RecordsDelete(l, w, q, key);
      case Woken(key) => RecordsWakeUp(l, w, q, key);
    }
  }

  lemma Extend(log: seq<Change>, c: Change)
    requires Lawful(log) && if c.Added? then c.key !in Waiting(log) else c.key in Waiting(log)
    ensures Lawful(log + [c])
    ensures Waiting(log + [c]) == if c.Added? then Waiting(log)[c.key := c.task] else Waiting(log) - {c.key}
    ensures Pushes(log + [c]) == if c.Woken? then Pushes(log) + [Waiting(log)[c.key]] else Pushes(log)
  {
    assert (log + [c])[..|log|] == log;
  }

  // ---- Contexts ------------------------------------------------------------------------------------

  function Lookup(waiters: map<Key, Task>, key: Key): Option<Task> {
    if key in waiters then Some(waiters[key]) else None
  }

  /** The event bits that go with the two event contexts. */
  function Mask(read: Option<Task>, write: Option<Task>): set<Event> {
    (if read.Some? then {Read} else {}) + (if write.Some? then {Write} else {})
  }

  /** `FdContext`; a waiter of `None` is an event context with no scheduler, fiber and callback. */
  class FdContext {
    const fd: nat
    var events: set<Event>
    var read: Option<Task>
    var write: Option<Task>

    constructor (fd: nat)
      ensures this.fd == fd && events == {} && read == None && write == None
    {
      this.fd, events, read, write := fd, {}, None, None;
    }

    /** `getContext`. */
    function Context(e: Event): Option<Task>
      reads this
    {
      match e case Read => read case Write => write
    }

    /** Each event context holds its waiter, and is empty exactly when its bit is clear. */
    ghost predicate Holds(waiters: map<Key, Task>)
      reads this
    {
      && read == Lookup(waiters, Key(fd, Read))
      && write == Lookup(waiters, Key(fd, Write))
      && events == Mask(read, write)
    }

    lemma BitIsKey(e: Event, waiters: map<Key, Task>)
      requires Holds(waiters)
      ensures e in events <==> Key(fd, e) in waiters
      ensures Key(fd, e) in waiters ==> Context(e) == Some(waiters[Key(fd, e)])
    {
    }

    /** Empties the event context and clears its bit. */
    method Clear(e: Event, ghost waiters: map<Key, Task>)
      requires Holds(waiters)
      modifies this
      ensures Holds(waiters - {Key(fd, e)}) && events == old(events) - {e}
    {
      events := events - {e};
      match e {
        case Read => read := None;
        case Write => write := None;
      }
    }

    /** Sets the bit and puts the waiter into the empty event context. */
    method Fill(e: Event, t: Task, ghost waiters: map<Key, Task>)
      requires Holds(waiters) && Key(fd, e) !in waiters
      modifies this
      ensures Holds(waiters[Key(fd, e) := t]) && events == old(events) + {e}
    {
      events := events + {e};
      assert Context(e).None?;
      match e {
        case Read => read := Some(t);
        case Write => write := Some(t);
      }
    }
  }

  datatype Op = ADD | MOD | DEL

  /** Success, a refusal (unknown event or kernel error), or a failed assertion. */
  datatype Result = Done | Refused | Aborted

  class IOManager {
    var contexts: seq<FdContext>
    var pending: nat
    var epoll: map<nat, set<Event>>  // the kernel's interest set
    var queue: seq<Task>             // what has been handed to `schedule`
    ghost var waiters: map<Key, Task>
    ghost var log: seq<Change>

    /** Context `i` belongs to descriptor `i`. */
    ghost predicate Indexed()
      reads this`contexts
    {
      32 <= |contexts| && forall i :: 0 <= i < |contexts| ==> contexts[i].fd == i
    }

    /** The kernel watches exactly the registered events of the descriptor. */
    ghost predicate Watched(i: nat, events: set<Event>)
      reads this`epoll
    {
      if events == {} then i !in epoll else i in epoll && epoll[i] == events
    }

    /** The pending count, and nothing registered or watched beyond the table. */
    ghost predicate Counts()
      reads this`contexts, this`epoll, this`pending, this`waiters
    {
      && (forall i :: i in epoll ==> i < |contexts|)
      && (forall k :: k in waiters ==> k.fd < |contexts|)
      && pending == |waiters|
    }

    /** Waiters and pushed tasks are those of the history. */
    ghost predicate Logged()
      reads this`log, this`queue, this`waiters
    {
      Lawful(log) && waiters == Waiting(log) && queue == Pushes(log)
    }

    ghost predicate Valid()
      reads this, contexts
    {
      && Indexed()
      && Counts()
      && Logged()
      && AllHold()
      && (forall i :: 0 <= i < |contexts| ==> Watched(i, contexts[i].events))
    }

    /** Valid but for the kernel's view of descriptor `fd`. */
    ghost predicate ValidBut(fd: nat)
      reads this, contexts
    {
      && Indexed()
      && Counts()
      && Logged()
      && AllHold()
      && WatchedBut(fd)
    }

    ghost predicate WatchedBut(fd: nat)
      reads this`contexts, this`epoll, contexts
    {
      forall i :: 0 <= i < |contexts| && i != fd ==> Watched(i, contexts[i].events)
    }

    constructor ()
      ensures Valid() && fresh(contexts) && |contexts| == 32 && queue == [] && waiters == map[] && log == []
    {
      hide Mask;
      contexts, pending, epoll, queue := [], 0, map[], [];
      waiters, log := map[], [];
      new;
      Resize(32);
      assert AllHold() by { NothingHeld(); }
    }

    lemma NothingHeld()
      requires waiters == map[]
      requires forall c <- contexts :: c.events == {} && c.read == c.write == None
      ensures AllHold()
    {
      assert Mask(None, None) == {};
    }

    /** `contextResize`: new contexts at the end; every existing one keeps its place. */
    method Resize(size: nat)
      requires |contexts| <= size
      requires forall i :: 0 <= i < |contexts| ==> contexts[i].fd == i
      modifies this`contexts
      ensures |contexts| == size && old(contexts) <= contexts
      ensures forall i :: 0 <= i < |contexts| ==> contexts[i].fd == i
      ensures forall i :: |old(contexts)| <= i < |contexts| ==>
                fresh(contexts[i]) && contexts[i].events == {} && contexts[i].read == contexts[i].write == None
    {
      var i := 0;
      while i < size
        invariant 0 <= i <= size && i <= |contexts| <= size && (|contexts| == |old(contexts)| || |contexts| == i)
        invariant old(contexts) <= contexts
        invariant forall j :: 0 <= j < |contexts| ==> contexts[j].fd == j
        invariant forall j :: |old(contexts)| <= j < |contexts| ==>
                    fresh(contexts[j]) && contexts[j].events == {} && contexts[j].read == contexts[j].write == None
      {
        if |contexts| <= i {
          var c := new FdContext(i);
          contexts := contexts + [c];
        }
        i := i + 1;
      }
    }

    /** `epoll_ctl`: the kernel refuses ADD for a present and MOD or DEL for an absent descriptor. */
    method EpollCtl(op: Op, fd: nat, events: set<Event>, ok: bool) returns (rt: bool)
      requires op.ADD? ==> fd !in epoll
      requires !op.ADD? ==> fd in epoll
      modifies this`epoll
      ensures rt == ok
      ensures epoll == if !ok then old(epoll) else if op.DEL? then old(epoll) - {fd} else old(epoll)[fd := events]
    {
      if ok {
        epoll := if op.DEL? then epoll - {fd} else epoll[fd := events];
      }
      rt := ok;
    }

    ghost predicate AllHold()
      reads this`contexts, this`waiters, contexts
    {
      forall i :: 0 <= i < |contexts| ==> contexts[i].Holds(waiters)
    }

    method ClearContext(fd: nat, e: Event)
      requires Indexed() && AllHold() && WatchedBut(fd) && fd < |contexts|
      modifies contexts[fd], this`waiters
      ensures AllHold() && WatchedBut(fd) && waiters == old(waiters) - {Key(fd, e)}
      ensures contexts[fd].events == old(contexts[fd].events) - {e}
    {
      contexts[fd].Clear(e, waiters);
      waiters := waiters - {Key(fd, e)};
    }

    /** Takes a registered event out of table and count. */
    method Consume(fd: nat, e: Event)
      requires Indexed() && Counts() && AllHold() && WatchedBut(fd)
      requires fd < |contexts| && e in contexts[fd].events
      modifies contexts[fd], this`waiters, this`pending
      ensures Counts() && AllHold() && WatchedBut(fd)
      ensures contexts[fd].events == old(contexts[fd].events) - {e}
      ensures waiters == old(waiters) - {Key(fd, e)}
    {
      contexts[fd].BitIsKey(e, waiters);
      pending := pending - 1;
      ClearContext(fd, e);
    }

    /** `schedule(&ctx.cb)` or `schedule(&ctx.fiber)`. */
    method Push(ghost key: Key, t: Task)
      requires Lawful(log) && key in Waiting(log) && t == Waiting(log)[key] && queue == Pushes(log)
      modifies this`queue, this`log
      ensures Lawful(log) && Waiting(log) == old(Waiting(log)) - {key} && queue == Pushes(log)
      ensures queue == old(queue) + [t] && log == old(log) + [Woken(key)]
    {
      Extend(log, Woken(key));
      queue := queue + [t];
      log := log + [Woken(key)];
    }

    /**
     * `triggerEvent` and the decrement behind it: clears the bit, hands the waiter to the scheduler and
     * leaves the event context empty.
     */
    method TriggerEvent(fd: nat, e: Event)
      requires ValidBut(fd) && fd < |contexts| && e in contexts[fd].events
      modifies contexts[fd], this`queue, this`waiters, this`log, this`pending
      ensures ValidBut(fd)
      ensures contexts[fd].events == old(contexts[fd].events) - {e}
      ensures waiters == old(waiters) - {Key(fd, e)}
      ensures Key(fd, e) in old(waiters) && queue == old(queue) + [old(waiters)[Key(fd, e)]]
      ensures log == old(log) + [Woken(Key(fd, e))]
    {
      var c := contexts[fd];
      c.BitIsKey(e, waiters);
      Push(Key(fd, e), c.Context(e).value);
      Consume(fd, e);
    }

    /** The operation that takes an event away: DEL for the last one, MOD otherwise. */
    method Unwatch(fd: nat, left: set<Event>, ok: bool) returns (rt: bool)
      requires Valid() && fd < |contexts| && contexts[fd].events != {}
      modifies this`epoll
      ensures rt == ok && ValidBut(fd)
      ensures !ok ==> Valid()
      ensures ok ==> Watched(fd, left)
    {
      hide Lawful, Waiting, Pushes, Mask, AllHold;
      rt := EpollCtl(if left != {} then MOD else DEL, fd, left, ok);
    }

    lemma Bit(fd: nat, e: Event)
      requires Indexed() && AllHold() && fd < |contexts|
      ensures e in contexts[fd].events <==> Key(fd, e) in waiters
    {
      contexts[fd].BitIsKey(e, waiters);
    }

    /** `resetContext` and the decrement before it: the waiter is forgotten. */
    method Forget(fd: nat, e: Event)
      requires ValidBut(fd) && fd < |contexts| && e in contexts[fd].events
      modifies contexts[fd], this`waiters, this`log, this`pending
      ensures ValidBut(fd)
      ensures contexts[fd].events == old(contexts[fd].events) - {e}
      ensures waiters == old(waiters) - {Key(fd, e)}
      ensures log == old(log) + [Deleted(Key(fd, e))]
    {
      hide Mask, Watched, AllHold, WatchedBut, FdContext.Holds, Lawful, Waiting, Pushes;
      Bit(fd, e);
      Record(Deleted(Key(fd, e)));
      Consume(fd, e);
    }

    /** `delEvent`: forgets the waiter. `ok` is what `epoll_ctl` says. */
    method DelEvent(fd: nat, e: Event, ok: bool) returns (r: bool)
      requires Valid()
      modifies this, contexts
      ensures Valid() && contexts == old(contexts)
      ensures r <==> Key(fd, e) in old(waiters) && ok
      ensures queue == old(queue) && waiters == if r then old(waiters) - {Key(fd, e)} else old(waiters)
      ensures log == if r then old(log) + [Deleted(Key(fd, e))] else old(log)
    {
      if |contexts| <= fd {
        return false;
      }
      var c := contexts[fd];
      c.BitIsKey(e, waiters);
      if e !in c.events {
        return false;
      }
      var left := c.events - {e};
      var rt := Unwatch(fd, left, ok);
      if !rt {
        return false;
      }
      Forget(fd, e);
      return true;
    }

    /** `cancelEvent`: hands the waiter to the scheduler at once. */
    method CancelEvent(fd: nat, e: Event, ok: bool) returns (r: bool)
      requires Valid()
      modifies this, contexts
      ensures Valid() && contexts == old(contexts)
      ensures r <==> Key(fd, e) in old(waiters) && ok
      ensures queue == if r then old(queue) + [old(waiters)[Key(fd, e)]] else old(queue)
      ensures waiters == if r then old(waiters) - {Key(fd, e)} else old(waiters)
      ensures log == if r then old(log) + [Woken(Key(fd, e))] else old(log)
    {
      if |contexts| <= fd {
        return false;
      }
      var c := contexts[fd];
      c.BitIsKey(e, waiters);
      if e !in c.events {
        return false;
      }
      var rt := Unwatch(fd, c.events - {e}, ok);
      if !rt {
        return false;
      }
      TriggerEvent(fd, e);
      return true;
    }

    static function Wake(fd: nat, e: Event, events: set<Event>): seq<Change> {
      if e in events then [Woken(Key(fd, e))] else []
    }

    /** The triggers of `cancelALL` and `idle`: READ before WRITE. */
    static function Wakes(fd: nat, events: set<Event>): seq<Change> {
      Wake(fd, Read, events) + Wake(fd, Write, events)
    }

    method TriggerIf(fd: nat, e: Event, which: set<Event>)
      requires ValidBut(fd) && fd < |contexts| && (e in which ==> e in contexts[fd].events)
      modifies contexts[fd], this`queue, this`waiters, this`log, this`pending
      ensures ValidBut(fd) && contexts[fd].events == old(contexts[fd].events) - (which * {e})
      ensures waiters == if e in which then old(waiters) - {Key(fd, e)} else old(waiters)
      ensures e in which ==> Key(fd, e) in old(waiters)
      ensures queue == old(queue) + if e in which then [old(waiters)[Key(fd, e)]] else []
      ensures log == old(log) + Wake(fd, e, which)
    {
      hide ValidBut;
      if e in which {
        TriggerEvent(fd, e);
      }
    }

    method TriggerAll(fd: nat, which: set<Event>)
      requires ValidBut(fd) && fd < |contexts| && which <= contexts[fd].events
      modifies contexts[fd], this`queue, this`waiters, this`log, this`pending
      ensures ValidBut(fd) && contexts[fd].events == old(contexts[fd].events) - which
      ensures forall e <- which :: Key(fd, e) in old(waiters)
      ensures waiters == old(waiters) - set e | e in which :: Key(fd, e)
      ensures queue == old(queue) + (if Read in which then [old(waiters)[Key(fd, Read)]] else [])
                                  + (if Write in which then [old(waiters)[Key(fd, Write)]] else [])
      ensures log == old(log) + Wakes(fd, which)
    {
      hide Lawful, Waiting, Pushes, Mask, AllHold, Counts, Logged, WatchedBut, Indexed;
      TwoEvents(contexts[fd].events, which);
      TriggerIf(fd, Read, which);
      TriggerIf(fd, Write, which);
    }

    static lemma TwoEvents(s: set<Event>, which: set<Event>)
      ensures (s - which * {Read}) - which * {Write} == s - which
    {
      forall e: Event ensures e in (s - which * {Read}) - which * {Write} <==> e in s - which {
        match e case Read => case Write =>
      }
    }

    /** The bits of a context are the registered events. */
    lemma BitsAreKeys(fd: nat)
      requires Valid() && fd < |contexts|
      ensures Read in contexts[fd].events <==> Key(fd, Read) in waiters
      ensures Write in contexts[fd].events <==> Key(fd, Write) in waiters
      ensures waiters - (set e | e in contexts[fd].events :: Key(fd, e)) == waiters - {Key(fd, Read), Key(fd, Write)}
    {
      hide Lawful, Waiting, Pushes, Mask;
      contexts[fd].BitIsKey(Read, waiters);
      contexts[fd].BitIsKey(Write, waiters);
      forall k | k in waiters
        ensures k in (set e | e in contexts[fd].events :: Key(fd, e)) <==> k in {Key(fd, Read), Key(fd, Write)}
      {
        if k.fd == fd { match k.event case Read => case Write => }
      }
    }

    /**
     * In every state the kernel watches exactly the registered events, no descriptor for nothing, and the
     * pending count is their number.
     */
    lemma KernelWatches(fd: nat, e: Event)
      requires Valid()
      ensures Key(fd, e) in waiters <==> fd in epoll && e in epoll[fd]
      ensures fd in epoll ==> epoll[fd] != {}
      ensures pending == |waiters|
    {
      hide Lawful, Waiting, Pushes, Mask;
      if fd < |contexts| { contexts[fd].BitIsKey(e, waiters); }
    }

    lemma ValidAgain(fd: nat)
      requires ValidBut(fd) && (fd < |contexts| ==> Watched(fd, contexts[fd].events))
      ensures Valid()
    {
    }

    /** `cancelALL`: hands every waiter of the descriptor to the scheduler. */
    method CancelAll(fd: nat, ok: bool) returns (r: bool)
      requires Valid()
      modifies this, contexts
      ensures Valid() && contexts == old(contexts)
      ensures r <==> ok && fd < |contexts| && old(contexts[fd].events) != {}
      ensures log == if r then old(log) + Wakes(fd, old(contexts[fd].events)) else old(log)
      ensures !r ==> queue == old(queue) && waiters == old(waiters)
      ensures r ==> waiters == old(waiters) - {Key(fd, Read), Key(fd, Write)}
      ensures r ==> queue == old(queue) + (if Key(fd, Read) in old(waiters) then [old(waiters)[Key(fd, Read)]] else [])
                                        + (if Key(fd, Write) in old(waiters) then [old(waiters)[Key(fd, Write)]] else [])
    {
      hide *;
      if |contexts| <= fd {
        return false;
      }
      var c := contexts[fd];
      BitsAreKeys(fd);
      if c.events == {} {
        return false;
      }
      var rt := Unwatch(fd, {}, ok);
      if !rt {
        return false;
      }
      TriggerAll(fd, c.events);
      assert c.events == {};
      ValidAgain(fd);
      return true;
    }

    /**
     * One reported descriptor in `idle`. `reported` is the readiness the kernel reports, as READ and WRITE.
     * The registered bits are never EPOLLERR or EPOLLHUP, so the source's test for these adds nothing.
     * `real_events` is not masked by the registered events: the assertion in `triggerEvent` fails exactly
     * when something registered and something unregistered are reported together.
     */
    method Dispatch(fd: nat, reported: set<Event>, ok: bool) returns (r: Result)
      requires Valid() && fd < |contexts|
      modifies this, contexts
      ensures r.Aborted? <==> ok && reported * old(contexts[fd].events) != {} && !(reported <= old(contexts[fd].events))
      ensures r.Done? <==> ok && reported != {} && reported <= old(contexts[fd].events)
      ensures !r.Aborted? ==> Valid() && contexts == old(contexts)
      ensures r.Done? ==> log == old(log) + Wakes(fd, reported)
      ensures r.Done? ==> forall e <- reported :: Key(fd, e) in old(waiters)
      ensures r.Done? ==> waiters == old(waiters) - set e | e in reported :: Key(fd, e)
      ensures r.Done? ==> queue == old(queue) + (if Read in reported then [old(waiters)[Key(fd, Read)]] else [])
                                              + (if Write in reported then [old(waiters)[Key(fd, Write)]] else [])
      ensures r.Refused? ==> log == old(log) && queue == old(queue) && waiters == old(waiters)
    {
      hide Lawful, Waiting, Pushes, Logged, Mask;
      var c := contexts[fd];
      if c.events * reported == {} {
        return Refused;
      }
      var left := c.events - reported;
      var rt := Unwatch(fd, left, ok);
      if !rt {
        return Refused;
      }
      if !(reported <= c.events) {
        return Aborted;
      }
      TriggerAll(fd, reported);
      return Done;
    }

    /** `contextResize` keeps the table and what is registered. */
    method Grow(fd: nat)
      requires Valid() && |contexts| <= fd
      modifies this`contexts
      ensures Valid() && fd < |contexts| == fd * 3 / 2 && old(contexts) <= contexts
      ensures forall i :: |old(contexts)| <= i < |contexts| ==> fresh(contexts[i])
    {
      Resize(fd * 3 / 2);
    }

    /** The kernel is told first: ADD for the first event of a descriptor, MOD otherwise. */
    method Watch(fd: nat, e: Event, ok: bool) returns (rt: bool)
      requires Valid() && fd < |contexts|
      modifies this`epoll
      ensures rt == ok && ValidBut(fd)
      ensures !ok ==> Valid()
      ensures ok ==> Watched(fd, contexts[fd].events + {e})
    {
      hide Lawful, Waiting, Pushes, Mask, AllHold;
      var c := contexts[fd];
      rt := EpollCtl(if c.events != {} then MOD else ADD, fd, c.events + {e}, ok);
    }

    method FillContext(fd: nat, e: Event, task: Task)
      requires Indexed() && AllHold() && WatchedBut(fd) && fd < |contexts| && Key(fd, e) !in waiters
      modifies contexts[fd], this`waiters
      ensures AllHold() && WatchedBut(fd) && waiters == old(waiters)[Key(fd, e) := task]
      ensures contexts[fd].events == old(contexts[fd].events) + {e}
    {
      contexts[fd].Fill(e, task, waiters);
      waiters := waiters[Key(fd, e) := task];
    }

    static lemma OneMore(waiters: map<Key, Task>, key: Key, task: Task)
      requires key !in waiters
      ensures |waiters[key := task]| == |waiters| + 1
    {
      assert waiters[key := task].Keys == waiters.Keys + {key};
    }

    /** A change that pushes nothing is added to the history. */
    ghost method Record(c: Change)
      requires !c.Woken? && Lawful(log) && if c.Added? then c.key !in Waiting(log) else c.key in Waiting(log)
      modifies this`log
      ensures Lawful(log) && log == old(log) + [c]
      ensures Waiting(log) == old(if c.Added? then Waiting(log)[c.key := c.task] else Waiting(log) - {c.key})
      ensures Pushes(log) == old(Pushes(log))
    {
      Extend(log, c);
      log := log + [c];
    }

    /** Count, bit and context of a new registration. */
    method Enter(fd: nat, e: Event, task: Task)
      requires ValidBut(fd) && fd < |contexts| && Key(fd, e) !in waiters
      modifies contexts[fd], this`waiters, this`log, this`pending
      ensures ValidBut(fd) && contexts[fd].events == old(contexts[fd].events) + {e}
      ensures waiters == old(waiters)[Key(fd, e) := task]
      ensures log == old(log) + [Added(Key(fd, e), task)]
    {
      hide Mask, Watched, AllHold, WatchedBut, FdContext.Holds, Lawful, Waiting, Pushes;
      OneMore(waiters, Key(fd, e), task);
      FillContext(fd, e, task);
      Record(Added(Key(fd, e), task));
      pending := pending + 1;
    }

    /**
     * `addEvent`, growing the table to `fd * 1.5` when needed. It asserts that the event is not registered;
     * the second assertion, that the event context is empty, cannot fail after that.
     */
    method AddEvent(fd: nat, e: Event, task: Task, ok: bool) returns (r: Result)
      requires Valid()
      modifies this, contexts
      ensures Valid() && old(contexts) <= contexts
      ensures |contexts| == if fd < |old(contexts)| then |old(contexts)| else fd * 3 / 2
      ensures forall i :: |old(contexts)| <= i < |contexts| ==> fresh(contexts[i])
      ensures r.Aborted? <==> Key(fd, e) in old(waiters)
      ensures r.Done? <==> Key(fd, e) !in old(waiters) && ok
      ensures queue == old(queue) && waiters == if r.Done? then old(waiters)[Key(fd, e) := task] else old(waiters)
      ensures log == if r.Done? then old(log) + [Added(Key(fd, e), task)] else old(log)
    {
      hide Lawful, Waiting, Pushes, Logged, Watched, WatchedBut;
      if |contexts| <= fd {
        Grow(fd);
      }
      var c := contexts[fd];
      c.BitIsKey(e, waiters);
      if e in c.events {
        return Aborted;
      }
      var rt := Watch(fd, e, ok);
      if !rt {
        return Refused;
      }
      assert c.Context(e).None?;
      Enter(fd, e, task);
      ValidAgain(fd);
      return Done;
    }
  }

  /**
   * READ and WRITE are registered and become ready; before the report is dispatched, `delEvent` takes
   * WRITE away: the assertion in `triggerEvent` fails.
   */
  method ReportOfBoth(task: Task) returns (r: Result)
    ensures r == Aborted
  {
    var m := HalfDeleted(task);
    r := m.Dispatch(5, {Read, Write}, true);
  }

  method BothAdded(task: Task) returns (m: IOManager)
    ensures fresh(m) && m.Valid() && fresh(m.contexts)
    ensures m.log == [Added(Key(5, Read), task), Added(Key(5, Write), task)]
  {
    hide Lawful, Pushes, Mask;
    m := new IOManager();
    var r := m.AddEvent(5, Read, task, true);
    OneLeft(m, [], task);
    r := m.AddEvent(5, Write, task, true);
  }

  method HalfDeleted(task: Task) returns (m: IOManager)
    ensures fresh(m) && m.Valid() && fresh(m.contexts) && m.contexts[5].events == {Read}
  {
    m := BothAdded(task);
    BothThere(m, task);
    hide Lawful, Pushes, Mask, Waiting;
    var deleted := m.DelEvent(5, Write, true);
    assert m.log == [Added(Key(5, Read), task)] + [Added(Key(5, Write), task), Deleted(Key(5, Write))];
    OneLeft(m, [Added(Key(5, Write), task), Deleted(Key(5, Write))], task);
  }

  lemma WaitingOne(task: Task)
    ensures Waiting([Added(Key(5, Read), task)]) == map[Key(5, Read) := task]
  {
    assert [Added(Key(5, Read), task)][..0] == [];
  }

  lemma WaitingTwo(task: Task)
    ensures Waiting([Added(Key(5, Read), task), Added(Key(5, Write), task)])
            == map[Key(5, Read) := task, Key(5, Write) := task]
  {
    WaitingOne(task);
    var two := [Added(Key(5, Read), task), Added(Key(5, Write), task)];
    assert two[..1] == [Added(Key(5, Read), task)];
  }

  lemma WaitingThree(task: Task)
    ensures Waiting([Added(Key(5, Read), task), Added(Key(5, Write), task), Deleted(Key(5, Write))])
            == map[Key(5, Read) := task]
  {
    WaitingTwo(task);
    var three := [Added(Key(5, Read), task), Added(Key(5, Write), task), Deleted(Key(5, Write))];
    assert three[..2] == [Added(Key(5, Read), task), Added(Key(5, Write), task)];
    assert map[Key(5, Read) := task, Key(5, Write) := task] - {Key(5, Write)} == map[Key(5, Read) := task];
  }

  /** Only READ is registered on descriptor 5. */
  lemma OneLeft(m: IOManager, rest: seq<Change>, task: Task)
    requires m.Valid() && m.log == [Added(Key(5, Read), task)] + rest
    requires rest == [] || rest == [Added(Key(5, Write), task), Deleted(Key(5, Write))]
    ensures m.waiters == map[Key(5, Read) := task] && m.contexts[5].events == {Read}
  {
    hide Waiting, Lawful, Pushes;
    WaitingOne(task);
    WaitingThree(task);
    assert m.log == if rest == [] then [Added(Key(5, Read), task)]
                    else [Added(Key(5, Read), task), Added(Key(5, Write), task), Deleted(Key(5, Write))];
    EventsOf(m);
    forall e: Event ensures e in m.contexts[5].events <==> e in {Read} {
      match e case Read => case Write =>
    }
  }

  lemma BothThere(m: IOManager, task: Task)
    requires m.Valid() && m.log == [Added(Key(5, Read), task), Added(Key(5, Write), task)]
    ensures Key(5, Write) in m.waiters
  {
    WaitingTwo(task);
  }

  lemma EventsOf(m: IOManager)
    requires m.Valid()
    ensures m.contexts[5].events == set e: Event | Key(5, e) in m.waiters
  {
    var c := m.contexts[5];
    c.BitIsKey(Read, m.waiters);
    c.BitIsKey(Write, m.waiters);
    forall e: Event ensures e in c.events <==> Key(5, e) in m.waiters {
      match e case Read => case Write =>
    }
  }
}

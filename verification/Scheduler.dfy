/** The task list of `dwframe/scheduler.cc` and `dwframe/scheduler.h`, updated in place. */
module Scheduler {
  import opened Options
  import opened Runtime

  /** An entry is pinned to another thread than `w`. */
  predicate Elsewhere(e: Entry, w: Tid) {
    e.thread != -1 && e.thread != w
  }

  predicate AnyElsewhere(q: seq<Entry>, w: Tid) {
    exists i :: 0 <= i < |q| && Elsewhere(q[i], w)
  }

  lemma AnyElsewhereNext(q: seq<Entry>, i: nat, w: Tid)
    requires i < |q|
    ensures AnyElsewhere(q[..i + 1], w) <==> AnyElsewhere(q[..i], w) || Elsewhere(q[i], w)
  {
    assert forall j :: 0 <= j < i ==> q[..i][j] == q[..i + 1][j];
    assert q[..i + 1][i] == q[i];
  }

  class TaskList {
    var fibers: seq<Entry>
    var next: nat
    var active: nat

    constructor ()
      ensures fibers == [] && next == 0 && active == 0
    {
      fibers, next, active := [], 0, 0;
    }

    /** `scheduleNolock` for a task that is not null: a tickle is wanted when the list was empty. */
    method Schedule(task: Task, thread: int) returns (tickle: bool)
      modifies this`fibers, this`next
      ensures fibers == old(fibers) + [Entry(old(next), task, thread)] && next == old(next) + 1
      ensures tickle <==> old(fibers) == []
    {
      tickle := fibers == [];
      fibers, next := fibers + [Entry(next, task, thread)], next + 1;
    }

    /** `schedule(begin, end)`: all callbacks in one critical section, in order. */
    method ScheduleAll(batch: seq<Callback>) returns (tickle: bool)
      modifies this`fibers, this`next
      ensures fibers == old(fibers) + Calls(batch, old(next)) && next == old(next) + |batch|
      ensures tickle <==> old(fibers) == [] && batch != []
    {
      tickle := false;
      var i := 0;
      while i < |batch|
        invariant 0 <= i <= |batch| && next == old(next) + i
        invariant fibers == old(fibers) + Calls(batch[..i], old(next))
        invariant tickle <==> old(fibers) == [] && i > 0
      {
        var one := Schedule(Call(batch[i]), -1);
        tickle := one || tickle;
        i := i + 1;
      }
      assert batch[..i] == batch;
    }

    /**
     * The critical section of the run loop. It removes the first entry that is neither pinned elsewhere
     * nor executing, keeps the others in order and counts the worker as active. Others are tickled if
     * an entry for another thread was passed over or entries are left behind the one taken.
     */
    method Take(w: Tid, states: map<Fiber, FState>) returns (ft: Option<Entry>, tickle: bool)
      modifies this`fibers, this`active
      ensures var k := Scan(states, old(fibers), w);
              if k == |old(fibers)| then
                ft == None && fibers == old(fibers) && active == old(active)
                && (tickle <==> AnyElsewhere(old(fibers), w))
              else
                ft == Some(old(fibers)[k]) && fibers == Without(old(fibers), k) && active == old(active) + 1
                && (tickle <==> AnyElsewhere(old(fibers)[..k], w) || k + 1 < |old(fibers)|)
    {
      tickle, ft := false, None;
      var it := 0;
      ghost var q := fibers;
      while it < |fibers|
        invariant 0 <= it <= |fibers| && fibers == q && ft == None && active == old(active)
        invariant Scan(states, q, w) == it + Scan(states, q[it..], w)
        invariant tickle <==> AnyElsewhere(q[..it], w)
      {
        var e := fibers[it];
        assert q[it..][1..] == q[it + 1..];
        AnyElsewhereNext(q, it, w);
        if e.thread != -1 && e.thread != w {
          it := it + 1;
          tickle := true;
          continue;
        }
        if e.task.Resume? && e.task.f in states && states[e.task.f] == Exec {
          it := it + 1;
          continue;
        }
        assert Eligible(states, q[it..][0], w) && Scan(states, q, w) == it;
        ft := Some(e);
        fibers := fibers[..it] + fibers[it + 1..];
        active := active + 1;
        break;
      }
      assert ft == None ==> it == |q| && q[..it] == q && Scan(states, q, w) == |q|;
      if it < |fibers| {
        tickle := true;
      }
    }
  }
}

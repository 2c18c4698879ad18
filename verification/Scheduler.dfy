// The task control blocks, the ready lists and the code of the task calls.

module Scheduler {
  import opened Lists
  import opened SchedModel
  import opened SchedOps
  import opened SchedEffects
  import SchedLaws

  function Tcbs(status: seq<Status>, prio: seq<nat>, target: seq<nat>, since: seq<nat>): (r: seq<Tcb>)
    requires |status| == |prio| == |target| == |since|
    ensures |r| == |status|
  {
    seq(|status|, t requires 0 <= t < |status| => Tcb(status[t], prio[t], target[t], since[t]))
  }

  const NEW_STATUS: Status := Status(true, false, false, false, false, false, false)

  // All control blocks unused, all lists empty.
  ghost function Initial(tasks: nat, objects: nat): Sched
  {
    Sched(seq(tasks + 1, i => Tcb(NEW_STATUS, 0, 0, 0)), seq(PRIORITYNUM + objects, i => []), {}, tasks, 0, 0)
  }

  lemma InitialOk(tasks: nat, objects: nat)
    ensures SchedOk(Initial(tasks, objects))
  {
  }

  class Scheduler {
    const status: array<Status>      // usTaskStatus
    const prio: array<nat>           // usPriority
    const target: array<nat>         // what a waiting task waits for
    const list: array<seq<nat>>      // g_pstLosPriorityQueueList, then the wait lists of the objects
    var wheel: set<nat>              // the tasks on g_stTskSortLink
    var run: nat                     // g_stLosTask.pstRunTask
    var lock: nat                    // g_usLosTaskLock
    const idle: nat                  // g_uwIdleTaskID

    // When each task last became ready.
    ghost var since: seq<nat>
    ghost var clock: nat

    ghost predicate Shaped()
      reads this
    {
      && status.Length == prio.Length == target.Length == |since| && prio != target
      && list.Length >= PRIORITYNUM && run < status.Length
    }

    ghost function View(): (s: Sched)
      requires Shaped()
      reads this, status, prio, target, list
      ensures |s.tcb| == status.Length && |s.lists| == list.Length
    {
      Sched(Tcbs(status[..], prio[..], target[..], since), list[..], wheel, run, lock, clock)
    }

    ghost predicate Valid()
      reads this, status, prio, target, list
    {
      Shaped() && SchedOk(View())
    }

    // osTaskInit: every control block unused, the last of them standing for the running task.
    constructor (tasks: nat, objects: nat, idle0: nat)
      ensures Valid() && fresh(status) && fresh(prio) && fresh(target) && fresh(list) && idle == idle0
      ensures status.Length == tasks + 1 && list.Length == PRIORITYNUM + objects && lock == 0
      ensures forall t :: 0 <= t <= tasks ==> status[t].unused
    {
      status := new Status[tasks + 1](i => NEW_STATUS);
      prio := new nat[tasks + 1](i => 0);
      target := new nat[tasks + 1](i => 0);
      list := new seq<nat>[PRIORITYNUM + objects](i => []);
      wheel, run, lock, idle := {}, tasks, 0, idle0;
      since, clock := seq(tasks + 1, i => 0), 0;
      new;
      InitialOk(tasks, objects);
      hide SchedOk;
      assert View().tcb == Initial(tasks, objects).tcb;
      assert View().lists == Initial(tasks, objects).lists;
    }

    // ---- Lists and bits ----------------------------------------------------------------------

    method SetStatus(t: nat, c: Status)
      requires Shaped() && t < status.Length
      modifies status
      ensures Shaped() && View() == old(View()).(tcb := old(View()).tcb[t := old(View()).tcb[t].(status := c)])
    {
      status[t] := c;
      assert View().tcb == old(View()).tcb[t := old(View()).tcb[t].(status := c)];
    }

    method SetPrio(t: nat, p: nat)
      requires Shaped() && t < status.Length
      modifies prio
      ensures Shaped() && View() == old(View()).(tcb := old(View()).tcb[t := old(View()).tcb[t].(prio := p)])
    {
      prio[t] := p;
      assert View().tcb == old(View()).tcb[t := old(View()).tcb[t].(prio := p)];
    }

    // LOS_PriqueueDequeue and LOS_ListDelete: the node leaves the list it is in.
    method ListDelete(t: nat)
      requires Shaped() && t < status.Length && Place(View().tcb[t]) < list.Length
      modifies list
      ensures Shaped() && View() == old(View()).(lists := Unlinked(old(View()), t))
    {
      var i := if status[t].ready then prio[t] else if Waits(status[t]) then PRIORITYNUM + target[t] else -1;
      assert i == Place(View().tcb[t]);
      if i >= 0 {
        list[i] := Without(list[i], t);
      }
    }

    // LOS_PriqueueEnqueue, with the bit that goes with it.
    method PriqueueEnqueue(t: nat)
      requires Shaped() && t < status.Length && prio[t] < list.Length
      modifies this`since, this`clock, status, list
      ensures Shaped() && View() == Enqueue(old(View()), t)
    {
      status[t] := status[t].(ready := true);
      list[prio[t]] := list[prio[t]] + [t];
      since, clock := since[t := clock], clock + 1;
      assert View().tcb == Enqueue(old(View()), t).tcb;
    }

    // LOS_PriqueueTop; -1 stands for a null pointer.
    method PriqueueTop() returns (top: int)
      requires Shaped()
      ensures top == TopFrom(list[..], 0)
    {
      var p := 0;
      while p < PRIORITYNUM
        invariant p <= PRIORITYNUM && TopFrom(list[..], 0) == TopFrom(list[..], p)
      {
        if list[p] != [] {
          return list[p][0];
        }
        p := p + 1;
      }
      top := -1;
    }

    // LOS_PriqueueSize
    method PriqueueSize(p: nat) returns (n: nat)
      requires p < list.Length
      ensures n == |list[p]|
    {
      n := 0;
      while n < |list[p]|
        invariant n <= |list[p]|
      {
        n := n + 1;
      }
    }

    // LOS_PriqueueTotalSize: every ready task once.
    method PriqueueTotalSize() returns (n: nat)
      requires Valid()
      ensures n == |set t: nat | t < status.Length && status[t].ready|
    {
      n := 0;
      var p := 0;
      assert ReadyBelow(View().tcb, 0) == {};
      while p < PRIORITYNUM
        invariant p <= PRIORITYNUM && n == |ReadyBelow(View().tcb, p)|
      {
        var k := PriqueueSize(p);
        SeenGrows(View(), p);
        n := n + k;
        p := p + 1;
      }
      assert ReadyBelow(View().tcb, PRIORITYNUM) == set t: nat | t < status.Length && status[t].ready by {
        assert forall t :: 0 <= t < status.Length ==>
            View().tcb[t].prio < PRIORITYNUM && View().tcb[t].status == status[t];
      }
    }

    // LOS_Schedule, the switch included.
    method LosSchedule()
      requires Shaped() && Schedule(View()).run < status.Length
      modifies this`run
      ensures Shaped() && View() == Schedule(old(View()))
    {
      hide TopFrom;
      var newTask := PriqueueTop();
      if run != newTask && newTask >= 0 {
        if lock == 0 {
          run := newTask;
        }
      }
    }

    // ---- The task calls -----------------------------------------------------------------------

    // LOS_TaskCreate on control block t of the free list; the stack is not part of this.
    method TaskCreate(t: nat, p: nat) returns (code: Code)
      requires Valid() && t < status.Length && status[t].unused
      modifies this, status, prio, target, list
      ensures Valid() && (View(), code) == Create(old(View()), t, p)
    {
      hide TcbsOk, PlacesOk, WheelOk, ReadyOk, TopFrom;
      CreateOk(View(), t, p);
      if p > LOWEST {
        return PriorError;
      }
      status[t] := Status(false, false, false, false, false, false, false);
      prio[t] := p;
      target[t] := 0;
      since := since[t := 0];
      assert View().tcb == old(View()).tcb[t := Fresh(p)];
      PriqueueEnqueue(t);
      LosSchedule();
      code := Ok;
    }

    // LOS_TaskResume
    method TaskResume(t: nat) returns (code: Code)
      requires Valid() && t < status.Length
      modifies this, status, list
      ensures Valid() && (View(), code) == Resume(old(View()), t)
      ensures code == Ok <==> old(!status[t].unused && status[t].suspend)
      ensures code == Ok ==>
                && !status[t].suspend
                && (status[t].ready <==> !status[t].delay && !status[t].pend && !status[t].pendQueue)
    {
      hide TcbsOk, PlacesOk, WheelOk, ReadyOk, TopFrom;
      ResumeOk(View(), t);
      ResumeEffect(View(), t);
      PlaceInRange(View(), t);
      if status[t].unused {
        return NotCreated;
      }
      if !status[t].suspend {
        return NotSuspended;
      }
      SetStatus(t, status[t].(suspend := false));
      if !Blocked(status[t]) {
        PriqueueEnqueue(t);
        LosSchedule();
      }
      code := Ok;
    }

    // LOS_TaskSuspend
    method TaskSuspend(t: nat) returns (code: Code)
      requires Valid() && t < status.Length
      modifies this, status, list
      ensures Valid() && (View(), code) == Suspend(old(View()), t, idle)
      ensures code == Ok ==> status[t].suspend && !status[t].ready
    {
      hide TcbsOk, PlacesOk, WheelOk, ReadyOk, TopFrom, Unlinked;
      SuspendOk(View(), t, idle);
      SuspendEffect(View(), t, idle);
      if t == idle {
        return OperateIdle;
      }
      if status[t].unused {
        return NotCreated;
      }
      if status[t].suspend {
        return AlreadySuspended;
      }
      if t == run && lock != 0 {
        return SuspendLocked;
      }
      PlaceInRange(View(), t);
      var c := status[t].(suspend := true);
      if c.ready {
        ListDelete(t);
        c := c.(ready := false);
      }
      SetStatus(t, c);
      if t == run {
        LosSchedule();
      }
      code := Ok;
    }

    // LOS_TaskYield, whatever the running task is doing (YieldOkIff).
    method TaskYield() returns (code: Code)
      requires Valid()
      modifies this, status, list
      ensures Shaped() && (View(), code) == Yield(old(View()))
      ensures Valid() <==> old(MayYield(View()))
    {
      hide TcbsOk, PlacesOk, WheelOk, ReadyOk, TopFrom, Unlinked;
      ghost var s, t := View(), run;
      YieldRuns(s);
      SchedLaws.YieldOkIff(s);
      PlaceInRange(View(), run);
      var n := PriqueueSize(prio[run]);
      if n > 1 {
        ListDelete(run);
        assert View() == Leave(s, t, s.tcb[t].status, s.wheel);
        SetStatus(run, status[run].(ready := true));
        PriqueueEnqueue(run);
        EnqueueReady(Leave(s, t, s.tcb[t].status, s.wheel), t);
        LosSchedule();
        code := Ok;
      } else {
        code := YieldNotEnough;
      }
    }

    // LOS_TaskDelay, by a running task that is not on the wheel already (DelayOkIff).
    method TaskDelay(ticks: nat, inInt: bool) returns (code: Code)
      requires Valid() && (ticks > 0 && !inInt && lock == 0 ==> run !in wheel)
      modifies this, status, list
      ensures Shaped() && (View(), code) == Delay(old(View()), ticks, inInt)
      ensures Valid() <==> old(MayDelay(View(), ticks, inInt))
    {
      hide TcbsOk, PlacesOk, WheelOk, ReadyOk, TopFrom, Unlinked, Yield;
      SchedLaws.DelayOkIff(View(), ticks, inInt);
      if inInt {
        return DelayInInt;
      }
      if lock != 0 {
        return DelayInLock;
      }
      if ticks == 0 {
        code := TaskYield();
      } else {
        PlaceInRange(View(), run);
        DelayRuns(View());
        ListDelete(run);
        SetStatus(run, status[run].(ready := false, delay := true));
        wheel := wheel + {run};
        LosSchedule();
        code := Ok;
      }
    }

    // osTaskPriModify
    method TaskPriModify(t: nat, p: nat)
      requires Valid() && t < status.Length && p < PRIORITYNUM
      modifies this`since, this`clock, status, prio, list
      ensures Valid() && View() == PriModify(old(View()), t, p)
    {
      hide SchedOk, Unlinked;
      PriModifyOk(View(), t, p);
      PlaceInRange(View(), t);
      if status[t].ready {
        ListDelete(t);
        SetStatus(t, status[t].(ready := false));
        SetPrio(t, p);
        PriqueueEnqueue(t);
      } else {
        SetPrio(t, p);
      }
    }

    // LOS_TaskPriSet
    method TaskPriSet(t: nat, p: nat) returns (code: Code)
      requires Valid() && t < status.Length
      modifies this, status, prio, list
      ensures Valid() && (View(), code) == PriSet(old(View()), t, p, idle)
    {
      hide TcbsOk, PlacesOk, WheelOk, ReadyOk, Unlinked, PriModify, TopFrom;
      PriSetOk(View(), t, p, idle);
      if p > LOWEST {
        return PriorError;
      }
      if t == idle {
        return OperateIdle;
      }
      if status[t].unused {
        return NotCreated;
      }
      var isReady := status[t].ready;
      TaskPriModify(t, p);
      if isReady {
        LosSchedule();
      }
      code := Ok;
    }

    // The common part of the pend calls: the running task blocks on object w at position k.
    method BlockOn(w: nat, k: nat, queue: bool, timed: bool)
      requires Valid() && status[run].ready && !status[run].timeout
      requires PRIORITYNUM + w < list.Length && k <= |list[PRIORITYNUM + w]|
      modifies this, status, target, list
      ensures Valid() && View() == Block(old(View()), w, k, queue, timed)
    {
      hide TcbsOk, PlacesOk, WheelOk, ReadyOk, TopFrom, Unlinked;
      ghost var s, t := View(), run;
      BlockOk(s, w, k, queue, timed);
      PlaceInRange(s, t);
      UnlinkedElsewhere(s, t, w);
      ListDelete(run);
      SetStatus(run, status[run].(ready := false));
      ghost var x := View();
      assert x == Leave(s, t, s.tcb[t].status.(ready := false), s.wheel);
      var c := status[run].(pend := !queue, pendQueue := queue, timeout := timed);
      status[run] := c;
      target[run] := w;
      list[PRIORITYNUM + w] := list[PRIORITYNUM + w][..k] + [run] + list[PRIORITYNUM + w][k..];
      if timed {
        wheel := wheel + {run};
      }
      assert View().tcb == x.tcb[t := x.tcb[t].(status := c, target := w)];
      assert View() == Join(x, t, c, w, k, wheel);
      LosSchedule();
    }

    // The common part of the post calls: a waiting task gets what it waits for.
    method WakeUp(t: nat)
      requires Valid() && t < status.Length && Waits(status[t])
      modifies this, status, list
      ensures Valid() && View() == Wake(old(View()), t)
    {
      hide TcbsOk, PlacesOk, WheelOk, ReadyOk, TopFrom, Unlinked;
      WakeOk(View(), t);
      PlaceInRange(View(), t);
      TimedWaiter(View(), t);
      ListDelete(t);
      var c := status[t].(pend := false, pendQueue := false);
      if c.timeout {
        wheel := wheel - {t};
        c := c.(timeout := false);
      }
      SetStatus(t, c);
      assert wheel == old(wheel) - {t};
      if !status[t].suspend {
        PriqueueEnqueue(t);
      }
      LosSchedule();
    }

    // What osTaskScan does with a task whose time is up.
    method ScanTask(t: nat)
      requires Valid() && t in wheel
      modifies this, status, list
      ensures Valid() && t < status.Length && View() == Lapse(old(View()), t)
    {
      hide TcbsOk, PlacesOk, WheelOk, ReadyOk;
      LapseOk(View(), t);
      PlaceInRange(View(), t);
      NoPlaceWhileDelayed(View(), t);
      wheel := wheel - {t};
      var c := status[t];
      if c.pend {
        c := c.(pend := false);
        ListDelete(t);
      } else if c.pendQueue {
        ListDelete(t);
        c := c.(pendQueue := false);
      } else {
        c := c.(delay := false);
      }
      SetStatus(t, c);
      if !status[t].suspend {
        PriqueueEnqueue(t);
      }
    }

    // LOS_TaskLock
    method TaskLock()
      requires Valid()
      modifies this`lock
      ensures Valid() && View() == Lock(old(View()))
    {
      UnlockOk(View());
      lock := (lock + 1) % UINT16;
    }

    // LOS_TaskUnlock
    method TaskUnlock()
      requires Valid()
      modifies this`lock, this`run
      ensures Valid() && View() == Unlock(old(View()))
    {
      hide TopFrom;
      UnlockOk(View());
      if lock > 0 {
        lock := lock - 1;
        if 0 == lock {
          LosSchedule();
        }
      }
    }
  }

  // ---- Why the steps in between are as they should be ------------------------------------------

  lemma PlaceInRange(s: Sched, t: nat)
    requires SchedOk(s) && t < |s.tcb|
    ensures Place(s.tcb[t]) < |s.lists| && s.tcb[t].prio < PRIORITYNUM
  {
  }

  // Setting READY before the enqueueing makes no difference.
  lemma EnqueueReady(s: Sched, t: nat)
    requires t < |s.tcb| && s.tcb[t].prio < |s.lists|
    ensures Enqueue(s.(tcb := s.tcb[t := s.tcb[t].(status := s.tcb[t].status.(ready := true))]), t) == Enqueue(s, t)
  {
  }

  // Whoever runs after a yield is a task.
  lemma YieldRuns(s: Sched)
    requires SchedOk(s)
    ensures |s.lists| >= PRIORITYNUM && Yield(s).0.run < |s.tcb|
  {
    hide OldestFirst, Distinct, TopFrom, WheelOk;
    var t, p := s.run, s.tcb[s.run].prio;
    if |s.lists[p]| > 1 {
      UnlinkedLength(s, t);
      var z := Enqueue(Leave(s, t, s.tcb[t].status, s.wheel), t);
      TopIsListed(z.lists);
      UnlinkedMembers(s, t);
    }
  }

  lemma DelayRuns(s: Sched)
    requires SchedOk(s)
    ensures |s.lists| >= PRIORITYNUM && |Unlinked(s, s.run)| == |s.lists|
    ensures var c := s.tcb[s.run].status.(ready := false, delay := true);
            Schedule(Leave(s, s.run, c, s.wheel + {s.run})).run < |s.tcb|
  {
    hide OldestFirst, Distinct, TopFrom, WheelOk;
    UnlinkedLength(s, s.run);
    TopIsListed(Unlinked(s, s.run));
    UnlinkedMembers(s, s.run);
  }

  lemma TopIsListed(lists: seq<seq<nat>>)
    requires |lists| >= PRIORITYNUM
    ensures TopFrom(lists, 0) >= 0 ==> exists q :: 0 <= q < PRIORITYNUM && TopFrom(lists, 0) in lists[q]
  {
  }

  lemma UnlinkedMembers(s: Sched, t: nat)
    requires t < |s.tcb| && forall i, x: nat :: 0 <= i < |s.lists| && x in s.lists[i] ==> x < |s.tcb|
    ensures |Unlinked(s, t)| == |s.lists|
    ensures forall i, x: nat :: 0 <= i < |s.lists| && x in Unlinked(s, t)[i] ==> x < |s.tcb|
  {
    var i := Place(s.tcb[t]);
    if 0 <= i < |s.lists| {
      WithoutMembers(s.lists[i], t);
    }
  }

  lemma {:induction false} WithoutMembers(L: seq<nat>, t: nat)
    ensures forall x: nat :: x in Without(L, t) ==> x in L
  {
    if L != [] && L[0] != t {
      WithoutMembers(L[1..], t);
    }
  }

  lemma TimedWaiter(s: Sched, t: nat)
    requires SchedOk(s) && t < |s.tcb| && Waits(s.tcb[t].status)
    ensures !s.tcb[t].status.timeout ==> t !in s.wheel
  {
  }

  lemma NoPlaceWhileDelayed(s: Sched, t: nat)
    requires SchedOk(s) && t in s.wheel
    ensures t < |s.tcb| && (!Waits(s.tcb[t].status) ==> Unlinked(s, t) == s.lists)
  {
  }

  ghost function ReadyBelow(tcb: seq<Tcb>, p: nat): set<nat> {
    set t: nat | t < |tcb| && tcb[t].status.ready && tcb[t].prio < p
  }

  lemma SeenGrows(s: Sched, p: nat)
    requires SchedOk(s) && p < PRIORITYNUM
    ensures |s.lists| >= PRIORITYNUM && |ReadyBelow(s.tcb, p + 1)| == |ReadyBelow(s.tcb, p)| + |s.lists[p]|
  {
    ListIsSet(s, p);
    var here := set t: nat | t in s.lists[p];
    hide SchedOk;
    assert ReadyBelow(s.tcb, p + 1) == ReadyBelow(s.tcb, p) + here && ReadyBelow(s.tcb, p) !! here;
  }

  lemma ListIsSet(s: Sched, p: nat)
    requires SchedOk(s) && p < PRIORITYNUM
    ensures |s.lists| >= PRIORITYNUM && |set t: nat | t in s.lists[p]| == |s.lists[p]|
    ensures forall t: nat :: t in s.lists[p] <==> t < |s.tcb| && s.tcb[t].status.ready && s.tcb[t].prio == p
  {
    DistinctSize(s.lists[p]);
    assert forall t: nat :: t < |s.tcb| ==> (Place(s.tcb[t]) == p <==> s.tcb[t].status.ready && s.tcb[t].prio == p);
  }

}

// The task calls, and blocking, waking and timing out as the IPC objects do them. Each is one
// interrupt-locked section followed by the choice of LOS_Schedule.

module SchedOps {
  import opened Lists
  import opened SchedModel

  // ---- The calls ---------------------------------------------------------------------------

  function Fresh(p: nat): Tcb { Tcb(Status(false, false, false, false, false, false, false), p, 0, 0) }

  // LOS_TaskCreate on an unused control block.
  function Create(s: Sched, t: nat, p: nat): (Sched, Code)
    requires SchedOk(s) && t < |s.tcb|
  {
    if p > LOWEST then (s, PriorError)
    else (Schedule(Enqueue(s.(tcb := s.tcb[t := Fresh(p)]), t)), Ok)
  }

  // LOS_TaskResume
  function Resume(s: Sched, t: nat): (Sched, Code)
    requires SchedOk(s) && t < |s.tcb|
  {
    var c := s.tcb[t].status;
    if c.unused then (s, NotCreated)
    else if !c.suspend then (s, NotSuspended)
    else
      var x := s.(tcb := s.tcb[t := s.tcb[t].(status := c.(suspend := false))]);
      if Blocked(c.(suspend := false)) then (x, Ok) else (Schedule(Enqueue(x, t)), Ok)
  }

  // LOS_TaskSuspend
  function Suspend(s: Sched, t: nat, idle: nat): (Sched, Code)
    requires SchedOk(s) && t < |s.tcb|
  {
    var c := s.tcb[t].status;
    if t == idle then (s, OperateIdle)
    else if c.unused then (s, NotCreated)
    else if c.suspend then (s, AlreadySuspended)
    else if t == s.run && s.lock != 0 then (s, SuspendLocked)
    else
      var x := if c.ready then Leave(s, t, c.(ready := false, suspend := true), s.wheel)
               else s.(tcb := s.tcb[t := s.tcb[t].(status := c.(suspend := true))]);
      SuspendLists(s, t);
      (if t == s.run then Schedule(x) else x, Ok)
  }

  // The running task gives way to the others of its priority, if any. The source unlinks it from
  // whatever list it is in.
  function Yield(s: Sched): (Sched, Code)
    requires |s.lists| >= PRIORITYNUM && s.run < |s.tcb| && s.tcb[s.run].prio < |s.lists|
  {
    if |s.lists[s.tcb[s.run].prio]| > 1 then
      UnlinkedLength(s, s.run);
      (Schedule(Enqueue(Leave(s, s.run, s.tcb[s.run].status, s.wheel), s.run)), Ok)
    else (s, YieldNotEnough)
  }

  // Yielding is in order: the running task is in use and not blocked, or nobody else is ready at its
  // priority.
  predicate MayYield(s: Sched)
    requires s.run < |s.tcb| && s.tcb[s.run].prio < |s.lists|
  {
    var c := s.tcb[s.run];
    (!c.status.unused && !Blocked(c.status)) || |s.lists[c.prio]| <= 1
  }

  // Delaying is in order: it is refused, or it is a yield that is in order, or the running task is in use
  // and does not wait.
  predicate MayDelay(s: Sched, ticks: nat, inInt: bool)
    requires s.run < |s.tcb| && s.tcb[s.run].prio < |s.lists|
  {
    var c := s.tcb[s.run].status;
    inInt || s.lock != 0 || if ticks == 0 then MayYield(s) else !c.unused && !Waits(c)
  }

  // LOS_TaskDelay
  function Delay(s: Sched, ticks: nat, inInt: bool): (Sched, Code)
    requires SchedOk(s)
  {
    var c := s.tcb[s.run].status;
    if inInt then (s, DelayInInt)
    else if s.lock != 0 then (s, DelayInLock)
    else if ticks == 0 then Yield(s)
    else
      UnlinkedLength(s, s.run);
      (Schedule(Leave(s, s.run, c.(ready := false, delay := true), s.wheel + {s.run})), Ok)
  }

  // osTaskPriModify
  function PriModify(s: Sched, t: nat, p: nat): Sched
    requires SchedOk(s) && t < |s.tcb| && p < PRIORITYNUM
  {
    var c := s.tcb[t].status;
    if c.ready then
      UnlinkedLength(s, t);
      var x := Leave(s, t, c.(ready := false), s.wheel);
      Enqueue(x.(tcb := x.tcb[t := x.tcb[t].(prio := p)]), t)
    else s.(tcb := s.tcb[t := s.tcb[t].(prio := p)])
  }

  // LOS_TaskPriSet
  function PriSet(s: Sched, t: nat, p: nat, idle: nat): (Sched, Code)
    requires SchedOk(s) && t < |s.tcb|
  {
    if p > LOWEST then (s, PriorError)
    else if t == idle then (s, OperateIdle)
    else if s.tcb[t].status.unused then (s, NotCreated)
    else
      PriModifyLists(s, t, p);
      (if s.tcb[t].status.ready then Schedule(PriModify(s, t, p)) else PriModify(s, t, p), Ok)
  }

  // The running task has put itself on the list of object w; queues insert by priority, the others
  // at the end. It still runs: LOS_Schedule has not been called yet.
  function Queued(s: Sched, w: nat, k: nat, queue: bool, timed: bool): Sched
    requires SchedOk(s) && PRIORITYNUM + w < |s.lists| && k <= |s.lists[PRIORITYNUM + w]|
    requires s.tcb[s.run].status.ready
  {
    var c := s.tcb[s.run].status.(ready := false);
    UnlinkedLength(s, s.run);
    var x := Leave(s, s.run, c, s.wheel);
    var c' := c.(pend := !queue, pendQueue := queue, timeout := timed);
    Join(x, s.run, c', w, k, if timed then s.wheel + {s.run} else s.wheel)
  }

  // The running task blocks on object w.
  function Block(s: Sched, w: nat, k: nat, queue: bool, timed: bool): Sched
    requires SchedOk(s) && PRIORITYNUM + w < |s.lists| && k <= |s.lists[PRIORITYNUM + w]|
    requires s.tcb[s.run].status.ready
  {
    QueuedLength(s, w, k, queue, timed);
    Schedule(Queued(s, w, k, queue, timed))
  }

  // A waiting task gets what it waits for.
  function Wake(s: Sched, t: nat): Sched
    requires SchedOk(s) && t < |s.tcb|
  {
    var c := s.tcb[t].status;
    UnlinkedLength(s, t);
    var x := Leave(s, t, c.(pend := false, pendQueue := false, timeout := false), s.wheel - {t});
    Schedule(ReadyUnlessSuspended(x, t))
  }

  // One round of the loop of osTaskScan: the time of a task on the wheel is up. A waiter keeps
  // its timeout flag, to be read when it runs.
  function Lapse(s: Sched, t: nat): Sched
    requires SchedOk(s) && t < |s.tcb|
  {
    var c := s.tcb[t].status;
    UnlinkedLength(s, t);
    ReadyUnlessSuspended(Leave(s, t, Lapsed(c), s.wheel - {t}), t)
  }

  function Lapsed(c: Status): Status
  {
    if c.pend then c.(pend := false) else if c.pendQueue then c.(pendQueue := false) else c.(delay := false)
  }

  // The same when no other task's time is up: LOS_Schedule follows.
  function Expire(s: Sched, t: nat): Sched
    requires SchedOk(s) && t < |s.tcb|
  {
    UnlinkedLength(s, t);
    Schedule(Lapse(s, t))
  }

  // A task that ran again reads and clears its timeout flag.
  function ReadTimeout(s: Sched): Sched
    requires s.run < |s.tcb|
  {
    var c := s.tcb[s.run];
    s.(tcb := s.tcb[s.run := c.(status := c.status.(timeout := false))])
  }

  // LOS_TaskLock, on a 16-bit count.
  function Lock(s: Sched): Sched { s.(lock := (s.lock + 1) % UINT16) }

  // LOS_TaskUnlock
  function Unlock(s: Sched): Sched
    requires |s.lists| >= PRIORITYNUM
  {
    if s.lock == 0 then s
    else if s.lock == 1 then Schedule(s.(lock := 0))
    else s.(lock := s.lock - 1)
  }

  lemma UnlinkedLength(s: Sched, t: nat)
    requires t < |s.tcb|
    ensures |Unlinked(s, t)| == |s.lists|
  {
  }

  lemma QueuedLength(s: Sched, w: nat, k: nat, queue: bool, timed: bool)
    requires SchedOk(s) && PRIORITYNUM + w < |s.lists| && k <= |s.lists[PRIORITYNUM + w]|
    requires s.tcb[s.run].status.ready
    ensures |Queued(s, w, k, queue, timed).lists| == |s.lists| && Queued(s, w, k, queue, timed).run < |s.tcb|
  {
  }

  lemma SuspendLists(s: Sched, t: nat)
    requires SchedOk(s) && t < |s.tcb|
    ensures |Unlinked(s, t)| == |s.lists| >= PRIORITYNUM
  {
  }

  lemma PriModifyLists(s: Sched, t: nat, p: nat)
    requires SchedOk(s) && t < |s.tcb| && p < PRIORITYNUM
    ensures |PriModify(s, t, p).lists| == |s.lists| >= PRIORITYNUM
  {
  }

  // ---- One task, one place: kept by every call ----------------------------------------------------

  lemma CreateOk(s: Sched, t: nat, p: nat)
    requires SchedOk(s) && t < |s.tcb| && s.tcb[t].status.unused
    ensures SchedOk(Create(s, t, p).0)
  {
    hide OldestFirst;
    if p <= LOWEST {
      var x := s.(tcb := s.tcb[t := Fresh(p)]);
      assert Place(s.tcb[t]) == -1;
      NewTcb(s, t, Fresh(p));
      EnqueueOk(x, t);
      ScheduleOk(Enqueue(x, t));
    }
  }

  // A control block in no list may change.
  lemma NewTcb(s: Sched, t: nat, c: Tcb)
    requires Loose(s, t) && Place(c) == -1 && StatusOk(c.status) && c.prio < PRIORITYNUM
    ensures Loose(s.(tcb := s.tcb[t := c]), t)
  {
    hide OldestFirst;
    NotReadyElsewhere(s, t);
    var x := s.(tcb := s.tcb[t := c]);
    forall p | 0 <= p < PRIORITYNUM
      ensures OldestFirst(x.tcb, x.lists[p], x.clock)
    {
      AbsentOrder(s.tcb, t, c, s.lists[p], s.clock);
    }
  }

  lemma AbsentOrder(tcb: seq<Tcb>, t: nat, c: Tcb, L: seq<nat>, clock: nat)
    requires t < |tcb| && t !in L && OldestFirst(tcb, L, clock)
    ensures OldestFirst(tcb[t := c], L, clock)
  {
  }

  // Bits that have nothing to do with its place may change while a task stays where it is.
  lemma StayOk(s: Sched, t: nat, c: Tcb, wheel: set<nat>)
    requires SchedOk(s) && t < |s.tcb| && Place(c) == Place(s.tcb[t]) && c.since == s.tcb[t].since
    requires StatusOk(c.status) && c.prio < PRIORITYNUM && WheelOk(s.tcb[t := c], wheel)
    ensures SchedOk(s.(tcb := s.tcb[t := c], wheel := wheel))
  {
    hide WheelOk, OldestFirst, Distinct;
    var x := s.(tcb := s.tcb[t := c]);
    forall p | 0 <= p < PRIORITYNUM
      ensures OldestFirst(x.tcb, x.lists[p], x.clock)
    {
      SameOrder(s.tcb, t, c, s.lists[p], s.clock);
    }
  }

  lemma ResumeOk(s: Sched, t: nat)
    requires SchedOk(s) && t < |s.tcb|
    ensures SchedOk(Resume(s, t).0)
  {
    hide OldestFirst, PlacesOk;
    var c := s.tcb[t].status;
    if !c.unused && c.suspend {
      var c' := s.tcb[t].(status := c.(suspend := false));
      StayOk(s, t, c', s.wheel);
      var x := s.(tcb := s.tcb[t := c']);
      if !Blocked(c.(suspend := false)) {
        EnqueueOk(x, t);
        ScheduleOk(Enqueue(x, t));
      }
    }
  }

  lemma SuspendOk(s: Sched, t: nat, idle: nat)
    requires SchedOk(s) && t < |s.tcb|
    ensures SchedOk(Suspend(s, t, idle).0)
  {
    hide OldestFirst, PlacesOk, Unlinked;
    var c := s.tcb[t].status;
    if Suspend(s, t, idle).1 == Ok {
      if c.ready {
        LeaveOk(s, t, c.(ready := false, suspend := true), s.wheel);
        ScheduleOk(Leave(s, t, c.(ready := false, suspend := true), s.wheel));
      } else {
        StayOk(s, t, s.tcb[t].(status := c.(suspend := true)), s.wheel);
        ScheduleOk(s.(tcb := s.tcb[t := s.tcb[t].(status := c.(suspend := true))]));
      }
    }
  }

  lemma DelayOk(s: Sched, ticks: nat, inInt: bool)
    requires SchedOk(s) && s.tcb[s.run].status.ready
    ensures SchedOk(Delay(s, ticks, inInt).0)
  {
    hide OldestFirst, PlacesOk, Unlinked;
    if !inInt && s.lock == 0 {
      if ticks == 0 {
        YieldOk(s);
      } else {
        DelaysOk(s);
      }
    }
  }

  // A running task that is in use and does not wait starts to delay, whether it is ready or not.
  lemma DelaysOk(s: Sched)
    requires SchedOk(s) && !s.tcb[s.run].status.unused && !Waits(s.tcb[s.run].status)
    ensures var c := s.tcb[s.run].status.(ready := false, delay := true);
            && |s.lists| >= PRIORITYNUM && |Unlinked(s, s.run)| == |s.lists|
            && SchedOk(Schedule(Leave(s, s.run, c, s.wheel + {s.run})))
  {
    hide OldestFirst, PlacesOk, Unlinked;
    var c := s.tcb[s.run].status.(ready := false, delay := true);
    UnlinkedLength(s, s.run);
    LeaveOk(s, s.run, c, s.wheel + {s.run});
    ScheduleOk(Leave(s, s.run, c, s.wheel + {s.run}));
  }

  lemma YieldOk(s: Sched)
    requires SchedOk(s) && s.tcb[s.run].status.ready
    ensures SchedOk(Yield(s).0)
  {
    hide OldestFirst, PlacesOk, Unlinked;
    var t, c := s.run, s.tcb[s.run].status;
    if |s.lists[s.tcb[t].prio]| > 1 {
      LeaveOk(s, t, c.(ready := false), s.wheel);
      var x := Leave(s, t, c.(ready := false), s.wheel);
      EnqueueOk(x, t);
      assert Enqueue(Leave(s, t, c, s.wheel), t) == Enqueue(x, t);
      ScheduleOk(Enqueue(x, t));
    }
  }

  lemma PriModifyOk(s: Sched, t: nat, p: nat)
    requires SchedOk(s) && t < |s.tcb| && p < PRIORITYNUM
    ensures SchedOk(PriModify(s, t, p))
  {
    hide OldestFirst, PlacesOk, Unlinked;
    var c := s.tcb[t].status;
    if c.ready {
      var x := Leave(s, t, c.(ready := false), s.wheel);
      LeaveOk(s, t, c.(ready := false), s.wheel);
      NewTcb(x, t, x.tcb[t].(prio := p));
      EnqueueOk(x.(tcb := x.tcb[t := x.tcb[t].(prio := p)]), t);
    } else {
      StayOk(s, t, s.tcb[t].(prio := p), s.wheel);
    }
  }

  lemma PriSetOk(s: Sched, t: nat, p: nat, idle: nat)
    requires SchedOk(s) && t < |s.tcb|
    ensures SchedOk(PriSet(s, t, p, idle).0)
  {
    hide SchedOk;
    if PriSet(s, t, p, idle).1 == Ok {
      PriModifyOk(s, t, p);
      if s.tcb[t].status.ready {
        PriModifyLists(s, t, p);
        ScheduleOk(PriModify(s, t, p));
      }
    }
  }

  lemma QueuedOk(s: Sched, w: nat, k: nat, queue: bool, timed: bool)
    requires SchedOk(s) && PRIORITYNUM + w < |s.lists| && k <= |s.lists[PRIORITYNUM + w]|
    requires s.tcb[s.run].status.ready && !s.tcb[s.run].status.timeout
    ensures SchedOk(Queued(s, w, k, queue, timed))
  {
    hide OldestFirst, PlacesOk, Unlinked;
    var c, t := s.tcb[s.run].status.(ready := false), s.run;
    var c' := c.(pend := !queue, pendQueue := queue, timeout := timed);
    LeaveOk(s, t, c, s.wheel);
    UnlinkedElsewhere(s, t, w);
    JoinOk(Leave(s, t, c, s.wheel), t, c', w, k, if timed then s.wheel + {t} else s.wheel);
  }

  lemma BlockOk(s: Sched, w: nat, k: nat, queue: bool, timed: bool)
    requires SchedOk(s) && PRIORITYNUM + w < |s.lists| && k <= |s.lists[PRIORITYNUM + w]|
    requires s.tcb[s.run].status.ready && !s.tcb[s.run].status.timeout
    ensures SchedOk(Block(s, w, k, queue, timed))
  {
    hide Queued, TcbsOk, PlacesOk, WheelOk, ReadyOk, Schedule;
    QueuedOk(s, w, k, queue, timed);
    QueuedLength(s, w, k, queue, timed);
    ScheduleOk(Queued(s, w, k, queue, timed));
  }

  lemma UnlinkedElsewhere(s: Sched, t: nat, w: nat)
    requires SchedOk(s) && t < |s.tcb| && s.tcb[t].status.ready && PRIORITYNUM + w < |s.lists|
    ensures |Unlinked(s, t)| == |s.lists| && Unlinked(s, t)[PRIORITYNUM + w] == s.lists[PRIORITYNUM + w]
  {
  }

  lemma WakeOk(s: Sched, t: nat)
    requires SchedOk(s) && t < |s.tcb| && Waits(s.tcb[t].status)
    ensures SchedOk(Wake(s, t))
  {
    hide OldestFirst, PlacesOk, Unlinked;
    var c := s.tcb[t].status.(pend := false, pendQueue := false, timeout := false);
    LeaveOk(s, t, c, s.wheel - {t});
    var x := Leave(s, t, c, s.wheel - {t});
    if !c.suspend {
      EnqueueOk(x, t);
    }
    ScheduleOk(ReadyUnlessSuspended(x, t));
  }

  lemma LapseOk(s: Sched, t: nat)
    requires SchedOk(s) && t in s.wheel
    ensures t < |s.tcb| && SchedOk(Lapse(s, t))
  {
    hide OldestFirst, PlacesOk, Unlinked;
    var c := Lapsed(s.tcb[t].status);
    LeaveOk(s, t, c, s.wheel - {t});
    if !c.suspend {
      EnqueueOk(Leave(s, t, c, s.wheel - {t}), t);
    }
  }

  lemma ExpireOk(s: Sched, t: nat)
    requires SchedOk(s) && t in s.wheel
    ensures t < |s.tcb| && SchedOk(Expire(s, t))
  {
    LapseOk(s, t);
    hide SchedOk, Lapse, Schedule;
    ScheduleOk(Lapse(s, t));
  }

  lemma ReadTimeoutOk(s: Sched)
    requires SchedOk(s) && s.tcb[s.run].status.ready
    ensures SchedOk(ReadTimeout(s))
  {
    hide OldestFirst, PlacesOk;
    var c := s.tcb[s.run];
    StayOk(s, s.run, c.(status := c.status.(timeout := false)), s.wheel);
  }

  lemma UnlockOk(s: Sched)
    requires SchedOk(s)
    ensures SchedOk(Unlock(s)) && SchedOk(Lock(s))
  {
    hide OldestFirst, PlacesOk;
    if s.lock == 1 {
      ScheduleOk(s.(lock := 0));
    }
  }
}

// When each operation of the scheduler succeeds, what it does to the control block of its task and to the
// wait lists, and to the others: nothing.

module SchedEffects {
  import opened Lists
  import opened SchedModel
  import opened SchedOps

  // Ready, or suspended; in no wait list and not delaying.
  predicate Runnable(c: Status) {
    !c.unused && !c.delay && !Waits(c) && (c.ready <==> !c.suspend)
  }

  // The priorities as an IPC object sees them.
  ghost predicate PriosOk(tcb: seq<Tcb>, prio: seq<nat>) {
    |prio| == |tcb| && forall t :: 0 <= t < |tcb| ==> prio[t] == tcb[t].prio
  }

  lemma PrioIs(s: Sched, prio: seq<nat>, t: nat)
    requires PriosOk(s.tcb, prio) && t < |s.tcb|
    ensures prio[t := s.tcb[t].prio] == prio
  {
  }

  // Only the control block of t changed.
  ghost predicate OnlyTask(s: Sched, z: Sched, t: nat) {
    |z.tcb| == |s.tcb| && forall u :: 0 <= u < |s.tcb| && u != t ==> z.tcb[u] == s.tcb[u]
  }

  ghost predicate SameWaitLists(s: Sched, z: Sched) {
    |z.lists| == |s.lists| && forall i :: PRIORITYNUM <= i < |s.lists| ==> z.lists[i] == s.lists[i]
  }

  // Every wait list but that of object w.
  ghost predicate OtherWaitLists(s: Sched, z: Sched, w: nat) {
    && |z.lists| == |s.lists|
    && forall i :: PRIORITYNUM <= i < |s.lists| && i != PRIORITYNUM + w ==> z.lists[i] == s.lists[i]
  }

  // Which list a task leaves, and what becomes of its bits.
  lemma LeaveEffect(s: Sched, t: nat, c: Status, wheel: set<nat>)
    requires SchedOk(s) && t < |s.tcb|
    ensures var (b, z) := (s.tcb[t], Leave(s, t, c, wheel));
            && OnlyTask(s, z, t) && |z.lists| == |s.lists| && b.prio < PRIORITYNUM
            && z.tcb[t].status == c && z.tcb[t].prio == b.prio
            && (if Waits(b.status) then
                  && PRIORITYNUM + b.target < |s.lists| && OtherWaitLists(s, z, b.target)
                  && z.lists[PRIORITYNUM + b.target] == Without(s.lists[PRIORITYNUM + b.target], t)
                else SameWaitLists(s, z))
  {
    hide PlacesOk, WheelOk, ReadyOk, Without;
  }

  lemma EnqueueEffect(s: Sched, t: nat)
    requires t < |s.tcb| && s.tcb[t].prio < PRIORITYNUM <= |s.lists|
    ensures var z := ReadyUnlessSuspended(s, t);
            && OnlyTask(s, z, t) && SameWaitLists(s, z) && z.tcb[t].prio == s.tcb[t].prio
            && (!s.tcb[t].status.ready ==>
                  z.tcb[t].status == s.tcb[t].status.(ready := !s.tcb[t].status.suspend))
  {
  }

  lemma ScheduleEffect(s: Sched)
    requires |s.lists| >= PRIORITYNUM
    ensures Schedule(s).tcb == s.tcb && Schedule(s).lists == s.lists
  {
  }

  lemma StatusIsOk(s: Sched, t: nat)
    requires SchedOk(s) && t < |s.tcb|
    ensures StatusOk(s.tcb[t].status) && s.tcb[t].prio < PRIORITYNUM <= |s.lists|
  {
  }

  lemma WakeEffect(s: Sched, t: nat)
    requires SchedOk(s) && t < |s.tcb| && Waits(s.tcb[t].status)
    ensures var (c, z) := (s.tcb[t], Wake(s, t));
            && SchedOk(z) && OnlyTask(s, z, t) && OtherWaitLists(s, z, c.target)
            && PRIORITYNUM + c.target < |s.lists|
            && z.lists[PRIORITYNUM + c.target] == Without(s.lists[PRIORITYNUM + c.target], t)
            && z.tcb[t].prio == c.prio
            && z.tcb[t].status ==
               c.status.(pend := false, pendQueue := false, timeout := false, ready := !c.status.suspend)
  {
    hide SchedOk, Leave, ReadyUnlessSuspended, Schedule, Without;
    var c := s.tcb[t].status;
    var c' := c.(pend := false, pendQueue := false, timeout := false);
    StatusIsOk(s, t);
    WakeOk(s, t);
    UnlinkedLength(s, t);
    LeaveEffect(s, t, c', s.wheel - {t});
    var x := Leave(s, t, c', s.wheel - {t});
    EnqueueEffect(x, t);
    ScheduleEffect(ReadyUnlessSuspended(x, t));
  }

  lemma ExpireEffect(s: Sched, t: nat)
    requires SchedOk(s) && t in s.wheel
    ensures t < |s.tcb|
    ensures var (c, z) := (s.tcb[t], Expire(s, t));
            && SchedOk(z) && OnlyTask(s, z, t) && z.tcb[t].prio == c.prio
            && (if Waits(c.status) then
                  && OtherWaitLists(s, z, c.target) && PRIORITYNUM + c.target < |s.lists|
                  && z.lists[PRIORITYNUM + c.target] == Without(s.lists[PRIORITYNUM + c.target], t)
                  && z.tcb[t].status == c.status.(pend := false, pendQueue := false, ready := !c.status.suspend)
                else SameWaitLists(s, z))
  {
    hide SchedOk, Leave, ReadyUnlessSuspended, Schedule, Without;
    ExpireOk(s, t);
    StatusIsOk(s, t);
    var c := s.tcb[t].status;
    var c' := if c.pend then c.(pend := false)
              else if c.pendQueue then c.(pendQueue := false) else c.(delay := false);
    UnlinkedLength(s, t);
    LeaveEffect(s, t, c', s.wheel - {t});
    var x := Leave(s, t, c', s.wheel - {t});
    EnqueueEffect(x, t);
    ScheduleEffect(ReadyUnlessSuspended(x, t));
  }

  lemma BlockEffect(s: Sched, w: nat, k: nat, queue: bool, timed: bool)
    requires SchedOk(s) && s.tcb[s.run].status.ready && !s.tcb[s.run].status.timeout
    requires PRIORITYNUM + w < |s.lists| && k <= |s.lists[PRIORITYNUM + w]|
    ensures var (c, L, z) := (s.tcb[s.run], s.lists[PRIORITYNUM + w], Block(s, w, k, queue, timed));
            && SchedOk(z) && OnlyTask(s, z, s.run) && OtherWaitLists(s, z, w)
            && z.lists[PRIORITYNUM + w] == L[..k] + [s.run] + L[k..]
            && z.tcb[s.run].prio == c.prio
            && z.tcb[s.run].status ==
               c.status.(ready := false, pend := !queue, pendQueue := queue, timeout := timed)
  {
    BlockOk(s, w, k, queue, timed);
    var c := s.tcb[s.run].status.(ready := false);
    LeaveEffect(s, s.run, c, s.wheel);
    QueuedLength(s, w, k, queue, timed);
    ScheduleEffect(Queued(s, w, k, queue, timed));
    assert StatusOk(s.tcb[s.run].status);
    hide SchedOk, Leave, Schedule;
  }

  // LOS_TaskSuspend succeeds exactly on a task in use that is not suspended, not the idle task and not the
  // running one under lock. It is suspended then, and ready no longer.
  lemma SuspendEffect(s: Sched, t: nat, idle: nat)
    requires SchedOk(s) && t < |s.tcb|
    ensures var (c, z, code) := (s.tcb[t], Suspend(s, t, idle).0, Suspend(s, t, idle).1);
            && (code == Ok <==> t != idle && !c.status.unused && !c.status.suspend && (t == s.run ==> s.lock == 0))
            && (code == OperateIdle <==> t == idle)
            && (code == NotCreated <==> t != idle && c.status.unused)
            && (code == AlreadySuspended <==> t != idle && c.status.suspend)
            && SchedOk(z) && OnlyTask(s, z, t) && SameWaitLists(s, z) && z.tcb[t].prio == c.prio
            && z.tcb[t].status == (if code == Ok then c.status.(ready := false, suspend := true) else c.status)
            && (code != Ok ==> z == s)
  {
    SuspendOk(s, t, idle);
    StatusIsOk(s, t);
    SuspendLists(s, t);
    var c := s.tcb[t].status;
    LeaveEffect(s, t, c.(ready := false, suspend := true), s.wheel);
    ScheduleEffect(Leave(s, t, c.(ready := false, suspend := true), s.wheel));
    ScheduleEffect(s.(tcb := s.tcb[t := s.tcb[t].(status := c.(suspend := true))]));
    hide SchedOk, Leave, Schedule, Without;
  }

  // LOS_TaskResume succeeds exactly on a task in use that is suspended. It is not then; it is ready exactly
  // if it neither waits nor delays; its other bits stay.
  lemma ResumeEffect(s: Sched, t: nat)
    requires SchedOk(s) && t < |s.tcb|
    ensures var (c, z, code) := (s.tcb[t], Resume(s, t).0, Resume(s, t).1);
            && (code == Ok <==> !c.status.unused && c.status.suspend)
            && (code == NotCreated <==> c.status.unused)
            && SchedOk(z) && OnlyTask(s, z, t) && SameWaitLists(s, z) && z.tcb[t].prio == c.prio
            && (code == Ok ==>
                  && !z.tcb[t].status.suspend
                  && (z.tcb[t].status.ready <==> !c.status.delay && !c.status.pend && !c.status.pendQueue)
                  && z.tcb[t].status == c.status.(suspend := false, ready := z.tcb[t].status.ready))
            && (code != Ok ==> z == s && (code == NotCreated || code == NotSuspended))
  {
    ResumeOk(s, t);
    StatusIsOk(s, t);
    hide SchedOk, TopFrom, Without;
  }

  // osTaskPriModify
  lemma PriModifyEffect(s: Sched, t: nat, p: nat)
    requires SchedOk(s) && t < |s.tcb| && p < PRIORITYNUM
    ensures |PriModify(s, t, p).lists| >= PRIORITYNUM
    ensures var (c, z) := (s.tcb[t], PriModify(s, t, p));
            && SchedOk(z) && OnlyTask(s, z, t) && SameWaitLists(s, z)
            && z.tcb[t].prio == p && z.tcb[t].status == c.status
  {
    hide SchedOk, Leave;
    PriModifyOk(s, t, p);
    StatusIsOk(s, t);
    PriModifyLists(s, t, p);
    LeaveEffect(s, t, s.tcb[t].status.(ready := false), s.wheel);
  }

  // LOS_TaskPriSet succeeds exactly on a task in use that is not the idle task, for a priority that exists.
  lemma PriSetEffect(s: Sched, t: nat, p: nat, idle: nat)
    requires SchedOk(s) && t < |s.tcb|
    ensures var (z, code) := PriSet(s, t, p, idle);
            && (code == Ok <==> p < PRIORITYNUM && t != idle && !s.tcb[t].status.unused)
            && (code == PriorError <==> p >= PRIORITYNUM)
            && SchedOk(z) && OnlyTask(s, z, t) && SameWaitLists(s, z) && z.tcb[t].status == s.tcb[t].status
            && z.tcb[t].prio == (if code == Ok then p else s.tcb[t].prio)
            && (code != Ok ==> z == s)
  {
    hide SchedOk, PriModify, Schedule;
    PriSetOk(s, t, p, idle);
    if p <= LOWEST {
      PriModifyEffect(s, t, p);
      ScheduleEffect(PriModify(s, t, p));
    }
  }

  // Some other task of the priority of t is ready.
  ghost predicate Rival(s: Sched, t: nat)
    requires t < |s.tcb|
  {
    exists u :: 0 <= u < |s.tcb| && u != t && s.tcb[u].status.ready && s.tcb[u].prio == s.tcb[t].prio
  }

  lemma RivalIff(s: Sched, t: nat)
    requires SchedOk(s) && t < |s.tcb| && s.tcb[t].status.ready
    ensures s.tcb[t].prio < |s.lists| && (Rival(s, t) <==> |s.lists[s.tcb[t].prio]| > 1)
  {
    var L := s.lists[s.tcb[t].prio];
    assert t in L;
    hide WheelOk, OldestFirst;
    if |L| > 1 {
      var u := if L[0] == t then L[1] else L[0];
      assert u in L && Place(s.tcb[u]) == s.tcb[t].prio;
    }
    if u :| 0 <= u < |s.tcb| && u != t && s.tcb[u].status.ready && s.tcb[u].prio == s.tcb[t].prio {
      assert u in L;
      TwoMembers(L, t, u);
    }
  }

  lemma TwoMembers(L: seq<nat>, t: nat, u: nat)
    requires t in L && u in L && t != u
    ensures |L| > 1
  {
    var i :| 0 <= i < |L| && L[i] == t;
    var j :| 0 <= j < |L| && L[j] == u;
  }

  // LOS_TaskYield succeeds exactly if another task of the same priority is ready; all that changes for the
  // running task is that it is now the one that became ready last.
  lemma YieldEffect(s: Sched)
    requires SchedOk(s) && s.tcb[s.run].status.ready
    ensures var (z, code) := Yield(s);
            && (code == Ok <==> Rival(s, s.run)) && (code != Ok ==> z == s && code == YieldNotEnough)
            && SchedOk(z) && OnlyTask(s, z, s.run) && SameWaitLists(s, z)
            && z.tcb[s.run].prio == s.tcb[s.run].prio && z.tcb[s.run].status == s.tcb[s.run].status
            && (code == Ok ==> forall u :: 0 <= u < |s.tcb| && u != s.run && s.tcb[u].status.ready ==>
                  z.tcb[u].since < z.tcb[s.run].since)
  {
    YieldOk(s);
    RivalIff(s, s.run);
    if Yield(s).1 == Ok {
      StampsPast(s);
    }
    hide SchedOk, PlacesOk, WheelOk, OldestFirst, TopFrom, Without, Rival;
  }

  // Who is ready became ready in the past.
  lemma StampsPast(s: Sched)
    requires SchedOk(s)
    ensures forall u :: 0 <= u < |s.tcb| && s.tcb[u].status.ready ==> s.tcb[u].since < s.clock
  {
    forall u | 0 <= u < |s.tcb| && s.tcb[u].status.ready
      ensures s.tcb[u].since < s.clock
    {
      assert u in s.lists[s.tcb[u].prio];
      assert OldestFirst(s.tcb, s.lists[s.tcb[u].prio], s.clock);
    }
  }

  lemma ReadTimeoutEffect(s: Sched)
    requires SchedOk(s) && s.tcb[s.run].status.ready
    ensures var z := ReadTimeout(s);
            && SchedOk(z) && OnlyTask(s, z, s.run) && SameWaitLists(s, z) && z.tcb[s.run].prio == s.tcb[s.run].prio
            && z.tcb[s.run].status == s.tcb[s.run].status.(timeout := false)
  {
    ReadTimeoutOk(s);
  }

  // LOS_TaskDelay is refused in interrupts and under lock; for 0 ticks it yields; otherwise the running task
  // is ready no longer and delays.
  lemma DelayEffect(s: Sched, ticks: nat, inInt: bool)
    requires SchedOk(s) && s.tcb[s.run].status.ready && !s.tcb[s.run].status.timeout
    ensures var (c, z, code) := (s.tcb[s.run], Delay(s, ticks, inInt).0, Delay(s, ticks, inInt).1);
            && SchedOk(z) && OnlyTask(s, z, s.run) && SameWaitLists(s, z) && z.tcb[s.run].prio == c.prio
            && (code == DelayInInt <==> inInt) && (code == DelayInLock <==> !inInt && s.lock != 0)
            && (inInt || s.lock != 0 ==> z == s)
            && (!inInt && s.lock == 0 ==>
                  if ticks == 0 then (z, code) == Yield(s)
                  else code == Ok && z.tcb[s.run].status == c.status.(ready := false, delay := true))
  {
    DelayOk(s, ticks, inInt);
    YieldEffect(s);
    hide SchedOk, Leave, Yield, Schedule, Rival;
    var c := s.tcb[s.run].status.(ready := false, delay := true);
    StatusIsOk(s, s.run);
    LeaveEffect(s, s.run, c, s.wheel + {s.run});
    ScheduleEffect(Leave(s, s.run, c, s.wheel + {s.run}));
  }

  // LOS_TaskCreate succeeds exactly for a priority that exists; the task has it, and is ready.
  lemma CreateEffect(s: Sched, t: nat, p: nat)
    requires SchedOk(s) && t < |s.tcb| && s.tcb[t].status.unused
    ensures var (z, code) := Create(s, t, p);
            && (code == Ok <==> p < PRIORITYNUM) && (code != Ok ==> z == s && code == PriorError)
            && SchedOk(z) && OnlyTask(s, z, t) && SameWaitLists(s, z)
            && (code == Ok ==>
                  && z.tcb[t].prio == p
                  && z.tcb[t].status == Status(false, false, true, false, false, false, false))
  {
    CreateOk(s, t, p);
    hide PlacesOk, WheelOk, OldestFirst, TopFrom;
  }

  lemma OnWheelBits(s: Sched, t: nat)
    requires SchedOk(s) && t in s.wheel
    ensures t < |s.tcb| && OnWheel(s.tcb[t].status)
  {
  }

  lemma MemberWaits(s: Sched, v: nat, t: nat)
    requires SchedOk(s) && PRIORITYNUM + v < |s.lists| && t in s.lists[PRIORITYNUM + v]
    ensures t < |s.tcb| && Waits(s.tcb[t].status) && s.tcb[t].target == v && StatusOk(s.tcb[t].status)
  {
    assert Place(s.tcb[t]) == PRIORITYNUM + v;
  }
}

// Who runs: after every call that matters the best ready task, the one that has been ready longest if
// there are several; and when no call in between can spoil that.

module SchedChoice {
  import opened Lists
  import opened SchedModel
  import opened SchedOps
  import opened SchedLaws
  import opened SchedEffects

  // The running task is ready, none has a better priority, and none of the same has been ready longer.
  ghost predicate BestRuns(s: Sched) {
    && s.run < |s.tcb| && s.tcb[s.run].status.ready
    && forall u :: 0 <= u < |s.tcb| && s.tcb[u].status.ready && u != s.run ==> Ahead(s.tcb[s.run], s.tcb[u])
  }

  predicate Ahead(c: Tcb, d: Tcb) {
    c.prio < d.prio || (c.prio == d.prio && c.since < d.since)
  }

  // The running task is ready no longer, or another task has become ready.
  ghost predicate ReadyChanged(s: Sched, z: Sched) {
    && s.run < |s.tcb| == |z.tcb|
    && ((s.tcb[s.run].status.ready && !z.tcb[s.run].status.ready)
        || exists u :: 0 <= u < |s.tcb| && !s.tcb[u].status.ready && z.tcb[u].status.ready)
  }

  // LOS_Schedule would change nothing.
  predicate Settled(s: Sched) {
    |s.lists| >= PRIORITYNUM && (s.lock == 0 ==> Schedule(s) == s)
  }

  lemma SettledBest(s: Sched, idle: nat)
    requires SchedOk(s) && IdleOk(s, idle) && Settled(s) && s.lock == 0
    ensures BestRuns(s)
  {
    hide SchedOk, Schedule;
    ScheduleChoosesOldestBest(s, idle);
    forall u | 0 <= u < |s.tcb| && s.tcb[u].status.ready && u != s.run
      ensures Ahead(s.tcb[s.run], s.tcb[u])
    {
      ScheduleChoosesOldestBest(s, u);
    }
  }

  lemma ScheduleSettles(s: Sched)
    requires |s.lists| >= PRIORITYNUM
    ensures Settled(Schedule(s))
  {
  }

  lemma SuspendSchedules(s: Sched, t: nat, idle: nat)
    requires SchedOk(s) && t < |s.tcb|
    ensures var z := Suspend(s, t, idle).0;
            if t == s.run then Settled(z) || z == s else z.run == s.run && z.lock == s.lock
  {
    SuspendLists(s, t);
    var c := s.tcb[t].status;
    ScheduleSettles(Leave(s, t, c.(ready := false, suspend := true), s.wheel));
    ScheduleSettles(s.(tcb := s.tcb[t := s.tcb[t].(status := c.(suspend := true))]));
    hide SchedOk, Schedule, Settled, Unlinked;
  }

  lemma ResumeSchedules(s: Sched, t: nat)
    requires SchedOk(s) && t < |s.tcb|
    ensures var z := Resume(s, t).0;
            Settled(z) || z == s
            || (z.run == s.run && z.lock == s.lock && !z.tcb[t].status.ready && !s.tcb[t].status.ready)
  {
    StatusIsOk(s, t);
    var c := s.tcb[t].status;
    var x := s.(tcb := s.tcb[t := s.tcb[t].(status := c.(suspend := false))]);
    ScheduleSettles(Enqueue(x, t));
    hide SchedOk, Schedule, Settled;
  }

  // Blocking, waking, timing out and creating a task end with LOS_Schedule.
  lemma OthersSchedule(s: Sched, e: Step, idle: nat)
    requires SchedOk(s) && Enabled(s, e, idle) && (e.BlockStep? || e.WakeStep? || e.ExpireStep?)
    ensures Settled(Do(s, e, idle))
  {
    match e
    case BlockStep(w, k, queue, timed) =>
      QueuedLength(s, w, k, queue, timed);
      ScheduleSettles(Queued(s, w, k, queue, timed));
    case WakeStep(t) =>
      var c := s.tcb[t].status;
      UnlinkedLength(s, t);
      StatusIsOk(s, t);
      ScheduleSettles(ReadyUnlessSuspended(
        Leave(s, t, c.(pend := false, pendQueue := false, timeout := false), s.wheel - {t}), t));
    case ExpireStep(t) =>
      UnlinkedLength(s, t);
      StatusIsOk(s, t);
      LapseLists(s, t);
      ScheduleSettles(Lapse(s, t));
    hide SchedOk, Schedule, Settled, Queued, Leave, Lapse;
  }

  lemma LapseLists(s: Sched, t: nat)
    requires SchedOk(s) && t < |s.tcb|
    ensures |Lapse(s, t).lists| == |s.lists| >= PRIORITYNUM
  {
    UnlinkedLength(s, t);
    hide PlacesOk, WheelOk, OldestFirst, Unlinked;
  }

  lemma CreateSchedules(s: Sched, t: nat, p: nat)
    requires SchedOk(s) && t < |s.tcb|
    ensures Settled(Create(s, t, p).0) || Create(s, t, p).0 == s
  {
    StatusIsOk(s, t);
    if p <= LOWEST {
      ScheduleSettles(Enqueue(s.(tcb := s.tcb[t := Fresh(p)]), t));
    }
    hide SchedOk, Schedule, Settled;
  }

  lemma YieldSchedules(s: Sched)
    requires SchedOk(s)
    ensures |s.lists| >= PRIORITYNUM && s.tcb[s.run].prio < |s.lists|
    ensures Settled(Yield(s).0) || Yield(s).0 == s
  {
    StatusIsOk(s, s.run);
    UnlinkedLength(s, s.run);
    ScheduleSettles(Enqueue(Leave(s, s.run, s.tcb[s.run].status, s.wheel), s.run));
    hide SchedOk, Schedule, Settled;
  }

  lemma DelaySchedules(s: Sched, ticks: nat, inInt: bool)
    requires SchedOk(s)
    ensures Settled(Delay(s, ticks, inInt).0) || Delay(s, ticks, inInt).0 == s
  {
    StatusIsOk(s, s.run);
    UnlinkedLength(s, s.run);
    YieldSchedules(s);
    ScheduleSettles(Leave(s, s.run, s.tcb[s.run].status.(ready := false, delay := true), s.wheel + {s.run}));
    hide SchedOk, Schedule, Settled, Yield;
  }

  lemma PriSetSchedules(s: Sched, t: nat, p: nat, idle: nat)
    requires SchedOk(s) && t < |s.tcb|
    ensures var z := PriSet(s, t, p, idle).0;
            Settled(z) || (z.run == s.run && z.lock == s.lock && (s.tcb[t].status.ready ==> z == s))
  {
    if p <= LOWEST {
      PriModifyLists(s, t, p);
      ScheduleSettles(PriModify(s, t, p));
    }
    hide SchedOk, Schedule, Settled, Enqueue, Leave;
  }

  // The same tasks are ready, and the running one goes on running.
  ghost predicate SameReady(s: Sched, z: Sched) {
    && s.run < |s.tcb| == |z.tcb| && z.run == s.run && z.lock == s.lock
    && forall u :: 0 <= u < |s.tcb| ==> z.tcb[u].status.ready == s.tcb[u].status.ready
  }

  // The running task goes on, and nobody else has become ready or more urgent.
  ghost predicate Calm(s: Sched, z: Sched) {
    && s.run < |s.tcb| == |z.tcb| && z.run == s.run && z.lock == s.lock && z.tcb[s.run].status.ready
    && forall u :: 0 <= u < |s.tcb| && z.tcb[u].status.ready ==>
         s.tcb[u].status.ready && z.tcb[u].prio == s.tcb[u].prio && z.tcb[u].since == s.tcb[u].since
  }

  lemma ResumeCalm(s: Sched, t: nat)
    requires SchedOk(s) && t < |s.tcb| && s.tcb[s.run].status.ready
    ensures Settled(Resume(s, t).0) || Calm(s, Resume(s, t).0)
  {
    ResumeEffect(s, t);
    ResumeSchedules(s, t);
    assert s.run < |s.tcb|;
    hide SchedOk, Settled, Resume;
  }

  lemma SuspendCalm(s: Sched, t: nat, idle: nat)
    requires SchedOk(s) && t < |s.tcb| && s.tcb[s.run].status.ready
    ensures Settled(Suspend(s, t, idle).0) || Calm(s, Suspend(s, t, idle).0)
  {
    SuspendEffect(s, t, idle);
    SuspendSchedules(s, t, idle);
    SuspendStamps(s, t, idle);
    assert s.run < |s.tcb|;
    hide SchedOk, Settled, Suspend;
  }

  lemma PriSetCalm(s: Sched, t: nat, p: nat, idle: nat)
    requires SchedOk(s) && t < |s.tcb| && s.tcb[s.run].status.ready
    ensures Settled(PriSet(s, t, p, idle).0) || Calm(s, PriSet(s, t, p, idle).0)
  {
    PriSetEffect(s, t, p, idle);
    PriSetSchedules(s, t, p, idle);
    assert s.run < |s.tcb|;
    hide SchedOk, Settled, PriSet;
  }

  lemma PriModifySame(s: Sched, t: nat, p: nat)
    requires SchedOk(s) && t < |s.tcb| && p < PRIORITYNUM
    ensures SameReady(s, PriModify(s, t, p))
  {
    PriModifyEffect(s, t, p);
    PriModifyRun(s, t, p);
    assert s.run < |s.tcb|;
    hide SchedOk, PriModify;
  }

  // LOS_Schedule comes last, or there is nothing for it to do, but when a priority is lent or given back
  // and when the lock changes.
  ghost predicate Settles(s: Sched, e: Step, z: Sched) {
    if e.PriModifyStep? then SameReady(s, z)
    else Settled(z) || Calm(s, z) || (z == s.(lock := z.lock) && (e.LockStep? || z.lock > 0))
  }

  lemma StepSettles(s: Sched, e: Step, idle: nat)
    requires SchedOk(s) && Enabled(s, e, idle) && s.tcb[s.run].status.ready
    ensures Settles(s, e, Do(s, e, idle))
  {
    assert s.run < |s.tcb|;
    CalmSelf(s);
    hide SchedOk, Settled, Calm, SameReady;
    hide Create, Resume, Suspend, Yield, Delay, PriSet, PriModify, Block, Wake, Expire, ReadTimeout, Unlock;
    match e
    case CreateStep(t, p) => CreateSchedules(s, t, p);
    case ResumeStep(t) => ResumeCalm(s, t);
    case SuspendStep(t) => SuspendCalm(s, t, idle);
    case YieldStep => YieldSchedules(s);
    case DelayStep(ticks, inInt) => DelaySchedules(s, ticks, inInt);
    case PriSetStep(t, p) => PriSetCalm(s, t, p, idle);
    case PriModifyStep(t, p) => PriModifySame(s, t, p);
    case BlockStep(w, k, queue, timed) => OthersSchedule(s, e, idle);
    case WakeStep(t) => OthersSchedule(s, e, idle);
    case ExpireStep(t) => OthersSchedule(s, e, idle);
    case ReadTimeoutStep => ReadTimeoutCalm(s);
    case LockStep =>
    case UnlockStep => UnlockSchedules(s);
  }

  lemma CalmSelf(s: Sched)
    requires s.run < |s.tcb| && s.tcb[s.run].status.ready
    ensures Calm(s, s)
  {
  }

  lemma ReadTimeoutCalm(s: Sched)
    requires s.run < |s.tcb| && s.tcb[s.run].status.ready
    ensures Calm(s, ReadTimeout(s))
  {
  }

  lemma SuspendStamps(s: Sched, t: nat, idle: nat)
    requires SchedOk(s) && t < |s.tcb|
    ensures var z := Suspend(s, t, idle).0; |z.tcb| == |s.tcb| && z.tcb[t].since == s.tcb[t].since
  {
    SuspendLists(s, t);
    hide SchedOk, Unlinked, TopFrom;
  }

  lemma PriModifyRun(s: Sched, t: nat, p: nat)
    requires SchedOk(s) && t < |s.tcb| && p < PRIORITYNUM
    ensures var z := PriModify(s, t, p);
            && z.run == s.run && z.lock == s.lock && |z.tcb| == |s.tcb|
            && (s.tcb[t].status.ready ==> z.tcb[t].since == s.clock)
  {
    UnlinkedLength(s, t);
    hide SchedOk, Unlinked;
  }

  lemma UnlockSchedules(s: Sched)
    requires SchedOk(s)
    ensures Settled(Unlock(s)) || Unlock(s) == s || (s.lock > 1 && Unlock(s) == s.(lock := s.lock - 1))
  {
    StatusIsOk(s, s.run);
    ScheduleSettles(s.(lock := 0));
    hide SchedOk, Schedule, Settled;
  }

  // Whatever a step is: if the running task has stopped being ready, or some task has become ready, and the
  // scheduler is not locked, the best task runs.
  lemma ChangesAreScheduled(s: Sched, e: Step, idle: nat)
    requires SchedOk(s) && Enabled(s, e, idle) && IdleOk(s, idle) && s.tcb[s.run].status.ready
    requires Do(s, e, idle).lock == 0 && ReadyChanged(s, Do(s, e, idle))
    ensures BestRuns(Do(s, e, idle))
  {
    hide SchedOk, Do, Enabled, IdleOk, Settled, BestRuns;
    StepSettles(s, e, idle);
    DoOk(s, e, idle);
    DoKeepsIdle(s, e, idle);
    if Settled(Do(s, e, idle)) {
      SettledBest(Do(s, e, idle), idle);
    }
  }

  // ---- When the best task goes on running -----------------------------------------------------

  // Lending a ready task a priority, or giving it back, may spoil it: it must leave the running task in
  // front, all by itself if it is the one. So may a wrap of the 16-bit lock count.
  ghost predicate Keeps(s: Sched, e: Step)
    requires SchedOk(s)
  {
    match e
    case PriModifyStep(t, p) =>
      s.lock == 0 && t < |s.tcb| && s.tcb[t].status.ready ==>
        if t == s.run then forall u :: 0 <= u < |s.tcb| && u != t && s.tcb[u].status.ready ==> p < s.tcb[u].prio
        else s.tcb[s.run].prio <= p
    case LockStep => (s.lock + 1) % UINT16 != 0 || BestRuns(s)
    case _ => true
  }

  // The running task is ready, and unless the scheduler is locked it is the best one.
  ghost predicate InOrder(s: Sched) {
    s.run < |s.tcb| && s.tcb[s.run].status.ready && (s.lock == 0 ==> BestRuns(s))
  }

  lemma CalmBest(s: Sched, z: Sched)
    requires BestRuns(s) && Calm(s, z)
    ensures BestRuns(z)
  {
  }

  lemma PriModifyBestIff(s: Sched, t: nat, p: nat)
    requires SchedOk(s) && t < |s.tcb| && p < PRIORITYNUM && BestRuns(s) && s.lock == 0
    ensures BestRuns(PriModify(s, t, p)) <==> Keeps(s, PriModifyStep(t, p))
  {
    PriModifyEffect(s, t, p);
    PriModifyRun(s, t, p);
    StampsPast(s);
    var z := PriModify(s, t, p);
    hide SchedOk, PriModify;
    if s.tcb[t].status.ready {
      if t == s.run {
        assert BestRuns(z) <==>
               forall u :: 0 <= u < |s.tcb| && s.tcb[u].status.ready && u != t ==> Ahead(z.tcb[t], s.tcb[u]);
      } else {
        assert BestRuns(z) ==> Ahead(s.tcb[s.run], z.tcb[t]);
      }
    }
  }

  // While the scheduler is locked the running task stays, and stays ready.
  lemma LockedRun(s: Sched, e: Step, idle: nat)
    requires SchedOk(s) && Enabled(s, e, idle) && !e.LockStep? && !e.UnlockStep?
    ensures Do(s, e, idle).lock == s.lock && (s.lock > 0 ==> Do(s, e, idle).run == s.run)
  {
    hide PlacesOk, WheelOk, OldestFirst, TopFrom, Unlinked, TcbsOk;
  }

  lemma UnlockRun(s: Sched)
    requires SchedOk(s)
    ensures Unlock(s).tcb == s.tcb && (Unlock(s).lock > 0 ==> s.lock > 0 && Unlock(s).run == s.run)
  {
    hide TcbsOk, PlacesOk, WheelOk, ReadyOk;
  }

  lemma LockedReady(s: Sched, e: Step, idle: nat)
    requires SchedOk(s) && Enabled(s, e, idle) && s.tcb[s.run].status.ready && s.lock > 0
    ensures s.run < |Do(s, e, idle).tcb| && Do(s, e, idle).tcb[s.run].status.ready
  {
    if e.CreateStep? || e.BlockStep? || e.WakeStep? || e.ExpireStep? {
      ElsewhereReady(s, e, idle);
    } else {
      hide Create, Block, Wake, Expire;
      CallsLeaveReady(s, e, idle);
    }
  }

  // What happens to other tasks.
  lemma ElsewhereReady(s: Sched, e: Step, idle: nat)
    requires SchedOk(s) && Enabled(s, e, idle) && s.tcb[s.run].status.ready && s.lock > 0
    requires e.CreateStep? || e.BlockStep? || e.WakeStep? || e.ExpireStep?
    ensures s.run < |Do(s, e, idle).tcb| && Do(s, e, idle).tcb[s.run].status.ready
  {
    StatusIsOk(s, s.run);
    assert s.run < |s.tcb|;
    hide SchedOk, Create, Block, Wake, Expire;
    match e
    case CreateStep(t, p) => CreateEffect(s, t, p);
    case BlockStep(w, k, queue, timed) =>
    case WakeStep(t) => WakeEffect(s, t);
    case ExpireStep(t) =>
      OnWheelBits(s, t);
      ExpireEffect(s, t);
  }

  lemma CallsLeaveReady(s: Sched, e: Step, idle: nat)
    requires SchedOk(s) && Enabled(s, e, idle) && s.tcb[s.run].status.ready && s.lock > 0
    requires !e.CreateStep? && !e.BlockStep? && !e.WakeStep? && !e.ExpireStep?
    ensures s.run < |Do(s, e, idle).tcb| && Do(s, e, idle).tcb[s.run].status.ready
  {
    StatusIsOk(s, s.run);
    assert s.run < |s.tcb|;
    hide SchedOk, Resume, Suspend, Yield, Delay, PriSet, PriModify;
    match e
    case ResumeStep(t) => ResumeEffect(s, t);
    case SuspendStep(t) => SuspendEffect(s, t, idle);
    case YieldStep => YieldEffect(s);
    case DelayStep(ticks, inInt) => DelayEffect(s, ticks, inInt);
    case PriSetStep(t, p) => PriSetEffect(s, t, p, idle);
    case PriModifyStep(t, p) => PriModifyEffect(s, t, p);
    case ReadTimeoutStep =>
    case LockStep =>
    case UnlockStep => UnlockRun(s);
  }

  // From a state in order every step leads to one exactly under its condition.
  lemma StepInOrderIff(s: Sched, e: Step, idle: nat)
    requires SchedOk(s) && Enabled(s, e, idle) && IdleOk(s, idle) && InOrder(s)
    ensures InOrder(Do(s, e, idle)) <==> Keeps(s, e)
  {
    DoOk(s, e, idle);
    DoKeepsIdle(s, e, idle);
    StepSettles(s, e, idle);
    if e.LockStep? {
      LockInOrderIff(s);
    } else if e.PriModifyStep? {
      if s.lock == 0 {
        PriModifyBestIff(s, e.t, e.p);
      }
      PriModifySame(s, e.t, e.p);
      hide SchedOk, PriModify, BestRuns;
    } else {
      OthersInOrder(s, e, idle);
    }
  }

  lemma LockInOrderIff(s: Sched)
    requires SchedOk(s) && InOrder(s)
    ensures InOrder(Lock(s)) <==> (s.lock + 1) % UINT16 != 0 || BestRuns(s)
  {
    hide SchedOk;
    assert BestRuns(Lock(s)) <==> BestRuns(s);
  }

  lemma OthersInOrder(s: Sched, e: Step, idle: nat)
    requires SchedOk(s) && Enabled(s, e, idle) && IdleOk(s, idle) && InOrder(s)
    requires !e.LockStep? && !e.PriModifyStep?
    ensures InOrder(Do(s, e, idle))
  {
    var z := Do(s, e, idle);
    DoOk(s, e, idle);
    DoKeepsIdle(s, e, idle);
    StepSettles(s, e, idle);
    RunnerStaysReady(s, e, idle);
    hide SchedOk, Do, Enabled, IdleOk, Settled, BestRuns;
    if Settled(z) && z.lock == 0 {
      SettledBest(z, idle);
    } else if Calm(s, z) && z.lock == 0 {
      CalmBest(s, z);
    }
  }

  // Whoever runs after a step is ready.
  lemma RunnerStaysReady(s: Sched, e: Step, idle: nat)
    requires SchedOk(s) && Enabled(s, e, idle) && IdleOk(s, idle) && s.tcb[s.run].status.ready
    ensures var z := Do(s, e, idle); z.run < |z.tcb| && z.tcb[z.run].status.ready
  {
    var z := Do(s, e, idle);
    DoOk(s, e, idle);
    DoKeepsIdle(s, e, idle);
    StepSettles(s, e, idle);
    if s.lock > 0 {
      LockedReady(s, e, idle);
    }
    if e.UnlockStep? {
      UnlockRun(s);
    } else if !e.LockStep? {
      LockedRun(s, e, idle);
    }
    hide SchedOk, Do, Enabled, IdleOk, Settled;
    if Settled(z) && z.lock == 0 {
      SettledBest(z, idle);
    }
  }

  // Over every run that begins in order, it stays so up to step k exactly if every step up to it meets its
  // condition; so it always does while nobody lends or gives back a priority and the lock count does not wrap.
  lemma {:induction false} RunInOrderIff(run: seq<Sched>, steps: seq<Step>, idle: nat, k: nat)
    requires IsRun(run, steps, idle) && InOrder(run[0]) && k < |run|
    ensures forall i :: 0 <= i <= k ==> SchedOk(run[i])
    ensures (forall i :: 0 <= i <= k ==> InOrder(run[i])) <==> (forall i :: 0 <= i < k ==> Keeps(run[i], steps[i]))
  {
    hide SchedOk, Do, Enabled, IdleOk, InOrder, Keeps;
    forall i | 0 <= i <= k
      ensures SchedOk(run[i])
    {
      RunOk(run, steps, idle, i);
    }
    if k > 0 {
      RunInOrderIff(run, steps, idle, k - 1);
      RunOk(run, steps, idle, k - 1);
      assert StepOf(run[k - 1], steps[k - 1], idle, run[k]);
      if InOrder(run[k - 1]) {
        StepInOrderIff(run[k - 1], steps[k - 1], idle);
      }
    }
  }

  ghost predicate RunnerReady(s: Sched) {
    s.run < |s.tcb| && s.tcb[s.run].status.ready
  }

  lemma StepRunnerReady(s: Sched, e: Step, idle: nat, z: Sched)
    requires SchedOk(s) && IdleOk(s, idle) && RunnerReady(s) && StepOf(s, e, idle, z)
    ensures RunnerReady(z) && |z.tcb| == |s.tcb|
  {
    hide SchedOk, Do, Enabled, IdleOk;
    RunnerStaysReady(s, e, idle);
    DoSize(s, e, idle);
  }

  // The running task is ready at every point of every run.
  lemma {:induction false} RunnerIsReady(run: seq<Sched>, steps: seq<Step>, idle: nat, k: nat)
    requires IsRun(run, steps, idle) && k < |run| && RunnerReady(run[0])
    ensures RunnerReady(run[k]) && |run[k].tcb| == |run[0].tcb|
  {
    hide SchedOk, IdleOk, StepOf, RunnerReady;
    if k > 0 {
      RunnerIsReady(run, steps, idle, k - 1);
      RunOk(run, steps, idle, k - 1);
      assert StepOf(run[k - 1], steps[k - 1], idle, run[k]);
      StepRunnerReady(run[k - 1], steps[k - 1], idle, run[k]);
    }
  }

  lemma DoSize(s: Sched, e: Step, idle: nat)
    requires SchedOk(s) && Enabled(s, e, idle)
    ensures |Do(s, e, idle).tcb| == |s.tcb|
  {
    hide PlacesOk, WheelOk, OldestFirst, TopFrom, Unlinked, TcbsOk;
  }

  // At every point of every run at which the scheduler is not locked: if the step before it stopped the
  // running task from being ready, or made some task ready, the best task runs, whatever came before.
  lemma BestAfterChange(run: seq<Sched>, steps: seq<Step>, idle: nat, k: nat)
    requires IsRun(run, steps, idle) && k < |steps|
    requires RunnerReady(run[0])
    requires run[k + 1].lock == 0 && ReadyChanged(run[k], run[k + 1])
    ensures BestRuns(run[k + 1])
  {
    RunOk(run, steps, idle, k);
    RunnerIsReady(run, steps, idle, k);
    hide SchedOk, Do, Enabled, IdleOk, ReadyChanged, BestRuns;
    assert StepOf(run[k], steps[k], idle, run[k + 1]);
    ChangesAreScheduled(run[k], steps[k], idle);
  }

  // A run in which it does not: a task is created and runs, being more urgent than the idle task, the only
  // other one that is ready. It is given the lowest priority, as LOS_MuxPost does with what a mutex lent, and
  // goes on running although the idle task has been ready longer.
  lemma GivenBackRunsOn(s: Sched, t: nat, p: nat, idle: nat) returns (run: seq<Sched>, steps: seq<Step>)
    requires SchedOk(s) && IdleOk(s, idle) && s.run == idle && s.lock == 0 && p < LOWEST
    requires t < |s.tcb| && s.tcb[t].status.unused
    requires forall u :: 0 <= u < |s.tcb| && s.tcb[u].status.ready ==> u == idle
    ensures IsRun(run, steps, idle) && run[0] == s && steps == [CreateStep(t, p), PriModifyStep(t, LOWEST)]
    ensures InOrder(s) && InOrder(run[1]) && run[1].run == t && run[2].run == t && !InOrder(run[2])
  {
    var x := CreatedRuns(s, t, p, idle);
    var z := LoweredRunsOn(x, t, idle);
    hide *;
    run, steps := [s, x, z], [CreateStep(t, p), PriModifyStep(t, LOWEST)];
    TwoSteps(s, x, z, steps[0], steps[1], idle);
  }

  lemma TwoSteps(s: Sched, x: Sched, z: Sched, e: Step, f: Step, idle: nat)
    requires SchedOk(s) && IdleOk(s, idle) && StepOf(s, e, idle, x) && StepOf(x, f, idle, z)
    ensures IsRun([s, x, z], [e, f], idle)
  {
    hide SchedOk, IdleOk, StepOf;
  }

  lemma CreatedRuns(s: Sched, t: nat, p: nat, idle: nat) returns (x: Sched)
    requires SchedOk(s) && IdleOk(s, idle) && s.run == idle && s.lock == 0 && p < LOWEST
    requires t < |s.tcb| && s.tcb[t].status.unused
    requires forall u :: 0 <= u < |s.tcb| && s.tcb[u].status.ready ==> u == idle
    ensures StepOf(s, CreateStep(t, p), idle, x) && SchedOk(x) && IdleOk(x, idle)
    ensures InOrder(s) && InOrder(x) && x.run == t && x.lock == 0 && t != idle
  {
    var e := CreateStep(t, p);
    x := Create(s, t, p).0;
    assert s.run < |s.tcb| && t != idle && x == Do(s, e, idle);
    CreateEffect(s, t, p);
    CreateLock(s, t, p);
    StatusIsOk(s, t);
    assert !s.tcb[t].status.ready && x.tcb[t].status.ready by {
      assert StatusOk(s.tcb[t].status);
    }
    hide SchedOk, Create;
    DoKeepsIdle(s, e, idle);
    ChangesAreScheduled(s, e, idle);
    assert x.run == t || x.run == idle;
    assert !Ahead(x.tcb[idle], x.tcb[t]);
  }

  lemma LoweredRunsOn(x: Sched, t: nat, idle: nat) returns (z: Sched)
    requires SchedOk(x) && IdleOk(x, idle) && InOrder(x) && x.run == t && x.lock == 0 && t != idle
    ensures StepOf(x, PriModifyStep(t, LOWEST), idle, z) && z.run == t && !InOrder(z)
  {
    var e := PriModifyStep(t, LOWEST);
    z := PriModify(x, t, LOWEST);
    PriModifyRun(x, t, LOWEST);
    assert z == Do(x, e, idle);
    hide SchedOk, PriModify;
    StepInOrderIff(x, e, idle);
  }

  lemma CreateLock(s: Sched, t: nat, p: nat)
    requires SchedOk(s) && t < |s.tcb|
    ensures Create(s, t, p).0.lock == s.lock
  {
    hide SchedOk, TopFrom;
  }
}

// One task, one place, over whole runs; and that there is always a task to run.

module SchedLaws {
  import opened Lists
  import opened SchedModel
  import opened SchedOps

  datatype Step =
    | CreateStep(t: nat, p: nat) | ResumeStep(t: nat) | SuspendStep(t: nat) | YieldStep
    | DelayStep(ticks: nat, inInt: bool)
    | PriSetStep(t: nat, p: nat) | PriModifyStep(t: nat, p: nat) | BlockStep(w: nat, k: nat, queue: bool, timed: bool)
    | WakeStep(t: nat) | ExpireStep(t: nat) | ReadTimeoutStep | LockStep | UnlockStep

  // The running task is ready and has read its timeout flag; the idle task does not block, and no
  // mutex lends it a priority.
  predicate CanBlock(s: Sched, idle: nat)
    requires s.run < |s.tcb|
  {
    s.run != idle && s.tcb[s.run].status.ready && !s.tcb[s.run].status.timeout
  }

  ghost predicate Enabled(s: Sched, e: Step, idle: nat)
    requires SchedOk(s)
  {
    match e
    case CreateStep(t, _) => t < |s.tcb| && s.tcb[t].status.unused
    case ResumeStep(t) => t < |s.tcb|
    case SuspendStep(t) => t < |s.tcb|
    case YieldStep => s.tcb[s.run].status.ready
    case DelayStep(_, _) => CanBlock(s, idle)
    case PriSetStep(t, _) => t < |s.tcb|
    case PriModifyStep(t, p) => t < |s.tcb| && t != idle && p < PRIORITYNUM
    case BlockStep(w, k, _, _) =>
      CanBlock(s, idle) && s.lock == 0 && PRIORITYNUM + w < |s.lists| && k <= |s.lists[PRIORITYNUM + w]|
    case WakeStep(t) => t < |s.tcb| && Waits(s.tcb[t].status)
    case ExpireStep(t) => t in s.wheel && t < |s.tcb|
    case ReadTimeoutStep => s.tcb[s.run].status.ready
    case LockStep => true
    case UnlockStep => true
  }

  ghost function Do(s: Sched, e: Step, idle: nat): Sched
    requires SchedOk(s) && Enabled(s, e, idle)
  {
    match e
    case CreateStep(t, p) => Create(s, t, p).0
    case ResumeStep(t) => Resume(s, t).0
    case SuspendStep(t) => Suspend(s, t, idle).0
    case YieldStep => Yield(s).0
    case DelayStep(ticks, inInt) => Delay(s, ticks, inInt).0
    case PriSetStep(t, p) => PriSet(s, t, p, idle).0
    case PriModifyStep(t, p) => PriModify(s, t, p)
    case BlockStep(w, k, queue, timed) => Block(s, w, k, queue, timed)
    case WakeStep(t) => Wake(s, t)
    case ExpireStep(t) => Expire(s, t)
    case ReadTimeoutStep => ReadTimeout(s)
    case LockStep => Lock(s)
    case UnlockStep => Unlock(s)
  }

  lemma DoOk(s: Sched, e: Step, idle: nat)
    requires SchedOk(s) && Enabled(s, e, idle)
    ensures SchedOk(Do(s, e, idle))
  {
    hide SchedOk, Create, Resume, Suspend, Yield, Delay, PriSet, PriModify, Block, Wake, Expire, ReadTimeout, Lock;
    hide Unlock;
    match e
    case CreateStep(t, p) => CreateOk(s, t, p);
    case ResumeStep(t) => ResumeOk(s, t);
    case SuspendStep(t) => SuspendOk(s, t, idle);
    case YieldStep => YieldOk(s);
    case DelayStep(ticks, inInt) => DelayOk(s, ticks, inInt);
    case PriSetStep(t, p) => PriSetOk(s, t, p, idle);
    case PriModifyStep(t, p) => PriModifyOk(s, t, p);
    case BlockStep(w, k, queue, timed) => BlockOk(s, w, k, queue, timed);
    case WakeStep(t) => WakeOk(s, t);
    case ExpireStep(t) => ExpireOk(s, t);
    case ReadTimeoutStep => ReadTimeoutOk(s);
    case LockStep => UnlockOk(s);
    case UnlockStep => UnlockOk(s);
  }

  // The idle task is ready, at the lowest priority.
  predicate IdleOk(s: Sched, idle: nat) {
    idle < |s.tcb| && s.tcb[idle].status.ready && s.tcb[idle].prio == LOWEST
  }

  lemma DoKeepsIdle(s: Sched, e: Step, idle: nat)
    requires SchedOk(s) && Enabled(s, e, idle) && IdleOk(s, idle)
    ensures IdleOk(Do(s, e, idle), idle)
  {
    hide SchedOk, Enabled, IdleOk, Do;
    if e.CreateStep? || e.ResumeStep? || e.SuspendStep? || e.YieldStep? || e.DelayStep? {
      CallKeepsIdle(s, e, idle);
    } else {
      OtherKeepsIdle(s, e, idle);
    }
  }

  lemma CallKeepsIdle(s: Sched, e: Step, idle: nat)
    requires SchedOk(s) && Enabled(s, e, idle) && IdleOk(s, idle)
    requires e.CreateStep? || e.ResumeStep? || e.SuspendStep? || e.YieldStep? || e.DelayStep?
    ensures IdleOk(Do(s, e, idle), idle)
  {
    hide PlacesOk, OldestFirst, Unlinked, ReadyOk, TopFrom, WheelOk;
    assert !s.tcb[idle].status.unused;
  }

  lemma OtherKeepsIdle(s: Sched, e: Step, idle: nat)
    requires SchedOk(s) && Enabled(s, e, idle) && IdleOk(s, idle)
    requires !(e.CreateStep? || e.ResumeStep? || e.SuspendStep? || e.YieldStep? || e.DelayStep?)
    ensures IdleOk(Do(s, e, idle), idle)
  {
    hide PlacesOk, OldestFirst, Unlinked, ReadyOk, TopFrom;
    assert !OnWheel(s.tcb[idle].status);
  }

  ghost predicate StepOf(s: Sched, e: Step, idle: nat, z: Sched) {
    SchedOk(s) ==> Enabled(s, e, idle) && z == Do(s, e, idle)
  }

  ghost predicate IsRun(run: seq<Sched>, steps: seq<Step>, idle: nat) {
    && |run| == |steps| + 1 && SchedOk(run[0]) && IdleOk(run[0], idle)
    && forall i :: 0 <= i < |steps| ==> StepOf(run[i], steps[i], idle, run[i + 1])
  }

  lemma {:induction false} RunOk(run: seq<Sched>, steps: seq<Step>, idle: nat, k: nat)
    requires IsRun(run, steps, idle) && k < |run|
    ensures SchedOk(run[k]) && IdleOk(run[k], idle)
  {
    hide SchedOk, Do, Enabled, IdleOk;
    if k > 0 {
      RunOk(run, steps, idle, k - 1);
      assert StepOf(run[k - 1], steps[k - 1], idle, run[k]);
      DoOk(run[k - 1], steps[k - 1], idle);
      DoKeepsIdle(run[k - 1], steps[k - 1], idle);
    }
  }

  // At every point of every run each task is in one list at most: READY says it is in the ready
  // list of its present priority, PEND or PEND_QUEUE that it is in exactly one wait list; it is
  // on the wheel exactly when it delays, or waits with a timeout.
  lemma OneTaskOnePlace(run: seq<Sched>, steps: seq<Step>, idle: nat, k: nat, t: nat)
    requires IsRun(run, steps, idle) && k < |run| && t < |run[k].tcb|
    ensures var (s, c) := (run[k], run[k].tcb[t]);
            && |s.lists| >= PRIORITYNUM && c.prio < PRIORITYNUM
            && (forall i, j :: 0 <= i < j < |s.lists| ==> !(t in s.lists[i] && t in s.lists[j]))
            && (c.status.ready <==> t in s.lists[c.prio])
            && (c.status.pend || c.status.pendQueue <==> exists w :: PRIORITYNUM <= w < |s.lists| && t in s.lists[w])
            && (t in s.wheel <==> c.status.delay || (c.status.timeout && (c.status.pend || c.status.pendQueue)))
  {
    RunOk(run, steps, idle, k);
    var s := run[k];
    hide ReadyOk, Distinct;
    assert StatusOk(s.tcb[t].status);
    if Waits(s.tcb[t].status) {
      assert t in s.lists[PRIORITYNUM + s.tcb[t].target];
    }
  }

  // The ready queue is never empty, and unless the scheduler is locked the task LOS_Schedule
  // picks is at least as urgent as every ready task, and the oldest of its priority.
  lemma AlwaysATaskToRun(run: seq<Sched>, steps: seq<Step>, idle: nat, k: nat, u: nat)
    requires IsRun(run, steps, idle) && k < |run| && u < |run[k].tcb| && run[k].tcb[u].status.ready
    ensures |run[k].lists| >= PRIORITYNUM && TopFrom(run[k].lists, 0) >= 0
    ensures run[k].lock == 0 ==>
              var (s, t) := (run[k], Schedule(run[k]).run);
              && t < |s.tcb| && s.tcb[t].status.ready && s.tcb[t].prio <= s.tcb[u].prio
              && (s.tcb[t].prio == s.tcb[u].prio && t != u ==> s.tcb[t].since < s.tcb[u].since)
  {
    RunOk(run, steps, idle, k);
    var s := run[k];
    assert idle in s.lists[s.tcb[idle].prio];
    hide WheelOk, OldestFirst, Distinct;
    if s.lock == 0 {
      ScheduleChoosesOldestBest(s, u);
    }
  }

  // ---- Yielding -----------------------------------------------------------------------------

  // LOS_TaskYield does not look at the status of the running task. From every state in order it
  // leads to one exactly when MayYield says so.
  lemma YieldOkIff(s: Sched)
    requires SchedOk(s)
    ensures |s.lists| >= PRIORITYNUM && s.tcb[s.run].prio < PRIORITYNUM
    ensures SchedOk(Yield(s).0) <==> MayYield(s)
  {
    hide PlacesOk, OldestFirst, Unlinked, TopFrom;
    var t, c := s.run, s.tcb[s.run].status;
    if c.ready {
      YieldOk(s);
    } else if |s.lists[s.tcb[t].prio]| > 1 {
      if c.unused || Blocked(c) {
        assert Yield(s).0.tcb[t].status == c.(ready := true);
        assert !StatusOk(Yield(s).0.tcb[t].status);
      } else {
        LeaveOk(s, t, c, s.wheel);
        EnqueueOk(Leave(s, t, c, s.wheel), t);
        ScheduleOk(Enqueue(Leave(s, t, c, s.wheel), t));
      }
    }
  }

  // Neither does LOS_TaskDelay. From every state in order it leads to one exactly when MayDelay says so.
  lemma DelayOkIff(s: Sched, ticks: nat, inInt: bool)
    requires SchedOk(s)
    ensures |s.lists| >= PRIORITYNUM && s.tcb[s.run].prio < PRIORITYNUM
    ensures SchedOk(Delay(s, ticks, inInt).0) <==> MayDelay(s, ticks, inInt)
  {
    hide PlacesOk, OldestFirst, Unlinked, TopFrom, Yield;
    var t, c := s.run, s.tcb[s.run].status;
    if !inInt && s.lock == 0 {
      if ticks == 0 {
        YieldOkIff(s);
      } else if c.unused || Waits(c) {
        assert Delay(s, ticks, inInt).0.tcb[t].status == c.(ready := false, delay := true);
        assert !StatusOk(Delay(s, ticks, inInt).0.tcb[t].status);
      } else {
        DelaysOk(s);
      }
    }
  }

  // A tick between queueing oneself and the switch yields for a task that waits: that spoils the
  // lists exactly when two others are ready at its priority.
  lemma YieldWhileQueued(s: Sched, w: nat, k: nat, queue: bool, timed: bool)
    requires SchedOk(s) && s.tcb[s.run].status.ready && !s.tcb[s.run].status.timeout
    requires PRIORITYNUM + w < |s.lists| && k <= |s.lists[PRIORITYNUM + w]|
    ensures var z := Queued(s, w, k, queue, timed);
            && SchedOk(z) && |z.lists| >= PRIORITYNUM && s.tcb[s.run].prio < PRIORITYNUM
            && !z.tcb[z.run].status.ready
            && (SchedOk(Yield(z).0) <==> |s.lists[s.tcb[s.run].prio]| <= 2)
  {
    var z, p := Queued(s, w, k, queue, timed), s.tcb[s.run].prio;
    QueuedOk(s, w, k, queue, timed);
    YieldOkIff(z);
    assert s.run in s.lists[p];
    WithoutLength(s.lists[p], s.run);
    hide SchedOk, Yield, Without, Distinct;
  }

  lemma {:induction false} WithoutLength(L: seq<nat>, t: nat)
    requires t in L
    ensures |Without(L, t)| == |L| - 1
  {
    if L[0] != t {
      WithoutLength(L[1..], t);
    }
  }

  // Such a state: three tasks of one priority, created one after the other on a fresh scheduler; the
  // first of them queues itself on object w.
  lemma YieldBreaks(s: Sched, p: nat, w: nat) returns (z: Sched, y: Sched, x: Sched)
    requires SchedOk(s) && |s.tcb| >= 4 && p < PRIORITYNUM && PRIORITYNUM + w < |s.lists| && s.lock == 0
    requires forall t :: 0 <= t < |s.tcb| ==> s.tcb[t].status.unused
    ensures SchedOk(z) && z == Create(s, 0, p).0 && |z.tcb| == |s.tcb|
    ensures SchedOk(y) && y == Create(z, 1, p).0 && |y.tcb| == |s.tcb|
    ensures SchedOk(x) && x == Create(y, 2, p).0 && x.run == 0 && x.tcb[0].status.ready && |x.lists| == |s.lists|
    ensures SchedOk(Queued(x, w, 0, false, true)) && !SchedOk(Yield(Queued(x, w, 0, false, true)).0)
  {
    hide SchedOk, Create, Queued, Yield;
    NobodyListed(s);
    CreateFirst(s, 0, p);
    z := Create(s, 0, p).0;
    CreateNext(z, 1, p);
    y := Create(z, 1, p).0;
    CreateNext(y, 2, p);
    x := Create(y, 2, p).0;
    YieldWhileQueued(x, w, 0, false, true);
  }

  lemma NobodyListed(s: Sched)
    requires SchedOk(s) && forall t :: 0 <= t < |s.tcb| ==> s.tcb[t].status.unused
    ensures |s.lists| >= PRIORITYNUM && forall i :: 0 <= i < PRIORITYNUM ==> s.lists[i] == []
  {
    forall i | 0 <= i < PRIORITYNUM
      ensures s.lists[i] == []
    {
      HeadIsPlaced(s, i);
    }
  }

  lemma HeadIsPlaced(s: Sched, i: nat)
    requires SchedOk(s) && i < |s.lists|
    ensures s.lists[i] != [] ==> s.lists[i][0] < |s.tcb| && Place(s.tcb[s.lists[i][0]]) == i
  {
    if s.lists[i] != [] {
      assert s.lists[i][0] in s.lists[i];
    }
  }

  // Only tasks of priority p are ready.
  ghost predicate OnlyAt(s: Sched, p: nat) {
    p < PRIORITYNUM <= |s.lists| && forall i :: 0 <= i < PRIORITYNUM && i != p ==> s.lists[i] == []
  }

  lemma CreateFirst(s: Sched, t: nat, p: nat)
    requires SchedOk(s) && t < |s.tcb| && s.tcb[t].status.unused && OnlyAt(s, p) && s.lists[p] == [] && s.lock == 0
    ensures var z := Create(s, t, p).0;
            && SchedOk(z) && |z.lists| == |s.lists| && OnlyAt(z, p) && z.lists[p] == [t] && z.run == t && z.lock == 0
            && z.tcb == s.tcb[t := Tcb(Fresh(p).status.(ready := true), p, 0, s.clock)]
  {
    CreateOk(s, t, p);
    hide SchedOk;
  }

  lemma CreateNext(s: Sched, t: nat, p: nat)
    requires SchedOk(s) && t < |s.tcb| && s.tcb[t].status.unused && OnlyAt(s, p) && s.lists[p] != [] && s.lock == 0
    ensures var z := Create(s, t, p).0;
            && SchedOk(z) && |z.lists| == |s.lists| && OnlyAt(z, p) && z.lists[p] == s.lists[p] + [t]
            && z.run == s.lists[p][0] && z.lock == 0
            && z.tcb == s.tcb[t := Tcb(Fresh(p).status.(ready := true), p, 0, s.clock)]
  {
    CreateOk(s, t, p);
    hide SchedOk;
  }
}

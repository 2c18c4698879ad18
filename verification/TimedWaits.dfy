// Blocking with and without a timeout, from the call to its end, and who runs when ticks come as well.

module TimedWaits {
  import opened Lists
  import opened SchedModel
  import opened SchedOps
  import opened SchedEffects
  import opened TimedTasks
  import L = SchedLaws
  import C = SchedChoice
  import T = TimingWheel

  // ---- From the call to the end of the wait --------------------------------------------------

  // The running task blocks in step i.
  ghost predicate Blocks(run: seq<Clocked>, steps: seq<Step>, i: nat) {
    i < |steps| < |run| && steps[i].CallStep? && steps[i].e.BlockStep?
  }

  lemma BeginsToWait(k: Clocked, e: Step, idle: nat)
    requires ClockedOk(k) && Enabled(k, e, idle) && e.CallStep? && e.e.BlockStep?
    ensures var (t, z) := (k.s.run, Do(k, e, idle));
            && t < |k.s.tcb| == |z.s.tcb| && ClockedOk(z) && Waits(z.s.tcb[t].status) && !z.s.tcb[t].status.ready
            && (if e.e.timed then t in z.due && z.due[t] == e.timeout && z.s.tcb[t].status.timeout
                else t !in z.due && !z.s.tcb[t].status.timeout)
  {
    hide SchedOk, Block;
    DoOk(k, e, idle);
    RunIsTask(k.s);
    StatusIsOk(k.s, k.s.run);
    OffWheel(k, k.s.run);
    BlockEffect(k.s, e.e.w, e.e.k, e.e.queue, e.e.timed);
    OffWheel(Do(k, e, idle), k.s.run);
  }

  lemma OffWheel(k: Clocked, t: nat)
    requires ClockedOk(k) && t < |k.s.tcb|
    ensures t in k.due <==> OnWheel(k.s.tcb[t].status)
  {
    hide TcbsOk, PlacesOk, ReadyOk;
  }

  // A pend with a timeout of n ticks, end to end: while it is not woken the task waits until n ticks have
  // come, and with the n-th tick it can run, unless it has been suspended, and has its timeout flag.
  lemma TimedWaitLastsExactly(run: seq<Clocked>, steps: seq<Step>, idle: nat, i: nat, k: nat)
    requires IsRun(run, steps, idle) && i < k < |steps| && Blocks(run, steps, i) && steps[i].e.timed
    requires NotWoken(steps, i + 1, k, run[i].s.run) && Ticks(steps, i + 1, k) < steps[i].timeout
    ensures var t := run[i].s.run;
            && t < |run[k].s.tcb| == |run[k + 1].s.tcb| && Waits(run[k].s.tcb[t].status)
            && (steps[k].TickStep? && Ticks(steps, i + 1, k) + 1 == steps[i].timeout ==>
                  Runnable(run[k + 1].s.tcb[t].status) && run[k + 1].s.tcb[t].status.timeout)
  {
    hide ClockedOk, Do, Enabled, Runnable;
    var t := run[i].s.run;
    RunOk(run, steps, idle, i);
    assert StepOf(run[i], steps[i], idle, run[i + 1]);
    BeginsToWait(run[i], steps[i], idle);
    StaysUntil(run, steps, idle, i + 1, k, t);
    RunOk(run, steps, idle, k);
    assert StepOf(run[k], steps[k], idle, run[k + 1]);
    if steps[k].TickStep? {
      StepOfSleeper(run[k], steps[k], idle, t);
    } else {
      SameTasks(run[k], steps[k], idle);
    }
  }

  // Woken in time, it can run as well, without the flag; and it is off the wheel.
  lemma WokenHasNoFlag(run: seq<Clocked>, steps: seq<Step>, idle: nat, k: nat, t: nat)
    requires IsRun(run, steps, idle) && k < |steps| && steps[k].CallStep? && steps[k].e == L.WakeStep(t)
    ensures t < |run[k].s.tcb| == |run[k + 1].s.tcb| && t !in run[k + 1].due
    ensures Runnable(run[k + 1].s.tcb[t].status) && !run[k + 1].s.tcb[t].status.timeout
  {
    RunOk(run, steps, idle, k);
    assert StepOf(run[k], steps[k], idle, run[k + 1]);
    DoOk(run[k], steps[k], idle);
    WokenRuns(run[k].s, t);
    OffWheel(run[k + 1], t);
    hide ClockedOk, Wake;
  }

  lemma WokenRuns(s: Sched, t: nat)
    requires SchedOk(s) && t < |s.tcb| && Waits(s.tcb[t].status)
    ensures |Wake(s, t).tcb| == |s.tcb| && Runnable(Wake(s, t).tcb[t].status) && !Wake(s, t).tcb[t].status.timeout
  {
    StatusIsOk(s, t);
    WakeEffect(s, t);
    hide SchedOk, Wake;
  }

  // Waiting without a timeout.
  predicate WaitsForever(k: Clocked, t: nat) {
    && t < |k.s.tcb| && t !in k.due
    && Waits(k.s.tcb[t].status) && !k.s.tcb[t].status.timeout && !k.s.tcb[t].status.ready
  }

  lemma WaiterStep(k: Clocked, e: Step, idle: nat, t: nat)
    requires ClockedOk(k) && Enabled(k, e, idle) && WaitsForever(k, t)
    requires e.CallStep? ==> e.e != L.WakeStep(t)
    ensures WaitsForever(Do(k, e, idle), t) && |Do(k, e, idle).s.tcb| == |k.s.tcb|
  {
    DoOk(k, e, idle);
    StatusIsOk(k.s, t);
    if e.CallStep? {
      CallKeepsWait(k.s, e.e, idle, t);
    } else {
      ScanOk(k, e.fired);
    }
    hide SchedOk, L.Do, L.Enabled, Scan, Lapsed;
    StatusIsOk(Do(k, e, idle).s, t);
    OffWheel(Do(k, e, idle), t);
  }

  // A pend without a timeout lasts until the task is woken, however many ticks come.
  lemma {:induction false} UntimedWaitLasts(run: seq<Clocked>, steps: seq<Step>, idle: nat, i: nat, k: nat)
    requires IsRun(run, steps, idle) && i < k <= |steps| && Blocks(run, steps, i) && !steps[i].e.timed
    requires NotWoken(steps, i + 1, k, run[i].s.run)
    ensures WaitsForever(run[k], run[i].s.run)
    decreases k
  {
    hide ClockedOk, Do, Enabled, WaitsForever;
    RunOk(run, steps, idle, k - 1);
    assert StepOf(run[k - 1], steps[k - 1], idle, run[k]);
    if k == i + 1 {
      BeginsForever(run[i], steps[i], idle);
    } else {
      UntimedWaitLasts(run, steps, idle, i, k - 1);
      WaiterStep(run[k - 1], steps[k - 1], idle, run[i].s.run);
    }
  }

  lemma BeginsForever(k: Clocked, e: Step, idle: nat)
    requires ClockedOk(k) && Enabled(k, e, idle) && e.CallStep? && e.e.BlockStep? && !e.e.timed
    ensures WaitsForever(Do(k, e, idle), k.s.run)
  {
    BeginsToWait(k, e, idle);
    hide ClockedOk, Do;
  }

  // ---- Who runs ------------------------------------------------------------------------------

  lemma TickKeepsIdle(k: Clocked, fired: seq<nat>, idle: nat)
    requires ClockedOk(k) && AreDue(k.due, fired) && L.IdleOk(k.s, idle)
    ensures L.IdleOk(Scan(k, fired).s, idle)
  {
    ScanOk(k, fired);
    StatusIsOk(k.s, idle);
    OffWheel(k, idle);
    ScanPrios(k, fired, idle);
    hide SchedOk, Scan, Lapsed, Distinct;
    assert idle !in fired;
  }

  // A tick changes no priority and no lock, and leaves who was ready and when.
  lemma {:induction false} LapseAllKeeps(s: Sched, fired: seq<nat>, t: nat)
    requires SchedOk(s) && OnWheelOnce(s, fired) && t < |s.tcb|
    ensures var z := LapseAll(s, fired);
            && |z.tcb| == |s.tcb| && z.tcb[t].prio == s.tcb[t].prio && z.run == s.run && z.lock == s.lock
            && (t !in fired ==> z.tcb[t] == s.tcb[t])
    decreases |fired|
  {
    hide SchedOk, Lapse, Distinct;
    if fired != [] {
      LapseFirst(s, fired);
      LapseEffect(s, fired[0]);
      LapseRun(s, fired[0]);
      LapseAllKeeps(Lapse(s, fired[0]), fired[1..], t);
      assert fired[0] in fired;
    }
  }

  lemma LapseRun(s: Sched, t: nat)
    requires SchedOk(s) && t < |s.tcb|
    ensures Lapse(s, t).run == s.run && Lapse(s, t).lock == s.lock
  {
    hide SchedOk, Unlinked;
  }

  lemma ScanPrios(k: Clocked, fired: seq<nat>, t: nat)
    requires ClockedOk(k) && AreDue(k.due, fired) && t < |k.s.tcb|
    ensures var z := Scan(k, fired).s;
            && |z.tcb| == |k.s.tcb| && z.tcb[t].prio == k.s.tcb[t].prio && z.lock == k.s.lock
            && (t !in fired ==> z.tcb[t] == k.s.tcb[t])
            && (SomeReadied(k.s, fired) ==> C.Settled(z))
            && (!SomeReadied(k.s, fired) || z.lock > 0 ==> z.run == k.s.run)
  {
    LapseAllKeeps(k.s, fired, t);
    ScanOk(k, fired);
    var y := LapseAll(k.s, fired);
    RunIsTask(y);
    StatusIsOk(y, y.run);
    C.ScheduleSettles(y);
    ScheduleKeeps(y);
    ScheduleLock(y);
    hide SchedOk, LapseAll, Schedule, C.Settled, SomeReadied;
  }

  lemma ScheduleLock(s: Sched)
    requires |s.lists| >= PRIORITYNUM
    ensures Schedule(s).lock == s.lock && (s.lock > 0 ==> Schedule(s).run == s.run)
  {
    hide TopFrom;
  }

  // If a tick has made some task ready, and the scheduler is not locked, the best task runs.
  lemma TickIsScheduled(k: Clocked, fired: seq<nat>, idle: nat)
    requires ClockedOk(k) && AreDue(k.due, fired) && L.IdleOk(k.s, idle) && C.RunnerReady(k.s)
    requires k.s.lock == 0 && C.ReadyChanged(k.s, Scan(k, fired).s)
    ensures C.BestRuns(Scan(k, fired).s)
  {
    var z := Scan(k, fired).s;
    ScanOk(k, fired);
    TickKeepsIdle(k, fired, idle);
    ScanPrios(k, fired, k.s.run);
    RunnerStays(k, fired);
    hide SchedOk, Scan, Lapsed, C.Settled, C.BestRuns, Distinct;
    var u :| 0 <= u < |k.s.tcb| && !k.s.tcb[u].status.ready && z.tcb[u].status.ready;
    assert u in fired && !k.s.tcb[u].status.suspend;
    C.SettledBest(z, idle);
  }

  // A running task that is ready is not on the wheel.
  lemma RunnerStays(k: Clocked, fired: seq<nat>)
    requires ClockedOk(k) && AreDue(k.due, fired) && C.RunnerReady(k.s)
    ensures k.s.run !in fired
  {
    StatusIsOk(k.s, k.s.run);
    OffWheel(k, k.s.run);
    hide SchedOk, Distinct;
  }

  lemma TickInOrder(k: Clocked, fired: seq<nat>, idle: nat)
    requires ClockedOk(k) && AreDue(k.due, fired) && L.IdleOk(k.s, idle) && C.InOrder(k.s)
    ensures C.InOrder(Scan(k, fired).s)
  {
    var z := Scan(k, fired).s;
    ScanOk(k, fired);
    TickKeepsIdle(k, fired, idle);
    ScanPrios(k, fired, k.s.run);
    RunnerStays(k, fired);
    if z.lock == 0 {
      if SomeReadied(k.s, fired) {
        hide SchedOk, Scan, Lapsed, C.Settled, C.BestRuns, Distinct;
        C.SettledBest(z, idle);
        assert C.BestRuns(z) && z.run < |z.tcb| && z.tcb[z.run].status.ready by {
          BestIsReady(z);
        }
      } else {
        CalmTick(k, fired);
        C.CalmBest(k.s, z);
      }
    }
    hide SchedOk, Scan, Lapsed, Distinct;
  }

  lemma BestIsReady(s: Sched)
    requires C.BestRuns(s)
    ensures s.run < |s.tcb| && s.tcb[s.run].status.ready
  {
  }

  lemma CalmTick(k: Clocked, fired: seq<nat>)
    requires ClockedOk(k) && AreDue(k.due, fired) && C.RunnerReady(k.s) && !SomeReadied(k.s, fired)
    ensures C.Calm(k.s, Scan(k, fired).s)
  {
    var z := Scan(k, fired).s;
    ScanOk(k, fired);
    RunnerStays(k, fired);
    ScanPrios(k, fired, k.s.run);
    hide SchedOk, Scan, Lapsed, C.Settled, Distinct;
    forall u | 0 <= u < |k.s.tcb| && z.tcb[u].status.ready
      ensures z.tcb[u] == k.s.tcb[u]
    {
      ScanPrios(k, fired, u);
      assert u !in fired;
    }
  }

  lemma RunIdleOk(run: seq<Clocked>, steps: seq<Step>, idle: nat, k: nat)
    requires IsRun(run, steps, idle) && L.IdleOk(run[0].s, idle) && k < |run|
    ensures ClockedOk(run[k]) && L.IdleOk(run[k].s, idle)
    decreases k
  {
    hide ClockedOk, Enabled, Do, L.IdleOk;
    RunOk(run, steps, idle, k);
    if k > 0 {
      RunIdleOk(run, steps, idle, k - 1);
      assert StepOf(run[k - 1], steps[k - 1], idle, run[k]);
      StepKeepsIdle(run[k - 1], steps[k - 1], idle);
    }
  }

  lemma StepKeepsIdle(k: Clocked, e: Step, idle: nat)
    requires ClockedOk(k) && Enabled(k, e, idle) && L.IdleOk(k.s, idle)
    ensures L.IdleOk(Do(k, e, idle).s, idle)
  {
    hide SchedOk, Scan, L.Do, L.Enabled, L.IdleOk;
    match e
    case CallStep(c, _) => L.DoKeepsIdle(k.s, c, idle);
    case TickStep(fired) => TickKeepsIdle(k, fired, idle);
  }

  // A tick never spoils who runs; a call does exactly if it does not meet its condition.
  ghost predicate Keeps(k: Clocked, e: Step)
    requires ClockedOk(k)
  {
    e.CallStep? ==> C.Keeps(k.s, e.e)
  }

  lemma StepInOrderIff(k: Clocked, e: Step, idle: nat)
    requires ClockedOk(k) && Enabled(k, e, idle) && L.IdleOk(k.s, idle) && C.InOrder(k.s)
    ensures C.InOrder(Do(k, e, idle).s) <==> Keeps(k, e)
  {
    hide SchedOk, Scan, L.Do, L.Enabled, L.IdleOk, C.InOrder, C.Keeps;
    match e
    case CallStep(c, _) => C.StepInOrderIff(k.s, c, idle);
    case TickStep(fired) => TickInOrder(k, fired, idle);
  }

  // Over every run of calls and ticks that begins in order: the best task runs at every point up to step k
  // exactly if every call up to it meets its condition.
  lemma {:induction false} RunInOrderIff(run: seq<Clocked>, steps: seq<Step>, idle: nat, k: nat)
    requires IsRun(run, steps, idle) && L.IdleOk(run[0].s, idle) && C.InOrder(run[0].s) && k < |run|
    ensures forall i :: 0 <= i <= k ==> ClockedOk(run[i])
    ensures (forall i :: 0 <= i <= k ==> C.InOrder(run[i].s)) <==> (forall i :: 0 <= i < k ==> Keeps(run[i], steps[i]))
  {
    hide ClockedOk, Do, Enabled, L.IdleOk, C.InOrder, Keeps;
    forall i | 0 <= i <= k
      ensures ClockedOk(run[i])
    {
      RunOk(run, steps, idle, i);
    }
    if k > 0 {
      RunInOrderIff(run, steps, idle, k - 1);
      RunIdleOk(run, steps, idle, k - 1);
      assert StepOf(run[k - 1], steps[k - 1], idle, run[k]);
      if C.InOrder(run[k - 1].s) {
        StepInOrderIff(run[k - 1], steps[k - 1], idle);
      }
    }
  }
}

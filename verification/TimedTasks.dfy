// The scheduler and the delay wheel together: what a task on the wheel waits for comes on the tick it
// was promised for. The wheel appears as the countdown it refines.

module TimedTasks {
  import opened Lists
  import opened SchedModel
  import opened SchedOps
  import opened SchedEffects
  import L = SchedLaws
  import T = TimingWheel

  // due gives the ticks left for every task on the wheel.
  datatype Clocked = Clocked(s: Sched, due: map<nat, nat>)

  ghost predicate ClockedOk(k: Clocked) {
    SchedOk(k.s) && k.s.wheel == k.due.Keys && forall t :: t in k.due ==> k.due[t] > 0
  }

  // ---- A tick ------------------------------------------------------------------------------

  // The tasks whose time is up, in any order.
  ghost predicate AreDue(due: map<nat, nat>, fired: seq<nat>) {
    Distinct(fired) && forall t: nat :: t in fired <==> t in due && due[t] == 1
  }

  ghost predicate OnWheelOnce(s: Sched, fired: seq<nat>) {
    Distinct(fired) && forall t: nat :: t in fired ==> t in s.wheel
  }

  // The loop of osTaskScan over them.
  ghost function LapseAll(s: Sched, fired: seq<nat>): (z: Sched)
    requires SchedOk(s) && OnWheelOnce(s, fired)
    ensures SchedOk(z)
    decreases |fired|
  {
    if fired == [] then s
    else
      LapseFirst(s, fired);
      LapseAll(Lapse(s, fired[0]), fired[1..])
  }

  lemma LapseFirst(s: Sched, fired: seq<nat>)
    requires SchedOk(s) && OnWheelOnce(s, fired) && fired != []
    ensures fired[0] < |s.tcb| && SchedOk(Lapse(s, fired[0])) && OnWheelOnce(Lapse(s, fired[0]), fired[1..])
    ensures Lapse(s, fired[0]).wheel == s.wheel - {fired[0]}
  {
    assert fired[0] in fired;
    LapseOk(s, fired[0]);
    TailIs(fired);
    hide SchedOk, Distinct;
  }

  // Some of them can run.
  ghost predicate SomeReadied(s: Sched, fired: seq<nat>) {
    exists t :: 0 <= t < |s.tcb| && t in fired && !s.tcb[t].status.suspend
  }

  // osTaskScan: one LOS_Schedule at the end, if a task has become ready.
  ghost function Scan(k: Clocked, fired: seq<nat>): Clocked
    requires ClockedOk(k) && AreDue(k.due, fired)
  {
    var z := LapseAll(k.s, fired);
    Clocked(if SomeReadied(k.s, fired) then Schedule(z) else z, T.Tick(k.due))
  }

  lemma LapseEffect(s: Sched, t: nat)
    requires SchedOk(s) && t in s.wheel
    ensures t < |s.tcb|
    ensures var (c, z) := (s.tcb[t], Lapse(s, t));
            && OnlyTask(s, z, t) && z.wheel == s.wheel - {t} && z.tcb[t].prio == c.prio
            && z.tcb[t].status == Lapsed(c.status).(ready := !c.status.suspend)
  {
    hide SchedOk, Leave, ReadyUnlessSuspended, Without;
    OnWheelBits(s, t);
    StatusIsOk(s, t);
    var c := Lapsed(s.tcb[t].status);
    UnlinkedLength(s, t);
    LeaveEffect(s, t, c, s.wheel - {t});
    EnqueueEffect(Leave(s, t, c, s.wheel - {t}), t);
    LapseWheel(s, t);
  }

  lemma LapseWheel(s: Sched, t: nat)
    requires SchedOk(s) && t < |s.tcb|
    ensures Lapse(s, t).wheel == s.wheel - {t}
  {
  }

  // After the loop exactly the tasks in fired have changed.
  lemma {:induction false} LapseAllEffect(s: Sched, fired: seq<nat>, t: nat)
    requires SchedOk(s) && OnWheelOnce(s, fired) && t < |s.tcb|
    ensures var z := LapseAll(s, fired);
            && |z.tcb| == |s.tcb| && z.wheel == s.wheel - (set u | u in fired)
            && z.tcb[t].status == if t in fired then Lapsed(s.tcb[t].status).(ready := !s.tcb[t].status.suspend)
                                  else s.tcb[t].status
    decreases |fired|
  {
    hide SchedOk, Lapse, Lapsed, Distinct;
    if fired != [] {
      LapseFirst(s, fired);
      var u, y := fired[0], Lapse(s, fired[0]);
      assert u in fired;
      LapseEffect(s, u);
      LapseAllEffect(y, fired[1..], t);
      NotAgain(fired);
    }
  }

  lemma NotAgain(fired: seq<nat>)
    requires Distinct(fired) && fired != []
    ensures fired[0] !in fired[1..] && forall t: nat :: t in fired <==> t == fired[0] || t in fired[1..]
  {
    TailIs(fired);
  }

  lemma ScanOk(k: Clocked, fired: seq<nat>)
    requires ClockedOk(k) && AreDue(k.due, fired)
    ensures ClockedOk(Scan(k, fired)) && |Scan(k, fired).s.tcb| == |k.s.tcb|
    ensures forall t :: 0 <= t < |k.s.tcb| ==>
              var c := k.s.tcb[t].status;
              Scan(k, fired).s.tcb[t].status == if t in fired then Lapsed(c).(ready := !c.suspend) else c
  {
    hide SchedOk, Lapsed, Distinct, Schedule;
    LapseAllEffect(k.s, fired, k.s.run) by {
      RunIsTask(k.s);
    }
    var z := LapseAll(k.s, fired);
    forall t | 0 <= t < |k.s.tcb|
      ensures z.tcb[t].status == if t in fired then Lapsed(k.s.tcb[t].status).(ready := !k.s.tcb[t].status.suspend)
                                 else k.s.tcb[t].status
    {
      LapseAllEffect(k.s, fired, t);
    }
    StatusIsOk(z, z.run) by {
      RunIsTask(z);
    }
    ScheduleOk(z);
    ScheduleKeeps(z);
  }

  lemma RunIsTask(s: Sched)
    requires SchedOk(s)
    ensures s.run < |s.tcb|
  {
  }

  lemma ScheduleKeeps(s: Sched)
    requires |s.lists| >= PRIORITYNUM
    ensures Schedule(s).tcb == s.tcb && Schedule(s).wheel == s.wheel
  {
  }

  // ---- Steps -------------------------------------------------------------------------------

  // A call, with the timeout it waits for if it waits; or a tick.
  datatype Step = CallStep(e: L.Step, timeout: nat) | TickStep(fired: seq<nat>)

  // LOS_TaskDelay goes through.
  predicate Delays(s: Sched, e: L.Step) {
    e.DelayStep? && !e.inInt && s.lock == 0 && e.ticks > 0
  }

  ghost predicate Enabled(k: Clocked, e: Step, idle: nat)
    requires ClockedOk(k)
  {
    match e
    case CallStep(c, timeout) =>
      L.Enabled(k.s, c, idle) && !c.ExpireStep? && (c.BlockStep? && c.timed ==> 0 < timeout < T.WORD)
    case TickStep(fired) => AreDue(k.due, fired)
  }

  // What a call does to the countdown: a delay or a timed wait adds the running task, a wake-up takes
  // its task away.
  function Counted(k: Clocked, e: L.Step, timeout: nat): map<nat, nat>
  {
    if Delays(k.s, e) then k.due[k.s.run := e.ticks]
    else if e.BlockStep? && e.timed then k.due[k.s.run := timeout]
    else if e.WakeStep? then k.due - {e.t}
    else k.due
  }

  ghost function Do(k: Clocked, e: Step, idle: nat): Clocked
    requires ClockedOk(k) && Enabled(k, e, idle)
  {
    match e
    case CallStep(c, timeout) => Clocked(L.Do(k.s, c, idle), Counted(k, c, timeout))
    case TickStep(fired) => Scan(k, fired)
  }

  // Every call changes the wheel as it does the countdown.
  lemma WheelFollows(s: Sched, e: L.Step, idle: nat)
    requires SchedOk(s) && L.Enabled(s, e, idle) && !e.ExpireStep?
    ensures L.Do(s, e, idle).wheel ==
            if Delays(s, e) || (e.BlockStep? && e.timed) then s.wheel + {s.run}
            else if e.WakeStep? then s.wheel - {e.t} else s.wheel
  {
    hide TcbsOk, PlacesOk, WheelOk, ReadyOk, TopFrom, Unlinked;
  }

  lemma CallOk(k: Clocked, e: L.Step, timeout: nat, idle: nat)
    requires ClockedOk(k) && Enabled(k, CallStep(e, timeout), idle)
    ensures ClockedOk(Do(k, CallStep(e, timeout), idle))
  {
    L.DoOk(k.s, e, idle);
    WheelFollows(k.s, e, idle);
    hide SchedOk, L.Do, L.Enabled;
  }

  // ---- Bits --------------------------------------------------------------------------------

  // What a task on the wheel waits for has not changed.
  predicate SameWait(c: Status, d: Status) {
    d.delay == c.delay && d.pend == c.pend && d.pendQueue == c.pendQueue && d.timeout == c.timeout
  }

  // A task on the wheel is not ready, so it makes no call, and it is in use.
  lemma SleeperBits(s: Sched, t: nat)
    requires SchedOk(s) && t in s.wheel
    ensures t < |s.tcb| && !s.tcb[t].status.ready && !s.tcb[t].status.unused
    ensures s.tcb[t].status.delay ==> !Waits(s.tcb[t].status)
  {
  }

  // The one task a call changes.
  function Subject(s: Sched, e: L.Step): nat
  {
    match e
    case CreateStep(t, _) => t
    case ResumeStep(t) => t
    case SuspendStep(t) => t
    case PriSetStep(t, _) => t
    case PriModifyStep(t, _) => t
    case WakeStep(t) => t
    case _ => s.run
  }

  // A call that names a task but for creating and waking: its wait stays as it was.
  ghost predicate Minds(s: Sched, e: L.Step, z: Sched)
    requires Subject(s, e) < |s.tcb| == |z.tcb|
  {
    e.ResumeStep? || e.SuspendStep? || e.PriSetStep? || e.PriModifyStep? ==>
      SameWait(s.tcb[Subject(s, e)].status, z.tcb[Subject(s, e)].status)
  }

  lemma OneChanges(s: Sched, e: L.Step, idle: nat)
    requires SchedOk(s) && L.Enabled(s, e, idle) && !e.ExpireStep?
    ensures var z := L.Do(s, e, idle);
            OnlyTask(s, z, Subject(s, e)) && Subject(s, e) < |s.tcb| && Minds(s, e, z)
  {
    RunIsTask(s);
    hide SchedOk, Create, Resume, Suspend, Yield, Delay, PriModify, Schedule, Block, Wake, TopFrom;
    match e
    case CreateStep(t, p) => CreateChanges(s, t, p);
    case ResumeStep(t) => ResumeEffect(s, t);
    case SuspendStep(t) => SuspendEffect(s, t, idle);
    case YieldStep => YieldEffect(s);
    case DelayStep(ticks, inInt) => DelayEffect(s, ticks, inInt);
    case PriSetStep(t, p) => PriSetEffect(s, t, p, idle);
    case PriModifyStep(t, p) => PriModifyEffect(s, t, p);
    case BlockStep(w, k, queue, timed) => BlockEffect(s, w, k, queue, timed);
    case WakeStep(t) => WakeEffect(s, t);
    case ReadTimeoutStep => ReadTimeoutEffect(s);
    case LockStep =>
    case UnlockStep => UnlockChanges(s);
  }

  lemma CreateChanges(s: Sched, t: nat, p: nat)
    requires SchedOk(s) && t < |s.tcb| && s.tcb[t].status.unused
    ensures OnlyTask(s, Create(s, t, p).0, t)
  {
    if p <= LOWEST {
      CreateEffect(s, t, p);
    }
    hide SchedOk;
  }

  lemma UnlockChanges(s: Sched)
    requires SchedOk(s)
    ensures Unlock(s).tcb == s.tcb
  {
    hide PlacesOk, TcbsOk, WheelOk, OldestFirst, TopFrom;
  }

  // No call but a wake-up changes the wait of a task that is not ready.
  lemma CallKeepsWait(s: Sched, e: L.Step, idle: nat, t: nat)
    requires SchedOk(s) && L.Enabled(s, e, idle) && !e.ExpireStep? && e != L.WakeStep(t)
    requires t < |s.tcb| && !s.tcb[t].status.ready && !s.tcb[t].status.unused
    ensures |L.Do(s, e, idle).tcb| == |s.tcb|
    ensures SameWait(s.tcb[t].status, L.Do(s, e, idle).tcb[t].status)
    ensures Delays(s, e) || e.BlockStep? ==> t != s.run
  {
    OneChanges(s, e, idle);
    hide SchedOk, L.Do;
    if t == Subject(s, e) && (e.YieldStep? || e.ReadTimeoutStep? || e.LockStep? || e.UnlockStep?) {
      RunKeepsWait(s, e, idle);
    }
  }

  // Locking and unlocking change no task; a yield and the reading of the flag are by a ready one.
  lemma RunKeepsWait(s: Sched, e: L.Step, idle: nat)
    requires SchedOk(s) && L.Enabled(s, e, idle) && s.run < |s.tcb| && !s.tcb[s.run].status.ready
    requires e.YieldStep? || e.ReadTimeoutStep? || e.LockStep? || e.UnlockStep?
    ensures L.Do(s, e, idle).tcb == s.tcb
  {
    UnlockChanges(s);
    hide SchedOk, Unlock, Yield;
  }

  // One step in the life of a task on the wheel: a call that does not wake it leaves it as it is; a tick
  // takes one off its count, and at the last one it is off the wheel, ready unless suspended, and what
  // it waited for is over.
  lemma StepOfSleeper(k: Clocked, e: Step, idle: nat, t: nat)
    requires ClockedOk(k) && Enabled(k, e, idle) && t in k.due
    requires e.CallStep? ==> e.e != L.WakeStep(t)
    ensures t < |k.s.tcb| == |Do(k, e, idle).s.tcb|
    ensures var (c, z) := (k.s.tcb[t].status, Do(k, e, idle));
            && (e.CallStep? ==> t in z.due && z.due[t] == k.due[t] && SameWait(c, z.s.tcb[t].status))
            && (e.TickStep? && k.due[t] > 1 ==>
                  t in z.due && z.due[t] == k.due[t] - 1 && SameWait(c, z.s.tcb[t].status))
            && (e.TickStep? && k.due[t] == 1 ==>
                  t !in z.due && Runnable(z.s.tcb[t].status) && z.s.tcb[t].status.timeout == c.timeout)
  {
    if e.CallStep? {
      SleeperBits(k.s, t);
      CallKeepsWait(k.s, e.e, idle, t);
      hide SchedOk, L.Do, L.Enabled;
    } else {
      ScanOk(k, e.fired);
      SleeperBits(k.s, t);
      OnWheelBits(k.s, t);
      StatusIsOk(k.s, t);
      hide SchedOk, Scan, Distinct;
      assert Scan(k, e.fired).due == T.Tick(k.due) by {
        ScanCounts(k, e.fired);
      }
    }
  }

  lemma ScanCounts(k: Clocked, fired: seq<nat>)
    requires ClockedOk(k) && AreDue(k.due, fired)
    ensures Scan(k, fired).due == T.Tick(k.due)
  {
  }

  lemma DoOk(k: Clocked, e: Step, idle: nat)
    requires ClockedOk(k) && Enabled(k, e, idle)
    ensures ClockedOk(Do(k, e, idle))
  {
    hide ClockedOk, L.Do, L.Enabled, Scan;
    match e
    case CallStep(c, timeout) => CallOk(k, c, timeout, idle);
    case TickStep(fired) => ScanOk(k, fired);
  }

  // ---- Runs --------------------------------------------------------------------------------

  ghost predicate StepOf(k: Clocked, e: Step, idle: nat, z: Clocked) {
    ClockedOk(k) ==> Enabled(k, e, idle) && z == Do(k, e, idle)
  }

  ghost predicate IsRun(run: seq<Clocked>, steps: seq<Step>, idle: nat) {
    && |run| == |steps| + 1 && ClockedOk(run[0])
    && forall i :: 0 <= i < |steps| ==> StepOf(run[i], steps[i], idle, run[i + 1])
  }

  lemma {:induction false} RunOk(run: seq<Clocked>, steps: seq<Step>, idle: nat, i: nat)
    requires IsRun(run, steps, idle) && i < |run|
    ensures ClockedOk(run[i])
  {
    hide ClockedOk, Do, Enabled;
    if i > 0 {
      RunOk(run, steps, idle, i - 1);
      assert StepOf(run[i - 1], steps[i - 1], idle, run[i]);
      DoOk(run[i - 1], steps[i - 1], idle);
    }
  }

  // How many ticks there are from step i up to step k.
  function Ticks(steps: seq<Step>, i: nat, k: nat): nat
    requires i <= k <= |steps|
    decreases k
  {
    if k == i then 0 else Ticks(steps, i, k - 1) + if steps[k - 1].TickStep? then 1 else 0
  }

  ghost predicate NotWoken(steps: seq<Step>, i: nat, k: nat, t: nat)
    requires i <= k <= |steps|
  {
    forall x :: i <= x < k && steps[x].CallStep? ==> steps[x].e != L.WakeStep(t)
  }

  // Over every run: a task with n ticks left that is not woken is still on the wheel, waiting for the same
  // thing, as long as fewer than n ticks have come.
  lemma {:induction false} StaysUntil(run: seq<Clocked>, steps: seq<Step>, idle: nat, i: nat, k: nat, t: nat)
    requires IsRun(run, steps, idle) && i <= k <= |steps| && t in run[i].due && NotWoken(steps, i, k, t)
    requires Ticks(steps, i, k) < run[i].due[t]
    ensures t < |run[i].s.tcb| == |run[k].s.tcb| && t in run[k].due
    ensures run[k].due[t] == run[i].due[t] - Ticks(steps, i, k)
    ensures SameWait(run[i].s.tcb[t].status, run[k].s.tcb[t].status)
    decreases k
  {
    hide ClockedOk, Do, Enabled;
    RunOk(run, steps, idle, i);
    if k == i {
      DueIsTask(run[i], t);
    } else {
      StaysUntil(run, steps, idle, i, k - 1, t);
      RunOk(run, steps, idle, k - 1);
      assert StepOf(run[k - 1], steps[k - 1], idle, run[k]);
      StepOfSleeper(run[k - 1], steps[k - 1], idle, t);
    }
  }

  lemma DueIsTask(k: Clocked, t: nat)
    requires ClockedOk(k) && t in k.due
    ensures t < |k.s.tcb|
  {
    SleeperBits(k.s, t);
  }

  // And with the n-th tick its time is up: it leaves the wheel and every wait list, is ready unless it is
  // suspended, and a waiter has its timeout flag.
  lemma TimeIsUp(run: seq<Clocked>, steps: seq<Step>, idle: nat, i: nat, k: nat, t: nat)
    requires IsRun(run, steps, idle) && i <= k < |steps| && t in run[i].due && NotWoken(steps, i, k, t)
    requires steps[k].TickStep? && Ticks(steps, i, k) + 1 == run[i].due[t]
    ensures t < |run[i].s.tcb| == |run[k + 1].s.tcb| && t !in run[k + 1].due
    ensures Runnable(run[k + 1].s.tcb[t].status)
    ensures run[k + 1].s.tcb[t].status.timeout == run[i].s.tcb[t].status.timeout
  {
    hide ClockedOk, Do, Enabled, Runnable;
    StaysUntil(run, steps, idle, i, k, t);
    RunOk(run, steps, idle, k);
    assert StepOf(run[k], steps[k], idle, run[k + 1]);
    StepOfSleeper(run[k], steps[k], idle, t);
  }

  // LOS_TaskDelay(n), end to end: from the call on the task delays until n ticks have come, whatever the
  // others do, and with the n-th tick it is ready, unless it has been suspended meanwhile.
  lemma DelayLastsExactly(run: seq<Clocked>, steps: seq<Step>, idle: nat, i: nat, k: nat)
    requires IsRun(run, steps, idle) && i < k < |steps| && steps[i].CallStep? && Delays(run[i].s, steps[i].e)
    requires Ticks(steps, i + 1, k) < steps[i].e.ticks
    ensures var t := run[i].s.run;
            && t < |run[k].s.tcb| == |run[k + 1].s.tcb| && run[k].s.tcb[t].status.delay
            && (steps[k].TickStep? && Ticks(steps, i + 1, k) + 1 == steps[i].e.ticks ==>
                  Runnable(run[k + 1].s.tcb[t].status))
  {
    var t := run[i].s.run;
    RunOk(run, steps, idle, i);
    assert StepOf(run[i], steps[i], idle, run[i + 1]);
    BeginsToDelay(run[i], steps[i], idle);
    DelayerNotWoken(run, steps, idle, i + 1, k, t);
    StaysUntil(run, steps, idle, i + 1, k, t);
    hide ClockedOk, Do, Enabled, Runnable;
    RunOk(run, steps, idle, k);
    assert StepOf(run[k], steps[k], idle, run[k + 1]);
    if steps[k].TickStep? {
      StepOfSleeper(run[k], steps[k], idle, t);
    } else {
      SameTasks(run[k], steps[k], idle);
    }
  }

  lemma BeginsToDelay(k: Clocked, e: Step, idle: nat)
    requires ClockedOk(k) && Enabled(k, e, idle) && e.CallStep? && Delays(k.s, e.e)
    ensures var (t, z) := (k.s.run, Do(k, e, idle));
            && t < |k.s.tcb| == |z.s.tcb| && t in z.due && z.due[t] == e.e.ticks && z.s.tcb[t].status.delay
  {
    hide TcbsOk, PlacesOk, WheelOk, ReadyOk, TopFrom, Unlinked;
  }

  lemma SameTasks(k: Clocked, e: Step, idle: nat)
    requires ClockedOk(k) && Enabled(k, e, idle)
    ensures |Do(k, e, idle).s.tcb| == |k.s.tcb|
  {
    hide SchedOk, Scan, L.Do;
    match e
    case CallStep(c, _) => OneChanges(k.s, c, idle);
    case TickStep(fired) => ScanOk(k, fired);
  }

  // Only waiters are woken, and a delaying task is none.
  lemma {:induction false} DelayerNotWoken(run: seq<Clocked>, steps: seq<Step>, idle: nat, i: nat, k: nat, t: nat)
    requires IsRun(run, steps, idle) && i <= k <= |steps| && t in run[i].due && t < |run[i].s.tcb|
    requires run[i].s.tcb[t].status.delay && Ticks(steps, i, k) < run[i].due[t]
    ensures NotWoken(steps, i, k, t)
    decreases k
  {
    hide ClockedOk, Do;
    if k > i {
      DelayerNotWoken(run, steps, idle, i, k - 1, t);
      StaysUntil(run, steps, idle, i, k - 1, t);
      RunOk(run, steps, idle, k - 1);
      assert StepOf(run[k - 1], steps[k - 1], idle, run[k]);
      NoWakeWhileDelaying(run[k - 1], steps[k - 1], idle, t);
    }
  }

  lemma NoWakeWhileDelaying(k: Clocked, e: Step, idle: nat, t: nat)
    requires ClockedOk(k) && Enabled(k, e, idle) && t in k.due && t < |k.s.tcb| && k.s.tcb[t].status.delay
    ensures e.CallStep? ==> e.e != L.WakeStep(t)
  {
    SleeperBits(k.s, t);
    hide SchedOk;
  }
}

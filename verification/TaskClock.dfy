// The code of the tick and of delaying, over the task control blocks and the wheel.

module TaskClock {
  import opened SchedModel
  import opened TimedTasks
  import Timeouts = Waits
  import SchedLaws
  import SchedOps
  import Scheduler
  import TimingWheel

  class TaskClock {
    const sched: Scheduler.Scheduler
    const wheel: TimingWheel.TimingWheel

    ghost predicate Apart()
      reads sched, wheel
    {
      && sched.prio != wheel.word && sched.target != wheel.word && sched.list != wheel.slots
      && wheel.word.Length == sched.status.Length
    }

    ghost function View(): (k: Clocked)
      requires sched.Shaped()
      reads sched, sched.status, sched.prio, sched.target, sched.list, wheel
      ensures |k.s.tcb| == sched.status.Length
    {
      Clocked(sched.View(), wheel.due)
    }

    ghost predicate Valid()
      reads sched, sched.status, sched.prio, sched.target, sched.list, wheel, wheel.word, wheel.slots
    {
      Apart() && sched.Valid() && wheel.Valid() && ClockedOk(View())
    }

    constructor (tasks: nat, objects: nat, idle: nat)
      ensures Valid() && fresh(sched) && fresh(wheel) && wheel.due == map[]
    {
      sched := new Scheduler.Scheduler(tasks, objects, idle);
      wheel := new TimingWheel.TimingWheel(tasks + 1);
    }

    // osTaskScan, with the tasks whose time is up.
    method TaskScan() returns (fired: seq<nat>)
      requires Valid()
      modifies sched, sched.status, sched.list, wheel, wheel.word, wheel.slots
      ensures Valid() && AreDue(old(wheel.due), fired) && View() == Scan(old(View()), fired)
    {
      hide SchedOk, TimingWheel.WheelOk, TimingWheel.FiredAre, TimingWheel.Tick, AreDue, LapseAll, Schedule;
      ghost var k := View();
      fired := wheel.Scan();
      FiredAreDue(k.due, wheel.stamp, fired);
      DueOnWheel(k, fired);
      var needSchedule := false;
      var i := 0;
      while i < |fired|
        invariant wheel.Valid() && wheel.due == TimingWheel.Tick(k.due)
        invariant i <= |fired| && sched.Valid() && Apart() && OnWheelOnce(sched.View(), fired[i..])
        invariant LapseAll(sched.View(), fired[i..]) == LapseAll(k.s, fired)
        invariant Suspended(k.s, sched.View()) && (needSchedule <==> SomeReadied(k.s, fired[..i]))
      {
        ghost var s := sched.View();
        LapseFirst(s, fired[i..]);
        LapseNext(k.s, s, fired, i);
        sched.ScanTask(fired[i]);
        if !sched.status[fired[i]].suspend {
          needSchedule := true;
        }
        i := i + 1;
      }
      NoneLeft(sched.View(), fired);
      ScanOk(k, fired);
      if needSchedule {
        ScheduleOk(sched.View());
        sched.LosSchedule();
      }
    }

    // LOS_TaskDelay, by a running task that is not on the wheel already.
    method TaskDelay(ticks: nat, inInt: bool) returns (code: Code)
      requires Valid() && ticks < TimingWheel.WORD
      requires ticks > 0 && !inInt && sched.lock == 0 ==> sched.run !in wheel.due
      modifies sched, sched.status, sched.list, wheel, wheel.word, wheel.slots
      ensures sched.Shaped() && View().due == Counted(old(View()), SchedLaws.DelayStep(ticks, inInt), 0)
      ensures (View().s, code) == SchedOps.Delay(old(View()).s, ticks, inInt)
      ensures Valid() <==> old(SchedOps.MayDelay(View().s, ticks, inInt))
    {
      hide SchedOk, TimingWheel.WheelOk, SchedOps.Delay, SchedOps.MayDelay;
      ghost var s := sched.View();
      DelayTells(s, ticks, inInt);
      var t := sched.run;
      code := sched.TaskDelay(ticks, inInt);
      if code == Ok && ticks > 0 {
        wheel.Add(t, ticks);
      }
    }

    // The common part of the pend calls: the running task blocks on object w at position k.
    method BlockOn(w: nat, k: nat, queue: bool, timeout: nat)
      requires Valid() && sched.status[sched.run].ready && !sched.status[sched.run].timeout
      requires PRIORITYNUM + w < sched.list.Length && k <= |sched.list[PRIORITYNUM + w]|
      requires 0 < timeout < TimingWheel.WORD
      modifies sched, sched.status, sched.target, sched.list, wheel, wheel.word, wheel.slots
      ensures Valid()
      ensures var timed := timeout != Timeouts.LOS_WAIT_FOREVER;
              && View().s == SchedOps.Block(old(View()).s, w, k, queue, timed)
              && View().due == Counted(old(View()), SchedLaws.BlockStep(w, k, queue, timed), timeout)
    {
      hide SchedOk, TimingWheel.WheelOk, SchedOps.Block;
      var t := sched.run;
      ReadyIsOff(sched.View());
      BlockTells(sched.View(), w, k, queue, timeout != Timeouts.LOS_WAIT_FOREVER);
      sched.BlockOn(w, k, queue, timeout != Timeouts.LOS_WAIT_FOREVER);
      if timeout != Timeouts.LOS_WAIT_FOREVER {
        wheel.Add(t, timeout);
      }
    }

    // The common part of the post calls: a waiting task gets what it waits for.
    method WakeUp(t: nat)
      requires Valid() && t < sched.status.Length && Waits(sched.status[t])
      modifies sched, sched.status, sched.list, wheel, wheel.word, wheel.slots
      ensures Valid() && View().s == SchedOps.Wake(old(View()).s, t)
      ensures View().due == Counted(old(View()), SchedLaws.WakeStep(t), 0)
    {
      hide SchedOk, TimingWheel.WheelOk, SchedOps.Wake;
      WakeTells(sched.View(), t);
      var timed := sched.status[t].timeout;
      sched.WakeUp(t);
      if timed {
        wheel.Delete(t);
      }
    }
  }

  // ---- Why the steps in between are as they should be ------------------------------------------

  // No task has been suspended or resumed.
  ghost predicate Suspended(s: Sched, z: Sched) {
    |z.tcb| == |s.tcb| && forall t :: 0 <= t < |s.tcb| ==> z.tcb[t].status.suspend == s.tcb[t].status.suspend
  }

  lemma FiredAreDue(due: map<nat, nat>, stamp: map<nat, nat>, fired: seq<nat>)
    requires TimingWheel.FiredAre(due, stamp, fired)
    ensures AreDue(due, fired)
  {
  }

  lemma DueOnWheel(k: Clocked, fired: seq<nat>)
    requires ClockedOk(k) && AreDue(k.due, fired)
    ensures OnWheelOnce(k.s, fired)
  {
    hide SchedOk;
  }

  // The scan goes on from s, its place i.
  lemma LapseNext(k: Sched, s: Sched, fired: seq<nat>, i: nat)
    requires SchedOk(s) && i < |fired| && OnWheelOnce(s, fired[i..]) && Suspended(k, s)
    ensures fired[i] < |s.tcb| && fired[i] in s.wheel && SchedOk(SchedOps.Lapse(s, fired[i]))
    ensures OnWheelOnce(SchedOps.Lapse(s, fired[i]), fired[i + 1..])
    ensures LapseAll(SchedOps.Lapse(s, fired[i]), fired[i + 1..]) == LapseAll(s, fired[i..])
    ensures Suspended(k, SchedOps.Lapse(s, fired[i]))
    ensures SomeReadied(k, fired[..i + 1]) <==> SomeReadied(k, fired[..i]) || !s.tcb[fired[i]].status.suspend
  {
    LapseFirst(s, fired[i..]);
    assert fired[i..][0] == fired[i] && fired[i..][1..] == fired[i + 1..];
    assert fired[..i + 1] == fired[..i] + [fired[i]];
    LapseEffect(s, fired[i]);
    hide SchedOk, SchedOps.Lapse, LapseAll, SchedOps.Lapsed;
  }

  lemma NoneLeft(s: Sched, fired: seq<nat>)
    requires SchedOk(s)
    ensures OnWheelOnce(s, fired[|fired|..]) && LapseAll(s, fired[|fired|..]) == s && fired[..|fired|] == fired
  {
  }

  // A delay goes through and puts the running task on the wheel, or leaves the wheel alone.
  lemma DelayTells(s: Sched, ticks: nat, inInt: bool)
    requires SchedOk(s)
    ensures var (z, code) := SchedOps.Delay(s, ticks, inInt);
            && s.run < |s.tcb| && (ticks > 0 ==> (code == Ok <==> Delays(s, SchedLaws.DelayStep(ticks, inInt))))
            && z.wheel == if Delays(s, SchedLaws.DelayStep(ticks, inInt)) then s.wheel + {s.run} else s.wheel
  {
    hide TcbsOk, PlacesOk, WheelOk, ReadyOk, TopFrom, Unlinked;
  }

  lemma ReadyIsOff(s: Sched)
    requires SchedOk(s)
    ensures s.run < |s.tcb| && (s.tcb[s.run].status.ready ==> s.run !in s.wheel)
  {
    hide PlacesOk, ReadyOk;
  }

  lemma BlockTells(s: Sched, w: nat, k: nat, queue: bool, timed: bool)
    requires SchedOk(s) && s.tcb[s.run].status.ready
    requires PRIORITYNUM + w < |s.lists| && k <= |s.lists[PRIORITYNUM + w]|
    ensures SchedOps.Block(s, w, k, queue, timed).wheel == if timed then s.wheel + {s.run} else s.wheel
  {
    hide TcbsOk, PlacesOk, WheelOk, ReadyOk, TopFrom, Unlinked;
  }

  // A waiter is on the wheel exactly when it waits with a timeout.
  lemma WakeTells(s: Sched, t: nat)
    requires SchedOk(s) && t < |s.tcb| && Waits(s.tcb[t].status)
    ensures SchedOps.Wake(s, t).wheel == s.wheel - {t} && (t in s.wheel <==> s.tcb[t].status.timeout)
  {
    hide PlacesOk, ReadyOk, TopFrom, Unlinked;
  }
}

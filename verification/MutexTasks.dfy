// The mutexes and the scheduler together: what the mutexes take their tasks to be doing is what the control
// blocks and the lists say, inherited priorities included, and no waiter is overtaken.

module MutexTasks {
  import opened Lists
  import opened SchedModel
  import opened SchedOps
  import opened SchedEffects
  import Timeouts = Waits
  import Inversion
  import L = MutexLaws
  import M = MutexModel

  // Mutex m is object base + m of the scheduler.
  datatype Kernel = Kernel(s: Sched, x: M.Sys, base: nat)

  // ---- The joint invariant -----------------------------------------------------------------

  // The bits of a task that the mutexes take to be in phase p.
  predicate BitsFor(p: M.Phase, c: Status) {
    && (p.Waiting? ==> c.pend && (c.timeout <==> p.timed))
    && (p == M.Granted ==> Runnable(c) && !c.timeout)
    && (p == M.Expired ==> Runnable(c) && c.timeout)
  }

  ghost predicate BitsOk(tcb: seq<Tcb>, phase: seq<M.Phase>) {
    |phase| == |tcb| && forall t :: 0 <= t < |tcb| ==> BitsFor(phase[t], tcb[t].status)
  }

  ghost predicate ListsShared(lists: seq<seq<nat>>, mux: seq<M.Mux>, base: nat) {
    && PRIORITYNUM + base + |mux| <= |lists|
    && forall m :: 0 <= m < |mux| ==> lists[PRIORITYNUM + base + m] == mux[m].waiters
  }

  ghost predicate Agree(s: Sched, mux: seq<M.Mux>, phase: seq<M.Phase>, prio: seq<nat>, base: nat) {
    && SchedOk(s) && M.WaitersOk(mux, phase)
    && BitsOk(s.tcb, phase) && PriosOk(s.tcb, prio) && ListsShared(s.lists, mux, base)
  }

  ghost predicate SavedOk(mux: seq<M.Mux>) {
    forall m :: 0 <= m < |mux| && mux[m].count > 0 ==> mux[m].saved < PRIORITYNUM
  }

  ghost predicate KernelOk(k: Kernel) {
    M.SysOk(k.x) && SavedOk(k.x.mux) && Agree(k.s, k.x.mux, k.x.phase, k.x.prio, k.base)
  }

  lemma SysTasks(k: Kernel)
    requires KernelOk(k)
    ensures |k.x.prio| == |k.x.phase| == |k.s.tcb| && k.s.run < |k.s.tcb|
  {
  }

  lemma SysWaiters(x: M.Sys)
    requires M.SysOk(x)
    ensures M.WaitersOk(x.mux, x.phase)
  {
  }

  // ---- One task changes -------------------------------------------------------------------------

  lemma AgreeAfter(s: Sched, z: Sched, x: M.Sys, y: M.Sys, base: nat, t: nat)
    requires Agree(s, x.mux, x.phase, x.prio, base) && t < |s.tcb| && SchedOk(z) && OnlyTask(s, z, t)
    requires |y.phase| == |x.phase| && forall u :: 0 <= u < |x.phase| && u != t ==> y.phase[u] == x.phase[u]
    requires |y.prio| == |x.prio| && forall u :: 0 <= u < |x.prio| && u != t ==> y.prio[u] == x.prio[u]
    requires BitsFor(y.phase[t], z.tcb[t].status) && y.prio[t] == z.tcb[t].prio
    requires M.WaitersOk(y.mux, y.phase) && ListsShared(z.lists, y.mux, base)
    ensures Agree(z, y.mux, y.phase, y.prio, base)
  {
    hide SchedOk, M.WaitersOk, BitsFor, ListsShared;
  }

  // The same when no wait list of a mutex changes, nor anything of the task but its priority.
  lemma AgreeAside(s: Sched, z: Sched, x: M.Sys, base: nat, t: nat)
    requires Agree(s, x.mux, x.phase, x.prio, base) && t < |s.tcb| && SchedOk(z) && OnlyTask(s, z, t)
    requires SameWaitLists(s, z) && BitsFor(x.phase[t], z.tcb[t].status)
    ensures t < |x.prio| && Agree(z, x.mux, x.phase, x.prio[t := z.tcb[t].prio], base)
  {
    SharedSame(s, z, x.mux, base);
    hide SameWaitLists, ListsShared;
    AgreeAfter(s, z, x, x.(prio := x.prio[t := z.tcb[t].prio]), base, t);
  }

  lemma SharedSame(s: Sched, z: Sched, mux: seq<M.Mux>, base: nat)
    requires ListsShared(s.lists, mux, base) && SameWaitLists(s, z)
    ensures ListsShared(z.lists, mux, base)
  {
  }

  // The list of mutex m becomes W.
  lemma SharedAfter(s: Sched, z: Sched, mux: seq<M.Mux>, mux': seq<M.Mux>, base: nat, m: nat)
    requires ListsShared(s.lists, mux, base) && m < |mux| && OtherWaitLists(s, z, base + m) && |mux'| == |mux|
    requires forall n :: 0 <= n < |mux| && n != m ==> mux'[n].waiters == mux[n].waiters
    requires z.lists[PRIORITYNUM + base + m] == mux'[m].waiters
    ensures ListsShared(z.lists, mux', base)
  {
  }

  lemma BitsAt(s: Sched, x: M.Sys, t: nat)
    requires BitsOk(s.tcb, x.phase) && t < |s.tcb|
    ensures t < |x.phase| && BitsFor(x.phase[t], s.tcb[t].status)
  {
  }

  // ---- A blocked pend ------------------------------------------------------------------------------

  // The running task leaves its ready list and lends its priority to task o, if that is less urgent.
  ghost function Lent(s: Sched, o: nat): (z: Sched)
    requires SchedOk(s) && s.tcb[s.run].status.ready && o < |s.tcb|
    ensures SchedOk(z)
  {
    AsideEffect(s);
    var x := Leave(s, s.run, s.tcb[s.run].status.(ready := false), s.wheel);
    LendEffect(x, o, s.tcb[s.run].prio);
    if s.tcb[o].prio > s.tcb[s.run].prio then PriModify(x, o, s.tcb[s.run].prio) else x
  }

  // LOS_MuxPend of object w, owned by task o, once it has to wait: then it joins the wait list at the end
  // and, if timed, the wheel.
  ghost function Pended(s: Sched, w: nat, o: nat, timed: bool): Sched
    requires SchedOk(s) && s.tcb[s.run].status.ready && PRIORITYNUM + w < |s.lists| && o < |s.tcb| && o != s.run
  {
    LentEffect(s, o);
    var y, t := Lent(s, o), s.run;
    Schedule(Join(y, t, y.tcb[t].status.(pend := true, timeout := timed), w, |y.lists[PRIORITYNUM + w]|,
                  if timed then y.wheel + {t} else y.wheel))
  }

  // The running task out of its ready list.
  lemma AsideEffect(s: Sched)
    requires SchedOk(s) && s.tcb[s.run].status.ready
    ensures var (c, z) := (s.tcb[s.run], Leave(s, s.run, s.tcb[s.run].status.(ready := false), s.wheel));
            && SchedOk(z) && OnlyTask(s, z, s.run) && SameWaitLists(s, z) && s.run < |s.tcb|
            && z.tcb[s.run].status == c.status.(ready := false) && z.tcb[s.run].prio == c.prio < PRIORITYNUM
            && !Blocked(c.status) && !c.status.unused
  {
    var c := s.tcb[s.run].status.(ready := false);
    StatusIsOk(s, s.run);
    LeaveEffect(s, s.run, c, s.wheel);
    LeaveOk(s, s.run, c, s.wheel);
    hide PlacesOk, ReadyOk, TcbsOk, Unlinked;
  }

  lemma LendEffect(s: Sched, o: nat, p: nat)
    requires SchedOk(s) && o < |s.tcb| && p < PRIORITYNUM
    ensures var z := PriModify(s, o, p);
            && SchedOk(z) && OnlyTask(s, z, o) && SameWaitLists(s, z) && z.wheel == s.wheel && z.run == s.run
            && z.tcb[o].prio == p && z.tcb[o].status == s.tcb[o].status
  {
    PriModifyEffect(s, o, p);
    hide SchedOk, Unlinked;
  }

  lemma LentEffect(s: Sched, o: nat)
    requires SchedOk(s) && s.tcb[s.run].status.ready && o < |s.tcb| && o != s.run
    ensures var (c, z) := (s.tcb[s.run].status, Lent(s, o));
            && |z.lists| == |s.lists| >= PRIORITYNUM && s.run < |s.tcb| == |z.tcb| && z.run == s.run
            && z.tcb[s.run].status == c.(ready := false) && !Blocked(c) && !c.unused
  {
    AsideEffect(s);
    var x := Leave(s, s.run, s.tcb[s.run].status.(ready := false), s.wheel);
    LendEffect(x, o, s.tcb[s.run].prio);
    StatusIsOk(s, s.run);
    hide SchedOk, PriModify;
  }

  // A task in no list joins a wait list at the end.
  lemma JoinEffect(s: Sched, t: nat, w: nat, timed: bool)
    requires SchedOk(s) && t < |s.tcb| && PRIORITYNUM + w < |s.lists|
    requires var c := s.tcb[t].status; !c.ready && !Blocked(c) && !c.unused
    ensures var (c, n) := (s.tcb[t].status.(pend := true, timeout := timed), |s.lists[PRIORITYNUM + w]|);
            var z := Join(s, t, c, w, n, if timed then s.wheel + {t} else s.wheel);
            && SchedOk(z) && OnlyTask(s, z, t) && OtherWaitLists(s, z, w)
            && z.lists[PRIORITYNUM + w] == s.lists[PRIORITYNUM + w] + [t]
            && z.tcb[t].status == c && z.tcb[t].prio == s.tcb[t].prio
  {
    var c, n := s.tcb[t].status.(pend := true, timeout := timed), |s.lists[PRIORITYNUM + w]|;
    JoinOk(s, t, c, w, n, if timed then s.wheel + {t} else s.wheel);
    hide TcbsOk, PlacesOk, ReadyOk;
  }

  lemma LentAgrees(s: Sched, x: M.Sys, base: nat, o: nat)
    requires Agree(s, x.mux, x.phase, x.prio, base) && o < |s.tcb| == |x.prio| && o != s.run
    requires s.tcb[s.run].status.ready && x.phase[s.run] == M.Outside
    ensures var (p, z) := (x.prio[s.run], Lent(s, o));
            Agree(z, x.mux, x.phase, if x.prio[o] > p then x.prio[o := p] else x.prio, base)
  {
    var t, a := s.run, Leave(s, s.run, s.tcb[s.run].status.(ready := false), s.wheel);
    AsideEffect(s);
    BitsAt(s, x, o);
    PrioIs(s, x.prio, t);
    hide SchedOk, M.WaitersOk, BitsOk, Leave, PriModify, SameWaitLists, ListsShared;
    AgreeAside(s, a, x, base, t);
    var p := s.tcb[t].prio;
    LendEffect(a, o, p);
    if s.tcb[o].prio > p {
      AgreeAside(a, PriModify(a, o, p), x, base, o);
    }
  }

  lemma PendedAgrees(s: Sched, x: M.Sys, y: M.Sys, base: nat, m: nat, timed: bool)
    requires Agree(s, x.mux, x.phase, x.prio, base)
    requires m < |x.mux| && x.mux[m].owner < |s.tcb| && x.mux[m].owner != s.run
    requires s.tcb[s.run].status.ready && x.phase[s.run] == M.Outside && |x.prio| == |s.tcb|
    requires var o := x.mux[m].owner;
             y.prio == if x.prio[o] > x.prio[s.run] then x.prio[o := x.prio[s.run]] else x.prio
    requires y.phase == x.phase[s.run := M.Waiting(m, timed)] && M.WaitersOk(y.mux, y.phase)
    requires |y.mux| == |x.mux| && forall n :: 0 <= n < |x.mux| && n != m ==> y.mux[n].waiters == x.mux[n].waiters
    requires y.mux[m].waiters == x.mux[m].waiters + [s.run]
    ensures PRIORITYNUM + base + m < |s.lists|
    ensures Agree(Pended(s, base + m, x.mux[m].owner, timed), y.mux, y.phase, y.prio, base)
  {
    hide SchedOk, M.WaitersOk, BitsOk, PriosOk, Lent, Join, Schedule;
    LentEffect(s, x.mux[m].owner);
    LentAgrees(s, x, base, x.mux[m].owner);
    JoinedAgrees(Lent(s, x.mux[m].owner), x.(prio := y.prio), y, base, m, timed);
  }

  // The running task, in no list, joins that of mutex m.
  lemma JoinedAgrees(s: Sched, x: M.Sys, y: M.Sys, base: nat, m: nat, timed: bool)
    requires Agree(s, x.mux, x.phase, x.prio, base) && m < |x.mux| && s.run < |s.tcb| && y.prio == x.prio
    requires var c := s.tcb[s.run].status; !c.ready && !Blocked(c) && !c.unused
    requires y.phase == x.phase[s.run := M.Waiting(m, timed)] && M.WaitersOk(y.mux, y.phase)
    requires |y.mux| == |x.mux| && forall n :: 0 <= n < |x.mux| && n != m ==> y.mux[n].waiters == x.mux[n].waiters
    requires y.mux[m].waiters == x.mux[m].waiters + [s.run]
    ensures PRIORITYNUM + base + m < |s.lists| && PRIORITYNUM <= |s.lists|
    ensures var t, n := s.run, |s.lists[PRIORITYNUM + base + m]|;
            var z := Join(s, t, s.tcb[t].status.(pend := true, timeout := timed), base + m, n,
                          if timed then s.wheel + {t} else s.wheel);
            |z.lists| >= PRIORITYNUM && Agree(Schedule(z), y.mux, y.phase, y.prio, base)
  {
    var t := s.run;
    BitsAt(s, x, t);
    hide SchedOk, M.WaitersOk, Join, Schedule, OtherWaitLists;
    JoinEffect(s, t, base + m, timed);
    var z := Join(s, t, s.tcb[t].status.(pend := true, timeout := timed), base + m,
                  |s.lists[PRIORITYNUM + base + m]|, if timed then s.wheel + {t} else s.wheel);
    SharedAfter(s, z, x.mux, y.mux, base, m);
    AgreeAfter(s, z, x, y, base, t);
    ScheduleOk(z);
    ScheduleEffect(z);
  }

  // ---- A post ----------------------------------------------------------------------------------------

  // LOS_MuxPost of the last pend: the running task is back at its saved priority, and the longest waiter
  // is woken.
  ghost function Posted(s: Sched, saved: nat, waiters: seq<nat>): Sched
    requires SchedOk(s) && saved < PRIORITYNUM && (waiters != [] ==> waiters[0] < |s.tcb|)
  {
    LendEffect(s, s.run, saved);
    var z := if s.tcb[s.run].prio != saved then PriModify(s, s.run, saved) else s;
    if waiters == [] then z else Wake(z, waiters[0])
  }

  lemma PostedAgrees(s: Sched, x: M.Sys, y: M.Sys, base: nat, m: nat, saved: nat)
    requires Agree(s, x.mux, x.phase, x.prio, base) && m < |x.mux| && saved < PRIORITYNUM && |x.prio| == |s.tcb|
    requires var W := x.mux[m].waiters;
             && y.prio == x.prio[s.run := saved] && |y.mux| == |x.mux|
             && (forall n :: 0 <= n < |x.mux| && n != m ==> y.mux[n].waiters == x.mux[n].waiters)
             && (W == [] ==> y.mux[m].waiters == [] && y.phase == x.phase)
             && (W != [] ==>
                   && W[0] < |x.phase| && x.phase[W[0]].Waiting? && W[0] != s.run && y.mux[m].waiters == W[1..]
                   && y.phase == x.phase[W[0] := M.Granted])
    requires M.WaitersOk(y.mux, y.phase)
    ensures Agree(Posted(s, saved, x.mux[m].waiters), y.mux, y.phase, y.prio, base)
  {
    var t, W := s.run, x.mux[m].waiters;
    LendEffect(s, t, saved);
    BitsAt(s, x, t);
    PrioIs(s, x.prio, t);
    hide SchedOk, BitsOk, PriModify, SameWaitLists, OtherWaitLists, Wake;
    var z := if s.tcb[t].prio != saved then PriModify(s, t, saved) else s;
    AgreeAside(s, z, x, base, t);
    if W == [] {
      hide M.WaitersOk;
    } else {
      WokenAgrees(z, x.(prio := y.prio), y, base, m);
    }
  }

  lemma WokenAgrees(s: Sched, x: M.Sys, y: M.Sys, base: nat, m: nat)
    requires Agree(s, x.mux, x.phase, x.prio, base) && m < |x.mux| && x.mux[m].waiters != []
    requires x.mux[m].waiters[0] < |x.phase| && |y.mux| == |x.mux| && y.mux[m].waiters == x.mux[m].waiters[1..]
    requires forall n :: 0 <= n < |x.mux| && n != m ==> y.mux[n].waiters == x.mux[n].waiters
    requires y.phase == x.phase[x.mux[m].waiters[0] := M.Granted] && y.prio == x.prio && M.WaitersOk(y.mux, y.phase)
    ensures x.mux[m].waiters[0] < |s.tcb|
    ensures Agree(Wake(s, x.mux[m].waiters[0]), y.mux, y.phase, y.prio, base)
  {
    var u := x.mux[m].waiters[0];
    assert u in s.lists[PRIORITYNUM + base + m];
    MemberWaits(s, base + m, u);
    WakeEffect(s, u);
    WithoutHead(x.mux[m].waiters);
    hide SchedOk, BitsOk, OtherWaitLists, Wake, M.WaitersOk, Without;
    SharedAfter(s, Wake(s, u), x.mux, y.mux, base, m);
    hide ListsShared;
    AgreeAfter(s, Wake(s, u), x, y, base, u);
  }

  lemma WithoutHead(W: seq<nat>)
    requires W != []
    ensures Without(W, W[0]) == W[1..]
  {
  }

  // ---- A timeout ---------------------------------------------------------------------------------------

  // A task that waits for mutex m is in the list of its object.
  lemma WaiterListed(s: Sched, x: M.Sys, base: nat, t: nat)
    requires Agree(s, x.mux, x.phase, x.prio, base) && t < |x.phase| && x.phase[t].Waiting?
    ensures var m := x.phase[t].mux;
            && m < |x.mux| && t < |s.tcb| && PRIORITYNUM + base + m < |s.lists|
            && s.lists[PRIORITYNUM + base + m] == x.mux[m].waiters
            && SchedModel.Waits(s.tcb[t].status) && s.tcb[t].target == base + m
  {
    var m := x.phase[t].mux;
    assert t in x.mux[m].waiters;
    MemberWaits(s, base + m, t);
    hide SchedOk;
  }

  lemma AgreeParts(s: Sched, x: M.Sys, base: nat)
    requires Agree(s, x.mux, x.phase, x.prio, base)
    ensures SchedOk(s) && M.WaitersOk(x.mux, x.phase)
    ensures BitsOk(s.tcb, x.phase) && PriosOk(s.tcb, x.prio) && ListsShared(s.lists, x.mux, base)
    ensures |x.phase| == |x.prio| == |s.tcb|
  {
  }

  lemma TimeUpBits(p: M.Phase, c: Status)
    requires StatusOk(c) && OnWheel(c) && BitsFor(p, c) && p.Waiting?
    ensures p.timed && BitsFor(M.Expired, c.(pend := false, pendQueue := false, ready := !c.suspend))
  {
  }

  // With its timeout the task leaves the list.
  lemma ExpireFacts(x: M.Sys, t: nat)
    requires M.SysOk(x) && t < |x.phase| && x.phase[t].Waiting?
    ensures var (y, m) := (M.Expire(x, t), x.phase[t].mux);
            && m < |x.mux| == |y.mux| && M.WaitersOk(y.mux, y.phase)
            && y.phase == x.phase[t := M.Expired] && y.prio == x.prio
            && y.mux[m].waiters == Without(x.mux[m].waiters, t)
            && forall n :: 0 <= n < |x.mux| && n != m ==> y.mux[n].waiters == x.mux[n].waiters
  {
    M.ExpireOk(x, t);
    SysWaiters(M.Expire(x, t));
    hide M.MuxesOk, M.Inherits, M.UnusedOk, Without;
  }

  lemma TimeUpAgrees(s: Sched, x: M.Sys, base: nat, t: nat)
    requires Agree(s, x.mux, x.phase, x.prio, base) && M.SysOk(x)
    requires t in s.wheel && t < |x.phase| && x.phase[t].Waiting?
    ensures x.phase[t].timed
    ensures var y := M.Expire(x, t); Agree(Expire(s, t), y.mux, y.phase, y.prio, base)
  {
    hide *;
    AgreeParts(s, x, base);
    var (m, y) := (x.phase[t].mux, M.Expire(x, t));
    WaiterListed(s, x, base, t);
    ExpireFacts(x, t);
    ExpireEffect(s, t);
    OnWheelBits(s, t);
    StatusIsOk(s, t);
    BitsAt(s, x, t);
    TimeUpBits(x.phase[t], s.tcb[t].status);
    PrioIs(s, x.prio, t);
    SharedAfter(s, Expire(s, t), x.mux, y.mux, base, m);
    AgreeAfter(s, Expire(s, t), x, y, base, t);
  }

  // A task that is not waiting for a mutex waits elsewhere, if at all.
  lemma OutsideElsewhere(s: Sched, x: M.Sys, base: nat, t: nat)
    requires Agree(s, x.mux, x.phase, x.prio, base) && t < |s.tcb|
    requires !x.phase[t].Waiting? && SchedModel.Waits(s.tcb[t].status)
    ensures !(base <= s.tcb[t].target < base + |x.mux|)
  {
    if base <= s.tcb[t].target < base + |x.mux| {
      NotFor(s, x, base, t, s.tcb[t].target - base);
    }
  }

  lemma NotFor(s: Sched, x: M.Sys, base: nat, t: nat, m: nat)
    requires Agree(s, x.mux, x.phase, x.prio, base) && t < |s.tcb| && m < |x.mux|
    requires !x.phase[t].Waiting? && SchedModel.Waits(s.tcb[t].status)
    ensures s.tcb[t].target != base + m
  {
    assert t in s.lists[PRIORITYNUM + s.tcb[t].target];
    assert t !in x.mux[m].waiters;
    hide OldestFirst, Distinct, WheelOk;
  }

  // One task changes and no list of a mutex, others may.
  lemma AgreeBeside(s: Sched, z: Sched, x: M.Sys, base: nat, t: nat, v: nat)
    requires Agree(s, x.mux, x.phase, x.prio, base) && t < |s.tcb| && !(base <= v < base + |x.mux|)
    requires SchedOk(z) && OnlyTask(s, z, t) && OtherWaitLists(s, z, v) && BitsFor(x.phase[t], z.tcb[t].status)
    requires z.tcb[t].prio == s.tcb[t].prio
    ensures Agree(z, x.mux, x.phase, x.prio, base)
  {
    hide SchedOk, M.WaitersOk, BitsFor;
    AgreeAfter(s, z, x, x, base, t);
  }

  // ---- Steps -----------------------------------------------------------------------------------

  datatype Step =
    | PendStep(m: nat, c: M.Call) | PostStep(m: nat, c: M.Call) | RunStep | TimeUpStep(t: nat)
    | MuxCreateStep | MuxDeleteStep(m: nat)
    | SuspendStep(t: nat, idle: nat) | ResumeStep(t: nat) | PriStep(t: nat, p: nat, idle: nat) | YieldStep
    | DelayStep(ticks: nat, inInt: bool) | BlockStep(v: nat, i: nat, queue: bool, timed: bool) | WakeStep(t: nat)
    | ReadTimeoutStep | CreateStep(t: nat, p: nat) | LockStep | UnlockStep

  // The running task can make a call that may block.
  ghost predicate MayCall(k: Kernel)
    requires k.s.run < |k.s.tcb| == |k.x.phase|
  {
    k.s.tcb[k.s.run].status.ready && !k.s.tcb[k.s.run].status.timeout && k.x.phase[k.s.run] == M.Outside
  }

  ghost predicate CallerOk(k: Kernel, c: M.Call)
    requires k.s.run < |k.s.tcb| == |k.x.phase|
  {
    M.CallOk(k.x, c) && (!c.inInterrupt ==> c.task == k.s.run && MayCall(k)) && (c.locked <==> k.s.lock != 0)
  }

  // Only the 65536th nested pend is ruled out.
  ghost predicate Enabled(k: Kernel, e: Step)
    requires KernelOk(k)
  {
    var (s, x, run) := (k.s, k.x, k.s.run);
    match e
    case PendStep(m, c) => CallerOk(k, c) && !M.Wraps(x, m, c)
    case PostStep(_, c) => CallerOk(k, c)
    case RunStep => s.tcb[run].status.ready && (x.phase[run] == M.Granted || x.phase[run] == M.Expired)
    case TimeUpStep(t) => t in s.wheel && t < |s.tcb|
    case MuxCreateStep => true
    case MuxDeleteStep(_) => true
    case SuspendStep(t, _) => t < |s.tcb|
    case ResumeStep(t) => t < |s.tcb|
    case PriStep(t, _, _) => t < |s.tcb|
    case YieldStep => s.tcb[run].status.ready
    case DelayStep(_, _) => MayCall(k)
    case BlockStep(v, i, _, _) =>
      && MayCall(k) && !(k.base <= v < k.base + |x.mux|)
      && PRIORITYNUM + v < |s.lists| && i <= |s.lists[PRIORITYNUM + v]|
    case WakeStep(t) => t < |s.tcb| && SchedModel.Waits(s.tcb[t].status) && x.phase[t] == M.Outside
    case ReadTimeoutStep => s.tcb[run].status.ready && x.phase[run] == M.Outside
    case CreateStep(t, _) => t < |s.tcb| && s.tcb[t].status.unused && x.phase[t] == M.Outside
    case LockStep => true
    case UnlockStep => true
  }

  // What a step is to the mutexes alone, if anything.
  datatype Projected = Nothing | Something(e: L.Step)

  ghost function Project(k: Kernel, e: Step): Projected
    requires KernelOk(k) && Enabled(k, e)
  {
    match e
    case PendStep(m, c) => Something(L.PendStep(m, c))
    case PostStep(m, c) => Something(L.PostStep(m, c))
    case RunStep => Something(L.ResumeStep(k.s.run))
    case TimeUpStep(t) => if k.x.phase[t].Waiting? then Something(L.ExpireStep(t)) else Nothing
    case MuxCreateStep => Something(L.CreateStep)
    case MuxDeleteStep(m) => Something(L.DeleteStep(m))
    case PriStep(t, p, idle) => if PriSet(k.s, t, p, idle).1 == Ok then Something(L.PriSetStep(t, p)) else Nothing
    case CreateStep(t, p) => if p <= LOWEST then Something(L.PriSetStep(t, p)) else Nothing
    case _ => Nothing
  }

  lemma ProjectEnabled(k: Kernel, e: Step)
    requires KernelOk(k) && Enabled(k, e)
    ensures Project(k, e).Something? ==> L.Enabled(k.x, Project(k, e).e)
  {
    if e.TimeUpStep? {
      OnWheelBits(k.s, e.t);
      BitsAt(k.s, k.x, e.t);
      StatusIsOk(k.s, e.t);
    }
    hide SchedOk, M.MuxesOk, M.WaitersOk, M.Inherits, M.UnusedOk, M.Wraps;
  }

  ghost predicate MustWait(k: Kernel, m: nat, c: M.Call)
    requires KernelOk(k) && CallerOk(k, c)
  {
    M.Pend(k.x, m, c).1 == M.Blocked
  }

  lemma WaitsBehind(k: Kernel, m: nat, c: M.Call)
    requires KernelOk(k) && CallerOk(k, c) && MustWait(k, m, c)
    ensures m < |k.x.mux| && k.x.mux[m].owner < |k.s.tcb| && k.x.mux[m].owner != k.s.run && c.task == k.s.run
    ensures PRIORITYNUM + k.base + m < |k.s.lists|
    ensures k.s.tcb[k.s.run].status.ready && k.x.phase[k.s.run] == M.Outside
  {
    Inversion.BlockedBy(k.x, m, c);
    SysTasks(k);
    hide M.SysOk, M.Pend, SchedOk, M.WaitersOk;
  }

  ghost function PendSched(k: Kernel, m: nat, c: M.Call): Sched
    requires KernelOk(k) && CallerOk(k, c)
  {
    if MustWait(k, m, c) then
      WaitsBehind(k, m, c);
      Pended(k.s, k.base + m, k.x.mux[m].owner, c.timeout != Timeouts.LOS_WAIT_FOREVER)
    else k.s
  }

  ghost function PostSched(k: Kernel, m: nat, c: M.Call): Sched
    requires KernelOk(k) && CallerOk(k, c)
  {
    if Inversion.Releases(k.x, m, c) then
      Inversion.WaitersAre(k.x, m);
      Posted(k.s, k.x.mux[m].saved, k.x.mux[m].waiters)
    else k.s
  }

  ghost function DoSched(k: Kernel, e: Step): Sched
    requires KernelOk(k) && Enabled(k, e)
  {
    var s := k.s;
    match e
    case PendStep(m, c) => PendSched(k, m, c)
    case PostStep(m, c) => PostSched(k, m, c)
    case RunStep => if k.x.phase[s.run] == M.Expired then ReadTimeout(s) else s
    case TimeUpStep(t) => Expire(s, t)
    case MuxCreateStep => s
    case MuxDeleteStep(_) => s
    case SuspendStep(t, idle) => Suspend(s, t, idle).0
    case ResumeStep(t) => Resume(s, t).0
    case PriStep(t, p, idle) => PriSet(s, t, p, idle).0
    case YieldStep => Yield(s).0
    case DelayStep(ticks, inInt) => Delay(s, ticks, inInt).0
    case BlockStep(v, i, queue, timed) => Block(s, v, i, queue, timed)
    case WakeStep(t) => Wake(s, t)
    case ReadTimeoutStep => ReadTimeout(s)
    case CreateStep(t, p) => Create(s, t, p).0
    case LockStep => Lock(s)
    case UnlockStep => Unlock(s)
  }

  ghost function DoMux(k: Kernel, e: Step): M.Sys
    requires KernelOk(k) && Enabled(k, e)
  {
    ProjectEnabled(k, e);
    if Project(k, e).Something? then L.Do(k.x, Project(k, e).e) else k.x
  }

  ghost function Do(k: Kernel, e: Step): Kernel
    requires KernelOk(k) && Enabled(k, e)
  {
    k.(s := DoSched(k, e), x := DoMux(k, e))
  }

  // ---- Every step keeps the agreement ------------------------------------------------------------

  // Nobody moves.
  lemma AgreeStill(s: Sched, x: M.Sys, y: M.Sys, base: nat)
    requires Agree(s, x.mux, x.phase, x.prio, base) && y.phase == x.phase && y.prio == x.prio
    requires |y.mux| == |x.mux| && forall n :: 0 <= n < |x.mux| ==> y.mux[n].waiters == x.mux[n].waiters
    ensures Agree(s, y.mux, y.phase, y.prio, base)
  {
    hide SchedOk;
  }

  lemma PendFacts(k: Kernel, m: nat, c: M.Call)
    requires KernelOk(k) && CallerOk(k, c)
    ensures var (x, y) := (k.x, M.Pend(k.x, m, c).0);
            && (!MustWait(k, m, c) ==>
                  && y.phase == x.phase && y.prio == x.prio && |y.mux| == |x.mux|
                  && forall n :: 0 <= n < |x.mux| ==> y.mux[n].waiters == x.mux[n].waiters)
            && (MustWait(k, m, c) ==>
                  && c.task == k.s.run && m < |x.mux|
                  && |y.mux| == |x.mux| && y.mux[m].waiters == x.mux[m].waiters + [k.s.run]
                  && (forall n :: 0 <= n < |x.mux| && n != m ==> y.mux[n].waiters == x.mux[n].waiters)
                  && y.phase == x.phase[k.s.run := M.Waiting(m, c.timeout != Timeouts.LOS_WAIT_FOREVER)]
                  && var (q, p) := (x.mux[m].owner, x.prio[k.s.run]);
                  q < |x.prio| && y.prio == if x.prio[q] > p then x.prio[q := p] else x.prio)
  {
    if MustWait(k, m, c) {
      Inversion.BlockedBy(k.x, m, c);
    }
    hide SchedOk, M.MuxesOk, M.WaitersOk, M.Inherits, M.UnusedOk, M.HoldsNone, M.Best, Agree;
  }

  lemma PendKeeps(k: Kernel, m: nat, c: M.Call)
    requires KernelOk(k) && CallerOk(k, c) && !M.Wraps(k.x, m, c)
    ensures var y := M.Pend(k.x, m, c).0; Agree(PendSched(k, m, c), y.mux, y.phase, y.prio, k.base)
  {
    hide *;
    PendSchedIs(k, m, c);
    if MustWait(k, m, c) {
      PendBlocks(k, m, c);
    } else {
      PendReturns(k, m, c);
    }
  }

  lemma PendReturns(k: Kernel, m: nat, c: M.Call)
    requires KernelOk(k) && CallerOk(k, c) && !MustWait(k, m, c)
    ensures var y := M.Pend(k.x, m, c).0; Agree(k.s, y.mux, y.phase, y.prio, k.base)
  {
    var y := M.Pend(k.x, m, c).0;
    hide M.SysOk, M.Pend, Agree, SavedOk, MustWait;
    PendFacts(k, m, c);
    AgreeStill(k.s, k.x, y, k.base);
  }

  lemma CallerPends(k: Kernel, m: nat, c: M.Call)
    requires KernelOk(k) && CallerOk(k, c)
    ensures M.CanPend(k.x, m, c) && Agree(k.s, k.x.mux, k.x.phase, k.x.prio, k.base)
  {
    hide SchedOk, BitsOk, ListsShared, SavedOk, M.WaitersOk, M.UnusedOk, M.Inherits, Distinct;
  }

  lemma PendBlocks(k: Kernel, m: nat, c: M.Call)
    requires KernelOk(k) && CallerOk(k, c) && !M.Wraps(k.x, m, c) && MustWait(k, m, c)
    ensures m < |k.x.mux| && k.x.mux[m].owner < |k.s.tcb| && PRIORITYNUM + k.base + m < |k.s.lists|
    ensures var (y, timed) := (M.Pend(k.x, m, c).0, c.timeout != Timeouts.LOS_WAIT_FOREVER);
            && k.s.tcb[k.s.run].status.ready
            && Agree(Pended(k.s, k.base + m, k.x.mux[m].owner, timed), y.mux, y.phase, y.prio, k.base)
  {
    hide *;
    CallerPends(k, m, c);
    var y := M.Pend(k.x, m, c).0;
    SysTasks(k);
    PendFacts(k, m, c);
    WaitsBehind(k, m, c);
    PendWaiters(k, m, c);
    PendedAgrees(k.s, k.x, y, k.base, m, c.timeout != Timeouts.LOS_WAIT_FOREVER);
  }

  lemma PendSchedIs(k: Kernel, m: nat, c: M.Call)
    requires KernelOk(k) && CallerOk(k, c)
    ensures !MustWait(k, m, c) ==> PendSched(k, m, c) == k.s
    ensures MustWait(k, m, c) ==>
              && m < |k.x.mux| && k.x.mux[m].owner < |k.s.tcb| && PRIORITYNUM + k.base + m < |k.s.lists|
              && k.s.tcb[k.s.run].status.ready
              && PendSched(k, m, c) ==
                 Pended(k.s, k.base + m, k.x.mux[m].owner, c.timeout != Timeouts.LOS_WAIT_FOREVER)
  {
    hide M.SysOk, Agree, Pended, SavedOk, SchedOk, MustWait;
    if MustWait(k, m, c) {
      WaitsBehind(k, m, c);
    }
  }

  lemma PendWaiters(k: Kernel, m: nat, c: M.Call)
    requires KernelOk(k) && CallerOk(k, c) && !M.Wraps(k.x, m, c)
    ensures var y := M.Pend(k.x, m, c).0; M.WaitersOk(y.mux, y.phase)
  {
    M.PendOkIff(k.x, m, c);
    hide M.WaitersOk, M.Wraps, M.Pend, M.MuxesOk;
  }

  lemma PostFacts(k: Kernel, m: nat, c: M.Call)
    requires KernelOk(k) && CallerOk(k, c)
    ensures var (x, y) := (k.x, M.Post(k.x, m, c).0);
            && |y.mux| == |x.mux|
            && (!Inversion.Releases(x, m, c) ==>
                  && y.phase == x.phase && y.prio == x.prio
                  && forall n :: 0 <= n < |x.mux| ==> y.mux[n].waiters == x.mux[n].waiters)
            && (Inversion.Releases(x, m, c) ==>
                  && c.task == k.s.run && m < |x.mux| && k.s.run < |x.prio|
                  && y.prio == x.prio[k.s.run := x.mux[m].saved]
                  && (forall n :: 0 <= n < |x.mux| && n != m ==> y.mux[n].waiters == x.mux[n].waiters)
                  && var W := x.mux[m].waiters;
                  && (W == [] ==> y.mux[m].waiters == [] && y.phase == x.phase)
                  && (W != [] ==>
                        && W[0] < |x.phase| && x.phase[W[0]].Waiting? && W[0] != k.s.run && y.mux[m].waiters == W[1..]
                        && y.phase == x.phase[W[0] := M.Granted]))
  {
    Inversion.PostTasks(k.x, m, c);
    if Inversion.Releases(k.x, m, c) {
      Inversion.WaitersAre(k.x, m);
    }
    hide SchedOk, M.MuxesOk, M.WaitersOk, M.Inherits, M.UnusedOk, M.HoldsNone, M.Best, Agree, Distinct;
  }

  lemma PostKeeps(k: Kernel, m: nat, c: M.Call)
    requires KernelOk(k) && CallerOk(k, c)
    ensures var y := M.Post(k.x, m, c).0; Agree(PostSched(k, m, c), y.mux, y.phase, y.prio, k.base)
  {
    var y := M.Post(k.x, m, c).0;
    M.PostOk(k.x, m, c);
    PostFacts(k, m, c);
    SysTasks(k);
    SysWaiters(y);
    hide SchedOk, M.SysOk, M.Post, BitsOk, PriosOk, ListsShared, M.WaitersOk, Posted;
    if Inversion.Releases(k.x, m, c) {
      Inversion.WaitersAre(k.x, m);
      PostedAgrees(k.s, k.x, y, k.base, m, k.x.mux[m].saved);
    } else {
      AgreeStill(k.s, k.x, y, k.base);
    }
  }

  // A task whose pend ends: of its bits the mutexes say no more.
  lemma RunKeeps(k: Kernel)
    requires KernelOk(k) && Enabled(k, RunStep)
    ensures var y := M.Resume(k.x, k.s.run).0; Agree(DoSched(k, RunStep), y.mux, y.phase, y.prio, k.base)
  {
    var (s, x, t) := (k.s, k.x, k.s.run);
    var y := M.Resume(x, t).0;
    M.ResumeOk(x, t);
    SysWaiters(y);
    ReadTimeoutEffect(s);
    PrioIs(s, x.prio, t);
    hide SchedOk, M.SysOk, M.WaitersOk, ReadTimeout, ListsShared;
    SharedSame(s, ReadTimeout(s), x.mux, k.base);
    AgreeAfter(s, DoSched(k, RunStep), x, y, k.base, t);
  }

  lemma TimeUpElsewhere(s: Sched, x: M.Sys, base: nat, t: nat)
    requires Agree(s, x.mux, x.phase, x.prio, base) && t in s.wheel && t < |x.phase| && !x.phase[t].Waiting?
    ensures Agree(Expire(s, t), x.mux, x.phase, x.prio, base)
  {
    OnWheelBits(s, t);
    ExpireEffect(s, t);
    BitsAt(s, x, t);
    PrioIs(s, x.prio, t);
    if SchedModel.Waits(s.tcb[t].status) {
      OutsideElsewhere(s, x, base, t);
      hide SchedOk, Expire, ListsShared, M.WaitersOk;
      AgreeBeside(s, Expire(s, t), x, base, t, s.tcb[t].target);
    } else {
      hide SchedOk, Expire, ListsShared, M.WaitersOk;
      AgreeAside(s, Expire(s, t), x, base, t);
    }
  }

  // A task call that changes one task and no wait list.
  lemma TaskCallKeeps(k: Kernel, e: Step)
    requires KernelOk(k) && Enabled(k, e)
    requires e.SuspendStep? || e.ResumeStep? || e.YieldStep? || e.DelayStep? || e.ReadTimeoutStep?
    ensures Agree(DoSched(k, e), k.x.mux, k.x.phase, k.x.prio, k.base)
  {
    var (s, x, z) := (k.s, k.x, DoSched(k, e));
    var t := if e.SuspendStep? || e.ResumeStep? then e.t else s.run;
    BitsAt(s, x, t);
    match e {
      case SuspendStep(_, idle) => SuspendEffect(s, t, idle);
      case ResumeStep(_) => ResumeEffect(s, t);
      case YieldStep => YieldEffect(s);
      case DelayStep(ticks, inInt) => DelayEffect(s, ticks, inInt);
      case ReadTimeoutStep => ReadTimeoutEffect(s);
    }
    StatusIsOk(s, t);
    PrioIs(s, x.prio, t);
    hide SchedOk, Suspend, Resume, Yield, Delay, ReadTimeout, M.SysOk, M.WaitersOk, ListsShared, PriosOk, BitsOk;
    AgreeAside(s, z, x, k.base, t);
  }

  // A task whose priority is set, or that is created with it.
  lemma PriKeeps(k: Kernel, e: Step)
    requires KernelOk(k) && Enabled(k, e) && (e.PriStep? || e.CreateStep?)
    ensures Agree(DoSched(k, e), k.x.mux, k.x.phase,
                  if Project(k, e).Something? then k.x.prio[e.t := e.p] else k.x.prio, k.base)
  {
    var (s, x, t) := (k.s, k.x, e.t);
    BitsAt(s, x, t);
    PrioIs(s, x.prio, t);
    if e.PriStep? {
      PriSetEffect(s, t, e.p, e.idle);
    } else if e.p <= LOWEST {
      CreateEffect(s, t, e.p);
    }
    hide SchedOk, PriSet, M.SysOk, M.WaitersOk, ListsShared, PriosOk, BitsOk;
    var z := DoSched(k, e);
    hide Create;
    if e.PriStep? || e.p <= LOWEST {
      AgreeAside(s, z, x, k.base, t);
    } else {
      CreateRefused(s, t, e.p);
    }
  }

  lemma CreateRefused(s: Sched, t: nat, p: nat)
    requires SchedOk(s) && t < |s.tcb| && p > LOWEST
    ensures Create(s, t, p).0 == s
  {
  }

  lemma BesideKeeps(k: Kernel, e: Step)
    requires KernelOk(k) && Enabled(k, e) && (e.BlockStep? || e.WakeStep?)
    ensures Agree(DoSched(k, e), k.x.mux, k.x.phase, k.x.prio, k.base)
  {
    var (s, x) := (k.s, k.x);
    match e {
      case BlockStep(v, i, queue, timed) =>
        BlockEffect(s, v, i, queue, timed);
        hide SchedOk, Block, M.SysOk, M.WaitersOk, ListsShared, BitsOk;
        AgreeBeside(s, Block(s, v, i, queue, timed), x, k.base, s.run, v);
      case WakeStep(t) =>
        WakeEffect(s, t);
        OutsideElsewhere(s, x, k.base, t);
        hide SchedOk, Wake, M.SysOk, M.WaitersOk, ListsShared, BitsOk;
        AgreeBeside(s, Wake(s, t), x, k.base, t, s.tcb[t].target);
    }
  }

  lemma LockKeeps(s: Sched, x: M.Sys, base: nat)
    requires Agree(s, x.mux, x.phase, x.prio, base)
    ensures Agree(Lock(s), x.mux, x.phase, x.prio, base) && Agree(Unlock(s), x.mux, x.phase, x.prio, base)
  {
    UnlockOk(s);
    assert Unlock(s).tcb == s.tcb && Unlock(s).lists == s.lists;
    hide SchedOk, M.WaitersOk, ListsShared, BitsOk, PriosOk, Unlock;
  }

  // LOS_MuxCreate and LOS_MuxDelete: nobody waits for an unused mutex.
  lemma MuxCallKeeps(k: Kernel, e: Step)
    requires KernelOk(k) && (e.MuxCreateStep? || e.MuxDeleteStep?)
    ensures Agree(k.s, DoMux(k, e).mux, DoMux(k, e).phase, DoMux(k, e).prio, k.base)
  {
    var (x, y) := (k.x, DoMux(k, e));
    if e.MuxCreateStep? && x.unused != [] {
      assert x.unused[0] in x.unused;
      assert M.MuxOk(x.mux[x.unused[0]], x.history[x.unused[0]], |x.prio|);
    }
    hide SchedOk, M.WaitersOk, M.Inherits, Agree, SavedOk, Distinct;
    AgreeStill(k.s, x, y, k.base);
  }

  // A saved priority is one that a task has had.
  lemma SavedStep(x: M.Sys, e: L.Step)
    requires M.SysOk(x) && L.Enabled(x, e) && SavedOk(x.mux)
    requires forall t :: 0 <= t < |x.prio| ==> x.prio[t] < PRIORITYNUM
    ensures SavedOk(L.Do(x, e).mux)
  {
    hide M.Inherits, M.Best, M.HoldsNone, Distinct, Without, M.Wraps;
    match e
    case PostStep(m, c) =>
      if m < |x.mux| && x.mux[m].waiters != [] {
        assert x.mux[m].waiters[0] in x.mux[m].waiters;
      }
    case ExpireStep(t) =>
      assert t in x.mux[x.phase[t].mux].waiters;
    case CreateStep =>
      assert x.unused != [] ==> x.unused[0] in x.unused;
    case _ =>
  }

  lemma PriosInRange(k: Kernel)
    requires KernelOk(k)
    ensures forall t :: 0 <= t < |k.x.prio| ==> k.x.prio[t] < PRIORITYNUM
  {
    hide PlacesOk, ReadyOk, WheelOk, M.SysOk, M.WaitersOk;
  }

  lemma AgreeDone(k: Kernel, e: Step)
    requires KernelOk(k) && Enabled(k, e)
    ensures Agree(DoSched(k, e), DoMux(k, e).mux, DoMux(k, e).phase, DoMux(k, e).prio, k.base)
  {
    SysTasks(k);
    ProjectEnabled(k, e);
    hide M.SysOk, Agree, M.Pend, M.Post, M.Expire, M.Create, M.Delete, PendSched, PostSched, M.Wraps, SavedOk;
    match e
    case PendStep(m, c) => PendKeeps(k, m, c);
    case PostStep(m, c) => PostKeeps(k, m, c);
    case RunStep => RunKeeps(k);
    case TimeUpStep(t) =>
      if k.x.phase[t].Waiting? {
        TimeUpAgrees(k.s, k.x, k.base, t);
      } else {
        TimeUpElsewhere(k.s, k.x, k.base, t);
      }
    case MuxCreateStep => MuxCallKeeps(k, e);
    case MuxDeleteStep(_) => MuxCallKeeps(k, e);
    case PriStep(_, _, _) => PriKeeps(k, e);
    case CreateStep(_, _) => PriKeeps(k, e);
    case BlockStep(_, _, _, _) => BesideKeeps(k, e);
    case WakeStep(_) => BesideKeeps(k, e);
    case LockStep => LockKeeps(k.s, k.x, k.base);
    case UnlockStep => LockKeeps(k.s, k.x, k.base);
    case _ => TaskCallKeeps(k, e);
  }

  lemma DoOk(k: Kernel, e: Step)
    requires KernelOk(k) && Enabled(k, e)
    ensures KernelOk(Do(k, e)) && Do(k, e).base == k.base && |Do(k, e).x.mux| == |k.x.mux|
  {
    ProjectEnabled(k, e);
    PriosInRange(k);
    AgreeDone(k, e);
    hide M.SysOk, Agree, SavedOk, Enabled, Project, DoSched, L.Do, L.Enabled;
    if Project(k, e).Something? {
      L.DoOk(k.x, Project(k, e).e);
      SavedStep(k.x, Project(k, e).e);
    }
  }

  // ---- Runs ---------------------------------------------------------------------------------------

  ghost predicate StepOf(k: Kernel, e: Step, z: Kernel) {
    KernelOk(k) ==> Enabled(k, e) && z == Do(k, e)
  }

  ghost predicate IsRun(run: seq<Kernel>, steps: seq<Step>) {
    && |run| == |steps| + 1 && KernelOk(run[0])
    && forall i :: 0 <= i < |steps| ==> StepOf(run[i], steps[i], run[i + 1])
  }

  lemma {:induction false} RunOk(run: seq<Kernel>, steps: seq<Step>, i: nat)
    requires IsRun(run, steps) && i < |run|
    ensures KernelOk(run[i]) && run[i].base == run[0].base && |run[i].x.mux| == |run[0].x.mux|
  {
    hide KernelOk, Do, Enabled;
    if i > 0 {
      RunOk(run, steps, i - 1);
      assert StepOf(run[i - 1], steps[i - 1], run[i]);
      DoOk(run[i - 1], steps[i - 1]);
    }
  }

  // Over every run: a task that waits for mutex m has PEND, is in the list of its object and on the wheel
  // exactly when it waits with a timeout; one that was given a mutex or timed out is in the ready list of
  // its priority, or suspended; and the priorities the mutexes lend are those of the control blocks.
  ghost predicate WherePhaseSays(s: Sched, p: M.Phase, prio: nat, t: nat, base: nat, mutexes: nat) {
    && t < |s.tcb| && |s.lists| >= PRIORITYNUM + base + mutexes && s.tcb[t].prio == prio < PRIORITYNUM
    && (forall i :: PRIORITYNUM + base <= i < PRIORITYNUM + base + mutexes ==>
          (t in s.lists[i] <==> p.Waiting? && p.mux == i - PRIORITYNUM - base))
    && (p.Waiting? ==> s.tcb[t].status.pend && (t in s.wheel <==> p.timed))
    && (p == M.Granted || p == M.Expired ==> t in s.lists[prio] || s.tcb[t].status.suspend)
    && (p == M.Expired ==> s.tcb[t].status.timeout)
  }

  lemma PhasesArePlaces(run: seq<Kernel>, steps: seq<Step>, i: nat, t: nat)
    requires IsRun(run, steps) && i < |run| && t < |run[i].x.phase|
    ensures |run[i].x.prio| == |run[i].x.phase|
    ensures WherePhaseSays(run[i].s, run[i].x.phase[t], run[i].x.prio[t], t, run[0].base, |run[0].x.mux|)
  {
    RunOk(run, steps, i);
    SysTasks(run[i]);
    OkIsWhere(run[i], t);
  }

  lemma OkIsWhere(k: Kernel, t: nat)
    requires KernelOk(k) && t < |k.x.phase| == |k.x.prio|
    ensures WherePhaseSays(k.s, k.x.phase[t], k.x.prio[t], t, k.base, |k.x.mux|)
  {
    StatusIsOk(k.s, t);
    BitsAt(k.s, k.x, t);
    assert Place(k.s.tcb[t]) == k.s.tcb[t].prio ==> t in k.s.lists[k.s.tcb[t].prio];
    hide ReadyOk, Distinct, TcbsOk, M.SysOk;
    forall i | PRIORITYNUM + k.base <= i < PRIORITYNUM + k.base + |k.x.mux|
      ensures t in k.s.lists[i] <==> k.x.phase[t].Waiting? && k.x.phase[t].mux == i - PRIORITYNUM - k.base
    {
      var m := i - PRIORITYNUM - k.base;
      assert k.s.lists[PRIORITYNUM + k.base + m] == k.x.mux[m].waiters;
      assert t in k.x.mux[m].waiters <==> k.x.phase[t].Waiting? && k.x.phase[t].mux == m;
    }
  }

  // ---- No waiter is overtaken ------------------------------------------------------------------------

  // The step serves, as Inversion has it.
  ghost predicate Serves(k: Kernel, e: Step) {
    KernelOk(k) && Enabled(k, e) && (Project(k, e).Something? ==> Inversion.ServesAt(k.x, Project(k, e).e))
  }

  lemma {:induction false} RunServes(run: seq<Kernel>, steps: seq<Step>, i: nat)
    requires IsRun(run, steps) && i < |run| && Inversion.ServedAt(run[0].x)
    requires forall j :: 0 <= j < i ==> Serves(run[j], steps[j])
    ensures Inversion.ServedAt(run[i].x)
  {
    hide KernelOk, Enabled, DoSched, Project;
    if i > 0 {
      RunServes(run, steps, i - 1);
      RunOk(run, steps, i - 1);
      var k, e := run[i - 1], steps[i - 1];
      assert StepOf(k, e, run[i]) && Serves(k, e);
      if Project(k, e).Something? {
        Inversion.ServedIff(k.x, Project(k, e).e);
      }
    }
  }

  // Over every run whose steps serve: while a task waits for a mutex, whose owner may wait for another and
  // so on, and the task at the end of that chain can run, the scheduler chooses nobody less urgent than the
  // first.
  lemma NotOvertaken(run: seq<Kernel>, steps: seq<Step>, i: nat, chain: seq<nat>)
    requires IsRun(run, steps) && i < |run| && Inversion.ServedAt(run[0].x)
    requires forall j :: 0 <= j < i ==> Serves(run[j], steps[j])
    requires M.SysOk(run[i].x) && Inversion.IsChain(run[i].x, chain)
    requires var (s, u) := (run[i].s, chain[|chain| - 1]); s.lock == 0 && u < |s.tcb| && s.tcb[u].status.ready
    ensures var (s, t) := (run[i].s, chain[0]);
            && t < |s.tcb| && |s.lists| >= PRIORITYNUM && Schedule(s).run < |s.tcb|
            && s.tcb[Schedule(s).run].prio <= s.tcb[t].prio
  {
    RunOk(run, steps, i);
    RunServes(run, steps, i);
    Inversion.ChainServed(run[i].x, chain);
    SysTasks(run[i]);
    ScheduleChoosesOldestBest(run[i].s, chain[|chain| - 1]);
    hide SchedOk, M.SysOk, Serves, Schedule;
  }

  // Mutexes of which none is held agree with a scheduler whose wait lists for them are empty.
  lemma FreshKernel(s: Sched, x: M.Sys, base: nat)
    requires SchedOk(s) && M.SysOk(x) && |x.prio| == |s.tcb| && PRIORITYNUM + base + |x.mux| <= |s.lists|
    requires forall t :: 0 <= t < |x.phase| ==> x.phase[t] == M.Outside && x.prio[t] == s.tcb[t].prio
    requires forall m :: 0 <= m < |x.mux| ==> x.mux[m].count == 0 && s.lists[PRIORITYNUM + base + m] == []
    ensures KernelOk(Kernel(s, x, base)) && Inversion.ServedAt(x)
  {
    hide SchedOk, M.Inherits, M.UnusedOk;
  }
}

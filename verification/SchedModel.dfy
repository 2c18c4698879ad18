// Tasks and the lists they are in. Every task has one list node for the ready lists and for all
// wait lists, and one for the delay wheel.

module SchedModel {
  import opened Lists

  const PRIORITYNUM: nat := 32    // LOS_PRIORITY_QUEUE_PRIORITYNUM
  const LOWEST: nat := 31         // OS_TASK_PRIORITY_LOWEST
  const UINT16: nat := 65536

  // The bits of usTaskStatus that matter here.
  datatype Status = Status(
    unused: bool, suspend: bool, ready: bool, pend: bool, pendQueue: bool, delay: bool, timeout: bool)

  // LOS_TASK_CB; target is what the task waits for, since when it last became ready.
  datatype Tcb = Tcb(status: Status, prio: nat, target: nat, since: nat)

  // lists[p] is the ready list of priority p, lists[PRIORITYNUM + w] the wait list of object w.
  datatype Sched = Sched(tcb: seq<Tcb>, lists: seq<seq<nat>>, wheel: set<nat>, run: nat, lock: nat, clock: nat)

  datatype Code =
    | Ok | NotCreated | NotSuspended | OperateIdle | AlreadySuspended | SuspendLocked | PriorError | YieldNotEnough
    | DelayInInt | DelayInLock

  // ---- Places ------------------------------------------------------------------------------

  predicate Waits(c: Status) { c.pend || c.pendQueue }

  // OS_CHECK_TASK_BLOCK
  predicate Blocked(c: Status) { c.delay || c.pend || c.suspend || c.pendQueue }

  // The list a task is in; none for -1.
  function Place(c: Tcb): int
  {
    if c.status.ready then c.prio else if Waits(c.status) then PRIORITYNUM + c.target else -1
  }

  predicate OnWheel(c: Status) { c.delay || (c.timeout && Waits(c)) }

  // The bits that exclude each other.
  predicate StatusOk(c: Status) {
    && (c.ready ==> !Blocked(c)) && !(c.pend && c.pendQueue) && !(c.delay && Waits(c))
    && (c.unused ==> !c.ready && !Blocked(c) && !c.timeout)
  }

  // Task t is in list i exactly when that is its place.
  ghost predicate PlacesOk(tcb: seq<Tcb>, lists: seq<seq<nat>>) {
    && (forall i :: 0 <= i < |lists| ==> Distinct(lists[i]))
    && forall i: nat, t: nat {:trigger t in lists[i]} :: i < |lists| ==>
        (t in lists[i] <==> t < |tcb| && Place(tcb[t]) == i)
  }

  // Ready lists are in order of becoming ready.
  ghost predicate OldestFirst(tcb: seq<Tcb>, L: seq<nat>, clock: nat) {
    && (forall i :: 0 <= i < |L| ==> L[i] < |tcb| && tcb[L[i]].since < clock)
    && forall i, j :: 0 <= i < j < |L| && L[i] < |tcb| && L[j] < |tcb| ==> tcb[L[i]].since < tcb[L[j]].since
  }

  ghost predicate TcbsOk(tcb: seq<Tcb>, lists: seq<seq<nat>>) {
    forall t :: 0 <= t < |tcb| ==> StatusOk(tcb[t].status) && tcb[t].prio < PRIORITYNUM && Place(tcb[t]) < |lists|
  }

  ghost predicate WheelOk(tcb: seq<Tcb>, wheel: set<nat>) {
    forall t: nat :: t in wheel <==> t < |tcb| && OnWheel(tcb[t].status)
  }

  ghost predicate ReadyOk(s: Sched) {
    && |s.lists| >= PRIORITYNUM
    && forall p :: 0 <= p < PRIORITYNUM ==> OldestFirst(s.tcb, s.lists[p], s.clock)
  }

  ghost predicate SchedOk(s: Sched) {
    TcbsOk(s.tcb, s.lists) && PlacesOk(s.tcb, s.lists) && WheelOk(s.tcb, s.wheel) && ReadyOk(s) && s.run < |s.tcb|
  }

  // ---- Moving a task -------------------------------------------------------------------------

  // LOS_ListDelete of the task's node.
  function Unlinked(s: Sched, t: nat): seq<seq<nat>>
    requires t < |s.tcb|
  {
    var i := Place(s.tcb[t]);
    if 0 <= i < |s.lists| then s.lists[i := Without(s.lists[i], t)] else s.lists
  }

  // The task leaves its list, if any, and continues with another status.
  function Leave(s: Sched, t: nat, c: Status, wheel: set<nat>): Sched
    requires t < |s.tcb|
  {
    s.(tcb := s.tcb[t := s.tcb[t].(status := c)], lists := Unlinked(s, t), wheel := wheel)
  }

  // LOS_PriqueueEnqueue of a task that is in no list.
  function Enqueue(s: Sched, t: nat): Sched
    requires t < |s.tcb| && s.tcb[t].prio < |s.lists|
  {
    var c := s.tcb[t];
    s.(tcb := s.tcb[t := c.(status := c.status.(ready := true), since := s.clock)],
       lists := s.lists[c.prio := s.lists[c.prio] + [t]], clock := s.clock + 1)
  }

  // Waking a task: it is ready unless it is suspended.
  function ReadyUnlessSuspended(s: Sched, t: nat): Sched
    requires t < |s.tcb| && s.tcb[t].prio < |s.lists|
  {
    if s.tcb[t].status.suspend then s else Enqueue(s, t)
  }

  lemma {:induction false} WithoutOrder(L: seq<nat>, t: nat, tcb: seq<Tcb>, clock: nat)
    requires OldestFirst(tcb, L, clock)
    ensures OldestFirst(tcb, Without(L, t), clock)
    ensures forall x: nat :: x in Without(L, t) ==> x in L
  {
    if L != [] {
      TailOrder(L, tcb, clock);
      if L[0] != t {
        WithoutOrder(L[1..], t, tcb, clock);
        HeadOldest(L, tcb, clock, Without(L[1..], t));
      }
    }
  }

  lemma TailOrder(L: seq<nat>, tcb: seq<Tcb>, clock: nat)
    requires L != [] && OldestFirst(tcb, L, clock)
    ensures OldestFirst(tcb, L[1..], clock)
  {
  }

  lemma HeadOldest(L: seq<nat>, tcb: seq<Tcb>, clock: nat, W: seq<nat>)
    requires L != [] && OldestFirst(tcb, L, clock) && OldestFirst(tcb, W, clock)
    requires forall x: nat :: x in W ==> x in L[1..]
    ensures OldestFirst(tcb, [L[0]] + W, clock)
  {
    forall i | 0 <= i < |W|
      ensures tcb[L[0]].since < tcb[W[i]].since
    {
      assert W[i] in L[1..];
      var j :| 0 <= j < |L[1..]| && L[1..][j] == W[i];
      assert L[j + 1] == W[i];
    }
  }

  // Everything but the place of task t, which is in no list.
  ghost predicate Loose(s: Sched, t: nat) {
    && t < |s.tcb| && s.run < |s.tcb| && Place(s.tcb[t]) == -1
    && TcbsOk(s.tcb, s.lists) && PlacesOk(s.tcb, s.lists) && ReadyOk(s)
  }

  lemma LeavePlaces(s: Sched, t: nat, c: Status)
    requires SchedOk(s) && t < |s.tcb| && !c.ready && !Waits(c)
    ensures |Unlinked(s, t)| == |s.lists| && PlacesOk(s.tcb[t := s.tcb[t].(status := c)], Unlinked(s, t))
  {
    hide TcbsOk, WheelOk, ReadyOk;
    var i := Place(s.tcb[t]);
    if 0 <= i < |s.lists| {
      WithoutIs(s.lists[i], t);
    }
    hide Without, Distinct;
  }

  lemma LeaveOrder(s: Sched, t: nat, c: Status, p: nat)
    requires SchedOk(s) && t < |s.tcb| && p < PRIORITYNUM
    ensures |Unlinked(s, t)| == |s.lists| && OldestFirst(s.tcb[t := s.tcb[t].(status := c)], Unlinked(s, t)[p], s.clock)
  {
    hide TcbsOk, WheelOk, PlacesOk;
    WithoutOrder(s.lists[p], t, s.tcb, s.clock);
    SameOrder(s.tcb, t, s.tcb[t].(status := c), Unlinked(s, t)[p], s.clock);
  }

  lemma SameOrder(tcb: seq<Tcb>, t: nat, c: Tcb, L: seq<nat>, clock: nat)
    requires t < |tcb| && c.since == tcb[t].since && OldestFirst(tcb, L, clock)
    ensures OldestFirst(tcb[t := c], L, clock)
  {
  }

  lemma LeaveOk(s: Sched, t: nat, c: Status, wheel: set<nat>)
    requires SchedOk(s) && t < |s.tcb| && StatusOk(c) && !c.ready && !Waits(c)
    ensures Loose(Leave(s, t, c, wheel), t)
  {
    hide PlacesOk, OldestFirst, WheelOk, Unlinked;
    LeavePlaces(s, t, c);
    forall p | 0 <= p < PRIORITYNUM
      ensures OldestFirst(s.tcb[t := s.tcb[t].(status := c)], Unlinked(s, t)[p], s.clock)
    {
      LeaveOrder(s, t, c, p);
    }
  }

  lemma EnqueueOk(s: Sched, t: nat)
    requires Loose(s, t) && WheelOk(s.tcb, s.wheel) && !s.tcb[t].status.unused && !Blocked(s.tcb[t].status)
    ensures SchedOk(Enqueue(s, t))
  {
    var p, L := s.tcb[t].prio, s.lists[s.tcb[t].prio];
    var z := Enqueue(s, t);
    assert t !in L;
    NotReadyElsewhere(s, t);
    hide PlacesOk, OldestFirst;
    AppendPlaces(s, t);
    forall q | 0 <= q < PRIORITYNUM
      ensures OldestFirst(z.tcb, z.lists[q], z.clock)
    {
      EnqueueOrder(s, t, q);
    }
  }

  lemma NotReadyElsewhere(s: Sched, t: nat)
    requires Loose(s, t)
    ensures forall i :: 0 <= i < |s.lists| ==> t !in s.lists[i]
  {
  }

  lemma AppendPlaces(s: Sched, t: nat)
    requires Loose(s, t) && !s.tcb[t].status.unused && !Blocked(s.tcb[t].status)
    ensures PlacesOk(Enqueue(s, t).tcb, Enqueue(s, t).lists)
  {
    NotReadyElsewhere(s, t);
    var L := s.lists[s.tcb[t].prio];
    AppendedIs(L, t);
    hide TcbsOk, ReadyOk, Distinct;
  }

  lemma EnqueueOrder(s: Sched, t: nat, q: nat)
    requires Loose(s, t) && q < PRIORITYNUM
    ensures |s.lists| >= PRIORITYNUM && s.tcb[t].prio < |s.lists|
    ensures OldestFirst(Enqueue(s, t).tcb, Enqueue(s, t).lists[q], Enqueue(s, t).clock)
  {
    assert s.tcb[t].prio < PRIORITYNUM;
    hide PlacesOk, TcbsOk;
    assert t !in s.lists[q] by {
      NotReadyElsewhere(s, t);
    }
    assert OldestFirst(s.tcb, s.lists[q], s.clock);
  }

  // Joining wait list w at position k.
  function Join(s: Sched, t: nat, c: Status, w: nat, k: nat, wheel: set<nat>): Sched
    requires t < |s.tcb| && PRIORITYNUM + w < |s.lists| && k <= |s.lists[PRIORITYNUM + w]|
  {
    var i := PRIORITYNUM + w;
    s.(tcb := s.tcb[t := s.tcb[t].(status := c, target := w)],
       lists := s.lists[i := s.lists[i][..k] + [t] + s.lists[i][k..]], wheel := wheel)
  }

  lemma JoinOk(s: Sched, t: nat, c: Status, w: nat, k: nat, wheel: set<nat>)
    requires Loose(s, t) && StatusOk(c) && !c.ready && Waits(c)
    requires PRIORITYNUM + w < |s.lists| && k <= |s.lists[PRIORITYNUM + w]|
    requires WheelOk(s.tcb[t := s.tcb[t].(status := c, target := w)], wheel)
    ensures SchedOk(Join(s, t, c, w, k, wheel))
  {
    hide WheelOk, OldestFirst;
    var i := PRIORITYNUM + w;
    NotReadyElsewhere(s, t);
    InsertedIs(s.lists[i], t, k);
    hide Distinct;
    var z := Join(s, t, c, w, k, wheel);
    forall p | 0 <= p < PRIORITYNUM
      ensures OldestFirst(z.tcb, z.lists[p], z.clock)
    {
      SameOrder(s.tcb, t, z.tcb[t], s.lists[p], s.clock);
    }
  }

  // ---- Scheduling ------------------------------------------------------------------------------

  // LOS_PriqueueTop, from priority p on.
  function TopFrom(lists: seq<seq<nat>>, p: nat): (r: int)
    requires p <= PRIORITYNUM <= |lists|
    ensures r >= 0 ==>
              exists q :: p <= q < PRIORITYNUM && lists[q] != [] && r == lists[q][0]
                          && forall o :: p <= o < q ==> lists[o] == []
    ensures r < 0 ==> forall q :: p <= q < PRIORITYNUM ==> lists[q] == []
    decreases PRIORITYNUM - p
  {
    if p == PRIORITYNUM then -1 else if lists[p] != [] then lists[p][0] else TopFrom(lists, p + 1)
  }

  // LOS_Schedule; the switch takes effect at once.
  function Schedule(s: Sched): Sched
    requires |s.lists| >= PRIORITYNUM
  {
    var top := TopFrom(s.lists, 0);
    if s.lock == 0 && top >= 0 then s.(run := top) else s
  }

  lemma ScheduleOk(s: Sched)
    requires SchedOk(s)
    ensures SchedOk(Schedule(s))
  {
    var top := TopFrom(s.lists, 0);
    if top >= 0 {
      var q :| 0 <= q < PRIORITYNUM && s.lists[q] != [] && top == s.lists[q][0];
      assert top in s.lists[q];
    }
  }

  // While some task is ready the choice is never empty: it is ready, no ready task has a better
  // priority, and of those with the same priority none has been ready for longer.
  lemma ScheduleChoosesOldestBest(s: Sched, u: nat)
    requires SchedOk(s) && s.lock == 0 && u < |s.tcb| && s.tcb[u].status.ready
    ensures var t := Schedule(s).run;
            && t < |s.tcb| && s.tcb[t].status.ready && s.tcb[t].prio <= s.tcb[u].prio
            && (s.tcb[t].prio == s.tcb[u].prio && t != u ==> s.tcb[t].since < s.tcb[u].since)
  {
    var p := s.tcb[u].prio;
    assert u in s.lists[p] && p < PRIORITYNUM;
    assert OldestFirst(s.tcb, s.lists[p], s.clock);
    var q := TopIs(s, p);
    var t := s.lists[q][0];
    ReadyInList(s, t, q);
    hide SchedOk, TopFrom, OldestFirst;
    if q == p {
      HeadIsOldest(s.tcb, s.lists[p], s.clock, u);
    }
  }

  lemma ReadyInList(s: Sched, t: nat, q: nat)
    requires SchedOk(s) && q < PRIORITYNUM && |s.lists| >= PRIORITYNUM && t in s.lists[q]
    ensures t < |s.tcb| && s.tcb[t].status.ready && s.tcb[t].prio == q
  {
    assert Place(s.tcb[t]) == q;
  }

  lemma TopIs(s: Sched, p: nat) returns (q: nat)
    requires |s.lists| >= PRIORITYNUM && p < PRIORITYNUM && s.lists[p] != [] && s.lock == 0
    ensures q <= p && s.lists[q] != [] && Schedule(s).run == s.lists[q][0]
  {
    assert TopFrom(s.lists, 0) >= 0;
    q :| 0 <= q < PRIORITYNUM && s.lists[q] != [] && TopFrom(s.lists, 0) == s.lists[q][0]
         && forall o :: 0 <= o < q ==> s.lists[o] == [];
  }

  lemma HeadIsOldest(tcb: seq<Tcb>, L: seq<nat>, clock: nat, u: nat)
    requires u in L && OldestFirst(tcb, L, clock)
    ensures L[0] < |tcb| && u < |tcb| && (L[0] != u ==> tcb[L[0]].since < tcb[u].since)
  {
    var i :| 0 <= i < |L| && L[i] == u;
  }
}

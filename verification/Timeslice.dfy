// Time slicing: tasks of one priority take turns, on a 16-bit tick counter.

module Timeslice {
  import opened Arith
  import opened Lists
  import opened SchedModel
  import opened SchedOps
  import opened Scheduler

  // ring lists the ready tasks of the top priority, the running one first; task and time are
  // g_stTaskTimeSlice (-1 is no task), tick is g_ullTickCount.
  datatype Robin = Robin(ring: seq<nat>, task: int, time: nat, tick: nat)

  function Low(n: nat): nat { n % UINT16 }

  // LOS_TaskYield among equals.
  function Rotated(ring: seq<nat>): seq<nat>
    requires ring != []
  {
    ring[1..] + [ring[0]]
  }

  // osTimesliceCheck at a tick: tout is usTout.
  function Check(r: Robin, tout: nat): Robin
    requires r.ring != [] && tout < UINT16
  {
    var x := if r.task == r.ring[0] then r
             else r.(task := r.ring[0], time := (Low(r.tick) + tout + UINT16 - 1) % UINT16);
    if x.time == Low(x.tick) then x.(task := -1, ring := Rotated(x.ring)) else x
  }

  // The part of osTickHandler that matters here.
  function Tick(r: Robin, tout: nat): Robin
    requires r.ring != [] && tout < UINT16
  {
    Check(r.(tick := r.tick + 1), tout)
  }

  function Ticks(r: Robin, tout: nat, n: nat): (z: Robin)
    requires r.ring != [] && tout < UINT16
    ensures |z.ring| == |r.ring| && z.tick == r.tick + n
    decreases n
  {
    if n == 0 then r else Tick(Ticks(r, tout, n - 1), tout)
  }

  // A turn lasts the configured number of ticks; zero means a whole round of the counter.
  function TurnLength(tout: nat): nat { if tout == 0 then UINT16 else tout }

  // ---- Counting in 16 bits -------------------------------------------------------------------

  lemma LowPlus(a: nat, b: nat)
    ensures Low(Low(a) + b) == Low(a + b)
  {
    var q := a / UINT16;
    assert a + b == Low(a) + b + q * UINT16;
    LowRounds(Low(a) + b, q);
  }

  lemma LowRounds(x: nat, q: nat)
    ensures Low(x + q * UINT16) == Low(x)
  {
    RoundsModulo(x, q, UINT16);
  }

  // Two ticks less than a round apart have different low halves.
  lemma LowDiffer(a: nat, k: nat)
    requires 0 < k < UINT16
    ensures Low(a) != Low(a + k)
  {
    LowPlus(a, k);
    assert Low(a) < UINT16;
  }

  // The alarm set at tick t for a slice of tout ticks goes off at the last tick of the turn.
  lemma Alarm(t: nat, tout: nat)
    requires tout < UINT16
    ensures (Low(t + 1) + tout + UINT16 - 1) % UINT16 == Low(t + TurnLength(tout))
  {
    LowPlus(t + 1, tout + UINT16 - 1);
    if tout == 0 {
      LowRounds(t, 1);
    } else {
      LowRounds(t + tout, 1);
    }
  }

  // ---- One turn --------------------------------------------------------------------------------

  // A turn begins when no slice is running.
  ghost predicate TurnBegins(r: Robin) {
    r.ring != [] && r.task == -1
  }

  // j ticks into the turn that began at r.
  lemma {:induction false} DuringTurn(r: Robin, tout: nat, j: nat)
    requires TurnBegins(r) && tout < UINT16 && j < TurnLength(tout)
    ensures Ticks(r, tout, j).ring == r.ring
    ensures j > 0 ==> Ticks(r, tout, j).task == r.ring[0] && Ticks(r, tout, j).time == Low(r.tick + TurnLength(tout))
  {
    hide Low, Rotated;
    if j > 0 {
      DuringTurn(r, tout, j - 1);
      if j == 1 {
        Alarm(r.tick, tout);
      }
      LowDiffer(r.tick + j, TurnLength(tout) - j);
    }
  }

  // The last tick of the turn passes it on, and the next turn begins.
  lemma TurnEnds(r: Robin, tout: nat)
    requires TurnBegins(r) && tout < UINT16
    ensures TurnBegins(Ticks(r, tout, TurnLength(tout))) && Ticks(r, tout, TurnLength(tout)).ring == Rotated(r.ring)
  {
    hide Low;
    var n := TurnLength(tout);
    DuringTurn(r, tout, n - 1);
    Alarm(r.tick, tout);
  }

  // ---- All turns -------------------------------------------------------------------------------

  function Turned(ring: seq<nat>, m: nat): (r: seq<nat>)
    requires ring != []
    ensures |r| == |ring|
    decreases m
  {
    if m == 0 then ring else Turned(Rotated(ring), m - 1)
  }

  lemma {:induction false} TicksAdd(r: Robin, tout: nat, a: nat, b: nat)
    requires r.ring != [] && tout < UINT16
    ensures Ticks(r, tout, a + b) == Ticks(Ticks(r, tout, a), tout, b)
    decreases b
  {
    hide Tick;
    if b > 0 {
      TicksAdd(r, tout, a, b - 1);
      assert Ticks(r, tout, a + b) == Tick(Ticks(r, tout, a + b - 1), tout);
    }
  }

  function Times(m: nat, n: nat): nat { m * n }

  lemma Peel(m: nat, n: nat)
    requires m > 0
    ensures Times(m, n) == n + Times(m - 1, n)
  {
  }

  lemma {:induction false} AfterTurns(r: Robin, tout: nat, m: nat)
    requires TurnBegins(r) && tout < UINT16
    ensures TurnBegins(Ticks(r, tout, Times(m, TurnLength(tout))))
    ensures Ticks(r, tout, Times(m, TurnLength(tout))).ring == Turned(r.ring, m)
    decreases m
  {
    hide Rotated, Low, Check;
    var n := TurnLength(tout);
    if m > 0 {
      hide Ticks, Times, TurnLength;
      Peel(m, n);
      TurnEnds(r, tout);
      AfterTurns(Ticks(r, tout, n), tout, m - 1);
      TicksAdd(r, tout, n, Times(m - 1, n));
    }
  }

  // The head of the ring after m turns is the m-th task, counted cyclically.
  lemma {:induction false} TurnedHead(ring: seq<nat>, m: nat, i: nat)
    requires ring != [] && i < |ring|
    ensures Turned(ring, m)[i] == ring[(i + m) % |ring|]
    decreases m
  {
    if m > 0 {
      TurnedHead(Rotated(ring), m - 1, i);
      var k, n := (i + (m - 1)) % |ring|, |ring|;
      assert Rotated(ring)[k] == ring[if k + 1 < n then k + 1 else 0];
      NextModulo(i + (m - 1), n);
    }
  }

  // On a bare ring: k ticks after a turn began exactly k / L turns of L ticks have passed and the
  // task of that number is in front.
  lemma RingIsFair(r: Robin, tout: nat, k: nat)
    requires TurnBegins(r) && tout < UINT16
    ensures Ticks(r, tout, k).ring[0] == r.ring[k / TurnLength(tout) % |r.ring|]
  {
    var m, j := Split(k, TurnLength(tout));
    TurnedHead(r.ring, m, 0);
    hide Ticks, Times, Turned, TurnLength;
    RunnerAt(r, tout, m, j);
  }

  lemma RunnerAt(r: Robin, tout: nat, m: nat, j: nat)
    requires TurnBegins(r) && tout < UINT16 && j < TurnLength(tout)
    ensures Ticks(r, tout, Times(m, TurnLength(tout)) + j).ring == Turned(r.ring, m)
  {
    hide Ticks, Times, Turned, TurnLength;
    AfterTurns(r, tout, m);
    DuringTurn(Ticks(r, tout, Times(m, TurnLength(tout))), tout, j);
    TicksAdd(r, tout, Times(m, TurnLength(tout)), j);
  }

  lemma Split(k: nat, n: nat) returns (m: nat, j: nat)
    requires n > 0
    ensures m == k / n && j < n && k == Times(m, n) + j
  {
    m, j := k / n, k % n;
  }

  // ---- On the scheduler ---------------------------------------------------------------------------

  // The scheduler with g_stTaskTimeSlice and g_ullTickCount.
  datatype Sliced = Sliced(s: Sched, task: int, time: nat, tick: nat)

  predicate Runs(s: Sched) {
    |s.lists| >= PRIORITYNUM && s.run < |s.tcb| && s.tcb[s.run].prio < |s.lists|
  }

  // osTimesliceCheck
  function CheckSlice(x: Sliced, tout: nat): Sliced
    requires Runs(x.s)
  {
    var y := if x.task == x.s.run then x
             else x.(task := x.s.run, time := (Low(x.tick) + tout + UINT16 - 1) % UINT16);
    if y.time == Low(y.tick) then y.(task := -1, s := Yield(y.s).0) else y
  }

  // osTickHandler, as far as slices go.
  function TickSlice(x: Sliced, tout: nat): Sliced
    requires Runs(x.s)
  {
    CheckSlice(x.(tick := x.tick + 1), tout)
  }

  // The best priority with a ready task is p, and the task that has been ready longest runs.
  ghost predicate InTurn(s: Sched, p: nat) {
    && SchedOk(s) && s.lock == 0 && p < PRIORITYNUM && |s.lists| >= PRIORITYNUM
    && s.lists[p] != [] && s.lists[p][0] == s.run && EmptyBelow(s.lists, p)
  }

  // So it is after every LOS_Schedule with the scheduler unlocked.
  lemma ScheduledIsInTurn(s: Sched) returns (p: nat)
    requires SchedOk(s) && s.lock == 0 && TopFrom(s.lists, 0) >= 0
    ensures InTurn(Schedule(s), p)
  {
    ScheduleOk(s);
    p := TopParts(s.lists);
  }

  lemma TurnRuns(s: Sched, p: nat)
    requires InTurn(s, p)
    ensures Runs(s) && s.tcb[s.run].status.ready && s.tcb[s.run].prio == p
  {
    ReadyInList(s, s.run, p);
  }

  // The top ready list as the ring of a Robin.
  function Ring(x: Sliced, p: nat): Robin
    requires p < |x.s.lists|
  {
    Robin(x.s.lists[p], x.task, x.time, x.tick)
  }

  // A tick of the scheduler is a tick of the ring.
  lemma TickSimulates(x: Sliced, p: nat, tout: nat)
    requires InTurn(x.s, p) && tout < UINT16
    ensures Runs(x.s) && InTurn(TickSlice(x, tout).s, p) && Ring(TickSlice(x, tout), p) == Tick(Ring(x, p), tout)
  {
    TurnRuns(x.s, p);
    YieldRotates(x.s, p);
    hide InTurn, Yield, Low, Rotated;
  }

  ghost function TickSlices(x: Sliced, p: nat, tout: nat, n: nat): (z: Sliced)
    requires InTurn(x.s, p) && tout < UINT16
    ensures InTurn(z.s, p)
    decreases n
  {
    if n == 0 then x
    else
      var y := TickSlices(x, p, tout, n - 1);
      TickSimulates(y, p, tout);
      TickSlice(y, tout)
  }

  lemma {:induction false} TicksSimulate(x: Sliced, p: nat, tout: nat, n: nat)
    requires InTurn(x.s, p) && tout < UINT16
    ensures Ring(TickSlices(x, p, tout, n), p) == Ticks(Ring(x, p), tout, n)
    decreases n
  {
    hide InTurn, Tick, TickSlice, Ring;
    if n > 0 {
      TicksSimulate(x, p, tout, n - 1);
      TickSimulates(TickSlices(x, p, tout, n - 1), p, tout);
    }
  }

  // Round robin is fair: while nothing but ticks happens, k ticks after a turn began exactly k / L
  // turns of L ticks have passed and the task of that number in the ready list runs, in cyclic order,
  // however often the 16-bit counter wraps.
  lemma RoundRobinIsFair(x: Sliced, p: nat, tout: nat, k: nat)
    requires InTurn(x.s, p) && x.task == -1 && tout < UINT16
    ensures TickSlices(x, p, tout, k).s.run == x.s.lists[p][k / TurnLength(tout) % |x.s.lists[p]|]
  {
    TicksSimulate(x, p, tout, k);
    RingIsFair(Ring(x, p), tout, k);
    hide SchedOk, TurnLength, Ticks, TickSlices;
  }

  // Fairness from any state in order in which some task is ready and the scheduler is not locked: once
  // LOS_Schedule has chosen and no slice is running, the tasks ready at the best priority p take turns.
  lemma FairOnceScheduled(s: Sched, time: nat, tick: nat, tout: nat, k: nat) returns (p: nat)
    requires SchedOk(s) && s.lock == 0 && TopFrom(s.lists, 0) >= 0 && tout < UINT16
    ensures p < PRIORITYNUM && s.lists[p] != [] && EmptyBelow(s.lists, p) && InTurn(Schedule(s), p)
    ensures TickSlices(Sliced(Schedule(s), -1, time, tick), p, tout, k).s.run ==
            s.lists[p][k / TurnLength(tout) % |s.lists[p]|]
  {
    p := ScheduledIsInTurn(s);
    RoundRobinIsFair(Sliced(Schedule(s), -1, time, tick), p, tout, k);
  }

  // LOS_TaskYield turns the top ready list by one, runs its new head, and leaves the others as they are.
  lemma YieldRotates(s: Sched, p: nat)
    requires InTurn(s, p)
    ensures Runs(s) && |Yield(s).0.lists| == |s.lists|
    ensures Yield(s).0.lists == s.lists[p := Rotated(s.lists[p])] && InTurn(Yield(s).0, p)
  {
    TurnRuns(s, p);
    YieldOk(s);
    if |s.lists[p]| > 1 {
      YieldLists(s);
      TopSkips(s.lists[p := Rotated(s.lists[p])], p, 0);
      hide SchedOk, TopFrom, Leave, Enqueue;
    } else {
      assert Rotated(s.lists[p]) == s.lists[p];
    }
  }

  ghost predicate EmptyBelow(lists: seq<seq<nat>>, p: nat)
    requires p <= |lists|
  {
    forall i :: 0 <= i < p ==> lists[i] == []
  }

  lemma TopParts(lists: seq<seq<nat>>) returns (p: nat)
    requires PRIORITYNUM <= |lists| && TopFrom(lists, 0) >= 0
    ensures p < PRIORITYNUM && lists[p] != [] && lists[p][0] == TopFrom(lists, 0) && EmptyBelow(lists, p)
  {
    p :| 0 <= p < PRIORITYNUM && lists[p] != [] && TopFrom(lists, 0) == lists[p][0]
         && forall o :: 0 <= o < p ==> lists[o] == [];
  }

  lemma YieldLists(s: Sched)
    requires s.run < |s.tcb| && |s.lists| >= PRIORITYNUM && s.lock == 0 && s.tcb[s.run].status.ready
    requires s.tcb[s.run].prio < PRIORITYNUM
    requires |s.lists[s.tcb[s.run].prio]| > 1 && s.lists[s.tcb[s.run].prio][0] == s.run
    ensures var lists := s.lists[s.tcb[s.run].prio := Rotated(s.lists[s.tcb[s.run].prio])];
            && Yield(s).0.lists == lists
            && (TopFrom(lists, 0) >= 0 ==> Yield(s).0.run == TopFrom(lists, 0))
  {
    hide TopFrom;
    var t, p := s.run, s.tcb[s.run].prio;
    assert Without(s.lists[p], t) == s.lists[p][1..];
    var x := Leave(s, t, s.tcb[t].status, s.wheel);
    assert x.lists == s.lists[p := s.lists[p][1..]];
    assert Enqueue(x, t).lists == s.lists[p := Rotated(s.lists[p])];
  }

  lemma {:induction false} TopSkips(lists: seq<seq<nat>>, p: nat, o: nat)
    requires o <= p < PRIORITYNUM <= |lists| && lists[p] != [] && EmptyBelow(lists, p)
    ensures TopFrom(lists, o) == lists[p][0]
    decreases p - o
  {
    if o < p {
      TopSkips(lists, p, o + 1);
    }
  }

  // ---- The code ------------------------------------------------------------------------------------

  class TimeSlice {
    const sched: Scheduler
    var task: int         // g_stTaskTimeSlice.pstTask; -1 is a null pointer
    var time: nat         // g_stTaskTimeSlice.usTime
    const tout: nat       // g_stTaskTimeSlice.usTout
    var tick: nat         // g_ullTickCount

    ghost function View(): Sliced
      requires sched.Shaped()
      reads this, sched, sched.status, sched.prio, sched.target, sched.list
    {
      Sliced(sched.View(), task, time, tick)
    }

    // osTimesliceInit
    constructor (sched0: Scheduler, timeout: nat)
      requires timeout < UINT16
      ensures sched == sched0 && tout == timeout && task == -1 && tick == 0
    {
      sched, task, time, tout, tick := sched0, -1, 0, timeout, 0;
    }

    // osTimesliceCheck
    method TimesliceCheck()
      requires sched.Valid() && tout < UINT16
      modifies this`task, this`time, sched, sched.status, sched.list
      ensures sched.Shaped() && Runs(old(View()).s) && View() == CheckSlice(old(View()), tout)
      ensures old(MayYield(sched.View())) ==> sched.Valid()
    {
      hide TcbsOk, PlacesOk, WheelOk, ReadyOk, Yield;
      ValidRuns(sched.View());
      if task != sched.run {
        task := sched.run;
        time := (tick % UINT16 + tout + UINT16 - 1) % UINT16;
      }
      if time == tick % UINT16 {
        task := -1;
        var code := sched.TaskYield();
      }
    }

    // osTickHandler, as far as slices go.
    method TickHandler()
      requires sched.Valid() && tout < UINT16
      modifies this, sched, sched.status, sched.list
      ensures sched.Shaped() && Runs(old(View()).s) && View() == TickSlice(old(View()), tout)
      ensures old(MayYield(sched.View())) ==> sched.Valid()
    {
      hide TcbsOk, PlacesOk, WheelOk, ReadyOk, Yield, CheckSlice;
      tick := tick + 1;
      TimesliceCheck();
    }
  }

  lemma ValidRuns(s: Sched)
    requires SchedOk(s)
    ensures Runs(s)
  {
  }
}

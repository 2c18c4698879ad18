// What the calls of the timer interface do for the timer they name: when it is created, started, stopped or
// deleted, and when it fires after that.

module SwtmrStarts {
  import opened Lists
  import opened DeltaList
  import opened SwtmrModel
  import opened SwtmrRuns
  import opened SwtmrLaws

  // LOS_SwtmrCreate succeeds exactly for a usable interval and mode, with both pointers, while a slot is
  // free. The first free slot is then a timer that does not tick yet, under the id it had.
  lemma CreateAnswers(y: Sys, interval: Word, mode: nat, handler: bool, ret: bool)
    requires Steady(y)
    ensures var (z, code) := CreateTimer(y, interval, mode, handler, ret);
            && Steady(z) && |z.info| == |y.info|
            && (code == Ok <==>
                  && interval > 0 && (mode == LOS_SWTMR_MODE_ONCE || mode == LOS_SWTMR_MODE_PERIOD)
                  && handler && ret && exists s :: 0 <= s < |y.info| && y.info[s].state == Unused)
            && (code != Ok ==> z == y)
            && (code == Ok ==>
                  && y.free != [] && y.free[0] < |y.info|
                  && var u := y.free[0];
                  && SlotOf(y.info[u].id, |y.info|) == u && Names(z, y.info[u].id) && Idle(z, u)
                  && z.info[u].state == Created && z.info[u].mode == mode && z.info[u].interval == interval)
  {
    DoOk(y, CreateOp(interval, mode, handler, ret));
    if y.free != [] {
      assert y.free[0] in y.free;
      NobodyLeft(y, y.free[0]);
    }
    SameAgenda(y, interval, mode, handler, ret);
    hide AgendaOk, MaxTimerId, SlotOf;
  }

  lemma SameAgenda(y: Sys, interval: Word, mode: nat, handler: bool, ret: bool)
    requires Steady(y)
    ensures CreateTimer(y, interval, mode, handler, ret).0.agenda == y.agenda
  {
    hide SysOk;
    CreateOk(y, interval, mode, handler, ret);
  }

  lemma NobodyLeft(y: Sys, u: nat)
    requires Steady(y) && u < |y.info| && y.info[u].state != Ticking
    ensures Idle(y, u)
  {
    forall t: nat
      ensures !Left(y.agenda, u, t)
    {
      NotLeft(y.agenda, u, t);
    }
  }

  lemma StoppedIdle(y: Sys, u: nat)
    requires Steady(y) && u < |y.info| && y.info[u].state != Unused
    ensures Steady(Stopped(y, u)) && |Stopped(y, u).info| == |y.info| && Stopped(y, u).info[u].state == Created
    ensures Idle(Stopped(y, u), u)
    ensures Stopped(y, u).info[u].interval == y.info[u].interval && Stopped(y, u).info[u].mode == y.info[u].mode
    ensures Stopped(y, u).info[u].id == y.info[u].id
  {
    StoppedOk(y, u);
    NobodyLeft(Stopped(y, u), u);
    hide SysOk, Steady, Find, Idle;
  }

  // A created timer is started for its whole interval.
  lemma StartLeft(y: Sys, u: nat)
    requires Steady(y) && u < |y.info| && y.info[u].state == Created
    ensures var z := Start(y, u);
            && |z.info| == |y.info| && Left(z.agenda, u, y.info[u].interval)
            && z.info[u] == y.info[u].(state := Ticking)
  {
    assert TimerOk(y.info[u], u, |y.info|);
    InsertContains(y.agenda, u, y.info[u].interval, Due(u, y.info[u].interval));
    hide StableInsert, AgendaOk, Listing;
  }

  // LOS_SwtmrStart succeeds exactly for the id of a slot in use. Its timer has then just its interval left,
  // whether it was ticking or not.
  lemma StartAnswers(y: Sys, id: nat)
    requires Steady(y)
    ensures var (z, code, u) := (StartTimer(y, id).0, StartTimer(y, id).1, SlotOf(id, |y.info|));
            && Steady(z) && |z.info| == |y.info| && u < |y.info|
            && (code == IdInvalid <==> !Names(y, id))
            && (code == Ok <==> Names(y, id) && y.info[u].state != Unused)
            && (code != Ok ==> z == y)
            && (code == Ok ==>
                  && (forall t: nat {:trigger Left(z.agenda, u, t)} ::
                        Left(z.agenda, u, t) <==> t == y.info[u].interval)
                  && z.info[u].state == Ticking && z.info[u].id == id
                  && z.info[u].interval == y.info[u].interval && z.info[u].mode == y.info[u].mode)
  {
    DoOk(y, StartOp(id));
    var u, z := SlotOf(id, |y.info|), StartTimer(y, id).0;
    if Names(y, id) && y.info[u].state != Unused {
      StoppedIdle(y, u);
      StartLeft(Stopped(y, u), u);
      assert Distinct(Ids(z.agenda));
      OnlyLeft(z.agenda, u, y.info[u].interval);
    }
    hide SysOk, Steady, Stopped, Start, Left, Idle;
  }

  // LOS_SwtmrStop succeeds exactly for a ticking timer, and LOS_SwtmrDelete for one that is in use. It does
  // not tick afterwards.
  lemma StopAnswers(y: Sys, id: nat)
    requires Steady(y)
    ensures var (z, code, u) := (StopTimer(y, id).0, StopTimer(y, id).1, SlotOf(id, |y.info|));
            && Steady(z) && |z.info| == |y.info| && u < |y.info|
            && (code == IdInvalid <==> !Names(y, id))
            && (code == Ok <==> Names(y, id) && y.info[u].state == Ticking)
            && (code == NotCreated <==> Names(y, id) && y.info[u].state == Unused)
            && (code != Ok ==> z == y)
            && (code == Ok ==> Idle(z, u) && z.info[u].state == Created && z.info[u].interval == y.info[u].interval)
  {
    DoOk(y, StopOp(id));
    var u := SlotOf(id, |y.info|);
    if Names(y, id) && y.info[u].state == Ticking {
      StoppedIdle(y, u);
    }
    hide SysOk, Steady, Stop, Idle;
  }

  lemma DeleteAnswers(y: Sys, id: nat)
    requires Steady(y)
    ensures var (z, code, u) := (DeleteTimer(y, id).0, DeleteTimer(y, id).1, SlotOf(id, |y.info|));
            && Steady(z) && |z.info| == |y.info| && u < |y.info|
            && (code == IdInvalid <==> !Names(y, id))
            && (code == Ok <==> Names(y, id) && y.info[u].state != Unused)
            && (code != Ok ==> z == y)
            && (code == Ok ==> Idle(z, u) && z.info[u].state == Unused && z.free != [] && z.free[0] == u)
  {
    DoOk(y, DeleteOp(id));
    var u := SlotOf(id, |y.info|);
    if Names(y, id) && y.info[u].state != Unused {
      StoppedIdle(y, u);
      NobodyLeft(DeleteTimer(y, id).0, u);
    }
    hide SysOk, Steady, Stopped, Idle;
  }

  // A created timer stays what it is until a call names it.
  lemma CreatedStep(y: Sys, op: Op, u: nat)
    requires Steady(y) && u < |y.info| && y.info[u].state == Created && Idle(y, u) && !About(op, u, |y.info|)
    ensures |Do(y, op).0.info| == |y.info| && Do(y, op).0.info[u] == y.info[u]
  {
    DoOk(y, op);
    if op == Tick {
      ScanIs(y, u);
      hide Scan, Steady;
      assert !Left(y.agenda, u, 1);
    } else {
      assert y.free != [] ==> y.free[0] in y.free;
      hide AgendaOk, MaxTimerId, SlotOf, Find, StartCount;
    }
  }

  // When a timer fires that is due first at the given time.
  function Firings(once: bool, first: nat, interval: nat, last: nat): seq<nat>
    requires interval > 0
  {
    if once then if first <= last then [first] else [] else Multiples(first, interval, last)
  }

  // From its start, whatever is done to the other timers before and after.
  lemma {:induction false} StartedFires(y: Sys, before: seq<Op>, after: seq<Op>, u: nat, now: nat)
    requires Steady(y) && u < |y.info| && y.info[u].state == Created && Idle(y, u)
    requires LeavesAlone(before, u, |y.info|) && LeavesAlone(after, u, |y.info|)
    ensures y.info[u].interval > 0
    ensures FireTimes(y, before + [StartOp(y.info[u].id)] + after, u, now) ==
            Firings(!Periodic(y.info[u]), now + TickCount(before) + y.info[u].interval, y.info[u].interval,
                    now + TickCount(before) + TickCount(after))
    decreases |before|
  {
    hide SysOk, Steady, Left, About, Do, Idle, LeavesAlone, Periodic, FireTimes, Firings;
    var ops := before + [StartOp(y.info[u].id)] + after;
    FireTimesStep(y, ops, u, now);
    IntervalOk(y, u);
    if before == [] {
      assert ops[0] == StartOp(y.info[u].id) && ops[1..] == after;
      NoOps(y, u, now);
      var z := StartFires(y, after, u, now);
    } else {
      LeavesAloneTail(before, u, |y.info|);
      assert ops[0] == before[0] && ops[1..] == before[1..] + [StartOp(y.info[u].id)] + after;
      TickCountStep(before, now);
      CreatedStep(y, before[0], u);
      IdleStep(y, before[0], u);
      StartedFires(Do(y, before[0]).0, before[1..], after, u, After(now, before[0]));
    }
  }

  lemma IntervalOk(y: Sys, u: nat)
    requires Steady(y) && u < |y.info| && y.info[u].state != Unused
    ensures y.info[u].interval > 0 && SlotOf(y.info[u].id, |y.info|) == u && Names(y, y.info[u].id)
    ensures Periodic(y.info[u]) <==> y.info[u].mode != LOS_SWTMR_MODE_ONCE
  {
    assert TimerOk(y.info[u], u, |y.info|);
  }

  lemma StartedIs(y: Sys, u: nat) returns (z: Sys)
    requires Steady(y) && u < |y.info| && y.info[u].state != Unused
    ensures Do(y, StartOp(y.info[u].id)) == (z, []) && Steady(z) && |z.info| == |y.info| && y.info[u].interval > 0
    ensures Left(z.agenda, u, y.info[u].interval) && z.info[u].interval == y.info[u].interval
    ensures Periodic(z.info[u]) <==> Periodic(y.info[u])
  {
    IntervalOk(y, u);
    StartAnswers(y, y.info[u].id);
    hide SysOk, Steady, StartTimer, Left;
    z := StartTimer(y, y.info[u].id).0;
  }

  lemma StartFires(y: Sys, after: seq<Op>, u: nat, now: nat) returns (z: Sys)
    requires Steady(y) && u < |y.info| && y.info[u].state != Unused && LeavesAlone(after, u, |y.info|)
    ensures y.info[u].interval > 0 && Do(y, StartOp(y.info[u].id)) == (z, []) && Steady(z)
    ensures FireTimes(z, after, u, now) ==
            Firings(!Periodic(y.info[u]), now + y.info[u].interval, y.info[u].interval, now + TickCount(after))
  {
    hide SysOk, Steady, FireTimes, Do, LeavesAlone, Left, Periodic, Multiples, TickCount;
    z := StartedIs(y, u);
    var t := y.info[u].interval;
    if Periodic(z.info[u]) {
      PeriodicFiresAtMultiples(z, after, u, t, now);
    } else {
      OneShotFiresOnce(z, after, u, t, now);
    }
  }

  // End to end: a timer is created for an interval and a mode, later started under its id, and then left
  // alone. Counted in ticks from its start it fires after just that interval, once, or at every multiple of
  // it; it never fires before. The other timers are treated in whatever way.
  lemma CreatedFires(y: Sys, interval: Word, mode: nat, before: seq<Op>, after: seq<Op>, now: nat)
    requires Steady(y) && y.free != [] && CreateTimer(y, interval, mode, true, true).1 == Ok && y.free[0] < |y.info|
    requires LeavesAlone(before, y.free[0], |y.info|) && LeavesAlone(after, y.free[0], |y.info|)
    ensures interval > 0
    ensures var (u, create, start) := (y.free[0], CreateOp(interval, mode, true, true), StartOp(y.info[y.free[0]].id));
            FireTimes(y, [create] + before + [start] + after, u, now) ==
            Firings(mode == LOS_SWTMR_MODE_ONCE, now + TickCount(before) + interval, interval,
                    now + TickCount(before) + TickCount(after))
  {
    hide *;
    var u, id := y.free[0], y.info[y.free[0]].id;
    var z := CreatedIs(y, interval, mode);
    StartedFires(z, before, after, u, now);
    AfterCreate(y, interval, mode, before + [StartOp(id)] + after, u, now);
    assert [CreateOp(interval, mode, true, true)] + before + [StartOp(id)] + after ==
           [CreateOp(interval, mode, true, true)] + (before + [StartOp(id)] + after);
  }

  lemma CreatedIs(y: Sys, interval: Word, mode: nat) returns (z: Sys)
    requires Steady(y) && y.free != [] && CreateTimer(y, interval, mode, true, true).1 == Ok && y.free[0] < |y.info|
    ensures z == CreateTimer(y, interval, mode, true, true).0
    ensures var u := y.free[0];
            && interval > 0 && Steady(z) && |z.info| == |y.info| && z.info[u].state == Created && Idle(z, u)
            && z.info[u].id == y.info[u].id && z.info[u].interval == interval
            && (!Periodic(z.info[u]) <==> mode == LOS_SWTMR_MODE_ONCE)
  {
    CreateAnswers(y, interval, mode, true, true);
    z := CreateTimer(y, interval, mode, true, true).0;
    IntervalOk(z, y.free[0]);
    NamedBy(z, y.free[0], y.info[y.free[0]].id);
    hide SysOk, Steady, CreateTimer, Idle, MaxTimerId, SlotOf, Names;
  }

  lemma AfterCreate(y: Sys, interval: Word, mode: nat, ops: seq<Op>, u: nat, now: nat)
    requires Steady(y) && Steady(CreateTimer(y, interval, mode, true, true).0)
    ensures FireTimes(y, [CreateOp(interval, mode, true, true)] + ops, u, now) ==
            FireTimes(CreateTimer(y, interval, mode, true, true).0, ops, u, now)
  {
    var create := CreateOp(interval, mode, true, true);
    hide SysOk, Steady, FireTimes, CreateTimer;
    FireTimesStep(y, [create] + ops, u, now);
    assert ([create] + ops)[1..] == ops;
  }

  lemma NamedBy(z: Sys, u: nat, id: nat)
    requires Steady(z) && u < |z.info| && Names(z, id) && SlotOf(id, |z.info|) == u
    ensures z.info[u].id == id
  {
  }
}

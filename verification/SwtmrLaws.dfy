// The software timer interface, and what whole runs of it mean for one timer.

module SwtmrLaws {
  import opened Arith
  import opened Lists
  import opened DeltaList
  import opened SwtmrModel
  import opened SwtmrRuns

  type Word = n: nat | n < WORD

  datatype Code =
    | Ok | IntervalNotSuited | ModeInvalid | PtrNull | RetPtrNull | MaxSize | IdInvalid | NotCreated | NotStarted

  // ---- The interface ---------------------------------------------------------------------

  // The test every call that takes an id begins with.
  predicate Names(y: Sys, id: nat)
    requires 0 < |y.info| <= 65535
  {
    id < MaxTimerId(|y.info|) && y.info[SlotOf(id, |y.info|)].id == id
  }

  // LOS_SwtmrCreate; handler and ret say that the pointers are not null.
  function CreateTimer(y: Sys, interval: Word, mode: nat, handler: bool, ret: bool): (Sys, Code)
    requires TimersOk(y.info) && Listing(y.free, y.info, Unused)
  {
    if interval == 0 then (y, IntervalNotSuited)
    else if mode != LOS_SWTMR_MODE_ONCE && mode != LOS_SWTMR_MODE_PERIOD then (y, ModeInvalid)
    else if !handler then (y, PtrNull)
    else if !ret then (y, RetPtrNull)
    else if y.free == [] then (y, MaxSize)
    else
      var s := y.free[0];
      assert s in y.free;
      (y.(info := y.info[s := Timer(Created, mode, 0, y.info[s].id, 0, interval, interval)], free := y.free[1..]), Ok)
  }

  // A ticking timer is stopped before it is started again or deleted.
  function Stopped(y: Sys, s: nat): Sys
    requires SysOk(y) && s < |y.info|
  {
    if y.info[s].state == Ticking then Stop(y, s) else y
  }

  // LOS_SwtmrStart: a ticking timer is stopped first.
  function StartTimer(y: Sys, id: nat): (Sys, Code)
    requires SysOk(y)
  {
    if !Names(y, id) then (y, IdInvalid)
    else
      var s := SlotOf(id, |y.info|);
      if y.info[s].state == Unused then (y, NotCreated) else (Start(Stopped(y, s), s), Ok)
  }

  // LOS_SwtmrStop
  function StopTimer(y: Sys, id: nat): (Sys, Code)
    requires SysOk(y)
  {
    if !Names(y, id) then (y, IdInvalid)
    else
      var s := SlotOf(id, |y.info|);
      match y.info[s].state
      case Unused => (y, NotCreated)
      case Created => (y, NotStarted)
      case Ticking => (Stop(y, s), Ok)
  }

  // LOS_SwtmrDelete
  function DeleteTimer(y: Sys, id: nat): (Sys, Code)
    requires SysOk(y)
  {
    if !Names(y, id) then (y, IdInvalid)
    else
      var s := SlotOf(id, |y.info|);
      if y.info[s].state == Unused then (y, NotCreated) else (Delete(Stopped(y, s), s), Ok)
  }

  datatype Op =
    | CreateOp(interval: Word, mode: nat, handler: bool, ret: bool) | StartOp(id: nat) | StopOp(id: nat)
    | DeleteOp(id: nat)
    | Tick

  // One call or tick, with the slots it fires.
  function Do(y: Sys, op: Op): (Sys, seq<nat>)
    requires Steady(y)
  {
    match op
    case CreateOp(interval, mode, handler, ret) => (CreateTimer(y, interval, mode, handler, ret).0, [])
    case StartOp(id) => (StartTimer(y, id).0, [])
    case StopOp(id) => (StopTimer(y, id).0, [])
    case DeleteOp(id) => (DeleteTimer(y, id).0, [])
    case Tick => Scan(y)
  }

  // ---- The partition of the slots survives every call --------------------------------------

  lemma CreateOk(y: Sys, interval: Word, mode: nat, handler: bool, ret: bool)
    requires SysOk(y)
    ensures var z := CreateTimer(y, interval, mode, handler, ret).0;
            SysOk(z) && |z.info| == |y.info| && z.agenda == y.agenda
  {
    if CreateTimer(y, interval, mode, handler, ret).1 == Ok {
      var s := y.free[0];
      var t := Timer(Created, mode, 0, y.info[s].id, 0, interval, interval);
      assert s in y.free;
      assert forall x :: x in y.free[1..] <==> x != s && x in y.free by {
        TailIs(y.free);
      }
      Moved(Ids(y.agenda), Ids(y.agenda), y.info, s, t, Ticking);
      Moved(y.free, y.free[1..], y.info, s, t, Unused);
    }
  }

  lemma StoppedOk(y: Sys, s: nat)
    requires SysOk(y) && s < |y.info| && y.info[s].state != Unused
    ensures SysOk(Stopped(y, s)) && |Stopped(y, s).info| == |y.info| && Stopped(y, s).info[s].state == Created
    ensures Steady(y) ==> Steady(Stopped(y, s))
  {
    if y.info[s].state == Ticking {
      StopOk(y, s);
    }
  }

  lemma DoOk(y: Sys, op: Op)
    requires Steady(y)
    ensures Steady(Do(y, op).0) && |Do(y, op).0.info| == |y.info|
  {
    hide AgendaOk, Listing, Stopped, Scan, CreateTimer, MaxTimerId, SlotOf;
    match op
    case CreateOp(interval, mode, handler, ret) =>
      CreateOk(y, interval, mode, handler, ret);
    case StartOp(id) =>
      if Names(y, id) && y.info[SlotOf(id, |y.info|)].state != Unused {
        StoppedOk(y, SlotOf(id, |y.info|));
        StartOk(Stopped(y, SlotOf(id, |y.info|)), SlotOf(id, |y.info|));
      }
    case StopOp(id) =>
      if Names(y, id) && y.info[SlotOf(id, |y.info|)].state == Ticking {
        StopOk(y, SlotOf(id, |y.info|));
      }
    case DeleteOp(id) =>
      if Names(y, id) && y.info[SlotOf(id, |y.info|)].state != Unused {
        StoppedOk(y, SlotOf(id, |y.info|));
        DeleteOk(Stopped(y, SlotOf(id, |y.info|)), SlotOf(id, |y.info|));
      }
    case Tick =>
      ScanOk(y);
  }

  // ---- Calls about other timers --------------------------------------------------------------

  // The call names slot u.
  predicate About(op: Op, u: nat, limit: nat)
    requires limit > 0
  {
    match op
    case CreateOp(_, _, _, _) => false
    case StartOp(id) => SlotOf(id, limit) == u
    case StopOp(id) => SlotOf(id, limit) == u
    case DeleteOp(id) => SlotOf(id, limit) == u
    case Tick => false
  }

  lemma StartElsewhere(y: Sys, s: nat, u: nat, t: nat)
    requires SysOk(y) && s < |y.info| && u != s
    ensures Left(Start(y, s).agenda, u, t) <==> Left(y.agenda, u, t)
  {
    InsertContains(y.agenda, s, StartCount(y.info[s]), Due(u, t));
  }

  lemma StopElsewhere(y: Sys, s: nat, u: nat, t: nat)
    requires SysOk(y) && s < |y.info| && u != s && y.info[s].state == Ticking
    ensures s in Ids(y.agenda) && (Left(Stop(y, s).agenda, u, t) <==> Left(y.agenda, u, t))
  {
    assert s in Ids(y.agenda);
    var A, k := y.agenda, Find(y.agenda, s);
    assert A == A[..k] + [A[k]] + A[k + 1..];
  }

  // A ticking timer is due when it was due, whatever is done to the others.
  lemma Elsewhere(y: Sys, op: Op, u: nat, t: nat)
    requires Steady(y) && u < |y.info| && op != Tick && !About(op, u, |y.info|)
    ensures Left(Do(y, op).0.agenda, u, t) <==> Left(y.agenda, u, t)
    ensures |Do(y, op).0.info| == |y.info| && Do(y, op).0.info[u].id == y.info[u].id
    ensures y.info[u].state == Ticking ==> Do(y, op).0.info[u] == y.info[u]
  {
    hide AgendaOk, StartCount, MaxTimerId, SlotOf, Left, Find;
    match op
    case CreateOp(interval, mode, handler, ret) =>
      CreateOk(y, interval, mode, handler, ret);
      assert y.free != [] ==> y.free[0] in y.free;
    case StartOp(id) =>
      if Names(y, id) && y.info[SlotOf(id, |y.info|)].state != Unused {
        StoppedElsewhere(y, SlotOf(id, |y.info|), u, t);
        StartElsewhere(Stopped(y, SlotOf(id, |y.info|)), SlotOf(id, |y.info|), u, t);
      }
    case StopOp(id) =>
      if Names(y, id) && y.info[SlotOf(id, |y.info|)].state == Ticking {
        StopElsewhere(y, SlotOf(id, |y.info|), u, t);
      }
    case DeleteOp(id) =>
      if Names(y, id) && y.info[SlotOf(id, |y.info|)].state != Unused {
        StoppedElsewhere(y, SlotOf(id, |y.info|), u, t);
      }
  }

  lemma StoppedElsewhere(y: Sys, s: nat, u: nat, t: nat)
    requires SysOk(y) && s < |y.info| && u < |y.info| && u != s && y.info[s].state != Unused
    ensures SysOk(Stopped(y, s)) && |Stopped(y, s).info| == |y.info| && Stopped(y, s).info[u] == y.info[u]
    ensures Left(Stopped(y, s).agenda, u, t) <==> Left(y.agenda, u, t)
  {
    StoppedOk(y, s);
    if y.info[s].state == Ticking {
      StopElsewhere(y, s, u, t);
    }
  }

  // ---- Runs ------------------------------------------------------------------------------------

  function Run(y: Sys, ops: seq<Op>): Sys
    requires Steady(y)
    decreases |ops|
  {
    if ops == [] then y
    else
      DoOk(y, ops[0]);
      Run(Do(y, ops[0]).0, ops[1..])
  }

  function After(now: nat, op: Op): nat { if op == Tick then now + 1 else now }

  function TickCount(ops: seq<Op>): nat
  {
    if ops == [] then 0 else After(0, ops[0]) + TickCount(ops[1..])
  }

  // The ticks of the run at which slot u fires, counted from now.
  function FireTimes(y: Sys, ops: seq<Op>, u: nat, now: nat): seq<nat>
    requires Steady(y)
    decreases |ops|
  {
    if ops == [] then []
    else
      DoOk(y, ops[0]);
      var (z, fired) := Do(y, ops[0]);
      var now' := After(now, ops[0]);
      (if u in fired then [now'] else []) + FireTimes(z, ops[1..], u, now')
  }

  ghost predicate LeavesAlone(ops: seq<Op>, u: nat, limit: nat)
    requires limit > 0
  {
    forall i :: 0 <= i < |ops| ==> !About(ops[i], u, limit)
  }

  ghost predicate Idle(y: Sys, u: nat) {
    forall t: nat {:trigger Left(y.agenda, u, t)} :: !Left(y.agenda, u, t)
  }

  lemma LeavesAloneTail(ops: seq<Op>, u: nat, limit: nat)
    requires limit > 0 && ops != [] && LeavesAlone(ops, u, limit)
    ensures !About(ops[0], u, limit) && LeavesAlone(ops[1..], u, limit)
  {
  }

  lemma IdleStep(y: Sys, op: Op, u: nat)
    requires Steady(y) && u < |y.info| && Idle(y, u) && !About(op, u, |y.info|)
    ensures Idle(Do(y, op).0, u) && u !in Do(y, op).1
  {
    hide SysOk, Steady, Left, About;
    forall t: nat
      ensures !Left(Do(y, op).0.agenda, u, t)
    {
      if op == Tick {
        hide Scan;
        ScanIs(y, u);
      } else {
        Elsewhere(y, op, u, t);
      }
    }
    if op == Tick {
      hide Scan;
      ScanIs(y, u);
    }
  }

  // A timer that is not ticking never fires until it is started.
  lemma {:induction false} SilentWhenIdle(y: Sys, ops: seq<Op>, u: nat, now: nat)
    requires Steady(y) && u < |y.info| && Idle(y, u) && LeavesAlone(ops, u, |y.info|)
    ensures FireTimes(y, ops, u, now) == []
    decreases |ops|
  {
    hide SysOk, Steady, Left, About, Do, Idle, LeavesAlone;
    if ops != [] {
      LeavesAloneTail(ops, u, |y.info|);
      DoOk(y, ops[0]);
      IdleStep(y, ops[0], u);
      SilentWhenIdle(Do(y, ops[0]).0, ops[1..], u, After(now, ops[0]));
    }
  }

  // What is left for a ticking timer after a call or tick that does not name it.
  lemma TickingStep(y: Sys, op: Op, u: nat, t: nat)
    requires Steady(y) && u < |y.info| && Left(y.agenda, u, t) && !About(op, u, |y.info|)
    ensures t > 0 && |Do(y, op).0.info| == |y.info|
    ensures u in Do(y, op).1 <==> op == Tick && t == 1
    ensures var z := Do(y, op).0;
            if op == Tick && t == 1 then
              && z.info[u] == Expired(y.info[u], |y.info|)
              && (if Periodic(y.info[u]) then Left(z.agenda, u, y.info[u].interval) else Idle(z, u))
            else
              z.info[u] == y.info[u] && Left(z.agenda, u, if op == Tick then t - 1 else t)
  {
    LeftTicking(y, u, t);
    assert Distinct(Ids(y.agenda));
    hide SysOk, Left, About;
    if op == Tick {
      hide Scan, Steady;
      ScanIs(y, u);
      if t == 1 {
        OnlyLeft(y.agenda, u, 1);
      } else if Left(y.agenda, u, 1) {
        LeftUnique(y.agenda, u, 1, t);
      }
    } else {
      hide Steady;
      Elsewhere(y, op, u, t);
    }
  }

  lemma LeftTicking(y: Sys, u: nat, t: nat)
    requires Steady(y) && Left(y.agenda, u, t)
    ensures t > 0 && u < |y.info| && y.info[u].state == Ticking && y.info[u].interval > 0
  {
    var i :| 0 <= i < |y.agenda| && y.agenda[i] == Due(u, t);
    assert Ids(y.agenda)[i] == u && u in Ids(y.agenda);
  }

  lemma OnlyLeft(A: seq<Due>, u: nat, t: nat)
    requires Distinct(Ids(A)) && Left(A, u, t)
    ensures forall v: nat :: v != t ==> !Left(A, u, v)
  {
    forall v: nat | Left(A, u, v)
      ensures v == t
    {
      LeftUnique(A, u, v, t);
    }
  }

  // A one-shot timer with t ticks left fires at the t-th tick from now and never again, whatever
  // is done to the other timers and whoever gets its slot, until the slot itself is started.
  lemma {:induction false} OneShotFiresOnce(y: Sys, ops: seq<Op>, u: nat, t: nat, now: nat)
    requires Steady(y) && u < |y.info| && Left(y.agenda, u, t) && !Periodic(y.info[u]) && LeavesAlone(ops, u, |y.info|)
    ensures FireTimes(y, ops, u, now) == if t <= TickCount(ops) then [now + t] else []
    decreases |ops|
  {
    hide SysOk, Steady, Left, About, Do, Idle, LeavesAlone, Expired, Periodic, FireTimes;
    LeftTicking(y, u, t);
    NoOps(y, u, now);
    if ops != [] {
      LeavesAloneTail(ops, u, |y.info|);
      DoOk(y, ops[0]);
      TickingStep(y, ops[0], u, t);
      FireTimesStep(y, ops, u, now);
      var z, now' := Do(y, ops[0]).0, After(now, ops[0]);
      if ops[0] == Tick && t == 1 {
        SilentWhenIdle(z, ops[1..], u, now');
      } else {
        OneShotFiresOnce(z, ops[1..], u, if ops[0] == Tick then t - 1 else t, now');
      }
    }
  }

  lemma NoOps(y: Sys, u: nat, now: nat)
    requires Steady(y)
    ensures FireTimes(y, [], u, now) == [] && TickCount([]) == 0
  {
  }

  // first, first + step, ... up to last.
  function Multiples(first: nat, step: nat, last: nat): seq<nat>
    requires step > 0
    decreases if first > last then 0 else 1 + last - first
  {
    if first > last then [] else [first] + Multiples(first + step, step, last)
  }

  // A periodic timer with t ticks left fires at the t-th tick and then at every interval.
  lemma PeriodicFiresAtMultiples(y: Sys, ops: seq<Op>, u: nat, t: nat, now: nat)
    requires Steady(y) && u < |y.info| && Left(y.agenda, u, t) && Periodic(y.info[u]) && LeavesAlone(ops, u, |y.info|)
    ensures y.info[u].interval > 0
    ensures FireTimes(y, ops, u, now) == Multiples(now + t, y.info[u].interval, now + TickCount(ops))
  {
    PeriodicRun(y, ops, u, t, now, now + t, y.info[u].interval, now + TickCount(ops));
  }

  lemma {:induction false} PeriodicRun(y: Sys, ops: seq<Op>, u: nat, t: nat, now: nat, first: nat, step: nat, last: nat)
    requires Steady(y) && u < |y.info| && Left(y.agenda, u, t) && Periodic(y.info[u]) && LeavesAlone(ops, u, |y.info|)
    requires first == now + t && step == y.info[u].interval && last == now + TickCount(ops)
    ensures step > 0 && FireTimes(y, ops, u, now) == Multiples(first, step, last)
    decreases |ops|
  {
    hide SysOk, Steady, Left, About, Do, Idle, LeavesAlone, Periodic, Expired, FireTimes, Multiples, TickCount;
    LeftTicking(y, u, t);
    if ops == [] {
      NoOps(y, u, now);
      NoMultiples(first, step, last);
    } else {
      LeavesAloneTail(ops, u, |y.info|);
      DoOk(y, ops[0]);
      TickingStep(y, ops[0], u, t);
      FireTimesStep(y, ops, u, now);
      TickCountStep(ops, now);
      var z, now' := Do(y, ops[0]).0, After(now, ops[0]);
      if ops[0] == Tick && t == 1 {
        IdOk(y, u);
        PeriodicStays(y.info[u], |y.info|);
        PeriodicRun(z, ops[1..], u, step, now', first + step, step, last);
        MultiplesStep(first, step, last);
      } else {
        PeriodicRun(z, ops[1..], u, if ops[0] == Tick then t - 1 else t, now', first, step, last);
      }
    }
  }

  lemma TickCountStep(ops: seq<Op>, now: nat)
    requires ops != []
    ensures now + TickCount(ops) == After(now, ops[0]) + TickCount(ops[1..])
  {
  }

  lemma PeriodicStays(c: Timer, limit: nat)
    requires 0 < limit <= 65535 && Periodic(c)
    ensures Periodic(Expired(c, limit)) && Expired(c, limit).interval == c.interval
  {
  }

  lemma NoMultiples(first: nat, step: nat, last: nat)
    requires step > 0 && first > last
    ensures Multiples(first, step, last) == []
  {
  }

  lemma MultiplesStep(first: nat, step: nat, last: nat)
    requires step > 0 && first <= last
    ensures Multiples(first, step, last) == [first] + Multiples(first + step, step, last)
  {
  }

  lemma FireTimesStep(y: Sys, ops: seq<Op>, u: nat, now: nat)
    requires Steady(y) && ops != []
    ensures Steady(Do(y, ops[0]).0)
    ensures var later := FireTimes(Do(y, ops[0]).0, ops[1..], u, After(now, ops[0]));
            FireTimes(y, ops, u, now) == if u in Do(y, ops[0]).1 then [After(now, ops[0])] + later else later
  {
    hide Steady, Do;
    DoOk(y, ops[0]);
    var later := FireTimes(Do(y, ops[0]).0, ops[1..], u, After(now, ops[0]));
    assert [] + later == later;
  }

  // ---- Expired ids -------------------------------------------------------------------------------

  // How often the run frees slot u by a one-shot expiry.
  function Expiries(y: Sys, ops: seq<Op>, u: nat): nat
    requires Steady(y) && u < |y.info|
    decreases |ops|
  {
    if ops == [] then 0
    else
      DoOk(y, ops[0]);
      var (z, fired) := Do(y, ops[0]);
      (if u in fired && !Periodic(y.info[u]) then 1 else 0) + Expiries(z, ops[1..], u)
  }

  // Only a one-shot expiry changes a slot's id.
  lemma IdStep(y: Sys, op: Op, u: nat)
    requires Steady(y) && u < |y.info|
    ensures |Do(y, op).0.info| == |y.info|
    ensures Do(y, op).0.info[u].id ==
            if u in Do(y, op).1 && !Periodic(y.info[u]) then NextId(y.info[u].id, |y.info|) else y.info[u].id
  {
    DoOk(y, op);
    if op == Tick {
      hide Scan;
      ScanIs(y, u);
    } else {
      hide SysOk, MaxTimerId;
    }
  }

  // The id of a slot counts its one-shot expiries, modulo the number of generations.
  lemma {:induction false} IdCountsExpiries(y: Sys, ops: seq<Op>, u: nat)
    requires Steady(y) && u < |y.info|
    ensures |Run(y, ops).info| == |y.info|
    ensures var (id, id', n) := (y.info[u].id, Run(y, ops).info[u].id, |y.info|);
            && id < MaxTimerId(n) && SlotOf(id', n) == u == SlotOf(id, n) && Generations(n) > 0
            && GenerationOf(id', n) == (GenerationOf(id, n) + Expiries(y, ops, u)) % Generations(n)
    decreases |ops|
  {
    hide Steady, SysOk, Do, GenerationOf, SlotOf, Generations, MaxTimerId, NextId, Periodic;
    var id, n := y.info[u].id, |y.info|;
    IdOk(y, u);
    IdParts(id, n);
    if ops == [] {
      SmallMod(GenerationOf(id, n), Generations(n));
    } else {
      DoOk(y, ops[0]);
      IdStep(y, ops[0], u);
      IdCountsExpiries(Do(y, ops[0]).0, ops[1..], u);
      NextIdOk(id, n);
      ModAdd(GenerationOf(id, n) + 1, Expiries(Do(y, ops[0]).0, ops[1..], u), Generations(n));
    }
  }

  lemma IdOk(y: Sys, u: nat)
    requires Steady(y) && u < |y.info|
    ensures |y.info| <= 65535 && y.info[u].id < MaxTimerId(|y.info|) && SlotOf(y.info[u].id, |y.info|) == u
  {
  }

  lemma SmallMod(g: nat, G: nat)
    requires g < G
    ensures g % G == g
  {
  }

  lemma ModAdd(a: nat, b: nat, G: nat)
    requires G > 0
    ensures (a % G + b) % G == (a + b) % G
  {
    var q := a / G;
    assert a + b == (a % G + b) + q * G;
    RoundsModulo(a % G + b, q, G);
  }

  // A timer id is accepted again exactly when its slot's one-shot expiries since then make whole
  // rounds of the generations.
  lemma StaleIdAcceptedIff(y: Sys, ops: seq<Op>, id: nat)
    requires Steady(y) && Names(y, id)
    ensures |Run(y, ops).info| == |y.info| && Generations(|y.info|) > 0
    ensures Names(Run(y, ops), id) <==> Expiries(y, ops, SlotOf(id, |y.info|)) % Generations(|y.info|) == 0
  {
    hide Steady, SysOk, Run, Expiries, GenerationOf, Generations, SlotOf, MaxTimerId;
    var n, u := |y.info|, SlotOf(id, |y.info|);
    IdOk(y, u);
    var z, k, g := Run(y, ops), Expiries(y, ops, u), GenerationOf(id, |y.info|);
    IdCountsExpiries(y, ops, u);
    IdParts(id, n);
    RunIdOk(y, ops, u);
    IdParts(z.info[u].id, n);
    WholeRounds(g, k, Generations(n));
  }

  lemma RunIdOk(y: Sys, ops: seq<Op>, u: nat)
    requires Steady(y) && u < |y.info|
    ensures |Run(y, ops).info| == |y.info| && Run(y, ops).info[u].id < MaxTimerId(|y.info|)
    decreases |ops|
  {
    hide Steady, SysOk, Do, MaxTimerId;
    if ops == [] {
      IdOk(y, u);
    } else {
      DoOk(y, ops[0]);
      RunIdOk(Do(y, ops[0]).0, ops[1..], u);
    }
  }

  lemma WholeRounds(g: nat, k: nat, G: nat)
    requires g < G
    ensures (g + k) % G == g <==> k % G == 0
  {
    ModAdd(k, g, G);
    assert k % G + g == g + k % G;
    if k % G + g < G {
      SmallMod(k % G + g, G);
    } else {
      assert (k % G + g) % G == k % G + g - G by {
        RoundsModulo(k % G + g - G, 1, G);
        SmallMod(k % G + g - G, G);
      }
    }
  }
}

// What a task is told by the queue calls: at once, or when it has waited.

module QueueAnswers {
  import opened Lists
  import opened Waits
  import opened QueueModel

  // The call gets as far as the counter.
  predicate MayRead(q: Queue, c: Call) {
    !c.ptrNull && c.size > 0 && (c.inInterrupt ==> c.timeout == LOS_NO_WAIT) && q.inUse
  }

  predicate MayWrite(q: Queue, c: Call) {
    MayRead(q, c) && c.size <= q.size
  }

  // A message, or a free slot, is there that nobody has been promised.
  predicate Free(q: Queue, read: bool)
  {
    if read then Stored(q) > InFlight(true, q.phase) else |q.ring| - Stored(q) > InFlight(false, q.phase)
  }

  // The answer to a call that gets as far as the counter: Ok exactly if what it wants is there. Otherwise it
  // blocks exactly if it is willing to and may; without waiting it never does.
  ghost predicate AnswerIs(free: bool, c: Call, o: Outcome, none: Code) {
    && (o == Done(Ok) <==> free)
    && (o == Done(none) <==> !free && c.timeout == LOS_NO_WAIT)
    && (o == Done(PendInLock) <==> !free && c.timeout != LOS_NO_WAIT && c.locked)
    && (o == Blocked <==> !free && c.timeout != LOS_NO_WAIT && !c.locked)
  }

  // A call that is refused before it gets there says why, and changes nothing.
  ghost predicate RefusalIs(q: Queue, z: Queue, c: Call, o: Outcome) {
    && z == q
    && (o == Done(PtrNull) <==> c.ptrNull)
    && (o == Done(SizeIsZero) <==> !c.ptrNull && c.size == 0)
    && (o == Done(InInterrupt) <==> !c.ptrNull && c.size > 0 && c.inInterrupt && c.timeout != LOS_NO_WAIT)
    && (o == Done(NotCreate) ==> !q.inUse) && (o == Done(SizeTooBig) ==> q.inUse && c.size > q.size)
    && o in {Done(PtrNull), Done(SizeIsZero), Done(InInterrupt), Done(NotCreate), Done(SizeTooBig)}
  }

  lemma FreeIs(q: Queue)
    requires QueueOk(q)
    ensures Free(q, true) <==> q.readable > 0
    ensures Free(q, false) <==> q.writable > 0
  {
    hide InFlight, RingOk, ListsOk;
  }

  lemma ReadAnswers(q: Queue, c: Call)
    requires QueueOk(q) && CallOk(q, c)
    ensures var (z, o) := ReadEnter(q, c);
            && (if MayRead(q, c) then AnswerIs(Free(q, true), c, o, IsEmpty) else RefusalIs(q, z, c, o))
            && o != Done(SizeTooBig)
            && (o == Blocked ==> z.phase == q.phase[c.task := Reading(c.timeout != LOS_WAIT_FOREVER)])
  {
    FreeIs(q);
    hide QueueOk, Free, Take, Pended;
  }

  lemma WriteAnswers(q: Queue, c: Call, m: nat)
    requires QueueOk(q) && CallOk(q, c)
    ensures var (z, o) := WriteEnter(q, c, m);
            && (if MayWrite(q, c) then AnswerIs(Free(q, false), c, o, IsFull) else RefusalIs(q, z, c, o))
            && (o == Blocked ==> z.phase == q.phase[c.task := Writing(c.timeout != LOS_WAIT_FOREVER, m)])
  {
    FreeIs(q);
    hide QueueOk, Free, Put, Pended;
  }

  // LOS_QueueDelete says why it refuses.
  lemma DeleteAnswers(q: Queue, mail: bool)
    requires QueueOk(q)
    ensures var (z, code) := DeleteQueue(q, mail);
            && (code == NotCreate <==> !q.inUse)
            && (code == InTaskUse <==> q.inUse && (q.readers != [] || q.writers != [] || mail))
            && (code == InTaskWrite <==>
                  && q.inUse && q.readers == [] && q.writers == [] && !mail
                  && InFlight(true, q.phase) + InFlight(false, q.phase) > 0)
            && (if code == Ok then z == q.(inUse := false) else z == q)
  {
    hide InFlight, RingOk, ListsOk;
  }

  // ---- A blocked call, until its task runs again ---------------------------------------------

  // The first section of a read or write, as a step.
  function Entered(q: Queue, e: Step): Outcome
    requires QueueOk(q) && Enabled(q, e) && (e.ReadCall? || e.WriteCall?)
  {
    if e.ReadCall? then ReadEnter(q, e.c).1 else WriteEnter(q, e.c, e.m).1
  }

  // The second section.
  function Resumed(q: Queue, t: nat): (Queue, Outcome)
    requires QueueOk(q) && Enabled(q, Resume(t))
  {
    if q.phase[t].ReadWoken? || q.phase[t].ReadExpired? then ReadResume(q, t) else WriteResume(q, t)
  }

  // Task t calls in step i and is blocked, and runs again with step k.
  ghost predicate IsWait(run: seq<Queue>, steps: seq<Step>, i: nat, k: nat, t: nat) {
    && i < k < |steps| && |run| == |steps| + 1
    && QueueOk(run[i]) && Enabled(run[i], steps[i]) && (steps[i].ReadCall? || steps[i].WriteCall?)
    && steps[i].c.task == t && Entered(run[i], steps[i]) == Blocked
    && steps[k] == Resume(t) && forall j :: i < j < k ==> steps[j] != Resume(t)
  }

  // The wait of t ran out between steps i and k.
  ghost predicate ExpiredIn(steps: seq<Step>, i: nat, k: nat, t: nat)
    requires k <= |steps|
  {
    exists j :: i < j < k && steps[j] == TimedOut(t)
  }

  // Where a task stands that has been blocked by step e and has not run since.
  predicate Stands(p: Phase, e: Step, expired: bool)
    requires e.ReadCall? || e.WriteCall?
  {
    var timed := e.c.timeout != LOS_WAIT_FOREVER;
    if e.ReadCall? then
      if expired then timed && p == ReadExpired else p == Reading(timed) || p == ReadWoken
    else
      if expired then timed && p == WriteExpired else p == Writing(timed, e.m) || p == WriteWoken(e.m)
  }

  lemma StandsStep(q: Queue, e: Step, t: nat, call: Step, expired: bool)
    requires QueueOk(q) && Enabled(q, e) && t < |q.phase| && (call.ReadCall? || call.WriteCall?)
    requires Stands(q.phase[t], call, expired) && e != Resume(t)
    ensures |Do(q, e).phase| == |q.phase| && Stands(Do(q, e).phase[t], call, expired || e == TimedOut(t))
  {
    if e.ReadCall? || e.WriteCall? || e.Resume? {
      StandsWoken(q, e, t);
      hide QueueOk, Do;
    } else {
      hide QueueOk, Without;
    }
  }

  // While others make calls or run again a waiting task may be woken, as the first that waits.
  predicate MaybeWoken(q: Queue, z: Queue, t: nat)
    requires t < |q.phase| == |z.phase|
  {
    || z.phase[t] == q.phase[t]
    || (q.phase[t].Reading? && q.readers != [] && q.readers[0] == t && z.phase[t] == ReadWoken)
    || (q.phase[t].Writing? && q.writers != [] && q.writers[0] == t && z.phase[t] == WriteWoken(q.phase[t].msg))
  }

  lemma TakePhases(q: Queue, t: nat)
    requires q.head < |q.ring| && t < |q.phase|
    requires forall u: nat :: u in q.writers ==> u < |q.phase| && q.phase[u].Writing?
    ensures |Take(q).phase| == |q.phase| && MaybeWoken(q, Take(q), t)
  {
  }

  lemma PutPhases(q: Queue, m: nat, t: nat)
    requires q.tail < |q.ring| && t < |q.phase|
    requires forall u: nat :: u in q.readers ==> u < |q.phase| && q.phase[u].Reading?
    ensures |Put(q, m).phase| == |q.phase| && MaybeWoken(q, Put(q, m), t)
  {
    assert q.readers != [] ==> q.readers[0] in q.readers;
  }

  lemma StandsWoken(q: Queue, e: Step, t: nat)
    requires QueueOk(q) && Enabled(q, e) && t < |q.phase| && q.phase[t] != Outside && e != Resume(t)
    requires e.ReadCall? || e.WriteCall? || e.Resume?
    ensures |Do(q, e).phase| == |q.phase| && MaybeWoken(q, Do(q, e), t)
  {
    hide QueueOk, ReadEnter, WriteEnter, ReadResume, WriteResume, MaybeWoken;
    match e
    case ReadCall(c) => ReadWakes(q, c, t);
    case WriteCall(c, m) => WriteWakes(q, c, m, t);
    case Resume(u) => ResumeWakes(q, u, t);
  }

  lemma ListsWait(q: Queue)
    requires QueueOk(q)
    ensures forall u: nat :: u in q.writers ==> u < |q.phase| && q.phase[u].Writing?
    ensures forall u: nat :: u in q.readers ==> u < |q.phase| && q.phase[u].Reading?
  {
  }

  lemma ReadWakes(q: Queue, c: Call, t: nat)
    requires QueueOk(q) && CallOk(q, c) && t < |q.phase| && q.phase[t] != Outside
    ensures |ReadEnter(q, c).0.phase| == |q.phase| && MaybeWoken(q, ReadEnter(q, c).0, t)
  {
    InRing(q);
    ListsWait(q);
    hide QueueOk, Pended, Take;
    if q.readable > 0 {
      TakePhases(q.(readable := q.readable - 1), t);
    }
  }

  lemma WriteWakes(q: Queue, c: Call, m: nat, t: nat)
    requires QueueOk(q) && CallOk(q, c) && t < |q.phase| && q.phase[t] != Outside
    ensures |WriteEnter(q, c, m).0.phase| == |q.phase| && MaybeWoken(q, WriteEnter(q, c, m).0, t)
  {
    InRing(q);
    ListsWait(q);
    hide QueueOk, Pended, Put;
    if q.writable > 0 {
      PutPhases(q.(writable := q.writable - 1), m, t);
    }
  }

  lemma ResumeWakes(q: Queue, u: nat, t: nat)
    requires QueueOk(q) && Enabled(q, Resume(u)) && t < |q.phase| && t != u
    ensures |Do(q, Resume(u)).phase| == |q.phase| && MaybeWoken(q, Do(q, Resume(u)), t)
  {
    InRing(q);
    ListsWait(q);
    hide QueueOk, Take, Put;
    var out := q.(phase := q.phase[u := Outside]);
    if q.phase[u].ReadWoken? {
      TakePhases(out, t);
    } else if q.phase[u].WriteWoken? {
      PutPhases(out, q.phase[u].msg, t);
    }
  }

  lemma InRing(q: Queue)
    requires QueueOk(q)
    ensures q.head < |q.ring| && q.tail < |q.ring|
  {
  }

  lemma Begins(q: Queue, e: Step)
    requires QueueOk(q) && Enabled(q, e) && (e.ReadCall? || e.WriteCall?) && Entered(q, e) == Blocked
    ensures |Do(q, e).phase| == |q.phase| && e.c.task < |q.phase| && Stands(Do(q, e).phase[e.c.task], e, false)
  {
    if e.ReadCall? {
      ReadAnswers(q, e.c);
    } else {
      WriteAnswers(q, e.c, e.m);
    }
    hide QueueOk, ReadEnter, WriteEnter;
  }

  lemma {:induction false} Waited(run: seq<Queue>, steps: seq<Step>, i: nat, k: nat, t: nat, x: nat)
    requires IsRun(run, steps) && QueueOk(run[0]) && IsWait(run, steps, i, k, t) && i < x <= k
    ensures t < |run[x].phase| && Stands(run[x].phase[t], steps[i], ExpiredIn(steps, i, x, t))
    decreases x
  {
    hide QueueOk, Do, Enabled, Stands, Entered;
    RunOk(run, steps, x - 1);
    assert StepOf(run[x - 1], steps[x - 1], run[x]);
    if x == i + 1 {
      Begins(run[i], steps[i]);
    } else {
      Waited(run, steps, i, k, t, x - 1);
      StandsStep(run[x - 1], steps[x - 1], t, steps[i], ExpiredIn(steps, i, x - 1, t));
    }
  }

  // Over every run a call that blocked returns Timeout exactly if its wait ran out, and then neither takes
  // nor stores a message; otherwise it returns Ok, a read having taken the oldest message and a write
  // having stored the one it was called with. One that waits for ever always returns Ok.
  lemma BlockedCallEnds(run: seq<Queue>, steps: seq<Step>, i: nat, k: nat, t: nat)
    requires IsRun(run, steps) && QueueOk(run[0]) && IsWait(run, steps, i, k, t)
    ensures QueueOk(run[k]) && Enabled(run[k], Resume(t)) && steps[i].c.task == t
    ensures var (q, z, o) := (run[k], Resumed(run[k], t).0, Resumed(run[k], t).1);
            && run[k + 1] == z && (o == Done(Ok) || o == Done(Timeout))
            && (o == Done(Timeout) <==> ExpiredIn(steps, i, k, t))
            && (steps[i].c.timeout == LOS_WAIT_FOREVER ==> o == Done(Ok))
            && (if steps[i].ReadCall? then Delivers(q, z, o) else Writes(q, z, o, steps[i].m))
  {
    hide QueueOk, Do, Enabled, Stands, Entered, Resumed, Delivers, Writes, ExpiredIn;
    RunOk(run, steps, k);
    assert StepOf(run[k], steps[k], run[k + 1]);
    Waited(run, steps, i, k, t, k);
    Ends(run[k], t, steps[i], ExpiredIn(steps, i, k, t));
  }

  lemma Ends(q: Queue, t: nat, call: Step, expired: bool)
    requires QueueOk(q) && Enabled(q, Resume(t)) && (call.ReadCall? || call.WriteCall?)
    requires t < |q.phase| && Stands(q.phase[t], call, expired)
    ensures var (z, o) := Resumed(q, t);
            && Do(q, Resume(t)) == z && o == Done(if expired then Timeout else Ok)
            && (expired ==> call.c.timeout != LOS_WAIT_FOREVER)
            && (if call.ReadCall? then Delivers(q, z, o) else Writes(q, z, o, call.m))
  {
    var c := Call(0, true, 0, 0, true, false);
    ReadsDeliver(q, c, t);
    WritesAppend(q, c, 0, t);
    hide QueueOk, Delivers, Take, Put;
  }

  // ---- Who is woken --------------------------------------------------------------------------

  predicate Woken(p: Phase, read: bool) {
    if read then p.ReadWoken? else p.WriteWoken?
  }

  // A task is woken only as the first that waits.
  lemma WokenIsFirst(q: Queue, e: Step, read: bool, t: nat)
    requires QueueOk(q) && Enabled(q, e) && t in Waiters(q, read)
    ensures t < |q.phase| == |Do(q, e).phase|
    ensures Woken(Do(q, e).phase[t], read) ==> Waiters(q, read)[0] == t
  {
    IsWaiter(q, read, t);
    if e.ReadCall? || e.WriteCall? || e.Resume? {
      StandsWoken(q, e, t);
      hide QueueOk, Do;
    } else {
      hide QueueOk, Without;
    }
  }

  lemma IsWaiter(q: Queue, read: bool, t: nat)
    requires QueueOk(q) && t in Waiters(q, read)
    ensures t < |q.phase| && if read then q.phase[t].Reading? else q.phase[t].Writing?
  {
  }

  lemma FirstIsNotBehind(L: seq<nat>, u: nat, v: nat)
    requires Distinct(L) && Before(L, u, v)
    ensures v in L && L[0] != v
  {
  }

  // Over every run: of two waiters that had one priority when the second began to wait, the second is not
  // woken while the first goes on waiting.
  lemma NotServedBefore(run: seq<Queue>, steps: seq<Step>, j: nat, k: nat, read: bool, u: nat, v: nat)
    requires IsRun(run, steps) && QueueOk(run[0]) && WaitersSorted(run[0]) && PrioritiesStay(run, steps)
    requires j < k < |steps|
    requires u in Waiters(run[j], read) && v !in Waiters(run[j], read)
    requires forall i :: j < i <= k ==> u in Waiters(run[i], read) && v in Waiters(run[i], read)
    requires u < |run[j].prio| && v < |run[j].prio| && run[j].prio[u] == run[j].prio[v]
    ensures v < |run[k + 1].phase| && !Woken(run[k + 1].phase[v], read)
  {
    FirstComeFirstServed(run, steps, j, k, read, u, v);
    RunOk(run, steps, k);
    assert Distinct(Waiters(run[k], read));
    hide QueueOk, Do, Enabled, Waiters, Before, Woken, Distinct;
    assert StepOf(run[k], steps[k], run[k + 1]);
    FirstIsNotBehind(Waiters(run[k], read), u, v);
    WokenIsFirst(run[k], steps[k], read, v);
  }
}

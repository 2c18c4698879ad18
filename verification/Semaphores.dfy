// One semaphore and the tasks that use it. A post hands its unit straight to the longest waiter,
// which runs later; meanwhile the unit is neither in the count nor with a task that returned.

module Semaphores {
  import opened Lists
  import opened Waits

  const OS_SEM_COUNT_MAX: nat := 0xFFFE

  // Expired: the wait timed out, but the task has not run since.
  datatype Phase = Outside | Waiting(timed: bool) | Granted | Expired

  // SEM_CB_S with its tasks and its history: the count it was created with, the posts that
  // succeeded and the pends that returned successfully.
  datatype Sem = Sem(used: bool, count: nat, waiters: seq<nat>, phase: seq<Phase>, initial: nat, posts: nat, taken: nat)

  datatype Code = Ok | Invalid | Unavailable | PendInInterrupt | PendInLock | Overflow | Pended | Timeout | AllBusy

  datatype Outcome = Blocked | Done(code: Code)

  datatype Call = Call(task: nat, timeout: nat, inInterrupt: bool, locked: bool)

  function Unit(p: Phase): nat { if p == Granted then 1 else 0 }

  // Units handed to tasks that have not run yet.
  function InFlight(phase: seq<Phase>): nat
  {
    if phase == [] then 0 else Unit(phase[0]) + InFlight(phase[1..])
  }

  lemma {:induction false} InFlightUpdate(phase: seq<Phase>, t: nat, p: Phase)
    requires t < |phase|
    ensures InFlight(phase[t := p]) + Unit(phase[t]) == InFlight(phase) + Unit(p)
  {
    if t > 0 {
      assert phase[t := p][1..] == phase[1..][t - 1 := p];
      InFlightUpdate(phase[1..], t - 1, p);
    } else {
      assert phase[t := p][1..] == phase[1..];
    }
  }

  // ---- The invariant ---------------------------------------------------------------------

  ghost predicate WaitersOk(waiters: seq<nat>, phase: seq<Phase>) {
    Distinct(waiters) && forall t: nat :: t in waiters <==> t < |phase| && phase[t].Waiting?
  }

  // Nobody waits while units are left, and no unit is lost or made up.
  ghost predicate SemOk(s: Sem) {
    && WaitersOk(s.waiters, s.phase)
    && (s.waiters != [] ==> s.count == 0 && s.used)
    && s.count <= OS_SEM_COUNT_MAX
    && s.initial + s.posts == s.count + InFlight(s.phase) + s.taken
  }

  // ---- The sections ----------------------------------------------------------------------

  ghost predicate CallOk(s: Sem, c: Call) {
    c.task < |s.phase| && (!c.inInterrupt ==> s.phase[c.task] == Outside)
  }

  // LOS_SemPend until it returns or blocks; a unit that is there is taken even in an interrupt.
  function Pend(s: Sem, c: Call): (Sem, Outcome)
    requires CallOk(s, c)
  {
    if !s.used then (s, Done(Invalid))
    else if s.count > 0 then (s.(count := s.count - 1, taken := s.taken + 1), Done(Ok))
    else if c.timeout == LOS_NO_WAIT then (s, Done(Unavailable))
    else if c.inInterrupt then (s, Done(PendInInterrupt))
    else if c.locked then (s, Done(PendInLock))
    else
      (s.(waiters := s.waiters + [c.task],
          phase := s.phase[c.task := Waiting(c.timeout != LOS_WAIT_FOREVER)]), Blocked)
  }

  // LOS_SemPend when the blocked task runs again.
  function PendResume(s: Sem, t: nat): (Sem, Code)
    requires t < |s.phase| && (s.phase[t] == Granted || s.phase[t] == Expired)
  {
    var out := s.(phase := s.phase[t := Outside]);
    if s.phase[t] == Expired then (out, Timeout) else (out.(taken := s.taken + 1), Ok)
  }

  // LOS_SemPost
  function Post(s: Sem): (Sem, Code)
    requires SemOk(s)
  {
    if !s.used then (s, Invalid)
    else if s.count == OS_SEM_COUNT_MAX then (s, Overflow)
    else if s.waiters != [] then
      assert s.waiters[0] in s.waiters;
      (s.(waiters := s.waiters[1..], phase := s.phase[s.waiters[0] := Granted], posts := s.posts + 1), Ok)
    else (s.(count := s.count + 1, posts := s.posts + 1), Ok)
  }

  // The tick handler takes a waiter whose time is up off the list.
  function Expire(s: Sem, t: nat): Sem
    requires t < |s.phase|
  {
    s.(waiters := Without(s.waiters, t), phase := s.phase[t := Expired])
  }

  // LOS_SemDelete
  function Delete(s: Sem): (Sem, Code)
  {
    if !s.used then (s, Invalid)
    else if s.waiters != [] then (s, Pended)
    else (s.(used := false), Ok)
  }

  // LOS_SemCreate
  function Created(count: nat, tasks: nat): Sem
  {
    Sem(true, count, [], seq(tasks, i => Outside), count, 0, 0)
  }

  // ---- What the sections keep ---------------------------------------------------------------

  datatype Step = PendStep(c: Call) | ResumeStep(t: nat) | PostStep | ExpireStep(t: nat) | DeleteStep

  ghost predicate Enabled(s: Sem, e: Step) {
    match e
    case PendStep(c) => CallOk(s, c)
    case ResumeStep(t) => t < |s.phase| && (s.phase[t] == Granted || s.phase[t] == Expired)
    case PostStep => true
    case ExpireStep(t) => t < |s.phase| && s.phase[t].Waiting? && s.phase[t].timed
    case DeleteStep => true
  }

  function Do(s: Sem, e: Step): Sem
    requires SemOk(s) && Enabled(s, e)
  {
    match e
    case PendStep(c) => Pend(s, c).0
    case ResumeStep(t) => PendResume(s, t).0
    case PostStep => Post(s).0
    case ExpireStep(t) => Expire(s, t)
    case DeleteStep => Delete(s).0
  }

  lemma DoOk(s: Sem, e: Step)
    requires SemOk(s) && Enabled(s, e)
    ensures SemOk(Do(s, e))
  {
    hide InFlight, Without, Distinct;
    match e
    case PendStep(c) =>
      InFlightUpdate(s.phase, c.task, Waiting(c.timeout != LOS_WAIT_FOREVER));
      if c.task !in s.waiters {
        AppendedIs(s.waiters, c.task);
      }
    case ResumeStep(t) =>
      InFlightUpdate(s.phase, t, Outside);
    case PostStep =>
      if s.waiters != [] {
        assert s.waiters[0] in s.waiters;
        InFlightUpdate(s.phase, s.waiters[0], Granted);
        TailIs(s.waiters);
      }
    case ExpireStep(t) =>
      InFlightUpdate(s.phase, t, Expired);
      WithoutIs(s.waiters, t);
      assert t in s.waiters;
    case DeleteStep =>
  }

  // ---- Runs -----------------------------------------------------------------------------------

  ghost predicate StepOf(s: Sem, e: Step, z: Sem) {
    SemOk(s) ==> Enabled(s, e) && z == Do(s, e)
  }

  ghost predicate IsRun(run: seq<Sem>, steps: seq<Step>) {
    && |run| == |steps| + 1
    && forall i :: 0 <= i < |steps| ==> StepOf(run[i], steps[i], run[i + 1])
  }

  lemma DoInitial(s: Sem, e: Step)
    requires SemOk(s) && Enabled(s, e)
    ensures Do(s, e).initial == s.initial
  {
    hide Without, InFlight;
  }

  lemma {:induction false} RunOk(run: seq<Sem>, steps: seq<Step>, k: nat)
    requires IsRun(run, steps) && SemOk(run[0]) && k < |run|
    ensures SemOk(run[k]) && run[k].initial == run[0].initial
  {
    hide SemOk, Do, Enabled;
    if k > 0 {
      RunOk(run, steps, k - 1);
      assert StepOf(run[k - 1], steps[k - 1], run[k]);
      DoOk(run[k - 1], steps[k - 1]);
      DoInitial(run[k - 1], steps[k - 1]);
    }
  }

  lemma {:induction false} NobodyInFlight(phase: seq<Phase>)
    requires forall t :: 0 <= t < |phase| ==> phase[t] == Outside
    ensures InFlight(phase) == 0
  {
    if phase != [] {
      NobodyInFlight(phase[1..]);
    }
  }

  // No lost wake-up and no lost unit, over every interleaving of pends, posts, resumptions,
  // timeouts and deletion.
  lemma SemSafety(run: seq<Sem>, steps: seq<Step>, k: nat, count: nat, tasks: nat)
    requires IsRun(run, steps) && run[0] == Created(count, tasks) && count <= OS_SEM_COUNT_MAX && k < |run|
    ensures (exists t :: 0 <= t < |run[k].phase| && run[k].phase[t].Waiting?) ==> run[k].count == 0
    ensures run[k].count == count + run[k].posts - run[k].taken - InFlight(run[k].phase) <= 0xFFFE
  {
    NobodyInFlight(run[0].phase);
    RunOk(run, steps, k);
    hide InFlight, IsRun;
  }

  // A successful post makes one unit: for the longest waiter, or for the count.
  lemma PostGrantsLongestWaiter(s: Sem)
    requires SemOk(s) && Post(s).1 == Ok
    ensures Post(s).0.count + InFlight(Post(s).0.phase) == s.count + InFlight(s.phase) + 1
    ensures s.waiters != [] ==>
              && Post(s).0.waiters == s.waiters[1..] && s.waiters[0] < |s.phase|
              && Post(s).0.phase[s.waiters[0]] == Granted
  {
    hide InFlight;
    if s.waiters != [] {
      assert s.waiters[0] in s.waiters;
      InFlightUpdate(s.phase, s.waiters[0], Granted);
    }
  }

  // ---- What a pend answers ----------------------------------------------------------------

  // At once: Ok exactly if a unit was taken. The task waits, behind the others, exactly if there is none,
  // it is willing to and may; without waiting it never blocks.
  lemma PendAnswers(s: Sem, c: Call)
    requires SemOk(s) && CallOk(s, c)
    ensures var (z, o) := Pend(s, c);
            && z.taken == (if o == Done(Ok) then s.taken + 1 else s.taken)
            && z.posts == s.posts && z.count + z.taken == s.count + s.taken
            && (o == Done(Invalid) <==> !s.used)
            && (s.used ==> (o == Done(Ok) <==> s.count > 0))
            && (c.timeout == LOS_NO_WAIT ==> o != Blocked && (s.used && s.count == 0 ==> o == Done(Unavailable)))
            && (s.used && c.timeout != LOS_NO_WAIT && !c.inInterrupt && !c.locked ==> (o == Blocked <==> s.count == 0))
            && (o == Blocked ==> s.used && s.count == 0 && !c.inInterrupt && !c.locked)
            && (if o == Blocked then
                  && z.waiters == s.waiters + [c.task]
                  && z.phase == s.phase[c.task := Waiting(c.timeout != LOS_WAIT_FOREVER)]
                else z.waiters == s.waiters && z.phase == s.phase)
  {
  }

  // A post succeeds exactly if the semaphore is used and not full, a deletion if nobody waits.
  lemma PostAnswers(s: Sem)
    requires SemOk(s)
    ensures var (z, code) := Post(s);
            && (code == Ok <==> s.used && s.count < OS_SEM_COUNT_MAX) && (code == Invalid <==> !s.used)
            && z.taken == s.taken && z.posts == (if code == Ok then s.posts + 1 else s.posts)
            && (code != Ok ==> z == s)
    ensures var (z, code) := Delete(s);
            && (code == Ok <==> s.used && s.waiters == []) && (code == Invalid <==> !s.used)
            && (code == Ok ==> !z.used) && z.(used := s.used) == s && (code != Ok ==> z == s)
  {
    assert s.waiters != [] ==> s.waiters[0] in s.waiters;
  }

  // Task t pends in step i and is blocked, and runs again with step k.
  ghost predicate IsWait(run: seq<Sem>, steps: seq<Step>, i: nat, k: nat, t: nat) {
    && i < k < |steps| && |run| == |steps| + 1
    && steps[i].PendStep? && steps[i].c.task == t && CallOk(run[i], steps[i].c) && Pend(run[i], steps[i].c).1 == Blocked
    && steps[k] == ResumeStep(t) && forall j :: i < j < k ==> steps[j] != ResumeStep(t)
  }

  // A post between steps i and k found t to be the longest waiter.
  ghost predicate GrantedIn(run: seq<Sem>, steps: seq<Step>, i: nat, k: nat, t: nat)
    requires k <= |steps| < |run|
  {
    exists j :: i < j < k && steps[j] == PostStep && run[j].waiters != [] && run[j].waiters[0] == t
  }

  // The wait of t ran out between steps i and k.
  ghost predicate ExpiredIn(steps: seq<Step>, i: nat, k: nat, t: nat)
    requires k <= |steps|
  {
    exists j :: i < j < k && steps[j] == ExpireStep(t)
  }

  lemma WaiterStep(s: Sem, e: Step, t: nat)
    requires SemOk(s) && Enabled(s, e) && t < |s.phase| && s.phase[t] != Outside && e != ResumeStep(t)
    ensures |Do(s, e).phase| == |s.phase|
    ensures var grant := e == PostStep && s.waiters != [] && s.waiters[0] == t;
            && Do(s, e).phase[t] == (if e == ExpireStep(t) then Expired else if grant then Granted else s.phase[t])
            && (e == ExpireStep(t) ==> s.phase[t] == Waiting(true)) && (grant ==> s.phase[t].Waiting?)
  {
    hide InFlight, Without, Distinct;
    assert s.waiters != [] ==> s.waiters[0] in s.waiters;
  }

  lemma {:induction false} Waited(run: seq<Sem>, steps: seq<Step>, i: nat, k: nat, t: nat, x: nat)
    requires IsRun(run, steps) && SemOk(run[0]) && IsWait(run, steps, i, k, t) && i < x <= k
    ensures t < |run[x].phase| && run[x].phase[t] != Outside
    ensures run[x].phase[t].Waiting? ==> run[x].phase[t].timed == (steps[i].c.timeout != LOS_WAIT_FOREVER)
    ensures run[x].phase[t] == Granted <==> GrantedIn(run, steps, i, x, t)
    ensures run[x].phase[t] == Expired <==> ExpiredIn(steps, i, x, t)
    ensures run[x].phase[t] == Expired ==> steps[i].c.timeout != LOS_WAIT_FOREVER
    decreases x
  {
    hide SemOk, Do, Enabled;
    RunOk(run, steps, x - 1);
    assert StepOf(run[x - 1], steps[x - 1], run[x]);
    if x == i + 1 {
      PendAnswers(run[i], steps[i].c);
      PendIsDone(run[i], steps[i].c);
    } else {
      Waited(run, steps, i, k, t, x - 1);
      WaiterStep(run[x - 1], steps[x - 1], t);
    }
  }

  lemma PendIsDone(s: Sem, c: Call)
    requires SemOk(s) && Enabled(s, PendStep(c))
    ensures CallOk(s, c) && Do(s, PendStep(c)) == Pend(s, c).0
  {
  }

  // Over every run a pend that blocked takes a unit and returns Ok exactly if a post handed it one, and
  // returns Timeout exactly if its wait ran out; one that waits for ever always returns Ok.
  lemma BlockedPendEnds(run: seq<Sem>, steps: seq<Step>, i: nat, k: nat, t: nat)
    requires IsRun(run, steps) && SemOk(run[0]) && IsWait(run, steps, i, k, t)
    ensures t < |run[k].phase| && (run[k].phase[t] == Granted || run[k].phase[t] == Expired)
    ensures var (z, code) := PendResume(run[k], t);
            && run[k + 1] == z && z.phase[t] == Outside
            && (code == Ok || code == Timeout)
            && z.taken == (if code == Ok then run[k].taken + 1 else run[k].taken)
            && (code == Ok <==> GrantedIn(run, steps, i, k, t))
            && (code == Timeout <==> ExpiredIn(steps, i, k, t))
            && (steps[i].c.timeout == LOS_WAIT_FOREVER ==> code == Ok)
  {
    hide SemOk, Do, GrantedIn, ExpiredIn;
    RunOk(run, steps, k);
    assert StepOf(run[k], steps[k], run[k + 1]);
    Waited(run, steps, i, k, t, k);
    ResumeIsDone(run[k], t);
  }

  lemma ResumeIsDone(s: Sem, t: nat)
    requires SemOk(s) && Enabled(s, ResumeStep(t))
    ensures t < |s.phase| && (s.phase[t] == Granted || s.phase[t] == Expired)
    ensures Do(s, ResumeStep(t)) == PendResume(s, t).0
  {
  }

  // ---- The code -----------------------------------------------------------------------------

  class Semaphore {
    const phase: array<Phase>   // per task
    var used: bool
    var count: nat
    var semList: seq<nat>
    ghost var initial: nat
    ghost var posts: nat
    ghost var taken: nat

    ghost function View(): Sem
      reads this, phase
    {
      Sem(used, count, semList, phase[..], initial, posts, taken)
    }

    ghost predicate Valid()
      reads this, phase
    {
      SemOk(View())
    }

    // LOS_SemCreate: a count above the maximum is refused, then the lack of an unused control block;
    // otherwise the first of these is taken and holds that many units.
    static method SemCreate(count: nat, tasks: nat, unused: seq<nat>)
      returns (code: Code, s: Semaphore?, handle: nat, rest: seq<nat>)
      ensures code == if count > OS_SEM_COUNT_MAX then Overflow else if unused == [] then AllBusy else Ok
      ensures code == Ok ==> s != null && fresh(s) && fresh(s.phase) && s.Valid() && s.View() == Created(count, tasks)
      ensures if code == Ok then unused == [handle] + rest else rest == unused
    {
      s, handle, rest := null, 0, unused;
      if count > OS_SEM_COUNT_MAX {
        return Overflow, s, handle, rest;
      }
      if unused == [] {
        return AllBusy, s, handle, rest;
      }
      handle, rest := unused[0], unused[1..];
      s := new Semaphore(count, tasks);
      code := Ok;
    }

    constructor (usCount: nat, tasks: nat)
      requires usCount <= OS_SEM_COUNT_MAX
      ensures fresh(phase) && Valid() && View() == Created(usCount, tasks)
    {
      phase := new Phase[tasks](i => Outside);
      used, count, semList, initial, posts, taken := true, usCount, [], usCount, 0, 0;
      new;
      NobodyInFlight(phase[..]);
      assert View() == Created(usCount, tasks);
    }

    // LOS_SemPend until it returns or blocks.
    method SemPend(c: Call) returns (o: Outcome)
      requires Valid() && CallOk(View(), c)
      modifies this, phase
      ensures Valid() && (View(), o) == Pend(old(View()), c)
      ensures o == Done(Ok) <==> taken == old(taken) + 1
      ensures old(used) ==> (o == Done(Ok) <==> old(count) > 0)
      ensures c.timeout == LOS_NO_WAIT ==> o != Blocked
      ensures old(used) && c.timeout != LOS_NO_WAIT && !c.inInterrupt && !c.locked ==>
                (o == Blocked <==> old(count) == 0)
    {
      hide InFlight, WaitersOk;
      DoOk(View(), PendStep(c));
      if !used {
        return Done(Invalid);
      }
      if count > 0 {
        count := count - 1;
        taken := taken + 1;
        return Done(Ok);
      }
      if c.timeout == LOS_NO_WAIT {
        return Done(Unavailable);
      }
      if c.inInterrupt {
        return Done(PendInInterrupt);
      }
      if c.locked {
        return Done(PendInLock);
      }
      semList := semList + [c.task];
      phase[c.task] := Waiting(c.timeout != LOS_WAIT_FOREVER);
      o := Blocked;
    }

    // LOS_SemPend when the blocked task runs again.
    method SemPendResume(t: nat) returns (code: Code)
      requires Valid() && t < phase.Length && (phase[t] == Granted || phase[t] == Expired)
      modifies this`taken, phase
      ensures Valid() && (View(), code) == PendResume(old(View()), t)
      ensures code == (if old(phase[t]) == Expired then Timeout else Ok)
      ensures taken == (if code == Ok then old(taken) + 1 else old(taken))
    {
      hide InFlight, WaitersOk;
      DoOk(View(), ResumeStep(t));
      if phase[t] == Expired {
        phase[t] := Outside;
        return Timeout;
      }
      phase[t] := Outside;
      taken := taken + 1;
      code := Ok;
    }

    // LOS_SemPost
    method SemPost() returns (code: Code)
      requires Valid()
      modifies this, phase
      ensures Valid() && (View(), code) == Post(old(View()))
    {
      hide InFlight, Distinct;
      DoOk(View(), PostStep);
      if !used {
        return Invalid;
      }
      if OS_SEM_COUNT_MAX == count {
        return Overflow;
      }
      posts := posts + 1;
      if semList != [] {
        assert semList[0] in semList;
        phase[semList[0]] := Granted;
        semList := semList[1..];
      } else {
        count := count + 1;
      }
      code := Ok;
    }

    // LOS_SemDelete
    method SemDelete() returns (code: Code)
      requires Valid()
      modifies this`used
      ensures Valid() && (View(), code) == Delete(old(View()))
    {
      if !used {
        return Invalid;
      }
      if semList != [] {
        return Pended;
      }
      used := false;
      code := Ok;
    }
  }
}

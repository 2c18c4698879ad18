// Mail blocks: tasks that wait for a block of an exhausted pool. A freed block goes straight to
// the first waiter, which finds it when it runs again.

module Mail {
  import opened Waits
  import opened Lists
  import opened Membox
  import MessageQueue
  import Q = QueueModel

  // Given: the task was woken with this block (puwMsg) and has not run since. Expired: the wait
  // timed out, but the task has not run since.
  datatype Phase = Outside | Waiting(timed: bool) | Given(box: nat) | Expired

  datatype Mail = Mail(g: Geometry, free: seq<nat>, waiters: seq<nat>, phase: seq<Phase>, prio: seq<nat>)

  datatype Outcome = Blocked | Box(box: nat)

  datatype Call = Call(task: nat, timeout: nat, inInterrupt: bool)

  // box is the user address of a block that is not free.
  ghost predicate Allocated(m: Mail, box: nat) {
    exists b: nat :: b < m.g.blkNum && b !in m.free && box == UserAddr(m.g, b)
  }

  ghost predicate GivenTo(m: Mail, box: nat) {
    exists t :: 0 <= t < |m.phase| && m.phase[t] == Given(box)
  }

  // No block is on its way to two tasks.
  ghost predicate GivenOnce(phase: seq<Phase>) {
    forall t, u :: 0 <= t < |phase| && 0 <= u < |phase| && t != u && phase[t].Given? && phase[u].Given? ==>
      phase[t].box != phase[u].box
  }

  // While somebody waits the pool is empty, and what was given to a task is not free.
  ghost predicate MailOk(m: Mail) {
    && GeometryOk(m.g) && Distinct(m.free) && (forall i :: 0 <= i < |m.free| ==> m.free[i] < m.g.blkNum)
    && |m.prio| == |m.phase| && Distinct(m.waiters)
    && (forall t: nat :: t in m.waiters <==> t < |m.phase| && m.phase[t].Waiting?)
    && (m.waiters != [] ==> m.free == [])
    && GivenOnce(m.phase)
    && forall t :: 0 <= t < |m.phase| && m.phase[t].Given? ==> Allocated(m, m.phase[t].box)
  }

  ghost predicate CallOk(m: Mail, c: Call) {
    c.task < |m.phase| && (!c.inInterrupt ==> m.phase[c.task] == Outside)
  }

  // osQueueMailAlloc until it returns or blocks.
  function Alloc(m: Mail, c: Call): (Mail, Outcome)
    requires MailOk(m) && CallOk(m, c)
  {
    if c.timeout != LOS_NO_WAIT && c.inInterrupt then (m, Box(NULL))
    else if m.free != [] then (m.(free := m.free[1..]), Box(UserAddr(m.g, m.free[0])))
    else if c.timeout == LOS_NO_WAIT then (m, Box(NULL))
    else
      Q.MembersBelow(m.waiters, |m.prio|);
      (m.(waiters := Q.Pended(m.waiters, m.prio, c.task),
          phase := m.phase[c.task := Waiting(c.timeout != LOS_WAIT_FOREVER)]), Blocked)
  }

  // osQueueMailAlloc when the blocked task runs again.
  function AllocResume(m: Mail, t: nat): (Mail, Outcome)
    requires t < |m.phase| && (m.phase[t].Given? || m.phase[t] == Expired)
  {
    (m.(phase := m.phase[t := Outside]), Box(if m.phase[t] == Expired then NULL else m.phase[t].box))
  }

  // What the owner of the block sees of osQueueMailFree when it succeeds on block b: the block
  // is free, or the first waiter has it.
  function Freed(m: Mail, b: nat): Mail
    requires MailOk(m)
  {
    if m.waiters == [] then m.(free := [b] + m.free)
    else
      assert m.waiters[0] in m.waiters;
      m.(waiters := m.waiters[1..], phase := m.phase[m.waiters[0] := Given(UserAddr(m.g, b))])
  }

  // The tick handler takes a waiter whose time is up off the list.
  function Expire(m: Mail, t: nat): Mail
    requires t < |m.phase|
  {
    m.(waiters := Without(m.waiters, t), phase := m.phase[t := Expired])
  }

  // ---- What the sections keep ----------------------------------------------------------------

  lemma AllocOk(m: Mail, c: Call)
    requires MailOk(m) && CallOk(m, c)
    ensures MailOk(Alloc(m, c).0)
    ensures Alloc(m, c).1.Box? && Alloc(m, c).1.box != NULL ==>
              !Allocated(m, Alloc(m, c).1.box) && Allocated(Alloc(m, c).0, Alloc(m, c).1.box)
  {
    hide UserAddr, GeometryOk;
    if m.free != [] {
      var b, box := m.free[0], UserAddr(m.g, m.free[0]);
      assert m.free == [b] + m.free[1..];
      BlockOnly(m.g, b);
      assert b !in m.free[1..] && b < m.g.blkNum;
    } else if c.timeout != LOS_NO_WAIT && !c.inInterrupt {
      Q.MembersBelow(m.waiters, |m.prio|);
      Q.PendedContains(m.waiters, m.prio, c.task);
      hide Q.Pended;
    }
  }

  lemma BlockOnly(g: Geometry, b: nat)
    requires GeometryOk(g) && b < g.blkNum
    ensures forall a: nat :: a < g.blkNum && UserAddr(g, a) == UserAddr(g, b) ==> a == b
  {
    OnlyBlock(g, UserAddr(g, b), b);
  }

  lemma AllocResumeOk(m: Mail, t: nat)
    requires MailOk(m) && t < |m.phase| && (m.phase[t].Given? || m.phase[t] == Expired)
    ensures MailOk(AllocResume(m, t).0)
    ensures m.phase[t].Given? ==> Allocated(m, AllocResume(m, t).1.box)
  {
    hide UserAddr, GeometryOk;
  }

  // Freeing a block that is on its way to a woken task, which the source cannot tell from others,
  // hands it out twice, or leaves that task with a free block.
  lemma FreedOkIff(m: Mail, b: nat)
    requires MailOk(m) && b < m.g.blkNum && b !in m.free
    ensures MailOk(Freed(m, b)) <==> !GivenTo(m, UserAddr(m.g, b))
  {
    hide UserAddr, GeometryOk;
    BlockOnly(m.g, b);
    if m.waiters == [] {
      if GivenTo(m, UserAddr(m.g, b)) {
        assert !Allocated(Freed(m, b), UserAddr(m.g, b));
      }
    } else {
      FreedToWaiter(m, b);
    }
  }

  lemma FreedToWaiter(m: Mail, b: nat)
    requires MailOk(m) && b < m.g.blkNum && b !in m.free && m.waiters != []
    ensures MailOk(Freed(m, b)) <==> !GivenTo(m, UserAddr(m.g, b))
  {
    hide UserAddr, GeometryOk;
    var w, z, box := m.waiters[0], Freed(m, b), UserAddr(m.g, b);
    assert w in m.waiters;
    TailIs(m.waiters);
    assert Allocated(m, box);
    forall t | 0 <= t < |z.phase| && z.phase[t].Given?
      ensures Allocated(z, z.phase[t].box)
    {
      assert Allocated(m, z.phase[t].box);
    }
    if t :| 0 <= t < |m.phase| && m.phase[t] == Given(box) {
      assert z.phase[t] == z.phase[w] == Given(box) && t != w;
    }
  }

  lemma ExpireOk(m: Mail, t: nat)
    requires MailOk(m) && t < |m.phase| && m.phase[t].Waiting?
    ensures MailOk(Expire(m, t))
  {
    hide UserAddr, GeometryOk;
    assert t in m.waiters;
    WithoutIs(m.waiters, t);
  }

  // ---- Runs ------------------------------------------------------------------------------------

  datatype Step = AllocStep(c: Call) | ResumeStep(t: nat) | FreeStep(b: nat) | ExpireStep(t: nat)
      | PrioStep(t: nat, p: nat)

  // A task frees what it has, not what is on its way to another (FreedOkIff).
  ghost predicate Enabled(m: Mail, e: Step)
  {
    match e
    case AllocStep(c) => CallOk(m, c)
    case ResumeStep(t) => t < |m.phase| && (m.phase[t].Given? || m.phase[t] == Expired)
    case FreeStep(b) => b < m.g.blkNum && b !in m.free && !GivenTo(m, UserAddr(m.g, b))
    case ExpireStep(t) => t < |m.phase| && m.phase[t].Waiting? && m.phase[t].timed
    case PrioStep(t, _) => t < |m.prio|
  }

  function Do(m: Mail, e: Step): Mail
    requires MailOk(m) && Enabled(m, e)
  {
    match e
    case AllocStep(c) => Alloc(m, c).0
    case ResumeStep(t) => AllocResume(m, t).0
    case FreeStep(b) => Freed(m, b)
    case ExpireStep(t) => Expire(m, t)
    case PrioStep(t, p) => m.(prio := m.prio[t := p])
  }

  ghost predicate StepOf(m: Mail, e: Step, z: Mail) {
    MailOk(m) ==> Enabled(m, e) && z == Do(m, e)
  }

  ghost predicate IsRun(run: seq<Mail>, steps: seq<Step>) {
    && |run| == |steps| + 1 && MailOk(run[0])
    && forall i :: 0 <= i < |steps| ==> StepOf(run[i], steps[i], run[i + 1])
  }

  lemma DoOk(m: Mail, e: Step)
    requires MailOk(m) && Enabled(m, e)
    ensures MailOk(Do(m, e))
  {
    match e
    case AllocStep(c) =>
      hide MailOk;
      AllocOk(m, c);
    case ResumeStep(t) =>
      hide MailOk;
      AllocResumeOk(m, t);
    case FreeStep(b) =>
      hide MailOk, GivenTo;
      FreedOkIff(m, b);
    case ExpireStep(t) =>
      hide MailOk;
      ExpireOk(m, t);
    case PrioStep(t, p) =>
      PrioOk(m, t, p);
  }

  lemma PrioOk(m: Mail, t: nat, p: nat)
    requires MailOk(m) && t < |m.prio|
    ensures MailOk(m.(prio := m.prio[t := p]))
  {
    var z := m.(prio := m.prio[t := p]);
    hide UserAddr, GeometryOk;
    forall u | 0 <= u < |z.phase| && z.phase[u].Given?
      ensures Allocated(z, z.phase[u].box)
    {
      assert Allocated(m, z.phase[u].box);
    }
  }

  // At every point of every run a task waits for mail only while the pool is empty, and the block
  // a woken task was given is not free and on its way to no other.
  lemma {:induction false} MailSafety(run: seq<Mail>, steps: seq<Step>, k: nat)
    requires IsRun(run, steps) && k < |run|
    ensures MailOk(run[k])
    ensures (exists t :: 0 <= t < |run[k].phase| && run[k].phase[t].Waiting?) ==> run[k].free == []
    ensures forall t :: 0 <= t < |run[k].phase| && run[k].phase[t].Given? ==> Allocated(run[k], run[k].phase[t].box)
    ensures GivenOnce(run[k].phase)
  {
    hide MailOk, Do, Enabled, Allocated;
    if k > 0 {
      MailSafety(run, steps, k - 1);
      assert StepOf(run[k - 1], steps[k - 1], run[k]);
      DoOk(run[k - 1], steps[k - 1]);
    }
    OkSays(run[k]);
  }

  lemma OkSays(m: Mail)
    requires MailOk(m)
    ensures (exists t :: 0 <= t < |m.phase| && m.phase[t].Waiting?) ==> m.free == []
    ensures forall t :: 0 <= t < |m.phase| && m.phase[t].Given? ==> Allocated(m, m.phase[t].box)
    ensures GivenOnce(m.phase)
  {
    hide Allocated, GeometryOk;
  }

  // A mail box over a pool in which all blocks are free.
  function Fresh(g: Geometry, prio: seq<nat>): Mail
  {
    Mail(g, Blocks(g.blkNum), [], seq(|prio|, t => Outside), prio)
  }

  lemma FreshOk(g: Geometry, prio: seq<nat>)
    requires GeometryOk(g)
    ensures MailOk(Fresh(g, prio))
  {
    hide Addr, GeometryOk;
  }

  // A run from a fresh box of one block to a state in which that block is on its way to a woken task:
  // task 0 takes it, task 1 waits for it, task 0 frees it. If it is freed again before task 1 has run,
  // the block is free while task 1 returns with it.
  lemma FreedOnItsWay(g: Geometry, prio: seq<nat>) returns (run: seq<Mail>, steps: seq<Step>)
    requires GeometryOk(g) && g.blkNum == 1 && |prio| >= 2
    ensures |steps| == 3 && IsRun(run, steps) && run[0] == Fresh(g, prio) && steps[2] == FreeStep(0)
    ensures 0 !in run[3].free && GivenTo(run[3], UserAddr(g, 0)) && MailOk(run[3]) && !MailOk(Freed(run[3], 0))
  {
    hide UserAddr, GeometryOk, MailOk, Q.Pended;
    var c0, c1 := Call(0, LOS_WAIT_FOREVER, false), Call(1, LOS_WAIT_FOREVER, false);
    var m0 := Fresh(g, prio);
    FreshOk(g, prio);
    AllocOk(m0, c0);
    var m1 := Alloc(m0, c0).0;
    assert m1 == m0.(free := []);
    AllocOk(m1, c1);
    var m2 := Alloc(m1, c1).0;
    FirstPended(prio);
    assert m2 == m1.(waiters := [1], phase := m1.phase[1 := Waiting(false)]);
    FreedOkIff(m2, 0);
    var m3 := Freed(m2, 0);
    assert m3.phase[1] == Given(UserAddr(g, 0));
    FreedOkIff(m3, 0);
    run, steps := [m0, m1, m2, m3], [AllocStep(c0), AllocStep(c1), FreeStep(0)];
  }

  lemma FirstPended(prio: seq<nat>)
    requires |prio| >= 2
    ensures Q.Below([], |prio|) && Q.Pended([], prio, 1) == [1]
  {
  }

  // ---- The code ------------------------------------------------------------------------------

  class MailBox {
    const pool: Membox
    const phase: array<Phase>    // per task
    const prio: array<nat>       // per task
    var memList: seq<nat>        // stMemList

    ghost function View(): Mail
      reads this, pool, phase, prio
    {
      Mail(pool.g, pool.free, memList, phase[..], prio[..])
    }

    ghost predicate Valid()
      reads this, pool, pool.words, phase, prio
    {
      pool.words != prio && pool.Valid() && MailOk(View())
    }

    constructor (p: Membox, tasks: nat)
      requires p.Valid()
      ensures pool == p && fresh(phase) && fresh(prio) && Valid() && memList == []
    {
      pool := p;
      phase := new Phase[tasks](i => Outside);
      prio := new nat[tasks](i => 0);
      memList := [];
    }

    // osQueueMailAlloc until it returns or blocks.
    method MailAlloc(c: Call) returns (o: Outcome)
      requires Valid() && CallOk(View(), c)
      modifies this, pool, pool.words, phase
      ensures Valid() && (View(), o) == Alloc(old(View()), c)
    {
      hide UserAddr, GeometryOk, PoolOk, Q.Pended;
      ghost var m := View();
      AllocOk(m, c);
      if c.timeout != LOS_NO_WAIT && c.inInterrupt {
        return Box(NULL);
      }
      var box := pool.MemboxAlloc();
      BoxIsBlock(m);
      if box == NULL {
        if c.timeout == LOS_NO_WAIT {
          return Box(NULL);
        }
        Q.MembersBelow(memList, prio.Length);
        memList := MessageQueue.QueuePend(memList, prio, c.task);
        phase[c.task] := Waiting(c.timeout != LOS_WAIT_FOREVER);
        return Blocked;
      }
      o := Box(box);
    }

    // osQueueMailAlloc when the blocked task runs again.
    method MailAllocResume(t: nat) returns (o: Outcome)
      requires Valid() && t < phase.Length && (phase[t].Given? || phase[t] == Expired)
      modifies phase
      ensures Valid() && (View(), o) == AllocResume(old(View()), t)
    {
      hide UserAddr, GeometryOk, PoolOk;
      AllocResumeOk(View(), t);
      o := Box(if phase[t] == Expired then NULL else phase[t].box);
      phase[t] := Outside;
    }

    // osQueueMailFree: fails exactly for what is not an allocated block. When a task waits, the
    // allocation on its behalf cannot fail: it yields the block just freed.
    method MailFree(box: nat) returns (ok: bool)
      requires Valid() && box < WORD
      modifies this, pool, pool.words, phase
      ensures Valid() <==> !ok || !GivenTo(old(View()), box)
      ensures pool.Valid() && (ok <==> Allocated(old(View()), box))
      ensures !ok ==> View() == old(View())
      ensures ok ==> exists b: nat ::
                && b < pool.g.blkNum && b !in old(pool.free)
                && box == UserAddr(pool.g, b) && View() == Freed(old(View()), b)
    {
      hide UserAddr, GeometryOk, PoolOk;
      ghost var m := View();
      ok := pool.MemboxFree(box);
      if !ok {
        return;
      }
      ghost var b := pool.free[0];
      BoxIsBlock(m);
      FreedOkIff(m, b);
      if memList != [] {
        assert memList[0] in m.waiters;
        var t := memList[0];
        memList := memList[1..];
        var again := pool.MemboxAlloc();
        assert again == box && pool.free == m.free;
        phase[t] := Given(again);
      }
      assert View() == Freed(m, b);
    }
  }

  // A block's address is never null.
  lemma BoxIsBlock(m: Mail)
    requires MailOk(m)
    ensures forall b: nat {:trigger UserAddr(m.g, b)} :: b < m.g.blkNum ==> UserAddr(m.g, b) > 0
  {
  }
}

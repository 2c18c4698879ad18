// A message queue and the scheduler together: what the queue takes its tasks to be doing is what
// their control blocks and the lists say, and a task that was promised a message can run.

module QueueTasks {
  import opened Lists
  import Timeouts = Waits
  import opened SchedModel
  import opened SchedOps
  import opened SchedEffects
  import Q = QueueModel

  // r and w are the objects whose wait lists are the read list and the write list of the queue.
  datatype Kernel = Kernel(s: Sched, q: Q.Queue, r: nat, w: nat)

  // ---- The joint invariant -----------------------------------------------------------------

  // The bits of a task that the queue takes to be in phase p.
  predicate BitsFor(p: Q.Phase, c: Status) {
    && (p.Reading? || p.Writing? ==> c.pendQueue && (c.timeout <==> p.timed))
    && (p.ReadWoken? || p.WriteWoken? ==> Runnable(c) && !c.timeout)
    && (p.ReadExpired? || p.WriteExpired? ==> Runnable(c) && c.timeout)
  }

  ghost predicate BitsOk(tcb: seq<Tcb>, phase: seq<Q.Phase>) {
    |phase| == |tcb| && forall t :: 0 <= t < |tcb| ==> BitsFor(phase[t], tcb[t].status)
  }

  // The lists of the queue are the wait lists of the two objects.
  ghost predicate ListsShared(lists: seq<seq<nat>>, readers: seq<nat>, writers: seq<nat>, r: nat, w: nat) {
    && r != w && PRIORITYNUM + r < |lists| && PRIORITYNUM + w < |lists|
    && lists[PRIORITYNUM + r] == readers && lists[PRIORITYNUM + w] == writers
  }

  // What the queue and the scheduler must agree on.
  ghost predicate Agree(s: Sched, readers: seq<nat>, writers: seq<nat>, phase: seq<Q.Phase>, prio: seq<nat>,
                        r: nat, w: nat)
  {
    && SchedOk(s) && Q.ListsOk(readers, writers, phase)
    && BitsOk(s.tcb, phase) && PriosOk(s.tcb, prio) && ListsShared(s.lists, readers, writers, r, w)
  }

  ghost predicate KernelOk(k: Kernel) {
    Q.QueueOk(k.q) && Agree(k.s, k.q.readers, k.q.writers, k.q.phase, k.q.prio, k.r, k.w)
  }

  // ---- One task changes -------------------------------------------------------------------------

  // A step that changes one task, in the scheduler and in the queue, keeps the agreement if the two
  // changes agree.
  lemma AgreeAfter(s: Sched, z: Sched, q: Q.Queue, y: Q.Queue, r: nat, w: nat, t: nat)
    requires Agree(s, q.readers, q.writers, q.phase, q.prio, r, w) && t < |s.tcb|
    requires SchedOk(z) && OnlyTask(s, z, t)
    requires |y.phase| == |q.phase| && forall u :: 0 <= u < |q.phase| && u != t ==> y.phase[u] == q.phase[u]
    requires |y.prio| == |q.prio| && forall u :: 0 <= u < |q.prio| && u != t ==> y.prio[u] == q.prio[u]
    requires BitsFor(y.phase[t], z.tcb[t].status) && y.prio[t] == z.tcb[t].prio
    requires Q.ListsOk(y.readers, y.writers, y.phase) && ListsShared(z.lists, y.readers, y.writers, r, w)
    ensures Agree(z, y.readers, y.writers, y.phase, y.prio, r, w)
  {
    hide SchedOk, Q.ListsOk, BitsFor, ListsShared;
  }

  // The same when neither list changes, nor anything of the queue but the priority of the task.
  lemma AgreeAside(s: Sched, z: Sched, q: Q.Queue, r: nat, w: nat, t: nat)
    requires Agree(s, q.readers, q.writers, q.phase, q.prio, r, w) && t < |s.tcb|
    requires SchedOk(z) && OnlyTask(s, z, t) && SameWaitLists(s, z) && BitsFor(q.phase[t], z.tcb[t].status)
    ensures t < |q.prio| && Agree(z, q.readers, q.writers, q.phase, q.prio[t := z.tcb[t].prio], r, w)
  {
    AgreeAfter(s, z, q, q.(prio := q.prio[t := z.tcb[t].prio]), r, w, t);
  }

  // ---- Waking and blocking -----------------------------------------------------------------------

  // The scheduler's part of waking the head of list L, if it is to be woken.
  function Woke(s: Sched, ok: bool, L: seq<nat>): Sched
    requires SchedOk(s) && (L != [] ==> L[0] < |s.tcb|)
  {
    if ok && L != [] then Wake(s, L[0]) else s
  }

  lemma HeadIsTask(s: Sched, q: Q.Queue, r: nat, w: nat)
    requires Agree(s, q.readers, q.writers, q.phase, q.prio, r, w)
    ensures q.readers != [] ==> q.readers[0] < |s.tcb| && q.phase[q.readers[0]].Reading?
    ensures q.writers != [] ==> q.writers[0] < |s.tcb| && q.phase[q.writers[0]].Writing?
  {
    hide SchedOk, Distinct;
    if q.readers != [] {
      assert q.readers[0] in q.readers;
    }
    if q.writers != [] {
      assert q.writers[0] in q.writers;
    }
  }

  // One wait list, of the readers (read) or of the writers, is replaced by L.
  lemma SharedAfter(s: Sched, z: Sched, q: Q.Queue, y: Q.Queue, r: nat, w: nat, read: bool)
    requires ListsShared(s.lists, q.readers, q.writers, r, w)
    requires OtherWaitLists(s, z, if read then r else w)
    requires z.lists[PRIORITYNUM + (if read then r else w)] == Q.Waiters(y, read)
    requires Q.Waiters(y, !read) == Q.Waiters(q, !read)
    ensures ListsShared(z.lists, y.readers, y.writers, r, w)
  {
  }

  // The list of the readers (read) or of the writers as the scheduler has it.
  lemma SharedList(s: Sched, q: Q.Queue, r: nat, w: nat, read: bool)
    requires ListsShared(s.lists, q.readers, q.writers, r, w)
    ensures PRIORITYNUM + (if read then r else w) < |s.lists|
    ensures s.lists[PRIORITYNUM + (if read then r else w)] == Q.Waiters(q, read)
  {
  }

  lemma WithoutHead(L: seq<nat>)
    requires L != []
    ensures Without(L, L[0]) == L[1..]
  {
  }

  // A waiting writer gets a slot: y is the queue afterwards.
  lemma WakeWriterAgrees(s: Sched, q: Q.Queue, y: Q.Queue, r: nat, w: nat)
    requires Agree(s, q.readers, q.writers, q.phase, q.prio, r, w) && q.writers != []
    requires q.writers[0] < |q.phase| && q.phase[q.writers[0]].Writing?
    requires y.readers == q.readers && y.writers == q.writers[1..] && y.prio == q.prio
    requires y.phase == q.phase[q.writers[0] := Q.WriteWoken(q.phase[q.writers[0]].msg)]
    requires Q.ListsOk(y.readers, y.writers, y.phase)
    ensures Agree(Wake(s, q.writers[0]), y.readers, y.writers, y.phase, y.prio, r, w)
  {
    hide ListsShared, SchedOk, Q.ListsOk, Wake, Without, OtherWaitLists;
    var t := q.writers[0];
    SharedList(s, q, r, w, false);
    MemberWaits(s, w, t);
    WakeEffect(s, t);
    WithoutHead(q.writers);
    SharedAfter(s, Wake(s, t), q, y, r, w, false);
    hide Q.Waiters;
    AgreeAfter(s, Wake(s, t), q, y, r, w, t);
  }

  lemma WakeReaderAgrees(s: Sched, q: Q.Queue, y: Q.Queue, r: nat, w: nat)
    requires Agree(s, q.readers, q.writers, q.phase, q.prio, r, w) && q.readers != []
    requires q.readers[0] < |q.phase| && q.phase[q.readers[0]].Reading?
    requires y.writers == q.writers && y.readers == q.readers[1..] && y.prio == q.prio
    requires y.phase == q.phase[q.readers[0] := Q.ReadWoken]
    requires Q.ListsOk(y.readers, y.writers, y.phase)
    ensures Agree(Wake(s, q.readers[0]), y.readers, y.writers, y.phase, y.prio, r, w)
  {
    hide ListsShared, SchedOk, Q.ListsOk, Wake, Without, OtherWaitLists;
    var t := q.readers[0];
    SharedList(s, q, r, w, true);
    MemberWaits(s, r, t);
    WakeEffect(s, t);
    WithoutHead(q.readers);
    SharedAfter(s, Wake(s, t), q, y, r, w, true);
    hide Q.Waiters;
    AgreeAfter(s, Wake(s, t), q, y, r, w, t);
  }

  // The running task blocks in the read list (read) or the write list, in phase p.
  lemma BlockAgrees(s: Sched, q: Q.Queue, y: Q.Queue, r: nat, w: nat, read: bool, k: nat, p: Q.Phase)
    requires Agree(s, q.readers, q.writers, q.phase, q.prio, r, w)
    requires s.tcb[s.run].status.ready && !s.tcb[s.run].status.timeout
    requires (if read then p.Reading? else p.Writing?) && k <= |Q.Waiters(q, read)|
    requires Q.Waiters(y, !read) == Q.Waiters(q, !read) && y.prio == q.prio && y.phase == q.phase[s.run := p]
    requires Q.Waiters(y, read) == Q.Waiters(q, read)[..k] + [s.run] + Q.Waiters(q, read)[k..]
    requires Q.ListsOk(y.readers, y.writers, y.phase)
    ensures PRIORITYNUM + (if read then r else w) < |s.lists|
    ensures k <= |s.lists[PRIORITYNUM + (if read then r else w)]|
    ensures Agree(Block(s, if read then r else w, k, true, p.timed), y.readers, y.writers, y.phase, y.prio, r, w)
  {
    hide ListsShared, TcbsOk, PlacesOk, WheelOk, ReadyOk, Q.ListsOk, Block, OtherWaitLists;
    var v := if read then r else w;
    SharedList(s, q, r, w, read);
    BlockEffect(s, v, k, true, p.timed);
    SharedAfter(s, Block(s, v, k, true, p.timed), q, y, r, w, read);
    hide Q.Waiters, SchedOk;
    AgreeAfter(s, Block(s, v, k, true, p.timed), q, y, r, w, s.run);
  }

  // A waiting task times out.
  lemma TimeUpAgrees(s: Sched, q: Q.Queue, r: nat, w: nat, t: nat)
    requires Agree(s, q.readers, q.writers, q.phase, q.prio, r, w) && t in s.wheel && t < |q.phase|
    requires (q.phase[t].Reading? || q.phase[t].Writing?)
    requires var y := Q.Expire(q, t); Q.ListsOk(y.readers, y.writers, y.phase)
    ensures q.phase[t].timed
    ensures var y := Q.Expire(q, t); Agree(Expire(s, t), y.readers, y.writers, y.phase, y.prio, r, w)
  {
    hide ListsShared, SchedOk, Q.ListsOk, Expire, Without, OtherWaitLists, BitsFor, Runnable;
    var read := q.phase[t].Reading?;
    var v, y := if read then r else w, Q.Expire(q, t);
    WaiterListed(q, t);
    SharedList(s, q, r, w, read);
    MemberWaits(s, v, t);
    ExpireEffect(s, t);
    OnWheelBits(s, t);
    TimeUpBits(q.phase[t], s.tcb[t].status);
    SharedAfter(s, Expire(s, t), q, y, r, w, read);
    hide Q.Waiters, Q.Expire, StatusOk, OnWheel, BitsOk, PriosOk;
    TimeUpPhases(q, t);
    AgreeAfter(s, Expire(s, t), q, y, r, w, t);
  }

  lemma TimeUpBits(p: Q.Phase, c: Status)
    requires StatusOk(c) && OnWheel(c) && BitsFor(p, c) && (p.Reading? || p.Writing?)
    ensures p.timed
    ensures BitsFor(if p.Reading? then Q.ReadExpired else Q.WriteExpired,
                    c.(pend := false, pendQueue := false, ready := !c.suspend))
  {
  }

  lemma TimeUpPhases(q: Q.Queue, t: nat)
    requires t < |q.phase| && (q.phase[t].Reading? || q.phase[t].Writing?)
    ensures var y := Q.Expire(q, t);
            && |y.phase| == |q.phase| && y.prio == q.prio
            && (forall u :: 0 <= u < |q.phase| && u != t ==> y.phase[u] == q.phase[u])
            && y.phase[t] == if q.phase[t].Reading? then Q.ReadExpired else Q.WriteExpired
  {
  }

  lemma WaiterListed(q: Q.Queue, t: nat)
    requires Q.ListsOk(q.readers, q.writers, q.phase) && t < |q.phase|
    ensures q.phase[t].Reading? ==> t in q.readers
    ensures q.phase[t].Writing? ==> t in q.writers
  {
  }

  // A task that is not waiting for the queue waits elsewhere, if at all.
  lemma OutsideElsewhere(s: Sched, q: Q.Queue, r: nat, w: nat, t: nat)
    requires Agree(s, q.readers, q.writers, q.phase, q.prio, r, w) && t < |s.tcb|
    requires !q.phase[t].Reading? && !q.phase[t].Writing? && SchedModel.Waits(s.tcb[t].status)
    ensures s.tcb[t].target != r && s.tcb[t].target != w
  {
    assert t !in s.lists[PRIORITYNUM + r] && t !in s.lists[PRIORITYNUM + w];
    assert Place(s.tcb[t]) == PRIORITYNUM + s.tcb[t].target;
    hide OldestFirst, Distinct, WheelOk;
  }

  // One task changes and the two lists of the queue do not, others may.
  lemma AgreeBeside(s: Sched, z: Sched, q: Q.Queue, r: nat, w: nat, t: nat, v: nat)
    requires Agree(s, q.readers, q.writers, q.phase, q.prio, r, w) && t < |s.tcb| && v != r && v != w
    requires SchedOk(z) && OnlyTask(s, z, t) && OtherWaitLists(s, z, v) && BitsFor(q.phase[t], z.tcb[t].status)
    requires z.tcb[t].prio == s.tcb[t].prio
    ensures Agree(z, q.readers, q.writers, q.phase, q.prio, r, w)
  {
    hide SchedOk, Q.ListsOk, BitsFor;
    AgreeAfter(s, z, q, q, r, w, t);
  }

  // ---- Steps -----------------------------------------------------------------------------------

  datatype Step =
    | ReadStep(c: Q.Call) | WriteStep(c: Q.Call, m: nat) | RunStep | TimeUpStep(t: nat) | DeleteStep(mail: bool)
    | SuspendStep(t: nat, idle: nat) | ResumeStep(t: nat) | YieldStep
    | PriStep(t: nat, p: nat, idle: nat) | LendStep(t: nat, p: nat)
    | DelayStep(ticks: nat, inInt: bool) | BlockStep(v: nat, i: nat, queue: bool, timed: bool) | WakeStep(t: nat)
    | ReadTimeoutStep | CreateStep(t: nat, p: nat) | LockStep | UnlockStep

  predicate IsWoken(p: Q.Phase) { p.ReadWoken? || p.WriteWoken? }

  predicate IsExpired(p: Q.Phase) { p.ReadExpired? || p.WriteExpired? }

  // The running task can make a call that may block.
  ghost predicate MayCall(k: Kernel)
    requires k.s.run < |k.s.tcb| == |k.q.phase|
  {
    k.s.tcb[k.s.run].status.ready && !k.s.tcb[k.s.run].status.timeout && k.q.phase[k.s.run] == Q.Outside
  }

  ghost predicate CallerOk(k: Kernel, c: Q.Call)
    requires k.s.run < |k.s.tcb| == |k.q.phase|
  {
    Q.CallOk(k.q, c) && (!c.inInterrupt ==> c.task == k.s.run && MayCall(k)) && (c.locked <==> k.s.lock != 0)
  }

  ghost predicate Enabled(k: Kernel, e: Step)
    requires KernelOk(k)
  {
    var (s, q, run) := (k.s, k.q, k.s.run);
    match e
    case ReadStep(c) => CallerOk(k, c)
    case WriteStep(c, _) => CallerOk(k, c)
    case RunStep => s.tcb[run].status.ready && (IsWoken(q.phase[run]) || IsExpired(q.phase[run]))
    case TimeUpStep(t) => t in s.wheel && t < |s.tcb|
    case DeleteStep(_) => true
    case SuspendStep(t, _) => t < |s.tcb|
    case ResumeStep(t) => t < |s.tcb|
    case PriStep(t, _, _) => t < |s.tcb|
    case LendStep(t, p) => t < |s.tcb| && p < PRIORITYNUM
    case YieldStep => s.tcb[run].status.ready
    case DelayStep(_, _) => MayCall(k)
    case BlockStep(v, i, _, _) =>
      MayCall(k) && v != k.r && v != k.w && PRIORITYNUM + v < |s.lists| && i <= |s.lists[PRIORITYNUM + v]|
    case WakeStep(t) => t < |s.tcb| && SchedModel.Waits(s.tcb[t].status) && q.phase[t] == Q.Outside
    case ReadTimeoutStep => s.tcb[run].status.ready && q.phase[run] == Q.Outside
    case CreateStep(t, _) => t < |s.tcb| && s.tcb[t].status.unused && q.phase[t] == Q.Outside
    case LockStep => true
    case UnlockStep => true
  }

  // A read that does not block wakes a writer if it delivered a message; the scheduler's part.
  ghost function ReadSched(k: Kernel, c: Q.Call): Sched
    requires KernelOk(k) && CallerOk(k, c)
  {
    var (q, o) := (k.q, Q.ReadEnter(k.q, c).1);
    HeadIsTask(k.s, q, k.r, k.w);
    Q.MembersBelow(q.readers, |q.prio|);
    if o == Q.Blocked then
      BlockedCalls(k, c);
      Block(k.s, k.r, Q.PendPlace(q.readers, q.prio, q.prio[c.task]), true, c.timeout != Timeouts.LOS_WAIT_FOREVER)
    else Woke(k.s, o == Q.Done(Q.Ok), q.writers)
  }

  ghost function WriteSched(k: Kernel, c: Q.Call, m: nat): Sched
    requires KernelOk(k) && CallerOk(k, c)
  {
    var (q, o) := (k.q, Q.WriteEnter(k.q, c, m).1);
    HeadIsTask(k.s, q, k.r, k.w);
    Q.MembersBelow(q.writers, |q.prio|);
    if o == Q.Blocked then
      BlockedCalls(k, c);
      Block(k.s, k.w, Q.PendPlace(q.writers, q.prio, q.prio[c.task]), true, c.timeout != Timeouts.LOS_WAIT_FOREVER)
    else Woke(k.s, o == Q.Done(Q.Ok), q.readers)
  }

  // Only the running task blocks.
  lemma BlockedCalls(k: Kernel, c: Q.Call)
    requires KernelOk(k) && CallerOk(k, c)
    ensures Q.ReadEnter(k.q, c).1 == Q.Blocked ==> !c.inInterrupt && c.task == k.s.run
    ensures forall m: nat :: Q.WriteEnter(k.q, c, m).1 == Q.Blocked ==> !c.inInterrupt && c.task == k.s.run
    ensures PRIORITYNUM + k.r < |k.s.lists| && k.s.lists[PRIORITYNUM + k.r] == k.q.readers
    ensures PRIORITYNUM + k.w < |k.s.lists| && k.s.lists[PRIORITYNUM + k.w] == k.q.writers
  {
    hide SchedOk, Q.RingOk, Q.InFlight, Q.ListsOk, Q.Take, Q.Put, Q.Pended;
  }

  ghost function Do(k: Kernel, e: Step): Kernel
    requires KernelOk(k) && Enabled(k, e)
  {
    var (s, q, run) := (k.s, k.q, k.s.run);
    match e
    case ReadStep(c) => k.(s := ReadSched(k, c), q := Q.ReadEnter(q, c).0)
    case WriteStep(c, m) => k.(s := WriteSched(k, c, m), q := Q.WriteEnter(q, c, m).0)
    case RunStep =>
      HeadIsTask(s, q, k.r, k.w);
      var read := q.phase[run].ReadWoken? || q.phase[run].ReadExpired?;
      var y := if read then Q.ReadResume(q, run).0 else Q.WriteResume(q, run).0;
      k.(s := if IsExpired(q.phase[run]) then ReadTimeout(s) else Woke(s, true, Q.Waiters(q, !read)), q := y)
    case TimeUpStep(t) =>
      k.(s := Expire(s, t), q := if q.phase[t].Reading? || q.phase[t].Writing? then Q.Expire(q, t) else q)
    case DeleteStep(mail) => k.(q := Q.DeleteQueue(q, mail).0)
    case SuspendStep(t, idle) => k.(s := Suspend(s, t, idle).0)
    case ResumeStep(t) => k.(s := Resume(s, t).0)
    case PriStep(t, p, idle) =>
      var (z, code) := PriSet(s, t, p, idle);
      k.(s := z, q := if code == SchedModel.Ok then q.(prio := q.prio[t := p]) else q)
    case LendStep(t, p) => k.(s := PriModify(s, t, p), q := q.(prio := q.prio[t := p]))
    case YieldStep => k.(s := Yield(s).0)
    case DelayStep(ticks, inInt) => k.(s := Delay(s, ticks, inInt).0)
    case BlockStep(v, i, queue, timed) => k.(s := Block(s, v, i, queue, timed))
    case WakeStep(t) => k.(s := Wake(s, t))
    case ReadTimeoutStep => k.(s := ReadTimeout(s))
    case CreateStep(t, p) =>
      k.(s := Create(s, t, p).0, q := if p <= LOWEST then q.(prio := q.prio[t := p]) else q)
    case LockStep => k.(s := Lock(s))
    case UnlockStep => k.(s := Unlock(s))
  }

  // ---- Every step keeps the agreement ------------------------------------------------------------

  // What taking or storing a message means for the tasks: the head of the other list is woken.
  ghost predicate HeadWoken(q: Q.Queue, y: Q.Queue, writer: bool) {
    && y.prio == q.prio
    && (if Q.Waiters(q, !writer) == [] then y.readers == q.readers && y.writers == q.writers && y.phase == q.phase
        else if writer then
          && q.writers[0] < |q.phase| && q.phase[q.writers[0]].Writing?
          && y.readers == q.readers && y.writers == q.writers[1..]
          && y.phase == q.phase[q.writers[0] := Q.WriteWoken(q.phase[q.writers[0]].msg)]
        else
          && q.readers[0] < |q.phase| && q.phase[q.readers[0]].Reading?
          && y.writers == q.writers && y.readers == q.readers[1..]
          && y.phase == q.phase[q.readers[0] := Q.ReadWoken])
  }

  lemma WokeAgrees(s: Sched, q: Q.Queue, y: Q.Queue, r: nat, w: nat, writer: bool)
    requires Agree(s, q.readers, q.writers, q.phase, q.prio, r, w) && HeadWoken(q, y, writer)
    requires Q.ListsOk(y.readers, y.writers, y.phase)
    ensures var L := Q.Waiters(q, !writer);
            (L != [] ==> L[0] < |s.tcb|) && Agree(Woke(s, true, L), y.readers, y.writers, y.phase, y.prio, r, w)
  {
    HeadIsTask(s, q, r, w);
    hide SchedOk, Q.ListsOk, BitsOk, PriosOk, ListsShared, Wake;
    if Q.Waiters(q, !writer) != [] {
      if writer {
        WakeWriterAgrees(s, q, y, r, w);
      } else {
        WakeReaderAgrees(s, q, y, r, w);
      }
    }
  }

  // A call of LOS_QueueRead that goes through takes a message: for the tasks, HeadWoken.
  lemma ReadEnterTasks(k: Kernel, c: Q.Call)
    requires KernelOk(k) && CallerOk(k, c)
    ensures var (y, o) := Q.ReadEnter(k.q, c);
            && (o == Q.Done(Q.Ok) ==> HeadWoken(k.q, y, true))
            && (o != Q.Done(Q.Ok) && o != Q.Blocked ==> y == k.q)
            && (o == Q.Blocked ==>
                  Q.Below(k.q.readers, |k.q.prio|) &&
                  var i := Q.PendPlace(k.q.readers, k.q.prio, k.q.prio[c.task]);
                  && y.readers == k.q.readers[..i] + [c.task] + k.q.readers[i..] && y.writers == k.q.writers
                  && y.prio == k.q.prio
                  && y.phase == k.q.phase[c.task := Q.Reading(c.timeout != Timeouts.LOS_WAIT_FOREVER)])
  {
    HeadIsTask(k.s, k.q, k.r, k.w);
    Q.MembersBelow(k.q.readers, |k.q.prio|);
    hide SchedOk, Q.RingOk, Q.InFlight, Q.ListsOk, Agree, Q.Below;
  }

  lemma WriteEnterTasks(k: Kernel, c: Q.Call, m: nat)
    requires KernelOk(k) && CallerOk(k, c)
    ensures var (y, o) := Q.WriteEnter(k.q, c, m);
            && (o == Q.Done(Q.Ok) ==> HeadWoken(k.q, y, false))
            && (o != Q.Done(Q.Ok) && o != Q.Blocked ==> y == k.q)
            && (o == Q.Blocked ==>
                  Q.Below(k.q.writers, |k.q.prio|) &&
                  var i := Q.PendPlace(k.q.writers, k.q.prio, k.q.prio[c.task]);
                  && y.writers == k.q.writers[..i] + [c.task] + k.q.writers[i..] && y.readers == k.q.readers
                  && y.prio == k.q.prio
                  && y.phase == k.q.phase[c.task := Q.Writing(c.timeout != Timeouts.LOS_WAIT_FOREVER, m)])
  {
    HeadIsTask(k.s, k.q, k.r, k.w);
    Q.MembersBelow(k.q.writers, |k.q.prio|);
    hide SchedOk, Q.RingOk, Q.InFlight, Q.ListsOk, Agree, Q.Below;
  }

  lemma QueueLists(q: Q.Queue)
    requires Q.QueueOk(q)
    ensures Q.ListsOk(q.readers, q.writers, q.phase)
  {
  }

  lemma ReadOk(k: Kernel, c: Q.Call)
    requires KernelOk(k) && CallerOk(k, c)
    ensures KernelOk(k.(s := ReadSched(k, c), q := Q.ReadEnter(k.q, c).0))
  {
    var (y, o) := Q.ReadEnter(k.q, c);
    Q.ReadEnterOk(k.q, c);
    QueueLists(y);
    BlockedCalls(k, c);
    ReadEnterTasks(k, c);
    hide Q.QueueOk, Q.ReadEnter, Q.ListsOk, SchedOk, BitsOk, PriosOk, ListsShared, Block, Q.PendPlace, Q.Below;
    if o == Q.Blocked {
      var i := Q.PendPlace(k.q.readers, k.q.prio, k.q.prio[c.task]);
      BlockAgrees(k.s, k.q, y, k.r, k.w, true, i, Q.Reading(c.timeout != Timeouts.LOS_WAIT_FOREVER));
    } else if o == Q.Done(Q.Ok) {
      hide HeadWoken;
      WokeAgrees(k.s, k.q, y, k.r, k.w, true);
    }
  }

  lemma WriteOk(k: Kernel, c: Q.Call, m: nat)
    requires KernelOk(k) && CallerOk(k, c)
    ensures KernelOk(k.(s := WriteSched(k, c, m), q := Q.WriteEnter(k.q, c, m).0))
  {
    var (y, o) := Q.WriteEnter(k.q, c, m);
    Q.WriteEnterOk(k.q, c, m);
    QueueLists(y);
    BlockedCalls(k, c);
    WriteEnterTasks(k, c, m);
    hide Q.QueueOk, Q.WriteEnter, Q.ListsOk, SchedOk, BitsOk, PriosOk, ListsShared, Block, Q.PendPlace, Q.Below;
    if o == Q.Blocked {
      var i := Q.PendPlace(k.q.writers, k.q.prio, k.q.prio[c.task]);
      BlockAgrees(k.s, k.q, y, k.r, k.w, false, i, Q.Writing(c.timeout != Timeouts.LOS_WAIT_FOREVER, m));
    } else if o == Q.Done(Q.Ok) {
      hide HeadWoken;
      WokeAgrees(k.s, k.q, y, k.r, k.w, false);
    }
  }

  // A task whose call ends: of its bits the queue says no more.
  lemma PhaseOutside(s: Sched, q: Q.Queue, y: Q.Queue, r: nat, w: nat, t: nat)
    requires Agree(s, q.readers, q.writers, q.phase, q.prio, r, w) && t < |s.tcb|
    requires y.readers == q.readers && y.writers == q.writers && y.prio == q.prio
    requires y.phase == q.phase[t := Q.Outside] && Q.ListsOk(y.readers, y.writers, y.phase)
    ensures Agree(s, y.readers, y.writers, y.phase, y.prio, r, w)
  {
    hide SchedOk, Q.ListsOk;
    AgreeAfter(s, s, q, y, r, w, t);
  }

  // The second section of a read or write by the running task.
  lemma RunOnce(k: Kernel)
    requires KernelOk(k) && Enabled(k, RunStep)
    ensures KernelOk(Do(k, RunStep))
  {
    var (s, q, t) := (k.s, k.q, k.s.run);
    var read := q.phase[t].ReadWoken? || q.phase[t].ReadExpired?;
    var y := if read then Q.ReadResume(q, t).0 else Q.WriteResume(q, t).0;
    var out := q.(phase := q.phase[t := Q.Outside]);
    if read {
      Q.ReadResumeOk(q, t);
    } else {
      Q.WriteResumeOk(q, t);
    }
    QueueLists(y);
    HeadIsTask(s, q, k.r, k.w);
    RunTasks(k);
    OutLists(q, t);
    hide Q.QueueOk, Q.ReadResume, Q.WriteResume, Q.ListsOk, SchedOk, BitsOk, PriosOk, ListsShared;
    PhaseOutside(s, q, out, k.r, k.w, t);
    if IsExpired(q.phase[t]) {
      ReadTimeoutEffect(s);
      AgreeAside(s, ReadTimeout(s), out, k.r, k.w, t);
      PrioIs(s, q.prio, t);
    } else {
      hide HeadWoken, Woke;
      WokeAgrees(s, out, y, k.r, k.w, read);
    }
  }

  // A task that is not blocked leaves no list by going outside.
  lemma OutLists(q: Q.Queue, t: nat)
    requires Q.QueueOk(q) && t < |q.phase| && !q.phase[t].Reading? && !q.phase[t].Writing?
    ensures Q.ListsOk(q.readers, q.writers, q.phase[t := Q.Outside])
  {
    hide Q.RingOk, Q.InFlight, Distinct;
  }

  lemma RunTasks(k: Kernel)
    requires KernelOk(k) && Enabled(k, RunStep)
    ensures var (q, t) := (k.q, k.s.run);
            var read := q.phase[t].ReadWoken? || q.phase[t].ReadExpired?;
            var y := if read then Q.ReadResume(q, t).0 else Q.WriteResume(q, t).0;
            var out := q.(phase := q.phase[t := Q.Outside]);
            if IsExpired(q.phase[t]) then y == out else HeadWoken(out, y, read)
  {
    HeadIsTask(k.s, k.q, k.r, k.w);
    hide SchedOk, Q.RingOk, Q.InFlight, Q.ListsOk, Agree;
  }

  lemma TimeUpOk(k: Kernel, t: nat)
    requires KernelOk(k) && Enabled(k, TimeUpStep(t))
    ensures KernelOk(Do(k, TimeUpStep(t)))
  {
    if k.q.phase[t].Reading? || k.q.phase[t].Writing? {
      Q.ExpireOk(k.q, t);
      QueueLists(Q.Expire(k.q, t));
      hide Q.QueueOk, Q.Expire, Expire, Q.ListsOk, SchedOk, BitsOk, PriosOk, ListsShared;
      TimeUpAgrees(k.s, k.q, k.r, k.w, t);
    } else {
      TimeUpElsewhere(k.s, k.q, k.r, k.w, t);
    }
  }

  lemma TimeUpElsewhere(s: Sched, q: Q.Queue, r: nat, w: nat, t: nat)
    requires Agree(s, q.readers, q.writers, q.phase, q.prio, r, w) && t in s.wheel && t < |q.phase|
    requires !q.phase[t].Reading? && !q.phase[t].Writing?
    ensures Agree(Expire(s, t), q.readers, q.writers, q.phase, q.prio, r, w)
  {
    OnWheelBits(s, t);
    ExpireEffect(s, t);
    if SchedModel.Waits(s.tcb[t].status) {
      OutsideElsewhere(s, q, r, w, t);
      hide SchedOk, Expire, ListsShared, Q.ListsOk;
      AgreeBeside(s, Expire(s, t), q, r, w, t, s.tcb[t].target);
    } else {
      hide SchedOk, Expire, ListsShared, Q.ListsOk;
      AgreeAside(s, Expire(s, t), q, r, w, t);
      PrioIs(s, q.prio, t);
    }
  }

  // A task call that changes one task and no wait list.
  lemma TaskCallOk(k: Kernel, e: Step)
    requires KernelOk(k) && Enabled(k, e)
    requires e.SuspendStep? || e.ResumeStep? || e.YieldStep? || e.DelayStep? || e.ReadTimeoutStep?
    ensures KernelOk(Do(k, e))
  {
    var (s, q, z) := (k.s, k.q, Do(k, e).s);
    var t := if e.SuspendStep? || e.ResumeStep? then e.t else s.run;
    BitsAt(s, q, t);
    match e {
      case SuspendStep(_, idle) => SuspendEffect(s, t, idle);
      case ResumeStep(_) => ResumeEffect(s, t);
      case YieldStep => YieldEffect(s);
      case DelayStep(ticks, inInt) => DelayEffect(s, ticks, inInt);
      case ReadTimeoutStep => ReadTimeoutEffect(s);
    }
    StatusIsOk(s, t);
    PrioIs(s, q.prio, t);
    hide SchedOk, Suspend, Resume, Yield, Delay, ReadTimeout, Q.QueueOk, Q.ListsOk, ListsShared, PriosOk, BitsOk;
    AgreeAside(s, z, q, k.r, k.w, t);
  }

  lemma BitsAt(s: Sched, q: Q.Queue, t: nat)
    requires BitsOk(s.tcb, q.phase) && t < |s.tcb|
    ensures BitsFor(q.phase[t], s.tcb[t].status)
  {
  }

  lemma NewTaskOk(k: Kernel, t: nat, p: nat)
    requires KernelOk(k) && Enabled(k, CreateStep(t, p))
    ensures KernelOk(Do(k, CreateStep(t, p)))
  {
    hide SchedOk, Create, Q.QueueOk, Q.ListsOk, ListsShared, BitsOk;
    if p <= LOWEST {
      Q.PrioSetOk(k.q, t, p);
      CreateEffect(k.s, t, p);
      AgreeAside(k.s, Create(k.s, t, p).0, k.q, k.r, k.w, t);
    } else {
      CreateRefused(k.s, t, p);
    }
  }

  lemma CreateRefused(s: Sched, t: nat, p: nat)
    requires SchedOk(s) && t < |s.tcb| && p > LOWEST
    ensures Create(s, t, p).0 == s
  {
  }

  lemma LockOk(k: Kernel, e: Step)
    requires KernelOk(k) && (e.LockStep? || e.UnlockStep?)
    ensures KernelOk(Do(k, e))
  {
    UnlockOk(k.s);
    assert Unlock(k.s).tcb == k.s.tcb && Unlock(k.s).lists == k.s.lists;
    hide SchedOk, Q.QueueOk, Q.ListsOk, ListsShared, BitsOk, PriosOk, Unlock;
  }

  lemma PriOk(k: Kernel, e: Step)
    requires KernelOk(k) && Enabled(k, e) && (e.PriStep? || e.LendStep?)
    ensures KernelOk(Do(k, e))
  {
    hide SchedOk, PriSet, PriModify, Q.QueueOk, Q.ListsOk, ListsShared, BitsOk, BitsFor;
    var (s, q, t) := (k.s, k.q, e.t);
    if e.PriStep? {
      PriSetEffect(s, t, e.p, e.idle);
    } else {
      PriModifyEffect(s, t, e.p);
    }
    var z := Do(k, e).s;
    BitsAt(s, q, t);
    Q.PrioSetOk(q, t, z.tcb[t].prio);
    PrioIs(s, q.prio, t);
    AgreeAside(s, z, q, k.r, k.w, t);
  }

  lemma BesideOk(k: Kernel, e: Step)
    requires KernelOk(k) && Enabled(k, e) && (e.BlockStep? || e.WakeStep?)
    ensures KernelOk(Do(k, e))
  {
    var (s, q) := (k.s, k.q);
    match e {
      case BlockStep(v, i, queue, timed) =>
        BlockEffect(s, v, i, queue, timed);
        hide SchedOk, Block, Q.QueueOk, Q.ListsOk, ListsShared, BitsOk;
        AgreeBeside(s, Block(s, v, i, queue, timed), q, k.r, k.w, s.run, v);
      case WakeStep(t) =>
        WakeEffect(s, t);
        OutsideElsewhere(s, q, k.r, k.w, t);
        hide SchedOk, Wake, Q.QueueOk, Q.ListsOk, ListsShared, BitsOk;
        AgreeBeside(s, Wake(s, t), q, k.r, k.w, t, s.tcb[t].target);
    }
  }

  lemma DoOk(k: Kernel, e: Step)
    requires KernelOk(k) && Enabled(k, e)
    ensures KernelOk(Do(k, e)) && Do(k, e).r == k.r && Do(k, e).w == k.w
  {
    hide Q.QueueOk, Agree, Q.ReadEnter, Q.WriteEnter, ReadSched, WriteSched;
    match e
    case ReadStep(c) =>
      ReadOk(k, c);
    case WriteStep(c, m) =>
      WriteOk(k, c, m);
    case RunStep =>
      RunOnce(k);
    case TimeUpStep(t) =>
      TimeUpOk(k, t);
    case DeleteStep(mail) =>
      Q.DeleteQueueIff(k.q, mail);
    case PriStep(_, _, _) =>
      PriOk(k, e);
    case LendStep(_, _) =>
      PriOk(k, e);
    case BlockStep(_, _, _, _) =>
      BesideOk(k, e);
    case WakeStep(_) =>
      BesideOk(k, e);
    case CreateStep(t, p) =>
      NewTaskOk(k, t, p);
    case LockStep =>
      LockOk(k, e);
    case UnlockStep =>
      LockOk(k, e);
    case _ =>
      TaskCallOk(k, e);
  }

  // ---- Runs ---------------------------------------------------------------------------------------

  ghost predicate StepOf(k: Kernel, e: Step, z: Kernel) {
    KernelOk(k) ==> Enabled(k, e) && z == Do(k, e)
  }

  ghost predicate IsRun(run: seq<Kernel>, steps: seq<Step>) {
    && |run| == |steps| + 1 && KernelOk(run[0])
    && forall i :: 0 <= i < |steps| ==> StepOf(run[i], steps[i], run[i + 1])
  }

  lemma {:induction false} RunOk(run: seq<Kernel>, steps: seq<Step>, i: nat)
    requires IsRun(run, steps) && i < |run|
    ensures KernelOk(run[i]) && run[i].r == run[0].r && run[i].w == run[0].w
  {
    hide KernelOk, Do, Enabled;
    if i > 0 {
      RunOk(run, steps, i - 1);
      assert StepOf(run[i - 1], steps[i - 1], run[i]);
      DoOk(run[i - 1], steps[i - 1]);
    }
  }

  // Task t is where its phase says: a reader or writer has PEND_QUEUE, is in the list of its object
  // and on the wheel exactly when it waits with a timeout; a task that was woken or timed out is in
  // the ready list of its priority, or suspended.
  ghost predicate WherePhaseSays(s: Sched, p: Q.Phase, t: nat, r: nat, w: nat) {
    && t < |s.tcb| && |s.lists| > PRIORITYNUM + r && |s.lists| > PRIORITYNUM + w && s.tcb[t].prio < PRIORITYNUM
    && (p.Reading? <==> t in s.lists[PRIORITYNUM + r])
    && (p.Writing? <==> t in s.lists[PRIORITYNUM + w])
    && (p.Reading? || p.Writing? ==> s.tcb[t].status.pendQueue && (t in s.wheel <==> p.timed))
    && (IsWoken(p) || IsExpired(p) ==> t in s.lists[s.tcb[t].prio] || s.tcb[t].status.suspend)
    && (IsExpired(p) ==> s.tcb[t].status.timeout)
  }

  // Over every run the queue and the scheduler agree on where every task is.
  lemma PhasesArePlaces(run: seq<Kernel>, steps: seq<Step>, i: nat, t: nat)
    requires IsRun(run, steps) && i < |run| && t < |run[i].q.phase|
    ensures WherePhaseSays(run[i].s, run[i].q.phase[t], t, run[0].r, run[0].w)
  {
    RunOk(run, steps, i);
    OkIsWhere(run[i], t);
  }

  lemma OkIsWhere(k: Kernel, t: nat)
    requires KernelOk(k) && t < |k.q.phase|
    ensures WherePhaseSays(k.s, k.q.phase[t], t, k.r, k.w)
  {
    StatusIsOk(k.s, t);
    BitsAt(k.s, k.q, t);
    assert Place(k.s.tcb[t]) == k.s.tcb[t].prio ==> t in k.s.lists[k.s.tcb[t].prio];
    hide ReadyOk, Q.RingOk, Q.InFlight, Distinct, TcbsOk;
  }

  // Over every run: while a reader is blocked and a message is stored, or a writer is blocked and a
  // slot is free, a task that was promised it is ready to run, or suspended.
  lemma PromisedTaskCanRun(run: seq<Kernel>, steps: seq<Step>, i: nat, t: nat) returns (u: nat)
    requires IsRun(run, steps) && i < |run| && t < |run[i].q.phase|
    requires var q := run[i].q;
             || (q.phase[t].Reading? && |q.delivered| < |q.written|)
             || (q.phase[t].Writing? && |q.written| - |q.delivered| < |q.ring|)
    ensures var (s, q) := (run[i].s, run[i].q);
            && u < |q.phase| && u < |s.tcb| && s.tcb[u].prio < |s.lists|
            && (if q.phase[t].Reading? then q.phase[u].ReadWoken? else q.phase[u].WriteWoken?)
            && (u in s.lists[s.tcb[u].prio] || s.tcb[u].status.suspend)
  {
    RunOk(run, steps, i);
    var q := run[i].q;
    Q.OkNoLostWakeUp(q);
    if q.phase[t].Reading? {
      u :| 0 <= u < |q.phase| && q.phase[u].ReadWoken?;
    } else {
      u :| 0 <= u < |q.phase| && q.phase[u].WriteWoken?;
    }
    hide Agree, Q.QueueOk;
    OkIsWhere(run[i], u);
  }

  // A fresh queue agrees with a scheduler whose two wait lists are empty.
  lemma FreshKernel(s: Sched, size: nat, len: nat, r: nat, w: nat)
    requires SchedOk(s) && len > 0 && r != w && PRIORITYNUM + r < |s.lists| && PRIORITYNUM + w < |s.lists|
    requires s.lists[PRIORITYNUM + r] == [] && s.lists[PRIORITYNUM + w] == []
    ensures KernelOk(Kernel(s, Q.Created(size, len, seq(|s.tcb|, t requires 0 <= t < |s.tcb| => s.tcb[t].prio)), r, w))
  {
    Q.CreatedOk(size, len, seq(|s.tcb|, t requires 0 <= t < |s.tcb| => s.tcb[t].prio));
    hide SchedOk, Q.RingOk, Q.InFlight;
  }
}

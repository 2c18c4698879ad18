// Message queues as a protocol: every interrupt-locked section is one atomic step. A woken task
// has been promised a message or a free slot but has not run yet, so the two counters alone do
// not say how full the queue is.

module QueueModel {
  import opened Arith
  import opened Lists
  import opened Waits

  // Where a task stands with respect to the queue. Expired: its wait timed out, but it has not
  // run since to notice.
  datatype Phase =
    | Outside
    | Reading(timed: bool) | ReadWoken | ReadExpired
    | Writing(timed: bool, msg: nat) | WriteWoken(msg: nat) | WriteExpired

  // QUEUE_CB_S, with what each task is doing and the history of the queue.
  datatype Queue = Queue(
    inUse: bool, size: nat, ring: seq<nat>, head: nat, tail: nat, readable: nat, writable: nat,
    readers: seq<nat>, writers: seq<nat>, phase: seq<Phase>, prio: seq<nat>,
    written: seq<nat>, delivered: seq<nat>)

  datatype Code =
    | Ok | PtrNull | SizeIsZero | InInterrupt | NotCreate | SizeTooBig | IsEmpty | IsFull | PendInLock | Timeout
    | InTaskUse | InTaskWrite | ParaIsZero | CbUnavailable | NoMemory

  // A section either finishes its call or leaves the caller blocked.
  datatype Outcome = Blocked | Done(code: Code)

  // The arguments of a call and the state of the processor when it is made.
  datatype Call = Call(task: nat, ptrNull: bool, size: nat, timeout: nat, inInterrupt: bool, locked: bool)

  // ---- The ring ------------------------------------------------------------------------

  // The i-th slot from head on.
  function Slot(head: nat, i: nat, len: nat): (r: nat)
    requires head < len && i <= len
    ensures r < len
  {
    if head + i < len then head + i else head + i - len
  }

  lemma SlotIsModulo(head: nat, i: nat, len: nat)
    requires head < len && i <= len
    ensures Slot(head, i, len) == (head + i) % len
  {
    if head + i >= len {
      RoundsModulo(head + i - len, 1, len);
    }
  }

  // The counters wrap by comparison.
  function Next(i: nat, len: nat): nat { if i + 1 == len then 0 else i + 1 }

  function Stored(q: Queue): int { |q.written| - |q.delivered| }

  // ---- Woken tasks ------------------------------------------------------------------------

  function Awake(read: bool, p: Phase): nat
  {
    if (if read then p.ReadWoken? else p.WriteWoken?) then 1 else 0
  }

  // How many tasks have been woken and have not run yet.
  function InFlight(read: bool, phase: seq<Phase>): nat
  {
    if phase == [] then 0 else Awake(read, phase[0]) + InFlight(read, phase[1..])
  }

  lemma {:induction false} InFlightUpdate(read: bool, phase: seq<Phase>, t: nat, p: Phase)
    requires t < |phase|
    ensures InFlight(read, phase[t := p]) + Awake(read, phase[t]) == InFlight(read, phase) + Awake(read, p)
  {
    if t > 0 {
      assert phase[t := p][1..] == phase[1..][t - 1 := p];
      InFlightUpdate(read, phase[1..], t - 1, p);
    } else {
      assert phase[t := p][1..] == phase[1..];
    }
  }

  lemma {:induction false} InFlightSome(read: bool, phase: seq<Phase>, t: nat)
    requires t < |phase| && Awake(read, phase[t]) == 1
    ensures InFlight(read, phase) > 0
  {
    if t > 0 {
      InFlightSome(read, phase[1..], t - 1);
    }
  }

  // ---- The invariant ------------------------------------------------------------------------

  // Exactly the tasks blocked in the queue are in its lists.
  ghost predicate ListsOk(readers: seq<nat>, writers: seq<nat>, phase: seq<Phase>) {
    && Distinct(readers) && Distinct(writers)
    && (forall t: nat :: t in readers <==> t < |phase| && phase[t].Reading?)
    && (forall t: nat :: t in writers <==> t < |phase| && phase[t].Writing?)
  }

  // What is stored is what was written and not yet delivered, in order.
  ghost predicate RingOk(ring: seq<nat>, head: nat, tail: nat, written: seq<nat>, delivered: seq<nat>) {
    && head < |ring| && |delivered| <= |written| <= |delivered| + |ring|
    && delivered == written[..|delivered|]
    && tail == Slot(head, |written| - |delivered|, |ring|)
    && forall i: nat {:trigger Slot(head, i, |ring|)} :: i < |written| - |delivered| ==>
         ring[Slot(head, i, |ring|)] == written[|delivered| + i]
  }

  // Messages and free slots are either counted or promised to a woken task.
  ghost predicate CountsOk(q: Queue) {
    && Stored(q) == q.readable + InFlight(true, q.phase)
    && |q.ring| - Stored(q) == q.writable + InFlight(false, q.phase)
    && (q.readers != [] ==> q.readable == 0)
    && (q.writers != [] ==> q.writable == 0)
  }

  ghost predicate QueueOk(q: Queue) {
    && RingOk(q.ring, q.head, q.tail, q.written, q.delivered)
    && ListsOk(q.readers, q.writers, q.phase)
    && CountsOk(q) && |q.prio| == |q.phase|
    && (!q.inUse ==>
          q.readers == [] && q.writers == [] && InFlight(true, q.phase) == 0 && InFlight(false, q.phase) == 0)
  }

  // ---- The sections ------------------------------------------------------------------------

  predicate Below(L: seq<nat>, n: nat) {
    forall i :: 0 <= i < |L| ==> L[i] < n
  }

  lemma MembersBelow(L: seq<nat>, n: nat)
    requires forall x: nat :: x in L ==> x < n
    ensures Below(L, n)
  {
    assert forall i :: 0 <= i < |L| ==> L[i] in L;
  }

  // Where osQueuePend puts a task: before the first waiter of lower priority, a larger number.
  function PendPlace(L: seq<nat>, prio: seq<nat>, p: nat): (k: nat)
    requires Below(L, |prio|)
    ensures k <= |L| && (forall i :: 0 <= i < k ==> prio[L[i]] <= p) && (k < |L| ==> p < prio[L[k]])
  {
    if L == [] || p < prio[L[0]] then 0 else 1 + PendPlace(L[1..], prio, p)
  }

  function Pended(L: seq<nat>, prio: seq<nat>, t: nat): seq<nat>
    requires Below(L, |prio|) && t < |prio|
  {
    var k := PendPlace(L, prio, prio[t]);
    L[..k] + [t] + L[k..]
  }

  // osQueueWakeUp on the list of readers: the longest waiting of the best priority.
  function WakeReader(q: Queue): Queue
    requires q.readers != [] && q.readers[0] < |q.phase|
  {
    q.(readers := q.readers[1..], phase := q.phase[q.readers[0] := ReadWoken])
  }

  function WakeWriter(q: Queue): Queue
    requires q.writers != [] && q.writers[0] < |q.phase| && q.phase[q.writers[0]].Writing?
  {
    q.(writers := q.writers[1..], phase := q.phase[q.writers[0] := WriteWoken(q.phase[q.writers[0]].msg)])
  }

  // Taking the message at the head; the free slot goes to a waiting writer, if any.
  function Take(q: Queue): Queue
    requires q.head < |q.ring|
    requires forall t: nat :: t in q.writers ==> t < |q.phase| && q.phase[t].Writing?
  {
    var taken := q.(head := Next(q.head, |q.ring|), delivered := q.delivered + [q.ring[q.head]]);
    if q.writers != [] then
      assert q.writers[0] in q.writers;
      WakeWriter(taken)
    else taken.(writable := q.writable + 1)
  }

  // Storing a message at the tail; it is promised to a waiting reader, if any.
  function Put(q: Queue, m: nat): Queue
    requires q.tail < |q.ring|
    requires forall t: nat :: t in q.readers ==> t < |q.phase|
  {
    var put := q.(ring := q.ring[q.tail := m], tail := Next(q.tail, |q.ring|), written := q.written + [m]);
    if q.readers != [] then
      assert q.readers[0] in q.readers;
      WakeReader(put)
    else put.(readable := q.readable + 1)
  }

  // The call's task is running, so it waits nowhere; an interrupt may find any task running.
  predicate CallOk(q: Queue, c: Call) {
    c.task < |q.phase| && (!c.inInterrupt ==> q.phase[c.task] == Outside)
  }

  function ReadRefusal(q: Queue, c: Call): Code
  {
    if c.ptrNull then PtrNull
    else if c.size == 0 then SizeIsZero
    else if c.timeout != LOS_NO_WAIT && c.inInterrupt then InInterrupt
    else if !q.inUse then NotCreate
    else if q.readable > 0 then Ok
    else if c.timeout == LOS_NO_WAIT then IsEmpty
    else if c.locked then PendInLock
    else Ok
  }

  // The first section of LOS_QueueRead.
  function ReadEnter(q: Queue, c: Call): (Queue, Outcome)
    requires QueueOk(q) && CallOk(q, c)
  {
    if ReadRefusal(q, c) != Ok then (q, Done(ReadRefusal(q, c)))
    else if q.readable == 0 then
      MembersBelow(q.readers, |q.prio|);
      (q.(readers := Pended(q.readers, q.prio, c.task),
          phase := q.phase[c.task := Reading(c.timeout != LOS_WAIT_FOREVER)]), Blocked)
    else (Take(q.(readable := q.readable - 1)), Done(Ok))
  }

  // The second section, when a task that was blocked runs again.
  function ReadResume(q: Queue, t: nat): (Queue, Outcome)
    requires QueueOk(q) && t < |q.phase| && (q.phase[t].ReadWoken? || q.phase[t].ReadExpired?)
  {
    var out := q.(phase := q.phase[t := Outside]);
    if q.phase[t].ReadExpired? then (out, Done(Timeout)) else (Take(out), Done(Ok))
  }

  function WriteRefusal(q: Queue, c: Call): Code
  {
    if c.ptrNull then PtrNull
    else if c.size == 0 then SizeIsZero
    else if c.timeout != LOS_NO_WAIT && c.inInterrupt then InInterrupt
    else if !q.inUse then NotCreate
    else if c.size > q.size then SizeTooBig
    else if q.writable > 0 then Ok
    else if c.timeout == LOS_NO_WAIT then IsFull
    else if c.locked then PendInLock
    else Ok
  }

  function WriteEnter(q: Queue, c: Call, m: nat): (Queue, Outcome)
    requires QueueOk(q) && CallOk(q, c)
  {
    if WriteRefusal(q, c) != Ok then (q, Done(WriteRefusal(q, c)))
    else if q.writable == 0 then
      MembersBelow(q.writers, |q.prio|);
      (q.(writers := Pended(q.writers, q.prio, c.task),
          phase := q.phase[c.task := Writing(c.timeout != LOS_WAIT_FOREVER, m)]), Blocked)
    else (Put(q.(writable := q.writable - 1), m), Done(Ok))
  }

  function WriteResume(q: Queue, t: nat): (Queue, Outcome)
    requires QueueOk(q) && t < |q.phase| && (q.phase[t].WriteWoken? || q.phase[t].WriteExpired?)
  {
    var out := q.(phase := q.phase[t := Outside]);
    if q.phase[t].WriteExpired? then (out, Done(Timeout)) else (Put(out, q.phase[t].msg), Done(Ok))
  }

  // The tick handler's part: the waiting task leaves its list.
  function Expire(q: Queue, t: nat): Queue
    requires t < |q.phase| && (q.phase[t].Reading? || q.phase[t].Writing?)
  {
    if q.phase[t].Reading? then q.(readers := Without(q.readers, t), phase := q.phase[t := ReadExpired])
    else q.(writers := Without(q.writers, t), phase := q.phase[t := WriteExpired])
  }

  // LOS_QueueDelete; mail says that a task waits for a mail block.
  function DeleteQueue(q: Queue, mail: bool): (Queue, Code)
  {
    if !q.inUse then (q, NotCreate)
    else if q.readers != [] || q.writers != [] || mail then (q, InTaskUse)
    else if q.writable + q.readable != |q.ring| then (q, InTaskWrite)
    else (q.(inUse := false), Ok)
  }

  // ---- What every section keeps ---------------------------------------------------------------

  lemma TakeRing(ring: seq<nat>, head: nat, tail: nat, written: seq<nat>, delivered: seq<nat>)
    requires RingOk(ring, head, tail, written, delivered) && |delivered| < |written|
    ensures ring[head] == written[|delivered|]
    ensures RingOk(ring, Next(head, |ring|), tail, written, delivered + [ring[head]])
  {
    assert Slot(head, 0, |ring|) == head;
    var n := |ring|;
    forall i: nat | i < |written| - |delivered| - 1
      ensures ring[Slot(Next(head, n), i, n)] == written[|delivered| + 1 + i]
    {
      assert Slot(Next(head, n), i, n) == Slot(head, i + 1, n);
    }
  }

  lemma PutRing(ring: seq<nat>, head: nat, tail: nat, written: seq<nat>, delivered: seq<nat>, m: nat)
    requires RingOk(ring, head, tail, written, delivered) && |written| < |delivered| + |ring|
    ensures tail < |ring| && RingOk(ring[tail := m], head, Next(tail, |ring|), written + [m], delivered)
  {
    var n, c := |ring|, |written| - |delivered|;
    forall i: nat | i < c + 1
      ensures ring[tail := m][Slot(head, i, n)] == (written + [m])[|delivered| + i]
    {
      assert i < c ==> Slot(head, i, n) != tail;
    }
  }

  // A message is taken by a task that holds its promise, or one that was counted.
  lemma TakeOk(q: Queue)
    requires RingOk(q.ring, q.head, q.tail, q.written, q.delivered)
    requires ListsOk(q.readers, q.writers, q.phase) && |q.prio| == |q.phase|
    requires Stored(q) == q.readable + 1 + InFlight(true, q.phase)
    requires |q.ring| - Stored(q) == q.writable + InFlight(false, q.phase)
    requires (q.readers != [] ==> q.readable == 0) && (q.writers != [] ==> q.writable == 0) && q.inUse
    ensures QueueOk(Take(q))
    ensures Take(q).written == q.written && Take(q).delivered == q.delivered + [q.written[|q.delivered|]]
  {
    hide RingOk, InFlight, Distinct;
    TakeRing(q.ring, q.head, q.tail, q.written, q.delivered);
    if q.writers != [] {
      var t := q.writers[0];
      assert t in q.writers;
      TailIs(q.writers);
      InFlightUpdate(true, q.phase, t, WriteWoken(q.phase[t].msg));
      InFlightUpdate(false, q.phase, t, WriteWoken(q.phase[t].msg));
    }
  }

  lemma PutOk(q: Queue, m: nat)
    requires RingOk(q.ring, q.head, q.tail, q.written, q.delivered)
    requires ListsOk(q.readers, q.writers, q.phase) && |q.prio| == |q.phase|
    requires Stored(q) == q.readable + InFlight(true, q.phase)
    requires |q.ring| - Stored(q) == q.writable + 1 + InFlight(false, q.phase)
    requires (q.readers != [] ==> q.readable == 0) && (q.writers != [] ==> q.writable == 0) && q.inUse
    ensures q.tail < |q.ring| && QueueOk(Put(q, m))
    ensures Put(q, m).written == q.written + [m] && Put(q, m).delivered == q.delivered
  {
    hide RingOk, InFlight, Distinct;
    PutRing(q.ring, q.head, q.tail, q.written, q.delivered, m);
    if q.readers != [] {
      var t := q.readers[0];
      assert t in q.readers;
      TailIs(q.readers);
      InFlightUpdate(true, q.phase, t, ReadWoken);
      InFlightUpdate(false, q.phase, t, ReadWoken);
    }
  }

  lemma PendedContains(L: seq<nat>, prio: seq<nat>, t: nat)
    requires Below(L, |prio|) && t < |prio| && t !in L && Distinct(L)
    ensures Distinct(Pended(L, prio, t)) && forall x: nat :: x in Pended(L, prio, t) <==> x == t || x in L
  {
    InsertedIs(L, t, PendPlace(L, prio, prio[t]));
    hide PendPlace, Distinct;
  }

  lemma ReadEnterOk(q: Queue, c: Call)
    requires QueueOk(q) && CallOk(q, c)
    ensures QueueOk(ReadEnter(q, c).0)
  {
    hide InFlight, Pended, Take;
    if ReadRefusal(q, c) == Ok {
      if q.readable == 0 {
        hide RingOk, Distinct;
        MembersBelow(q.readers, |q.prio|);
        PendedContains(q.readers, q.prio, c.task);
        InFlightUpdate(true, q.phase, c.task, Reading(c.timeout != LOS_WAIT_FOREVER));
        InFlightUpdate(false, q.phase, c.task, Reading(c.timeout != LOS_WAIT_FOREVER));
      } else {
        hide RingOk, ListsOk;
        TakeOk(q.(readable := q.readable - 1));
      }
    }
  }

  lemma WriteEnterOk(q: Queue, c: Call, m: nat)
    requires QueueOk(q) && CallOk(q, c)
    ensures QueueOk(WriteEnter(q, c, m).0)
  {
    hide InFlight, Pended, Put;
    if WriteRefusal(q, c) == Ok {
      if q.writable == 0 {
        hide RingOk, Distinct;
        MembersBelow(q.writers, |q.prio|);
        PendedContains(q.writers, q.prio, c.task);
        InFlightUpdate(true, q.phase, c.task, Writing(c.timeout != LOS_WAIT_FOREVER, m));
        InFlightUpdate(false, q.phase, c.task, Writing(c.timeout != LOS_WAIT_FOREVER, m));
      } else {
        hide RingOk, ListsOk;
        PutOk(q.(writable := q.writable - 1), m);
      }
    }
  }

  lemma ReadResumeOk(q: Queue, t: nat)
    requires QueueOk(q) && t < |q.phase| && (q.phase[t].ReadWoken? || q.phase[t].ReadExpired?)
    ensures QueueOk(ReadResume(q, t).0)
  {
    hide InFlight, Take, RingOk, Distinct;
    InFlightUpdate(true, q.phase, t, Outside);
    InFlightUpdate(false, q.phase, t, Outside);
    if q.phase[t].ReadWoken? {
      InFlightSome(true, q.phase, t);
      TakeOk(q.(phase := q.phase[t := Outside]));
    }
  }

  lemma WriteResumeOk(q: Queue, t: nat)
    requires QueueOk(q) && t < |q.phase| && (q.phase[t].WriteWoken? || q.phase[t].WriteExpired?)
    ensures QueueOk(WriteResume(q, t).0)
  {
    hide InFlight, Put, RingOk, Distinct;
    InFlightUpdate(true, q.phase, t, Outside);
    InFlightUpdate(false, q.phase, t, Outside);
    if q.phase[t].WriteWoken? {
      InFlightSome(false, q.phase, t);
      PutOk(q.(phase := q.phase[t := Outside]), q.phase[t].msg);
    }
  }

  lemma ExpireOk(q: Queue, t: nat)
    requires QueueOk(q) && t < |q.phase| && (q.phase[t].Reading? || q.phase[t].Writing?)
    ensures QueueOk(Expire(q, t))
  {
    hide InFlight, RingOk, Distinct;
    var p := if q.phase[t].Reading? then ReadExpired else WriteExpired;
    InFlightUpdate(true, q.phase, t, p);
    InFlightUpdate(false, q.phase, t, p);
    if q.phase[t].Reading? {
      WithoutIs(q.readers, t);
    } else {
      WithoutIs(q.writers, t);
    }
  }

  // Deletion succeeds exactly when nobody waits and nobody has been woken without having run.
  lemma DeleteQueueIff(q: Queue, mail: bool)
    requires QueueOk(q)
    ensures QueueOk(DeleteQueue(q, mail).0)
    ensures DeleteQueue(q, mail).1 == Ok <==>
            q.inUse && !mail && q.readers == [] && q.writers == []
            && InFlight(true, q.phase) == 0 && InFlight(false, q.phase) == 0
  {
    hide InFlight, RingOk, ListsOk;
  }

  // ---- Runs ----------------------------------------------------------------------------------

  datatype Step =
    | ReadCall(c: Call) | WriteCall(c: Call, m: nat) | Resume(t: nat) | TimedOut(t: nat)
    | PrioSet(t: nat, p: nat) | DeleteCall(mail: bool)

  // The steps the kernel can take: a woken or expired task runs, only a timed wait expires.
  predicate Enabled(q: Queue, e: Step) {
    match e
    case ReadCall(c) => CallOk(q, c)
    case WriteCall(c, _) => CallOk(q, c)
    case Resume(t) =>
      && t < |q.phase|
      && (q.phase[t].ReadWoken? || q.phase[t].ReadExpired? || q.phase[t].WriteWoken? || q.phase[t].WriteExpired?)
    case TimedOut(t) => t < |q.phase| && (q.phase[t].Reading? || q.phase[t].Writing?) && q.phase[t].timed
    case PrioSet(t, _) => t < |q.prio|
    case DeleteCall(_) => true
  }

  function Do(q: Queue, e: Step): Queue
    requires QueueOk(q) && Enabled(q, e)
  {
    match e
    case ReadCall(c) => ReadEnter(q, c).0
    case WriteCall(c, m) => WriteEnter(q, c, m).0
    case Resume(t) =>
      if q.phase[t].ReadWoken? || q.phase[t].ReadExpired? then ReadResume(q, t).0 else WriteResume(q, t).0
    case TimedOut(t) => Expire(q, t)
    case PrioSet(t, p) => q.(prio := q.prio[t := p])
    case DeleteCall(mail) => DeleteQueue(q, mail).0
  }

  lemma PrioSetOk(q: Queue, t: nat, p: nat)
    requires QueueOk(q) && t < |q.prio|
    ensures QueueOk(q.(prio := q.prio[t := p]))
  {
    hide RingOk, ListsOk, InFlight;
  }

  lemma DoOk(q: Queue, e: Step)
    requires QueueOk(q) && Enabled(q, e)
    ensures QueueOk(Do(q, e))
  {
    hide QueueOk, ReadEnter, WriteEnter, ReadResume, WriteResume, Expire, DeleteQueue;
    match e
    case ReadCall(c) => ReadEnterOk(q, c);
    case WriteCall(c, m) => WriteEnterOk(q, c, m);
    case Resume(t) =>
      if q.phase[t].ReadWoken? || q.phase[t].ReadExpired? {
        ReadResumeOk(q, t);
      } else {
        WriteResumeOk(q, t);
      }
    case TimedOut(t) => ExpireOk(q, t);
    case PrioSet(t, p) => PrioSetOk(q, t, p);
    case DeleteCall(mail) => DeleteQueueIff(q, mail);
  }

  // LOS_QueueCreate
  function Created(size: nat, len: nat, prio: seq<nat>): Queue
  {
    Queue(true, size, seq(len, i => 0), 0, 0, 0, len, [], [], seq(|prio|, i => Outside), prio, [], [])
  }

  lemma {:induction false} NobodyInFlight(read: bool, phase: seq<Phase>)
    requires forall t :: 0 <= t < |phase| ==> phase[t] == Outside
    ensures InFlight(read, phase) == 0
  {
    if phase != [] {
      NobodyInFlight(read, phase[1..]);
    }
  }

  lemma CreatedOk(size: nat, len: nat, prio: seq<nat>)
    requires len > 0
    ensures QueueOk(Created(size, len, prio))
  {
    NobodyInFlight(true, Created(size, len, prio).phase);
    NobodyInFlight(false, Created(size, len, prio).phase);
  }

  // run is a run of the queue: every step was enabled and did what its section does.
  ghost predicate IsRun(run: seq<Queue>, steps: seq<Step>) {
    && |run| == |steps| + 1
    && forall i :: 0 <= i < |steps| ==> StepOf(run[i], steps[i], run[i + 1])
  }

  ghost predicate StepOf(q: Queue, e: Step, z: Queue) {
    QueueOk(q) ==> Enabled(q, e) && z == Do(q, e)
  }

  lemma {:induction false} RunOk(run: seq<Queue>, steps: seq<Step>, k: nat)
    requires IsRun(run, steps) && QueueOk(run[0]) && k < |run|
    ensures QueueOk(run[k])
  {
    hide QueueOk, Do, Enabled;
    if k > 0 {
      RunOk(run, steps, k - 1);
      assert StepOf(run[k - 1], steps[k - 1], run[k]);
      DoOk(run[k - 1], steps[k - 1]);
    }
  }

  lemma {:induction false} InFlightWitness(read: bool, phase: seq<Phase>) returns (t: nat)
    requires InFlight(read, phase) > 0
    ensures t < |phase| && Awake(read, phase[t]) == 1
  {
    if Awake(read, phase[0]) == 1 {
      t := 0;
    } else {
      t := InFlightWitness(read, phase[1..]);
      t := t + 1;
    }
  }

  // A task is blocked although what it waits for is there only while another one has been woken
  // for it and has not run yet.
  ghost predicate NoLostWakeUp(q: Queue) {
    && ((exists t :: 0 <= t < |q.phase| && q.phase[t].Reading?) && |q.delivered| < |q.written| ==>
          exists u :: 0 <= u < |q.phase| && q.phase[u].ReadWoken?)
    && ((exists t :: 0 <= t < |q.phase| && q.phase[t].Writing?) && |q.written| - |q.delivered| < |q.ring| ==>
          exists u :: 0 <= u < |q.phase| && q.phase[u].WriteWoken?)
  }

  lemma OkNoLostWakeUp(q: Queue)
    requires QueueOk(q)
    ensures NoLostWakeUp(q)
  {
    hide RingOk, InFlight;
    if InFlight(true, q.phase) > 0 {
      var u := InFlightWitness(true, q.phase);
    }
    if InFlight(false, q.phase) > 0 {
      var u := InFlightWitness(false, q.phase);
    }
  }

  // The queue over all interleavings of calls, resumptions, timeouts, priority changes and
  // deletions.
  lemma QueueSafety(run: seq<Queue>, steps: seq<Step>, k: nat, size: nat, len: nat, prio: seq<nat>)
    requires len > 0 && IsRun(run, steps) && run[0] == Created(size, len, prio) && k < |run|
    ensures var (q, stored) := (run[k], |run[k].written| - |run[k].delivered|);
            && |q.ring| == len && q.delivered <= q.written
            && stored == q.readable + InFlight(true, q.phase)
            && len - stored == q.writable + InFlight(false, q.phase)
            && stored >= 0 && q.tail == (q.head + stored) % len
            && NoLostWakeUp(q)
  {
    CreatedOk(size, len, prio);
    RunLength(run, steps, k);
    RunOk(run, steps, k);
    var q := run[k];
    OkNoLostWakeUp(q);
    hide InFlight, ListsOk, NoLostWakeUp, IsRun, StepOf;
    SlotIsModulo(q.head, Stored(q), |q.ring|);
  }

  lemma {:induction false} RunLength(run: seq<Queue>, steps: seq<Step>, k: nat)
    requires IsRun(run, steps) && QueueOk(run[0]) && k < |run|
    ensures |run[k].ring| == |run[0].ring|
  {
    if k > 0 {
      RunLength(run, steps, k - 1);
      hide QueueOk;
      RunOk(run, steps, k - 1);
      assert StepOf(run[k - 1], steps[k - 1], run[k]);
      DoLength(run[k - 1], steps[k - 1]);
    }
  }

  lemma DoLength(q: Queue, e: Step)
    requires QueueOk(q) && Enabled(q, e)
    ensures |Do(q, e).ring| == |q.ring|
  {
    hide InFlight, Pended, ListsOk;
    assert q.tail < |q.ring|;
  }

  // ---- Who gets what -----------------------------------------------------------------------------

  // A successful read delivers the oldest message, any other outcome delivers none.
  ghost predicate Delivers(q: Queue, z: Queue, o: Outcome) {
    && z.written == q.written
    && (if o == Done(Ok) then |q.delivered| < |q.written| && z.delivered == q.delivered + [q.written[|q.delivered|]]
        else z.delivered == q.delivered)
  }

  ghost predicate Writes(q: Queue, z: Queue, o: Outcome, m: nat) {
    && z.delivered == q.delivered
    && z.written == if o == Done(Ok) then q.written + [m] else q.written
  }

  lemma ReadsDeliver(q: Queue, c: Call, t: nat)
    requires QueueOk(q)
    ensures CallOk(q, c) ==> Delivers(q, ReadEnter(q, c).0, ReadEnter(q, c).1)
    ensures t < |q.phase| && (q.phase[t].ReadWoken? || q.phase[t].ReadExpired?) ==>
              Delivers(q, ReadResume(q, t).0, ReadResume(q, t).1)
  {
    hide InFlight, Pended, Take, RingOk, Distinct;
    if CallOk(q, c) && ReadRefusal(q, c) == Ok && q.readable > 0 {
      RingBounds(q);
      TakeOk(q.(readable := q.readable - 1));
    }
    if t < |q.phase| && q.phase[t].ReadWoken? {
      InFlightUpdate(true, q.phase, t, Outside);
      InFlightUpdate(false, q.phase, t, Outside);
      InFlightSome(true, q.phase, t);
      RingBounds(q);
      TakeOk(q.(phase := q.phase[t := Outside]));
    }
  }

  lemma RingBounds(q: Queue)
    requires QueueOk(q)
    ensures |q.delivered| <= |q.written|
  {
  }

  // A successful write appends its message once, also when it was blocked in between.
  lemma WritesAppend(q: Queue, c: Call, m: nat, t: nat)
    requires QueueOk(q)
    ensures CallOk(q, c) ==> Writes(q, WriteEnter(q, c, m).0, WriteEnter(q, c, m).1, m)
    ensures t < |q.phase| && (q.phase[t].WriteWoken? || q.phase[t].WriteExpired?) ==>
              Writes(q, WriteResume(q, t).0, WriteResume(q, t).1, if q.phase[t].WriteWoken? then q.phase[t].msg else 0)
  {
    hide InFlight, Pended, Put, RingOk, Distinct;
    if CallOk(q, c) && WriteRefusal(q, c) == Ok && q.writable > 0 {
      PutOk(q.(writable := q.writable - 1), m);
    }
    if t < |q.phase| && q.phase[t].WriteWoken? {
      InFlightUpdate(true, q.phase, t, Outside);
      InFlightUpdate(false, q.phase, t, Outside);
      InFlightSome(false, q.phase, t);
      PutOk(q.(phase := q.phase[t := Outside]), q.phase[t].msg);
    }
  }

  // ---- The order of waiting ------------------------------------------------------------------------

  ghost predicate ByPriority(L: seq<nat>, prio: seq<nat>)
    requires Below(L, |prio|)
  {
    forall i, j :: 0 <= i < j < |L| ==> prio[L[i]] <= prio[L[j]]
  }

  ghost predicate WaitersSorted(q: Queue) {
    && Below(q.readers, |q.prio|) && ByPriority(q.readers, q.prio)
    && Below(q.writers, |q.prio|) && ByPriority(q.writers, q.prio)
  }

  lemma PendedSorted(L: seq<nat>, prio: seq<nat>, t: nat)
    requires Below(L, |prio|) && t < |prio| && ByPriority(L, prio)
    ensures Below(Pended(L, prio, t), |prio|) && ByPriority(Pended(L, prio, t), prio)
  {
  }

  lemma TailSorted(L: seq<nat>, prio: seq<nat>)
    requires L != [] && Below(L, |prio|) && ByPriority(L, prio)
    ensures Below(L[1..], |prio|) && ByPriority(L[1..], prio)
  {
  }

  lemma PrioElsewhere(L: seq<nat>, prio: seq<nat>, t: nat, p: nat)
    requires Below(L, |prio|) && ByPriority(L, prio) && t < |prio| && t !in L
    ensures Below(L, |prio[t := p]|) && ByPriority(L, prio[t := p])
  {
    assert forall i :: 0 <= i < |L| ==> L[i] in L;
  }

  lemma {:induction false} WithoutSorted(L: seq<nat>, prio: seq<nat>, t: nat)
    requires Below(L, |prio|) && ByPriority(L, prio)
    ensures Below(Without(L, t), |prio|) && ByPriority(Without(L, t), prio)
    ensures forall x: nat :: x in Without(L, t) ==> x in L
  {
    if L != [] {
      TailSorted(L, prio);
      if L[0] != t {
        WithoutSorted(L[1..], prio, t);
        HeadBest(L, prio, Without(L[1..], t));
      }
    }
  }

  lemma HeadBest(L: seq<nat>, prio: seq<nat>, W: seq<nat>)
    requires L != [] && Below(L, |prio|) && ByPriority(L, prio) && Below(W, |prio|) && ByPriority(W, prio)
    requires forall x: nat :: x in W ==> x in L[1..]
    ensures Below([L[0]] + W, |prio|) && ByPriority([L[0]] + W, prio)
  {
    forall i | 0 <= i < |W|
      ensures prio[L[0]] <= prio[W[i]]
    {
      assert W[i] in L[1..];
      var j :| 0 <= j < |L[1..]| && L[1..][j] == W[i];
      assert L[j + 1] == W[i];
    }
  }

  // Waiters stay sorted by priority as long as nobody changes the priority of a waiting task.
  lemma DoSorted(q: Queue, e: Step)
    requires QueueOk(q) && Enabled(q, e) && WaitersSorted(q)
    requires e.PrioSet? ==> e.t !in q.readers && e.t !in q.writers
    ensures WaitersSorted(Do(q, e))
  {
    hide RingOk, InFlight, Distinct, Pended, Without, ByPriority, Below;
    if q.readers != [] {
      TailSorted(q.readers, q.prio);
    }
    if q.writers != [] {
      TailSorted(q.writers, q.prio);
    }
    match e
    case ReadCall(c) =>
      PendedSorted(q.readers, q.prio, c.task);
    case WriteCall(c, m) =>
      PendedSorted(q.writers, q.prio, c.task);
    case Resume(t) =>
    case TimedOut(t) =>
      WithoutSorted(q.readers, q.prio, t);
      WithoutSorted(q.writers, q.prio, t);
    case PrioSet(t, p) =>
      PrioElsewhere(q.readers, q.prio, t, p);
      PrioElsewhere(q.writers, q.prio, t, p);
    case DeleteCall(mail) =>
  }

  // u is somewhere before v.
  ghost predicate Before(L: seq<nat>, u: nat, v: nat) {
    exists i, j :: 0 <= i < j < |L| && L[i] == u && L[j] == v
  }

  lemma PendedBefore(L: seq<nat>, prio: seq<nat>, t: nat, u: nat, v: nat)
    requires Below(L, |prio|) && t < |prio| && Before(L, u, v)
    ensures Before(Pended(L, prio, t), u, v)
  {
    var i, j :| 0 <= i < j < |L| && L[i] == u && L[j] == v;
    var k, P := PendPlace(L, prio, prio[t]), Pended(L, prio, t);
    var i', j' := if i < k then i else i + 1, if j < k then j else j + 1;
    assert P[i'] == u && P[j'] == v;
  }

  // A task that pends comes after every waiter of its priority.
  lemma PendedLast(L: seq<nat>, prio: seq<nat>, t: nat, u: nat)
    requires Below(L, |prio|) && t < |prio| && ByPriority(L, prio) && u in L && u < |prio| && prio[u] == prio[t]
    ensures Before(Pended(L, prio, t), u, t)
  {
    var i :| 0 <= i < |L| && L[i] == u;
    var k, P := PendPlace(L, prio, prio[t]), Pended(L, prio, t);
    assert i < k;
    assert P[i] == u && P[k] == t;
  }

  lemma TailBefore(L: seq<nat>, u: nat, v: nat)
    requires L != [] && Before(L, u, v) && u in L[1..] && Distinct(L)
    ensures Before(L[1..], u, v)
  {
    var i, j :| 0 <= i < j < |L| && L[i] == u && L[j] == v;
    assert i > 0;
    assert L[1..][i - 1] == u && L[1..][j - 1] == v;
  }

  lemma ConsBefore(x: nat, L: seq<nat>, u: nat, v: nat)
    requires (x == u && v in L) || Before(L, u, v)
    ensures Before([x] + L, u, v)
  {
    if x == u && v in L {
      var k :| 0 <= k < |L| && L[k] == v;
      assert ([x] + L)[0] == u && ([x] + L)[k + 1] == v;
    } else {
      var i, j :| 0 <= i < j < |L| && L[i] == u && L[j] == v;
      assert ([x] + L)[i + 1] == u && ([x] + L)[j + 1] == v;
    }
  }

  lemma BeforeParts(L: seq<nat>, u: nat, v: nat)
    requires Before(L, u, v)
    ensures L != [] && v in L[1..] && (u == L[0] || u in L[1..])
  {
    var i, j :| 0 <= i < j < |L| && L[i] == u && L[j] == v;
    assert L[1..][j - 1] == v;
    assert i > 0 ==> L[1..][i - 1] == u;
  }

  lemma {:induction false} WithoutBefore(L: seq<nat>, t: nat, u: nat, v: nat)
    requires Distinct(L) && Before(L, u, v) && t != u && t != v
    ensures Before(Without(L, t), u, v)
  {
    BeforeParts(L, u, v);
    TailIs(L);
    WithoutIs(L[1..], t);
    hide Before, Distinct;
    if L[0] != u {
      TailBefore(L, u, v);
      if L[0] != t {
        WithoutBefore(L[1..], t, u, v);
        ConsBefore(L[0], Without(L[1..], t), u, v);
      }
    } else {
      ConsBefore(u, Without(L[1..], t), u, v);
    }
  }

  function Waiters(q: Queue, read: bool): seq<nat> { if read then q.readers else q.writers }

  // Tasks that go on waiting keep their order.
  lemma DoOrder(q: Queue, e: Step, read: bool, u: nat, v: nat)
    requires QueueOk(q) && Enabled(q, e) && Before(Waiters(q, read), u, v)
    requires u in Waiters(Do(q, e), read) && v in Waiters(Do(q, e), read)
    ensures Before(Waiters(Do(q, e), read), u, v)
  {
    hide RingOk, InFlight, Distinct, Pended, Before;
    var L := Waiters(q, read);
    MembersBelow(L, |q.prio|);
    match e
    case ReadCall(c) => OrderAtEntry(q, e, c, read, u, v);
    case WriteCall(c, m) => OrderAtEntry(q, e, c, read, u, v);
    case Resume(t) => OrderAtHead(q, e, read, u, v);
    case TimedOut(t) =>
      if t in L {
        WithoutIs(L, t);
        WithoutBefore(L, t, u, v);
      }
    case PrioSet(t, p) =>
    case DeleteCall(mail) =>
  }

  // A call puts its task into one list, or takes the head of the other.
  lemma OrderAtEntry(q: Queue, e: Step, c: Call, read: bool, u: nat, v: nat)
    requires QueueOk(q) && Enabled(q, e) && Before(Waiters(q, read), u, v)
    requires (e.ReadCall? || e.WriteCall?) && e.c == c
    requires u in Waiters(Do(q, e), read) && v in Waiters(Do(q, e), read)
    ensures Before(Waiters(Do(q, e), read), u, v)
  {
    hide RingOk, InFlight, Distinct, Pended, Before;
    var L := Waiters(q, read);
    MembersBelow(L, |q.prio|);
    PendedBefore(L, q.prio, c.task, u, v);
    if L != [] && u in L[1..] {
      TailBefore(L, u, v);
    }
  }

  lemma OrderAtHead(q: Queue, e: Step, read: bool, u: nat, v: nat)
    requires QueueOk(q) && Enabled(q, e) && Before(Waiters(q, read), u, v) && e.Resume?
    requires u in Waiters(Do(q, e), read) && v in Waiters(Do(q, e), read)
    ensures Before(Waiters(Do(q, e), read), u, v)
  {
    hide RingOk, InFlight, Distinct, Pended, Before;
    var L := Waiters(q, read);
    if L != [] && u in L[1..] {
      TailBefore(L, u, v);
    }
  }

  // A task that starts to wait does so behind all waiters of its priority.
  lemma DoEnters(q: Queue, e: Step, read: bool, u: nat, v: nat)
    requires QueueOk(q) && Enabled(q, e) && WaitersSorted(q)
    requires u in Waiters(q, read) && v !in Waiters(q, read)
    requires u in Waiters(Do(q, e), read) && v in Waiters(Do(q, e), read)
    requires u < |q.prio| && v < |q.prio| && q.prio[u] == q.prio[v]
    ensures Before(Waiters(Do(q, e), read), u, v)
  {
    hide RingOk, InFlight, Distinct, Pended, Before, ByPriority;
    var L := Waiters(q, read);
    match e
    case ReadCall(c) => EntersLast(q, e, c, read, u, v);
    case WriteCall(c, m) => EntersLast(q, e, c, read, u, v);
    case Resume(t) =>
      assert L != [] ==> forall x: nat :: x in L[1..] ==> x in L;
    case TimedOut(t) => WithoutIs(L, t);
    case PrioSet(t, p) =>
    case DeleteCall(mail) =>
  }

  lemma EntersLast(q: Queue, e: Step, c: Call, read: bool, u: nat, v: nat)
    requires QueueOk(q) && Enabled(q, e) && WaitersSorted(q) && (e.ReadCall? || e.WriteCall?) && e.c == c
    requires u in Waiters(q, read) && v !in Waiters(q, read)
    requires u in Waiters(Do(q, e), read) && v in Waiters(Do(q, e), read)
    requires u < |q.prio| && v < |q.prio| && q.prio[u] == q.prio[v]
    ensures Before(Waiters(Do(q, e), read), u, v)
  {
    hide RingOk, InFlight, Pended, Before, ByPriority;
    var L := Waiters(q, read);
    assert L != [] ==> forall x: nat :: x in L[1..] ==> x in L;
    if c.task !in L {
      PendedContains(L, q.prio, c.task);
    }
    hide Distinct;
    if v == c.task {
      PendedLast(L, q.prio, v, u);
    }
  }

  // Nobody sets the priority of a waiting task.
  ghost predicate PrioritiesStay(run: seq<Queue>, steps: seq<Step>)
    requires |run| == |steps| + 1
  {
    forall i :: 0 <= i < |steps| && steps[i].PrioSet? ==>
      steps[i].t !in run[i].readers && steps[i].t !in run[i].writers
  }

  lemma {:induction false} RunSorted(run: seq<Queue>, steps: seq<Step>, k: nat)
    requires IsRun(run, steps) && QueueOk(run[0]) && WaitersSorted(run[0]) && k < |run|
    requires PrioritiesStay(run, steps)
    ensures WaitersSorted(run[k])
  {
    hide QueueOk, Do, Enabled, WaitersSorted;
    if k > 0 {
      RunSorted(run, steps, k - 1);
      RunOk(run, steps, k - 1);
      assert StepOf(run[k - 1], steps[k - 1], run[k]);
      DoSorted(run[k - 1], steps[k - 1]);
    }
  }

  // Over every run: of two waiters that had one priority when the second began to wait, the one that
  // came first stays in front, so it is woken first.
  lemma {:induction false} FirstComeFirstServed(run: seq<Queue>, steps: seq<Step>, j: nat, k: nat,
                                                read: bool, u: nat, v: nat)
    requires IsRun(run, steps) && QueueOk(run[0]) && WaitersSorted(run[0]) && PrioritiesStay(run, steps)
    requires j < k < |run|
    requires u in Waiters(run[j], read) && v !in Waiters(run[j], read)
    requires forall i :: j < i <= k ==> u in Waiters(run[i], read) && v in Waiters(run[i], read)
    requires u < |run[j].prio| && v < |run[j].prio| && run[j].prio[u] == run[j].prio[v]
    ensures Before(Waiters(run[k], read), u, v)
    decreases k
  {
    hide QueueOk, Do, Enabled, WaitersSorted, Waiters, Before;
    RunOk(run, steps, k - 1);
    assert StepOf(run[k - 1], steps[k - 1], run[k]);
    if k == j + 1 {
      RunSorted(run, steps, j);
      DoEnters(run[j], steps[j], read, u, v);
    } else {
      FirstComeFirstServed(run, steps, j, k - 1, read, u, v);
      DoOrder(run[k - 1], steps[k - 1], read, u, v);
    }
  }

  lemma {:induction false} PendPlaceIs(L: seq<nat>, prio: seq<nat>, p: nat, k: nat)
    requires Below(L, |prio|) && k <= |L|
    requires (forall i :: 0 <= i < k ==> prio[L[i]] <= p) && (k < |L| ==> p < prio[L[k]])
    ensures PendPlace(L, prio, p) == k
  {
    if k > 0 {
      PendPlaceIs(L[1..], prio, p, k - 1);
    }
  }
}

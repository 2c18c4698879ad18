// The queue control block and its code. Each method is one interrupt-locked section; it does to
// the abstract queue exactly what the protocol says.

module MessageQueue {
  import opened Waits
  import opened Lists
  import opened QueueModel
  import opened QueueAnswers

  const OS_NULL_SHORT: nat := 0xFFFF

  // What LOS_QueueCreate returns, in the order of its tests.
  function CreateCode(idNull: bool, len: nat, maxMsgSize: nat, inUse: seq<bool>, memory: bool): Code
  {
    if idNull then PtrNull
    else if maxMsgSize > OS_NULL_SHORT - 4 then SizeTooBig
    else if len == 0 || maxMsgSize == 0 then ParaIsZero
    else if forall b :: 0 <= b < |inUse| ==> inUse[b] then CbUnavailable
    else if !memory then NoMemory
    else Ok
  }

  // osQueuePend: the list with the running task in its place.
  method QueuePend(list: seq<nat>, prio: array<nat>, t: nat) returns (r: seq<nat>)
    requires Below(list, prio.Length) && t < prio.Length
    ensures r == Pended(list, prio[..], t)
  {
    var k := 0;
    while k < |list| && !(prio[t] < prio[list[k]])
      invariant k <= |list| && forall i :: 0 <= i < k ==> prio[list[i]] <= prio[t]
    {
      k := k + 1;
    }
    PendPlaceIs(list, prio[..], prio[t], k);
    r := list[..k] + [t] + list[k..];
  }

  class MessageQueue {
    const queue: array<nat>    // pucQueue, one word per node
    const phase: array<Phase>  // per task
    const prio: array<nat>     // per task
    var inUse: bool
    var size: nat
    var head: nat
    var tail: nat
    var readable: nat
    var writable: nat
    var readList: seq<nat>
    var writeList: seq<nat>
    ghost var written: seq<nat>
    ghost var delivered: seq<nat>

    ghost function View(): Queue
      reads this, queue, phase, prio
    {
      Queue(inUse, size, queue[..], head, tail, readable, writable, readList, writeList, phase[..], prio[..],
            written, delivered)
    }

    ghost predicate Valid()
      reads this, queue, phase, prio
    {
      queue != prio && QueueOk(View())
    }

    // LOS_QueueCreate. inUse says which control blocks are taken, memory whether the allocation of the
    // nodes succeeds.
    static method QueueCreate(idNull: bool, len: nat, maxMsgSize: nat, inUse: seq<bool>, memory: bool, tasks: nat)
      returns (code: Code, id: nat, q: MessageQueue?)
      ensures code == CreateCode(idNull, len, maxMsgSize, inUse, memory)
      ensures code == Ok ==> 0 < id <= |inUse| && !inUse[id - 1] && forall b :: 0 <= b < id - 1 ==> inUse[b]
      ensures code == Ok ==> q != null && fresh(q) && q.Valid() && fresh(q.queue) && fresh(q.phase) && fresh(q.prio)
      ensures code == Ok ==> q.View() == Created(maxMsgSize + 4, len, seq(tasks, i => 0))
    {
      id, q := 0, null;
      if idNull {
        return PtrNull, id, q;
      }
      if maxMsgSize > OS_NULL_SHORT - 4 {
        return SizeTooBig, id, q;
      }
      if len == 0 || maxMsgSize == 0 {
        return ParaIsZero, id, q;
      }
      var b := 0;
      while b < |inUse| && inUse[b]
        invariant b <= |inUse| && forall a :: 0 <= a < b ==> inUse[a]
      {
        b := b + 1;
      }
      if b == |inUse| {
        return CbUnavailable, id, q;
      }
      id := b + 1;
      if !memory {
        return NoMemory, id, q;
      }
      q := new MessageQueue(len, maxMsgSize, tasks);
      code := Ok;
    }

    // The new control block: one word per node for the message, size more for what a caller may name.
    constructor (len: nat, maxMsgSize: nat, tasks: nat)
      requires len > 0
      ensures Valid() && fresh(queue) && fresh(phase) && fresh(prio) && queue.Length == len && phase.Length == tasks
      ensures View() == Created(maxMsgSize + 4, len, seq(tasks, i => 0))
    {
      queue := new nat[len](i => 0);
      phase := new Phase[tasks](i => Outside);
      prio := new nat[tasks](i => 0);
      inUse, size, head, tail, readable, writable := true, maxMsgSize + 4, 0, 0, 0, len;
      readList, writeList, written, delivered := [], [], [], [];
      new;
      CreatedOk(size, len, seq(tasks, i => 0));
      assert View() == Created(maxMsgSize + 4, len, seq(tasks, i => 0));
    }

    // osQueueWakeUp on the read list.
    method WakeUpReader()
      requires readList != [] && readList[0] < phase.Length
      modifies this`readList, phase
      ensures View() == WakeReader(old(View()))
    {
      phase[readList[0]] := ReadWoken;
      readList := readList[1..];
    }

    // osQueueWakeUp on the write list.
    method WakeUpWriter()
      requires writeList != [] && writeList[0] < phase.Length && phase[writeList[0]].Writing?
      modifies this`writeList, phase
      ensures View() == WakeWriter(old(View()))
    {
      phase[writeList[0]] := WriteWoken(phase[writeList[0]].msg);
      writeList := writeList[1..];
    }

    // The end of LOS_QueueRead, common to both ways of getting there.
    method TakeMessage() returns (msg: nat)
      requires head < queue.Length
      requires forall t: nat :: t in writeList ==> t < phase.Length && phase[t].Writing?
      modifies this, phase
      ensures View() == Take(old(View())) && msg == old(queue[head])
    {
      msg := queue[head];
      delivered := delivered + [msg];
      head := head + 1;
      if head == queue.Length {
        head := 0;
      }
      if writeList != [] {
        assert writeList[0] in writeList;
        WakeUpWriter();
      } else {
        writable := writable + 1;
      }
    }

    // The end of LOS_QueueWrite.
    method PutMessage(msg: nat)
      requires tail < queue.Length && queue != prio
      requires forall t: nat :: t in readList ==> t < phase.Length
      modifies this, phase, queue
      ensures View() == Put(old(View()), msg)
    {
      queue[tail] := msg;
      written := written + [msg];
      tail := tail + 1;
      if tail == queue.Length {
        tail := 0;
      }
      assert queue[..] == old(queue[..])[old(tail) := msg];
      if readList != [] {
        assert readList[0] in readList;
        WakeUpReader();
      } else {
        readable := readable + 1;
      }
    }

    // LOS_QueueRead until it returns or blocks.
    method ReadCallSection(c: Call) returns (o: Outcome, msg: nat)
      requires Valid() && CallOk(View(), c)
      modifies this, phase
      ensures Valid() && (View(), o) == ReadEnter(old(View()), c)
      ensures old(MayRead(View(), c)) ==> AnswerIs(old(Free(View(), true)), c, o, IsEmpty)
      ensures o == Done(Ok) ==> delivered == old(delivered) + [msg]
    {
      hide RingOk, Distinct, InFlight, Take, Pended, Free, AnswerIs, RefusalIs;
      ReadEnterOk(View(), c);
      ReadAnswers(View(), c);
      msg := 0;
      if c.ptrNull {
        return Done(PtrNull), msg;
      }
      if c.size == 0 {
        return Done(SizeIsZero), msg;
      }
      if c.timeout != LOS_NO_WAIT && c.inInterrupt {
        return Done(InInterrupt), msg;
      }
      if !inUse {
        return Done(NotCreate), msg;
      }
      if readable == 0 {
        if c.timeout == LOS_NO_WAIT {
          return Done(IsEmpty), msg;
        }
        if c.locked {
          return Done(PendInLock), msg;
        }
        MembersBelow(readList, prio.Length);
        readList := QueuePend(readList, prio, c.task);
        phase[c.task] := Reading(c.timeout != LOS_WAIT_FOREVER);
        o := Blocked;
      } else {
        readable := readable - 1;
        EndsInRing(View());
        ghost var q := View();
        msg := TakeMessage();
        TakeDelivers(q);
        o := Done(Ok);
      }
    }

    // LOS_QueueRead when the blocked task runs again.
    method ReadResumeSection(t: nat) returns (o: Outcome, msg: nat)
      requires Valid() && t < phase.Length && (phase[t].ReadWoken? || phase[t].ReadExpired?)
      modifies this, phase
      ensures Valid() && (View(), o) == ReadResume(old(View()), t)
      ensures o == Done(Ok) ==> delivered == old(delivered) + [msg]
    {
      hide RingOk, Distinct, InFlight, Take;
      ReadResumeOk(View(), t);
      msg := 0;
      if phase[t].ReadExpired? {
        phase[t] := Outside;
        return Done(Timeout), msg;
      }
      phase[t] := Outside;
      EndsInRing(View());
      ghost var q := View();
      msg := TakeMessage();
      TakeDelivers(q);
      o := Done(Ok);
    }

    // LOS_QueueWrite until it returns or blocks.
    method WriteCallSection(c: Call, msg: nat) returns (o: Outcome)
      requires Valid() && CallOk(View(), c)
      modifies this, phase, queue
      ensures Valid() && (View(), o) == WriteEnter(old(View()), c, msg)
      ensures old(MayWrite(View(), c)) ==> AnswerIs(old(Free(View(), false)), c, o, IsFull)
    {
      hide RingOk, Distinct, InFlight, Put, Pended, Free, AnswerIs, RefusalIs;
      WriteEnterOk(View(), c, msg);
      WriteAnswers(View(), c, msg);
      if c.ptrNull {
        return Done(PtrNull);
      }
      if c.size == 0 {
        return Done(SizeIsZero);
      }
      if c.timeout != LOS_NO_WAIT && c.inInterrupt {
        return Done(InInterrupt);
      }
      if !inUse {
        return Done(NotCreate);
      }
      if c.size > size {
        return Done(SizeTooBig);
      }
      if writable == 0 {
        if c.timeout == LOS_NO_WAIT {
          return Done(IsFull);
        }
        if c.locked {
          return Done(PendInLock);
        }
        MembersBelow(writeList, prio.Length);
        writeList := QueuePend(writeList, prio, c.task);
        phase[c.task] := Writing(c.timeout != LOS_WAIT_FOREVER, msg);
        o := Blocked;
      } else {
        writable := writable - 1;
        EndsInRing(View());
        PutMessage(msg);
        o := Done(Ok);
      }
    }

    // LOS_QueueWrite when the blocked task runs again.
    method WriteResumeSection(t: nat) returns (o: Outcome)
      requires Valid() && t < phase.Length && (phase[t].WriteWoken? || phase[t].WriteExpired?)
      modifies this, phase, queue
      ensures Valid() && (View(), o) == WriteResume(old(View()), t)
    {
      hide RingOk, Distinct, InFlight, Put;
      WriteResumeOk(View(), t);
      if phase[t].WriteExpired? {
        phase[t] := Outside;
        return Done(Timeout);
      }
      var msg := phase[t].msg;
      phase[t] := Outside;
      EndsInRing(View());
      PutMessage(msg);
      o := Done(Ok);
    }

    // LOS_QueueDelete
    method QueueDelete(mail: bool) returns (code: Code)
      requires Valid()
      modifies this`inUse
      ensures Valid() && (View(), code) == DeleteQueue(old(View()), mail)
    {
      DeleteQueueIff(View(), mail);
      if !inUse {
        return NotCreate;
      }
      if readList != [] {
        return InTaskUse;
      }
      if writeList != [] {
        return InTaskUse;
      }
      if mail {
        return InTaskUse;
      }
      if writable + readable != queue.Length {
        return InTaskWrite;
      }
      inUse := false;
      code := Ok;
    }
  }

  lemma EndsInRing(q: Queue)
    requires RingOk(q.ring, q.head, q.tail, q.written, q.delivered)
    ensures q.head < |q.ring| && q.tail < |q.ring|
  {
  }

  lemma TakeDelivers(q: Queue)
    requires q.head < |q.ring|
    requires forall t: nat :: t in q.writers ==> t < |q.phase| && q.phase[t].Writing?
    ensures Take(q).delivered == q.delivered + [q.ring[q.head]]
  {
  }
}

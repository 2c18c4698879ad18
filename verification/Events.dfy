// Event blocks: 32 flag bits and the tasks that wait for some (OR) or all (AND) of a mask.

module Events {
  import opened Lists
  import opened Waits

  const LOS_WAITMODE_CLR: bv32 := 1
  const LOS_WAITMODE_OR: bv32 := 2
  const LOS_WAITMODE_AND: bv32 := 4
  const LOS_ERRTYPE_ERROR: bv32 := 0x0200_0000

  // What a task waits for; uwEventMask and uwEventMode of its control block.
  datatype Wish = Wish(mask: bv32, mode: bv32)

  // Expired: the wait timed out, but the task has not run since.
  datatype Phase = Outside | Waiting(wish: Wish, timed: bool) | Woken(wish: Wish) | Expired

  // EVENT_CB_S with its tasks.
  datatype Event = Event(id: bv32, waiters: seq<nat>, phase: seq<Phase>)

  datatype Code = MaskInvalid | SetBitInvalid | FlagsInvalid | ReadInInterrupt | ReadInLock | ReadTimeout

  // A read ends with the bits it saw (none: 0) or an error.
  datatype Outcome = Blocked | Bits(bits: bv32) | Error(code: Code)

  // ---- Masks ---------------------------------------------------------------------------

  function And(a: bv32, b: bv32): bv32 { a & b }

  function Or(a: bv32, b: bv32): bv32 { a | b }

  function Minus(a: bv32, b: bv32): bv32 { a & !b }

  predicate Any(id: bv32, mask: bv32) { And(id, mask) != 0 }

  predicate All(id: bv32, mask: bv32) { And(id, mask) == mask }

  // The wish is fulfilled by these flags.
  predicate Meets(w: Wish, id: bv32) {
    if Any(w.mode, LOS_WAITMODE_OR) then Any(id, w.mask) else All(id, w.mask)
  }

  // What LOS_EventRead lets through: some mask, and exactly one of OR and AND.
  predicate WishOk(w: Wish) {
    && w.mask != 0 && !Any(w.mask, LOS_ERRTYPE_ERROR)
    && !(Any(w.mode, LOS_WAITMODE_OR) && Any(w.mode, LOS_WAITMODE_AND))
    && !Any(w.mode, !(LOS_WAITMODE_OR | LOS_WAITMODE_AND | LOS_WAITMODE_CLR))
    && Any(w.mode, LOS_WAITMODE_OR | LOS_WAITMODE_AND)
  }

  // LOS_EventPoll: the bits seen, and the flags afterwards.
  function Poll(id: bv32, w: Wish): (bv32, bv32)
  {
    var ret := if Any(w.mode, LOS_WAITMODE_OR) then (if 0 != And(id, w.mask) then And(id, w.mask) else 0)
               else if w.mask != 0 && w.mask == And(id, w.mask) then And(id, w.mask) else 0;
    (ret, if ret != 0 && Any(LOS_WAITMODE_CLR, w.mode) then Minus(id, ret) else id)
  }

  // The condition under which LOS_EventWrite wakes a waiter.
  predicate Wakes(w: Wish, events: bv32, id: bv32) {
    || (Any(w.mode, LOS_WAITMODE_OR) && Any(w.mask, events))
    || (Any(w.mode, LOS_WAITMODE_AND) && All(id, w.mask))
  }

  lemma Either(mode: bv32)
    ensures Any(mode, LOS_WAITMODE_OR | LOS_WAITMODE_AND) <==> Any(mode, LOS_WAITMODE_OR) || Any(mode, LOS_WAITMODE_AND)
  {
  }

  lemma AndSym(a: bv32, b: bv32)
    ensures And(a, b) == And(b, a)
  {
  }

  lemma ClearMask(id: bv32, mask: bv32)
    ensures Minus(id, And(id, mask)) == Minus(id, mask) && And(Minus(id, mask), mask) == 0
  {
  }

  // A poll sees bits exactly when the wish is met, then those of the mask that are set; only
  // they can be cleared.
  lemma PollIff(id: bv32, w: Wish)
    requires w.mask != 0
    ensures Poll(id, w).0 != 0 <==> Meets(w, id)
    ensures Meets(w, id) ==> Poll(id, w).0 == And(id, w.mask)
    ensures Poll(id, w).1 == if Meets(w, id) && Any(w.mode, LOS_WAITMODE_CLR) then Minus(id, w.mask) else id
  {
    hide And, Minus;
    ClearMask(id, w.mask);
    AndSym(w.mode, LOS_WAITMODE_CLR);
  }

  // Bits that are taken away fulfil no wish.
  lemma FewerBits(w: Wish, id: bv32, keep: bv32)
    requires w.mask != 0 && !Meets(w, id)
    ensures !Meets(w, And(id, keep))
  {
    hide And;
    FewerAny(id, keep, w.mask);
    FewerAll(id, keep, w.mask);
  }

  lemma FewerAny(id: bv32, keep: bv32, mask: bv32)
    ensures And(id, mask) == 0 ==> And(And(id, keep), mask) == 0
  {
  }

  lemma FewerAll(id: bv32, keep: bv32, mask: bv32)
    ensures And(And(id, keep), mask) == mask ==> And(id, mask) == mask
  {
  }

  lemma MinusIsAnd(id: bv32, mask: bv32)
    ensures Minus(id, mask) == And(id, !mask)
  {
  }

  // A wish that was not met before is met now exactly when the writer wakes the task.
  lemma WakesIff(w: Wish, id: bv32, events: bv32)
    requires WishOk(w) && !Meets(w, id)
    ensures Wakes(w, events, Or(id, events)) <==> Meets(w, Or(id, events))
  {
    Either(w.mode);
    hide And, Or;
    if And(id, w.mask) == 0 {
      More(id, events, w.mask);
    }
    AndSym(events, w.mask);
  }

  lemma More(id: bv32, events: bv32, mask: bv32)
    requires And(id, mask) == 0
    ensures And(Or(id, events), mask) == And(events, mask)
  {
  }

  // Once the bits are cleared, nobody else's wish for the same mask is met.
  lemma ClearedBits(w: Wish, v: Wish, id: bv32)
    requires w.mask != 0 && w.mask == v.mask && Any(w.mode, LOS_WAITMODE_CLR) && Meets(w, id)
    ensures !Meets(v, Poll(id, w).1)
  {
    PollIff(id, w);
    ClearMask(id, w.mask);
    hide And, Minus, Poll;
  }

  // ---- The invariant ---------------------------------------------------------------------

  // A waiting task has a proper wish that the flags do not meet.
  ghost predicate TaskOk(p: Phase, id: bv32) {
    && (p.Waiting? ==> WishOk(p.wish) && !Meets(p.wish, id))
    && (p.Woken? ==> WishOk(p.wish))
  }

  ghost predicate EventOk(e: Event) {
    && Distinct(e.waiters)
    && (forall t: nat :: t in e.waiters <==> t < |e.phase| && e.phase[t].Waiting?)
    && forall t :: 0 <= t < |e.phase| ==> TaskOk(e.phase[t], e.id)
  }

  // ---- The sections ------------------------------------------------------------------------

  datatype Call = Call(task: nat, wish: Wish, timeout: nat, inInterrupt: bool, locked: bool)

  predicate CallOk(e: Event, c: Call) {
    c.task < |e.phase| && (!c.inInterrupt ==> e.phase[c.task] == Outside)
  }

  // LOS_EventRead until it returns or blocks.
  function Read(e: Event, c: Call): (Event, Outcome)
    requires CallOk(e, c)
  {
    if c.wish.mask == 0 then (e, Error(MaskInvalid))
    else if Any(c.wish.mask, LOS_ERRTYPE_ERROR) then (e, Error(SetBitInvalid))
    else if !WishOk(c.wish) then (e, Error(FlagsInvalid))
    else if c.inInterrupt then (e, Error(ReadInInterrupt))
    else
      var (bits, id) := Poll(e.id, c.wish);
      if bits != 0 then (e.(id := id), Bits(bits))
      else if c.timeout == LOS_NO_WAIT then (e.(id := id), Bits(0))
      else if c.locked then (e.(id := id), Error(ReadInLock))
      else (Event(id, e.waiters + [c.task], e.phase[c.task := Waiting(c.wish, c.timeout != LOS_WAIT_FOREVER)]), Blocked)
  }

  // LOS_EventRead when the blocked task runs again: it polls once more.
  function ReadResume(e: Event, t: nat): (Event, Outcome)
    requires t < |e.phase| && (e.phase[t].Woken? || e.phase[t] == Expired)
  {
    var out := e.(phase := e.phase[t := Outside]);
    if e.phase[t] == Expired then (out, Error(ReadTimeout))
    else
      var (bits, id) := Poll(e.id, e.phase[t].wish);
      (out.(id := id), Bits(bits))
  }

  // The loop of LOS_EventWrite over the waiters from k on; id holds the new flags already.
  function WakeFrom(e: Event, events: bv32, k: nat): Event
    requires k <= |e.waiters|
    requires forall i :: 0 <= i < |e.waiters| ==> e.waiters[i] < |e.phase| && e.phase[e.waiters[i]].Waiting?
    requires Distinct(e.waiters)
    decreases |e.waiters| - k
  {
    if k == |e.waiters| then e
    else if Wakes(e.phase[e.waiters[k]].wish, events, e.id) then
      WakeFrom(Awake(e, k), events, k)
    else WakeFrom(e, events, k + 1)
  }

  // Waiter k leaves the list.
  function Awake(e: Event, k: nat): Event
    requires k < |e.waiters| && e.waiters[k] < |e.phase| && e.phase[e.waiters[k]].Waiting?
  {
    var t := e.waiters[k];
    e.(waiters := e.waiters[..k] + e.waiters[k + 1..], phase := e.phase[t := Woken(e.phase[t].wish)])
  }

  // LOS_EventWrite; None stands for LOS_OK.
  function Write(e: Event, events: bv32): (Event, bool)
    requires EventOk(e)
  {
    if Any(events, LOS_ERRTYPE_ERROR) then (e, false)
    else
      assert forall i :: 0 <= i < |e.waiters| ==> e.waiters[i] in e.waiters;
      (WakeFrom(e.(id := Or(e.id, events)), events, 0), true)
  }

  // LOS_EventClear: the flags in keep stay.
  function Clear(e: Event, keep: bv32): Event { e.(id := And(e.id, keep)) }

  // The tick handler takes a waiter whose time is up off the list.
  function Expire(e: Event, t: nat): Event
    requires t < |e.phase|
  {
    e.(waiters := Without(e.waiters, t), phase := e.phase[t := Expired])
  }

  // ---- What the sections keep -------------------------------------------------------------------

  ghost predicate Listed(e: Event) {
    Distinct(e.waiters) && forall t: nat :: t in e.waiters <==> t < |e.phase| && e.phase[t].Waiting?
  }

  lemma ListedWaits(e: Event)
    requires Listed(e)
    ensures forall i :: 0 <= i < |e.waiters| ==> e.waiters[i] < |e.phase| && e.phase[e.waiters[i]].Waiting?
  {
    assert forall i :: 0 <= i < |e.waiters| ==> e.waiters[i] in e.waiters;
  }

  lemma AwakeListed(e: Event, k: nat)
    requires Listed(e) && k < |e.waiters| && e.waiters[k] < |e.phase| && e.phase[e.waiters[k]].Waiting?
    ensures Listed(Awake(e, k))
  {
    var L := e.waiters;
    assert L == L[..k] + [L[k]] + L[k + 1..];
    assert forall t: nat :: t in L[..k] + L[k + 1..] <==> t in L && t != L[k];
  }

  // The first k waiters stay, and for the others waking and meeting the wish are the same.
  ghost predicate Sorting(e: Event, events: bv32, k: nat) {
    && Listed(e) && k <= |e.waiters|
    && (forall i :: 0 <= i < k ==>
        e.waiters[i] < |e.phase| && e.phase[e.waiters[i]].Waiting? && !Meets(e.phase[e.waiters[i]].wish, e.id))
    && (forall i :: k <= i < |e.waiters| ==>
          && e.waiters[i] < |e.phase| && e.phase[e.waiters[i]].Waiting?
          && (Wakes(e.phase[e.waiters[i]].wish, events, e.id) <==> Meets(e.phase[e.waiters[i]].wish, e.id)))
  }

  // What the write makes of a task.
  function Told(p: Phase, id: bv32): Phase {
    if p.Waiting? && Meets(p.wish, id) then Woken(p.wish) else p
  }

  lemma {:induction false} WakeFromIs(e: Event, events: bv32, k: nat)
    requires Sorting(e, events, k)
    ensures var z := WakeFrom(e, events, k);
            && Listed(z) && z.id == e.id && |z.phase| == |e.phase|
            && forall t :: 0 <= t < |e.phase| ==> z.phase[t] == Told(e.phase[t], e.id)
    decreases |e.waiters| - k
  {
    hide Wakes, Meets, Distinct;
    if k == |e.waiters| {
      AllStay(e, events);
    } else {
      if Wakes(e.phase[e.waiters[k]].wish, events, e.id) {
        AwakeListed(e, k);
        AwakeSorting(e, events, k);
        WakeFromIs(Awake(e, k), events, k);
      } else {
        WakeFromIs(e, events, k + 1);
      }
    }
  }

  lemma AllStay(e: Event, events: bv32)
    requires Sorting(e, events, |e.waiters|)
    ensures forall t :: 0 <= t < |e.phase| ==> e.phase[t] == Told(e.phase[t], e.id)
  {
    hide Wakes, Meets, Distinct;
    forall t | 0 <= t < |e.phase|
      ensures e.phase[t] == Told(e.phase[t], e.id)
    {
      if e.phase[t].Waiting? {
        assert t in e.waiters;
      }
    }
  }

  lemma AwakeSorting(e: Event, events: bv32, k: nat)
    requires Sorting(e, events, k) && k < |e.waiters| && Wakes(e.phase[e.waiters[k]].wish, events, e.id)
    ensures Sorting(Awake(e, k), events, k)
  {
    AwakeListed(e, k);
    hide Wakes, Meets;
  }

  // A write wakes exactly the tasks whose wish the new flags meet.
  lemma WriteWakesIff(e: Event, events: bv32)
    requires EventOk(e) && Write(e, events).1
    ensures EventOk(Write(e, events).0)
    ensures var z := Write(e, events).0;
            && z.id == Or(e.id, events) && |z.phase| == |e.phase|
            && forall t :: 0 <= t < |e.phase| ==> z.phase[t] == Told(e.phase[t], Or(e.id, events))
  {
    hide Wakes, Meets, WishOk, WakeFrom, Any, Or, Distinct;
    var x := e.(id := Or(e.id, events));
    WriteSorting(e, events);
    WakeFromIs(x, events, 0);
    hide Told, TaskOk;
    forall t | 0 <= t < |e.phase|
      ensures TaskOk(Told(e.phase[t], x.id), x.id)
    {
      ToldOk(e.phase[t], e.id, x.id);
    }
  }

  lemma ToldOk(p: Phase, id: bv32, id': bv32)
    requires TaskOk(p, id)
    ensures TaskOk(Told(p, id'), id')
  {
    hide Meets, WishOk;
  }

  lemma WriteSorting(e: Event, events: bv32)
    requires EventOk(e)
    ensures Sorting(e.(id := Or(e.id, events)), events, 0)
  {
    hide Wakes, Meets, WishOk, Or, Distinct;
    var x := e.(id := Or(e.id, events));
    ListedWaits(e);
    forall i | 0 <= i < |x.waiters|
      ensures Wakes(x.phase[x.waiters[i]].wish, events, x.id) <==> Meets(x.phase[x.waiters[i]].wish, x.id)
    {
      WakesIff(e.phase[e.waiters[i]].wish, e.id, events);
    }
  }

  lemma PollKeeps(e: Event, w: Wish)
    requires EventOk(e)
    ensures EventOk(e.(id := Poll(e.id, w).1))
    ensures w.mask != 0 && Poll(e.id, w).0 == 0 ==> Poll(e.id, w).1 == e.id && !Meets(w, e.id)
  {
    if w.mask == 0 {
      NothingSeen(e.id, w.mode);
    } else {
      PollIff(e.id, w);
    }
    MinusIsAnd(e.id, w.mask);
    ClearKeeps(e, !w.mask);
    hide Poll, Meets, And, Minus, Distinct;
  }

  lemma NothingSeen(id: bv32, mode: bv32)
    ensures Poll(id, Wish(0, mode)) == (0, id)
  {
    hide Any;
    assert And(id, 0) == 0;
  }

  lemma ClearKeeps(e: Event, keep: bv32)
    requires EventOk(e)
    ensures EventOk(Clear(e, keep))
  {
    hide Meets, And, Distinct;
    forall t | 0 <= t < |e.phase|
      ensures TaskOk(e.phase[t], And(e.id, keep))
    {
      if e.phase[t].Waiting? {
        FewerBits(e.phase[t].wish, e.id, keep);
      }
    }
  }

  lemma ReadKeeps(e: Event, c: Call)
    requires EventOk(e) && CallOk(e, c)
    ensures EventOk(Read(e, c).0)
  {
    hide Poll, Meets, And, Minus;
    if WishOk(c.wish) {
      PollKeeps(e, c.wish);
      hide WishOk;
      assert c.task !in e.waiters || c.inInterrupt;
    }
  }

  lemma ReadResumeKeeps(e: Event, t: nat)
    requires EventOk(e) && t < |e.phase| && (e.phase[t].Woken? || e.phase[t] == Expired)
    ensures EventOk(ReadResume(e, t).0)
  {
    hide Poll, Meets, And, Minus, WishOk, Distinct;
    if e.phase[t].Woken? {
      assert TaskOk(e.phase[t], e.id);
      PollKeeps(e, e.phase[t].wish);
    }
  }

  lemma ExpireKeeps(e: Event, t: nat)
    requires EventOk(e) && t < |e.phase| && e.phase[t].Waiting?
    ensures EventOk(Expire(e, t))
  {
    hide Meets, And, WishOk, Distinct;
    WithoutIs(e.waiters, t);
  }

  // ---- Runs --------------------------------------------------------------------------------------

  datatype Step =
    | ReadStep(c: Call) | ResumeStep(t: nat) | WriteStep(events: bv32) | ClearStep(keep: bv32) | PollStep(w: Wish)
    | ExpireStep(t: nat)

  ghost predicate Enabled(e: Event, s: Step) {
    match s
    case ReadStep(c) => CallOk(e, c)
    case ResumeStep(t) => t < |e.phase| && (e.phase[t].Woken? || e.phase[t] == Expired)
    case WriteStep(_) => true
    case ClearStep(_) => true
    case PollStep(_) => true
    case ExpireStep(t) => t < |e.phase| && e.phase[t].Waiting? && e.phase[t].timed
  }

  function Do(e: Event, s: Step): Event
    requires EventOk(e) && Enabled(e, s)
  {
    match s
    case ReadStep(c) => Read(e, c).0
    case ResumeStep(t) => ReadResume(e, t).0
    case WriteStep(events) => Write(e, events).0
    case ClearStep(keep) => Clear(e, keep)
    case PollStep(w) => e.(id := Poll(e.id, w).1)
    case ExpireStep(t) => Expire(e, t)
  }

  lemma WriteKeeps(e: Event, events: bv32)
    requires EventOk(e)
    ensures EventOk(Write(e, events).0)
  {
    if !Any(events, LOS_ERRTYPE_ERROR) {
      WriteWakesIff(e, events);
    }
    hide EventOk, Any, Or;
  }

  lemma DoKeeps(e: Event, s: Step)
    requires EventOk(e) && Enabled(e, s)
    ensures EventOk(Do(e, s))
  {
    hide EventOk, Read, ReadResume, Write, Clear, Poll, Expire, WishOk;
    match s
    case ReadStep(c) => ReadKeeps(e, c);
    case ResumeStep(t) => ReadResumeKeeps(e, t);
    case WriteStep(events) =>
      WriteKeeps(e, events);
    case ClearStep(keep) => ClearKeeps(e, keep);
    case PollStep(w) => PollKeeps(e, w);
    case ExpireStep(t) => ExpireKeeps(e, t);
  }

  ghost predicate StepOf(e: Event, s: Step, z: Event) {
    EventOk(e) ==> Enabled(e, s) && z == Do(e, s)
  }

  ghost predicate IsRun(run: seq<Event>, steps: seq<Step>) {
    && |run| == |steps| + 1
    && forall i :: 0 <= i < |steps| ==> StepOf(run[i], steps[i], run[i + 1])
  }

  lemma {:induction false} RunOk(run: seq<Event>, steps: seq<Step>, k: nat)
    requires IsRun(run, steps) && EventOk(run[0]) && k < |run|
    ensures EventOk(run[k])
  {
    hide EventOk, Do, Enabled;
    if k > 0 {
      RunOk(run, steps, k - 1);
      assert StepOf(run[k - 1], steps[k - 1], run[k]);
      DoKeeps(run[k - 1], steps[k - 1]);
    }
  }

  // In no reachable state does a task wait for what is already there.
  lemma NoLostWakeUp(run: seq<Event>, steps: seq<Step>, k: nat, t: nat, tasks: nat)
    requires IsRun(run, steps) && run[0] == Event(0, [], seq(tasks, i => Outside)) && k < |run|
    requires t < |run[k].phase| && run[k].phase[t].Waiting?
    ensures WishOk(run[k].phase[t].wish) && !Meets(run[k].phase[t].wish, run[k].id)
  {
    hide Meets, WishOk;
    RunOk(run, steps, k);
  }

  // Two tasks woken for the same bits that both clear them: the first to run takes the bits, the
  // second returns without any, and with no error.
  lemma WokenForNothing(e: Event, t: nat, u: nat)
    requires EventOk(e) && t < |e.phase| && u < |e.phase| && t != u && e.phase[t].Woken? && e.phase[u].Woken?
    requires e.phase[t].wish.mask == e.phase[u].wish.mask && Any(e.phase[t].wish.mode, LOS_WAITMODE_CLR)
    requires Meets(e.phase[t].wish, e.id)
    ensures ReadResume(e, t).1.Bits? && ReadResume(e, t).1.bits != 0
    ensures ReadResume(ReadResume(e, t).0, u).1 == Bits(0)
  {
    var w, v := e.phase[t].wish, e.phase[u].wish;
    assert TaskOk(e.phase[t], e.id) && TaskOk(e.phase[u], e.id);
    ClearedBits(w, v, e.id);
    PollIff(e.id, w);
    PollIff(Poll(e.id, w).1, v);
    hide Poll, Meets, WishOk, Any;
  }

  // ---- What a woken reader finds -------------------------------------------------------------------

  // The flags a poll takes away.
  function Polled(id: bv32, w: Wish): bv32 {
    if w.mask != 0 && Meets(w, id) && Any(w.mode, LOS_WAITMODE_CLR) then w.mask else 0
  }

  // The flags a step takes away, and those it sets.
  function Clears(e: Event, s: Step): bv32 {
    match s
    case ReadStep(c) => if WishOk(c.wish) && !c.inInterrupt then Polled(e.id, c.wish) else 0
    case ResumeStep(t) => if t < |e.phase| && e.phase[t].Woken? then Polled(e.id, e.phase[t].wish) else 0
    case ClearStep(keep) => !keep
    case PollStep(w) => Polled(e.id, w)
    case _ => 0
  }

  function Sets(s: Step): bv32 {
    if s.WriteStep? && !Any(s.events, LOS_ERRTYPE_ERROR) then s.events else 0
  }

  // The flags set from step i up to step k.
  function Written(steps: seq<Step>, i: nat, k: nat): bv32
    requires i <= k <= |steps|
    decreases k
  {
    if k == i then 0 else Or(Written(steps, i, k - 1), Sets(steps[k - 1]))
  }

  // The flags taken away since step i that have not been set again by step k.
  function Gone(run: seq<Event>, steps: seq<Step>, i: nat, k: nat): bv32
    requires i <= k <= |steps| && |run| == |steps| + 1
    decreases k
  {
    if k == i then 0
    else Minus(Or(Gone(run, steps, i, k - 1), Clears(run[k - 1], steps[k - 1])), Sets(steps[k - 1]))
  }

  lemma NoChange(id: bv32)
    ensures Or(Minus(id, 0), 0) == id && Minus(Or(id, 0), 0) == id
  {
  }

  lemma OnlyClears(id: bv32, mask: bv32)
    ensures Or(Minus(id, mask), 0) == Minus(id, mask) && Or(Minus(id, !mask), 0) == And(id, mask)
  {
  }

  lemma OnlySets(id: bv32, mask: bv32)
    ensures Or(Minus(id, 0), mask) == Or(id, mask)
  {
  }

  lemma PollFlags(id: bv32, w: Wish)
    ensures Poll(id, w).1 == Or(Minus(id, Polled(id, w)), 0)
  {
    NoChange(id);
    OnlyClears(id, w.mask);
    if w.mask == 0 {
      NothingSeen(id, w.mode);
    } else {
      PollIff(id, w);
    }
    hide Poll, Meets, Minus, Or, Any;
  }

  lemma WishHasMask(w: Wish)
    ensures WishOk(w) ==> w.mask != 0 && !Any(w.mask, LOS_ERRTYPE_ERROR)
  {
    hide Any;
  }

  lemma StepFlags(e: Event, s: Step)
    requires EventOk(e) && Enabled(e, s)
    ensures Do(e, s).id == Or(Minus(e.id, Clears(e, s)), Sets(s))
  {
    hide EventOk, Poll, Polled, Minus, And, Or, Any, WishOk, Read, ReadResume, Write;
    NoChange(e.id);
    match s
    case ReadStep(c) => ReadFlags(e, c);
    case ResumeStep(t) => ResumeFlags(e, t);
    case WriteStep(events) => WriteFlags(e, events);
    case ClearStep(keep) => OnlyClears(e.id, keep);
    case PollStep(w) => PollFlags(e.id, w);
    case ExpireStep(t) =>
  }

  lemma ReadFlags(e: Event, c: Call)
    requires EventOk(e) && CallOk(e, c)
    ensures Read(e, c).0.id == Or(Minus(e.id, if WishOk(c.wish) && !c.inInterrupt then Polled(e.id, c.wish) else 0), 0)
  {
    hide EventOk, Poll, Polled, Minus, And, Or, Any, WishOk;
    NoChange(e.id);
    PollFlags(e.id, c.wish);
    WishHasMask(c.wish);
  }

  lemma ResumeFlags(e: Event, t: nat)
    requires t < |e.phase| && (e.phase[t].Woken? || e.phase[t] == Expired)
    ensures ReadResume(e, t).0.id ==
            Or(Minus(e.id, if e.phase[t].Woken? then Polled(e.id, e.phase[t].wish) else 0), 0)
  {
    hide Poll, Polled, Minus, And, Or, Any;
    NoChange(e.id);
    if e.phase[t].Woken? {
      PollFlags(e.id, e.phase[t].wish);
    }
  }

  lemma WriteFlags(e: Event, events: bv32)
    requires EventOk(e)
    ensures Write(e, events).0.id == Or(Minus(e.id, 0), Sets(WriteStep(events)))
  {
    hide EventOk, Minus, Or, Any, WakeFrom;
    NoChange(e.id);
    OnlySets(e.id, events);
    if Write(e, events).1 {
      WriteWakesIff(e, events);
    }
  }

  lemma OrAssociates(a: bv32, b: bv32, c: bv32)
    ensures Or(a, Or(b, c)) == Or(Or(a, b), c)
  {
  }

  lemma MinusTwice(x: bv32, g: bv32, c: bv32)
    ensures Minus(Minus(x, g), c) == Minus(x, Or(g, c))
  {
  }

  lemma SetAgainBits(x: bv32, h: bv32, s: bv32, y: bv32, o: bv32, g: bv32)
    requires y == x & !h && o == x | s && g == h & !s
    ensures y | s == o & !g
  {
  }

  lemma SetAgain(x: bv32, h: bv32, s: bv32)
    ensures Or(Minus(x, h), s) == Minus(Or(x, s), Minus(h, s))
  {
    SetAgainBits(x, h, s, Minus(x, h), Or(x, s), Minus(h, s));
  }

  lemma AccumulatedFlags(id: bv32, w: bv32, g: bv32, c: bv32, s: bv32)
    ensures Or(Minus(Minus(Or(id, w), g), c), s) == Minus(Or(id, Or(w, s)), Minus(Or(g, c), s))
  {
    OrAssociates(id, w, s);
    MinusTwice(Or(id, w), g, c);
    SetAgain(Or(id, w), Or(g, c), s);
    hide Or, Minus;
  }

  // The flags at step k are those of step i and all that were written since, but for those gone.
  lemma {:induction false} FlagsOverRun(run: seq<Event>, steps: seq<Step>, i: nat, k: nat)
    requires IsRun(run, steps) && EventOk(run[0]) && i <= k <= |steps|
    ensures run[k].id == Minus(Or(run[i].id, Written(steps, i, k)), Gone(run, steps, i, k))
    decreases k
  {
    hide EventOk, Do, Enabled, Or, Minus, Clears, Sets;
    if k == i {
      NoChange(run[i].id);
    } else {
      FlagsOverRun(run, steps, i, k - 1);
      RunOk(run, steps, k - 1);
      assert StepOf(run[k - 1], steps[k - 1], run[k]);
      StepFlags(run[k - 1], steps[k - 1]);
      AccumulatedFlags(run[i].id, Written(steps, i, k - 1), Gone(run, steps, i, k - 1),
                       Clears(run[k - 1], steps[k - 1]), Sets(steps[k - 1]));
    }
  }

  // A waiter is woken only when its wish is met, and keeps its wish until it runs.
  lemma WokenMeets(e: Event, s: Step, t: nat)
    requires EventOk(e) && Enabled(e, s) && t < |e.phase| == |Do(e, s).phase| && Do(e, s).phase[t].Woken?
    ensures e.phase[t].Waiting? ==> Meets(Do(e, s).phase[t].wish, Do(e, s).id)
    ensures e.phase[t].Woken? ==> Do(e, s).phase[t] == e.phase[t]
  {
    hide Poll, Meets, WishOk, WakeFrom, Any, Or, And, Minus, Distinct;
    if s.WriteStep? && Write(e, s.events).1 {
      WriteWakesIff(e, s.events);
    }
  }

  lemma {:induction false} WokenStays(run: seq<Event>, steps: seq<Step>, i: nat, k: nat, t: nat)
    requires IsRun(run, steps) && EventOk(run[0]) && i <= k < |run|
    requires forall x :: i <= x <= k ==> t < |run[x].phase| && run[x].phase[t].Woken?
    ensures run[k].phase[t] == run[i].phase[t]
    decreases k
  {
    hide EventOk, Do, Enabled;
    if i < k {
      WokenStays(run, steps, i, k - 1, t);
      RunOk(run, steps, k - 1);
      assert StepOf(run[k - 1], steps[k - 1], run[k]);
      DoSize(run[k - 1], steps[k - 1]);
      WokenMeets(run[k - 1], steps[k - 1], t);
    }
  }

  lemma DoSize(e: Event, s: Step)
    requires EventOk(e) && Enabled(e, s)
    ensures |Do(e, s).phase| == |e.phase|
  {
    hide Poll, Meets, WishOk, WakeFrom, Any, Or, And, Minus, Distinct;
    if s.WriteStep? && Write(e, s.events).1 {
      WriteWakesIff(e, s.events);
    }
  }

  lemma MoreOfAll(id: bv32, w: bv32, mask: bv32)
    requires And(id, mask) == mask
    ensures And(Or(id, w), mask) == mask
  {
  }

  lemma AndSwaps(x: bv32, k: bv32, mask: bv32)
    ensures And(And(x, k), mask) == And(And(x, mask), k)
  {
  }

  lemma MinusInside(x: bv32, g: bv32, mask: bv32)
    ensures And(Minus(x, g), mask) == Minus(And(x, mask), g)
  {
    AndSwaps(x, !g, mask);
    MinusIsAnd(x, g);
    MinusIsAnd(And(x, mask), g);
    hide Minus, And;
  }

  lemma NothingLost(mask: bv32, g: bv32)
    ensures Minus(mask, g) == mask <==> And(g, mask) == 0
  {
  }

  lemma AllLeft(id: bv32, w: bv32, g: bv32, mask: bv32)
    requires And(id, mask) == mask
    ensures And(Minus(Or(id, w), g), mask) == mask <==> And(g, mask) == 0
  {
    MoreOfAll(id, w, mask);
    MinusInside(Or(id, w), g, mask);
    NothingLost(mask, g);
    hide Or, Minus, And;
  }

  lemma SomeLeft(id: bv32, w: bv32, g: bv32, mask: bv32)
    requires And(id, mask) != 0 && And(g, mask) == 0
    ensures And(Minus(Or(id, w), g), mask) != 0
  {
  }

  lemma LeftMeets(w: Wish, id: bv32, written: bv32, g: bv32)
    requires WishOk(w) && Meets(w, id)
    ensures And(g, w.mask) == 0 ==> Meets(w, Minus(Or(id, written), g))
    ensures Any(w.mode, LOS_WAITMODE_AND) ==> (Meets(w, Minus(Or(id, written), g)) <==> And(g, w.mask) == 0)
  {
    hide And, Or, Minus;
    if Any(w.mode, LOS_WAITMODE_OR) {
      if And(g, w.mask) == 0 {
        SomeLeft(id, written, g, w.mask);
      }
    } else {
      AllLeft(id, written, g, w.mask);
    }
  }

  // A reader woken by step i that runs again at step k gets bits exactly when what was there or was
  // written, less what has been cleared since and not set again, meets its wish. If it waits for all
  // of its mask, that is exactly when none of the mask is gone; otherwise that is enough.
  lemma WokenGetsBitsIff(run: seq<Event>, steps: seq<Step>, i: nat, k: nat, t: nat)
    requires IsRun(run, steps) && EventOk(run[0]) && i < k < |steps| && steps[k] == ResumeStep(t)
    requires t < |run[i].phase| && run[i].phase[t].Waiting?
    requires forall x :: i < x <= k ==> t < |run[x].phase| && run[x].phase[t].Woken?
    ensures var (w, gone, o) := (run[k].phase[t].wish, Gone(run, steps, i + 1, k), ReadResume(run[k], t).1);
            && o.Bits?
            && (o.bits != 0 <==> Meets(w, Minus(Or(run[i + 1].id, Written(steps, i + 1, k)), gone)))
            && (Any(w.mode, LOS_WAITMODE_AND) ==> (o.bits != 0 <==> And(gone, w.mask) == 0))
            && (And(gone, w.mask) == 0 ==> o.bits != 0)
  {
    RunOk(run, steps, i);
    RunOk(run, steps, k);
    assert TaskOk(run[k].phase[t], run[k].id);
    var w := run[k].phase[t].wish;
    PollIff(run[k].id, w);
    hide EventOk, Do, Enabled, Or, Minus, And, Any, Gone, Written, Meets, Poll;
    assert StepOf(run[i], steps[i], run[i + 1]);
    DoSize(run[i], steps[i]);
    WokenMeets(run[i], steps[i], t);
    WokenStays(run, steps, i + 1, k, t);
    FlagsOverRun(run, steps, i + 1, k);
    LeftMeets(w, run[i + 1].id, Written(steps, i + 1, k), Gone(run, steps, i + 1, k));
  }

  lemma BothWoken(e: Event, w: Wish) returns (z: Event)
    requires EventOk(e) && e.id == 0 && WishOk(w) && |e.phase| >= 2
    requires e.phase[0] == Waiting(w, false) && e.phase[1] == Waiting(w, false)
    ensures z == Write(e, w.mask).0 && EventOk(z) && |z.phase| == |e.phase| && Meets(w, z.id)
    ensures z.phase[0] == Woken(w) && z.phase[1] == Woken(w)
  {
    WriteKeeps(e, w.mask);
    WriteWakesIff(e, w.mask);
    MaskMeets(w);
    z := Write(e, w.mask).0;
    hide WakeFrom, Meets, Or, And, Any, Distinct;
  }

  lemma Resumed(e: Event, t: nat) returns (z: Event)
    requires EventOk(e) && t < |e.phase| && (e.phase[t].Woken? || e.phase[t] == Expired)
    ensures z == ReadResume(e, t).0 && EventOk(z) && z.phase == e.phase[t := Outside]
  {
    ReadResumeKeeps(e, t);
    z := ReadResume(e, t).0;
    hide EventOk, Poll;
  }

  // Two tasks read the same mask from a fresh block, both clearing it; one write wakes both, and the
  // second to run gets nothing.
  lemma ReadForNothing(w: Wish, tasks: nat) returns (run: seq<Event>, steps: seq<Step>)
    requires WishOk(w) && Any(w.mode, LOS_WAITMODE_CLR) && tasks >= 2
    ensures |steps| == 5 && IsRun(run, steps) && run[0] == Event(0, [], seq(tasks, i => Outside))
    ensures steps[2] == WriteStep(w.mask) && steps[3] == ResumeStep(0) && steps[4] == ResumeStep(1)
    ensures |run[4].phase| == tasks && run[4].phase[1] == Woken(w) && ReadResume(run[4], 1).1 == Bits(0)
  {
    var e0 := Event(0, [], seq(tasks, i => Outside));
    assert EventOk(e0);
    hide EventOk, Read, Write, ReadResume, Meets, WishOk, Any;
    var c0, c1 := Call(0, w, LOS_WAIT_FOREVER, false, false), Call(1, w, LOS_WAIT_FOREVER, false, false);
    var e1 := BlockingRead(e0, c0);
    var e2 := BlockingRead(e1, c1);
    var e3 := BothWoken(e2, w);
    WokenForNothing(e3, 0, 1);
    var e4 := Resumed(e3, 0);
    var e5 := Resumed(e4, 1);
    run := [e0, e1, e2, e3, e4, e5];
    steps := [ReadStep(c0), ReadStep(c1), WriteStep(w.mask), ResumeStep(0), ResumeStep(1)];
  }

  // Reading flags of which none is set blocks.
  lemma BlockingRead(e: Event, c: Call) returns (z: Event)
    requires EventOk(e) && CallOk(e, c) && e.id == 0 && WishOk(c.wish)
    requires !c.inInterrupt && !c.locked && c.timeout == LOS_WAIT_FOREVER
    ensures z == Read(e, c).0 && EventOk(z) && z.id == 0
    ensures z.phase == e.phase[c.task := Waiting(c.wish, false)]
  {
    NoFlagsMeet(c.wish);
    PollKeeps(e, c.wish);
    PollIff(e.id, c.wish);
    ReadKeeps(e, c);
    z := Read(e, c).0;
    hide Poll, Meets, And, Any;
  }

  lemma NoFlagsMeet(w: Wish)
    requires w.mask != 0
    ensures !Meets(w, 0)
  {
  }

  lemma MaskMeets(w: Wish)
    requires w.mask != 0
    ensures Meets(w, Or(0, w.mask))
  {
  }

  // ---- The code ------------------------------------------------------------------------------------

  class EventBlock {
    const phase: array<Phase>   // per task
    var eventId: bv32           // uwEventID
    var eventList: seq<nat>     // stEventList

    ghost function View(): Event
      reads this, phase
    {
      Event(eventId, eventList, phase[..])
    }

    ghost predicate Valid()
      reads this, phase
    {
      EventOk(View())
    }

    // LOS_EventInit
    constructor (tasks: nat)
      ensures fresh(phase) && Valid() && View() == Event(0, [], seq(tasks, i => Outside))
    {
      phase := new Phase[tasks](i => Outside);
      eventId, eventList := 0, [];
      new;
      assert phase[..] == seq(tasks, i => Outside);
    }

    // LOS_EventPoll on the block's own flags, for any mask and mode.
    method EventPoll(w: Wish) returns (ret: bv32)
      requires Valid()
      modifies this`eventId
      ensures Valid() && (ret, eventId) == Poll(old(eventId), w)
    {
      hide Any, And, Minus, Meets, WishOk, Distinct;
      PollKeeps(View(), w);
      ret := 0;
      if Any(w.mode, LOS_WAITMODE_OR) {
        if 0 != And(eventId, w.mask) {
          ret := And(eventId, w.mask);
        }
      } else {
        if w.mask != 0 && w.mask == And(eventId, w.mask) {
          ret := And(eventId, w.mask);
        }
      }
      if ret != 0 && Any(LOS_WAITMODE_CLR, w.mode) {
        eventId := Minus(eventId, ret);
      }
    }

    // LOS_EventRead until it returns or blocks.
    method EventRead(c: Call) returns (o: Outcome)
      requires Valid() && CallOk(View(), c)
      modifies this, phase
      ensures Valid() && (View(), o) == Read(old(View()), c)
    {
      hide Any, And, Minus, Meets, Poll, Distinct, WishOk;
      ReadKeeps(View(), c);
      if c.wish.mask == 0 {
        return Error(MaskInvalid);
      }
      if Any(c.wish.mask, LOS_ERRTYPE_ERROR) {
        return Error(SetBitInvalid);
      }
      if !WishOk(c.wish) {
        return Error(FlagsInvalid);
      }
      if c.inInterrupt {
        return Error(ReadInInterrupt);
      }
      var ret := EventPoll(c.wish);
      if ret == 0 {
        if c.timeout == LOS_NO_WAIT {
          return Bits(0);
        }
        if c.locked {
          return Error(ReadInLock);
        }
        eventList := eventList + [c.task];
        phase[c.task] := Waiting(c.wish, c.timeout != LOS_WAIT_FOREVER);
        return Blocked;
      }
      o := Bits(ret);
    }

    // LOS_EventRead when the blocked task runs again.
    method EventReadResume(t: nat) returns (o: Outcome)
      requires Valid() && t < phase.Length && (phase[t].Woken? || phase[t] == Expired)
      modifies this`eventId, phase
      ensures Valid() && (View(), o) == ReadResume(old(View()), t)
      ensures o == Error(ReadTimeout) <==> old(phase[t]) == Expired
    {
      hide Any, And, Minus, Meets, Poll, Distinct, WishOk;
      ReadResumeKeeps(View(), t);
      if phase[t] == Expired {
        phase[t] := Outside;
        return Error(ReadTimeout);
      }
      assert TaskOk(View().phase[t], eventId);
      var w := phase[t].wish;
      var ret := EventPoll(w);
      phase[t] := Outside;
      o := Bits(ret);
    }

    // LOS_EventWrite
    method EventWrite(events: bv32) returns (ok: bool)
      requires Valid()
      modifies this, phase
      ensures Valid() && (View(), ok) == Write(old(View()), events)
    {
      hide Any, Or, Meets, Wakes, WishOk, Distinct;
      if Any(events, LOS_ERRTYPE_ERROR) {
        return false;
      }
      WriteWakesIff(View(), events);
      ghost var z := Write(View(), events).0;
      WriteSorting(View(), events);
      eventId := Or(eventId, events);
      var k := 0;
      while k < |eventList|
        invariant Sorting(View(), events, k)
        invariant z == WakeFrom(View(), events, k)
        decreases |eventList| - k
      {
        ghost var e := View();
        var t := eventList[k];
        if Wakes(phase[t].wish, events, eventId) {
          AwakeListed(e, k);
          AwakeSorting(e, events, k);
          eventList := eventList[..k] + eventList[k + 1..];
          phase[t] := Woken(phase[t].wish);
          assert View() == Awake(e, k);
        } else {
          StaysSorting(e, events, k);
          k := k + 1;
        }
      }
      ok := true;
    }

    // LOS_EventClear
    method EventClear(keep: bv32)
      requires Valid()
      modifies this`eventId
      ensures Valid() && View() == Clear(old(View()), keep)
    {
      ClearKeeps(View(), keep);
      eventId := And(eventId, keep);
    }
  }

  lemma StaysSorting(e: Event, events: bv32, k: nat)
    requires Sorting(e, events, k) && k < |e.waiters| && !Wakes(e.phase[e.waiters[k]].wish, events, e.id)
    ensures Sorting(e, events, k + 1)
  {
    hide Wakes, Meets;
  }
}

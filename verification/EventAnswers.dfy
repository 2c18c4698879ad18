// What a task is told by LOS_EventRead: at once, or when it has waited.

module EventAnswers {
  import opened Lists
  import opened Waits
  import opened Events

  // The bits a poll of these flags returns.
  function Seen(w: Wish, id: bv32): bv32 { if Meets(w, id) then And(id, w.mask) else 0 }

  // A proper read returns the bits it waits for exactly if they are there. Otherwise it blocks exactly if it
  // is willing to and may; without waiting it returns no bits.
  lemma ReadAnswers(e: Event, c: Call)
    requires EventOk(e) && CallOk(e, c)
    ensures var (z, o, w) := (Read(e, c).0, Read(e, c).1, c.wish);
            && (o == Error(MaskInvalid) <==> w.mask == 0)
            && (o == Error(SetBitInvalid) <==> w.mask != 0 && Any(w.mask, LOS_ERRTYPE_ERROR))
            && (o == Error(FlagsInvalid) <==> w.mask != 0 && !Any(w.mask, LOS_ERRTYPE_ERROR) && !WishOk(w))
            && (o == Error(ReadInInterrupt) <==> WishOk(w) && c.inInterrupt)
            && (WishOk(w) && !c.inInterrupt ==>
                  && (Meets(w, e.id) ==> o == Bits(Seen(w, e.id)) && o.bits != 0)
                  && (!Meets(w, e.id) && c.timeout == LOS_NO_WAIT ==> o == Bits(0))
                  && (o == Error(ReadInLock) <==> !Meets(w, e.id) && c.timeout != LOS_NO_WAIT && c.locked)
                  && (o == Blocked <==> !Meets(w, e.id) && c.timeout != LOS_NO_WAIT && !c.locked))
            && (if o == Blocked then
                  && z.id == e.id && z.waiters == e.waiters + [c.task]
                  && z.phase == e.phase[c.task := Waiting(w, c.timeout != LOS_WAIT_FOREVER)]
                else z.waiters == e.waiters && z.phase == e.phase && (!o.Bits? ==> z.id == e.id))
  {
    if c.wish.mask != 0 {
      PollIff(e.id, c.wish);
      WishHasMask(c.wish);
    } else {
      WishHasMask(c.wish);
    }
    hide EventOk, Poll, Meets, And, Any, WishOk, Minus;
  }

  // A write is refused exactly if it sets the bit that marks errors, and then changes nothing.
  lemma WriteAnswers(e: Event, events: bv32)
    requires EventOk(e)
    ensures Write(e, events).1 <==> !Any(events, LOS_ERRTYPE_ERROR)
    ensures !Write(e, events).1 ==> Write(e, events).0 == e
  {
    hide EventOk, Any, Or;
  }

  // ---- A blocked read, until its task runs again ---------------------------------------------

  // Task t reads in step i and is blocked, and runs again with step k.
  ghost predicate IsWait(run: seq<Event>, steps: seq<Step>, i: nat, k: nat, t: nat) {
    && i < k < |steps| && |run| == |steps| + 1
    && steps[i].ReadStep? && steps[i].c.task == t && CallOk(run[i], steps[i].c) && Read(run[i], steps[i].c).1 == Blocked
    && steps[k] == ResumeStep(t) && forall j :: i < j < k ==> steps[j] != ResumeStep(t)
  }

  // The wait of t ran out between steps i and k.
  ghost predicate ExpiredIn(steps: seq<Step>, i: nat, k: nat, t: nat)
    requires k <= |steps|
  {
    exists j :: i < j < k && steps[j] == ExpireStep(t)
  }

  // A write between steps i and k met the wish.
  ghost predicate MetIn(run: seq<Event>, steps: seq<Step>, i: nat, k: nat, w: Wish)
    requires k <= |steps| < |run|
  {
    exists j :: i < j < k && steps[j].WriteStep? && Meets(w, run[j + 1].id)
  }

  // Where a task stands that has been blocked and has not run since.
  predicate Stands(p: Phase, w: Wish, timed: bool, expired: bool) {
    if expired then timed && p == Expired else p == Waiting(w, timed) || p == Woken(w)
  }

  lemma StandsStep(e: Event, s: Step, t: nat, w: Wish, timed: bool, expired: bool)
    requires EventOk(e) && Enabled(e, s) && t < |e.phase| && Stands(e.phase[t], w, timed, expired) && s != ResumeStep(t)
    ensures |Do(e, s).phase| == |e.phase|
    ensures Stands(Do(e, s).phase[t], w, timed, expired || s == ExpireStep(t))
    ensures e.phase[t].Waiting? && Do(e, s).phase[t].Woken? ==> s.WriteStep? && Meets(w, Do(e, s).id)
  {
    hide Poll, Meets, WishOk, WakeFrom, Any, Or, And, Minus, Distinct, Without;
    if s.WriteStep? && Write(e, s.events).1 {
      WriteWakesIff(e, s.events);
    }
  }

  lemma {:induction false} Waited(run: seq<Event>, steps: seq<Step>, i: nat, k: nat, t: nat, x: nat)
    requires IsRun(run, steps) && EventOk(run[0]) && IsWait(run, steps, i, k, t) && i < x <= k
    ensures t < |run[x].phase|
    ensures Stands(run[x].phase[t], steps[i].c.wish, steps[i].c.timeout != LOS_WAIT_FOREVER, ExpiredIn(steps, i, x, t))
    ensures run[x].phase[t].Woken? ==> MetIn(run, steps, i, x, steps[i].c.wish)
    decreases x
  {
    hide EventOk, Do, Enabled, Meets, Read;
    RunOk(run, steps, x - 1);
    assert StepOf(run[x - 1], steps[x - 1], run[x]);
    var c := steps[i].c;
    if x == i + 1 {
      Begins(run[i], c);
    } else {
      Waited(run, steps, i, k, t, x - 1);
      StandsStep(run[x - 1], steps[x - 1], t, c.wish, c.timeout != LOS_WAIT_FOREVER, ExpiredIn(steps, i, x - 1, t));
    }
  }

  lemma Begins(e: Event, c: Call)
    requires EventOk(e) && Enabled(e, ReadStep(c)) && CallOk(e, c) && Read(e, c).1 == Blocked
    ensures Do(e, ReadStep(c)).phase == e.phase[c.task := Waiting(c.wish, c.timeout != LOS_WAIT_FOREVER)]
  {
    ReadAnswers(e, c);
    hide EventOk, Read;
  }

  // Over every run a read that blocked returns ReadTimeout exactly if its wait ran out; otherwise some write
  // met its wish, and it returns the bits that are there when it runs: those of its mask if they still meet
  // the wish, none if they do not. One that waits for ever never times out.
  lemma BlockedReadEnds(run: seq<Event>, steps: seq<Step>, i: nat, k: nat, t: nat)
    requires IsRun(run, steps) && EventOk(run[0]) && IsWait(run, steps, i, k, t)
    ensures t < |run[k].phase| && (run[k].phase[t].Woken? || run[k].phase[t] == Expired)
    ensures var (z, o, w) := (ReadResume(run[k], t).0, ReadResume(run[k], t).1, steps[i].c.wish);
            && run[k + 1] == z && z.phase[t] == Outside
            && (o == Error(ReadTimeout) <==> ExpiredIn(steps, i, k, t))
            && (steps[i].c.timeout == LOS_WAIT_FOREVER ==> o.Bits?)
            && (o != Error(ReadTimeout) ==> o == Bits(Seen(w, run[k].id)) && MetIn(run, steps, i, k, w))
            && (o == Error(ReadTimeout) ==> z.id == run[k].id)
  {
    hide EventOk, Do, Meets, Read, Seen, ExpiredIn, MetIn;
    RunOk(run, steps, k);
    assert StepOf(run[k], steps[k], run[k + 1]);
    Waited(run, steps, i, k, t, k);
    Ends(run[k], t, steps[i].c.wish, steps[i].c.timeout != LOS_WAIT_FOREVER, ExpiredIn(steps, i, k, t));
  }

  lemma Ends(e: Event, t: nat, w: Wish, timed: bool, expired: bool)
    requires EventOk(e) && Enabled(e, ResumeStep(t)) && t < |e.phase| && Stands(e.phase[t], w, timed, expired)
    ensures e.phase[t].Woken? || e.phase[t] == Expired
    ensures var (z, o) := ReadResume(e, t);
            && Do(e, ResumeStep(t)) == z && o == (if expired then Error(ReadTimeout) else Bits(Seen(w, e.id)))
            && (expired ==> timed && z.id == e.id)
  {
    assert TaskOk(e.phase[t], e.id);
    if e.phase[t].Woken? {
      WishHasMask(w);
      PollIff(e.id, w);
    }
    hide EventOk, Meets, And, Any, WishOk, Minus, Poll;
  }
}

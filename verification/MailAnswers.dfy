// What a task is told by osQueueMailAlloc: at once, or when it has waited.

module MailAnswers {
  import opened Waits
  import opened Lists
  import opened Membox
  import opened Mail

  // A call yields a block exactly if one is free. Otherwise it blocks exactly if it is willing to and may;
  // without waiting it yields nothing. An interrupt that is willing to wait yields nothing either way.
  lemma AllocAnswers(m: Mail, c: Call)
    requires MailOk(m) && CallOk(m, c)
    ensures var (z, o) := Alloc(m, c);
            if c.inInterrupt && c.timeout != LOS_NO_WAIT then z == m && o == Box(NULL)
            else
              && (o.Box? && o.box != NULL <==> m.free != [])
              && (o == Box(NULL) <==> m.free == [] && c.timeout == LOS_NO_WAIT)
              && (o == Blocked <==> m.free == [] && c.timeout != LOS_NO_WAIT)
              && (if o == Blocked then z.phase == m.phase[c.task := Waiting(c.timeout != LOS_WAIT_FOREVER)]
                  else z.phase == m.phase && z.waiters == m.waiters)
  {
    BoxIsBlock(m);
    hide GeometryOk, UserAddr, Q.Pended, Allocated, GivenOnce, Distinct;
  }

  // ---- A blocked allocation, until its task runs again ----------------------------------------

  // Task t asks for a block in step i and is blocked, and runs again with step k.
  ghost predicate IsWait(run: seq<Mail>, steps: seq<Step>, i: nat, k: nat, t: nat) {
    && i < k < |steps| && |run| == |steps| + 1
    && steps[i].AllocStep? && steps[i].c.task == t
    && MailOk(run[i]) && CallOk(run[i], steps[i].c) && Alloc(run[i], steps[i].c).1 == Blocked
    && steps[k] == ResumeStep(t) && forall j :: i < j < k ==> steps[j] != ResumeStep(t)
  }

  // The wait of t ran out between steps i and k.
  ghost predicate ExpiredIn(steps: seq<Step>, i: nat, k: nat, t: nat)
    requires k <= |steps|
  {
    exists j :: i < j < k && steps[j] == ExpireStep(t)
  }

  // Between steps i and k the block at this address was freed while t was the first that waited.
  ghost predicate FreedIn(run: seq<Mail>, steps: seq<Step>, i: nat, k: nat, t: nat, box: nat)
    requires k <= |steps| < |run|
  {
    exists j :: i < j < k && steps[j].FreeStep? && UserAddr(run[j].g, steps[j].b) == box
                && run[j].waiters != [] && run[j].waiters[0] == t
  }

  // Where a task stands that has been blocked and has not run since.
  predicate Stands(p: Phase, timed: bool, expired: bool) {
    if expired then timed && p == Expired else p == Waiting(timed) || p.Given?
  }

  lemma StandsStep(m: Mail, e: Step, t: nat, timed: bool, expired: bool)
    requires MailOk(m) && Enabled(m, e) && t < |m.phase| && Stands(m.phase[t], timed, expired) && e != ResumeStep(t)
    ensures |Do(m, e).phase| == |m.phase|
    ensures Stands(Do(m, e).phase[t], timed, expired || e == ExpireStep(t))
    ensures Do(m, e).phase[t].Given? ==>
              if m.phase[t].Given? then Do(m, e).phase[t] == m.phase[t]
              else e.FreeStep? && m.waiters != [] && m.waiters[0] == t
                   && Do(m, e).phase[t].box == UserAddr(m.g, e.b)
  {
    assert m.waiters != [] ==> m.waiters[0] in m.waiters;
    hide GeometryOk, UserAddr, Q.Pended, Allocated, GivenOnce, Distinct, Without, GivenTo;
  }

  lemma {:induction false} Waited(run: seq<Mail>, steps: seq<Step>, i: nat, k: nat, t: nat, x: nat)
    requires IsRun(run, steps) && IsWait(run, steps, i, k, t) && i < x <= k
    ensures t < |run[x].phase|
    ensures Stands(run[x].phase[t], steps[i].c.timeout != LOS_WAIT_FOREVER, ExpiredIn(steps, i, x, t))
    ensures run[x].phase[t].Given? ==> FreedIn(run, steps, i, x, t, run[x].phase[t].box)
    decreases x
  {
    hide MailOk, Do, Enabled, UserAddr;
    MailSafety(run, steps, x - 1);
    assert StepOf(run[x - 1], steps[x - 1], run[x]);
    var c := steps[i].c;
    if x == i + 1 {
      Begins(run[i], c);
    } else {
      Waited(run, steps, i, k, t, x - 1);
      StandsStep(run[x - 1], steps[x - 1], t, c.timeout != LOS_WAIT_FOREVER, ExpiredIn(steps, i, x - 1, t));
    }
  }

  lemma Begins(m: Mail, c: Call)
    requires MailOk(m) && Enabled(m, AllocStep(c)) && CallOk(m, c) && Alloc(m, c).1 == Blocked
    ensures Do(m, AllocStep(c)).phase == m.phase[c.task := Waiting(c.timeout != LOS_WAIT_FOREVER)]
  {
    AllocAnswers(m, c);
    hide MailOk, Alloc;
  }

  // Over every run an allocation that blocked yields nothing exactly if its wait ran out; otherwise it
  // yields the block that was freed when its task was the first that waited, which is allocated. One that
  // waits for ever always yields a block.
  lemma BlockedAllocEnds(run: seq<Mail>, steps: seq<Step>, i: nat, k: nat, t: nat)
    requires IsRun(run, steps) && IsWait(run, steps, i, k, t)
    ensures t < |run[k].phase| && (run[k].phase[t].Given? || run[k].phase[t] == Expired)
    ensures var (z, o) := AllocResume(run[k], t);
            && run[k + 1] == z && z.phase[t] == Outside && o.Box?
            && (o.box == NULL <==> ExpiredIn(steps, i, k, t))
            && (steps[i].c.timeout == LOS_WAIT_FOREVER ==> o.box != NULL)
            && (o.box != NULL ==> Allocated(z, o.box) && FreedIn(run, steps, i, k, t, o.box))
  {
    hide MailOk, Do, ExpiredIn, FreedIn, Allocated;
    MailSafety(run, steps, k);
    assert StepOf(run[k], steps[k], run[k + 1]);
    Waited(run, steps, i, k, t, k);
    Ends(run[k], t, steps[i].c.timeout != LOS_WAIT_FOREVER, ExpiredIn(steps, i, k, t));
  }

  lemma Ends(m: Mail, t: nat, timed: bool, expired: bool)
    requires MailOk(m) && Enabled(m, ResumeStep(t)) && t < |m.phase| && Stands(m.phase[t], timed, expired)
    ensures m.phase[t].Given? || m.phase[t] == Expired
    ensures var (z, o) := AllocResume(m, t);
            && Do(m, ResumeStep(t)) == z && o.Box? && (o.box == NULL <==> expired) && (expired ==> timed)
            && (!expired ==> m.phase[t] == Given(o.box) && Allocated(z, o.box))
  {
    BoxIsBlock(m);
    if m.phase[t].Given? {
      assert Allocated(m, m.phase[t].box);
      assert Allocated(AllocResume(m, t).0, m.phase[t].box);
    }
    hide GeometryOk, UserAddr, GivenOnce, Distinct;
  }
}

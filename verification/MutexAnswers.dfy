// What a task is told by the mutex calls, measured by its unmatched pends: at once, or when it has waited.

module MutexAnswers {
  import opened Waits
  import opened Lists
  import opened MutexModel
  import opened MutexLaws

  ghost predicate Usable(s: Sys, m: nat) {
    m < |s.mux| && s.mux[m].used
  }

  // Some task other than t holds mutex m.
  ghost predicate TakenFrom(s: Sys, m: nat, t: nat)
    requires m < |s.history|
  {
    exists u :: 0 <= u < |s.history[m].held| && u != t && s.history[m].held[u] > 0
  }

  // The unmatched pends are as before but for those on m, which are now held.
  ghost predicate OnlyHeld(s: Sys, z: Sys, m: nat, held: seq<nat>) {
    && |z.history| == |s.history|
    && forall n :: 0 <= n < |s.history| ==> z.history[n].held == if n == m then held else s.history[n].held
  }

  lemma TakenIff(s: Sys, m: nat, t: nat)
    requires SysOk(s) && m < |s.mux| && t < |s.prio|
    ensures |s.history| == |s.mux| && |s.history[m].held| == |s.prio|
    ensures TakenFrom(s, m, t) <==> s.mux[m].count > 0 && s.mux[m].owner != t
    ensures s.history[m].held[t] > 0 <==> Owns(s.mux[m], t)
  {
    var x, h := s.mux[m], s.history[m];
    assert MuxOk(x, h, |s.prio|);
    hide Inherits, WaitersOk, UnusedOk, Distinct;
    assert x.count > 0 ==> h.held[x.owner] == x.count;
  }

  // A pend is Ok exactly if it made the task hold the mutex once more, which it does exactly if nobody
  // else holds it. The task waits, behind the others, exactly if somebody does, it is willing to and may;
  // without waiting it never blocks. Nobody else's pends change.
  lemma PendAnswers(s: Sys, m: nat, c: Call)
    requires SysOk(s) && CallOk(s, c)
    ensures var (o, t) := (Pend(s, m, c).1, c.task);
            && |s.mux| == |s.history|
            && (o == Done(Invalid) <==> !Usable(s, m))
            && (Usable(s, m) && c.inInterrupt ==> o == Done(PendInInterrupt))
            && (Usable(s, m) && !c.inInterrupt ==>
                  && (o == Done(Ok) <==> !TakenFrom(s, m, t))
                  && (o == Done(Unavailable) <==> TakenFrom(s, m, t) && c.timeout == LOS_NO_WAIT)
                  && (o == Blocked <==> TakenFrom(s, m, t) && c.timeout != LOS_NO_WAIT && !c.locked))
            && (o == Blocked ==> Usable(s, m) && !c.inInterrupt)
  {
    hide Inherits, WaitersOk, UnusedOk, MuxOk, Grant, HoldsNone, Distinct;
    if m < |s.mux| {
      TakenIff(s, m, c.task);
      hide TakenFrom;
    }
  }

  lemma PendHolds(s: Sys, m: nat, c: Call)
    requires SysOk(s) && CallOk(s, c)
    ensures var (z, o, t) := (Pend(s, m, c).0, Pend(s, m, c).1, c.task);
            && |z.history| == |s.history|
            && (o == Done(Ok) ==> m < |s.history| && t < |s.history[m].held|)
            && OnlyHeld(s, z, m, if o == Done(Ok) then s.history[m].held[t := s.history[m].held[t] + 1]
                                 else if m < |s.history| then s.history[m].held else [])
  {
    hide Inherits, WaitersOk, UnusedOk, HoldsNone, Distinct;
    if m < |s.mux| {
      assert MuxOk(s.mux[m], s.history[m], |s.prio|);
    }
    hide MuxOk;
  }

  lemma PendPhases(s: Sys, m: nat, c: Call)
    requires SysOk(s) && CallOk(s, c)
    ensures var (z, o, t) := (Pend(s, m, c).0, Pend(s, m, c).1, c.task);
            && z.phase == (if o == Blocked then s.phase[t := Waiting(m, c.timeout != LOS_WAIT_FOREVER)] else s.phase)
            && |z.mux| == |s.mux|
            && (forall n :: 0 <= n < |s.mux| ==>
                  z.mux[n].waiters == if o == Blocked && n == m then s.mux[n].waiters + [t] else s.mux[n].waiters)
  {
    hide Inherits, WaitersOk, UnusedOk, HoldsNone, Distinct, MuxOk;
  }

  // A post is Ok exactly if the task holds the mutex; it then holds it once less, and only if it does not
  // hold it any more the longest waiter holds it once. Nobody else's pends change, and nothing does if the
  // post is refused.
  lemma PostAnswers(s: Sys, m: nat, c: Call)
    requires SysOk(s) && CallOk(s, c)
    ensures var (z, code, t) := (Post(s, m, c).0, Post(s, m, c).1, c.task);
            && |s.history| == |s.mux|
            && (code == Ok <==> Usable(s, m) && !c.inInterrupt && t < |s.history[m].held| && s.history[m].held[t] > 0)
            && (code == PendInInterrupt <==> Usable(s, m) && c.inInterrupt)
            && (code != Ok ==> z == s && (code == Invalid || code == PendInInterrupt))
            && (code == Ok ==>
                  var held := s.history[m].held[t := s.history[m].held[t] - 1];
                  if held[t] > 0 || s.mux[m].waiters == [] then OnlyHeld(s, z, m, held)
                  else s.mux[m].waiters[0] < |held| && OnlyHeld(s, z, m, held[s.mux[m].waiters[0] := 1]))
  {
    if m < |s.mux| {
      TakenIff(s, m, c.task);
      assert MuxOk(s.mux[m], s.history[m], |s.prio|);
      if s.mux[m].waiters != [] {
        assert s.mux[m].waiters[0] in s.mux[m].waiters;
      }
    }
    hide Inherits, WaitersOk, UnusedOk, HoldsNone, Distinct, TakenFrom;
  }

  // A mutex can be created exactly if a control block is unused, and then nobody holds it or waits for it;
  // one can be deleted exactly if it is in use, nobody holds it and nobody waits for it.
  lemma CreateDeleteAnswer(s: Sys, m: nat)
    requires SysOk(s)
    ensures var (z, code) := Create(s);
            && (code == Ok <==> exists n :: 0 <= n < |s.mux| && !s.mux[n].used)
            && (code != Ok ==> z == s && code == AllBusy)
            && (code == Ok ==>
                  && s.unused[0] < |s.mux| && !s.mux[s.unused[0]].used && |z.mux| == |s.mux|
                  && z.mux[s.unused[0]].used && z.mux[s.unused[0]].count == 0 && z.mux[s.unused[0]].waiters == []
                  && z == s.(mux := s.mux[s.unused[0] := z.mux[s.unused[0]]], unused := s.unused[1..]))
    ensures var (z, code) := Delete(s, m);
            && |s.history| == |s.mux|
            && (code == Invalid <==> !Usable(s, m))
            && (code == Ok <==> Usable(s, m) && s.mux[m].waiters == []
                                && forall u :: 0 <= u < |s.history[m].held| ==> s.history[m].held[u] == 0)
            && (code != Ok ==> z == s)
            && (code == Ok ==> z == s.(mux := s.mux[m := s.mux[m].(used := false)], unused := [m] + s.unused))
  {
    hide Inherits, WaitersOk, Distinct;
    assert s.unused != [] ==> s.unused[0] in s.unused;
    if m < |s.mux| {
      var x, h := s.mux[m], s.history[m];
      assert MuxOk(x, h, |s.prio|);
      assert x.count > 0 ==> h.held[x.owner] == x.count;
    }
  }

  // ---- A blocked pend, until its task runs again ---------------------------------------------

  // Task t pends on m in step i and is blocked, and runs again with step k.
  ghost predicate IsWait(run: seq<Sys>, steps: seq<Step>, i: nat, k: nat, m: nat, t: nat) {
    && i < k < |steps| && |run| == |steps| + 1
    && steps[i].PendStep? && steps[i].m == m && steps[i].c.task == t
    && SysOk(run[i]) && CallOk(run[i], steps[i].c) && Pend(run[i], m, steps[i].c).1 == Blocked
    && steps[k] == ResumeStep(t) && forall j :: i < j < k ==> steps[j] != ResumeStep(t)
  }

  // The wait of t ran out between steps i and k.
  ghost predicate ExpiredIn(steps: seq<Step>, i: nat, k: nat, t: nat)
    requires k <= |steps|
  {
    exists j :: i < j < k && steps[j] == ExpireStep(t)
  }

  ghost function Pends(s: Sys, m: nat, t: nat): nat {
    if m < |s.history| && t < |s.history[m].held| then s.history[m].held[t] else 0
  }

  // Where a task stands that pended on m and has not run since.
  ghost predicate Stands(s: Sys, m: nat, t: nat, timed: bool, expired: bool) {
    && t < |s.phase| && m < |s.mux|
    && (if expired then timed && s.phase[t] == Expired && Pends(s, m, t) == 0
        else (s.phase[t] == Waiting(m, timed) && Pends(s, m, t) == 0)
             || (s.phase[t] == Granted && Pends(s, m, t) == 1 && Owns(s.mux[m], t)))
  }

  lemma OwnerHolds(s: Sys, m: nat, t: nat)
    requires SysOk(s) && m < |s.mux| && t < |s.prio|
    ensures Pends(s, m, t) == if Owns(s.mux[m], t) then s.mux[m].count else 0
  {
    assert MuxOk(s.mux[m], s.history[m], |s.prio|);
  }

  // While it has not run, nothing a task does counts, whoever else's step it is.
  lemma StandsStep(s: Sys, e: Step, m: nat, t: nat, timed: bool, expired: bool)
    requires SysOk(s) && Enabled(s, e) && Stands(s, m, t, timed, expired) && e != ResumeStep(t)
    ensures Stands(Do(s, e), m, t, timed, expired || e == ExpireStep(t))
  {
    hide SysOk, Pend, Post, Expire, Create, Delete, Stands, Pends;
    match e
    case PendStep(n, c) => StandsPend(s, n, c, m, t, timed, expired);
    case PostStep(n, c) => StandsPost(s, n, c, m, t, timed, expired);
    case ExpireStep(u) => StandsExpire(s, u, m, t, timed, expired);
    case ResumeStep(u) => StandsElse(s, e, m, t, timed, expired);
    case PriSetStep(u, p) => StandsElse(s, e, m, t, timed, expired);
    case CreateStep => StandsCreate(s, m, t, timed, expired);
    case DeleteStep(n) => StandsDelete(s, n, m, t, timed, expired);
  }

  lemma StandsPend(s: Sys, n: nat, c: Call, m: nat, t: nat, timed: bool, expired: bool)
    requires SysOk(s) && CallOk(s, c) && !Wraps(s, n, c) && Stands(s, m, t, timed, expired)
    ensures Stands(Pend(s, n, c).0, m, t, timed, expired)
  {
    PendOkIff(s, n, c);
    PendHolds(s, n, c);
    PendPhases(s, n, c);
    PendAnswers(s, n, c);
    SizesAre(s);
    SizesAre(Pend(s, n, c).0);
    OwnerHolds(s, m, t);
    OwnerHolds(Pend(s, n, c).0, m, t);
    hide SysOk, Pend, TakenFrom;
  }

  lemma SizesAre(s: Sys)
    requires SysOk(s)
    ensures |s.phase| == |s.prio| && |s.history| == |s.mux|
    ensures forall m :: 0 <= m < |s.mux| ==> |s.history[m].held| == |s.prio|
  {
    forall m | 0 <= m < |s.mux|
      ensures |s.history[m].held| == |s.prio|
    {
      assert MuxOk(s.mux[m], s.history[m], |s.prio|);
    }
  }

  lemma PostPhases(s: Sys, m: nat, c: Call)
    requires SysOk(s) && CallOk(s, c)
    ensures var z := Post(s, m, c).0;
            && |z.mux| == |s.mux|
            && (z.phase == s.phase
                || (m < |s.mux| && s.mux[m].waiters != [] && s.mux[m].waiters[0] < |s.phase|
                    && z.phase == s.phase[s.mux[m].waiters[0] := Granted]
                    && s.phase[s.mux[m].waiters[0]].Waiting? && s.phase[s.mux[m].waiters[0]].mux == m
                    && Owns(z.mux[m], s.mux[m].waiters[0]) && z.mux[m].count == 1))
  {
    if m < |s.mux| && s.mux[m].waiters != [] {
      assert s.mux[m].waiters[0] in s.mux[m].waiters;
    }
    hide Inherits, UnusedOk, HoldsNone, Distinct, MuxOk;
  }

  lemma StandsPost(s: Sys, n: nat, c: Call, m: nat, t: nat, timed: bool, expired: bool)
    requires SysOk(s) && CallOk(s, c) && Stands(s, m, t, timed, expired)
    ensures Stands(Post(s, n, c).0, m, t, timed, expired)
  {
    PostOk(s, n, c);
    PostAnswers(s, n, c);
    PostPhases(s, n, c);
    SizesAre(s);
    SizesAre(Post(s, n, c).0);
    OwnerHolds(s, m, t);
    OwnerHolds(Post(s, n, c).0, m, t);
    hide SysOk, Post;
  }

  lemma StandsExpire(s: Sys, u: nat, m: nat, t: nat, timed: bool, expired: bool)
    requires SysOk(s) && u < |s.phase| && s.phase[u].Waiting? && s.phase[u].timed && Stands(s, m, t, timed, expired)
    ensures Stands(Expire(s, u), m, t, timed, expired || u == t)
  {
    hide MuxesOk, Inherits, UnusedOk, Without;
  }

  lemma StandsElse(s: Sys, e: Step, m: nat, t: nat, timed: bool, expired: bool)
    requires SysOk(s) && Enabled(s, e) && Stands(s, m, t, timed, expired) && e != ResumeStep(t)
    requires e.ResumeStep? || e.PriSetStep?
    ensures Stands(Do(s, e), m, t, timed, expired)
  {
    hide MuxesOk, Inherits, UnusedOk, WaitersOk;
  }

  lemma StandsCreate(s: Sys, m: nat, t: nat, timed: bool, expired: bool)
    requires SysOk(s) && Stands(s, m, t, timed, expired)
    ensures Stands(Create(s).0, m, t, timed, expired)
  {
    CreateDeleteAnswer(s, m);
    SizesAre(s);
    OwnerHolds(s, m, t);
    if s.mux[m].count > 0 {
      UsedIfHeld(s, m);
    }
    hide SysOk, Create, Delete;
  }

  lemma UsedIfHeld(s: Sys, m: nat)
    requires SysOk(s) && m < |s.mux| && s.mux[m].count > 0
    ensures s.mux[m].used
  {
    assert MuxOk(s.mux[m], s.history[m], |s.prio|);
  }

  lemma StandsDelete(s: Sys, n: nat, m: nat, t: nat, timed: bool, expired: bool)
    requires SysOk(s) && Stands(s, m, t, timed, expired)
    ensures Stands(Delete(s, n).0, m, t, timed, expired)
  {
    CreateDeleteAnswer(s, n);
    SizesAre(s);
    hide SysOk, Create, Delete;
  }

  lemma {:induction false} Waited(run: seq<Sys>, steps: seq<Step>, i: nat, k: nat, m: nat, t: nat, x: nat)
    requires IsRun(run, steps) && IsWait(run, steps, i, k, m, t) && i < x <= k
    ensures Stands(run[x], m, t, steps[i].c.timeout != LOS_WAIT_FOREVER, ExpiredIn(steps, i, x, t))
    decreases x
  {
    hide SysOk, Do, Enabled, Stands;
    RunOk(run, steps, x - 1);
    assert StepOf(run[x - 1], steps[x - 1], run[x]);
    if x == i + 1 {
      Begins(run[i], m, steps[i].c);
      PendIsDone(run[i], m, steps[i].c);
    } else {
      Waited(run, steps, i, k, m, t, x - 1);
      StandsStep(run[x - 1], steps[x - 1], m, t, steps[i].c.timeout != LOS_WAIT_FOREVER, ExpiredIn(steps, i, x - 1, t));
    }
  }

  lemma Begins(s: Sys, m: nat, c: Call)
    requires SysOk(s) && CallOk(s, c) && Pend(s, m, c).1 == Blocked
    ensures Stands(Pend(s, m, c).0, m, c.task, c.timeout != LOS_WAIT_FOREVER, false) && Pends(s, m, c.task) == 0
  {
    PendHolds(s, m, c);
    PendPhases(s, m, c);
    PendAnswers(s, m, c);
    SizesAre(s);
    TakenIff(s, m, c.task);
    OwnerHolds(s, m, c.task);
    hide SysOk, Pend, TakenFrom;
  }

  lemma PendIsDone(s: Sys, m: nat, c: Call)
    requires SysOk(s) && Enabled(s, PendStep(m, c))
    ensures CallOk(s, c) && Do(s, PendStep(m, c)) == Pend(s, m, c).0
  {
    hide SysOk, Pend;
  }

  // Over every run a pend that blocked returns Ok exactly if its task now holds the mutex, which it did not
  // when it pended, and then it is its owner; it returns Timeout exactly if its wait ran out. One that waits
  // for ever always returns Ok.
  lemma BlockedPendEnds(run: seq<Sys>, steps: seq<Step>, i: nat, k: nat, m: nat, t: nat)
    requires IsRun(run, steps) && IsWait(run, steps, i, k, m, t)
    ensures t < |run[k].phase| && m < |run[k + 1].mux|
    ensures var (z, code) := Resume(run[k], t);
            && run[k + 1] == z && (code == Ok || code == Timeout)
            && Pends(z, m, t) == (if code == Ok then Pends(run[i], m, t) + 1 else Pends(run[i], m, t))
            && (code == Ok <==> Owns(z.mux[m], t))
            && (code == Timeout <==> ExpiredIn(steps, i, k, t))
            && (steps[i].c.timeout == LOS_WAIT_FOREVER ==> code == Ok)
  {
    RunOk(run, steps, i);
    RunOk(run, steps, k);
    assert StepOf(run[k], steps[k], run[k + 1]);
    Waited(run, steps, i, k, m, t, k);
    Begins(run[i], m, steps[i].c);
    Ends(run[k], m, t, steps[i].c.timeout != LOS_WAIT_FOREVER, ExpiredIn(steps, i, k, t));
    hide SysOk, ExpiredIn, Stands, IsRun, Pend, Pends, Resume;
  }

  lemma Ends(s: Sys, m: nat, t: nat, timed: bool, expired: bool)
    requires SysOk(s) && Enabled(s, ResumeStep(t)) && Stands(s, m, t, timed, expired)
    ensures t < |s.phase| && m < |s.mux| && Do(s, ResumeStep(t)) == Resume(s, t).0 && |Resume(s, t).0.mux| == |s.mux|
    ensures var (z, code) := Resume(s, t);
            && code == (if expired then Timeout else Ok) && (expired ==> timed)
            && Pends(z, m, t) == (if expired then 0 else 1) && (Owns(z.mux[m], t) <==> !expired)
  {
    SizesAre(s);
    OwnerHolds(s, m, t);
    hide SysOk;
  }
}

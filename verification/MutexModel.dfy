// Mutexes: recursive locking, first-come hand-off, priority inheritance. The history (unmatched
// pends, priorities that pended during a tenure) is kept beside the control blocks.

module MutexModel {
  import opened Lists
  import opened Waits

  const UINT16: nat := 65536

  // What a task is doing about mutexes. Expired: its wait timed out, but it has not run since.
  datatype Phase = Outside | Waiting(mux: nat, timed: bool) | Granted | Expired

  // MUX_CB_S
  datatype Mux = Mux(used: bool, count: nat, owner: nat, saved: nat, waiters: seq<nat>)

  // Unmatched pends of every task, and the priorities of those that pended in this tenure.
  datatype History = History(held: seq<nat>, pended: seq<nat>)

  // plain[t]: since task t last held nothing it never held two mutexes, and nobody set its priority.
  datatype Sys = Sys(
    mux: seq<Mux>, unused: seq<nat>, prio: seq<nat>, phase: seq<Phase>, history: seq<History>, plain: seq<bool>)

  datatype Code = Ok | AllBusy | Invalid | Pended | PendInInterrupt | Unavailable | PendInLock | Timeout

  datatype Outcome = Blocked | Done(code: Code)

  datatype Call = Call(task: nat, timeout: nat, inInterrupt: bool, locked: bool)

  // The best (smallest) priority among p and those in L.
  function Best(p: nat, L: seq<nat>): (b: nat)
    ensures b <= p && (forall i :: 0 <= i < |L| ==> b <= L[i]) && (b == p || b in L)
  {
    if L == [] then p
    else
      var b := Best(p, L[..|L| - 1]);
      assert L == L[..|L| - 1] + [L[|L| - 1]];
      if L[|L| - 1] < b then L[|L| - 1] else b
  }

  // ---- The invariant ----------------------------------------------------------------------

  predicate Owns(x: Mux, t: nat) { x.count > 0 && x.owner == t }

  // The count is the owner's unmatched pends, nobody else has any; only a held mutex has waiters.
  ghost predicate MuxOk(x: Mux, h: History, tasks: nat) {
    && |h.held| == tasks && x.count < UINT16 && (x.count > 0 ==> x.owner < tasks)
    && (forall t :: 0 <= t < tasks ==> h.held[t] == if Owns(x, t) then x.count else 0)
    && (x.waiters != [] ==> x.count > 0) && x.owner !in x.waiters && Distinct(x.waiters)
    && (!x.used ==> x.count == 0)
  }

  // A blocked task waits in the list of exactly one mutex.
  ghost predicate WaitersOk(mux: seq<Mux>, phase: seq<Phase>) {
    (forall t :: 0 <= t < |phase| && phase[t].Waiting? ==> phase[t].mux < |mux|) &&
    forall m: nat, t: nat {:trigger t in mux[m].waiters} ::
      m < |mux| ==> (t in mux[m].waiters <==> t < |phase| && phase[t].Waiting? && phase[t].mux == m)
  }

  ghost predicate MuxesOk(mux: seq<Mux>, history: seq<History>, tasks: nat) {
    |history| == |mux| && forall m :: 0 <= m < |mux| ==> MuxOk(mux[m], history[m], tasks)
  }

  // The owner runs at the best of its own priority and those of the tasks that pended on it.
  ghost predicate Inherits(mux: seq<Mux>, history: seq<History>, prio: seq<nat>, plain: seq<bool>)
    requires |history| == |mux| && |plain| == |prio|
  {
    forall m :: 0 <= m < |mux| && mux[m].count > 0 && mux[m].owner < |prio| && plain[mux[m].owner] ==>
      && prio[mux[m].owner] == Best(mux[m].saved, history[m].pended)
      && OnlyOne(mux, m)
  }

  // The owner of m owns no other mutex.
  ghost predicate OnlyOne(mux: seq<Mux>, m: nat)
    requires m < |mux|
  {
    forall n :: 0 <= n < |mux| && n != m ==> !Owns(mux[n], mux[m].owner)
  }

  ghost predicate UnusedOk(unused: seq<nat>, mux: seq<Mux>) {
    Distinct(unused) && forall m: nat :: m in unused <==> m < |mux| && !mux[m].used
  }

  ghost predicate SysOk(s: Sys) {
    && |s.phase| == |s.plain| == |s.prio|
    && MuxesOk(s.mux, s.history, |s.prio|)
    && WaitersOk(s.mux, s.phase)
    && Inherits(s.mux, s.history, s.prio, s.plain)
    && UnusedOk(s.unused, s.mux)
  }

  // ---- The calls --------------------------------------------------------------------------

  ghost predicate HoldsNone(mux: seq<Mux>, t: nat) {
    forall m :: 0 <= m < |mux| ==> !Owns(mux[m], t)
  }

  // Task t gets mutex m, freshly or from the task that released it.
  ghost function Grant(s: Sys, m: nat, t: nat, waiters: seq<nat>): Sys
    requires m < |s.mux| == |s.history| && t < |s.prio| == |s.plain| && t < |s.history[m].held|
  {
    s.(mux := s.mux[m := s.mux[m].(count := 1, owner := t, saved := s.prio[t], waiters := waiters)],
       history := s.history[m := History(s.history[m].held[t := s.history[m].held[t] + 1], [])],
       plain := s.plain[t := HoldsNone(s.mux, t)])
  }

  ghost predicate CallOk(s: Sys, c: Call) {
    c.task < |s.phase| && (!c.inInterrupt ==> s.phase[c.task] == Outside)
  }

  ghost predicate Sized(s: Sys) {
    |s.plain| == |s.prio| && |s.history| == |s.mux|
  }

  // The task, the mutex and its owner, if there is one, exist.
  ghost predicate CanPend(s: Sys, m: nat, c: Call) {
    && Sized(s) && c.task < |s.phase| == |s.prio|
    && (m < |s.mux| ==> c.task < |s.history[m].held| && (s.mux[m].count > 0 ==> s.mux[m].owner < |s.prio|))
  }

  // LOS_MuxPend until it returns or blocks.
  ghost function Pend(s: Sys, m: nat, c: Call): (Sys, Outcome)
    requires CanPend(s, m, c)
  {
    if m >= |s.mux| || !s.mux[m].used then (s, Done(Invalid))
    else if c.inInterrupt then (s, Done(PendInInterrupt))
    else
      var (x, h, t) := (s.mux[m], s.history[m], c.task);
      if x.count == 0 then (Grant(s, m, t, x.waiters), Done(Ok))
      else if x.owner == t then
        (s.(mux := s.mux[m := x.(count := (x.count + 1) % UINT16)],
            history := s.history[m := h.(held := h.held[t := h.held[t] + 1])]), Done(Ok))
      else if c.timeout == LOS_NO_WAIT then (s, Done(Unavailable))
      else if c.locked then (s, Done(PendInLock))
      else
        (s.(mux := s.mux[m := x.(waiters := x.waiters + [t])],
            prio := if s.prio[x.owner] > s.prio[t] then s.prio[x.owner := s.prio[t]] else s.prio,
            phase := s.phase[t := Waiting(m, c.timeout != LOS_WAIT_FOREVER)],
            history := s.history[m := h.(pended := h.pended + [s.prio[t]])]), Blocked)
  }

  // The mutex after its owner's last post, without a new owner.
  ghost function Released(s: Sys, m: nat, t: nat): Sys
    requires m < |s.mux| == |s.history| && t < |s.prio| && t < |s.history[m].held| && s.history[m].held[t] > 0
  {
    s.(mux := s.mux[m := s.mux[m].(count := 0)], prio := s.prio[t := s.mux[m].saved],
       history := s.history[m := History(s.history[m].held[t := s.history[m].held[t] - 1], [])])
  }

  // LOS_MuxPost
  ghost function Post(s: Sys, m: nat, c: Call): (Sys, Code)
    requires SysOk(s) && CallOk(s, c)
  {
    if m >= |s.mux| || !s.mux[m].used then (s, Invalid)
    else if c.inInterrupt then (s, PendInInterrupt)
    else
      var (x, h, t) := (s.mux[m], s.history[m], c.task);
      if x.count == 0 || x.owner != t then (s, Invalid)
      else if x.count > 1 then
        (s.(mux := s.mux[m := x.(count := x.count - 1)],
            history := s.history[m := h.(held := h.held[t := h.held[t] - 1])]), Ok)
      else if x.waiters == [] then (Released(s, m, t), Ok)
      else
        assert x.waiters[0] in s.mux[m].waiters;
        var w := x.waiters[0];
        var granted := Grant(Released(s, m, t), m, w, x.waiters[1..]);
        (granted.(phase := granted.phase[w := Granted]), Ok)
  }

  // The tick handler takes a waiter whose time is up off the list.
  ghost function Expire(s: Sys, t: nat): Sys
    requires SysOk(s) && t < |s.phase| && s.phase[t].Waiting?
  {
    var m := s.phase[t].mux;
    s.(mux := s.mux[m := s.mux[m].(waiters := Without(s.mux[m].waiters, t))], phase := s.phase[t := Expired])
  }

  // LOS_MuxPend when the blocked task runs again.
  function Resume(s: Sys, t: nat): (Sys, Code)
    requires t < |s.phase|
  {
    (s.(phase := s.phase[t := Outside]), if s.phase[t] == Expired then Timeout else Ok)
  }

  // LOS_TaskPriSet
  function PriSet(s: Sys, t: nat, p: nat): Sys
    requires t < |s.prio| == |s.plain|
  {
    s.(prio := s.prio[t := p], plain := s.plain[t := false])
  }

  // LOS_MuxCreate: the first unused control block.
  ghost function Create(s: Sys): (Sys, Code)
    requires SysOk(s)
  {
    if s.unused == [] then (s, AllBusy)
    else
      assert s.unused[0] in s.unused;
      (s.(mux := s.mux[s.unused[0] := Mux(true, 0, |s.prio|, 0, [])], unused := s.unused[1..]), Ok)
  }

  // LOS_MuxDelete
  ghost function Delete(s: Sys, m: nat): (Sys, Code)
    requires SysOk(s)
  {
    if m >= |s.mux| || !s.mux[m].used then (s, Invalid)
    else if s.mux[m].waiters != [] || s.mux[m].count > 0 then (s, Pended)
    else (s.(mux := s.mux[m := s.mux[m].(used := false)], unused := [m] + s.unused), Ok)
  }

  // ---- What the calls keep ------------------------------------------------------------------

  // One control block and its history change.
  lemma OneMux(mux: seq<Mux>, history: seq<History>, tasks: nat, m: nat, x: Mux, h: History)
    requires MuxesOk(mux, history, tasks) && m < |mux| && MuxOk(x, h, tasks)
    ensures MuxesOk(mux[m := x], history[m := h], tasks)
  {
    hide MuxOk;
  }

  // Task t moves from one list to another, or to or from none.
  lemma MovedWaiter(mux: seq<Mux>, phase: seq<Phase>, m: nat, x: Mux, t: nat, p: Phase)
    requires WaitersOk(mux, phase) && m < |mux| && t < |phase|
    requires forall u: nat :: u != t ==> (u in x.waiters <==> u in mux[m].waiters)
    requires t in x.waiters <==> p.Waiting? && p.mux == m
    requires phase[t].Waiting? ==> phase[t].mux == m
    requires p.Waiting? ==> p.mux == m
    ensures WaitersOk(mux[m := x], phase[t := p])
  {
  }

  lemma SameWaiters(mux: seq<Mux>, phase: seq<Phase>, m: nat, x: Mux)
    requires WaitersOk(mux, phase) && m < |mux| && x.waiters == mux[m].waiters
    ensures WaitersOk(mux[m := x], phase)
  {
  }

  // The list of the mutex that task t waits for is the only one with t.
  lemma NotElsewhere(s: Sys, m: nat, t: nat)
    requires SysOk(s) && m < |s.mux| && t < |s.phase| && !(s.phase[t].Waiting? && s.phase[t].mux == m)
    ensures t !in s.mux[m].waiters
  {
  }

  lemma GrantInherits(s: Sys, m: nat, t: nat, waiters: seq<nat>)
    requires Sized(s) && Inherits(s.mux, s.history, s.prio, s.plain)
    requires m < |s.mux| && s.mux[m].count == 0 && t < |s.prio| && t < |s.history[m].held|
    ensures var z := Grant(s, m, t, waiters); Sized(z) && Inherits(z.mux, z.history, z.prio, z.plain)
  {
    hide Best;
    var z := Grant(s, m, t, waiters);
    assert Best(s.prio[t], []) == s.prio[t];
    forall n | 0 <= n < |z.mux| && z.mux[n].count > 0 && z.mux[n].owner < |z.prio| && z.plain[z.mux[n].owner]
      ensures z.prio[z.mux[n].owner] == Best(z.mux[n].saved, z.history[n].pended) && OnlyOne(z.mux, n)
    {
      if n != m {
        assert z.mux[n] == s.mux[n] && Owns(s.mux[n], z.mux[n].owner);
      }
    }
  }

  lemma ReleasedInherits(s: Sys, m: nat, t: nat)
    requires Sized(s) && Inherits(s.mux, s.history, s.prio, s.plain)
    requires m < |s.mux| && Owns(s.mux[m], t) && t < |s.prio| && t < |s.history[m].held| && s.history[m].held[t] > 0
    ensures var z := Released(s, m, t); Sized(z) && Inherits(z.mux, z.history, z.prio, z.plain)
  {
    hide Best;
    var z := Released(s, m, t);
    forall n | 0 <= n < |z.mux| && z.mux[n].count > 0 && z.mux[n].owner < |z.prio| && z.plain[z.mux[n].owner]
      ensures z.prio[z.mux[n].owner] == Best(z.mux[n].saved, z.history[n].pended) && OnlyOne(z.mux, n)
    {
      assert n != m && z.mux[n] == s.mux[n] && Owns(s.mux[n], z.mux[n].owner);
      assert s.plain[t] ==> OnlyOne(s.mux, m);
    }
  }

  // Counting a recursive pend or post changes no owner.
  lemma CountInherits(s: Sys, m: nat, x: Mux, h: History)
    requires Sized(s) && Inherits(s.mux, s.history, s.prio, s.plain) && m < |s.mux|
    requires s.mux[m].count > 0 && x.count > 0 && x.owner == s.mux[m].owner && x.saved == s.mux[m].saved
    requires h.pended == s.history[m].pended
    ensures Inherits(s.mux[m := x], s.history[m := h], s.prio, s.plain)
  {
    hide Best;
    var z := s.(mux := s.mux[m := x], history := s.history[m := h]);
    forall n | 0 <= n < |z.mux| && z.mux[n].count > 0 && z.mux[n].owner < |z.prio| && z.plain[z.mux[n].owner]
      ensures z.prio[z.mux[n].owner] == Best(z.mux[n].saved, z.history[n].pended) && OnlyOne(z.mux, n)
    {
      assert OnlyOne(s.mux, n);
      SameOwners(s.mux, m, x, n);
    }
  }

  lemma OtherOwner(mux: seq<Mux>, n: nat, m: nat)
    requires n < |mux| && m < |mux| && OnlyOne(mux, n) && mux[m].count > 0
    ensures n == m || mux[m].owner != mux[n].owner
  {
    assert n != m ==> !Owns(mux[m], mux[n].owner);
  }

  lemma SameOwners(mux: seq<Mux>, m: nat, x: Mux, n: nat)
    requires m < |mux| && n < |mux| && mux[m].owner == x.owner && (mux[m].count > 0 <==> x.count > 0)
    requires OnlyOne(mux, n)
    ensures OnlyOne(mux[m := x], n)
  {
    var z := mux[m := x];
    forall k | 0 <= k < |z| && k != n
      ensures !Owns(z[k], z[n].owner)
    {
      assert !Owns(mux[k], mux[n].owner);
    }
  }

  // A blocked pend raises the owner to the pending task's priority, if that is better.
  lemma BlockInherits(s: Sys, m: nat, waiters: seq<nat>, p: nat)
    requires Sized(s) && Inherits(s.mux, s.history, s.prio, s.plain)
    requires m < |s.mux| && s.mux[m].count > 0 && s.mux[m].owner < |s.prio|
    ensures var o := s.mux[m].owner;
            Inherits(s.mux[m := s.mux[m].(waiters := waiters)],
                     s.history[m := s.history[m].(pended := s.history[m].pended + [p])],
                     if s.prio[o] > p then s.prio[o := p] else s.prio, s.plain)
  {
    var x, o, h := s.mux[m].(waiters := waiters), s.mux[m].owner, s.history[m].(pended := s.history[m].pended + [p]);
    var z := s.(mux := s.mux[m := x], history := s.history[m := h],
                prio := if s.prio[o] > p then s.prio[o := p] else s.prio);
    BestAppend(s.mux[m].saved, s.history[m].pended, p);
    hide Best, OnlyOne;
    forall n | 0 <= n < |z.mux| && z.mux[n].count > 0 && z.mux[n].owner < |z.prio| && z.plain[z.mux[n].owner]
      ensures z.prio[z.mux[n].owner] == Best(z.mux[n].saved, z.history[n].pended) && OnlyOne(z.mux, n)
    {
      assert OnlyOne(s.mux, n);
      SameOwners(s.mux, m, x, n);
      OtherOwner(s.mux, n, m);
    }
  }

  lemma BestAppend(p: nat, L: seq<nat>, q: nat)
    ensures Best(p, L + [q]) == if q < Best(p, L) then q else Best(p, L)
  {
    assert (L + [q])[..|L|] == L;
  }

  lemma PriSetInherits(s: Sys, t: nat, p: nat)
    requires Sized(s) && Inherits(s.mux, s.history, s.prio, s.plain) && t < |s.prio|
    ensures Inherits(s.mux, s.history, s.prio[t := p], s.plain[t := false])
  {
    hide Best, OnlyOne;
  }

  // ---- Every call keeps the invariant ----------------------------------------------------------

  // A recursive pend at the largest count wraps the counter.
  ghost predicate Wraps(s: Sys, m: nat, c: Call)
    requires SysOk(s)
  {
    && m < |s.mux| && s.mux[m].used && !c.inInterrupt && Owns(s.mux[m], c.task) && s.mux[m].count + 1 == UINT16
  }

  lemma PendGrants(s: Sys, m: nat, c: Call)
    requires SysOk(s) && CallOk(s, c) && m < |s.mux| && s.mux[m].used && !c.inInterrupt && s.mux[m].count == 0
    ensures SysOk(Pend(s, m, c).0)
  {
    hide Best, Distinct;
    var x, t := s.mux[m], c.task;
    var z := Grant(s, m, t, x.waiters);
    GrantInherits(s, m, t, x.waiters);
    hide Inherits;
    OneMux(s.mux, s.history, |s.prio|, m, z.mux[m], z.history[m]);
    SameWaiters(s.mux, s.phase, m, z.mux[m]);
    SameUnused(s.unused, s.mux, m, z.mux[m]);
  }

  lemma SameUnused(unused: seq<nat>, mux: seq<Mux>, m: nat, x: Mux)
    requires UnusedOk(unused, mux) && m < |mux| && x.used == mux[m].used
    ensures UnusedOk(unused, mux[m := x])
  {
  }

  lemma PendRecurs(s: Sys, m: nat, c: Call)
    requires SysOk(s) && CallOk(s, c) && m < |s.mux| && s.mux[m].used && !c.inInterrupt && Owns(s.mux[m], c.task)
    requires s.mux[m].count + 1 < UINT16
    ensures SysOk(Pend(s, m, c).0)
  {
    hide Best, Distinct, Inherits;
    var x := s.mux[m].(count := s.mux[m].count + 1);
    var h := s.history[m].(held := s.history[m].held[c.task := s.history[m].held[c.task] + 1]);
    CountInherits(s, m, x, h);
    OneMux(s.mux, s.history, |s.prio|, m, x, h);
    SameWaiters(s.mux, s.phase, m, x);
    SameUnused(s.unused, s.mux, m, x);
  }

  lemma PendBlocks(s: Sys, m: nat, c: Call)
    requires SysOk(s) && CallOk(s, c) && Pend(s, m, c).1 == Blocked
    ensures SysOk(Pend(s, m, c).0)
  {
    hide Best, Inherits;
    var t := c.task;
    var x := s.mux[m].(waiters := s.mux[m].waiters + [t]);
    var h := s.history[m].(pended := s.history[m].pended + [s.prio[t]]);
    NotElsewhere(s, m, t);
    BlockInherits(s, m, x.waiters, s.prio[t]);
    OneMux(s.mux, s.history, |s.prio|, m, x, h);
    MovedWaiter(s.mux, s.phase, m, x, t, Waiting(m, c.timeout != LOS_WAIT_FOREVER));
    SameUnused(s.unused, s.mux, m, x);
  }

  // Pending keeps the invariant exactly when the count does not wrap.
  lemma PendOkIff(s: Sys, m: nat, c: Call)
    requires SysOk(s) && CallOk(s, c)
    ensures SysOk(Pend(s, m, c).0) <==> !Wraps(s, m, c)
  {
    hide Best, Inherits, Distinct, WaitersOk, UnusedOk;
    if Wraps(s, m, c) {
      WrapClears(s, m, c);
    } else if m < |s.mux| && s.mux[m].used && !c.inInterrupt {
      if s.mux[m].count == 0 {
        PendGrants(s, m, c);
      } else if s.mux[m].owner == c.task {
        PendRecurs(s, m, c);
      } else if c.timeout != LOS_NO_WAIT && !c.locked {
        PendBlocks(s, m, c);
      }
    }
  }

  // At the 65536th pend the count is zero although nothing was posted, and the mutex is free for
  // anybody: the next task that pends gets it while the first still has all its pends to post.
  lemma WrapBreaks(s: Sys, m: nat, c: Call, d: Call)
    requires SysOk(s) && CallOk(s, c) && Wraps(s, m, c) && CallOk(s, d) && d.task != c.task && !d.inInterrupt
    ensures var z := Pend(s, m, c).0;
            && z.mux[m].count == 0 && z.history[m].held[c.task] == UINT16
            && CanPend(z, m, d) && Pend(z, m, d).1 == Done(Ok)
            && Owns(Pend(z, m, d).0.mux[m], d.task)
            && Pend(z, m, d).0.history[m].held[c.task] == UINT16 && Pend(z, m, d).0.history[m].held[d.task] == 1
  {
    hide Best, Inherits, Distinct, WaitersOk, UnusedOk, HoldsNone;
    WrapClears(s, m, c);
    assert MuxOk(s.mux[m], s.history[m], |s.prio|);
  }

  lemma WrapClears(s: Sys, m: nat, c: Call)
    requires SysOk(s) && CallOk(s, c) && Wraps(s, m, c)
    ensures var z := Pend(s, m, c).0;
            && !SysOk(z) && z.mux[m].count == 0 && z.history[m].held[c.task] == UINT16
  {
    hide Best, Inherits, Distinct, WaitersOk, UnusedOk;
    var z := Pend(s, m, c).0;
    assert MuxOk(s.mux[m], s.history[m], |s.prio|);
    assert z.mux[m].count == 0 by {
      ZeroAfterWrap(s.mux[m].count);
    }
    assert !Owns(z.mux[m], c.task) && z.history[m].held[c.task] == UINT16;
    assert !MuxOk(z.mux[m], z.history[m], |s.prio|);
  }

  lemma ZeroAfterWrap(n: nat)
    requires n + 1 == UINT16
    ensures (n + 1) % UINT16 == 0
  {
  }

  lemma PostOk(s: Sys, m: nat, c: Call)
    requires SysOk(s) && CallOk(s, c)
    ensures SysOk(Post(s, m, c).0)
  {
    hide Best, Inherits, Distinct, WaitersOk, UnusedOk;
    if Post(s, m, c).1 == Ok {
      if s.mux[m].count > 1 {
        PostRecurs(s, m, c);
      } else if s.mux[m].waiters == [] {
        PostReleases(s, m, c);
      } else {
        PostHandsOver(s, m, c);
      }
    }
  }

  lemma PostRecurs(s: Sys, m: nat, c: Call)
    requires SysOk(s) && CallOk(s, c) && Post(s, m, c).1 == Ok && s.mux[m].count > 1
    ensures SysOk(Post(s, m, c).0)
  {
    hide Best, Distinct, Inherits;
    var x := s.mux[m].(count := s.mux[m].count - 1);
    var h := s.history[m].(held := s.history[m].held[c.task := s.history[m].held[c.task] - 1]);
    CountInherits(s, m, x, h);
    OneMux(s.mux, s.history, |s.prio|, m, x, h);
    SameWaiters(s.mux, s.phase, m, x);
    SameUnused(s.unused, s.mux, m, x);
  }

  lemma PostReleases(s: Sys, m: nat, c: Call)
    requires SysOk(s) && CallOk(s, c) && Post(s, m, c).1 == Ok && s.mux[m].count == 1 && s.mux[m].waiters == []
    ensures SysOk(Post(s, m, c).0)
  {
    hide Best, Distinct, Inherits;
    var z := Released(s, m, c.task);
    ReleasedInherits(s, m, c.task);
    OneMux(s.mux, s.history, |s.prio|, m, z.mux[m], z.history[m]);
    SameWaiters(s.mux, s.phase, m, z.mux[m]);
    SameUnused(s.unused, s.mux, m, z.mux[m]);
  }

  lemma PostHandsOver(s: Sys, m: nat, c: Call)
    requires SysOk(s) && CallOk(s, c) && Post(s, m, c).1 == Ok && s.mux[m].count == 1 && s.mux[m].waiters != []
    ensures SysOk(Post(s, m, c).0)
  {
    hide Best, Inherits;
    var x, w := s.mux[m], s.mux[m].waiters[0];
    assert w in s.mux[m].waiters;
    TailIs(x.waiters);
    ReleasedInherits(s, m, c.task);
    var r := Released(s, m, c.task);
    GrantInherits(r, m, w, x.waiters[1..]);
    var g := Grant(r, m, w, x.waiters[1..]);
    assert g.mux == s.mux[m := g.mux[m]] && g.history == s.history[m := g.history[m]];
    hide Distinct, UnusedOk, WaitersOk;
    OneMux(s.mux, s.history, |s.prio|, m, g.mux[m], g.history[m]);
    MovedWaiter(s.mux, s.phase, m, g.mux[m], w, Granted);
    SameUnused(s.unused, s.mux, m, g.mux[m]);
  }

  lemma ExpireOk(s: Sys, t: nat)
    requires SysOk(s) && t < |s.phase| && s.phase[t].Waiting?
    ensures SysOk(Expire(s, t))
  {
    hide Best, Inherits;
    var m := s.phase[t].mux;
    assert t in s.mux[m].waiters;
    WithoutIs(s.mux[m].waiters, t);
    var x := s.mux[m].(waiters := Without(s.mux[m].waiters, t));
    OneMux(s.mux, s.history, |s.prio|, m, x, s.history[m]);
    assert s.history[m := s.history[m]] == s.history;
    MovedWaiter(s.mux, s.phase, m, x, t, Expired);
    SameUnused(s.unused, s.mux, m, x);
    WaitersInherit(s, m, x.waiters);
  }

  lemma WaitersInherit(s: Sys, m: nat, waiters: seq<nat>)
    requires Sized(s) && Inherits(s.mux, s.history, s.prio, s.plain) && m < |s.mux|
    ensures Inherits(s.mux[m := s.mux[m].(waiters := waiters)], s.history, s.prio, s.plain)
  {
    hide Best;
    var x := s.mux[m].(waiters := waiters);
    var mux := s.mux[m := x];
    forall n | 0 <= n < |mux| && mux[n].count > 0 && mux[n].owner < |s.prio| && s.plain[mux[n].owner]
      ensures s.prio[mux[n].owner] == Best(mux[n].saved, s.history[n].pended) && OnlyOne(mux, n)
    {
      assert OnlyOne(s.mux, n);
      SameOwners(s.mux, m, x, n);
    }
  }

  lemma ResumeOk(s: Sys, t: nat)
    requires SysOk(s) && t < |s.phase| && !s.phase[t].Waiting?
    ensures SysOk(Resume(s, t).0)
  {
    hide Best, Inherits, MuxesOk, UnusedOk;
  }

  lemma PriSetOk(s: Sys, t: nat, p: nat)
    requires SysOk(s) && t < |s.prio|
    ensures SysOk(PriSet(s, t, p))
  {
    hide Best, Inherits, WaitersOk, UnusedOk, Distinct, MuxOk;
    PriSetInherits(s, t, p);
  }

  lemma IdleInherits(s: Sys, m: nat, x: Mux)
    requires Sized(s) && Inherits(s.mux, s.history, s.prio, s.plain) && m < |s.mux| && x.count == 0
    ensures Inherits(s.mux[m := x], s.history, s.prio, s.plain)
  {
    hide Best;
    var mux := s.mux[m := x];
    forall n | 0 <= n < |mux| && mux[n].count > 0 && mux[n].owner < |s.prio| && s.plain[mux[n].owner]
      ensures s.prio[mux[n].owner] == Best(mux[n].saved, s.history[n].pended) && OnlyOne(mux, n)
    {
      assert OnlyOne(s.mux, n);
    }
  }

  lemma CreateOk(s: Sys)
    requires SysOk(s)
    ensures SysOk(Create(s).0)
  {
    hide Best, Inherits;
    if s.unused != [] {
      var m, x := s.unused[0], Mux(true, 0, |s.prio|, 0, []);
      assert m in s.unused;
      TailIs(s.unused);
      IdleInherits(s, m, x);
      assert s.history[m := s.history[m]] == s.history;
      OneMux(s.mux, s.history, |s.prio|, m, x, s.history[m]);
      SameWaiters(s.mux, s.phase, m, x);
    }
  }

  lemma DeleteOk(s: Sys, m: nat)
    requires SysOk(s)
    ensures SysOk(Delete(s, m).0)
  {
    hide Best, Inherits;
    if Delete(s, m).1 == Ok {
      var x := s.mux[m].(used := false);
      IdleInherits(s, m, x);
      assert s.history[m := s.history[m]] == s.history;
      OneMux(s.mux, s.history, |s.prio|, m, x, s.history[m]);
      SameWaiters(s.mux, s.phase, m, x);
      ConsDistinct(m, s.unused);
    }
  }
}

// What priority inheritance is for: no task that waits for a mutex is more urgent than its owner. Exactly
// when the calls keep that, and two ways in which they do not.

module Inversion {
  import opened Waits
  import opened Lists
  import opened MutexModel
  import opened MutexLaws

  // ---- Served ------------------------------------------------------------------------------

  // A waiter waits for a mutex that another task holds.
  lemma WaiterHasOwner(s: Sys, t: nat)
    requires SysOk(s) && t < |s.phase| && s.phase[t].Waiting?
    ensures var m := s.phase[t].mux;
            && m < |s.mux| && s.mux[m].count > 0 && t in s.mux[m].waiters
            && s.mux[m].owner < |s.prio| && s.mux[m].owner != t
  {
    hide Inherits, UnusedOk, Best, Distinct;
    var m := s.phase[t].mux;
    assert t in s.mux[m].waiters;
    assert MuxOk(s.mux[m], s.history[m], |s.prio|);
  }

  // The owner of the mutex that t waits for.
  ghost function OwnerFor(s: Sys, t: nat): (o: nat)
    requires SysOk(s) && t < |s.phase| && s.phase[t].Waiting?
    ensures o < |s.prio| && o != t
  {
    WaiterHasOwner(s, t);
    s.mux[s.phase[t].mux].owner
  }

  // If t waits, the owner is at least as urgent.
  ghost predicate Served(s: Sys, t: nat)
    requires SysOk(s) && t < |s.phase|
  {
    s.phase[t].Waiting? ==> s.prio[OwnerFor(s, t)] <= s.prio[t]
  }

  ghost predicate AllServed(s: Sys)
    requires SysOk(s)
  {
    forall t :: 0 <= t < |s.phase| ==> Served(s, t)
  }

  // ---- When a call keeps it ----------------------------------------------------------------

  // Nobody who waits for a mutex of t other than m is more urgent than p.
  ghost predicate NoneAbove(s: Sys, t: nat, p: nat, m: nat)
    requires SysOk(s)
  {
    forall u :: 0 <= u < |s.phase| && s.phase[u].Waiting? && s.phase[u].mux != m && OwnerFor(s, u) == t ==>
      p <= s.prio[u]
  }

  lemma BlockedBy(s: Sys, m: nat, c: Call)
    requires SysOk(s) && CallOk(s, c) && Pend(s, m, c).1 == Blocked
    ensures m < |s.mux| && s.mux[m].count > 0 && s.mux[m].owner < |s.phase| && s.mux[m].owner != c.task
    ensures s.phase[c.task] == Outside && c.task < |s.prio|
  {
    hide Inherits, UnusedOk, Best, Distinct, WaitersOk;
    assert MuxOk(s.mux[m], s.history[m], |s.prio|);
  }

  // A blocked pend raises the owner. If the owner waits as well, whom it waits for must be as urgent as
  // the pending task already, for the raise is not passed on.
  ghost predicate PendServes(s: Sys, m: nat, c: Call)
    requires SysOk(s) && CallOk(s, c)
  {
    if Pend(s, m, c).1 == Blocked then
      BlockedBy(s, m, c);
      var o := s.mux[m].owner;
      s.phase[o].Waiting? ==> s.prio[OwnerFor(s, o)] <= s.prio[c.task]
    else true
  }

  // The last post of a tenure.
  ghost predicate Releases(s: Sys, m: nat, c: Call)
    requires SysOk(s) && CallOk(s, c)
  {
    Post(s, m, c).1 == Ok && s.mux[m].count == 1
  }

  lemma WaitersAre(s: Sys, m: nat)
    requires SysOk(s) && m < |s.mux|
    ensures forall u: nat :: u in s.mux[m].waiters <==> u < |s.phase| && s.phase[u].Waiting? && s.phase[u].mux == m
    ensures Distinct(s.mux[m].waiters)
    ensures s.mux[m].waiters != [] ==> s.mux[m].waiters[0] in s.mux[m].waiters
  {
    hide Inherits, UnusedOk, Best, Distinct;
    assert MuxOk(s.mux[m], s.history[m], |s.prio|);
  }

  // The last post hands over to the longest waiter. It must be the most urgent one, for it inherits
  // nothing; and the own priority of the old owner must do for those that wait for its other mutexes.
  ghost predicate PostServes(s: Sys, m: nat, c: Call)
    requires SysOk(s) && CallOk(s, c)
  {
    if Releases(s, m, c) then
      WaitersAre(s, m);
      && NoneAbove(s, c.task, s.mux[m].saved, m)
      && forall u :: u in s.mux[m].waiters ==> s.prio[s.mux[m].waiters[0]] <= s.prio[u]
    else true
  }

  ghost predicate PriServes(s: Sys, t: nat, p: nat)
    requires SysOk(s) && t < |s.phase|
  {
    NoneAbove(s, t, p, |s.mux|) && (s.phase[t].Waiting? ==> s.prio[OwnerFor(s, t)] <= p)
  }

  // The only calls that can leave a waiter behind a less urgent owner are the three above.
  ghost predicate Serves(s: Sys, e: Step)
    requires SysOk(s) && Enabled(s, e)
  {
    match e
    case PendStep(m, c) => PendServes(s, m, c)
    case PostStep(m, c) => PostServes(s, m, c)
    case PriSetStep(t, p) => PriServes(s, t, p)
    case _ => true
  }

  // ---- What the calls do to the tasks ---------------------------------------------------------

  // Held mutexes keep their owners, but for m.
  ghost predicate SameOwnersBut(s: Sys, z: Sys, m: nat) {
    && |z.mux| == |s.mux|
    && forall n :: 0 <= n < |s.mux| && n != m && s.mux[n].count > 0 ==> z.mux[n].owner == s.mux[n].owner
  }

  lemma PendTasks(s: Sys, m: nat, c: Call)
    requires SysOk(s) && CallOk(s, c)
    ensures var (z, o) := Pend(s, m, c);
            && |z.mux| == |s.mux| && SameOwnersBut(s, z, |s.mux|)
            && (o != Blocked ==> z.phase == s.phase && z.prio == s.prio)
            && (o == Blocked ==>
                  m < |s.mux| && c.task < |s.prio| &&
                  var q := s.mux[m].owner;
                  && q < |s.prio| && z.phase == s.phase[c.task := Waiting(m, c.timeout != LOS_WAIT_FOREVER)]
                  && z.prio == if s.prio[q] > s.prio[c.task] then s.prio[q := s.prio[c.task]] else s.prio)
  {
    hide Inherits, UnusedOk, Best, Distinct, WaitersOk, HoldsNone;
    if m < |s.mux| {
      assert MuxOk(s.mux[m], s.history[m], |s.prio|);
    }
  }

  lemma PostTasks(s: Sys, m: nat, c: Call)
    requires SysOk(s) && CallOk(s, c)
    ensures var z := Post(s, m, c).0;
            && |z.mux| == |s.mux|
            && (!Releases(s, m, c) ==> z.phase == s.phase && z.prio == s.prio && SameOwnersBut(s, z, |s.mux|))
            && (Releases(s, m, c) ==>
                  && m < |s.mux| && c.task < |s.prio| && s.mux[m].owner == c.task && s.phase[c.task] == Outside
                  && z.prio == s.prio[c.task := s.mux[m].saved] && SameOwnersBut(s, z, m)
                  && (s.mux[m].waiters == [] ==> z.phase == s.phase)
                  && (s.mux[m].waiters != [] ==>
                        && s.mux[m].waiters[0] < |s.phase| && z.mux[m].owner == s.mux[m].waiters[0]
                        && z.phase == s.phase[s.mux[m].waiters[0] := Granted]))
  {
    hide Inherits, UnusedOk, Best, Distinct, HoldsNone;
    if m < |s.mux| {
      assert MuxOk(s.mux[m], s.history[m], |s.prio|);
      if s.mux[m].waiters != [] {
        assert s.mux[m].waiters[0] in s.mux[m].waiters;
      }
    }
  }

  // ---- Exactly when ----------------------------------------------------------------------------

  // A step that changes no owner, no priority and nobody's wait keeps everybody served.
  lemma SameServed(s: Sys, z: Sys)
    requires SysOk(s) && SysOk(z) && AllServed(s) && SameOwnersBut(s, z, |s.mux|)
    requires z.prio == s.prio && |z.phase| == |s.phase|
    requires forall t :: 0 <= t < |z.phase| && z.phase[t].Waiting? ==> s.phase[t] == z.phase[t]
    ensures AllServed(z)
  {
    forall t | 0 <= t < |z.phase|
      ensures Served(z, t)
    {
      assert Served(s, t);
      if z.phase[t].Waiting? {
        WaiterHasOwner(s, t);
      }
    }
  }

  // Whoever waited goes on waiting behind the same owner.
  lemma SameOwnerFor(s: Sys, z: Sys, u: nat, m: nat)
    requires SysOk(s) && SysOk(z) && SameOwnersBut(s, z, m) && u < |s.phase| == |z.phase|
    requires s.phase[u].Waiting? && z.phase[u] == s.phase[u] && s.phase[u].mux != m
    ensures OwnerFor(z, u) == OwnerFor(s, u)
  {
    WaiterHasOwner(s, u);
  }

  lemma PendServesIff(s: Sys, m: nat, c: Call)
    requires SysOk(s) && CallOk(s, c) && !Wraps(s, m, c) && AllServed(s)
    ensures SysOk(Pend(s, m, c).0) && (AllServed(Pend(s, m, c).0) <==> PendServes(s, m, c))
  {
    var (z, o) := Pend(s, m, c);
    PendOkIff(s, m, c);
    PendTasks(s, m, c);
    hide SysOk, Pend, Wraps;
    if o == Blocked {
      BlockedBy(s, m, c);
      BlockedServes(s, z, m, c);
    } else {
      SameServed(s, z);
    }
  }

  lemma BlockedServes(s: Sys, z: Sys, m: nat, c: Call)
    requires SysOk(s) && CallOk(s, c) && Pend(s, m, c) == (z, Blocked) && SysOk(z) && AllServed(s)
    ensures AllServed(z) <==> PendServes(s, m, c)
  {
    PendTasks(s, m, c);
    BlockedBy(s, m, c);
    var t, q := c.task, s.mux[m].owner;
    hide SysOk, CallOk, Pend, SameOwnersBut;
    if s.phase[q].Waiting? {
      SameOwnerFor(s, z, q, |s.mux|);
      assert AllServed(z) ==> Served(z, q);
    }
    if PendServes(s, m, c) {
      forall u | 0 <= u < |z.phase|
        ensures Served(z, u)
      {
        assert Served(s, u);
        if u != t && s.phase[u].Waiting? {
          SameOwnerFor(s, z, u, |s.mux|);
        }
      }
    }
  }

  lemma PostServesIff(s: Sys, m: nat, c: Call)
    requires SysOk(s) && CallOk(s, c) && AllServed(s)
    ensures SysOk(Post(s, m, c).0) && (AllServed(Post(s, m, c).0) <==> PostServes(s, m, c))
  {
    var z := Post(s, m, c).0;
    PostOk(s, m, c);
    PostTasks(s, m, c);
    hide SysOk, Post;
    if Releases(s, m, c) {
      ReleaseServes(s, z, m, c);
    } else {
      SameServed(s, z);
    }
  }

  lemma ReleaseServes(s: Sys, z: Sys, m: nat, c: Call)
    requires SysOk(s) && CallOk(s, c) && Releases(s, m, c) && z == Post(s, m, c).0 && SysOk(z) && AllServed(s)
    ensures AllServed(z) <==> PostServes(s, m, c)
  {
    PostTasks(s, m, c);
    WaitersAre(s, m);
    var t, W := c.task, s.mux[m].waiters;
    hide SysOk, CallOk, Post, Releases, SameOwnersBut;
    forall u | 0 <= u < |s.phase| && s.phase[u].Waiting? && !(u in W)
      ensures z.phase[u] == s.phase[u] && OwnerFor(z, u) == OwnerFor(s, u)
    {
      SameOwnerFor(s, z, u, m);
    }
    forall u | 0 <= u < |s.phase| && u in W
      ensures u != W[0] ==> z.phase[u] == s.phase[u] && OwnerFor(z, u) == W[0]
    {
    }
    if AllServed(z) {
      forall u | 0 <= u < |s.phase| && s.phase[u].Waiting?
        ensures Served(z, u)
      {
      }
    }
    if PostServes(s, m, c) {
      forall u | 0 <= u < |z.phase|
        ensures Served(z, u)
      {
        assert Served(s, u);
      }
    }
  }

  lemma PriServesIff(s: Sys, t: nat, p: nat)
    requires SysOk(s) && t < |s.prio| && AllServed(s)
    ensures SysOk(PriSet(s, t, p)) && (AllServed(PriSet(s, t, p)) <==> PriServes(s, t, p))
  {
    var z := PriSet(s, t, p);
    PriSetOk(s, t, p);
    hide SysOk;
    forall u | 0 <= u < |s.phase| && s.phase[u].Waiting?
      ensures OwnerFor(z, u) == OwnerFor(s, u)
    {
      SameOwnerFor(s, z, u, |s.mux|);
    }
    if AllServed(z) {
      forall u | 0 <= u < |s.phase| && s.phase[u].Waiting?
        ensures Served(z, u)
      {
      }
    }
    if PriServes(s, t, p) {
      forall u | 0 <= u < |z.phase|
        ensures Served(z, u)
      {
        assert Served(s, u);
      }
    }
  }

  lemma OtherTasks(s: Sys, e: Step)
    requires SysOk(s) && Enabled(s, e) && (e.ExpireStep? || e.ResumeStep? || e.CreateStep? || e.DeleteStep?)
    ensures var z := Do(s, e);
            && SameOwnersBut(s, z, |s.mux|) && z.prio == s.prio && |z.phase| == |s.phase|
            && forall t :: 0 <= t < |z.phase| && z.phase[t].Waiting? ==> s.phase[t] == z.phase[t]
  {
    hide Inherits, Best, Distinct, HoldsNone, Without;
    if e.CreateStep? && s.unused != [] {
      assert s.unused[0] in s.unused;
      assert MuxOk(s.mux[s.unused[0]], s.history[s.unused[0]], |s.prio|);
      assert !s.mux[s.unused[0]].used && s.mux[s.unused[0]].count == 0;
    }
  }

  // Every step of every kind: all stay served exactly when the step says so.
  lemma ServedIff(s: Sys, e: Step)
    requires SysOk(s) && Enabled(s, e) && AllServed(s)
    ensures SysOk(Do(s, e)) && (AllServed(Do(s, e)) <==> Serves(s, e))
  {
    DoOk(s, e);
    match e
    case PendStep(m, c) => PendServesIff(s, m, c);
    case PostStep(m, c) => PostServesIff(s, m, c);
    case PriSetStep(t, p) => PriServesIff(s, t, p);
    case _ =>
      OtherTasks(s, e);
      hide SysOk, Do;
      SameServed(s, Do(s, e));
  }

  ghost predicate ServedAt(s: Sys) { SysOk(s) && AllServed(s) }

  ghost predicate ServesAt(s: Sys, e: Step) { SysOk(s) && Enabled(s, e) && Serves(s, e) }

  // Over every run that begins with nobody behind a less urgent owner: so it stays up to step k exactly
  // when each step up to k serves.
  lemma {:induction false} RunServedIff(run: seq<Sys>, steps: seq<Step>, k: nat)
    requires IsRun(run, steps) && ServedAt(run[0]) && k < |run|
    ensures (forall i :: 0 <= i <= k ==> ServedAt(run[i])) <==> (forall i :: 0 <= i < k ==> ServesAt(run[i], steps[i]))
  {
    hide SysOk, AllServed, Enabled, Serves, Do;
    if k > 0 {
      RunServedIff(run, steps, k - 1);
      assert StepOf(run[k - 1], steps[k - 1], run[k]);
      if ServedAt(run[k - 1]) {
        ServedIff(run[k - 1], steps[k - 1]);
      }
      hide ServedAt, ServesAt;
    }
  }

  // ---- Chains ------------------------------------------------------------------------------------

  // Each task of the chain waits for a mutex of the next.
  ghost predicate IsChain(s: Sys, chain: seq<nat>)
    requires SysOk(s)
  {
    && chain != [] && (forall i :: 0 <= i < |chain| ==> chain[i] < |s.phase|)
    && forall i :: 0 <= i < |chain| - 1 ==> s.phase[chain[i]].Waiting? && OwnerFor(s, chain[i]) == chain[i + 1]
  }

  // Then whoever is at the end of the chain is as urgent as the first.
  lemma {:induction false} ChainServed(s: Sys, chain: seq<nat>)
    requires SysOk(s) && AllServed(s) && IsChain(s, chain)
    ensures s.prio[chain[|chain| - 1]] <= s.prio[chain[0]]
  {
    hide SysOk;
    if |chain| > 1 {
      assert chain[..|chain| - 1][|chain| - 2] == chain[|chain| - 2];
      ChainServed(s, chain[..|chain| - 1]);
      assert Served(s, chain[|chain| - 2]);
    }
  }

  // ---- A hand-over that inverts --------------------------------------------------------------

  // Three tasks that do nothing with mutexes yet; v is more urgent than u.
  ghost predicate Three(s: Sys, a: nat, t: nat, u: nat, v: nat) {
    && SysOk(s) && a < |s.mux| && s.mux[a].used && s.mux[a].count == 0
    && t < |s.phase| && u < |s.phase| && v < |s.phase| && t != u && u != v && t != v
    && s.phase[t] == s.phase[u] == s.phase[v] == Outside && s.prio[v] < s.prio[u]
  }

  // t holds a, u waits for it, then v; t posts. Now u holds it, at its own priority, and v waits.
  lemma HandOverInverts(s: Sys, a: nat, t: nat, u: nat, v: nat) returns (run: seq<Sys>, steps: seq<Step>)
    requires Three(s, a, t, u, v)
    ensures IsRun(run, steps) && run[0] == s && |steps| == 4
    ensures steps == [PendStep(a, By(t)), PendStep(a, By(u)), PendStep(a, By(v)), PostStep(a, By(t))]
    ensures SysOk(run[4]) && v < |run[4].phase| && run[4].phase[v].Waiting? && OwnerFor(run[4], v) == u
    ensures run[4].prio[u] == s.prio[u] > s.prio[v] == run[4].prio[v]
  {
    hide SysOk, Pend, Post, CallOk;
    var x := TakesIt(s, a, t);
    var y := WaitsForIt(x, a, t, u);
    var z := WaitsForIt(y, a, t, v);
    var w := HandsItOver(z, a, t, u, v);
    run := [s, x, y, z, w];
    steps := [PendStep(a, By(t)), PendStep(a, By(u)), PendStep(a, By(v)), PostStep(a, By(t))];
    assert StepOf(run[0], steps[0], run[1]);
    assert StepOf(run[1], steps[1], run[2]);
    assert StepOf(run[2], steps[2], run[3]);
    assert StepOf(run[3], steps[3], run[4]);
  }

  lemma TakesIt(s: Sys, a: nat, t: nat) returns (z: Sys)
    requires SysOk(s) && a < |s.mux| && s.mux[a].used && s.mux[a].count == 0
    requires t < |s.phase| && s.phase[t] == Outside
    ensures StepOf(s, PendStep(a, By(t)), z) && SysOk(z) && |z.mux| == |s.mux| && z.phase == s.phase && z.prio == s.prio
    ensures z.mux[a] == Mux(true, 1, t, s.prio[t], [])
  {
    PendOkIff(s, a, By(t));
    z := Pend(s, a, By(t)).0;
    hide Inherits, Best, UnusedOk, HoldsNone, WaitersOk, Distinct;
    assert MuxOk(s.mux[a], s.history[a], |s.prio|);
  }

  // u has to wait for a, which t holds.
  lemma WaitsForIt(s: Sys, a: nat, t: nat, u: nat) returns (z: Sys)
    requires SysOk(s) && a < |s.mux| && s.mux[a].used && s.mux[a].count == 1 && s.mux[a].owner == t < |s.phase|
    requires u < |s.phase| && u != t && s.phase[u] == Outside
    ensures StepOf(s, PendStep(a, By(u)), z) && SysOk(z) && |z.mux| == |s.mux| && |z.prio| == |s.prio|
    ensures z.mux[a] == s.mux[a].(waiters := s.mux[a].waiters + [u])
    ensures z.phase == s.phase[u := Waiting(a, false)]
    ensures forall x :: 0 <= x < |s.prio| && x != t ==> z.prio[x] == s.prio[x]
  {
    PendOkIff(s, a, By(u));
    z := Pend(s, a, By(u)).0;
    hide Inherits, Best, UnusedOk, HoldsNone, WaitersOk, Distinct, MuxOk;
  }

  lemma HandsItOver(s: Sys, a: nat, t: nat, u: nat, v: nat) returns (z: Sys)
    requires SysOk(s) && a < |s.mux| && s.mux[a].used && s.mux[a].count == 1 && s.mux[a].owner == t < |s.phase|
    requires s.phase[t] == Outside && s.mux[a].waiters == [u, v] && u != v
    ensures StepOf(s, PostStep(a, By(t)), z) && SysOk(z) && |z.phase| == |s.phase| == |z.prio| == |s.prio|
    ensures v < |z.phase| && z.phase[v].Waiting? && OwnerFor(z, v) == u
    ensures u < |s.prio| && z.prio[u] == s.prio[u] && z.prio[v] == s.prio[v]
  {
    PostOk(s, a, By(t));
    z := Post(s, a, By(t)).0;
    PostTasks(s, a, By(t));
    WaitersAre(s, a);
    assert u in s.mux[a].waiters && v in s.mux[a].waiters;
    hide Inherits, Best, UnusedOk, HoldsNone, Distinct, WaitersOk, MuxOk;
  }
}

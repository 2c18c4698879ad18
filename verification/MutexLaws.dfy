// What whole runs of mutex calls mean.

module MutexLaws {
  import opened Waits
  import opened Lists
  import opened MutexModel

  datatype Step =
    | PendStep(m: nat, c: Call) | PostStep(m: nat, c: Call) | ExpireStep(t: nat) | ResumeStep(t: nat)
    | PriSetStep(t: nat, p: nat) | CreateStep | DeleteStep(m: nat)

  // The steps that can happen; only the wrap of the 16-bit count is ruled out.
  ghost predicate Enabled(s: Sys, e: Step)
    requires SysOk(s)
  {
    match e
    case PendStep(m, c) => CallOk(s, c) && !Wraps(s, m, c)
    case PostStep(m, c) => CallOk(s, c)
    case ExpireStep(t) => t < |s.phase| && s.phase[t].Waiting? && s.phase[t].timed
    case ResumeStep(t) => t < |s.phase| && (s.phase[t] == Granted || s.phase[t] == Expired)
    case PriSetStep(t, _) => t < |s.prio|
    case CreateStep => true
    case DeleteStep(_) => true
  }

  ghost function Do(s: Sys, e: Step): Sys
    requires SysOk(s) && Enabled(s, e)
  {
    match e
    case PendStep(m, c) => Pend(s, m, c).0
    case PostStep(m, c) => Post(s, m, c).0
    case ExpireStep(t) => Expire(s, t)
    case ResumeStep(t) => Resume(s, t).0
    case PriSetStep(t, p) => PriSet(s, t, p)
    case CreateStep => Create(s).0
    case DeleteStep(m) => Delete(s, m).0
  }

  lemma DoOk(s: Sys, e: Step)
    requires SysOk(s) && Enabled(s, e)
    ensures SysOk(Do(s, e)) && |Do(s, e).mux| == |s.mux| && |Do(s, e).prio| == |s.prio|
  {
    DoSizes(s, e);
    hide SysOk, Pend, Post, Expire, Resume, PriSet, Create, Delete;
    match e
    case PendStep(m, c) => PendOkIff(s, m, c);
    case PostStep(m, c) => PostOk(s, m, c);
    case ExpireStep(t) => ExpireOk(s, t);
    case ResumeStep(t) => ResumeOk(s, t);
    case PriSetStep(t, p) => PriSetOk(s, t, p);
    case CreateStep => CreateOk(s);
    case DeleteStep(m) => DeleteOk(s, m);
  }

  lemma DoSizes(s: Sys, e: Step)
    requires SysOk(s) && Enabled(s, e)
    ensures |Do(s, e).mux| == |s.mux| && |Do(s, e).prio| == |s.prio| && |Do(s, e).history| == |s.mux|
  {
    hide Inherits, HoldsNone, Without, Distinct;
    match e
    case PostStep(m, c) =>
      if m < |s.mux| && s.mux[m].waiters != [] {
        assert s.mux[m].waiters[0] in s.mux[m].waiters;
      }
    case CreateStep =>
      if s.unused != [] {
        assert s.unused[0] in s.unused;
      }
    case _ =>
  }

  ghost predicate StepOf(s: Sys, e: Step, z: Sys) {
    SysOk(s) ==> Enabled(s, e) && z == Do(s, e)
  }

  ghost predicate IsRun(run: seq<Sys>, steps: seq<Step>) {
    && |run| == |steps| + 1 && SysOk(run[0])
    && forall i :: 0 <= i < |steps| ==> StepOf(run[i], steps[i], run[i + 1])
  }

  lemma {:induction false} RunOk(run: seq<Sys>, steps: seq<Step>, k: nat)
    requires IsRun(run, steps) && k < |run|
    ensures SysOk(run[k]) && |run[k].mux| == |run[0].mux| && |run[k].prio| == |run[0].prio|
  {
    hide SysOk, Do, Enabled;
    if k > 0 {
      RunOk(run, steps, k - 1);
      assert StepOf(run[k - 1], steps[k - 1], run[k]);
      DoOk(run[k - 1], steps[k - 1]);
    }
  }

  // At every point of every run a mutex has at most one task with unmatched pends, its owner; the
  // count says how many; tasks wait only for held mutexes; and an owner of one mutex only runs at
  // the best priority of itself and those that pended on it.
  lemma MutexSafety(run: seq<Sys>, steps: seq<Step>, k: nat, m: nat)
    requires IsRun(run, steps) && k < |run| && m < |run[0].mux|
    ensures |run[k].mux| == |run[k].history| == |run[0].mux|
              && |run[k].history[m].held| == |run[0].prio| == |run[k].prio| == |run[k].plain|
    ensures var (x, h, s) := (run[k].mux[m], run[k].history[m], run[k]);
            && (forall t :: 0 <= t < |s.prio| && h.held[t] > 0 ==> x.count == h.held[t] && x.owner == t)
            && (x.waiters != [] ==> exists t :: 0 <= t < |s.prio| && h.held[t] > 0)
            && (x.count > 0 ==> x.owner < |s.prio| && h.held[x.owner] == x.count)
            && (x.count > 0 && s.plain[x.owner] ==> s.prio[x.owner] == Best(x.saved, h.pended))
  {
    RunOk(run, steps, k);
    hide IsRun, Best, WaitersOk, OnlyOne;
    var x, h := run[k].mux[m], run[k].history[m];
    assert MuxOk(x, h, |run[k].prio|);
    assert x.count > 0 ==> h.held[x.owner] == x.count;
  }

  // The last post of an owner hands the mutex to the task that waited longest, which then holds
  // it once; the old owner is back at its saved priority.
  lemma PostHandsToLongestWaiter(s: Sys, m: nat, c: Call)
    requires SysOk(s) && CallOk(s, c) && Post(s, m, c).1 == Ok && s.mux[m].count == 1
    ensures var (x, z, t) := (s.mux[m], Post(s, m, c).0, c.task);
            && t == x.owner && z.prio[t] == x.saved && t < |z.history[m].held| && z.history[m].held[t] == 0
            && (x.waiters == [] ==> z.mux[m].count == 0)
            && (x.waiters != [] ==>
                  var w := x.waiters[0];
                  && w < |s.phase| && z.mux[m] == Mux(true, 1, w, s.prio[w], x.waiters[1..])
                  && z.phase[w] == Granted && w < |z.history[m].held| && z.history[m].held[w] == 1)
  {
    hide Inherits, Best, UnusedOk, HoldsNone;
    assert MuxOk(s.mux[m], s.history[m], |s.prio|);
    if s.mux[m].waiters != [] {
      assert s.mux[m].waiters[0] in s.mux[m].waiters;
    }
  }

  // ---- A tenure ends at the priority it began with -----------------------------------------------

  ghost predicate Holds(s: Sys, m: nat, t: nat) {
    m < |s.history| && t < |s.history[m].held| && s.history[m].held[t] > 0
  }

  // What one step from s to z means for the tenure of t on m.
  ghost predicate TenureKept(s: Sys, z: Sys, m: nat, t: nat)
    requires m < |s.mux| == |z.mux| && t < |s.prio| == |z.prio|
  {
    && (!Holds(s, m, t) && Holds(z, m, t) ==> z.mux[m].saved == s.prio[t])
    && (Holds(s, m, t) && Holds(z, m, t) ==> z.mux[m].saved == s.mux[m].saved)
    && (Holds(s, m, t) && !Holds(z, m, t) ==> z.prio[t] == s.mux[m].saved)
  }

  lemma PendTenure(s: Sys, n: nat, c: Call, m: nat, t: nat)
    requires SysOk(s) && CallOk(s, c) && m < |s.mux| && t < |s.prio|
    requires |Pend(s, n, c).0.mux| == |s.mux| && |Pend(s, n, c).0.prio| == |s.prio|
    ensures TenureKept(s, Pend(s, n, c).0, m, t)
  {
    assert MuxOk(s.mux[m], s.history[m], |s.prio|);
    hide Inherits, Best, UnusedOk, HoldsNone, WaitersOk, Distinct;
  }

  lemma PostTenure(s: Sys, n: nat, c: Call, m: nat, t: nat)
    requires SysOk(s) && CallOk(s, c) && m < |s.mux| && t < |s.prio|
    requires |Post(s, n, c).0.mux| == |s.mux| && |Post(s, n, c).0.prio| == |s.prio|
    ensures TenureKept(s, Post(s, n, c).0, m, t)
  {
    assert MuxOk(s.mux[m], s.history[m], |s.prio|);
    if n < |s.mux| {
      assert MuxOk(s.mux[n], s.history[n], |s.prio|);
      if s.mux[n].waiters != [] {
        assert s.mux[n].waiters[0] in s.mux[n].waiters;
      }
    }
    hide Inherits, Best, UnusedOk, HoldsNone, WaitersOk, Distinct;
  }

  lemma TenureStep(s: Sys, e: Step, m: nat, t: nat)
    requires SysOk(s) && Enabled(s, e) && m < |s.mux| && t < |s.prio|
    ensures |Do(s, e).mux| == |s.mux| && |Do(s, e).prio| == |s.prio| && TenureKept(s, Do(s, e), m, t)
  {
    DoSizes(s, e);
    hide Inherits, Best, HoldsNone, Distinct, Pend, Post, Without;
    match e
    case PendStep(n, c) => PendTenure(s, n, c, m, t);
    case PostStep(n, c) => PostTenure(s, n, c, m, t);
    case ExpireStep(u) =>
    case CreateStep =>
      assert MuxOk(s.mux[m], s.history[m], |s.prio|);
      assert s.unused != [] ==> s.unused[0] in s.unused;
    case _ =>
  }

  lemma {:induction false} TenureSaves(run: seq<Sys>, steps: seq<Step>, i: nat, k: nat, m: nat, t: nat)
    requires IsRun(run, steps) && i < k < |run| && m < |run[0].mux| && t < |run[0].prio|
    requires !Holds(run[i], m, t) && forall j :: i < j <= k ==> Holds(run[j], m, t)
    ensures |run[k].mux| == |run[0].mux| && |run[i].prio| == |run[0].prio| && run[k].mux[m].saved == run[i].prio[t]
    decreases k
  {
    hide SysOk, Do, Enabled, Holds;
    RunOk(run, steps, i);
    RunOk(run, steps, k - 1);
    RunOk(run, steps, k);
    assert StepOf(run[k - 1], steps[k - 1], run[k]);
    TenureStep(run[k - 1], steps[k - 1], m, t);
    if k > i + 1 {
      TenureSaves(run, steps, i, k - 1, m, t);
    }
  }

  // However long a task holds a mutex and whoever pends on it meanwhile, the post that ends the
  // tenure leaves the task at the priority it had when it got the mutex.
  lemma TenureRestoresPriority(run: seq<Sys>, steps: seq<Step>, i: nat, k: nat, m: nat, t: nat)
    requires IsRun(run, steps) && i < k < |run| - 1 && m < |run[0].mux| && t < |run[0].prio|
    requires !Holds(run[i], m, t) && !Holds(run[k + 1], m, t) && forall j :: i < j <= k ==> Holds(run[j], m, t)
    ensures |run[k + 1].prio| == |run[i].prio| == |run[0].prio| && run[k + 1].prio[t] == run[i].prio[t]
  {
    hide SysOk, Do, Enabled, Holds;
    RunOk(run, steps, k);
    RunOk(run, steps, k + 1);
    TenureSaves(run, steps, i, k, m, t);
    assert StepOf(run[k], steps[k], run[k + 1]);
    TenureStep(run[k], steps[k], m, t);
  }

  // ---- Recursive locking -------------------------------------------------------------------------

  // A task that keeps pending on a mutex reaches every count the counter can hold.
  lemma {:induction false} PendsReach(s: Sys, m: nat, c: Call, n: nat) returns (run: seq<Sys>, steps: seq<Step>)
    requires SysOk(s) && CallOk(s, c) && !c.inInterrupt && m < |s.mux| && s.mux[m].used && s.mux[m].count == 0
    requires 0 < n < UINT16
    ensures IsRun(run, steps) && run[0] == s && |steps| == n && forall i :: 0 <= i < n ==> steps[i] == PendStep(m, c)
    ensures SysOk(run[n]) && |run[n].mux| == |s.mux| && run[n].phase == s.phase
    ensures run[n].mux[m].used && run[n].mux[m].owner == c.task && run[n].mux[m].count == n
    decreases n
  {
    hide SysOk, Pend, CanPend;
    var x: Sys;
    if n == 1 {
      x := PendOnce(s, m, c);
      run, steps := [s, x], [PendStep(m, c)];
    } else {
      var run', steps' := PendsReach(s, m, c, n - 1);
      x := PendOnce(run'[n - 1], m, c);
      assert StepOf(run'[n - 1], PendStep(m, c), x);
      run, steps := run' + [x], steps' + [PendStep(m, c)];
      LongerRun(run', steps', PendStep(m, c), x);
    }
  }

  lemma PendOnce(s: Sys, m: nat, c: Call) returns (z: Sys)
    requires SysOk(s) && CallOk(s, c) && !c.inInterrupt && m < |s.mux| && s.mux[m].used
    requires s.mux[m].count == 0 || s.mux[m].owner == c.task
    requires s.mux[m].count + 1 < UINT16
    ensures StepOf(s, PendStep(m, c), z) && SysOk(z) && |z.mux| == |s.mux| && z.phase == s.phase
    ensures z.mux[m].used && z.mux[m].owner == c.task && z.mux[m].count == s.mux[m].count + 1
  {
    hide Best, Inherits, Distinct, WaitersOk, UnusedOk, HoldsNone;
    PendOkIff(s, m, c);
    z := Pend(s, m, c).0;
  }

  lemma LongerRun(run: seq<Sys>, steps: seq<Step>, e: Step, z: Sys)
    requires IsRun(run, steps) && StepOf(run[|steps|], e, z)
    ensures IsRun(run + [z], steps + [e])
  {
    hide SysOk, StepOf;
  }

  // So the wrap can be reached: a run of 65535 pends, one more of which WrapBreaks is about.
  lemma WrapIsReached(s: Sys, m: nat, c: Call) returns (run: seq<Sys>, steps: seq<Step>)
    requires SysOk(s) && CallOk(s, c) && !c.inInterrupt && m < |s.mux| && s.mux[m].used && s.mux[m].count == 0
    ensures IsRun(run, steps) && run[0] == s && |steps| == UINT16 - 1 && SysOk(run[UINT16 - 1])
    ensures CallOk(run[UINT16 - 1], c) && Wraps(run[UINT16 - 1], m, c)
  {
    hide SysOk;
    run, steps := PendsReach(s, m, c, UINT16 - 1);
  }

  // ---- Nested mutexes --------------------------------------------------------------------------

  ghost predicate HoldsNothing(s: Sys, t: nat) {
    forall m :: 0 <= m < |s.mux| ==> !Holds(s, m, t)
  }

  // The step before a tenure that is running at step k, of a task that held nothing at step i.
  lemma {:induction false} TenureBegins(run: seq<Sys>, steps: seq<Step>, i: nat, k: nat, m: nat, t: nat)
    returns (j: nat)
    requires IsRun(run, steps) && i < k < |run| && m < |run[0].mux| && t < |run[0].prio|
    requires HoldsNothing(run[i], t) && Holds(run[k], m, t)
    ensures i <= j < k && !Holds(run[j], m, t) && forall x :: j < x <= k ==> Holds(run[x], m, t)
    decreases k
  {
    hide SysOk, Do, Enabled, Holds;
    RunOk(run, steps, i);
    if k == i + 1 || !Holds(run[k - 1], m, t) {
      j := k - 1;
    } else {
      j := TenureBegins(run, steps, i, k - 1, m, t);
    }
  }

  // Between steps i and k + 1, at both of which it holds nothing, task t holds some mutex all the time,
  // and the one it releases last is m, taken at step j. It ends with the priority it had at step j: its
  // first priority exactly when it had that at step j. If it held nothing then, m being also the first it
  // took, it always does; otherwise it took m while holding another mutex.
  lemma LastReleaseDecides(run: seq<Sys>, steps: seq<Step>, i: nat, k: nat, m: nat, t: nat) returns (j: nat)
    requires IsRun(run, steps) && i < k < |run| - 1 && m < |run[0].mux| && t < |run[0].prio|
    requires HoldsNothing(run[i], t) && HoldsNothing(run[k + 1], t) && Holds(run[k], m, t)
    requires forall x :: i < x <= k ==> !HoldsNothing(run[x], t)
    ensures i <= j < k && !Holds(run[j], m, t) && forall x :: j < x <= k ==> Holds(run[x], m, t)
    ensures |run[k + 1].prio| == |run[j].prio| == |run[i].prio| == |run[0].prio|
    ensures run[k + 1].prio[t] == run[j].prio[t]
    ensures j == i ==> run[k + 1].prio[t] == run[i].prio[t]
    ensures j > i ==> exists b :: 0 <= b < |run[j].mux| && b != m && Holds(run[j], b, t)
  {
    hide SysOk, Do, Enabled, Holds;
    RunOk(run, steps, i);
    RunOk(run, steps, k + 1);
    j := TenureBegins(run, steps, i, k, m, t);
    TenureRestoresPriority(run, steps, j, k, m, t);
    assert j > i ==> !HoldsNothing(run[j], t);
  }

  // Task t takes a at step i, then b at step j, and releases b at step l, with a released before or
  // still held. It leaves b at the best of its first priority and those that pended on a before it
  // took b: at its first priority exactly when none of these was better.
  lemma NestedReleaseIff(run: seq<Sys>, steps: seq<Step>, i: nat, j: nat, l: nat, a: nat, b: nat, t: nat)
    requires IsRun(run, steps) && i < j < l < |run| - 1 && t < |run[0].prio| && a < |run[0].mux| && b < |run[0].mux|
    requires !Holds(run[i], a, t) && forall x :: i < x <= j ==> Holds(run[x], a, t)
    requires !Holds(run[j], b, t) && !Holds(run[l + 1], b, t) && forall x :: j < x <= l ==> Holds(run[x], b, t)
    requires t < |run[j].plain| && run[j].plain[t]
    ensures |run[l + 1].prio| == |run[i].prio| == |run[0].prio| && a < |run[j].history|
    ensures run[l + 1].prio[t] == Best(run[i].prio[t], run[j].history[a].pended)
    ensures run[l + 1].prio[t] == run[i].prio[t] <==>
            forall x :: 0 <= x < |run[j].history[a].pended| ==> run[i].prio[t] <= run[j].history[a].pended[x]
  {
    hide SysOk, Do, Enabled, Best, IsRun;
    RunOk(run, steps, i);
    TenureRestoresPriority(run, steps, j, l, b, t);
    TenureSaves(run, steps, i, j, a, t);
    MutexSafety(run, steps, j, a);
    assert Holds(run[j], a, t);
  }

  // Task t takes a; u, of better priority, pends on a; t takes b, releases a and then b.
  ghost predicate Nested(s: Sys, a: nat, b: nat, t: nat, u: nat) {
    && SysOk(s) && a < |s.mux| && b < |s.mux| && a != b && t < |s.prio| && u < |s.prio| && t != u
    && s.phase[t] == Outside && s.phase[u] == Outside && s.prio[u] < s.prio[t]
    && s.mux[a].used && s.mux[a].count == 0 && s.mux[b].used && s.mux[b].count == 0
  }

  function By(t: nat): Call { Call(t, LOS_WAIT_FOREVER, false, false) }

  lemma NestedHalfway(s: Sys, a: nat, b: nat, t: nat, u: nat) returns (x: Sys, z: Sys)
    requires Nested(s, a, b, t, u)
    ensures CanPend(s, a, By(t)) && x == Pend(s, a, By(t)).0 && SysOk(x) && CallOk(x, By(u))
    ensures CanPend(x, a, By(u)) && z == Pend(x, a, By(u)).0 && SysOk(z)
    ensures |z.mux| == |s.mux| && |z.prio| == |s.prio| && z.phase[t] == Outside
    ensures z.mux[a] == Mux(true, 1, t, s.prio[t], [u]) && z.prio[t] == s.prio[u] && z.mux[b] == s.mux[b]
  {
    hide Inherits, Best, UnusedOk, HoldsNone, WaitersOk, Distinct;
    assert MuxOk(s.mux[a], s.history[a], |s.prio|);
    PendOkIff(s, a, By(t));
    x := Pend(s, a, By(t)).0;
    PendOkIff(x, a, By(u));
    z := Pend(x, a, By(u)).0;
  }

  // Released in the order they were taken, two mutexes leave the task raised for good: the
  // inherited priority was saved with the second one.
  lemma NestedReleaseStaysRaised(s: Sys, a: nat, b: nat, t: nat, u: nat) returns (run: seq<Sys>, steps: seq<Step>)
    requires Nested(s, a, b, t, u)
    ensures IsRun(run, steps) && run[0] == s && |steps| == 5
    ensures |run[5].prio| == |s.prio| && |run[5].mux| == |s.mux| && run[5].prio[t] == s.prio[u] < s.prio[t]
    ensures !Owns(run[5].mux[a], t) && !Owns(run[5].mux[b], t)
  {
    hide Inherits, Best, UnusedOk, HoldsNone, WaitersOk, Distinct, MuxesOk, Pend, Post;
    var first, z := NestedHalfway(s, a, b, t, u);
    var w, x, y := NestedEnd(z, s, a, b, t, u);
    run := [s, first, z, w, x, y];
    steps := [PendStep(a, By(t)), PendStep(a, By(u)), PendStep(b, By(t)), PostStep(a, By(t)), PostStep(b, By(t))];
    PendOkIff(s, a, By(t));
    PendOkIff(first, a, By(u));
    PendOkIff(z, b, By(t));
    hide SysOk, CallOk;
    assert StepOf(run[0], steps[0], run[1]);
    assert StepOf(run[1], steps[1], run[2]);
    assert StepOf(run[2], steps[2], run[3]);
    assert StepOf(run[3], steps[3], run[4]);
    assert StepOf(run[4], steps[4], run[5]);
  }

  lemma NestedEnd(z: Sys, s: Sys, a: nat, b: nat, t: nat, u: nat) returns (w: Sys, x: Sys, y: Sys)
    requires Nested(s, a, b, t, u) && SysOk(z) && |z.mux| == |s.mux| && |z.prio| == |s.prio| && z.phase[t] == Outside
    requires z.mux[a] == Mux(true, 1, t, s.prio[t], [u]) && z.prio[t] == s.prio[u] && z.mux[b] == s.mux[b]
    ensures w == Pend(z, b, By(t)).0 && SysOk(w) && CallOk(w, By(t)) && x == Post(w, a, By(t)).0
    ensures SysOk(x) && CallOk(x, By(t)) && y == Post(x, b, By(t)).0
    ensures |y.prio| == |s.prio| && |y.mux| == |s.mux| && y.prio[t] == s.prio[u]
    ensures !Owns(y.mux[a], t) && !Owns(y.mux[b], t)
  {
    hide Inherits, Best, UnusedOk, HoldsNone, Distinct;
    assert MuxOk(z.mux[b], z.history[b], |z.prio|) && MuxOk(z.mux[a], z.history[a], |z.prio|);
    assert u in z.mux[a].waiters;
    hide WaitersOk;
    PendOkIff(z, b, By(t));
    w := Pend(z, b, By(t)).0;
    PostOk(w, a, By(t));
    x := Post(w, a, By(t)).0;
    assert x.mux[b] == Mux(true, 1, t, s.prio[u], []);
    PostOk(x, b, By(t));
    y := Post(x, b, By(t)).0;
  }
}

// The mutex control blocks and their code; each method is one interrupt-locked section.

module Mutexes {
  import opened Waits
  import opened Lists
  import opened MutexModel

  class Mutexes {
    const mux: array<Mux>        // g_pstAllMux
    const prio: array<nat>       // per task
    const phase: array<Phase>    // per task
    var unusedList: seq<nat>     // g_stUnusedMuxList
    ghost var history: seq<History>
    ghost var plain: seq<bool>

    ghost function View(): Sys
      reads this, mux, prio, phase
    {
      Sys(mux[..], unusedList, prio[..], phase[..], history, plain)
    }

    ghost predicate Valid()
      reads this, mux, prio, phase
    {
      SysOk(View())
    }

    // osMuxInit
    constructor (limit: nat, tasks: nat)
      ensures Valid() && fresh(mux) && fresh(prio) && fresh(phase) && mux.Length == limit && prio.Length == tasks
      ensures forall m :: 0 <= m < limit ==> !mux[m].used
    {
      mux := new Mux[limit](i => Mux(false, 0, tasks, 0, []));
      prio := new nat[tasks](i => 0);
      phase := new Phase[tasks](i => Outside);
      unusedList := seq(limit, i => i);
      history := seq(limit, i => History(seq(tasks, j => 0), []));
      plain := seq(tasks, i => false);
      new;
      forall m: nat
        ensures m in unusedList <==> m < limit
      {
        assert m < limit ==> unusedList[m] == m;
      }
    }

    // osTaskPriModify, as far as the priority goes.
    method PriModify(t: nat, p: nat)
      requires t < prio.Length
      modifies prio
      ensures prio[..] == old(prio[..])[t := p]
    {
      prio[t] := p;
    }

    // LOS_MuxCreate
    method MuxCreate() returns (code: Code, handle: nat)
      requires Valid()
      modifies this`unusedList, mux
      ensures Valid() && (View(), code) == Create(old(View()))
      ensures code == Ok ==> old(unusedList) != [] && handle == old(unusedList)[0]
    {
      hide Inherits, WaitersOk, MuxesOk;
      handle := 0;
      CreateOk(View());
      if unusedList == [] {
        return AllBusy, handle;
      }
      var m := unusedList[0];
      assert m in unusedList;
      unusedList := unusedList[1..];
      mux[m] := Mux(true, 0, prio.Length, 0, []);
      handle := m;
      code := Ok;
    }

    // LOS_MuxDelete
    method MuxDelete(m: nat) returns (code: Code)
      requires Valid()
      modifies this`unusedList, mux
      ensures Valid() && (View(), code) == Delete(old(View()), m)
    {
      hide Inherits, WaitersOk, MuxesOk, UnusedOk;
      DeleteOk(View(), m);
      if m >= mux.Length || !mux[m].used {
        return Invalid;
      }
      if mux[m].waiters != [] || mux[m].count > 0 {
        return Pended;
      }
      unusedList := [m] + unusedList;
      mux[m] := mux[m].(used := false);
      code := Ok;
    }

    // LOS_MuxPend until it returns or blocks.
    method MuxPend(m: nat, c: Call) returns (o: Outcome)
      requires Valid() && CallOk(View(), c)
      modifies this, mux, prio, phase
      ensures (View(), o) == Pend(old(View()), m, c)
      ensures Valid() <==> !old(Wraps(View(), m, c))
    {
      hide Inherits, WaitersOk, UnusedOk;
      ghost var s := View();
      PendOkIff(s, m, c);
      if m >= mux.Length || !mux[m].used {
        return Done(Invalid);
      }
      if c.inInterrupt {
        return Done(PendInInterrupt);
      }
      var t := c.task;
      assert MuxOk(s.mux[m], s.history[m], |s.prio|);
      if mux[m].count == 0 {
        mux[m] := mux[m].(count := mux[m].count + 1, owner := t, saved := prio[t]);
        history, plain := Grant(s, m, t, s.mux[m].waiters).history, Grant(s, m, t, s.mux[m].waiters).plain;
        return Done(Ok);
      }
      if mux[m].owner == t {
        mux[m] := mux[m].(count := (mux[m].count + 1) % UINT16);
        history := history[m := history[m].(held := history[m].held[t := history[m].held[t] + 1])];
        return Done(Ok);
      }
      if c.timeout == LOS_NO_WAIT {
        return Done(Unavailable);
      }
      if c.locked {
        return Done(PendInLock);
      }
      phase[t] := Waiting(m, c.timeout != LOS_WAIT_FOREVER);
      history := history[m := history[m].(pended := history[m].pended + [prio[t]])];
      if prio[mux[m].owner] > prio[t] {
        PriModify(mux[m].owner, prio[t]);
      }
      mux[m] := mux[m].(waiters := mux[m].waiters + [t]);
      o := Blocked;
    }

    // LOS_MuxPend when the blocked task runs again.
    method MuxPendResume(t: nat) returns (code: Code)
      requires Valid() && t < phase.Length && !phase[t].Waiting?
      modifies phase
      ensures Valid() && (View(), code) == Resume(old(View()), t)
      ensures code == (if old(phase[t]) == Expired then Timeout else Ok)
    {
      ResumeOk(View(), t);
      code := if phase[t] == Expired then Timeout else Ok;
      phase[t] := Outside;
    }

    // LOS_MuxPost
    method MuxPost(m: nat, c: Call) returns (code: Code)
      requires Valid() && CallOk(View(), c)
      modifies this, mux, prio, phase
      ensures Valid() && (View(), code) == Post(old(View()), m, c)
    {
      hide Inherits, WaitersOk, UnusedOk;
      ghost var s := View();
      PostOk(s, m, c);
      if m >= mux.Length || !mux[m].used {
        return Invalid;
      }
      if c.inInterrupt {
        return PendInInterrupt;
      }
      assert MuxOk(s.mux[m], s.history[m], |s.prio|);
      if mux[m].count == 0 || mux[m].owner != c.task {
        return Invalid;
      }
      mux[m] := mux[m].(count := mux[m].count - 1);
      if mux[m].count != 0 {
        history := history[m := history[m].(held := history[m].held[c.task := history[m].held[c.task] - 1])];
        return Ok;
      }
      if prio[mux[m].owner] != mux[m].saved {
        PriModify(mux[m].owner, mux[m].saved);
      }
      ghost var r := Released(s, m, c.task);
      history := r.history;
      assert View() == r;
      if mux[m].waiters != [] {
        var w := mux[m].waiters[0];
        WaiterIsTask(s, m);
        phase[w] := Granted;
        mux[m] := Mux(mux[m].used, 1, w, prio[w], mux[m].waiters[1..]);
        history, plain := Grant(r, m, w, mux[m].waiters).history, Grant(r, m, w, mux[m].waiters).plain;
      }
      code := Ok;
    }
  }

  lemma WaiterIsTask(s: Sys, m: nat)
    requires SysOk(s) && m < |s.mux| && s.mux[m].waiters != []
    ensures s.mux[m].waiters[0] < |s.prio|
  {
    assert s.mux[m].waiters[0] in s.mux[m].waiters;
  }
}

// Time passing for the software timers: what one tick fires, that a long sleep adjusts to the
// same state as single ticks, and what whole runs of the interface do to one timer.

module SwtmrRuns {
  import opened Lists
  import opened DeltaList
  import opened SwtmrModel

  // ---- One expiry round ------------------------------------------------------------------

  function Zeros(A: seq<Due>): (z: nat)
    ensures z <= |A|
    ensures forall i :: 0 <= i < z ==> A[i].at == 0
    ensures z < |A| ==> A[z].at > 0
  {
    if A == [] || A[0].at > 0 then 0 else 1 + Zeros(A[1..])
  }

  predicate Periodic(t: Timer) { t.mode != LOS_SWTMR_MODE_ONCE }

  // What an expiry does to the control block.
  function Expired(t: Timer, limit: nat): Timer
    requires 0 < limit <= 65535
  {
    if Periodic(t) then t.(overrun := (t.overrun + 1) % 256) else t.(state := Unused, id := NextId(t.id, limit))
  }

  // The loop of osSwTmrTimeoutHandle, with the slots it fires.
  function Expire(y: Sys): (Sys, seq<nat>)
    requires SysOk(y)
    decreases Zeros(y.agenda)
  {
    if y.agenda == [] || y.agenda[0].at > 0 then (y, [])
    else
      FireOk(y);
      FireIs(y);
      var (z, fired) := Expire(Fire(y));
      (z, [y.agenda[0].id] + fired)
  }

  lemma InsertContains(S: seq<Due>, id: nat, at: nat, e: Due)
    ensures e in StableInsert(S, id, at) <==> e in S || e == Due(id, at)
  {
    StableInsertContents(S, id, at);
    assert e in StableInsert(S, id, at) <==> e in multiset(StableInsert(S, id, at));
    assert e in S <==> e in multiset(S);
  }

  lemma {:induction false} InsertZeros(S: seq<Due>, id: nat, at: nat)
    requires at > 0
    ensures Zeros(StableInsert(S, id, at)) == Zeros(S)
    ensures StableInsert(S, id, at)[..Zeros(S)] == S[..Zeros(S)]
  {
    if S != [] && S[0].at == 0 {
      InsertZeros(S[1..], id, at);
      assert StableInsert(S, id, at)[1..] == StableInsert(S[1..], id, at);
    }
  }

  // One expiry: the first timer leaves or is started again for a whole interval.
  lemma FireIs(y: Sys)
    requires SysOk(y) && y.agenda != [] && y.agenda[0].at == 0
    ensures var (A, s) := (y.agenda, y.agenda[0].id);
            && s < |y.info| && Fire(y).info == y.info[s := Expired(y.info[s], |y.info|)]
            && Zeros(Fire(y).agenda) == Zeros(A) - 1
            && Fire(y).agenda[..Zeros(A) - 1] == A[1..][..Zeros(A) - 1]
            && Fire(y).agenda == (if Periodic(y.info[s]) then StableInsert(A[1..], s, y.info[s].interval) else A[1..])
  {
    hide AgendaOk, Listing, Distinct, StableInsert, NextId;
    PopOk(y);
    var A, s := y.agenda, y.agenda[0].id;
    if Periodic(y.info[s]) {
      InsertZeros(A[1..], s, y.info[s].interval);
    }
  }

  // ---- Everything that is due fires, in list order, and nothing else changes ---------------

  // The agenda holds timer s with t ticks left.
  predicate Left(A: seq<Due>, s: nat, t: nat) { Due(s, t) in A }

  lemma LeftUnique(A: seq<Due>, s: nat, t: nat, u: nat)
    requires Distinct(Ids(A)) && Left(A, s, t) && Left(A, s, u)
    ensures t == u
  {
    var i :| 0 <= i < |A| && A[i] == Due(s, t);
    var j :| 0 <= j < |A| && A[j] == Due(s, u);
    assert Ids(A)[i] == s && Ids(A)[j] == s;
  }

  // What expiry leaves for slot s.
  ghost predicate ExpiredFor(y: Sys, z: Sys, fired: seq<nat>, s: nat)
    requires 0 < |y.info| <= 65535 && s < |y.info| == |z.info|
  {
    && z.info[s] == (if Left(y.agenda, s, 0) then Expired(y.info[s], |y.info|) else y.info[s])
    && (s in fired <==> Left(y.agenda, s, 0))
    && forall t: nat {:trigger Left(z.agenda, s, t)} ::
         Left(z.agenda, s, t) <==>
         (t > 0 && Left(y.agenda, s, t)) || (Left(y.agenda, s, 0) && Periodic(y.info[s]) && t == y.info[s].interval)
  }

  lemma NotLeft(A: seq<Due>, s: nat, t: nat)
    requires s !in Ids(A)
    ensures !Left(A, s, t)
  {
    assert forall i :: 0 <= i < |A| ==> A[i].id == Ids(A)[i];
  }

  lemma FiredFor(y: Sys, s: nat, t: nat)
    requires SysOk(y) && y.agenda != [] && y.agenda[0].at == 0 && s < |y.info|
    ensures Left(Fire(y).agenda, s, t) <==>
            (s != y.agenda[0].id && Left(y.agenda, s, t)) ||
            (s == y.agenda[0].id && Periodic(y.info[s]) && t == y.info[s].interval)
  {
    hide Listing, TimersOk, Fire;
    FireIs(y);
    var A, f := y.agenda, y.agenda[0].id;
    assert A == [A[0]] + A[1..];
    assert !Left(A[1..], f, t) by {
      PopOk(y);
      NotLeft(A[1..], f, t);
    }
    InsertContains(A[1..], f, y.info[f].interval, Due(s, t));
  }

  // All that is due fires, first in the list first.
  lemma {:induction false} ExpireList(y: Sys)
    requires SysOk(y)
    ensures SysOk(Expire(y).0) && |Expire(y).0.info| == |y.info| && Zeros(Expire(y).0.agenda) == 0
    ensures Expire(y).1 == Ids(y.agenda)[..Zeros(y.agenda)]
    decreases Zeros(y.agenda)
  {
    hide AgendaOk, Listing, Fire, Expired, Ids, TimersOk;
    var A := y.agenda;
    if A != [] && A[0].at == 0 {
      FireOk(y);
      FireIs(y);
      ExpireList(Fire(y));
      SameIds(A, Fire(y).agenda, Zeros(A));
    }
  }

  lemma {:induction false} ExpireIs(y: Sys, s: nat)
    requires SysOk(y) && s < |y.info|
    ensures |Expire(y).0.info| == |y.info| && ExpiredFor(y, Expire(y).0, Expire(y).1, s)
    decreases Zeros(y.agenda)
  {
    hide AgendaOk, Listing, Fire, Expired, Ids;
    if y.agenda == [] || y.agenda[0].at > 0 {
      NoneDue(y, s);
    } else {
      hide ExpiredFor, Expire, TimersOk;
      FireOk(y);
      FireIs(y);
      ExpireList(y);
      ExpireList(Fire(y));
      ExpireIs(Fire(y), s);
      ExpireStep(y, s);
    }
  }

  lemma SameIds(A: seq<Due>, B: seq<Due>, z: nat)
    requires 0 < z <= |A| && z - 1 <= |B| && B[..z - 1] == A[1..][..z - 1]
    ensures Ids(A)[..z] == [A[0].id] + Ids(B)[..z - 1]
  {
    forall i | 0 <= i < z - 1
      ensures Ids(A)[i + 1] == Ids(B)[i]
    {
      assert A[1..][..z - 1][i] == B[..z - 1][i];
    }
  }

  lemma NoneDue(y: Sys, s: nat)
    requires SysOk(y) && s < |y.info| && Zeros(y.agenda) == 0
    ensures !Left(y.agenda, s, 0)
  {
    assert forall i :: 0 <= i < |y.agenda| ==> y.agenda[0].at <= y.agenda[i].at;
  }

  lemma ExpireNext(x: Sys)
    requires SysOk(x) && x.agenda != [] && x.agenda[0].at == 0
    ensures SysOk(Fire(x)) && Expire(x) == (Expire(Fire(x)).0, [x.agenda[0].id] + Expire(Fire(x)).1)
  {
    FireOk(x);
    hide SysOk, Fire;
  }

  lemma ExpireStep(y: Sys, s: nat)
    requires SysOk(y) && s < |y.info| && y.agenda != [] && y.agenda[0].at == 0 && SysOk(Fire(y))
    requires |Fire(y).info| == |y.info| == |Expire(Fire(y)).0.info|
    requires ExpiredFor(Fire(y), Expire(Fire(y)).0, Expire(Fire(y)).1, s)
    ensures ExpiredFor(y, Expire(y).0, Expire(y).1, s)
  {
    hide Expire, SysOk, Fire, Expired, Periodic, Zeros;
    ExpireNext(y);
    ExpireInfo(y, s);
    var z := Expire(Fire(y)).0;
    forall t: nat
      ensures Left(z.agenda, s, t) <==>
         (t > 0 && Left(y.agenda, s, t)) || (Left(y.agenda, s, 0) && Periodic(y.info[s]) && t == y.info[s].interval)
    {
      ExpireLeft(y, s, t);
    }
  }

  lemma ExpireInfo(y: Sys, s: nat)
    requires SysOk(y) && s < |y.info| && y.agenda != [] && y.agenda[0].at == 0 && SysOk(Fire(y))
    requires |Fire(y).info| == |y.info| == |Expire(Fire(y)).0.info|
    requires ExpiredFor(Fire(y), Expire(Fire(y)).0, Expire(Fire(y)).1, s)
    ensures 0 < |y.info| <= 65535
    ensures Expire(Fire(y)).0.info[s] == if Left(y.agenda, s, 0) then Expired(y.info[s], |y.info|) else y.info[s]
    ensures s in [y.agenda[0].id] + Expire(Fire(y)).1 <==> Left(y.agenda, s, 0)
  {
    PopOk(y);
    FireIs(y);
    assert y.agenda[0] == Due(y.agenda[0].id, 0);
    hide Expire, SysOk, Fire, Expired, Periodic, Zeros;
    FiredFor(y, s, 0);
  }

  lemma ExpireLeft(y: Sys, s: nat, t: nat)
    requires SysOk(y) && s < |y.info| && y.agenda != [] && y.agenda[0].at == 0 && SysOk(Fire(y))
    requires |Fire(y).info| == |y.info| == |Expire(Fire(y)).0.info|
    requires ExpiredFor(Fire(y), Expire(Fire(y)).0, Expire(Fire(y)).1, s)
    ensures Left(Expire(Fire(y)).0.agenda, s, t) <==>
            (t > 0 && Left(y.agenda, s, t)) || (Left(y.agenda, s, 0) && Periodic(y.info[s]) && t == y.info[s].interval)
  {
    var f := y.agenda[0].id;
    assert y.agenda[0] == Due(f, 0);
    PopOk(y);
    FireIs(y);
    assert s == f ==> y.info[s].interval > 0 && (Periodic(y.info[s]) ==> Periodic(Expired(y.info[s], |y.info|)));
    assert Distinct(Ids(y.agenda));
    hide Expire, SysOk, Fire, Periodic, Zeros;
    FiredFor(y, s, 0);
    FiredFor(y, s, t);
    if s == f && Left(y.agenda, s, t) {
      LeftUnique(y.agenda, s, t, 0);
    }
  }

  // ---- Time passing ------------------------------------------------------------------------

  ghost predicate NotBefore(A: seq<Due>, n: nat) {
    forall i :: 0 <= i < |A| ==> A[i].at >= n
  }

  function Elapse(y: Sys, n: nat): Sys
    requires NotBefore(y.agenda, n)
  {
    y.(agenda := Earlier(y.agenda, n))
  }

  lemma HeadFirst(y: Sys, n: nat)
    requires SysOk(y) && y.agenda != [] && n <= y.agenda[0].at
    ensures NotBefore(y.agenda, n)
  {
    assert forall i :: 0 <= i < |y.agenda| ==> y.agenda[0].at <= y.agenda[i].at;
  }

  lemma ElapseOk(y: Sys, n: nat)
    requires SysOk(y) && NotBefore(y.agenda, n)
    ensures SysOk(Elapse(y, n)) && Ids(Elapse(y, n).agenda) == Ids(y.agenda)
  {
    hide Listing, TimersOk, Distinct;
    assert Ids(Elapse(y, n).agenda) == Ids(y.agenda);
  }

  lemma ElapseLeft(y: Sys, n: nat, s: nat, t: nat)
    requires NotBefore(y.agenda, n)
    ensures Left(Elapse(y, n).agenda, s, t) <==> Left(y.agenda, s, t + n)
  {
    var A, B := y.agenda, Elapse(y, n).agenda;
    if Left(A, s, t + n) {
      var i :| 0 <= i < |A| && A[i] == Due(s, t + n);
      assert B[i] == Due(s, t);
    }
  }

  // osSwtmrScan
  function Scan(y: Sys): (Sys, seq<nat>)
    requires Steady(y)
  {
    if y.agenda == [] then (y, [])
    else
      ElapseOk(y, 1);
      var x := Elapse(y, 1);
      if x.agenda[0].at == 0 then Expire(x) else (x, [])
  }

  // osSwTmrAdjust, for a list that is not empty.
  function Adjust(y: Sys, n: nat): (Sys, seq<nat>)
    requires Steady(y) && y.agenda != []
  {
    var m := if n > y.agenda[0].at then y.agenda[0].at else n;
    HeadFirst(y, m);
    ElapseOk(y, m);
    var x := Elapse(y, m);
    if x.agenda[0].at == 0 then Expire(x) else (x, [])
  }

  // What one tick does to slot s: one tick less, or an expiry.
  ghost predicate TickedFor(y: Sys, z: Sys, fired: seq<nat>, s: nat)
    requires 0 < |y.info| <= 65535 && s < |y.info| == |z.info|
  {
    && z.info[s] == (if Left(y.agenda, s, 1) then Expired(y.info[s], |y.info|) else y.info[s])
    && (s in fired <==> Left(y.agenda, s, 1))
    && forall t: nat {:trigger Left(z.agenda, s, t)} ::
         Left(z.agenda, s, t) <==>
         (t > 0 && Left(y.agenda, s, t + 1)) || (Left(y.agenda, s, 1) && Periodic(y.info[s]) && t == y.info[s].interval)
  }

  lemma NoZerosSteady(y: Sys)
    requires SysOk(y) && Zeros(y.agenda) == 0
    ensures Steady(y)
  {
    assert forall i :: 0 <= i < |y.agenda| ==> y.agenda[0].at <= y.agenda[i].at;
  }

  // Also when the first count does not reach zero.
  lemma ScanIsExpire(y: Sys)
    requires Steady(y)
    ensures SysOk(Elapse(y, 1)) && Scan(y) == Expire(Elapse(y, 1))
  {
    hide Listing, TimersOk, AgendaOk;
    ElapseOk(y, 1);
    if y.agenda == [] {
      assert Elapse(y, 1) == y;
    }
  }

  // Every tick leaves a steady state, and fires the timers with one tick left in list order.
  lemma ScanOk(y: Sys)
    requires Steady(y)
    ensures Steady(Scan(y).0) && |Scan(y).0.info| == |y.info|
    ensures Scan(y).1 == Ids(y.agenda)[..Zeros(Elapse(y, 1).agenda)] && Distinct(Scan(y).1)
  {
    hide Expire, Scan, Listing, Zeros, TimersOk;
    ScanIsExpire(y);
    ElapseOk(y, 1);
    ExpireList(Elapse(y, 1));
    NoZerosSteady(Scan(y).0);
  }

  lemma ScanIs(y: Sys, s: nat)
    requires Steady(y) && s < |y.info|
    ensures |Scan(y).0.info| == |y.info| && TickedFor(y, Scan(y).0, Scan(y).1, s)
  {
    hide Expire, Scan, SysOk, Zeros, Expired, Periodic;
    ScanOk(y);
    ScanIsExpire(y);
    var x := Elapse(y, 1);
    ExpireIs(x, s);
    ElapseLeft(y, 1, s, 0);
    forall t: nat
      ensures Left(x.agenda, s, t) <==> Left(y.agenda, s, t + 1)
    {
      ElapseLeft(y, 1, s, t);
    }
  }

  // ---- One long sleep is that many ticks -----------------------------------------------------

  function Scans(y: Sys, n: nat): (Sys, seq<nat>)
    requires Steady(y)
    decreases n
  {
    if n == 0 then (y, [])
    else
      ScanOk(y);
      var (x, first) := Scan(y);
      var (z, later) := Scans(x, n - 1);
      (z, first + later)
  }

  lemma ElapseTwice(y: Sys, a: nat, b: nat)
    requires NotBefore(y.agenda, a + b)
    ensures NotBefore(y.agenda, a) && NotBefore(Elapse(y, a).agenda, b) && Elapse(Elapse(y, a), b) == Elapse(y, a + b)
  {
    assert Earlier(Earlier(y.agenda, a), b) == Earlier(y.agenda, a + b);
  }

  lemma {:induction false} ScansToNext(y: Sys, n: nat)
    requires Steady(y) && y.agenda != [] && n <= y.agenda[0].at
    ensures NotBefore(y.agenda, n) && SysOk(Elapse(y, n)) && Scans(y, n) == Expire(Elapse(y, n))
    decreases n
  {
    HeadFirst(y, n);
    ElapseOk(y, n);
    if n == 0 {
      assert Elapse(y, 0) == y;
    } else if n == 1 {
      ScanOk(y);
      ScanIsExpire(y);
      assert Scans(Scan(y).0, 0) == (Scan(y).0, []) && Scan(y).1 + [] == Scan(y).1;
      hide Expire, SysOk, Scan;
    } else {
      var x := Elapse(y, 1);
      ScanOk(y);
      ElapseTwice(y, 1, n - 1);
      assert Scan(y) == (x, []);
      assert Scans(y, n) == (Scans(x, n - 1).0, [] + Scans(x, n - 1).1);
      hide Expire, SysOk, Scan, Scans;
      ScansToNext(x, n - 1);
      assert [] + Scans(x, n - 1).1 == Scans(x, n - 1).1;
    }
  }

  // The tickless adjustment ends in the state n single ticks end in and fires the same timers in
  // the same order; a longer sleep is cut to the next timeout.
  lemma AdjustIsScans(y: Sys, n: nat)
    requires Steady(y) && y.agenda != []
    ensures Adjust(y, n) == Scans(y, if n > y.agenda[0].at then y.agenda[0].at else n)
    ensures Steady(Adjust(y, n).0)
  {
    hide SysOk, Scans;
    var m := if n > y.agenda[0].at then y.agenda[0].at else n;
    ScansToNext(y, m);
    ExpireList(Elapse(y, m));
    NoZerosSteady(Expire(Elapse(y, m)).0);
  }
}

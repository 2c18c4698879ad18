// Software timers as their users see them: an agenda of ticking timers sorted by ticks left, the
// control blocks without their counts, and the free slots.

module SwtmrModel {
  import opened Arith
  import opened Lists
  import opened DeltaList

  const WORD: nat := 0x1_0000_0000
  const LOS_SWTMR_MODE_ONCE: nat := 0
  const LOS_SWTMR_MODE_PERIOD: nat := 1
  const LOS_SWTMR_MODE_OPP: nat := 2

  datatype State = Unused | Created | Ticking

  // SWTMR_CTRL_S; the list pointer is kept in the lists themselves.
  datatype Timer = Timer(state: State, mode: nat, overrun: nat, id: nat, count: nat, interval: nat, expiry: nat)

  // info[s] is the control block of slot s with its count set to zero.
  datatype Sys = Sys(agenda: seq<Due>, info: seq<Timer>, free: seq<nat>)

  // OS_SWTMR_MAX_TIMERID
  function MaxTimerId(limit: nat): nat
    requires limit > 0
  {
    65535 / limit * limit
  }

  // The count osSwTmrStart begins with.
  function StartCount(t: Timer): nat
  {
    if t.overrun == 0 && (t.mode == LOS_SWTMR_MODE_ONCE || t.mode == LOS_SWTMR_MODE_OPP) then t.expiry else t.interval
  }

  // The id a slot gets after a one-shot expiry.
  function NextId(id: nat, limit: nat): nat
    requires 0 < limit <= 65535
  {
    if id as int < MaxTimerId(limit) as int - limit as int then id + limit else id % limit
  }

  function Ids(A: seq<Due>): (r: seq<nat>)
    ensures |r| == |A|
  {
    seq(|A|, i requires 0 <= i < |A| => A[i].id)
  }

  // ---- Invariant -----------------------------------------------------------------------

  // A created timer has a usable interval and one of the two supported modes.
  predicate TimerOk(t: Timer, s: nat, limit: nat)
    requires limit > 0
  {
    && t.id < MaxTimerId(limit) && SlotOf(t.id, limit) == s && t.count == 0
    && (t.state != Unused ==>
          && 0 < t.interval < WORD && t.expiry == t.interval
          && (t.mode == LOS_SWTMR_MODE_ONCE || t.mode == LOS_SWTMR_MODE_PERIOD))
  }

  ghost predicate AgendaOk(A: seq<Due>) {
    Sorted(A) && Distinct(Ids(A)) && forall i :: 0 <= i < |A| ==> A[i].at < WORD
  }

  // L lists exactly the slots in the given state.
  ghost predicate Listing(L: seq<nat>, info: seq<Timer>, state: State) {
    forall s: nat :: s in L <==> s < |info| && info[s].state == state
  }

  ghost predicate TimersOk(info: seq<Timer>) {
    0 < |info| <= 65535 && forall s :: 0 <= s < |info| ==> TimerOk(info[s], s, |info|)
  }

  // Every slot is in the agenda, in the free list or merely created, according to its state.
  ghost predicate SysOk(y: Sys) {
    && TimersOk(y.info)
    && AgendaOk(y.agenda) && Listing(Ids(y.agenda), y.info, Ticking)
    && Distinct(y.free) && Listing(y.free, y.info, Unused)
  }

  // Between operations no ticking timer is overdue.
  ghost predicate Steady(y: Sys) {
    SysOk(y) && forall i :: 0 <= i < |y.agenda| ==> y.agenda[i].at > 0
  }

  // ---- Operations ----------------------------------------------------------------------

  // osSwTmrStart
  function Start(y: Sys, s: nat): Sys
    requires s < |y.info|
  {
    Sys(StableInsert(y.agenda, s, StartCount(y.info[s])), y.info[s := y.info[s].(state := Ticking)], y.free)
  }

  function Find(A: seq<Due>, s: nat): (k: nat)
    requires s in Ids(A)
    ensures k < |A| && A[k].id == s
  {
    if A[0].id == s then 0
    else
      assert Ids(A)[1..] == Ids(A[1..]);
      1 + Find(A[1..], s)
  }

  function Dropped(A: seq<Due>, k: nat): seq<Due>
    requires k < |A|
  {
    A[..k] + A[k + 1..]
  }

  // osSwtmrStop
  function Stop(y: Sys, s: nat): Sys
    requires s < |y.info| && s in Ids(y.agenda)
  {
    Sys(Dropped(y.agenda, Find(y.agenda, s)), y.info[s := y.info[s].(state := Created, overrun := 0)], y.free)
  }

  // osSwtmrDelete
  function Delete(y: Sys, s: nat): Sys
    requires s < |y.info|
  {
    y.(info := y.info[s := y.info[s].(state := Unused)], free := [s] + y.free)
  }

  // A freed slot gets its next id.
  function Renumbered(y: Sys, s: nat): Sys
    requires s < |y.info| <= 65535
  {
    y.(info := y.info[s := y.info[s].(id := NextId(y.info[s].id, |y.info|))])
  }

  // ucOverrun++, an eight-bit counter.
  function Overran(y: Sys, s: nat): Sys
    requires s < |y.info|
  {
    y.(info := y.info[s := y.info[s].(overrun := (y.info[s].overrun + 1) % 256)])
  }

  // One round of the loop of osSwTmrTimeoutHandle: the first timer is popped; a one-shot timer's
  // slot is freed under its next id, a periodic one is started again.
  function Fire(y: Sys): Sys
    requires SysOk(y) && y.agenda != []
  {
    var s := y.agenda[0].id;
    assert s == Ids(y.agenda)[0] && s in Ids(y.agenda);
    var rest := y.(agenda := y.agenda[1..]);
    if y.info[s].mode == LOS_SWTMR_MODE_ONCE then Renumbered(Delete(rest, s), s) else Start(Overran(rest, s), s)
  }

  // ---- What the operations keep ----------------------------------------------------------

  lemma InsertPlace(A: seq<Due>, s: nat, at: nat) returns (k: nat)
    requires Sorted(A)
    ensures k <= |A| && StableInsert(A, s, at) == A[..k] + [Due(s, at)] + A[k..]
    ensures forall i :: 0 <= i < k ==> A[i].at <= at
    ensures k < |A| ==> at < A[k].at
  {
    k := 0;
    while k < |A| && A[k].at <= at
      invariant k <= |A| && forall i :: 0 <= i < k ==> A[i].at <= at
    {
      k := k + 1;
    }
    StableInsertIs(A, s, at, k);
  }

  lemma InsertedMembers(L: seq<nat>, k: nat, s: nat)
    requires k <= |L|
    ensures forall x :: x in L[..k] + [s] + L[k..] <==> x == s || x in L
  {
    var M := L[..k] + [s] + L[k..];
    assert M[k] == s;
    forall x
      ensures x in M <==> x == s || x in L
    {
      if x in M {
        var i :| 0 <= i < |M| && M[i] == x;
        assert i < k ==> L[i] == x;
        assert i > k ==> L[i - 1] == x;
      }
      if x in L {
        var i :| 0 <= i < |L| && L[i] == x;
        assert M[if i < k then i else i + 1] == x;
      }
    }
  }

  lemma InsertIds(A: seq<Due>, s: nat, at: nat) returns (k: nat)
    requires Sorted(A)
    ensures k <= |A| && Ids(StableInsert(A, s, at)) == Ids(A)[..k] + [s] + Ids(A)[k..]
  {
    k := InsertPlace(A, s, at);
  }

  lemma InsertMembers(A: seq<Due>, s: nat, at: nat)
    requires Sorted(A)
    ensures forall x :: x in Ids(StableInsert(A, s, at)) <==> x == s || x in Ids(A)
  {
    hide *;
    var k := InsertIds(A, s, at);
    InsertedMembers(Ids(A), k, s);
  }

  lemma InsertDistinct(A: seq<Due>, s: nat, at: nat)
    requires Sorted(A) && s !in Ids(A) && Distinct(Ids(A))
    ensures Distinct(Ids(StableInsert(A, s, at)))
  {
    hide StableInsert, Ids, Sorted;
    var k := InsertIds(A, s, at);
    var I := Ids(A);
    forall i, j | 0 <= i < j < |I| + 1
      ensures (I[..k] + [s] + I[k..])[i] != (I[..k] + [s] + I[k..])[j]
    {
    }
  }

  lemma InsertAgendaOk(A: seq<Due>, s: nat, at: nat)
    requires AgendaOk(A) && s !in Ids(A) && at < WORD
    ensures AgendaOk(StableInsert(A, s, at))
    ensures at > 0 && (forall i :: 0 <= i < |A| ==> A[i].at > 0) ==>
              forall i :: 0 <= i < |StableInsert(A, s, at)| ==> StableInsert(A, s, at)[i].at > 0
  {
    InsertDistinct(A, s, at);
    StableInsertSorted(A, s, at);
    var k := InsertPlace(A, s, at);
  }

  // Changing the state of one slot moves it from the list of its old state to that of the new one.
  lemma Moved(L: seq<nat>, L': seq<nat>, info: seq<Timer>, s: nat, t: Timer, state: State)
    requires Listing(L, info, state) && s < |info|
    requires forall x :: x != s ==> (x in L' <==> x in L)
    requires s in L' <==> t.state == state
    ensures Listing(L', info[s := t], state)
  {
  }

  lemma StartOk(y: Sys, s: nat)
    requires SysOk(y) && s < |y.info| && y.info[s].state == Created
    ensures SysOk(Start(y, s))
    ensures Steady(y) ==> Steady(Start(y, s))
  {
    hide Sorted, Distinct;
    var A, at, t := y.agenda, StartCount(y.info[s]), y.info[s].(state := Ticking);
    assert s !in Ids(A) && s !in y.free;
    InsertAgendaOk(A, s, at);
    InsertMembers(A, s, at);
    Moved(Ids(A), Ids(StableInsert(A, s, at)), y.info, s, t, Ticking);
    Moved(y.free, y.free, y.info, s, t, Unused);
  }

  lemma DropOk(A: seq<Due>, k: nat)
    requires k < |A| && AgendaOk(A)
    ensures AgendaOk(Dropped(A, k))
    ensures forall x :: x in Ids(Dropped(A, k)) <==> x != A[k].id && x in Ids(A)
    ensures (forall i :: 0 <= i < |A| ==> A[i].at > 0) ==>
              forall i :: 0 <= i < |Dropped(A, k)| ==> Dropped(A, k)[i].at > 0
  {
    var B := Dropped(A, k);
    assert Ids(B) == Ids(A)[..k] + Ids(A)[k + 1..];
    assert Ids(A) == Ids(A)[..k] + [A[k].id] + Ids(A)[k + 1..];
    assert Ids(A)[k] == A[k].id;
  }

  lemma StopOk(y: Sys, s: nat)
    requires SysOk(y) && s < |y.info| && y.info[s].state == Ticking
    ensures SysOk(Stop(y, s)) && Stop(y, s).info[s].state == Created
    ensures Steady(y) ==> Steady(Stop(y, s))
  {
    hide Sorted, Distinct;
    var A, t := y.agenda, y.info[s].(state := Created, overrun := 0);
    var k := Find(A, s);
    assert s in Ids(A) && s !in y.free;
    DropOk(A, k);
    Moved(Ids(A), Ids(Dropped(A, k)), y.info, s, t, Ticking);
    Moved(y.free, y.free, y.info, s, t, Unused);
  }

  lemma DeleteOk(y: Sys, s: nat)
    requires SysOk(y) && s < |y.info| && y.info[s].state == Created
    ensures SysOk(Delete(y, s))
    ensures Steady(y) ==> Steady(Delete(y, s))
  {
    var t := y.info[s].(state := Unused);
    assert s !in Ids(y.agenda) && s !in y.free;
    Moved(Ids(y.agenda), Ids(y.agenda), y.info, s, t, Ticking);
    Moved(y.free, [s] + y.free, y.info, s, t, Unused);
  }

  lemma PopOk(y: Sys)
    requires SysOk(y) && y.agenda != []
    ensures var s := y.agenda[0].id;
            && s < |y.info| && y.info[s].state == Ticking
            && AgendaOk(y.agenda[1..]) && s !in Ids(y.agenda[1..]) && s !in y.free
            && (forall x :: x != s ==> (x in Ids(y.agenda[1..]) <==> x in Ids(y.agenda)))
  {
    var A := y.agenda;
    assert Ids(A)[0] == A[0].id && A[0].id in Ids(A);
    DropOk(A, 0);
    assert Dropped(A, 0) == A[1..];
  }

  // The id of slot s in generation g.
  function TimerId(s: nat, g: nat, limit: nat): nat { g * limit + s }

  lemma TimerIdParts(s: nat, g: nat, limit: nat)
    requires s < limit
    ensures TimerId(s, g, limit) / limit == g && TimerId(s, g, limit) % limit == s
  {
    DivModUnique(TimerId(s, g, limit), g, s, limit);
  }

  // The generations come in order, each limit ids long.
  lemma TimerIdStep(s: nat, g: nat, G: nat, limit: nat)
    requires s < limit && g < G
    ensures TimerId(s, g, limit) < G * limit
    ensures TimerId(s, g + 1, limit) == TimerId(s, g, limit) + limit
    ensures g + 1 < G <==> TimerId(s, g, limit) < G * limit - limit
  {
    MulMono(g + 1, G, limit);
    if g + 1 < G {
      MulMono(g + 2, G, limit);
    }
  }

  lemma GenerationBelow(s: nat, g: nat, G: nat, limit: nat)
    requires s < limit && TimerId(s, g, limit) < G * limit
    ensures g < G
  {
    if g >= G {
      MulMono(G, g, limit);
    }
  }

  // A one-shot expiry steps the slot's generation by one, modulo the number of generations.
  lemma NextIdIs(s: nat, g: nat, limit: nat)
    requires 0 < limit <= 65535 && s < limit && g < 65535 / limit
    ensures NextId(TimerId(s, g, limit), limit) == TimerId(s, if g + 1 < 65535 / limit then g + 1 else 0, limit)
  {
    var id, G, M := TimerId(s, g, limit), 65535 / limit, MaxTimerId(limit);
    assert M == G * limit;
    TimerIdStep(s, g, G, limit);
    TimerIdParts(s, g, limit);
    assert TimerId(s, 0, limit) == s;
    hide TimerId, MaxTimerId;
  }

  lemma StepModulo(g: nat, G: nat)
    requires g < G
    ensures (g + 1) % G == if g + 1 < G then g + 1 else 0
  {
  }

  function SlotOf(id: nat, limit: nat): (s: nat) requires limit > 0 ensures s < limit { id % limit }
  function GenerationOf(id: nat, limit: nat): nat requires limit > 0 { id / limit }
  function Generations(limit: nat): nat requires limit > 0 { 65535 / limit }

  lemma IdParts(id: nat, limit: nat)
    requires 0 < limit <= 65535 && id < MaxTimerId(limit)
    ensures SlotOf(id, limit) < limit && GenerationOf(id, limit) < Generations(limit)
    ensures id == TimerId(SlotOf(id, limit), GenerationOf(id, limit), limit)
  {
    GenerationBelow(id % limit, id / limit, 65535 / limit, limit);
  }

  lemma PartsId(s: nat, g: nat, limit: nat)
    requires s < limit && g < Generations(limit)
    ensures TimerId(s, g, limit) < MaxTimerId(limit)
    ensures SlotOf(TimerId(s, g, limit), limit) == s && GenerationOf(TimerId(s, g, limit), limit) == g
  {
    TimerIdParts(s, g, limit);
    TimerIdStep(s, g, Generations(limit), limit);
  }

  lemma NextIdOk(id: nat, limit: nat)
    requires 0 < limit <= 65535 && id < MaxTimerId(limit)
    ensures NextId(id, limit) < MaxTimerId(limit) && SlotOf(NextId(id, limit), limit) == SlotOf(id, limit)
    ensures GenerationOf(NextId(id, limit), limit) == (GenerationOf(id, limit) + 1) % Generations(limit)
  {
    var s, g, G := SlotOf(id, limit), GenerationOf(id, limit), Generations(limit);
    assert G == 65535 / limit;
    hide TimerId, NextId, MaxTimerId, SlotOf, GenerationOf, Generations;
    IdParts(id, limit);
    NextIdIs(s, g, limit);
    StepModulo(g, G);
    PartsId(s, if g + 1 < G then g + 1 else 0, limit);
  }

  // Firing a timer keeps the partition.
  lemma FireOk(y: Sys)
    requires SysOk(y) && y.agenda != []
    ensures SysOk(Fire(y))
  {
    var s := y.agenda[0].id;
    var A := y.agenda[1..];
    PopOk(y);
    if y.info[s].mode == LOS_SWTMR_MODE_ONCE {
      NextIdOk(y.info[s].id, |y.info|);
      var t := y.info[s].(state := Unused, id := NextId(y.info[s].id, |y.info|));
      assert Fire(y) == Sys(A, y.info[s := t], [s] + y.free);
      Moved(Ids(y.agenda), Ids(A), y.info, s, t, Ticking);
      Moved(y.free, [s] + y.free, y.info, s, t, Unused);
    } else {
      var t := y.info[s].(state := Ticking, overrun := (y.info[s].overrun + 1) % 256);
      var at := StartCount(t);
      assert Fire(y) == Sys(StableInsert(A, s, at), y.info[s := t], y.free);
      InsertAgendaOk(A, s, at);
      InsertMembers(A, s, at);
      Moved(Ids(y.agenda), Ids(StableInsert(A, s, at)), y.info, s, t, Ticking);
      Moved(y.free, y.free, y.info, s, t, Unused);
    }
  }
}

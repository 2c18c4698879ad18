// The software timers: one array of control blocks, a sorted list of delta counts and a free
// list. Every call does to the agenda exactly what the plain version says.

module SoftwareTimer {
  import opened Arith
  import opened Lists
  import opened DeltaList
  import opened SwtmrModel
  import opened SwtmrRuns
  import opened SwtmrLaws
  import opened SwtmrStarts

  predicate InRange(L: seq<nat>, n: nat) {
    forall i :: 0 <= i < |L| ==> L[i] < n
  }

  // The sort list as (slot, count) pairs.
  function Counts(L: seq<nat>, cb: seq<Timer>): (E: seq<Entry>)
    requires InRange(L, |cb|)
    ensures |E| == |L|
  {
    seq(|L|, i requires 0 <= i < |L| => Entry(L[i], cb[L[i]].count))
  }

  function Blocks(cb: seq<Timer>): (r: seq<Timer>)
    ensures |r| == |cb|
  {
    seq(|cb|, s requires 0 <= s < |cb| => cb[s].(count := 0))
  }

  // ---- What the loops of the source do to the list ------------------------------------------

  // cb' is cb but for timer s, now counting what is left of d after the first k entries, and for
  // the entry after those.
  ghost predicate Linked(L: seq<nat>, cb: seq<Timer>, cb': seq<Timer>, s: nat, d: nat, k: nat)
    requires InRange(L, |cb|)
  {
    var E := Counts(L, cb);
    && |cb'| == |cb| && s < |cb| && k <= |L| && Prefix(E, k) <= d && cb'[s].count == d - Prefix(E, k)
    && (k < |L| ==> d < At(E, k) && cb'[L[k]].count == At(E, k) - d)
    && forall x :: 0 <= x < |cb| && x != s && (k < |L| ==> x != L[k]) ==> cb'[x].count == cb[x].count
  }

  lemma PlaceIs(E: seq<Entry>, d: nat, k: nat)
    requires k <= |E| && Prefix(E, k) <= d && (k < |E| ==> d < At(E, k))
    ensures Place(E, d, 0) == k
  {
    var r := Place(E, d, 0);
    if r < k {
      PrefixMono(E, r + 1, k);
    }
  }

  lemma LinkedIs(L: seq<nat>, cb: seq<Timer>, cb': seq<Timer>, s: nat, d: nat, k: nat)
    requires InRange(L, |cb|) && Distinct(L) && s !in L && Linked(L, cb, cb', s, d, k)
    ensures InRange(InsertedAt(L, s, k), |cb'|)
    ensures Absolute(Counts(InsertedAt(L, s, k), cb')) == StableInsert(Absolute(Counts(L, cb)), s, d)
  {
    var E := Counts(L, cb);
    hide Absolute, StableInsert, Place;
    LinkedCounts(L, cb, cb', s, d, k);
    PlaceIs(E, d, k);
    InsertRefines(E, s, d);
  }

  lemma LinkedCounts(L: seq<nat>, cb: seq<Timer>, cb': seq<Timer>, s: nat, d: nat, k: nat)
    requires InRange(L, |cb|) && Distinct(L) && s !in L && Linked(L, cb, cb', s, d, k)
    ensures InRange(InsertedAt(L, s, k), |cb'|)
    ensures Counts(InsertedAt(L, s, k), cb') == InsertAt(Counts(L, cb), s, d, k)
  {
    hide Prefix, At;
    var E, P := Counts(L, cb), InsertedAt(L, s, k);
    forall i | 0 <= i < |P|
      ensures P[i] < |cb'| && Entry(P[i], cb'[P[i]].count) == InsertAt(E, s, d, k)[i]
    {
    }
  }

  // cb' is cb with the count of entry k passed on to the entry after it.
  ghost predicate Unlinked(L: seq<nat>, cb: seq<Timer>, cb': seq<Timer>, k: nat)
    requires InRange(L, |cb|)
  {
    && |cb'| == |cb| && k < |L|
    && (k + 1 < |L| ==> cb'[L[k + 1]].count == cb[L[k + 1]].count + cb[L[k]].count)
    && forall x :: 0 <= x < |cb| && (k + 1 < |L| ==> x != L[k + 1]) ==> cb'[x].count == cb[x].count
  }

  lemma UnlinkedIs(L: seq<nat>, cb: seq<Timer>, cb': seq<Timer>, k: nat)
    requires InRange(L, |cb|) && Distinct(L) && Unlinked(L, cb, cb', k)
    ensures InRange(RemovedAt(L, k), |cb'|)
    ensures Absolute(Counts(RemovedAt(L, k), cb')) == Dropped(Absolute(Counts(L, cb)), k)
  {
    var E, P := Counts(L, cb), RemovedAt(L, k);
    hide Absolute;
    forall i | 0 <= i < |P|
      ensures P[i] < |cb'| && Entry(P[i], cb'[P[i]].count) == Remove(E, k)[i]
    {
    }
    assert Counts(P, cb') == Remove(E, k);
    RemoveRefines(E, k);
  }

  // The agenda lists the slots of the sort list.
  lemma AgendaIds(L: seq<nat>, cb: seq<Timer>)
    requires InRange(L, |cb|)
    ensures Ids(Absolute(Counts(L, cb))) == L
  {
  }

  lemma FoundAt(A: seq<Due>, s: nat, k: nat)
    requires k < |A| && A[k].id == s && Distinct(Ids(A))
    ensures s in Ids(A) && Find(A, s) == k
  {
    assert Ids(A)[k] == s;
    var f := Find(A, s);
    assert Ids(A)[f] == s;
  }

  lemma BlocksUpdate(cb: seq<Timer>, cb': seq<Timer>, s: nat)
    requires s < |cb| == |cb'|
    requires forall x :: 0 <= x < |cb| && x != s ==> cb'[x].(count := 0) == cb[x].(count := 0)
    ensures Blocks(cb') == Blocks(cb)[s := cb'[s].(count := 0)]
  {
  }

  class SoftwareTimer {
    const cb: array<Timer>     // m_pstSwtmrCBArray
    var sortList: seq<nat>     // m_pstSwtmrSortList
    var freeList: seq<nat>     // m_pstSwtmrFreeList

    ghost predicate Ranged()
      reads this, cb
    {
      InRange(sortList, cb.Length) && Distinct(sortList)
    }

    ghost function View(): (y: Sys)
      reads this, cb
      requires Ranged()
      ensures |y.info| == cb.Length
    {
      Sys(Absolute(Counts(sortList, cb[..])), Blocks(cb[..]), freeList)
    }

    ghost predicate Valid()
      reads this, cb
    {
      Ranged() && SysOk(View())
    }

    // osSwTmrStart
    method SwTmrStart(s: nat)
      requires Ranged() && s < cb.Length && s !in sortList
      modifies this`sortList, cb
      ensures Ranged() && View() == Start(old(View()), s)
      ensures old(cb[s].overrun) == 0
              && (old(cb[s].mode) == LOS_SWTMR_MODE_ONCE || old(cb[s].mode) == LOS_SWTMR_MODE_OPP) ==>
                Left(View().agenda, s, old(cb[s].expiry))
      ensures old(cb[s].overrun) != 0 || old(cb[s].mode) == LOS_SWTMR_MODE_PERIOD ==>
                Left(View().agenda, s, old(cb[s].interval))
    {
      hide Prefix, StableInsert, Absolute, SysOk, Distinct, Blocks, Insert, InsertAt, Place, At;
      ghost var was, L := cb[..], sortList;
      var once := cb[s].mode == LOS_SWTMR_MODE_ONCE || cb[s].mode == LOS_SWTMR_MODE_OPP;
      var d := if cb[s].overrun == 0 && once then cb[s].expiry else cb[s].interval;
      cb[s] := cb[s].(count := d);
      ghost var E := Counts(L, was);
      var k := 0;
      PrefixStart(E);
      while k < |sortList|
        invariant k <= |L| && sortList == L && freeList == old(freeList)
        invariant Prefix(E, k) <= d
        invariant cb[..] == was[s := was[s].(count := d - Prefix(E, k))]
      {
        PrefixNext(E, k);
        assert E[k] == Entry(L[k], was[L[k]].count) && L[k] in L;
        if cb[sortList[k]].count > cb[s].count {
          break;
        }
        cb[s] := cb[s].(count := cb[s].count - cb[sortList[k]].count);
        k := k + 1;
      }
      if k < |sortList| {
        PrefixNext(E, k);
        assert E[k] == Entry(L[k], was[L[k]].count) && L[k] in L;
        cb[sortList[k]] := cb[sortList[k]].(count := cb[sortList[k]].count - cb[s].count);
      }
      sortList := sortList[..k] + [s] + sortList[k..];
      cb[s] := cb[s].(state := Ticking);
      LinkedIs(L, was, cb[..], s, d, k);
      PutDistinct(L, s, k);
      BlocksUpdate(was, cb[..], s);
      BlockAt(was, s);
      assert d == StartCount(was[s]);
      InsertContains(Absolute(Counts(L, was)), s, d, Due(s, d));
    }

    // osSwtmrStop: a ticking timer leaves the sort list.
    method SwtmrStop(s: nat)
      requires Valid() && s < cb.Length && s in sortList
      modifies this`sortList, cb
      ensures Ranged() && s in Ids(old(View()).agenda) && View() == Stop(old(View()), s) && s !in sortList
    {
      hide Absolute, SysOk, Blocks, Ids;
      ghost var was, L := cb[..], sortList;
      AgendaIds(L, was);
      var k := 0;
      while sortList[k] != s
        invariant k < |L| && sortList == L && s !in L[..k] && s in L
        invariant cb[..] == was && freeList == old(freeList)
        decreases |L| - k
      {
        InTail(L, s, k);
        k := k + 1;
      }
      if k + 1 < |sortList| {
        cb[sortList[k + 1]] := cb[sortList[k + 1]].(count := cb[sortList[k + 1]].count + cb[s].count);
      }
      sortList := sortList[..k] + sortList[k + 1..];
      cb[s] := cb[s].(state := Created, overrun := 0);
      UnlinkedIs(L, was, cb[..], k);
      AgendaAt(L, was, k);
      FoundAt(Absolute(Counts(L, was)), s, k);
      BlocksUpdate(was, cb[..], s);
      BlockAt(was, s);
      CutDistinct(L, k);
    }

    // osSwtmrDelete
    method SwtmrDelete(s: nat)
      requires Ranged() && s < cb.Length
      modifies this`freeList, cb
      ensures Ranged() && View() == Delete(old(View()), s)
    {
      hide Absolute, Ids;
      freeList := [s] + freeList;
      cb[s] := cb[s].(state := Unused);
      assert Counts(sortList, cb[..]) == Counts(sortList, old(cb[..]));
      BlocksUpdate(old(cb[..]), cb[..], s);
    }

    // One round of the loop of osSwTmrTimeoutHandle.
    method Pop() returns (s: nat)
      requires Valid() && sortList != [] && cb[sortList[0]].count == 0
      modifies this, cb
      ensures Valid() && old(View()).agenda != [] && s == old(View()).agenda[0].id && old(View()).agenda[0].at == 0
      ensures View() == Fire(old(View()))
    {
      hide Absolute, SysOk, Blocks, Ids, Fire;
      ghost var was, L := cb[..], sortList;
      ghost var y := View();
      FireOk(y);
      SizeOk(y);
      HeadAgenda(L, was);
      s := sortList[0];
      sortList := sortList[1..];
      assert RemovedAt(L, 0) == L[1..];
      UnlinkedHead(L, was);
      CutDistinct(L, 0);
      assert s !in sortList;
      ghost var popped := View();
      assert popped == y.(agenda := y.agenda[1..]);
      BlockAt(was, s);
      FireParts(y);
      if cb[s].mode == LOS_SWTMR_MODE_ONCE {
        SwtmrDelete(s);
        Renumber(s);
      } else {
        Overrun(s);
        SwTmrStart(s);
      }
    }

    // The slot gets its next id.
    method Renumber(s: nat)
      requires Ranged() && s < cb.Length && 0 < cb.Length <= 65535
      modifies cb
      ensures Ranged() && View() == Renumbered(old(View()), s)
    {
      hide Absolute, Ids;
      var id := cb[s].id;
      if id as int < MaxTimerId(cb.Length) as int - cb.Length as int {
        cb[s] := cb[s].(id := id + cb.Length);
      } else {
        cb[s] := cb[s].(id := id % cb.Length);
      }
      assert Counts(sortList, cb[..]) == Counts(sortList, old(cb[..]));
      BlocksUpdate(old(cb[..]), cb[..], s);
    }

    // ucOverrun++, an eight-bit counter.
    method Overrun(s: nat)
      requires Ranged() && s < cb.Length
      modifies cb
      ensures Ranged() && View() == Overran(old(View()), s)
    {
      hide Absolute, Ids;
      cb[s] := cb[s].(overrun := (cb[s].overrun + 1) % 256);
      assert Counts(sortList, cb[..]) == Counts(sortList, old(cb[..]));
      BlocksUpdate(old(cb[..]), cb[..], s);
    }

    // osSwTmrTimeoutHandle
    method TimeoutHandle() returns (fired: seq<nat>)
      requires Valid()
      modifies this, cb
      ensures Valid() && (View(), fired) == Expire(old(View()))
    {
      hide Absolute, SysOk, Ids, Fire, Blocks, Expire;
      ghost var y := View();
      fired := [];
      assert [] + Expire(y).1 == Expire(y).1;
      while sortList != [] && cb[sortList[0]].count == 0
        invariant Valid()
        invariant Expire(y) == (Expire(View()).0, fired + Expire(View()).1)
        decreases Zeros(View().agenda)
      {
        ghost var x := View();
        HeadAgenda(sortList, cb[..]);
        FireIs(x);
        var s := Pop();
        ExpireNext(x);
        assert fired + Expire(x).1 == fired + [s] + Expire(View()).1;
        fired := fired + [s];
      }
      if sortList != [] {
        HeadAgenda(sortList, cb[..]);
      }
      ExpireDone(View());
      assert fired + [] == fired;
    }

    // osSwtmrScan
    method SwtmrScan() returns (fired: seq<nat>)
      requires Valid() && Steady(View())
      modifies this, cb
      ensures Valid() && (View(), fired) == Scan(old(View()))
    {
      hide Absolute, SysOk, Ids, Expire, Blocks, Steady;
      ghost var y := View();
      ScanIsExpire(y);
      fired := [];
      if sortList != [] {
        SteadyHead(sortList, cb[..], y);
        Sleep(1);
        if cb[sortList[0]].count == 0 {
          fired := TimeoutHandle();
        } else {
          HeadAgenda(sortList, cb[..]);
          ExpireDone(View());
        }
      } else {
        HeadAgenda(sortList, cb[..]);
        ScanEmpty(y);
      }
    }

    // The count of the first timer goes down.
    method Sleep(n: nat)
      requires Valid() && sortList != [] && n <= cb[sortList[0]].count
      modifies cb
      ensures NotBefore(old(View()).agenda, n)
      ensures Valid() && View() == Elapse(old(View()), n)
    {
      hide Absolute, SysOk, Ids, Blocks;
      ghost var was, y, L := cb[..], View(), sortList;
      var h := sortList[0];
      cb[h] := cb[h].(count := cb[h].count - n);
      AgeRefines(Counts(L, was), n);
      assert Counts(L, cb[..]) == Age(Counts(L, was), n);
      BlocksUpdate(was, cb[..], h);
      BlockAt(was, h);
      assert Blocks(was)[h := Blocks(was)[h]] == Blocks(was);
      ElapseOk(y, n);
    }

    // osSwTmrAdjust
    method SwTmrAdjust(sleepTime: nat) returns (fired: seq<nat>)
      requires Valid() && Steady(View()) && sortList != []
      modifies this, cb
      ensures Valid() && old(View()).agenda != [] && (View(), fired) == Adjust(old(View()), sleepTime)
    {
      hide Absolute, SysOk, Ids, Expire, Blocks, Steady;
      var n := sleepTime;
      HeadAgenda(sortList, cb[..]);
      if n > cb[sortList[0]].count {
        n := cb[sortList[0]].count;
      }
      Sleep(n);
      HeadAgenda(sortList, cb[..]);
      fired := [];
      if cb[sortList[0]].count == 0 {
        fired := TimeoutHandle();
      }
    }

    // osSwTmrInit: every slot is free and named by its index.
    constructor (limit: nat)
      requires 0 < limit <= 65535
      ensures cb.Length == limit && fresh(cb) && Valid() && Steady(View())
      ensures View().agenda == [] && freeList == Slots(limit)
    {
      cb := new Timer[limit](s requires 0 <= s < limit => Timer(Unused, 0, 0, s, 0, 0, 0));
      sortList := [];
      freeList := Slots(limit);
      new;
      UpTo(limit);
      forall s | 0 <= s < limit
        ensures TimerOk(View().info[s], s, limit)
      {
        FreshBlock(s, limit);
      }
      hide TimerOk;
    }

    // The test of the id that every call begins with.
    method Lookup(id: nat) returns (ok: bool, s: nat)
      requires Valid()
      ensures ok == Names(View(), id) && s < cb.Length
      ensures s == SlotOf(id, cb.Length) && (s in sortList <==> cb[s].state == Ticking)
      ensures View().info[s].state == cb[s].state
    {
      hide Absolute, Ids, SysOk;
      SizeOk(View());
      s := id % cb.Length;
      TickingListed(sortList, cb[..], View(), s);
      ok := id < MaxTimerId(cb.Length) && cb[s].id == id;
    }

    // LOS_SwtmrCreate
    method SwtmrCreate(interval: Word, mode: nat, handler: bool, ret: bool) returns (code: Code, id: nat)
      requires Valid() && Steady(View())
      modifies this, cb
      ensures Valid() && Steady(View())
      ensures (View(), code) == CreateTimer(old(View()), interval, mode, handler, ret)
      ensures code == Ok ==>
                && old(freeList) != [] && old(freeList)[0] < cb.Length
                && id == old(View()).info[old(freeList)[0]].id
                && Names(View(), id) && View().info[SlotOf(id, cb.Length)].state == Created
    {
      hide Absolute, Ids, AgendaOk, MaxTimerId;
      id := 0;
      DoOk(View(), CreateOp(interval, mode, handler, ret));
      if interval == 0 {
        return IntervalNotSuited, id;
      }
      if mode != LOS_SWTMR_MODE_ONCE && mode != LOS_SWTMR_MODE_PERIOD {
        return ModeInvalid, id;
      }
      if !handler {
        return PtrNull, id;
      }
      if !ret {
        return RetPtrNull, id;
      }
      if freeList == [] {
        return MaxSize, id;
      }
      var s := freeList[0];
      assert s in freeList;
      freeList := freeList[1..];
      TickingListed(sortList, cb[..], old(View()), s);
      cb[s] := Timer(Created, mode, 0, cb[s].id, 0, interval, interval);
      assert Counts(sortList, cb[..]) == Counts(sortList, old(cb[..]));
      BlocksUpdate(old(cb[..]), cb[..], s);
      id := cb[s].id;
      code := Ok;
    }

    // LOS_SwtmrStart
    method SwtmrStart(id: nat) returns (code: Code)
      requires Valid() && Steady(View())
      modifies this, cb
      ensures Valid() && Steady(View())
      ensures (View(), code) == StartTimer(old(View()), id)
      ensures code == Ok <==> old(Names(View(), id)) && old(View()).info[SlotOf(id, cb.Length)].state != Unused
      ensures code == Ok ==>
                Left(View().agenda, SlotOf(id, cb.Length), old(View()).info[SlotOf(id, cb.Length)].interval)
    {
      hide Absolute, Ids, SysOk, Start, Stop, Names, Blocks, Left;
      DoOk(View(), StartOp(id));
      StartAnswers(View(), id);
      var ok, s := Lookup(id);
      if !ok {
        return IdInvalid;
      }
      if cb[s].state == Unused {
        return NotCreated;
      }
      if cb[s].state == Ticking {
        SwtmrStop(s);
      }
      SwTmrStart(s);
      code := Ok;
    }

    // LOS_SwtmrStop
    method SwtmrStopId(id: nat) returns (code: Code)
      requires Valid() && Steady(View())
      modifies this, cb
      ensures Valid() && Steady(View())
      ensures (View(), code) == StopTimer(old(View()), id)
    {
      hide Absolute, Ids, SysOk, Stop, Names, Blocks;
      DoOk(View(), StopOp(id));
      var ok, s := Lookup(id);
      if !ok {
        return IdInvalid;
      }
      if cb[s].state == Unused {
        return NotCreated;
      }
      if cb[s].state == Created {
        return NotStarted;
      }
      SwtmrStop(s);
      code := Ok;
    }

    // LOS_SwtmrDelete
    method SwtmrDeleteId(id: nat) returns (code: Code)
      requires Valid() && Steady(View())
      modifies this, cb
      ensures Valid() && Steady(View())
      ensures (View(), code) == DeleteTimer(old(View()), id)
    {
      hide Absolute, Ids, SysOk, Delete, Stop, Names, Blocks;
      DoOk(View(), DeleteOp(id));
      var ok, s := Lookup(id);
      if !ok {
        return IdInvalid;
      }
      if cb[s].state == Unused {
        return NotCreated;
      }
      if cb[s].state == Ticking {
        SwtmrStop(s);
      }
      SwtmrDelete(s);
      code := Ok;
    }
  }

  // A sort list says which timers tick.
  lemma TickingListed(L: seq<nat>, cb: seq<Timer>, y: Sys, s: nat)
    requires InRange(L, |cb|) && y.agenda == Absolute(Counts(L, cb)) && y.info == Blocks(cb) && SysOk(y) && s < |cb|
    ensures s in L <==> cb[s].state == Ticking
  {
    AgendaIds(L, cb);
  }

  lemma UpTo(n: nat)
    ensures Distinct(Slots(n)) && forall s: nat :: s in Slots(n) <==> s < n
  {
    forall s: nat | s < n
      ensures s in Slots(n)
    {
      assert Slots(n)[s] == s;
    }
  }

  lemma FreshBlock(s: nat, limit: nat)
    requires s < limit <= 65535
    ensures TimerOk(Timer(Unused, 0, 0, s, 0, 0, 0), s, limit)
  {
    assert TimerId(s, 0, limit) == s;
    MulMono(1, 65535 / limit, limit);
    TimerIdParts(s, 0, limit);
  }

  function Slots(n: nat): (L: seq<nat>)
    ensures |L| == n
  {
    seq(n, s => s)
  }

  lemma PrefixStart(E: seq<Entry>)
    ensures Prefix(E, 0) == 0
  {
  }

  lemma BlockAt(cb: seq<Timer>, s: nat)
    requires s < |cb|
    ensures Blocks(cb)[s] == cb[s].(count := 0)
  {
  }

  // What the two branches of a round make of the popped agenda.
  lemma FireParts(y: Sys)
    requires SysOk(y) && y.agenda != []
    ensures var (s, rest) := (y.agenda[0].id, y.(agenda := y.agenda[1..]));
            && s < |y.info| && 0 < |y.info| <= 65535
            && Fire(y) == if y.info[s].mode == LOS_SWTMR_MODE_ONCE then Renumbered(Delete(rest, s), s)
                          else Start(Overran(rest, s), s)
  {
    PopOk(y);
    hide AgendaOk, Listing;
  }

  lemma ScanEmpty(y: Sys)
    requires Steady(y) && y.agenda == []
    ensures Scan(y) == (y, [])
  {
  }

  lemma SizeOk(y: Sys)
    requires SysOk(y)
    ensures 0 < |y.info| <= 65535
  {
  }

  lemma SteadyHead(L: seq<nat>, cb: seq<Timer>, y: Sys)
    requires InRange(L, |cb|) && L != [] && Steady(y) && y.agenda == Absolute(Counts(L, cb))
    ensures cb[L[0]].count > 0
  {
    HeadAgenda(L, cb);
  }

  lemma ExpireDone(x: Sys)
    requires SysOk(x) && (x.agenda == [] || x.agenda[0].at > 0)
    ensures Expire(x) == (x, [])
  {
    hide SysOk;
  }

  lemma HeadAgenda(L: seq<nat>, cb: seq<Timer>)
    requires InRange(L, |cb|)
    ensures L == [] <==> Absolute(Counts(L, cb)) == []
    ensures L != [] ==> Absolute(Counts(L, cb))[0] == Due(L[0], cb[L[0]].count)
  {
    if L != [] {
      var E := Counts(L, cb);
      assert At(E, 0) == Prefix(E, 0) + E[0].delta;
    }
  }

  lemma AgendaAt(L: seq<nat>, cb: seq<Timer>, k: nat)
    requires InRange(L, |cb|) && k < |L|
    ensures Absolute(Counts(L, cb))[k].id == L[k]
  {
  }

  lemma UnlinkedHead(L: seq<nat>, cb: seq<Timer>)
    requires InRange(L, |cb|) && Distinct(L) && L != [] && cb[L[0]].count == 0
    ensures InRange(L[1..], |cb|) && Absolute(Counts(L[1..], cb)) == Absolute(Counts(L, cb))[1..]
  {
    assert RemovedAt(L, 0) == L[1..];
    UnlinkedIs(L, cb, cb, 0);
  }

  lemma CutDistinct(L: seq<nat>, k: nat)
    requires k < |L| && Distinct(L)
    ensures Distinct(RemovedAt(L, k)) && L[k] !in RemovedAt(L, k)
  {
  }

  lemma InTail(L: seq<nat>, s: nat, k: nat)
    requires k < |L| && s in L && s !in L[..k] && L[k] != s
    ensures k + 1 < |L| && s !in L[..k + 1]
  {
    assert L[..k + 1] == L[..k] + [L[k]];
    assert L == L[..k + 1] + L[k + 1..];
  }

  lemma PrefixNext(E: seq<Entry>, k: nat)
    requires k < |E|
    ensures Prefix(E, k + 1) == At(E, k) == Prefix(E, k) + E[k].delta
  {
  }

  lemma PutDistinct(L: seq<nat>, s: nat, k: nat)
    requires k <= |L| && s !in L && Distinct(L)
    ensures Distinct(InsertedAt(L, s, k))
  {
  }
}

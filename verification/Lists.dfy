// Lists of tasks, timers or blocks: no member twice, and what one insertion or removal does.

module Lists {

  ghost predicate Distinct(L: seq<nat>) {
    forall i, j :: 0 <= i < j < |L| ==> L[i] != L[j]
  }

  // x at position k, what was there and after it one further.
  function InsertedAt(L: seq<nat>, x: nat, k: nat): seq<nat>
    requires k <= |L|
  {
    L[..k] + [x] + L[k..]
  }

  function RemovedAt(L: seq<nat>, k: nat): seq<nat>
    requires k < |L|
  {
    L[..k] + L[k + 1..]
  }

  // LOS_ListDelete: the list without its member t.
  function Without(L: seq<nat>, t: nat): (r: seq<nat>)
    ensures |r| <= |L|
  {
    if L == [] then [] else if L[0] == t then L[1..] else [L[0]] + Without(L[1..], t)
  }

  lemma {:induction false} WithoutIs(L: seq<nat>, t: nat)
    requires Distinct(L)
    ensures Distinct(Without(L, t)) && forall x: nat :: x in Without(L, t) <==> x != t && x in L
  {
    if L != [] {
      TailIs(L);
      assert L == [L[0]] + L[1..];
      WithoutIs(L[1..], t);
      ConsDistinct(L[0], Without(L[1..], t));
    }
  }

  lemma TailIs(L: seq<nat>)
    requires L != [] && Distinct(L)
    ensures Distinct(L[1..]) && forall x: nat :: x in L[1..] <==> x in L && x != L[0]
  {
    assert L == [L[0]] + L[1..];
  }

  lemma ConsDistinct(x: nat, L: seq<nat>)
    ensures Distinct(L) && x !in L ==> Distinct([x] + L)
  {
  }

  lemma InsertedIs(L: seq<nat>, t: nat, k: nat)
    requires k <= |L| && t !in L && Distinct(L)
    ensures Distinct(L[..k] + [t] + L[k..]) && forall x: nat :: x in L[..k] + [t] + L[k..] <==> x == t || x in L
  {
    assert (L[..k] + [t] + L[k..])[k] == t && L == L[..k] + L[k..];
  }

  lemma AppendedIs(L: seq<nat>, t: nat)
    requires t !in L && Distinct(L)
    ensures Distinct(L + [t]) && forall x: nat :: x in L + [t] <==> x == t || x in L
  {
    InsertedIs(L, t, |L|);
    assert L[..|L|] + [t] + L[|L|..] == L + [t];
  }

  lemma {:induction false} DistinctSize(L: seq<nat>)
    requires Distinct(L)
    ensures |set t: nat | t in L| == |L|
  {
    if L != [] {
      TailIs(L);
      DistinctSize(L[1..]);
      assert (set t: nat | t in L) == {L[0]} + set t: nat | t in L[1..];
    }
  }
}

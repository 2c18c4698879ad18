// Delta lists: each entry stores how much later it is due than the entry before it. The task
// delay wheel keeps one per slot, the software timers keep one in all. This module says what the
// list operations do to the due times a list stands for.

module DeltaList {

  datatype Entry = Entry(id: nat, delta: nat)
  datatype Due = Due(id: nat, at: nat)

  // The sum of the first k deltas.
  function Prefix(L: seq<Entry>, k: nat): nat
    requires k <= |L|
  {
    if k == 0 then 0 else Prefix(L, k - 1) + L[k - 1].delta
  }

  // When entry i is due.
  function At(L: seq<Entry>, i: nat): nat
    requires i < |L|
  {
    Prefix(L, i + 1)
  }

  // The due times a delta list stands for.
  function Absolute(L: seq<Entry>): (S: seq<Due>)
    ensures |S| == |L|
  {
    seq(|L|, i requires 0 <= i < |L| => Due(L[i].id, At(L, i)))
  }

  // How many entries from k on the source's insertion loop passes: those due no later than d.
  function Place(L: seq<Entry>, d: nat, k: nat): (r: nat)
    requires k <= |L| && Prefix(L, k) <= d
    ensures k <= r <= |L| && Prefix(L, r) <= d
    ensures forall i :: k <= i < r ==> At(L, i) <= d
    ensures r < |L| ==> d < At(L, r)
    decreases |L| - k
  {
    if k < |L| && At(L, k) <= d then Place(L, d, k + 1) else k
  }

  // The list after an insertion due in d: the new entry pays for those it passed, the next one
  // (if any) is charged only what is left.
  function Insert(L: seq<Entry>, id: nat, d: nat): seq<Entry>
  {
    InsertAt(L, id, d, Place(L, d, 0))
  }

  function InsertAt(L: seq<Entry>, id: nat, d: nat, k: nat): seq<Entry>
    requires k <= |L| && Prefix(L, k) <= d && (k < |L| ==> d < At(L, k))
  {
    L[..k] + [Entry(id, d - Prefix(L, k))] +
    if k < |L| then [Entry(L[k].id, At(L, k) - d)] + L[k + 1..] else []
  }

  // Deletion: the entry after the removed one inherits its delta.
  function Remove(L: seq<Entry>, k: nat): seq<Entry>
    requires k < |L|
  {
    L[..k] + if k + 1 < |L| then [Entry(L[k + 1].id, L[k + 1].delta + L[k].delta)] + L[k + 2..] else []
  }

  // Time passing: only the first entry changes.
  function Age(L: seq<Entry>, n: nat): seq<Entry>
    requires L != [] ==> n <= L[0].delta
  {
    if L == [] then [] else [Entry(L[0].id, L[0].delta - n)] + L[1..]
  }

  // ---- The plain version -------------------------------------------------------------

  ghost predicate Sorted(S: seq<Due>) {
    forall i, j :: 0 <= i < j < |S| ==> S[i].at <= S[j].at
  }

  // Inserting into a sorted list, after everything due no later.
  function StableInsert(S: seq<Due>, id: nat, at: nat): seq<Due>
  {
    if S == [] then [Due(id, at)]
    else if S[0].at <= at then [S[0]] + StableInsert(S[1..], id, at)
    else [Due(id, at)] + S
  }

  function Earlier(S: seq<Due>, n: nat): seq<Due>
    requires forall i :: 0 <= i < |S| ==> S[i].at >= n
  {
    seq(|S|, i requires 0 <= i < |S| => Due(S[i].id, S[i].at - n))
  }

  lemma {:induction false} StableInsertIs(S: seq<Due>, id: nat, at: nat, k: nat)
    requires k <= |S|
    requires forall i :: 0 <= i < k ==> S[i].at <= at
    requires k < |S| ==> at < S[k].at
    ensures StableInsert(S, id, at) == S[..k] + [Due(id, at)] + S[k..]
  {
    if k > 0 {
      StableInsertIs(S[1..], id, at, k - 1);
      assert S[..k] == [S[0]] + S[1..][..k - 1] && S[k..] == S[1..][k - 1..];
    }
  }

  // ---- Prefix sums -------------------------------------------------------------------

  lemma {:induction false} PrefixMono(L: seq<Entry>, i: nat, j: nat)
    requires i <= j <= |L|
    ensures Prefix(L, i) <= Prefix(L, j)
  {
    if i < j {
      PrefixMono(L, i, j - 1);
    }
  }

  // Equal deltas give equal sums.
  lemma {:induction false} PrefixSame(L: seq<Entry>, M: seq<Entry>, k: nat)
    requires k <= |L| && k <= |M|
    requires forall t :: 0 <= t < k ==> L[t].delta == M[t].delta
    ensures Prefix(L, k) == Prefix(M, k)
  {
    if k > 0 {
      PrefixSame(L, M, k - 1);
    }
  }

  // Equal deltas from two positions on give equal increases.
  lemma {:induction false} PrefixTail(L: seq<Entry>, i: nat, M: seq<Entry>, j: nat, n: nat)
    requires i + n <= |L| && j + n <= |M|
    requires L[i..i + n] == M[j..j + n]
    ensures Prefix(L, i + n) - Prefix(L, i) == Prefix(M, j + n) - Prefix(M, j)
  {
    if n > 0 {
      assert L[i..i + n][..n - 1] == L[i..i + (n - 1)] && M[j..j + n][..n - 1] == M[j..j + (n - 1)];
      PrefixTail(L, i, M, j, n - 1);
      assert L[i..i + n][n - 1] == L[i + n - 1] && M[j..j + n][n - 1] == M[j + n - 1];
    }
  }

  // ---- The delta list refines the sorted list ----------------------------------------

  lemma InsertRefines(L: seq<Entry>, id: nat, d: nat)
    ensures Absolute(Insert(L, id, d)) == StableInsert(Absolute(L), id, d)
  {
    var k := Place(L, d, 0);
    var L', S := Insert(L, id, d), Absolute(L);
    forall i | 0 <= i < |L'|
      ensures Absolute(L')[i] == (S[..k] + [Due(id, d)] + S[k..])[i]
    {
      InsertPrefix(L, id, d, k, i);
    }
    assert Absolute(L') == S[..k] + [Due(id, d)] + S[k..];
    StableInsertIs(S, id, d, k);
  }

  lemma InsertPrefix(L: seq<Entry>, id: nat, d: nat, k: nat, i: nat)
    requires k <= |L| && Prefix(L, k) <= d && (k < |L| ==> d < At(L, k)) && i <= |L|
    ensures Prefix(InsertAt(L, id, d, k), i + 1) ==
            if i < k then Prefix(L, i + 1) else if i == k then d else Prefix(L, i)
    ensures InsertAt(L, id, d, k)[i].id == if i < k then L[i].id else if i == k then id else L[i - 1].id
  {
    var L' := InsertAt(L, id, d, k);
    if i < k {
      PrefixSame(L', L, i + 1);
    } else {
      PrefixSame(L', L, k);
      if i > k {
        assert Prefix(L', k + 2) == Prefix(L', k + 1) + L'[k + 1].delta;
        assert L'[k + 2..k + 2 + (i - k - 1)] == L[k + 1..k + 1 + (i - k - 1)];
        PrefixTail(L', k + 2, L, k + 1, i - k - 1);
      }
    }
  }

  lemma RemoveRefines(L: seq<Entry>, k: nat)
    requires k < |L|
    ensures Absolute(Remove(L, k)) == Absolute(L)[..k] + Absolute(L)[k + 1..]
  {
    var R := Remove(L, k);
    forall i | 0 <= i < |R|
      ensures At(R, i) == At(L, if i < k then i else i + 1)
    {
      if i < k {
        PrefixSame(R, L, i + 1);
      } else {
        PrefixSame(R, L, k);
        assert Prefix(R, k + 1) == Prefix(L, k + 2);
        assert R[k + 1..k + 1 + (i - k)] == L[k + 2..k + 2 + (i - k)];
        PrefixTail(R, k + 1, L, k + 2, i - k);
      }
    }
  }

  lemma RemoveAt(L: seq<Entry>, k: nat, i: nat)
    requires k < |L| && i + 1 < |L|
    ensures |Remove(L, k)| == |L| - 1
    ensures At(Remove(L, k), i) == At(L, if i < k then i else i + 1)
    ensures Remove(L, k)[i].id == L[if i < k then i else i + 1].id
  {
    RemoveRefines(L, k);
    assert Absolute(Remove(L, k))[i] == (Absolute(L)[..k] + Absolute(L)[k + 1..])[i];
  }

  // A removal keeps the total, or lowers it when the last entry goes.
  lemma RemoveTotal(L: seq<Entry>, k: nat)
    requires k < |L|
    ensures |Remove(L, k)| == |L| - 1
    ensures Prefix(Remove(L, k), |L| - 1) <= Prefix(L, |L|)
  {
    if |L| > 1 {
      RemoveAt(L, k, |L| - 2);
      PrefixMono(L, |L| - 1, |L|);
    }
  }

  // Dropping entries that are due at once changes no due time.
  lemma TailAt(L: seq<Entry>, z: nat, i: nat)
    requires z + i < |L| && Prefix(L, z) == 0
    ensures At(L[z..], i) == At(L, z + i)
  {
    assert L[z..][0..i + 1] == L[z..z + (i + 1)];
    PrefixTail(L[z..], 0, L, z, i + 1);
  }

  lemma AgeAt(L: seq<Entry>, n: nat, i: nat)
    requires i < |L| && n <= L[0].delta
    ensures At(L, i) >= n && At(Age(L, n), i) == At(L, i) - n
  {
    var A := Age(L, n);
    PrefixMono(L, 1, i + 1);
    assert Prefix(L, 1) == Prefix(L, 0) + L[0].delta && Prefix(A, 1) == Prefix(A, 0) + A[0].delta;
    assert A[1..1 + i] == L[1..1 + i];
    PrefixTail(A, 1, L, 1, i);
  }

  lemma AgeRefines(L: seq<Entry>, n: nat)
    requires L != [] && n <= L[0].delta
    ensures forall i :: 0 <= i < |L| ==> Absolute(L)[i].at >= n
    ensures Absolute(Age(L, n)) == Earlier(Absolute(L), n)
  {
    hide At;
    forall i | 0 <= i < |L|
      ensures At(L, i) >= n && At(Age(L, n), i) == At(L, i) - n
    {
      AgeAt(L, n, i);
    }
  }

  // An insertion keeps a sorted list sorted.
  lemma {:induction false} StableInsertSorted(S: seq<Due>, id: nat, at: nat)
    requires Sorted(S)
    ensures Sorted(StableInsert(S, id, at))
  {
    if S != [] && S[0].at <= at {
      StableInsertSorted(S[1..], id, at);
      NoneEarlier(S[1..], id, at, S[0].at);
    }
  }

  lemma {:induction false} NoneEarlier(S: seq<Due>, id: nat, at: nat, from: nat)
    requires from <= at && forall i :: 0 <= i < |S| ==> from <= S[i].at
    ensures forall i :: 0 <= i < |StableInsert(S, id, at)| ==> from <= StableInsert(S, id, at)[i].at
  {
    if S != [] && S[0].at <= at {
      NoneEarlier(S[1..], id, at, from);
    }
  }

  // It adds the new entry and nothing else.
  lemma {:induction false} StableInsertContents(S: seq<Due>, id: nat, at: nat)
    ensures multiset(StableInsert(S, id, at)) == multiset(S) + multiset{Due(id, at)}
  {
    if S == [] {
    } else if S[0].at <= at {
      StableInsertContents(S[1..], id, at);
      assert S == [S[0]] + S[1..];
    } else {
      assert multiset([Due(id, at)] + S) == multiset{Due(id, at)} + multiset(S);
    }
  }
}

// The task delay wheel: 32 slots, each a delta list of how many more turns of the wheel a task
// has to wait. It refines a plain countdown: a map from task to ticks left.

module TimingWheel {
  import opened Lists
  import opened DeltaList

  const SORTLINK_LEN: nat := 32
  const ROLL_LIMIT: nat := 0x800_0000
  const WORD: nat := 0x1_0000_0000

  // ---- uwIdxRollNum: five bits of slot above 27 bits of roll count ---------------------

  function Roll(w: nat): nat { w % ROLL_LIMIT }

  function SortIndex(w: nat): nat { w / ROLL_LIMIT }

  // EVALUATE_L: the low part is or-ed in, so it must fit.
  function EvaluateL(w: nat, v: nat): nat { w - w % ROLL_LIMIT + v }

  // EVALUATE_H
  function EvaluateH(w: nat, v: nat): nat { w % ROLL_LIMIT + v * ROLL_LIMIT }

  // UWROLLNUMSUB
  function RollSub(w: nat, v: nat): nat
    requires Roll(w) >= Roll(v)
  {
    w - Roll(v)
  }

  // UWROLLNUMADD: the sum is or-ed in, so it must fit.
  function RollAdd(w: nat, v: nat): nat { w + Roll(v) }

  lemma PackedWord(w: nat, v: nat, slot: nat)
    requires w < WORD && slot < SORTLINK_LEN
    ensures v < ROLL_LIMIT ==>
              && Roll(EvaluateH(EvaluateL(w, v), slot)) == v
              && SortIndex(EvaluateH(EvaluateL(w, v), slot)) == slot
    ensures v < ROLL_LIMIT ==> EvaluateH(EvaluateL(w, v), slot) < WORD
  {
  }

  lemma PackedSub(w: nat, v: nat)
    requires v <= Roll(w)
    ensures Roll(w - v) == Roll(w) - v && SortIndex(w - v) == SortIndex(w)
  {
  }

  lemma PackedAdd(w: nat, v: nat)
    requires Roll(w) + v < ROLL_LIMIT
    ensures Roll(w + v) == Roll(w) + v && SortIndex(w + v) == SortIndex(w)
  {
  }

  // ---- What the wheel stands for -------------------------------------------------------

  // Ticks until the cursor next reaches slot s.
  function Distance(cursor: nat, s: nat): nat
    requires cursor < SORTLINK_LEN && s < SORTLINK_LEN
  {
    if s > cursor then s - cursor else s + SORTLINK_LEN - cursor
  }

  // The delta list of a slot.
  function Entries(L: seq<nat>, word: seq<nat>): (E: seq<Entry>)
    requires forall i :: 0 <= i < |L| ==> L[i] < |word|
    ensures |E| == |L|
  {
    seq(|L|, i requires 0 <= i < |L| => Entry(L[i], Roll(word[L[i]])))
  }

  // Ticks left for entry i of slot s.
  function Left(cursor: nat, s: nat, E: seq<Entry>, i: nat): nat
    requires cursor < SORTLINK_LEN && s < SORTLINK_LEN && i < |E|
  {
    Distance(cursor, s) + SORTLINK_LEN * At(E, i)
  }

  // A slot's tasks are distinct, filed under the slot, and their rolls never spill over.
  ghost predicate SlotOk(L: seq<nat>, word: seq<nat>, s: nat) {
    && (forall i :: 0 <= i < |L| ==> L[i] < |word| && SortIndex(word[L[i]]) == s)
    && (forall i, j :: 0 <= i < j < |L| ==> L[i] != L[j])
    && Prefix(Entries(L, word), |L|) < ROLL_LIMIT
  }

  // The slot's tasks have the ticks left the countdown gives them, and tasks due together are in
  // the order in which they were added.
  ghost predicate SlotDue(L: seq<nat>, word: seq<nat>, s: nat, cursor: nat, due: map<nat, nat>, stamp: map<nat, nat>)
    requires cursor < SORTLINK_LEN && s < SORTLINK_LEN && SlotOk(L, word, s)
  {
    && (forall i :: 0 <= i < |L| ==> L[i] in due && L[i] in stamp && due[L[i]] == Left(cursor, s, Entries(L, word), i))
    && (forall i, j :: 0 <= i < j < |L| && due[L[i]] == due[L[j]] ==> stamp[L[i]] < stamp[L[j]])
  }

  ghost predicate SlotsOk(slots: seq<seq<nat>>, word: seq<nat>, cursor: nat, due: map<nat, nat>, stamp: map<nat, nat>)
    requires |slots| == SORTLINK_LEN && cursor < SORTLINK_LEN
  {
    forall s :: 0 <= s < SORTLINK_LEN ==> SlotOk(slots[s], word, s) && SlotDue(slots[s], word, s, cursor, due, stamp)
  }

  // Every task of the countdown is in the slot its word names.
  ghost predicate DueListed(slots: seq<seq<nat>>, word: seq<nat>, due: map<nat, nat>)
    requires |slots| == SORTLINK_LEN
  {
    forall t :: t in due ==> t < |word| && SortIndex(word[t]) < SORTLINK_LEN && t in slots[SortIndex(word[t])]
  }

  ghost predicate WheelOk(slots: seq<seq<nat>>, word: seq<nat>, cursor: nat, due: map<nat, nat>,
                          stamp: map<nat, nat>, clock: nat) {
    && |slots| == SORTLINK_LEN && cursor < SORTLINK_LEN
    && (forall t :: 0 <= t < |word| ==> word[t] < WORD)
    && SlotsOk(slots, word, cursor, due, stamp)
    && DueListed(slots, word, due)
    && (forall t :: t in stamp ==> stamp[t] < clock)
  }

  // ---- Filing a task --------------------------------------------------------------------

  // The words after the insertion loop of osTaskAdd2TimerList has stopped at position k of list L:
  // the new task's roll has been reduced by those it passed, the next one's by what was left.
  ghost predicate Filed(L: seq<nat>, word: seq<nat>, word': seq<nat>, t: nat, roll: nat, k: nat)
    requires SlotIds(L, word) && k <= |L|
  {
    var E := Entries(L, word);
    && |word'| == |word| && t < |word|
    && Prefix(E, k) <= roll && (k < |L| ==> roll < At(E, k))
    && Roll(word'[t]) == roll - Prefix(E, k)
    && (k < |L| ==> Roll(word'[L[k]]) == At(E, k) - roll && SortIndex(word'[L[k]]) == SortIndex(word[L[k]]))
    && (forall x :: 0 <= x < |word| && x != t && (k < |L| ==> x != L[k]) ==> word'[x] == word[x])
    && (forall x :: 0 <= x < |word| ==> word'[x] < WORD)
  }

  predicate SlotIds(L: seq<nat>, word: seq<nat>) {
    forall i :: 0 <= i < |L| ==> L[i] < |word|
  }

  lemma FiledEntries(L: seq<nat>, word: seq<nat>, word': seq<nat>, t: nat, roll: nat, k: nat)
    requires SlotIds(L, word) && k <= |L| && t !in L
    requires forall i, j :: 0 <= i < j < |L| ==> L[i] != L[j]
    requires Filed(L, word, word', t, roll, k)
    ensures Entries(InsertedAt(L, t, k), word') == InsertAt(Entries(L, word), t, roll, k)
  {
    var E', I := Entries(InsertedAt(L, t, k), word'), InsertAt(Entries(L, word), t, roll, k);
    forall i | 0 <= i < |E'|
      ensures E'[i] == I[i]
    {
      var L' := InsertedAt(L, t, k);
      assert L'[i] == if i < k then L[i] else if i == k then t else L[i - 1];
    }
  }

  lemma FiledId(L: seq<nat>, word: seq<nat>, word': seq<nat>, s: nat, t: nat, roll: nat, k: nat, i: nat)
    requires SlotOk(L, word, s) && k <= |L| && t !in L && i <= |L|
    requires Filed(L, word, word', t, roll, k) && SortIndex(word'[t]) == s
    ensures |InsertedAt(L, t, k)| == |L| + 1
    ensures InsertedAt(L, t, k)[i] == if i < k then L[i] else if i == k then t else L[i - 1]
    ensures InsertedAt(L, t, k)[i] < |word'| && SortIndex(word'[InsertedAt(L, t, k)[i]]) == s
  {
    hide Prefix, At, Roll, SortIndex;
  }

  lemma InsertedDistinct(L: seq<nat>, t: nat, k: nat)
    requires k <= |L| && t !in L && forall i, j :: 0 <= i < j < |L| ==> L[i] != L[j]
    ensures forall i, j :: 0 <= i < j < |InsertedAt(L, t, k)| ==> InsertedAt(L, t, k)[i] != InsertedAt(L, t, k)[j]
  {
  }

  lemma FiledSum(L: seq<nat>, word: seq<nat>, word': seq<nat>, s: nat, t: nat, roll: nat, k: nat)
    requires SlotOk(L, word, s) && k <= |L| && t !in L && roll < ROLL_LIMIT
    requires Filed(L, word, word', t, roll, k)
    ensures |InsertedAt(L, t, k)| == |L| + 1 && forall i :: 0 <= i <= |L| ==> InsertedAt(L, t, k)[i] < |word'|
    ensures Prefix(Entries(InsertedAt(L, t, k), word'), |L| + 1) < ROLL_LIMIT
  {
    FiledEntries(L, word, word', t, roll, k);
    InsertPrefix(Entries(L, word), t, roll, k, |L|);
    hide InsertAt, At, Prefix, Roll, SortIndex;
  }

  lemma FiledSlotOk(L: seq<nat>, word: seq<nat>, word': seq<nat>, s: nat, t: nat, roll: nat, k: nat)
    requires SlotOk(L, word, s) && k <= |L| && t !in L && roll < ROLL_LIMIT
    requires Filed(L, word, word', t, roll, k) && SortIndex(word'[t]) == s
    ensures SlotOk(InsertedAt(L, t, k), word', s)
  {
    var L' := InsertedAt(L, t, k);
    FiledSum(L, word, word', s, t, roll, k);
    InsertedDistinct(L, t, k);
    hide InsertAt, At, Prefix, Roll, SortIndex, InsertedAt, Entries, Filed;
    FiledId(L, word, word', s, t, roll, k, 0);
    forall i | 0 <= i < |L'|
      ensures L'[i] < |word'| && SortIndex(word'[L'[i]]) == s
    {
      FiledId(L, word, word', s, t, roll, k, i);
    }
  }

  // Entry i of the slot after the insertion.
  lemma FiledAt(L: seq<nat>, word: seq<nat>, word': seq<nat>, s: nat, t: nat, roll: nat, k: nat, i: nat)
    requires SlotOk(L, word, s) && k <= |L| && t !in L && i <= |L|
    requires Filed(L, word, word', t, roll, k) && SlotOk(InsertedAt(L, t, k), word', s)
    ensures InsertedAt(L, t, k)[i] == if i < k then L[i] else if i == k then t else L[i - 1]
    ensures At(Entries(InsertedAt(L, t, k), word'), i) ==
            if i < k then At(Entries(L, word), i) else if i == k then roll else At(Entries(L, word), i - 1)
  {
    FiledEntries(L, word, word', t, roll, k);
    hide Filed, Roll, SortIndex, SlotOk;
    InsertPrefix(Entries(L, word), t, roll, k, i);
  }

  // The countdown of the slot after the insertion.
  lemma FiledSlotDue(L: seq<nat>, word: seq<nat>, word': seq<nat>, s: nat, cursor: nat, t: nat, roll: nat, k: nat,
                     due: map<nat, nat>, stamp: map<nat, nat>, clock: nat)
    requires cursor < SORTLINK_LEN && s < SORTLINK_LEN && SlotOk(L, word, s) && SlotDue(L, word, s, cursor, due, stamp)
    requires k <= |L| && t !in L && Filed(L, word, word', t, roll, k) && SlotOk(InsertedAt(L, t, k), word', s)
    requires forall x :: x in stamp ==> stamp[x] < clock
    ensures SlotDue(InsertedAt(L, t, k), word', s, cursor,
                    due[t := Distance(cursor, s) + SORTLINK_LEN * roll], stamp[t := clock])
  {
    hide At, InsertedAt, Filed, Prefix;
    var E, L' := Entries(L, word), InsertedAt(L, t, k);
    var due', stamp' := due[t := Distance(cursor, s) + SORTLINK_LEN * roll], stamp[t := clock];
    assert |L'| == |L| + 1 by { assert L' == L[..k] + [t] + L[k..] by { InsertedIs(L, t, k); } }
    forall i | 0 <= i < |L'|
      ensures L'[i] in due' && L'[i] in stamp' && due'[L'[i]] == Left(cursor, s, Entries(L', word'), i)
    {
      FiledAt(L, word, word', s, t, roll, k, i);
    }
    forall i, j | 0 <= i < j < |L'| && due'[L'[i]] == due'[L'[j]]
      ensures stamp'[L'[i]] < stamp'[L'[j]]
    {
      FiledAt(L, word, word', s, t, roll, k, i);
      FiledAt(L, word, word', s, t, roll, k, j);
      if i == k {
        FiledBeforeLater(L, word, word', t, roll, k);
        AtMono(E, k, j - 1);
      }
    }
  }

  lemma FiledBeforeLater(L: seq<nat>, word: seq<nat>, word': seq<nat>, t: nat, roll: nat, k: nat)
    requires SlotIds(L, word) && k < |L| && Filed(L, word, word', t, roll, k)
    ensures roll < At(Entries(L, word), k)
  {
  }

  lemma AtMono(E: seq<Entry>, i: nat, j: nat)
    requires i <= j < |E|
    ensures At(E, i) <= At(E, j)
  {
    PrefixMono(E, i + 1, j + 1);
  }

  lemma InsertedIs(L: seq<nat>, t: nat, k: nat)
    requires k <= |L|
    ensures InsertedAt(L, t, k) == L[..k] + [t] + L[k..]
  {
  }

  // ---- Taking a task off ----------------------------------------------------------------

  // The words after osTimerListDelete: the task after the removed one inherits its roll.
  ghost predicate Unfiled(L: seq<nat>, word: seq<nat>, word': seq<nat>, k: nat)
    requires SlotIds(L, word) && k < |L|
  {
    && |word'| == |word|
    && (k + 1 < |L| ==> word'[L[k + 1]] == RollAdd(word[L[k + 1]], word[L[k]]))
    && (forall x :: 0 <= x < |word| && (k + 1 < |L| ==> x != L[k + 1]) ==> word'[x] == word[x])
  }

  // The inherited roll fits: sums of rolls stay below 2^27.
  lemma RollsFit(L: seq<nat>, word: seq<nat>, s: nat, k: nat)
    requires SlotOk(L, word, s) && k + 1 < |L|
    ensures Roll(word[L[k + 1]]) + Roll(word[L[k]]) < ROLL_LIMIT
  {
    var E := Entries(L, word);
    PrefixMono(E, k + 2, |L|);
    assert Prefix(E, k + 2) == Prefix(E, k + 1) + E[k + 1].delta && Prefix(E, k + 1) == Prefix(E, k) + E[k].delta;
  }

  lemma UnfiledEntry(L: seq<nat>, word: seq<nat>, word': seq<nat>, s: nat, k: nat, i: nat)
    requires SlotOk(L, word, s) && k < |L| && Unfiled(L, word, word', k) && i + 1 < |L|
    ensures RemovedAt(L, k)[i] == L[if i < k then i else i + 1]
    ensures RemovedAt(L, k)[i] < |word'| && SortIndex(word'[RemovedAt(L, k)[i]]) == s
    ensures Remove(Entries(L, word), k)[i] == Entry(RemovedAt(L, k)[i], Roll(word'[RemovedAt(L, k)[i]]))
  {
    var x := L[if i < k then i else i + 1];
    if i == k {
      RollsFit(L, word, s, k);
      PackedAdd(word[L[k + 1]], Roll(word[L[k]]));
    } else if k + 1 < |L| {
      assert x != L[k + 1];
    }
  }

  lemma UnfiledEntries(L: seq<nat>, word: seq<nat>, word': seq<nat>, s: nat, k: nat)
    requires SlotOk(L, word, s) && k < |L| && Unfiled(L, word, word', k)
    ensures SlotIds(RemovedAt(L, k), word')
    ensures Entries(RemovedAt(L, k), word') == Remove(Entries(L, word), k)
    ensures SlotOk(RemovedAt(L, k), word', s)
  {
    hide Unfiled, Remove, Prefix, At, Roll, SortIndex;
    var L', E := RemovedAt(L, k), Entries(L, word);
    RemoveTotal(E, k);
    forall i | 0 <= i < |L'|
      ensures L'[i] < |word'| && SortIndex(word'[L'[i]]) == s && Entry(L'[i], Roll(word'[L'[i]])) == Remove(E, k)[i]
    {
      UnfiledEntry(L, word, word', s, k, i);
    }
    assert Entries(L', word') == Remove(E, k);
  }

  lemma UnfiledSlotDue(L: seq<nat>, word: seq<nat>, word': seq<nat>, s: nat, cursor: nat, k: nat,
                       due: map<nat, nat>, due': map<nat, nat>, stamp: map<nat, nat>)
    requires cursor < SORTLINK_LEN && s < SORTLINK_LEN && SlotOk(L, word, s) && SlotDue(L, word, s, cursor, due, stamp)
    requires k < |L| && Unfiled(L, word, word', k) && due' == due - {L[k]}
    ensures SlotOk(RemovedAt(L, k), word', s) && SlotDue(RemovedAt(L, k), word', s, cursor, due', stamp)
  {
    UnfiledEntries(L, word, word', s, k);
    hide At, Unfiled, Prefix, Remove, Entries, RemovedAt;
    var E, L' := Entries(L, word), RemovedAt(L, k);
    RemovedIs(L, k);
    forall i | 0 <= i < |L'|
      ensures L'[i] in due' && L'[i] in stamp && due'[L'[i]] == Left(cursor, s, Entries(L', word'), i)
    {
      RemoveAt(E, k, i);
    }
  }

  lemma RemovedIs(L: seq<nat>, k: nat)
    requires k < |L|
    ensures |RemovedAt(L, k)| == |L| - 1
    ensures forall i :: 0 <= i < |L| - 1 ==> RemovedAt(L, k)[i] == L[if i < k then i else i + 1]
  {
  }

  // ---- A tick -----------------------------------------------------------------------------

  function Tick(due: map<nat, nat>): map<nat, nat>
  {
    map t | t in due && due[t] > 1 :: due[t] - 1
  }

  // The words after osTaskScan has emptied the slot's leading zeros and met roll count z, if any.
  ghost predicate Scanned(L: seq<nat>, word: seq<nat>, word': seq<nat>, z: nat)
    requires SlotIds(L, word) && z <= |L|
  {
    && |word'| == |word|
    && (forall i :: 0 <= i < z ==> Roll(word[L[i]]) == 0)
    && (z < |L| ==> Roll(word[L[z]]) > 0 && word'[L[z]] == word[L[z]] - 1)
    && (forall x :: 0 <= x < |word| && (z < |L| ==> x != L[z]) ==> word'[x] == word[x])
  }

  lemma {:induction false} ZeroPrefix(E: seq<Entry>, z: nat)
    requires z <= |E| && forall i :: 0 <= i < z ==> E[i].delta == 0
    ensures Prefix(E, z) == 0
  {
    if z > 0 {
      ZeroPrefix(E, z - 1);
    }
  }

  lemma ScannedTail(L: seq<nat>, word: seq<nat>, word': seq<nat>, s: nat, z: nat)
    requires SlotOk(L, word, s) && z < |L| && Scanned(L, word, word', z)
    ensures SlotIds(L[z..], word')
    ensures Entries(L[z..], word') == Age(Entries(L, word)[z..], 1) && Entries(L, word)[z].delta > 0
    ensures SortIndex(word'[L[z]]) == s
  {
    PackedSub(word[L[z]], 1);
    var E', A := Entries(L[z..], word'), Age(Entries(L, word)[z..], 1);
    forall j | 0 <= j < |E'|
      ensures E'[j] == A[j]
    {
      assert L[z..][j] == L[z + j] && (j > 0 ==> L[z + j] != L[z]);
    }
  }

  // What is left of the cursor's slot after a tick, in terms of what was there.
  lemma ScannedAt(L: seq<nat>, word: seq<nat>, word': seq<nat>, s: nat, z: nat, i: nat)
    requires SlotOk(L, word, s) && z < |L| && Scanned(L, word, word', z) && i < |L| - z
    requires SlotIds(L[z..], word')
    ensures At(Entries(L, word), z + i) >= 1
    ensures At(Entries(L[z..], word'), i) == At(Entries(L, word), z + i) - 1
  {
    var E := Entries(L, word);
    ScannedTail(L, word, word', s, z);
    ZeroPrefix(E, z);
    hide SlotOk, Scanned, Entries;
    TailAt(E, z, i);
    AgeRefines(E[z..], 1);
    assert Absolute(Age(E[z..], 1))[i].at == Absolute(E[z..])[i].at - 1;
  }

  // Slots whose words and countdown did not change.
  lemma SlotFrame(L: seq<nat>, word: seq<nat>, word': seq<nat>, s: nat, cursor: nat,
                  due: map<nat, nat>, due': map<nat, nat>, stamp: map<nat, nat>, stamp': map<nat, nat>)
    requires cursor < SORTLINK_LEN && s < SORTLINK_LEN && SlotOk(L, word, s) && SlotDue(L, word, s, cursor, due, stamp)
    requires |word'| == |word| && forall i :: 0 <= i < |L| ==> word'[L[i]] == word[L[i]]
    requires forall i :: 0 <= i < |L| ==> L[i] in due' && due'[L[i]] == due[L[i]]
    requires forall i :: 0 <= i < |L| ==> L[i] in stamp' && stamp'[L[i]] == stamp[L[i]]
    ensures SlotOk(L, word', s) && SlotDue(L, word', s, cursor, due', stamp')
  {
    assert Entries(L, word') == Entries(L, word);
  }

  // ---- The whole wheel --------------------------------------------------------------------

  // The slot and the roll count osTaskAdd2TimerList computes for a timeout.
  function SlotFor(timeout: nat, cursor: nat): nat { (timeout % SORTLINK_LEN + cursor) % SORTLINK_LEN }

  function RollFor(timeout: nat): nat
    requires timeout > 0
  {
    if timeout % SORTLINK_LEN > 0 then timeout / SORTLINK_LEN else timeout / SORTLINK_LEN - 1
  }

  lemma SlotAndRoll(timeout: nat, cursor: nat)
    requires 0 < timeout < WORD && cursor < SORTLINK_LEN
    ensures SlotFor(timeout, cursor) < SORTLINK_LEN && RollFor(timeout) < ROLL_LIMIT
    ensures Distance(cursor, SlotFor(timeout, cursor)) + SORTLINK_LEN * RollFor(timeout) == timeout
  {
  }

  lemma WheelParts(slots: seq<seq<nat>>, word: seq<nat>, cursor: nat, due: map<nat, nat>, stamp: map<nat, nat>,
                   clock: nat)
    requires WheelOk(slots, word, cursor, due, stamp, clock)
    ensures |slots| == SORTLINK_LEN && cursor < SORTLINK_LEN && SlotsOk(slots, word, cursor, due, stamp)
    ensures DueListed(slots, word, due)
    ensures (forall t :: 0 <= t < |word| ==> word[t] < WORD) && forall t :: t in stamp ==> stamp[t] < clock
  {
  }

  lemma WheelMade(slots: seq<seq<nat>>, word: seq<nat>, cursor: nat, due: map<nat, nat>, stamp: map<nat, nat>,
                  clock: nat)
    requires |slots| == SORTLINK_LEN && cursor < SORTLINK_LEN && SlotsOk(slots, word, cursor, due, stamp)
    requires DueListed(slots, word, due)
    requires (forall t :: 0 <= t < |word| ==> word[t] < WORD) && forall t :: t in stamp ==> stamp[t] < clock
    ensures WheelOk(slots, word, cursor, due, stamp, clock)
  {
  }

  lemma SlotIn(slots: seq<seq<nat>>, word: seq<nat>, cursor: nat, due: map<nat, nat>, stamp: map<nat, nat>, s: nat)
    requires |slots| == SORTLINK_LEN && cursor < SORTLINK_LEN && SlotsOk(slots, word, cursor, due, stamp)
    requires s < SORTLINK_LEN
    ensures SlotIds(slots[s], word) && SlotOk(slots[s], word, s) && SlotDue(slots[s], word, s, cursor, due, stamp)
  {
  }

  lemma NotListed(slots: seq<seq<nat>>, word: seq<nat>, cursor: nat, due: map<nat, nat>, stamp: map<nat, nat>,
                  clock: nat, t: nat)
    requires WheelOk(slots, word, cursor, due, stamp, clock) && t !in due
    ensures forall s :: 0 <= s < SORTLINK_LEN ==> t !in slots[s]
  {
    forall s | 0 <= s < SORTLINK_LEN
      ensures t !in slots[s]
    {
      assert SlotDue(slots[s], word, s, cursor, due, stamp);
    }
  }

  lemma AddWheel(slots: seq<seq<nat>>, word: seq<nat>, word': seq<nat>, cursor: nat, due: map<nat, nat>,
                 stamp: map<nat, nat>,
                 clock: nat, t: nat, timeout: nat, k: nat)
    requires WheelOk(slots, word, cursor, due, stamp, clock) && t < |word| && t !in due && 0 < timeout < WORD
    requires var s := SlotFor(timeout, cursor);
             k <= |slots[s]| && Filed(slots[s], word, word', t, RollFor(timeout), k) && SortIndex(word'[t]) == s
    ensures var s := SlotFor(timeout, cursor);
            WheelOk(slots[s := InsertedAt(slots[s], t, k)], word', cursor,
                    due[t := timeout], stamp[t := clock], clock + 1)
  {
    hide *;
    var s := SlotFor(timeout, cursor);
    WheelParts(slots, word, cursor, due, stamp, clock);
    NotListed(slots, word, cursor, due, stamp, clock, t);
    SlotAndRoll(timeout, cursor);
    SlotIn(slots, word, cursor, due, stamp, s);
    FiledBounds(slots[s], word, word', t, RollFor(timeout), k);
    AddSlots(slots, word, word', cursor, due, stamp, clock, s, t, RollFor(timeout), k);
    AddListed(slots, word, word', cursor, due, stamp, s, t, timeout, RollFor(timeout), k);
    WheelMade(slots[s := InsertedAt(slots[s], t, k)], word', cursor, due[t := timeout], stamp[t := clock], clock + 1);
  }

  lemma AddSlots(slots: seq<seq<nat>>, word: seq<nat>, word': seq<nat>, cursor: nat, due: map<nat, nat>,
                 stamp: map<nat, nat>,
                 clock: nat, s: nat, t: nat, roll: nat, k: nat)
    requires |slots| == SORTLINK_LEN && cursor < SORTLINK_LEN && s < SORTLINK_LEN && roll < ROLL_LIMIT
    requires SlotsOk(slots, word, cursor, due, stamp) && forall x :: x in stamp ==> stamp[x] < clock
    requires SlotOk(slots[s], word, s) && k <= |slots[s]|
    requires Filed(slots[s], word, word', t, roll, k) && SortIndex(word'[t]) == s
    requires forall r :: 0 <= r < SORTLINK_LEN ==> t !in slots[r]
    ensures SlotsOk(slots[s := InsertedAt(slots[s], t, k)], word', cursor,
                    due[t := Distance(cursor, s) + SORTLINK_LEN * roll], stamp[t := clock])
  {
    hide Distance, InsertedAt, SlotOk, SlotDue, Filed, SortIndex;
    var L, slots' := slots[s], slots[s := InsertedAt(slots[s], t, k)];
    var due', stamp' := due[t := Distance(cursor, s) + SORTLINK_LEN * roll], stamp[t := clock];
    forall r | 0 <= r < SORTLINK_LEN
      ensures SlotOk(slots'[r], word', r) && SlotDue(slots'[r], word', r, cursor, due', stamp')
    {
      if r == s {
        FiledSlotOk(L, word, word', s, t, roll, k);
        FiledSlotDue(L, word, word', s, cursor, t, roll, k, due, stamp, clock);
      } else {
        FiledElsewhere(L, word, word', s, t, roll, k, slots[r], r, cursor, due, due', stamp, stamp');
      }
    }
  }

  lemma AddListed(slots: seq<seq<nat>>, word: seq<nat>, word': seq<nat>, cursor: nat, due: map<nat, nat>,
                  stamp: map<nat, nat>,
                  s: nat, t: nat, timeout: nat, roll: nat, k: nat)
    requires |slots| == SORTLINK_LEN && cursor < SORTLINK_LEN && s < SORTLINK_LEN && DueListed(slots, word, due)
    requires SlotOk(slots[s], word, s) && k <= |slots[s]|
    requires Filed(slots[s], word, word', t, roll, k) && SortIndex(word'[t]) == s
    ensures DueListed(slots[s := InsertedAt(slots[s], t, k)], word', due[t := timeout])
  {
    hide InsertedAt, Filed, SortIndex;
    FiledBounds(slots[s], word, word', t, roll, k);
    InsertedContains(slots[s], t, k);
    forall x | x in due[t := timeout]
      ensures x < |word'| && SortIndex(word'[x]) < SORTLINK_LEN
      ensures x in slots[s := InsertedAt(slots[s], t, k)][SortIndex(word'[x])]
    {
      if x != t {
        FiledIndex(slots[s], word, word', s, t, roll, k, x);
      }
    }
  }

  lemma FiledBounds(L: seq<nat>, word: seq<nat>, word': seq<nat>, t: nat, roll: nat, k: nat)
    requires SlotIds(L, word) && k <= |L| && Filed(L, word, word', t, roll, k)
    ensures t < |word| == |word'| && forall x :: 0 <= x < |word| ==> word'[x] < WORD
  {
  }

  // The slot number of another task does not change.
  lemma FiledIndex(L: seq<nat>, word: seq<nat>, word': seq<nat>, s: nat, t: nat, roll: nat, k: nat, x: nat)
    requires SlotIds(L, word) && k <= |L| && Filed(L, word, word', t, roll, k) && x < |word| && x != t
    ensures SortIndex(word'[x]) == SortIndex(word[x])
  {
    hide SortIndex, Prefix, At, Roll;
  }

  // Other slots do not notice.
  lemma FiledElsewhere(L: seq<nat>, word: seq<nat>, word': seq<nat>, s: nat, t: nat, roll: nat, k: nat, M: seq<nat>,
                       r: nat,
                       cursor: nat, due: map<nat, nat>, due': map<nat, nat>,
                       stamp: map<nat, nat>, stamp': map<nat, nat>)
    requires SlotOk(L, word, s) && k <= |L| && Filed(L, word, word', t, roll, k)
    requires cursor < SORTLINK_LEN && r < SORTLINK_LEN && r != s
    requires SlotOk(M, word, r) && SlotDue(M, word, r, cursor, due, stamp) && t !in M
    requires forall x :: x in due && x != t ==> x in due' && due'[x] == due[x]
    requires forall x :: x in stamp && x != t ==> x in stamp' && stamp'[x] == stamp[x]
    ensures SlotOk(M, word', r) && SlotDue(M, word', r, cursor, due', stamp')
  {
    hide SortIndex, Prefix, At, Roll, Distance;
    forall i | 0 <= i < |M|
      ensures word'[M[i]] == word[M[i]]
    {
      assert SortIndex(word[M[i]]) == r;
    }
    SlotFrame(M, word, word', r, cursor, due, due', stamp, stamp');
  }

  lemma InsertedContains(L: seq<nat>, t: nat, k: nat)
    requires k <= |L|
    ensures t in InsertedAt(L, t, k)
    ensures forall x :: x in L ==> x in InsertedAt(L, t, k)
  {
    assert InsertedAt(L, t, k)[k] == t;
    assert L == L[..k] + L[k..];
  }

  lemma ReadyToFile(slots: seq<seq<nat>>, word: seq<nat>, cursor: nat, due: map<nat, nat>, stamp: map<nat, nat>,
                    clock: nat,
                    t: nat, timeout: nat)
    requires WheelOk(slots, word, cursor, due, stamp, clock) && t !in due && t < |word| && 0 < timeout < WORD
    ensures |slots| == SORTLINK_LEN && cursor < SORTLINK_LEN && word[t] < WORD
    ensures (timeout % SORTLINK_LEN + cursor) % SORTLINK_LEN == SlotFor(timeout, cursor) < SORTLINK_LEN
    ensures 0 <= RollFor(timeout) < ROLL_LIMIT
    ensures var L := slots[SlotFor(timeout, cursor)];
            t !in L && SlotIds(L, word) && forall i, j :: 0 <= i < j < |L| ==> L[i] != L[j]
    ensures forall x :: 0 <= x < |word| ==> word[x] < WORD
  {
    SlotAndRoll(timeout, cursor);
    NotListed(slots, word, cursor, due, stamp, clock, t);
    var s := SlotFor(timeout, cursor);
    assert SlotOk(slots[s], word, s);
  }

  lemma DeleteWheel(slots: seq<seq<nat>>, word: seq<nat>, word': seq<nat>, cursor: nat, due: map<nat, nat>,
                    stamp: map<nat, nat>,
                    clock: nat, t: nat, k: nat)
    requires WheelOk(slots, word, cursor, due, stamp, clock) && t in due
    requires var s := SortIndex(word[t]); k < |slots[s]| && slots[s][k] == t && Unfiled(slots[s], word, word', k)
    ensures var s := SortIndex(word[t]);
            WheelOk(slots[s := RemovedAt(slots[s], k)], word', cursor, due - {t}, stamp, clock)
  {
    var s := SortIndex(word[t]);
    var L, slots', due' := slots[s], slots[s := RemovedAt(slots[s], k)], due - {t};
    assert SlotOk(L, word, s) && SlotDue(L, word, s, cursor, due, stamp);
    hide Distance, RemovedAt, SlotOk, SlotDue, Unfiled, Roll;
    UnfiledBounds(L, word, word', s, k);
    forall r | 0 <= r < SORTLINK_LEN
      ensures SlotOk(slots'[r], word', r) && SlotDue(slots'[r], word', r, cursor, due', stamp)
    {
      if r == s {
        UnfiledSlotDue(L, word, word', s, cursor, k, due, due', stamp);
      } else {
        UnfiledElsewhere(L, word, word', s, k, slots[r], r, cursor, due, due', stamp);
      }
    }
    RemovedContains(L, k);
  }

  lemma UnfiledBounds(L: seq<nat>, word: seq<nat>, word': seq<nat>, s: nat, k: nat)
    requires SlotOk(L, word, s) && k < |L| && Unfiled(L, word, word', k) && s < SORTLINK_LEN
    requires forall x :: 0 <= x < |word| ==> word[x] < WORD
    ensures |word'| == |word| && forall x :: 0 <= x < |word| ==>
              word'[x] < WORD && SortIndex(word'[x]) == SortIndex(word[x])
  {
    if k + 1 < |L| {
      RollsFit(L, word, s, k);
      PackedAdd(word[L[k + 1]], Roll(word[L[k]]));
      hide Prefix;
      WordFits(word'[L[k + 1]]);
    }
  }

  lemma WordFits(w: nat)
    requires SortIndex(w) < SORTLINK_LEN
    ensures w < WORD
  {
  }

  lemma UnfiledElsewhere(L: seq<nat>, word: seq<nat>, word': seq<nat>, s: nat, k: nat, M: seq<nat>, r: nat,
                         cursor: nat, due: map<nat, nat>, due': map<nat, nat>, stamp: map<nat, nat>)
    requires SlotOk(L, word, s) && k < |L| && Unfiled(L, word, word', k)
    requires cursor < SORTLINK_LEN && r < SORTLINK_LEN && r != s
    requires SlotOk(M, word, r) && SlotDue(M, word, r, cursor, due, stamp) && due' == due - {L[k]}
    ensures SlotOk(M, word', r) && SlotDue(M, word', r, cursor, due', stamp)
  {
    hide SortIndex, Prefix, At, Roll, Distance;
    forall i | 0 <= i < |M|
      ensures word'[M[i]] == word[M[i]] && M[i] != L[k]
    {
      assert SortIndex(word[M[i]]) == r;
    }
    SlotFrame(M, word, word', r, cursor, due, due', stamp, stamp);
  }

  lemma RemovedContains(L: seq<nat>, k: nat)
    requires k < |L|
    ensures forall x :: x in L && x != L[k] ==> x in RemovedAt(L, k)
  {
    assert L == L[..k] + [L[k]] + L[k + 1..];
  }

  // ---- A tick of the whole wheel ------------------------------------------------------------

  function NextCursor(cursor: nat): nat { (cursor + 1) % SORTLINK_LEN }

  lemma NearerDistance(cursor: nat, s: nat)
    requires cursor < SORTLINK_LEN && s < SORTLINK_LEN && s != NextCursor(cursor)
    ensures NextCursor(cursor) < SORTLINK_LEN
    ensures Distance(NextCursor(cursor), s) == Distance(cursor, s) - 1 && Distance(cursor, s) >= 2
  {
  }

  // The slots the cursor does not reach come one tick nearer.
  lemma NearerSlot(L: seq<nat>, word: seq<nat>, word': seq<nat>, s: nat, cursor: nat, due: map<nat, nat>,
                   stamp: map<nat, nat>)
    requires cursor < SORTLINK_LEN && s < SORTLINK_LEN && s != NextCursor(cursor)
    requires SlotOk(L, word, s) && SlotDue(L, word, s, cursor, due, stamp)
    requires |word'| == |word| && forall i :: 0 <= i < |L| ==> word'[L[i]] == word[L[i]]
    ensures SlotOk(L, word', s) && SlotDue(L, word', s, NextCursor(cursor), Tick(due), stamp)
    ensures forall i :: 0 <= i < |L| ==> due[L[i]] > 1
  {
    NearerDistance(cursor, s);
    hide Roll, SortIndex, At, Prefix, Distance, NextCursor;
    assert Entries(L, word') == Entries(L, word);
    forall i | 0 <= i < |L|
      ensures due[L[i]] > 1 && Tick(due)[L[i]] == Left(NextCursor(cursor), s, Entries(L, word), i)
    {
      assert due[L[i]] == Left(cursor, s, Entries(L, word), i);
    }
  }

  lemma {:induction false} ZeroAt(E: seq<Entry>, i: nat)
    requires i < |E| && forall j :: 0 <= j <= i ==> E[j].delta == 0
    ensures At(E, i) == 0
  {
    ZeroPrefix(E, i + 1);
  }

  // The slot the cursor reaches: its leading zeros were due now, the rest comes round again.
  lemma ReachedDue(L: seq<nat>, word: seq<nat>, word': seq<nat>, s: nat, cursor: nat, z: nat, due: map<nat, nat>,
                   stamp: map<nat, nat>, i: nat)
    requires cursor < SORTLINK_LEN && s == NextCursor(cursor) && z <= |L| && i < |L|
    requires SlotOk(L, word, s) && SlotDue(L, word, s, cursor, due, stamp) && Scanned(L, word, word', z)
    ensures i < z <==> due[L[i]] == 1
    ensures i >= z ==> due[L[i]] > 1
  {
    var E := Entries(L, word);
    assert due[L[i]] == Left(cursor, s, E, i);
    if i < z {
      ZeroAt(E, i);
    } else {
      ScannedTail(L, word, word', s, z);
      ScannedAt(L, word, word', s, z, i - z);
    }
  }

  lemma ReachedTick(L: seq<nat>, word: seq<nat>, word': seq<nat>, s: nat, cursor: nat, z: nat, due: map<nat, nat>,
                    stamp: map<nat, nat>, i: nat)
    requires cursor < SORTLINK_LEN && s == NextCursor(cursor) && z <= i < |L|
    requires SlotOk(L, word, s) && SlotDue(L, word, s, cursor, due, stamp) && Scanned(L, word, word', z)
    requires SlotIds(L[z..], word')
    ensures L[i] in Tick(due) && Tick(due)[L[i]] == Left(s, s, Entries(L[z..], word'), i - z)
  {
    ScannedAt(L, word, word', s, z, i - z);
    assert due[L[i]] == Left(cursor, s, Entries(L, word), i);
  }

  lemma OnWheel(slots: seq<seq<nat>>, word: seq<nat>, cursor: nat, due: map<nat, nat>, stamp: map<nat, nat>,
                clock: nat, t: nat)
    requires WheelOk(slots, word, cursor, due, stamp, clock) && t in due
    ensures t < |word| && SortIndex(word[t]) < SORTLINK_LEN && t in slots[SortIndex(word[t])]
    ensures SlotOk(slots[SortIndex(word[t])], word, SortIndex(word[t]))
  {
  }

  lemma ReachedSlotOk(L: seq<nat>, word: seq<nat>, word': seq<nat>, s: nat, cursor: nat, z: nat, due: map<nat, nat>,
                      stamp: map<nat, nat>)
    requires cursor < SORTLINK_LEN && s == NextCursor(cursor) && z <= |L|
    requires SlotOk(L, word, s) && SlotDue(L, word, s, cursor, due, stamp) && Scanned(L, word, word', z)
    ensures SlotOk(L[z..], word', s) && SlotDue(L[z..], word', s, s, Tick(due), stamp)
  {
    TailOk(L, word, word', s, z);
    ReachedLeft(L, word, word', s, cursor, z, due, stamp);
    hide Scanned, At, Roll, SortIndex, Left, Entries, Prefix, Tick, Distance;
    TailOrder(L, due, stamp, z);
  }

  lemma ReachedLeft(L: seq<nat>, word: seq<nat>, word': seq<nat>, s: nat, cursor: nat, z: nat, due: map<nat, nat>,
                    stamp: map<nat, nat>)
    requires cursor < SORTLINK_LEN && s == NextCursor(cursor) && z <= |L| && SlotIds(L[z..], word')
    requires SlotOk(L, word, s) && SlotDue(L, word, s, cursor, due, stamp) && Scanned(L, word, word', z)
    ensures var M := L[z..];
            forall i :: 0 <= i < |M| ==>
              M[i] in Tick(due) && M[i] in stamp && Tick(due)[M[i]] == Left(s, s, Entries(M, word'), i)
  {
    hide Scanned, At, Roll, SortIndex, Left, Entries, Prefix, Tick, Distance;
    var M := L[z..];
    forall i | 0 <= i < |M|
      ensures M[i] in Tick(due) && M[i] in stamp && Tick(due)[M[i]] == Left(s, s, Entries(M, word'), i)
    {
      ReachedTick(L, word, word', s, cursor, z, due, stamp, z + i);
      assert M[i] == L[z + i];
    }
  }

  lemma TailOk(L: seq<nat>, word: seq<nat>, word': seq<nat>, s: nat, z: nat)
    requires SlotOk(L, word, s) && z <= |L| && Scanned(L, word, word', z)
    ensures SlotIds(L[z..], word') && SlotOk(L[z..], word', s)
  {
    if z < |L| {
      ScannedTail(L, word, word', s, z);
      ScannedAt(L, word, word', s, z, |L| - z - 1);
    }
    hide At, Roll, Prefix;
    forall i | 0 <= i < |L| - z
      ensures L[z..][i] < |word'| && SortIndex(word'[L[z..][i]]) == s
    {
      assert L[z..][i] == L[z + i];
      if i > 0 {
        assert L[z + i] != L[z];
      }
    }
  }

  // Tasks due together before a tick are due together after it, and the other way round.
  lemma TailOrder(L: seq<nat>, due: map<nat, nat>, stamp: map<nat, nat>, z: nat)
    requires z <= |L| && forall i :: 0 <= i < |L| ==> L[i] in due && L[i] in stamp
    requires forall i, j :: 0 <= i < j < |L| && due[L[i]] == due[L[j]] ==> stamp[L[i]] < stamp[L[j]]
    requires forall i :: 0 <= i < |L| - z ==> L[z..][i] in Tick(due)
    ensures forall i, j :: 0 <= i < j < |L| - z && Tick(due)[L[z..][i]] == Tick(due)[L[z..][j]] ==>
              stamp[L[z..][i]] < stamp[L[z..][j]]
  {
    forall i, j | 0 <= i < j < |L| - z && Tick(due)[L[z..][i]] == Tick(due)[L[z..][j]]
      ensures stamp[L[z..][i]] < stamp[L[z..][j]]
    {
      assert L[z..][i] == L[z + i] && L[z..][j] == L[z + j];
    }
  }

  lemma ScanWheel(slots: seq<seq<nat>>, word: seq<nat>, word': seq<nat>, cursor: nat, due: map<nat, nat>,
                  stamp: map<nat, nat>,
                  clock: nat, z: nat)
    requires WheelOk(slots, word, cursor, due, stamp, clock)
    requires var s := NextCursor(cursor);
             z <= |slots[s]| && SlotIds(slots[s], word) && Scanned(slots[s], word, word', z)
    ensures var s := NextCursor(cursor); WheelOk(slots[s := slots[s][z..]], word', s, Tick(due), stamp, clock)
    ensures FiredAre(due, stamp, slots[NextCursor(cursor)][..z])
  {
    hide *;
    var s := NextCursor(cursor);
    WheelParts(slots, word, cursor, due, stamp, clock);
    NextInRange(cursor);
    SlotIn(slots, word, cursor, due, stamp, s);
    ScannedBounds(slots[s], word, word', s, z);
    ScanSlots(slots, word, word', cursor, due, stamp, z);
    TickListed(slots, word, word', cursor, due, stamp, clock, z);
    TickFired(slots, word, word', cursor, due, stamp, clock, z);
    WheelMade(slots[s := slots[s][z..]], word', s, Tick(due), stamp, clock);
  }

  lemma NextInRange(cursor: nat)
    ensures NextCursor(cursor) < SORTLINK_LEN
  {
  }

  lemma ScanSlots(slots: seq<seq<nat>>, word: seq<nat>, word': seq<nat>, cursor: nat, due: map<nat, nat>,
                  stamp: map<nat, nat>, z: nat)
    requires |slots| == SORTLINK_LEN && cursor < SORTLINK_LEN && SlotsOk(slots, word, cursor, due, stamp)
    requires |word'| == |word|
    requires var s := NextCursor(cursor);
             s < SORTLINK_LEN && z <= |slots[s]| && SlotIds(slots[s], word) && Scanned(slots[s], word, word', z)
    ensures var s := NextCursor(cursor); SlotsOk(slots[s := slots[s][z..]], word', s, Tick(due), stamp)
  {
    hide Distance, SlotOk, SlotDue, Scanned, Roll, SortIndex, Tick, NextCursor;
    var s := NextCursor(cursor);
    var L, slots' := slots[s], slots[s := slots[s][z..]];
    forall r | 0 <= r < SORTLINK_LEN
      ensures SlotOk(slots'[r], word', r) && SlotDue(slots'[r], word', r, s, Tick(due), stamp)
    {
      if r == s {
        ReachedSlotOk(L, word, word', s, cursor, z, due, stamp);
      } else {
        ScannedElsewhere(L, word, word', s, z, slots[r], r);
        NearerSlot(slots[r], word, word', r, cursor, due, stamp);
      }
    }
  }

  lemma ScannedBounds(L: seq<nat>, word: seq<nat>, word': seq<nat>, s: nat, z: nat)
    requires SlotOk(L, word, s) && z <= |L| && Scanned(L, word, word', z)
    requires forall x :: 0 <= x < |word| ==> word[x] < WORD
    ensures |word'| == |word| && forall x :: 0 <= x < |word| ==>
              word'[x] < WORD && SortIndex(word'[x]) == SortIndex(word[x])
  {
    if z < |L| {
      PackedSub(word[L[z]], 1);
    }
  }

  lemma ScannedElsewhere(L: seq<nat>, word: seq<nat>, word': seq<nat>, s: nat, z: nat, M: seq<nat>, r: nat)
    requires SlotOk(L, word, s) && z <= |L| && Scanned(L, word, word', z) && r != s && SlotOk(M, word, r)
    ensures forall i :: 0 <= i < |M| ==> word'[M[i]] == word[M[i]]
  {
    hide Roll, Prefix;
    forall i | 0 <= i < |M|
      ensures word'[M[i]] == word[M[i]]
    {
      assert SortIndex(word[M[i]]) == r;
    }
  }

  // The tasks of the countdown after a tick are still listed.
  lemma TickListed(slots: seq<seq<nat>>, word: seq<nat>, word': seq<nat>, cursor: nat, due: map<nat, nat>,
                   stamp: map<nat, nat>,
                   clock: nat, z: nat)
    requires WheelOk(slots, word, cursor, due, stamp, clock)
    requires var s := NextCursor(cursor);
             z <= |slots[s]| && SlotIds(slots[s], word) && Scanned(slots[s], word, word', z)
    ensures var s := NextCursor(cursor); DueListed(slots[s := slots[s][z..]], word', Tick(due))
  {
    var s := NextCursor(cursor);
    var L := slots[s];
    assert SlotOk(L, word, s) && SlotDue(L, word, s, cursor, due, stamp);
    ScannedBounds(L, word, word', s, z);
    hide Distance, SlotOk, SlotDue, Scanned, Roll, SortIndex, SlotsOk;
    forall t | t in Tick(due)
      ensures t < |word'| && SortIndex(word'[t]) < SORTLINK_LEN && t in slots[s := L[z..]][SortIndex(word'[t])]
    {
      var r := SortIndex(word[t]);
      assert t in slots[r];
      if r == s {
        var i :| 0 <= i < |L| && L[i] == t;
        ReachedDue(L, word, word', s, cursor, z, due, stamp, i);
        assert L[z..][i - z] == t;
      }
    }
  }

  // fired lists exactly the tasks with one tick left, in the order in which they were added.
  ghost predicate FiredAre(due: map<nat, nat>, stamp: map<nat, nat>, fired: seq<nat>) {
    && (forall t :: t in fired <==> t in due && due[t] == 1)
    && (forall i, j :: 0 <= i < j < |fired| ==>
        fired[i] in stamp && fired[j] in stamp && stamp[fired[i]] < stamp[fired[j]])
  }

  lemma TickFired(slots: seq<seq<nat>>, word: seq<nat>, word': seq<nat>, cursor: nat, due: map<nat, nat>,
                  stamp: map<nat, nat>,
                  clock: nat, z: nat)
    requires WheelOk(slots, word, cursor, due, stamp, clock)
    requires var s := NextCursor(cursor);
             z <= |slots[s]| && SlotIds(slots[s], word) && Scanned(slots[s], word, word', z)
    ensures FiredAre(due, stamp, slots[NextCursor(cursor)][..z])
  {
    hide *;
    var s := NextCursor(cursor);
    WheelParts(slots, word, cursor, due, stamp, clock);
    NextInRange(cursor);
    var L := slots[s];
    SlotIn(slots, word, cursor, due, stamp, s);
    LeadersFired(L, word, word', s, cursor, z, due, stamp);
    FiredInOrder(L, word, s, cursor, due, stamp, z);
    forall t | t in due && due[t] == 1
      ensures t in L
    {
      FoundInSlot(slots, word, cursor, due, stamp, clock, t);
    }
    FiredAll(L, due, stamp, L[..z]);
  }

  lemma FiredAll(L: seq<nat>, due: map<nat, nat>, stamp: map<nat, nat>, fired: seq<nat>)
    requires forall t :: t in due && due[t] == 1 ==> t in L
    requires forall t :: t in L && t in due && due[t] == 1 ==> t in fired
    requires forall t :: t in fired ==> t in due && due[t] == 1
    requires forall i, j :: 0 <= i < j < |fired| ==>
               fired[i] in stamp && fired[j] in stamp && stamp[fired[i]] < stamp[fired[j]]
    ensures FiredAre(due, stamp, fired)
  {
  }

  // Of the slot the cursor reaches, the leading zeros are exactly those with one tick left.
  lemma LeadersFired(L: seq<nat>, word: seq<nat>, word': seq<nat>, s: nat, cursor: nat, z: nat, due: map<nat, nat>,
                     stamp: map<nat, nat>)
    requires cursor < SORTLINK_LEN && s == NextCursor(cursor) && z <= |L|
    requires SlotOk(L, word, s) && SlotDue(L, word, s, cursor, due, stamp) && Scanned(L, word, word', z)
    ensures forall i :: 0 <= i < |L| ==> L[i] in due
    ensures forall i :: 0 <= i < z ==> due[L[i]] == 1
    ensures forall t :: t in L && due[t] == 1 ==> t in L[..z]
  {
    forall i | 0 <= i < |L|
      ensures L[i] in due && (i < z <==> due[L[i]] == 1)
    {
      ReachedDue(L, word, word', s, cursor, z, due, stamp, i);
    }
    hide SlotOk, SlotDue, Scanned, NextCursor;
    forall t | t in L && due[t] == 1
      ensures t in L[..z]
    {
      var i :| 0 <= i < |L| && L[i] == t;
      assert L[..z][i] == t;
    }
  }

  lemma FiredInOrder(L: seq<nat>, word: seq<nat>, s: nat, cursor: nat, due: map<nat, nat>, stamp: map<nat, nat>, z: nat)
    requires cursor < SORTLINK_LEN && s < SORTLINK_LEN && SlotOk(L, word, s) && SlotDue(L, word, s, cursor, due, stamp)
    requires z <= |L| && forall i :: 0 <= i < z ==> due[L[i]] == 1
    ensures forall t :: t in L[..z] ==> t in due && due[t] == 1
    ensures forall i, j :: 0 <= i < j < z ==>
              L[..z][i] in stamp && L[..z][j] in stamp && stamp[L[..z][i]] < stamp[L[..z][j]]
  {
    hide Left, Entries, SortIndex, Prefix, Roll;
  }

  // A task with one tick left is in the slot the cursor reaches next.
  lemma FoundInSlot(slots: seq<seq<nat>>, word: seq<nat>, cursor: nat, due: map<nat, nat>, stamp: map<nat, nat>,
                    clock: nat, t: nat)
    requires WheelOk(slots, word, cursor, due, stamp, clock) && t in due && due[t] == 1
    ensures t in slots[NextCursor(cursor)]
  {
    hide Roll, SortIndex;
    var r := SortIndex(word[t]);
    assert t in slots[r];
    if r != NextCursor(cursor) {
      assert SlotOk(slots[r], word, r) && SlotDue(slots[r], word, r, cursor, due, stamp);
      NearerSlot(slots[r], word, word, r, cursor, due, stamp);
    }
  }

  lemma SlotInUse(slots: seq<seq<nat>>, word: seq<nat>, cursor: nat, due: map<nat, nat>, stamp: map<nat, nat>,
                  clock: nat, s: nat)
    requires WheelOk(slots, word, cursor, due, stamp, clock) && s < SORTLINK_LEN
    ensures SlotOk(slots[s], word, s)
  {
  }

  lemma RollFits(w: nat)
    requires Roll(w) > 0
    ensures w > 0
  {
  }

  // ---- Runs ----------------------------------------------------------------------------------

  datatype Event = Added(task: nat, timeout: nat) | Deleted(task: nat) | Ticked

  // What the wheel's methods do to the countdown.
  function Step(due: map<nat, nat>, e: Event): map<nat, nat>
  {
    match e
    case Added(t, timeout) => due[t := timeout]
    case Deleted(t) => due - {t}
    case Ticked => Tick(due)
  }

  function Run(due: map<nat, nat>, es: seq<Event>): map<nat, nat>
    decreases |es|
  {
    if es == [] then due else Run(Step(due, es[0]), es[1..])
  }

  function Ticks(es: seq<Event>): nat
  {
    if es == [] then 0 else (if es[0].Ticked? then 1 else 0) + Ticks(es[1..])
  }

  ghost predicate LeavesAlone(es: seq<Event>, t: nat) {
    forall e :: e in es ==> e.Ticked? || e.task != t
  }

  // Whatever is added and deleted meanwhile, a task with n ticks left is on the wheel for exactly
  // the next n - 1 ticks, and the n-th one fires it.
  lemma {:induction false} OnTime(due: map<nat, nat>, es: seq<Event>, t: nat)
    requires t in due && due[t] > 0 && LeavesAlone(es, t)
    ensures t in Run(due, es) <==> Ticks(es) < due[t]
    ensures t in Run(due, es) ==> Run(due, es)[t] == due[t] - Ticks(es)
    ensures (t in Run(due, es) && Run(due, es)[t] == 1) <==> Ticks(es) == due[t] - 1
    decreases |es|
  {
    if es != [] {
      var due' := Step(due, es[0]);
      assert es[0] in es && LeavesAlone(es[1..], t);
      if t in due' {
        OnTime(due', es[1..], t);
      } else {
        StaysOff(due', es[1..], t);
      }
    }
  }

  lemma {:induction false} StaysOff(due: map<nat, nat>, es: seq<Event>, t: nat)
    requires t !in due && LeavesAlone(es, t)
    ensures t !in Run(due, es)
    decreases |es|
  {
    if es != [] {
      assert es[0] in es && LeavesAlone(es[1..], t);
      StaysOff(Step(due, es[0]), es[1..], t);
    }
  }

  class TimingWheel {
    const slots: array<seq<nat>>
    const word: array<nat>
    var cursor: nat

    // The plain countdown: ticks left for every task on the wheel, and when it was added.
    ghost var due: map<nat, nat>
    ghost var stamp: map<nat, nat>
    ghost var clock: nat

    ghost predicate Valid()
      reads this, slots, word
    {
      WheelOk(slots[..], word[..], cursor, due, stamp, clock)
    }

    // osTaskInit, as far as the wheel goes.
    constructor (tasks: nat)
      ensures Valid() && due == map[] && cursor == 0 && word.Length == tasks && fresh(slots) && fresh(word)
    {
      slots := new seq<nat>[SORTLINK_LEN](_ => []);
      word := new nat[tasks](_ => 0);
      cursor := 0;
      due, stamp, clock := map[], map[], 0;
    }

    // osTaskAdd2TimerList: the countdown gains the task with its timeout.
    method Add(t: nat, timeout: nat)
      requires Valid() && t < word.Length && t !in due && 0 < timeout < WORD
      modifies this, slots, word
      ensures Valid() && cursor == old(cursor)
      ensures due == old(due)[t := timeout] && stamp == old(stamp)[t := old(clock)] && clock == old(clock) + 1
    {
      hide WheelOk, Filed, SlotOk, SlotDue;
      ghost var w0, slots0 := word[..], slots[..];
      ReadyToFile(slots0, w0, cursor, due, stamp, clock, t, timeout);
      var sortIndex := timeout % SORTLINK_LEN;
      var rollNum := timeout / SORTLINK_LEN;
      if !(sortIndex > 0) {
        rollNum := rollNum - 1;
      }
      PackedWord(word[t], rollNum, (sortIndex + cursor) % SORTLINK_LEN);
      word[t] := EvaluateL(word[t], rollNum);
      sortIndex := (sortIndex + cursor) % SORTLINK_LEN;
      word[t] := EvaluateH(word[t], sortIndex);
      var L := slots[sortIndex];
      var k := File(t, sortIndex, rollNum, w0);
      AddWheel(slots0, w0, word[..], cursor, due, stamp, clock, t, timeout, k);
      slots[sortIndex] := InsertedAt(L, t, k);
      assert slots[..] == slots0[sortIndex := InsertedAt(slots0[sortIndex], t, k)];
      due, stamp, clock := due[t := timeout], stamp[t := clock], clock + 1;
    }

    // The do-while loop of osTaskAdd2TimerList: where the task goes in its slot.
    method File(t: nat, sortIndex: nat, ghost rollNum: nat, ghost w0: seq<nat>) returns (k: nat)
      requires t < word.Length == |w0| && sortIndex < slots.Length
      requires t !in slots[sortIndex] && SlotIds(slots[sortIndex], w0)
      requires forall i, j :: 0 <= i < j < |slots[sortIndex]| ==> slots[sortIndex][i] != slots[sortIndex][j]
      requires forall x :: 0 <= x < |w0| && x != t ==> word[x] == w0[x]
      requires forall x :: 0 <= x < |w0| ==> word[x] < WORD
      requires Roll(word[t]) == rollNum && SortIndex(word[t]) == sortIndex
      modifies word
      ensures k <= |slots[sortIndex]| && Filed(slots[sortIndex], w0, word[..], t, rollNum, k)
      ensures SortIndex(word[t]) == sortIndex
    {
      hide Roll, SortIndex;
      var L := slots[sortIndex];
      ghost var E := Entries(L, w0);
      k := 0;
      while k < |L|
        invariant 0 <= k <= |L| && Prefix(E, k) <= rollNum
        invariant Roll(word[t]) == rollNum - Prefix(E, k) && SortIndex(word[t]) == sortIndex
        invariant forall x :: 0 <= x < |w0| && x != t ==> word[x] == w0[x]
        invariant forall x :: 0 <= x < |w0| ==> word[x] < WORD
      {
        assert At(E, k) == Prefix(E, k) + E[k].delta && E[k].delta == Roll(word[L[k]]);
        if Roll(word[L[k]]) <= Roll(word[t]) {
          PackedSub(word[t], Roll(word[L[k]]));
          word[t] := RollSub(word[t], word[L[k]]);
        } else {
          PackedSub(word[L[k]], Roll(word[t]));
          word[L[k]] := RollSub(word[L[k]], word[t]);
          break;
        }
        k := k + 1;
      }
    }

    // osTimerListDelete: the countdown loses the task, and no other task notices.
    method Delete(t: nat)
      requires Valid() && t in due
      modifies this, slots, word
      ensures Valid() && cursor == old(cursor)
      ensures due == old(due) - {t} && stamp == old(stamp) && clock == old(clock)
    {
      hide SlotDue, DueListed, Roll, SortIndex, Prefix;
      ghost var w0, slots0 := word[..], slots[..];
      OnWheel(slots0, w0, cursor, due, stamp, clock, t);
      var sortIndex := SortIndex(word[t]);
      var L := slots[sortIndex];
      var k :| 0 <= k < |L| && L[k] == t;
      if k + 1 < |L| {
        word[L[k + 1]] := RollAdd(word[L[k + 1]], word[t]);
      }
      assert Unfiled(L, w0, word[..], k);
      DeleteWheel(slots0, w0, word[..], cursor, due, stamp, clock, t, k);
      slots[sortIndex] := RemovedAt(L, k);
      assert slots[..] == slots0[sortIndex := RemovedAt(L, k)];
      due := due - {t};
    }

    // osTaskScan, as far as the wheel goes: one tick of the countdown. The tasks that leave are
    // exactly those that had one tick left, in the order in which they were added.
    method Scan() returns (fired: seq<nat>)
      requires Valid()
      modifies this, slots, word
      ensures Valid()
      ensures due == Tick(old(due)) && stamp == old(stamp) && clock == old(clock)
      ensures FiredAre(old(due), old(stamp), fired)
    {
      hide SlotDue, DueListed, Roll, SortIndex, Prefix, Tick, FiredAre;
      ghost var w0, slots0, due0, stamp0, clock0 := word[..], slots[..], due, stamp, clock;
      SlotInUse(slots0, w0, cursor, due, stamp, clock, NextCursor(cursor));
      cursor := (cursor + 1) % SORTLINK_LEN;
      ghost var L := slots[cursor];
      fired := [];
      while slots[cursor] != []
        invariant cursor == NextCursor(old(cursor)) && due == due0 && stamp == stamp0 && clock == clock0
        invariant |fired| <= |L| && fired == L[..|fired|] && slots[cursor] == L[|fired|..]
        invariant slots[..] == slots0[cursor := L[|fired|..]]
        invariant word[..] == w0
        invariant forall i :: 0 <= i < |fired| ==> Roll(w0[L[i]]) == 0
        decreases |L| - |fired|
      {
        var t := slots[cursor][0];
        assert t == L[|fired|];
        if Roll(word[t]) > 0 {
          RollFits(word[t]);
          word[t] := word[t] - 1;
          break;
        }
        fired := fired + [t];
        slots[cursor] := slots[cursor][1..];
      }
      assert Scanned(L, w0, word[..], |fired|);
      ScanWheel(slots0, w0, word[..], old(cursor), due, stamp, clock, |fired|);
      due := Tick(due);
    }
  }
}

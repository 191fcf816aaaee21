/** A page fault sleeps while pages move to and from disk, and other processes run and fault meanwhile:
    the phases of vm_fault keep the invariant, with one frame in hand for each sleeping fault. */
module PagingPhases {
  import opened VmTypes
  import opened AddressSpace
  import opened Coremap
  import Tlb
  import Swap
  import opened Paging
  import opened PagingInvariant
  import opened PagingProofs

  /** The frame being handed out becomes the frame in hand of the sleeping fault. */
  lemma {:induction false} HoldKeeps(s: Vm, a: AsId, i: nat, f: nat)
    requires InvBut(s, Some(f)) && f < |s.cm| && s.cm[f].owner == Some(a) && InHand(s, a).None?
    requires a in s.spaces && i < |s.spaces[a].pt| && !s.spaces[a].pt[i].inMem
    ensures Inv(s.(pending := s.pending[a := Filling(i, f)]))
  {
    var t := s.(pending := s.pending[a := Filling(i, f)]);
    HoldSpaces(s, t, a, i, f);
    HoldFrames(s, t, a, i, f);
    SameReadOnly(s, t);
  }

  lemma {:induction false} HoldSpaces(s: Vm, t: Vm, a: AsId, i: nat, f: nat)
    requires SpacesOk(s, Some(f)) && t == s.(pending := s.pending[a := Filling(i, f)])
    ensures SpacesOk(t, None)
  {
    forall b, k | b in t.spaces && 0 <= k < |t.spaces[b].pt|
      ensures EntryOk(t.spaces[b].pt[k], b, t.first, t.cm, t.swap.bits, None, InHand(t, b))
    {
      assert EntryOk(s.spaces[b].pt[k], b, s.first, s.cm, s.swap.bits, Some(f), InHand(s, b));
    }
  }

  lemma {:induction false} HoldFrames(s: Vm, t: Vm, a: AsId, i: nat, f: nat)
    requires FramesOk(s, Some(f)) && PendingOk(s) && t == s.(pending := s.pending[a := Filling(i, f)])
    requires f < |s.cm| && s.cm[f].owner == Some(a) && InHand(s, a).None?
    requires a in s.spaces && i < |s.spaces[a].pt| && !s.spaces[a].pt[i].inMem
    ensures FramesOk(t, None) && PendingOk(t)
  {
    forall g | 0 <= g < |t.cm| && t.cm[g].owner.Some? && InHand(t, t.cm[g].owner.value) != Some(g)
      ensures t.cm[g].owner.value in t.spaces && Referred(t.spaces[t.cm[g].owner.value].pt, FrameAddr(t.first, g))
    {
      var b := s.cm[g].owner.value;
      assert b == a || InHand(t, b) == InHand(s, b);
    }
  }

  /** And back: the frame in hand is about to be filled. */
  lemma {:induction false} HandOver(s: Vm, a: AsId, i: nat, f: nat)
    requires Inv(s) && a in s.pending && s.pending[a] == Filling(i, f)
    ensures InvBut(s.(pending := s.pending - {a}), Some(f)) && f < |s.cm| && s.cm[f].owner == Some(a)
  {
    var t := s.(pending := s.pending - {a});
    HandOverSpaces(s, t, a, i, f);
    HandOverFrames(s, t, a, i, f);
    SameReadOnly(s, t);
  }

  lemma {:induction false} HandOverSpaces(s: Vm, t: Vm, a: AsId, i: nat, f: nat)
    requires SpacesOk(s, None) && PendingOk(s) && a in s.pending && s.pending[a] == Filling(i, f)
    requires t == s.(pending := s.pending - {a})
    ensures SpacesOk(t, Some(f))
  {
    forall b, k | b in t.spaces && 0 <= k < |t.spaces[b].pt|
      ensures EntryOk(t.spaces[b].pt[k], b, t.first, t.cm, t.swap.bits, Some(f), InHand(t, b))
    {
      assert EntryOk(s.spaces[b].pt[k], b, s.first, s.cm, s.swap.bits, None, InHand(s, b));
    }
  }

  lemma {:induction false} HandOverFrames(s: Vm, t: Vm, a: AsId, i: nat, f: nat)
    requires FramesOk(s, None) && PendingOk(s) && a in s.pending && s.pending[a] == Filling(i, f)
    requires t == s.(pending := s.pending - {a})
    ensures FramesOk(t, Some(f)) && PendingOk(t) && f < |s.cm| && s.cm[f].owner == Some(a)
  {
  }

  /** Only the bookkeeping of sleeping faults differs. */
  predicate SamePages(s: Vm, t: Vm) {
    t == s.(pending := t.pending, next := t.next, stats := t.stats)
  }

  /** Choosing a victim changes nothing that matters yet. */
  lemma {:induction false} ChooseKeeps(s: Vm, t: Vm, a: AsId, i: nat, v: nat)
    requires Inv(s) && a in s.spaces && a !in s.pending && i < |s.spaces[a].pt| && !s.spaces[a].pt[i].inMem
    requires v < |s.cm| && s.cm[v].owner == Some(a)
    requires t == s.(next := t.next, pending := s.pending[a := Evicting(i, v)]) && t.next < |t.cm|
    ensures Inv(t)
  {
    ChooseHands(s, t, a, i, v);
    SameHands(s, t);
    ChoosePending(s, t, a, i, v);
    SameReadOnly(s, t);
  }

  lemma {:induction false} ChooseHands(s: Vm, t: Vm, a: AsId, i: nat, v: nat)
    requires a !in s.pending && t == s.(next := t.next, pending := s.pending[a := Evicting(i, v)])
    ensures forall b :: InHand(t, b) == InHand(s, b)
  {
  }

  lemma {:induction false} ChoosePending(s: Vm, t: Vm, a: AsId, i: nat, v: nat)
    requires PendingOk(s) && a in s.spaces && i < |s.spaces[a].pt| && !s.spaces[a].pt[i].inMem
    requires v < |s.cm| && s.cm[v].owner == Some(a)
    requires t == s.(next := t.next, pending := s.pending[a := Evicting(i, v)])
    ensures PendingOk(t)
  {
  }

  /** Page tables and frames depend on sleeping faults only through the frames in hand. */
  lemma {:induction false} SameHands(s: Vm, t: Vm)
    requires SpacesOk(s, None) && FramesOk(s, None) && (forall b :: InHand(t, b) == InHand(s, b))
    requires t.spaces == s.spaces && t.cm == s.cm && t.first == s.first && t.swap == s.swap
    ensures SpacesOk(t, None) && FramesOk(t, None)
  {
    forall b | b in t.spaces ensures EntriesOk(t.spaces[b].pt, b, t.first, t.cm, t.swap.bits, None, InHand(t, b)) {
      assert EntriesOk(s.spaces[b].pt, b, s.first, s.cm, s.swap.bits, None, InHand(s, b));
    }
  }

  /** How a miss begins */
  lemma {:induction false} BeginCases(s: Vm, a: AsId, i: nat) returns (taken: bool, n: nat, f: nat)
    requires Sized(s) && a in s.spaces && i < |s.spaces[a].pt| && BeginMiss(s, a, i).Some?
    ensures n < |s.cm| && f < |s.cm|
    ensures var t := BeginMiss(s, a, i).value;
            if taken then
              && IsFree(s.cm[f])
              && t == WithFrame(s, a, s.spaces[a].pt[i].vaddr, f).(pending := s.pending[a := Filling(i, f)])
            else
              s.cm[f].owner == Some(a) && t == s.(next := n, pending := s.pending[a := Evicting(i, f)])
  {
    f := FirstFree(s.cm, 0);
    taken, n := f < |s.cm|, 0;
    if !taken {
      var d := VictimDistance(s.cm, s.next, a, 0);
      n, f := Turn(s.next, d + 1, |s.cm|), Turn(s.next, d, |s.cm|);
    }
  }

  /** The page that is waited for was and is not in memory, and no contents have changed. */
  ghost predicate Waits(s: Vm, t: Vm, a: AsId) {
    Inv(t) && a in s.spaces && SameBut(s, t, a, |s.spaces[a].pt|)
  }

  /** The first phase: the invariant holds, and no contents change. */
  lemma {:induction false} BeginKeeps(s: Vm, a: AsId, i: nat)
    requires Inv(s) && a in s.spaces && a !in s.pending && i < |s.spaces[a].pt| && !s.spaces[a].pt[i].inMem
    requires BeginMiss(s, a, i).Some?
    ensures Waits(s, BeginMiss(s, a, i).value, a)
  {
    var taken, n, f := BeginCases(s, a, i);
    if taken {
      var t := WithFrame(s, a, s.spaces[a].pt[i].vaddr, f);
      TakeFrameKeeps(s, a, s.spaces[a].pt[i].vaddr, f);
      HoldKeeps(t, a, i, f);
      TakeFrameSame(s, t, a);
      SamePending(s, t, t.(pending := t.pending[a := Filling(i, f)]), a);
    } else {
      var t := s.(next := n, pending := s.pending[a := Evicting(i, f)]);
      ChooseKeeps(s, t, a, i, f);
      SamePending(s, s, t, a);
    }
  }

  /** Contents and layouts do not depend on the bookkeeping of sleeping faults. */
  lemma {:induction false} SamePending(s: Vm, t: Vm, u: Vm, a: AsId)
    requires a in s.spaces && SamePages(t, u) && (t == s || SameBut(s, t, a, |s.spaces[a].pt|))
    ensures SameBut(s, u, a, |s.spaces[a].pt|)
  {
  }

  /** The second phase: the victim's contents survive, and the fault has the frame in hand. */
  lemma {:induction false} EvictOutKeeps(s: Vm, a: AsId)
    requires Inv(s) && s.cur == Some(a) && a in s.pending && s.pending[a].Evicting?
    ensures a in s.spaces && s.pending[a].v < |s.cm|
    ensures EvictOut(s, a).Some? ==> Waits(s, EvictOut(s, a).value, a)
  {
    if EvictOut(s, a).Some? {
      var i, v := s.pending[a].i, s.pending[a].v;
      var (t, f) := Evict(s, a, v).value;
      EvictKeeps(s, a, v);
      assert t.spaces[a].pt[i] == s.spaces[a].pt[i];
      HoldKeeps(t, a, i, v);
      SamePending(s, t, EvictOut(s, a).value, a);
    }
  }

  /** The page of an absent entry has no translation. */
  lemma {:induction false} AbsentUntranslated(s: Vm, a: AsId, i: nat)
    requires SpacesOk(s, None) && TlbOk(s) && s.cur == Some(a) && a in s.spaces && i < |s.spaces[a].pt|
    requires !s.spaces[a].pt[i].inMem
    ensures !Tlb.Holds(s.tlb.slots, s.spaces[a].pt[i].vaddr)
  {
    var pt := s.spaces[a].pt;
    assert Layout(s.spaces[a].segs, pt);
    LookupFinds(s.spaces[a].segs, pt, i);
    assert forall l | 0 <= l < |s.tlb.slots| :: Backed(s.tlb.slots[l], pt);
  }

  lemma {:induction false} ReadyNow(s: Vm, a: AsId, f: nat)
    requires InvBut(s, Some(f)) && f < |s.cm| && s.cm[f].owner == Some(a) && a in s.spaces
    ensures FrameReady(s, s, a, f)
  {
    SameAsItself(s, a, |s.spaces[a].pt|);
  }

  lemma {:induction false} SameAsItself(s: Vm, a: AsId, j: nat)
    ensures SameBut(s, s, a, j)
  {
  }

  /** The last phase: the page is resident and translated, with its own contents or its first ones. */
  lemma {:induction false} FinishKeeps(s: Vm, a: AsId)
    requires Inv(s) && s.cur == Some(a) && a in s.pending && s.pending[a].Filling?
    ensures a in s.spaces && s.pending[a].i < |s.spaces[a].pt| && s.pending[a].f < |s.cm|
    ensures FinishMiss(s, a).Some?
    ensures var t, i := FinishMiss(s, a).value, s.pending[a].i;
            Inv(t) && BroughtIn(s, t, a, i) && Tlb.Holds(t.tlb.slots, s.spaces[a].pt[i].vaddr)
  {
    var i, f := s.pending[a].i, s.pending[a].f;
    var s1 := s.(pending := s.pending - {a});
    AbsentUntranslated(s, a, i);
    HandOver(s, a, i, f);
    FillNow(s1, a, i, f);
    var t1 := Fill(s1, a, i, f).value;
    LoadNow(s1, t1, a, i);
    BroughtPending(s, s1, LoadTlb(t1, a, i), a, i);
  }

  /** The slot, if the page is in swap, is still marked, so the fill cannot fail. */
  lemma {:induction false} FillNow(s: Vm, a: AsId, i: nat, f: nat)
    requires InvBut(s, Some(f)) && s.cur == Some(a) && a in s.spaces && a !in s.pending
    requires f < |s.cm| && s.cm[f].owner == Some(a) && i < |s.spaces[a].pt| && !s.spaces[a].pt[i].inMem
    ensures Fill(s, a, i, f).Some?
    ensures var t := Fill(s, a, i, f).value; Inv(t) && BroughtIn(s, t, a, i) && t.tlb == s.tlb && t.cur == s.cur
  {
    assert EntryOk(s.spaces[a].pt[i], a, s.first, s.cm, s.swap.bits, Some(f), InHand(s, a));
    var page := FillShape(s, a, i, f);
    ReadyNow(s, a, f);
    FillReady(s, s, Fill(s, a, i, f).value, a, i, f, page);
  }

  lemma {:induction false} LoadNow(s: Vm, t: Vm, a: AsId, i: nat)
    requires Inv(t) && BroughtIn(s, t, a, i) && t.tlb == s.tlb && t.cur == s.cur == Some(a) && TlbOk(s)
    requires a in s.spaces && i < |s.spaces[a].pt| && !Tlb.Holds(s.tlb.slots, s.spaces[a].pt[i].vaddr)
    ensures var u := LoadTlb(t, a, i);
            Inv(u) && BroughtIn(s, u, a, i) && Tlb.Holds(u.tlb.slots, s.spaces[a].pt[i].vaddr)
  {
    assert SameLayout(s.spaces[a], t.spaces[a]);
    LoadTlbKeeps(t, a, i);
    BroughtInLoads(s, s, t, LoadTlb(t, a, i), a, i);
  }

  lemma {:induction false} BroughtPending(s: Vm, s1: Vm, t: Vm, a: AsId, i: nat)
    requires SamePages(s, s1) && BroughtIn(s1, t, a, i)
    ensures BroughtIn(s, t, a, i)
  {
  }

  // ---- The phases together ----

  /** What is left of a fault after its first phase, without interruption */
  function Remaining(s: Vm, a: AsId): Option<Vm>
    requires Sized(s) && Swap.WellFormed(s.swap) && a in s.spaces && a in s.pending && s.pending[a].i < |s.spaces[a].pt|
    requires (if s.pending[a].Filling? then s.pending[a].f else s.pending[a].v) < |s.cm|
  {
    if s.pending[a].Filling? then FinishMiss(s, a)
    else
      var r := EvictOut(s, a);
      if r.None? then None else FinishMiss(r.value, a)
  }

  lemma {:induction false} Unpend(pending: map<AsId, Pending>, a: AsId, x: Pending, y: Pending)
    requires a !in pending
    ensures pending[a := x] - {a} == pending && pending[a := x][a := y] == pending[a := y]
  {
  }

  lemma {:induction false} FinishIs(s: Vm, a: AsId, i: nat, f: nat)
    requires Sized(s) && Swap.WellFormed(s.swap) && a in s.spaces && a !in s.pending && i < |s.spaces[a].pt|
    requires f < |s.cm|
    ensures var t, r := s.(pending := s.pending[a := Filling(i, f)]), Fill(s, a, i, f);
            FinishMiss(t, a) == if r.None? then None else Some(LoadTlb(r.value, a, i))
  {
    Unpend(s.pending, a, Filling(i, f), Filling(i, f));
    var t := s.(pending := s.pending[a := Filling(i, f)]);
    assert t.(pending := t.pending - {a}) == s;
  }

  /** Eviction does not look at sleeping faults. */
  lemma {:induction false} EvictPending(s: Vm, p: map<AsId, Pending>, a: AsId, v: nat)
    requires Sized(s) && a in s.spaces && v < |s.cm|
    ensures var t := s.(pending := p);
            Evict(t, a, v) == if Evict(s, a, v).None? then None
                              else Some((Evict(s, a, v).value.0.(pending := p), Evict(s, a, v).value.1))
    ensures Evict(s, a, v).Some? ==> Evict(s, a, v).value.0.pending == s.pending
  {
    var j := Referrer(s.spaces[a].pt, FrameAddr(s.first, v), 0);
    if j < |s.spaces[a].pt| { EvictEntryPending(s, p, a, v, j); }
  }

  lemma {:induction false} EvictShapeKept(s: Vm, a: AsId, v: nat)
    requires Sized(s) && Swap.WellFormed(s.swap) && a in s.spaces && v < |s.cm| && Evict(s, a, v).Some?
    ensures var (t, f) := Evict(s, a, v).value;
            Sized(t) && Swap.WellFormed(t.swap) && f < |t.cm| && a in t.spaces && |t.spaces[a].pt| == |s.spaces[a].pt|
  {
  }

  /** After a victim was chosen */
  lemma {:induction false} EvictingRemains(s: Vm, a: AsId, i: nat, v: nat)
    requires Sized(s) && Swap.WellFormed(s.swap) && a in s.spaces && a !in s.pending && i < |s.spaces[a].pt|
    requires v < |s.cm|
    ensures var t, r := s.(pending := s.pending[a := Evicting(i, v)]), Evict(s, a, v);
            if r.None? then Remaining(t, a).None?
            else
              var u := Fill(r.value.0, a, i, r.value.1);
              Remaining(t, a) == if u.None? then None else Some(LoadTlb(u.value, a, i))
  {
    EvictPending(s, s.pending[a := Evicting(i, v)], a, v);
    if Evict(s, a, v).Some? {
      EvictShapeKept(s, a, v);
      var (u, f) := Evict(s, a, v).value;
      Unpend(s.pending, a, Evicting(i, v), Filling(i, f));
      FinishIs(u, a, i, f);
    }
  }

  /** A fault that is not interrupted does in phases what it does in one step. */
  lemma {:induction false} PhasesCompose(s: Vm, a: AsId, i: nat)
    requires Sized(s) && Swap.WellFormed(s.swap) && a in s.spaces && a !in s.pending && i < |s.spaces[a].pt|
    requires !s.spaces[a].pt[i].inMem
    requires (s.spaces[a].pt[i].inSwap || !IsFrame(s.first, |s.cm|, s.spaces[a].pt[i].paddr))
    ensures var r := BeginMiss(s, a, i);
            if r.None? then Serve(s, a, i).None?
            else
              var t := r.value;
              && Sized(t) && Swap.WellFormed(t.swap) && a in t.spaces && a in t.pending
              && t.pending[a].i < |t.spaces[a].pt|
              && (if t.pending[a].Filling? then t.pending[a].f else t.pending[a].v) < |t.cm|
              && Serve(s, a, i) == Remaining(t, a)
  {
    ServeMiss(s, a, i);
    if BeginMiss(s, a, i).Some? {
      var taken, n, f := BeginCases(s, a, i);
      if taken {
        FinishIs(WithFrame(s, a, s.spaces[a].pt[i].vaddr, f), a, i, f);
      } else {
        EvictingRemains(s.(next := n), a, i, f);
      }
    }
  }
}

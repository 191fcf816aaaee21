/** What the invariant means for the tables, in every state of every run. */
module PagingGuarantees {
  import opened VmTypes
  import opened AddressSpace
  import opened Coremap
  import Tlb
  import Swap
  import opened Paging
  import opened PagingInvariant
  import opened PagingProofs
  import opened PagingRuns

  /** Page j of space a is in frame f. */
  ghost predicate InFrame(s: Vm, a: AsId, j: nat, f: nat) {
    a in s.spaces && j < |s.spaces[a].pt| && s.spaces[a].pt[j].inMem && s.spaces[a].pt[j].paddr == FrameAddr(s.first, f)
  }

  /** Frame ownership: the frames a space owns are exactly those its resident pages are in, and the one that its
      sleeping fault has in hand, if it has one, which no page is in. */
  lemma {:induction false} FramesOwned(ss: seq<Vm>, steps: seq<Step>, i: nat, a: AsId, f: nat)
    requires Run(ss, steps) && i <= |steps| && f < |ss[i].cm|
    ensures ss[i].cm[f].owner == Some(a) <==> (exists j: nat :: InFrame(ss[i], a, j, f)) || InHand(ss[i], a) == Some(f)
    ensures InHand(ss[i], a) == Some(f) ==> forall j: nat :: !InFrame(ss[i], a, j, f)
  {
    RunInv(ss, steps, i);
    OwnerIff(ss[i], a, f);
  }

  lemma {:induction false} OwnerIff(s: Vm, a: AsId, f: nat)
    requires SpacesOk(s, None) && FramesOk(s, None) && PendingOk(s) && f < |s.cm|
    ensures s.cm[f].owner == Some(a) <==> (exists j: nat :: InFrame(s, a, j, f)) || InHand(s, a) == Some(f)
    ensures InHand(s, a) == Some(f) ==> forall j: nat :: !InFrame(s, a, j, f)
  {
    if s.cm[f].owner == Some(a) && InHand(s, a) != Some(f) { OwnedIsIn(s, a, f); }
    forall j: nat | InFrame(s, a, j, f)
      ensures s.cm[f].owner == Some(a) && InHand(s, a) != Some(f)
    {
      InIsOwned(s, a, j, f);
    }
  }

  lemma {:induction false} OwnedIsIn(s: Vm, a: AsId, f: nat)
    requires FramesOk(s, None) && f < |s.cm| && s.cm[f].owner == Some(a) && InHand(s, a) != Some(f)
    ensures exists j: nat :: InFrame(s, a, j, f)
  {
    var j :| 0 <= j < |s.spaces[a].pt| && s.spaces[a].pt[j].inMem && s.spaces[a].pt[j].paddr == FrameAddr(s.first, f);
    assert InFrame(s, a, j, f);
  }

  lemma {:induction false} InIsOwned(s: Vm, a: AsId, j: nat, f: nat)
    requires SpacesOk(s, None) && f < |s.cm| && InFrame(s, a, j, f)
    ensures s.cm[f].owner == Some(a) && InHand(s, a) != Some(f)
  {
    FrameAddrInverse(s.first, |s.cm|, f);
    assert EntryOk(s.spaces[a].pt[j], a, s.first, s.cm, s.swap.bits, None, InHand(s, a));
  }

  /** No two pages, of one space or of two, are in the same frame. */
  lemma {:induction false} FramesUnshared(ss: seq<Vm>, steps: seq<Step>, i: nat, f: nat, a: AsId, j: nat, b: AsId,
      k: nat)
    requires Run(ss, steps) && i <= |steps| && f < |ss[i].cm| && InFrame(ss[i], a, j, f) && InFrame(ss[i], b, k, f)
    ensures a == b && j == k
  {
    RunInv(ss, steps, i);
    OwnerIff(ss[i], a, f);
    OwnerIff(ss[i], b, f);
    assert FramesDistinct(ss[i].spaces[a].pt);
  }

  /** Every entry is in one of three states, and paddr means what the state says. */
  lemma {:induction false} EntryStates(ss: seq<Vm>, steps: seq<Step>, i: nat, a: AsId, j: nat)
    requires Run(ss, steps) && i <= |steps| && a in ss[i].spaces && j < |ss[i].spaces[a].pt|
    ensures var s, e := ss[i], ss[i].spaces[a].pt[j];
            || (e.inMem && !e.inSwap && IsFrame(s.first, |s.cm|, e.paddr))
            || (!e.inMem && e.inSwap && e.perm.w && e.paddr in s.swap.bits)
            || (!e.inMem && !e.inSwap && e.paddr == 0)
  {
    RunInv(ss, steps, i);
    assert EntryOk(ss[i].spaces[a].pt[j], a, ss[i].first, ss[i].cm, ss[i].swap.bits, None, InHand(ss[i], a));
  }

  /** Slot conservation: a slot is marked exactly when an entry holds it, no two entries hold the same slot,
      and used is the number of marked slots as far as 16 bits tell. */
  lemma {:induction false} SlotsConserved(ss: seq<Vm>, steps: seq<Step>, i: nat, b: nat)
    requires Run(ss, steps) && i <= |steps|
    ensures b in ss[i].swap.bits <==> exists a, j :: Holder(ss[i].spaces, b, a, j)
    ensures forall a, j, c, k :: Holder(ss[i].spaces, b, a, j) && Holder(ss[i].spaces, b, c, k) ==> a == c && j == k
    ensures ss[i].swap.used == |ss[i].swap.bits| % 0x1_0000
  {
    RunInv(ss, steps, i);
  }

  /** TLB coherence: while a process runs, a valid TLB entry repeats an in-memory entry of its page table,
      writable if and only if the page is, and no page has two. */
  lemma {:induction false} TlbCoherent(ss: seq<Vm>, steps: seq<Step>, i: nat, k: nat, l: nat)
    requires Run(ss, steps) && i <= |steps| && ss[i].cur.Some? && k < |ss[i].tlb.slots| && ss[i].tlb.slots[k].Valid?
    ensures ss[i].cur.value in ss[i].spaces
    ensures var x, pt := ss[i].tlb.slots[k], ss[i].spaces[ss[i].cur.value].pt;
            exists j ::
              && 0 <= j < |pt| && pt[j].vaddr == x.vpage && pt[j].inMem
              && pt[j].paddr == x.paddr && pt[j].perm.w == x.dirty
    ensures k != l < |ss[i].tlb.slots| && ss[i].tlb.slots[l].Valid? ==>
              ss[i].tlb.slots[k].vpage != ss[i].tlb.slots[l].vpage
  {
    RunInv(ss, steps, i);
    SlotBacked(ss[i], k);
  }

  lemma {:induction false} SlotBacked(s: Vm, k: nat)
    requires TlbOk(s) && s.cur.Some? && k < |s.tlb.slots| && s.tlb.slots[k].Valid?
    ensures s.cur.value in s.spaces && Tlb.NoDuplicates(s.tlb.slots)
    ensures var x, pt := s.tlb.slots[k], s.spaces[s.cur.value].pt;
            exists j ::
              && 0 <= j < |pt| && pt[j].vaddr == x.vpage && pt[j].inMem
              && pt[j].paddr == x.paddr && pt[j].perm.w == x.dirty
  {
    assert Backed(s.tlb.slots[k], s.spaces[s.cur.value].pt);
  }

  /** Live blocks of the multi-page allocator are disjoint, lie in the coremap, and no process page is in them. */
  lemma {:induction false} BlocksApart(ss: seq<Vm>, steps: seq<Step>, i: nat, f: nat, h: nat, g: nat)
    requires Run(ss, steps) && i <= |steps| && InBlock(ss[i].blocks, f, h)
    ensures f < |ss[i].cm| && ss[i].cm[f].used && ss[i].cm[f].owner.None?
    ensures InBlock(ss[i].blocks, f, g) ==> g == h
  {
    RunInv(ss, steps, i);
  }

  // ---- When a fault succeeds ----

  /** The frame that the round-robin search of getPage stops at */
  function Victim(s: Vm, a: AsId): (f: nat)
    requires Sized(s)
    ensures f < |s.cm|
  {
    Turn(s.next, VictimDistance(s.cm, s.next, a, 0), |s.cm|)
  }

  /** A frame can be had for space a: one is free, or the space owns an unreserved one, the test for swap space passes,
      and the page in the victim need not be written out or finds a free slot. */
  ghost predicate Obtainable(s: Vm, a: AsId)
    requires Sized(s)
  {
    || (exists f :: 0 <= f < |s.cm| && IsFree(s.cm[f]))
    || (&& Swap.Available(s.swap) > 0 && (exists f :: 0 <= f < |s.cm| && Evictable(s.cm[f], a))
        && Discardable(s, a, Victim(s, a)))
  }

  ghost predicate Discardable(s: Vm, a: AsId, f: nat) {
    || (forall j: nat | InFrame(s, a, j, f) :: !s.spaces[a].pt[j].perm.w)
    || (exists k :: 0 <= k < |s.swap.pages| && k !in s.swap.bits)
  }

  lemma {:induction false} EvictSomeIff(s: Vm, a: AsId, f: nat)
    requires Sized(s) && SpacesOk(s, None) && FramesOk(s, None) && Swap.WellFormed(s.swap)
    requires f < |s.cm| && s.cm[f].owner == Some(a) && a in s.spaces && InHand(s, a) != Some(f)
    ensures Evict(s, a, f).Some? <==> Discardable(s, a, f)
  {
    var j := ReferrerFound(s, a, f);
    EvictWhen(s, a, f);
    OneInFrame(s, a, f, j);
  }

  lemma {:induction false} OneInFrame(s: Vm, a: AsId, f: nat, j: nat)
    requires InFrame(s, a, j, f)
    requires forall i | 0 <= i < |s.spaces[a].pt| && s.spaces[a].pt[i].inMem && i != j ::
               s.spaces[a].pt[i].paddr != FrameAddr(s.first, f)
    ensures (forall i: nat | InFrame(s, a, i, f) :: !s.spaces[a].pt[i].perm.w) <==> !s.spaces[a].pt[j].perm.w
  {
  }

  lemma {:induction false} SameDiscardable(s: Vm, t: Vm, a: AsId, f: nat)
    requires t.spaces == s.spaces && t.first == s.first && t.swap == s.swap
    ensures Discardable(t, a, f) <==> Discardable(s, a, f)
  {
    assert forall j: nat :: InFrame(t, a, j, f) <==> InFrame(s, a, j, f);
  }

  lemma {:induction false} ReplaceSomeIff(s: Vm, a: AsId)
    requires Sized(s) && SpacesOk(s, None) && FramesOk(s, None) && SlotsOk(s) && a in s.spaces && a !in s.pending
    ensures Replace(s, a).Some? <==>
              && Swap.Available(s.swap) > 0 && (exists f :: 0 <= f < |s.cm| && Evictable(s.cm[f], a))
              && Discardable(s, a, Victim(s, a))
  {
    VictimFoundIff(s.cm, s.next, a);
    ReplaceWhen(s, a);
    if VictimDistance(s.cm, s.next, a, 0) < |s.cm| { EvictVictimIff(s, a); }
  }

  lemma {:induction false} EvictVictimIff(s: Vm, a: AsId)
    requires Sized(s) && SpacesOk(s, None) && FramesOk(s, None) && SlotsOk(s) && a in s.spaces && a !in s.pending
    requires VictimDistance(s.cm, s.next, a, 0) < |s.cm|
    ensures EvictVictim(s, a).Some? <==> Discardable(s, a, Victim(s, a))
  {
    var d := VictimDistance(s.cm, s.next, a, 0);
    VictimFound(s.cm, s.next, a);
    EvictVictimIs(s, a, d);
    VictimEvictedIff(s, s.(next := Turn(s.next, d + 1, |s.cm|)), a);
  }

  lemma {:induction false} VictimFound(cm: seq<CEntry>, next: nat, a: AsId)
    requires next < |cm| && VictimDistance(cm, next, a, 0) < |cm|
    ensures var d := VictimDistance(cm, next, a, 0);
            Turn(next, d + 1, |cm|) < |cm| && Evictable(cm[Turn(next, d, |cm|)], a)
  {
  }

  lemma {:induction false} VictimEvictedIff(s: Vm, t: Vm, a: AsId)
    requires Sized(s) && SpacesOk(s, None) && FramesOk(s, None) && SlotsOk(s) && a in s.spaces && a !in s.pending
    requires t == s.(next := t.next) && t.next < |t.cm| && Evictable(s.cm[Victim(s, a)], a)
    ensures Evict(t, a, Victim(s, a)).Some? <==> Discardable(s, a, Victim(s, a))
  {
    SameTables(s, t);
    EvictSomeIff(t, a, Victim(s, a));
    SameDiscardable(s, t, a, Victim(s, a));
  }

  lemma {:induction false} GetPageSomeIff(s: Vm, a: AsId, vpage: nat)
    requires Sized(s) && SpacesOk(s, None) && FramesOk(s, None) && SlotsOk(s) && a in s.spaces && a !in s.pending
    ensures GetPage(s, a, vpage).Some? <==> Obtainable(s, a)
  {
    GetPageWhen(s, a, vpage);
    ReplaceSomeIff(s, a);
  }

  /** Once there is a frame, the page comes in: its slot, if it is in swap, is still marked. */
  lemma {:induction false} BringInSomeIff(s: Vm, a: AsId, i: nat, vpage: nat)
    requires Inv(s) && s.cur == Some(a) && a in s.spaces && i < |s.spaces[a].pt| && !s.spaces[a].pt[i].inMem
    requires a !in s.pending
    ensures BringIn(s, a, i, vpage).Some? <==> Obtainable(s, a)
  {
    assert EntryOk(s.spaces[a].pt[i], a, s.first, s.cm, s.swap.bits, None, InHand(s, a));
    GetPageSomeIff(s, a, vpage);
    BringInWhen(s, a, i, vpage);
    if GetPage(s, a, vpage).Some? {
      GetPageReady(s, a, vpage);
      SlotStaysMarked(s, GetPage(s, a, vpage).value.0, a, i, GetPage(s, a, vpage).value.1);
    }
  }

  lemma {:induction false} SlotStaysMarked(s: Vm, t: Vm, a: AsId, i: nat, f: nat)
    requires FrameReady(s, t, a, f) && a in t.spaces && i < |s.spaces[a].pt| && i < |t.spaces[a].pt|
    requires !s.spaces[a].pt[i].inMem
    ensures t.spaces[a].pt[i].inSwap ==> t.spaces[a].pt[i].paddr in t.swap.bits
  {
    assert EntryOk(t.spaces[a].pt[i], a, t.first, t.cm, t.swap.bits, Some(f), InHand(t, a));
  }

  /** The page of address va is in memory. */
  ghost predicate Resident(sp: Space, va: nat) {
    exists j :: 0 <= j < |sp.pt| && sp.pt[j].vaddr == PageOf(va) && sp.pt[j].inMem
  }

  /** A fault is handled exactly when a process runs, the access is a read or a write, a segment maps the page, and
      the page is in memory or a frame can be had for it. */
  lemma {:induction false} FaultHandledIff(s: Vm, ft: FaultType, va: nat)
    requires Inv(s) && InUser(s)
    ensures Faultable(s)
    ensures Fault(s, ft, va).Handled? <==>
              && s.cur.Some? && (ft.Read? || ft.Write?)
              && var sp := s.spaces[s.cur.value];
                 Mapped(sp.segs, PageOf(va)) && (Resident(sp, va) || Obtainable(s, s.cur.value))
  {
    InvFaultable(s);
    FaultHandledWhen(s, ft, va);
    if s.cur.Some? {
      FoundIffMapped(s, va);
      if Found(s, va).Some? { ServeSomeIff(s, s.cur.value, Found(s, va).value, va); }
    }
  }

  lemma {:induction false} ServeSomeIff(s: Vm, a: AsId, i: nat, va: nat)
    requires Inv(s) && s.cur == Some(a) && a in s.spaces && i < |s.spaces[a].pt|
    requires s.spaces[a].pt[i].vaddr == PageOf(va)
    requires a !in s.pending
    ensures Serve(CountFault(s), a, i).Some? <==> Resident(s.spaces[a], va) || Obtainable(s, a)
  {
    ResidentIs(s, a, i, va);
    var s1 := CountFault(s);
    CursorIrrelevant(s, s1);
    ServedIff(s1, a, i);
    SameObtainable(s, s1, a);
  }

  lemma {:induction false} ServedIff(s: Vm, a: AsId, i: nat)
    requires Inv(s) && s.cur == Some(a) && a in s.spaces && i < |s.spaces[a].pt| && a !in s.pending
    ensures Serve(s, a, i).Some? <==> s.spaces[a].pt[i].inMem || Obtainable(s, a)
  {
    ServeWhen(s, a, i);
    if !s.spaces[a].pt[i].inMem { BringInSomeIff(s, a, i, s.spaces[a].pt[i].vaddr); }
  }

  lemma {:induction false} SameObtainable(s: Vm, t: Vm, a: AsId)
    requires Sized(s) && Sized(t) && t == s.(stats := t.stats)
    ensures Obtainable(t, a) <==> Obtainable(s, a)
  {
    SameDiscardable(s, t, a, Victim(s, a));
  }

  lemma {:induction false} ResidentIs(s: Vm, a: AsId, i: nat, va: nat)
    requires SpacesOk(s, None) && a in s.spaces && i < |s.spaces[a].pt| && s.spaces[a].pt[i].vaddr == PageOf(va)
    ensures Resident(s.spaces[a], va) <==> s.spaces[a].pt[i].inMem
  {
    var sp := s.spaces[a];
    assert Layout(sp.segs, sp.pt);
    LookupFinds(sp.segs, sp.pt, i);
  }
}

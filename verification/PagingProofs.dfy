/** The operations of the paging system keep its invariant. */
module PagingProofs {
  import opened VmTypes
  import opened Elf
  import opened AddressSpace
  import opened Coremap
  import Tlb
  import Swap
  import opened Paging
  import opened PagingInvariant

  // ---- Taking a free frame ----

  lemma {:induction false} TakeFrameKeeps(s: Vm, a: AsId, vpage: nat, f: nat)
    requires Inv(s) && a in s.spaces && f < |s.cm| && IsFree(s.cm[f])
    ensures var t := WithFrame(s, a, vpage, f); InvBut(t, Some(f)) && t.cm[f].owner == Some(a)
  {
    var t := WithFrame(s, a, vpage, f);
    TakeFrameSpaces(s, t, a, vpage, f);
    TakeFrameBlocks(s.cm, t.cm, s.blocks, f);
    TakeFrameFrames(s, t, a, vpage, f);
    SameReadOnly(s, t);
  }

  lemma {:induction false} TakeFrameFrames(s: Vm, t: Vm, a: AsId, vpage: nat, f: nat)
    requires FramesOk(s, None) && PendingOk(s) && f < |s.cm| && IsFree(s.cm[f]) && t == WithFrame(s, a, vpage, f)
    ensures FramesOk(t, Some(f)) && PendingOk(t)
  {
    assert FlagsOk(s.cm[f]);
    forall g | 0 <= g < |t.cm| && t.cm[g].owner.Some? && g != f && InHand(t, t.cm[g].owner.value) != Some(g)
      ensures t.cm[g].owner.value in t.spaces && Referred(t.spaces[t.cm[g].owner.value].pt, FrameAddr(t.first, g))
    {
      assert t.cm[g] == s.cm[g] && InHand(t, s.cm[g].owner.value) == InHand(s, s.cm[g].owner.value);
    }
  }

  lemma {:induction false} TakeFrameSpaces(s: Vm, t: Vm, a: AsId, vpage: nat, f: nat)
    requires SpacesOk(s, None) && f < |s.cm| && IsFree(s.cm[f]) && FramesOk(s, None)
    requires t == WithFrame(s, a, vpage, f)
    ensures SpacesOk(t, Some(f))
  {
    forall b | b in s.spaces ensures EntriesOk(t.spaces[b].pt, b, t.first, t.cm, t.swap.bits, Some(f), InHand(t, b)) {
      forall j | 0 <= j < |t.spaces[b].pt|
        ensures EntryOk(t.spaces[b].pt[j], b, t.first, t.cm, t.swap.bits, Some(f), InHand(t, b))
      {
        assert EntryOk(s.spaces[b].pt[j], b, s.first, s.cm, s.swap.bits, None, InHand(s, b));
      }
    }
  }

  lemma {:induction false} TakeFrameBlocks(cm: seq<CEntry>, cm': seq<CEntry>, blocks: map<nat, nat>, f: nat)
    requires BlocksOk(cm, blocks) && f < |cm| == |cm'| && IsFree(cm[f]) && cm'[f].owner.Some?
    requires forall g | 0 <= g < |cm| && g != f :: cm'[g] == cm[g]
    ensures BlocksOk(cm', blocks)
  {
    assert forall h | h in blocks :: InBlock(blocks, h, h);
    assert forall h :: !InBlock(blocks, f, h);
  }

  // ---- Changing one entry ----

  /** Entry j of space a becomes e, while the coremap, the bitmap or the hole change around it. */
  lemma {:induction false} EntryChangeKeepsSpaces(s: Vm, t: Vm, a: AsId, j: nat, e: PtEntry, hole: Option<nat>,
      hole': Option<nat>)
    requires SpacesOk(s, hole) && a in s.spaces && j < |s.spaces[a].pt|
    requires t.spaces == SetEntry(s.spaces, a, j, e) && t.first == s.first && t.cm == s.cm
    requires e.vaddr == s.spaces[a].pt[j].vaddr && e.perm == s.spaces[a].pt[j].perm
    requires EntryOk(e, a, t.first, t.cm, t.swap.bits, hole', InHand(t, a))
    requires forall b, i | b in s.spaces && 0 <= i < |s.spaces[b].pt| && !(b == a && i == j) ::
               EntryOk(s.spaces[b].pt[i], b, t.first, t.cm, t.swap.bits, hole', InHand(t, b))
    requires forall i | 0 <= i < |s.spaces[a].pt| && i != j && e.inMem && s.spaces[a].pt[i].inMem ::
               s.spaces[a].pt[i].paddr != e.paddr
    ensures SpacesOk(t, hole')
  {
    forall b | b in t.spaces
      ensures Layout(t.spaces[b].segs, t.spaces[b].pt) && FramesDistinct(t.spaces[b].pt)
      ensures EntriesOk(t.spaces[b].pt, b, t.first, t.cm, t.swap.bits, hole', InHand(t, b))
    {
      if b == a {
        ChangedTable(s.spaces[a].segs, s.spaces[a].pt, j, e);
      }
    }
  }

  lemma {:induction false} ChangedTable(segs: seq<Segment>, pt: seq<PtEntry>, j: nat, e: PtEntry)
    requires j < |pt| && Layout(segs, pt) && FramesDistinct(pt) && e.vaddr == pt[j].vaddr && e.perm == pt[j].perm
    requires forall i | 0 <= i < |pt| && i != j && e.inMem && pt[i].inMem :: pt[i].paddr != e.paddr
    ensures Layout(segs, pt[j := e]) && FramesDistinct(pt[j := e])
  {
  }

  // ---- Eviction ----

  /** The scan of getPage always finds the one entry that refers to the victim frame. */
  lemma {:induction false} ReferrerFound(s: Vm, a: AsId, f: nat) returns (j: nat)
    requires Sized(s) && SpacesOk(s, None) && FramesOk(s, None) && Swap.WellFormed(s.swap)
    requires f < |s.cm| && s.cm[f].owner == Some(a) && InHand(s, a) != Some(f)
    ensures a in s.spaces && j == Referrer(s.spaces[a].pt, FrameAddr(s.first, f), 0) < |s.spaces[a].pt|
    ensures s.spaces[a].pt[j].inMem && s.spaces[a].pt[j].paddr == FrameAddr(s.first, f)
    ensures forall i | 0 <= i < |s.spaces[a].pt| && s.spaces[a].pt[i].inMem && i != j ::
              s.spaces[a].pt[i].paddr != FrameAddr(s.first, f)
  {
    var pt := s.spaces[a].pt;
    var k :| 0 <= k < |pt| && pt[k].inMem && pt[k].paddr == FrameAddr(s.first, f);
    j := Referrer(pt, FrameAddr(s.first, f), 0);
    assert EntryOk(pt[j], a, s.first, s.cm, s.swap.bits, None, InHand(s, a));
  }

  /** The entry of an evicted page: in swap if the page is writable, unloaded otherwise. */
  function EvictedEntry(e: PtEntry, slot: nat): PtEntry {
    if e.perm.w then e.(paddr := slot, inMem := false, inSwap := true) else e.(paddr := 0, inMem := false)
  }

  /** What Evict does, with the entry and the slot named. */
  ghost predicate Evicts(s: Vm, t: Vm, a: AsId, f: nat, j: nat, slot: nat) {
    && Sized(s) && a in s.spaces && j < |s.spaces[a].pt| && f < |s.cm|
    && s.spaces[a].pt[j].inMem && s.spaces[a].pt[j].paddr == FrameAddr(s.first, f)
    && t == s.(swap := t.swap, tlb := Tlb.Drop(s.tlb, PageOf(s.spaces[a].pt[j].vaddr)), stats := t.stats,
               spaces := SetEntry(s.spaces, a, j, EvictedEntry(s.spaces[a].pt[j], slot)))
    && (if s.spaces[a].pt[j].perm.w then Swap.SwapOut(s.swap, s.ram[f]) == Some((t.swap, slot)) else t.swap == s.swap)
  }

  lemma {:induction false} EvictShape(s: Vm, a: AsId, f: nat) returns (j: nat, slot: nat)
    requires Inv(s) && f < |s.cm| && s.cm[f].owner == Some(a) && InHand(s, a) != Some(f) && a in s.spaces
    requires Evict(s, a, f).Some?
    ensures Evict(s, a, f).value.1 == f && Evicts(s, Evict(s, a, f).value.0, a, f, j, slot)
    ensures forall i | 0 <= i < |s.spaces[a].pt| && s.spaces[a].pt[i].inMem && i != j ::
              s.spaces[a].pt[i].paddr != FrameAddr(s.first, f)
  {
    j := ReferrerFound(s, a, f);
    slot := EvictionNamed(s, a, f, j);
  }

  lemma {:induction false} EvictionNamed(s: Vm, a: AsId, f: nat, j: nat) returns (slot: nat)
    requires Sized(s) && f < |s.cm| && a in s.spaces
    requires j == Referrer(s.spaces[a].pt, FrameAddr(s.first, f), 0) < |s.spaces[a].pt|
    requires s.spaces[a].pt[j].inMem && s.spaces[a].pt[j].paddr == FrameAddr(s.first, f) && Swap.WellFormed(s.swap)
    requires Evict(s, a, f).Some?
    ensures Evict(s, a, f).value.1 == f && Evicts(s, Evict(s, a, f).value.0, a, f, j, slot)
  {
    slot := if s.spaces[a].pt[j].perm.w then Swap.SwapOut(s.swap, s.ram[f]).value.1 else 0;
  }

  lemma {:induction false} EvictSpaces(s: Vm, t: Vm, a: AsId, f: nat, j: nat, slot: nat)
    requires Evicts(s, t, a, f, j, slot) && SpacesOk(s, None) && s.cm[f].owner == Some(a)
    requires forall i | 0 <= i < |s.spaces[a].pt| && s.spaces[a].pt[i].inMem && i != j ::
               s.spaces[a].pt[i].paddr != FrameAddr(s.first, f)
    ensures SpacesOk(t, Some(f))
  {
    forall b, i | b in s.spaces && 0 <= i < |s.spaces[b].pt| && !(b == a && i == j)
      ensures EntryOk(s.spaces[b].pt[i], b, t.first, t.cm, t.swap.bits, Some(f), InHand(t, b))
    {
      EvictElsewhere(s, t, a, f, j, slot, b, i);
    }
    EntryChangeKeepsSpaces(s, t, a, j, EvictedEntry(s.spaces[a].pt[j], slot), None, Some(f));
  }

  lemma {:induction false} EvictElsewhere(s: Vm, t: Vm, a: AsId, f: nat, j: nat, slot: nat, b: AsId, i: nat)
    requires Evicts(s, t, a, f, j, slot) && SpacesOk(s, None) && s.cm[f].owner == Some(a)
    requires b in s.spaces && i < |s.spaces[b].pt| && !(b == a && i == j)
    requires b == a && s.spaces[a].pt[i].inMem ==> s.spaces[a].pt[i].paddr != FrameAddr(s.first, f)
    ensures EntryOk(s.spaces[b].pt[i], b, t.first, t.cm, t.swap.bits, Some(f), InHand(t, b))
  {
    assert EntryOk(s.spaces[b].pt[i], b, s.first, s.cm, s.swap.bits, None, InHand(s, b));
  }

  lemma {:induction false} EvictFrames(s: Vm, t: Vm, a: AsId, f: nat, j: nat, slot: nat)
    requires Evicts(s, t, a, f, j, slot) && FramesOk(s, None)
    ensures FramesOk(t, Some(f))
  {
    forall g | 0 <= g < |t.cm| && t.cm[g].owner.Some? && g != f && InHand(t, t.cm[g].owner.value) != Some(g)
      ensures t.cm[g].owner.value in t.spaces && Referred(t.spaces[t.cm[g].owner.value].pt, FrameAddr(t.first, g))
    {
      var b := t.cm[g].owner.value;
      var k :| 0 <= k < |s.spaces[b].pt| && s.spaces[b].pt[k].inMem && s.spaces[b].pt[k].paddr == FrameAddr(s.first, g);
      assert t.spaces[b].pt[k] == s.spaces[b].pt[k];
    }
  }

  /** Who holds a slot after entry j of space a became e. */
  lemma {:induction false} HolderChange(spaces: map<AsId, Space>, a: AsId, j: nat, e: PtEntry)
    requires a in spaces && j < |spaces[a].pt|
    ensures forall b: nat, c: AsId, k: nat :: Holder(SetEntry(spaces, a, j, e), b, c, k)
              <==> if c == a && k == j then e.inSwap && e.paddr == b else Holder(spaces, b, c, k)
  {
  }

  /** An entry that was not in swap takes a free slot. */
  lemma {:induction false} SlotTaken(spaces: map<AsId, Space>, bits: set<nat>, a: AsId, j: nat, e: PtEntry)
    requires SlotsHeld(spaces, bits) && a in spaces && j < |spaces[a].pt| && !spaces[a].pt[j].inSwap
    requires e.inSwap && e.paddr !in bits
    ensures SlotsHeld(SetEntry(spaces, a, j, e), bits + {e.paddr})
  {
    var after := SetEntry(spaces, a, j, e);
    HolderChange(spaces, a, j, e);
    assert Holder(after, e.paddr, a, j);
    forall b | b in bits ensures exists c, k :: Holder(after, b, c, k) {
      var c, k :| Holder(spaces, b, c, k);
      assert Holder(after, b, c, k);
    }
  }

  /** An entry leaves swap, or never was there. */
  lemma {:induction false} SlotLeft(spaces: map<AsId, Space>, bits: set<nat>, a: AsId, j: nat, e: PtEntry)
    requires SlotsHeld(spaces, bits) && a in spaces && j < |spaces[a].pt| && !e.inSwap
    ensures SlotsHeld(SetEntry(spaces, a, j, e),
                      if spaces[a].pt[j].inSwap then bits - {spaces[a].pt[j].paddr} else bits)
  {
    var after := SetEntry(spaces, a, j, e);
    HolderChange(spaces, a, j, e);
    var slot := spaces[a].pt[j].paddr;
    assert spaces[a].pt[j].inSwap ==> Holder(spaces, slot, a, j);
    forall b | b in bits && !(spaces[a].pt[j].inSwap && b == slot) ensures exists c, k :: Holder(after, b, c, k) {
      var c, k :| Holder(spaces, b, c, k);
      assert Holder(after, b, c, k);
    }
  }

  lemma {:induction false} EvictSlots(s: Vm, t: Vm, a: AsId, f: nat, j: nat, slot: nat)
    requires Evicts(s, t, a, f, j, slot) && SlotsOk(s) && !s.spaces[a].pt[j].inSwap
    ensures SlotsOk(t)
  {
    var e := EvictedEntry(s.spaces[a].pt[j], slot);
    if e.perm.w { SlotTaken(s.spaces, s.swap.bits, a, j, e); } else { SlotLeft(s.spaces, s.swap.bits, a, j, e); }
  }

  /** Dropping the translation of entry j leaves only translations that other entries back. */
  lemma {:induction false} DropKeepsBacked(tlb: Tlb.Buffer, pt: seq<PtEntry>, pt': seq<PtEntry>, j: nat)
    requires Tlb.WellFormed(tlb) && Tlb.NoDuplicates(tlb.slots) && j < |pt| == |pt'|
    requires forall i | 0 <= i < |tlb.slots| :: Backed(tlb.slots[i], pt)
    requires forall i | 0 <= i < |pt| && i != j :: pt'[i] == pt[i]
    ensures var slots := Tlb.Drop(tlb, pt[j].vaddr).slots;
            Tlb.NoDuplicates(slots) && forall i | 0 <= i < |slots| :: Backed(slots[i], pt')
  {
    Tlb.DropEffect(tlb, pt[j].vaddr);
    var slots := Tlb.Drop(tlb, pt[j].vaddr).slots;
    forall i | 0 <= i < |slots| ensures Backed(slots[i], pt') {
      var x := slots[i];
      if x.Valid? {
        assert Backed(tlb.slots[i], pt);
        var k :| && 0 <= k < |pt| && pt[k].vaddr == x.vpage && pt[k].inMem
                 && pt[k].paddr == x.paddr && pt[k].perm.w == x.dirty;
        assert pt'[k] == pt[k];
      }
    }
  }

  lemma {:induction false} EvictTlb(s: Vm, t: Vm, a: AsId, f: nat, j: nat, slot: nat)
    requires Evicts(s, t, a, f, j, slot) && TlbOk(s) && SpacesOk(s, None) && s.cur == Some(a)
    ensures TlbOk(t)
  {
    EntryMapped(s.spaces[a].segs, s.spaces[a].pt, j);
    DropKeepsBacked(s.tlb, s.spaces[a].pt, t.spaces[a].pt, j);
  }

  lemma {:induction false} EvictReadOnly(s: Vm, t: Vm, a: AsId, f: nat, j: nat, slot: nat)
    requires Evicts(s, t, a, f, j, slot) && ReadOnlyOk(s)
    ensures ReadOnlyOk(t)
  {
    forall b, i | b in t.spaces && 0 <= i < |t.spaces[b].pt|
      ensures ReadOnlyEntryOk(t.spaces[b], t.spaces[b].pt[i], t.first, t.ram)
    {
      assert ReadOnlyEntryOk(s.spaces[b], s.spaces[b].pt[i], s.first, s.ram);
      var va := t.spaces[b].pt[i].vaddr;
      assert forall o :: InitByte(t.spaces[b], va, o) == InitByte(s.spaces[b], va, o);
    }
  }

  lemma {:induction false} FrameAddrInverse(first: nat, n: nat, f: nat)
    requires f < n
    ensures IsFrame(first, n, FrameAddr(first, f)) && FrameOf(first, FrameAddr(first, f)) == f
  {
  }

  /** The contents of an entry do not depend on slots that the bitmap says are free. */
  lemma {:induction false} OtherSlots(e: PtEntry, a: AsId, first: nat, cm: seq<CEntry>, ram: seq<Page>, w: Swap.Store,
      w': Swap.Store, hole: Option<nat>, own: Option<nat>)
    requires EntryOk(e, a, first, cm, w.bits, hole, own) && Swap.WellFormed(w) && |w'.pages| == |w.pages|
    requires forall k | k in w.bits && k < |w.pages| :: w'.pages[k] == w.pages[k]
    ensures PageOfEntry(e, first, ram, w'.pages) == PageOfEntry(e, first, ram, w.pages)
  {
  }

  /** Eviction moves a writable page to swap with its contents, and no other page's contents change. */
  lemma {:induction false} EvictContents(s: Vm, t: Vm, a: AsId, f: nat, j: nat, slot: nat, b: AsId, i: nat)
    requires Evicts(s, t, a, f, j, slot) && Swap.WellFormed(s.swap)
    requires b in s.spaces && i < |s.spaces[b].pt| && s.spaces[b].pt[i].perm.w
    requires EntryOk(s.spaces[b].pt[i], b, s.first, s.cm, s.swap.bits, None, InHand(s, b))
    ensures Contents(t, b, i) == Contents(s, b, i)
  {
    if b == a && i == j {
      FrameAddrInverse(s.first, |s.cm|, f);
    } else {
      OtherSlots(s.spaces[b].pt[i], b, s.first, s.cm, s.ram, s.swap, t.swap, None, InHand(s, b));
    }
  }

  lemma {:induction false} SetEntryLayout(spaces: map<AsId, Space>, a: AsId, j: nat, e: PtEntry)
    requires a in spaces && j < |spaces[a].pt| && e.vaddr == spaces[a].pt[j].vaddr && e.perm == spaces[a].pt[j].perm
    ensures forall b | b in spaces :: SameLayout(spaces[b], SetEntry(spaces, a, j, e)[b])
  {
  }

  lemma {:induction false} EvictSame(s: Vm, t: Vm, a: AsId, f: nat, j: nat, slot: nat)
    requires Evicts(s, t, a, f, j, slot) && SpacesOk(s, None) && Swap.WellFormed(s.swap)
    ensures SameBut(s, t, a, |s.spaces[a].pt|)
  {
    SetEntryLayout(s.spaces, a, j, EvictedEntry(s.spaces[a].pt[j], slot));
    forall b, i | b in s.spaces && 0 <= i < |s.spaces[b].pt| && s.spaces[b].pt[i].perm.w
      ensures Contents(t, b, i) == Contents(s, b, i)
    {
      assert EntriesOk(s.spaces[b].pt, b, s.first, s.cm, s.swap.bits, None, InHand(s, b));
      EvictContents(s, t, a, f, j, slot, b, i);
    }
  }

  lemma {:induction false} EvictInv(s: Vm, t: Vm, a: AsId, f: nat, j: nat, slot: nat)
    requires Inv(s) && s.cur == Some(a) && s.cur.value in s.spaces && Evicts(s, t, a, f, j, slot)
    requires s.cm[f].owner == Some(a)
    requires forall i | 0 <= i < |s.spaces[a].pt| && s.spaces[a].pt[i].inMem && i != j ::
               s.spaces[a].pt[i].paddr != FrameAddr(s.first, f)
    ensures InvBut(t, Some(f))
  {
    assert EntryOk(s.spaces[a].pt[j], a, s.first, s.cm, s.swap.bits, None, InHand(s, a));
    EvictSpaces(s, t, a, f, j, slot);
    EvictFrames(s, t, a, f, j, slot);
    EvictSlots(s, t, a, f, j, slot);
    EvictTlb(s, t, a, f, j, slot);
    EvictReadOnly(s, t, a, f, j, slot);
    EvictRest(s, t, a, f, j, slot);
  }

  lemma {:induction false} EvictRest(s: Vm, t: Vm, a: AsId, f: nat, j: nat, slot: nat)
    requires Evicts(s, t, a, f, j, slot) && PendingOk(s) && TablesOk(s.spaces, s.blocks)
    ensures PendingOk(t) && TablesOk(t.spaces, t.blocks)
  {
  }

  /** What a fault relies on when a frame was made available for space a: the invariant but for the
      frame, the contents of all writable pages, and the entries and translations of absent pages. */
  ghost predicate FrameReady(s: Vm, t: Vm, a: AsId, f: nat) {
    && InvBut(t, Some(f)) && f < |t.cm| && t.cm[f].owner == Some(a)
    && a in s.spaces && SameBut(s, t, a, |s.spaces[a].pt|) && t.pending == s.pending
    && (forall i | 0 <= i < |s.spaces[a].pt| && !s.spaces[a].pt[i].inMem :: t.spaces[a].pt[i] == s.spaces[a].pt[i])
    && (forall va :: !Tlb.Holds(s.tlb.slots, va) ==> !Tlb.Holds(t.tlb.slots, va))
  }

  lemma {:induction false} DropHolds(tlb: Tlb.Buffer, vpage: nat, va: nat)
    requires Tlb.WellFormed(tlb) && !Tlb.Holds(tlb.slots, va)
    ensures !Tlb.Holds(Tlb.Drop(tlb, vpage).slots, va)
  {
  }

  lemma {:induction false} EvictAbsent(s: Vm, t: Vm, a: AsId, f: nat, j: nat, slot: nat)
    requires Evicts(s, t, a, f, j, slot)
    ensures forall i | 0 <= i < |s.spaces[a].pt| && !s.spaces[a].pt[i].inMem :: t.spaces[a].pt[i] == s.spaces[a].pt[i]
    ensures forall va :: !Tlb.Holds(s.tlb.slots, va) ==> !Tlb.Holds(t.tlb.slots, va)
  {
    forall va | !Tlb.Holds(s.tlb.slots, va) ensures !Tlb.Holds(t.tlb.slots, va) {
      DropHolds(s.tlb, PageOf(s.spaces[a].pt[j].vaddr), va);
    }
  }

  lemma {:induction false} EvictKeeps(s: Vm, a: AsId, f: nat)
    requires Inv(s) && s.cur == Some(a) && f < |s.cm| && s.cm[f].owner == Some(a) && InHand(s, a) != Some(f)
    requires a in s.spaces && Evict(s, a, f).Some?
    ensures var (t, g) := Evict(s, a, f).value; g == f && FrameReady(s, t, a, f)
  {
    var t := Evict(s, a, f).value.0;
    var j, slot := EvictShape(s, a, f);
    EvictInv(s, t, a, f, j, slot);
    EvictSame(s, t, a, f, j, slot);
    EvictAbsent(s, t, a, f, j, slot);
  }

  // ---- Getting a frame ----

  /** What the invariant says of page tables, frames and slots depends on nothing else. */
  lemma {:induction false} SameTables(s: Vm, t: Vm)
    requires SpacesOk(s, None) && FramesOk(s, None) && SlotsOk(s)
    requires t.spaces == s.spaces && t.cm == s.cm && t.first == s.first && t.swap == s.swap && t.pending == s.pending
    ensures SpacesOk(t, None) && FramesOk(t, None) && SlotsOk(t)
  {
  }

  lemma {:induction false} SameReadOnly(s: Vm, t: Vm)
    requires ReadOnlyOk(s) && t.spaces == s.spaces && t.first == s.first && t.ram == s.ram
    ensures ReadOnlyOk(t)
  {
  }

  lemma {:induction false} PendingStays(s: Vm, t: Vm)
    requires PendingOk(s) && t.spaces == s.spaces && t.cm == s.cm && t.pending == s.pending
    ensures PendingOk(t)
  {
  }

  /** The TLB, the cursor and the statistics matter to no other part of the invariant. */
  lemma {:induction false} SameButTlb(s: Vm, t: Vm)
    requires Inv(s) && t == s.(cur := t.cur, tlb := t.tlb, next := t.next, stats := t.stats) && Sized(t) && TlbOk(t)
    ensures Inv(t)
  {
    SameTables(s, t);
    SameReadOnly(s, t);
    PendingStays(s, t);
  }

  /** Neither the cursor nor the statistics matter to the invariant. */
  lemma {:induction false} CursorIrrelevant(s: Vm, t: Vm)
    requires Inv(s) && t == s.(next := t.next, stats := t.stats) && t.next < |t.cm|
    ensures Inv(t)
  {
    SameButTlb(s, t);
  }

  /** getPage keeps the invariant but for the frame it returns, which nobody refers to,
      and changes no contents, whether it takes a free frame or evicts a page. */
  lemma {:induction false} GetPageReady(s: Vm, a: AsId, vpage: nat)
    requires Inv(s) && s.cur == Some(a) && a in s.spaces && a !in s.pending && GetPage(s, a, vpage).Some?
    ensures var (t, f) := GetPage(s, a, vpage).value; FrameReady(s, t, a, f)
  {
    var taken, n, v := GetPageCases(s, a, vpage);
    if taken { TakeFrameReady(s, a, vpage, v); } else { VictimReady(s, a, n, v); }
  }

  /** The two ways in which getPage finds a frame v. */
  lemma {:induction false} GetPageCases(s: Vm, a: AsId, vpage: nat) returns (taken: bool, n: nat, v: nat)
    requires Sized(s) && a in s.spaces && GetPage(s, a, vpage).Some?
    ensures v < |s.cm| && n < |s.cm|
    ensures taken ==> IsFree(s.cm[v]) && GetPage(s, a, vpage) == Some((WithFrame(s, a, vpage, v), v))
    ensures !taken ==> s.cm[v].owner == Some(a) && GetPage(s, a, vpage) == Evict(s.(next := n), a, v)
  {
    v := FirstFree(s.cm, 0);
    taken, n := v < |s.cm|, 0;
    if !taken {
      var d := VictimDistance(s.cm, s.next, a, 0);
      n, v := Turn(s.next, d + 1, |s.cm|), Turn(s.next, d, |s.cm|);
    }
  }

  lemma {:induction false} VictimReady(s: Vm, a: AsId, n: nat, v: nat)
    requires Inv(s) && s.cur == Some(a) && a in s.spaces && n < |s.cm| && v < |s.cm| && s.cm[v].owner == Some(a)
    requires InHand(s, a) != Some(v)
    requires Evict(s.(next := n), a, v).Some?
    ensures var (t, f) := Evict(s.(next := n), a, v).value; f == v && FrameReady(s, t, a, v)
  {
    var s1 := s.(next := n);
    CursorIrrelevant(s, s1);
    EvictKeeps(s1, a, v);
    ReadySame(s, s1, Evict(s1, a, v).value.0, a, v);
  }

  lemma {:induction false} TakeFrameReady(s: Vm, a: AsId, vpage: nat, f: nat)
    requires Inv(s) && a in s.spaces && f < |s.cm| && IsFree(s.cm[f])
    ensures FrameReady(s, WithFrame(s, a, vpage, f), a, f)
  {
    TakeFrameKeeps(s, a, vpage, f);
    TakeFrameSame(s, WithFrame(s, a, vpage, f), a);
  }

  lemma {:induction false} TakeFrameSame(s: Vm, t: Vm, a: AsId)
    requires t == s.(cm := t.cm) && a in s.spaces
    ensures SameBut(s, t, a, |s.spaces[a].pt|)
  {
  }

  lemma {:induction false} ReadySame(s: Vm, s1: Vm, t: Vm, a: AsId, f: nat)
    requires FrameReady(s1, t, a, f) && s1 == s.(next := s1.next, stats := s1.stats)
    ensures FrameReady(s, t, a, f)
  {
    assert SameLayouts(s, t) && SameContents(s, t, a, |s.spaces[a].pt|);
  }

  // ---- Filling the frame ----

  function ResidentEntry(e: PtEntry, addr: nat): PtEntry {
    e.(paddr := addr, inMem := true, inSwap := false)
  }

  /** What Fill does, with the page named. */
  ghost predicate Fills(s: Vm, t: Vm, a: AsId, i: nat, f: nat, page: Page) {
    && Sized(s) && Sized(t) && Swap.WellFormed(s.swap) && a in s.spaces && i < |s.spaces[a].pt| && f < |s.cm|
    && t == s.(ram := s.ram[f := page], swap := t.swap, stats := t.stats,
               spaces := SetEntry(s.spaces, a, i, ResidentEntry(s.spaces[a].pt[i], FrameAddr(s.first, f))))
    && var e := s.spaces[a].pt[i];
       if e.inSwap then
         e.paddr in s.swap.bits && t.swap == Swap.Unmark(s.swap, e.paddr) && page == s.swap.pages[e.paddr]
       else t.swap == s.swap && page == FirstContents(s.spaces[a], e.vaddr, s.ram[f])
  }

  lemma {:induction false} FillShape(s: Vm, a: AsId, i: nat, f: nat) returns (page: Page)
    requires Sized(s) && Swap.WellFormed(s.swap) && a in s.spaces && i < |s.spaces[a].pt| && f < |s.cm|
    requires Fill(s, a, i, f).Some?
    ensures Fills(s, Fill(s, a, i, f).value, a, i, f, page)
  {
    var e := s.spaces[a].pt[i];
    page := if e.inSwap then s.swap.pages[e.paddr] else FirstContents(s.spaces[a], e.vaddr, s.ram[f]);
  }

  lemma {:induction false} FillSpaces(s: Vm, t: Vm, a: AsId, i: nat, f: nat, page: Page)
    requires Fills(s, t, a, i, f, page) && SpacesOk(s, Some(f)) && SlotsOk(s) && s.cm[f].owner == Some(a)
    requires a !in s.pending
    ensures SpacesOk(t, None)
  {
    FrameAddrInverse(s.first, |s.cm|, f);
    var e := s.spaces[a].pt[i];
    forall b, k | b in s.spaces && 0 <= k < |s.spaces[b].pt| && !(b == a && k == i)
      ensures EntryOk(s.spaces[b].pt[k], b, t.first, t.cm, t.swap.bits, None, InHand(t, b))
      ensures b == a && s.spaces[b].pt[k].inMem ==> s.spaces[b].pt[k].paddr != FrameAddr(s.first, f)
    {
      FillElsewhere(s, t, a, i, f, page, b, k);
    }
    EntryChangeKeepsSpaces(s, t, a, i, ResidentEntry(e, FrameAddr(s.first, f)), Some(f), None);
  }

  /** Other entries do not notice: their frames and slots are others. */
  lemma {:induction false} FillElsewhere(s: Vm, t: Vm, a: AsId, i: nat, f: nat, page: Page, b: AsId, k: nat)
    requires Fills(s, t, a, i, f, page) && SpacesOk(s, Some(f)) && SlotsOk(s)
    requires b in s.spaces && k < |s.spaces[b].pt| && !(b == a && k == i)
    ensures EntryOk(s.spaces[b].pt[k], b, t.first, t.cm, t.swap.bits, None, InHand(t, b))
    ensures s.spaces[b].pt[k].inMem ==> s.spaces[b].pt[k].paddr != FrameAddr(s.first, f)
  {
    FrameAddrInverse(s.first, |s.cm|, f);
    var e := s.spaces[a].pt[i];
    assert EntryOk(s.spaces[b].pt[k], b, s.first, s.cm, s.swap.bits, Some(f), InHand(s, b));
    assert s.spaces[b].pt[k].inSwap ==> Holder(s.spaces, s.spaces[b].pt[k].paddr, b, k);
    assert e.inSwap ==> Holder(s.spaces, e.paddr, a, i);
  }

  lemma {:induction false} FillFrames(s: Vm, t: Vm, a: AsId, i: nat, f: nat, page: Page)
    requires Fills(s, t, a, i, f, page) && FramesOk(s, Some(f)) && s.cm[f].owner == Some(a) && !s.spaces[a].pt[i].inMem
    ensures FramesOk(t, None)
  {
    forall g | 0 <= g < |t.cm| && t.cm[g].owner.Some? && InHand(t, t.cm[g].owner.value) != Some(g)
      ensures t.cm[g].owner.value in t.spaces && Referred(t.spaces[t.cm[g].owner.value].pt, FrameAddr(t.first, g))
    {
      var b := t.cm[g].owner.value;
      if g == f {
        assert t.spaces[a].pt[i].inMem && t.spaces[a].pt[i].paddr == FrameAddr(t.first, g);
      } else {
        var k :| && 0 <= k < |s.spaces[b].pt| && s.spaces[b].pt[k].inMem
                 && s.spaces[b].pt[k].paddr == FrameAddr(s.first, g);
        assert t.spaces[b].pt[k] == s.spaces[b].pt[k];
      }
    }
  }

  /** Translations stay backed when an entry that was not in memory changes. */
  lemma {:induction false} BackedStays(x: Tlb.Slot, pt: seq<PtEntry>, i: nat, e: PtEntry)
    requires Backed(x, pt) && i < |pt| && !pt[i].inMem
    ensures Backed(x, pt[i := e])
  {
    if x.Valid? {
      var k :| && 0 <= k < |pt| && pt[k].vaddr == x.vpage && pt[k].inMem
               && pt[k].paddr == x.paddr && pt[k].perm.w == x.dirty;
      assert pt[i := e][k] == pt[k];
    }
  }

  lemma {:induction false} FillTlb(s: Vm, t: Vm, a: AsId, i: nat, f: nat, page: Page)
    requires Fills(s, t, a, i, f, page) && TlbOk(s) && s.cur == Some(a) && !s.spaces[a].pt[i].inMem
    ensures TlbOk(t)
  {
    forall k | 0 <= k < |t.tlb.slots| ensures Backed(t.tlb.slots[k], t.spaces[a].pt) {
      BackedStays(s.tlb.slots[k], s.spaces[a].pt, i, ResidentEntry(s.spaces[a].pt[i], FrameAddr(s.first, f)));
    }
  }

  lemma {:induction false} InitByteStable(sp: Space, pt: seq<PtEntry>)
    ensures forall va, page :: Shows(sp, va, page) <==> Shows(sp.(pt := pt), va, page)
  {
    assert forall va, o :: InitByte(sp, va, o) == InitByte(sp.(pt := pt), va, o);
  }

  lemma {:induction false} FirstShows(sp: Space, va: nat, prior: Page)
    ensures Shows(sp, va, FirstContents(sp, va, prior))
  {
  }

  lemma {:induction false} FillReadOnlyAt(s: Vm, t: Vm, a: AsId, i: nat, f: nat, page: Page, b: AsId, k: nat)
    requires Fills(s, t, a, i, f, page) && b in s.spaces && k < |s.spaces[b].pt|
    requires EntryOk(s.spaces[b].pt[k], b, s.first, s.cm, s.swap.bits, Some(f), InHand(s, b))
    requires ReadOnlyEntryOk(s.spaces[b], s.spaces[b].pt[k], s.first, s.ram)
    ensures ReadOnlyEntryOk(t.spaces[b], t.spaces[b].pt[k], t.first, t.ram)
  {
    if b == a {
      InitByteStable(s.spaces[a], t.spaces[a].pt);
      if k == i {
        FrameAddrInverse(s.first, |s.cm|, f);
        FirstShows(s.spaces[a], s.spaces[a].pt[i].vaddr, s.ram[f]);
      }
    }
  }

  lemma {:induction false} EntryHolds(s: Vm, hole: Option<nat>, b: AsId, k: nat)
    requires SpacesOk(s, hole) && b in s.spaces && k < |s.spaces[b].pt|
    ensures EntryOk(s.spaces[b].pt[k], b, s.first, s.cm, s.swap.bits, hole, InHand(s, b))
  {
  }

  lemma {:induction false} FillReadOnly(s: Vm, t: Vm, a: AsId, i: nat, f: nat, page: Page)
    requires Fills(s, t, a, i, f, page) && ReadOnlyOk(s) && SpacesOk(s, Some(f))
    ensures ReadOnlyOk(t)
  {
    forall b, k | b in t.spaces && 0 <= k < |t.spaces[b].pt|
      ensures ReadOnlyEntryOk(t.spaces[b], t.spaces[b].pt[k], t.first, t.ram)
    {
      EntryHolds(s, Some(f), b, k);
      FillReadOnlyAt(s, t, a, i, f, page, b, k);
    }
  }

  lemma {:induction false} FillInv(s: Vm, t: Vm, a: AsId, i: nat, f: nat, page: Page)
    requires InvBut(s, Some(f)) && s.cur == Some(a) && s.cur.value in s.spaces && Fills(s, t, a, i, f, page)
    requires s.cm[f].owner == Some(a) && !s.spaces[a].pt[i].inMem && a !in s.pending
    ensures Inv(t)
  {
    var e := ResidentEntry(s.spaces[a].pt[i], FrameAddr(s.first, f));
    FillSpaces(s, t, a, i, f, page);
    FillFrames(s, t, a, i, f, page);
    SlotLeft(s.spaces, s.swap.bits, a, i, e);
    FillTlb(s, t, a, i, f, page);
    FillReadOnly(s, t, a, i, f, page);
    FillRest(s, t, a, i, f, page);
  }

  lemma {:induction false} FillRest(s: Vm, t: Vm, a: AsId, i: nat, f: nat, page: Page)
    requires Fills(s, t, a, i, f, page) && PendingOk(s) && TablesOk(s.spaces, s.blocks) && a !in s.pending
    ensures PendingOk(t) && TablesOk(t.spaces, t.blocks)
  {
  }

  /** Filling a frame nobody refers to changes the contents of no other page. */
  lemma {:induction false} FillContents(s: Vm, t: Vm, a: AsId, i: nat, f: nat, page: Page, b: AsId, k: nat)
    requires Fills(s, t, a, i, f, page) && SlotsOk(s) && b in s.spaces && k < |s.spaces[b].pt| && !(b == a && k == i)
    requires EntryOk(s.spaces[b].pt[k], b, s.first, s.cm, s.swap.bits, Some(f), InHand(s, b))
    ensures Contents(t, b, k) == Contents(s, b, k)
  {
    assert t.spaces[b].pt[k] == s.spaces[b].pt[k];
    assert t.swap.pages == s.swap.pages;
  }

  lemma {:induction false} FillSame(s: Vm, t: Vm, a: AsId, i: nat, f: nat, page: Page)
    requires Fills(s, t, a, i, f, page) && SlotsOk(s) && SpacesOk(s, Some(f))
    ensures SameBut(s, t, a, i)
    ensures Contents(t, a, i) == Some(page)
  {
    FillOwn(s, t, a, i, f, page);
    SetEntryLayout(s.spaces, a, i, ResidentEntry(s.spaces[a].pt[i], FrameAddr(s.first, f)));
    forall b, k | b in s.spaces && 0 <= k < |s.spaces[b].pt| && !(b == a && k == i)
      ensures Contents(t, b, k) == Contents(s, b, k)
    {
      EntryHolds(s, Some(f), b, k);
      FillContents(s, t, a, i, f, page, b, k);
    }
  }

  lemma {:induction false} FillOwn(s: Vm, t: Vm, a: AsId, i: nat, f: nat, page: Page)
    requires Fills(s, t, a, i, f, page)
    ensures a in t.spaces && i < |t.spaces[a].pt| && Contents(t, a, i) == Some(page)
  {
    FrameAddrInverse(s.first, |s.cm|, f);
  }

  // ---- vm_fault ----

  lemma {:induction false} SameTrans(s: Vm, s1: Vm, t: Vm, a: AsId, i: nat)
    requires a in s.spaces && SameBut(s, s1, a, |s.spaces[a].pt|) && SameBut(s1, t, a, i)
    ensures SameBut(s, t, a, i)
  {
    assert SameLayouts(s, t);
    forall b, k | b in s.spaces && 0 <= k < |s.spaces[b].pt| && s.spaces[b].pt[k].perm.w && !(b == a && k == i)
      ensures Contents(t, b, k) == Contents(s, b, k)
    {
      assert SameLayout(s.spaces[b], s1.spaces[b]);
      assert Contents(s1, b, k) == Contents(s, b, k);
    }
  }

  /** Entry i of space a became resident: with its own contents if it had any, otherwise
      with contents that show the executable or zeroes. */
  ghost predicate BroughtIn(s: Vm, t: Vm, a: AsId, i: nat) {
    && a in s.spaces && i < |s.spaces[a].pt| && SameBut(s, t, a, i) && t.spaces[a].pt[i].inMem
    && Contents(t, a, i).Some?
    && (if Contents(s, a, i).Some? then Contents(t, a, i) == Contents(s, a, i)
        else Shows(s.spaces[a], s.spaces[a].pt[i].vaddr, Contents(t, a, i).value))
  }

  lemma {:induction false} FilledContents(s: Vm, s1: Vm, t: Vm, a: AsId, i: nat, f: nat, page: Page)
    requires FrameReady(s, s1, a, f) && Fills(s1, t, a, i, f, page)
    requires i < |s.spaces[a].pt| && !s.spaces[a].pt[i].inMem
    ensures if Contents(s, a, i).Some? then Some(page) == Contents(s, a, i)
            else Shows(s.spaces[a], s.spaces[a].pt[i].vaddr, page)
  {
    EntryHolds(s1, Some(f), a, i);
    FilledAt(s, s1, t, a, i, f, page);
  }

  lemma {:induction false} FilledAt(s: Vm, s1: Vm, t: Vm, a: AsId, i: nat, f: nat, page: Page)
    requires Fills(s1, t, a, i, f, page) && a in s.spaces && SameBut(s, s1, a, |s.spaces[a].pt|)
    requires i < |s.spaces[a].pt| && !s.spaces[a].pt[i].inMem && s1.spaces[a].pt[i] == s.spaces[a].pt[i]
    requires EntryOk(s1.spaces[a].pt[i], a, s1.first, s1.cm, s1.swap.bits, Some(f), InHand(s1, a))
    ensures if Contents(s, a, i).Some? then Some(page) == Contents(s, a, i)
            else Shows(s.spaces[a], s.spaces[a].pt[i].vaddr, page)
  {
    var e := s.spaces[a].pt[i];
    assert SameLayout(s.spaces[a], s1.spaces[a]);
    if e.inSwap {
      SwappedSame(s, s1, a, i);
    } else {
      FirstFilled(s.spaces[a], s1.spaces[a], e.vaddr, s1.ram[f], page);
    }
  }

  lemma {:induction false} SwappedSame(s: Vm, s1: Vm, a: AsId, i: nat)
    requires a in s.spaces && SameBut(s, s1, a, |s.spaces[a].pt|) && i < |s.spaces[a].pt| && s.spaces[a].pt[i].perm.w
    ensures a in s1.spaces && i < |s1.spaces[a].pt| && Contents(s1, a, i) == Contents(s, a, i)
  {
  }

  lemma {:induction false} FirstFilled(sp: Space, sq: Space, va: nat, frame: Page, page: Page)
    requires SameLayout(sp, sq) && page == FirstContents(sq, va, frame)
    ensures Shows(sp, va, page)
  {
    InitByteStable(sp, sq.pt);
    assert sq == sp.(pt := sq.pt);
    FirstShows(sq, va, frame);
  }

  lemma {:induction false} FillReady(s: Vm, s1: Vm, t: Vm, a: AsId, i: nat, f: nat, page: Page)
    requires FrameReady(s, s1, a, f) && s.cur == Some(a) && Fills(s1, t, a, i, f, page)
    requires i < |s.spaces[a].pt| && !s.spaces[a].pt[i].inMem && a !in s1.pending
    ensures Inv(t) && BroughtIn(s, t, a, i)
  {
    assert s1.spaces[a].pt[i] == s.spaces[a].pt[i];
    FillInv(s1, t, a, i, f, page);
    FillSame(s1, t, a, i, f, page);
    SameTrans(s, s1, t, a, i);
    FilledContents(s, s1, t, a, i, f, page);
  }

  lemma {:induction false} BringInKeeps(s: Vm, a: AsId, i: nat, vpage: nat)
    requires Inv(s) && s.cur == Some(a) && a in s.spaces && i < |s.spaces[a].pt| && !s.spaces[a].pt[i].inMem
    requires BringIn(s, a, i, vpage).Some? && a !in s.pending
    ensures var t := BringIn(s, a, i, vpage).value;
            && Inv(t) && BroughtIn(s, t, a, i)
            && forall va :: !Tlb.Holds(s.tlb.slots, va) ==> !Tlb.Holds(t.tlb.slots, va)
  {
    var t := BringIn(s, a, i, vpage).value;
    assert EntryOk(s.spaces[a].pt[i], a, s.first, s.cm, s.swap.bits, None, InHand(s, a));
    assert GetPage(s, a, vpage).Some?;
    var (s1, f) := GetPage(s, a, vpage).value;
    GetPageReady(s, a, vpage);
    var page := FillShape(s1, a, i, f);
    FillReady(s, s1, t, a, i, f, page);
  }

  lemma {:induction false} LoadTlbKeeps(s: Vm, a: AsId, i: nat)
    requires Inv(s) && s.cur == Some(a) && a in s.spaces && i < |s.spaces[a].pt| && s.spaces[a].pt[i].inMem
    requires !Tlb.Holds(s.tlb.slots, s.spaces[a].pt[i].vaddr)
    ensures var t := LoadTlb(s, a, i);
            && Inv(t) && t == s.(tlb := t.tlb, stats := t.stats)
            && Tlb.Holds(t.tlb.slots, s.spaces[a].pt[i].vaddr)
  {
    LoadTlbBacked(s, a, i);
    TlbIrrelevant(s, LoadTlb(s, a, i));
  }

  lemma {:induction false} LoadTlbBacked(s: Vm, a: AsId, i: nat)
    requires Sized(s) && TlbOk(s) && s.cur == Some(a) && a in s.spaces && i < |s.spaces[a].pt|
    requires s.spaces[a].pt[i].inMem
    requires !Tlb.Holds(s.tlb.slots, s.spaces[a].pt[i].vaddr)
    ensures var t := LoadTlb(s, a, i);
            && TlbOk(t) && Tlb.WellFormed(t.tlb) && t == s.(tlb := t.tlb, stats := t.stats)
            && Tlb.Holds(t.tlb.slots, s.spaces[a].pt[i].vaddr)
  {
    var e := s.spaces[a].pt[i];
    var t := LoadTlb(s, a, i);
    Tlb.LoadEffect(s.tlb, e.vaddr, e.paddr, e.perm.w);
    assert Backed(Tlb.Valid(e.vaddr, e.paddr, e.perm.w), t.spaces[a].pt);
    forall k | 0 <= k < |t.tlb.slots| ensures Backed(t.tlb.slots[k], t.spaces[a].pt) {
      assert Backed(s.tlb.slots[k], s.spaces[a].pt);
    }
  }

  lemma {:induction false} TlbIrrelevant(s: Vm, t: Vm)
    requires Inv(s) && t == s.(tlb := t.tlb, stats := t.stats) && Tlb.WellFormed(t.tlb) && TlbOk(t)
    ensures Inv(t)
  {
    SameTables(s, t);
    SameReadOnly(s, t);
  }

  lemma {:induction false} InvFaultable(s: Vm)
    requires Inv(s)
    ensures Faultable(s)
  {
    if s.cur.Some? {
      assert Layout(s.spaces[s.cur.value].segs, s.spaces[s.cur.value].pt);
    }
  }

  lemma {:induction false} FoundIffMapped(s: Vm, va: nat)
    requires Faultable(s) && s.cur.Some? && SpacesOk(s, None)
    ensures Found(s, va).Some? <==> Mapped(s.spaces[s.cur.value].segs, PageOf(va))
    ensures Found(s, va).Some? ==> s.spaces[s.cur.value].pt[Found(s, va).value].vaddr == PageOf(va)
  {
    var sp := s.spaces[s.cur.value];
    assert Layout(sp.segs, sp.pt);
    LookupIff(sp.segs, sp.pt, PageOf(va));
  }

  /** A handled fault keeps the invariant, makes the page resident and translated, and changes no
      contents: the page itself keeps what it had, or shows the executable or zeroes when first loaded. */
  lemma {:induction false} FaultKeeps(s: Vm, ft: FaultType, va: nat)
    requires Inv(s) && Faultable(s) && Fault(s, ft, va).Handled?
    requires s.cur.Some? ==> !Tlb.Holds(s.tlb.slots, PageOf(va)) && s.cur.value !in s.pending
    ensures var t := Fault(s, ft, va).s;
            && Inv(t) && s.cur.Some? && s.cur.value in s.spaces
            && var a := s.cur.value;
               var look := Lookup(s.spaces[a].segs, s.spaces[a].pt, PageOf(va));
               && look.Some? && BroughtIn(s, t, a, look.value) && Tlb.Holds(t.tlb.slots, PageOf(va))
  {
    var a, i, s0 := FaultServes(s, ft, va);
    ServeKeeps(s, s0, a, i);
  }

  lemma {:induction false} FaultServes(s: Vm, ft: FaultType, va: nat) returns (a: AsId, i: nat, s0: Vm)
    requires Faultable(s) && Fault(s, ft, va).Handled?
    ensures s.cur == Some(a) && a in s.spaces && Lookup(s.spaces[a].segs, s.spaces[a].pt, PageOf(va)) == Some(i)
    ensures s0 == s.(stats := s.stats.(faults := s.stats.faults + 1)) && Faultable(s0)
    ensures Serve(s0, a, i) == Some(Fault(s, ft, va).s)
  {
    FaultHandledWhen(s, ft, va);
    a, i, s0 := s.cur.value, Found(s, va).value, CountFault(s);
  }

  lemma {:induction false} ServeKeeps(s: Vm, s0: Vm, a: AsId, i: nat)
    requires Inv(s) && s.cur == Some(a) && a in s.spaces && i < |s.spaces[a].pt|
    requires !Tlb.Holds(s.tlb.slots, s.spaces[a].pt[i].vaddr) && s0 == s.(stats := s0.stats) && Sized(s0)
    requires Swap.WellFormed(s0.swap) && Serve(s0, a, i).Some? && a !in s.pending
    ensures var t := Serve(s0, a, i).value;
            Inv(t) && BroughtIn(s, t, a, i) && Tlb.Holds(t.tlb.slots, s.spaces[a].pt[i].vaddr)
  {
    ServeIs(s0, a, i);
    if s.spaces[a].pt[i].inMem {
      ReloadKeeps(s, s0.(stats := s0.stats.(reloads := s0.stats.reloads + 1)), a, i);
    } else {
      MissKeeps(s, s0, a, i);
    }
  }

  lemma {:induction false} ReloadKeeps(s: Vm, s1: Vm, a: AsId, i: nat)
    requires Inv(s) && s.cur == Some(a) && a in s.spaces && i < |s.spaces[a].pt| && s.spaces[a].pt[i].inMem
    requires !Tlb.Holds(s.tlb.slots, s.spaces[a].pt[i].vaddr) && s1 == s.(stats := s1.stats)
    ensures Sized(s1)
    ensures var t := LoadTlb(s1, a, i);
            Inv(t) && BroughtIn(s, t, a, i) && Tlb.Holds(t.tlb.slots, s.spaces[a].pt[i].vaddr)
  {
    CursorIrrelevant(s, s1);
    LoadTlbKeeps(s1, a, i);
    assert EntryOk(s.spaces[a].pt[i], a, s.first, s.cm, s.swap.bits, None, InHand(s, a));
    TlbSame(s, LoadTlb(s1, a, i), a, i);
  }

  lemma {:induction false} TlbSame(s: Vm, t: Vm, a: AsId, i: nat)
    requires t == s.(tlb := t.tlb, stats := t.stats) && a in s.spaces && i < |s.spaces[a].pt| && s.spaces[a].pt[i].inMem
    requires Contents(s, a, i).Some?
    ensures BroughtIn(s, t, a, i)
  {
  }

  lemma {:induction false} MissKeeps(s: Vm, s0: Vm, a: AsId, i: nat)
    requires Inv(s) && s.cur == Some(a) && a in s.spaces && i < |s.spaces[a].pt| && !s.spaces[a].pt[i].inMem
    requires !Tlb.Holds(s.tlb.slots, s.spaces[a].pt[i].vaddr) && s0 == s.(stats := s0.stats) && Sized(s0)
    requires Swap.WellFormed(s0.swap) && BringIn(s0, a, i, s0.spaces[a].pt[i].vaddr).Some? && a !in s.pending
    ensures var t := LoadTlb(BringIn(s0, a, i, s0.spaces[a].pt[i].vaddr).value, a, i);
            Inv(t) && BroughtIn(s, t, a, i) && Tlb.Holds(t.tlb.slots, s.spaces[a].pt[i].vaddr)
  {
    CursorIrrelevant(s, s0);
    BringInKeeps(s0, a, i, s0.spaces[a].pt[i].vaddr);
    var s1 := BringIn(s0, a, i, s0.spaces[a].pt[i].vaddr).value;
    assert SameLayout(s0.spaces[a], s1.spaces[a]);
    LoadTlbKeeps(s1, a, i);
    BroughtInLoads(s, s0, s1, LoadTlb(s1, a, i), a, i);
  }

  lemma {:induction false} BroughtInLoads(s: Vm, s0: Vm, s1: Vm, t: Vm, a: AsId, i: nat)
    requires s0 == s.(stats := s0.stats) && BroughtIn(s0, s1, a, i) && t == s1.(tlb := t.tlb, stats := t.stats)
    ensures BroughtIn(s, t, a, i)
  {
    assert SameLayouts(s, t) && SameContents(s, t, a, i);
  }
}

/** What every operation of the paging system keeps. */
module PagingInvariant {
  import opened VmTypes
  import opened Elf
  import opened AddressSpace
  import opened Coremap
  import Tlb
  import Swap
  import opened Paging

  /** The frame that the sleeping fault of space a has in hand */
  function InHand(s: Vm, a: AsId): Option<nat> {
    if a in s.pending && s.pending[a].Filling? then Some(s.pending[a].f) else None
  }

  /** An entry is in memory, in swap or unloaded, and paddr means what its state says. A frame being handed out (hole),
      or in hand of the space's own sleeping fault (own), is owned but not yet referred to. */
  ghost predicate EntryOk(e: PtEntry, a: AsId, first: nat, cm: seq<CEntry>, bits: set<nat>, hole: Option<nat>,
      own: Option<nat>) {
    if e.inMem then
      && !e.inSwap && IsFrame(first, |cm|, e.paddr) && cm[FrameOf(first, e.paddr)].owner == Some(a)
      && hole != Some(FrameOf(first, e.paddr)) && own != Some(FrameOf(first, e.paddr))
    else if e.inSwap then e.perm.w && e.paddr in bits
    else e.paddr == 0
  }

  ghost predicate EntriesOk(pt: seq<PtEntry>, a: AsId, first: nat, cm: seq<CEntry>, bits: set<nat>, hole: Option<nat>,
      own: Option<nat>) {
    forall j | 0 <= j < |pt| :: EntryOk(pt[j], a, first, cm, bits, hole, own)
  }

  /** No frame appears twice in a page table. */
  ghost predicate FramesDistinct(pt: seq<PtEntry>) {
    forall i, j | 0 <= i < j < |pt| && pt[i].inMem && pt[j].inMem :: pt[i].paddr != pt[j].paddr
  }

  ghost predicate SpacesOk(s: Vm, hole: Option<nat>) {
    forall a | a in s.spaces ::
      && Layout(s.spaces[a].segs, s.spaces[a].pt)
      && EntriesOk(s.spaces[a].pt, a, s.first, s.cm, s.swap.bits, hole, InHand(s, a))
      && FramesDistinct(s.spaces[a].pt)
  }

  ghost predicate Referred(pt: seq<PtEntry>, addr: nat) {
    exists j :: 0 <= j < |pt| && pt[j].inMem && pt[j].paddr == addr
  }

  /** Flags of a coremap entry fit together. */
  ghost predicate FlagsOk(c: CEntry) {
    && (c.owner.Some? ==> c.used && !c.reserved)
    && (!c.used ==> !c.reserved && c.owner.None? && c.vpage == 0)
  }

  /** Each owned frame is a used, unreserved frame that an entry of its owner refers to. */
  ghost predicate FramesOk(s: Vm, hole: Option<nat>) {
    && (forall f | 0 <= f < |s.cm| :: FlagsOk(s.cm[f]))
    && (forall f | && 0 <= f < |s.cm| && s.cm[f].owner.Some? && hole != Some(f)
                   && InHand(s, s.cm[f].owner.value) != Some(f) ::
          s.cm[f].owner.value in s.spaces && Referred(s.spaces[s.cm[f].owner.value].pt, FrameAddr(s.first, f)))
  }

  /** A sleeping fault waits for a page that is not in memory, on a frame that its space owns. */
  ghost predicate PendingOk(s: Vm) {
    forall a | a in s.pending ::
      && a in s.spaces && s.pending[a].i < |s.spaces[a].pt| && !s.spaces[a].pt[s.pending[a].i].inMem
      && var f := if s.pending[a].Filling? then s.pending[a].f else s.pending[a].v;
         f < |s.cm| && s.cm[f].owner == Some(a)
  }

  ghost predicate Holder(spaces: map<AsId, Space>, slot: nat, a: AsId, j: nat) {
    a in spaces && j < |spaces[a].pt| && spaces[a].pt[j].inSwap && spaces[a].pt[j].paddr == slot
  }

  /** The marked slots are exactly the slots of swapped-out entries, one entry for each slot. */
  ghost predicate SlotsHeld(spaces: map<AsId, Space>, bits: set<nat>) {
    && (forall b | b in bits :: exists a, j :: Holder(spaces, b, a, j))
    && (forall b, a, j :: Holder(spaces, b, a, j) ==> b in bits)
    && (forall b, a1, j1, a2, j2 :: Holder(spaces, b, a1, j1) && Holder(spaces, b, a2, j2) ==> a1 == a2 && j1 == j2)
  }

  ghost predicate SlotsOk(s: Vm) { Swap.WellFormed(s.swap) && SlotsHeld(s.spaces, s.swap.bits) }

  /** A TLB slot repeats an in-memory entry: same frame, dirty bit if and only if writable. */
  ghost predicate Backed(t: Tlb.Slot, pt: seq<PtEntry>) {
    t.Valid? ==>
      exists j ::
        0 <= j < |pt| && pt[j].vaddr == t.vpage && pt[j].inMem && pt[j].paddr == t.paddr && pt[j].perm.w == t.dirty
  }

  /** While a process runs, the TLB holds only translations of its page table, one for each page. */
  ghost predicate TlbOk(s: Vm) {
    s.cur.Some? ==>
      && s.cur.value in s.spaces
      && Tlb.NoDuplicates(s.tlb.slots)
      && forall i | 0 <= i < |s.tlb.slots| :: Backed(s.tlb.slots[i], s.spaces[s.cur.value].pt)
  }

  /** The byte at offset o of page va that every first load leaves there; None where it depends on the frame. */
  function InitByte(sp: Space, va: nat, o: nat): Option<byte> {
    var k := SegmentFor(sp.segs, va, 0);
    if k + 1 == |sp.segs| then Some(0) else Transferred(sp.segs[k], sp.file, Into(sp.segs[k], va), o)
  }

  ghost predicate Shows(sp: Space, va: nat, page: Page) {
    forall o | 0 <= o < 4096 :: InitByte(sp, va, o).Some? ==> page[o] == InitByte(sp, va, o).value
  }

  /** Read-only pages in memory show the bytes of the executable. */
  ghost predicate ReadOnlyOk(s: Vm) {
    forall a, j | a in s.spaces && 0 <= j < |s.spaces[a].pt| ::
      ReadOnlyEntryOk(s.spaces[a], s.spaces[a].pt[j], s.first, s.ram)
  }

  ghost predicate ReadOnlyEntryOk(sp: Space, e: PtEntry, first: nat, ram: seq<Page>) {
    e.inMem && !e.perm.w && IsFrame(first, |ram|, e.paddr) ==> Shows(sp, e.vaddr, ram[FrameOf(first, e.paddr)])
  }

  ghost predicate InBlock(blocks: map<nat, nat>, f: nat, h: nat) {
    h in blocks && h <= f < h + blocks[h]
  }

  /** Frames in use but owned by no address space are exactly the kernel's blocks, which do not overlap. */
  ghost predicate BlocksOk(cm: seq<CEntry>, blocks: map<nat, nat>) {
    && (forall h | h in blocks :: 0 < blocks[h] && h + blocks[h] <= |cm| && cm[h].alloc == blocks[h])
    && (forall h, f | 0 <= f < |cm| && InBlock(blocks, f, h) :: cm[f].used && cm[f].owner.None?)
    && (forall f, h1, h2 :: InBlock(blocks, f, h1) && InBlock(blocks, f, h2) ==> h1 == h2)
    && (forall f | 0 <= f < |cm| && cm[f].used && cm[f].owner.None? :: exists h :: InBlock(blocks, f, h))
  }

  /** Every page table sits in a kernel block of its own. */
  ghost predicate TablesOk(spaces: map<AsId, Space>, blocks: map<nat, nat>) {
    && (forall a | a in spaces :: spaces[a].table in blocks)
    && (forall a, b | a in spaces && b in spaces && spaces[a].table == spaces[b].table :: a == b)
  }

  ghost predicate InvBut(s: Vm, hole: Option<nat>) {
    && Sized(s) && SpacesOk(s, hole) && FramesOk(s, hole) && SlotsOk(s) && TlbOk(s) && ReadOnlyOk(s)
    && BlocksOk(s.cm, s.blocks) && TablesOk(s.spaces, s.blocks) && PendingOk(s)
  }

  ghost predicate Inv(s: Vm) { InvBut(s, None) }

  // ---- Contents ----

  /** The contents of page j of space a, wherever they are; None before the page is first loaded. */
  function Contents(s: Vm, a: AsId, j: nat): Option<Page>
    requires a in s.spaces && j < |s.spaces[a].pt|
  {
    PageOfEntry(s.spaces[a].pt[j], s.first, s.ram, s.swap.pages)
  }

  function PageOfEntry(e: PtEntry, first: nat, ram: seq<Page>, slots: seq<Page>): Option<Page> {
    if e.inMem then if IsFrame(first, |ram|, e.paddr) then Some(ram[FrameOf(first, e.paddr)]) else None
    else if e.inSwap && e.paddr < |slots| then Some(slots[e.paddr])
    else None
  }

  /** Same spaces and layouts, and the same contents in every writable page but page j of space a. */
  ghost predicate SameBut(s: Vm, t: Vm, a: AsId, j: nat) {
    SameLayouts(s, t) && SameContents(s, t, a, j)
  }

  ghost predicate SameLayouts(s: Vm, t: Vm) {
    && t.spaces.Keys == s.spaces.Keys && t.cur == s.cur && t.first == s.first
    && forall b | b in s.spaces :: SameLayout(s.spaces[b], t.spaces[b])
  }

  ghost predicate SameContents(s: Vm, t: Vm, a: AsId, j: nat) {
    forall b, i | && b in s.spaces && b in t.spaces && 0 <= i < |s.spaces[b].pt| == |t.spaces[b].pt|
                  && s.spaces[b].pt[i].perm.w && !(b == a && i == j) ::
      Contents(t, b, i) == Contents(s, b, i)
  }

  ghost predicate SameLayout(sp: Space, sq: Space) {
    && |sq.pt| == |sp.pt| && sq.segs == sp.segs && sq.file == sp.file && sq.table == sp.table
    && forall i | 0 <= i < |sp.pt| :: sq.pt[i].vaddr == sp.pt[i].vaddr && sq.pt[i].perm == sp.pt[i].perm
  }
}

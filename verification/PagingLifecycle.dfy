/** Address spaces come and go, the kernel allocates frames for itself, processes run:
    the remaining operations on the paging state, and what they keep. */
module PagingLifecycle {
  import opened VmTypes
  import opened AddressSpace
  import opened Coremap
  import Tlb
  import Swap
  import opened Paging
  import opened PagingInvariant
  import opened PagingProofs

  // ---- Frames for the kernel ----

  /** getPages with no address space, and ptAlloc: a block of max(n, 1) frames. None when the kernel stops:
      no run of n frames, or, for a single frame, a full coremap (see KernelPageIff). */
  function AllocBlock(cm: seq<CEntry>, first: nat, n: nat, reserved: bool): (r: Option<(seq<CEntry>, nat)>)
    ensures r.Some? ==>
              var (cm', h) := r.value;
              |cm'| == |cm| && FreeRun(cm, h, BlockSize(n)) && TakesBlock(cm, cm', h, BlockSize(n), reserved)
  {
    if n > 1 then
      var h := LowestRun(cm, n, 0);
      if h == |cm| then None else Some((TakeBlock(cm, first, h, n, reserved, None), h))
    else
      var h := FirstFree(cm, 0);
      if h == |cm| then None else Some((cm[h := Occupied(cm[h], 0, reserved, None).(alloc := 1)], h))
  }

  function BlockSize(n: nat): nat { if n > 1 then n else 1 }

  /** The frames of a page table of n entries, each of 12 bytes */
  function TableFrames(n: nat): nat { (12 * n + 4095) / 4096 }

  /** There is a free run for a block of n frames. */
  ghost predicate HasRun(cm: seq<CEntry>, n: nat) { exists h: nat :: FreeRun(cm, h, BlockSize(n)) }

  /** ptAlloc for a table of n frames: it succeeds exactly when there is a free run for it and the coremap has more than
      n frames; nothing counts ram_used, so that test compares n with all frames, free or not. The lowest run becomes a
      reserved block. */
  function AllocTable(cm: seq<CEntry>, first: nat, n: nat): (r: Option<(seq<CEntry>, nat)>)
    ensures r.Some? <==> |cm| > n && HasRun(cm, n)
    ensures r.Some? ==>
              && TakesBlock(cm, r.value.0, r.value.1, BlockSize(n), true)
              && FreeRun(cm, r.value.1, BlockSize(n)) && forall h: nat | h < r.value.1 :: !FreeRun(cm, h, BlockSize(n))
  {
    AllocBlockIff(cm, first, n, true);
    if |cm| > n then AllocBlock(cm, first, n, true) else None
  }

  lemma {:induction false} AllocBlockIff(cm: seq<CEntry>, first: nat, n: nat, reserved: bool)
    ensures AllocBlock(cm, first, n, reserved).Some? <==> HasRun(cm, n)
    ensures AllocBlock(cm, first, n, reserved).Some? ==>
              forall h: nat | h < AllocBlock(cm, first, n, reserved).value.1 :: !FreeRun(cm, h, BlockSize(n))
  {
    if n > 1 {
      var h := LowestRun(cm, n, 0);
      if h < |cm| { assert FreeRun(cm, h, BlockSize(n)); }
    } else {
      var h := FirstFree(cm, 0);
      forall g: nat ensures FreeRun(cm, g, 1) <==> g < |cm| && IsFree(cm[g]) { SingleRun(cm, g); }
    }
  }

  lemma {:induction false} SingleRun(cm: seq<CEntry>, g: nat)
    ensures FreeRun(cm, g, 1) <==> g < |cm| && IsFree(cm[g])
  {
  }

  /** The n frames at h become a kernel block; no other frame changes. */
  ghost predicate TakesBlock(cm: seq<CEntry>, cm': seq<CEntry>, h: nat, n: nat, reserved: bool) {
    && |cm'| == |cm| && 0 < n && h + n <= |cm| && cm'[h].alloc == n
    && (forall f | h <= f < h + n :: cm'[f].used && cm'[f].reserved == reserved && cm'[f].owner.None?)
    && (forall f | 0 <= f < |cm| && !(h <= f < h + n) :: cm'[f] == cm[f])
  }

  /** getPage without an address space, as the code computes it when the coremap is full:
      it falls through to frame 0, still holding the coremap spinlock. */
  function KernelPage(cm: seq<CEntry>): nat {
    var f := FirstFree(cm, 0);
    if f < |cm| then f else 0
  }

  /** The frame that the kernel gets for itself was free exactly when some frame was free;
      with a full coremap it is handed frame 0, which is in use. */
  lemma {:induction false} KernelPageIff(cm: seq<CEntry>)
    requires 0 < |cm|
    ensures IsFree(cm[KernelPage(cm)]) <==> exists f :: 0 <= f < |cm| && IsFree(cm[f])
  {
  }

  /** A new block does not overlap the old ones. */
  lemma {:induction false} AllocKeepsBlocks(cm: seq<CEntry>, cm': seq<CEntry>, blocks: map<nat, nat>, h: nat, n: nat,
      reserved: bool)
    requires BlocksOk(cm, blocks) && FreeRun(cm, h, n) && TakesBlock(cm, cm', h, n, reserved)
    ensures h !in blocks && BlocksOk(cm', blocks[h := n])
  {
    assert forall k | k in blocks :: InBlock(blocks, k, k);
    var blocks' := blocks[h := n];
    assert forall f: nat, k: nat ::
             InBlock(blocks', f, k) <==> if k == h then h <= f < h + n else InBlock(blocks, f, k);
    forall f | 0 <= f < |cm'| && cm'[f].used && cm'[f].owner.None? ensures exists k :: InBlock(blocks', f, k) {
      if h <= f < h + n { assert InBlock(blocks', f, h); }
      else {
        var k :| InBlock(blocks, f, k);
        assert InBlock(blocks', f, k);
      }
    }
  }

  lemma {:induction false} FreeKeepsBlocks(cm: seq<CEntry>, blocks: map<nat, nat>, h: nat)
    requires BlocksOk(cm, blocks) && h in blocks
    ensures h + cm[h].alloc <= |cm| && BlocksOk(FreeBlock(cm, h), blocks - {h})
  {
    var cm', blocks' := FreeBlock(cm, h), blocks - {h};
    assert InBlock(blocks, h, h);
    assert forall f: nat, k: nat :: InBlock(blocks', f, k) <==> k != h && InBlock(blocks, f, k);
    forall k | k in blocks' ensures k < |cm'| && cm'[k].alloc == blocks'[k] {
      assert InBlock(blocks, k, k);
    }
    forall f: nat, k: nat | f < |cm'| && InBlock(blocks', f, k) ensures cm'[f].used && cm'[f].owner.None? {
      assert InBlock(blocks, f, k) && !InBlock(blocks, f, h);
    }
    forall f | 0 <= f < |cm'| && cm'[f].used && cm'[f].owner.None? ensures exists k :: InBlock(blocks', f, k) {
      var k :| InBlock(blocks, f, k);
      assert k != h;
      assert InBlock(blocks', f, k);
    }
  }

  /** The coremap changes only in frames that no address space owns, before or after. */
  ghost predicate KernelFramesOnly(cm: seq<CEntry>, cm': seq<CEntry>) {
    && |cm'| == |cm|
    && forall f | 0 <= f < |cm| :: cm'[f] == cm[f] || (cm[f].owner.None? && cm'[f].owner.None? && FlagsOk(cm'[f]))
  }

  lemma {:induction false} TakenFramesOnly(cm: seq<CEntry>, cm': seq<CEntry>, h: nat, n: nat, reserved: bool)
    requires FreeRun(cm, h, n) && TakesBlock(cm, cm', h, n, reserved) && forall f | 0 <= f < |cm| :: FlagsOk(cm[f])
    ensures KernelFramesOnly(cm, cm')
  {
    forall f | 0 <= f < |cm| ensures cm'[f] == cm[f] || (cm[f].owner.None? && cm'[f].owner.None? && FlagsOk(cm'[f])) {
      if h <= f < h + n { assert IsFree(cm[f]) && FlagsOk(cm[f]); }
    }
  }

  lemma {:induction false} KernelFramesKeepSpaces(s: Vm, t: Vm)
    requires SpacesOk(s, None) && FramesOk(s, None) && KernelFramesOnly(s.cm, t.cm)
    requires t.spaces == s.spaces && t.first == s.first && t.swap.bits == s.swap.bits && t.pending == s.pending
    ensures SpacesOk(t, None) && FramesOk(t, None)
  {
    forall a | a in t.spaces ensures EntriesOk(t.spaces[a].pt, a, t.first, t.cm, t.swap.bits, None, InHand(t, a)) {
      forall j | 0 <= j < |t.spaces[a].pt|
        ensures EntryOk(t.spaces[a].pt[j], a, t.first, t.cm, t.swap.bits, None, InHand(t, a))
      {
        assert EntryOk(s.spaces[a].pt[j], a, s.first, s.cm, s.swap.bits, None, InHand(s, a));
      }
    }
  }

  lemma {:induction false} KernelFramesPending(s: Vm, t: Vm)
    requires PendingOk(s) && KernelFramesOnly(s.cm, t.cm) && t.spaces == s.spaces && t.pending == s.pending
    ensures PendingOk(t)
  {
  }

  /** A block that is handed out begins at a frame that no block held. */
  lemma {:induction false} NewBlock(cm: seq<CEntry>, first: nat, blocks: map<nat, nat>, n: nat, reserved: bool)
    requires BlocksOk(cm, blocks) && AllocBlock(cm, first, n, reserved).Some?
    ensures AllocBlock(cm, first, n, reserved).value.1 !in blocks
  {
    var h := AllocBlock(cm, first, n, reserved).value.1;
    assert h < |cm| && IsFree(cm[h]);
    if h in blocks { assert InBlock(blocks, h, h); }
  }

  /** alloc_kpages */
  function KAlloc(s: Vm, n: nat): Option<Vm> {
    var r := AllocBlock(s.cm, s.first, n, false);
    if r.None? then None else Some(s.(cm := r.value.0, blocks := s.blocks[r.value.1 := BlockSize(n)]))
  }

  lemma {:induction false} KAllocKeeps(s: Vm, n: nat)
    requires Inv(s) && KAlloc(s, n).Some?
    ensures Inv(KAlloc(s, n).value)
  {
    var t := KAlloc(s, n).value;
    var (cm', h) := AllocBlock(s.cm, s.first, n, false).value;
    AllocKeepsBlocks(s.cm, cm', s.blocks, h, BlockSize(n), false);
    TakenFramesOnly(s.cm, cm', h, BlockSize(n), false);
    KernelFramesKeep(s, t);
  }

  lemma {:induction false} KernelFramesKeep(s: Vm, t: Vm)
    requires Inv(s) && KernelFramesOnly(s.cm, t.cm) && t == s.(cm := t.cm, blocks := t.blocks)
    requires BlocksOk(t.cm, t.blocks) && TablesOk(t.spaces, t.blocks)
    ensures Inv(t)
  {
    KernelFramesKeepSpaces(s, t);
    KernelFramesPending(s, t);
    SameReadOnly(s, t);
    assert SlotsOk(t) && TlbOk(t);
  }

  /** free_kpages for a block that the kernel holds: freepages on its first frame */
  function KFree(s: Vm, h: nat): Vm
    requires h < |s.cm| && h + s.cm[h].alloc <= |s.cm|
  {
    s.(cm := FreeBlock(s.cm, h), blocks := s.blocks - {h})
  }

  lemma {:induction false} KFreeKeeps(s: Vm, h: nat)
    requires Inv(s) && h in s.blocks && forall a | a in s.spaces :: s.spaces[a].table != h
    ensures h < |s.cm| && h + s.cm[h].alloc <= |s.cm| && Inv(KFree(s, h))
  {
    FreeKeepsBlocks(s.cm, s.blocks, h);
    FreedFramesOnly(s, h);
    FreeKeepsTables(s.spaces, s.blocks, h);
    KernelFramesKeep(s, KFree(s, h));
  }

  lemma {:induction false} FreeKeepsTables(spaces: map<AsId, Space>, blocks: map<nat, nat>, h: nat)
    requires TablesOk(spaces, blocks) && forall a | a in spaces :: spaces[a].table != h
    ensures TablesOk(spaces, blocks - {h})
  {
  }

  lemma {:induction false} FreedFramesOnly(s: Vm, h: nat)
    requires BlocksOk(s.cm, s.blocks) && FramesOk(s, None) && h in s.blocks && h + s.cm[h].alloc <= |s.cm|
    ensures KernelFramesOnly(s.cm, FreeBlock(s.cm, h))
  {
    forall f | 0 <= f < |s.cm|
      ensures var c := FreeBlock(s.cm, h)[f]; c == s.cm[f] || (s.cm[f].owner.None? && c.owner.None? && FlagsOk(c))
    {
      if h <= f < h + s.cm[h].alloc { assert InBlock(s.blocks, f, h); }
    }
  }

  // ---- Creating an address space ----

  /** runprogram up to the end of load_elf: the address space is set and activated, its page table is
      allocated in reserved frames and filled. */
  function Spawn(s: Vm, a: AsId, segs: SegList, file: seq<byte>): Option<Vm> {
    var n := TableFrames(PrefixPages(segs, |segs|));
    var r := AllocTable(s.cm, s.first, n);
    if r.None? then None
    else
      var (cm', h) := r.value;
      Some(s.(cm := cm', blocks := s.blocks[h := BlockSize(n)], cur := Some(a), tlb := Tlb.Flush(s.tlb),
              spaces := s.spaces[a := Space(segs, Flatten(segs), file, h)],
              stats := s.stats.(invalidations := s.stats.invalidations + 1)))
  }

  lemma {:induction false} SpawnBlocks(s: Vm, n: nat, a: AsId, segs: SegList, file: seq<byte>)
    requires BlocksOk(s.cm, s.blocks) && TablesOk(s.spaces, s.blocks) && FramesOk(s, None) && a !in s.spaces
    requires AllocBlock(s.cm, s.first, n, true).Some?
    ensures var (cm', h) := AllocBlock(s.cm, s.first, n, true).value;
            var blocks' := s.blocks[h := BlockSize(n)];
            && BlocksOk(cm', blocks') && TablesOk(s.spaces[a := Space(segs, Flatten(segs), file, h)], blocks')
            && KernelFramesOnly(s.cm, cm')
  {
    var (cm', h) := AllocBlock(s.cm, s.first, n, true).value;
    AllocKeepsBlocks(s.cm, cm', s.blocks, h, BlockSize(n), true);
    TakenFramesOnly(s.cm, cm', h, BlockSize(n), true);
  }

  lemma {:induction false} FreshTable(segs: SegList, a: AsId, first: nat, cm: seq<CEntry>, bits: set<nat>)
    requires Ascending(segs)
    ensures Layout(segs, Flatten(segs)) && FramesDistinct(Flatten(segs))
    ensures EntriesOk(Flatten(segs), a, first, cm, bits, None, None)
    ensures forall j | 0 <= j < |Flatten(segs)| :: !Flatten(segs)[j].inMem && !Flatten(segs)[j].inSwap
  {
    FlattenLength(segs);
    forall j | 0 <= j < |Flatten(segs)|
      ensures !Flatten(segs)[j].inMem && !Flatten(segs)[j].inSwap && Flatten(segs)[j].paddr == 0
    {
      var k, i := EntryAt(segs, j);
    }
  }

  lemma {:induction false} SpawnKeeps(s: Vm, a: AsId, segs: SegList, file: seq<byte>)
    requires Inv(s) && s.cur.None? && a !in s.spaces && Ascending(segs) && Spawn(s, a, segs, file).Some?
    ensures Inv(Spawn(s, a, segs, file).value)
  {
    var t := Spawn(s, a, segs, file).value;
    var n := SpawnShape(s, a, segs, file, t);
    SpawnBlocks(s, n, a, segs, file);
    FreshTable(segs, a, t.first, t.cm, t.swap.bits);
    SpawnEntries(s, t, a);
    SpawnRest(s, t, a);
  }

  lemma {:induction false} SpawnShape(s: Vm, a: AsId, segs: SegList, file: seq<byte>, t: Vm) returns (n: nat)
    requires Spawn(s, a, segs, file) == Some(t)
    ensures AllocBlock(s.cm, s.first, n, true).Some?
    ensures var (cm', h) := AllocBlock(s.cm, s.first, n, true).value;
            t == s.(cm := cm', blocks := s.blocks[h := BlockSize(n)], cur := Some(a), tlb := Tlb.Flush(s.tlb),
                    spaces := s.spaces[a := Space(segs, Flatten(segs), file, h)], stats := t.stats)
  {
    n := TableFrames(PrefixPages(segs, |segs|));
  }

  lemma {:induction false} SpawnEntries(s: Vm, t: Vm, a: AsId)
    requires SpacesOk(s, None) && FramesOk(s, None) && PendingOk(s) && KernelFramesOnly(s.cm, t.cm)
    requires a !in s.spaces && a in t.spaces && t.spaces == s.spaces[a := t.spaces[a]] && t.first == s.first
    requires t.swap == s.swap && t.pending == s.pending
    requires Layout(t.spaces[a].segs, t.spaces[a].pt) && FramesDistinct(t.spaces[a].pt)
    requires EntriesOk(t.spaces[a].pt, a, t.first, t.cm, t.swap.bits, None, None)
    ensures SpacesOk(t, None) && FramesOk(t, None) && PendingOk(t)
  {
    var u := s.(cm := t.cm);
    KernelFramesKeepSpaces(s, u);
    KernelFramesPending(s, u);
    assert InHand(t, a) == None;
    SpawnSpaces(u, t, a);
    SpawnFrames(u, t, a);
    SpawnPending(u, t, a);
  }

  lemma {:induction false} SpawnRest(s: Vm, t: Vm, a: AsId)
    requires SlotsOk(s) && ReadOnlyOk(s) && a !in s.spaces && a in t.spaces && t.spaces == s.spaces[a := t.spaces[a]]
    requires t.swap == s.swap && t.first == s.first && t.ram == s.ram && t.cur == Some(a) && t.tlb == Tlb.Flush(s.tlb)
    requires forall j | 0 <= j < |t.spaces[a].pt| :: !t.spaces[a].pt[j].inMem && !t.spaces[a].pt[j].inSwap
    ensures SlotsOk(t) && ReadOnlyOk(t) && TlbOk(t)
  {
    SpawnSlots(s, t, a);
    SpawnReadOnly(s, t, a);
  }

  lemma {:induction false} SpawnReadOnly(s: Vm, t: Vm, a: AsId)
    requires ReadOnlyOk(s) && a in t.spaces && t.spaces == s.spaces[a := t.spaces[a]] && t.first == s.first
    requires t.ram == s.ram
    requires forall j | 0 <= j < |t.spaces[a].pt| :: !t.spaces[a].pt[j].inMem
    ensures ReadOnlyOk(t)
  {
  }

  /** Adding a space of unloaded entries keeps the rest of the invariant. */
  lemma {:induction false} SpawnSpaces(s: Vm, t: Vm, a: AsId)
    requires SpacesOk(s, None) && a !in s.spaces && a in t.spaces
    requires t.spaces == s.spaces[a := t.spaces[a]] && t.first == s.first && t.cm == s.cm && t.swap == s.swap
    requires t.pending == s.pending
    requires Layout(t.spaces[a].segs, t.spaces[a].pt) && FramesDistinct(t.spaces[a].pt)
    requires EntriesOk(t.spaces[a].pt, a, t.first, t.cm, t.swap.bits, None, InHand(t, a))
    ensures SpacesOk(t, None)
  {
    forall b | b in t.spaces
      ensures Layout(t.spaces[b].segs, t.spaces[b].pt) && FramesDistinct(t.spaces[b].pt)
      ensures EntriesOk(t.spaces[b].pt, b, t.first, t.cm, t.swap.bits, None, InHand(t, b))
    {
      if b != a { assert t.spaces[b] == s.spaces[b] && InHand(t, b) == InHand(s, b); }
    }
  }

  lemma {:induction false} SpawnFrames(s: Vm, t: Vm, a: AsId)
    requires FramesOk(s, None) && a !in s.spaces && t.pending == s.pending
    requires t.spaces.Keys == s.spaces.Keys + {a} && (forall b | b in s.spaces :: t.spaces[b] == s.spaces[b])
    requires t.first == s.first && t.cm == s.cm
    ensures FramesOk(t, None)
  {
    forall f | 0 <= f < |t.cm| && t.cm[f].owner.Some? && InHand(t, t.cm[f].owner.value) != Some(f)
      ensures t.cm[f].owner.value in t.spaces && Referred(t.spaces[t.cm[f].owner.value].pt, FrameAddr(t.first, f))
    {
      assert InHand(s, s.cm[f].owner.value) == InHand(t, s.cm[f].owner.value);
    }
  }

  lemma {:induction false} SpawnPending(s: Vm, t: Vm, a: AsId)
    requires PendingOk(s) && a !in s.spaces && t.pending == s.pending && t.cm == s.cm
    requires t.spaces.Keys == s.spaces.Keys + {a} && (forall b | b in s.spaces :: t.spaces[b] == s.spaces[b])
    ensures PendingOk(t)
  {
  }

  lemma {:induction false} SpawnSlots(s: Vm, t: Vm, a: AsId)
    requires SlotsOk(s) && a !in s.spaces && a in t.spaces && t.spaces == s.spaces[a := t.spaces[a]] && t.swap == s.swap
    requires forall j | 0 <= j < |t.spaces[a].pt| :: !t.spaces[a].pt[j].inSwap
    ensures SlotsOk(t)
  {
    assert forall b: nat, c: AsId, k: nat :: Holder(t.spaces, b, c, k) <==> Holder(s.spaces, b, c, k);
    forall b | b in t.swap.bits ensures exists c, k :: Holder(t.spaces, b, c, k) {
      var c, k :| Holder(s.spaces, b, c, k);
      assert Holder(t.spaces, b, c, k);
    }
  }

  // ---- Destroying one ----

  /** The loop of as_destroy: unmark the slots of swapped-out entries from j on. */
  function ClearSlots(w: Swap.Store, pt: seq<PtEntry>, j: nat): (r: Swap.Store)
    requires Swap.WellFormed(w) && j <= |pt|
    ensures Swap.WellFormed(r) && r.pages == w.pages
    ensures forall b :: b in r.bits <==> b in w.bits && !HeldFrom(pt, j, b)
    decreases |pt| - j
  {
    if j == |pt| then w
    else ClearSlots(if pt[j].inSwap && pt[j].paddr in w.bits then Swap.Unmark(w, pt[j].paddr) else w, pt, j + 1)
  }

  lemma {:induction false} ClearStep(w: Swap.Store, pt: seq<PtEntry>, j: nat)
    requires Swap.WellFormed(w) && j < |pt| && (pt[j].inSwap ==> pt[j].paddr in w.bits)
    ensures ClearSlots(w, pt, j) == ClearSlots(if pt[j].inSwap then Swap.Unmark(w, pt[j].paddr) else w, pt, j + 1)
  {
  }

  lemma {:induction false} ClearEnds(w: Swap.Store, pt: seq<PtEntry>)
    requires Swap.WellFormed(w)
    ensures ClearSlots(w, pt, |pt|) == w
  {
  }

  ghost predicate HeldFrom(pt: seq<PtEntry>, j: nat, b: nat) {
    exists k :: j <= k < |pt| && pt[k].inSwap && pt[k].paddr == b
  }

  /** as_destroy */
  function Destroy(s: Vm, a: AsId): Vm
    requires a in s.spaces && Swap.WellFormed(s.swap)
    requires var h := s.spaces[a].table; h < |s.cm| && h + s.cm[h].alloc <= |s.cm|
  {
    s.(swap := ClearSlots(s.swap, s.spaces[a].pt, 0),
       cm := FreeOwned(FreeBlock(s.cm, s.spaces[a].table), a),
       blocks := s.blocks - {s.spaces[a].table},
       spaces := s.spaces - {a})
  }

  lemma {:induction false} OwnedKeepsBlocks(cm: seq<CEntry>, blocks: map<nat, nat>, a: AsId)
    requires BlocksOk(cm, blocks) && forall f | 0 <= f < |cm| :: FlagsOk(cm[f])
    ensures BlocksOk(FreeOwned(cm, a), blocks)
  {
    assert forall h | h in blocks :: InBlock(blocks, h, h);
  }

  lemma {:induction false} DestroySpaces(s: Vm, t: Vm, a: AsId)
    requires SpacesOk(s, None) && SlotsOk(s) && a in s.spaces
    requires t.spaces == s.spaces - {a} && t.first == s.first && t.cm == FreeOwned(s.cm, a)
    requires t.swap == ClearSlots(s.swap, s.spaces[a].pt, 0) && t.pending == s.pending
    ensures SpacesOk(t, None)
  {
    forall b, j | b in t.spaces && 0 <= j < |t.spaces[b].pt|
      ensures EntryOk(t.spaces[b].pt[j], b, t.first, t.cm, t.swap.bits, None, InHand(t, b))
    {
      assert EntryOk(s.spaces[b].pt[j], b, s.first, s.cm, s.swap.bits, None, InHand(s, b));
      DestroyEntry(s, t, a, b, j);
    }
  }

  lemma {:induction false} DestroyFrames(s: Vm, t: Vm, a: AsId)
    requires FramesOk(s, None) && t.pending == s.pending
    requires t.spaces == s.spaces - {a} && t.first == s.first && t.cm == FreeOwned(s.cm, a)
    ensures FramesOk(t, None)
  {
    forall f | 0 <= f < |t.cm|
      ensures FlagsOk(t.cm[f])
      ensures t.cm[f].owner.Some? && InHand(t, t.cm[f].owner.value) != Some(f) ==>
                t.cm[f].owner.value in t.spaces && Referred(t.spaces[t.cm[f].owner.value].pt, FrameAddr(t.first, f))
    {
      assert FlagsOk(s.cm[f]) && t.cm[f].owner == if s.cm[f].owner == Some(a) then None else s.cm[f].owner;
      if t.cm[f].owner.Some? { assert InHand(t, t.cm[f].owner.value) == InHand(s, t.cm[f].owner.value); }
    }
  }

  lemma {:induction false} DestroyPending(s: Vm, t: Vm, a: AsId)
    requires PendingOk(s) && a !in s.pending && t.pending == s.pending
    requires t.spaces == s.spaces - {a} && t.cm == FreeOwned(s.cm, a)
    ensures PendingOk(t)
  {
  }

  /** Entries of other spaces keep their frames and slots. */
  lemma {:induction false} DestroyEntry(s: Vm, t: Vm, a: AsId, b: AsId, j: nat)
    requires SlotsOk(s) && a in s.spaces && b in s.spaces && b != a && j < |s.spaces[b].pt|
    requires EntryOk(s.spaces[b].pt[j], b, s.first, s.cm, s.swap.bits, None, InHand(s, b))
    requires t.first == s.first && t.cm == FreeOwned(s.cm, a) && t.swap == ClearSlots(s.swap, s.spaces[a].pt, 0)
    requires t.pending == s.pending
    ensures EntryOk(s.spaces[b].pt[j], b, t.first, t.cm, t.swap.bits, None, InHand(t, b))
  {
    var e := s.spaces[b].pt[j];
    if e.inSwap {
      assert Holder(s.spaces, e.paddr, b, j);
      HolderHeld(s, a, e.paddr);
    }
  }

  lemma {:induction false} DestroySlots(s: Vm, t: Vm, a: AsId)
    requires SlotsOk(s) && a in s.spaces && t.spaces == s.spaces - {a}
    requires t.swap == ClearSlots(s.swap, s.spaces[a].pt, 0)
    ensures SlotsOk(t)
  {
    assert forall b: nat, c: AsId, k: nat :: Holder(t.spaces, b, c, k) <==> c != a && Holder(s.spaces, b, c, k);
    forall b | b in t.swap.bits ensures exists c, k :: Holder(t.spaces, b, c, k) {
      var c, k :| Holder(s.spaces, b, c, k);
      HolderHeld(s, a, b);
      assert c != a;
      assert Holder(t.spaces, b, c, k);
    }
    forall b: nat, c: AsId, k: nat | Holder(t.spaces, b, c, k) ensures b in t.swap.bits {
      if HeldFrom(s.spaces[a].pt, 0, b) {
        var j :| 0 <= j < |s.spaces[a].pt| && s.spaces[a].pt[j].inSwap && s.spaces[a].pt[j].paddr == b;
        assert Holder(s.spaces, b, a, j) && Holder(s.spaces, b, c, k);
      }
    }
  }

  /** Destroying an address space that is not running keeps the invariant. */
  lemma {:induction false} DestroyKeeps(s: Vm, a: AsId)
    requires Inv(s) && a in s.spaces && s.cur != Some(a) && a !in s.pending
    ensures var h := s.spaces[a].table; h < |s.cm| && h + s.cm[h].alloc <= |s.cm|
    ensures Inv(Destroy(s, a))
  {
    var h := s.spaces[a].table;
    FreeKeepsBlocks(s.cm, s.blocks, h);
    FreedFramesOnly(s, h);
    var u := s.(cm := FreeBlock(s.cm, h));
    KernelFramesKeepSpaces(s, u);
    KernelFramesPending(s, u);
    var t := Destroy(s, a);
    DestroySpaces(u, t, a);
    DestroyFrames(u, t, a);
    DestroyPending(u, t, a);
    DestroySlots(s, t, a);
    OwnedKeepsBlocks(u.cm, t.blocks, a);
    DestroyRest(s, t, a);
  }

  lemma {:induction false} DestroyRest(s: Vm, t: Vm, a: AsId)
    requires TlbOk(s) && ReadOnlyOk(s) && TablesOk(s.spaces, s.blocks) && a in s.spaces && s.cur != Some(a)
    requires t == s.(swap := t.swap, cm := t.cm, blocks := s.blocks - {s.spaces[a].table}, spaces := s.spaces - {a})
    ensures TlbOk(t) && ReadOnlyOk(t) && TablesOk(t.spaces, t.blocks)
  {
  }

  /** as_destroy gives back all that the address space had and nothing else: its frames,
      the frames of its page table, and its swap slots. */
  lemma {:induction false} DestroyReleases(s: Vm, a: AsId)
    requires Inv(s) && a in s.spaces && s.cur != Some(a)
    ensures var h := s.spaces[a].table; h in s.blocks && h < |s.cm| && h + s.cm[h].alloc <= |s.cm|
    ensures var t := Destroy(s, a);
            && |t.cm| == |s.cm|
            && (forall f | 0 <= f < |s.cm| ::
                  IsFree(t.cm[f]) <==>
                    IsFree(s.cm[f]) || s.cm[f].owner == Some(a) || InBlock(s.blocks, f, s.spaces[a].table))
            && (forall b :: b in t.swap.bits <==> b in s.swap.bits && !exists j :: Holder(s.spaces, b, a, j))
  {
    var h := s.spaces[a].table;
    FramesReleased(s.cm, s.blocks, h, a);
    SlotsReleased(s, a);
  }

  lemma {:induction false} SlotsReleased(s: Vm, a: AsId)
    requires Swap.WellFormed(s.swap) && a in s.spaces
    ensures forall b :: b in ClearSlots(s.swap, s.spaces[a].pt, 0).bits <==>
                          b in s.swap.bits && !exists j :: Holder(s.spaces, b, a, j)
  {
    forall b
      ensures b in ClearSlots(s.swap, s.spaces[a].pt, 0).bits <==>
                b in s.swap.bits && !exists j :: Holder(s.spaces, b, a, j)
    {
      HolderHeld(s, a, b);
    }
  }

  lemma {:induction false} FramesReleased(cm: seq<CEntry>, blocks: map<nat, nat>, h: nat, a: AsId)
    requires BlocksOk(cm, blocks) && h in blocks && (forall f | 0 <= f < |cm| :: FlagsOk(cm[f]))
    ensures h < |cm| && h + cm[h].alloc <= |cm|
    ensures var cm' := FreeOwned(FreeBlock(cm, h), a);
            |cm'| == |cm| && forall f | 0 <= f < |cm| ::
              IsFree(cm'[f]) <==> IsFree(cm[f]) || cm[f].owner == Some(a) || InBlock(blocks, f, h)
  {
    forall f | 0 <= f < |cm|
      ensures IsFree(FreeOwned(FreeBlock(cm, h), a)[f]) <==>
                IsFree(cm[f]) || cm[f].owner == Some(a) || InBlock(blocks, f, h)
    {
      assert FlagsOk(cm[f]);
    }
  }

  lemma {:induction false} HolderHeld(s: Vm, a: AsId, b: nat)
    requires a in s.spaces
    ensures (exists j :: Holder(s.spaces, b, a, j)) <==> HeldFrom(s.spaces[a].pt, 0, b)
  {
    if HeldFrom(s.spaces[a].pt, 0, b) {
      var j :| 0 <= j < |s.spaces[a].pt| && s.spaces[a].pt[j].inSwap && s.spaces[a].pt[j].paddr == b;
      assert Holder(s.spaces, b, a, j);
    }
  }

  // ---- Running ----

  /** as_activate on a context switch: a process without an address space leaves the TLB in place. */
  function Activate(s: Vm, to: Option<AsId>): Vm {
    if to.None? then s.(cur := None)
    else s.(cur := to, tlb := Tlb.Flush(s.tlb), stats := s.stats.(invalidations := s.stats.invalidations + 1))
  }

  lemma {:induction false} ActivateKeeps(s: Vm, to: Option<AsId>)
    requires Inv(s) && (to.Some? ==> to.value in s.spaces)
    ensures Inv(Activate(s, to))
  {
    ActivateTlb(s, to);
    SameButTlb(s, Activate(s, to));
  }

  lemma {:induction false} ActivateTlb(s: Vm, to: Option<AsId>)
    requires Sized(s) && (to.Some? ==> to.value in s.spaces)
    ensures Sized(Activate(s, to)) && TlbOk(Activate(s, to))
  {
  }

  /** The physical address that the TLB gives for va, if it translates va. */
  function Translate(s: Vm, va: nat): Option<Tlb.Slot> {
    var i := Tlb.Probe(s.tlb.slots, PageOf(va), 0);
    if i < |s.tlb.slots| then Some(s.tlb.slots[i]) else None
  }

  /** A translation leads to the frame of the page table entry for va, which is writable if it is dirty. */
  lemma {:induction false} TranslateFinds(s: Vm, va: nat) returns (j: nat)
    requires Inv(s) && s.cur.Some? && s.cur.value in s.spaces && Translate(s, va).Some?
    ensures var a, x := s.cur.value, Translate(s, va).value;
            && x.Valid? && j < |s.spaces[a].pt| && s.spaces[a].pt[j].vaddr == PageOf(va) && s.spaces[a].pt[j].inMem
            && s.spaces[a].pt[j].paddr == x.paddr && s.spaces[a].pt[j].perm.w == x.dirty
            && IsFrame(s.first, |s.ram|, x.paddr)
            && Contents(s, a, j) == Some(s.ram[FrameOf(s.first, x.paddr)])
  {
    var a, x := s.cur.value, Translate(s, va).value;
    var i := Tlb.Probe(s.tlb.slots, PageOf(va), 0);
    assert Backed(s.tlb.slots[i], s.spaces[a].pt);
    var pt := s.spaces[a].pt;
    j :| 0 <= j < |pt| && pt[j].vaddr == x.vpage && pt[j].inMem && pt[j].paddr == x.paddr && pt[j].perm.w == x.dirty;
    assert EntryOk(pt[j], a, s.first, s.cm, s.swap.bits, None, InHand(s, a));
  }

  /** A store through a translation writes one byte of the frame. */
  function StoreByte(s: Vm, paddr: nat, o: nat, v: byte): Vm
    requires IsFrame(s.first, |s.ram|, paddr) && o < 4096
  {
    var f := FrameOf(s.first, paddr);
    s.(ram := s.ram[f := s.ram[f][o := v]])
  }

  /** Writing the frame of a writable page changes the contents of that page and of no other. */
  lemma {:induction false} FrameWrite(s: Vm, a: AsId, j: nat, page: Page)
    requires Inv(s) && a in s.spaces && j < |s.spaces[a].pt| && s.spaces[a].pt[j].inMem && s.spaces[a].pt[j].perm.w
    ensures var f := FrameOf(s.first, s.spaces[a].pt[j].paddr);
            && f < |s.ram|
            && var t := s.(ram := s.ram[f := page]);
               Inv(t) && SameBut(s, t, a, j) && Contents(t, a, j) == Some(page)
  {
    FrameUnshared(s, a, j);
    var f := FrameOf(s.first, s.spaces[a].pt[j].paddr);
    RamWrite(s, s.(ram := s.ram[f := page]), f, page, a, j);
  }

  lemma {:induction false} FrameUnshared(s: Vm, a: AsId, j: nat)
    requires SpacesOk(s, None) && a in s.spaces && j < |s.spaces[a].pt| && s.spaces[a].pt[j].inMem
    ensures IsFrame(s.first, |s.cm|, s.spaces[a].pt[j].paddr)
    ensures forall b, i | b in s.spaces && 0 <= i < |s.spaces[b].pt| && !(b == a && i == j) ::
              s.spaces[b].pt[i].inMem ==>
                FrameOf(s.first, s.spaces[b].pt[i].paddr) != FrameOf(s.first, s.spaces[a].pt[j].paddr)
  {
    assert EntryOk(s.spaces[a].pt[j], a, s.first, s.cm, s.swap.bits, None, InHand(s, a));
    forall b, i | b in s.spaces && 0 <= i < |s.spaces[b].pt| && !(b == a && i == j) && s.spaces[b].pt[i].inMem
      ensures FrameOf(s.first, s.spaces[b].pt[i].paddr) != FrameOf(s.first, s.spaces[a].pt[j].paddr)
    {
      OtherFrame(s, a, j, b, i);
    }
  }

  lemma {:induction false} OtherFrame(s: Vm, a: AsId, j: nat, b: AsId, i: nat)
    requires SpacesOk(s, None) && a in s.spaces && j < |s.spaces[a].pt| && s.spaces[a].pt[j].inMem
    requires b in s.spaces && i < |s.spaces[b].pt| && s.spaces[b].pt[i].inMem && !(b == a && i == j)
    ensures FrameOf(s.first, s.spaces[b].pt[i].paddr) != FrameOf(s.first, s.spaces[a].pt[j].paddr)
  {
    assert EntryOk(s.spaces[a].pt[j], a, s.first, s.cm, s.swap.bits, None, InHand(s, a));
    assert EntryOk(s.spaces[b].pt[i], b, s.first, s.cm, s.swap.bits, None, InHand(s, b));
    assert a == b ==> s.spaces[a].pt[j].paddr != s.spaces[b].pt[i].paddr;
  }

  /** Writing a frame that only the writable page j of space a may occupy. */
  lemma {:induction false} RamWrite(s: Vm, t: Vm, f: nat, page: Page, a: AsId, j: nat)
    requires Inv(s) && f < |s.ram| && t == s.(ram := s.ram[f := page])
    requires a in s.spaces && j < |s.spaces[a].pt| ==> s.spaces[a].pt[j].perm.w
    requires forall b, i | b in s.spaces && 0 <= i < |s.spaces[b].pt| && !(b == a && i == j) ::
               s.spaces[b].pt[i].inMem ==> FrameOf(s.first, s.spaces[b].pt[i].paddr) != f
    ensures Inv(t) && SameBut(s, t, a, j)
  {
    RamWriteReadOnly(s, t, f, page, a, j);
    SameTables(s, t);
    RamWriteElsewhere(s, t, f, page, a, j);
  }

  lemma {:induction false} RamWriteElsewhere(s: Vm, t: Vm, f: nat, page: Page, a: AsId, j: nat)
    requires f < |s.ram| && t == s.(ram := s.ram[f := page])
    requires forall b, i | b in s.spaces && 0 <= i < |s.spaces[b].pt| && !(b == a && i == j) ::
               s.spaces[b].pt[i].inMem ==> FrameOf(s.first, s.spaces[b].pt[i].paddr) != f
    ensures SameBut(s, t, a, j)
  {
  }

  lemma {:induction false} RamWriteReadOnly(s: Vm, t: Vm, f: nat, page: Page, a: AsId, j: nat)
    requires ReadOnlyOk(s) && f < |s.ram| && t == s.(ram := s.ram[f := page])
    requires a in s.spaces && j < |s.spaces[a].pt| ==> s.spaces[a].pt[j].perm.w
    requires forall b, i | b in s.spaces && 0 <= i < |s.spaces[b].pt| && !(b == a && i == j) ::
               s.spaces[b].pt[i].inMem ==> FrameOf(s.first, s.spaces[b].pt[i].paddr) != f
    ensures ReadOnlyOk(t)
  {
    forall b, i | b in t.spaces && 0 <= i < |t.spaces[b].pt|
      ensures ReadOnlyEntryOk(t.spaces[b], t.spaces[b].pt[i], t.first, t.ram)
    {
      assert ReadOnlyEntryOk(s.spaces[b], s.spaces[b].pt[i], s.first, s.ram);
    }
  }

  /** The kernel writes a frame of its own: no user page changes. */
  lemma {:induction false} KernelWrite(s: Vm, f: nat, page: Page)
    requires Inv(s) && f < |s.cm| && s.cm[f].owner.None?
    ensures var t := s.(ram := s.ram[f := page]);
            Inv(t) && SameBut(s, t, 0, if 0 in s.spaces then |s.spaces[0].pt| else 0)
  {
    forall b, i | b in s.spaces && 0 <= i < |s.spaces[b].pt| && s.spaces[b].pt[i].inMem
      ensures FrameOf(s.first, s.spaces[b].pt[i].paddr) != f
    {
      assert EntryOk(s.spaces[b].pt[i], b, s.first, s.cm, s.swap.bits, None, InHand(s, b));
    }
    RamWrite(s, s.(ram := s.ram[f := page]), f, page, 0, if 0 in s.spaces then |s.spaces[0].pt| else 0);
  }
}

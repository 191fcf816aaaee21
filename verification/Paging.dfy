/** The demand-paging system as one state: coremap, page tables, swap file, TLB and page contents
    (addrspace.c, coremap.c, swapfile.c, vm_tlb.c, vmstats.c), with the operations on it as functions. */
module Paging {
  import opened VmTypes
  import opened Elf
  import opened AddressSpace
  import opened Coremap
  import Tlb
  import Swap

  /** An address space: its segments (the last is the stack), its page table, the executable it is
      loaded from, and the first of the frames its page table was put in. */
  datatype Space = Space(segs: SegList, pt: seq<PtEntry>, file: seq<byte>, table: nat)

  datatype Stats = Stats(faults: nat, withFree: nat, withReplace: nat, invalidations: nat, reloads: nat,
                         zeroed: nat, disk: nat, elfReads: nat, swapReads: nat, swapWrites: nat)

  /** Where the fault of a process that went to sleep in vm_fault has got to. For page i it waits until its own page in
      frame v is written out, or it has frame f in hand and waits until the page is read in. */
  datatype Pending = Evicting(i: nat, v: nat) | Filling(i: nat, f: nat)

  /** cur is the running process' address space, None while a kernel-only thread runs. blocks records what the kernel
      has allocated for itself: first frame to number of frames. pending has the faults of sleeping processes. */
  datatype Vm = Vm(first: nat, cm: seq<CEntry>, next: nat, ram: seq<Page>, swap: Swap.Store, tlb: Tlb.Buffer,
                   spaces: map<AsId, Space>, cur: Option<AsId>, blocks: map<nat, nat>, pending: map<AsId, Pending>,
                   stats: Stats)

  // ---- Addresses ----

  predicate IsFrame(first: nat, n: nat, paddr: nat) {
    first <= paddr && (paddr - first) % 4096 == 0 && (paddr - first) / 4096 < n
  }

  function FrameOf(first: nat, paddr: nat): nat {
    if first <= paddr then (paddr - first) / 4096 else 0
  }

  /** Sizes the operations rely on. A swap slot number is smaller than any frame address. */
  ghost predicate Sized(s: Vm) {
    && 0 < |s.cm| == |s.ram| && s.next < |s.cm| && |s.swap.pages| <= s.first && 0 < s.first
    && Tlb.WellFormed(s.tlb)
  }

  // ---- Getting a frame ----

  /** The page table scan of getPage: the first entry whose paddr is `addr`, or |pt|. */
  function Referrer(pt: seq<PtEntry>, addr: nat, j: nat): (r: nat)
    requires j <= |pt|
    ensures j <= r <= |pt|
    ensures r < |pt| ==> pt[r].paddr == addr
    ensures forall k | j <= k < r :: pt[k].paddr != addr
    decreases |pt| - j
  {
    if j == |pt| || pt[j].paddr == addr then j else Referrer(pt, addr, j + 1)
  }

  function SetEntry(spaces: map<AsId, Space>, a: AsId, j: nat, e: PtEntry): (r: map<AsId, Space>)
    requires a in spaces && j < |spaces[a].pt|
    ensures r.Keys == spaces.Keys
  {
    spaces[a := spaces[a].(pt := spaces[a].pt[j := e])]
  }

  /** Push the page in frame f, which entry j of space a refers to, out of RAM: to swap if it is writable.
      None when the swap file is full. */
  function EvictEntry(s: Vm, a: AsId, f: nat, j: nat): (r: Option<(Vm, nat)>)
    requires Sized(s) && a in s.spaces && f < |s.cm| && j < |s.spaces[a].pt|
    ensures r.Some? ==> Sized(r.value.0) && r.value.1 < |r.value.0.cm| && SameShape(s, r.value.0, a)
  {
    var e := s.spaces[a].pt[j];
    var tlb := Tlb.Drop(s.tlb, PageOf(e.vaddr));
    if e.perm.w then
      var out := Swap.SwapOut(s.swap, s.ram[f]);
      if out.None? then None
      else
        var (swap, slot) := out.value;
        Some((s.(swap := swap, tlb := tlb, stats := s.stats.(swapWrites := s.stats.swapWrites + 1),
                 spaces := SetEntry(s.spaces, a, j, e.(paddr := slot, inMem := false, inSwap := true))), f))
    else
      Some((s.(tlb := tlb, spaces := SetEntry(s.spaces, a, j, e.(paddr := 0, inMem := false))), f))
  }

  /** The second half of getPage: free frame f of space a. Frame 0 is the kernel's answer when nobody refers to f. */
  function Evict(s: Vm, a: AsId, f: nat): (r: Option<(Vm, nat)>)
    requires Sized(s) && a in s.spaces && f < |s.cm|
    ensures r.Some? ==> Sized(r.value.0) && r.value.1 < |r.value.0.cm| && SameShape(s, r.value.0, a)
  {
    var pt := s.spaces[a].pt;
    var j := Referrer(pt, FrameAddr(s.first, f), 0);
    if j == |pt| then Some((s, 0)) else EvictEntry(s, a, f, j)
  }

  ghost predicate SameShape(s: Vm, t: Vm, a: AsId) {
    && a in s.spaces && a in t.spaces && t.first == s.first
    && |t.spaces[a].pt| == |s.spaces[a].pt| && t.spaces[a].segs == s.spaces[a].segs
    && t.spaces[a].file == s.spaces[a].file
  }

  /** Evict the frame that the round-robin search finds. */
  function EvictVictim(s: Vm, a: AsId): (r: Option<(Vm, nat)>)
    requires Sized(s) && a in s.spaces && VictimDistance(s.cm, s.next, a, 0) < |s.cm|
    ensures r.Some? ==> Sized(r.value.0) && r.value.1 < |r.value.0.cm| && SameShape(s, r.value.0, a)
  {
    var d := VictimDistance(s.cm, s.next, a, 0);
    Evict(s.(next := Turn(s.next, d + 1, |s.cm|)), a, Turn(s.next, d, |s.cm|))
  }

  /** The next evictable frame of the space in round-robin order is evicted. None: a panic over the swap space, or the
      space has no such frame and the loop does not end. */
  function Replace(s: Vm, a: AsId): (r: Option<(Vm, nat)>)
    requires Sized(s) && a in s.spaces
    ensures r.Some? ==> Sized(r.value.0) && r.value.1 < |r.value.0.cm| && SameShape(s, r.value.0, a)
  {
    if Swap.Available(s.swap) == 0 || VictimDistance(s.cm, s.next, a, 0) == |s.cm| then None else EvictVictim(s, a)
  }

  /** getPage for address space a: the first free frame, or else the frame of a round-robin victim.
      None when the kernel stops or never returns. */
  function GetPage(s: Vm, a: AsId, vpage: nat): (r: Option<(Vm, nat)>)
    requires Sized(s) && a in s.spaces
    ensures r.Some? ==> Sized(r.value.0) && r.value.1 < |r.value.0.cm| && SameShape(s, r.value.0, a)
  {
    var f := FirstFree(s.cm, 0);
    if f < |s.cm| then Some((WithFrame(s, a, vpage, f), f)) else Replace(s, a)
  }

  function WithFrame(s: Vm, a: AsId, vpage: nat, f: nat): Vm
    requires f < |s.cm|
  {
    s.(cm := s.cm[f := Occupied(s.cm[f], vpage, false, Some(a)).(alloc := 1)])
  }

  // ---- Filling it ----

  /** How far page va lies into its segment. */
  function Into(seg: Segment, va: nat): nat {
    if seg.start <= va then va - seg.start else 0
  }

  /** What the fault handler puts in the frame of page va when the page is not in swap:
      zeroes for the stack, otherwise the on-demand load over the frame's old bytes. */
  function FirstContents(sp: Space, va: nat, prior: Page): Page {
    var k := SegmentFor(sp.segs, va, 0);
    if k + 1 == |sp.segs| then ZeroPage() else LoadedPage(sp.segs[k], sp.file, Into(sp.segs[k], va), prior)
  }

  /** Entry i of space a receives frame f: from swap, from the executable or zeroed.
      None when the slot is not marked in the bitmap, on which the kernel stops. */
  function Fill(s: Vm, a: AsId, i: nat, f: nat): (r: Option<Vm>)
    requires Sized(s) && a in s.spaces && i < |s.spaces[a].pt| && f < |s.cm| && Swap.WellFormed(s.swap)
    ensures r.Some? ==> Sized(r.value) && SameShape(s, r.value, a)
  {
    var sp := s.spaces[a];
    var e := sp.pt[i];
    var resident := SetEntry(s.spaces, a, i, e.(paddr := FrameAddr(s.first, f), inMem := true, inSwap := false));
    var st := s.stats;
    if e.inSwap then
      if e.paddr !in s.swap.bits then None
      else Some(s.(ram := s.ram[f := s.swap.pages[e.paddr]], swap := Swap.Unmark(s.swap, e.paddr), spaces := resident,
                   stats := st.(swapReads := st.swapReads + 1, disk := st.disk + 1)))
    else
      Some(s.(ram := s.ram[f := FirstContents(sp, e.vaddr, s.ram[f])], spaces := resident,
              stats := if SegmentFor(sp.segs, e.vaddr, 0) + 1 < |sp.segs|
                       then st.(elfReads := st.elfReads + 1, disk := st.disk + 1)
                       else st.(zeroed := st.zeroed + 1)))
  }

  /** tlb_loadentry for entry i of space a. */
  function LoadTlb(s: Vm, a: AsId, i: nat): Vm
    requires Sized(s) && a in s.spaces && i < |s.spaces[a].pt|
  {
    var e := s.spaces[a].pt[i];
    s.(tlb := Tlb.Load(s.tlb, e.vaddr, e.paddr, e.perm.w),
       stats := if Tlb.LoadsFree(s.tlb) then s.stats.(withFree := s.stats.withFree + 1)
                else s.stats.(withReplace := s.stats.withReplace + 1))
  }

  // ---- vm_fault ----

  datatype FaultType = Read | Write | ReadOnly | Unknown

  /** Handled: the access is retried. Refused: an error code. Stopped: a panic or an endless loop. */
  datatype FaultResult = Handled(s: Vm) | Refused(s: Vm) | Stopped

  ghost predicate Faultable(s: Vm) {
    && Sized(s) && Swap.WellFormed(s.swap)
    && (s.cur.Some? ==> s.cur.value in s.spaces &&
                        var sp := s.spaces[s.cur.value]; |sp.pt| == PrefixPages(sp.segs, |sp.segs|))
  }

  /** Make entry i of space a resident. */
  function BringIn(s: Vm, a: AsId, i: nat, vpage: nat): (r: Option<Vm>)
    requires Sized(s) && a in s.spaces && i < |s.spaces[a].pt| && Swap.WellFormed(s.swap)
    ensures r.Some? ==> Sized(r.value) && SameShape(s, r.value, a)
  {
    var e := s.spaces[a].pt[i];
    // an unloaded entry with a frame address keeps its frame; the invariant rules that out
    var got := if !e.inSwap && IsFrame(s.first, |s.cm|, e.paddr) then Some((s, FrameOf(s.first, e.paddr)))
               else GetPage(s, a, vpage);
    if got.None? then None else Fill(got.value.0, a, i, got.value.1)
  }

  /** Make entry i of space a resident, if it is not, and load it into the TLB. */
  function Serve(s: Vm, a: AsId, i: nat): Option<Vm>
    requires Sized(s) && a in s.spaces && i < |s.spaces[a].pt| && Swap.WellFormed(s.swap)
  {
    if s.spaces[a].pt[i].inMem then Some(LoadTlb(s.(stats := s.stats.(reloads := s.stats.reloads + 1)), a, i))
    else
      var r := BringIn(s, a, i, s.spaces[a].pt[i].vaddr);
      if r.None? then None else Some(LoadTlb(r.value, a, i))
  }

  /** vm_fault once the lookup is done */
  function FaultAt(s: Vm, ft: FaultType, a: AsId, look: Option<nat>): FaultResult
    requires Sized(s) && Swap.WellFormed(s.swap) && a in s.spaces && (look.Some? ==> look.value < |s.spaces[a].pt|)
  {
    if look.None? || ft.ReadOnly? then Stopped
    else if ft.Unknown? then Refused(s)
    else
      var r := Serve(s, a, look.value);
      if r.None? then Stopped else Handled(r.value)
  }

  function CountFault(s: Vm): Vm { s.(stats := s.stats.(faults := s.stats.faults + 1)) }

  /** The segment walk of vm_fault in the running space */
  function Found(s: Vm, va: nat): (r: Option<nat>)
    requires Faultable(s) && s.cur.Some?
    ensures r.Some? ==> r.value < |s.spaces[s.cur.value].pt|
  {
    Lookup(s.spaces[s.cur.value].segs, s.spaces[s.cur.value].pt, PageOf(va))
  }

  /** vm_fault */
  function Fault(s: Vm, ft: FaultType, va: nat): FaultResult
    requires Faultable(s)
  {
    if s.cur.None? then Refused(CountFault(s)) else FaultAt(CountFault(s), ft, s.cur.value, Found(s, va))
  }

  // ---- vm_fault in phases ----

  /** Up to the point where the fault may sleep: a free frame is taken, or a victim is chosen. None: a panic over the
      swap space, or a search that does not end. */
  function BeginMiss(s: Vm, a: AsId, i: nat): Option<Vm>
    requires Sized(s) && a in s.spaces && i < |s.spaces[a].pt|
  {
    var f := FirstFree(s.cm, 0);
    var d := VictimDistance(s.cm, s.next, a, 0);
    if f < |s.cm| then Some(WithFrame(s, a, s.spaces[a].pt[i].vaddr, f).(pending := s.pending[a := Filling(i, f)]))
    else if Swap.Available(s.swap) == 0 || d == |s.cm| then None
    else Some(s.(next := Turn(s.next, d + 1, |s.cm|), pending := s.pending[a := Evicting(i, Turn(s.next, d, |s.cm|))]))
  }

  /** The victim has been written out, if it had to be: its entry and translation go, the fault has the frame. */
  function EvictOut(s: Vm, a: AsId): Option<Vm>
    requires Sized(s) && a in s.spaces && a in s.pending && s.pending[a].Evicting? && s.pending[a].v < |s.cm|
  {
    var r := Evict(s, a, s.pending[a].v);
    if r.None? then None else Some(r.value.0.(pending := s.pending[a := Filling(s.pending[a].i, r.value.1)]))
  }

  /** The page has been read in: its entry and translation are set. */
  function FinishMiss(s: Vm, a: AsId): Option<Vm>
    requires Sized(s) && Swap.WellFormed(s.swap) && a in s.spaces && a in s.pending && s.pending[a].Filling?
    requires s.pending[a].i < |s.spaces[a].pt| && s.pending[a].f < |s.cm|
  {
    var r := Fill(s.(pending := s.pending - {a}), a, s.pending[a].i, s.pending[a].f);
    if r.None? then None else Some(LoadTlb(r.value, a, s.pending[a].i))
  }

  /** A fault of a running process counts itself and is handled at the entry that the lookup finds. */
  lemma {:induction false} FaultUnfolds(s: Vm, s1: Vm, ft: FaultType, va: nat)
    requires Faultable(s) && s1 == CountFault(s) && s.cur.Some?
    ensures Fault(s, ft, va) == FaultAt(s1, ft, s.cur.value, Found(s, va))
  {
  }

  // ---- Which steps can fail ----

  lemma {:induction false} FaultHandledWhen(s: Vm, ft: FaultType, va: nat)
    requires Faultable(s)
    ensures Fault(s, ft, va).Handled? <==>
              && s.cur.Some? && (ft.Read? || ft.Write?) && Found(s, va).Some?
              && Serve(CountFault(s), s.cur.value, Found(s, va).value).Some?
    ensures Fault(s, ft, va).Handled? ==>
              Serve(CountFault(s), s.cur.value, Found(s, va).value) == Some(Fault(s, ft, va).s)
  {
  }

  lemma {:induction false} FaultRefusedWhen(s: Vm, ft: FaultType, va: nat)
    requires Faultable(s)
    ensures Fault(s, ft, va).Refused? <==> s.cur.None? || (ft.Unknown? && Found(s, va).Some?)
    ensures Fault(s, ft, va).Refused? ==> Fault(s, ft, va).s == CountFault(s)
  {
  }

  lemma {:induction false} ServeWhen(s: Vm, a: AsId, i: nat)
    requires Sized(s) && a in s.spaces && i < |s.spaces[a].pt| && Swap.WellFormed(s.swap)
    ensures Serve(s, a, i).Some? <==> s.spaces[a].pt[i].inMem || BringIn(s, a, i, s.spaces[a].pt[i].vaddr).Some?
  {
  }

  lemma {:induction false} ServeIs(s: Vm, a: AsId, i: nat)
    requires Sized(s) && a in s.spaces && i < |s.spaces[a].pt| && Swap.WellFormed(s.swap) && Serve(s, a, i).Some?
    ensures var e := s.spaces[a].pt[i];
            if e.inMem then Serve(s, a, i).value == LoadTlb(s.(stats := s.stats.(reloads := s.stats.reloads + 1)), a, i)
            else && BringIn(s, a, i, e.vaddr).Some?
                 && Serve(s, a, i).value == LoadTlb(BringIn(s, a, i, e.vaddr).value, a, i)
  {
  }

  /** A miss: get a frame, fill it, load the translation. */
  lemma {:induction false} ServeMiss(s: Vm, a: AsId, i: nat)
    requires Sized(s) && a in s.spaces && i < |s.spaces[a].pt| && Swap.WellFormed(s.swap) && !s.spaces[a].pt[i].inMem
    requires s.spaces[a].pt[i].inSwap || !IsFrame(s.first, |s.cm|, s.spaces[a].pt[i].paddr)
    ensures var got := GetPage(s, a, s.spaces[a].pt[i].vaddr);
            if got.None? then Serve(s, a, i).None?
            else
              var r := Fill(got.value.0, a, i, got.value.1);
              Serve(s, a, i) == if r.None? then None else Some(LoadTlb(r.value, a, i))
  {
  }

  lemma {:induction false} ReplaceWhen(s: Vm, a: AsId)
    requires Sized(s) && a in s.spaces
    ensures if Swap.Available(s.swap) == 0 || VictimDistance(s.cm, s.next, a, 0) == |s.cm| then Replace(s, a).None?
            else Replace(s, a) == EvictVictim(s, a)
  {
  }

  lemma {:induction false} BringInWhen(s: Vm, a: AsId, i: nat, vpage: nat)
    requires Sized(s) && a in s.spaces && i < |s.spaces[a].pt| && Swap.WellFormed(s.swap)
    requires s.spaces[a].pt[i].inSwap || !IsFrame(s.first, |s.cm|, s.spaces[a].pt[i].paddr)
    ensures BringIn(s, a, i, vpage).Some? <==>
              && GetPage(s, a, vpage).Some?
              && var (t, f) := GetPage(s, a, vpage).value;
                 t.spaces[a].pt[i].inSwap ==> t.spaces[a].pt[i].paddr in t.swap.bits
  {
  }

  lemma {:induction false} GetPageWhen(s: Vm, a: AsId, vpage: nat)
    requires Sized(s) && a in s.spaces
    ensures GetPage(s, a, vpage).Some? <==> (exists f :: 0 <= f < |s.cm| && IsFree(s.cm[f])) || Replace(s, a).Some?
  {
    var f := FirstFree(s.cm, 0);
    if f < |s.cm| { assert IsFree(s.cm[f]); }
  }

  lemma {:induction false} EvictEntryPending(s: Vm, p: map<AsId, Pending>, a: AsId, v: nat, j: nat)
    requires Sized(s) && a in s.spaces && v < |s.cm| && j < |s.spaces[a].pt|
    ensures var t, r := s.(pending := p), EvictEntry(s, a, v, j);
            EvictEntry(t, a, v, j) == if r.None? then None else Some((r.value.0.(pending := p), r.value.1))
    ensures EvictEntry(s, a, v, j).Some? ==> EvictEntry(s, a, v, j).value.0.pending == s.pending
  {
  }

  lemma {:induction false} EvictVictimIs(s: Vm, a: AsId, d: nat)
    requires Sized(s) && a in s.spaces && d == VictimDistance(s.cm, s.next, a, 0) < |s.cm|
    ensures EvictVictim(s, a) == Evict(s.(next := Turn(s.next, d + 1, |s.cm|)), a, Turn(s.next, d, |s.cm|))
  {
  }

  lemma {:induction false} EvictWhen(s: Vm, a: AsId, f: nat)
    requires Sized(s) && a in s.spaces && f < |s.cm|
    requires Referrer(s.spaces[a].pt, FrameAddr(s.first, f), 0) < |s.spaces[a].pt|
    ensures var e := s.spaces[a].pt[Referrer(s.spaces[a].pt, FrameAddr(s.first, f), 0)];
            Evict(s, a, f).Some? <==> !e.perm.w || exists k :: 0 <= k < |s.swap.pages| && k !in s.swap.bits
  {
  }
}

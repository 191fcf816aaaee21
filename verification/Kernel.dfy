/** The virtual memory system as the kernel runs it: the tables are updated in place
    (addrspace.c, coremap.c, vmstats.c). Each method does to the state what its function in Paging says. */
module Kernel {
  import opened VmTypes
  import opened Elf
  import opened AddressSpace
  import opened Coremap
  import Tlb
  import Swap
  import P = Paging
  import L = PagingLifecycle
  import R = PagingRuns
  import T = PagingStats
  import opened PagingInvariant

  /** struct addrspace: everything but the page table entries is fixed once it is prepared. */
  class Addrspace {
    const segs: SegList
    const pt: array<PtEntry>
    const file: seq<byte>
    const table: nat

    constructor (segs: SegList, pt: array<PtEntry>, file: seq<byte>, table: nat)
      ensures this.segs == segs && this.pt == pt && this.file == file && this.table == table
    {
      this.segs, this.pt, this.file, this.table := segs, pt, file, table;
    }

    ghost function View(): P.Space
      reads pt
    {
      P.Space(segs, pt[..], file, table)
    }
  }

  const TLB_FAULT := 0
  const TLB_FAULT_WITH_FREE := 1
  const TLB_FAULT_WITH_REPLACE := 2
  const TLB_INVALIDATION := 3
  const TLB_RELOAD := 4
  const PAGE_FAULT_ZEROED := 5
  const PAGE_FAULT_DISK := 6
  const ELF_READ := 7
  const SWAP_READ := 8
  const SWAP_WRITE := 9

  /** The counters as a record, in the order of the enumeration. */
  function StatsOf(c: seq<nat>): P.Stats
    requires |c| == 10
  {
    P.Stats(c[0], c[1], c[2], c[3], c[4], c[5], c[6], c[7], c[8], c[9])
  }

  /** One more event of kind i. */
  function Counted(st: P.Stats, i: nat): P.Stats {
    match i
    case 0 => st.(faults := st.faults + 1)
    case 1 => st.(withFree := st.withFree + 1)
    case 2 => st.(withReplace := st.withReplace + 1)
    case 3 => st.(invalidations := st.invalidations + 1)
    case 4 => st.(reloads := st.reloads + 1)
    case 5 => st.(zeroed := st.zeroed + 1)
    case 6 => st.(disk := st.disk + 1)
    case 7 => st.(elfReads := st.elfReads + 1)
    case 8 => st.(swapReads := st.swapReads + 1)
    case _ => st.(swapWrites := st.swapWrites + 1)
  }

  class Vm {
    const core: Table
    const tlb: Tlb.Device
    const swap: Swap.Device
    const ram: array<Page>
    const counters: array<nat>
    var spaces: map<AsId, Addrspace>
    var cur: Option<AsId>
    ghost var blocks: map<nat, nat>
    ghost var pending: map<AsId, P.Pending>  // on the kernel stacks of sleeping threads

    constructor (core: Table, tlb: Tlb.Device, swap: Swap.Device, ram: array<Page>, counters: array<nat>)
      ensures this.core == core && this.tlb == tlb && this.swap == swap && this.ram == ram && this.counters == counters
      ensures spaces == map[] && cur.None? && blocks == map[] && pending == map[]
    {
      this.core, this.tlb, this.swap, this.ram, this.counters := core, tlb, swap, ram, counters;
      spaces, cur, blocks, pending := map[], None, map[], map[];
    }

    static lemma {:induction false} BootView(v: P.Vm, n: nat)
      requires P.Sized(v) && v.next == 0 && v.spaces == map[] && v.cur.None? && v.blocks == map[] && v.pending == map[]
      requires forall f | 0 <= f < |v.cm| :: v.cm[f] == CEntry(0, false, false, None, 0)
      requires Swap.WellFormed(v.swap) && v.swap.bits == {} && v.tlb == Tlb.Buffer(seq(n, i => Tlb.Invalid), false, 0)
      requires v.stats == P.Stats(0, 0, 0, 0, 0, 0, 0, 0, 0, 0)
      ensures R.Boot(v)
    {
    }

    ghost function Tables(): set<object>
      reads this
    {
      set a | a in spaces :: spaces[a].pt as object
    }

    ghost function Repr(): set<object>
      reads this
    {
      {this, core, core.entries, tlb, tlb.slots, swap, swap.pages, ram, counters} + Tables()
    }

    ghost predicate Valid()
      reads Repr()
    {
      && ram != swap.pages && counters.Length == 10
      && (forall a, b | a in spaces && b in spaces && spaces[a].pt == spaces[b].pt :: a == b)
      && Swap.WellFormed(swap.View()) && P.Sized(View())
    }

    ghost function SpacesView(): map<AsId, P.Space>
      reads this, Tables()
    {
      map a | a in spaces :: spaces[a].View()
    }

    ghost function View(): P.Vm
      requires counters.Length == 10
      reads Repr()
    {
      P.Vm(core.first, core.entries[..], core.next, ram[..], swap.View(), tlb.View(), SpacesView(), cur,
           blocks, pending, StatsOf(counters[..]))
    }

    /** vm_stats_inc */
    method Count(i: nat)
      requires Valid() && i < 10
      modifies counters
      ensures Valid() && View() == old(View()).(stats := Counted(old(View()).stats, i))
    {
      counters[i] := counters[i] + 1;
    }

    /** The tests of vm_stats_print */
    method StatsConsistent() returns (ok: bool)
      requires Valid()
      ensures ok <==> T.Balanced(View().stats, 0)
    {
      var faults := counters[TLB_FAULT];
      var totTlb := counters[TLB_FAULT_WITH_FREE] + counters[TLB_FAULT_WITH_REPLACE];
      var dzrSum := counters[PAGE_FAULT_DISK] + counters[PAGE_FAULT_ZEROED] + counters[TLB_RELOAD];
      var diskSum := counters[ELF_READ] + counters[SWAP_READ];
      ok := faults == totTlb && faults == dzrSum && counters[PAGE_FAULT_DISK] == diskSum;
    }

    /** Write entry j of the page table of space a. */
    method WriteEntry(a: AsId, j: nat, e: PtEntry)
      requires Valid() && a in spaces && j < spaces[a].pt.Length
      modifies spaces[a].pt
      ensures Valid() && View() == old(View()).(spaces := P.SetEntry(old(SpacesView()), a, j, e))
    {
      spaces[a].pt[j] := e;
      assert SpacesView() == P.SetEntry(old(SpacesView()), a, j, e);
    }

    /** swap_out of frame f. */
    method SwapOut(f: nat) returns (slot: Option<nat>)
      requires Valid() && f < ram.Length
      modifies swap, swap.pages
      ensures Valid()
      ensures var out := Swap.SwapOut(old(View()).swap, old(View()).ram[f]);
              if slot.None? then out.None? && View() == old(View())
              else out == Some((View().swap, slot.value)) && View() == old(View()).(swap := out.value.0)
    {
      slot := swap.Out(ram[f]);
      assert ram[..] == old(ram[..]) && SpacesView() == old(SpacesView());
    }

    method DropTranslation(vaddr: nat)
      requires Valid()
      modifies tlb, tlb.slots
      ensures Valid() && View() == old(View()).(tlb := Tlb.Drop(old(View()).tlb, PageOf(vaddr)))
    {
      tlb.InvalidateVaddr(vaddr);
      assert SpacesView() == old(SpacesView());
    }

    /** The page table scan of getPage. */
    method FindReferrer(a: AsId, addr: nat) returns (j: nat)
      requires Valid() && a in spaces
      ensures j == P.Referrer(spaces[a].pt[..], addr, 0)
    {
      var pt := spaces[a].pt;
      j := 0;
      while j < pt.Length && pt[j].paddr != addr
        invariant 0 <= j <= pt.Length
        invariant P.Referrer(pt[..], addr, j) == P.Referrer(pt[..], addr, 0)
      {
        j := j + 1;
      }
    }

    /** Swap out the page of entry j, which is in frame f. None is the failing assertion after a full swap file. */
    method WriteOut(a: AsId, f: nat, j: nat, e: PtEntry) returns (ok: bool)
      requires Valid() && a in spaces && f < core.entries.Length && j < spaces[a].pt.Length
      modifies swap, swap.pages, counters, spaces[a].pt
      ensures Valid()
      ensures var s := old(View());
              var out := Swap.SwapOut(s.swap, s.ram[f]);
              if !ok then out.None? else
                && out.Some? && var (w, slot) := out.value;
                   View() == s.(swap := w, stats := s.stats.(swapWrites := s.stats.swapWrites + 1),
                                spaces := P.SetEntry(s.spaces, a, j, e.(paddr := slot, inMem := false, inSwap := true)))
    {
      var slot := SwapOut(f);
      if slot.None? { return false; }
      Count(SWAP_WRITE);
      WriteEntry(a, j, e.(paddr := slot.value, inMem := false, inSwap := true));
      ok := true;
    }

    method EvictEntry(a: AsId, f: nat, j: nat) returns (r: Option<nat>)
      requires Valid() && a in spaces && f < core.entries.Length && j < spaces[a].pt.Length
      modifies swap, swap.pages, tlb, tlb.slots, counters, spaces[a].pt
      ensures Valid()
      ensures r.None? ==> P.EvictEntry(old(View()), a, f, j).None?
      ensures r.Some? ==> P.EvictEntry(old(View()), a, f, j) == Some((View(), r.value))
    {
      ghost var s0 := View();
      var e := spaces[a].pt[j];
      assert s0.spaces[a].pt[j] == e;
      if e.perm.w {
        var ok := WriteOut(a, f, j, e);
        if !ok { return None; }
      } else {
        WriteEntry(a, j, e.(paddr := 0, inMem := false));
      }
      ghost var s1 := View();
      DropTranslation(e.vaddr);
      EvictionIs(s0, s1, View(), a, f, j);
      r := Some(f);
    }

    static lemma {:induction false} EvictionIs(s: P.Vm, s1: P.Vm, t: P.Vm, a: AsId, f: nat, j: nat)
      requires P.Sized(s) && a in s.spaces && f < |s.cm| && j < |s.spaces[a].pt| && P.Sized(s1)
      requires var e := s.spaces[a].pt[j];
               if e.perm.w then
                 var out := Swap.SwapOut(s.swap, s.ram[f]);
                 && out.Some? && var (w, slot) := out.value;
                    s1 == s.(swap := w, stats := s.stats.(swapWrites := s.stats.swapWrites + 1),
                             spaces := P.SetEntry(s.spaces, a, j, e.(paddr := slot, inMem := false, inSwap := true)))
               else s1 == s.(spaces := P.SetEntry(s.spaces, a, j, e.(paddr := 0, inMem := false)))
      requires t == s1.(tlb := Tlb.Drop(s1.tlb, PageOf(s.spaces[a].pt[j].vaddr)))
      ensures P.EvictEntry(s, a, f, j) == Some((t, f))
    {
    }

    /** The eviction part of getPage. */
    method EvictFrame(a: AsId, f: nat) returns (r: Option<nat>)
      requires Valid() && a in spaces && f < core.entries.Length
      modifies swap, swap.pages, tlb, tlb.slots, counters, spaces[a].pt
      ensures Valid()
      ensures r.None? ==> P.Evict(old(View()), a, f).None?
      ensures r.Some? ==> P.Evict(old(View()), a, f) == Some((View(), r.value))
    {
      ghost var s0 := View();
      var j := FindReferrer(a, FrameAddr(core.first, f));
      assert View() == s0 && s0.spaces[a].pt == spaces[a].pt[..];
      if j == spaces[a].pt.Length { return Some(0); }
      r := EvictEntry(a, f, j);
    }

    /** The free-frame part of getPage. */
    method TakeFrame(a: AsId, vpage: nat) returns (i: nat)
      requires Valid() && a in spaces
      modifies core.entries
      ensures Valid() && i == FirstFree(old(View()).cm, 0)
      ensures View() == if i < |old(View()).cm| then P.WithFrame(old(View()), a, vpage, i) else old(View())
    {
      i := core.TakeFree(vpage, false, Some(a));
      assert SpacesView() == old(SpacesView());
    }

    method PickVictim(a: AsId) returns (i: nat)
      requires Valid() && exists f :: 0 <= f < core.entries.Length && Evictable(core.entries[f], a)
      modifies core`next
      ensures Valid()
      ensures var s := old(View());
              var d := VictimDistance(s.cm, s.next, a, 0);
              d < |s.cm| && i == Turn(s.next, d, |s.cm|) && View() == s.(next := Turn(s.next, d + 1, |s.cm|))
    {
      i := core.FindVictim(a);
      assert SpacesView() == old(SpacesView());
    }

    /** The victim loop of getPage ends if it is reached: a frame is free, there is a panic over the swap space before,
        or the space owns a frame it can give up. */
    static ghost predicate Reclaimable(cm: seq<CEntry>, w: Swap.Store, a: AsId) {
      || (exists f :: 0 <= f < |cm| && IsFree(cm[f]))
      || Swap.Available(w) == 0
      || (exists f :: 0 <= f < |cm| && Evictable(cm[f], a))
    }

    /** getPage for an address space */
    method GetPage(a: AsId, vpage: nat) returns (r: Option<nat>)
      requires Valid() && a in spaces && Reclaimable(core.entries[..], swap.View(), a)
      modifies core, core.entries, swap, swap.pages, tlb, tlb.slots, counters, spaces[a].pt
      ensures Valid()
      ensures r.None? ==> P.GetPage(old(View()), a, vpage).None?
      ensures r.Some? ==> P.GetPage(old(View()), a, vpage) == Some((View(), r.value))
    {
      ghost var s0 := View();
      var i := TakeFrame(a, vpage);
      if i < core.entries.Length { return Some(i); }
      assert s0.cm == core.entries[..];
      r := Replace(a);
    }

    /** The full-coremap part of getPage */
    method Replace(a: AsId) returns (r: Option<nat>)
      requires Valid() && a in spaces
      requires || Swap.Available(swap.View()) == 0
               || exists f :: 0 <= f < core.entries.Length && Evictable(core.entries[f], a)
      modifies core`next, swap, swap.pages, tlb, tlb.slots, counters, spaces[a].pt
      ensures Valid()
      ensures r.None? ==> P.Replace(old(View()), a).None?
      ensures r.Some? ==> P.Replace(old(View()), a) == Some((View(), r.value))
    {
      if swap.Free() == 0 { return None; }
      r := EvictNext(a);
    }

    method EvictNext(a: AsId) returns (r: Option<nat>)
      requires Valid() && a in spaces && exists f :: 0 <= f < core.entries.Length && Evictable(core.entries[f], a)
      requires Swap.Available(swap.View()) != 0
      modifies core`next, swap, swap.pages, tlb, tlb.slots, counters, spaces[a].pt
      ensures Valid()
      ensures r.None? ==> P.Replace(old(View()), a).None?
      ensures r.Some? ==> P.Replace(old(View()), a) == Some((View(), r.value))
    {
      var i := PickVictim(a);
      r := EvictFrame(a, i);
    }

    method WriteFrame(f: nat, page: Page)
      requires Valid() && f < ram.Length
      modifies ram
      ensures Valid() && View() == old(View()).(ram := old(View()).ram[f := page])
    {
      ram[f] := page;
      assert SpacesView() == old(SpacesView());
    }

    /** swap_in: read a slot and free it. */
    method ReadSlot(slot: nat) returns (page: Page)
      requires Valid() && slot in swap.bits
      modifies swap
      ensures Valid() && slot < |old(View()).swap.pages| && page == old(View()).swap.pages[slot]
      ensures View() == old(View()).(swap := Swap.Unmark(old(View()).swap, slot))
    {
      page := swap.In(slot);
      assert SpacesView() == old(SpacesView());
    }

    /** The in-swap branch of vm_fault; false is the failing bitmap assertion of swap_in. */
    method FillFromSwap(a: AsId, i: nat, f: nat) returns (ok: bool)
      requires Valid() && a in spaces && i < spaces[a].pt.Length && f < ram.Length && spaces[a].pt[i].inSwap
      modifies swap, ram, counters, spaces[a].pt
      ensures Valid()
      ensures P.Fill(old(View()), a, i, f) == if ok then Some(View()) else None
    {
      ghost var s0 := View();
      var e := spaces[a].pt[i];
      assert s0.spaces[a].pt[i] == e;
      if e.paddr !in swap.bits { return false; }
      var page := ReadSlot(e.paddr);
      WriteFrame(f, page);
      MakeResident(a, i, f, e);
      ghost var s1 := View();
      Count(SWAP_READ);
      Count(PAGE_FAULT_DISK);
      SwapFillIs(s0, s1, View(), a, i, f);
      ok := true;
    }

    /** Write the entry of a page that is now in frame f. */
    method MakeResident(a: AsId, i: nat, f: nat, e: PtEntry)
      requires Valid() && a in spaces && i < spaces[a].pt.Length
      modifies spaces[a].pt
      ensures Valid()
      ensures var s := old(View());
              var e' := e.(paddr := FrameAddr(s.first, f), inMem := true, inSwap := false);
              View() == s.(spaces := P.SetEntry(s.spaces, a, i, e'))
    {
      WriteEntry(a, i, e.(paddr := FrameAddr(core.first, f), inMem := true, inSwap := false));
    }

    static lemma {:induction false} SwapFillIs(s: P.Vm, s1: P.Vm, t: P.Vm, a: AsId, i: nat, f: nat)
      requires P.Sized(s) && Swap.WellFormed(s.swap) && a in s.spaces && i < |s.spaces[a].pt| && f < |s.cm|
      requires var e := s.spaces[a].pt[i];
               && e.inSwap && e.paddr in s.swap.bits
               && s1 == s.(swap := Swap.Unmark(s.swap, e.paddr), ram := s.ram[f := s.swap.pages[e.paddr]],
                           spaces := P.SetEntry(s.spaces, a, i,
                                                e.(paddr := FrameAddr(s.first, f), inMem := true, inSwap := false)))
      requires t == s1.(stats := Counted(Counted(s1.stats, SWAP_READ), PAGE_FAULT_DISK))
      ensures P.Fill(s, a, i, f) == Some(t)
    {
    }

    /** What goes into a frame on the first touch of page i: bytes of the executable, or zeroes for the stack. */
    method FirstPage(a: AsId, i: nat, f: nat, k: nat) returns (page: Page)
      requires Valid() && a in spaces && i < spaces[a].pt.Length && f < ram.Length
      requires var segs, va := spaces[a].segs, spaces[a].pt[i].vaddr;
               && k == SegmentFor(segs, va, 0) && segs[k].start <= va < segs[k].start + segs[k].npages * 4096
               && va % 4096 == 0
      ensures page == P.FirstContents(View().spaces[a], spaces[a].pt[i].vaddr, ram[f])
    {
      page := ZeroPage();
      if k + 1 < |spaces[a].segs| {
        var seg := spaces[a].segs[k];
        var complete;
        page, complete := LoadOnDemand(seg, spaces[a].file, spaces[a].pt[i].vaddr - seg.start, ram[f]);
      }
    }

    method CountFirst(fromFile: bool)
      requires Valid()
      modifies counters
      ensures Valid()
      ensures var s := old(View());
              View() == s.(stats := if fromFile then Counted(Counted(s.stats, ELF_READ), PAGE_FAULT_DISK)
                                    else Counted(s.stats, PAGE_FAULT_ZEROED))
    {
      if fromFile {
        Count(ELF_READ);
        Count(PAGE_FAULT_DISK);
      } else {
        Count(PAGE_FAULT_ZEROED);
      }
    }

    /** The other branch of vm_fault: the page was never loaded, or was dropped. */
    method FillFirst(a: AsId, i: nat, f: nat, k: nat)
      requires Valid() && a in spaces && i < spaces[a].pt.Length && f < ram.Length && !spaces[a].pt[i].inSwap
      requires var segs, va := spaces[a].segs, spaces[a].pt[i].vaddr;
               && k == SegmentFor(segs, va, 0) && segs[k].start <= va < segs[k].start + segs[k].npages * 4096
               && va % 4096 == 0
      modifies ram, counters, spaces[a].pt
      ensures Valid() && P.Fill(old(View()), a, i, f) == Some(View())
    {
      ghost var s0 := View();
      var e := spaces[a].pt[i];
      assert s0.spaces[a] == spaces[a].View();
      var page := FirstPage(a, i, f, k);
      assert View() == s0;
      WriteFrame(f, page);
      MakeResident(a, i, f, e);
      ghost var s1 := View();
      CountFirst(k + 1 < |spaces[a].segs|);
      FirstFillIs(s0, s1, View(), a, i, f);
    }

    static lemma {:induction false} FirstFillIs(s: P.Vm, s1: P.Vm, t: P.Vm, a: AsId, i: nat, f: nat)
      requires P.Sized(s) && Swap.WellFormed(s.swap) && a in s.spaces && i < |s.spaces[a].pt| && f < |s.cm|
      requires var e := s.spaces[a].pt[i];
               && !e.inSwap
               && s1 == s.(ram := s.ram[f := P.FirstContents(s.spaces[a], e.vaddr, s.ram[f])],
                           spaces := P.SetEntry(s.spaces, a, i,
                                                e.(paddr := FrameAddr(s.first, f), inMem := true, inSwap := false)))
      requires t == s1.(stats := if SegmentFor(s.spaces[a].segs, s.spaces[a].pt[i].vaddr, 0) + 1 < |s.spaces[a].segs|
                                 then Counted(Counted(s1.stats, ELF_READ), PAGE_FAULT_DISK)
                                 else Counted(s1.stats, PAGE_FAULT_ZEROED))
      ensures P.Fill(s, a, i, f) == Some(t)
    {
    }

    /** Getting a frame does not touch an entry whose paddr is no frame address. */
    static lemma {:induction false} GetPageLeaves(s: P.Vm, a: AsId, vpage: nat, i: nat)
      requires P.Sized(s) && a in s.spaces && i < |s.spaces[a].pt| && s.spaces[a].pt[i].paddr < s.first
      requires P.GetPage(s, a, vpage).Some?
      ensures P.GetPage(s, a, vpage).value.0.spaces[a].pt[i] == s.spaces[a].pt[i]
    {
    }

    /** Entry i is not in memory: in swap, or unloaded without a frame. k is its segment. */
    ghost predicate Absent(a: AsId, i: nat, k: nat)
      reads this, Tables()
    {
      && a in spaces && i < spaces[a].pt.Length && k < |spaces[a].segs|
      && var e, segs := spaces[a].pt[i], spaces[a].segs;
         && !e.inMem && e.paddr < core.first && (e.inSwap || e.paddr == 0)
         && k == SegmentFor(segs, e.vaddr, 0) && segs[k].start <= e.vaddr < segs[k].start + segs[k].npages * 4096
         && e.vaddr % 4096 == 0
    }

    /** The missing-page part of vm_fault. */
    method BringIn(a: AsId, i: nat, k: nat) returns (ok: bool)
      requires Valid() && Absent(a, i, k) && Reclaimable(core.entries[..], swap.View(), a)
      modifies core, core.entries, swap, swap.pages, tlb, tlb.slots, counters, ram, spaces[a].pt
      ensures Valid()
      ensures P.BringIn(old(View()), a, i, old(spaces[a].pt[i].vaddr)) == if ok then Some(View()) else None
    {
      ghost var s0 := View();
      var e := spaces[a].pt[i];
      assert s0.spaces[a].pt[i] == e;
      var f := GetPage(a, e.vaddr);
      if f.None? { return false; }
      ghost var s1 := View();
      GetPageLeaves(s0, a, e.vaddr, i);
      assert s1.spaces[a].pt[i] == spaces[a].pt[i];
      ok := FillPage(a, i, f.value, k);
    }

    /** The page goes into frame f, from swap or for the first time. */
    method FillPage(a: AsId, i: nat, f: nat, k: nat) returns (ok: bool)
      requires Valid() && Absent(a, i, k) && f < ram.Length
      modifies swap, ram, counters, spaces[a].pt
      ensures Valid()
      ensures P.Fill(old(View()), a, i, f) == if ok then Some(View()) else None
    {
      if spaces[a].pt[i].inSwap {
        ok := FillFromSwap(a, i, f);
      } else {
        FillFirst(a, i, f, k);
        ok := true;
      }
    }

    /** tlb_loadentry for entry i, with its statistics. */
    method LoadTranslation(a: AsId, i: nat)
      requires Valid() && a in spaces && i < spaces[a].pt.Length
      modifies tlb, tlb.slots, counters
      ensures Valid() && View() == P.LoadTlb(old(View()), a, i)
    {
      ghost var s0 := View();
      var e := spaces[a].pt[i];
      assert s0.spaces[a].pt[i] == e;
      var free := WriteTlb(e);
      Count(if free then TLB_FAULT_WITH_FREE else TLB_FAULT_WITH_REPLACE);
    }

    method WriteTlb(e: PtEntry) returns (free: bool)
      requires Valid()
      modifies tlb, tlb.slots
      ensures Valid() && free == Tlb.LoadsFree(old(View()).tlb)
      ensures View() == old(View()).(tlb := Tlb.Load(old(View()).tlb, e.vaddr, e.paddr, e.perm.w))
    {
      free := tlb.LoadEntry(e.vaddr, e.paddr, !e.perm.w);
      assert SpacesView() == old(SpacesView());
    }

    /** The READ and WRITE cases of vm_fault for entry i in segment k. */
    method Serve(a: AsId, i: nat, k: nat) returns (ok: bool)
      requires Valid() && a in spaces && i < spaces[a].pt.Length && (!spaces[a].pt[i].inMem ==> Absent(a, i, k))
      requires !spaces[a].pt[i].inMem ==> Reclaimable(core.entries[..], swap.View(), a)
      modifies core, core.entries, swap, swap.pages, tlb, tlb.slots, counters, ram, spaces[a].pt
      ensures Valid()
      ensures P.Serve(old(View()), a, i) == if ok then Some(View()) else None
    {
      ghost var s0 := View();
      assert s0.spaces[a].pt[i] == spaces[a].pt[i];
      if spaces[a].pt[i].inMem {
        Reload(a, i);
        ok := true;
      } else {
        ok := BringIn(a, i, k);
        if ok { LoadTranslation(a, i); }
      }
    }

    /** A fault on a page in memory */
    method Reload(a: AsId, i: nat)
      requires Valid() && a in spaces && i < spaces[a].pt.Length
      modifies tlb, tlb.slots, counters
      ensures Valid()
      ensures var s := old(View()); View() == P.LoadTlb(s.(stats := s.stats.(reloads := s.stats.reloads + 1)), a, i)
    {
      Count(TLB_RELOAD);
      LoadTranslation(a, i);
    }

    /** The fault needs a frame: a read or write of a page that is mapped and not in memory. */
    static ghost predicate NeedsFrame(s: P.Vm, ft: P.FaultType, va: nat) {
      && P.Faultable(s) && s.cur.Some? && (ft.Read? || ft.Write?) && P.Found(s, va).Some?
      && !s.spaces[s.cur.value].pt[P.Found(s, va).value].inMem
    }

    /** vm_fault on an access that the TLB could not translate, from any state with the invariant. Ok: the access is
        retried; Errno: an error code; Halt: a panic. A fault that returns is a step of the runs. */
    method VmFault(ft: P.FaultType, va: nat) returns (r: Outcome)
      requires Valid() && Inv(View()) && R.InUser(View()) && (cur.Some? ==> L.Translate(View(), va).None?)
      requires NeedsFrame(View(), ft, va) ==> Reclaimable(core.entries[..], swap.View(), cur.value)
      modifies Repr()
      ensures P.Faultable(old(View()))
      ensures match P.Fault(old(View()), ft, va)
              case Handled(t) => r == Ok && View() == t
              case Refused(t) => r == Errno && View() == t
              case Stopped => r == Halt
      ensures r != Halt ==> Valid() && R.Next(old(View()), R.PageFault(ft, va), View()) && Inv(View())
    {
      ghost var s := View();
      CurrentSpace(s);
      r := HandleFault(ft, va);
      if r != Halt { FaultIsStep(s, ft, va, View()); }
    }

    static lemma {:induction false} FaultIsStep(s: P.Vm, ft: P.FaultType, va: nat, t: P.Vm)
      requires Inv(s) && R.InUser(s) && (s.cur.Some? ==> L.Translate(s, va).None?)
      requires P.Faultable(s) && !P.Fault(s, ft, va).Stopped? && t == P.Fault(s, ft, va).s
      ensures R.Next(s, R.PageFault(ft, va), t) && Inv(t)
    {
      assert R.Faults(s, ft, va, t);
      R.StepKeeps(s, R.PageFault(ft, va), t);
    }

    /** The entries of the running space can be found and served. */
    static ghost predicate Servable(s: P.Vm) {
      P.Faultable(s) && (s.cur.Some? ==> forall i | 0 <= i < |s.spaces[s.cur.value].pt| :: Findable(s, s.cur.value, i))
    }

    static ghost predicate Findable(s: P.Vm, a: AsId, i: nat)
      requires a in s.spaces && i < |s.spaces[a].pt|
    {
      var segs, e := s.spaces[a].segs, s.spaces[a].pt[i];
      var k := SegmentFor(segs, e.vaddr, 0);
      && segs[k].start <= e.vaddr < segs[k].start + segs[k].npages * 4096 && e.vaddr % 4096 == 0
      && (!e.inMem ==> e.paddr < s.first && (e.inSwap || e.paddr == 0))
    }

    method HandleFault(ft: P.FaultType, va: nat) returns (r: Outcome)
      requires Valid() && Servable(View())
      requires NeedsFrame(View(), ft, va) ==> Reclaimable(core.entries[..], swap.View(), cur.value)
      modifies Repr()
      ensures match P.Fault(old(View()), ft, va)
              case Handled(t) => r == Ok && Valid() && View() == t
              case Refused(t) => r == Errno && Valid() && View() == t
              case Stopped => r == Halt
    {
      ghost var s0 := View();
      Count(TLB_FAULT);
      ghost var s1 := View();
      if cur.None? { return Errno; }
      P.FaultUnfolds(s0, s1, ft, va);
      CountingSame(s0, s1, ft, va);
      r := AtPage(ft, va);
    }

    static lemma {:induction false} CountingSame(s: P.Vm, s1: P.Vm, ft: P.FaultType, va: nat)
      requires Servable(s) && s1 == P.CountFault(s) && s.cur.Some?
      ensures Servable(s1) && P.Found(s1, va) == P.Found(s, va) && (NeedsFrame(s1, ft, va) ==> NeedsFrame(s, ft, va))
    {
      forall i | 0 <= i < |s1.spaces[s1.cur.value].pt| ensures Findable(s1, s1.cur.value, i) {
        assert Findable(s, s.cur.value, i);
      }
    }

    /** vm_fault from the lookup on */
    method AtPage(ft: P.FaultType, va: nat) returns (r: Outcome)
      requires Valid() && Servable(View()) && cur.Some?
      requires NeedsFrame(View(), ft, va) ==> Reclaimable(core.entries[..], swap.View(), cur.value)
      modifies Repr()
      ensures match P.FaultAt(old(View()), ft, old(cur.value), P.Found(old(View()), va))
              case Handled(t) => r == Ok && Valid() && View() == t
              case Refused(t) => r == Errno && Valid() && View() == t
              case Stopped => r == Halt
    {
      ghost var s := View();
      var k, i, found := FindPage(PageOf(va));
      if !found || ft.ReadOnly? { return Halt; }
      if ft.Unknown? { return Errno; }
      assert Findable(s, cur.value, i);
      var ok := Serve(cur.value, i, k);
      r := if ok then Ok else Halt;
    }

    method FindPage(va: nat) returns (k: nat, i: nat, found: bool)
      requires Valid() && P.Faultable(View()) && cur.Some?
      ensures var sp := View().spaces[cur.value];
              && k == SegmentFor(sp.segs, va, 0)
              && Lookup(sp.segs, sp.pt, va) == if found then Some(i) else None
      ensures View() == old(View()) && Valid()
    {
      var a := cur.value;
      assert View().spaces[a] == spaces[a].View();
      k, i, found := FindEntry(spaces[a].segs, spaces[a].pt, va);
      assert View() == old(View());
    }

    static lemma {:induction false} CurrentSpace(s: P.Vm)
      requires Inv(s)
      ensures Servable(s)
    {
      if s.cur.Some? {
        var a := s.cur.value;
        assert Layout(s.spaces[a].segs, s.spaces[a].pt);
        forall i | 0 <= i < |s.spaces[a].pt| ensures Findable(s, a, i) {
          FoundEntry(s, a, i);
        }
      }
    }

    /** What the invariant says about an entry that the fault handler finds. */
    static lemma {:induction false} FoundEntry(s: P.Vm, a: AsId, i: nat)
      requires P.Sized(s) && Swap.WellFormed(s.swap) && SpacesOk(s, None) && a in s.spaces && i < |s.spaces[a].pt|
      ensures Findable(s, a, i)
    {
      LookupFinds(s.spaces[a].segs, s.spaces[a].pt, i);
      EntryMapped(s.spaces[a].segs, s.spaces[a].pt, i);
      assert EntryOk(s.spaces[a].pt[i], a, s.first, s.cm, s.swap.bits, None, InHand(s, a));
    }

    /** as_activate on a switch to the process of space `to`, or to a kernel-only thread: a step of the runs. */
    method Activate(to: Option<AsId>)
      requires Valid() && Inv(View()) && (to.Some? ==> to.value in spaces)
      modifies this`cur, tlb.slots, counters
      ensures Valid() && R.Next(old(View()), R.Switch(to), View()) && Inv(View())
    {
      MakeCurrent(to);
      R.StepKeeps(old(View()), R.Switch(to), View());
    }

    method MakeCurrent(to: Option<AsId>)
      requires Valid() && (to.Some? ==> to.value in spaces)
      modifies this`cur, tlb.slots, counters
      ensures Valid() && View() == L.Activate(old(View()), to)
    {
      SetCurrent(to);
      if to.Some? {
        FlushTlb();
        Count(TLB_INVALIDATION);
      }
    }

    method SetCurrent(to: Option<AsId>)
      requires Valid()
      modifies this`cur
      ensures Valid() && View() == old(View()).(cur := to)
    {
      cur := to;
      assert SpacesView() == old(SpacesView());
    }

    method FlushTlb()
      requires Valid()
      modifies tlb.slots
      ensures Valid() && View() == old(View()).(tlb := Tlb.Flush(old(View()).tlb))
    {
      tlb.Invalidate();
      assert SpacesView() == old(SpacesView());
    }

    /** The slots of the swapped-out entries from j on are marked, each once. */
    static ghost predicate Clearable(pt: seq<PtEntry>, bits: set<nat>, j: nat) {
      && (forall k | j <= k < |pt| && pt[k].inSwap :: pt[k].paddr in bits)
      && (forall k, l | j <= k < l < |pt| && pt[k].inSwap && pt[l].inSwap :: pt[k].paddr != pt[l].paddr)
    }

    static lemma {:induction false} ClearableNext(pt: seq<PtEntry>, bits: set<nat>, j: nat)
      requires Clearable(pt, bits, j) && j < |pt|
      ensures pt[j].inSwap ==> pt[j].paddr in bits
      ensures Clearable(pt, if pt[j].inSwap then bits - {pt[j].paddr} else bits, j + 1)
    {
    }

    /** The loop of as_destroy over the page table. */
    method ClearSlots(pt: array<PtEntry>)
      requires swap.Valid() && Clearable(pt[..], swap.bits, 0)
      modifies swap
      ensures swap.Valid() && swap.View() == L.ClearSlots(old(swap.View()), pt[..], 0)
    {
      var j := 0;
      ghost var w0, entries := swap.View(), pt[..];
      while j < pt.Length
        invariant 0 <= j <= pt.Length && swap.Valid() && Clearable(entries, swap.bits, j) && pt[..] == entries
        invariant L.ClearSlots(swap.View(), entries, j) == L.ClearSlots(w0, entries, 0)
      {
        ClearSlot(pt[j], entries, j);
        j := j + 1;
      }
      L.ClearEnds(swap.View(), entries);
    }

    method ClearSlot(e: PtEntry, ghost entries: seq<PtEntry>, ghost j: nat)
      requires swap.Valid() && j < |entries| && e == entries[j] && Clearable(entries, swap.bits, j)
      modifies swap
      ensures swap.Valid() && Clearable(entries, swap.bits, j + 1)
      ensures L.ClearSlots(swap.View(), entries, j + 1) == L.ClearSlots(old(swap.View()), entries, j)
    {
      ClearableNext(entries, swap.bits, j);
      L.ClearStep(swap.View(), entries, j);
      if e.inSwap { swap.Clear(e.paddr); }
    }

    static lemma {:induction false} InvClearable(s: P.Vm, a: AsId)
      requires SlotsOk(s) && a in s.spaces
      ensures Clearable(s.spaces[a].pt, s.swap.bits, 0)
    {
      var pt := s.spaces[a].pt;
      assert forall k | 0 <= k < |pt| && pt[k].inSwap :: Holder(s.spaces, pt[k].paddr, a, k);
    }

    /** The end of as_destroy: free the page table's frames, then the frames of the space. */
    method ReleaseFrames(a: AsId, h: nat)
      requires core.Valid() && h < core.entries.Length && h + core.entries[h].alloc <= core.entries.Length
      modifies core.entries
      ensures core.entries[..] == FreeOwned(FreeBlock(old(core.entries[..]), h), a)
    {
      core.Release(h);
      core.ReleaseOwned(a);
    }

    method Forget(a: AsId, h: nat)
      requires Valid() && a in spaces
      modifies this`spaces, this`blocks
      ensures Valid() && View() == old(View()).(spaces := old(View()).spaces - {a}, blocks := old(View()).blocks - {h})
    {
      spaces := spaces - {a};
      assert SpacesView() == old(SpacesView()) - {a};
      SetBlocks(blocks - {h});
    }

    /** as_destroy of a space that is not running and has no fault asleep: a step of the runs. */
    method DestroySpace(a: AsId)
      requires Valid() && Inv(View()) && a in spaces && cur != Some(a) && a !in pending
      modifies this`spaces, this`blocks, core.entries, swap
      ensures Valid() && R.Next(old(View()), R.End(a), View()) && Inv(View())
    {
      ghost var s := View();
      assert s.spaces[a] == spaces[a].View();
      EndsBlock(s, a);
      Dismantle(a);
      R.StepKeeps(s, R.End(a), View());
    }

    static lemma {:induction false} EndsBlock(s: P.Vm, a: AsId)
      requires Inv(s) && a in s.spaces && s.cur != Some(a) && a !in s.pending
      ensures Clearable(s.spaces[a].pt, s.swap.bits, 0)
      ensures var h := s.spaces[a].table; h < |s.cm| && h + s.cm[h].alloc <= |s.cm|
    {
      InvClearable(s, a);
      L.DestroyKeeps(s, a);
    }

    method Dismantle(a: AsId)
      requires Valid() && a in spaces && Clearable(spaces[a].pt[..], swap.bits, 0)
      requires var h := spaces[a].table; h < core.entries.Length && h + core.entries[h].alloc <= core.entries.Length
      modifies this`spaces, this`blocks, core.entries, swap
      ensures Valid() && View() == L.Destroy(old(View()), a)
    {
      assert View().spaces[a] == spaces[a].View();
      var h := spaces[a].table;
      GiveBackSlots(a);
      GiveBackFrames(a, h);
      Forget(a, h);
    }

    method GiveBackSlots(a: AsId)
      requires Valid() && a in spaces && Clearable(spaces[a].pt[..], swap.bits, 0)
      modifies swap
      ensures Valid()
      ensures View() == old(View()).(swap := L.ClearSlots(old(View()).swap, old(View()).spaces[a].pt, 0))
    {
      ClearSlots(spaces[a].pt);
      assert SpacesView() == old(SpacesView());
    }

    method GiveBackFrames(a: AsId, h: nat)
      requires Valid() && h < core.entries.Length && h + core.entries[h].alloc <= core.entries.Length
      modifies core.entries
      ensures Valid() && View() == old(View()).(cm := FreeOwned(FreeBlock(old(View()).cm, h), a))
    {
      ReleaseFrames(a, h);
      assert SpacesView() == old(SpacesView());
    }

    /** ptAlloc and alloc_kpages: None is a panic, or a full coremap. */
    method AllocBlock(n: nat, reserved: bool) returns (r: Option<nat>)
      requires core.Valid()
      modifies core.entries
      ensures r.None? ==> core.entries[..] == old(core.entries[..])
      ensures r.None? ==> L.AllocBlock(old(core.entries[..]), core.first, n, reserved).None?
      ensures r.Some? ==>
                L.AllocBlock(old(core.entries[..]), core.first, n, reserved) == Some((core.entries[..], r.value))
    {
      if n > 1 {
        r := core.TakeRun(n, reserved, None);
        ghost var cm := old(core.entries[..]);
        assert r.None? ==> LowestRun(cm, n, 0) == |cm| by {
          if r.None? { assert forall h: nat :: !FreeRun(cm, h, n); }
        }
        assert r.Some? ==> r.value + n <= |cm|;
      } else {
        var h := core.TakeFree(0, reserved, None);
        r := if h < core.entries.Length then Some(h) else None;
      }
    }

    /** A prepared address space becomes known under a new name. */
    method Enter(a: AsId, sp: Addrspace, n: nat)
      requires Valid() && a !in spaces && forall b | b in spaces :: spaces[b].pt != sp.pt
      modifies this`spaces, this`blocks
      ensures Valid() && a in spaces
      ensures var s := old(View()); View() == s.(spaces := s.spaces[a := sp.View()], blocks := s.blocks[sp.table := n])
    {
      spaces := spaces[a := sp];
      assert SpacesView() == old(SpacesView())[a := sp.View()];
      SetBlocks(blocks[sp.table := n]);
    }

    /** ptAlloc, for a table of n pages */
    method AllocTable(n: nat) returns (h: Option<nat>)
      requires Valid()
      modifies core.entries
      ensures Valid()
      ensures var s := old(View());
              var r := L.AllocTable(s.cm, s.first, n);
              if h.None? then r.None? && View() == s
              else r == Some((View().cm, h.value)) && View() == s.(cm := View().cm)
    {
      if core.entries.Length <= n { return None; }
      h := AllocBlock(n, true);
      assert SpacesView() == old(SpacesView());
    }

    /** as_prepare_load: allocate reserved frames for the page table, and fill it. */
    method Prepare(segs: SegList, file: seq<byte>) returns (sp: Option<Addrspace>)
      requires Valid()
      modifies core.entries
      ensures Valid()
      ensures var s := old(View());
              var r := L.AllocTable(s.cm, s.first, L.TableFrames(PrefixPages(segs, |segs|)));
              if sp.None? then r.None? && View() == s else
                && r.Some? && fresh(sp.value.pt) && View() == s.(cm := r.value.0)
                && sp.value.View() == P.Space(segs, Flatten(segs), file, r.value.1)
    {
      var n := PrefixPages(segs, |segs|);
      var h := AllocTable(L.TableFrames(n));
      if h.None? { return None; }
      var o := NewSpace(segs, file, h.value);
      sp := Some(o);
    }

    /** A filled page table, in an address space that is not known yet */
    method NewSpace(segs: SegList, file: seq<byte>, h: nat) returns (sp: Addrspace)
      requires Valid()
      ensures Valid() && View() == old(View()) && fresh(sp.pt) && sp.View() == P.Space(segs, Flatten(segs), file, h)
    {
      var pt := PrepareTable(segs);
      sp := new Addrspace(segs, pt, file, h);
      assert SpacesView() == old(SpacesView());
    }

    /** The state after space a was prepared and entered, before it is activated. */
    static ghost predicate Admitted(s: P.Vm, t: P.Vm, a: AsId, segs: SegList, file: seq<byte>) {
      var n := L.TableFrames(PrefixPages(segs, |segs|));
      var r := L.AllocTable(s.cm, s.first, n);
      r.Some? && t == s.(cm := r.value.0, spaces := s.spaces[a := P.Space(segs, Flatten(segs), file, r.value.1)],
                         blocks := s.blocks[r.value.1 := L.BlockSize(n)])
    }

    method Admit(a: AsId, segs: SegList, file: seq<byte>) returns (ok: bool)
      requires Valid() && a !in spaces
      modifies this`spaces, this`blocks, core.entries
      ensures ok ==> Valid() && a in spaces && Admitted(old(View()), View(), a, segs, file)
      ensures !ok ==> L.Spawn(old(View()), a, segs, file).None? && Valid() && View() == old(View())
    {
      var sp := Prepare(segs, file);
      if sp.None? { return false; }
      FlattenLength(segs);
      Enter(a, sp.value, L.BlockSize(L.TableFrames(sp.value.pt.Length)));
      ok := true;
    }

    /** runprogram up to the end of load_elf, for the segments of an executable and the stack: a step of the runs,
        or no change when there are no frames for the page table. */
    method StartSpace(a: AsId, segs: SegList, file: seq<byte>) returns (ok: bool)
      requires Valid() && Inv(View()) && cur.None? && a !in spaces && Ascending(segs)
      modifies this`spaces, this`blocks, this`cur, core.entries, tlb.slots, counters
      ensures Valid() && Inv(View())
      ensures ok <==> L.Spawn(old(View()), a, segs, file).Some?
      ensures if ok then R.Next(old(View()), R.Start(a, segs, file), View()) else View() == old(View())
    {
      ok := Admit(a, segs, file);
      if !ok { return; }
      ghost var s1 := View();
      MakeCurrent(Some(a));
      SpawnIs(old(View()), s1, View(), a, segs, file);
      R.StepKeeps(old(View()), R.Start(a, segs, file), View());
    }

    static lemma {:induction false} SpawnIs(s: P.Vm, s1: P.Vm, t: P.Vm, a: AsId, segs: SegList, file: seq<byte>)
      requires Admitted(s, s1, a, segs, file) && t == L.Activate(s1, Some(a))
      ensures L.Spawn(s, a, segs, file) == Some(t)
    {
    }

    /** alloc_kpages: a step of the runs, or no change when there is no such run of frames. */
    method KernelAlloc(n: nat) returns (h: Option<nat>)
      requires Valid() && Inv(View())
      modifies this`blocks, core.entries
      ensures Valid() && Inv(View())
      ensures h.Some? <==> L.KAlloc(old(View()), n).Some?
      ensures if h.Some? then R.Next(old(View()), R.KernelAlloc(n), View()) else View() == old(View())
      ensures h.Some? ==> h.value !in old(blocks) && blocks == old(blocks)[h.value := L.BlockSize(n)]
    {
      ghost var s := View();
      h := TakeKernel(n);
      if h.Some? {
        L.NewBlock(s.cm, s.first, s.blocks, n, false);
        R.StepKeeps(s, R.KernelAlloc(n), View());
      }
    }

    method TakeKernel(n: nat) returns (h: Option<nat>)
      requires Valid()
      modifies this`blocks, core.entries
      ensures Valid()
      ensures var s := old(View());
              if h.None? then L.AllocBlock(s.cm, s.first, n, false).None? && View() == s
              else && L.AllocBlock(s.cm, s.first, n, false) == Some((View().cm, h.value))
                   && View() == s.(cm := View().cm, blocks := s.blocks[h.value := L.BlockSize(n)])
    {
      h := AllocBlock(n, false);
      assert SpacesView() == old(SpacesView());
      if h.Some? { SetBlocks(blocks[h.value := L.BlockSize(n)]); }
    }

    ghost method SetBlocks(bs: map<nat, nat>)
      requires Valid()
      modifies this`blocks
      ensures Valid() && View() == old(View()).(blocks := bs)
    {
      blocks := bs;
      assert SpacesView() == old(SpacesView());
    }

    /** free_kpages of a block that the kernel holds and no page table uses: a step of the runs. */
    method KernelFree(h: nat)
      requires Valid() && Inv(View()) && h in blocks && forall a | a in spaces :: View().spaces[a].table != h
      modifies this`blocks, core.entries
      ensures Valid() && R.Next(old(View()), R.KernelFree(h), View()) && Inv(View())
    {
      ghost var s := View();
      FreesBlock(s, h);
      DropKernel(h);
      R.StepKeeps(s, R.KernelFree(h), View());
    }

    static lemma {:induction false} FreesBlock(s: P.Vm, h: nat)
      requires Inv(s) && h in s.blocks && forall a | a in s.spaces :: s.spaces[a].table != h
      ensures h < |s.cm| && h + s.cm[h].alloc <= |s.cm|
    {
      L.KFreeKeeps(s, h);
    }

    method DropKernel(h: nat)
      requires Valid() && h < core.entries.Length && h + core.entries[h].alloc <= core.entries.Length
      modifies this`blocks, core.entries
      ensures Valid() && View() == L.KFree(old(View()), h)
    {
      core.Release(h);
      assert SpacesView() == old(SpacesView());
      SetBlocks(blocks - {h});
    }
  }

  datatype Outcome = Ok | Errno | Halt

  /** vm_bootstrap, for a swap file whose slot numbers are smaller than the first frame address. */
  method Bootstrap(ramSize: nat, firstFree: nat, slots: nat, tlbSize: nat) returns (vm: Vm)
    requires 0 < firstFree && AlignUp(firstFree) <= ramSize && 0 < tlbSize
    requires 0 < InitLayout(ramSize, firstFree).size && slots <= InitLayout(ramSize, firstFree).first
    ensures vm.Valid() && R.Boot(vm.View())
  {
    var layout := InitLayout(ramSize, firstFree);
    var counters := new nat[10](_ => 0);
    var swap := new Swap.Device(slots);
    var core := new Table(layout.first, layout.size);
    var tlb := new Tlb.Device(tlbSize);
    var ram := new Page[layout.size](_ => ZeroPage());
    vm := new Vm(core, tlb, swap, ram, counters);
    assert vm.Tables() == {} && vm.SpacesView() == map[];
    Vm.BootView(vm.View(), tlbSize);
  }
}

/** Runs of the paging system, and the flat memory that every process sees through it. */
module PagingRuns {
  import opened VmTypes
  import opened Elf
  import opened AddressSpace
  import opened Coremap
  import Tlb
  import Swap
  import opened Paging
  import opened PagingInvariant
  import opened PagingProofs
  import opened PagingLifecycle
  import opened PagingPhases

  /** Load and Store are user accesses that the TLB translates; the other steps are the kernel's. PageFault is a fault
      that runs to its end; a fault that sleeps takes MissBegin, MissEvict if it has to evict, and MissFill, with steps
      of other processes between them. */
  datatype Step =
    | Load(va: nat, v: byte)
    | Store(va: nat, v: byte)
    | PageFault(ft: FaultType, va: nat)
    | MissBegin(ft: FaultType, va: nat)
    | MissEvict
    | MissFill
    | Switch(to: Option<AsId>)
    | Start(a: AsId, segs: SegList, file: seq<byte>)
    | End(a: AsId)
    | KernelAlloc(n: nat)
    | KernelFree(h: nat)
    | KernelStore(f: nat, page: Page)

  /** After vm_bootstrap: everything free. */
  ghost predicate Boot(s: Vm) {
    && Sized(s) && s.next == 0 && (forall f | 0 <= f < |s.cm| :: s.cm[f] == CEntry(0, false, false, None, 0))
    && s.swap.bits == {} && s.swap.used == 0 && s.spaces == map[] && s.cur.None? && s.blocks == map[]
    && s.pending == map[]
    && s.tlb == Tlb.Buffer(seq(|s.tlb.slots|, i => Tlb.Invalid), false, 0)
    && s.stats == Stats(0, 0, 0, 0, 0, 0, 0, 0, 0, 0)
  }

  /** The running process, if there is one, is not in the middle of a fault. */
  predicate InUser(s: Vm) { s.cur.Some? ==> s.cur.value !in s.pending }

  /** The running process reads v at va through the TLB. */
  ghost predicate Loads(s: Vm, va: nat, v: byte) {
    && s.cur.Some? && InUser(s) && Translate(s, va).Some?
    && var x := Translate(s, va).value;
       x.Valid? && IsFrame(s.first, |s.ram|, x.paddr) ==> v == s.ram[FrameOf(s.first, x.paddr)][va % 4096]
  }

  /** The running process writes v at va through a dirty TLB entry. */
  ghost predicate Stores(s: Vm, va: nat, v: byte, t: Vm) {
    && s.cur.Some? && InUser(s) && Translate(s, va).Some?
    && var x := Translate(s, va).value;
       x.Valid? ==> x.dirty && (IsFrame(s.first, |s.ram|, x.paddr) ==> t == StoreByte(s, x.paddr, va % 4096, v))
  }

  /** The TLB has no entry, and vm_fault returns. */
  ghost predicate Faults(s: Vm, ft: FaultType, va: nat, t: Vm) {
    && (s.cur.Some? ==> Translate(s, va).None?) && InUser(s)
    && (Faultable(s) ==> !Fault(s, ft, va).Stopped? && t == Fault(s, ft, va).s)
  }

  /** The TLB has no entry, the page is not in memory, and vm_fault goes on until it may sleep. */
  ghost predicate Begins(s: Vm, ft: FaultType, va: nat, t: Vm) {
    && s.cur.Some? && Translate(s, va).None? && InUser(s) && (ft.Read? || ft.Write?)
    && (Faultable(s) ==>
          && Found(s, va).Some? && !s.spaces[s.cur.value].pt[Found(s, va).value].inMem
          && BeginMiss(CountFault(s), s.cur.value, Found(s, va).value) == Some(t))
  }

  /** The running process' fault goes on after its victim was written out. */
  ghost predicate WritesOut(s: Vm, t: Vm) {
    && s.cur.Some? && s.cur.value in s.pending && s.pending[s.cur.value].Evicting?
    && (Sized(s) && s.cur.value in s.spaces && s.pending[s.cur.value].v < |s.cm| ==>
          EvictOut(s, s.cur.value) == Some(t))
  }

  /** The running process' fault goes on after its page was read in. */
  ghost predicate Finishes(s: Vm, t: Vm) {
    && s.cur.Some? && s.cur.value in s.pending && s.pending[s.cur.value].Filling?
    && (Sized(s) && Swap.WellFormed(s.swap) && s.cur.value in s.spaces ==>
          s.pending[s.cur.value].i < |s.spaces[s.cur.value].pt| && s.pending[s.cur.value].f < |s.cm| ==>
            FinishMiss(s, s.cur.value) == Some(t))
  }

  /** A step that completes. Where an access would leave RAM, or an operation would be applied out of its
      domain, anything may follow: that this does not happen is for the invariant to show. */
  ghost predicate Next(s: Vm, step: Step, t: Vm) {
    match step
    case Load(va, v) => Loads(s, va, v) && t == s
    case Store(va, v) => Stores(s, va, v, t)
    case PageFault(ft, va) => Faults(s, ft, va, t)
    case MissBegin(ft, va) => Begins(s, ft, va, t)
    case MissEvict => WritesOut(s, t)
    case MissFill => Finishes(s, t)
    case Switch(to) => (to.Some? ==> to.value in s.spaces) && t == Activate(s, to)
    case Start(a, segs, file) =>
      s.cur.None? && a !in s.spaces && Ascending(segs) && Spawn(s, a, segs, file) == Some(t)
    case End(a) =>
      && a in s.spaces && s.cur != Some(a) && a !in s.pending
      && var h := s.spaces[a].table;
         Swap.WellFormed(s.swap) && h < |s.cm| && h + s.cm[h].alloc <= |s.cm| ==> t == Destroy(s, a)
    case KernelAlloc(n) => KAlloc(s, n) == Some(t)
    case KernelFree(h) =>
      && h in s.blocks && (forall a | a in s.spaces :: s.spaces[a].table != h)
      && (h < |s.cm| && h + s.cm[h].alloc <= |s.cm| ==> t == KFree(s, h))
    case KernelStore(f, page) =>
      f < |s.cm| && s.cm[f].used && s.cm[f].owner.None? && (f < |s.ram| ==> t == s.(ram := s.ram[f := page]))
  }

  /** ss[0] --steps[0]--> ss[1] --steps[1]--> ... */
  ghost predicate Run(ss: seq<Vm>, steps: seq<Step>) {
    && |ss| == |steps| + 1 && Boot(ss[0])
    && forall i | 0 <= i < |steps| :: Next(ss[i], steps[i], ss[i + 1])
  }

  // ---- The invariant holds in every run ----

  lemma {:induction false} BootInv(s: Vm)
    requires Boot(s)
    ensures Inv(s)
  {
  }

  lemma {:induction false} RefusedKeeps(s: Vm, ft: FaultType, va: nat, t: Vm)
    requires Inv(s) && Faultable(s) && Fault(s, ft, va) == Refused(t)
    ensures Inv(t) && t == s.(stats := t.stats)
  {
    FaultRefusedWhen(s, ft, va);
    CursorIrrelevant(s, t);
  }

  /** A fault that returns either changes only the counters, or brings in page i of the running process. */
  lemma {:induction false} FaultOutcome(s: Vm, ft: FaultType, va: nat, t: Vm) returns (i: Option<nat>)
    requires Inv(s) && Faults(s, ft, va, t)
    ensures Inv(t)
    ensures if i.None? then t == s.(stats := t.stats)
            else s.cur.Some? && s.cur.value in s.spaces && BroughtIn(s, t, s.cur.value, i.value)
  {
    InvFaultable(s);
    match Fault(s, ft, va)
    case Refused(t1) => RefusedKeeps(s, ft, va, t1); i := None;
    case Handled(t1) =>
      var j := HandledKeeps(s, ft, va, t1);
      i := Some(j);
  }

  lemma {:induction false} HandledKeeps(s: Vm, ft: FaultType, va: nat, t: Vm) returns (i: nat)
    requires Inv(s) && Faultable(s) && Fault(s, ft, va) == Handled(t) && (s.cur.Some? ==> Translate(s, va).None?)
    requires InUser(s)
    ensures Inv(t) && s.cur.Some? && s.cur.value in s.spaces && BroughtIn(s, t, s.cur.value, i)
  {
    FaultKeeps(s, ft, va);
    i := Lookup(s.spaces[s.cur.value].segs, s.spaces[s.cur.value].pt, PageOf(va)).value;
  }

  /** The phases of a fault that sleeps */
  predicate Missing(step: Step) { step.MissBegin? || step.MissEvict? || step.MissFill? }

  lemma {:induction false} BeginOutcome(s: Vm, ft: FaultType, va: nat, t: Vm)
    requires Inv(s) && Begins(s, ft, va, t)
    ensures s.cur.Some? && Waits(s, t, s.cur.value)
  {
    InvFaultable(s);
    var s0 := CountFault(s);
    CursorIrrelevant(s, s0);
    BeginKeeps(s0, s.cur.value, Found(s, va).value);
    WaitsSame(s, s0, t, s.cur.value);
  }

  lemma {:induction false} WaitsSame(s: Vm, s0: Vm, t: Vm, a: AsId)
    requires s0 == CountFault(s) && Waits(s0, t, a)
    ensures Waits(s, t, a)
  {
  }

  lemma {:induction false} EvictOutcome(s: Vm, t: Vm)
    requires Inv(s) && WritesOut(s, t)
    ensures s.cur.Some? && Waits(s, t, s.cur.value)
  {
    EvictOutKeeps(s, s.cur.value);
  }

  lemma {:induction false} FillOutcome(s: Vm, t: Vm) returns (i: nat)
    requires Inv(s) && Finishes(s, t)
    ensures Inv(t) && s.cur.Some? && BroughtIn(s, t, s.cur.value, i)
  {
    FinishKeeps(s, s.cur.value);
    i := s.pending[s.cur.value].i;
  }

  lemma {:induction false} StoreShape(s: Vm, va: nat, v: byte, t: Vm)
    requires Stores(s, va, v, t) && Translate(s, va).value.Valid?
    requires IsFrame(s.first, |s.ram|, Translate(s, va).value.paddr)
    ensures var f := FrameOf(s.first, Translate(s, va).value.paddr);
            Translate(s, va).value.dirty && f < |s.ram| && t == s.(ram := s.ram[f := s.ram[f][va % 4096 := v]])
  {
  }

  /** A store changes one byte of one writable page of the running process. */
  lemma {:induction false} StoreKeeps(s: Vm, va: nat, v: byte, t: Vm) returns (j: nat)
    requires Inv(s) && s.cur.Some? && s.cur.value in s.spaces && Stores(s, va, v, t)
    ensures Inv(t)
    ensures var a := s.cur.value;
            && j < |s.spaces[a].pt| && s.spaces[a].pt[j].vaddr == PageOf(va) && s.spaces[a].pt[j].perm.w
            && SameBut(s, t, a, j)
            && Contents(s, a, j).Some? && Contents(t, a, j) == Some(Contents(s, a, j).value[va % 4096 := v])
  {
    j := TranslateFinds(s, va);
    StoreShape(s, va, v, t);
    PageWritten(s, s.cur.value, j, FrameOf(s.first, s.spaces[s.cur.value].pt[j].paddr), va % 4096, v, t);
  }

  lemma {:induction false} PageWritten(s: Vm, a: AsId, j: nat, f: nat, o: nat, v: byte, t: Vm)
    requires Inv(s) && a in s.spaces && j < |s.spaces[a].pt| && s.spaces[a].pt[j].inMem && s.spaces[a].pt[j].perm.w
    requires o < 4096
    requires IsFrame(s.first, |s.ram|, s.spaces[a].pt[j].paddr)
    requires f == FrameOf(s.first, s.spaces[a].pt[j].paddr) && f < |s.ram|
    requires t == s.(ram := s.ram[f := s.ram[f][o := v]])
    ensures Inv(t) && SameBut(s, t, a, j)
    ensures Contents(s, a, j).Some? && a in t.spaces && j < |t.spaces[a].pt|
    ensures Contents(t, a, j) == Some(Contents(s, a, j).value[o := v])
  {
    FrameWrite(s, a, j, s.ram[f][o := v]);
  }

  /** Every step keeps the invariant. */
  lemma {:induction false} StepKeeps(s: Vm, step: Step, t: Vm)
    requires Inv(s) && Next(s, step, t)
    ensures Inv(t)
  {
    if Missing(step) { MissStepKeeps(s, step, t); }
    else if step.Load? || step.Store? || step.PageFault? { UserStepKeeps(s, step, t); }
    else { OtherStepKeeps(s, step, t); }
  }

  lemma {:induction false} UserStepKeeps(s: Vm, step: Step, t: Vm)
    requires Inv(s) && Next(s, step, t) && (step.Load? || step.Store? || step.PageFault?)
    ensures Inv(t)
  {
    match step
    case Load(va, v) =>
    case Store(va, v) => var j := StoreKeeps(s, va, v, t);
    case PageFault(ft, va) => var i := FaultOutcome(s, ft, va, t);
  }

  lemma {:induction false} MissStepKeeps(s: Vm, step: Step, t: Vm)
    requires Inv(s) && Next(s, step, t) && Missing(step)
    ensures Inv(t)
  {
    match step
    case MissBegin(ft, va) => BeginOutcome(s, ft, va, t);
    case MissEvict => EvictOutcome(s, t);
    case MissFill => var i := FillOutcome(s, t);
  }

  /** Steps of the kernel outside the fault handler */
  lemma {:induction false} OtherStepKeeps(s: Vm, step: Step, t: Vm)
    requires Inv(s) && Next(s, step, t) && !step.Load? && !step.Store? && !step.PageFault? && !Missing(step)
    ensures Inv(t)
  {
    match step
    case Switch(to) => ActivateKeeps(s, to);
    case Start(a, segs, file) => SpawnKeeps(s, a, segs, file);
    case End(a) => DestroyKeeps(s, a);
    case KernelAlloc(n) => KAllocKeeps(s, n);
    case KernelFree(h) => KFreeKeeps(s, h);
    case KernelStore(f, page) => KernelWrite(s, f, page);
  }

  /** In every state of every run: frame ownership, slot conservation, TLB coherence, disjoint blocks. */
  lemma {:induction false} RunInv(ss: seq<Vm>, steps: seq<Step>, i: nat)
    requires Run(ss, steps) && i <= |steps|
    ensures Inv(ss[i])
  {
    if i == 0 { BootInv(ss[0]); }
    else {
      var j := i - 1;
      assert Next(ss[j], steps[j], ss[j + 1]);
      RunInv(ss, steps, j);
      StepKeeps(ss[j], steps[j], ss[i]);
    }
  }

  // ---- Flat memory ----

  /** The page table entry for address va, if the space maps it. */
  function EntryFor(sp: Space, va: nat): (r: Option<nat>)
    ensures r.Some? ==> r.value < |sp.pt| && sp.pt[r.value].vaddr == PageOf(va)
  {
    if |sp.pt| == PrefixPages(sp.segs, |sp.segs|) then Lookup(sp.segs, sp.pt, PageOf(va)) else None
  }

  /** The byte that space a has at va, wherever its page is; None if the page was never loaded. */
  function ByteAt(s: Vm, a: AsId, va: nat): Option<byte> {
    if a !in s.spaces || EntryFor(s.spaces[a], va).None? then None
    else
      var p := Contents(s, a, EntryFor(s.spaces[a], va).value);
      if p.None? then None else Some(p.value[va % 4096])
  }

  predicate Writable(s: Vm, a: AsId, va: nat) {
    a in s.spaces && EntryFor(s.spaces[a], va).Some? && s.spaces[a].pt[EntryFor(s.spaces[a], va).value].perm.w
  }

  /** The byte that va has when its page is first loaded, where that is determined. */
  function FirstByte(sp: Space, va: nat): Option<byte> { InitByte(sp, PageOf(va), va % 4096) }

  lemma {:induction false} ScanStable(pt: seq<PtEntry>, pt': seq<PtEntry>, va: nat, i: nat, end: nat)
    requires i <= end <= |pt| == |pt'| && forall j | 0 <= j < |pt| :: pt'[j].vaddr == pt[j].vaddr
    ensures ScanFor(pt', va, i, end) == ScanFor(pt, va, i, end)
    decreases end - i
  {
    if i < end { ScanStable(pt, pt', va, i + 1, end); }
  }

  lemma {:induction false} EntryForStable(sp: Space, sq: Space, va: nat)
    requires SameLayout(sp, sq)
    ensures EntryFor(sq, va) == EntryFor(sp, va) && FirstByte(sq, va) == FirstByte(sp, va)
  {
    if |sp.pt| == PrefixPages(sp.segs, |sp.segs|) {
      var k := SegmentFor(sp.segs, PageOf(va), 0);
      var np := PrefixPages(sp.segs, k);
      PrefixMonotone(sp.segs, k + 1, |sp.segs|);
      ScanStable(sp.pt, sq.pt, PageOf(va), np, np + sp.segs[k].npages);
    }
  }

  /** The entry for va is the only one for its page. */
  lemma {:induction false} EntryForUnique(s: Vm, a: AsId, va: nat, j: nat)
    requires SpacesOk(s, None) && a in s.spaces && j < |s.spaces[a].pt| && s.spaces[a].pt[j].vaddr == PageOf(va)
    ensures EntryFor(s.spaces[a], va) == Some(j)
  {
    LookupFinds(s.spaces[a].segs, s.spaces[a].pt, j);
  }

  /** A page other than page k of space b keeps its bytes. */
  lemma {:induction false} ByteStable(s: Vm, t: Vm, b: AsId, k: nat, a: AsId, va: nat)
    requires SameBut(s, t, b, k) && Writable(s, a, va) && !(a == b && EntryFor(s.spaces[a], va) == Some(k))
    ensures Writable(t, a, va) && ByteAt(t, a, va) == ByteAt(s, a, va)
    ensures FirstByte(t.spaces[a], va) == FirstByte(s.spaces[a], va)
  {
    assert SameLayout(s.spaces[a], t.spaces[a]);
    EntryForStable(s.spaces[a], t.spaces[a], va);
    var j := EntryFor(s.spaces[a], va).value;
    assert Contents(t, a, j) == Contents(s, a, j);
  }

  /** How one step may change the byte of a writable address: a store by the process itself sets it; an address
      that has a byte keeps it; an address without one may receive its first byte. */
  ghost predicate FlatStep(s: Vm, step: Step, t: Vm, a: AsId, va: nat)
    requires a in s.spaces
  {
    if step.Store? && s.cur == Some(a) && step.va == va then ByteAt(t, a, va) == Some(step.v)
    else if ByteAt(s, a, va).Some? then ByteAt(t, a, va) == ByteAt(s, a, va)
    else ByteAt(t, a, va).Some? && FirstByte(s.spaces[a], va).Some? ==> ByteAt(t, a, va) == FirstByte(s.spaces[a], va)
  }

  lemma {:induction false} StoreFlat(s: Vm, va: nat, v: byte, t: Vm, a: AsId, at: nat)
    requires Inv(s) && s.cur.Some? && s.cur.value in s.spaces && Stores(s, va, v, t) && Writable(s, a, at)
    ensures FlatStep(s, Store(va, v), t, a, at) && Writable(t, a, at)
    ensures FirstByte(t.spaces[a], at) == FirstByte(s.spaces[a], at)
  {
    var c := s.cur.value;
    var j := StoreKeeps(s, va, v, t);
    EntryForUnique(s, c, va, j);
    if a == c && EntryFor(s.spaces[a], at) == Some(j) {
      assert SameLayout(s.spaces[a], t.spaces[a]);
      EntryForStable(s.spaces[a], t.spaces[a], at);
      assert PageOf(at) == PageOf(va);
      StoreSamePage(s, t, a, j, va, v, at);
    } else {
      ByteStable(s, t, c, j, a, at);
    }
  }

  lemma {:induction false} StoreSamePage(s: Vm, t: Vm, a: AsId, j: nat, va: nat, v: byte, at: nat)
    requires a in s.spaces && a in t.spaces && EntryFor(s.spaces[a], at) == EntryFor(t.spaces[a], at) == Some(j)
    requires Contents(s, a, j).Some? && Contents(t, a, j) == Some(Contents(s, a, j).value[va % 4096 := v])
    requires PageOf(at) == PageOf(va) && s.cur == Some(a)
    ensures FlatStep(s, Store(va, v), t, a, at)
  {
    assert at % 4096 == va % 4096 <==> at == va;
  }

  lemma {:induction false} FaultFlat(s: Vm, ft: FaultType, va: nat, t: Vm, a: AsId, at: nat)
    requires Inv(s) && Faults(s, ft, va, t) && Writable(s, a, at)
    ensures FlatStep(s, PageFault(ft, va), t, a, at) && Writable(t, a, at)
    ensures FirstByte(t.spaces[a], at) == FirstByte(s.spaces[a], at)
  {
    var i := FaultOutcome(s, ft, va, t);
    if i.None? { FrameFlat(s, t, a, at); } else { BroughtInFlat(s, PageFault(ft, va), t, s.cur.value, i.value, a, at); }
  }

  lemma {:induction false} BroughtInFlat(s: Vm, step: Step, t: Vm, c: AsId, i: nat, a: AsId, at: nat)
    requires BroughtIn(s, t, c, i) && Writable(s, a, at) && !step.Store?
    ensures FlatStep(s, step, t, a, at) && Writable(t, a, at)
    ensures FirstByte(t.spaces[a], at) == FirstByte(s.spaces[a], at)
  {
    if a == c && EntryFor(s.spaces[a], at) == Some(i) {
      assert SameLayout(s.spaces[a], t.spaces[a]);
      EntryForStable(s.spaces[a], t.spaces[a], at);
    } else {
      ByteStable(s, t, c, i, a, at);
    }
  }

  /** The phases of a sleeping fault act on flat memory as a fault does: only the last one can give an address its
      first byte. */
  lemma {:induction false} MissFlat(s: Vm, step: Step, t: Vm, a: AsId, at: nat)
    requires Inv(s) && Next(s, step, t) && Missing(step) && Writable(s, a, at)
    ensures FlatStep(s, step, t, a, at) && Writable(t, a, at)
    ensures FirstByte(t.spaces[a], at) == FirstByte(s.spaces[a], at)
  {
    if step.MissFill? {
      var i := FillOutcome(s, t);
      BroughtInFlat(s, step, t, s.cur.value, i, a, at);
    } else {
      WaitFlat(s, step, t);
      ByteStable(s, t, s.cur.value, |s.spaces[s.cur.value].pt|, a, at);
    }
  }

  lemma {:induction false} WaitFlat(s: Vm, step: Step, t: Vm)
    requires Inv(s) && Next(s, step, t) && (step.MissBegin? || step.MissEvict?)
    ensures s.cur.Some? && s.cur.value in s.spaces && SameBut(s, t, s.cur.value, |s.spaces[s.cur.value].pt|)
  {
    if step.MissBegin? { BeginOutcome(s, step.ft, step.va, t); } else { EvictOutcome(s, t); }
  }

  /** Steps of the kernel that move no page contents. */
  predicate Quiet(step: Step) {
    step.Switch? || step.Start? || step.End? || step.KernelAlloc? || step.KernelFree?
  }

  lemma {:induction false} QuietShape(s: Vm, step: Step, t: Vm, a: AsId)
    requires Swap.WellFormed(s.swap) && BlocksOk(s.cm, s.blocks) && TablesOk(s.spaces, s.blocks)
    requires Next(s, step, t) && Quiet(step) && a in s.spaces && step != End(a)
    ensures a in t.spaces && t.spaces[a] == s.spaces[a] && t.first == s.first && t.ram == s.ram
    ensures t.swap.pages == s.swap.pages
  {
    if step.End? { EndShape(s, step.a, t); }
  }

  lemma {:induction false} EndShape(s: Vm, b: AsId, t: Vm)
    requires Swap.WellFormed(s.swap) && BlocksOk(s.cm, s.blocks) && TablesOk(s.spaces, s.blocks) && Next(s, End(b), t)
    ensures t.spaces == s.spaces - {b} && t.first == s.first && t.ram == s.ram && t.swap.pages == s.swap.pages
  {
  }

  lemma {:induction false} QuietFlat(s: Vm, step: Step, t: Vm, a: AsId, va: nat)
    requires Swap.WellFormed(s.swap) && BlocksOk(s.cm, s.blocks) && TablesOk(s.spaces, s.blocks)
    requires Next(s, step, t) && Quiet(step) && step != End(a) && Writable(s, a, va)
    ensures FlatStep(s, step, t, a, va) && Writable(t, a, va)
    ensures FirstByte(t.spaces[a], va) == FirstByte(s.spaces[a], va)
  {
    QuietShape(s, step, t, a);
    FrameFlat(s, t, a, va);
  }

  lemma {:induction false} FrameFlat(s: Vm, t: Vm, a: AsId, at: nat)
    requires Writable(s, a, at) && a in t.spaces && t.spaces[a] == s.spaces[a] && t.first == s.first
    requires t.ram == s.ram && t.swap.pages == s.swap.pages
    ensures Writable(t, a, at) && ByteAt(t, a, at) == ByteAt(s, a, at)
    ensures FirstByte(t.spaces[a], at) == FirstByte(s.spaces[a], at)
  {
  }

  lemma {:induction false} KernelStoreFlat(s: Vm, f: nat, page: Page, t: Vm, a: AsId, va: nat)
    requires Inv(s) && Next(s, KernelStore(f, page), t) && Writable(s, a, va)
    ensures FlatStep(s, KernelStore(f, page), t, a, va) && Writable(t, a, va)
    ensures FirstByte(t.spaces[a], va) == FirstByte(s.spaces[a], va)
  {
    KernelWrite(s, f, page);
    ByteStable(s, t, 0, if 0 in s.spaces then |s.spaces[0].pt| else 0, a, va);
  }

  /** Paging refines flat memory: every step acts on the bytes of every address space as FlatStep says,
      and leaves which addresses are writable, and their first bytes, alone. */
  lemma {:induction false} StepRefines(s: Vm, step: Step, t: Vm, a: AsId, va: nat)
    requires Inv(s) && Next(s, step, t) && Writable(s, a, va) && step != End(a)
    ensures FlatStep(s, step, t, a, va) && Writable(t, a, va)
    ensures FirstByte(t.spaces[a], va) == FirstByte(s.spaces[a], va)
  {
    if Quiet(step) { QuietFlat(s, step, t, a, va); }
    else if step.Store? { StoreFlat(s, step.va, step.v, t, a, va); }
    else if step.PageFault? { FaultFlat(s, step.ft, step.va, t, a, va); }
    else if Missing(step) { MissFlat(s, step, t, a, va); }
    else if step.KernelStore? { KernelStoreFlat(s, step.f, step.page, t, a, va); }
    else { assert step.Load? && t == s; }
  }

  /** A load returns the byte of the address; on a read-only page it is the executable's byte,
      however often the page was dropped and loaded again. */
  lemma {:induction false} LoadReads(s: Vm, va: nat, v: byte)
    requires Inv(s) && s.cur.Some? && s.cur.value in s.spaces && Loads(s, va, v)
    ensures var a := s.cur.value;
            && ByteAt(s, a, va) == Some(v)
            && (!Writable(s, a, va) && FirstByte(s.spaces[a], va).Some? ==> FirstByte(s.spaces[a], va) == Some(v))
  {
    var a := s.cur.value;
    var j := TranslateFinds(s, va);
    EntryForUnique(s, a, va, j);
    assert ReadOnlyEntryOk(s.spaces[a], s.spaces[a].pt[j], s.first, s.ram);
  }

  // ---- Whole runs ----

  /** Space a exists from state k to state i of the run. */
  ghost predicate Alive(ss: seq<Vm>, steps: seq<Step>, a: AsId, k: nat, i: nat)
    requires |ss| == |steps| + 1 && i <= |steps|
  {
    k <= i && a in ss[k].spaces && forall n | k <= n < i :: steps[n] != End(a)
  }

  /** Process a does not store to va in steps k to i. */
  ghost predicate NoStore(ss: seq<Vm>, steps: seq<Step>, a: AsId, va: nat, k: nat, i: nat)
    requires |ss| == |steps| + 1 && i <= |steps|
  {
    forall n | k <= n < i :: !(steps[n].Store? && steps[n].va == va && ss[n].cur == Some(a))
  }

  /** A byte that is known stays until the process stores to it. */
  lemma {:induction false} ByteLasts(ss: seq<Vm>, steps: seq<Step>, a: AsId, va: nat, k: nat, i: nat)
    requires Run(ss, steps) && i <= |steps| && Alive(ss, steps, a, k, i) && NoStore(ss, steps, a, va, k, i)
    requires Writable(ss[k], a, va) && ByteAt(ss[k], a, va).Some?
    ensures Writable(ss[i], a, va) && ByteAt(ss[i], a, va) == ByteAt(ss[k], a, va)
    decreases i
  {
    if k < i {
      ByteLasts(ss, steps, a, va, k, i - 1);
      RunInv(ss, steps, i - 1);
      StepRefines(ss[i - 1], steps[i - 1], ss[i], a, va);
    }
  }

  lemma {:induction false} RunCur(ss: seq<Vm>, steps: seq<Step>, i: nat)
    requires Run(ss, steps) && i <= |steps| && ss[i].cur.Some?
    ensures Inv(ss[i]) && ss[i].cur.value in ss[i].spaces
  {
    RunInv(ss, steps, i);
  }

  /** What a load in a run returns */
  lemma {:induction false} RunLoad(ss: seq<Vm>, steps: seq<Step>, a: AsId, i: nat)
    requires Run(ss, steps) && i < |steps| && steps[i].Load? && ss[i].cur == Some(a)
    ensures a in ss[i].spaces && ByteAt(ss[i], a, steps[i].va) == Some(steps[i].v)
    ensures !Writable(ss[i], a, steps[i].va) && FirstByte(ss[i].spaces[a], steps[i].va).Some? ==>
              FirstByte(ss[i].spaces[a], steps[i].va) == Some(steps[i].v)
  {
    RunCur(ss, steps, i);
    assert Next(ss[i], steps[i], ss[i + 1]);
    LoadReads(ss[i], steps[i].va, steps[i].v);
  }

  /** What a store in a run leaves */
  lemma {:induction false} RunStore(ss: seq<Vm>, steps: seq<Step>, a: AsId, k: nat)
    requires Run(ss, steps) && k < |steps| && steps[k].Store? && ss[k].cur == Some(a)
    ensures Writable(ss[k + 1], a, steps[k].va) && ByteAt(ss[k + 1], a, steps[k].va) == Some(steps[k].v)
  {
    RunCur(ss, steps, k);
    assert Next(ss[k], steps[k], ss[k + 1]);
    StoreWritable(ss[k], steps[k].va, steps[k].v, ss[k + 1], a);
    StepRefines(ss[k], steps[k], ss[k + 1], a, steps[k].va);
  }

  lemma {:induction false} StoreWritable(s: Vm, va: nat, v: byte, t: Vm, a: AsId)
    requires Inv(s) && s.cur == Some(a) && a in s.spaces && Stores(s, va, v, t)
    ensures Writable(s, a, va)
  {
    var j := StoreKeeps(s, va, v, t);
    EntryForUnique(s, a, va, j);
  }

  /** A load returns the last value that the process stored at the address: over faults, evictions, swapping,
      context switches, and whatever the other processes and the kernel did in between. */
  lemma {:induction false} LoadReturnsLastStore(ss: seq<Vm>, steps: seq<Step>, a: AsId, k: nat, i: nat)
    requires Run(ss, steps) && k < i < |steps| && ss[k].cur == Some(a) && ss[i].cur == Some(a)
    requires steps[k].Store? && steps[i].Load? && steps[k].va == steps[i].va
    requires Alive(ss, steps, a, k + 1, i) && NoStore(ss, steps, a, steps[k].va, k + 1, i)
    ensures steps[i].v == steps[k].v
  {
    RunStore(ss, steps, a, k);
    ByteLasts(ss, steps, a, steps[k].va, k + 1, i);
    RunLoad(ss, steps, a, i);
  }

  /** Two loads of a writable address with no store in between return the same value. */
  lemma {:induction false} LoadsAgree(ss: seq<Vm>, steps: seq<Step>, a: AsId, k: nat, i: nat)
    requires Run(ss, steps) && k < i < |steps| && ss[k].cur == Some(a) && ss[i].cur == Some(a)
    requires steps[k].Load? && steps[i].Load? && steps[k].va == steps[i].va && Writable(ss[k], a, steps[k].va)
    requires Alive(ss, steps, a, k, i) && NoStore(ss, steps, a, steps[k].va, k, i)
    ensures steps[i].v == steps[k].v
  {
    RunLoad(ss, steps, a, k);
    ByteLasts(ss, steps, a, steps[k].va, k, i);
    RunLoad(ss, steps, a, i);
  }

  // ---- Before the first store ----

  lemma {:induction false} StepLayout(s: Vm, step: Step, t: Vm, a: AsId)
    requires Inv(s) && Next(s, step, t) && a in s.spaces && step != End(a)
    ensures a in t.spaces && SameLayout(s.spaces[a], t.spaces[a])
  {
    if Quiet(step) { QuietShape(s, step, t, a); }
    else if step.Store? { var j := StoreKeeps(s, step.va, step.v, t); }
    else if step.PageFault? { FaultLayout(s, step.ft, step.va, t, a); }
    else if Missing(step) { MissLayout(s, step, t, a); }
    else if step.KernelStore? { KernelWrite(s, step.f, step.page); }
  }

  lemma {:induction false} FaultLayout(s: Vm, ft: FaultType, va: nat, t: Vm, a: AsId)
    requires Inv(s) && Faults(s, ft, va, t) && a in s.spaces
    ensures a in t.spaces && SameLayout(s.spaces[a], t.spaces[a])
  {
    var i := FaultOutcome(s, ft, va, t);
    if i.Some? { assert SameLayout(s.spaces[a], t.spaces[a]); }
  }

  lemma {:induction false} MissLayout(s: Vm, step: Step, t: Vm, a: AsId)
    requires Inv(s) && Next(s, step, t) && Missing(step) && a in s.spaces
    ensures a in t.spaces && SameLayout(s.spaces[a], t.spaces[a])
  {
    if step.MissFill? { var i := FillOutcome(s, t); }
    else if step.MissBegin? { BeginOutcome(s, step.ft, step.va, t); }
    else { EvictOutcome(s, t); }
  }

  lemma {:induction false} RunLayout(ss: seq<Vm>, steps: seq<Step>, a: AsId, k: nat, i: nat)
    requires Run(ss, steps) && i <= |steps| && Alive(ss, steps, a, k, i)
    ensures a in ss[i].spaces && SameLayout(ss[k].spaces[a], ss[i].spaces[a])
    decreases i
  {
    if k < i {
      RunLayout(ss, steps, a, k, i - 1);
      RunInv(ss, steps, i - 1);
      StepLayout(ss[i - 1], steps[i - 1], ss[i], a);
    }
  }

  /** Until the process stores to a writable address, the address has no byte or its first byte. */
  lemma {:induction false} FirstByteLasts(ss: seq<Vm>, steps: seq<Step>, a: AsId, va: nat, k: nat, i: nat)
    requires Run(ss, steps) && i <= |steps| && Alive(ss, steps, a, k, i) && NoStore(ss, steps, a, va, k, i)
    requires Writable(ss[k], a, va) && ByteAt(ss[k], a, va).None? && FirstByte(ss[k].spaces[a], va).Some?
    ensures Writable(ss[i], a, va) && FirstByte(ss[i].spaces[a], va) == FirstByte(ss[k].spaces[a], va)
    ensures ByteAt(ss[i], a, va).None? || ByteAt(ss[i], a, va) == FirstByte(ss[k].spaces[a], va)
    decreases i
  {
    if k < i {
      FirstByteLasts(ss, steps, a, va, k, i - 1);
      RunInv(ss, steps, i - 1);
      StepRefines(ss[i - 1], steps[i - 1], ss[i], a, va);
    }
  }

  /** A load before the process' first store to the address returns the first byte: zero on the stack,
      otherwise what the loader transfers from the executable, even if the page was evicted,
      dropped and loaded again any number of times. */
  lemma {:induction false} LoadReturnsFirstByte(ss: seq<Vm>, steps: seq<Step>, a: AsId, k: nat, i: nat)
    requires Run(ss, steps) && k < i < |steps| && steps[k].Start? && steps[k].a == a && steps[i].Load?
    requires ss[i].cur == Some(a)
    requires Alive(ss, steps, a, k + 1, i) && NoStore(ss, steps, a, steps[i].va, k + 1, i)
    ensures FirstByte(ss[k + 1].spaces[a], steps[i].va).Some? ==>
              FirstByte(ss[k + 1].spaces[a], steps[i].va) == Some(steps[i].v)
  {
    var va := steps[i].va;
    RunLoad(ss, steps, a, i);
    RunLayout(ss, steps, a, k + 1, i);
    LayoutFacts(ss[k + 1], ss[i], a, va);
    if Writable(ss[i], a, va) && FirstByte(ss[k + 1].spaces[a], va).Some? {
      FirstLoad(ss, steps, a, k, i, va);
    }
  }

  lemma {:induction false} LayoutFacts(s: Vm, t: Vm, a: AsId, va: nat)
    requires a in s.spaces && a in t.spaces && SameLayout(s.spaces[a], t.spaces[a])
    ensures Writable(t, a, va) <==> Writable(s, a, va)
    ensures FirstByte(t.spaces[a], va) == FirstByte(s.spaces[a], va)
  {
    EntryForStable(s.spaces[a], t.spaces[a], va);
  }

  lemma {:induction false} FirstLoad(ss: seq<Vm>, steps: seq<Step>, a: AsId, k: nat, i: nat, va: nat)
    requires Run(ss, steps) && k < i < |steps| && steps[k].Start? && steps[k].a == a
    requires Alive(ss, steps, a, k + 1, i) && NoStore(ss, steps, a, va, k + 1, i)
    requires Writable(ss[k + 1], a, va) && FirstByte(ss[k + 1].spaces[a], va).Some?
    ensures ByteAt(ss[i], a, va).None? || ByteAt(ss[i], a, va) == FirstByte(ss[k + 1].spaces[a], va)
  {
    assert Next(ss[k], steps[k], ss[k + 1]);
    FreshUnloaded(ss[k], steps[k], ss[k + 1], va);
    FirstByteLasts(ss, steps, a, va, k + 1, i);
  }

  lemma {:induction false} FreshUnloaded(s: Vm, step: Step, t: Vm, va: nat)
    requires step.Start? && Next(s, step, t)
    ensures step.a in t.spaces && ByteAt(t, step.a, va).None?
  {
    FreshTable(step.segs, step.a, t.first, t.cm, t.swap.bits);
  }

  /** The first byte of a file-backed address is the file's byte, if the segment is loadable (see TilesIff for why it
      must be). */
  lemma {:induction false} FirstByteIsFileByte(sp: Space, k: nat, va: nat)
    requires Ascending(sp.segs) && k + 1 < |sp.segs|
    requires var g := sp.segs[k];
             && Loadable(g)
             && g.start + g.initoffset <= va < g.start + g.initoffset + g.filesize && va < g.start + g.npages * 4096
             && g.offset + g.filesize <= |sp.file|
    ensures var g := sp.segs[k]; FirstByte(sp, va) == Some(sp.file[g.offset + (va - g.start - g.initoffset)])
  {
    var g := sp.segs[k];
    SegmentForSkips(sp.segs, PageOf(va), 0, k);
    var n := (PageOf(va) - g.start) / 4096;
    assert g.start + n * 4096 == PageOf(va);
    TransferTiles(g, sp.file, n, va % 4096);
  }
}

/** The statistics that vm_stats_print checks at shutdown (vmstats.c). */
module PagingStats {
  import opened VmTypes
  import opened AddressSpace
  import Swap
  import opened Paging
  import opened PagingInvariant
  import opened PagingProofs
  import opened PagingLifecycle
  import opened PagingPhases
  import opened PagingRuns

  /** The three equations that vm_stats_print tests, with r faults set apart. */
  ghost predicate Balanced(st: Stats, r: nat) {
    && st.faults == st.withFree + st.withReplace + r
    && st.faults == st.disk + st.zeroed + st.reloads + r
    && st.disk == st.elfReads + st.swapReads
  }

  /** The equations with the refused faults and the faults that still sleep set apart */
  ghost predicate Accounts(s: Vm, r: nat) { Balanced(s.stats, r + |s.pending|) }

  // ---- What each part of a fault counts ----

  lemma {:induction false} EvictStats(s: Vm, a: AsId, f: nat)
    requires Sized(s) && a in s.spaces && f < |s.cm| && Evict(s, a, f).Some?
    ensures var t := Evict(s, a, f).value.0;
            t.stats == s.stats.(swapWrites := t.stats.swapWrites) && t.pending == s.pending
  {
  }

  lemma {:induction false} GetPageStats(s: Vm, a: AsId, vpage: nat)
    requires Sized(s) && a in s.spaces && GetPage(s, a, vpage).Some?
    ensures var t := GetPage(s, a, vpage).value.0;
            t.stats == s.stats.(swapWrites := t.stats.swapWrites) && t.pending == s.pending
  {
    var taken, n, v := GetPageCases(s, a, vpage);
    if !taken { EvictStats(s.(next := n), a, v); }
  }

  /** One more page read from disk, from the executable or from swap, or one more zeroed page */
  predicate OneFilled(st: Stats, su: Stats) {
    && su.faults == st.faults && su.withFree == st.withFree && su.withReplace == st.withReplace
    && su.reloads == st.reloads
    && su.disk + su.zeroed == st.disk + st.zeroed + 1
    && su.disk - su.elfReads - su.swapReads == st.disk - st.elfReads - st.swapReads
  }

  lemma {:induction false} FillStats(s: Vm, a: AsId, i: nat, f: nat)
    requires Sized(s) && a in s.spaces && i < |s.spaces[a].pt| && f < |s.cm| && Swap.WellFormed(s.swap)
    requires Fill(s, a, i, f).Some?
    ensures OneFilled(s.stats, Fill(s, a, i, f).value.stats) && Fill(s, a, i, f).value.pending == s.pending
  {
  }

  /** A translation loaded after a filled page completes a fault. */
  lemma {:induction false} LoadStats(s: Vm, st: Stats, a: AsId, i: nat, r: nat)
    requires Sized(s) && a in s.spaces && i < |s.spaces[a].pt| && OneFilled(st, s.stats) && Balanced(st, r + 1)
    ensures Balanced(LoadTlb(s, a, i).stats, r) && LoadTlb(s, a, i).pending == s.pending
  {
  }

  lemma {:induction false} ServeStats(s: Vm, a: AsId, i: nat, r: nat)
    requires Sized(s) && a in s.spaces && i < |s.spaces[a].pt| && Swap.WellFormed(s.swap) && Serve(s, a, i).Some?
    requires s.spaces[a].pt[i].inMem || s.spaces[a].pt[i].inSwap || !IsFrame(s.first, |s.cm|, s.spaces[a].pt[i].paddr)
    requires Balanced(s.stats, r + 1)
    ensures var t := Serve(s, a, i).value; Balanced(t.stats, r) && t.pending == s.pending
  {
    if !s.spaces[a].pt[i].inMem {
      ServeMiss(s, a, i);
      var (t, f) := GetPage(s, a, s.spaces[a].pt[i].vaddr).value;
      GetPageStats(s, a, s.spaces[a].pt[i].vaddr);
      FillStats(t, a, i, f);
      LoadStats(Fill(t, a, i, f).value, t.stats, a, i, r);
    }
  }

  lemma {:induction false} FaultStats(s: Vm, ft: FaultType, va: nat, t: Vm, r: nat)
    requires Inv(s) && Faults(s, ft, va, t) && Accounts(s, r)
    ensures Accounts(t, if Refuses(s, PageFault(ft, va)) then r + 1 else r)
  {
    InvFaultable(s);
    RefusedIff(s, ft, va);
    if Fault(s, ft, va).Refused? { FaultRefusedWhen(s, ft, va); } else { HandledStats(s, ft, va, t, r); }
  }

  lemma {:induction false} HandledStats(s: Vm, ft: FaultType, va: nat, t: Vm, r: nat)
    requires Inv(s) && Faults(s, ft, va, t) && Accounts(s, r) && Faultable(s) && Fault(s, ft, va) == Handled(t)
    ensures Accounts(t, r)
  {
    var a, i, s0 := FaultServes(s, ft, va);
    EntryHolds(s, None, a, i);
    ServeStats(s0, a, i, r + |s.pending|);
  }

  // ---- Refused faults ----

  /** The fault is refused with an error code: no process runs, or the kind of fault is unknown and the page is mapped.
      */
  ghost predicate Refuses(s: Vm, step: Step) {
    && step.PageFault?
    && (|| s.cur.None?
        || (step.ft.Unknown? && s.cur.value in s.spaces && Mapped(s.spaces[s.cur.value].segs, PageOf(step.va))))
  }

  lemma {:induction false} RefusedIff(s: Vm, ft: FaultType, va: nat)
    requires Inv(s)
    ensures Faultable(s) && (Fault(s, ft, va).Refused? <==> Refuses(s, PageFault(ft, va)))
  {
    InvFaultable(s);
    FaultRefusedWhen(s, ft, va);
    if s.cur.Some? { FoundIffMapped(s, va); }
  }

  /** How many of the first i steps were refused faults */
  ghost function RefusedFaults(ss: seq<Vm>, steps: seq<Step>, i: nat): nat
    requires i <= |steps| && |ss| == |steps| + 1
  {
    if i == 0 then 0
    else RefusedFaults(ss, steps, i - 1) + (if Refuses(ss[i - 1], steps[i - 1]) then 1 else 0)
  }

  // ---- Every step ----

  lemma {:induction false} BeginStats(s: Vm, a: AsId, i: nat, t: Vm, r: nat)
    requires Sized(s) && a in s.spaces && i < |s.spaces[a].pt| && a !in s.pending && BeginMiss(s, a, i) == Some(t)
    requires Balanced(s.stats, r + |s.pending| + 1)
    ensures Accounts(t, r)
  {
    var taken, n, f := BeginCases(s, a, i);
    assert |t.pending| == |s.pending| + 1;
  }

  lemma {:induction false} WriteOutStats(s: Vm, a: AsId, t: Vm, r: nat)
    requires Sized(s) && a in s.spaces && a in s.pending && s.pending[a].Evicting? && s.pending[a].v < |s.cm|
    requires EvictOut(s, a) == Some(t) && Accounts(s, r)
    ensures Accounts(t, r)
  {
    EvictStats(s, a, s.pending[a].v);
    assert t.pending.Keys == s.pending.Keys;
    SameSize(s.pending, t.pending);
  }

  lemma {:induction false} SameSize(p: map<AsId, Pending>, q: map<AsId, Pending>)
    requires p.Keys == q.Keys
    ensures |p| == |q|
  {
    assert |p| == |p.Keys| && |q| == |q.Keys|;
  }

  lemma {:induction false} FinishStats(s: Vm, a: AsId, t: Vm, r: nat)
    requires Sized(s) && Swap.WellFormed(s.swap) && a in s.spaces && a in s.pending && s.pending[a].Filling?
    requires s.pending[a].i < |s.spaces[a].pt| && s.pending[a].f < |s.cm| && FinishMiss(s, a) == Some(t)
    requires Accounts(s, r)
    ensures Accounts(t, r)
  {
    var i, f := s.pending[a].i, s.pending[a].f;
    var s1 := s.(pending := s.pending - {a});
    assert |s1.pending| == |s.pending| - 1;
    FillStats(s1, a, i, f);
    LoadStats(Fill(s1, a, i, f).value, s1.stats, a, i, r + |s1.pending|);
  }

  lemma {:induction false} MissStats(s: Vm, step: Step, t: Vm, r: nat)
    requires Inv(s) && Next(s, step, t) && Missing(step) && Accounts(s, r)
    ensures Accounts(t, r)
  {
    InvFaultable(s);
    var a := s.cur.value;
    if step.MissBegin? {
      BeginStats(CountFault(s), a, Found(s, step.va).value, t, r);
    } else {
      PendingFacts(s, a);
      if step.MissEvict? { WriteOutStats(s, a, t, r); } else { FinishStats(s, a, t, r); }
    }
  }

  lemma {:induction false} PendingFacts(s: Vm, a: AsId)
    requires PendingOk(s) && a in s.pending
    ensures a in s.spaces && s.pending[a].i < |s.spaces[a].pt|
    ensures (if s.pending[a].Filling? then s.pending[a].f else s.pending[a].v) < |s.cm|
  {
  }

  lemma {:induction false} StepStats(s: Vm, step: Step, t: Vm, r: nat)
    requires Inv(s) && Next(s, step, t) && Accounts(s, r)
    ensures Accounts(t, if Refuses(s, step) then r + 1 else r)
  {
    if step.PageFault? { FaultStats(s, step.ft, step.va, t, r); }
    else if Missing(step) { MissStats(s, step, t, r); }
    else if step.Store? { StoreStats(s, step.va, step.v, t); }
    else { OtherStats(s, step, t); }
  }

  lemma {:induction false} StoreStats(s: Vm, va: nat, v: byte, t: Vm)
    requires Inv(s) && s.cur.Some? && s.cur.value in s.spaces && Stores(s, va, v, t)
    ensures t.stats == s.stats && t.pending == s.pending
  {
    var j := TranslateFinds(s, va);
    StoreShape(s, va, v, t);
  }

  lemma {:induction false} OtherStats(s: Vm, step: Step, t: Vm)
    requires Sized(s) && Swap.WellFormed(s.swap) && BlocksOk(s.cm, s.blocks) && TablesOk(s.spaces, s.blocks)
    requires Next(s, step, t) && !step.PageFault? && !step.Store? && !Missing(step)
    ensures t.stats == s.stats.(invalidations := t.stats.invalidations) && t.pending == s.pending
  {
  }

  /** In every run the equations hold, but for refused faults and faults that still sleep. */
  lemma {:induction false} RunStats(ss: seq<Vm>, steps: seq<Step>, i: nat)
    requires Run(ss, steps) && i <= |steps|
    ensures Accounts(ss[i], RefusedFaults(ss, steps, i))
  {
    if i > 0 {
      RunStats(ss, steps, i - 1);
      RunStepStats(ss, steps, i - 1, RefusedFaults(ss, steps, i - 1));
    }
  }

  lemma {:induction false} RunStepStats(ss: seq<Vm>, steps: seq<Step>, i: nat, r: nat)
    requires Run(ss, steps) && i < |steps| && Accounts(ss[i], r)
    ensures Accounts(ss[i + 1], if Refuses(ss[i], steps[i]) then r + 1 else r)
  {
    RunInv(ss, steps, i);
    StepStats(ss[i], steps[i], ss[i + 1], r);
  }

  /** In every run the shutdown statistics are consistent exactly when no fault was refused and none is asleep. */
  lemma {:induction false} ConsistentIff(ss: seq<Vm>, steps: seq<Step>, i: nat)
    requires Run(ss, steps) && i <= |steps|
    ensures Balanced(ss[i].stats, 0) <==> RefusedFaults(ss, steps, i) == 0 && ss[i].pending == map[]
  {
    RunStats(ss, steps, i);
    assert |ss[i].pending| == 0 <==> ss[i].pending == map[];
  }

  /** An inconsistent report: a fault before the first process runs. */
  lemma {:induction false} InconsistentRun(s: Vm)
    requires Boot(s)
    ensures Run([s, CountFault(s)], [PageFault(Read, 0)]) && !Balanced(CountFault(s).stats, 0)
  {
    BootInv(s);
    InvFaultable(s);
    FaultRefusedWhen(s, Read, 0);
    assert Next(s, PageFault(Read, 0), CountFault(s));
  }
}

/** Page tables: built from the segment list, searched by the fault handler (addrspace.c). */
module AddressSpace {
  import opened VmTypes
  import opened Elf

  /** A page table entry. paddr is a frame address, a swap slot number, or 0, depending on the flags. */
  datatype PtEntry = PtEntry(paddr: nat, vaddr: nat, inMem: bool, inSwap: bool, perm: Perm)

  /** The page table entries of one segment, from page i on. */
  function SegmentPages(seg: Segment, i: nat): (pt: seq<PtEntry>)
    requires i <= seg.npages
    ensures |pt| == seg.npages - i
    ensures forall k | 0 <= k < |pt| :: pt[k] == PtEntry(0, seg.start + (i + k) * 4096, false, false, seg.perm)
    decreases seg.npages - i
  {
    if i == seg.npages then []
    else [PtEntry(0, seg.start + i * 4096, false, false, seg.perm)] + SegmentPages(seg, i + 1)
  }

  /** The page table of a freshly prepared address space: the segments' pages, one after the other. */
  function Flatten(segs: seq<Segment>): seq<PtEntry> {
    if segs == [] then [] else Flatten(segs[..|segs| - 1]) + SegmentPages(segs[|segs| - 1], 0)
  }

  /** Number of pages of the first k segments. */
  function PrefixPages(segs: seq<Segment>, k: nat): nat
    requires k <= |segs|
  {
    if k == 0 then 0 else PrefixPages(segs, k - 1) + segs[k - 1].npages
  }

  /** Segments in the order the ELF standard asks for PT_LOAD entries: ascending, sharing no page. */
  ghost predicate Ascending(segs: seq<Segment>) {
    forall k, l | 0 <= k < l < |segs| :: segs[k].start + segs[k].npages * 4096 <= segs[l].start
  }

  /** The segment list of an address space, which ends with the stack. */
  type SegList = s: seq<Segment> | s != [] witness [Segment(0, 0, 0, Perm(false, false, false), 0, 0)]

  lemma {:induction false} PrefixOfPrefix(segs: seq<Segment>, n: nat, k: nat)
    requires k <= n <= |segs|
    ensures PrefixPages(segs[..n], k) == PrefixPages(segs, k)
  {
    if k > 0 { PrefixOfPrefix(segs, n, k - 1); }
  }

  lemma {:induction false} PrefixMonotone(segs: seq<Segment>, k: nat, l: nat)
    requires k <= l <= |segs|
    ensures PrefixPages(segs, k) <= PrefixPages(segs, l)
    decreases l
  {
    if k < l { PrefixMonotone(segs, k, l - 1); }
  }

  lemma {:induction false} FlattenLength(segs: seq<Segment>)
    ensures |Flatten(segs)| == PrefixPages(segs, |segs|)
  {
    if segs != [] {
      var n := |segs| - 1;
      FlattenLength(segs[..n]);
      PrefixOfPrefix(segs, n, n);
      assert PrefixPages(segs, n + 1) == PrefixPages(segs, n) + segs[n].npages;
    }
  }

  /** Page i of segment k is entry PrefixPages(k) + i of the table. */
  lemma {:induction false} FlattenAt(segs: seq<Segment>, k: nat, i: nat)
    requires k < |segs| && i < segs[k].npages
    ensures PrefixPages(segs, k) + i < |Flatten(segs)|
    ensures Flatten(segs)[PrefixPages(segs, k) + i] == PtEntry(0, segs[k].start + i * 4096, false, false, segs[k].perm)
  {
    var n := |segs| - 1;
    var front := segs[..n];
    FlattenLength(front);
    PrefixOfPrefix(segs, n, n);
    if k < n {
      PrefixOfPrefix(segs, n, k);
      FlattenAt(front, k, i);
    }
  }

  /** Every entry belongs to a page of one segment. */
  lemma {:induction false} EntrySegment(segs: seq<Segment>, n: nat, j: nat) returns (k: nat)
    requires n <= |segs| && j < PrefixPages(segs, n)
    ensures k < n && PrefixPages(segs, k) <= j < PrefixPages(segs, k) + segs[k].npages
  {
    if PrefixPages(segs, n - 1) <= j { k := n - 1; } else { k := EntrySegment(segs, n - 1, j); }
  }

  lemma {:induction false} EntryAt(segs: seq<Segment>, j: nat) returns (k: nat, i: nat)
    requires j < |Flatten(segs)|
    ensures k < |segs| && i < segs[k].npages && j == PrefixPages(segs, k) + i
    ensures Flatten(segs)[j] == PtEntry(0, segs[k].start + i * 4096, false, false, segs[k].perm)
  {
    FlattenLength(segs);
    k := EntrySegment(segs, |segs|, j);
    i := j - PrefixPages(segs, k);
    FlattenAt(segs, k, i);
  }

  /** The virtual addresses of a page table are ascending multiples of the page size. */
  lemma {:induction false} FlattenAscends(segs: seq<Segment>, i: nat, j: nat)
    requires Ascending(segs) && i < j < |Flatten(segs)|
    ensures Flatten(segs)[i].vaddr < Flatten(segs)[j].vaddr
  {
    var k, x := EntryAt(segs, i);
    var l, y := EntryAt(segs, j);
    if l < k { PrefixMonotone(segs, l + 1, k); }
  }

  /** as_prepare_load: count the pages, then fill the table segment by segment. */
  method PrepareTable(segs: seq<Segment>) returns (pt: array<PtEntry>)
    ensures fresh(pt) && pt[..] == Flatten(segs)
  {
    FlattenLength(segs);
    var npages := 0;
    var k := 0;
    while k < |segs|
      invariant 0 <= k <= |segs| && npages == PrefixPages(segs, k)
    {
      npages := npages + segs[k].npages;
      k := k + 1;
    }
    pt := new PtEntry[npages](_ => PtEntry(0, 0, false, false, Perm(false, false, false)));
    var j := 0;
    k := 0;
    while k < |segs|
      invariant 0 <= k <= |segs| && j == PrefixPages(segs, k) <= npages
      invariant pt[..j] == Flatten(segs)[..j]
    {
      PrefixMonotone(segs, k + 1, |segs|);
      var v := segs[k].start;
      var i := 0;
      while i < segs[k].npages
        invariant 0 <= i <= segs[k].npages && j == PrefixPages(segs, k) + i && v == segs[k].start + i * 4096
        invariant pt[..j] == Flatten(segs)[..j]
      {
        FlattenAt(segs, k, i);
        pt[j] := PtEntry(0, v, false, false, segs[k].perm);
        v := v + 4096;
        i := i + 1;
        j := j + 1;
      }
      k := k + 1;
    }
    assert pt[..] == pt[..j] && Flatten(segs)[..j] == Flatten(segs);
  }

  // ---- Lookup ----

  /** The first loop of vm_fault: skip segments as long as the next one starts at or below the address. */
  function SegmentFor(segs: seq<Segment>, va: nat, k: nat): (r: nat)
    requires k < |segs|
    ensures k <= r < |segs|
    decreases |segs| - k
  {
    if k + 1 == |segs| || va < segs[k + 1].start then k else SegmentFor(segs, va, k + 1)
  }

  /** The second loop of vm_fault: the first entry of pt[i..end] for the page, or `end`. */
  function ScanFor(pt: seq<PtEntry>, va: nat, i: nat, end: nat): (r: nat)
    requires i <= end <= |pt|
    ensures i <= r <= end
    ensures r < end ==> pt[r].vaddr == va
    ensures forall j | i <= j < r :: pt[j].vaddr != va
    decreases end - i
  {
    if i == end || pt[i].vaddr == va then i else ScanFor(pt, va, i + 1, end)
  }

  /** The entry that vm_fault finds for page va; None is the "not initialized" panic. */
  function Lookup(segs: seq<Segment>, pt: seq<PtEntry>, va: nat): (r: Option<nat>)
    requires segs != [] && |pt| == PrefixPages(segs, |segs|)
    ensures r.Some? ==> r.value < |pt| && pt[r.value].vaddr == va
  {
    var k := SegmentFor(segs, va, 0);
    var np := PrefixPages(segs, k);
    PrefixMonotone(segs, k + 1, |segs|);
    var j := ScanFor(pt, va, np, np + segs[k].npages);
    if j == np + segs[k].npages then None else Some(j)
  }

  lemma {:induction false} SegmentForSkips(segs: seq<Segment>, va: nat, k: nat, l: nat)
    requires Ascending(segs) && k <= l < |segs| && segs[l].start <= va < segs[l].start + segs[l].npages * 4096
    ensures SegmentFor(segs, va, k) == l
    decreases l - k
  {
    if k < l {
      assert segs[k + 1].start <= segs[l].start by {
        if k + 1 < l { assert segs[k + 1].start + segs[k + 1].npages * 4096 <= segs[l].start; }
      }
      SegmentForSkips(segs, va, k + 1, l);
    } else if l + 1 < |segs| {
      assert segs[l].start + segs[l].npages * 4096 <= segs[l + 1].start;
    }
  }

  /** A page table keeps the addresses and permissions it was prepared with. */
  ghost predicate Layout(segs: seq<Segment>, pt: seq<PtEntry>) {
    && segs != [] && Ascending(segs)
    && |pt| == PrefixPages(segs, |segs|) == |Flatten(segs)|
    && forall j | 0 <= j < |pt| :: pt[j].vaddr == Flatten(segs)[j].vaddr && pt[j].perm == Flatten(segs)[j].perm
  }

  /** The segment walk agrees with a scan of the whole table: entry j is found for its own page,
      it is the only entry for that page, and its index is the page count of the earlier segments
      plus the page's distance from the start of its segment. */
  lemma {:induction false} LookupFinds(segs: seq<Segment>, pt: seq<PtEntry>, j: nat)
    requires Layout(segs, pt) && j < |pt|
    ensures Lookup(segs, pt, pt[j].vaddr) == Some(j)
    ensures forall i | 0 <= i < |pt| && pt[i].vaddr == pt[j].vaddr :: i == j
    ensures var k := SegmentFor(segs, pt[j].vaddr, 0);
            && segs[k].start <= pt[j].vaddr < segs[k].start + segs[k].npages * 4096
            && j == PrefixPages(segs, k) + (pt[j].vaddr - segs[k].start) / 4096
            && pt[j].perm == segs[k].perm
  {
    var k, i := EntryAt(segs, j);
    SegmentForSkips(segs, pt[j].vaddr, 0, k);
    forall i | 0 <= i < |pt| && pt[i].vaddr == pt[j].vaddr ensures i == j {
      if i < j { FlattenAscends(segs, i, j); }
      if j < i { FlattenAscends(segs, j, i); }
    }
  }

  /** A page of some segment. */
  ghost predicate Mapped(segs: seq<Segment>, va: nat) {
    va % 4096 == 0 && exists k :: 0 <= k < |segs| && segs[k].start <= va < segs[k].start + segs[k].npages * 4096
  }

  ghost predicate HasEntry(pt: seq<PtEntry>, va: nat) {
    exists j :: 0 <= j < |pt| && pt[j].vaddr == va
  }

  lemma {:induction false} PageIndex(start: nat, npages: nat, va: nat) returns (i: nat)
    requires start % 4096 == 0 && va % 4096 == 0 && start <= va < start + npages * 4096
    ensures i < npages && va == start + i * 4096
  {
    i := (va - start) / 4096;
  }

  lemma {:induction false} MappedHasEntry(segs: seq<Segment>, pt: seq<PtEntry>, va: nat)
    requires Layout(segs, pt) && Mapped(segs, va)
    ensures HasEntry(pt, va)
  {
    var k :| 0 <= k < |segs| && segs[k].start <= va < segs[k].start + segs[k].npages * 4096;
    var i := PageIndex(segs[k].start, segs[k].npages, va);
    FlattenAt(segs, k, i);
    assert pt[PrefixPages(segs, k) + i].vaddr == va;
  }

  lemma {:induction false} EntryMapped(segs: seq<Segment>, pt: seq<PtEntry>, j: nat)
    requires Layout(segs, pt) && j < |pt|
    ensures Mapped(segs, pt[j].vaddr)
  {
    var k, i := EntryAt(segs, j);
    assert segs[k].start <= pt[j].vaddr;
  }

  /** The lookup finds an entry exactly for the pages of the segments, which are
      exactly the pages a scan of the whole table would find. */
  lemma {:induction false} LookupIff(segs: seq<Segment>, pt: seq<PtEntry>, va: nat)
    requires Layout(segs, pt)
    ensures Lookup(segs, pt, va).Some? <==> HasEntry(pt, va)
    ensures HasEntry(pt, va) <==> Mapped(segs, va)
  {
    if Mapped(segs, va) { MappedHasEntry(segs, pt, va); }
    if HasEntry(pt, va) {
      var j :| 0 <= j < |pt| && pt[j].vaddr == va;
      LookupFinds(segs, pt, j);
      EntryMapped(segs, pt, j);
    }
  }

  /** The two search loops of vm_fault. */
  method FindEntry(segs: seq<Segment>, pt: array<PtEntry>, va: nat) returns (k: nat, i: nat, found: bool)
    requires segs != [] && pt.Length == PrefixPages(segs, |segs|)
    ensures k == SegmentFor(segs, va, 0)
    ensures found <==> Lookup(segs, pt[..], va).Some?
    ensures found ==> Lookup(segs, pt[..], va) == Some(i)
  {
    k := 0;
    var np := 0;
    while k + 1 < |segs|
      invariant 0 <= k < |segs| && np == PrefixPages(segs, k)
      invariant SegmentFor(segs, va, k) == SegmentFor(segs, va, 0)
    {
      if va < segs[k + 1].start { break; }
      np := np + segs[k].npages;
      k := k + 1;
    }
    PrefixMonotone(segs, k + 1, |segs|);
    i := Scan(pt, va, np, np + segs[k].npages);
    found := i != np + segs[k].npages;
  }

  method Scan(pt: array<PtEntry>, va: nat, np: nat, end: nat) returns (i: nat)
    requires np <= end <= pt.Length
    ensures i == ScanFor(pt[..], va, np, end)
  {
    i := np;
    while i < end
      invariant np <= i <= end
      invariant ScanFor(pt[..], va, i, end) == ScanFor(pt[..], va, np, end)
    {
      if pt[i].vaddr == va { break; }
      i := i + 1;
    }
  }
}

/** The coremap: one entry for each frame of managed RAM (coremap.c). */
module Coremap {
  import opened VmTypes

  /** A coremap entry. The kernel packs the used and reserved flags into the low bits of vaddr;
      vpage is what is left of it. owner is the address space whose page is in the frame,
      and alloc is the length of the block that starts at the frame. */
  datatype CEntry = CEntry(vpage: nat, used: bool, reserved: bool, owner: Option<AsId>, alloc: nat)

  predicate IsFree(c: CEntry) { !c.used && !c.reserved }

  /** set_coreentry */
  function Occupied(c: CEntry, vpage: nat, reserved: bool, owner: Option<AsId>): CEntry {
    CEntry(vpage, true, reserved, if reserved then None else owner, c.alloc)
  }

  /** set_empty, which leaves alloc as it was */
  function Emptied(c: CEntry): CEntry {
    CEntry(0, false, false, None, c.alloc)
  }

  // ---- Layout of RAM ----

  datatype RamLayout = RamLayout(first: nat, size: nat)

  /** coremap_init: the array of 12-byte entries sits in front of the frames it describes. */
  function InitLayout(ramSize: nat, firstFree: nat): (r: RamLayout)
    requires AlignUp(firstFree) <= ramSize
    ensures r.first % 4096 == 0
    // the array fits between the first free page and the first managed frame
    ensures AlignUp(firstFree) + 12 * r.size <= r.first
    // every managed frame is inside RAM
    ensures r.first + 4096 * r.size <= ramSize
  {
    var base := AlignUp(firstFree);
    var all := (ramSize - base) / 4096;
    var own := (all * 12 + 4095) / 4096;
    assert own <= all && 12 * all <= 4096 * own && 4096 * all <= ramSize - base;
    RamLayout(base + own * 4096, all - own)
  }

  function AlignUp(a: nat): (r: nat)
    ensures r % 4096 == 0 && a <= r < a + 4096
  {
    if a % 4096 == 0 then a else (a / 4096 + 1) * 4096
  }

  function FrameAddr(first: nat, f: nat): nat { f * 4096 + first }

  // ---- Searches ----

  /** The first free frame at or after i, or |cm|. */
  function FirstFree(cm: seq<CEntry>, i: nat): (r: nat)
    requires i <= |cm|
    ensures i <= r <= |cm|
    ensures r < |cm| ==> IsFree(cm[r])
    ensures forall k | i <= k < r :: !IsFree(cm[k])
    decreases |cm| - i
  {
    if i == |cm| || IsFree(cm[i]) then i else FirstFree(cm, i + 1)
  }

  /** d places after `next` on a ring of n. */
  function Turn(next: nat, d: nat, n: nat): (r: nat)
    requires next < n && d <= n
    ensures r < n
  {
    if next + d < n then next + d else next + d - n
  }

  predicate Evictable(c: CEntry, a: AsId) { !c.reserved && c.owner == Some(a) }

  /** How many places after `next` the first frame of `a` lies, not counting the first d places;
      |cm| when there is none, in which case the kernel's loop does not end. */
  function VictimDistance(cm: seq<CEntry>, next: nat, a: AsId, d: nat): (r: nat)
    requires next < |cm| && d <= |cm|
    ensures d <= r <= |cm|
    ensures r < |cm| ==> Evictable(cm[Turn(next, r, |cm|)], a)
    ensures forall k | d <= k < r :: !Evictable(cm[Turn(next, k, |cm|)], a)
    decreases |cm| - d
  {
    if d == |cm| || Evictable(cm[Turn(next, d, |cm|)], a) then d else VictimDistance(cm, next, a, d + 1)
  }

  /** The round-robin search ends, in fewer steps than there are frames,
      exactly when the address space has a frame it may give up. */
  lemma {:induction false} VictimFoundIff(cm: seq<CEntry>, next: nat, a: AsId)
    requires next < |cm|
    ensures VictimDistance(cm, next, a, 0) < |cm| <==> exists f :: 0 <= f < |cm| && Evictable(cm[f], a)
  {
    if f :| 0 <= f < |cm| && Evictable(cm[f], a) {
      var d := if next <= f then f - next else f + |cm| - next;
      assert Turn(next, d, |cm|) == f;
    }
  }

  predicate FreeRun(cm: seq<CEntry>, h: nat, n: nat) {
    h + n <= |cm| && forall f | h <= f < h + n :: IsFree(cm[f])
  }

  /** The lowest run of n free frames at or after h, or |cm|. */
  function LowestRun(cm: seq<CEntry>, n: nat, h: nat): (r: nat)
    requires 0 < n && h <= |cm|
    ensures h <= r <= |cm|
    ensures r < |cm| ==> FreeRun(cm, r, n)
    ensures forall k: nat | h <= k < r :: !FreeRun(cm, k, n)
    decreases |cm| - h
  {
    if h == |cm| || FreeRun(cm, h, n) then h else LowestRun(cm, n, h + 1)
  }

  // ---- Blocks ----

  /** The coremap after getMultiplePages took the n frames at h. */
  function TakeBlock(cm: seq<CEntry>, first: nat, h: nat, n: nat, reserved: bool, owner: Option<AsId>): (r: seq<CEntry>)
    requires 0 < n && h + n <= |cm|
    ensures |r| == |cm|
  {
    seq(|cm|, f requires 0 <= f < |cm| =>
      if h <= f < h + n
      then Occupied(if f == h then cm[f].(alloc := n) else cm[f], FrameAddr(first, f) + 0x8000_0000, reserved, owner)
      else cm[f])
  }

  /** The coremap after freepages gave back the block that starts at h. */
  function FreeBlock(cm: seq<CEntry>, h: nat): (r: seq<CEntry>)
    requires h < |cm| && h + cm[h].alloc <= |cm|
    ensures |r| == |cm|
  {
    seq(|cm|, f requires 0 <= f < |cm| =>
      var c := if f == h then cm[f].(alloc := 0) else cm[f];
      if h <= f < h + cm[h].alloc then Emptied(c) else c)
  }

  /** The coremap after freeAs. */
  function FreeOwned(cm: seq<CEntry>, a: AsId): (r: seq<CEntry>)
    ensures |r| == |cm|
  {
    seq(|cm|, f requires 0 <= f < |cm| => if cm[f].owner == Some(a) then Emptied(cm[f]) else cm[f])
  }

  /** freepages undoes getMultiplePages: the coremap is as before the allocation, but for the block length that a
      former block may have left at the head. */
  lemma {:induction false} FreeUndoesTake(cm: seq<CEntry>, first: nat, h: nat, n: nat, reserved: bool,
      owner: Option<AsId>)
    requires 0 < n && FreeRun(cm, h, n)
    requires forall f | 0 <= f < |cm| && IsFree(cm[f]) :: cm[f].vpage == 0 && cm[f].owner == None
    ensures var taken := TakeBlock(cm, first, h, n, reserved, owner);
            taken[h].alloc == n && FreeBlock(taken, h) == cm[h := cm[h].(alloc := 0)]
  {
    var taken := TakeBlock(cm, first, h, n, reserved, owner);
    assert taken[h].alloc == n;
    forall f | 0 <= f < |cm| ensures FreeBlock(taken, h)[f] == cm[h := cm[h].(alloc := 0)][f] {
      if h <= f < h + n { assert IsFree(cm[f]); }
    }
  }

  /** The global coremap array with its round-robin cursor. */
  class Table {
    const entries: array<CEntry>
    const first: nat
    var next: nat

    ghost predicate Valid()
      reads this
    {
      next < entries.Length
    }

    constructor (first: nat, size: nat)
      requires 0 < size
      ensures Valid() && fresh(entries) && entries.Length == size && this.first == first && next == 0
      ensures forall f | 0 <= f < size :: entries[f] == CEntry(0, false, false, None, 0)
    {
      entries := new CEntry[size](_ => CEntry(0, false, false, None, 0));
      this.first := first;
      next := 0;
    }

    /** The first half of getPage: take the first free frame, if there is one. */
    method TakeFree(vpage: nat, reserved: bool, owner: Option<AsId>) returns (i: nat)
      requires Valid()
      modifies entries
      ensures i == FirstFree(old(entries[..]), 0)
      ensures entries[..] == if i < entries.Length
                             then old(entries[..])[i := Occupied(old(entries[i]), vpage, reserved, owner).(alloc := 1)]
                             else old(entries[..])
    {
      i := 0;
      while i < entries.Length
        invariant 0 <= i <= entries.Length
        invariant entries[..] == old(entries[..])
        invariant FirstFree(entries[..], i) == FirstFree(entries[..], 0)
      {
        if IsFree(entries[i]) {
          entries[i] := Occupied(entries[i], vpage, reserved, owner).(alloc := 1);
          return;
        }
        i := i + 1;
      }
    }

    /** swapvictim: the next frame in round-robin order. */
    method NextVictim() returns (i: nat)
      requires Valid()
      modifies this`next
      ensures Valid() && i == old(next) && next == Turn(old(next), 1, entries.Length)
    {
      i := next;
      next := (next + 1) % entries.Length;
    }

    /** The victim loop of getPage: at most entries.Length turns. */
    method FindVictim(a: AsId) returns (i: nat)
      requires Valid()
      requires exists f :: 0 <= f < entries.Length && Evictable(entries[f], a)
      modifies this`next
      ensures Valid()
      ensures var d := VictimDistance(old(entries[..]), old(next), a, 0);
              && d < entries.Length
              && i == Turn(old(next), d, entries.Length)
              && next == Turn(old(next), d + 1, entries.Length)
    {
      ghost var d := 0;
      ghost var was := next;
      assert exists f :: 0 <= f < |entries[..]| && Evictable(entries[..][f], a) by {
        var f :| 0 <= f < entries.Length && Evictable(entries[f], a);
        assert entries[..][f] == entries[f];
      }
      VictimFoundIff(entries[..], was, a);
      while true
        invariant Valid() && d < entries.Length && next == Turn(was, d, entries.Length)
        invariant VictimDistance(entries[..], was, a, d) == VictimDistance(entries[..], was, a, 0)
        decreases entries.Length - d
      {
        i := NextVictim();
        if !entries[i].reserved {
          if entries[i].owner == Some(a) { break; }
        }
        d := d + 1;
      }
    }

    /** getMultiplePages: take the lowest free run of n frames; None is its panic. */
    method TakeRun(n: nat, reserved: bool, owner: Option<AsId>) returns (r: Option<nat>)
      requires Valid() && 0 < n
      modifies entries
      // it fails exactly when there is no free run of that length, and takes the lowest one
      ensures r.None? <==> forall h: nat :: !FreeRun(old(entries[..]), h, n)
      ensures r.None? ==> entries[..] == old(entries[..])
      ensures r.Some? ==> FreeRun(old(entries[..]), r.value, n) && r.value == LowestRun(old(entries[..]), n, 0)
      ensures r.Some? ==> entries[..] == TakeBlock(old(entries[..]), first, r.value, n, reserved, owner)
    {
      ghost var cm := entries[..];
      r := FindRun(n);
      assert entries[..] == cm;
      if r.Some? { MarkRun(r.value, n, reserved, owner); }
    }

    /** The search of getMultiplePages */
    method FindRun(n: nat) returns (r: Option<nat>)
      requires Valid() && 0 < n
      ensures r.None? <==> forall h: nat :: !FreeRun(entries[..], h, n)
      ensures r.Some? ==> FreeRun(entries[..], r.value, n) && r.value == LowestRun(entries[..], n, 0)
    {
      var i, start := 0, 0;
      ghost var cm := entries[..];
      while i < entries.Length
        invariant 0 <= start <= i <= entries.Length
        // the free run that ends before frame i, if any, begins at start and is too short
        invariant 0 < i && IsFree(cm[i - 1]) ==> start < i && i - start < n
        invariant 0 < i && IsFree(cm[i - 1]) ==> forall f | start <= f < i :: IsFree(cm[f])
        invariant 0 < i && IsFree(cm[i - 1]) && 0 < start ==> !IsFree(cm[start - 1])
        invariant forall h: nat | h + n <= i :: !FreeRun(cm, h, n)
      {
        if IsFree(entries[i]) {
          if i == 0 || !IsFree(entries[i - 1]) { start := i; }
          assert forall h: nat | FreeRun(cm, h, n) && h + n == i + 1 :: start <= h;
          if i - start + 1 >= n {
            assert FreeRun(cm, start, n);
            return Some(start);
          }
        } else {
          assert forall h: nat | h + n == i + 1 :: !FreeRun(cm, h, n);
        }
        i := i + 1;
      }
      r := None;
    }

    /** The marking of the frames that were found */
    method MarkRun(start: nat, n: nat, reserved: bool, owner: Option<AsId>)
      requires Valid() && 0 < n && FreeRun(entries[..], start, n)
      modifies entries
      ensures entries[..] == TakeBlock(old(entries[..]), first, start, n, reserved, owner)
    {
      ghost var cm := entries[..];
      entries[start] := entries[start].(alloc := n);
      var i := start;
      while i < start + n
        invariant start <= i <= start + n
        invariant forall f | 0 <= f < entries.Length ::
                    entries[f] == if start <= f < i then TakeBlock(cm, first, start, n, reserved, owner)[f]
                                  else if f == start then cm[f].(alloc := n) else cm[f]
      {
        entries[i] := Occupied(entries[i], FrameAddr(first, i) + 0x8000_0000, reserved, owner);
        i := i + 1;
      }
    }

    /** freepages, for a frame of managed RAM that starts a block. */
    method Release(h: nat)
      requires Valid() && h < entries.Length && h + entries[h].alloc <= entries.Length
      modifies entries
      ensures entries[..] == FreeBlock(old(entries[..]), h)
    {
      ghost var cm := entries[..];
      var n := entries[h].alloc;
      entries[h] := entries[h].(alloc := 0);
      var j := h;
      while j < h + n
        invariant h <= j <= h + n
        invariant forall f | 0 <= f < entries.Length ::
                    entries[f] == var c := if f == h then cm[f].(alloc := 0) else cm[f];
                                  if h <= f < j then Emptied(c) else c
      {
        entries[j] := Emptied(entries[j]);
        j := j + 1;
      }
      assert entries[..] == FreeBlock(cm, h);
    }

    /** freeAs: give back every frame of an address space. */
    method ReleaseOwned(a: AsId)
      requires Valid()
      modifies entries
      ensures entries[..] == FreeOwned(old(entries[..]), a)
    {
      ghost var cm := entries[..];
      var i := 0;
      while i < entries.Length
        invariant 0 <= i <= entries.Length
        invariant forall f | 0 <= f < entries.Length ::
                    entries[f] == if f < i && cm[f].owner == Some(a) then Emptied(cm[f]) else cm[f]
      {
        if entries[i].owner == Some(a) { entries[i] := Emptied(entries[i]); }
        i := i + 1;
      }
      assert entries[..] == FreeOwned(cm, a);
    }
  }
}

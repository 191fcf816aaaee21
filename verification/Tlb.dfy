/** The translation lookaside buffer and its replacement policy (vm_tlb.c). */
module Tlb {
  import opened VmTypes

  /** One slot. An invalidated slot holds a kernel address that matches no user page. */
  datatype Slot = Invalid | Valid(vpage: nat, paddr: nat, dirty: bool)

  /** The slots, the sticky tlb_full flag and the round-robin cursor. */
  datatype Buffer = Buffer(slots: seq<Slot>, full: bool, next: nat)

  ghost predicate WellFormed(t: Buffer) { 0 < |t.slots| && t.next < |t.slots| }

  /** Hardware lookup: the slot that translates a page, or |slots|. */
  function Probe(slots: seq<Slot>, vpage: nat, i: nat): (r: nat)
    requires i <= |slots|
    ensures i <= r <= |slots|
    ensures r < |slots| ==> slots[r].Valid? && slots[r].vpage == vpage
    ensures forall k | i <= k < r :: !(slots[k].Valid? && slots[k].vpage == vpage)
    decreases |slots| - i
  {
    if i == |slots| || (slots[i].Valid? && slots[i].vpage == vpage) then i else Probe(slots, vpage, i + 1)
  }

  function FirstInvalid(slots: seq<Slot>, i: nat): (r: nat)
    requires i <= |slots|
    ensures i <= r <= |slots|
    ensures r < |slots| ==> slots[r].Invalid?
    ensures forall k | i <= k < r :: slots[k].Valid?
    decreases |slots| - i
  {
    if i == |slots| || slots[i].Invalid? then i else FirstInvalid(slots, i + 1)
  }

  /** tlb_loadentry uses a free slot only until the buffer has once been found full. */
  function Load(t: Buffer, vpage: nat, paddr: nat, dirty: bool): (r: Buffer)
    requires WellFormed(t)
    ensures WellFormed(r)
  {
    var e := Valid(vpage, paddr, dirty);
    var i := FirstInvalid(t.slots, 0);
    if !t.full && i < |t.slots| then t.(slots := t.slots[i := e])
    else Buffer(t.slots[t.next := e], true, if t.next + 1 == |t.slots| then 0 else t.next + 1)
  }

  /** Whether a load takes a free slot, as the statistics count it. */
  predicate LoadsFree(t: Buffer) {
    !t.full && FirstInvalid(t.slots, 0) < |t.slots|
  }

  /** tlb_invalidate_vaddr */
  function Drop(t: Buffer, vpage: nat): (r: Buffer)
    requires WellFormed(t)
    ensures WellFormed(r)
  {
    var i := Probe(t.slots, vpage, 0);
    if i < |t.slots| then t.(slots := t.slots[i := Invalid]) else t
  }

  /** tlb_invalidate, which resets neither the full flag nor the cursor */
  function Flush(t: Buffer): Buffer {
    t.(slots := seq(|t.slots|, i => Invalid))
  }

  /** No page is translated twice. */
  ghost predicate NoDuplicates(slots: seq<Slot>) {
    forall i, j | 0 <= i < j < |slots| && slots[i].Valid? && slots[j].Valid? :: slots[i].vpage != slots[j].vpage
  }

  predicate Holds(slots: seq<Slot>, vpage: nat) { Probe(slots, vpage, 0) < |slots| }

  /** After a load the page has its new translation, and one slot at most has changed. */
  lemma {:induction false} LoadEffect(t: Buffer, vpage: nat, paddr: nat, dirty: bool)
    requires WellFormed(t) && NoDuplicates(t.slots) && !Holds(t.slots, vpage)
    ensures var r := Load(t, vpage, paddr, dirty);
            && NoDuplicates(r.slots) && |r.slots| == |t.slots|
            && Holds(r.slots, vpage) && r.slots[Probe(r.slots, vpage, 0)] == Valid(vpage, paddr, dirty)
            && (forall i | 0 <= i < |r.slots| :: r.slots[i] == t.slots[i] || r.slots[i] == Valid(vpage, paddr, dirty))
            && forall i, j | 0 <= i < j < |r.slots| :: r.slots[i] == t.slots[i] || r.slots[j] == t.slots[j]
  {
    var r := Load(t, vpage, paddr, dirty);
    var i := if LoadsFree(t) then FirstInvalid(t.slots, 0) else t.next;
    assert r.slots[i] == Valid(vpage, paddr, dirty);
  }

  /** After a drop exactly the slots of that page are invalid; all others, the full flag and the cursor stay. */
  lemma {:induction false} DropEffect(t: Buffer, vpage: nat)
    requires WellFormed(t) && NoDuplicates(t.slots)
    ensures var r := Drop(t, vpage);
            && NoDuplicates(r.slots) && !Holds(r.slots, vpage) && |r.slots| == |t.slots| && r == t.(slots := r.slots)
            && forall i | 0 <= i < |r.slots| ::
                 r.slots[i] == if t.slots[i].Valid? && t.slots[i].vpage == vpage then Invalid else t.slots[i]
  {
  }

  /** The hardware buffer, written slot by slot. */
  class Device {
    const slots: array<Slot>
    var full: bool
    var next: nat

    ghost predicate Valid()
      reads this
    {
      next < slots.Length
    }

    ghost function View(): Buffer
      reads this, slots
    {
      Buffer(slots[..], full, next)
    }

    constructor (size: nat)
      requires 0 < size
      ensures Valid() && fresh(slots) && View() == Buffer(seq(size, i => Invalid), false, 0)
    {
      slots := new Slot[size](_ => Invalid);
      full := false;
      next := 0;
      new;
      assert slots[..] == seq(size, i => Invalid);
    }

    method LoadEntry(vpage: nat, paddr: nat, readOnly: bool) returns (free: bool)
      requires Valid()
      modifies this, slots
      ensures Valid()
      ensures View() == Load(old(View()), vpage, paddr, !readOnly)
      ensures free == LoadsFree(old(View()))
    {
      if !full {
        var i := 0;
        while i < slots.Length
          invariant 0 <= i <= slots.Length
          invariant View() == old(View())
          invariant FirstInvalid(slots[..], i) == FirstInvalid(slots[..], 0)
        {
          if slots[i].Invalid? {
            slots[i] := Slot.Valid(vpage, paddr, !readOnly);
            return true;
          }
          i := i + 1;
        }
        full := true;
      }
      var k := RoundRobinVictim();
      slots[k] := Slot.Valid(vpage, paddr, !readOnly);
      free := false;
    }

    method RoundRobinVictim() returns (k: nat)
      requires Valid()
      modifies this`next
      ensures Valid() && k == old(next) && next == if k + 1 == slots.Length then 0 else k + 1
    {
      k := next;
      next := (next + 1) % slots.Length;
    }

    method Invalidate()
      requires Valid()
      modifies slots
      ensures Valid() && View() == Flush(old(View()))
    {
      var i := 0;
      while i < slots.Length
        invariant 0 <= i <= slots.Length
        invariant forall k | 0 <= k < i :: slots[k] == Invalid
      {
        slots[i] := Invalid;
        i := i + 1;
      }
      assert slots[..] == seq(slots.Length, k => Invalid);
    }

    method InvalidateVaddr(vaddr: nat)
      requires Valid()
      modifies slots
      ensures Valid() && View() == Drop(old(View()), PageOf(vaddr))
    {
      var i := Probe(slots[..], PageOf(vaddr), 0);
      if i < slots.Length { slots[i] := Invalid; }
    }
  }
}

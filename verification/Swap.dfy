/** The swap file: a bitmap of page slots, a counter and the slots' contents (swapfile.c). */
module Swap {
  import opened VmTypes

  /** bits is the set of marked slots of the bitmap; the 16-bit counter `used` is kept beside it. */
  datatype Store = Store(pages: seq<Page>, bits: set<nat>, used: nat)

  /** The bitmap and the counter agree. */
  ghost predicate WellFormed(s: Store) {
    && (forall b | b in s.bits :: b < |s.pages|)
    && s.used == |s.bits| % 0x1_0000
  }

  /** bitmap_alloc: the lowest unmarked slot at or after i, or n. */
  function FreeSlot(bits: set<nat>, n: nat, i: nat): (r: nat)
    requires i <= n
    ensures i <= r <= n
    ensures r < n ==> r !in bits
    ensures forall k | i <= k < r :: k in bits
    decreases n - i
  {
    if i == n || i !in bits then i else FreeSlot(bits, n, i + 1)
  }

  function SwapOut(s: Store, page: Page): (r: Option<(Store, nat)>)
    // fails exactly when every slot is taken
    ensures r.None? <==> forall k | 0 <= k < |s.pages| :: k in s.bits
    // otherwise a slot that was free now holds the page, and no other slot changed
    ensures r.Some? ==>
              var (t, slot) := r.value;
              && slot < |s.pages| == |t.pages| && slot !in s.bits && t.bits == s.bits + {slot}
              && t.pages[slot] == page && (forall k | 0 <= k < |s.pages| && k != slot :: t.pages[k] == s.pages[k])
              && (WellFormed(s) ==> WellFormed(t))
  {
    var slot := FreeSlot(s.bits, |s.pages|, 0);
    if slot == |s.pages| then None
    else Some((Store(s.pages[slot := page], s.bits + {slot}, (s.used + 1) % 0x1_0000), slot))
  }

  /** swap_in with toRemove, and clear_swap: the slot is unmarked and the counter decremented. */
  function Unmark(s: Store, slot: nat): (r: Store)
    requires slot in s.bits && WellFormed(s)
    ensures WellFormed(r) && r.bits == s.bits - {slot} && r.pages == s.pages
  {
    Store(s.pages, s.bits - {slot}, (s.used + 0xFFFF) % 0x1_0000)
  }

  /** getAvailableSwap: the size of the file in bytes minus a number of slots, cut to 32 bits. */
  function Available(s: Store): nat { (4096 * |s.pages| - s.used) % 0x1_0000_0000 }

  /** So the test for free swap space never fails on a swap file below 4 GiB that has a slot, full or not. */
  lemma {:induction false} AvailableWhen(s: Store)
    requires WellFormed(s) && 0 < |s.pages| && 4096 * |s.pages| < 0x1_0000_0000
    ensures Available(s) > 0
  {
    BitsBounded(s.bits, |s.pages|);
  }

  /** The test of getPage for swap space tells whether swap_out will find a slot, on files below 4 GiB, exactly when a
      slot is free or the file has none at all. */
  lemma {:induction false} SwapTestIff(s: Store, page: Page)
    requires WellFormed(s) && 4096 * |s.pages| < 0x1_0000_0000
    ensures (Available(s) > 0 <==> SwapOut(s, page).Some?)
            <==> |s.pages| == 0 || exists k :: 0 <= k < |s.pages| && k !in s.bits
  {
    if |s.pages| > 0 { AvailableWhen(s); } else { BitsBounded(s.bits, 0); }
  }

  /** A file of one slot that is full and passes the test. */
  lemma {:induction false} FullSwapPasses(page: Page)
    ensures var s := Store([page], {0}, 1); WellFormed(s) && Available(s) > 0 && SwapOut(s, page).None?
  {
    AvailableWhen(Store([page], {0}, 1));
  }

  lemma {:induction false} BitsBounded(bits: set<nat>, n: nat)
    requires forall b | b in bits :: b < n
    ensures |bits| <= n
  {
    if n == 0 {
      assert bits == {};
    } else {
      BitsBounded(bits - {n - 1}, n - 1);
    }
  }

  /** A page that is swapped out and in again is unchanged, and so is the set of free slots. */
  lemma {:induction false} SwapRoundTrip(s: Store, page: Page)
    requires WellFormed(s) && SwapOut(s, page).Some?
    ensures var (t, slot) := SwapOut(s, page).value;
            && t.pages[slot] == page
            && Unmark(t, slot).bits == s.bits && Unmark(t, slot).used == s.used
  {
    var (t, slot) := SwapOut(s, page).value;
    assert s.bits + {slot} - {slot} == s.bits;
  }

  /** The swap file and its bitmap as the kernel keeps them. */
  class Device {
    const pages: array<Page>
    var bits: set<nat>
    var used: nat

    ghost predicate Valid()
      reads this, pages
    {
      WellFormed(View())
    }

    ghost function View(): Store
      reads this, pages
    {
      Store(pages[..], bits, used)
    }

    constructor (slots: nat)
      ensures Valid() && fresh(pages) && pages.Length == slots && bits == {}
    {
      pages := new Page[slots](_ => ZeroPage());
      bits := {};
      used := 0;
    }

    method BitmapAlloc() returns (r: nat)
      ensures r == FreeSlot(bits, pages.Length, 0)
    {
      r := 0;
      while r < pages.Length && r in bits
        invariant 0 <= r <= pages.Length
        invariant FreeSlot(bits, pages.Length, r) == FreeSlot(bits, pages.Length, 0)
      {
        r := r + 1;
      }
    }

    /** getAvailableSwap */
    function Free(): (n: nat)
      reads this, pages
      ensures n == Available(View())
    {
      (4096 * pages.Length - used) % 0x1_0000_0000
    }

    /** swap_out; None is a failing bitmap_alloc, on which the caller's assertion stops the kernel. */
    method Out(page: Page) returns (slot: Option<nat>)
      requires Valid()
      modifies this, pages
      ensures Valid()
      ensures slot.None? <==> SwapOut(old(View()), page).None?
      ensures slot.None? ==> View() == old(View())
      ensures slot.Some? ==> SwapOut(old(View()), page) == Some((View(), slot.value))
    {
      var i := BitmapAlloc();
      if i == pages.Length { return None; }
      bits := bits + {i};
      pages[i] := page;
      used := (used + 1) % 0x1_0000;
      slot := Some(i);
    }

    /** swap_in with toRemove */
    method In(slot: nat) returns (page: Page)
      requires Valid() && slot in bits
      modifies this
      ensures Valid() && View() == Unmark(old(View()), slot) && page == old(pages[slot])
    {
      page := pages[slot];
      bits := bits - {slot};
      used := (used + 0xFFFF) % 0x1_0000;
    }

    /** clear_swap */
    method Clear(slot: nat)
      requires Valid() && slot in bits
      modifies this
      ensures Valid() && View() == Unmark(old(View()), slot)
    {
      bits := bits - {slot};
      used := (used + 0xFFFF) % 0x1_0000;
    }
  }
}

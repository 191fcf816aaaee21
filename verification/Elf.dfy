/** Segments of an executable and the on-demand loading of their pages (addrspace.c, loadelf.c). */
module Elf {
  import opened VmTypes

  /** A region of whole pages. Its size in bytes is npages * 4096. */
  datatype Region = Segment(start: nat, npages: nat, filesize: nat, perm: Perm, offset: nat, initoffset: nat)

  /** The base is page aligned; initoffset is how far into its first page the region really begins. */
  type Segment = s: Region | s.start % 4096 == 0 && s.initoffset < 4096
    witness Segment(0, 0, 0, Perm(false, false, false), 0, 0)

  const TWO32: nat := 0x1_0000_0000

  /** as_define_region: round the base down and the length up to whole pages, in 32-bit arithmetic. */
  function DefineRegion(vaddr: nat, memsize: nat, filesize: nat, perm: Perm, offset: nat): (seg: Segment)
    ensures seg.start + seg.initoffset == vaddr
  {
    var grown := (memsize + vaddr % 4096) % 0x1_0000_0000;
    var rounded := (grown + 4095) % 0x1_0000_0000;
    Segment(PageOf(vaddr), rounded / 4096, filesize, perm, offset, vaddr % 4096)
  }

  /** The pages of a region are the least run of pages that covers [vaddr, vaddr + memsize),
      exactly when the rounding does not wrap around 32 bits. */
  lemma {:induction false} RegionCoversIff(vaddr: nat, memsize: nat, filesize: nat, perm: Perm, offset: nat)
    requires vaddr < TWO32 && memsize < TWO32
    ensures var seg := DefineRegion(vaddr, memsize, filesize, perm, offset);
            var fits := memsize + vaddr % 4096 + 4095 < TWO32;
            && (vaddr + memsize <= seg.start + seg.npages * 4096 <==> fits)
            && (fits ==> seg.start + seg.npages * 4096 < vaddr + memsize + 4096)
  {
    var need := memsize + vaddr % 4096;
    if need < TWO32 && TWO32 <= need + 4095 {
      assert (need + 4095) % 0x1_0000_0000 == need + 4095 - TWO32;
    }
  }

  /** Bytes load_elf_ondemand asks for, for the page that lies amt bytes into the segment. */
  function TransferSize(seg: Segment, amt: nat): (n: nat)
    ensures TransferAt(seg, amt) + n <= 4096
  {
    if amt == 0 then 4096 - seg.initoffset
    else if seg.filesize < amt then 0
    else if seg.filesize - amt > 4096 then 4096
    else seg.filesize - amt
  }

  /** Where in the frame the transfer begins. */
  function TransferAt(seg: Segment, amt: nat): nat {
    if amt == 0 then seg.initoffset else 0
  }

  /** The byte that a load leaves at offset o of the frame; None where the frame keeps its old byte. */
  function Transferred(seg: Segment, file: seq<byte>, amt: nat, o: nat): Option<byte>
  {
    var at := TransferAt(seg, amt);
    if at <= o < at + TransferSize(seg, amt) && seg.offset + amt + (o - at) < |file|
    then Some(file[seg.offset + amt + (o - at)])
    else None
  }

  function LoadedPage(seg: Segment, file: seq<byte>, amt: nat, prior: Page): (p: Page)
    ensures forall o | 0 <= o < 4096 ::
              p[o] == if Transferred(seg, file, amt, o).Some? then Transferred(seg, file, amt, o).value else prior[o]
  {
    seq(4096, o requires 0 <= o < 4096 =>
      if Transferred(seg, file, amt, o).Some? then Transferred(seg, file, amt, o).value else prior[o])
  }

  /** load_elf_ondemand followed by load_segment: copy from the file into the frame, byte by byte.
      `complete` is false on a short read (ENOEXEC), which the fault handler ignores. */
  method LoadOnDemand(seg: Segment, file: seq<byte>, amt: nat, prior: Page) returns (p: Page, complete: bool)
    requires amt < seg.npages * 4096 && amt % 4096 == 0
    ensures p == LoadedPage(seg, file, amt, prior)
    ensures complete <==> TransferSize(seg, amt) == 0 || seg.offset + amt + TransferSize(seg, amt) <= |file|
  {
    var filesize := if seg.filesize < amt then 0
                    else if seg.filesize - amt > 4096 then 4096 else seg.filesize - amt;
    var memsize := if seg.npages * 4096 - amt > 4096 then 4096 else seg.npages * 4096 - amt;
    var at := 0;
    if amt == 0 {
      memsize := memsize - seg.initoffset;
      filesize := memsize;
      at := seg.initoffset;
    }
    assert filesize == TransferSize(seg, amt) && filesize <= memsize;
    var offset := seg.offset + amt;
    var bytes: seq<byte> := prior;
    var done := 0;
    while done < filesize && offset + done < |file|
      invariant 0 <= done <= filesize && |bytes| == 4096
      invariant done > 0 ==> offset + done <= |file|
      invariant forall o | 0 <= o < 4096 :: bytes[o] == if at <= o < at + done then file[offset + o - at] else prior[o]
    {
      bytes := bytes[at + done := file[offset + done]];
      done := done + 1;
    }
    complete := done == filesize;
    p := bytes;
    assert p == LoadedPage(seg, file, amt, prior);
  }

  // ---- What the executable promises ----

  /** Byte o of page k of the segment is backed by the file: it lies in [vaddr, vaddr + filesz). */
  predicate FileBacked(seg: Segment, k: nat, o: nat) {
    seg.initoffset <= k * 4096 + o < seg.initoffset + seg.filesize
  }

  /** Loading page k puts every file-backed byte of that page at its place,
      whatever the frame held before. */
  ghost predicate PageTiles(seg: Segment, file: seq<byte>, k: nat)
    requires seg.offset + seg.filesize <= |file|
  {
    forall o, prior: Page | 0 <= o < 4096 && FileBacked(seg, k, o) ::
      LoadedPage(seg, file, k * 4096, prior)[o] == file[seg.offset + (k * 4096 + o - seg.initoffset)]
  }

  /** Every page of the segment is loaded from its place in the file: the segment is page aligned, its file-backed
      bytes all lie in its first page, or it has no other page. */
  predicate Loadable(seg: Segment) {
    seg.initoffset == 0 || seg.initoffset + seg.filesize <= 4096 || seg.npages <= 1
  }

  /** The loader tiles the file image, for every file, exactly when the segment is loadable. */
  lemma {:induction false} TilesIff(seg: Segment)
    ensures (forall file: seq<byte>, k: nat | seg.offset + seg.filesize <= |file| && k < seg.npages ::
               PageTiles(seg, file, k))
            <==> Loadable(seg)
  {
    if Loadable(seg) {
      forall file: seq<byte>, k: nat | seg.offset + seg.filesize <= |file| && k < seg.npages
        ensures PageTiles(seg, file, k)
      {
        TilesWhenAligned(seg, file, k);
      }
    } else {
      MisalignedFails(seg);
    }
  }

  /** A misaligned segment with file-backed bytes beyond its first page, and a file of which its second page shows the
      wrong bytes. */
  lemma {:induction false} MisalignedFails(seg: Segment)
    requires !Loadable(seg)
    ensures exists file: seq<byte> :: seg.offset + seg.filesize <= |file| && !PageTiles(seg, file, 1)
  {
    var n := seg.offset + seg.filesize;
    var hot := seg.offset + 4096 - seg.initoffset;
    var file: seq<byte> := seq(n, i => if i == hot then 1 else 0);
    var page := LoadedPage(seg, file, 1 * 4096, ZeroPage());
    assert FileBacked(seg, 1, 0);
    assert page[0] == 0 && file[seg.offset + (1 * 4096 + 0 - seg.initoffset)] == 1;
    assert !PageTiles(seg, file, 1);
  }

  lemma {:induction false} TransferTiles(seg: Segment, file: seq<byte>, k: nat, o: nat)
    requires seg.offset + seg.filesize <= |file| && o < 4096 && FileBacked(seg, k, o)
    requires seg.initoffset == 0 || seg.initoffset + seg.filesize <= 4096 || k == 0
    ensures Transferred(seg, file, k * 4096, o) == Some(file[seg.offset + (k * 4096 + o - seg.initoffset)])
  {
  }

  lemma {:induction false} TilesWhenAligned(seg: Segment, file: seq<byte>, k: nat)
    requires seg.offset + seg.filesize <= |file| && Loadable(seg) && k < seg.npages
    ensures PageTiles(seg, file, k)
  {
    forall o, prior: Page | 0 <= o < 4096 && FileBacked(seg, k, o)
      ensures LoadedPage(seg, file, k * 4096, prior)[o] == file[seg.offset + (k * 4096 + o - seg.initoffset)]
    {
      TransferTiles(seg, file, k, o);
    }
  }

  /** A page is loaded the same way whatever the frame held before. */
  ghost predicate LoadIgnoresFrame(seg: Segment, file: seq<byte>, k: nat)
  {
    forall old1: Page, old2: Page :: LoadedPage(seg, file, k * 4096, old1) == LoadedPage(seg, file, k * 4096, old2)
  }

  /** The transfer of page k covers the whole page, and the file is long enough for it. */
  predicate WholePage(seg: Segment, file: seq<byte>, k: nat) {
    && (if k == 0 then seg.initoffset == 0 else (k + 1) * 4096 <= seg.filesize)
    && seg.offset + (k + 1) * 4096 <= |file|
  }

  /** Nothing zeroes the rest of a page, so a page is free of stale bytes exactly when the transfer covers all of it.
      This is the condition for a dropped read-only page to come back unchanged in every byte. */
  lemma {:induction false} NoStaleBytesIff(seg: Segment, file: seq<byte>, k: nat)
    ensures LoadIgnoresFrame(seg, file, k) <==> WholePage(seg, file, k)
  {
    var amt := k * 4096;
    if WholePage(seg, file, k) {
      assert TransferAt(seg, amt) == 0 && TransferSize(seg, amt) == 4096;
      forall old1: Page, old2: Page
        ensures LoadedPage(seg, file, k * 4096, old1) == LoadedPage(seg, file, k * 4096, old2)
      {
        assert forall o | 0 <= o < 4096 :: Transferred(seg, file, amt, o).Some?;
      }
    } else {
      var o := if k == 0 && seg.initoffset != 0 then 0 else 4095;
      assert Transferred(seg, file, amt, o).None?;
      var ones: Page := seq(4096, i => 1);
      assert LoadedPage(seg, file, k * 4096, ones)[o] == 1 && LoadedPage(seg, file, k * 4096, ZeroPage())[o] == 0;
    }
  }
}

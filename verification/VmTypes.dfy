/** Values shared by the virtual memory modules. */
module VmTypes {
  datatype Option<+T> = None | Some(value: T)

  type byte = x: int | 0 <= x < 256

  /** The contents of one page of RAM, of swap or of user memory. */
  type Page = s: seq<byte> | |s| == 4096 witness seq(4096, i => 0)

  /** An address space is named by a number, as the kernel names it by a pointer. Names may be reused. */
  type AsId = nat

  datatype Perm = Perm(r: bool, w: bool, x: bool)

  function ZeroPage(): (p: Page)
    ensures forall o | 0 <= o < 4096 :: p[o] == 0
  {
    seq(4096, i => 0)
  }

  /** `va & PAGE_FRAME`: the address of the page that holds va. */
  function PageOf(va: nat): (p: nat)
    ensures p % 4096 == 0 && p <= va < p + 4096
  {
    va - va % 4096
  }
}

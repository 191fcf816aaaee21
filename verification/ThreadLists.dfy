/** Threads and the lists they wait on, shared by the thread system and the synchronization primitives. */
module ThreadLists {
  /** A thread is named by a number, as the kernel names it by a pointer. */
  type Tid = nat

  /** No thread is on the list twice. */
  ghost predicate Distinct(q: seq<Tid>) {
    forall i, j | 0 <= i < j < |q| :: q[i] != q[j]
  }
}

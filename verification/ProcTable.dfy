/** The process table (proc.c): pids are slots 1 to 100, handed out by a circular search after the last one. */
module ProcTable {
  import opened VmTypes

  type Ptr = nat

  /** proc[] of processTable; slot 0 is not used. */
  type Table = seq<Option<Ptr>>

  predicate WellFormed(table: Table, last: nat) {
    && |table| == 101 && last <= 100 && table[0].None?
    && (last == 0 ==> forall i | 1 <= i <= 100 :: table[i].None?)
  }

  /** The slot k places after last, wrapping from 100 to 1 */
  function After(last: nat, k: nat): (i: nat)
    requires last <= 100 && 1 <= k <= 100
    ensures 1 <= i <= 100
  {
    if last + k <= 100 then last + k else last + k - 100
  }

  /** A process can get a pid: some slot other than the last one handed out is free. */
  predicate HasRoom(table: Table, last: nat)
    requires |table| == 101
  {
    exists i | 1 <= i <= 100 :: i != last && table[i].None?
  }

  /** The circular search of proc_init_waitpid from the k-th slot after last: the pid, or 0. It ends before it is back
      at last. */
  function NextPid(table: Table, last: nat, k: nat): (pid: nat)
    requires |table| == 101 && last <= 100 && 1 <= k <= 100
    ensures pid <= 100 && (pid != 0 ==> pid != last && table[pid].None?)
    decreases 100 - k
  {
    var i := After(last, k);
    if i == last then 0 else if table[i].None? then i else if k == 100 then 0 else NextPid(table, last, k + 1)
  }

  /** proc_search_pid: the entry of a pid; None where an assertion stops the kernel. */
  function SearchPid(table: Table, pid: int): Option<Ptr>
    requires |table| == 101
  {
    if 0 <= pid < 100 then table[pid] else None
  }

  /** Which slot the search takes: the first free one after last, if there is room at all. */
  lemma {:induction false} NextPidFirst(table: Table, last: nat, k: nat)
    requires |table| == 101 && last <= 100 && 1 <= k <= 100
    ensures var pid := NextPid(table, last, k);
            if pid == 0 then forall j | k <= j <= 100 && After(last, j) != last :: table[After(last, j)].Some?
            else exists j ::
              k <= j <= 100 && pid == After(last, j) && forall i | k <= i < j :: table[After(last, i)].Some?
    decreases 100 - k
  {
    var i := After(last, k);
    if i != last && table[i].Some? && k < 100 {
      NextPidFirst(table, last, k + 1);
    } else if i != last && table[i].None? {
      assert i == After(last, k);
    }
  }

  /** A pid is handed out exactly when there is room. */
  lemma {:induction false} PidIff(table: Table, last: nat)
    requires |table| == 101 && last <= 100
    ensures NextPid(table, last, 1) != 0 <==> HasRoom(table, last)
  {
    NextPidFirst(table, last, 1);
    if NextPid(table, last, 1) == 0 {
      forall s | 1 <= s <= 100 && s != last ensures table[s].Some? {
        assert s == After(last, if s > last then s - last else s + 100 - last);
      }
    }
  }

  /** A table with a free slot that counts as full, because slot last is never tried. */
  lemma {:induction false} FreeSlotRefused(last: nat)
    requires 1 <= last <= 100
    ensures var table := seq(101, i => if i == 0 || i == last then None else Some(i));
            WellFormed(table, last) && table[last].None? && NextPid(table, last, 1) == 0
  {
    PidIff(seq(101, i => if i == 0 || i == last then None else Some(i)), last);
  }

  /** A pid just handed out finds its process exactly when it is not 100. */
  lemma {:induction false} SearchFindsIff(table: Table, last: nat, p: Ptr)
    requires WellFormed(table, last) && HasRoom(table, last)
    ensures var pid := NextPid(table, last, 1);
            pid != 0 && (SearchPid(table[pid := Some(p)], pid) == Some(p) <==> pid != 100)
  {
    PidIff(table, last);
  }

  /** Pid 100 does get handed out: whenever pid 99 was the last one and slot 100 is free. */
  lemma {:induction false} HundredHandedOut(table: Table, p: Ptr)
    requires WellFormed(table, 99) && table[100].None?
    ensures NextPid(table, 99, 1) == 100 && SearchPid(table[100 := Some(p)], 100).None?
  {
  }

  class Processes {
    const proc: array<Option<Ptr>>
    var lastI: nat

    ghost predicate Valid()
      reads this, proc
    {
      proc.Length == 101 && WellFormed(proc[..], lastI)
    }

    constructor ()
      ensures Valid() && fresh(proc) && lastI == 0 && forall i | 0 <= i < 101 :: proc[i] == None
    {
      proc := new Option<Ptr>[101](_ => None);
      lastI := 0;
    }

    /** proc_init_waitpid; pid 0 stands for the panic that follows. */
    method Alloc(p: Ptr) returns (pid: nat)
      requires Valid()
      modifies this`lastI, proc
      ensures Valid() && pid == NextPid(old(proc[..]), old(lastI), 1)
      ensures if pid == 0 then lastI == old(lastI) && proc[..] == old(proc[..])
              else lastI == pid && proc[..] == old(proc[..])[pid := Some(p)]
    {
      var i := lastI + 1;
      pid := 0;
      if i > 100 { i := 1; }
      ghost var k := 1;
      while i != lastI
        invariant 1 <= k <= 100 && i == After(lastI, k)
        invariant NextPid(proc[..], lastI, k) == NextPid(proc[..], lastI, 1)
        decreases 100 - k
      {
        if proc[i].None? {
          proc[i] := Some(p);
          lastI := i;
          pid := i;
          return;
        }
        assert lastI != 0;
        i := i + 1;
        if i > 100 { i := 1; }
        k := k + 1;
      }
    }

    /** proc_search_pid */
    method Search(pid: int) returns (r: Option<Ptr>)
      requires Valid()
      ensures r == SearchPid(proc[..], pid)
    {
      if !(pid >= 0 && pid < 100) { return None; }
      r := proc[pid];
    }

    /** The table part of proc_end_waitpid */
    method End(pid: nat)
      requires Valid() && 1 <= pid <= 100
      modifies proc
      ensures Valid() && proc[..] == old(proc[..])[pid := None]
    {
      proc[pid] := None;
    }
  }
}

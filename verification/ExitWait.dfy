/** The hand-off between sys__exit and proc_wait (proc.c, proc_syscalls.c): every interleaving of any number of
    processes, each with one thread and one waiter. A pointer is never used for a second process. */
module ExitWait {
  import opened VmTypes
  import opened ProcTable
  import opened ThreadLists
  import S = Semaphore

  /** p_pid, p_status, p_numthreads and p_sem */
  datatype Proc = Proc(pid: nat, status: int, threads: int, sem: S.Sem)

  /** The process's thread: before thread_fork, then through sys__exit(v) */
  datatype Exiter = Unborn | Live | StatusSet(v: int) | Detached(v: int) | Signalled(v: int)

  /** The thread in proc_wait */
  datatype Waiter = Away | Asleep | Woken | Granted | Read(status: int) | Returned(status: int)

  /** The two threads that know of a process outlive it. */
  datatype State = State(procs: map<Ptr, Proc>, table: Table, last: nat, ex: map<Ptr, Exiter>, wt: map<Ptr, Waiter>)

  datatype Step =
    | Create(pid: nat)   // proc_create with proc_init_waitpid
    | Start              // thread_fork with proc_addthread
    | SetStatus(v: int)  // sys__exit: p_status
    | Detach             // sys__exit: proc_remthread
    | Signal             // sys__exit: proc_signal_end; the thread does not touch the process again
    | TryP               // proc_wait: one pass of P
    | ReadStatus         // proc_wait: p_status
    | Destroy            // proc_wait: proc_destroy with proc_end_waitpid

  /** In these semaphores only the waiter sleeps. */
  const WAITER: Tid := 0

  function SetProc(s: State, p: Ptr, x: Proc): State { s.(procs := s.procs[p := x]) }

  /** Whether the step reads or writes the process structure */
  predicate Touches(step: Step) { !step.Create? }

  /** A step by the thread or the waiter of process p. Only program counters guard the steps after creation:
      that the process structure still exists is a theorem, not a guard. */
  ghost predicate Enabled(s: State, p: Ptr, step: Step) {
    match step
    case Create(pid) =>
      p !in s.ex && p !in s.wt && 1 <= pid <= 100 && |s.table| == 101 && pid != s.last && s.table[pid].None?
    case Start => p in s.ex && s.ex[p].Unborn?
    case SetStatus(v) => p in s.ex && s.ex[p].Live?
    case Detach => p in s.ex && s.ex[p].StatusSet?
    case Signal => p in s.ex && s.ex[p].Detached?
    case TryP => p in s.wt && (s.wt[p].Away? || s.wt[p].Woken?)
    case ReadStatus => p in s.wt && s.wt[p].Granted?
    case Destroy => p in s.wt && s.wt[p].Read?
  }

  /** The step on a process structure that exists */
  ghost predicate Effect(s: State, p: Ptr, step: Step, s': State)
    requires Enabled(s, p, step) && (Touches(step) ==> p in s.procs)
  {
    match step
    case Create(pid) =>
      s' == State(s.procs[p := Proc(pid, 0, 0, S.Sem(0, []))], s.table[pid := Some(p)], pid,
                  s.ex[p := Unborn], s.wt[p := Away])
    case Start =>
      s' == SetProc(s, p, s.procs[p].(threads := s.procs[p].threads + 1)).(ex := s.ex[p := Live])
    case SetStatus(v) =>
      s' == SetProc(s, p, s.procs[p].(status := v % 256)).(ex := s.ex[p := StatusSet(v)])
    case Detach =>
      s' == SetProc(s, p, s.procs[p].(threads := s.procs[p].threads - 1)).(ex := s.ex[p := Detached(s.ex[p].v)])
    case Signal =>
      s' == SetProc(s, p, s.procs[p].(sem := S.Post(s.procs[p].sem)))
            .(ex := s.ex[p := Signalled(s.ex[p].v)],
              wt := if s.procs[p].sem.queue == [] then s.wt else s.wt[p := Woken])
    case TryP =>
      s' == SetProc(s, p, s.procs[p].(sem := S.Test(s.procs[p].sem, WAITER)))
            .(wt := s.wt[p := if s.procs[p].sem.count > 0 then Granted else Asleep])
    case ReadStatus => s' == s.(wt := s.wt[p := Read(s.procs[p].status)])
    case Destroy =>
      |s.table| == 101 && s.procs[p].pid <= 100 &&
      s' == s.(procs := s.procs - {p}, table := s.table[s.procs[p].pid := None],
               wt := s.wt[p := Returned(s.wt[p].status)])
  }

  /** Using a structure that was destroyed may do anything. */
  ghost predicate Next(s: State, p: Ptr, step: Step, s': State) {
    Enabled(s, p, step) && (p in s.procs || !Touches(step) ==> Effect(s, p, step, s'))
  }

  ghost predicate Init(s: State) {
    && s.procs == map[] && s.ex == map[] && s.wt == map[] && s.last == 0
    && |s.table| == 101 && forall i | 0 <= i < 101 :: s.table[i].None?
  }

  ghost predicate Run(ss: seq<State>, ps: seq<Ptr>, steps: seq<Step>) {
    && |ss| == |steps| + 1 && |ps| == |steps| && Init(ss[0])
    && forall i | 0 <= i < |steps| :: Next(ss[i], ps[i], steps[i], ss[i + 1])
  }

  // ---- Invariant ----

  /** The thread and the waiter of a process agree with its structure. */
  predicate Agrees(x: Proc, e: Exiter, w: Waiter) {
    && x.threads == (if e.Live? || e.StatusSet? then 1 else 0)
    && (e.StatusSet? || e.Detached? || e.Signalled? ==> x.status == e.v % 256)
    && (w.Asleep? <==> x.sem.queue == [WAITER]) && (x.sem.queue != [] ==> x.sem.queue == [WAITER])
    // the semaphore's unit appears with the signal and goes to the waiter
    && x.sem.count == (if e.Signalled? && (w.Away? || w.Woken?) then 1 else 0)
    && (w.Granted? || w.Read? || w.Woken? ==> e.Signalled?)
    && (w.Asleep? ==> !e.Signalled?)
    && (w.Read? ==> e.Signalled? && w.status == e.v % 256) && !w.Returned?
  }

  /** A process that is gone was waited for. */
  predicate Gone(e: Exiter, w: Waiter) {
    e.Signalled? && w.Returned? && w.status == e.v % 256
  }

  predicate Consistent(s: State, p: Ptr)
    requires p in s.ex && p in s.wt
  {
    if p in s.procs then Agrees(s.procs[p], s.ex[p], s.wt[p]) else Gone(s.ex[p], s.wt[p])
  }

  /** Every process has its thread and its waiter. */
  ghost predicate PairsOk(s: State) {
    s.ex.Keys == s.wt.Keys && s.procs.Keys <= s.ex.Keys && forall p | p in s.ex :: Consistent(s, p)
  }

  /** A pid names a process exactly when the table says so. */
  ghost predicate TableOk(s: State) {
    && WellFormed(s.table, s.last) && (s.last == 0 ==> s.procs == map[])
    && (forall p | p in s.procs :: 1 <= s.procs[p].pid <= 100 && s.table[s.procs[p].pid] == Some(p))
    && (forall i | 1 <= i <= 100 && s.table[i].Some? ::
          s.table[i].value in s.procs && s.procs[s.table[i].value].pid == i)
  }

  ghost predicate Inv(s: State) {
    PairsOk(s) && TableOk(s)
  }

  /** Whoever takes a step on a process structure finds it there. */
  lemma {:induction false} StillThere(s: State, p: Ptr, step: Step)
    requires PairsOk(s) && Enabled(s, p, step) && Touches(step)
    ensures p in s.procs
  {
    assert Consistent(s, p);
  }

  /** The step leaves a consistent process consistent, present or gone. */
  lemma {:induction false} OwnKeeps(s: State, p: Ptr, step: Step, s': State)
    requires PairsOk(s) && Enabled(s, p, step) && (Touches(step) ==> p in s.procs) && Effect(s, p, step, s')
    ensures p in s'.ex && p in s'.wt && Consistent(s', p)
  {
    if p in s.ex { assert Consistent(s, p); }
  }

  lemma {:induction false} OthersKeep(s: State, p: Ptr, step: Step, s': State, q: Ptr)
    requires PairsOk(s) && Enabled(s, p, step) && (Touches(step) ==> p in s.procs) && Effect(s, p, step, s') && q != p
    ensures q in s'.procs <==> q in s.procs
    ensures q in s.procs ==> s'.procs[q] == s.procs[q]
    ensures q in s'.ex <==> q in s.ex
    ensures q in s'.wt <==> q in s.wt
    ensures q in s.ex ==> s'.ex[q] == s.ex[q] && s'.wt[q] == s.wt[q]
  {
  }

  lemma {:induction false} PairsKeep(s: State, p: Ptr, step: Step, s': State)
    requires PairsOk(s) && Enabled(s, p, step) && (Touches(step) ==> p in s.procs) && Effect(s, p, step, s')
    ensures PairsOk(s')
  {
    OwnKeeps(s, p, step, s');
    forall q | q != p
      ensures (q in s'.ex <==> q in s'.wt) && (q in s'.procs ==> q in s'.ex) && (q in s'.ex ==> Consistent(s', q))
    {
      OthersKeep(s, p, step, s', q);
      if q in s.ex { assert Consistent(s, q); }
    }
  }

  lemma {:induction false} PidStays(s: State, p: Ptr, step: Step, s': State)
    requires Enabled(s, p, step) && Touches(step) && p in s.procs && Effect(s, p, step, s') && !step.Destroy?
    ensures s'.table == s.table && s'.last == s.last && p in s'.procs && s'.procs[p].pid == s.procs[p].pid
  {
  }

  lemma {:induction false} CreateTable(s: State, p: Ptr, pid: nat, s': State)
    requires Inv(s) && Enabled(s, p, Create(pid)) && Effect(s, p, Create(pid), s')
    ensures TableOk(s')
  {
  }

  lemma {:induction false} DestroyTable(s: State, p: Ptr, s': State)
    requires TableOk(s) && Enabled(s, p, Destroy) && p in s.procs && Effect(s, p, Destroy, s')
    ensures TableOk(s')
  {
  }

  lemma {:induction false} TableKeeps(s: State, p: Ptr, step: Step, s': State)
    requires Inv(s) && Enabled(s, p, step) && (Touches(step) ==> p in s.procs) && Effect(s, p, step, s')
    ensures TableOk(s')
  {
    if step.Create? { CreateTable(s, p, step.pid, s'); }
    else if step.Destroy? { DestroyTable(s, p, s'); }
    else {
      PidStays(s, p, step, s');
      forall q | q != p ensures (q in s'.procs <==> q in s.procs) && (q in s.procs ==> s'.procs[q] == s.procs[q]) {
        OthersKeep(s, p, step, s', q);
      }
    }
  }

  lemma {:induction false} StepKeeps(s: State, p: Ptr, step: Step, s': State)
    requires Inv(s) && Next(s, p, step, s')
    ensures Inv(s')
  {
    if Touches(step) { StillThere(s, p, step); }
    PairsKeep(s, p, step, s');
    TableKeeps(s, p, step, s');
  }

  lemma {:induction false} RunInv(ss: seq<State>, ps: seq<Ptr>, steps: seq<Step>, i: nat)
    requires Run(ss, ps, steps) && i <= |steps|
    ensures Inv(ss[i])
  {
    if i > 0 {
      RunInv(ss, ps, steps, i - 1);
      StepKeeps(ss[i - 1], ps[i - 1], steps[i - 1], ss[i]);
    }
  }

  lemma {:induction false} RunStep(ss: seq<State>, ps: seq<Ptr>, steps: seq<Step>, i: nat)
    requires Run(ss, ps, steps) && i < |steps|
    ensures Inv(ss[i]) && Enabled(ss[i], ps[i], steps[i]) && (Touches(steps[i]) ==> ps[i] in ss[i].procs)
    ensures Effect(ss[i], ps[i], steps[i], ss[i + 1])
  {
    RunInv(ss, ps, steps, i);
    assert Next(ss[i], ps[i], steps[i], ss[i + 1]);
    if Touches(steps[i]) { StillThere(ss[i], ps[i], steps[i]); }
  }

  // ---- What every run guarantees ----

  /** No thread touches a process that was destroyed. */
  lemma {:induction false} NoUseAfterDestroy(ss: seq<State>, ps: seq<Ptr>, steps: seq<Step>, i: nat)
    requires Run(ss, ps, steps) && i < |steps| && Touches(steps[i])
    ensures ps[i] in ss[i].procs
  {
    RunStep(ss, ps, steps, i);
  }

  /** The assertions: a thread is attached when sys__exit detaches it, and none is when the process is destroyed. */
  lemma {:induction false} ThreadCounts(ss: seq<State>, ps: seq<Ptr>, steps: seq<Step>, i: nat)
    requires Run(ss, ps, steps) && i < |steps| && Touches(steps[i])
    ensures ps[i] in ss[i].procs
    ensures steps[i].Detach? ==> ss[i].procs[ps[i]].threads > 0
    ensures steps[i].Destroy? ==> ss[i].procs[ps[i]].threads == 0
  {
    RunStep(ss, ps, steps, i);
    assert Consistent(ss[i], ps[i]);
  }

  /** When proc_wait has returned, it returned the low 8 bits of what the process gave to sys__exit. */
  lemma {:induction false} StatusHandedOver(ss: seq<State>, ps: seq<Ptr>, steps: seq<Step>, i: nat, p: Ptr)
    requires Run(ss, ps, steps) && i <= |steps| && p in ss[i].wt && ss[i].wt[p].Returned?
    ensures p in ss[i].ex && ss[i].ex[p].Signalled? && ss[i].wt[p].status == ss[i].ex[p].v % 256 && p !in ss[i].procs
  {
    RunInv(ss, ps, steps, i);
    assert Consistent(ss[i], p);
  }

  /** How often step kind k was taken on p in the first i steps */
  function Times(ps: seq<Ptr>, steps: seq<Step>, p: Ptr, i: nat, signal: bool): nat
    requires i <= |steps| == |ps|
  {
    if i == 0 then 0 else
      var hit := ps[i - 1] == p && if signal then steps[i - 1].Signal? else steps[i - 1].Destroy?;
      Times(ps, steps, p, i - 1, signal) + if hit then 1 else 0
  }

  lemma {:induction false} OwnCounts(s: State, p: Ptr, step: Step, s': State)
    requires PairsOk(s) && Enabled(s, p, step) && (Touches(step) ==> p in s.procs) && Effect(s, p, step, s')
    ensures p in s'.ex && p in s'.wt
    ensures s'.ex[p].Signalled? <==> step.Signal? || (p in s.ex && s.ex[p].Signalled?)
    ensures s'.wt[p].Returned? <==> step.Destroy?
    ensures step.Signal? ==> p in s.ex && !s.ex[p].Signalled?
    ensures p in s.wt ==> !s.wt[p].Returned?
  {
    if p in s.ex { assert Consistent(s, p); }
  }

  /** The process was signalled once if its thread got that far, and destroyed once if the wait returned. */
  lemma {:induction false} Counted(ss: seq<State>, ps: seq<Ptr>, steps: seq<Step>, i: nat, p: Ptr)
    requires Run(ss, ps, steps) && i <= |steps|
    ensures Times(ps, steps, p, i, true) == (if p in ss[i].ex && ss[i].ex[p].Signalled? then 1 else 0)
    ensures Times(ps, steps, p, i, false) == (if p in ss[i].wt && ss[i].wt[p].Returned? then 1 else 0)
  {
    if i > 0 {
      var j := i - 1;
      Counted(ss, ps, steps, j, p);
      RunStep(ss, ps, steps, j);
      if ps[j] != p { OthersKeep(ss[j], ps[j], steps[j], ss[i], p); } else { OwnCounts(ss[j], p, steps[j], ss[i]); }
    }
  }

  /** Destroyed exactly once, and only after the one exit signal */
  lemma {:induction false} DestroyedOnce(ss: seq<State>, ps: seq<Ptr>, steps: seq<Step>, i: nat, j: nat, p: Ptr)
    requires Run(ss, ps, steps) && i < |steps| && ps[i] == p && steps[i].Destroy? && j <= |steps|
    ensures Times(ps, steps, p, i, true) == 1 && Times(ps, steps, p, i, false) == 0
    ensures j > i ==> Times(ps, steps, p, j, false) == 1
  {
    RunStep(ss, ps, steps, i);
    assert Consistent(ss[i], p);
    Counted(ss, ps, steps, i, p);
    if j > i {
      Counted(ss, ps, steps, j, p);
      TimesGrow(ps, steps, p, i + 1, j);
    }
  }

  lemma {:induction false} TimesGrow(ps: seq<Ptr>, steps: seq<Step>, p: Ptr, i: nat, j: nat)
    requires i <= j <= |steps| == |ps|
    ensures Times(ps, steps, p, i, false) <= Times(ps, steps, p, j, false)
  {
    if i < j { TimesGrow(ps, steps, p, i, j - 1); }
  }

  /** Wakeup is not lost: a waiter sleeps only before the signal. */
  lemma {:induction false} SleepsOnlyBeforeSignal(ss: seq<State>, ps: seq<Ptr>, steps: seq<Step>, i: nat, p: Ptr)
    requires Run(ss, ps, steps) && i <= |steps| && p in ss[i].ex && ss[i].ex[p].Signalled?
    ensures p in ss[i].wt && !ss[i].wt[p].Asleep?
  {
    RunInv(ss, ps, steps, i);
    assert Consistent(ss[i], p);
  }

  /** Pids identify processes: two processes never share one. */
  lemma {:induction false} PidsDiffer(ss: seq<State>, ps: seq<Ptr>, steps: seq<Step>, i: nat, p: Ptr, q: Ptr)
    requires Run(ss, ps, steps) && i <= |steps| && p in ss[i].procs && q in ss[i].procs && p != q
    ensures ss[i].procs[p].pid != ss[i].procs[q].pid
  {
    RunInv(ss, ps, steps, i);
  }

  /** proc_search_pid's assertions: the pid of any live process is found, except 100, and what is found has that pid. */
  lemma {:induction false} SearchFindsLive(ss: seq<State>, ps: seq<Ptr>, steps: seq<Step>, i: nat, pid: nat, p: Ptr)
    requires Run(ss, ps, steps) && i <= |steps|
    ensures |ss[i].table| == 101
    ensures SearchPid(ss[i].table, pid) == Some(p) <==> p in ss[i].procs && ss[i].procs[p].pid == pid && pid != 100
  {
    RunInv(ss, ps, steps, i);
    SearchFinds(ss[i], pid, p);
  }

  lemma {:induction false} SearchFinds(s: State, pid: nat, p: Ptr)
    requires TableOk(s)
    ensures SearchPid(s.table, pid) == Some(p) <==> p in s.procs && s.procs[p].pid == pid && pid != 100
  {
  }

  // ---- In place ----

  /** struct proc: p_pid, p_status, p_numthreads and p_sem */
  class Process {
    const sem: S.Semaphore
    var pid: nat
    var status: int
    var threads: int

    ghost function View(): Proc
      reads this, sem
    {
      Proc(pid, status, threads, sem.View())
    }

    /** proc_create, once the pid is known */
    constructor (pid: nat)
      ensures fresh(sem) && View() == Proc(pid, 0, 0, S.Sem(0, []))
    {
      this.pid, status, threads := pid, 0, 0;
      sem := new S.Semaphore(0);
    }
  }

  /** The process structures and the process table, as the functions of the protocol update them. A method is what one
      thread does between two points at which others may run. */
  class Machine {
    const table: Processes
    var procs: map<Ptr, Process>
    ghost var ex: map<Ptr, Exiter>  // where the threads are
    ghost var wt: map<Ptr, Waiter>

    ghost function Objects(): set<object>
      reads this`procs
    {
      (set p | p in procs :: procs[p] as object) + (set p | p in procs :: procs[p].sem as object)
    }

    /** The structure of process p, if there is one */
    ghost function Structure(p: Ptr): set<object>
      reads this`procs
    {
      if p in procs then {procs[p], procs[p].sem} else {}
    }

    ghost predicate Valid()
      reads this`procs, table, table.proc
    {
      && table.Valid()
      && forall p, q | p in procs && q in procs && p != q :: procs[p] != procs[q] && procs[p].sem != procs[q].sem
    }

    ghost function ProcsView(): map<Ptr, Proc>
      reads this`procs, Objects()
    {
      map p | p in procs :: procs[p].View()
    }

    ghost function View(): State
      reads this, table, table.proc, Objects()
    {
      State(ProcsView(), table.proc[..], table.lastI, ex, wt)
    }

    constructor ()
      ensures Valid() && fresh(table) && fresh(table.proc) && Init(View())
    {
      table := new Processes();
      procs, ex, wt := map[], map[], map[];
    }

    ghost method Move(e: map<Ptr, Exiter>, w: map<Ptr, Waiter>)
      requires Valid()
      modifies this`ex, this`wt
      ensures Valid() && View() == old(View()).(ex := e, wt := w)
    {
      ex, wt := e, w;
      assert ProcsView() == old(ProcsView());
    }

    /** A thread writes fields of a process structure and goes on. */
    method WriteProc(p: Ptr, status: int, threads: int, ghost e: map<Ptr, Exiter>)
      requires Valid() && p in procs
      modifies procs[p], this`ex
      ensures Valid()
      ensures View() == SetProc(old(View()), p, old(View()).procs[p].(status := status, threads := threads)).(ex := e)
    {
      procs[p].status, procs[p].threads := status, threads;
      ex := e;
      assert ProcsView() == old(ProcsView())[p := procs[p].View()];
    }

    /** proc_create with proc_init_waitpid, for a new structure. The pid is one that no process has; 0 stands for the
        panic, which happens exactly when every slot but the last one handed out is taken. */
    method CreateProc(p: Ptr) returns (pid: nat)
      requires Valid() && Inv(View()) && p !in ex && p !in procs
      modifies this`procs, this`ex, this`wt, table`lastI, table.proc
      ensures pid == 0 <==> !HasRoom(old(View()).table, old(View()).last)
      ensures pid != 0 ==> Valid() && Next(old(View()), p, Create(pid), View()) && Inv(View())
      ensures pid != 0 ==> forall q | q in old(View()).procs :: old(View()).procs[q].pid != pid
    {
      ghost var s := View();
      PidIff(s.table, s.last);
      pid := TakePid(p);
      if pid == 0 { return; }
      EnterProc(p, pid);
      Move(ex[p := Unborn], wt[p := Away]);
      CreateMeans(s, p, pid, View());
    }

    method TakePid(p: Ptr) returns (pid: nat)
      requires Valid()
      modifies table`lastI, table.proc
      ensures var s := old(View());
              && Valid() && pid == NextPid(s.table, s.last, 1)
              && View() == if pid == 0 then s else s.(table := s.table[pid := Some(p)], last := pid)
    {
      pid := table.Alloc(p);
      assert ProcsView() == old(ProcsView());
    }

    static lemma {:induction false} CreateMeans(s: State, p: Ptr, pid: nat, s': State)
      requires Inv(s) && p !in s.ex && pid == NextPid(s.table, s.last, 1) != 0
      requires s' == State(s.procs[p := Proc(pid, 0, 0, S.Sem(0, []))], s.table[pid := Some(p)], pid,
                           s.ex[p := Unborn], s.wt[p := Away])
      ensures Next(s, p, Create(pid), s') && Inv(s') && forall q | q in s.procs :: s.procs[q].pid != pid
    {
      StepKeeps(s, p, Create(pid), s');
    }

    method EnterProc(p: Ptr, pid: nat)
      requires Valid() && p !in procs
      modifies this`procs
      ensures Valid()
      ensures View() == old(View()).(procs := old(View()).procs[p := Proc(pid, 0, 0, S.Sem(0, []))])
    {
      var x := new Process(pid);
      procs := procs[p := x];
      assert ProcsView() == old(ProcsView())[p := x.View()];
    }

    /** sys_waitpid: proc_search_pid. What it finds is the live process with that pid, so its assertion holds. */
    method LookUp(pid: nat) returns (r: Option<Ptr>)
      requires Valid() && Inv(View())
      ensures forall p :: r == Some(p) <==> p in View().procs && View().procs[p].pid == pid && pid != 100
    {
      r := table.Search(pid);
      forall p ensures r == Some(p) <==> p in View().procs && View().procs[p].pid == pid && pid != 100 {
        SearchFinds(View(), pid, p);
      }
    }

    /** sys__exit: the status */
    method StoreStatus(p: Ptr, v: int)
      requires Valid() && Inv(View()) && Enabled(View(), p, SetStatus(v))
      modifies this`ex, Structure(p)
      ensures Valid() && Next(old(View()), p, SetStatus(v), View()) && Inv(View())
    {
      ghost var s := View();
      StillThere(s, p, SetStatus(v));
      WriteProc(p, v % 256, procs[p].threads, ex[p := StatusSet(v)]);
      StepKeeps(s, p, SetStatus(v), View());
    }

    /** proc_remthread: the assertion that a thread is attached. */
    method RemThread(p: Ptr) returns (attached: bool)
      requires Valid() && Inv(View()) && Enabled(View(), p, Detach)
      modifies this`ex, Structure(p)
      ensures attached && Valid() && Next(old(View()), p, Detach, View()) && Inv(View())
    {
      ghost var s := View();
      StillAttached(s, p);
      attached := procs[p].threads > 0;
      WriteProc(p, procs[p].status, procs[p].threads - 1, ex[p := Detached(ex[p].v)]);
      StepKeeps(s, p, Detach, View());
    }

    static lemma {:induction false} StillAttached(s: State, p: Ptr)
      requires PairsOk(s) && Enabled(s, p, Detach)
      ensures p in s.procs && s.procs[p].threads > 0
    {
      StillThere(s, p, Detach);
      assert Consistent(s, p);
    }

    /** V on p_sem */
    method PostEnd(p: Ptr)
      requires Valid() && p in procs && p in ex && ex[p].Detached?
      modifies this`ex, this`wt, procs[p].sem
      ensures var s := old(View()); var x := s.procs[p];
              && Valid()
              && View() == SetProc(s, p, x.(sem := S.Post(x.sem)))
                           .(ex := s.ex[p := Signalled(s.ex[p].v)],
                             wt := if x.sem.queue == [] then s.wt else s.wt[p := Woken])
    {
      var woken := procs[p].sem.V();
      ex := ex[p := Signalled(ex[p].v)];
      wt := if woken.None? then wt else wt[p := Woken];
      assert ProcsView() == old(ProcsView())[p := procs[p].View()];
    }

    /** The thread of p has gone through sys__exit(v) and left the status for the waiter. */
    static ghost predicate Left(s: State, p: Ptr, v: int) {
      && p in s.procs && s.procs[p].status == v % 256 && s.procs[p].threads == 0
      && p in s.wt && !s.wt[p].Asleep? && (s.procs[p].sem.count == 1 || s.wt[p].Granted? || s.wt[p].Read?)
    }

    static lemma {:induction false} LeftBehind(s: State, p: Ptr, v: int)
      requires PairsOk(s) && p in s.procs && p in s.ex && s.ex[p] == Signalled(v)
      ensures Left(s, p, v)
    {
      assert Consistent(s, p);
    }

    /** proc_signal_end: the low 8 bits of the exit status are left for the waiter, who is not asleep any more. */
    method SignalEnd(p: Ptr)
      requires Valid() && Inv(View()) && Enabled(View(), p, Signal)
      modifies this`ex, this`wt, Structure(p)
      ensures Valid() && Next(old(View()), p, Signal, View()) && Inv(View())
      ensures p in old(ex) && old(ex)[p].Detached? && Left(View(), p, old(ex)[p].v)
    {
      ghost var s := View();
      StillThere(s, p, Signal);
      PostEnd(p);
      StepKeeps(s, p, Signal, View());
      LeftBehind(View(), p, s.ex[p].v);
    }

    method TestEnd(p: Ptr) returns (got: bool)
      requires Valid() && p in procs
      modifies procs[p].sem
      ensures var s := old(View()); var x := s.procs[p];
              Valid() && got == (x.sem.count > 0) && View() == SetProc(s, p, x.(sem := S.Test(x.sem, WAITER)))
    {
      got := procs[p].sem.TryP(WAITER);
      assert ProcsView() == old(ProcsView())[p := procs[p].View()];
    }

    /** proc_wait: a pass of P succeeds exactly when the process has given its exit signal. */
    method PassP(p: Ptr) returns (got: bool)
      requires Valid() && Inv(View()) && Enabled(View(), p, TryP)
      modifies this`ex, this`wt, Structure(p)
      ensures Valid() && Next(old(View()), p, TryP, View()) && Inv(View())
      ensures p in old(ex) && (got <==> old(ex)[p].Signalled?)
    {
      ghost var s := View();
      UnitMeans(s, p);
      got := TestEnd(p);
      Move(ex, wt[p := if got then Granted else Asleep]);
      StepKeeps(s, p, TryP, View());
    }

    /** A waiter that tries P finds a unit exactly when the exit signal was given. */
    static lemma {:induction false} UnitMeans(s: State, p: Ptr)
      requires PairsOk(s) && Enabled(s, p, TryP)
      ensures p in s.procs && p in s.ex && (s.procs[p].sem.count > 0 <==> s.ex[p].Signalled?)
    {
      StillThere(s, p, TryP);
      assert Consistent(s, p);
    }

    /** proc_wait after P */
    method GetStatus(p: Ptr) returns (status: int)
      requires Valid() && Inv(View()) && Enabled(View(), p, ReadStatus)
      modifies this`ex, this`wt
      ensures Valid() && Next(old(View()), p, ReadStatus, View()) && Inv(View())
      ensures p in wt && wt[p] == Read(status)
    {
      ghost var s := View();
      StillThere(s, p, ReadStatus);
      status := procs[p].status;
      Move(ex, wt[p := Read(status)]);
      StepKeeps(s, p, ReadStatus, View());
    }

    /** proc_end_waitpid and the end of the structure */
    method RemoveProc(p: Ptr)
      requires Valid() && p in procs && 1 <= procs[p].pid <= 100
      modifies this`procs, table.proc
      ensures var s := old(View());
              Valid() && View() == s.(procs := s.procs - {p}, table := s.table[s.procs[p].pid := None])
    {
      table.End(procs[p].pid);
      procs := procs - {p};
      assert ProcsView() == old(ProcsView()) - {p};
    }

    /** proc_destroy: the assertion that no thread is attached; the pid finds nothing any more. */
    method DestroyProc(p: Ptr) returns (detached: bool)
      requires Valid() && Inv(View()) && Enabled(View(), p, Destroy)
      modifies this`procs, this`ex, this`wt, table.proc
      ensures detached && Valid() && Next(old(View()), p, Destroy, View()) && Inv(View())
      ensures p in old(View()).procs && p !in View().procs && View().table[old(View()).procs[p].pid].None?
    {
      ghost var s := View();
      StillThere(s, p, Destroy);
      assert Consistent(s, p);
      detached := procs[p].threads == 0;
      RemoveProc(p);
      Move(ex, wt[p := Returned(wt[p].status)]);
      StepKeeps(s, p, Destroy, View());
    }

    /** The end of proc_wait: the process is gone, and the result is the low 8 bits of its exit status. */
    method Collect(p: Ptr) returns (status: int)
      requires Valid() && Inv(View()) && Enabled(View(), p, ReadStatus)
      modifies this`procs, this`ex, this`wt, table.proc
      ensures Valid() && Inv(View()) && p !in View().procs && p in ex && ex[p].Signalled? && status == ex[p].v % 256
    {
      status := GetStatus(p);
      var detached := DestroyProc(p);
      assert Consistent(View(), p);
    }
  }
}

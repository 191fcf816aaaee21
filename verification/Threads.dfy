/** Threads, CPUs and wait channels (thread.c): every interleaving of the sections that run under a run queue's
    or a wait channel's spinlock, on any number of CPUs. Thread lists are sequences. */
module Threads {
  import opened ThreadLists

  type CpuId = nat

  /** Where a thread can be. Waking(c) is what CPU c has taken off a wait channel and not yet made runnable;
      Victims(c) is what thread_consider_migration holds on CPU c. */
  datatype Place =
    | RunQ(c: CpuId) | Wchan(w: nat) | Zombies(c: CpuId) | Victims(c: CpuId) | Waking(c: CpuId)
    | Current(c: CpuId)

  /** How far thread_consider_migration has got on a CPU. */
  datatype Mig =
    | Off
    | Counting(i: nat, my: nat, total: nat)
    | Choosing(chosen: nat, send: nat, share: nat)
    | Placing(d: nat, send: nat, share: nat, rotated: bool)
    | Returning

  /** c_curthread, c_isidle and the migration in progress */
  datatype Cpu = Cpu(cur: Tid, idle: bool, mig: Mig)

  type Lists = map<Place, seq<Tid>>

  /** home is t_cpu; its domain is the set of threads that exist. */
  datatype State = State(cpus: seq<Cpu>, lists: Lists, home: map<Tid, CpuId>)

  function Q(lists: Lists, p: Place): seq<Tid> {
    if p in lists then lists[p] else []
  }

  function Push(lists: Lists, p: Place, t: Tid): Lists {
    lists[p := Q(lists, p) + [t]]
  }

  function PushHead(lists: Lists, p: Place, t: Tid): Lists {
    lists[p := [t] + Q(lists, p)]
  }

  function Pop(lists: Lists, p: Place): Lists
    requires Q(lists, p) != []
  {
    lists[p := Q(lists, p)[1..]]
  }

  function PopTail(lists: Lists, p: Place): Lists
    requires Q(lists, p) != []
  {
    lists[p := Q(lists, p)[..|Q(lists, p)| - 1]]
  }

  function Head(lists: Lists, p: Place): Tid
    requires Q(lists, p) != []
  {
    Q(lists, p)[0]
  }

  function Tail(lists: Lists, p: Place): Tid
    requires Q(lists, p) != []
  {
    Q(lists, p)[|Q(lists, p)| - 1]
  }

  // ---- Steps ----

  /** thread_make_runnable */
  function MakeRunnable(s: State, t: Tid): State
    requires t in s.home
  {
    s.(lists := Push(s.lists, RunQ(s.home[t]), t))
  }

  /** The first half of thread_switch: the current thread goes on a list and the CPU is idle. */
  function Leave(s: State, c: CpuId, p: Place): State
    requires c < |s.cpus|
  {
    s.(lists := Push(s.lists, p, s.cpus[c].cur), cpus := s.cpus[c := s.cpus[c].(idle := true)])
  }

  /** The second half: the head of the run queue becomes the current thread. */
  function Dispatched(s: State, c: CpuId): State
    requires c < |s.cpus| && Q(s.lists, RunQ(c)) != []
  {
    s.(lists := Pop(s.lists, RunQ(c)), cpus := s.cpus[c := s.cpus[c].(cur := Head(s.lists, RunQ(c)), idle := false)])
  }

  function SetMig(s: State, c: CpuId, m: Mig): State
    requires c < |s.cpus|
  {
    s.(cpus := s.cpus[c := s.cpus[c].(mig := m)])
  }

  /** DIVROUNDUP */
  function Share(total: nat, n: nat): nat
    requires n > 0
  {
    (total + n - 1) / n
  }

  /** One pass of a loop of thread_consider_migration on CPU c, or the decision between two loops.
      Where the source would take a thread from an empty list, the model has no step: see MigrationNeverStuck. */
  ghost predicate MigStep(s: State, c: CpuId, s': State) {
    c < |s.cpus| &&
    var n := |s.cpus|;
    match s.cpus[c].mig
    case Off => s' == SetMig(s, c, Counting(0, 0, 0))
    case Counting(i, my, total) =>
      if i < n then
        var k := |Q(s.lists, RunQ(i))|;
        s' == SetMig(s, c, Counting(i + 1, if i == c then k else my, total + k))
      else
        var share := Share(total, n);
        s' == SetMig(s, c, if my < share then Off else Choosing(0, my - share, share))
    case Choosing(chosen, send, share) =>
      if chosen < send then
        Q(s.lists, RunQ(c)) != [] &&
        var t := Tail(s.lists, RunQ(c));
        s' == SetMig(s.(lists := PushHead(PopTail(s.lists, RunQ(c)), Victims(c), t)), c,
                     Choosing(chosen + 1, send, share))
      else
        s' == SetMig(s, c, Placing(0, send, share, false))
    case Placing(d, send, share, rotated) =>
      if d < n && send > 0 then
        if d == c || |Q(s.lists, RunQ(d))| >= share then
          s' == SetMig(s, c, Placing(d + 1, send, share, rotated))
        else
          Q(s.lists, Victims(c)) != [] &&
          var t := Head(s.lists, Victims(c));
          var rest := Pop(s.lists, Victims(c));
          if t == s.cpus[c].cur then
            s' == SetMig(s.(lists := Push(rest, Victims(c), t)), c, Placing(d, send - 1, share, true))
          else
            s' == SetMig(s.(lists := Push(rest, RunQ(d), t), home := s.home[t := d]), c,
                         Placing(d, send - 1, share, rotated))
      else
        s' == SetMig(s, c, Returning)
    case Returning =>
      if Q(s.lists, Victims(c)) == [] then
        s' == SetMig(s, c, Off)
      else
        s' == s.(lists := Push(Pop(s.lists, Victims(c)), RunQ(c), Head(s.lists, Victims(c))))
  }

  datatype Step =
    | Fork(t: Tid)      // thread_fork
    | Yield             // thread_yield, when another thread is ready
    | Sleep(w: nat)     // wchan_sleep
    | Exit              // thread_exit
    | Dispatch          // thread_switch: an idle CPU finds a thread
    | Exorcise          // one pass of exorcise
    | Take(w: nat)      // wchan_wakeone, wchan_wakeall: off the wait channel
    | Ready             // wchan_wakeone, wchan_wakeall: onto the run queue
    | Migrate           // thread_consider_migration

  /** CPU c takes a step. While it is migrating (interrupts are off) it does nothing else. */
  ghost predicate Next(s: State, c: CpuId, step: Step, s': State) {
    && c < |s.cpus|
    && (step.Migrate? || s.cpus[c].mig.Off?)
    && var cpu := s.cpus[c];
       match step
       case Fork(t) =>
         && !cpu.idle && t !in s.home && cpu.cur in s.home
         && s' == MakeRunnable(s.(home := s.home[t := s.home[cpu.cur]]), t)
       case Yield =>
         !cpu.idle && cpu.cur in s.home && Q(s.lists, RunQ(c)) != [] && s' == Leave(s, c, RunQ(s.home[cpu.cur]))
       case Sleep(w) => !cpu.idle && s' == Leave(s, c, Wchan(w))
       case Exit => !cpu.idle && s' == Leave(s, c, Zombies(c))
       case Dispatch => cpu.idle && Q(s.lists, RunQ(c)) != [] && s' == Dispatched(s, c)
       case Exorcise =>
         !cpu.idle && Q(s.lists, Zombies(c)) != [] &&
         s' == s.(lists := Pop(s.lists, Zombies(c)), home := s.home - {Head(s.lists, Zombies(c))})
       case Take(w) =>
         && Q(s.lists, Wchan(w)) != []
         && s' == s.(lists := Push(Pop(s.lists, Wchan(w)), Waking(c), Head(s.lists, Wchan(w))))
       case Ready =>
         Q(s.lists, Waking(c)) != [] && var t := Head(s.lists, Waking(c));
         t in s.home && s' == MakeRunnable(s.(lists := Pop(s.lists, Waking(c))), t)
       case Migrate => MigStep(s, c, s')
  }

  /** Every CPU starts with one running thread of its own. */
  ghost predicate Init(s: State) {
    && s.lists == map[]
    && (forall c | 0 <= c < |s.cpus| :: !s.cpus[c].idle && s.cpus[c].mig.Off?)
    && (forall c, d | 0 <= c < d < |s.cpus| :: s.cpus[c].cur != s.cpus[d].cur)
    && (forall t :: t in s.home ==> s.home[t] < |s.cpus| && s.cpus[s.home[t]].cur == t)
    && (forall c | 0 <= c < |s.cpus| :: s.cpus[c].cur in s.home)
  }

  ghost predicate Run(ss: seq<State>, cs: seq<CpuId>, steps: seq<Step>) {
    && |ss| == |steps| + 1 && |cs| == |steps| && Init(ss[0])
    && forall i | 0 <= i < |steps| :: Next(ss[i], cs[i], steps[i], ss[i + 1])
  }

  // ---- Placement ----

  /** Thread t is at p. */
  predicate At(s: State, t: Tid, p: Place) {
    match p
    case Current(c) => c < |s.cpus| && !s.cpus[c].idle && s.cpus[c].cur == t
    case _ => t in Q(s.lists, p)
  }

  /** The CPU a place belongs to; a thread on a wait channel may belong to any. */
  predicate HomeFits(p: Place, c: CpuId) {
    match p
    case RunQ(d) => d == c
    case Zombies(d) => d == c
    case Victims(d) => d == c
    case Current(d) => d == c
    case _ => true
  }

  /** m says where every thread is: it is there, once, and nowhere else. */
  ghost predicate Placed(s: State, m: map<Tid, Place>) {
    && m.Keys == s.home.Keys && (forall c :: Current(c) !in s.lists)
    && (forall t, p :: At(s, t, p) <==> t in m && m[t] == p)
    && (forall p | p in s.lists :: Distinct(s.lists[p]))
    && (forall t | t in m :: HomeFits(m[t], s.home[t]))
  }

  /** A CPU's current thread, running or not, exists and belongs to that CPU. */
  ghost predicate CursOk(s: State) {
    && (forall c | 0 <= c < |s.cpus| :: s.cpus[c].cur in s.home && s.home[s.cpus[c].cur] == c)
    && (forall t | t in s.home :: s.home[t] < |s.cpus|)
  }

  // ---- List operations ----

  ghost predicate AllDistinct(lists: Lists) {
    forall p | p in lists :: Distinct(lists[p])
  }

  /** Of all lists, t is only on that one. */
  ghost predicate OnlyOn(lists: Lists, t: Tid, p: Place) {
    forall q :: t in Q(lists, q) <==> q == p
  }

  ghost predicate Nowhere(lists: Lists, t: Tid) {
    forall q :: t !in Q(lists, q)
  }

  /** The other threads are on the lists they were on. */
  ghost predicate OthersStay(lists: Lists, lists': Lists, t: Tid) {
    forall u, q | u != t :: u in Q(lists', q) <==> u in Q(lists, q)
  }

  lemma {:induction false} DistinctQ(lists: Lists, p: Place)
    requires AllDistinct(lists)
    ensures Distinct(Q(lists, p))
  {
  }

  lemma {:induction false} PopEffect(lists: Lists, p: Place)
    requires AllDistinct(lists) && Q(lists, p) != [] && OnlyOn(lists, Head(lists, p), p)
    ensures var t, l := Head(lists, p), Pop(lists, p);
            AllDistinct(l) && Nowhere(l, t) && OthersStay(lists, l, t)
  {
    var q := Q(lists, p);
    DistinctQ(lists, p);
    assert q == [q[0]] + q[1..];
    assert q[0] !in q[1..];
    forall x ensures q[0] !in Q(Pop(lists, p), x) {
      assert q[0] in Q(lists, x) <==> x == p;
    }
  }

  lemma {:induction false} PopTailEffect(lists: Lists, p: Place)
    requires AllDistinct(lists) && Q(lists, p) != [] && OnlyOn(lists, Tail(lists, p), p)
    ensures var t, l := Tail(lists, p), PopTail(lists, p);
            AllDistinct(l) && Nowhere(l, t) && OthersStay(lists, l, t)
  {
    var q := Q(lists, p);
    DistinctQ(lists, p);
    assert q == q[..|q| - 1] + [q[|q| - 1]];
    assert q[|q| - 1] !in q[..|q| - 1];
    forall x ensures q[|q| - 1] !in Q(PopTail(lists, p), x) {
      assert q[|q| - 1] in Q(lists, x) <==> x == p;
    }
  }

  lemma {:induction false} PushEffect(lists: Lists, p: Place, t: Tid)
    requires AllDistinct(lists) && Nowhere(lists, t)
    ensures var l := Push(lists, p, t); AllDistinct(l) && OnlyOn(l, t, p) && OthersStay(lists, l, t)
  {
    DistinctQ(lists, p);
    assert t !in Q(lists, p);
    forall x ensures t in Q(Push(lists, p, t), x) <==> x == p {
      assert t !in Q(lists, x);
    }
  }

  lemma {:induction false} PushHeadEffect(lists: Lists, p: Place, t: Tid)
    requires AllDistinct(lists) && Nowhere(lists, t)
    ensures var l := PushHead(lists, p, t); AllDistinct(l) && OnlyOn(l, t, p) && OthersStay(lists, l, t)
  {
    DistinctQ(lists, p);
    assert t !in Q(lists, p);
    forall x ensures t in Q(PushHead(lists, p, t), x) <==> x == p {
      assert t !in Q(lists, x);
    }
  }

  // ---- Steps keep the placement ----

  /** A thread on a list is on no other list. */
  lemma {:induction false} ListedOnce(s: State, m: map<Tid, Place>, t: Tid, p: Place)
    requires Placed(s, m) && !p.Current? && t in Q(s.lists, p)
    ensures t in m && m[t] == p && OnlyOn(s.lists, t, p)
  {
    assert At(s, t, p);
    forall q ensures t in Q(s.lists, q) <==> q == p {
      if !q.Current? { assert At(s, t, q) <==> t in m && m[t] == q; }
    }
  }

  /** A current thread of a busy CPU is on no list. */
  lemma {:induction false} CurrentUnlisted(s: State, m: map<Tid, Place>, c: CpuId)
    requires Placed(s, m) && c < |s.cpus| && !s.cpus[c].idle
    ensures s.cpus[c].cur in m && m[s.cpus[c].cur] == Current(c) && Nowhere(s.lists, s.cpus[c].cur)
  {
    var t := s.cpus[c].cur;
    assert At(s, t, Current(c));
    forall q ensures t !in Q(s.lists, q) {
      if !q.Current? { assert At(s, t, q) <==> t in m && m[t] == q; }
    }
  }

  /** The same CPUs, seen through their current threads */
  predicate SameCurs(s: State, s': State) {
    && |s'.cpus| == |s.cpus|
    && forall c | 0 <= c < |s.cpus| :: s'.cpus[c].cur == s.cpus[c].cur && s'.cpus[c].idle == s.cpus[c].idle
  }

  /** Thread t goes from one list to another. */
  lemma {:induction false} ListMove(s: State, m: map<Tid, Place>, s': State, t: Tid, from: Place, to: Place)
    requires Placed(s, m) && t in m && m[t] == from && !from.Current? && !to.Current? && SameCurs(s, s')
    requires AllDistinct(s'.lists) && OnlyOn(s'.lists, t, to) && OthersStay(s.lists, s'.lists, t)
    requires forall c :: Current(c) !in s'.lists
    requires s'.home.Keys == s.home.Keys && HomeFits(to, s'.home[t])
    requires forall u | u in s.home && u != t :: s'.home[u] == s.home[u]
    ensures Placed(s', m[t := to])
  {
    forall u, p ensures At(s', u, p) <==> u in m && m[t := to][u] == p {
      assert At(s, u, p) <==> u in m && m[u] == p;
      assert At(s, t, p) <==> m[t] == p;
    }
  }

  /** The head of one list goes to the tail of another, or of the same. */
  lemma {:induction false} HeadMove(s: State, m: map<Tid, Place>, s': State, from: Place, to: Place)
    requires Placed(s, m) && !from.Current? && !to.Current? && SameCurs(s, s') && Q(s.lists, from) != []
    requires s'.lists == Push(Pop(s.lists, from), to, Head(s.lists, from))
    requires var t := Head(s.lists, from);
             && t in s'.home && s'.home.Keys == s.home.Keys && HomeFits(to, s'.home[t])
             && forall u | u in s.home && u != t :: s'.home[u] == s.home[u]
    ensures var t := Head(s.lists, from); t in m && m[t] == from && Placed(s', m[t := to])
  {
    var t := Head(s.lists, from);
    assert t in Q(s.lists, from);
    ListedOnce(s, m, t, from);
    PopEffect(s.lists, from);
    PushEffect(Pop(s.lists, from), to, t);
    ListMove(s, m, s', t, from, to);
  }

  /** The tail of the run queue goes to the head of the victims. */
  lemma {:induction false} TailMove(s: State, m: map<Tid, Place>, s': State, c: CpuId)
    requires Placed(s, m) && SameCurs(s, s') && Q(s.lists, RunQ(c)) != [] && s'.home == s.home
    requires s'.lists == PushHead(PopTail(s.lists, RunQ(c)), Victims(c), Tail(s.lists, RunQ(c)))
    ensures var t := Tail(s.lists, RunQ(c)); t in m && m[t] == RunQ(c) && Placed(s', m[t := Victims(c)])
  {
    var t := Tail(s.lists, RunQ(c));
    assert t in Q(s.lists, RunQ(c));
    ListedOnce(s, m, t, RunQ(c));
    assert HomeFits(m[t], s.home[t]);
    PopTailEffect(s.lists, RunQ(c));
    PushHeadEffect(PopTail(s.lists, RunQ(c)), Victims(c), t);
    ListMove(s, m, s', t, RunQ(c), Victims(c));
  }

  /** thread_make_runnable on a thread that is on no list: it is then on its own CPU's run queue and on no other list,
      behind everybody, and the other threads keep their lists and their order. */
  lemma {:induction false} RunnablePlaced(s: State, t: Tid)
    requires AllDistinct(s.lists) && Nowhere(s.lists, t) && t in s.home
    ensures var s' := MakeRunnable(s, t);
            && AllDistinct(s'.lists) && OnlyOn(s'.lists, t, RunQ(s.home[t])) && OthersStay(s.lists, s'.lists, t)
            && (forall p :: Q(s.lists, p) <= Q(s'.lists, p)) && s'.home == s.home && s'.cpus == s.cpus
  {
    PushEffect(s.lists, RunQ(s.home[t]), t);
  }

  lemma {:induction false} ForkPlaced(s: State, m: map<Tid, Place>, c: CpuId, t: Tid)
    requires Placed(s, m) && t !in s.home
    ensures Placed(MakeRunnable(s.(home := s.home[t := c]), t), m[t := RunQ(c)])
  {
    var s' := MakeRunnable(s.(home := s.home[t := c]), t);
    forall q ensures t !in Q(s.lists, q) {
      if !q.Current? { assert !At(s, t, q); }
    }
    RunnablePlaced(s.(home := s.home[t := c]), t);
    forall u, p ensures At(s', u, p) <==> u in m[t := RunQ(c)] && m[t := RunQ(c)][u] == p {
      assert At(s, u, p) <==> u in m && m[u] == p;
    }
  }

  lemma {:induction false} LeavePlaced(s: State, m: map<Tid, Place>, c: CpuId, p: Place)
    requires Placed(s, m) && c < |s.cpus| && !s.cpus[c].idle && !p.Current? && s.cpus[c].cur in s.home
    requires HomeFits(p, s.home[s.cpus[c].cur])
    ensures Placed(Leave(s, c, p), m[s.cpus[c].cur := p])
  {
    var s', t := Leave(s, c, p), s.cpus[c].cur;
    CurrentUnlisted(s, m, c);
    PushEffect(s.lists, p, t);
    forall u, q ensures At(s', u, q) <==> u in m && m[t := p][u] == q {
      assert At(s, u, q) <==> u in m && m[u] == q;
      assert At(s, t, q) <==> m[t] == q;
    }
  }

  lemma {:induction false} DispatchPlaced(s: State, m: map<Tid, Place>, c: CpuId)
    requires Placed(s, m) && c < |s.cpus| && s.cpus[c].idle && Q(s.lists, RunQ(c)) != []
    ensures var t := Head(s.lists, RunQ(c)); t in m && m[t] == RunQ(c) && Placed(Dispatched(s, c), m[t := Current(c)])
  {
    var s', t := Dispatched(s, c), Head(s.lists, RunQ(c));
    assert t in Q(s.lists, RunQ(c));
    ListedOnce(s, m, t, RunQ(c));
    assert HomeFits(m[t], s.home[t]);
    PopEffect(s.lists, RunQ(c));
    forall u, q ensures At(s', u, q) <==> u in m && m[t := Current(c)][u] == q {
      assert At(s, u, q) <==> u in m && m[u] == q;
      assert At(s, t, q) <==> m[t] == q;
    }
  }

  lemma {:induction false} ExorcisePlaced(s: State, m: map<Tid, Place>, c: CpuId)
    requires Placed(s, m) && Q(s.lists, Zombies(c)) != []
    ensures var t := Head(s.lists, Zombies(c));
            t in m && m[t] == Zombies(c) && Placed(s.(lists := Pop(s.lists, Zombies(c)), home := s.home - {t}), m - {t})
  {
    var t := Head(s.lists, Zombies(c));
    var s' := s.(lists := Pop(s.lists, Zombies(c)), home := s.home - {t});
    assert t in Q(s.lists, Zombies(c));
    ListedOnce(s, m, t, Zombies(c));
    PopEffect(s.lists, Zombies(c));
    forall u, q ensures At(s', u, q) <==> u in m - {t} && (m - {t})[u] == q {
      assert At(s, u, q) <==> u in m && m[u] == q;
      assert At(s, t, q) <==> m[t] == q;
    }
  }

  // ---- The invariant ----

  /** The victims' list holds what is still to be sent, and one more once the current thread was moved to its tail. */
  ghost predicate MigOk(s: State, c: CpuId)
    requires c < |s.cpus|
  {
    var victims, ready := Q(s.lists, Victims(c)), |Q(s.lists, RunQ(c))|;
    match s.cpus[c].mig
    case Off => victims == []
    case Counting(i, my, _) => victims == [] && (if i > c then my <= ready else my == 0)
    case Choosing(chosen, send, _) => |victims| == chosen <= send <= chosen + ready
    case Placing(_, send, _, rotated) =>
      if rotated then |victims| == send + 1 && victims[send] == s.cpus[c].cur else |victims| == send
    case Returning => true
  }

  ghost predicate Inv(s: State) {
    (exists m :: Placed(s, m)) && CursOk(s) && forall c | 0 <= c < |s.cpus| :: MigOk(s, c)
  }

  lemma {:induction false} InitInv(s: State)
    requires Init(s)
    ensures Inv(s)
  {
    var m := map t | t in s.home :: Current(s.home[t]);
    forall t, p ensures At(s, t, p) <==> t in m && m[t] == p {
      if p.Current? && p.c < |s.cpus| && s.cpus[p.c].cur == t {
        assert t in s.home && s.cpus[s.home[t]].cur == t;
      }
    }
    assert Placed(s, m);
  }

  lemma {:induction false} SamePlaces(s: State, m: map<Tid, Place>, s': State)
    requires Placed(s, m) && SameCurs(s, s') && s'.lists == s.lists && s'.home == s.home
    ensures Placed(s', m)
  {
    forall t, p ensures At(s', t, p) <==> t in m && m[t] == p {
      assert At(s, t, p) <==> t in m && m[t] == p;
    }
  }

  /** The placement after CPU c's pass of a migration loop */
  lemma {:induction false} MigPlaced(s: State, m: map<Tid, Place>, c: CpuId, s': State)
    requires Placed(s, m) && CursOk(s) && MigStep(s, c, s')
    ensures exists m' :: Placed(s', m')
  {
    match s.cpus[c].mig
    case Choosing(chosen, send, share) =>
      if chosen < send { TailMove(s, m, s', c); } else { SamePlaces(s, m, s'); }
    case Placing(d, send, share, rotated) =>
      if d < |s.cpus| && send > 0 && d != c && |Q(s.lists, RunQ(d))| < share {
        SendPlaced(s, m, c, s');
      } else { SamePlaces(s, m, s'); }
    case Returning =>
      if Q(s.lists, Victims(c)) == [] { SamePlaces(s, m, s'); } else {
        VictimHome(s, m, c);
        HeadMove(s, m, s', Victims(c), RunQ(c));
      }
    case _ => SamePlaces(s, m, s');
  }

  lemma {:induction false} SendPlaced(s: State, m: map<Tid, Place>, c: CpuId, s': State)
    requires Placed(s, m) && MigStep(s, c, s') && s.cpus[c].mig.Placing?
    requires var Placing(d, send, share, _) := s.cpus[c].mig;
             d < |s.cpus| && send > 0 && d != c && |Q(s.lists, RunQ(d))| < share
    ensures exists m' :: Placed(s', m')
  {
    VictimHome(s, m, c);
    HeadMove(s, m, s', Victims(c),
             if Head(s.lists, Victims(c)) == s.cpus[c].cur then Victims(c) else RunQ(s.cpus[c].mig.d));
  }

  lemma {:induction false} VictimHome(s: State, m: map<Tid, Place>, c: CpuId)
    requires Placed(s, m) && Q(s.lists, Victims(c)) != []
    ensures var t := Head(s.lists, Victims(c)); t in s.home && s.home[t] == c
  {
    var t := Head(s.lists, Victims(c));
    assert t in Q(s.lists, Victims(c));
    ListedOnce(s, m, t, Victims(c));
    assert HomeFits(m[t], s.home[t]);
  }

  lemma {:induction false} PlacementKeeps(s: State, m: map<Tid, Place>, c: CpuId, step: Step, s': State)
    requires Placed(s, m) && CursOk(s) && Next(s, c, step, s')
    ensures exists m' :: Placed(s', m')
  {
    match step
    case Fork(t) => ForkPlaced(s, m, c, t);
    case Yield => LeavePlaced(s, m, c, RunQ(c));
    case Sleep(w) => LeavePlaced(s, m, c, Wchan(w));
    case Exit => LeavePlaced(s, m, c, Zombies(c));
    case Dispatch => DispatchPlaced(s, m, c);
    case Exorcise => ExorcisePlaced(s, m, c);
    case Take(w) => TakePlaced(s, m, c, w, s');
    case Ready => HeadMove(s, m, s', Waking(c), RunQ(s.home[Head(s.lists, Waking(c))]));
    case Migrate => MigPlaced(s, m, c, s');
  }

  lemma {:induction false} TakePlaced(s: State, m: map<Tid, Place>, c: CpuId, w: nat, s': State)
    requires Placed(s, m) && Next(s, c, Take(w), s')
    ensures exists m' :: Placed(s', m')
  {
    var t := Head(s.lists, Wchan(w));
    assert t in Q(s.lists, Wchan(w));
    ListedOnce(s, m, t, Wchan(w));
    HeadMove(s, m, s', Wchan(w), Waking(c));
  }

  /** exorcise never destroys a thread that is some CPU's current thread, running or idling. */
  lemma {:induction false} ZombieNotCurrent(s: State, m: map<Tid, Place>, c: CpuId, d: CpuId)
    requires Placed(s, m) && CursOk(s) && c < |s.cpus| && !s.cpus[c].idle && Q(s.lists, Zombies(c)) != []
    requires d < |s.cpus|
    ensures Head(s.lists, Zombies(c)) != s.cpus[d].cur
  {
    var t := Head(s.lists, Zombies(c));
    assert t in Q(s.lists, Zombies(c));
    ListedOnce(s, m, t, Zombies(c));
    assert HomeFits(m[t], s.home[t]);
    assert At(s, s.cpus[c].cur, Current(c));
  }

  lemma {:induction false} DispatchCurs(s: State, m: map<Tid, Place>, c: CpuId)
    requires Placed(s, m) && CursOk(s) && c < |s.cpus| && s.cpus[c].idle && Q(s.lists, RunQ(c)) != []
    ensures CursOk(Dispatched(s, c))
  {
    DispatchPlaced(s, m, c);
    var t := Head(s.lists, RunQ(c));
    assert HomeFits(m[t], s.home[t]);
  }

  lemma {:induction false} ExorciseCurs(s: State, m: map<Tid, Place>, c: CpuId, s': State)
    requires Placed(s, m) && CursOk(s) && Next(s, c, Exorcise, s')
    ensures CursOk(s')
  {
    forall d | 0 <= d < |s.cpus| ensures s.cpus[d].cur in s'.home { ZombieNotCurrent(s, m, c, d); }
  }

  /** What a migration step can change of a thread's CPU */
  lemma {:induction false} MigHome(s: State, c: CpuId, s': State)
    requires MigStep(s, c, s')
    ensures SameCurs(s, s')
    ensures || s'.home == s.home
            || (&& Q(s.lists, Victims(c)) != [] && s.cpus[c].mig.Placing? && s.cpus[c].mig.d < |s.cpus|
                && var t := Head(s.lists, Victims(c));
                   t != s.cpus[c].cur && s'.home == s.home[t := s.cpus[c].mig.d])
  {
  }

  lemma {:induction false} MigCurs(s: State, m: map<Tid, Place>, c: CpuId, s': State)
    requires Placed(s, m) && CursOk(s) && MigStep(s, c, s')
    ensures CursOk(s')
  {
    MigHome(s, c, s');
    if s'.home != s.home { VictimHome(s, m, c); }
  }

  lemma {:induction false} CursKeep(s: State, m: map<Tid, Place>, c: CpuId, step: Step, s': State)
    requires Placed(s, m) && CursOk(s) && Next(s, c, step, s')
    ensures CursOk(s')
  {
    match step
    case Dispatch => DispatchCurs(s, m, c);
    case Exorcise => ExorciseCurs(s, m, c, s');
    case Migrate => MigCurs(s, m, c, s');
    case _ =>
  }

  /** CPU d is not the one that stepped: nobody else touches its victims, its current thread or its migration,
      and nobody else takes threads off its run queue. */
  predicate Untouched(s: State, s': State, d: CpuId)
    requires d < |s.cpus| && |s'.cpus| == |s.cpus|
  {
    && s'.cpus[d] == s.cpus[d] && Q(s'.lists, Victims(d)) == Q(s.lists, Victims(d))
    && |Q(s.lists, RunQ(d))| <= |Q(s'.lists, RunQ(d))|
  }

  lemma {:induction false} OthersUntouched(s: State, c: CpuId, step: Step, s': State, d: CpuId)
    requires Next(s, c, step, s') && d < |s.cpus| && d != c
    ensures |s'.cpus| == |s.cpus| && Untouched(s, s', d)
  {
    if step.Migrate? { MigUntouched(s, c, s', d); }
  }

  lemma {:induction false} MigUntouched(s: State, c: CpuId, s': State, d: CpuId)
    requires MigStep(s, c, s') && d < |s.cpus| && d != c
    ensures |s'.cpus| == |s.cpus| && Untouched(s, s', d)
  {
    if s.cpus[c].mig.Placing? { PlacingUntouched(s, c, s', d); }
  }

  lemma {:induction false} PlacingUntouched(s: State, c: CpuId, s': State, d: CpuId)
    requires MigStep(s, c, s') && s.cpus[c].mig.Placing? && d < |s.cpus| && d != c
    ensures |s'.cpus| == |s.cpus| && Untouched(s, s', d)
  {
  }

  /** CPU c's own migration keeps its bookkeeping. */
  lemma {:induction false} MigKeeps(s: State, m: map<Tid, Place>, c: CpuId, s': State)
    requires Placed(s, m) && c < |s.cpus| && MigOk(s, c) && MigStep(s, c, s')
    ensures |s'.cpus| == |s.cpus| && MigOk(s', c)
  {
    if s.cpus[c].mig.Placing? { PlacingKeeps(s, c, s'); }
  }

  lemma {:induction false} PlacingKeeps(s: State, c: CpuId, s': State)
    requires AllDistinct(s.lists) && c < |s.cpus| && MigOk(s, c) && MigStep(s, c, s') && s.cpus[c].mig.Placing?
    ensures |s'.cpus| == |s.cpus| && MigOk(s', c)
  {
    var v := Q(s.lists, Victims(c));
    var Placing(d, send, share, rotated) := s.cpus[c].mig;
    if d < |s.cpus| && send > 0 && d != c && |Q(s.lists, RunQ(d))| < share {
      DistinctQ(s.lists, Victims(c));
      assert v[0] == Head(s.lists, Victims(c));
    }
  }

  lemma {:induction false} BusyKeeps(s: State, c: CpuId, step: Step, s': State)
    requires Next(s, c, step, s') && !step.Migrate? && MigOk(s, c)
    ensures |s'.cpus| == |s.cpus| && MigOk(s', c)
  {
    assert s'.cpus[c].mig.Off?;
    assert Q(s'.lists, Victims(c)) == Q(s.lists, Victims(c));
  }

  lemma {:induction false} MigsKeep(s: State, m: map<Tid, Place>, c: CpuId, step: Step, s': State)
    requires Placed(s, m) && (forall d | 0 <= d < |s.cpus| :: MigOk(s, d)) && Next(s, c, step, s')
    ensures forall d | 0 <= d < |s'.cpus| :: MigOk(s', d)
  {
    if step.Migrate? { MigKeeps(s, m, c, s'); } else { BusyKeeps(s, c, step, s'); }
    forall d | 0 <= d < |s'.cpus| ensures MigOk(s', d) {
      if d != c {
        assert MigOk(s, d);
        OthersUntouched(s, c, step, s', d);
      }
    }
  }

  lemma {:induction false} StepKeeps(s: State, c: CpuId, step: Step, s': State)
    requires Inv(s) && Next(s, c, step, s')
    ensures Inv(s')
  {
    var m :| Placed(s, m);
    PlacementKeeps(s, m, c, step, s');
    CursKeep(s, m, c, step, s');
    MigsKeep(s, m, c, step, s');
  }

  lemma {:induction false} RunInv(ss: seq<State>, cs: seq<CpuId>, steps: seq<Step>, i: nat)
    requires Run(ss, cs, steps) && i <= |steps|
    ensures Inv(ss[i])
  {
    if i == 0 { InitInv(ss[0]); }
    else {
      RunInv(ss, cs, steps, i - 1);
      StepKeeps(ss[i - 1], cs[i - 1], steps[i - 1], ss[i]);
    }
  }

  // ---- What every run guarantees ----

  /** Every thread is in exactly one place; on a list it occurs once. */
  lemma {:induction false} OnePlace(ss: seq<State>, cs: seq<CpuId>, steps: seq<Step>, i: nat, t: Tid)
    requires Run(ss, cs, steps) && i <= |steps| && t in ss[i].home
    ensures exists p :: At(ss[i], t, p) && forall q :: At(ss[i], t, q) ==> q == p
    ensures forall p | p in ss[i].lists :: Distinct(ss[i].lists[p])
  {
    RunInv(ss, cs, steps, i);
    var m :| Placed(ss[i], m);
    assert At(ss[i], t, m[t]);
  }

  /** What is on a list or running exists, and a run queue, zombie list or victims' list holds only threads of its CPU.
      */
  lemma {:induction false} PlaceMatchesCpu(ss: seq<State>, cs: seq<CpuId>, steps: seq<Step>, i: nat, t: Tid, p: Place)
    requires Run(ss, cs, steps) && i <= |steps| && At(ss[i], t, p)
    ensures t in ss[i].home && HomeFits(p, ss[i].home[t])
  {
    RunInv(ss, cs, steps, i);
    var m :| Placed(ss[i], m);
    assert t in m && m[t] == p;
  }

  /** No two CPUs share a current thread, even while they idle. */
  lemma {:induction false} CurrentsDiffer(ss: seq<State>, cs: seq<CpuId>, steps: seq<Step>, i: nat, c: CpuId, d: CpuId)
    requires Run(ss, cs, steps) && i <= |steps| && c < |ss[i].cpus| && d < |ss[i].cpus| && c != d
    ensures ss[i].cpus[c].cur != ss[i].cpus[d].cur
  {
    RunInv(ss, cs, steps, i);
  }

  /** The thread exorcise destroys is no CPU's current thread. */
  lemma {:induction false} ExorciseSafe(ss: seq<State>, cs: seq<CpuId>, steps: seq<Step>, i: nat, d: CpuId)
    requires Run(ss, cs, steps) && i < |steps| && steps[i].Exorcise? && d < |ss[i].cpus|
    ensures Q(ss[i].lists, Zombies(cs[i])) != []
    ensures var z := Head(ss[i].lists, Zombies(cs[i]));
            z in ss[i].home && z !in ss[i + 1].home && z != ss[i].cpus[d].cur
  {
    RunInv(ss, cs, steps, i);
    var m :| Placed(ss[i], m);
    assert Next(ss[i], cs[i], steps[i], ss[i + 1]);
    ZombieNotCurrent(ss[i], m, cs[i], d);
    ExorcisePlaced(ss[i], m, cs[i]);
  }

  /** thread_make_runnable's assertion when thread_switch calls it: the run queue it holds is the thread's own. */
  lemma {:induction false} YieldHoldsLock(ss: seq<State>, cs: seq<CpuId>, steps: seq<Step>, i: nat)
    requires Run(ss, cs, steps) && i < |steps| && steps[i].Yield?
    ensures cs[i] < |ss[i].cpus| && ss[i].cpus[cs[i]].cur in ss[i].home && ss[i].home[ss[i].cpus[cs[i]].cur] == cs[i]
  {
    RunInv(ss, cs, steps, i);
    assert Next(ss[i], cs[i], steps[i], ss[i + 1]);
  }

  /** A migrating CPU always has a next step: it never takes a thread from an empty list,
      although other CPUs change the run queues between its steps. */
  lemma {:induction false} MigrationNeverStuck(ss: seq<State>, cs: seq<CpuId>, steps: seq<Step>, i: nat, c: CpuId)
    requires Run(ss, cs, steps) && i <= |steps| && c < |ss[i].cpus|
    ensures exists s' :: MigStep(ss[i], c, s')
  {
    RunInv(ss, cs, steps, i);
    MigEnabled(ss[i], c);
  }

  lemma {:induction false} MigEnabled(s: State, c: CpuId)
    requires c < |s.cpus| && MigOk(s, c)
    ensures exists s' :: MigStep(s, c, s')
  {
    var n := |s.cpus|;
    match s.cpus[c].mig
    case Off => assert MigStep(s, c, SetMig(s, c, Counting(0, 0, 0)));
    case Counting(j, my, total) =>
      if j < n {
        var k := |Q(s.lists, RunQ(j))|;
        assert MigStep(s, c, SetMig(s, c, Counting(j + 1, if j == c then k else my, total + k)));
      } else {
        var share := Share(total, n);
        assert MigStep(s, c, SetMig(s, c, if my < share then Off else Choosing(0, my - share, share)));
      }
    case Choosing(chosen, send, share) =>
      if chosen < send {
        var t := Tail(s.lists, RunQ(c));
        assert MigStep(s, c, SetMig(s.(lists := PushHead(PopTail(s.lists, RunQ(c)), Victims(c), t)), c,
                   Choosing(chosen + 1, send, share)));
      } else {
        assert MigStep(s, c, SetMig(s, c, Placing(0, send, share, false)));
      }
    case Placing(d, send, share, rotated) => PlacingEnabled(s, c);
    case Returning =>
      if Q(s.lists, Victims(c)) == [] {
        assert MigStep(s, c, SetMig(s, c, Off));
      } else {
        assert MigStep(s, c, s.(lists := Push(Pop(s.lists, Victims(c)), RunQ(c), Head(s.lists, Victims(c)))));
      }
  }

  lemma {:induction false} PlacingEnabled(s: State, c: CpuId)
    requires c < |s.cpus| && MigOk(s, c) && s.cpus[c].mig.Placing?
    ensures exists s' :: MigStep(s, c, s')
  {
    var Placing(d, send, share, rotated) := s.cpus[c].mig;
    if d < |s.cpus| && send > 0 {
      if d == c || |Q(s.lists, RunQ(d))| >= share {
        assert MigStep(s, c, SetMig(s, c, Placing(d + 1, send, share, rotated)));
      } else {
        var t, rest := Head(s.lists, Victims(c)), Pop(s.lists, Victims(c));
        if t == s.cpus[c].cur {
          assert MigStep(s, c, SetMig(s.(lists := Push(rest, Victims(c), t)), c, Placing(d, send - 1, share, true)));
        } else {
          assert MigStep(s, c, SetMig(s.(lists := Push(rest, RunQ(d), t), home := s.home[t := d]), c,
                     Placing(d, send - 1, share, rotated)));
        }
      }
    } else {
      assert MigStep(s, c, SetMig(s, c, Returning));
    }
  }

  /** A thread that changes CPU is no CPU's current thread, running or idling. */
  lemma {:induction false} MigrantNotCurrent(ss: seq<State>, cs: seq<CpuId>, steps: seq<Step>, i: nat, t: Tid, d: CpuId)
    requires Run(ss, cs, steps) && i < |steps| && t in ss[i].home && t in ss[i + 1].home
    requires ss[i].home[t] != ss[i + 1].home[t] && d < |ss[i].cpus|
    ensures steps[i].Migrate? && t != ss[i].cpus[d].cur
  {
    RunInv(ss, cs, steps, i);
    var m :| Placed(ss[i], m);
    assert Next(ss[i], cs[i], steps[i], ss[i + 1]);
    VictimHome(ss[i], m, cs[i]);
  }

  /** What is left of a migration: its phase, and the passes left in the phase. */
  function Phase(g: Mig): nat {
    match g
    case Off => 0
    case Returning => 1
    case Placing(_, _, _, _) => 2
    case Choosing(_, _, _) => 3
    case Counting(_, _, _) => 4
  }

  function Left(s: State, c: CpuId): int
    requires c < |s.cpus|
  {
    match s.cpus[c].mig
    case Off => 0
    case Returning => |Q(s.lists, Victims(c))|
    case Placing(d, send, _, _) => |s.cpus| - d + send
    case Choosing(chosen, send, _) => send - chosen
    case Counting(i, _, _) => |s.cpus| - i
  }

  /** Every migration ends: each of its own steps brings it nearer, and steps of other CPUs do not set it back. */
  lemma {:induction false} MigrationEnds(ss: seq<State>, cs: seq<CpuId>, steps: seq<Step>, i: nat, c: CpuId)
    requires Run(ss, cs, steps) && i < |steps| && c < |ss[i].cpus| && !ss[i].cpus[c].mig.Off?
    ensures c < |ss[i + 1].cpus|
    ensures var p, p' := Phase(ss[i].cpus[c].mig), Phase(ss[i + 1].cpus[c].mig);
            if cs[i] == c then p' < p || (p' == p && 0 <= Left(ss[i + 1], c) < Left(ss[i], c))
            else p' == p && Left(ss[i + 1], c) == Left(ss[i], c)
  {
    RunInv(ss, cs, steps, i);
    assert MigOk(ss[i], c);
    assert Next(ss[i], cs[i], steps[i], ss[i + 1]);
    if cs[i] == c { MigNearer(ss[i], c, ss[i + 1]); } else { OthersUntouched(ss[i], cs[i], steps[i], ss[i + 1], c); }
  }

  lemma {:induction false} MigNearer(s: State, c: CpuId, s': State)
    requires MigStep(s, c, s') && !s.cpus[c].mig.Off?
    ensures c < |s'.cpus|
    ensures var p, p' := Phase(s.cpus[c].mig), Phase(s'.cpus[c].mig);
            p' < p || (p' == p && 0 <= Left(s', c) < Left(s, c))
  {
    if s.cpus[c].mig.Placing? { PlacingNearer(s, c, s'); }
    else if s.cpus[c].mig.Returning? { ReturningNearer(s, c, s'); }
  }

  lemma {:induction false} PlacingNearer(s: State, c: CpuId, s': State)
    requires MigStep(s, c, s') && s.cpus[c].mig.Placing?
    ensures c < |s'.cpus|
    ensures var p, p' := Phase(s.cpus[c].mig), Phase(s'.cpus[c].mig);
            p' < p || (p' == p && 0 <= Left(s', c) < Left(s, c))
  {
  }

  lemma {:induction false} ReturningNearer(s: State, c: CpuId, s': State)
    requires MigStep(s, c, s') && s.cpus[c].mig.Returning?
    ensures c < |s'.cpus|
    ensures var p, p' := Phase(s.cpus[c].mig), Phase(s'.cpus[c].mig);
            p' < p || (p' == p && 0 <= Left(s', c) < Left(s, c))
  {
  }

  /** Run queues and wait channels are first in, first out: a step leaves such a queue alone, adds one thread at its
      tail, or takes the head (to run on the queue's CPU, or to be woken) or, in a migration, the tail. */
  lemma {:induction false} QueuesInOrder(s: State, c: CpuId, step: Step, s': State, p: Place)
    requires Next(s, c, step, s') && (p.RunQ? || p.Wchan?)
    ensures var q, q' := Q(s.lists, p), Q(s'.lists, p);
            || q' == q
            || (|q'| == |q| + 1 && q <= q')
            || (q != [] && q' == q[1..] && if p.RunQ? then step.Dispatch? && p == RunQ(c) && s'.cpus[c].cur == q[0]
                                           else step == Take(p.w) && q[0] in Q(s'.lists, Waking(c)))
            || (q != [] && q' == q[..|q| - 1] && step.Migrate? && p == RunQ(c))
  {
    if step.Migrate? { MigQueues(s, c, s', p); }
  }

  lemma {:induction false} MigQueues(s: State, c: CpuId, s': State, p: Place)
    requires MigStep(s, c, s') && (p.RunQ? || p.Wchan?)
    ensures var q, q' := Q(s.lists, p), Q(s'.lists, p);
            q' == q || (|q'| == |q| + 1 && q <= q') || (q != [] && q' == q[..|q| - 1] && p == RunQ(c))
  {
  }
}

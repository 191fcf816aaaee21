/** Locks built on semaphores and condition variables (synch.c), for any number of threads, locks and
    condition variables, interleaved between critical sections of the spinlocks. The spinlocks that are held
    across several sections (lk_lock in lock_release, cv_lock in cv_wait, cv_signal and cv_broadcast) are explicit. */
module Monitor {
  import opened VmTypes
  import opened ThreadLists
  import S = Semaphore

  type LockId = nat
  type CvId = nat

  /** lk_sem, lk_owner and the holder of lk_lock */
  datatype Lock = Lock(sem: S.Sem, owner: Option<Tid>, spin: Option<Tid>)

  /** cv_wchan and the holder of cv_lock */
  datatype Cv = Cv(queue: seq<Tid>, spin: Option<Tid>)

  /** Where a thread is. */
  datatype Pc =
    | Running                                // outside these functions
    | Testing(l: LockId, woken: bool)        // lock_acquire: before a pass of P's loop
    | SemAsleep(l: LockId)                   // lock_acquire: on the semaphore's wait channel
    | Granted(l: LockId)                     // lock_acquire: after P, before lk_owner is set
    | Releasing(l: LockId, wait: Option<CvId>)  // lock_release: lk_owner cleared, before V; inside cv_wait or not
    | WaitEntered(c: CvId, l: LockId)        // cv_wait: cv_lock taken, lock still held
    | WaitReleased(c: CvId, l: LockId)       // cv_wait: lock released, before wchan_sleep
    | CvAsleep(c: CvId, l: LockId)           // cv_wait: on the condition variable's wait channel
    | CvWoken(c: CvId, l: LockId)            // cv_wait: made runnable
    | Signalling(c: CvId, l: LockId, all: bool)  // cv_signal or cv_broadcast: cv_lock taken

  datatype State = State(locks: map<LockId, Lock>, cvs: map<CvId, Cv>, pc: map<Tid, Pc>)

  datatype Step =
    | CallAcquire(l: LockId) | SemTest | SetOwner
    | CallRelease(l: LockId) | Post
    | CallWait(c: CvId, l: LockId) | WaitRelease | WaitSleep | WaitResume
    | CallSignal(c: CvId, l: LockId, all: bool) | Wake

  function SetLock(s: State, l: LockId, k: Lock): State { s.(locks := s.locks[l := k]) }
  function SetCv(s: State, c: CvId, v: Cv): State { s.(cvs := s.cvs[c := v]) }
  function SetPc(s: State, t: Tid, p: Pc): State { s.(pc := s.pc[t := p]) }

  /** A thread leaves the semaphore's wait channel and will try P again. */
  function Awaken(pc: map<Tid, Pc>, q: seq<Tid>, l: LockId): map<Tid, Pc> {
    if q == [] then pc else pc[q[0] := Testing(l, true)]
  }

  /** Threads of the queue leave the condition variable's wait channel. */
  function WakeAll(pc: map<Tid, Pc>, q: seq<Tid>, c: CvId): (r: map<Tid, Pc>)
    ensures r.Keys == pc.Keys
    ensures forall t | t in pc ::
              r[t] == if t in q && pc[t].CvAsleep? && pc[t].c == c then CvWoken(c, pc[t].l) else pc[t]
  {
    map t | t in pc :: if t in q && pc[t].CvAsleep? && pc[t].c == c then CvWoken(c, pc[t].l) else pc[t]
  }

  /** What a signal takes from the queue: its head, or everything. */
  function Woken(q: seq<Tid>, all: bool): seq<Tid> {
    if all || q == [] then q else q[..1]
  }

  function Left(q: seq<Tid>, all: bool): seq<Tid> {
    if all || q == [] then [] else q[1..]
  }

  /** Thread t takes a step. Guards are the spinlocks being free, and the caller's duties: not to acquire
      a lock twice, and to hold the lock it releases, waits or signals with (KASSERT stops the kernel otherwise).
      The assertions inside the functions are not guards; AssertionsHold shows that they never fail. */
  ghost predicate Next(s: State, t: Tid, step: Step, s': State) {
    && t in s.pc
    && match step
       case CallAcquire(l) =>
         && s.pc[t].Running? && l in s.locks && s.locks[l].spin.None? && s.locks[l].owner != Some(t)
         && s' == SetPc(s, t, Testing(l, false))
       case SemTest =>
         s.pc[t].Testing? && s.pc[t].l in s.locks && var l := s.pc[t].l; var k := s.locks[l];
         s' == SetPc(SetLock(s, l, k.(sem := S.Test(k.sem, t))), t,
                     if k.sem.count > 0 then Granted(l) else SemAsleep(l))
       case SetOwner =>
         s.pc[t].Granted? && s.pc[t].l in s.locks && var l := s.pc[t].l; var k := s.locks[l];
         k.spin.None? && s' == SetPc(SetLock(s, l, k.(owner := Some(t))), t, Running)
       case CallRelease(l) =>
         s.pc[t].Running? && l in s.locks && var k := s.locks[l];
         && k.spin.None? && k.owner == Some(t)
         && s' == SetPc(SetLock(s, l, k.(owner := None, spin := Some(t))), t, Releasing(l, None))
       case Post =>
         s.pc[t].Releasing? && s.pc[t].l in s.locks && var l, c := s.pc[t].l, s.pc[t].wait; var k := s.locks[l];
         var s1 := SetLock(s, l, k.(sem := S.Post(k.sem), spin := None)).(pc := Awaken(s.pc, k.sem.queue, l));
         s' == SetPc(s1, t, if c.None? then Running else WaitReleased(c.value, l))
       case CallWait(c, l) =>
         && s.pc[t].Running? && l in s.locks && c in s.cvs
         && s.locks[l].owner == Some(t) && s.locks[l].spin.None? && s.cvs[c].spin.None?
         && s' == SetPc(SetCv(s, c, s.cvs[c].(spin := Some(t))), t, WaitEntered(c, l))
       case WaitRelease =>
         s.pc[t].WaitEntered? && s.pc[t].l in s.locks && var c, l := s.pc[t].c, s.pc[t].l; var k := s.locks[l];
         k.spin.None? && s' == SetPc(SetLock(s, l, k.(owner := None, spin := Some(t))), t, Releasing(l, Some(c)))
       case WaitSleep =>
         s.pc[t].WaitReleased? && s.pc[t].c in s.cvs && var c, l := s.pc[t].c, s.pc[t].l;
         s' == SetPc(SetCv(s, c, Cv(s.cvs[c].queue + [t], None)), t, CvAsleep(c, l))
       case WaitResume =>
         && s.pc[t].CvWoken? && s.pc[t].c in s.cvs && s.pc[t].l in s.locks
         && s.cvs[s.pc[t].c].spin.None? && s.locks[s.pc[t].l].spin.None?
         && s' == SetPc(s, t, Testing(s.pc[t].l, false))
       case CallSignal(c, l, all) =>
         && s.pc[t].Running? && l in s.locks && c in s.cvs
         && s.locks[l].owner == Some(t) && s.locks[l].spin.None? && s.cvs[c].spin.None?
         && s' == SetPc(SetCv(s, c, s.cvs[c].(spin := Some(t))), t, Signalling(c, l, all))
       case Wake =>
         s.pc[t].Signalling? && s.pc[t].c in s.cvs && var c, all := s.pc[t].c, s.pc[t].all; var q := s.cvs[c].queue;
         s' == SetPc(SetCv(s, c, Cv(Left(q, all), None)).(pc := WakeAll(s.pc, Woken(q, all), c)), t, Running)
  }

  ghost predicate Init(s: State) {
    && (forall l | l in s.locks :: s.locks[l] == Lock(S.Sem(1, []), None, None))
    && (forall c | c in s.cvs :: s.cvs[c] == Cv([], None))
    && (forall t | t in s.pc :: s.pc[t].Running?)
  }

  /** Threads ts[i] take steps[i]. */
  ghost predicate Run(ss: seq<State>, ts: seq<Tid>, steps: seq<Step>) {
    && |ss| == |steps| + 1 && |ts| == |steps| && Init(ss[0])
    && forall i | 0 <= i < |steps| :: Next(ss[i], ts[i], steps[i], ss[i + 1])
  }

  // ---- Invariant ----

  /** Thread t has completed P on the lock's semaphore and not yet done the matching V. */
  ghost predicate Holds(pc: map<Tid, Pc>, k: Lock, l: LockId, t: Tid) {
    t in pc && (k.owner == Some(t) || pc[t] == Granted(l) || (pc[t].Releasing? && pc[t].l == l))
  }

  /** The semaphore's unit is either free or with exactly one thread. */
  ghost predicate UnitOk(pc: map<Tid, Pc>, k: Lock, l: LockId) {
    && k.sem.count <= 1
    && (k.sem.count == 1 ==> forall t :: !Holds(pc, k, l, t))
    && (k.sem.count == 0 ==> exists t :: Holds(pc, k, l, t))
    && (forall t, u :: Holds(pc, k, l, t) && Holds(pc, k, l, u) ==> t == u)
  }

  /** lk_owner and lk_lock agree with where the threads are. */
  ghost predicate OwnerOk(pc: map<Tid, Pc>, k: Lock, l: LockId) {
    && (k.owner.Some? ==> k.owner.value in pc)
    && (forall t | t in pc :: pc[t] == Granted(l) || (pc[t].Releasing? && pc[t].l == l) ==> k.owner.None?)
    && (forall t | t in pc :: k.spin == Some(t) <==> pc[t].Releasing? && pc[t].l == l)
    && (k.spin.Some? ==> k.spin.value in pc)
    && (forall t | t in pc :: (pc[t].WaitEntered? || pc[t].Signalling?) && pc[t].l == l ==> k.owner == Some(t))
    && (forall t | t in pc && NotHolding(pc[t]) && pc[t].l == l :: k.owner != Some(t))
  }

  /** Points at which the thread does not own the lock it is dealing with. */
  predicate NotHolding(p: Pc) {
    p.Testing? || p.SemAsleep? || p.Granted? || p.Releasing? || p.WaitReleased? || p.CvAsleep? || p.CvWoken?
  }

  /** The semaphore's sleepers are the threads asleep in lock_acquire, and a free unit has a woken thread on its way. */
  ghost predicate SleepersOk(pc: map<Tid, Pc>, k: Lock, l: LockId) {
    && Distinct(k.sem.queue)
    && (forall t :: t in k.sem.queue <==> t in pc && pc[t] == SemAsleep(l))
    && (k.sem.queue != [] && k.sem.count > 0 ==> exists t :: t in pc && pc[t] == Testing(l, true))
  }

  ghost predicate LockOk(pc: map<Tid, Pc>, k: Lock, l: LockId) {
    UnitOk(pc, k, l) && OwnerOk(pc, k, l) && SleepersOk(pc, k, l)
  }

  /** Thread t is inside a section of cv_lock. */
  predicate InCv(p: Pc, c: CvId) {
    || ((p.WaitEntered? || p.WaitReleased? || p.Signalling?) && p.c == c)
    || (p.Releasing? && p.wait == Some(c))
  }

  ghost predicate CvOk(pc: map<Tid, Pc>, v: Cv, c: CvId) {
    && (forall t | t in pc :: v.spin == Some(t) <==> InCv(pc[t], c))
    && Distinct(v.queue)
    && (forall t :: t in v.queue <==> t in pc && pc[t].CvAsleep? && pc[t].c == c)
  }

  ghost predicate LocksOk(pc: map<Tid, Pc>, locks: map<LockId, Lock>) {
    forall l | l in locks :: LockOk(pc, locks[l], l)
  }

  ghost predicate CvsOk(pc: map<Tid, Pc>, cvs: map<CvId, Cv>) {
    forall c | c in cvs :: CvOk(pc, cvs[c], c)
  }

  /** The lock and the condition variable a thread is dealing with exist. */
  predicate KnownAt(p: Pc, locks: set<LockId>, cvs: set<CvId>) {
    match p
    case Running => true
    case Testing(l, _) => l in locks
    case SemAsleep(l) => l in locks
    case Granted(l) => l in locks
    case Releasing(l, w) => l in locks && (w.Some? ==> w.value in cvs)
    case WaitEntered(c, l) => l in locks && c in cvs
    case WaitReleased(c, l) => l in locks && c in cvs
    case CvAsleep(c, l) => l in locks && c in cvs
    case CvWoken(c, l) => l in locks && c in cvs
    case Signalling(c, l, _) => l in locks && c in cvs
  }

  predicate Known(s: State) {
    forall t | t in s.pc :: KnownAt(s.pc[t], s.locks.Keys, s.cvs.Keys)
  }

  ghost predicate Sound(s: State) {
    LocksOk(s.pc, s.locks) && CvsOk(s.pc, s.cvs)
  }

  ghost predicate Inv(s: State) {
    Known(s) && Sound(s)
  }

  lemma {:induction false} InitInv(s: State)
    requires Init(s)
    ensures Inv(s)
  {
  }

  // ---- Steps keep it ----

  /** A thread's move leaves its part in lock l as it was. */
  predicate SamePart(p: Pc, q: Pc, l: LockId) {
    && (p == Granted(l) <==> q == Granted(l)) && (p == SemAsleep(l) <==> q == SemAsleep(l))
    && (p.Releasing? && p.l == l <==> q.Releasing? && q.l == l)
    && (p == Testing(l, true) ==> q == Testing(l, true))
  }

  /** Thread t may be at q while the lock is k. */
  predicate Fits(q: Pc, k: Lock, l: LockId, t: Tid) {
    && ((q.WaitEntered? || q.Signalling?) && q.l == l ==> k.owner == Some(t))
    && (NotHolding(q) && q.l == l ==> k.owner != Some(t))
  }

  /** One thread moves and lock l does not change. */
  lemma {:induction false} MoveLock(pc: map<Tid, Pc>, k: Lock, l: LockId, t: Tid, q: Pc)
    requires LockOk(pc, k, l) && t in pc && SamePart(pc[t], q, l) && Fits(q, k, l, t)
    ensures LockOk(pc[t := q], k, l)
  {
    var pc' := pc[t := q];
    assert forall u :: Holds(pc', k, l, u) <==> Holds(pc, k, l, u);
    if k.sem.count == 0 {
      var u :| Holds(pc, k, l, u);
      assert Holds(pc', k, l, u);
    }
    if k.sem.queue != [] && k.sem.count > 0 {
      var u :| u in pc && pc[u] == Testing(l, true);
      assert pc'[u] == Testing(l, true);
    }
  }

  /** One thread moves without entering or leaving cv_lock or the wait channel of c. */
  lemma {:induction false} MoveCv(pc: map<Tid, Pc>, v: Cv, c: CvId, t: Tid, q: Pc)
    requires CvOk(pc, v, c) && t in pc && (InCv(pc[t], c) <==> InCv(q, c)) && (AsleepOn(pc[t], c) <==> AsleepOn(q, c))
    ensures CvOk(pc[t := q], v, c)
  {
  }

  predicate AsleepOn(p: Pc, c: CvId) { p.CvAsleep? && p.c == c }

  lemma {:induction false} TestKeeps(pc: map<Tid, Pc>, k: Lock, l: LockId, t: Tid)
    requires LockOk(pc, k, l) && t in pc && pc[t].Testing? && pc[t].l == l
    ensures LockOk(pc[t := if k.sem.count > 0 then Granted(l) else SemAsleep(l)], k.(sem := S.Test(k.sem, t)), l)
  {
    var k' := k.(sem := S.Test(k.sem, t));
    var pc' := pc[t := if k.sem.count > 0 then Granted(l) else SemAsleep(l)];
    if k.sem.count > 0 {
      assert k.owner.Some? ==> Holds(pc, k, l, k.owner.value);
      assert Holds(pc', k', l, t);
      assert forall u :: Holds(pc', k', l, u) ==> u == t || Holds(pc, k, l, u);
    } else {
      var u :| Holds(pc, k, l, u);
      assert forall u :: Holds(pc', k', l, u) <==> Holds(pc, k, l, u);
      assert Holds(pc', k', l, u);
      assert forall u :: u in k'.sem.queue <==> u in k.sem.queue || u == t;
    }
  }

  lemma {:induction false} OwnKeeps(pc: map<Tid, Pc>, k: Lock, l: LockId, t: Tid)
    requires LockOk(pc, k, l) && t in pc && pc[t] == Granted(l)
    ensures LockOk(pc[t := Running], k.(owner := Some(t)), l)
  {
    var pc', k' := pc[t := Running], k.(owner := Some(t));
    assert Holds(pc, k, l, t) && Holds(pc', k', l, t);
    assert forall u :: Holds(pc', k', l, u) ==> u == t || Holds(pc, k, l, u);
    assert forall u | u in pc && (pc[u] == Granted(l) || (pc[u].Releasing? && pc[u].l == l)) :: Holds(pc, k, l, u);
  }

  lemma {:induction false} DisownKeeps(pc: map<Tid, Pc>, k: Lock, l: LockId, t: Tid, w: Option<CvId>)
    requires LockOk(pc, k, l) && t in pc && k.owner == Some(t) && k.spin.None?
    ensures LockOk(pc[t := Releasing(l, w)], k.(owner := None, spin := Some(t)), l)
  {
    var pc', k' := pc[t := Releasing(l, w)], k.(owner := None, spin := Some(t));
    assert Holds(pc, k, l, t) && Holds(pc', k', l, t);
    assert forall u :: Holds(pc', k', l, u) ==> u == t;
  }

  lemma {:induction false} PostKeeps(pc: map<Tid, Pc>, k: Lock, l: LockId, t: Tid, q: Pc)
    requires LockOk(pc, k, l) && t in pc && pc[t].Releasing? && pc[t].l == l
    requires (q.Running? || (q.WaitReleased? && q.l == l))
    ensures LockOk(Awaken(pc, k.sem.queue, l)[t := q], k.(sem := S.Post(k.sem), spin := None), l)
  {
    var k' := k.(sem := S.Post(k.sem), spin := None);
    var pc' := Awaken(pc, k.sem.queue, l)[t := q];
    assert Holds(pc, k, l, t);
    assert forall u :: Holds(pc', k', l, u) ==> u != t && Holds(pc, k, l, u);
    if k.sem.queue != [] {
      var u := k.sem.queue[0];
      assert u in k.sem.queue;
      assert pc'[u] == Testing(l, true);
      assert forall x :: x in k'.sem.queue <==> x in k.sem.queue && x != u;
    }
  }

  /** Other locks than l do not notice that the head of l's sleepers was woken. */
  lemma {:induction false} AwakenElsewhere(pc: map<Tid, Pc>, q: seq<Tid>, l: LockId, k: Lock, m: LockId)
    requires LockOk(pc, k, m) && m != l && forall t | t in q :: t in pc && pc[t] == SemAsleep(l)
    ensures LockOk(Awaken(pc, q, l), k, m)
  {
    if q != [] { MoveLock(pc, k, m, q[0], Testing(l, true)); }
  }

  lemma {:induction false} AwakenCv(pc: map<Tid, Pc>, q: seq<Tid>, l: LockId, v: Cv, c: CvId)
    requires CvOk(pc, v, c) && forall t | t in q :: t in pc && pc[t] == SemAsleep(l)
    ensures CvOk(Awaken(pc, q, l), v, c)
  {
    if q != [] { MoveCv(pc, v, c, q[0], Testing(l, true)); }
  }

  lemma {:induction false} WakeKeepsLock(pc: map<Tid, Pc>, q: seq<Tid>, c: CvId, k: Lock, l: LockId)
    requires LockOk(pc, k, l)
    ensures LockOk(WakeAll(pc, q, c), k, l)
  {
    WakeKeepsUnit(pc, q, c, k, l);
    WakeKeepsSleepers(pc, q, c, k, l);
  }

  lemma {:induction false} WakeKeepsUnit(pc: map<Tid, Pc>, q: seq<Tid>, c: CvId, k: Lock, l: LockId)
    requires UnitOk(pc, k, l)
    ensures UnitOk(WakeAll(pc, q, c), k, l)
  {
    var pc' := WakeAll(pc, q, c);
    assert forall u :: Holds(pc', k, l, u) <==> Holds(pc, k, l, u);
    if k.sem.count == 0 {
      var u :| Holds(pc, k, l, u);
      assert Holds(pc', k, l, u);
    }
  }

  lemma {:induction false} WakeKeepsSleepers(pc: map<Tid, Pc>, q: seq<Tid>, c: CvId, k: Lock, l: LockId)
    requires SleepersOk(pc, k, l)
    ensures SleepersOk(WakeAll(pc, q, c), k, l)
  {
    if k.sem.queue != [] && k.sem.count > 0 {
      var u :| u in pc && pc[u] == Testing(l, true);
      assert WakeAll(pc, q, c)[u] == Testing(l, true);
    }
  }

  /** The signaller leaves; those it woke leave the wait channel. */
  lemma {:induction false} WakeKeepsCv(pc: map<Tid, Pc>, v: Cv, c: CvId, t: Tid, all: bool)
    requires CvOk(pc, v, c) && t in pc && InCv(pc[t], c) && !AsleepOn(pc[t], c)
    ensures CvOk(WakeAll(pc, Woken(v.queue, all), c)[t := Running], Cv(Left(v.queue, all), None), c)
  {
    var q, q' := v.queue, Left(v.queue, all);
    var pc' := WakeAll(pc, Woken(q, all), c)[t := Running];
    WakeLeavesCv(pc, v, c, t, Woken(q, all));
    forall u ensures u in q' <==> u in pc' && AsleepOn(pc'[u], c) {
      QueueParts(q, all, u);
    }
    QueueParts(q, all, t);
  }

  lemma {:induction false} WakeLeavesCv(pc: map<Tid, Pc>, v: Cv, c: CvId, t: Tid, q: seq<Tid>)
    requires (forall u | u in pc :: v.spin == Some(u) <==> InCv(pc[u], c)) && t in pc && InCv(pc[t], c)
    ensures var pc' := WakeAll(pc, q, c)[t := Running]; forall u | u in pc' :: !InCv(pc'[u], c)
  {
    assert v.spin == Some(t);
  }

  /** What is left and what was woken make up the queue. */
  lemma {:induction false} QueueParts(q: seq<Tid>, all: bool, u: Tid)
    requires Distinct(q)
    ensures u in Left(q, all) <==> u in q && u !in Woken(q, all)
    ensures Distinct(Left(q, all))
  {
    if q != [] && !all { assert q == [q[0]] + q[1..]; }
  }

  lemma {:induction false} WakeOtherCv(pc: map<Tid, Pc>, q: seq<Tid>, c: CvId, v: Cv, d: CvId)
    requires CvOk(pc, v, d) && d != c
    ensures CvOk(WakeAll(pc, q, c), v, d)
  {
  }

  lemma {:induction false} SleepKeepsCv(pc: map<Tid, Pc>, v: Cv, c: CvId, t: Tid, l: LockId)
    requires CvOk(pc, v, c) && t in pc && pc[t] == WaitReleased(c, l)
    ensures CvOk(pc[t := CvAsleep(c, l)], Cv(v.queue + [t], None), c)
  {
    assert v.spin == Some(t);
    assert forall u :: u in v.queue + [t] <==> u in v.queue || u == t;
  }

  lemma {:induction false} EnterKeepsCv(pc: map<Tid, Pc>, v: Cv, c: CvId, t: Tid, q: Pc)
    requires CvOk(pc, v, c) && t in pc && v.spin.None? && InCv(q, c) && !AsleepOn(pc[t], c) && !AsleepOn(q, c)
    ensures CvOk(pc[t := q], v.(spin := Some(t)), c)
  {
  }

  // ---- Every step ----

  /** A thread that deals with lock l, or with none, before and after */
  predicate About(p: Pc, q: Pc, l: LockId) {
    (p.Running? || p.l == l) && (q.Running? || q.l == l)
  }

  lemma {:induction false} Elsewhere(p: Pc, q: Pc, l: LockId, k: Lock, m: LockId, t: Tid)
    requires About(p, q, l) && m != l
    ensures SamePart(p, q, m) && Fits(q, k, m, t)
  {
  }

  /** One thread moves; lock l is looked at separately. */
  lemma {:induction false} LocksMove(pc: map<Tid, Pc>, locks: map<LockId, Lock>, t: Tid, q: Pc, l: LockId, k: Lock)
    requires LocksOk(pc, locks) && t in pc && LockOk(pc[t := q], k, l) && About(pc[t], q, l)
    ensures LocksOk(pc[t := q], locks[l := k])
  {
    forall m | m in locks && m != l ensures LockOk(pc[t := q], locks[m], m) {
      Elsewhere(pc[t], q, l, locks[m], m, t);
      MoveLock(pc, locks[m], m, t, q);
    }
  }

  lemma {:induction false} CvsMove(pc: map<Tid, Pc>, cvs: map<CvId, Cv>, t: Tid, q: Pc)
    requires CvsOk(pc, cvs) && t in pc && SameCv(pc[t], q)
    ensures CvsOk(pc[t := q], cvs)
  {
    forall c | c in cvs ensures CvOk(pc[t := q], cvs[c], c) {
      MoveCv(pc, cvs[c], c, t, q);
    }
  }

  /** One thread moves and condition variable c changes. */
  lemma {:induction false} CvsChange(pc: map<Tid, Pc>, cvs: map<CvId, Cv>, t: Tid, q: Pc, c: CvId, v: Cv)
    requires CvsOk(pc, cvs) && t in pc && CvOk(pc[t := q], v, c)
    requires forall d | d in cvs && d != c ::
               (InCv(pc[t], d) <==> InCv(q, d)) && (AsleepOn(pc[t], d) <==> AsleepOn(q, d))
    ensures CvsOk(pc[t := q], cvs[c := v])
  {
    forall d | d in cvs && d != c ensures CvOk(pc[t := q], cvs[d], d) {
      MoveCv(pc, cvs[d], d, t, q);
    }
  }

  /** A move that concerns lock l only as far as Fits says, and no condition variable. */
  lemma {:induction false} MoveKeeps(pc: map<Tid, Pc>, locks: map<LockId, Lock>, t: Tid, q: Pc, l: LockId)
    requires LocksOk(pc, locks) && t in pc && l in locks && SamePart(pc[t], q, l) && Fits(q, locks[l], l, t)
    requires About(pc[t], q, l)
    ensures LocksOk(pc[t := q], locks)
  {
    forall m | m in locks ensures LockOk(pc[t := q], locks[m], m) {
      if m != l { Elsewhere(pc[t], q, l, locks[m], m, t); }
      MoveLock(pc, locks[m], m, t, q);
    }
  }

  lemma {:induction false} AcquireKeeps(s: State, t: Tid, q: Pc)
    requires Sound(s) && t in s.pc
    requires q.Testing? && !q.woken && q.l in s.locks && s.locks[q.l].owner != Some(t)
    requires s.pc[t].Running? || (s.pc[t].CvWoken? && s.pc[t].l == q.l)
    ensures Sound(SetPc(s, t, q))
  {
    AcquireFits(s.pc[t], q, s.locks[q.l], t);
    MoveKeeps(s.pc, s.locks, t, q, q.l);
    CvsMove(s.pc, s.cvs, t, q);
  }

  lemma {:induction false} AcquireFits(p: Pc, q: Pc, k: Lock, t: Tid)
    requires q.Testing? && !q.woken && k.owner != Some(t) && (p.Running? || (p.CvWoken? && p.l == q.l))
    ensures SamePart(p, q, q.l) && Fits(q, k, q.l, t) && About(p, q, q.l) && SameCv(p, q)
  {
  }

  /** The move concerns no condition variable. */
  ghost predicate SameCv(p: Pc, q: Pc) {
    forall c :: (InCv(p, c) <==> InCv(q, c)) && (AsleepOn(p, c) <==> AsleepOn(q, c))
  }

  lemma {:induction false} LockStepKeeps(s: State, t: Tid, q: Pc, l: LockId, k: Lock)
    requires Sound(s) && t in s.pc && l in s.locks && LockOk(s.pc[t := q], k, l)
    requires About(s.pc[t], q, l) && SameCv(s.pc[t], q)
    ensures Sound(SetPc(SetLock(s, l, k), t, q))
  {
    LocksMove(s.pc, s.locks, t, q, l, k);
    CvsMove(s.pc, s.cvs, t, q);
  }

  lemma {:induction false} CvStepKeeps(s: State, t: Tid, q: Pc, c: CvId, v: Cv, l: LockId)
    requires Sound(s) && t in s.pc && c in s.cvs && CvOk(s.pc[t := q], v, c)
    requires l in s.locks && SamePart(s.pc[t], q, l) && Fits(q, s.locks[l], l, t)
    requires (s.pc[t].Running? || (s.pc[t] == WaitReleased(c, l))) && !q.Running? && q.l == l
    requires q.WaitEntered? || q.Signalling? || q.CvAsleep?
    requires q.c == c
    ensures Sound(SetPc(SetCv(s, c, v), t, q))
  {
    MoveKeeps(s.pc, s.locks, t, q, l);
    CvsChange(s.pc, s.cvs, t, q, c, v);
  }

  lemma {:induction false} PostElsewhere(pc: map<Tid, Pc>, sleepers: seq<Tid>, l: LockId, k: Lock, m: LockId, t: Tid,
      q: Pc)
    requires LockOk(pc, k, m) && m != l && (forall u | u in sleepers :: u in pc && pc[u] == SemAsleep(l))
    requires t in pc && pc[t].Releasing? && About(pc[t], q, l)
    ensures LockOk(Awaken(pc, sleepers, l)[t := q], k, m)
  {
    AwakenElsewhere(pc, sleepers, l, k, m);
    Elsewhere(pc[t], q, l, k, m, t);
    MoveLock(Awaken(pc, sleepers, l), k, m, t, q);
  }

  /** The second half of lock_release */
  lemma {:induction false} PostLocks(pc: map<Tid, Pc>, locks: map<LockId, Lock>, t: Tid, q: Pc, l: LockId)
    requires LocksOk(pc, locks) && t in pc && l in locks && pc[t].Releasing? && pc[t].l == l
    requires q.Running? || (q.WaitReleased? && q.l == l)
    ensures var k := locks[l];
            LocksOk(Awaken(pc, k.sem.queue, l)[t := q], locks[l := k.(sem := S.Post(k.sem), spin := None)])
  {
    var k := locks[l];
    assert LockOk(pc, k, l);
    PostKeeps(pc, k, l, t, q);
    forall m | m in locks && m != l ensures LockOk(Awaken(pc, k.sem.queue, l)[t := q], locks[m], m) {
      assert LockOk(pc, locks[m], m);
      PostElsewhere(pc, k.sem.queue, l, locks[m], m, t, q);
    }
  }

  lemma {:induction false} PostCvs(pc: map<Tid, Pc>, sleepers: seq<Tid>, cvs: map<CvId, Cv>, t: Tid, q: Pc, l: LockId)
    requires CvsOk(pc, cvs) && t in pc && pc[t].Releasing? && pc[t].l == l
    requires q == if pc[t].wait.None? then Running else WaitReleased(pc[t].wait.value, l)
    requires forall u | u in sleepers :: u in pc && pc[u] == SemAsleep(l)
    ensures CvsOk(Awaken(pc, sleepers, l)[t := q], cvs)
  {
    var pc1 := Awaken(pc, sleepers, l);
    forall c | c in cvs ensures CvOk(pc1[t := q], cvs[c], c) {
      AwakenCv(pc, sleepers, l, cvs[c], c);
      MoveCv(pc1, cvs[c], c, t, q);
    }
  }

  lemma {:induction false} WakeLocks(pc: map<Tid, Pc>, locks: map<LockId, Lock>, q: seq<Tid>, c: CvId, t: Tid)
    requires LocksOk(pc, locks) && t in pc && pc[t].Signalling?
    ensures LocksOk(WakeAll(pc, q, c)[t := Running], locks)
  {
    forall l | l in locks ensures LockOk(WakeAll(pc, q, c)[t := Running], locks[l], l) {
      WakeLock(pc, q, c, locks[l], l, t);
    }
  }

  lemma {:induction false} WakeLock(pc: map<Tid, Pc>, q: seq<Tid>, c: CvId, k: Lock, l: LockId, t: Tid)
    requires LockOk(pc, k, l) && t in pc && pc[t].Signalling?
    ensures LockOk(WakeAll(pc, q, c)[t := Running], k, l)
  {
    WakeKeepsLock(pc, q, c, k, l);
    MoveLock(WakeAll(pc, q, c), k, l, t, Running);
  }

  lemma {:induction false} WakeCvs(pc: map<Tid, Pc>, cvs: map<CvId, Cv>, t: Tid, c: CvId, all: bool)
    requires CvsOk(pc, cvs) && t in pc && pc[t].Signalling? && pc[t].c == c && c in cvs
    ensures var q := cvs[c].queue;
            CvsOk(WakeAll(pc, Woken(q, all), c)[t := Running], cvs[c := Cv(Left(q, all), None)])
  {
    var q := Woken(cvs[c].queue, all);
    assert CvOk(pc, cvs[c], c);
    WakeKeepsCv(pc, cvs[c], c, t, all);
    forall d | d in cvs && d != c ensures CvOk(WakeAll(pc, q, c)[t := Running], cvs[d], d) {
      WakeOtherCv(pc, q, c, cvs[d], d);
      MoveCv(WakeAll(pc, q, c), cvs[d], d, t, Running);
    }
  }

  lemma {:induction false} TestStep(s: State, t: Tid, l: LockId, w: bool)
    requires Sound(s) && t in s.pc && s.pc[t] == Testing(l, w) && l in s.locks
    ensures var k := s.locks[l];
            Sound(SetPc(SetLock(s, l, k.(sem := S.Test(k.sem, t))), t,
                        if k.sem.count > 0 then Granted(l) else SemAsleep(l)))
  {
    var k := s.locks[l];
    TestKeeps(s.pc, k, l, t);
    LockStepKeeps(s, t, if k.sem.count > 0 then Granted(l) else SemAsleep(l), l, k.(sem := S.Test(k.sem, t)));
  }

  lemma {:induction false} OwnStep(s: State, t: Tid, l: LockId)
    requires Sound(s) && t in s.pc && s.pc[t] == Granted(l) && l in s.locks
    ensures Sound(SetPc(SetLock(s, l, s.locks[l].(owner := Some(t))), t, Running))
  {
    OwnKeeps(s.pc, s.locks[l], l, t);
    assert SameCv(s.pc[t], Running);
    LockStepKeeps(s, t, Running, l, s.locks[l].(owner := Some(t)));
  }

  lemma {:induction false} DisownStep(s: State, t: Tid, l: LockId, w: Option<CvId>)
    requires Sound(s) && t in s.pc && l in s.locks && s.locks[l].owner == Some(t) && s.locks[l].spin.None?
    requires if w.Some? then s.pc[t] == WaitEntered(w.value, l) else s.pc[t].Running?
    ensures Sound(SetPc(SetLock(s, l, s.locks[l].(owner := None, spin := Some(t))), t, Releasing(l, w)))
  {
    DisownKeeps(s.pc, s.locks[l], l, t, w);
    LockStepKeeps(s, t, Releasing(l, w), l, s.locks[l].(owner := None, spin := Some(t)));
  }

  lemma {:induction false} PostStep(s: State, t: Tid, l: LockId, w: Option<CvId>)
    requires Sound(s) && t in s.pc && s.pc[t] == Releasing(l, w) && l in s.locks
    ensures var k := s.locks[l];
            Sound(SetPc(SetLock(s, l, k.(sem := S.Post(k.sem), spin := None)).(pc := Awaken(s.pc, k.sem.queue, l)), t,
                      if w.None? then Running else WaitReleased(w.value, l)))
  {
    var k, q := s.locks[l], if w.None? then Running else WaitReleased(w.value, l);
    PostLocks(s.pc, s.locks, t, q, l);
    assert LockOk(s.pc, k, l);
    PostCvs(s.pc, k.sem.queue, s.cvs, t, q, l);
  }

  lemma {:induction false} EnterStep(s: State, t: Tid, c: CvId, l: LockId, q: Pc)
    requires Sound(s) && t in s.pc && s.pc[t].Running? && l in s.locks && c in s.cvs && s.locks[l].owner == Some(t)
    requires s.cvs[c].spin.None?
    requires q == WaitEntered(c, l) || q == Signalling(c, l, false) || q == Signalling(c, l, true)
    ensures Sound(SetPc(SetCv(s, c, s.cvs[c].(spin := Some(t))), t, q))
  {
    EnterKeepsCv(s.pc, s.cvs[c], c, t, q);
    CvStepKeeps(s, t, q, c, s.cvs[c].(spin := Some(t)), l);
  }

  lemma {:induction false} SleepStep(s: State, t: Tid, c: CvId, l: LockId)
    requires Sound(s) && t in s.pc && s.pc[t] == WaitReleased(c, l) && c in s.cvs && l in s.locks
    ensures Sound(SetPc(SetCv(s, c, Cv(s.cvs[c].queue + [t], None)), t, CvAsleep(c, l)))
  {
    SleepKeepsCv(s.pc, s.cvs[c], c, t, l);
    assert LockOk(s.pc, s.locks[l], l);
    CvStepKeeps(s, t, CvAsleep(c, l), c, Cv(s.cvs[c].queue + [t], None), l);
  }

  lemma {:induction false} WakeStep(s: State, t: Tid, c: CvId, l: LockId, all: bool)
    requires Sound(s) && t in s.pc && s.pc[t] == Signalling(c, l, all) && c in s.cvs
    ensures var q := s.cvs[c].queue;
            Sound(SetPc(SetCv(s, c, Cv(Left(q, all), None)).(pc := WakeAll(s.pc, Woken(q, all), c)), t, Running))
  {
    WakeLocks(s.pc, s.locks, Woken(s.cvs[c].queue, all), c, t);
    WakeCvs(s.pc, s.cvs, t, c, all);
  }

  /** What the invariant says of the step's own thread; stated apart to keep StepKeeps small. */
  lemma {:induction false} OwnerFacts(s: State, t: Tid)
    requires Inv(s) && t in s.pc
    ensures Sound(s)
    ensures s.pc[t].WaitEntered? && s.pc[t].l in s.locks ==> s.locks[s.pc[t].l].owner == Some(t)
    ensures s.pc[t].CvWoken? && s.pc[t].l in s.locks ==> s.locks[s.pc[t].l].owner != Some(t)
  {
    if !s.pc[t].Running? && s.pc[t].l in s.locks {
      assert LockOk(s.pc, s.locks[s.pc[t].l], s.pc[t].l);
    }
  }

  lemma {:induction false} KnownKeeps(s: State, t: Tid, step: Step, s': State)
    requires Known(s) && Next(s, t, step, s')
    ensures Known(s')
  {
    assert KnownAt(s.pc[t], s.locks.Keys, s.cvs.Keys);
    assert s'.locks.Keys == s.locks.Keys && s'.cvs.Keys == s.cvs.Keys;
    forall u | u in s'.pc ensures KnownAt(s'.pc[u], s.locks.Keys, s.cvs.Keys) {
      if u != t && u in s.pc { assert KnownAt(s.pc[u], s.locks.Keys, s.cvs.Keys); }
    }
  }

  lemma {:induction false} StepKeeps(s: State, t: Tid, step: Step, s': State)
    requires Inv(s) && Next(s, t, step, s')
    ensures Inv(s')
  {
    KnownKeeps(s, t, step, s');
    SoundKeeps(s, t, step, s');
  }

  lemma {:induction false} SoundKeeps(s: State, t: Tid, step: Step, s': State)
    requires Inv(s) && Next(s, t, step, s')
    ensures Sound(s')
  {
    OwnerFacts(s, t);
    var p := s.pc[t];
    match step
    case CallAcquire(l) => AcquireKeeps(s, t, Testing(l, false));
    case WaitResume => AcquireKeeps(s, t, Testing(p.l, false));
    case SemTest => TestStep(s, t, p.l, p.woken);
    case SetOwner => OwnStep(s, t, p.l);
    case CallRelease(l) => DisownStep(s, t, l, None);
    case WaitRelease => DisownStep(s, t, p.l, Some(p.c));
    case Post => PostStep(s, t, p.l, p.wait);
    case CallWait(c, l) => EnterStep(s, t, c, l, WaitEntered(c, l));
    case CallSignal(c, l, all) => EnterStep(s, t, c, l, Signalling(c, l, all));
    case WaitSleep => SleepStep(s, t, p.c, p.l);
    case Wake => WakeStep(s, t, p.c, p.l, p.all);
  }

  lemma {:induction false} RunInv(ss: seq<State>, ts: seq<Tid>, steps: seq<Step>, i: nat)
    requires Run(ss, ts, steps) && i <= |steps|
    ensures Inv(ss[i])
  {
    if i == 0 { InitInv(ss[0]); }
    else {
      RunInv(ss, ts, steps, i - 1);
      StepKeeps(ss[i - 1], ts[i - 1], steps[i - 1], ss[i]);
    }
  }

  // ---- What every run guarantees ----

  /** Threads between a completed P on the lock's semaphore and the matching V */
  ghost function Holders(s: State, l: LockId): set<Tid>
    requires l in s.locks
  {
    set t | t in s.pc && Holds(s.pc, s.locks[l], l, t)
  }

  /** The unit of the lock's semaphore is free or with exactly one thread, and lk_owner never names another. */
  lemma {:induction false} MutualExclusion(ss: seq<State>, ts: seq<Tid>, steps: seq<Step>, i: nat, l: LockId)
    requires Run(ss, ts, steps) && i <= |steps| && l in ss[i].locks
    ensures ss[i].locks[l].sem.count + |Holders(ss[i], l)| == 1
    ensures ss[i].locks[l].owner.Some? ==> Holders(ss[i], l) == {ss[i].locks[l].owner.value}
  {
    RunInv(ss, ts, steps, i);
    UnitOrHolder(ss[i], l);
  }

  lemma {:induction false} UnitOrHolder(s: State, l: LockId)
    requires Inv(s) && l in s.locks
    ensures s.locks[l].sem.count + |Holders(s, l)| == 1
    ensures s.locks[l].owner.Some? ==> Holders(s, l) == {s.locks[l].owner.value}
  {
    var k := s.locks[l];
    assert LockOk(s.pc, k, l);
    if k.sem.count == 1 {
      assert Holders(s, l) == {};
      assert k.owner.Some? ==> Holds(s.pc, k, l, k.owner.value);
    } else {
      assert k.sem.count == 0;
      var t: Tid :| Holds(s.pc, k, l, t);
      assert Holders(s, l) == {t};
      assert k.owner.Some? ==> Holds(s.pc, k, l, k.owner.value);
    }
  }

  /** The assertions in the bodies of these functions at thread t's step: lk_owner is NULL after P; cv_wait still
      owns the lock it releases and does not own the one it reacquires; and a thread that goes to sleep on a wait
      channel holds its spinlock and no other (wchan_sleep demands exactly one). */
  ghost predicate Asserts(s: State, t: Tid, step: Step)
    requires t in s.pc && (s.pc[t].Running? || s.pc[t].l in s.locks)
  {
    var p := s.pc[t];
    match step
    case SetOwner => p.Granted? && s.locks[p.l].owner.None?
    case WaitRelease => p.WaitEntered? && s.locks[p.l].owner == Some(t)
    case WaitResume => p.CvWoken? && s.locks[p.l].owner != Some(t)
    case Post => p.Releasing? && s.locks[p.l].spin == Some(t)
    case WaitSleep => p.WaitReleased? && OnlySpin(s, t, Some(p.c))
    case SemTest => OnlySpin(s, t, None)
    case _ => true
  }

  /** Of the spinlocks of locks and condition variables, thread t holds just the given one. */
  ghost predicate OnlySpin(s: State, t: Tid, c: Option<CvId>) {
    && (forall d | d in s.cvs :: s.cvs[d].spin == Some(t) <==> Some(d) == c)
    && (forall l | l in s.locks :: s.locks[l].spin != Some(t))
  }

  lemma {:induction false} SpinsHeld(s: State, t: Tid, c: Option<CvId>)
    requires Inv(s) && t in s.pc && !s.pc[t].Releasing?
    requires forall d: CvId :: InCv(s.pc[t], d) <==> Some(d) == c
    ensures OnlySpin(s, t, c)
  {
    forall d | d in s.cvs ensures s.cvs[d].spin == Some(t) <==> Some(d) == c {
      assert CvOk(s.pc, s.cvs[d], d);
    }
    forall l | l in s.locks ensures s.locks[l].spin != Some(t) {
      assert LockOk(s.pc, s.locks[l], l);
    }
  }

  lemma {:induction false} AssertionsHold(ss: seq<State>, ts: seq<Tid>, steps: seq<Step>, i: nat)
    requires Run(ss, ts, steps) && i < |steps|
    ensures ts[i] in ss[i].pc && (ss[i].pc[ts[i]].Running? || ss[i].pc[ts[i]].l in ss[i].locks)
    ensures Asserts(ss[i], ts[i], steps[i])
  {
    RunInv(ss, ts, steps, i);
    var s, t := ss[i], ts[i];
    assert Next(s, t, steps[i], ss[i + 1]);
    assert KnownAt(s.pc[t], s.locks.Keys, s.cvs.Keys);
    match steps[i]
    case WaitSleep => SpinsHeld(s, t, Some(s.pc[t].c));
    case SemTest => SpinsHeld(s, t, None);
    case _ => OwnLock(s, t);
  }

  lemma {:induction false} OwnLock(s: State, t: Tid)
    requires Inv(s) && t in s.pc
    ensures !s.pc[t].Running? && s.pc[t].l in s.locks ==> LockOk(s.pc, s.locks[s.pc[t].l], s.pc[t].l)
  {
  }

  /** Thread t takes the step in which it gives the lock up. */
  predicate GivesUp(s: State, t: Tid, step: Step, l: LockId) {
    step == CallRelease(l) || (step.WaitRelease? && t in s.pc && s.pc[t].WaitEntered? && s.pc[t].l == l)
  }

  lemma {:induction false} OwnerStays(s: State, t: Tid, u: Tid, step: Step, s': State, l: LockId)
    requires Inv(s) && Next(s, u, step, s') && l in s.locks && s.locks[l].owner == Some(t)
    requires !(u == t && GivesUp(s, t, step, l))
    ensures l in s'.locks && s'.locks[l].owner == Some(t)
  {
    assert LockOk(s.pc, s.locks[l], l);
  }

  /** From the step that sets lk_owner until the owner gives the lock up, nobody else holds it. */
  lemma {:induction false} CriticalSection(ss: seq<State>, ts: seq<Tid>, steps: seq<Step>, i: nat, k: nat, l: LockId,
      u: Tid)
    requires Run(ss, ts, steps) && i < k <= |steps| && steps[i].SetOwner?
    requires ts[i] in ss[i].pc && ss[i].pc[ts[i]] == Granted(l)
    requires forall j | i < j < k :: !(ts[j] == ts[i] && GivesUp(ss[j], ts[j], steps[j], l))
    ensures l in ss[k].locks && ss[k].locks[l].owner == Some(ts[i])
    ensures Holds(ss[k].pc, ss[k].locks[l], l, u) ==> u == ts[i]
    decreases k
  {
    assert Next(ss[k - 1], ts[k - 1], steps[k - 1], ss[k]);
    if k > i + 1 {
      CriticalSection(ss, ts, steps, i, k - 1, l, u);
      RunInv(ss, ts, steps, k - 1);
      OwnerStays(ss[k - 1], ts[i], ts[k - 1], steps[k - 1], ss[k], l);
    }
    RunInv(ss, ts, steps, k);
    assert LockOk(ss[k].pc, ss[k].locks[l], l);
    assert Holds(ss[k].pc, ss[k].locks[l], l, ts[i]);
  }

  /** While threads sleep in lock_acquire, somebody still has to do a V or a woken thread is about to try. */
  lemma {:induction false} LockWakeupNotLost(ss: seq<State>, ts: seq<Tid>, steps: seq<Step>, i: nat, t: Tid, l: LockId)
    requires Run(ss, ts, steps) && i <= |steps| && t in ss[i].pc && ss[i].pc[t] == SemAsleep(l)
    ensures l in ss[i].locks
    ensures exists u :: u in ss[i].pc && (Holds(ss[i].pc, ss[i].locks[l], l, u) || ss[i].pc[u] == Testing(l, true))
  {
    RunInv(ss, ts, steps, i);
    var s := ss[i];
    assert KnownAt(s.pc[t], s.locks.Keys, s.cvs.Keys);
    var k := s.locks[l];
    assert LockOk(s.pc, k, l);
    assert t in k.sem.queue;
    if k.sem.count == 0 { var u :| Holds(s.pc, k, l, u); }
  }

  /** Inside a section of lk_lock or cv_lock */
  predicate InSection(p: Pc) {
    p.Releasing? || p.WaitEntered? || p.WaitReleased? || p.Signalling?
  }

  /** The spinlocks never block for good, although cv_wait takes lk_lock while holding cv_lock: a thread inside a
      section can always move. */
  lemma {:induction false} SpinlocksProgress(ss: seq<State>, ts: seq<Tid>, steps: seq<Step>, i: nat, t: Tid)
    requires Run(ss, ts, steps) && i <= |steps| && t in ss[i].pc && InSection(ss[i].pc[t])
    ensures exists step, s' :: Next(ss[i], t, step, s')
  {
    RunInv(ss, ts, steps, i);
    var s := ss[i];
    assert KnownAt(s.pc[t], s.locks.Keys, s.cvs.Keys);
    var p := s.pc[t];
    match p
    case Releasing(l, w) => PostEnabled(s, t);
    case WaitEntered(c, l) =>
      var k := s.locks[l];
      assert LockOk(s.pc, k, l);
      assert Next(s, t, WaitRelease,
                  SetPc(SetLock(s, l, k.(owner := None, spin := Some(t))), t, Releasing(l, Some(c))));
    case WaitReleased(c, l) =>
      assert Next(s, t, WaitSleep, SetPc(SetCv(s, c, Cv(s.cvs[c].queue + [t], None)), t, CvAsleep(c, l)));
    case Signalling(c, l, all) =>
      var q := s.cvs[c].queue;
      var s1 := SetCv(s, c, Cv(Left(q, all), None)).(pc := WakeAll(s.pc, Woken(q, all), c));
      assert Next(s, t, Wake, SetPc(s1, t, Running));
    case _ =>
  }

  lemma {:induction false} PostEnabled(s: State, t: Tid)
    requires Known(s) && t in s.pc && s.pc[t].Releasing?
    ensures exists step, s' :: Next(s, t, step, s')
  {
    var l, w := s.pc[t].l, s.pc[t].wait;
    assert KnownAt(s.pc[t], s.locks.Keys, s.cvs.Keys);
    var k := s.locks[l];
    var s1 := SetLock(s, l, k.(sem := S.Post(k.sem), spin := None)).(pc := Awaken(s.pc, k.sem.queue, l));
    assert Next(s, t, Post, SetPc(s1, t, if w.None? then Running else WaitReleased(w.value, l)));
  }

  // ---- No lost signal ----

  /** cv_wait has given the lock up and has not been woken yet. */
  predicate Waiting(p: Pc, c: CvId) {
    || (p.Releasing? && p.wait == Some(c))
    || ((p.WaitReleased? || p.CvAsleep?) && p.c == c)
  }

  predicate Enters(s: State, t: Tid, c: CvId) {
    t in s.pc && s.pc[t].WaitEntered? && s.pc[t].c == c
  }

  /** The step is the wakeup inside a signal or broadcast of c. */
  predicate Signals(s: State, u: Tid, step: Step, c: CvId) {
    step.Wake? && u in s.pc && s.pc[u].Signalling? && s.pc[u].c == c
  }

  /** The signal takes thread t off the wait channel. */
  predicate Wakes(s: State, u: Tid, step: Step, c: CvId, t: Tid) {
    Signals(s, u, step, c) && c in s.cvs && t in Woken(s.cvs[c].queue, s.pc[u].all)
  }

  lemma {:induction false} WaitingStays(s: State, u: Tid, step: Step, s': State, t: Tid, c: CvId)
    requires Inv(s) && Next(s, u, step, s') && t in s.pc && Waiting(s.pc[t], c) && !Wakes(s, u, step, c, t)
    ensures t in s'.pc && Waiting(s'.pc[t], c)
  {
    if step.Post? {
      OwnerFacts(s, u);
      PostWaiting(s, u, s', t, c);
    } else if step.Wake? {
      WakeWaiting(s, u, s', t, c);
    }
  }

  lemma {:induction false} PostWaiting(s: State, u: Tid, s': State, t: Tid, c: CvId)
    requires LocksOk(s.pc, s.locks) && Next(s, u, Post, s') && t in s.pc && Waiting(s.pc[t], c)
    ensures t in s'.pc && Waiting(s'.pc[t], c)
  {
    var l := s.pc[u].l;
    assert LockOk(s.pc, s.locks[l], l);
    var q := s.locks[l].sem.queue;
    assert q != [] ==> q[0] in q;
  }

  lemma {:induction false} WakeWaiting(s: State, u: Tid, s': State, t: Tid, c: CvId)
    requires Next(s, u, Wake, s') && t in s.pc && Waiting(s.pc[t], c) && !Wakes(s, u, Wake, c, t)
    ensures t in s'.pc && Waiting(s'.pc[t], c)
  {
  }

  lemma {:induction false} SignalFinds(s: State, u: Tid, step: Step, t: Tid, c: CvId)
    requires Inv(s) && Signals(s, u, step, c) && c in s.cvs && t in s.pc && Waiting(s.pc[t], c)
    ensures t in s.cvs[c].queue
  {
    assert CvOk(s.pc, s.cvs[c], c);
  }

  /** No lost signal: once a thread has given the lock up inside cv_wait, every later signal or broadcast of that
      condition variable finds it on the wait channel, unless an earlier one already woke it. */
  lemma {:induction false} NoLostSignal(ss: seq<State>, ts: seq<Tid>, steps: seq<Step>, i: nat, k: nat, t: Tid, c: CvId)
    requires Run(ss, ts, steps) && i < k < |steps| && ts[i] == t
    requires steps[i].WaitRelease? && Enters(ss[i], t, c)
    requires Signals(ss[k], ts[k], steps[k], c)
    requires forall j | i < j < k :: !Wakes(ss[j], ts[j], steps[j], c, t)
    ensures c in ss[k].cvs && t in ss[k].cvs[c].queue
    ensures ss[k].pc[ts[k]].all ==> Wakes(ss[k], ts[k], steps[k], c, t)
  {
    StillWaiting(ss, ts, steps, i, k, t, c);
    RunInv(ss, ts, steps, k);
    assert Next(ss[k], ts[k], steps[k], ss[k + 1]);
    SignalFinds(ss[k], ts[k], steps[k], t, c);
  }

  lemma {:induction false} StillWaiting(ss: seq<State>, ts: seq<Tid>, steps: seq<Step>, i: nat, k: nat, t: Tid, c: CvId)
    requires Run(ss, ts, steps) && i < k <= |steps| && ts[i] == t
    requires steps[i].WaitRelease? && Enters(ss[i], t, c)
    requires forall j | i < j < k :: !Wakes(ss[j], ts[j], steps[j], c, t)
    ensures t in ss[k].pc && Waiting(ss[k].pc[t], c)
    decreases k
  {
    if k == i + 1 {
      WaitingStarts(ss[i], t, ss[k], c);
    } else {
      var j := k - 1;
      assert Next(ss[j], ts[j], steps[j], ss[j + 1]) && !Wakes(ss[j], ts[j], steps[j], c, t);
      StillWaiting(ss, ts, steps, i, j, t, c);
      RunInv(ss, ts, steps, j);
      WaitingStays(ss[j], ts[j], steps[j], ss[k], t, c);
    }
  }

  lemma {:induction false} WaitingStarts(s: State, t: Tid, s': State, c: CvId)
    requires Next(s, t, WaitRelease, s') && Enters(s, t, c)
    ensures t in s'.pc && Waiting(s'.pc[t], c)
  {
  }
}

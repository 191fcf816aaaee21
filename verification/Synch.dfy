/** Locks and condition variables as the objects that synch.c updates: a lock is built on a semaphore object. A method
    is what one thread does between two points at which others may run; each is shown to be a step of Monitor, so that
    the theorems about runs are about these objects, and the kernel's own assertions are asserted. */
module Synch {
  import opened VmTypes
  import opened ThreadLists
  import opened Monitor
  import S = Semaphore

  /** struct lock: lk_sem, lk_owner and who holds lk_lock */
  class Lock {
    const sem: S.Semaphore
    var owner: Option<Tid>
    var spin: Option<Tid>

    ghost function View(): Monitor.Lock
      reads this, sem
    {
      Monitor.Lock(sem.View(), owner, spin)
    }

    /** lock_create */
    constructor ()
      ensures fresh(sem) && View() == Monitor.Lock(S.Sem(1, []), None, None)
    {
      sem := new S.Semaphore(1);
      owner, spin := None, None;
    }
  }

  /** struct cv: cv_wchan and who holds cv_lock */
  class Cv {
    var wchan: seq<Tid>
    var spin: Option<Tid>

    ghost function View(): Monitor.Cv
      reads this
    {
      Monitor.Cv(wchan, spin)
    }

    /** cv_create */
    constructor ()
      ensures View() == Monitor.Cv([], None)
    {
      wchan, spin := [], None;
    }
  }

  class Machine {
    const locks: map<LockId, Lock>
    const cvs: map<CvId, Cv>
    ghost var pc: map<Tid, Pc>  // where each thread is

    ghost function Objects(): set<object> {
      (set l | l in locks :: locks[l] as object) + (set l | l in locks :: locks[l].sem as object)
      + (set c | c in cvs :: cvs[c] as object)
    }

    /** Objects are not shared. */
    ghost predicate Valid() {
      && (forall l, m | l in locks && m in locks && l != m :: locks[l] != locks[m] && locks[l].sem != locks[m].sem)
      && (forall c, d | c in cvs && d in cvs && c != d :: cvs[c] != cvs[d])
    }

    ghost function LocksView(): map<LockId, Monitor.Lock>
      reads Objects()
    {
      map l | l in locks :: locks[l].View()
    }

    ghost function CvsView(): map<CvId, Monitor.Cv>
      reads Objects()
    {
      map c | c in cvs :: cvs[c].View()
    }

    ghost function View(): State
      reads this`pc, Objects()
    {
      State(LocksView(), CvsView(), pc)
    }

    constructor (locks: map<LockId, Lock>, cvs: map<CvId, Cv>, ghost threads: set<Tid>)
      requires forall l, m | l in locks && m in locks && l != m :: locks[l] != locks[m] && locks[l].sem != locks[m].sem
      requires forall c, d | c in cvs && d in cvs && c != d :: cvs[c] != cvs[d]
      requires forall l | l in locks :: locks[l].View() == Monitor.Lock(S.Sem(1, []), None, None)
      requires forall c | c in cvs :: cvs[c].View() == Monitor.Cv([], None)
      ensures this.locks == locks && this.cvs == cvs && Valid() && Init(View())
    {
      this.locks, this.cvs, this.pc := locks, cvs, map t | t in threads :: Running;
    }

    // ---- One object at a time ----

    method TryP(l: LockId, t: Tid) returns (done: bool)
      requires Valid() && l in locks
      modifies locks[l].sem
      ensures var k := old(View()).locks[l];
              && View() == SetLock(old(View()), l, k.(sem := S.Test(k.sem, t))) && done == (k.sem.count > 0)
    {
      done := locks[l].sem.TryP(t);
      assert LocksView() == old(LocksView())[l := locks[l].View()];
      assert CvsView() == old(CvsView());
    }

    method WriteLock(l: LockId, owner: Option<Tid>, spin: Option<Tid>)
      requires Valid() && l in locks
      modifies locks[l]
      ensures View() == SetLock(old(View()), l, old(View()).locks[l].(owner := owner, spin := spin))
    {
      locks[l].owner, locks[l].spin := owner, spin;
      assert LocksView() == old(LocksView())[l := locks[l].View()];
      assert CvsView() == old(CvsView());
    }

    method WriteCv(c: CvId, wchan: seq<Tid>, spin: Option<Tid>)
      requires Valid() && c in cvs
      modifies cvs[c]
      ensures View() == SetCv(old(View()), c, Monitor.Cv(wchan, spin))
    {
      cvs[c].wchan, cvs[c].spin := wchan, spin;
      assert CvsView() == old(CvsView())[c := cvs[c].View()];
      assert LocksView() == old(LocksView());
    }

    ghost method Move(moved: map<Tid, Pc>)
      modifies this`pc
      ensures View() == old(View()).(pc := moved)
    {
      pc := moved;
      assert LocksView() == old(LocksView()) && CvsView() == old(CvsView());
    }

    // ---- What the sections mean ----

    /** Thread t, at a point of one of these functions, finds the lock it deals with. */
    static lemma {:induction false} AtLock(s: State, t: Tid)
      requires Inv(s) && t in s.pc && !s.pc[t].Running?
      ensures s.pc[t].l in s.locks && LockOk(s.pc, s.locks[s.pc[t].l], s.pc[t].l)
    {
      assert KnownAt(s.pc[t], s.locks.Keys, s.cvs.Keys);
    }

    static lemma {:induction false} AtCv(s: State, t: Tid)
      requires Inv(s) && t in s.pc && (s.pc[t].WaitReleased? || s.pc[t].Signalling?)
      ensures s.pc[t].c in s.cvs && CvOk(s.pc, s.cvs[s.pc[t].c], s.pc[t].c)
    {
      assert KnownAt(s.pc[t], s.locks.Keys, s.cvs.Keys);
    }

    static lemma {:induction false} AcquireMeans(s: State, t: Tid, l: LockId)
      requires Inv(s) && t in s.pc && l in s.locks && s.locks[l].spin.None?
      requires if s.pc[t].Running? then s.locks[l].owner != Some(t)
               else s.pc[t].CvWoken? && s.pc[t].l == l && s.pc[t].c in s.cvs && s.cvs[s.pc[t].c].spin.None?
      ensures var s' := SetPc(s, t, Testing(l, false));
              Next(s, t, if s.pc[t].Running? then CallAcquire(l) else WaitResume, s') && Inv(s')
      ensures s.locks[l].owner != Some(t)
    {
      if !s.pc[t].Running? { AtLock(s, t); }
      StepKeeps(s, t, if s.pc[t].Running? then CallAcquire(l) else WaitResume, SetPc(s, t, Testing(l, false)));
    }

    /** A pass of P on a lock's semaphore: the unit is free exactly when nobody holds the lock. */
    static lemma {:induction false} PassMeans(s: State, t: Tid, l: LockId, s': State)
      requires Inv(s) && t in s.pc && s.pc[t].Testing? && s.pc[t].l == l && l in s.locks
      requires var k := s.locks[l];
               s' == SetPc(SetLock(s, l, k.(sem := S.Test(k.sem, t))), t,
                           if k.sem.count > 0 then Granted(l) else SemAsleep(l))
      ensures Next(s, t, SemTest, s') && Inv(s') && (s.locks[l].sem.count > 0 <==> Holders(s, l) == {})
      ensures Holders(s', l) == if s.locks[l].sem.count > 0 then {t} else Holders(s, l)
    {
      StepKeeps(s, t, SemTest, s');
      UnitOrHolder(s, l);
      HoldersAfterPass(s.pc, s'.pc, s.locks[l], s'.locks[l], t, l);
    }

    static lemma {:induction false} HoldersAfterPass(
      pc: map<Tid, Pc>, pc': map<Tid, Pc>, k: Monitor.Lock, k': Monitor.Lock, t: Tid, l: LockId)
      requires UnitOk(pc, k, l) && t in pc && pc[t].Testing? && k'.owner == k.owner && k.owner != Some(t)
      requires pc' == pc[t := if k.sem.count > 0 then Granted(l) else SemAsleep(l)]
      ensures (set u | u in pc' && Holds(pc', k', l, u))
           == if k.sem.count > 0 then {t} else set u | u in pc && Holds(pc, k, l, u)
    {
      assert forall u | u != t :: Holds(pc', k', l, u) <==> Holds(pc, k, l, u);
    }

    static lemma {:induction false} OwnMeans(s: State, t: Tid, l: LockId)
      requires Inv(s) && t in s.pc && s.pc[t] == Granted(l) && l in s.locks && s.locks[l].spin.None?
      ensures var s' := SetPc(SetLock(s, l, s.locks[l].(owner := Some(t))), t, Running);
              Next(s, t, SetOwner, s') && Inv(s') && Holders(s', l) == {t}
      ensures s.locks[l].owner.None?
    {
      AtLock(s, t);
      var s' := SetPc(SetLock(s, l, s.locks[l].(owner := Some(t))), t, Running);
      StepKeeps(s, t, SetOwner, s');
      UnitOrHolder(s', l);
    }

    static lemma {:induction false} DisownMeans(s: State, t: Tid, l: LockId, w: Option<CvId>)
      requires Inv(s) && t in s.pc && l in s.locks && s.locks[l].spin.None?
      requires if w.None? then s.pc[t].Running? && s.locks[l].owner == Some(t) else s.pc[t] == WaitEntered(w.value, l)
      ensures var s' := SetPc(SetLock(s, l, s.locks[l].(owner := None, spin := Some(t))), t, Releasing(l, w));
              Next(s, t, if w.None? then CallRelease(l) else WaitRelease, s') && Inv(s') && Holders(s', l) == {t}
      ensures s.locks[l].owner == Some(t)
    {
      if w.Some? { AtLock(s, t); }
      var s' := SetPc(SetLock(s, l, s.locks[l].(owner := None, spin := Some(t))), t, Releasing(l, w));
      StepKeeps(s, t, if w.None? then CallRelease(l) else WaitRelease, s');
      OnlyHolder(s', t, l);
    }

    static lemma {:induction false} OnlyHolder(s: State, t: Tid, l: LockId)
      requires Inv(s) && l in s.locks && Holds(s.pc, s.locks[l], l, t)
      ensures Holders(s, l) == {t}
    {
      assert LockOk(s.pc, s.locks[l], l);
    }

    static lemma {:induction false} ReleaseMeans(s: State, t: Tid, l: LockId, s': State)
      requires Inv(s) && t in s.pc && s.pc[t].Releasing? && s.pc[t].l == l && l in s.locks && l in s'.locks
      requires var k, w := s.locks[l], s.pc[t].wait;
               && s'.locks == s.locks[l := k.(sem := S.Post(k.sem), spin := None)] && s'.cvs == s.cvs
               && s'.pc == Awaken(s.pc, k.sem.queue, l)[t := if w.None? then Running else WaitReleased(w.value, l)]
      ensures Next(s, t, Post, s') && Inv(s') && Holders(s', l) == {}
      ensures var q := s.locks[l].sem.queue;
              if q == [] then forall u | u in s'.pc :: s'.pc[u] != SemAsleep(l)
              else q[0] in s'.pc && s'.pc[q[0]] == Testing(l, true)
    {
      StepKeeps(s, t, Post, s');
      UnitOrHolder(s', l);
      ReleaseWakes(s.pc, s.locks[l], l, t, s'.pc, s'.locks[l]);
    }

    static lemma {:induction false} ReleaseWakes(
      pc: map<Tid, Pc>, k: Monitor.Lock, l: LockId, t: Tid, pc': map<Tid, Pc>, k': Monitor.Lock)
      requires SleepersOk(pc, k, l) && t in pc && pc[t].Releasing? && k'.sem == S.Post(k.sem) && SleepersOk(pc', k', l)
      requires t in pc' && !pc'[t].SemAsleep? && pc' == Awaken(pc, k.sem.queue, l)[t := pc'[t]]
      ensures var q := k.sem.queue;
              if q == [] then forall u | u in pc' :: pc'[u] != SemAsleep(l)
              else q[0] in pc' && pc'[q[0]] == Testing(l, true)
    {
      var q := k.sem.queue;
      if q != [] { assert q[0] in q; }
    }

    static lemma {:induction false} EnterMeans(s: State, t: Tid, c: CvId, l: LockId, waits: bool, all: bool)
      requires Inv(s) && t in s.pc && s.pc[t].Running? && l in s.locks && c in s.cvs
      requires s.locks[l].owner == Some(t) && s.locks[l].spin.None? && s.cvs[c].spin.None?
      ensures var p := if waits then WaitEntered(c, l) else Signalling(c, l, all);
              var s' := SetPc(SetCv(s, c, s.cvs[c].(spin := Some(t))), t, p);
              && Next(s, t, if waits then CallWait(c, l) else CallSignal(c, l, all), s') && Inv(s')
              && forall u | u in s'.pc :: InCv(s'.pc[u], c) <==> u == t
    {
      var p := if waits then WaitEntered(c, l) else Signalling(c, l, all);
      var s' := SetPc(SetCv(s, c, s.cvs[c].(spin := Some(t))), t, p);
      StepKeeps(s, t, if waits then CallWait(c, l) else CallSignal(c, l, all), s');
      assert CvOk(s'.pc, s'.cvs[c], c);
    }

    static lemma {:induction false} SleepMeans(s: State, t: Tid, c: CvId)
      requires Inv(s) && t in s.pc && s.pc[t].WaitReleased? && s.pc[t].c == c && c in s.cvs
      ensures var s' := SetPc(SetCv(s, c, Monitor.Cv(s.cvs[c].queue + [t], None)), t, CvAsleep(c, s.pc[t].l));
              Next(s, t, WaitSleep, s') && Inv(s')
      ensures OnlySpin(s, t, Some(c))
    {
      SpinsHeld(s, t, Some(c));
      StepKeeps(s, t, WaitSleep, SetPc(SetCv(s, c, Monitor.Cv(s.cvs[c].queue + [t], None)), t, CvAsleep(c, s.pc[t].l)));
    }

    // ---- Sections ----

    /** lock_acquire up to P, also at the end of cv_wait: the assertion that t does not hold the lock. */
    method BeginAcquire(t: Tid, l: LockId) returns (held: bool)
      requires Valid() && Inv(View()) && t in pc && l in locks && View().locks[l].spin.None?
      requires if pc[t].Running? then View().locks[l].owner != Some(t)
               else pc[t].CvWoken? && pc[t].l == l && pc[t].c in cvs && View().cvs[pc[t].c].spin.None?
      modifies this`pc
      ensures !held && Inv(View())
      ensures Next(old(View()), t, if old(pc[t]).Running? then CallAcquire(l) else WaitResume, View())
    {
      AcquireMeans(View(), t, l);
      held := locks[l].owner == Some(t);
      Move(pc[t := Testing(l, false)]);
    }

    /** lock_acquire: a pass of P's loop on the lock's semaphore. It succeeds exactly when nobody holds the lock, and t
        is then the only holder; otherwise t sleeps behind the others. */
    method PassP(t: Tid, l: LockId) returns (got: bool)
      requires Valid() && Inv(View()) && t in pc && pc[t].Testing? && pc[t].l == l && l in locks
      modifies this`pc, locks[l].sem
      ensures Next(old(View()), t, SemTest, View()) && Inv(View())
      ensures got <==> old(Holders(View(), l)) == {}
      ensures Holders(View(), l) == if got then {t} else old(Holders(View(), l))
    {
      ghost var s := View();
      got := TryP(l, t);
      Move(pc[t := if got then Granted(l) else SemAsleep(l)]);
      PassMeans(s, t, l, View());
    }

    /** lock_acquire after P: the assertion that nobody owns the lock, and t owns it. */
    method TakeOwnership(t: Tid, l: LockId) returns (unowned: bool)
      requires Valid() && Inv(View()) && t in pc && pc[t] == Granted(l) && l in locks && View().locks[l].spin.None?
      modifies this`pc, locks[l]
      ensures Next(old(View()), t, SetOwner, View()) && Inv(View())
      ensures unowned && View().locks[l].owner == Some(t) && Holders(View(), l) == {t}
    {
      OwnMeans(View(), t, l);
      unowned := locks[l].owner.None?;
      WriteLock(l, Some(t), locks[l].spin);
      Move(pc[t := Running]);
    }

    /** lock_release up to V, by the owner or from cv_wait, where the assertion that it is the owner holds: lk_owner is
        cleared, but until V nobody else can get the lock. */
    method GiveUpOwnership(t: Tid, l: LockId, ghost w: Option<CvId>) returns (owned: bool)
      requires Valid() && Inv(View()) && t in pc && l in locks && View().locks[l].spin.None?
      requires if w.None? then pc[t].Running? && View().locks[l].owner == Some(t) else pc[t] == WaitEntered(w.value, l)
      modifies this`pc, locks[l]
      ensures Next(old(View()), t, if w.None? then CallRelease(l) else WaitRelease, View()) && Inv(View())
      ensures owned && View().locks[l].owner.None? && Holders(View(), l) == {t}
    {
      DisownMeans(View(), t, l, w);
      owned := locks[l].owner == Some(t);
      WriteLock(l, None, Some(t));
      Move(pc[t := Releasing(l, w)]);
    }

    /** lock_release: V and the end. Nobody holds the lock, and the longest sleeper, if any, will try again. */
    method FinishRelease(t: Tid, l: LockId) returns (woken: Option<Tid>)
      requires Valid() && Inv(View()) && t in pc && pc[t].Releasing? && pc[t].l == l && l in locks
      modifies this`pc, locks[l], locks[l].sem
      ensures Next(old(View()), t, Post, View()) && Inv(View())
      ensures Holders(View(), l) == {}
      ensures var q := old(View()).locks[l].sem.queue;
              if woken.None? then forall u | u in pc :: pc[u] != SemAsleep(l)
              else q != [] && woken.value == q[0] && q[0] in pc && pc[q[0]] == Testing(l, true)
    {
      ghost var s := View();
      woken := PostAndUnlock(l);
      ghost var p := if s.pc[t].wait.None? then Running else WaitReleased(s.pc[t].wait.value, l);
      Move(Awaken(pc, s.locks[l].sem.queue, l)[t := p]);
      ReleaseMeans(s, t, l, View());
    }

    method PostAndUnlock(l: LockId) returns (woken: Option<Tid>)
      requires Valid() && l in locks
      modifies locks[l], locks[l].sem
      ensures var k := old(View()).locks[l];
              && View() == SetLock(old(View()), l, k.(sem := S.Post(k.sem), spin := None))
              && woken == if k.sem.queue == [] then None else Some(k.sem.queue[0])
    {
      woken := locks[l].sem.V();
      locks[l].spin := None;
      assert LocksView() == old(LocksView())[l := locks[l].View()];
      assert CvsView() == old(CvsView());
    }

    /** cv_wait, cv_signal or cv_broadcast up to taking cv_lock: t is then the only thread inside. */
    method EnterCv(t: Tid, c: CvId, l: LockId, ghost waits: bool, ghost all: bool)
      requires Valid() && Inv(View()) && t in pc && pc[t].Running? && l in locks && c in cvs
      requires var k := View().locks[l]; k.owner == Some(t) && k.spin.None? && View().cvs[c].spin.None?
      modifies this`pc, cvs[c]
      ensures Next(old(View()), t, if waits then CallWait(c, l) else CallSignal(c, l, all), View()) && Inv(View())
      ensures forall u | u in pc :: InCv(pc[u], c) <==> u == t
    {
      EnterMeans(View(), t, c, l, waits, all);
      WriteCv(c, cvs[c].wchan, Some(t));
      Move(pc[t := if waits then WaitEntered(c, l) else Signalling(c, l, all)]);
    }

    /** cv_wait: wchan_sleep; t holds cv_lock and no other spinlock, and sleeps behind the others. */
    method SleepOnCv(t: Tid, c: CvId)
      requires Valid() && Inv(View()) && t in pc && pc[t].WaitReleased? && pc[t].c == c && c in cvs
      modifies this`pc, cvs[c]
      ensures OnlySpin(old(View()), t, Some(c))
      ensures Next(old(View()), t, WaitSleep, View()) && Inv(View())
    {
      SleepMeans(View(), t, c);
      WriteCv(c, cvs[c].wchan + [t], None);
      Move(pc[t := CvAsleep(c, pc[t].l)]);
    }

    /** The part of a wait channel that has been woken so far */
    ghost predicate WokenUpTo(c: CvId, from: map<Tid, Pc>, q: seq<Tid>, i: nat)
      requires c in cvs
      reads this`pc, cvs[c]
    {
      i <= |q| && cvs[c].wchan == q[i..] && pc == WakeAll(from, q[..i], c)
    }

    static lemma {:induction false} WokenNext(from: map<Tid, Pc>, q: seq<Tid>, i: nat, c: CvId)
      requires Distinct(q) && i < |q| && q[i] in from && AsleepOn(from[q[i]], c)
      ensures WakeAll(from, q[..i], c)[q[i]] == from[q[i]]
      ensures WakeAll(from, q[..i + 1], c) == WakeAll(from, q[..i], c)[q[i] := CvWoken(c, from[q[i]].l)]
    {
      assert q[..i + 1] == q[..i] + [q[i]];
      assert q[i] !in q[..i];
    }

    /** wchan_wakeone on a wait channel that is not empty */
    method WakeHead(c: CvId, ghost from: map<Tid, Pc>, ghost q: seq<Tid>, ghost i: nat)
      requires c in cvs && WokenUpTo(c, from, q, i) && i < |q| && Distinct(q) && q[i] in from && AsleepOn(from[q[i]], c)
      modifies this`pc, cvs[c]
      ensures WokenUpTo(c, from, q, i + 1)
    {
      WokenNext(from, q, i, c);
      pc := pc[cvs[c].wchan[0] := CvWoken(c, pc[cvs[c].wchan[0]].l)];
      cvs[c].wchan := cvs[c].wchan[1..];
    }

    /** wchan_wakeall: the sleepers leave the wait channel one by one. */
    method WakeQueue(c: CvId)
      requires c in cvs && Distinct(cvs[c].wchan) && forall u | u in cvs[c].wchan :: u in pc && AsleepOn(pc[u], c)
      modifies this`pc, cvs[c]
      ensures cvs[c].wchan == [] && pc == WakeAll(old(pc), old(cvs[c].wchan), c)
    {
      ghost var from, q := pc, cvs[c].wchan;
      ghost var i := 0;
      assert q[..0] == [] && WakeAll(from, [], c) == from;
      while cvs[c].wchan != []
        invariant WokenUpTo(c, from, q, i)
        decreases |cvs[c].wchan|
      {
        assert q[i] in q;
        WakeHead(c, from, q, i);
        i := i + 1;
      }
      assert q[..|q|] == q;
    }

    /** wchan_wakeone */
    method WakeFirst(c: CvId)
      requires c in cvs && Distinct(cvs[c].wchan) && forall u | u in cvs[c].wchan :: u in pc && AsleepOn(pc[u], c)
      modifies this`pc, cvs[c]
      ensures var q := old(cvs[c].wchan); cvs[c].wchan == Left(q, false) && pc == WakeAll(old(pc), Woken(q, false), c)
    {
      ghost var q := cvs[c].wchan;
      assert q[..0] == [] && WakeAll(pc, [], c) == pc;
      if cvs[c].wchan != [] {
        assert q[0] in q;
        WakeHead(c, pc, q, 0);
      }
    }

    static lemma {:induction false} SignalMeans(s: State, t: Tid, c: CvId, all: bool, s': State)
      requires Inv(s) && t in s.pc && s.pc[t].Signalling? && s.pc[t].c == c && s.pc[t].all == all && c in s.cvs
      requires var q := s.cvs[c].queue;
               s' == SetPc(SetCv(s, c, Monitor.Cv(Left(q, all), None)).(pc := WakeAll(s.pc, Woken(q, all), c)),
                           t, Running)
      ensures Next(s, t, Wake, s') && Inv(s')
      ensures forall u | u in s'.pc :: AsleepOn(s'.pc[u], c) <==> u in s'.cvs[c].queue
    {
      StepKeeps(s, t, Wake, s');
      assert CvOk(s'.pc, s'.cvs[c], c);
    }

    /** The wakeup inside cv_signal or cv_broadcast, on the objects */
    method WakeSome(c: CvId, all: bool)
      requires Valid() && c in cvs && Distinct(cvs[c].wchan)
      requires forall u | u in cvs[c].wchan :: u in pc && AsleepOn(pc[u], c)
      modifies this`pc, cvs[c]
      ensures var s := old(View()); var q := s.cvs[c].queue;
              View() == SetCv(s, c, Monitor.Cv(Left(q, all), None)).(pc := WakeAll(s.pc, Woken(q, all), c))
    {
      if all { WakeQueue(c); } else { WakeFirst(c); }
      cvs[c].spin := None;
      assert CvsView() == old(CvsView())[c := cvs[c].View()];
      assert LocksView() == old(LocksView());
    }

    /** cv_signal or cv_broadcast under cv_lock: the longest sleeper, or every one, stops waiting, and the wait channel
        holds exactly the threads that still wait. */
    method Signal(t: Tid, c: CvId, all: bool)
      requires Valid() && Inv(View()) && t in pc && pc[t].Signalling? && pc[t].c == c && pc[t].all == all && c in cvs
      modifies this`pc, cvs[c]
      ensures Next(old(View()), t, Wake, View()) && Inv(View())
      ensures forall u | u in pc :: AsleepOn(pc[u], c) <==> u in View().cvs[c].queue
    {
      ghost var s := View();
      AtCv(s, t);
      assert s.cvs[c].queue == cvs[c].wchan;
      WakeSome(c, all);
      Move(pc[t := Running]);
      SignalMeans(s, t, c, all, View());
    }
  }
}

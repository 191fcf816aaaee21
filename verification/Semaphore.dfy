/** Counting semaphores on wait channels, for any number of threads (synch.c). */
module Semaphore {
  import opened VmTypes
  import opened ThreadLists

  /** sem_count, and the threads asleep on the semaphore's wait channel. */
  datatype Sem = Sem(count: nat, queue: seq<Tid>)

  /** One pass of P's loop under the spinlock: take a unit, or join the wait channel. */
  function Test(s: Sem, t: Tid): Sem {
    if s.count == 0 then s.(queue := s.queue + [t]) else s.(count := s.count - 1)
  }

  /** V under the spinlock: one more unit, and the first sleeper is made runnable. */
  function Post(s: Sem): Sem {
    Sem(s.count + 1, if s.queue == [] then [] else s.queue[1..])
  }

  /** The semaphore object; each method is one critical section of its spinlock. */
  class Semaphore {
    var semCount: nat
    var wchan: seq<Tid>

    ghost function View(): Sem
      reads this
    {
      Sem(semCount, wchan)
    }

    constructor (count: nat)
      ensures View() == Sem(count, [])
    {
      semCount, wchan := count, [];
    }

    /** A pass of the loop in P by thread t; false when it went to sleep and must try again once woken. */
    method TryP(t: Tid) returns (done: bool)
      modifies this
      ensures View() == Test(old(View()), t) && done == (old(semCount) > 0)
    {
      if semCount == 0 {
        wchan := wchan + [t];
        return false;
      }
      semCount := semCount - 1;
      done := true;
    }

    /** V, with wchan_wakeone */
    method V() returns (target: Option<Tid>)
      modifies this
      ensures View() == Post(old(View()))
      ensures target == if old(wchan) == [] then None else Some(old(wchan)[0])
    {
      semCount := semCount + 1;
      target := None;
      if wchan != [] {
        target := Some(wchan[0]);
        wchan := wchan[1..];
      }
    }
  }

  // ---- All interleavings ----

  /** One semaphore among any number of threads: its initial count, the completed P's and V's,
      and the threads that were made runnable and have not yet tried again. */
  datatype State = State(sem: Sem, init: nat, ps: nat, vs: nat, woken: set<Tid>)

  /** CallP: a running thread enters P. Retry: a woken thread takes the spinlock again. CallV: any thread. */
  datatype Step = CallP(t: Tid) | Retry(t: Tid) | CallV

  ghost predicate Init(s: State) {
    s.sem == Sem(s.init, []) && s.ps == 0 && s.vs == 0 && s.woken == {}
  }

  ghost predicate Next(s: State, step: Step, t: State) {
    match step
    case CallP(x) =>
      && x !in s.sem.queue && x !in s.woken
      && t == s.(sem := Test(s.sem, x), ps := if s.sem.count > 0 then s.ps + 1 else s.ps)
    case Retry(x) =>
      && x in s.woken
      && t == s.(sem := Test(s.sem, x), ps := if s.sem.count > 0 then s.ps + 1 else s.ps, woken := s.woken - {x})
    case CallV =>
      t == s.(sem := Post(s.sem), vs := s.vs + 1,
              woken := if s.sem.queue == [] then s.woken else s.woken + {s.sem.queue[0]})
  }

  ghost predicate Run(ss: seq<State>, steps: seq<Step>) {
    |ss| == |steps| + 1 && Init(ss[0]) && forall i | 0 <= i < |steps| :: Next(ss[i], steps[i], ss[i + 1])
  }

  ghost predicate Inv(s: State) {
    && Distinct(s.sem.queue) && (forall x | x in s.sem.queue :: x !in s.woken)
    // units are conserved
    && s.init + s.vs == s.ps + s.sem.count
    // no wakeup is lost: while threads sleep, every unit has a woken thread on its way
    && (s.sem.queue != [] ==> s.sem.count <= |s.woken|)
  }

  lemma {:induction false} StepKeeps(s: State, step: Step, t: State)
    requires Inv(s) && Next(s, step, t)
    ensures Inv(t)
  {
    match step
    case CallP(x) =>
    case Retry(x) => assert |t.woken| == |s.woken| - 1;
    case CallV =>
      if s.sem.queue != [] {
        assert s.sem.queue[0] in s.sem.queue;
        assert |t.woken| == |s.woken| + 1;
      }
  }

  /** In every state of every run, with barging allowed. */
  lemma {:induction false} RunInv(ss: seq<State>, steps: seq<Step>, i: nat)
    requires Run(ss, steps) && i <= |steps|
    ensures Inv(ss[i])
  {
    if i > 0 {
      RunInv(ss, steps, i - 1);
      StepKeeps(ss[i - 1], steps[i - 1], ss[i]);
    }
  }

  /** When no woken thread is left to try again, threads sleep only if every unit was consumed:
      the initial ones and one for each V. */
  lemma {:induction false} SleepersMeanExhausted(ss: seq<State>, steps: seq<Step>, i: nat)
    requires Run(ss, steps) && i <= |steps| && ss[i].woken == {} && ss[i].sem.queue != []
    ensures ss[i].sem.count == 0 && ss[i].ps == ss[i].init + ss[i].vs
  {
    RunInv(ss, steps, i);
  }
}

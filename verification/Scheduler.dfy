/** The thread system's operations as they work in place, each on one CPU with interrupts off.
    What they do is said by the steps of Threads, so they keep its invariant. */
module Scheduler {
  import opened ThreadLists
  import opened Threads

  /** S_READY, S_SLEEP on a wait channel, S_ZOMBIE */
  datatype NewState = ToReady | ToSleep(w: nat) | ToZombie

  function Destination(s: State, c: CpuId, ns: NewState): Place
    requires c < |s.cpus| && s.cpus[c].cur in s.home
  {
    match ns
    case ToReady => RunQ(s.home[s.cpus[c].cur])
    case ToSleep(w) => Wchan(w)
    case ToZombie => Zombies(c)
  }

  /** An idle CPU stays idle while its run queue is empty. */
  function Resumed(s: State, c: CpuId): State
    requires c < |s.cpus|
  {
    if Q(s.lists, RunQ(c)) == [] then s else Dispatched(s, c)
  }

  /** The threads of q that belong to CPU d, in order */
  function Own(q: seq<Tid>, home: map<Tid, CpuId>, d: CpuId): seq<Tid> {
    if q == [] then [] else (if q[0] in home && home[q[0]] == d then [q[0]] else []) + Own(q[1..], home, d)
  }

  lemma {:induction false} OwnAppend(q: seq<Tid>, t: Tid, home: map<Tid, CpuId>, d: CpuId)
    ensures Own(q + [t], home, d) == Own(q, home, d) + (if t in home && home[t] == d then [t] else [])
  {
    if q != [] {
      assert (q + [t])[1..] == q[1..] + [t];
      OwnAppend(q[1..], t, home, d);
    }
  }

  /** The head of one list went to the tail of another. */
  ghost predicate Moved(l: Lists, l': Lists, from: Place, to: Place)
    requires Q(l, from) != []
  {
    && Q(l', from) == Q(l, from)[1..] && Q(l', to) == Q(l, to) + [Q(l, from)[0]]
    && forall p | p != from && p != to :: Q(l', p) == Q(l, p)
  }

  /** A thread on a list exists. */
  lemma {:induction false} ListedExists(s: State, p: Place)
    requires Inv(s) && !p.Current? && Q(s.lists, p) != []
    ensures Head(s.lists, p) in s.home
  {
    var m :| Placed(s, m);
    assert Head(s.lists, p) in Q(s.lists, p);
    ListedOnce(s, m, Head(s.lists, p), p);
  }

  /** Some of list from has moved to list to. */
  ghost predicate Collected(l0: Lists, l: Lists, from: Place, to: Place) {
    && Q(l, to) + Q(l, from) == Q(l0, from)
    && forall p | p != from && p != to :: Q(l, p) == Q(l0, p)
  }

  lemma {:induction false} CollectedNext(l0: Lists, l1: Lists, l2: Lists, from: Place, to: Place)
    requires Collected(l0, l1, from, to) && Q(l1, from) != [] && Moved(l1, l2, from, to) && from != to
    ensures Collected(l0, l2, from, to)
  {
    Shift(Q(l1, to), Q(l1, from));
  }

  lemma {:induction false} Shift(done: seq<Tid>, q: seq<Tid>)
    requires q != []
    ensures (done + [q[0]]) + q[1..] == done + q
  {
  }

  function Members(q: seq<Tid>): set<Tid> { set t | t in q }

  /** The threads in gone were taken from the head of list p and destroyed. */
  ghost predicate Exorcised(l0: Lists, h0: map<Tid, CpuId>, l: Lists, h: map<Tid, CpuId>, p: Place, gone: seq<Tid>) {
    && gone + Q(l, p) == Q(l0, p) && h == h0 - Members(gone)
    && forall q | q != p :: Q(l, q) == Q(l0, q)
  }

  lemma {:induction false} ExorcisedNext(l0: Lists, h0: map<Tid, CpuId>, l: Lists, h: map<Tid, CpuId>, p: Place,
      gone: seq<Tid>)
    requires Exorcised(l0, h0, l, h, p, gone) && Q(l, p) != []
    ensures Exorcised(l0, h0, Pop(l, p), h - {Head(l, p)}, p, gone + [Head(l, p)])
  {
    Shift(gone, Q(l, p));
    assert Members(gone + [Head(l, p)]) == Members(gone) + {Head(l, p)};
  }

  lemma {:induction false} ExorcisedNone(l: Lists, h: map<Tid, CpuId>, p: Place)
    ensures Exorcised(l, h, l, h, p, [])
  {
  }

  lemma {:induction false} ExorcisedAll(l0: Lists, h0: map<Tid, CpuId>, l: Lists, h: map<Tid, CpuId>, p: Place,
      gone: seq<Tid>)
    requires Exorcised(l0, h0, l, h, p, gone) && Q(l, p) == []
    ensures (forall q | q != p :: Q(l, q) == Q(l0, q)) && h == h0 - Members(Q(l0, p))
  {
    assert gone == Q(l0, p);
  }

  /** What the run queues have gained when the threads in done were made ready one by one */
  ghost predicate Gained(l: Lists, l': Lists, done: seq<Tid>, home: map<Tid, CpuId>) {
    forall d :: Q(l', RunQ(d)) == Q(l, RunQ(d)) + Own(done, home, d)
  }

  lemma {:induction false} GainedOne(l: Lists, l1: Lists, l2: Lists, done: seq<Tid>, home: map<Tid, CpuId>, from: Place)
    requires Gained(l, l1, done, home) && !from.RunQ? && Q(l1, from) != [] && Q(l1, from)[0] in home
    requires Moved(l1, l2, from, RunQ(home[Q(l1, from)[0]]))
    ensures Gained(l, l2, done + [Q(l1, from)[0]], home)
  {
    var t := Q(l1, from)[0];
    forall d ensures Q(l2, RunQ(d)) == Q(l, RunQ(d)) + Own(done + [t], home, d) {
      GainedAt(Q(l, RunQ(d)), Q(l1, RunQ(d)), Q(l2, RunQ(d)), done, t, home, d);
    }
  }

  lemma {:induction false} GainedAt(q: seq<Tid>, q1: seq<Tid>, q2: seq<Tid>, done: seq<Tid>, t: Tid,
      home: map<Tid, CpuId>, d: CpuId)
    requires q1 == q + Own(done, home, d) && t in home && q2 == if home[t] == d then q1 + [t] else q1
    ensures q2 == q + Own(done + [t], home, d)
  {
    OwnAppend(done, t, home, d);
  }

  /** The threads in done were taken from the head of list p and made ready. */
  ghost predicate Handed(l0: Lists, l: Lists, home: map<Tid, CpuId>, p: Place, done: seq<Tid>) {
    && done + Q(l, p) == Q(l0, p) && Gained(l0, l, done, home)
    && forall q: Place | !q.RunQ? && q != p :: Q(l, q) == Q(l0, q)
  }

  lemma {:induction false} HandedNext(l0: Lists, l1: Lists, l2: Lists, home: map<Tid, CpuId>, p: Place, done: seq<Tid>)
    requires Handed(l0, l1, home, p, done) && !p.RunQ? && Q(l1, p) != [] && Q(l1, p)[0] in home
    requires Moved(l1, l2, p, RunQ(home[Q(l1, p)[0]]))
    ensures Handed(l0, l2, home, p, done + [Q(l1, p)[0]])
  {
    GainedOne(l0, l1, l2, done, home, p);
    Shift(done, Q(l1, p));
  }

  class Machine {
    var cpus: array<Cpu>
    var lists: Lists
    var home: map<Tid, CpuId>

    ghost function View(): State
      reads this, cpus
    {
      State(cpus[..], lists, home)
    }

    constructor (cpus: array<Cpu>, lists: Lists, home: map<Tid, CpuId>)
      ensures this.cpus == cpus && View() == State(cpus[..], lists, home)
    {
      this.cpus, this.lists, this.home := cpus, lists, home;
    }

    /** CPU c may take steps of its own. */
    ghost predicate Ready(c: CpuId)
      reads this, cpus
    {
      Inv(View()) && c < cpus.Length && cpus[c].mig.Off?
    }

    /** thread_make_runnable */
    method MakeRunnable(t: Tid)
      requires t in home
      modifies this`lists
      ensures View() == Threads.MakeRunnable(old(View()), t)
    {
      var p := RunQ(home[t]);
      lists := lists[p := Q(lists, p) + [t]];
    }

    /** thread_fork; room is whether the thread structure and its stack could be allocated, ENOMEM otherwise. */
    method Fork(c: CpuId, t: Tid, room: bool) returns (ok: bool)
      requires Ready(c) && !cpus[c].idle && t !in home
      modifies this`lists, this`home
      ensures Inv(View()) && ok == room
      ensures if ok then Next(old(View()), c, Step.Fork(t), View()) else View() == old(View())
    {
      ok := room;
      if !ok { return; }
      ghost var s := View();
      home := home[t := home[cpus[c].cur]];
      MakeRunnable(t);
      StepKeeps(s, c, Step.Fork(t), View());
    }

    /** The head of a list */
    method RemHead(p: Place) returns (t: Tid)
      requires Q(lists, p) != []
      modifies this`lists
      ensures t == Head(old(lists), p) && lists == Pop(old(lists), p)
    {
      t := lists[p][0];
      lists := lists[p := lists[p][1..]];
    }

    /** The first half of thread_switch */
    method SwitchOut(c: CpuId, ns: NewState)
      requires Ready(c) && !cpus[c].idle && (ns.ToReady? ==> Q(lists, RunQ(c)) != [])
      modifies this`lists, cpus
      ensures View() == Leave(old(View()), c, Destination(old(View()), c, ns)) && Inv(View())
    {
      ghost var s := View();
      var cur := cpus[c].cur;
      match ns {
        case ToReady => MakeRunnable(cur);
        case ToSleep(w) => lists := lists[Wchan(w) := Q(lists, Wchan(w)) + [cur]];
        case ToZombie => lists := lists[Zombies(c) := Q(lists, Zombies(c)) + [cur]];
      }
      cpus[c] := cpus[c].(idle := true);
      assert View().cpus == Leave(s, c, Destination(s, c, ns)).cpus;
      StepKeeps(s, c, match ns case ToReady => Yield case ToSleep(w) => Sleep(w) case ToZombie => Exit, View());
    }

    /** The second half of thread_switch: pick the next thread, if there is one. */
    method SwitchIn(c: CpuId)
      requires Ready(c) && cpus[c].idle
      modifies this`lists, cpus
      ensures View() == Resumed(old(View()), c) && Inv(View())
    {
      ghost var s := View();
      if Q(lists, RunQ(c)) != [] {
        var next := RemHead(RunQ(c));
        cpus[c] := cpus[c].(cur := next, idle := false);
        assert View().cpus == Dispatched(s, c).cpus;
        StepKeeps(s, c, Dispatch, View());
      }
    }

    /** thread_switch: nothing when idle, or when yielding with nobody to yield to */
    method Switch(c: CpuId, ns: NewState)
      requires Ready(c)
      modifies this`lists, cpus
      ensures Inv(View())
      ensures var s := old(View());
              View() == if s.cpus[c].idle || (ns.ToReady? && Q(s.lists, RunQ(c)) == []) then s
                        else Resumed(Leave(s, c, Destination(s, c, ns)), c)
    {
      if cpus[c].idle || (ns.ToReady? && Q(lists, RunQ(c)) == []) { return; }
      SwitchOut(c, ns);
      SwitchIn(c);
    }

    /** exorcise: the zombies of CPU c, and only they, cease to exist. */
    method Exorcise(c: CpuId)
      requires Ready(c) && !cpus[c].idle
      modifies this`lists, this`home
      ensures Inv(View()) && Q(lists, Zombies(c)) == []
      ensures forall p | p != Zombies(c) :: Q(lists, p) == Q(old(lists), p)
      ensures home == old(home) - Members(Q(old(lists), Zombies(c)))
    {
      ghost var gone: seq<Tid> := [];
      ExorcisedNone(lists, home, Zombies(c));
      while Q(lists, Zombies(c)) != []
        invariant Ready(c) && !cpus[c].idle && Exorcised(old(lists), old(home), lists, home, Zombies(c), gone)
        decreases |Q(lists, Zombies(c))|
      {
        gone := ExorciseOne(c, old(lists), old(home), gone);
      }
      ExorcisedAll(old(lists), old(home), lists, home, Zombies(c), gone);
    }

    method ExorciseOne(c: CpuId, ghost l0: Lists, ghost h0: map<Tid, CpuId>, ghost gone: seq<Tid>)
      returns (ghost gone': seq<Tid>)
      requires Ready(c) && !cpus[c].idle && Q(lists, Zombies(c)) != []
      requires Exorcised(l0, h0, lists, home, Zombies(c), gone)
      modifies this`lists, this`home
      ensures Ready(c) && |Q(lists, Zombies(c))| < |Q(old(lists), Zombies(c))|
      ensures Exorcised(l0, h0, lists, home, Zombies(c), gone')
    {
      ghost var l, h := lists, home;
      var z := DestroyZombie(c);
      ExorcisedNext(l0, h0, l, h, Zombies(c), gone);
      gone' := gone + [z];
    }

    /** One pass of exorcise: the zombie is not the current thread. */
    method DestroyZombie(c: CpuId) returns (z: Tid)
      requires Ready(c) && !cpus[c].idle && Q(lists, Zombies(c)) != []
      modifies this`lists, this`home
      ensures Inv(View()) && z == Head(old(lists), Zombies(c)) && z != cpus[c].cur
      ensures lists == Pop(old(lists), Zombies(c)) && home == old(home) - {z}
    {
      ghost var s := View();
      z := RemHead(Zombies(c));
      ghost var m :| Placed(s, m);
      ZombieNotCurrent(s, m, c, c);
      home := home - {z};
      StepKeeps(s, c, Step.Exorcise, View());
    }

    /** wchan_wakeone, called on CPU c: the thread that has slept longest, if any, becomes ready on its own CPU. */
    method WakeOne(c: CpuId, w: nat)
      requires Ready(c) && Q(lists, Waking(c)) == []
      modifies this`lists
      ensures Inv(View()) && Q(lists, Waking(c)) == []
      ensures var q := Q(old(lists), Wchan(w));
              && Q(lists, Wchan(w)) == (if q == [] then [] else q[1..])
              && forall d :: Q(lists, RunQ(d)) == Q(old(lists), RunQ(d)) + Own(if q == [] then [] else [q[0]], home, d)
    {
      if Q(lists, Wchan(w)) == [] { return; }
      Take(c, w);
      MakeReady(c);
    }

    /** A sleeper moves to the caller's private list. */
    method Take(c: CpuId, w: nat)
      requires Ready(c) && Q(lists, Wchan(w)) != []
      modifies this`lists
      ensures Inv(View()) && Moved(old(lists), lists, Wchan(w), Waking(c))
    {
      ghost var s := View();
      var t := RemHead(Wchan(w));
      lists := lists[Waking(c) := Q(lists, Waking(c)) + [t]];
      StepKeeps(s, c, Step.Take(w), View());
    }

    /** The head of the private list becomes ready. */
    method MakeReady(c: CpuId)
      requires Ready(c) && Q(lists, Waking(c)) != []
      modifies this`lists
      ensures Inv(View()) && Head(old(lists), Waking(c)) in home
      ensures Moved(old(lists), lists, Waking(c), RunQ(home[Head(old(lists), Waking(c))]))
    {
      ghost var s := View();
      ListedExists(s, Waking(c));
      var t := RemHead(Waking(c));
      MakeRunnable(t);
      StepKeeps(s, c, Step.Ready, View());
    }

    /** wchan_wakeall: every sleeper becomes ready on its own CPU, behind what was there, in the order of going to
        sleep. */
    method WakeAll(c: CpuId, w: nat)
      requires Ready(c) && Q(lists, Waking(c)) == []
      modifies this`lists
      ensures Inv(View()) && Q(lists, Waking(c)) == [] && Q(lists, Wchan(w)) == []
      ensures forall d :: Q(lists, RunQ(d)) == Q(old(lists), RunQ(d)) + Own(Q(old(lists), Wchan(w)), home, d)
    {
      Collect(c, w);
      Distribute(c);
    }

    /** The first loop of wchan_wakeall */
    method Collect(c: CpuId, w: nat)
      requires Ready(c) && Q(lists, Waking(c)) == []
      modifies this`lists
      ensures Inv(View()) && Q(lists, Wchan(w)) == [] && Q(lists, Waking(c)) == Q(old(lists), Wchan(w))
      ensures forall p | p != Wchan(w) && p != Waking(c) :: Q(lists, p) == Q(old(lists), p)
    {
      while Q(lists, Wchan(w)) != []
        invariant Ready(c) && Collected(old(lists), lists, Wchan(w), Waking(c))
        decreases |Q(lists, Wchan(w))|
      {
        CollectOne(c, w, old(lists));
      }
    }

    method CollectOne(c: CpuId, w: nat, ghost l0: Lists)
      requires Ready(c) && Q(lists, Wchan(w)) != [] && Collected(l0, lists, Wchan(w), Waking(c))
      modifies this`lists
      ensures Ready(c) && Collected(l0, lists, Wchan(w), Waking(c))
      ensures |Q(lists, Wchan(w))| < |Q(old(lists), Wchan(w))|
    {
      ghost var was := lists;
      Take(c, w);
      CollectedNext(l0, was, lists, Wchan(w), Waking(c));
    }

    /** The second loop of wchan_wakeall */
    method Distribute(c: CpuId)
      requires Ready(c)
      modifies this`lists
      ensures Inv(View()) && Q(lists, Waking(c)) == []
      ensures Gained(old(lists), lists, Q(old(lists), Waking(c)), home)
      ensures forall p: Place | !p.RunQ? && p != Waking(c) :: Q(lists, p) == Q(old(lists), p)
    {
      ghost var done: seq<Tid> := [];
      while Q(lists, Waking(c)) != []
        invariant Ready(c) && Handed(old(lists), lists, home, Waking(c), done)
        decreases |Q(lists, Waking(c))|
      {
        ghost var was := lists;
        MakeReady(c);
        HandedNext(old(lists), was, lists, home, Waking(c), done);
        done := done + [Q(was, Waking(c))[0]];
      }
      assert done == Q(old(lists), Waking(c));
    }
  }
}

/** thread_consider_migration (thread.c) on queues that nobody else changes meanwhile: what it computes, and
    that this balances the load. Threads covers the interleavings with other CPUs. */
module Migration {
  import opened ThreadLists
  import opened Threads

  type Queues = seq<seq<Tid>>

  /** Number of threads on the first i queues */
  function Count(qs: Queues, i: nat): nat
    requires i <= |qs|
  {
    if i == 0 then 0 else Count(qs, i - 1) + |qs[i - 1]|
  }

  /** Threads on the first i queues */
  function All(qs: Queues, i: nat): multiset<Tid>
    requires i <= |qs|
  {
    if i == 0 then multiset{} else All(qs, i - 1) + multiset(qs[i - 1])
  }

  function OneShare(qs: Queues): nat
    requires qs != []
  {
    Share(Count(qs, |qs|), |qs|)
  }

  /** How many threads CPU i can take before it has its share */
  function Gap(qs: Queues, me: nat, share: nat, i: nat): nat
    requires i < |qs|
  {
    if i == me || |qs[i]| >= share then 0 else share - |qs[i]|
  }

  function Room(qs: Queues, me: nat, share: nat, i: nat): nat
    requires i <= |qs|
  {
    if i == 0 then 0 else Room(qs, me, share, i - 1) + Gap(qs, me, share, i - 1)
  }

  /** The thread is on the list at most once. */
  ghost predicate Once(q: seq<Tid>, t: Tid) {
    forall i, j | 0 <= i < j < |q| :: q[i] != t || q[j] != t
  }

  /** The threads sent away: all victims but the current thread */
  function Without(q: seq<Tid>, cur: Tid): seq<Tid> {
    if q == [] then [] else (if q[0] == cur then [] else [q[0]]) + Without(q[1..], cur)
  }

  function Min(a: nat, b: nat): nat { if a <= b then a else b }

  /** What the first i CPUs take of the sent threads */
  function Taken(qs: Queues, me: nat, share: nat, sent: seq<Tid>, i: nat): (n: nat)
    requires i <= |qs|
    ensures n <= |sent|
  {
    Min(|sent|, Room(qs, me, share, i))
  }

  /** CPU i's queue once each other CPU in turn got as many of the sent threads as it had room for */
  function DealtTo(qs: Queues, me: nat, share: nat, cur: Tid, i: nat): seq<Tid>
    requires me < |qs| && share <= |qs[me]| && i < |qs|
  {
    var victims := qs[me][share..];
    var sent := Without(victims, cur);
    if i == me then qs[me][..share] + (if cur in victims then [cur] else [])
    else qs[i] + sent[Taken(qs, me, share, sent, i)..Taken(qs, me, share, sent, i + 1)]
  }

  function Dealt(qs: Queues, me: nat, share: nat, cur: Tid): (r: Queues)
    requires me < |qs| && share <= |qs[me]|
    ensures |r| == |qs|
  {
    seq(|qs|, i requires 0 <= i < |qs| => DealtTo(qs, me, share, cur, i))
  }

  /** The queues afterwards */
  function Balanced(qs: Queues, me: nat, cur: Tid): (r: Queues)
    requires me < |qs|
    ensures |r| == |qs|
  {
    if |qs[me]| < OneShare(qs) then qs else Dealt(qs, me, OneShare(qs), cur)
  }

  lemma {:induction false} RoomGrows(qs: Queues, me: nat, share: nat, i: nat, j: nat)
    requires i <= j <= |qs|
    ensures Room(qs, me, share, i) <= Room(qs, me, share, j)
  {
    if i < j { RoomGrows(qs, me, share, i, j - 1); }
  }

  // ---- There is room for everything ----

  lemma {:induction false} ShareCovers(total: nat, n: nat)
    requires n > 0
    ensures total <= Share(total, n) * n < total + n
  {
    var x := total + n - 1;
    assert x == (x / n) * n + x % n;
  }

  lemma {:induction false} RoomCounts(qs: Queues, me: nat, share: nat, i: nat)
    requires i <= |qs| && me < |qs|
    ensures Room(qs, me, share, i) >= share * i - Count(qs, i) - (if me < i then share - |qs[me]| else 0)
  {
    if i > 0 { RoomCounts(qs, me, share, i - 1); }
  }

  lemma {:induction false} RoomEnough(qs: Queues, me: nat)
    requires me < |qs| && |qs[me]| >= OneShare(qs)
    ensures Room(qs, me, OneShare(qs), |qs|) >= |qs[me]| - OneShare(qs)
  {
    RoomCounts(qs, me, OneShare(qs), |qs|);
    ShareCovers(Count(qs, |qs|), |qs|);
  }

  // ---- The result is balanced and loses nobody ----

  lemma {:induction false} WithoutLength(q: seq<Tid>, cur: Tid)
    requires Once(q, cur)
    ensures multiset(q) == multiset(Without(q, cur)) + (if cur in q then multiset{cur} else multiset{})
    ensures |q| == |Without(q, cur)| + (if cur in q then 1 else 0)
    ensures cur !in Without(q, cur)
  {
    if q != [] {
      assert q == [q[0]] + q[1..];
      assert multiset(q) == multiset{q[0]} + multiset(q[1..]);
      WithoutLength(q[1..], cur);
    }
  }

  /** The sender keeps its share, and the current thread if that was among the excess;
      nobody is pushed above the share, and nobody's queue is reordered. */
  lemma {:induction false} DealtShares(qs: Queues, me: nat, share: nat, cur: Tid, i: nat)
    requires me < |qs| && share <= |qs[me]| && i < |qs|
    ensures var q := DealtTo(qs, me, share, cur, i);
            if i == me then |q| == share + (if cur in qs[me][share..] then 1 else 0)
            else qs[i] <= q && (q == qs[i] || |q| <= share)
  {
  }

  lemma {:induction false} BalancedShares(qs: Queues, me: nat, cur: Tid, i: nat)
    requires me < |qs| && OneShare(qs) <= |qs[me]| && i < |qs|
    ensures var share, q := OneShare(qs), Balanced(qs, me, cur)[i];
            if i == me then |q| == share + (if cur in qs[me][share..] then 1 else 0)
            else qs[i] <= q && (q == qs[i] || |q| <= share)
  {
    DealtShares(qs, me, OneShare(qs), cur, i);
  }

  /** How often thread t occurs in q */
  function Times(q: seq<Tid>, t: Tid): nat { multiset(q)[t] }

  lemma {:induction false} DealtTimes(qs: Queues, me: nat, share: nat, cur: Tid, i: nat, t: Tid)
    requires me < |qs| && share <= |qs[me]| && i < |qs|
    ensures var sent := Without(qs[me][share..], cur);
            var before := Times(sent[..Taken(qs, me, share, sent, i)], t);
            var after := Times(sent[..Taken(qs, me, share, sent, i + 1)], t);
            if i == me then after == before
            else Times(DealtTo(qs, me, share, cur, i), t) + before == Times(qs[i], t) + after
  {
    var sent := Without(qs[me][share..], cur);
    var a, b := Taken(qs, me, share, sent, i), Taken(qs, me, share, sent, i + 1);
    assert sent[..b] == sent[..a] + sent[a..b];
  }

  lemma {:induction false} AllNext(qs: Queues, i: nat, t: Tid)
    requires i < |qs|
    ensures All(qs, i + 1)[t] == All(qs, i)[t] + Times(qs[i], t)
  {
  }

  /** Queues other than me's gain in total what was handed out. */
  lemma {:induction false} Handed(qs: Queues, r: Queues, me: nat, handed: seq<nat>, i: nat, t: Tid)
    requires |r| == |qs| && |handed| == |qs| + 1 && handed[0] == 0 && me < |qs| && i <= |qs|
    requires forall j | 0 <= j < |qs| ::
               if j == me then handed[j + 1] == handed[j]
               else Times(r[j], t) + handed[j] == Times(qs[j], t) + handed[j + 1]
    ensures All(r, i)[t] + (if me < i then Times(qs[me], t) else 0)
              == All(qs, i)[t] + handed[i] + (if me < i then Times(r[me], t) else 0)
  {
    if i > 0 {
      Handed(qs, r, me, handed, i - 1, t);
      AllNext(qs, i - 1, t);
      AllNext(r, i - 1, t);
    }
  }

  lemma {:induction false} SenderTimes(qs: Queues, me: nat, share: nat, cur: Tid, t: Tid)
    requires me < |qs| && share <= |qs[me]| && Once(qs[me], cur)
    ensures var sent := Without(qs[me][share..], cur);
            |sent| <= |qs[me]| - share && Times(qs[me], t) == Times(DealtTo(qs, me, share, cur, me), t) + Times(sent, t)
  {
    var victims := qs[me][share..];
    assert qs[me] == qs[me][..share] + victims;
    WithoutLength(victims, cur);
  }

  lemma {:induction false} HandedStep(qs: Queues, me: nat, share: nat, cur: Tid, sent: seq<Tid>, t: Tid, j: nat, a: nat,
      b: nat)
    requires me < |qs| && share <= |qs[me]| && sent == Without(qs[me][share..], cur) && j < |qs|
    requires a == Times(sent[..Taken(qs, me, share, sent, j)], t)
    requires b == Times(sent[..Taken(qs, me, share, sent, j + 1)], t)
    ensures if j == me then b == a else Times(DealtTo(qs, me, share, cur, j), t) + a == Times(qs[j], t) + b
  {
    DealtTimes(qs, me, share, cur, j, t);
  }

  lemma {:induction false} HandedOut(qs: Queues, me: nat, share: nat, cur: Tid, sent: seq<Tid>, t: Tid)
      returns (handed: seq<nat>)
    requires me < |qs| && share <= |qs[me]| && sent == Without(qs[me][share..], cur)
    requires Room(qs, me, share, |qs|) >= |sent|
    ensures |handed| == |qs| + 1 && handed[0] == 0 && handed[|qs|] == Times(sent, t)
    ensures forall j | 0 <= j < |qs| ::
              if j == me then handed[j + 1] == handed[j]
              else Times(DealtTo(qs, me, share, cur, j), t) + handed[j] == Times(qs[j], t) + handed[j + 1]
  {
    handed := seq(|qs| + 1, j requires 0 <= j <= |qs| => Times(sent[..Taken(qs, me, share, sent, j)], t));
    forall j | 0 <= j < |qs|
      ensures if j == me then handed[j + 1] == handed[j]
              else Times(DealtTo(qs, me, share, cur, j), t) + handed[j] == Times(qs[j], t) + handed[j + 1]
    {
      HandedStep(qs, me, share, cur, sent, t, j, handed[j], handed[j + 1]);
    }
    assert sent[..|sent|] == sent;
  }

  lemma {:induction false} DealtConserves(qs: Queues, me: nat, share: nat, cur: Tid, t: Tid)
    requires me < |qs| && share <= |qs[me]| && Once(qs[me], cur) && Room(qs, me, share, |qs|) >= |qs[me]| - share
    ensures All(Dealt(qs, me, share, cur), |qs|)[t] == All(qs, |qs|)[t]
  {
    SenderTimes(qs, me, share, cur, t);
    var handed := HandedOut(qs, me, share, cur, Without(qs[me][share..], cur), t);
    var r := Dealt(qs, me, share, cur);
    assert forall j | 0 <= j < |qs| :: r[j] == DealtTo(qs, me, share, cur, j);
    Handed(qs, r, me, handed, |qs|, t);
  }

  /** No thread is lost or duplicated. */
  lemma {:induction false} BalancedConserves(qs: Queues, me: nat, cur: Tid)
    requires me < |qs| && Once(qs[me], cur)
    ensures All(Balanced(qs, me, cur), |qs|) == All(qs, |qs|)
  {
    if |qs[me]| >= OneShare(qs) {
      RoomEnough(qs, me);
      forall t ensures All(Balanced(qs, me, cur), |qs|)[t] == All(qs, |qs|)[t] {
        DealtConserves(qs, me, OneShare(qs), cur, t);
      }
    }
  }

  // ---- The loops ----

  /** The victims' list v while p of the threads to send have been placed and send passes are left: the current
      thread, if it was a victim (had), is still ahead or was moved to the tail. */
  ghost predicate Holding(v: seq<Tid>, send: nat, rotated: bool, cur: Tid, had: bool, sent: seq<Tid>, p: nat) {
    && p <= |sent| && |v| == send + (if rotated then 1 else 0) && Without(v[..send], cur) == sent[p..]
    && (if rotated then had && v[send] == cur && cur !in v[..send] else (cur in v <==> had) && Once(v, cur))
  }

  lemma {:induction false} WithoutNone(q: seq<Tid>, cur: Tid)
    requires cur !in q
    ensures Without(q, cur) == q
  {
    if q != [] { WithoutNone(q[1..], cur); }
  }

  /** The thread at the head is the current one: it goes to the tail, at most once. */
  lemma {:induction false} RotateHolding(v: seq<Tid>, send: nat, rotated: bool, cur: Tid, had: bool, sent: seq<Tid>,
      p: nat)
    requires Holding(v, send, rotated, cur, had, sent, p) && send > 0 && v[0] == cur
    ensures !rotated && Holding(v[1..] + [cur], send - 1, true, cur, had, sent, p)
  {
    assert v[..send][0] == cur;
    assert !rotated;
    assert cur !in v[1..];
    assert v[..send] == v;
    assert (v[1..] + [cur])[..send - 1] == v[1..];
  }

  lemma {:induction false} SendHolding(v: seq<Tid>, send: nat, rotated: bool, cur: Tid, had: bool, sent: seq<Tid>,
      p: nat)
    requires Holding(v, send, rotated, cur, had, sent, p) && send > 0 && v[0] != cur
    ensures p < |sent| && sent[p] == v[0] && Holding(v[1..], send - 1, rotated, cur, had, sent, p + 1)
  {
    assert v[..send][0] == v[0] && v[..send][1..] == v[1..][..send - 1];
    assert sent[p..] == [v[0]] + Without(v[1..][..send - 1], cur);
    assert sent[p..][0] == v[0] && sent[p..][1..] == sent[p + 1..];
    assert v == [v[0]] + v[1..];
  }

  /** Passes left and threads placed never exceed the victims there were. */
  lemma {:induction false} HoldingCount(v: seq<Tid>, send: nat, rotated: bool, cur: Tid, had: bool, sent: seq<Tid>,
      p: nat)
    requires Holding(v, send, rotated, cur, had, sent, p)
    ensures p + send <= |sent| + (if had then 1 else 0)
    ensures send == 0 ==> p == |sent|
  {
    if rotated { WithoutNone(v[..send], cur); } else {
      assert v[..send] == v;
      WithoutLength(v, cur);
    }
  }

  /** The inner loop: CPU i gets victims until it has its share or none are left to send. */
  method FillCpu(runq: array<seq<Tid>>, i: nat, share: nat, cur: Tid, victims: seq<Tid>, toSend: nat,
                 ghost rotated: bool, ghost had: bool, ghost sent: seq<Tid>, ghost p: nat)
    returns (left: seq<Tid>, send: nat, ghost rotated': bool, ghost p': nat)
    requires i < runq.Length && Holding(victims, toSend, rotated, cur, had, sent, p)
    modifies runq
    ensures p <= p' && Holding(left, send, rotated', cur, had, sent, p')
    ensures runq[i] == old(runq[i]) + sent[p..p']
    ensures forall j | 0 <= j < runq.Length && j != i :: runq[j] == old(runq[j])
    ensures p' == p || |runq[i]| <= share
    ensures send > 0 ==> |runq[i]| >= share
  {
    left, send, rotated', p' := victims, toSend, rotated, p;
    ghost var before := runq[i];
    assert before + sent[p..p] == before;
    while |runq[i]| < share && send > 0
      invariant p <= p' && Holding(left, send, rotated', cur, had, sent, p')
      invariant runq[i] == before + sent[p..p'] && forall j | 0 <= j < runq.Length && j != i :: runq[j] == old(runq[j])
      invariant p' == p || |runq[i]| <= share
      decreases send
    {
      var t := left[0];
      if t == cur {
        RotateHolding(left, send, rotated', cur, had, sent, p');
        left, send, rotated' := left[1..] + [t], send - 1, true;
      } else {
        SendHolding(left, send, rotated', cur, had, sent, p');
        assert before + sent[p..p' + 1] == before + sent[p..p'] + [t];
        runq[i] := runq[i] + [t];
        left, send, p' := left[1..], send - 1, p' + 1;
      }
    }
  }

  /** Queues of the first i CPUs have been dealt with, the others are as they were. */
  ghost predicate DealtBelow(runq: seq<seq<Tid>>, qs: Queues, me: nat, share: nat, cur: Tid, i: nat)
    requires me < |qs| && share <= |qs[me]| && |runq| == |qs|
  {
    && runq[me] == qs[me][..share]
    && forall j {:trigger runq[j]} | 0 <= j < |qs| && j != me ::
         runq[j] == if j < i then DealtTo(qs, me, share, cur, j) else qs[j]
  }

  /** CPU i has been filled: what was placed by then is what the specification says. */
  lemma {:induction false} Filled(qs: Queues, me: nat, share: nat, sent: seq<Tid>, i: nat, q: seq<Tid>, p: nat, p': nat,
      more: bool)
    requires i < |qs| && i != me && p == Room(qs, me, share, i) && p <= p' <= |sent| && q == qs[i] + sent[p..p']
    requires p' == p || |q| <= share
    requires if more then |q| >= share else p' == |sent|
    ensures p == Taken(qs, me, share, sent, i) && p' == Taken(qs, me, share, sent, i + 1)
    ensures more ==> p' == Room(qs, me, share, i + 1)
  {
  }

  lemma {:induction false} DealtNext(was: Queues, now: Queues, qs: Queues, me: nat, share: nat, cur: Tid, i: nat)
    requires me < |qs| && share <= |qs[me]| && |was| == |now| == |qs| && i < |qs| && i != me
    requires DealtBelow(was, qs, me, share, cur, i) && now == was[i := DealtTo(qs, me, share, cur, i)]
    ensures DealtBelow(now, qs, me, share, cur, i + 1)
  {
  }

  lemma {:induction false} StartHolding(victims: seq<Tid>, cur: Tid)
    requires Once(victims, cur)
    ensures Holding(victims, |victims|, false, cur, cur in victims, Without(victims, cur), 0)
    ensures |victims| == |Without(victims, cur)| + (if cur in victims then 1 else 0)
  {
    assert victims[..|victims|] == victims;
    WithoutLength(victims, cur);
  }

  /** The outer loop before CPU i */
  ghost predicate Underway(runq: Queues, qs: Queues, me: nat, share: nat, cur: Tid, i: nat,
                           left: seq<Tid>, send: nat, rotated: bool, p: nat)
    requires me < |qs| && share <= |qs[me]| && |runq| == |qs| && i <= |qs|
  {
    var victims := qs[me][share..];
    var sent := Without(victims, cur);
    && Holding(left, send, rotated, cur, cur in victims, sent, p)
    && p == Taken(qs, me, share, sent, i) && (send > 0 ==> p == Room(qs, me, share, i))
    && DealtBelow(runq, qs, me, share, cur, i)
  }

  lemma {:induction false} Starts(runq: Queues, qs: Queues, me: nat, share: nat, cur: Tid, victims: seq<Tid>)
    requires me < |qs| && share <= |qs[me]| && |runq| == |qs| && victims == qs[me][share..] && Once(victims, cur)
    requires DealtBelow(runq, qs, me, share, cur, 0)
    ensures Underway(runq, qs, me, share, cur, 0, victims, |victims|, false, 0)
  {
    StartHolding(victims, cur);
  }

  /** One pass of the outer loop */
  method PlaceOn(runq: array<seq<Tid>>, me: nat, cur: Tid, share: nat, i: nat, victims: seq<Tid>, toSend: nat,
                 ghost qs: Queues, ghost rotated: bool, ghost p: nat)
    returns (left: seq<Tid>, send: nat, ghost rotated': bool, ghost p': nat)
    requires runq.Length == |qs| && me < |qs| && share <= |qs[me]| && i < |qs| && toSend > 0
    requires Underway(runq[..], qs, me, share, cur, i, victims, toSend, rotated, p)
    modifies runq
    ensures Underway(runq[..], qs, me, share, cur, i + 1, left, send, rotated', p')
  {
    if i == me { return victims, toSend, rotated, p; }
    ghost var had, sent := cur in qs[me][share..], Without(qs[me][share..], cur);
    ghost var was := runq[..];
    left, send, rotated', p' := FillCpu(runq, i, share, cur, victims, toSend, rotated, had, sent, p);
    HoldingCount(left, send, rotated', cur, had, sent, p');
    Filled(qs, me, share, sent, i, runq[i], p, p', send > 0);
    DealtNext(was, runq[..], qs, me, share, cur, i);
  }

  /** The outer loop: no excess is left but the current thread. */
  method PlaceVictims(runq: array<seq<Tid>>, me: nat, cur: Tid, share: nat, victims: seq<Tid>, ghost qs: Queues)
    returns (left: seq<Tid>)
    requires runq.Length == |qs| && me < |qs| && share <= |qs[me]| && victims == qs[me][share..] && Once(victims, cur)
    requires DealtBelow(runq[..], qs, me, share, cur, 0) && Room(qs, me, share, |qs|) >= |victims|
    modifies runq
    ensures DealtBelow(runq[..], qs, me, share, cur, |qs|) && left == if cur in victims then [cur] else []
  {
    ghost var rotated, p := false, 0;
    var send: nat, i: nat := |victims|, 0;
    left := victims;
    Starts(runq[..], qs, me, share, cur, victims);
    while i < runq.Length && send > 0
      invariant i <= |qs| && Underway(runq[..], qs, me, share, cur, i, left, send, rotated, p)
    {
      left, send, rotated, p := PlaceOn(runq, me, cur, share, i, left, send, qs, rotated, p);
      i := i + 1;
    }
    Finished(runq[..], qs, me, share, cur, victims, i, left, send, rotated, p);
  }

  lemma {:induction false} Finished(runq: Queues, qs: Queues, me: nat, share: nat, cur: Tid, victims: seq<Tid>, i: nat,
                                    left: seq<Tid>, send: nat, rotated: bool, p: nat)
    requires me < |qs| && share <= |qs[me]| && |runq| == |qs| && i <= |qs| && (i == |qs| || send == 0)
    requires victims == qs[me][share..] && Once(victims, cur) && Room(qs, me, share, |qs|) >= |victims|
    requires Underway(runq, qs, me, share, cur, i, left, send, rotated, p)
    ensures DealtBelow(runq, qs, me, share, cur, |qs|) && left == if cur in victims then [cur] else []
  {
    var sent := Without(victims, cur);
    HoldingCount(left, send, rotated, cur, cur in victims, sent, p);
    WithoutLength(victims, cur);
    AllSent(qs, me, share, i, p, send, |victims|);
    Ended(left, send, rotated, cur, cur in victims, sent, p);
    DealtRest(runq, qs, me, share, cur, i);
  }

  lemma {:induction false} AllSent(qs: Queues, me: nat, share: nat, i: nat, p: nat, send: nat, n: nat)
    requires i <= |qs| && Room(qs, me, share, |qs|) >= n && p + send <= n
    requires send > 0 ==> i == |qs| && p == Room(qs, me, share, i)
    ensures send == 0
  {
  }

  /** With nothing left to send, only the current thread can be left over. */
  lemma {:induction false} Ended(v: seq<Tid>, send: nat, rotated: bool, cur: Tid, had: bool, sent: seq<Tid>, p: nat)
    requires Holding(v, send, rotated, cur, had, sent, p) && send == 0
    ensures v == if had then [cur] else []
  {
  }

  lemma {:induction false} DealtRest(runq: seq<seq<Tid>>, qs: Queues, me: nat, share: nat, cur: Tid, i: nat)
    requires me < |qs| && share <= |qs[me]| && |runq| == |qs| && i <= |qs| && DealtBelow(runq, qs, me, share, cur, i)
    requires Room(qs, me, share, i) >= |Without(qs[me][share..], cur)|
    ensures DealtBelow(runq, qs, me, share, cur, |qs|)
  {
    forall j | i <= j < |qs| && j != me ensures qs[j] == DealtTo(qs, me, share, cur, j) {
      RoomGrows(qs, me, share, i, j);
    }
  }

  /** The first loop: threads on all queues */
  method CountThreads(runq: array<seq<Tid>>) returns (total: nat)
    ensures total == Count(runq[..], runq.Length)
  {
    total := 0;
    for i := 0 to runq.Length
      invariant total == Count(runq[..], i)
    {
      total := total + |runq[i]|;
    }
  }

  /** The second loop: the last threads of the queue, in order, become the victims. */
  method ChooseVictims(runq: array<seq<Tid>>, me: nat, toSend: nat) returns (victims: seq<Tid>)
    requires me < runq.Length && toSend <= |runq[me]|
    modifies runq
    ensures runq[me] == old(runq[me])[..|old(runq[me])| - toSend]
    ensures victims == old(runq[me])[|old(runq[me])| - toSend..]
    ensures forall j | 0 <= j < runq.Length && j != me :: runq[j] == old(runq[j])
  {
    victims := [];
    ghost var q := runq[me];
    for i := 0 to toSend
      invariant runq[me] == q[..|q| - i] && victims == q[|q| - i..]
      invariant forall j | 0 <= j < runq.Length && j != me :: runq[j] == old(runq[j])
    {
      var last := |runq[me]| - 1;
      var t := runq[me][last];
      runq[me] := runq[me][..last];
      victims := [t] + victims;
    }
  }

  /** The last loop: leftovers go back on the queue. */
  method PutBack(runq: array<seq<Tid>>, me: nat, left: seq<Tid>)
    requires me < runq.Length
    modifies runq
    ensures runq[me] == old(runq[me]) + left
    ensures forall j | 0 <= j < runq.Length && j != me :: runq[j] == old(runq[j])
  {
    var victims := left;
    ghost var back: seq<Tid> := [];
    while victims != []
      invariant back + victims == left && runq[me] == old(runq[me]) + back
      invariant forall j | 0 <= j < runq.Length && j != me :: runq[j] == old(runq[j])
      decreases |victims|
    {
      var t := victims[0];
      runq[me] := runq[me] + [t];
      victims := victims[1..];
      back := back + [t];
    }
  }

  /** The loops once the share is known */
  method Rebalance(runq: array<seq<Tid>>, me: nat, cur: Tid, share: nat)
    requires me < runq.Length && Once(runq[me], cur) && share <= |runq[me]|
    requires Room(runq[..], me, share, runq.Length) >= |runq[me]| - share
    modifies runq
    ensures runq[..] == Dealt(old(runq[..]), me, share, cur)
  {
    ghost var qs := runq[..];
    var victims := ChooseVictims(runq, me, |runq[me]| - share);
    VictimsOnce(qs[me], share, cur);
    var left := PlaceVictims(runq, me, cur, share, victims, qs);
    ghost var r := runq[..];
    PutBack(runq, me, left);
    DealtIs(qs, me, cur, share, r, runq[..]);
  }

  /** thread_consider_migration on CPU me, whose current thread is cur */
  method ConsiderMigration(runq: array<seq<Tid>>, me: nat, cur: Tid)
    requires me < runq.Length && Once(runq[me], cur)
    modifies runq
    ensures runq[..] == Balanced(old(runq[..]), me, cur)
  {
    var total := CountThreads(runq);
    var my, share := |runq[me]|, Share(total, runq.Length);
    if my < share { return; }
    RoomEnough(runq[..], me);
    Rebalance(runq, me, cur, share);
  }

  lemma {:induction false} VictimsOnce(q: seq<Tid>, share: nat, cur: Tid)
    requires share <= |q| && Once(q, cur)
    ensures Once(q[share..], cur)
  {
    assert q == q[..share] + q[share..];
  }

  lemma {:induction false} DealtIs(qs: Queues, me: nat, cur: Tid, share: nat, r: Queues, r': Queues)
    requires me < |qs| && share <= |qs[me]| && |r| == |r'| == |qs|
    requires DealtBelow(r, qs, me, share, cur, |qs|)
    requires r' == r[me := r[me] + (if cur in qs[me][share..] then [cur] else [])]
    ensures r' == Dealt(qs, me, share, cur)
  {
    forall j | 0 <= j < |qs| ensures r'[j] == DealtTo(qs, me, share, cur, j) {}
  }

  // ---- The current thread among the victims ----

  /** CPU 0 of two forks threads 2 and 3 and goes to sleep; CPU 1 wakes its thread again. */
  function IdleSteps(): (seq<CpuId>, seq<Step>) {
    ([0, 0, 0, 1, 1], [Fork(2), Fork(3), Sleep(0), Take(0), Ready])
  }

  function IdleRun(): seq<State> {
    var s0 := State([Cpu(0, false, Off), Cpu(1, false, Off)], map[], map[0 := 0, 1 := 1]);
    var s1 := MakeRunnable(s0.(home := s0.home[2 := 0]), 2);
    var s2 := MakeRunnable(s1.(home := s1.home[3 := 0]), 3);
    var s3 := Leave(s2, 0, Wchan(0));
    var s4 := s3.(lists := Push(Pop(s3.lists, Wchan(0)), Waking(1), 0));
    var s5 := MakeRunnable(s4.(lists := Pop(s4.lists, Waking(1))), 0);
    [s0, s1, s2, s3, s4, s5]
  }

  /** An idle CPU's current thread does get onto the CPU's own run queue, as its last thread. */
  lemma {:induction false} CurrentQueued()
    ensures Run(IdleRun(), IdleSteps().0, IdleSteps().1)
    ensures var s := IdleRun()[5];
            && s.cpus[0].idle && s.cpus[0].cur == 0
            && Q(s.lists, RunQ(0)) == [2, 3, 0] && Q(s.lists, RunQ(1)) == []
  {
    IdleForks();
    IdleWakes();
  }

  lemma {:induction false} IdleForks()
    ensures var ss := IdleRun();
            && Init(ss[0]) && Next(ss[0], 0, Fork(2), ss[1])
            && Next(ss[1], 0, Fork(3), ss[2]) && Next(ss[2], 0, Sleep(0), ss[3])
  {
  }

  lemma {:induction false} IdleWakes()
    ensures var ss := IdleRun();
            && Next(ss[3], 1, Take(0), ss[4]) && Next(ss[4], 1, Ready, ss[5])
            && Q(ss[5].lists, RunQ(0)) == [2, 3, 0] && Q(ss[5].lists, RunQ(1)) == []
  {
    var ss := IdleRun();
    assert Q(ss[3].lists, Wchan(0)) == [0] && Q(ss[3].lists, RunQ(0)) == [2, 3];
    assert Q(ss[4].lists, Waking(1)) == [0];
  }

  /** In that state the current thread is the excess, and the sender keeps one thread more than its share. */
  lemma {:induction false} SenderKeepsOneMore()
    ensures var qs: Queues := [[2, 3, 0], []]; OneShare(qs) == 2 && Balanced(qs, 0, 0) == qs
  {
    var qs: Queues := [[2, 3, 0], []];
    assert Count(qs, 1) == Count(qs, 0) + 3 && Count(qs, 2) == Count(qs, 1);
    assert qs[0][2..] == [0] && Without([0], 0) == [];
    assert DealtTo(qs, 0, 2, 0, 0) == [2, 3] + [0];
    assert DealtTo(qs, 0, 2, 0, 1) == [];
    assert [2, 3] + [0] == qs[0];
    var r := Balanced(qs, 0, 0);
    assert r[0] == qs[0] && r[1] == qs[1];
    assert r == qs;
  }
}

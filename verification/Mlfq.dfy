/** The multi-level feedback queues, kept as numbers in the process table. */
module Mlfq {
  datatype RunState = Unused | Embryo | Sleeping | Runnable | Running | Zombie

  datatype Process = Process(state: RunState, pid: int, level: int, qnum: int, ticks: int, priority: int)

  const L0_QUANTUM: int := 4
  const L1_QUANTUM: int := 6
  const L2_QUANTUM: int := 8
  const PASSWORD: int := 2020005269

  function Quantum(level: int): int {
    if level == 0 then L0_QUANTUM else if level == 1 then L1_QUANTUM else L2_QUANTUM
  }

  predicate Live(p: Process) {
    p.state != Unused && p.state != Zombie
  }

  predicate InLevel(p: Process, level: int) {
    Live(p) && p.level == level
  }

  /** q lists the live processes of a level in the order their numbers give: a real queue. */
  ghost predicate Queue(procs: seq<Process>, level: int, q: seq<nat>) {
    && (forall k :: 0 <= k < |q| ==> Queued(procs, level, q, k))
    && (forall i: nat :: i < |procs| && InLevel(procs[i], level) ==> 0 <= procs[i].qnum < |q| && q[procs[i].qnum] == i)
  }

  ghost predicate Queued(procs: seq<Process>, level: int, q: seq<nat>, k: int)
    requires 0 <= k < |q|
  {
    q[k] < |procs| && InLevel(procs[q[k]], level) && procs[q[k]].qnum == k
  }

  /** Levels, priorities and used-up time are what they should be. */
  predicate InRange(p: Process) {
    0 <= p.level <= 2 && 0 <= p.priority <= 3 && 0 <= p.ticks < Quantum(p.level)
  }

  // ---------------------------------------------------------------- selection

  /** a is to run rather than b: lower level, in level 2 better priority, then earlier in the queue. */
  predicate Beats(a: Process, b: Process) {
    || a.level < b.level
    || (a.level == b.level && (
          if a.level == 2 then a.priority < b.priority || (a.priority == b.priority && a.qnum < b.qnum)
          else a.qnum < b.qnum))
  }

  predicate Eligible(p: Process) {
    p.state == Runnable && 0 <= p.level <= 2
  }

  /** The process the scheduler takes among the first n: the best one, and the first of equals. */
  predicate Chosen(procs: seq<Process>, n: nat, p: int)
    requires n <= |procs|
  {
    if p < 0 then forall i :: 0 <= i < n ==> !Eligible(procs[i])
    else
      && p < n && Eligible(procs[p])
      && (forall i :: 0 <= i < n && Eligible(procs[i]) ==> !Beats(procs[i], procs[p]))
      && (forall i :: 0 <= i < p && Eligible(procs[i]) ==> Beats(procs[p], procs[i]))
  }

  /** There is one choice. */
  lemma OneChoice(procs: seq<Process>, p: int, q: int)
    requires Chosen(procs, |procs|, p) && Chosen(procs, |procs|, q)
    ensures p == q || (p < 0 && q < 0)
  {
  }

  /** Place k of the queue holds a runnable process. */
  predicate Ready(procs: seq<Process>, q: seq<nat>, k: nat)
    requires k < |q|
  {
    q[k] < |procs| && procs[q[k]].state == Runnable
  }

  /** From the lowest level with runnable processes, if it is 0 or 1, the first runnable one of the queue is chosen. */
  lemma FirstChosen(procs: seq<Process>, level: int, q: seq<nat>, k: nat)
    requires 0 <= level <= 1 && Queue(procs, level, q) && k < |q|
    requires forall j :: 0 <= j <= k ==> (Ready(procs, q, j) <==> j == k)
    requires forall i :: 0 <= i < |procs| && Eligible(procs[i]) ==> procs[i].level >= level
    ensures Chosen(procs, |procs|, q[k])
  {
    assert Ready(procs, q, k) && Queued(procs, level, q, k);
    forall i: nat | i < |procs| && Eligible(procs[i]) && i != q[k]
      ensures Beats(procs[q[k]], procs[i])
    {
      assert InLevel(procs[i], level) ==> q[procs[i].qnum] == i && Ready(procs, q, procs[i].qnum);
    }
  }

  /** From level 2 the first in the queue among the runnable processes of the best priority is chosen. */
  lemma BestChosen(procs: seq<Process>, q: seq<nat>, k: nat)
    requires Queue(procs, 2, q) && k < |q| && Ready(procs, q, k)
    requires forall j :: 0 <= j < |q| && Ready(procs, q, j) ==>
               procs[q[k]].priority < procs[q[j]].priority || (procs[q[k]].priority == procs[q[j]].priority && k <= j)
    requires forall i :: 0 <= i < |procs| && Eligible(procs[i]) ==> procs[i].level == 2
    ensures Chosen(procs, |procs|, q[k])
  {
    assert Queued(procs, 2, q, k);
    forall i: nat | i < |procs| && Eligible(procs[i]) && i != q[k]
      ensures Beats(procs[q[k]], procs[i])
    {
      assert InLevel(procs[i], 2) && q[procs[i].qnum] == i && Ready(procs, q, procs[i].qnum);
    }
  }

  method Select(procs: array<Process>) returns (p: int)
    ensures p < procs.Length && Chosen(procs[..], procs.Length, p)
  {
    p := -1;
    var cur := 0;
    while cur < procs.Length
      invariant 0 <= cur <= procs.Length && -1 <= p < cur
      invariant Chosen(procs[..], cur, p)
    {
      if procs[cur].state == Runnable {
        var ql := procs[cur].level;
        if ql == 0 {
          if p == -1 {
            p := cur;
          } else if procs[p].level > 0 || procs[p].qnum > procs[cur].qnum {
            p := cur;
          }
        } else if ql == 1 {
          if !(p != -1 && procs[p].level == 0) {
            if p == -1 {
              p := cur;
            } else if procs[p].level > 1 {
              p := cur;
            } else if procs[p].level == 1 && procs[p].qnum > procs[cur].qnum {
              p := cur;
            }
          }
        } else if ql == 2 {
          if !(p != -1 && procs[p].level < 2) {
            if p == -1 {
              p := cur;
            } else if procs[p].priority > procs[cur].priority {
              p := cur;
            } else if procs[cur].priority == procs[p].priority && procs[p].qnum > procs[cur].qnum {
              p := cur;
            } else if procs[cur].priority == procs[p].priority && procs[p].qnum > procs[cur].qnum && procs[cur].pid < procs[p].pid {
              p := cur;
            }
          }
        }
      }
      cur := cur + 1;
    }
  }

  // ---------------------------------------------------------------- ticks

  /** What update_proc makes of a process other than the running one, me. */
  function Shifted(p: Process, me: Process): Process {
    if p.pid != me.pid && p.level == me.level && p.qnum > 0 then p.(qnum := p.qnum - 1) else p
  }

  /** Has the running process used up its quantum with the tick just counted? */
  predicate Expires(me: Process) {
    me.ticks + 1 == Quantum(me.level)
  }

  /** The table after a timer tick in process me; size gives the lengths of the three queues. */
  ghost predicate Ticked(procs: seq<Process>, size: seq<int>, procs': seq<Process>, size': seq<int>, me: nat)
    requires |size| == |size'| == 3 && me < |procs| && 0 <= procs[me].level <= 2
  {
    var p := procs[me];
    var down := Expires(p) && p.level < 2;
    && |procs'| == |procs|
    && (forall i :: 0 <= i < |procs| && i != me ==> procs'[i] == Shifted(procs[i], p))
    && procs'[me] == p.(level := if down then p.level + 1 else p.level,
                        qnum := (if down then size[p.level + 1] + 1 else size[p.level]) - 1,
                        ticks := if Expires(p) then 0 else p.ticks + 1,
                        priority := if Expires(p) && p.level == 2 && p.priority >= 1 then p.priority - 1 else p.priority)
    && size' == if down then size[p.level := size[p.level] - 1][p.level + 1 := size[p.level + 1] + 1] else size
  }

  /** Tables one tick apart, each in the process named. */
  ghost predicate TickRun(tables: seq<seq<Process>>, sizes: seq<seq<int>>, who: seq<nat>, me: nat) {
    && |tables| == |sizes| == |who| + 1
    && (forall i :: 0 <= i < |tables| ==> |sizes[i]| == 3 && me < |tables[i]|)
    && forall i :: 0 <= i < |who| ==>
         && who[i] < |tables[i]| && 0 <= tables[i][who[i]].level <= 2
         && Ticked(tables[i], sizes[i], tables[i + 1], sizes[i + 1], who[i])
  }

  function Times(who: seq<nat>, me: nat): nat {
    if who == [] then 0 else Times(who[..|who| - 1], me) + if who[|who| - 1] == me then 1 else 0
  }

  /**
   * Over any ticks of any processes, a process keeps its level and its priority until its own have used up the quantum of its
   * level; then it is one level lower, or at level 2 of a priority better by one if that can be, with all of its time again.
   */
  lemma {:induction false} QuantumUsed(tables: seq<seq<Process>>, sizes: seq<seq<int>>, who: seq<nat>, me: nat)
    requires TickRun(tables, sizes, who, me) && InRange(tables[0][me]) && tables[0][me].ticks == 0
    requires Times(who, me) <= Quantum(tables[0][me].level)
    ensures var p, p' := tables[0][me], tables[|who|][me];
            && p'.state == p.state && p'.pid == p.pid
            && if Times(who, me) < Quantum(p.level) then
                 p'.level == p.level && p'.priority == p.priority && p'.ticks == Times(who, me)
               else
                 && p'.ticks == 0 && p'.level == (if p.level < 2 then p.level + 1 else 2)
                 && p'.priority == if p.level == 2 && p.priority > 0 then p.priority - 1 else p.priority
  {
    if who != [] {
      var n := |who| - 1;
      hide Ticked;
      assert TickRun(tables[..n + 1], sizes[..n + 1], who[..n], me);
      QuantumUsed(tables[..n + 1], sizes[..n + 1], who[..n], me);
      assert tables[n + 1] == tables[|who|];
      OneTick(tables[n], sizes[n], tables[n + 1], sizes[n + 1], who[n], me);
    }
  }

  lemma OneTick(procs: seq<Process>, size: seq<int>, procs': seq<Process>, size': seq<int>, who: nat, me: nat)
    requires |size| == |size'| == 3 && who < |procs| && me < |procs| && 0 <= procs[who].level <= 2
    requires Ticked(procs, size, procs', size', who)
    ensures |procs'| == |procs|
    ensures var p, p' := procs[me], procs'[me];
            if who != me then p' == p.(qnum := p'.qnum)
            else
              && p'.state == p.state && p'.pid == p.pid
              && if p.ticks + 1 == Quantum(p.level) then
                   && p'.ticks == 0 && p'.level == (if p.level < 2 then p.level + 1 else 2)
                   && p'.priority == if p.level == 2 && p.priority > 0 then p.priority - 1 else p.priority
                 else p'.level == p.level && p'.priority == p.priority && p'.ticks == p.ticks + 1
  {
  }

  /** Three queues that agree with the numbers in the table. */
  ghost predicate Queues(procs: seq<Process>, size: seq<int>, q: seq<seq<nat>>) {
    && |size| == |q| == 3
    && forall l :: 0 <= l < 3 ==> Queue(procs, l, q[l]) && size[l] == |q[l]|
  }

  /** A queue without its k-th process. */
  function Without(q: seq<nat>, k: nat): (r: seq<nat>)
    requires k < |q|
    ensures |r| == |q| - 1
    ensures forall j :: 0 <= j < |r| ==> r[j] == q[if j < k then j else j + 1]
  {
    q[..k] + q[k + 1..]
  }

  ghost predicate OwnPid(procs: seq<Process>, me: nat)
    requires me < |procs|
  {
    forall i :: 0 <= i < |procs| && i != me && Live(procs[i]) ==> procs[i].pid != procs[me].pid
  }

  /** The queues after a tick: the running process goes to the end of its queue, or of the next one when its time is up. */
  function NextQueues(q: seq<seq<nat>>, me: nat, p: Process): seq<seq<nat>>
    requires |q| == 3 && 0 <= p.level <= 2 && 0 <= p.qnum < |q[p.level]|
  {
    var rest := Without(q[p.level], p.qnum);
    if Expires(p) && p.level < 2 then q[p.level := rest][p.level + 1 := q[p.level + 1] + [me]]
    else q[p.level := rest + [me]]
  }

  /** A tick of a process at the head of its queue, or next to it, keeps all three queues in order. */
  lemma TickQueues(procs: seq<Process>, size: seq<int>, procs': seq<Process>, size': seq<int>, me: nat, q: seq<seq<nat>>)
    requires Queues(procs, size, q) && |size'| == 3 && me < |procs| && Live(procs[me]) && InRange(procs[me]) && OwnPid(procs, me)
    requires Ticked(procs, size, procs', size', me) && procs[me].qnum <= 1
    ensures 0 <= procs[me].qnum < |q[procs[me].level]|
    ensures Queues(procs', size', NextQueues(q, me, procs[me]))
  {
    var p := procs[me];
    assert InLevel(procs[me], p.level) && q[p.level][p.qnum] == me;
    forall l | 0 <= l < 3
      ensures Queue(procs', l, NextQueues(q, me, p)[l])
    {
      TickQueue(procs, size, procs', size', me, q, l);
    }
  }

  lemma TickQueue(procs: seq<Process>, size: seq<int>, procs': seq<Process>, size': seq<int>, me: nat,
                  q: seq<seq<nat>>, l: int)
    requires Queues(procs, size, q) && |size'| == 3 && me < |procs| && Live(procs[me]) && InRange(procs[me]) && OwnPid(procs, me)
    requires Ticked(procs, size, procs', size', me) && 0 <= procs[me].qnum <= 1 && procs[me].qnum < |q[procs[me].level]|
    requires 0 <= l < 3 && q[procs[me].level][procs[me].qnum] == me
    ensures Queue(procs', l, NextQueues(q, me, procs[me])[l])
  {
    hide Ticked, OwnPid;
    var r := NextQueues(q, me, procs[me])[l];
    forall k: nat | k < |r|
      ensures Queued(procs', l, r, k)
    {
      TickPlace(procs, size, procs', size', me, q, l, k);
    }
    forall i: nat | i < |procs'| && InLevel(procs'[i], l)
      ensures 0 <= procs'[i].qnum < |r| && r[procs'[i].qnum] == i
    {
      TickNumber(procs, size, procs', size', me, q, l, i);
    }
  }

  lemma TickPlace(procs: seq<Process>, size: seq<int>, procs': seq<Process>, size': seq<int>, me: nat,
                  q: seq<seq<nat>>, l: int, k: nat)
    requires Queues(procs, size, q) && |size'| == 3 && me < |procs| && Live(procs[me]) && InRange(procs[me]) && OwnPid(procs, me)
    requires Ticked(procs, size, procs', size', me) && 0 <= procs[me].qnum <= 1 && procs[me].qnum < |q[procs[me].level]|
    requires 0 <= l < 3 && q[procs[me].level][procs[me].qnum] == me && k < |NextQueues(q, me, procs[me])[l]|
    ensures Queued(procs', l, NextQueues(q, me, procs[me])[l], k)
  {
    var p, r := procs[me], NextQueues(q, me, procs[me])[l];
    var at := if l == p.level && k >= p.qnum then k + 1 else k;
    if at < |q[l]| {
      assert Queued(procs, l, q[l], at);
      assert r[k] == q[l][at] && r[k] != me;
    }
  }

  lemma TickNumber(procs: seq<Process>, size: seq<int>, procs': seq<Process>, size': seq<int>, me: nat,
                   q: seq<seq<nat>>, l: int, i: nat)
    requires Queues(procs, size, q) && |size'| == 3 && me < |procs| && Live(procs[me]) && InRange(procs[me]) && OwnPid(procs, me)
    requires Ticked(procs, size, procs', size', me) && 0 <= procs[me].qnum <= 1 && procs[me].qnum < |q[procs[me].level]|
    requires 0 <= l < 3 && q[procs[me].level][procs[me].qnum] == me && i < |procs'| && InLevel(procs'[i], l)
    ensures var r := NextQueues(q, me, procs[me])[l]; 0 <= procs'[i].qnum < |r| && r[procs'[i].qnum] == i
  {
    assert Queue(procs, l, q[l]);
    if i != me {
      assert InLevel(procs[i], l);
      assert q[l][procs[i].qnum] == i;
    }
  }

  /** A tick of a process further back leaves no queues that agree with the table. */
  lemma TickBreaks(procs: seq<Process>, size: seq<int>, procs': seq<Process>, size': seq<int>, me: nat,
                   q: seq<seq<nat>>, q': seq<seq<nat>>)
    requires Queues(procs, size, q) && |size'| == 3 && me < |procs| && Live(procs[me]) && InRange(procs[me]) && OwnPid(procs, me)
    requires Ticked(procs, size, procs', size', me) && procs[me].qnum > 1
    ensures !Queues(procs', size', q')
  {
    var l := procs[me].level;
    assert InLevel(procs[me], l) && q[l][procs[me].qnum] == me;
    assert Queued(procs, l, q[l], 0) && Queued(procs, l, q[l], 1);
    var a, b := q[l][0], q[l][1];
    assert InLevel(procs'[a], l) && InLevel(procs'[b], l) && procs'[a].qnum == 0 == procs'[b].qnum;
  }

  /** Exactly the ticks of the first two processes of a queue keep the numbers those of real queues. */
  lemma TickKeeps(procs: seq<Process>, size: seq<int>, procs': seq<Process>, size': seq<int>, me: nat, q: seq<seq<nat>>)
    requires Queues(procs, size, q) && |size'| == 3 && me < |procs| && Live(procs[me]) && InRange(procs[me]) && OwnPid(procs, me)
    requires Ticked(procs, size, procs', size', me)
    ensures (exists q' :: Queues(procs', size', q')) <==> procs[me].qnum <= 1
  {
    if procs[me].qnum <= 1 {
      TickQueues(procs, size, procs', size', me, q);
    } else {
      forall q'
        ensures !Queues(procs', size', q')
      {
        TickBreaks(procs, size, procs', size', me, q, q');
      }
    }
  }

  /** The first two processes of level 0 sleep and the third is running: its tick gives two processes the number 0. */
  lemma TickExample()
    ensures var first, second := Process(Sleeping, 1, 0, 0, 0, 3), Process(Sleeping, 2, 0, 1, 0, 3);
            var me := Process(Running, 3, 0, 2, 0, 3);
            var procs, procs' := [first, second, me], [first, second.(qnum := 0), me.(ticks := 1)];
            && Queues(procs, [3, 0, 0], [[0, 1, 2], [], []]) && OwnPid(procs, 2)
            && (forall i :: 0 <= i < 3 ==> InRange(procs[i]))
            && Chosen(procs[2 := me.(state := Runnable)], 3, 2)
            && Ticked(procs, [3, 0, 0], procs', [3, 0, 0], 2)
            && forall q :: !Queues(procs', [3, 0, 0], q)
  {
    var first, second := Process(Sleeping, 1, 0, 0, 0, 3), Process(Sleeping, 2, 0, 1, 0, 3);
    var me := Process(Running, 3, 0, 2, 0, 3);
    var procs, procs' := [first, second, me], [first, second.(qnum := 0), me.(ticks := 1)];
    forall l | 0 <= l < 3
      ensures Queue(procs, l, [[0, 1, 2], [], []][l])
    {
    }
    forall q
      ensures !Queues(procs', [3, 0, 0], q)
    {
      TickBreaks(procs, [3, 0, 0], procs', [3, 0, 0], 2, [[0, 1, 2], [], []], q);
    }
  }

  // ---------------------------------------------------------------- boosting

  /** The first n places of the table that hold live processes of a level, in table order. */
  function InOrder(procs: seq<Process>, level: int, n: nat): (r: seq<nat>)
    requires n <= |procs|
    ensures |r| <= n
  {
    if n == 0 then [] else InOrder(procs, level, n - 1) + if InLevel(procs[n - 1], level) then [n - 1] else []
  }

  lemma {:induction false} InOrderRank(procs: seq<Process>, level: int, n: nat)
    requires n <= |procs|
    ensures forall k :: 0 <= k < |InOrder(procs, level, n)| ==> Ranked(procs, level, n, k)
    ensures forall i: nat :: i < n && InLevel(procs[i], level) ==> HasRank(procs, level, n, i)
  {
    if n > 0 {
      InOrderRank(procs, level, n - 1);
      var r, m := InOrder(procs, level, n), InOrder(procs, level, n - 1);
      forall k | 0 <= k < |r|
        ensures Ranked(procs, level, n, k)
      {
        assert k < |m| ==> Ranked(procs, level, n - 1, k) && r[k] == m[k];
      }
      forall i: nat | i < n && InLevel(procs[i], level)
        ensures HasRank(procs, level, n, i)
      {
        assert i < n - 1 ==> HasRank(procs, level, n - 1, i);
      }
    }
  }

  /** Position k of the list holds a member with k members before it. */
  ghost predicate Ranked(procs: seq<Process>, level: int, n: nat, k: nat)
    requires n <= |procs| && k < |InOrder(procs, level, n)|
  {
    var i := InOrder(procs, level, n)[k];
    i < n && InLevel(procs[i], level) && |InOrder(procs, level, i)| == k
  }

  ghost predicate HasRank(procs: seq<Process>, level: int, n: nat, i: nat)
    requires i < n <= |procs|
  {
    var r := InOrder(procs, level, n);
    |InOrder(procs, level, i)| < |r| && r[|InOrder(procs, level, i)|] == i
  }

  lemma {:induction false} InOrderSame(procs: seq<Process>, procs': seq<Process>, level: int, n: nat)
    requires |procs'| == |procs| && n <= |procs|
    requires forall i :: 0 <= i < n ==> (InLevel(procs'[i], level) <==> InLevel(procs[i], level))
    ensures InOrder(procs', level, n) == InOrder(procs, level, n)
  {
    if n > 0 {
      InOrderSame(procs, procs', level, n - 1);
    }
  }

  /** One loop of priority_boosting: the live processes of a level get numbers from i on, in table order. */
  ghost predicate Lifted(procs: seq<Process>, procs': seq<Process>, level: int, i: nat, n: nat)
    requires n <= |procs|
  {
    && |procs'| == |procs|
    && forall j :: 0 <= j < |procs| ==> LiftedAt(procs, procs'[j], level, i, j, j < n)
  }

  ghost predicate LiftedAt(procs: seq<Process>, p: Process, level: int, i: nat, j: nat, passed: bool)
    requires j < |procs|
  {
    p == if passed && InLevel(procs[j], level)
         then procs[j].(level := 0, priority := 3, ticks := 0, qnum := i + |InOrder(procs, level, j)|) else procs[j]
  }

  /** Where a process of a level comes in the boosted queue. */
  function BoostNumber(procs: seq<Process>, i: nat): nat
    requires i < |procs|
  {
    var n, level := |procs|, procs[i].level;
    (if level > 0 then |InOrder(procs, 0, n)| else 0) + (if level > 1 then |InOrder(procs, 1, n)| else 0) + |InOrder(procs, level, i)|
  }

  ghost predicate Boosted(procs: seq<Process>, procs': seq<Process>) {
    |procs'| == |procs| && forall j :: 0 <= j < |procs| ==> BoostedAt(procs, procs'[j], j)
  }

  ghost predicate BoostedAt(procs: seq<Process>, p: Process, j: nat)
    requires j < |procs|
  {
    p == if Live(procs[j]) then procs[j].(level := 0, priority := 3, ticks := 0, qnum := BoostNumber(procs, j)) else procs[j]
  }

  /** The three loops of boosting, one after the other. */
  lemma BoostLoops(p0: seq<Process>, p1: seq<Process>, p2: seq<Process>, p3: seq<Process>, i1: nat, i2: nat)
    requires var n := |p0|;
             Lifted(p0, p1, 0, 0, n) && Lifted(p1, p2, 1, i1, n) && Lifted(p2, p3, 2, i2, n)
    requires i1 == |InOrder(p0, 0, |p0|)| && i2 == i1 + |InOrder(p1, 1, |p0|)|
    requires forall j :: 0 <= j < |p0| && Live(p0[j]) ==> 0 <= p0[j].level <= 2
    ensures Boosted(p0, p3) && i2 + |InOrder(p2, 2, |p0|)| == |BoostQueue(p0)|
  {
    hide InOrder;
    var n := |p0|;
    forall j | 0 <= j < n
      ensures LiftedAt(p0, p1[j], 0, 0, j, true) && LiftedAt(p1, p2[j], 1, i1, j, true) && LiftedAt(p2, p3[j], 2, i2, j, true)
    {
    }
    forall m: nat | m <= n
      ensures InOrder(p1, 1, m) == InOrder(p0, 1, m) && InOrder(p2, 2, m) == InOrder(p0, 2, m)
    {
      InOrderSame(p0, p1, 1, m);
      InOrderSame(p0, p2, 2, m);
    }
    forall j | 0 <= j < n
      ensures BoostedAt(p0, p3[j], j)
    {
      assert LiftedAt(p0, p1[j], 0, 0, j, true) && LiftedAt(p1, p2[j], 1, i1, j, true) && LiftedAt(p2, p3[j], 2, i2, j, true);
    }
  }

  /** After boosting, one queue holds everything: old level 0, then 1, then 2, each in table order. */
  function BoostQueue(procs: seq<Process>): seq<nat> {
    InOrder(procs, 0, |procs|) + InOrder(procs, 1, |procs|) + InOrder(procs, 2, |procs|)
  }

  lemma BoostedQueue(procs: seq<Process>, procs': seq<Process>)
    requires Boosted(procs, procs')
    requires forall j :: 0 <= j < |procs| && Live(procs[j]) ==> 0 <= procs[j].level <= 2
    ensures Queue(procs', 0, BoostQueue(procs)) && Queue(procs', 1, []) && Queue(procs', 2, [])
    ensures forall j :: 0 <= j < |procs| && Live(procs[j]) ==>
              procs'[j].state == procs[j].state && procs'[j].pid == procs[j].pid && procs'[j].priority == 3 && procs'[j].ticks == 0
    ensures forall j :: 0 <= j < |procs| && !Live(procs[j]) ==> procs'[j] == procs[j]
  {
    hide InOrder;
    var n := |procs|;
    InOrderRank(procs, 0, n);
    InOrderRank(procs, 1, n);
    InOrderRank(procs, 2, n);
    var a, b, c, q := InOrder(procs, 0, n), InOrder(procs, 1, n), InOrder(procs, 2, n), BoostQueue(procs);
    forall k | 0 <= k < |q|
      ensures Queued(procs', 0, q, k)
    {
      assert if k < |a| then q[k] == a[k] && Ranked(procs, 0, n, k)
             else if k < |a| + |b| then q[k] == b[k - |a|] && Ranked(procs, 1, n, k - |a|)
             else q[k] == c[k - |a| - |b|] && Ranked(procs, 2, n, k - |a| - |b|);
      assert BoostedAt(procs, procs'[q[k]], q[k]);
    }
    forall i: nat | i < n
      ensures InLevel(procs'[i], 0) ==> 0 <= procs'[i].qnum < |q| && q[procs'[i].qnum] == i
      ensures !InLevel(procs'[i], 1) && !InLevel(procs'[i], 2)
    {
      assert BoostedAt(procs, procs'[i], i);
      if Live(procs[i]) {
        assert HasRank(procs, procs[i].level, n, i);
      }
    }
  }

  // ---------------------------------------------------------------- the order boosting gives up

  predicate Increasing(q: seq<nat>) {
    forall j, k :: 0 <= j < k < |q| ==> q[j] < q[k]
  }

  ghost function Elements(s: seq<nat>): set<nat> {
    set k | 0 <= k < |s| :: s[k]
  }

  lemma DropLast(s: seq<nat>)
    requires s != [] && forall j, k :: 0 <= j < k < |s| ==> s[j] != s[k]
    ensures var n := |s| - 1; Elements(s) == Elements(s[..n]) + {s[n]} && s[n] !in Elements(s[..n])
  {
    var n := |s| - 1;
    assert forall k :: 0 <= k < n ==> s[..n][k] == s[k];
    forall x | x in Elements(s[..n])
      ensures x in Elements(s)
    {
      var k :| 0 <= k < n && s[..n][k] == x;
      assert s[k] == x;
    }
  }

  lemma {:induction false} DistinctSize(s: seq<nat>)
    requires forall j, k :: 0 <= j < k < |s| ==> s[j] != s[k]
    ensures |Elements(s)| == |s|
  {
    if s != [] {
      DropLast(s);
      DistinctSize(s[..|s| - 1]);
    } else {
      assert Elements(s) == {};
    }
  }

  lemma LastIsGreatest(s: seq<nat>)
    requires s != [] && Increasing(s)
    ensures s[|s| - 1] in Elements(s) && forall x :: x in Elements(s) ==> x <= s[|s| - 1]
    ensures Increasing(s[..|s| - 1])
  {
  }

  /** There is one increasing list of a set. */
  lemma {:induction false} IncreasingSame(a: seq<nat>, b: seq<nat>)
    requires Increasing(a) && Increasing(b) && Elements(a) == Elements(b)
    ensures a == b
  {
    hide Elements, Increasing;
    SameSize(a, b);
    if a != [] {
      var n := |a| - 1;
      SameLast(a, b);
      IncreasingSame(a[..n], b[..n]);
      assert a == a[..n] + [a[n]] && b == b[..n] + [b[n]];
    }
  }

  lemma SameSize(a: seq<nat>, b: seq<nat>)
    requires Increasing(a) && Increasing(b) && Elements(a) == Elements(b)
    ensures |a| == |b|
  {
    DistinctSize(a);
    DistinctSize(b);
  }

  lemma SameLast(a: seq<nat>, b: seq<nat>)
    requires Increasing(a) && Increasing(b) && Elements(a) == Elements(b) && |a| == |b| > 0
    ensures var n := |a| - 1; a[n] == b[n] && Increasing(a[..n]) && Increasing(b[..n]) && Elements(a[..n]) == Elements(b[..n])
  {
    LastIsGreatest(a);
    LastIsGreatest(b);
    DropLast(a);
    DropLast(b);
    hide Elements, Increasing;
  }

  /** A queue and the level's list in table order hold the same processes. */
  lemma SameElements(procs: seq<Process>, level: int, q: seq<nat>)
    requires Queue(procs, level, q)
    ensures Elements(InOrder(procs, level, |procs|)) == Elements(q)
    ensures forall j, k :: 0 <= j < k < |q| ==> q[j] != q[k]
  {
    hide InOrder;
    var n := |procs|;
    var a := InOrder(procs, level, n);
    InOrderRank(procs, level, n);
    forall k | 0 <= k < |q|
      ensures Queued(procs, level, q, k) && procs[q[k]].qnum == k && q[k] in Elements(a)
    {
      assert Queued(procs, level, q, k) && HasRank(procs, level, n, q[k]);
    }
    forall k | 0 <= k < |a|
      ensures a[k] in Elements(q)
    {
      assert Ranked(procs, level, n, k) && q[procs[a[k]].qnum] == a[k];
    }
  }

  lemma {:induction false} InOrderIncreasing(procs: seq<Process>, level: int, n: nat)
    requires n <= |procs|
    ensures Increasing(InOrder(procs, level, n)) && forall k :: 0 <= k < |InOrder(procs, level, n)| ==> InOrder(procs, level, n)[k] < n
  {
    if n > 0 {
      InOrderIncreasing(procs, level, n - 1);
    }
  }

  /** Boosting keeps the order of a level's queue just when it is the order of the table. */
  lemma LevelOrder(procs: seq<Process>, level: int, q: seq<nat>)
    requires Queue(procs, level, q)
    ensures |InOrder(procs, level, |procs|)| == |q|
    ensures InOrder(procs, level, |procs|) == q <==> Increasing(q)
  {
    hide InOrder;
    var a := InOrder(procs, level, |procs|);
    SameElements(procs, level, q);
    InOrderIncreasing(procs, level, |procs|);
    DistinctSize(a);
    DistinctSize(q);
    if Increasing(q) {
      IncreasingSame(a, q);
    }
  }

  /** Boosting puts the old queues one behind the other just when each is in table order. */
  lemma BoostKeepsOrder(procs: seq<Process>, size: seq<int>, q: seq<seq<nat>>)
    requires Queues(procs, size, q)
    ensures BoostQueue(procs) == q[0] + q[1] + q[2] <==> forall l :: 0 <= l < 3 ==> Increasing(q[l])
  {
    hide InOrder, Queue, Increasing;
    var n := |procs|;
    var a, b, c := InOrder(procs, 0, n), InOrder(procs, 1, n), InOrder(procs, 2, n);
    LevelOrder(procs, 0, q[0]);
    LevelOrder(procs, 1, q[1]);
    LevelOrder(procs, 2, q[2]);
    if a + b + c == q[0] + q[1] + q[2] {
      assert a + b + c == a + (b + c) && q[0] + q[1] + q[2] == q[0] + (q[1] + q[2]);
      SplitEqual(a, b + c, q[0], q[1] + q[2]);
      SplitEqual(b, c, q[1], q[2]);
    }
  }

  lemma SplitEqual(a: seq<nat>, b: seq<nat>, c: seq<nat>, d: seq<nat>)
    requires |a| == |c| && a + b == c + d
    ensures a == c && b == d
  {
    assert a == (a + b)[..|a|] && c == (c + d)[..|c|] && b == (a + b)[|a|..] && d == (c + d)[|c|..];
  }

  /** The process first in level 0 stands behind the second in the table: boosting makes it second. */
  lemma BoostExample()
    ensures var procs := [Process(Runnable, 1, 0, 1, 0, 3), Process(Runnable, 2, 0, 0, 0, 3)];
            && Queues(procs, [2, 0, 0], [[1, 0], [], []]) && BoostQueue(procs) == [0, 1]
  {
    var procs := [Process(Runnable, 1, 0, 1, 0, 3), Process(Runnable, 2, 0, 0, 0, 3)];
    forall l | 0 <= l < 3
      ensures Queue(procs, l, [[1, 0], [], []][l])
    {
    }
    forall l | 0 <= l < 3
      ensures InOrder(procs, l, 2) == if l == 0 then [0, 1] else []
    {
      assert InOrder(procs, l, 0) == [];
      assert InOrder(procs, l, 1) == if l == 0 then [0] else [];
    }
  }
}

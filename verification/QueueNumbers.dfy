/** When fork, wait and boosting leave the numbers in the table those of real queues. */
module QueueNumbers {
  import opened Mlfq
  import opened Schedulers

  // ---------------------------------------------------------------- fork

  /** The end of fork keeps level 0 a queue just when the child is still the last there. */
  lemma ForkKeeps(procs: seq<Process>, q: seq<nat>, p: nat)
    requires Queue(procs, 0, q) && p < |procs| && InLevel(procs[p], 0)
    ensures (exists q' :: Queue(Forked(procs, p, |q|), 0, q')) <==> procs[p].qnum == |q| - 1
  {
    var procs' := Forked(procs, p, |q|);
    if procs[p].qnum == |q| - 1 {
      forall k | 0 <= k < |q|
        ensures Queued(procs', 0, q, k)
      {
        assert Queued(procs, 0, q, k);
      }
      assert Queue(procs', 0, q);
    } else {
      assert Queued(procs, 0, q, |q| - 1) && q[procs[p].qnum] == p;
      var last := q[|q| - 1];
      assert InLevel(procs'[last], 0) && InLevel(procs'[p], 0) && procs'[last].qnum == procs'[p].qnum;
    }
  }

  /**
   * A forked child that is last in the queue of level 0 can run from then on: the scheduler takes it just when no other
   * process of that queue can, and otherwise the first of the queue that can.
   */
  lemma ForkRuns(procs: seq<Process>, q: seq<nat>, p: nat)
    requires p < |procs| && q != [] && Queue(Forked(procs, p, |q|), 0, q)
    ensures var table := Forked(procs, p, |q|);
            && Eligible(table[p]) && q[|q| - 1] == p && (forall i :: 0 <= i < |procs| && i != p ==> table[i] == procs[i])
            && table[p].pid == procs[p].pid
            && (Chosen(table, |table|, p) <==> forall k :: 0 <= k < |q| - 1 ==> !Ready(table, q, k))
            && forall k: nat :: k < |q| && (forall j :: 0 <= j <= k ==> (Ready(table, q, j) <==> j == k)) ==> Chosen(table, |table|, q[k])
  {
    var table := Forked(procs, p, |q|);
    assert InLevel(table[p], 0) && q[table[p].qnum] == p;
    forall k: nat | k < |q| && (forall j :: 0 <= j <= k ==> (Ready(table, q, j) <==> j == k))
      ensures Chosen(table, |table|, q[k])
    {
      FirstChosen(table, 0, q, k);
    }
    LastChosen(table, q, p);
  }

  lemma EarlierBeats(table: seq<Process>, q: seq<nat>, p: nat, k: nat)
    requires Queue(table, 0, q) && k < |q| - 1 && q[|q| - 1] == p && p < |table| && Ready(table, q, k)
    ensures Eligible(table[q[k]]) && Beats(table[q[k]], table[p])
  {
    assert Queued(table, 0, q, k) && Queued(table, 0, q, |q| - 1);
  }

  /** The last one of level 0, if it can run, is taken just when no other one there can. */
  lemma LastChosen(table: seq<Process>, q: seq<nat>, p: nat)
    requires Queue(table, 0, q) && q != [] && q[|q| - 1] == p && p < |table| && Eligible(table[p])
    ensures Chosen(table, |table|, p) <==> forall k :: 0 <= k < |q| - 1 ==> !Ready(table, q, k)
  {
    assert Queued(table, 0, q, |q| - 1);
    if Chosen(table, |table|, p) {
      forall k | 0 <= k < |q| - 1
        ensures !Ready(table, q, k)
      {
        if Ready(table, q, k) {
          EarlierBeats(table, q, p, k);
          assert false;
        }
      }
    } else if forall k :: 0 <= k < |q| - 1 ==> !Ready(table, q, k) {
      assert Ready(table, q, |q| - 1);
      hide Chosen;
      FirstChosen(table, 0, q, |q| - 1);
      assert false;
    }
  }

  /** A tick of the parent between allocproc and the end of fork moves it behind the child: then both are last. */
  lemma ForkExample()
    ensures var parent, child := Process(Running, 1, 0, 0, 0, 3), Process(Embryo, 2, 0, 1, 0, 3);
            var ticked := [parent.(qnum := 1, ticks := 1), child.(qnum := 0)];
            && Queue([parent, child], 0, [0, 1]) && Ticked([parent, child], [2, 0, 0], ticked, [2, 0, 0], 0)
            && Queue(ticked, 0, [1, 0]) && forall q :: !Queue(Forked(ticked, 1, 2), 0, q)
  {
    var parent, child := Process(Running, 1, 0, 0, 0, 3), Process(Embryo, 2, 0, 1, 0, 3);
    ForkKeeps([parent.(qnum := 1, ticks := 1), child.(qnum := 0)], [1, 0], 1);
  }

  // ---------------------------------------------------------------- wait

  /** A place counts in its level until wait frees it: exit does not take zombies off their queue. */
  predicate Occupies(p: Process, level: int) {
    p.state != Unused && p.level == level
  }

  /** q lists what occupies a level, zombies included, in the order of the numbers. */
  ghost predicate Line(procs: seq<Process>, level: int, q: seq<nat>) {
    && (forall k :: 0 <= k < |q| ==> InLine(procs, level, q, k))
    && (forall i: nat :: i < |procs| && Occupies(procs[i], level) ==> 0 <= procs[i].qnum < |q| && q[procs[i].qnum] == i)
  }

  ghost predicate InLine(procs: seq<Process>, level: int, q: seq<nat>, k: int)
    requires 0 <= k < |q|
  {
    q[k] < |procs| && Occupies(procs[q[k]], level) && procs[q[k]].qnum == k
  }

  ghost predicate Lines(procs: seq<Process>, size: seq<int>, q: seq<seq<nat>>) {
    && |size| == |q| == 3
    && forall l :: 0 <= l < 3 ==> Line(procs, l, q[l]) && size[l] == |q[l]|
  }

  /** wait makes the child's place one that allocproc can take, and nobody has its pid any more. */
  lemma ReapFrees(procs: seq<Process>, procs': seq<Process>, me: nat, z: nat)
    requires me < |procs| && z < |procs| && Reaped(procs, procs', me, z)
    requires procs[z].pid != 0 && forall i :: 0 <= i < |procs| && i != z ==> procs[i].pid != procs[z].pid
    ensures procs'[z].state == Unused && forall i :: 0 <= i < |procs'| ==> procs'[i].pid != procs[z].pid
    ensures forall i :: 0 <= i < |procs| && i != z ==> procs'[i] == procs[i].(qnum := procs'[i].qnum)
  {
  }

  /** wait keeps the numbers those of queues just when the child stands right behind its parent. */
  lemma ReapKeeps(procs: seq<Process>, size: seq<int>, procs': seq<Process>, size': seq<int>, me: nat, z: nat, q: seq<seq<nat>>)
    requires Lines(procs, size, q) && me < |procs| && z < |procs| && z != me
    requires procs[me].state != Unused && procs[z].state == Zombie && 0 <= procs[me].level <= 2
    requires Reaped(procs, procs', me, z) && size' == size[procs[me].level := size[procs[me].level] - 1]
    ensures (exists q' :: Lines(procs', size', q')) <==> procs[z].level == procs[me].level && procs[z].qnum == procs[me].qnum + 1
  {
    var l, m := procs[me].level, procs[me].qnum;
    assert Occupies(procs[me], l) && q[l][m] == me;
    if procs[z].level == l && procs[z].qnum == m + 1 {
      assert Occupies(procs[z], l) && q[l][m + 1] == z;
      var q' := q[l := Without(q[l], m + 1)];
      forall j | 0 <= j < 3
        ensures Line(procs', j, q'[j])
      {
        ReapedLine(procs, size, procs', me, z, q, j);
      }
      assert Lines(procs', size', q');
    } else if q' :| Lines(procs', size', q') {
      ReapedApart(procs, size, procs', size', me, z, q, q');
    }
  }

  lemma ReapedLine(procs: seq<Process>, size: seq<int>, procs': seq<Process>, me: nat, z: nat, q: seq<seq<nat>>, j: int)
    requires Lines(procs, size, q) && me < |procs| && z < |procs| && z != me && 0 <= j < 3
    requires procs[me].state != Unused && procs[z].state == Zombie && 0 <= procs[me].level <= 2 && Reaped(procs, procs', me, z)
    requires procs[z].level == procs[me].level && procs[z].qnum == procs[me].qnum + 1
    ensures 0 <= procs[z].qnum < |q[procs[me].level]|
    ensures Line(procs', j, q[procs[me].level := Without(q[procs[me].level], procs[z].qnum)][j])
  {
    var l := procs[me].level;
    assert Occupies(procs[z], l) && q[l][procs[z].qnum] == z;
    var r := q[l := Without(q[l], procs[z].qnum)][j];
    forall k | 0 <= k < |r|
      ensures InLine(procs', j, r, k)
    {
      var at := if j == l && k >= procs[z].qnum then k + 1 else k;
      assert InLine(procs, j, q[j], at) && r[k] == q[j][at];
    }
    forall i: nat | i < |procs'| && Occupies(procs'[i], j)
      ensures 0 <= procs'[i].qnum < |r| && r[procs'[i].qnum] == i
    {
      assert Occupies(procs[i], j) && q[j][procs[i].qnum] == i;
    }
  }

  lemma ReapedApart(procs: seq<Process>, size: seq<int>, procs': seq<Process>, size': seq<int>, me: nat, z: nat,
                    q: seq<seq<nat>>, q': seq<seq<nat>>)
    requires Lines(procs, size, q) && me < |procs| && z < |procs| && z != me
    requires procs[me].state != Unused && procs[z].state == Zombie && 0 <= procs[me].level <= 2
    requires Reaped(procs, procs', me, z) && size' == size[procs[me].level := size[procs[me].level] - 1]
    requires Lines(procs', size', q')
    ensures procs[z].level == procs[me].level && procs[z].qnum == procs[me].qnum + 1
  {
    var l, m := procs[me].level, procs[me].qnum;
    assert procs'[me] == procs[me];
    assert Line(procs, l, q[l]) && Line(procs', l, q'[l]) && size'[l] == |q'[l]| == |q[l]| - 1;
    assert 0 <= m < |q'[l]| && q'[l][m] == me;
    assert InLine(procs, l, q[l], m + 1);
    var next := q[l][m + 1];
    if next != z {
      MovesUp(procs, procs', me, z, next);
      assert false;
    }
  }

  lemma MovesUp(procs: seq<Process>, procs': seq<Process>, me: nat, z: nat, i: nat)
    requires me < |procs| && z < |procs| && i < |procs| && i != z && Reaped(procs, procs', me, z)
    requires Occupies(procs[i], procs[me].level) && procs[i].qnum == procs[me].qnum + 1
    ensures Occupies(procs'[i], procs[me].level) && procs'[i].qnum == procs[me].qnum
  {
  }

  /** A child that stands behind a sibling: once it is reaped, the sibling has its parent's number. */
  lemma ReapExample()
    ensures var me, sibling, z := Process(Running, 1, 0, 0, 0, 3), Process(Sleeping, 2, 0, 1, 0, 3), Process(Zombie, 3, 0, 2, 0, 3);
            var procs, procs' := [me, sibling, z], [me, sibling.(qnum := 0), Process(Unused, 0, 0, 0, 0, 3)];
            && Lines(procs, [3, 0, 0], [[0, 1, 2], [], []]) && Reaped(procs, procs', 0, 2)
            && forall q :: !Lines(procs', [2, 0, 0], q)
  {
    var me, sibling, z := Process(Running, 1, 0, 0, 0, 3), Process(Sleeping, 2, 0, 1, 0, 3), Process(Zombie, 3, 0, 2, 0, 3);
    var procs, procs' := [me, sibling, z], [me, sibling.(qnum := 0), Process(Unused, 0, 0, 0, 0, 3)];
    forall l | 0 <= l < 3
      ensures Line(procs, l, [[0, 1, 2], [], []][l])
    {
    }
    ReapKeeps(procs, [3, 0, 0], procs', [2, 0, 0], 0, 2, [[0, 1, 2], [], []]);
  }

  // ---------------------------------------------------------------- boosting while a process is locked

  /** The locked process z, which is live, and whose pid no other place has. */
  ghost predicate LockedAt(procs: seq<Process>, z: nat, pid: int) {
    && z < |procs| && Live(procs[z]) && procs[z].pid == pid
    && forall i :: 0 <= i < |procs| && i != z ==> procs[i].pid != pid
  }

  /** The locked process gets number 0; the others of level 0 move back; those of level 1, and then 2, get numbers from 0 on. */
  lemma LockedBoost(p0: seq<Process>, p1: seq<Process>, p2: seq<Process>, p3: seq<Process>, pid: int, z: nat, i: nat)
    requires BoostedUnlocked(p0, p1, p2, p3, pid) && LockedAt(p0, z, pid) && i < |p0|
    ensures |p1| == |p2| == |p3| == |p0|
    ensures i == z ==> p3[i] == p0[i].(level := 0, priority := 3, ticks := 0, qnum := 0)
    ensures i != z && p0[i].level == 0 ==> p3[i] == p0[i].(qnum := p0[i].qnum + 1)
    ensures i != z && InLevel(p0[i], 1) ==> InLevel(p3[i], 0) && p3[i].qnum == |InOrder(p1, 1, i)|
    ensures i != z && InLevel(p0[i], 2) ==> InLevel(p3[i], 0) && p3[i].qnum == |InOrder(p1, 1, |p1|)| + |InOrder(p2, 2, i)|
    ensures Live(p3[i]) <==> Live(p0[i])
    ensures forall l :: 1 <= l <= 2 ==> (InLevel(p1[i], l) <==> i != z && InLevel(p0[i], l))
    ensures InLevel(p2[i], 2) <==> i != z && InLevel(p0[i], 2)
  {
    hide InOrder;
    assert LiftedAt(p1, p2[i], 1, 0, i, true) && LiftedAt(p2, p3[i], 2, |InOrder(p1, 1, |p1|)|, i, true);
  }

  /** No live process but the locked one is at level 1 or 2, and if that is at level 0, it is the last there. */
  ghost predicate LockedLast(procs: seq<Process>, z: nat, n: nat)
    requires z < |procs|
  {
    && (forall i :: 0 <= i < |procs| && i != z && Live(procs[i]) ==> procs[i].level == 0)
    && (procs[z].level == 0 ==> procs[z].qnum == n - 1)
  }

  /** Boosting while a process is locked leaves a queue just when nobody else is below level 0 and the locked one was last. */
  lemma LockedBoostKeeps(p0: seq<Process>, p1: seq<Process>, p2: seq<Process>, p3: seq<Process>, size: seq<int>,
                         pid: int, z: nat, q: seq<seq<nat>>)
    requires Queues(p0, size, q) && LockedAt(p0, z, pid) && BoostedUnlocked(p0, p1, p2, p3, pid)
    requires forall i :: 0 <= i < |p0| && Live(p0[i]) ==> 0 <= p0[i].level <= 2
    ensures (exists q' :: Queue(p3, 0, q')) <==> LockedLast(p0, z, |q[0]|)
    ensures LockedLast(p0, z, |q[0]|) ==> Queue(p3, 0, [z] + if p0[z].level == 0 then q[0][..|q[0]| - 1] else q[0])
    ensures p0[z].level == 0 ==> |q[0]| > 0
  {
    LockedBoost(p0, p1, p2, p3, pid, z, z);
    assert p0[z].level == 0 ==> InLevel(p0[z], 0);
    if LockedLast(p0, z, |q[0]|) {
      LockedQueue(p0, p1, p2, p3, pid, z, q[0]);
    } else if q' :| Queue(p3, 0, q') {
      if i: nat :| i < |p0| && i != z && Live(p0[i]) && p0[i].level != 0 {
        OthersBelow(p0, p1, p2, p3, pid, z, i, q');
      } else {
        GapAtLocked(p0, p1, p2, p3, pid, z, q[0], q');
      }
    }
  }

  lemma LockedQueue(p0: seq<Process>, p1: seq<Process>, p2: seq<Process>, p3: seq<Process>, pid: int, z: nat, q: seq<nat>)
    requires Queue(p0, 0, q) && LockedAt(p0, z, pid) && BoostedUnlocked(p0, p1, p2, p3, pid)
    requires LockedLast(p0, z, |q|)
    ensures p0[z].level == 0 ==> |q| > 0
    ensures Queue(p3, 0, [z] + if p0[z].level == 0 then q[..|q| - 1] else q)
  {
    hide InOrder, BoostedUnlocked;
    assert p0[z].level == 0 ==> InLevel(p0[z], 0) && q[p0[z].qnum] == z;
    var others := if p0[z].level == 0 then q[..|q| - 1] else q;
    var r := [z] + others;
    forall i | 0 <= i < |p0|
      ensures |p3| == |p0|
      ensures InLevel(p3[i], 0) <==> i == z || InLevel(p0[i], 0)
      ensures InLevel(p3[i], 0) ==> p3[i].qnum == if i == z then 0 else p0[i].qnum + 1
    {
      LockedBoost(p0, p1, p2, p3, pid, z, i);
    }
    forall k | 0 <= k < |r|
      ensures Queued(p3, 0, r, k)
    {
      if k > 0 {
        assert Queued(p0, 0, q, k - 1) && r[k] == q[k - 1];
      }
    }
    forall i: nat | i < |p3| && InLevel(p3[i], 0)
      ensures 0 <= p3[i].qnum < |r| && r[p3[i].qnum] == i
    {
      if i != z {
        assert InLevel(p0[i], 0) && q[p0[i].qnum] == i;
      }
    }
  }

  /** Somebody else below level 0 gets the number of the locked process. */
  lemma OthersBelow(p0: seq<Process>, p1: seq<Process>, p2: seq<Process>, p3: seq<Process>, pid: int, z: nat, i: nat, q': seq<nat>)
    requires LockedAt(p0, z, pid) && BoostedUnlocked(p0, p1, p2, p3, pid) && i < |p0| && i != z
    requires Live(p0[i]) && 1 <= p0[i].level <= 2
    ensures !Queue(p3, 0, q')
  {
    hide InOrder;
    var n := |p0|;
    LockedBoost(p0, p1, p2, p3, pid, z, i);
    LockedBoost(p0, p1, p2, p3, pid, z, z);
    InOrderRank(p1, 1, n);
    InOrderRank(p2, 2, n);
    var first: nat;
    if InOrder(p1, 1, n) != [] {
      assert Ranked(p1, 1, n, 0);
      first := InOrder(p1, 1, n)[0];
    } else {
      assert InLevel(p0[i], 1) ==> HasRank(p1, 1, n, i);
      assert InLevel(p2[i], 2) && HasRank(p2, 2, n, i);
      assert Ranked(p2, 2, n, 0);
      first := InOrder(p2, 2, n)[0];
    }
    LockedBoost(p0, p1, p2, p3, pid, z, first);
    assert InLevel(p3[first], 0) && p3[first].qnum == 0 && InLevel(p3[z], 0) && p3[z].qnum == 0 && first != z;
  }

  /** Who stood behind the locked process leaves a gap at its old place. */
  lemma GapAtLocked(p0: seq<Process>, p1: seq<Process>, p2: seq<Process>, p3: seq<Process>, pid: int, z: nat,
                    q: seq<nat>, q': seq<nat>)
    requires Queue(p0, 0, q) && LockedAt(p0, z, pid) && BoostedUnlocked(p0, p1, p2, p3, pid)
    requires forall i :: 0 <= i < |p0| && i != z && Live(p0[i]) ==> p0[i].level == 0
    requires p0[z].level == 0 && p0[z].qnum != |q| - 1
    ensures !Queue(p3, 0, q')
  {
    hide InOrder, BoostedUnlocked;
    assert InLevel(p0[z], 0) && q[p0[z].qnum] == z;
    var k := p0[z].qnum;
    assert Queued(p0, 0, q, k + 1);
    var behind := q[k + 1];
    LockedBoost(p0, p1, p2, p3, pid, z, behind);
    assert InLevel(p3[behind], 0) && p3[behind].qnum == k + 2;
    if Queue(p3, 0, q') {
      assert Queued(p3, 0, q', k + 1);
      var at := q'[k + 1];
      LockedBoost(p0, p1, p2, p3, pid, z, at);
      assert false;
    }
  }

  /** Free places and zombies at level 0 among the first n, apart from those with the pid. */
  function DeadAtTop(procs: seq<Process>, pid: int, n: nat): nat
    requires n <= |procs|
  {
    if n == 0 then 0
    else DeadAtTop(procs, pid, n - 1) + if procs[n - 1].pid != pid && procs[n - 1].level == 0 && !Live(procs[n - 1]) then 1 else 0
  }

  lemma {:induction false} TopCount(procs: seq<Process>, pid: int, z: nat, n: nat)
    requires LockedAt(procs, z, pid) && n <= |procs|
    ensures OthersAtTop(procs, pid, n) + (if z < n && procs[z].level == 0 then 1 else 0) == |InOrder(procs, 0, n)| + DeadAtTop(procs, pid, n)
  {
    if n > 0 {
      TopCount(procs, pid, z, n - 1);
    }
  }

  lemma {:induction false} NoneInOrder(procs: seq<Process>, level: int, n: nat)
    requires n <= |procs| && forall i :: 0 <= i < n ==> !InLevel(procs[i], level)
    ensures InOrder(procs, level, n) == []
  {
    if n > 0 {
      NoneInOrder(procs, level, n - 1);
    }
  }

  /** The three counts agree as well just when the caller is at level 0 and nobody dead is. */
  lemma LockedBoostCounts(p0: seq<Process>, p1: seq<Process>, p2: seq<Process>, p3: seq<Process>, size: seq<int>,
                          pid: int, z: nat, me: nat, q: seq<seq<nat>>)
    requires Queues(p0, size, q) && LockedAt(p0, z, pid) && BoostedUnlocked(p0, p1, p2, p3, pid)
    requires forall i :: 0 <= i < |p0| && Live(p0[i]) ==> 0 <= p0[i].level <= 2
    requires me < |p0| && 0 <= p0[me].level <= 2
    ensures (exists q' :: Queues(p3, BoostedSize(p0, p1, p2, me, pid), q')) <==>
            LockedLast(p0, z, |q[0]|) && p0[me].level == 0 && DeadAtTop(p0, pid, |p0|) == 0
  {
    hide InOrder, BoostedUnlocked, LockedLast, BoostedSize;
    var size' := BoostedSize(p0, p1, p2, me, pid);
    LockedBoostKeeps(p0, p1, p2, p3, size, pid, z, q);
    if LockedLast(p0, z, |q[0]|) {
      var r := [z] + if p0[z].level == 0 then q[0][..|q[0]| - 1] else q[0];
      LockedCounts(p0, p1, p2, p3, pid, z, me, q[0]);
      LevelOrder(p3, 0, r);
      if p0[me].level == 0 && DeadAtTop(p0, pid, |p0|) == 0 {
        assert Queues(p3, size', [r, [], []]);
      } else if q' :| Queues(p3, size', q') {
        LevelOrder(p3, 0, q'[0]);
        assert false;
      }
    } else {
      forall q'
        ensures !Queues(p3, size', q')
      {
        assert |q'| == 3 ==> !Queue(p3, 0, q'[0]);
      }
    }
  }

  lemma LockedCounts(p0: seq<Process>, p1: seq<Process>, p2: seq<Process>, p3: seq<Process>, pid: int, z: nat, me: nat, q: seq<nat>)
    requires Queue(p0, 0, q) && LockedAt(p0, z, pid) && BoostedUnlocked(p0, p1, p2, p3, pid)
    requires LockedLast(p0, z, |q|) && me < |p0| && 0 <= p0[me].level <= 2
    requires 0 <= p0[z].level <= 2
    ensures var size' := BoostedSize(p0, p1, p2, me, pid);
            && |size'| == 3
            && size'[0] == 1 + |q| - (if p0[z].level == 0 then 1 else 0) + DeadAtTop(p0, pid, |p0|)
            && size'[1] == (if p0[me].level == 1 then -1 else 0) && size'[2] == (if p0[me].level == 2 then -1 else 0)
    ensures |p3| == |p0| && Queue(p3, 1, []) && Queue(p3, 2, [])
  {
    hide InOrder, BoostedUnlocked;
    LockedBoost(p0, p1, p2, p3, pid, z, z);
    forall i | 0 <= i < |p0|
      ensures !InLevel(p1[i], 1) && !InLevel(p2[i], 2)
      ensures !InLevel(p3[i], 1) && !InLevel(p3[i], 2)
    {
      LockedBoost(p0, p1, p2, p3, pid, z, i);
    }
    NoneInOrder(p1, 1, |p1|);
    NoneInOrder(p2, 2, |p2|);
    TopCount(p0, pid, z, |p0|);
    LevelOrder(p0, 0, q);
    assert HasPid(p0, pid);
  }
}

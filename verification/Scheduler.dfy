/** The scheduler's operations on the process table, in place. */
module Schedulers {
  import opened Mlfq

  /** What unlocking makes of the table: the first process with the pid goes to the front of level 0, the others there back. */
  ghost predicate Unlocked(procs: seq<Process>, procs': seq<Process>, pid: int) {
    && |procs'| == |procs|
    && forall i :: 0 <= i < |procs| ==>
         procs'[i] == (if procs[i].pid != pid then procs[i].(qnum := procs[i].qnum + if procs[i].level == 0 then 1 else 0)
                       else if forall j :: 0 <= j < i ==> procs[j].pid != pid then
                         procs[i].(level := 0, priority := 3, ticks := 0, qnum := 0)
                       else procs[i])
  }

  ghost predicate Fronted(procs: seq<Process>, procs': seq<Process>, pid: int) {
    && |procs'| == |procs|
    && forall i :: 0 <= i < |procs| ==>
         procs'[i] == (if procs[i].pid == pid && forall j :: 0 <= j < i ==> procs[j].pid != pid then
                         procs[i].(level := 0, priority := 3, ticks := 0, qnum := 0)
                       else procs[i])
  }

  ghost predicate MovedBack(procs: seq<Process>, procs': seq<Process>, pid: int) {
    && |procs'| == |procs|
    && forall i :: 0 <= i < |procs| ==>
         procs'[i] == (if procs[i].pid != pid && procs[i].level == 0 then procs[i].(qnum := procs[i].qnum + 1) else procs[i])
  }

  lemma FrontThenBack(p0: seq<Process>, p1: seq<Process>, p2: seq<Process>, pid: int)
    requires Fronted(p0, p1, pid) && MovedBack(p1, p2, pid)
    ensures Unlocked(p0, p2, pid) && OthersAtTop(p1, pid, |p1|) == OthersAtTop(p0, pid, |p0|)
  {
    SameOthers(p0, p1, pid, |p0|);
  }

  /** How many of the first n places are at level 0, apart from those with the pid. */
  function OthersAtTop(procs: seq<Process>, pid: int, n: nat): nat
    requires n <= |procs|
  {
    if n == 0 then 0 else OthersAtTop(procs, pid, n - 1) + if procs[n - 1].pid != pid && procs[n - 1].level == 0 then 1 else 0
  }

  lemma {:induction false} SameOthers(procs: seq<Process>, procs': seq<Process>, pid: int, n: nat)
    requires n <= |procs| == |procs'|
    requires forall i :: 0 <= i < n ==> procs'[i].pid == procs[i].pid && (procs[i].pid != pid ==> procs'[i] == procs[i])
    ensures OthersAtTop(procs', pid, n) == OthersAtTop(procs, pid, n)
  {
    if n > 0 {
      SameOthers(procs, procs', pid, n - 1);
    }
  }

  predicate HasPid(procs: seq<Process>, pid: int) {
    exists i :: 0 <= i < |procs| && procs[i].pid == pid
  }

  /** Level 0 is counted afresh, free places included; the level of the calling process, not of the locked one, loses one. */
  ghost function UnlockedSize(procs: seq<Process>, size: seq<int>, me: nat, pid: int): seq<int>
    requires |size| == 3 && me < |procs|
  {
    [(if HasPid(procs, pid) then 1 else 0) + OthersAtTop(procs, pid, |procs|),
     size[1] - (if procs[me].level == 1 then 1 else 0), size[2] - (if procs[me].level == 2 then 1 else 0)]
  }

  lemma SizeAfter(procs: seq<Process>, size: seq<int>, size': seq<int>, me: nat, pid: int)
    requires |size| == |size'| == 3 && me < |procs|
    requires size'[0] == (if HasPid(procs, pid) then 1 else 0) + OthersAtTop(procs, pid, |procs|)
    requires size'[1] == size[1] - (if procs[me].level == 1 then 1 else 0)
    requires size'[2] == size[2] - (if procs[me].level == 2 then 1 else 0)
    ensures size' == UnlockedSize(procs, size, me, pid)
  {
  }

  /** Boosting while a process is locked: p1 is the table after unlocking, p2 after the loop over level 1. */
  ghost predicate BoostedUnlocked(p0: seq<Process>, p1: seq<Process>, p2: seq<Process>, p3: seq<Process>, pid: int) {
    && Unlocked(p0, p1, pid) && Lifted(p1, p2, 1, 0, |p1|) && Lifted(p2, p3, 2, |InOrder(p1, 1, |p1|)|, |p2|)
  }

  ghost function BoostedSize(p0: seq<Process>, p1: seq<Process>, p2: seq<Process>, me: nat, pid: int): seq<int>
    requires me < |p0|
  {
    var size := UnlockedSize(p0, [0, 0, 0], me, pid);
    size[0 := size[0] + |InOrder(p1, 1, |p1|)| + |InOrder(p2, 2, |p2|)|]
  }

  /** What the end of fork makes of the table when level 0 counts n processes. */
  function Forked(procs: seq<Process>, p: nat, n: int): seq<Process>
    requires p < |procs|
  {
    procs[p := procs[p].(state := Runnable, priority := 3, ticks := 0, level := 0, qnum := n - 1)]
  }

  /** The table after wait has taken zombie z of parent me off. */
  ghost predicate Reaped(procs: seq<Process>, procs': seq<Process>, me: nat, z: nat)
    requires me < |procs| && z < |procs|
  {
    && |procs'| == |procs|
    && procs'[z] == procs[z].(pid := 0, state := Unused, level := 0, qnum := 0, ticks := 0)
    && forall i :: 0 <= i < |procs| && i != z ==>
         procs'[i] == (if procs[i].level == procs[me].level && procs[i].qnum > procs[me].qnum
                       then procs[i].(qnum := procs[i].qnum - 1) else procs[i])
  }

  class Scheduler {
    const procs: array<Process>
    /** ptable.L0_size, L1_size, L2_size */
    var size: seq<int>
    var locked: int
    var ticks: int

    /** Kept by every operation run as one step; for ticks that are not, see PriorityRuns. */
    ghost predicate Valid()
      reads this, procs
    {
      && |size| == 3
      && forall i :: 0 <= i < procs.Length ==> InRange(procs[i]) && (procs[i].state == Unused ==> procs[i].level == 0)
    }

    constructor (n: nat)
      ensures Valid() && procs.Length == n && fresh(procs) && size == [0, 0, 0] && locked == -1
      ensures Queues(procs[..], size, [[], [], []])
    {
      procs := new Process[n](_ => Process(Unused, 0, 0, 0, 0, 0));
      size, locked, ticks := [0, 0, 0], -1, 0;
    }

    /** The timer interrupt in process me: count the tick, then update_proc. */
    method Tick(me: nat)
      requires Valid() && me < procs.Length && procs[me].state == Running
      modifies this`size, procs
      ensures Valid() && Ticked(old(procs[..]), old(size), procs[..], size, me)
    {
      procs[me] := procs[me].(ticks := procs[me].ticks + 1);
      var ql := procs[me].level;
      var pid := procs[me].pid;
      var cur := 0;
      while cur < procs.Length
        invariant 0 <= cur <= procs.Length && procs[me] == old(procs[me]).(ticks := old(procs[me]).ticks + 1)
        invariant forall i :: 0 <= i < procs.Length && i != me ==>
                    procs[i] == if i < cur then Shifted(old(procs[i]), old(procs[me])) else old(procs[i])
        modifies procs
      {
        if procs[cur].pid != pid {
          if procs[cur].level == ql && procs[cur].qnum > 0 {
            procs[cur] := procs[cur].(qnum := procs[cur].qnum - 1);
          }
        }
        cur := cur + 1;
      }
      var p := procs[me];
      p := p.(qnum := size[ql] - 1);
      if ql == 0 && p.ticks == L0_QUANTUM {
        p := p.(level := p.level + 1);
        size := size[0 := size[0] - 1][1 := size[1] + 1];
        p := p.(qnum := size[1] - 1, ticks := 0);
      } else if ql == 1 && p.ticks == L1_QUANTUM {
        p := p.(level := p.level + 1);
        size := size[1 := size[1] - 1][2 := size[2] + 1];
        p := p.(qnum := size[2] - 1, ticks := 0);
      } else if ql == 2 && p.ticks == L2_QUANTUM {
        p := p.(ticks := 0);
        if p.priority >= 1 {
          p := p.(priority := p.priority - 1);
        }
        p := p.(qnum := size[2] - 1);
      }
      procs[me] := p;
    }

    /** One of the three loops of priority_boosting. */
    method Lift(level: int, i: nat) returns (i': nat)
      requires Valid()
      modifies this`size, procs
      ensures Valid() && Lifted(old(procs[..]), procs[..], level, i, procs.Length)
      ensures i' == i + |InOrder(old(procs[..]), level, procs.Length)|
      ensures size == old(size)[0 := old(size)[0] + |InOrder(old(procs[..]), level, procs.Length)|]
    {
      ghost var was := procs[..];
      i' := i;
      var cur := 0;
      while cur < procs.Length
        invariant 0 <= cur <= procs.Length && i' == i + |InOrder(was, level, cur)|
        invariant |size| == 3 && size == old(size)[0 := old(size)[0] + |InOrder(was, level, cur)|]
        invariant Valid() && Lifted(was, procs[..], level, i, cur)
      {
        assert LiftedAt(was, procs[cur], level, i, cur, false);
        if procs[cur].state != Unused && procs[cur].state != Zombie {
          if procs[cur].level == level {
            procs[cur] := procs[cur].(level := 0, priority := 3, ticks := 0, qnum := i');
            i' := i' + 1;
            size := size[0 := size[0] + 1];
          }
        }
        cur := cur + 1;
      }
    }

    /**
     * Boosting with no process locked makes one queue of all live processes. With one locked, it is unlocked first, and the
     * numbers of levels 1 and 2 then start from 0 too.
     */
    method PriorityBoosting(me: nat)
      requires Valid() && me < procs.Length
      modifies this, procs
      ensures Valid() && ticks == 0 && locked == -1
      ensures old(locked) == -1 ==> Boosted(old(procs[..]), procs[..]) && Queues(procs[..], size, [BoostQueue(old(procs[..])), [], []])
      ensures old(locked) != -1 ==> exists p1, p2 ::
                BoostedUnlocked(old(procs[..]), p1, p2, procs[..], old(locked)) && size == BoostedSize(old(procs[..]), p1, p2, me, old(locked))
    {
      hide InOrder, Boosted, Queue, Unlocked, UnlockedSize, Lifted;
      ghost var p0 := procs[..];
      var i := 0;
      size := [0, 0, 0];
      if locked != -1 {
        Unlock(me, PASSWORD);
      } else {
        i := Lift(0, 0);
      }
      ghost var p1, i1 := procs[..], i;
      i := Lift(1, i);
      ghost var p2, i2 := procs[..], i;
      i := Lift(2, i);
      ticks := 0;
      if old(locked) == -1 {
        BoostLoops(p0, p1, p2, procs[..], i1, i2);
        BoostedQueue(p0, procs[..]);
      } else {
        assert BoostedUnlocked(p0, p1, p2, procs[..], old(locked)) && size == BoostedSize(p0, p1, p2, me, old(locked));
      }
    }

    /** schedulerLock: process me is served first from now on. */
    method Lock(me: nat, password: int)
      requires Valid() && me < procs.Length
      modifies this`locked
      ensures Valid()
      ensures locked == if password == PASSWORD && old(locked) == -1 && procs[me].state != Zombie then procs[me].pid else old(locked)
    {
      if password != PASSWORD || locked != -1 || procs[me].state == Zombie {
        return;
      }
      locked := procs[me].pid;
    }

    /** schedulerUnlock: the locked process goes to the front of level 0. */
    method Unlock(me: nat, password: int)
      requires Valid() && me < procs.Length
      modifies this`size, this`locked, procs
      ensures Valid()
      ensures password != PASSWORD ==> locked == old(locked)
      ensures password != PASSWORD || old(locked) == -1 ==> procs[..] == old(procs[..]) && size == old(size)
      ensures password == PASSWORD ==> locked == -1
      ensures password == PASSWORD && old(locked) != -1 ==>
                && Unlocked(old(procs[..]), procs[..], old(locked))
                && size == UnlockedSize(old(procs[..]), old(size), me, old(locked))
    {
      if password != PASSWORD || locked == -1 {
        return;
      }
      hide Unlocked, Fronted, MovedBack, OthersAtTop, UnlockedSize, HasPid;
      ghost var p0 := procs[..];
      if procs[me].level == 1 {
        size := size[1 := size[1] - 1];
      } else if procs[me].level == 2 {
        size := size[2 := size[2] - 1];
      }
      var pid := locked;
      locked := -1;
      size := size[0 := 0];
      Front(pid);
      ghost var p1 := procs[..];
      MoveBack(pid);
      FrontThenBack(p0, p1, procs[..], pid);
      SizeAfter(p0, old(size), size, me, pid);
    }

    /** The first loop of schedulerUnlock. */
    method Front(pid: int)
      requires Valid()
      modifies this`size, procs
      ensures Valid() && Fronted(old(procs[..]), procs[..], pid)
      ensures size == old(size)[0 := old(size)[0] + if HasPid(old(procs[..]), pid) then 1 else 0]
    {
      var cur := 0;
      while cur < procs.Length && procs[cur].pid != pid
        invariant 0 <= cur <= procs.Length && forall j :: 0 <= j < cur ==> procs[j].pid != pid
      {
        cur := cur + 1;
      }
      if cur < procs.Length {
        size := size[0 := size[0] + 1];
        procs[cur] := procs[cur].(level := 0, priority := 3, ticks := 0, qnum := 0);
      }
    }

    /** The second loop of schedulerUnlock. */
    method MoveBack(pid: int)
      requires Valid()
      modifies this`size, procs
      ensures Valid() && size == old(size)[0 := old(size)[0] + OthersAtTop(old(procs[..]), pid, procs.Length)]
      ensures MovedBack(old(procs[..]), procs[..], pid)
    {
      ghost var was := procs[..];
      var cur := 0;
      while cur < procs.Length
        invariant 0 <= cur <= procs.Length && |size| == 3
        invariant size == old(size)[0 := old(size)[0] + OthersAtTop(was, pid, cur)]
        invariant forall i :: 0 <= i < procs.Length ==>
                    procs[i] == (if i < cur && was[i].pid != pid && was[i].level == 0 then was[i].(qnum := was[i].qnum + 1) else was[i])
      {
        if procs[cur].pid != pid && procs[cur].level == 0 {
          size := size[0 := size[0] + 1];
          procs[cur] := procs[cur].(qnum := procs[cur].qnum + 1);
        }
        cur := cur + 1;
      }
    }

    /** The priority of the first live process with this pid. */
    method SetPriority(pid: int, priority: int) returns (found: bool)
      requires Valid()
      modifies procs
      ensures Valid()
      ensures found <==> 0 <= priority <= 3 && exists i :: 0 <= i < procs.Length && Live(procs[i]) && procs[i].pid == pid
      ensures forall i :: 0 <= i < procs.Length ==>
                procs[i] == (if found && Live(old(procs[i])) && old(procs[i].pid) == pid
                   && forall j :: 0 <= j < i && Live(old(procs[j])) ==> old(procs[j].pid) != pid
                 then old(procs[i]).(priority := priority) else old(procs[i]))
    {
      if priority < 0 || priority > 3 {
        return false;
      }
      var cur := 0;
      while cur < procs.Length
        invariant 0 <= cur <= procs.Length
        invariant forall j :: 0 <= j < cur && Live(procs[j]) ==> procs[j].pid != pid
      {
        if !(procs[cur].state == Zombie || procs[cur].state == Unused) && procs[cur].pid == pid {
          procs[cur] := procs[cur].(priority := priority);
          return true;
        }
        cur := cur + 1;
      }
      return false;
    }

    /** allocproc: a free place becomes an embryo at the end of the level-0 queue. */
    method AllocProc(pid: int, ghost q: seq<nat>) returns (p: int)
      requires Valid()
      modifies this`size, procs
      ensures Valid() && p < procs.Length
      ensures p < 0 ==> procs[..] == old(procs[..]) && size == old(size) && forall i :: 0 <= i < procs.Length ==> procs[i].state != Unused
      ensures p >= 0 ==>
                && old(procs[p].state) == Unused && (forall i :: 0 <= i < p ==> procs[i].state != Unused)
                && procs[..] == old(procs[..])[p := old(procs[p]).(state := Embryo, pid := pid, priority := 3, qnum := old(size[0]))]
                && size == old(size)[0 := old(size[0]) + 1]
      ensures p >= 0 && old(Queue(procs[..], 0, q) && size[0] == |q|) ==> Queue(procs[..], 0, q + [p]) && size[0] == |q + [p]|
    {
      p := 0;
      while p < procs.Length && procs[p].state != Unused
        invariant 0 <= p <= procs.Length && forall i :: 0 <= i < p ==> procs[i].state != Unused
      {
        p := p + 1;
      }
      if p == procs.Length {
        return -1;
      }
      ghost var was := procs[..];
      procs[p] := procs[p].(state := Embryo, pid := pid, priority := 3, qnum := size[0]);
      size := size[0 := size[0] + 1];
      if Queue(was, 0, q) && old(size[0]) == |q| {
        Appended(was, procs[..], q, p);
      }
    }

    /** allocproc and fork give the place back when there is no memory for the stack or the pages. */
    method DropEmbryo(p: nat, ghost q: seq<nat>)
      requires Valid() && p < procs.Length && procs[p].state == Embryo && procs[p].level == 0
      modifies this`size, procs
      ensures Valid() && procs[..] == old(procs[..])[p := old(procs[p]).(state := Unused)]
      ensures size == old(size)[0 := old(size)[0] - 1]
      ensures old(Queue(procs[..], 0, q + [p]) && size[0] == |q + [p]|) ==> Queue(procs[..], 0, q) && size[0] == |q|
    {
      ghost var was := procs[..];
      procs[p] := procs[p].(state := Unused);
      size := size[0 := size[0] - 1];
      if Queue(was, 0, q + [p]) {
        Dropped(was, procs[..], q, p);
      }
    }

    /** The end of fork. */
    method FinishFork(p: nat)
      requires Valid() && p < procs.Length && procs[p].state == Embryo
      modifies procs
      ensures Valid()
      ensures procs[..] == Forked(old(procs[..]), p, size[0])
    {
      procs[p] := procs[p].(state := Runnable, priority := 3, ticks := 0, level := 0, qnum := size[0] - 1);
    }

    /** The part of wait that takes zombie child z off the table of process me. */
    method Reap(me: nat, z: nat)
      requires Valid() && me < procs.Length && z < procs.Length && procs[z].state == Zombie && z != me
      modifies this`size, this`locked, procs
      ensures Valid() && Reaped(old(procs[..]), procs[..], me, z)
      ensures locked == if old(locked) == old(procs[z].pid) then 0 else old(locked)
      ensures size == old(size)[old(procs[me].level) := old(size)[old(procs[me].level)] - 1]
    {
      var pid := procs[z].pid;
      procs[z] := procs[z].(pid := 0, state := Unused);
      if locked == pid {
        locked := 0;
      }
      var ql, qnum := procs[me].level, procs[me].qnum;
      size := if ql == 0 then size[0 := size[0] - 1] else if ql == 1 then size[1 := size[1] - 1] else size[2 := size[2] - 1];
      var cur := 0;
      while cur < procs.Length
        modifies procs
        invariant 0 <= cur <= procs.Length
        invariant forall i :: 0 <= i < procs.Length && i != z ==>
                    procs[i] == (if i < cur && old(procs[i].level) == ql && old(procs[i].qnum) > qnum
                     then old(procs[i]).(qnum := old(procs[i].qnum) - 1) else old(procs[i]))
        invariant procs[z] == old(procs[z]).(pid := 0, state := Unused, level := procs[z].level, qnum := procs[z].qnum)
      {
        if procs[cur].level == ql && procs[cur].qnum > qnum {
          procs[cur] := procs[cur].(qnum := procs[cur].qnum - 1);
        }
        cur := cur + 1;
      }
      procs[z] := procs[z].(level := 0, qnum := 0, ticks := 0);
    }
  }

  lemma Appended(procs: seq<Process>, procs': seq<Process>, q: seq<nat>, p: nat)
    requires Queue(procs, 0, q) && p < |procs| && !Live(procs[p])
    requires |procs'| == |procs| && InLevel(procs'[p], 0) && procs'[p].qnum == |q|
    requires forall i :: 0 <= i < |procs| && i != p ==> procs'[i] == procs[i]
    ensures Queue(procs', 0, q + [p])
  {
    forall k | 0 <= k < |q + [p]|
      ensures Queued(procs', 0, q + [p], k)
    {
      assert k < |q| ==> Queued(procs, 0, q, k);
    }
  }

  lemma Dropped(procs: seq<Process>, procs': seq<Process>, q: seq<nat>, p: nat)
    requires Queue(procs, 0, q + [p]) && p < |procs| == |procs'| && !Live(procs'[p])
    requires forall i :: 0 <= i < |procs| && i != p ==> procs'[i] == procs[i]
    ensures Queue(procs', 0, q)
  {
    var all := q + [p];
    assert Queued(procs, 0, all, |q|);
    forall k | 0 <= k < |q|
      ensures Queued(procs', 0, q, k)
    {
      assert Queued(procs, 0, all, k) && all[k] == q[k];
    }
    forall i: nat | i < |procs'| && InLevel(procs'[i], 0)
      ensures 0 <= procs'[i].qnum < |q| && q[procs'[i].qnum] == i
    {
      assert InLevel(procs[i], 0) && all[procs[i].qnum] == i;
    }
  }
}

/** Processes in sleep-locks get on: spin-locks are given up, waiting means sleeping, and releases go through. */
module SleepProgress {
  import opened SleepLocks

  /** How many steps of its own a holder of a sleep-lock's spin-lock takes at most until it has released it. */
  function SpinRank(pc: Pc): (r: nat)
    ensures r <= 5
    ensures pc != Normal ==> (r > 0 <==> pc.HoldsSpin(pc.l))
  {
    match pc
    case AcqLeave(_) => 1
    case SleepRelease(_) => 1
    case RelLeave(_) => 1
    case AskLeave(_, _) => 1
    case SleepAcquire(_) => 2
    case WakeRelease(_) => 2
    case AskTest(_) => 2
    case AcqTest(_) => 3
    case WakeMark(_) => 3
    case WakeAcquire(_) => 4
    case RelClear(_) => 5
    case _ => 0
  }

  /** The same for ptable.lock. */
  function PtableRank(pc: Pc): (r: nat)
    ensures r <= 3 && (r > 0 <==> pc.HoldsPtable())
  {
    match pc
    case SleepSwitch(_) => 1
    case Resumed(_) => 1
    case WakeRelease(_) => 1
    case SleepMark(_) => 2
    case WakeMark(_) => 2
    case SleepRelease(_) => 3
    case _ => 0
  }

  /** How many steps of its own a process takes at most until its call has returned or it is asleep. */
  function Left(proc: Proc): (r: nat)
    ensures r <= 9
  {
    match proc.pc
    case Normal => 0
    case AcqLeave(_) => 1
    case RelLeave(_) => 1
    case AskLeave(_, _) => 1
    case AskTest(_) => 2
    case AskSpin(_) => 3
    case WakeRelease(_) => 2
    case WakeMark(_) => 3
    case WakeAcquire(_) => 4
    case RelClear(_) => 5
    case RelSpin(_) => 6
    case SleepMark(_) => 2
    case SleepRelease(_) => 3
    case SleepAcquire(_) => 4
    case AcqTest(_) => 5
    case AcqSpin(_) => 6
    case Resumed(_) => 7
    case Asleep(_) => if proc.sleeping then 0 else 8
    case SleepSwitch(_) => if proc.sleeping then 1 else 9
  }

  /** A step p takes itself. */
  predicate Own(step: Step, p: nat) {
    !step.Outside? && !step.Kill? && step.p == p
  }

  // ---------------------------------------------------------------- one step

  lemma BodyRanks(s: State, p: nat)
    requires Inv(s) && Enabled(s, Run(p)) && s.procs[p].pc.Act() == Body
    ensures var pc, s' := s.procs[p].pc, DoBody(s, p);
            && |s'.procs| == |s.procs| && s'.ptableLock == s.ptableLock
            && (pc.HoldsSpin(pc.l) ==> SpinRank(s'.procs[p].pc) < SpinRank(pc))
            && (pc.HoldsPtable() ==> PtableRank(s'.procs[p].pc) < PtableRank(pc))
            && Left(s'.procs[p]) < Left(s.procs[p])
            && forall q :: 0 <= q < |s.procs| && q != p ==>
                 s'.procs[q].pc == s.procs[q].pc && (!pc.WakeMark? ==> s'.procs[q] == s.procs[q])
  {
    hide Spins, Ptable, Owned, Sleepers;
  }

  lemma LockRanks(s: State, p: nat)
    requires Inv(s) && Enabled(s, Run(p)) && s.procs[p].pc.Act() != Body
    ensures var pc, s' := s.procs[p].pc, Next(s, Run(p));
            && |s'.procs| == |s.procs| && (s.ptableLock != HeldOutside ==> s'.ptableLock != HeldOutside)
            && (pc.HoldsSpin(pc.l) ==> SpinRank(s'.procs[p].pc) < SpinRank(pc))
            && (pc.HoldsPtable() ==> PtableRank(s'.procs[p].pc) < PtableRank(pc))
            && Left(s'.procs[p]) < Left(s.procs[p])
            && forall q :: 0 <= q < |s.procs| && q != p ==> s'.procs[q] == s.procs[q]
  {
    hide Inv;
  }

  /** A step of the program of a process brings it nearer to giving up what it holds, and to the end of its call or to sleep. */
  lemma StepRanks(s: State, p: nat)
    requires Inv(s) && Enabled(s, Run(p))
    ensures var pc, s' := s.procs[p].pc, Next(s, Run(p));
            && |s'.procs| == |s.procs| && (s.ptableLock != HeldOutside ==> s'.ptableLock != HeldOutside)
            && (pc.HoldsSpin(pc.l) ==> SpinRank(s'.procs[p].pc) < SpinRank(pc))
            && (pc.HoldsPtable() ==> PtableRank(s'.procs[p].pc) < PtableRank(pc))
            && Left(s'.procs[p]) < Left(s.procs[p])
            && forall q :: 0 <= q < |s.procs| && q != p ==>
                 s'.procs[q].pc == s.procs[q].pc && (!pc.WakeMark? ==> s'.procs[q] == s.procs[q])
  {
    hide DoBody, Inv, SpinRank, PtableRank, Left;
    if s.procs[p].pc.Act() == Body {
      BodyRanks(s, p);
    } else {
      LockRanks(s, p);
    }
  }

  lemma SameSize(s: State, step: Step)
    requires Enabled(s, step)
    ensures |Next(s, step).procs| == |s.procs| && |Next(s, step).locks| == |s.locks|
    ensures forall q :: 0 <= q < |s.procs| && (step.Outside? || q != step.p) ==> Next(s, step).procs[q].pc == s.procs[q].pc
  {
    if !step.Outside? {
      hide Next;
      Others(s, step);
    }
  }

  // ---------------------------------------------------------------- many steps

  ghost predicate Reachable(s: State, nlock: nat, nproc: nat) {
    exists states :: IsRun(states, nlock, nproc) && states[|states| - 1] == s
  }

  lemma ReachableInv(s: State, nlock: nat, nproc: nat)
    requires Reachable(s, nlock, nproc)
    ensures Inv(s) && |s.procs| == nproc && |s.locks| == nlock
  {
    hide Inv;
    var states: seq<State> :| IsRun(states, nlock, nproc) && states[|states| - 1] == s;
    RunInv(states, nlock, nproc);
    RunSize(states, nlock, nproc);
  }

  lemma {:induction false} RunSize(states: seq<State>, nlock: nat, nproc: nat)
    requires IsRun(states, nlock, nproc)
    ensures |states[|states| - 1].procs| == nproc && |states[|states| - 1].locks| == nlock
  {
    hide Enabled, Next;
    var n := |states| - 1;
    if n > 0 {
      assert states[..n][n - 1] == states[n - 1] && Follows(states[n - 1], states[n - 1 + 1]);
      assert IsRun(states[..n], nlock, nproc) by {
        forall i | 0 <= i < n - 1
          ensures Follows(states[..n][i], states[..n][i + 1])
        {
          assert Follows(states[i], states[i + 1]);
        }
      }
      RunSize(states[..n], nlock, nproc);
      var step :| Enabled(states[n - 1], step) && states[n] == Next(states[n - 1], step);
      SameSize(states[n - 1], step);
    }
  }

  /** A run with its steps named, from any state on. */
  ghost predicate IsPath(states: seq<State>, steps: seq<Step>) {
    && |states| == |steps| + 1
    && forall i :: 0 <= i < |steps| ==> Enabled(states[i], steps[i]) && states[i + 1] == Next(states[i], steps[i])
  }

  /** How many of the steps p takes itself. */
  function OwnSteps(steps: seq<Step>, p: nat): nat {
    if steps == [] then 0 else OwnSteps(steps[..|steps| - 1], p) + if Own(steps[|steps| - 1], p) then 1 else 0
  }

  lemma PathPrefix(states: seq<State>, steps: seq<Step>)
    requires IsPath(states, steps) && steps != []
    ensures |states| == |steps| + 1 && IsPath(states[..|steps|], steps[..|steps| - 1])
    ensures states[..|steps|][0] == states[0] && states[..|steps|][|steps| - 1] == states[|steps| - 1]
    ensures Enabled(states[|steps| - 1], steps[|steps| - 1])
    ensures states[|steps|] == Next(states[|steps| - 1], steps[|steps| - 1])
  {
    hide Enabled, Next;
    var n := |steps| - 1;
    assert states[n + 1] == Next(states[n], steps[n]);
    forall i | 0 <= i < n
      ensures Enabled(states[..n + 1][i], steps[..n][i]) && states[..n + 1][i + 1] == Next(states[..n + 1][i], steps[..n][i])
    {
      assert states[i + 1] == Next(states[i], steps[i]);
    }
  }

  lemma {:induction false} PathInv(states: seq<State>, steps: seq<Step>)
    requires IsPath(states, steps) && Inv(states[0])
    ensures Inv(states[|steps|])
    ensures |states[|steps|].procs| == |states[0].procs| && |states[|steps|].locks| == |states[0].locks|
  {
    hide Inv, Enabled, Next, IsPath;
    if steps != [] {
      var n := |steps| - 1;
      PathPrefix(states, steps);
      PathInv(states[..n + 1], steps[..n]);
      InvNext(states[n], steps[n]);
      SameSize(states[n], steps[n]);
    }
  }

  // ---------------------------------------------------------------- locks are given up

  /** A process in a call takes steps of its program only. */
  lemma OwnIsRun(s: State, step: Step, p: nat)
    requires Enabled(s, step) && p < |s.procs| && Own(step, p) && s.procs[p].pc != Normal
    ensures step == Run(p)
  {
  }

  lemma OthersStep(s: State, step: Step, p: nat)
    requires Enabled(s, step) && p < |s.procs| && !Own(step, p)
    ensures p < |Next(s, step).procs| && Next(s, step).procs[p].pc == s.procs[p].pc
  {
    if step.Outside? || step.p != p {
      hide Next;
      SameSize(s, step);
    }
  }

  lemma {:induction false} SpinSteps(states: seq<State>, steps: seq<Step>, p: nat, l: nat)
    requires IsPath(states, steps) && Inv(states[0]) && p < |states[0].procs|
    requires forall i :: 0 <= i < |steps| ==> p < |states[i].procs| && states[i].procs[p].pc.HoldsSpin(l)
    ensures p < |states[|steps|].procs|
    ensures OwnSteps(steps, p) + SpinRank(states[|steps|].procs[p].pc) <= SpinRank(states[0].procs[p].pc)
  {
    hide Inv, Enabled, Next, IsPath, SpinRank;
    if steps != [] {
      var n := |steps| - 1;
      PathPrefix(states, steps);
      SpinSteps(states[..n + 1], steps[..n], p, l);
      PathInv(states[..n + 1], steps[..n]);
      if Own(steps[n], p) {
        OwnIsRun(states[n], steps[n], p);
        StepRanks(states[n], p);
      } else {
        OthersStep(states[n], steps[n], p);
      }
    }
  }

  /** From any state a run reaches: while a process has the spin-lock of a sleep-lock, it takes five steps at most. */
  lemma SpinGivenUp(states: seq<State>, steps: seq<Step>, p: nat, l: nat, nlock: nat, nproc: nat)
    requires IsPath(states, steps) && Reachable(states[0], nlock, nproc) && p < nproc && l < nlock
    requires forall i :: 0 <= i < |steps| ==> p < |states[i].procs| && states[i].procs[p].pc.HoldsSpin(l)
    ensures OwnSteps(steps, p) <= 5
    ensures OwnSteps(steps, p) == 5 ==> l < |states[|steps|].locks| && states[|steps|].locks[l].spin != Held(p)
  {
    ReachableInv(states[0], nlock, nproc);
    hide IsPath;
    SpinSteps(states, steps, p, l);
    PathInv(states, steps);
  }

  lemma {:induction false} PtableSteps(states: seq<State>, steps: seq<Step>, p: nat)
    requires IsPath(states, steps) && Inv(states[0]) && p < |states[0].procs|
    requires forall i :: 0 <= i < |steps| ==> p < |states[i].procs| && states[i].procs[p].pc.HoldsPtable()
    ensures p < |states[|steps|].procs|
    ensures OwnSteps(steps, p) + PtableRank(states[|steps|].procs[p].pc) <= PtableRank(states[0].procs[p].pc)
  {
    hide Inv, Enabled, Next, IsPath, PtableRank;
    if steps != [] {
      var n := |steps| - 1;
      PathPrefix(states, steps);
      PtableSteps(states[..n + 1], steps[..n], p);
      PathInv(states[..n + 1], steps[..n]);
      if Own(steps[n], p) {
        OwnIsRun(states[n], steps[n], p);
        StepRanks(states[n], p);
      } else {
        OthersStep(states[n], steps[n], p);
      }
    }
  }

  /** While a process has ptable.lock, it takes three steps at most. */
  lemma PtableGivenUp(states: seq<State>, steps: seq<Step>, p: nat, nlock: nat, nproc: nat)
    requires IsPath(states, steps) && Reachable(states[0], nlock, nproc) && p < nproc
    requires forall i :: 0 <= i < |steps| ==> p < |states[i].procs| && states[i].procs[p].pc.HoldsPtable()
    ensures OwnSteps(steps, p) <= 3
    ensures OwnSteps(steps, p) == 3 ==> states[|steps|].ptableLock != Held(p)
  {
    ReachableInv(states[0], nlock, nproc);
    hide IsPath;
    PtableSteps(states, steps, p);
    PathInv(states, steps);
  }

  // ---------------------------------------------------------------- waiting means sleeping

  /** Where a caller that finds the sleep-lock taken stands after k steps of its own. */
  function WaitPath(l: nat, k: nat): Pc
    requires k <= 5
  {
    [AcqTest(l), SleepAcquire(l), SleepRelease(l), SleepMark(l), SleepSwitch(l), Asleep(l)][k]
  }

  ghost predicate Waits(s: State, p: nat, l: nat, k: nat) {
    && p < |s.procs| && 1 <= k <= 5 && s.procs[p].pc == WaitPath(l, k)
    && (k == 4 ==> s.procs[p].sleeping && s.procs[p].chan == l)
  }

  lemma WaitsStep(s: State, step: Step, p: nat, l: nat, k: nat)
    requires Inv(s) && Enabled(s, step) && Waits(s, p, l, k) && (k == 5 ==> !Own(step, p))
    ensures Waits(Next(s, step), p, l, if Own(step, p) then k + 1 else k)
    ensures Own(step, p) && k == 4 ==> Next(s, step).procs[p].sleeping && Next(s, step).procs[p].chan == l
  {
    hide Owned, Sleepers, Spins;
    if Own(step, p) {
      assert step.Run?;
    } else {
      OthersStep(s, step, p);
      hide DoBody;
      if step.Run? && s.procs[step.p].pc.Act() == Body {
        BodyRanks(s, step.p);
      }
    }
  }

  lemma {:induction false} WaitSteps(states: seq<State>, steps: seq<Step>, p: nat, l: nat)
    requires IsPath(states, steps) && steps != [] && Inv(states[0]) && p < |states[0].procs| && l < |states[0].locks|
    requires states[0].procs[p].pc == AcqTest(l) && states[0].locks[l].locked && steps[0] == Run(p) && OwnSteps(steps, p) <= 5
    ensures Waits(states[|steps|], p, l, OwnSteps(steps, p))
    ensures OwnSteps(steps, p) == 5 && steps[|steps| - 1] == Run(p) ==> states[|steps|].procs[p].sleeping && states[|steps|].procs[p].chan == l
  {
    hide Inv, Enabled, Next, IsPath, WaitPath;
    var n := |steps| - 1;
    PathPrefix(states, steps);
    if n == 0 {
      assert OwnSteps(steps[..0], p) == 0 && OwnSteps(steps, p) == 1;
      FirstWait(states[0], p, l);
    } else {
      assert steps[..n][0] == steps[0];
      WaitSteps(states[..n + 1], steps[..n], p, l);
      PathInv(states[..n + 1], steps[..n]);
      WaitsStep(states[n], steps[n], p, l, OwnSteps(steps[..n], p));
    }
  }

  lemma FirstWait(s: State, p: nat, l: nat)
    requires Enabled(s, Run(p)) && s.procs[p].pc == AcqTest(l) && s.locks[l].locked
    ensures Waits(Next(s, Run(p)), p, l, 1)
  {
  }

  /**
   * A caller of acquiresleep that finds the sleep-lock taken stands, after each step of its own, where the code of sleep
   * puts it: after three it has given up the spin-lock, and with its fifth it is asleep on that lock, holding neither.
   */
  lemma CallerSleeps(states: seq<State>, steps: seq<Step>, p: nat, l: nat, nlock: nat, nproc: nat)
    requires IsPath(states, steps) && steps != [] && Reachable(states[0], nlock, nproc) && p < nproc && l < nlock
    requires p < |states[0].procs| && l < |states[0].locks|
    requires states[0].procs[p].pc == AcqTest(l) && states[0].locks[l].locked && steps[0] == Run(p)
    requires 1 <= OwnSteps(steps, p) <= 5
    ensures var s, k := states[|steps|], OwnSteps(steps, p);
            && p < |s.procs| && l < |s.locks| && s.procs[p].pc == WaitPath(l, k)
            && (k >= 3 ==> s.locks[l].spin != Held(p)) && (k == 5 ==> s.ptableLock != Held(p))
            && (k == 5 && steps[|steps| - 1] == Run(p) ==> s.procs[p].sleeping && s.procs[p].chan == l)
  {
    ReachableInv(states[0], nlock, nproc);
    hide IsPath;
    WaitSteps(states, steps, p, l);
    PathInv(states, steps);
    NotHeld(states[|steps|], p, l, OwnSteps(steps, p));
  }

  lemma NotHeld(s: State, p: nat, l: nat, k: nat)
    requires Inv(s) && p < |s.procs| && l < |s.locks| && 1 <= k <= 5 && s.procs[p].pc == WaitPath(l, k)
    ensures (k >= 3 ==> s.locks[l].spin != Held(p)) && (k == 5 ==> s.ptableLock != Held(p))
  {
    hide Owned, Sleepers;
  }

  /** One that finds it free has it after its next step, and after one more has returned with the spin-lock released. */
  lemma CallerTakes(s: State, p: nat, l: nat, nlock: nat, nproc: nat)
    requires Reachable(s, nlock, nproc) && p < |s.procs| && s.procs[p].pc == AcqTest(l) && l < |s.locks| && !s.locks[l].locked
    ensures Enabled(s, Run(p)) && var s1 := Next(s, Run(p));
            && s1.procs[p].held == s.procs[p].held + {l}
            && Enabled(s1, Run(p)) && var s2 := Next(s1, Run(p));
            && p < |s2.procs| && s2.procs[p] == s.procs[p].(pc := Normal, held := s.procs[p].held + {l})
            && s2.locks == s.locks[l := SleepLock(Free, true, p)]
  {
    ReachableInv(s, nlock, nproc);
  }

  // ---------------------------------------------------------------- every call ends, or sleeps on a lock that is held

  /** Still to wake the sleepers before its call ends. */
  predicate WillWakeLater(pc: Pc) {
    pc.RelSpin? || pc.RelClear? || pc.WakeAcquire? || pc.WakeMark?
  }

  function Wakers(procs: seq<Proc>): (n: nat)
    ensures n <= |procs|
  {
    if procs == [] then 0 else Wakers(procs[..|procs| - 1]) + if WillWakeLater(procs[|procs| - 1].pc) then 1 else 0
  }

  function AllLeft(procs: seq<Proc>): (n: nat)
    ensures n <= 9 * |procs|
  {
    if procs == [] then 0 else AllLeft(procs[..|procs| - 1]) + Left(procs[|procs| - 1])
  }

  function StepBound(nproc: nat): nat {
    nproc * (9 * nproc + 1) + 9 * nproc
  }

  /** How many steps all processes together take at most until their operations have ended, if they log no more. */
  function Potential(procs: seq<Proc>): (n: nat)
    ensures n <= StepBound(|procs|)
  {
    MulBound(Wakers(procs), |procs|, 9 * |procs| + 1);
    Wakers(procs) * (9 * |procs| + 1) + AllLeft(procs)
  }

  lemma MulBound(a: nat, b: nat, c: nat)
    requires a <= b
    ensures a * c <= b * c
  {
  }

  lemma {:induction false} MovedPotential(procs: seq<Proc>, p: nat, x: Proc)
    requires p < |procs|
    ensures Wakers(procs[p := x]) == Wakers(procs) - (if WillWakeLater(procs[p].pc) then 1 else 0) + (if WillWakeLater(x.pc) then 1 else 0)
    ensures AllLeft(procs[p := x]) == AllLeft(procs) - Left(procs[p]) + Left(x)
  {
    var n := |procs| - 1;
    if p < n {
      MovedPotential(procs[..n], p, x);
      assert procs[p := x][..n] == procs[..n][p := x];
    } else {
      assert procs[p := x][..n] == procs[..n];
    }
  }

  lemma {:induction false} SamePcs(procs: seq<Proc>, procs': seq<Proc>)
    requires |procs'| == |procs| && forall i :: 0 <= i < |procs| ==> procs'[i].pc == procs[i].pc
    ensures Wakers(procs') == Wakers(procs)
  {
    if procs != [] {
      SamePcs(procs[..|procs| - 1], procs'[..|procs| - 1]);
    }
  }

  lemma WakesNoMore(s: State, p: nat)
    requires Inv(s) && Enabled(s, Run(p))
    ensures var s' := Next(s, Run(p)); |s'.procs| == |s.procs| && p < |s.procs|
    ensures var was, now := s.procs[p].pc, Next(s, Run(p)).procs[p].pc;
            WillWakeLater(now) <==> WillWakeLater(was) && !was.WakeMark?
  {
    hide Spins, Ptable, Owned, Sleepers;
  }

  /** Every step lowers the bound: the step that wakes sleepers counts for all they may do before they sleep again. */
  lemma PotentialLowers(s: State, p: nat)
    requires Inv(s) && Enabled(s, Run(p))
    ensures Potential(Next(s, Run(p)).procs) < Potential(s.procs)
  {
    hide Inv, Next, Enabled, Left, Wakers, AllLeft;
    var s' := Next(s, Run(p));
    StepRanks(s, p);
    WakesNoMore(s, p);
    var flat := s.procs[p := s'.procs[p]];
    MovedPotential(s.procs, p, s'.procs[p]);
    SamePcs(flat, s'.procs);
    var c := 9 * |s.procs| + 1;
    if s.procs[p].pc.WakeMark? {
      assert Wakers(s'.procs) == Wakers(s.procs) - 1;
      assert Wakers(s'.procs) * c == Wakers(s.procs) * c - c;
    } else {
      assert flat == s'.procs;
      MulBound(Wakers(s'.procs), Wakers(s.procs), c);
    }
  }

  /** Spin-locks never deadlock: a process that is neither elsewhere nor asleep can step, or the holder of a lock it needs can. */
  lemma SpinProgress(states: seq<State>, nlock: nat, nproc: nat, p: nat)
    requires IsRun(states, nlock, nproc)
    requires var s := states[|states| - 1];
             s.ptableLock != HeldOutside && p < |s.procs| && s.procs[p].pc != Normal && !s.procs[p].sleeping
    ensures var s := states[|states| - 1];
            s.procs[p].pc.l < |s.locks| && exists q :: GoesOn(s, q) && InTheWay(s, p, q)
  {
    RunInv(states, nlock, nproc);
    var s := states[|states| - 1];
    assert PcOk(s.procs[p], p, s.locks);
    var q := if s.ptableLock.Held? then s.ptableLock.pid
             else if s.locks[s.procs[p].pc.l].spin.Held? then s.locks[s.procs[p].pc.l].spin.pid else p;
    StepEnabled(s, q);
    StepRanks(s, q);
    assert GoesOn(s, q) && InTheWay(s, p, q);
  }

  /** q can take a step, and it brings q nearer to the end of its call or to sleep. */
  ghost predicate GoesOn(s: State, q: nat) {
    Enabled(s, Run(q)) && var s' := Next(s, Run(q)); q < |s'.procs| && Left(s'.procs[q]) < Left(s.procs[q])
  }

  /** q is p itself, or holds the ptable lock or the spin-lock of the sleep-lock p deals with. */
  ghost predicate InTheWay(s: State, p: nat, q: nat)
    requires p < |s.procs| && s.procs[p].pc != Normal && s.procs[p].pc.l < |s.locks|
  {
    q == p || s.ptableLock == Held(q) || s.locks[s.procs[p].pc.l].spin == Held(q)
  }

  lemma StepEnabled(s: State, q: nat)
    requires Inv(s) && q < |s.procs| && s.procs[q].pc != Normal && !(s.procs[q].pc.Asleep? && s.procs[q].sleeping)
    requires s.ptableLock == Held(q) || s.ptableLock == Free
    requires s.procs[q].pc.l < |s.locks| ==>
               s.ptableLock == Held(q) || s.locks[s.procs[q].pc.l].spin == Held(q) || s.locks[s.procs[q].pc.l].spin == Free
    ensures Enabled(s, Run(q))
  {
    assert PcOk(s.procs[q], q, s.locks);
    assert s.procs[q].pc.HoldsPtable() <==> s.ptableLock == Held(q);
    assert s.procs[q].pc.HoldsSpin(s.procs[q].pc.l) <==> s.locks[s.procs[q].pc.l].spin == Held(q);
  }

  lemma {:induction false} RunSteps(states: seq<State>, steps: seq<Step>)
    requires IsPath(states, steps) && Inv(states[0]) && states[0].ptableLock != HeldOutside
    requires forall i :: 0 <= i < |steps| ==> steps[i].Run?
    ensures |steps| + Potential(states[|steps|].procs) <= Potential(states[0].procs)
    ensures states[|steps|].ptableLock != HeldOutside
  {
    hide Inv, Enabled, Next, IsPath, Potential;
    if steps != [] {
      var n := |steps| - 1;
      PathPrefix(states, steps);
      RunSteps(states[..n + 1], steps[..n]);
      PathInv(states[..n + 1], steps[..n]);
      PotentialLowers(states[n], steps[n].p);
      StepRanks(states[n], steps[n].p);
    }
  }

  /** No process can take a step of its program. */
  ghost predicate Stuck(s: State) {
    forall p :: 0 <= p < |s.procs| ==> !Enabled(s, Run(p))
  }

  /** A process is in no call, or asleep on a sleep-lock that some process has acquired and not released. */
  ghost predicate AtRest(s: State, p: nat) {
    && p < |s.procs|
    && (s.procs[p].pc != Normal ==>
          && s.procs[p].pc.Asleep? && s.procs[p].sleeping && s.procs[p].pc.l < |s.locks|
          && var lock := s.locks[s.procs[p].pc.l];
             lock.locked && lock.pid < |s.procs| && s.procs[p].pc.l in s.procs[lock.pid].held)
  }

  lemma StuckAtRest(s: State, p: nat)
    requires Inv(s) && s.ptableLock != HeldOutside && Stuck(s) && p < |s.procs|
    ensures AtRest(s, p)
  {
    if s.procs[p].pc != Normal {
      assert PcOk(s.procs[p], p, s.locks) && SleeperOk(s, s.procs[p]);
      var l := s.procs[p].pc.l;
      var q := if s.ptableLock.Held? then s.ptableLock.pid else if s.locks[l].spin.Held? then s.locks[l].spin.pid else p;
      if !(q == p && s.procs[p].pc.Asleep? && s.procs[p].sleeping) {
        StuckHolder(s, q, l);
        assert false;
      }
      NoWaker(s, l);
    }
  }

  /** A process about to wake the sleepers of a lock has its spin-lock. */
  lemma NoWaker(s: State, l: nat)
    requires Spins(s) && l < |s.locks| && s.locks[l].spin == Free
    ensures !WakePending(s, l)
  {
    forall w | 0 <= w < |s.procs|
      ensures !s.procs[w].pc.WillWake(l)
    {
      assert !s.procs[w].pc.HoldsSpin(l);
    }
  }

  /** The holder of ptable.lock, or else of a spin-lock, is not stuck. */
  lemma StuckHolder(s: State, q: nat, l: nat)
    requires Inv(s) && s.ptableLock != HeldOutside && q < |s.procs| && l < |s.locks| && s.procs[q].pc != Normal
    requires !(s.procs[q].pc.Asleep? && s.procs[q].sleeping)
    requires if s.ptableLock.Held? then q == s.ptableLock.pid
             else if s.locks[l].spin.Held? then q == s.locks[l].spin.pid else s.procs[q].pc.l == l
    ensures Enabled(s, Run(q))
  {
    StepEnabled(s, q);
  }

  /**
   * From any state a run reaches, when no more calls begin: however the processes are scheduled, they take a bounded number
   * of steps, and when none can take another, each is in no call, or asleep on a lock somebody has.
   */
  lemma AllRest(states: seq<State>, steps: seq<Step>, nlock: nat, nproc: nat)
    requires IsPath(states, steps) && Reachable(states[0], nlock, nproc) && states[0].ptableLock != HeldOutside
    requires forall i :: 0 <= i < |steps| ==> steps[i].Run?
    ensures |steps| <= StepBound(nproc)
    ensures Stuck(states[|steps|]) ==> forall p :: 0 <= p < nproc ==> AtRest(states[|steps|], p)
  {
    ReachableInv(states[0], nlock, nproc);
    hide IsPath, Potential, Enabled, Next, Inv, Reachable, StepBound, AtRest, Stuck;
    RunSteps(states, steps);
    PathInv(states, steps);
    var s := states[|steps|];
    if Stuck(s) {
      forall p | 0 <= p < nproc
        ensures AtRest(s, p)
      {
        StuckAtRest(s, p);
      }
    }
  }

  // ---------------------------------------------------------------- releases go through

  /** p is releasing l, or has released it. */
  ghost predicate Releases(s: State, p: nat, l: nat) {
    && p < |s.procs|
    && var pc := s.procs[p].pc;
       || ((pc == RelSpin(l) || pc == RelClear(l)) && l in s.procs[p].held)
       || ((pc == WakeAcquire(l) || pc == WakeMark(l) || pc == WakeRelease(l) || pc == RelLeave(l) || pc == Normal) && l !in s.procs[p].held)
  }

  lemma ReleasesStep(s: State, q: nat, p: nat, l: nat)
    requires Enabled(s, Run(q)) && Releases(s, p, l)
    ensures Releases(Next(s, Run(q)), p, l)
  {
  }

  lemma {:induction false} ReleaseSteps(states: seq<State>, steps: seq<Step>, p: nat, l: nat)
    requires IsPath(states, steps) && Releases(states[0], p, l)
    requires forall i :: 0 <= i < |steps| ==> steps[i].Run?
    ensures Releases(states[|steps|], p, l)
  {
    hide Enabled, Next, IsPath, Releases;
    if steps != [] {
      var n := |steps| - 1;
      PathPrefix(states, steps);
      ReleaseSteps(states[..n + 1], steps[..n], p, l);
      ReleasesStep(states[n], steps[n].p, p, l);
    }
  }

  /** From any state a run reaches: a holder that calls releasesleep, and is let run, returns without the lock, whatever the others do. */
  lemma ReleaseGoesThrough(states: seq<State>, steps: seq<Step>, p: nat, l: nat, nlock: nat, nproc: nat)
    requires IsPath(states, steps) && Reachable(states[0], nlock, nproc) && states[0].ptableLock != HeldOutside
    requires p < |states[0].procs| && states[0].procs[p].pc == RelSpin(l)
    requires forall i :: 0 <= i < |steps| ==> steps[i].Run?
    ensures |steps| <= StepBound(nproc)
    ensures Stuck(states[|steps|]) ==>
              p < |states[|steps|].procs| && states[|steps|].procs[p].pc == Normal && l !in states[|steps|].procs[p].held
  {
    ReachableInv(states[0], nlock, nproc);
    ReleaseStarts(states[0], p, l);
    AllRest(states, steps, nlock, nproc);
    ReleaseSteps(states, steps, p, l);
    hide *;
    if Stuck(states[|steps|]) {
      ReleaseEnds(states[|steps|], p, l);
    }
  }

  lemma ReleaseStarts(s: State, p: nat, l: nat)
    requires Inv(s) && p < |s.procs| && s.procs[p].pc == RelSpin(l)
    ensures Releases(s, p, l)
  {
    assert PcOk(s.procs[p], p, s.locks);
  }

  lemma ReleaseEnds(s: State, p: nat, l: nat)
    requires AtRest(s, p) && Releases(s, p, l)
    ensures p < |s.procs| && s.procs[p].pc == Normal && l !in s.procs[p].held
  {
  }
}

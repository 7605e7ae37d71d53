/** Processes in the log get on: locks are given up, waiting means sleeping, and operations that log no more all end. */
module LogProgress {
  import opened RedoSpec
  import opened GroupCommit
  import opened LogCapacity

  /** How many steps of its own a holder of log.lock takes at most until it has released it. */
  function LogRank(pc: Pc): (r: nat)
    ensures r <= 5 && (r > 0 <==> pc.HoldsLog())
  {
    match pc
    case BeginLeave => 1
    case SleepRelease => 1
    case WriteLeave => 1
    case EndLeave => 1
    case CommitLeave => 1
    case SleepAcquire => 2
    case WriteRecord(_) => 2
    case WakeRelease => 2
    case BeginTest => 3
    case WakeMark => 3
    case WakeAcquire => 4
    case EndCount => 5
    case CommitDone => 5
    case _ => 0
  }

  /** The same for ptable.lock. */
  function PtableRank(pc: Pc): (r: nat)
    ensures r <= 3 && (r > 0 <==> pc.HoldsPtable())
  {
    match pc
    case SleepSwitch => 1
    case Resumed => 1
    case WakeRelease => 1
    case SleepMark => 2
    case WakeMark => 2
    case SleepRelease => 3
    case _ => 0
  }

  /** How many steps of its own a process takes at most until its operation has ended or it is asleep, if it logs no more. */
  function Left(proc: Proc): (r: nat)
    ensures r <= 25
  {
    match proc.pc
    case Idle => 0
    case EndLeave => 1
    case WakeRelease => 2
    case WakeMark => 3
    case WakeAcquire => 4
    case CommitDone => 5
    case CommitAcquire => 6
    case Committing => 7
    case CommitLeave => 8
    case EndCount => 9
    case EndAcquire => 10
    case InOp => 11
    case BeginLeave => 12
    case WriteLeave => 12
    case WriteRecord(_) => 13
    case WriteAcquire(_) => 14
    case SleepMark => 18
    case SleepRelease => 19
    case SleepAcquire => 20
    case BeginTest => 21
    case BeginAcquire => 22
    case Resumed => 23
    case Asleep => if proc.sleeping then 0 else 24
    case SleepSwitch => if proc.sleeping then 1 else 25
  }

  /** A step of an operation that logs no more: no call begins but end_op, nobody is killed or uses ptable.lock besides. */
  predicate Ending(step: Step) {
    step.Run? || step.End?
  }

  /** A step p takes itself. */
  predicate Own(step: Step, p: nat) {
    !step.Outside? && !step.Kill? && step.p == p
  }

  // ---------------------------------------------------------------- one step

  lemma BodyRanks(s: State, p: nat)
    requires Inv(s) && Enabled(s, Run(p)) && s.procs[p].pc.Act() == Body
    ensures var pc, s' := s.procs[p].pc, DoBody(s, p);
            && s'.halt == Running && |s'.procs| == |s.procs|
            && (pc.HoldsLog() ==> LogRank(s'.procs[p].pc) < LogRank(pc))
            && (pc.HoldsPtable() ==> PtableRank(s'.procs[p].pc) < PtableRank(pc))
            && Left(s'.procs[p]) < Left(s.procs[p])
            && forall q :: 0 <= q < |s.procs| && q != p ==>
                 s'.procs[q].pc == s.procs[q].pc && (!pc.WakeMark? ==> s'.procs[q] == s.procs[q])
  {
    hide Rest, Locks;
    if s.procs[p].pc.EndCount? {
      FinishOpAlone(s, p);
    }
    assert s.procs[p].pc.SleepMark? || !s.procs[p].sleeping by {
      AwakeInside(s, p);
    }
  }

  lemma AwakeInside(s: State, p: nat)
    requires Inv(s) && p < |s.procs| && !s.procs[p].pc.SleepSwitch? && !s.procs[p].pc.Asleep?
    ensures !s.procs[p].sleeping
  {
  }

  lemma LockRanks(s: State, p: nat)
    requires Inv(s) && Enabled(s, Run(p)) && s.procs[p].pc.Act() != Body
    ensures var pc, s' := s.procs[p].pc, Next(s, Run(p));
            && s'.halt == Running && |s'.procs| == |s.procs|
            && (pc.HoldsLog() ==> LogRank(s'.procs[p].pc) < LogRank(pc))
            && (pc.HoldsPtable() ==> PtableRank(s'.procs[p].pc) < PtableRank(pc))
            && Left(s'.procs[p]) < Left(s.procs[p])
            && forall q :: 0 <= q < |s.procs| && q != p ==> s'.procs[q] == s.procs[q]
  {
    hide Inv;
  }

  lemma EndLowers(proc: Proc)
    requires proc.pc == InOp
    ensures Left(proc.(pc := EndAcquire)) < Left(proc)
  {
  }

  lemma StepRanks(s: State, step: Step)
    requires Inv(s) && Enabled(s, step) && Ending(step)
    ensures var p, pc, s' := step.p, s.procs[step.p].pc, Next(s, step);
            && s'.halt == Running && |s'.procs| == |s.procs|
            && (pc.HoldsLog() ==> LogRank(s'.procs[p].pc) < LogRank(pc))
            && (pc.HoldsPtable() ==> PtableRank(s'.procs[p].pc) < PtableRank(pc))
            && Left(s'.procs[p]) < Left(s.procs[p])
            && forall q :: 0 <= q < |s.procs| && q != p ==>
                 s'.procs[q].pc == s.procs[q].pc && (!pc.WakeMark? ==> s'.procs[q] == s.procs[q])
  {
    hide DoBody, Inv, LogRank, PtableRank, Left;
    if step.End? {
      assert !s.procs[step.p].pc.HoldsLog() && !s.procs[step.p].pc.HoldsPtable();
      EndLowers(s.procs[step.p]);
    } else if s.procs[step.p].pc.Act() == Body {
      BodyRanks(s, step.p);
    } else {
      LockRanks(s, step.p);
    }
  }

  // ---------------------------------------------------------------- many steps

  /** A run with its steps named, from any state on. */
  ghost predicate IsPath(states: seq<State>, steps: seq<Step>) {
    && |states| == |steps| + 1
    && forall i :: 0 <= i < |steps| ==> Enabled(states[i], steps[i]) && states[i + 1] == Next(states[i], steps[i])
  }

  /** How many of the steps p takes itself. */
  function OwnSteps(steps: seq<Step>, p: nat): nat {
    if steps == [] then 0 else OwnSteps(steps[..|steps| - 1], p) + if Own(steps[|steps| - 1], p) then 1 else 0
  }

  lemma PathPrefix(states: seq<State>, steps: seq<Step>)
    requires IsPath(states, steps) && steps != []
    ensures |states| == |steps| + 1 && IsPath(states[..|steps|], steps[..|steps| - 1])
    ensures states[..|steps|][0] == states[0] && states[..|steps|][|steps| - 1] == states[|steps| - 1]
    ensures Enabled(states[|steps| - 1], steps[|steps| - 1])
    ensures states[|steps|] == Next(states[|steps| - 1], steps[|steps| - 1])
  {
    hide Enabled, Next;
    var n := |steps| - 1;
    assert states[n + 1] == Next(states[n], steps[n]);
    forall i | 0 <= i < n
      ensures Enabled(states[..n + 1][i], steps[..n][i]) && states[..n + 1][i + 1] == Next(states[..n + 1][i], steps[..n][i])
    {
      assert states[i + 1] == Next(states[i], steps[i]);
    }
  }

  lemma {:induction false} PathInv(states: seq<State>, steps: seq<Step>)
    requires IsPath(states, steps) && Inv(states[0])
    ensures Inv(states[|steps|]) && |states[|steps|].procs| == |states[0].procs|
  {
    hide Inv, Enabled, Next, IsPath;
    if steps != [] {
      var n := |steps| - 1;
      PathPrefix(states, steps);
      PathInv(states[..n + 1], steps[..n]);
      InvNext(states[n], steps[n]);
      StepFrame(states[n], steps[n]);
    }
  }

  lemma ReachableInv(s: State, size: nat, nproc: nat)
    requires Reachable(s, size, nproc)
    ensures Inv(s) && |s.procs| == nproc
  {
    hide Inv;
    var states: seq<State> :| IsRun(states, size, nproc) && states[|states| - 1] == s;
    RunInv(states, size, nproc);
    RunProcs(states, size, nproc);
  }

  lemma {:induction false} RunProcs(states: seq<State>, size: nat, nproc: nat)
    requires IsRun(states, size, nproc)
    ensures |states[|states| - 1].procs| == nproc
  {
    hide Enabled, Next;
    var n := |states| - 1;
    if n > 0 {
      assert states[..n][n - 1] == states[n - 1] && Follows(states[n - 1], states[n - 1 + 1]);
      assert forall i :: 0 <= i < n ==> states[..n][i] == states[i];
      assert IsRun(states[..n], size, nproc) by {
        forall i | 0 <= i < n - 1
          ensures Follows(states[..n][i], states[..n][i + 1])
        {
          assert Follows(states[i], states[i + 1]);
        }
      }
      RunProcs(states[..n], size, nproc);
      var step :| Enabled(states[n - 1], step) && states[n] == Next(states[n - 1], step);
      StepFrame(states[n - 1], step);
    }
  }

  // ---------------------------------------------------------------- locks are given up

  /** A step of another process, or of nobody, moves p nowhere. */
  lemma OthersStep(s: State, step: Step, p: nat)
    requires Inv(s) && Enabled(s, step) && p < |s.procs| && !Own(step, p)
    ensures p < |Next(s, step).procs| && Next(s, step).procs[p].pc == s.procs[p].pc
  {
    if step.Outside? || step.p != p {
      hide Next;
      StepFrame(s, step);
    }
  }

  /** A holder's own step is one of its program, and brings it nearer to releasing the lock. */
  lemma HolderStep(s: State, step: Step, p: nat)
    requires Inv(s) && Enabled(s, step) && p < |s.procs| && Own(step, p)
    requires s.procs[p].pc.HoldsLog() || s.procs[p].pc.HoldsPtable()
    ensures var pc, s' := s.procs[p].pc, Next(s, step);
            && p < |s'.procs|
            && (pc.HoldsLog() ==> LogRank(s'.procs[p].pc) < LogRank(pc))
            && (pc.HoldsPtable() ==> PtableRank(s'.procs[p].pc) < PtableRank(pc))
  {
    hide Next, Inv;
    assert step.Run?;
    StepRanks(s, step);
  }

  lemma {:induction false} LogSteps(states: seq<State>, steps: seq<Step>, p: nat)
    requires IsPath(states, steps) && Inv(states[0]) && p < |states[0].procs|
    requires forall i :: 0 <= i < |steps| ==> p < |states[i].procs| && states[i].procs[p].pc.HoldsLog()
    ensures p < |states[|steps|].procs|
    ensures OwnSteps(steps, p) + LogRank(states[|steps|].procs[p].pc) <= LogRank(states[0].procs[p].pc)
  {
    hide Inv, Enabled, Next, IsPath;
    if steps != [] {
      var n := |steps| - 1;
      PathPrefix(states, steps);
      LogSteps(states[..n + 1], steps[..n], p);
      PathInv(states[..n + 1], steps[..n]);
      if Own(steps[n], p) {
        HolderStep(states[n], steps[n], p);
      } else {
        OthersStep(states[n], steps[n], p);
      }
    }
  }

  /** From any state a run reaches: while a process has log.lock, it takes five steps at most. */
  lemma LogGivenUp(states: seq<State>, steps: seq<Step>, p: nat, size: nat, nproc: nat)
    requires IsPath(states, steps) && Reachable(states[0], size, nproc) && p < |states[0].procs|
    requires forall i :: 0 <= i < |steps| ==> p < |states[i].procs| && states[i].procs[p].pc.HoldsLog()
    ensures OwnSteps(steps, p) <= 5
    ensures OwnSteps(steps, p) == 5 ==> p < |states[|steps|].procs| && !states[|steps|].procs[p].pc.HoldsLog() && states[|steps|].logLock != Held(p)
  {
    ReachableInv(states[0], size, nproc);
    hide IsPath;
    LogSteps(states, steps, p);
    PathInv(states, steps);
  }

  lemma {:induction false} PtableSteps(states: seq<State>, steps: seq<Step>, p: nat)
    requires IsPath(states, steps) && Inv(states[0]) && p < |states[0].procs|
    requires forall i :: 0 <= i < |steps| ==> p < |states[i].procs| && states[i].procs[p].pc.HoldsPtable()
    ensures p < |states[|steps|].procs|
    ensures OwnSteps(steps, p) + PtableRank(states[|steps|].procs[p].pc) <= PtableRank(states[0].procs[p].pc)
  {
    hide Inv, Enabled, Next, IsPath;
    if steps != [] {
      var n := |steps| - 1;
      PathPrefix(states, steps);
      PtableSteps(states[..n + 1], steps[..n], p);
      PathInv(states[..n + 1], steps[..n]);
      if Own(steps[n], p) {
        HolderStep(states[n], steps[n], p);
      } else {
        OthersStep(states[n], steps[n], p);
      }
    }
  }

  /** Likewise, while a process has ptable.lock, it takes three steps at most. */
  lemma PtableGivenUp(states: seq<State>, steps: seq<Step>, p: nat, size: nat, nproc: nat)
    requires IsPath(states, steps) && Reachable(states[0], size, nproc) && p < |states[0].procs|
    requires forall i :: 0 <= i < |steps| ==> p < |states[i].procs| && states[i].procs[p].pc.HoldsPtable()
    ensures OwnSteps(steps, p) <= 3
    ensures OwnSteps(steps, p) == 3 ==> p < |states[|steps|].procs| && !states[|steps|].procs[p].pc.HoldsPtable() && states[|steps|].ptableLock != Held(p)
  {
    ReachableInv(states[0], size, nproc);
    hide IsPath;
    PtableSteps(states, steps, p);
    PathInv(states, steps);
  }

  // ---------------------------------------------------------------- waiting means sleeping

  /** Where a process that finds no room stands after k steps of its own: it gets ptable.lock, gives up log.lock, and sleeps. */
  function WaitPath(k: nat): Pc
    requires k <= 5
  {
    [BeginTest, SleepAcquire, SleepRelease, SleepMark, SleepSwitch, Asleep][k]
  }

  /** Where p stands after k steps of its own since the test; until the fifth nobody can wake it. */
  ghost predicate Waits(s: State, p: nat, k: nat) {
    && p < |s.procs| && 1 <= k <= 5 && s.procs[p].pc == WaitPath(k)
    && (k == 4 ==> s.procs[p].sleeping)
  }

  lemma WaitsStep(s: State, step: Step, p: nat, k: nat)
    requires Inv(s) && Enabled(s, step) && Waits(s, p, k) && (k == 5 ==> !Own(step, p))
    ensures Waits(Next(s, step), p, if Own(step, p) then k + 1 else k)
    ensures Own(step, p) && k == 4 ==> Next(s, step).procs[p].sleeping
  {
    hide Rest;
    if Own(step, p) {
      assert step.Run?;
    } else {
      OthersStep(s, step, p);
      hide DoBody;
      if step.Run? && s.procs[step.p].pc.Act() == Body {
        BodyFrame(s, step.p);
      }
    }
  }

  lemma BodyFrame(s: State, p: nat)
    requires Inv(s) && Enabled(s, Run(p)) && s.procs[p].pc.Act() == Body
    ensures var s' := DoBody(s, p);
            |s'.procs| == |s.procs| && forall q :: 0 <= q < |s.procs| && q != p && !s.procs[p].pc.WakeMark? ==> s'.procs[q] == s.procs[q]
  {
    hide Rest, Locks;
    BodyRanks(s, p);
  }

  lemma {:induction false} WaitSteps(states: seq<State>, steps: seq<Step>, p: nat)
    requires IsPath(states, steps) && steps != [] && Inv(states[0]) && p < |states[0].procs|
    requires states[0].procs[p].pc == BeginTest && MustWait(states[0]) && steps[0] == Run(p) && OwnSteps(steps, p) <= 5
    ensures Waits(states[|steps|], p, OwnSteps(steps, p))
    ensures OwnSteps(steps, p) == 5 && steps[|steps| - 1] == Run(p) ==> states[|steps|].procs[p].sleeping
  {
    hide Inv, Enabled, Next, IsPath, WaitPath;
    var n := |steps| - 1;
    PathPrefix(states, steps);
    if n == 0 {
      assert OwnSteps(steps[..0], p) == 0 && OwnSteps(steps, p) == 1;
      FirstWait(states[0], p);
    } else {
      assert steps[..n][0] == steps[0];
      WaitSteps(states[..n + 1], steps[..n], p);
      PathInv(states[..n + 1], steps[..n]);
      WaitsStep(states[n], steps[n], p, OwnSteps(steps[..n], p));
    }
  }

  lemma FirstWait(s: State, p: nat)
    requires Enabled(s, Run(p)) && s.procs[p].pc == BeginTest && MustWait(s)
    ensures Waits(Next(s, Run(p)), p, 1)
  {
  }

  /**
   * A process whose test in begin_op finds no room stands, after each step of its own, where the code of sleep puts it:
   * after three it has given up log.lock, and with its fifth it is off the CPU, asleep, with no lock.
   */
  lemma WaiterSleeps(states: seq<State>, steps: seq<Step>, p: nat, size: nat, nproc: nat)
    requires IsPath(states, steps) && steps != [] && Reachable(states[0], size, nproc) && p < |states[0].procs|
    requires states[0].procs[p].pc == BeginTest && MustWait(states[0]) && steps[0] == Run(p)
    requires 1 <= OwnSteps(steps, p) <= 5
    ensures var s, k := states[|steps|], OwnSteps(steps, p);
            && p < |s.procs| && s.procs[p].pc == WaitPath(k)
            && (k >= 3 ==> s.logLock != Held(p)) && (k == 5 ==> s.ptableLock != Held(p))
            && (k == 5 && steps[|steps| - 1] == Run(p) ==> s.procs[p].sleeping)
  {
    ReachableInv(states[0], size, nproc);
    hide IsPath;
    WaitSteps(states, steps, p);
    PathInv(states, steps);
  }

  /** With room, its next two steps take it into its operation, with log.lock released. */
  lemma StarterStarts(s: State, p: nat, size: nat, nproc: nat)
    requires Reachable(s, size, nproc) && s.halt == Running && p < |s.procs| && s.procs[p].pc == BeginTest && !MustWait(s)
    ensures Enabled(s, Run(p)) && var s1 := Next(s, Run(p));
            && s1.outstanding == s.outstanding + 1
            && Enabled(s1, Run(p)) && var s2 := Next(s1, Run(p));
            && p < |s2.procs| && s2.procs[p].pc == InOp && s2.procs[p].budget == MAXOPBLOCKS && s2.logLock == Free
            && s2.outstanding == s.outstanding + 1 && s2.blocks == s.blocks
  {
  }

  // ---------------------------------------------------------------- all operations end

  /** Still to wake the sleepers before its operation ends. */
  predicate WillWakeLater(pc: Pc) {
    !pc.Idle? && !pc.EndLeave? && !pc.WakeRelease?
  }

  function Wakers(procs: seq<Proc>): (n: nat)
    ensures n <= |procs|
  {
    if procs == [] then 0 else Wakers(procs[..|procs| - 1]) + if WillWakeLater(procs[|procs| - 1].pc) then 1 else 0
  }

  function AllLeft(procs: seq<Proc>): (n: nat)
    ensures n <= 25 * |procs|
  {
    if procs == [] then 0 else AllLeft(procs[..|procs| - 1]) + Left(procs[|procs| - 1])
  }

  function StepBound(nproc: nat): nat {
    nproc * (25 * nproc + 1) + 25 * nproc
  }

  /** How many steps all processes together take at most until their operations have ended, if they log no more. */
  function Potential(procs: seq<Proc>): (n: nat)
    ensures n <= StepBound(|procs|)
  {
    MulBound(Wakers(procs), |procs|, 25 * |procs| + 1);
    Wakers(procs) * (25 * |procs| + 1) + AllLeft(procs)
  }

  lemma MulBound(a: nat, b: nat, c: nat)
    requires a <= b
    ensures a * c <= b * c
  {
  }

  lemma {:induction false} MovedPotential(procs: seq<Proc>, p: nat, x: Proc)
    requires p < |procs|
    ensures Wakers(procs[p := x]) == Wakers(procs) - (if WillWakeLater(procs[p].pc) then 1 else 0) + (if WillWakeLater(x.pc) then 1 else 0)
    ensures AllLeft(procs[p := x]) == AllLeft(procs) - Left(procs[p]) + Left(x)
  {
    var n := |procs| - 1;
    if p < n {
      MovedPotential(procs[..n], p, x);
      assert procs[p := x][..n] == procs[..n][p := x];
    } else {
      assert procs[p := x][..n] == procs[..n];
    }
  }

  lemma {:induction false} SamePcs(procs: seq<Proc>, procs': seq<Proc>)
    requires |procs'| == |procs| && forall i :: 0 <= i < |procs| ==> procs'[i].pc == procs[i].pc
    ensures Wakers(procs') == Wakers(procs)
  {
    if procs != [] {
      SamePcs(procs[..|procs| - 1], procs'[..|procs| - 1]);
    }
  }

  lemma WakesNoMore(s: State, step: Step)
    requires Inv(s) && Enabled(s, step) && Ending(step)
    ensures var s' := Next(s, step); |s'.procs| == |s.procs| && step.p < |s.procs|
    ensures var was, now := s.procs[step.p].pc, Next(s, step).procs[step.p].pc;
            WillWakeLater(now) <==> WillWakeLater(was) && !was.WakeMark?
  {
    hide Inv, DoBody;
    if step.Run? && s.procs[step.p].pc.Act() == Body {
      BodyWakes(s, step.p);
    }
  }

  lemma BodyWakes(s: State, p: nat)
    requires Inv(s) && Enabled(s, Run(p)) && s.procs[p].pc.Act() == Body
    ensures var s' := DoBody(s, p); |s'.procs| == |s.procs|
    ensures WillWakeLater(DoBody(s, p).procs[p].pc) <==> !s.procs[p].pc.WakeMark?
  {
    hide Rest, Locks;
    if s.procs[p].pc.EndCount? {
      FinishOpAlone(s, p);
    }
  }

  /** Every such step lowers the bound: the step that wakes sleepers counts for all they may do before they sleep again. */
  lemma PotentialLowers(s: State, step: Step)
    requires Inv(s) && Enabled(s, step) && Ending(step)
    ensures Potential(Next(s, step).procs) < Potential(s.procs)
  {
    hide Inv, Next, Enabled, Left, Wakers, AllLeft;
    var p, s' := step.p, Next(s, step);
    StepRanks(s, step);
    WakesNoMore(s, step);
    var flat := s.procs[p := s'.procs[p]];
    MovedPotential(s.procs, p, s'.procs[p]);
    SamePcs(flat, s'.procs);
    var c := 25 * |s.procs| + 1;
    if s.procs[p].pc.WakeMark? {
      assert Wakers(s'.procs) == Wakers(s.procs) - 1;
      assert Wakers(s'.procs) * c == Wakers(s.procs) * c - c;
    } else {
      assert flat == s'.procs;
      MulBound(Wakers(s'.procs), Wakers(s.procs), c);
    }
  }

  /** While some process is inside the log and nobody else has ptable.lock, one inside it can take a step that brings it on. */
  ghost predicate CanGoOn(s: State, step: Step) {
    && Ending(step) && Enabled(s, step) && s.procs[step.p].pc != Idle
    && var s' := Next(s, step); step.p < |s'.procs| && Left(s'.procs[step.p]) < Left(s.procs[step.p])
  }

  /** The system is never stuck: while some process is inside the log, one inside it can go on, and comes nearer to its end. */
  lemma Progress(states: seq<State>, size: nat, nproc: nat, p: nat)
    requires IsRun(states, size, nproc)
    requires var s := states[|states| - 1];
             s.halt == Running && s.ptableLock != HeldOutside && p < |s.procs| && s.procs[p].pc != Idle
    ensures var s := states[|states| - 1]; exists step :: CanGoOn(s, step)
  {
    RunInv(states, size, nproc);
    hide IsRun;
    GoesOn(states[|states| - 1], p);
  }

  lemma GoesOn(s: State, p: nat)
    requires Inv(s) && s.halt == Running && s.ptableLock != HeldOutside && p < |s.procs| && s.procs[p].pc != Idle
    ensures exists step :: CanGoOn(s, step)
  {
    var step: Step;
    if s.ptableLock.Held? || s.logLock.Held? {
      step := HolderGoesOn(s);
    } else if exists q :: 0 <= q < |s.procs| && s.procs[q].pc != Idle && s.procs[q].pc != InOp && !s.procs[q].sleeping {
      var q :| 0 <= q < |s.procs| && s.procs[q].pc != Idle && s.procs[q].pc != InOp && !s.procs[q].sleeping;
      assert WriteFits(s.procs[q], s.blocks);
      step := Run(q);
    } else if s.procs[p].pc == InOp {
      step := End(p);
    } else {
      step := SleeperMeansOp(s, p);
    }
    StepRanks(s, step);
    assert CanGoOn(s, step);
  }

  lemma HolderGoesOn(s: State) returns (step: Step)
    requires Inv(s) && s.halt == Running && s.ptableLock != HeldOutside && (s.ptableLock.Held? || s.logLock.Held?)
    ensures Ending(step) && Enabled(s, step) && s.procs[step.p].pc != Idle
  {
    hide Whole, Reserved, Alone;
    var q := if s.ptableLock.Held? then s.ptableLock.pid else s.logLock.pid;
    assert if s.ptableLock.Held? then s.procs[q].pc.HoldsPtable() else s.procs[q].pc.HoldsLog();
    assert WriteFits(s.procs[q], s.blocks);
    step := Run(q);
  }

  lemma SleeperMeansOp(s: State, p: nat) returns (step: Step)
    requires Inv(s) && s.halt == Running && s.ptableLock == Free && s.logLock == Free
    requires p < |s.procs| && s.procs[p].sleeping
    requires forall q :: 0 <= q < |s.procs| ==> s.procs[q].pc == Idle || s.procs[q].pc == InOp || s.procs[q].sleeping
    ensures Ending(step) && Enabled(s, step) && s.procs[step.p].pc != Idle
  {
    hide Whole;
    CountBounds(s.procs);
    assert !WakePending(s);
    assert !s.committing;
    var q :| 0 <= q < |s.procs| && s.procs[q].pc.Counted();
    step := End(q);
  }

  lemma {:induction false} EndingSteps(states: seq<State>, steps: seq<Step>)
    requires IsPath(states, steps) && Inv(states[0])
    requires states[0].halt == Running && states[0].ptableLock != HeldOutside
    requires forall i :: 0 <= i < |steps| ==> Ending(steps[i])
    ensures |steps| + Potential(states[|steps|].procs) <= Potential(states[0].procs)
    ensures states[|steps|].halt == Running && states[|steps|].ptableLock != HeldOutside
  {
    hide Inv, Enabled, Next, IsPath, Potential;
    if steps != [] {
      var n := |steps| - 1;
      PathPrefix(states, steps);
      EndingSteps(states[..n + 1], steps[..n]);
      PathInv(states[..n + 1], steps[..n]);
      PotentialLowers(states[n], steps[n]);
      StepRanks(states[n], steps[n]);
      NotOutside(states[n], steps[n]);
    }
  }

  lemma NotOutside(s: State, step: Step)
    requires Enabled(s, step) && Ending(step) && s.ptableLock != HeldOutside
    ensures Next(s, step).ptableLock != HeldOutside
  {
  }

  /**
   * From any state a run reaches, with operations that log no more: however the processes are scheduled, they take a bounded
   * number of steps, and when none can take another, every operation has ended and all that was logged is committed.
   */
  lemma AllEnd(states: seq<State>, steps: seq<Step>, size: nat, nproc: nat)
    requires IsPath(states, steps) && Reachable(states[0], size, nproc)
    requires states[0].halt == Running && states[0].ptableLock != HeldOutside
    requires forall i :: 0 <= i < |steps| ==> Ending(steps[i])
    ensures |steps| <= StepBound(nproc)
    ensures var s := states[|steps|];
            (forall step :: Ending(step) ==> !Enabled(s, step)) ==>
              && (forall p :: 0 <= p < |s.procs| ==> s.procs[p].pc == Idle)
              && s.blocks == [] && s.outstanding == 0 && !s.committing && s.logLock == Free && s.ptableLock == Free
  {
    ReachableInv(states[0], size, nproc);
    hide IsPath, Potential, Enabled, Next, Inv, Reachable, StepBound;
    EndingSteps(states, steps);
    PathInv(states, steps);
    var s := states[|steps|];
    if forall step :: Ending(step) ==> !Enabled(s, step) {
      StuckIsIdle(s);
      AllIdle(s);
    }
  }

  lemma StuckIsIdle(s: State)
    requires Inv(s) && s.halt == Running && s.ptableLock != HeldOutside
    requires forall step :: Ending(step) ==> !Enabled(s, step)
    ensures forall p :: 0 <= p < |s.procs| ==> s.procs[p].pc == Idle
  {
    hide Inv, Enabled, Next;
    forall p | 0 <= p < |s.procs|
      ensures s.procs[p].pc == Idle
    {
      if s.procs[p].pc != Idle {
        GoesOn(s, p);
        assert false;
      }
    }
  }

  lemma AllIdle(s: State)
    requires Inv(s) && s.halt == Running && s.ptableLock != HeldOutside && forall p :: 0 <= p < |s.procs| ==> s.procs[p].pc == Idle
    ensures s.blocks == [] && s.outstanding == 0 && !s.committing && s.logLock == Free && s.ptableLock == Free
  {
    CountBounds(s.procs);
  }

  // ---------------------------------------------------------------- the test of begin_op

  function Total(budgets: seq<nat>): nat {
    if budgets == [] then 0 else Total(budgets[..|budgets| - 1]) + budgets[|budgets| - 1]
  }

  ghost predicate Budgeted(budgets: seq<nat>) {
    forall i :: 0 <= i < |budgets| ==> budgets[i] <= MAXOPBLOCKS
  }

  lemma {:induction false} TotalBound(budgets: seq<nat>)
    requires Budgeted(budgets)
    ensures Total(budgets) <= MAXOPBLOCKS * |budgets|
  {
    if budgets != [] {
      TotalBound(budgets[..|budgets| - 1]);
    }
  }

  lemma {:induction false} FullTotal(n: nat)
    ensures Total(seq(n, _ => MAXOPBLOCKS)) == MAXOPBLOCKS * n
  {
    if n > 0 {
      FullTotal(n - 1);
      assert seq(n, _ => MAXOPBLOCKS)[..n - 1] == seq(n - 1, _ => MAXOPBLOCKS);
    }
  }

  /**
   * begin_op refuses just when, by what it knows, it must: a commit runs, or the operations that run and this one may
   * add blocks, each no more than it is allowed to, that do not go into the log with those there.
   */
  lemma RoomExact(committing: bool, n: nat, outstanding: nat)
    ensures NoRoom(committing, n, outstanding) <==>
            committing || exists budgets :: |budgets| == outstanding + 1 && Budgeted(budgets) && n + Total(budgets) > LOGSIZE
  {
    var full := seq(outstanding + 1, _ => MAXOPBLOCKS);
    FullTotal(outstanding + 1);
    forall budgets | |budgets| == outstanding + 1 && Budgeted(budgets)
      ensures Total(budgets) <= MAXOPBLOCKS * (outstanding + 1)
    {
      TotalBound(budgets);
    }
    if NoRoom(false, n, outstanding) {
      assert |full| == outstanding + 1 && Budgeted(full) && n + Total(full) > LOGSIZE;
    }
  }
}

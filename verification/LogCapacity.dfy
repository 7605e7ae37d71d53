/** When what the operations log fits the log on the disk: log_write tests for room before it takes log.lock. */
module LogCapacity {
  import opened Blocks
  import opened RedoSpec
  import opened GroupCommit

  ghost predicate Reachable(s: State, size: nat, nproc: nat) {
    exists states :: IsRun(states, size, nproc) && states[|states| - 1] == s
  }

  lemma StartReachable(size: nat, nproc: nat)
    ensures Reachable(Start(size, nproc), size, nproc)
  {
    var states := [Start(size, nproc)];
    assert IsRun(states, size, nproc) && states[|states| - 1] == Start(size, nproc);
  }

  lemma StepReachable(s: State, step: Step, size: nat, nproc: nat)
    requires Reachable(s, size, nproc) && Enabled(s, step)
    ensures Reachable(Next(s, step), size, nproc)
  {
    hide Next;
    var states: seq<State> :| IsRun(states, size, nproc) && states[|states| - 1] == s;
    var more := states + [Next(s, step)];
    forall i | 0 <= i < |more| - 1
      ensures Follows(more[i], more[i + 1])
    {
      if i < |states| - 1 {
        assert more[i] == states[i] && more[i + 1] == states[i + 1] && Follows(states[i], states[i + 1]);
      } else {
        assert more[i] == s && more[i + 1] == Next(s, step);
      }
    }
    assert IsRun(more, size, nproc) && more[|more| - 1] == Next(s, step);
  }

  // ---------------------------------------------------------------- when the log cannot overflow

  /** No two callers of log_write can pass its test for room with room for one. */
  predicate Spacious(size: nat, nproc: nat) {
    size > LOGSIZE || nproc <= 1 || size == 1
  }

  /** Every transaction fits the log; in the log too short for the reservation, whoever has passed the test has room. */
  ghost predicate Fits(s: State) {
    && Short(s.blocks, s.size) && (forall t :: 0 <= t < |s.committed| ==> Short(s.committed[t], s.size))
    && (s.size <= LOGSIZE ==> forall p :: 0 <= p < |s.procs| ==> HasRoom(s, s.procs[p]))
  }

  /** A transaction with room in a log of this size, header included, and no block twice. */
  predicate Short(blocks: seq<nat>, size: nat) {
    && |blocks| < size && |blocks| <= LOGSIZE
    && forall i, j :: 0 <= i < j < |blocks| ==> blocks[i] != blocks[j]
  }

  predicate HasRoom(s: State, proc: Proc) {
    proc.pc.WriteAcquire? || proc.pc.WriteRecord? ==> |s.blocks| < s.size - 1
  }

  /** What a step may do to the transactions. */
  ghost predicate Advances(s: State, s': State, step: Step) {
    || (s'.blocks == s.blocks && s'.committed == s.committed)
    || (s'.blocks == [] && s'.committed == s.committed + [s.blocks])
    || (step.Run? && step.p < |s.procs| && s.procs[step.p].pc.WriteRecord? && |s'.blocks| == |s.blocks| + 1 && s'.committed == s.committed)
  }

  lemma StepFrame(s: State, step: Step)
    requires Enabled(s, step)
    ensures var s' := Next(s, step); s'.size == s.size && |s'.procs| == |s.procs| && Advances(s, s', step)
    ensures var s' := Next(s, step); forall q :: 0 <= q < |s.procs| && (step.Outside? || q != step.p) ==> s'.procs[q].pc == s.procs[q].pc
  {
  }

  lemma StepRoom(s: State, step: Step)
    requires Enabled(s, step) && !step.Outside?
    requires HasRoom(s, s.procs[step.p])
    ensures HasRoom(Next(s, step), Next(s, step).procs[step.p])
  {
    hide DoBody;
    if step.Run? && s.procs[step.p].pc.Act() == Body {
      BodyLeaves(s, step.p);
    }
  }

  lemma BodyLeaves(s: State, p: nat)
    requires Enabled(s, Run(p)) && s.procs[p].pc.Act() == Body
    ensures var s' := DoBody(s, p); p < |s'.procs| && !s'.procs[p].pc.WriteAcquire? && !s'.procs[p].pc.WriteRecord?
  {
  }

  lemma FitsNext(s: State, step: Step)
    requires Enabled(s, step) && Fits(s) && Spacious(s.size, |s.procs|) && Short(Next(s, step).blocks, LOGSIZE + 1)
    ensures Fits(Next(s, step)) && Next(s, step).size == s.size && |Next(s, step).procs| == |s.procs|
  {
    StepFrame(s, step);
    if s.size <= LOGSIZE && !step.Outside? {
      assert HasRoom(s, s.procs[step.p]);
      StepRoom(s, step);
    }
    hide Next, Enabled;
    var s' := Next(s, step);
    forall p | 0 <= p < |s.procs| && s.size <= LOGSIZE
      ensures HasRoom(s', s'.procs[p])
    {
      assert HasRoom(s, s.procs[p]);
    }
  }

  lemma {:induction false} RunFits(states: seq<State>, size: nat, nproc: nat)
    requires IsRun(states, size, nproc) && size > 0 && Spacious(size, nproc)
    ensures var s := states[|states| - 1]; Fits(s) && s.size == size && |s.procs| == nproc
  {
    hide Inv, Next, Enabled;
    var n := |states| - 1;
    if n > 0 {
      assert states[..n][n - 1] == states[n - 1] && Follows(states[n - 1], states[n - 1 + 1]);
      assert forall i :: 0 <= i < n ==> states[..n][i] == states[i];
      RunFits(states[..n], size, nproc);
      RunInv(states[..n], size, nproc);
      var step :| Enabled(states[n - 1], step) && states[n] == Next(states[n - 1], step);
      InvNext(states[n - 1], step);
      InvShort(states[n]);
      FitsNext(states[n - 1], step);
    }
  }

  lemma InvShort(s: State)
    requires Inv(s)
    ensures Short(s.blocks, LOGSIZE + 1)
  {
  }

  /** In any log a committed transaction keeps the reservation, with no block twice. */
  lemma {:induction false} RunReserved(states: seq<State>, size: nat, nproc: nat)
    requires IsRun(states, size, nproc)
    ensures var s := states[|states| - 1];
            Short(s.blocks, LOGSIZE + 1) && forall t :: 0 <= t < |s.committed| ==> Short(s.committed[t], LOGSIZE + 1)
  {
    hide Inv, Next, Enabled;
    var n := |states| - 1;
    RunInv(states, size, nproc);
    InvShort(states[n]);
    if n > 0 {
      assert states[..n][n - 1] == states[n - 1] && Follows(states[n - 1], states[n - 1 + 1]);
      assert forall i :: 0 <= i < n ==> states[..n][i] == states[i];
      RunReserved(states[..n], size, nproc);
      var step :| Enabled(states[n - 1], step) && states[n] == Next(states[n - 1], step);
      StepFrame(states[n - 1], step);
    }
  }

  // ---------------------------------------------------------------- when it does

  function Upto(n: nat): (s: seq<nat>)
    ensures |s| == n
  {
    seq(n, i => i)
  }

  /** Processes 0 and 1 are in operations that may add b0 and b1 blocks; n blocks are logged; no lock is held. */
  ghost predicate Two(s: State, size: nat, n: nat, b0: nat, b1: nat) {
    && s.halt == Running && s.logLock == Free && s.ptableLock == Free && s.size == size && !s.committing
    && s.outstanding == 2 && s.blocks == Upto(n) && |s.procs| >= 2
    && s.procs[0].pc == InOp && s.procs[0].budget == b0 && s.procs[1].pc == InOp && s.procs[1].budget == b1
  }

  lemma LockStep(s: State, p: nat)
    requires s.halt == Running && p < |s.procs|
    requires var act := s.procs[p].pc.Act();
             || (act == TakeLog && s.logLock == Free) || (act == DropLog && s.procs[p].pc != Asleep)
    ensures Enabled(s, Run(p))
    ensures Next(s, Run(p)) == At(s.(logLock := if s.procs[p].pc.Act() == TakeLog then Held(p) else Free), p, s.procs[p].pc.Follow())
  {
  }

  lemma RecordStep(s: State, p: nat, bn: nat)
    requires s.halt == Running && p < |s.procs| && s.procs[p].pc == WriteRecord(bn) && bn !in s.blocks && s.procs[p].budget > 0
    ensures Enabled(s, Run(p))
    ensures var s' := Next(s, Run(p));
            s' == s.(blocks := s.blocks + [bn], ops := s'.ops,
                     procs := s.procs[p := s.procs[p].(pc := WriteLeave, budget := s.procs[p].budget - 1)])
  {
  }

  /** The part of log_write under log.lock, for a block that is not logged yet. */
  lemma RecordOne(s: State, size: nat, nproc: nat, p: nat, bn: nat) returns (s': State)
    requires Reachable(s, size, nproc) && s.halt == Running && s.logLock == Free && p < |s.procs|
    requires s.procs[p].pc == WriteAcquire(bn) && bn !in s.blocks && s.procs[p].budget > 0
    ensures Reachable(s', size, nproc)
    ensures s' == s.(blocks := s.blocks + [bn], ops := s'.ops,
                     procs := s.procs[p := s.procs[p].(pc := InOp, budget := s.procs[p].budget - 1)])
  {
    hide Reachable, Next, Enabled;
    LockStep(s, p);
    StepReachable(s, Run(p), size, nproc);
    var s1 := Next(s, Run(p));
    RecordStep(s1, p, bn);
    StepReachable(s1, Run(p), size, nproc);
    var s2 := Next(s1, Run(p));
    LockStep(s2, p);
    StepReachable(s2, Run(p), size, nproc);
    s' := Next(s2, Run(p));
  }

  /** The test of log_write. */
  lemma PassTest(s: State, size: nat, nproc: nat, p: nat, bn: nat) returns (s': State)
    requires Reachable(s, size, nproc) && s.halt == Running && p < |s.procs| && s.outstanding > 0
    requires s.procs[p].pc == InOp && s.procs[p].budget > 0 && |s.blocks| < LOGSIZE && |s.blocks| + 1 < s.size
    ensures Reachable(s', size, nproc) && s' == s.(procs := s.procs[p := s.procs[p].(pc := WriteAcquire(bn))])
  {
    StepReachable(s, Write(p, bn), size, nproc);
    s' := Next(s, Write(p, bn));
  }

  /** A call of log_write with nobody in between. */
  lemma LogOne(s: State, size: nat, nproc: nat, n: nat, b0: nat, b1: nat, p: nat) returns (s': State)
    requires Reachable(s, size, nproc) && Two(s, size, n, b0, b1) && n < LOGSIZE && n + 1 < size
    requires p < 2 && (if p == 0 then b0 else b1) > 0
    ensures Reachable(s', size, nproc) && Two(s', size, n + 1, if p == 0 then b0 - 1 else b0, if p == 0 then b1 else b1 - 1)
  {
    hide Reachable;
    s' := PassTest(s, size, nproc, p, n);
    s' := RecordOne(s', size, nproc, p, n);
    assert Upto(n) + [n] == Upto(n + 1);
  }

  /** Both processes pass the test while there is room for one block, and both record theirs. */
  lemma BothLog(s: State, size: nat, nproc: nat, n: nat, b0: nat, b1: nat) returns (s': State)
    requires Reachable(s, size, nproc) && Two(s, size, n, b0, b1) && n + 2 == size <= LOGSIZE && b0 > 0 && b1 > 0
    ensures Reachable(s', size, nproc) && Two(s', size, size, b0 - 1, b1 - 1)
  {
    hide Reachable;
    s' := PassTest(s, size, nproc, 0, n);
    s' := PassTest(s', size, nproc, 1, n + 1);
    s' := RecordOne(s', size, nproc, 0, n);
    s' := RecordOne(s', size, nproc, 1, n + 1);
    assert Upto(n) + [n] + [n + 1] == Upto(n + 2);
  }

  /** begin_op with nobody in between. */
  lemma BeginOne(s: State, size: nat, nproc: nat, p: nat) returns (s': State)
    requires Reachable(s, size, nproc) && s.halt == Running && s.logLock == Free && p < |s.procs|
    requires s.procs[p].pc == Idle && !MustWait(s)
    ensures Reachable(s', size, nproc)
    ensures s' == s.(outstanding := s.outstanding + 1, ops := s'.ops,
                     procs := s.procs[p := s.procs[p].(pc := InOp, budget := MAXOPBLOCKS, op := |s.ops|)])
  {
    hide Reachable;
    StepReachable(s, Begin(p), size, nproc);
    var s1 := Next(s, Begin(p));
    StepReachable(s1, Run(p), size, nproc);
    var s2 := Next(s1, Run(p));
    StepReachable(s2, Run(p), size, nproc);
    var s3 := Next(s2, Run(p));
    assert s3.procs == s.procs[p := s.procs[p].(pc := BeginLeave, budget := MAXOPBLOCKS, op := |s.ops|)];
    StepReachable(s3, Run(p), size, nproc);
    s' := Next(s3, Run(p));
  }

  /** end_op with nobody in between, while another operation runs: no commit. */
  lemma EndOne(s: State, size: nat, nproc: nat, n: nat, b0: nat, b1: nat) returns (s': State)
    requires Reachable(s, size, nproc) && Two(s, size, n, b0, b1)
    ensures Reachable(s', size, nproc) && s'.outstanding == 1 && s'.halt == Running && s'.logLock == Free && s'.ptableLock == Free
    ensures s'.size == size && !s'.committing && s'.blocks == Upto(n) && |s'.procs| == |s.procs|
    ensures s'.procs[0].pc == InOp && s'.procs[0].budget == b0 && s'.procs[1].pc == Idle
  {
    hide Reachable;
    s' := Counted1(s, size, nproc, n, b0, b1);
    s' := Woken1(s', size, nproc);
  }

  lemma Counted1(s: State, size: nat, nproc: nat, n: nat, b0: nat, b1: nat) returns (s': State)
    requires Reachable(s, size, nproc) && Two(s, size, n, b0, b1)
    ensures Reachable(s', size, nproc)
    ensures s' == s.(logLock := Held(1), outstanding := 1, procs := s.procs[1 := s.procs[1].(pc := WakeAcquire, budget := 0)])
  {
    hide Reachable;
    StepReachable(s, End(1), size, nproc);
    var s1 := Next(s, End(1));
    StepReachable(s1, Run(1), size, nproc);
    var s2 := Next(s1, Run(1));
    StepReachable(s2, Run(1), size, nproc);
    s' := Next(s2, Run(1));
    assert s'.procs == s.procs[1 := s.procs[1].(pc := WakeAcquire, budget := 0)];
  }

  lemma Woken1(s: State, size: nat, nproc: nat) returns (s': State)
    requires Reachable(s, size, nproc) && s.halt == Running && s.logLock == Held(1) && s.ptableLock == Free
    requires |s.procs| >= 2 && s.procs[1].pc == WakeAcquire
    ensures Reachable(s', size, nproc) && s' == s.(logLock := Free, procs := s'.procs) && |s'.procs| == |s.procs|
    ensures s'.procs[1].pc == Idle && s'.procs[0] == s.procs[0].(sleeping := false)
  {
    hide Reachable;
    StepReachable(s, Run(1), size, nproc);
    var s1 := Next(s, Run(1));
    StepReachable(s1, Run(1), size, nproc);
    var s2 := Next(s1, Run(1));
    StepReachable(s2, Run(1), size, nproc);
    var s3 := Next(s2, Run(1));
    StepReachable(s3, Run(1), size, nproc);
    s' := Next(s3, Run(1));
  }

  /** Log until n blocks are logged, each process keeping one block of its budget. */
  lemma {:induction false} LogMany(s: State, size: nat, nproc: nat, k: nat, b0: nat, b1: nat, n: nat) returns (s': State)
    requires Reachable(s, size, nproc) && Two(s, size, k, b0, b1) && k <= n < LOGSIZE && n < size
    requires b0 > 0 && b1 > 0 && n - k + 2 <= b0 + b1
    ensures exists c0: nat, c1: nat :: c0 > 0 && c1 > 0 && Two(s', size, n, c0, c1)
    ensures Reachable(s', size, nproc)
    decreases n - k
  {
    hide Reachable;
    if k == n {
      s' := s;
    } else if b0 > 1 {
      s' := LogOne(s, size, nproc, k, b0, b1, 0);
      s' := LogMany(s', size, nproc, k + 1, b0 - 1, b1, n);
    } else {
      s' := LogOne(s, size, nproc, k, b0, b1, 1);
      s' := LogMany(s', size, nproc, k + 1, b0, b1 - 1, n);
    }
  }

  /** Process 1 logs until it has spent its budget. */
  lemma {:induction false} Spend(s: State, size: nat, nproc: nat, k: nat) returns (s': State)
    requires Reachable(s, size, nproc) && k <= MAXOPBLOCKS && Two(s, size, k, MAXOPBLOCKS, MAXOPBLOCKS - k) && size > MAXOPBLOCKS
    ensures Reachable(s', size, nproc) && Two(s', size, MAXOPBLOCKS, MAXOPBLOCKS, 0)
    decreases MAXOPBLOCKS - k
  {
    hide Reachable;
    if k == MAXOPBLOCKS {
      s' := s;
    } else {
      s' := LogOne(s, size, nproc, k, MAXOPBLOCKS, MAXOPBLOCKS - k, 1);
      s' := Spend(s', size, nproc, k + 1);
    }
  }

  /** Two processes can log `size` blocks, one more than the log has room for, whatever its size up to LOGSIZE. */
  lemma Overflow(size: nat, nproc: nat) returns (s: State, s': State)
    requires !Spacious(size, nproc) && size > 0
    ensures Reachable(s, size, nproc) && s.halt == Running && |s.blocks| == size
    ensures Reachable(s', size, nproc) && s'.halt == Running && s'.blocks == s.blocks && s'.size == size
    ensures |s'.procs| > 0 && s'.procs[0].pc == Committing
  {
    hide Reachable;
    s := Start(size, nproc);
    StartReachable(size, nproc);
    s := BeginOne(s, size, nproc, 0);
    s := BeginOne(s, size, nproc, 1);
    var k := 0;
    if size > 2 * MAXOPBLOCKS {
      s := Spend(s, size, nproc, 0);
      s := EndOne(s, size, nproc, MAXOPBLOCKS, MAXOPBLOCKS, 0);
      s := BeginOne(s, size, nproc, 1);
      k := MAXOPBLOCKS;
    }
    assert Two(s, size, k, MAXOPBLOCKS, MAXOPBLOCKS);
    s := LogMany(s, size, nproc, k, MAXOPBLOCKS, MAXOPBLOCKS, size - 2);
    var c0: nat, c1: nat :| c0 > 0 && c1 > 0 && Two(s, size, size - 2, c0, c1);
    s := BothLog(s, size, nproc, size - 2, c0, c1);
    s' := EndOne(s, size, nproc, size, c0 - 1, c1 - 1);
    s' := EndLast(s', size, nproc);
  }

  /** end_op of the last operation, with nobody in between: it is about to commit. */
  lemma EndLast(s: State, size: nat, nproc: nat) returns (s': State)
    requires Reachable(s, size, nproc) && s.halt == Running && s.logLock == Free && |s.procs| > 0
    requires s.procs[0].pc == InOp && s.outstanding == 1 && !s.committing
    ensures Reachable(s', size, nproc) && s'.halt == Running && s'.blocks == s.blocks && s'.size == s.size
    ensures |s'.procs| == |s.procs| && s'.procs[0].pc == Committing
  {
    hide Reachable;
    StepReachable(s, End(0), size, nproc);
    var s1 := Next(s, End(0));
    StepReachable(s1, Run(0), size, nproc);
    var s2 := Next(s1, Run(0));
    StepReachable(s2, Run(0), size, nproc);
    var s3 := Next(s2, Run(0));
    StepReachable(s3, Run(0), size, nproc);
    s' := Next(s3, Run(0));
  }

  // ---------------------------------------------------------------- the exact condition

  /** In this state some process is about to commit more blocks than the log has room for. */
  predicate CommitsTooMuch(s: State) {
    s.halt == Running && |s.blocks| >= s.size && exists p :: 0 <= p < |s.procs| && s.procs[p].pc == Committing
  }

  /** In every run what is logged leaves room for the header, just when the log is spacious. */
  lemma LogNeverOverflows(size: nat, nproc: nat)
    requires size > 0
    ensures (forall s :: Reachable(s, size, nproc) ==> |s.blocks| < size) <==> Spacious(size, nproc)
    ensures (forall s :: Reachable(s, size, nproc) ==> !CommitsTooMuch(s)) <==> Spacious(size, nproc)
  {
    if Spacious(size, nproc) {
      forall s | Reachable(s, size, nproc)
        ensures |s.blocks| < size && s.size == size
      {
        var states :| IsRun(states, size, nproc) && states[|states| - 1] == s;
        RunFits(states, size, nproc);
      }
    } else {
      var s, s' := Overflow(size, nproc);
      assert CommitsTooMuch(s');
    }
  }

  /** So with the log mkfs makes and two processes, there is a run that commits one block more than fits. */
  lemma MkfsLogOverflows()
    ensures exists s :: Reachable(s, LOGSIZE, 2) && CommitsTooMuch(s) && |s.blocks| == LOGSIZE
  {
    var s, s' := Overflow(LOGSIZE, 2);
    assert CommitsTooMuch(s');
  }

  // ---------------------------------------------------------------- what is committed can be committed

  /** Operations log blocks of the disk, which has n of them, outside the log. */
  ghost predicate LogsHomes(s: State, n: nat, r: Region) {
    && n < 0x1_0000_0000
    && forall o :: 0 <= o < |s.ops| ==> HomesOnly(s.ops[o].wrote, n, r)
  }

  ghost predicate HomesOnly(blocks: set<nat>, n: nat, r: Region) {
    forall bn: nat :: bn in blocks ==> bn < n && r.Home(bn)
  }

  /** Block numbers as the 32-bit words of the header. */
  function Numbers(blocks: seq<nat>): (b: seq<word>)
    ensures |b| == |blocks| && forall i :: 0 <= i < |blocks| && blocks[i] < 0x1_0000_0000 ==> b[i] == blocks[i]
  {
    seq(|blocks|, i requires 0 <= i < |blocks| => blocks[i] % 0x1_0000_0000)
  }

  /** In a spacious log every transaction, committed or running, can be logged and replayed; in any log one that fits. */
  lemma CommitsLoggable(states: seq<State>, size: nat, nproc: nat, image: Image, r: Region, t: nat)
    requires IsRun(states, size, nproc) && size > 0 && r.size == size && r.start + size <= |image|
    requires var s := states[|states| - 1]; LogsHomes(s, |image|, r) && t <= |s.committed|
    requires var s := states[|states| - 1]; Spacious(size, nproc) || |Txn(s.committed, s.blocks, t)| < size
    ensures var s := states[|states| - 1]; var blocks := Txn(s.committed, s.blocks, t);
            && Short(blocks, size)
            && Numbers(blocks) == blocks && Loggable(image, r, Numbers(blocks))
  {
    if Spacious(size, nproc) {
      RunFits(states, size, nproc);
    }
    RunReserved(states, size, nproc);
    RunInv(states, size, nproc);
    var s := states[|states| - 1];
    var blocks := Txn(s.committed, s.blocks, t);
    InvWhole(s);
    forall i | 0 <= i < |blocks|
      ensures blocks[i] < |image| && r.Home(blocks[i])
    {
      assert blocks[i] in blocks && WroteIn(s.ops, t, blocks[i]);
      HomeOf(s, |image|, r, t, blocks[i]);
    }
  }

  /** Whatever others did since its tests, a process that records a block has a place for it in the header. */
  lemma RecordHasPlace(states: seq<State>, size: nat, nproc: nat, p: nat)
    requires IsRun(states, size, nproc)
    requires var s := states[|states| - 1]; p < |s.procs| && s.procs[p].pc.WriteRecord?
    ensures var s := states[|states| - 1]; |s.blocks| < LOGSIZE || s.procs[p].pc.bn in s.blocks
  {
    hide Whole, Sleepers, Alone;
    RunInv(states, size, nproc);
    var s := states[|states| - 1];
    assert WriteFits(s.procs[p], s.blocks);
    Update(s.procs, p, s.procs[p].(budget := 0));
  }

  lemma HomeOf(s: State, n: nat, r: Region, t: nat, bn: nat)
    requires LogsHomes(s, n, r) && WroteIn(s.ops, t, bn)
    ensures bn < n && r.Home(bn)
  {
    var o :| 0 <= o < |s.ops| && s.ops[o].txn == t && bn in s.ops[o].wrote;
    assert HomesOnly(s.ops[o].wrote, n, r);
  }

  lemma InvWhole(s: State)
    requires Inv(s)
    ensures Whole(s.ops, s.committed, s.blocks)
  {
  }
}

/** Every interleaving of begin_op, log_write and end_op, with the sleep and wakeup they do. */
module GroupCommit {
  import opened RedoSpec

  /** Where a process is; the comment says which locks it holds and what it does next. */
  datatype Pc =
    | Idle                 // outside the log
    | BeginAcquire         // begin_op: acquire log.lock
    | BeginTest            // log.lock: start the operation, or wait
    | BeginLeave           // log.lock: release it
    | SleepAcquire         // log.lock: sleep acquires ptable.lock
    | SleepRelease         // log.lock, ptable.lock: release log.lock
    | SleepMark            // ptable.lock: become SLEEPING
    | SleepSwitch          // ptable.lock: leave the CPU; the scheduler releases ptable.lock
    | Asleep               // none: off the CPU; once RUNNABLE the scheduler acquires ptable.lock for it
    | Resumed              // ptable.lock: release it
    | InOp                 // between begin_op and end_op
    | WriteAcquire(bn: nat)  // log_write: acquire log.lock
    | WriteRecord(bn: nat)   // log.lock: record the block
    | WriteLeave           // log.lock: release it
    | EndAcquire           // end_op: acquire log.lock
    | EndCount             // log.lock: count down, and decide who commits
    | WakeAcquire          // log.lock: wakeup acquires ptable.lock
    | WakeMark             // log.lock, ptable.lock: make all sleepers RUNNABLE
    | WakeRelease          // log.lock, ptable.lock: release ptable.lock
    | EndLeave             // log.lock: release it
    | CommitLeave          // log.lock: release it, to commit without locks
    | Committing           // none: commit
    | CommitAcquire        // none: acquire log.lock
    | CommitDone           // log.lock: clear `committing`
  {
    /** The lock operation to do next, or Body for anything else. */
    function Act(): Act {
      match this
      case BeginAcquire => TakeLog
      case WriteAcquire(_) => TakeLog
      case EndAcquire => TakeLog
      case CommitAcquire => TakeLog
      case BeginLeave => DropLog
      case SleepRelease => DropLog
      case WriteLeave => DropLog
      case EndLeave => DropLog
      case CommitLeave => DropLog
      case SleepAcquire => TakePtable
      case Asleep => TakePtable
      case WakeAcquire => TakePtable
      case SleepSwitch => DropPtable
      case Resumed => DropPtable
      case WakeRelease => DropPtable
      case _ => Body
    }

    /** Where a lock operation leads. */
    function Follow(): Pc {
      match this
      case BeginAcquire => BeginTest
      case BeginLeave => InOp
      case SleepAcquire => SleepRelease
      case SleepRelease => SleepMark
      case SleepSwitch => Asleep
      case Asleep => Resumed
      case Resumed => BeginAcquire
      case WriteAcquire(bn) => WriteRecord(bn)
      case WriteLeave => InOp
      case EndAcquire => EndCount
      case WakeAcquire => WakeMark
      case WakeRelease => EndLeave
      case EndLeave => Idle
      case CommitLeave => Committing
      case CommitAcquire => CommitDone
      case _ => this
    }

    predicate HoldsLog() {
      BeginTest? || BeginLeave? || SleepAcquire? || SleepRelease? || WriteRecord? || WriteLeave? || EndCount?
      || WakeAcquire? || WakeMark? || WakeRelease? || EndLeave? || CommitLeave? || CommitDone?
    }

    predicate HoldsPtable() {
      SleepRelease? || SleepMark? || SleepSwitch? || Resumed? || WakeMark? || WakeRelease?
    }

    /** Counted in log.outstanding. */
    predicate Counted() {
      BeginLeave? || InOp? || WriteAcquire? || WriteRecord? || WriteLeave? || EndAcquire? || EndCount?
    }

    predicate Commits() {
      CommitLeave? || Committing? || CommitAcquire? || CommitDone?
    }

    /** In wakeup, with the sleepers still to be woken. */
    predicate WillWake() {
      WakeAcquire? || WakeMark?
    }
  }

  datatype Act = TakeLog | DropLog | TakePtable | DropPtable | Body

  datatype Lock = Free | Held(pid: nat) | HeldOutside

  /** `budget` is what is left of the blocks an operation may add; `op` names the operation. */
  datatype Proc = Proc(pc: Pc, sleeping: bool, budget: nat, op: nat)

  /** An operation, the transaction it belongs to and the blocks it logged. */
  datatype Op = Op(txn: nat, wrote: set<nat>)

  datatype Halt = Running | PanicTooBig | PanicOutside | PanicCommitting

  datatype State = State(
    logLock: Lock,
    ptableLock: Lock,
    size: nat,
    blocks: seq<nat>,
    outstanding: int,
    committing: bool,
    procs: seq<Proc>,
    ops: seq<Op>,
    committed: seq<seq<nat>>,
    halt: Halt)

  datatype Step = Run(p: nat) | Begin(p: nat) | Write(p: nat, bn: nat) | End(p: nat) | Kill(p: nat) | Outside

  /** begin_op has to wait. */
  predicate MustWait(s: State) {
    NoRoom(s.committing, |s.blocks|, s.outstanding)
  }

  predicate Enabled(s: State, step: Step) {
    && s.halt == Running
    && (step.Outside? || step.p < |s.procs|)
    && match step
       case Begin(p) => s.procs[p].pc == Idle
       // premise of the log: an operation adds at most MAXOPBLOCKS blocks
       case Write(p, bn) => s.procs[p].pc == InOp && (bn in s.blocks || s.procs[p].budget > 0)
       case End(p) => s.procs[p].pc == InOp
       case Kill(p) => s.ptableLock == Free
       case Outside => !s.ptableLock.Held?
       case Run(p) =>
         var proc := s.procs[p];
         && proc.pc != Idle && proc.pc != InOp && !(proc.pc == Asleep && proc.sleeping)
         && (proc.pc.Act() == TakeLog ==> s.logLock == Free)
         && (proc.pc.Act() == TakePtable ==> s.ptableLock == Free)
         && (proc.pc.WriteRecord? ==> proc.pc.bn in s.blocks || proc.budget > 0)
  }

  function At(s: State, p: nat, pc: Pc): State
    requires p < |s.procs|
  {
    s.(procs := s.procs[p := s.procs[p].(pc := pc)])
  }

  function WakeAll(procs: seq<Proc>): (woken: seq<Proc>)
    ensures |woken| == |procs|
    ensures forall i :: 0 <= i < |procs| ==> woken[i] == procs[i].(sleeping := false)
  {
    seq(|procs|, i requires 0 <= i < |procs| => procs[i].(sleeping := false))
  }

  function Next(s: State, step: Step): State
    requires Enabled(s, step)
  {
    match step
    case Begin(p) => At(s, p, BeginAcquire)
    case End(p) => At(s, p, EndAcquire)
    case Kill(p) => s.(procs := s.procs[p := s.procs[p].(sleeping := false)])
    case Outside => s.(ptableLock := if s.ptableLock == Free then HeldOutside else Free)
    case Write(p, bn) =>
      if |s.blocks| >= LOGSIZE || |s.blocks| >= s.size - 1 then s.(halt := PanicTooBig)
      else if s.outstanding < 1 then s.(halt := PanicOutside)
      else At(s, p, WriteAcquire(bn))
    case Run(p) =>
      var pc := s.procs[p].pc;
      match pc.Act()
      case TakeLog => At(s.(logLock := Held(p)), p, pc.Follow())
      case DropLog => At(s.(logLock := Free), p, pc.Follow())
      case TakePtable => At(s.(ptableLock := Held(p)), p, pc.Follow())
      case DropPtable => At(s.(ptableLock := Free), p, pc.Follow())
      case Body => DoBody(s, p)
  }

  function DoBody(s: State, p: nat): State
    requires Enabled(s, Run(p)) && s.procs[p].pc.Act() == Body
  {
    match s.procs[p].pc
    case BeginTest => if MustWait(s) then At(s, p, SleepAcquire) else StartOp(s, p)
    case SleepMark => s.(procs := s.procs[p := s.procs[p].(pc := SleepSwitch, sleeping := true)])
    case WriteRecord(bn) => Record(s, p, bn)
    case EndCount => FinishOp(s, p)
    case WakeMark => At(s.(procs := WakeAll(s.procs)), p, WakeRelease)
    case Committing => At(s.(committed := s.committed + [s.blocks], blocks := []), p, CommitAcquire)
    case CommitDone => At(s.(committing := false), p, WakeAcquire)
  }

  function StartOp(s: State, p: nat): State
    requires p < |s.procs|
  {
    s.(outstanding := s.outstanding + 1,
       procs := s.procs[p := s.procs[p].(pc := BeginLeave, budget := MAXOPBLOCKS, op := |s.ops|)],
       ops := s.ops + [Op(|s.committed|, {})])
  }

  /** The body of log_write: absorb the block or add it to the transaction. */
  function Record(s: State, p: nat, bn: nat): State
    requires p < |s.procs| && (bn in s.blocks || s.procs[p].budget > 0)
  {
    var proc := s.procs[p].(pc := WriteLeave);
    var s1 := if proc.op < |s.ops| then s.(ops := s.ops[proc.op := s.ops[proc.op].(wrote := s.ops[proc.op].wrote + {bn})]) else s;
    if bn in s.blocks then s1.(procs := s.procs[p := proc])
    else s1.(blocks := s.blocks + [bn], procs := s.procs[p := proc.(budget := proc.budget - 1)])
  }

  function FinishOp(s: State, p: nat): State
    requires p < |s.procs|
  {
    var s1 := s.(outstanding := s.outstanding - 1);
    if s.committing then s1.(halt := PanicCommitting)
    else if s1.outstanding == 0 then
      s1.(committing := true, procs := s.procs[p := s.procs[p].(pc := CommitLeave, budget := 0)])
    else
      s1.(procs := s.procs[p := s.procs[p].(pc := WakeAcquire, budget := 0)])
  }

  function Start(size: nat, nproc: nat): State {
    State(Free, Free, size, [], 0, false, seq(nproc, _ => Proc(Idle, false, 0, 0)), [], [], Running)
  }

  // ---------------------------------------------------------------- counting

  function Budgets(procs: seq<Proc>): nat {
    if procs == [] then 0 else Budgets(procs[..|procs| - 1]) + procs[|procs| - 1].budget
  }

  function Counted(procs: seq<Proc>): nat {
    if procs == [] then 0 else Counted(procs[..|procs| - 1]) + if procs[|procs| - 1].pc.Counted() then 1 else 0
  }

  lemma {:induction false} Update(procs: seq<Proc>, p: nat, x: Proc)
    requires p < |procs|
    ensures Budgets(procs[p := x]) == Budgets(procs) - procs[p].budget + x.budget
    ensures Counted(procs[p := x]) ==
            Counted(procs) - (if procs[p].pc.Counted() then 1 else 0) + (if x.pc.Counted() then 1 else 0)
  {
    var n := |procs| - 1;
    if p < n {
      Update(procs[..n], p, x);
      assert procs[p := x][..n] == procs[..n][p := x];
    } else {
      assert procs[p := x][..n] == procs[..n];
    }
  }

  lemma {:induction false} SameCounts(procs: seq<Proc>, procs': seq<Proc>)
    requires |procs'| == |procs|
    requires forall i :: 0 <= i < |procs| ==> procs'[i].budget == procs[i].budget && procs'[i].pc == procs[i].pc
    ensures Budgets(procs') == Budgets(procs) && Counted(procs') == Counted(procs)
  {
    if procs != [] {
      SameCounts(procs[..|procs| - 1], procs'[..|procs| - 1]);
    }
  }

  lemma {:induction false} CountBounds(procs: seq<Proc>)
    requires forall i :: 0 <= i < |procs| ==> procs[i].budget <= if procs[i].pc.Counted() then MAXOPBLOCKS else 0
    ensures Budgets(procs) <= MAXOPBLOCKS * Counted(procs)
    ensures Counted(procs) == 0 <==> forall i :: 0 <= i < |procs| ==> !procs[i].pc.Counted()
  {
    if procs != [] {
      CountBounds(procs[..|procs| - 1]);
    }
  }

  // ---------------------------------------------------------------- the invariant

  /** Each lock is held by exactly the process whose program counter says so. */
  ghost predicate Locks(s: State) {
    && s.logLock != HeldOutside
    && (s.logLock.Held? ==> s.logLock.pid < |s.procs|)
    && (s.ptableLock.Held? ==> s.ptableLock.pid < |s.procs|)
    && (forall p :: 0 <= p < |s.procs| ==>
          && (s.procs[p].pc.HoldsLog() <==> s.logLock == Held(p))
          && (s.procs[p].pc.HoldsPtable() <==> s.ptableLock == Held(p)))
  }

  /** The reservation: what is logged plus what the running operations may still add fits the log. */
  ghost predicate Reserved(s: State) {
    && |s.blocks| + Budgets(s.procs) <= LOGSIZE
    && (forall p :: 0 <= p < |s.procs| ==> s.procs[p].budget <= if s.procs[p].pc.Counted() then MAXOPBLOCKS else 0)
    && (forall i, j :: 0 <= i < j < |s.blocks| ==> s.blocks[i] != s.blocks[j])
  }

  /** Commits run alone. */
  ghost predicate Alone(s: State) {
    && s.outstanding == Counted(s.procs)
    && (forall p :: 0 <= p < |s.procs| && s.procs[p].pc.Commits() ==> s.committing)
    && (forall p, q :: 0 <= p < q < |s.procs| ==> !(s.procs[p].pc.Commits() && s.procs[q].pc.Commits()))
    && (s.committing ==> s.outstanding == 0 && exists p :: 0 <= p < |s.procs| && s.procs[p].pc.Commits())
    && (!s.committing && s.outstanding == 0 ==> s.blocks == [])
    && (forall p :: 0 <= p < |s.procs| && (s.procs[p].pc.CommitAcquire? || s.procs[p].pc.CommitDone?) ==> s.blocks == [])
  }

  /** Somebody is about to wake the sleepers. */
  ghost predicate WakePending(s: State) {
    exists q :: 0 <= q < |s.procs| && s.procs[q].pc.WillWake()
  }

  /** No wakeup is lost: who is going to sleep, or sleeps, has a reason to, or will be woken. */
  ghost predicate Sleepers(s: State) {
    forall p :: 0 <= p < |s.procs| ==>
      && (s.procs[p].sleeping ==> s.procs[p].pc == SleepSwitch || s.procs[p].pc == Asleep)
      && (s.procs[p].pc.SleepAcquire? || s.procs[p].pc.SleepRelease? ==> MustWait(s))
      && (s.procs[p].pc.SleepMark? || s.procs[p].sleeping ==> MustWait(s) || WakePending(s))
  }

  /** Transaction t: a committed one, or the running one. */
  function Txn(committed: seq<seq<nat>>, blocks: seq<nat>, t: nat): seq<nat> {
    if t < |committed| then committed[t] else blocks
  }

  ghost predicate WroteIn(ops: seq<Op>, t: nat, bn: nat) {
    exists o :: 0 <= o < |ops| && ops[o].txn == t && bn in ops[o].wrote
  }

  /** Everything an operation logs goes to the one transaction it started in, and nothing else does. */
  ghost predicate Whole(ops: seq<Op>, committed: seq<seq<nat>>, blocks: seq<nat>) {
    && (forall o :: 0 <= o < |ops| ==> ops[o].txn <= |committed|)
    && (forall o, bn :: 0 <= o < |ops| && bn in ops[o].wrote ==> bn in Txn(committed, blocks, ops[o].txn))
    && (forall t: nat, bn :: t <= |committed| && bn in Txn(committed, blocks, t) ==> WroteIn(ops, t, bn))
  }

  /** A running operation belongs to the running transaction, and what it is about to record fits its budget. */
  ghost predicate InStep(s: State) {
    && (forall p :: 0 <= p < |s.procs| && s.procs[p].pc.Counted() ==>
          s.procs[p].op < |s.ops| && s.ops[s.procs[p].op].txn == |s.committed|)
    && (forall p :: 0 <= p < |s.procs| ==> WriteFits(s.procs[p], s.blocks))
  }

  predicate WriteFits(proc: Proc, blocks: seq<nat>) {
    proc.pc.WriteAcquire? || proc.pc.WriteRecord? ==> proc.pc.bn in blocks || proc.budget > 0
  }

  ghost predicate Inv(s: State) {
    && Locks(s) && Rest(s)
  }

  /** Everything the invariant says apart from the locks. */
  ghost predicate Rest(s: State) {
    && Reserved(s) && Alone(s) && Sleepers(s) && InStep(s) && Whole(s.ops, s.committed, s.blocks)
    && (s.halt == Running || s.halt == PanicTooBig)
  }

  lemma StartInv(size: nat, nproc: nat)
    ensures Inv(Start(size, nproc))
  {
    CountBounds(Start(size, nproc).procs);
    assert Budgets(Start(size, nproc).procs) <= 0;
  }

  // ---------------------------------------------------------------- preservation

  /** How a lock changes hands when process p takes a step. */
  ghost predicate Passes(l: Lock, l': Lock, p: nat, held: bool, held': bool) {
    || (l' == l && held' == held)
    || (l == Free && l' == Held(p) && !held && held')
    || (l' == Free && held && !held')
  }

  lemma BodyLocks(s: State, p: nat)
    requires Enabled(s, Run(p)) && s.procs[p].pc.Act() == Body
    ensures var s' := DoBody(s, p);
            && s'.logLock == s.logLock && s'.ptableLock == s.ptableLock && |s'.procs| == |s.procs|
            && s'.procs[p].pc.HoldsLog() == s.procs[p].pc.HoldsLog()
            && s'.procs[p].pc.HoldsPtable() == s.procs[p].pc.HoldsPtable()
            && forall q :: 0 <= q < |s.procs| && q != p ==> s'.procs[q].pc == s.procs[q].pc
  {
  }

  lemma LocksPass(s: State, step: Step)
    requires Enabled(s, step) && !step.Outside?
    ensures var s' := Next(s, step);
            && |s'.procs| == |s.procs|
            && Passes(s.logLock, s'.logLock, step.p, s.procs[step.p].pc.HoldsLog(), s'.procs[step.p].pc.HoldsLog())
            && Passes(s.ptableLock, s'.ptableLock, step.p, s.procs[step.p].pc.HoldsPtable(), s'.procs[step.p].pc.HoldsPtable())
            && forall q :: 0 <= q < |s.procs| && q != step.p ==> s'.procs[q].pc == s.procs[q].pc
  {
    hide DoBody;
    if step.Run? && s.procs[step.p].pc.Act() == Body {
      BodyLocks(s, step.p);
    } else if step.Run? {
      LockMoves(s, step.p);
    }
  }

  lemma LockMoves(s: State, p: nat)
    requires Enabled(s, Run(p)) && s.procs[p].pc.Act() != Body
    ensures var s' := Next(s, Run(p));
            && |s'.procs| == |s.procs|
            && Passes(s.logLock, s'.logLock, p, s.procs[p].pc.HoldsLog(), s'.procs[p].pc.HoldsLog())
            && Passes(s.ptableLock, s'.ptableLock, p, s.procs[p].pc.HoldsPtable(), s'.procs[p].pc.HoldsPtable())
            && forall q :: 0 <= q < |s.procs| && q != p ==> s'.procs[q].pc == s.procs[q].pc
  {
  }

  lemma LocksNext(s: State, step: Step)
    requires Locks(s) && Enabled(s, step)
    ensures Locks(Next(s, step))
  {
    if !step.Outside? {
      hide Next;
      LocksPass(s, step);
    }
  }

  /** What an ordinary step does: process p moves on to pc, and nothing else changes but locks. */
  ghost predicate Moves(s: State, s': State, p: nat, pc: Pc) {
    && p < |s.procs|
    && s' == s.(logLock := s'.logLock, ptableLock := s'.ptableLock, procs := s.procs[p := s.procs[p].(pc := pc)])
    && var was := s.procs[p].pc;
       && pc.Counted() == was.Counted() && pc.Commits() == was.Commits()
       && (pc.CommitAcquire? || pc.CommitDone? ==> was.CommitAcquire?)
       && (pc.SleepAcquire? || pc.SleepRelease? || pc.SleepMark? ==> MustWait(s))
       && (was.WillWake() ==> pc.WillWake())
       && (s.procs[p].sleeping ==> pc == Asleep)
       && WriteFits(s'.procs[p], s.blocks)
  }

  lemma MoveReserved(s: State, s': State, p: nat, pc: Pc)
    requires Rest(s) && Moves(s, s', p, pc)
    ensures Reserved(s') && Alone(s') && InStep(s')
  {
    hide Whole, Sleepers;
    Update(s.procs, p, s'.procs[p]);
    if s.committing {
      var c :| 0 <= c < |s.procs| && s.procs[c].pc.Commits();
      assert s'.procs[c].pc.Commits();
    }
  }

  lemma MoveSleepers(s: State, s': State, p: nat, pc: Pc)
    requires Sleepers(s) && Moves(s, s', p, pc)
    ensures Sleepers(s')
  {
    if WakePending(s) {
      var q :| 0 <= q < |s.procs| && s.procs[q].pc.WillWake();
      assert s'.procs[q].pc.WillWake();
    }
  }

  /** Sleepers keep their reason while waiting gets no easier and nobody who would wake them is lost. */
  lemma KeepSleepers(s: State, s': State, p: nat)
    requires Sleepers(s) && p < |s.procs| == |s'.procs|
    requires MustWait(s) ==> MustWait(s') || s'.procs[p].pc.WillWake()
    requires s.procs[p].pc.WillWake() ==> s'.procs[p].pc.WillWake()
    requires forall q :: 0 <= q < |s.procs| && q != p ==> s'.procs[q] == s.procs[q]
    requires MustWait(s') || forall q :: 0 <= q < |s.procs| && q != p ==> !s.procs[q].pc.HoldsLog()
    requires var pc := s'.procs[p].pc;
             !pc.SleepAcquire? && !pc.SleepRelease? && !pc.SleepMark? && !s'.procs[p].sleeping
    ensures Sleepers(s')
  {
    if MustWait(s) && !MustWait(s') {
      assert WakePending(s');
    } else if WakePending(s) {
      var q :| 0 <= q < |s.procs| && s.procs[q].pc.WillWake();
      assert s'.procs[q].pc.WillWake();
    }
  }

  lemma StartOpRest(s: State, p: nat)
    requires Inv(s) && Enabled(s, Run(p)) && s.procs[p].pc == BeginTest && !MustWait(s)
    ensures Rest(DoBody(s, p))
  {
    hide Reserved, Alone, Sleepers, InStep, Whole, Locks, StartOp;
    StartOpReserved(s, p);
    StartOpAlone(s, p);
    StartOpInStep(s, p);
    StartOpSleepers(s, p);
    StartOpWhole(s);
    StartOpFrame(s, p);
  }

  lemma StartOpFrame(s: State, p: nat)
    requires p < |s.procs|
    ensures var s' := StartOp(s, p);
            && s'.ops == s.ops + [Op(|s.committed|, {})] && s'.committed == s.committed && s'.blocks == s.blocks && s'.halt == s.halt
  {
  }

  lemma StartOpReserved(s: State, p: nat)
    requires Inv(s) && Enabled(s, Run(p)) && s.procs[p].pc == BeginTest && !MustWait(s)
    ensures Reserved(StartOp(s, p))
  {
    hide Whole, Sleepers, Locks, InStep;
    CountBounds(s.procs);
    Update(s.procs, p, StartOp(s, p).procs[p]);
  }

  lemma StartOpAlone(s: State, p: nat)
    requires Inv(s) && Enabled(s, Run(p)) && s.procs[p].pc == BeginTest && !MustWait(s)
    ensures Alone(StartOp(s, p))
  {
    hide Whole, Sleepers, Locks, InStep, Reserved;
    Update(s.procs, p, StartOp(s, p).procs[p]);
  }

  lemma StartOpInStep(s: State, p: nat)
    requires Inv(s) && Enabled(s, Run(p)) && s.procs[p].pc == BeginTest && !MustWait(s)
    ensures InStep(StartOp(s, p))
  {
    hide Whole, Sleepers, Locks, Alone, Reserved;
  }

  lemma StartOpSleepers(s: State, p: nat)
    requires Inv(s) && Enabled(s, Run(p)) && s.procs[p].pc == BeginTest && !MustWait(s)
    ensures Sleepers(StartOp(s, p))
  {
    hide Whole;
    KeepSleepers(s, StartOp(s, p), p);
  }

  lemma StartOpWhole(s: State)
    requires Whole(s.ops, s.committed, s.blocks)
    ensures Whole(s.ops + [Op(|s.committed|, {})], s.committed, s.blocks)
  {
    forall t: nat, bn | WroteIn(s.ops, t, bn)
      ensures WroteIn(s.ops + [Op(|s.committed|, {})], t, bn)
    {
      var o :| 0 <= o < |s.ops| && s.ops[o].txn == t && bn in s.ops[o].wrote;
      assert (s.ops + [Op(|s.committed|, {})])[o] == s.ops[o];
    }
  }

  lemma RecordRest(s: State, p: nat)
    requires Inv(s) && Enabled(s, Run(p)) && s.procs[p].pc.WriteRecord?
    ensures Rest(DoBody(s, p))
  {
    hide Whole, Sleepers, Locks;
    var bn := s.procs[p].pc.bn;
    var s' := Record(s, p, bn);
    Update(s.procs, p, s'.procs[p]);
    CountBounds(s.procs);
    RecordWhole(s, p, bn);
    RecordSleepers(s, p, bn);
  }

  lemma RecordSleepers(s: State, p: nat, bn: nat)
    requires Inv(s) && Enabled(s, Run(p)) && s.procs[p].pc == WriteRecord(bn)
    ensures Sleepers(Record(s, p, bn))
  {
    hide Whole;
    KeepSleepers(s, Record(s, p, bn), p);
  }

  lemma RecordWhole(s: State, p: nat, bn: nat)
    requires Rest(s) && p < |s.procs| && s.procs[p].pc == WriteRecord(bn) && (bn in s.blocks || s.procs[p].budget > 0)
    ensures var s' := Record(s, p, bn); Whole(s'.ops, s'.committed, s'.blocks)
  {
    var s' := Record(s, p, bn);
    var mine := s.procs[p].op;
    forall t: nat, x | t <= |s.committed| && x in Txn(s'.committed, s'.blocks, t)
      ensures WroteIn(s'.ops, t, x)
    {
      if x in Txn(s.committed, s.blocks, t) {
        assert WroteIn(s.ops, t, x);
        var o :| 0 <= o < |s.ops| && s.ops[o].txn == t && x in s.ops[o].wrote;
        assert s'.ops[o].txn == t && x in s'.ops[o].wrote;
      } else {
        assert s'.ops[mine].txn == t && x in s'.ops[mine].wrote;
      }
    }
  }

  lemma FinishOpRest(s: State, p: nat)
    requires Inv(s) && Enabled(s, Run(p)) && s.procs[p].pc.EndCount?
    ensures Rest(DoBody(s, p))
  {
    hide Whole, Sleepers, Alone;
    var s' := FinishOp(s, p);
    Update(s.procs, p, s'.procs[p]);
    FinishOpAlone(s, p);
    FinishOpSleepers(s, p);
  }

  /** The last operation out commits, and it does so alone. */
  lemma FinishOpAlone(s: State, p: nat)
    requires Inv(s) && Enabled(s, Run(p)) && s.procs[p].pc.EndCount?
    ensures !s.committing && Alone(FinishOp(s, p))
  {
    hide Whole, Sleepers, InStep, Locks;
    var s' := FinishOp(s, p);
    Update(s.procs, p, s'.procs[p]);
    CountBounds(s.procs);
    assert s'.committing ==> s'.procs[p].pc.Commits();
  }

  lemma FinishOpSleepers(s: State, p: nat)
    requires Inv(s) && Enabled(s, Run(p)) && s.procs[p].pc.EndCount? && !s.committing
    ensures Sleepers(FinishOp(s, p))
  {
    hide Whole;
    KeepSleepers(s, FinishOp(s, p), p);
  }

  lemma CommitRest(s: State, p: nat)
    requires Inv(s) && Enabled(s, Run(p)) && s.procs[p].pc.Committing?
    ensures Rest(DoBody(s, p))
  {
    var s' := DoBody(s, p);
    Update(s.procs, p, s'.procs[p]);
    CountBounds(s.procs);
    KeepSleepers(s, s', p);
    assert s'.procs[p].pc.Commits();
    forall t: nat, x | t <= |s'.committed| && x in Txn(s'.committed, s'.blocks, t)
      ensures WroteIn(s'.ops, t, x)
    {
      assert Txn(s'.committed, s'.blocks, t) == if t <= |s.committed| then Txn(s.committed, s.blocks, t) else [];
    }
  }

  lemma CommitDoneRest(s: State, p: nat)
    requires Inv(s) && Enabled(s, Run(p)) && s.procs[p].pc.CommitDone?
    ensures Rest(DoBody(s, p))
  {
    var s' := DoBody(s, p);
    Update(s.procs, p, s'.procs[p]);
    KeepSleepers(s, s', p);
  }

  /** Steps that only change who sleeps, and the program counter of p to one of the same kind. */
  lemma SleepOnly(s: State, s': State, p: nat)
    requires Rest(s) && p < |s.procs| == |s'.procs| && s' == s.(procs := s'.procs)
    requires forall q :: 0 <= q < |s.procs| ==>
               s'.procs[q] == s.procs[q].(sleeping := s'.procs[q].sleeping, pc := if q == p then s'.procs[q].pc else s.procs[q].pc)
    requires (!s.procs[p].pc.Counted() && !s'.procs[p].pc.Counted()) || s.procs[p].pc == s'.procs[p].pc
    requires (!s.procs[p].pc.Commits() && !s'.procs[p].pc.Commits()) || s.procs[p].pc == s'.procs[p].pc
    ensures Reserved(s') && Alone(s') && InStep(s')
  {
    hide Whole, Sleepers;
    SleepCounts(s.procs, s'.procs, p);
    if s.committing {
      var c :| 0 <= c < |s.procs| && s.procs[c].pc.Commits();
      assert s'.procs[c].pc.Commits();
    }
  }

  lemma SleepCounts(procs: seq<Proc>, procs': seq<Proc>, p: nat)
    requires p < |procs| == |procs'|
    requires forall q :: 0 <= q < |procs| ==>
               procs'[q] == procs[q].(sleeping := procs'[q].sleeping, pc := if q == p then procs'[q].pc else procs[q].pc)
    requires procs'[p].pc.Counted() == procs[p].pc.Counted()
    ensures Budgets(procs') == Budgets(procs) && Counted(procs') == Counted(procs)
  {
    var flat := procs[p := procs[p].(pc := procs'[p].pc)];
    Update(procs, p, flat[p]);
    SameCounts(flat, procs');
  }

  lemma WakeMarkRest(s: State, p: nat)
    requires Inv(s) && Enabled(s, Run(p)) && s.procs[p].pc.WakeMark?
    ensures Rest(DoBody(s, p))
  {
    hide Whole, Alone, Reserved, InStep;
    SleepOnly(s, DoBody(s, p), p);
  }

  lemma MarkRest(s: State, s': State, p: nat)
    requires Rest(s) && p < |s.procs| == |s'.procs|
    requires s' == s.(procs := s.procs[p := s'.procs[p]])
    requires s'.procs[p] == s.procs[p].(sleeping := false)
             || (s.procs[p].pc.SleepMark? && s'.procs[p] == s.procs[p].(pc := SleepSwitch, sleeping := true))
    ensures Rest(s')
  {
    hide Whole, Alone, Reserved, InStep;
    SleepOnly(s, s', p);
    if WakePending(s) {
      var q :| 0 <= q < |s.procs| && s.procs[q].pc.WillWake();
      assert s'.procs[q].pc.WillWake();
    }
  }

  lemma MoveRest(s: State, s': State, p: nat, pc: Pc)
    requires Rest(s) && Moves(s, s', p, pc)
    ensures Rest(s')
  {
    MoveReserved(s, s', p, pc);
    MoveSleepers(s, s', p, pc);
  }

  lemma RunMoves(s: State, p: nat)
    requires Inv(s) && Enabled(s, Run(p))
    requires s.procs[p].pc.Act() != Body || (s.procs[p].pc.BeginTest? && MustWait(s))
    ensures var s' := Next(s, Run(p)); p < |s'.procs| && Moves(s, s', p, s'.procs[p].pc)
  {
    hide Whole, Reserved, Alone;
  }

  lemma WriteRest(s: State, p: nat, bn: nat)
    requires Inv(s) && Enabled(s, Write(p, bn))
    ensures Rest(Next(s, Write(p, bn)))
  {
    var s' := Next(s, Write(p, bn));
    CountBounds(s.procs);
    if s'.halt == Running {
      MoveRest(s, s', p, WriteAcquire(bn));
    }
  }

  lemma BodyRest(s: State, p: nat)
    requires Inv(s) && Enabled(s, Run(p)) && s.procs[p].pc.Act() == Body && !(s.procs[p].pc.BeginTest? && MustWait(s))
    ensures Rest(DoBody(s, p))
  {
    hide Rest, Locks;
    match s.procs[p].pc {
      case BeginTest => StartOpRest(s, p);
      case WriteRecord(bn) => RecordRest(s, p);
      case EndCount => FinishOpRest(s, p);
      case Committing => CommitRest(s, p);
      case CommitDone => CommitDoneRest(s, p);
      case WakeMark => WakeMarkRest(s, p);
      case SleepMark => MarkRest(s, DoBody(s, p), p);
    }
  }

  lemma RestNext(s: State, step: Step)
    requires Inv(s) && Enabled(s, step)
    ensures Rest(Next(s, step))
  {
    hide Rest, Locks, DoBody;
    match step {
      case Outside => MoveOutside(s);
      case Kill(p) => MarkRest(s, Next(s, step), p);
      case Begin(p) => CallRest(s, step, p, BeginAcquire);
      case End(p) => CallRest(s, step, p, EndAcquire);
      case Write(p, bn) => WriteRest(s, p, bn);
      case Run(p) =>
        if s.procs[p].pc.Act() != Body || (s.procs[p].pc.BeginTest? && MustWait(s)) {
          RunMoves(s, p);
          MoveRest(s, Next(s, step), p, Next(s, step).procs[p].pc);
        } else {
          BodyRest(s, p);
        }
    }
  }

  lemma CallRest(s: State, step: Step, p: nat, pc: Pc)
    requires Inv(s) && Enabled(s, step) && ((step == Begin(p) && pc == BeginAcquire) || (step == End(p) && pc == EndAcquire))
    ensures Rest(Next(s, step))
  {
    hide Whole, Locks;
    MoveRest(s, Next(s, step), p, pc);
  }

  lemma MoveOutside(s: State)
    requires Rest(s) && Enabled(s, Outside)
    ensures Rest(Next(s, Outside))
  {
  }

  lemma InvNext(s: State, step: Step)
    requires Inv(s) && Enabled(s, step)
    ensures Inv(Next(s, step))
  {
    hide Locks, Rest;
    LocksNext(s, step);
    RestNext(s, step);
  }

  // ---------------------------------------------------------------- runs

  /** A run: each state follows from the one before by some enabled step. */
  ghost predicate IsRun(states: seq<State>, size: nat, nproc: nat) {
    && states != [] && states[0] == Start(size, nproc)
    && forall i :: 0 <= i < |states| - 1 ==> Follows(states[i], states[i + 1])
  }

  ghost predicate Follows(s: State, s': State) {
    exists step :: Enabled(s, step) && s' == Next(s, step)
  }

  lemma {:induction false} RunInv(states: seq<State>, size: nat, nproc: nat)
    requires IsRun(states, size, nproc)
    ensures Inv(states[|states| - 1])
  {
    hide Inv;
    var n := |states| - 1;
    if n == 0 {
      StartInv(size, nproc);
    } else {
      assert states[..n][n - 1] == states[n - 1] && Follows(states[n - 1], states[n - 1 + 1]);
      assert forall i :: 0 <= i < n ==> states[..n][i] == states[i];
      RunInv(states[..n], size, nproc);
      var step :| Enabled(states[n - 1], step) && states[n] == Next(states[n - 1], step);
      InvNext(states[n - 1], step);
    }
  }

  /** In every run the reservation of LOGSIZE blocks is kept, blocks are logged once, and neither accounting panic is reached. */
  lemma GroupCommitSafety(states: seq<State>, size: nat, nproc: nat)
    requires IsRun(states, size, nproc)
    ensures var s := states[|states| - 1];
            && |s.blocks| + Budgets(s.procs) <= LOGSIZE
            && (forall i, j :: 0 <= i < j < |s.blocks| ==> s.blocks[i] != s.blocks[j])
            && s.halt != PanicOutside && s.halt != PanicCommitting
            && (forall p :: 0 <= p < |s.procs| && s.procs[p].pc.Commits() ==>
                  forall q :: 0 <= q < |s.procs| ==> !s.procs[q].pc.Counted() && (q != p ==> !s.procs[q].pc.Commits()))
  {
    hide Whole, Sleepers;
    RunInv(states, size, nproc);
    var s := states[|states| - 1];
    CountBounds(s.procs);
  }

  /** In every run each operation's blocks lie in one transaction, and each transaction holds only what its operations logged. */
  lemma OperationsAreAtomic(states: seq<State>, size: nat, nproc: nat)
    requires IsRun(states, size, nproc)
    ensures var s := states[|states| - 1];
            && (forall o, bn :: 0 <= o < |s.ops| && bn in s.ops[o].wrote ==> bn in Txn(s.committed, s.blocks, s.ops[o].txn))
            && (forall t: nat, bn :: t < |s.committed| && bn in s.committed[t] ==> WroteIn(s.ops, t, bn))
            && (forall p :: 0 <= p < |s.procs| && s.procs[p].pc.Counted() ==>
                  s.procs[p].op < |s.ops| && s.ops[s.procs[p].op].txn == |s.committed|)
  {
    RunInv(states, size, nproc);
    var s := states[|states| - 1];
    forall t: nat, bn | t < |s.committed| && bn in s.committed[t]
      ensures WroteIn(s.ops, t, bn)
    {
      assert bn in Txn(s.committed, s.blocks, t);
    }
  }

  /** log_write: its block is in the transaction and among its operation's, once; what was there stays, in order. */
  lemma RecordTakes(s: State, p: nat, bn: nat)
    requires Inv(s) && Enabled(s, Run(p)) && s.procs[p].pc == WriteRecord(bn)
    ensures var s' := Next(s, Run(p));
            && s.blocks <= s'.blocks && (forall x :: x in s'.blocks <==> x in s.blocks || x == bn)
            && (forall i, j :: 0 <= i < j < |s'.blocks| ==> s'.blocks[i] != s'.blocks[j])
            && s.procs[p].op < |s'.ops| == |s.ops|
            && forall o, x :: 0 <= o < |s.ops| ==> (x in s'.ops[o].wrote <==> x in s.ops[o].wrote || (o == s.procs[p].op && x == bn))
  {
    hide Whole, Sleepers, Locks;
  }

  /** In every run, whenever log.lock is free, every process sleeping in begin_op still has to wait. */
  lemma NoLostWakeup(states: seq<State>, size: nat, nproc: nat, p: nat)
    requires IsRun(states, size, nproc)
    requires var s := states[|states| - 1]; s.logLock == Free && p < |s.procs| && s.procs[p].sleeping
    ensures var s := states[|states| - 1]; MustWait(s) && (s.committing || s.outstanding > 0)
  {
    RunInv(states, size, nproc);
  }
}

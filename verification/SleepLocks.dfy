/** Sleep-locks over spin-locks, sleep and wakeup: any number of processes and locks, every interleaving. */
module SleepLocks {

  /** Where a process is with respect to the sleep-lock l it deals with; process numbers are pids. */
  datatype Pc =
    | Normal                // elsewhere
    | AcqSpin(l: nat)       // acquiresleep: acquire the inner spin-lock
    | AcqTest(l: nat)       // spin: take the sleep-lock, or go to sleep
    | AcqLeave(l: nat)      // spin: release it
    | SleepAcquire(l: nat)  // spin: sleep acquires ptable.lock
    | SleepRelease(l: nat)  // spin, ptable.lock: release spin
    | SleepMark(l: nat)     // ptable.lock: set the channel and become SLEEPING
    | SleepSwitch(l: nat)   // ptable.lock: leave the CPU; the scheduler releases ptable.lock
    | Asleep(l: nat)        // none: off the CPU; once RUNNABLE the scheduler acquires ptable.lock for it
    | Resumed(l: nat)       // ptable.lock: release it
    | RelSpin(l: nat)       // releasesleep: acquire the inner spin-lock
    | RelClear(l: nat)      // spin: clear the sleep-lock
    | WakeAcquire(l: nat)   // spin: wakeup acquires ptable.lock
    | WakeMark(l: nat)      // spin, ptable.lock: wake the sleepers on this channel
    | WakeRelease(l: nat)   // spin, ptable.lock: release ptable.lock
    | RelLeave(l: nat)      // spin: release it
    | AskSpin(l: nat)       // holdingsleep: acquire the inner spin-lock
    | AskTest(l: nat)       // spin: look
    | AskLeave(l: nat, answer: bool)  // spin: release it and return the answer
  {
    function Act(): Act {
      match this
      case AcqSpin(_) => TakeSpin
      case RelSpin(_) => TakeSpin
      case AskSpin(_) => TakeSpin
      case AcqLeave(_) => DropSpin
      case SleepRelease(_) => DropSpin
      case RelLeave(_) => DropSpin
      case AskLeave(_, _) => DropSpin
      case SleepAcquire(_) => TakePtable
      case Asleep(_) => TakePtable
      case WakeAcquire(_) => TakePtable
      case SleepSwitch(_) => DropPtable
      case Resumed(_) => DropPtable
      case WakeRelease(_) => DropPtable
      case _ => Body
    }

    function Follow(): Pc {
      match this
      case AcqSpin(l) => AcqTest(l)
      case RelSpin(l) => RelClear(l)
      case AskSpin(l) => AskTest(l)
      case SleepRelease(l) => SleepMark(l)
      case SleepAcquire(l) => SleepRelease(l)
      case Asleep(l) => Resumed(l)
      case WakeAcquire(l) => WakeMark(l)
      case SleepSwitch(l) => Asleep(l)
      case Resumed(l) => AcqSpin(l)
      case WakeRelease(l) => RelLeave(l)
      case _ => Normal
    }

    predicate HoldsSpin(m: nat) {
      && (AcqTest? || AcqLeave? || SleepAcquire? || SleepRelease? || RelClear? || WakeAcquire? || WakeMark?
          || WakeRelease? || RelLeave? || AskTest? || AskLeave?)
      && l == m
    }

    predicate HoldsPtable() {
      SleepRelease? || SleepMark? || SleepSwitch? || Resumed? || WakeMark? || WakeRelease?
    }

    predicate WillWake(m: nat) {
      (WakeAcquire? || WakeMark?) && l == m
    }
  }

  datatype Act = TakeSpin | DropSpin | TakePtable | DropPtable | Body

  datatype Lock = Free | Held(pid: nat) | HeldOutside

  datatype SleepLock = SleepLock(spin: Lock, locked: bool, pid: nat)

  /** `held` records the sleep-locks a process is between acquiring and releasing. */
  datatype Proc = Proc(pc: Pc, sleeping: bool, chan: nat, held: set<nat>)

  datatype State = State(locks: seq<SleepLock>, ptableLock: Lock, procs: seq<Proc>)

  datatype Step = Run(p: nat) | Acquire(p: nat, l: nat) | Release(p: nat, l: nat) | Ask(p: nat, l: nat) | Kill(p: nat) | Outside

  predicate Enabled(s: State, step: Step) {
    && (step.Outside? || step.p < |s.procs|)
    && match step
       case Acquire(p, l) => s.procs[p].pc == Normal && l < |s.locks|
       case Release(p, l) => s.procs[p].pc == Normal && l < |s.locks| && l in s.procs[p].held
       case Ask(p, l) => s.procs[p].pc == Normal && l < |s.locks|
       case Kill(p) => s.ptableLock == Free
       case Outside => !s.ptableLock.Held?
       case Run(p) =>
         var pc := s.procs[p].pc;
         && pc != Normal && pc.l < |s.locks| && !(pc.Asleep? && s.procs[p].sleeping)
         && (pc.Act() == TakeSpin ==> s.locks[pc.l].spin == Free)
         && (pc.Act() == TakePtable ==> s.ptableLock == Free)
  }

  function At(s: State, p: nat, pc: Pc): State
    requires p < |s.procs|
  {
    s.(procs := s.procs[p := s.procs[p].(pc := pc)])
  }

  function Spin(s: State, l: nat, spin: Lock): State
    requires l < |s.locks|
  {
    s.(locks := s.locks[l := s.locks[l].(spin := spin)])
  }

  function Next(s: State, step: Step): State
    requires Enabled(s, step)
  {
    match step
    case Acquire(p, l) => At(s, p, AcqSpin(l))
    case Release(p, l) => At(s, p, RelSpin(l))
    case Ask(p, l) => At(s, p, AskSpin(l))
    case Kill(p) => s.(procs := s.procs[p := s.procs[p].(sleeping := false)])
    case Outside => s.(ptableLock := if s.ptableLock == Free then HeldOutside else Free)
    case Run(p) =>
      var pc := s.procs[p].pc;
      match pc.Act()
      case TakeSpin => At(Spin(s, pc.l, Held(p)), p, pc.Follow())
      case DropSpin => At(Spin(s, pc.l, Free), p, pc.Follow())
      case TakePtable => At(s.(ptableLock := Held(p)), p, pc.Follow())
      case DropPtable => At(s.(ptableLock := Free), p, pc.Follow())
      case Body => DoBody(s, p)
  }

  function DoBody(s: State, p: nat): State
    requires Enabled(s, Run(p)) && s.procs[p].pc.Act() == Body
  {
    var proc := s.procs[p];
    var l := proc.pc.l;
    var lock := s.locks[l];
    match proc.pc
    case AcqTest(_) =>
      if lock.locked then At(s, p, SleepAcquire(l))
      else State(s.locks[l := lock.(locked := true, pid := p)], s.ptableLock,
                 s.procs[p := proc.(pc := AcqLeave(l), held := proc.held + {l})])
    case SleepMark(_) => s.(procs := s.procs[p := proc.(pc := SleepSwitch(l), chan := l, sleeping := true)])
    case RelClear(_) =>
      State(s.locks[l := lock.(locked := false, pid := 0)], s.ptableLock,
            s.procs[p := proc.(pc := WakeAcquire(l), held := proc.held - {l})])
    case WakeMark(_) => At(s.(procs := Wake(s.procs, l)), p, WakeRelease(l))
    case AskTest(_) => At(s, p, AskLeave(l, lock.locked && lock.pid == p))
  }

  /** wakeup1: every process sleeping on this channel becomes RUNNABLE. */
  function Wake(procs: seq<Proc>, chan: nat): (woken: seq<Proc>)
    ensures |woken| == |procs|
    ensures forall i :: 0 <= i < |procs| ==>
              woken[i] == if procs[i].sleeping && procs[i].chan == chan then procs[i].(sleeping := false) else procs[i]
  {
    seq(|procs|, i requires 0 <= i < |procs| =>
      if procs[i].sleeping && procs[i].chan == chan then procs[i].(sleeping := false) else procs[i])
  }

  function Start(nlock: nat, nproc: nat): State {
    State(seq(nlock, _ => SleepLock(Free, false, 0)), Free, seq(nproc, _ => Proc(Normal, false, 0, {})))
  }

  // ---------------------------------------------------------------- the invariant

  ghost predicate Spins(s: State) {
    && (forall l :: 0 <= l < |s.locks| ==> s.locks[l].spin != HeldOutside)
    && (forall l :: 0 <= l < |s.locks| && s.locks[l].spin.Held? ==> s.locks[l].spin.pid < |s.procs|)
    && (forall l, p :: 0 <= l < |s.locks| && 0 <= p < |s.procs| ==>
          (s.procs[p].pc.HoldsSpin(l) <==> s.locks[l].spin == Held(p)))
  }

  ghost predicate Ptable(s: State) {
    && (s.ptableLock.Held? ==> s.ptableLock.pid < |s.procs|)
    && (forall p :: 0 <= p < |s.procs| ==> (s.procs[p].pc.HoldsPtable() <==> s.ptableLock == Held(p)))
  }

  /** A sleep-lock is locked exactly while the process it names is between acquiring and releasing it. */
  ghost predicate Owned(s: State) {
    && (forall l: nat :: l < |s.locks| && s.locks[l].locked ==>
          s.locks[l].pid < |s.procs| && l in s.procs[s.locks[l].pid].held)
    && (forall p: nat, l: nat {:trigger l in s.procs[p].held} :: p < |s.procs| && l in s.procs[p].held ==>
          l < |s.locks| && s.locks[l].locked && s.locks[l].pid == p)
    && (forall p :: 0 <= p < |s.procs| ==> PcOk(s.procs[p], p, s.locks))
  }

  ghost predicate PcOk(proc: Proc, p: nat, locks: seq<SleepLock>) {
    && (proc.pc != Normal ==> proc.pc.l < |locks|)
    && (proc.pc.RelSpin? || proc.pc.RelClear? || proc.pc.AcqLeave? ==> proc.pc.l in proc.held)
    && (proc.pc.AskLeave? ==> (proc.pc.answer <==> proc.pc.l in proc.held))
    && (proc.sleeping ==> (proc.pc.SleepSwitch? || proc.pc.Asleep?) && proc.chan == proc.pc.l)
  }

  ghost predicate WakePending(s: State, l: nat) {
    exists q :: 0 <= q < |s.procs| && s.procs[q].pc.WillWake(l)
  }

  /** Who is going to sleep, or sleeps, finds the lock taken, or will be woken. */
  ghost predicate Sleepers(s: State) {
    forall p :: 0 <= p < |s.procs| ==> SleeperOk(s, s.procs[p])
  }

  ghost predicate SleeperOk(s: State, proc: Proc) {
    && (proc.pc.SleepAcquire? || proc.pc.SleepRelease? ==> proc.pc.l < |s.locks| && s.locks[proc.pc.l].locked)
    && (proc.pc.SleepMark? || proc.sleeping ==>
          proc.pc != Normal && proc.pc.l < |s.locks| && (s.locks[proc.pc.l].locked || WakePending(s, proc.pc.l)))
  }

  ghost predicate Inv(s: State) {
    Spins(s) && Ptable(s) && Owned(s) && Sleepers(s)
  }

  lemma StartInv(nlock: nat, nproc: nat)
    ensures Inv(Start(nlock, nproc))
  {
  }

  // ---------------------------------------------------------------- preservation

  /** How a lock changes hands when process p takes a step. */
  ghost predicate Passes(l: Lock, l': Lock, p: nat, held: bool, held': bool) {
    || (l' == l && held' == held)
    || (l == Free && l' == Held(p) && !held && held')
    || (l' == Free && held && !held')
  }

  lemma Others(s: State, step: Step)
    requires Enabled(s, step) && !step.Outside?
    ensures var s' := Next(s, step);
            && |s'.procs| == |s.procs| && |s'.locks| == |s.locks|
            && Passes(s.ptableLock, s'.ptableLock, step.p, s.procs[step.p].pc.HoldsPtable(), s'.procs[step.p].pc.HoldsPtable())
            && (forall l :: 0 <= l < |s.locks| ==>
                  Passes(s.locks[l].spin, s'.locks[l].spin, step.p, s.procs[step.p].pc.HoldsSpin(l), s'.procs[step.p].pc.HoldsSpin(l)))
            && (forall q :: 0 <= q < |s.procs| && q != step.p ==> s'.procs[q].pc == s.procs[q].pc)
  {
  }

  lemma LocksNext(s: State, step: Step)
    requires Spins(s) && Ptable(s) && Enabled(s, step)
    ensures Spins(Next(s, step)) && Ptable(Next(s, step))
  {
    if !step.Outside? {
      hide Next;
      Others(s, step);
    }
  }

  /** A step that touches neither a sleep-lock nor the chan of a process. */
  lemma LightStep(s: State, step: Step)
    requires Inv(s) && Enabled(s, step) && !step.Outside? && !(step.Run? && s.procs[step.p].pc.Act() == Body)
    ensures var s' := Next(s, step);
            && |s'.procs| == |s.procs| && |s'.locks| == |s.locks| && PcOk(s'.procs[step.p], step.p, s'.locks)
            && (forall q :: 0 <= q < |s.procs| ==> s'.procs[q].held == s.procs[q].held && (q != step.p ==> s'.procs[q] == s.procs[q]))
            && (forall l :: 0 <= l < |s.locks| ==> s'.locks[l] == s.locks[l].(spin := s'.locks[l].spin))
  {
    hide Sleepers, Ptable, Spins;
    assert PcOk(s.procs[step.p], step.p, s.locks);
  }

  lemma OwnedNext(s: State, step: Step)
    requires Inv(s) && Enabled(s, step)
    ensures Owned(Next(s, step))
  {
    hide Sleepers, Ptable, Spins;
    if step.Outside? {
    } else if step.Run? && s.procs[step.p].pc.Act() == Body {
      OwnedBody(s, step.p);
    } else {
      hide Next, Enabled;
      LightStep(s, step);
      var s' := Next(s, step);
      forall q | 0 <= q < |s.procs| && q != step.p
        ensures PcOk(s'.procs[q], q, s'.locks)
      {
        assert PcOk(s.procs[q], q, s.locks);
      }
    }
  }

  lemma OwnedBody(s: State, p: nat)
    requires Inv(s) && Enabled(s, Run(p)) && s.procs[p].pc.Act() == Body
    ensures Owned(DoBody(s, p))
  {
    hide Sleepers, Ptable;
    var s' := DoBody(s, p);
    assert PcOk(s.procs[p], p, s.locks);
    assert PcOk(s'.procs[p], p, s'.locks);
    forall q | 0 <= q < |s.procs| && q != p
      ensures PcOk(s'.procs[q], q, s'.locks)
    {
      assert PcOk(s.procs[q], q, s.locks);
    }
  }

  /** Sleepers keep their reason when p neither frees a lock nor stops being about to wake. */
  lemma KeepSleepers(s: State, s': State, p: nat)
    requires Sleepers(s) && p < |s.procs| == |s'.procs| && |s'.locks| == |s.locks|
    requires forall q :: 0 <= q < |s.procs| && q != p ==> s'.procs[q] == s.procs[q]
    requires forall l :: 0 <= l < |s.locks| && s.locks[l].locked ==>
               s'.locks[l].locked || (s'.procs[p].pc.WillWake(l) && s.procs[p].pc.HoldsSpin(l))
    requires forall l, q :: 0 <= l < |s.locks| && 0 <= q < |s.procs| && q != p && s.procs[p].pc.HoldsSpin(l) ==>
               !s.procs[q].pc.HoldsSpin(l)
    requires forall l :: s.procs[p].pc.WillWake(l) ==> s'.procs[p].pc.WillWake(l)
    requires SleeperOk(s', s'.procs[p])
    ensures Sleepers(s')
  {
    forall q | 0 <= q < |s.procs| && q != p
      ensures SleeperOk(s', s.procs[q])
    {
      assert SleeperOk(s, s.procs[q]);
      if (s.procs[q].pc.SleepMark? || s.procs[q].sleeping) && WakePending(s, s.procs[q].pc.l) {
        var w :| 0 <= w < |s.procs| && s.procs[w].pc.WillWake(s.procs[q].pc.l);
        assert s'.procs[w].pc.WillWake(s.procs[q].pc.l);
      }
      if s.procs[q].pc != Normal && s'.procs[p].pc.WillWake(s.procs[q].pc.l) {
        assert WakePending(s', s.procs[q].pc.l);
      }
    }
  }

  lemma SleepersNext(s: State, step: Step)
    requires Inv(s) && Enabled(s, step)
    ensures Sleepers(Next(s, step))
  {
    var s' := Next(s, step);
    if step.Run? && s.procs[step.p].pc.WakeMark? {
      WakeSleepers(s, step.p);
    } else if !step.Outside? {
      assert SleeperOk(s, s.procs[step.p]);
      assert PcOk(s.procs[step.p], step.p, s.locks);
      OwnSleep(s, step);
      KeepSleepers(s, s', step.p);
    }
  }

  lemma OwnSleep(s: State, step: Step)
    requires Inv(s) && Enabled(s, step) && !step.Outside? && !(step.Run? && s.procs[step.p].pc.WakeMark?)
    ensures var s' := Next(s, step); step.p < |s'.procs| && SleeperOk(s', s'.procs[step.p])
  {
    var s' := Next(s, step);
    assert SleeperOk(s, s.procs[step.p]) && PcOk(s.procs[step.p], step.p, s.locks);
    if s.procs[step.p].pc != Normal && WakePending(s, s.procs[step.p].pc.l) {
      var w :| 0 <= w < |s.procs| && s.procs[w].pc.WillWake(s.procs[step.p].pc.l);
      assert w != step.p ==> s'.procs[w].pc.WillWake(s.procs[step.p].pc.l);
    }
  }

  lemma WakeSleepers(s: State, p: nat)
    requires Inv(s) && Enabled(s, Run(p)) && s.procs[p].pc.WakeMark?
    ensures Sleepers(DoBody(s, p))
  {
    var s' := DoBody(s, p);
    forall q | 0 <= q < |s.procs|
      ensures SleeperOk(s', s'.procs[q])
    {
      assert SleeperOk(s, s.procs[q]) && PcOk(s.procs[q], q, s.locks);
      if s.procs[q].pc != Normal && WakePending(s, s.procs[q].pc.l) && s.procs[q].pc.l != s.procs[p].pc.l {
        var w :| 0 <= w < |s.procs| && s.procs[w].pc.WillWake(s.procs[q].pc.l);
        assert s'.procs[w].pc.WillWake(s.procs[q].pc.l);
      }
    }
  }

  lemma InvNext(s: State, step: Step)
    requires Inv(s) && Enabled(s, step)
    ensures Inv(Next(s, step))
  {
    LocksNext(s, step);
    OwnedNext(s, step);
    SleepersNext(s, step);
  }

  // ---------------------------------------------------------------- runs

  ghost predicate Follows(s: State, s': State) {
    exists step :: Enabled(s, step) && s' == Next(s, step)
  }

  ghost predicate IsRun(states: seq<State>, nlock: nat, nproc: nat) {
    && states != [] && states[0] == Start(nlock, nproc)
    && forall i :: 0 <= i < |states| - 1 ==> Follows(states[i], states[i + 1])
  }

  lemma {:induction false} RunInv(states: seq<State>, nlock: nat, nproc: nat)
    requires IsRun(states, nlock, nproc)
    ensures Inv(states[|states| - 1])
  {
    hide Inv;
    var n := |states| - 1;
    if n == 0 {
      StartInv(nlock, nproc);
    } else {
      assert states[..n][n - 1] == states[n - 1] && Follows(states[n - 1], states[n - 1 + 1]);
      RunInv(states[..n], nlock, nproc);
      var step :| Enabled(states[n - 1], step) && states[n] == Next(states[n - 1], step);
      InvNext(states[n - 1], step);
    }
  }

  /** In every run at most one process is between acquiring and releasing a sleep-lock, and the lock names it. */
  lemma MutualExclusion(states: seq<State>, nlock: nat, nproc: nat)
    requires IsRun(states, nlock, nproc)
    ensures var s := states[|states| - 1];
            && (forall p: nat, q: nat, l: nat :: p < q < |s.procs| && l in s.procs[p].held ==> l !in s.procs[q].held)
            && (forall p: nat, l: nat {:trigger l in s.procs[p].held} :: p < |s.procs| && l in s.procs[p].held ==>
                  l < |s.locks| && s.locks[l].locked && s.locks[l].pid == p)
  {
    RunInv(states, nlock, nproc);
  }

  /** In every run holdingsleep answers yes exactly to the process that holds the sleep-lock. */
  lemma HoldingSleepAnswer(states: seq<State>, nlock: nat, nproc: nat, p: nat)
    requires IsRun(states, nlock, nproc)
    requires var s := states[|states| - 1]; p < |s.procs| && s.procs[p].pc.AskLeave?
    ensures var proc := states[|states| - 1].procs[p]; proc.pc.answer <==> proc.pc.l in proc.held
  {
    RunInv(states, nlock, nproc);
    assert PcOk(states[|states| - 1].procs[p], p, states[|states| - 1].locks);
  }

  /** In every run a process asleep on a free sleep-lock is about to be woken by a process holding the inner spin-lock;
      so whenever the spin-lock is free, some process really holds the sleep-lock. */
  lemma NoLostWakeup(states: seq<State>, nlock: nat, nproc: nat, p: nat)
    requires IsRun(states, nlock, nproc)
    requires var s := states[|states| - 1]; p < |s.procs| && s.procs[p].sleeping
    ensures var s := states[|states| - 1];
            && s.procs[p].pc != Normal && s.procs[p].pc.l < |s.locks|
            && var lock := s.locks[s.procs[p].pc.l];
               && (!lock.locked ==> lock.spin.Held? && lock.spin.pid < |s.procs| && s.procs[lock.spin.pid].pc.WillWake(s.procs[p].pc.l))
               && (lock.spin == Free ==> lock.locked && lock.pid < |s.procs| && s.procs[p].pc.l in s.procs[lock.pid].held)
  {
    RunInv(states, nlock, nproc);
    var s := states[|states| - 1];
    assert SleeperOk(s, s.procs[p]);
    var l := s.procs[p].pc.l;
    if WakePending(s, l) {
      var w :| 0 <= w < |s.procs| && s.procs[w].pc.WillWake(l);
      assert s.procs[w].pc.HoldsSpin(l);
    }
  }
}

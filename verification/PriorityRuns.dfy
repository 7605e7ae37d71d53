/** Ticks, setPriority and boosting on several CPUs: update_proc takes no lock, so its test and its decrement come apart. */
module PriorityRuns {
  import opened Mlfq

  /** What a CPU does: nothing, a process, or a process whose tick has passed the test and is about to lower the priority. */
  datatype Cpu = Off | On(p: nat) | MidTick(p: nat)

  datatype State = State(procs: seq<Process>, size: seq<int>, cpus: seq<Cpu>)

  /** c is the CPU that acts. With its own tick under way it does nothing else: the timer gate keeps interrupts off. */
  datatype Step =
    | Dispatch(c: nat, p: nat)
    | Yield(c: nat)
    | Sleep(c: nat)
    | Wake(c: nat, p: nat)
    | TickTest(c: nat)       // the tick up to the test of the priority, or to its end if that is not reached or fails
    | TickDecrement(c: nat)  // from the decrement on
    | SetPriority(c: nat, pid: int, priority: int)
    | BoostTurn(c: nat, p: nat, num: nat)  // one turn of a loop of priority_boosting, which takes no lock either

  /** The tick of process me passes the test before the decrement. */
  predicate Passes(me: Process) {
    me.level == 2 && Expires(me) && me.priority >= 1
  }

  /** The table after a whole tick of process me. */
  function TickedTable(procs: seq<Process>, size: seq<int>, me: nat): (r: seq<Process>)
    requires |size| == 3 && me < |procs| && 0 <= procs[me].level <= 2
    ensures |r| == |procs|
  {
    var p := procs[me];
    var down := Expires(p) && p.level < 2;
    var others := seq(|procs|, i requires 0 <= i < |procs| => Shifted(procs[i], p));
    others[me := p.(level := if down then p.level + 1 else p.level,
                    qnum := (if down then size[p.level + 1] + 1 else size[p.level]) - 1,
                    ticks := if Expires(p) then 0 else p.ticks + 1,
                    priority := if Passes(p) then p.priority - 1 else p.priority)]
  }

  function TickedSizes(size: seq<int>, p: Process): (r: seq<int>)
    requires |size| == 3 && 0 <= p.level <= 2
    ensures |r| == 3
  {
    if Expires(p) && p.level < 2 then size[p.level := size[p.level] - 1][p.level + 1 := size[p.level + 1] + 1] else size
  }

  /** It is the tick of the in-place scheduler, undisturbed. */
  lemma TickedTableTicks(procs: seq<Process>, size: seq<int>, me: nat)
    requires |size| == 3 && me < |procs| && 0 <= procs[me].level <= 2
    ensures Ticked(procs, size, TickedTable(procs, size, me), TickedSizes(size, procs[me]), me)
  {
  }

  /** The first live process with the pid gets the priority. */
  function WithPriority(procs: seq<Process>, pid: int, priority: int): (r: seq<Process>)
    ensures |r| == |procs|
    ensures forall i :: 0 <= i < |procs| ==> r[i] == procs[i] || r[i] == procs[i].(priority := priority)
  {
    if procs == [] then []
    else if Live(procs[0]) && procs[0].pid == pid then [procs[0].(priority := priority)] + procs[1..]
    else [procs[0]] + WithPriority(procs[1..], pid, priority)
  }

  ghost predicate Enabled(s: State, step: Step) {
    && step.c < |s.cpus| && |s.size| == 3
    && match step
       case Dispatch(c, p) => s.cpus[c] == Off && p < |s.procs| && Chosen(s.procs, |s.procs|, p)
       case Wake(c, p) => !s.cpus[c].MidTick? && p < |s.procs| && s.procs[p].state == Sleeping
       case TickDecrement(c) => s.cpus[c].MidTick? && s.cpus[c].p < |s.procs|
       case BoostTurn(c, p, _) => s.cpus[c].On? && p < |s.procs| && Live(s.procs[p])
       case TickTest(c) => s.cpus[c].On? && s.cpus[c].p < |s.procs| && 0 <= s.procs[s.cpus[c].p].level <= 2
       case _ => s.cpus[step.c].On? && s.cpus[step.c].p < |s.procs|
  }

  function Next(s: State, step: Step): State
    requires Enabled(s, step)
  {
    var c := step.c;
    match step
    case Dispatch(_, p) => s.(procs := s.procs[p := s.procs[p].(state := Running)], cpus := s.cpus[c := On(p)])
    case Yield(_) => s.(procs := s.procs[s.cpus[c].p := s.procs[s.cpus[c].p].(state := Runnable)], cpus := s.cpus[c := Off])
    case Sleep(_) => s.(procs := s.procs[s.cpus[c].p := s.procs[s.cpus[c].p].(state := Sleeping)], cpus := s.cpus[c := Off])
    case Wake(_, p) => s.(procs := s.procs[p := s.procs[p].(state := Runnable)])
    case TickTest(_) =>
      var me := s.cpus[c].p;
      var p := s.procs[me];
      var procs := TickedTable(s.procs, s.size, me);
      if Passes(p) then State(procs[me := procs[me].(priority := p.priority)], s.size, s.cpus[c := MidTick(me)])
      else State(procs, TickedSizes(s.size, p), s.cpus)
    case TickDecrement(_) =>
      var me := s.cpus[c].p;
      var p := s.procs[me];
      s.(procs := s.procs[me := p.(priority := p.priority - 1, qnum := s.size[2] - 1)], cpus := s.cpus[c := On(me)])
    case SetPriority(_, pid, priority) =>
      if priority < 0 || priority > 3 then s else s.(procs := WithPriority(s.procs, pid, priority))
    case BoostTurn(_, p, num) => s.(procs := s.procs[p := s.procs[p].(level := 0, priority := 3, ticks := 0, qnum := num)])
  }

  /** Test and decrement with nobody in between make up the whole tick. */
  lemma WholeTick(s: State, c: nat)
    requires Enabled(s, TickTest(c))
    ensures var me := s.cpus[c].p;
            var s1 := Next(s, TickTest(c));
            if Passes(s.procs[me]) then
              Enabled(s1, TickDecrement(c)) && Next(s1, TickDecrement(c)) == s.(procs := TickedTable(s.procs, s.size, me))
            else s1 == s.(procs := TickedTable(s.procs, s.size, me), size := TickedSizes(s.size, s.procs[me]))
  {
    if Passes(s.procs[s.cpus[c].p]) {
      var me := s.cpus[c].p;
      var s2 := Next(Next(s, TickTest(c)), TickDecrement(c));
      assert s2.procs == TickedTable(s.procs, s.size, me);
      assert s2.cpus == s.cpus;
    }
  }

  /** A start: a table in range, with no CPU at work yet. */
  ghost predicate Start(s: State) {
    && |s.size| == 3 && (forall p :: 0 <= p < |s.procs| ==> InRange(s.procs[p]))
    && forall c :: 0 <= c < |s.cpus| ==> s.cpus[c] == Off
  }

  ghost predicate IsRun(states: seq<State>, steps: seq<Step>, ncpu: nat) {
    && |states| == |steps| + 1 && Start(states[0]) && |states[0].cpus| == ncpu
    && forall i :: 0 <= i < |steps| ==> Enabled(states[i], steps[i]) && states[i + 1] == Next(states[i], steps[i])
  }

  ghost predicate Reachable(s: State, ncpu: nat) {
    exists states, steps :: IsRun(states, steps, ncpu) && states[|steps|] == s
  }

  ghost predicate PrioritiesInRange(s: State) {
    forall p :: 0 <= p < |s.procs| ==> 0 <= s.procs[p].priority <= 3
  }

  // ---------------------------------------------------------------- one CPU

  /** With one CPU a passed test still holds at the decrement. */
  ghost predicate Inv(s: State) {
    && |s.size| == 3 && (forall p :: 0 <= p < |s.procs| ==> InRange(s.procs[p]))
    && forall c :: 0 <= c < |s.cpus| ==> CpuOk(s, s.cpus[c])
  }

  ghost predicate CpuOk(s: State, cpu: Cpu) {
    cpu.MidTick? ==> cpu.p < |s.procs| && s.procs[cpu.p].priority >= 1
  }

  lemma InvNext(s: State, step: Step)
    requires Inv(s) && Enabled(s, step) && |s.cpus| <= 1
    ensures Inv(Next(s, step)) && |Next(s, step).cpus| == |s.cpus|
  {
    if step.TickTest? {
      TickTestInv(s, step.c);
    } else {
      OtherTable(s, step);
      OtherCpus(s, step);
      hide Next, Enabled;
    }
  }

  lemma OtherTable(s: State, step: Step)
    requires Inv(s) && Enabled(s, step) && |s.cpus| <= 1 && !step.TickTest?
    ensures var s' := Next(s, step); |s'.size| == 3 && forall p :: 0 <= p < |s'.procs| ==> InRange(s'.procs[p])
  {
    hide TickedTable, TickedSizes, Chosen, WithPriority;
    if step.SetPriority? {
      PrioritySet(s.procs, step.pid, step.priority);
    }
  }

  lemma OtherCpus(s: State, step: Step)
    requires Enabled(s, step) && |s.cpus| <= 1 && !step.TickTest?
    ensures var s' := Next(s, step); |s'.cpus| == |s.cpus| && forall c :: 0 <= c < |s'.cpus| ==> !s'.cpus[c].MidTick?
  {
    hide TickedTable, TickedSizes, Chosen, WithPriority;
  }

  lemma PrioritySet(procs: seq<Process>, pid: int, priority: int)
    ensures var r := WithPriority(procs, pid, priority);
            |r| == |procs| && forall i :: 0 <= i < |procs| ==> r[i] == procs[i] || r[i] == procs[i].(priority := priority)
  {
  }

  lemma TickTestInv(s: State, c: nat)
    requires Inv(s) && Enabled(s, TickTest(c)) && |s.cpus| <= 1
    ensures Inv(Next(s, TickTest(c))) && |Next(s, TickTest(c)).cpus| == |s.cpus|
  {
    var s' := Next(s, TickTest(c));
    var me := s.cpus[c].p;
    TickedInRange(s.procs, s.size, me);
    hide TickedTable, InRange;
    assert s'.procs == TickedTable(s.procs, s.size, me)[me := s'.procs[me]];
    assert InRange(s'.procs[me]) && (s'.cpus[c].MidTick? ==> s'.procs[me].priority >= 1) by {
      TestedInRange(s, c);
    }
  }

  lemma TickedInRange(procs: seq<Process>, size: seq<int>, me: nat)
    requires |size| == 3 && me < |procs| && InRange(procs[me]) && forall p :: 0 <= p < |procs| ==> InRange(procs[p])
    ensures forall p :: 0 <= p < |procs| ==> InRange(TickedTable(procs, size, me)[p])
  {
  }

  lemma TestedInRange(s: State, c: nat)
    requires Inv(s) && Enabled(s, TickTest(c))
    ensures var s' := Next(s, TickTest(c)); var me := s.cpus[c].p;
            me < |s'.procs| && c < |s'.cpus| && InRange(s'.procs[me]) && (s'.cpus[c].MidTick? ==> s'.cpus[c].p == me && s'.procs[me].priority >= 1)
  {
    TickedInRange(s.procs, s.size, s.cpus[c].p);
  }

  lemma {:induction false} RunInv(states: seq<State>, steps: seq<Step>, ncpu: nat, i: nat)
    requires IsRun(states, steps, ncpu) && ncpu <= 1 && i < |states|
    ensures Inv(states[i]) && |states[i].cpus| == ncpu
  {
    hide Inv, Next, Enabled, Start;
    if i == 0 {
      StartInv(states[0]);
    } else {
      RunInv(states, steps, ncpu, i - 1);
      InvNext(states[i - 1], steps[i - 1]);
      assert states[i - 1 + 1] == Next(states[i - 1], steps[i - 1]);
    }
  }

  lemma StartInv(s: State)
    requires Start(s)
    ensures Inv(s)
  {
  }

  // ---------------------------------------------------------------- any number of CPUs

  /** The decrement of a priority that has become 0 since the test. */
  ghost predicate DropsZero(s: State, step: Step) {
    Enabled(s, step) && step.TickDecrement? && s.procs[s.cpus[step.c].p].priority == 0
  }

  /** A step takes a priority out of its range just when it is such a decrement. */
  lemma StepRange(s: State, step: Step)
    requires PrioritiesInRange(s) && Enabled(s, step)
    ensures PrioritiesInRange(Next(s, step)) <==> !DropsZero(s, step)
  {
    var s' := Next(s, step);
    if DropsZero(s, step) {
      assert s'.procs[s.cpus[step.c].p].priority == -1;
    }
  }

  /** In a run all priorities are in range up to any moment just when no such decrement came before. */
  lemma {:induction false} RunRange(states: seq<State>, steps: seq<Step>, ncpu: nat, i: nat)
    requires IsRun(states, steps, ncpu) && i < |states|
    ensures (forall k :: 0 <= k <= i ==> PrioritiesInRange(states[k])) <==> (forall k :: 0 <= k < i ==> !DropsZero(states[k], steps[k]))
  {
    hide PrioritiesInRange, DropsZero, Next, Enabled;
    if i == 0 {
      StartRange(states[0]);
    } else {
      RunRange(states, steps, ncpu, i - 1);
      assert states[i - 1 + 1] == Next(states[i - 1], steps[i - 1]);
      if PrioritiesInRange(states[i - 1]) {
        StepRange(states[i - 1], steps[i - 1]);
        assert PrioritiesInRange(states[i]) <==> !DropsZero(states[i - 1], steps[i - 1]);
      }
    }
  }

  lemma StartRange(s: State)
    requires Start(s)
    ensures PrioritiesInRange(s)
  {
  }

  // ---------------------------------------------------------------- two CPUs

  lemma StepReachable(s: State, step: Step, ncpu: nat)
    requires Reachable(s, ncpu) && Enabled(s, step)
    ensures Reachable(Next(s, step), ncpu)
  {
    hide Next, Enabled, Start;
    var states, steps :| IsRun(states, steps, ncpu) && states[|steps|] == s;
    var states', steps' := states + [Next(s, step)], steps + [step];
    forall i | 0 <= i < |steps'|
      ensures Enabled(states'[i], steps'[i]) && states'[i + 1] == Next(states'[i], steps'[i])
    {
      if i < |steps| {
        assert states'[i] == states[i] && steps'[i] == steps[i] && states'[i + 1] == states[i + 1];
      }
    }
    assert IsRun(states', steps', ncpu) && states'[|steps'|] == Next(s, step);
  }

  /** Two processes, just forked, and CPUs with nothing to do yet. */
  function TwoForked(ncpu: nat): State {
    State([Process(Runnable, 1, 0, 0, 0, 3), Process(Runnable, 2, 0, 1, 0, 3)], [2, 0, 0], seq(ncpu, _ => Off))
  }

  /** CPU 0 runs process 0, which has come to a level and used some of its time there; CPU 1 runs process 1. */
  ghost predicate Running2(s: State, ncpu: nat, level: int, ticks: int) {
    && |s.procs| == 2 && |s.size| == 3 && |s.cpus| == ncpu >= 2 && s.cpus[0] == On(0) && s.cpus[1] == On(1)
    && s.procs[0].state == Running && s.procs[0].pid == 1 && s.procs[0].priority == 3
    && s.procs[0].level == level && s.procs[0].ticks == ticks
    && s.procs[1].state == Running && s.procs[1].pid == 2
  }

  lemma Dispatched2(ncpu: nat) returns (s: State)
    requires ncpu >= 2
    ensures Reachable(s, ncpu) && Running2(s, ncpu, 0, 0)
  {
    var s0 := TwoForked(ncpu);
    assert Reachable(s0, ncpu) by {
      var states: seq<State>, steps: seq<Step> := [s0], [];
      assert IsRun(states, steps, ncpu) && states[|steps|] == s0;
    }
    hide Reachable;
    assert Chosen(s0.procs, 2, 0);
    StepReachable(s0, Dispatch(0, 0), ncpu);
    var s1 := Next(s0, Dispatch(0, 0));
    assert Chosen(s1.procs, 2, 1);
    StepReachable(s1, Dispatch(1, 1), ncpu);
    s := Next(s1, Dispatch(1, 1));
  }

  /** A tick of process 0, which yields and is chosen again. */
  lemma TickRound(s: State, ncpu: nat, level: int, ticks: int) returns (s': State)
    requires Reachable(s, ncpu) && Running2(s, ncpu, level, ticks) && 0 <= level <= 2 && 0 <= ticks < Quantum(level)
    requires !(level == 2 && ticks == 7)
    ensures Reachable(s', ncpu)
    ensures if ticks + 1 == Quantum(level) then Running2(s', ncpu, level + 1, 0) else Running2(s', ncpu, level, ticks + 1)
  {
    hide Reachable;
    StepReachable(s, TickTest(0), ncpu);
    var s1 := Next(s, TickTest(0));
    StepReachable(s1, Yield(0), ncpu);
    var s2 := Next(s1, Yield(0));
    assert Chosen(s2.procs, 2, 0);
    StepReachable(s2, Dispatch(0, 0), ncpu);
    s' := Next(s2, Dispatch(0, 0));
  }

  lemma {:induction false} TicksDown(s: State, ncpu: nat, level: int, ticks: int) returns (s': State)
    requires Reachable(s, ncpu) && Running2(s, ncpu, level, ticks) && 0 <= level <= 2 && 0 <= ticks < Quantum(level)
    ensures Reachable(s', ncpu) && Running2(s', ncpu, 2, 7)
    decreases 2 - level, Quantum(level) - ticks
  {
    if level == 2 && ticks == 7 {
      s' := s;
    } else {
      s' := TickRound(s, ncpu, level, ticks);
      if ticks + 1 == Quantum(level) {
        s' := TicksDown(s', ncpu, level + 1, 0);
      } else {
        s' := TicksDown(s', ncpu, level, ticks + 1);
      }
    }
  }

  /**
   * From two new processes: the first ticks down to level 2, and its eighth tick there passes the test; then the second,
   * on another CPU, sets its priority to 0; then comes the decrement.
   */
  lemma PriorityLost(ncpu: nat) returns (s: State)
    requires ncpu >= 2
    ensures Reachable(s, ncpu) && |s.procs| == 2 && s.procs[0].priority == -1
  {
    hide Reachable;
    s := Dispatched2(ncpu);
    s := TicksDown(s, ncpu, 0, 0);
    StepReachable(s, TickTest(0), ncpu);
    var s1 := Next(s, TickTest(0));
    StepReachable(s1, SetPriority(1, 1, 0), ncpu);
    var s2 := Next(s1, SetPriority(1, 1, 0));
    StepReachable(s2, TickDecrement(0), ncpu);
    s := Next(s2, TickDecrement(0));
  }

  /** Priorities stay from 0 to 3 in every run if and only if there is at most one CPU. */
  lemma PrioritiesNeedOneCpu(ncpu: nat)
    ensures (forall s :: Reachable(s, ncpu) ==> PrioritiesInRange(s)) <==> ncpu <= 1
  {
    if ncpu <= 1 {
      forall s | Reachable(s, ncpu)
        ensures PrioritiesInRange(s)
      {
        var states, steps :| IsRun(states, steps, ncpu) && states[|steps|] == s;
        RunInv(states, steps, ncpu, |steps|);
      }
    } else {
      var s := PriorityLost(ncpu);
      assert !PrioritiesInRange(s);
    }
  }
}

/** Many processes on one pipe: what they read, and who may sleep. */
module PipeRuns {
  import opened Pipes

  /** What a process is doing: nothing here, about to enter the pipe's lock in a call, or asleep in it. */
  datatype Process = Idle | Reading(n: nat) | ReadSleep(n: nat) | Writing(todo: seq<byte>) | WriteSleep(todo: seq<byte>)

  datatype State = State(
    contents: seq<byte>, readopen: bool, writeopen: bool,
    procs: seq<Process>, killed: seq<bool>,
    sent: seq<byte>, received: seq<byte>)

  datatype Act = StartRead(p: nat, n: nat) | StartWrite(p: nat, todo: seq<byte>) | Enter(p: nat) | Close(writable: bool) | Kill(p: nat)

  /** wakeup(&p->nread) */
  function WakeReaders(procs: seq<Process>): (r: seq<Process>)
    ensures |r| == |procs|
  {
    seq(|procs|, p requires 0 <= p < |procs| => if procs[p].ReadSleep? then Reading(procs[p].n) else procs[p])
  }

  /** wakeup(&p->nwrite) */
  function WakeWriters(procs: seq<Process>): (r: seq<Process>)
    ensures |r| == |procs|
  {
    seq(|procs|, p requires 0 <= p < |procs| => if procs[p].WriteSleep? then Writing(procs[p].todo) else procs[p])
  }

  function AfterWrite(s: State, p: nat): State
    requires p < |s.procs| == |s.killed| && s.procs[p].Writing? && |s.contents| <= PIPESIZE
  {
    var todo := s.procs[p].todo;
    var k := Fits(s.contents, todo);
    var outcome := WriteOutcome(s.contents, todo, s.readopen, s.killed[p]);
    s.(contents := s.contents + todo[..k], sent := s.sent + todo[..k],
       procs := match outcome
                case Done => WakeReaders(s.procs)[p := Idle]
                case Failed => s.procs[p := Idle]
                case Asleep => WakeReaders(s.procs)[p := WriteSleep(todo[k..])])
  }

  function AfterRead(s: State, p: nat): State
    requires p < |s.procs| == |s.killed| && s.procs[p].Reading?
  {
    var n := s.procs[p].n;
    match ReadOutcome(s.contents, s.writeopen, s.killed[p])
    case Done =>
      var k := Taken(s.contents, n);
      s.(contents := s.contents[k..], received := s.received + s.contents[..k], procs := WakeWriters(s.procs)[p := Idle])
    case Failed => s.(procs := s.procs[p := Idle])
    case Asleep => s.(procs := s.procs[p := ReadSleep(n)])
  }

  predicate Busy(q: Process, writing: bool) {
    if writing then q.Writing? || q.WriteSleep? else q.Reading? || q.ReadSleep?
  }

  /** An end is open while a process is in a call on it: the open file holds a reference. */
  ghost predicate Enabled(s: State, a: Act) {
    && |s.killed| == |s.procs| && |s.contents| <= PIPESIZE
    && match a
       case StartRead(p, _) => p < |s.procs| && s.procs[p].Idle? && s.readopen
       case StartWrite(p, _) => p < |s.procs| && s.procs[p].Idle? && s.writeopen
       case Enter(p) => p < |s.procs| && (s.procs[p].Reading? || s.procs[p].Writing?)
       case Close(writable) => forall p :: 0 <= p < |s.procs| ==> !Busy(s.procs[p], writable)
       case Kill(p) => p < |s.procs|
  }

  function After(s: State, a: Act): State
    requires Enabled(s, a)
  {
    match a
    case StartRead(p, n) => s.(procs := s.procs[p := Reading(n)])
    case StartWrite(p, todo) => s.(procs := s.procs[p := Writing(todo)])
    case Enter(p) => if s.procs[p].Writing? then AfterWrite(s, p) else AfterRead(s, p)
    case Close(writable) =>
      if writable then s.(writeopen := false, procs := WakeReaders(s.procs))
      else s.(readopen := false, procs := WakeWriters(s.procs))
    case Kill(p) =>
      var q := s.procs[p];
      s.(killed := s.killed[p := true],
         procs := s.procs[p := if q.ReadSleep? then Reading(q.n) else if q.WriteSleep? then Writing(q.todo) else q])
  }

  ghost predicate Run(states: seq<State>, acts: seq<Act>) {
    && |states| == |acts| + 1
    && states[0].contents == [] && states[0].sent == [] && states[0].received == [] && states[0].readopen && states[0].writeopen
    && (forall p :: 0 <= p < |states[0].procs| ==> states[0].procs[p] == Idle)
    && forall i :: 0 <= i < |acts| ==> Enabled(states[i], acts[i]) && states[i + 1] == After(states[i], acts[i])
  }

  /** A killed writer puts bytes into a pipe with an open reader until it is full, and gives up without waking anyone. */
  ghost predicate GivesUp(s: State, a: Act) {
    && Enabled(s, a) && a.Enter? && s.procs[a.p].Writing? && s.killed[a.p] && s.readopen
    && 0 < PIPESIZE - |s.contents| < |s.procs[a.p].todo|
  }

  ghost predicate ReaderSleeps(s: State) {
    exists p :: 0 <= p < |s.procs| && s.procs[p].ReadSleep?
  }

  /** The step loses a wakeup: a killed writer gives up while a reader sleeps. */
  ghost predicate LosesWakeup(s: State, a: Act) {
    GivesUp(s, a) && ReaderSleeps(s)
  }

  /** Bytes come out as they went in, and writers sleep only on a full pipe with an open reader. */
  ghost predicate Inv(s: State) {
    && s.sent == s.received + s.contents && |s.contents| <= PIPESIZE
    && forall p :: 0 <= p < |s.procs| ==> Fine(s, s.procs[p])
  }

  ghost predicate Fine(s: State, q: Process) {
    && (Busy(q, false) ==> s.readopen) && (Busy(q, true) ==> s.writeopen)
    && (q.WriteSleep? ==> |s.contents| == PIPESIZE && s.readopen && q.todo != [])
  }

  /** Readers sleep only on an empty pipe with an open writer. */
  ghost predicate ReadersFine(s: State) {
    forall p :: 0 <= p < |s.procs| && s.procs[p].ReadSleep? ==> s.contents == [] && s.writeopen
  }

  lemma StepInv(s: State, a: Act)
    requires Inv(s) && Enabled(s, a)
    ensures Inv(After(s, a))
  {
    var s' := After(s, a);
    forall p | 0 <= p < |s'.procs|
      ensures Fine(s', s'.procs[p])
    {
      assert Fine(s, s.procs[p]);
    }
    if a.Enter? {
      assert Fine(s, s.procs[a.p]);
    }
  }

  /** A step keeps the readers' sleep justified just when it loses no wakeup. */
  lemma StepReaders(s: State, a: Act)
    requires Inv(s) && Enabled(s, a) && ReadersFine(s)
    ensures ReadersFine(After(s, a)) <==> !LosesWakeup(s, a)
  {
    var s' := After(s, a);
    if LosesWakeup(s, a) {
      var p :| 0 <= p < |s.procs| && s.procs[p].ReadSleep?;
      assert s'.procs[p].ReadSleep? && s'.contents != [];
    } else {
      forall p | 0 <= p < |s'.procs| && s'.procs[p].ReadSleep?
        ensures s'.contents == [] && s'.writeopen
      {
        assert Fine(s, s.procs[p]);
      }
    }
  }

  lemma {:induction false} RunInv(states: seq<State>, acts: seq<Act>, i: nat)
    requires Run(states, acts) && i < |states|
    ensures Inv(states[i])
  {
    if i > 0 {
      RunInv(states, acts, i - 1);
      StepInv(states[i - 1], acts[i - 1]);
    }
  }

  /** In a run readers sleep only on an empty pipe with an open writer, up to any moment, just when no step before lost a wakeup. */
  lemma {:induction false} ReadersJustified(states: seq<State>, acts: seq<Act>, i: nat)
    requires Run(states, acts) && i < |states|
    ensures (forall k :: 0 <= k <= i ==> ReadersFine(states[k])) <==> (forall k :: 0 <= k < i ==> !LosesWakeup(states[k], acts[k]))
  {
    if i > 0 {
      ReadersJustified(states, acts, i - 1);
      if ReadersFine(states[i - 1]) {
        RunInv(states, acts, i - 1);
        StepReaders(states[i - 1], acts[i - 1]);
        assert states[i - 1 + 1] == After(states[i - 1], acts[i - 1]);
        assert ReadersFine(states[i]) <==> !LosesWakeup(states[i - 1], acts[i - 1]);
      }
    } else {
      assert ReadersFine(states[0]);
    }
  }

  /** In every run the bytes read so far and those in the ring are the bytes written so far, in order. */
  lemma Fifo(states: seq<State>, acts: seq<Act>, i: nat)
    requires Run(states, acts) && i < |states|
    ensures states[i].sent == states[i].received + states[i].contents && |states[i].contents| <= PIPESIZE
  {
    RunInv(states, acts, i);
  }

  /** Readers and writers never sleep at the same time, unless a wakeup has been lost. */
  lemma NoDeadlock(states: seq<State>, acts: seq<Act>, i: nat, p: nat, q: nat)
    requires Run(states, acts) && i < |states| && p < |states[i].procs| && q < |states[i].procs|
    requires forall k :: 0 <= k < i ==> !LosesWakeup(states[k], acts[k])
    ensures !(states[i].procs[p].ReadSleep? && states[i].procs[q].WriteSleep?)
  {
    RunInv(states, acts, i);
    ReadersJustified(states, acts, i);
    assert ReadersFine(states[i]);
    assert Fine(states[i], states[i].procs[q]);
  }

  /** After a killed writer has given up, a reader may sleep on a full pipe. */
  lemma LostWakeup(bytes: seq<byte>)
    requires |bytes| == PIPESIZE + 1
    ensures exists states: seq<State>, acts: seq<Act> ::
              && Run(states, acts) && |acts| == 5 && |states[5].procs| == 2 && states[5].procs[0].ReadSleep?
              && |states[5].contents| == PIPESIZE
  {
    var s0 := State([], true, true, [Idle, Idle], [false, false], [], []);
    var s1 := After(s0, StartRead(0, 1));
    var s2 := After(s1, Enter(0));
    var s3 := After(s2, StartWrite(1, bytes));
    var s4 := After(s3, Kill(1));
    var s5 := After(s4, Enter(1));
    assert Run([s0, s1, s2, s3, s4, s5], [StartRead(0, 1), Enter(0), StartWrite(1, bytes), Kill(1), Enter(1)]);
  }

  // ---------------------------------------------------------------- end of file, and a pipe nobody reads

  /** Once an end is closed nobody is busy with it, and nobody sleeps at the other. */
  ghost predicate Closed(s: State) {
    && (!s.writeopen ==> forall p :: 0 <= p < |s.procs| ==> !Busy(s.procs[p], true) && !s.procs[p].ReadSleep?)
    && (!s.readopen ==> forall p :: 0 <= p < |s.procs| ==> !Busy(s.procs[p], false) && !s.procs[p].WriteSleep?)
  }

  lemma ClosedNext(s: State, a: Act)
    requires Closed(s) && Enabled(s, a)
    ensures Closed(After(s, a))
    ensures !s.writeopen ==> !After(s, a).writeopen && After(s, a).sent == s.sent
    ensures !s.readopen ==> !After(s, a).readopen && After(s, a).received == s.received
  {
  }

  lemma {:induction false} ClosedInRun(states: seq<State>, acts: seq<Act>, i: nat)
    requires Run(states, acts) && i < |states|
    ensures Closed(states[i])
  {
    if i > 0 {
      hide Closed, After, Enabled;
      ClosedInRun(states, acts, i - 1);
      ClosedNext(states[i - 1], acts[i - 1]);
      assert states[i - 1 + 1] == After(states[i - 1], acts[i - 1]);
    } else {
      assert forall p :: 0 <= p < |states[0].procs| ==> states[0].procs[p] == Idle;
    }
  }

  /**
   * In every run, once the write end is closed: a read never fails and never sleeps, whether the reader is killed or not; it
   * takes the oldest bytes, as many as it asks for or there are, and none just when there are none or it asks for none.
   */
  lemma ClosedRead(states: seq<State>, acts: seq<Act>, i: nat)
    requires Run(states, acts) && i < |acts| && !states[i].writeopen && acts[i].Enter?
    ensures acts[i].p < |states[i].procs| && states[i].procs[acts[i].p].Reading?
    ensures states[i + 1].procs[acts[i].p] == Idle
    ensures var n, all := states[i].procs[acts[i].p].n, states[i].contents;
            exists k :: 0 <= k <= n && k <= |all| && (k == n || k == |all|)
                        && states[i + 1].received == states[i].received + all[..k] && states[i + 1].contents == all[k..]
  {
    ClosedInRun(states, acts, i);
    RunInv(states, acts, i);
    var k := Taken(states[i].contents, states[i].procs[acts[i].p].n);
    assert states[i + 1].contents == states[i].contents[k..];
  }

  /** In every run, a read of an empty pipe with an open writer fails if the reader is killed, and sleeps if it is not. */
  lemma EmptyRead(states: seq<State>, acts: seq<Act>, i: nat)
    requires Run(states, acts) && i < |acts| && states[i].writeopen && states[i].contents == []
    requires acts[i].Enter? && acts[i].p < |states[i].procs| && states[i].procs[acts[i].p].Reading?
    ensures var p, s, s' := acts[i].p, states[i], states[i + 1];
            && p < |s.killed| && s' == s.(procs := s.procs[p := if s.killed[p] then Idle else ReadSleep(s.procs[p].n)])
  {
  }

  /** How many reads of at least one byte there are among the acts from i up to j. */
  ghost function Reads(states: seq<State>, acts: seq<Act>, i: nat, j: nat): nat
    requires |states| == |acts| + 1 && i <= j <= |acts|
  {
    if i == j then 0 else Reads(states, acts, i, j - 1) + if IsRead(states[j - 1], acts[j - 1]) then 1 else 0
  }

  predicate IsRead(s: State, a: Act) {
    a.Enter? && a.p < |s.procs| && s.procs[a.p].Reading? && s.procs[a.p].n > 0
  }

  lemma {:induction false} DrainSteps(states: seq<State>, acts: seq<Act>, i: nat, j: nat)
    requires Run(states, acts) && i <= j <= |acts| && !states[i].writeopen
    ensures !states[j].writeopen && states[j].sent == states[i].sent
    ensures |states[j].contents| + Reads(states, acts, i, j) <= |states[i].contents| || states[j].contents == []
  {
    if i < j {
      hide Run;
      DrainSteps(states, acts, i, j - 1);
      DrainStep(states, acts, j - 1);
    }
  }

  lemma DrainStep(states: seq<State>, acts: seq<Act>, i: nat)
    requires Run(states, acts) && i < |acts| && !states[i].writeopen
    ensures !states[i + 1].writeopen && states[i + 1].sent == states[i].sent
    ensures if IsRead(states[i], acts[i]) then |states[i + 1].contents| < |states[i].contents| || states[i + 1].contents == []
            else |states[i + 1].contents| <= |states[i].contents|
  {
    ClosedInRun(states, acts, i);
    ClosedNext(states[i], acts[i]);
    if acts[i].Enter? {
      ClosedRead(states, acts, i);
    }
  }

  /** In every run, after the write end is closed, PIPESIZE reads at most bring the readers all that was ever written. */
  lemma EndOfFile(states: seq<State>, acts: seq<Act>, i: nat, j: nat)
    requires Run(states, acts) && i <= j <= |acts| && !states[i].writeopen && Reads(states, acts, i, j) >= PIPESIZE
    ensures states[j].contents == [] && states[j].received == states[j].sent == states[i].sent
  {
    DrainSteps(states, acts, i, j);
    RunInv(states, acts, i);
    RunInv(states, acts, j);
  }

  /** In every run, once the read end is closed, a write never sleeps: it ends, all its bytes in the pipe or not. */
  lemma ClosedWrite(states: seq<State>, acts: seq<Act>, i: nat)
    requires Run(states, acts) && i < |acts| && !states[i].readopen && acts[i].Enter?
    ensures acts[i].p < |states[i].procs| && states[i].procs[acts[i].p].Writing?
    ensures states[i + 1].procs[acts[i].p] == Idle
    ensures var todo, room := states[i].procs[acts[i].p].todo, PIPESIZE - |states[i].contents|;
            exists k :: 0 <= k <= |todo| && k <= room && (k == |todo| || k == room)
                        && states[i + 1].sent == states[i].sent + todo[..k] && states[i + 1].contents == states[i].contents + todo[..k]
  {
    ClosedInRun(states, acts, i);
    RunInv(states, acts, i);
    var k := Fits(states[i].contents, states[i].procs[acts[i].p].todo);
    assert states[i + 1].contents == states[i].contents + states[i].procs[acts[i].p].todo[..k];
  }
}

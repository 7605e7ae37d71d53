/** Operations and crashes together: what a run of the log leaves on the disk, operation by operation. */
module DurableRuns {
  import opened Blocks
  import opened RedoSpec
  import opened CrashRuns
  import opened GroupCommit
  import opened LogCapacity

  /**
   * One life of the system, from a restart to the next: the run of its processes, the contents each commit found in the
   * cache, how each commit ended, and the images between the commits.
   */
  datatype Life = Life(states: seq<State>, nproc: nat, contents: seq<seq<Block>>, fates: seq<Fate>, images: seq<Image>)
  {
    function Last(): State
      requires states != []
    {
      states[|states| - 1]
    }

    /** The run commits these contents; a crash may fall into the last commit only. */
    ghost predicate Commits(r: Region) {
      && IsRun(states, r.size, nproc)
      && |images| == |contents| + 1 && |fates| == |contents|
      && LogsHomes(Last(), |images[0]|, r)
      && var done := |Last().committed|;
         && done <= |contents| <= done + 1
         && (forall t :: 0 <= t < done ==> fates[t] == Completed)
         && (|contents| == done + 1 ==>
               fates[done].Crashed? && exists p :: 0 <= p < |Last().procs| && Last().procs[p].pc == Committing)
         && forall t :: 0 <= t < |contents| ==> |contents[t]| == |Txn(Last().committed, Last().blocks, t)|
    }

    /**
     * Every commit that reaches the disk fits the log. With a log of at least NBUF blocks, as mkfs makes, that is always so:
     * commit panics before its first write when as many blocks are pinned as there are buffers.
     */
    predicate Roomy(r: Region) {
      Spacious(r.size, nproc) || forall t :: 0 <= t < |contents| ==> |contents[t]| < r.size
    }

    function Transactions(): (ts: seq<Transaction>)
      requires states != []
      ensures |ts| == |contents|
    {
      seq(|contents|, t requires 0 <= t < |contents| => Transaction(Numbers(Txn(Last().committed, Last().blocks, t)), contents[t]))
    }

    /** Each commit does to the disk what commit does when the log can hold its blocks. */
    ghost predicate OnDisk(r: Region)
      requires Commits(r)
    {
      forall t :: 0 <= t < |contents| ==>
        Loggable(images[t], r, Transactions()[t].blocks) ==> Epoch(images[t], r, Transactions()[t], fates[t], images[t + 1])
    }

    /** Operation o left all its blocks on the disk, with what the commit found in the cache for them, or none. */
    ghost predicate AllOrNone(r: Region, o: nat)
      requires Commits(r) && o < |Last().ops|
    {
      var op := Last().ops[o];
      var ts := Transactions();
      op.txn < |ts| ==>
        if Durable(ts[op.txn], fates[op.txn]) then
          forall bn: nat :: bn in op.wrote ==> Holds(images[op.txn + 1], ts[op.txn], bn)
        else SameHome(images[op.txn + 1], images[op.txn], r)
    }
  }

  /** The image has a block as a transaction logged it. */
  ghost predicate Holds(image: Image, t: Transaction, bn: nat) {
    bn < |image| && exists i :: 0 <= i < |t.blocks| && i < |t.xs| && t.blocks[i] == bn && image[bn] == t.xs[i]
  }

  /** Every commit of a life can be logged, so its history is one of the kind the crash lemmas are about. */
  lemma {:induction false} LifeIsHistory(life: Life, r: Region, n: nat)
    requires r.size > 0 && life.Roomy(r) && life.Commits(r) && life.OnDisk(r)
    requires LogOk(life.images[0], r) && Word(life.images[0][r.start], 0) == 0 && n <= |life.contents|
    ensures forall i :: 0 <= i < n ==> Epoch(life.images[i], r, life.Transactions()[i], life.fates[i], life.images[i + 1])
    ensures LogOk(life.images[n], r) && Word(life.images[n][r.start], 0) == 0 && |life.images[n]| == |life.images[0]|
  {
    if n > 0 {
      LifeIsHistory(life, r, n - 1);
      hide Life.Commits, Life.OnDisk, LogOk, Epoch;
      CommitReaches(life, r, n - 1);
    }
  }

  /** A commit of a life does to the disk what commit does. */
  lemma CommitReaches(life: Life, r: Region, t: nat)
    requires r.size > 0 && life.Roomy(r) && life.Commits(r) && life.OnDisk(r) && t < |life.contents|
    requires LogOk(life.images[t], r) && Word(life.images[t][r.start], 0) == 0 && |life.images[t]| == |life.images[0]|
    ensures Epoch(life.images[t], r, life.Transactions()[t], life.fates[t], life.images[t + 1])
    ensures LogOk(life.images[t + 1], r) && Word(life.images[t + 1][r.start], 0) == 0
    ensures |life.images[t + 1]| == |life.images[0]|
  {
    hide Epoch, Txn;
    CommitsLoggable(life.states, r.size, life.nproc, life.images[t], r, t);
    EpochOutcome(life.images[t], r, life.Transactions()[t], life.fates[t], life.images[t + 1]);
  }

  /**
   * In every interleaving of operations, with a crash in any commit and any number of crashed restarts after it:
   * the disk holds what the durable transactions wrote, and each operation's blocks are all in one of them or in none.
   */
  lemma OperationsSurviveWhole(life: Life, r: Region)
    requires r.size > 0 && life.Roomy(r) && life.Commits(r) && life.OnDisk(r)
    requires LogOk(life.images[0], r) && Word(life.images[0][r.start], 0) == 0
    ensures History(life.images, r, life.Transactions(), life.fates)
    ensures var last := life.images[|life.contents|];
            && LogOk(last, r) && Word(last[r.start], 0) == 0
            && SameHome(last, Ideal(life.images[0], life.Transactions(), life.fates), r)
    ensures forall o: nat :: o < |life.Last().ops| ==> life.AllOrNone(r, o)
  {
    LifeIsHistory(life, r, |life.contents|);
    HistoryIsIdeal(life.images, r, life.Transactions(), life.fates);
    forall o: nat | o < |life.Last().ops|
      ensures life.AllOrNone(r, o)
    {
      OperationWhole(life, r, o);
    }
  }

  lemma OperationWhole(life: Life, r: Region, o: nat)
    requires r.size > 0 && life.Roomy(r) && life.Commits(r) && life.OnDisk(r)
    requires LogOk(life.images[0], r) && Word(life.images[0][r.start], 0) == 0 && o < |life.Last().ops|
    ensures life.AllOrNone(r, o)
  {
    var t := life.Last().ops[o].txn;
    if t < |life.contents| {
      LifeIsHistory(life, r, t);
      CommitOutcome(life, r, t);
      if Durable(life.Transactions()[t], life.fates[t]) {
        DurableWhole(life, r, o, life.Transactions()[t]);
      }
    }
  }

  /** What a commit of a life leaves. */
  lemma CommitOutcome(life: Life, r: Region, t: nat)
    requires r.size > 0 && life.Roomy(r) && life.Commits(r) && life.OnDisk(r) && t < |life.contents|
    requires LogOk(life.images[t], r) && Word(life.images[t][r.start], 0) == 0 && |life.images[t]| == |life.images[0]|
    ensures var tr := life.Transactions()[t];
            && Loggable(life.images[t], r, tr.blocks) && |tr.xs| == |tr.blocks|
            && (forall i, j :: 0 <= i < j < |tr.blocks| ==> tr.blocks[i] != tr.blocks[j])
            && tr.blocks == Txn(life.Last().committed, life.Last().blocks, t)
            && SameHome(life.images[t + 1], if Durable(tr, life.fates[t]) then Applied(life.images[t], tr.blocks, tr.xs) else life.images[t], r)
  {
    hide Epoch, Txn;
    CommitsLoggable(life.states, r.size, life.nproc, life.images[t], r, t);
    EpochOutcome(life.images[t], r, life.Transactions()[t], life.fates[t], life.images[t + 1]);
  }

  lemma DurableWhole(life: Life, r: Region, o: nat, tr: Transaction)
    requires life.Commits(r) && o < |life.Last().ops| && life.Last().ops[o].txn < |life.contents|
    requires var t := life.Last().ops[o].txn;
             && Loggable(life.images[t], r, tr.blocks) && |tr.xs| == |tr.blocks|
             && (forall i, j :: 0 <= i < j < |tr.blocks| ==> tr.blocks[i] != tr.blocks[j])
             && tr.blocks == Txn(life.Last().committed, life.Last().blocks, t)
             && SameHome(life.images[t + 1], Applied(life.images[t], tr.blocks, tr.xs), r)
    ensures forall bn: nat :: bn in life.Last().ops[o].wrote ==> Holds(life.images[life.Last().ops[o].txn + 1], tr, bn)
  {
    hide Loggable, Txn, Holds, Applied;
    var t := life.Last().ops[o].txn;
    forall bn: nat | bn in life.Last().ops[o].wrote
      ensures Holds(life.images[t + 1], tr, bn)
    {
      WroteIsCommitted(life.states, r.size, life.nproc, o, bn);
      BlockHeld(life.images[t], life.images[t + 1], r, tr, bn);
    }
  }

  lemma WroteIsCommitted(states: seq<State>, size: nat, nproc: nat, o: nat, bn: nat)
    requires IsRun(states, size, nproc)
    requires var s := states[|states| - 1]; o < |s.ops| && bn in s.ops[o].wrote
    ensures var s := states[|states| - 1]; bn in Txn(s.committed, s.blocks, s.ops[o].txn)
  {
    RunInv(states, size, nproc);
    InvWhole(states[|states| - 1]);
  }

  lemma BlockHeld(image: Image, image': Image, r: Region, t: Transaction, bn: nat)
    requires Loggable(image, r, t.blocks) && |t.xs| == |t.blocks| && SameHome(image', Applied(image, t.blocks, t.xs), r)
    requires forall i, j :: 0 <= i < j < |t.blocks| ==> t.blocks[i] != t.blocks[j]
    requires bn in t.blocks
    ensures Holds(image', t, bn)
  {
    var i :| 0 <= i < |t.blocks| && t.blocks[i] == bn;
    AppliedAt(image, t.blocks, t.xs, bn);
  }

  // ---------------------------------------------------------------- one life after another

  /** Each life finds the disk the one before has left. */
  ghost predicate Chained(lives: seq<Life>, r: Region) {
    && (forall i :: 0 <= i < |lives| ==> lives[i].Commits(r) && lives[i].OnDisk(r) && lives[i].Roomy(r))
    && forall i :: 0 <= i < |lives| - 1 ==> Follow(lives[i], lives[i + 1])
  }

  ghost predicate Follow(l: Life, l': Life) {
    |l.images| > 0 && |l'.images| > 0 && l'.images[0] == l.images[|l.images| - 1]
  }

  /** The disk if the durable transactions of the lives had been applied with no log at all. */
  ghost function IdealOver(image: Image, lives: seq<Life>): (image': Image)
    requires forall i :: 0 <= i < |lives| ==> lives[i].states != [] && |lives[i].fates| == |lives[i].contents|
    ensures |image'| == |image|
  {
    if lives == [] then image
    else
      var n := |lives| - 1;
      Ideal(IdealOver(image, lives[..n]), lives[n].Transactions(), lives[n].fates)
  }

  lemma {:induction false} IdealSame(a: Image, b: Image, r: Region, ts: seq<Transaction>, fates: seq<Fate>)
    requires SameHome(a, b, r) && |fates| == |ts|
    ensures SameHome(Ideal(a, ts, fates), Ideal(b, ts, fates), r)
  {
    if ts != [] {
      var n := |ts| - 1;
      IdealSame(a, b, r, ts[..n], fates[..n]);
      var a', b' := Ideal(a, ts[..n], fates[..n]), Ideal(b, ts[..n], fates[..n]);
      if |ts[n].blocks| == |ts[n].xs| && forall i :: 0 <= i < |ts[n].blocks| ==> ts[n].blocks[i] < |a'| {
        AppliedSame(a', b', r, ts[n].blocks, ts[n].xs);
      }
    }
  }

  /** Over any number of lives, whatever crashed: the disk is what the durable transactions make of it, in order. */
  lemma {:induction false} LivesAreIdeal(lives: seq<Life>, r: Region)
    requires r.size > 0 && lives != [] && Chained(lives, r)
    requires LogOk(lives[0].images[0], r) && Word(lives[0].images[0][r.start], 0) == 0
    ensures var l := lives[|lives| - 1];
            && LogOk(l.images[0], r) && Word(l.images[0][r.start], 0) == 0
            && LogOk(l.images[|l.images| - 1], r) && Word(l.images[|l.images| - 1][r.start], 0) == 0
            && SameHome(l.images[|l.images| - 1], IdealOver(lives[0].images[0], lives), r)
            && forall o: nat :: o < |l.Last().ops| ==> l.AllOrNone(r, o)
  {
    hide Ideal;
    var n := |lives| - 1;
    var l := lives[n];
    if n > 0 {
      ButLast(lives, r);
      LivesAreIdeal(lives[..n], r);
    } else {
      assert lives[..0] == [];
    }
    hide Life.Commits, Life.OnDisk, Life.AllOrNone, LogOk;
    OperationsSurviveWhole(l, r);
    IdealSame(l.images[0], IdealOver(lives[0].images[0], lives[..n]), r, l.Transactions(), l.fates);
  }

  lemma ButLast(lives: seq<Life>, r: Region)
    requires |lives| > 1 && Chained(lives, r)
    ensures var n := |lives| - 1; Chained(lives[..n], r) && lives[..n][0] == lives[0] && Follow(lives[..n][n - 1], lives[n])
  {
    var n := |lives| - 1;
    assert Follow(lives[n - 1], lives[n - 1 + 1]);
    assert forall i :: 0 <= i < n ==> lives[..n][i] == lives[i];
  }
}

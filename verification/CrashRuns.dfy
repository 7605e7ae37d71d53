/** Whole histories of the log: transactions, crashes in commit, crashes in recovery. */
module CrashRuns {
  import opened Blocks
  import opened RedoSpec

  datatype Transaction = Transaction(blocks: seq<word>, xs: seq<Block>)

  /** A commit either runs to its end, or crashes after k writes and is recovered after some failed restarts. */
  datatype Fate = Completed | Crashed(k: nat, restarts: seq<Image>)

  /** image' is the disk, ready for the next transaction, after committing t on image met this fate. */
  ghost predicate Epoch(image: Image, r: Region, t: Transaction, fate: Fate, image': Image) {
    && Loggable(image, r, t.blocks) && |t.xs| == |t.blocks|
    && match fate
       case Completed => image' == AfterCommit(image, r, t.blocks, t.xs)
       case Crashed(k, restarts) =>
         && k <= |CommitTrace(image, r, t.blocks, t.xs)|
         && Restarts(restarts, r) && restarts[0] == CrashedCommit(image, r, t.blocks, t.xs, k)
         && LogOk(restarts[|restarts| - 1], r)
         && var trace := RecoveryTrace(restarts[|restarts| - 1], r); trace != [] && image' == trace[|trace| - 1]
  }

  /** The header write was the point of no return. */
  predicate Durable(t: Transaction, fate: Fate) {
    fate.Completed? || fate.k > |t.blocks|
  }

  ghost predicate History(images: seq<Image>, r: Region, ts: seq<Transaction>, fates: seq<Fate>) {
    && |images| == |ts| + 1 && |fates| == |ts|
    && LogOk(images[0], r) && Word(images[0][r.start], 0) == 0
    && forall i :: 0 <= i < |ts| ==> Epoch(images[i], r, ts[i], fates[i], images[i + 1])
  }

  /** The disk if exactly the durable transactions had been applied, in order, with no log at all. */
  function Ideal(image: Image, ts: seq<Transaction>, fates: seq<Fate>): (image': Image)
    requires |fates| == |ts|
    ensures |image'| == |image|
  {
    if ts == [] then image
    else
      var n := |ts| - 1;
      var before := Ideal(image, ts[..n], fates[..n]);
      if Durable(ts[n], fates[n]) then Overwrite(before, ts[n].blocks, ts[n].xs) else before
  }

  /** Applied, for any block list. */
  function Overwrite(image: Image, blocks: seq<word>, xs: seq<Block>): (image': Image)
    ensures |image'| == |image|
  {
    if |blocks| == |xs| && (forall i :: 0 <= i < |blocks| ==> blocks[i] < |image|) then Applied(image, blocks, xs) else image
  }

  /** With distinct block numbers, Applied puts each block's new contents in place and touches nothing else. */
  lemma {:induction false} AppliedAt(image: Image, blocks: seq<word>, xs: seq<Block>, bn: nat)
    requires |xs| == |blocks| && forall i :: 0 <= i < |blocks| ==> blocks[i] < |image|
    requires forall i, j :: 0 <= i < j < |blocks| ==> blocks[i] != blocks[j]
    requires bn < |image|
    ensures bn !in blocks ==> Applied(image, blocks, xs)[bn] == image[bn]
    ensures forall i :: 0 <= i < |blocks| && blocks[i] == bn ==> Applied(image, blocks, xs)[bn] == xs[i]
  {
    if blocks != [] {
      AppliedAt(image, blocks[..|blocks| - 1], xs[..|xs| - 1], bn);
    }
  }

  lemma {:induction false} AppliedSame(a: Image, b: Image, r: Region, blocks: seq<word>, xs: seq<Block>)
    requires SameHome(a, b, r) && |xs| == |blocks| && forall i :: 0 <= i < |blocks| ==> blocks[i] < |a|
    ensures SameHome(Applied(a, blocks, xs), Applied(b, blocks, xs), r)
  {
    if blocks != [] {
      AppliedSame(a, b, r, blocks[..|blocks| - 1], xs[..|xs| - 1]);
    }
  }

  lemma EpochOutcome(image: Image, r: Region, t: Transaction, fate: Fate, image': Image)
    requires LogOk(image, r) && Word(image[r.start], 0) == 0 && Epoch(image, r, t, fate, image')
    ensures LogOk(image', r) && Word(image'[r.start], 0) == 0
    ensures SameHome(image', if Durable(t, fate) then Applied(image, t.blocks, t.xs) else image, r)
  {
    match fate {
      case Completed => CommitCompletes(image, r, t.blocks, t.xs);
      case Crashed(k, restarts) => CrashAtomicity(image, r, t.blocks, t.xs, k, restarts);
    }
  }

  /** Over any history the disk holds exactly what the durable transactions wrote, in their order. */
  lemma {:induction false} HistoryIsIdeal(images: seq<Image>, r: Region, ts: seq<Transaction>, fates: seq<Fate>)
    requires History(images, r, ts, fates)
    ensures var last := images[|ts|];
            LogOk(last, r) && Word(last[r.start], 0) == 0 && SameHome(last, Ideal(images[0], ts, fates), r)
  {
    if ts != [] {
      var n := |ts| - 1;
      assert History(images[..n + 1], r, ts[..n], fates[..n]) by {
        assert forall i :: 0 <= i < n ==> ts[..n][i] == ts[i] && fates[..n][i] == fates[i];
        assert forall i :: 0 <= i <= n ==> images[..n + 1][i] == images[i];
      }
      HistoryIsIdeal(images[..n + 1], r, ts[..n], fates[..n]);
      assert images[n + 1] == images[|ts|];
      EpochOutcome(images[n], r, ts[n], fates[n], images[n + 1]);
      AppliedSame(images[n], Ideal(images[0], ts[..n], fates[..n]), r, ts[n].blocks, ts[n].xs);
    }
  }
}

/** What the redo log does to the disk, write by write, and why a crash at any point is harmless. */
module RedoSpec {
  import opened Blocks

  const MAXOPBLOCKS: nat := 10
  const LOGSIZE: nat := 30

  /** begin_op cannot start another operation. */
  predicate NoRoom(committing: bool, n: nat, outstanding: int) {
    committing || n + (outstanding + 1) * MAXOPBLOCKS > LOGSIZE
  }

  /** Where the log lies on the disk: a header block, then size - 1 log blocks. */
  datatype Region = Region(start: nat, size: nat) {
    predicate Home(bn: nat) {
      bn < start || start + size <= bn
    }
  }

  /** The header block: the number of logged blocks, then their block numbers. */
  function EncodeHeader(b: Block, n: word, blocks: seq<word>): Block
    requires |blocks| <= LOGSIZE
  {
    if blocks == [] then SetWord(b, 0, n)
    else SetWord(EncodeHeader(b, n, blocks[..|blocks| - 1]), |blocks|, blocks[|blocks| - 1])
  }

  lemma {:induction false} HeaderRoundTrip(b: Block, n: word, blocks: seq<word>, i: nat)
    requires |blocks| <= LOGSIZE && i < WORDS
    ensures Word(EncodeHeader(b, n, blocks), i) ==
            if i == 0 then n else if i <= |blocks| then blocks[i - 1] else Word(b, i)
  {
    if blocks == [] {
      WordSetWord(b, 0, n, i);
    } else {
      HeaderRoundTrip(b, n, blocks[..|blocks| - 1], i);
      WordSetWord(EncodeHeader(b, n, blocks[..|blocks| - 1]), |blocks|, blocks[|blocks| - 1], i);
    }
  }

  function Header(b: Block): (blocks: seq<word>)
    requires Word(b, 0) <= LOGSIZE
  {
    seq(Word(b, 0), i requires 0 <= i < Word(b, 0) => Word(b, i + 1))
  }

  /** Every block has a home on the disk outside the log. */
  ghost predicate Homes(image: Image, r: Region, blocks: seq<word>) {
    forall i :: 0 <= i < |blocks| ==> blocks[i] < |image| && r.Home(blocks[i])
  }

  /** Every logged block has a place in the log and a home outside it. */
  ghost predicate Loggable(image: Image, r: Region, blocks: seq<word>) {
    && 0 < r.size && r.start + r.size <= |image|
    && |blocks| <= LOGSIZE && |blocks| < r.size
    && Homes(image, r, blocks)
  }

  /** An image whose log can be replayed. */
  ghost predicate LogOk(image: Image, r: Region) {
    && r.start < |image|
    && Word(image[r.start], 0) <= LOGSIZE
    && Loggable(image, r, Header(image[r.start]))
  }

  ghost predicate SameHome(a: Image, b: Image, r: Region) {
    && |a| == |b|
    && (forall bn: nat :: bn < |a| && r.Home(bn) ==> a[bn] == b[bn])
  }

  /** write_log after copying xs into the log. */
  function AfterLog(image: Image, r: Region, xs: seq<Block>): (image': Image)
    requires r.start + |xs| < |image|
    ensures |image'| == |image|
  {
    if xs == [] then image
    else AfterLog(image, r, xs[..|xs| - 1])[r.start + |xs| := xs[|xs| - 1]]
  }

  /** install_trans after copying the first k log blocks home. */
  function AfterInstall(image: Image, r: Region, blocks: seq<word>, k: nat): (image': Image)
    requires Loggable(image, r, blocks) && k <= |blocks|
    ensures |image'| == |image|
  {
    if k == 0 then image
    else AfterInstall(image, r, blocks, k - 1)[blocks[k - 1] := image[r.start + k]]
  }

  function WithHeader(image: Image, r: Region, blocks: seq<word>): Image
    requires r.start < |image| && |blocks| <= LOGSIZE
  {
    image[r.start := EncodeHeader(image[r.start], |blocks|, blocks)]
  }

  /** The image a completed replay of the log leaves. */
  function Recovered(image: Image, r: Region): Image
    requires LogOk(image, r)
  {
    var blocks := Header(image[r.start]);
    AfterInstall(image, r, blocks, |blocks|)
  }

  /** The images after each write of recover_from_log. */
  function RecoveryTrace(image: Image, r: Region): seq<Image>
    requires LogOk(image, r)
  {
    InstallTrace(image, r, Header(image[r.start]))
  }

  /** The images after each write of install_trans and of the header that empties the log. */
  function InstallTrace(image: Image, r: Region, blocks: seq<word>): seq<Image>
    requires Loggable(image, r, blocks)
  {
    InstallWrites(image, r, blocks, |blocks|) + [WithHeader(AfterInstall(image, r, blocks, |blocks|), r, [])]
  }

  /** The images after each of the first k writes of install_trans. */
  function InstallWrites(image: Image, r: Region, blocks: seq<word>, k: nat): (trace: seq<Image>)
    requires Loggable(image, r, blocks) && k <= |blocks|
    ensures |trace| == k && forall i :: 0 <= i < k ==> trace[i] == AfterInstall(image, r, blocks, i + 1)
  {
    if k == 0 then [] else InstallWrites(image, r, blocks, k - 1) + [AfterInstall(image, r, blocks, k)]
  }

  /** The images after each write of write_log. */
  function LogWrites(image: Image, r: Region, xs: seq<Block>): (trace: seq<Image>)
    requires r.start + |xs| < |image|
    ensures |trace| == |xs| && forall i :: 0 <= i < |xs| ==> trace[i] == AfterLog(image, r, xs[..i + 1])
  {
    if xs == [] then []
    else
      var before := xs[..|xs| - 1];
      assert xs[..|xs|] == xs && forall i :: 0 < i <= |before| ==> before[..i] == xs[..i];
      LogWrites(image, r, before) + [AfterLog(image, r, xs)]
  }

  /** The image the commit header is written to, and the image after that write. */
  function Committed(image: Image, r: Region, blocks: seq<word>, xs: seq<Block>): Image
    requires Loggable(image, r, blocks) && |xs| == |blocks|
  {
    WithHeader(AfterLog(image, r, xs), r, blocks)
  }

  /** The images after each write of commit. */
  function CommitTrace(image: Image, r: Region, blocks: seq<word>, xs: seq<Block>): seq<Image>
    requires Loggable(image, r, blocks) && |xs| == |blocks|
  {
    if blocks == [] then []
    else
      LogWrites(image, r, xs)
      + [Committed(image, r, blocks, xs)]
      + InstallTrace(Committed(image, r, blocks, xs), r, blocks)
  }

  /** The image commit leaves. */
  function AfterCommit(image: Image, r: Region, blocks: seq<word>, xs: seq<Block>): Image
    requires Loggable(image, r, blocks) && |xs| == |blocks|
  {
    if blocks == [] then image
    else WithHeader(AfterInstall(Committed(image, r, blocks, xs), r, blocks, |blocks|), r, [])
  }

  /** The transaction's effect: block blocks[i] gets xs[i]. */
  function Applied(image: Image, blocks: seq<word>, xs: seq<Block>): (image': Image)
    requires |xs| == |blocks| && forall i :: 0 <= i < |blocks| ==> blocks[i] < |image|
    ensures |image'| == |image|
  {
    if blocks == [] then image
    else Applied(image, blocks[..|blocks| - 1], xs[..|xs| - 1])[blocks[|blocks| - 1] := xs[|xs| - 1]]
  }

  lemma {:induction false} AfterLogAt(image: Image, r: Region, xs: seq<Block>, bn: nat)
    requires r.start + |xs| < |image| && bn < |image|
    ensures AfterLog(image, r, xs)[bn] == if r.start < bn <= r.start + |xs| then xs[bn - r.start - 1] else image[bn]
  {
    if xs != [] {
      AfterLogAt(image, r, xs[..|xs| - 1], bn);
    }
  }

  /** Installing does not touch the log. */
  lemma {:induction false} InstallKeepsLog(image: Image, r: Region, blocks: seq<word>, k: nat, bn: nat)
    requires Loggable(image, r, blocks) && k <= |blocks| && bn < |image|
    requires !r.Home(bn) || bn !in blocks[..k]
    ensures AfterInstall(image, r, blocks, k)[bn] == image[bn]
  {
    if k > 0 {
      assert blocks[k - 1] in blocks[..k];
      assert forall x :: x in blocks[..k - 1] ==> x in blocks[..k];
      InstallKeepsLog(image, r, blocks, k - 1, bn);
    }
  }

  /** Installing again on top of a partial installation. */
  lemma {:induction false} Reinstall(image: Image, r: Region, blocks: seq<word>, k: nat, j: nat, bn: nat)
    requires Loggable(image, r, blocks) && k <= |blocks| && j <= |blocks| && bn < |image|
    ensures var part := AfterInstall(image, r, blocks, k);
            && Loggable(part, r, blocks)
            && AfterInstall(part, r, blocks, j)[bn] ==
               if bn in blocks[..j] then AfterInstall(image, r, blocks, j)[bn] else part[bn]
  {
    var part := AfterInstall(image, r, blocks, k);
    if j > 0 {
      assert blocks[..j] == blocks[..j - 1] + [blocks[j - 1]];
      Reinstall(image, r, blocks, k, j - 1, bn);
      InstallKeepsLog(image, r, blocks, k, r.start + j);
    }
  }

  /** A crash inside install_trans: replaying gives what an uninterrupted replay gives. */
  lemma ReinstallAll(image: Image, r: Region, blocks: seq<word>, k: nat)
    requires Loggable(image, r, blocks) && k <= |blocks|
    ensures var part := AfterInstall(image, r, blocks, k);
            Loggable(part, r, blocks) && AfterInstall(part, r, blocks, |blocks|) == AfterInstall(image, r, blocks, |blocks|)
  {
    var n := |blocks|;
    var part := AfterInstall(image, r, blocks, k);
    forall bn | 0 <= bn < |image|
      ensures Loggable(part, r, blocks) && AfterInstall(part, r, blocks, n)[bn] == AfterInstall(image, r, blocks, n)[bn]
    {
      Reinstall(image, r, blocks, k, n, bn);
      if bn !in blocks[..n] {
        assert forall x :: x in blocks[..k] ==> x in blocks[..n];
        InstallKeepsLog(image, r, blocks, n, bn);
        InstallKeepsLog(image, r, blocks, k, bn);
      }
    }
  }

  /** Emptying the log makes recovery a no-op. */
  lemma ClearedIsRecovered(image: Image, r: Region)
    requires 0 < r.size && r.start + r.size <= |image|
    ensures var c := WithHeader(image, r, []);
            LogOk(c, r) && Word(c[r.start], 0) == 0 && Recovered(c, r) == c && SameHome(c, image, r)
  {
    HeaderRoundTrip(image[r.start], 0, [], 0);
  }

  /** A crash anywhere in recovery, then a fresh recovery: the outcome is that of the uninterrupted one. */
  lemma CrashInRecovery(image: Image, r: Region, k: nat)
    requires LogOk(image, r) && k < |RecoveryTrace(image, r)|
    ensures var c := RecoveryTrace(image, r)[k];
            LogOk(c, r) && SameHome(Recovered(c, r), Recovered(image, r), r)
  {
    var blocks := Header(image[r.start]);
    var c := RecoveryTrace(image, r)[k];
    if k < |blocks| {
      InstallKeepsLog(image, r, blocks, k + 1, r.start);
      ReinstallAll(image, r, blocks, k + 1);
      assert Header(c[r.start]) == blocks;
    } else {
      ClearedIsRecovered(AfterInstall(image, r, blocks, |blocks|), r);
    }
  }

  /** images[i + 1] is the disk after recovery started from images[i] crashed, possibly before its first write. */
  ghost predicate Restarts(images: seq<Image>, r: Region) {
    && images != []
    && LogOk(images[0], r)
    && forall i :: 0 <= i < |images| - 1 ==>
         LogOk(images[i], r) && (images[i + 1] == images[i] || images[i + 1] in RecoveryTrace(images[i], r))
  }

  lemma {:induction false} CrashesInRecovery(images: seq<Image>, r: Region)
    requires Restarts(images, r)
    ensures var c := images[|images| - 1];
            LogOk(c, r) && SameHome(Recovered(c, r), Recovered(images[0], r), r)
  {
    var n := |images|;
    if n > 1 {
      CrashesInRecovery(images[..n - 1], r);
      var before := images[n - 2];
      assert before == images[..n - 1][n - 2];
      assert images[n - 2 + 1] == images[n - 1];
      if images[n - 1] != before {
        var k :| 0 <= k < |RecoveryTrace(before, r)| && RecoveryTrace(before, r)[k] == images[n - 1];
        CrashInRecovery(before, r, k);
      }
    }
  }

  /** A recovery that runs to its end leaves the replayed image with an empty log. */
  lemma RecoveryCompletes(image: Image, r: Region)
    requires LogOk(image, r)
    ensures var trace := RecoveryTrace(image, r);
            && trace != []
            && LogOk(trace[|trace| - 1], r)
            && Word(trace[|trace| - 1][r.start], 0) == 0
            && SameHome(trace[|trace| - 1], Recovered(image, r), r)
  {
    ClearedIsRecovered(Recovered(image, r), r);
  }

  /** Replaying the committed log applies the transaction. */
  lemma {:induction false} InstallApplies(image: Image, r: Region, blocks: seq<word>, xs: seq<Block>, k: nat, bn: nat)
    requires Loggable(image, r, blocks) && |xs| == |blocks| && k <= |blocks|
    requires bn < |image| && r.Home(bn)
    ensures Loggable(Committed(image, r, blocks, xs), r, blocks)
    ensures AfterInstall(Committed(image, r, blocks, xs), r, blocks, k)[bn] == Applied(image, blocks[..k], xs[..k])[bn]
  {
    if k == 0 {
      AfterLogAt(image, r, xs, bn);
    } else {
      InstallApplies(image, r, blocks, xs, k - 1, bn);
      assert blocks[..k][..k - 1] == blocks[..k - 1] && xs[..k][..k - 1] == xs[..k - 1];
      AfterLogAt(image, r, xs, r.start + k);
    }
  }

  lemma CommittedLog(image: Image, r: Region, blocks: seq<word>, xs: seq<Block>)
    requires Loggable(image, r, blocks) && |xs| == |blocks|
    ensures var c := Committed(image, r, blocks, xs);
            LogOk(c, r) && Header(c[r.start]) == blocks && SameHome(Recovered(c, r), Applied(image, blocks, xs), r)
  {
    var c := Committed(image, r, blocks, xs);
    var l := AfterLog(image, r, xs);
    forall i: nat | i < WORDS
      ensures Word(c[r.start], i) == if i == 0 then |blocks| else if i <= |blocks| then blocks[i - 1] else Word(l[r.start], i)
    {
      HeaderRoundTrip(l[r.start], |blocks|, blocks, i);
    }
    assert Header(c[r.start]) == blocks;
    forall bn: nat | bn < |image| && r.Home(bn)
      ensures Recovered(c, r)[bn] == Applied(image, blocks, xs)[bn]
    {
      InstallApplies(image, r, blocks, xs, |blocks|, bn);
      assert blocks[..|blocks|] == blocks && xs[..|xs|] == xs;
    }
  }

  /** A commit that runs to its end applies the transaction and leaves an empty log. */
  lemma CommitCompletes(image: Image, r: Region, blocks: seq<word>, xs: seq<Block>)
    requires LogOk(image, r) && Word(image[r.start], 0) == 0
    requires Loggable(image, r, blocks) && |xs| == |blocks|
    ensures var after := AfterCommit(image, r, blocks, xs);
            && LogOk(after, r) && Word(after[r.start], 0) == 0
            && SameHome(after, Applied(image, blocks, xs), r)
            && after == CrashedCommit(image, r, blocks, xs, |CommitTrace(image, r, blocks, xs)|)
  {
    if blocks != [] {
      CommittedLog(image, r, blocks, xs);
      ClearedIsRecovered(Recovered(Committed(image, r, blocks, xs), r), r);
    }
  }

  /** The disk when a crash lets only the first k writes of commit happen. */
  function CrashedCommit(image: Image, r: Region, blocks: seq<word>, xs: seq<Block>, k: nat): Image
    requires Loggable(image, r, blocks) && |xs| == |blocks| && k <= |CommitTrace(image, r, blocks, xs)|
  {
    if k == 0 then image else CommitTrace(image, r, blocks, xs)[k - 1]
  }

  /** Crash atomicity of commit: all or nothing, decided by the header write, which is write |blocks| + 1. */
  lemma CrashInCommit(image: Image, r: Region, blocks: seq<word>, xs: seq<Block>, k: nat)
    requires LogOk(image, r) && Word(image[r.start], 0) == 0
    requires Loggable(image, r, blocks) && |xs| == |blocks| && k <= |CommitTrace(image, r, blocks, xs)|
    ensures var c := CrashedCommit(image, r, blocks, xs, k);
            && LogOk(c, r)
            && SameHome(Recovered(c, r), if k <= |blocks| then image else Applied(image, blocks, xs), r)
  {
    if k == 0 {
    } else if k <= |blocks| {
      assert CrashedCommit(image, r, blocks, xs, k) == AfterLog(image, r, xs[..k]);
      LoggingKeeps(image, r, xs[..k]);
    } else {
      CrashAfterHeader(image, r, blocks, xs, k);
    }
  }

  /** A crash right after the header write or later. */
  lemma CrashAfterHeader(image: Image, r: Region, blocks: seq<word>, xs: seq<Block>, k: nat)
    requires Loggable(image, r, blocks) && |xs| == |blocks| < k <= |CommitTrace(image, r, blocks, xs)|
    ensures var c := CrashedCommit(image, r, blocks, xs, k);
            LogOk(c, r) && SameHome(Recovered(c, r), Applied(image, blocks, xs), r)
  {
    hide LogWrites, AfterLog, Committed;
    var n := |blocks|;
    CommittedLog(image, r, blocks, xs);
    var committed := Committed(image, r, blocks, xs);
    if k > n + 1 {
      assert CrashedCommit(image, r, blocks, xs, k) == RecoveryTrace(committed, r)[k - n - 2];
      CrashInRecovery(committed, r, k - n - 2);
    }
  }

  /** Recovery from c gives the home blocks of image. */
  ghost predicate NothingLost(c: Image, image: Image, r: Region) {
    LogOk(c, r) && SameHome(Recovered(c, r), image, r)
  }

  /**
   * A crash in write_log, before the header is written, leaves every home block alone, whatever is logged, just when the
   * transaction is shorter than the log: the block for the header takes room too.
   */
  lemma LogWritesHarmless(image: Image, r: Region, blocks: seq<word>)
    requires LogOk(image, r) && Word(image[r.start], 0) == 0 && r.start + |blocks| < |image|
    ensures |blocks| < r.size <==>
            forall xs: seq<Block>, k: nat :: |xs| == |blocks| && k <= |xs| ==> NothingLost(AfterLog(image, r, xs[..k]), image, r)
  {
    if |blocks| < r.size {
      forall xs: seq<Block>, k: nat | |xs| == |blocks| && k <= |xs|
        ensures NothingLost(AfterLog(image, r, xs[..k]), image, r)
      {
        LoggingKeeps(image, r, xs[..k]);
      }
    } else {
      var last := image[r.start + r.size];
      var other: Block := last[0 := if last[0] == 0 then 1 else 0];
      var xs := seq(|blocks|, _ => other);
      LogOverruns(image, r, xs[..r.size]);
    }
  }

  lemma LoggingKeeps(image: Image, r: Region, xs: seq<Block>)
    requires LogOk(image, r) && Word(image[r.start], 0) == 0 && |xs| < r.size && r.start + |xs| < |image|
    ensures NothingLost(AfterLog(image, r, xs), image, r)
  {
    forall bn: nat | bn < |image| && (r.Home(bn) || bn == r.start)
      ensures AfterLog(image, r, xs)[bn] == image[bn]
    {
      AfterLogAt(image, r, xs, bn);
    }
  }

  /** The block that does not fit goes over the first home block behind the log. */
  lemma LogOverruns(image: Image, r: Region, xs: seq<Block>)
    requires LogOk(image, r) && Word(image[r.start], 0) == 0 && |xs| == r.size && r.start + |xs| < |image|
    requires xs[r.size - 1] != image[r.start + r.size]
    ensures !NothingLost(AfterLog(image, r, xs), image, r)
  {
    AfterLogAt(image, r, xs, r.start);
    AfterLogAt(image, r, xs, r.start + r.size);
    assert r.Home(r.start + r.size);
  }

  /** Any number of crashes, in commit and then in the recoveries that follow, and a recovery that completes. */
  lemma CrashAtomicity(image: Image, r: Region, blocks: seq<word>, xs: seq<Block>, k: nat, images: seq<Image>)
    requires LogOk(image, r) && Word(image[r.start], 0) == 0
    requires Loggable(image, r, blocks) && |xs| == |blocks| && k <= |CommitTrace(image, r, blocks, xs)|
    requires Restarts(images, r) && images[0] == CrashedCommit(image, r, blocks, xs, k)
    ensures LogOk(images[|images| - 1], r)
    ensures var trace := RecoveryTrace(images[|images| - 1], r);
            && trace != []
            && LogOk(trace[|trace| - 1], r) && Word(trace[|trace| - 1][r.start], 0) == 0
            && SameHome(trace[|trace| - 1], if k <= |blocks| then image else Applied(image, blocks, xs), r)
  {
    CrashInCommit(image, r, blocks, xs, k);
    CrashesInRecovery(images, r);
    RecoveryCompletes(images[|images| - 1], r);
  }
}

/** The circular doubly linked list of buffers, as index arrays; NBUF is the list head. */
module LruList {
  const NBUF: nat := 30

  /** The k-th node met when walking `next` from the head; the head again after the last buffer. */
  function At(order: seq<nat>, k: nat): nat
    requires k <= |order| + 1
  {
    if k == 0 || k == |order| + 1 then NBUF else order[k - 1]
  }

  /** `next` and `prev` are mutually inverse and trace out exactly `order`. */
  ghost predicate Linked(next: seq<nat>, prev: seq<nat>, order: seq<nat>) {
    && |next| == |prev| == NBUF + 1
    && (forall i :: 0 <= i < |order| ==> order[i] < NBUF)
    && (forall i, j :: 0 <= i < j < |order| ==> order[i] != order[j])
    && (forall k: nat {:trigger next[At(order, k)]} :: k <= |order| ==> next[At(order, k)] == At(order, k + 1))
    && (forall k: nat {:trigger prev[At(order, k)]} :: 1 <= k <= |order| + 1 ==> prev[At(order, k)] == At(order, k - 1))
  }

  ghost predicate IsPermutation(order: seq<nat>) {
    && |order| == NBUF
    && (forall i :: 0 <= i < NBUF ==> order[i] < NBUF)
    && (forall i, j :: 0 <= i < j < NBUF ==> order[i] != order[j])
    && (forall b :: 0 <= b < NBUF ==> b in order)
  }

  function Without(order: seq<nat>, k: nat): seq<nat>
    requires k < |order|
  {
    order[..k] + order[k + 1..]
  }

  function MoveToFront(order: seq<nat>, k: nat): seq<nat>
    requires k < |order|
  {
    [order[k]] + Without(order, k)
  }

  /** Unlinking the node at position k leaves the list of the others. */
  lemma Unlink(next: seq<nat>, prev: seq<nat>, order: seq<nat>, k: nat)
    requires Linked(next, prev, order) && k < |order|
    ensures next[order[k]] <= NBUF && prev[order[k]] <= NBUF
    ensures Linked(next[prev[order[k]] := next[order[k]]], prev[next[order[k]] := prev[order[k]]], Without(order, k))
  {
    var o := Without(order, k);
    var b := order[k];
    assert At(order, k + 1) == b && next[b] == At(order, k + 2) && prev[b] == At(order, k);
    var next1, prev1 := next[prev[b] := next[b]], prev[next[b] := prev[b]];
    assert forall j: nat :: j <= |o| + 1 ==> At(o, j) == At(order, if j <= k then j else j + 1);
    forall j: nat | j <= |o|
      ensures next1[At(o, j)] == At(o, j + 1) && prev1[At(o, j + 1)] == At(o, j)
    {
      if j < k {
        assert At(order, j + 1) != At(order, k + 2) || j + 1 == k + 2 || (j + 1 == 0 && k + 2 == |order| + 1);
      }
    }
  }

  /** Linking a node that is not in the list right after the head. */
  lemma LinkFront(next: seq<nat>, prev: seq<nat>, order: seq<nat>, b: nat)
    requires Linked(next, prev, order) && b < NBUF && b !in order
    ensures next[NBUF] <= NBUF
    ensures Linked(next[b := next[NBUF]][NBUF := b], prev[b := NBUF][next[NBUF] := b], [b] + order)
  {
    var o := [b] + order;
    assert next[At(order, 0)] == At(order, 1);
    assert forall j: nat :: 1 <= j <= |o| + 1 && j != 1 ==> At(o, j) == At(order, j - 1);
    var next1, prev1 := next[b := next[NBUF]][NBUF := b], prev[b := NBUF][next[NBUF] := b];
    forall j: nat | j <= |o|
      ensures next1[At(o, j)] == At(o, j + 1) && prev1[At(o, j + 1)] == At(o, j)
    {
      if j >= 2 {
        assert next[At(order, j - 1)] == At(order, j) && prev[At(order, j)] == At(order, j - 1);
      }
    }
  }
}

/** The arithmetic of the batch loop: `start` runs 1, 51, 101, ... while it
    does not exceed the number of messages, and each batch ends at
    `min(start + 49, total)`. Positions are 1-based. */
module Batching {

  const BatchSize: nat := 50

  /** One batch: the 1-based positions `start..end`, both included. */
  datatype Range = Range(start: nat, end: nat)

  /** The end the loop computes for a batch beginning at `start`. */
  function BatchEnd(start: nat, total: nat): (end: nat) {
    if start + BatchSize - 1 > total then total else start + BatchSize - 1
  }

  /** The batches the loop visits when `start` has reached the given value. */
  function BatchesFrom(start: nat, total: nat): (batches: seq<Range>)
    decreases total + 1 - start
  {
    if start > total then []
    else [Range(start, BatchEnd(start, total))] + BatchesFrom(start + BatchSize, total)
  }

  /** All batches of a run over `total` messages. */
  function Batches(total: nat): (batches: seq<Range>) {
    BatchesFrom(1, total)
  }

  /** Closed form of the batches from `start`: the `i`-th begins at
      `start + 50 * i`, and there are `(total - start) / 50 + 1` of them. */
  lemma {:induction false} BatchesFromShape(start: nat, total: nat)
    ensures |BatchesFrom(start, total)| == if start > total then 0 else (total - start) / BatchSize + 1
    ensures forall i :: 0 <= i < |BatchesFrom(start, total)| ==>
      BatchesFrom(start, total)[i] == Range(start + BatchSize * i, BatchEnd(start + BatchSize * i, total))
    decreases total + 1 - start
  {
    if start <= total {
      var rs := BatchesFrom(start, total);
      var next := start + BatchSize;
      BatchesFromShape(next, total);
      assert rs[1..] == BatchesFrom(next, total);
      forall i | 0 <= i < |rs|
        ensures rs[i] == Range(start + BatchSize * i, BatchEnd(start + BatchSize * i, total))
      {
        if i > 0 {
          assert rs[i] == BatchesFrom(next, total)[i - 1];
        }
      }
    }
  }

  /** There are exactly ceil(total / 50) batches. */
  lemma BatchCount(total: nat)
    ensures |Batches(total)| == (total + BatchSize - 1) / BatchSize
  {
    BatchesFromShape(1, total);
  }

  /** Each batch is a non-empty range of at most 50 positions inside
      `1..total`; all but the last hold exactly 50. */
  lemma BatchBounds(total: nat, i: nat)
    requires i < |Batches(total)|
    ensures 1 <= Batches(total)[i].start <= Batches(total)[i].end <= total
    ensures Batches(total)[i].end - Batches(total)[i].start + 1 <= BatchSize
    ensures i + 1 < |Batches(total)| ==> Batches(total)[i].end - Batches(total)[i].start + 1 == BatchSize
  {
    BatchesFromShape(1, total);
  }

  /** The first batch starts at 1, each next batch starts right after the
      previous one ends, and the last one ends at `total`. */
  lemma BatchesTile(total: nat)
    ensures total > 0 ==> |Batches(total)| > 0 && Batches(total)[0].start == 1
    ensures forall i :: 0 <= i < |Batches(total)| - 1 ==>
      Batches(total)[i + 1].start == Batches(total)[i].end + 1
    ensures total > 0 ==> Batches(total)[|Batches(total)| - 1].end == total
  {
    BatchesFromShape(1, total);
  }

  /** Every position `1..total` lies in exactly one batch. */
  lemma BatchesCover(total: nat, m: nat)
    requires 1 <= m <= total
    ensures exists i :: 0 <= i < |Batches(total)| && Batches(total)[i].start <= m <= Batches(total)[i].end
    ensures forall i, j ::
      (0 <= i < |Batches(total)| && 0 <= j < |Batches(total)| &&
       Batches(total)[i].start <= m <= Batches(total)[i].end &&
       Batches(total)[j].start <= m <= Batches(total)[j].end) ==> i == j
  {
    BatchesFromShape(1, total);
    var i := (m - 1) / BatchSize;
    assert Batches(total)[i].start <= m <= Batches(total)[i].end;
  }
}

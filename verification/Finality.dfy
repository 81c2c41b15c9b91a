/** The epoch-based finality rule, which server and client each carry a copy of
    (src/net/server.rs, src/net/client.rs). */
module Finality {
  import opened Clock
  import opened Chain

  /** Only a block in the first slot of an epoch moves the finalized height. */
  function FinalizedAfter(previous: nat, slot: nat, epoch: nat): nat {
    if slot % EPOCH_SLOTS != 0 then previous
    else if epoch >= 2 then (epoch - 2 + 1) * EPOCH_SLOTS
    else 0
  }

  /** The finalized height after processing blocks one by one from zero. */
  function FinalizedBy(blocks: seq<Block>): nat {
    if blocks == [] then 0 else
      var b := blocks[|blocks| - 1];
      FinalizedAfter(FinalizedBy(blocks[..|blocks| - 1]), b.header.slot, b.header.epoch)
  }

  predicate IsBoundary(b: Block) { b.header.slot % EPOCH_SLOTS == 0 }

  /** Slots of a produced chain: strictly increasing from at least 1, with matching epochs. */
  ghost predicate SlotsIncrease(chain: seq<Block>) {
    && (forall i :: 0 <= i < |chain| ==>
          chain[i].header.slot >= 1 && chain[i].header.epoch == chain[i].header.slot / EPOCH_SLOTS)
    && (forall i, j :: 0 <= i < j < |chain| ==> chain[i].header.slot < chain[j].header.slot)
  }

  /** A chain is never taller than its last slot. */
  lemma {:induction false} HeightAtMostSlot(chain: seq<Block>)
    requires SlotsIncrease(chain) && chain != []
    ensures |chain| <= chain[|chain| - 1].header.slot
  {
    if |chain| > 1 {
      var front := chain[..|chain| - 1];
      HeightAtMostSlot(front);
      assert front[|front| - 1] == chain[|chain| - 2];
    }
  }

  /** At a boundary slot of 32 or more the rule yields the slot minus 32: the first slot of
      the previous epoch. */
  lemma BoundaryFinalizes(previous: nat, slot: nat)
    requires slot % 32 == 0
    ensures slot >= 32 ==> FinalizedAfter(previous, slot, slot / 32) == slot - 32
    ensures slot < 32 ==> FinalizedAfter(previous, slot, slot / 32) == 0
  {
  }

  /** Finality never goes back, and stays at or below the last slot minus 32. */
  lemma {:induction false} FinalityMonotone(chain: seq<Block>)
    requires SlotsIncrease(chain)
    ensures chain != [] ==> FinalizedBy(chain[..|chain| - 1]) <= FinalizedBy(chain)
    ensures FinalizedBy(chain) > 0 ==>
      chain != [] && FinalizedBy(chain) + EPOCH_SLOTS <= chain[|chain| - 1].header.slot
  {
    if chain != [] {
      var front, last := chain[..|chain| - 1], chain[|chain| - 1];
      FinalityMonotone(front);
      if IsBoundary(last) {
        BoundaryFinalizes(FinalizedBy(front), last.header.slot);
      }
      if front != [] {
        assert front[|front| - 1] == chain[|chain| - 2];
      }
    }
  }

  lemma {:induction false} FinalityMonotoneOverRun(chain: seq<Block>, k: nat)
    requires SlotsIncrease(chain) && k <= |chain|
    ensures FinalizedBy(chain[..k]) <= FinalizedBy(chain)
    decreases |chain| - k
  {
    if k == |chain| {
      assert chain[..k] == chain;
    } else {
      FinalityMonotoneOverRun(chain, k + 1);
      FinalityMonotone(chain[..k + 1]);
      assert chain[..k + 1][..k] == chain[..k];
    }
  }

  /** The number of slots before the tip in which no block was produced. */
  function Missed(chain: seq<Block>): int {
    if chain == [] then 0 else chain[|chain| - 1].header.slot - |chain|
  }

  /** The rule takes slots for heights. The finalized height is at most `m` exactly when no
      boundary block lies in a slot above `m` plus 32. */
  lemma {:induction false} FinalizedAtMostIff(chain: seq<Block>, m: nat)
    requires SlotsIncrease(chain)
    ensures FinalizedBy(chain) <= m <==>
      forall i :: 0 <= i < |chain| && IsBoundary(chain[i]) ==> chain[i].header.slot <= m + EPOCH_SLOTS
  {
    if chain != [] {
      var front, last := chain[..|chain| - 1], chain[|chain| - 1];
      FinalizedAtMostIff(front, m);
      if IsBoundary(last) {
        BoundaryFinalizes(FinalizedBy(front), last.header.slot);
        assert forall i :: 0 <= i < |front| ==> chain[i].header.slot < last.header.slot;
      } else {
        assert forall i :: 0 <= i < |front| ==> front[i] == chain[i];
      }
    }
  }

  /** Right after a block at a boundary slot of 32 or more,
      finality names an existing block exactly when at most 32 slots were missed. */
  lemma FinalizedExistsIff(chain: seq<Block>)
    requires SlotsIncrease(chain) && chain != [] && IsBoundary(chain[|chain| - 1])
    requires chain[|chain| - 1].header.slot >= EPOCH_SLOTS
    ensures FinalizedBy(chain) == chain[|chain| - 1].header.slot - EPOCH_SLOTS
    ensures FinalizedBy(chain) <= |chain| <==> Missed(chain) <= EPOCH_SLOTS
  {
    var last := chain[|chain| - 1];
    BoundaryFinalizes(FinalizedBy(chain[..|chain| - 1]), last.header.slot);
  }

  /** In a run that missed no slot the finalized height is the first block of the epoch
      before the tip's, so the lag behind the tip lies between 32 and 63. */
  lemma {:induction false} GapFreeLag(chain: seq<Block>)
    requires SlotsIncrease(chain)
    requires forall i :: 0 <= i < |chain| ==> chain[i].header.slot == i + 1
    ensures |chain| >= EPOCH_SLOTS ==>
      FinalizedBy(chain) == |chain| / EPOCH_SLOTS * EPOCH_SLOTS - EPOCH_SLOTS
      && 32 <= |chain| - FinalizedBy(chain) <= 63
    ensures |chain| < EPOCH_SLOTS ==> FinalizedBy(chain) == 0
  {
    if chain != [] {
      var front, last := chain[..|chain| - 1], chain[|chain| - 1];
      GapFreeLag(front);
      if IsBoundary(last) {
        BoundaryFinalizes(FinalizedBy(front), last.header.slot);
      }
    }
  }

  lemma DropLast(chain: seq<Block>, i: nat, j: nat)
    requires i < j <= |chain|
    ensures chain[i..j][..|chain[i..j]| - 1] == chain[i..j - 1]
    ensures chain[i..j][|chain[i..j]| - 1] == chain[j - 1]
  {
  }

  /** A replica that joined at block `first` and has processed up to `k` agrees with the
      server right after block `k`, once a boundary block was among those processed; until
      then it reports zero. */
  lemma {:induction false} LateJoinerAgrees(chain: seq<Block>, first: nat, k: nat)
    requires first <= k <= |chain|
    ensures if exists i :: first <= i < k && IsBoundary(chain[i])
            then FinalizedBy(chain[first..k]) == FinalizedBy(chain[..k])
            else FinalizedBy(chain[first..k]) == 0
    decreases k
  {
    if first < k {
      LateJoinerAgrees(chain, first, k - 1);
      DropLast(chain, first, k);
      DropLast(chain, 0, k);
      assert chain[0..k] == chain[..k] && chain[0..k - 1] == chain[..k - 1];
    }
  }
}

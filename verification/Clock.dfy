/** Slots of 30 seconds and epochs of 32 slots (src/consensus/clock.rs). */
module Clock {
  import opened Bytes

  const SLOT_SECONDS: nat := 30
  const EPOCH_SLOTS: nat := 32

  /** The clock reads after which the next slot boundary no longer fits in a u64. */
  const CLOCK_LIMIT: nat := 0x1_0000_0000_0000_0000 - 16

  datatype SlotClock = SlotClock(genesis: nat) {
    function SlotOf(ts: nat): nat {
      (if ts >= genesis then ts - genesis else 0) / SLOT_SECONDS
    }

    function NextSlotStart(now: nat): nat {
      genesis + (SlotOf(now) + 1) * SLOT_SECONDS
    }

    predicate Aligned() { genesis % SLOT_SECONDS == 0 }
  }

  function NewAligned(now: nat): (c: SlotClock)
    ensures c.genesis % 30 == 0 && c.genesis <= now < c.genesis + 30
  {
    SlotClock(now - now % SLOT_SECONDS)
  }

  /** `next_slot_start` is the least multiple of 30 strictly above the clock read. */
  lemma NextSlotStartIsLeast(c: SlotClock, now: nat)
    requires c.Aligned() && c.genesis <= now
    ensures now < c.NextSlotStart(now) <= now + 30
    ensures c.NextSlotStart(now) % 30 == 0
    ensures forall t :: now < t && t % 30 == 0 ==> c.NextSlotStart(now) <= t
  {
    var k := c.genesis / SLOT_SECONDS;
    assert c.NextSlotStart(now) == (k + c.SlotOf(now) + 1) * SLOT_SECONDS;
    forall t | now < t && t % SLOT_SECONDS == 0 ensures c.NextSlotStart(now) <= t {
      assert t == (t / SLOT_SECONDS) * SLOT_SECONDS;
    }
  }

  /** Two aligned clocks agree on the next boundary, whenever each was started; so the
      hint computed from a fresh clock names the boundary the producer sleeps until. */
  lemma AlignedClocksAgree(a: SlotClock, b: SlotClock, now: nat)
    requires a.Aligned() && b.Aligned() && a.genesis <= now && b.genesis <= now
    ensures a.NextSlotStart(now) == b.NextSlotStart(now)
  {
    NextSlotStartIsLeast(a, now);
    NextSlotStartIsLeast(b, now);
  }

  /** The boundary is computed without u64 overflow exactly for reads below the limit. */
  lemma NextSlotStartFitsIff(c: SlotClock, now: nat)
    requires c.Aligned() && c.genesis <= now
    ensures c.NextSlotStart(now) < U64 <==> now < CLOCK_LIMIT
  {
    NextSlotStartIsLeast(c, now);
    assert CLOCK_LIMIT % SLOT_SECONDS == 0;
    if now < CLOCK_LIMIT {
      assert c.NextSlotStart(now) <= CLOCK_LIMIT;
    } else {
      var n := c.NextSlotStart(now);
      assert n % SLOT_SECONDS == 0 && n > CLOCK_LIMIT;
      assert (n - CLOCK_LIMIT) % SLOT_SECONDS == 0;
    }
  }

  /** Sleeping until the next boundary always reaches a later slot. */
  lemma SlotAdvances(c: SlotClock, now: nat, woken: nat)
    requires c.genesis <= now && c.NextSlotStart(now) <= woken
    ensures c.SlotOf(woken) >= c.SlotOf(now) + 1
  {
    var s := c.SlotOf(now);
    assert woken - c.genesis >= (s + 1) * SLOT_SECONDS;
  }

  lemma SlotMonotone(c: SlotClock, t: nat, u: nat)
    requires t <= u
    ensures c.SlotOf(t) <= c.SlotOf(u)
  {
  }
}

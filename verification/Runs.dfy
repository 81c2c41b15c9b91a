/** What holds in every state of every run. */
module Runs {
  import opened Bytes
  import opened Crypto
  import opened Clock
  import opened Merkle
  import opened Transaction
  import opened Chain
  import opened Finality
  import opened Mempool
  import opened Node
  import opened Network
  import opened ChainSafety
  import opened Accounting
  import opened Delivery
  import opened Clients

  ghost predicate Invariant(cfg: Config, s: Sys) {
    && Safe(cfg, s)
    && Conserved(cfg.env, s)
    && Disciplined(cfg, s)
    && Delivering(s)
    && Announcing(s)
    && Hearing(s)
    && Replicating(cfg, s)
    && Containing(cfg.env, s)
  }

  lemma InvariantInitially(cfg: Config, s: Sys)
    requires Initial(cfg, s)
    ensures Invariant(cfg, s)
  {
    InitiallySafe(cfg, s);
    assert TxIds(cfg.env, []) == [];
  }

  lemma InvariantKept(cfg: Config, s: Sys, ev: Event)
    requires Lawful(cfg.env) && Invariant(cfg, s) && Enabled(cfg, s, ev)
    ensures Invariant(cfg, Apply(cfg, s, ev))
  {
    SafeKept(cfg, s, ev);
    ConservedKept(cfg, s, ev);
    DisciplinedKept(cfg, s, ev);
    DeliveringKept(cfg, s, ev);
    AnnouncingKept(cfg, s, ev);
    HearingKept(cfg, s, ev);
    ReplicatingKept(cfg, s, ev);
    ContainingKept(cfg, s, ev);
  }

  /** Every state of every run, however the events interleave, satisfies the invariant. */
  lemma {:induction false} RunKeepsInvariant(cfg: Config, states: seq<Sys>, events: seq<Event>, i: nat)
    requires Lawful(cfg.env) && Run(cfg, states, events) && i < |states|
    ensures Invariant(cfg, states[i])
  {
    if i == 0 {
      InvariantInitially(cfg, states[0]);
    } else {
      RunKeepsInvariant(cfg, states, events, i - 1);
      assert Enabled(cfg, states[i - 1], events[i - 1]);
      InvariantKept(cfg, states[i - 1], events[i - 1]);
    }
  }

  lemma PartsInRun(cfg: Config, states: seq<Sys>, events: seq<Event>, i: nat)
    requires Lawful(cfg.env) && Run(cfg, states, events) && i < |states|
    ensures Structure(states[i]) && PoolSound(cfg.env, states[i].node.pool)
  {
    RunKeepsInvariant(cfg, states, events, i);
  }

  lemma ReachableInvariant(cfg: Config, s: Sys)
    requires Lawful(cfg.env) && Reachable(cfg, s)
    ensures Invariant(cfg, s)
  {
    var states: seq<Sys>, events: seq<Event> :| Run(cfg, states, events) && states[|events|] == s;
    RunKeepsInvariant(cfg, states, events, |events|);
  }

  // ---- The chain over a run ----

  /** Whatever happened since the producer read the tip, the block it commits is the child
      of the tip at that moment, and becomes the tip. */
  lemma CommitExtendsTip(cfg: Config, s: Sys)
    requires Lawful(cfg.env) && Reachable(cfg, s) && Enabled(cfg, s, Commit)
    ensures var b, s' := s.phase.block, Apply(cfg, s, Commit);
      && b.header.height == s.node.tipHeight + 1
      && b.header.parentHash == s.node.tipHash
      && s'.node.tipHeight == b.header.height && s'.node.tipHash == b.hash
      && NoDuplicates(TxIds(cfg.env, b.txs)) && |b.txs| <= 100
      && b.header.slot <= cfg.clock.SlotOf(s.now)
      && (s.chain != [] ==> s.chain[|s.chain| - 1].header.slot < b.header.slot)
  {
    ReachableInvariant(cfg, s);
  }

  /** The buffer holds exactly the last 256 blocks (or all of them), with consecutive
      heights ending at the tip and each block naming its predecessor's hash. */
  lemma BufferIsLinkedSuffix(cfg: Config, s: Sys)
    requires Lawful(cfg.env) && Reachable(cfg, s)
    ensures var bs := s.node.blocks;
      && |bs| == Min(s.node.tipHeight, 256) && s.node.tipHeight == |s.chain|
      && bs == s.chain[|s.chain| - |bs|..]
      && (forall i :: 0 <= i < |bs| ==> bs[i].header.height == s.node.tipHeight - |bs| + 1 + i)
      && (forall i :: 0 < i < |bs| ==> bs[i].header.parentHash == bs[i - 1].hash)
      && (bs != [] ==> bs[|bs| - 1].hash == s.node.tipHash)
  {
    HistoryFacts(cfg, s);
    SuffixIsLinked(cfg.env, s.chain, s.node.blocks);
  }

  lemma LinkedAt(e: Env, chain: seq<Block>, k: nat)
    requires ProducerChain(e, chain) && k < |chain|
    ensures chain[k].header.height == k + 1
    ensures k > 0 ==> chain[k].header.parentHash == chain[k - 1].hash
  {
    assert ExtendsChain(e, chain[..k], chain[k]);
  }

  lemma LastOfIsSuffix(chain: seq<Block>, bs: seq<Block>)
    requires bs == LastOf(chain, BLOCK_BUFFER)
    ensures |bs| == Min(|chain|, BLOCK_BUFFER) && bs == chain[|chain| - |bs|..]
  {
  }

  lemma SuffixIsLinked(e: Env, chain: seq<Block>, bs: seq<Block>)
    requires ProducerChain(e, chain) && bs == LastOf(chain, BLOCK_BUFFER)
    ensures |bs| == Min(|chain|, BLOCK_BUFFER) && bs == chain[|chain| - |bs|..]
    ensures forall i :: 0 <= i < |bs| ==> bs[i].header.height == |chain| - |bs| + 1 + i
    ensures forall i :: 0 < i < |bs| ==> bs[i].header.parentHash == bs[i - 1].hash
  {
    LastOfIsSuffix(chain, bs);
    var d := |chain| - |bs|;
    forall i | 0 <= i < |bs|
      ensures bs[i].header.height == d + 1 + i
      ensures i > 0 ==> bs[i].header.parentHash == bs[i - 1].hash
    {
      LinkedAt(e, chain, d + i);
    }
  }

  lemma EventKeepsHistory(cfg: Config, s: Sys, ev: Event)
    requires Enabled(cfg, s, ev)
    ensures s.chain <= Apply(cfg, s, ev).chain && s.now <= Apply(cfg, s, ev).now
    ensures s.accepted <= Apply(cfg, s, ev).accepted && s.evicted <= Apply(cfg, s, ev).evicted
  {
  }

  lemma {:induction false} HistoryOnlyGrows(cfg: Config, states: seq<Sys>, events: seq<Event>, i: nat, j: nat)
    requires Run(cfg, states, events) && i <= j < |states|
    ensures states[i].chain <= states[j].chain
    ensures states[i].accepted <= states[j].accepted
    decreases j
  {
    if i < j {
      HistoryOnlyGrows(cfg, states, events, i, j - 1);
      assert Enabled(cfg, states[j - 1], events[j - 1]);
      EventKeepsHistory(cfg, states[j - 1], events[j - 1]);
    }
  }

  lemma FollowsInRun(cfg: Config, states: seq<Sys>, events: seq<Event>, i: nat)
    requires Lawful(cfg.env) && Run(cfg, states, events) && i < |states|
    ensures Follows(states[i].node, states[i].chain) && SlotsIncrease(states[i].chain)
  {
    RunKeepsInvariant(cfg, states, events, i);
  }

  /** Over a run, committed blocks are never replaced, and tip and finalized height never
      go down. */
  lemma ServerNeverGoesBack(cfg: Config, states: seq<Sys>, events: seq<Event>, i: nat, j: nat)
    requires Lawful(cfg.env) && Run(cfg, states, events) && i <= j < |states|
    ensures states[i].chain <= states[j].chain
    ensures states[i].node.tipHeight <= states[j].node.tipHeight
    ensures states[i].node.finalizedHeight <= states[j].node.finalizedHeight
  {
    HistoryOnlyGrows(cfg, states, events, i, j);
    FollowsInRun(cfg, states, events, i);
    FollowsInRun(cfg, states, events, j);
    var k := |states[i].chain|;
    assert states[j].chain[..k] == states[i].chain;
    FinalityMonotoneOverRun(states[j].chain, k);
  }

  /** Slots strictly increase along the chain, so heights never pass slots, and nothing the
      producer writes into a header overflows a u64. */
  lemma HeightsWithinSlots(cfg: Config, s: Sys)
    requires Lawful(cfg.env) && Reachable(cfg, s)
    ensures forall i, j :: 0 <= i < j < |s.chain| ==> s.chain[i].header.slot < s.chain[j].header.slot
    ensures forall i :: 0 <= i < |s.chain| ==> HeaderShaped(s.chain[i].header)
    ensures s.chain != [] ==> s.node.tipHeight <= s.chain[|s.chain| - 1].header.slot
    ensures s.node.finalizedHeight > 0 ==>
      s.chain != [] && s.node.finalizedHeight + EPOCH_SLOTS <= s.chain[|s.chain| - 1].header.slot
  {
    HistoryFacts(cfg, s);
    if s.chain != [] {
      HeightAtMostSlot(s.chain);
    }
    FinalityMonotone(s.chain);
    forall i | 0 <= i < |s.chain| ensures HeaderShaped(s.chain[i].header) {
      assert ExtendsChain(cfg.env, s.chain[..i], s.chain[i]);
    }
  }

  /** Two nodes, whatever their runs and keys, with one tip hash have the same height and
      headers, or the hashing done for their chains exhibits a collision; without one, each
      pair of blocks has the same transaction ids but for the Merkle breaks of that pair. */
  lemma EqualTipsEqualHistories(cfg: Config, cfg': Config, s: Sys, t: Sys)
    requires cfg.env == cfg'.env && Lawful(cfg.env) && Reachable(cfg, s) && Reachable(cfg', t)
    requires s.node.tipHash == t.node.tipHash
    ensures
      || CollisionIn(cfg.env.sha256, ChainInputs(cfg.env, s.chain) + ChainInputs(cfg.env, t.chain))
      || (&& s.node.tipHeight == t.node.tipHeight == |s.chain|
          && SameHeaders(s.chain, t.chain)
          && forall i :: 0 <= i < |s.chain| ==> SameIds(cfg.env, s.chain[i], t.chain[i]))
  {
    HistoryFacts(cfg, s);
    HistoryFacts(cfg', t);
    TipHashBindsHistory(cfg.env, s.chain, t.chain);
  }

  lemma HistoryFacts(cfg: Config, s: Sys)
    requires Lawful(cfg.env) && Reachable(cfg, s)
    ensures ProducerChain(cfg.env, s.chain) && SlotsIncrease(s.chain) && Follows(s.node, s.chain)
  {
    ReachableInvariant(cfg, s);
  }

  // ---- Finality ----

  /** The server's finalized height names an existing height exactly when no block of its
      chain lies in the first slot of an epoch more than 32 slots above its tip. */
  lemma FinalityExistsIff(cfg: Config, s: Sys)
    requires Lawful(cfg.env) && Reachable(cfg, s)
    ensures s.node.finalizedHeight <= s.node.tipHeight <==>
      forall i :: 0 <= i < |s.chain| && IsBoundary(s.chain[i]) ==>
        s.chain[i].header.slot <= s.node.tipHeight + 32
  {
    HistoryFacts(cfg, s);
    FinalizedAtMostIff(s.chain, s.node.tipHeight);
  }

  /** While no slot has been missed, the server's finalized height is the first block of the
      epoch before the tip's, 32 to 63 behind the tip, and zero in the first epoch. */
  lemma GapFreeFinality(cfg: Config, s: Sys)
    requires Lawful(cfg.env) && Reachable(cfg, s)
    requires forall i :: 0 <= i < |s.chain| ==> s.chain[i].header.slot == i + 1
    ensures s.node.tipHeight >= EPOCH_SLOTS ==>
      s.node.finalizedHeight == s.node.tipHeight / EPOCH_SLOTS * EPOCH_SLOTS - EPOCH_SLOTS
      && 32 <= s.node.tipHeight - s.node.finalizedHeight <= 63
    ensures s.node.tipHeight < EPOCH_SLOTS ==> s.node.finalizedHeight == 0
  {
    HistoryFacts(cfg, s);
    GapFreeLag(s.chain);
  }

  // ---- Conservation over a run ----

  lemma AccountsHold(cfg: Config, s: Sys)
    requires Lawful(cfg.env) && Reachable(cfg, s)
    ensures Conserved(cfg.env, s) && Disciplined(cfg, s)
  {
    ReachableInvariant(cfg, s);
  }

  /** Counted: as many transactions were accepted as new as are in the pool, in the
      producer's hands, in committed blocks, and evicted. */
  lemma AcceptedAreCounted(cfg: Config, s: Sys)
    requires Lawful(cfg.env) && Reachable(cfg, s)
    ensures |s.accepted| == |s.node.pool.byId| + |InFlight(s.phase)|
                            + |ChainIds(cfg.env, s.chain)| + |s.evicted|
  {
    AccountsHold(cfg, s);
    var e := cfg.env;
    assert |multiset(TxIds(e, s.accepted))| == |s.accepted|;
    assert |multiset(s.node.pool.byId.Keys)| == |s.node.pool.byId|;
    assert |multiset(TxIds(e, InFlight(s.phase)))| == |InFlight(s.phase)|;
    assert |multiset(ChainIds(e, s.chain))| == |ChainIds(e, s.chain)|;
  }

  /** Located: an accepted transaction that was never evicted is in the pool, in the
      producer's hands, or in a committed block. */
  lemma AcceptedAreLocated(cfg: Config, s: Sys, k: nat)
    requires Lawful(cfg.env) && Reachable(cfg, s) && k < |s.accepted|
    ensures var id := TxId(cfg.env, s.accepted[k]);
      || id in s.evicted
      || id in s.node.pool.byId
      || id in IdSet(cfg.env, InFlight(s.phase))
      || exists i :: 0 <= i < |s.chain| && id in IdSet(cfg.env, s.chain[i].txs)
  {
    AccountsHold(cfg, s);
    var e, id := cfg.env, TxId(cfg.env, s.accepted[k]);
    assert id == TxIds(e, s.accepted)[k];
    assert id in multiset(TxIds(e, s.accepted));
    IdSetIsIds(e, InFlight(s.phase));
    if id in ChainIds(e, s.chain) {
      var i := InSomeList(IdLists(e, s.chain), id);
      IdSetIsIds(e, s.chain[i].txs);
    }
  }

  lemma {:induction false} InSomeList(lists: seq<seq<Text>>, id: Text) returns (i: nat)
    requires id in Flatten(lists)
    ensures i < |lists| && id in lists[i]
  {
    var n := |lists| - 1;
    if id in Flatten(lists[..n]) {
      i := InSomeList(lists[..n], id);
    } else {
      i := n;
    }
  }

  // ---- Draining the backlog ----

  /** Rounds that have drained so far. */
  function Drains(s: Sys): nat {
    |s.chain| + if s.phase.Holding? || s.phase.Built? then 1 else 0
  }

  function Backlog(n: nat, rounds: nat): nat {
    if n > MAX_TXS_PER_BLOCK * rounds then n - MAX_TXS_PER_BLOCK * rounds else 0
  }

  lemma QuietEventKeeps(cfg: Config, s: Sys, ev: Event)
    requires Enabled(cfg, s, ev) && !ev.TxIn? && !ev.Drain?
    ensures var s' := Apply(cfg, s, ev);
      s'.node.pool == s.node.pool && s'.accepted == s.accepted && s'.evicted == s.evicted
      && Drains(s') == Drains(s)
  {
  }

  lemma QuietEvent(cfg: Config, s: Sys, ev: Event)
    requires Enabled(cfg, s, ev) && !ev.TxIn?
    ensures var s' := Apply(cfg, s, ev);
      && Drains(s') == Drains(s) + (if ev.Drain? then 1 else 0)
      && |s'.node.pool.byId| == Backlog(|s.node.pool.byId|, if ev.Drain? then 1 else 0)
      && s'.accepted == s.accepted && s'.evicted == s.evicted
  {
    if ev.Drain? {
      DrainCounts(s.node.pool, MAX_TXS_PER_BLOCK, ev.ids);
    } else {
      QuietEventKeeps(cfg, s, ev);
    }
  }

  lemma QuietStep(cfg: Config, states: seq<Sys>, events: seq<Event>, k: nat)
    requires Run(cfg, states, events) && k < |events| && !events[k].TxIn?
    ensures var s, t, d := states[k], states[k + 1], if events[k].Drain? then 1 else 0;
      && Drains(t) == Drains(s) + d
      && |t.node.pool.byId| == Backlog(|s.node.pool.byId|, d)
      && t.accepted == s.accepted && t.evicted == s.evicted
  {
    assert Enabled(cfg, states[k], events[k]);
    QuietEvent(cfg, states[k], events[k]);
  }

  lemma BacklogAdds(n: nat, rounds: nat)
    ensures Backlog(Backlog(n, rounds), 1) == Backlog(n, rounds + 1)
    ensures Backlog(Backlog(n, rounds), 0) == Backlog(n, rounds)
  {
  }

  /** With no transactions coming in, every round drains a hundred until none are left. */
  lemma {:induction false} QuietRunDrains(cfg: Config, states: seq<Sys>, events: seq<Event>, i: nat, j: nat)
    requires Run(cfg, states, events) && i <= j < |states|
    requires forall k :: i <= k < j ==> !events[k].TxIn?
    ensures Drains(states[i]) <= Drains(states[j])
    ensures |states[j].node.pool.byId|
         == Backlog(|states[i].node.pool.byId|, Drains(states[j]) - Drains(states[i]))
    ensures states[j].accepted == states[i].accepted && states[j].evicted == states[i].evicted
    decreases j
  {
    if i < j {
      QuietRunDrains(cfg, states, events, i, j - 1);
      QuietStep(cfg, states, events, j - 1);
      BacklogAdds(|states[i].node.pool.byId|, Drains(states[j - 1]) - Drains(states[i]));
    }
  }

  /** Between two idle moments with no arrivals, n pending transactions have all been
      committed exactly when at least n/100 rounds, rounded up, have been completed. */
  lemma BacklogClearsIff(cfg: Config, states: seq<Sys>, events: seq<Event>, i: nat, j: nat)
    requires Lawful(cfg.env) && Run(cfg, states, events) && i <= j < |states|
    requires forall k :: i <= k < j ==> !events[k].TxIn?
    requires states[i].phase.Idle? && states[j].phase.Idle?
    ensures var n, rounds := |states[i].node.pool.byId|, |states[j].chain| - |states[i].chain|;
      multiset(ChainIds(cfg.env, states[j].chain))
        == multiset(ChainIds(cfg.env, states[i].chain)) + multiset(states[i].node.pool.byId.Keys)
      <==> rounds >= (n + 99) / 100
  {
    var e, s, t := cfg.env, states[i], states[j];
    QuietRunDrains(cfg, states, events, i, j);
    RunKeepsInvariant(cfg, states, events, i);
    RunKeepsInvariant(cfg, states, events, j);
    NothingInFlight(e, s.phase);
    NothingInFlight(e, t.phase);
    PoolMoves(multiset(s.node.pool.byId.Keys), multiset(ChainIds(e, s.chain)),
              multiset(t.node.pool.byId.Keys), multiset(ChainIds(e, t.chain)), multiset(s.evicted));
    assert |multiset(t.node.pool.byId.Keys)| == |t.node.pool.byId|;
  }

  lemma PoolMoves(p: multiset<Text>, c: multiset<Text>, p': multiset<Text>, c': multiset<Text>, evicted: multiset<Text>)
    requires p + multiset{} + c + evicted == p' + multiset{} + c' + evicted
    ensures c' == c + p <==> |p'| == 0
  {
    forall id ensures p[id] + c[id] == p'[id] + c'[id] {
      assert (p + multiset{} + c + evicted)[id] == (p' + multiset{} + c' + evicted)[id];
    }
    if |p'| == 0 {
      assert p' == multiset{};
      assert c' == c + p;
    }
    if c' == c + p {
      forall id ensures p'[id] == 0 {
        assert c'[id] == c[id] + p[id];
      }
      assert p' == multiset{};
    }
  }
}

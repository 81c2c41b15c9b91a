/** What every event keeps about peers, clock, chain and the producer's round. */
module ChainSafety {
  import opened Bytes
  import opened Crypto
  import opened Clock
  import opened Merkle
  import opened Transaction
  import opened Chain
  import opened Finality
  import opened Mempool
  import opened Replica
  import opened Node
  import opened Network

  // ---- Peers, channels and sessions ----

  ghost predicate Structure(s: Sys) {
    && PeersSound(s.node)
    && |s.sessions| == |s.node.channels|
    && (forall c :: 0 <= c < |s.sessions| ==> s.sessions[c].read <= |s.node.channels[c].log|)
    && (s.phase.Sending? ==> TargetsSound(s.phase.targets, |s.node.channels|))
  }

  ghost predicate TargetsSound(targets: seq<nat>, n: nat) {
    && (forall i :: 0 <= i < |targets| ==> targets[i] < n)
    && (forall i, j :: 0 <= i < j < |targets| ==> targets[i] != targets[j])
  }

  lemma SnapshotTargets(n: NodeState, targets: seq<nat>)
    requires SnapshotAllowed(n, targets)
    ensures TargetsSound(targets, |n.channels|)
  {
    forall i | 0 <= i < |targets| ensures targets[i] < |n.channels| {
      assert targets[i] in targets;
    }
  }

  lemma TxInKeepsStructure(cfg: Config, s: Sys, origin: Origin, tx: SignedTx, victim: Option<Text>)
    requires Structure(s)
    ensures Structure(AfterTxIn(cfg, s, origin, tx, victim))
  {
    var n' := Ingest(cfg.env, s.node, origin, tx, s.now, victim);
    assert forall c :: 0 <= c < |n'.channels| ==>
      n'.channels[c].owner == s.node.channels[c].owner
      && |s.node.channels[c].log| <= |n'.channels[c].log|;
  }

  lemma ConnectKeepsStructure(s: Sys, id: Text, name: Text)
    requires Structure(s)
    ensures Structure(AfterConnect(s, id, name))
  {
  }

  lemma SendKeepsStructure(s: Sys, b: Block, targets: seq<nat>)
    requires Structure(s) && s.phase == Sending(b, targets) && targets != []
    ensures Structure(AfterSending(s, b, targets))
  {
  }

  lemma StructureKept(cfg: Config, s: Sys, ev: Event)
    requires Structure(s) && Enabled(cfg, s, ev)
    ensures Structure(Apply(cfg, s, ev))
  {
    match ev {
      case Snapshot(targets) => SnapshotTargets(s.node, targets);
      case TxIn(origin, tx, victim) => TxInKeepsStructure(cfg, s, origin, tx, victim);
      case Connect(id, name) => ConnectKeepsStructure(s, id, name);
      case SendNext =>
        if s.phase.targets != [] {
          SendKeepsStructure(s, s.phase.block, s.phase.targets);
        }
      case _ =>
    }
  }

  // ---- Clock ----

  ghost predicate ClockSound(cfg: Config, s: Sys) {
    cfg.clock.Aligned() && cfg.clock.genesis <= s.now < CLOCK_LIMIT
  }

  // ---- The chain ----

  function LastSlot(chain: seq<Block>): nat {
    if chain == [] then 0 else chain[|chain| - 1].header.slot
  }

  ghost predicate Passes(cfg: Config, b: Block) {
    CheckBlock(cfg.env, ServerKey(cfg), b) == None
  }

  /** The committed blocks form a chain with increasing slots, and each passes the client's
      check. */
  ghost predicate HistorySound(cfg: Config, chain: seq<Block>) {
    && ProducerChain(cfg.env, chain)
    && SlotsIncrease(chain)
    && (forall i :: 0 <= i < |chain| ==> Passes(cfg, chain[i]))
  }

  /** The server's tip, buffer and finality are functions of the blocks committed so far. */
  ghost predicate Follows(n: NodeState, chain: seq<Block>) {
    && n.tipHash == TipHash(chain)
    && n.tipHeight == |chain|
    && n.blocks == LastOf(chain, BLOCK_BUFFER)
    && n.finalizedHeight == FinalizedBy(chain)
  }

  ghost predicate ChainSound(cfg: Config, s: Sys) {
    HistorySound(cfg, s.chain) && Follows(s.node, s.chain)
  }

  /** Between its locked sections the producer's private copies stay accurate. */
  ghost predicate PhaseSound(cfg: Config, s: Sys) {
    var last, current := LastSlot(s.chain), cfg.clock.SlotOf(s.now);
    match s.phase
    case Idle => last <= current
    case Sleeping(wake) => last < cfg.clock.SlotOf(wake)
    case Awake(slot) => last < slot <= current
    case Holding(slot, parentHash, height, txs) =>
      && last < slot <= current
      && parentHash == TipHash(s.chain) && height == |s.chain| + 1
      && NoDuplicates(TxIds(cfg.env, txs)) && |txs| <= MAX_TXS_PER_BLOCK
    case Built(b) =>
      last < b.header.slot <= current && ExtendsChain(cfg.env, s.chain, b) && Passes(cfg, b)
    case Committed(b) => last <= current && s.chain != [] && s.chain[|s.chain| - 1] == b
    case Sending(b, _) => last <= current && s.chain != [] && s.chain[|s.chain| - 1] == b
  }

  ghost predicate Safe(cfg: Config, s: Sys) {
    && Structure(s)
    && ClockSound(cfg, s)
    && PoolSound(cfg.env, s.node.pool)
    && s.node.pool.minFee == 0
    && ChainSound(cfg, s)
    && PhaseSound(cfg, s)
  }

  lemma ChainExtends(e: Env, chain: seq<Block>, b: Block)
    requires ProducerChain(e, chain) && ExtendsChain(e, chain, b)
    ensures ProducerChain(e, chain + [b])
  {
    var longer := chain + [b];
    forall i | 0 <= i < |longer| ensures ExtendsChain(e, longer[..i], longer[i]) {
      assert longer[..i] == chain[..i];
      assert i == |chain| ==> chain[..i] == chain;
    }
  }

  lemma SlotsExtend(chain: seq<Block>, b: Block)
    requires SlotsIncrease(chain) && LastSlot(chain) < b.header.slot
    requires b.header.epoch == b.header.slot / EPOCH_SLOTS
    ensures SlotsIncrease(chain + [b])
  {
  }

  lemma LastOfExtends(chain: seq<Block>, b: Block)
    ensures LastOf(LastOf(chain, BLOCK_BUFFER) + [b], BLOCK_BUFFER) == LastOf(chain + [b], BLOCK_BUFFER)
  {
  }

  lemma FinalityExtends(chain: seq<Block>, b: Block)
    ensures FinalizedBy(chain + [b]) == FinalizedAfter(FinalizedBy(chain), b.header.slot, b.header.epoch)
  {
    assert (chain + [b])[..|chain|] == chain;
  }

  /** The block built outside the lock is the next block of the chain, and none of its
      integers overflows. */
  lemma BuiltBlockExtends(cfg: Config, s: Sys)
    requires Lawful(cfg.env) && Safe(cfg, s) && s.phase.Holding?
    ensures var b := BlockFor(cfg.env, cfg.sk, s.phase.parentHash, s.phase.height, s.phase.slot,
                              s.now, s.phase.txs);
            ExtendsChain(cfg.env, s.chain, b) && Passes(cfg, b)
  {
    if s.chain != [] {
      HeightAtMostSlot(s.chain);
    }
    assert s.phase.slot <= s.now;
    BlockForExtends(cfg, s.chain, s.phase.slot, s.now, s.phase.txs);
  }

  lemma BlockForExtends(cfg: Config, chain: seq<Block>, slot: nat, now: nat, txs: seq<SignedTx>)
    requires Lawful(cfg.env) && |chain| < slot <= now < CLOCK_LIMIT
    requires NoDuplicates(TxIds(cfg.env, txs)) && |txs| <= MAX_TXS_PER_BLOCK
    ensures var b := BlockFor(cfg.env, cfg.sk, TipHash(chain), |chain| + 1, slot, now, txs);
            ExtendsChain(cfg.env, chain, b) && Passes(cfg, b)
  {
    var b := BlockFor(cfg.env, cfg.sk, TipHash(chain), |chain| + 1, slot, now, txs);
    assert HeaderShaped(b.header);
    ProducedBlockPasses(cfg.env, cfg.sk, TipHash(chain), |chain| + 1, slot, now, txs);
  }

  lemma HistoryExtends(cfg: Config, chain: seq<Block>, b: Block)
    requires HistorySound(cfg, chain) && ExtendsChain(cfg.env, chain, b) && Passes(cfg, b)
    requires LastSlot(chain) < b.header.slot
    ensures HistorySound(cfg, chain + [b])
  {
    ChainExtends(cfg.env, chain, b);
    SlotsExtend(chain, b);
  }

  lemma CommitKeepsChain(cfg: Config, s: Sys)
    requires ChainSound(cfg, s) && PhaseSound(cfg, s) && s.phase.Built?
    ensures ChainSound(cfg, Apply(cfg, s, Commit))
  {
    var b := s.phase.block;
    HistoryExtends(cfg, s.chain, b);
    CommitFollows(s.node, s.chain, b);
  }

  lemma CommitFollows(n: NodeState, chain: seq<Block>, b: Block)
    requires Follows(n, chain) && b.header.height == |chain| + 1
    ensures Follows(AfterCommit(n, b), chain + [b])
  {
    LastOfExtends(chain, b);
    FinalityExtends(chain, b);
  }

  lemma PoolKept(cfg: Config, s: Sys, ev: Event)
    requires PoolSound(cfg.env, s.node.pool) && s.node.pool.minFee == 0 && Enabled(cfg, s, ev)
    ensures PoolSound(cfg.env, Apply(cfg, s, ev).node.pool) && Apply(cfg, s, ev).node.pool.minFee == 0
  {
    match ev {
      case TxIn(_, tx, victim) => InsertKeepsSound(cfg.env, s.node.pool, tx, s.now, victim);
      case Drain(ids) => DrainKeepsSound(cfg.env, s.node.pool, ids);
      case _ =>
    }
  }

  lemma ChainKept(cfg: Config, s: Sys, ev: Event)
    requires ChainSound(cfg, s) && PhaseSound(cfg, s) && Enabled(cfg, s, ev)
    ensures ChainSound(cfg, Apply(cfg, s, ev))
  {
    if ev.Commit? {
      CommitKeepsChain(cfg, s);
    } else {
      var s' := Apply(cfg, s, ev);
      assert s'.chain == s.chain && s'.node.tipHash == s.node.tipHash
          && s'.node.tipHeight == s.node.tipHeight && s'.node.blocks == s.node.blocks
          && s'.node.finalizedHeight == s.node.finalizedHeight;
    }
  }

  /** Events outside the producer leave its phase and the chain alone. */
  lemma OthersKeepPhase(cfg: Config, s: Sys, ev: Event)
    requires PhaseSound(cfg, s) && Enabled(cfg, s, ev)
    requires ev.Tick? || ev.Connect? || ev.Disconnect? || ev.TxIn? || ev.Process?
    ensures PhaseSound(cfg, Apply(cfg, s, ev))
  {
    var s' := Apply(cfg, s, ev);
    assert s'.phase == s.phase && s'.chain == s.chain;
    assert s'.node.tipHash == s.node.tipHash;
    SlotMonotone(cfg.clock, s.now, s'.now);
  }

  lemma TimingKeepsPhase(cfg: Config, s: Sys, ev: Event)
    requires ClockSound(cfg, s) && PhaseSound(cfg, s) && Enabled(cfg, s, ev)
    requires ev.Sleep? || ev.Wake?
    ensures PhaseSound(cfg, Apply(cfg, s, ev))
  {
    if ev.Sleep? {
      SlotAdvances(cfg.clock, s.now, cfg.clock.NextSlotStart(s.now));
    } else {
      SlotMonotone(cfg.clock, s.phase.wake, s.now);
    }
  }

  lemma DrainKeepsPhase(cfg: Config, s: Sys, ids: seq<Text>)
    requires ChainSound(cfg, s) && PhaseSound(cfg, s) && PoolSound(cfg.env, s.node.pool)
    requires Enabled(cfg, s, Drain(ids))
    ensures PhaseSound(cfg, Apply(cfg, s, Drain(ids)))
  {
    TakenIds(cfg.env, s.node.pool, ids);
  }

  lemma CommitKeepsPhase(cfg: Config, s: Sys)
    requires PhaseSound(cfg, s) && Enabled(cfg, s, Commit)
    ensures PhaseSound(cfg, Apply(cfg, s, Commit))
  {
  }

  lemma SendingKeepsPhase(cfg: Config, s: Sys, ev: Event)
    requires PhaseSound(cfg, s) && Enabled(cfg, s, ev) && (ev.Snapshot? || ev.SendNext?)
    ensures PhaseSound(cfg, Apply(cfg, s, ev))
  {
  }

  lemma BuildKeepsPhase(cfg: Config, s: Sys, b: Block)
    requires PhaseSound(cfg, s) && s.phase.Holding? && b.header.slot == s.phase.slot
    requires ExtendsChain(cfg.env, s.chain, b) && Passes(cfg, b)
    ensures PhaseSound(cfg, s.(phase := Built(b)))
  {
  }

  lemma PhaseKept(cfg: Config, s: Sys, ev: Event)
    requires Lawful(cfg.env) && Safe(cfg, s) && Enabled(cfg, s, ev)
    ensures PhaseSound(cfg, Apply(cfg, s, ev))
  {
    match ev {
      case Sleep => TimingKeepsPhase(cfg, s, ev);
      case Wake => TimingKeepsPhase(cfg, s, ev);
      case Drain(ids) => DrainKeepsPhase(cfg, s, ids);
      case Build =>
        BuiltBlockExtends(cfg, s);
        BuildKeepsPhase(cfg, s, BlockFor(cfg.env, cfg.sk, s.phase.parentHash, s.phase.height, s.phase.slot,
                                         s.now, s.phase.txs));
      case Commit => CommitKeepsPhase(cfg, s);
      case Snapshot(_) => SendingKeepsPhase(cfg, s, ev);
      case SendNext => SendingKeepsPhase(cfg, s, ev);
      case _ => OthersKeepPhase(cfg, s, ev);
    }
  }

  /** Every event keeps the state safe. */
  lemma SafeKept(cfg: Config, s: Sys, ev: Event)
    requires Lawful(cfg.env) && Safe(cfg, s) && Enabled(cfg, s, ev)
    ensures Safe(cfg, Apply(cfg, s, ev))
  {
    StructureKept(cfg, s, ev);
    PoolKept(cfg, s, ev);
    ChainKept(cfg, s, ev);
    PhaseKept(cfg, s, ev);
  }

  lemma InitiallySafe(cfg: Config, s: Sys)
    requires Initial(cfg, s)
    ensures Safe(cfg, s)
  {
  }
}

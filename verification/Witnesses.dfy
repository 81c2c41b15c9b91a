/** Runs that show what the server does not promise. */
module Witnesses {
  import opened Bytes
  import opened Clock
  import opened Transaction
  import opened Chain
  import opened Mempool
  import opened Protocol
  import opened Logs
  import opened Node
  import opened Network

  lemma ReachInitial(cfg: Config, s: Sys)
    requires Initial(cfg, s)
    ensures Reachable(cfg, s)
  {
    var states, events: seq<Event> := [s], [];
    assert Run(cfg, states, events) && states[|events|] == s;
  }

  lemma RunExtends(cfg: Config, states: seq<Sys>, events: seq<Event>, ev: Event, next: Sys)
    requires Run(cfg, states, events) && Enabled(cfg, states[|events|], ev)
    requires next == Apply(cfg, states[|events|], ev)
    ensures Run(cfg, states + [next], events + [ev])
  {
    var states', events' := states + [next], events + [ev];
    forall i | 0 <= i < |events'|
      ensures Enabled(cfg, states'[i], events'[i]) && states'[i + 1] == Apply(cfg, states'[i], events'[i])
    {
      if i < |events| {
        assert Enabled(cfg, states[i], events[i]);
      }
    }
  }

  lemma ReachStep(cfg: Config, s: Sys, ev: Event)
    requires Reachable(cfg, s) && Enabled(cfg, s, ev)
    ensures Reachable(cfg, Apply(cfg, s, ev))
  {
    var states: seq<Sys>, events: seq<Event> :| Run(cfg, states, events) && states[|events|] == s;
    var next := Apply(cfg, s, ev);
    RunExtends(cfg, states, events, ev, next);
    assert (states + [next])[|events + [ev]|] == next;
  }

  /** A first half round: wake at the next boundary and drain the one pending transaction. */
  lemma DrainOne(cfg: Config, s: Sys, id: Text, tx: SignedTx, at: nat) returns (t: Sys)
    requires Reachable(cfg, s) && s.phase == Idle && s.node.pool.byId == map[id := tx]
    requires s.now <= at < CLOCK_LIMIT && cfg.clock.NextSlotStart(s.now) <= at
    ensures Reachable(cfg, t) && t.phase.Holding? && t.phase.txs == [tx]
    ensures t.node == s.node.(pool := s.node.pool.(byId := map[]))
    ensures t.chain == s.chain && t.accepted == s.accepted && t.now == at && t.sessions == s.sessions
  {
    ReachStep(cfg, s, Sleep);
    t := Apply(cfg, s, Sleep);
    ReachStep(cfg, t, Tick(at));
    t := Apply(cfg, t, Tick(at));
    ReachStep(cfg, t, Wake);
    t := Apply(cfg, t, Wake);
    assert |map[id := tx]| == 1;
    assert DrainAllowed(t.node.pool, MAX_TXS_PER_BLOCK, [id]);
    ReachStep(cfg, t, Drain([id]));
    assert Taken(t.node.pool, [id]) == [tx];
    assert map[id := tx] - (set x | x in [id]) == map[];
    t := Apply(cfg, t, Drain([id]));
  }

  /** Build and commit what is held. */
  lemma BuildAndCommit(cfg: Config, s: Sys) returns (t: Sys, b: Block)
    requires Reachable(cfg, s) && s.phase.Holding?
    ensures Reachable(cfg, t) && t.phase == Committed(b) && t.node == AfterCommit(s.node, b)
    ensures b.txs == s.phase.txs && b.header.height == s.phase.height && b.header.slot == s.phase.slot
    ensures b.header.epoch == s.phase.slot / EPOCH_SLOTS
    ensures t == s.(phase := t.phase, node := t.node, chain := s.chain + [b])
  {
    ReachStep(cfg, s, Build);
    t := Apply(cfg, s, Build);
    b := t.phase.block;
    ReachStep(cfg, t, Commit);
    t := Apply(cfg, t, Commit);
  }

  /** The second half, with nobody connected: build, commit, and rest again. */
  lemma CommitOne(cfg: Config, s: Sys) returns (t: Sys)
    requires Reachable(cfg, s) && s.phase.Holding? && s.node.channels == []
    ensures Reachable(cfg, t) && t.phase == Idle && t.now == s.now && t.accepted == s.accepted
    ensures |t.chain| == |s.chain| + 1 && s.chain <= t.chain && t.chain[|s.chain|].txs == s.phase.txs
    ensures t.node.pool == s.node.pool && t.node.channels == []
  {
    var b;
    t, b := BuildAndCommit(cfg, s);
    assert SnapshotAllowed(t.node, []);
    ReachStep(cfg, t, Snapshot([]));
    t := Apply(cfg, t, Snapshot([]));
    ReachStep(cfg, t, SendNext);
    t := Apply(cfg, t, SendNext);
  }

  /** Submitting a transaction the empty pool takes. */
  lemma SubmitOne(cfg: Config, s: Sys, tx: SignedTx) returns (t: Sys)
    requires Reachable(cfg, s) && s.node.pool.byId == map[] && s.node.pool.capacity >= 1
    requires s.node.pool.minFee == 0 && Genuine(cfg.env, tx) && s.now <= tx.expiry
    requires NonceFloor(s.node.pool, tx.fromPubkeyB64) <= tx.nonce
    ensures Reachable(cfg, t) && t.phase == s.phase && t.now == s.now && t.chain == s.chain
    ensures t.accepted == s.accepted + [tx]
    ensures t.node.pool.byId == map[TxId(cfg.env, tx) := tx] && |t.node.channels| == |s.node.channels|
    ensures t.sessions == s.sessions && t.node.peers == s.node.peers
    ensures forall c :: 0 <= c < |s.node.channels| ==> t.node.channels[c].owner == s.node.channels[c].owner
    ensures t.node.pool.capacity == s.node.pool.capacity && t.node.pool.minFee == 0
    ensures NonceFloor(t.node.pool, tx.fromPubkeyB64) == tx.nonce
  {
    VerifiesIff(cfg.env, tx, s.now);
    ReachStep(cfg, s, TxIn(FromHttp, tx, None));
    t := Apply(cfg, s, TxIn(FromHttp, tx, None));
  }

  /** At-most-once inclusion is not promised. Any valid transaction that lives a minute can
      be submitted, committed, submitted again and committed again. */
  lemma SameTransactionInTwoBlocks(cfg: Config, s: Sys, tx: SignedTx) returns (t: Sys)
    requires Initial(cfg, s) && Genuine(cfg.env, tx)
    requires s.now + 60 <= tx.expiry && s.now + 60 < CLOCK_LIMIT
    ensures Reachable(cfg, t) && |t.chain| == 2
    ensures t.chain[0].txs == [tx] && t.chain[1].txs == [tx]
  {
    var id := TxId(cfg.env, tx);
    ReachInitial(cfg, s);
    t := SubmitOne(cfg, s, tx);
    NextSlotStartIsLeast(cfg.clock, t.now);
    t := DrainOne(cfg, t, id, tx, s.now + 30);
    t := CommitOne(cfg, t);
    t := SubmitOne(cfg, t, tx);
    NextSlotStartIsLeast(cfg.clock, t.now);
    t := DrainOne(cfg, t, id, tx, s.now + 60);
    t := CommitOne(cfg, t);
  }

  /** Containment of a replica's pool goes one way only. A transaction accepted again while
      the producer holds it is in the server's pool, and the block that was being built then
      removes it from every client: with nothing in transit, a registered client ends up
      without a transaction the server still has (exactly when: `ReplicaPools`). */
  lemma ReplicaCanMissPending(cfg: Config, s: Sys, tx: SignedTx, peer: Text, name: Text) returns (t: Sys)
    requires Initial(cfg, s) && Genuine(cfg.env, tx)
    requires s.now + 30 <= tx.expiry && s.now + 30 < CLOCK_LIMIT
    ensures Reachable(cfg, t) && |t.sessions| == |t.node.channels| == 1 && Registered(t.node, 0)
    ensures t.phase.Sending? && t.phase.targets == []
    ensures t.sessions[0].read <= |t.node.channels[0].log|
    ensures var id := TxId(cfg.env, tx);
      && id in t.node.pool.byId
      && id !in Fold(cfg.env, t.sessions[0].client.pool.byId.Keys, t.node.channels[0].log[t.sessions[0].read..])
  {
    ReachInitial(cfg, s);
    ReachStep(cfg, s, Connect(peer, name));
    t := Apply(cfg, s, Connect(peer, name));
    t := SubmitOne(cfg, t, tx);
    NextSlotStartIsLeast(cfg.clock, t.now);
    t := DrainOne(cfg, t, TxId(cfg.env, tx), tx, s.now + 30);
    t := SubmitOne(cfg, t, tx);
    t := FinishRoundWithPeer(cfg, t, tx);
  }

  lemma FinishRoundWithPeer(cfg: Config, s: Sys, tx: SignedTx) returns (t: Sys)
    requires Reachable(cfg, s) && s.phase.Holding? && s.phase.txs == [tx]
    requires |s.sessions| == |s.node.channels| == 1 && Registered(s.node, 0) && s.sessions[0].read == 0
    ensures Reachable(cfg, t) && t.sessions == s.sessions && t.node.pool == s.node.pool
    ensures t.phase.Sending? && t.phase.targets == [] && |t.node.channels| == 1 && Registered(t.node, 0)
    ensures TxId(cfg.env, tx) !in Fold(cfg.env, s.sessions[0].client.pool.byId.Keys, t.node.channels[0].log[0..])
  {
    var b;
    t, b := BuildAndCommit(cfg, s);
    t := SendToOne(cfg, t);
    assert tx in b.txs;
    FoldAppend(cfg.env, s.sessions[0].client.pool.byId.Keys, s.node.channels[0].log, NewBlock(b));
  }

  lemma SendToOne(cfg: Config, s: Sys) returns (t: Sys)
    requires Reachable(cfg, s) && s.phase.Committed?
    requires |s.node.channels| == 1 && Registered(s.node, 0)
    ensures Reachable(cfg, t) && t.sessions == s.sessions && t.node.pool == s.node.pool
    ensures t.phase.Sending? && t.phase.targets == [] && |t.node.channels| == 1 && Registered(t.node, 0)
    ensures t.node.channels[0].log[0..] == s.node.channels[0].log + [NewBlock(s.phase.block)]
  {
    assert SnapshotAllowed(s.node, [0]);
    ReachStep(cfg, s, Snapshot([0]));
    t := Apply(cfg, s, Snapshot([0]));
    ReachStep(cfg, t, SendNext);
    t := Apply(cfg, t, SendNext);
  }

  /** Finality can name a block that does not exist. Let the server sleep through the first
      95 slots: its first block, in the first slot of the fourth epoch, makes the finalized
      height 64. */
  lemma FinalityCanPassTheTip(cfg: Config, s: Sys) returns (t: Sys)
    requires Initial(cfg, s) && s.now + 96 * SLOT_SECONDS < CLOCK_LIMIT
    ensures Reachable(cfg, t) && t.node.tipHeight == 1 && t.node.finalizedHeight == 64
  {
    ReachInitial(cfg, s);
    t := WakeLate(cfg, s);
    ReachStep(cfg, t, Drain([]));
    t := Apply(cfg, t, Drain([]));
    var b;
    t, b := BuildAndCommit(cfg, t);
  }

  lemma WakeLate(cfg: Config, s: Sys) returns (t: Sys)
    requires Reachable(cfg, s) && Initial(cfg, s) && s.now + 96 * SLOT_SECONDS < CLOCK_LIMIT
    ensures Reachable(cfg, t) && t.phase == Awake(96) && t.node == s.node && t.chain == []
  {
    var at := cfg.clock.genesis + 96 * SLOT_SECONDS;
    NextSlotStartIsLeast(cfg.clock, s.now);
    ReachStep(cfg, s, Sleep);
    t := Apply(cfg, s, Sleep);
    ReachStep(cfg, t, Tick(at));
    t := Apply(cfg, t, Tick(at));
    ReachStep(cfg, t, Wake);
    t := Apply(cfg, t, Wake);
  }
}

/** What a client's replica is, after every interleaving. */
module Clients {
  import opened Bytes
  import opened Crypto
  import opened Transaction
  import opened Chain
  import opened Finality
  import opened Mempool
  import opened Protocol
  import opened Replica
  import opened Node
  import opened Logs
  import opened Network
  import opened ChainSafety
  import opened Delivery

  // ---- The replica follows what it has read ----

  function TipOf(blocks: seq<Block>): nat {
    if blocks == [] then 0 else blocks[|blocks| - 1].header.height
  }

  /** Every nonce in the client's table was announced to it. */
  ghost predicate NoncesFrom(table: map<Text, nat>, txs: seq<SignedTx>) {
    forall from :: from in table ==>
      exists i :: 0 <= i < |txs| && txs[i].fromPubkeyB64 == from && txs[i].nonce == table[from]
  }

  /** The replica is a function of the messages read: it never stopped, its tip is the last
      block read, its finality is the rule folded over the blocks read. */
  ghost predicate ReplicaOf(e: Env, c: ClientState, read: seq<Msg>) {
    && c.running
    && c.tipHeight == TipOf(Delivered(read))
    && c.finalizedHeight == FinalizedBy(Delivered(read))
    && c.pool.minFee == 0
    && PoolSound(e, c.pool)
    && NoncesFrom(c.pool.maxSeenNonce, Announced(read))
  }

  lemma NoncesGrow(table: map<Text, nat>, txs: seq<SignedTx>, more: seq<SignedTx>)
    requires NoncesFrom(table, txs)
    ensures NoncesFrom(table, txs + more)
  {
    forall from | from in table
      ensures exists i :: 0 <= i < |txs + more| && (txs + more)[i].fromPubkeyB64 == from
                && (txs + more)[i].nonce == table[from]
    {
      var i :| 0 <= i < |txs| && txs[i].fromPubkeyB64 == from && txs[i].nonce == table[from];
      assert (txs + more)[i] == txs[i];
    }
  }

  lemma NoncesGrowWith(table: map<Text, nat>, txs: seq<SignedTx>, tx: SignedTx)
    requires NoncesFrom(table, txs)
    ensures NoncesFrom(table[tx.fromPubkeyB64 := tx.nonce], txs + [tx])
  {
    NoncesGrow(table, txs, [tx]);
    assert (txs + [tx])[|txs|] == tx;
  }

  /** An announced transaction that carries a valid signature is refused by the client if
      and only if it has expired by the client's clock: never for its nonce or fee. */
  lemma AnnouncementRefusedIff(e: Env, c: ClientState, read: seq<SignedTx>, tx: SignedTx, at: nat)
    requires c.pool.minFee == 0 && NoncesFrom(c.pool.maxSeenNonce, read)
    requires Genuine(e, tx) && NonceSorted(read + [tx])
    ensures InsertOutcome(e, c.pool, tx, at).Rejected? <==> tx.expiry < at
    ensures InsertOutcome(e, c.pool, tx, at).Rejected? ==>
      InsertOutcome(e, c.pool, tx, at) == Rejected(Expired)
  {
    VerifiesIff(e, tx, at);
    var table, from := c.pool.maxSeenNonce, tx.fromPubkeyB64;
    if from in table {
      var i :| 0 <= i < |read| && read[i].fromPubkeyB64 == from && read[i].nonce == table[from];
      var longer := read + [tx];
      assert longer[i] == read[i] && longer[|read|] == tx;
    }
  }

  lemma AnnouncementKeepsReplica(e: Env, c: ClientState, read: seq<Msg>, tx: SignedTx, at: nat, victim: Option<Text>)
    requires ReplicaOf(e, c, read)
    requires EvictionAllowed(c.pool, InsertOutcome(e, c.pool, tx, at), victim)
    ensures ReplicaOf(e, AfterAnnounce(e, c, tx, at, victim), read + [TxAnnounce(tx)])
  {
    AppendOne(read, TxAnnounce(tx));
    assert Delivered(read) + [] == Delivered(read);
    InsertKeepsSound(e, c.pool, tx, at, victim);
    NoncesGrow(c.pool.maxSeenNonce, Announced(read), [tx]);
    NoncesGrowWith(c.pool.maxSeenNonce, Announced(read), tx);
  }

  lemma RemovalKeepsSound(e: Env, p: Pool, ids: set<Text>)
    requires PoolSound(e, p)
    ensures PoolSound(e, p.(byId := p.byId - ids))
  {
    var m := p.byId - ids;
    assert m.Keys <= p.byId.Keys;
    SubsetSize(m.Keys, p.byId.Keys);
  }

  lemma BlockKeepsReplica(cfg: Config, c: ClientState, read: seq<Msg>, b: Block)
    requires ReplicaOf(cfg.env, c, read) && Passes(cfg, b)
    ensures ReplicaOf(cfg.env, AfterBlock(cfg.env, ServerKey(cfg), c, b), read + [NewBlock(b)])
  {
    AppendOne(read, NewBlock(b));
    assert Announced(read) + [] == Announced(read);
    FinalityExtends(Delivered(read), b);
    RemovalKeepsSound(cfg.env, c.pool, IdSet(cfg.env, b.txs));
  }

  lemma MessageKeepsReplica(cfg: Config, c: ClientState, read: seq<Msg>, m: Msg, at: nat, victim: Option<Text>)
    requires ReplicaOf(cfg.env, c, read)
    requires m.NewBlock? ==> Passes(cfg, m.block)
    requires ClientEvictionAllowed(cfg.env, c, m, at, victim)
    ensures ReplicaOf(cfg.env, AfterMsg(cfg.env, ServerKey(cfg), c, m, at, victim), read + [m])
  {
    match m {
      case TxAnnounce(tx) => AnnouncementKeepsReplica(cfg.env, c, read, tx, at, victim);
      case NewBlock(b) => BlockKeepsReplica(cfg, c, read, b);
      case Peers(_) => OtherKeepsReplica(cfg.env, c, read, m);
      case TxAck(_, _, _) => OtherKeepsReplica(cfg.env, c, read, m);
    }
  }

  lemma OtherKeepsReplica(e: Env, c: ClientState, read: seq<Msg>, m: Msg)
    requires ReplicaOf(e, c, read) && BlockOf(m) == [] && TxOf(m) == []
    ensures ReplicaOf(e, c, read + [m])
  {
    AppendOne(read, m);
    assert Delivered(read) + [] == Delivered(read) && Announced(read) + [] == Announced(read);
  }

  ghost predicate Replicating(cfg: Config, s: Sys) {
    forall c ::
      (0 <= c < |s.sessions| && c < |s.node.channels| && s.sessions[c].read <= |s.node.channels[c].log|) ==>
      ReplicaOf(cfg.env, s.sessions[c].client, s.node.channels[c].log[..s.sessions[c].read])
  }

  lemma BlockInSegment(log: seq<Msg>, first: nat, chain: seq<Block>, registered: bool, pending: bool, k: nat)
    requires Segment(log, first, chain, registered, pending)
    requires k < |log| && log[k].NewBlock?
    ensures exists i :: 0 <= i < |chain| && chain[i] == log[k].block
  {
    ReadOne(log, k, log[..k]);
    DeliveredPrefix(log, k + 1);
    var i := |Delivered(log[..k])|;
    assert Delivered(log)[i] == log[k].block;
    assert chain[first + i] == log[k].block;
  }

  /** A block on a channel is a block of the chain, so it passes the check. */
  lemma NextBlockPasses(cfg: Config, s: Sys, c: nat, k: nat)
    requires Structure(s) && HistorySound(cfg, s.chain) && Delivering(s) && c < |s.sessions|
    requires k < |s.node.channels[c].log| && s.node.channels[c].log[k].NewBlock?
    ensures Passes(cfg, s.node.channels[c].log[k].block)
  {
    BlockInSegment(s.node.channels[c].log, s.sessions[c].first, s.chain, Registered(s.node, c), Pending(s, c), k);
  }

  lemma ReadMessageKeepsReplica(cfg: Config, x: Session, log: seq<Msg>, at: nat, victim: Option<Text>)
    requires x.read < |log| && ReplicaOf(cfg.env, x.client, log[..x.read])
    requires log[x.read].NewBlock? ==> Passes(cfg, log[x.read].block)
    requires ClientEvictionAllowed(cfg.env, x.client, log[x.read], at, victim)
    ensures ReplicaOf(cfg.env, AfterMsg(cfg.env, ServerKey(cfg), x.client, log[x.read], at, victim),
                      log[..x.read + 1])
  {
    MessageKeepsReplica(cfg, x.client, log[..x.read], log[x.read], at, victim);
    assert log[..x.read + 1] == log[..x.read] + [log[x.read]];
  }

  lemma ProcessKeepsReplicating(cfg: Config, s: Sys, c: nat, at: nat, victim: Option<Text>)
    requires Structure(s) && HistorySound(cfg, s.chain) && Delivering(s) && Replicating(cfg, s)
    requires Enabled(cfg, s, Process(c, at, victim))
    ensures Replicating(cfg, AfterProcess(cfg, s, c, at, victim))
  {
    var x, log := s.sessions[c], s.node.channels[c].log;
    if log[x.read].NewBlock? {
      NextBlockPasses(cfg, s, c, x.read);
    }
    ReadMessageKeepsReplica(cfg, x, log, at, victim);
    var s' := AfterProcess(cfg, s, c, at, victim);
    assert s'.node == s.node;
    forall k | 0 <= k < |s.sessions| && s'.sessions[k].read <= |s.node.channels[k].log|
      ensures ReplicaOf(cfg.env, s'.sessions[k].client, s.node.channels[k].log[..s'.sessions[k].read])
    {
      if k != c {
        assert s'.sessions[k] == s.sessions[k];
      }
    }
  }

  /** What has been read stays read when the log grows. */
  lemma LogsOnlyGrow(cfg: Config, s: Sys, ev: Event, c: nat)
    requires Structure(s) && Enabled(cfg, s, ev) && c < |s.node.channels|
    ensures var s' := Apply(cfg, s, ev);
      && c < |s'.node.channels| && s.node.channels[c].log <= s'.node.channels[c].log
      && s'.node.channels[c].owner == s.node.channels[c].owner
  {
  }

  lemma OthersKeepReplicating(cfg: Config, s: Sys, ev: Event)
    requires Structure(s) && Replicating(cfg, s) && Enabled(cfg, s, ev) && !ev.Process? && !ev.Connect?
    ensures Replicating(cfg, Apply(cfg, s, ev))
  {
    var s' := Apply(cfg, s, ev);
    assert |s'.sessions| == |s.sessions|;
    forall c | 0 <= c < |s.sessions|
      ensures c < |s'.node.channels| && s.sessions[c].read <= |s.node.channels[c].log|
      ensures s'.sessions[c].read == s.sessions[c].read && s'.sessions[c].client == s.sessions[c].client
      ensures s'.node.channels[c].log[..s.sessions[c].read] == s.node.channels[c].log[..s.sessions[c].read]
    {
      LogsOnlyGrow(cfg, s, ev, c);
    }
  }

  lemma ConnectKeepsReplicating(cfg: Config, s: Sys, id: Text, name: Text)
    requires Structure(s) && Replicating(cfg, s)
    ensures Replicating(cfg, AfterConnect(s, id, name))
  {
    var s' := AfterConnect(s, id, name);
    var n := |s.sessions|;
    assert s'.node.channels[n].log[..0] == [];
    assert ReplicaOf(cfg.env, NewClient, []);
  }

  lemma ReplicatingKept(cfg: Config, s: Sys, ev: Event)
    requires Safe(cfg, s) && Delivering(s) && Replicating(cfg, s) && Enabled(cfg, s, ev)
    ensures Replicating(cfg, Apply(cfg, s, ev))
  {
    match ev {
      case Process(c, at, victim) => ProcessKeepsReplicating(cfg, s, c, at, victim);
      case Connect(id, name) => ConnectKeepsReplicating(cfg, s, id, name);
      case _ => OthersKeepReplicating(cfg, s, ev);
    }
  }

  // ---- Pool containment ----

  /** The ids drained from the server's pool whose block channel `c` has yet to be sent. */
  ghost function InTransit(e: Env, p: Phase, c: nat): set<Text> {
    match p
    case Holding(_, _, _, txs) => IdSet(e, txs)
    case Built(b) => IdSet(e, b.txs)
    case Committed(b) => IdSet(e, b.txs)
    case Sending(b, targets) => if c in targets then IdSet(e, b.txs) else {}
    case _ => {}
  }

  ghost function EvictedIds(s: Sys): set<Text> { set id | id in s.evicted }

  /** Whatever the client does with its queue, no id can stay in its pool but those in the
      server's pool, in transit, or evicted by the server. */
  ghost predicate Contained(e: Env, s: Sys, c: nat)
    requires c < |s.sessions| && c < |s.node.channels| && s.sessions[c].read <= |s.node.channels[c].log|
  {
    Fold(e, s.sessions[c].client.pool.byId.Keys, s.node.channels[c].log[s.sessions[c].read..])
      <= s.node.pool.byId.Keys + InTransit(e, s.phase, c) + EvictedIds(s)
  }

  ghost predicate Containing(e: Env, s: Sys) {
    forall c ::
      (0 <= c < |s.sessions| && c < |s.node.channels| && s.sessions[c].read <= |s.node.channels[c].log|
       && Registered(s.node, c)) ==>
      Contained(e, s, c)
  }

  /** Sending one more message folds it on top. */
  lemma QueueGrows(e: Env, ids: set<Text>, log: seq<Msg>, read: nat, m: Msg)
    requires read <= |log|
    ensures Fold(e, ids, (log + [m])[read..]) == FoldOne(e, Fold(e, ids, log[read..]), m)
  {
    assert (log + [m])[read..] == log[read..] + [m];
    FoldAppend(e, ids, log[read..], m);
  }

  /** A client's turn keeps at most what the fold keeps. */
  lemma TurnWithinFold(cfg: Config, c: ClientState, m: Msg, at: nat, victim: Option<Text>)
    requires m.NewBlock? ==> Passes(cfg, m.block)
    requires ClientEvictionAllowed(cfg.env, c, m, at, victim)
    ensures AfterMsg(cfg.env, ServerKey(cfg), c, m, at, victim).pool.byId.Keys
         <= FoldOne(cfg.env, c.pool.byId.Keys, m)
  {
    if m.TxAnnounce? {
      InsertEffect(cfg.env, c.pool, m.tx, at, victim);
    }
  }

  lemma TurnWithinQueue(cfg: Config, x: Session, log: seq<Msg>, at: nat, victim: Option<Text>)
    requires x.read < |log| && (log[x.read].NewBlock? ==> Passes(cfg, log[x.read].block))
    requires ClientEvictionAllowed(cfg.env, x.client, log[x.read], at, victim)
    ensures Fold(cfg.env, AfterMsg(cfg.env, ServerKey(cfg), x.client, log[x.read], at, victim).pool.byId.Keys,
                 log[x.read + 1..])
         <= Fold(cfg.env, x.client.pool.byId.Keys, log[x.read..])
  {
    var ids, m, queue := x.client.pool.byId.Keys, log[x.read], log[x.read..];
    var ids' := AfterMsg(cfg.env, ServerKey(cfg), x.client, m, at, victim).pool.byId.Keys;
    TurnWithinFold(cfg, x.client, m, at, victim);
    FoldHead(cfg.env, ids, queue);
    assert queue[1..] == log[x.read + 1..];
    FoldMonotone(cfg.env, ids', FoldOne(cfg.env, ids, m), queue[1..]);
  }

  lemma ProcessKeepsContained(cfg: Config, s: Sys, c: nat, at: nat, victim: Option<Text>)
    requires Safe(cfg, s) && Delivering(s) && Enabled(cfg, s, Process(c, at, victim))
    requires Contained(cfg.env, s, c)
    ensures c < |AfterProcess(cfg, s, c, at, victim).sessions|
    ensures Contained(cfg.env, AfterProcess(cfg, s, c, at, victim), c)
  {
    var x, log := s.sessions[c], s.node.channels[c].log;
    if log[x.read].NewBlock? {
      NextBlockPasses(cfg, s, c, x.read);
    }
    TurnWithinQueue(cfg, x, log, at, victim);
  }

  lemma ProcessKeepsContaining(cfg: Config, s: Sys, c: nat, at: nat, victim: Option<Text>)
    requires Safe(cfg, s) && Delivering(s) && Containing(cfg.env, s) && Enabled(cfg, s, Process(c, at, victim))
    ensures Containing(cfg.env, AfterProcess(cfg, s, c, at, victim))
  {
    var s' := AfterProcess(cfg, s, c, at, victim);
    forall k | 0 <= k < |s.sessions| && Registered(s'.node, k)
      ensures Contained(cfg.env, s', k)
    {
      assert Contained(cfg.env, s, k);
      if k == c {
        ProcessKeepsContained(cfg, s, c, at, victim);
      }
    }
  }

  lemma FoldStaysWithin(e: Env, ids: set<Text>, log: seq<Msg>, read: nat, ms: seq<Msg>, tx: SignedTx,
                        allowed: set<Text>)
    requires read <= |log| && Fold(e, ids, log[read..]) <= allowed
    requires || ms == []
             || (|ms| == 1 && ms[0].TxAck?)
             || (ms == [TxAnnounce(tx)] && TxId(e, tx) in allowed)
    ensures Fold(e, ids, (log + ms)[read..]) <= allowed
  {
    if ms == [] {
      assert log + ms == log;
    } else {
      assert ms == [ms[0]];
      QueueGrows(e, ids, log, read, ms[0]);
    }
  }

  /** An insertion brings in only what it announces, and the victim moves to the evicted. */
  lemma TxInKeepsContained(cfg: Config, s: Sys, origin: Origin, tx: SignedTx, victim: Option<Text>, c: nat)
    requires Structure(s) && Enabled(cfg, s, TxIn(origin, tx, victim)) && c < |s.sessions|
    requires Contained(cfg.env, s, c)
    ensures Contained(cfg.env, AfterTxIn(cfg, s, origin, tx, victim), c)
  {
    var e, r, s' := cfg.env, Outcome(cfg, s, tx), AfterTxIn(cfg, s, origin, tx, victim);
    OutgoingCases(e, s.node, origin, tx, r, c);
    LogAfterTxIn(cfg, s, origin, tx, victim, c);
    EvictedMoves(cfg, s, origin, tx, victim);
    FoldStaysWithin(e, s.sessions[c].client.pool.byId.Keys, s.node.channels[c].log, s.sessions[c].read,
                    Outgoing(e, s.node, origin, tx, r, c), tx,
                    s'.node.pool.byId.Keys + InTransit(e, s.phase, c) + EvictedIds(s'));
  }

  lemma EvictedMoves(cfg: Config, s: Sys, origin: Origin, tx: SignedTx, victim: Option<Text>)
    requires Enabled(cfg, s, TxIn(origin, tx, victim))
    ensures var s' := AfterTxIn(cfg, s, origin, tx, victim);
      && s.node.pool.byId.Keys + EvictedIds(s) <= s'.node.pool.byId.Keys + EvictedIds(s')
      && (Outcome(cfg, s, tx).Fresh() ==> TxId(cfg.env, tx) in s'.node.pool.byId)
  {
    var s' := AfterTxIn(cfg, s, origin, tx, victim);
    InsertEffect(cfg.env, s.node.pool, tx, s.now, victim);
    assert forall id :: id in s.evicted ==> id in s'.evicted;
    if victim.Some? {
      assert s'.evicted[|s.evicted|] == victim.value;
      assert victim.value in s'.evicted;
    }
  }

  lemma TxInKeepsContaining(cfg: Config, s: Sys, origin: Origin, tx: SignedTx, victim: Option<Text>)
    requires Structure(s) && Containing(cfg.env, s) && Enabled(cfg, s, TxIn(origin, tx, victim))
    ensures Containing(cfg.env, AfterTxIn(cfg, s, origin, tx, victim))
  {
    var s' := AfterTxIn(cfg, s, origin, tx, victim);
    forall c | 0 <= c < |s.sessions| && Registered(s'.node, c)
      ensures Contained(cfg.env, s', c)
    {
      assert Registered(s.node, c) && Contained(cfg.env, s, c);
      TxInKeepsContained(cfg, s, origin, tx, victim, c);
    }
  }

  /** Draining moves ids from the pool into transit for everyone. */
  lemma DrainKeepsContained(e: Env, s: Sys, txs: seq<SignedTx>, rest: Pool, c: nat)
    requires Structure(s) && s.phase.Awake? && c < |s.sessions|
    requires s.node.pool.byId.Keys == rest.byId.Keys + IdSet(e, txs)
    requires Contained(e, s, c)
    ensures Contained(e, AfterDraining(s, txs, rest), c)
  {
    assert InTransit(e, s.phase, c) == {};
  }

  lemma DrainKeepsContaining(cfg: Config, s: Sys, ids: seq<Text>)
    requires Structure(s) && PoolSound(cfg.env, s.node.pool) && Containing(cfg.env, s)
    requires Enabled(cfg, s, Drain(ids))
    ensures Containing(cfg.env, Apply(cfg, s, Drain(ids)))
  {
    var txs, rest := Taken(s.node.pool, ids), AfterDrain(s.node.pool, ids);
    var s' := AfterDraining(s, txs, rest);
    DrainSplits(cfg.env, s.node.pool, MAX_TXS_PER_BLOCK, ids);
    forall c | 0 <= c < |s.sessions| && Registered(s'.node, c)
      ensures Contained(cfg.env, s', c)
    {
      assert Registered(s.node, c) && Contained(cfg.env, s, c);
      DrainKeepsContained(cfg.env, s, txs, rest, c);
    }
  }

  /** Sending the block takes its ids out of transit and out of the fold. */
  lemma SendKeepsContained(e: Env, s: Sys, b: Block, targets: seq<nat>, c: nat)
    requires Structure(s) && s.phase == Sending(b, targets) && targets != [] && c < |s.sessions|
    requires Contained(e, s, c)
    ensures Contained(e, AfterSending(s, b, targets), c)
  {
    if c == targets[0] {
      QueueGrows(e, s.sessions[c].client.pool.byId.Keys, s.node.channels[c].log, s.sessions[c].read, NewBlock(b));
    } else {
      assert c in targets <==> c in targets[1..];
    }
  }

  lemma SendKeepsContaining(cfg: Config, s: Sys)
    requires Structure(s) && Containing(cfg.env, s) && Enabled(cfg, s, SendNext)
    ensures Containing(cfg.env, Apply(cfg, s, SendNext))
  {
    var s' := Apply(cfg, s, SendNext);
    forall c | 0 <= c < |s.sessions| && Registered(s'.node, c)
      ensures Contained(cfg.env, s', c)
    {
      assert Registered(s.node, c) && Contained(cfg.env, s, c);
      if s.phase.targets != [] {
        SendKeepsContained(cfg.env, s, s.phase.block, s.phase.targets, c);
      }
    }
  }

  lemma ConnectKeepsContaining(cfg: Config, s: Sys, id: Text, name: Text)
    requires Structure(s) && Containing(cfg.env, s)
    ensures Containing(cfg.env, AfterConnect(s, id, name))
  {
    var s' := AfterConnect(s, id, name);
    var n := |s.sessions|;
    forall c | 0 <= c < |s'.sessions| && Registered(s'.node, c)
      ensures Contained(cfg.env, s', c)
    {
      if c < n {
        assert Registered(s.node, c) && Contained(cfg.env, s, c);
      } else {
        var log := s'.node.channels[n].log;
        assert log[0..] == [] + [log[0]];
        FoldAppend(cfg.env, {}, [], log[0]);
      }
    }
  }

  /** The other producer steps keep the same ids in transit to a registered channel. */
  lemma RoundKeepsInTransit(cfg: Config, s: Sys, ev: Event, c: nat)
    requires Enabled(cfg, s, ev) && Registered(s.node, c)
    requires ev.Sleep? || ev.Wake? || ev.Build? || ev.Commit? || ev.Snapshot?
    ensures InTransit(cfg.env, Apply(cfg, s, ev).phase, c) == InTransit(cfg.env, s.phase, c)
  {
  }

  lemma OthersKeepContaining(cfg: Config, s: Sys, ev: Event)
    requires Structure(s) && Containing(cfg.env, s) && Enabled(cfg, s, ev)
    requires ev.Tick? || ev.Disconnect? || ev.Sleep? || ev.Wake? || ev.Build? || ev.Commit? || ev.Snapshot?
    ensures Containing(cfg.env, Apply(cfg, s, ev))
  {
    var s' := Apply(cfg, s, ev);
    assert s'.node.channels == s.node.channels && s'.node.pool == s.node.pool;
    assert s'.evicted == s.evicted && |s'.sessions| == |s.sessions|;
    assert s'.node.peers == s.node.peers || ev.Disconnect?;
    forall c | 0 <= c < |s.sessions| && Registered(s'.node, c)
      ensures Contained(cfg.env, s', c)
    {
      assert Registered(s.node, c) && Contained(cfg.env, s, c);
      assert s'.sessions[c].client == s.sessions[c].client && s'.sessions[c].read == s.sessions[c].read;
      if ev.Tick? || ev.Disconnect? {
        assert s'.phase == s.phase;
      } else {
        RoundKeepsInTransit(cfg, s, ev, c);
      }
    }
  }

  lemma ContainingKept(cfg: Config, s: Sys, ev: Event)
    requires Safe(cfg, s) && Delivering(s) && Containing(cfg.env, s) && Enabled(cfg, s, ev)
    ensures Containing(cfg.env, Apply(cfg, s, ev))
  {
    match ev {
      case TxIn(origin, tx, victim) => TxInKeepsContaining(cfg, s, origin, tx, victim);
      case Connect(id, name) => ConnectKeepsContaining(cfg, s, id, name);
      case Drain(ids) => DrainKeepsContaining(cfg, s, ids);
      case SendNext => SendKeepsContaining(cfg, s);
      case Process(c, at, victim) => ProcessKeepsContaining(cfg, s, c, at, victim);
      case _ => OthersKeepContaining(cfg, s, ev);
    }
  }
}

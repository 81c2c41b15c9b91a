/** The bootnode, its clients and the channels between them as one state machine. Every
    locked section of the server is one event; the producer's round is a sequence of
    events between which any others may happen (src/net/server.rs). */
module Network {
  import opened Bytes
  import opened Crypto
  import opened Clock
  import opened Transaction
  import opened Chain
  import opened Mempool
  import opened Replica
  import opened Node

  datatype Config = Config(env: Env, sk: Key, clock: SlotClock)

  function ServerKey(cfg: Config): Option<Key> { Some(cfg.env.publicKey(cfg.sk)) }

  /** Where the producer task is in its round. */
  datatype Phase =
    | Idle
    | Sleeping(wake: nat)
    | Awake(slot: nat)
    | Holding(slot: nat, parentHash: Text, height: nat, txs: seq<SignedTx>)
    | Built(block: Block)
    | Committed(block: Block)
    | Sending(block: Block, targets: seq<nat>)

  /** The client end of the channel with the same number: how much of the channel's log it
      has processed, and its replica. `first` is the index of the first block it can get and
      `joined` the number of transactions accepted before it joined. */
  datatype Session = Session(connected: bool, read: nat, client: ClientState, first: nat, joined: nat)

  /** `chain`, `accepted` and `evicted` record the run: every block committed, every
      transaction the server accepted as new with where it came from, every id it evicted,
      in order. */
  datatype Sys = Sys(
    node: NodeState,
    phase: Phase,
    sessions: seq<Session>,
    now: nat,
    chain: seq<Block>,
    accepted: seq<SignedTx>,
    sources: seq<Origin>,
    evicted: seq<Text>)

  datatype Event =
    | Tick(to: nat)
    | Connect(id: Text, name: Text)
    | Disconnect(c: nat)
    | TxIn(origin: Origin, tx: SignedTx, victim: Option<Text>)
    | Sleep
    | Wake
    | Drain(ids: seq<Text>)
    | Build
    | Commit
    | Snapshot(targets: seq<nat>)
    | SendNext
    | Process(c: nat, at: nat, victim: Option<Text>)

  ghost predicate Initial(cfg: Config, s: Sys) {
    && s.now < CLOCK_LIMIT
    && cfg.clock == NewAligned(s.now)
    && s == Sys(InitialNode, Idle, [], s.now, [], [], [], [])
  }

  function Outcome(cfg: Config, s: Sys, tx: SignedTx): InsertResult {
    InsertOutcome(cfg.env, s.node.pool, tx, s.now)
  }

  ghost predicate Enabled(cfg: Config, s: Sys, ev: Event) {
    match ev
    case Tick(to) => s.now <= to < CLOCK_LIMIT
    case Connect(_, _) => true
    case Disconnect(c) => c < |s.sessions| && c < |s.node.channels| && s.sessions[c].connected
    case TxIn(_, tx, victim) => EvictionAllowed(s.node.pool, Outcome(cfg, s, tx), victim)
    case Sleep => s.phase.Idle?
    case Wake => s.phase.Sleeping? && s.now >= s.phase.wake
    case Drain(ids) => s.phase.Awake? && DrainAllowed(s.node.pool, MAX_TXS_PER_BLOCK, ids)
    case Build => s.phase.Holding?
    case Commit => s.phase.Built?
    case Snapshot(targets) => s.phase.Committed? && SnapshotAllowed(s.node, targets)
    case SendNext => s.phase.Sending? && (s.phase.targets != [] ==> s.phase.targets[0] < |s.node.channels|)
    case Process(c, at, victim) =>
      && c < |s.sessions| && c < |s.node.channels|
      && s.sessions[c].client.running
      && s.sessions[c].read < |s.node.channels[c].log|
      && ClientEvictionAllowed(cfg.env, s.sessions[c].client,
                               s.node.channels[c].log[s.sessions[c].read], at, victim)
  }

  function AfterTxIn(cfg: Config, s: Sys, origin: Origin, tx: SignedTx, victim: Option<Text>): Sys {
    s.(node := Ingest(cfg.env, s.node, origin, tx, s.now, victim),
       accepted := if Outcome(cfg, s, tx).Fresh() then s.accepted + [tx] else s.accepted,
       sources := if Outcome(cfg, s, tx).Fresh() then s.sources + [origin] else s.sources,
       evicted := match victim case Some(k) => s.evicted + [k] case None => s.evicted)
  }

  function AfterDraining(s: Sys, txs: seq<SignedTx>, rest: Pool): Sys
    requires s.phase.Awake?
  {
    s.(phase := Holding(s.phase.slot, s.node.tipHash, s.node.tipHeight + 1, txs),
       node := s.node.(pool := rest))
  }

  function AfterConnect(s: Sys, id: Text, name: Text): Sys {
    var first := if s.phase.Committed? && |s.chain| > 0 then |s.chain| - 1 else |s.chain|;
    s.(node := AfterRegister(s.node, id, name),
       sessions := s.sessions + [Session(true, 0, NewClient, first, |s.accepted|)])
  }

  function AfterSending(s: Sys, b: Block, targets: seq<nat>): Sys
    requires targets != [] && targets[0] < |s.node.channels|
  {
    s.(phase := Sending(b, targets[1..]), node := AfterSend(s.node, targets[0], b))
  }

  function AfterProcess(cfg: Config, s: Sys, c: nat, at: nat, victim: Option<Text>): Sys
    requires c < |s.sessions| && c < |s.node.channels| && s.sessions[c].read < |s.node.channels[c].log|
  {
    var x := s.sessions[c];
    var m := s.node.channels[c].log[x.read];
    s.(sessions := s.sessions[c :=
         x.(read := x.read + 1, client := AfterMsg(cfg.env, ServerKey(cfg), x.client, m, at, victim))])
  }

  function Apply(cfg: Config, s: Sys, ev: Event): Sys
    requires Enabled(cfg, s, ev)
  {
    match ev
    case Tick(to) => s.(now := to)
    case Connect(id, name) => AfterConnect(s, id, name)
    case Disconnect(c) =>
      s.(node := AfterDisconnect(s.node, s.node.channels[c].owner),
         sessions := s.sessions[c := s.sessions[c].(connected := false)])
    case TxIn(origin, tx, victim) => AfterTxIn(cfg, s, origin, tx, victim)
    case Sleep => s.(phase := Sleeping(cfg.clock.NextSlotStart(s.now)))
    case Wake => s.(phase := Awake(cfg.clock.SlotOf(s.now)))
    case Drain(ids) => AfterDraining(s, Taken(s.node.pool, ids), AfterDrain(s.node.pool, ids))
    case Build =>
      s.(phase := Built(BlockFor(cfg.env, cfg.sk, s.phase.parentHash, s.phase.height, s.phase.slot,
                                 s.now, s.phase.txs)))
    case Commit =>
      s.(phase := Committed(s.phase.block), node := AfterCommit(s.node, s.phase.block),
         chain := s.chain + [s.phase.block])
    case Snapshot(targets) => s.(phase := Sending(s.phase.block, targets))
    case SendNext =>
      if s.phase.targets == [] then s.(phase := Idle) else AfterSending(s, s.phase.block, s.phase.targets)
    case Process(c, at, victim) => AfterProcess(cfg, s, c, at, victim)
  }

  /** A run: states linked by enabled events, from an initial state. */
  ghost predicate Run(cfg: Config, states: seq<Sys>, events: seq<Event>) {
    && |states| == |events| + 1
    && Initial(cfg, states[0])
    && forall i {:trigger Enabled(cfg, states[i], events[i])} :: 0 <= i < |events| ==>
         Enabled(cfg, states[i], events[i]) && states[i + 1] == Apply(cfg, states[i], events[i])
  }

  /** A state some run, of whatever length and interleaving, ends in. */
  ghost predicate Reachable(cfg: Config, s: Sys) {
    exists states: seq<Sys>, events: seq<Event> ::
      Run(cfg, states, events) && states[|events|] == s
  }

  /** What the producer holds between draining and committing. */
  function InFlight(p: Phase): seq<SignedTx> {
    match p case Holding(_, _, _, txs) => txs case Built(b) => b.txs case _ => []
  }
}

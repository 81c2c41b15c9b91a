/** What the client at the end of a channel has, in every state of every run. */
module Replicas {
  import opened Crypto
  import opened Transaction
  import opened Chain
  import opened Finality
  import opened Mempool
  import opened Protocol
  import opened Replica
  import opened Node
  import opened Logs
  import opened Network
  import opened ChainSafety
  import opened Delivery
  import opened Clients
  import opened Runs

  function ReadLog(s: Sys, c: nat): seq<Msg>
    requires c < |s.sessions| && c < |s.node.channels| && s.sessions[c].read <= |s.node.channels[c].log|
  {
    s.node.channels[c].log[..s.sessions[c].read]
  }

  function BlocksRead(s: Sys, c: nat): nat
    requires c < |s.sessions| && c < |s.node.channels| && s.sessions[c].read <= |s.node.channels[c].log|
  {
    |Delivered(ReadLog(s, c))|
  }

  lemma ReadSegment(log: seq<Msg>, read: nat, first: nat, chain: seq<Block>, registered: bool, pending: bool)
    requires Segment(log, first, chain, registered, pending) && read <= |log|
    ensures var d := Delivered(log[..read]);
      first + |d| <= |chain| && d == chain[first..first + |d|]
  {
    DeliveredPrefix(log, read);
  }

  lemma HeightAt(e: Env, chain: seq<Block>, k: nat)
    requires ProducerChain(e, chain) && k < |chain|
    ensures chain[k].header.height == k + 1
  {
    assert ExtendsChain(e, chain[..k], chain[k]);
  }

  /** The replica of a client that has processed blocks `first` up to `upto` of the chain:
      its tip is the last of them, and its finalized height is the one the server had right
      after that same block, once a boundary block was among them, and zero until then. */
  ghost predicate Agrees(client: ClientState, chain: seq<Block>, first: nat, upto: nat)
    requires first <= upto <= |chain|
  {
    && client.running
    && client.tipHeight == (if upto == first then 0 else upto)
    && client.finalizedHeight ==
         (if exists i :: first <= i < upto && IsBoundary(chain[i]) then FinalizedBy(chain[..upto]) else 0)
  }

  lemma TipOverSegment(e: Env, chain: seq<Block>, first: nat, upto: nat)
    requires ProducerChain(e, chain) && first <= upto <= |chain|
    ensures TipOf(chain[first..upto]) == if upto == first then 0 else upto
  {
    if upto > first {
      HeightAt(e, chain, upto - 1);
    }
  }

  lemma AgreesOver(client: ClientState, chain: seq<Block>, first: nat, upto: nat)
    requires first <= upto <= |chain| && client.running
    requires client.tipHeight == if upto == first then 0 else upto
    requires client.finalizedHeight == FinalizedBy(chain[first..upto])
    ensures Agrees(client, chain, first, upto)
  {
    LateJoinerAgrees(chain, first, upto);
  }

  lemma ReplicaOverSegment(e: Env, client: ClientState, read: seq<Msg>, chain: seq<Block>, first: nat, upto: nat)
    requires ReplicaOf(e, client, read) && ProducerChain(e, chain)
    requires first <= upto <= |chain| && Delivered(read) == chain[first..upto]
    ensures Agrees(client, chain, first, upto)
  {
    TipOverSegment(e, chain, first, upto);
    AgreesOver(client, chain, first, upto);
  }

  /** What the invariant says of one client. */
  ghost predicate ClientSound(e: Env, s: Sys, c: nat)
    requires c < |s.sessions|
  {
    && c < |s.node.channels| && s.sessions[c].read <= |s.node.channels[c].log|
    && ReplicaOf(e, s.sessions[c].client, ReadLog(s, c)) && ProducerChain(e, s.chain)
    && Segment(s.node.channels[c].log, s.sessions[c].first, s.chain, Registered(s.node, c), Pending(s, c))
  }

  lemma ClientFacts(cfg: Config, s: Sys, c: nat)
    requires Invariant(cfg, s) && c < |s.sessions|
    ensures ClientSound(cfg.env, s, c)
  {
  }

  lemma ReachableClient(cfg: Config, s: Sys, c: nat)
    requires Lawful(cfg.env) && Reachable(cfg, s) && c < |s.sessions|
    ensures ClientSound(cfg.env, s, c)
  {
    ReachableInvariant(cfg, s);
    ClientFacts(cfg, s, c);
  }

  lemma ClientInRun(cfg: Config, states: seq<Sys>, events: seq<Event>, j: nat, c: nat)
    requires Lawful(cfg.env) && Run(cfg, states, events) && j < |states| && c < |states[j].sessions|
    ensures ClientSound(cfg.env, states[j], c)
  {
    RunKeepsInvariant(cfg, states, events, j);
    ClientFacts(cfg, states[j], c);
  }

  /** The blocks a client has processed are the gap-free piece of the chain that starts at
      its first block, and it agrees with the server at the last of them. It has never
      stopped on a block it would not accept. */
  lemma ReplicaAgreesWithServer(cfg: Config, s: Sys, c: nat)
    requires Lawful(cfg.env) && Reachable(cfg, s) && c < |s.sessions|
    ensures c < |s.node.channels| && s.sessions[c].read <= |s.node.channels[c].log|
    ensures var first, upto := s.sessions[c].first, s.sessions[c].first + BlocksRead(s, c);
      && upto <= |s.chain|
      && Delivered(ReadLog(s, c)) == s.chain[first..upto]
      && Agrees(s.sessions[c].client, s.chain, first, upto)
  {
    ReachableClient(cfg, s, c);
    ClientAgrees(cfg.env, s, c);
  }

  lemma ClientAgrees(e: Env, s: Sys, c: nat)
    requires c < |s.sessions| && ClientSound(e, s, c)
    ensures var first, upto := s.sessions[c].first, s.sessions[c].first + BlocksRead(s, c);
      && upto <= |s.chain|
      && Delivered(ReadLog(s, c)) == s.chain[first..upto]
      && Agrees(s.sessions[c].client, s.chain, first, upto)
  {
    SessionAgrees(e, s.sessions[c], s.node.channels[c].log, s.chain, Registered(s.node, c), Pending(s, c));
  }

  lemma SessionAgrees(e: Env, x: Session, log: seq<Msg>, chain: seq<Block>, registered: bool, pending: bool)
    requires x.read <= |log| && ReplicaOf(e, x.client, log[..x.read]) && ProducerChain(e, chain)
    requires Segment(log, x.first, chain, registered, pending)
    ensures var upto := x.first + |Delivered(log[..x.read])|;
      upto <= |chain| && Delivered(log[..x.read]) == chain[x.first..upto] && Agrees(x.client, chain, x.first, upto)
  {
    ReadSegment(log, x.read, x.first, chain, registered, pending);
    ReplicaOverSegment(e, x.client, log[..x.read], chain, x.first, x.first + |Delivered(log[..x.read])|);
  }

  /** A registered client that has read its whole queue while no block is pending for it
      agrees with the server at the server's tip. */
  lemma CaughtUpClientIsAtTip(cfg: Config, s: Sys, c: nat)
    requires Lawful(cfg.env) && Reachable(cfg, s) && c < |s.sessions| && Registered(s.node, c) && !Pending(s, c)
    requires c < |s.node.channels|
    requires s.sessions[c].read == |s.node.channels[c].log|
    ensures s.sessions[c].first <= |s.chain| == s.node.tipHeight
    ensures Agrees(s.sessions[c].client, s.chain, s.sessions[c].first, s.node.tipHeight)
  {
    ReachableInvariant(cfg, s);
    ClientFacts(cfg, s, c);
    SessionCaughtUp(cfg.env, s.sessions[c], s.node.channels[c].log, s.chain);
    TipIsLength(cfg, s);
  }

  lemma TipIsLength(cfg: Config, s: Sys)
    requires Invariant(cfg, s)
    ensures s.node.tipHeight == |s.chain| && s.node.finalizedHeight == FinalizedBy(s.chain)
  {
  }

  lemma SessionCaughtUp(e: Env, x: Session, log: seq<Msg>, chain: seq<Block>)
    requires x.read == |log| && ReplicaOf(e, x.client, log[..x.read]) && ProducerChain(e, chain)
    requires Segment(log, x.first, chain, true, false)
    ensures x.first <= |chain| && Agrees(x.client, chain, x.first, |chain|)
  {
    assert log[..x.read] == log;
    WholeSegment(log, x.first, chain);
    ReplicaOverSegment(e, x.client, log, chain, x.first, |chain|);
  }

  /** Over a run: when a client has processed blocks up to `upto`, a boundary block among
      them, its finalized height is what the server's was in any earlier state whose chain
      ended with block `upto`, the state right after that commit being the first of them. */
  lemma ReplicaFinalityIsServers(cfg: Config, states: seq<Sys>, events: seq<Event>, i: nat, j: nat, c: nat)
    requires Lawful(cfg.env) && Run(cfg, states, events) && i <= j < |states|
    requires c < |states[j].sessions| && c < |states[j].node.channels|
    requires states[j].sessions[c].read <= |states[j].node.channels[c].log|
    requires |states[i].chain| == states[j].sessions[c].first + BlocksRead(states[j], c)
    ensures var first := states[j].sessions[c].first;
      states[j].sessions[c].client.finalizedHeight ==
        if exists k :: first <= k < |states[i].chain| && IsBoundary(states[i].chain[k])
        then states[i].node.finalizedHeight else 0
  {
    var s, t := states[i], states[j];
    HistoryOnlyGrows(cfg, states, events, i, j);
    ServerFinalityInRun(cfg, states, events, i);
    ClientAgreesInRun(cfg, states, events, j, c);
    AgreesOnPrefix(t.sessions[c].client, t.chain, s.chain, t.sessions[c].first);
  }

  lemma ServerFinalityInRun(cfg: Config, states: seq<Sys>, events: seq<Event>, i: nat)
    requires Lawful(cfg.env) && Run(cfg, states, events) && i < |states|
    ensures states[i].node.finalizedHeight == FinalizedBy(states[i].chain)
  {
    RunKeepsInvariant(cfg, states, events, i);
    TipIsLength(cfg, states[i]);
  }

  lemma ClientAgreesInRun(cfg: Config, states: seq<Sys>, events: seq<Event>, j: nat, c: nat)
    requires Lawful(cfg.env) && Run(cfg, states, events) && j < |states|
    requires c < |states[j].sessions| && c < |states[j].node.channels|
    requires states[j].sessions[c].read <= |states[j].node.channels[c].log|
    ensures var first, upto := states[j].sessions[c].first, states[j].sessions[c].first + BlocksRead(states[j], c);
      upto <= |states[j].chain| && Agrees(states[j].sessions[c].client, states[j].chain, first, upto)
  {
    ClientInRun(cfg, states, events, j, c);
    ClientAgrees(cfg.env, states[j], c);
  }

  lemma AgreesOnPrefix(client: ClientState, chain: seq<Block>, prefix: seq<Block>, first: nat)
    requires prefix <= chain && first <= |prefix| && Agrees(client, chain, first, |prefix|)
    ensures client.finalizedHeight ==
      if exists k :: first <= k < |prefix| && IsBoundary(prefix[k]) then FinalizedBy(prefix) else 0
  {
    assert chain[..|prefix|] == prefix;
    assert forall k :: 0 <= k < |prefix| ==> prefix[k] == chain[k];
    if exists i :: first <= i < |prefix| && IsBoundary(chain[i]) {
      var i :| first <= i < |prefix| && IsBoundary(chain[i]);
      assert IsBoundary(prefix[i]);
    }
  }

  lemma WholeSegment(log: seq<Msg>, first: nat, chain: seq<Block>)
    requires Segment(log, first, chain, true, false)
    ensures first <= |chain| && Delivered(log) == chain[first..|chain|]
  {
  }

  /** Gossip is complete: a registered channel has carried every transaction accepted since
      it joined, apart from its own peer's submissions and relayed gossip, in the order of
      acceptance and once for each acceptance. */
  lemma GossipIsComplete(cfg: Config, s: Sys, c: nat)
    requires Lawful(cfg.env) && Reachable(cfg, s) && c < |s.sessions| && Registered(s.node, c)
    ensures c < |s.node.channels| && s.sessions[c].read <= |s.node.channels[c].log|
    ensures var x, ch := s.sessions[c], s.node.channels[c];
      && x.joined <= |s.accepted| == |s.sources|
      && Announced(ch.log) == Heard(ch.owner, s.accepted[x.joined..], s.sources[x.joined..])
  {
    ReachableInvariant(cfg, s);
    assert HearsAll(s.node.channels[c], s.sessions[c].joined, s.accepted, s.sources);
  }

  /** The next announcement a client reads was accepted by the server, and is refused if and
      only if it has expired by the client's own clock, never because of its nonce. */
  lemma GossipRefusedOnlyWhenExpired(cfg: Config, s: Sys, c: nat, at: nat)
    requires Lawful(cfg.env) && Reachable(cfg, s) && c < |s.sessions|
    requires c < |s.node.channels|
    requires s.sessions[c].read < |s.node.channels[c].log|
    requires s.node.channels[c].log[s.sessions[c].read].TxAnnounce?
    ensures var tx := s.node.channels[c].log[s.sessions[c].read].tx;
      var r := InsertOutcome(cfg.env, s.sessions[c].client.pool, tx, at);
      && (r.Rejected? <==> tx.expiry < at)
      && r != Rejected(NonceTooLow)
      && tx in s.accepted
  {
    ReachableInvariant(cfg, s);
    NextTurn(cfg, s, c, at);
  }

  /** What a client's next turn finds: a block that passes its check, or an accepted
      transaction that only expiry can keep out. */
  lemma NextTurn(cfg: Config, s: Sys, c: nat, at: nat)
    requires Invariant(cfg, s) && c < |s.sessions| && c < |s.node.channels|
    requires s.sessions[c].read < |s.node.channels[c].log|
    ensures var m := s.node.channels[c].log[s.sessions[c].read];
      && (m.NewBlock? ==> Passes(cfg, m.block))
      && (m.TxAnnounce? ==>
            var r := InsertOutcome(cfg.env, s.sessions[c].client.pool, m.tx, at);
            && (r.Rejected? <==> m.tx.expiry < at)
            && r != Rejected(NonceTooLow)
            && m.tx in s.accepted)
  {
    var x, log := s.sessions[c], s.node.channels[c].log;
    if log[x.read].NewBlock? {
      NextBlockPasses(cfg, s, c, x.read);
    }
    if log[x.read].TxAnnounce? {
      NextAnnouncement(log, x.read, s.accepted);
      AnnouncementRefusedIff(cfg.env, x.client, Announced(ReadLog(s, c)), log[x.read].tx, at);
    }
  }

  lemma NextAnnouncement(log: seq<Msg>, k: nat, accepted: seq<SignedTx>)
    requires k < |log| && log[k].TxAnnounce?
    requires IsSubsequence(Announced(log), accepted) && NonceSorted(accepted)
    ensures log[k].tx in accepted && NonceSorted(Announced(log[..k]) + [log[k].tx])
  {
    var heard := Announced(log[..k]) + [log[k].tx];
    ReadOne(log, k, log[..k]);
    DeliveredPrefix(log, k + 1);
    assert Announced(log)[|heard| - 1] == log[k].tx;
    SubsequenceHas(Announced(log), accepted, log[k].tx);
    SubsequenceSorted(Announced(log), accepted);
    PrefixSorted(heard, Announced(log));
  }

  lemma PrefixSorted(a: seq<SignedTx>, b: seq<SignedTx>)
    requires a <= b && NonceSorted(b)
    ensures NonceSorted(a)
  {
    assert forall i :: 0 <= i < |a| ==> a[i] == b[i];
  }

  /** Fold a registered client's unread queue over its pool: whatever is left is in the
      server's pool, in transit to that client, or was evicted by the server. Once the queue
      is read, the pool itself is so contained. */
  lemma ReplicaPoolContained(cfg: Config, s: Sys, c: nat)
    requires Lawful(cfg.env) && Reachable(cfg, s) && c < |s.sessions| && Registered(s.node, c)
    ensures c < |s.node.channels| && s.sessions[c].read <= |s.node.channels[c].log|
    ensures var x, allowed := s.sessions[c],
              s.node.pool.byId.Keys + InTransit(cfg.env, s.phase, c) + EvictedIds(s);
      && Fold(cfg.env, x.client.pool.byId.Keys, s.node.channels[c].log[x.read..]) <= allowed
      && (x.read == |s.node.channels[c].log| ==> x.client.pool.byId.Keys <= allowed)
  {
    ReachableInvariant(cfg, s);
    assert Contained(cfg.env, s, c);
  }
}

/** The server's shared state and its locked sections (src/net/server.rs). */
module Node {
  import opened Bytes
  import opened Crypto
  import opened Clock
  import opened Transaction
  import opened Chain
  import opened Finality
  import opened Mempool
  import opened Protocol

  const BLOCK_BUFFER: nat := 256

  /** Each connection gets a channel of its own; the peer table maps a node id to the
      channel registered last under it. `log` is everything ever sent on the channel. */
  datatype PeerEntry = PeerEntry(name: Text, channel: nat)
  datatype Channel = Channel(owner: Text, log: seq<Msg>)

  datatype NodeState = NodeState(
    pool: Pool,
    tipHash: Text,
    tipHeight: nat,
    finalizedHeight: nat,
    blocks: seq<Block>,
    peers: map<Text, PeerEntry>,
    channels: seq<Channel>)

  const InitialNode: NodeState := NodeState(DefaultPool, GENESIS, 0, 0, [], map[], [])

  predicate PeersSound(n: NodeState) {
    forall id :: id in n.peers ==>
      n.peers[id].channel < |n.channels| && n.channels[n.peers[id].channel].owner == id
  }

  /** The channel is the one the peer table holds for its owner. */
  predicate Registered(n: NodeState, c: nat) {
    && c < |n.channels|
    && n.channels[c].owner in n.peers
    && n.peers[n.channels[c].owner].channel == c
  }

  // ---- Transactions coming in ----

  datatype Origin = FromPeer(id: Text) | FromGossip | FromHttp

  function Extend(ch: Channel, ms: seq<Msg>): Channel {
    if ms == [] then ch else ch.(log := ch.log + ms)
  }

  /** What channel `c` is sent when `tx` comes in with result `r`: the submitting peer gets
      an acknowledgement, every other registered peer an announcement if the transaction is
      new. Gossiped transactions are not passed on. */
  function Outgoing(e: Env, n: NodeState, origin: Origin, tx: SignedTx, r: InsertResult, c: nat): seq<Msg>
  {
    if !Registered(n, c) then [] else
      match origin
      case FromGossip => []
      case FromHttp => if r.Fresh() then [TxAnnounce(tx)] else []
      case FromPeer(id) =>
        if n.channels[c].owner == id then
          [TxAck(TxId(e, tx), r.Accepted?, if r.Rejected? then Some(r.err) else None)]
        else if r.Fresh() then [TxAnnounce(tx)] else []
  }

  function Ingest(e: Env, n: NodeState, origin: Origin, tx: SignedTx, now: nat, victim: Option<Text>): NodeState {
    var r := InsertOutcome(e, n.pool, tx, now);
    n.(pool := AfterInsert(e, n.pool, tx, now, victim),
       channels := seq(|n.channels|, c requires 0 <= c < |n.channels| =>
         Extend(n.channels[c], Outgoing(e, n, origin, tx, r, c))))
  }

  // ---- Peers ----

  function Members(peers: map<Text, PeerEntry>): set<Member> {
    set id | id in peers :: Member(id, peers[id].name)
  }

  function AfterRegister(n: NodeState, id: Text, name: Text): NodeState {
    var peers := n.peers[id := PeerEntry(name, |n.channels|)];
    n.(peers := peers, channels := n.channels + [Channel(id, [Peers(Members(peers))])])
  }

  function AfterDisconnect(n: NodeState, id: Text): NodeState {
    n.(peers := n.peers - {id})
  }

  // ---- The producer ----

  function LastOf(blocks: seq<Block>, limit: nat): seq<Block> {
    if |blocks| > limit then blocks[|blocks| - limit..] else blocks
  }

  function AfterCommit(n: NodeState, b: Block): NodeState {
    n.(tipHash := b.hash,
       tipHeight := b.header.height,
       blocks := LastOf(n.blocks + [b], BLOCK_BUFFER),
       finalizedHeight := FinalizedAfter(n.finalizedHeight, b.header.slot, b.header.epoch))
  }

  /** The collected senders: every registered channel once, in some order. */
  ghost predicate SnapshotAllowed(n: NodeState, targets: seq<nat>) {
    && (forall i, j :: 0 <= i < j < |targets| ==> targets[i] != targets[j])
    && (forall c: nat :: c in targets <==> Registered(n, c))
  }

  function AfterSend(n: NodeState, c: nat, b: Block): NodeState
    requires c < |n.channels|
  {
    n.(channels := n.channels[c := Extend(n.channels[c], [NewBlock(b)])])
  }

  // ---- Lookups ----

  datatype BlockRef = BlockRef(height: nat, hash: Text, slot: nat, epoch: nat, timestamp: nat, finalized: bool)

  datatype TxLookup =
    | InMempool(tx: SignedTx)
    | InBlock(found: Option<SignedTx>, block: BlockRef, receipt: TxReceipt)
    | Nowhere

  predicate Mentions(b: Block, id: Text) {
    exists i :: 0 <= i < |b.receipts| && b.receipts[i].txId == id
  }

  /** Receipt `i` of buffered block `k` is the first receipt for the id in the newest
      buffered block that has one. */
  predicate NewestMention(blocks: seq<Block>, id: Text, k: nat, i: nat) {
    && k < |blocks| && i < |blocks[k].receipts|
    && blocks[k].receipts[i].txId == id
    && (forall j :: 0 <= j < i ==> blocks[k].receipts[j].txId != id)
    && (forall j :: k < j < |blocks| ==> !Mentions(blocks[j], id))
  }

  function RefTo(b: Block, finalizedHeight: nat): BlockRef {
    BlockRef(b.header.height, b.hash, b.header.slot, b.header.epoch, b.header.timestamp,
             b.header.height <= finalizedHeight)
  }

  ghost predicate ConsecutiveHeights(blocks: seq<Block>) {
    forall i :: 0 <= i < |blocks| ==> blocks[i].header.height == blocks[0].header.height + i
  }

  // ---- The class ----

  datatype SubmitError = NothingProvided | Refused(err: TxError)

  datatype SubmitResp = SubmitResp(
    id: Text, ok: bool, err: Option<SubmitError>, inserted: bool, mempoolSize: nat, timeToNextSlotMs: nat)

  /** The transaction the server makes from a message: its own, validly signed, for chain 1,
      to nobody, of value 0 and fee 1, good for ten minutes. */
  predicate IsMade(e: Env, sk: Key, message: Text, nonce: u64, now: u64, tx: SignedTx) {
    && Genuine(e, tx)
    && tx.version == 1 && tx.chainId == 1 && tx.fromPubkeyB64 == e.encode64(e.publicKey(sk))
    && tx.nonce == nonce && tx.to == None && tx.value == 0 && tx.maxFee == 1
    && tx.dataB64 == e.encode64(message)
    && tx.timestamp == now && tx.expiry == (now + 600) % 0x1_0000_0000_0000_0000
  }

  /** The milliseconds `post_tx` reports from a clock made on the spot are those any aligned
      clock counts to its next boundary, the producer's among them. */
  method SlotHint(now: nat) returns (ms: nat)
    ensures forall c: SlotClock :: c.Aligned() && c.genesis <= now ==>
      ms == (c.NextSlotStart(now) - now) * 1000
    ensures 0 < ms <= SLOT_SECONDS * 1000
  {
    var clock := NewAligned(now);
    var next := clock.NextSlotStart(now);
    ms := 0;
    if next > now {
      ms := (next - now) * 1000;
    }
    NextSlotStartIsLeast(clock, now);
    forall c: SlotClock | c.Aligned() && c.genesis <= now
      ensures c.NextSlotStart(now) == next
    {
      AlignedClocksAgree(c, clock, now);
    }
  }

  /** Pool and channels changed as `Ingest` says, whatever order the sends went in. */
  lemma SentAsIngest(e: Env, n: NodeState, origin: Origin, tx: SignedTx, now: nat,
                     victim: Option<Text>, r: InsertResult, n': NodeState)
    requires r == InsertOutcome(e, n.pool, tx, now)
    requires n' == n.(pool := AfterInsert(e, n.pool, tx, now, victim), channels := n'.channels)
    requires |n'.channels| == |n.channels|
    requires forall c :: 0 <= c < |n.channels| ==>
      n'.channels[c] == Extend(n.channels[c], Outgoing(e, n, origin, tx, r, c))
    ensures n' == Ingest(e, n, origin, tx, now, victim)
  {
    assert n'.channels == Ingest(e, n, origin, tx, now, victim).channels;
  }

  class State {
    const txs: TxStore
    var tipHash: Text
    var tipHeight: nat
    var finalizedHeight: nat
    var blocks: seq<Block>
    var peers: map<Text, PeerEntry>
    var channels: seq<Channel>

    function View(): NodeState
      reads this, txs
    {
      NodeState(txs.View(), tipHash, tipHeight, finalizedHeight, blocks, peers, channels)
    }

    ghost predicate Valid()
      reads this, txs
    {
      PeersSound(View()) && |blocks| <= BLOCK_BUFFER
    }

    constructor ()
      ensures View() == InitialNode && Valid() && fresh(txs)
    {
      txs := new TxStore();
      tipHash, tipHeight, finalizedHeight := GENESIS, 0, 0;
      blocks, peers, channels := [], map[], [];
    }

    /** Registration after the handshake. */
    method Register(id: Text, name: Text) returns (channel: nat)
      requires Valid()
      modifies this`peers, this`channels
      ensures Valid() && View() == AfterRegister(old(View()), id, name)
      ensures channel == |old(channels)| && Registered(View(), channel)
    {
      channel := |channels|;
      peers := peers[id := PeerEntry(name, channel)];
      var members := set p | p in peers :: Member(p, peers[p].name);
      channels := channels + [Channel(id, [Peers(members)])];
    }

    /** Cleanup when a connection's reader ends. */
    method Disconnect(id: Text)
      requires Valid()
      modifies this`peers
      ensures Valid() && View() == AfterDisconnect(old(View()), id)
    {
      peers := peers - {id};
    }

    /** Announces a transaction to every registered peer but one. */
    method Gossip(tx: SignedTx, except: Option<Text>)
      requires Valid()
      modifies this`channels
      ensures Valid() && |channels| == |old(channels)|
      ensures forall c :: 0 <= c < |channels| ==>
        channels[c] == Extend(old(channels)[c],
          if Registered(old(View()), c) && Some(old(channels)[c].owner) != except
          then [TxAnnounce(tx)] else [])
    {
      var rest := peers.Keys;
      while rest != {}
        invariant rest <= peers.Keys && |channels| == |old(channels)|
        invariant forall c :: 0 <= c < |channels| ==>
          channels[c] == Extend(old(channels)[c],
            if Registered(old(View()), c) && old(channels)[c].owner !in rest
               && Some(old(channels)[c].owner) != except
            then [TxAnnounce(tx)] else [])
        decreases |rest|
      {
        var id :| id in rest;
        rest := rest - {id};
        if Some(id) != except {
          Send(peers[id].channel, TxAnnounce(tx));
        }
      }
    }

    method Send(c: nat, m: Msg)
      requires c < |channels|
      modifies this`channels
      ensures channels == old(channels)[c := Extend(old(channels)[c], [m])]
    {
      channels := channels[c := channels[c].(log := channels[c].log + [m])];
    }

    /** Answers the submitting peer, if the peer table still knows it. */
    method Acknowledge(peerId: Text, id: Text, ok: bool, err: Option<TxError>)
      requires Valid()
      modifies this`channels
      ensures Valid() && |channels| == |old(channels)|
      ensures forall c :: 0 <= c < |channels| ==>
        channels[c] == Extend(old(channels)[c],
          if Registered(old(View()), c) && old(channels)[c].owner == peerId
          then [TxAck(id, ok, err)] else [])
    {
      if peerId in peers {
        Send(peers[peerId].channel, TxAck(id, ok, err));
      }
    }

    /** What follows an insertion: acknowledge, and announce to the others if new. */
    method Answer(e: Env, peerId: Text, tx: SignedTx, r: InsertResult)
      requires Valid() && (r.Accepted? ==> r.id == TxId(e, tx))
      modifies this`channels
      ensures Valid() && |channels| == |old(channels)|
      ensures forall c :: 0 <= c < |channels| ==>
        channels[c] == Extend(old(channels)[c], Outgoing(e, old(View()), FromPeer(peerId), tx, r, c))
    {
      match r {
        case Accepted(id, inserted, _) =>
          Acknowledge(peerId, id, true, None);
          if inserted {
            Gossip(tx, Some(peerId));
          }
        case Rejected(err) =>
          Acknowledge(peerId, TxId(e, tx), false, Some(err));
      }
    }

    /** What follows an insertion over HTTP: announce to every peer if new. */
    method Announce(e: Env, tx: SignedTx, r: InsertResult)
      requires Valid()
      modifies this`channels
      ensures Valid() && |channels| == |old(channels)|
      ensures forall c :: 0 <= c < |channels| ==>
        channels[c] == Extend(old(channels)[c], Outgoing(e, old(View()), FromHttp, tx, r, c))
    {
      if r.Fresh() {
        Gossip(tx, None);
      }
    }

    /** The TxSubmit arm of a connection's reader. */
    method OnTxSubmit(e: Env, peerId: Text, tx: SignedTx, now: nat)
      returns (r: InsertResult, ghost victim: Option<Text>)
      requires Valid()
      modifies this`channels, txs
      ensures Valid() && r == InsertOutcome(e, old(View()).pool, tx, now)
      ensures EvictionAllowed(old(View()).pool, r, victim)
      ensures View() == Ingest(e, old(View()), FromPeer(peerId), tx, now, victim)
    {
      ghost var n := View();
      r, victim := txs.InsertIfNew(e, tx, now);
      Answer(e, peerId, tx, r);
      SentAsIngest(e, n, FromPeer(peerId), tx, now, victim, r, View());
    }

    /** The TxAnnounce arm: insert, tell nobody. */
    method OnTxAnnounce(e: Env, tx: SignedTx, now: nat) returns (r: InsertResult, ghost victim: Option<Text>)
      requires Valid()
      modifies txs
      ensures Valid() && r == InsertOutcome(e, old(View()).pool, tx, now)
      ensures EvictionAllowed(old(View()).pool, r, victim)
      ensures View() == Ingest(e, old(View()), FromGossip, tx, now, victim)
    {
      ghost var n := View();
      r, victim := txs.InsertIfNew(e, tx, now);
      SentAsIngest(e, n, FromGossip, tx, now, victim, r, View());
    }

    /** The locked section of `post_tx`. */
    method SubmitFromHttp(e: Env, tx: SignedTx, now: nat)
      returns (r: InsertResult, size: nat, ghost victim: Option<Text>)
      requires Valid()
      modifies this`channels, txs
      ensures Valid() && r == InsertOutcome(e, old(View()).pool, tx, now)
      ensures EvictionAllowed(old(View()).pool, r, victim)
      ensures View() == Ingest(e, old(View()), FromHttp, tx, now, victim)
      ensures size == |View().pool.byId|
    {
      ghost var n := View();
      r, victim := txs.InsertIfNew(e, tx, now);
      size := |txs.byId|;
      Announce(e, tx, r);
      SentAsIngest(e, n, FromHttp, tx, now, victim, r, View());
    }

    /** `post_tx`: a given transaction, or one made and signed by the server from a message. */
    method PostTx(e: Env, sk: Key, given: Option<SignedTx>, message: Option<Text>, nonce: u64, now: u64)
      returns (resp: SubmitResp, tx: Option<SignedTx>, ghost victim: Option<Text>)
      requires Valid() && Lawful(e)
      modifies this`channels, txs
      ensures Valid()
      ensures given.Some? ==> tx == given
      ensures given.None? ==> tx.Some? == message.Some?
      ensures given.None? && message.Some? ==> IsMade(e, sk, message.value, nonce, now, tx.value)
      ensures tx.None? ==>
        View() == old(View())
        && resp == SubmitResp([], false, Some(NothingProvided), false, 0, resp.timeToNextSlotMs)
      ensures tx.Some? ==>
        var r := InsertOutcome(e, old(View()).pool, tx.value, now);
        && EvictionAllowed(old(View()).pool, r, victim)
        && View() == Ingest(e, old(View()), FromHttp, tx.value, now, victim)
        && resp.id == TxId(e, tx.value) && resp.inserted == r.Fresh()
        && resp.ok == r.Accepted? && resp.err == (if r.Rejected? then Some(Refused(r.err)) else None)
        && resp.mempoolSize == |View().pool.byId|
      ensures forall c: SlotClock :: c.Aligned() && c.genesis <= now ==>
        resp.timeToNextSlotMs == (c.NextSlotStart(now) - now) * 1000
    {
      victim := None;
      tx := given;
      if given.None? && message.Some? {
        var made := SignTx(e, sk, 1, nonce, None, 0, 1, e.encode64(message.value), 600, now);
        assert IsMade(e, sk, message.value, nonce, now, made);
        tx := Some(made);
      }
      var hint := SlotHint(now);
      if tx.None? {
        return SubmitResp([], false, Some(NothingProvided), false, 0, hint), tx, victim;
      }
      var r, size;
      r, size, victim := SubmitFromHttp(e, tx.value, now);
      resp := SubmitResp(TxId(e, tx.value), r.Accepted?, if r.Rejected? then Some(Refused(r.err)) else None,
                         r.Fresh(), size, hint);
    }

    /** The producer's first locked section: drain, and read the tip. */
    method DrainForBlock() returns (parentHash: Text, height: nat, taken: seq<SignedTx>, ghost ids: seq<Text>)
      requires Valid()
      modifies txs`byId
      ensures Valid() && parentHash == old(tipHash) && height == old(tipHeight) + 1
      ensures DrainAllowed(old(View()).pool, MAX_TXS_PER_BLOCK, ids)
      ensures taken == Taken(old(View()).pool, ids)
      ensures View() == old(View()).(pool := AfterDrain(old(View()).pool, ids))
    {
      taken, ids := txs.DrainBlock(MAX_TXS_PER_BLOCK);
      height := tipHeight + 1;
      parentHash := tipHash;
    }

    /** The producer's second locked section: move the tip, store the block, step finality. */
    method CommitBlock(b: Block) returns (finalized: nat)
      requires Valid()
      modifies this`tipHash, this`tipHeight, this`blocks, this`finalizedHeight
      ensures Valid() && View() == AfterCommit(old(View()), b)
      ensures finalized == finalizedHeight
    {
      tipHash := b.hash;
      tipHeight := b.header.height;
      blocks := blocks + [b];
      if |blocks| > BLOCK_BUFFER {
        blocks := blocks[1..];
      }
      if b.header.slot % EPOCH_SLOTS == 0 {
        if b.header.epoch >= 2 {
          finalizedHeight := (b.header.epoch - 2 + 1) * EPOCH_SLOTS;
        } else {
          finalizedHeight := 0;
        }
      }
      finalized := finalizedHeight;
    }

    /** The producer's read section: collect the senders of all peers. */
    method SnapshotPeers() returns (targets: seq<nat>)
      requires Valid()
      ensures SnapshotAllowed(View(), targets)
    {
      targets := [];
      var rest := peers.Keys;
      while rest != {}
        invariant rest <= peers.Keys
        invariant forall c: nat :: c in targets <==> Registered(View(), c) && channels[c].owner !in rest
        invariant forall i, j :: 0 <= i < j < |targets| ==> targets[i] != targets[j]
        decreases |rest|
      {
        var id :| id in rest;
        var c := peers[id].channel;
        assert channels[c].owner == id;
        rest := rest - {id};
        targets := targets + [c];
      }
    }

    /** One send of the producer's last loop. */
    method SendBlock(c: nat, b: Block)
      requires Valid() && c < |channels|
      modifies this`channels
      ensures Valid() && View() == AfterSend(old(View()), c, b)
    {
      Send(c, NewBlock(b));
    }

    /** `get_block_by_height`. */
    method GetBlockByHeight(height: nat) returns (r: Option<Block>)
      ensures r.Some? ==> r.value in blocks && r.value.header.height == height
      ensures r.None? ==> forall b :: b in blocks ==> b.header.height != height
      ensures ConsecutiveHeights(blocks) ==>
        r == if blocks != [] && 0 <= height - blocks[0].header.height < |blocks|
             then Some(blocks[height - blocks[0].header.height]) else None
    {
      var k := 0;
      while k < |blocks|
        invariant 0 <= k <= |blocks|
        invariant forall j :: 0 <= j < k ==> blocks[j].header.height != height
      {
        if blocks[k].header.height == height {
          return Some(blocks[k]);
        }
        k := k + 1;
      }
      return None;
    }

    /** The first receipt for an id in a block. */
    static method FindReceipt(b: Block, id: Text) returns (i: nat)
      ensures i <= |b.receipts|
      ensures i < |b.receipts| ==> b.receipts[i].txId == id
      ensures forall j :: 0 <= j < i ==> b.receipts[j].txId != id
    {
      i := 0;
      while i < |b.receipts|
        invariant 0 <= i <= |b.receipts|
        invariant forall j :: 0 <= j < i ==> b.receipts[j].txId != id
      {
        if b.receipts[i].txId == id {
          return;
        }
        i := i + 1;
      }
    }

    /** `get_receipt_by_id`: newest block first. */
    method GetReceiptById(id: Text) returns (r: Option<TxReceipt>, ghost k: nat, ghost i: nat)
      ensures r.Some? ==> NewestMention(blocks, id, k, i) && r.value == blocks[k].receipts[i]
      ensures r.None? ==> forall j :: 0 <= j < |blocks| ==> !Mentions(blocks[j], id)
    {
      k, i := 0, 0;
      var n := |blocks|;
      while n > 0
        invariant 0 <= n <= |blocks|
        invariant forall j :: n <= j < |blocks| ==> !Mentions(blocks[j], id)
      {
        n := n - 1;
        var at := FindReceipt(blocks[n], id);
        if at < |blocks[n].receipts| {
          return Some(blocks[n].receipts[at]), n, at;
        }
      }
      r := None;
    }

    /** `get_tx_by_id`: the pool, then the buffered blocks, newest first. The body is taken
        at the receipt's index, or searched for by id should the block be too short. */
    method GetTxById(e: Env, id: Text) returns (r: TxLookup, ghost k: nat, ghost i: nat)
      ensures r.InMempool? ==> id in txs.byId && r.tx == txs.byId[id]
      ensures r.InBlock? ==>
        && id !in txs.byId
        && NewestMention(blocks, id, k, i)
        && r.receipt == blocks[k].receipts[i]
        && r.block == RefTo(blocks[k], finalizedHeight)
        && (i < |blocks[k].txs| ==> r.found == Some(blocks[k].txs[i]))
      ensures r.Nowhere? ==>
        id !in txs.byId && forall j :: 0 <= j < |blocks| ==> !Mentions(blocks[j], id)
    {
      k, i := 0, 0;
      if id in txs.byId {
        return InMempool(txs.byId[id]), k, i;
      }
      var n := |blocks|;
      while n > 0
        invariant 0 <= n <= |blocks|
        invariant forall j :: n <= j < |blocks| ==> !Mentions(blocks[j], id)
      {
        n := n - 1;
        var b := blocks[n];
        var at := FindReceipt(b, id);
        if at < |b.receipts| {
          var ref := BlockRef(b.header.height, b.hash, b.header.slot, b.header.epoch,
                              b.header.timestamp, b.header.height <= finalizedHeight);
          var found: Option<SignedTx> := None;
          if at < |b.txs| {
            found := Some(b.txs[at]);
          } else {
            var j := 0;
            while j < |b.txs| && found.None? {
              if TxId(e, b.txs[j]) == id {
                found := Some(b.txs[j]);
              }
              j := j + 1;
            }
          }
          return InBlock(found, ref, b.receipts[at]), n, at;
        }
      }
      r := Nowhere;
    }
  }

  /** The newest mention is unique, so the two lookups answer with the same receipt. */
  lemma NewestMentionUnique(blocks: seq<Block>, id: Text, k: nat, i: nat, k': nat, i': nat)
    requires NewestMention(blocks, id, k, i) && NewestMention(blocks, id, k', i')
    ensures k == k' && i == i'
  {
    assert Mentions(blocks[k], id) && Mentions(blocks[k'], id);
  }

  /** In blocks whose receipts match their transactions, a receipt for an id is found
      exactly when a transaction with that id is in the block, and the body at the receipt's
      index carries that id. */
  lemma MentionsIffContains(e: Env, b: Block, id: Text)
    requires b.receipts == ReceiptsFor(e, b.txs)
    ensures Mentions(b, id) <==> id in IdSet(e, b.txs)
    ensures forall i :: 0 <= i < |b.receipts| && b.receipts[i].txId == id ==>
      i < |b.txs| && TxId(e, b.txs[i]) == id && b.receipts[i].txIndex == i
  {
    if id in IdSet(e, b.txs) {
      var tx :| tx in b.txs && TxId(e, tx) == id;
      var i :| 0 <= i < |b.txs| && b.txs[i] == tx;
      assert b.receipts[i].txId == id;
    }
    if Mentions(b, id) {
      var i :| 0 <= i < |b.receipts| && b.receipts[i].txId == id;
      assert b.txs[i] in b.txs;
    }
  }
}

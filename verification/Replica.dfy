/** The client's replica of pool, tip and finality (src/net/client.rs). */
module Replica {
  import opened Bytes
  import opened Crypto
  import opened Clock
  import opened Transaction
  import opened Chain
  import opened Finality
  import opened Mempool
  import opened Protocol

  datatype BlockError = BadBlockHash | BadHeaderSigEncoding | BadHeaderSigLength | BadHeaderSignature

  /** `running` turns false when the client's loop ends on a block it rejects. */
  datatype ClientState = ClientState(pool: Pool, tipHeight: nat, finalizedHeight: nat, running: bool)

  const NewClient: ClientState := ClientState(DefaultPool, 0, 0, true)

  /** The checks of `on_new_block`; `None` is success. */
  function CheckBlock(e: Env, serverKey: Option<Key>, b: Block): Option<BlockError> {
    if HeaderHash(e, b.header) != b.hash then Some(BadBlockHash)
    else match serverKey
      case None => None
      case Some(vk) =>
        match e.decode64(b.header.signatureB64)
        case None => Some(BadHeaderSigEncoding)
        case Some(sig) =>
          if |sig| != 64 then Some(BadHeaderSigLength)
          else if !e.verify(vk, SigningBytes(e, b.header), sig) then Some(BadHeaderSignature)
          else None
  }

  /** With a server key, a block passes if and only if its hash is that of its header and its
      signature is 64 bytes that verify over the digest of the header's fields; the hash
      alone decides without one. */
  lemma PassesIff(e: Env, vk: Key, b: Block)
    ensures CheckBlock(e, None, b) == None <==> HeaderHash(e, b.header) == b.hash
    ensures CheckBlock(e, Some(vk), b) == None <==>
      && HeaderHash(e, b.header) == b.hash
      && var sig := e.decode64(b.header.signatureB64);
      && sig.Some? && |sig.value| == 64
      && e.verify(vk, e.sha256(HeaderPreimage(b.header)), sig.value)
    ensures HeaderHash(e, b.header) == b.hash ==>
      var refused, sig := CheckBlock(e, Some(vk), b), e.decode64(b.header.signatureB64);
      && (sig.None? ==> refused == Some(BadHeaderSigEncoding))
      && (sig.Some? && |sig.value| != 64 ==> refused == Some(BadHeaderSigLength))
      && (refused == Some(BadHeaderSignature) ==> sig.Some? && |sig.value| == 64)
    ensures CheckBlock(e, Some(vk), b) == Some(BadBlockHash) <==> HeaderHash(e, b.header) != b.hash
  {
  }

  /** Every block a producer builds passes the check with that producer's key: the signing
      bytes do not depend on the signature written into the header afterwards. */
  lemma ProducedBlockPasses(e: Env, sk: Key, parentHash: Text, height: nat, slot: nat, now: nat,
                            txs: seq<SignedTx>)
    requires Lawful(e)
    ensures CheckBlock(e, Some(e.publicKey(sk)), BlockFor(e, sk, parentHash, height, slot, now, txs))
         == None
  {
    var h := HeaderFor(e, sk, parentHash, height, slot, now, txs);
    var unsigned := h.(signatureB64 := []);
    assert HeaderPreimage(h) == HeaderPreimage(unsigned);
    var sig := e.sign(sk, SigningBytes(e, unsigned));
    assert h.signatureB64 == e.encode64(sig);
    assert e.decode64(e.encode64(sig)) == Some(sig);
  }

  function AfterAnnounce(e: Env, c: ClientState, tx: SignedTx, now: nat, victim: Option<Text>): ClientState {
    c.(pool := AfterInsert(e, c.pool, tx, now, victim))
  }

  function AfterBlock(e: Env, serverKey: Option<Key>, c: ClientState, b: Block): ClientState {
    if CheckBlock(e, serverKey, b) != None then c.(running := false) else
      c.(pool := c.pool.(byId := c.pool.byId - IdSet(e, b.txs)),
         tipHeight := b.header.height,
         finalizedHeight := FinalizedAfter(c.finalizedHeight, b.header.slot, b.header.epoch))
  }

  /** One turn of the client's loop; acknowledgements and member lists are only printed. */
  function AfterMsg(e: Env, serverKey: Option<Key>, c: ClientState, m: Msg, now: nat,
                    victim: Option<Text>): ClientState {
    match m
    case TxAnnounce(tx) => AfterAnnounce(e, c, tx, now, victim)
    case NewBlock(b) => AfterBlock(e, serverKey, c, b)
    case _ => c
  }

  /** Which evictions the turn may make in the client's own pool. */
  predicate ClientEvictionAllowed(e: Env, c: ClientState, m: Msg, now: nat, victim: Option<Text>) {
    match m
    case TxAnnounce(tx) => EvictionAllowed(c.pool, InsertOutcome(e, c.pool, tx, now), victim)
    case _ => victim == None
  }

  /** A rejected block ends the client and changes nothing else; an accepted one takes exactly
      its own ids out of the pool, moves the tip, and leaves the pool's other fields alone. */
  lemma BlockEffect(e: Env, serverKey: Option<Key>, c: ClientState, b: Block)
    ensures var c' := AfterBlock(e, serverKey, c, b);
      if CheckBlock(e, serverKey, b) != None then
        !c'.running && c'.pool == c.pool && c'.tipHeight == c.tipHeight && c'.finalizedHeight == c.finalizedHeight
      else
        && c'.running == c.running && c'.tipHeight == b.header.height
        && (forall id :: id in c'.pool.byId <==>
              id in c.pool.byId && forall i :: 0 <= i < |b.txs| ==> TxId(e, b.txs[i]) != id)
        && (forall id :: id in c'.pool.byId ==> c'.pool.byId[id] == c.pool.byId[id])
        && c'.pool.(byId := c.pool.byId) == c.pool
        && (b.header.slot % 32 != 0 ==> c'.finalizedHeight == c.finalizedHeight)
  {
    IdSetIsIds(e, b.txs);
    var ids := TxIds(e, b.txs);
    forall id ensures id in IdSet(e, b.txs) <==> exists i :: 0 <= i < |b.txs| && TxId(e, b.txs[i]) == id {
      if id in IdSet(e, b.txs) {
        var i :| 0 <= i < |ids| && ids[i] == id;
        assert TxId(e, b.txs[i]) == id;
      }
    }
  }

  class Client {
    const mempool: TxStore
    var tipHeight: nat
    var finalizedHeight: nat
    var running: bool

    function View(): ClientState
      reads this, mempool
    {
      ClientState(mempool.View(), tipHeight, finalizedHeight, running)
    }

    constructor ()
      ensures View() == NewClient && fresh(mempool)
    {
      mempool := new TxStore();
      tipHeight, finalizedHeight, running := 0, 0, true;
    }

    /** `on_new_block`: nothing changes unless hash and signature check out. */
    method OnNewBlock(e: Env, serverKey: Option<Key>, block: Block) returns (err: Option<BlockError>)
      modifies this`tipHeight, this`finalizedHeight, mempool`byId
      ensures err == CheckBlock(e, serverKey, block)
      ensures View() == if err == None then AfterBlock(e, serverKey, old(View()), block) else old(View())
    {
      var h := block.header;
      if HeaderHash(e, h) != block.hash {
        return Some(BadBlockHash);
      }
      if serverKey.Some? {
        var sigBytes := e.decode64(h.signatureB64);
        if sigBytes.None? {
          return Some(BadHeaderSigEncoding);
        }
        if |sigBytes.value| != 64 {
          return Some(BadHeaderSigLength);
        }
        var signingBytes := HeaderSigningBytes(e, h);
        if !e.verify(serverKey.value, signingBytes, sigBytes.value) {
          return Some(BadHeaderSignature);
        }
      }
      assert CheckBlock(e, serverKey, block) == None;
      var i := 0;
      while i < |block.txs|
        invariant 0 <= i <= |block.txs|
        invariant mempool.byId == old(mempool.byId) - IdSet(e, block.txs[..i])
        invariant finalizedHeight == old(finalizedHeight)
      {
        mempool.byId := mempool.byId - {TxId(e, block.txs[i])};
        assert block.txs[..i + 1] == block.txs[..i] + [block.txs[i]];
        i := i + 1;
      }
      assert block.txs[..i] == block.txs;
      assert mempool.byId == old(mempool.byId) - IdSet(e, block.txs);
      tipHeight := h.height;
      if h.slot % EPOCH_SLOTS == 0 {
        if h.epoch >= 2 {
          finalizedHeight := (h.epoch - 2 + 1) * EPOCH_SLOTS;
        } else {
          finalizedHeight := 0;
        }
      }
      err := None;
    }

    /** One message from the server. */
    method Receive(e: Env, serverKey: Option<Key>, m: Msg, now: nat) returns (ghost victim: Option<Text>)
      requires running
      modifies this, mempool
      ensures ClientEvictionAllowed(e, old(View()), m, now, victim)
      ensures View() == AfterMsg(e, serverKey, old(View()), m, now, victim)
    {
      victim := None;
      match m {
        case TxAnnounce(tx) =>
          var _, v := mempool.InsertIfNew(e, tx, now);
          victim := v;
        case NewBlock(b) =>
          var err := OnNewBlock(e, serverKey, b);
          if err.Some? {
            running := false;
          }
        case Peers(_) =>
        case TxAck(_, _, _) =>
      }
    }
  }
}

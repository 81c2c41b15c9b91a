/** What the HTTP lookups find in a reachable state (src/net/server.rs). */
module Lookups {
  import opened Bytes
  import opened Crypto
  import opened Transaction
  import opened Chain
  import opened Node
  import opened Network
  import opened Runs

  lemma BufferedBlock(cfg: Config, s: Sys, k: nat)
    requires Lawful(cfg.env) && Reachable(cfg, s) && k < |s.node.blocks|
    ensures BlockSound(cfg.env, s.node.blocks[k])
  {
    HistoryFacts(cfg, s);
    var i := |s.chain| - |s.node.blocks| + k;
    assert s.node.blocks[k] == s.chain[i];
    assert ExtendsChain(cfg.env, s.chain[..i], s.chain[i]);
  }

  /** The answer of `get_tx_by_id` in terms of the simple map from ids to places: the pool
      if the id is there; otherwise the newest buffered block with that id, with receipt,
      index and body all carrying it, so that the fallback search never runs; otherwise
      nothing, and then no buffered block has it. */
  lemma LookupAnswers(cfg: Config, s: Sys, id: Text)
    requires Lawful(cfg.env) && Reachable(cfg, s)
    ensures id in s.node.pool.byId ==> TxId(cfg.env, s.node.pool.byId[id]) == id
    ensures forall k :: 0 <= k < |s.node.blocks| ==>
      (Mentions(s.node.blocks[k], id) <==> id in IdSet(cfg.env, s.node.blocks[k].txs))
    ensures forall k: nat, i: nat :: NewestMention(s.node.blocks, id, k, i) ==>
      MentionIsExact(cfg.env, s.node.blocks, id, k, i)
  {
    PooledUnderId(cfg, s, id);
    forall k | 0 <= k < |s.node.blocks|
      ensures Mentions(s.node.blocks[k], id) <==> id in IdSet(cfg.env, s.node.blocks[k].txs)
    {
      BufferedBlock(cfg, s, k);
      MentionsIffContains(cfg.env, s.node.blocks[k], id);
    }
    forall k: nat, i: nat | NewestMention(s.node.blocks, id, k, i)
      ensures MentionIsExact(cfg.env, s.node.blocks, id, k, i)
    {
      BufferedBlock(cfg, s, k);
      ExactInBlock(cfg.env, s.node.blocks, id, k, i);
    }
  }

  lemma PooledUnderId(cfg: Config, s: Sys, id: Text)
    requires Lawful(cfg.env) && Reachable(cfg, s)
    ensures id in s.node.pool.byId ==> TxId(cfg.env, s.node.pool.byId[id]) == id
  {
    ReachableInvariant(cfg, s);
  }

  /** Receipt, index and body agree, and the id is nowhere else in the block or later. */
  ghost predicate MentionIsExact(e: Env, blocks: seq<Block>, id: Text, k: nat, i: nat) {
    && k < |blocks| && i < |blocks[k].txs| && i < |blocks[k].receipts|
    && TxId(e, blocks[k].txs[i]) == id
    && blocks[k].receipts[i] == ReceiptFor(e, blocks[k].txs[i], i)
    && (forall j :: 0 <= j < |blocks[k].txs| && TxId(e, blocks[k].txs[j]) == id ==> j == i)
    && (forall j :: k < j < |blocks| ==> !Mentions(blocks[j], id))
  }

  lemma ExactInBlock(e: Env, blocks: seq<Block>, id: Text, k: nat, i: nat)
    requires NewestMention(blocks, id, k, i) && BlockSound(e, blocks[k])
    ensures MentionIsExact(e, blocks, id, k, i)
  {
    var b := blocks[k];
    MentionsIffContains(e, b, id);
    var ids := TxIds(e, b.txs);
    forall j | 0 <= j < |b.txs| && TxId(e, b.txs[j]) == id ensures j == i {
      assert ids[j] == id && ids[i] == id;
    }
  }

  /** In a committed block too old for the buffer. */
  ghost predicate InOlderBlock(e: Env, s: Sys, id: Text) {
    exists i :: 0 <= i < |s.chain| - |s.node.blocks| && id in IdSet(e, s.chain[i].txs)
  }

  /** An accepted, never evicted id that has left the pool and is in no buffered block is in
      the producer's hands, drained but not yet committed, or has aged out of the buffer. */
  lemma UnbufferedIsAway(cfg: Config, s: Sys, id: Text)
    requires Lawful(cfg.env) && Reachable(cfg, s)
    requires id in TxIds(cfg.env, s.accepted) && id !in s.evicted && id !in s.node.pool.byId
    requires forall k :: 0 <= k < |s.node.blocks| ==> id !in IdSet(cfg.env, s.node.blocks[k].txs)
    ensures id in IdSet(cfg.env, InFlight(s.phase)) || InOlderBlock(cfg.env, s, id)
  {
    var k :| 0 <= k < |s.accepted| && TxIds(cfg.env, s.accepted)[k] == id;
    AcceptedAreLocated(cfg, s, k);
    BufferIsIndexed(cfg, s);
    if exists i :: 0 <= i < |s.chain| && id in IdSet(cfg.env, s.chain[i].txs) {
      AgedOut(cfg.env, s.chain, s.node.blocks, id);
    }
  }

  lemma AgedOut(e: Env, chain: seq<Block>, bs: seq<Block>, id: Text)
    requires Indexed(bs, chain) && forall k :: 0 <= k < |bs| ==> id !in IdSet(e, bs[k].txs)
    requires exists i :: 0 <= i < |chain| && id in IdSet(e, chain[i].txs)
    ensures exists i :: 0 <= i < |chain| - |bs| && id in IdSet(e, chain[i].txs)
  {
    var first := |chain| - |bs|;
    assert forall i :: first <= i < |chain| ==> chain[i] == bs[i - first];
  }

  /** The answer describes the newest committed block with the id: the reference carries that
      block's own fields and whether the finalized height has reached it, the receipt reports
      success, 21000 gas and the fee of the body, and names the body's index. */
  ghost predicate Describes(e: Env, s: Sys, id: Text, found: Option<SignedTx>, ref: BlockRef, r: TxReceipt) {
    && 1 <= ref.height <= s.node.tipHeight && ref.height <= |s.chain|
    && (ref.finalized <==> ref.height <= s.node.finalizedHeight)
    && var b := s.chain[ref.height - 1];
    && ref.hash == b.hash && ref.slot == b.header.slot && ref.epoch == b.header.epoch
    && ref.timestamp == b.header.timestamp
    && r.txId == id && r.status && r.gasUsed == 21_000
    && r.txIndex < |b.txs| && TxId(e, b.txs[r.txIndex]) == id
    && found == Some(b.txs[r.txIndex]) && r.feePaid == b.txs[r.txIndex].maxFee
    && forall j :: ref.height <= j < |s.chain| ==> id !in IdSet(e, s.chain[j].txs)
  }

  lemma AnswerDescribes(e: Env, s: Sys, id: Text, k: nat, i: nat)
    requires Indexed(s.node.blocks, s.chain) && s.node.tipHeight == |s.chain|
    requires MentionIsExact(e, s.node.blocks, id, k, i)
    requires forall j :: 0 <= j < |s.node.blocks| ==>
      (Mentions(s.node.blocks[j], id) <==> id in IdSet(e, s.node.blocks[j].txs))
    ensures var b := s.node.blocks[k];
      Describes(e, s, id, Some(b.txs[i]), RefTo(b, s.node.finalizedHeight), b.receipts[i])
  {
    var bs, older := s.node.blocks, |s.chain| - |s.node.blocks|;
    assert bs[k] == s.chain[older + k];
    forall j | older + k < j < |s.chain| ensures id !in IdSet(e, s.chain[j].txs) {
      assert bs[j - older] == s.chain[j] && !Mentions(bs[j - older], id);
    }
  }

  /** Over a run a lookup that has once called a block finalized can only go on doing so. */
  lemma FinalizedStays(cfg: Config, states: seq<Sys>, events: seq<Event>, i: nat, j: nat, height: nat)
    requires Lawful(cfg.env) && Run(cfg, states, events) && i <= j < |states|
    requires 1 <= height <= states[i].node.tipHeight && height <= states[i].node.finalizedHeight
    ensures height <= |states[i].chain| && height <= |states[j].chain|
    ensures states[j].chain[height - 1] == states[i].chain[height - 1]
    ensures height <= states[j].node.tipHeight && height <= states[j].node.finalizedHeight
  {
    ServerNeverGoesBack(cfg, states, events, i, j);
    FollowsInRun(cfg, states, events, i);
  }

  /** `get_tx_by_id` and `get_receipt_by_id` answer with one receipt when the id has left
      the pool, and `get_block_by_height` is indexing by height minus the first buffered
      height. */
  method LookupsAgree(e: Env, server: State, ghost cfg: Config, ghost s: Sys, id: Text, height: nat)
    returns (tx: TxLookup, receipt: Option<TxReceipt>, block: Option<Block>)
    requires Lawful(cfg.env) && Reachable(cfg, s) && server.View() == s.node && e == cfg.env
    ensures tx.Nowhere? <==>
      (id !in s.node.pool.byId
       && forall k :: 0 <= k < |s.node.blocks| ==> id !in IdSet(e, s.node.blocks[k].txs))
    ensures tx.InMempool? <==> id in s.node.pool.byId
    ensures tx.InMempool? ==> TxId(e, tx.tx) == id
    ensures tx.InBlock? ==>
      receipt == Some(tx.receipt) && tx.receipt.txId == id
      && tx.found.Some? && TxId(e, tx.found.value) == id
      && Describes(e, s, id, tx.found, tx.block, tx.receipt)
    ensures tx.Nowhere? ==> receipt == None
    ensures tx.Nowhere? && id in TxIds(e, s.accepted) && id !in s.evicted ==>
      id in IdSet(e, InFlight(s.phase)) || InOlderBlock(e, s, id)
    ensures |s.node.blocks| <= |s.chain| == s.node.tipHeight
    ensures block == if s.node.tipHeight - |s.node.blocks| < height <= s.node.tipHeight
                     then Some(s.chain[height - 1]) else None
  {
    LookupAnswers(cfg, s, id);
    ghost var k, i, k', i';
    tx, k, i := server.GetTxById(e, id);
    receipt, k', i' := server.GetReceiptById(id);
    BufferIsIndexed(cfg, s);
    if tx.InBlock? {
      assert MentionIsExact(e, server.blocks, id, k, i);
      AnswerDescribes(e, s, id, k, i);
      assert Mentions(server.blocks[k], id);
      if receipt.Some? {
        NewestMentionUnique(server.blocks, id, k, i, k', i');
      }
    }
    if tx.Nowhere? && id in TxIds(e, s.accepted) && id !in s.evicted {
      UnbufferedIsAway(cfg, s, id);
    }
    block := LookupHeight(server, s.chain, height);
  }

  method LookupHeight(server: State, ghost chain: seq<Block>, height: nat) returns (block: Option<Block>)
    requires Indexed(server.blocks, chain)
    ensures block == if |chain| - |server.blocks| < height <= |chain| then Some(chain[height - 1]) else None
  {
    block := server.GetBlockByHeight(height);
    IndexByHeight(server.blocks, chain, height);
  }

  /** Heights in the buffer: consecutive, and one more than the index in the chain. */
  ghost predicate Indexed(bs: seq<Block>, chain: seq<Block>) {
    && |bs| <= |chain|
    && forall j :: 0 <= j < |bs| ==>
         bs[j].header.height == |chain| - |bs| + 1 + j && bs[j] == chain[|chain| - |bs| + j]
  }

  lemma BufferIsIndexed(cfg: Config, s: Sys)
    requires Lawful(cfg.env) && Reachable(cfg, s)
    ensures Indexed(s.node.blocks, s.chain) && s.node.tipHeight == |s.chain|
  {
    HistoryFacts(cfg, s);
    SuffixIsLinked(cfg.env, s.chain, s.node.blocks);
  }

  lemma IndexByHeight(bs: seq<Block>, chain: seq<Block>, height: nat)
    requires Indexed(bs, chain)
    ensures ConsecutiveHeights(bs)
    ensures (bs != [] && 0 <= height - bs[0].header.height < |bs|) <==> |chain| - |bs| < height <= |chain|
    ensures |chain| - |bs| < height <= |chain| ==> bs[height - bs[0].header.height] == chain[height - 1]
  {
  }
}

/** Where every accepted transaction is, and the order nonces were accepted in. */
module Accounting {
  import opened Bytes
  import opened Crypto
  import opened Merkle
  import opened Transaction
  import opened Chain
  import opened Mempool
  import opened Node
  import opened Logs
  import opened Network

  // ---- Conservation ----

  function Flatten(lists: seq<seq<Text>>): seq<Text> {
    if lists == [] then [] else Flatten(lists[..|lists| - 1]) + lists[|lists| - 1]
  }

  function IdLists(e: Env, chain: seq<Block>): (lists: seq<seq<Text>>)
    ensures |lists| == |chain|
    ensures forall i :: 0 <= i < |chain| ==> lists[i] == TxIds(e, chain[i].txs)
  {
    seq(|chain|, i requires 0 <= i < |chain| => TxIds(e, chain[i].txs))
  }

  /** The ids of all transactions in a chain, block by block. */
  function ChainIds(e: Env, chain: seq<Block>): seq<Text> {
    Flatten(IdLists(e, chain))
  }

  /** Counted with multiplicity, the ids accepted as new are those in the pool, those in the
      producer's hands, those in committed blocks, and those evicted. */
  ghost predicate Conserved(e: Env, s: Sys) {
    multiset(TxIds(e, s.accepted))
      == multiset(s.node.pool.byId.Keys) + multiset(TxIds(e, InFlight(s.phase)))
         + multiset(ChainIds(e, s.chain)) + multiset(s.evicted)
  }

  lemma TxIdsAppend(e: Env, txs: seq<SignedTx>, tx: SignedTx)
    ensures TxIds(e, txs + [tx]) == TxIds(e, txs) + [TxId(e, tx)]
  {
  }

  lemma ChainIdsAppend(e: Env, chain: seq<Block>, b: Block)
    ensures ChainIds(e, chain + [b]) == ChainIds(e, chain) + TxIds(e, b.txs)
  {
    var lists, longer := IdLists(e, chain), IdLists(e, chain + [b]);
    assert longer == lists + [TxIds(e, b.txs)];
    assert longer[..|lists|] == lists;
  }

  lemma {:induction false} DistinctMultiset(ids: seq<Text>)
    requires NoDuplicates(ids)
    ensures multiset(ids) == multiset(set id | id in ids)
  {
    if ids != [] {
      var front, last := ids[..|ids| - 1], ids[|ids| - 1];
      DistinctMultiset(front);
      assert ids == front + [last];
      assert (set id | id in ids) == (set id | id in front) + {last};
      assert last !in front;
    }
  }

  /** One insertion: the new id comes in, the victim goes out. */
  lemma InsertBalances(e: Env, p: Pool, tx: SignedTx, now: nat, victim: Option<Text>)
    requires EvictionAllowed(p, InsertOutcome(e, p, tx, now), victim)
    ensures var p', r := AfterInsert(e, p, tx, now, victim), InsertOutcome(e, p, tx, now);
      multiset(p'.byId.Keys) + (match victim case Some(k) => multiset{k} case None => multiset{})
      == multiset(p.byId.Keys) + (if r.Fresh() then multiset{TxId(e, tx)} else multiset{})
  {
    InsertEffect(e, p, tx, now, victim);
    if InsertOutcome(e, p, tx, now).Fresh() {
      var kept := Without(p.byId, victim).Keys;
      if victim.Some? {
        assert kept == p.byId.Keys - {victim.value};
        Remove(p.byId.Keys, victim.value);
      }
      Add(kept, TxId(e, tx));
    }
  }

  lemma Add(ids: set<Text>, id: Text)
    requires id !in ids
    ensures multiset(ids + {id}) == multiset(ids) + multiset{id}
  {
  }

  lemma Remove(ids: set<Text>, id: Text)
    requires id in ids
    ensures multiset(ids - {id}) + multiset{id} == multiset(ids)
  {
  }

  lemma DrainBalances(e: Env, p: Pool, ids: seq<Text>)
    requires PoolSound(e, p) && DrainAllowed(p, MAX_TXS_PER_BLOCK, ids)
    ensures multiset(p.byId.Keys)
         == multiset(AfterDrain(p, ids).byId.Keys) + multiset(TxIds(e, Taken(p, ids)))
  {
    TakenIds(e, p, ids);
    DrainCounts(p, MAX_TXS_PER_BLOCK, ids);
    DistinctMultiset(ids);
  }

  lemma SwapIn(all: multiset<Text>, pool: multiset<Text>, pool': multiset<Text>, flight: multiset<Text>,
               chain: multiset<Text>, evicted: multiset<Text>, added: multiset<Text>, lost: multiset<Text>)
    requires all == pool + flight + chain + evicted && pool' + lost == pool + added
    ensures all + added == pool' + flight + chain + (evicted + lost)
  {
    forall id ensures (all + added)[id] == (pool' + flight + chain + (evicted + lost))[id] {
      assert (pool' + lost)[id] == (pool + added)[id];
    }
  }

  lemma TxInConserves(cfg: Config, s: Sys, origin: Origin, tx: SignedTx, victim: Option<Text>)
    requires Conserved(cfg.env, s) && Enabled(cfg, s, TxIn(origin, tx, victim))
    ensures Conserved(cfg.env, AfterTxIn(cfg, s, origin, tx, victim))
  {
    var e, s' := cfg.env, AfterTxIn(cfg, s, origin, tx, victim);
    var added := if Outcome(cfg, s, tx).Fresh() then multiset{TxId(e, tx)} else multiset{};
    var lost := match victim case Some(k) => multiset{k} case None => multiset{};
    InsertBalances(e, s.node.pool, tx, s.now, victim);
    TxIdsAppend(e, s.accepted, tx);
    assert multiset(TxIds(e, s'.accepted)) == multiset(TxIds(e, s.accepted)) + added;
    assert multiset(s'.evicted) == multiset(s.evicted) + lost;
    SwapIn(multiset(TxIds(e, s.accepted)), multiset(s.node.pool.byId.Keys), multiset(s'.node.pool.byId.Keys),
           multiset(TxIds(e, InFlight(s.phase))), multiset(ChainIds(e, s.chain)), multiset(s.evicted), added, lost);
  }

  lemma NothingInFlight(e: Env, p: Phase)
    requires InFlight(p) == []
    ensures multiset(TxIds(e, InFlight(p))) == multiset{}
  {
    assert TxIds(e, InFlight(p)) == [];
  }

  lemma MoveOut(pool: multiset<Text>, rest: multiset<Text>, taken: multiset<Text>,
                chain: multiset<Text>, evicted: multiset<Text>)
    requires pool == rest + taken
    ensures pool + multiset{} + chain + evicted == rest + taken + chain + evicted
  {
  }

  lemma DrainConserves(e: Env, s: Sys, txs: seq<SignedTx>, rest: Pool)
    requires Conserved(e, s) && s.phase.Awake?
    requires multiset(s.node.pool.byId.Keys) == multiset(rest.byId.Keys) + multiset(TxIds(e, txs))
    ensures Conserved(e, AfterDraining(s, txs, rest))
  {
    NothingInFlight(e, s.phase);
    MoveOut(multiset(s.node.pool.byId.Keys), multiset(rest.byId.Keys), multiset(TxIds(e, txs)),
            multiset(ChainIds(e, s.chain)), multiset(s.evicted));
  }

  lemma MoveIn(all: multiset<Text>, pool: multiset<Text>, ids: seq<Text>, chain: seq<Text>, chain': seq<Text>,
               evicted: multiset<Text>)
    requires all == pool + multiset(ids) + multiset(chain) + evicted && chain' == chain + ids
    ensures all == pool + multiset{} + multiset(chain') + evicted
  {
    assert multiset(chain + ids) == multiset(chain) + multiset(ids);
  }

  lemma CommitConserves(e: Env, s: Sys, t: Sys, b: Block)
    requires Conserved(e, s) && s.phase == Built(b) && t.phase == Committed(b) && t.chain == s.chain + [b]
    requires t.accepted == s.accepted && t.node.pool == s.node.pool && t.evicted == s.evicted
    ensures Conserved(e, t)
  {
    ChainIdsAppend(e, s.chain, b);
    NothingInFlight(e, t.phase);
    MoveIn(multiset(TxIds(e, s.accepted)), multiset(s.node.pool.byId.Keys), TxIds(e, b.txs),
           ChainIds(e, s.chain), ChainIds(e, t.chain), multiset(s.evicted));
  }

  lemma ConservedKept(cfg: Config, s: Sys, ev: Event)
    requires Conserved(cfg.env, s) && PoolSound(cfg.env, s.node.pool) && Enabled(cfg, s, ev)
    ensures Conserved(cfg.env, Apply(cfg, s, ev))
  {
    match ev {
      case TxIn(origin, tx, victim) => TxInConserves(cfg, s, origin, tx, victim);
      case Drain(ids) =>
        DrainBalances(cfg.env, s.node.pool, ids);
        DrainConserves(cfg.env, s, Taken(s.node.pool, ids), AfterDrain(s.node.pool, ids));
      case Commit => CommitConserves(cfg.env, s, Apply(cfg, s, Commit), s.phase.block);
      case _ =>
        var s' := Apply(cfg, s, ev);
        assert s'.accepted == s.accepted && s'.evicted == s.evicted && s'.chain == s.chain;
        assert s'.node.pool == s.node.pool && InFlight(s'.phase) == InFlight(s.phase);
    }
  }

  // ---- Nonces ----

  /** The pool's table holds, for each sender accepted so far and no other, the greatest
      nonce accepted. */
  ghost predicate TableExact(table: map<Text, nat>, accepted: seq<SignedTx>) {
    && (forall i :: 0 <= i < |accepted| ==>
          accepted[i].fromPubkeyB64 in table && accepted[i].nonce <= table[accepted[i].fromPubkeyB64])
    && (forall from :: from in table ==>
          exists i :: 0 <= i < |accepted| && accepted[i].fromPubkeyB64 == from && accepted[i].nonce == table[from])
  }

  /** Accepted nonces never go down per sender, the table is exact, and everything accepted
      carries a valid signature. */
  ghost predicate Disciplined(cfg: Config, s: Sys) {
    && NonceSorted(s.accepted)
    && TableExact(s.node.pool.maxSeenNonce, s.accepted)
    && (forall i :: 0 <= i < |s.accepted| ==> Genuine(cfg.env, s.accepted[i]))
  }

  lemma TableExtends(table: map<Text, nat>, accepted: seq<SignedTx>, tx: SignedTx)
    requires TableExact(table, accepted)
    requires tx.fromPubkeyB64 in table ==> table[tx.fromPubkeyB64] <= tx.nonce
    ensures TableExact(table[tx.fromPubkeyB64 := tx.nonce], accepted + [tx])
  {
    var longer, table' := accepted + [tx], table[tx.fromPubkeyB64 := tx.nonce];
    forall from | from in table'
      ensures exists i :: 0 <= i < |longer| && longer[i].fromPubkeyB64 == from && longer[i].nonce == table'[from]
    {
      if from == tx.fromPubkeyB64 {
        assert longer[|accepted|] == tx;
      } else {
        var i :| 0 <= i < |accepted| && accepted[i].fromPubkeyB64 == from && accepted[i].nonce == table[from];
        assert longer[i] == accepted[i];
      }
    }
  }

  lemma SortedExtends(table: map<Text, nat>, accepted: seq<SignedTx>, tx: SignedTx)
    requires NonceSorted(accepted) && TableExact(table, accepted)
    requires tx.fromPubkeyB64 in table ==> table[tx.fromPubkeyB64] <= tx.nonce
    ensures NonceSorted(accepted + [tx])
  {
  }

  lemma AcceptedDisciplined(e: Env, p: Pool, accepted: seq<SignedTx>, tx: SignedTx, now: nat, victim: Option<Text>)
    requires NonceSorted(accepted) && TableExact(p.maxSeenNonce, accepted)
    requires InsertOutcome(e, p, tx, now).Fresh()
    ensures Genuine(e, tx) && NonceSorted(accepted + [tx])
    ensures TableExact(AfterInsert(e, p, tx, now, victim).maxSeenNonce, accepted + [tx])
  {
    FreshMeans(e, p, tx, now);
    TableExtends(p.maxSeenNonce, accepted, tx);
    SortedExtends(p.maxSeenNonce, accepted, tx);
  }

  lemma TxInDisciplined(cfg: Config, s: Sys, origin: Origin, tx: SignedTx, victim: Option<Text>)
    requires Disciplined(cfg, s)
    ensures Disciplined(cfg, AfterTxIn(cfg, s, origin, tx, victim))
  {
    if Outcome(cfg, s, tx).Fresh() {
      AcceptedDisciplined(cfg.env, s.node.pool, s.accepted, tx, s.now, victim);
    }
  }

  lemma OthersKeepTables(cfg: Config, s: Sys, ev: Event)
    requires Enabled(cfg, s, ev) && !ev.TxIn?
    ensures Apply(cfg, s, ev).accepted == s.accepted
    ensures Apply(cfg, s, ev).node.pool.maxSeenNonce == s.node.pool.maxSeenNonce
  {
  }

  lemma DisciplinedKept(cfg: Config, s: Sys, ev: Event)
    requires Disciplined(cfg, s) && Enabled(cfg, s, ev)
    ensures Disciplined(cfg, Apply(cfg, s, ev))
  {
    if ev.TxIn? {
      TxInDisciplined(cfg, s, ev.origin, ev.tx, ev.victim);
    } else {
      OthersKeepTables(cfg, s, ev);
    }
  }

  lemma ReacceptedIff(cfg: Config, s: Sys, k: nat)
    requires s.node.pool.minFee == 0 && Disciplined(cfg, s) && k < |s.accepted|
    ensures var tx := s.accepted[k];
      Outcome(cfg, s, tx).Fresh() <==>
        && s.now <= tx.expiry
        && TxId(cfg.env, tx) !in s.node.pool.byId
        && (forall j :: 0 <= j < |s.accepted| && s.accepted[j].fromPubkeyB64 == tx.fromPubkeyB64 ==>
              s.accepted[j].nonce <= tx.nonce)
  {
    var tx := s.accepted[k];
    VerifiesIff(cfg.env, tx, s.now);
    FloorIsMaximum(s.node.pool, s.accepted, tx);
  }

  lemma FloorIsMaximum(p: Pool, accepted: seq<SignedTx>, tx: SignedTx)
    requires TableExact(p.maxSeenNonce, accepted)
    ensures NonceFloor(p, tx.fromPubkeyB64) <= tx.nonce <==>
      forall j :: 0 <= j < |accepted| && accepted[j].fromPubkeyB64 == tx.fromPubkeyB64 ==>
        accepted[j].nonce <= tx.nonce
  {
    var table := p.maxSeenNonce;
    if tx.fromPubkeyB64 in table {
      var i :| 0 <= i < |accepted| && accepted[i].fromPubkeyB64 == tx.fromPubkeyB64
            && accepted[i].nonce == table[tx.fromPubkeyB64];
    }
  }
}

/** How often a transaction can be accepted, and how often included in a block. */
module Inclusions {
  import opened Bytes
  import opened Crypto
  import opened Merkle
  import opened Transaction
  import opened Chain
  import opened Network
  import opened Accounting
  import opened Runs

  // ---- Counting ----

  /** How many of the lists hold the id. */
  function ListsWith(lists: seq<seq<Text>>, id: Text): nat {
    if lists == [] then 0 else
      ListsWith(lists[..|lists| - 1], id) + if id in lists[|lists| - 1] then 1 else 0
  }

  /** How many committed blocks hold the id. */
  function BlocksWith(e: Env, chain: seq<Block>, id: Text): nat {
    ListsWith(IdLists(e, chain), id)
  }

  /** How many times the id was accepted as new. */
  function Acceptances(e: Env, accepted: seq<SignedTx>, id: Text): nat {
    multiset(TxIds(e, accepted))[id]
  }

  lemma OnceEach(ids: seq<Text>, id: Text)
    requires NoDuplicates(ids)
    ensures multiset(ids)[id] == if id in ids then 1 else 0
  {
    DistinctMultiset(ids);
  }

  lemma {:induction false} ListsWithIsCount(lists: seq<seq<Text>>, id: Text)
    requires forall i :: 0 <= i < |lists| ==> NoDuplicates(lists[i])
    ensures ListsWith(lists, id) == multiset(Flatten(lists))[id]
  {
    if lists != [] {
      ListsWithIsCount(lists[..|lists| - 1], id);
      OnceEach(lists[|lists| - 1], id);
    }
  }

  lemma ChainWithinAccepted(e: Env, s: Sys, id: Text)
    requires Conserved(e, s)
    ensures multiset(ChainIds(e, s.chain))[id] <= multiset(TxIds(e, s.accepted))[id]
  {
  }

  lemma ListsAreDistinct(e: Env, chain: seq<Block>)
    requires ProducerChain(e, chain)
    ensures forall i :: 0 <= i < |chain| ==> NoDuplicates(IdLists(e, chain)[i])
  {
    forall i | 0 <= i < |chain| ensures NoDuplicates(IdLists(e, chain)[i]) {
      assert ExtendsChain(e, chain[..i], chain[i]);
    }
  }

  /** No id is in more committed blocks than it was accepted times. */
  lemma InclusionsWithinAcceptances(cfg: Config, s: Sys, id: Text)
    requires Lawful(cfg.env) && Reachable(cfg, s)
    ensures BlocksWith(cfg.env, s.chain, id) <= Acceptances(cfg.env, s.accepted, id)
  {
    AccountsHold(cfg, s);
    HistoryFacts(cfg, s);
    ListsAreDistinct(cfg.env, s.chain);
    ListsWithIsCount(IdLists(cfg.env, s.chain), id);
    ChainWithinAccepted(cfg.env, s, id);
  }

  // ---- Inclusion in two blocks ----

  lemma {:induction false} FlattenCount(lists: seq<seq<Text>>, a: nat, id: Text)
    requires a < |lists| && id in lists[a]
    ensures multiset(Flatten(lists))[id] >= 1
  {
    var n := |lists| - 1;
    if a < n {
      FlattenCount(lists[..n], a, id);
    } else {
      assert id in multiset(lists[n]);
    }
  }

  lemma {:induction false} FlattenCountTwice(lists: seq<seq<Text>>, a: nat, b: nat, id: Text)
    requires a < b < |lists| && id in lists[a] && id in lists[b]
    ensures multiset(Flatten(lists))[id] >= 2
  {
    var n := |lists| - 1;
    if b < n {
      FlattenCountTwice(lists[..n], a, b, id);
    } else {
      FlattenCount(lists[..n], a, id);
      assert id in multiset(lists[n]);
    }
  }

  lemma {:induction false} CountOnce(ids: seq<Text>, id: Text) returns (i: nat)
    requires multiset(ids)[id] >= 1
    ensures i < |ids| && ids[i] == id
  {
    assert id in multiset(ids);
    i :| 0 <= i < |ids| && ids[i] == id;
  }

  lemma {:induction false} CountTwice(ids: seq<Text>, id: Text) returns (i: nat, j: nat)
    requires multiset(ids)[id] >= 2
    ensures i < j < |ids| && ids[i] == id && ids[j] == id
  {
    var front, last := ids[..|ids| - 1], ids[|ids| - 1];
    assert ids == front + [last];
    if last == id {
      i := CountOnce(front, id);
      j := |ids| - 1;
    } else {
      i, j := CountTwice(front, id);
    }
  }

  /** A transaction accepted before is accepted again exactly when it has not expired, has
      left the pool, and no higher nonce of its sender has been accepted: `seen` plays no
      part. */
  lemma AcceptedAgainIff(cfg: Config, s: Sys, k: nat)
    requires Lawful(cfg.env) && Reachable(cfg, s) && k < |s.accepted|
    ensures var tx := s.accepted[k];
      Outcome(cfg, s, tx).Fresh() <==>
        && s.now <= tx.expiry
        && TxId(cfg.env, tx) !in s.node.pool.byId
        && (forall j :: 0 <= j < |s.accepted| && s.accepted[j].fromPubkeyB64 == tx.fromPubkeyB64 ==>
              s.accepted[j].nonce <= tx.nonce)
  {
    ReachableInvariant(cfg, s);
    ReacceptedIff(cfg, s, k);
  }

  /** The ids hashed for accepted transactions. */
  ghost function AcceptedInputs(e: Env, accepted: seq<SignedTx>): set<Text> {
    set tx | tx in accepted :: CanonicalBytes(e, tx)
  }

  /** An id can be in two blocks only if it was accepted twice, by the same sender with the
      same nonce, and no higher nonce of that sender was accepted before the second time;
      or else two accepted transactions' encodings collide. */
  lemma TwoBlocksNeedReacceptance(cfg: Config, s: Sys, a: nat, b: nat, id: Text)
    returns (i: nat, j: nat)
    requires Lawful(cfg.env) && Reachable(cfg, s)
    requires a < b < |s.chain|
    requires id in TxIds(cfg.env, s.chain[a].txs) && id in TxIds(cfg.env, s.chain[b].txs)
    ensures i < j < |s.accepted|
    ensures TxId(cfg.env, s.accepted[i]) == id == TxId(cfg.env, s.accepted[j])
    ensures var first, again := s.accepted[i], s.accepted[j];
      || CollisionIn(cfg.env.sha256, AcceptedInputs(cfg.env, s.accepted))
      || (&& first.fromPubkeyB64 == again.fromPubkeyB64 && first.nonce == again.nonce
          && forall k :: 0 <= k < j && s.accepted[k].fromPubkeyB64 == again.fromPubkeyB64 ==>
               s.accepted[k].nonce <= again.nonce)
  {
    AccountsHold(cfg, s);
    i, j := AcceptedTwice(cfg.env, s, a, b, id);
    SameIdSameSender(cfg, s, i, j);
  }

  lemma AcceptedTwice(e: Env, s: Sys, a: nat, b: nat, id: Text) returns (i: nat, j: nat)
    requires Conserved(e, s) && a < b < |s.chain|
    requires id in TxIds(e, s.chain[a].txs) && id in TxIds(e, s.chain[b].txs)
    ensures i < j < |s.accepted| && TxId(e, s.accepted[i]) == id == TxId(e, s.accepted[j])
  {
    FlattenCountTwice(IdLists(e, s.chain), a, b, id);
    ChainWithinAccepted(e, s, id);
    i, j := CountTwice(TxIds(e, s.accepted), id);
  }

  lemma SameIdSameSender(cfg: Config, s: Sys, i: nat, j: nat)
    requires Lawful(cfg.env) && Disciplined(cfg, s) && i < j < |s.accepted|
    requires TxId(cfg.env, s.accepted[i]) == TxId(cfg.env, s.accepted[j])
    ensures var first, again := s.accepted[i], s.accepted[j];
      || CollisionIn(cfg.env.sha256, AcceptedInputs(cfg.env, s.accepted))
      || (&& first.fromPubkeyB64 == again.fromPubkeyB64 && first.nonce == again.nonce
          && forall k :: 0 <= k < j && s.accepted[k].fromPubkeyB64 == again.fromPubkeyB64 ==>
               s.accepted[k].nonce <= again.nonce)
  {
    var e, first, again := cfg.env, s.accepted[i], s.accepted[j];
    assert Genuine(e, first) && Genuine(e, again);
    EqualIdsEqualSender(e, first, again);
    assert CanonicalBytes(e, first) in AcceptedInputs(e, s.accepted);
    assert CanonicalBytes(e, again) in AcceptedInputs(e, s.accepted);
    CollisionGrows(e.sha256, {CanonicalBytes(e, first), CanonicalBytes(e, again)},
                   AcceptedInputs(e, s.accepted));
  }
}

/** The transaction pool (src/rpc/mempool.rs): first as a value and the changes it can
    undergo, then as the class whose methods make those changes in place. A hash map's
    iteration order is arbitrary, so the evicted key and the drained keys are any keys. */
module Mempool {
  import opened Bytes
  import opened Crypto
  import opened Merkle
  import opened Transaction
  import opened Chain

  const DEFAULT_CAPACITY: nat := 50_000

  datatype Pool = Pool(
    byId: map<Text, SignedTx>,
    seen: set<Text>,
    maxSeenNonce: map<Text, nat>,
    capacity: nat,
    minFee: nat)

  const DefaultPool: Pool := Pool(map[], {}, map[], DEFAULT_CAPACITY, 0)

  datatype InsertResult =
    | Accepted(id: Text, inserted: bool, from: Text)
    | Rejected(err: TxError)
  {
    predicate Fresh() { Accepted? && inserted }
  }

  // ---- Insertion ----

  function NonceFloor(p: Pool, from: Text): nat {
    if from in p.maxSeenNonce then p.maxSeenNonce[from] else 0
  }

  function InsertOutcome(e: Env, p: Pool, tx: SignedTx, now: nat): InsertResult {
    match VerifyTx(e, tx, now)
    case Some(err) => Rejected(err)
    case None =>
      var id := TxId(e, tx);
      if tx.maxFee < p.minFee then Rejected(FeeTooLow)
      else if id in p.byId then Accepted(id, false, tx.fromPubkeyB64)
      else if tx.nonce < NonceFloor(p, tx.fromPubkeyB64) then Rejected(NonceTooLow)
      else Accepted(id, true, tx.fromPubkeyB64)
  }

  /** A new transaction meeting a full pool evicts some one key; nothing else evicts. */
  predicate EvictionAllowed(p: Pool, r: InsertResult, victim: Option<Text>) {
    if r.Fresh() && |p.byId| >= p.capacity && p.byId != map[]
    then victim.Some? && victim.value in p.byId
    else victim == None
  }

  function Without(m: map<Text, SignedTx>, victim: Option<Text>): map<Text, SignedTx> {
    match victim case Some(k) => m - {k} case None => m
  }

  function AfterInsert(e: Env, p: Pool, tx: SignedTx, now: nat, victim: Option<Text>): Pool {
    if !InsertOutcome(e, p, tx, now).Fresh() then p else
      var id, from := TxId(e, tx), tx.fromPubkeyB64;
      p.(maxSeenNonce := p.maxSeenNonce[from := tx.nonce],
         seen := p.seen + {id},
         byId := Without(p.byId, victim)[id := tx])
  }

  // ---- Draining ----

  predicate DrainAllowed(p: Pool, maxCount: nat, ids: seq<Text>) {
    && |ids| == Min(maxCount, |p.byId|)
    && (forall i :: 0 <= i < |ids| ==> ids[i] in p.byId)
    && (forall i, j :: 0 <= i < j < |ids| ==> ids[i] != ids[j])
  }

  function Taken(p: Pool, ids: seq<Text>): (txs: seq<SignedTx>)
    requires forall i :: 0 <= i < |ids| ==> ids[i] in p.byId
    ensures |txs| == |ids|
  {
    seq(|ids|, i requires 0 <= i < |ids| => p.byId[ids[i]])
  }

  function AfterDrain(p: Pool, ids: seq<Text>): Pool {
    p.(byId := p.byId - (set id | id in ids))
  }

  // ---- The index invariant ----

  /** Every key is the id of its value, every value carries a valid signature, every key
      has been seen, and the pool is within a positive capacity. */
  ghost predicate PoolSound(e: Env, p: Pool) {
    && (forall id :: id in p.byId ==>
          id == TxId(e, p.byId[id]) && Genuine(e, p.byId[id]) && id in p.seen)
    && |p.byId| <= p.capacity
    && p.capacity >= 1
  }

  lemma MapSizes(m: map<Text, SignedTx>, k: Text, tx: SignedTx)
    ensures k in m ==> |m - {k}| == |m| - 1
    ensures k !in m ==> |m[k := tx]| == |m| + 1
  {
    assert (m - {k}).Keys == m.Keys - {k};
    assert m[k := tx].Keys == m.Keys + {k};
  }

  /** What being accepted as new says about a transaction. */
  lemma FreshMeans(e: Env, p: Pool, tx: SignedTx, now: nat)
    requires InsertOutcome(e, p, tx, now).Fresh()
    ensures Genuine(e, tx) && now <= tx.expiry && p.minFee <= tx.maxFee
    ensures TxId(e, tx) !in p.byId && NonceFloor(p, tx.fromPubkeyB64) <= tx.nonce
    ensures InsertOutcome(e, p, tx, now) == Accepted(TxId(e, tx), true, tx.fromPubkeyB64)
  {
    VerifiesIff(e, tx, now);
  }

  lemma InsertSize(e: Env, p: Pool, tx: SignedTx, now: nat, victim: Option<Text>)
    requires InsertOutcome(e, p, tx, now).Fresh() && |p.byId| <= p.capacity && p.capacity >= 1
    requires EvictionAllowed(p, InsertOutcome(e, p, tx, now), victim)
    ensures |AfterInsert(e, p, tx, now, victim).byId| <= p.capacity
  {
    if victim.Some? {
      MapSizes(p.byId, victim.value, tx);
    }
    MapSizes(Without(p.byId, victim), TxId(e, tx), tx);
  }

  /** Insertion puts an accepted transaction under its id, never evicts it, loses at most
      the victim, and changes nothing when the transaction is not new. */
  lemma InsertEffect(e: Env, p: Pool, tx: SignedTx, now: nat, victim: Option<Text>)
    requires EvictionAllowed(p, InsertOutcome(e, p, tx, now), victim)
    ensures var p', r, id := AfterInsert(e, p, tx, now, victim), InsertOutcome(e, p, tx, now), TxId(e, tx);
      && (r.Accepted? ==> id in p'.byId)
      && (!r.Fresh() ==> p' == p && victim == None)
      && (r.Fresh() ==>
            && id !in p.byId && victim != Some(id) && p'.byId[id] == tx
            && p'.byId.Keys == Without(p.byId, victim).Keys + {id})
  {
  }

  /** Below capacity a new transaction joins the others and nothing is evicted; at capacity
      it takes the place of one of them. */
  lemma EvictsOnlyWhenFull(e: Env, p: Pool, tx: SignedTx, now: nat, victim: Option<Text>)
    requires EvictionAllowed(p, InsertOutcome(e, p, tx, now), victim)
    requires InsertOutcome(e, p, tx, now).Fresh() && p.capacity >= 1
    ensures var keys', id := AfterInsert(e, p, tx, now, victim).byId.Keys, TxId(e, tx);
      if |p.byId| < p.capacity then victim == None && keys' == p.byId.Keys + {id}
      else victim.Some? && victim.value in p.byId && keys' == p.byId.Keys - {victim.value} + {id}
  {
    InsertEffect(e, p, tx, now, victim);
    if victim.Some? {
      assert (p.byId - {victim.value}).Keys == p.byId.Keys - {victim.value};
    }
  }

  /** A genuine, unexpired transaction that is in the pool is answered as accepted and not
      new, whatever its nonce. */
  lemma DuplicateIsAccepted(e: Env, p: Pool, tx: SignedTx, now: nat)
    requires Genuine(e, tx) && now <= tx.expiry && p.minFee <= tx.maxFee && TxId(e, tx) in p.byId
    ensures InsertOutcome(e, p, tx, now) == Accepted(TxId(e, tx), false, tx.fromPubkeyB64)
  {
    VerifiesIff(e, tx, now);
  }

  /** Insertion keeps the index sound and in bounds. */
  lemma InsertKeepsSound(e: Env, p: Pool, tx: SignedTx, now: nat, victim: Option<Text>)
    requires PoolSound(e, p)
    requires EvictionAllowed(p, InsertOutcome(e, p, tx, now), victim)
    ensures PoolSound(e, AfterInsert(e, p, tx, now, victim))
  {
    if InsertOutcome(e, p, tx, now).Fresh() {
      InsertSize(e, p, tx, now, victim);
      FreshMeans(e, p, tx, now);
      NewKeysSound(e, p, tx, now, victim);
    }
  }

  lemma NewKeysSound(e: Env, p: Pool, tx: SignedTx, now: nat, victim: Option<Text>)
    requires PoolSound(e, p) && Genuine(e, tx) && InsertOutcome(e, p, tx, now).Fresh()
    ensures var p' := AfterInsert(e, p, tx, now, victim);
      forall id :: id in p'.byId ==> id == TxId(e, p'.byId[id]) && Genuine(e, p'.byId[id]) && id in p'.seen
  {
    var p' := AfterInsert(e, p, tx, now, victim);
    forall id | id in p'.byId
      ensures id == TxId(e, p'.byId[id]) && Genuine(e, p'.byId[id]) && id in p'.seen
    {
      assert p'.byId[id] == tx || (id in p.byId && p'.byId[id] == p.byId[id]);
    }
  }

  /** The number of distinct entries of a duplicate-free sequence. */
  lemma {:induction false} DistinctCount(ids: seq<Text>)
    requires forall i, j :: 0 <= i < j < |ids| ==> ids[i] != ids[j]
    ensures |set id | id in ids| == |ids|
  {
    if ids != [] {
      var front, last := ids[..|ids| - 1], ids[|ids| - 1];
      DistinctCount(front);
      assert (set id | id in ids) == (set id | id in front) + {last};
      assert last !in front;
    }
  }

  lemma TakenIds(e: Env, p: Pool, ids: seq<Text>)
    requires PoolSound(e, p) && forall i :: 0 <= i < |ids| ==> ids[i] in p.byId
    ensures TxIds(e, Taken(p, ids)) == ids
  {
  }

  lemma DrainKeepsSound(e: Env, p: Pool, ids: seq<Text>)
    requires PoolSound(e, p)
    ensures PoolSound(e, AfterDrain(p, ids))
  {
    var p' := AfterDrain(p, ids);
    assert p'.byId.Keys <= p.byId.Keys;
    SubsetSize(p'.byId.Keys, p.byId.Keys);
  }

  lemma SubsetSize(a: set<Text>, b: set<Text>)
    requires a <= b
    ensures |a| <= |b|
  {
    assert b == a + (b - a);
  }

  /** Draining splits the pool: what is returned and what stays are disjoint and together
      everything, the count returned is the smaller of the limit and the size, and the
      returned transactions have distinct ids. */
  lemma DrainSplits(e: Env, p: Pool, maxCount: nat, ids: seq<Text>)
    requires PoolSound(e, p) && DrainAllowed(p, maxCount, ids)
    ensures var p', txs := AfterDrain(p, ids), Taken(p, ids);
      && |txs| == Min(maxCount, |p.byId|) && |p'.byId| == |p.byId| - |txs|
      && NoDuplicates(TxIds(e, txs))
      && p'.byId.Keys !! IdSet(e, txs) && p.byId.Keys == p'.byId.Keys + IdSet(e, txs)
  {
    TakenIds(e, p, ids);
    IdSetIsIds(e, Taken(p, ids));
    DrainCounts(p, maxCount, ids);
  }

  lemma DrainCounts(p: Pool, maxCount: nat, ids: seq<Text>)
    requires DrainAllowed(p, maxCount, ids)
    ensures var p', gone := AfterDrain(p, ids), set id | id in ids;
      && |p'.byId| == |p.byId| - |ids| && |ids| == Min(maxCount, |p.byId|) && NoDuplicates(ids)
      && p'.byId.Keys !! gone && p.byId.Keys == p'.byId.Keys + gone
  {
    DistinctCount(ids);
    KeysSplit(p, ids);
  }

  lemma KeysSplit(p: Pool, ids: seq<Text>)
    requires forall i :: 0 <= i < |ids| ==> ids[i] in p.byId
    ensures var gone := set id | id in ids;
      && gone <= p.byId.Keys && AfterDrain(p, ids).byId.Keys == p.byId.Keys - gone
      && |AfterDrain(p, ids).byId| == |p.byId| - |gone|
  {
    var gone := set id | id in ids;
    assert AfterDrain(p, ids).byId.Keys == p.byId.Keys - gone;
    assert gone <= p.byId.Keys;
    assert p.byId.Keys == (p.byId.Keys - gone) + gone;
  }

  lemma IdSetIsIds(e: Env, txs: seq<SignedTx>)
    ensures IdSet(e, txs) == (set id | id in TxIds(e, txs))
  {
    forall id | id in IdSet(e, txs) ensures id in TxIds(e, txs) {
      var tx :| tx in txs && TxId(e, tx) == id;
      var i :| 0 <= i < |txs| && txs[i] == tx;
      assert TxIds(e, txs)[i] == id;
    }
    forall id | id in TxIds(e, txs) ensures id in IdSet(e, txs) {
      var i :| 0 <= i < |txs| && TxIds(e, txs)[i] == id;
      assert txs[i] in txs;
    }
  }

  // ---- The class ----

  class TxStore {
    var byId: map<Text, SignedTx>
    var seen: set<Text>
    var maxSeenNonce: map<Text, nat>
    var capacity: nat
    var minFee: nat

    function View(): Pool
      reads this
    {
      Pool(byId, seen, maxSeenNonce, capacity, minFee)
    }

    constructor ()
      ensures View() == DefaultPool
    {
      byId, seen, maxSeenNonce := map[], {}, map[];
      capacity, minFee := DEFAULT_CAPACITY, 0;
    }

    /** `insert_if_new`. The victim reports which key a full pool gave up. */
    method InsertIfNew(e: Env, tx: SignedTx, now: nat)
      returns (r: InsertResult, ghost victim: Option<Text>)
      modifies this
      ensures r == InsertOutcome(e, old(View()), tx, now)
      ensures EvictionAllowed(old(View()), r, victim)
      ensures View() == AfterInsert(e, old(View()), tx, now, victim)
    {
      victim := None;
      var checked := VerifyTx(e, tx, now);
      if checked.Some? {
        return Rejected(checked.value), victim;
      }
      if tx.maxFee < minFee {
        return Rejected(FeeTooLow), victim;
      }
      var id := TxId(e, tx);
      if id in byId {
        return Accepted(id, false, tx.fromPubkeyB64), victim;
      }
      var key := tx.fromPubkeyB64;
      var maxn := if key in maxSeenNonce then maxSeenNonce[key] else 0;
      if tx.nonce < maxn {
        return Rejected(NonceTooLow), victim;
      }
      maxSeenNonce := maxSeenNonce[key := if tx.nonce >= maxn then tx.nonce else maxn];
      if |byId| >= capacity {
        if byId.Keys != {} {
          var first :| first in byId.Keys;
          byId := byId - {first};
          victim := Some(first);
        }
      }
      seen := seen + {id};
      byId := byId[id := tx];
      r := Accepted(id, true, key);
    }

    /** The first `maxCount` entries in some iteration order. */
    method Collect(maxCount: nat) returns (picked: seq<(Text, SignedTx)>)
      ensures |picked| == Min(maxCount, |byId|)
      ensures forall i :: 0 <= i < |picked| ==>
        picked[i].0 in byId && picked[i].1 == byId[picked[i].0]
      ensures forall i, j :: 0 <= i < j < |picked| ==> picked[i].0 != picked[j].0
    {
      picked := [];
      var rest := byId.Keys;
      while |picked| < maxCount && rest != {}
        invariant rest <= byId.Keys
        invariant |picked| <= maxCount && |picked| + |rest| == |byId|
        invariant forall i :: 0 <= i < |picked| ==>
          picked[i].0 in byId && picked[i].0 !in rest && picked[i].1 == byId[picked[i].0]
        invariant forall i, j :: 0 <= i < j < |picked| ==> picked[i].0 != picked[j].0
        decreases |rest|
      {
        var id :| id in rest;
        rest := rest - {id};
        picked := picked + [(id, byId[id])];
      }
    }

    /** Removes the collected entries one by one, keeping their transactions. */
    method RemoveEach(picked: seq<(Text, SignedTx)>, ghost ids: seq<Text>) returns (txs: seq<SignedTx>)
      requires |ids| == |picked| && forall i :: 0 <= i < |ids| ==> ids[i] == picked[i].0
      modifies this`byId
      ensures |txs| == |picked| && forall i :: 0 <= i < |picked| ==> txs[i] == picked[i].1
      ensures byId == old(byId) - (set id | id in ids)
    {
      txs := [];
      var k := 0;
      while k < |picked|
        invariant 0 <= k <= |picked|
        invariant |txs| == k && forall i :: 0 <= i < k ==> txs[i] == picked[i].1
        invariant byId == old(byId) - (set id | id in ids[..k])
      {
        byId := byId - {picked[k].0};
        txs := txs + [picked[k].1];
        assert ids[..k + 1] == ids[..k] + [ids[k]];
        k := k + 1;
      }
      assert ids[..k] == ids;
    }

    /** `drain_block`: collect up to `maxCount` entries, then remove them. */
    method DrainBlock(maxCount: nat) returns (txs: seq<SignedTx>, ghost ids: seq<Text>)
      modifies this`byId
      ensures DrainAllowed(old(View()), maxCount, ids)
      ensures txs == Taken(old(View()), ids)
      ensures View() == AfterDrain(old(View()), ids)
    {
      var picked := Collect(maxCount);
      ids := seq(|picked|, i requires 0 <= i < |picked| => picked[i].0);
      txs := RemoveEach(picked, ids);
    }
  }
}

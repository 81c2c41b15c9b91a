/** Headers, blocks and the hash chain (src/chain/types.rs, and the block built in
    src/net/server.rs). */
module Chain {
  import opened Bytes
  import opened Crypto
  import opened Clock
  import opened Merkle
  import opened Transaction

  datatype TxReceipt = TxReceipt(
    txId: Text, status: bool, txIndex: nat, gasUsed: nat, feePaid: nat)

  datatype BlockHeader = BlockHeader(
    height: nat,
    slot: nat,
    epoch: nat,
    parentHash: Text,
    txsRoot: Text,
    receiptsRoot: Text,
    timestamp: nat,
    proposerPubkeyB64: Text,
    signatureB64: Text)

  datatype Block = Block(header: BlockHeader, txs: seq<SignedTx>, receipts: seq<TxReceipt>, hash: Text)

  const GENESIS: Text := Ascii("GENESIS")
  const MAX_TXS_PER_BLOCK: nat := 100
  const GAS_USED: nat := 21_000

  // ---- Header bytes and hash ----

  function HeaderPreimage(h: BlockHeader): Text {
    BigEndian(8, h.height) + (BigEndian(8, h.slot) + (BigEndian(8, h.epoch)
      + (h.parentHash + (h.txsRoot + (h.receiptsRoot
        + (BigEndian(8, h.timestamp) + h.proposerPubkeyB64))))))
  }

  function SigningBytes(e: Env, h: BlockHeader): Digest { e.sha256(HeaderPreimage(h)) }

  function HeaderHash(e: Env, h: BlockHeader): (t: Text)
    ensures |t| == 64
  {
    Hex(e.sha256(SigningBytes(e, h)))
  }

  /** A header's hash is the hex of the digest of its 32 signed bytes, which are themselves
      the digest of its fields. */
  lemma HashOfSignedBytes(e: Env, h: BlockHeader)
    ensures HeaderHash(e, h) == Hex(e.sha256(e.sha256(HeaderPreimage(h))))
  {
  }

  /** `header_signing_bytes`: the fields fed to a hasher one by one. */
  method HeaderSigningBytes(e: Env, h: BlockHeader) returns (d: Digest)
    ensures d == SigningBytes(e, h)
    ensures forall sig: Text :: d == SigningBytes(e, h.(signatureB64 := sig))
  {
    var hasher: Text := [];
    hasher := hasher + BigEndian(8, h.height);
    hasher := hasher + BigEndian(8, h.slot);
    hasher := hasher + BigEndian(8, h.epoch);
    hasher := hasher + h.parentHash;
    hasher := hasher + h.txsRoot;
    hasher := hasher + h.receiptsRoot;
    hasher := hasher + BigEndian(8, h.timestamp);
    hasher := hasher + h.proposerPubkeyB64;
    assert hasher == HeaderPreimage(h);
    d := e.sha256(hasher);
  }

  /** What every header the producer builds looks like. */
  ghost predicate HeaderShaped(h: BlockHeader) {
    && h.height < U64 && h.slot < U64 && h.epoch < U64 && h.timestamp < U64
    && |h.txsRoot| == 64 && |h.receiptsRoot| == 64 && |h.proposerPubkeyB64| == 44
  }

  /** Reads the unprefixed preimage back: every width is fixed except that of the parent
      hash, which the total length gives away. The signature is not in the preimage. */
  function ParseHeader(b: Text): Option<BlockHeader> {
    var n := |b|;
    if n < 204 then None else
      Some(BlockHeader(
        FromBigEndian(b[..8]), FromBigEndian(b[8..16]), FromBigEndian(b[16..24]),
        b[24..n - 180], b[n - 180..n - 116], b[n - 116..n - 52],
        FromBigEndian(b[n - 52..n - 44]), b[n - 44..], []))
  }

  lemma HeaderOffsets(height: Text, slot: Text, epoch: Text, parent: Text, txs: Text,
                      receipts: Text, ts: Text, key: Text, b: Text)
    requires |height| == 8 && |slot| == 8 && |epoch| == 8 && |ts| == 8
    requires |txs| == 64 && |receipts| == 64 && |key| == 44
    requires b == height + (slot + (epoch + (parent + (txs + (receipts + (ts + key))))))
    ensures var n := |b|;
      n == 204 + |parent|
      && b[..8] == height && b[8..16] == slot && b[16..24] == epoch && b[24..n - 180] == parent
      && b[n - 180..n - 116] == txs && b[n - 116..n - 52] == receipts
      && b[n - 52..n - 44] == ts && b[n - 44..] == key
  {
    var r7 := ts + key;
    var r6 := receipts + r7;
    var r5 := txs + r6;
    var r4 := parent + r5;
    var r3 := epoch + r4;
    var r2 := slot + r3;
    var p := |parent|;
    assert b[0..] == height + r2;
    NextPiece(b, 0, height, r2);
    NextPiece(b, 8, slot, r3);
    NextPiece(b, 16, epoch, r4);
    NextPiece(b, 24, parent, r5);
    NextPiece(b, 24 + p, txs, r6);
    NextPiece(b, 88 + p, receipts, r7);
    NextPiece(b, 152 + p, ts, key);
  }

  lemma {:induction false} ParseInvertsPreimage(h: BlockHeader)
    requires HeaderShaped(h)
    ensures ParseHeader(HeaderPreimage(h)) == Some(h.(signatureB64 := []))
  {
    HeaderOffsets(BigEndian(8, h.height), BigEndian(8, h.slot), BigEndian(8, h.epoch), h.parentHash,
                  h.txsRoot, h.receiptsRoot, BigEndian(8, h.timestamp), h.proposerPubkeyB64,
                  HeaderPreimage(h));
    FixedWidthRoundTrips();
  }

  // ---- Blocks ----

  function TxIds(e: Env, txs: seq<SignedTx>): (ids: seq<Text>)
    ensures |ids| == |txs|
    ensures forall i :: 0 <= i < |txs| ==> ids[i] == TxId(e, txs[i])
  {
    seq(|txs|, i requires 0 <= i < |txs| => TxId(e, txs[i]))
  }

  function IdSet(e: Env, txs: seq<SignedTx>): set<Text> {
    set tx | tx in txs :: TxId(e, tx)
  }

  function ReceiptFor(e: Env, tx: SignedTx, index: nat): TxReceipt {
    TxReceipt(TxId(e, tx), true, index, GAS_USED, tx.maxFee)
  }

  function ReceiptsFor(e: Env, txs: seq<SignedTx>): (rs: seq<TxReceipt>)
    ensures |rs| == |txs|
  {
    seq(|txs|, i requires 0 <= i < |txs| => ReceiptFor(e, txs[i], i))
  }

  function HeaderFor(e: Env, sk: Key, parentHash: Text, height: nat, slot: nat, now: nat,
                     txs: seq<SignedTx>): BlockHeader {
    var root := ListRoot(e.sha256, TxIds(e, txs));
    var h := BlockHeader(height, slot, slot / EPOCH_SLOTS, parentHash, root, root, now,
                         e.encode64(e.publicKey(sk)), []);
    h.(signatureB64 := e.encode64(e.sign(sk, SigningBytes(e, h))))
  }

  function BlockFor(e: Env, sk: Key, parentHash: Text, height: nat, slot: nat, now: nat,
                    txs: seq<SignedTx>): Block {
    var h := HeaderFor(e, sk, parentHash, height, slot, now, txs);
    Block(h, txs, ReceiptsFor(e, txs), HeaderHash(e, h))
  }

  /** The part of a producer round that runs outside the lock: receipts, roots, header,
      signature, hash. */
  method BuildBlock(e: Env, sk: Key, parentHash: Text, height: nat, slot: nat, now: nat,
                    txs: seq<SignedTx>) returns (b: Block)
    ensures b == BlockFor(e, sk, parentHash, height, slot, now, txs)
  {
    var epoch := slot / EPOCH_SLOTS;
    var receipts: seq<TxReceipt> := [];
    var ids: seq<Text> := [];
    var i := 0;
    while i < |txs|
      invariant 0 <= i <= |txs|
      invariant |receipts| == |ids| == i
      invariant forall k :: 0 <= k < i ==> receipts[k] == ReceiptFor(e, txs[k], k)
      invariant forall k :: 0 <= k < i ==> ids[k] == receipts[k].txId
    {
      var r := TxReceipt(TxId(e, txs[i]), true, i, GAS_USED, txs[i].maxFee);
      receipts := receipts + [r];
      ids := ids + [r.txId];
      i := i + 1;
    }
    assert receipts == ReceiptsFor(e, txs) && ids == TxIds(e, txs);
    var txsRoot, _, _ := ListRootHex(e.sha256, ids);
    var receiptsRoot, _, _ := ListRootHex(e.sha256, ids);
    var header := BlockHeader(height, slot, epoch, parentHash, txsRoot, receiptsRoot, now,
                              e.encode64(e.publicKey(sk)), []);
    var bytes := HeaderSigningBytes(e, header);
    var sig := e.sign(sk, bytes);
    header := header.(signatureB64 := e.encode64(sig));
    b := Block(header, txs, receipts, HeaderHash(e, header));
  }

  // ---- Chains ----

  function TipHash(chain: seq<Block>): Text {
    if chain == [] then GENESIS else chain[|chain| - 1].hash
  }

  /** A block as some producer builds it on top of `prefix`. */
  ghost predicate ExtendsChain(e: Env, prefix: seq<Block>, b: Block) {
    && b.header.height == |prefix| + 1
    && b.header.parentHash == TipHash(prefix)
    && BlockSound(e, b)
  }

  /** What holds of a produced block by itself. */
  ghost predicate BlockSound(e: Env, b: Block) {
    && HeaderShaped(b.header)
    && b.hash == HeaderHash(e, b.header)
    && b.header.epoch == b.header.slot / EPOCH_SLOTS
    && b.receipts == ReceiptsFor(e, b.txs)
    && b.header.txsRoot == ListRoot(e.sha256, TxIds(e, b.txs))
    && b.header.receiptsRoot == b.header.txsRoot
    && NoDuplicates(TxIds(e, b.txs))
    && |b.txs| <= MAX_TXS_PER_BLOCK
  }

  /** A chain rooted at "GENESIS", every block built on the one before it. */
  ghost predicate ProducerChain(e: Env, chain: seq<Block>) {
    forall i {:trigger ExtendsChain(e, chain[..i], chain[i])} ::
      0 <= i < |chain| ==> ExtendsChain(e, chain[..i], chain[i])
  }

  /** Everything hashed to build a block: the header preimage, its digest (which is hashed
      again), and the inputs of the Merkle root. */
  ghost function BlockInputs(e: Env, b: Block): set<Text> {
    {HeaderPreimage(b.header), SigningBytes(e, b.header)} + HashInputs(e.sha256, TxIds(e, b.txs))
  }

  ghost function ChainInputs(e: Env, chain: seq<Block>): set<Text> {
    if chain == [] then {} else
      ChainInputs(e, chain[..|chain| - 1]) + BlockInputs(e, chain[|chain| - 1])
  }

  /** Two headers that agree in every field but the signature. */
  ghost predicate SameHeader(a: BlockHeader, b: BlockHeader) {
    a.(signatureB64 := []) == b.(signatureB64 := [])
  }

  /** Two blocks with the same transaction ids, or whose Merkle roots, and nothing else, were
      hashed from strings that exhibit the break of their case. */
  ghost predicate SameIds(e: Env, a: Block, b: Block) {
    var xs, ys := TxIds(e, a.txs), TxIds(e, b.txs);
    var inputs := HashInputs(e.sha256, xs) + HashInputs(e.sha256, ys);
    || xs == ys
    || (CeilLog2(|xs|) != CeilLog2(|ys|) && HexDigestIn(e.sha256, inputs))
    || ((xs == []) != (ys == []) && ZeroPreimageIn(e.sha256, inputs))
  }

  ghost predicate SameHeaders(c: seq<Block>, d: seq<Block>) {
    && |c| == |d|
    && forall i :: 0 <= i < |c| ==> SameHeader(c[i].header, d[i].header)
  }

  ghost predicate SameHistory(e: Env, c: seq<Block>, d: seq<Block>) {
    && SameHeaders(c, d)
    && forall i :: 0 <= i < |c| ==> SameIds(e, c[i], d[i])
  }

  lemma NoCollisionWithin(h: Hash, small: set<Text>, inputs: set<Text>)
    requires small <= inputs && !CollisionIn(h, inputs)
    ensures !CollisionIn(h, small)
  {
  }

  /** Equal header hashes mean equal headers, signatures aside, unless the preimages or
      their digests, which are hashed again, collide. */
  lemma HeaderHashBinds(e: Env, a: BlockHeader, b: BlockHeader)
    requires HeaderShaped(a) && HeaderShaped(b) && HeaderHash(e, a) == HeaderHash(e, b)
    ensures a.(signatureB64 := []) == b.(signatureB64 := [])
         || CollisionIn(e.sha256, {HeaderPreimage(a), SigningBytes(e, a),
                                   HeaderPreimage(b), SigningBytes(e, b)})
  {
    HexInjective(e.sha256(SigningBytes(e, a)), e.sha256(SigningBytes(e, b)));
    if SigningBytes(e, a) == SigningBytes(e, b) && HeaderPreimage(a) == HeaderPreimage(b) {
      ParseInvertsPreimage(a);
      ParseInvertsPreimage(b);
    }
  }

  lemma HeaderBoundWithin(e: Env, a: Block, b: Block, inputs: set<Text>)
    requires BlockSound(e, a) && BlockSound(e, b) && a.hash == b.hash
    requires HeaderPreimage(a.header) in inputs && SigningBytes(e, a.header) in inputs
    requires HeaderPreimage(b.header) in inputs && SigningBytes(e, b.header) in inputs
    requires !CollisionIn(e.sha256, inputs)
    ensures SameHeader(a.header, b.header)
    ensures a.header.parentHash == b.header.parentHash && a.header.txsRoot == b.header.txsRoot
  {
    HeaderHashBinds(e, a.header, b.header);
    NoCollisionWithin(e.sha256, {HeaderPreimage(a.header), SigningBytes(e, a.header),
                                 HeaderPreimage(b.header), SigningBytes(e, b.header)}, inputs);
    var x, y := a.header.(signatureB64 := []), b.header.(signatureB64 := []);
    assert x.parentHash == y.parentHash && x.txsRoot == y.txsRoot;
  }

  lemma RootsHashWithin(e: Env, a: Block, b: Block)
    requires BlockSound(e, a) && BlockSound(e, b)
    ensures NoDuplicates(TxIds(e, a.txs)) && NoDuplicates(TxIds(e, b.txs))
    ensures forall t :: t in TxIds(e, a.txs) || t in TxIds(e, b.txs) ==> IdShaped(t)
    ensures a.header.txsRoot == ListRoot(e.sha256, TxIds(e, a.txs))
    ensures b.header.txsRoot == ListRoot(e.sha256, TxIds(e, b.txs))
  {
  }

  lemma IdsBoundWithin(e: Env, a: Block, b: Block, inputs: set<Text>)
    requires BlockSound(e, a) && BlockSound(e, b) && a.header.txsRoot == b.header.txsRoot
    requires HashInputs(e.sha256, TxIds(e, a.txs)) <= inputs
    requires HashInputs(e.sha256, TxIds(e, b.txs)) <= inputs
    requires !CollisionIn(e.sha256, inputs)
    ensures SameIds(e, a, b)
  {
    var xs, ys := TxIds(e, a.txs), TxIds(e, b.txs);
    RootsHashWithin(e, a, b);
    RootBindsList(e.sha256, xs, ys);
    NoCollisionWithin(e.sha256, HashInputs(e.sha256, xs) + HashInputs(e.sha256, ys), inputs);
  }

  lemma InputsOfLast(e: Env, c: seq<Block>, inputs: set<Text>)
    requires c != [] && ChainInputs(e, c) <= inputs
    ensures ChainInputs(e, c[..|c| - 1]) <= inputs
    ensures var b := c[|c| - 1];
      && HeaderPreimage(b.header) in inputs && SigningBytes(e, b.header) in inputs
      && HashInputs(e.sha256, TxIds(e, b.txs)) <= inputs
  {
    var b := c[|c| - 1];
    assert HeaderPreimage(b.header) in BlockInputs(e, b);
    assert SigningBytes(e, b.header) in BlockInputs(e, b);
    assert BlockInputs(e, b) <= ChainInputs(e, c);
  }

  lemma LastBlock(e: Env, c: seq<Block>)
    requires ProducerChain(e, c) && c != []
    ensures ProducerChain(e, c[..|c| - 1])
    ensures var b := c[|c| - 1];
      BlockSound(e, b) && b.header.parentHash == TipHash(c[..|c| - 1]) && b.hash == TipHash(c)
  {
    assert ExtendsChain(e, c[..|c| - 1], c[|c| - 1]);
    PrefixIsChain(e, c, |c| - 1);
  }

  lemma PrefixIsChain(e: Env, chain: seq<Block>, k: nat)
    requires ProducerChain(e, chain) && k <= |chain|
    ensures ProducerChain(e, chain[..k])
  {
    forall i | 0 <= i < k ensures ExtendsChain(e, chain[..k][..i], chain[..k][i]) {
      assert chain[..k][..i] == chain[..i];
    }
  }

  lemma HistoryGrows(e: Env, c: seq<Block>, d: seq<Block>)
    requires c != [] && d != [] && SameHistory(e, c[..|c| - 1], d[..|d| - 1])
    requires SameHeader(c[|c| - 1].header, d[|d| - 1].header) && SameIds(e, c[|c| - 1], d[|d| - 1])
    ensures SameHistory(e, c, d)
  {
    var c', d' := c[..|c| - 1], d[..|d| - 1];
    forall i | 0 <= i < |c| - 1
      ensures SameHeader(c[i].header, d[i].header) && SameIds(e, c[i], d[i])
    {
      assert c[i] == c'[i] && d[i] == d'[i];
      assert SameHeader(c'[i].header, d'[i].header) && SameIds(e, c'[i], d'[i]);
    }
  }

  lemma {:induction false} HistoryBoundWithin(e: Env, c: seq<Block>, d: seq<Block>, inputs: set<Text>)
    requires ProducerChain(e, c) && ProducerChain(e, d) && TipHash(c) == TipHash(d)
    requires ChainInputs(e, c) <= inputs && ChainInputs(e, d) <= inputs
    requires !CollisionIn(e.sha256, inputs)
    ensures SameHistory(e, c, d)
    decreases |c|
  {
    if c == [] || d == [] {
      if c != [] {
        LastBlock(e, c);
      }
      if d != [] {
        LastBlock(e, d);
      }
    } else {
      LastBlock(e, c);
      LastBlock(e, d);
      InputsOfLast(e, c, inputs);
      InputsOfLast(e, d, inputs);
      HeaderBoundWithin(e, c[|c| - 1], d[|d| - 1], inputs);
      IdsBoundWithin(e, c[|c| - 1], d[|d| - 1], inputs);
      HistoryBoundWithin(e, c[..|c| - 1], d[..|d| - 1], inputs);
      HistoryGrows(e, c, d);
    }
  }

  /** The tip hash binds all history. Two chains from "GENESIS", possibly by different
      proposers, with one tip hash have the same length and headers equal field by field apart
      from signatures, or the hashing done for the two chains exhibits a collision. Without
      one, block by block the transaction ids are the same too, unless the Merkle hashing of
      that very pair of blocks exhibits a digest of base16 digits only (trees of different
      depths) or a preimage of the all-zero digest (an empty block against a non-empty one). */
  lemma TipHashBindsHistory(e: Env, c: seq<Block>, d: seq<Block>)
    requires ProducerChain(e, c) && ProducerChain(e, d) && TipHash(c) == TipHash(d)
    ensures var inputs := ChainInputs(e, c) + ChainInputs(e, d);
      || CollisionIn(e.sha256, inputs)
      || (SameHeaders(c, d) && forall i :: 0 <= i < |c| ==> SameIds(e, c[i], d[i]))
  {
    var inputs := ChainInputs(e, c) + ChainInputs(e, d);
    if !CollisionIn(e.sha256, inputs) {
      HistoryBoundWithin(e, c, d, inputs);
    }
  }
}

/** Signed transactions: canonical bytes, ids, signing and checking (src/rpc/types.rs). */
module Transaction {
  import opened Bytes
  import opened Crypto

  datatype SignedTx = SignedTx(
    version: u16,
    chainId: u32,
    fromPubkeyB64: Text,
    nonce: u64,
    to: Option<Text>,
    value: u128,
    maxFee: u64,
    dataB64: Text,
    timestamp: u64,
    expiry: u64,
    sigAlg: Text,
    sigB64: Text)

  datatype TxError =
    | UnsupportedSigAlg | Expired | BadKeyEncoding | BadKeyLength | BadKey
    | BadSigEncoding | BadSigLength | BadSignature
    | FeeTooLow | NonceTooLow

  const ED25519: Text := Ascii("ed25519")
  const DOMAIN: Text := Ascii("TX|v1|")

  /** `B64.decode(..).unwrap_or_default()`. */
  function DecodeOrEmpty(e: Env, t: Text): Text {
    match e.decode64(t) case Some(b) => b case None => []
  }

  function ToBytes(to: Option<Text>): Text {
    match to case Some(t) => t case None => []
  }

  function CanonicalBytes(e: Env, tx: SignedTx): Text {
    DOMAIN + (BigEndian(4, tx.chainId) + (DecodeOrEmpty(e, tx.fromPubkeyB64)
      + (BigEndian(8, tx.nonce) + (ToBytes(tx.to) + (BigEndian(16, tx.value)
        + (BigEndian(8, tx.maxFee) + (DecodeOrEmpty(e, tx.dataB64)
          + (BigEndian(8, tx.timestamp) + BigEndian(8, tx.expiry)))))))))
  }

  /** The domain tag is the six bytes of `TX|v1|`, the algorithm's name the seven of
      `ed25519`. */
  lemma TagsInNumbers(e: Env, tx: SignedTx)
    ensures CanonicalBytes(e, tx)[..6] == [84, 88, 124, 118, 49, 124]
    ensures Genuine(e, tx) ==> tx.sigAlg == [101, 100, 50, 53, 53, 49, 57]
  {
    var tag: Text := [84, 88, 124, 118, 49, 124];
    assert DOMAIN == tag;
    var alg: Text := [101, 100, 50, 53, 53, 49, 57];
    assert ED25519 == alg;
  }

  /** Appending from the left is the concatenation from the right. */
  lemma Regroup(a: Text, b: Text, c: Text, d: Text, rest: Text)
    ensures a + b + c + d + rest == a + (b + (c + (d + rest)))
  {
  }

  /** `canonical_bytes`: the fields appended one after the other, without length prefixes. */
  method AppendCanonicalBytes(e: Env, tx: SignedTx) returns (out: Text)
    ensures out == CanonicalBytes(e, tx)
  {
    out := [];
    out := out + DOMAIN;
    out := out + BigEndian(4, tx.chainId);
    var fromPk := DecodeOrEmpty(e, tx.fromPubkeyB64);
    out := out + fromPk;
    out := out + BigEndian(8, tx.nonce);
    if tx.to.Some? {
      out := out + tx.to.value;
    }
    Regroup(DOMAIN, BigEndian(4, tx.chainId), fromPk, BigEndian(8, tx.nonce), ToBytes(tx.to));
    ghost var front := out;
    out := out + BigEndian(16, tx.value);
    out := out + BigEndian(8, tx.maxFee);
    var data := DecodeOrEmpty(e, tx.dataB64);
    out := out + data;
    out := out + BigEndian(8, tx.timestamp);
    out := out + BigEndian(8, tx.expiry);
    Regroup(front + BigEndian(16, tx.value), BigEndian(8, tx.maxFee), data, BigEndian(8, tx.timestamp),
            BigEndian(8, tx.expiry));
    assert out == CanonicalBytes(e, tx);
  }

  function TxId(e: Env, tx: SignedTx): (id: Text)
    ensures |id| == 64 && AllHex(id)
  {
    Hex(e.sha256(CanonicalBytes(e, tx)))
  }

  // ---- What the canonical bytes determine ----

  /** The fields a signature and an id cover. `version`, `sig_alg` and `sig_b64` are not
      among them; an absent recipient is an empty one; undecodable data is empty data. */
  datatype Covered = Covered(
    chainId: nat, key: Text, nonce: nat, to: Text, value: nat, maxFee: nat, data: Text,
    timestamp: nat, expiry: nat)

  function CoveredFields(e: Env, tx: SignedTx): Covered {
    Covered(tx.chainId, DecodeOrEmpty(e, tx.fromPubkeyB64), tx.nonce, ToBytes(tx.to),
            tx.value, tx.maxFee, DecodeOrEmpty(e, tx.dataB64), tx.timestamp, tx.expiry)
  }

  predicate HasFullKey(e: Env, tx: SignedTx) {
    |DecodeOrEmpty(e, tx.fromPubkeyB64)| == 32
  }

  /** Reads canonical bytes back, given the length of the recipient: every other width is
      fixed except that of the data, which is what remains. */
  function ParseCanonical(b: Text, toLength: nat): Option<Covered> {
    var n := |b|;
    if n < 90 + toLength || b[..6] != DOMAIN then None else
      Some(Covered(
        FromBigEndian(b[6..10]),
        b[10..42],
        FromBigEndian(b[42..50]),
        b[50..50 + toLength],
        FromBigEndian(b[50 + toLength..66 + toLength]),
        FromBigEndian(b[66 + toLength..74 + toLength]),
        b[74 + toLength..n - 16],
        FromBigEndian(b[n - 16..n - 8]),
        FromBigEndian(b[n - 8..])))
  }

  lemma {:induction false} ParseInvertsCanonicalBytes(e: Env, tx: SignedTx)
    requires HasFullKey(e, tx)
    ensures ParseCanonical(CanonicalBytes(e, tx), |ToBytes(tx.to)|)
         == Some(CoveredFields(e, tx))
  {
    var b := CanonicalBytes(e, tx);
    var key, to, data := DecodeOrEmpty(e, tx.fromPubkeyB64), ToBytes(tx.to), DecodeOrEmpty(e, tx.dataB64);
    var n, t := |b|, |to|;
    assert n == 90 + t + |data|;
    CanonicalOffsets(BigEndian(4, tx.chainId), key, BigEndian(8, tx.nonce), to,
                     BigEndian(16, tx.value), BigEndian(8, tx.maxFee), data,
                     BigEndian(8, tx.timestamp), BigEndian(8, tx.expiry), b);
    FixedWidthRoundTrips();
  }

  lemma CanonicalOffsets(chain: Text, key: Text, nonce: Text, to: Text, value: Text, fee: Text,
                         data: Text, ts: Text, exp: Text, b: Text)
    requires |chain| == 4 && |key| == 32 && |nonce| == 8 && |value| == 16 && |fee| == 8
    requires |ts| == 8 && |exp| == 8
    requires b == DOMAIN + (chain + (key + (nonce + (to + (value + (fee + (data + (ts + exp))))))))
    ensures var n, t := |b|, |to|;
      n == 90 + t + |data|
      && b[..6] == DOMAIN && b[6..10] == chain && b[10..42] == key && b[42..50] == nonce
      && b[50..50 + t] == to && b[50 + t..66 + t] == value && b[66 + t..74 + t] == fee
      && b[74 + t..n - 16] == data && b[n - 16..n - 8] == ts && b[n - 8..] == exp
  {
    var r9 := ts + exp;
    var r8 := data + r9;
    var r7 := fee + r8;
    var r6 := value + r7;
    var r5 := to + r6;
    var r4 := nonce + r5;
    var r3 := key + r4;
    var r2 := chain + r3;
    var t, d := |to|, |data|;
    assert b[0..] == DOMAIN + r2;
    NextPiece(b, 0, DOMAIN, r2);
    NextPiece(b, 6, chain, r3);
    NextPiece(b, 10, key, r4);
    NextPiece(b, 42, nonce, r5);
    NextPiece(b, 50, to, r6);
    NextPiece(b, 50 + t, value, r7);
    NextPiece(b, 66 + t, fee, r8);
    NextPiece(b, 74 + t, data, r9);
    NextPiece(b, 74 + t + d, ts, exp);
  }

  /** Equal ids mean equal covered fields once the recipients are known to be equally long,
      or the two canonical encodings are a SHA-256 collision. */
  lemma EqualIdsEqualFields(e: Env, s: SignedTx, t: SignedTx)
    requires HasFullKey(e, s) && HasFullKey(e, t) && TxId(e, s) == TxId(e, t)
    requires |ToBytes(s.to)| == |ToBytes(t.to)|
    ensures CoveredFields(e, s) == CoveredFields(e, t)
         || CollisionIn(e.sha256, {CanonicalBytes(e, s), CanonicalBytes(e, t)})
  {
    var a, b := CanonicalBytes(e, s), CanonicalBytes(e, t);
    HexInjective(e.sha256(a), e.sha256(b));
    if a == b {
      ParseInvertsCanonicalBytes(e, s);
      ParseInvertsCanonicalBytes(e, t);
    } else {
      assert a in {a, b} && b in {a, b};
    }
  }

  /** The exact condition under which canonical bytes identify a transaction: among full-key
      transactions with equal bytes, the covered fields agree if and only if the recipients
      are equally long. */
  lemma CanonicalBytesIdentifyIff(e: Env, s: SignedTx, t: SignedTx)
    requires HasFullKey(e, s) && HasFullKey(e, t)
    requires CanonicalBytes(e, s) == CanonicalBytes(e, t)
    ensures CoveredFields(e, s) == CoveredFields(e, t) <==> |ToBytes(s.to)| == |ToBytes(t.to)|
  {
    if |ToBytes(s.to)| == |ToBytes(t.to)| {
      ParseInvertsCanonicalBytes(e, s);
      ParseInvertsCanonicalBytes(e, t);
    }
  }

  /** What the encoding leaves out: the version, the algorithm's name, the signature, and the
      difference between no recipient and an empty one and between undecodable and empty data. */
  lemma EncodedAlike(e: Env, tx: SignedTx, version: u16, alg: Text, sig: Text, junk: Text)
    requires Lawful(e) && e.decode64(junk).None?
    ensures CanonicalBytes(e, tx.(version := version, sigAlg := alg, sigB64 := sig)) == CanonicalBytes(e, tx)
    ensures CanonicalBytes(e, tx.(to := None)) == CanonicalBytes(e, tx.(to := Some([])))
    ensures CanonicalBytes(e, tx.(dataB64 := junk)) == CanonicalBytes(e, tx.(dataB64 := e.encode64([])))
  {
    var none: Text := [];
    assert e.decode64(e.encode64(none)) == Some(none);
  }

  /** The missing length prefix matters: whatever the other fields, moving one zero byte
      from the recipient to the data keeps the encoding, hence the id, and a signature that
      is valid for one is valid for the other, though recipient and data differ. */
  lemma RecipientRunsIntoData(e: Env, tx: SignedTx)
    requires Lawful(e)
    ensures var s := tx.(to := Some([0]), value := 0, maxFee := 0, dataB64 := e.encode64([]));
            var t := tx.(to := None, value := 0, maxFee := 0, dataB64 := e.encode64([0]));
            && CanonicalBytes(e, s) == CanonicalBytes(e, t) && TxId(e, s) == TxId(e, t)
            && CoveredFields(e, s) != CoveredFields(e, t)
            && (Genuine(e, s) <==> Genuine(e, t))
  {
    ZeroBytes(16);
    ZeroBytes(8);
    var none: Text, one: Text := [], [0];
    assert e.decode64(e.encode64(none)) == Some(none) && e.decode64(e.encode64(one)) == Some(one);
    MoveZero(BigEndian(8, tx.timestamp) + BigEndian(8, tx.expiry));
  }

  lemma MoveZero(tail: Text)
    ensures [0] + (Zeros(16) + (Zeros(8) + ([] + tail))) == [] + (Zeros(16) + (Zeros(8) + ([0] + tail)))
  {
  }

  lemma {:induction false} ZeroBytes(width: nat)
    ensures BigEndian(width, 0) == Zeros(width)
  {
    if width > 0 {
      ZeroBytes(width - 1);
    }
  }

  /** Key and nonce come before the recipient, so the bytes alone determine the sender and
      its nonce, whatever the recipients. */
  lemma EqualIdsEqualSender(e: Env, s: SignedTx, t: SignedTx)
    requires Lawful(e)
    requires e.decode64(s.fromPubkeyB64).Some? && e.decode64(t.fromPubkeyB64).Some?
    requires HasFullKey(e, s) && HasFullKey(e, t) && TxId(e, s) == TxId(e, t)
    ensures (s.fromPubkeyB64 == t.fromPubkeyB64 && s.nonce == t.nonce)
         || CollisionIn(e.sha256, {CanonicalBytes(e, s), CanonicalBytes(e, t)})
  {
    var a, b := CanonicalBytes(e, s), CanonicalBytes(e, t);
    HexInjective(e.sha256(a), e.sha256(b));
    if a == b {
      ParseInvertsCanonicalBytes(e, s);
      ParseInvertsCanonicalBytes(e, t);
      assert e.encode64(e.decode64(s.fromPubkeyB64).value) == s.fromPubkeyB64;
      assert e.encode64(e.decode64(t.fromPubkeyB64).value) == t.fromPubkeyB64;
    } else {
      assert a in {a, b} && b in {a, b};
    }
  }

  // ---- Checking ----

  /** `verify_tx`, with the clock read passed in; `None` is success. */
  function VerifyTx(e: Env, tx: SignedTx, now: nat): (err: Option<TxError>) {
    if tx.sigAlg != ED25519 then Some(UnsupportedSigAlg)
    else if tx.expiry < now then Some(Expired)
    else match e.decode64(tx.fromPubkeyB64)
      case None => Some(BadKeyEncoding)
      case Some(pk) =>
        if |pk| != 32 then Some(BadKeyLength)
        else if !e.validKey(pk) then Some(BadKey)
        else match e.decode64(tx.sigB64)
          case None => Some(BadSigEncoding)
          case Some(sig) =>
            if |sig| != 64 then Some(BadSigLength)
            else if !e.verify(pk, CanonicalBytes(e, tx), sig) then Some(BadSignature)
            else None
  }

  /** A transaction that carries a valid signature by its stated sender, at whatever time. */
  predicate Genuine(e: Env, tx: SignedTx) {
    && tx.sigAlg == ED25519
    && var pk, sig := e.decode64(tx.fromPubkeyB64), e.decode64(tx.sigB64);
    && pk.Some? && |pk.value| == 32 && e.validKey(pk.value)
    && sig.Some? && |sig.value| == 64
    && e.verify(pk.value, CanonicalBytes(e, tx), sig.value)
  }

  /** Time enters the check only through the expiry, and the expiry second is included. */
  lemma VerifiesIff(e: Env, tx: SignedTx, now: nat)
    ensures VerifyTx(e, tx, now) == None <==> Genuine(e, tx) && now <= tx.expiry
    ensures Genuine(e, tx) && now > tx.expiry ==> VerifyTx(e, tx, now) == Some(Expired)
    ensures Genuine(e, tx) ==> HasFullKey(e, tx)
  {
  }

  /** Each refusal has its own cause, and the checks before it have passed. */
  lemma RefusedFor(e: Env, tx: SignedTx, now: nat)
    ensures var err, pk, sig := VerifyTx(e, tx, now), e.decode64(tx.fromPubkeyB64), e.decode64(tx.sigB64);
      var timely := tx.sigAlg == [101, 100, 50, 53, 53, 49, 57] && now <= tx.expiry;
      var keyed := timely && pk.Some? && |pk.value| == 32 && e.validKey(pk.value);
      && (err == Some(UnsupportedSigAlg) <==> tx.sigAlg != [101, 100, 50, 53, 53, 49, 57])
      && (err == Some(Expired) <==> tx.sigAlg == [101, 100, 50, 53, 53, 49, 57] && tx.expiry < now)
      && (err == Some(BadKeyEncoding) <==> timely && pk.None?)
      && (err == Some(BadKeyLength) <==> timely && pk.Some? && |pk.value| != 32)
      && (err == Some(BadKey) <==> timely && pk.Some? && |pk.value| == 32 && !e.validKey(pk.value))
      && (err == Some(BadSigEncoding) <==> keyed && sig.None?)
      && (err == Some(BadSigLength) <==> keyed && sig.Some? && |sig.value| != 64)
      && (err == Some(BadSignature) <==>
            keyed && sig.Some? && |sig.value| == 64 && !e.verify(pk.value, CanonicalBytes(e, tx), sig.value))
  {
    var alg: Text := [101, 100, 50, 53, 53, 49, 57];
    assert ED25519 == alg;
  }

  // ---- Signing ----

  /** `sign_tx`: build the transaction with an empty signature, sign its canonical bytes,
      fill the signature in. The expiry wraps as u64 addition does in a release build. */
  method SignTx(e: Env, sk: Key, chainId: u32, nonce: u64, to: Option<Text>, value: u128,
                maxFee: u64, dataB64: Text, ttlSecs: u64, now: u64) returns (tx: SignedTx)
    requires Lawful(e)
    ensures Genuine(e, tx)
    ensures forall t: nat :: VerifyTx(e, tx, t) == None <==> t <= (now + ttlSecs) % U64
    ensures CoveredFields(e, tx)
         == Covered(chainId, e.publicKey(sk), nonce, ToBytes(to), value, maxFee,
                    DecodeOrEmpty(e, dataB64), now, (now + ttlSecs) % U64)
    ensures tx.version == 1 && tx.sigAlg == ED25519 && tx.to == to && tx.dataB64 == dataB64
    ensures tx.fromPubkeyB64 == e.encode64(e.publicKey(sk))
    ensures tx.chainId == chainId && tx.nonce == nonce && tx.value == value && tx.maxFee == maxFee
    ensures tx.timestamp == now && tx.expiry == (now + ttlSecs) % U64
  {
    var expiry := (now + ttlSecs) % U64;
    var unsigned := SignedTx(1, chainId, e.encode64(e.publicKey(sk)), nonce, to, value, maxFee,
                             dataB64, now, expiry, ED25519, []);
    var bytes := AppendCanonicalBytes(e, unsigned);
    var sig := e.sign(sk, bytes);
    tx := unsigned.(sigB64 := e.encode64(sig));
    assert CanonicalBytes(e, tx) == CanonicalBytes(e, unsigned);
    forall t: nat ensures VerifyTx(e, tx, t) == None <==> t <= (now + ttlSecs) % U64 {
      VerifiesIff(e, tx, t);
    }
  }
}

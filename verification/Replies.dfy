/** What a client is told: of its own submissions, of others', and on joining. */
module Replies {
  import opened Bytes
  import opened Crypto
  import opened Transaction
  import opened Mempool
  import opened Protocol
  import opened Node
  import opened Network
  import opened Accounting
  import opened Delivery
  import opened Runs

  /** A higher nonce of the same sender has been accepted. */
  ghost predicate Overtaken(s: Sys, tx: SignedTx) {
    exists j :: 0 <= j < |s.accepted| && s.accepted[j].fromPubkeyB64 == tx.fromPubkeyB64
             && s.accepted[j].nonce > tx.nonce
  }

  /** The server would take the transaction as a new one. */
  ghost predicate New(cfg: Config, s: Sys, tx: SignedTx) {
    && Genuine(cfg.env, tx) && s.now <= tx.expiry
    && TxId(cfg.env, tx) !in s.node.pool.byId && !Overtaken(s, tx)
  }

  /** The acknowledgement a submission deserves. It is favourable if and only if the
      transaction is validly signed and unexpired and either pending already or not overtaken;
      otherwise it says what is wrong. */
  ghost predicate Acknowledges(cfg: Config, s: Sys, tx: SignedTx, m: Msg) {
    var pending := TxId(cfg.env, tx) in s.node.pool.byId;
    && m.TxAck? && m.id == TxId(cfg.env, tx)
    && (m.ok <==> Genuine(cfg.env, tx) && s.now <= tx.expiry && (pending || !Overtaken(s, tx)))
    && (m.ok <==> m.err == None)
    && (Genuine(cfg.env, tx) && tx.expiry < s.now ==> m.err == Some(Expired))
    && (Genuine(cfg.env, tx) && s.now <= tx.expiry && !pending && Overtaken(s, tx) ==> m.err == Some(NonceTooLow))
    && (!Genuine(cfg.env, tx) ==> m.err == VerifyTx(cfg.env, tx, s.now))
  }

  lemma OutcomeInWords(cfg: Config, s: Sys, tx: SignedTx)
    requires Disciplined(cfg, s) && s.node.pool.minFee == 0
    ensures var r, pending := Outcome(cfg, s, tx), TxId(cfg.env, tx) in s.node.pool.byId;
      && (r.Fresh() <==> New(cfg, s, tx))
      && (r.Accepted? ==> r.id == TxId(cfg.env, tx))
      && (r.Accepted? <==> Genuine(cfg.env, tx) && s.now <= tx.expiry && (pending || !Overtaken(s, tx)))
      && (Genuine(cfg.env, tx) && tx.expiry < s.now ==> r == Rejected(Expired))
      && (Genuine(cfg.env, tx) && s.now <= tx.expiry && !pending && Overtaken(s, tx) ==> r == Rejected(NonceTooLow))
      && (!Genuine(cfg.env, tx) ==> r.Rejected? && VerifyTx(cfg.env, tx, s.now) == Some(r.err))
  {
    VerifiesIff(cfg.env, tx, s.now);
    FloorIsMaximum(s.node.pool, s.accepted, tx);
    OvertakenOrNot(s, tx);
  }

  lemma OvertakenOrNot(s: Sys, tx: SignedTx)
    ensures !Overtaken(s, tx) <==>
      forall j :: 0 <= j < |s.accepted| && s.accepted[j].fromPubkeyB64 == tx.fromPubkeyB64 ==>
        s.accepted[j].nonce <= tx.nonce
  {
  }

  /** How a channel's log grows when a transaction comes in: not at all without a place in the
      peer table; by one acknowledgement if it belongs to the submitting peer; otherwise by one
      announcement if the transaction is new and did not come in as gossip. */
  ghost predicate HearsOf(cfg: Config, s: Sys, origin: Origin, tx: SignedTx, c: nat, log: seq<Msg>)
    requires c < |s.node.channels|
  {
    var before, owner := s.node.channels[c].log, s.node.channels[c].owner;
    if !Registered(s.node, c) then log == before
    else if origin == FromPeer(owner) then
      |log| == |before| + 1 && log[..|before|] == before && Acknowledges(cfg, s, tx, log[|before|])
    else if New(cfg, s, tx) && origin != FromGossip then log == before + [TxAnnounce(tx)]
    else log == before
  }

  lemma OutgoingIsHeard(cfg: Config, s: Sys, origin: Origin, tx: SignedTx, c: nat)
    requires Disciplined(cfg, s) && s.node.pool.minFee == 0 && c < |s.node.channels|
    ensures HearsOf(cfg, s, origin, tx, c,
                    s.node.channels[c].log + Outgoing(cfg.env, s.node, origin, tx, Outcome(cfg, s, tx), c))
  {
    OutcomeInWords(cfg, s, tx);
    var log := s.node.channels[c].log;
    assert log + [] == log;
  }

  lemma PoolAndNonces(cfg: Config, s: Sys)
    requires Lawful(cfg.env) && Reachable(cfg, s)
    ensures Disciplined(cfg, s) && s.node.pool.minFee == 0
  {
    ReachableInvariant(cfg, s);
  }

  /** A transaction coming in, in any reachable state: it is accepted exactly when new, and
      every channel hears of it as it should. */
  lemma EveryoneIsTold(cfg: Config, s: Sys, origin: Origin, tx: SignedTx, victim: Option<Text>)
    requires Lawful(cfg.env) && Reachable(cfg, s) && Enabled(cfg, s, TxIn(origin, tx, victim))
    ensures var t := Apply(cfg, s, TxIn(origin, tx, victim));
      && t.accepted == (if New(cfg, s, tx) then s.accepted + [tx] else s.accepted)
      && (New(cfg, s, tx) ==> TxId(cfg.env, tx) in t.node.pool.byId)
      && |t.node.channels| == |s.node.channels|
      && forall c :: 0 <= c < |s.node.channels| ==> HearsOf(cfg, s, origin, tx, c, t.node.channels[c].log)
  {
    PoolAndNonces(cfg, s);
    OutcomeInWords(cfg, s, tx);
    var t := AfterTxIn(cfg, s, origin, tx, victim);
    forall c | 0 <= c < |s.node.channels| ensures HearsOf(cfg, s, origin, tx, c, t.node.channels[c].log) {
      LogAfterTxIn(cfg, s, origin, tx, victim, c);
      OutgoingIsHeard(cfg, s, origin, tx, c);
    }
  }

  /** A peer that joins gets a channel of its own, which starts with the list of exactly the
      registered node ids and their names, the newcomer among them; nobody else is told. */
  lemma NewcomerIsGreeted(cfg: Config, s: Sys, id: Text, name: Text)
    ensures var t, n := Apply(cfg, s, Connect(id, name)), |s.node.channels|;
      && |t.node.channels| == n + 1 && t.node.channels[..n] == s.node.channels
      && t.node.channels[n].owner == id && Registered(t.node, n)
      && |t.node.channels[n].log| == 1 && t.node.channels[n].log[0].Peers?
      && forall m: Member :: m in t.node.channels[n].log[0].members <==>
           || (m.nodeId == id && m.name == name)
           || (m.nodeId != id && m.nodeId in s.node.peers && m.name == s.node.peers[m.nodeId].name)
  {
    var t, n := AfterConnect(s, id, name), |s.node.channels|;
    var members := t.node.channels[n].log[0].members;
    assert t.node.channels[n].log == [Peers(Members(t.node.peers))];
    forall m: Member
      ensures m in members <==> m.nodeId in t.node.peers && t.node.peers[m.nodeId].name == m.name
    {
      if m.nodeId in t.node.peers && t.node.peers[m.nodeId].name == m.name {
        assert m == Member(m.nodeId, t.node.peers[m.nodeId].name);
      }
    }
  }
}

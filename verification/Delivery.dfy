/** What each channel has delivered, and what the client at its end has made of it. */
module Delivery {
  import opened Bytes
  import opened Crypto
  import opened Transaction
  import opened Chain
  import opened Mempool
  import opened Protocol
  import opened Node
  import opened Logs
  import opened Network
  import opened ChainSafety

  // ---- Blocks ----

  /** The newest committed block is still to be sent to channel `c`. */
  ghost predicate Pending(s: Sys, c: nat) {
    match s.phase
    case Committed(_) => Registered(s.node, c)
    case Sending(_, targets) => c in targets
    case _ => false
  }

  /** The delivered blocks are a gap-free piece of the chain from `first`; to a registered
      channel nothing is missing but a pending newest block. */
  ghost predicate Segment(log: seq<Msg>, first: nat, chain: seq<Block>, registered: bool, pending: bool) {
    var d := Delivered(log);
    && first + |d| <= |chain|
    && d == chain[first..first + |d|]
    && (pending ==> first + |d| + 1 == |chain|)
    && (registered && !pending ==> first + |d| == |chain|)
  }

  ghost predicate Delivering(s: Sys) {
    forall c :: 0 <= c < |s.node.channels| && c < |s.sessions| ==>
      Segment(s.node.channels[c].log, s.sessions[c].first, s.chain, Registered(s.node, c), Pending(s, c))
  }

  /** What an incoming transaction puts on a channel. */
  lemma OutgoingCases(e: Env, n: NodeState, origin: Origin, tx: SignedTx, r: InsertResult, c: nat)
    ensures var ms := Outgoing(e, n, origin, tx, r, c);
      || ms == []
      || (|ms| == 1 && ms[0].TxAck?)
      || (ms == [TxAnnounce(tx)] && r.Fresh() && Registered(n, c))
  {
  }

  lemma LogAfterTxIn(cfg: Config, s: Sys, origin: Origin, tx: SignedTx, victim: Option<Text>, c: nat)
    requires c < |s.node.channels|
    ensures var s' := AfterTxIn(cfg, s, origin, tx, victim);
      && |s'.node.channels| == |s.node.channels| && s'.phase == s.phase
      && s'.node.channels[c].log
         == s.node.channels[c].log + Outgoing(cfg.env, s.node, origin, tx, Outcome(cfg, s, tx), c)
  {
  }

  lemma OtherMessageKeepsSegment(ch: Channel, ms: seq<Msg>, first: nat, chain: seq<Block>,
                                 registered: bool, pending: bool)
    requires Segment(ch.log, first, chain, registered, pending)
    requires |ms| <= 1 && (ms != [] ==> !ms[0].NewBlock?)
    ensures Segment(Extend(ch, ms).log, first, chain, registered, pending)
  {
    if ms != [] {
      assert ms == [ms[0]];
      AppendOne(ch.log, ms[0]);
    }
  }

  lemma SendCompletesSegment(log: seq<Msg>, first: nat, chain: seq<Block>, registered: bool)
    requires chain != [] && Segment(log, first, chain, registered, true)
    ensures Segment(log + [NewBlock(chain[|chain| - 1])], first, chain, registered, false)
  {
    AppendOne(log, NewBlock(chain[|chain| - 1]));
  }

  lemma CommitOpensSegment(log: seq<Msg>, first: nat, chain: seq<Block>, b: Block, registered: bool)
    requires Segment(log, first, chain, registered, false)
    ensures Segment(log, first, chain + [b], registered, registered)
  {
  }

  lemma TxInKeepsDelivering(cfg: Config, s: Sys, origin: Origin, tx: SignedTx, victim: Option<Text>)
    requires Structure(s) && Delivering(s)
    ensures Delivering(AfterTxIn(cfg, s, origin, tx, victim))
  {
    var s' := AfterTxIn(cfg, s, origin, tx, victim);
    forall c | 0 <= c < |s.node.channels| && c < |s.sessions|
      ensures Segment(s'.node.channels[c].log, s.sessions[c].first, s.chain,
                      Registered(s'.node, c), Pending(s', c))
    {
      var ms := Outgoing(cfg.env, s.node, origin, tx, Outcome(cfg, s, tx), c);
      OutgoingCases(cfg.env, s.node, origin, tx, Outcome(cfg, s, tx), c);
      OtherMessageKeepsSegment(s.node.channels[c], ms, s.sessions[c].first, s.chain,
                               Registered(s.node, c), Pending(s, c));
      assert s'.node.channels[c] == Extend(s.node.channels[c], ms);
      assert Registered(s'.node, c) == Registered(s.node, c);
    }
  }

  /** Sending the newest block to the first target. */
  lemma SendKeepsSegment(log: seq<Msg>, first: nat, chain: seq<Block>, registered: bool, targets: seq<nat>, c: nat)
    requires chain != [] && targets != []
    requires forall i, j :: 0 <= i < j < |targets| ==> targets[i] != targets[j]
    requires Segment(log, first, chain, registered, c in targets)
    ensures Segment(if c == targets[0] then log + [NewBlock(chain[|chain| - 1])] else log, first, chain,
                    registered, c in targets[1..])
  {
    assert c in targets <==> c == targets[0] || c in targets[1..];
    if c == targets[0] {
      SendCompletesSegment(log, first, chain, registered);
    }
  }

  lemma SendKeepsChannel(s: Sys, b: Block, targets: seq<nat>, c: nat)
    requires TargetsSound(targets, |s.node.channels|) && targets != [] && s.phase == Sending(b, targets)
    requires c < |s.sessions| && c < |s.node.channels| && s.chain != [] && s.chain[|s.chain| - 1] == b
    requires Segment(s.node.channels[c].log, s.sessions[c].first, s.chain, Registered(s.node, c), Pending(s, c))
    ensures var s' := AfterSending(s, b, targets);
      Segment(s'.node.channels[c].log, s.sessions[c].first, s.chain, Registered(s'.node, c), Pending(s', c))
  {
    SendKeepsSegment(s.node.channels[c].log, s.sessions[c].first, s.chain, Registered(s.node, c), targets, c);
  }

  lemma SendEnds(s: Sys)
    requires Delivering(s) && s.phase.Sending? && s.phase.targets == []
    ensures Delivering(s.(phase := Idle))
  {
    assert forall c :: 0 <= c < |s.node.channels| && c < |s.sessions| ==> !Pending(s, c);
  }

  lemma SendGoesOn(s: Sys, b: Block, targets: seq<nat>)
    requires TargetsSound(targets, |s.node.channels|) && targets != [] && s.phase == Sending(b, targets)
    requires Delivering(s) && s.chain != [] && s.chain[|s.chain| - 1] == b
    ensures Delivering(AfterSending(s, b, targets))
  {
    var s' := AfterSending(s, b, targets);
    forall c | 0 <= c < |s.node.channels| && c < |s.sessions|
      ensures Segment(s'.node.channels[c].log, s.sessions[c].first, s.chain, Registered(s'.node, c), Pending(s', c))
    {
      SendKeepsChannel(s, b, targets, c);
    }
  }

  lemma SendKeepsDelivering(cfg: Config, s: Sys)
    requires Structure(s) && Delivering(s) && s.phase.Sending? && Enabled(cfg, s, SendNext)
    requires s.chain != [] && s.chain[|s.chain| - 1] == s.phase.block
    ensures Delivering(Apply(cfg, s, SendNext))
  {
    if s.phase.targets == [] {
      SendEnds(s);
    } else {
      SendGoesOn(s, s.phase.block, s.phase.targets);
    }
  }

  /** Losing its registration asks less of a channel. */
  lemma SegmentWeakens(log: seq<Msg>, first: nat, chain: seq<Block>, registered: bool, pending: bool,
                       registered': bool, pending': bool)
    requires Segment(log, first, chain, registered, pending)
    requires registered' ==> registered
    requires pending' ==> pending
    requires registered' && pending ==> pending'
    ensures Segment(log, first, chain, registered', pending')
  {
  }

  lemma NewSegment(m: Msg, first: nat, chain: seq<Block>, pending: bool)
    requires !m.NewBlock? && if pending then first + 1 == |chain| else first == |chain|
    ensures Segment([m], first, chain, true, pending)
  {
    AppendOne([], m);
    assert [m] == [] + [m];
  }

  lemma ConnectOpensSegment(s: Sys, id: Text, name: Text)
    requires Structure(s) && (s.phase.Committed? ==> s.chain != [])
    ensures var s', n := AfterConnect(s, id, name), |s.sessions|;
      Segment(s'.node.channels[n].log, s'.sessions[n].first, s.chain, Registered(s'.node, n), Pending(s', n))
  {
    var s', n := AfterConnect(s, id, name), |s.sessions|;
    assert s'.phase.Sending? ==> n !in s'.phase.targets;
    assert Registered(s'.node, n);
    NewSegment(Peers(Members(s'.node.peers)), s'.sessions[n].first, s.chain, Pending(s', n));
  }

  lemma ConnectKeepsDelivering(s: Sys, id: Text, name: Text)
    requires Structure(s) && Delivering(s)
    requires s.phase.Committed? ==> s.chain != []
    ensures Delivering(AfterConnect(s, id, name))
  {
    var s' := AfterConnect(s, id, name);
    ConnectOpensSegment(s, id, name);
    forall c | 0 <= c < |s.sessions|
      ensures Segment(s'.node.channels[c].log, s'.sessions[c].first, s.chain,
                      Registered(s'.node, c), Pending(s', c))
    {
      assert s'.node.channels[c] == s.node.channels[c] && s'.sessions[c] == s.sessions[c];
      SegmentWeakens(s.node.channels[c].log, s.sessions[c].first, s.chain, Registered(s.node, c), Pending(s, c),
                     Registered(s'.node, c), Pending(s', c));
    }
  }

  lemma DisconnectKeepsDelivering(cfg: Config, s: Sys, k: nat)
    requires Structure(s) && Delivering(s) && Enabled(cfg, s, Disconnect(k))
    ensures Delivering(Apply(cfg, s, Disconnect(k)))
  {
    var s' := Apply(cfg, s, Disconnect(k));
    forall c | 0 <= c < |s.node.channels| && c < |s.sessions|
      ensures Segment(s'.node.channels[c].log, s'.sessions[c].first, s.chain,
                      Registered(s'.node, c), Pending(s', c))
    {
      assert s'.sessions[c].first == s.sessions[c].first;
      SegmentWeakens(s.node.channels[c].log, s.sessions[c].first, s.chain, Registered(s.node, c), Pending(s, c),
                     Registered(s'.node, c), Pending(s', c));
    }
  }

  lemma CommitKeepsDelivering(cfg: Config, s: Sys)
    requires Structure(s) && Delivering(s) && s.phase.Built?
    ensures Delivering(Apply(cfg, s, Commit))
  {
    var s' := Apply(cfg, s, Commit);
    forall c | 0 <= c < |s.node.channels| && c < |s.sessions|
      ensures Segment(s'.node.channels[c].log, s'.sessions[c].first, s'.chain,
                      Registered(s'.node, c), Pending(s', c))
    {
      CommitOpensSegment(s.node.channels[c].log, s.sessions[c].first, s.chain, s.phase.block,
                         Registered(s.node, c));
    }
  }

  /** Events that touch neither channels, peers, chain nor what is pending. */
  lemma OthersKeepDelivering(cfg: Config, s: Sys, ev: Event)
    requires Structure(s) && Delivering(s) && Enabled(cfg, s, ev)
    requires ev.Tick? || ev.Sleep? || ev.Wake? || ev.Drain? || ev.Build? || ev.Snapshot? || ev.Process?
    ensures Delivering(Apply(cfg, s, ev))
  {
    var s' := Apply(cfg, s, ev);
    assert s'.node.channels == s.node.channels && s'.node.peers == s.node.peers && s'.chain == s.chain;
    forall c | 0 <= c < |s.node.channels| && c < |s.sessions|
      ensures Registered(s'.node, c) == Registered(s.node, c) && Pending(s', c) == Pending(s, c)
           && s'.sessions[c].first == s.sessions[c].first
    {
    }
  }

  lemma DeliveringKept(cfg: Config, s: Sys, ev: Event)
    requires Safe(cfg, s) && Delivering(s) && Enabled(cfg, s, ev)
    ensures Delivering(Apply(cfg, s, ev))
  {
    match ev {
      case TxIn(origin, tx, victim) => TxInKeepsDelivering(cfg, s, origin, tx, victim);
      case Connect(id, name) => ConnectKeepsDelivering(s, id, name);
      case Disconnect(c) => DisconnectKeepsDelivering(cfg, s, c);
      case Commit => CommitKeepsDelivering(cfg, s);
      case SendNext => SendKeepsDelivering(cfg, s);
      case _ => OthersKeepDelivering(cfg, s, ev);
    }
  }

  // ---- Announcements ----

  /** Every channel's announcements are a subsequence of what the server accepted. */
  ghost predicate Announcing(s: Sys) {
    forall c :: 0 <= c < |s.node.channels| ==>
      IsSubsequence(Announced(s.node.channels[c].log), s.accepted)
  }

  lemma MessageKeepsAnnouncing(ch: Channel, ms: seq<Msg>, accepted: seq<SignedTx>,
                               accepted': seq<SignedTx>, tx: SignedTx)
    requires IsSubsequence(Announced(ch.log), accepted)
    requires accepted' == accepted || accepted' == accepted + [tx]
    requires || ms == []
             || (|ms| == 1 && TxOf(ms[0]) == [])
             || (ms == [TxAnnounce(tx)] && accepted' == accepted + [tx])
    ensures IsSubsequence(Announced(Extend(ch, ms).log), accepted')
  {
    SubsequenceExtends(Announced(ch.log), accepted, tx);
    assert Announced(ch.log) + [] == Announced(ch.log);
    if ms != [] {
      assert ms == [ms[0]];
      AppendOne(ch.log, ms[0]);
    }
  }

  lemma BlockKeepsAnnouncing(ch: Channel, b: Block, accepted: seq<SignedTx>)
    requires IsSubsequence(Announced(ch.log), accepted)
    ensures IsSubsequence(Announced(Extend(ch, [NewBlock(b)]).log), accepted)
  {
    AppendOne(ch.log, NewBlock(b));
    assert Announced(ch.log) + [] == Announced(ch.log);
  }

  lemma TxInKeepsAnnouncing(cfg: Config, s: Sys, origin: Origin, tx: SignedTx, victim: Option<Text>)
    requires Announcing(s)
    ensures Announcing(AfterTxIn(cfg, s, origin, tx, victim))
  {
    var s', r := AfterTxIn(cfg, s, origin, tx, victim), Outcome(cfg, s, tx);
    forall c | 0 <= c < |s.node.channels|
      ensures IsSubsequence(Announced(s'.node.channels[c].log), s'.accepted)
    {
      OutgoingCases(cfg.env, s.node, origin, tx, r, c);
      MessageKeepsAnnouncing(s.node.channels[c], Outgoing(cfg.env, s.node, origin, tx, r, c),
                             s.accepted, s'.accepted, tx);
    }
  }

  lemma ConnectKeepsAnnouncing(s: Sys, id: Text, name: Text)
    requires Announcing(s)
    ensures Announcing(AfterConnect(s, id, name))
  {
    var s', n := AfterConnect(s, id, name), |s.node.channels|;
    AnnouncedGrows([], s'.node.channels[n].log, []);
    assert s'.node.channels[n].log == [] + s'.node.channels[n].log;
  }

  lemma SendKeepsAnnouncing(s: Sys, b: Block, targets: seq<nat>)
    requires Announcing(s) && targets != [] && targets[0] < |s.node.channels|
    ensures Announcing(AfterSending(s, b, targets))
  {
    BlockKeepsAnnouncing(s.node.channels[targets[0]], b, s.accepted);
  }

  lemma OthersKeepAnnouncing(cfg: Config, s: Sys, ev: Event)
    requires Announcing(s) && Enabled(cfg, s, ev) && !ev.TxIn? && !ev.Connect? && !ev.SendNext?
    ensures Announcing(Apply(cfg, s, ev))
  {
    var s' := Apply(cfg, s, ev);
    assert s'.node.channels == s.node.channels && s'.accepted == s.accepted;
  }

  lemma AnnouncingKept(cfg: Config, s: Sys, ev: Event)
    requires Announcing(s) && Enabled(cfg, s, ev)
    ensures Announcing(Apply(cfg, s, ev))
  {
    match ev {
      case TxIn(origin, tx, victim) => TxInKeepsAnnouncing(cfg, s, origin, tx, victim);
      case Connect(id, name) => ConnectKeepsAnnouncing(s, id, name);
      case SendNext =>
        if s.phase.targets != [] {
          SendKeepsAnnouncing(s, s.phase.block, s.phase.targets);
        }
      case _ => OthersKeepAnnouncing(cfg, s, ev);
    }
  }

  // ---- Gossip reaches everyone ----

  /** Whether a transaction from this origin is announced to the peer `owner`. */
  predicate Carries(origin: Origin, owner: Text) {
    match origin case FromHttp => true case FromGossip => false case FromPeer(id) => id != owner
  }

  /** Of the transactions accepted, those announced to the peer `owner`, in order. */
  function Heard(owner: Text, txs: seq<SignedTx>, sources: seq<Origin>): seq<SignedTx>
    requires |txs| == |sources|
  {
    if txs == [] then [] else
      Heard(owner, txs[..|txs| - 1], sources[..|txs| - 1])
      + if Carries(sources[|txs| - 1], owner) then [txs[|txs| - 1]] else []
  }

  /** A registered channel has carried every transaction accepted since it joined, but those
      its own peer submitted and those that came in as gossip, once each and in order. */
  ghost predicate HearsAll(ch: Channel, joined: nat, accepted: seq<SignedTx>, sources: seq<Origin>) {
    && joined <= |accepted| == |sources|
    && Announced(ch.log) == Heard(ch.owner, accepted[joined..], sources[joined..])
  }

  ghost predicate Hearing(s: Sys) {
    && |s.accepted| == |s.sources|
    && forall c :: 0 <= c < |s.node.channels| && c < |s.sessions| && Registered(s.node, c) ==>
         HearsAll(s.node.channels[c], s.sessions[c].joined, s.accepted, s.sources)
  }

  lemma HeardAppend(owner: Text, txs: seq<SignedTx>, sources: seq<Origin>, tx: SignedTx, origin: Origin)
    requires |txs| == |sources|
    ensures Heard(owner, txs + [tx], sources + [origin])
         == Heard(owner, txs, sources) + if Carries(origin, owner) then [tx] else []
  {
    assert (txs + [tx])[..|txs|] == txs && (sources + [origin])[..|txs|] == sources;
  }

  lemma OtherMessageKeepsHearing(ch: Channel, ms: seq<Msg>, joined: nat, accepted: seq<SignedTx>, sources: seq<Origin>)
    requires HearsAll(ch, joined, accepted, sources)
    requires |ms| <= 1 && (ms != [] ==> !ms[0].TxAnnounce?)
    ensures HearsAll(Extend(ch, ms), joined, accepted, sources)
  {
    AnnouncedGrows(ch.log, ms, []);
  }

  lemma HeardGrows(owner: Text, joined: nat, accepted: seq<SignedTx>, sources: seq<Origin>,
                   tx: SignedTx, origin: Origin)
    requires joined <= |accepted| == |sources|
    ensures Heard(owner, (accepted + [tx])[joined..], (sources + [origin])[joined..])
         == Heard(owner, accepted[joined..], sources[joined..]) + if Carries(origin, owner) then [tx] else []
  {
    HeardAppend(owner, accepted[joined..], sources[joined..], tx, origin);
    assert (accepted + [tx])[joined..] == accepted[joined..] + [tx];
    assert (sources + [origin])[joined..] == sources[joined..] + [origin];
  }

  lemma AnnouncedGrows(log: seq<Msg>, ms: seq<Msg>, heard: seq<SignedTx>)
    requires (ms == [] && heard == []) || (|ms| == 1 && heard == TxOf(ms[0]))
    ensures Announced(log + ms) == Announced(log) + heard
  {
    if ms == [] {
      assert log + ms == log;
    } else {
      assert ms == [ms[0]];
      AppendOne(log, ms[0]);
    }
  }

  lemma AcceptedIsHeard(ch: Channel, ms: seq<Msg>, joined: nat, accepted: seq<SignedTx>, sources: seq<Origin>,
                        tx: SignedTx, origin: Origin)
    requires HearsAll(ch, joined, accepted, sources)
    requires if Carries(origin, ch.owner) then ms == [TxAnnounce(tx)]
             else ms == [] || (|ms| == 1 && ms[0].TxAck?)
    ensures HearsAll(Extend(ch, ms), joined, accepted + [tx], sources + [origin])
  {
    HeardGrows(ch.owner, joined, accepted, sources, tx, origin);
    AnnouncedGrows(ch.log, ms, if Carries(origin, ch.owner) then [tx] else []);
  }

  /** To a registered channel, what goes out for an accepted transaction is an announcement
      exactly when its origin carries. */
  lemma OutgoingCarries(e: Env, n: NodeState, origin: Origin, tx: SignedTx, r: InsertResult, c: nat)
    requires Registered(n, c)
    ensures var ms := Outgoing(e, n, origin, tx, r, c);
      if r.Fresh() && Carries(origin, n.channels[c].owner) then ms == [TxAnnounce(tx)]
      else ms == [] || (|ms| == 1 && ms[0].TxAck?)
  {
  }

  lemma TxInKeepsHearing(cfg: Config, s: Sys, origin: Origin, tx: SignedTx, victim: Option<Text>)
    requires Structure(s) && Hearing(s)
    ensures Hearing(AfterTxIn(cfg, s, origin, tx, victim))
  {
    var r, s' := Outcome(cfg, s, tx), AfterTxIn(cfg, s, origin, tx, victim);
    forall c | 0 <= c < |s.sessions| && Registered(s'.node, c)
      ensures HearsAll(s'.node.channels[c], s.sessions[c].joined, s'.accepted, s'.sources)
    {
      assert s'.node.channels[c].owner == s.node.channels[c].owner && Registered(s.node, c);
      var ms := Outgoing(cfg.env, s.node, origin, tx, r, c);
      OutgoingCarries(cfg.env, s.node, origin, tx, r, c);
      if r.Fresh() {
        AcceptedIsHeard(s.node.channels[c], ms, s.sessions[c].joined, s.accepted, s.sources, tx, origin);
      } else {
        OtherMessageKeepsHearing(s.node.channels[c], ms, s.sessions[c].joined, s.accepted, s.sources);
      }
    }
  }

  lemma ConnectKeepsHearing(s: Sys, id: Text, name: Text)
    requires Structure(s) && Hearing(s)
    ensures Hearing(AfterConnect(s, id, name))
  {
    var s', n := AfterConnect(s, id, name), |s.sessions|;
    var log := s'.node.channels[n].log;
    AppendOne([], log[0]);
    assert log == [] + [log[0]];
    forall c | 0 <= c < n && Registered(s'.node, c)
      ensures HearsAll(s'.node.channels[c], s'.sessions[c].joined, s.accepted, s.sources)
    {
      assert Registered(s.node, c);
    }
  }

  lemma SendKeepsHearing(cfg: Config, s: Sys)
    requires Structure(s) && Hearing(s) && Enabled(cfg, s, SendNext)
    ensures Hearing(Apply(cfg, s, SendNext))
  {
    var s' := Apply(cfg, s, SendNext);
    if s.phase.targets != [] {
      var t := s.phase.targets[0];
      forall c | 0 <= c < |s.sessions| && Registered(s'.node, c)
        ensures HearsAll(s'.node.channels[c], s.sessions[c].joined, s.accepted, s.sources)
      {
        assert Registered(s.node, c);
        if c == t {
          OtherMessageKeepsHearing(s.node.channels[c], [NewBlock(s.phase.block)], s.sessions[c].joined,
                                   s.accepted, s.sources);
        }
      }
    }
  }

  lemma HearingKept(cfg: Config, s: Sys, ev: Event)
    requires Structure(s) && Hearing(s) && Enabled(cfg, s, ev)
    ensures Hearing(Apply(cfg, s, ev))
  {
    match ev {
      case TxIn(origin, tx, victim) => TxInKeepsHearing(cfg, s, origin, tx, victim);
      case Connect(id, name) => ConnectKeepsHearing(s, id, name);
      case SendNext => SendKeepsHearing(cfg, s);
      case _ => OthersKeepHearing(cfg, s, ev);
    }
  }

  lemma OthersKeepHearing(cfg: Config, s: Sys, ev: Event)
    requires Structure(s) && Hearing(s) && Enabled(cfg, s, ev)
    requires !ev.TxIn? && !ev.Connect? && !ev.SendNext?
    ensures Hearing(Apply(cfg, s, ev))
  {
    var s' := Apply(cfg, s, ev);
    assert s'.node.channels == s.node.channels && s'.accepted == s.accepted && s'.sources == s.sources;
    assert |s'.sessions| == |s.sessions| && s'.node.peers.Items <= s.node.peers.Items;
    forall c | 0 <= c < |s.sessions| && Registered(s'.node, c)
      ensures Registered(s.node, c) && s'.sessions[c].joined == s.sessions[c].joined
    {
    }
  }
}

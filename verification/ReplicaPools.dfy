/** Exactly which of the server's pending transactions a client's pool holds. */
module ReplicaPools {
  import opened Bytes
  import opened Crypto
  import opened Transaction
  import opened Chain
  import opened Mempool
  import opened Protocol
  import opened Replica
  import opened Node
  import opened Logs
  import opened Network
  import opened ChainSafety
  import opened Delivery
  import opened Clients
  import opened Runs
  import opened Replicas

  /** What channel `c` leaves in a pool that starts empty and keeps what it is told. */
  function LeftBy(e: Env, s: Sys, c: nat): set<Text>
    requires c < |s.node.channels|
  {
    Fold(e, {}, s.node.channels[c].log)
  }

  // ---- While an id stays pending ----

  /** From phase `p` and log `log` to `p'` and `log'` an id can leave transit but not enter
      it, and leaves channel `c`'s fold exactly when it leaves transit. */
  ghost predicate LeavesWithBlock(e: Env, p: Phase, log: seq<Msg>, p': Phase, log': seq<Msg>, c: nat, id: Text) {
    var held, stillHeld := id in InTransit(e, p, c), id in InTransit(e, p', c);
    && (stillHeld ==> held)
    && (id in Fold(e, {}, log') <==> id in Fold(e, {}, log) && (held ==> stillHeld))
  }

  ghost predicate Leaves(e: Env, s: Sys, t: Sys, c: nat, id: Text)
    requires c < |s.node.channels| && c < |t.node.channels|
  {
    LeavesWithBlock(e, s.phase, s.node.channels[c].log, t.phase, t.node.channels[c].log, c, id)
  }

  lemma OtherTxStays(e: Env, log: seq<Msg>, ms: seq<Msg>, tx: SignedTx, id: Text)
    requires ms == [] || (|ms| == 1 && ms[0].TxAck?) || (ms == [TxAnnounce(tx)] && TxId(e, tx) != id)
    ensures id in Fold(e, {}, log + ms) <==> id in Fold(e, {}, log)
  {
    if ms == [] {
      assert log + ms == log;
    } else {
      assert ms == [ms[0]];
      FoldAppend(e, {}, log, ms[0]);
    }
  }

  lemma TxInKeepsPending(cfg: Config, s: Sys, origin: Origin, tx: SignedTx, victim: Option<Text>, c: nat, id: Text)
    requires id in s.node.pool.byId && c < |s.node.channels|
    ensures Leaves(cfg.env, s, AfterTxIn(cfg, s, origin, tx, victim), c, id)
  {
    var r := Outcome(cfg, s, tx);
    LogAfterTxIn(cfg, s, origin, tx, victim, c);
    OutgoingCases(cfg.env, s.node, origin, tx, r, c);
    if r.Fresh() {
      FreshMeans(cfg.env, s.node.pool, tx, s.now);
    }
    OtherTxStays(cfg.env, s.node.channels[c].log, Outgoing(cfg.env, s.node, origin, tx, r, c), tx, id);
  }

  lemma DrainHoldsOthers(e: Env, p: Pool, ids: seq<Text>, id: Text)
    requires PoolSound(e, p) && DrainAllowed(p, MAX_TXS_PER_BLOCK, ids) && id in AfterDrain(p, ids).byId
    ensures id !in IdSet(e, Taken(p, ids))
  {
    DrainSplits(e, p, MAX_TXS_PER_BLOCK, ids);
  }

  lemma DrainKeepsPending(e: Env, s: Sys, txs: seq<SignedTx>, rest: Pool, c: nat, id: Text)
    requires s.phase.Awake? && id !in IdSet(e, txs) && c < |s.node.channels|
    ensures Leaves(e, s, AfterDraining(s, txs, rest), c, id)
  {
  }

  lemma SendKeepsPending(e: Env, b: Block, targets: seq<nat>, log: seq<Msg>, c: nat, id: Text)
    requires targets != [] && forall i, j :: 0 <= i < j < |targets| ==> targets[i] != targets[j]
    ensures LeavesWithBlock(e, Sending(b, targets), log, Sending(b, targets[1..]),
                            if c == targets[0] then log + [NewBlock(b)] else log, c, id)
  {
    FoldAppend(e, {}, log, NewBlock(b));
    assert c in targets <==> c == targets[0] || c in targets[1..];
  }

  lemma SendNextKeepsPending(cfg: Config, s: Sys, c: nat, id: Text)
    requires Structure(s) && Enabled(cfg, s, SendNext) && c < |s.node.channels|
    ensures c < |Apply(cfg, s, SendNext).node.channels|
    ensures Leaves(cfg.env, s, Apply(cfg, s, SendNext), c, id)
  {
    if s.phase.targets != [] {
      SendKeepsPending(cfg.env, s.phase.block, s.phase.targets, s.node.channels[c].log, c, id);
    }
  }

  lemma OthersKeepPending(cfg: Config, s: Sys, ev: Event, c: nat, id: Text)
    requires Enabled(cfg, s, ev) && !ev.TxIn? && !ev.Drain? && !ev.SendNext?
    requires Registered(s.node, c)
    ensures c < |Apply(cfg, s, ev).node.channels|
    ensures Leaves(cfg.env, s, Apply(cfg, s, ev), c, id)
  {
    var s' := Apply(cfg, s, ev);
    assert s'.node.channels[c].log == s.node.channels[c].log;
    if ev.Sleep? || ev.Wake? || ev.Build? || ev.Commit? || ev.Snapshot? {
      RoundKeepsInTransit(cfg, s, ev, c);
    } else {
      assert s'.phase == s.phase;
    }
  }

  lemma EventKeepsPending(cfg: Config, s: Sys, ev: Event, c: nat, id: Text)
    requires Structure(s) && PoolSound(cfg.env, s.node.pool) && Enabled(cfg, s, ev)
    requires Registered(s.node, c) && id in s.node.pool.byId && id in Apply(cfg, s, ev).node.pool.byId
    ensures c < |Apply(cfg, s, ev).node.channels|
    ensures Leaves(cfg.env, s, Apply(cfg, s, ev), c, id)
  {
    if ev.TxIn? {
      TxInKeepsPending(cfg, s, ev.origin, ev.tx, ev.victim, c, id);
      LogAfterTxIn(cfg, s, ev.origin, ev.tx, ev.victim, c);
    } else if ev.Drain? {
      DrainHoldsOthers(cfg.env, s.node.pool, ev.ids, id);
      DrainKeepsPending(cfg.env, s, Taken(s.node.pool, ev.ids), AfterDrain(s.node.pool, ev.ids), c, id);
    } else if ev.SendNext? {
      SendNextKeepsPending(cfg, s, c, id);
    } else {
      OthersKeepPending(cfg, s, ev, c, id);
    }
  }

  // ---- Registration is never regained ----

  lemma NeverReregistered(cfg: Config, s: Sys, ev: Event, c: nat)
    requires Enabled(cfg, s, ev) && c < |s.node.channels| && Registered(Apply(cfg, s, ev).node, c)
    ensures Registered(s.node, c)
  {
    var s' := Apply(cfg, s, ev);
    assert s'.node.channels[c].owner == s.node.channels[c].owner;
  }

  /** The channel an event opens starts with the member list. */
  lemma OpenedChannelIsEmpty(cfg: Config, s: Sys, ev: Event, c: nat)
    requires Enabled(cfg, s, ev) && |s.node.channels| <= c < |Apply(cfg, s, ev).node.channels|
    ensures LeftBy(cfg.env, Apply(cfg, s, ev), c) == {}
  {
    assert ev.Connect?;
    var log := Apply(cfg, s, ev).node.channels[c].log;
    assert log == [] + [log[0]];
    FoldAppend(cfg.env, {}, [], log[0]);
  }

  // ---- From a state of a run to a later one ----

  ghost predicate PendingIn(states: seq<Sys>, id: Text, i: nat, j: nat)
    requires i <= j < |states|
  {
    forall k :: i <= k <= j ==> id in states[k].node.pool.byId
  }

  /** What channel `c` leaves of an id that stays pending from `s` to `t`. */
  ghost predicate Tracks(e: Env, s: Sys, t: Sys, c: nat, id: Text)
    requires c < |t.node.channels|
  {
    if c < |s.node.channels| then Leaves(e, s, t, c, id) else id !in LeftBy(e, t, c)
  }

  lemma TracksStep(e: Env, r: Sys, s: Sys, t: Sys, c: nat, id: Text)
    requires c < |s.node.channels| && c < |t.node.channels|
    requires Tracks(e, r, s, c, id) && Leaves(e, s, t, c, id)
    ensures Tracks(e, r, t, c, id)
  {
  }

  lemma EventTracks(cfg: Config, r: Sys, s: Sys, ev: Event, c: nat, id: Text)
    requires Structure(s) && PoolSound(cfg.env, s.node.pool) && Enabled(cfg, s, ev)
    requires id in s.node.pool.byId && id in Apply(cfg, s, ev).node.pool.byId
    requires |r.node.channels| <= |s.node.channels| && Registered(Apply(cfg, s, ev).node, c)
    requires c < |s.node.channels| ==> Registered(s.node, c) && Tracks(cfg.env, r, s, c, id)
    ensures Tracks(cfg.env, r, Apply(cfg, s, ev), c, id)
  {
    if c < |s.node.channels| {
      EventKeepsPending(cfg, s, ev, c, id);
      TracksStep(cfg.env, r, s, Apply(cfg, s, ev), c, id);
    } else {
      OpenedChannelIsEmpty(cfg, s, ev, c);
    }
  }

  lemma RunStep(cfg: Config, states: seq<Sys>, events: seq<Event>, k: nat)
    requires Lawful(cfg.env) && Run(cfg, states, events) && k < |events|
    ensures Structure(states[k]) && PoolSound(cfg.env, states[k].node.pool)
    ensures Enabled(cfg, states[k], events[k]) && states[k + 1] == Apply(cfg, states[k], events[k])
  {
    PartsInRun(cfg, states, events, k);
    assert Enabled(cfg, states[k], events[k]);
  }

  lemma {:induction false} PendingTracked(cfg: Config, states: seq<Sys>, events: seq<Event>,
                                          i: nat, j: nat, c: nat, id: Text)
    requires Lawful(cfg.env) && Run(cfg, states, events) && i <= j < |states|
    requires PendingIn(states, id, i, j) && Registered(states[j].node, c)
    ensures Tracks(cfg.env, states[i], states[j], c, id)
    decreases j
  {
    if i < j {
      RegisteredBefore(cfg, states, events, j - 1, c);
      if c < |states[j - 1].node.channels| {
        PendingTracked(cfg, states, events, i, j - 1, c, id);
      }
      StepTracks(cfg, states, events, i, j - 1, c, id);
    }
  }

  lemma RegisteredBefore(cfg: Config, states: seq<Sys>, events: seq<Event>, k: nat, c: nat)
    requires Run(cfg, states, events) && k < |events| && Registered(states[k + 1].node, c)
    ensures c < |states[k].node.channels| ==> Registered(states[k].node, c)
  {
    assert Enabled(cfg, states[k], events[k]);
    if c < |states[k].node.channels| {
      NeverReregistered(cfg, states[k], events[k], c);
    }
  }

  lemma StepTracks(cfg: Config, states: seq<Sys>, events: seq<Event>, i: nat, k: nat, c: nat, id: Text)
    requires Lawful(cfg.env) && Run(cfg, states, events) && i <= k < |events|
    requires id in states[k].node.pool.byId && id in states[k + 1].node.pool.byId
    requires Registered(states[k + 1].node, c)
    requires c < |states[k].node.channels| ==>
      Registered(states[k].node, c) && Tracks(cfg.env, states[i], states[k], c, id)
    ensures Tracks(cfg.env, states[i], states[k + 1], c, id)
  {
    RunStep(cfg, states, events, k);
    ChannelsOnlyGrow(cfg, states, events, i, k);
    EventTracks(cfg, states[i], states[k], events[k], c, id);
  }

  lemma ChannelsGrow(cfg: Config, s: Sys, ev: Event)
    requires Enabled(cfg, s, ev)
    ensures |s.node.channels| <= |Apply(cfg, s, ev).node.channels|
  {
  }

  lemma {:induction false} ChannelsOnlyGrow(cfg: Config, states: seq<Sys>, events: seq<Event>, i: nat, j: nat)
    requires Run(cfg, states, events) && i <= j < |states|
    ensures |states[i].node.channels| <= |states[j].node.channels|
    decreases j
  {
    if i < j {
      ChannelsOnlyGrow(cfg, states, events, i, j - 1);
      assert Enabled(cfg, states[j - 1], events[j - 1]);
      ChannelsGrow(cfg, states[j - 1], events[j - 1]);
    }
  }

  // ---- From its acceptance ----

  /** Event `m` accepts a transaction with this id as new, and the id has been pending ever
      since, up to state `j`. */
  ghost predicate PendingSince(cfg: Config, states: seq<Sys>, events: seq<Event>, id: Text, m: nat, j: nat) {
    && m < |events| && m < j < |states|
    && Accepts(cfg, states[m], events[m], id)
    && PendingIn(states, id, m + 1, j)
  }

  predicate Accepts(cfg: Config, s: Sys, ev: Event, id: Text) {
    ev.TxIn? && Outcome(cfg, s, ev.tx).Fresh() && TxId(cfg.env, ev.tx) == id
  }

  /** The announcement of an accepted transaction is what puts its id in a fold. */
  lemma AcceptanceLeaves(cfg: Config, s: Sys, ev: Event, c: nat, id: Text)
    requires Enabled(cfg, s, ev) && Accepts(cfg, s, ev, id) && Registered(s.node, c)
    ensures var s' := Apply(cfg, s, ev);
      && |s'.node.channels| == |s.node.channels| && s'.phase == s.phase
      && (id in LeftBy(cfg.env, s', c) <==>
            Carries(ev.origin, s.node.channels[c].owner) || id in LeftBy(cfg.env, s, c))
  {
    var log, r := s.node.channels[c].log, Outcome(cfg, s, ev.tx);
    var ms := Outgoing(cfg.env, s.node, ev.origin, ev.tx, r, c);
    LogAfterTxIn(cfg, s, ev.origin, ev.tx, ev.victim, c);
    OutgoingCarries(cfg.env, s.node, ev.origin, ev.tx, r, c);
    if ms == [] {
      assert log + ms == log;
    } else {
      assert ms == [ms[0]];
      FoldAppend(cfg.env, {}, log, ms[0]);
    }
  }

  lemma EntersByAcceptance(cfg: Config, s: Sys, ev: Event, id: Text)
    requires Enabled(cfg, s, ev) && id !in s.node.pool.byId && id in Apply(cfg, s, ev).node.pool.byId
    ensures Accepts(cfg, s, ev, id)
  {
  }

  /** Every pending id has been pending since some acceptance. */
  lemma {:induction false} PendingWasAccepted(cfg: Config, states: seq<Sys>, events: seq<Event>, id: Text, j: nat)
    returns (m: nat)
    requires Run(cfg, states, events) && j < |states| && id in states[j].node.pool.byId
    ensures PendingSince(cfg, states, events, id, m, j)
    decreases j
  {
    if j == 0 {
      assert false;
    }
    if id in states[j - 1].node.pool.byId {
      m := PendingWasAccepted(cfg, states, events, id, j - 1);
      PendingGoesOn(cfg, states, events, id, m, j);
    } else {
      m := j - 1;
      PendingBegins(cfg, states, events, id, m);
    }
  }

  lemma PendingGoesOn(cfg: Config, states: seq<Sys>, events: seq<Event>, id: Text, m: nat, j: nat)
    requires 0 < j < |states| && PendingSince(cfg, states, events, id, m, j - 1)
    requires id in states[j].node.pool.byId
    ensures PendingSince(cfg, states, events, id, m, j)
  {
  }

  lemma PendingBegins(cfg: Config, states: seq<Sys>, events: seq<Event>, id: Text, m: nat)
    requires Run(cfg, states, events) && m < |events|
    requires id !in states[m].node.pool.byId && id in states[m + 1].node.pool.byId
    ensures PendingSince(cfg, states, events, id, m, m + 1)
  {
    assert Enabled(cfg, states[m], events[m]);
    EntersByAcceptance(cfg, states[m], events[m], id);
  }

  lemma AcceptedThenTracked(cfg: Config, states: seq<Sys>, events: seq<Event>, m: nat, j: nat, c: nat, id: Text)
    requires Lawful(cfg.env) && Run(cfg, states, events) && PendingSince(cfg, states, events, id, m, j)
    requires Registered(states[j].node, c)
    ensures |states[m + 1].node.channels| == |states[m].node.channels|
    ensures Tracks(cfg.env, states[m + 1], states[j], c, id)
    ensures c < |states[m].node.channels| ==> Registered(states[m].node, c)
  {
    PendingTracked(cfg, states, events, m + 1, j, c, id);
    RegisteredAllAlong(cfg, states, events, m, j, c);
    assert Enabled(cfg, states[m], events[m]);
    TxInKeepsChannelCount(cfg, states[m], events[m]);
  }

  lemma TxInKeepsChannelCount(cfg: Config, s: Sys, ev: Event)
    requires Enabled(cfg, s, ev) && ev.TxIn?
    ensures |Apply(cfg, s, ev).node.channels| == |s.node.channels|
  {
  }

  lemma {:induction false} RegisteredAllAlong(cfg: Config, states: seq<Sys>, events: seq<Event>, i: nat, j: nat, c: nat)
    requires Run(cfg, states, events) && i <= j < |states| && Registered(states[j].node, c)
    ensures c < |states[i].node.channels| ==> Registered(states[i].node, c)
    decreases j
  {
    if i < j && c < |states[i].node.channels| {
      ChannelsOnlyGrow(cfg, states, events, i, j - 1);
      RegisteredBefore(cfg, states, events, j - 1, c);
      RegisteredAllAlong(cfg, states, events, i, j - 1, c);
    }
  }

  /** Where a pending id stands with a registered channel depends only on the moment `m` of
      its acceptance and on whether a block with it is still on its way. A channel that was
      opened later never gets it. An earlier one has it if it was told, or had it already,
      unless a block with the same id that was then in transit has arrived since. */
  lemma PendingOnChannelIff(cfg: Config, states: seq<Sys>, events: seq<Event>, m: nat, j: nat, c: nat, id: Text)
    requires Lawful(cfg.env) && Run(cfg, states, events) && PendingSince(cfg, states, events, id, m, j)
    requires Registered(states[j].node, c)
    ensures c >= |states[m].node.channels| ==> id !in LeftBy(cfg.env, states[j], c)
    ensures c < |states[m].node.channels| ==>
      var held := id in InTransit(cfg.env, states[m].phase, c);
      var stillHeld := id in InTransit(cfg.env, states[j].phase, c);
      var there := Carries(events[m].origin, states[m].node.channels[c].owner)
                   || id in LeftBy(cfg.env, states[m], c);
      && (stillHeld ==> held)
      && (id in LeftBy(cfg.env, states[j], c) <==> there && (held ==> stillHeld))
  {
    AcceptedThenTracked(cfg, states, events, m, j, c, id);
    if c < |states[m].node.channels| {
      assert Enabled(cfg, states[m], events[m]);
      AcceptanceLeaves(cfg, states[m], events[m], c, id);
    }
  }

  // ---- The client's own pool ----

  /** The client's turn neither refuses an announcement as expired nor evicts anything. */
  predicate Keeps(s: Sys, ev: Event, c: nat)
    requires c < |s.sessions| && c < |s.node.channels|
  {
    ev.Process? && ev.c == c && s.sessions[c].read < |s.node.channels[c].log| ==>
      var m := s.node.channels[c].log[s.sessions[c].read];
      ev.victim == None && (m.TxAnnounce? ==> ev.at <= m.tx.expiry)
  }

  ghost predicate KeepsAll(states: seq<Sys>, events: seq<Event>, c: nat, j: nat)
    requires j <= |events| && j < |states|
  {
    forall k {:trigger events[k]} :: 0 <= k < j && c < |states[k].sessions| && c < |states[k].node.channels| ==>
      Keeps(states[k], events[k], c)
  }

  /** The client's pool is exactly the fold of what it has read. */
  ghost predicate PoolIsFold(e: Env, s: Sys, c: nat)
    requires c < |s.sessions| && c < |s.node.channels| && s.sessions[c].read <= |s.node.channels[c].log|
  {
    s.sessions[c].client.pool.byId.Keys == Fold(e, {}, ReadLog(s, c))
  }

  lemma TurnIsFold(cfg: Config, x: ClientState, m: Msg, at: nat)
    requires m.NewBlock? ==> Passes(cfg, m.block)
    requires m.TxAnnounce? ==> !InsertOutcome(cfg.env, x.pool, m.tx, at).Rejected?
    ensures AfterMsg(cfg.env, ServerKey(cfg), x, m, at, None).pool.byId.Keys
         == FoldOne(cfg.env, x.pool.byId.Keys, m)
  {
  }

  lemma TurnKeepsFold(cfg: Config, x: Session, log: seq<Msg>, at: nat)
    requires x.read < |log| && x.client.pool.byId.Keys == Fold(cfg.env, {}, log[..x.read])
    requires log[x.read].NewBlock? ==> Passes(cfg, log[x.read].block)
    requires log[x.read].TxAnnounce? ==> !InsertOutcome(cfg.env, x.client.pool, log[x.read].tx, at).Rejected?
    ensures AfterMsg(cfg.env, ServerKey(cfg), x.client, log[x.read], at, None).pool.byId.Keys
         == Fold(cfg.env, {}, log[..x.read + 1])
  {
    TurnIsFold(cfg, x.client, log[x.read], at);
    assert log[..x.read + 1] == log[..x.read] + [log[x.read]];
    FoldAppend(cfg.env, {}, log[..x.read], log[x.read]);
  }

  lemma ProcessKeepsFold(cfg: Config, s: Sys, c: nat, at: nat, victim: Option<Text>)
    requires c < |s.sessions| && c < |s.node.channels| && s.sessions[c].read < |s.node.channels[c].log|
    requires PoolIsFold(cfg.env, s, c) && victim == None
    requires var m := s.node.channels[c].log[s.sessions[c].read];
      && (m.NewBlock? ==> Passes(cfg, m.block))
      && (m.TxAnnounce? ==> !InsertOutcome(cfg.env, s.sessions[c].client.pool, m.tx, at).Rejected?)
    ensures PoolIsFold(cfg.env, AfterProcess(cfg, s, c, at, victim), c)
  {
    TurnKeepsFold(cfg, s.sessions[c], s.node.channels[c].log, at);
  }

  lemma OthersKeepFold(cfg: Config, s: Sys, ev: Event, c: nat)
    requires Structure(s) && Enabled(cfg, s, ev) && c < |s.sessions| && (ev.Process? ==> ev.c != c)
    requires PoolIsFold(cfg.env, s, c)
    ensures var s' := Apply(cfg, s, ev);
      && c < |s'.sessions| && c < |s'.node.channels| && s'.sessions[c].read <= |s'.node.channels[c].log|
      && PoolIsFold(cfg.env, s', c)
  {
    var s' := Apply(cfg, s, ev);
    LogsOnlyGrow(cfg, s, ev, c);
    assert s'.sessions[c].read == s.sessions[c].read && s'.sessions[c].client == s.sessions[c].client;
    assert ReadLog(s', c) == ReadLog(s, c);
  }

  lemma ConnectStartsFold(cfg: Config, s: Sys, ev: Event, c: nat)
    requires Structure(s) && Enabled(cfg, s, ev) && |s.sessions| <= c < |Apply(cfg, s, ev).sessions|
    ensures var s' := Apply(cfg, s, ev);
      c < |s'.node.channels| && s'.sessions[c].read <= |s'.node.channels[c].log| && PoolIsFold(cfg.env, s', c)
  {
    assert ev.Connect?;
    assert ReadLog(Apply(cfg, s, ev), c) == [];
  }

  lemma EventKeepsFold(cfg: Config, s: Sys, ev: Event, c: nat)
    requires Invariant(cfg, s) && Enabled(cfg, s, ev) && c < |Apply(cfg, s, ev).sessions|
    requires c < |s.sessions| ==>
      && c < |s.node.channels| && s.sessions[c].read <= |s.node.channels[c].log|
      && Keeps(s, ev, c) && PoolIsFold(cfg.env, s, c)
    ensures var s' := Apply(cfg, s, ev);
      c < |s'.node.channels| && s'.sessions[c].read <= |s'.node.channels[c].log| && PoolIsFold(cfg.env, s', c)
  {
    if c >= |s.sessions| {
      ConnectStartsFold(cfg, s, ev, c);
    } else if ev.Process? && ev.c == c {
      NextTurn(cfg, s, c, ev.at);
      ProcessKeepsFold(cfg, s, c, ev.at, ev.victim);
    } else {
      OthersKeepFold(cfg, s, ev, c);
    }
  }

  /** A client that never refused an announcement as expired and never evicted has exactly
      what the messages it has read leave. */
  lemma {:induction false} PoolIsFoldOverRun(cfg: Config, states: seq<Sys>, events: seq<Event>, c: nat, j: nat)
    requires Lawful(cfg.env) && Run(cfg, states, events) && j < |states| && c < |states[j].sessions|
    requires KeepsAll(states, events, c, j)
    ensures c < |states[j].node.channels| && states[j].sessions[c].read <= |states[j].node.channels[c].log|
    ensures PoolIsFold(cfg.env, states[j], c)
    decreases j
  {
    if j == 0 {
      assert false;
    }
    if c < |states[j - 1].sessions| {
      PoolIsFoldOverRun(cfg, states, events, c, j - 1);
      assert Keeps(states[j - 1], events[j - 1], c);
    }
    StepKeepsFold(cfg, states, events, c, j - 1);
  }

  lemma StepKeepsFold(cfg: Config, states: seq<Sys>, events: seq<Event>, c: nat, k: nat)
    requires Lawful(cfg.env) && Run(cfg, states, events) && k < |events| && c < |states[k + 1].sessions|
    requires c < |states[k].sessions| ==>
      && c < |states[k].node.channels| && states[k].sessions[c].read <= |states[k].node.channels[c].log|
      && Keeps(states[k], events[k], c) && PoolIsFold(cfg.env, states[k], c)
    ensures var s' := states[k + 1];
      c < |s'.node.channels| && s'.sessions[c].read <= |s'.node.channels[c].log| && PoolIsFold(cfg.env, s', c)
  {
    RunKeepsInvariant(cfg, states, events, k);
    assert Enabled(cfg, states[k], events[k]);
    EventKeepsFold(cfg, states[k], events[k], c);
  }

  /** Such a client, once its queue is read, has a pending id exactly under the condition on
      the moment of acceptance. */
  lemma ClientHasPendingIff(cfg: Config, states: seq<Sys>, events: seq<Event>, m: nat, j: nat, c: nat, id: Text)
    requires Lawful(cfg.env) && Run(cfg, states, events) && PendingSince(cfg, states, events, id, m, j)
    requires Registered(states[j].node, c) && c < |states[j].sessions| && KeepsAll(states, events, c, j)
    ensures states[j].sessions[c].read <= |states[j].node.channels[c].log|
    ensures var x, log := states[j].sessions[c], states[j].node.channels[c].log;
      var has := && c < |states[m].node.channels|
                 && (Carries(events[m].origin, states[m].node.channels[c].owner)
                     || id in LeftBy(cfg.env, states[m], c))
                 && (id in InTransit(cfg.env, states[m].phase, c) ==> id in InTransit(cfg.env, states[j].phase, c));
      && (id in Fold(cfg.env, x.client.pool.byId.Keys, log[x.read..]) <==> has)
      && (x.read == |log| ==> (id in x.client.pool.byId <==> has))
  {
    PendingOnChannelIff(cfg, states, events, m, j, c, id);
    PoolIsFoldOverRun(cfg, states, events, c, j);
    FoldSplit(cfg.env, {}, states[j].node.channels[c].log, states[j].sessions[c].read);
  }
}

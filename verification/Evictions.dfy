/** When the server's pool gives something up (src/rpc/mempool.rs). */
module Evictions {
  import opened Bytes
  import opened Crypto
  import opened Transaction
  import opened Mempool
  import opened Network
  import opened Runs

  lemma LimitsKept(cfg: Config, s: Sys, ev: Event)
    requires Enabled(cfg, s, ev)
    ensures Apply(cfg, s, ev).node.pool.capacity == s.node.pool.capacity
    ensures Apply(cfg, s, ev).node.pool.minFee == s.node.pool.minFee
  {
  }

  lemma {:induction false} LimitsInRun(cfg: Config, states: seq<Sys>, events: seq<Event>, i: nat)
    requires Run(cfg, states, events) && i < |states|
    ensures states[i].node.pool.capacity == 50_000 && states[i].node.pool.minFee == 0
  {
    if i > 0 {
      LimitsInRun(cfg, states, events, i - 1);
      assert Enabled(cfg, states[i - 1], events[i - 1]);
      LimitsKept(cfg, states[i - 1], events[i - 1]);
    }
  }

  /** What has been seen is what has been accepted. */
  ghost predicate SeenIsAccepted(e: Env, seen: set<Text>, accepted: seq<SignedTx>) {
    && (forall i :: 0 <= i < |accepted| ==> TxId(e, accepted[i]) in seen)
    && (forall id :: id in seen ==> exists i :: 0 <= i < |accepted| && TxId(e, accepted[i]) == id)
  }

  lemma SeenGrows(e: Env, seen: set<Text>, accepted: seq<SignedTx>, tx: SignedTx)
    requires SeenIsAccepted(e, seen, accepted)
    ensures SeenIsAccepted(e, seen + {TxId(e, tx)}, accepted + [tx])
  {
    var longer := accepted + [tx];
    forall id | id in seen + {TxId(e, tx)} ensures exists i :: 0 <= i < |longer| && TxId(e, longer[i]) == id {
      if id in seen {
        var i :| 0 <= i < |accepted| && TxId(e, accepted[i]) == id;
        assert longer[i] == accepted[i];
      } else {
        assert longer[|accepted|] == tx;
      }
    }
  }

  lemma SeenAfter(cfg: Config, s: Sys, ev: Event)
    requires Enabled(cfg, s, ev)
    ensures var s', taken := Apply(cfg, s, ev), ev.TxIn? && Outcome(cfg, s, ev.tx).Fresh();
      && s'.accepted == s.accepted + (if taken then [ev.tx] else [])
      && s'.node.pool.seen == s.node.pool.seen + if taken then {TxId(cfg.env, ev.tx)} else {}
  {
  }

  lemma SeenKept(cfg: Config, s: Sys, ev: Event)
    requires SeenIsAccepted(cfg.env, s.node.pool.seen, s.accepted) && Enabled(cfg, s, ev)
    ensures SeenIsAccepted(cfg.env, Apply(cfg, s, ev).node.pool.seen, Apply(cfg, s, ev).accepted)
  {
    SeenAfter(cfg, s, ev);
    if ev.TxIn? {
      SeenGrows(cfg.env, s.node.pool.seen, s.accepted, ev.tx);
    }
  }

  /** Over a run `seen` holds the ids of all transactions accepted so far and no others: it
      only grows, and nothing consults it. */
  lemma {:induction false} SeenInRun(cfg: Config, states: seq<Sys>, events: seq<Event>, i: nat)
    requires Run(cfg, states, events) && i < |states|
    ensures SeenIsAccepted(cfg.env, states[i].node.pool.seen, states[i].accepted)
  {
    if i > 0 {
      SeenInRun(cfg, states, events, i - 1);
      assert Enabled(cfg, states[i - 1], events[i - 1]);
      SeenKept(cfg, states[i - 1], events[i - 1]);
    }
  }

  lemma PoolInRun(cfg: Config, states: seq<Sys>, events: seq<Event>, i: nat)
    requires Lawful(cfg.env) && Run(cfg, states, events) && i < |states|
    ensures states[i].node.pool.capacity == 50_000 && |states[i].node.pool.byId| <= 50_000
  {
    LimitsInRun(cfg, states, events, i);
    PartsInRun(cfg, states, events, i);
  }

  /** What one event does to the evicted and to the pool. */
  lemma EventEvicts(cfg: Config, s: Sys, ev: Event)
    requires Enabled(cfg, s, ev) && s.node.pool.capacity == 50_000 && |s.node.pool.byId| <= 50_000
    ensures var s' := Apply(cfg, s, ev);
      s'.evicted != s.evicted <==> ev.TxIn? && |s'.accepted| == |s.accepted| + 1 && |s.node.pool.byId| == 50_000
    ensures var s' := Apply(cfg, s, ev);
      s'.evicted == s.evicted || exists id :: id in s.node.pool.byId && s'.evicted == s.evicted + [id]
    ensures |s.accepted| <= |Apply(cfg, s, ev).accepted|
  {
    if ev.TxIn? && Outcome(cfg, s, ev.tx).Fresh() {
      EvictsOnlyWhenFull(cfg.env, s.node.pool, ev.tx, s.now, ev.victim);
    }
  }

  /** Over a run the server gives up a pending transaction, and then exactly one, exactly when
      it accepts a new one while holding 50000. */
  lemma EvictsExactlyWhenFull(cfg: Config, states: seq<Sys>, events: seq<Event>, k: nat)
    requires Lawful(cfg.env) && Run(cfg, states, events) && k < |events|
    ensures var s, t := states[k], states[k + 1];
      && (t.evicted != s.evicted <==>
            events[k].TxIn? && |t.accepted| == |s.accepted| + 1 && |s.node.pool.byId| == 50_000)
      && (t.evicted == s.evicted || exists id :: id in s.node.pool.byId && t.evicted == s.evicted + [id])
      && |s.accepted| <= |t.accepted|
  {
    PoolInRun(cfg, states, events, k);
    assert Enabled(cfg, states[k], events[k]);
    EventEvicts(cfg, states[k], events[k]);
  }

  lemma PoolWithinAccepted(cfg: Config, states: seq<Sys>, events: seq<Event>, i: nat)
    requires Lawful(cfg.env) && Run(cfg, states, events) && i < |states|
    ensures |states[i].node.pool.byId| <= |states[i].accepted|
  {
    StateIsReachable(cfg, states, events, i);
    AcceptedAreCounted(cfg, states[i]);
  }

  lemma StateIsReachable(cfg: Config, states: seq<Sys>, events: seq<Event>, i: nat)
    requires Run(cfg, states, events) && i < |states|
    ensures Reachable(cfg, states[i])
  {
    var front, done := states[..i + 1], events[..i];
    forall k | 0 <= k < |done|
      ensures Enabled(cfg, front[k], done[k]) && front[k + 1] == Apply(cfg, front[k], done[k])
    {
      assert Enabled(cfg, states[k], events[k]);
    }
    assert Run(cfg, front, done) && front[|done|] == states[i];
  }

  lemma {:induction false} EvictionsNeedAcceptances(cfg: Config, states: seq<Sys>, events: seq<Event>, i: nat)
    requires Lawful(cfg.env) && Run(cfg, states, events) && i < |states|
    ensures states[i].evicted != [] ==> |states[i].accepted| > 50_000
  {
    if i > 0 {
      EvictionsNeedAcceptances(cfg, states, events, i - 1);
      EvictsExactlyWhenFull(cfg, states, events, i - 1);
      PoolWithinAccepted(cfg, states, events, i - 1);
    }
  }

  /** A server that has accepted no more than 50000 transactions has evicted none, so each is
      pending, in flight or in a block. */
  lemma NothingEvictedEarly(cfg: Config, s: Sys)
    requires Lawful(cfg.env) && Reachable(cfg, s) && |s.accepted| <= 50_000
    ensures s.evicted == []
  {
    var states: seq<Sys>, events: seq<Event> :| Run(cfg, states, events) && states[|events|] == s;
    EvictionsNeedAcceptances(cfg, states, events, |events|);
  }
}
